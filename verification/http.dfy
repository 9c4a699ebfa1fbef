/**
 What every route handler produces, and the `authenticate_token` decorator
 that stands in front of every route except `/upload-pdf`.
 */
module Http {
  import opened Values
  import opened Statements

  /** The JSON object a route answers with. */
  datatype Body =
    | Message(message: string)
    | Error(error: string)
    | LinkSuccess(accessToken: string, message: string)
    | Processed(message: string, statements: seq<Statement>)
    /** Flask's own error page, sent when a route raises and no handler catches it. */
    | ServerErrorPage

  datatype Response = Response(status: nat, body: Body)

  /**
   A route's answer together with the side-effecting collaborator calls it
   made, in order; a request that is turned away has no calls.
   */
  datatype Handled<+E> = Handled(response: Response, effects: seq<E>)

  /** The answer of every `except Exception` clause around a route body. */
  const InternalError := Response(500, Error("Internal Server Error"))

  /** The answer Flask gives for an exception the route leaves uncaught. */
  const UncaughtException := Response(500, ServerErrorPage)

  /** What a request is turned away with before any work is done. */
  function Reject<E>(status: nat, message: string): Handled<E> {
    Handled(Response(status, Message(message)), [])
  }

  /**
   `authenticate_token`: a missing or empty `Authorization` header is 401, a
   header the JWT decoder raises on is 403, and only a header it accepts lets
   the wrapped route run. `decodes` is the decoder as an oracle.
   */
  function Authenticate<E>(authorization: Option<string>, decodes: string -> bool, route: Handled<E>): (h: Handled<E>)
    ensures !Present(authorization) ==> h == Reject(401, "Token is missing!")
    ensures Present(authorization) && !decodes(authorization.value) ==> h == Reject(403, "Token is invalid!")
    ensures Present(authorization) && decodes(authorization.value) ==> h == route
    ensures |h.effects| > 0 ==> Present(authorization) && decodes(authorization.value)
  {
    if !Present(authorization) then Reject(401, "Token is missing!")
    else if !decodes(authorization.value) then Reject(403, "Token is invalid!")
    else route
  }

  /**
   The decoder as the source has it: `JWT_SECRET` is never defined, so every
   call raises `NameError`, which the decorator catches.
   */
  function SourceDecode(token: string): bool {
    false
  }

  /** With the source's decoder no protected route ever runs: every request is 401 or 403 with no calls made. */
  lemma SourceAuthenticationRejectsAll<E>(authorization: Option<string>, route: Handled<E>)
    ensures var h := Authenticate(authorization, SourceDecode, route);
      && h.effects == []
      && (h.response.status == 401 || h.response.status == 403)
      && (h.response.status == 401 <==> !Present(authorization))
  {
  }
}
