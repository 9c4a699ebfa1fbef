/**
 The money-moving routes: `/micro-deposits` with `verify_micro_deposits`,
 `/actual-deposits` and `/transfer-funds`. Each route is a function of the
 values `float(...)` and `.get(...)` produced from the JSON body (`None` where
 `float()` raised) and of its collaborator as an oracle; its effects are the
 collaborator calls it made.
 */
module Deposits {
  import opened Values
  import opened Http

  /** The double the literal `0.10` denotes: the binary64 value nearest to one tenth. */
  const ExpectedDeposit1: real := 0.1000000000000000055511151231257827021181583404541015625
  /** The double the literal `0.15` denotes, just below fifteen hundredths. */
  const ExpectedDeposit2: real := 0.1499999999999999944488848768742172978818416595458984375

  /**
   `verify_micro_deposits`: exact equality with the two expected amounts, no
   tolerance. An amount written "0.1" or "0.10000000000000001" in the request
   parses to the same double, so it matches.
   */
  function VerifyMicroDeposits(deposit1: Double, deposit2: Double): (ok: bool)
    ensures ok <==>
      && deposit1 == Finite(0.1000000000000000055511151231257827021181583404541015625)
      && deposit2 == Finite(0.1499999999999999944488848768742172978818416595458984375)
  {
    deposit1 == Finite(ExpectedDeposit1) && deposit2 == Finite(ExpectedDeposit2)
  }

  /** Any amount other than the expected one fails, however close it is. */
  lemma MicroDepositsHaveNoTolerance(e: real, d: Double)
    requires e != 0.0
    ensures !VerifyMicroDeposits(Finite(ExpectedDeposit1 + e), d)
    ensures !VerifyMicroDeposits(d, Finite(ExpectedDeposit2 + e))
    ensures !VerifyMicroDeposits(NaN, d) && !VerifyMicroDeposits(d, NaN)
  {
  }

  /**
   `/micro-deposits`: a body value `float()` rejects is 500; a zero deposit is
   400 before any comparison; otherwise the pair is compared, 200 on a match and
   400 on a mismatch. The effect recorded is the comparison.
   */
  function MicroDeposits(deposit1: Option<Double>, deposit2: Option<Double>): (h: Handled<(Double, Double)>)
    ensures h.response.status == 200 <==> deposit1.Some? && deposit2.Some? && VerifyMicroDeposits(deposit1.value, deposit2.value)
    ensures h.response.status == 200 ==> h.response == Response(200, Message("Account verified successfully."))
    ensures |h.effects| > 0 && h.response.status != 200 ==>
      h.response == Response(400, Message("Micro deposits verification failed."))
    ensures h.response.status == 500 <==> deposit1.None? || deposit2.None?
    ensures h.response.status in {200, 400, 500}
    ensures deposit1.None? || deposit2.None? ==> h == Handled(InternalError, [])
    ensures |h.effects| > 0 <==> deposit1.Some? && deposit2.Some? && deposit1.value.Truthy() && deposit2.value.Truthy()
    ensures |h.effects| > 0 ==> h.effects == [(deposit1.value, deposit2.value)]
    ensures deposit1.Some? && deposit2.Some? && !(deposit1.value.Truthy() && deposit2.value.Truthy())
      ==> h == Reject(400, "Micro deposits are required.")
  {
    match (deposit1, deposit2)
    case (Some(d1), Some(d2)) =>
      if !d1.Truthy() || !d2.Truthy() then Reject(400, "Micro deposits are required.")
      else if VerifyMicroDeposits(d1, d2) then Handled(Response(200, Message("Account verified successfully.")), [(d1, d2)])
      else Handled(Response(400, Message("Micro deposits verification failed.")), [(d1, d2)])
    case _ => Handled(InternalError, [])
  }

  /** The zero check does not catch negative deposits: they are compared and fail as a mismatch. */
  lemma NegativeMicroDepositsAreCompared(v1: real, v2: real)
    requires v1 < 0.0 && v2 < 0.0
    ensures var h := MicroDeposits(Some(Finite(v1)), Some(Finite(v2)));
      && h.effects == [(Finite(v1), Finite(v2))]
      && h.response == Response(400, Message("Micro deposits verification failed."))
  {
  }

  /**
   The amount test of both deposit routes, `amount <= 0`, lets through exactly
   the positive amounts and NaN.
   */
  lemma AmountGateAdmitsPositiveOrNaN(x: Double)
    ensures !x.AtMostZero() <==> x.Positive() || x.NaN?
  {
  }

  /**
   `/actual-deposits`: a body value `float()` rejects is 500; an amount that is
   `<= 0` is 400 with no deposit made; otherwise `handle_actual_deposit` is
   called once and its `success` flag decides 200 or 500.
   */
  function ActualDeposits(amount: Option<Double>, deposit: Double -> bool): (h: Handled<Double>)
    ensures amount.None? ==> h == Handled(InternalError, [])
    ensures h.response.status == 400 <==> amount.Some? && amount.value.AtMostZero()
    ensures h.response.status == 400 ==> h == Reject(400, "Invalid deposit amount.")
    ensures h.response.status == 200 <==> amount.Some? && !amount.value.AtMostZero() && deposit(amount.value)
    ensures h.response.status == 200 ==> h.response == Response(200, Message("Deposit successful."))
    ensures |h.effects| > 0 && h.response.status != 200 ==> h.response == Response(500, Message("Deposit failed."))
    ensures h.response.status in {200, 400, 500}
    ensures |h.effects| > 0 <==> amount.Some? && !amount.value.AtMostZero()
    ensures |h.effects| > 0 ==> h.effects == [amount.value]
  {
    match amount
    case None => Handled(InternalError, [])
    case Some(a) =>
      if a.AtMostZero() then Reject(400, "Invalid deposit amount.")
      else if deposit(a) then Handled(Response(200, Message("Deposit successful.")), [a])
      else Handled(Response(500, Message("Deposit failed.")), [a])
  }

  /** `handle_actual_deposit` as the source has it: it always reports success. */
  function SourceDeposit(amount: Double): bool {
    true
  }

  /** With the source's stub every positive amount is 200, a non-positive one is 400 with no deposit. */
  lemma SourceDepositOutcomes(amount: Double)
    ensures amount.Positive() ==> ActualDeposits(Some(amount), SourceDeposit).response.status == 200
    ensures !amount.Positive() && !amount.NaN? ==> ActualDeposits(Some(amount), SourceDeposit) == Reject(400, "Invalid deposit amount.")
    ensures ActualDeposits(Some(NaN), SourceDeposit) == Handled(Response(200, Message("Deposit successful.")), [NaN])
  {
  }

  /** What `transfer_funds_to_account` returns. */
  datatype TransferResult = TransferResult(success: bool, message: string)

  /**
   `/transfer-funds`: a body amount `float()` rejects is 500 (whatever the
   token); a missing or empty token or an amount `<= 0` is 400 with no
   transfer; otherwise `transfer_funds_to_account` is called once and its
   result's `success` decides 200 or 500, with its message passed through.
   */
  function TransferFunds(accessToken: Option<string>, amount: Option<Double>, transfer: (string, Double) -> TransferResult)
    : (h: Handled<(string, Double)>)
    ensures amount.None? ==> h == Handled(InternalError, [])
    ensures h.response.status == 400 <==> amount.Some? && (!Present(accessToken) || amount.value.AtMostZero())
    ensures h.response.status == 400 ==> h == Reject(400, "Access token and valid amount are required.")
    ensures |h.effects| > 0 <==> amount.Some? && Present(accessToken) && !amount.value.AtMostZero()
    ensures |h.effects| > 0 ==>
      var result := transfer(accessToken.value, amount.value);
      && h.effects == [(accessToken.value, amount.value)]
      && h.response == Response(if result.success then 200 else 500, Message(result.message))
  {
    match amount
    case None => Handled(InternalError, [])
    case Some(a) =>
      if !Present(accessToken) || a.AtMostZero() then Reject(400, "Access token and valid amount are required.")
      else
        var result := transfer(accessToken.value, a);
        Handled(Response(if result.success then 200 else 500, Message(result.message)), [(accessToken.value, a)])
  }

  /** `transfer_funds_to_account` as the source has it: always a success. */
  function SourceTransfer(accessToken: string, amount: Double): TransferResult {
    TransferResult(true, "Funds transferred successfully")
  }

  /**
   The route checks only that the token is a non-empty string: with the
   source's stub, any such token and any positive amount moves funds, whether
   or not a verification ever issued that token.
   */
  lemma TransferTrustsAnyToken(token: string, amount: real)
    requires |token| > 0 && amount > 0.0
    ensures TransferFunds(Some(token), Some(Finite(amount)), SourceTransfer)
      == Handled(Response(200, Message("Funds transferred successfully")), [(token, Finite(amount))])
  {
  }

  /** An empty token is turned away before the transfer, and so is a missing amount, as 500 not 400. */
  lemma TransferRejections(transfer: (string, Double) -> TransferResult)
    ensures TransferFunds(Some(""), Some(Finite(100.0)), transfer) == Reject(400, "Access token and valid amount are required.")
    ensures TransferFunds(None, None, transfer) == Handled(InternalError, [])
  {
  }
}
