/**
 `manual_login_and_link_bank_account` as a state machine, and the
 `/manual-login` route around it.

 The flow logs the lender in against the `MOCK_USERNAME`/`MOCK_PASSWORD`
 environment values, "verifies" the lender, takes the account details from a
 voided cheque, receives a verification code, generates an access token from
 it and asks `check_bank_verification`. Only when that says yes are the
 statements read, saved again and summed, and the token handed back.
 `receive_verification_code`, `generate_access_token`,
 `check_bank_verification`, the CSV reader and `float()` on an amount are
 collaborators given as values and oracles.
 */
module Linking {
  import opened Values
  import opened Http

  datatype AccountDetails = AccountDetails(accountNumber: string, routingNumber: string)

  /** What `upload_and_extract_details` returns, always. */
  const VoidedCheck := AccountDetails("7030 3429 9651", "026 015 053")

  /** A row of `csv.DictReader`: column name to cell. */
  type Row = map<string, string>

  /** `MOCK_USERNAME` and `MOCK_PASSWORD` from the environment; `None` when unset. */
  datatype Env = Env(mockUsername: Option<string>, mockPassword: Option<string>)

  /** `data.get('username')` and `data.get('password')` of the request body. */
  datatype Credentials = Credentials(username: Option<string>, password: Option<string>)

  /** The flow's collaborators; `None` stands for a call that raised. */
  datatype Collaborators = Collaborators(
    verificationCode: Option<string>,
    generateAccessToken: string -> Option<string>,
    checkBankVerification: (string, AccountDetails) -> bool,
    statements: seq<Row>,
    parsesAsFloat: string -> bool)

  /** `perform_manual_login`: plain equality, so an unset variable matches an absent field. */
  predicate LoginAccepted(creds: Credentials, env: Env) {
    creds.username == env.mockUsername && creds.password == env.mockPassword
  }

  /** `calculate_ending_balance` returns (rather than raising) when every row has an amount `float()` accepts. */
  predicate BalanceComputes(rows: seq<Row>, parsesAsFloat: string -> bool) {
    forall i :: 0 <= i < |rows| ==> "amount" in rows[i] && parsesAsFloat(rows[i]["amount"])
  }

  /** The calls the flow makes, in the order it makes them, with the answers that steer it. */
  datatype Call =
    | Login(accepted: bool)
    | VerifyLender
    | ExtractDetails
    | ReceiveCode
    | GenerateToken(code: string)
    | CheckVerification(accessToken: string, details: AccountDetails, verified: bool)
    | ReadStatements
    | SaveStatements(rows: seq<Row>)
    | EndingBalance
  {
    /** The calls that touch the lender's statements. */
    predicate HandlesStatements() {
      ReadStatements? || SaveStatements? || EndingBalance?
    }
  }

  /**
   How the flow ends: the error dictionary, the success dictionary, the
   implicit `None` when verification says no, or an exception.
   */
  datatype LinkResult = InvalidCredentials | Linked(accessToken: string) | NotVerified | Raised

  datatype Phase =
    | Start
    | LoggedIn
    | LenderVerified
    | DetailsExtracted(details: AccountDetails)
    | CodeReceived(details: AccountDetails, code: string)
    | TokenIssued(details: AccountDetails, accessToken: string)
    | BankVerified(accessToken: string)
    | StatementsRead(accessToken: string, rows: seq<Row>)
    | StatementsSaved(accessToken: string, rows: seq<Row>)
    | Finished(result: LinkResult)
  {
    /** The phases in which a token has passed `check_bank_verification`. */
    predicate HoldsVerifiedToken() {
      BankVerified? || StatementsRead? || StatementsSaved? || (Finished? && result.Linked?)
    }

    function VerifiedToken(): string
      requires HoldsVerifiedToken()
    {
      if Finished? then result.accessToken else accessToken
    }
  }

  /** Steps left before the flow can finish. */
  function Rank(p: Phase): nat {
    match p
    case Start => 9
    case LoggedIn => 8
    case LenderVerified => 7
    case DetailsExtracted(_) => 6
    case CodeReceived(_, _) => 5
    case TokenIssued(_, _) => 4
    case BankVerified(_) => 3
    case StatementsRead(_, _) => 2
    case StatementsSaved(_, _) => 1
    case Finished(_) => 0
  }

  datatype Transition = Transition(next: Phase, call: Call)

  /** One statement of the flow: the call it makes and the phase it leads to. */
  function Advance(p: Phase, creds: Credentials, env: Env, o: Collaborators): (t: Transition)
    requires !p.Finished?
    ensures Rank(t.next) < Rank(p)
    ensures t.call.HandlesStatements() ==> p.HoldsVerifiedToken()
    ensures t.next.HoldsVerifiedToken() && !p.HoldsVerifiedToken() ==>
      && p.TokenIssued?
      && o.checkBankVerification(t.next.VerifiedToken(), p.details)
      && t.call == CheckVerification(t.next.VerifiedToken(), p.details, true)
    ensures t.next.HoldsVerifiedToken() && p.HoldsVerifiedToken() ==> t.next.VerifiedToken() == p.VerifiedToken()
    ensures t.call.CheckVerification? ==>
      p.TokenIssued? && t.call.details == p.details && t.call.verified == o.checkBankVerification(t.call.accessToken, p.details)
    ensures t.next == Finished(NotVerified) ==> t.call.CheckVerification? && !t.call.verified
  {
    match p
    case Start =>
      if LoginAccepted(creds, env) then Transition(LoggedIn, Login(true))
      else Transition(Finished(InvalidCredentials), Login(false))
    case LoggedIn => Transition(LenderVerified, VerifyLender)
    case LenderVerified => Transition(DetailsExtracted(VoidedCheck), ExtractDetails)
    case DetailsExtracted(details) =>
      (match o.verificationCode
       case None => Transition(Finished(Raised), ReceiveCode)
       case Some(code) => Transition(CodeReceived(details, code), ReceiveCode))
    case CodeReceived(details, code) =>
      (match o.generateAccessToken(code)
       case None => Transition(Finished(Raised), GenerateToken(code))
       case Some(token) => Transition(TokenIssued(details, token), GenerateToken(code)))
    case TokenIssued(details, token) =>
      var verified := o.checkBankVerification(token, details);
      Transition(if verified then BankVerified(token) else Finished(NotVerified), CheckVerification(token, details, verified))
    case BankVerified(token) => Transition(StatementsRead(token, o.statements), ReadStatements)
    case StatementsRead(token, rows) => Transition(StatementsSaved(token, rows), SaveStatements(rows))
    case StatementsSaved(token, rows) =>
      Transition(if BalanceComputes(rows, o.parsesAsFloat) then Finished(Linked(token)) else Finished(Raised), EndingBalance)
  }

  /** How a run ends, and every call it made. */
  datatype Flow = Flow(result: LinkResult, trace: seq<Call>)

  /** Runs the flow from `p` to its end, appending each call to `trace`. */
  function Run(p: Phase, creds: Credentials, env: Env, o: Collaborators, trace: seq<Call>): Flow
    decreases Rank(p)
  {
    if p.Finished? then Flow(p.result, trace)
    else
      var t := Advance(p, creds, env, o);
      Run(t.next, creds, env, o, trace + [t.call])
  }

  /** Some call before position `j` was a `check_bank_verification` that said yes. */
  ghost predicate VerifiedBefore(trace: seq<Call>, j: nat)
    requires j <= |trace|
  {
    exists i :: 0 <= i < j && trace[i].CheckVerification? && trace[i].verified
  }

  /**
   The ordering guarantee: a call that touches statements comes only after an
   accepted login (the first call) and an affirmative bank verification.
   */
  ghost predicate StatementsGuarded(trace: seq<Call>) {
    forall j :: 0 <= j < |trace| && trace[j].HandlesStatements() ==>
      trace[0] == Login(true) && VerifiedBefore(trace, j)
  }

  /** Every recorded bank check was on the voided-cheque details and records the answer the check gave. */
  ghost predicate ChecksRecorded(trace: seq<Call>, o: Collaborators) {
    forall i :: 0 <= i < |trace| && trace[i].CheckVerification? ==>
      trace[i].details == VoidedCheck && trace[i].verified == o.checkBankVerification(trace[i].accessToken, VoidedCheck)
  }

  /** The last call was a bank check that said no. */
  predicate EndsRefused(trace: seq<Call>) {
    |trace| > 0 && trace[|trace| - 1].CheckVerification? && !trace[|trace| - 1].verified
  }

  /** `token` is what `generate_access_token` made of the code `receive_verification_code` gave. */
  predicate Issued(o: Collaborators, token: string) {
    o.verificationCode.Some? && o.generateAccessToken(o.verificationCode.value) == Some(token)
  }

  /** What holds of every phase reached from `Start` together with the calls made so far. */
  ghost predicate Reached(p: Phase, trace: seq<Call>, creds: Credentials, env: Env, o: Collaborators) {
    && StatementsGuarded(trace)
    && (p.Start? ==> trace == [])
    && (p == Finished(InvalidCredentials) ==> !LoginAccepted(creds, env) && trace == [Login(false)])
    && (!p.Start? && p != Finished(InvalidCredentials) ==>
          LoginAccepted(creds, env) && |trace| > 0 && trace[0] == Login(true))
    && ((p.DetailsExtracted? || p.CodeReceived? || p.TokenIssued?) ==> p.details == VoidedCheck)
    && (p.HoldsVerifiedToken() ==>
          && o.checkBankVerification(p.VerifiedToken(), VoidedCheck)
          && CheckVerification(p.VerifiedToken(), VoidedCheck, true) in trace)
    && ChecksRecorded(trace, o)
    && (p == Finished(NotVerified) ==> EndsRefused(trace))
    && (p.CodeReceived? ==> o.verificationCode == Some(p.code))
    && (p.TokenIssued? ==> Issued(o, p.accessToken))
    && (p.HoldsVerifiedToken() ==> Issued(o, p.VerifiedToken()))
    && ((p.StatementsRead? || p.StatementsSaved?) ==> p.rows == o.statements)
    && (p.Finished? && p.result.Linked? ==> BalanceComputes(o.statements, o.parsesAsFloat))
  }

  lemma AdvanceKeepsReached(p: Phase, trace: seq<Call>, creds: Credentials, env: Env, o: Collaborators)
    requires !p.Finished?
    requires Reached(p, trace, creds, env, o)
    ensures var t := Advance(p, creds, env, o);
      Reached(t.next, trace + [t.call], creds, env, o)
  {
    var t := Advance(p, creds, env, o);
    var trace' := trace + [t.call];
    if p.HoldsVerifiedToken() {
      assert CheckVerification(p.VerifiedToken(), VoidedCheck, true) in trace';
      assert t.next.HoldsVerifiedToken() ==> t.next.VerifiedToken() == p.VerifiedToken();
    }
    if p.TokenIssued? && t.next.HoldsVerifiedToken() {
      assert trace'[|trace|] == CheckVerification(p.accessToken, VoidedCheck, true);
    }
    forall j | 0 <= j < |trace'| && trace'[j].HandlesStatements()
      ensures trace'[0] == Login(true) && VerifiedBefore(trace', j)
    {
      if j < |trace| {
        var i :| 0 <= i < j && trace[i].CheckVerification? && trace[i].verified;
        assert trace'[i] == trace[i];
      } else {
        var i :| 0 <= i < |trace| && trace[i] == CheckVerification(p.VerifiedToken(), VoidedCheck, true);
        assert trace'[i] == trace[i];
      }
    }
  }

  /** Whatever phase a run starts from, if that phase was reached correctly then so is its end. */
  lemma {:induction false} RunKeepsReached(p: Phase, trace: seq<Call>, creds: Credentials, env: Env, o: Collaborators)
    requires Reached(p, trace, creds, env, o)
    ensures var f := Run(p, creds, env, o, trace);
      Reached(Finished(f.result), f.trace, creds, env, o)
    decreases Rank(p)
  {
    if !p.Finished? {
      var t := Advance(p, creds, env, o);
      AdvanceKeepsReached(p, trace, creds, env, o);
      RunKeepsReached(t.next, trace + [t.call], creds, env, o);
    }
  }

  /**
   `manual_login_and_link_bank_account`. Invalid credentials end the flow after
   the login call; a token is handed back, and statements are touched, only
   after an accepted login and a `check_bank_verification` that said yes to
   that very token.
   */
  function LinkBankAccount(creds: Credentials, env: Env, o: Collaborators): (f: Flow)
    ensures f.result == InvalidCredentials <==> !LoginAccepted(creds, env)
    ensures f.result == InvalidCredentials ==> f.trace == [Login(false)]
    ensures f.result.Linked? ==>
      && LoginAccepted(creds, env)
      && Issued(o, f.result.accessToken)
      && o.checkBankVerification(f.result.accessToken, VoidedCheck)
      && CheckVerification(f.result.accessToken, VoidedCheck, true) in f.trace
      && BalanceComputes(o.statements, o.parsesAsFloat)
    ensures f.result == NotVerified ==>
      && EndsRefused(f.trace)
      && !o.checkBankVerification(f.trace[|f.trace| - 1].accessToken, VoidedCheck)
    ensures StatementsGuarded(f.trace)
  {
    RunKeepsReached(Start, [], creds, env, o);
    Run(Start, creds, env, o, [])
  }

  /** With login, code and token all obtained, the flow reaches the bank check after five calls. */
  lemma RunToBankCheck(creds: Credentials, env: Env, o: Collaborators, code: string, token: string)
    requires LoginAccepted(creds, env)
    requires o.verificationCode == Some(code) && o.generateAccessToken(code) == Some(token)
    ensures Run(Start, creds, env, o, []) == Run(TokenIssued(VoidedCheck, token), creds, env, o,
      [Login(true), VerifyLender, ExtractDetails, ReceiveCode, GenerateToken(code)])
  {
    var t0 := [Login(true)];
    var t1 := t0 + [VerifyLender];
    var t2 := t1 + [ExtractDetails];
    var t3 := t2 + [ReceiveCode];
    var t4 := t3 + [GenerateToken(code)];
    var rest := Run(TokenIssued(VoidedCheck, token), creds, env, o, t4);
    assert Run(CodeReceived(VoidedCheck, code), creds, env, o, t3) == rest;
    assert Run(DetailsExtracted(VoidedCheck), creds, env, o, t2) == rest;
    assert Run(LenderVerified, creds, env, o, t1) == rest;
    assert Run(LoggedIn, creds, env, o, t0) == rest;
    assert [] + [Login(true)] == t0;
    assert Run(Start, creds, env, o, []) == Run(LoggedIn, creds, env, o, t0);
    assert t4 == [Login(true), VerifyLender, ExtractDetails, ReceiveCode, GenerateToken(code)];
  }

  /** With every collaborator answering yes, the flow makes all nine calls in order and hands back the token. */
  lemma LinkHappyPath(creds: Credentials, env: Env, o: Collaborators, code: string, token: string)
    requires LoginAccepted(creds, env)
    requires o.verificationCode == Some(code) && o.generateAccessToken(code) == Some(token)
    requires o.checkBankVerification(token, VoidedCheck)
    requires BalanceComputes(o.statements, o.parsesAsFloat)
    ensures LinkBankAccount(creds, env, o) == Flow(Linked(token),
      [Login(true), VerifyLender, ExtractDetails, ReceiveCode, GenerateToken(code),
       CheckVerification(token, VoidedCheck, true), ReadStatements, SaveStatements(o.statements), EndingBalance])
    ensures ManualLogin(Some(creds), env, o).response == Response(200, LinkSuccess(token, "Success"))
  {
    var t4 := [Login(true), VerifyLender, ExtractDetails, ReceiveCode, GenerateToken(code)];
    var t5 := t4 + [CheckVerification(token, VoidedCheck, true)];
    var t6 := t5 + [ReadStatements];
    var t7 := t6 + [SaveStatements(o.statements)];
    var t8 := t7 + [EndingBalance];
    RunToBankCheck(creds, env, o, code, token);
    assert Run(StatementsSaved(token, o.statements), creds, env, o, t7) == Flow(Linked(token), t8);
    assert Run(StatementsRead(token, o.statements), creds, env, o, t6) == Flow(Linked(token), t8);
    assert Run(BankVerified(token), creds, env, o, t5) == Flow(Linked(token), t8);
    assert Run(TokenIssued(VoidedCheck, token), creds, env, o, t4) == Flow(Linked(token), t8);
  }

  /**
   A linked account went the whole way: whatever the collaborators, a returned
   token means all nine calls were made in source order, with the code that
   was received and the token generated from it.
   */
  lemma LinkedMeansHappyPath(creds: Credentials, env: Env, o: Collaborators)
    requires LinkBankAccount(creds, env, o).result.Linked?
    ensures var token := LinkBankAccount(creds, env, o).result.accessToken;
      var code := o.verificationCode.value;
      LinkBankAccount(creds, env, o).trace ==
        [Login(true), VerifyLender, ExtractDetails, ReceiveCode, GenerateToken(code),
         CheckVerification(token, VoidedCheck, true), ReadStatements, SaveStatements(o.statements), EndingBalance]
  {
    var token := LinkBankAccount(creds, env, o).result.accessToken;
    LinkHappyPath(creds, env, o, o.verificationCode.value, token);
  }

  /**
   When `generate_access_token` raises (it is not defined anywhere in the
   source), the flow raises after five calls, with no bank check and no
   statements, and the route answers 500.
   */
  lemma LinkWithoutTokenRaises(creds: Credentials, env: Env, o: Collaborators, code: string)
    requires LoginAccepted(creds, env)
    requires o.verificationCode == Some(code) && o.generateAccessToken(code).None?
    ensures LinkBankAccount(creds, env, o) ==
      Flow(Raised, [Login(true), VerifyLender, ExtractDetails, ReceiveCode, GenerateToken(code)])
    ensures ManualLogin(Some(creds), env, o).response == InternalError
  {
    var t0 := [Login(true)];
    var t3 := t0 + [VerifyLender] + [ExtractDetails] + [ReceiveCode];
    var t4 := t3 + [GenerateToken(code)];
    assert Run(CodeReceived(VoidedCheck, code), creds, env, o, t3) == Flow(Raised, t4);
    assert Run(DetailsExtracted(VoidedCheck), creds, env, o, t0 + [VerifyLender] + [ExtractDetails]) == Flow(Raised, t4);
    assert Run(LoggedIn, creds, env, o, t0) == Flow(Raised, t4);
    assert [] + [Login(true)] == t0;
  }

  /**
   A statement row without an `amount`, or with one `float()` refuses, makes
   `calculate_ending_balance` raise after the statements were read and saved:
   the flow ends in an exception and the token is not handed back.
   */
  lemma LinkBalanceRaises(creds: Credentials, env: Env, o: Collaborators, code: string, token: string)
    requires LoginAccepted(creds, env)
    requires o.verificationCode == Some(code) && o.generateAccessToken(code) == Some(token)
    requires o.checkBankVerification(token, VoidedCheck)
    requires !BalanceComputes(o.statements, o.parsesAsFloat)
    ensures LinkBankAccount(creds, env, o) == Flow(Raised,
      [Login(true), VerifyLender, ExtractDetails, ReceiveCode, GenerateToken(code),
       CheckVerification(token, VoidedCheck, true), ReadStatements, SaveStatements(o.statements), EndingBalance])
    ensures ManualLogin(Some(creds), env, o).response == InternalError
  {
    var t4 := [Login(true), VerifyLender, ExtractDetails, ReceiveCode, GenerateToken(code)];
    var t5 := t4 + [CheckVerification(token, VoidedCheck, true)];
    var t6 := t5 + [ReadStatements];
    var t7 := t6 + [SaveStatements(o.statements)];
    var t8 := t7 + [EndingBalance];
    RunToBankCheck(creds, env, o, code, token);
    assert Run(StatementsSaved(token, o.statements), creds, env, o, t7) == Flow(Raised, t8);
    assert Run(StatementsRead(token, o.statements), creds, env, o, t6) == Flow(Raised, t8);
    assert Run(BankVerified(token), creds, env, o, t5) == Flow(Raised, t8);
    assert Run(TokenIssued(VoidedCheck, token), creds, env, o, t4) == Flow(Raised, t8);
  }

  /**
   When `check_bank_verification` says no, the flow stops right after asking:
   no statements are touched, it falls through to `None`, and the route
   answers 500.
   */
  lemma LinkNotVerified(creds: Credentials, env: Env, o: Collaborators, code: string, token: string)
    requires LoginAccepted(creds, env)
    requires o.verificationCode == Some(code) && o.generateAccessToken(code) == Some(token)
    requires !o.checkBankVerification(token, VoidedCheck)
    ensures LinkBankAccount(creds, env, o) == Flow(NotVerified,
      [Login(true), VerifyLender, ExtractDetails, ReceiveCode, GenerateToken(code),
       CheckVerification(token, VoidedCheck, false)])
    ensures ManualLogin(Some(creds), env, o).response == InternalError
  {
    var t4 := [Login(true), VerifyLender, ExtractDetails, ReceiveCode, GenerateToken(code)];
    RunToBankCheck(creds, env, o, code, token);
    assert Run(TokenIssued(VoidedCheck, token), creds, env, o, t4)
      == Flow(NotVerified, t4 + [CheckVerification(token, VoidedCheck, false)]);
  }

  /**
   `receive_verification_code` is not defined anywhere in the source, so the
   call raises: an accepted login then always ends in an exception after four
   calls, with no token and no statements.
   */
  lemma LinkWithoutCodeRaises(creds: Credentials, env: Env, o: Collaborators)
    requires LoginAccepted(creds, env)
    requires o.verificationCode.None?
    ensures LinkBankAccount(creds, env, o) == Flow(Raised, [Login(true), VerifyLender, ExtractDetails, ReceiveCode])
    ensures ManualLogin(Some(creds), env, o).response == InternalError
  {
    var t0 := [Login(true)];
    var t3 := t0 + [VerifyLender] + [ExtractDetails] + [ReceiveCode];
    assert Run(DetailsExtracted(VoidedCheck), creds, env, o, t0 + [VerifyLender] + [ExtractDetails]) == Flow(Raised, t3);
    assert Run(LoggedIn, creds, env, o, t0) == Flow(Raised, t3);
    assert [] + [Login(true)] == t0;
  }

  /**
   `check_bank_verification` as the source has it: it sets `bank_verified` to
   `True` and says yes to every token and every set of details.
   */
  function SourceCheckBankVerification(accessToken: string, details: AccountDetails): bool {
    true
  }

  /**
   With the source's check, a refused verification cannot happen, and an
   accepted login with a code, a token and computable balance links the account.
   */
  lemma SourceVerificationNeverRefuses(creds: Credentials, env: Env, o: Collaborators, code: string, token: string)
    ensures LinkBankAccount(creds, env, o.(checkBankVerification := SourceCheckBankVerification)).result != NotVerified
    ensures
      && LoginAccepted(creds, env)
      && o.verificationCode == Some(code) && o.generateAccessToken(code) == Some(token)
      && BalanceComputes(o.statements, o.parsesAsFloat)
      ==> LinkBankAccount(creds, env, o.(checkBankVerification := SourceCheckBankVerification)).result == Linked(token)
  {
    var o' := o.(checkBankVerification := SourceCheckBankVerification);
    if LoginAccepted(creds, env) && o.verificationCode == Some(code) && o.generateAccessToken(code) == Some(token)
      && BalanceComputes(o.statements, o.parsesAsFloat) {
      LinkHappyPath(creds, env, o', code, token);
    }
  }

  /** With both variables unset, a body without username and password logs in. */
  lemma UnsetEnvironmentAcceptsAbsentCredentials()
    ensures LoginAccepted(Credentials(None, None), Env(None, None))
  {
  }

  /**
   `/manual-login`: a body that is not a JSON object is 500; otherwise the flow
   runs and its result is 200 with the token, 403 for the error dictionary,
   and 500 both for an exception and for the `None` a refused verification
   returns (testing `'error' in None` raises).
   */
  function ManualLogin(body: Option<Credentials>, env: Env, o: Collaborators): (h: Handled<Call>)
    ensures body.None? ==> h == Handled(InternalError, [])
    ensures body.Some? ==> h.effects == LinkBankAccount(body.value, env, o).trace
    ensures body.Some? && LinkBankAccount(body.value, env, o).result.Linked? ==>
      h.response == Response(200, LinkSuccess(LinkBankAccount(body.value, env, o).result.accessToken, "Success"))
    ensures h.response.status in {200, 403, 500}
    ensures h.response.status == 403 <==> body.Some? && !LoginAccepted(body.value, env)
    ensures h.response.status == 403 ==> h == Handled(Response(403, Error("Invalid credentials")), [Login(false)])
    ensures h.response.status == 200 ==>
      && body.Some? && LoginAccepted(body.value, env)
      && h.response.body.LinkSuccess?
      && LinkBankAccount(body.value, env, o).result == Linked(h.response.body.accessToken)
      && h.response.body.message == "Success"
      && o.checkBankVerification(h.response.body.accessToken, VoidedCheck)
    ensures StatementsGuarded(h.effects)
  {
    match body
    case None => Handled(InternalError, [])
    case Some(creds) =>
      var f := LinkBankAccount(creds, env, o);
      match f.result
      case Linked(token) => Handled(Response(200, LinkSuccess(token, "Success")), f.trace)
      case InvalidCredentials => Handled(Response(403, Error("Invalid credentials")), f.trace)
      case NotVerified => Handled(InternalError, f.trace)
      case Raised => Handled(InternalError, f.trace)
  }
}
