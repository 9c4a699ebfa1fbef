# Bank account linking service: verified model of its decision rules

The service (`app.py`, a Flask application) lets a lender link a bank account,
confirm it by micro-deposits, deposit, transfer funds and upload a PDF
statement. Most of the file is framework plumbing and stubs. This project models
the parts that decide things:

- the statement-line tokenizer inside `parse_pdf` (module `Statements`, using
  the Python string splitting of module `Text`);
- the status-code gates of `/micro-deposits` (with `verify_micro_deposits`),
  `/actual-deposits` and `/transfer-funds` (module `Deposits`), of `/upload-pdf`
  (module `Upload`), and the `authenticate_token` decorator (module `Http`);
- the sequencing of `manual_login_and_link_bank_account` and the
  `/manual-login` route (module `Linking`), as a state machine whose invariant
  says that statements are touched and a token is released only after an
  accepted login and a `check_bank_verification` that said yes.

Every route is a pure function. Its inputs are the values the handler reads
from the request, with `None` where `float()` or the body read raises. Its
collaborators are oracles passed as parameters. It returns a `Handled` value:
the response (status and JSON body) and the list of side-effecting
collaborator calls it made, so "the collaborator is not called" reads as
`effects == []`. Python floats are `Values.Double`. A finite value is the exact
value of the double `float()` produced, after its rounding. So "0.1" is the
double nearest one tenth, and an amount such as "1e-400" underflows to zero and
is refused like zero. The two infinities and NaN are kept: `float()` accepts
"nan", and NaN is not `<= 0`.

Protected routes are `Http.Authenticate(header, decoder, route)`.
`/upload-pdf` carries no decorator, so it is not wrapped. The source's
constant collaborators are given as their own functions: `Http.SourceDecode`
(`JWT_SECRET` is undefined, so decoding always raises),
`Linking.SourceCheckBankVerification`, `Deposits.SourceDeposit` and
`Deposits.SourceTransfer`.

A bank-linking service of this kind would be expected to do more than `app.py`
does. The model follows `app.py` as it is:
- `/manual-login` reads `username` and `password`. It never reads a platform or
  a public token, and no aggregator token exchange exists.
- A missing micro-deposit or amount makes `float(None)` raise, which gives 500,
  not 400.
- A refused bank verification makes the flow return `None`, and the route then
  fails with 500, not a distinct verification error.
- `/upload-pdf` requires no credential, and an upload that cannot be saved or
  parsed is not caught, so Flask answers with its own 500 page.
- `/transfer-funds` accepts any non-empty token string. Nothing ties it to a
  token that a verification issued.

## Model

| member | source | states |
|---|---|---|
| `Text.Split` | app.py:207 | `line.split()` yields only tokens: non-empty, with no whitespace in them; a string starting with a non-space character yields a first token starting with it |
| `Text.Gaps` | app.py:207 | the whitespace runs around the tokens of `line.split()`: one more run than there are tokens |
| `Text.SplitAlternates` | app.py:207 | a line is exactly its tokens interleaved with whitespace runs, and the runs between two tokens are non-empty, so the tokens are the maximal non-space runs |
| `Text.SplitWeave` | app.py:207 | conversely, any interleaving of tokens with whitespace runs, non-empty between tokens, splits into exactly those tokens |
| `Text.Join` | app.py:209 | `" ".join(parts[1:-1])`: the words with one separator between each two |
| `Text.JoinShape` | app.py:209 | a join starts with the first word, ends with the last, and is one separator per gap longer than the words together |
| `Text.SplitKeepsNonSpace` | app.py:207 | splitting drops exactly the whitespace: the tokens concatenated are the line's non-space characters in order |
| `Text.SplitJoin` | app.py:207-209 | tokens joined by single spaces split back into the same tokens, so the description re-splits into the middle tokens |
| `Text.SplitLines` | app.py:206 | `text.split('\n')` gives at least one piece, no piece contains a newline, and joining the pieces with newlines gives the text back |
| `Text.SplitLinesJoin` | app.py:206 | newline-free pieces joined with newlines split back into the same pieces |
| `Statements.ParseLine` | app.py:207-210 | a line yields a record iff it has at least 3 tokens; the date is the first token, the amount the last, and the description re-splits into exactly the middle tokens |
| `Statements.ParseLines` | app.py:206-210 | the records of a page's lines: at most one per line, every one well formed |
| `Statements.ParsePages` | app.py:204-210 | the records of all pages: every one well formed |
| `Statements.LineYieldsAtMostOne` | app.py:208-210 | a line with fewer than 3 tokens contributes no record, one with 3 or more exactly one |
| `Statements.ParseLinesAppend` | app.py:206-210 | records keep line order: parsing concatenated lines concatenates their records |
| `Statements.ParsePagesAppend` | app.py:204-210 | records keep page order: parsing concatenated pages concatenates their records |
| `Statements.ParsedIsWellFormed` | app.py:207-209 | every record has single-token date and amount and a canonical non-empty description, and printing it back gives a line with the same tokens |
| `Statements.FormatParse` | app.py:207-209 | a well-formed record printed as a line parses back to itself |
| `Statements.ParsePage` | app.py:205-210 | the loop over one page's lines returns exactly that page's records, in line order |
| `Statements.ParsePdf` | app.py:201-211 | the loop over pages returns exactly the records of all pages, page after page |
| `Http.Authenticate` | app.py:26-38 | a missing or empty header is 401 and an undecodable one 403, neither with any call made; the route runs only for a header the decoder accepts |
| `Http.SourceAuthenticationRejectsAll` | app.py:29-36 | with the undefined `JWT_SECRET` every protected request is 401 (no header) or 403, and no route body runs |
| `Deposits.VerifyMicroDeposits` | app.py:126-129 | true iff the deposits are exactly the doubles the literals 0.10 and 0.15 denote |
| `Deposits.MicroDepositsHaveNoTolerance` | app.py:126-129 | any nonzero offset from an expected amount, however small, fails, and NaN never matches |
| `Deposits.MicroDeposits` | app.py:144-156 | 200 "Account verified successfully." iff the deposits pass `verify_micro_deposits`; 500 iff either value fails to parse; a zero deposit is 400 "Micro deposits are required." with no comparison; otherwise one comparison is made, and a mismatch is 400 "Micro deposits verification failed." |
| `Deposits.NegativeMicroDepositsAreCompared` | app.py:148-153 | negative deposits pass the zero check, are compared, and fail as a mismatch (400) |
| `Deposits.AmountGateAdmitsPositiveOrNaN` | app.py:163 | the test `amount <= 0` lets through exactly the positive amounts and NaN |
| `Deposits.ActualDeposits` | app.py:160-171 | 500 on an unparsable amount; 400 "Invalid deposit amount." with no deposit iff the amount is `<= 0`; otherwise exactly one deposit call, whose success flag decides 200 "Deposit successful." or 500 "Deposit failed." |
| `Deposits.SourceDepositOutcomes` | app.py:131-168 | with the always-successful stub, a positive amount is 200, a zero, negative or negative-infinite amount is 400 with no deposit, and NaN is deposited with 200 |
| `Deposits.TransferFunds` | app.py:175-185 | 500 on an unparsable amount whatever the token; 400 with no transfer iff the token is missing or empty or the amount is `<= 0`; otherwise exactly one transfer with that token and amount, and its result decides 200 or 500 and the message |
| `Deposits.TransferTrustsAnyToken` | app.py:134-136 | with the source's stub, any non-empty token and positive amount transfers and answers 200, verified or not |
| `Deposits.TransferRejections` | app.py:176-180 | an empty token with amount 100 is 400 with no transfer; a body missing both fields is 500 |
| `Upload.UploadPath` | app.py:221 | the saved path is the name under `uploads/`, unless the name is absolute, in which case the name itself is used |
| `Upload.EndsWith` | app.py:220 | `str.endswith`: the last characters are the suffix, compared case-sensitively |
| `Upload.EndsWithPdfMeansStem` | app.py:220 | the format check accepts a name iff it is some stem followed by ".pdf" |
| `Upload.UploadPdf` | app.py:214-226 | no file part is 400 "No file part"; an empty name is 400 "No selected file"; a missing name or one not ending in ".pdf" is 400 "Invalid file format" with nothing done; a ".pdf" name is 200 with its records iff saving and parsing succeed, the file then saved and the records passed to `save_statements_as_csv`; a failed save (nothing done) or a failed parse (file left saved) is Flask's 500 |
| `Upload.UpperCaseSuffixRefused` | app.py:220-226 | the suffix test is case-sensitive: "statement.PDF" is refused |
| `Upload.AbsoluteNameLeavesUploadDir` | app.py:221-222 | a client-supplied absolute ".pdf" name is saved at that absolute path |
| `Linking.LoginAccepted` | app.py:41-45 | `perform_manual_login`: both fields equal the environment variables, so an unset variable matches only an absent field |
| `Linking.BalanceComputes` | app.py:122-123 | `calculate_ending_balance` returns exactly when every row has an `amount` that `float()` accepts |
| `Linking.Advance` | app.py:66-80 | each step moves the flow strictly forward; a statement call is made only in a phase holding a verified token; the only way into such a phase is a yes from `check_bank_verification` on that token, and the token never changes afterwards; every bank check records the check's own answer, and the flow stops as refused only right after a no |
| `Linking.AdvanceKeepsReached` | app.py:64-80 | one step preserves the flow invariant: statements guarded by login and verification, invalid credentials ending after the login call, the voided-cheque details, and the verified token's check recorded |
| `Linking.RunKeepsReached` | app.py:64-83 | running the flow to its end from a correctly reached phase preserves the invariant |
| `Linking.LinkBankAccount` | app.py:64-83 | invalid credentials iff the login is refused, and then the only call is the login; a token is returned only when it is the one generated from the received code, after an accepted login, a yes on that token and a balance that computes; a refusal happens only when the last call was a bank check that said no; no statement call precedes both |
| `Linking.LinkHappyPath` | app.py:66-93 | with every collaborator answering yes, the nine calls happen in source order, the generated token is returned, and the route answers 200 with it and "Success" |
| `Linking.LinkedMeansHappyPath` | app.py:64-80 | conversely, a returned token means all nine calls were made in source order, with the received code and the token generated from it |
| `Linking.LinkWithoutTokenRaises` | app.py:71-96 | when `generate_access_token` raises, the flow raises after five calls, with no bank check and no statements, and the route answers 500 |
| `Linking.LinkBalanceRaises` | app.py:76-83 | a row without a parsable amount makes the flow raise after all nine calls, with no token, and the route answers 500 |
| `Linking.LinkNotVerified` | app.py:72-96 | a refused verification stops the flow right after the check, with no statements touched, and the route answers 500 |
| `Linking.LinkWithoutCodeRaises` | app.py:68-96 | when `receive_verification_code` raises (it is undefined), the flow raises after four calls, with no token and no statements, and the route answers 500 |
| `Linking.SourceVerificationNeverRefuses` | app.py:54-62 | with the source's check, which always says yes, a refused verification never happens, and a login with a code, a token and computable balance links the account |
| `Linking.UnsetEnvironmentAcceptsAbsentCredentials` | app.py:41-45 | with both mock variables unset, a body without username and password logs in |
| `Linking.ManualLogin` | app.py:87-96 | 403 "Invalid credentials" iff the body parses and the login is refused, after only the login call; 200 with the "Success" body and the token exactly when the flow links the account and only then, so the token is the one the flow returned and `check_bank_verification` accepted; the calls made are the flow's; everything else is 500; statement calls always follow login and verification |

## Left out

- Flask routing and JSON encoding, CORS, the rate limiter, the Redis client and logging are framework and I/O with no decisions in them.
- JWT decoding is an oracle `string -> bool`. Its algorithm and claims are not modelled.
- `receive_verification_code` and `generate_access_token` are not defined in the file. They are a value and an oracle, and `None` means the call raised.
- `check_bank_verification`, `handle_actual_deposit` and `transfer_funds_to_account` are constant stubs. They are oracles, and their constant versions (`Linking.SourceCheckBankVerification`, `Deposits.SourceDeposit`, `Deposits.SourceTransfer`) appear in the lemmas above.
- `read_statements_from_csv` is the input list of rows. `save_statements_as_csv`, saving the upload and pdfplumber's text extraction are effects or inputs, not performed. A page is the text its extractor returned. Which PDFs pdfplumber cannot open, and which pages yield no text, is not modelled: both are the single outcome `ParseRaises`.
- `SavedCsv` and `SaveStatements` record that the records were passed to `save_statements_as_csv`, not that a file was written. An empty list makes `statements[0]` fail inside it (app.py:113), the error is caught and logged (app.py:119-120), and nothing is written, so an earlier `statements.csv` stays as it was. This happens when a PDF yields no record, and in the link flow when `read_statements_from_csv` returns `[]` after an error (app.py:107-109).
- `calculate_ending_balance` is modelled only as whether it raises: a row without an `amount` column, or with a value `float()` refuses. Its float sum is only logged and is not modelled.
- `integrate_open_banking_api` and `/open-banking` pass an opaque request to the network.
- JSON values other than strings in `accessToken`, `username` and `password` are not modelled. A falsy non-string token such as `0` counts as present here.
- `os.getenv('USER_EMAIL')` and `os.getenv('USER_PASSWORD')` are read and never used, so they are left out.
- Serializing concurrent requests per access token is not done by the code and is not modelled.
- `app.py` has no aggregator token exchange, no statement round-trip through CSV and no order-independent balance, so none is modelled.
