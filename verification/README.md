# Bank ledger core: accounts, transfers and the transfer engine

This project models the core of a small teaching REST API for user accounts and money transfers. The core is three pieces:

- the **account store** (`models/User.js`): an in-memory array of accounts with registration, lookups, a password-free listing and a balance overwrite;
- the **ledger store** (`models/Transfer.js`): an append-only array of completed transfers with a per-user history;
- the **services** that drive them:
  - `services/transferService.js`: seven guard checks in a fixed order, then two balance writes and one ledger record;
  - `services/userService.js`: registration, login and account lookup.

The model is functional. The two arrays are `seq`s inside `TransferService.State(users, transfers)`. Every operation is a pure function. A service operation that writes returns `Success((new store, result))` or `Failure(error)`. The store-level writes, which cannot fail this way, return a plain pair: `Accounts.UpdateBalance` gives `(found, store)` and `Ledger.Create` gives `(ledger, record)`. A failure carries no state, so the caller's stores stay as they were. This matches the source, where every check throws before anything is written.

Files, one module each:

- `wrappers.dfy`: `Option`, `Result`, and JavaScript "falsy" for the inputs the services test with `!x`.
- `seqs.dfy`: `FirstIndex` (what `Array.prototype.find` locates) and `Filter`, with the concatenation lemma.
- `errors.dfy`: the error kinds, their exact message texts, and the reading of a text back to its error.
- `accounts.dfy`: `models/User.js`.
- `ledger.dfy`: `models/Transfer.js`.
- `transfer_service.dfy`: `services/transferService.js`, plus `Run`, which attempts a sequence of transfer requests in order.
- `user_service.dfy`: `services/userService.js`.
- `scenarios.dfy`: concrete runs of the transfer engine.
  - `InsufficientBalanceScenario` follows the insufficient-balance test (`test/risk-based.test.js:235-245`).
  - `CeilingScenario` and `UnknownRecipientScenario` exercise single rules of `services/transferService.js`. Their amounts (5000, 5001) and the unknown id 999 are chosen at those rules' boundaries; no transfer test uses them.

Modelling choices:

- Ids, amounts and balances are `int`. Amounts are in whole currency units, so the ceiling stays the literal 5000.
- A "missing" input is `None`. An input of `0` (numbers) or `""` (text) is also missing, because the source tests these with `!x`.
- The hash function and the password comparison are function parameters (`hash`, `matches`). Neither is modelled.
- `TransferService.GetTransfersByUserId` and `TransferService.GetAllTransfers` just delegate. Their properties are stated on `Ledger.GetByUserId` and `Ledger.GetAll`.
- `getAllUsers` (`services/userService.js:49-51`) is `Accounts.GetAll`.

## Model

| member | source | states |
|---|---|---|
| Seqs.FirstIndex | models/User.js:34-40 | Returns None exactly when no element matches. Otherwise returns the position of a matching element with no match before it. This is the first match, as `find` returns it. |
| Seqs.Filter | models/Transfer.js:23-27 | Every kept element comes from the input and satisfies the predicate. Every input element that satisfies it is kept. |
| Accounts.IndexOfId | models/User.js:38-40 | Returns None exactly when no account has the id. Otherwise returns the position where `find` stops: an account with the id, with none before it. |
| Seqs.FilterConcat | models/Transfer.js:23-27 | Filtering `a + b` gives filter(a) followed by filter(b), so insertion order is preserved. |
| Errors.MessageIdentifiesError | services/transferService.js:7-35 | Reading an error's message text back gives that error, so no two errors share a text. The texts are the ones thrown at `services/transferService.js:7-35`, `services/userService.js:9-56` and `models/User.js:14`. |
| Accounts.FindById | models/User.js:38-40 | Returns None exactly when no account has the id. Otherwise returns the first stored account with that id. |
| Accounts.FindByEmail | models/User.js:34-36 | Returns None exactly when no account has the email. Otherwise returns the first stored account with that email. |
| Accounts.Create | models/User.js:8-32 | Fails with "Usuário já existe" exactly when the email is already stored. Otherwise appends one account and keeps the old ones as a prefix. The new account has id = old count + 1, the hashed password, balance 0, and `isFavorecido` true only when true was passed (an absent flag gives false). The returned summary is that account without its password. |
| Accounts.GetAll | models/User.js:42-51 | Returns one password-free summary per account, with the same length and in store order. |
| Accounts.UpdateBalance | models/User.js:53-60 | Returns true exactly when some account has the id. Then only the first such account's balance changes, to the given value with no sign check. On an unknown id it returns false and the store is unchanged. |
| Accounts.UpdateBalanceThenFind | models/User.js:53-60 | In a valid store, after the overwrite the account is found with the new balance and every other field as before, and the store stays valid. |
| Accounts.FindByIdInValidStore | models/User.js:20-40 | In a store with ids 1..n, `findById` succeeds exactly for 1..n, and id k is the k-th account. |
| Accounts.FindByEmailInValidStore | models/User.js:11-15 | In a store with distinct emails, an email names exactly the one account that holds it. |
| Accounts.CreatePreservesValid | models/User.js:11-30 | `create` keeps the ids exactly 1..n in order and the emails pairwise distinct. |
| Accounts.CreateThenFind | models/User.js:8-51 | A newly created account is found again by its email and by its id. The listing gains exactly the returned summary, at the end. |
| Accounts.TotalBalanceAfterOverwrite | models/User.js:53-60 | Overwriting one balance changes the sum of all balances by exactly the difference. |
| Ledger.Create | models/Transfer.js:6-21 | Appends exactly one record and keeps the old ledger as a prefix. The record has id = old length + 1, status "completed", and the given sender, recipient, amount and description unchanged. None of these values are checked. |
| Ledger.GetByUserId | models/Transfer.js:23-27 | Returns exactly the records the user sent or received, and no more records than the ledger holds. |
| Ledger.GetByUserIdAfterAppend | models/Transfer.js:23-27 | Appending records extends a user's history by exactly the appended records that involve the user, in order and after the old history. |
| Ledger.CreateExtendsHistory | models/Transfer.js:6-31 | After `create`, the full listing gains the new record at the end. The histories of its sender and recipient gain it at the end. Every other history is unchanged. |
| Ledger.CreatePreservesValid | models/Transfer.js:10 | Ledger ids stay exactly 1..n in insertion order. |
| Ledger.NetFlowConcat | models/Transfer.js:23-27 | A user's net flow over `a + b` is the sum of the net flows over `a` and over `b`. |
| TransferService.CreateTransfer | services/transferService.js:5-54 | Each error happens exactly when every earlier check passes and its own check fails. The order is: missing sender, recipient or amount (amount 0 included); negative amount; sender = recipient; unknown sender; unknown recipient; balance below the amount; over 5000 to a non-favoured recipient. Success happens exactly when all checks pass. On success, the sender's account loses the amount, the recipient's gains it, no other account changes, and exactly one record (next id, "completed", the given values) is appended and returned. |
| TransferService.CommittedConservesTotal | services/transferService.js:38-43 | Taking an amount from one account and adding it to another, with nothing else changed, keeps the sum of all balances. |
| TransferService.ZeroAmountIsMissingData | services/transferService.js:6-12 | Amount 0 fails as missing data, never as a non-positive amount. |
| TransferService.ExactBalanceSuffices | services/transferService.js:29-43 | If the balance equals the amount, the funds check passes and the sender ends at exactly 0. |
| TransferService.CeilingBoundary | services/transferService.js:33-36 | For a funded transfer, an amount up to 5000 always passes and a favoured recipient always passes. Exactly 5001 to a non-favoured recipient fails with the ceiling error. |
| TransferService.TransferConservesTotal | services/transferService.js:38-43 | A successful transfer keeps the sum of all balances. |
| TransferService.TransferNeverOverdraws | services/transferService.js:29-42 | After a successful transfer the sender's balance is not negative. |
| TransferService.TransferPreservesValid | services/transferService.js:38-51 | A successful transfer keeps the account ids and emails, and the ledger ids stay sequential. |
| TransferService.TransferMatchesLedger | services/transferService.js:38-51 | In a valid state, every account's balance moves by exactly the net flow the new ledger record gives its id. |
| TransferService.RunMatchesLedger | services/transferService.js:38-53 | Over any sequence of attempted transfers from a valid state: the state stays valid and the ledger only grows. Every account's balance moves by exactly the net flow of the records the run added. |
| TransferService.RunConservesTotal | services/transferService.js:38-43 | Over any sequence of attempted transfers, the sum of all balances is unchanged. |
| TransferService.TransferExtendsHistory | services/transferService.js:45-58 | A successful transfer adds its record to the end of the sender's and the recipient's histories. The record has the request's sender, recipient, amount and description. |
| TransferService.HistoryGrowsPerTransfer | services/transferService.js:45-58 | After N successful transfers that each involve the user, the user's history is the old history followed by exactly N records. They carry the requests' senders, recipients, amounts and descriptions, in order. |
| UserService.Register | services/userService.js:5-13 | Fails with the required-fields error exactly when the email, password or name is missing or empty. Otherwise fails with "Usuário já existe" exactly when the email is stored. Succeeds exactly when neither happens: then it appends, after the unchanged old accounts, the account with the next id, the given email and name, the hashed password, `isFavorecido` true only when true was passed, and balance 0. It returns that account's summary, without the password. |
| UserService.Login | services/userService.js:15-47 | Checks in this order: missing email or password, then unknown email, then a password the stored hash rejects. Each error happens exactly when its check is the first to fail. Success happens exactly when all three pass. It returns the password-free summary of the first account with that email, the one `findByEmail` returns. |
| UserService.GetUserById | services/userService.js:53-66 | Fails with not-found exactly when no account has the id. Otherwise returns the summary, without the password, of the first account with that id, the one `findById` returns. |
| UserService.RegisterPreservesValid | services/userService.js:12 | A successful registration keeps ids sequential and emails distinct. |
| UserService.RegisterThenLogin | services/userService.js:5-46 | Suppose registration succeeds and the comparison accepts the password against its own hash. Then logging in with the same email and password returns exactly the summary registration returned. |
| UserService.RegisterThenGetUserById | services/userService.js:53-66 | The account a registration created is found by the id in its summary. Lookups succeed exactly for ids 1..n. |
| Scenarios.CeilingScenario | services/transferService.js:29-43 | With 10000 held and a non-favoured recipient: 5001 fails on the ceiling, and 5000 succeeds, leaving 5000 on each side and recording transfer 1. A further 5001 then fails on funds, because that check comes before the ceiling. |
| Scenarios.InsufficientBalanceScenario | test/risk-based.test.js:235-245 | Sending 2000 from a balance of 1000 fails with the insufficient-balance error. |
| Scenarios.UnknownRecipientScenario | services/transferService.js:25-27 | A transfer to an id that no account holds fails as an unknown recipient. |

Notes on the code's behaviour:

- **The check order decides the reported error.** Consider a sender who holds 5000 and sends 5001 to a non-favoured account. One might expect the ceiling error, but `services/transferService.js:29-36` checks funds first, so the code reports insufficient balance. The model follows the code (`Scenarios.CeilingScenario`).
- **A ceiling test that only checks the status code.** The favoured-account test in `test/risk-based.test.js:182-196` sends its 6000 to the sender's own id. That request fails as a self-transfer, not on the ceiling. The test only checks for status 400.

## Left out

- Password hashing and comparison: these come from an external library. They are the parameters `hash` and `matches`. Salting, which makes real hashes non-deterministic, is not modelled.
- Token signing in `login` (`services/userService.js:31-35`) and token checking (`middleware/auth.js`): these come from an external library. The transfer engine takes the authenticated sender id as plain input.
- HTTP routing, the controllers that map thrown errors to status codes, server start-up and the API documentation config: they contain no core logic.
- `createdAt` timestamps: they are read from the clock, so they are omitted from both records and both projections.
- Floating-point amounts: amounts and balances are integers. NaN, fractional values and JavaScript type coercion are not modelled. For example, a string id `"2"` never equals the number `2` under `===`, so such a lookup would fail.
- Concurrency: the source awaits between its two balance writes, so concurrent requests can interleave there. `User.create` also awaits the password hash (`models/User.js:18`) between its duplicate-email check (`models/User.js:11-15`) and its push (`models/User.js:30`). Two concurrent registrations of the same email can therefore both succeed, which breaks the distinct-email half of `Accounts.Valid`. The model is sequential: each registration and each transfer is one atomic step, and `Accounts.CreatePreservesValid` holds only under that assumption.
- Accounts.Create: takes email, password and name as present strings. This is how `register` calls it after its own checks. A direct call with missing fields is not modelled.
- TransferService.GetTransfersByUserId: no contract of its own. It returns `Ledger.GetByUserId`, whose contract and lemmas state the property.
- Ledger.GetAll: no contract of its own. It returns the ledger itself, in insertion order (`models/Transfer.js:29-31`). `Ledger.CreateExtendsHistory` states how `create` extends it.
- TransferService.GetAllTransfers: no contract of its own. It returns `Ledger.GetAll`, the ledger itself; `Ledger.CreateExtendsHistory` states its order.
