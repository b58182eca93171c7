# Ledger core of a small Java banking application, modelled in Dafny

This project models the ledger core of a console banking application. Users own
checking and savings accounts. Money moves by deposit, withdrawal and transfer,
and each movement is logged as a transaction. The accounts live in a flat comma-separated
store that is read in full and rewritten in full on every change. Transactions are
appended to a ledger file, and a history component reads them back. Administrators
create and remove users and act on any account.

Modelling choices:

- **Money.** Every amount is integer cents, and interest rates are basis points. The
  source keeps amounts in `double`s and accepts any value typed at the console or
  passed to `deposit`, `withdraw` and `transfer`. The model only has whole cents,
  which is also all that `%.2f` writes to the store (see "## Left out").
- **Java `int`.** User ids and transaction ids are Java `int`s (`Int32`). The
  static id counter wraps from the largest `int` to the smallest (`Transactions.NextId`).
- **Files.** A file is a `TextFile`: missing, or present with its lines. Either way
  it says whether it can be opened for writing, which is how the model represents an
  `IOException` on open.
- **Process state.** The two data files and the transaction id counter are the
  fields of one `Environment.Runtime` object. Its value snapshot is `Environment.Env`.
  Every operation that changes them is a method with a `modifies` clause. Each such
  method is proved equal to a function on snapshots, such as
  `BankAccounts.DepositEffect`. The lemmas are stated about those functions.
- **Ledger.** The ledger is the file as found plus the records this process logged.
  Its text is `TransactionLogger.LedgerFile`.
- **Account store.** The store is read into a `BankAccountCsv.Table`: the ids in
  first-insertion order (standing for the `HashMap`'s iteration order) and a map from
  id to account. A rewrite renders one `%s,%d,%.2f,%s` row per entry.
- **Unchecked exceptions.** A `NumberFormatException` thrown inside
  `createAccountFromData` is not caught by `writeToCSV`, `readAllAccountsAdmin` or
  `deleteAccount`. The model lets it escape: it is `Completion.Thrown`, a `None`, or
  an `escaped` flag on the operation it ends.
- **Clock and console.** The clock (`LocalDateTime.now()`) is a `now` parameter. The
  console answers of the transfer flow are parameters too.

Modules follow the source files:

| module | source file |
|---|---|
| `JavaText` | the `String`, `Integer` and `Double` library calls the core relies on |
| `Environment` | the files and the static counter |
| `Transactions` | `Transaction.java` |
| `TransactionLogger` | `TransactionLogger.java` |
| `SavingsAccount` | `SavingsAccount.java` |
| `BankAccountCsv` | `BankAccountCSV.java` |
| `BankAccounts` | `BankAccount.java` |
| `BankTransfer` | `BankTransfer.java` |
| `TransactionHistory` | `TransactionHistory.java` |
| `TransferUi` | `TransferUI.java` |
| `Users` | `User.java` |
| `Admins` | `Admin.java` |

`Wrappers` and `Sequences` hold the `Option` type and a sequence filter.

Where the project's design description and the code disagree, the model follows the code:

- **Interest tiers.** The description gives four tiers (1%, 2%, 3%, 5%). The code
  has three: 1% below $1,000, 1.5% below $5,000, and 2% from $5,000 on.
- **When the rate is computed.** The description recomputes the rate after every
  balance change. The code fixes it once, in the savings constructor.
- **Reloading savings accounts.** The description says a stored savings account
  reloads as a savings account. In the code, the reader tests for `SAVING` while
  savings accounts are stored as `SAVINGS`. So they reload as plain accounts without
  a rate (`BankAccountCsv.SavingsReloadAsPlainAccounts`).
- **Transaction id counter.** The description recovers the counter at startup as one
  more than the largest stored id. The code starts it at 1 in every process
  (src/Transaction.java:14), and so does the model (`Environment.Runtime.constructor`).
  Ids are therefore unique only within one process.
- **Ledger round trip.** The description suggests that logged transactions can be
  read back. The logger writes space-padded columns, and the reader needs seven
  comma-separated fields. So nothing this process logs is ever loaded
  (`TransactionHistory.LoggedLedgerLoadsNothing`).

## Model

| member | source | states |
|---|---|---|
| JavaText.IntToStringRoundTrip | src/BankAccountCSV.java:56-60 | `Integer.parseInt` reads back exactly the `int` that `%d` wrote, for every `int` |
| JavaText.IntToStringInjective | src/BankAccount.java:62 | two `int`s with the same decimal text are equal |
| JavaText.FormatCentsRoundTrip | src/BankAccountCSV.java:56-60 | `Double.parseDouble` of a `%.2f` amount gives the amount in cents back, negative amounts included |
| JavaText.SplitPieces | src/BankAccountCSV.java:35 | `split(",")`: no piece holds a comma, and trailing empty pieces are dropped |
| JavaText.SplitJoin | src/BankAccountCSV.java:35 | splitting comma-joined comma-free fields gives back exactly those fields when the last is non-empty |
| JavaText.ToUpperIdempotent | src/BankAccount.java:36 | upper-casing an upper-cased type changes nothing |
| JavaText.ToUpperKeepsCommas | src/BankAccount.java:36 | the upper-cased type holds a comma exactly when the type does |
| JavaText.TrimNoPadding | src/TransactionHistory.java:59-65 | `trim()` leaves a string with no leading or trailing blank unchanged |
| Environment.Runtime.constructor | src/Transaction.java:14 | a fresh process starts the id counter at 1 with the two files as found and nothing logged |
| Environment.Runtime.NewTransaction | src/Transaction.java:24-32 | the record takes the counter's value as its id and the given fields; the counter advances by `idCounter++` |
| Transactions.NextId | src/Transaction.java:25 | `idCounter++` adds one, and wraps from the largest `int` to the smallest |
| Transactions.IdsAreConsecutive | src/Transaction.java:14-25 | without wrap-around, the k-th record after start has id start + k |
| Transactions.IdsAreDistinct | src/Transaction.java:14-25 | before the counter wraps, later records have strictly larger ids, so no two share one |
| Transactions.ToCsvHasNoComma | src/Transaction.java:61-70 | a `toCSV()` line of comma-free fields holds no comma: its columns are separated by spaces |
| Transactions.ToCsvStartsWithId | src/Transaction.java:62-63 | a `toCSV()` line begins with the id's decimal text followed by a space |
| Transactions.ToTextFields | src/Transaction.java:74-77 | `toString()` of comma-free fields splits back into timestamp, from, to, amount, type and note |
| TransactionLogger.AppendAllLayout | src/TransactionLogger.java:31-46 | appending keeps the existing lines and adds one line per record; the header is written first only when the file was new or empty |
| TransactionLogger.AppendAllUnwritable | src/TransactionLogger.java:35-50 | when the file cannot be opened, logging changes nothing |
| TransactionLogger.RecordLines | src/TransactionLogger.java:46 | one `toCSV()` line per record, in logging order |
| TransactionLogger.Log | src/TransactionLogger.java:25-51 | `log(t)` adds the record to the ledger when the file can be opened for writing, and otherwise changes nothing |
| TransactionLogger.AppendAllWritable | src/TransactionLogger.java:35 | appending never changes whether the file can be opened |
| TransactionLogger.LogAppendsOneLine | src/TransactionLogger.java:31-46 | each `log(t)` changes the ledger text by one `toCSV()` line at the end, after a header if the file was new or empty |
| TransactionLogger.LedgerFileLayout | src/TransactionLogger.java:31-46 | after any number of calls, the text is the lines found (or a header), then one line per logged record |
| SavingsAccount.InterestRate | src/SavingsAccount.java:24-32 | the rate is always between 1% and 2% |
| SavingsAccount.InterestRateSteps | src/SavingsAccount.java:24-32 | between two balances the rate changes exactly when $1,000 or $5,000 lies between them, by 0.5% at each limit crossed, so it is constant inside each tier |
| SavingsAccount.InterestRateMonotonic | src/SavingsAccount.java:24-32 | a larger balance never gets a smaller rate |
| BankAccountCsv.CreateAccountFromData | src/BankAccountCSV.java:187-201 | the id is field 0 and the owner field 1 parsed; the row fails exactly when the owner or balance does not parse; exactly a `SAVING` row becomes a savings object, typed `SAVINGS`, with the rate of its balance |
| BankAccountCsv.ParseRow | src/BankAccountCSV.java:35-37 | a line is skipped exactly when it does not split into four fields; a parsed row is keyed by its first field |
| BankAccountCsv.RowRoundTrip | src/BankAccountCSV.java:56-60 | a written row of a canonical account splits into its four fields and reads back as the same account, rate dropped |
| BankAccountCsv.SavingsReloadAsPlainAccounts | src/BankAccountCSV.java:188 | a stored `SAVINGS` row reloads as a plain account without a rate |
| BankAccountCsv.Put | src/BankAccountCSV.java:44-50 | `put` maps the account's id to the account, whether or not the id was present |
| BankAccountCsv.PutKeepsValid | src/BankAccountCSV.java:44-50 | `put` keeps the ids distinct and in step with the map |
| BankAccountCsv.ReadTable | src/BankAccountCSV.java:29-41 | every id in the order the read keeps has an account in the map |
| BankAccountCsv.ReadTableValid | src/BankAccountCSV.java:29-41 | a completed read gives a consistent table of well-formed accounts |
| BankAccountCsv.ReadTableKeys | src/BankAccountCSV.java:34-38 | the ids read are exactly the first fields of the four-field rows |
| BankAccountCsv.ReadTableLastRowWins | src/BankAccountCSV.java:37 | for an id written on several rows, the last row's account is kept |
| BankAccountCsv.ReadTableFailurePersists | src/BankAccountCSV.java:37 | once a row throws, the whole read throws, whatever follows |
| BankAccountCsv.RenderLines | src/BankAccountCSV.java:55-62 | the rewrite writes one row per stored account in iteration order |
| BankAccountCsv.RenderReadRoundTrip | src/BankAccountCSV.java:29-62 | reading a rewritten store gives back the same table, rates dropped |
| BankAccountCsv.RewriteHasOneRowPerId | src/BankAccountCSV.java:55-62 | no two rows of a rewrite share an id |
| BankAccountCsv.WriteRereads | src/BankAccountCSV.java:23-69 | a write to a readable, writable store returns true and leaves the store holding the table with the account put in |
| BankAccountCsv.WriteUpserts | src/BankAccountCSV.java:43-50 | after a write, the ids are the old ids plus the account's; the account reads back as written; every other account is unchanged |
| BankAccountCsv.LoadTable | src/BankAccountCSV.java:29-41 | the reading loop computes the table of the store's lines |
| BankAccountCsv.WriteToCsv | src/BankAccountCSV.java:23-69 | `writeToCSV` leaves the store and its result as `WriteFile` describes: true after a rewrite, false on an `IOException`, thrown on an unparsable row |
| BankAccountCsv.UpdateAccount | src/BankAccountCSV.java:77-79 | `updateAccount` is `writeToCSV` |
| BankAccountCsv.ReadRowsAppend | src/BankAccountCSV.java:95-100 | reading consecutive stretches of rows concatenates their accounts, and fails when either stretch fails |
| BankAccountCsv.ReadRowsFailurePersists | src/BankAccountCSV.java:95-100 | a row that throws ends the whole read |
| BankAccountCsv.ReadRowsFailsLikeReadTable | src/BankAccountCSV.java:95-100 | the list read throws exactly when the keyed read does |
| BankAccountCsv.ReadAllAccountsAdmin | src/BankAccountCSV.java:85-106 | `readAllAccountsAdmin` gives every four-field row's account in file order, nothing for a missing file, and lets a parse failure escape |
| BankAccountCsv.ScanUser | src/BankAccountCSV.java:123-127 | every account listed for a user is owned by that user |
| BankAccountCsv.ScanUserStopIsFinal | src/BankAccountCSV.java:130-135 | once an owner field fails to parse, later rows add nothing |
| BankAccountCsv.ScanUserIsOwnerFilter | src/BankAccountCSV.java:113-136 | on a store that reads, the user's accounts are exactly the owned ones among all accounts, in file order |
| BankAccountCsv.ReadUserAccounts | src/BankAccountCSV.java:113-136 | `readUserAccounts` keeps the user's rows in file order and stops at the first unparsable row, keeping what it found |
| BankAccountCsv.DeleteRead | src/BankAccountCSV.java:151-160 | the read skips the target, so it is never among the accounts read |
| BankAccountCsv.DeleteReadIsRemove | src/BankAccountCSV.java:151-160 | on a store that reads, skipping the target gives the full table without the target |
| BankAccountCsv.DeleteReadFailurePersists | src/BankAccountCSV.java:157 | a row that throws ends the delete's read |
| BankAccountCsv.DeleteRemovesOnlyTarget | src/BankAccountCSV.java:143-179 | deleting from a readable, writable store returns true and leaves exactly the other accounts, unchanged |
| BankAccountCsv.LoadTableWithout | src/BankAccountCSV.java:151-160 | the delete's reading loop computes the table without the target |
| BankAccountCsv.DeleteAccount | src/BankAccountCSV.java:143-179 | `deleteAccount` returns false for a missing file and otherwise rewrites the store as `DeleteFile` describes |
| BankAccounts.BankAccount.constructor | src/BankAccount.java:32-37 | the fields are stored as given, with the type upper-cased |
| BankAccounts.BankAccount.Savings | src/SavingsAccount.java:17-20 | a savings account is typed `SAVINGS` and its rate is fixed from the opening balance |
| BankAccounts.BankAccount.Load | src/BankAccountCSV.java:187-201 | an object built from a stored row has exactly that row's values |
| BankAccounts.BankAccount.Deposit | src/BankAccount.java:87-110 | `deposit` changes the balance, counter, ledger and store as `DepositEffect` says |
| BankAccounts.BankAccount.Withdraw | src/BankAccount.java:115-143 | `withdraw` changes the balance, counter, ledger and store as `WithdrawEffect` says |
| BankAccounts.BankAccount.Transfer | src/BankAccount.java:153-187 | `transfer` changes both balances, the counter, the ledger and the store, and returns, as `TransferEffect` says, the destination being possibly the same object |
| BankAccounts.BankAccount.DeleteAccount | src/BankAccount.java:193-195 | `deleteAccount` is the store delete of the account's id |
| BankAccounts.CreateChecking | src/BankAccount.java:61-66 | the account is `name-C-userID`, typed `CHECKING`, holds the initial deposit, and is written to the store |
| BankAccounts.CreateSavings | src/BankAccount.java:73-78 | the account is `name-S-userID`, typed `SAVINGS`, has the rate of the initial deposit, and is written to the store |
| BankAccounts.AccountIdUnique | src/BankAccount.java:61-75 | an id determines the name, the tag and the owner it was built from |
| BankAccounts.CheckingIdsUnique | src/BankAccount.java:62 | two checking ids are equal only for the same name and owner |
| BankAccounts.CheckingIsNeverSavings | src/BankAccount.java:61-75 | no checking id equals any savings id |
| BankAccounts.TransferEffectAccepted | src/BankAccount.java:155-176 | an accepted transfer debits, credits, logs one TRANSFER record and rewrites both accounts, source first |
| BankAccounts.DepositRejectsNonPositive | src/BankAccount.java:87-110 | a deposit of zero or less changes nothing and logs nothing |
| BankAccounts.DepositAddsAmount | src/BankAccount.java:88-105 | a positive deposit adds exactly the amount and logs one DEPOSIT record from SYSTEM with the next id |
| BankAccounts.WithdrawRejects | src/BankAccount.java:116-142 | a withdrawal of zero or less, or of more than the balance, changes nothing and logs nothing |
| BankAccounts.WithdrawTakesAmount | src/BankAccount.java:116-134 | an accepted withdrawal takes exactly the amount and logs one WITHDRAWAL record to SYSTEM with the next id |
| BankAccounts.DepositAndWithdrawKeepBalanceNonNegative | src/BankAccount.java:87-143 | neither operation makes a non-negative balance negative |
| BankAccounts.TransferFailsIffRejected | src/BankAccount.java:153-187 | `transfer` returns false exactly when the amount is not positive or exceeds the balance |
| BankAccounts.TransferRejectedChangesNothing | src/BankAccount.java:178-186 | a rejected transfer changes neither balance, logs nothing and writes nothing |
| BankAccounts.TransferMovesAmount | src/BankAccount.java:154-176 | between two objects, the source loses and the destination gains exactly the amount, the sum is preserved, and one TRANSFER record is logged |
| BankAccounts.TransferKeepsBalancesNonNegative | src/BankAccount.java:153-187 | a transfer never makes a non-negative balance negative |
| BankAccounts.DepositIsPersisted | src/BankAccount.java:87-106 | after a positive deposit into a readable, writable store, a reread finds the account with the new balance and every other account unchanged |
| BankTransfer.Transfer | src/BankTransfer.java:17-41 | `transfer` changes both balances, the counter, the ledger and the store as `MoveEffect` says |
| BankTransfer.ShortBalanceChangesNothing | src/BankTransfer.java:26-30 | a source balance below the amount stops the transfer before anything changes |
| BankTransfer.NonPositiveAmountStillLogs | src/BankTransfer.java:26-40 | a non-positive amount changes no balance, yet one TRANSFER record is still logged |
| BankTransfer.MoveLogsThreeRecords | src/BankTransfer.java:34-40 | the amount moves from the source to the destination, the sum is preserved, and a WITHDRAWAL, a DEPOSIT and a TRANSFER record are logged in that order with consecutive ids |
| BankTransfer.SelfMoveKeepsBalance | src/BankTransfer.java:34-35 | a transfer from one object to itself leaves its balance as it was |
| TransactionHistory.ParseRecordRoundTrip | src/TransactionHistory.java:49-72 | a record written as seven comma-separated fields, with text fields free of commas and of leading or trailing blanks and a non-empty note, parses back to itself, id and amount included |
| TransactionHistory.LedgerOfRecordLinesLoads | src/TransactionHistory.java:36-76 | a ledger of such lines after any header loads exactly those records, in order |
| TransactionHistory.RecordsAppend | src/TransactionHistory.java:41-76 | loading keeps file order across consecutive stretches of lines |
| TransactionHistory.RecordsComeFromLines | src/TransactionHistory.java:55-68 | every loaded record is parsed from one line of the file |
| TransactionHistory.RecordOfEachLine | src/TransactionHistory.java:41-76 | every line after the header that parses is loaded, in its place |
| TransactionHistory.LoggedLineNeverLoads | src/TransactionHistory.java:55-57 | a `toCSV()` line of comma-free fields never gives a record |
| TransactionHistory.LoggedLedgerLoadsNothing | src/TransactionHistory.java:24-81 | a ledger file this process created loads no records at all |
| TransactionHistory.HeaderIsSkipped | src/TransactionHistory.java:43-47 | the first line is skipped whatever it holds |
| TransactionHistory.NothingFromUnparsableLines | src/TransactionHistory.java:49-75 | lines that give no record add nothing |
| TransactionHistory.AccountFilterExact | src/TransactionHistory.java:133-141 | the account filter keeps exactly the records naming the account as sender or receiver |
| TransactionHistory.OwnerFilterExact | src/TransactionHistory.java:104-127 | the owner filter keeps exactly the records naming one of the owner's accounts on either side |
| TransactionHistory.History.constructor | src/TransactionHistory.java:21 | the list starts empty |
| TransactionHistory.History.LoadTransactions | src/TransactionHistory.java:24-81 | the list becomes exactly the records of the ledger's lines after the first, in order, replacing what it held |
| TransactionHistory.History.ReadLines | src/TransactionHistory.java:36-76 | the list becomes the records of the lines after the first, in file order, skipping every line that gives none |
| TransactionHistory.History.AddTransaction | src/TransactionHistory.java:83-85 | the record is appended to the list |
| TransactionHistory.History.GetAllTransactions | src/TransactionHistory.java:87-90 | the reloaded list |
| TransactionHistory.History.GetAccountTransactions | src/TransactionHistory.java:133-141 | the reloaded records that name the account, in order |
| TransactionHistory.History.GetUserTransactions | src/TransactionHistory.java:92-131 | the reloaded records that name any account the store lists for the user, in order |
| TransferUi.FirstWithId | src/TransferUI.java:76-79 | the position of the first account with the id, with no earlier match; none exactly when no account has it |
| TransferUi.NoAccountsNoTransfer | src/TransferUI.java:46-49 | a user without accounts gets no transfer |
| TransferUi.DecideProceedsExactly | src/TransferUI.java:61-118 | a transfer happens exactly when the choice is in range, the store reads, the recipient exists, the amount is within the daily limit and the answer is "yes" in any case; it moves amount plus fee from the chosen account to the first account with that id |
| TransferUi.DecideIgnoresLaterAnswers | src/TransferUI.java:45-127 | a check that stops the flow does not depend on the answers asked after it: the early stops hold for any amount and confirmation, the limit for any confirmation, a refusal for any amount within the limit |
| TransferUi.FeeRule | src/TransferUI.java:98-101 | the total is the amount, plus $1.50 exactly when the amount exceeds $1,000; it grows with the amount and stays within the limit plus one fee |
| TransferUi.DecideGuarded | src/TransferUI.java:64-118 | the corrected checks never let an account pay itself and otherwise decide as written |
| TransferUi.GuardOnlyRefusesSelfTransfer | src/TransferUI.java:64-118 | the corrected checks differ from the written ones exactly on self-transfers |
| TransferUi.StoredTwice | src/BankAccountCSV.java:23-69 | two writes in a row both return, and the second account, and the first when its id differs, read back as written |
| TransferUi.MoveWritesTwice | src/BankTransfer.java:34-35 | an accepted transfer touches the store only through the source's write and then the destination's |
| BankAccounts.EffectWrites | src/BankAccount.java:87-142 | an accepted deposit or withdrawal touches the store only through its one rewrite |
| TransferUi.MoveStoresBalances | src/BankTransfer.java:34-35 | after the transfer, the store holds the recipient at its balance plus the total and, for a different id, the source at its balance less the total |
| TransferUi.SelfTransferMintsMoney | src/TransferUI.java:64-118 | as written, a transfer to the user's own source account leaves the store holding that account at its balance plus the total |
| TransferUi.GuardedTransferConservesMoney | src/TransferUI.java:64-118 | with the guard, the store holds the source less the total and the recipient plus the total, so their sum is unchanged |
| TransferUi.CheckTransfer | src/TransferUI.java:43-116 | the checks as the flow runs them decide exactly what `Decide` decides, over the user's accounts and every account as read, and change nothing |
| TransferUi.Carry | src/TransferUI.java:116-127 | a stop changes nothing; going ahead leaves the state `BankTransfer.transfer` leaves on two fresh objects with the total |
| TransferUi.InitiateTransfer | src/TransferUI.java:43-128 | the flow as written stops with the outcome the checks name and changes nothing, or runs the transfer with amount plus fee, a transfer to the source account itself included |
| TransferUi.InitiateTransferGuarded | src/TransferUI.java:43-128 | the corrected flow: the same, except that a recipient with the source's id stops it with `SameAccount` |
| Users.User.constructor | src/User.java:9-14 | name, password and id are stored as given; the role is always `STANDARD USER` |
| Users.User.SetPassword | src/User.java:32-38 | the same password leaves it unchanged; a different one replaces it |
| Users.NewUser | src/User.java:45-47 | `newUser` builds a user exactly as the constructor does |
| Admins.NewAdmin | src/Admin.java:16-18 | an admin's role is `STANDARD USER`: the user constructor overwrites `ADMIN` |
| Admins.CreateUser | src/Admin.java:28-30 | the new user has the given name, password and id, and the standard role |
| Admins.UserList.constructor | src/Admin.java:37 | the list holds the given users |
| Admins.RemoveUserById | src/Admin.java:37-40 | `removeIf` leaves exactly the users with other ids, in order |
| Admins.RemovalIsExact | src/Admin.java:38 | a user stays exactly when it was in the list and has another id, so none with the target id remains |
| Admins.RemovalKeepsOrder | src/Admin.java:38 | removal works stretch by stretch, so the kept users keep their relative order |
| Admins.DepositToUserAccount | src/Admin.java:78-81 | the admin deposit is the account's own `deposit` |
| Admins.WithdrawFromUserAccount | src/Admin.java:88-91 | the admin withdrawal is the account's own `withdraw` |

## Findings

| source | as written | input that shows it | evidently intended | confidence | as-written member | corrected member |
|---|---|---|---|---|---|---|
| src/TransferUI.java:64-118 | the recipient is looked up among all accounts without excluding the chosen source account; source and recipient are two separate objects read from the same row | a user picks their account `A` with balance 100.00 as the source, enters `A` as the recipient, transfers 10.00 and answers "yes" | a transfer to the same account is refused, or at least leaves the balance unchanged | not executed | TransferUi.SelfTransferMintsMoney | TransferUi.GuardedTransferConservesMoney |

`TransferUi.SelfTransferMintsMoney` is stated about the checks as written, `TransferUi.Decide`. `TransferUi.GuardedTransferConservesMoney` is stated about the corrected checks, `TransferUi.DecideGuarded`. The flow as written is `TransferUi.InitiateTransfer`; the corrected flow is `TransferUi.InitiateTransferGuarded`.

In the example input, the withdrawal rewrites `A` at 90.00. Then the deposit on the
stale second copy rewrites it at 110.00. The store ends 10.00 richer than before,
and the ledger records a withdrawal, a deposit and a transfer of 10.00 each.

## Left out

- Console output, menus (`showTransferMenu`, `viewTransferHistory`, `viewByAccount`, `viewAllUsers`, `viewAccountBalance`) and the success messages: they only print.
- `applyInterest` is commented out in the source, so there is no interest accrual to model.
- `src/Main.java`, `src/DemoMain.java`, `src/UserCSV.java` and `src/BankAccountTest.java` are not part of this model: they are console drivers, user persistence and tests outside the ledger core.
- `Admin.resetUserPassword` and `Admin.resetUserUsername`: they call `User` methods the source does not define.
- `BankAccount.getUserAccounts` and `getAllAccounts`: they only delegate to `readUserAccounts` and `readAllAccountsAdmin`, which are modelled.
- The `mkdirs()` call, file lengths beyond empty or non-empty, and I/O failures other than a file that cannot be opened for writing. Reads of an existing file are assumed to succeed.
- Amounts that are not whole cents: the source accepts any `double` (a deposit of 0.004 passes `amount > 0`, raises the balance in memory and is logged, but is stored as `0.00`). The model has only whole cents, so this loss is not modelled.
- The default locale: `String.format("%.2f")` is modelled with a `.` decimal separator and ASCII digits. Under a locale with a `,` separator every rewritten row splits into five fields and is skipped at the next read, and `Transactions.ToCsvHasNoComma` no longer holds.
- `double` arithmetic: amounts are exact cents, so rounding in `%.2f` and sums that lose precision are not modelled. `Double.parseDouble` is modelled only for plain decimal text with up to two fraction digits; other spellings (exponents, more digits, `NaN`) read as unparsable.
- `toUpperCase` and `equalsIgnoreCase` are modelled for ASCII letters only. Locale-specific case mapping is not modelled.
- The timestamp is one `now` parameter per call rather than a fresh clock reading for each record.
- `null` arguments and the `NullPointerException`s they would raise.
- The `success` branch after `BankTransfer.transfer` (src/TransferUI.java:119-124): `transfer` returns nothing, so the flow as compiled cannot test it. The two extra `updateAccount` calls are not modelled.
- The seven-argument `Transaction` constructor used by the history reader is absent from `src/Transaction.java`. The model takes it to store the fields read, id included, without touching the counter.
- `BankTransfer.transfer` calls `getAccountId`, and the savings constructor calls a `BankAccount` constructor that does not exist. The model uses the account id, and a savings account typed `SAVINGS` with the owner and balance given.
- The order of `HashMap.values()` is modelled as first-insertion order. The stated properties of the store do not depend on it except `BankAccountCsv.RenderLines`.
- BankAccountCsv.ScanUser: its contract states only that every listed account is owned by the user. That it is exactly the owned accounts in file order is `BankAccountCsv.ScanUserIsOwnerFilter`, stated for stores that read without an exception.
