# Finance tracker ledger, modelled in Dafny

This project models the bookkeeping core of a desktop finance tracker. The tracker is a Kotlin and JavaFX program over an SQLite file. It models these parts:

- **The store.** `Db.DatabaseManager` holds the four tables (users, accounts, categories, transactions) as sequences in rowid order. Beside them it keeps the AUTOINCREMENT counters. The schema's guarantees are the predicate `Valid()`: keyed, strictly increasing ids, unique usernames, and the two `CHECK` lists on `type`. The start-up routine splits the schema script on `;`, trims each piece and runs the non-empty ones. A statement whose error says "already exists" is not reported.
- **The services.** `AccountService`, `CategoryService`, `AuthService` and `TransactionService` are classes over one shared `DatabaseManager`. Each SQL statement is one method of the store. A service method runs the same steps the Kotlin method runs, in the same order:
  - the balance updates through `updateBalance`, then the row insert, delete or rewrite;
  - the duplicate check, then the category insert;
  - the username check, then the user insert.
- **The ledger invariant.** Every existing account's balance equals its opening balance plus the signed contributions of the stored transactions that reference it:
  - income adds its amount to its to-account;
  - expense subtracts it from its from-account;
  - a transfer does both;
  - a null reference contributes nothing.

  Every add, delete and update keeps this invariant. Creating an account keeps it when no stored row already names the new id. Deleting an account keeps it for the accounts that remain.
- **Queries.** An `ORDER BY` query is specified as a relation: the result is a permutation of the filtered rows, sorted by the key. Ties are left unspecified, as in SQL. `Sorting.SelectOrdered` models the query's filter and sort together with the loop that appends the result rows to a list. In the source that loop only appends the rows in the order SQLite's sorter has already produced. The model's loop instead walks the table in rowid order and inserts each matching row into its sorted place; this insertion sort is the model's stand-in for SQLite's sorter.
- **The monthly figures.**
  - The summary, the dashboard's totals and the per-category chart data are all sums over the month's rows.
  - A date range compares dates as TEXT, between the `LocalDate.toString` of the month's first and last day.
  - The model proves that, for four-digit years, this comparison is chronological order.
  - It also proves that a row stamped with SQLite's default `datetime('now')` text on the month's last day falls outside the range.
- **The amount field.** Its key filter, its clean-up of grouping characters and its parse back to a number are modelled.
- **The transaction dialog.** The OK-button rule and the result converter, which turns the form into one of the three service calls.
- **Default categories.** At login, a user with no income or expense categories gets nine default categories.

Amounts and balances are `real`, so sums are exact. The digest behind password hashing is a function parameter of `AuthService`. The encoding around it is modelled: the password's UTF-8 bytes go in, and two lower-case hex digits per byte come out. The clock is a parameter: `now` is the text of the `transaction_date` default, and `today` is the date `LocalDate.now()` gives.

The model follows the code where a reader might expect otherwise:

- A transfer from an account to itself is recorded and moves no balance.
- No service checks that an account or category belongs to the user.
- A deleted account's or category's id stays in the transaction rows. The `PRAGMA foreign_keys = ON` (src/main/kotlin/db/DatabaseManager.kt:21) applies only to the connection that creates the tables. Every statement runs on a fresh connection from `getConnection` (src/main/kotlin/db/DatabaseManager.kt:13-15), so the `ON DELETE SET NULL` clauses (src/main/kotlin/db/DatabaseManager.kt:68-70) never fire on the connections that delete.
- Nothing rolls back a balance update that an I/O failure interrupts; such failures are left out (see below).

## Model

| member | source | states |
|---|---|---|
| Db.DatabaseManager.constructor | src/main/kotlin/db/DatabaseManager.kt:17-26 | a new file: four empty tables, every counter at 1, valid and consistent |
| Db.DatabaseManager.InsertUser | src/main/kotlin/db/DatabaseManager.kt:30-35 | the user row is appended under the next id; the id is returned and the counter advances; usernames stay unique; the other tables are untouched |
| Db.DatabaseManager.InsertCategory | src/main/kotlin/db/DatabaseManager.kt:47-54 | a row whose type passes the `CHECK` is appended under the next id, which is returned; the other tables are untouched |
| Db.DatabaseManager.InsertTransaction | src/main/kotlin/service/TransactionService.kt:24-35 | a row of an allowed type is appended with the next id and `transaction_date` = `now`; the nullable references are stored as given; accounts, users and categories are untouched |
| Db.DatabaseManager.DeleteAccountAt | src/main/kotlin/service/AccountService.kt:51-56 | exactly that account row is removed; the counter and the other tables are unchanged |
| Db.DatabaseManager.DeleteCategoryAt | src/main/kotlin/service/CategoryService.kt:74-79 | exactly that category row is removed; the other tables are unchanged |
| Db.DatabaseManager.DeleteTransactionAt | src/main/kotlin/service/TransactionService.kt:84-87 | exactly that transaction row is removed; the other tables are unchanged |
| Db.Statements | src/main/kotlin/db/DatabaseManager.kt:75-78 | no more statements than pieces, and none of them empty |
| Db.StatementsAreTrimmedPieces | src/main/kotlin/db/DatabaseManager.kt:75-78 | every statement run is non-empty, trimmed and free of `;` |
| Db.PiecesTrimmed | src/main/kotlin/db/DatabaseManager.kt:76-78 | pieces free of `;` give statements that are non-empty, trimmed and free of `;` |
| Db.TrimWithin | src/main/kotlin/db/DatabaseManager.kt:77 | `trim` only removes characters |
| Db.ReportsSkipExisting | src/main/kotlin/db/DatabaseManager.kt:81-85 | every printed line is the error prefix plus a message that does not contain "already exists" |
| Db.StatementsStep | src/main/kotlin/db/DatabaseManager.kt:76-78 | one more piece adds its trimmed text to the statements exactly when that text is not empty |
| Db.ReportsStep | src/main/kotlin/db/DatabaseManager.kt:79-85 | running one more statement adds exactly its report to what was printed |
| Db.CreateTables | src/main/kotlin/db/DatabaseManager.kt:74-88 | the statements run are the non-empty trimmed `;`-pieces of the script, in order; the lines printed are their reports |
| Db.RunPiece | src/main/kotlin/db/DatabaseManager.kt:77-86 | a piece that trims to nothing is skipped; any other piece is executed and its failure, if any, is reported |
| Db.RunPieces | src/main/kotlin/db/DatabaseManager.kt:76-87 | the loop runs exactly the statements of the pieces, in order, and prints their reports |
| Tables.IndexOf | src/main/kotlin/service/TransactionService.kt:133-153 | the position of the first row with that key, or -1 exactly when no row has it |
| Tables.Find | src/main/kotlin/service/TransactionService.kt:133-153 | `WHERE id = ?` gives a row exactly when the key is present, and that row carries the key |
| Tables.KeyedUnique | src/main/kotlin/db/DatabaseManager.kt:31 | in a keyed table no other row holds a row's key, so a key names at most one row |
| Tables.KeyedAppend | src/main/kotlin/db/DatabaseManager.kt:31 | appending a row under the next id keeps the table keyed once the counter advances |
| Tables.KeyedRemove | src/main/kotlin/service/AccountService.kt:51-56 | deleting a row keeps the table keyed, and the deleted id is absent afterwards |
| Tables.RemoveAtMembers | src/main/kotlin/service/AccountService.kt:51-56 | after the delete, the rows are exactly those with another key |
| Tables.KeyedReplace | src/main/kotlin/service/TransactionService.kt:122-127 | rewriting a row without changing its key keeps the table keyed |
| Tables.KeyedWeaken | src/main/kotlin/db/DatabaseManager.kt:31 | a bound under the counter stays a bound under a larger counter |
| Accounts.NameOrder | src/main/kotlin/service/AccountService.kt:21 | `ORDER BY name` is a total preorder |
| Accounts.AccountService.constructor | src/main/kotlin/service/AccountService.kt:6 | the service works on the database it is given |
| Accounts.AccountService.CreateAccount | src/main/kotlin/service/AccountService.kt:7-17 | the account is appended with the given user, name, balance (default 0.0) and currency (default "RUB"); no name check; the new id is returned and is the next counter value |
| Accounts.AccountService.GetAccounts | src/main/kotlin/service/AccountService.kt:19-29 | exactly the user's accounts, as a permutation of them, sorted by name |
| Accounts.AccountService.UpdateBalance | src/main/kotlin/service/AccountService.kt:31-37 | the accounts table becomes `Credit(id, delta)`: only that account moves, by `delta`; a missing id changes nothing |
| Accounts.AccountService.GetAccountById | src/main/kotlin/service/AccountService.kt:39-49 | the row with that id if there is one, otherwise `None` |
| Accounts.AccountService.DeleteAccount | src/main/kotlin/service/AccountService.kt:51-56 | `true` iff the id existed; afterwards exactly the accounts with another id remain; transactions are untouched; the ledger stays consistent for the remaining accounts |
| Ledger.ContributionAppend | src/main/kotlin/service/TransactionService.kt:8-22 | a new row adds its own effect to every account's contribution |
| Ledger.ContributionRemove | src/main/kotlin/service/TransactionService.kt:59-91 | removing a row takes its effect off every account's contribution |
| Ledger.ContributionReplace | src/main/kotlin/service/TransactionService.kt:93-131 | rewriting a row trades its old effect for the new one |
| Ledger.ApplyConsistent | src/main/kotlin/service/TransactionService.kt:8-22 | recording a row and applying its contribution keeps the ledger invariant |
| Ledger.RevertConsistent | src/main/kotlin/service/TransactionService.kt:63-87 | reverting a row's contribution and deleting the row keeps the ledger invariant |
| Ledger.ReviseConsistent | src/main/kotlin/service/TransactionService.kt:97-127 | moving the balances by the difference and rewriting the row keeps the ledger invariant |
| Ledger.OpenConsistent | src/main/kotlin/service/AccountService.kt:7-17 | a new account that no stored row references joins a consistent ledger consistently |
| Ledger.ZeroContribution | src/main/kotlin/service/TransactionService.kt:63-82 | rows that each contribute nothing to an account sum to nothing |
| Ledger.CloseConsistent | src/main/kotlin/service/AccountService.kt:51-56 | deleting an account row keeps the invariant for the accounts that remain |
| Ledger.IncomeIsApply | src/main/kotlin/service/TransactionService.kt:8-11 | `addIncome`'s balance update is exactly the income row's contribution |
| Ledger.ExpenseIsApply | src/main/kotlin/service/TransactionService.kt:13-16 | `addExpense`'s balance update is exactly the expense row's contribution |
| Ledger.TransferIsApply | src/main/kotlin/service/TransactionService.kt:18-22 | `addTransfer`'s two balance updates are exactly the transfer row's contribution |
| Ledger.SelfTransferNoNet | src/main/kotlin/service/TransactionService.kt:18-22 | a transfer from an account to itself leaves every balance as it was |
| Ledger.CreditInverse | src/main/kotlin/service/AccountService.kt:31-37 | `updateBalance(id, d)` followed by `updateBalance(id, -d)` restores the table |
| Ledger.ApplyThenRevert | src/main/kotlin/service/TransactionService.kt:59-82 | recording a transaction and then deleting it restores every balance |
| Ledger.ReviseSameAmount | src/main/kotlin/service/TransactionService.kt:97 | an update that keeps the amount moves no balance |
| Ledger.ReviseIsRerecord | src/main/kotlin/service/TransactionService.kt:93-131 | the balances end as if the old row had been deleted and the revised one recorded |
| Ledger.ReviseIsDifference | src/main/kotlin/service/TransactionService.kt:97-119 | updating moves the to-account by +difference and the from-account by -difference, per stored type, for each reference that is not null |
| Ledger.RevertIsCredits | src/main/kotlin/service/TransactionService.kt:63-82 | deleting reverses, per stored type, exactly the references that are not null |
| Transactions.LaterOrSameOrder | src/main/kotlin/service/TransactionService.kt:39 | `ORDER BY transaction_date DESC` is a total preorder |
| Transactions.StampedRowInMonth | src/main/kotlin/service/TransactionService.kt:202-206 | a row stamped "YYYY-MM-DD HH:MM:SS" counts for a month iff its date is in the month and is not the month's last day |
| Transactions.TransactionService.constructor | src/main/kotlin/service/TransactionService.kt:7 | the service works on the database and account service it is given |
| Transactions.TransactionService.AddIncome | src/main/kotlin/service/TransactionService.kt:8-11 | only the to-account rises by `amount`; exactly one "income" row is appended with from = null, to = the account and the given category; the ledger stays consistent |
| Transactions.TransactionService.AddExpense | src/main/kotlin/service/TransactionService.kt:13-16 | only the from-account falls by `amount`; exactly one "expense" row is appended with to = null; the ledger stays consistent |
| Transactions.TransactionService.AddTransfer | src/main/kotlin/service/TransactionService.kt:18-22 | `amount` moves from the from-account to the to-account; the row has a null category; from = to is accepted and moves nothing; the ledger stays consistent |
| Transactions.TransactionService.GetTransactions | src/main/kotlin/service/TransactionService.kt:37-57 | exactly the user's rows, as a permutation of them, latest date first |
| Transactions.TransactionService.GetTransactionById | src/main/kotlin/service/TransactionService.kt:133-153 | the row with that id if there is one, otherwise `None` |
| Transactions.TransactionService.UpdateBalanceOf | src/main/kotlin/service/TransactionService.kt:65-67 | a reference that is not null has its account credited; a null one changes nothing |
| Transactions.TransactionService.TakeBack | src/main/kotlin/service/TransactionService.kt:63-82 | the balances lose exactly the row's contribution under its stored type |
| Transactions.TransactionService.MoveByDifference | src/main/kotlin/service/TransactionService.kt:98-119 | the balances trade the row's contribution for that of the row with the new amount |
| Transactions.TransactionService.DeleteTransaction | src/main/kotlin/service/TransactionService.kt:59-91 | an absent id gives `false` and changes nothing; otherwise the stored row's contribution is reverted and exactly that row is removed, so the id is gone and a second delete finds nothing; the ledger stays consistent |
| Transactions.TransactionService.RewriteRow | src/main/kotlin/service/TransactionService.kt:122-127 | only the row's amount and description change |
| Transactions.TransactionService.UpdateTransaction | src/main/kotlin/service/TransactionService.kt:93-131 | an absent id gives `false` and changes nothing; otherwise the row gets the new amount and description, and the balances end as if the row had been recorded with the new amount; an equal amount moves no balance; the ledger stays consistent |
| Transactions.TransactionService.GetTransactionsByDateRange | src/main/kotlin/service/TransactionService.kt:155-177 | exactly the user's rows dated between the bounds as TEXT, latest first |
| Transactions.TransactionService.GetTransactionsByCategory | src/main/kotlin/service/TransactionService.kt:179-200 | exactly the user's rows of that category id, latest first; a null category matches no id |
| Transactions.TransactionService.GetMonthlySummary | src/main/kotlin/service/TransactionService.kt:202-217 | no summary where `LocalDate.of` throws; otherwise the keys are income, expense, transfer and balance; each type's total is over the month's first-to-last-day range; balance = income - expense, so transfers do not count towards it |
| Transactions.TransactionService.MonthSums | src/main/kotlin/service/TransactionService.kt:206-210 | the three sums over the date-range query equal the month's totals of each type |
| Transactions.MonthSummed | src/main/kotlin/service/TransactionService.kt:206-210 | any ordering of the month's rows sums each type to the month's total |
| Categories.CountMatching | src/main/kotlin/service/CategoryService.kt:27-35 | the count is positive iff a row has that user, name and type |
| Categories.CategoryAppended | src/main/kotlin/service/CategoryService.kt:14-24 | an appended row is found by its key, and keeps the keys unique when the key was new |
| Categories.UniqueAfterRemove | src/main/kotlin/service/CategoryService.kt:74-79 | deleting a category keeps (user, name, type) unique |
| Categories.NameOrder | src/main/kotlin/service/CategoryService.kt:39 | `ORDER BY name` is a total preorder |
| Categories.KindNameOrder | src/main/kotlin/service/CategoryService.kt:64 | `ORDER BY type, name` is a total preorder |
| Categories.CategoryService.constructor | src/main/kotlin/service/CategoryService.kt:6 | the service works on the database it is given |
| Categories.CategoryService.CreateCategory | src/main/kotlin/service/CategoryService.kt:7-25 | a type other than income or expense is refused; then a (user, name, type) already present is refused, leaving the table unchanged; otherwise exactly one row with those fields is appended and its id returned; uniqueness of (user, name, type) is preserved |
| Categories.CategoryService.CategoryExists | src/main/kotlin/service/CategoryService.kt:27-35 | `true` iff some category has that user, name and type, so the same name under another type or user does not count |
| Categories.CategoryService.GetCategories | src/main/kotlin/service/CategoryService.kt:37-48 | exactly the user's categories of that type, sorted by name |
| Categories.CategoryService.GetCategoryById | src/main/kotlin/service/CategoryService.kt:50-60 | the row with that id if there is one, otherwise `None` |
| Categories.CategoryService.GetAllCategories | src/main/kotlin/service/CategoryService.kt:62-72 | exactly the user's categories, sorted by type and then by name |
| Categories.CategoryService.DeleteCategory | src/main/kotlin/service/CategoryService.kt:74-79 | `true` iff the id existed; exactly the categories with another id remain; transactions are untouched |
| Auth.CountNamed | src/main/kotlin/service/AuthService.kt:36-42 | the count is positive iff a row holds the username |
| Auth.UserNamed | src/main/kotlin/service/AuthService.kt:23-26 | the first row of that username, present iff some row holds it |
| Auth.LoginOutcomeSpec | src/main/kotlin/service/AuthService.kt:22-34 | with unique usernames, login succeeds iff a row holds the username and the hash, and it returns that row's id |
| Auth.AuthService.constructor | src/main/kotlin/service/AuthService.kt:6 | the service works on the database and digest it is given |
| Auth.AuthService.HashPassword | src/main/kotlin/service/AuthService.kt:44-48 | two lower-case hex digits per digest byte, which read back as the digest of the password's UTF-8 bytes |
| Auth.AuthService.SameHash | src/main/kotlin/service/AuthService.kt:44-48 | two passwords hash alike iff their digests agree |
| Auth.AuthService.HashIdentifiesPassword | src/main/kotlin/service/AuthService.kt:44-48 | under a digest without collisions, only the same password gives the same hash, for passwords without unpaired surrogates |
| Auth.AuthService.UserExists | src/main/kotlin/service/AuthService.kt:36-42 | `true` iff some user row has that username |
| Auth.AuthService.Register | src/main/kotlin/service/AuthService.kt:7-20 | a taken username gives `None` and leaves the users table unchanged; otherwise (username, hash) is stored under the next id, which is returned; logging in with the same password then returns that id; usernames stay unique |
| Auth.AuthService.Login | src/main/kotlin/service/AuthService.kt:22-34 | the id iff a row holds the username and the password's hash, otherwise `None` |
| Auth.StoreFresh | src/main/kotlin/service/AuthService.kt:8-19 | a row with a new username keeps usernames unique, and `login` finds it |
| Encoding.EncodeChar | src/main/kotlin/service/AuthService.kt:46 | one to four bytes per character |
| Encoding.Utf8 | src/main/kotlin/service/AuthService.kt:46 | between one and four bytes per character |
| Encoding.DecodeOneChar | src/main/kotlin/service/AuthService.kt:46 | the bytes of one character decode to its code point |
| Encoding.DecodeUtf8 | src/main/kotlin/service/AuthService.kt:46 | decoding the UTF-8 bytes gives back the code points |
| Encoding.Utf8Injective | src/main/kotlin/service/AuthService.kt:46 | distinct passwords without unpaired surrogates have distinct bytes |
| Encoding.Utf8Ascii | src/main/kotlin/service/AuthService.kt:46 | ASCII text gives one byte per character, its code |
| Encoding.Hex | src/main/kotlin/service/AuthService.kt:47 | two characters per byte |
| Encoding.HexAlphabet | src/main/kotlin/service/AuthService.kt:47 | only lower-case hex digits |
| Encoding.HexValue | src/main/kotlin/service/AuthService.kt:47 | a digit reads as a value below 16 |
| Encoding.HexDigitValue | src/main/kotlin/service/AuthService.kt:47 | the digit written for a value reads back as that value |
| Encoding.UnHexHex | src/main/kotlin/service/AuthService.kt:47 | the hex text reads back as the bytes |
| Encoding.HexInjective | src/main/kotlin/service/AuthService.kt:47 | two digests give the same text iff they are the same bytes |
| Seqs.Filter | src/main/kotlin/service/TransactionService.kt:208-210 | the kept elements all pass and come from the list, and every passing element is kept |
| Seqs.SumPermutation | src/main/kotlin/service/TransactionService.kt:206-210 | `sumOf` does not depend on the order the query returns the rows in |
| Seqs.FilterPermutation | src/main/kotlin/service/TransactionService.kt:206-210 | filtering rows in another order selects the same rows |
| Sorting.Insert | src/main/kotlin/service/AccountService.kt:24-26 | the result holds the old rows plus the new one |
| Sorting.InsertSorted | src/main/kotlin/service/AccountService.kt:21 | insertion keeps the list sorted |
| Sorting.SelectOrdered | src/main/kotlin/service/AccountService.kt:19-29 | the query's WHERE and ORDER BY with the append loop: the result is a permutation of the rows passing the filter, sorted by the key; the insertion sort stands in for SQLite's sorter |
| Dates.LengthOfMonth | src/main/kotlin/service/TransactionService.kt:204 | 28 to 31 days; February has 29 iff the year is a leap year |
| Dates.Of | src/main/kotlin/service/TransactionService.kt:203-204 | a date iff the year is in Java's range, the month in 1..12 and the day within the month |
| Dates.WithDayOfMonth | src/main/kotlin/ui/dialogs/DashboardView.kt:130-131 | the same year and month, the given day, still a valid date |
| Dates.NatTextPadded | src/main/kotlin/service/TransactionService.kt:203-204 | a number of exactly `width` digits is written without padding |
| Dates.DigitOrder | src/main/kotlin/service/TransactionService.kt:157 | one digit compares as TEXT as its value |
| Dates.PaddedOrder | src/main/kotlin/service/TransactionService.kt:157 | zero-padded numbers of one width compare as TEXT as the numbers |
| Dates.FourDigitText | src/main/kotlin/service/TransactionService.kt:203 | a four-digit year writes as "YYYY-MM-DD" |
| Dates.OrderByField | src/main/kotlin/service/TransactionService.kt:157 | a fixed-width leading field decides the TEXT order unless it is equal |
| Dates.DateTextOrder | src/main/kotlin/service/TransactionService.kt:157 | for four-digit years, comparing date texts is chronological order |
| Dates.DateInMonthRange | src/main/kotlin/service/TransactionService.kt:202-206 | a bare date string lies between the month's bounds iff the date is in the month |
| Dates.TimestampInMonthRange | src/main/kotlin/ui/dialogs/DashboardView.kt:136-137 | a timestamp lies between the month's bounds iff its date is in the month and is not the last day |
| Dashboard.UserMonthRows | src/main/kotlin/ui/dialogs/DashboardView.kt:133-139 | filtering the user's rows by type and month selects the month's rows of that type, whatever their order, and so sums to the month's total |
| Dashboard.DashboardView.constructor | src/main/kotlin/ui/dialogs/DashboardView.kt:15-20 | the view reads the services it is given |
| Dashboard.DashboardView.CalculateTotalBalance | src/main/kotlin/ui/dialogs/DashboardView.kt:124-126 | the sum of the balances of the user's accounts |
| Dashboard.DashboardView.MonthlyTotal | src/main/kotlin/ui/dialogs/DashboardView.kt:128-140 | one type's sum over the rows dated between today's month's first and last day strings |
| Dashboard.DashboardView.CalculateMonthlyIncome | src/main/kotlin/ui/dialogs/DashboardView.kt:128-140 | the month's income total |
| Dashboard.DashboardView.CalculateMonthlyExpense | src/main/kotlin/ui/dialogs/DashboardView.kt:142-154 | the month's expense total; transfers are not counted |
| Dashboard.DashboardView.GetAccountsCount | src/main/kotlin/ui/dialogs/DashboardView.kt:156-158 | the number of the user's accounts |
| Dashboard.DashboardView.GetLastTransaction | src/main/kotlin/ui/dialogs/DashboardView.kt:160-162 | `None` iff the user has no rows; otherwise one of the user's rows dated no earlier than any other |
| Charts.SliceIndex | src/main/kotlin/ui/components/ChartsView.kt:54 | the position of the entry for a name, or -1 when there is none |
| Charts.AccumulateLookup | src/main/kotlin/ui/components/ChartsView.kt:54 | `getOrDefault` + put raises exactly that name's value by the amount |
| Charts.AccumulateKeys | src/main/kotlin/ui/components/ChartsView.kt:54 | the keys afterwards are the old ones plus that name, each once |
| Charts.AccumulateTotal | src/main/kotlin/ui/components/ChartsView.kt:54 | the values' total rises by the amount |
| Charts.GroupLookup | src/main/kotlin/ui/components/ChartsView.kt:46-55 | each label's entry is the sum of the amounts of the rows with that label, so distinct ids of one name share an entry |
| Charts.GroupKeys | src/main/kotlin/ui/components/ChartsView.kt:46-61 | one entry per label that occurs, and none other |
| Charts.LabelOccursSnoc | src/main/kotlin/ui/components/ChartsView.kt:46-55 | a label occurs in the rows iff it occurs in all but the last or is the last row's |
| Charts.GroupTotal | src/main/kotlin/ui/components/ChartsView.kt:46-55 | the entries add up to the rows' total |
| Charts.GroupIsChart | src/main/kotlin/ui/components/ChartsView.kt:37-61 | grouping the rows in any order gives their chart and their total |
| Charts.ChartsView.constructor | src/main/kotlin/ui/components/ChartsView.kt:14-18 | the view reads the services it is given |
| Charts.ChartsView.LabelOf | src/main/kotlin/ui/components/ChartsView.kt:47-52 | the category's name, or "Без категории" when the id is null or the lookup finds nothing |
| Charts.ChartsView.Tally | src/main/kotlin/ui/components/ChartsView.kt:44-55 | the `forEach` builds exactly the grouping of the rows |
| Charts.ChartsView.CategoryTotals | src/main/kotlin/ui/components/ChartsView.kt:32-61 | the chart of the month's rows of that type only, whose entries add up to the month's total |
| AmountField.DigitRun | src/main/kotlin/ui/components/AmountTextField.kt:45 | the length of the leading run of digits |
| AmountField.DigitRunAt | src/main/kotlin/ui/components/AmountTextField.kt:45 | digits up to a non-digit fix the run's length |
| AmountField.DigitRunAtPoint | src/main/kotlin/ui/components/AmountTextField.kt:45 | the run of digits ends at the point |
| AmountField.PatternShape | src/main/kotlin/ui/components/AmountTextField.kt:45 | the regex admits digits, optionally split by one point |
| AmountField.OccurrencesConcat | src/main/kotlin/ui/components/AmountTextField.kt:49 | counting a character over a concatenation adds the counts |
| AmountField.NoPointInDigits | src/main/kotlin/ui/components/AmountTextField.kt:49 | digits hold no point |
| AmountField.PatternOnePoint | src/main/kotlin/ui/components/AmountTextField.kt:45-50 | the dot-count check never refuses what the regex let through |
| AmountField.SplitAtPoint | src/main/kotlin/ui/components/AmountTextField.kt:52 | text with one point splits into the digits before it and after it |
| AmountField.ValidAmountShape | src/main/kotlin/ui/components/AmountTextField.kt:42-58 | a valid amount is digits, or digits, a point and at most two digits |
| AmountField.AcceptedExamples | src/main/kotlin/ui/components/AmountTextField.kt:43-57 | "", "." and "12." are accepted |
| AmountField.TwoDecimalsAccepted | src/main/kotlin/ui/components/AmountTextField.kt:52-57 | "12.34" is accepted |
| AmountField.ThirdDecimalRefused | src/main/kotlin/ui/components/AmountTextField.kt:52-55 | "1.234" is refused |
| AmountField.CommaAndSecondPointRefused | src/main/kotlin/ui/components/AmountTextField.kt:45-50 | "1,5" and "1.2.3" are refused |
| AmountField.Unformat | src/main/kotlin/ui/components/AmountTextField.kt:75 | the result holds only digits and points |
| AmountField.UnformatIdempotent | src/main/kotlin/ui/components/AmountTextField.kt:73-76 | stripping twice is stripping once |
| AmountField.UnformatValid | src/main/kotlin/ui/components/AmountTextField.kt:73-76 | text the filter accepted is left as it is |
| AmountField.ZeroAmount | src/main/kotlin/ui/components/AmountTextField.kt:78-84 | "0" reads back as zero |
| AmountField.AmountOf | src/main/kotlin/ui/components/AmountTextField.kt:78-84 | never negative |
| AmountField.NatTextDigits | src/main/kotlin/ui/components/AmountTextField.kt:80 | a whole number's text is digits that denote it |
| AmountField.ParseNatText | src/main/kotlin/ui/components/AmountTextField.kt:80 | a whole number's text parses back to it |
| AmountField.PaddedCents | src/main/kotlin/ui/components/AmountTextField.kt:80 | two padded digits of cents read back as the cents |
| AmountField.CentsText | src/main/kotlin/ui/components/AmountTextField.kt:80 | "whole.cents" holds only digits and a point |
| AmountField.ParseWithCents | src/main/kotlin/ui/components/AmountTextField.kt:80 | "whole.cents" parses to the amount it writes |
| AmountField.ValidKept | src/main/kotlin/ui/components/AmountTextField.kt:42-58 | accepted text holds only digits and the point |
| AmountField.ValidParses | src/main/kotlin/ui/components/AmountTextField.kt:78-84 | accepted text parses iff it has a digit, so "" and "." read as 0 |
| AmountField.PointParses | src/main/kotlin/ui/components/AmountTextField.kt:80 | text with a point parses iff it has a digit |
| AmountField.AmountTextField.constructor | src/main/kotlin/ui/components/AmountTextField.kt:12-40 | a new field has empty text and the caret at 0 |
| AmountField.AmountTextField.SetAmountZero | src/main/kotlin/ui/components/AmountTextField.kt:86-88 | `setAmount(0.0)` leaves the text "0", which reads back as zero |
| AmountField.AmountTextField.Candidate | src/main/kotlin/ui/components/AmountTextField.kt:21-24 | the old text with the character inserted at the caret |
| AmountField.AmountTextField.KeyTyped | src/main/kotlin/ui/components/AmountTextField.kt:20-29 | the event is consumed, and the text kept, iff the candidate is invalid; otherwise the text becomes the candidate; valid text stays valid |
| AmountField.AmountTextField.FocusGained | src/main/kotlin/ui/components/AmountTextField.kt:31-37 | the text is stripped to digits and points, and valid text is left as it is |
| AmountField.AmountTextField.GetAmount | src/main/kotlin/ui/components/AmountTextField.kt:78-84 | the parse of the same stripped text `unformatAmount` produces, or 0 when that is not a number |
| Dialog.FirstMatch | src/main/kotlin/ui/dialogs/TransactionDialog.kt:143 | the position of the first category with that name and type, or -1 when none has them |
| Dialog.FindCategory | src/main/kotlin/ui/dialogs/TransactionDialog.kt:143 | the first category matching both name and type, or `None` when none does |
| Dialog.DescriptionOf | src/main/kotlin/ui/dialogs/TransactionDialog.kt:136 | a blank description is null; any other is passed as it is |
| Dialog.RowOf | src/main/kotlin/ui/dialogs/TransactionDialog.kt:146-178 | the stored row carries the request's amount and description, and the date `now` |
| Dialog.IncomeChoice | src/main/kotlin/ui/dialogs/TransactionDialog.kt:139-153 | "Доход" calls `addIncome` with the chosen to-account and the first matching income category's id, or 0 |
| Dialog.ExpenseChoice | src/main/kotlin/ui/dialogs/TransactionDialog.kt:154-168 | "Расход" calls `addExpense` with the chosen from-account and the first matching expense category's id, or 0 |
| Dialog.DefaultTransferIsSelf | src/main/kotlin/ui/dialogs/TransactionDialog.kt:35-43 | with both boxes on the first account, "Перевод" transfers to the same account and moves no balance |
| Dialog.NoAccountsNoCall | src/main/kotlin/ui/dialogs/TransactionDialog.kt:140-171 | with no accounts every type fails before calling a service |
| Dialog.TransactionDialog.constructor | src/main/kotlin/ui/dialogs/TransactionDialog.kt:18-130 | the boxes start on "Доход", "Без категории" and the first account; the amount reads 0, so OK starts disabled; the lists are the user's accounts by name and categories by type and name |
| Dialog.TransactionDialog.Validate | src/main/kotlin/ui/dialogs/TransactionDialog.kt:121-127 | OK is disabled iff the amount is not positive or the user has no account; the form is unchanged |
| Dialog.TransactionDialog.Submit | src/main/kotlin/ui/dialogs/TransactionDialog.kt:146-178 | the request's service call appends its row and moves the balances it names; the ledger stays consistent |
| Dialog.TransactionDialog.ConfirmOk | src/main/kotlin/ui/dialogs/TransactionDialog.kt:132-188 | OK makes the pending call and then runs `onSuccess`; an unlisted type runs only `onSuccess`; an account index out of range changes nothing and skips `onSuccess` |
| Startup.ShiftPairs | src/main/kotlin/Main.kt:62 | a pair is in the list iff it is the head or in the tail |
| Startup.HasCategoryAppend | src/main/kotlin/Main.kt:64 | a key is present after an append iff it was before or is the new row's |
| Startup.SeedAppends | src/main/kotlin/Main.kt:62-68 | seeding keeps every existing row and appends only rows of that user, of allowed types, from the pairs |
| Startup.SeedHas | src/main/kotlin/Main.kt:62-68 | after seeding a key is present iff it was before or it is an allowed pair of that user |
| Startup.SeedUnique | src/main/kotlin/Main.kt:62-68 | seeding never duplicates a (user, name, type) key |
| Startup.SeedPresent | src/main/kotlin/Main.kt:62-68 | seeding when every allowed pair is present changes nothing |
| Startup.SeedIdempotent | src/main/kotlin/Main.kt:62-68 | seeding a second time leaves the categories as they are |
| Startup.UniqueCount | src/main/kotlin/service/CategoryService.kt:27-35 | under unique keys, a present key is counted exactly once |
| Startup.FilterTwo | src/main/kotlin/service/CategoryService.kt:28 | two matches come from two positions |
| Startup.DefaultsExactlyOnce | src/main/kotlin/Main.kt:30-34 | after seeding, each of the nine default pairs is held by exactly one row of the user |
| Startup.SeedStep | src/main/kotlin/Main.kt:62-68 | one attempt appends the head pair with the next id, or skips it, and the rest of the seeding continues from there |
| Startup.CreateDefaultCategories | src/main/kotlin/Main.kt:49-69 | the nine pairs are tried in list order, failures ignored; the table becomes the seeding of the old one |
| Startup.OnLogin | src/main/kotlin/Main.kt:29-34 | a user with an income or expense category keeps their categories; any other user gets the defaults |
| Scenarios.CreditOne | src/main/kotlin/service/AccountService.kt:31-37 | helper for the scenarios: `Credit` unfolded on a one-account table |
| Scenarios.RevertOne | src/main/kotlin/service/TransactionService.kt:63-82 | helper for the scenarios: `Revert` unfolded on a one-account table |
| Scenarios.RegisterThenLogin | src/main/kotlin/service/AuthService.kt:7-34 | on a new file the first user gets id 1, and login with the same password returns it |
| Scenarios.IncomeThenExpense | src/main/kotlin/service/TransactionService.kt:8-16 | income of 500 and an expense of 200 on a new account leave it at 300 |
| Scenarios.DeleteIncomeTwice | src/main/kotlin/service/TransactionService.kt:59-91 | deleting the income takes its 500 back; a second delete returns false and moves nothing |
| Scenarios.FirstSession | src/main/kotlin/service/TransactionService.kt:8-91 | on a new file, one default account with income 500 and expense 200 reads back 300; deleting the income leaves -200; deleting it again fails |
| Text.TrimStart | src/main/kotlin/db/DatabaseManager.kt:77 | a suffix of the text, whose dropped prefix is blank and which does not start with whitespace |
| Text.TrimEnd | src/main/kotlin/db/DatabaseManager.kt:77 | a prefix of the text, whose dropped suffix is blank and which does not end with whitespace |
| Text.TrimEmptyIffBlank | src/main/kotlin/db/DatabaseManager.kt:77-78 | a piece trims to nothing iff it is blank |
| Text.TrimEnds | src/main/kotlin/db/DatabaseManager.kt:77 | a trimmed text neither starts nor ends with whitespace |
| Text.Split | src/main/kotlin/db/DatabaseManager.kt:75 | one more piece than occurrences of the separator, and no piece holds it |
| Text.SplitThenJoin | src/main/kotlin/db/DatabaseManager.kt:75 | joining the pieces with the separator gives back the text |
| Text.JoinThenSplit | src/main/kotlin/db/DatabaseManager.kt:75 | splitting joined pieces that are free of the separator gives them back |

## Left out

- JDBC and SQLite plumbing is not modelled: connections, prepared statements and result-set mapping. The tables are sequences in the store. Row order is rowid order, and collation is `Text.LexLe`, the binary order of code points. The Kotlin filters in the dashboard and chart views compare with String `>=` and `<=`, which order UTF-16 code units; that differs from code-point order only between a supplementary character and U+E000 to U+FFFF. `Dashboard.UserMonthRows` equates the two filters on that basis. Stored dates are the ASCII `datetime('now')` text, where the two orders agree.
- `Double` arithmetic is not modelled. Amounts and balances are exact `real`s, so rounding and `NaN` do not arise.
- `DecimalFormat` is not modelled. So `formatAmount` is left out: it reformats the text on focus loss and in the field's `init`. `setAmount` is modelled only for `0.0`, as `AmountField.AmountTextField.SetAmountZero`, whose text "0" is what `#,##0.##` writes for zero.
- `String.format` in the chart labels and the widget rendering are not modelled.
- `AmountField.AmountTextField.KeyTyped`: a candidate the filter accepts is inserted at the caret. That is what JavaFX then does with an unconsumed key event. Selection replacement is not modelled.
- SHA-256 and `MessageDigest` are not modelled. The digest is the function `AuthService.digest`, so `Auth.AuthService.HashIdentifiesPassword` assumes a collision-free digest as a precondition.
- `Encoding.Utf8Injective` and `Auth.AuthService.HashIdentifiesPassword`: passwords are modelled as text of Unicode scalar values. A Kotlin `String` can hold an unpaired surrogate, which `toByteArray()` writes as `?` (0x3F). On such text the encoding is not injective: "\uD800" and "?" give the same bytes and the same hash, so each logs in to the other's account. That case is not modelled.
- The clock is not modelled. `LocalDate.now()` is the `today` parameter of the dashboard and chart methods. The `datetime('now')` default of `transaction_date` is the `now` parameter of the add methods. `created_at` columns are never read and are not kept.
- I/O failures are not modelled. The `try/catch` in `deleteTransaction` and `updateTransaction` that answers `false` after a partial balance update only arises on such a failure. The `RuntimeException` when no generated key comes back is left out as well. The model runs the statements in sequence and always succeeds.
- Exceptions from the service calls inside the dialog's converter are not modelled. The only failure modelled there is the account index out of range, caught before any call; it shows an alert.
- `Dialog.TransactionDialog`: the widgets are not modelled. The form's selections are fields. The text listener that re-runs `validate()` on each edit is the method `Validate`, which a caller invokes. `onSuccess` is a counter.
- Foreign keys are not enforced. `PRAGMA foreign_keys = ON` holds only on the connection that creates the tables, so neither `ON DELETE SET NULL` nor `CASCADE` runs. Deleting a user is not an operation of the core.
- The schema text itself is not modelled. `Db.CreateTables` takes the script and the statement executor as parameters. The tables it creates are the constructor's empty state.
- Ids are unbounded integers. 32-bit `Int` overflow of an AUTOINCREMENT id is not modelled.
- `Accounts.AccountService.CreateAccount`: keeps the ledger invariant only when no stored row already references the new id. Foreign keys are off, so a row can name an id that was never allocated; that row's contribution is not in the new account's opening balance.
- `Dates.DateTextOrder`, `Dates.DateInMonthRange` and `Dates.TimestampInMonthRange`: are proved for years 0 to 9999 only. Outside them `LocalDate.toString` writes a sign or more digits, and those texts are not compared.
- The code that is not part of this model: `MainView`, `LoginView`, `AccountDialog`, `CategoryDialog`, `BindingUtils`, the case-insensitive search filters that need Unicode case folding, and the scene and window handling in `Main.start`.
- `Localization` is not modelled. It uses a global locale and a `ResourceBundle` lookup. The dialog's Russian labels are constants.
- The chart code's `mutableMapOf` is modelled as a sequence of entries in insertion order, distinct by name. Its hashing internals are not modelled.
