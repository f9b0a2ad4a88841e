/**
 * The rows of the four tables. NOT NULL columns are plain fields, nullable
 * columns are `Option`s; `created_at` columns are never read and are not kept.
 * The SQL column `type` is the field `kind` (`type` is a Dafny keyword).
 */
module Model {
  import opened Wrappers

  const INCOME := "income"
  const EXPENSE := "expense"
  const TRANSFER := "transfer"

  /** A row of `users`. */
  datatype User = User(id: int, username: string, passwordHash: string)

  /** A row of `accounts`, as `model.Account` carries it. */
  datatype Account = Account(id: int, userId: int, name: string, balance: real, currency: string)

  /** A row of `categories`, as `model.Category` carries it. */
  datatype Category = Category(id: int, userId: int, name: string, kind: string)

  /** A row of `transactions`, in the shape of `model.Transaction`. */
  datatype Transaction = Transaction(
    id: int,
    userId: int,
    kind: string,
    amount: real,
    description: Option<string>,
    categoryId: Option<int>,
    fromAccountId: Option<int>,
    toAccountId: Option<int>,
    transactionDate: string)

  function UserId(u: User): int { u.id }
  function AccountId(a: Account): int { a.id }
  function CategoryId(c: Category): int { c.id }
  function TransactionId(t: Transaction): int { t.id }

  function Balance(a: Account): real { a.balance }
  function Amount(t: Transaction): real { t.amount }
}
