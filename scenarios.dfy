/**
 * Sessions against a fresh database, stated as contracts: registering and
 * logging in, and on one account recording income and an expense and then
 * deleting the income twice.
 */
module Scenarios {
  import opened Wrappers
  import opened Model
  import opened Encoding
  import opened Db
  import opened Ledger
  import opened Accounts
  import opened Auth
  import opened Transactions

  lemma CreditOne(a: Account, delta: real)
    ensures Credit([a], a.id, delta) == [a.(balance := a.balance + delta)]
  {
  }

  lemma RevertOne(a: Account, t: Transaction)
    ensures Revert([a], t) == [a.(balance := a.balance - Effect(t, a.id))]
  {
  }

  /** The first user registered gets id 1, and logging in with the same password gives it back. */
  method RegisterThenLogin(digest: seq<byte> -> seq<byte>) returns (userId: Option<int>, loggedIn: Option<int>)
    ensures userId == Some(1) && loggedIn == userId
  {
    var db := new DatabaseManager();
    var auth := new AuthService(db, digest);
    userId := auth.Register("alice", "secret");
    loggedIn := auth.Login("alice", "secret");
  }

  /** Income of 500 and an expense of 200 on a new account leave it at 300. */
  method IncomeThenExpense(transactions: TransactionService, userId: int, accountId: int, now: string)
    requires transactions.Wired() && transactions.db.Valid()
    requires transactions.db.accounts == [Account(accountId, userId, "Карта", 0.0, "RUB")]
    requires transactions.db.transactions == [] && transactions.db.nextTransactionId == 1
    modifies transactions.db
    ensures transactions.db.Valid()
    ensures transactions.db.accounts == [Account(accountId, userId, "Карта", 300.0, "RUB")]
    ensures |transactions.db.transactions| == 2
    ensures transactions.db.transactions[0] == Transaction(1, userId, INCOME, 500.0, None, Some(0), None, Some(accountId), now)
  {
    transactions.AddIncome(userId, accountId, 0, 500.0, now);
    CreditOne(Account(accountId, userId, "Карта", 0.0, "RUB"), 500.0);
    transactions.AddExpense(userId, accountId, 0, 200.0, now);
    CreditOne(Account(accountId, userId, "Карта", 500.0, "RUB"), -200.0);
  }

  /** Deleting the income takes its 500 back; deleting it again finds nothing. */
  method DeleteIncomeTwice(transactions: TransactionService, userId: int, accountId: int, now: string)
    returns (firstDelete: bool, secondDelete: bool)
    requires transactions.Wired() && transactions.db.Valid()
    requires transactions.db.accounts == [Account(accountId, userId, "Карта", 300.0, "RUB")]
    requires |transactions.db.transactions| == 2
    requires transactions.db.transactions[0] == Transaction(1, userId, INCOME, 500.0, None, Some(0), None, Some(accountId), now)
    modifies transactions.db
    ensures transactions.db.Valid()
    ensures firstDelete && !secondDelete
    ensures transactions.db.accounts == [Account(accountId, userId, "Карта", -200.0, "RUB")]
  {
    ghost var income := transactions.db.transactions[0];
    firstDelete := transactions.DeleteTransaction(1);
    RevertOne(Account(accountId, userId, "Карта", 300.0, "RUB"), income);
    secondDelete := transactions.DeleteTransaction(1);
  }

  /** The whole session on a fresh database, reading the balance back through `getAccountById`. */
  method FirstSession(now: string) returns (balanceAfterBoth: real, firstDelete: bool, balanceAfterDelete: real, secondDelete: bool)
    ensures balanceAfterBoth == 300.0
    ensures firstDelete && balanceAfterDelete == -200.0
    ensures !secondDelete
  {
    var db := new DatabaseManager();
    var accounts := new AccountService(db);
    var transactions := new TransactionService(db, accounts);
    var accountId := accounts.CreateAccount(1, "Карта");
    assert accountId == 1 && db.accounts == [Account(1, 1, "Карта", 0.0, "RUB")];
    assert db.transactions == [] && db.nextTransactionId == 1 && transactions.Wired();

    IncomeThenExpense(transactions, 1, accountId, now);
    var account := accounts.GetAccountById(accountId);
    assert db.accounts[0] in db.accounts;
    balanceAfterBoth := account.value.balance;

    firstDelete, secondDelete := DeleteIncomeTwice(transactions, 1, accountId, now);
    account := accounts.GetAccountById(accountId);
    assert db.accounts[0] in db.accounts;
    balanceAfterDelete := account.value.balance;
  }
}
