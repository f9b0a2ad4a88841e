/**
 * `service.TransactionService`: recording income, expenses and transfers
 * together with the balance updates they imply, undoing and revising them,
 * the transaction queries and the monthly summary.
 */
module Transactions {
  import opened Wrappers
  import opened Model
  import opened Seqs
  import opened Sorting
  import opened Tables
  import opened Text
  import opened Dates
  import opened Db
  import opened Ledger
  import opened Accounts

  /** `WHERE user_id = ?`. */
  function OfUser(userId: int): Transaction -> bool
  {
    (t: Transaction) => t.userId == userId
  }

  /** `WHERE user_id = ? AND transaction_date BETWEEN ? AND ?`, compared as TEXT. */
  function InDateRange(userId: int, startDate: string, endDate: string): Transaction -> bool
  {
    (t: Transaction) => t.userId == userId && LexLe(startDate, t.transactionDate) && LexLe(t.transactionDate, endDate)
  }

  /** `WHERE user_id = ? AND category_id = ?`; a null category matches no id. */
  function InCategory(userId: int, categoryId: int): Transaction -> bool
  {
    (t: Transaction) => t.userId == userId && t.categoryId == Some(categoryId)
  }

  /** `filter { it.type == kind }`. */
  function IsKind(kind: string): Transaction -> bool
  {
    (t: Transaction) => t.kind == kind
  }

  /** `ORDER BY transaction_date DESC`. */
  predicate LaterOrSame(a: Transaction, b: Transaction)
  {
    LexLe(b.transactionDate, a.transactionDate)
  }

  lemma LaterOrSameOrder()
    ensures TotalPreorder(LaterOrSame)
  {
    forall a: Transaction, b: Transaction
      ensures LaterOrSame(a, b) || LaterOrSame(b, a)
    {
      LexLeTotal(a.transactionDate, b.transactionDate);
    }
    forall a: Transaction, b: Transaction, c: Transaction | LaterOrSame(a, b) && LaterOrSame(b, c)
      ensures LaterOrSame(a, c)
    {
      LexLeTransitive(c.transactionDate, b.transactionDate, a.transactionDate);
    }
  }

  /**
   * The user's stored transactions of one type whose date text lies between
   * the month's first and last `LocalDate` strings.
   */
  function MonthRows(transactions: seq<Transaction>, userId: int, year: int, month: int, kind: string): seq<Transaction>
    requires 1 <= month <= 12
  {
    Filter(Filter(transactions, InDateRange(userId, MonthStart(year, month), MonthEnd(year, month))), IsKind(kind))
  }

  /** The amount of one type summed over the month's rows. */
  function MonthTotal(transactions: seq<Transaction>, userId: int, year: int, month: int, kind: string): real
    requires 1 <= month <= 12
  {
    SumOf(MonthRows(transactions, userId, year, month, kind), Amount)
  }

  /**
   * A row stamped with SQLite's default "YYYY-MM-DD HH:MM:SS" counts towards
   * a month exactly when its date is in that month and is not the month's
   * last day.
   */
  lemma StampedRowInMonth(t: Transaction, d: Date, time: string, userId: int, year: int, month: int)
    requires ValidDate(d) && 0 <= d.year <= 9999 && 0 <= year <= 9999 && 1 <= month <= 12
    requires |time| > 0 && t.transactionDate == ToText(d) + time && t.userId == userId
    ensures InDateRange(userId, MonthStart(year, month), MonthEnd(year, month))(t)
            <==> d.year == year && d.month == month && d.day < LengthOfMonth(year, month)
  {
    TimestampInMonthRange(d, time, year, month);
  }

  class TransactionService {
    const db: DatabaseManager
    const accountService: AccountService

    constructor (db: DatabaseManager, accountService: AccountService)
      ensures this.db == db && this.accountService == accountService
    {
      this.db := db;
      this.accountService := accountService;
    }

    /** Both services work on the same database. */
    predicate Wired()
    {
      accountService.db == db
    }

    /** `addIncome`: raises the target account by `amount` and records the income. */
    method AddIncome(userId: int, toAccountId: int, categoryId: int, amount: real, now: string, description: Option<string> := None)
      requires Wired() && db.Valid()
      modifies db
      ensures db.Valid()
      ensures db.accounts == Credit(old(db.accounts), toAccountId, amount)
      ensures db.transactions == old(db.transactions) +
        [Transaction(old(db.nextTransactionId), userId, INCOME, amount, description, Some(categoryId), None, Some(toAccountId), now)]
      ensures db.nextTransactionId == old(db.nextTransactionId) + 1
      ensures db.nextAccountId == old(db.nextAccountId) && db.opening == old(db.opening)
      ensures db.KeepsUsers() && db.KeepsCategories()
      ensures old(db.Consistent()) ==> db.Consistent()
    {
      ghost var accounts, transactions, consistent := db.accounts, db.transactions, db.Consistent();
      var t := Transaction(db.nextTransactionId, userId, INCOME, amount, description, Some(categoryId), None, Some(toAccountId), now);
      accountService.UpdateBalance(toAccountId, amount);
      db.InsertTransaction(userId, INCOME, amount, description, Some(categoryId), None, Some(toAccountId), now);
      IncomeIsApply(accounts, t);
      if consistent {
        ApplyConsistent(accounts, transactions, db.opening, t);
      }
    }

    /** `addExpense`: lowers the source account by `amount` and records the expense. */
    method AddExpense(userId: int, fromAccountId: int, categoryId: int, amount: real, now: string, description: Option<string> := None)
      requires Wired() && db.Valid()
      modifies db
      ensures db.Valid()
      ensures db.accounts == Credit(old(db.accounts), fromAccountId, -amount)
      ensures db.transactions == old(db.transactions) +
        [Transaction(old(db.nextTransactionId), userId, EXPENSE, amount, description, Some(categoryId), Some(fromAccountId), None, now)]
      ensures db.nextTransactionId == old(db.nextTransactionId) + 1
      ensures db.nextAccountId == old(db.nextAccountId) && db.opening == old(db.opening)
      ensures db.KeepsUsers() && db.KeepsCategories()
      ensures old(db.Consistent()) ==> db.Consistent()
    {
      ghost var accounts, transactions, consistent := db.accounts, db.transactions, db.Consistent();
      var t := Transaction(db.nextTransactionId, userId, EXPENSE, amount, description, Some(categoryId), Some(fromAccountId), None, now);
      accountService.UpdateBalance(fromAccountId, -amount);
      db.InsertTransaction(userId, EXPENSE, amount, description, Some(categoryId), Some(fromAccountId), None, now);
      ExpenseIsApply(accounts, t);
      if consistent {
        ApplyConsistent(accounts, transactions, db.opening, t);
      }
    }

    /**
     * `addTransfer`: moves `amount` from one account to the other and records
     * the transfer, without a category. Nothing forbids the two accounts
     * being the same; then no balance moves.
     */
    method AddTransfer(userId: int, fromAccountId: int, toAccountId: int, amount: real, now: string, description: Option<string> := None)
      requires Wired() && db.Valid()
      modifies db
      ensures db.Valid()
      ensures db.accounts == Credit(Credit(old(db.accounts), fromAccountId, -amount), toAccountId, amount)
      ensures fromAccountId == toAccountId ==> db.accounts == old(db.accounts)
      ensures db.transactions == old(db.transactions) +
        [Transaction(old(db.nextTransactionId), userId, TRANSFER, amount, description, None, Some(fromAccountId), Some(toAccountId), now)]
      ensures db.nextTransactionId == old(db.nextTransactionId) + 1
      ensures db.nextAccountId == old(db.nextAccountId) && db.opening == old(db.opening)
      ensures db.KeepsUsers() && db.KeepsCategories()
      ensures old(db.Consistent()) ==> db.Consistent()
    {
      ghost var accounts, transactions, consistent := db.accounts, db.transactions, db.Consistent();
      var t := Transaction(db.nextTransactionId, userId, TRANSFER, amount, description, None, Some(fromAccountId), Some(toAccountId), now);
      accountService.UpdateBalance(fromAccountId, -amount);
      accountService.UpdateBalance(toAccountId, amount);
      db.InsertTransaction(userId, TRANSFER, amount, description, None, Some(fromAccountId), Some(toAccountId), now);
      TransferIsApply(accounts, t);
      if fromAccountId == toAccountId {
        SelfTransferNoNet(accounts, fromAccountId, amount);
      }
      if consistent {
        ApplyConsistent(accounts, transactions, db.opening, t);
      }
    }

    /** `getTransactions`: the user's transactions, latest date first. */
    method GetTransactions(userId: int) returns (list: seq<Transaction>)
      ensures multiset(list) == multiset(Filter(db.transactions, OfUser(userId)))
      ensures forall t :: t in list <==> t in db.transactions && t.userId == userId
      ensures SortedBy(list, LaterOrSame)
    {
      LaterOrSameOrder();
      list := SelectOrdered(db.transactions, OfUser(userId), LaterOrSame);
      SameElements(list, Filter(db.transactions, OfUser(userId)));
    }

    /** `getTransactionById`: the transaction with that id, or `None`. */
    method GetTransactionById(transactionId: int) returns (r: Option<Transaction>)
      requires db.Valid()
      ensures r.Some? <==> HasId(db.transactions, TransactionId, transactionId)
      ensures forall t :: t in db.transactions && t.id == transactionId ==> r == Some(t)
    {
      r := Find(db.transactions, TransactionId, transactionId);
      forall t | t in db.transactions && t.id == transactionId
        ensures r == Some(t)
      {
        var i :| 0 <= i < |db.transactions| && db.transactions[i] == t;
        KeyedUnique(db.transactions, TransactionId, db.nextTransactionId, i);
      }
    }

    /** `ref?.let { accountService.updateBalance(it, delta) }`: nothing happens for a null reference. */
    method UpdateBalanceOf(ref: Option<int>, delta: real)
      requires Wired() && db.Valid()
      modifies db
      ensures db.Valid()
      ensures db.accounts == CreditRef(old(db.accounts), ref, delta)
      ensures db.nextAccountId == old(db.nextAccountId) && db.opening == old(db.opening)
      ensures db.KeepsUsers() && db.KeepsCategories() && db.KeepsTransactions()
    {
      if ref.Some? {
        accountService.UpdateBalance(ref.value, delta);
      }
    }

    /** The `when (transaction.type)` block of `deleteTransaction`: takes back what `t` did to the balances. */
    method TakeBack(t: Transaction)
      requires Wired() && db.Valid()
      modifies db
      ensures db.Valid()
      ensures db.accounts == Revert(old(db.accounts), t)
      ensures db.nextAccountId == old(db.nextAccountId) && db.opening == old(db.opening)
      ensures db.KeepsUsers() && db.KeepsCategories() && db.KeepsTransactions()
    {
      RevertIsCredits(db.accounts, t);
      if t.kind == INCOME {
        UpdateBalanceOf(t.toAccountId, -t.amount);
      } else if t.kind == EXPENSE {
        UpdateBalanceOf(t.fromAccountId, t.amount);
      } else if t.kind == TRANSFER {
        UpdateBalanceOf(t.fromAccountId, t.amount);
        UpdateBalanceOf(t.toAccountId, -t.amount);
      }
    }

    /**
     * The `when (transaction.type)` block of `updateTransaction`: moves the
     * balances `t` references by `difference`, which trades `t`'s
     * contribution for that of its `revised` form.
     */
    method MoveByDifference(t: Transaction, difference: real, ghost revised: Transaction)
      requires Wired() && db.Valid()
      requires revised.kind == t.kind && revised.fromAccountId == t.fromAccountId && revised.toAccountId == t.toAccountId
      requires difference == revised.amount - t.amount
      modifies db
      ensures db.Valid()
      ensures db.accounts == Revise(old(db.accounts), t, revised)
      ensures db.nextAccountId == old(db.nextAccountId) && db.opening == old(db.opening)
      ensures db.KeepsUsers() && db.KeepsCategories() && db.KeepsTransactions()
    {
      ReviseIsDifference(db.accounts, t, revised);
      if t.kind == INCOME {
        UpdateBalanceOf(t.toAccountId, difference);
      } else if t.kind == EXPENSE {
        UpdateBalanceOf(t.fromAccountId, -difference);
      } else if t.kind == TRANSFER {
        UpdateBalanceOf(t.fromAccountId, -difference);
        UpdateBalanceOf(t.toAccountId, difference);
      }
    }

    /**
     * `deleteTransaction`: `false` when there is no such row; otherwise
     * takes back, by the stored type, what the row did to the balances it
     * references, and removes the row.
     */
    method DeleteTransaction(transactionId: int) returns (ok: bool)
      requires Wired() && db.Valid()
      modifies db
      ensures db.Valid()
      ensures ok <==> old(HasId(db.transactions, TransactionId, transactionId))
      ensures !ok ==> db.accounts == old(db.accounts) && db.transactions == old(db.transactions)
      ensures ok ==>
        var k := old(IndexOf(db.transactions, TransactionId, transactionId));
        && 0 <= k < |old(db.transactions)|
        && db.transactions == RemoveAt(old(db.transactions), k)
        && db.accounts == Revert(old(db.accounts), old(db.transactions)[k])
      ensures !HasId(db.transactions, TransactionId, transactionId)
      ensures db.nextTransactionId == old(db.nextTransactionId)
      ensures db.nextAccountId == old(db.nextAccountId) && db.opening == old(db.opening)
      ensures db.KeepsUsers() && db.KeepsCategories()
      ensures old(db.Consistent()) ==> db.Consistent()
    {
      ghost var accounts, transactions, consistent := db.accounts, db.transactions, db.Consistent();
      ghost var k := IndexOf(db.transactions, TransactionId, transactionId);
      var found := GetTransactionById(transactionId);
      if found.None? {
        return false;
      }
      var t := found.value;
      assert t == transactions[k] by {
        assert transactions[k] in db.transactions;
      }
      TakeBack(t);
      var at := IndexOf(db.transactions, TransactionId, transactionId);
      KeyedRemove(db.transactions, TransactionId, db.nextTransactionId, at);
      db.DeleteTransactionAt(at);
      if consistent {
        RevertConsistent(accounts, transactions, db.opening, k);
      }
      ok := true;
    }

    /** `UPDATE transactions SET amount = ?, description = ? WHERE id = ?` on a stored id. */
    method RewriteRow(transactionId: int, newAmount: real, newDescription: Option<string>)
      requires db.Valid() && HasId(db.transactions, TransactionId, transactionId)
      modifies db
      ensures db.Valid()
      ensures var k := old(IndexOf(db.transactions, TransactionId, transactionId));
        0 <= k < |old(db.transactions)| &&
        db.transactions == old(db.transactions)[k := old(db.transactions)[k].(amount := newAmount, description := newDescription)]
      ensures db.nextTransactionId == old(db.nextTransactionId)
      ensures db.KeepsUsers() && db.KeepsAccounts() && db.KeepsCategories()
    {
      var at := IndexOf(db.transactions, TransactionId, transactionId);
      var revised := db.transactions[at].(amount := newAmount, description := newDescription);
      KeyedReplace(db.transactions, TransactionId, db.nextTransactionId, at, revised);
      db.transactions := db.transactions[at := revised];
    }

    /**
     * `updateTransaction`: `false` when there is no such row; otherwise, if
     * the amount changes, moves the referenced balances by the signed
     * difference, and rewrites the row's amount and description.
     */
    method UpdateTransaction(transactionId: int, newAmount: real, newDescription: Option<string>) returns (ok: bool)
      requires Wired() && db.Valid()
      modifies db
      ensures db.Valid()
      ensures ok <==> old(HasId(db.transactions, TransactionId, transactionId))
      ensures !ok ==> db.accounts == old(db.accounts) && db.transactions == old(db.transactions)
      ensures ok ==>
        var k := old(IndexOf(db.transactions, TransactionId, transactionId));
        && 0 <= k < |old(db.transactions)|
        && var t := old(db.transactions)[k];
        && var revised := t.(amount := newAmount, description := newDescription);
        && db.transactions == old(db.transactions)[k := revised]
        && db.accounts == Revise(old(db.accounts), t, revised)
        && (t.amount == newAmount ==> db.accounts == old(db.accounts))
      ensures db.nextTransactionId == old(db.nextTransactionId)
      ensures db.nextAccountId == old(db.nextAccountId) && db.opening == old(db.opening)
      ensures db.KeepsUsers() && db.KeepsCategories()
      ensures old(db.Consistent()) ==> db.Consistent()
    {
      ghost var accounts, transactions, consistent := db.accounts, db.transactions, db.Consistent();
      ghost var k := IndexOf(db.transactions, TransactionId, transactionId);
      var found := GetTransactionById(transactionId);
      if found.None? {
        return false;
      }
      var t := found.value;
      assert t == transactions[k] by {
        assert transactions[k] in db.transactions;
      }
      var revised := t.(amount := newAmount, description := newDescription);
      if t.amount != newAmount {
        MoveByDifference(t, newAmount - t.amount, revised);
      } else {
        ReviseSameAmount(accounts, t, revised);
      }
      RewriteRow(transactionId, newAmount, newDescription);
      if consistent {
        ReviseConsistent(accounts, transactions, db.opening, k, revised);
      }
      ok := true;
    }

    /** `getTransactionsByDateRange`: the user's transactions dated BETWEEN the bounds as TEXT, latest first. */
    method GetTransactionsByDateRange(userId: int, startDate: string, endDate: string) returns (list: seq<Transaction>)
      ensures multiset(list) == multiset(Filter(db.transactions, InDateRange(userId, startDate, endDate)))
      ensures forall t :: t in list <==>
        t in db.transactions && t.userId == userId && LexLe(startDate, t.transactionDate) && LexLe(t.transactionDate, endDate)
      ensures SortedBy(list, LaterOrSame)
    {
      LaterOrSameOrder();
      list := SelectOrdered(db.transactions, InDateRange(userId, startDate, endDate), LaterOrSame);
      SameElements(list, Filter(db.transactions, InDateRange(userId, startDate, endDate)));
    }

    /** `getTransactionsByCategory`: the user's transactions of that category, latest first. */
    method GetTransactionsByCategory(userId: int, categoryId: int) returns (list: seq<Transaction>)
      ensures multiset(list) == multiset(Filter(db.transactions, InCategory(userId, categoryId)))
      ensures forall t :: t in list <==> t in db.transactions && t.userId == userId && t.categoryId == Some(categoryId)
      ensures SortedBy(list, LaterOrSame)
    {
      LaterOrSameOrder();
      list := SelectOrdered(db.transactions, InCategory(userId, categoryId), LaterOrSame);
      SameElements(list, Filter(db.transactions, InCategory(userId, categoryId)));
    }

    /**
     * `getMonthlySummary`: `None` where `LocalDate.of(year, month, 1)` throws;
     * otherwise the totals of each type over the month's date range, and
     * income minus expense as the balance.
     */
    method GetMonthlySummary(userId: int, month: int, year: int) returns (summary: Option<map<string, real>>)
      ensures summary.Some? <==> Of(year, month, 1).Some?
      ensures summary.Some? ==>
        && 1 <= month <= 12
        && summary.value.Keys == {INCOME, EXPENSE, TRANSFER, "balance"}
        && summary.value[INCOME] == MonthTotal(db.transactions, userId, year, month, INCOME)
        && summary.value[EXPENSE] == MonthTotal(db.transactions, userId, year, month, EXPENSE)
        && summary.value[TRANSFER] == MonthTotal(db.transactions, userId, year, month, TRANSFER)
        && summary.value["balance"] == summary.value[INCOME] - summary.value[EXPENSE]
    {
      var first := Of(year, month, 1);
      if first.None? {
        return None;
      }
      var income, expense, transfer := MonthSums(userId, year, month);
      assert INCOME != EXPENSE && INCOME != TRANSFER && EXPENSE != TRANSFER;
      assert INCOME != "balance" && EXPENSE != "balance" && TRANSFER != "balance";
      summary := Some(map[INCOME := income, EXPENSE := expense, TRANSFER := transfer, "balance" := income - expense]);
    }

    /** The three sums `getMonthlySummary` takes over the rows of the month's date range. */
    method MonthSums(userId: int, year: int, month: int) returns (income: real, expense: real, transfer: real)
      requires 1 <= month <= 12
      ensures income == MonthTotal(db.transactions, userId, year, month, INCOME)
      ensures expense == MonthTotal(db.transactions, userId, year, month, EXPENSE)
      ensures transfer == MonthTotal(db.transactions, userId, year, month, TRANSFER)
    {
      var list := GetTransactionsByDateRange(userId, MonthStart(year, month), MonthEnd(year, month));
      income := SumOf(Filter(list, IsKind(INCOME)), Amount);
      expense := SumOf(Filter(list, IsKind(EXPENSE)), Amount);
      transfer := SumOf(Filter(list, IsKind(TRANSFER)), Amount);
      MonthSummed(list, db.transactions, userId, year, month, INCOME);
      MonthSummed(list, db.transactions, userId, year, month, EXPENSE);
      MonthSummed(list, db.transactions, userId, year, month, TRANSFER);
    }
  }

  /** Any ordering of the month's rows sums each type to the month's total. */
  lemma MonthSummed(list: seq<Transaction>, transactions: seq<Transaction>, userId: int, year: int, month: int, kind: string)
    requires 1 <= month <= 12
    requires multiset(list) == multiset(Filter(transactions, InDateRange(userId, MonthStart(year, month), MonthEnd(year, month))))
    ensures SumOf(Filter(list, IsKind(kind)), Amount) == MonthTotal(transactions, userId, year, month, kind)
  {
    var selected := Filter(transactions, InDateRange(userId, MonthStart(year, month), MonthEnd(year, month)));
    FilterPermutation(list, selected, IsKind(kind));
    SumPermutation(Filter(list, IsKind(kind)), Filter(selected, IsKind(kind)), Amount);
  }
}
