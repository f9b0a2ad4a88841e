/**
 * `ui.DashboardView`: the figures on the dashboard's widgets, read from the
 * services. Rendering is not modelled; the current date is a parameter.
 */
module Dashboard {
  import opened Wrappers
  import opened Model
  import opened Seqs
  import opened Sorting
  import opened Text
  import opened Dates
  import opened Db
  import opened Accounts
  import opened Categories
  import opened Transactions

  /** The month filter the income and expense widgets apply to `getTransactions`. */
  function MonthOfKind(kind: string, startDate: string, endDate: string): Transaction -> bool
  {
    (t: Transaction) => t.kind == kind && LexLe(startDate, t.transactionDate) && LexLe(t.transactionDate, endDate)
  }

  /**
   * Filtering the user's rows by type and month, in whatever order they come,
   * selects the month's rows of that type, and so sums to the monthly
   * summary's figure for it.
   */
  lemma UserMonthRows(list: seq<Transaction>, transactions: seq<Transaction>, userId: int, year: int, month: int, kind: string)
    requires 1 <= month <= 12
    requires multiset(list) == multiset(Filter(transactions, OfUser(userId)))
    ensures multiset(Filter(list, MonthOfKind(kind, MonthStart(year, month), MonthEnd(year, month))))
            == multiset(MonthRows(transactions, userId, year, month, kind))
    ensures SumOf(Filter(list, MonthOfKind(kind, MonthStart(year, month), MonthEnd(year, month))), Amount)
            == MonthTotal(transactions, userId, year, month, kind)
  {
    var startDate, endDate := MonthStart(year, month), MonthEnd(year, month);
    var p := MonthOfKind(kind, startDate, endDate);
    var both := (t: Transaction) => t.userId == userId && t.kind == kind && LexLe(startDate, t.transactionDate) && LexLe(t.transactionDate, endDate);
    FilterPermutation(list, Filter(transactions, OfUser(userId)), p);
    FilterFilter(transactions, OfUser(userId), p, both);
    FilterFilter(transactions, InDateRange(userId, startDate, endDate), IsKind(kind), both);
    SumPermutation(Filter(list, p), Filter(transactions, both), Amount);
  }

  class DashboardView {
    const userId: int
    const accountService: AccountService
    const categoryService: CategoryService
    const transactionService: TransactionService

    constructor (userId: int, accountService: AccountService, categoryService: CategoryService, transactionService: TransactionService)
      ensures this.userId == userId && this.accountService == accountService
      ensures this.categoryService == categoryService && this.transactionService == transactionService
    {
      this.userId := userId;
      this.accountService := accountService;
      this.categoryService := categoryService;
      this.transactionService := transactionService;
    }

    /** All services read the same database. */
    predicate Wired()
    {
      && categoryService.db == accountService.db
      && transactionService.db == accountService.db
    }

    /** `calculateTotalBalance`: the balances of the user's accounts, summed. */
    method CalculateTotalBalance() returns (total: real)
      ensures total == SumOf(Filter(accountService.db.accounts, Accounts.OwnedBy(userId)), Balance)
    {
      var accounts := accountService.GetAccounts(userId);
      total := SumOf(accounts, Balance);
      SumPermutation(accounts, Filter(accountService.db.accounts, Accounts.OwnedBy(userId)), Balance);
    }

    /** One type's total over `today`'s month, from the first to the last day's date text. */
    method MonthlyTotal(kind: string, today: Date) returns (total: real)
      requires Wired() && ValidDate(today)
      ensures total == MonthTotal(accountService.db.transactions, userId, today.year, today.month, kind)
    {
      var startDate := ToText(WithDayOfMonth(today, 1));
      var endDate := ToText(WithDayOfMonth(today, LengthOfMonth(today.year, today.month)));
      var list := transactionService.GetTransactions(userId);
      total := SumOf(Filter(list, MonthOfKind(kind, startDate, endDate)), Amount);
      UserMonthRows(list, transactionService.db.transactions, userId, today.year, today.month, kind);
    }

    /** `calculateMonthlyIncome`. */
    method CalculateMonthlyIncome(today: Date) returns (total: real)
      requires Wired() && ValidDate(today)
      ensures total == MonthTotal(accountService.db.transactions, userId, today.year, today.month, INCOME)
    {
      total := MonthlyTotal(INCOME, today);
    }

    /** `calculateMonthlyExpense`. */
    method CalculateMonthlyExpense(today: Date) returns (total: real)
      requires Wired() && ValidDate(today)
      ensures total == MonthTotal(accountService.db.transactions, userId, today.year, today.month, EXPENSE)
    {
      total := MonthlyTotal(EXPENSE, today);
    }

    /** `getAccountsCount`: how many accounts the user has. */
    method GetAccountsCount() returns (count: nat)
      ensures count == |Filter(accountService.db.accounts, Accounts.OwnedBy(userId))|
    {
      var accounts := accountService.GetAccounts(userId);
      count := |accounts|;
      assert |multiset(accounts)| == |multiset(Filter(accountService.db.accounts, Accounts.OwnedBy(userId)))|;
    }

    /** `getLastTransaction`: the first row of `getTransactions`, a latest-dated one, if the user has any. */
    method GetLastTransaction() returns (last: Option<Transaction>)
      ensures last.None? <==> forall t :: t in transactionService.db.transactions ==> t.userId != userId
      ensures last.Some? ==>
        && last.value in transactionService.db.transactions
        && last.value.userId == userId
        && forall t :: t in transactionService.db.transactions && t.userId == userId ==>
             LexLe(t.transactionDate, last.value.transactionDate)
    {
      var list := transactionService.GetTransactions(userId);
      if list == [] {
        last := None;
      } else {
        last := Some(list[0]);
        forall t | t in transactionService.db.transactions && t.userId == userId
          ensures LexLe(t.transactionDate, list[0].transactionDate)
        {
          assert t in list;
          var j :| 0 <= j < |list| && list[j] == t;
          if j > 0 {
            assert LaterOrSame(list[0], list[j]);
          } else {
            LexLeReflexive(t.transactionDate);
          }
        }
      }
    }
  }
}
