/**
 * `ui.dialogs.TransactionDialog`: the OK button's enabling rule and the
 * result converter that turns the filled-in form into one of the three
 * service calls. The widgets themselves are not modelled; the form's
 * selections are fields, and `onSuccess` is counted.
 */
module Dialog {
  import opened Wrappers
  import opened Model
  import opened Seqs
  import opened Sorting
  import opened Text
  import opened Db
  import opened Ledger
  import opened Accounts
  import opened Categories
  import opened Transactions
  import opened AmountField

  /** The entries of the type box. */
  const INCOME_CHOICE: string := "Доход"
  const EXPENSE_CHOICE: string := "Расход"
  const TRANSFER_CHOICE: string := "Перевод"

  /** The first entry of the category box, meaning "no category". */
  const NO_CATEGORY_CHOICE: string := "Без категории"

  /** A service call the converter makes. */
  datatype Request =
    | IncomeRequest(toAccountId: int, categoryId: int, amount: real, description: Option<string>)
    | ExpenseRequest(fromAccountId: int, categoryId: int, amount: real, description: Option<string>)
    | TransferRequest(fromAccountId: int, toAccountId: int, amount: real, description: Option<string>)

  /**
   * What pressing OK does: make a call and then run `onSuccess`; run
   * `onSuccess` without a call (a type the `when` does not list); or fail on
   * an account index out of range, caught before any call, showing an alert.
   */
  datatype Action = Call(request: Request) | NoCall | Aborted

  /** The position of the first category of that name and type, or -1. */
  function FirstMatch(categories: seq<Category>, name: string, kind: string): (k: int)
    ensures -1 <= k < |categories|
    ensures k == -1 <==> forall i :: 0 <= i < |categories| ==> !(categories[i].name == name && categories[i].kind == kind)
    ensures k >= 0 ==> categories[k].name == name && categories[k].kind == kind
    ensures k >= 0 ==> forall j :: 0 <= j < k ==> !(categories[j].name == name && categories[j].kind == kind)
  {
    if categories == [] then -1
    else if categories[0].name == name && categories[0].kind == kind then 0
    else
      var k := FirstMatch(categories[1..], name, kind);
      if k < 0 then -1 else k + 1
  }

  /** `allCategories.find { it.name == name && it.type == kind }`: the first match. */
  function FindCategory(categories: seq<Category>, name: string, kind: string): (r: Option<Category>)
    ensures r.None? <==> forall i :: 0 <= i < |categories| ==> !(categories[i].name == name && categories[i].kind == kind)
    ensures r.Some? ==> exists i :: 0 <= i < |categories| && categories[i] == r.value
                          && r.value.name == name && r.value.kind == kind
                          && forall j :: 0 <= j < i ==> !(categories[j].name == name && categories[j].kind == kind)
  {
    var k := FirstMatch(categories, name, kind);
    if k < 0 then None else Some(categories[k])
  }

  /** The category id passed on: the first matching category's, or 0 for "no category" or no match. */
  function CategoryIdFor(categories: seq<Category>, choice: string, kind: string): int
  {
    if choice == NO_CATEGORY_CHOICE then 0
    else match FindCategory(categories, choice, kind)
      case Some(c) => c.id
      case None => 0
  }

  /** `descriptionField.text.ifBlank { null }`. */
  function DescriptionOf(text: string): (r: Option<string>)
    ensures r.None? <==> IsBlank(text)
    ensures r.Some? ==> r.value == text
  {
    if IsBlank(text) then None else Some(text)
  }

  /** The `when` of the result converter on the form's selections. */
  function Convert(kind: string, fromIndex: int, toIndex: int, categoryChoice: string, descriptionText: string,
                   accounts: seq<Account>, categories: seq<Category>, amount: real): Action
  {
    var description := DescriptionOf(descriptionText);
    if kind == INCOME_CHOICE then
      if 0 <= toIndex < |accounts|
      then Call(IncomeRequest(accounts[toIndex].id, CategoryIdFor(categories, categoryChoice, INCOME), amount, description))
      else Aborted
    else if kind == EXPENSE_CHOICE then
      if 0 <= fromIndex < |accounts|
      then Call(ExpenseRequest(accounts[fromIndex].id, CategoryIdFor(categories, categoryChoice, EXPENSE), amount, description))
      else Aborted
    else if kind == TRANSFER_CHOICE then
      if 0 <= fromIndex < |accounts| && 0 <= toIndex < |accounts|
      then Call(TransferRequest(accounts[fromIndex].id, accounts[toIndex].id, amount, description))
      else Aborted
    else NoCall
  }

  /** The row the service stores for a request. */
  function RowOf(request: Request, id: int, userId: int, now: string): (t: Transaction)
    ensures t.id == id && t.userId == userId && t.amount == request.amount
    ensures t.description == request.description && t.transactionDate == now
  {
    match request
    case IncomeRequest(to, c, amount, d) => Transaction(id, userId, INCOME, amount, d, Some(c), None, Some(to), now)
    case ExpenseRequest(from, c, amount, d) => Transaction(id, userId, EXPENSE, amount, d, Some(c), Some(from), None, now)
    case TransferRequest(from, to, amount, d) => Transaction(id, userId, TRANSFER, amount, d, None, Some(from), Some(to), now)
  }

  /** The dialog's income: to the chosen account, under the first income category of that name, or 0. */
  lemma IncomeChoice(fromIndex: int, toIndex: int, choice: string, text: string, accounts: seq<Account>, categories: seq<Category>, amount: real)
    requires 0 <= toIndex < |accounts|
    ensures var action := Convert(INCOME_CHOICE, fromIndex, toIndex, choice, text, accounts, categories, amount);
      && action.Call? && action.request.IncomeRequest?
      && action.request.toAccountId == accounts[toIndex].id
      && (action.request.categoryId == 0 ||
          exists c :: c in categories && c.id == action.request.categoryId && c.name == choice && c.kind == INCOME)
      && (choice == NO_CATEGORY_CHOICE ==> action.request.categoryId == 0)
      && (choice != NO_CATEGORY_CHOICE && (forall c :: c in categories ==> !(c.name == choice && c.kind == INCOME)) ==>
            action.request.categoryId == 0)
  {
    if choice != NO_CATEGORY_CHOICE {
      var r := FindCategory(categories, choice, INCOME);
      if r.Some? {
        var i :| 0 <= i < |categories| && categories[i] == r.value && r.value.name == choice && r.value.kind == INCOME
                 && forall j :: 0 <= j < i ==> !(categories[j].name == choice && categories[j].kind == INCOME);
        assert categories[i] in categories;
      }
    }
  }

  /** The dialog's expense: from the chosen account, under the first expense category of that name, or 0. */
  lemma ExpenseChoice(fromIndex: int, toIndex: int, choice: string, text: string, accounts: seq<Account>, categories: seq<Category>, amount: real)
    requires 0 <= fromIndex < |accounts|
    ensures var action := Convert(EXPENSE_CHOICE, fromIndex, toIndex, choice, text, accounts, categories, amount);
      && action.Call? && action.request.ExpenseRequest?
      && action.request.fromAccountId == accounts[fromIndex].id
      && (action.request.categoryId == 0 ||
          exists c :: c in categories && c.id == action.request.categoryId && c.name == choice && c.kind == EXPENSE)
      && (choice == NO_CATEGORY_CHOICE ==> action.request.categoryId == 0)
      && (choice != NO_CATEGORY_CHOICE && (forall c :: c in categories ==> !(c.name == choice && c.kind == EXPENSE)) ==>
            action.request.categoryId == 0)
  {
    if choice != NO_CATEGORY_CHOICE {
      var r := FindCategory(categories, choice, EXPENSE);
      if r.Some? {
        var i :| 0 <= i < |categories| && categories[i] == r.value && r.value.name == choice && r.value.kind == EXPENSE
                 && forall j :: 0 <= j < i ==> !(categories[j].name == choice && categories[j].kind == EXPENSE);
        assert categories[i] in categories;
      }
    }
  }

  /**
   * Both account boxes start on the first account, so a transfer confirmed
   * without touching them moves money from that account to itself.
   */
  lemma DefaultTransferIsSelf(choice: string, text: string, accounts: seq<Account>, categories: seq<Category>, amount: real)
    requires |accounts| > 0
    ensures var action := Convert(TRANSFER_CHOICE, 0, 0, choice, text, accounts, categories, amount);
      && action == Call(TransferRequest(accounts[0].id, accounts[0].id, amount, DescriptionOf(text)))
      && Apply(accounts, RowOf(action.request, 0, 0, "")) == accounts
  {
    var t := RowOf(TransferRequest(accounts[0].id, accounts[0].id, amount, DescriptionOf(text)), 0, 0, "");
    TransferIsApply(accounts, t);
    SelfTransferNoNet(accounts, accounts[0].id, amount);
  }

  /** With no account to choose, every type fails before calling a service. */
  lemma NoAccountsNoCall(kind: string, fromIndex: int, toIndex: int, choice: string, text: string, categories: seq<Category>, amount: real)
    requires kind in {INCOME_CHOICE, EXPENSE_CHOICE, TRANSFER_CHOICE}
    ensures Convert(kind, fromIndex, toIndex, choice, text, [], categories, amount) == Aborted
  {
  }

  class TransactionDialog {
    const userId: int
    const accountService: AccountService
    const categoryService: CategoryService
    const transactionService: TransactionService
    const amountField: AmountTextField

    /** `getAccounts(userId)` and `getAllCategories(userId)`, read once when the dialog opens. */
    const accounts: seq<Account>
    const allCategories: seq<Category>

    /** The form's selections. */
    var kind: string
    var fromIndex: int
    var toIndex: int
    var categoryChoice: string
    var descriptionText: string

    var okDisabled: bool
    /** How many times `onSuccess` has run. */
    var successes: nat

    /** All services and the form's snapshot read the same database. */
    predicate Wired()
    {
      && transactionService.db == accountService.db
      && categoryService.db == accountService.db
      && transactionService.accountService == accountService
    }

    constructor (userId: int, accountService: AccountService, categoryService: CategoryService,
                 transactionService: TransactionService)
      ensures this.userId == userId && this.accountService == accountService
      ensures this.categoryService == categoryService && this.transactionService == transactionService
      ensures fresh(amountField) && amountField.Valid() && amountField.text == "0"
      ensures multiset(accounts) == multiset(Filter(accountService.db.accounts, Accounts.OwnedBy(userId)))
      ensures SortedBy(accounts, Accounts.NameLe)
      ensures multiset(allCategories) == multiset(Filter(categoryService.db.categories, Categories.OwnedBy(userId)))
      ensures SortedBy(allCategories, KindNameLe)
      ensures kind == INCOME_CHOICE && categoryChoice == NO_CATEGORY_CHOICE && descriptionText == ""
      ensures fromIndex == (if accounts == [] then -1 else 0) && toIndex == fromIndex
      ensures okDisabled
      ensures successes == 0
    {
      this.userId := userId;
      this.accountService := accountService;
      this.categoryService := categoryService;
      this.transactionService := transactionService;
      var accounts := accountService.GetAccounts(userId);
      var allCategories := categoryService.GetAllCategories(userId);
      this.accounts := accounts;
      this.allCategories := allCategories;
      var field := new AmountTextField();
      field.SetAmountZero();
      this.amountField := field;
      kind := INCOME_CHOICE;
      fromIndex := if accounts == [] then -1 else 0;
      toIndex := if accounts == [] then -1 else 0;
      categoryChoice := NO_CATEGORY_CHOICE;
      descriptionText := "";
      successes := 0;
      // The closing `validate()` call.
      var amount := field.GetAmount();
      okDisabled := !(amount > 0.0) || accounts == [];
    }

    /** `validate()`: OK is disabled unless the amount is positive and there is an account. */
    method Validate()
      modifies this
      ensures okDisabled <==> !(amountField.GetAmount() > 0.0) || accounts == []
      ensures kind == old(kind) && fromIndex == old(fromIndex) && toIndex == old(toIndex)
      ensures categoryChoice == old(categoryChoice) && descriptionText == old(descriptionText)
      ensures successes == old(successes)
    {
      var amount := amountField.GetAmount();
      okDisabled := !(amount > 0.0) || accounts == [];
    }

    /** What OK does with the form as it stands. */
    function Pending(): Action
      reads this, amountField
    {
      Convert(kind, fromIndex, toIndex, categoryChoice, descriptionText, accounts, allCategories, amountField.GetAmount())
    }

    /** The service call for one request, stamped `now`. */
    method Submit(request: Request, now: string)
      requires Wired() && accountService.db.Valid()
      modifies accountService.db
      ensures accountService.db.Valid()
      ensures accountService.db.transactions == old(accountService.db.transactions) +
        [RowOf(request, old(accountService.db.nextTransactionId), userId, now)]
      ensures accountService.db.accounts ==
        Apply(old(accountService.db.accounts), RowOf(request, old(accountService.db.nextTransactionId), userId, now))
      ensures accountService.db.KeepsUsers() && accountService.db.KeepsCategories()
      ensures old(accountService.db.Consistent()) ==> accountService.db.Consistent()
    {
      ghost var before, t := accountService.db.accounts, RowOf(request, accountService.db.nextTransactionId, userId, now);
      match request
      case IncomeRequest(to, c, amount, d) =>
        transactionService.AddIncome(userId, to, c, amount, now, d);
        IncomeIsApply(before, t);
      case ExpenseRequest(from, c, amount, d) =>
        transactionService.AddExpense(userId, from, c, amount, now, d);
        ExpenseIsApply(before, t);
      case TransferRequest(from, to, amount, d) =>
        transactionService.AddTransfer(userId, from, to, amount, now, d);
        TransferIsApply(before, t);
    }

    /**
     * The result converter on OK: makes the call `Pending()` names, stamped
     * `now`, then runs `onSuccess`; on an unlisted type it only runs
     * `onSuccess`; on an account index out of range it changes nothing.
     */
    method ConfirmOk(now: string)
      requires Wired() && accountService.db.Valid()
      modifies this, accountService.db
      ensures accountService.db.Valid()
      ensures old(Pending()).Call? ==>
        && accountService.db.transactions == old(accountService.db.transactions) +
             [RowOf(old(Pending()).request, old(accountService.db.nextTransactionId), userId, now)]
        && accountService.db.accounts ==
             Apply(old(accountService.db.accounts), RowOf(old(Pending()).request, old(accountService.db.nextTransactionId), userId, now))
      ensures !old(Pending()).Call? ==>
        accountService.db.transactions == old(accountService.db.transactions) && accountService.db.accounts == old(accountService.db.accounts)
      ensures successes == old(successes) + (if old(Pending()).Aborted? then 0 else 1)
      ensures accountService.db.KeepsUsers() && accountService.db.KeepsCategories()
      ensures old(accountService.db.Consistent()) ==> accountService.db.Consistent()
      ensures kind == old(kind) && fromIndex == old(fromIndex) && toIndex == old(toIndex)
      ensures categoryChoice == old(categoryChoice) && descriptionText == old(descriptionText) && okDisabled == old(okDisabled)
    {
      var action := Pending();
      match action
      case Call(request) =>
        Submit(request, now);
        successes := successes + 1;
      case NoCall =>
        successes := successes + 1;
      case Aborted =>
    }
  }
}
