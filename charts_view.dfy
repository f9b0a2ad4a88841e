/**
 * `ui.ChartsView`: the per-category totals behind the income and expense pie
 * charts for the current month. The charts themselves are not modelled; the
 * current date is a parameter.
 */
module Charts {
  import opened Wrappers
  import opened Model
  import opened Seqs
  import opened Tables
  import opened Dates
  import opened Db
  import opened Categories
  import opened Transactions
  import opened Dashboard

  /** The label of rows without a category, or whose category is gone. */
  const UNCATEGORIZED: string := "Без категории"

  /** One entry of the insertion-ordered `mutableMapOf<String, Double>`. */
  datatype Slice = Slice(name: string, amount: real)

  function SliceAmount(s: Slice): real
  {
    s.amount
  }

  /** The position of the entry for `name`, or -1. */
  function SliceIndex(slices: seq<Slice>, name: string): (k: int)
    ensures -1 <= k < |slices|
    ensures k == -1 <==> forall i :: 0 <= i < |slices| ==> slices[i].name != name
    ensures k >= 0 ==> slices[k].name == name && forall i :: 0 <= i < k ==> slices[i].name != name
  {
    if slices == [] then -1
    else if slices[0].name == name then 0
    else
      var k := SliceIndex(slices[1..], name);
      if k < 0 then -1 else k + 1
  }

  predicate HasSlice(slices: seq<Slice>, name: string)
  {
    exists i :: 0 <= i < |slices| && slices[i].name == name
  }

  /** No name has two entries, as in a map. */
  predicate DistinctNames(slices: seq<Slice>)
  {
    forall i, j :: 0 <= i < j < |slices| ==> slices[i].name != slices[j].name
  }

  /** `getOrDefault(name, 0.0)`. */
  function Lookup(slices: seq<Slice>, name: string): real
  {
    var k := SliceIndex(slices, name);
    if k < 0 then 0.0 else slices[k].amount
  }

  /** `map[name] = map.getOrDefault(name, 0.0) + amount`: a new key goes last, an existing one keeps its place. */
  function Accumulate(slices: seq<Slice>, name: string, amount: real): seq<Slice>
  {
    var k := SliceIndex(slices, name);
    if k < 0 then slices + [Slice(name, amount)]
    else slices[k := Slice(name, slices[k].amount + amount)]
  }

  lemma AccumulateLookup(slices: seq<Slice>, name: string, amount: real, other: string)
    ensures Lookup(Accumulate(slices, name, amount), other) == Lookup(slices, other) + (if other == name then amount else 0.0)
  {
    var k := SliceIndex(slices, name);
    var after := Accumulate(slices, name, amount);
    if other == name {
      if k < 0 {
        assert SliceIndex(after, name) == |slices| by {
          assert after[|slices|].name == name;
        }
      } else {
        assert after[k].name == name;
        assert SliceIndex(after, name) == k;
      }
    } else {
      var j := SliceIndex(slices, other);
      if j >= 0 {
        assert after[j] == slices[j];
        assert SliceIndex(after, other) == j;
      } else {
        assert SliceIndex(after, other) == -1;
      }
    }
  }

  lemma AccumulateKeys(slices: seq<Slice>, name: string, amount: real)
    ensures forall n :: HasSlice(Accumulate(slices, name, amount), n) <==> HasSlice(slices, n) || n == name
    ensures DistinctNames(slices) ==> DistinctNames(Accumulate(slices, name, amount))
  {
    var k := SliceIndex(slices, name);
    var after := Accumulate(slices, name, amount);
    assert forall i :: 0 <= i < |slices| ==> after[i].name == slices[i].name;
    if k < 0 {
      assert after[|slices|].name == name;
    } else {
      assert after[k].name == name;
    }
  }

  lemma AccumulateTotal(slices: seq<Slice>, name: string, amount: real)
    ensures SumOf(Accumulate(slices, name, amount), SliceAmount) == SumOf(slices, SliceAmount) + amount
  {
    var k := SliceIndex(slices, name);
    if k < 0 {
      var after := slices + [Slice(name, amount)];
      assert Accumulate(slices, name, amount) == after;
      assert after[..|slices|] == slices;
      assert SumOf(after, SliceAmount) == SumOf(slices, SliceAmount) + SliceAmount(after[|slices|]);
    } else {
      var x := Slice(name, slices[k].amount + amount);
      assert Accumulate(slices, name, amount) == slices[k := x];
      SumReplace(slices, k, x, SliceAmount);
    }
  }

  /** The chart label of a row: its category's name, or the uncategorized label. */
  function Label(categories: seq<Category>, t: Transaction): string
  {
    if t.categoryId.None? then UNCATEGORIZED
    else match Find(categories, CategoryId, t.categoryId.value)
      case Some(c) => c.name
      case None => UNCATEGORIZED
  }

  function Labelled(categories: seq<Category>, name: string): Transaction -> bool
  {
    (t: Transaction) => Label(categories, t) == name
  }

  /** Some row carries the label `name`. */
  predicate LabelOccurs(transactions: seq<Transaction>, categories: seq<Category>, name: string)
  {
    exists i :: 0 <= i < |transactions| && Label(categories, transactions[i]) == name
  }

  /** The `forEach` over the rows, in their order. */
  function Group(transactions: seq<Transaction>, categories: seq<Category>): seq<Slice>
  {
    if transactions == [] then []
    else
      var last := transactions[|transactions| - 1];
      Accumulate(Group(transactions[..|transactions| - 1], categories), Label(categories, last), last.amount)
  }

  /** Each label's entry holds the amounts of the rows with that label, summed. */
  lemma {:induction false} GroupLookup(transactions: seq<Transaction>, categories: seq<Category>, name: string)
    ensures Lookup(Group(transactions, categories), name) == SumOf(Filter(transactions, Labelled(categories, name)), Amount)
  {
    if transactions != [] {
      var init, last := transactions[..|transactions| - 1], transactions[|transactions| - 1];
      GroupLookup(init, categories, name);
      var lastLabel := Label(categories, last);
      assert Group(transactions, categories) == Accumulate(Group(init, categories), lastLabel, last.amount);
      AccumulateLookup(Group(init, categories), lastLabel, last.amount, name);
      var p := Labelled(categories, name);
      var kept := Filter(init, p);
      if lastLabel == name {
        assert Filter(transactions, p) == kept + [last];
        assert (kept + [last])[..|kept|] == kept;
        assert SumOf(kept + [last], Amount) == SumOf(kept, Amount) + last.amount;
      } else {
        assert Filter(transactions, p) == kept;
      }
    }
  }

  /** There is one entry per label that occurs, and none other. */
  lemma {:induction false} GroupKeys(transactions: seq<Transaction>, categories: seq<Category>)
    ensures DistinctNames(Group(transactions, categories))
    ensures forall n :: HasSlice(Group(transactions, categories), n) <==> LabelOccurs(transactions, categories, n)
  {
    if transactions != [] {
      var init, last := transactions[..|transactions| - 1], transactions[|transactions| - 1];
      GroupKeys(init, categories);
      AccumulateKeys(Group(init, categories), Label(categories, last), last.amount);
      var name := Label(categories, last);
      assert Group(transactions, categories) == Accumulate(Group(init, categories), name, last.amount);
      forall n
        ensures LabelOccurs(transactions, categories, n) <==> LabelOccurs(init, categories, n) || n == name
      {
        LabelOccursSnoc(transactions, categories, n);
      }
    }
  }

  /** A label occurs in rows with one more at the end when it occurs before or is the last row's. */
  lemma LabelOccursSnoc(transactions: seq<Transaction>, categories: seq<Category>, n: string)
    requires transactions != []
    ensures var init, last := transactions[..|transactions| - 1], transactions[|transactions| - 1];
      LabelOccurs(transactions, categories, n) <==> LabelOccurs(init, categories, n) || n == Label(categories, last)
  {
    var init := transactions[..|transactions| - 1];
    assert forall i :: 0 <= i < |init| ==> init[i] == transactions[i];
    if i :| 0 <= i < |transactions| && Label(categories, transactions[i]) == n {
      if i < |init| {
        assert Label(categories, init[i]) == n;
      }
    }
  }

  /** The chart's entries add up to the rows' total. */
  lemma {:induction false} GroupTotal(transactions: seq<Transaction>, categories: seq<Category>)
    ensures SumOf(Group(transactions, categories), SliceAmount) == SumOf(transactions, Amount)
  {
    if transactions != [] {
      var init, last := transactions[..|transactions| - 1], transactions[|transactions| - 1];
      GroupTotal(init, categories);
      var name := Label(categories, last);
      assert Group(transactions, categories) == Accumulate(Group(init, categories), name, last.amount);
      AccumulateTotal(Group(init, categories), name, last.amount);
      assert SumOf(transactions, Amount) == SumOf(init, Amount) + last.amount;
    }
  }

  /**
   * `slices` is the chart of `rows`: one entry per label that occurs among
   * them, each holding the amounts of the rows with that label, summed.
   */
  ghost predicate ChartOf(slices: seq<Slice>, rows: seq<Transaction>, categories: seq<Category>)
  {
    && DistinctNames(slices)
    && (forall n :: HasSlice(slices, n) <==> LabelOccurs(rows, categories, n))
    && (forall n :: Lookup(slices, n) == SumOf(Filter(rows, Labelled(categories, n)), Amount))
  }

  /** Grouping rows in any order yields the chart of them, with their total. */
  lemma GroupIsChart(ordered: seq<Transaction>, rows: seq<Transaction>, categories: seq<Category>)
    requires multiset(ordered) == multiset(rows)
    ensures ChartOf(Group(ordered, categories), rows, categories)
    ensures SumOf(Group(ordered, categories), SliceAmount) == SumOf(rows, Amount)
  {
    var slices := Group(ordered, categories);
    GroupKeys(ordered, categories);
    GroupTotal(ordered, categories);
    SameElements(ordered, rows);
    forall n
      ensures LabelOccurs(ordered, categories, n) <==> LabelOccurs(rows, categories, n)
    {
      if LabelOccurs(ordered, categories, n) {
        var j :| 0 <= j < |ordered| && Label(categories, ordered[j]) == n;
        assert ordered[j] in rows;
        var k :| 0 <= k < |rows| && rows[k] == ordered[j];
      }
      if LabelOccurs(rows, categories, n) {
        var j :| 0 <= j < |rows| && Label(categories, rows[j]) == n;
        assert rows[j] in ordered;
        var k :| 0 <= k < |ordered| && ordered[k] == rows[j];
      }
    }
    forall n
      ensures Lookup(slices, n) == SumOf(Filter(rows, Labelled(categories, n)), Amount)
    {
      GroupLookup(ordered, categories, n);
      FilterPermutation(ordered, rows, Labelled(categories, n));
      SumPermutation(Filter(ordered, Labelled(categories, n)), Filter(rows, Labelled(categories, n)), Amount);
    }
    SumPermutation(ordered, rows, Amount);
  }

  class ChartsView {
    const userId: int
    const categoryService: CategoryService
    const transactionService: TransactionService

    constructor (userId: int, categoryService: CategoryService, transactionService: TransactionService)
      ensures this.userId == userId && this.categoryService == categoryService && this.transactionService == transactionService
    {
      this.userId := userId;
      this.categoryService := categoryService;
      this.transactionService := transactionService;
    }

    predicate Wired()
    {
      categoryService.db == transactionService.db
    }

    /** A row's name in the chart: its category's, looked up through the service, or the uncategorized label. */
    method LabelOf(t: Transaction) returns (name: string)
      requires categoryService.db.Valid()
      ensures name == Label(categoryService.db.categories, t)
    {
      name := UNCATEGORIZED;
      if t.categoryId.Some? {
        var category := categoryService.GetCategoryById(t.categoryId.value);
        if category.Some? {
          name := category.value.name;
        }
      }
    }

    /** The `forEach` filling the map. */
    method Tally(rows: seq<Transaction>) returns (slices: seq<Slice>)
      requires categoryService.db.Valid()
      ensures slices == Group(rows, categoryService.db.categories)
    {
      slices := [];
      var i := 0;
      while i < |rows|
        invariant 0 <= i <= |rows|
        invariant slices == Group(rows[..i], categoryService.db.categories)
      {
        var name := LabelOf(rows[i]);
        ghost var done := rows[..i + 1];
        assert done[..i] == rows[..i] && done[i] == rows[i];
        assert Group(done, categoryService.db.categories) == Accumulate(slices, name, rows[i].amount);
        slices := Accumulate(slices, name, rows[i].amount);
        i := i + 1;
      }
      assert rows[..|rows|] == rows;
    }

    /**
     * The data of `createIncomePieChart` (kind "income") and
     * `createExpensePieChart` (kind "expense"): the chart of the month's rows
     * of that type, whose entries add up to the month's total.
     */
    method CategoryTotals(kind: string, today: Date) returns (slices: seq<Slice>)
      requires Wired() && categoryService.db.Valid() && ValidDate(today)
      ensures ChartOf(slices, MonthRows(categoryService.db.transactions, userId, today.year, today.month, kind), categoryService.db.categories)
      ensures SumOf(slices, SliceAmount) == MonthTotal(categoryService.db.transactions, userId, today.year, today.month, kind)
    {
      var startDate := ToText(WithDayOfMonth(today, 1));
      var endDate := ToText(WithDayOfMonth(today, LengthOfMonth(today.year, today.month)));
      var list := transactionService.GetTransactions(userId);
      var monthly := Filter(list, MonthOfKind(kind, startDate, endDate));
      slices := Tally(monthly);
      UserMonthRows(list, transactionService.db.transactions, userId, today.year, today.month, kind);
      GroupIsChart(monthly, MonthRows(categoryService.db.transactions, userId, today.year, today.month, kind), categoryService.db.categories);
    }
  }
}
