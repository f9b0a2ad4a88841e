/**
 * The application's start-up rule in `Main.kt`: after a login, a user who
 * has no income and no expense categories gets the default ones. Scene and
 * window handling are not modelled.
 */
module Startup {
  import opened Wrappers
  import opened Model
  import opened Seqs
  import opened Db
  import opened Categories

  /** The default (name, type) pairs, in the order they are created. */
  const DEFAULT_CATEGORIES: seq<(string, string)> := [
    ("Зарплата", INCOME),
    ("Инвестиции", INCOME),
    ("Подарки", INCOME),
    ("Продукты", EXPENSE),
    ("Транспорт", EXPENSE),
    ("Жилье", EXPENSE),
    ("Развлечения", EXPENSE),
    ("Здоровье", EXPENSE),
    ("Одежда", EXPENSE)
  ]

  /**
   * The categories after `createCategory` is tried on each pair in turn with
   * its failures ignored: a pair of an allowed type not yet present is
   * appended with the next id; any other pair is skipped.
   */
  function Seed(categories: seq<Category>, next: int, userId: int, pairs: seq<(string, string)>): seq<Category>
    decreases |pairs|
  {
    if pairs == [] then categories
    else
      var (name, kind) := pairs[0];
      if !CategoryKindAllowed(kind) || HasCategory(categories, userId, name, kind)
      then Seed(categories, next, userId, pairs[1..])
      else Seed(categories + [Category(next, userId, name, kind)], next + 1, userId, pairs[1..])
  }

  /** `(name, kind)` is one of `pairs`. */
  predicate IsPair(pairs: seq<(string, string)>, name: string, kind: string)
  {
    exists k :: 0 <= k < |pairs| && pairs[k] == (name, kind)
  }

  lemma ShiftPairs(pairs: seq<(string, string)>)
    requires pairs != []
    ensures forall name, kind :: IsPair(pairs, name, kind) <==> pairs[0] == (name, kind) || IsPair(pairs[1..], name, kind)
  {
    forall name, kind
      ensures IsPair(pairs, name, kind) <==> pairs[0] == (name, kind) || IsPair(pairs[1..], name, kind)
    {
      if IsPair(pairs[1..], name, kind) {
        var k :| 0 <= k < |pairs[1..]| && pairs[1..][k] == (name, kind);
        assert pairs[k + 1] == (name, kind);
      }
      if IsPair(pairs, name, kind) && pairs[0] != (name, kind) {
        var k :| 0 <= k < |pairs| && pairs[k] == (name, kind);
        assert pairs[1..][k - 1] == (name, kind);
      }
    }
  }

  lemma HasCategoryAppend(categories: seq<Category>, c: Category, userId: int, name: string, kind: string)
    ensures HasCategory(categories + [c], userId, name, kind) <==>
            HasCategory(categories, userId, name, kind) || (c.userId == userId && c.name == name && c.kind == kind)
  {
    var after := categories + [c];
    if HasCategory(categories, userId, name, kind) {
      var i :| 0 <= i < |categories| && Matching(userId, name, kind)(categories[i]);
      assert after[i] == categories[i];
    }
    if HasCategory(after, userId, name, kind) {
      var i :| 0 <= i < |after| && Matching(userId, name, kind)(after[i]);
      if i < |categories| {
        assert categories[i] == after[i];
      }
    }
    if c.userId == userId && c.name == name && c.kind == kind {
      assert Matching(userId, name, kind)(after[|categories|]);
    }
  }

  /**
   * Seeding keeps every existing row in place and appends only rows of that
   * user, of allowed types, made from the pairs.
   */
  lemma {:induction false} SeedAppends(categories: seq<Category>, next: int, userId: int, pairs: seq<(string, string)>)
    ensures var after := Seed(categories, next, userId, pairs);
      && |categories| <= |after|
      && after[..|categories|] == categories
      && forall j :: |categories| <= j < |after| ==>
           after[j].userId == userId && CategoryKindAllowed(after[j].kind) && IsPair(pairs, after[j].name, after[j].kind)
    decreases |pairs|
  {
    if pairs != [] {
      var (name, kind) := pairs[0];
      ShiftPairs(pairs);
      if !CategoryKindAllowed(kind) || HasCategory(categories, userId, name, kind) {
        SeedAppends(categories, next, userId, pairs[1..]);
      } else {
        var grown := categories + [Category(next, userId, name, kind)];
        SeedAppends(grown, next + 1, userId, pairs[1..]);
        var after := Seed(categories, next, userId, pairs);
        assert after[..|grown|] == grown;
        assert after[..|categories|] == grown[..|categories|];
        assert after[|categories|] == grown[|categories|];
      }
    }
  }

  /** After seeding, a key is present iff it was before or it is an allowed pair of that user. */
  lemma {:induction false} SeedHas(categories: seq<Category>, next: int, userId: int, pairs: seq<(string, string)>,
                                   owner: int, name: string, kind: string)
    ensures HasCategory(Seed(categories, next, userId, pairs), owner, name, kind) <==>
            HasCategory(categories, owner, name, kind) || (owner == userId && CategoryKindAllowed(kind) && IsPair(pairs, name, kind))
    decreases |pairs|
  {
    if pairs != [] {
      var (n0, k0) := pairs[0];
      ShiftPairs(pairs);
      if !CategoryKindAllowed(k0) || HasCategory(categories, userId, n0, k0) {
        SeedHas(categories, next, userId, pairs[1..], owner, name, kind);
      } else {
        var c := Category(next, userId, n0, k0);
        SeedHas(categories + [c], next + 1, userId, pairs[1..], owner, name, kind);
        HasCategoryAppend(categories, c, owner, name, kind);
      }
    }
  }

  /** Seeding never duplicates a (user, name, type) key. */
  lemma {:induction false} SeedUnique(categories: seq<Category>, next: int, userId: int, pairs: seq<(string, string)>)
    requires UniqueCategoryKeys(categories)
    ensures UniqueCategoryKeys(Seed(categories, next, userId, pairs))
    decreases |pairs|
  {
    if pairs != [] {
      var (name, kind) := pairs[0];
      if !CategoryKindAllowed(kind) || HasCategory(categories, userId, name, kind) {
        SeedUnique(categories, next, userId, pairs[1..]);
      } else {
        var c := Category(next, userId, name, kind);
        var grown := categories + [c];
        forall i, j | 0 <= i < j < |grown|
          ensures !(grown[i].userId == grown[j].userId && grown[i].name == grown[j].name && grown[i].kind == grown[j].kind)
        {
          if j == |categories| {
            assert !Matching(userId, name, kind)(categories[i]);
          }
        }
        SeedUnique(grown, next + 1, userId, pairs[1..]);
      }
    }
  }

  /** Seeding when every allowed pair is already present changes nothing. */
  lemma {:induction false} SeedPresent(categories: seq<Category>, next: int, userId: int, pairs: seq<(string, string)>)
    requires forall k :: 0 <= k < |pairs| && CategoryKindAllowed(pairs[k].1) ==> HasCategory(categories, userId, pairs[k].0, pairs[k].1)
    ensures Seed(categories, next, userId, pairs) == categories
    decreases |pairs|
  {
    if pairs != [] {
      assert forall k :: 0 <= k < |pairs[1..]| ==> pairs[1..][k] == pairs[k + 1];
      SeedPresent(categories, next, userId, pairs[1..]);
    }
  }

  /** Running the seeding again leaves the categories as they are. */
  lemma SeedIdempotent(categories: seq<Category>, next: int, again: int, userId: int, pairs: seq<(string, string)>)
    ensures Seed(Seed(categories, next, userId, pairs), again, userId, pairs) == Seed(categories, next, userId, pairs)
  {
    var after := Seed(categories, next, userId, pairs);
    forall k | 0 <= k < |pairs| && CategoryKindAllowed(pairs[k].1)
      ensures HasCategory(after, userId, pairs[k].0, pairs[k].1)
    {
      SeedHas(categories, next, userId, pairs, userId, pairs[k].0, pairs[k].1);
    }
    SeedPresent(after, again, userId, pairs);
  }

  /** Under unique keys, a present key is matched by exactly one row. */
  lemma {:induction false} UniqueCount(categories: seq<Category>, userId: int, name: string, kind: string)
    requires UniqueCategoryKeys(categories)
    ensures CountMatching(categories, userId, name, kind) <= 1
    ensures HasCategory(categories, userId, name, kind) ==> CountMatching(categories, userId, name, kind) == 1
  {
    var r := Filter(categories, Matching(userId, name, kind));
    if |r| > 1 {
      FilterTwo(categories, Matching(userId, name, kind));
    }
  }

  /** Two elements passing a filter come from two positions that both pass. */
  lemma {:induction false} FilterTwo(s: seq<Category>, p: Category -> bool)
    requires |Filter(s, p)| > 1
    ensures exists i, j :: 0 <= i < j < |s| && p(s[i]) && p(s[j])
  {
    var init, last := s[..|s| - 1], s[|s| - 1];
    if p(last) {
      assert |Filter(init, p)| > 0;
      var x := Filter(init, p)[0];
      var i :| 0 <= i < |init| && init[i] == x;
      assert s[i] == x && p(s[i]) && p(s[|s| - 1]);
    } else {
      FilterTwo(init, p);
      var i, j :| 0 <= i < j < |init| && p(init[i]) && p(init[j]);
      assert s[i] == init[i] && s[j] == init[j];
    }
  }

  /** For unique keys, seeding leaves each default pair in exactly one row of the user. */
  lemma DefaultsExactlyOnce(categories: seq<Category>, next: int, userId: int)
    requires UniqueCategoryKeys(categories)
    ensures forall k :: 0 <= k < |DEFAULT_CATEGORIES| ==>
      CountMatching(Seed(categories, next, userId, DEFAULT_CATEGORIES), userId, DEFAULT_CATEGORIES[k].0, DEFAULT_CATEGORIES[k].1) == 1
  {
    var after := Seed(categories, next, userId, DEFAULT_CATEGORIES);
    SeedUnique(categories, next, userId, DEFAULT_CATEGORIES);
    forall k | 0 <= k < |DEFAULT_CATEGORIES|
      ensures CountMatching(after, userId, DEFAULT_CATEGORIES[k].0, DEFAULT_CATEGORIES[k].1) == 1
    {
      var (name, kind) := DEFAULT_CATEGORIES[k];
      assert CategoryKindAllowed(kind);
      SeedHas(categories, next, userId, DEFAULT_CATEGORIES, userId, name, kind);
      UniqueCount(after, userId, name, kind);
    }
  }

  /** One attempt of the seeding: the first pair is appended with the next id, or skipped. */
  lemma SeedStep(categories: seq<Category>, next: int, userId: int, pairs: seq<(string, string)>,
                 categories': seq<Category>, next': int)
    requires pairs != []
    requires var (name, kind) := pairs[0];
      if CategoryKindAllowed(kind) && !HasCategory(categories, userId, name, kind)
      then categories' == categories + [Category(next, userId, name, kind)] && next' == next + 1
      else categories' == categories && next' == next
    ensures Seed(categories', next', userId, pairs[1..]) == Seed(categories, next, userId, pairs)
  {
  }

  /** `createDefaultCategoriesForUser`: tries each default pair in order, ignoring refusals. */
  method CreateDefaultCategories(userId: int, categoryService: CategoryService)
    requires categoryService.db.Valid()
    modifies categoryService.db
    ensures categoryService.db.Valid()
    ensures categoryService.db.categories ==
      Seed(old(categoryService.db.categories), old(categoryService.db.nextCategoryId), userId, DEFAULT_CATEGORIES)
    ensures categoryService.db.nextCategoryId - old(categoryService.db.nextCategoryId) ==
      |categoryService.db.categories| - |old(categoryService.db.categories)|
    ensures categoryService.db.KeepsUsers() && categoryService.db.KeepsAccounts() && categoryService.db.KeepsTransactions()
  {
    var db := categoryService.db;
    var i := 0;
    while i < |DEFAULT_CATEGORIES|
      invariant 0 <= i <= |DEFAULT_CATEGORIES|
      invariant db.Valid()
      invariant Seed(db.categories, db.nextCategoryId, userId, DEFAULT_CATEGORIES[i..]) ==
        Seed(old(db.categories), old(db.nextCategoryId), userId, DEFAULT_CATEGORIES)
      invariant db.nextCategoryId - old(db.nextCategoryId) == |db.categories| - |old(db.categories)|
      invariant db.KeepsUsers() && db.KeepsAccounts() && db.KeepsTransactions()
    {
      var (name, kind) := DEFAULT_CATEGORIES[i];
      ghost var categories, next := db.categories, db.nextCategoryId;
      var _ := categoryService.CreateCategory(userId, name, kind);
      SeedStep(categories, next, userId, DEFAULT_CATEGORIES[i..], db.categories, db.nextCategoryId);
      assert DEFAULT_CATEGORIES[i..][1..] == DEFAULT_CATEGORIES[i + 1..];
      i := i + 1;
    }
  }

  /** The login callback in `start`: seeds the defaults only for a user without income or expense categories. */
  method OnLogin(userId: int, categoryService: CategoryService)
    requires categoryService.db.Valid()
    modifies categoryService.db
    ensures categoryService.db.Valid()
    ensures (exists c :: c in old(categoryService.db.categories) && c.userId == userId && c.kind in {INCOME, EXPENSE}) ==>
      categoryService.db.KeepsCategories()
    ensures !(exists c :: c in old(categoryService.db.categories) && c.userId == userId && c.kind in {INCOME, EXPENSE}) ==>
      categoryService.db.categories ==
        Seed(old(categoryService.db.categories), old(categoryService.db.nextCategoryId), userId, DEFAULT_CATEGORIES)
    ensures categoryService.db.KeepsUsers() && categoryService.db.KeepsAccounts() && categoryService.db.KeepsTransactions()
  {
    var income := categoryService.GetCategories(userId, INCOME);
    var expense := categoryService.GetCategories(userId, EXPENSE);
    if income + expense == [] {
      forall c | c in categoryService.db.categories && c.userId == userId
        ensures c.kind !in {INCOME, EXPENSE}
      {
        assert c.kind == INCOME ==> c in income;
        assert c.kind == EXPENSE ==> c in expense;
      }
      CreateDefaultCategories(userId, categoryService);
    } else {
      if income != [] { assert income[0] in income; } else { assert expense[0] in expense; }
    }
  }
}
