/** `service.CategoryService`: income and expense categories of a user. */
module Categories {
  import opened Wrappers
  import opened Model
  import opened Seqs
  import opened Sorting
  import opened Tables
  import opened Text
  import opened Db

  /** Why `createCategory` refuses: the two `IllegalArgumentException`s it throws. */
  datatype CategoryError = InvalidType | Duplicate(name: string)

  function Message(e: CategoryError): string
  {
    match e
    case InvalidType => "Invalid category type"
    case Duplicate(name) => "Категория '" + name + "' уже существует"
  }

  /** `WHERE user_id = ? AND name = ? AND type = ?`. */
  function Matching(userId: int, name: string, kind: string): Category -> bool
  {
    (c: Category) => c.userId == userId && c.name == name && c.kind == kind
  }

  /** `WHERE user_id = ? AND type = ?`. */
  function OfKind(userId: int, kind: string): Category -> bool
  {
    (c: Category) => c.userId == userId && c.kind == kind
  }

  /** `WHERE user_id = ?`. */
  function OwnedBy(userId: int): Category -> bool
  {
    (c: Category) => c.userId == userId
  }

  predicate HasCategory(categories: seq<Category>, userId: int, name: string, kind: string)
  {
    exists i :: 0 <= i < |categories| && Matching(userId, name, kind)(categories[i])
  }

  /** `SELECT COUNT(*) FROM categories WHERE user_id = ? AND name = ? AND type = ?`. */
  function CountMatching(categories: seq<Category>, userId: int, name: string, kind: string): (n: nat)
    ensures n > 0 <==> HasCategory(categories, userId, name, kind)
  {
    var r := Filter(categories, Matching(userId, name, kind));
    assert |r| > 0 ==> r[0] in categories;
    |r|
  }

  /** No user has two categories of one name and type; the service keeps this, the schema does not. */
  predicate UniqueCategoryKeys(categories: seq<Category>)
  {
    forall i, j :: 0 <= i < j < |categories| ==>
      !(categories[i].userId == categories[j].userId && categories[i].name == categories[j].name && categories[i].kind == categories[j].kind)
  }

  /** An appended row is found by its own key, and keeps the keys unique when the key was new. */
  lemma CategoryAppended(categories: seq<Category>, row: Category)
    ensures HasCategory(categories + [row], row.userId, row.name, row.kind)
    ensures UniqueCategoryKeys(categories) && !HasCategory(categories, row.userId, row.name, row.kind) ==>
      UniqueCategoryKeys(categories + [row])
  {
    var next := categories + [row];
    assert next[|categories|] == row;
    assert forall i :: 0 <= i < |categories| ==> next[i] == categories[i];
  }

  lemma UniqueAfterRemove(categories: seq<Category>, k: nat)
    requires k < |categories|
    ensures UniqueCategoryKeys(categories) ==> UniqueCategoryKeys(RemoveAt(categories, k))
  {
    var rest := RemoveAt(categories, k);
    assert forall i :: 0 <= i < |rest| ==> rest[i] == (if i < k then categories[i] else categories[i + 1]);
  }

  /** `ORDER BY name`. */
  predicate NameLe(a: Category, b: Category)
  {
    LexLe(a.name, b.name)
  }

  /** `ORDER BY type, name`. */
  predicate KindNameLe(a: Category, b: Category)
  {
    LexLe(a.kind, b.kind) && (a.kind == b.kind ==> LexLe(a.name, b.name))
  }

  lemma NameOrder()
    ensures TotalPreorder(NameLe)
  {
    forall a: Category, b: Category
      ensures NameLe(a, b) || NameLe(b, a)
    {
      LexLeTotal(a.name, b.name);
    }
    forall a: Category, b: Category, c: Category | NameLe(a, b) && NameLe(b, c)
      ensures NameLe(a, c)
    {
      LexLeTransitive(a.name, b.name, c.name);
    }
  }

  lemma KindNameOrder()
    ensures TotalPreorder(KindNameLe)
  {
    forall a: Category, b: Category
      ensures KindNameLe(a, b) || KindNameLe(b, a)
    {
      LexLeTotal(a.kind, b.kind);
      LexLeTotal(a.name, b.name);
    }
    forall a: Category, b: Category, c: Category | KindNameLe(a, b) && KindNameLe(b, c)
      ensures KindNameLe(a, c)
    {
      LexLeTransitive(a.kind, b.kind, c.kind);
      if a.kind == c.kind {
        assert a.kind == b.kind by {
          if a.kind != b.kind {
            LexLeAntisymmetric(a.kind, b.kind);
          }
        }
        LexLeTransitive(a.name, b.name, c.name);
      }
    }
  }

  class CategoryService {
    const db: DatabaseManager

    constructor (db: DatabaseManager)
      ensures this.db == db
    {
      this.db := db;
    }

    /**
     * `createCategory`: refuses a type other than income or expense, then a
     * name the user already has for that type; otherwise stores the category
     * and returns its id.
     */
    method CreateCategory(userId: int, name: string, kind: string) returns (r: Result<int, CategoryError>)
      requires db.Valid()
      modifies db
      ensures db.Valid()
      ensures !CategoryKindAllowed(kind) ==> r == Err(InvalidType)
      ensures CategoryKindAllowed(kind) && old(HasCategory(db.categories, userId, name, kind)) ==> r == Err(Duplicate(name))
      ensures r.Ok? <==> CategoryKindAllowed(kind) && !old(HasCategory(db.categories, userId, name, kind))
      ensures r.Ok? ==>
        && r.value == old(db.nextCategoryId) && db.nextCategoryId == r.value + 1
        && db.categories == old(db.categories) + [Category(r.value, userId, name, kind)]
      ensures r.Err? ==> db.KeepsCategories()
      ensures old(UniqueCategoryKeys(db.categories)) ==> UniqueCategoryKeys(db.categories)
      ensures HasCategory(db.categories, userId, name, kind) <==> CategoryKindAllowed(kind) || old(HasCategory(db.categories, userId, name, kind))
      ensures db.KeepsUsers() && db.KeepsAccounts() && db.KeepsTransactions()
    {
      if !(kind == INCOME || kind == EXPENSE) {
        assert !HasCategory(db.categories, userId, name, kind);
        return Err(InvalidType);
      }
      var taken := CategoryExists(userId, name, kind);
      if taken {
        return Err(Duplicate(name));
      }
      CategoryAppended(db.categories, Category(db.nextCategoryId, userId, name, kind));
      var id := db.InsertCategory(userId, name, kind);
      r := Ok(id);
    }

    /** `categoryExists`: whether the user already has a category of this name and type. */
    method CategoryExists(userId: int, name: string, kind: string) returns (b: bool)
      ensures b <==> exists c :: c in db.categories && c.userId == userId && c.name == name && c.kind == kind
    {
      b := CountMatching(db.categories, userId, name, kind) > 0;
    }

    /** `getCategories`: the user's categories of one type, ordered by name. */
    method GetCategories(userId: int, kind: string) returns (list: seq<Category>)
      ensures multiset(list) == multiset(Filter(db.categories, OfKind(userId, kind)))
      ensures forall c :: c in list <==> c in db.categories && c.userId == userId && c.kind == kind
      ensures SortedBy(list, NameLe)
    {
      NameOrder();
      list := SelectOrdered(db.categories, OfKind(userId, kind), NameLe);
      SameElements(list, Filter(db.categories, OfKind(userId, kind)));
    }

    /** `getCategoryById`: the category with that id, or `None`. */
    method GetCategoryById(categoryId: int) returns (r: Option<Category>)
      requires db.Valid()
      ensures r.Some? <==> HasId(db.categories, CategoryId, categoryId)
      ensures forall c :: c in db.categories && c.id == categoryId ==> r == Some(c)
    {
      r := Find(db.categories, CategoryId, categoryId);
      forall c | c in db.categories && c.id == categoryId
        ensures r == Some(c)
      {
        var i :| 0 <= i < |db.categories| && db.categories[i] == c;
        KeyedUnique(db.categories, CategoryId, db.nextCategoryId, i);
      }
    }

    /** `getAllCategories`: the user's categories, ordered by type and then by name. */
    method GetAllCategories(userId: int) returns (list: seq<Category>)
      ensures multiset(list) == multiset(Filter(db.categories, OwnedBy(userId)))
      ensures forall c :: c in list <==> c in db.categories && c.userId == userId
      ensures SortedBy(list, KindNameLe)
    {
      KindNameOrder();
      list := SelectOrdered(db.categories, OwnedBy(userId), KindNameLe);
      SameElements(list, Filter(db.categories, OwnedBy(userId)));
    }

    /**
     * `deleteCategory`: removes the category row and reports whether there
     * was one; transactions keep their category ids (foreign keys are not
     * enforced on the service's connections).
     */
    method DeleteCategory(categoryId: int) returns (deleted: bool)
      requires db.Valid()
      modifies db
      ensures db.Valid()
      ensures deleted <==> old(HasId(db.categories, CategoryId, categoryId))
      ensures forall c :: c in db.categories <==> c in old(db.categories) && c.id != categoryId
      ensures !deleted ==> db.categories == old(db.categories)
      ensures db.nextCategoryId == old(db.nextCategoryId)
      ensures old(UniqueCategoryKeys(db.categories)) ==> UniqueCategoryKeys(db.categories)
      ensures db.KeepsUsers() && db.KeepsAccounts() && db.KeepsTransactions()
    {
      var k := IndexOf(db.categories, CategoryId, categoryId);
      if k < 0 {
        deleted := false;
      } else {
        RemoveAtMembers(db.categories, CategoryId, db.nextCategoryId, k);
        UniqueAfterRemove(db.categories, k);
        db.DeleteCategoryAt(k);
        deleted := true;
      }
    }
  }
}
