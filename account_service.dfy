/** `service.AccountService`: accounts of a user and their balances. */
module Accounts {
  import opened Wrappers
  import opened Model
  import opened Seqs
  import opened Sorting
  import opened Tables
  import opened Text
  import opened Db
  import opened Ledger

  /** `WHERE user_id = ?`. */
  function OwnedBy(userId: int): Account -> bool
  {
    (a: Account) => a.userId == userId
  }

  /** `ORDER BY name`. */
  predicate NameLe(a: Account, b: Account)
  {
    LexLe(a.name, b.name)
  }

  lemma NameOrder()
    ensures TotalPreorder(NameLe)
  {
    forall a: Account, b: Account
      ensures NameLe(a, b) || NameLe(b, a)
    {
      LexLeTotal(a.name, b.name);
    }
    forall a: Account, b: Account, c: Account | NameLe(a, b) && NameLe(b, c)
      ensures NameLe(a, c)
    {
      LexLeTransitive(a.name, b.name, c.name);
    }
  }

  class AccountService {
    const db: DatabaseManager

    constructor (db: DatabaseManager)
      ensures this.db == db
    {
      this.db := db;
    }

    /**
     * `createAccount`: stores a new account with the next id and returns that
     * id. No check on the name: a user may hold several accounts of one name.
     */
    method CreateAccount(userId: int, name: string, balance: real := DEFAULT_BALANCE, currency: string := DEFAULT_CURRENCY)
      returns (id: int)
      requires db.Valid()
      modifies db
      ensures db.Valid()
      ensures id == old(db.nextAccountId) && db.nextAccountId == id + 1
      ensures db.accounts == old(db.accounts) + [Account(id, userId, name, balance, currency)]
      ensures db.opening == old(db.opening)[id := balance]
      ensures db.KeepsUsers() && db.KeepsCategories() && db.KeepsTransactions()
      ensures old(db.Consistent()) && !Referenced(db.transactions, id) ==> db.Consistent()
    {
      id := db.nextAccountId;
      var row := Account(id, userId, name, balance, currency);
      KeyedAppend(db.accounts, AccountId, id, row);
      if db.Consistent() && !Referenced(db.transactions, id) {
        OpenConsistent(db.accounts, db.transactions, db.opening, row);
      }
      db.accounts := db.accounts + [row];
      db.nextAccountId := id + 1;
      db.opening := db.opening[id := balance];
    }

    /** `getAccounts`: the user's accounts, ordered by name. */
    method GetAccounts(userId: int) returns (list: seq<Account>)
      ensures multiset(list) == multiset(Filter(db.accounts, OwnedBy(userId)))
      ensures forall a :: a in list <==> a in db.accounts && a.userId == userId
      ensures SortedBy(list, NameLe)
    {
      NameOrder();
      list := SelectOrdered(db.accounts, OwnedBy(userId), NameLe);
      SameElements(list, Filter(db.accounts, OwnedBy(userId)));
    }

    /** `updateBalance`: adds `delta` to the balance of the account with that id, if there is one. */
    method UpdateBalance(accountId: int, delta: real)
      requires db.Valid()
      modifies db
      ensures db.Valid()
      ensures db.accounts == Credit(old(db.accounts), accountId, delta)
      ensures db.nextAccountId == old(db.nextAccountId) && db.opening == old(db.opening)
      ensures db.KeepsUsers() && db.KeepsCategories() && db.KeepsTransactions()
    {
      var credited := Credit(db.accounts, accountId, delta);
      assert forall k :: 0 <= k < |credited| ==> credited[k].id == db.accounts[k].id;
      db.accounts := credited;
    }

    /** `getAccountById`: the account with that id, or `None`. */
    method GetAccountById(accountId: int) returns (r: Option<Account>)
      requires db.Valid()
      ensures r.Some? <==> HasId(db.accounts, AccountId, accountId)
      ensures r.Some? ==> r.value in db.accounts && r.value.id == accountId
      ensures forall a :: a in db.accounts && a.id == accountId ==> r == Some(a)
    {
      r := Find(db.accounts, AccountId, accountId);
      forall a | a in db.accounts && a.id == accountId
        ensures r == Some(a)
      {
        var i :| 0 <= i < |db.accounts| && db.accounts[i] == a;
        KeyedUnique(db.accounts, AccountId, db.nextAccountId, i);
      }
    }

    /**
     * `deleteAccount`: removes the account row and reports whether there was
     * one. Transactions naming it keep their references: foreign keys are
     * not enforced on the service's connections, so neither `ON DELETE SET
     * NULL` nor a cascade runs.
     */
    method DeleteAccount(accountId: int) returns (deleted: bool)
      requires db.Valid()
      modifies db
      ensures db.Valid()
      ensures deleted <==> old(HasId(db.accounts, AccountId, accountId))
      ensures forall a :: a in db.accounts <==> a in old(db.accounts) && a.id != accountId
      ensures !deleted ==> db.accounts == old(db.accounts)
      ensures db.nextAccountId == old(db.nextAccountId) && db.opening == old(db.opening)
      ensures db.KeepsUsers() && db.KeepsCategories() && db.KeepsTransactions()
      ensures old(db.Consistent()) ==> db.Consistent()
    {
      var k := IndexOf(db.accounts, AccountId, accountId);
      if k < 0 {
        deleted := false;
      } else {
        if db.Consistent() {
          CloseConsistent(db.accounts, db.transactions, db.opening, k);
        }
        RemoveAtMembers(db.accounts, AccountId, db.nextAccountId, k);
        db.DeleteAccountAt(k);
        deleted := true;
      }
    }
  }
}
