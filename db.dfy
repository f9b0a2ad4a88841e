/**
 * `db.DatabaseManager`: the SQLite file behind every service, seen as four
 * tables held in rowid order together with the AUTOINCREMENT counters, and
 * the start-up routine that runs the schema script statement by statement.
 */
module Db {
  import opened Wrappers
  import opened Model
  import opened Tables
  import opened Text
  import Ledger

  /** Column defaults of `accounts`. */
  const DEFAULT_BALANCE: real := 0.0
  const DEFAULT_CURRENCY: string := "RUB"

  /** `CHECK(type IN ('income', 'expense'))` on `categories`. */
  predicate CategoryKindAllowed(kind: string)
  {
    kind == INCOME || kind == EXPENSE
  }

  /** `CHECK(type IN ('income', 'expense', 'transfer'))` on `transactions`. */
  predicate TransactionKindAllowed(kind: string)
  {
    kind == INCOME || kind == EXPENSE || kind == TRANSFER
  }

  /** `username TEXT UNIQUE`. */
  predicate UniqueUsernames(users: seq<User>)
  {
    forall i, j :: 0 <= i < j < |users| ==> users[i].username != users[j].username
  }

  /** Whether some stored transaction names account `a` as its source or target. */
  predicate Referenced(transactions: seq<Transaction>, a: int)
  {
    exists i :: 0 <= i < |transactions| && (transactions[i].fromAccountId == Some(a) || transactions[i].toAccountId == Some(a))
  }

  class DatabaseManager {
    var users: seq<User>
    var accounts: seq<Account>
    var categories: seq<Category>
    var transactions: seq<Transaction>
    /** The ids AUTOINCREMENT hands out next (one past the `sqlite_sequence` entry). */
    var nextUserId: int
    var nextAccountId: int
    var nextCategoryId: int
    var nextTransactionId: int
    /** The balance each account was created with, by account id. */
    ghost var opening: map<int, real>

    /** What the schema's keys and CHECK constraints guarantee about stored rows. */
    predicate Valid()
      reads this
    {
      && nextUserId >= 1 && nextAccountId >= 1 && nextCategoryId >= 1 && nextTransactionId >= 1
      && Keyed(users, UserId, nextUserId)
      && Keyed(accounts, AccountId, nextAccountId)
      && Keyed(categories, CategoryId, nextCategoryId)
      && Keyed(transactions, TransactionId, nextTransactionId)
      && UniqueUsernames(users)
      && (forall i :: 0 <= i < |categories| ==> CategoryKindAllowed(categories[i].kind))
      && (forall i :: 0 <= i < |transactions| ==> TransactionKindAllowed(transactions[i].kind))
    }

    /** The ledger invariant over the stored accounts and transactions. */
    ghost predicate Consistent()
      reads this
    {
      Ledger.Consistent(accounts, transactions, opening)
    }

    /** The frame of an operation that leaves a table and its counter alone. */
    twostate predicate KeepsUsers()
      reads this
    {
      users == old(users) && nextUserId == old(nextUserId)
    }

    twostate predicate KeepsAccounts()
      reads this
    {
      accounts == old(accounts) && nextAccountId == old(nextAccountId) && opening == old(opening)
    }

    twostate predicate KeepsCategories()
      reads this
    {
      categories == old(categories) && nextCategoryId == old(nextCategoryId)
    }

    twostate predicate KeepsTransactions()
      reads this
    {
      transactions == old(transactions) && nextTransactionId == old(nextTransactionId)
    }

    /**
     * The state after `initializeDatabase` on a new file: the four tables
     * exist and are empty, and no id has been handed out yet.
     */
    constructor ()
      ensures Valid() && Consistent()
      ensures users == [] && accounts == [] && categories == [] && transactions == []
      ensures nextUserId == 1 && nextAccountId == 1 && nextCategoryId == 1 && nextTransactionId == 1
      ensures opening == map[]
    {
      users, accounts, categories, transactions := [], [], [], [];
      nextUserId, nextAccountId, nextCategoryId, nextTransactionId := 1, 1, 1, 1;
      opening := map[];
    }

    /** `insertTransaction`: stores a row with the next id, dated `now` (the column default), under the type CHECK. */
    method InsertTransaction(userId: int, kind: string, amount: real, description: Option<string>,
                             categoryId: Option<int>, fromAccountId: Option<int>, toAccountId: Option<int>, now: string)
      requires Valid() && TransactionKindAllowed(kind)
      modifies this
      ensures Valid()
      ensures transactions == old(transactions) +
        [Transaction(old(nextTransactionId), userId, kind, amount, description, categoryId, fromAccountId, toAccountId, now)]
      ensures nextTransactionId == old(nextTransactionId) + 1
      ensures KeepsUsers() && KeepsAccounts() && KeepsCategories()
    {
      var row := Transaction(nextTransactionId, userId, kind, amount, description, categoryId, fromAccountId, toAccountId, now);
      KeyedAppend(transactions, TransactionId, nextTransactionId, row);
      ghost var before := transactions;
      transactions := transactions + [row];
      nextTransactionId := nextTransactionId + 1;
      assert transactions[|before|] == row;
      assert forall i :: 0 <= i < |before| ==> transactions[i] == before[i];
    }

    /** `DELETE FROM accounts WHERE id = ?` on the row at `k`. */
    method DeleteAccountAt(k: nat)
      requires Valid() && k < |accounts|
      modifies this
      ensures Valid()
      ensures accounts == RemoveAt(old(accounts), k)
      ensures nextAccountId == old(nextAccountId) && opening == old(opening)
      ensures KeepsUsers() && KeepsCategories() && KeepsTransactions()
    {
      KeyedRemove(accounts, AccountId, nextAccountId, k);
      accounts := RemoveAt(accounts, k);
    }

    /** `DELETE FROM categories WHERE id = ?` on the row at `k`. */
    method DeleteCategoryAt(k: nat)
      requires Valid() && k < |categories|
      modifies this
      ensures Valid()
      ensures categories == RemoveAt(old(categories), k)
      ensures nextCategoryId == old(nextCategoryId)
      ensures KeepsUsers() && KeepsAccounts() && KeepsTransactions()
    {
      KeyedRemove(categories, CategoryId, nextCategoryId, k);
      ghost var before := categories;
      categories := RemoveAt(categories, k);
      assert forall i :: 0 <= i < |categories| ==> categories[i] == (if i < k then before[i] else before[i + 1]);
    }

    /** `DELETE FROM transactions WHERE id = ?` on the row at `k`. */
    method DeleteTransactionAt(k: nat)
      requires Valid() && k < |transactions|
      modifies this
      ensures Valid()
      ensures transactions == RemoveAt(old(transactions), k)
      ensures nextTransactionId == old(nextTransactionId)
      ensures KeepsUsers() && KeepsAccounts() && KeepsCategories()
    {
      KeyedRemove(transactions, TransactionId, nextTransactionId, k);
      ghost var before := transactions;
      transactions := RemoveAt(transactions, k);
      assert forall i :: 0 <= i < |transactions| ==> transactions[i] == (if i < k then before[i] else before[i + 1]);
    }

    /** `INSERT INTO users (username, password_hash)` of a username no row holds, which UNIQUE admits. */
    method InsertUser(username: string, passwordHash: string) returns (id: int)
      requires Valid() && forall i :: 0 <= i < |users| ==> users[i].username != username
      modifies this
      ensures Valid()
      ensures id == old(nextUserId) && nextUserId == id + 1
      ensures users == old(users) + [User(id, username, passwordHash)]
      ensures KeepsAccounts() && KeepsCategories() && KeepsTransactions()
    {
      id := nextUserId;
      var row := User(id, username, passwordHash);
      KeyedAppend(users, UserId, id, row);
      ghost var before := users;
      users := users + [row];
      nextUserId := id + 1;
      assert users[|before|] == row;
      assert forall i :: 0 <= i < |before| ==> users[i] == before[i];
    }

    /** `INSERT INTO categories (user_id, name, type)`: the row takes the next id under the type CHECK. */
    method InsertCategory(userId: int, name: string, kind: string) returns (id: int)
      requires Valid() && CategoryKindAllowed(kind)
      modifies this
      ensures Valid()
      ensures id == old(nextCategoryId) && nextCategoryId == id + 1
      ensures categories == old(categories) + [Category(id, userId, name, kind)]
      ensures KeepsUsers() && KeepsAccounts() && KeepsTransactions()
    {
      id := nextCategoryId;
      var row := Category(id, userId, name, kind);
      KeyedAppend(categories, CategoryId, id, row);
      ghost var before := categories;
      categories := categories + [row];
      nextCategoryId := id + 1;
      assert categories[|before|] == row;
      assert forall i :: 0 <= i < |before| ==> categories[i] == before[i];
    }
  }

  /** What one statement of the schema script did when it was executed. */
  datatype ExecOutcome = Executed | Failed(message: Option<string>)

  /** The statements `createTables` executes: each `;`-separated piece, trimmed, empty ones skipped. */
  function Statements(pieces: seq<string>): (r: seq<string>)
    ensures |r| <= |pieces|
    ensures forall i :: 0 <= i < |r| ==> r[i] != ""
  {
    if pieces == [] then []
    else
      var t := Trim(pieces[|pieces| - 1]);
      Statements(pieces[..|pieces| - 1]) + (if t == "" then [] else [t])
  }

  /** The line `createTables` prints for a failed statement, unless it only says the table already exists. */
  function Report(outcome: ExecOutcome): seq<string>
  {
    match outcome
    case Executed => []
    case Failed(None) => ["Error executing SQL: null"]
    case Failed(Some(m)) => if Contains(m, "already exists") then [] else ["Error executing SQL: " + m]
  }

  /** Everything printed while running `statements` in order. */
  function Reports(statements: seq<string>, execute: string -> ExecOutcome): seq<string>
  {
    if statements == [] then []
    else Reports(statements[..|statements| - 1], execute) + Report(execute(statements[|statements| - 1]))
  }

  /** A statement as `createTables` hands it over: non-empty, trimmed, and free of `;`. */
  predicate CleanStatement(s: string)
  {
    s != "" && ';' !in s && !IsWhitespace(s[0]) && !IsWhitespace(s[|s| - 1])
  }

  /** Every statement `createTables` runs is a non-empty trimmed piece of the script holding no `;`. */
  lemma StatementsAreTrimmedPieces(script: string)
    ensures forall i :: 0 <= i < |Statements(Split(script, ';'))| ==> CleanStatement(Statements(Split(script, ';'))[i])
  {
    PiecesTrimmed(Split(script, ';'));
  }

  lemma {:induction false} PiecesTrimmed(pieces: seq<string>)
    requires forall i :: 0 <= i < |pieces| ==> ';' !in pieces[i]
    ensures forall i :: 0 <= i < |Statements(pieces)| ==> CleanStatement(Statements(pieces)[i])
  {
    if pieces != [] {
      var init := pieces[..|pieces| - 1];
      var last := pieces[|pieces| - 1];
      assert forall i :: 0 <= i < |init| ==> init[i] == pieces[i];
      PiecesTrimmed(init);
      assert ';' !in last;
      TrimEnds(last);
      TrimWithin(last);
      var t := Trim(last);
      var r := Statements(pieces);
      var prior := Statements(init);
      assert r == prior + (if t == "" then [] else [t]);
      forall i | 0 <= i < |r|
        ensures CleanStatement(r[i])
      {
        if i < |prior| {
          assert r[i] == prior[i];
        } else {
          assert r[i] == t;
        }
      }
    }
  }

  /** `trim` only removes characters. */
  lemma TrimWithin(s: string)
    ensures forall c :: c in Trim(s) ==> c in s
  {
    var t := TrimStart(s);
    assert forall c :: c in TrimEnd(t) ==> c in t;
    assert forall c :: c in t ==> c in s;
  }

  /** A line `createTables` may print: the prefix and a message that does not say "already exists". */
  ghost predicate PrintedError(line: string)
  {
    exists m :: line == "Error executing SQL: " + m && !Contains(m, "already exists")
  }

  /** No line `createTables` prints is about a table that already exists. */
  lemma {:induction false} ReportsSkipExisting(statements: seq<string>, execute: string -> ExecOutcome)
    ensures forall i :: 0 <= i < |Reports(statements, execute)| ==> PrintedError(Reports(statements, execute)[i])
  {
    if statements != [] {
      var init := statements[..|statements| - 1];
      ReportsSkipExisting(init, execute);
      var prior := Reports(init, execute);
      var o := execute(statements[|statements| - 1]);
      var all := prior + Report(o);
      assert Reports(statements, execute) == all;
      forall i | 0 <= i < |all|
        ensures PrintedError(all[i])
      {
        if i < |prior| {
          assert all[i] == prior[i];
        } else if o == Failed(None) {
          assert !Contains("null", "already exists");
          assert all[i] == "Error executing SQL: " + "null";
        } else {
          assert all[i] == "Error executing SQL: " + o.message.value;
        }
      }
    }
  }

  lemma StatementsStep(pieces: seq<string>, i: nat)
    requires i < |pieces|
    ensures var t := Trim(pieces[i]);
      Statements(pieces[..i + 1]) == Statements(pieces[..i]) + (if t == "" then [] else [t])
  {
    assert pieces[..i + 1][..i] == pieces[..i];
  }

  lemma ReportsStep(statements: seq<string>, s: string, execute: string -> ExecOutcome)
    ensures Reports(statements + [s], execute) == Reports(statements, execute) + Report(execute(s))
  {
    assert (statements + [s])[..|statements|] == statements;
  }

  /**
   * `createTables`: runs each statement of the script in order through
   * `execute`, catching failures and printing those that are not about an
   * existing table. Returns the statements run and the lines printed.
   */
  method CreateTables(schema: string, execute: string -> ExecOutcome) returns (executed: seq<string>, printed: seq<string>)
    ensures executed == Statements(Split(schema, ';'))
    ensures printed == Reports(executed, execute)
  {
    executed, printed := RunPieces(Split(schema, ';'), execute);
  }

  /** One turn of the loop: a piece that trims to nothing is skipped, any other is executed and reported. */
  method RunPiece(executed: seq<string>, printed: seq<string>, piece: string, execute: string -> ExecOutcome)
    returns (executed': seq<string>, printed': seq<string>)
    requires printed == Reports(executed, execute)
    ensures executed' == executed + (if Trim(piece) == "" then [] else [Trim(piece)])
    ensures printed' == Reports(executed', execute)
  {
    var trimmed := Trim(piece);
    if trimmed == "" {
      return executed, printed;
    }
    var outcome := execute(trimmed);
    ReportsStep(executed, trimmed, execute);
    executed', printed' := executed + [trimmed], printed + Report(outcome);
  }

  /** The loop of `createTables` over the script's `;`-separated pieces. */
  method RunPieces(pieces: seq<string>, execute: string -> ExecOutcome) returns (executed: seq<string>, printed: seq<string>)
    ensures executed == Statements(pieces)
    ensures printed == Reports(executed, execute)
  {
    executed, printed := [], [];
    var i := 0;
    while i < |pieces|
      invariant 0 <= i <= |pieces|
      invariant executed == Statements(pieces[..i])
      invariant printed == Reports(executed, execute)
    {
      StatementsStep(pieces, i);
      executed, printed := RunPiece(executed, printed, pieces[i], execute);
      i := i + 1;
    }
    assert pieces[..|pieces|] == pieces;
  }
}
