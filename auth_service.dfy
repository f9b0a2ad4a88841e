/** `service.AuthService`: registration and login by username and password hash. */
module Auth {
  import opened Wrappers
  import opened Model
  import opened Seqs
  import opened Tables
  import opened Db
  import opened Encoding

  /** `WHERE username = ?`. */
  function Named(username: string): User -> bool
  {
    (u: User) => u.username == username
  }

  predicate HasUser(users: seq<User>, username: string)
  {
    exists i :: 0 <= i < |users| && users[i].username == username
  }

  /** `SELECT COUNT(*) FROM users WHERE username = ?`. */
  function CountNamed(users: seq<User>, username: string): (n: nat)
    ensures n > 0 <==> HasUser(users, username)
  {
    var r := Filter(users, Named(username));
    assert |r| > 0 ==> r[0] in users;
    |r|
  }

  /** The first row of `SELECT ... FROM users WHERE username = ?`. */
  function UserNamed(users: seq<User>, username: string): (r: Option<User>)
    ensures r.Some? <==> HasUser(users, username)
    ensures r.Some? ==> r.value in users && r.value.username == username
  {
    if users == [] then None
    else if users[0].username == username then Some(users[0])
    else
      var r := UserNamed(users[1..], username);
      assert HasUser(users, username) ==> HasUser(users[1..], username) by {
        if HasUser(users, username) {
          var i :| 0 <= i < |users| && users[i].username == username;
          assert users[1..][i - 1] == users[i];
        }
      }
      r
  }

  /** What `login` answers: the id of the user's row when the stored hash is `hash`. */
  function LoginOutcome(users: seq<User>, username: string, hash: string): Option<int>
  {
    match UserNamed(users, username)
    case Some(u) => if u.passwordHash == hash then Some(u.id) else None
    case None => None
  }

  /** With unique usernames the row `login` looks at is the only one of that name. */
  lemma LoginOutcomeSpec(users: seq<User>, username: string, hash: string)
    requires UniqueUsernames(users)
    ensures var r := LoginOutcome(users, username, hash);
      && (r.Some? <==> exists u :: u in users && u.username == username && u.passwordHash == hash)
      && (r.Some? ==> exists u :: u in users && u.id == r.value && u.username == username && u.passwordHash == hash)
  {
    var found := UserNamed(users, username);
    if u :| u in users && u.username == username && u.passwordHash == hash {
      var i :| 0 <= i < |users| && users[i] == u;
      var j :| 0 <= j < |users| && users[j] == found.value;
      assert i == j;
    }
  }

  class AuthService {
    const db: DatabaseManager
    /** `MessageDigest.getInstance("SHA-256").digest`, whose internals are not modelled. */
    const digest: seq<byte> -> seq<byte>

    constructor (db: DatabaseManager, digest: seq<byte> -> seq<byte>)
      ensures this.db == db && this.digest == digest
    {
      this.db := db;
      this.digest := digest;
    }

    /** `hashPassword`: the lower-case hex text of the digest of the password's UTF-8 bytes. */
    function HashPassword(password: string): (h: string)
      ensures |h| == 2 * |digest(Utf8(password))|
      ensures forall i :: 0 <= i < |h| ==> h[i] in HEX_DIGITS
      ensures UnHex(h) == digest(Utf8(password))
    {
      UnHexHex(digest(Utf8(password)));
      HexAlphabet(digest(Utf8(password)));
      Hex(digest(Utf8(password)))
    }

    /** Two passwords hash alike exactly when their digests agree. */
    lemma SameHash(p: string, q: string)
      ensures HashPassword(p) == HashPassword(q) <==> digest(Utf8(p)) == digest(Utf8(q))
    {
      HexInjective(digest(Utf8(p)), digest(Utf8(q)));
    }

    /** Under a digest without collisions, only the registered password matches the stored hash (passwords are scalar-value text). */
    lemma HashIdentifiesPassword(p: string, q: string)
      requires forall x, y :: digest(x) == digest(y) ==> x == y
      ensures HashPassword(p) == HashPassword(q) <==> p == q
    {
      SameHash(p, q);
      Utf8Injective(p, q);
    }

    /** `userExists`: whether a row holds that username. */
    method UserExists(username: string) returns (b: bool)
      ensures b <==> exists u :: u in db.users && u.username == username
    {
      b := CountNamed(db.users, username) > 0;
    }

    /**
     * `register`: `None` when the username is taken; otherwise stores the
     * user with the password's hash and returns the new id, under which that
     * username and password then log in.
     */
    method Register(username: string, password: string) returns (id: Option<int>)
      requires db.Valid()
      modifies db
      ensures db.Valid()
      ensures id.None? <==> old(HasUser(db.users, username))
      ensures id.None? ==> db.KeepsUsers()
      ensures id.Some? ==>
        && id.value == old(db.nextUserId) && db.nextUserId == id.value + 1
        && db.users == old(db.users) + [User(id.value, username, HashPassword(password))]
      ensures id.Some? ==> LoginOutcome(db.users, username, HashPassword(password)) == id
      ensures db.KeepsAccounts() && db.KeepsCategories() && db.KeepsTransactions()
    {
      var taken := UserExists(username);
      if taken {
        return None;
      }
      var hash := HashPassword(password);
      StoreFresh(db.users, User(db.nextUserId, username, hash));
      var newId := db.InsertUser(username, hash);
      id := Some(newId);
    }

    /** `login`: the user's id when a row holds the username and the password's hash. */
    method Login(username: string, password: string) returns (id: Option<int>)
      requires db.Valid()
      ensures id == LoginOutcome(db.users, username, HashPassword(password))
      ensures id.Some? <==> exists u :: u in db.users && u.username == username && u.passwordHash == HashPassword(password)
      ensures id.Some? ==> exists u :: u in db.users && u.id == id.value && u.username == username && u.passwordHash == HashPassword(password)
    {
      var hash := HashPassword(password);
      LoginOutcomeSpec(db.users, username, hash);
      var row := UserNamed(db.users, username);
      if row.Some? && hash == row.value.passwordHash {
        id := Some(row.value.id);
      } else {
        id := None;
      }
    }
  }

  /** A row with a username nobody holds keeps usernames unique and is what `login` finds. */
  lemma StoreFresh(users: seq<User>, row: User)
    requires UniqueUsernames(users) && !HasUser(users, row.username)
    ensures UniqueUsernames(users + [row])
    ensures UserNamed(users + [row], row.username) == Some(row)
    ensures LoginOutcome(users + [row], row.username, row.passwordHash) == Some(row.id)
  {
    var all := users + [row];
    assert all[|users|] == row;
    assert forall i :: 0 <= i < |users| ==> all[i] == users[i];
    var found := UserNamed(all, row.username);
    var j :| 0 <= j < |all| && all[j] == found.value;
    assert j == |users|;
  }
}
