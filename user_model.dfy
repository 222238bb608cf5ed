/**
 * The user model: the lookups, `createUser`, the patch update `updateUser`,
 * `deleteUser` and `verifyCredentials`.
 *
 * bcrypt is not modelled: `hash` stands for `bcrypt.hash(password, 10)` and
 * `compare` for `bcrypt.compare(password, storedHash)`; both are parameters.
 */
module UserModel {
  import opened Common
  import opened Db

  /**
   * A user row without its password column: what `getAllUsers`,
   * `getUserById`, `createUser`, `updateUser` and `verifyCredentials` return.
   */
  datatype PublicUser = PublicUser(
    id: int, username: string, email: string, phoneNumber: string, role: string, createdAt: int, updatedAt: int)

  function Public(u: UserRow): PublicUser
  {
    PublicUser(u.id, u.username, u.email, u.phoneNumber, u.role, u.createdAt, u.updatedAt)
  }

  /** The public view does not depend on the password column, and keeps every other column. */
  lemma PublicHidesPassword(u: UserRow, v: UserRow)
    ensures Public(u) == Public(v) <==> u.(passwordHash := v.passwordHash) == v
  {
  }

  /** `getAllUsers()`: every row, without passwords. */
  function AllUsers(db: Database): (r: seq<PublicUser>)
    reads db
    ensures |r| == |db.users|
    ensures forall k :: 0 <= k < |r| ==> r[k] == Public(db.users[k])
  {
    seq(|db.users|, k requires 0 <= k < |db.users| reads db => Public(db.users[k]))
  }

  /** `getUserById(id)`: the row with the id, without its password. */
  function UserById(db: Database, id: int): (r: Option<PublicUser>)
    reads db
    ensures r.None? <==> forall u :: u in db.users ==> u.id != id
    ensures r.Some? ==> r.value.id == id && exists u :: u in db.users && Public(u) == r.value
  {
    var u := FindUser(db.users, id);
    if u.Some? then Some(Public(u.value)) else None
  }

  /** The first row whose column `key` holds `value`. */
  function FindUserBy(users: seq<UserRow>, key: UserRow -> string, value: string): (r: Option<UserRow>)
    ensures r.Some? ==> r.value in users && key(r.value) == value
    ensures r.None? <==> forall u :: u in users ==> key(u) != value
  {
    if users == [] then None
    else if key(users[0]) == value then Some(users[0])
    else FindUserBy(users[1..], key, value)
  }

  function Username(u: UserRow): string { u.username }
  function Email(u: UserRow): string { u.email }

  /** `getUserByUsername(username)`: the whole row, password included. */
  function UserByUsername(db: Database, username: string): (r: Option<UserRow>)
    reads db
    ensures r.Some? ==> r.value in db.users && r.value.username == username
    ensures r.None? <==> forall u :: u in db.users ==> u.username != username
  {
    FindUserBy(db.users, Username, username)
  }

  /** `getUserByEmail(email)`: the whole row, password included. */
  function UserByEmail(db: Database, email: string): (r: Option<UserRow>)
    reads db
    ensures r.Some? ==> r.value in db.users && r.value.email == email
    ensures r.None? <==> forall u :: u in db.users ==> u.email != email
  {
    FindUserBy(db.users, Email, email)
  }

  /** `role || 'user'` */
  function RoleOrUser(role: Option<string>): (r: string)
    ensures TruthyStr(role) ==> r == role.value
    ensures !TruthyStr(role) ==> r == USER
  {
    if TruthyStr(role) then role.value else USER
  }

  /**
   * `createUser(userData)`: stores the hash of the password, never the
   * password itself, and the role or `'user'`.
   */
  method CreateUser(db: Database, username: string, password: string, email: string, phoneNumber: string,
                    role: Option<string>, hash: string -> string, now: int) returns (r: PublicUser)
    modifies db`users, db`nextId
    ensures db.users == old(db.users) +
      [UserRow(old(db.nextId), username, hash(password), email, phoneNumber, RoleOrUser(role), now, now)]
    ensures db.nextId == old(db.nextId) + 1
    ensures r == Public(db.users[|db.users| - 1])
  {
    var id := db.FreshId();
    var row := UserRow(id, username, hash(password), email, phoneNumber, RoleOrUser(role), now, now);
    db.users := db.users + [row];
    r := Public(row);
  }

  /** One `column = $k` entry of the SET list `updateUser` builds. */
  datatype UserSet = SetEmail(email: string) | SetPhone(phone: string) | SetPassword(hash: string) | SetUpdatedAt(at: int)

  /** A row after one SET entry. */
  function ApplySet(u: UserRow, s: UserSet): UserRow
  {
    match s
    case SetEmail(e) => u.(email := e)
    case SetPhone(p) => u.(phoneNumber := p)
    case SetPassword(h) => u.(passwordHash := h)
    case SetUpdatedAt(t) => u.(updatedAt := t)
  }

  /** A row after the whole SET list, entries applied in push order. */
  function ApplySets(u: UserRow, sets: seq<UserSet>): UserRow
  {
    if sets == [] then u else ApplySet(ApplySets(u, sets[..|sets| - 1]), sets[|sets| - 1])
  }

  /**
   * The row after `updateUser`: email, phone number and password change
   * only when the new value is truthy, the password to its hash; updated_at
   * always changes.
   */
  function PatchUser(u: UserRow, email: Option<string>, phoneNumber: Option<string>, password: Option<string>,
                     hash: string -> string, now: int): (v: UserRow)
    ensures v.id == u.id && v.username == u.username && v.role == u.role && v.createdAt == u.createdAt
    ensures v.email == (if TruthyStr(email) then email.value else u.email)
    ensures v.phoneNumber == (if TruthyStr(phoneNumber) then phoneNumber.value else u.phoneNumber)
    ensures v.passwordHash == (if TruthyStr(password) then hash(password.value) else u.passwordHash)
    ensures v.updatedAt == now
  {
    u.(email := if TruthyStr(email) then email.value else u.email,
       phoneNumber := if TruthyStr(phoneNumber) then phoneNumber.value else u.phoneNumber,
       passwordHash := if TruthyStr(password) then hash(password.value) else u.passwordHash,
       updatedAt := now)
  }

  /** The SET list `updateUser` pushes, in its order. */
  method UserSets(email: Option<string>, phoneNumber: Option<string>, password: Option<string>,
                  hash: string -> string, now: int) returns (sets: seq<UserSet>)
    ensures forall u :: ApplySets(u, sets) == PatchUser(u, email, phoneNumber, password, hash, now)
    ensures |sets| >= 1 && sets[|sets| - 1] == SetUpdatedAt(now)
  {
    var s0: seq<UserSet> := [];
    var s1 := if TruthyStr(email) then Pushed(s0, SetEmail(email.value)) else s0;
    var s2 := if TruthyStr(phoneNumber) then Pushed(s1, SetPhone(phoneNumber.value)) else s1;
    var s3 := if TruthyStr(password) then Pushed(s2, SetPassword(hash(password.value))) else s2;
    sets := Pushed(s3, SetUpdatedAt(now));
    forall u: UserRow
      ensures ApplySets(u, sets) == PatchUser(u, email, phoneNumber, password, hash, now)
    {
      var u1 := if TruthyStr(email) then u.(email := email.value) else u;
      var u2 := if TruthyStr(phoneNumber) then u1.(phoneNumber := phoneNumber.value) else u1;
      var u3 := if TruthyStr(password) then u2.(passwordHash := hash(password.value)) else u2;
      assert ApplySets(u, s1) == u1;
      assert ApplySets(u, s2) == u2;
      assert ApplySets(u, s3) == u3;
    }
  }

  /** `updateFields.push(...)`: the new entry is applied after the earlier ones. */
  function Pushed(sets: seq<UserSet>, s: UserSet): (r: seq<UserSet>)
    ensures r == sets + [s]
    ensures forall u :: ApplySets(u, r) == ApplySet(ApplySets(u, sets), s)
  {
    assert (sets + [s])[..|sets|] == sets;
    sets + [s]
  }

  /** After an update in place by id, the lookup finds the patched row. */
  lemma {:induction false} UserUpdatedFound(before: seq<UserRow>, after: seq<UserRow>, userId: int,
                                            patch: UserRow -> UserRow)
    requires |after| == |before|
    requires forall k :: 0 <= k < |after| ==>
      after[k] == (if before[k].id == userId then patch(before[k]) else before[k])
    requires forall u :: patch(u).id == u.id
    ensures FindUser(before, userId).None? ==> FindUser(after, userId).None?
    ensures FindUser(before, userId).Some? ==> FindUser(after, userId) == Some(patch(FindUser(before, userId).value))
  {
    if before != [] && before[0].id != userId {
      UserUpdatedFound(before[1..], after[1..], userId, patch);
    }
  }

  /** The users table after `updateUser(userId, ...)`: the row with the id is patched. */
  function PatchedUsers(rows: seq<UserRow>, userId: int, email: Option<string>, phoneNumber: Option<string>,
                        password: Option<string>, hash: string -> string, now: int): (r: seq<UserRow>)
    ensures |r| == |rows|
  {
    seq(|rows|, k requires 0 <= k < |rows| =>
      if rows[k].id == userId then PatchUser(rows[k], email, phoneNumber, password, hash, now) else rows[k])
  }

  /** No row has the id: the update changes nothing. */
  lemma PatchedUsersMissing(rows: seq<UserRow>, userId: int, email: Option<string>, phoneNumber: Option<string>,
                            password: Option<string>, hash: string -> string, now: int)
    requires FindUser(rows, userId).None?
    ensures PatchedUsers(rows, userId, email, phoneNumber, password, hash, now) == rows
  {
    var r := PatchedUsers(rows, userId, email, phoneNumber, password, hash, now);
    forall k | 0 <= k < |rows|
      ensures r[k] == rows[k]
    {
      assert rows[k] in rows;
    }
  }

  /** `updateUser(userId, userData)`: undefined (None) when no row has the id. */
  method UpdateUser(db: Database, userId: int, email: Option<string>, phoneNumber: Option<string>,
                    password: Option<string>, hash: string -> string, now: int) returns (r: Option<PublicUser>)
    modifies db`users
    ensures db.users == PatchedUsers(old(db.users), userId, email, phoneNumber, password, hash, now)
    ensures r.None? <==> FindUser(old(db.users), userId).None?
    ensures r.Some? ==> r.value == Public(PatchUser(FindUser(old(db.users), userId).value, email, phoneNumber, password, hash, now))
  {
    var sets := UserSets(email, phoneNumber, password, hash, now);
    var rows := db.users;
    var updated := seq(|rows|, k requires 0 <= k < |rows| =>
      if rows[k].id == userId then ApplySets(rows[k], sets) else rows[k]);
    assert forall k :: 0 <= k < |rows| ==>
      updated[k] == PatchedUsers(rows, userId, email, phoneNumber, password, hash, now)[k];
    db.users := updated;
    UserUpdatedFound(rows, db.users, userId, (u: UserRow) => PatchUser(u, email, phoneNumber, password, hash, now));
    var found := FindUser(db.users, userId);
    r := if found.Some? then Some(Public(found.value)) else None;
  }

  /** The rows left after `DELETE FROM users WHERE user_id = $1`. */
  function UsersWithout(users: seq<UserRow>, userId: int): (r: seq<UserRow>)
    ensures forall u :: u in r <==> u in users && u.id != userId
  {
    Where(users, (u: UserRow) => u.id != userId)
  }

  /** `deleteUser(userId)`: removes the rows with the id and returns the first of them. */
  method DeleteUser(db: Database, userId: int) returns (r: Option<UserRow>)
    modifies db`users
    ensures db.users == UsersWithout(old(db.users), userId)
    ensures r == FindUser(old(db.users), userId)
  {
    r := FindUser(db.users, userId);
    db.users := UsersWithout(db.users, userId);
  }

  /**
   * `verifyCredentials(username, password)`: null when no row has the
   * username or the password does not match its hash; otherwise the row
   * without its password.
   */
  function VerifyCredentials(db: Database, username: string, password: string,
                             compare: (string, string) -> bool): (r: Option<PublicUser>)
    reads db
    ensures r.None? <==> UserByUsername(db, username).None? ||
                         !compare(password, UserByUsername(db, username).value.passwordHash)
    ensures r.Some? ==> r.value.username == username &&
                        exists u :: u in db.users && u.username == username && compare(password, u.passwordHash) &&
                                    Public(u) == r.value
  {
    var user := UserByUsername(db, username);
    if user.None? then None
    else if !compare(password, user.value.passwordHash) then None
    else Some(Public(user.value))
  }

  /** A lookup on rows with one more row at the end finds it when no earlier row matches. */
  lemma {:induction false} FindUserByAppend(users: seq<UserRow>, row: UserRow, key: UserRow -> string)
    requires forall u :: u in users ==> key(u) != key(row)
    ensures FindUserBy(users + [row], key, key(row)) == Some(row)
  {
    if users != [] {
      assert (users + [row])[1..] == users[1..] + [row];
      FindUserByAppend(users[1..], row, key);
    }
  }

  /**
   * A user appended under a username nobody had can log in with the password
   * whose hash was stored, when `compare` accepts a password against its own
   * hash.
   */
  lemma RegisteredCanLogIn(db: Database, before: seq<UserRow>, row: UserRow, password: string,
                           hash: string -> string, compare: (string, string) -> bool)
    requires db.users == before + [row]
    requires forall u :: u in before ==> u.username != row.username
    requires row.passwordHash == hash(password) && compare(password, hash(password))
    ensures VerifyCredentials(db, row.username, password, compare) == Some(Public(row))
  {
    FindUserByAppend(before, row, Username);
  }
}
