/**
 * DAOs/UserDAO.cs over an in-memory `[users]` table.  E-mail addresses are stored
 * lower-cased and trimmed, and every lookup normalises the address it is given the
 * same way; the password is stored only as the hex digest of `PasswordUtil`.
 * The digest (SHA-256) is a parameter of the store; `DateTime`s are `int` instants.
 */
module UserDao {
  import opened Wrappers
  import opened Text
  import opened Tables
  import opened PasswordUtil
  import opened UserModel

  datatype UserRow = UserRow(
    id: int,
    email: string,
    passwordHash: Option<string>,
    fullName: string,
    phone: Option<string>,
    role: Option<string>,
    createdAt: int,
    rememberToken: Option<string>,
    tokenExpiry: Option<int>)

  function UserId(r: UserRow): int { r.id }

  /** How `insert` and every lookup write an address: `email.ToLower().Trim()`. */
  function EmailKey(email: string): string {
    Trim(ToLower(email))
  }

  /** `WHERE email = ?` */
  function WithEmail(email: string): UserRow -> bool {
    (r: UserRow) => r.email == email
  }

  /** `WHERE remember_token = ? AND token_expiry > ?`; a null token matches no row. */
  function WithLiveToken(token: Option<string>, now: int): UserRow -> bool {
    (r: UserRow) => token.Some? && r.rememberToken == token && r.tokenExpiry.Some? && r.tokenExpiry.value > now
  }

  /** The private `sanitizeString`: trimmed, "" for null. */
  function Sanitize(s: Option<string>): (r: string)
    ensures s.None? ==> r == ""
    ensures s.Some? ==> |r| <= |s.value|
  {
    if s.None? then "" else Trim(s.value)
  }

  /** `SET full_name = ?, phone = ?, role = ?` */
  function WithProfile(fullName: string, phone: string, role: string): UserRow -> UserRow {
    (r: UserRow) => r.(fullName := fullName, phone := Some(phone), role := Some(role))
  }

  /** `SET password_hash = ?` */
  function WithHash(hash: Option<string>): UserRow -> UserRow {
    (r: UserRow) => r.(passwordHash := hash)
  }

  /** `SET role = ?` */
  function WithRole(role: Option<string>): UserRow -> UserRow {
    (r: UserRow) => r.(role := role)
  }

  /** `SET remember_token = ?, token_expiry = ?` (both null to clear). */
  function WithToken(token: Option<string>, expiry: Option<int>): UserRow -> UserRow {
    (r: UserRow) => r.(rememberToken := token, tokenExpiry := expiry)
  }

  /**
   * `verifyLogin` on a table: the first row with the normalised address, provided the
   * password checks against its stored hash (a null column reads as "").
   */
  function Login(digest: Digest, rows: seq<UserRow>, email: string, password: Option<string>): (r: Option<UserRow>)
    ensures r.Some? ==> r.value.email == EmailKey(email) && exists i :: 0 <= i < |rows| && rows[i] == r.value
    ensures r.Some? ==> CheckPassword(digest, password, Some(r.value.passwordHash.GetOr("")))
  {
    var found := First(rows, WithEmail(EmailKey(email)));
    if found.Some? && CheckPassword(digest, password, Some(found.value.passwordHash.GetOr(""))) then found
    else None
  }

  /** `mapResultSetToUser`: a fresh `User` without its password hash. */
  method MapUser(r: UserRow) returns (u: User)
    ensures fresh(u)
    ensures u.userId == r.id
    ensures u.email == NormalizeEmail(Some(r.email))
    ensures u.passwordHash.None? && u.GetPassword().None?
    ensures u.fullName == TrimOrNull(Some(r.fullName))
    ensures u.phone == TrimOrNull(Some(r.phone.GetOr("")))
    ensures u.role == Trim(r.role.GetOr(UserRole))
    ensures u.createdAt == Some(r.createdAt)
    ensures u.rememberToken == r.rememberToken && u.tokenExpiry == r.tokenExpiry
  {
    u := new User();
    u.userId := r.id;
    MapUserText(u, r);
    u.createdAt, u.rememberToken, u.tokenExpiry := Some(r.createdAt), r.rememberToken, r.tokenExpiry;
  }

  /** The text columns of `mapResultSetToUser`, each through its setter; the hash is left null. */
  method MapUserText(u: User, r: UserRow)
    modifies u`email, u`passwordHash, u`fullName, u`phone, u`role
    ensures u.email == NormalizeEmail(Some(r.email))
    ensures u.passwordHash.None?
    ensures u.fullName == TrimOrNull(Some(r.fullName))
    ensures u.phone == TrimOrNull(Some(r.phone.GetOr("")))
    ensures u.role == Trim(r.role.GetOr(UserRole))
  {
    u.SetEmail(Some(r.email));
    u.SetPassword(None);
    u.SetFullName(Some(r.fullName));
    u.SetPhone(Some(r.phone.GetOr("")));
    u.SetRole(Some(r.role.GetOr(UserRole)));
  }

  /** The `[users]` table, with the digest `PasswordUtil` hashes with. */
  class UserStore {
    const digest: Digest
    var rows: seq<UserRow>
    var nextId: int

    ghost predicate Valid()
      reads this
    {
      WellKeyed(rows, UserId, nextId)
    }

    constructor (digest: Digest)
      ensures Valid() && rows == [] && this.digest == digest
    {
      this.digest := digest;
      rows := [];
      nextId := 1;
    }

    /**
     * `insert`: one new row with the normalised address, the trimmed name, an empty
     * phone as null, and no remember token.  The address must not be null (the source
     * dereferences it).
     */
    method Insert(user: User, now: int) returns (ok: bool)
      requires Valid() && user.email.Some?
      modifies this`rows, this`nextId
      ensures Valid() && ok
      ensures !HasKey(old(rows), UserId, old(nextId))
      ensures rows == old(rows) + [UserRow(old(nextId), EmailKey(user.email.value), user.passwordHash,
        Sanitize(user.fullName), if Sanitize(user.phone) == "" then None else Some(Sanitize(user.phone)),
        Some(user.role), now, None, None)]
    {
      var phone := Sanitize(user.phone);
      var row := UserRow(nextId, EmailKey(user.email.value), user.GetHashedPassword(),
        Sanitize(user.fullName), if phone == "" then None else Some(phone), Some(user.role), now, None, None);
      AppendWellKeyed(rows, UserId, nextId, row);
      rows := rows + [row];
      nextId := nextId + 1;
      ok := true;
    }

    /** `register`: hash the password onto the user, then `insert` it. */
    method Register(user: User, plainPassword: Option<string>, now: int) returns (ok: bool)
      requires Valid() && user.email.Some?
      modifies this`rows, this`nextId, user`passwordHash
      ensures Valid() && ok
      ensures user.passwordHash == (if plainPassword.None? then None else Some(Hash(digest, plainPassword.value)))
      ensures rows == old(rows) + [UserRow(old(nextId), EmailKey(user.email.value), user.passwordHash,
        Sanitize(user.fullName), if Sanitize(user.phone) == "" then None else Some(Sanitize(user.phone)),
        Some(user.role), now, None, None)]
    {
      var hashed := HashPassword(digest, plainPassword);
      user.SetPassword(hashed);
      ok := Insert(user, now);
    }

    /** `emailExists`: `COUNT(*)` of rows with the normalised address is positive. */
    method EmailExists(email: string) returns (b: bool)
      ensures b <==> exists i :: 0 <= i < |rows| && rows[i].email == EmailKey(email)
    {
      FilterNonEmpty(rows, WithEmail(EmailKey(email)));
      b := |Filter(rows, WithEmail(EmailKey(email)))| > 0;
    }

    /** `findByEmail`. */
    method FindByEmail(email: string) returns (u: User?)
      ensures u == null <==> !exists i :: 0 <= i < |rows| && rows[i].email == EmailKey(email)
      ensures u != null ==> fresh(u) && u.passwordHash.None?
      ensures u != null ==> exists i :: 0 <= i < |rows| && rows[i].email == EmailKey(email) && u.userId == rows[i].id
    {
      var found := First(rows, WithEmail(EmailKey(email)));
      if found.None? {
        return null;
      }
      u := MapUser(found.value);
    }

    /** `findById`. */
    method FindById(id: int) returns (u: User?)
      ensures u == null <==> !HasKey(rows, UserId, id)
      ensures u != null ==> fresh(u) && u.userId == id && u.passwordHash.None?
      ensures u != null ==> u.email == NormalizeEmail(Some(FindKey(rows, UserId, id).value.email))
    {
      var found := FindKey(rows, UserId, id);
      if found.None? {
        return null;
      }
      u := MapUser(found.value);
    }

    /** `verifyLogin`: the user when the address is known and the password checks, else null. */
    method VerifyLogin(email: string, password: Option<string>) returns (u: User?)
      ensures u == null <==> Login(digest, rows, email, password).None?
      ensures u != null ==> fresh(u) && u.userId == Login(digest, rows, email, password).value.id
      ensures u != null ==> u.passwordHash.None?
      ensures u != null ==> u.role == Trim(Login(digest, rows, email, password).value.role.GetOr(UserRole))
    {
      var found := Login(digest, rows, email, password);
      if found.None? {
        return null;
      }
      u := MapUser(found.value);
    }

    /** `update`: name, phone and role of that row, nothing else; true iff the row exists. */
    method Update(user: User) returns (ok: bool)
      requires Valid()
      modifies this`rows
      ensures Valid()
      ensures ok == HasKey(old(rows), UserId, user.userId)
      ensures rows == UpdateKey(old(rows), UserId, user.userId,
        WithProfile(Sanitize(user.fullName), Sanitize(user.phone), user.role))
    {
      ok := FindKey(rows, UserId, user.userId).Some?;
      rows := UpdateKey(rows, UserId, user.userId, WithProfile(Sanitize(user.fullName), Sanitize(user.phone), user.role));
    }

    /** `updatePassword`: only the hash of that row changes. */
    method UpdatePassword(userId: int, newPlainPassword: Option<string>) returns (ok: bool)
      requires Valid()
      modifies this`rows
      ensures Valid()
      ensures ok == HasKey(old(rows), UserId, userId)
      ensures rows == UpdateKey(old(rows), UserId, userId,
        WithHash(if newPlainPassword.None? then None else Some(Hash(digest, newPlainPassword.value))))
    {
      var hashed := HashPassword(digest, newPlainPassword);
      ok := FindKey(rows, UserId, userId).Some?;
      rows := UpdateKey(rows, UserId, userId, WithHash(hashed));
    }

    /** `updateRole`: only the role of that row changes. */
    method UpdateRole(userId: int, role: Option<string>) returns (ok: bool)
      requires Valid()
      modifies this`rows
      ensures Valid()
      ensures ok == HasKey(old(rows), UserId, userId)
      ensures rows == UpdateKey(old(rows), UserId, userId, WithRole(role))
    {
      ok := FindKey(rows, UserId, userId).Some?;
      rows := UpdateKey(rows, UserId, userId, WithRole(role));
    }

    /** `delete`. */
    method Delete(userId: int) returns (ok: bool)
      requires Valid()
      modifies this`rows
      ensures Valid()
      ensures ok == HasKey(old(rows), UserId, userId)
      ensures rows == DeleteKey(old(rows), UserId, userId)
    {
      ok := FindKey(rows, UserId, userId).Some?;
      DeleteKeyIncreasing(rows, UserId, userId);
      rows := DeleteKey(rows, UserId, userId);
    }

    /** `updateRememberToken`. */
    method UpdateRememberToken(userId: int, token: Option<string>, expiry: int) returns (ok: bool)
      requires Valid()
      modifies this`rows
      ensures Valid()
      ensures ok == HasKey(old(rows), UserId, userId)
      ensures rows == UpdateKey(old(rows), UserId, userId, WithToken(token, Some(expiry)))
    {
      ok := FindKey(rows, UserId, userId).Some?;
      rows := UpdateKey(rows, UserId, userId, WithToken(token, Some(expiry)));
    }

    /** `clearRememberToken` (logout). */
    method ClearRememberToken(userId: int) returns (ok: bool)
      requires Valid()
      modifies this`rows
      ensures Valid()
      ensures ok == HasKey(old(rows), UserId, userId)
      ensures rows == UpdateKey(old(rows), UserId, userId, WithToken(None, None))
    {
      ok := FindKey(rows, UserId, userId).Some?;
      rows := UpdateKey(rows, UserId, userId, WithToken(None, None));
    }

    /** `findByRememberToken`: a user whose token matches and has not expired at `now`. */
    method FindByRememberToken(token: Option<string>, now: int) returns (u: User?)
      ensures u == null <==> First(rows, WithLiveToken(token, now)).None?
      ensures u != null ==> fresh(u) && u.rememberToken == token && token.Some?
      ensures u != null ==> u.tokenExpiry.Some? && u.tokenExpiry.value > now
      ensures u != null ==> u.userId == First(rows, WithLiveToken(token, now)).value.id
    {
      var found := First(rows, WithLiveToken(token, now));
      if found.None? {
        return null;
      }
      u := MapUser(found.value);
    }
  }

  /** Lookups normalise the address exactly as `User.setEmail` does. */
  lemma EmailKeyIsNormalizeEmail(email: string)
    ensures NormalizeEmail(Some(email)) == Some(EmailKey(email))
  {
    TrimToLower(email);
  }

  /**
   * `register` followed by `verifyLogin` with the same address (in any spelling that
   * normalises alike) and the same password finds the new user, provided the address
   * was not taken.
   */
  lemma LoginAfterRegister(digest: Digest, rows: seq<UserRow>, row: UserRow, email: string, password: string)
    requires row.email == EmailKey(email) && row.passwordHash == Some(Hash(digest, password))
    requires forall i :: 0 <= i < |rows| ==> rows[i].email != EmailKey(email)
    ensures Login(digest, rows + [row], email, Some(password)) == Some(row)
  {
    var all := rows + [row];
    FilterAppend(rows, [row], WithEmail(EmailKey(email)));
    FilterNone(rows, WithEmail(EmailKey(email)));
    assert Filter([row], WithEmail(EmailKey(email))) == [row];
    CheckPasswordOfHash(digest, password);
  }

  /**
   * A wrong password never logs in: with a 32-byte digest the stored hash must be the
   * hash of what is typed, so a row whose hash column is null (read as "") never matches.
   */
  lemma LoginNeedsPassword(digest: Digest, rows: seq<UserRow>, email: string, password: string)
    requires Is256(digest)
    requires Login(digest, rows, email, Some(password)).Some?
    ensures Login(digest, rows, email, Some(password)).value.passwordHash == Some(Hash(digest, password))
  {
    HashShape(digest, password);
  }

  /** After `clearRememberToken(id)` no token, live or not, finds that user. */
  lemma ClearedTokenNotFound(rows: seq<UserRow>, userId: int, token: Option<string>, now: int)
    ensures var found := First(UpdateKey(rows, UserId, userId, WithToken(None, None)), WithLiveToken(token, now));
      found.Some? ==> found.value.id != userId
  {
  }

  /** After `updateRememberToken(id, t, e)` with e after `now`, looking up t finds a user. */
  lemma SetTokenFound(rows: seq<UserRow>, userId: int, token: string, expiry: int, now: int)
    requires HasKey(rows, UserId, userId) && expiry > now
    ensures First(UpdateKey(rows, UserId, userId, WithToken(Some(token), Some(expiry))),
      WithLiveToken(Some(token), now)).Some?
  {
    var after := UpdateKey(rows, UserId, userId, WithToken(Some(token), Some(expiry)));
    var k :| 0 <= k < |rows| && UserId(rows[k]) == userId;
    assert WithLiveToken(Some(token), now)(after[k]);
  }

  /** A token is only honoured before its expiry. */
  lemma ExpiredTokenNotFound(rows: seq<UserRow>, token: Option<string>, now: int)
    requires forall i :: 0 <= i < |rows| && rows[i].tokenExpiry.Some? ==> rows[i].tokenExpiry.value <= now
    ensures First(rows, WithLiveToken(token, now)).None?
  {
  }
}
