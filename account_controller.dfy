/**
 * Controllers/AccountController.cs: sign-in with a per-client lockout, registration,
 * password change and sign-out.  The lockout table is process-wide; clock readings
 * (`DateTimeOffset.UtcNow` in milliseconds) are the parameter `now`, the client's
 * network address and the request's cookie and header values are parameters, and the
 * random remember-me token is a parameter too.  Session writes and view data are
 * summarised by the result each action returns.
 */
module AccountController {
  import opened Wrappers
  import opened Text
  import opened Tables
  import opened ValidationUtil
  import opened PasswordUtil
  import opened UserModel
  import opened UserDao

  const MaxLoginAttempts: int := 5
  /** Seconds. */
  const LockoutTime: int := 15 * 60
  const LockoutMillis: int := LockoutTime * 1000
  /** A remember-me token lives seven days. */
  const RememberMillis: int := 7 * 24 * 60 * 60 * 1000

  // ------------------------------------------------------------------ LoginAttempt

  /** `LoginAttempt`: the failures counted for one client and when the last one was counted. */
  datatype Attempt = Attempt(count: int, lastAttempt: int) {
    /** `increment`: one more failure, counted now. */
    function Increment(now: int): (r: Attempt)
      ensures r.count == count + 1 && r.lastAttempt == now
    {
      Attempt(count + 1, now)
    }

    /** `isLocked`: five or more failures, the last one less than 15 minutes ago. */
    predicate IsLocked(now: int) {
      count >= MaxLoginAttempts && now < lastAttempt + LockoutMillis
    }

    /** `getRemainingAttempts`: max(0, 5 - count). */
    function RemainingAttempts(): (r: int)
      ensures 0 <= r && MaxLoginAttempts - count <= r
      ensures r == 0 <==> count >= MaxLoginAttempts
      ensures count >= 0 ==> r <= MaxLoginAttempts
    {
      if MaxLoginAttempts - count > 0 then MaxLoginAttempts - count else 0
    }

    /**
     * The seconds the lockout message shows: the milliseconds left, divided by 1000
     * and truncated (the value is positive, so C#'s division and Dafny's agree).
     */
    function RemainingSeconds(now: int): (r: int)
      requires IsLocked(now)
      ensures 0 <= r
      ensures now >= lastAttempt ==> r <= LockoutTime
      ensures r * 1000 <= lastAttempt + LockoutMillis - now < (r + 1) * 1000
    {
      (lastAttempt + LockoutMillis - now) / 1000
    }
  }

  /** `new LoginAttempt()`: no failures yet, stamped now. */
  function FreshAttempt(now: int): (r: Attempt)
    ensures r.count == 0 && !r.IsLocked(now)
  {
    Attempt(0, now)
  }

  /** The record `TryGetValue` finds for a client, or the one the POST creates for it. */
  function Current(attempts: map<string, Attempt>, client: string, now: int): Attempt {
    if client in attempts then attempts[client] else FreshAttempt(now)
  }

  /** A client with a record that is locked. */
  predicate IsLockedOut(attempts: map<string, Attempt>, client: string, now: int) {
    client in attempts && attempts[client].IsLocked(now)
  }

  /** The table after a failed POST that was not locked out: that client's record counts one more. */
  function AfterFailure(attempts: map<string, Attempt>, client: string, now: int): (r: map<string, Attempt>)
    ensures client in r && r[client].count == Current(attempts, client, now).count + 1
    ensures r[client].lastAttempt == now
    ensures forall c :: c != client ==> (c in r <==> c in attempts)
    ensures forall c :: c != client && c in attempts ==> r[c] == attempts[c]
  {
    attempts[client := Current(attempts, client, now).Increment(now)]
  }

  /** The lockout table (`loginAttempts`). */
  class LoginGuard {
    var attempts: map<string, Attempt>

    constructor ()
      ensures attempts == map[]
    {
      attempts := map[];
    }

    /** The POST's `TryGetValue`, storing a fresh record when there is none. */
    method Record(client: string, now: int) returns (a: Attempt)
      modifies this
      ensures a == Current(old(attempts), client, now)
      ensures attempts == old(attempts)[client := a]
    {
      if client in attempts {
        a := attempts[client];
      } else {
        a := FreshAttempt(now);
        attempts := attempts[client := a];
      }
    }

    /** `attempt.increment()` on the stored record. */
    method CountFailure(client: string, now: int)
      requires client in attempts
      modifies this
      ensures attempts == old(attempts)[client := old(attempts)[client].Increment(now)]
    {
      attempts := attempts[client := attempts[client].Increment(now)];
    }

    /** `loginAttempts.Remove(clientIP)`. */
    method Forget(client: string)
      modifies this
      ensures attempts == old(attempts) - {client}
    {
      attempts := attempts - {client};
    }
  }

  // ------------------------------------------------------------------ getClientIP

  /**
   * `getClientIP`: the first comma-separated entry of X-Forwarded-For, trimmed, when
   * the header is non-empty; otherwise the peer address, or "unknown" without one.
   */
  function ClientIp(forwardedFor: Option<string>, remoteAddress: Option<string>): (r: string)
    ensures IsNullOrEmpty(forwardedFor) ==> r == remoteAddress.GetOr("unknown")
  {
    if !IsNullOrEmpty(forwardedFor) then Trim(FirstField(forwardedFor.value, ','))
    else remoteAddress.GetOr("unknown")
  }

  /** Trimming keeps only characters of the original. */
  lemma TrimWithin(s: string, c: char)
    requires c !in s
    ensures c !in Trim(s)
  {
    TrimStartIsSuffix(s);
    var t := TrimStart(s);
    assert t == s[|s| - |t|..];
    assert c !in t;
  }

  /** A key taken from the header is one entry: it holds no comma and no surrounding white space. */
  lemma ClientIpFromHeader(forwardedFor: string, remoteAddress: Option<string>)
    requires forwardedFor != ""
    ensures var r := ClientIp(Some(forwardedFor), remoteAddress);
      ',' !in r && Trim(r) == r
    ensures ClientIp(Some(forwardedFor), remoteAddress) == Trim(FirstField(forwardedFor, ','))
  {
    var f := FirstField(forwardedFor, ',');
    TrimWithin(f, ',');
    TrimIdempotent(f);
  }

  // ------------------------------------------------------------------ Login

  /** What the sign-in POST does, besides the lockout table. */
  datatype LoginResult =
    | LockedOut(seconds: int)
    | MissingCredentials
    | Rejected
    | SignedIn(userId: int, toAdmin: bool)

  /**
   * The credential part of POST `Login`: an empty e-mail or password is refused before
   * any lookup; otherwise `verifyLogin` runs on the trimmed, lower-cased address and a
   * user whose role spells ADMIN in any case goes to the administration pages.
   */
  function Outcome(digest: Digest, rows: seq<UserRow>, email: Option<string>, password: Option<string>): (r: LoginResult)
    ensures r.MissingCredentials? <==> IsNullOrEmpty(email) || IsNullOrEmpty(password)
    ensures r.SignedIn? ==>
      var found := Login(digest, rows, ToLower(Trim(email.value)), password);
      && found.Some? && found.value.id == r.userId
      && found.value.email == EmailKey(email.value)
      && CheckPassword(digest, password, Some(found.value.passwordHash.GetOr("")))
      && (r.toAdmin <==> EqualsIgnoreCase(AdminRole, Trim(found.value.role.GetOr(UserRole))))
    ensures r.Rejected? <==>
      !IsNullOrEmpty(email) && !IsNullOrEmpty(password) && Login(digest, rows, ToLower(Trim(email.value)), password).None?
    ensures !r.LockedOut?
  {
    if IsNullOrEmpty(email) || IsNullOrEmpty(password) then MissingCredentials
    else
      var found := Login(digest, rows, ToLower(Trim(email.value)), password);
      if found.None? then Rejected
      else
        assert EmailKey(ToLower(Trim(email.value))) == EmailKey(email.value) by {
          TrimToLower(email.value);
          TrimIdempotent(email.value);
          ToLowerIdempotent(Trim(email.value));
          TrimToLower(Trim(email.value));
        }
        SignedIn(found.value.id, EqualsIgnoreCase(AdminRole, Trim(found.value.role.GetOr(UserRole))))
  }

  /** The credential check with its remember-me side effect; the lockout table is not touched. */
  method Authenticate(users: UserStore, email: Option<string>, password: Option<string>,
                      remember: Option<string>, token: string, now: int)
    returns (result: LoginResult)
    requires users.Valid()
    modifies users`rows
    ensures users.Valid()
    ensures result == Outcome(users.digest, old(users.rows), email, password)
    ensures result.SignedIn? && remember == Some("on") ==>
      users.rows == UpdateKey(old(users.rows), UserId, result.userId, WithToken(Some(token), Some(now + RememberMillis)))
    ensures !(result.SignedIn? && remember == Some("on")) ==> users.rows == old(users.rows)
  {
    if IsNullOrEmpty(email) || IsNullOrEmpty(password) {
      return MissingCredentials;
    }
    var user := users.VerifyLogin(ToLower(Trim(email.value)), password);
    if user == null {
      return Rejected;
    }
    if remember == Some("on") {
      var _ := users.UpdateRememberToken(user.userId, Some(token), now + RememberMillis);
    }
    result := SignedIn(user.userId, EqualsIgnoreCase(AdminRole, user.role));
  }

  /**
   * POST `Login`.  The client's record is created if missing; a locked client is
   * turned away before anything else and its record is left as it is; an empty e-mail
   * or password and a failed check each count one failure; a success drops the record
   * and, with `remember == "on"`, stores `token` as the user's remember-me token for
   * seven days.  The exception handler of the source is not reached by this model.
   */
  method LoginPost(guard: LoginGuard, users: UserStore, client: string, email: Option<string>,
                   password: Option<string>, remember: Option<string>, token: string, now: int)
    returns (result: LoginResult)
    requires users.Valid()
    modifies guard, users`rows
    ensures users.Valid()
    ensures var a := Current(old(guard.attempts), client, now);
      a.IsLocked(now) ==>
        && result == LockedOut(a.RemainingSeconds(now))
        && guard.attempts == old(guard.attempts)[client := a]
        && users.rows == old(users.rows)
    ensures !Current(old(guard.attempts), client, now).IsLocked(now) ==>
      && result == Outcome(users.digest, old(users.rows), email, password)
      && guard.attempts == (if result.SignedIn? then old(guard.attempts) - {client}
                            else AfterFailure(old(guard.attempts), client, now))
    ensures result.SignedIn? && remember == Some("on") ==>
      users.rows == UpdateKey(old(users.rows), UserId, result.userId, WithToken(Some(token), Some(now + RememberMillis)))
    ensures !(result.SignedIn? && remember == Some("on")) ==> users.rows == old(users.rows)
  {
    var attempt := guard.Record(client, now);
    if attempt.IsLocked(now) {
      return LockedOut(attempt.RemainingSeconds(now));
    }
    ghost var before := old(guard.attempts);
    result := Authenticate(users, email, password, remember, token, now);
    Settle(guard, before, client, result.SignedIn?, now);
  }

  /**
   * The end of an unlocked POST `Login`, once its record exists: a success removes the
   * record, a failure counts one more.
   */
  method Settle(guard: LoginGuard, ghost before: map<string, Attempt>, client: string, signedIn: bool, now: int)
    requires guard.attempts == before[client := Current(before, client, now)]
    modifies guard
    ensures guard.attempts == (if signedIn then before - {client} else AfterFailure(before, client, now))
  {
    ghost var a := Current(before, client, now);
    if signedIn {
      guard.Forget(client);
      assert before[client := a] - {client} == before - {client};
    } else {
      guard.CountFailure(client, now);
      assert before[client := a][client := a.Increment(now)] == AfterFailure(before, client, now);
    }
  }

  /** What GET `Login` shows. */
  datatype LoginPageResult =
    | AlreadySignedIn
    | AutoSignedIn(userId: int)
    | Form(lockedForSeconds: Option<int>)

  /**
   * GET `Login`: a signed-in session goes home; a live remember-me cookie signs its
   * user in; otherwise the form, with the lockout message when the client is locked.
   * The lockout table is only read.
   */
  method LoginPage(guard: LoginGuard, users: UserStore, sessionUser: Option<int>, cookie: Option<string>,
                   client: string, now: int)
    returns (result: LoginPageResult)
    ensures sessionUser.Some? ==> result == AlreadySignedIn
    ensures var live := First(users.rows, WithLiveToken(cookie, now));
      sessionUser.None? && !IsNullOrEmpty(cookie) && live.Some? ==> result == AutoSignedIn(live.value.id)
    ensures var live := First(users.rows, WithLiveToken(cookie, now));
      sessionUser.None? && (IsNullOrEmpty(cookie) || live.None?) ==>
        result == Form(if IsLockedOut(guard.attempts, client, now)
                       then Some(guard.attempts[client].RemainingSeconds(now)) else None)
  {
    if sessionUser.Some? {
      return AlreadySignedIn;
    }
    if !IsNullOrEmpty(cookie) {
      var user := users.FindByRememberToken(cookie, now);
      if user != null {
        return AutoSignedIn(user.userId);
      }
    }
    if client in guard.attempts && guard.attempts[client].IsLocked(now) {
      var attempt := guard.attempts[client];
      return Form(Some(attempt.RemainingSeconds(now)));
    }
    result := Form(None);
  }

  /** GET `Logout`: the signed-in user's remember-me token is cleared. */
  method Logout(users: UserStore, sessionUser: Option<int>)
    requires users.Valid()
    modifies users`rows
    ensures users.Valid()
    ensures sessionUser.None? ==> users.rows == old(users.rows)
    ensures sessionUser.Some? ==> users.rows == UpdateKey(old(users.rows), UserId, sessionUser.value, WithToken(None, None))
  {
    if sessionUser.Some? {
      var _ := users.ClearRememberToken(sessionUser.value);
    }
  }

  // ------------------------------------------------------------------ lockout properties

  /** A failed request at `now`, as the POST treats it: ignored while locked, counted otherwise. */
  function FailedRequest(a: Attempt, now: int): (r: Attempt)
    ensures a.IsLocked(now) ==> r == a
    ensures !a.IsLocked(now) ==> r.count == a.count + 1 && r.lastAttempt == now
  {
    if a.IsLocked(now) then a else a.Increment(now)
  }

  /** A run of failed requests at the given times. */
  function FailedRequests(a: Attempt, times: seq<int>): Attempt
    decreases |times|
  {
    if times == [] then a else FailedRequests(FailedRequest(a, times[0]), times[1..])
  }

  /** Below five failures a client is never locked, so each of its failures is counted. */
  lemma {:induction false} FailuresCounted(a: Attempt, times: seq<int>)
    requires 0 <= a.count && a.count + |times| <= MaxLoginAttempts
    decreases |times|
    ensures FailedRequests(a, times).count == a.count + |times|
    ensures times != [] ==> FailedRequests(a, times).lastAttempt == times[|times| - 1]
  {
    if times != [] {
      var b := FailedRequest(a, times[0]);
      assert !a.IsLocked(times[0]);
      FailuresCounted(b, times[1..]);
      if times[1..] == [] {
        assert FailedRequests(b, times[1..]) == b;
      } else {
        assert times[1..][|times[1..]| - 1] == times[|times| - 1];
      }
    }
  }

  /** Five failed requests on a fresh record lock the client from the fifth on, for the full window. */
  lemma FiveFailuresLock(now: int, times: seq<int>, t: int)
    requires |times| == MaxLoginAttempts
    requires times[MaxLoginAttempts - 1] <= t < times[MaxLoginAttempts - 1] + LockoutMillis
    ensures FailedRequests(FreshAttempt(now), times).IsLocked(t)
  {
    FailuresCounted(FreshAttempt(now), times);
  }

  /** With fewer than five counted failures a client is never locked. */
  lemma FewFailuresNeverLock(a: Attempt, now: int)
    requires a.count < MaxLoginAttempts
    ensures !a.IsLocked(now)
    ensures a.RemainingAttempts() > 0
  {
  }

  /** A request while locked changes nothing, however often it is repeated. */
  lemma {:induction false} LockedRequestsIgnored(a: Attempt, times: seq<int>)
    requires forall i :: 0 <= i < |times| ==> a.IsLocked(times[i])
    ensures FailedRequests(a, times) == a
  {
    if times != [] {
      assert a.IsLocked(times[0]);
      LockedRequestsIgnored(a, times[1..]);
    }
  }

  /**
   * The count is never reset when the window passes: once it has, the next failure
   * locks the client again for a full 15 minutes.
   */
  lemma RelockAfterExpiry(a: Attempt, now: int)
    requires a.count >= MaxLoginAttempts && !a.IsLocked(now)
    ensures FailedRequest(a, now).IsLocked(now)
    ensures FailedRequest(a, now).RemainingSeconds(now) == LockoutTime
  {
  }

  /** After a successful sign-in the next failure starts again from a fresh record. */
  lemma FailureAfterSuccess(attempts: map<string, Attempt>, client: string, now: int)
    ensures AfterFailure(attempts - {client}, client, now)[client] == Attempt(1, now)
  {
  }

  // ------------------------------------------------------------------ Register

  /** The checks POST `Register` reports, in the order of its messages. */
  datatype RegisterError = BadName | BadEmail | BadPhone | ShortPassword | PasswordMismatch

  /** The full name, trimmed, must have 2 to 100 characters. */
  predicate NameAccepted(fullName: Option<string>) {
    var name := TrimOrNull(fullName);
    !IsNullOrEmpty(name) && 2 <= |name.value| <= 100
  }

  /** The phone, trimmed, may be empty; otherwise it must be a valid phone number. */
  predicate PhoneAccepted(phone: Option<string>) {
    var p := TrimOrNull(phone);
    IsNullOrEmpty(p) || IsValidPhone(p)
  }

  /** Whether check `e` fails on these inputs. */
  predicate Violates(e: RegisterError, fullName: Option<string>, email: Option<string>, phone: Option<string>,
                     password: Option<string>, confirmPassword: Option<string>) {
    match e
    case BadName => !NameAccepted(fullName)
    case BadEmail => !IsValidEmail(TrimOrNull(email))
    case BadPhone => !PhoneAccepted(phone)
    case ShortPassword => IsNullOrEmpty(password) || |password.value| < 8
    case PasswordMismatch => password != confirmPassword
  }

  /** Every check of POST `Register`, in the order it runs them. */
  const RegisterChecks: seq<RegisterError> := [BadName, BadEmail, BadPhone, ShortPassword, PasswordMismatch]

  lemma ChecksComplete()
    ensures forall e: RegisterError :: e in RegisterChecks
    ensures Distinct(RegisterChecks)
  {
    forall e: RegisterError ensures e in RegisterChecks {
      match e
      case BadName => assert RegisterChecks[0] == e;
      case BadEmail => assert RegisterChecks[1] == e;
      case BadPhone => assert RegisterChecks[2] == e;
      case ShortPassword => assert RegisterChecks[3] == e;
      case PasswordMismatch => assert RegisterChecks[4] == e;
    }
  }

  /**
   * The errors of POST `Register`: each failing check appends its message, so the
   * report is the failing checks in the order they run, each once.
   */
  function RegisterErrors(fullName: Option<string>, email: Option<string>, phone: Option<string>,
                          password: Option<string>, confirmPassword: Option<string>): (r: seq<RegisterError>)
    ensures forall e :: e in r <==> Violates(e, fullName, email, phone, password, confirmPassword)
    ensures Distinct(r)
  {
    var p := (e: RegisterError) => Violates(e, fullName, email, phone, password, confirmPassword);
    ChecksComplete();
    FilterMembers(RegisterChecks, p);
    FilterDistinct(RegisterChecks, p);
    Filter(RegisterChecks, p)
  }

  /** The inputs pass every check exactly when no error is reported. */
  lemma RegisterAccepted(fullName: Option<string>, email: Option<string>, phone: Option<string>,
                         password: Option<string>, confirmPassword: Option<string>)
    ensures RegisterErrors(fullName, email, phone, password, confirmPassword) == [] <==>
      && NameAccepted(fullName)
      && IsValidEmail(TrimOrNull(email))
      && PhoneAccepted(phone)
      && password.Some? && |password.value| >= 8
      && password == confirmPassword
  {
    var r := RegisterErrors(fullName, email, phone, password, confirmPassword);
    NoViolation(fullName, email, phone, password, confirmPassword);
    if r != [] {
      assert r[0] in r;
    } else {
      forall e: RegisterError ensures !Violates(e, fullName, email, phone, password, confirmPassword) {
        assert e !in r;
      }
    }
  }

  /** No check fails exactly when the inputs meet all five conditions. */
  lemma NoViolation(fullName: Option<string>, email: Option<string>, phone: Option<string>,
                    password: Option<string>, confirmPassword: Option<string>)
    ensures (forall e: RegisterError :: !Violates(e, fullName, email, phone, password, confirmPassword)) <==>
      && NameAccepted(fullName)
      && IsValidEmail(TrimOrNull(email))
      && PhoneAccepted(phone)
      && password.Some? && |password.value| >= 8
      && password == confirmPassword
  {
    assert Violates(BadName, fullName, email, phone, password, confirmPassword) <==> !NameAccepted(fullName);
    assert Violates(BadEmail, fullName, email, phone, password, confirmPassword) <==> !IsValidEmail(TrimOrNull(email));
    assert Violates(BadPhone, fullName, email, phone, password, confirmPassword) <==> !PhoneAccepted(phone);
    assert Violates(ShortPassword, fullName, email, phone, password, confirmPassword) <==>
      IsNullOrEmpty(password) || |password.value| < 8;
    assert Violates(PasswordMismatch, fullName, email, phone, password, confirmPassword) <==> password != confirmPassword;
  }

  /** The name setter changes nothing on a name that is already trimmed. */
  lemma TrimOrNullTwice(s: Option<string>)
    ensures TrimOrNull(TrimOrNull(s)) == TrimOrNull(s)
  {
    TrimOrNullTrimmed(s);
  }

  /** What POST `Register` reports. */
  datatype RegisterResult = Invalid(errors: seq<RegisterError>) | EmailTaken | Registered

  /** Both the address stored for a registration and every lookup normalise it to `ToLower(Trim(e))`. */
  lemma RegisteredEmailKey(e: string)
    ensures EmailKey(NormalizeEmail(Some(Trim(e))).value) == ToLower(Trim(e))
    ensures EmailKey(Trim(e)) == ToLower(Trim(e))
    ensures EmailKey(e) == ToLower(Trim(e))
  {
    TrimIdempotent(e);
    var t := Trim(e);
    ToLowerIdempotent(t);
    TrimToLower(t);
    TrimToLower(e);
  }

  /**
   * The `try` block of POST `Register`: a new `User` with the trimmed inputs and role
   * "USER", handed to `register` with the plain password.
   */
  method CreateAccount(users: UserStore, fullName: Option<string>, email: string, phone: Option<string>,
                       password: string, now: int)
    returns (row: UserRow)
    requires users.Valid()
    modifies users`rows, users`nextId
    ensures users.Valid()
    ensures users.rows == old(users.rows) + [row]
    ensures row.id == old(users.nextId)
    ensures row.email == EmailKey(NormalizeEmail(Some(email)).value)
    ensures row.passwordHash == Some(Hash(users.digest, password))
    ensures row.fullName == Sanitize(TrimOrNull(fullName))
    ensures row.role == Some(UserRole)
  {
    var n := |users.rows|;
    var user := NewAccount(fullName, email, phone);
    var _ := users.Register(user, Some(password), now);
    row := users.rows[n];
  }

  /** The `User` that POST `Register` fills in through its setters, with role USER. */
  method NewAccount(fullName: Option<string>, email: string, phone: Option<string>) returns (user: User)
    ensures fresh(user)
    ensures user.fullName == TrimOrNull(fullName)
    ensures user.email == NormalizeEmail(Some(email)) && user.email.Some?
    ensures user.role == UserRole
  {
    user := new User();
    TrimOrNullTwice(fullName);
    user.SetFullName(TrimOrNull(fullName));
    user.SetEmail(Some(email));
    user.SetPhone(TrimOrNull(phone));
    user.SetRole(Some(UserRole));
    UserRoleTrimmed();
  }

  /**
   * POST `Register`: nothing is stored unless every check passes and the address is
   * not taken; then one row is added, and signing in with the same address and
   * password finds exactly that row.
   */
  method RegisterPost(users: UserStore, fullName: Option<string>, email: Option<string>, phone: Option<string>,
                  password: Option<string>, confirmPassword: Option<string>, now: int)
    returns (result: RegisterResult)
    requires users.Valid()
    modifies users`rows, users`nextId
    ensures users.Valid()
    ensures var errors := RegisterErrors(fullName, email, phone, password, confirmPassword);
      errors != [] ==> result == Invalid(errors)
    ensures result.Invalid? ==> RegisterErrors(fullName, email, phone, password, confirmPassword) != []
    ensures result != Registered ==> users.rows == old(users.rows)
    ensures result == EmailTaken <==>
      RegisterErrors(fullName, email, phone, password, confirmPassword) == [] &&
      exists i :: 0 <= i < |old(users.rows)| && old(users.rows)[i].email == ToLower(Trim(email.value))
    ensures result == Registered ==>
      && |users.rows| == |old(users.rows)| + 1
      && users.rows[..|old(users.rows)|] == old(users.rows)
      && var row := users.rows[|old(users.rows)|];
         && row.email == ToLower(Trim(email.value))
         && row.passwordHash == Some(Hash(users.digest, password.value))
         && row.role == Some(UserRole)
         && Login(users.digest, users.rows, email.value, password) == Some(row)
  {
    var errors := RegisterErrors(fullName, email, phone, password, confirmPassword);
    if errors != [] {
      return Invalid(errors);
    }
    RegisterAccepted(fullName, email, phone, password, confirmPassword);
    var e := Trim(email.value);
    RegisteredEmailKey(email.value);
    var taken := users.EmailExists(e);
    if taken {
      return EmailTaken;
    }
    var row := CreateAccount(users, fullName, e, phone, password.value, now);
    LoginAfterRegister(users.digest, old(users.rows), row, email.value, password.value);
    result := Registered;
  }

  // ------------------------------------------------------------------ ChangePassword

  /** What POST `ChangePassword` reports. */
  datatype ChangeResult =
    | NotSignedIn
    | NewPasswordMismatch
    | NewPasswordTooShort
    /** A null new password (with a null confirmation) throws outside the handler. */
    | Crashed
    /** The session user no longer exists; the handler reports the exception. */
    | Failed
    | WrongOldPassword
    | Changed
    | NotChanged

  /**
   * The old password is checked the way the source does it: by signing in with the
   * stored (normalised) address of the session user.
   */
  predicate OldPasswordAccepted(digest: Digest, rows: seq<UserRow>, userId: int, oldPassword: Option<string>) {
    var row := FindKey(rows, UserId, userId);
    row.Some? && Login(digest, rows, NormalizeEmail(Some(row.value.email)).value, oldPassword).Some?
  }

  /**
   * POST `ChangePassword`: the checks run in the order of the source and only a request
   * passing all of them rewrites the hash, of that user's row alone.
   */
  method ChangePassword(users: UserStore, sessionUser: Option<int>, oldPassword: Option<string>,
                        newPassword: Option<string>, confirmPassword: Option<string>)
    returns (result: ChangeResult)
    requires users.Valid()
    modifies users`rows
    ensures users.Valid()
    ensures sessionUser.None? ==> result == NotSignedIn
    ensures sessionUser.Some? && newPassword != confirmPassword ==> result == NewPasswordMismatch
    ensures sessionUser.Some? && newPassword == confirmPassword && newPassword.None? ==> result == Crashed
    ensures sessionUser.Some? && newPassword == confirmPassword && newPassword.Some? && |newPassword.value| < 8 ==>
      result == NewPasswordTooShort
    ensures result == Changed <==>
      && sessionUser.Some? && newPassword == confirmPassword && newPassword.Some? && |newPassword.value| >= 8
      && OldPasswordAccepted(users.digest, old(users.rows), sessionUser.value, oldPassword)
    ensures result == Changed ==>
      users.rows == UpdateKey(old(users.rows), UserId, sessionUser.value, WithHash(Some(Hash(users.digest, newPassword.value))))
    ensures result != Changed ==> users.rows == old(users.rows)
  {
    if sessionUser.None? {
      return NotSignedIn;
    }
    if newPassword != confirmPassword {
      return NewPasswordMismatch;
    }
    if newPassword.None? {
      return Crashed;
    }
    if |newPassword.value| < 8 {
      return NewPasswordTooShort;
    }
    var user := users.FindById(sessionUser.value);
    if user == null {
      return Failed;
    }
    var verified := users.VerifyLogin(user.email.value, oldPassword);
    if verified == null {
      return WrongOldPassword;
    }
    var ok := users.UpdatePassword(sessionUser.value, newPassword);
    result := if ok then Changed else NotChanged;
  }
}
