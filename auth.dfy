/**
 * includes/auth.php: registration, the guarded login sequence with its failed-attempt
 * lockout, and the session records kept in data/sessions/.
 *
 * filter_var email validation (`validEmail`), password_verify (`verify`), password_hash
 * (`hash`) and the clock format of the lock message (`clock`) are parameters; time() is `now`.
 */
module Auth {
  import opened Wrappers
  import opened Records
  import opened Php
  import opened DataHandler
  import Functions
  import Config

  // ---------------------------------------------------------------- messages

  const AllFieldsRequired: string := "All fields are required"
  const InvalidEmailAddress: string := "Invalid email address"
  const EmailAlreadyRegistered: string := "Email address already registered"
  const RegistrationSuccessful: string := "Registration successful"
  const RegistrationFailed: string := "Registration failed. Please try again."
  const CredentialsRequired: string := "Email and password are required"
  const InvalidCredentials: string := "Invalid email or password"
  const UserDataNotFound: string := "User data not found"
  const AccountDeactivated: string := "Account is deactivated. Please contact support."
  const LoginSuccessful: string := "Login successful"
  const UserNotFound: string := "User not found"
  const CurrentPasswordIncorrect: string := "Current password is incorrect"
  const PasswordUpdated: string := "Password updated successfully"
  const PasswordUpdateFailed: string := "Failed to update password"

  function LockedMessage(lockTime: string): string {
    "Account locked due to multiple failed login attempts. Try again after " + lockTime + "."
  }

  // ---------------------------------------------------------------- email lookup

  /** strtolower(trim($email)): the form emails are stored and compared in. */
  function NormalizeEmail(email: string): (r: string)
    ensures |r| <= |email|
    ensures r == [] || (!IsTrimChar(r[0]) && !IsTrimChar(r[|r| - 1]))
  {
    var r := ToLower(Trim(email));
    assert r == [] || (!IsTrimChar(r[0]) && !IsTrimChar(r[|r| - 1]));
    r
  }

  /** A normalised email is already lower-case, so normalising it again changes nothing. */
  lemma NormalizeEmailIdempotent(email: string)
    ensures Trim(NormalizeEmail(email)) == NormalizeEmail(email)
    ensures var r := NormalizeEmail(email); forall k :: 0 <= k < |r| ==> LowerChar(r[k]) == r[k]
    ensures NormalizeEmail(NormalizeEmail(email)) == NormalizeEmail(email)
  {
    ToLowerIdempotent(Trim(email));
    var r := NormalizeEmail(email);
    assert TrimLeft(r) == r;
    assert ToLower(r) == r;
    assert ToLower(Trim(r)) == r;
  }

  lemma ToLowerIdempotent(s: string)
    ensures ToLower(ToLower(s)) == ToLower(s)
  {
  }

  lemma {:induction false} TrimLeftPadded(pad: string, core: string)
    requires AllTrimChars(pad)
    requires core != [] && !IsTrimChar(core[0])
    ensures TrimLeft(pad + core) == core
  {
    if pad == [] {
      assert pad + core == core;
    } else {
      assert (pad + core)[0] == pad[0];
      assert (pad + core)[1..] == pad[1..] + core;
      TrimLeftPadded(pad[1..], core);
    }
  }

  lemma {:induction false} TrimRightPadded(core: string, pad: string)
    requires AllTrimChars(pad)
    requires core != [] && !IsTrimChar(core[|core| - 1])
    ensures TrimRight(core + pad) == core
  {
    if pad == [] {
      assert core + pad == core;
    } else {
      var shorter := pad[..|pad| - 1];
      assert (core + pad)[|core + pad| - 1] == pad[|pad| - 1];
      assert (core + pad)[..|core + pad| - 1] == core + shorter;
      TrimRightPadded(core, shorter);
    }
  }

  lemma TrimPadded(before: string, core: string, after: string)
    requires AllTrimChars(before) && AllTrimChars(after)
    requires core != [] && !IsTrimChar(core[0]) && !IsTrimChar(core[|core| - 1])
    ensures Trim(before + core + after) == core
  {
    assert before + core + after == before + (core + after);
    TrimLeftPadded(before, core + after);
    TrimRightPadded(core, after);
  }

  lemma LowerOfCaseVariant(core: string, stored: string)
    requires SameIgnoringCase(core, stored) && stored == ToLower(stored)
    ensures ToLower(core) == stored
  {
    forall k | 0 <= k < |core|
      ensures ToLower(core)[k] == stored[k]
    {
      assert stored[k] == ToLower(stored)[k];
    }
  }

  /**
   * A probe that differs from a stored (normalised) email only in letter case and surrounding
   * whitespace normalises to that email.
   */
  lemma NormalizeIgnoresCaseAndPadding(before: string, core: string, after: string, stored: string)
    requires AllTrimChars(before) && AllTrimChars(after)
    requires core != [] && !IsTrimChar(core[0]) && !IsTrimChar(core[|core| - 1])
    requires SameIgnoringCase(core, stored) && stored == ToLower(stored)
    ensures NormalizeEmail(before + core + after) == stored
  {
    TrimPadded(before, core, after);
    LowerOfCaseVariant(core, stored);
  }

  /** The user file holds a record whose email is `email`. */
  predicate HoldsEmail(files: Files<User>, name: string, email: string) {
    name in files && files[name].Some? && files[name].value.email == email
  }

  /** The record of the first listed user file whose email is `email`. */
  function FirstWithEmail(listing: seq<string>, files: Files<User>, email: string): (r: Option<User>)
    ensures r.None? <==> forall k :: 0 <= k < |listing| ==> !HoldsEmail(files, listing[k], email)
    ensures r.Some? ==> r.value.email == email
    ensures r.Some? ==> exists k :: 0 <= k < |listing| && HoldsEmail(files, listing[k], email) && files[listing[k]] == Some(r.value)
                                  && forall j :: 0 <= j < k ==> !HoldsEmail(files, listing[j], email)
  {
    if listing == [] then None
    else if HoldsEmail(files, listing[0], email) then files[listing[0]]
    else
      var rest := FirstWithEmail(listing[1..], files, email);
      assert forall k :: 1 <= k < |listing| ==> listing[k] == listing[1..][k - 1];
      rest
  }

  function IdOf(user: Option<User>): Option<string> {
    if user.Some? then Some(user.value.id) else None
  }

  /** findUserByEmail(): the id recorded in the first user file with the normalised email. */
  method FindUserByEmail(users: JsonDir<User>, listing: seq<string>, email: string) returns (id: Option<string>)
    requires ListsJsonFiles(listing, users.files)
    ensures id == IdOf(FirstWithEmail(listing, users.files, NormalizeEmail(email)))
    ensures id.None? <==> forall name :: MatchesJsonGlob(name) ==> !HoldsEmail(users.files, name, NormalizeEmail(email))
  {
    var probe := NormalizeEmail(email);
    var i := 0;
    while i < |listing|
      invariant 0 <= i <= |listing|
      invariant FirstWithEmail(listing, users.files, probe) == FirstWithEmail(listing[i..], users.files, probe)
    {
      var read := ReadJsonFile(users.files, listing[i]);
      assert listing[i..][1..] == listing[i + 1..];
      if read.Decoded? && read.doc.email == probe {
        return Some(read.doc.id);
      }
      i := i + 1;
    }
    assert listing[i..] == [];
    return None;
  }

  /** emailExists(): some user file holds the normalised email. */
  method EmailExists(users: JsonDir<User>, listing: seq<string>, email: string) returns (found: bool)
    requires ListsJsonFiles(listing, users.files)
    ensures found <==> FirstWithEmail(listing, users.files, NormalizeEmail(email)).Some?
    ensures found <==> exists name :: MatchesJsonGlob(name) && HoldsEmail(users.files, name, NormalizeEmail(email))
  {
    var id := FindUserByEmail(users, listing, email);
    found := id.Some?;
  }

  /** With a single listed file holding the email, the lookup returns its record. */
  lemma {:induction false} OnlyHolderFound(listing: seq<string>, files: Files<User>, name: string, email: string)
    requires name in listing && HoldsEmail(files, name, email)
    requires forall k :: 0 <= k < |listing| && listing[k] != name ==> !HoldsEmail(files, listing[k], email)
    ensures FirstWithEmail(listing, files, email) == files[name]
  {
    if listing[0] != name {
      assert name in listing[1..];
      OnlyHolderFound(listing[1..], files, name, email);
    }
  }

  // ---------------------------------------------------------------- lockout

  /** isAccountLocked(): locked_until is set and strictly later than now. */
  predicate IsAccountLocked(user: User, now: Time): (b: bool)
    ensures user.lockedUntil.None? ==> !b
    ensures user.lockedUntil.Some? ==> (b <==> now < user.lockedUntil.value)
  {
    user.lockedUntil.Some? && user.lockedUntil.value > now
  }

  /** A lock holds at every earlier time and has lapsed at every later one. */
  lemma LockIsAnInterval(user: User, earlier: Time, later: Time)
    requires earlier <= later
    ensures IsAccountLocked(user, later) ==> IsAccountLocked(user, earlier)
    ensures !IsAccountLocked(user, earlier) ==> !IsAccountLocked(user, later)
  {
  }

  /**
   * handleFailedLogin() before it saves: one more failed attempt, and a lock for LOCKOUT_TIME
   * seconds once the count reaches MAX_LOGIN_ATTEMPTS. The counter is not reset by the lock.
   */
  function FailedLogin(user: User, now: Time): (r: User)
    ensures r.loginAttempts == user.loginAttempts + 1
    ensures r.loginAttempts >= Config.MaxLoginAttempts ==> r.lockedUntil == Some(now + Config.LockoutTime)
    ensures r.loginAttempts < Config.MaxLoginAttempts ==> r.lockedUntil == user.lockedUntil
    ensures r.(loginAttempts := user.loginAttempts, lockedUntil := user.lockedUntil) == user
  {
    var attempts := user.loginAttempts + 1;
    if attempts >= Config.MaxLoginAttempts then user.(loginAttempts := attempts, lockedUntil := Some(now + Config.LockoutTime))
    else user.(loginAttempts := attempts)
  }

  /** What the login sequence does with an existing, readable user record. */
  datatype Decision = Locked(until: Time) | Deactivated | WrongPassword(updated: User) | LoggedIn(updated: User)

  /** The lock is checked first, then is_active, then the password. */
  function LoginDecision(user: User, passwordOk: bool, now: Time): (d: Decision)
    ensures IsAccountLocked(user, now) ==> d == Locked(user.lockedUntil.value)
    ensures d.WrongPassword? ==> d.updated == FailedLogin(user, now) && !passwordOk
    ensures !IsAccountLocked(user, now) && !user.isActive ==> d == Deactivated
    ensures !IsAccountLocked(user, now) && user.isActive && !passwordOk ==> d == WrongPassword(FailedLogin(user, now))
    ensures d.LoggedIn? <==> !IsAccountLocked(user, now) && user.isActive && passwordOk
    ensures d.LoggedIn? ==> d.updated == user.(loginAttempts := 0, lockedUntil := None, lastLogin := Some(now))
  {
    if IsAccountLocked(user, now) then Locked(user.lockedUntil.value)
    else if !user.isActive then Deactivated
    else if !passwordOk then WrongPassword(FailedLogin(user, now))
    else LoggedIn(user.(loginAttempts := 0, lockedUntil := None, lastLogin := Some(now)))
  }

  /** The stored record after wrong passwords at the given times, each outcome saved with updated_at. */
  function AfterWrongPasswords(user: User, times: seq<Time>): User
    decreases |times|
  {
    if times == [] then user
    else
      var d := LoginDecision(user, false, times[0]);
      AfterWrongPasswords(if d.WrongPassword? then d.updated.(updatedAt := Some(times[0])) else user, times[1..])
  }

  /**
   * Below the limit every wrong password counts once, and the attempt that reaches
   * MAX_LOGIN_ATTEMPTS locks the account for LOCKOUT_TIME seconds from that attempt.
   */
  lemma {:induction false} WrongPasswordsCount(user: User, times: seq<Time>)
    requires user.isActive && user.lockedUntil.None? && user.loginAttempts >= 0
    requires user.loginAttempts + |times| <= Config.MaxLoginAttempts
    ensures AfterWrongPasswords(user, times).loginAttempts == user.loginAttempts + |times|
    ensures AfterWrongPasswords(user, times).lockedUntil ==
      if times != [] && user.loginAttempts + |times| == Config.MaxLoginAttempts then Some(times[|times| - 1] + Config.LockoutTime)
      else None
    decreases |times|
  {
    if times != [] {
      var u := FailedLogin(user, times[0]).(updatedAt := Some(times[0]));
      assert LoginDecision(user, false, times[0]) == WrongPassword(FailedLogin(user, times[0]));
      if |times| == 1 {
        assert times[1..] == [];
      } else {
        WrongPasswordsCount(u, times[1..]);
        assert times[1..][|times[1..]| - 1] == times[|times| - 1];
      }
    }
  }

  /**
   * Five wrong passwords in a row on a fresh or just-reset account lock it: during the next
   * LOCKOUT_TIME seconds even the correct password is refused and nothing is updated.
   */
  lemma FiveWrongPasswordsLock(user: User, times: seq<Time>, later: Time)
    requires user.isActive && user.lockedUntil.None? && user.loginAttempts == 0
    requires |times| == Config.MaxLoginAttempts
    requires later < times[|times| - 1] + Config.LockoutTime
    ensures AfterWrongPasswords(user, times).loginAttempts == Config.MaxLoginAttempts
    ensures LoginDecision(AfterWrongPasswords(user, times), true, later) == Locked(times[|times| - 1] + Config.LockoutTime)
  {
    WrongPasswordsCount(user, times);
  }

  /** Once the lock has run out the correct password logs in and clears counter and lock. */
  lemma LockExpiresThenCorrectPasswordResets(user: User, now: Time)
    requires user.isActive && user.lockedUntil.Some? && user.lockedUntil.value <= now
    ensures LoginDecision(user, true, now).LoggedIn?
    ensures LoginDecision(user, true, now).updated.loginAttempts == 0
    ensures LoginDecision(user, true, now).updated.lockedUntil.None?
  {
  }

  /** After an expired lock the count is still at the limit, so one more wrong password locks again. */
  lemma LockExpiresThenWrongPasswordRelocks(user: User, now: Time)
    requires user.isActive && user.lockedUntil.Some? && user.lockedUntil.value <= now
    requires user.loginAttempts >= Config.MaxLoginAttempts
    ensures LoginDecision(user, false, now) == WrongPassword(FailedLogin(user, now))
    ensures FailedLogin(user, now).lockedUntil == Some(now + Config.LockoutTime)
  {
  }

  // ---------------------------------------------------------------- authenticateUser()

  /**
   * What authenticateUser() does: refuse without writing (a locked account is refused with the
   * formatted lock time), penalise a wrong password, or admit.
   */
  datatype LoginStep =
    | Refused(message: string)
    | LockedOut(lockTime: string)
    | Penalised(userId: string, user: User)
    | Admitted(userId: string, user: User)
  {
    function Message(): string {
      match this
      case Refused(m) => m
      case LockedOut(t) => LockedMessage(t)
      case Penalised(_, _) => InvalidCredentials
      case Admitted(_, _) => LoginSuccessful
    }

    /** The steps that save the user file. */
    predicate Saves() {
      Penalised? || Admitted?
    }
  }

  /** The user file reads back as an active account that is not locked at `now`. */
  predicate ReadsActiveUnlocked(files: Files<User>, userId: string, now: Time) {
    GetUserData(files, userId).Decoded? && GetUserData(files, userId).doc.isActive
    && !IsAccountLocked(GetUserData(files, userId).doc, now)
  }

  /** The guarded login sequence, in the source's order. */
  function Login(files: Files<User>, listing: seq<string>, email: string, password: string, validEmail: string -> bool,
                 verify: (string, string) -> bool, clock: Time -> string, now: Time): (step: LoginStep)
    ensures step.Penalised? || step.Admitted? ==> ReadsActiveUnlocked(files, step.userId, now)
    ensures step.Penalised? ==> step.user == FailedLogin(GetUserData(files, step.userId).doc, now)
    ensures step.Admitted? ==> step.user.loginAttempts == 0 && step.user.lockedUntil.None? && step.user.lastLogin == Some(now)
  {
    if IsEmptyString(email) || IsEmptyString(password) then Refused(CredentialsRequired)
    else if !validEmail(email) then Refused(InvalidEmailAddress)
    else
      var found := IdOf(FirstWithEmail(listing, files, NormalizeEmail(email)));
      if found.None? || IsEmptyString(found.value) then Refused(InvalidCredentials)
      else
        Decide(files, found.value, password, verify, clock, now)
  }

  /** The part of the login sequence after the lookup has produced a user id. */
  function Decide(files: Files<User>, userId: string, password: string, verify: (string, string) -> bool,
                  clock: Time -> string, now: Time): (step: LoginStep)
    ensures step.Penalised? || step.Admitted? ==> step.userId == userId && ReadsActiveUnlocked(files, userId, now)
    ensures GetUserData(files, userId).Decoded? && IsAccountLocked(GetUserData(files, userId).doc, now) ==>
      step == LockedOut(clock(GetUserData(files, userId).doc.lockedUntil.value))
    ensures step.Penalised? ==> step.user == FailedLogin(GetUserData(files, userId).doc, now)
    ensures step.Admitted? ==> step.user.loginAttempts == 0 && step.user.lockedUntil.None? && step.user.lastLogin == Some(now)
  {
    match GetUserData(files, userId)
    case Decoded(user) =>
      (match LoginDecision(user, verify(password, user.password), now)
       case Locked(until) => LockedOut(clock(until))
       case Deactivated => Refused(AccountDeactivated)
       case WrongPassword(u) => Penalised(userId, u)
       case LoggedIn(u) => Admitted(userId, u))
    case _ => Refused(UserDataNotFound)
  }

  /** An unknown email gets the wrong-password message and writes nothing. */
  lemma UnknownEmailLooksLikeWrongPassword(files: Files<User>, listing: seq<string>, email: string, password: string,
                                           validEmail: string -> bool, verify: (string, string) -> bool,
                                           clock: Time -> string, now: Time)
    requires !IsEmptyString(email) && !IsEmptyString(password) && validEmail(email)
    requires forall k :: 0 <= k < |listing| ==> !HoldsEmail(files, listing[k], NormalizeEmail(email))
    ensures Login(files, listing, email, password, validEmail, verify, clock, now) == Refused(InvalidCredentials)
  {
  }

  /** A locked account is refused before the password is looked at, and its record is left as it is. */
  lemma LockedAccountRefused(files: Files<User>, listing: seq<string>, email: string, password: string,
                             validEmail: string -> bool, verify: (string, string) -> bool, clock: Time -> string,
                             now: Time, user: User)
    requires !IsEmptyString(email) && !IsEmptyString(password) && validEmail(email)
    requires FirstWithEmail(listing, files, NormalizeEmail(email)) == Some(user) && !IsEmptyString(user.id)
    requires GetUserData(files, user.id) == Decoded(user)
    requires IsAccountLocked(user, now)
    ensures Login(files, listing, email, password, validEmail, verify, clock, now) == LockedOut(clock(user.lockedUntil.value))
  {
  }

  /** handleFailedLogin(): one more failed attempt, saved. */
  method HandleFailedLogin(users: JsonDir<User>, userId: string, user: User, now: Time, stamp: string, diskOk: bool)
    modifies users
    ensures users.files == if diskOk then old(users.files)[UserFile(userId) := Some(FailedLogin(user, now).(updatedAt := Some(now)))]
      else old(users.files)
    ensures users.backups == BackupsAfterWrite(old(users.backups), old(users.files), UserFile(userId), now, stamp)
  {
    var saved := SaveUserData(users, userId, FailedLogin(user, now), now, stamp, diskOk);
  }

  // ---------------------------------------------------------------- sessions

  /** createUserSession(): 30 days with "remember me", SESSION_TIMEOUT otherwise. */
  function SessionExpiry(now: Time, rememberMe: bool): (t: Time)
    ensures now + Config.SessionTimeout <= t
    ensures rememberMe ==> t == now + Config.RememberMeLifetime
    ensures !rememberMe ==> t == now + Config.SessionTimeout
  {
    now + if rememberMe then Config.RememberMeLifetime else Config.SessionTimeout
  }

  /** The record createUserSession() writes; a missing address or agent is 'unknown'. */
  function NewSession(sessionId: string, userId: string, now: Time, rememberMe: bool,
                      ipAddress: Option<string>, userAgent: Option<string>): (r: SessionRecord)
    ensures r.sessionId == sessionId && r.userId == userId && r.isActive
    ensures r.createdAt == now && r.createdAt < r.expiresAt == SessionExpiry(now, rememberMe)
    ensures r.ipAddress == (if ipAddress.Some? then ipAddress.value else "unknown")
    ensures r.userAgent == (if userAgent.Some? then userAgent.value else "unknown")
  {
    SessionRecord(sessionId, userId, now, SessionExpiry(now, rememberMe),
                  ipAddress.GetOr("unknown"), userAgent.GetOr("unknown"), true)
  }

  /** What validateSession() finds for a session id. */
  datatype SessionState = NoSession | Inactive | Expired | Active(record: SessionRecord)

  function SessionStatus(files: Files<SessionRecord>, sessionId: Option<string>, now: Time): (st: SessionState)
    ensures sessionId.None? || IsEmptyString(sessionId.value) ==> st == NoSession
    ensures st.Active? <==>
      (sessionId.Some? && !IsEmptyString(sessionId.value)
       && ReadJsonFile(files, SessionFile(sessionId.value)).Decoded?
       && ReadJsonFile(files, SessionFile(sessionId.value)).doc.isActive
       && now <= ReadJsonFile(files, SessionFile(sessionId.value)).doc.expiresAt)
    ensures st.Active? ==> files[SessionFile(sessionId.value)] == Some(st.record)
    ensures st.Expired? ==> sessionId.Some? && SessionFile(sessionId.value) in files
  {
    if sessionId.None? || IsEmptyString(sessionId.value) then NoSession
    else match ReadJsonFile(files, SessionFile(sessionId.value))
      case Decoded(record) =>
        if !record.isActive then Inactive
        else if record.expiresAt < now then Expired
        else Active(record)
      case _ => NoSession
  }

  /**
   * A stored session stays valid up to and including its expiry second and is expired after
   * it: one hour after creation, or thirty days with "remember me".
   */
  lemma SessionLifetime(files: Files<SessionRecord>, sessionId: string, userId: string, created: Time, rememberMe: bool,
                        ipAddress: Option<string>, userAgent: Option<string>, now: Time)
    requires !IsEmptyString(sessionId)
    requires SessionFile(sessionId) in files
    requires files[SessionFile(sessionId)] == Some(NewSession(sessionId, userId, created, rememberMe, ipAddress, userAgent))
    ensures SessionStatus(files, Some(sessionId), now).Active? <==>
      now <= created + if rememberMe then Config.RememberMeLifetime else Config.SessionTimeout
    ensures !SessionStatus(files, Some(sessionId), now).Active? ==> SessionStatus(files, Some(sessionId), now).Expired?
  {
  }

  /** destroySession(): unlink the session file if it exists. */
  method DestroySession(sessions: JsonDir<SessionRecord>, sessionId: string)
    modifies sessions
    ensures sessions.files == old(sessions.files) - {SessionFile(sessionId)}
    ensures SessionFile(sessionId) !in old(sessions.files) ==> sessions.files == old(sessions.files)
    ensures sessions.backups == old(sessions.backups)
  {
    sessions.DeleteFile(SessionFile(sessionId));
  }

  /**
   * createUserSession(): writes the session record (the write's result is ignored), logs the
   * user into $_SESSION, and sets the cookie only with "remember me".
   */
  method CreateUserSession(sessions: JsonDir<SessionRecord>, g: Superglobals, userId: string, rememberMe: bool,
                           now: nat, stamp: string, idBytes: seq<Byte>, ipAddress: Option<string>,
                           userAgent: Option<string>, diskOk: bool) returns (sessionId: string)
    requires |idBytes| == 8
    modifies sessions, g
    ensures sessionId == Functions.GenerateSessionId(now, idBytes)
    ensures sessions.files == if diskOk
      then old(sessions.files)[SessionFile(sessionId) := Some(NewSession(sessionId, userId, now, rememberMe, ipAddress, userAgent))]
      else old(sessions.files)
    ensures sessions.backups == BackupsAfterWrite(old(sessions.backups), old(sessions.files), SessionFile(sessionId), now, stamp)
    ensures g.userId == Some(userId) && g.sessionId == Some(sessionId) && g.loggedIn && g.csrfToken == old(g.csrfToken)
    ensures g.sessionCookie == if rememberMe then Some(Cookie(sessionId, SessionExpiry(now, true))) else old(g.sessionCookie)
  {
    sessionId := Functions.GenerateSessionId(now, idBytes);
    var record := NewSession(sessionId, userId, now, rememberMe, ipAddress, userAgent);
    var written := sessions.WriteJsonFile(SessionFile(sessionId), record, now, stamp, diskOk);
    g.userId := Some(userId);
    g.sessionId := Some(sessionId);
    g.loggedIn := true;
    if rememberMe {
      g.sessionCookie := Some(Cookie(sessionId, record.expiresAt));
    }
  }

  /**
   * validateSession(): true exactly for an active, unexpired record; an expired one is
   * deleted; a session found while $_SESSION has no user is adopted into $_SESSION.
   */
  method ValidateSession(sessions: JsonDir<SessionRecord>, g: Superglobals, sessionId: Option<string>, now: Time)
    returns (valid: bool)
    modifies sessions, g
    ensures var st := SessionStatus(old(sessions.files), sessionId, now);
      && (valid <==> st.Active?)
      && sessions.files == (if st.Expired? then old(sessions.files) - {SessionFile(sessionId.value)} else old(sessions.files))
      && sessions.backups == old(sessions.backups)
      && (if st.Active? && old(g.userId).None?
          then g.userId == Some(st.record.userId) && g.sessionId == sessionId && g.loggedIn
          else g.userId == old(g.userId) && g.sessionId == old(g.sessionId) && g.loggedIn == old(g.loggedIn))
      && g.csrfToken == old(g.csrfToken) && g.sessionCookie == old(g.sessionCookie)
  {
    if sessionId.None? || IsEmptyString(sessionId.value) {
      return false;
    }
    var read := ReadJsonFile(sessions.files, SessionFile(sessionId.value));
    if !read.Decoded? || !read.doc.isActive {
      return false;
    }
    if read.doc.expiresAt < now {
      DestroySession(sessions, sessionId.value);
      return false;
    }
    if g.userId.None? {
      g.userId := Some(read.doc.userId);
      g.sessionId := sessionId;
      g.loggedIn := true;
    }
    return true;
  }

  /** The session id isLoggedIn() validates: $_SESSION's when it holds a login, else the cookie's. */
  function ProbedSession(loggedIn: bool, userId: Option<string>, sessionId: Option<string>, cookie: Option<Cookie>)
    : Option<string>
  {
    if loggedIn && userId.Some? then sessionId
    else if cookie.Some? then Some(cookie.value.value)
    else None
  }

  /** isLoggedIn(): validateSession() on the probed id, or false without one. */
  method IsLoggedIn(sessions: JsonDir<SessionRecord>, g: Superglobals, now: Time) returns (loggedIn: bool)
    modifies sessions, g
    ensures var probe := ProbedSession(old(g.loggedIn), old(g.userId), old(g.sessionId), old(g.sessionCookie));
      var st := SessionStatus(old(sessions.files), probe, now);
      && (loggedIn <==> st.Active?)
      && sessions.files == (if st.Expired? then old(sessions.files) - {SessionFile(probe.value)} else old(sessions.files))
      && sessions.backups == old(sessions.backups)
      && (if st.Active? && old(g.userId).None?
          then g.userId == Some(st.record.userId) && g.sessionId == probe && g.loggedIn
          else g.userId == old(g.userId) && g.sessionId == old(g.sessionId) && g.loggedIn == old(g.loggedIn))
      && g.csrfToken == old(g.csrfToken) && g.sessionCookie == old(g.sessionCookie)
  {
    var probe := ProbedSession(g.loggedIn, g.userId, g.sessionId, g.sessionCookie);
    if probe.Some? {
      loggedIn := ValidateSession(sessions, g, probe, now);
    } else {
      loggedIn := false;
    }
  }

  /**
   * logoutUser(): runs the login check (which may adopt or delete a session), destroys the
   * session $_SESSION then names, empties $_SESSION and expires the cookie.
   */
  method LogoutUser(sessions: JsonDir<SessionRecord>, g: Superglobals, now: Time) returns (ok: bool)
    modifies sessions, g
    ensures ok
    ensures g.userId.None? && g.sessionId.None? && !g.loggedIn && g.csrfToken.None? && g.sessionCookie.None?
    ensures var probe := ProbedSession(old(g.loggedIn), old(g.userId), old(g.sessionId), old(g.sessionCookie));
      var st := SessionStatus(old(sessions.files), probe, now);
      var checked := if st.Expired? then old(sessions.files) - {SessionFile(probe.value)} else old(sessions.files);
      var named := if st.Active? && old(g.userId).None? then probe else old(g.sessionId);
      sessions.files == if named.Some? && !IsEmptyString(named.value) then checked - {SessionFile(named.value)} else checked
    ensures sessions.backups == old(sessions.backups)
    ensures old(g.userId).Some? && old(g.sessionId).Some? && !IsEmptyString(old(g.sessionId).value) ==>
      SessionFile(old(g.sessionId).value) !in sessions.files
  {
    var current := IsLoggedIn(sessions, g, now);
    var sessionId := g.sessionId;
    if sessionId.Some? && !IsEmptyString(sessionId.value) {
      DestroySession(sessions, sessionId.value);
    }
    g.ClearSession();
    g.sessionCookie := None;
    ok := true;
  }

  predicate StaleSession(files: Files<SessionRecord>, name: string, now: Time) {
    name in files && files[name].Some? && files[name].value.expiresAt < now
  }

  /** The session directory after cleanExpiredSessions(): every listed readable record past its expiry is gone. */
  function WithoutExpiredSessions(files: Files<SessionRecord>, now: Time): (r: Files<SessionRecord>)
    ensures forall name :: name in r <==> name in files && !(MatchesJsonGlob(name) && StaleSession(files, name, now))
    ensures forall name :: name in r ==> r[name] == files[name]
  {
    map name | name in files && !(MatchesJsonGlob(name) && StaleSession(files, name, now)) :: files[name]
  }

  /** cleanExpiredSessions(): one pass over glob('*.json'), active or not. */
  method CleanExpiredSessions(sessions: JsonDir<SessionRecord>, listing: seq<string>, now: Time)
    requires ListsJsonFiles(listing, sessions.files)
    modifies sessions
    ensures sessions.files == WithoutExpiredSessions(old(sessions.files), now)
    ensures sessions.backups == old(sessions.backups)
  {
    var i := 0;
    while i < |listing|
      invariant 0 <= i <= |listing|
      invariant sessions.backups == old(sessions.backups)
      invariant forall name :: name in sessions.files ==> name in old(sessions.files) && sessions.files[name] == old(sessions.files)[name]
      invariant forall name :: name in old(sessions.files) ==>
        (name in sessions.files <==> !(name in listing[..i] && StaleSession(old(sessions.files), name, now)))
    {
      var name := listing[i];
      assert name !in listing[..i];
      assert listing[..i + 1] == listing[..i] + [name];
      var read := ReadJsonFile(sessions.files, name);
      if read.Decoded? && read.doc.expiresAt < now {
        sessions.DeleteFile(name);
      }
      i := i + 1;
    }
    assert listing[..i] == listing;
  }

  // ---------------------------------------------------------------- registerUser()

  const DefaultPreferences: Preferences :=
    Preferences(Config.DefaultWeightUnit, Config.DefaultHeightUnit, Config.DefaultTimezone, true)

  const DefaultProfile: Profile := Profile(None, None, None, "moderate", "maintain", None, None)

  /** The record registerUser() creates. */
  function NewUser(userId: string, email: string, passwordHash: string, firstName: string, lastName: string,
                   now: Time): (u: User)
    ensures u.email == NormalizeEmail(email) && u.email == ToLower(u.email)
    ensures u.loginAttempts == 0 && u.lockedUntil.None? && u.isActive && u.lastLogin.None?
    ensures NoMarkup(u.firstName) && NoMarkup(u.lastName)
    ensures u.preferences.weightUnit == Config.DefaultWeightUnit && u.preferences.heightUnit == Config.DefaultHeightUnit
  {
    ToLowerIdempotent(Trim(email));
    User(userId, NormalizeEmail(email), passwordHash, Functions.SanitizeString(firstName), Functions.SanitizeString(lastName),
         now, None, true, 0, None, DefaultPreferences, DefaultProfile, None)
  }

  /** A new account is never locked: the first wrong password counts 1, the right one logs in. */
  lemma NewUserNotLocked(u: User, passwordOk: bool, now: Time)
    requires u.loginAttempts == 0 && u.lockedUntil.None? && u.isActive
    ensures passwordOk ==> LoginDecision(u, passwordOk, now).LoggedIn?
    ensures !passwordOk ==> LoginDecision(u, passwordOk, now) == WrongPassword(u.(loginAttempts := 1))
  {
  }

  /** None of registerUser()'s four arguments is empty. */
  predicate FieldsGiven(email: string, password: string, firstName: string, lastName: string) {
    !IsEmptyString(email) && !IsEmptyString(password) && !IsEmptyString(firstName) && !IsEmptyString(lastName)
  }

  /** registerUser()'s checks in order; the first failure is the message. */
  function RegistrationError(files: Files<User>, listing: seq<string>, email: string, password: string, firstName: string,
                             lastName: string, validEmail: string -> bool): (r: Option<string>)
    ensures r.None? <==>
      (!IsEmptyString(email) && !IsEmptyString(password) && !IsEmptyString(firstName)
       && !IsEmptyString(lastName) && validEmail(email) && Functions.StrongPassword(password)
       && FirstWithEmail(listing, files, NormalizeEmail(email)).None?)
    ensures IsEmptyString(email) || IsEmptyString(password) || IsEmptyString(firstName) || IsEmptyString(lastName) ==>
      r == Some(AllFieldsRequired)
    ensures r == Some(EmailAlreadyRegistered) ==> validEmail(email) && Functions.StrongPassword(password)
    ensures FieldsGiven(email, password, firstName, lastName) && !validEmail(email) ==> r == Some(InvalidEmailAddress)
    ensures FieldsGiven(email, password, firstName, lastName) && validEmail(email) && !Functions.StrongPassword(password) ==>
      r == Some(Functions.ValidatePassword(password).message)
    ensures (FieldsGiven(email, password, firstName, lastName) && validEmail(email) && Functions.StrongPassword(password)
             && FirstWithEmail(listing, files, NormalizeEmail(email)).Some?) ==> r == Some(EmailAlreadyRegistered)
    ensures r.Some? && !Functions.StrongPassword(password) && r.value != AllFieldsRequired && r.value != InvalidEmailAddress ==>
      r.value == Functions.ValidatePassword(password).message
  {
    if IsEmptyString(email) || IsEmptyString(password) || IsEmptyString(firstName) || IsEmptyString(lastName) then
      Some(AllFieldsRequired)
    else if !validEmail(email) then Some(InvalidEmailAddress)
    else if !Functions.ValidatePassword(password).valid then Some(Functions.ValidatePassword(password).message)
    else if FirstWithEmail(listing, files, NormalizeEmail(email)).Some? then Some(EmailAlreadyRegistered)
    else None
  }

  /** registerUser(). */
  method RegisterUser(users: JsonDir<User>, listing: seq<string>, email: string, password: string, firstName: string,
                      lastName: string, validEmail: string -> bool, hash: string -> string, now: nat, stamp: string,
                      idBytes: seq<Byte>, diskOk: bool) returns (resp: Functions.Response)
    requires |idBytes| == 4
    requires ListsJsonFiles(listing, users.files)
    modifies users
    ensures var err := RegistrationError(old(users.files), listing, email, password, firstName, lastName, validEmail);
      var userId := Functions.GenerateUserId(now, idBytes);
      var user := NewUser(userId, email, hash(password), firstName, lastName, now);
      && resp == (if err.Some? then Functions.ApiResponse(false, err.value, None, now)
                  else if diskOk then Functions.ApiResponse(true, RegistrationSuccessful, Some(map["user_id" := userId]), now)
                  else Functions.ApiResponse(false, RegistrationFailed, None, now))
      && users.files == (if err.None? && diskOk then old(users.files)[UserFile(userId) := Some(user.(updatedAt := Some(now)))]
                         else old(users.files))
      && users.backups == (if err.Some? then old(users.backups)
                           else BackupsAfterWrite(old(users.backups), old(users.files), UserFile(userId), now, stamp))
  {
    if IsEmptyString(email) || IsEmptyString(password) || IsEmptyString(firstName) || IsEmptyString(lastName) {
      return Functions.ApiResponse(false, AllFieldsRequired, None, now);
    }
    if !validEmail(email) {
      return Functions.ApiResponse(false, InvalidEmailAddress, None, now);
    }
    var check := Functions.ValidatePassword(password);
    if !check.valid {
      return Functions.ApiResponse(false, check.message, None, now);
    }
    var taken := EmailExists(users, listing, email);
    if taken {
      return Functions.ApiResponse(false, EmailAlreadyRegistered, None, now);
    }
    var userId := Functions.GenerateUserId(now, idBytes);
    var user := NewUser(userId, email, hash(password), firstName, lastName, now);
    var saved := SaveUserData(users, userId, user, now, stamp, diskOk);
    if saved {
      resp := Functions.ApiResponse(true, RegistrationSuccessful, Some(map["user_id" := userId]), now);
    } else {
      resp := Functions.ApiResponse(false, RegistrationFailed, None, now);
    }
  }

  /**
   * After a successful registration, the login lookup of the same email (in any form that
   * normalises to it) returns the new record however the directory is listed.
   */
  lemma RegisteredUserFound(files: Files<User>, listing: seq<string>, later: seq<string>, email: string,
                            userId: string, user: User)
    requires ListsJsonFiles(listing, files)
    requires FirstWithEmail(listing, files, NormalizeEmail(email)).None?
    requires userId != [] && Functions.IsIdString(userId)
    requires user.email == NormalizeEmail(email)
    requires ListsJsonFiles(later, files[UserFile(userId) := Some(user)])
    ensures FirstWithEmail(later, files[UserFile(userId) := Some(user)], NormalizeEmail(email)) == Some(user)
  {
    var after := files[UserFile(userId) := Some(user)];
    var e := NormalizeEmail(email);
    GeneratedUserFileListed(userId);
    forall k | 0 <= k < |later| && later[k] != UserFile(userId)
      ensures !HoldsEmail(after, later[k], e)
    {
      assert later[k] in files && MatchesJsonGlob(later[k]);
      var j :| 0 <= j < |listing| && listing[j] == later[k];
      assert !HoldsEmail(files, listing[j], e);
    }
    OnlyHolderFound(later, after, UserFile(userId), e);
  }

  // ---------------------------------------------------------------- authenticateUser()

  /** authenticateUser(). The user save and the session write each succeed or fail on their own. */
  method AuthenticateUser(users: JsonDir<User>, sessions: JsonDir<SessionRecord>, g: Superglobals, listing: seq<string>,
                          email: string, password: string, rememberMe: bool, validEmail: string -> bool,
                          verify: (string, string) -> bool, clock: Time -> string, now: nat, stamp: string,
                          sessionBytes: seq<Byte>, ipAddress: Option<string>, userAgent: Option<string>,
                          userDiskOk: bool, sessionDiskOk: bool)
    returns (resp: Functions.Response)
    requires |sessionBytes| == 8
    requires ListsJsonFiles(listing, users.files)
    modifies users, sessions, g
    ensures var step := Login(old(users.files), listing, email, password, validEmail, verify, clock, now);
      resp.success == step.Admitted? && resp.message == step.Message() && resp.timestamp == now
    ensures var step := Login(old(users.files), listing, email, password, validEmail, verify, clock, now);
      !step.Saves() ==> users.files == old(users.files) && users.backups == old(users.backups)
    ensures var step := Login(old(users.files), listing, email, password, validEmail, verify, clock, now);
      step.Saves() ==> UserSaved(users, old(users.files), old(users.backups), step.userId, step.user, now, stamp, userDiskOk)
    ensures var step := Login(old(users.files), listing, email, password, validEmail, verify, clock, now);
      !step.Admitted? ==>
        (resp.data.None? && sessions.files == old(sessions.files) && sessions.backups == old(sessions.backups)
         && g.userId == old(g.userId) && g.sessionId == old(g.sessionId) && g.loggedIn == old(g.loggedIn)
         && g.sessionCookie == old(g.sessionCookie))
    ensures g.csrfToken == old(g.csrfToken)
    ensures var step := Login(old(users.files), listing, email, password, validEmail, verify, clock, now);
      var sessionId := Functions.GenerateSessionId(now, sessionBytes);
      step.Admitted? ==>
        && resp.data == Some(map["user_id" := step.userId, "session_id" := sessionId,
                                 "user_name" := step.user.firstName + " " + step.user.lastName])
        && sessions.files == (if sessionDiskOk then old(sessions.files)[SessionFile(sessionId) :=
                                Some(NewSession(sessionId, step.userId, now, rememberMe, ipAddress, userAgent))]
                              else old(sessions.files))
        && sessions.backups == BackupsAfterWrite(old(sessions.backups), old(sessions.files), SessionFile(sessionId), now, stamp)
        && g.userId == Some(step.userId) && g.sessionId == Some(sessionId) && g.loggedIn
        && g.sessionCookie == (if rememberMe then Some(Cookie(sessionId, SessionExpiry(now, true))) else old(g.sessionCookie))
  {
    if IsEmptyString(email) || IsEmptyString(password) {
      return Functions.ApiResponse(false, CredentialsRequired, None, now);
    }
    if !validEmail(email) {
      return Functions.ApiResponse(false, InvalidEmailAddress, None, now);
    }
    var found := FindUserByEmail(users, listing, email);
    if found.None? || IsEmptyString(found.value) {
      return Functions.ApiResponse(false, InvalidCredentials, None, now);
    }
    assert Login(users.files, listing, email, password, validEmail, verify, clock, now)
        == Decide(users.files, found.value, password, verify, clock, now);
    resp := FinishLogin(users, sessions, g, found.value, password, rememberMe, verify, clock, now, stamp, sessionBytes,
                        ipAddress, userAgent, userDiskOk, sessionDiskOk);
  }

  /** The user file now holds `user` stamped with updated_at, as saveUserData() writes it. */
  predicate UserSaved(users: JsonDir<User>, oldFiles: Files<User>, oldBackups: map<string, Time>, userId: string,
                      user: User, now: Time, stamp: string, diskOk: bool)
    reads users
  {
    && users.files == (if diskOk then oldFiles[UserFile(userId) := Some(user.(updatedAt := Some(now)))] else oldFiles)
    && users.backups == BackupsAfterWrite(oldBackups, oldFiles, UserFile(userId), now, stamp)
  }

  /** authenticateUser() from the read of the found user's file on. */
  method FinishLogin(users: JsonDir<User>, sessions: JsonDir<SessionRecord>, g: Superglobals, userId: string,
                     password: string, rememberMe: bool, verify: (string, string) -> bool, clock: Time -> string,
                     now: nat, stamp: string, sessionBytes: seq<Byte>, ipAddress: Option<string>,
                     userAgent: Option<string>, userDiskOk: bool, sessionDiskOk: bool)
    returns (resp: Functions.Response)
    requires |sessionBytes| == 8
    modifies users, sessions, g
    ensures var step := Decide(old(users.files), userId, password, verify, clock, now);
      resp.success == step.Admitted? && resp.message == step.Message() && resp.timestamp == now
    ensures var step := Decide(old(users.files), userId, password, verify, clock, now);
      !step.Saves() ==> users.files == old(users.files) && users.backups == old(users.backups)
    ensures var step := Decide(old(users.files), userId, password, verify, clock, now);
      step.Saves() ==> UserSaved(users, old(users.files), old(users.backups), step.userId, step.user, now, stamp, userDiskOk)
    ensures var step := Decide(old(users.files), userId, password, verify, clock, now);
      !step.Admitted? ==>
        (resp.data.None? && sessions.files == old(sessions.files) && sessions.backups == old(sessions.backups)
         && g.userId == old(g.userId) && g.sessionId == old(g.sessionId) && g.loggedIn == old(g.loggedIn)
         && g.sessionCookie == old(g.sessionCookie))
    ensures g.csrfToken == old(g.csrfToken)
    ensures var step := Decide(old(users.files), userId, password, verify, clock, now);
      var sessionId := Functions.GenerateSessionId(now, sessionBytes);
      step.Admitted? ==>
        && resp.data == Some(map["user_id" := step.userId, "session_id" := sessionId,
                                 "user_name" := step.user.firstName + " " + step.user.lastName])
        && sessions.files == (if sessionDiskOk then old(sessions.files)[SessionFile(sessionId) :=
                                Some(NewSession(sessionId, step.userId, now, rememberMe, ipAddress, userAgent))]
                              else old(sessions.files))
        && sessions.backups == BackupsAfterWrite(old(sessions.backups), old(sessions.files), SessionFile(sessionId), now, stamp)
        && g.userId == Some(step.userId) && g.sessionId == Some(sessionId) && g.loggedIn
        && g.sessionCookie == (if rememberMe then Some(Cookie(sessionId, SessionExpiry(now, true))) else old(g.sessionCookie))
  {
    var read := GetUserData(users.files, userId);
    if !read.Decoded? {
      return Functions.ApiResponse(false, UserDataNotFound, None, now);
    }
    var user := read.doc;
    if IsAccountLocked(user, now) {
      return Functions.ApiResponse(false, LockedMessage(clock(user.lockedUntil.value)), None, now);
    }
    if !user.isActive {
      return Functions.ApiResponse(false, AccountDeactivated, None, now);
    }
    if !verify(password, user.password) {
      HandleFailedLogin(users, userId, user, now, stamp, userDiskOk);
      return Functions.ApiResponse(false, InvalidCredentials, None, now);
    }
    var updated := user.(loginAttempts := 0, lockedUntil := None, lastLogin := Some(now));
    var saved := SaveUserData(users, userId, updated, now, stamp, userDiskOk);
    var sessionId := CreateUserSession(sessions, g, userId, rememberMe, now, stamp, sessionBytes, ipAddress, userAgent, sessionDiskOk);
    resp := Functions.ApiResponse(true, LoginSuccessful,
      Some(map["user_id" := userId, "session_id" := sessionId, "user_name" := updated.firstName + " " + updated.lastName]), now);
  }

  // ---------------------------------------------------------------- updatePassword()

  /** updatePassword()'s checks in order: the record, the current password, the new password's strength. */
  function PasswordChange(read: JsonRead<User>, current: string, newPassword: string, verify: (string, string) -> bool,
                          hash: string -> string): (r: Result<User, string>)
    ensures r.Ok? <==> read.Decoded? && verify(current, read.doc.password) && Functions.StrongPassword(newPassword)
    ensures r.Ok? ==> r.value == read.doc.(password := hash(newPassword))
    ensures !read.Decoded? ==> r == Err(UserNotFound)
    ensures read.Decoded? && !verify(current, read.doc.password) ==> r == Err(CurrentPasswordIncorrect)
    ensures read.Decoded? && verify(current, read.doc.password) && !Functions.StrongPassword(newPassword) ==>
      r == Err(Functions.ValidatePassword(newPassword).message)
  {
    if !read.Decoded? then Err(UserNotFound)
    else if !verify(current, read.doc.password) then Err(CurrentPasswordIncorrect)
    else if !Functions.ValidatePassword(newPassword).valid then Err(Functions.ValidatePassword(newPassword).message)
    else Ok(read.doc.(password := hash(newPassword)))
  }

  /** After a password change the new password verifies against the stored hash and nothing else changed. */
  lemma PasswordChangeKeepsAccount(read: JsonRead<User>, current: string, newPassword: string,
                                   verify: (string, string) -> bool, hash: string -> string)
    requires forall p :: verify(p, hash(p))
    requires PasswordChange(read, current, newPassword, verify, hash).Ok?
    ensures verify(newPassword, PasswordChange(read, current, newPassword, verify, hash).value.password)
    ensures PasswordChange(read, current, newPassword, verify, hash).value.(password := read.doc.password) == read.doc
  {
  }

  /** updatePassword(). */
  method UpdatePassword(users: JsonDir<User>, userId: string, current: string, newPassword: string,
                        verify: (string, string) -> bool, hash: string -> string, now: Time, stamp: string, diskOk: bool)
    returns (resp: Functions.Response)
    modifies users
    ensures var change := PasswordChange(GetUserData(old(users.files), userId), current, newPassword, verify, hash);
      && resp == (if change.Err? then Functions.ApiResponse(false, change.error, None, now)
                  else if diskOk then Functions.ApiResponse(true, PasswordUpdated, None, now)
                  else Functions.ApiResponse(false, PasswordUpdateFailed, None, now))
      && users.files == (if change.Ok? && diskOk then old(users.files)[UserFile(userId) := Some(change.value.(updatedAt := Some(now)))]
                         else old(users.files))
      && users.backups == (if change.Err? then old(users.backups)
                           else BackupsAfterWrite(old(users.backups), old(users.files), UserFile(userId), now, stamp))
  {
    var read := GetUserData(users.files, userId);
    if !read.Decoded? {
      return Functions.ApiResponse(false, UserNotFound, None, now);
    }
    if !verify(current, read.doc.password) {
      return Functions.ApiResponse(false, CurrentPasswordIncorrect, None, now);
    }
    var check := Functions.ValidatePassword(newPassword);
    if !check.valid {
      return Functions.ApiResponse(false, check.message, None, now);
    }
    var saved := SaveUserData(users, userId, read.doc.(password := hash(newPassword)), now, stamp, diskOk);
    if saved {
      resp := Functions.ApiResponse(true, PasswordUpdated, None, now);
    } else {
      resp := Functions.ApiResponse(false, PasswordUpdateFailed, None, now);
    }
  }
}
