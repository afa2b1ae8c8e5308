/** The user record of the account store and the pure rules about it: the schema's
    enumerations and required fields, the password-required rule, the pre-save hash,
    password comparison, the permission and role predicates, and the effect of the
    login-attempt counters. */
module UserModel {
  import opened Wrappers
  import opened Text
  import opened Jwt

  type Id = nat

  /** A bcrypt hash: the secret it was computed from and the salt. Only `Compare`
      looks at the secret, so the model never reads a password back out. */
  datatype PasswordHash = Bcrypt(secret: string, salt: nat)

  /** One stored user. Absent optional fields are `None`; an absent name or email is
      the empty string, which the schema's `required` refuses. */
  datatype User = User(
    id: Id,
    name: string,
    email: string,
    password: Option<PasswordHash>,
    googleId: Option<string>,
    role: string,
    permissions: seq<string>,
    mfaEnabled: bool,
    mfaCode: Option<string>,
    mfaCodeExpires: Option<int>,
    loginAttempts: int,
    lockedUntil: Option<int>)

  const MAX_LOGIN_ATTEMPTS: nat := 5
  const LOCK_TIME: nat := 30 * MINUTE

  const ROLES: set<string> := {"user", "admin"}
  const PERMISSIONS: set<string> := {"read", "write", "delete", "manage_users", "view_reports"}

  /** `user.hasPermission(p)` */
  predicate HasPermission(u: User, p: string) {
    p in u.permissions
  }

  /** A JavaScript string used as a condition: present and non-empty. */
  predicate Truthy(s: Option<string>) {
    s.Some? && s.value != ""
  }

  /** The password is required exactly when the record has no (truthy) googleId. */
  predicate PasswordRequired(u: User) {
    !Truthy(u.googleId)
  }

  /** An email as the schema's `trim` and `lowercase` setters leave it. Mongoose runs
      the same setters on the `email` of a query filter, so `findOne({ email })`
      looks for this form. */
  function NormalEmail(e: string): string {
    ToLower(Trim(e))
  }

  /** The schema's setters have run: the name is trimmed, the email trimmed and
      lower-cased. They run on every assignment of the two fields, so every record a
      route builds or loads satisfies this. */
  predicate SettersApplied(u: User) {
    Trimmed(u.name) && Trimmed(u.email) && Lowered(u.email)
  }

  /** The setters' output is in that form. */
  lemma SettersOutput(name: string, email: string)
    ensures Trimmed(Trim(name)) && Trimmed(NormalEmail(email)) && Lowered(NormalEmail(email))
  {
    TrimShape(name);
    TrimShape(email);
    LowerTrimmed(Trim(email));
  }

  /** A record whose name and email were assigned through the setters is in their
      form, and is missing a required field exactly when the input was all white space. */
  lemma SetterRecord(u: User, name: string, email: string)
    requires u.name == Trim(name) && u.email == NormalEmail(email)
    ensures SettersApplied(u)
    ensures u.name != "" <==> Trim(name) != ""
    ensures u.email != "" <==> Trim(email) != ""
  {
    SettersOutput(name, email);
  }

  /** A record is in the setters' form exactly when the setters leave it unchanged. */
  lemma SettersAppliedMeans(u: User)
    ensures SettersApplied(u) <==> u.name == Trim(u.name) && u.email == NormalEmail(u.email)
  {
    TrimmedMeans(u.name);
    TrimmedMeans(u.email);
    LoweredMeans(u.email);
    if u.email == NormalEmail(u.email) {
      SettersOutput(u.name, u.email);
    }
  }

  /** Setting a field twice stores what setting it once stores, so a record built
      from setter output is in the stored form, and two addresses that differ only
      in letter case or surrounding white space are stored as the same address. */
  lemma SettersIdempotent(name: string, email: string)
    ensures Trim(Trim(name)) == Trim(name)
    ensures NormalEmail(NormalEmail(email)) == NormalEmail(email)
    ensures |NormalEmail(email)| == |Trim(email)|
  {
    TrimLowerIdempotent(name);
    TrimLowerIdempotent(email);
    TrimLowerIdempotent(Trim(email));
  }

  /** Whether the record passes schema validation on save. `pending` is a plaintext
      password assigned since the record was loaded (validation sees the plaintext,
      the hash is computed afterwards). */
  predicate SchemaValid(u: User, pending: Option<string>) {
    && u.name != ""
    && u.email != ""
    && u.role in ROLES
    && (forall i :: 0 <= i < |u.permissions| ==> u.permissions[i] in PERMISSIONS)
    && (PasswordRequired(u) ==> if pending.Some? then pending.value != "" else u.password.Some?)
  }

  /** The record the pre-save hook writes: a modified password is hashed with the
      generated salt, an unmodified one is left as it is. */
  function Hashed(u: User, pending: Option<string>, salt: nat): User {
    match pending
    case None => u
    case Some(p) => u.(password := Some(Bcrypt(p, salt)))
  }

  /** The record keeps its stored hash through every save that does not assign a new
      password, and a saved new password verifies against its plaintext. */
  lemma HashOnlyIfModified(u: User, pending: Option<string>, salt: nat)
    ensures pending.None? ==> Hashed(u, pending, salt).password == u.password
    ensures pending.Some? ==> Compare(pending, Hashed(u, pending, salt).password) == Ok(true)
    ensures Hashed(u, pending, salt).(password := u.password) == u
  {
  }

  /** Validating the plaintext before the hook agrees with validating the record it
      writes: a non-empty new password passes the schema before hashing exactly when
      the hashed record passes it with nothing pending. */
  lemma HashedSchema(u: User, password: string, salt: nat)
    requires password != ""
    ensures SchemaValid(Hashed(u, Some(password), salt), None) <==> SchemaValid(u, Some(password))
  {
    var h := Hashed(u, Some(password), salt);
    assert h.name == u.name && h.email == u.email && h.role == u.role && h.permissions == u.permissions;
    assert h.googleId == u.googleId && h.password.Some?;
  }

  /** `bcrypt.compare(candidate, hash)`: whether the candidate hashes to the stored
      value, or the error bcrypt throws when either argument is missing. */
  function Compare(candidate: Option<string>, hash: Option<PasswordHash>): Result<bool, string> {
    if candidate.None? || hash.None? then Err("data and hash arguments required")
    else Ok(hash.value.secret == candidate.value)
  }

  /** `incrementLoginAttempts`: one more failure; from the fifth on, the account is
      locked for thirty minutes from now. */
  function AfterFailedAttempt(u: User, now: int): User {
    var n := u.loginAttempts + 1;
    u.(loginAttempts := n, lockedUntil := if n >= MAX_LOGIN_ATTEMPTS as int then Some(now + LOCK_TIME) else u.lockedUntil)
  }

  /** `resetLoginAttempts` */
  function AfterReset(u: User): User {
    u.(loginAttempts := 0, lockedUntil := None)
  }

  /** A lock that `authenticateToken` enforces at time `now`. */
  predicate IsLocked(u: User, now: int) {
    u.lockedUntil.Some? && u.lockedUntil.value > now
  }

  /** The record after a failed attempt at each of the given instants, in order. */
  function AfterFailures(u: User, times: seq<int>): User
    decreases |times|
  {
    if times == [] then u else AfterFailures(AfterFailedAttempt(u, times[0]), times[1..])
  }

  /** A run of failures raises the counter by its length and touches nothing but the
      counter and the lock; the lock is the untouched one while the counter stays
      below five, and thirty minutes past the last failure once it reaches five. */
  lemma {:induction false} FailuresCount(u: User, times: seq<int>)
    ensures AfterFailures(u, times).loginAttempts == u.loginAttempts + |times|
    ensures AfterFailures(u, times).(loginAttempts := u.loginAttempts, lockedUntil := u.lockedUntil) == u
    ensures u.loginAttempts + |times| < MAX_LOGIN_ATTEMPTS as int ==> AfterFailures(u, times).lockedUntil == u.lockedUntil
    ensures times != [] && u.loginAttempts + |times| >= MAX_LOGIN_ATTEMPTS as int ==>
      AfterFailures(u, times).lockedUntil == Some(times[|times| - 1] + LOCK_TIME)
    decreases |times|
  {
    if times != [] {
      var v := AfterFailedAttempt(u, times[0]);
      FailuresCount(v, times[1..]);
      if |times| > 1 {
        assert times[1..][|times[1..]| - 1] == times[|times| - 1];
      }
    }
  }

  /** Five failures in a row lock a fresh account until thirty minutes after the fifth,
      and the lock is in force at every instant before that. */
  lemma FiveFailuresLock(u: User, times: seq<int>, t: int)
    requires u.loginAttempts == 0 && |times| == MAX_LOGIN_ATTEMPTS as int
    requires t < times[4] + LOCK_TIME
    ensures IsLocked(AfterFailures(u, times), t)
    ensures !IsLocked(AfterFailures(u, times), times[4] + LOCK_TIME)
  {
    FailuresCount(u, times);
  }

  /** Resetting clears counter and lock from any state, and lifts every lock. */
  lemma ResetUnlocks(u: User, now: int)
    ensures AfterReset(u).loginAttempts == 0 && AfterReset(u).lockedUntil.None?
    ensures AfterReset(u).(loginAttempts := u.loginAttempts, lockedUntil := u.lockedUntil) == u
    ensures !IsLocked(AfterReset(u), now)
  {
  }

  /** The counter and lock invariant the ensures of `incrementLoginAttempts` keep: an
      account that has reached five failures carries a lock. */
  predicate LockInvariant(u: User) {
    u.loginAttempts >= 0 && (u.loginAttempts >= MAX_LOGIN_ATTEMPTS as int ==> u.lockedUntil.Some?)
  }

  lemma LockInvariantPreserved(u: User, now: int)
    requires LockInvariant(u)
    ensures LockInvariant(AfterFailedAttempt(u, now))
    ensures LockInvariant(AfterReset(u))
  {
  }
}
