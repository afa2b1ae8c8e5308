/** The request guards of the authentication middleware: `authenticateToken`,
    `isAdmin`, `checkRole` and `checkPermission`. Each is an ordered chain of early
    answers; the model returns the answer or, for `authenticateToken`, the claims it
    attaches to the request as `req.user`. */
module AuthMiddleware {
  import opened Wrappers
  import opened Text
  import opened Jwt
  import opened UserModel
  import opened MfaCode
  import opened Store
  import opened Http

  /** The outcome of `authenticateToken`: the request goes on with `req.user` set to the
      claims, or is answered. */
  datatype Authenticated = Pass(user: Claims) | Refuse(reply: Reply)

  const TOKEN_REQUIRED: Reply := Reply(401, Message("Authentication token required"))
  const INVALID_TOKEN: Reply := Reply(403, Message("Invalid token"))
  const NOT_FOUND: Reply := Reply(404, Message("User not found"))
  const LOCKED_MESSAGE: string := "Account is locked. Please try again later."

  /** `authHeader && authHeader.split(' ')[1]`: the second space-separated field of the
      header, when there is one and it is not empty. */
  function BearerToken(header: Option<string>): (r: Option<string>)
    ensures r.Some? ==> r.value != "" && ' ' !in r.value
  {
    if header.None? then None
    else
      var parts := Split(header.value, ' ');
      SplitJoin(header.value, ' ');
      if |parts| >= 2 && parts[1] != "" then Some(parts[1]) else None
  }

  /** Whether claims name the fixed administrator that bypasses the store. */
  predicate IsFixedAdmin(c: Claims) {
    c.userId == Some(Name("admin")) && c.role == Some("admin")
  }

  /** The lock the record of the claims' owner carries, or `CastError`/`Missing`. Trainer
      claims are looked up among the trainers, all others among the users, and both by
      the `userId` claim. */
  function AccountLock(c: Claims, users: map<Id, User>, trainers: map<Id, Trainer>): Lookup<Option<int>> {
    if c.role == Some("trainer") then
      match LookupIn(trainers, c.userId)
      case Found(t) => Found(t.lockedUntil)
      case Missing => Missing
      case CastError => CastError
    else
      match LookupIn(users, c.userId)
      case Found(u) => Found(u.lockedUntil)
      case Missing => Missing
      case CastError => CastError
  }

  /** `authenticateToken`. `decode` turns the bearer text into the token it denotes.
      Every thrown error, a failed verification and a failed cast alike, is answered
      with 403 'Invalid token'. */
  function AuthenticateToken(header: Option<string>, decode: string -> Token, users: map<Id, User>,
                             trainers: map<Id, Trainer>, now: int): Authenticated
  {
    match BearerToken(header)
    case None => Refuse(TOKEN_REQUIRED)
    case Some(text) =>
      match Verify(decode(text), now)
      case Err(_) => Refuse(INVALID_TOKEN)
      case Ok(c) =>
        if IsFixedAdmin(c) then Pass(c)
        else
          match AccountLock(c, users, trainers)
          case CastError => Refuse(INVALID_TOKEN)
          case Missing => Refuse(NOT_FOUND)
          case Found(lock) =>
            if lock.Some? && lock.value > now then Refuse(Reply(403, Locked(LOCKED_MESSAGE, lock.value)))
            else Pass(c)
  }

  /** The request passes exactly when a bearer token is present and verifies, and its
      claims are either the fixed administrator's or name a stored account that is not
      locked now; it passes with the verified claims, unchanged. */
  lemma AuthenticateTokenPasses(header: Option<string>, decode: string -> Token, users: map<Id, User>,
                                trainers: map<Id, Trainer>, now: int)
    ensures AuthenticateToken(header, decode, users, trainers, now).Pass? <==>
      BearerToken(header).Some? && Verify(decode(BearerToken(header).value), now).Ok? &&
      var c := Verify(decode(BearerToken(header).value), now).value;
      IsFixedAdmin(c) ||
      (AccountLock(c, users, trainers).Found? &&
       (AccountLock(c, users, trainers).doc.None? || AccountLock(c, users, trainers).doc.value <= now))
    ensures AuthenticateToken(header, decode, users, trainers, now).Pass? ==>
      AuthenticateToken(header, decode, users, trainers, now).user == Verify(decode(BearerToken(header).value), now).value
  {
  }

  /** A header without a second field is refused with 401, whatever the stores hold. */
  lemma MissingBearerIs401(header: Option<string>, decode: string -> Token, users: map<Id, User>,
                           trainers: map<Id, Trainer>, now: int)
    requires header.None? || |Split(header.value, ' ')| < 2
    ensures AuthenticateToken(header, decode, users, trainers, now) == Refuse(TOKEN_REQUIRED)
  {
  }

  /** The fixed administrator passes with no record in either store. */
  lemma FixedAdminBypassesStore(text: string, decode: string -> Token, now: int)
    requires BearerToken(Some("Bearer " + text)).Some?
    requires decode(BearerToken(Some("Bearer " + text)).value) == Sign(UserClaims(Name("admin"), "admin"), now, 1)
    ensures AuthenticateToken(Some("Bearer " + text), decode, map[], map[], now) == Pass(UserClaims(Name("admin"), "admin"))
  {
  }

  /** Any refusal after a bearer token was found is 403, except a missing account (404):
      an expired or forged token is never answered with 401. */
  lemma RefusalStatuses(header: Option<string>, decode: string -> Token, users: map<Id, User>,
                        trainers: map<Id, Trainer>, now: int)
    requires BearerToken(header).Some?
    ensures var r := AuthenticateToken(header, decode, users, trainers, now);
      r.Refuse? ==> r.reply.status == 403 || r.reply == NOT_FOUND
    ensures Verify(decode(BearerToken(header).value), now).Err? ==>
      AuthenticateToken(header, decode, users, trainers, now) == Refuse(INVALID_TOKEN)
  {
  }

  /** Trainer tokens as the trainer login signs them carry `id`, not `userId`, so they
      are refused with 404 whatever the stores hold. */
  lemma TrainerTokensAreRefused(header: Option<string>, decode: string -> Token, users: map<Id, User>,
                                trainers: map<Id, Trainer>, now: int, id: Id)
    requires BearerToken(header).Some?
    requires Verify(decode(BearerToken(header).value), now) ==
      Ok(Claims(None, Some(Oid(id)), Some("trainer"), None, None, None))
    ensures AuthenticateToken(header, decode, users, trainers, now) == Refuse(NOT_FOUND)
  {
  }

  /** After five failed attempts a user's valid token is refused with 403 until thirty
      minutes after the fifth failure. */
  lemma LockedOutAfterFiveFailures(header: Option<string>, decode: string -> Token, users: map<Id, User>,
                                   trainers: map<Id, Trainer>, id: Id, times: seq<int>, now: int)
    requires id in users && users[id].loginAttempts == 0 && |times| == MAX_LOGIN_ATTEMPTS as int
    requires now < times[4] + LOCK_TIME
    requires BearerToken(header).Some?
    requires Verify(decode(BearerToken(header).value), now) == Ok(UserClaims(Oid(id), users[id].role))
    requires users[id].role != "admin" && users[id].role != "trainer"
    ensures AuthenticateToken(header, decode, users[id := AfterFailures(users[id], times)], trainers, now) ==
      Refuse(Reply(403, Locked(LOCKED_MESSAGE, times[4] + LOCK_TIME)))
  {
    FailuresCount(users[id], times);
    FiveFailuresLock(users[id], times, now);
  }

  // ---------------------------------------------------------------- isAdmin, checkRole, checkPermission

  /** `isAdmin` of the middleware: `user` is `req.user`. */
  function IsAdminGuard(user: Option<Claims>): (g: Gate)
    ensures g == Next <==> user.Some? && user.value.role == Some("admin")
    ensures user.None? ==> g == Stop(Reply(401, Message("Authentication required")))
    ensures user.Some? && user.value.role != Some("admin") ==> g == Stop(Reply(403, Message("Admin access required")))
  {
    if user.None? then Stop(Reply(401, Message("Authentication required")))
    else if user.value.role != Some("admin") then Stop(Reply(403, Message("Admin access required")))
    else Next
  }

  /** `checkRole(roles)`: a missing or empty role and a role outside the list are both
      refused with 403. */
  function CheckRole(roles: seq<string>, user: Option<Claims>): (g: Gate)
    ensures g == Next <==> user.Some? && Truthy(user.value.role) && user.value.role.value in roles
    ensures g != Next ==> g.reply.status == 403
  {
    if user.None? || !Truthy(user.value.role) then Stop(Reply(403, Message("Role information missing")))
    else if user.value.role.value !in roles then Stop(Reply(403, Message("Insufficient permissions")))
    else Next
  }

  /** `permissions.every(p => user.hasPermission(p))` */
  function HoldsAll(u: User, permissions: seq<string>): bool
    decreases |permissions|
  {
    permissions == [] || (HasPermission(u, permissions[0]) && HoldsAll(u, permissions[1..]))
  }

  lemma {:induction false} HoldsAllMeansEvery(u: User, permissions: seq<string>)
    ensures HoldsAll(u, permissions) <==> forall i :: 0 <= i < |permissions| ==> permissions[i] in u.permissions
    decreases |permissions|
  {
    if permissions != [] {
      HoldsAllMeansEvery(u, permissions[1..]);
      assert forall i :: 1 <= i < |permissions| ==> permissions[i] == permissions[1..][i - 1];
    }
  }

  /** `checkPermission(permissions)`: the caller's record is looked up by `userId`. */
  function CheckPermission(permissions: seq<string>, user: Claims, users: map<Id, User>): Gate {
    match LookupIn(users, user.userId)
    case CastError => Stop(Reply(500, Message("Server error")))
    case Missing => Stop(Reply(404, Message("User not found")))
    case Found(u) => if HoldsAll(u, permissions) then Next else Stop(Reply(403, Message("Insufficient permissions")))
  }

  /** A stored caller passes exactly when it holds every requested permission, so an
      empty request passes; the fixed administrator, who has no record, cannot pass. */
  lemma CheckPermissionPasses(permissions: seq<string>, user: Claims, users: map<Id, User>)
    ensures CheckPermission(permissions, user, users) == Next <==>
      LookupIn(users, user.userId).Found? &&
      forall i :: 0 <= i < |permissions| ==> permissions[i] in LookupIn(users, user.userId).doc.permissions
    ensures IsFixedAdmin(user) ==> CheckPermission(permissions, user, users) == Stop(Reply(500, Message("Server error")))
  {
    if LookupIn(users, user.userId).Found? {
      HoldsAllMeansEvery(LookupIn(users, user.userId).doc, permissions);
    }
  }
}
