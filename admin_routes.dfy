/** The routes under `/api/admin` that decide something: the `isAdmin` guard of this
    router, the login with the fixed administrator credentials, the dashboard guard
    and the role and permissions updates. */
module AdminRoutes {
  import opened Wrappers
  import opened Jwt
  import opened UserModel
  import opened Store
  import opened Http

  const ADMIN_EMAIL: string := "admin@example.com"
  const ADMIN_PASSWORD: string := "admin123"
  const SESSION_LIFETIME: nat := 24 * HOUR

  const ACCESS_DENIED: Reply := Reply(403, Message("Access denied. Admin only."))

  /** The claims of the fixed administrator's token. */
  const ADMIN_CLAIMS: Claims := Claims(Some(Name("admin")), None, Some("admin"), Some(ADMIN_EMAIL), None, None)

  /** `isAdmin` of this router: the fixed administrator passes without a lookup, any
      other caller needs a stored record with role 'admin'. */
  function AdminGuard(user: Claims, users: map<Id, User>): Gate {
    if user.userId == Some(Name("admin")) && user.role == Some("admin") then Next
    else
      match LookupIn(users, user.userId)
      case CastError => Stop(Reply(500, Message("Server error")))
      case Missing => Stop(ACCESS_DENIED)
      case Found(u) => if u.role != "admin" then Stop(ACCESS_DENIED) else Next
  }

  /** The guard passes exactly the fixed administrator and the stored administrators;
      every other refusal is 403 unless the id cannot be cast. */
  lemma AdminGuardPasses(user: Claims, users: map<Id, User>)
    ensures AdminGuard(user, users) == Next <==>
      (user.userId == Some(Name("admin")) && user.role == Some("admin")) ||
      (LookupIn(users, user.userId).Found? && LookupIn(users, user.userId).doc.role == "admin")
    ensures AdminGuard(user, users) != Next && !(user.userId.Some? && user.userId.value.Name?) ==>
      AdminGuard(user, users) == Stop(ACCESS_DENIED)
  {
  }

  /** `POST /login` of this router. */
  method AdminLogin(b: Backend, email: Option<string>, password: Option<string>, now: int) returns (reply: Reply)
    requires b.Valid()
    modifies b`auditLogs
    ensures b.Valid()
    ensures email == Some(ADMIN_EMAIL) && password == Some(ADMIN_PASSWORD) ==>
      reply == Reply(200, Session(Sign(ADMIN_CLAIMS, now, SESSION_LIFETIME))) &&
      b.auditLogs == old(b.auditLogs) + AuditRecord("admin", Some(ADMIN_EMAIL), "admin_login", "Admin login successful", "success", now)
    ensures !(email == Some(ADMIN_EMAIL) && password == Some(ADMIN_PASSWORD)) ==>
      reply == Reply(401, Message("Invalid admin credentials")) &&
      b.auditLogs == old(b.auditLogs) + AuditRecord("unknown", email, "admin_login", "Invalid admin credentials", "failure", now)
  {
    if email == Some(ADMIN_EMAIL) && password == Some(ADMIN_PASSWORD) {
      var token := Sign(ADMIN_CLAIMS, now, SESSION_LIFETIME);
      b.CreateAuditLog("admin", Some(ADMIN_EMAIL), "admin_login", "Admin login successful", "success", now);
      reply := Reply(200, Session(token));
    } else {
      b.CreateAuditLog("unknown", email, "admin_login", "Invalid admin credentials", "failure", now);
      reply := Reply(401, Message("Invalid admin credentials"));
    }
  }

  /** `GET /dashboard`: `user` is what `authenticateToken` attached. */
  function Dashboard(user: Claims): (r: Reply)
    ensures r.status == 200 <==> user.role == Some("admin")
    ensures r.status != 200 ==> r == Reply(403, Message("Access denied. Admin only."))
  {
    if user.role != Some("admin") then Reply(403, Message("Access denied. Admin only."))
    else Reply(200, Message("Admin dashboard data"))
  }

  /** `PATCH /users/:id/role`: the role is checked before the record is looked up;
      nothing else of the record changes. */
  method UpdateRole(b: Backend, id: ObjectRef, role: Option<string>) returns (reply: Reply)
    requires b.Valid()
    modifies b`users
    ensures b.Valid()
    ensures role != Some("user") && role != Some("admin") ==>
      reply == Reply(400, Message("Invalid role")) && b.users == old(b.users)
    ensures role == Some("user") || role == Some("admin") ==>
      match old(b.LookupUser(Some(id)))
      case CastError => reply == Reply(500, Message("Error updating user role")) && b.users == old(b.users)
      case Missing => reply == Reply(404, Message("User not found")) && b.users == old(b.users)
      case Found(u) =>
        reply == Reply(200, Message("User role updated successfully")) &&
        b.users == old(b.users)[u.id := u.(role := role.value)]
  {
    if role != Some("user") && role != Some("admin") {
      return Reply(400, Message("Invalid role"));
    }
    var found := b.LookupUser(Some(id));
    if found.CastError? {
      return Reply(500, Message("Error updating user role"));
    }
    if found.Missing? {
      return Reply(404, Message("User not found"));
    }
    var u := found.doc.(role := role.value);
    assert SettersApplied(b.users[u.id]);
    NoClashKeepingKeys(b.users, u);
    var err := b.SaveUser(u, None, 0);
    assert err.None?;
    reply := Reply(200, Message("User role updated successfully"));
  }

  /** `PATCH /users/:id/permissions`: `permissions` is `None` when the body's value is
      no array. The list is replaced wholesale; a value outside the enumeration makes
      the save fail. */
  method UpdatePermissions(b: Backend, id: ObjectRef, permissions: Option<seq<string>>) returns (reply: Reply)
    requires b.Valid()
    modifies b`users
    ensures b.Valid()
    ensures permissions.None? ==> reply == Reply(400, Message("Invalid permissions format")) && b.users == old(b.users)
    ensures permissions.Some? ==>
      match old(b.LookupUser(Some(id)))
      case CastError => reply == Reply(500, Message("Error updating user permissions")) && b.users == old(b.users)
      case Missing => reply == Reply(404, Message("User not found")) && b.users == old(b.users)
      case Found(u) =>
        var p := permissions.value;
        ((forall i :: 0 <= i < |p| ==> p[i] in PERMISSIONS) ==>
          reply == Reply(200, Message("User permissions updated successfully")) &&
          b.users == old(b.users)[u.id := u.(permissions := p)]) &&
        (!(forall i :: 0 <= i < |p| ==> p[i] in PERMISSIONS) ==>
          reply == Reply(500, Message("Error updating user permissions")) && b.users == old(b.users))
  {
    if permissions.None? {
      return Reply(400, Message("Invalid permissions format"));
    }
    var found := b.LookupUser(Some(id));
    if found.CastError? {
      return Reply(500, Message("Error updating user permissions"));
    }
    if found.Missing? {
      return Reply(404, Message("User not found"));
    }
    var u := found.doc.(permissions := permissions.value);
    assert SettersApplied(b.users[u.id]);
    NoClashKeepingKeys(b.users, u);
    var err := b.SaveUser(u, None, 0);
    if err.Some? {
      return Reply(500, Message("Error updating user permissions"));
    }
    reply := Reply(200, Message("User permissions updated successfully"));
  }
}
