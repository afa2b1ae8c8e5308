/** The older MFA router (`/verify`, `/enable`, `/disable`), which the server does not
    mount. Its `/verify` looks the code up across all users with a strict expiry
    test, and then signs a token through a `jwt` it never imports; the methods
    here model both that handler as written and the handler as evidently intended. */
module MfaRoutes {
  import opened Wrappers
  import opened Jwt
  import opened UserModel
  import opened MfaCode
  import opened Store
  import opened Http

  const VERIFY_SESSION_LIFETIME: nat := 24 * HOUR
  const INVALID_CODE_REPLY: Reply := Reply(401, Message("Invalid or expired verification code"))

  /** The lookup, clearing and auditing `/verify` does before it signs the token:
      some user whose code equals `code` and expires strictly after now has both code
      fields cleared and a success entry audited; when there is none, a failure entry
      is audited for 'unknown' and no record changes. */
  method ConsumeStrictCode(b: Backend, code: string, now: int) returns (found: Option<User>)
    requires b.Valid()
    modifies b`users, b`auditLogs
    ensures b.Valid()
    ensures found.None? <==> forall id :: id in old(b.users) ==> !StrictlyValid(old(b.users)[id], code, now)
    ensures found.None? ==>
      b.users == old(b.users) &&
      b.auditLogs == old(b.auditLogs) +
        AuditRecord("unknown", Some("unknown"), "verify_mfa", "Invalid or expired MFA code", "failure", now)
    ensures found.Some? ==>
      var u := found.value;
      u.id in old(b.users) && old(b.users)[u.id] == u && StrictlyValid(u, code, now) &&
      b.users == old(b.users)[u.id := ClearCode(u)] &&
      b.auditLogs == old(b.auditLogs) +
        AuditRecord(IdText(u.id), Some(u.email), "verify_mfa", "MFA verification successful", "success", now)
  {
    if exists id :: id in b.users && StrictlyValid(b.users[id], code, now) {
      var id :| id in b.users && StrictlyValid(b.users[id], code, now);
      var u := b.users[id];
      ClearCodeStored(u);
      b.PutUser(ClearCode(u));
      b.CreateAuditLog(IdText(u.id), Some(u.email), "verify_mfa", "MFA verification successful", "success", now);
      found := Some(u);
    } else {
      b.CreateAuditLog("unknown", Some("unknown"), "verify_mfa", "Invalid or expired MFA code", "failure", now);
      found := None;
    }
  }

  /** `POST /verify` as written: after the code was consumed, signing the token throws
      a ReferenceError, so a correct code is answered 500 and cannot be used again. */
  method VerifyAsWritten(b: Backend, code: string, now: int) returns (reply: Reply)
    requires b.Valid()
    modifies b`users, b`auditLogs
    ensures b.Valid()
    ensures (forall id :: id in old(b.users) ==> !StrictlyValid(old(b.users)[id], code, now)) ==>
      reply == INVALID_CODE_REPLY && b.users == old(b.users) &&
      b.auditLogs == old(b.auditLogs) +
        AuditRecord("unknown", Some("unknown"), "verify_mfa", "Invalid or expired MFA code", "failure", now)
    ensures (exists id :: id in old(b.users) && StrictlyValid(old(b.users)[id], code, now)) ==>
      reply == Reply(500, Message("Server error during verification")) &&
      exists id :: id in old(b.users) && StrictlyValid(old(b.users)[id], code, now) &&
        b.users == old(b.users)[id := ClearCode(old(b.users)[id])] &&
        b.auditLogs == old(b.auditLogs) +
          AuditRecord(IdText(id), Some(old(b.users)[id].email), "verify_mfa", "MFA verification successful", "success", now)
  {
    var found := ConsumeStrictCode(b, code, now);
    if found.None? {
      return INVALID_CODE_REPLY;
    }
    reply := Reply(500, Message("Server error during verification"));
  }

  /** `POST /verify` with `jsonwebtoken` imported: the consumed code yields a 24-hour
      session for its owner. */
  method Verify(b: Backend, code: string, now: int) returns (reply: Reply)
    requires b.Valid()
    modifies b`users, b`auditLogs
    ensures b.Valid()
    ensures (forall id :: id in old(b.users) ==> !StrictlyValid(old(b.users)[id], code, now)) ==>
      reply == INVALID_CODE_REPLY && b.users == old(b.users) &&
      b.auditLogs == old(b.auditLogs) +
        AuditRecord("unknown", Some("unknown"), "verify_mfa", "Invalid or expired MFA code", "failure", now)
    ensures (exists id :: id in old(b.users) && StrictlyValid(old(b.users)[id], code, now)) ==>
      exists id :: id in old(b.users) && StrictlyValid(old(b.users)[id], code, now) &&
        b.users == old(b.users)[id := ClearCode(old(b.users)[id])] &&
        b.auditLogs == old(b.auditLogs) +
          AuditRecord(IdText(id), Some(old(b.users)[id].email), "verify_mfa", "MFA verification successful", "success", now) &&
        reply == Reply(200, Session(Sign(UserClaims(Oid(id), old(b.users)[id].role), now, VERIFY_SESSION_LIFETIME)))
  {
    var found := ConsumeStrictCode(b, code, now);
    if found.None? {
      return INVALID_CODE_REPLY;
    }
    var u := found.value;
    reply := Reply(200, Session(Sign(UserClaims(Oid(u.id), u.role), now, VERIFY_SESSION_LIFETIME)));
  }

  /** One user holding the code "482913", issued at time 0 and presented a minute
      later. The as-written handler answers 500 and clears the code, so the same code
      presented again is refused; the intended handler answers 200. */
  method VerifyScenario() returns (first: Reply, second: Reply, intended: Reply)
    ensures first == Reply(500, Message("Server error during verification"))
    ensures second == INVALID_CODE_REPLY
    ensures intended.status == 200
  {
    var code := "482913";
    var u := CodeHolder(code);
    var b := SingleUserBackend(u);
    assert 0 in b.users && StrictlyValid(b.users[0], code, MINUTE);
    first := VerifyAsWritten(b, code, MINUTE);
    assert b.users == map[0 := ClearCode(u)];
    assert !StrictlyValid(b.users[0], code, MINUTE);
    second := VerifyAsWritten(b, code, MINUTE);
    var c := SingleUserBackend(u);
    assert 0 in c.users && StrictlyValid(c.users[0], code, MINUTE);
    intended := Verify(c, code, MINUTE);
  }

  /** A stored user, id 0, holding `code` issued at time 0. */
  function CodeHolder(code: string): (u: User)
    requires IsMfaCode(code)
    ensures u.id == 0 && StoredUser(u) && SettersApplied(u) && StrictlyValid(u, code, MINUTE)
  {
    IssueCode(User(0, "n", "e", None, Some("g"), "user", [], true, None, None, 0, None), code, 0, CODE_LIFETIME)
  }

  /** A fresh store holding one stored user under id 0. */
  method SingleUserBackend(u: User) returns (b: Backend)
    requires u.id == 0 && StoredUser(u) && SettersApplied(u)
    ensures fresh(b) && b.Valid() && b.users == map[0 := u]
  {
    b := new Backend();
    b.nextId := 1;
    b.users := map[0 := u];
  }

  /** `POST /enable`: `user` is `req.user`, which no middleware sets on this router, so
      reading its `userId` throws when it is absent. MFA is turned on with no code
      check. */
  method Enable(b: Backend, user: Option<Claims>, now: int) returns (reply: Reply)
    requires b.Valid()
    modifies b`users, b`auditLogs
    ensures b.Valid()
    ensures user.None? ==>
      reply == Reply(500, Message("Server error while enabling MFA")) && b.users == old(b.users) && b.auditLogs == old(b.auditLogs)
    ensures user.Some? ==>
      match old(b.LookupUser(user.value.userId))
      case CastError =>
        reply == Reply(500, Message("Server error while enabling MFA")) && b.users == old(b.users) && b.auditLogs == old(b.auditLogs)
      case Missing =>
        reply == Reply(404, Message("User not found")) && b.users == old(b.users) && b.auditLogs == old(b.auditLogs)
      case Found(u) =>
        reply == Reply(200, Message("MFA enabled successfully")) &&
        b.users == old(b.users)[u.id := u.(mfaEnabled := true)] &&
        b.auditLogs == old(b.auditLogs) +
          AuditRecord(IdText(u.id), Some(u.email), "enable_mfa", "MFA enabled successfully", "success", now)
  {
    if user.None? {
      return Reply(500, Message("Server error while enabling MFA"));
    }
    var found := b.LookupUser(user.value.userId);
    if found.CastError? {
      return Reply(500, Message("Server error while enabling MFA"));
    }
    if found.Missing? {
      return Reply(404, Message("User not found"));
    }
    var u := found.doc;
    b.PutUser(u.(mfaEnabled := true));
    b.CreateAuditLog(IdText(u.id), Some(u.email), "enable_mfa", "MFA enabled successfully", "success", now);
    reply := Reply(200, Message("MFA enabled successfully"));
  }

  /** `POST /disable`: MFA is turned off and both code fields are cleared together. */
  method Disable(b: Backend, user: Option<Claims>, now: int) returns (reply: Reply)
    requires b.Valid()
    modifies b`users, b`auditLogs
    ensures b.Valid()
    ensures user.None? ==>
      reply == Reply(500, Message("Server error while disabling MFA")) && b.users == old(b.users) && b.auditLogs == old(b.auditLogs)
    ensures user.Some? ==>
      match old(b.LookupUser(user.value.userId))
      case CastError =>
        reply == Reply(500, Message("Server error while disabling MFA")) && b.users == old(b.users) && b.auditLogs == old(b.auditLogs)
      case Missing =>
        reply == Reply(404, Message("User not found")) && b.users == old(b.users) && b.auditLogs == old(b.auditLogs)
      case Found(u) =>
        reply == Reply(200, Message("MFA disabled successfully")) &&
        b.users == old(b.users)[u.id := ClearCode(u).(mfaEnabled := false)] &&
        b.auditLogs == old(b.auditLogs) +
          AuditRecord(IdText(u.id), Some(u.email), "disable_mfa", "MFA disabled successfully", "success", now)
  {
    if user.None? {
      return Reply(500, Message("Server error while disabling MFA"));
    }
    var found := b.LookupUser(user.value.userId);
    if found.CastError? {
      return Reply(500, Message("Server error while disabling MFA"));
    }
    if found.Missing? {
      return Reply(404, Message("User not found"));
    }
    var u := found.doc;
    b.PutUser(ClearCode(u).(mfaEnabled := false));
    b.CreateAuditLog(IdText(u.id), Some(u.email), "disable_mfa", "MFA disabled successfully", "success", now);
    reply := Reply(200, Message("MFA disabled successfully"));
  }
}
