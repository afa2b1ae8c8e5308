/** The routes under `/api/auth`: administrator login, signup, password login with
    the MFA challenge, resending and verifying the code, setting MFA up and tearing
    it down, the MFA status, account deletion, the Google OAuth callback and the
    request for a deletion code. Each handler is a method over the store; the
    request body fields are parameters (`None` for a field the body leaves out),
    `now` is the clock, `delivered` the outcome of the mail transport and `salt`
    the salt bcrypt generates. Handlers behind `authenticateToken` receive the
    claims it put on the request. */
module AuthRoutes {
  import opened Wrappers
  import opened Text
  import opened Jwt
  import opened UserModel
  import opened MfaCode
  import opened Store
  import opened Http

  const SESSION_LIFETIME: nat := 24 * HOUR
  const MFA_SESSION_LIFETIME: nat := 7 * DAY
  const MIN_PASSWORD_LENGTH: nat := 6

  const INVALID_CREDENTIALS: Reply := Reply(401, Message("Invalid credentials"))
  const INVALID_TEMP_TOKEN: Reply := Reply(401, Coded("Invalid or expired temporary token", "INVALID_TEMP_TOKEN"))
  const USER_NOT_FOUND: Reply := Reply(404, Message("User not found"))
  const SERVER_ERROR: Reply := Reply(500, Message("Server error"))

  /** Whether the store, the audit log and the mail are exactly as before. */
  twostate predicate Unchanged(b: Backend)
    reads b
  {
    b.users == old(b.users) && b.trainers == old(b.trainers) && b.auditLogs == old(b.auditLogs)
    && b.nextId == old(b.nextId) && b.outbox == old(b.outbox)
  }

  /** A non-empty run of characters that are neither white space nor '@'. */
  predicate AddressPart(s: string) {
    |s| > 0 && forall i :: 0 <= i < |s| ==> !IsJsSpace(s[i]) && s[i] != '@'
  }

  /** `/^[^\s@]+@[^\s@]+\.[^\s@]+$/.test(s)`: a local part, '@', and a domain with a dot
      that is neither its first nor its last character. */
  predicate IsEmailAddress(s: string) {
    exists k :: 0 < k < |s| && s[k] == '@' && AddressPart(s[..k]) && AddressPart(s[k + 1..])
      && exists j :: k + 1 < j < |s| - 1 && s[j] == '.'
  }

  /** An address the signup pattern accepts has no white space to trim. */
  lemma EmailAddressTrimmed(s: string)
    requires IsEmailAddress(s)
    ensures Trim(s) == s && NormalEmail(s) != ""
  {
    var k :| 0 < k < |s| && s[k] == '@' && AddressPart(s[..k]) && AddressPart(s[k + 1..]);
    forall i | 0 <= i < |s| ensures !IsJsSpace(s[i]) {
      if i < k {
        assert s[i] == s[..k][i];
      } else if i > k {
        assert s[i] == s[k + 1..][i - k - 1];
      }
    }
    TrimNoSpace(s);
  }

  /** The claims of the final token of `/verify-mfa` and of the temporary token of
      `/resend-mfa` and the OAuth callback. */
  function ProfileClaims(u: User, isOAuth: bool): Claims {
    Claims(Some(Oid(u.id)), None, Some(u.role), Some(u.email), Some(u.name), Some(isOAuth))
  }

  /** The record signup creates before saving it; the schema's setters trim the
      name and trim and lower-case the email as the fields are assigned. */
  function SignupRecord(id: Id, name: string, email: string, role: string): User {
    User(id, Trim(name), NormalEmail(email), None, None, role, ["read", "write"], false, None, None, 0, None)
  }

  /** A signup whose fields passed the route's own checks fails the schema only on a
      role outside the enumeration or on a name or email that is all white space
      (the route tests the raw fields, `required` the trimmed ones). */
  lemma SignupSchema(id: Id, name: string, email: string, role: string, password: string)
    requires name != "" && email != "" && |password| >= MIN_PASSWORD_LENGTH
    ensures SchemaValid(SignupRecord(id, name, email, role), Some(password)) <==>
      role in ROLES && Trim(name) != "" && Trim(email) != ""
    ensures StoredUser(Hashed(SignupRecord(id, name, email, role), Some(password), 0)) <==>
      role in ROLES && Trim(name) != "" && Trim(email) != ""
  {
    var u := SignupRecord(id, name, email, role);
    SetterRecord(u, name, email);
    assert forall i :: 0 <= i < |u.permissions| ==> u.permissions[i] in PERMISSIONS by {
      assert u.permissions == ["read", "write"];
    }
    assert PasswordRequired(u) && password != "";
    assert SchemaValid(u, Some(password)) <==> u.name != "" && u.email != "" && role in ROLES;
    var h := Hashed(u, Some(password), 0);
    HashedSchema(u, password, 0);
    assert h.mfaCode == None && h.mfaCodeExpires == None && h.loginAttempts == 0;
    FreshRecordStored(h);
  }

  // ---------------------------------------------------------------- admin login

  /** `POST /admin/login`: the credentials are compared with the two environment
      variables (`None` when unset). */
  method AdminLogin(b: Backend, email: Option<string>, password: Option<string>,
                    adminEmail: Option<string>, adminPassword: Option<string>, now: int) returns (reply: Reply)
    requires b.Valid()
    modifies b`auditLogs
    ensures b.Valid()
    ensures email != adminEmail || password != adminPassword ==>
      reply == Reply(401, Message("Invalid admin credentials")) &&
      b.auditLogs == old(b.auditLogs) + AuditRecord("unknown", email, "admin_login", "Invalid admin credentials", "failure", now)
    ensures email == adminEmail && password == adminPassword ==>
      reply == Reply(200, Session(Sign(UserClaims(Name("admin"), "admin"), now, SESSION_LIFETIME))) &&
      b.auditLogs == old(b.auditLogs) + AuditRecord("admin", email, "admin_login", "Admin login successful", "success", now)
  {
    if email != adminEmail || password != adminPassword {
      b.CreateAuditLog("unknown", email, "admin_login", "Invalid admin credentials", "failure", now);
      return Reply(401, Message("Invalid admin credentials"));
    }
    var token := Sign(UserClaims(Name("admin"), "admin"), now, SESSION_LIFETIME);
    b.CreateAuditLog("admin", email, "admin_login", "Admin login successful", "success", now);
    reply := Reply(200, Session(token));
  }

  // ---------------------------------------------------------------- signup

  /** `POST /signup` */
  method Signup(b: Backend, name: Option<string>, email: Option<string>, password: Option<string>,
                role: Option<string>, salt: nat, now: int) returns (reply: Reply)
    requires b.Valid()
    modifies b`users, b`nextId, b`auditLogs
    ensures b.Valid()
    ensures b.trainers == old(b.trainers) && b.outbox == old(b.outbox)
    ensures !Truthy(name) || !Truthy(email) || !Truthy(password) ==>
      reply == Reply(400, Message("Name, email and password are required")) && Unchanged(b)
    ensures Truthy(name) && Truthy(email) && Truthy(password) ==>
      (!IsEmailAddress(email.value) ==>
        reply == Reply(400, Message("Invalid email format")) && Unchanged(b)) &&
      (IsEmailAddress(email.value) && |password.value| < MIN_PASSWORD_LENGTH ==>
        reply == Reply(400, Message("Password must be at least 6 characters long")) && Unchanged(b)) &&
      (IsEmailAddress(email.value) && |password.value| >= MIN_PASSWORD_LENGTH && role == Some("admin") ==>
        reply == Reply(403, Message("Cannot create admin users through signup")) && Unchanged(b))
    ensures Truthy(name) && Truthy(email) && Truthy(password) && IsEmailAddress(email.value)
            && |password.value| >= MIN_PASSWORD_LENGTH && role != Some("admin") ==>
      var r := role.GetOr("user");
      var u := SignupRecord(old(b.nextId), name.value, email.value, r);
      (UserWithEmail(old(b.users), email.value).Some? ==>
        reply == Reply(400, Message("Email already registered")) &&
        b.users == old(b.users) && b.nextId == old(b.nextId) &&
        b.auditLogs == old(b.auditLogs) + AuditRecord("unknown", email, "signup", "Email already registered", "failure", now)) &&
      (UserWithEmail(old(b.users), email.value).None? && (r !in ROLES || Trim(name.value) == "") ==>
        reply == Reply(400, ValidationFailed) &&
        b.users == old(b.users) && b.nextId == old(b.nextId) + 1 && b.auditLogs == old(b.auditLogs)) &&
      (UserWithEmail(old(b.users), email.value).None? && r in ROLES && Trim(name.value) != "" ==>
        reply == Reply(201, Session(Sign(UserClaims(Oid(u.id), r), now, SESSION_LIFETIME))) &&
        b.users == old(b.users)[u.id := Hashed(u, password, salt)] && b.nextId == old(b.nextId) + 1 &&
        b.auditLogs == old(b.auditLogs) + AuditRecord(IdText(u.id), Some(u.email), "signup", "Account created successfully", "success", now))
  {
    if !Truthy(email) || !Truthy(password) || !Truthy(name) {
      return Reply(400, Message("Name, email and password are required"));
    }
    if !IsEmailAddress(email.value) {
      return Reply(400, Message("Invalid email format"));
    }
    if |password.value| < MIN_PASSWORD_LENGTH {
      return Reply(400, Message("Password must be at least 6 characters long"));
    }
    if role == Some("admin") {
      return Reply(403, Message("Cannot create admin users through signup"));
    }
    reply := SignupChecked(b, name.value, email.value, password.value, role.GetOr("user"), salt, now);
  }

  /** The part of `POST /signup` after the request checks: the duplicate lookup, the
      save with its schema validation, the audit entry and the session token. */
  method SignupChecked(b: Backend, name: string, email: string, password: string, r: string,
                       salt: nat, now: int) returns (reply: Reply)
    requires b.Valid() && name != "" && IsEmailAddress(email) && |password| >= MIN_PASSWORD_LENGTH
    modifies b`users, b`nextId, b`auditLogs
    ensures b.Valid()
    ensures var u := SignupRecord(old(b.nextId), name, email, r);
      (UserWithEmail(old(b.users), email).Some? ==>
        reply == Reply(400, Message("Email already registered")) &&
        b.users == old(b.users) && b.nextId == old(b.nextId) &&
        b.auditLogs == old(b.auditLogs) + AuditRecord("unknown", Some(email), "signup", "Email already registered", "failure", now)) &&
      (UserWithEmail(old(b.users), email).None? && (r !in ROLES || Trim(name) == "") ==>
        reply == Reply(400, ValidationFailed) &&
        b.users == old(b.users) && b.nextId == old(b.nextId) + 1 && b.auditLogs == old(b.auditLogs)) &&
      (UserWithEmail(old(b.users), email).None? && r in ROLES && Trim(name) != "" ==>
        reply == Reply(201, Session(Sign(UserClaims(Oid(u.id), r), now, SESSION_LIFETIME))) &&
        b.users == old(b.users)[u.id := Hashed(u, Some(password), salt)] && b.nextId == old(b.nextId) + 1 &&
        b.auditLogs == old(b.auditLogs) + AuditRecord(IdText(u.id), Some(u.email), "signup", "Account created successfully", "success", now))
  {
    var existing := b.FindUserByEmail(email);
    if existing.Some? {
      b.CreateAuditLog("unknown", Some(email), "signup", "Email already registered", "failure", now);
      return Reply(400, Message("Email already registered"));
    }
    EmailAddressTrimmed(email);
    reply := CreateSignupUser(b, name, email, password, r, salt, now);
  }

  /** The part of `POST /signup` for an address not yet registered: `new User`, the
      save, the audit entry and the session token. */
  method CreateSignupUser(b: Backend, name: string, email: string, password: string, r: string,
                          salt: nat, now: int) returns (reply: Reply)
    requires b.Valid() && name != "" && Trim(email) != "" && |password| >= MIN_PASSWORD_LENGTH
    requires UserWithEmail(b.users, email).None?
    modifies b`users, b`nextId, b`auditLogs
    ensures b.Valid() && b.nextId == old(b.nextId) + 1
    ensures var u := SignupRecord(old(b.nextId), name, email, r);
      (r !in ROLES || Trim(name) == "" ==>
        reply == Reply(400, ValidationFailed) && b.users == old(b.users) && b.auditLogs == old(b.auditLogs)) &&
      (r in ROLES && Trim(name) != "" ==>
        reply == Reply(201, Session(Sign(UserClaims(Oid(u.id), r), now, SESSION_LIFETIME))) &&
        b.users == old(b.users)[u.id := Hashed(u, Some(password), salt)] &&
        b.auditLogs == old(b.auditLogs) + AuditRecord(IdText(u.id), Some(u.email), "signup", "Account created successfully", "success", now))
  {
    var id := b.nextId;
    var saved := SaveSignupRecord(b, name, email, password, r, salt);
    if !saved {
      return Reply(400, ValidationFailed);
    }
    var u := SignupRecord(id, name, email, r);
    b.CreateAuditLog(IdText(id), Some(u.email), "signup", "Account created successfully", "success", now);
    reply := Reply(201, Session(Sign(UserClaims(Oid(id), r), now, SESSION_LIFETIME)));
  }

  /** `new User({ ... })` and `user.save()` for an address not yet registered: the
      save fails validation exactly on a role outside the enumeration or a name of
      white space only, and otherwise stores the record with its password hashed. */
  method SaveSignupRecord(b: Backend, name: string, email: string, password: string, r: string,
                          salt: nat) returns (saved: bool)
    requires b.Valid() && name != "" && Trim(email) != "" && |password| >= MIN_PASSWORD_LENGTH
    requires UserWithEmail(b.users, email).None?
    modifies b`users, b`nextId
    ensures b.Valid() && b.nextId == old(b.nextId) + 1
    ensures saved <==> r in ROLES && Trim(name) != ""
    ensures var u := SignupRecord(old(b.nextId), name, email, r);
      b.users == if saved then old(b.users)[u.id := Hashed(u, Some(password), salt)] else old(b.users)
  {
    var id := b.NewId();
    var u := SignupRecord(id, name, email, r);
    SignupSchema(id, name, email, r, password);
    SetterRecord(u, name, email);
    var err := b.SaveUser(u, Some(password), salt);
    saved := err.None?;
  }

  // ---------------------------------------------------------------- login

  /** Issues a fresh code with the given lifetime onto a stored record. */
  method IssueCodeTo(b: Backend, u: User, now: int, lifetime: nat) returns (code: string)
    requires b.Valid() && u.id in b.users && b.users[u.id] == u
    modifies b`users
    ensures b.Valid() && IsMfaCode(code)
    ensures b.users == old(b.users)[u.id := IssueCode(u, code, now, lifetime)]
  {
    code := GenerateMfaCode();
    ChallengeInvariantKept(u, code, now, lifetime);
    b.PutUser(IssueCode(u, code, now, lifetime));
  }

  /** `POST /login`. The login-attempt counters and the lock are neither consulted
      nor updated here. `code` is the code issued and mailed in the MFA branch. */
  method Login(b: Backend, email: string, password: Option<string>, now: int, delivered: bool)
    returns (reply: Reply, code: string)
    requires b.Valid()
    modifies b`users, b`auditLogs, b`outbox
    ensures b.Valid()
    ensures b.trainers == old(b.trainers) && b.nextId == old(b.nextId)
    ensures UserWithEmail(old(b.users), email).None? ==>
      reply == INVALID_CREDENTIALS && b.users == old(b.users) && b.outbox == old(b.outbox) &&
      b.auditLogs == old(b.auditLogs) + AuditRecord("unknown", Some(email), "login", "Invalid credentials", "failure", now)
    ensures UserWithEmail(old(b.users), email).Some? ==>
      var u := UserWithEmail(old(b.users), email).value;
      (Compare(password, u.password).Err? ==>
        reply == Reply(500, Message("Server error during login")) && Unchanged(b)) &&
      (Compare(password, u.password) == Ok(false) ==>
        reply == INVALID_CREDENTIALS && b.users == old(b.users) && b.outbox == old(b.outbox) &&
        b.auditLogs == old(b.auditLogs) + AuditRecord(IdText(u.id), Some(u.email), "login", "Invalid password", "failure", now)) &&
      (Compare(password, u.password) == Ok(true) && !u.mfaEnabled ==>
        reply == Reply(200, Session(Sign(UserClaims(Oid(u.id), u.role), now, SESSION_LIFETIME))) &&
        b.users == old(b.users) && b.outbox == old(b.outbox) &&
        b.auditLogs == old(b.auditLogs) + AuditRecord(IdText(u.id), Some(u.email), "login", "Login successful", "success", now)) &&
      (Compare(password, u.password) == Ok(true) && u.mfaEnabled ==>
        IsMfaCode(code) &&
        b.users == old(b.users)[u.id := IssueCode(u, code, now, LOGIN_CODE_LIFETIME)] &&
        b.outbox == old(b.outbox) + (if delivered then [Mail(email, code)] else []) &&
        (!delivered ==> reply == Reply(500, Message("Server error during login")) && b.auditLogs == old(b.auditLogs)) &&
        (delivered ==>
          reply == Reply(200, MfaChallenge(Sign(UserClaims(Oid(u.id), u.role), now, LOGIN_CODE_LIFETIME), now + LOGIN_CODE_LIFETIME)) &&
          b.auditLogs == old(b.auditLogs) + AuditRecord(IdText(u.id), Some(u.email), "login", "MFA code sent", "success", now)))
  {
    code := "";
    var found := b.FindUserByEmail(email);
    if found.None? {
      b.CreateAuditLog("unknown", Some(email), "login", "Invalid credentials", "failure", now);
      return INVALID_CREDENTIALS, code;
    }
    var u := found.value;
    var valid := Compare(password, u.password);
    if valid.Err? {
      return Reply(500, Message("Server error during login")), code;
    }
    if !valid.value {
      b.CreateAuditLog(IdText(u.id), Some(u.email), "login", "Invalid password", "failure", now);
      return INVALID_CREDENTIALS, code;
    }
    if u.mfaEnabled {
      reply, code := LoginChallenge(b, u, email, now, delivered);
    } else {
      var token := Sign(UserClaims(Oid(u.id), u.role), now, SESSION_LIFETIME);
      b.CreateAuditLog(IdText(u.id), Some(u.email), "login", "Login successful", "success", now);
      reply := Reply(200, Session(token));
    }
  }

  /** The MFA branch of `POST /login`: a fresh code is stored on the record and mailed,
      and the reply carries a temporary token that lives as long as the code. */
  method LoginChallenge(b: Backend, u: User, email: string, now: int, delivered: bool)
    returns (reply: Reply, code: string)
    requires b.Valid() && u.id in b.users && b.users[u.id] == u
    modifies b`users, b`auditLogs, b`outbox
    ensures b.Valid()
    ensures b.trainers == old(b.trainers) && b.nextId == old(b.nextId)
    ensures IsMfaCode(code)
    ensures b.users == old(b.users)[u.id := IssueCode(u, code, now, LOGIN_CODE_LIFETIME)]
    ensures b.outbox == old(b.outbox) + (if delivered then [Mail(email, code)] else [])
    ensures !delivered ==> reply == Reply(500, Message("Server error during login")) && b.auditLogs == old(b.auditLogs)
    ensures delivered ==>
      reply == Reply(200, MfaChallenge(Sign(UserClaims(Oid(u.id), u.role), now, LOGIN_CODE_LIFETIME), now + LOGIN_CODE_LIFETIME)) &&
      b.auditLogs == old(b.auditLogs) + AuditRecord(IdText(u.id), Some(u.email), "login", "MFA code sent", "success", now)
  {
    code := IssueCodeTo(b, u, now, LOGIN_CODE_LIFETIME);
    var sent := b.SendMfaCode(email, code, delivered);
    if !sent {
      return Reply(500, Message("Server error during login")), code;
    }
    b.CreateAuditLog(IdText(u.id), Some(u.email), "login", "MFA code sent", "success", now);
    var tempToken := Sign(UserClaims(Oid(u.id), u.role), now, LOGIN_CODE_LIFETIME);
    reply := Reply(200, MfaChallenge(tempToken, now + LOGIN_CODE_LIFETIME));
  }

  // ---------------------------------------------------------------- resend

  /** `POST /resend-mfa`: any token that verifies and names a stored user will do. */
  method ResendMfa(b: Backend, tempToken: Token, isOAuth: Option<string>, now: int, delivered: bool)
    returns (reply: Reply, code: string)
    requires b.Valid()
    modifies b`users, b`auditLogs, b`outbox
    ensures b.Valid()
    ensures b.trainers == old(b.trainers) && b.nextId == old(b.nextId)
    ensures Verify(tempToken, now) == Err(JsonWebTokenError) ==> reply == INVALID_TEMP_TOKEN && Unchanged(b)
    ensures Verify(tempToken, now) == Err(TokenExpiredError) ==> reply == SERVER_ERROR && Unchanged(b)
    ensures Verify(tempToken, now).Ok? ==>
      match old(b.LookupUser(Verify(tempToken, now).value.userId))
      case CastError => reply == SERVER_ERROR && Unchanged(b)
      case Missing => reply == USER_NOT_FOUND && Unchanged(b)
      case Found(u) =>
        IsMfaCode(code) &&
        b.users == old(b.users)[u.id := IssueCode(u, code, now, CODE_LIFETIME)] &&
        b.outbox == old(b.outbox) + (if delivered then [Mail(u.email, code)] else []) &&
        (!delivered ==> reply == SERVER_ERROR && b.auditLogs == old(b.auditLogs)) &&
        (delivered ==>
          reply == Reply(200, CodeResent(Sign(ProfileClaims(u, isOAuth == Some("true")), now, CODE_LIFETIME), now + CODE_LIFETIME)) &&
          b.auditLogs == old(b.auditLogs) + AuditRecord(IdText(u.id), Some(u.email), "mfa_resend", "MFA code resent", "success", now))
  {
    code := "";
    var decoded := Verify(tempToken, now);
    if decoded.Err? {
      return if decoded.error == JsonWebTokenError then INVALID_TEMP_TOKEN else SERVER_ERROR, code;
    }
    var found := b.LookupUser(decoded.value.userId);
    if found.CastError? {
      return SERVER_ERROR, code;
    }
    if found.Missing? {
      return USER_NOT_FOUND, code;
    }
    var u := found.doc;
    var issued := IssueCodeTo(b, u, now, CODE_LIFETIME);
    code := issued;
    var newTempToken := Sign(ProfileClaims(u, isOAuth == Some("true")), now, CODE_LIFETIME);
    var sent := b.SendMfaCode(u.email, issued, delivered);
    if !sent {
      return SERVER_ERROR, code;
    }
    b.CreateAuditLog(IdText(u.id), Some(u.email), "mfa_resend", "MFA code resent", "success", now);
    reply := Reply(200, CodeResent(newTempToken, now + CODE_LIFETIME));
  }

  // ---------------------------------------------------------------- verify

  function CheckReply(c: CodeCheck): Reply {
    match c
    case NoCode => Reply(401, Coded("No MFA code found. Please request a new code.", "NO_MFA_CODE"))
    case Expired => Reply(401, Coded("Verification code expired", "CODE_EXPIRED"))
    case Mismatch => Reply(401, Coded("Invalid verification code", "INVALID_CODE"))
    case Accepted => Reply(200, Message("MFA verification successful"))
  }

  /** `POST /verify-mfa`: the check chain, then the code is cleared and a seven-day
      token issued. A refused code leaves the record as it was. */
  method VerifyMfa(b: Backend, code: Option<string>, tempToken: Token, isOAuth: Option<string>, now: int)
    returns (reply: Reply)
    requires b.Valid()
    modifies b`users, b`auditLogs
    ensures b.Valid()
    ensures b.trainers == old(b.trainers) && b.nextId == old(b.nextId)
    ensures Verify(tempToken, now) == Err(JsonWebTokenError) ==> reply == INVALID_TEMP_TOKEN && Unchanged(b)
    ensures Verify(tempToken, now) == Err(TokenExpiredError) ==>
      reply == Reply(500, Message("Server error during MFA verification")) && Unchanged(b)
    ensures Verify(tempToken, now).Ok? ==>
      match old(b.LookupUser(Verify(tempToken, now).value.userId))
      case CastError => reply == Reply(500, Message("Server error during MFA verification")) && Unchanged(b)
      case Missing => reply == USER_NOT_FOUND && Unchanged(b)
      case Found(u) =>
        (CheckCode(u, code, now) != Accepted ==> reply == CheckReply(CheckCode(u, code, now)) && Unchanged(b)) &&
        (CheckCode(u, code, now) == Accepted ==>
          reply == Reply(200, Session(Sign(ProfileClaims(u, isOAuth == Some("true")), now, MFA_SESSION_LIFETIME))) &&
          b.users == old(b.users)[u.id := ClearCode(u)] &&
          b.auditLogs == old(b.auditLogs) + AuditRecord(IdText(u.id), Some(u.email), "mfa_verification", "MFA verification successful", "success", now))
  {
    var decoded := Verify(tempToken, now);
    if decoded.Err? {
      return if decoded.error == JsonWebTokenError then INVALID_TEMP_TOKEN
        else Reply(500, Message("Server error during MFA verification"));
    }
    var found := b.LookupUser(decoded.value.userId);
    if found.CastError? {
      return Reply(500, Message("Server error during MFA verification"));
    }
    if found.Missing? {
      return USER_NOT_FOUND;
    }
    var u := found.doc;
    var check := CheckCode(u, code, now);
    if check != Accepted {
      return CheckReply(check);
    }
    ChallengeInvariantKept(u, "100000", now, 0);
    b.PutUser(ClearCode(u));
    var finalToken := Sign(ProfileClaims(u, isOAuth == Some("true")), now, MFA_SESSION_LIFETIME);
    b.CreateAuditLog(IdText(u.id), Some(u.email), "mfa_verification", "MFA verification successful", "success", now);
    reply := Reply(200, Session(finalToken));
  }

  // ---------------------------------------------------------------- setup and teardown

  /** The shared body of `/setup-mfa` and `/request-disable-mfa`: look the caller up,
      issue a fifteen-minute code and mail it. Neither route looks at `mfaEnabled`. */
  method SendCode(b: Backend, claims: Claims, now: int, delivered: bool) returns (reply: Reply, code: string)
    requires b.Valid()
    modifies b`users, b`outbox
    ensures b.Valid()
    ensures b.trainers == old(b.trainers) && b.nextId == old(b.nextId) && b.auditLogs == old(b.auditLogs)
    ensures match old(b.LookupUser(claims.userId))
      case CastError => reply == SERVER_ERROR && Unchanged(b)
      case Missing => reply == USER_NOT_FOUND && Unchanged(b)
      case Found(u) =>
        IsMfaCode(code) &&
        b.users == old(b.users)[u.id := IssueCode(u, code, now, CODE_LIFETIME)] &&
        b.outbox == old(b.outbox) + (if delivered then [Mail(u.email, code)] else []) &&
        reply == if delivered then Reply(200, CodeSent("Verification code sent to your email", now + CODE_LIFETIME))
                 else SERVER_ERROR
  {
    code := "";
    var found := b.LookupUser(claims.userId);
    if found.CastError? {
      return SERVER_ERROR, code;
    }
    if found.Missing? {
      return USER_NOT_FOUND, code;
    }
    var u := found.doc;
    var issued := IssueCodeTo(b, u, now, CODE_LIFETIME);
    code := issued;
    var sent := b.SendMfaCode(u.email, issued, delivered);
    if !sent {
      return SERVER_ERROR, code;
    }
    reply := Reply(200, CodeSent("Verification code sent to your email", now + CODE_LIFETIME));
  }

  /** `POST /setup-mfa` */
  method SetupMfa(b: Backend, claims: Claims, now: int, delivered: bool) returns (reply: Reply, code: string)
    requires b.Valid()
    modifies b`users, b`outbox
    ensures b.Valid()
    ensures b.trainers == old(b.trainers) && b.nextId == old(b.nextId) && b.auditLogs == old(b.auditLogs)
    ensures match old(b.LookupUser(claims.userId))
      case CastError => reply == SERVER_ERROR && Unchanged(b)
      case Missing => reply == USER_NOT_FOUND && Unchanged(b)
      case Found(u) =>
        IsMfaCode(code) &&
        b.users == old(b.users)[u.id := IssueCode(u, code, now, CODE_LIFETIME)] &&
        b.outbox == old(b.outbox) + (if delivered then [Mail(u.email, code)] else []) &&
        reply == if delivered then Reply(200, CodeSent("Verification code sent to your email", now + CODE_LIFETIME))
                 else SERVER_ERROR
  {
    reply, code := SendCode(b, claims, now, delivered);
  }

  /** `POST /request-disable-mfa` */
  method RequestDisableMfa(b: Backend, claims: Claims, now: int, delivered: bool) returns (reply: Reply, code: string)
    requires b.Valid()
    modifies b`users, b`outbox
    ensures b.Valid()
    ensures b.trainers == old(b.trainers) && b.nextId == old(b.nextId) && b.auditLogs == old(b.auditLogs)
    ensures match old(b.LookupUser(claims.userId))
      case CastError => reply == SERVER_ERROR && Unchanged(b)
      case Missing => reply == USER_NOT_FOUND && Unchanged(b)
      case Found(u) =>
        IsMfaCode(code) &&
        b.users == old(b.users)[u.id := IssueCode(u, code, now, CODE_LIFETIME)] &&
        b.outbox == old(b.outbox) + (if delivered then [Mail(u.email, code)] else []) &&
        reply == if delivered then Reply(200, CodeSent("Verification code sent to your email", now + CODE_LIFETIME))
                 else SERVER_ERROR
  {
    reply, code := SendCode(b, claims, now, delivered);
  }

  function ToggleReply(c: CodeCheck, enable: bool): Reply {
    match c
    case Mismatch => Reply(400, Coded("Invalid verification code", "INVALID_CODE"))
    case Accepted => Reply(200, Message(if enable then "MFA enabled successfully" else "MFA disabled successfully"))
    case _ => Reply(400, Coded("Verification code has expired. Please request a new code.", "CODE_EXPIRED"))
  }

  /** The shared body of `/verify-and-enable-mfa` (`enable`) and
      `/verify-and-disable-mfa`: the code check, then `mfaEnabled` is set and the
      code cleared. */
  method ToggleMfa(b: Backend, claims: Claims, code: Option<string>, enable: bool, now: int) returns (reply: Reply)
    requires b.Valid()
    modifies b`users, b`auditLogs
    ensures b.Valid()
    ensures b.trainers == old(b.trainers) && b.nextId == old(b.nextId) && b.outbox == old(b.outbox)
    ensures match old(b.LookupUser(claims.userId))
      case CastError => reply == SERVER_ERROR && Unchanged(b)
      case Missing => reply == USER_NOT_FOUND && Unchanged(b)
      case Found(u) =>
        reply == ToggleReply(CheckToggleCode(u, code, now), enable) &&
        (CheckToggleCode(u, code, now) != Accepted ==> Unchanged(b)) &&
        (CheckToggleCode(u, code, now) == Accepted ==>
          b.users == old(b.users)[u.id := ClearCode(u).(mfaEnabled := enable)] &&
          b.auditLogs == old(b.auditLogs) +
            AuditRecord(IdText(u.id), Some(u.email), if enable then "enable_mfa" else "disable_mfa",
                        if enable then "MFA enabled successfully" else "MFA disabled successfully", "success", now))
  {
    var found := b.LookupUser(claims.userId);
    if found.CastError? {
      return SERVER_ERROR;
    }
    if found.Missing? {
      return USER_NOT_FOUND;
    }
    var u := found.doc;
    var check := CheckToggleCode(u, code, now);
    if check != Accepted {
      return ToggleReply(check, enable);
    }
    ChallengeInvariantKept(u, "100000", now, 0);
    b.PutUser(ClearCode(u).(mfaEnabled := enable));
    b.CreateAuditLog(IdText(u.id), Some(u.email), if enable then "enable_mfa" else "disable_mfa",
                     if enable then "MFA enabled successfully" else "MFA disabled successfully", "success", now);
    reply := ToggleReply(check, enable);
  }

  /** `POST /verify-and-enable-mfa` */
  method VerifyAndEnableMfa(b: Backend, claims: Claims, code: Option<string>, now: int) returns (reply: Reply)
    requires b.Valid()
    modifies b`users, b`auditLogs
    ensures b.Valid()
    ensures b.trainers == old(b.trainers) && b.nextId == old(b.nextId) && b.outbox == old(b.outbox)
    ensures match old(b.LookupUser(claims.userId))
      case CastError => reply == SERVER_ERROR && Unchanged(b)
      case Missing => reply == USER_NOT_FOUND && Unchanged(b)
      case Found(u) =>
        reply == ToggleReply(CheckToggleCode(u, code, now), true) &&
        (CheckToggleCode(u, code, now) != Accepted ==> Unchanged(b)) &&
        (CheckToggleCode(u, code, now) == Accepted ==>
          b.users == old(b.users)[u.id := ClearCode(u).(mfaEnabled := true)] &&
          b.auditLogs == old(b.auditLogs) + AuditRecord(IdText(u.id), Some(u.email), "enable_mfa", "MFA enabled successfully", "success", now))
  {
    reply := ToggleMfa(b, claims, code, true, now);
  }

  /** `POST /verify-and-disable-mfa` */
  method VerifyAndDisableMfa(b: Backend, claims: Claims, code: Option<string>, now: int) returns (reply: Reply)
    requires b.Valid()
    modifies b`users, b`auditLogs
    ensures b.Valid()
    ensures b.trainers == old(b.trainers) && b.nextId == old(b.nextId) && b.outbox == old(b.outbox)
    ensures match old(b.LookupUser(claims.userId))
      case CastError => reply == SERVER_ERROR && Unchanged(b)
      case Missing => reply == USER_NOT_FOUND && Unchanged(b)
      case Found(u) =>
        reply == ToggleReply(CheckToggleCode(u, code, now), false) &&
        (CheckToggleCode(u, code, now) != Accepted ==> Unchanged(b)) &&
        (CheckToggleCode(u, code, now) == Accepted ==>
          b.users == old(b.users)[u.id := ClearCode(u).(mfaEnabled := false)] &&
          b.auditLogs == old(b.auditLogs) + AuditRecord(IdText(u.id), Some(u.email), "disable_mfa", "MFA disabled successfully", "success", now))
  {
    reply := ToggleMfa(b, claims, code, false, now);
  }

  /** `GET /mfa/status` */
  method GetMfaStatus(b: Backend, claims: Claims) returns (reply: Reply)
    ensures match b.LookupUser(claims.userId)
      case CastError => reply == SERVER_ERROR
      case Missing => reply == USER_NOT_FOUND
      case Found(u) => reply == Reply(200, MfaStatus(u.mfaEnabled))
  {
    var found := b.LookupUser(claims.userId);
    match found
    case CastError => reply := SERVER_ERROR;
    case Missing => reply := USER_NOT_FOUND;
    case Found(u) => reply := Reply(200, MfaStatus(u.mfaEnabled));
  }

  // ---------------------------------------------------------------- delete account

  function DeleteCheckReply(c: CodeCheck): Reply {
    match c
    case NoCode => Reply(401, Coded("No MFA code found. Please request a new code.", "NO_MFA_CODE"))
    case Expired => Reply(401, Coded("Verification code expired", "CODE_EXPIRED"))
    case Mismatch => Reply(401, Coded("Invalid verification code", "INVALID_CODE"))
    case Accepted => Reply(200, Message("Account deleted successfully"))
  }

  /** `DELETE /delete-account`: an MFA account needs a code in the body (checked before
      the stored code is looked at) and then the full check chain; an account without
      MFA is deleted outright. */
  method DeleteAccount(b: Backend, claims: Claims, mfaCode: Option<string>, now: int) returns (reply: Reply)
    requires b.Valid()
    modifies b`users, b`auditLogs
    ensures b.Valid()
    ensures b.trainers == old(b.trainers) && b.nextId == old(b.nextId) && b.outbox == old(b.outbox)
    ensures match old(b.LookupUser(claims.userId))
      case CastError => reply == Reply(500, Message("Error deleting account")) && Unchanged(b)
      case Missing => reply == USER_NOT_FOUND && Unchanged(b)
      case Found(u) =>
        (u.mfaEnabled && !Truthy(mfaCode) ==>
          reply == Reply(400, Coded("MFA verification required", "MFA_REQUIRED")) && Unchanged(b)) &&
        (u.mfaEnabled && Truthy(mfaCode) && CheckCode(u, mfaCode, now) != Accepted ==>
          reply == DeleteCheckReply(CheckCode(u, mfaCode, now)) && Unchanged(b)) &&
        (!u.mfaEnabled || CheckCode(u, mfaCode, now) == Accepted ==>
          reply == Reply(200, Message("Account deleted successfully")) &&
          b.users == old(b.users) - {u.id} &&
          b.auditLogs == old(b.auditLogs) + AuditRecord(IdText(u.id), Some(u.email), "delete_account", "Account deleted successfully", "success", now))
  {
    var found := b.LookupUser(claims.userId);
    if found.CastError? {
      return Reply(500, Message("Error deleting account"));
    }
    if found.Missing? {
      return USER_NOT_FOUND;
    }
    var u := found.doc;
    if u.mfaEnabled {
      if !Truthy(mfaCode) {
        return Reply(400, Coded("MFA verification required", "MFA_REQUIRED"));
      }
      var check := CheckCode(u, mfaCode, now);
      if check != Accepted {
        return DeleteCheckReply(check);
      }
    }
    b.DeleteUser(u.id);
    b.CreateAuditLog(IdText(u.id), Some(u.email), "delete_account", "Account deleted successfully", "success", now);
    reply := Reply(200, Message("Account deleted successfully"));
  }

  /** `POST /request-delete-mfa`: like setup, but only for an account with MFA on. */
  method RequestDeleteMfa(b: Backend, claims: Claims, now: int, delivered: bool) returns (reply: Reply, code: string)
    requires b.Valid()
    modifies b`users, b`auditLogs, b`outbox
    ensures b.Valid()
    ensures b.trainers == old(b.trainers) && b.nextId == old(b.nextId)
    ensures match old(b.LookupUser(claims.userId))
      case CastError => reply == SERVER_ERROR && Unchanged(b)
      case Missing => reply == USER_NOT_FOUND && Unchanged(b)
      case Found(u) =>
        (!u.mfaEnabled ==> reply == Reply(400, Message("MFA is not enabled for this account")) && Unchanged(b)) &&
        (u.mfaEnabled ==>
          IsMfaCode(code) &&
          b.users == old(b.users)[u.id := IssueCode(u, code, now, CODE_LIFETIME)] &&
          b.outbox == old(b.outbox) + (if delivered then [Mail(u.email, code)] else []) &&
          (!delivered ==> reply == SERVER_ERROR && b.auditLogs == old(b.auditLogs)) &&
          (delivered ==>
            reply == Reply(200, CodeSent("Verification code sent to your email", now + CODE_LIFETIME)) &&
            b.auditLogs == old(b.auditLogs) + AuditRecord(IdText(u.id), Some(u.email), "delete_account_mfa_request",
                                                          "MFA code requested for account deletion", "success", now)))
  {
    code := "";
    var found := b.LookupUser(claims.userId);
    if found.CastError? {
      return SERVER_ERROR, code;
    }
    if found.Missing? {
      return USER_NOT_FOUND, code;
    }
    var u := found.doc;
    if !u.mfaEnabled {
      return Reply(400, Message("MFA is not enabled for this account")), code;
    }
    var issued := IssueCodeTo(b, u, now, CODE_LIFETIME);
    code := issued;
    var sent := b.SendMfaCode(u.email, issued, delivered);
    if !sent {
      return SERVER_ERROR, code;
    }
    b.CreateAuditLog(IdText(u.id), Some(u.email), "delete_account_mfa_request",
                     "MFA code requested for account deletion", "success", now);
    reply := Reply(200, CodeSent("Verification code sent to your email", now + CODE_LIFETIME));
  }

  // ---------------------------------------------------------------- OAuth callback

  /** `GET /google/callback` after the strategy produced the stored user `id`. */
  method GoogleCallback(b: Backend, id: Id, now: int, delivered: bool) returns (reply: Reply, code: string)
    requires b.Valid() && id in b.users
    modifies b`users, b`auditLogs, b`outbox
    ensures b.Valid()
    ensures b.trainers == old(b.trainers) && b.nextId == old(b.nextId)
    ensures var u := old(b.users)[id];
      var logged := old(b.auditLogs) + AuditRecord(IdText(id), Some(u.email), "oauth_login", "Google OAuth login successful", "success", now);
      b.auditLogs == logged &&
      (!u.mfaEnabled ==>
        reply == Reply(302, Redirect(AuthSuccessPage(Sign(Claims(Some(Oid(id)), None, Some(u.role), Some(u.email), Some(u.name), None), now, SESSION_LIFETIME)))) &&
        b.users == old(b.users) && b.outbox == old(b.outbox)) &&
      (u.mfaEnabled ==>
        IsMfaCode(code) &&
        b.users == old(b.users)[id := IssueCode(u, code, now, CODE_LIFETIME)] &&
        b.outbox == old(b.outbox) + (if delivered then [Mail(u.email, code)] else []) &&
        reply == if delivered then Reply(302, Redirect(VerifyMfaPage(Sign(ProfileClaims(u, true), now, CODE_LIFETIME))))
                 else Reply(302, Redirect(LoginFailedPage)))
  {
    code := "";
    var u := b.users[id];
    b.CreateAuditLog(IdText(id), Some(u.email), "oauth_login", "Google OAuth login successful", "success", now);
    if u.mfaEnabled {
      var issued := IssueCodeTo(b, u, now, CODE_LIFETIME);
      code := issued;
      var tempToken := Sign(ProfileClaims(u, true), now, CODE_LIFETIME);
      var sent := b.SendMfaCode(u.email, issued, delivered);
      if !sent {
        return Reply(302, Redirect(LoginFailedPage)), code;
      }
      reply := Reply(302, Redirect(VerifyMfaPage(tempToken)));
    } else {
      var token := Sign(Claims(Some(Oid(id)), None, Some(u.role), Some(u.email), Some(u.name), None), now, SESSION_LIFETIME);
      reply := Reply(302, Redirect(AuthSuccessPage(token)));
    }
  }
}
