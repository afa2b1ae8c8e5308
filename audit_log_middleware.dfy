/** The application-wide audit middleware: requests to a fixed table of account paths
    are recorded under an action name, requests to the audit log API itself are
    passed on untouched, and `next` runs exactly once whatever happens. The file binds
    `require('../models/AuditLog')`, which is the module's exports object
    `{ AuditLog }` rather than the model, so `AuditLog.create` is undefined there; the
    methods below model that middleware as written, with the model bound, and with
    the model bound and a document the schema accepts. */
module AuditLogMiddleware {
  import opened Wrappers
  import opened Text
  import opened Jwt
  import opened Store

  const AUDIT_LOG_PREFIX: string := "/api/audit-logs"

  /** The audited paths, each with the action it is recorded under. */
  const ACTIONS: seq<(string, string)> := [
    ("/api/auth/login", "login"),
    ("/api/auth/logout", "logout"),
    ("/api/auth/signup", "signup"),
    ("/api/auth/delete-account", "delete_account"),
    ("/api/auth/enable-mfa", "enable_mfa"),
    ("/api/auth/disable-mfa", "disable_mfa"),
    ("/api/auth/update-profile", "update_profile")]

  /** The part of an Express request the middleware reads. `details` is the
      serialised method, path, body, query and parameters. */
  datatype Request = Request(path: string, user: Option<Claims>, details: string)

  /** What the middleware decides for a path before it touches the store. */
  datatype Decision = Skip | Unlisted | Record(action: string)

  /** The if/else chain of exact path comparisons; '' for any other path. */
  function ActionFor(path: string): string {
    if path == "/api/auth/login" then "login"
    else if path == "/api/auth/logout" then "logout"
    else if path == "/api/auth/signup" then "signup"
    else if path == "/api/auth/delete-account" then "delete_account"
    else if path == "/api/auth/enable-mfa" then "enable_mfa"
    else if path == "/api/auth/disable-mfa" then "disable_mfa"
    else if path == "/api/auth/update-profile" then "update_profile"
    else ""
  }

  /** The chain is the table: a path has an action exactly when it is one of the seven
      listed paths, and then it is that path's action. */
  lemma {:induction false} ActionForIsTable(path: string)
    ensures ActionFor(path) != "" <==> exists i :: 0 <= i < |ACTIONS| && ACTIONS[i].0 == path
    ensures forall i :: 0 <= i < |ACTIONS| && ACTIONS[i].0 == path ==> ActionFor(path) == ACTIONS[i].1
  {
    if ActionFor(path) != "" {
      var i := if path == "/api/auth/login" then 0
        else if path == "/api/auth/logout" then 1
        else if path == "/api/auth/signup" then 2
        else if path == "/api/auth/delete-account" then 3
        else if path == "/api/auth/enable-mfa" then 4
        else if path == "/api/auth/disable-mfa" then 5
        else 6;
      assert ACTIONS[i].0 == path;
    }
  }

  /** The skip rule first, then the action table. */
  function Decide(path: string): (d: Decision)
    ensures d.Skip? <==> StartsWith(path, AUDIT_LOG_PREFIX)
    ensures d.Record? ==> d.action == ActionFor(path) && d.action != ""
    ensures d.Unlisted? <==> !StartsWith(path, AUDIT_LOG_PREFIX) && ActionFor(path) == ""
  {
    if StartsWith(path, AUDIT_LOG_PREFIX) then Skip
    else
      var action := ActionFor(path);
      if action == "" then Unlisted else Record(action)
  }

  /** None of the audited paths lies under the audit log API, so the skip rule never
      hides one of them: each is recorded under its own action. */
  lemma ListedPathsRecorded(i: nat)
    requires i < |ACTIONS|
    ensures Decide(ACTIONS[i].0) == Record(ACTIONS[i].1)
  {
    var path := ACTIONS[i].0;
    assert |path| >= |AUDIT_LOG_PREFIX| ==> path[..|AUDIT_LOG_PREFIX|][7] == path[7] == 't';
    assert AUDIT_LOG_PREFIX[7] == 'd';
  }

  /** `req.user?.id` as the String the schema casts it to ('' when absent). */
  function UserIdText(user: Option<Claims>): (r: string)
    ensures user.None? || user.value.id.None? ==> r == ""
  {
    if user.None? || user.value.id.None? then ""
    else match user.value.id.value
      case Oid(n) => IdText(n)
      case Name(s) => s
  }

  /** What `AuditLog.create` stores for an audited request: the document carries a
      user id, action and details but no `userEmail`, and status and timestamp take
      their schema defaults. */
  function RequestRecord(req: Request, action: string, now: int): (r: seq<AuditEntry>)
    ensures |r| <= 1
  {
    AuditRecord(UserIdText(req.user), None, action, req.details, "success", now)
  }

  /** The schema requires `userEmail`, which the middleware never supplies, so every
      document it creates is refused. */
  lemma RequestRecordRefused(req: Request, action: string, now: int)
    ensures RequestRecord(req, action, now) == []
  {
  }

  /** The middleware as written: for an audited path the call to the undefined
      `AuditLog.create` throws a TypeError, the catch block logs it, and both branches
      end in one call of `next`. Nothing is ever stored. */
  method AuditAsWritten(b: Backend, req: Request, now: int) returns (nextCalls: nat)
    modifies b`auditLogs
    ensures nextCalls == 1
    ensures b.auditLogs == old(b.auditLogs)
  {
    nextCalls := 0;
    var decision := Decide(req.path);
    if decision.Skip? {
      nextCalls := nextCalls + 1;
      return;
    }
    // An audited path reaches `AuditLog.create(...)`, which throws a TypeError; the
    // catch block and the end of the try block both call `next` once.
    nextCalls := nextCalls + 1;
  }

  /** The middleware with the model bound: an audited request hands its document to
      `AuditLog.create`, which stores what the schema accepts; a refused document
      rejects the call, the catch block swallows it, and `next` still runs once. */
  method Audit(b: Backend, req: Request, now: int) returns (nextCalls: nat)
    modifies b`auditLogs
    ensures nextCalls == 1
    ensures Decide(req.path).Record? ==>
      b.auditLogs == old(b.auditLogs) + RequestRecord(req, Decide(req.path).action, now)
    ensures !Decide(req.path).Record? ==> b.auditLogs == old(b.auditLogs)
  {
    nextCalls := 0;
    var decision := Decide(req.path);
    if decision.Skip? {
      nextCalls := nextCalls + 1;
      return;
    }
    if decision.Record? {
      b.CreateAuditLog(UserIdText(req.user), None, decision.action, req.details, "success", now);
    }
    nextCalls := nextCalls + 1;
  }

  // ---------------------------------------------------------------- as intended

  /** `value || 'unknown'`: the fallback the routes themselves audit an unidentified
      caller under. */
  function OrUnknown(v: Option<string>): (r: string)
    ensures r != ""
    ensures v.Some? && v.value != "" ==> r == v.value
  {
    if v.Some? && v.value != "" then v.value else "unknown"
  }

  /** `req.user?.userId`, the claim every user token carries, as text. */
  function ClaimedUserId(user: Option<Claims>): Option<string> {
    if user.None? || user.value.userId.None? then None
    else match user.value.userId.value
      case Oid(n) => Some(IdText(n))
      case Name(s) => Some(s)
  }

  /** `req.user?.email` */
  function ClaimedEmail(user: Option<Claims>): Option<string> {
    if user.None? then None else user.value.email
  }

  /** The middleware with the model bound and the document completed: the id is read
      from `userId` and the required `userEmail` is supplied, each falling back to
      'unknown'. Every audited request then adds exactly one entry, and `next` runs
      once. */
  method AuditIntended(b: Backend, req: Request, now: int) returns (nextCalls: nat)
    modifies b`auditLogs
    ensures nextCalls == 1
    ensures Decide(req.path).Record? ==>
      b.auditLogs == old(b.auditLogs) +
        [AuditEntry(OrUnknown(ClaimedUserId(req.user)), OrUnknown(ClaimedEmail(req.user)),
                    Decide(req.path).action, req.details, "success", now)]
    ensures !Decide(req.path).Record? ==> b.auditLogs == old(b.auditLogs)
  {
    nextCalls := 0;
    var decision := Decide(req.path);
    if decision.Skip? {
      nextCalls := nextCalls + 1;
      return;
    }
    if decision.Record? {
      b.CreateAuditLog(OrUnknown(ClaimedUserId(req.user)), Some(OrUnknown(ClaimedEmail(req.user))),
                       decision.action, req.details, "success", now);
    }
    nextCalls := nextCalls + 1;
  }
}
