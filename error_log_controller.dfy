/** The error log controller: `createErrorLog`, which fills in defaults and stores the
    document unless the schema refuses it, and `getErrorLogs`, which builds a query
    document from the request, pages the result, and maps failures to status
    codes. */
module ErrorLogController {
  import opened Wrappers
  import opened Text
  import opened Jwt
  import opened UserModel
  import opened Seqs
  import opened LogQuery

  /** The `level` enumeration of the error log schema. */
  const LEVELS: set<string> := {"error", "warning", "info"}
  const UNKNOWN_ERROR := "Unknown error occurred"

  /** The parts of the thrown error that `createErrorLog` reads. */
  datatype ErrorInfo = ErrorInfo(level: Option<string>, message: Option<string>)

  /** The parts of the request that `createErrorLog` reads; `user` is `req.user`. */
  datatype RequestInfo = RequestInfo(
    user: Option<Claims>,
    originalUrl: Option<string>,
    httpMethod: Option<string>,
    ip: Option<string>,
    userAgent: Option<string>)

  /** A stored error log document. `userId` is an ObjectId reference when one is
      recorded. */
  datatype ErrorEntry = ErrorEntry(
    timestamp: int,
    level: string,
    message: string,
    userId: Option<Id>,
    userEmail: string,
    route: string,
    httpMethod: string,
    ipAddress: string,
    userAgent: string)

  /** `value || 'unknown'` */
  function OrUnknown(value: Option<string>): string {
    if Truthy(value) then value.value else "unknown"
  }

  /** `req?.user?.userId || 'unknown'`, as the text or id handed to the schema. */
  function UserIdValue(req: Option<RequestInfo>): ObjectRef {
    if req.Some? && req.value.user.Some? && req.value.user.value.userId.Some? &&
       (req.value.user.value.userId.value.Oid? || req.value.user.value.userId.value.s != "")
    then req.value.user.value.userId.value
    else Name("unknown")
  }

  function UserEmailOf(req: Option<RequestInfo>): Option<string> {
    if req.Some? && req.value.user.Some? then req.value.user.value.email else None
  }

  /** The document `new ErrorLog({...})` describes, with the id field left to the
      caller. */
  function ErrorDocument(error: ErrorInfo, req: Option<RequestInfo>, userId: Option<Id>, now: int): ErrorEntry {
    ErrorEntry(
      now,
      if Truthy(error.level) then error.level.value else "error",
      if Truthy(error.message) then error.message.value else UNKNOWN_ERROR,
      userId,
      OrUnknown(UserEmailOf(req)),
      if req.Some? then OrUnknown(req.value.originalUrl) else "unknown",
      if req.Some? then OrUnknown(req.value.httpMethod) else "unknown",
      if req.Some? then OrUnknown(req.value.ip) else "unknown",
      if req.Some? then OrUnknown(req.value.userAgent) else "unknown")
  }

  /** What `createErrorLog` as written adds to the collection: the `userId` path is
      an ObjectId, so the fallback 'unknown' (and any other text, such as the fixed
      administrator's 'admin') fails the cast and the save is refused; so is a level
      outside the enumeration. */
  function ErrorRecordAsWritten(error: ErrorInfo, req: Option<RequestInfo>, now: int): (r: seq<ErrorEntry>)
    ensures |r| <= 1
  {
    var id := UserIdValue(req);
    var doc := ErrorDocument(error, req, if id.Oid? then Some(id.n) else None, now);
    if id.Oid? && doc.level in LEVELS then [doc] else []
  }

  /** `createErrorLog` storing errors without an identified user with no `userId`. */
  function ErrorRecord(error: ErrorInfo, req: Option<RequestInfo>, now: int): (r: seq<ErrorEntry>)
    ensures |r| <= 1
  {
    var id := UserIdValue(req);
    var doc := ErrorDocument(error, req, if id.Oid? then Some(id.n) else None, now);
    if doc.level in LEVELS then [doc] else []
  }

  /** The defaults: a missing message becomes 'Unknown error occurred', a missing
      level 'error', and each missing request field 'unknown'; the message of a
      stored entry is never empty. */
  lemma ErrorRecordDefaults(error: ErrorInfo, req: Option<RequestInfo>, now: int)
    ensures var doc := ErrorDocument(error, req, None, now);
      (!Truthy(error.message) ==> doc.message == UNKNOWN_ERROR) &&
      (!Truthy(error.level) ==> doc.level == "error") &&
      (req.None? ==> doc.route == "unknown" && doc.httpMethod == "unknown" && doc.ipAddress == "unknown" &&
                     doc.userAgent == "unknown" && doc.userEmail == "unknown") &&
      doc.message != ""
    ensures !Truthy(error.level) ==> |ErrorRecord(error, req, now)| == 1
    ensures forall i :: 0 <= i < |ErrorRecord(error, req, now)| ==>
      ErrorRecord(error, req, now)[i].message != "" && ErrorRecord(error, req, now)[i].level in LEVELS
  {
  }

  /** As written, an error raised outside an authenticated request, or in one whose
      token names no ObjectId, is never stored, while the corrected record keeps it;
      with an ObjectId user the two agree. */
  lemma AnonymousErrorsDropped(error: ErrorInfo, req: Option<RequestInfo>, now: int)
    ensures !UserIdValue(req).Oid? ==> ErrorRecordAsWritten(error, req, now) == []
    ensures !UserIdValue(req).Oid? && !Truthy(error.level) ==> ErrorRecord(error, req, now) != []
    ensures UserIdValue(req).Oid? ==> ErrorRecordAsWritten(error, req, now) == ErrorRecord(error, req, now)
    ensures req.None? ==> !UserIdValue(req).Oid?
  {
  }

  /** The error log collection. */
  class ErrorLogs {
    var entries: seq<ErrorEntry>

    constructor ()
      ensures entries == []
    {
      entries := [];
    }

    /** `createErrorLog` as written: a refused save is logged and swallowed. */
    method CreateErrorLogAsWritten(error: ErrorInfo, req: Option<RequestInfo>, now: int)
      modifies this
      ensures entries == old(entries) + ErrorRecordAsWritten(error, req, now)
    {
      var message := error.message;
      if !Truthy(message) {
        message := Some(UNKNOWN_ERROR);
      }
      var userId := UserIdValue(req);
      var doc := ErrorDocument(error.(message := message), req, if userId.Oid? then Some(userId.n) else None, now);
      if userId.Oid? && doc.level in LEVELS {
        entries := entries + [doc];
      }
    }

    /** `createErrorLog` with no `userId` recorded for an unidentified user. */
    method CreateErrorLog(error: ErrorInfo, req: Option<RequestInfo>, now: int)
      modifies this
      ensures entries == old(entries) + ErrorRecord(error, req, now)
    {
      var message := error.message;
      if !Truthy(message) {
        message := Some(UNKNOWN_ERROR);
      }
      var userId := UserIdValue(req);
      var doc := ErrorDocument(error.(message := message), req, if userId.Oid? then Some(userId.n) else None, now);
      if doc.level in LEVELS {
        entries := entries + [doc];
      }
    }
  }

  // ---------------------------------------------------------------- getErrorLogs

  /** The query string of `getErrorLogs`. */
  datatype ErrorParams = ErrorParams(
    page: Option<string>,
    limit: Option<string>,
    level: Option<string>,
    startDate: Option<string>,
    endDate: Option<string>,
    userEmail: Option<string>,
    route: Option<string>,
    httpMethod: Option<string>)

  /** The query document; `route` holds the pattern of a case-insensitive `$regex`. */
  datatype ErrorQuery = ErrorQuery(
    level: Option<string>,
    timestamp: Option<Range>,
    userEmail: Option<string>,
    route: Option<string>,
    httpMethod: Option<string>)

  /** Whether the database selects the entry; `routeMatches(pattern, route)` is the
      case-insensitive regular expression test. */
  predicate Matches(q: ErrorQuery, routeMatches: (string, string) -> bool, e: ErrorEntry) {
    (q.level.Some? ==> e.level == q.level.value)
    && (q.timestamp.Some? ==> InRange(e.timestamp, q.timestamp.value))
    && (q.userEmail.Some? ==> e.userEmail == q.userEmail.value)
    && (q.route.Some? ==> routeMatches(q.route.value, e.route))
    && (q.httpMethod.Some? ==> e.httpMethod == q.httpMethod.value)
  }

  /** The entries the request asks for, stated on the request: both date bounds are
      inclusive instants (the end date is not moved to the end of its day) and the
      method is compared in upper case. */
  predicate Selected(p: ErrorParams, dateOf: string -> int, routeMatches: (string, string) -> bool, e: ErrorEntry) {
    (Truthy(p.level) ==> e.level == p.level.value)
    && (Truthy(p.startDate) ==> e.timestamp >= dateOf(p.startDate.value))
    && (Truthy(p.endDate) ==> e.timestamp <= dateOf(p.endDate.value))
    && (Truthy(p.userEmail) ==> e.userEmail == p.userEmail.value)
    && (Truthy(p.route) ==> routeMatches(p.route.value, e.route))
    && (Truthy(p.httpMethod) ==> e.httpMethod == ToUpper(p.httpMethod.value))
  }

  /** The query document, assigned field by field. */
  method BuildQuery(p: ErrorParams, dateOf: string -> int, routeMatches: (string, string) -> bool) returns (q: ErrorQuery)
    ensures (q.level.Some? <==> Truthy(p.level)) && (q.userEmail.Some? <==> Truthy(p.userEmail))
    ensures (q.route.Some? <==> Truthy(p.route)) && (q.httpMethod.Some? <==> Truthy(p.httpMethod))
    ensures q.httpMethod.Some? ==> q.httpMethod.value == ToUpper(p.httpMethod.value)
    ensures q.timestamp.Some? <==> Truthy(p.startDate) || Truthy(p.endDate)
    ensures q.timestamp.Some? ==>
      (q.timestamp.value.gte.Some? <==> Truthy(p.startDate)) && (q.timestamp.value.lte.Some? <==> Truthy(p.endDate))
    ensures forall e :: Matches(q, routeMatches, e) <==> Selected(p, dateOf, routeMatches, e)
  {
    q := ErrorQuery(None, None, None, None, None);
    if Truthy(p.level) {
      q := q.(level := p.level);
    }
    if Truthy(p.startDate) || Truthy(p.endDate) {
      var range := Range(None, None);
      if Truthy(p.startDate) {
        range := range.(gte := Some(dateOf(p.startDate.value)));
      }
      if Truthy(p.endDate) {
        range := range.(lte := Some(dateOf(p.endDate.value)));
      }
      q := q.(timestamp := Some(range));
    }
    if Truthy(p.userEmail) {
      q := q.(userEmail := p.userEmail);
    }
    if Truthy(p.route) {
      q := q.(route := p.route);
    }
    if Truthy(p.httpMethod) {
      q := q.(httpMethod := Some(ToUpper(p.httpMethod.value)));
    }
  }

  /** The method filter ignores the case it was written in: a request naming a method
      selects the same entries as one naming it in upper case. */
  lemma MethodFilterIgnoresCase(p: ErrorParams, m: string, dateOf: string -> int, routeMatches: (string, string) -> bool,
                                e: ErrorEntry)
    requires m != ""
    ensures Selected(p.(httpMethod := Some(m)), dateOf, routeMatches, e) <==>
      Selected(p.(httpMethod := Some(ToUpper(m))), dateOf, routeMatches, e)
  {
    ToUpperIdempotent(m);
  }

  /** A failure of a database call: the error's `name` and `message`. The timeout
      the handler races against the query rejects with message 'Query timeout'. */
  datatype DbError = DbError(name: string, message: string)

  /** The catch block of `getErrorLogs`. */
  function FailureReply(e: DbError): (f: Failure)
    ensures f.status in {500, 503, 504}
    ensures f.status == 504 <==> e.message == "Query timeout"
    ensures f.status == 503 <==> e.message != "Query timeout" && e.name == "MongooseError" && Contains(e.message, "buffering timed out")
    ensures f.status == 500 ==> f == Failure(500, "Error fetching error logs", e.message)
  {
    if e.message == "Query timeout" then
      Failure(504, "Request timeout while fetching error logs. Please try again.", "Gateway Timeout")
    else if e.name == "MongooseError" && Contains(e.message, "buffering timed out") then
      Failure(503, "Database connection timeout. Please try again.", "Service Unavailable")
    else Failure(500, "Error fetching error logs", e.message)
  }

  /** `parseInt(page)` after the destructuring default: only an absent parameter takes
      the default; any text that is not a number gives NaN. */
  function ParsedOr(raw: Option<string>, fallback: int): Option<int> {
    if raw.None? then Some(fallback) else ParseInt(raw.value)
  }

  function Timestamp(e: ErrorEntry): int {
    e.timestamp
  }

  /** The error a database refuses a NaN or negative skip with, in this model. */
  const BAD_SKIP := DbError("MongoServerError", "invalid skip")

  /** `getErrorLogs` over the stored entries. `failure` is the error a database call
      (or the timeout) rejects with, if any. */
  method GetErrorLogs(log: ErrorLogs, p: ErrorParams, dateOf: string -> int, routeMatches: (string, string) -> bool,
                      failure: Option<DbError>) returns (r: Result<Listing<ErrorEntry>, Failure>)
    ensures failure.Some? ==> r == Err(FailureReply(failure.value))
    ensures failure.None? ==>
      var page := ParsedOr(p.page, 1);
      var limit := ParsedOr(p.limit, 10);
      var selected := Filter(log.entries, e => Selected(p, dateOf, routeMatches, e));
      (page.None? || limit.None? || Skip(page.value, limit.value) < 0 ==> r == Err(FailureReply(BAD_SKIP))) &&
      (page.Some? && limit.Some? && Skip(page.value, limit.value) >= 0 ==>
        r == Ok(Listing(Window(SortOn(selected, Timestamp, true), Skip(page.value, limit.value), LimitCount(limit.value)),
                        |selected|, page.value, limit.value,
                        if limit.value == 0 then None else Some(TotalPages(|selected|, limit.value)))))
    ensures r.Ok? ==>
      SortedOn(r.value.data, Timestamp, true) &&
      forall i :: 0 <= i < |r.value.data| ==> r.value.data[i] in log.entries && Selected(p, dateOf, routeMatches, r.value.data[i])
  {
    var query := BuildQuery(p, dateOf, routeMatches);
    var page := ParsedOr(p.page, 1);
    var limit := ParsedOr(p.limit, 10);
    if failure.Some? {
      return Err(FailureReply(failure.value));
    }
    if page.None? || limit.None? || Skip(page.value, limit.value) < 0 {
      return Err(FailureReply(BAD_SKIP));
    }
    var skip := Skip(page.value, limit.value);
    var matching := Filter(log.entries, e => Matches(query, routeMatches, e));
    FilterSame(log.entries, e => Matches(query, routeMatches, e), e => Selected(p, dateOf, routeMatches, e));
    var sorted := SortOn(matching, Timestamp, true);
    var errorLogs := Window(sorted, skip, LimitCount(limit.value));
    WindowSorted(sorted, Timestamp, skip, LimitCount(limit.value));
    WindowOfFilter(log.entries, e => Selected(p, dateOf, routeMatches, e), Timestamp, skip, LimitCount(limit.value));
    var total := |matching|;
    r := Ok(Listing(errorLogs, total, page.value, limit.value,
                    if limit.value == 0 then None else Some(TotalPages(total, limit.value))));
  }
}
