/** The audit log listings (`getAuditLogs`, `getUserAuditLogs`): the query document
    built from the request, and the page of the log collection it returns. The
    stored entries are the audit collection of the backend; creating an entry is
    `Store.Backend.CreateAuditLog`. */
module AuditLogController {
  import opened Wrappers
  import opened Jwt
  import opened UserModel
  import opened Store
  import opened Seqs
  import opened LogQuery

  /** The query string of a listing request. */
  datatype ListParams = ListParams(
    page: Option<string>,
    limit: Option<string>,
    action: Option<string>,
    status: Option<string>,
    startDate: Option<string>,
    endDate: Option<string>)

  /** The query document handed to `countDocuments` and `find`. */
  datatype AuditQuery = AuditQuery(userId: Option<string>, action: Option<string>, status: Option<string>, timestamp: Option<Range>)

  /** Whether the database selects the entry for the query document. */
  predicate Matches(q: AuditQuery, e: AuditEntry) {
    (q.userId.Some? ==> e.userId == q.userId.value)
    && (q.action.Some? ==> e.action == q.action.value)
    && (q.status.Some? ==> e.status == q.status.value)
    && (q.timestamp.Some? ==> InRange(e.timestamp, q.timestamp.value))
  }

  /** The entries a request asks for, stated on the request itself: the named user's
      own entries, the supplied action and status, nothing before the start date,
      and nothing after the day of the end date. `dateOf` is `new Date(text)`. */
  predicate Selected(userId: Option<string>, p: ListParams, dateOf: string -> int, e: AuditEntry) {
    (userId.Some? ==> e.userId == userId.value)
    && (Truthy(p.action) ==> e.action == p.action.value)
    && (Truthy(p.status) ==> e.status == p.status.value)
    && (Truthy(p.startDate) ==> e.timestamp >= dateOf(p.startDate.value))
    && (Truthy(p.endDate) ==> e.timestamp / DAY <= dateOf(p.endDate.value) / DAY)
  }

  /** The query document, assigned field by field: each filter is present exactly
      when its parameter is supplied, and together they select what the request
      asks for. */
  method BuildQuery(userId: Option<string>, p: ListParams, dateOf: string -> int) returns (q: AuditQuery)
    ensures q.userId == userId
    ensures (q.action.Some? <==> Truthy(p.action)) && (q.action.Some? ==> q.action == p.action)
    ensures (q.status.Some? <==> Truthy(p.status)) && (q.status.Some? ==> q.status == p.status)
    ensures q.timestamp.Some? <==> Truthy(p.startDate) || Truthy(p.endDate)
    ensures q.timestamp.Some? ==>
      (q.timestamp.value.gte.Some? <==> Truthy(p.startDate)) && (q.timestamp.value.lte.Some? <==> Truthy(p.endDate))
    ensures forall e :: Matches(q, e) <==> Selected(userId, p, dateOf, e)
  {
    q := AuditQuery(userId, None, None, None);
    if Truthy(p.action) {
      q := q.(action := p.action);
    }
    if Truthy(p.status) {
      q := q.(status := p.status);
    }
    if Truthy(p.startDate) || Truthy(p.endDate) {
      var range := Range(None, None);
      if Truthy(p.startDate) {
        range := range.(gte := Some(dateOf(p.startDate.value)));
      }
      if Truthy(p.endDate) {
        var endDate := dateOf(p.endDate.value);
        endDate := EndOfDay(endDate);
        range := range.(lte := Some(endDate));
      }
      q := q.(timestamp := Some(range));
    }
    forall e ensures Matches(q, e) <==> Selected(userId, p, dateOf, e) {
      if Truthy(p.endDate) {
        EndOfDayMeaning(dateOf(p.endDate.value), e.timestamp);
      }
    }
  }

  function Timestamp(e: AuditEntry): int {
    e.timestamp
  }

  /** The error text the database gives for a negative skip. The driver's actual
      wording is not modelled; this constant stands in for it. */
  const NEGATIVE_SKIP_ERROR: string := "skip must be non-negative"

  /** The shared body of both listings. `failure` is the error a database call
      throws, if any; a negative skip is refused by the database. */
  method List(b: Backend, userId: Option<string>, p: ListParams, dateOf: string -> int, failure: Option<string>,
              errorMessage: string) returns (r: Result<Listing<AuditEntry>, Failure>)
    ensures failure.Some? ==> r == Err(Failure(500, errorMessage, failure.value))
    ensures failure.None? ==>
      var page := NumberOr(p.page, 1);
      var limit := NumberOr(p.limit, 10);
      var selected := Filter(b.auditLogs, e => Selected(userId, p, dateOf, e));
      (Skip(page, limit) < 0 ==> r == Err(Failure(500, errorMessage, NEGATIVE_SKIP_ERROR))) &&
      (Skip(page, limit) >= 0 ==>
        limit != 0 &&
        r == Ok(Listing(Window(SortOn(selected, Timestamp, true), Skip(page, limit), LimitCount(limit)),
                        |selected|, page, limit, Some(TotalPages(|selected|, limit)))))
    ensures r.Ok? ==>
      SortedOn(r.value.data, Timestamp, true) &&
      forall i :: 0 <= i < |r.value.data| ==> r.value.data[i] in b.auditLogs && Selected(userId, p, dateOf, r.value.data[i])
  {
    var page := NumberOr(p.page, 1);
    var limit := NumberOr(p.limit, 10);
    NumberOrMeaning(p.limit, 10);
    var skip := Skip(page, limit);
    var query := BuildQuery(userId, p, dateOf);
    if failure.Some? {
      return Err(Failure(500, errorMessage, failure.value));
    }
    var matching := Filter(b.auditLogs, e => Matches(query, e));
    FilterSame(b.auditLogs, e => Matches(query, e), e => Selected(userId, p, dateOf, e));
    var total := |matching|;
    if skip < 0 {
      return Err(Failure(500, errorMessage, NEGATIVE_SKIP_ERROR));
    }
    var sorted := SortOn(matching, Timestamp, true);
    var logs := Window(sorted, skip, LimitCount(limit));
    WindowSorted(sorted, Timestamp, skip, LimitCount(limit));
    WindowOfFilter(b.auditLogs, e => Selected(userId, p, dateOf, e), Timestamp, skip, LimitCount(limit));
    r := Ok(Listing(logs, total, page, limit, Some(TotalPages(total, limit))));
  }

  /** `getAuditLogs` */
  method GetAuditLogs(b: Backend, p: ListParams, dateOf: string -> int, failure: Option<string>)
    returns (r: Result<Listing<AuditEntry>, Failure>)
    ensures failure.Some? ==> r == Err(Failure(500, "Error fetching audit logs", failure.value))
    ensures failure.None? ==>
      var page := NumberOr(p.page, 1);
      var limit := NumberOr(p.limit, 10);
      var selected := Filter(b.auditLogs, e => Selected(None, p, dateOf, e));
      (Skip(page, limit) < 0 ==> r == Err(Failure(500, "Error fetching audit logs", NEGATIVE_SKIP_ERROR))) &&
      (Skip(page, limit) >= 0 ==>
        limit != 0 &&
        r == Ok(Listing(Window(SortOn(selected, Timestamp, true), Skip(page, limit), LimitCount(limit)),
                        |selected|, page, limit, Some(TotalPages(|selected|, limit)))))
    ensures r.Ok? ==>
      SortedOn(r.value.data, Timestamp, true) &&
      forall i :: 0 <= i < |r.value.data| ==> r.value.data[i] in b.auditLogs && Selected(None, p, dateOf, r.value.data[i])
  {
    r := List(b, None, p, dateOf, failure, "Error fetching audit logs");
  }

  /** `getUserAuditLogs`: every listed entry belongs to the user of the path. */
  method GetUserAuditLogs(b: Backend, userId: string, p: ListParams, dateOf: string -> int, failure: Option<string>)
    returns (r: Result<Listing<AuditEntry>, Failure>)
    ensures failure.Some? ==> r == Err(Failure(500, "Error fetching user audit logs", failure.value))
    ensures failure.None? ==>
      var page := NumberOr(p.page, 1);
      var limit := NumberOr(p.limit, 10);
      var selected := Filter(b.auditLogs, e => Selected(Some(userId), p, dateOf, e));
      (Skip(page, limit) < 0 ==> r == Err(Failure(500, "Error fetching user audit logs", NEGATIVE_SKIP_ERROR))) &&
      (Skip(page, limit) >= 0 ==>
        limit != 0 &&
        r == Ok(Listing(Window(SortOn(selected, Timestamp, true), Skip(page, limit), LimitCount(limit)),
                        |selected|, page, limit, Some(TotalPages(|selected|, limit)))))
    ensures r.Ok? ==>
      SortedOn(r.value.data, Timestamp, true) &&
      forall i :: 0 <= i < |r.value.data| ==>
        r.value.data[i] in b.auditLogs && r.value.data[i].userId == userId && Selected(None, p, dateOf, r.value.data[i])
  {
    r := List(b, Some(userId), p, dateOf, failure, "Error fetching user audit logs");
  }
}
