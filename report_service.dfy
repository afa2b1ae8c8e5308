/** The report service: dispatch on the report type, the user-activity and
    security-audit aggregates over audit events, the `groupBy` and per-hour folds
    they use, and the export format check. Event selection is modelled as a filter
    over the events in the store, and the database sort as a sort on the
    timestamp. */
module ReportService {
  import opened Wrappers
  import opened Jwt
  import opened UserModel
  import opened Calendar
  import opened Seqs
  import ReportModel

  const SECURITY_EVENT_TYPES: set<string> := {"login", "logout", "failed_login", "password_change"}

  /** The fields of an audit event the reports read: its time, the user id, the event
      type and the email of the referenced user, each absent when the document has
      none. */
  datatype Event = Event(timestamp: int, userId: string, eventType: Option<string>, userEmail: Option<string>)

  /** The parameters a report route passes (dates already turned into instants). */
  datatype Params = Params(
    startDate: int,
    endDate: int,
    userId: Option<string>,
    eventType: Option<string>,
    metrics: Option<seq<string>>,
    reportType: Option<string>,
    period: Option<string>)

  /** An object built by `groupBy`: one property per group key with the items
      collected under it, listed in the order the keys first occur. (A JavaScript
      object enumerates integer-like keys first, in ascending order; that property
      order is not modelled.) */
  type Groups<T> = seq<(string, seq<T>)>

  datatype ReportData =
    | UserActivity(totalActivities: nat, activitiesByType: Groups<Event>, activitiesByUser: Groups<Event>,
                   timeDistribution: map<int, nat>)
    | SecurityAudit(totalEvents: nat, eventsByType: Groups<Event>, failedLoginAttempts: nat,
                    suspiciousActivities: seq<Event>)
    | SystemPerformance(responseTime: int, errorRate: int, requestRate: int, systemLoad: int)
    | Compliance(reportType: Option<string>, period: Option<string>, complianceScore: int,
                 violations: seq<string>, recommendations: seq<string>)

  /** What a saved report holds: its parameters and its data. */
  type Content = (Params, ReportData)

  /** The property name a value becomes: an absent value is the key 'undefined'. */
  function GroupName(v: Option<string>): string {
    if v.Some? then v.value else "undefined"
  }

  /** The items of `s` whose key is `k`, in their order in `s`. */
  function Members<T, K(==)>(s: seq<T>, key: T -> K, k: K): (r: seq<T>)
    ensures |r| <= |s|
    ensures forall x :: x in r ==> x in s && key(x) == k
    ensures forall x :: x in s && key(x) == k ==> x in r
    decreases |s|
  {
    if s == [] then []
    else Members(s[..|s| - 1], key, k) + (if key(s[|s| - 1]) == k then [s[|s| - 1]] else [])
  }

  /** The items collected under `k`, or none when `k` is not a property. */
  function Lookup<T>(g: Groups<T>, k: string): seq<T>
    decreases |g|
  {
    if g == [] then [] else if g[0].0 == k then g[0].1 else Lookup(g[1..], k)
  }

  function Keys<T>(g: Groups<T>): set<string>
    decreases |g|
  {
    if g == [] then {} else {g[0].0} + Keys(g[1..])
  }

  predicate DistinctKeys<T>(g: Groups<T>) {
    forall i, j :: 0 <= i < j < |g| ==> g[i].0 != g[j].0
  }

  /** The number of items over all groups. */
  function Total<T>(g: Groups<T>): nat
    decreases |g|
  {
    if g == [] then 0 else |g[0].1| + Total(g[1..])
  }

  /** `(result[k] = result[k] || []).push(x)` */
  function AddTo<T>(g: Groups<T>, k: string, x: T): Groups<T>
    decreases |g|
  {
    if g == [] then [(k, [x])]
    else if g[0].0 == k then [(k, g[0].1 + [x])] + g[1..]
    else [g[0]] + AddTo(g[1..], k, x)
  }

  /** One step of the fold: `x` joins the group of `k`, which is created last when it
      is new, and every other group is untouched. */
  lemma {:induction false} AddToEffect<T>(g: Groups<T>, k: string, x: T)
    requires DistinctKeys(g)
    ensures DistinctKeys(AddTo(g, k, x))
    ensures Keys(AddTo(g, k, x)) == Keys(g) + {k}
    ensures forall k' :: Lookup(AddTo(g, k, x), k') == Lookup(g, k') + (if k' == k then [x] else [])
    ensures Total(AddTo(g, k, x)) == Total(g) + 1
    decreases |g|
  {
    if g != [] && g[0].0 != k {
      AddToEffect(g[1..], k, x);
      var r := AddTo(g, k, x);
      assert r == [g[0]] + AddTo(g[1..], k, x);
      KeysIn(g[1..]);
      forall i, j | 0 <= i < j < |r| ensures r[i].0 != r[j].0 {
        if i == 0 {
          assert r[j] == AddTo(g[1..], k, x)[j - 1];
          assert r[j].0 in Keys(AddTo(g[1..], k, x)) by { KeysIn(AddTo(g[1..], k, x)); }
          assert g[0].0 !in Keys(g[1..]) by {
            forall m | 0 <= m < |g[1..]| ensures g[1..][m].0 != g[0].0 {
              assert g[1..][m] == g[m + 1];
            }
            KeysIn(g[1..]);
          }
        }
      }
    } else if g != [] {
      var r := AddTo(g, k, x);
      assert r[1..] == g[1..];
      forall k' | k' != k ensures Lookup(r, k') == Lookup(g, k') {
      }
      forall i, j | 0 <= i < j < |r| ensures r[i].0 != r[j].0 {
        assert r[i].0 == g[i].0 && r[j].0 == g[j].0;
      }
    }
  }

  /** A key is a property exactly when some group carries it. */
  lemma {:induction false} KeysIn<T>(g: Groups<T>)
    ensures forall k :: k in Keys(g) <==> exists i :: 0 <= i < |g| && g[i].0 == k
    decreases |g|
  {
    if g != [] {
      KeysIn(g[1..]);
      forall k | k in Keys(g) ensures exists i :: 0 <= i < |g| && g[i].0 == k {
        if k != g[0].0 {
          assert k in Keys(g[1..]);
          var i :| 0 <= i < |g[1..]| && g[1..][i].0 == k;
          assert g[i + 1].0 == k;
        }
      }
      forall k | exists i :: 0 <= i < |g| && g[i].0 == k ensures k in Keys(g) {
        var i :| 0 <= i < |g| && g[i].0 == k;
        if i > 0 {
          assert g[1..][i - 1].0 == k;
        }
      }
    }
  }

  /** `groupBy(array, key)`: a fold over the array from its first item. */
  function GroupBy<T>(s: seq<T>, key: T -> string): Groups<T>
    decreases |s|
  {
    if s == [] then [] else AddTo(GroupBy(s[..|s| - 1], key), key(s[|s| - 1]), s[|s| - 1])
  }

  /** `groupBy` partitions its input: the keys are distinct and are exactly the keys of
      the items, each group holds exactly the items with its key in input order, and
      the group sizes add up to the number of items. */
  lemma {:induction false} GroupByPartition<T>(s: seq<T>, key: T -> string)
    ensures DistinctKeys(GroupBy(s, key))
    ensures Keys(GroupBy(s, key)) == set x | x in s :: key(x)
    ensures forall k :: Lookup(GroupBy(s, key), k) == Members(s, key, k)
    ensures Total(GroupBy(s, key)) == |s|
    decreases |s|
  {
    if s != [] {
      var n := |s| - 1;
      GroupByPartition(s[..n], key);
      AddToEffect(GroupBy(s[..n], key), key(s[n]), s[n]);
      assert s == s[..n] + [s[n]];
      assert (set x | x in s :: key(x)) == (set x | x in s[..n] :: key(x)) + {key(s[n])};
    }
  }

  /** Each group of a `groupBy` holds exactly the items of its key, so every item lies
      in one group only: the one named by its own key. */
  lemma GroupOfItem<T>(s: seq<T>, key: T -> string, i: nat, x: T)
    requires i < |GroupBy(s, key)| && x in s
    ensures x in GroupBy(s, key)[i].1 <==> key(x) == GroupBy(s, key)[i].0
  {
    GroupByPartition(s, key);
    LookupAt(GroupBy(s, key), i);
  }

  lemma {:induction false} LookupAt<T>(g: Groups<T>, i: nat)
    requires DistinctKeys(g) && i < |g|
    ensures Lookup(g, g[i].0) == g[i].1
    decreases i
  {
    if i > 0 {
      LookupAt(g[1..], i - 1);
      assert g[0].0 != g[i].0;
    }
  }

  /** `new Date(t).getHours()`, in the one zone the model reads dates in. */
  function HourOf(t: int): (h: int)
    ensures 0 <= h < 24
  {
    (t % DAY) / HOUR
  }

  function EventHour(e: Event): int {
    HourOf(e.timestamp)
  }

  function CountOr(m: map<int, nat>, h: int): nat {
    if h in m then m[h] else 0
  }

  /** `calculateTimeDistribution(activities)`: a fold counting events per hour. */
  function TimeDistribution(s: seq<Event>): map<int, nat>
    decreases |s|
  {
    if s == [] then map[]
    else
      var acc := TimeDistribution(s[..|s| - 1]);
      var h := EventHour(s[|s| - 1]);
      acc[h := CountOr(acc, h) + 1]
  }

  /** The counts of the hours before `n`. */
  function HourTotal(m: map<int, nat>, n: nat): nat {
    if n == 0 then 0 else HourTotal(m, n - 1) + CountOr(m, n - 1)
  }

  lemma {:induction false} HourTotalBump(m: map<int, nat>, h: int, n: nat)
    ensures HourTotal(m[h := CountOr(m, h) + 1], n) == HourTotal(m, n) + (if 0 <= h < n then 1 else 0)
  {
    if n > 0 {
      HourTotalBump(m, h, n - 1);
    }
  }

  lemma {:induction false} NoHours(n: nat)
    ensures HourTotal(map[], n) == 0
  {
    if n > 0 {
      NoHours(n - 1);
    }
  }

  /** The distribution has a property for exactly the hours some event falls in, its
      count there is the number of events in that hour, and the counts over the day add
      up to the number of events. */
  lemma {:induction false} TimeDistributionCounts(s: seq<Event>)
    ensures forall h :: h in TimeDistribution(s) <==> exists e :: e in s && EventHour(e) == h
    ensures forall h :: CountOr(TimeDistribution(s), h) == |Members(s, EventHour, h)|
    ensures HourTotal(TimeDistribution(s), 24) == |s|
    decreases |s|
  {
    if s == [] {
      NoHours(24);
    } else {
      var n := |s| - 1;
      TimeDistributionCounts(s[..n]);
      var acc := TimeDistribution(s[..n]);
      HourTotalBump(acc, EventHour(s[n]), 24);
      assert TimeDistribution(s) == acc[EventHour(s[n]) := CountOr(acc, EventHour(s[n])) + 1];
      assert s == s[..n] + [s[n]];
      forall h | exists e :: e in s && EventHour(e) == h ensures h in TimeDistribution(s) {
        var e :| e in s && EventHour(e) == h;
        if e != s[n] {
          assert e in s[..n];
        }
      }
    }
  }

  function Timestamp(e: Event): int {
    e.timestamp
  }

  function TypeName(e: Event): string {
    GroupName(e.eventType)
  }

  function UserName(e: Event): string {
    GroupName(e.userEmail)
  }

  /** The user-activity query: a timestamp within the bounds, both included, and the
      user when one is given. */
  predicate ActivitySelected(p: Params, e: Event) {
    p.startDate <= e.timestamp <= p.endDate && (Truthy(p.userId) ==> e.userId == p.userId.value)
  }

  /** The security query: within the bounds, and of the given event type when one is
      given, else of one of the four security event types. */
  predicate SecuritySelected(p: Params, e: Event) {
    p.startDate <= e.timestamp <= p.endDate
    && (if Truthy(p.eventType) then e.eventType == p.eventType
        else e.eventType.Some? && e.eventType.value in SECURITY_EVENT_TYPES)
  }

  /** A given event type replaces the fixed set: an event of that type is selected
      within the bounds even when it is not a security type, and no event of another
      type is. */
  lemma EventTypeReplacesSet(p: Params, e: Event)
    requires Truthy(p.eventType) && p.startDate <= e.timestamp <= p.endDate
    ensures SecuritySelected(p, e) <==> e.eventType == p.eventType
  {
  }

  /** The events a query returns, newest first. */
  function Query(events: seq<Event>, selected: Event -> bool): (r: seq<Event>)
    ensures SortedOn(r, Timestamp, true)
    ensures forall e :: e in r <==> e in events && selected(e)
    ensures multiset(r) <= multiset(events)
    ensures forall e :: multiset(r)[e] == if selected(e) then multiset(events)[e] else 0
    ensures |r| == |Filter(events, selected)|
  {
    var found := Filter(events, selected);
    var r := SortOn(found, Timestamp, true);
    assert forall e :: e in r ==> e in multiset(found);
    assert forall e :: e in found ==> e in multiset(r);
    forall e ensures multiset(r)[e] == if selected(e) then multiset(events)[e] else 0 {
      FilterCounts(events, selected, e);
    }
    assert |r| == |multiset(r)| == |multiset(found)| == |found|;
    r
  }

  /** `generateUserActivityReport(parameters)` over the stored events. */
  function UserActivityReport(p: Params, events: seq<Event>): ReportData {
    var activities := Query(events, e => ActivitySelected(p, e));
    UserActivity(|activities|, GroupBy(activities, TypeName), GroupBy(activities, UserName), TimeDistribution(activities))
  }

  /** Every aggregate of the user-activity report counts the same selected events: the
      total, both groupings and the hour distribution, and each type group holds the
      selected events of that type. */
  lemma UserActivityTotals(p: Params, events: seq<Event>)
    ensures var d := UserActivityReport(p, events);
      var activities := Query(events, e => ActivitySelected(p, e));
      d.totalActivities == |activities|
      && Total(d.activitiesByType) == d.totalActivities
      && Total(d.activitiesByUser) == d.totalActivities
      && DistinctKeys(d.activitiesByType) && DistinctKeys(d.activitiesByUser)
      && (forall k :: Lookup(d.activitiesByUser, k) == Members(activities, UserName, k))
      && HourTotal(d.timeDistribution, 24) == d.totalActivities
      && (forall k :: Lookup(d.activitiesByType, k) == Members(activities, TypeName, k))
      && (forall e :: e in activities <==> e in events && ActivitySelected(p, e))
  {
    var activities := Query(events, e => ActivitySelected(p, e));
    GroupByPartition(activities, TypeName);
    GroupByPartition(activities, UserName);
    TimeDistributionCounts(activities);
  }

  /** When every item has the key `k`, `groupBy` makes the one group `k` holding them
      all in order. */
  lemma {:induction false} GroupBySingleKey<T>(s: seq<T>, key: T -> string, k: string)
    requires forall i :: 0 <= i < |s| ==> key(s[i]) == k
    ensures GroupBy(s, key) == if s == [] then [] else [(k, s)]
    decreases |s|
  {
    if s != [] {
      var n := |s| - 1;
      GroupBySingleKey(s[..n], key, k);
      assert s[..n] + [s[n]] == s;
    }
  }

  /** What the reports read from an `AuditLog` document as written: the schema
      declares no `eventType`, and its `userId` is a plain string, so the key
      `'userId.email'` reads nothing from it. */
  predicate AuditLogDocument(e: Event) {
    e.eventType.None? && e.userEmail.None?
  }

  /** As written, the user-activity report over `AuditLog` documents puts every
      selected activity into the one group 'undefined', both by type and by user. */
  lemma ActivityGroupsAsWritten(p: Params, events: seq<Event>)
    requires forall i :: 0 <= i < |events| ==> AuditLogDocument(events[i])
    ensures var d := UserActivityReport(p, events);
      var activities := Query(events, e => ActivitySelected(p, e));
      d.activitiesByType == (if activities == [] then [] else [("undefined", activities)]) &&
      d.activitiesByUser == d.activitiesByType
  {
    var activities := Query(events, e => ActivitySelected(p, e));
    forall i | 0 <= i < |activities|
      ensures TypeName(activities[i]) == "undefined" && UserName(activities[i]) == "undefined"
    {
      assert activities[i] in events;
    }
    GroupBySingleKey(activities, TypeName, "undefined");
    GroupBySingleKey(activities, UserName, "undefined");
  }

  function FailedLogin(e: Event): bool {
    e.eventType == Some("failed_login")
  }

  /** `generateSecurityAuditReport(parameters)` over the stored events; suspicious
      activity detection returns no events. */
  function SecurityAuditReport(p: Params, events: seq<Event>): ReportData {
    var found := Query(events, e => SecuritySelected(p, e));
    SecurityAudit(|found|, GroupBy(found, TypeName), |Filter(found, FailedLogin)|, [])
  }

  /** The security report counts the selected events, its failed login count is the
      size of the 'failed_login' group, and that count is zero when another event
      type was asked for. */
  lemma SecurityAuditTotals(p: Params, events: seq<Event>)
    ensures var d := SecurityAuditReport(p, events);
      var found := Query(events, e => SecuritySelected(p, e));
      d.totalEvents == |found| == Total(d.eventsByType)
      && DistinctKeys(d.eventsByType)
      && (forall k :: Lookup(d.eventsByType, k) == Members(found, TypeName, k))
      && d.failedLoginAttempts == |Lookup(d.eventsByType, "failed_login")| <= d.totalEvents
      && (Truthy(p.eventType) && p.eventType.value != "failed_login" ==> d.failedLoginAttempts == 0)
  {
    var found := Query(events, e => SecuritySelected(p, e));
    GroupByPartition(found, TypeName);
    FailedLoginMembers(found);
  }

  /** Filtering on the 'failed_login' type is the 'failed_login' group. */
  lemma {:induction false} FailedLoginMembers(s: seq<Event>)
    ensures |Filter(s, FailedLogin)| == |Members(s, TypeName, "failed_login")|
    decreases |s|
  {
    if s != [] {
      var n := |s| - 1;
      FailedLoginMembers(s[..n]);
      FilterSnoc(s[..n], s[n]);
      assert s == s[..n] + [s[n]];
      assert FailedLogin(s[n]) <==> TypeName(s[n]) == "failed_login";
    }
  }

  lemma {:induction false} FilterSnoc(s: seq<Event>, x: Event)
    ensures |Filter(s + [x], FailedLogin)| == |Filter(s, FailedLogin)| + (if FailedLogin(x) then 1 else 0)
    decreases |s|
  {
    if s == [] {
      assert [x][1..] == [];
    } else {
      FilterSnoc(s[1..], x);
      assert (s + [x])[1..] == s[1..] + [x];
    }
  }

  /** The data a known report type produces; the performance and compliance
      collectors return constants. */
  function ReportDataFor(reportType: string, p: Params, events: seq<Event>): (r: Option<ReportData>)
    ensures r.Some? <==> reportType in ReportModel.REPORT_TYPES
  {
    match reportType
    case "userActivity" => Some(UserActivityReport(p, events))
    case "securityAudit" => Some(SecurityAuditReport(p, events))
    case "systemPerformance" => Some(SystemPerformance(0, 0, 0, 0))
    case "compliance" => Some(Compliance(p.reportType, p.period, 0, [], []))
    case _ => None
  }

  /** The document `generateReport` builds for a known type at time `now`. */
  function NewReport(id: ReportModel.Id, reportType: string, p: Params, data: ReportData, now: DateTime,
                     generatedBy: Option<ReportModel.Id>): ReportModel.Report<Content> {
    ReportModel.Report(id, reportType, (p, data), now, generatedBy, "generated", ReportModel.Schedule(None, None, None), "json")
  }

  /** The document as built passes the schema exactly when it names who generated it. */
  lemma NewReportValid(id: ReportModel.Id, reportType: string, p: Params, data: ReportData, now: DateTime,
                       generatedBy: Option<ReportModel.Id>)
    requires reportType in ReportModel.REPORT_TYPES
    ensures ReportModel.SchemaValid(NewReport(id, reportType, p, data, now, generatedBy)) <==> generatedBy.Some?
  {
  }

  /** `generateReport(reportType, parameters)` as written: an unknown type throws
      'Invalid report type'; a known one builds a report without `generatedBy`, which
      the schema requires, so the save throws and nothing is stored. */
  method GenerateReportAsWritten(c: ReportModel.ReportCollection<Content>, reportType: string, p: Params,
                                 events: seq<Event>, now: DateTime) returns (r: Result<ReportModel.Report<Content>, string>)
    requires c.Valid()
    modifies c`docs, c`nextId
    ensures c.Valid() && c.docs == old(c.docs)
    ensures reportType !in ReportModel.REPORT_TYPES ==> r == Err("Invalid report type")
    ensures reportType in ReportModel.REPORT_TYPES ==> r == Err("Report validation failed")
  {
    var data := ReportDataFor(reportType, p, events);
    if data.None? {
      return Err("Invalid report type");
    }
    var id := c.NewId();
    var report := NewReport(id, reportType, p, data.value, now, None);
    var ok := c.Insert(report);
    if !ok {
      return Err("Report validation failed");
    }
    r := Ok(report);
  }

  /** `generateReport` with the requesting user recorded as `generatedBy`: a known type
      is stored with its data and returned. */
  method GenerateReport(c: ReportModel.ReportCollection<Content>, reportType: string, p: Params,
                        events: seq<Event>, now: DateTime, generatedBy: ReportModel.Id)
    returns (r: Result<ReportModel.Report<Content>, string>)
    requires c.Valid()
    modifies c`docs, c`nextId
    ensures c.Valid()
    ensures reportType !in ReportModel.REPORT_TYPES ==> r == Err("Invalid report type") && c.docs == old(c.docs)
    ensures reportType in ReportModel.REPORT_TYPES ==>
      r.Ok? && r.value == NewReport(old(c.nextId), reportType, p, ReportDataFor(reportType, p, events).value, now, Some(generatedBy))
      && c.docs == old(c.docs) + [r.value]
  {
    var data := ReportDataFor(reportType, p, events);
    if data.None? {
      return Err("Invalid report type");
    }
    var id := c.NewId();
    var report := NewReport(id, reportType, p, data.value, now, Some(generatedBy));
    var ok := c.Insert(report);
    if !ok {
      return Err("Report validation failed");
    }
    r := Ok(report);
  }

  /** `exportReport(report, format)`: only 'pdf' is accepted, and the report is handed
      on unchanged to the PDF renderer. */
  function ExportReport<D>(report: ReportModel.Report<D>, format: Option<string>): (r: Result<ReportModel.Report<D>, string>)
    ensures r.Ok? <==> format == Some("pdf")
    ensures r.Ok? ==> r.value == report
    ensures r.Err? ==> r.error == "Unsupported export format"
  {
    if format == Some("pdf") then Ok(report) else Err("Unsupported export format")
  }
}
