/** The Report model: the schema's enumerations and required fields, the schedule's
    next generation date, the status update that records a generation, and the
    static queries and bulk archive over the collection. Dates are calendar dates
    read in one fixed zone; the collection is kept in its natural (insertion)
    order. A report's `parameters` and `data` travel together as its content `D`. */
module ReportModel {
  import opened Wrappers
  import opened Calendar
  import opened Seqs

  type Id = nat

  const REPORT_TYPES: set<string> := {"userActivity", "securityAudit", "systemPerformance", "compliance"}
  const REPORT_STATUSES: set<string> := {"draft", "generated", "archived", "scheduled"}
  const FREQUENCIES: set<string> := {"daily", "weekly", "monthly", "quarterly", "yearly"}
  const FORMATS: set<string> := {"json", "pdf", "csv", "excel"}
  const DEFAULT_ARCHIVE_DAYS: int := 90

  datatype Schedule = Schedule(frequency: Option<string>, lastGenerated: Option<DateTime>, nextGeneration: Option<DateTime>)

  datatype Report<D> = Report(
    id: Id,
    kind: string,
    content: D,
    generatedAt: DateTime,
    generatedBy: Option<Id>,
    status: string,
    schedule: Schedule,
    format: string)

  /** What a save validates: the type, status, frequency and format enumerations
      and the required `generatedBy` (the content is always present). */
  predicate SchemaValid<D>(r: Report<D>) {
    r.kind in REPORT_TYPES && r.generatedBy.Some? && r.status in REPORT_STATUSES
    && (r.schedule.frequency.None? || r.schedule.frequency.value in FREQUENCIES)
    && r.format in FORMATS
  }

  /** `calculateNextGenerationDate()` evaluated at `now`: no date without a frequency;
      otherwise now moved on by one day, seven days, one month, three months or one
      year. A frequency outside the enumeration matches no case and leaves now as
      it is. */
  function NextGeneration(frequency: Option<string>, now: DateTime): (r: Option<DateTime>)
    requires Valid(now)
    ensures r.None? <==> frequency.None? || frequency.value == ""
    ensures r.Some? ==> Valid(r.value)
    ensures r.Some? && frequency.value in FREQUENCIES ==> Before(now, r.value)
  {
    if frequency.None? || frequency.value == "" then None
    else match frequency.value
      case "daily" => Some(AddDays(now, 1))
      case "weekly" => Some(AddDays(now, 7))
      case "monthly" => Some(AddMonths(now, 1))
      case "quarterly" => Some(AddMonths(now, 3))
      case "yearly" => Some(AddYear(now))
      case _ => Some(now)
  }

  /** A daily schedule runs on the next calendar day and a weekly one seven days on,
      both at the same time of day. */
  lemma NextGenerationDays(now: DateTime)
    requires Valid(now)
    ensures NextGeneration(Some("daily"), now) == Some(NextDay(now))
    ensures var w := NextGeneration(Some("weekly"), now).value;
      DayNumber(w) == DayNumber(now) + 7 &&
      w.hour == now.hour && w.minute == now.minute && w.second == now.second && w.millis == now.millis
  {
    assert AddDays(NextDay(now), 0) == NextDay(now);
    AddDaysNumber(now, 7);
  }

  /** A monthly schedule lands on the same day of the following month when that month
      has the day. */
  lemma NextGenerationMonthly(now: DateTime)
    requires Valid(now)
    ensures var (y, m) := MonthOn(now, 1);
      var n := NextGeneration(Some("monthly"), now).value;
      now.day <= DaysInMonth(y, m) ==> n.day == now.day && n.month == m && n.year == y
  {
    AddMonthsDay(now, 1);
  }

  /** A quarterly schedule lands on the same day of the month three months on when that
      month has the day. */
  lemma NextGenerationQuarterly(now: DateTime)
    requires Valid(now)
    ensures var (y, m) := MonthOn(now, 3);
      var q := NextGeneration(Some("quarterly"), now).value;
      now.day <= DaysInMonth(y, m) ==> q.day == now.day && q.month == m && q.year == y
  {
    AddMonthsDay(now, 3);
  }

  /** A yearly schedule is twelve months on. */
  lemma NextGenerationYearly(now: DateTime)
    requires Valid(now)
    ensures NextGeneration(Some("yearly"), now) == Some(AddMonths(now, 12))
  {
    AddMonthsDay(now, 12);
  }

  /** The document after `updateStatus(newStatus)` at time `now`, before it is saved. */
  function StatusUpdated<D>(r: Report<D>, newStatus: string, now: DateTime): Report<D>
    requires Valid(now)
  {
    if newStatus == "generated" then
      r.(status := newStatus,
         schedule := r.schedule.(lastGenerated := Some(now), nextGeneration := NextGeneration(r.schedule.frequency, now)))
    else r.(status := newStatus)
  }

  /** The status is always the new one; only 'generated' also stamps the schedule, and a
      scheduled report's next generation then lies after now. Nothing else changes. */
  lemma StatusUpdatedEffect<D>(r: Report<D>, newStatus: string, now: DateTime)
    requires Valid(now)
    ensures StatusUpdated(r, newStatus, now).status == newStatus
    ensures StatusUpdated(r, newStatus, now).(status := r.status, schedule := r.schedule) == r
    ensures newStatus != "generated" ==> StatusUpdated(r, newStatus, now).schedule == r.schedule
    ensures newStatus == "generated" ==>
      var s := StatusUpdated(r, newStatus, now).schedule;
      s.frequency == r.schedule.frequency && s.lastGenerated == Some(now) &&
      (r.schedule.frequency.Some? && r.schedule.frequency.value in FREQUENCIES ==>
        s.nextGeneration.Some? && Before(now, s.nextGeneration.value))
    ensures newStatus == "generated" && (r.schedule.frequency.None? || r.schedule.frequency.value == "") ==>
      StatusUpdated(r, newStatus, now).schedule.nextGeneration.None?
  {
  }

  /** The filter of `archiveOldReports`. */
  predicate Archivable<D>(r: Report<D>, cutoff: DateTime) {
    Before(r.generatedAt, cutoff) && r.status != "archived"
  }

  /** The collection after the bulk update: archivable reports get status 'archived'. */
  function Archived<D>(s: seq<Report<D>>, cutoff: DateTime): (r: seq<Report<D>>)
    ensures |r| == |s|
  {
    seq(|s|, i requires 0 <= i < |s| => ArchivedOne(s[i], cutoff))
  }

  /** One report after the bulk update. */
  function ArchivedOne<D>(r: Report<D>, cutoff: DateTime): Report<D> {
    if Archivable(r, cutoff) then r.(status := "archived") else r
  }

  /** How many reports the bulk update changes. */
  function ArchivableCount<D>(s: seq<Report<D>>, cutoff: DateTime): nat
    decreases |s|
  {
    if s == [] then 0
    else ArchivableCount(s[..|s| - 1], cutoff) + (if Archivable(s[|s| - 1], cutoff) then 1 else 0)
  }

  /** Archiving changes exactly the old, unarchived reports and only their status;
      afterwards none is left to archive, so a second run changes nothing. */
  lemma {:induction false} ArchivedExactly<D>(s: seq<Report<D>>, cutoff: DateTime)
    ensures forall i :: 0 <= i < |s| && Archivable(s[i], cutoff) ==> Archived(s, cutoff)[i] == s[i].(status := "archived")
    ensures forall i :: 0 <= i < |s| && !Archivable(s[i], cutoff) ==> Archived(s, cutoff)[i] == s[i]
    ensures ArchivableCount(Archived(s, cutoff), cutoff) == 0
    ensures Archived(Archived(s, cutoff), cutoff) == Archived(s, cutoff)
    ensures ArchivableCount(s, cutoff) <= |s|
    decreases |s|
  {
    if s != [] {
      var n := |s| - 1;
      ArchivedExactly(s[..n], cutoff);
      assert Archived(s, cutoff)[..n] == Archived(s[..n], cutoff);
    }
  }

  lemma ArchivableCountStep<D>(s: seq<Report<D>>, i: nat, cutoff: DateTime)
    requires i < |s|
    ensures ArchivableCount(s[..i + 1], cutoff) == ArchivableCount(s[..i], cutoff) + (if Archivable(s[i], cutoff) then 1 else 0)
  {
    assert s[..i + 1][..i] == s[..i];
  }

  lemma ArchivedKeepsIds<D>(s: seq<Report<D>>, cutoff: DateTime)
    ensures forall j :: 0 <= j < |s| ==> Archived(s, cutoff)[j].id == s[j].id
  {
  }

  /** The bulk update's pass over the collection: each archivable report in turn is
      set to 'archived' and counted. */
  method ArchiveAll<D>(s: seq<Report<D>>, cutoff: DateTime) returns (r: seq<Report<D>>, modified: nat)
    ensures r == Archived(s, cutoff)
    ensures modified == ArchivableCount(s, cutoff)
  {
    r := s;
    modified := 0;
    var i := 0;
    while i < |r|
      invariant 0 <= i <= |r| == |s|
      invariant forall j :: 0 <= j < i ==> r[j] == ArchivedOne(s[j], cutoff)
      invariant forall j :: i <= j < |r| ==> r[j] == s[j]
      invariant modified == ArchivableCount(s[..i], cutoff)
    {
      ArchivableCountStep(s, i, cutoff);
      if Archivable(r[i], cutoff) {
        r := r[i := r[i].(status := "archived")];
        modified := modified + 1;
      }
      i := i + 1;
    }
    assert s == s[..i];
    assert forall j :: 0 <= j < |s| ==> Archived(s, cutoff)[j] == ArchivedOne(s[j], cutoff);
  }

  /** Due for generation: scheduled, with a next generation date not after now. */
  predicate Due<D>(r: Report<D>, now: DateTime) {
    r.status == "scheduled" && r.schedule.nextGeneration.Some? && !Before(now, r.schedule.nextGeneration.value)
  }

  /** `getScheduledReports()` at time `now`, in natural order. */
  function ScheduledReports<D(!new)>(docs: seq<Report<D>>, now: DateTime): (r: seq<Report<D>>)
    ensures forall x :: x in r <==> x in docs && Due(x, now)
    ensures multiset(r) <= multiset(docs)
  {
    var r := Filter(docs, x => Due(x, now));
    assert forall x :: x in r ==> x in multiset(docs);
    r
  }

  /** The selection of `getReportsByTypeAndDateRange`: the type, and a generation date
      within the range, both ends included. */
  predicate InTypeAndRange<D>(r: Report<D>, kind: string, start: DateTime, end: DateTime) {
    r.kind == kind && !Before(r.generatedAt, start) && !Before(end, r.generatedAt)
  }

  function InTypeAndRangeOf<D>(kind: string, start: DateTime, end: DateTime): Report<D> -> bool {
    x => InTypeAndRange(x, kind, start, end)
  }

  function GeneratedAt<D>(r: Report<D>): int {
    Ordinal(r.generatedAt)
  }

  /** `getReportsByTypeAndDateRange(type, startDate, endDate)`: the matching reports,
      newest first. */
  function ReportsByTypeAndDateRange<D(!new)>(docs: seq<Report<D>>, kind: string, start: DateTime, end: DateTime)
    : (r: seq<Report<D>>)
    ensures forall x :: x in r <==> x in docs && InTypeAndRange(x, kind, start, end)
    ensures forall i, j :: 0 <= i < j < |r| ==> !Before(r[i].generatedAt, r[j].generatedAt)
    ensures multiset(r) <= multiset(docs)
  {
    var selected := Filter(docs, InTypeAndRangeOf(kind, start, end));
    var r := SortOn(selected, GeneratedAt, true);
    NewestFirst(selected, r, docs, kind, start, end);
    r
  }

  /** A newest-first ordering of the selected reports keeps exactly the selection. */
  lemma NewestFirst<D(!new)>(selected: seq<Report<D>>, r: seq<Report<D>>, docs: seq<Report<D>>, kind: string, start: DateTime, end: DateTime)
    requires selected == Filter(docs, InTypeAndRangeOf(kind, start, end))
    requires SortedOn(r, GeneratedAt, true) && multiset(r) == multiset(selected)
    ensures forall x :: x in r <==> x in docs && InTypeAndRange(x, kind, start, end)
    ensures forall i, j :: 0 <= i < j < |r| ==> !Before(r[i].generatedAt, r[j].generatedAt)
    ensures multiset(r) <= multiset(docs)
  {
    forall x | x in r ensures x in docs && InTypeAndRange(x, kind, start, end) {
      assert x in multiset(selected);
    }
    forall x | x in docs && InTypeAndRange(x, kind, start, end) ensures x in r {
      assert x in multiset(r);
    }
    forall i, j | 0 <= i < j < |r| ensures !Before(r[i].generatedAt, r[j].generatedAt) {
      assert Ordered(GeneratedAt(r[i]), GeneratedAt(r[j]), true);
    }
  }

  /** The reports collection. */
  class ReportCollection<D> {
    var docs: seq<Report<D>>
    var nextId: Id

    /** Ids are unique and below the next id handed out. */
    ghost predicate Valid()
      reads this
    {
      (forall i :: 0 <= i < |docs| ==> docs[i].id < nextId)
      && (forall i, j :: 0 <= i < j < |docs| ==> docs[i].id != docs[j].id)
    }

    constructor()
      ensures Valid() && docs == [] && nextId == 0
    {
      docs := [];
      nextId := 0;
    }

    /** A fresh ObjectId for a new document. */
    method NewId() returns (id: Id)
      requires Valid()
      modifies this`nextId
      ensures Valid() && id == old(nextId) && nextId == id + 1
      ensures forall i :: 0 <= i < |docs| ==> docs[i].id != id
    {
      id := nextId;
      nextId := nextId + 1;
    }

    /** `save()` of a new document: stored when the schema accepts it. */
    method Insert(r: Report<D>) returns (ok: bool)
      requires Valid() && r.id < nextId && forall i :: 0 <= i < |docs| ==> docs[i].id != r.id
      modifies this`docs
      ensures Valid()
      ensures ok == SchemaValid(r)
      ensures docs == old(docs) + (if ok then [r] else [])
    {
      ok := SchemaValid(r);
      if ok {
        docs := docs + [r];
      }
    }

    /** `report.updateStatus(newStatus)` on the document at position `k`: the fields are
        assigned and the document saved, which fails when the schema refuses it (an
        unknown status, or a report without `generatedBy`). */
    method UpdateStatus(k: nat, newStatus: string, now: DateTime) returns (saved: Result<Report<D>, string>)
      requires Valid() && k < |docs| && Calendar.Valid(now)
      modifies this`docs
      ensures Valid()
      ensures saved.Ok? <==> SchemaValid(StatusUpdated(old(docs)[k], newStatus, now))
      ensures saved.Ok? ==> saved.value == StatusUpdated(old(docs)[k], newStatus, now) && docs == old(docs)[k := saved.value]
      ensures saved.Err? ==> docs == old(docs)
    {
      var r := docs[k];
      r := r.(status := newStatus);
      if newStatus == "generated" {
        r := r.(schedule := r.schedule.(lastGenerated := Some(now)));
        r := r.(schedule := r.schedule.(nextGeneration := NextGeneration(r.schedule.frequency, now)));
      }
      if !SchemaValid(r) {
        return Err("Report validation failed");
      }
      docs := docs[k := r];
      saved := Ok(r);
    }

    /** `Report.archiveOldReports(daysOld)` at time `now`: every report generated before
        `daysOld` days ago (90 when not given) and not yet archived is set to
        'archived'; the result is the number of documents changed. */
    method ArchiveOldReports(daysOld: Option<int>, now: DateTime) returns (modified: nat)
      requires Valid() && Calendar.Valid(now)
      modifies this`docs
      ensures Valid()
      ensures docs == Archived(old(docs), AddDays(now, -daysOld.GetOr(DEFAULT_ARCHIVE_DAYS)))
      ensures modified == ArchivableCount(old(docs), AddDays(now, -daysOld.GetOr(DEFAULT_ARCHIVE_DAYS)))
    {
      var cutoff := AddDays(now, -daysOld.GetOr(DEFAULT_ARCHIVE_DAYS));
      ghost var before := docs;
      docs, modified := ArchiveAll(docs, cutoff);
      ArchivedKeepsIds(before, cutoff);
    }
  }
}
