/** Calendar dates as JavaScript's `Date` exposes them through its field accessors:
    year, month (1 to 12 here), day of month and time of day. Day and month
    arithmetic follows `setDate` and `setMonth`, which roll a day past the end of a
    month over into the next one. Time zones and daylight saving are not modelled:
    every date is read in one fixed zone. */
module Calendar {
  import opened Text

  datatype DateTime = DateTime(year: nat, month: nat, day: nat, hour: nat, minute: nat, second: nat, millis: nat)

  predicate IsLeapYear(y: nat) {
    y % 4 == 0 && (y % 100 != 0 || y % 400 == 0)
  }

  function DaysInMonth(y: nat, m: nat): (r: nat)
    ensures 28 <= r <= 31
  {
    if m == 2 then (if IsLeapYear(y) then 29 else 28)
    else if m == 4 || m == 6 || m == 9 || m == 11 then 30
    else 31
  }

  predicate Valid(d: DateTime) {
    1 <= d.month <= 12 && 1 <= d.day <= DaysInMonth(d.year, d.month)
    && d.hour < 24 && d.minute < 60 && d.second < 60 && d.millis < 1000
  }

  /** A number that orders valid dates chronologically. */
  function Ordinal(d: DateTime): nat {
    ((((((d.year * 13 + d.month) * 32 + d.day) * 24 + d.hour) * 60 + d.minute) * 60 + d.second) * 1000) + d.millis
  }

  predicate Before(a: DateTime, b: DateTime) {
    Ordinal(a) < Ordinal(b)
  }

  /** Comparing the calendar fields of valid dates: an earlier day comes first
      whatever the times of day. */
  lemma EarlierDayIsBefore(a: DateTime, b: DateTime)
    requires Valid(a) && Valid(b)
    requires a.year < b.year || (a.year == b.year && (a.month < b.month || (a.month == b.month && a.day < b.day)))
    ensures Before(a, b)
  {
    var ta := ((a.hour * 60 + a.minute) * 60 + a.second) * 1000 + a.millis;
    var tb := ((b.hour * 60 + b.minute) * 60 + b.second) * 1000 + b.millis;
    assert ta < 24 * 60 * 60 * 1000 && tb >= 0;
    assert Ordinal(a) == (a.year * 13 + a.month) * 32 * 86400000 + a.day * 86400000 + ta;
    assert Ordinal(b) == (b.year * 13 + b.month) * 32 * 86400000 + b.day * 86400000 + tb;
    if a.year < b.year {
      assert a.year * 13 + a.month < b.year * 13 + b.month;
    }
  }

  /** The same time of day on the following calendar day. */
  function NextDay(d: DateTime): (r: DateTime)
    requires Valid(d)
    ensures Valid(r) && Before(d, r)
    ensures r.(year := d.year, month := d.month, day := d.day) == d
  {
    var r := if d.day < DaysInMonth(d.year, d.month) then d.(day := d.day + 1)
      else if d.month < 12 then d.(month := d.month + 1, day := 1)
      else d.(year := d.year + 1, month := 1, day := 1);
    EarlierDayIsBefore(d, r);
    r
  }

  /** The same time of day on the preceding calendar day; the year 0 has no
      predecessor in this model and stays at its first day. */
  function PrevDay(d: DateTime): (r: DateTime)
    requires Valid(d)
    ensures Valid(r)
    ensures r.(year := d.year, month := d.month, day := d.day) == d
    ensures (d.year, d.month, d.day) != (0, 1, 1) ==> Before(r, d)
  {
    if d.day > 1 then
      var r := d.(day := d.day - 1);
      EarlierDayIsBefore(r, d);
      r
    else if d.month > 1 then
      var r := d.(month := d.month - 1, day := DaysInMonth(d.year, d.month - 1));
      EarlierDayIsBefore(r, d);
      r
    else if d.year > 0 then
      var r := d.(year := d.year - 1, month := 12, day := 31);
      EarlierDayIsBefore(r, d);
      r
    else d
  }

  /** `date.setDate(date.getDate() + n)` */
  function AddDays(d: DateTime, n: int): (r: DateTime)
    requires Valid(d)
    ensures Valid(r)
    ensures r.(year := d.year, month := d.month, day := d.day) == d
    ensures n > 0 ==> Before(d, r)
    decreases if n < 0 then -n else n
  {
    if n == 0 then d
    else if n > 0 then
      var r := AddDays(NextDay(d), n - 1);
      assert Ordinal(d) < Ordinal(NextDay(d)) <= Ordinal(r);
      r
    else AddDays(PrevDay(d), n + 1)
  }

  /** The days of year `y` before the first of month `m`. */
  function DaysBeforeMonth(y: nat, m: nat): (r: nat)
    ensures m >= 1 ==> r >= 28 * (m - 1)
  {
    if m <= 1 then 0 else DaysBeforeMonth(y, m - 1) + DaysInMonth(y, m - 1)
  }

  /** The days from the first of January of the year 0 to that of year `y`. */
  function DaysBeforeYear(y: nat): (r: nat)
    ensures r >= 336 * y
  {
    if y == 0 then 0 else DaysBeforeYear(y - 1) + DaysBeforeMonth(y - 1, 13)
  }

  /** The number of the calendar day of `d`, counted from 1 January of the year 0. */
  function DayNumber(d: DateTime): int {
    DaysBeforeYear(d.year) + DaysBeforeMonth(d.year, d.month) + d.day - 1
  }

  /** The following day is the next day number. */
  lemma NextDayNumber(d: DateTime)
    requires Valid(d)
    ensures DayNumber(NextDay(d)) == DayNumber(d) + 1
  {
    if d.day == DaysInMonth(d.year, d.month) && d.month == 12 {
      assert DaysBeforeMonth(d.year, 13) == DaysBeforeMonth(d.year, 12) + 31;
    }
  }

  /** Only 1 January of the year 0 has day number 0. */
  lemma FirstDayNumber(d: DateTime)
    requires Valid(d)
    ensures DayNumber(d) == 0 <==> (d.year, d.month, d.day) == (0, 1, 1)
  {
  }

  /** The preceding day is the previous day number, except at the first day. */
  lemma PrevDayNumber(d: DateTime)
    requires Valid(d)
    ensures DayNumber(PrevDay(d)) == if DayNumber(d) == 0 then 0 else DayNumber(d) - 1
  {
    FirstDayNumber(d);
    if d.day == 1 && d.month == 1 && d.year > 0 {
      assert DaysBeforeYear(d.year) == DaysBeforeYear(d.year - 1) + DaysBeforeMonth(d.year - 1, 12) + 31;
    }
  }

  /** `setDate(getDate() + n)` moves the date by exactly `n` calendar days (a date
      before the year 0 stops at its first day), and strictly later or earlier with
      the sign of `n`. */
  lemma {:induction false} AddDaysNumber(d: DateTime, n: int)
    requires Valid(d)
    ensures DayNumber(AddDays(d, n)) == if DayNumber(d) + n >= 0 then DayNumber(d) + n else 0
    ensures n < 0 && DayNumber(d) + n >= 0 ==> Before(AddDays(d, n), d)
    decreases if n < 0 then -n else n
  {
    if n > 0 {
      NextDayNumber(d);
      AddDaysNumber(NextDay(d), n - 1);
    } else if n < 0 {
      PrevDayNumber(d);
      FirstDayNumber(d);
      AddDaysNumber(PrevDay(d), n + 1);
    }
  }

  /** A year, month and day of month whose day may run past the month's end, rolled
      over into the following month as `setMonth` and `setFullYear` do. Days past the
      end never exceed three, so one step suffices. */
  function RollOver(d: DateTime, y: nat, m: nat): (r: DateTime)
    requires Valid(d) && 1 <= m <= 12
    ensures Valid(r)
    ensures r.(year := d.year, month := d.month, day := d.day) == d
    ensures d.day <= DaysInMonth(y, m) ==> r.year == y && r.month == m && r.day == d.day
    ensures d.day > DaysInMonth(y, m) ==>
      r.day == d.day - DaysInMonth(y, m) && (if m < 12 then r.year == y && r.month == m + 1 else r.year == y + 1 && r.month == 1)
  {
    if d.day <= DaysInMonth(y, m) then d.(year := y, month := m)
    else if m < 12 then d.(year := y, month := m + 1, day := d.day - DaysInMonth(y, m))
    else d.(year := y + 1, month := 1, day := d.day - DaysInMonth(y, m))
  }

  /** The year and the month (1 to 12) that lie `k` months after `d`'s month. */
  function MonthOn(d: DateTime, k: nat): (r: (nat, nat))
    requires Valid(d)
    ensures 1 <= r.1 <= 12
    ensures r.0 * 12 + r.1 == d.year * 12 + d.month + k
  {
    var t := d.month - 1 + k;
    (d.year + t / 12, t % 12 + 1)
  }

  /** `date.setMonth(date.getMonth() + k)` */
  function AddMonths(d: DateTime, k: nat): (r: DateTime)
    requires Valid(d)
    ensures Valid(r)
    ensures k > 0 ==> Before(d, r)
  {
    var (y, m) := MonthOn(d, k);
    var r := RollOver(d, y, m);
    if k > 0 then
      assert d.year * 12 + d.month < r.year * 12 + r.month;
      EarlierDayIsBefore(d, r);
      r
    else r
  }

  /** `date.setFullYear(date.getFullYear() + 1)` */
  function AddYear(d: DateTime): (r: DateTime)
    requires Valid(d)
    ensures Valid(r) && Before(d, r)
  {
    var r := RollOver(d, d.year + 1, d.month);
    EarlierDayIsBefore(d, r);
    r
  }

  /** A month later lands on the same day of the month when that day exists, and
      otherwise on the first days of the month after; a whole year is twelve months
      under these rules. */
  lemma AddMonthsDay(d: DateTime, k: nat)
    requires Valid(d)
    ensures var (y, m) := MonthOn(d, k);
      d.day <= DaysInMonth(y, m) ==> AddMonths(d, k).day == d.day && AddMonths(d, k).month == m && AddMonths(d, k).year == y
    ensures AddMonths(d, 12) == AddYear(d)
  {
  }

  /** The year as `toISOString()` writes it: four digits for the years 0 to 9999, and
      the expanded form `+YYYYYY` for later ones. */
  function IsoYear(y: nat): string {
    if y <= 9999 then Padded(y, 4) else "+" + Padded(y, 6)
  }

  /** `toISOString()`: `YYYY-MM-DDTHH:mm:ss.sssZ`. */
  function IsoString(d: DateTime): string {
    IsoYear(d.year) + "-" + Padded(d.month, 2) + "-" + Padded(d.day, 2) + "T" + Padded(d.hour, 2) + ":"
      + Padded(d.minute, 2) + ":" + Padded(d.second, 2) + "." + Padded(d.millis, 3) + "Z"
  }
}
