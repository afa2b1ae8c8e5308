/** What the audit log and error log listings share: reading `page` and `limit`, the
    skip and page-count arithmetic, the window a `.skip().limit()` query returns,
    and the inclusive timestamp range. */
module LogQuery {
  import opened Wrappers
  import opened Text
  import opened Jwt
  import opened Seqs

  /** `parseInt(raw) || fallback`: absent, non-numeric and zero all give the
      fallback. */
  function NumberOr(raw: Option<string>, fallback: int): int {
    if raw.None? then fallback
    else match ParseInt(raw.value)
      case None => fallback
      case Some(n) => if n == 0 then fallback else n
  }

  /** The fallback is taken exactly for a missing, non-numeric or zero parameter (or
      one equal to the fallback), and the result is never zero. */
  lemma NumberOrMeaning(raw: Option<string>, fallback: int)
    requires fallback != 0
    ensures NumberOr(raw, fallback) != 0
    ensures NumberOr(raw, fallback) == fallback <==>
      raw.None? || ParseInt(raw.value) in {None, Some(0), Some(fallback)}
  {
    if raw.Some? {
      var p := ParseInt(raw.value);
      assert NumberOr(raw, fallback) == if p.None? || p.value == 0 then fallback else p.value;
    }
  }

  /** A parameter written in decimal is read back as its value, up to the largest
      safe integer. */
  lemma NumberOrDecimal(n: nat, fallback: int)
    requires n <= MAX_SAFE_INTEGER
    ensures n > 0 ==> NumberOr(Some(Decimal(n)), fallback) == n
    ensures n == 0 ==> NumberOr(Some(Decimal(n)), fallback) == fallback
  {
    ParseIntDecimal(n);
  }

  /** `(page - 1) * limit` */
  function Skip(page: int, limit: int): int {
    (page - 1) * limit
  }

  /** `Math.ceil(total / limit)` for a non-zero limit. */
  function TotalPages(total: nat, limit: int): (r: int)
    requires limit != 0
    ensures limit > 0 ==> r * limit >= total && (r - 1) * limit < total
    ensures limit < 0 ==> r * limit <= total && (r - 1) * limit > total
  {
    if limit > 0 then CeilDivision(total, limit) else -(total / -limit)
  }

  function CeilDivision(total: nat, limit: nat): (r: nat)
    requires limit > 0
    ensures r * limit >= total && (r - 1) * limit < total
  {
    var q := (total + limit - 1) / limit;
    assert q * limit <= total + limit - 1 < (q + 1) * limit;
    q
  }

  /** The number of documents `limit(n)` lets through: none of a limit of zero
      (no limit), and the absolute value of a negative one. */
  function LimitCount(limit: int): Option<nat> {
    if limit == 0 then None else if limit > 0 then Some(limit) else Some(-limit)
  }

  /** `.skip(skip).limit(count)` on an ordered result. */
  function Window<T>(s: seq<T>, skip: nat, count: Option<nat>): (r: seq<T>)
    ensures skip >= |s| ==> r == []
    ensures skip < |s| ==> |r| == if count.Some? && count.value < |s| - skip then count.value else |s| - skip
    ensures forall i :: 0 <= i < |r| ==> skip + i < |s| && r[i] == s[skip + i]
  {
    if skip >= |s| then []
    else if count.Some? && count.value < |s| - skip then s[skip..skip + count.value]
    else s[skip..]
  }

  /** With a positive limit the pages 1 to `TotalPages` of the listing hold every
      element exactly where its index says: element `i` is entry `i % limit` of
      page `i / limit + 1`. */
  lemma PagesCover<T>(s: seq<T>, limit: nat, i: nat)
    requires limit > 0 && i < |s|
    ensures var page := i / limit + 1;
      1 <= page <= TotalPages(|s|, limit) &&
      Skip(page, limit) >= 0 &&
      i % limit < |Window(s, Skip(page, limit), LimitCount(limit))| &&
      Window(s, Skip(page, limit), LimitCount(limit))[i % limit] == s[i]
  {
    var page := i / limit + 1;
    assert Skip(page, limit) == (i / limit) * limit;
    assert (i / limit) * limit + i % limit == i;
    var t := TotalPages(|s|, limit);
    assert (i / limit) * limit <= i < |s| <= t * limit;
    assert i / limit < t;
  }

  /** A `{ $gte, $lte }` condition on a timestamp; either bound may be absent. */
  datatype Range = Range(gte: Option<int>, lte: Option<int>)

  predicate InRange(t: int, r: Range) {
    (r.gte.Some? ==> t >= r.gte.value) && (r.lte.Some? ==> t <= r.lte.value)
  }

  /** `d.setHours(23, 59, 59, 999)`: the last millisecond of the day of `t`. */
  function EndOfDay(t: int): int {
    t - t % DAY + (DAY - 1)
  }

  /** A time is at or before the end of the day of `t` exactly when it falls on that
      day or an earlier one. */
  lemma EndOfDayMeaning(t: int, u: int)
    ensures EndOfDay(t) >= t && EndOfDay(t) / DAY == t / DAY
    ensures u <= EndOfDay(t) <==> u / DAY <= t / DAY
  {
    var d := t / DAY;
    assert t == d * DAY + t % DAY;
    assert EndOfDay(t) == d * DAY + (DAY - 1);
    var e := u / DAY;
    assert u == e * DAY + u % DAY;
    if e <= d {
      assert e * DAY <= d * DAY;
    } else {
      assert (d + 1) * DAY <= e * DAY;
    }
  }

  /** The body of a successful listing: the page of documents and the pagination
      block. `totalPages` is absent where `Math.ceil` gives no finite number. */
  datatype Listing<T> = Listing(data: seq<T>, total: nat, page: int, limit: int, totalPages: Option<int>)

  /** A failed listing: the status and the `message` and `error` of the body. */
  datatype Failure = Failure(status: nat, message: string, error: string)

  /** The page of a listing is ordered like the listing it is cut from. */
  lemma WindowSorted<T>(s: seq<T>, key: T -> int, skip: nat, count: Option<nat>)
    requires SortedOn(s, key, true)
    ensures SortedOn(Window(s, skip, count), key, true)
  {
    var w := Window(s, skip, count);
    forall i, j | 0 <= i < j < |w| ensures Ordered(key(w[i]), key(w[j]), true) {
      assert w[i] == s[skip + i] && w[j] == s[skip + j];
    }
  }

  /** Every document of a page of the sorted `Filter(s, p)` passes `p` and comes from
      `s`. */
  lemma WindowOfFilter<T>(s: seq<T>, p: T -> bool, key: T -> int, skip: nat, count: Option<nat>)
    ensures var w := Window(SortOn(Filter(s, p), key, true), skip, count);
      forall i :: 0 <= i < |w| ==> p(w[i]) && w[i] in s
  {
    var f := Filter(s, p);
    var sorted := SortOn(f, key, true);
    var w := Window(sorted, skip, count);
    forall i | 0 <= i < |w| ensures p(w[i]) && w[i] in s {
      assert w[i] == sorted[skip + i];
      assert w[i] in multiset(sorted);
      assert w[i] in multiset(f);
      assert w[i] in multiset(s);
    }
  }
}
