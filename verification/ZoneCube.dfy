/** Whether hourly UTC rollups can stand in for raw rows in a time zone, and why they may. Instants are Unix
    nanoseconds; a zone is its offset, in seconds, as a function of Unix seconds. */
module ZoneCube {
  import opened Options

  const SECOND: int := 1_000_000_000
  const HOUR: int := 3600 * SECOND
  const DAY: int := 24 * HOUR

  datatype Zone = Utc | Local(off: int -> int)

  datatype Reason = Reusable | Unaligned | Offset | Dst

  function Unix(t: int): int { t / SECOND }

  function Nanosecond(t: int): int { t % SECOND }

  predicate HourAligned(t: int) { Unix(t) % 3600 == 0 && Nanosecond(t) == 0 }

  /** The sampling loop from `t` on, `base` being the offset of the samples before. */
  function Scan(off: int -> int, t: int, to: int, base: Option<int>): Reason
    decreases (to - t)
  {
    if t > to then Reusable
    else
      var o := off(Unix(t));
      if o % 3600 != 0 then Offset
      else if base.Some? && o != base.value then Dst
      else Scan(off, t + HOUR, to, if base.None? then Some(o) else base)
  }

  function Verdict(zone: Zone, from: int, to: int): Reason {
    if !HourAligned(from) || !HourAligned(to) then Unaligned
    else if zone.Utc? then Reusable
    else Scan(zone.off, from, to, None)
  }

  method ZoneCubeVerdict(zone: Zone, from: int, to: int) returns (r: Reason)
    ensures r == Verdict(zone, from, to)
  {
    if !HourAligned(from) || !HourAligned(to) { return Unaligned; }
    if zone.Utc? { return Reusable; }
    var baseOff, first := 0, true;
    var t := from;
    while t <= to
      invariant first ==> t == from
      invariant !first ==> Scan(zone.off, from, to, None) == Scan(zone.off, t, to, Some(baseOff))
      decreases (to - t)
    {
      var off := zone.off(Unix(t));
      if off % 3600 != 0 { return Offset; }
      if first {
        baseOff, first := off, false;
      } else if off != baseOff {
        return Dst;
      }
      t := t + HOUR;
    }
    return Reusable;
  }

  lemma AlignedIsMultiple(t: int)
    ensures HourAligned(t) <==> t % HOUR == 0
  {
    assert t == SECOND * Unix(t) + Nanosecond(t);
    var q := Unix(t) / 3600;
    assert Unix(t) == 3600 * q + Unix(t) % 3600;
    assert t == HOUR * q + (SECOND * (Unix(t) % 3600) + Nanosecond(t));
  }

  // ------------------------------------------------------- what the verdict means

  function Sample(from: int, i: nat): int { from + i * HOUR }

  /** Sample `i` has a whole-hour offset, the same as the first. */
  predicate GoodSample(off: int -> int, from: int, i: nat) {
    off(Unix(Sample(from, i))) % 3600 == 0 && off(Unix(Sample(from, i))) == off(Unix(from))
  }

  /** Sample `j` is the first in the window that is not good. */
  ghost predicate FirstBad(off: int -> int, from: int, to: int, j: nat) {
    Sample(from, j) <= to && !GoodSample(off, from, j) && forall h: nat | h < j :: GoodSample(off, from, h)
  }

  ghost predicate AllGood(off: int -> int, from: int, to: int) {
    forall j: nat | Sample(from, j) <= to :: GoodSample(off, from, j)
  }

  function ScanFrom(off: int -> int, from: int, to: int, i: nat): Reason {
    Scan(off, Sample(from, i), to, if i == 0 then None else Some(off(Unix(from))))
  }

  /** The scan answers for the first sample that is not good, and only if there is one in the window. */
  lemma {:induction false} ScanFinds(off: int -> int, from: int, to: int, i: nat)
    requires forall j: nat | j < i :: GoodSample(off, from, j)
    ensures ScanFrom(off, from, to, i) == Reusable <==> AllGood(off, from, to)
    ensures ScanFrom(off, from, to, i) == Offset <==>
              exists j: nat :: FirstBad(off, from, to, j) && off(Unix(Sample(from, j))) % 3600 != 0
    ensures ScanFrom(off, from, to, i) != Unaligned
    decreases (to - Sample(from, i))
  {
    var t := Sample(from, i);
    if t > to {
      forall j: nat | Sample(from, j) <= to ensures GoodSample(off, from, j) { SampleOrder(from, j, i); }
    } else if GoodSample(off, from, i) {
      assert Sample(from, i + 1) == t + HOUR;
      assert HOUR > 0;
      ScanFinds(off, from, to, i + 1);
    } else {
      assert FirstBad(off, from, to, i);
      forall j: nat | FirstBad(off, from, to, j) ensures j == i {}
    }
  }

  lemma SampleOrder(from: int, i: nat, j: nat)
    requires Sample(from, i) < Sample(from, j)
    ensures i < j
  {
  }

  /** The verdict in one sentence each: alignment of the ends first, then the first sample that is not a
      whole hour or differs from the sample at the start. */
  lemma VerdictMeaning(zone: Zone, from: int, to: int)
    ensures Verdict(zone, from, to) == Unaligned <==> !(HourAligned(from) && HourAligned(to))
    ensures Verdict(zone, from, to) == Reusable <==>
              HourAligned(from) && HourAligned(to) && (zone.Local? ==> AllGood(zone.off, from, to))
    ensures Verdict(zone, from, to) == Offset <==>
              HourAligned(from) && HourAligned(to) && zone.Local? &&
              exists j: nat :: FirstBad(zone.off, from, to, j) && zone.off(Unix(Sample(from, j))) % 3600 != 0
  {
    if zone.Local? { ScanFinds(zone.off, from, to, 0); }
  }

  /** No offset lasts less than an hour: seen from inside any stretch of an hour, at most one change is in sight. */
  ghost predicate SegmentsLastAnHour(off: int -> int) {
    forall x, y, z | x <= y <= z <= x + 3600 :: off(y) == off(x) || off(y) == off(z)
  }

  /** Hourly sampling is sound: a reusable window has one whole-hour offset at every instant, not only at the samples. */
  lemma SamplingSound(zone: Zone, from: int, to: int, t: int)
    requires zone.Local? && SegmentsLastAnHour(zone.off)
    requires Verdict(zone, from, to) == Reusable && from <= t <= to
    ensures zone.off(Unix(t)) == zone.off(Unix(from)) && zone.off(Unix(t)) % 3600 == 0
  {
    VerdictMeaning(zone, from, to);
    AlignedIsMultiple(from);
    AlignedIsMultiple(to);
    var i := (t - from) / HOUR;
    var a := Sample(from, i);
    assert a <= t < a + HOUR;
    assert GoodSample(zone.off, from, i);
    if a < t {
      NextSampleInside(from, to, i, t);
      assert Sample(from, i + 1) == a + HOUR;
      assert GoodSample(zone.off, from, i + 1);
      HourLater(a, t);
    }
  }

  lemma NextSampleInside(from: int, to: int, i: nat, t: int)
    requires from % HOUR == 0 && to % HOUR == 0 && Sample(from, i) < t <= to
    ensures Sample(from, i + 1) <= to
  {
    var p, q := from / HOUR, to / HOUR;
    assert from == HOUR * p && to == HOUR * q;
    assert HOUR * (p + i) < HOUR * q;
    assert p + i < q;
  }

  lemma HourLater(a: int, t: int)
    requires a <= t <= a + HOUR
    ensures Unix(a) <= Unix(t) <= Unix(a + HOUR) == Unix(a) + 3600
  {
  }

  /** The hour is needed: half an hour at another offset between two samples goes unnoticed. */
  lemma ShortSegmentMissed()
    ensures var off := (s: int) => if 600 <= s < 2400 then 3600 else 0;
      && Verdict(Local(off), 0, HOUR) == Reusable
      && off(Unix(1000 * SECOND)) != off(Unix(0))
      && !SegmentsLastAnHour(off)
  {
    var off := (s: int) => if 600 <= s < 2400 then 3600 else 0;
    assert Unix(HOUR) == 3600 && Unix(0) == 0 && Unix(1000 * SECOND) == 1000;
    assert Scan(off, 2 * HOUR, HOUR, Some(0)) == Reusable;
    assert Scan(off, HOUR, HOUR, Some(0)) == Reusable;
    assert off(1000) != off(0) && off(1000) != off(3600);
  }
}

/** The rollup table refines the raw rows: regrouping hourly totals into a zone's local buckets gives what grouping
    the rows one by one gives. */
module Rollup {
  import opened Options
  import opened ZoneCube

  /** A usage row: when, its cost, its time to first token. */
  datatype Row = Row(at: int, cost: int, ttft: nat)

  /** The aggregate columns: a count, a sum and a maximum. */
  datatype Totals = Totals(count: nat, cost: int, ttftMax: nat)

  const ZERO: Totals := Totals(0, 0, 0)

  datatype Unit = ByHour | ByDay

  /** A rollup row: an hour, counted from the epoch, and its totals. */
  datatype Entry = Entry(hour: int, totals: Totals)

  function Max(a: nat, b: nat): nat { if a <= b then b else a }

  function Add(a: Totals, b: Totals): Totals {
    Totals(a.count + b.count, a.cost + b.cost, Max(a.ttftMax, b.ttftMax))
  }

  function Single(r: Row): Totals { Totals(1, r.cost, r.ttft) }

  function HourOf(t: int): int { t / HOUR }

  /** One row added to the rollup table. */
  function Insert(cube: seq<Entry>, r: Row): seq<Entry> {
    if cube == [] then [Entry(HourOf(r.at), Single(r))]
    else if cube[0].hour == HourOf(r.at) then [cube[0].(totals := Add(cube[0].totals, Single(r)))] + cube[1..]
    else [cube[0]] + Insert(cube[1..], r)
  }

  function Build(rows: seq<Row>): seq<Entry> {
    if rows == [] then [] else Insert(Build(rows[..|rows| - 1]), rows[|rows| - 1])
  }

  /** Each hour has one row. */
  ghost predicate OnePerHour(cube: seq<Entry>) {
    forall i, j | 0 <= i < j < |cube| :: cube[i].hour != cube[j].hour
  }

  // ------------------------------------------------------- local buckets

  function OffsetAt(zone: Zone, t: int): int { if zone.Utc? then 0 else zone.off(Unix(t)) }

  /** The local wall clock at an instant. */
  function Wall(zone: Zone, t: int): int { t + OffsetAt(zone, t) * SECOND }

  function Width(unit: Unit): int { if unit.ByHour? then HOUR else DAY }

  function Trunc(w: int, unit: Unit): int { w - w % Width(unit) }

  /** `date_trunc(unit, bucket_time AT TIME ZONE zone) AT TIME ZONE zone`; `abs` turns a wall clock back into an instant. */
  function CubeBucket(zone: Zone, abs: int -> int, unit: Unit, t: int): int {
    abs(Trunc(Wall(zone, t), unit))
  }

  /** The raw form: by hour a subtraction, by day as above. */
  function RawBucket(zone: Zone, abs: int -> int, unit: Unit, t: int): int {
    if unit.ByHour? then t - Wall(zone, t) % HOUR else abs(Trunc(Wall(zone, t), unit))
  }

  /** No offset lasts less than an hour. */
  ghost predicate Steady(zone: Zone) { zone.Local? ==> SegmentsLastAnHour(zone.off) }

  /** Wall clocks are at most a day off. */
  ghost predicate WithinADay(zone: Zone) { forall t :: -DAY <= Wall(zone, t) - t <= DAY }

  /** A wall clock that shows more than once is read as the last of its instants. */
  ghost predicate ReadsLater(zone: Zone, abs: int -> int) {
    forall t :: (forall s | s > t :: Wall(zone, s) != Wall(zone, t)) ==> abs(Wall(zone, t)) == t
  }

  /** Soon after the window the wall clock is set back so far that it shows the start of one of the window's hours again. */
  ghost predicate ShowsAgain(zone: Zone, from: int, to: int) {
    exists h, s :: from <= h < to && h % HOUR == 0 && to < s <= to + 2 * DAY && Wall(zone, s) == Wall(zone, h)
  }

  /** The wall clock is never set back by more than an hour. */
  ghost predicate SetBackAtMostAnHour(zone: Zone) {
    forall s, t | s < t :: Wall(zone, t) > Wall(zone, s) - HOUR
  }

  function HourStart(t: int): int { HourOf(t) * HOUR }

  /** Inside a reusable window the offset is one and the same, in whole hours. */
  lemma OneOffset(zone: Zone, from: int, to: int, t: int)
    requires Steady(zone) && Verdict(zone, from, to) == Reusable && from <= t <= to
    ensures OffsetAt(zone, t) == OffsetAt(zone, from) && OffsetAt(zone, t) % 3600 == 0
  {
    if zone.Local? { SamplingSound(zone, from, to, t); }
  }

  /** A row is in the window exactly when its hour is. */
  lemma HourInWindow(from: int, to: int, t: int)
    requires from % HOUR == 0 && to % HOUR == 0
    ensures from <= t < to <==> from <= HourStart(t) < to
    ensures from <= t < to ==> HourStart(t) + HOUR <= to
  {
    var p, q, h := from / HOUR, to / HOUR, HourOf(t);
    assert from == HOUR * p && to == HOUR * q;
    assert HOUR * h <= t < HOUR * h + HOUR;
  }

  /** ... and has the same local bucket as its hour: by day always, by hour if the start of the hour is read back as itself. */
  lemma SameBucket(zone: Zone, abs: int -> int, from: int, to: int, unit: Unit, t: int)
    requires Steady(zone) && Verdict(zone, from, to) == Reusable && from <= t < to
    requires unit.ByHour? ==> abs(Wall(zone, HourStart(t))) == HourStart(t)
    ensures RawBucket(zone, abs, unit, t) == CubeBucket(zone, abs, unit, HourStart(t))
  {
    hide Steady, Verdict;
    HourlyBuckets(zone, abs, from, to, t);
  }

  /** The buckets of a row and of its hour in a reusable window, before the wall clock is read back. */
  lemma HourlyBuckets(zone: Zone, abs: int -> int, from: int, to: int, t: int)
    requires Steady(zone) && Verdict(zone, from, to) == Reusable && from <= t < to
    ensures RawBucket(zone, abs, ByHour, t) == HourStart(t)
    ensures CubeBucket(zone, abs, ByHour, HourStart(t)) == abs(Wall(zone, HourStart(t)))
    ensures RawBucket(zone, abs, ByDay, t) == CubeBucket(zone, abs, ByDay, HourStart(t))
  {
    hide Steady, Verdict;
    VerdictMeaning(zone, from, to);
    AlignedIsMultiple(from);
    AlignedIsMultiple(to);
    HourInWindow(from, to, t);
    OneOffset(zone, from, to, t);
    OneOffset(zone, from, to, HourStart(t));
    var shift := OffsetAt(zone, t) / 3600;
    assert Wall(zone, t) == t + shift * HOUR && Wall(zone, HourStart(t)) == HourStart(t) + shift * HOUR;
    WallHour(t, shift);
  }

  lemma WallHour(t: int, shift: int)
    ensures (t + shift * HOUR) % HOUR == t - HourStart(t)
    ensures (HourStart(t) + shift * HOUR) % HOUR == 0
    ensures Trunc(t + shift * HOUR, ByDay) == Trunc(HourStart(t) + shift * HOUR, ByDay)
  {
    var h := HourOf(t);
    var m := h + shift;
    var r := t - HourStart(t);
    assert t == h * HOUR + r && 0 <= r < HOUR;
    assert t + shift * HOUR == m * HOUR + r;
    assert HourStart(t) + shift * HOUR == m * HOUR;
    var d, e := m / 24, m % 24;
    assert m == 24 * d + e;
    DayPart(d, e, r);
    DayPart(d, e, 0);
  }

  lemma DayPart(d: int, e: int, r: int)
    requires 0 <= e < 24 && 0 <= r < HOUR
    ensures ((24 * d + e) * HOUR + r) % HOUR == r
    ensures Trunc((24 * d + e) * HOUR + r, ByDay) == 24 * d * HOUR
  {
    var w := (24 * d + e) * HOUR + r;
    assert w == (24 * HOUR) * d + (e * HOUR + r);
    assert 0 <= e * HOUR + r < 24 * HOUR;
    RemainderIs(w, 24 * HOUR, d, e * HOUR + r);
    RemainderIs(w, HOUR, 24 * d + e, r);
  }

  lemma RemainderIs(w: int, n: int, q: int, r: int)
    requires n > 0 && w == n * q + r && 0 <= r < n
    ensures w % n == r
  {
    var q', r' := w / n, w % n;
    assert n * (q - q') == r' - r;
    SmallMultiple(n, q - q');
  }

  lemma SmallMultiple(n: int, m: int)
    requires n > 0 && -n < n * m < n
    ensures m == 0
  {
    if m > 0 { Times(n, m); } else if m < 0 { Times(n, -m); }
  }

  lemma Times(n: int, m: int)
    requires n > 0 && m >= 1
    ensures n * m >= n
  {
  }

  /** Inside the window no wall clock shows twice, and beyond two days it cannot show again. */
  lemma ShownLater(zone: Zone, from: int, to: int, h: int, s: int)
    requires Steady(zone) && WithinADay(zone) && Verdict(zone, from, to) == Reusable
    requires from <= h < to && h < s && Wall(zone, s) == Wall(zone, h)
    ensures to < s <= to + 2 * DAY
  {
    hide Verdict, Steady;
    assert -DAY <= Wall(zone, s) - s && Wall(zone, h) - h <= DAY;
    if s <= to {
      OneOffset(zone, from, to, h);
      OneOffset(zone, from, to, s);
    }
  }

  /** The last instant in `[s, end]` that shows the wall clock `s` shows. */
  lemma {:induction false} LastShowing(zone: Zone, s: int, end: int) returns (t: int)
    requires s <= end
    ensures s <= t <= end && Wall(zone, t) == Wall(zone, s)
    ensures forall u | t < u <= end :: Wall(zone, u) != Wall(zone, s)
    decreases end - s
  {
    if Wall(zone, end) == Wall(zone, s) { return end; }
    t := LastShowing(zone, s, end - 1);
  }

  /** A wall clock that shows again is read back as a later instant, one that does not as itself. */
  lemma ReadBack(zone: Zone, abs: int -> int, h: int)
    requires WithinADay(zone) && ReadsLater(zone, abs)
    ensures abs(Wall(zone, h)) == h <==> forall s | s > h :: Wall(zone, s) != Wall(zone, h)
  {
    if s :| s > h && Wall(zone, s) == Wall(zone, h) {
      var t := LastShowing(zone, s, s + 2 * DAY);
      forall u | u > t ensures Wall(zone, u) != Wall(zone, t) {
        if u > s + 2 * DAY { assert Wall(zone, u) - u >= -DAY && Wall(zone, s) - s <= DAY; }
      }
      assert abs(Wall(zone, t)) == t;
    }
  }

  /** The hour's start is read back as itself unless it shows again after the window. */
  lemma HourReadBack(zone: Zone, abs: int -> int, from: int, to: int, h: int)
    requires Steady(zone) && WithinADay(zone) && ReadsLater(zone, abs) && Verdict(zone, from, to) == Reusable
    requires from <= h < to && h % HOUR == 0 && !ShowsAgain(zone, from, to)
    ensures abs(Wall(zone, h)) == h
  {
    hide Verdict, Steady, Wall;
    ReadBack(zone, abs, h);
    forall s | s > h ensures Wall(zone, s) != Wall(zone, h) {
      if Wall(zone, s) == Wall(zone, h) { ShownLater(zone, from, to, h, s); }
    }
  }

  /** In a zone that is never set back by more than an hour, no later instant shows the wall clock of a full hour of the window. */
  lemma NotRepeated(zone: Zone, abs: int -> int, from: int, to: int, h: int)
    requires Steady(zone) && ReadsLater(zone, abs) && SetBackAtMostAnHour(zone)
    requires Verdict(zone, from, to) == Reusable && from <= h && h + HOUR <= to
    ensures abs(Wall(zone, h)) == h
  {
    hide Verdict, Steady;
    OneOffset(zone, from, to, h);
    OneOffset(zone, from, to, to);
    forall s | s > h ensures Wall(zone, s) != Wall(zone, h) {
      if s <= to {
        OneOffset(zone, from, to, s);
      } else {
        assert Wall(zone, s) > Wall(zone, to) - HOUR;
      }
    }
  }

  // ------------------------------------------------------- the two ways of grouping

  /** Totals of the rows at instants that satisfy `p`. */
  function RawTotals(rows: seq<Row>, p: int -> bool): Totals {
    if rows == [] then ZERO
    else
      var rest, r := RawTotals(rows[..|rows| - 1], p), rows[|rows| - 1];
      if p(r.at) then Add(rest, Single(r)) else rest
  }

  /** Totals of the rollup rows whose `bucket_time` satisfies `p`. */
  function CubeTotals(cube: seq<Entry>, p: int -> bool): Totals {
    if cube == [] then ZERO
    else
      var rest := CubeTotals(cube[1..], p);
      if p(cube[0].hour * HOUR) then Add(cube[0].totals, rest) else rest
  }

  lemma {:induction false} InsertAdds(cube: seq<Entry>, r: Row, p: int -> bool)
    ensures CubeTotals(Insert(cube, r), p)
         == if p(HourStart(r.at)) then Add(CubeTotals(cube, p), Single(r)) else CubeTotals(cube, p)
  {
    if cube == [] {
      assert Insert(cube, r)[1..] == [];
    } else if cube[0].hour == HourOf(r.at) {
      assert Insert(cube, r)[1..] == cube[1..];
    } else {
      InsertAdds(cube[1..], r, p);
      assert Insert(cube, r)[1..] == Insert(cube[1..], r);
    }
  }

  lemma {:induction false} InsertOnePerHour(cube: seq<Entry>, r: Row)
    requires OnePerHour(cube)
    ensures OnePerHour(Insert(cube, r))
    ensures forall e | e in Insert(cube, r) :: e.hour == HourOf(r.at) || exists i | 0 <= i < |cube| :: cube[i].hour == e.hour
  {
    if cube != [] && cube[0].hour != HourOf(r.at) {
      InsertOnePerHour(cube[1..], r);
      var tail := Insert(cube[1..], r);
      forall e | e in tail && e.hour != HourOf(r.at) ensures exists i | 1 <= i < |cube| :: cube[i].hour == e.hour {
        var i :| 0 <= i < |cube[1..]| && cube[1..][i].hour == e.hour;
        assert cube[i + 1].hour == e.hour;
      }
      forall j | 0 <= j < |tail| ensures tail[j].hour != cube[0].hour { assert tail[j] in tail; }
    }
  }

  /** The rollup answers a question as the rows do if the question cannot tell a row from the start of its hour. */
  lemma {:induction false} RollupAnswers(rows: seq<Row>, p: int -> bool, q: int -> bool)
    requires forall i | 0 <= i < |rows| :: p(rows[i].at) == q(HourStart(rows[i].at))
    ensures CubeTotals(Build(rows), q) == RawTotals(rows, p)
    ensures OnePerHour(Build(rows))
  {
    if rows != [] {
      var rest, r := rows[..|rows| - 1], rows[|rows| - 1];
      RollupAnswers(rest, p, q);
      InsertAdds(Build(rest), r, q);
      InsertOnePerHour(Build(rest), r);
    }
  }

  /** The rows of `[from, to)` in local bucket `key`. */
  function InRawBucket(zone: Zone, abs: int -> int, unit: Unit, from: int, to: int, key: int): int -> bool {
    t => from <= t < to && RawBucket(zone, abs, unit, t) == key
  }

  function InCubeBucket(zone: Zone, abs: int -> int, unit: Unit, from: int, to: int, key: int): int -> bool {
    t => from <= t < to && CubeBucket(zone, abs, unit, t) == key
  }

  /** Regrouping the rollup gives the count, sum and maximum of the raw rows, for every list of rows and every local bucket. */
  ghost predicate GroupsExactly(zone: Zone, abs: int -> int, unit: Unit, from: int, to: int) {
    forall key: int, rows: seq<Row> :: SameTotals(zone, abs, unit, from, to, key, rows)
  }

  predicate SameTotals(zone: Zone, abs: int -> int, unit: Unit, from: int, to: int, key: int, rows: seq<Row>) {
    CubeTotals(Build(rows), InCubeBucket(zone, abs, unit, from, to, key)) == RawTotals(rows, InRawBucket(zone, abs, unit, from, to, key))
  }

  /** The rollup refines the rows wherever rows and hours have the same buckets. */
  lemma BucketsDecide(zone: Zone, abs: int -> int, unit: Unit, from: int, to: int)
    requires from % HOUR == 0 && to % HOUR == 0
    requires forall t | from <= t < to :: RawBucket(zone, abs, unit, t) == CubeBucket(zone, abs, unit, HourStart(t))
    ensures GroupsExactly(zone, abs, unit, from, to)
  {
    forall key: int, rows: seq<Row> ensures SameTotals(zone, abs, unit, from, to, key, rows) {
      hide RawBucket, CubeBucket, CubeTotals, RawTotals, Build;
      var p, q := InRawBucket(zone, abs, unit, from, to, key), InCubeBucket(zone, abs, unit, from, to, key);
      forall i | 0 <= i < |rows| ensures p(rows[i].at) == q(HourStart(rows[i].at)) { HourInWindow(from, to, rows[i].at); }
      RollupAnswers(rows, p, q);
    }
  }

  /** Rollup refines raw by day: in every window whose verdict is reusable. */
  lemma DaysGroupExactly(zone: Zone, abs: int -> int, from: int, to: int)
    requires Steady(zone) && Verdict(zone, from, to) == Reusable
    ensures GroupsExactly(zone, abs, ByDay, from, to)
  {
    hide Steady, Verdict, RawBucket, CubeBucket, GroupsExactly;
    VerdictMeaning(zone, from, to);
    AlignedIsMultiple(from);
    AlignedIsMultiple(to);
    forall t | from <= t < to ensures RawBucket(zone, abs, ByDay, t) == CubeBucket(zone, abs, ByDay, HourStart(t)) {
      SameBucket(zone, abs, from, to, ByDay, t);
    }
    BucketsDecide(zone, abs, ByDay, from, to);
  }

  /** Rollup refines raw by hour: in a window whose verdict is reusable, if and only if the wall clock is not set back after the
      window so far that the start of one of its hours shows again. */
  lemma HoursGroupExactlyIff(zone: Zone, abs: int -> int, from: int, to: int)
    requires Steady(zone) && WithinADay(zone) && ReadsLater(zone, abs) && Verdict(zone, from, to) == Reusable
    ensures GroupsExactly(zone, abs, ByHour, from, to) <==> !ShowsAgain(zone, from, to)
  {
    hide Steady, WithinADay, ReadsLater, Verdict, RawBucket, CubeBucket, GroupsExactly, Wall;
    VerdictMeaning(zone, from, to);
    AlignedIsMultiple(from);
    AlignedIsMultiple(to);
    if ShowsAgain(zone, from, to) {
      var h, s :| from <= h < to && h % HOUR == 0 && to < s <= to + 2 * DAY && Wall(zone, s) == Wall(zone, h);
      ReadBack(zone, abs, h);
      Misplaced(zone, abs, from, to, h);
    } else {
      forall t | from <= t < to ensures RawBucket(zone, abs, ByHour, t) == CubeBucket(zone, abs, ByHour, HourStart(t)) {
        HourInWindow(from, to, t);
        StartOfHour(t);
        HourReadBack(zone, abs, from, to, HourStart(t));
        SameBucket(zone, abs, from, to, ByHour, t);
      }
      BucketsDecide(zone, abs, ByHour, from, to);
    }
  }

  /** ... and so in every zone that is never set back by more than an hour. */
  lemma HoursGroupExactly(zone: Zone, abs: int -> int, from: int, to: int)
    requires Steady(zone) && ReadsLater(zone, abs) && SetBackAtMostAnHour(zone) && Verdict(zone, from, to) == Reusable
    ensures GroupsExactly(zone, abs, ByHour, from, to)
  {
    hide Steady, ReadsLater, SetBackAtMostAnHour, Verdict, RawBucket, CubeBucket, GroupsExactly, Wall;
    VerdictMeaning(zone, from, to);
    AlignedIsMultiple(from);
    AlignedIsMultiple(to);
    forall t | from <= t < to ensures RawBucket(zone, abs, ByHour, t) == CubeBucket(zone, abs, ByHour, HourStart(t)) {
      HourInWindow(from, to, t);
      NotRepeated(zone, abs, from, to, HourStart(t));
      SameBucket(zone, abs, from, to, ByHour, t);
    }
    BucketsDecide(zone, abs, ByHour, from, to);
  }

  lemma StartOfHour(t: int)
    ensures HourStart(t) % HOUR == 0
  {
    RemainderIs(HourStart(t), HOUR, HourOf(t), 0);
  }

  /** A row at the start of an hour that is read back as another instant is missing from its own bucket. */
  lemma Misplaced(zone: Zone, abs: int -> int, from: int, to: int, h: int)
    requires Steady(zone) && Verdict(zone, from, to) == Reusable && from <= h < to && h % HOUR == 0
    requires abs(Wall(zone, h)) != h
    ensures !GroupsExactly(zone, abs, ByHour, from, to)
  {
    hide Steady, Verdict, RawBucket, CubeBucket, Wall, CubeTotals, RawTotals, Build;
    assert HourStart(h) == h by { assert h == HOUR * (h / HOUR); }
    HourlyBuckets(zone, abs, from, to, h);
    var r, p, q := Row(h, 0, 0), InRawBucket(zone, abs, ByHour, from, to, h), InCubeBucket(zone, abs, ByHour, from, to, h);
    OneRow(r, p);
    OneRow(r, q);
    assert !SameTotals(zone, abs, ByHour, from, to, h, [r]);
  }

  /** Rollup refines raw in every window whose verdict is reusable: by day for every zone, by hour exactly when no hour of the window
      shows again after it, and so for every zone that is never set back by more than an hour. */
  lemma RollupRefinesRaw(zone: Zone, abs: int -> int, from: int, to: int)
    requires Steady(zone) && Verdict(zone, from, to) == Reusable
    ensures GroupsExactly(zone, abs, ByDay, from, to)
    ensures WithinADay(zone) && ReadsLater(zone, abs) ==> (GroupsExactly(zone, abs, ByHour, from, to) <==> !ShowsAgain(zone, from, to))
    ensures SetBackAtMostAnHour(zone) && ReadsLater(zone, abs) ==> GroupsExactly(zone, abs, ByHour, from, to)
  {
    hide Steady, WithinADay, ReadsLater, SetBackAtMostAnHour, Verdict, GroupsExactly, ShowsAgain;
    DaysGroupExactly(zone, abs, from, to);
    if WithinADay(zone) && ReadsLater(zone, abs) { HoursGroupExactlyIff(zone, abs, from, to); }
    if SetBackAtMostAnHour(zone) && ReadsLater(zone, abs) { HoursGroupExactly(zone, abs, from, to); }
  }

  // ------------------------------------------------------- what buckets and totals are

  /** A zone with one offset for ever. */
  function FixedZone(seconds: int): Zone { Local((s: int) => seconds) }

  lemma FixedWall(seconds: int, t: int)
    ensures Wall(FixedZone(seconds), t) == t + seconds * SECOND
  {}

  lemma FixedOnce(seconds: int, s: int, t: int)
    requires s != t
    ensures Wall(FixedZone(seconds), s) != Wall(FixedZone(seconds), t)
  {
    hide Wall, FixedZone;
    FixedWall(seconds, s);
    FixedWall(seconds, t);
  }

  lemma FixedRead(seconds: int, abs: int -> int, t: int)
    requires ReadsLater(FixedZone(seconds), abs)
    ensures abs(Wall(FixedZone(seconds), t)) == t
  {
    hide Wall, FixedZone;
    var zone := FixedZone(seconds);
    forall s | s > t ensures Wall(zone, s) != Wall(zone, t) { FixedOnce(seconds, s, t); }
  }

  /** In such a zone a local bucket starts on the local hour or at local midnight, and holds what comes within the hour or the day. */
  lemma BucketIsLocal(seconds: int, abs: int -> int, unit: Unit, t: int)
    requires ReadsLater(FixedZone(seconds), abs)
    ensures var b, width := RawBucket(FixedZone(seconds), abs, unit, t), if unit.ByHour? then 3_600_000_000_000 else 86_400_000_000_000;
            b <= t < b + width && (b + seconds * 1_000_000_000) % width == 0
  {
    hide Wall, FixedZone, ReadsLater;
    FixedWall(seconds, t);
    var w, width := t + seconds * SECOND, Width(unit);
    var b := t - w % width;
    FixedRead(seconds, abs, b);
    FixedWall(seconds, b);
    assert b + seconds * SECOND == w - w % width;
    assert w == width * (w / width) + w % width;
    RemainderIs(b + seconds * SECOND, width, w / width, 0);
  }

  function CountIn(rows: seq<Row>, p: int -> bool): nat {
    if rows == [] then 0 else CountIn(rows[..|rows| - 1], p) + if p(rows[|rows| - 1].at) then 1 else 0
  }

  function CostIn(rows: seq<Row>, p: int -> bool): int {
    if rows == [] then 0 else CostIn(rows[..|rows| - 1], p) + if p(rows[|rows| - 1].at) then rows[|rows| - 1].cost else 0
  }

  /** Raw totals are the number of rows, their summed cost, and the largest of their times. */
  lemma {:induction false} TotalsAre(rows: seq<Row>, p: int -> bool)
    ensures RawTotals(rows, p).count == CountIn(rows, p) && RawTotals(rows, p).cost == CostIn(rows, p)
    ensures forall i | 0 <= i < |rows| && p(rows[i].at) :: rows[i].ttft <= RawTotals(rows, p).ttftMax
    ensures RawTotals(rows, p).ttftMax == 0 || exists i | 0 <= i < |rows| :: p(rows[i].at) && rows[i].ttft == RawTotals(rows, p).ttftMax
  {
    if rows != [] {
      var rest := rows[..|rows| - 1];
      TotalsAre(rest, p);
      assert forall i | 0 <= i < |rest| :: rest[i] == rows[i];
    }
  }

  // ------------------------------------------------------- a zone set back by two hours

  /** Two hours ahead until 10:00 and none after, as at Antarctica's Troll station each autumn. */
  function TwoHoursBack(s: int): int { if s < 36000 then 7200 else 0 }

  function TwoHoursRead(w: int): int { if w >= 10 * HOUR then w else w - 2 * HOUR }

  lemma TwoHoursWall(t: int)
    ensures Wall(Local(TwoHoursBack), t) == if t < 10 * HOUR then t + 2 * HOUR else t
  {}

  lemma TwoHoursReads()
    ensures ReadsLater(Local(TwoHoursBack), TwoHoursRead)
  {
    hide Wall, TwoHoursBack;
    var zone := Local(TwoHoursBack);
    forall t | forall s | s > t :: Wall(zone, s) != Wall(zone, t) ensures TwoHoursRead(Wall(zone, t)) == t {
      TwoHoursWall(t);
      TwoHoursWall(t + 2 * HOUR);
      assert 8 * HOUR <= t < 10 * HOUR ==> Wall(zone, t + 2 * HOUR) == Wall(zone, t);
    }
  }

  lemma TwoHoursVerdict()
    ensures Verdict(Local(TwoHoursBack), 8 * HOUR, 9 * HOUR) == Reusable
  {
    assert Scan(TwoHoursBack, 10 * HOUR, 9 * HOUR, Some(7200)) == Reusable;
    assert Scan(TwoHoursBack, 9 * HOUR, 9 * HOUR, Some(7200)) == Reusable;
    assert Scan(TwoHoursBack, 8 * HOUR, 9 * HOUR, None) == Reusable;
  }

  /** In such a zone the hour from 8:00 is reusable, shows again from 10:00, and is regrouped there: the promise fails. */
  lemma SetBackTwoHours()
    ensures var zone := Local(TwoHoursBack);
            && Steady(zone) && WithinADay(zone) && ReadsLater(zone, TwoHoursRead)
            && Verdict(zone, 8 * HOUR, 9 * HOUR) == Reusable && ShowsAgain(zone, 8 * HOUR, 9 * HOUR)
            && RawBucket(zone, TwoHoursRead, ByHour, 8 * HOUR) == 8 * HOUR
            && CubeBucket(zone, TwoHoursRead, ByHour, 8 * HOUR) == 10 * HOUR
            && !GroupsExactly(zone, TwoHoursRead, ByHour, 8 * HOUR, 9 * HOUR)
  {
    hide Wall, Verdict, ReadsLater, GroupsExactly;
    var zone := Local(TwoHoursBack);
    TwoHoursReads();
    TwoHoursVerdict();
    forall t ensures -DAY <= Wall(zone, t) - t <= DAY { TwoHoursWall(t); }
    TwoHoursWall(8 * HOUR);
    TwoHoursWall(10 * HOUR);
    assert Wall(zone, 10 * HOUR) == Wall(zone, 8 * HOUR);
    HoursGroupExactlyIff(zone, TwoHoursRead, 8 * HOUR, 9 * HOUR);
  }

  function InWindow(from: int, to: int): int -> bool { t => from <= t < to }

  ghost predicate ServesExactly(from: int, to: int) {
    forall rows: seq<Row> :: CubeTotals(Build(rows), InWindow(from, to)) == RawTotals(rows, InWindow(from, to))
  }

  lemma WholeHoursExact(from: int, to: int)
    requires from % HOUR == 0 && to % HOUR == 0
    ensures ServesExactly(from, to)
  {
    var p := InWindow(from, to);
    forall rows: seq<Row> ensures CubeTotals(Build(rows), p) == RawTotals(rows, p) {
      hide CubeTotals, RawTotals, Build;
      forall i | 0 <= i < |rows| ensures p(rows[i].at) == p(HourStart(rows[i].at)) { HourInWindow(from, to, rows[i].at); }
      RollupAnswers(rows, p, p);
    }
  }

  /** Without grouping, the rollup serves a window exactly, for all rows, if and only if both ends are on the hour. */
  lemma UngroupedExactIff(from: int, to: int)
    requires from < to
    ensures ServesExactly(from, to) <==> HourAligned(from) && HourAligned(to)
  {
    hide CubeTotals, RawTotals, Build, HourAligned, HourStart;
    AlignedIsMultiple(from);
    AlignedIsMultiple(to);
    if from % HOUR == 0 && to % HOUR == 0 {
      WholeHoursExact(from, to);
    } else {
      SplitHour(from, to);
      var r := Row(if from % HOUR == 0 then to else from, 0, 0);
      OneRow(r, InWindow(from, to));
      assert CubeTotals(Build([r]), InWindow(from, to)) != RawTotals([r], InWindow(from, to));
    }
  }

  lemma OneRow(r: Row, p: int -> bool)
    ensures CubeTotals(Build([r]), p).count == if p(HourStart(r.at)) then 1 else 0
    ensures RawTotals([r], p).count == if p(r.at) then 1 else 0
  {
    InsertAdds([], r, p);
    assert [r][..0] == [];
    assert Build([]) == [];
    assert CubeTotals([], p) == ZERO && RawTotals([], p) == ZERO;
    assert Build([r]) == Insert([], r);
  }

  lemma SplitHour(from: int, to: int)
    requires from < to && !(from % HOUR == 0 && to % HOUR == 0)
    ensures from % HOUR != 0 ==> HourStart(from) < from
    ensures from % HOUR == 0 ==> from <= HourStart(to) < to
  {
    assert from == HOUR * HourOf(from) + from % HOUR && to == HOUR * HourOf(to) + to % HOUR;
  }
}
