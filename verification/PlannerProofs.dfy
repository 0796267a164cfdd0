/** What the statistics planner promises, for every kind, retention, zone, window and clock. */
module PlannerProofs {
  import opened Ints
  import opened ZoneCube
  import opened Rollup
  import opened StatsPlan

  // ------------------------------------------------------- moving an end to the hour

  /** The first whole second not before `t`. */
  function CeilSec(t: int): int { if Nanosecond(t) != 0 then Unix(t) + 1 else Unix(t) }

  lemma CeilSecBound(t: int)
    ensures t <= CeilSec(t) * SECOND < t + SECOND
  {}

  /** The hour is the next one, except that before 1969-12-31 23:00 division towards zero overshoots by an hour unless the
      second is the first or the second of its hour. */
  lemma CeilHourBound(t: int)
    ensures CeilHour(t) % HOUR == 0
    ensures t <= CeilHour(t) < t + HOUR <==> CeilSec(t) >= -3600 || CeilSec(t) % 3600 <= 1
    ensures HourAligned(t) ==> CeilHour(t) == t
  {
    CeilSecBound(t);
    var s := CeilSec(t);
    if s % 3600 == 0 {
      assert s * SECOND == s / 3600 * HOUR;
    } else {
      CeilSteps(s);
      var q := DivTrunc(s + 3599, 3600);
      assert CeilHour(t) == q * HOUR;
      assert q * HOUR == q * 3600 * SECOND;
    }
  }

  lemma CeilSteps(s: int)
    requires s % 3600 != 0
    ensures s < DivTrunc(s + 3599, 3600) * 3600
    ensures DivTrunc(s + 3599, 3600) * 3600 < s + 3600 <==> s >= -3600 || s % 3600 <= 1
  {
    var h, r := s / 3600, s % 3600;
    assert s == 3600 * h + r;
    if s + 3599 >= 0 {
      assert (s + 3599) / 3600 == h + 1;
    } else {
      var m := -(s + 3599);
      assert m == 3600 * (-h - 1) - (r - 1);
      if r == 1 { assert m / 3600 == -h - 1; } else { assert m / 3600 == -h - 2; }
    }
  }

  /** One second before the last hour of 1969-12-31 began, the end lands more than an hour later. */
  lemma CeilHourOvershoots()
    ensures CeilHour(-3601 * SECOND) == 0
  {}

  /** Shift bounds: from the epoch onward and for at least an hour, the candidate moves each end later by less than an hour,
      is not empty, fits every whole-hour cap the request fits, and can fail only by its offsets. */
  lemma ShiftBounds(zone: Zone, from: int, to: int)
    requires from >= 0 && to - from >= HOUR
    ensures from <= CeilHour(from) < from + HOUR && to <= CeilHour(to) < to + HOUR
    ensures CeilHour(from) < CeilHour(to)
    ensures forall cap | cap % HOUR == 0 && to - from <= cap :: CeilHour(to) - CeilHour(from) <= cap
    ensures Verdict(zone, CeilHour(from), CeilHour(to)) != Unaligned
  {
    CeilHourBound(from);
    CeilHourBound(to);
    AlignedIsMultiple(CeilHour(from));
    AlignedIsMultiple(CeilHour(to));
    assert CeilSec(from) >= 0 && CeilSec(to) >= 0;
    VerdictMeaning(zone, CeilHour(from), CeilHour(to));
    forall cap | cap % HOUR == 0 && to - from <= cap ensures CeilHour(to) - CeilHour(from) <= cap {
      WholeHours(cap, CeilHour(to) - CeilHour(from));
    }
  }

  lemma WholeHours(cap: int, span: int)
    requires cap % HOUR == 0 && span < cap + HOUR
    requires exists a, b :: a % HOUR == 0 && b % HOUR == 0 && span == a - b
    ensures span <= cap
  {
    var a, b :| a % HOUR == 0 && b % HOUR == 0 && span == a - b;
    assert span == HOUR * (a / HOUR - b / HOUR) && cap == HOUR * (cap / HOUR);
  }

  /** A plan's own window, asked for again, is planned the same way, and a cube window is then exact. */
  lemma PlanIsStable(zone: Zone, from: int, to: int)
    ensures var e := AdmitZoned(zone, from, to);
            AdmitZoned(zone, e.from, e.to) == if e.storage.Cube? then e.(reason := Exact) else e
  {}

  /** Each reason if and only if its cause; only a shifted plan moves the window, and from the epoch onward each end moves
      later by less than an hour. */
  lemma RawReason(zone: Zone, from: int, to: int)
    ensures var e, direct, shifted := AdmitZoned(zone, from, to), Verdict(zone, from, to), Verdict(zone, CeilHour(from), CeilHour(to));
            && (e.reason == Exact <==> direct == Reusable)
            && (e.reason == WindowShifted <==> direct != Reusable && to - from >= HOUR && shifted == Reusable)
            && (e.reason == PlanDst <==> direct != Reusable && to - from >= HOUR && shifted == Dst)
            && (e.reason == PlanOffset <==> direct != Reusable && to - from >= HOUR && shifted == Offset)
            && (e.reason == SpanBelowGrid <==> direct != Reusable && to - from < HOUR)
            && (e.storage.Raw? <==> e.reason in {PlanOffset, PlanDst, SpanBelowGrid})
            && (e.reason != WindowShifted ==> e.from == from && e.to == to)
            && (e.reason == WindowShifted && 0 <= from ==> from <= e.from < from + HOUR && to <= e.to < to + HOUR && e.from < e.to)
  {
    hide Verdict, CeilHour;
    CeilHourBound(from);
    CeilHourBound(to);
    AlignedIsMultiple(CeilHour(from));
    AlignedIsMultiple(CeilHour(to));
    VerdictMeaning(zone, CeilHour(from), CeilHour(to));
    if 0 <= from && to - from >= HOUR { ShiftBounds(zone, from, to); }
  }

  // ------------------------------------------------------- retention floors

  /** Any two offsets of one host differ by at most a day. */
  ghost predicate SaneHost(now: Now) {
    forall a: nat, b: nat :: now.hostOffset(a) - now.hostOffset(b) <= 86400
  }

  lemma FloorAntitone(a: nat, b: nat, now: Now)
    requires SaneHost(now) && a <= b
    ensures Floor(b, now) <= Floor(a, now)
  {
    if a < b {
      assert now.hostOffset(a) - now.hostOffset(b) <= 86400;
      assert (now.hostOffset(a) - now.hostOffset(b)) * SECOND <= DAY;
      assert b * DAY >= a * DAY + DAY;
      DayFloor(now.at + (now.hostOffset(0) - now.hostOffset(b)) * SECOND - b * DAY,
               now.at + (now.hostOffset(0) - now.hostOffset(a)) * SECOND - a * DAY);
    }
  }

  /** A floor is the UTC midnight before the instant whose host wall clock is that many days back, and without an offset change the last
      midnight at least the retention back. */
  lemma FloorBounds(days: nat, now: Now, t: int)
    requires t + now.hostOffset(days) * SECOND == now.at + now.hostOffset(0) * SECOND - days * 86400 * SECOND
    ensures Floor(days, now) % DAY == 0 && Floor(days, now) <= t < Floor(days, now) + 86400 * SECOND
    ensures now.hostOffset(days) == now.hostOffset(0) ==> days * DAY <= now.at - Floor(days, now) < days * DAY + DAY
  {
    assert Floor(days, now) == t - t % DAY;
    assert t - t % DAY == DAY * (t / DAY);
    Multiples(t / DAY);
  }

  lemma Multiples(q: int)
    ensures DAY * q % DAY == 0
  {
    var m := DAY * q;
    assert DAY * (q - m / DAY) == m % DAY;
  }

  lemma DayFloor(s: int, t: int)
    requires s <= t
    ensures s - s % DAY <= t - t % DAY
  {
    assert s - s % DAY == DAY * (s / DAY) && t - t % DAY == DAY * (t / DAY);
  }

  /** The effective start is not before the retention floor of any table read whose guard is on. */
  ghost predicate Retained(tables: seq<Table>, ret: Retention, now: Now, from: int) {
    forall t | t in tables && RetentionDays(ret, t) > 0 :: from >= Floor(RetentionDays(ret, t), now)
  }

  lemma {:induction false} CoverageIsLeast(tables: seq<Table>, ret: Retention)
    ensures var d := CoverageDays(tables, ret);
            && (d.None? <==> forall t | t in tables :: RetentionDays(ret, t) <= 0)
            && (d.Some? ==> d.value > 0 && (exists t | t in tables :: RetentionDays(ret, t) == d.value))
            && (d.Some? ==> forall t | t in tables && RetentionDays(ret, t) > 0 :: d.value <= RetentionDays(ret, t))
  {
    if tables != [] {
      var front, last := tables[..|tables| - 1], tables[|tables| - 1];
      CoverageIsLeast(front, ret);
      assert tables == front + [last];
    }
  }

  /** One comparison with the least retention answers for all the tables. */
  lemma CoverageGuard(tables: seq<Table>, ret: Retention, now: Now, from: int)
    requires SaneHost(now)
    ensures var d := CoverageDays(tables, ret);
            (d.Some? && from < Floor(d.value, now)) <==> !Retained(tables, ret, now, from)
  {
    hide Floor, CoverageDays, SaneHost;
    CoverageIsLeast(tables, ret);
    var d := CoverageDays(tables, ret);
    if d.Some? {
      var least :| least in tables && RetentionDays(ret, least) == d.value;
      forall t | t in tables && RetentionDays(ret, t) > 0 ensures Floor(RetentionDays(ret, t), now) <= Floor(d.value, now) {
        FloorAntitone(d.value, RetentionDays(ret, t), now);
      }
    }
  }

  // ------------------------------------------------------- soundness and completeness

  predicate ValidWindow(from: int, to: int) { from != ZERO_TIME && to != ZERO_TIME && from < to }

  /** The requested span fits a cap reported in seconds, 0 meaning none. */
  predicate FitsReported(capSeconds: int, from: int, to: int) { capSeconds == 0 || to - from <= capSeconds * SECOND }

  lemma KindFacts(id: KindId)
    requires KindOf(id).Some?
    ensures var k := KindOf(id).value;
            && k.storages != [] && (k.grouping.GroupingZoned? ==> Cube in k.storages && Raw in k.storages)
            && (forall s | s in k.storages :: 0 <= CapOf(k, s) <= MAX_CUBE_SPAN && CapOf(k, s) % HOUR == 0)
  {}

  lemma CapReported(id: KindId, s: Storage, from: int, to: int)
    requires KindOf(id).Some? && s in KindOf(id).value.storages && from < to
    ensures var cap := CapOf(KindOf(id).value, s);
            FitsReported(cap / SECOND, from, to) <==> !(cap > 0 && Sub(to, from) > cap)
  {
    KindFacts(id);
    var cap := CapOf(KindOf(id).value, s);
    assert cap == HOUR * (cap / HOUR);
    assert cap == SECOND * (cap / SECOND);
  }

  /** Sound, complete and honestly reported: a plan is returned if and only if the kind is known, the window is valid, the
      requested span fits the cap in the capability report of the storage chosen, and the effective start is still retained in
      every table read. */
  lemma PlanIff(id: KindId, ret: Retention, zone: Zone, from: int, to: int, now: Now)
    requires SaneHost(now)
    ensures Admit(id, ret, zone, from, to, now).Plan? <==>
            && KindOf(id).Some? && ValidWindow(from, to)
            && (var k := KindOf(id).value;
                var e := Choose(k, zone, from, to);
                FitsReported(CapOf(k, e.storage) / SECOND, from, to) && Retained(TablesOf(k, e.storage), ret, now, e.from))
    ensures KindOf(id).Some? && Admit(id, ret, zone, from, to, now).Plan? ==>
            Admit(id, ret, zone, from, to, now).exec == Choose(KindOf(id).value, zone, from, to)
  {
    hide AdmitZoned, Floor, CoverageDays, SaneHost, Retained;
    if KindOf(id).Some? && ValidWindow(from, to) {
      KindFacts(id);
      var k := KindOf(id).value;
      var e := Choose(k, zone, from, to);
      ChosenStorage(id, zone, from, to);
      CapReported(id, e.storage, from, to);
      CoverageGuard(TablesOf(k, e.storage), ret, now, e.from);
    }
  }

  lemma ChosenStorage(id: KindId, zone: Zone, from: int, to: int)
    requires KindOf(id).Some?
    ensures Choose(KindOf(id).value, zone, from, to).storage in KindOf(id).value.storages
  {
    hide Verdict, CeilHour;
    KindFacts(id);
  }

  /** A plan carries the request's zone, and for the kinds without grouping its window; those read the storage of their kind. */
  lemma PlanCarries(id: KindId, ret: Retention, zone: Zone, from: int, to: int, now: Now)
    ensures var r := Admit(id, ret, zone, from, to, now);
            r.Plan? ==>
              && r.exec.zone == zone && !id.UnknownKind?
              && (id in {Trend, EntityTrend, SummaryKind, Days} ==> r.exec == AdmitZoned(zone, from, to))
              && (id in {Top, TtftSketch} ==> r.exec == Exec(Cube, from, to, zone, Exact))
              && (id in {TtftExact, UsageAgg, UsageList, ErrlogList} ==> r.exec == Exec(Raw, from, to, zone, Exact))
  {
    hide Verdict, CeilHour, CoverageDays, Floor;
  }

  /** The longest span a kind may ask of a storage, in hours; 0 for no limit. */
  function SpanHours(id: KindId, s: Storage): int {
    if id.UsageList? || id.ErrlogList? then 0 else if id.TtftExact? then 168
    else if id.UsageAgg? || s.Cube? then 2160 else 192
  }

  /** The effective start is still retained: on the cube in the statistics, on raw rows in the logs the kind reads. A retention of 0 or
      less keeps everything. */
  ghost predicate StillThere(id: KindId, s: Storage, ret: Retention, now: Now, from: int) {
    if s.Cube? then ret.stats > 0 ==> from >= Floor(ret.stats, now)
    else
      && (!id.ErrlogList? && ret.log > 0 ==> from >= Floor(ret.log, now))
      && (id in {Trend, EntityTrend, SummaryKind, Days, ErrlogList} && ret.errLog > 0 ==> from >= Floor(ret.errLog, now))
  }

  lemma StillThereIs(id: KindId, s: Storage, ret: Retention, now: Now, from: int)
    requires KindOf(id).Some? && s in KindOf(id).value.storages
    ensures StillThere(id, s, ret, now, from) <==> Retained(TablesOf(KindOf(id).value, s), ret, now, from)
  {
    hide Floor;
    var tables := TablesOf(KindOf(id).value, s);
    assert forall t | t in tables :: t == tables[0] || t == tables[|tables| - 1];
    assert tables[0] in tables && tables[|tables| - 1] in tables;
  }

  /** A plan is returned if and only if the kind is one of the ten, the window is valid, its span is within the hours for the storage, and
      its effective start is still there. */
  lemma PlanInNumbers(id: KindId, ret: Retention, zone: Zone, from: int, to: int, now: Now)
    requires SaneHost(now)
    ensures Admit(id, ret, zone, from, to, now).Plan? <==>
            && !id.UnknownKind? && from != ZERO_TIME && to != ZERO_TIME && from < to
            && (var e := Choose(KindOf(id).value, zone, from, to);
                && (SpanHours(id, e.storage) == 0 || to - from <= SpanHours(id, e.storage) * 3_600_000_000_000)
                && StillThere(id, e.storage, ret, now, e.from))
  {
    hide AdmitZoned, Floor, CoverageDays, SaneHost, Retained, StillThere, Admit;
    PlanIff(id, ret, zone, from, to, now);
    if !id.UnknownKind? {
      var e := Choose(KindOf(id).value, zone, from, to);
      ChosenStorage(id, zone, from, to);
      StillThereIs(id, e.storage, ret, now, e.from);
      CapHours(id, e.storage);
    }
  }

  lemma CapHours(id: KindId, s: Storage)
    requires KindOf(id).Some? && s in KindOf(id).value.storages
    ensures CapOf(KindOf(id).value, s) / SECOND * SECOND == SpanHours(id, s) * 3_600_000_000_000
    ensures CapOf(KindOf(id).value, s) / SECOND == 0 <==> SpanHours(id, s) == 0
  {}

  /** Why a request is rejected, each reason if and only if: invalid first, then too long, then not retained. A horizon rejection
      names the latest floor of the tables read. */
  lemma RejectedWhy(id: KindId, ret: Retention, zone: Zone, from: int, to: int, now: Now)
    requires SaneHost(now)
    ensures var r := Admit(id, ret, zone, from, to, now);
            && (r.Rejected? && r.err.reject.WindowInvalid? <==> KindOf(id).None? || !ValidWindow(from, to))
            && (KindOf(id).Some? && ValidWindow(from, to) ==>
                  var k := KindOf(id).value;
                  var e := Choose(k, zone, from, to);
                  var fits := FitsReported(CapOf(k, e.storage) / SECOND, from, to);
                  && (r.Rejected? && r.err.reject.WindowTooLong? <==> !fits)
                  && (r.Rejected? && r.err.reject == (if e.storage.Cube? then CubeHorizon else RawHorizon)
                      <==> fits && !Retained(TablesOf(k, e.storage), ret, now, e.from))
                  && (r.Rejected? ==> r.err.storage == e.storage && r.err.effectiveFrom == e.from && r.err.effectiveTo == e.to)
                  && (!fits ==> r.err.limitSeconds == SpanHours(id, e.storage) * 3600)
                  && (r.Rejected? && r.err.reject in {RawHorizon, CubeHorizon} ==>
                        && IsLatestFloor(r.err.cutoff, TablesOf(k, e.storage), ret, now)
                        && r.err.retentionDays >= 0 && r.err.cutoff == Floor(r.err.retentionDays, now)))
  {
    hide AdmitZoned, Floor, CoverageDays, SaneHost, Retained, IsLatestFloor;
    if KindOf(id).Some? && ValidWindow(from, to) {
      var k := KindOf(id).value;
      var e := Choose(k, zone, from, to);
      ChosenStorage(id, zone, from, to);
      CapReported(id, e.storage, from, to);
      CapHours(id, e.storage);
      CoverageGuard(TablesOf(k, e.storage), ret, now, e.from);
      LatestFloor(TablesOf(k, e.storage), ret, now);
    }
  }

  ghost predicate IsLatestFloor(cutoff: int, tables: seq<Table>, ret: Retention, now: Now) {
    && (forall t | t in tables && RetentionDays(ret, t) > 0 :: Floor(RetentionDays(ret, t), now) <= cutoff)
    && (exists t | t in tables && RetentionDays(ret, t) > 0 :: Floor(RetentionDays(ret, t), now) == cutoff)
  }

  lemma LatestFloor(tables: seq<Table>, ret: Retention, now: Now)
    requires SaneHost(now)
    ensures var d := CoverageDays(tables, ret); d.Some? ==> IsLatestFloor(Floor(d.value, now), tables, ret, now)
  {
    hide Floor, CoverageDays, SaneHost;
    CoverageIsLeast(tables, ret);
    var d := CoverageDays(tables, ret);
    if d.Some? {
      forall t | t in tables && RetentionDays(ret, t) > 0 ensures Floor(RetentionDays(ret, t), now) <= Floor(d.value, now) {
        FloorAntitone(d.value, RetentionDays(ret, t), now);
      }
    }
  }

  /** Retention `b` keeps no table longer than `a` and switches no guard off. */
  predicate Shorter(b: Retention, a: Retention) {
    forall t: Table :: RetentionDays(a, t) > 0 ==> 0 < RetentionDays(b, t) <= RetentionDays(a, t)
  }

  /** Shortening retention adds horizon rejections only: otherwise the answer is the same, plan or rejection, and such a
      rejection names the storage and the window that the longer retention chose. */
  lemma ShorterRetention(id: KindId, a: Retention, b: Retention, zone: Zone, from: int, to: int, now: Now)
    requires SaneHost(now) && Shorter(b, a)
    ensures var long, short := Admit(id, a, zone, from, to, now), Admit(id, b, zone, from, to, now);
            || short == long
            || (&& short.Rejected? && short.err.reject in {RawHorizon, CubeHorizon}
                && (long.Plan? ==> long.exec.storage == short.err.storage
                                   && long.exec.from == short.err.effectiveFrom && long.exec.to == short.err.effectiveTo)
                && (long.Rejected? ==> long.err.reject == short.err.reject && long.err.storage == short.err.storage
                                       && long.err.effectiveFrom == short.err.effectiveFrom
                                       && long.err.effectiveTo == short.err.effectiveTo))
  {
    hide AdmitZoned, Floor, CoverageDays, SaneHost, Retained, Shorter;
    if KindOf(id).Some? && ValidWindow(from, to) {
      KindFacts(id);
      var k := KindOf(id).value;
      var e := Choose(k, zone, from, to);
      CoverageGuard(TablesOf(k, e.storage), a, now, e.from);
      CoverageGuard(TablesOf(k, e.storage), b, now, e.from);
      ShorterRetained(TablesOf(k, e.storage), a, b, now, e.from);
    }
  }

  lemma ShorterRetained(tables: seq<Table>, a: Retention, b: Retention, now: Now, from: int)
    requires SaneHost(now) && Shorter(b, a)
    ensures Retained(tables, b, now, from) ==> Retained(tables, a, now, from)
  {
    hide Floor, SaneHost;
    forall t | t in tables && RetentionDays(a, t) > 0
      ensures Floor(RetentionDays(b, t), now) >= Floor(RetentionDays(a, t), now)
    {
      FloorAntitone(RetentionDays(b, t), RetentionDays(a, t), now);
    }
  }

  // ------------------------------------------------------- relative windows and rollups

  /** A relative window ends on the hour, and starts on the hour if and only if its duration is a whole number of hours. */
  lemma DurationWindow(d: int, now: int)
    ensures var (from, to) := WindowFromDuration(d, now);
            && to - from == d && HourAligned(to) && (HourAligned(from) <==> d % HOUR == 0)
            && (now >= 0 ==> now <= to < now + HOUR)
  {
    hide CeilHour, HourAligned;
    CeilHourBound(now);
    AlignedIsMultiple(CeilHour(now));
    AlignedIsMultiple(CeilHour(now) - d);
    HoursBack(CeilHour(now), d);
  }

  lemma HoursBack(to: int, d: int)
    requires to % HOUR == 0
    ensures (to - d) % HOUR == 0 <==> d % HOUR == 0
  {
    var a, b := to / HOUR, d / HOUR;
    assert to == HOUR * a && d == HOUR * b + d % HOUR;
    if d % HOUR == 0 {
      assert to - d == HOUR * (a - b);
    } else {
      var c := (to - d) / HOUR;
      assert to - d == HOUR * c + (to - d) % HOUR;
      assert (to - d) % HOUR + d % HOUR == HOUR * (a - b - c);
    }
  }

  /** Planned on the cube, a zoned query by day gives the totals its raw rows give, in every local bucket of the window read; by hour it
      does if and only if no hour of that window shows again after it, and so in every zone that is never set back by more than an
      hour. */
  lemma CubePlanRefinesRaw(id: KindId, ret: Retention, zone: Zone, from: int, to: int, now: Now, abs: int -> int)
    requires KindOf(id).Some? && KindOf(id).value.grouping.GroupingZoned? && Steady(zone)
    ensures var r := Admit(id, ret, zone, from, to, now);
            r.Plan? && r.exec.storage.Cube? ==>
              && r.exec.zone == zone && GroupsExactly(r.exec.zone, abs, ByDay, r.exec.from, r.exec.to)
              && (WithinADay(zone) && ReadsLater(zone, abs) ==>
                    (GroupsExactly(r.exec.zone, abs, ByHour, r.exec.from, r.exec.to) <==> !ShowsAgain(zone, r.exec.from, r.exec.to)))
              && (SetBackAtMostAnHour(zone) && ReadsLater(zone, abs) ==> GroupsExactly(r.exec.zone, abs, ByHour, r.exec.from, r.exec.to))
  {
    hide GroupsExactly, ShowsAgain, WithinADay, ReadsLater, SetBackAtMostAnHour, Steady, Verdict, CeilHour, CoverageDays, Floor;
    var r := Admit(id, ret, zone, from, to, now);
    if r.Plan? && r.exec.storage.Cube? {
      assert r.exec == AdmitZoned(zone, from, to);
      RollupRefinesRaw(zone, abs, r.exec.from, r.exec.to);
    }
  }

  /** Kinds without grouping read the cube over the window as asked: that gives what the rows give, whatever they are, if and
      only if both ends of the request are on the hour. */
  lemma UngroupedCubePlan(id: KindId, ret: Retention, zone: Zone, from: int, to: int, now: Now)
    requires KindOf(id).Some? && KindOf(id).value.grouping.GroupingNone?
    ensures var r := Admit(id, ret, zone, from, to, now);
            r.Plan? && r.exec.storage.Cube? ==>
              (ServesExactly(r.exec.from, r.exec.to) <==> HourAligned(from) && HourAligned(to))
  {
    hide ServesExactly, HourAligned, CoverageDays, Floor;
    if Admit(id, ret, zone, from, to, now).Plan? { UngroupedExactIff(from, to); }
  }
}
