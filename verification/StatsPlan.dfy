/** The statistics window planner: which storage serves a window, whether the window is affordable and whether its data
    still exists. */
module StatsPlan {
  import opened Ints
  import opened Options
  import opened ZoneCube

  datatype Grouping = GroupingNone | GroupingZoned
  datatype Storage = Cube | Raw
  datatype PlanReason = Exact | WindowShifted | PlanOffset | PlanDst | SpanBelowGrid
  datatype Reject = WindowInvalid | WindowTooLong | RawHorizon | CubeHorizon
  datatype Table = UsageLogs | ErrLogs | UsageStats

  datatype KindId =
    | Trend | EntityTrend | SummaryKind | Days | Top | TtftSketch | TtftExact | UsageAgg | UsageList | ErrlogList
    | UnknownKind(name: string)

  /** The deployed retention days; 0 or less switches a table's guard off. */
  datatype Retention = Retention(log: int, errLog: int, stats: int)

  /** A kind's row of the matrix: per storage, a cost cap (0 for none) and the tables read. */
  datatype Kind = Kind(grouping: Grouping, storages: seq<Storage>, costCap: map<Storage, int>, tables: map<Storage, seq<Table>>)

  const MAX_CUBE_SPAN: int := 90 * 24 * HOUR
  const MAX_GROUPED_RAW_SPAN: int := 8 * 24 * HOUR
  const MAX_EXACT_TTFT_SPAN: int := 168 * HOUR
  const MAX_DURATION: int := MAX_INT64
  const MIN_DURATION: int := -MAX_INT64 - 1
  /** The zero time, 1 January of year 1. */
  const ZERO_TIME: int := -62135596800 * SECOND

  function RetentionDays(r: Retention, t: Table): int {
    match t
    case UsageLogs => r.log
    case ErrLogs => r.errLog
    case UsageStats => r.stats
  }

  const ZONED: Kind := Kind(GroupingZoned, [Cube, Raw],
                            map[Cube := MAX_CUBE_SPAN, Raw := MAX_GROUPED_RAW_SPAN],
                            map[Cube := [UsageStats], Raw := [UsageLogs, ErrLogs]])

  function Fixed(s: Storage, cap: int, table: Table): Kind {
    Kind(GroupingNone, [s], map[s := cap], map[s := [table]])
  }

  function KindOf(id: KindId): (k: Option<Kind>)
    ensures k.Some? ==> k.value.storages != []
  {
    match id
    case Trend => Some(ZONED)
    case EntityTrend => Some(ZONED)
    case SummaryKind => Some(ZONED)
    case Days => Some(ZONED)
    case Top => Some(Fixed(Cube, MAX_CUBE_SPAN, UsageStats))
    case TtftSketch => Some(Fixed(Cube, MAX_CUBE_SPAN, UsageStats))
    case TtftExact => Some(Fixed(Raw, MAX_EXACT_TTFT_SPAN, UsageLogs))
    case UsageAgg => Some(Fixed(Raw, MAX_CUBE_SPAN, UsageLogs))
    case UsageList => Some(Fixed(Raw, 0, UsageLogs))
    case ErrlogList => Some(Fixed(Raw, 0, ErrLogs))
    case UnknownKind(_) => None
  }

  datatype Exec = Exec(storage: Storage, from: int, to: int, zone: Zone, reason: PlanReason)

  datatype WindowError = WindowError(reject: Reject, storage: Storage, limitSeconds: int, cutoff: int, retentionDays: int,
                                     effectiveFrom: int, effectiveTo: int)

  datatype Result = Plan(exec: Exec) | Rejected(err: WindowError)

  /** A clock reading; `hostOffset(d)` is the offset, in seconds, of the wall clock `d` days back in the host's own zone. */
  datatype Now = Now(at: int, hostOffset: nat -> int)

  /** `to.Sub(from)`, saturating. */
  function Sub(to: int, from: int): int {
    if to - from > MAX_DURATION then MAX_DURATION else if to - from < MIN_DURATION then MIN_DURATION else to - from
  }

  function CeilHour(t: int): int {
    var secs := if Nanosecond(t) != 0 then Unix(t) + 1 else Unix(t);
    if secs % 3600 == 0 then secs * SECOND else DivTrunc(secs + 3599, 3600) * 3600 * SECOND
  }

  function RawPlanReason(r: Reason): PlanReason { if r == Dst then PlanDst else PlanOffset }

  function AdmitZoned(zone: Zone, from: int, to: int): Exec {
    if Verdict(zone, from, to) == Reusable then Exec(Cube, from, to, zone, Exact)
    else if Sub(to, from) >= HOUR then
      var r := Verdict(zone, CeilHour(from), CeilHour(to));
      if r == Reusable then Exec(Cube, CeilHour(from), CeilHour(to), zone, WindowShifted)
      else Exec(Raw, from, to, zone, RawPlanReason(r))
    else Exec(Raw, from, to, zone, SpanBelowGrid)
  }

  function Choose(k: Kind, zone: Zone, from: int, to: int): Exec
    requires k.storages != []
  {
    if k.grouping.GroupingZoned? then AdmitZoned(zone, from, to) else Exec(k.storages[0], from, to, zone, Exact)
  }

  /** `now.AddDate(0, 0, -days).UTC().Truncate(24h)`: the wall clock moves back by whole days, then the day is cut off. */
  function Floor(days: nat, now: Now): int {
    var t := now.at + (now.hostOffset(0) - now.hostOffset(days)) * SECOND - days * DAY;
    t - t % DAY
  }

  /** The least positive retention among the tables, if any is positive. */
  function CoverageDays(tables: seq<Table>, ret: Retention): Option<nat> {
    if tables == [] then None
    else
      var rest := CoverageDays(tables[..|tables| - 1], ret);
      var d := RetentionDays(ret, tables[|tables| - 1]);
      if d <= 0 then rest else if rest.None? || d < rest.value then Some(d) else rest
  }

  method ComputeCoverageDays(tables: seq<Table>, ret: Retention) returns (days: int, ok: bool)
    ensures ok <==> exists t | t in tables :: RetentionDays(ret, t) > 0
    ensures ok ==> days > 0 && (exists t | t in tables :: RetentionDays(ret, t) == days)
    ensures ok ==> forall t | t in tables && RetentionDays(ret, t) > 0 :: days <= RetentionDays(ret, t)
    ensures !ok ==> days == 0
    ensures CoverageDays(tables, ret) == if ok then Some(days) else None
  {
    days, ok := 0, false;
    for i := 0 to |tables|
      invariant ok <==> exists t | t in tables[..i] :: RetentionDays(ret, t) > 0
      invariant ok ==> days > 0 && (exists t | t in tables[..i] :: RetentionDays(ret, t) == days)
      invariant ok ==> forall t | t in tables[..i] && RetentionDays(ret, t) > 0 :: days <= RetentionDays(ret, t)
      invariant !ok ==> days == 0
      invariant CoverageDays(tables[..i], ret) == if ok then Some(days) else None
    {
      assert tables[..i + 1] == tables[..i] + [tables[i]];
      assert tables[..i + 1][..i] == tables[..i];
      var d := RetentionDays(ret, tables[i]);
      if d <= 0 { continue; }
      if !ok || d < days {
        days, ok := d, true;
      }
    }
    assert tables[..|tables|] == tables;
  }

  function TablesOf(k: Kind, s: Storage): seq<Table> { if s in k.tables then k.tables[s] else [] }

  function CapOf(k: Kind, s: Storage): int { if s in k.costCap then k.costCap[s] else 0 }

  function Admit(id: KindId, ret: Retention, zone: Zone, from: int, to: int, now: Now): Result {
    var k := KindOf(id);
    if k.None? then Rejected(WindowError(WindowInvalid, Cube, 0, ZERO_TIME, 0, ZERO_TIME, ZERO_TIME))
    else if from == ZERO_TIME || to == ZERO_TIME || Sub(to, from) <= 0 then
      Rejected(WindowError(WindowInvalid, Cube, 0, ZERO_TIME, 0, from, to))
    else
      var exec := Choose(k.value, zone, from, to);
      var cap := CapOf(k.value, exec.storage);
      if cap > 0 && Sub(to, from) > cap then
        Rejected(WindowError(WindowTooLong, exec.storage, cap / SECOND, ZERO_TIME, 0, exec.from, exec.to))
      else
        var days := CoverageDays(TablesOf(k.value, exec.storage), ret);
        if days.Some? && exec.from < Floor(days.value, now) then
          Rejected(WindowError(if exec.storage.Cube? then CubeHorizon else RawHorizon, exec.storage, 0,
                               Floor(days.value, now), days.value, exec.from, exec.to))
        else Plan(exec)
  }

  function WindowFromDuration(d: int, now: int): (w: (int, int))
  {
    (CeilHour(now) - d, CeilHour(now))
  }

  // ------------------------------------------------------- the capability report

  datatype Capability = Capability(grouping: Grouping, storages: seq<Storage>, costCapSeconds: map<Storage, int>, coverageDays: map<Storage, int>)

  /** A report is honest if, for each storage of the kind, its cap and its days are the ones that admission compares with. */
  ghost predicate Reports(c: Capability, k: Kind, ret: Retention) {
    && c.grouping == k.grouping && c.storages == k.storages
    && (forall s | s in k.storages :: s in c.costCapSeconds && c.costCapSeconds[s] == CapOf(k, s) / SECOND)
    && (forall s | s in k.storages :: s in c.coverageDays && c.coverageDays[s] == DaysOrZero(k, s, ret))
  }

  function DaysOrZero(k: Kind, s: Storage, ret: Retention): int {
    var d := CoverageDays(TablesOf(k, s), ret);
    if d.Some? then d.value else 0
  }

  method KindCapability(k: Kind, ret: Retention) returns (c: Capability)
    ensures Reports(c, k, ret)
  {
    var caps: map<Storage, int>, days: map<Storage, int> := map[], map[];
    for i := 0 to |k.storages|
      invariant forall s | s in k.storages[..i] :: s in caps && caps[s] == CapOf(k, s) / SECOND
      invariant forall s | s in k.storages[..i] :: s in days && days[s] == DaysOrZero(k, s, ret)
    {
      var s := k.storages[i];
      assert k.storages[..i + 1] == k.storages[..i] + [s];
      caps := caps[s := CapOf(k, s) / SECOND];
      var d, _ := ComputeCoverageDays(TablesOf(k, s), ret);
      days := days[s := d];
    }
    assert k.storages[..|k.storages|] == k.storages;
    c := Capability(k.grouping, k.storages, caps, days);
  }

  const KIND_IDS: seq<KindId> :=
    [Trend, EntityTrend, SummaryKind, Days, Top, TtftSketch, TtftExact, UsageAgg, UsageList, ErrlogList]

  method StatsCapabilities(ret: Retention) returns (bucketGridSeconds: int, kinds: map<KindId, Capability>)
    ensures bucketGridSeconds * SECOND == HOUR
    ensures forall id: KindId :: id in kinds <==> KindOf(id).Some?
    ensures forall id | id in kinds :: Reports(kinds[id], KindOf(id).value, ret)
  {
    bucketGridSeconds, kinds := HOUR / SECOND, map[];
    for i := 0 to |KIND_IDS|
      invariant forall id: KindId :: id in kinds <==> id in KIND_IDS[..i]
      invariant forall id | id in kinds :: KindOf(id).Some? && Reports(kinds[id], KindOf(id).value, ret)
    {
      var c := KindCapability(KindOf(KIND_IDS[i]).value, ret);
      kinds := kinds[KIND_IDS[i] := c];
    }
    forall id: KindId ensures id in kinds <==> KindOf(id).Some? { ListedKinds(id); }
  }

  lemma ListedKinds(id: KindId)
    ensures id in KIND_IDS <==> KindOf(id).Some?
  {
    assert KIND_IDS[0] == Trend && KIND_IDS[1] == EntityTrend && KIND_IDS[2] == SummaryKind && KIND_IDS[3] == Days && KIND_IDS[4] == Top;
    assert KIND_IDS[5] == TtftSketch && KIND_IDS[6] == TtftExact && KIND_IDS[7] == UsageAgg && KIND_IDS[8] == UsageList && KIND_IDS[9] == ErrlogList;
  }
}
