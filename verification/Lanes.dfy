/** One lane's buckets settling at the same time. The goroutines are a sequence of events, `Begin`
    (a bucket's statement takes its snapshot) and `End` (it commits or rolls back), in any order. */
module Lanes {
  import opened Sums
  import opened Ledger

  datatype Event =
    | Begin(bucket: nat, limit: nat)
    | End(bucket: nat, committed: bool)

  /** `taken` are the statements under way, `over` the buckets that have ended and `reports` what
      the committed ones returned. */
  datatype LaneState = LaneState(db: Db, taken: map<nat, Txn>, over: set<nat>, reports: map<nat, Summary>)

  /** What does not change while a lane runs. */
  datatype Job = Job(lane: Lane, k: nat, now: int)

  predicate CanRun(job: Job, st: LaneState, e: Event) {
    match e
    case Begin(b, _) => b < job.k && b !in st.taken && b !in st.over
    case End(b, committed) => b in st.taken && (committed ==> MarkGuard(st.db, st.taken[b]))
  }

  function RunEvent(job: Job, st: LaneState, e: Event): LaneState
    requires CanRun(job, st, e)
  {
    match e
    case Begin(b, limit) => st.(taken := st.taken[b := Fetch(st.db, job.lane, limit, job.k, b, job.now)])
    case End(b, committed) =>
      var st' := st.(taken := st.taken - {b}, over := st.over + {b});
      if committed
      then st'.(db := Commit(st.db, st.taken[b]), reports := st.reports[b := Report(st.db, st.taken[b])])
      else st'
  }

  predicate Feasible(job: Job, st: LaneState, evs: seq<Event>)
    decreases |evs|, 0
  {
    evs == [] || (Feasible(job, st, evs[..|evs| - 1]) && CanRun(job, RunEvents(job, st, evs[..|evs| - 1]), evs[|evs| - 1]))
  }

  function RunEvents(job: Job, st: LaneState, evs: seq<Event>): LaneState
    requires Feasible(job, st, evs)
    decreases |evs|, 1
  {
    if evs == [] then st
    else RunEvent(job, RunEvents(job, st, evs[..|evs| - 1]), evs[|evs| - 1])
  }

  function Start(db: Db): LaneState { LaneState(db, map[], {}, map[]) }

  /** The orders the buckets were given: a row limit each, and whether the statement committed. */
  datatype Order = Skip | Settle(limit: nat, committed: bool)

  /** One bucket on its own. */
  function SettleAlone(db: Db, job: Job, b: nat, o: Order): Db
    requires job.k > 0
  {
    if o.Settle? && o.committed then Commit(db, Fetch(db, job.lane, o.limit, job.k, b, job.now)) else db
  }

  /** The buckets one after another, from bucket 0. */
  function InSequence(db: Db, job: Job, orders: seq<Order>): Db
    requires job.k > 0
  {
    if orders == [] then db
    else SettleAlone(InSequence(db, job, orders[..|orders| - 1]), job, |orders| - 1, orders[|orders| - 1])
  }

  /** What the settlements of that run report, by bucket. */
  function SequenceReports(db: Db, job: Job, orders: seq<Order>): map<nat, Summary>
    requires job.k > 0
  {
    if orders == [] then map[]
    else
      var b, o := |orders| - 1, orders[|orders| - 1];
      var before, d := SequenceReports(db, job, orders[..b]), InSequence(db, job, orders[..b]);
      if o.Settle? && o.committed then before[b := Report(d, Fetch(d, job.lane, o.limit, job.k, b, job.now))] else before
  }

  // ------------------------------------------------------- what belongs to a bucket

  ghost predicate SameShape(d: Db, e: Db) {
    && d.rows == e.rows && d.balances.Keys == e.balances.Keys && d.credits.Keys == e.credits.Keys
    && (forall c | c in d.credits :: e.credits[c].user == d.credits[c].user)
  }

  /** `d` and `e` hold the same rows, balances and credits for the users of bucket `b`. */
  ghost predicate Agree(d: Db, e: Db, k: nat, b: nat)
    requires k > 0
  {
    && SameShape(d, e)
    && (forall id | id in d.rows && d.rows[id].user % k == b :: (id in d.billed <==> id in e.billed) && (id in d.overdrawn <==> id in e.overdrawn))
    && (forall u | u in d.balances && u % k == b :: d.balances[u] == e.balances[u])
    && (forall c | c in d.credits && d.credits[c].user % k == b :: d.credits[c] == e.credits[c])
  }

  /** The transaction touches only rows and credits of the bucket's users. */
  ghost predicate Within(d: Db, k: nat, b: nat, t: Txn)
    requires k > 0
  {
    && t.batch <= d.rows.Keys && t.takes.Keys <= d.credits.Keys
    && (forall id | id in t.batch :: d.rows[id].user % k == b)
    && (forall c | c in t.takes :: d.credits[c].user % k == b)
  }

  lemma AgreeTransitive(d: Db, e: Db, f: Db, k: nat, b: nat)
    requires k > 0 && Agree(d, e, k, b) && Agree(e, f, k, b)
    ensures Agree(d, f, k, b)
  {
  }

  /** Agreement on every bucket is equality. */
  lemma AgreeEverywhere(d: Db, e: Db, k: nat)
    requires k > 0 && WellFormed(d) && WellFormed(e)
    requires forall b: nat | b < k :: Agree(d, e, k, b)
    ensures d == e
  {
    assert Agree(d, e, k, 0);
    forall id | id in d.rows ensures (id in d.billed <==> id in e.billed) && (id in d.overdrawn <==> id in e.overdrawn) {
      assert Agree(d, e, k, d.rows[id].user % k);
    }
    forall u | u in d.balances ensures d.balances[u] == e.balances[u] {
      assert Agree(d, e, k, u % k);
    }
    forall c | c in d.credits ensures d.credits[c] == e.credits[c] {
      assert Agree(d, e, k, d.credits[c].user % k);
    }
    assert d.billed == e.billed && d.overdrawn == e.overdrawn && d.balances == e.balances && d.credits == e.credits;
  }

  /** A bucket's snapshot depends on nothing outside the bucket. */
  lemma FetchLocal(d: Db, e: Db, lane: Lane, limit: nat, k: nat, b: nat, now: int)
    requires k > 0 && Agree(d, e, k, b)
    ensures Fetch(d, lane, limit, k, b, now) == Fetch(e, lane, limit, k, b, now)
    ensures Within(d, k, b, Fetch(d, lane, limit, k, b, now))
  {
    var ids := EligibleIds(d, lane, k, b, now);
    forall id | id in d.rows ensures Eligible(d, lane, k, b, now, id) == Eligible(e, lane, k, b, now, id) {
      if d.rows[id].user % k == b { TempActiveLocal(d, e, k, b, d.rows[id].user, now); }
    }
    assert ids == EligibleIds(e, lane, k, b, now);
    var batch := Window(ids, limit);
    assert forall id | id in batch :: id in ids;
    if lane.FefoLane? { TakesLocal(d, e, k, b, batch, now); }
  }

  lemma TempActiveLocal(d: Db, e: Db, k: nat, b: nat, u: nat, now: int)
    requires k > 0 && Agree(d, e, k, b) && u % k == b
    ensures TempActive(d, u, now) == TempActive(e, u, now)
    ensures Pool(d, u, now) == Pool(e, u, now)
  {
    forall c | c in d.credits && d.credits[c].user == u ensures d.credits[c] == e.credits[c] {}
  }

  lemma TakesLocal(d: Db, e: Db, k: nat, b: nat, batch: set<nat>, now: int)
    requires k > 0 && Agree(d, e, k, b)
    requires batch <= d.rows.Keys && forall id | id in batch :: d.rows[id].user % k == b
    ensures Takes(d, batch, now) == Takes(e, batch, now)
    ensures forall c | c in Takes(d, batch, now) :: d.credits[c].user % k == b
  {
    hide TakeOf;
    forall c | c in d.credits
      ensures d.credits[c].user % k == b ==> Live(d.credits[c], now) == Live(e.credits[c], now) && TakeOf(d, batch, now, c) == TakeOf(e, batch, now, c)
      ensures d.credits[c].user % k != b ==> TakeOf(d, batch, now, c) <= 0 && TakeOf(e, batch, now, c) <= 0
    {
      if d.credits[c].user % k == b {
        TakeLocal(d, e, k, b, batch, now, c);
      } else {
        NoTakeOutside(d, k, b, batch, now, c);
        NoTakeOutside(e, k, b, batch, now, c);
      }
    }
  }

  lemma TakeLocal(d: Db, e: Db, k: nat, b: nat, batch: set<nat>, now: int, c: nat)
    requires k > 0 && Agree(d, e, k, b) && c in d.credits && d.credits[c].user % k == b
    ensures TakeOf(d, batch, now, c) == TakeOf(e, batch, now, c)
  {
    var u := d.credits[c].user;
    var pool := Pool(d, u, now);
    TempActiveLocal(d, e, k, b, u, now);
    var ahead := F.Ahead(pool, ExpiryOrder(d), c);
    assert ahead == F.Ahead(pool, ExpiryOrder(e), c);
    SumExt(ahead, AmountFn(d), AmountFn(e));
  }

  lemma NoTakeOutside(d: Db, k: nat, b: nat, batch: set<nat>, now: int, c: nat)
    requires k > 0 && batch <= d.rows.Keys && (forall id | id in batch :: d.rows[id].user % k == b)
    requires c in d.credits && d.credits[c].user % k != b
    ensures TakeOf(d, batch, now, c) <= 0
  {
    var u := d.credits[c].user;
    SumZero(batch, CostFn(d.rows, u));
    SumNonNeg(F.Ahead(Pool(d, u, now), ExpiryOrder(d), c), AmountFn(d));
  }

  /** A user's spill depends on nothing outside the user's bucket, and is 0 for other buckets' statements. */
  lemma SpillLocal(d: Db, e: Db, k: nat, b: nat, t: Txn, u: nat)
    requires k > 0 && Agree(d, e, k, b) && Within(d, k, b, t)
    ensures u % k == b ==> Spill(d, t, u) == Spill(e, t, u)
    ensures u % k != b ==> Spill(d, t, u) == 0
    ensures Drawn(d, t) == Drawn(e, t)
  {
    var drawn := Drawn(d, t);
    assert drawn == Drawn(e, t);
    if u % k == b {
      SumExt(drawn, TakeFn(d, t.takes, u), TakeFn(e, t.takes, u));
    } else {
      SumZero(t.batch, CostFn(d.rows, u));
      SumZero(drawn, TakeFn(d, t.takes, u));
    }
  }

  lemma CommitShape(d: Db, t: Txn)
    ensures SameShape(d, Commit(d, t))
  {
  }

  /** A commit's effect on its bucket depends on nothing outside the bucket. */
  lemma CommitLocal(d: Db, e: Db, k: nat, b: nat, t: Txn)
    requires k > 0 && Agree(d, e, k, b) && Within(d, k, b, t)
    ensures Agree(Commit(d, t), Commit(e, t), k, b)
  {
    hide Spill;
    forall u: nat | u % k == b ensures Spill(d, t, u) == Spill(e, t, u) { SpillLocal(d, e, k, b, t, u); }
    SpillLocal(d, e, k, b, t, b);
  }

  /** A commit leaves all other buckets alone. */
  lemma CommitElsewhere(d: Db, k: nat, b: nat, t: Txn, b': nat)
    requires k > 0 && Within(d, k, b, t) && b' != b
    ensures Agree(Commit(d, t), d, k, b')
  {
    hide Spill;
    forall u: nat | u % k == b' ensures Spill(d, t, u) == 0 { SpillLocal(d, d, k, b, t, u); }
  }

  /** What a bucket's statement returns depends on nothing outside the bucket. */
  lemma ReportLocal(d: Db, e: Db, k: nat, b: nat, t: Txn)
    requires k > 0 && Agree(d, e, k, b) && Within(d, k, b, t)
    ensures Report(d, t) == Report(e, t)
  {
    hide Spill;
    assert Within(e, k, b, t);
    forall u: nat ensures Spill(d, t, u) == Spill(e, t, u) {
      SpillLocal(d, e, k, b, t, u);
      SpillLocal(e, d, k, b, t, u);
    }
    forall u | u in d.balances && Spill(d, t, u) != 0 ensures u % k == b { SpillLocal(d, e, k, b, t, u); }
    ReportSame(d, e, t);
  }

  lemma ReportSame(d: Db, e: Db, t: Txn)
    requires SameShape(d, e)
    requires forall u: nat :: Spill(d, t, u) == Spill(e, t, u)
    requires forall u | u in d.balances && Spill(d, t, u) != 0 :: d.balances[u] == e.balances[u]
    ensures Report(d, t) == Report(e, t)
  {
    hide Spill, Commit;
    assert ChargedUsers(d, t) == ChargedUsers(e, t);
    assert GhostRows(d, t) == GhostRows(e, t);
    assert ForcedUsers(d, t) == ForcedUsers(e, t);
    PairsSame(d, e, t, Ascending(ChargedUsers(d, t)));
  }

  lemma PairsSame(d: Db, e: Db, t: Txn, users: seq<nat>)
    requires SameShape(d, e)
    requires forall u | u in users :: Charged(d, t, u) && d.balances[u] == e.balances[u] && Spill(d, t, u) == Spill(e, t, u)
    ensures forall u | u in users :: u in Commit(d, t).balances && u in Commit(e, t).balances
    ensures BalancePairs(users, Commit(d, t)) == BalancePairs(users, Commit(e, t))
  {
    hide Spill;
  }

  // ------------------------------------------------------- every interleaving

  function Limits(evs: seq<Event>): map<nat, nat> {
    if evs == [] then map[]
    else
      var e := evs[|evs| - 1];
      var m := Limits(evs[..|evs| - 1]);
      if e.Begin? then m[e.bucket := e.limit] else m
  }

  function TxnOf(db: Db, job: Job, limits: map<nat, nat>, b: nat): Txn
    requires job.k > 0
  {
    Fetch(db, job.lane, if b in limits then limits[b] else 0, job.k, b, job.now)
  }

  /** Where bucket `b` stands after some events, told from the database the lane started on. */
  ghost predicate Tracks(db: Db, job: Job, st: LaneState, limits: map<nat, nat>, b: nat)
    requires job.k > 0
  {
    var t := TxnOf(db, job, limits, b);
    && (b in st.taken ==> b in limits && b !in st.over && st.taken[b] == t)
    && (b in st.over ==> b in limits)
    && (b in st.reports ==> b in st.over && st.reports[b] == Report(db, t))
    && Agree(st.db, if b in st.reports then Commit(db, t) else db, job.k, b)
  }

  ghost predicate TracksAll(db: Db, job: Job, st: LaneState, limits: map<nat, nat>)
    requires job.k > 0
  {
    && WellFormed(st.db)
    && (forall b | b in st.taken || b in st.over || b in st.reports :: b < job.k)
    && (forall b: nat | b < job.k :: Tracks(db, job, st, limits, b))
  }

  lemma FetchWithin(d: Db, job: Job, limit: nat, b: nat)
    requires job.k > 0
    ensures Within(d, job.k, b, Fetch(d, job.lane, limit, job.k, b, job.now))
  {
    FetchLocal(d, d, job.lane, limit, job.k, b, job.now);
  }

  lemma BeginTracks(db: Db, job: Job, st: LaneState, limits: map<nat, nat>, b: nat, limit: nat)
    requires job.k > 0 && TracksAll(db, job, st, limits) && CanRun(job, st, Begin(b, limit))
    ensures TracksAll(db, job, RunEvent(job, st, Begin(b, limit)), limits[b := limit])
  {
    hide Agree, Fetch, Commit, Report;
    var st', limits' := RunEvent(job, st, Begin(b, limit)), limits[b := limit];
    forall c: nat | c < job.k ensures Tracks(db, job, st', limits', c) {
      assert Tracks(db, job, st, limits, c);
      if c == b {
        FetchLocal(st.db, db, job.lane, limit, job.k, b, job.now);
      }
    }
  }

  /** The guard passes: nobody but the bucket itself can have marked its rows. */
  lemma GuardPasses(db: Db, job: Job, st: LaneState, limits: map<nat, nat>, b: nat)
    requires job.k > 0 && TracksAll(db, job, st, limits) && b in st.taken
    ensures MarkGuard(st.db, st.taken[b]) && Within(st.db, job.k, b, st.taken[b])
  {
    assert Tracks(db, job, st, limits, b);
    var t := TxnOf(db, job, limits, b);
    FetchWithin(db, job, limits[b], b);
    forall id | id in t.batch ensures id in db.rows && id !in db.billed {
      assert id in EligibleIds(db, job.lane, job.k, b, job.now);
    }
  }

  lemma RollbackTracks(db: Db, job: Job, st: LaneState, limits: map<nat, nat>, b: nat)
    requires job.k > 0 && TracksAll(db, job, st, limits) && CanRun(job, st, End(b, false))
    ensures TracksAll(db, job, RunEvent(job, st, End(b, false)), limits)
  {
    hide Agree, Fetch, Commit, Report;
    var st' := RunEvent(job, st, End(b, false));
    forall c: nat | c < job.k ensures Tracks(db, job, st', limits, c) {
      assert Tracks(db, job, st, limits, c);
    }
  }

  lemma CommitTracksElsewhere(db: Db, job: Job, st: LaneState, limits: map<nat, nat>, b: nat, c: nat)
    requires job.k > 0 && Tracks(db, job, st, limits, c) && b in st.taken && c != b
    requires Within(st.db, job.k, b, st.taken[b]) && CanRun(job, st, End(b, true))
    ensures Tracks(db, job, RunEvent(job, st, End(b, true)), limits, c)
  {
    var t := st.taken[b];
    CommitElsewhere(st.db, job.k, b, t, c);
    hide Agree, Fetch, Commit, Report;
    AgreeTransitive(Commit(st.db, t), st.db, if c in st.reports then Commit(db, TxnOf(db, job, limits, c)) else db, job.k, c);
  }

  lemma CommitTracksHere(db: Db, job: Job, st: LaneState, limits: map<nat, nat>, b: nat)
    requires job.k > 0 && Tracks(db, job, st, limits, b) && b in st.taken
    requires Within(st.db, job.k, b, st.taken[b]) && CanRun(job, st, End(b, true))
    ensures Tracks(db, job, RunEvent(job, st, End(b, true)), limits, b)
  {
    CommitLocal(st.db, db, job.k, b, st.taken[b]);
    ReportLocal(st.db, db, job.k, b, st.taken[b]);
  }

  lemma CommitTracks(db: Db, job: Job, st: LaneState, limits: map<nat, nat>, b: nat)
    requires job.k > 0 && TracksAll(db, job, st, limits) && CanRun(job, st, End(b, true))
    ensures TracksAll(db, job, RunEvent(job, st, End(b, true)), limits)
  {
    GuardPasses(db, job, st, limits, b);
    CommitWellFormed(st.db, st.taken[b]);
    hide Tracks, Commit, Report;
    var st' := RunEvent(job, st, End(b, true));
    forall c: nat | c < job.k ensures Tracks(db, job, st', limits, c) {
      if c == b { CommitTracksHere(db, job, st, limits, b); } else { CommitTracksElsewhere(db, job, st, limits, b, c); }
    }
  }

  lemma {:induction false} RunTracks(db: Db, job: Job, evs: seq<Event>)
    requires job.k > 0 && WellFormed(db) && Feasible(job, Start(db), evs)
    ensures TracksAll(db, job, RunEvents(job, Start(db), evs), Limits(evs))
  {
    if evs != [] {
      var rest, e := evs[..|evs| - 1], evs[|evs| - 1];
      RunTracks(db, job, rest);
      var st := RunEvents(job, Start(db), rest);
      match e
      case Begin(b, limit) => BeginTracks(db, job, st, Limits(rest), b, limit);
      case End(b, committed) =>
        if committed { CommitTracks(db, job, st, Limits(rest), b); } else { RollbackTracks(db, job, st, Limits(rest), b); }
    }
  }

  /** The orders a run of events amounts to. */
  function OrdersOf(job: Job, st: LaneState, limits: map<nat, nat>): seq<Order> {
    seq(job.k, b requires 0 <= b => if b in st.over && b in limits then Settle(limits[b], b in st.reports) else Skip)
  }

  lemma {:induction false} SequenceAgrees(db: Db, job: Job, orders: seq<Order>, b: nat)
    requires job.k > 0 && WellFormed(db) && |orders| <= job.k && b < job.k
    ensures WellFormed(InSequence(db, job, orders))
    ensures Agree(InSequence(db, job, orders), if b < |orders| then SettleAlone(db, job, b, orders[b]) else db, job.k, b)
  {
    if orders != [] {
      var i, o := |orders| - 1, orders[|orders| - 1];
      var rest := orders[..i];
      SequenceAgrees(db, job, rest, b);
      SequenceAgrees(db, job, rest, i);
      var d := InSequence(db, job, rest);
      if o.Settle? && o.committed {
        FetchLocal(d, db, job.lane, o.limit, job.k, i, job.now);
        var t := Fetch(d, job.lane, o.limit, job.k, i, job.now);
        CommitWellFormed(d, t);
        hide Agree, Fetch, Commit;
        if b == i {
          CommitLocal(d, db, job.k, i, t);
        } else {
          CommitElsewhere(d, job.k, i, t, b);
          AgreeTransitive(Commit(d, t), d, if b < i then SettleAlone(db, job, b, rest[b]) else db, job.k, b);
        }
      }
    }
  }

  /** A bucket in the sequential run reports what it would report alone. */
  lemma {:induction false} SequenceReportsAlone(db: Db, job: Job, orders: seq<Order>)
    requires job.k > 0 && WellFormed(db) && |orders| <= job.k
    ensures forall b: nat :: b in SequenceReports(db, job, orders) <==> b < |orders| && orders[b].Settle? && orders[b].committed
    ensures forall b: nat | b < |orders| && orders[b].Settle? && orders[b].committed ::
              SequenceReports(db, job, orders)[b] == Report(db, Fetch(db, job.lane, orders[b].limit, job.k, b, job.now))
  {
    hide Report, Fetch, InSequence, Agree;
    if orders != [] {
      var b, o := |orders| - 1, orders[|orders| - 1];
      var d := InSequence(db, job, orders[..b]);
      SequenceReportsAlone(db, job, orders[..b]);
      SequenceAgrees(db, job, orders[..b], b);
      if o.Settle? && o.committed {
        FetchLocal(d, db, job.lane, o.limit, job.k, b, job.now);
        FetchWithin(d, job, o.limit, b);
        ReportLocal(d, db, job.k, b, Fetch(db, job.lane, o.limit, job.k, b, job.now));
      }
    }
  }

  lemma SameLedger(db: Db, job: Job, evs: seq<Event>)
    requires job.k > 0 && WellFormed(db) && Feasible(job, Start(db), evs)
    requires RunEvents(job, Start(db), evs).taken == map[]
    ensures RunEvents(job, Start(db), evs).db
         == InSequence(db, job, OrdersOf(job, RunEvents(job, Start(db), evs), Limits(evs)))
  {
    var st, limits := RunEvents(job, Start(db), evs), Limits(evs);
    var orders := OrdersOf(job, st, limits);
    RunTracks(db, job, evs);
    var d := InSequence(db, job, orders);
    forall b: nat | b < job.k ensures Agree(st.db, d, job.k, b) && WellFormed(d) {
      assert Tracks(db, job, st, limits, b);
      SequenceAgrees(db, job, orders, b);
      assert Agree(st.db, SettleAlone(db, job, b, orders[b]), job.k, b);
    }
    assert Agree(st.db, d, job.k, 0);
    AgreeEverywhere(st.db, d, job.k);
  }

  lemma SameReports(db: Db, job: Job, evs: seq<Event>)
    requires job.k > 0 && WellFormed(db) && Feasible(job, Start(db), evs)
    ensures RunEvents(job, Start(db), evs).reports
         == SequenceReports(db, job, OrdersOf(job, RunEvents(job, Start(db), evs), Limits(evs)))
  {
    hide Agree, Report, Fetch, Commit, RunEvents, Feasible, SequenceReports;
    var st, limits := RunEvents(job, Start(db), evs), Limits(evs);
    RunTracks(db, job, evs);
    var orders := OrdersOf(job, st, limits);
    var reports := SequenceReports(db, job, orders);
    SequenceReportsAlone(db, job, orders);
    forall b: nat ensures b in st.reports <==> b in reports {
      if b < job.k { assert Tracks(db, job, st, limits, b); }
    }
    forall b: nat | b in reports ensures st.reports[b] == reports[b] {
      assert Tracks(db, job, st, limits, b);
    }
    assert st.reports.Keys == reports.Keys;
  }

  // ------------------------------------------------------- the merged summary

  const EMPTY: Summary := Summary(0, 0, 0, 0, 0, [])

  function Merge(a: Summary, b: Summary): Summary {
    Summary(a.batchRows + b.batchRows, a.marked + b.marked, a.debitedUsers + b.debitedUsers,
            a.forcedUsers + b.forcedUsers, a.quarantined + b.quarantined, a.balances + b.balances)
  }

  /** The reports merged in the order in which the buckets finish. */
  function MergeAll(parts: seq<Summary>): Summary {
    if parts == [] then EMPTY else Merge(MergeAll(parts[..|parts| - 1]), parts[|parts| - 1])
  }

  function TotalOf(parts: seq<Summary>, column: Summary -> int): int {
    if parts == [] then 0 else TotalOf(parts[..|parts| - 1], column) + column(parts[|parts| - 1])
  }

  function PairsOf(parts: seq<Summary>): seq<UserBalance> {
    if parts == [] then [] else PairsOf(parts[..|parts| - 1]) + parts[|parts| - 1].balances
  }

  /** Column by column, the merged summary is the sum of the reports, and its pairs are all of theirs. */
  lemma {:induction false} MergedColumns(parts: seq<Summary>)
    ensures MergeAll(parts).batchRows == TotalOf(parts, (s: Summary) => s.batchRows) && MergeAll(parts).marked == TotalOf(parts, (s: Summary) => s.marked)
    ensures MergeAll(parts).debitedUsers == TotalOf(parts, (s: Summary) => s.debitedUsers)
    ensures MergeAll(parts).forcedUsers == TotalOf(parts, (s: Summary) => s.forcedUsers)
    ensures MergeAll(parts).quarantined == TotalOf(parts, (s: Summary) => s.quarantined) && MergeAll(parts).balances == PairsOf(parts)
  {
    if parts != [] { MergedColumns(parts[..|parts| - 1]); }
  }

  predicate SameUpToOrder(a: Summary, b: Summary) {
    && a.(balances := []) == b.(balances := [])
    && multiset(a.balances) == multiset(b.balances)
  }

  lemma {:induction false} MergeMove(q: seq<Summary>, i: nat)
    requires i < |q|
    ensures SameUpToOrder(MergeAll(q), Merge(MergeAll(q[..i] + q[i + 1..]), q[i]))
  {
    var n := |q| - 1;
    if i == n {
      assert q[..i] + q[i + 1..] == q[..n];
    } else {
      MergeMove(q[..n], i);
      var rest := q[..i] + q[i + 1..];
      assert rest[..|rest| - 1] == q[..n][..i] + q[..n][i + 1..];
      assert rest[|rest| - 1] == q[n];
    }
  }

  lemma WithoutOne(p: seq<Summary>, q: seq<Summary>, i: nat)
    requires p != [] && i < |q| && q[i] == p[|p| - 1] && multiset(p) == multiset(q)
    ensures multiset(p[..|p| - 1]) == multiset(q[..i] + q[i + 1..])
  {
    var n := |p| - 1;
    assert p == p[..n] + [p[n]];
    assert q == q[..i] + ([q[i]] + q[i + 1..]);
    calc {
      multiset(p[..n]);
      multiset(p[..n]) + multiset{p[n]} - multiset{p[n]};
      multiset(p) - multiset{p[n]};
      multiset(q[..i]) + (multiset{q[i]} + multiset(q[i + 1..])) - multiset{q[i]};
      multiset(q[..i]) + multiset(q[i + 1..]);
      multiset(q[..i] + q[i + 1..]);
    }
  }

  /** The order in which the buckets report does not show in the merged summary. */
  lemma {:induction false} MergeOrderIrrelevant(p: seq<Summary>, q: seq<Summary>)
    requires multiset(p) == multiset(q)
    ensures SameUpToOrder(MergeAll(p), MergeAll(q))
  {
    assert |multiset(p)| == |p| && |multiset(q)| == |q|;
    if p != [] {
      assert p[|p| - 1] in multiset(q);
      var i :| 0 <= i < |q| && q[i] == p[|p| - 1];
      MergeMove(q, i);
      WithoutOne(p, q, i);
      MergeOrderIrrelevant(p[..|p| - 1], q[..i] + q[i + 1..]);
    }
  }

  // ------------------------------------------------------- parallel and sequential

  predicate Distinct(q: seq<nat>) { forall i, j | 0 <= i < j < |q| :: q[i] != q[j] }

  /** The reports of the listed buckets, as listed. */
  function Gather(reports: map<nat, Summary>, order: seq<nat>): seq<Summary>
    requires forall b | b in order :: b in reports
  {
    seq(|order|, i requires 0 <= i < |order| => reports[order[i]])
  }

  /** The listed buckets in the order of the sequential run. */
  function InBucketOrder(k: nat, told: set<nat>): seq<nat> {
    if k == 0 then [] else InBucketOrder(k - 1, told) + if k - 1 in told then [k - 1] else []
  }

  lemma {:induction false} BucketOrder(k: nat, told: set<nat>)
    ensures forall b: nat :: b in InBucketOrder(k, told) <==> b < k && b in told
    ensures Distinct(InBucketOrder(k, told))
  {
    if k > 0 { BucketOrder(k - 1, told); }
  }

  lemma GatherWithout(reports: map<nat, Summary>, q: seq<nat>, i: nat)
    requires i < |q| && forall b | b in q :: b in reports
    ensures forall b | b in q[..i] + q[i + 1..] :: b in reports
    ensures multiset(Gather(reports, q)) == multiset(Gather(reports, q[..i] + q[i + 1..])) + multiset{reports[q[i]]}
  {
    var g := Gather(reports, q);
    assert g == g[..i] + ([g[i]] + g[i + 1..]);
    assert Gather(reports, q[..i] + q[i + 1..]) == g[..i] + g[i + 1..];
  }

  /** Two listings of the same buckets gather the same reports. */
  lemma {:induction false} GatherSame(reports: map<nat, Summary>, p: seq<nat>, q: seq<nat>)
    requires Distinct(p) && Distinct(q) && Elems(p) == Elems(q) && (forall b | b in p :: b in reports) && (forall b | b in q :: b in reports)
    ensures multiset(Gather(reports, p)) == multiset(Gather(reports, q))
    decreases |p|
  {
    if p == [] {
      assert forall i | 0 <= i < |q| :: q[i] in Elems(q);
    } else {
      var n := |p| - 1;
      assert p[n] in Elems(q);
      var i :| 0 <= i < |q| && q[i] == p[n];
      GatherWithout(reports, p, n);
      GatherWithout(reports, q, i);
      DropOne(p, n);
      DropOne(q, i);
      GatherSame(reports, p[..n] + p[n + 1..], q[..i] + q[i + 1..]);
    }
  }

  lemma DropOne(p: seq<nat>, n: nat)
    requires Distinct(p) && n < |p|
    ensures Distinct(p[..n] + p[n + 1..]) && Elems(p[..n] + p[n + 1..]) == Elems(p) - {p[n]}
  {
    var r := p[..n] + p[n + 1..];
    forall b: nat | b in r ensures b in p && b != p[n] {
      var j :| 0 <= j < |r| && r[j] == b;
      assert r[j] == p[if j < n then j else j + 1];
    }
    forall b: nat | b in p && b != p[n] ensures b in r {
      var j :| 0 <= j < |p| && p[j] == b;
      assert r[if j < n then j else j - 1] == b;
    }
  }

  /** The merged summary of a sequential run whose caller is told the reports of the buckets `told`. */
  function SequenceTotal(db: Db, job: Job, orders: seq<Order>, told: set<nat>): Summary
    requires job.k > 0 && forall b | b in told :: b in SequenceReports(db, job, orders)
  {
    BucketOrder(|orders|, told);
    MergeAll(Gather(SequenceReports(db, job, orders), InBucketOrder(|orders|, told)))
  }

  /** Bucket parallelism is invisible. Whatever the interleaving of a lane's bucket settlements, the ledger, balances and credits
      end as if the buckets had run one after another, every bucket reports what it reports then, and the reports that reach the
      caller, merged in whatever order, make the summary of the sequential run up to the order of the balance pairs. */
  lemma ParallelIsSequential(db: Db, job: Job, evs: seq<Event>)
    requires job.k > 0 && WellFormed(db) && Feasible(job, Start(db), evs)
    requires RunEvents(job, Start(db), evs).taken == map[]
    ensures var st := RunEvents(job, Start(db), evs);
            var orders := OrdersOf(job, st, Limits(evs));
            && st.db == InSequence(db, job, orders)
            && st.reports == SequenceReports(db, job, orders)
            && forall order: seq<nat> | Distinct(order) && (forall b | b in order :: b in st.reports) ::
                 SameUpToOrder(MergeAll(Gather(st.reports, order)), SequenceTotal(db, job, orders, Elems(order)))
  {
    hide RunEvents, Feasible, InSequence, SequenceReports, MergeAll, Gather, SameUpToOrder;
    var st := RunEvents(job, Start(db), evs);
    var orders := OrdersOf(job, st, Limits(evs));
    SameLedger(db, job, evs);
    SameReports(db, job, evs);
    forall order: seq<nat> | Distinct(order) && (forall b | b in order :: b in st.reports)
      ensures SameUpToOrder(MergeAll(Gather(st.reports, order)), SequenceTotal(db, job, orders, Elems(order)))
    {
      MergedAlike(db, job, orders, order);
    }
  }

  lemma MergedAlike(db: Db, job: Job, orders: seq<Order>, order: seq<nat>)
    requires job.k > 0 && Distinct(order) && WellFormed(db) && |orders| <= job.k
    requires forall b | b in order :: b in SequenceReports(db, job, orders)
    ensures SameUpToOrder(MergeAll(Gather(SequenceReports(db, job, orders), order)), SequenceTotal(db, job, orders, Elems(order)))
  {
    hide InSequence, SequenceReports, MergeAll, Gather, SameUpToOrder, InBucketOrder;
    var reports, q := SequenceReports(db, job, orders), InBucketOrder(|orders|, Elems(order));
    BucketOrder(|orders|, Elems(order));
    SequenceReportsAlone(db, job, orders);
    GatherSame(reports, order, q);
    MergeOrderIrrelevant(Gather(reports, order), Gather(reports, q));
  }
}
