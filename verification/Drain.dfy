/** One instance draining the ledger: lanes in order, buckets of a lane in parallel, the sweep of free rows,
    rounds until nothing moves. What the store answers, how long it takes and when the context ends are
    arbitrary. */
module Drain {
  import opened Options
  import opened Sums
  import opened Ledger
  import opened Lanes
  import opened LaneProgress
  import opened BatchControl
  import B = Balances

  /** Rows one sweep looks at. */
  const FETCH_BATCH_LIMIT: nat := 2000

  function ApplyPairs(snap: map<nat, int>, pairs: seq<UserBalance>): map<nat, int> {
    if pairs == [] then snap
    else B.Updated(ApplyPairs(snap, pairs[..|pairs| - 1]), pairs[|pairs| - 1].user, pairs[|pairs| - 1].balance)
  }

  /** Directed updates with the store's own balances leave every user they name in agreement with the store. */
  lemma {:induction false} ApplyTruePairs(snap: map<nat, int>, pairs: seq<UserBalance>, db: Db)
    requires TruePairs(pairs, db)
    ensures ApplyPairs(snap, pairs).Keys == snap.Keys
    ensures forall u | u in snap :: Mentions(pairs, u) ==> u in db.balances && ApplyPairs(snap, pairs)[u] == db.balances[u]
    ensures forall u | u in snap :: !Mentions(pairs, u) ==> ApplyPairs(snap, pairs)[u] == snap[u]
  {
    if pairs != [] {
      var rest, last := pairs[..|pairs| - 1], pairs[|pairs| - 1];
      ApplyTruePairs(snap, rest, db);
      assert pairs == rest + [last] && [last][0].user == last.user;
      forall u: nat ensures Mentions(pairs, u) <==> Mentions(rest, u) || last.user == u {
        JoinMentions(rest, [last], u);
        assert Mentions([last], u) <==> last.user == u;
      }
    }
  }

  /** The snapshot has the store's balance for every user both know. */
  ghost predicate SnapshotAgrees(snap: map<nat, int>, db: Db) {
    forall u | u in snap && u in db.balances :: snap[u] == db.balances[u]
  }

  /** All buckets of a lane have been dealt with. */
  ghost predicate Finished(db: Db, job: Job, failed0: seq<bool>, p: Progress) {
    && Inv(db, job, failed0, p) && PositiveLimits(p.evs)
    && p.waiting == {} && StateOf(db, job, p).taken == map[]
  }

  /** The calls that have come back, with a report or with an error. */
  function Calls(p: Progress): nat { |p.order| + |p.errs| }

  /** A lane under way, in the caller's terms: the ledger, the buckets waiting and open, the total and the flags. */
  ghost predicate Midway(db: Db, job: Job, failed0: seq<bool>, p: Progress, d: Db, waiting: set<nat>, taken: map<nat, Txn>,
                         total: Summary, flags: seq<bool>) {
    && Running(db, job, p) && Inv(db, job, failed0, p) && PositiveLimits(p.evs)
    && p.waiting == waiting && p.failed == flags && Total(p) == total
    && StateOf(db, job, p).db == d && StateOf(db, job, p).taken == taken
  }

  lemma StartMidway(db: Db, job: Job, failed0: seq<bool>, waiting: set<nat>)
    requires job.k > 0 && WellFormed(db) && |failed0| == job.k
    requires forall b: nat :: b in waiting <==> b < job.k && !failed0[b]
    ensures Midway(db, job, failed0, Progress([], waiting, failed0, [], [], false, []), db, waiting, map[], EMPTY, failed0)
    ensures CallsOf(job.lane, []) == []
  {
    hide Inv, Feasible, RunEvents, StateOf, Total;
    Initially(db, job, failed0, waiting);
  }

  lemma BeginMidway(db: Db, job: Job, failed0: seq<bool>, p: Progress, d: Db, waiting: set<nat>, taken: map<nat, Txn>,
                    total: Summary, flags: seq<bool>, b: nat, limit: nat)
    requires Midway(db, job, failed0, p, d, waiting, taken, total, flags) && b in waiting && limit > 0
    ensures Midway(db, job, failed0, DoBegin(p, b, limit), d, waiting - {b},
                   taken[b := Fetch(d, job.lane, limit, job.k, b, job.now)], total, flags)
    ensures b < job.k && b !in taken && DoBegin(p, b, limit).errs == p.errs && Calls(DoBegin(p, b, limit)) == Calls(p)
    ensures DoBegin(p, b, limit).evs == p.evs + [Begin(b, limit)]
  {
    hide Inv, Feasible, RunEvents, RunEvent, StateOf, Total, Fetch;
    BeginInv(db, job, failed0, p, b, limit);
    NotTaken(db, job, failed0, p, b);
  }

  lemma NotTaken(db: Db, job: Job, failed0: seq<bool>, p: Progress, b: nat)
    requires Inv(db, job, failed0, p) && b in p.waiting
    ensures b < job.k && b !in StateOf(db, job, p).taken
  {
    hide Feasible, RunEvents, Counted, Solvent, Told;
  }

  lemma EndMidway(db: Db, job: Job, failed0: seq<bool>, p: Progress, d: Db, waiting: set<nat>, taken: map<nat, Txn>,
                  total: Summary, flags: seq<bool>, b: nat, committed: bool, ok: bool) returns (p': Progress)
    requires Midway(db, job, failed0, p, d, waiting, taken, total, flags) && b in taken && b < |flags| && (ok ==> committed)
    ensures Midway(db, job, failed0, p', if committed then Commit(d, taken[b]) else d, waiting, taken - {b},
                   if ok then Merge(total, Report(d, taken[b])) else total, if ok then flags else flags[b := true])
    ensures Calls(p') == Calls(p) + 1 && p'.evs == p.evs + [End(b, committed)]
    ensures CallsOf(job.lane, p'.errs) == if ok then CallsOf(job.lane, p.errs) else CallsOf(job.lane, p.errs) + [Call(job.lane, b)]
  {
    hide Inv, Feasible, RunEvents, StateOf, Total, Commit, Merge, Report;
    InvReady(db, job, failed0, p, b);
    EndInv(db, job, failed0, p, b, committed, ok);
    p' := DoEnd(p, StateOf(db, job, p), b, committed, ok);
  }

  lemma BelowK(db: Db, job: Job, failed0: seq<bool>, p: Progress, d: Db, waiting: set<nat>, taken: map<nat, Txn>,
               total: Summary, flags: seq<bool>, b: nat)
    requires Midway(db, job, failed0, p, d, waiting, taken, total, flags) && b in taken
    ensures b < job.k
  {
    hide Inv, Feasible, RunEvents, StateOf, Total;
    InvReady(db, job, failed0, p, b);
  }

  lemma FinishMidway(db: Db, job: Job, failed0: seq<bool>, p: Progress, d: Db, total: Summary, flags: seq<bool>)
    requires Midway(db, job, failed0, p, d, {}, map[], total, flags)
    ensures Finished(db, job, failed0, p) && p.failed == flags && total == Total(p) && d == StateOf(db, job, p).db
  {
    hide Inv, Feasible, RunEvents, StateOf, Total;
  }

  /** The ledger and the merged summary are those of settling the buckets one after another, the summary up to the order of its
      balance pairs. */
  ghost predicate LikeSequence(db: Db, job: Job, p: Progress, db': Db, total: Summary)
    requires Running(db, job, p)
  {
    var orders := OrdersOf(job, StateOf(db, job, p), Limits(p.evs));
    && db' == InSequence(db, job, orders)
    && (forall b | b in Elems(p.order) :: b in SequenceReports(db, job, orders))
    && SameUpToOrder(total, SequenceTotal(db, job, orders, Elems(p.order)))
  }

  lemma FinishedLikeSequence(db: Db, job: Job, failed0: seq<bool>, p: Progress)
    requires Finished(db, job, failed0, p)
    ensures Running(db, job, p) && LikeSequence(db, job, p, StateOf(db, job, p).db, Total(p))
  {
    hide RunEvents, Feasible, Placed, Solvent, Told, MergeAll, InSequence, SequenceReports, SequenceTotal, SameUpToOrder;
    var st := StateOf(db, job, p);
    ParallelIsSequential(db, job, p.evs);
    assert p.parts == Gather(st.reports, p.order);
  }

  /** The controller has seen exactly one more observation for each of the `calls`, and its limit is what they make of it. */
  ghost predicate Fed(cur: int, seen: seq<Observation>, cur': int, seen': seq<Observation>, calls: nat) {
    && cur >= 0 && seen <= seen' && |seen'| == |seen| + calls && cur' == AdjustAll(cur, seen'[|seen|..])
  }

  lemma FedNothing(cur: int, seen: seq<Observation>, p: Progress)
    requires cur >= 0 && p.order == [] && p.errs == [] && p.evs == []
    ensures Fed(cur, seen, cur, seen, Calls(p)) && Given(p.evs, cur, seen, seen)
  {
    assert seen[|seen|..] == [];
  }

  lemma FedMore(cur0: int, seen0: seq<Observation>, cur: int, seen: seq<Observation>, calls: nat, cur': int, seen': seq<Observation>)
    requires Fed(cur0, seen0, cur, seen, calls) && |seen'| == |seen| + 1 && seen' == seen + [seen'[|seen|]]
    requires cur >= 0 && cur' == Adjust(cur, seen'[|seen|])
    ensures Fed(cur0, seen0, cur', seen', calls + 1)
  {
    AdjustMore(cur0, seen[|seen0|..], seen'[|seen|]);
    assert seen'[|seen0|..] == seen[|seen0|..] + [seen'[|seen|]];
  }

  /** Every call that began was given the limit the controller stood at, after some of the observations. */
  ghost predicate Given(evs: seq<Event>, cur: int, seen: seq<Observation>, seen': seq<Observation>)
    requires cur >= 0 && seen <= seen'
  {
    forall i | 0 <= i < |evs| && evs[i].Begin? :: exists n | |seen| <= n <= |seen'| :: evs[i].limit == AdjustAll(cur, seen'[|seen|..n])
  }

  lemma GivenBegin(evs: seq<Event>, b: nat, limit: nat, cur: int, seen: seq<Observation>, cur': int, seen': seq<Observation>, calls: nat)
    requires Fed(cur, seen, cur', seen', calls) && Given(evs, cur, seen, seen') && limit == cur'
    ensures Given(evs + [Begin(b, limit)], cur, seen, seen')
  {
    hide AdjustAll;
    var all := evs + [Begin(b, limit)];
    assert seen'[|seen|..|seen'|] == seen'[|seen|..];
    forall i | 0 <= i < |all| && all[i].Begin? ensures exists n | |seen| <= n <= |seen'| :: all[i].limit == AdjustAll(cur, seen'[|seen|..n]) {
      if i < |evs| { assert evs[i] == all[i]; } else { assert all[i].limit == AdjustAll(cur, seen'[|seen|..|seen'|]); }
    }
  }

  lemma GivenEnd(evs: seq<Event>, e: Event, cur: int, seen: seq<Observation>, seen1: seq<Observation>, seen2: seq<Observation>)
    requires cur >= 0 && seen <= seen1 <= seen2 && Given(evs, cur, seen, seen1) && !e.Begin?
    ensures Given(evs + [e], cur, seen, seen2)
  {
    hide AdjustAll;
    var all := evs + [e];
    forall i | 0 <= i < |all| && all[i].Begin? ensures exists n | |seen| <= n <= |seen2| :: all[i].limit == AdjustAll(cur, seen2[|seen|..n]) {
      assert evs[i] == all[i];
      var n :| |seen| <= n <= |seen1| && evs[i].limit == AdjustAll(cur, seen1[|seen|..n]);
      assert seen2[|seen|..n] == seen1[|seen|..n];
    }
  }

  /** A settlement call that returned an error. */
  datatype Call = Call(lane: Lane, bucket: nat)

  function CallsOf(lane: Lane, buckets: seq<nat>): seq<Call> {
    seq(|buckets|, i requires 0 <= i < |buckets| => Call(lane, buckets[i]))
  }

  /** No call failed twice, and a flag is up if and only if the call of its lane and bucket failed. */
  ghost predicate Logged(calls: seq<Call>, failedBalance: seq<bool>, failedFefo: seq<bool>) {
    && |failedBalance| == |failedFefo| == K
    && (forall i, j | 0 <= i < j < |calls| :: calls[i] != calls[j])
    && (forall c | c in calls :: c.bucket < K)
    && (forall b: nat | b < K :: failedBalance[b] <==> Call(BalanceLane, b) in calls)
    && (forall b: nat | b < K :: failedFefo[b] <==> Call(FefoLane, b) in calls)
  }

  lemma LogLane(calls: seq<Call>, lane: Lane, fb: seq<bool>, ff: seq<bool>, errs: seq<nat>, flags: seq<bool>)
    requires Logged(calls, fb, ff) && Flagged(if lane.BalanceLane? then fb else ff, errs, flags)
    ensures Logged(calls + CallsOf(lane, errs), if lane.BalanceLane? then flags else fb, if lane.BalanceLane? then ff else flags)
  {
    var more := CallsOf(lane, errs);
    var all := calls + more;
    forall b: nat ensures Call(lane, b) in more <==> b in errs {
      if b in errs {
        var i :| 0 <= i < |errs| && errs[i] == b;
        assert more[i] == Call(lane, b);
      }
    }
    assert forall c | c in more :: c.lane == lane;
    assert forall c :: c in all <==> c in calls || c in more;
    forall i, j | 0 <= i < j < |all| ensures all[i] != all[j] {
      if j >= |calls| {
        assert all[j] == more[j - |calls|];
        if i < |calls| { assert all[i] in calls && all[j] in more; } else { assert all[i] == more[i - |calls|]; }
      }
    }
  }

  ghost predicate NoneFailed(failed: seq<bool>) { forall b | 0 <= b < |failed| :: !failed[b] }

  /** Flags are only ever raised. */
  ghost predicate FlagsKept(failed0: seq<bool>, failed: seq<bool>) {
    |failed0| == |failed| && forall b | 0 <= b < |failed0| && failed0[b] :: failed[b]
  }

  lemma FinishedLane(db: Db, job: Job, failed0: seq<bool>, p: Progress, snap: map<nat, int>)
    requires Finished(db, job, failed0, p)
    ensures FlagsKept(failed0, p.failed) && Flagged(failed0, p.errs, p.failed)
    ensures SnapshotAgrees(snap, db) && NoneFailed(p.failed)
            ==> SnapshotAgrees(ApplyPairs(snap, Total(p).balances), StateOf(db, job, p).db)
  {
    hide RunEvents, Feasible, Counted, Equity, WellFormed, ApplyPairs, MergeAll;
    ApplyTruePairs(snap, Total(p).balances, StateOf(db, job, p).db);
  }

  /** What a round may do to the ledger, and how many rows of it are counted. */
  ghost predicate Advanced(db: Db, db': Db, n: int) {
    WellFormed(db') && Solvent(db, db') && 0 <= n <= |db'.billed| - |db.billed|
  }

  lemma AdvancedTwice(db: Db, db1: Db, db2: Db, n1: int, n2: int)
    requires Advanced(db, db1, n1) && Advanced(db1, db2, n2)
    ensures Advanced(db, db2, n1 + n2)
  {
    hide Equity;
  }

  lemma LaneAdvances(db: Db, job: Job, failed0: seq<bool>, p: Progress)
    requires Finished(db, job, failed0, p)
    ensures Advanced(db, StateOf(db, job, p).db, Total(p).marked)
    ensures NoneFailed(p.failed) ==> Total(p).marked == |StateOf(db, job, p).db.billed| - |db.billed|
  {
    RunTracks(db, job, p.evs);
  }

  lemma OfTheLedger(db: Db, limit: nat)
    ensures var ids := FreeRows(db, limit); Free(db, ids) && ids * db.rows.Keys == ids && ids !! db.billed
  {
    hide Window;
    var ids := FreeRows(db, limit);
    assert ids * db.rows.Keys == ids;
  }

  lemma SweepAdvances(db: Db, limit: nat)
    requires WellFormed(db)
    ensures Advanced(db, Mark(db, FreeRows(db, limit)), |FreeRows(db, limit)|)
    ensures |Mark(db, FreeRows(db, limit)).billed| == |db.billed| + |FreeRows(db, limit)|
  {
    hide Equity, FreeRows;
    var ids := FreeRows(db, limit);
    OfTheLedger(db, limit);
    forall u | u in db.balances ensures Equity(Mark(db, ids), u) == Equity(db, u) { MarkEquity(db, ids, u); }
  }

  /** Every row still to be paid for belongs to a bucket that has failed in one of the lanes. */
  ghost predicate OnlyFailedRemain(db: Db, failedBalance: seq<bool>, failedFefo: seq<bool>)
    requires |failedBalance| == |failedFefo| == K
  {
    forall id | id in db.rows && id !in db.billed && db.rows[id].cost > 0 ::
      failedBalance[db.rows[id].user % 4] || failedFefo[db.rows[id].user % 4]
  }

  /** A free row is left only behind a full window of older rows still to be paid for. */
  ghost predicate FreeRowsBlocked(db: Db) {
    forall id | id in db.rows && id !in db.billed && db.rows[id].cost <= 0 ::
      && |Window(Unbilled(db), FETCH_BATCH_LIMIT)| == FETCH_BATCH_LIMIT
      && forall x | x in Window(Unbilled(db), FETCH_BATCH_LIMIT) :: x < id && x in db.rows && db.rows[x].cost > 0
  }

  lemma SweepFoundNothing(db: Db)
    requires FreeRows(db, FETCH_BATCH_LIMIT) == {}
    ensures FreeRowsBlocked(db)
  {
    var window := Window(Unbilled(db), FETCH_BATCH_LIMIT);
    WindowCount(Unbilled(db), FETCH_BATCH_LIMIT);
    forall x | x in window ensures x in db.rows && db.rows[x].cost > 0 {
      assert x !in FreeRows(db, FETCH_BATCH_LIMIT);
    }
    forall id, x | id in db.rows && id !in db.billed && db.rows[id].cost <= 0 && x in window ensures x < id {
      WindowOldest(Unbilled(db), FETCH_BATCH_LIMIT, id, x);
    }
  }

  /** Two lanes in a row that mark nothing leave payable rows only in failed buckets. */
  lemma IdleLanes(db: Db, now: int, fb0: seq<bool>, p: Progress, ff0: seq<bool>, q: Progress)
    requires Finished(db, Job(BalanceLane, K, now), fb0, p) && Total(p).marked == 0
    requires Finished(StateOf(db, Job(BalanceLane, K, now), p).db, Job(FefoLane, K, now), ff0, q) && Total(q).marked == 0
    ensures |p.failed| == |q.failed| == K
    ensures OnlyFailedRemain(StateOf(StateOf(db, Job(BalanceLane, K, now), p).db, Job(FefoLane, K, now), q).db, p.failed, q.failed)
  {
    var jb, jf := Job(BalanceLane, K, now), Job(FefoLane, K, now);
    var db1 := StateOf(db, jb, p).db;
    var db2 := StateOf(db1, jf, q).db;
    forall id | id in db2.rows && id !in db2.billed && db2.rows[id].cost > 0
      ensures p.failed[db2.rows[id].user % K] || q.failed[db2.rows[id].user % K]
    {
      var b := db2.rows[id].user % K;
      if !p.failed[b] && !q.failed[b] {
        IdleBucket(db, jb, fb0, p, b);
        IdleBucket(db1, jf, ff0, q, b);
        NoEligibleRow(db, db1, db2, now, id);
      }
    }
  }

  lemma NoEligibleRow(db: Db, db1: Db, db2: Db, now: int, id: nat)
    requires id in db2.rows && Agree(db1, db, K, db2.rows[id].user % K) && Agree(db2, db1, K, db2.rows[id].user % K)
    requires EligibleIds(db, BalanceLane, K, db2.rows[id].user % K, now) == {}
    requires EligibleIds(db1, FefoLane, K, db2.rows[id].user % K, now) == {}
    ensures id in db2.billed || db2.rows[id].cost <= 0
  {
    var u := db2.rows[id].user;
    TempActiveLocal(db1, db, K, u % K, u, now);
    assert id !in EligibleIds(db, BalanceLane, K, u % K, now) && id !in EligibleIds(db1, FefoLane, K, u % K, now);
  }

  lemma LedgerEmpty(db: Db, failedBalance: seq<bool>, failedFefo: seq<bool>)
    requires |failedBalance| == |failedFefo| == K && NoneFailed(failedBalance) && NoneFailed(failedFefo)
    requires OnlyFailedRemain(db, failedBalance, failedFefo) && FreeRowsBlocked(db)
    ensures Unbilled(db) == {}
  {
    hide Window;
    var window := Window(Unbilled(db), FETCH_BATCH_LIMIT);
    assert forall x | x in Unbilled(db) :: db.rows[x].cost <= 0;
    assert Unbilled(db) != {} ==> window !! Unbilled(db) && |window| == FETCH_BATCH_LIMIT;
    assert Unbilled(db) != {} ==> window == {};
  }

  ghost predicate BothLanes(db: Db, now: int, fb: seq<bool>, p: Progress, ff: seq<bool>, q: Progress, db2: Db,
                            snap: map<nat, int>, snap2: map<nat, int>) {
    && Finished(db, Job(BalanceLane, K, now), fb, p)
    && var db1 := StateOf(db, Job(BalanceLane, K, now), p).db;
    && Finished(db1, Job(FefoLane, K, now), ff, q) && db2 == StateOf(db1, Job(FefoLane, K, now), q).db
    && snap2 == ApplyPairs(ApplyPairs(snap, Total(p).balances), Total(q).balances)
  }

  /** A round: the balance lane, then the temp lane on what it left, then the sweep on what that left, and the rows each marked. */
  ghost predicate InTurn(db: Db, now: int, fb: seq<bool>, p: Progress, ff: seq<bool>, q: Progress, db': Db, n: int) {
    && Finished(db, Job(BalanceLane, K, now), fb, p)
    && var db1 := StateOf(db, Job(BalanceLane, K, now), p).db;
    && Finished(db1, Job(FefoLane, K, now), ff, q)
    && var db2 := StateOf(db1, Job(FefoLane, K, now), q).db;
    && (db' == db2 || db' == Mark(db2, FreeRows(db2, FETCH_BATCH_LIMIT)))
    && (n == Total(p).marked + Total(q).marked || n == Total(p).marked + Total(q).marked + |FreeRows(db2, FETCH_BATCH_LIMIT)|)
  }

  /** Why a cycle's drain loop came back. */
  datatype Exit = Idle | BudgetSpent | Cancelled

  /** How a cycle went: another instance held the lock, or the drain loop came back, with its flags and whether its last sweep
      went through. */
  datatype Outcome = NotLocked | Drained(exit: Exit, failedBalance: seq<bool>, failedFefo: seq<bool>, swept: bool)

  /** What an outcome says about the ledger and about the calls that failed. */
  ghost predicate Tells(o: Outcome, db: Db, calls: seq<Call>)
    requires o.Drained?
  {
    && Logged(calls, o.failedBalance, o.failedFefo) && |o.failedBalance| == |o.failedFefo| == K
    && (o.exit.Idle? ==> OnlyFailedRemain(db, o.failedBalance, o.failedFefo))
    && (o.exit.Idle? && o.swept ==> FreeRowsBlocked(db))
    && (o.exit.Idle? && o.swept && NoneFailed(o.failedBalance) && NoneFailed(o.failedFefo) ==> Unbilled(db) == {})
  }

  class Flusher {
    var db: Db
    /** The clock the statements see; it stands still within a round. */
    var now: int
    var quarantined: int
    /** The settlement calls that returned an error, in order. */
    ghost var errors: seq<Call>
    /** The rows that lanes and sweeps have reported as marked. */
    ghost var reported: int
    const bal: B.Balances
    const balanceCtl: BatchController
    const fefoCtl: BatchController

    ghost predicate Valid()
      reads this, balanceCtl, fefoCtl
    {
      WellFormed(db) && balanceCtl.Valid() && fefoCtl.Valid() && balanceCtl != fefoCtl
    }

    constructor (db: Db, now: int)
      requires WellFormed(db)
      ensures Valid() && this.db == db && this.now == now && quarantined == 0 && bal.snap == map[]
      ensures fresh(bal) && fresh(balanceCtl) && fresh(fefoCtl)
    {
      this.db, this.now, quarantined, errors, reported := db, now, 0, [], 0;
      bal := new B.Balances();
      balanceCtl := new BatchController();
      fefoCtl := new BatchController();
    }

    /** The store's answer to one bucket's call. The statement may have committed although it reports an error. */
    method Settle(lane: Lane, b: nat, t: Txn) returns (s: Summary, err: Option<Error>, ghost committed: bool)
      modifies this`db, this`errors
      ensures db == if committed then Commit(old(db), t) else old(db)
      ensures err.None? ==> committed && s == Report(old(db), t)
      ensures err.Some? ==> s == EMPTY
      ensures errors == if err.Some? then old(errors) + [Call(lane, b)] else old(errors)
    {
      var done: bool := *;
      err := *;
      if !done && err.None? { err := Some(OtherError); }
      s := if err.None? then Report(db, t) else EMPTY;
      if done { db := Commit(db, t); }
      if err.Some? { errors := errors + [Call(lane, b)]; }
      committed := done;
    }

    /** The end of one bucket's call: the controller learns of it, and it is flagged or counted. */
    method EndBucket(t: Txn, lane: Lane, b: nat, lim: int, ctl: BatchController, failed: array<bool>, total: Summary)
      returns (total': Summary, ghost committed: bool, ghost ok: bool, ghost elapsed: int, ghost err: Option<Error>)
      requires ctl.Valid() && b < failed.Length
      modifies this`db, this`errors, ctl, failed
      ensures ctl.Valid() && (ok ==> committed) && (ok <==> err.None?)
      ensures Moves(old(ctl.cur), ctl.cur, elapsed, err, ok && Report(old(db), t).batchRows >= lim)
      ensures ctl.seen == old(ctl.seen) + [Observation(elapsed, err, (if ok then Report(old(db), t).batchRows else 0) >= lim)]
      ensures old(ctl.cur) >= 0 && ctl.cur == Adjust(old(ctl.cur), ctl.seen[|ctl.seen| - 1])
      ensures db == if committed then Commit(old(db), t) else old(db)
      ensures errors == if ok then old(errors) else old(errors) + [Call(lane, b)]
      ensures failed[..] == if ok then old(failed[..]) else old(failed[..])[b := true]
      ensures total' == if ok then Merge(total, Report(old(db), t)) else total
    {
      hide Commit, Report, Merge;
      var took: int := *;
      var s, e;
      s, e, committed := Settle(lane, b, t);
      ctl.Observe(Observation(took, e, s.batchRows >= lim));
      if e.Some? {
        failed[b] := true;
        total' := total;
      } else {
        total' := Merge(total, s);
      }
      ok, elapsed, err := e.None?, took, e;
    }

    /** The end of one of the lane's open calls, whatever else is under way. */
    method EndOne(lane: Lane, b: nat, lim: int, ctl: BatchController, failed: array<bool>, total: Summary,
                  ghost waiting: set<nat>, taken: map<nat, Txn>, ghost db0: Db, ghost failed0: seq<bool>, ghost p: Progress,
                  ghost cur0: int, ghost seen0: seq<Observation>, ghost errors0: seq<Call>)
      returns (total': Summary, ghost p': Progress)
      requires ctl.Valid() && failed.Length == K && b in taken
      requires Midway(db0, Job(lane, K, now), failed0, p, db, waiting, taken, total, failed[..])
      requires errors == errors0 + CallsOf(lane, p.errs) && Fed(cur0, seen0, ctl.cur, ctl.seen, Calls(p)) && Given(p.evs, cur0, seen0, ctl.seen)
      modifies this`db, this`errors, ctl, failed
      ensures ctl.Valid() && Midway(db0, Job(lane, K, now), failed0, p', db, waiting, taken - {b}, total', failed[..])
      ensures errors == errors0 + CallsOf(lane, p'.errs) && Fed(cur0, seen0, ctl.cur, ctl.seen, Calls(p')) && Given(p'.evs, cur0, seen0, ctl.seen)
    {
      hide Inv, Midway, StateOf, Total, WellFormed, Commit, Report, Merge, CallsOf, Calls, Adjust, AdjustAll, Moves, Given;
      ghost var job, d, flags, cur, seen := Job(lane, K, now), db, failed[..], ctl.cur, ctl.seen;
      BelowK(db0, job, failed0, p, db, waiting, taken, total, failed[..], b);
      ghost var committed, ok, elapsed, err;
      total', committed, ok, elapsed, err := EndBucket(taken[b], lane, b, lim, ctl, failed, total);
      FedMore(cur0, seen0, cur, seen, Calls(p), ctl.cur, ctl.seen);
      p' := EndMidway(db0, job, failed0, p, d, waiting, taken, total, flags, b, committed, ok);
      GivenEnd(p.evs, End(b, committed), cur0, seen0, seen, ctl.seen);
    }

    /** All buckets of a lane at once: as long as one is waiting or under way, some bucket starts or some bucket ends. */
    method RunBuckets(lane: Lane, ctl: BatchController, failed: array<bool>) returns (total: Summary, ghost p: Progress)
      requires WellFormed(db) && ctl.Valid() && failed.Length == K
      modifies this`db, this`errors, ctl, failed
      ensures ctl.Valid()
      ensures Finished(old(db), Job(lane, K, now), old(failed[..]), p)
      ensures p.failed == failed[..] && total == Total(p) && errors == old(errors) + CallsOf(lane, p.errs)
      ensures Fed(old(ctl.cur), old(ctl.seen), ctl.cur, ctl.seen, Calls(p)) && Given(p.evs, old(ctl.cur), old(ctl.seen), ctl.seen)
      ensures db == StateOf(old(db), Job(lane, K, now), p).db && LikeSequence(old(db), Job(lane, K, now), p, db, total)
    {
      hide Inv, Midway, LikeSequence, Feasible, CallsOf, Calls, Adjust, AdjustAll, Moves, Given, StateOf, DoBegin, DoEnd, Total, WellFormed, Commit, Report, Fetch, Merge;
      ghost var db0, failed0, job := db, failed[..], Job(lane, K, now);
      total := EMPTY;
      var waiting := set b: nat | b < K && !failed[b];
      var taken: map<nat, Txn> := map[];
      var limits: map<nat, int> := map[];
      p := Progress([], waiting, failed[..], [], [], false, []);
      StartMidway(db0, job, failed0, waiting);
      FedNothing(ctl.cur, ctl.seen, p);
      while waiting != {} || taken != map[]
        invariant ctl.Valid() && Midway(db0, job, failed0, p, db, waiting, taken, total, failed[..])
        invariant taken.Keys <= limits.Keys && errors == old(errors) + CallsOf(lane, p.errs)
        invariant Fed(old(ctl.cur), old(ctl.seen), ctl.cur, ctl.seen, Calls(p)) && Given(p.evs, old(ctl.cur), old(ctl.seen), ctl.seen)
        decreases 2 * |waiting| + |taken.Keys|
      {
        var start: bool := *;
        if waiting != {} && (start || taken == map[]) {
          var b :| b in waiting;
          var lim := ctl.Limit();
          BeginMidway(db0, job, failed0, p, db, waiting, taken, total, failed[..], b, lim);
          GivenBegin(p.evs, b, lim, old(ctl.cur), old(ctl.seen), ctl.cur, ctl.seen, Calls(p));
          p := DoBegin(p, b, lim);
          taken := taken[b := Fetch(db, lane, lim, K, b, now)];
          limits := limits[b := lim];
          waiting := waiting - {b};
        } else {
          var b :| b in taken;
          total, p := EndOne(lane, b, limits[b], ctl, failed, total, waiting, taken, db0, failed0, p, old(ctl.cur), old(ctl.seen), old(errors));
          taken := taken - {b};
        }
      }
      FinishMidway(db0, job, failed0, p, db, total, failed[..]);
      FinishedLikeSequence(db0, job, failed0, p);
    }

    /** One lane: the buckets, then the snapshot. */
    method SettleLaneParallel(lane: Lane, ctl: BatchController, failed: array<bool>) returns (marked: int, ghost p: Progress)
      requires Valid() && (ctl == balanceCtl || ctl == fefoCtl) && failed.Length == K
      modifies this`db, this`errors, this`reported, this`quarantined, bal, ctl, failed
      ensures Valid() && reported == old(reported) + marked
      ensures Finished(old(db), Job(lane, K, now), old(failed[..]), p)
      ensures p.failed == failed[..] && marked == Total(p).marked && errors == old(errors) + CallsOf(lane, p.errs)
      ensures Fed(old(ctl.cur), old(ctl.seen), ctl.cur, ctl.seen, Calls(p)) && Given(p.evs, old(ctl.cur), old(ctl.seen), ctl.seen)
      ensures db == StateOf(old(db), Job(lane, K, now), p).db && LikeSequence(old(db), Job(lane, K, now), p, db, Total(p))
      ensures bal.snap == ApplyPairs(old(bal.snap), Total(p).balances) && bal.mult == old(bal.mult)
      ensures quarantined == old(quarantined) + Total(p).quarantined
    {
      hide Inv, RunEvents, Feasible, Total, ApplyPairs, LikeSequence, AdjustAll, Given;
      var total;
      total, p := RunBuckets(lane, ctl, failed);
      LaneAdvances(old(db), Job(lane, K, now), old(failed[..]), p);
      ApplySettlement(total);
      marked := total.marked;
      reported := reported + Total(p).marked;
    }

    method ApplySettlement(s: Summary)
      modifies this`quarantined, bal
      ensures bal.snap == ApplyPairs(old(bal.snap), s.balances) && bal.mult == old(bal.mult)
      ensures quarantined == old(quarantined) + s.quarantined
    {
      for i := 0 to |s.balances|
        invariant bal.snap == ApplyPairs(old(bal.snap), s.balances[..i]) && bal.mult == old(bal.mult)
        invariant quarantined == old(quarantined)
      {
        assert s.balances[..i + 1][..i] == s.balances[..i];
        bal.Set(s.balances[i].user, s.balances[i].balance);
      }
      assert s.balances[..|s.balances|] == s.balances;
      quarantined := quarantined + s.quarantined;
    }
  
    /** The sweep of free rows. Payable rows in the window are left alone. */
    method SweepZeroCost() returns (n: int, ghost swept: bool)
      requires Valid()
      modifies this`db, this`reported
      ensures Valid() && Advanced(old(db), db, n) && reported == old(reported) + n
      ensures swept ==> n == |db.billed| - |old(db).billed|
      ensures db == old(db) || db == Mark(old(db), FreeRows(old(db), 2000))
      ensures n == (if swept then |FreeRows(old(db), 2000)| else 0)
      ensures swept && n == 0 ==> db == old(db) && FreeRowsBlocked(db)
    {
      hide FreeRows, Mark, FreeRowsBlocked, WellFormed, Solvent;
      SweepAdvances(db, FETCH_BATCH_LIMIT);
      Standstill(db);
      var fetched: bool := *;
      if !fetched { return 0, false; }
      var ids := FindFreeRows();
      if ids == {} {
        SweepFoundNothing(db);
        return 0, true;
      }
      var failedBefore: bool := *;
      if failedBefore { return 0, false; }
      db := Mark(db, ids);
      var failedAfter: bool := *;
      if failedAfter { return 0, false; }
      reported := reported + |ids|;
      return |ids|, true;
    }

    method FindFreeRows() returns (ids: set<nat>)
      ensures ids == FreeRows(db, FETCH_BATCH_LIMIT)
    {
      hide Ascending, First;
      var rows := First(Ascending(Unbilled(db)), FETCH_BATCH_LIMIT);
      ids := {};
      for i := 0 to |rows|
        invariant forall id :: id in ids <==> id in rows[..i] && id in db.rows && db.rows[id].cost <= 0
      {
        assert rows[..i + 1] == rows[..i] + [rows[i]];
        if rows[i] in db.rows && db.rows[rows[i]].cost <= 0 {
          ids := ids + {rows[i]};
        }
      }
      assert rows[..|rows|] == rows;
    }

    /** The balance lane, then the temp lane on what it left. */
    method SettleLanes(failedBalance: array<bool>, failedFefo: array<bool>) returns (marked: int, ghost p: Progress, ghost q: Progress)
      requires Valid() && failedBalance != failedFefo && failedBalance.Length == failedFefo.Length == K
      modifies this`db, this`errors, this`reported, this`quarantined, bal, balanceCtl, fefoCtl, failedBalance, failedFefo
      ensures Valid() && reported == old(reported) + marked && marked == Total(p).marked + Total(q).marked
      ensures BothLanes(old(db), now, old(failedBalance[..]), p, old(failedFefo[..]), q, db, old(bal.snap), bal.snap)
      ensures p.failed == failedBalance[..] && q.failed == failedFefo[..]
      ensures errors == old(errors) + CallsOf(BalanceLane, p.errs) + CallsOf(FefoLane, q.errs)
      ensures Fed(old(balanceCtl.cur), old(balanceCtl.seen), balanceCtl.cur, balanceCtl.seen, Calls(p))
      ensures Fed(old(fefoCtl.cur), old(fefoCtl.seen), fefoCtl.cur, fefoCtl.seen, Calls(q))
    {
      hide Finished, StateOf, Total, WellFormed, ApplyPairs, LikeSequence, CallsOf, Calls, AdjustAll, Given;
      var a, b;
      a, p := SettleLaneParallel(BalanceLane, balanceCtl, failedBalance);
      b, q := SettleLaneParallel(FefoLane, fefoCtl, failedFefo);
      marked := a + b;
    }

    /** One round: balance lane, temp lane, sweep. */
    method ConsumeBatchFiltered(failedBalance: array<bool>, failedFefo: array<bool>)
      returns (n: int, ghost swept: bool, ghost p: Progress, ghost q: Progress)
      requires Valid() && failedBalance != failedFefo && failedBalance.Length == failedFefo.Length == K
      modifies this`db, this`errors, this`reported, this`quarantined, bal, balanceCtl, fefoCtl, failedBalance, failedFefo
      ensures Valid() && Advanced(old(db), db, n) && old(errors) <= errors && reported == old(reported) + n
      ensures swept && NoneFailed(failedBalance[..]) && NoneFailed(failedFefo[..]) ==> n == |db.billed| - |old(db).billed|
      ensures Fed(old(balanceCtl.cur), old(balanceCtl.seen), balanceCtl.cur, balanceCtl.seen, Calls(p))
      ensures Fed(old(fefoCtl.cur), old(fefoCtl.seen), fefoCtl.cur, fefoCtl.seen, Calls(q))
      ensures InTurn(old(db), now, old(failedBalance[..]), p, old(failedFefo[..]), q, db, n)
      ensures forall calls | Logged(calls, old(failedBalance[..]), old(failedFefo[..])) ::
                Logged(calls + errors[|old(errors)|..], failedBalance[..], failedFefo[..])
      ensures FlagsKept(old(failedBalance[..]), failedBalance[..]) && FlagsKept(old(failedFefo[..]), failedFefo[..])
      ensures n == 0 ==> OnlyFailedRemain(db, failedBalance[..], failedFefo[..])
      ensures n == 0 && swept ==> FreeRowsBlocked(db)
      ensures SnapshotAgrees(old(bal.snap), old(db)) && NoneFailed(failedBalance[..]) && NoneFailed(failedFefo[..])
              ==> SnapshotAgrees(bal.snap, db)
    {
      hide BothLanes, InTurn, Total, Advanced, WellFormed, OnlyFailedRemain, FreeRowsBlocked, NoneFailed, FlagsKept, Logged, CallsOf, Calls, Fed, FreeRows, Mark, SnapshotAgrees;
      ghost var db0, fb0, ff0, snap0 := db, failedBalance[..], failedFefo[..], bal.snap;
      var a, c;
      a, p, q := SettleLanes(failedBalance, failedFefo);
      ghost var db2, log := db, errors;
      c, swept := SweepZeroCost();
      n := a + c;
      RoundDone(db0, now, fb0, p, ff0, q, db2, snap0, bal.snap, db, c, swept);
      RoundLogged(old(errors), log, fb0, ff0, p.errs, q.errs, p.failed, q.failed);
    }

    /** Rounds until one makes no progress, the budget is spent or the context ends. */
    method DrainLoop() returns (drained: int, exit: Exit, rounds: nat, failedBalance: array<bool>, failedFefo: array<bool>, ghost swept: bool)
      requires Valid()
      modifies this`db, this`errors, this`reported, this`now, this`quarantined, bal, balanceCtl, fefoCtl
      ensures Valid() && Advanced(old(db), db, drained) && reported == old(reported) + drained
      ensures old(errors) <= errors && Logged(errors[|old(errors)|..], failedBalance[..], failedFefo[..])
      ensures rounds <= |Unbilled(old(db))| + 1
      ensures fresh(failedBalance) && fresh(failedFefo) && failedBalance.Length == failedFefo.Length == 4
      ensures exit.Idle? ==> OnlyFailedRemain(db, failedBalance[..], failedFefo[..])
      ensures exit.Idle? && swept ==> FreeRowsBlocked(db)
      ensures exit.Idle? && swept && NoneFailed(failedBalance[..]) && NoneFailed(failedFefo[..]) ==> Unbilled(db) == {}
      ensures SnapshotAgrees(old(bal.snap), old(db)) && NoneFailed(failedBalance[..]) && NoneFailed(failedFefo[..])
              ==> SnapshotAgrees(bal.snap, db)
    {
      hide Solvent, WellFormed, Unbilled, OnlyFailedRemain, FreeRowsBlocked, SnapshotAgrees, NoneFailed, Logged, InTurn;
      drained, rounds, swept := 0, 0, false;
      failedBalance := new bool[K](_ => false);
      failedFefo := new bool[K](_ => false);
      var cancelled: bool := *;
      Standstill(db);
      NothingLogged(failedBalance[..], failedFefo[..]);
      assert errors[|old(errors)|..] == [];
      while !cancelled
        invariant Valid() && Advanced(old(db), db, drained) && reported == old(reported) + drained
        invariant rounds + |Unbilled(db)| <= |Unbilled(old(db))|
        invariant old(errors) <= errors && Logged(errors[|old(errors)|..], failedBalance[..], failedFefo[..])
        invariant fresh(failedBalance) && fresh(failedFefo) && failedBalance != failedFefo && failedBalance.Length == failedFefo.Length == K
        invariant SnapshotAgrees(old(bal.snap), old(db)) && NoneFailed(failedBalance[..]) && NoneFailed(failedFefo[..])
                  ==> SnapshotAgrees(bal.snap, db)
        decreases |Unbilled(db)|
      {
        ghost var db1, fb1, ff1, log1 := db, failedBalance[..], failedFefo[..], errors;
        var n;
        ghost var p, q;
        n, swept, p, q := ConsumeBatchFiltered(failedBalance, failedFefo);
        assert log1[|old(errors)|..] + errors[|log1|..] == errors[|old(errors)|..];
        EarlierFlags(fb1, failedBalance[..]);
        EarlierFlags(ff1, failedFefo[..]);
        AdvancedTwice(old(db), db1, db, drained, n);
        FewerUnbilled(db1, db, n);
        rounds := rounds + 1;
        if n == 0 {
          if swept && NoneFailed(failedBalance[..]) && NoneFailed(failedFefo[..]) {
            LedgerEmpty(db, failedBalance[..], failedFefo[..]);
          }
          return drained, Idle, rounds, failedBalance, failedFefo, swept;
        }
        drained := drained + n;
        var expired: bool := *;
        if expired { return drained, BudgetSpent, rounds, failedBalance, failedFefo, swept; }
        var later: int :| now <= later;
        now := later;
        cancelled := *;
      }
      exit := Cancelled;
    }

    /** One cycle under the session lock; without the lock nothing happens. */
    method ConsumeCycle(locked: bool) returns (marked: int, ghost outcome: Outcome)
      requires Valid()
      modifies this`db, this`errors, this`reported, this`now, this`quarantined, bal, balanceCtl, fefoCtl
      ensures Valid() && Advanced(old(db), db, marked) && old(errors) <= errors && reported == old(reported) + marked
      ensures outcome.NotLocked? <==> !locked
      ensures !locked ==> marked == 0 && db == old(db) && errors == old(errors) && bal.snap == old(bal.snap)
      ensures outcome.Drained? ==> Tells(outcome, db, errors[|old(errors)|..])
      ensures outcome.Drained? && SnapshotAgrees(old(bal.snap), old(db)) && NoneFailed(outcome.failedBalance) && NoneFailed(outcome.failedFefo)
              ==> SnapshotAgrees(bal.snap, db)
    {
      hide Logged, OnlyFailedRemain, FreeRowsBlocked, SnapshotAgrees, NoneFailed, Advanced;
      marked, outcome := 0, NotLocked;
      Standstill(db);
      if locked {
        var exit, rounds, fb, ff;
        ghost var swept;
        marked, exit, rounds, fb, ff, swept := DrainLoop();
        outcome := Drained(exit, fb[..], ff[..], swept);
      }
    }

    /** The final drain at shutdown: cycles until one marks nothing or the budget is spent. */
    method CloseDrain() returns (flushed: int, cycles: nat, ghost last: Outcome)
      requires Valid()
      modifies this`db, this`errors, this`reported, this`now, this`quarantined, bal, balanceCtl, fefoCtl
      ensures Valid() && Advanced(old(db), db, flushed) && reported == old(reported) + flushed
      ensures cycles <= |Unbilled(old(db))| + 1
      ensures last.Drained? && last.exit.Idle? ==> |last.failedBalance| == |last.failedFefo| == K && OnlyFailedRemain(db, last.failedBalance, last.failedFefo)
      ensures last.Drained? && last.exit.Idle? && last.swept && NoneFailed(last.failedBalance) && NoneFailed(last.failedFefo)
              ==> Unbilled(db) == {}
    {
      hide Logged, OnlyFailedRemain, FreeRowsBlocked, SnapshotAgrees, NoneFailed, Unbilled, Solvent, WellFormed;
      flushed, cycles, last := 0, 0, NotLocked;
      Standstill(db);
      var expired: bool := *;
      while !expired
        invariant Valid() && Advanced(old(db), db, flushed) && reported == old(reported) + flushed
        invariant cycles + |Unbilled(db)| <= |Unbilled(old(db))|
        invariant last.Drained? ==> exists calls :: Tells(last, db, calls)
        decreases |Unbilled(db)|
      {
        ghost var db1 := db;
        var n;
        var locked: bool := *;
        n, last := ConsumeCycle(locked);
        AdvancedTwice(old(db), db1, db, flushed, n);
        FewerUnbilled(db1, db, n);
        flushed, cycles := flushed + n, cycles + 1;
        if n == 0 { return; }
        expired := *;
      }
    }
  }

  lemma NothingLogged(fb: seq<bool>, ff: seq<bool>)
    requires |fb| == |ff| == K && (forall b | 0 <= b < K :: !fb[b] && !ff[b])
    ensures Logged([], fb, ff)
  {}

  /** Both lanes' failed calls, after any that went before. */
  lemma RoundLogged(before: seq<Call>, after: seq<Call>, fb0: seq<bool>, ff0: seq<bool>, pe: seq<nat>, qe: seq<nat>,
                    fb: seq<bool>, ff: seq<bool>)
    requires Flagged(fb0, pe, fb) && Flagged(ff0, qe, ff)
    requires after == before + CallsOf(BalanceLane, pe) + CallsOf(FefoLane, qe)
    ensures before <= after
    ensures forall calls | Logged(calls, fb0, ff0) :: Logged(calls + after[|before|..], fb, ff)
  {
    hide Logged, Flagged, CallsOf;
    forall calls | Logged(calls, fb0, ff0) ensures Logged(calls + after[|before|..], fb, ff) {
      LogLane(calls, BalanceLane, fb0, ff0, pe, fb);
      LogLane(calls + CallsOf(BalanceLane, pe), FefoLane, fb, ff0, qe, ff);
      assert calls + CallsOf(BalanceLane, pe) + CallsOf(FefoLane, qe) == calls + after[|before|..];
    }
  }

  lemma Standstill(db: Db)
    requires WellFormed(db)
    ensures Advanced(db, db, 0)
  {
  }

  lemma FewerUnbilled(db: Db, db': Db, n: int)
    requires WellFormed(db) && Advanced(db, db', n)
    ensures |Unbilled(db')| <= |Unbilled(db)| - n
  {
    assert |Unbilled(db)| == |db.rows.Keys| - |db.billed|;
    assert |Unbilled(db')| == |db.rows.Keys| - |db'.billed|;
  }

  lemma EarlierFlags(failed0: seq<bool>, failed: seq<bool>)
    requires FlagsKept(failed0, failed)
    ensures NoneFailed(failed) ==> NoneFailed(failed0)
  {
  }

  lemma RoundAdvances(db0: Db, db1: Db, db2: Db, now: int, fb0: seq<bool>, p: Progress, ff0: seq<bool>, q: Progress,
                      snap0: map<nat, int>, snap1: map<nat, int>)
    requires Finished(db0, Job(BalanceLane, K, now), fb0, p) && db1 == StateOf(db0, Job(BalanceLane, K, now), p).db
    requires Finished(db1, Job(FefoLane, K, now), ff0, q) && db2 == StateOf(db1, Job(FefoLane, K, now), q).db
    requires snap1 == ApplyPairs(snap0, Total(p).balances)
    ensures Advanced(db0, db2, Total(p).marked + Total(q).marked) && Total(p).marked >= 0 && Total(q).marked >= 0
    ensures FlagsKept(fb0, p.failed) && FlagsKept(ff0, q.failed)
    ensures Flagged(fb0, p.errs, p.failed) && Flagged(ff0, q.errs, q.failed)
    ensures NoneFailed(p.failed) && NoneFailed(q.failed) ==> Total(p).marked + Total(q).marked == |db2.billed| - |db0.billed|
    ensures SnapshotAgrees(snap0, db0) && NoneFailed(p.failed) && NoneFailed(q.failed)
            ==> SnapshotAgrees(ApplyPairs(snap1, Total(q).balances), db2)
  {
    hide Inv, StateOf, Total, Solvent, WellFormed, ApplyPairs, SnapshotAgrees;
    LaneAdvances(db0, Job(BalanceLane, K, now), fb0, p);
    LaneAdvances(db1, Job(FefoLane, K, now), ff0, q);
    AdvancedTwice(db0, db1, db2, Total(p).marked, Total(q).marked);
    FinishedLane(db0, Job(BalanceLane, K, now), fb0, p, snap0);
    FinishedLane(db1, Job(FefoLane, K, now), ff0, q, snap1);
  }

  /** Both lanes and the sweep. */
  lemma RoundDone(db: Db, now: int, fb: seq<bool>, p: Progress, ff: seq<bool>, q: Progress, db2: Db,
                  snap: map<nat, int>, snap2: map<nat, int>, db': Db, c: int, swept: bool)
    requires BothLanes(db, now, fb, p, ff, q, db2, snap, snap2) && Advanced(db2, db', c)
    requires db' == db2 || db' == Mark(db2, FreeRows(db2, FETCH_BATCH_LIMIT))
    requires c == (if swept then |FreeRows(db2, FETCH_BATCH_LIMIT)| else 0) && (swept ==> c == |db'.billed| - |db2.billed|)
    ensures Advanced(db, db', Total(p).marked + Total(q).marked + c)
    ensures InTurn(db, now, fb, p, ff, q, db', Total(p).marked + Total(q).marked + c)
    ensures FlagsKept(fb, p.failed) && FlagsKept(ff, q.failed)
    ensures Flagged(fb, p.errs, p.failed) && Flagged(ff, q.errs, q.failed) && |p.failed| == |q.failed| == K
    ensures swept && NoneFailed(p.failed) && NoneFailed(q.failed) ==> Total(p).marked + Total(q).marked + c == |db'.billed| - |db.billed|
    ensures SnapshotAgrees(snap, db) && NoneFailed(p.failed) && NoneFailed(q.failed) ==> SnapshotAgrees(snap2, db')
    ensures Total(p).marked + Total(q).marked + c == 0 ==> c == 0 && OnlyFailedRemain(db', p.failed, q.failed)
  {
    hide Good, Feasible, StateOf, Total, Solvent, WellFormed, ApplyPairs, OnlyFailedRemain, FreeRows;
    var db1 := StateOf(db, Job(BalanceLane, K, now), p).db;
    RoundAdvances(db, db1, db2, now, fb, p, ff, q, snap, ApplyPairs(snap, Total(p).balances));
    AdvancedTwice(db, db2, db', Total(p).marked + Total(q).marked, c);
    FlagsOfLane(db, Job(BalanceLane, K, now), fb, p);
    FlagsOfLane(db1, Job(FefoLane, K, now), ff, q);
    if Total(p).marked + Total(q).marked + c == 0 {
      IdleLanes(db, now, fb, p, ff, q);
      StillOnlyFailed(db2, db', p.failed, q.failed);
    }
  }

  lemma FlagsOfLane(db: Db, job: Job, failed0: seq<bool>, p: Progress)
    requires Finished(db, job, failed0, p)
    ensures |p.failed| == job.k
  {
    hide Good, WellFormed, Feasible;
  }

  lemma StillOnlyFailed(db: Db, db': Db, failedBalance: seq<bool>, failedFefo: seq<bool>)
    requires |failedBalance| == |failedFefo| == K && OnlyFailedRemain(db, failedBalance, failedFefo)
    requires db' == db || db' == Mark(db, FreeRows(db, FETCH_BATCH_LIMIT))
    ensures OnlyFailedRemain(db', failedBalance, failedFefo)
  {
  }
}
