/** What a lane has achieved while its buckets come and go: which buckets are waiting, under way, done
    or failed, what has been counted, and that the money adds up at every moment. */
module LaneProgress {
  import opened Sums
  import opened Ledger
  import opened Lanes

  /** `order` lists the buckets that reported success, in order, with `parts` their reports, and `errs` those whose call
      returned an error; `lost` is set once a commit has been reported as an error. */
  datatype Progress = Progress(
    evs: seq<Event>, waiting: set<nat>, failed: seq<bool>, order: seq<nat>, parts: seq<Summary>, lost: bool, errs: seq<nat>)

  predicate Running(db: Db, job: Job, p: Progress) {
    job.k > 0 && |p.failed| == job.k && Feasible(job, Start(db), p.evs)
  }

  function StateOf(db: Db, job: Job, p: Progress): LaneState
    requires Running(db, job, p)
  {
    RunEvents(job, Start(db), p.evs)
  }

  function Total(p: Progress): Summary { MergeAll(p.parts) }

  function DoBegin(p: Progress, b: nat, limit: nat): Progress {
    p.(evs := p.evs + [Begin(b, limit)], waiting := p.waiting - {b})
  }

  /** The end of a bucket's call: `ok` is what the caller is told, `committed` what happened. */
  function DoEnd(p: Progress, st: LaneState, b: nat, committed: bool, ok: bool): Progress
    requires b in st.taken && b < |p.failed|
  {
    var p' := p.(evs := p.evs + [End(b, committed)]);
    if ok then p'.(order := p.order + [b], parts := p.parts + [Report(st.db, st.taken[b])])
    else p'.(failed := p.failed[b := true], lost := p.lost || committed, errs := p.errs + [b])
  }

  lemma Extend(db: Db, job: Job, p: Progress, e: Event)
    requires Running(db, job, p) && CanRun(job, StateOf(db, job, p), e)
    ensures Feasible(job, Start(db), p.evs + [e])
    ensures RunEvents(job, Start(db), p.evs + [e]) == RunEvent(job, StateOf(db, job, p), e)
  {
    assert (p.evs + [e])[..|p.evs|] == p.evs;
  }

  /** Every bucket is in one place; the ones done without error are exactly those counted. */
  ghost predicate Placed(job: Job, st: LaneState, failed0: seq<bool>, p: Progress)
    requires |p.failed| == job.k
  {
    && |failed0| == job.k
    && (forall b | b in p.waiting || b in p.order :: b < job.k)
    && (forall b: nat | b < job.k ::
          if failed0[b] then p.failed[b] && b !in p.waiting && b !in st.taken && b !in st.over
          else (b in p.waiting || b in st.taken || b in st.over))
    && (forall b: nat | b < job.k && (b in p.waiting || b in st.taken) :: !p.failed[b] && b !in st.over && !(b in p.waiting && b in st.taken))
    && (forall b: nat | b < job.k :: b in p.order <==> b in st.over && !p.failed[b])
  }

  ghost predicate Counted(db: Db, st: LaneState, p: Progress) {
    && |p.parts| == |p.order| && Distinct(p.order)
    && (forall i | 0 <= i < |p.order| :: p.order[i] in st.reports && p.parts[i] == st.reports[p.order[i]])
    && (forall i | 0 <= i < |p.parts| :: 0 <= p.parts[i].marked <= Total(p).marked)
    && 0 <= Total(p).marked <= |st.db.billed| - |db.billed|
    && (!p.lost ==> Total(p).marked == |st.db.billed| - |db.billed|)
  }

  /** No real user has gained or lost anything but billed rows. */
  ghost predicate Solvent(db: Db, db': Db) {
    && db'.rows == db.rows && db'.balances.Keys == db.balances.Keys && db.billed <= db'.billed
    && (forall u | u in db.balances :: Equity(db', u) == Equity(db, u))
  }

  predicate Mentions(pairs: seq<UserBalance>, u: nat) {
    exists i | 0 <= i < |pairs| :: pairs[i].user == u
  }

  ghost predicate TruePairs(pairs: seq<UserBalance>, db: Db) {
    forall i | 0 <= i < |pairs| :: pairs[i].user in db.balances && pairs[i].balance == db.balances[pairs[i].user]
  }

  /** The pairs reported so far are the store's balances, and unless a commit got lost they include every
      balance that changed. */
  ghost predicate Told(db: Db, job: Job, st: LaneState, p: Progress)
    requires job.k > 0
  {
    && TruePairs(Total(p).balances, st.db)
    && (forall i | 0 <= i < |Total(p).balances| :: Total(p).balances[i].user % job.k in p.order)
    && (!p.lost ==> forall u | u in db.balances && u in st.db.balances && st.db.balances[u] != db.balances[u] :: Mentions(Total(p).balances, u))
  }

  ghost predicate Good(db: Db, job: Job, failed0: seq<bool>, st: LaneState, p: Progress)
    requires job.k > 0 && |p.failed| == job.k
  {
    && Placed(job, st, failed0, p) && Counted(db, st, p) && Solvent(db, st.db) && Told(db, job, st, p) && LossShows(p)
    && Flagged(failed0, p.errs, p.failed)
  }

  /** The flags are those raised before and those of the calls that returned an error, each of them once and on a bucket that was
      not flagged. */
  ghost predicate Flagged(failed0: seq<bool>, errs: seq<nat>, failed: seq<bool>) {
    && |failed0| == |failed| && Distinct(errs)
    && (forall b | b in errs :: b < |failed0| && !failed0[b])
    && (forall b: nat | b < |failed| :: failed[b] <==> failed0[b] || b in errs)
  }

  /** A commit reported as an error leaves its bucket flagged. */
  ghost predicate LossShows(p: Progress) {
    p.lost ==> exists b | 0 <= b < |p.failed| :: p.failed[b]
  }

  ghost predicate Inv(db: Db, job: Job, failed0: seq<bool>, p: Progress) {
    Running(db, job, p) && WellFormed(db) && Good(db, job, failed0, StateOf(db, job, p), p)
  }

  lemma Initially(db: Db, job: Job, failed0: seq<bool>, waiting: set<nat>)
    requires job.k > 0 && WellFormed(db) && |failed0| == job.k
    requires forall b: nat :: b in waiting <==> b < job.k && !failed0[b]
    ensures Running(db, job, Progress([], waiting, failed0, [], [], false, [])) && Inv(db, job, failed0, Progress([], waiting, failed0, [], [], false, []))
    ensures StateOf(db, job, Progress([], waiting, failed0, [], [], false, [])) == Start(db)
    ensures Total(Progress([], waiting, failed0, [], [], false, [])) == EMPTY
  {
  }

  /** Nothing counted, reported or written: only buckets move. */
  lemma Unmoved(db: Db, job: Job, st: LaneState, st': LaneState, p: Progress, p': Progress)
    requires job.k > 0 && Counted(db, st, p) && Told(db, job, st, p)
    requires st'.db == st.db && st'.reports == st.reports && p'.parts == p.parts && p'.order == p.order && p'.lost == p.lost
    ensures Counted(db, st', p') && Told(db, job, st', p')
  {
  }

  lemma BeginInv(db: Db, job: Job, failed0: seq<bool>, p: Progress, b: nat, limit: nat)
    requires Inv(db, job, failed0, p) && b in p.waiting
    ensures CanRun(job, StateOf(db, job, p), Begin(b, limit))
    ensures Running(db, job, DoBegin(p, b, limit)) && Inv(db, job, failed0, DoBegin(p, b, limit)) && Total(DoBegin(p, b, limit)) == Total(p)
    ensures StateOf(db, job, DoBegin(p, b, limit)) == RunEvent(job, StateOf(db, job, p), Begin(b, limit))
    ensures StateOf(db, job, DoBegin(p, b, limit)).db == StateOf(db, job, p).db
    ensures StateOf(db, job, DoBegin(p, b, limit)).taken
         == StateOf(db, job, p).taken[b := Fetch(StateOf(db, job, p).db, job.lane, limit, job.k, b, job.now)]
  {
    hide Solvent, Counted, Told, Fetch, RunEvents, Feasible;
    var st := StateOf(db, job, p);
    Extend(db, job, p, Begin(b, limit));
    Unmoved(db, job, st, RunEvent(job, st, Begin(b, limit)), p, DoBegin(p, b, limit));
  }

  lemma EndPlaced(job: Job, failed0: seq<bool>, st: LaneState, p: Progress, b: nat, committed: bool, ok: bool)
    requires |p.failed| == job.k && Placed(job, st, failed0, p) && b < job.k && CanRun(job, st, End(b, committed))
    ensures Placed(job, RunEvent(job, st, End(b, committed)), failed0, DoEnd(p, st, b, committed, ok))
    ensures LossShows(p) ==> LossShows(DoEnd(p, st, b, committed, ok))
    ensures Flagged(failed0, p.errs, p.failed) ==> Flagged(failed0, DoEnd(p, st, b, committed, ok).errs, DoEnd(p, st, b, committed, ok).failed)
  {
    hide Commit, Report, MarkGuard;
    var p' := DoEnd(p, st, b, committed, ok);
    assert !ok ==> p'.failed[b];
    assert forall c | 0 <= c < |p.failed| && p.failed[c] :: p'.failed[c];
  }

  /** A bucket that rolled back, and so reported an error. */
  lemma RollbackInv(db: Db, job: Job, failed0: seq<bool>, p: Progress, b: nat)
    requires Inv(db, job, failed0, p) && b in StateOf(db, job, p).taken && b < job.k
    ensures Inv(db, job, failed0, DoEnd(p, StateOf(db, job, p), b, false, false))
    ensures StateOf(db, job, DoEnd(p, StateOf(db, job, p), b, false, false)) == RunEvent(job, StateOf(db, job, p), End(b, false))
  {
    hide Placed, Solvent, Counted, Told, RunEvents, Feasible;
    var st := StateOf(db, job, p);
    Extend(db, job, p, End(b, false));
    EndPlaced(job, failed0, st, p, b, false, false);
    Unmoved(db, job, st, RunEvent(job, st, End(b, false)), p, DoEnd(p, st, b, false, false));
  }

  // ------------------------------------------------------- a commit

  /** What makes a bucket's transaction ready to be committed. */
  ghost predicate Ready(d: Db, k: nat, b: nat, t: Txn)
    requires k > 0
  {
    MarkGuard(d, t) && Within(d, k, b, t) && Covered(d, t)
  }

  lemma InvReady(db: Db, job: Job, failed0: seq<bool>, p: Progress, b: nat)
    requires Inv(db, job, failed0, p) && b in StateOf(db, job, p).taken
    ensures b < job.k && Ready(StateOf(db, job, p).db, job.k, b, StateOf(db, job, p).taken[b])
    ensures WellFormed(StateOf(db, job, p).db)
  {
    hide Good, Feasible, RunEvents, WellFormed, Ready;
    AlwaysReady(db, job, p, b);
  }

  lemma AlwaysReady(db: Db, job: Job, p: Progress, b: nat)
    requires Running(db, job, p) && WellFormed(db) && b in StateOf(db, job, p).taken
    ensures b < job.k && Ready(StateOf(db, job, p).db, job.k, b, StateOf(db, job, p).taken[b])
    ensures WellFormed(StateOf(db, job, p).db)
  {
    var st, limits := StateOf(db, job, p), Limits(p.evs);
    RunTracks(db, job, p.evs);
    GuardPasses(db, job, st, limits, b);
    assert Tracks(db, job, st, limits, b);
    FetchCovered(db, job.lane, limits[b], job.k, b, job.now);
    CoveredGrows(db, st.db, st.taken[b]);
  }

  lemma CommitSolvent(db: Db, d: Db, t: Txn)
    requires Solvent(db, d) && MarkGuard(d, t) && Covered(d, t)
    ensures Solvent(db, Commit(d, t))
  {
    hide Equity;
    forall u | u in db.balances ensures Equity(Commit(d, t), u) == Equity(db, u) { CommitEquity(d, t, u); }
  }

  lemma CommitBilled(d: Db, t: Txn)
    requires MarkGuard(d, t)
    ensures |Commit(d, t).billed| == |d.billed| + |t.batch|
  {
  }

  /** A report names exactly the users whose balance the commit changed, with their new balances. */
  lemma ReportTrue(d: Db, k: nat, b: nat, t: Txn)
    requires k > 0 && Within(d, k, b, t)
    ensures TruePairs(Report(d, t).balances, Commit(d, t))
    ensures forall i | 0 <= i < |Report(d, t).balances| :: Report(d, t).balances[i].user % k == b
  {
    hide Spill, Commit, BalancePairs;
    CommitShape(d, t);
    var users := Ascending(ChargedUsers(d, t));
    PairsOfUsers(users, Commit(d, t));
    forall i | 0 <= i < |users| ensures users[i] % k == b {
      assert users[i] in ChargedUsers(d, t);
      SpillLocal(d, d, k, b, t, users[i]);
    }
  }

  lemma PairsOfUsers(users: seq<nat>, d: Db)
    requires forall u | u in users :: u in d.balances
    ensures |BalancePairs(users, d)| == |users| && TruePairs(BalancePairs(users, d), d)
    ensures forall i | 0 <= i < |users| :: BalancePairs(users, d)[i].user == users[i]
  {
  }

  lemma ReportComplete(d: Db, t: Txn, u: nat)
    requires u in d.balances && Commit(d, t).balances[u] != d.balances[u]
    ensures Mentions(Report(d, t).balances, u)
  {
    hide Spill;
    var users := Ascending(ChargedUsers(d, t));
    assert u in ChargedUsers(d, t);
    var i :| 0 <= i < |users| && users[i] == u;
    assert Report(d, t).balances[i].user == u;
  }

  /** Balances of other buckets' users survive a commit. */
  lemma PairsSurvive(pairs: seq<UserBalance>, d: Db, k: nat, b: nat, t: Txn)
    requires k > 0 && TruePairs(pairs, d) && Within(d, k, b, t)
    requires forall i | 0 <= i < |pairs| :: pairs[i].user % k != b
    ensures TruePairs(pairs, Commit(d, t))
  {
    forall i | 0 <= i < |pairs| ensures pairs[i].balance == Commit(d, t).balances[pairs[i].user] {
      CommitElsewhere(d, k, b, t, pairs[i].user % k);
    }
  }

  lemma TotalExtends(p: Progress, part: Summary)
    ensures MergeAll(p.parts + [part]) == Merge(Total(p), part)
  {
    assert (p.parts + [part])[..|p.parts|] == p.parts;
  }

  /** Two lists of pairs, told about one commit after another. */
  lemma JoinPairs(db: Db, d: Db, d': Db, pairs: seq<UserBalance>, more: seq<UserBalance>, k: nat, b: nat, order: seq<nat>, lost: bool)
    requires k > 0 && d.balances.Keys == db.balances.Keys == d'.balances.Keys
    requires TruePairs(pairs, d') && TruePairs(more, d')
    requires (forall i | 0 <= i < |pairs| :: pairs[i].user % k in order) && (forall i | 0 <= i < |more| :: more[i].user % k == b)
    requires !lost ==> forall u | u in db.balances && d.balances[u] != db.balances[u] :: Mentions(pairs, u)
    requires forall u | u in d.balances && d'.balances[u] != d.balances[u] :: Mentions(more, u)
    ensures TruePairs(pairs + more, d')
    ensures forall i | 0 <= i < |pairs + more| :: (pairs + more)[i].user % k in order + [b]
    ensures !lost ==> forall u | u in db.balances && d'.balances[u] != db.balances[u] :: Mentions(pairs + more, u)
  {
    forall u | u in db.balances && d'.balances[u] != db.balances[u] && !lost ensures Mentions(pairs + more, u) {
      JoinMentions(pairs, more, u);
    }
  }

  lemma CommitTold(db: Db, job: Job, st: LaneState, p: Progress, b: nat, ok: bool)
    requires job.k > 0 && |p.failed| == job.k && Told(db, job, st, p) && b in st.taken && b < job.k && b !in p.order
    requires Ready(st.db, job.k, b, st.taken[b]) && st.db.balances.Keys == db.balances.Keys
    ensures Told(db, job, RunEvent(job, st, End(b, true)), DoEnd(p, st, b, true, ok))
  {
    hide Commit, Report, MergeAll, Mentions, TruePairs, Covered;
    var t, pairs := st.taken[b], Total(p).balances;
    PairsSurvive(pairs, st.db, job.k, b, t);
    CommitShape(st.db, t);
    if ok {
      ReportTrue(st.db, job.k, b, t);
      forall u | u in st.db.balances && Commit(st.db, t).balances[u] != st.db.balances[u] ensures Mentions(Report(st.db, t).balances, u) {
        ReportComplete(st.db, t, u);
      }
      TotalExtends(p, Report(st.db, t));
      JoinPairs(db, st.db, Commit(st.db, t), pairs, Report(st.db, t).balances, job.k, b, p.order, p.lost);
    }
  }

  lemma JoinMentions(a: seq<UserBalance>, b: seq<UserBalance>, u: nat)
    ensures Mentions(a + b, u) <==> Mentions(a, u) || Mentions(b, u)
  {
    if i :| 0 <= i < |a| && a[i].user == u { assert (a + b)[i].user == u; }
    if j :| 0 <= j < |b| && b[j].user == u { assert (a + b)[|a| + j].user == u; }
  }

  lemma CommitCounted(db: Db, job: Job, st: LaneState, p: Progress, b: nat, ok: bool)
    requires |p.failed| == job.k && Counted(db, st, p) && b in st.taken && b < job.k && b !in p.order && b !in st.reports
    requires MarkGuard(st.db, st.taken[b])
    ensures Counted(db, RunEvent(job, st, End(b, true)), DoEnd(p, st, b, true, ok))
  {
    hide Commit, Report, MarkGuard, MergeAll;
    CommitBilled(st.db, st.taken[b]);
    ReportMarks(st.db, st.taken[b]);
    if ok { TotalExtends(p, Report(st.db, st.taken[b])); }
  }

  lemma ReportMarks(d: Db, t: Txn)
    ensures Report(d, t).marked == |t.batch|
  {}

  /** A bucket that committed, whatever its caller was told. */
  lemma CommitInv(db: Db, job: Job, failed0: seq<bool>, p: Progress, b: nat, ok: bool)
    requires Inv(db, job, failed0, p) && b in StateOf(db, job, p).taken && b < job.k
    ensures MarkGuard(StateOf(db, job, p).db, StateOf(db, job, p).taken[b])
    ensures Inv(db, job, failed0, DoEnd(p, StateOf(db, job, p), b, true, ok))
    ensures StateOf(db, job, DoEnd(p, StateOf(db, job, p), b, true, ok)) == RunEvent(job, StateOf(db, job, p), End(b, true))
  {
    hide RunEvents, Feasible, Counted, Told, Covered, Within, MarkGuard, Commit, Report;
    var st := StateOf(db, job, p);
    AlwaysReady(db, job, p, b);
    Extend(db, job, p, End(b, true));
    NotReportedYet(db, job, p, b);
    EndPlaced(job, failed0, st, p, b, true, ok);
    CommitSolvent(db, st.db, st.taken[b]);
    CommitCounted(db, job, st, p, b, ok);
    CommitTold(db, job, st, p, b, ok);
  }

  /** Either way, in the terms of a caller that keeps the running total, the flags and the open transactions. */
  lemma EndInv(db: Db, job: Job, failed0: seq<bool>, p: Progress, b: nat, committed: bool, ok: bool)
    requires Inv(db, job, failed0, p) && b in StateOf(db, job, p).taken && b < job.k && (ok ==> committed)
    ensures var st, p' := StateOf(db, job, p), DoEnd(p, StateOf(db, job, p), b, committed, ok);
      && Running(db, job, p') && Inv(db, job, failed0, p')
      && p'.waiting == p.waiting && p'.evs == p.evs + [End(b, committed)]
      && StateOf(db, job, p').taken == st.taken - {b}
      && StateOf(db, job, p').db == (if committed then Commit(st.db, st.taken[b]) else st.db)
      && p'.failed == (if ok then p.failed else p.failed[b := true]) && p'.errs == (if ok then p.errs else p.errs + [b])
      && Total(p') == (if ok then Merge(Total(p), Report(st.db, st.taken[b])) else Total(p))
  {
    hide Good, RunEvents, Feasible, Commit, Report, MergeAll, Merge;
    if committed { CommitInv(db, job, failed0, p, b, ok); } else { RollbackInv(db, job, failed0, p, b); }
    TotalExtends(p, Report(StateOf(db, job, p).db, StateOf(db, job, p).taken[b]));
  }

  lemma NotReportedYet(db: Db, job: Job, p: Progress, b: nat)
    requires Running(db, job, p) && WellFormed(db) && b in StateOf(db, job, p).taken
    ensures b !in StateOf(db, job, p).over && b !in StateOf(db, job, p).reports
  {
    RunTracks(db, job, p.evs);
    var st := StateOf(db, job, p);
    assert b < job.k && Tracks(db, job, st, Limits(p.evs), b);
  }

  // ------------------------------------------------------- a finished lane

  ghost predicate PositiveLimits(evs: seq<Event>) {
    forall i | 0 <= i < |evs| && evs[i].Begin? :: evs[i].limit > 0
  }

  lemma {:induction false} LimitsPositive(evs: seq<Event>)
    requires PositiveLimits(evs)
    ensures forall b | b in Limits(evs) :: Limits(evs)[b] > 0
  {
    if evs != [] { LimitsPositive(evs[..|evs| - 1]); }
  }

  lemma NoRowsNoTakes(db: Db, now: int)
    ensures Takes(db, {}, now) == map[]
  {
    hide TakeOf;
    forall c | c in db.credits ensures TakeOf(db, {}, now, c) <= 0 {
      NoTakeOutside(db, 1, 1, {}, now, c);
    }
  }

  lemma NullCommit(db: Db, k: nat, b: nat)
    requires k > 0
    ensures Agree(Commit(db, Txn({}, map[])), db, k, b)
  {
    var t := Txn({}, map[]);
    assert Drawn(db, t) == {};
    forall u: nat ensures Spill(db, t, u) == 0 {
      SumZero({}, CostFn(db.rows, u));
      SumZero({}, TakeFn(db, t.takes, u));
    }
    hide Spill;
  }

  /** A statement that selects no rows takes no credits and changes nothing. */
  lemma EmptyCommit(db: Db, job: Job, limit: nat, b: nat)
    requires job.k > 0 && Fetch(db, job.lane, limit, job.k, b, job.now).batch == {}
    ensures Agree(Commit(db, Fetch(db, job.lane, limit, job.k, b, job.now)), db, job.k, b)
    ensures limit > 0 ==> EligibleIds(db, job.lane, job.k, b, job.now) == {}
  {
    hide Agree, Commit, Takes, EligibleIds, Window;
    WindowCount(EligibleIds(db, job.lane, job.k, b, job.now), limit);
    NoRowsNoTakes(db, job.now);
    NullCommit(db, job.k, b);
  }

  /** A lane that marked nothing had nothing to mark in the buckets that did not fail, and left them as they were. */
  lemma IdleBucket(db: Db, job: Job, failed0: seq<bool>, p: Progress, b: nat)
    requires Inv(db, job, failed0, p) && PositiveLimits(p.evs)
    requires p.waiting == {} && StateOf(db, job, p).taken == map[]
    requires Total(p).marked == 0 && b < job.k && !p.failed[b]
    ensures EligibleIds(db, job.lane, job.k, b, job.now) == {}
    ensures Agree(StateOf(db, job, p).db, db, job.k, b)
  {
    var st, limits := StateOf(db, job, p), Limits(p.evs);
    RunTracks(db, job, p.evs);
    LimitsPositive(p.evs);
    assert Tracks(db, job, st, limits, b);
    hide Tracks, Agree, RunEvents, Feasible;
    assert b in p.order;
    var i :| 0 <= i < |p.order| && p.order[i] == b;
    assert p.parts[i] == Report(db, TxnOf(db, job, limits, b)) && p.parts[i].marked == 0;
    EmptyCommit(db, job, limits[b], b);
    AgreeTransitive(st.db, Commit(db, TxnOf(db, job, limits, b)), db, job.k, b);
  }

  lemma {:induction false} EventsSeen(db: Db, job: Job, evs: seq<Event>)
    requires Feasible(job, Start(db), evs)
    ensures forall i | 0 <= i < |evs| ::
              evs[i].bucket in RunEvents(job, Start(db), evs).taken || evs[i].bucket in RunEvents(job, Start(db), evs).over
  {
    if evs != [] {
      var rest := evs[..|evs| - 1];
      EventsSeen(db, job, rest);
      hide Fetch, Commit, Report;
      assert forall i | 0 <= i < |evs| - 1 :: evs[i] == rest[i];
    }
  }

  /** A bucket that failed earlier in the cycle is not tried again. */
  lemma FailedBucketSkipped(db: Db, job: Job, failed0: seq<bool>, p: Progress, i: nat)
    requires Inv(db, job, failed0, p) && i < |p.evs| && p.evs[i].bucket < job.k
    ensures !failed0[p.evs[i].bucket]
  {
    EventsSeen(db, job, p.evs);
  }
}
