/** Many instances draining one ledger. Every instance runs cycles of lanes under a cluster-wide
    session lock, each lane settles its buckets concurrently, and the rest of the system goes on
    adding rows, paying money in and granting credits. A settlement is two steps, `Fetch` and
    `Commit` or `Rollback`, with anything in between. The session holding the lock may also die
    while its other connections live on (`DropLock`). */
module LedgerRuns {
  import opened Options
  import opened Sums
  import opened Ledger

  datatype Worker =
    | Idle
    | Settling(lane: Lane, started: set<nat>, open: map<nat, Txn>)
    | Sweeping(found: set<nat>)

  /** `paidIn` is what outside steps have put into each account, `commits` the batches marked so far. */
  datatype World = World(
    db: Db, now: int, lock: Option<nat>, workers: map<nat, Worker>,
    paidIn: map<nat, int>, commits: seq<set<nat>>)

  datatype Step =
    | Acquire(w: nat)
    | FetchBucket(w: nat, bucket: nat, limit: nat)
    | CommitBucket(w: nat, bucket: nat)
    | Rollback(w: nat, bucket: nat)
    | Replay(w: nat, bucket: nat, limit: nat)
    | NextLane(w: nat)
    | SweepFetch(w: nat, limit: nat)
    | SweepMark(w: nat)
    | NextRound(w: nat)
    | Release(w: nat)
    | DropLock
    | Arrive(id: nat, row: Row)
    | Register(user: nat, balance: int)
    | TopUp(user: nat, amount: int)
    | Grant(cid: nat, credit: Credit)
    | Adjust(cid: nat, amount: int)
    | Tick(to: int)

  predicate Open(s: World, w: nat, b: nat) {
    w in s.workers && s.workers[w].Settling? && b in s.workers[w].open
  }

  predicate Resting(s: World, w: nat) {
    w in s.workers && (s.workers[w].Sweeping? || (s.workers[w].Settling? && s.workers[w].open == map[]))
  }

  predicate Enabled(s: World, step: Step) {
    match step
    case Acquire(w) => w in s.workers && s.workers[w].Idle? && s.lock.None?
    case FetchBucket(w, b, _) => w in s.workers && s.workers[w].Settling? && b < K && b !in s.workers[w].started
    case CommitBucket(w, b) => Open(s, w, b) && MarkGuard(s.db, s.workers[w].open[b])
    case Rollback(w, b) => Open(s, w, b)
    case Replay(w, b, _) => Open(s, w, b) && b < K && !MarkGuard(s.db, s.workers[w].open[b])
    case NextLane(w) => Resting(s, w) && s.workers[w].Settling?
    case SweepFetch(w, _) => w in s.workers && s.workers[w].Sweeping?
    case SweepMark(w) => w in s.workers && s.workers[w].Sweeping?
    case NextRound(w) => w in s.workers && s.workers[w].Sweeping?
    case Release(w) => Resting(s, w)
    case DropLock => s.lock.Some?
    case Arrive(id, _) => id !in s.db.rows
    case Register(u, _) => u !in s.db.balances && forall id | id in s.db.rows :: s.db.rows[id].user != u
    case TopUp(u, _) => u in s.db.balances && u in s.paidIn
    case Grant(c, credit) => c !in s.db.credits && credit.amount >= 0
    case Adjust(c, amount) => c in s.db.credits && amount >= 0
    case Tick(to) => s.now <= to
  }

  function SetOpen(s: World, w: nat, b: nat, t: Txn): World
    requires w in s.workers && s.workers[w].Settling?
  {
    var me := s.workers[w];
    s.(workers := s.workers[w := me.(started := me.started + {b}, open := me.open[b := t])])
  }

  function DropOpen(s: World, w: nat, b: nat): World
    requires w in s.workers && s.workers[w].Settling?
  {
    var me := s.workers[w];
    s.(workers := s.workers[w := me.(open := me.open - {b})])
  }

  /** Money that reaches account `u` from outside. */
  function Pay(paidIn: map<nat, int>, u: nat, amount: int): map<nat, int> {
    if u in paidIn then paidIn[u := paidIn[u] + amount] else paidIn
  }

  function Next(s: World, step: Step): World
    requires Enabled(s, step)
  {
    match step
    case Acquire(w) => s.(lock := Some(w), workers := s.workers[w := Settling(BalanceLane, {}, map[])])
    case FetchBucket(w, b, limit) => SetOpen(s, w, b, Fetch(s.db, s.workers[w].lane, limit, K, b, s.now))
    case CommitBucket(w, b) =>
      var t := s.workers[w].open[b];
      DropOpen(s, w, b).(db := Commit(s.db, t), commits := s.commits + [t.batch])
    case Rollback(w, b) => DropOpen(s, w, b)
    case Replay(w, b, limit) => SetOpen(s, w, b, Fetch(s.db, s.workers[w].lane, limit, K, b, s.now))
    case NextLane(w) =>
      s.(workers := s.workers[w := if s.workers[w].lane.BalanceLane? then Settling(FefoLane, {}, map[]) else Sweeping({})])
    case SweepFetch(w, limit) => s.(workers := s.workers[w := Sweeping(FreeRows(s.db, limit))])
    case SweepMark(w) =>
      var found := s.workers[w].found;
      s.(db := Mark(s.db, found), commits := s.commits + [found * Unbilled(s.db)], workers := s.workers[w := Sweeping({})])
    case NextRound(w) => s.(workers := s.workers[w := Settling(BalanceLane, {}, map[])])
    case Release(w) => s.(lock := if s.lock == Some(w) then None else s.lock, workers := s.workers[w := Idle])
    case DropLock => s.(lock := None)
    case Arrive(id, row) => s.(db := s.db.(rows := s.db.rows[id := row]))
    case Register(u, balance) =>
      var db := s.db.(balances := s.db.balances[u := balance]);
      s.(db := db, paidIn := s.paidIn[u := Holdings(db, u)])
    case TopUp(u, amount) =>
      s.(db := s.db.(balances := s.db.balances[u := s.db.balances[u] + amount]), paidIn := Pay(s.paidIn, u, amount))
    case Grant(c, credit) =>
      s.(db := s.db.(credits := s.db.credits[c := credit]), paidIn := Pay(s.paidIn, credit.user, credit.amount))
    case Adjust(c, amount) =>
      var old_ := s.db.credits[c];
      s.(db := s.db.(credits := s.db.credits[c := old_.(amount := amount)]),
         paidIn := Pay(s.paidIn, old_.user, amount - old_.amount))
    case Tick(to) => s.(now := to)
  }

  // ------------------------------------------------------- safety that needs no lock

  ghost predicate Accounted(s: World) {
    && s.paidIn.Keys == s.db.balances.Keys
    && forall u | u in s.db.balances :: s.paidIn[u] == Equity(s.db, u)
  }

  /** Every billed row is in exactly one committed batch. */
  ghost predicate MarkedOnce(s: World) {
    && (forall i, j | 0 <= i < j < |s.commits| :: s.commits[i] !! s.commits[j])
    && (forall id :: id in s.db.billed <==> exists i | 0 <= i < |s.commits| :: id in s.commits[i])
  }

  ghost predicate InFlightCovered(s: World) {
    && (forall w, b | Open(s, w, b) :: Covered(s.db, s.workers[w].open[b]))
    && (forall w | w in s.workers && s.workers[w].Sweeping? :: Free(s.db, s.workers[w].found))
  }

  ghost predicate Safe(s: World) {
    WellFormed(s.db) && Accounted(s) && MarkedOnce(s) && InFlightCovered(s)
  }

  lemma InFlightGrows(s: World, s': World)
    requires InFlightCovered(s) && s'.workers == s.workers && Grows(s.db, s'.db)
    ensures InFlightCovered(s')
  {
    forall w, b | Open(s', w, b) ensures Covered(s'.db, s'.workers[w].open[b]) {
      assert Open(s, w, b);
      CoveredGrows(s.db, s'.db, s.workers[w].open[b]);
    }
  }

  lemma FetchSafe(s: World, w: nat, b: nat, limit: nat)
    requires Safe(s) && w in s.workers && s.workers[w].Settling? && b < K
    ensures Safe(SetOpen(s, w, b, Fetch(s.db, s.workers[w].lane, limit, K, b, s.now)))
  {
    hide Covered, Fetch, Equity;
    FetchCovered(s.db, s.workers[w].lane, limit, K, b, s.now);
    var s' := SetOpen(s, w, b, Fetch(s.db, s.workers[w].lane, limit, K, b, s.now));
    assert forall v, c | Open(s', v, c) :: Open(s, v, c) || (v == w && c == b);
  }

  lemma DropSafe(s: World, w: nat, b: nat)
    requires Safe(s) && Open(s, w, b)
    ensures Safe(DropOpen(s, w, b))
  {
    var s' := DropOpen(s, w, b);
    assert forall v, c | Open(s', v, c) :: Open(s, v, c) && s'.workers[v].open[c] == s.workers[v].open[c];
  }

  /** One more batch, disjoint from everything billed before. */
  lemma MarkOnce(s: World, s': World, batch: set<nat>)
    requires MarkedOnce(s) && batch !! s.db.billed
    requires s'.commits == s.commits + [batch] && s'.db.billed == s.db.billed + batch
    ensures MarkedOnce(s')
  {
    forall i, j | 0 <= i < j < |s'.commits| ensures s'.commits[i] !! s'.commits[j] {
      if j == |s.commits| {
        forall id | id in s.commits[i] ensures id in s.db.billed {}
      }
    }
    forall id ensures id in s'.db.billed <==> exists i | 0 <= i < |s'.commits| :: id in s'.commits[i] {
      if id in s.db.billed {
        var i :| 0 <= i < |s.commits| && id in s.commits[i];
        assert id in s'.commits[i];
      } else if id in batch {
        assert id in s'.commits[|s.commits|];
      }
    }
  }

  lemma CommitAccounted(s: World, s': World, t: Txn)
    requires Accounted(s) && MarkGuard(s.db, t) && Covered(s.db, t)
    requires s'.db == Commit(s.db, t) && s'.paidIn == s.paidIn
    ensures Accounted(s')
  {
    hide Equity;
    forall u | u in s.db.balances ensures Equity(s'.db, u) == Equity(s.db, u) {
      CommitEquity(s.db, t, u);
    }
  }

  lemma CommitSafe(s: World, w: nat, b: nat)
    requires Safe(s) && Enabled(s, CommitBucket(w, b))
    ensures Safe(Next(s, CommitBucket(w, b)))
  {
    var t := s.workers[w].open[b];
    var s' := Next(s, CommitBucket(w, b));
    CommitAccounted(s, s', t);
    DropSafe(s, w, b);
    CommitWellFormed(s.db, t);
    InFlightGrows(DropOpen(s, w, b), s');
    MarkOnce(s, s', t.batch);
  }

  lemma SweepAccounted(s: World, s': World, ids: set<nat>)
    requires Accounted(s) && Free(s.db, ids) && s'.db == Mark(s.db, ids) && s'.paidIn == s.paidIn
    ensures Accounted(s')
  {
    hide Equity;
    forall u | u in s'.db.balances ensures s'.paidIn[u] == Equity(s'.db, u) { MarkEquity(s.db, ids, u); }
  }

  lemma SweepSafe(s: World, w: nat)
    requires Safe(s) && Enabled(s, SweepMark(w))
    ensures Safe(Next(s, SweepMark(w)))
  {
    hide Equity;
    var found := s.workers[w].found;
    var s1, s' := s.(workers := s.workers[w := Sweeping({})]), Next(s, SweepMark(w));
    SweepAccounted(s, s', found);
    assert InFlightCovered(s1) by {
      assert forall v, c | Open(s1, v, c) :: Open(s, v, c) && s1.workers[v] == s.workers[v];
    }
    InFlightGrows(s1, s');
    MarkOnce(s, s', found * Unbilled(s.db));
  }

  lemma ArriveEquity(db: Db, db': Db, id: nat, u: nat)
    requires id !in db.rows && id in db'.rows && db' == db.(rows := db.rows[id := db'.rows[id]])
    requires db.billed <= db.rows.Keys && u in db.balances
    ensures Equity(db', u) == Equity(db, u)
  {
    SumExt(db.billed, CostFn(db.rows, u), CostFn(db'.rows, u));
    SumExt(db.credits.Keys, CreditFn(db, u), CreditFn(db', u));
  }

  lemma ArriveSafe(s: World, id: nat, row: Row)
    requires Safe(s) && Enabled(s, Arrive(id, row))
    ensures Safe(Next(s, Arrive(id, row)))
  {
    hide Equity;
    var s' := Next(s, Arrive(id, row));
    InFlightGrows(s, s');
    forall u | u in s'.db.balances ensures s'.paidIn[u] == Equity(s'.db, u) {
      ArriveEquity(s.db, s'.db, id, u);
    }
  }

  lemma RegisterEquity(db: Db, db': Db, u: nat, v: nat)
    requires u in db'.balances && db' == db.(balances := db.balances[u := db'.balances[u]])
    requires u !in db.balances && forall id | id in db.rows :: db.rows[id].user != u
    requires v in db'.balances
    ensures v == u ==> Equity(db', v) == Holdings(db', v)
    ensures v != u ==> Equity(db', v) == Equity(db, v)
  {
    SumExt(db.credits.Keys, CreditFn(db, v), CreditFn(db', v));
    if v == u { SumZero(db.billed, CostFn(db.rows, u)); }
  }

  lemma RegisterSafe(s: World, u: nat, balance: int)
    requires Safe(s) && Enabled(s, Register(u, balance))
    ensures Safe(Next(s, Register(u, balance)))
  {
    hide Equity, Holdings;
    var s' := Next(s, Register(u, balance));
    InFlightGrows(s, s');
    forall v | v in s'.db.balances ensures s'.paidIn[v] == Equity(s'.db, v) {
      RegisterEquity(s.db, s'.db, u, v);
    }
  }

  lemma TopUpEquity(db: Db, db': Db, u: nat)
    requires u in db.balances && u in db'.balances && db' == db.(balances := db'.balances)
    ensures Equity(db', u) - Equity(db, u) == db'.balances[u] - db.balances[u]
  {
    SumExt(db.credits.Keys, CreditFn(db, u), CreditFn(db', u));
  }

  lemma TopUpAccounted(s: World, u: nat, amount: int)
    requires Accounted(s) && Enabled(s, TopUp(u, amount))
    ensures Accounted(Next(s, TopUp(u, amount)))
  {
    hide Equity;
    var s' := Next(s, TopUp(u, amount));
    forall v | v in s'.db.balances ensures s'.paidIn[v] == Equity(s'.db, v) {
      TopUpEquity(s.db, s'.db, v);
    }
  }

  lemma TopUpSafe(s: World, u: nat, amount: int)
    requires Safe(s) && Enabled(s, TopUp(u, amount))
    ensures Safe(Next(s, TopUp(u, amount)))
  {
    TopUpAccounted(s, u, amount);
    InFlightGrows(s, Next(s, TopUp(u, amount)));
  }

  /** Rewriting one credit changes its owner's holdings by the difference and nobody else's. */
  lemma CreditEdit(db: Db, db': Db, c: nat, u: nat)
    requires c in db'.credits && db' == db.(credits := db.credits[c := db'.credits[c]])
    requires c in db.credits ==> db'.credits[c].user == db.credits[c].user
    requires u in db.balances
    ensures Equity(db', u) - Equity(db, u) == CreditFn(db', u)(c) - CreditFn(db, u)(c)
  {
    var rest := db.credits.Keys - {c};
    SumExt(rest, CreditFn(db, u), CreditFn(db', u));
    SumPick(db'.credits.Keys, CreditFn(db', u), c);
    assert db'.credits.Keys - {c} == rest;
    if c in db.credits {
      SumPick(db.credits.Keys, CreditFn(db, u), c);
    } else {
      assert rest == db.credits.Keys;
    }
  }

  lemma CreditAccounted(s: World, s': World, c: nat, user: nat, gain: int)
    requires Accounted(s)
    requires c in s'.db.credits && s'.db == s.db.(credits := s.db.credits[c := s'.db.credits[c]])
    requires c in s.db.credits ==> s'.db.credits[c].user == s.db.credits[c].user
    requires user == s'.db.credits[c].user && gain == CreditFn(s'.db, user)(c) - CreditFn(s.db, user)(c)
    requires s'.paidIn == Pay(s.paidIn, user, gain)
    ensures Accounted(s')
  {
    hide Equity;
    forall v | v in s.db.balances ensures s'.paidIn[v] == Equity(s'.db, v) {
      CreditEdit(s.db, s'.db, c, v);
    }
  }

  lemma GrantSafe(s: World, c: nat, credit: Credit)
    requires Safe(s) && Enabled(s, Grant(c, credit))
    ensures Safe(Next(s, Grant(c, credit)))
  {
    var s' := Next(s, Grant(c, credit));
    CreditAccounted(s, s', c, credit.user, credit.amount);
    InFlightGrows(s, s');
  }

  lemma AdjustAccounted(s: World, c: nat, amount: int)
    requires Accounted(s) && Enabled(s, Adjust(c, amount))
    ensures Accounted(Next(s, Adjust(c, amount)))
  {
    hide Equity;
    var s', user := Next(s, Adjust(c, amount)), s.db.credits[c].user;
    assert s'.db.credits[c] == s.db.credits[c].(amount := amount);
    assert CreditFn(s'.db, user)(c) == amount && CreditFn(s.db, user)(c) == s.db.credits[c].amount;
    CreditAccounted(s, s', c, user, amount - s.db.credits[c].amount);
  }

  lemma AdjustSafe(s: World, c: nat, amount: int)
    requires Safe(s) && Enabled(s, Adjust(c, amount))
    ensures Safe(Next(s, Adjust(c, amount)))
  {
    AdjustAccounted(s, c, amount);
    InFlightGrows(s, Next(s, Adjust(c, amount)));
  }

  /** Steps that touch only a worker's own state, the lock or the clock. */
  predicate Quiet(step: Step) {
    step.Acquire? || step.NextLane? || step.SweepFetch? || step.NextRound? || step.Release? || step.DropLock? || step.Tick?
  }

  lemma QuietInFlight(s: World, step: Step)
    requires InFlightCovered(s) && Enabled(s, step) && Quiet(step)
    ensures InFlightCovered(Next(s, step))
  {
    hide Covered, FreeRows, Fetch, Commit, Mark;
    var s' := Next(s, step);
    if step.SweepFetch? { FreeRowsAreFree(s.db, step.limit); }
    assert forall v, c | Open(s', v, c) :: Open(s, v, c) && s'.workers[v] == s.workers[v];
  }

  lemma FreeRowsAreFree(db: Db, limit: nat)
    ensures Free(db, FreeRows(db, limit))
  {}

  lemma QuietSafe(s: World, step: Step)
    requires Safe(s) && Enabled(s, step) && Quiet(step)
    ensures Safe(Next(s, step))
  {
    hide Equity;
    var s' := Next(s, step);
    QuietInFlight(s, step);
    assert s'.db == s.db && s'.paidIn == s.paidIn && s'.commits == s.commits;
    assert Accounted(s') && MarkedOnce(s');
  }

  lemma StepSafe(s: World, step: Step)
    requires Safe(s) && Enabled(s, step)
    ensures Safe(Next(s, step)) && s.db.billed <= Next(s, step).db.billed
  {
    match step
    case FetchBucket(w, b, limit) => FetchSafe(s, w, b, limit);
    case Replay(w, b, limit) => FetchSafe(s, w, b, limit);
    case CommitBucket(w, b) => CommitSafe(s, w, b);
    case Rollback(w, b) => DropSafe(s, w, b);
    case SweepMark(w) => SweepSafe(s, w);
    case Arrive(id, row) => ArriveSafe(s, id, row);
    case Register(u, balance) => RegisterSafe(s, u, balance);
    case TopUp(u, amount) => TopUpSafe(s, u, amount);
    case Grant(c, credit) => GrantSafe(s, c, credit);
    case Adjust(c, amount) => AdjustSafe(s, c, amount);
    case _ => QuietSafe(s, step);
  }

  // ------------------------------------------------------- what the lock, the lanes and the buckets add

  /** The rows an open settlement of bucket `b` holds: unbilled, paid for, and of that bucket's users. */
  ghost predicate Exclusive(db: Db, b: nat, t: Txn) {
    && MarkGuard(db, t)
    && forall id | id in t.batch && id in db.rows :: db.rows[id].user % K == b && db.rows[id].cost > 0
  }

  /** Only the lock holder works, and everything it has in flight is still its own. */
  ghost predicate Locked(s: World) {
    && (forall w | w in s.workers && !s.workers[w].Idle? :: s.lock == Some(w))
    && (forall w, b | Open(s, w, b) :: b in s.workers[w].started && Exclusive(s.db, b, s.workers[w].open[b]))
    && (forall w | w in s.workers && s.workers[w].Sweeping? :: Free(s.db, s.workers[w].found))
  }

  lemma FetchExclusive(db: Db, lane: Lane, limit: nat, b: nat, now: int)
    ensures Exclusive(db, b, Fetch(db, lane, limit, K, b, now))
  {
    var ids := EligibleIds(db, lane, K, b, now);
    var batch := Window(ids, limit);
    forall id | id in batch ensures id in db.rows && id !in db.billed && db.rows[id].user % K == b && db.rows[id].cost > 0 {
      assert id in ids;
    }
  }

  lemma FetchLocked(s: World, w: nat, b: nat, limit: nat)
    requires Locked(s) && Enabled(s, FetchBucket(w, b, limit))
    ensures Locked(Next(s, FetchBucket(w, b, limit)))
  {
    var s' := Next(s, FetchBucket(w, b, limit));
    FetchExclusive(s.db, s.workers[w].lane, limit, b, s.now);
    assert forall v, c | Open(s', v, c) :: (v == w && c == b) || (Open(s, v, c) && s'.workers[v].open[c] == s.workers[v].open[c]);
  }

  /** Buckets never share a row, so one bucket's commit leaves the others' batches unbilled. */
  lemma CommitLocked(s: World, w: nat, b: nat)
    requires Locked(s) && Enabled(s, CommitBucket(w, b))
    ensures Locked(Next(s, CommitBucket(w, b)))
  {
    var s' := Next(s, CommitBucket(w, b));
    var t := s.workers[w].open[b];
    assert Open(s, w, b);
    forall v, c | Open(s', v, c)
      ensures c in s'.workers[v].started && Exclusive(s'.db, c, s'.workers[v].open[c])
    {
      assert Open(s, v, c);
      assert v == w && c != b;
      assert s'.workers[v].open[c] == s.workers[v].open[c];
      assert s'.db.billed == s.db.billed + t.batch && s'.db.rows == s.db.rows;
      assert Exclusive(s.db, c, s.workers[v].open[c]) && Exclusive(s.db, b, t);
    }
  }

  lemma SweepLocked(s: World, w: nat)
    requires Locked(s) && Enabled(s, SweepMark(w))
    ensures Locked(Next(s, SweepMark(w)))
  {
    var s' := Next(s, SweepMark(w));
    forall v: nat, c: nat ensures !Open(s', v, c) {
      if v in s.workers && !s.workers[v].Idle? { assert s.lock == Some(v); }
    }
  }

  lemma QuietLocked(s: World, step: Step)
    requires Locked(s) && Enabled(s, step) && Quiet(step) && !step.DropLock?
    ensures Locked(Next(s, step))
  {
    hide Exclusive, FreeRows, Fetch, Commit, Mark;
    var s' := Next(s, step);
    assert s'.db == s.db;
    if step.SweepFetch? { FreeRowsAreFree(s.db, step.limit); }
    assert forall v, c | Open(s', v, c) :: Open(s, v, c) && s'.workers[v] == s.workers[v];
  }

  /** Rows keep their content and nothing new is billed. */
  lemma OutsideLocked(s: World, s': World)
    requires Locked(s) && s'.workers == s.workers && s'.lock == s.lock
    requires Grows(s.db, s'.db) && s'.db.billed == s.db.billed && s.db.billed <= s.db.rows.Keys
    ensures Locked(s')
  {
    forall v, c | Open(s', v, c)
      ensures c in s'.workers[v].started && Exclusive(s'.db, c, s'.workers[v].open[c])
    {
      assert Open(s, v, c);
      assert Exclusive(s.db, c, s.workers[v].open[c]);
    }
  }

  lemma RollbackLocked(s: World, w: nat, b: nat)
    requires Locked(s) && Enabled(s, Rollback(w, b))
    ensures Locked(Next(s, Rollback(w, b)))
  {
    var s' := Next(s, Rollback(w, b));
    assert forall v, c | Open(s', v, c) :: Open(s, v, c) && s'.workers[v].open[c] == s.workers[v].open[c];
  }

  lemma StepLocked(s: World, step: Step)
    requires Locked(s) && WellFormed(s.db) && Enabled(s, step) && !step.DropLock?
    ensures Locked(Next(s, step))
  {
    match step
    case FetchBucket(w, b, limit) => FetchLocked(s, w, b, limit);
    case Replay(w, b, limit) => assert false;
    case CommitBucket(w, b) => CommitLocked(s, w, b);
    case Rollback(w, b) => RollbackLocked(s, w, b);
    case SweepMark(w) => SweepLocked(s, w);
    case Arrive(_, _) => OutsideLocked(s, Next(s, step));
    case Register(_, _) => OutsideLocked(s, Next(s, step));
    case TopUp(_, _) => OutsideLocked(s, Next(s, step));
    case Grant(_, _) => OutsideLocked(s, Next(s, step));
    case Adjust(_, _) => OutsideLocked(s, Next(s, step));
    case _ => QuietLocked(s, step);
  }

  // ------------------------------------------------------- whole runs

  ghost predicate Initial(s: World) {
    && WellFormed(s.db) && s.db.billed == {}
    && s.paidIn.Keys == s.db.balances.Keys
    && (forall u | u in s.db.balances :: s.paidIn[u] == Holdings(s.db, u))
    && s.lock.None? && s.commits == []
    && forall w | w in s.workers :: s.workers[w].Idle?
  }

  predicate Possible(s: World, steps: seq<Step>)
    decreases |steps|
  {
    steps == [] || (Enabled(s, steps[0]) && Possible(Next(s, steps[0]), steps[1..]))
  }

  function Exec(s: World, steps: seq<Step>): World
    requires Possible(s, steps)
    decreases |steps|
  {
    if steps == [] then s else Exec(Next(s, steps[0]), steps[1..])
  }

  lemma {:induction false} RunSafe(s: World, steps: seq<Step>)
    requires Safe(s) && Possible(s, steps)
    ensures Safe(Exec(s, steps)) && s.db.billed <= Exec(s, steps).db.billed
    decreases |steps|
  {
    if steps != [] {
      StepSafe(s, steps[0]);
      RunSafe(Next(s, steps[0]), steps[1..]);
    }
  }

  lemma {:induction false} RunLocked(s: World, steps: seq<Step>)
    requires Safe(s) && Locked(s) && Possible(s, steps)
    requires DropLock !in steps
    ensures Locked(Exec(s, steps))
    decreases |steps|
  {
    if steps != [] {
      assert steps[0] in steps;
      StepSafe(s, steps[0]);
      StepLocked(s, steps[0]);
      RunLocked(Next(s, steps[0]), steps[1..]);
    }
  }

  lemma InitialSafe(s: World)
    requires Initial(s)
    ensures Safe(s) && Locked(s)
  {
    forall u | u in s.db.balances ensures s.paidIn[u] == Equity(s.db, u) {
      SumZero({}, CostFn(s.db.rows, u));
    }
  }

  /** An instance's turn: it takes a free lock and starts with the balance lane, goes on to the temp lane and to the sweep, and from there
      to the balance lane again; when it stops it gives back its own lock and nobody else's. */
  lemma Turns(s: World, w: nat)
    ensures Enabled(s, Acquire(w)) ==>
              s.lock.None? && Next(s, Acquire(w)).lock == Some(w) && Next(s, Acquire(w)).workers[w] == Settling(BalanceLane, {}, map[])
    ensures Enabled(s, NextLane(w)) && s.workers[w].lane == BalanceLane ==> Next(s, NextLane(w)).workers[w] == Settling(FefoLane, {}, map[])
    ensures Enabled(s, NextLane(w)) && s.workers[w].lane == FefoLane ==> Next(s, NextLane(w)).workers[w] == Sweeping({})
    ensures Enabled(s, NextRound(w)) ==> s.workers[w].Sweeping? && Next(s, NextRound(w)).workers[w] == Settling(BalanceLane, {}, map[])
    ensures Enabled(s, Release(w)) ==>
              Next(s, Release(w)).workers[w] == Idle && Next(s, Release(w)).lock == if s.lock == Some(w) then None else s.lock
  {
    hide Commit, Fetch, Mark, FreeRows;
  }

  /** Exactly-once charging, over every run of any number of instances, even when sessions lose the
      lock: each billed row belongs to one committed batch and stays billed, and every real user has
      parted with exactly the summed cost of the user's billed rows. */
  lemma ExactlyOnce(s: World, steps: seq<Step>)
    requires Initial(s) && Possible(s, steps)
    ensures MarkedOnce(Exec(s, steps))
    ensures forall u | u in Exec(s, steps).db.balances :: u in Exec(s, steps).paidIn &&
              Exec(s, steps).paidIn[u] - Money(Exec(s, steps).db, u) == Owed(Exec(s, steps).db.rows, Exec(s, steps).db.billed, u)
  {
    hide Exec, Possible, Money, Owed, Delta, Holdings, MarkedOnce;
    InitialSafe(s);
    RunSafe(s, steps);
    var e := Exec(s, steps);
    forall u | u in e.db.balances ensures u in e.paidIn && e.paidIn[u] - Money(e.db, u) == Owed(e.db.rows, e.db.billed, u) {
      DeltaIsOwed(e.db.rows, e.db.billed, u);
      HoldingsAreMoney(e.db, u);
    }
  }

  /** While no session loses the lock, in-flight batches are pairwise disjoint and unbilled, so the
      marked-rows guard never turns a settlement away. */
  lemma InFlightDisjoint(s: World, steps: seq<Step>, v: nat, b: nat, w: nat, c: nat)
    requires Initial(s) && Possible(s, steps) && DropLock !in steps
    requires Open(Exec(s, steps), v, b) && Open(Exec(s, steps), w, c)
    ensures Enabled(Exec(s, steps), CommitBucket(v, b))
    ensures v == w
    ensures b != c ==> Exec(s, steps).workers[v].open[b].batch !! Exec(s, steps).workers[w].open[c].batch
  {
    InitialSafe(s);
    RunLocked(s, steps);
    var e := Exec(s, steps);
    assert Exclusive(e.db, b, e.workers[v].open[b]) && Exclusive(e.db, c, e.workers[w].open[c]);
  }
}
