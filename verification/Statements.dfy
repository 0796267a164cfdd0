/** The two settlement statements in the terms of their columns: which rows a batch holds, which credits are drawn, and what each
    user pays. */
module Statements {
  import opened Sums
  import opened Ledger
  import F = Fefo

  /** A credit of the user that has money left and has not expired. */
  ghost predicate HasCredit(db: Db, u: nat, now: int) {
    exists c | c in db.credits :: db.credits[c].user == u && db.credits[c].amount > 0
      && (db.credits[c].expires.None? || db.credits[c].expires.value > now)
  }

  /** What a batch may hold: unbilled rows with a cost, of the bucket's users, of users with a live credit in the temp lane and
      without one in the balance lane. */
  ghost predicate Billable(db: Db, lane: Lane, k: nat, bucket: nat, now: int, id: nat)
    requires k > 0
  {
    && id in db.rows && id !in db.billed && db.rows[id].cost > 0 && db.rows[id].user % k == bucket
    && (lane == FefoLane <==> HasCredit(db, db.rows[id].user, now))
  }

  lemma BillableIs(db: Db, lane: Lane, k: nat, bucket: nat, now: int, id: nat)
    requires k > 0
    ensures id in EligibleIds(db, lane, k, bucket, now) <==> Billable(db, lane, k, bucket, now, id)
  {}

  /** A batch is the oldest billable rows, all of them or as many as the limit. */
  lemma BatchIs(db: Db, lane: Lane, limit: nat, k: nat, bucket: nat, now: int, id: nat)
    requires k > 0
    ensures var batch := Fetch(db, lane, limit, k, bucket, now).batch;
            && |batch| <= limit
            && (id in batch ==> Billable(db, lane, k, bucket, now, id))
            && (Billable(db, lane, k, bucket, now, id) && id !in batch ==> |batch| == limit && forall j | j in batch :: j < id)
  {
    hide Billable, Window;
    var ids := EligibleIds(db, lane, k, bucket, now);
    BillableIs(db, lane, k, bucket, now, id);
    WindowCount(ids, limit);
    forall j | j in Window(ids, limit) && id in ids && id !in Window(ids, limit) ensures j < id { WindowOldest(ids, limit, id, j); }
  }

  /** First expiry first out: once a credit is drawn on, every live credit of the same user that expires sooner is drawn whole; one
      that never expires comes last. */
  lemma ExpiresFirst(db: Db, limit: nat, k: nat, bucket: nat, now: int, c: nat, x: nat)
    requires k > 0 && c in Fetch(db, FefoLane, limit, k, bucket, now).takes && x in db.credits && c in db.credits
    requires db.credits[x].user == db.credits[c].user && db.credits[x].amount > 0
    requires db.credits[x].expires.Some? && db.credits[x].expires.value > now
    requires db.credits[c].expires.None? || db.credits[x].expires.value < db.credits[c].expires.value
    ensures var takes := Fetch(db, FefoLane, limit, k, bucket, now).takes; x in takes && takes[x] == db.credits[x].amount
  {
    hide Window, EligibleIds, Delta;
    var t := Fetch(db, FefoLane, limit, k, bucket, now);
    var u := db.credits[c].user;
    PoolOrdered(db, u, now);
    F.TakeInOrder(Pool(db, u, now), AmountFn(db), ExpiryOrder(db), Delta(db.rows, t.batch, u), x, c);
  }

  /** Only live credits of users in the batch are drawn on, and none for more than it has. */
  lemma TakesAre(db: Db, lane: Lane, limit: nat, k: nat, bucket: nat, now: int, c: nat)
    requires k > 0 && c in Fetch(db, lane, limit, k, bucket, now).takes
    ensures var t := Fetch(db, lane, limit, k, bucket, now);
            && lane == FefoLane && c in db.credits && 0 < t.takes[c] <= db.credits[c].amount
            && (db.credits[c].expires.None? || db.credits[c].expires.value > now)
            && exists id | id in t.batch :: id in db.rows && db.rows[id].user == db.credits[c].user
  {
    hide Window, EligibleIds;
    var t := Fetch(db, lane, limit, k, bucket, now);
    var u := db.credits[c].user;
    TakesFit(db, t.batch, now);
    if forall id | id in t.batch :: id in db.rows ==> db.rows[id].user != u {
      NothingOwed(db, t.batch, now, u, c);
    }
  }

  lemma NothingOwed(db: Db, batch: set<nat>, now: int, u: nat, c: nat)
    requires c in db.credits && db.credits[c].user == u && forall id | id in batch :: id in db.rows ==> db.rows[id].user != u
    ensures c !in Takes(db, batch, now)
  {
    OwedNone(db.rows, batch, u);
    DeltaIsOwed(db.rows, batch, u);
    SumNonNeg(F.Ahead(Pool(db, u, now), ExpiryOrder(db), c), AmountFn(db));
  }

  // ------------------------------------------------------- what a commit costs whom

  /** A commit takes exactly the cost of the batch's rows from each real user's money. */
  lemma CommitCharges(db: Db, t: Txn, u: nat)
    requires MarkGuard(db, t) && Covered(db, t) && u in db.balances
    ensures u in Commit(db, t).balances && Money(db, u) - Money(Commit(db, t), u) == Owed(db.rows, t.batch, u)
  {
    hide Commit, Money, Owed, Delta, Holdings, Covered;
    assert u in Commit(db, t).balances by { CommitBalance(db, t, u); }
    CommitConserves(db, t, u);
    HoldingsAreMoney(db, u);
    HoldingsAreMoney(Commit(db, t), u);
    DeltaIsOwed(db.rows, t.batch, u);
  }

  lemma FetchedReady(db: Db, lane: Lane, limit: nat, k: nat, bucket: nat, now: int)
    requires k > 0
    ensures var t := Fetch(db, lane, limit, k, bucket, now); MarkGuard(db, t) && Covered(db, t)
  {
    hide Window, Takes;
    FetchCovered(db, lane, limit, k, bucket, now);
  }

  /** A settlement with a single row of a real user takes that row's cost from the user. */
  lemma OneRowCharge(db: Db, lane: Lane, limit: nat, k: nat, bucket: nat, now: int, id: nat)
    requires k > 0 && id in Fetch(db, lane, limit, k, bucket, now).batch && id in db.rows && db.rows[id].user in db.balances
    requires forall j | j in Fetch(db, lane, limit, k, bucket, now).batch && j != id && j in db.rows :: db.rows[j].user != db.rows[id].user
    ensures var u, after := db.rows[id].user, Commit(db, Fetch(db, lane, limit, k, bucket, now));
            u in after.balances && Money(db, u) - Money(after, u) == db.rows[id].cost
  {
    hide Fetch, Commit, Money, Covered;
    var t := Fetch(db, lane, limit, k, bucket, now);
    FetchedReady(db, lane, limit, k, bucket, now);
    CommitCharges(db, t, db.rows[id].user);
    BatchIs(db, lane, limit, k, bucket, now, id);
    OwedOne(db.rows, t.batch, db.rows[id].user, id);
  }

  /** A user without a row in the batch keeps the balance and every credit as they were. */
  lemma OthersUntouched(db: Db, lane: Lane, limit: nat, k: nat, bucket: nat, now: int, v: nat)
    requires k > 0 && forall j | j in Fetch(db, lane, limit, k, bucket, now).batch && j in db.rows :: db.rows[j].user != v
    ensures var after := Commit(db, Fetch(db, lane, limit, k, bucket, now));
            && (v in db.balances ==> v in after.balances && after.balances[v] == db.balances[v])
            && (forall c | c in db.credits && db.credits[c].user == v :: c in after.credits && after.credits[c] == db.credits[c])
  {
    hide Window, EligibleIds, Takes, Delta;
    var t := Fetch(db, lane, limit, k, bucket, now);
    forall c | c in db.credits && db.credits[c].user == v ensures c !in t.takes {
      if lane.FefoLane? { NothingOwed(db, t.batch, now, v, c); }
    }
    OwedNone(db.rows, t.batch, v);
    DeltaIsOwed(db.rows, t.batch, v);
    SumZero(Drawn(db, t), TakeFn(db, t.takes, v));
  }

  /** In the balance lane a real user pays from the balance, all of it and nothing else; nobody with a live credit pays. */
  lemma BalanceLanePays(db: Db, limit: nat, k: nat, bucket: nat, now: int, u: nat)
    requires k > 0 && u in db.balances
    ensures var t := Fetch(db, BalanceLane, limit, k, bucket, now);
            var after := Commit(db, t);
            && u in after.balances && after.balances[u] == db.balances[u] - Owed(db.rows, t.batch, u) && after.credits == db.credits
            && (HasCredit(db, u, now) ==> after.balances[u] == db.balances[u])
  {
    hide Fetch, Commit, Owed, HasCredit, Covered, Billable;
    var t := Fetch(db, BalanceLane, limit, k, bucket, now);
    NoTakes(db, limit, k, bucket, now);
    FetchedReady(db, BalanceLane, limit, k, bucket, now);
    DebitIs(db, t, u);
    if HasCredit(db, u, now) {
      forall j | j in t.batch && j in db.rows ensures db.rows[j].user != u {
        BatchIs(db, BalanceLane, limit, k, bucket, now, j);
        NotOfLane(db, k, bucket, now, j);
      }
      OwedNone(db.rows, t.batch, u);
    }
  }

  lemma NoTakes(db: Db, limit: nat, k: nat, bucket: nat, now: int)
    requires k > 0
    ensures Fetch(db, BalanceLane, limit, k, bucket, now).takes == map[]
  {}

  lemma DebitIs(db: Db, t: Txn, u: nat)
    requires t.takes == map[] && Covered(db, t) && u in db.balances
    ensures u in Commit(db, t).balances && Commit(db, t).balances[u] == db.balances[u] - Owed(db.rows, t.batch, u)
    ensures Commit(db, t).credits == db.credits
  {
    hide Delta, Owed, Covered;
    assert Drawn(db, t) == {};
    DeltaIsOwed(db.rows, t.batch, u);
    SumZero({}, TakeFn(db, t.takes, u));
    CommitBalance(db, t, u);
  }

  lemma NotOfLane(db: Db, k: nat, bucket: nat, now: int, id: nat)
    requires k > 0 && Billable(db, BalanceLane, k, bucket, now, id)
    ensures !HasCredit(db, db.rows[id].user, now)
  {}

  // ------------------------------------------------------- the report

  /** The real users whose balance changed, and ended below zero or not. */
  ghost function Changed(db: Db, after: Db, below: bool): set<nat> {
    set u | u in db.balances && u in after.balances && after.balances[u] != db.balances[u] && (below <==> after.balances[u] < 0)
  }

  /** The counts of a report: rows, and users whose balance changed without and with going below zero. */
  lemma ReportCounts(db: Db, t: Txn)
    requires Covered(db, t)
    ensures Report(db, t).batchRows == Report(db, t).marked == |t.batch|
    ensures Report(db, t).debitedUsers == |Changed(db, Commit(db, t), false)|
    ensures Report(db, t).forcedUsers == |Changed(db, Commit(db, t), true)|
  {
    hide Spill, Covered, BalancePairs, Ascending;
    var after := Commit(db, t);
    forall u | u in db.balances ensures u in after.balances && after.balances[u] == db.balances[u] - Spill(db, t, u) && Spill(db, t, u) >= 0 {
      CommitBalance(db, t, u);
      SpillNonNeg(db, t, u);
    }
    var all, below := ChargedUsers(db, t), ForcedUsers(db, t);
    assert below == Changed(db, after, true);
    assert all - below == Changed(db, after, false);
    assert all == (all - below) + below;
  }

  /** The user's live credits. */
  ghost function LiveCredits(db: Db, u: nat, now: int): set<nat> {
    set c | c in db.credits && db.credits[c].user == u && db.credits[c].amount > 0
      && (db.credits[c].expires.None? || db.credits[c].expires.value > now)
  }

  /** The rows of users without an account whose live credits do not pay for the user's rows in the batch. */
  ghost function Unpaid(db: Db, batch: set<nat>, now: int): set<nat> {
    set id | id in batch && id in db.rows && db.rows[id].user !in db.balances
      && Owed(db.rows, batch, db.rows[id].user) > CreditSum(db.credits, LiveCredits(db, db.rows[id].user, now), db.rows[id].user)
  }

  /** Those rows are the ones reported as charged to nobody. */
  lemma QuarantinedRows(db: Db, lane: Lane, limit: nat, k: nat, bucket: nat, now: int)
    requires k > 0
    ensures var t := Fetch(db, lane, limit, k, bucket, now);
            Report(db, t).quarantined == |Unpaid(db, t.batch, now)|
  {
    hide Window, EligibleIds, Delta, Spill, Owed, CreditSum, LiveCredits;
    var t := Fetch(db, lane, limit, k, bucket, now);
    forall id | id in t.batch && id in db.rows
      ensures Spill(db, t, db.rows[id].user) > 0
              <==> Owed(db.rows, t.batch, db.rows[id].user) > CreditSum(db.credits, LiveCredits(db, db.rows[id].user, now), db.rows[id].user)
    {
      Shortfall(db, lane, limit, k, bucket, now, id);
    }
    assert GhostRows(db, t) == Unpaid(db, t.batch, now);
  }

  lemma Shortfall(db: Db, lane: Lane, limit: nat, k: nat, bucket: nat, now: int, id: nat)
    requires k > 0 && id in Fetch(db, lane, limit, k, bucket, now).batch && id in db.rows
    ensures var t, u := Fetch(db, lane, limit, k, bucket, now), db.rows[id].user;
            Spill(db, t, u) > 0 <==> Owed(db.rows, t.batch, u) > CreditSum(db.credits, LiveCredits(db, u, now), u)
  {
    hide Window, EligibleIds, Delta, Takes, Owed, CreditSum;
    var t, u := Fetch(db, lane, limit, k, bucket, now), db.rows[id].user;
    BatchIs(db, lane, limit, k, bucket, now, id);
    DeltaIsOwed(db.rows, t.batch, u);
    LiveSum(db, u, now);
    if lane.FefoLane? {
      TakesFit(db, t.batch, now);
      TakesWithinDelta(db, t.batch, now, u);
    } else {
      assert Drawn(db, t) == {} && LiveCredits(db, u, now) == {};
      SumZero({}, TakeFn(db, t.takes, u));
      Pays(db, t.batch, id);
      NoCredit(db.credits, u);
    }
  }

  lemma NoCredit(credits: map<nat, Credit>, u: nat)
    ensures CreditSum(credits, {}, u) == 0
  {}

  lemma LiveSum(db: Db, u: nat, now: int)
    ensures CreditSum(db.credits, LiveCredits(db, u, now), u) == Sum(Pool(db, u, now), AmountFn(db))
  {
    assert LiveCredits(db, u, now) == Pool(db, u, now);
    CreditSumIs(db, Pool(db, u, now), u);
    SumExt(Pool(db, u, now), CreditFn(db, u), AmountFn(db));
  }

  lemma Pays(db: Db, batch: set<nat>, id: nat)
    requires id in batch && id in db.rows && db.rows[id].cost > 0
    ensures Delta(db.rows, batch, db.rows[id].user) > 0
  {
    SumNonNeg(batch, CostFn(db.rows, db.rows[id].user));
  }
}
