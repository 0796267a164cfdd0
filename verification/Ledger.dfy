/** The usage ledger and the two settlement statements that drain it. A statement runs in two
    parts: `Fetch` is what its snapshot selects (the batch of rows and the temp-credit takes),
    `Commit` is what it writes against the rows as they are by then. */
module Ledger {
  import opened Options
  import opened Sums
  import F = Fefo

  /** Buckets per lane. */
  const K: nat := 4

  datatype Lane = BalanceLane | FefoLane

  /** A billable usage row; a missing user id is user 0. */
  datatype Row = Row(user: nat, cost: int)

  datatype Credit = Credit(user: nat, amount: int, expires: Option<int>)

  datatype Db = Db(
    rows: map<nat, Row>,
    billed: set<nat>,
    overdrawn: set<nat>,
    balances: map<nat, int>,
    credits: map<nat, Credit>)

  /** What one settlement statement has selected and is about to write. */
  datatype Txn = Txn(batch: set<nat>, takes: map<nat, int>)

  /** A user's balance after a settlement, as returned to the caller. */
  datatype UserBalance = UserBalance(user: nat, balance: int)

  datatype Summary = Summary(
    batchRows: int, marked: int, debitedUsers: int, forcedUsers: int, quarantined: int,
    balances: seq<UserBalance>)

  ghost predicate WellFormed(db: Db) {
    && db.billed <= db.rows.Keys
    && db.overdrawn <= db.billed
    && forall c | c in db.credits :: db.credits[c].amount >= 0
  }

  predicate Unexpired(c: Credit, now: int) {
    c.expires.None? || c.expires.value > now
  }

  predicate Live(c: Credit, now: int) {
    c.amount > 0 && Unexpired(c, now)
  }

  /** The users of the temp lane; all others belong to the balance lane. */
  predicate TempActive(db: Db, u: nat, now: int) {
    exists c | c in db.credits :: db.credits[c].user == u && Live(db.credits[c], now)
  }

  predicate Eligible(db: Db, lane: Lane, k: nat, bucket: nat, now: int, id: nat)
    requires k > 0
  {
    && id in db.rows
    && id !in db.billed
    && db.rows[id].cost > 0
    && db.rows[id].user % k == bucket
    && (lane.FefoLane? <==> TempActive(db, db.rows[id].user, now))
  }

  function EligibleIds(db: Db, lane: Lane, k: nat, bucket: nat, now: int): set<nat>
    requires k > 0
  {
    set id | id in db.rows && Eligible(db, lane, k, bucket, now, id)
  }

  function First(q: seq<nat>, limit: nat): seq<nat> {
    if |q| <= limit then q else q[..limit]
  }

  function Elems(q: seq<nat>): set<nat> {
    set x | x in q
  }

  /** `ORDER BY id LIMIT limit`. */
  function Window(s: set<nat>, limit: nat): (b: set<nat>)
    ensures b <= s
  {
    Elems(First(Ascending(s), limit))
  }

  /** The window is full unless it holds everything. */
  lemma WindowCount(s: set<nat>, limit: nat)
    ensures |Window(s, limit)| == if |s| <= limit then |s| else limit
    ensures |s| <= limit ==> Window(s, limit) == s
  {
    DistinctCount(First(Ascending(s), limit));
  }

  /** The window holds the oldest rows: whatever it leaves out comes after everything it keeps. */
  lemma WindowOldest(s: set<nat>, limit: nat, x: nat, y: nat)
    requires x in s && x !in Window(s, limit) && y in Window(s, limit)
    ensures y < x
  {
    var q := Ascending(s);
    var i :| 0 <= i < |q| && q[i] == x;
    var j :| 0 <= j < |First(q, limit)| && First(q, limit)[j] == y;
    assert x !in First(q, limit);
    assert i >= limit > j;
  }

  lemma {:induction false} DistinctCount(q: seq<nat>)
    requires forall i, j | 0 <= i < j < |q| :: q[i] < q[j]
    ensures |Elems(q)| == |q|
  {
    if q != [] {
      var rest, last := q[..|q| - 1], q[|q| - 1];
      DistinctCount(rest);
      assert q == rest + [last];
      assert last !in Elems(rest);
      assert Elems(q) == Elems(rest) + {last};
    }
  }

  function CostFn(rows: map<nat, Row>, u: nat): nat -> int {
    (id: nat) => if id in rows && rows[id].user == u && rows[id].cost > 0 then rows[id].cost else 0
  }

  /** `SUM(cost)` of one user's rows in a batch. */
  function Delta(rows: map<nat, Row>, batch: set<nat>, u: nat): int {
    Sum(batch, CostFn(rows, u))
  }

  function Pool(db: Db, u: nat, now: int): set<nat> {
    set c | c in db.credits && db.credits[c].user == u && Live(db.credits[c], now)
  }

  function AmountFn(db: Db): nat -> int {
    (c: nat) => if c in db.credits then db.credits[c].amount else 0
  }

  /** `expires_at NULLS LAST`, then id. */
  predicate Sooner(a: Credit, aid: nat, b: Credit, bid: nat) {
    match (a.expires, b.expires)
    case (Some(x), Some(y)) => x < y || (x == y && aid < bid)
    case (Some(_), None) => true
    case (None, Some(_)) => false
    case (None, None) => aid < bid
  }

  function ExpiryOrder(db: Db): (nat, nat) -> bool {
    (a: nat, b: nat) => a in db.credits && b in db.credits && Sooner(db.credits[a], a, db.credits[b], b)
  }

  function TakeOf(db: Db, batch: set<nat>, now: int, c: nat): int
    requires c in db.credits
  {
    var u := db.credits[c].user;
    F.Take(Pool(db, u, now), AmountFn(db), ExpiryOrder(db), Delta(db.rows, batch, u), c)
  }

  function Takes(db: Db, batch: set<nat>, now: int): map<nat, int> {
    map c | c in db.credits && Live(db.credits[c], now) && TakeOf(db, batch, now, c) > 0
      :: TakeOf(db, batch, now, c)
  }

  /** The snapshot half of a settlement statement. */
  function Fetch(db: Db, lane: Lane, limit: nat, k: nat, bucket: nat, now: int): Txn
    requires k > 0
  {
    var batch := Window(EligibleIds(db, lane, k, bucket, now), limit);
    Txn(batch, if lane.FefoLane? then Takes(db, batch, now) else map[])
  }

  /** The takes that still go through: `amount >= take` must still hold at write time. */
  function Drawn(db: Db, t: Txn): set<nat> {
    set c | c in db.credits && c in t.takes && db.credits[c].amount >= t.takes[c]
  }

  function TakeFn(db: Db, takes: map<nat, int>, u: nat): nat -> int {
    (c: nat) => if c in db.credits && c in takes && db.credits[c].user == u then takes[c] else 0
  }

  /** The part of a user's bill that the credits did not cover. */
  function Spill(db: Db, t: Txn, u: nat): int {
    Delta(db.rows, t.batch, u) - Sum(Drawn(db, t), TakeFn(db, t.takes, u))
  }

  predicate Charged(db: Db, t: Txn, u: nat) {
    u in db.balances && Spill(db, t, u) > 0
  }

  /** The balance is too small, and is taken below zero all the same. */
  predicate Forced(db: Db, t: Txn, u: nat) {
    u in db.balances && Spill(db, t, u) > 0 && db.balances[u] < Spill(db, t, u)
  }

  /** `marked == batch`: no row of the batch has been marked by anybody else meanwhile. */
  predicate MarkGuard(db: Db, t: Txn) {
    t.batch <= db.rows.Keys - db.billed
  }

  /** The write half of a settlement statement, once the guard has passed. */
  function Commit(db: Db, t: Txn): Db {
    db.(
      billed := db.billed + t.batch,
      overdrawn := db.overdrawn + (set id | id in t.batch && id in db.rows && Forced(db, t, db.rows[id].user)),
      balances := map u | u in db.balances :: if Charged(db, t, u) then db.balances[u] - Spill(db, t, u) else db.balances[u],
      credits := map c | c in db.credits :: if c in Drawn(db, t)
                 then db.credits[c].(amount := db.credits[c].amount - t.takes[c]) else db.credits[c])
  }

  function ChargedUsers(db: Db, t: Txn): set<nat> {
    set u | u in db.balances && Charged(db, t, u)
  }

  function ForcedUsers(db: Db, t: Txn): set<nat> {
    set u | u in db.balances && Forced(db, t, u)
  }

  function BalancePairs(users: seq<nat>, db: Db): seq<UserBalance>
    requires forall u | u in users :: u in db.balances
  {
    seq(|users|, i requires 0 <= i < |users| => UserBalance(users[i], db.balances[users[i]]))
  }

  /** The rows of users that do not exist: marked, but charged to nobody. */
  function GhostRows(db: Db, t: Txn): set<nat> {
    set id | id in t.batch && id in db.rows && db.rows[id].user !in db.balances && Spill(db, t, db.rows[id].user) > 0
  }

  /** The row set the statement returns when it commits on `db`. */
  function Report(db: Db, t: Txn): Summary {
    var forced := ForcedUsers(db, t);
    Summary(|t.batch|, |t.batch|, |ChargedUsers(db, t)| - |forced|, |forced|, |GhostRows(db, t)|,
            BalancePairs(Ascending(ChargedUsers(db, t)), Commit(db, t)))
  }

  /** `MarkBilledBulk`: idempotent marking of free rows. */
  function Mark(db: Db, ids: set<nat>): Db {
    db.(billed := db.billed + (ids * db.rows.Keys))
  }

  function Unbilled(db: Db): set<nat> { db.rows.Keys - db.billed }

  /** The rows a sweep of `limit` rows would mark. */
  function FreeRows(db: Db, limit: nat): set<nat> {
    set id | id in Window(Unbilled(db), limit) && id in db.rows && db.rows[id].cost <= 0
  }

  ghost predicate Free(db: Db, ids: set<nat>) {
    forall id | id in ids :: id in db.rows && db.rows[id].cost <= 0
  }

  // ---------------------------------------------------------------- accounts

  function CreditFn(db: Db, u: nat): nat -> int {
    (c: nat) => if c in db.credits && db.credits[c].user == u then db.credits[c].amount else 0
  }

  /** Everything a user owns: the balance and all temporary credits. */
  function Holdings(db: Db, u: nat): int
    requires u in db.balances
  {
    db.balances[u] + Sum(db.credits.Keys, CreditFn(db, u))
  }

  /** The summed cost of a user's billed rows. */
  function BilledCost(db: Db, u: nat): int {
    Delta(db.rows, db.billed, u)
  }

  /** What a user still has plus what the user has been billed. */
  function Equity(db: Db, u: nat): int
    requires u in db.balances
  {
    Holdings(db, u) + BilledCost(db, u)
  }

  /** No user's takes exceed that user's part of the batch. */
  ghost predicate Covered(db: Db, t: Txn) {
    && t.batch <= db.rows.Keys
    && t.takes.Keys <= db.credits.Keys
    && (forall c | c in t.takes :: t.takes[c] > 0)
    && (forall u: nat :: Sum(t.takes.Keys, TakeFn(db, t.takes, u)) <= Delta(db.rows, t.batch, u))
  }

  lemma DeltaNonNeg(rows: map<nat, Row>, batch: set<nat>, u: nat)
    ensures Delta(rows, batch, u) >= 0
  {
    SumNonNeg(batch, CostFn(rows, u));
  }

  lemma PoolOrdered(db: Db, u: nat, now: int)
    ensures F.TotalOrder(Pool(db, u, now), ExpiryOrder(db))
  {
  }

  /** A fetch never earmarks more credit than the user's rows in the batch cost. */
  lemma FetchCovered(db: Db, lane: Lane, limit: nat, k: nat, bucket: nat, now: int)
    requires k > 0
    ensures Covered(db, Fetch(db, lane, limit, k, bucket, now))
  {
    var t := Fetch(db, lane, limit, k, bucket, now);
    forall u: nat ensures Sum(t.takes.Keys, TakeFn(db, t.takes, u)) <= Delta(db.rows, t.batch, u) {
      DeltaNonNeg(db.rows, t.batch, u);
      if lane.FefoLane? {
        TakesWithinDelta(db, t.batch, now, u);
      }
    }
  }

  lemma TakesWithinDelta(db: Db, batch: set<nat>, now: int, u: nat)
    ensures Sum(Takes(db, batch, now).Keys, TakeFn(db, Takes(db, batch, now), u))
         == F.Min(Delta(db.rows, batch, u), Sum(Pool(db, u, now), AmountFn(db)))
  {
    var takes, pool, delta := Takes(db, batch, now), Pool(db, u, now), Delta(db.rows, batch, u);
    var f, g := TakeFn(db, takes, u), F.TakeFn(pool, AmountFn(db), ExpiryOrder(db), delta);
    DeltaNonNeg(db.rows, batch, u);
    PoolOrdered(db, u, now);
    F.TakeIsFefo(pool, AmountFn(db), ExpiryOrder(db), delta);
    SumSub(takes.Keys, takes.Keys * pool, f);
    SumSub(pool, takes.Keys * pool, g);
    SumExt(takes.Keys * pool, f, g);
  }

  lemma TakesFit(db: Db, batch: set<nat>, now: int)
    ensures var t := Txn(batch, Takes(db, batch, now)); Drawn(db, t) == t.takes.Keys
  {
    forall c | c in Takes(db, batch, now) ensures Takes(db, batch, now)[c] <= db.credits[c].amount {
      var u := db.credits[c].user;
      DeltaNonNeg(db.rows, batch, u);
      PoolOrdered(db, u, now);
      F.TakeIsFefo(Pool(db, u, now), AmountFn(db), ExpiryOrder(db), Delta(db.rows, batch, u));
      assert F.TakeFn(Pool(db, u, now), AmountFn(db), ExpiryOrder(db), Delta(db.rows, batch, u))(c) <= AmountFn(db)(c);
    }
  }

  /** The balance is touched last: a user whose balance a temp-lane settlement debits has no live credit left. */
  lemma CreditsFirst(db: Db, limit: nat, k: nat, bucket: nat, now: int, u: nat, c: nat)
    requires k > 0 && Charged(db, Fetch(db, FefoLane, limit, k, bucket, now), u) && c in Pool(db, u, now)
    ensures c in Commit(db, Fetch(db, FefoLane, limit, k, bucket, now)).credits
    ensures Commit(db, Fetch(db, FefoLane, limit, k, bucket, now)).credits[c].amount == 0
  {
    hide Takes, TakeOf, Window, EligibleIds, Charged, Delta, Live;
    var t := Fetch(db, FefoLane, limit, k, bucket, now);
    TakesFit(db, t.batch, now);
    PoolExceeded(db, t.batch, now, u);
    EmptiedBy(db, t.batch, now, u, c);
  }

  lemma PoolExceeded(db: Db, batch: set<nat>, now: int, u: nat)
    requires Charged(db, Txn(batch, Takes(db, batch, now)), u)
    ensures Sum(Pool(db, u, now), AmountFn(db)) < Delta(db.rows, batch, u)
  {
    hide Takes, Pool, Delta;
    TakesFit(db, batch, now);
    TakesWithinDelta(db, batch, now, u);
  }

  lemma EmptiedBy(db: Db, batch: set<nat>, now: int, u: nat, c: nat)
    requires c in Pool(db, u, now) && Sum(Pool(db, u, now), AmountFn(db)) < Delta(db.rows, batch, u)
    ensures c in Takes(db, batch, now) && Takes(db, batch, now)[c] == db.credits[c].amount
  {
    hide Takes, Delta;
    F.TakeAll(Pool(db, u, now), AmountFn(db), ExpiryOrder(db), Delta(db.rows, batch, u), c);
    TakenWhole(db, batch, now, c);
  }

  lemma TakenWhole(db: Db, batch: set<nat>, now: int, c: nat)
    requires c in db.credits && Live(db.credits[c], now) && TakeOf(db, batch, now, c) == db.credits[c].amount
    ensures c in Takes(db, batch, now) && Takes(db, batch, now)[c] == db.credits[c].amount
  {
    hide TakeOf;
  }

  /** A row is marked as overdraft exactly when its settlement moved its user's balance to below zero. */
  lemma OverdraftIsDebt(db: Db, t: Txn, id: nat)
    requires WellFormed(db) && MarkGuard(db, t) && Covered(db, t) && id in t.batch
    ensures var u, after := db.rows[id].user, Commit(db, t);
            id in after.overdrawn <==> u in db.balances && after.balances[u] != db.balances[u] && after.balances[u] < 0
  {
    var u := db.rows[id].user;
    if u in db.balances { CommitBalance(db, t, u); SpillNonNeg(db, t, u); }
  }

  /** Conservation: a committed settlement moves exactly the cost of the batch out of each real
      user's holdings, from credits and balance together. */
  lemma CommitConserves(db: Db, t: Txn, u: nat)
    requires MarkGuard(db, t) && Covered(db, t) && u in db.balances
    ensures Holdings(Commit(db, t), u) == Holdings(db, u) - Delta(db.rows, t.batch, u)
    ensures BilledCost(Commit(db, t), u) == BilledCost(db, u) + Delta(db.rows, t.batch, u)
  {
    SumUnion(db.billed, t.batch, CostFn(db.rows, u));
    CommitBalance(db, t, u);
    CommitCredits(db, t, u);
  }

  lemma SpillNonNeg(db: Db, t: Txn, u: nat)
    requires Covered(db, t)
    ensures Spill(db, t, u) >= 0
  {
    var f := TakeFn(db, t.takes, u);
    SumUnion(Drawn(db, t), t.takes.Keys - Drawn(db, t), f);
    assert Drawn(db, t) + (t.takes.Keys - Drawn(db, t)) == t.takes.Keys;
    SumNonNeg(t.takes.Keys - Drawn(db, t), f);
  }

  lemma CommitBalance(db: Db, t: Txn, u: nat)
    requires Covered(db, t) && u in db.balances
    ensures u in Commit(db, t).balances
    ensures Commit(db, t).balances[u] == db.balances[u] - Spill(db, t, u)
  {
    SpillNonNeg(db, t, u);
  }

  function TookFn(db: Db, t: Txn, u: nat): nat -> int {
    (c: nat) => if c in Drawn(db, t) && db.credits[c].user == u then t.takes[c] else 0
  }

  lemma CommitCredits(db: Db, t: Txn, u: nat)
    ensures Commit(db, t).credits.Keys == db.credits.Keys
    ensures Sum(db.credits.Keys, CreditFn(Commit(db, t), u))
         == Sum(db.credits.Keys, CreditFn(db, u)) - Sum(Drawn(db, t), TakeFn(db, t.takes, u))
  {
    CommitCreditTerms(db, t, u);
    SumAdd(db.credits.Keys, CreditFn(Commit(db, t), u), TookFn(db, t, u), CreditFn(db, u));
    SumSub(db.credits.Keys, Drawn(db, t), TookFn(db, t, u));
    SumExt(Drawn(db, t), TookFn(db, t, u), TakeFn(db, t.takes, u));
  }

  lemma CommitCreditTerms(db: Db, t: Txn, u: nat)
    ensures forall c | c in db.credits :: CreditFn(db, u)(c) == CreditFn(Commit(db, t), u)(c) + TookFn(db, t, u)(c)
  {
    var db' := Commit(db, t);
    forall c | c in db.credits ensures CreditFn(db, u)(c) == CreditFn(db', u)(c) + TookFn(db, t, u)(c) {
      assert db'.credits[c].user == db.credits[c].user;
    }
  }

  lemma CommitWellFormed(db: Db, t: Txn)
    requires WellFormed(db) && t.batch <= db.rows.Keys
    ensures WellFormed(Commit(db, t))
  {
  }

  lemma CommitEquity(db: Db, t: Txn, u: nat)
    requires MarkGuard(db, t) && Covered(db, t) && u in db.balances
    ensures Equity(Commit(db, t), u) == Equity(db, u)
  {
    CommitConserves(db, t, u);
  }

  lemma MarkEquity(db: Db, ids: set<nat>, u: nat)
    requires Free(db, ids) && u in db.balances
    ensures Equity(Mark(db, ids), u) == Equity(db, u)
  {
    SumSub(db.billed + ids * db.rows.Keys, db.billed, CostFn(db.rows, u));
    SumExt(db.credits.Keys, CreditFn(db, u), CreditFn(Mark(db, ids), u));
  }

  /** Rows keep their user and cost, credits keep their user. */
  ghost predicate Grows(db: Db, db': Db) {
    && (forall id | id in db.rows :: id in db'.rows && db'.rows[id] == db.rows[id])
    && (forall c | c in db.credits :: c in db'.credits && db'.credits[c].user == db.credits[c].user)
  }

  lemma CoveredGrows(db: Db, db': Db, t: Txn)
    requires Covered(db, t) && Grows(db, db')
    ensures Covered(db', t)
  {
    forall u: nat ensures Sum(t.takes.Keys, TakeFn(db', t.takes, u)) <= Delta(db'.rows, t.batch, u) {
      SumExt(t.takes.Keys, TakeFn(db, t.takes, u), TakeFn(db', t.takes, u));
      SumExt(t.batch, CostFn(db.rows, u), CostFn(db'.rows, u));
    }
  }

  // ---------------------------------------------------------------- money, counted on the columns

  /** The summed cost of a user's rows among `ids`; a row that costs nothing adds nothing. */
  ghost function Owed(rows: map<nat, Row>, ids: set<nat>, u: nat): int
    decreases |ids|
  {
    if ids == {} then 0
    else
      var id := MinOf(ids);
      (if id in rows && rows[id].user == u && rows[id].cost > 0 then rows[id].cost else 0) + Owed(rows, ids - {id}, u)
  }

  /** The summed amount of a user's credits among `ids`. */
  ghost function CreditSum(credits: map<nat, Credit>, ids: set<nat>, u: nat): int
    decreases |ids|
  {
    if ids == {} then 0
    else
      var c := MinOf(ids);
      (if c in credits && credits[c].user == u then credits[c].amount else 0) + CreditSum(credits, ids - {c}, u)
  }

  /** A user's money: the balance and all credits. */
  ghost function Money(db: Db, u: nat): int
    requires u in db.balances
  {
    db.balances[u] + CreditSum(db.credits, db.credits.Keys, u)
  }

  lemma {:induction false} DeltaIsOwed(rows: map<nat, Row>, ids: set<nat>, u: nat)
    ensures Delta(rows, ids, u) == Owed(rows, ids, u)
    decreases |ids|
  {
    if ids != {} { DeltaIsOwed(rows, ids - {MinOf(ids)}, u); }
  }

  lemma {:induction false} CreditSumIs(db: Db, ids: set<nat>, u: nat)
    ensures Sum(ids, CreditFn(db, u)) == CreditSum(db.credits, ids, u)
    decreases |ids|
  {
    if ids != {} { CreditSumIs(db, ids - {MinOf(ids)}, u); }
  }

  lemma HoldingsAreMoney(db: Db, u: nat)
    requires u in db.balances
    ensures Holdings(db, u) == Money(db, u)
  {
    CreditSumIs(db, db.credits.Keys, u);
  }

  /** Among rows of which just one is the user's, the user owes its cost. */
  lemma {:induction false} OwedOne(rows: map<nat, Row>, ids: set<nat>, u: nat, id: nat)
    requires id in ids && id in rows && rows[id].user == u && rows[id].cost > 0
    requires forall j | j in ids && j != id && j in rows :: rows[j].user != u
    ensures Owed(rows, ids, u) == rows[id].cost
    decreases |ids|
  {
    var m := MinOf(ids);
    if m == id { OwedNone(rows, ids - {id}, u); } else { OwedOne(rows, ids - {m}, u, id); }
  }

  lemma {:induction false} OwedNone(rows: map<nat, Row>, ids: set<nat>, u: nat)
    requires forall j | j in ids && j in rows :: rows[j].user != u
    ensures Owed(rows, ids, u) == 0
    decreases |ids|
  {
    if ids != {} { OwedNone(rows, ids - {MinOf(ids)}, u); }
  }
}
