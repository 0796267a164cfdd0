/** The adaptive row limit of the settlement statements. */
module BatchControl {
  import opened Ints
  import opened Options

  const SETTLE_BATCH_LIMIT: int := 8000
  const MIN_BATCH_LIMIT: int := 500
  const MAX_BATCH_LIMIT: int := 64000
  /** The time budget, in nanoseconds. */
  const SETTLE_TIME_BUDGET: int := 8_000_000_000

  /** How a settlement call failed, as far as the controller tells failures apart. */
  datatype Error = DeadlineExceeded | OtherError

  /** One measured call: its duration, its error, and whether it used up its whole limit. */
  datatype Observation = Observation(duration: int, err: Option<Error>, subscribed: bool)

  function Clamp(cur: int): int {
    if cur < MIN_BATCH_LIMIT then MIN_BATCH_LIMIT else if cur > MAX_BATCH_LIMIT then MAX_BATCH_LIMIT else cur
  }

  predicate TimedOut(o: Observation) { o.err == Some(DeadlineExceeded) }

  predicate FastAndFull(o: Observation) {
    o.err.None? && o.duration < SETTLE_TIME_BUDGET / 3 && o.subscribed
  }

  /** What one observation does to a limit. */
  function Adjust(cur: int, o: Observation): int
    requires cur >= 0
  {
    Clamp(if TimedOut(o) then cur / 2 else if FastAndFull(o) then cur * 2 else cur)
  }

  /** The reachable limits, 500 doubled at most seven times, by their exponent. */
  ghost predicate OnGrid(cur: int, k: nat) {
    k <= 7 && cur == 500 * Pow2(k)
  }

  /** What a call does to the limit, in numbers: a deadline error halves it, not below 500; a success in less than a third of eight
      seconds that used up its limit doubles it, not above 64000; anything else leaves it. */
  predicate Moves(cur: int, cur': int, duration: int, err: Option<Error>, subscribed: bool) {
    && (err == Some(DeadlineExceeded) ==> cur' == if cur / 2 < 500 then 500 else cur / 2)
    && (err == None && duration < 2_666_666_666 && subscribed ==> cur' == if cur * 2 > 64000 then 64000 else cur * 2)
    && (err == Some(OtherError) || (err == None && (duration >= 2_666_666_666 || !subscribed)) ==> cur' == cur)
  }

  lemma AdjustMoves(cur: int, o: Observation)
    requires 500 <= cur <= 64000
    ensures Moves(cur, Adjust(cur, o), o.duration, o.err, o.subscribed)
  {}

  class BatchController {
    var cur: int
    /** The observations so far, in the order the mutex let them through. */
    ghost var seen: seq<Observation>

    ghost predicate Valid() reads this { exists k: nat :: OnGrid(cur, k) }

    constructor ()
      ensures Valid() && cur == 8000 && seen == []
    {
      cur, seen := SETTLE_BATCH_LIMIT, [];
      new;
      GridValues();
      assert OnGrid(cur, 4);
    }

    method Limit() returns (lim: int)
      requires Valid()
      ensures lim == cur && 500 <= lim <= 64000
    {
      ghost var k: nat :| OnGrid(cur, k);
      GridBounds(cur, k);
      lim := cur;
    }

    method Observe(o: Observation)
      requires Valid()
      modifies this
      ensures Valid() && old(cur) >= 0 && cur == Adjust(old(cur), o) && seen == old(seen) + [o]
      ensures Moves(old(cur), cur, o.duration, o.err, o.subscribed)
    {
      ghost var k: nat :| OnGrid(cur, k);
      AdjustOnGrid(cur, k, o);
      GridBounds(cur, k);
      AdjustMoves(cur, o);
      seen := seen + [o];
      if o.err == Some(DeadlineExceeded) {
        cur := cur / 2;
      } else if o.err.None? && o.duration < SETTLE_TIME_BUDGET / 3 && o.subscribed {
        cur := cur * 2;
      }
      if cur < MIN_BATCH_LIMIT {
        cur := MIN_BATCH_LIMIT;
      } else if cur > MAX_BATCH_LIMIT {
        cur := MAX_BATCH_LIMIT;
      }
    }
  }

  lemma GridValues()
    ensures Pow2(4) == 16 && Pow2(7) == 128
  {
    assert Pow2(2) == 4 && Pow2(3) == 8 && Pow2(5) == 32 && Pow2(6) == 64;
  }

  lemma {:induction false} Pow2Mono(i: nat, j: nat)
    requires i <= j
    ensures 1 <= Pow2(i) <= Pow2(j)
  {
    if i < j { Pow2Mono(i, j - 1); } else if i > 0 { Pow2Mono(i - 1, i - 1); }
  }

  lemma GridBounds(cur: int, k: nat)
    requires OnGrid(cur, k)
    ensures MIN_BATCH_LIMIT <= cur <= MAX_BATCH_LIMIT
  {
    GridValues();
    Pow2Mono(k, 7);
  }

  /** An observation moves one place down, one place up, or not at all. */
  function GridStep(k: nat, o: Observation): nat {
    if TimedOut(o) then (if k == 0 then 0 else k - 1)
    else if FastAndFull(o) then (if k >= 7 then 7 else k + 1)
    else k
  }

  lemma AdjustOnGrid(cur: int, k: nat, o: Observation)
    requires OnGrid(cur, k)
    ensures OnGrid(Adjust(cur, o), GridStep(k, o))
  {
    GridValues();
    GridBounds(cur, k);
    if k > 0 { GridBounds(MIN_BATCH_LIMIT * Pow2(k - 1), k - 1); }
    if k < 7 { GridBounds(MIN_BATCH_LIMIT * Pow2(k + 1), k + 1); }
  }

  /** The limit after the observations, in the order the mutex lets them through. */
  function AdjustAll(cur: int, obs: seq<Observation>): (r: int)
    requires cur >= 0
    ensures r >= 0
    decreases |obs|
  {
    if obs == [] then cur else AdjustAll(Adjust(cur, obs[0]), obs[1..])
  }

  lemma {:induction false} AdjustMore(cur: int, obs: seq<Observation>, o: Observation)
    requires cur >= 0
    ensures AdjustAll(cur, obs + [o]) == Adjust(AdjustAll(cur, obs), o)
    decreases |obs|
  {
    if obs == [] {
      assert ([o])[1..] == [];
    } else {
      assert (obs + [o])[1..] == obs[1..] + [o];
      AdjustMore(Adjust(cur, obs[0]), obs[1..], o);
    }
  }

  /** Whatever the buckets observe in whatever order, every settlement call is given a limit of
      500 times a power of two, from 500 to 64000. */
  lemma {:induction false} LimitsStayOnGrid(cur: int, k: nat, obs: seq<Observation>) returns (k': nat)
    requires OnGrid(cur, k)
    ensures OnGrid(AdjustAll(cur, obs), k')
    ensures 500 <= AdjustAll(cur, obs) <= 64000
    ensures (forall o | o in obs :: o.err == Some(DeadlineExceeded)) ==> k' == if |obs| <= k then k - |obs| else 0
    ensures (forall o | o in obs :: o.err == Some(OtherError) || (o.err == None && (o.duration >= 2_666_666_666 || !o.subscribed)))
            ==> AdjustAll(cur, obs) == cur
    decreases |obs|
  {
    GridBounds(cur, k);
    k' := k;
    if obs != [] {
      AdjustOnGrid(cur, k, obs[0]);
      k' := LimitsStayOnGrid(Adjust(cur, obs[0]), GridStep(k, obs[0]), obs[1..]);
      assert forall o | o in obs[1..] :: o in obs;
    }
  }

  /** Seven timeouts in a row bring any reachable limit down to 500; a slow or an unsaturated
      success never moves it. */
  lemma SevenTimeouts(cur: int, k: nat, obs: seq<Observation>)
    requires OnGrid(cur, k) && |obs| >= 7 && forall o | o in obs :: o.err == Some(DeadlineExceeded)
    ensures AdjustAll(cur, obs) == 500
  {
    var k' := LimitsStayOnGrid(cur, k, obs);
  }
}
