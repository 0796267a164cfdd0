/** First-expiring-first-out consumption of a user's temporary credits, in the set-at-a-time
    form of the temp-lane statement: a running total in expiry order decides every take at once.
    The form is proved to be the only allocation a one-credit-at-a-time walk could produce. */
module Fefo {
  import opened Sums

  /** A strict total order on the pool: `ORDER BY expires_at NULLS LAST`, ties broken somehow. */
  ghost predicate TotalOrder(pool: set<nat>, before: (nat, nat) -> bool) {
    && (forall x | x in pool :: !before(x, x))
    && (forall x, y | x in pool && y in pool :: x == y || before(x, y) || before(y, x))
    && (forall x, y, z | x in pool && y in pool && z in pool && before(x, y) && before(y, z) :: before(x, z))
  }

  function Ahead(pool: set<nat>, before: (nat, nat) -> bool, c: nat): set<nat> {
    set x | x in pool && before(x, c)
  }

  /** The running total `SUM(amount) OVER (... ROWS UNBOUNDED PRECEDING .. CURRENT ROW)`. */
  function Cum(pool: set<nat>, amount: nat -> int, before: (nat, nat) -> bool, c: nat): int {
    Sum(Ahead(pool, before, c), amount) + amount(c)
  }

  /** The `takes` column; credits filtered out by `cum - amount < delta` take nothing. */
  function Take(pool: set<nat>, amount: nat -> int, before: (nat, nat) -> bool, delta: int, c: nat): int {
    var cum := Cum(pool, amount, before, c);
    if cum - amount(c) >= delta then 0
    else if cum <= delta then amount(c)
    else delta - (cum - amount(c))
  }

  function Min(a: int, b: int): int { if a <= b then a else b }

  /** What spending `delta` first-expiring-first-out means, without any running total: no credit is
      overdrawn, exactly as much is drawn as the pool can give, and a credit is touched only
      when every earlier one has been emptied. */
  ghost predicate IsFefo(pool: set<nat>, amount: nat -> int, before: (nat, nat) -> bool, delta: int, t: nat -> int) {
    && (forall c | c in pool :: 0 <= t(c) <= amount(c))
    && Sum(pool, t) == Min(delta, Sum(pool, amount))
    && (forall c, x | c in pool && x in pool && before(x, c) && t(c) > 0 :: t(x) == amount(x))
  }

  ghost predicate IsLast(pool: set<nat>, before: (nat, nat) -> bool, m: nat) {
    m in pool && forall x | x in pool && x != m :: before(x, m)
  }

  lemma {:induction false} LastExists(pool: set<nat>, before: (nat, nat) -> bool) returns (m: nat)
    requires pool != {} && TotalOrder(pool, before)
    ensures IsLast(pool, before, m)
  {
    var e :| e in pool;
    m := e;
    if pool != {e} {
      var rest := LastExists(pool - {e}, before);
      m := if before(rest, e) then e else rest;
      forall x | x in pool && x != m ensures before(x, m) {
        assert x == e || x in pool - {e};
      }
    }
  }

  /** Dropping the last credit changes nobody else's take. */
  lemma TakeWithoutLast(pool: set<nat>, amount: nat -> int, before: (nat, nat) -> bool, delta: int, m: nat, c: nat)
    requires TotalOrder(pool, before) && IsLast(pool, before, m) && c in pool - {m}
    ensures Take(pool, amount, before, delta, c) == Take(pool - {m}, amount, before, delta, c)
  {
    assert before(c, m) && !before(m, c);
    assert Ahead(pool, before, c) == Ahead(pool - {m}, before, c);
  }

  lemma {:induction false} TakeOfLast(pool: set<nat>, amount: nat -> int, before: (nat, nat) -> bool, m: nat)
    requires TotalOrder(pool, before) && IsLast(pool, before, m)
    ensures Cum(pool, amount, before, m) == Sum(pool, amount)
    ensures Sum(pool - {m}, amount) == Sum(pool, amount) - amount(m)
  {
    assert Ahead(pool, before, m) == pool - {m};
    SumPick(pool, amount, m);
  }

  function TakeFn(pool: set<nat>, amount: nat -> int, before: (nat, nat) -> bool, delta: int): nat -> int {
    (c: nat) => Take(pool, amount, before, delta, c)
  }

  /** Takes add up to what the pool can give. */
  lemma {:induction false} TakeTotal(pool: set<nat>, amount: nat -> int, before: (nat, nat) -> bool, delta: int)
    requires TotalOrder(pool, before)
    requires delta >= 0 && forall c | c in pool :: amount(c) > 0
    ensures Sum(pool, TakeFn(pool, amount, before, delta)) == Min(delta, Sum(pool, amount))
  {
    if pool != {} {
      var m := LastExists(pool, before);
      var t, t' := TakeFn(pool, amount, before, delta), TakeFn(pool - {m}, amount, before, delta);
      TakeTotal(pool - {m}, amount, before, delta);
      forall c | c in pool - {m} ensures t(c) == t'(c) {
        TakeWithoutLast(pool, amount, before, delta, m, c);
      }
      SumExt(pool - {m}, t, t');
      SumPick(pool, t, m);
      TakeOfLast(pool, amount, before, m);
    }
  }

  /** A credit is touched only once everything ahead of it is spent. */
  lemma TakeInOrder(pool: set<nat>, amount: nat -> int, before: (nat, nat) -> bool, delta: int, x: nat, c: nat)
    requires TotalOrder(pool, before) && forall c | c in pool :: amount(c) > 0
    requires x in pool && c in pool && before(x, c) && Take(pool, amount, before, delta, c) > 0
    ensures Take(pool, amount, before, delta, x) == amount(x)
  {
    var ahead := Ahead(pool, before, c);
    var upto := Ahead(pool, before, x) + {x};
    SumPick(upto, amount, x);
    assert upto - {x} == Ahead(pool, before, x);
    SumUnion(upto, ahead - upto, amount);
    assert upto + (ahead - upto) == ahead;
    SumNonNeg(ahead - upto, amount);
  }

  /** A charge that exceeds the pool empties every credit. */
  lemma TakeAll(pool: set<nat>, amount: nat -> int, before: (nat, nat) -> bool, delta: int, c: nat)
    requires c in pool && !before(c, c) && (forall x | x in pool :: amount(x) > 0) && Sum(pool, amount) <= delta
    ensures Take(pool, amount, before, delta, c) == amount(c)
  {
    var upto := Ahead(pool, before, c) + {c};
    SumPick(upto, amount, c);
    assert upto - {c} == Ahead(pool, before, c);
    SumUnion(upto, pool - upto, amount);
    assert upto + (pool - upto) == pool;
    SumNonNeg(pool - upto, amount);
  }

  /** The window-function form spends exactly what the pool can give, in order. */
  lemma TakeIsFefo(pool: set<nat>, amount: nat -> int, before: (nat, nat) -> bool, delta: int)
    requires TotalOrder(pool, before)
    requires delta >= 0 && forall c | c in pool :: amount(c) > 0
    ensures IsFefo(pool, amount, before, delta, TakeFn(pool, amount, before, delta))
  {
    var t := TakeFn(pool, amount, before, delta);
    TakeTotal(pool, amount, before, delta);
    forall c, x | c in pool && x in pool && before(x, c) && t(c) > 0 ensures t(x) == amount(x) {
      TakeInOrder(pool, amount, before, delta, x, c);
    }
  }

  /** ... and it is the only such allocation, so it is what the sequential walk draws. */
  lemma {:induction false} FefoUnique(pool: set<nat>, amount: nat -> int, before: (nat, nat) -> bool, delta: int, t: nat -> int)
    requires TotalOrder(pool, before)
    requires delta >= 0 && forall c | c in pool :: amount(c) > 0
    requires IsFefo(pool, amount, before, delta, t)
    ensures forall c | c in pool :: t(c) == Take(pool, amount, before, delta, c)
  {
    if pool != {} {
      var m := LastExists(pool, before);
      var rest := pool - {m};
      SumPick(pool, t, m);
      TakeOfLast(pool, amount, before, m);
      SumLe(rest, t, amount);
      if t(m) > 0 {
        forall x | x in rest ensures t(x) == amount(x) { assert before(x, m); }
        SumExt(rest, t, amount);
      }
      FefoUnique(rest, amount, before, delta, t);
      forall c | c in rest ensures t(c) == Take(pool, amount, before, delta, c) {
        TakeWithoutLast(pool, amount, before, delta, m, c);
      }
    }
  }
}
