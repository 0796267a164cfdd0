/** Finite sums over sets of ids, and the ascending enumeration of such a set. */
module Sums {

  predicate IsMin(s: set<nat>, m: nat) {
    m in s && forall x | x in s :: m <= x
  }

  lemma {:induction false} MinExists(s: set<nat>) returns (m: nat)
    requires s != {}
    ensures IsMin(s, m)
  {
    var e :| e in s;
    m := e;
    if s != {e} {
      var rest := MinExists(s - {e});
      m := if rest < e then rest else e;
      forall x | x in s ensures m <= x {
        assert x == e || x in s - {e};
      }
    }
  }

  /** The least element: what an `ORDER BY id` scan meets first. */
  function MinOf(s: set<nat>): (m: nat)
    requires s != {}
    ensures IsMin(s, m)
  {
    assert exists m | m in s :: IsMin(s, m) by { var m := MinExists(s); }
    var m :| m in s && IsMin(s, m);
    m
  }

  /** `SUM(f(x))` over a set. */
  function Sum(s: set<nat>, f: nat -> int): int {
    if s == {} then 0 else
      var m := MinOf(s);
      f(m) + Sum(s - {m}, f)
  }

  /** Any element can be split off, not only the least one. */
  lemma {:induction false} SumPick(s: set<nat>, f: nat -> int, x: nat)
    requires x in s
    ensures Sum(s, f) == f(x) + Sum(s - {x}, f)
  {
    var m := MinOf(s);
    if x != m {
      SumPick(s - {m}, f, x);
      assert m in s - {x};
      assert MinOf(s - {x}) in s;
      assert MinOf(s - {x}) == m;
      assert s - {m} - {x} == s - {x} - {m};
    }
  }

  lemma {:induction false} SumExt(s: set<nat>, f: nat -> int, g: nat -> int)
    requires forall x | x in s :: f(x) == g(x)
    ensures Sum(s, f) == Sum(s, g)
  {
    if s != {} { SumExt(s - {MinOf(s)}, f, g); }
  }

  lemma {:induction false} SumAdd(s: set<nat>, f: nat -> int, g: nat -> int, h: nat -> int)
    requires forall x | x in s :: h(x) == f(x) + g(x)
    ensures Sum(s, h) == Sum(s, f) + Sum(s, g)
  {
    if s != {} { SumAdd(s - {MinOf(s)}, f, g, h); }
  }

  lemma {:induction false} SumLe(s: set<nat>, f: nat -> int, g: nat -> int)
    requires forall x | x in s :: f(x) <= g(x)
    ensures Sum(s, f) <= Sum(s, g)
  {
    if s != {} { SumLe(s - {MinOf(s)}, f, g); }
  }

  lemma {:induction false} SumZero(s: set<nat>, f: nat -> int)
    requires forall x | x in s :: f(x) == 0
    ensures Sum(s, f) == 0
  {
    if s != {} { SumZero(s - {MinOf(s)}, f); }
  }

  lemma {:induction false} SumUnion(s: set<nat>, t: set<nat>, f: nat -> int)
    requires s !! t
    ensures Sum(s + t, f) == Sum(s, f) + Sum(t, f)
  {
    if s == {} {
      assert s + t == t;
    } else {
      var m := MinOf(s);
      SumPick(s + t, f, m);
      assert s + t - {m} == (s - {m}) + t;
      SumUnion(s - {m}, t, f);
    }
  }

  /** Elements that contribute nothing may be dropped. */
  lemma {:induction false} SumSub(s: set<nat>, t: set<nat>, f: nat -> int)
    requires t <= s
    requires forall x | x in s - t :: f(x) == 0
    ensures Sum(s, f) == Sum(t, f)
  {
    SumUnion(t, s - t, f);
    assert t + (s - t) == s;
    SumZero(s - t, f);
  }

  lemma {:induction false} SumNonNeg(s: set<nat>, f: nat -> int)
    requires forall x | x in s :: f(x) >= 0
    ensures Sum(s, f) >= 0
    ensures forall x | x in s :: f(x) <= Sum(s, f)
  {
    SumZero(s, x => 0);
    SumLe(s, x => 0, f);
    forall x | x in s ensures f(x) <= Sum(s, f) {
      SumPick(s, f, x);
      SumZero(s - {x}, x => 0);
      SumLe(s - {x}, x => 0, f);
    }
  }

  /** `ORDER BY id` over a set of ids. */
  function Ascending(s: set<nat>): (q: seq<nat>)
    ensures |q| == |s|
    ensures forall x :: x in q <==> x in s
    ensures forall i, j | 0 <= i < j < |q| :: q[i] < q[j]
  {
    if s == {} then [] else
      var m := MinOf(s);
      [m] + Ascending(s - {m})
  }
}
