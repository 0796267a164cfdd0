/** From a price entry and its variants to the prices of one request. A pointer is never written through, so it is its value. */
module Prices {
  import opened Ints
  import opened Options

  /** The eight components of a price; all amounts are 64-bit. */
  datatype Components = Components(inputPerM: Option<int>, outputPerM: Option<int>, cacheReadPerM: Option<int>,
                                   cacheWritePerM: Option<int>, perCall: Option<int>, imgInTokPerM: Option<int>,
                                   imgOutTokPerM: Option<int>, perImage: Option<int>)

  datatype Variant = Variant(seqNo: int, serviceTier: Option<string>, ctxMin: Option<int>, ctxMax: Option<int>,
                             timeStart: Option<int>, timeEnd: Option<int>, dowMask: Option<int>, multBp: Option<int>,
                             overrides: Components)

  /** The hour and minute, and the weekday from Sunday. */
  datatype Clock = Clock(minute: int, weekday: nat)

  datatype Resolved = Resolved(prices: Components, variantSeq: Option<int>)

  /** Bit `k` of a two's-complement integer. */
  predicate Bit(mask: int, k: nat) { mask / Pow2(k) % 2 == 1 }

  predicate TimeMatches(start: Option<int>, end: Option<int>, cur: int) {
    match (start, end)
    case (None, None) => true
    case (Some(s), Some(e)) => s == e || (if s < e then s <= cur < e else cur >= s || cur < e)
    case (Some(s), None) => cur >= s
    case (None, Some(e)) => cur < e
  }

  predicate VariantMatches(v: Variant, tier: string, promptTokens: int, at: Clock) {
    && (v.serviceTier.Some? ==> v.serviceTier.value == tier)
    && (v.ctxMin.Some? ==> promptTokens >= v.ctxMin.value)
    && (v.ctxMax.Some? ==> promptTokens < v.ctxMax.value)
    && TimeMatches(v.timeStart, v.timeEnd, at.minute)
    && (v.dowMask.Some? ==> Bit(v.dowMask.value, at.weekday))
  }

  /** A condition that is set holds of the request: the tier is the request's, the prompt lies from the lower bound up to the upper, the
      minute lies between the two times (around midnight when the first is the later, at any time when they are equal), and the
      weekday's bit is set. */
  predicate Fits(v: Variant, tier: string, promptTokens: int, at: Clock) {
    && (v.serviceTier == None || v.serviceTier == Some(tier))
    && (v.ctxMin == None || v.ctxMin.value <= promptTokens)
    && (v.ctxMax == None || promptTokens < v.ctxMax.value)
    && (v.timeStart.Some? && v.timeEnd.None? ==> v.timeStart.value <= at.minute)
    && (v.timeStart.None? && v.timeEnd.Some? ==> at.minute < v.timeEnd.value)
    && (v.timeStart.Some? && v.timeEnd.Some? && v.timeStart.value < v.timeEnd.value ==> v.timeStart.value <= at.minute < v.timeEnd.value)
    && (v.timeStart.Some? && v.timeEnd.Some? && v.timeStart.value > v.timeEnd.value ==>
          v.timeStart.value <= at.minute || at.minute < v.timeEnd.value)
    && (v.dowMask == None || v.dowMask.value / Pow2(at.weekday) % 2 == 1)
  }

  lemma MatchesFits(v: Variant, tier: string, promptTokens: int, at: Clock)
    ensures VariantMatches(v, tier, promptTokens, at) <==> Fits(v, tier, promptTokens, at)
  {}

  /** Two times split the day: the spans between them, one of which may wrap midnight, cover every minute exactly once. */
  lemma TimesSplitTheDay(s: int, e: int, cur: int)
    requires s != e
    ensures TimeMatches(Some(s), Some(e), cur) <==> !TimeMatches(Some(e), Some(s), cur)
    ensures TimeMatches(Some(s), Some(e), s) && !TimeMatches(Some(s), Some(e), e)
    ensures TimeMatches(Some(s), None, cur) <==> !TimeMatches(None, Some(s), cur)
  {}

  /** Context ranges that meet at a bound never both match. */
  lemma ContextsMeet(v: Variant, w: Variant, tier: string, promptTokens: int, at: Clock)
    requires v.ctxMax.Some? && w.ctxMin.Some? && v.ctxMax.value <= w.ctxMin.value
    ensures !(VariantMatches(v, tier, promptTokens, at) && VariantMatches(w, tier, promptTokens, at))
  {}

  /** A mask of one bit matches that weekday and no other. */
  lemma OneDayMask(k: nat, day: nat)
    ensures Bit(Pow2(k), day) <==> day == k
  {
    hide Pow2;
    if day <= k {
      Pow2Splits(k - day, day);
      Exactly(Pow2(k - day), Pow2(day));
      EvenUnlessOne(k - day);
    } else {
      Doubles(k, day);
      Fraction(Pow2(k), Pow2(day));
    }
  }

  lemma EvenUnlessOne(n: nat)
    ensures Pow2(n) % 2 == 1 <==> n == 0
  {
    if n > 0 { assert Pow2(n) == 2 * Pow2(n - 1); }
  }

  lemma {:induction false} Doubles(k: nat, day: nat)
    requires k < day
    ensures Pow2(k) < Pow2(day)
  {
    if k + 1 < day { Doubles(k, day - 1); }
  }

  lemma Exactly(a: int, b: int)
    requires b > 0
    ensures a * b / b == a
  {
    var q, r := a * b / b, a * b % b;
    assert (a - q) * b == r;
    if a > q { MulMono(b, 1, a - q); } else if a < q { MulMono(b, 1, q - a); }
  }

  lemma Fraction(a: int, b: int)
    requires 0 <= a < b
    ensures a / b == 0
  {}

  lemma {:induction false} Pow2Splits(a: nat, b: nat)
    ensures Pow2(a + b) == Pow2(a) * Pow2(b)
  {
    if a > 0 { Pow2Splits(a - 1, b); }
  }

  // ------------------------------------------------------- applying a variant

  function ClampMult(m: int): int { if m < 0 then 0 else if m > 100_000 then 100_000 else m }

  /** The multiplier in 64-bit arithmetic: a negative outcome is ignored. */
  function Multiply(p: int, mult: int): int {
    var val := DivTrunc(Wrap(Wrap(p * mult) + 5000), 10_000);
    if val < 0 then p else val
  }

  function MultiplyOpt(p: Option<int>, mult: int): Option<int> { if p.None? then None else Some(Multiply(p.value, mult)) }

  function Override(dst: Option<int>, src: Option<int>): Option<int> { if src.Some? then src else dst }

  function Map(c: Components, f: Option<int> -> Option<int>): Components {
    Components(f(c.inputPerM), f(c.outputPerM), f(c.cacheReadPerM), f(c.cacheWritePerM), f(c.perCall), f(c.imgInTokPerM),
               f(c.imgOutTokPerM), f(c.perImage))
  }

  function OverrideAll(c: Components, o: Components): Components {
    Components(Override(c.inputPerM, o.inputPerM), Override(c.outputPerM, o.outputPerM),
               Override(c.cacheReadPerM, o.cacheReadPerM), Override(c.cacheWritePerM, o.cacheWritePerM),
               Override(c.perCall, o.perCall), Override(c.imgInTokPerM, o.imgInTokPerM),
               Override(c.imgOutTokPerM, o.imgOutTokPerM), Override(c.perImage, o.perImage))
  }

  function Apply(v: Variant, c: Components): Components {
    OverrideAll(if v.multBp.None? then c else Map(c, p => MultiplyOpt(p, ClampMult(v.multBp.value))), v.overrides)
  }

  datatype Component = Input | Output | CacheRead | CacheWrite | PerCall | ImgInTok | ImgOutTok | PerImage

  function At(c: Components, k: Component): Option<int> {
    match k
    case Input => c.inputPerM
    case Output => c.outputPerM
    case CacheRead => c.cacheReadPerM
    case CacheWrite => c.cacheWritePerM
    case PerCall => c.perCall
    case ImgInTok => c.imgInTokPerM
    case ImgOutTok => c.imgOutTokPerM
    case PerImage => c.perImage
  }

  /** Component by component: an override wins, else the entry's own price times the multiplier, else the price as it was; a
      component neither the entry nor the variant has stays absent. */
  lemma ApplyAt(v: Variant, c: Components, k: Component)
    ensures At(v.overrides, k).Some? ==> At(Apply(v, c), k) == At(v.overrides, k)
    ensures At(v.overrides, k).None? && At(c, k).None? ==> At(Apply(v, c), k).None?
    ensures At(v.overrides, k).None? && At(c, k).Some? && v.multBp.None? ==> At(Apply(v, c), k) == At(c, k)
    ensures At(v.overrides, k).None? && At(c, k).Some? && v.multBp.Some? && 0 <= At(c, k).value <= PRICE_BOUND ==>
              At(Apply(v, c), k) == Some(HalfUp(At(c, k).value * (if v.multBp.value < 0 then 0 else if v.multBp.value > 100_000 then 100_000 else v.multBp.value), 10_000))
  {
    hide Multiply, HalfUp;
    if At(c, k).Some? && v.multBp.Some? && 0 <= At(c, k).value <= PRICE_BOUND { MultiplyExact(At(c, k).value, v.multBp.value); }
  }

  predicate Unconditional(v: Variant) {
    v.serviceTier.None? && v.ctxMin.None? && v.ctxMax.None? && v.timeStart.None? && v.timeEnd.None? && v.dowMask.None?
  }

  /** Variant `i` is the first that matches. */
  predicate FirstMatch(variants: seq<Variant>, tier: string, promptTokens: int, at: Clock, i: nat) {
    i < |variants| && Fits(variants[i], tier, promptTokens, at)
    && forall j | 0 <= j < i :: !Fits(variants[j], tier, promptTokens, at)
  }

  /** The first matching variant is applied, and only it; without one the entry's prices stand. */
  predicate ResolvesTo(c: Components, variants: seq<Variant>, tier: string, promptTokens: int, at: Clock, rp: Resolved) {
    if exists i: nat | i < |variants| :: FirstMatch(variants, tier, promptTokens, at, i)
    then exists i: nat | i < |variants| :: FirstMatch(variants, tier, promptTokens, at, i) && rp == Resolved(Apply(variants[i], c), Some(variants[i].seqNo))
    else rp == Resolved(c, None) && forall i | 0 <= i < |variants| :: !Fits(variants[i], tier, promptTokens, at)
  }

  method ResolveEntryPrices(entry: Option<Components>, variants: seq<Variant>, tier: string, promptTokens: int, at: Clock)
    returns (rp: Resolved, ok: bool)
    ensures ok <==> entry.Some?
    ensures ok ==> ResolvesTo(entry.value, variants, tier, promptTokens, at, rp)
    ensures ok && (forall v | v in variants :: v.serviceTier.Some? && v.serviceTier.value != tier) ==> rp == Resolved(entry.value, None)
    ensures ok && variants != [] && Unconditional(variants[0]) ==> rp == Resolved(Apply(variants[0], entry.value), Some(variants[0].seqNo))
  {
    if entry.None? { return Resolved(Components(None, None, None, None, None, None, None, None), None), false; }
    rp, ok := Resolved(entry.value, None), true;
    for i := 0 to |variants|
      invariant rp == Resolved(entry.value, None)
      invariant forall j | 0 <= j < i :: !Fits(variants[j], tier, promptTokens, at)
    {
      var v := variants[i];
      MatchesFits(v, tier, promptTokens, at);
      if !VariantMatches(v, tier, promptTokens, at) { continue; }
      var c := rp.prices;
      if v.multBp.Some? {
        var mult := ClampMult(v.multBp.value);
        c := c.(inputPerM := MultiplyOpt(c.inputPerM, mult));
        c := c.(outputPerM := MultiplyOpt(c.outputPerM, mult));
        c := c.(cacheReadPerM := MultiplyOpt(c.cacheReadPerM, mult));
        c := c.(cacheWritePerM := MultiplyOpt(c.cacheWritePerM, mult));
        c := c.(perCall := MultiplyOpt(c.perCall, mult));
        c := c.(imgInTokPerM := MultiplyOpt(c.imgInTokPerM, mult));
        c := c.(imgOutTokPerM := MultiplyOpt(c.imgOutTokPerM, mult));
        c := c.(perImage := MultiplyOpt(c.perImage, mult));
      }
      c := OverrideAll(c, v.overrides);
      rp := Resolved(c, Some(v.seqNo));
      assert FirstMatch(variants, tier, promptTokens, at, i);
      break;
    }
  }

  /** The outcome is fixed by the list: nothing after the first match matters. */
  lemma ResolvesToOne(c: Components, variants: seq<Variant>, more: seq<Variant>, tier: string, promptTokens: int, at: Clock,
                      rp: Resolved, rq: Resolved)
    requires ResolvesTo(c, variants, tier, promptTokens, at, rp) && ResolvesTo(c, variants + more, tier, promptTokens, at, rq)
    requires rp.variantSeq.Some? || more == []
    ensures rp == rq
  {
    hide Apply, Fits;
    var all := variants + more;
    if exists i: nat | i < |variants| :: FirstMatch(variants, tier, promptTokens, at, i) {
      var i: nat :| i < |variants| && FirstMatch(variants, tier, promptTokens, at, i);
      assert forall j | 0 <= j <= i :: all[j] == variants[j];
      assert FirstMatch(all, tier, promptTokens, at, i);
    } else {
      assert all == variants;
    }
  }

  // ------------------------------------------------------- the multiplier's arithmetic

  /** `a / b` rounded half up, for non-negative `a`. */
  function HalfUp(a: int, b: int): int
    requires b > 0
  {
    (a + b / 2) / b
  }

  /** The nearest multiple, the greater of two. */
  lemma HalfUpIs(a: int, b: int, q: int)
    requires b > 0 && b % 2 == 0
    ensures HalfUp(a, b) == q <==> q * b - b / 2 <= a < q * b + b / 2
  {
    var h := HalfUp(a, b);
    assert a + b / 2 == h * b + (a + b / 2) % b;
    if q < h { MulMono(b, 1, h - q); } else if q > h { MulMono(b, 1, q - h); }
  }

  /** The largest price that no multiplier overflows. */
  const PRICE_BOUND: int := (MAX_INT64 - 5000) / 100_000

  /** Up to the bound nothing overflows and the price is rounded half up. */
  lemma MultiplyExact(p: int, m: int)
    requires 0 <= p <= PRICE_BOUND
    ensures 0 <= p * ClampMult(m) && p * ClampMult(m) + 5000 <= MAX_INT64
    ensures Multiply(p, ClampMult(m)) == HalfUp(p * ClampMult(m), 10_000) >= 0
  {
    var k := ClampMult(m);
    assert 0 <= p * k <= p * 100_000 by { MulMono(p, k, 100_000); }
  }

  lemma MulMono(p: int, a: int, b: int)
    requires p >= 0 && 0 <= a <= b
    ensures 0 <= p * a <= p * b
  {}

  /** The multiplier rounds half up if and only if its product fits, the one exception being the neutral multiplier when the
      overflow turns negative and is ignored. */
  lemma MultiplyExactIff(p: int, mult: int)
    requires 0 <= p <= MAX_INT64 && 0 <= mult <= 100_000
    ensures Multiply(p, mult) == HalfUp(p * mult, 10_000) <==>
            p * mult + 5000 <= MAX_INT64 || (mult == 10_000 && Wrap(p * mult + 5000) <= -10_000)
  {
    MulMono(p, mult, 100_000);
    WrapAdd(p * mult, 5000);
    var x, w := p * mult + 5000, Wrap(p * mult + 5000);
    if x > MAX_INT64 {
      Wrapped(x);
      var val := DivTrunc(w, 10_000);
      if w > -10_000 {
        assert 10_000 * val <= w + 10_000;
        assert x < 10_000 * (x / 10_000) + 10_000;
      } else {
        assert val < 0;
        Neutral(p, mult);
      }
    }
  }

  lemma WrapAdd(a: int, b: int)
    ensures Wrap(Wrap(a) + b) == Wrap(a + b)
  {
    var q := (a + MAX_INT64 + 1) / TWO64;
    var q2 := (Wrap(a) + b + MAX_INT64 + 1) / TWO64;
    assert Wrap(a) == a - q * TWO64;
    var y := a + b + MAX_INT64 + 1;
    assert (y - q * TWO64) % TWO64 == y % TWO64 by { ModShift(y, q); }
  }

  lemma ModShift(y: int, q: int)
    ensures (y - q * TWO64) % TWO64 == y % TWO64
  {
    var d, r := y / TWO64, y % TWO64;
    assert y - q * TWO64 == (d - q) * TWO64 + r;
    ModUnique(y - q * TWO64, d - q, r);
  }

  lemma ModUnique(z: int, e: int, r: int)
    requires z == e * TWO64 + r && 0 <= r < TWO64
    ensures z % TWO64 == r
  {
    var f := z / TWO64;
    assert (f - e) * TWO64 == r - z % TWO64;
  }

  lemma Wrapped(x: int)
    requires x > MAX_INT64
    ensures Wrap(x) <= x - TWO64
  {}

  lemma Neutral(p: int, mult: int)
    requires p * mult + 5000 > MAX_INT64 && 0 <= p <= MAX_INT64 && 0 <= mult <= 100_000
    ensures p == HalfUp(p * mult, 10_000) <==> mult == 10_000
  {
    var x := p * mult + 5000;
    assert 10_000 * (x / 10_000) <= x < 10_000 * (x / 10_000) + 10_000;
    if mult < 10_000 { MulMono(p, mult, 9_999); }
    if mult > 10_000 { MulMono(p, 10_001, mult); }
    if p < 20_000 { MulMono2(p, mult); }
  }

  lemma MulMono2(p: int, mult: int)
    requires 0 <= p < 20_000 && 0 <= mult <= 100_000
    ensures p * mult <= 20_000 * 100_000
  {}

  /** One milli-cent past the bound, the greatest multiplier gives a price that is not the product. */
  lemma BoundIsTight()
    ensures Multiply(PRICE_BOUND + 1, 100_000) != HalfUp((PRICE_BOUND + 1) * 100_000, 10_000)
  {
    MultiplyExactIff(PRICE_BOUND + 1, 100_000);
  }
}
