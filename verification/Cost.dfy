/** From resolved prices and counts to an amount, in 64-bit arithmetic. */
module Cost {
  import opened Ints
  import opened Options
  import opened Prices

  const PER_MILLION: int := 1_000_000
  const SEG_BUDGET: int := (MAX_INT64 - PER_MILLION / 2) / 8
  const TOTAL_CAP: int := MAX_INT64 / 100_000

  function AtLeastZero(t: int): int { if t < 0 then 0 else t }

  function OrZero(p: Option<int>): int { if p.Some? then p.value else 0 }

  function ClampToken(t: int, p: int): int { if p > 0 && t > SEG_BUDGET / p then SEG_BUDGET / p else t }

  /** One component: a clamped count times a price. */
  function Segment(t: int, p: int): int { Wrap(ClampToken(AtLeastZero(t), p) * p) }

  function RoundRaw(raw: int): int { DivTrunc(Wrap(raw + PER_MILLION / 2), PER_MILLION) }

  /** Counts of uncached input, output, cached reads and cache writes. */
  datatype Tokens = Tokens(input: int, output: int, cacheRead: int, cacheWrite: int)

  function RawCost(c: Components, n: Tokens): int {
    Wrap(Wrap(Wrap(Segment(n.input, OrZero(c.inputPerM)) + Segment(n.output, OrZero(c.outputPerM)))
              + Segment(n.cacheRead, OrZero(c.cacheReadPerM)))
         + Segment(n.cacheWrite, OrZero(c.cacheWritePerM)))
  }

  function CostFromResolved(c: Components, n: Tokens): int { RoundRaw(RawCost(c, n)) }

  /** A count times a price, the count clamped to keep the product under the cap. */
  function CappedProduct(count: int, p: int): int {
    if p > 0 && count > 0 then Wrap((if count > TOTAL_CAP / p then TOTAL_CAP / p else count) * p) else 0
  }

  function ImageCostFromResolved(c: Components, inTok: int, outTok: int, count: int): int {
    var raw := Wrap(Segment(inTok, OrZero(c.imgInTokPerM)) + Segment(outTok, OrZero(c.imgOutTokPerM)));
    var total := Wrap(RoundRaw(raw) + CappedProduct(AtLeastZero(count), OrZero(c.perImage)));
    if total < TOTAL_CAP then total else TOTAL_CAP
  }

  function CallCostFromResolved(c: Components, count: int): int {
    if c.perCall.None? then 0 else CappedProduct(AtLeastZero(count), c.perCall.value)
  }

  // ------------------------------------------------------- products without overflow

  /** Price times count as integers, negative counts being nothing. */
  function Exact(t: int, p: int): int { if t > 0 then t * p else 0 }

  /** The price of a component, nothing when it has none. */
  function PriceOf(p: Option<int>): int {
    match p
    case None => 0
    case Some(v) => v
  }

  /** A limit divided by a price bounds the count exactly when the limit bounds the product. */
  lemma Quotient(limit: int, t: int, p: int)
    requires limit >= 0 && p > 0 && t >= 0
    ensures t <= limit / p <==> t * p <= limit
    ensures 0 <= limit / p * p <= limit
  {
    var q := limit / p;
    assert limit == q * p + limit % p;
    if t <= q { Scale(t, q, p); } else { Scale(q + 1, t, p); }
  }

  lemma Scale(a: int, b: int, p: int)
    requires a <= b && p >= 0
    ensures a * p <= b * p
  {}

  /** A component never overflows and stays within its budget; it is the exact product unless that exceeds the budget. */
  lemma SegmentBound(t: int, p: int)
    requires 0 <= p
    ensures 0 <= Segment(t, p) <= SEG_BUDGET
    ensures Segment(t, p) == ClampToken(AtLeastZero(t), p) * p <= Exact(t, p)
    ensures Segment(t, p) == Exact(t, p) <==> Exact(t, p) <= SEG_BUDGET
  {
    var n := AtLeastZero(t);
    if p > 0 { Quotient(SEG_BUDGET, n, p); }
  }

  lemma SegmentMonotone(s: int, t: int, p: int)
    requires 0 <= p && s <= t
    ensures Segment(s, p) <= Segment(t, p)
  {
    SegmentBound(s, p);
    SegmentBound(t, p);
    Scale(ClampToken(AtLeastZero(s), p), ClampToken(AtLeastZero(t), p), p);
  }

  /** Prices are never negative when they reach the cost functions. */
  predicate NonNegative(c: Components) {
    && OrZero(c.inputPerM) >= 0 && OrZero(c.outputPerM) >= 0 && OrZero(c.cacheReadPerM) >= 0 && OrZero(c.cacheWritePerM) >= 0
    && OrZero(c.perCall) >= 0 && OrZero(c.imgInTokPerM) >= 0 && OrZero(c.imgOutTokPerM) >= 0 && OrZero(c.perImage) >= 0
  }

  /** The sum of the four components as integers. */
  function ExactSum(c: Components, n: Tokens): int {
    Exact(n.input, PriceOf(c.inputPerM)) + Exact(n.output, PriceOf(c.outputPerM)) + Exact(n.cacheRead, PriceOf(c.cacheReadPerM))
    + Exact(n.cacheWrite, PriceOf(c.cacheWritePerM))
  }

  function SegmentSum(c: Components, n: Tokens): int {
    Segment(n.input, OrZero(c.inputPerM)) + Segment(n.output, OrZero(c.outputPerM)) + Segment(n.cacheRead, OrZero(c.cacheReadPerM))
    + Segment(n.cacheWrite, OrZero(c.cacheWritePerM))
  }

  predicate WithinBudget(c: Components, n: Tokens) {
    && Exact(n.input, PriceOf(c.inputPerM)) <= (MAX_INT64 - 500_000) / 8 && Exact(n.output, PriceOf(c.outputPerM)) <= (MAX_INT64 - 500_000) / 8
    && Exact(n.cacheRead, PriceOf(c.cacheReadPerM)) <= (MAX_INT64 - 500_000) / 8 && Exact(n.cacheWrite, PriceOf(c.cacheWritePerM)) <= (MAX_INT64 - 500_000) / 8
  }

  lemma SumBounds(c: Components, n: Tokens)
    requires NonNegative(c)
    ensures RawCost(c, n) == SegmentSum(c, n) && 0 <= SegmentSum(c, n) <= 4 * SEG_BUDGET
    ensures SegmentSum(c, n) <= ExactSum(c, n)
    ensures SegmentSum(c, n) == ExactSum(c, n) <==> WithinBudget(c, n)
  {
    hide Segment, Exact, Wrap;
    SegmentBound(n.input, OrZero(c.inputPerM));
    SegmentBound(n.output, OrZero(c.outputPerM));
    SegmentBound(n.cacheRead, OrZero(c.cacheReadPerM));
    SegmentBound(n.cacheWrite, OrZero(c.cacheWritePerM));
  }

  lemma RoundBounds(raw: int)
    requires 0 <= raw <= 4 * SEG_BUDGET
    ensures RoundRaw(raw) == HalfUp(raw, PER_MILLION)
    ensures 0 <= RoundRaw(raw) <= TOTAL_CAP
  {}

  lemma HalfUpMonotone(a: int, b: int)
    requires a <= b
    ensures HalfUp(a, PER_MILLION) <= HalfUp(b, PER_MILLION)
  {}

  // ------------------------------------------------------- the three costs

  /** Token cost: no overflow, in range, never above the exact amount, and the exact sum rounded half up whenever no product exceeds
      its budget. */
  lemma TokenCost(c: Components, n: Tokens)
    requires NonNegative(c)
    ensures 0 <= CostFromResolved(c, n) <= MAX_INT64 / 100_000
    ensures CostFromResolved(c, n) <= HalfUp(ExactSum(c, n), PER_MILLION)
    ensures WithinBudget(c, n) ==> CostFromResolved(c, n) == HalfUp(ExactSum(c, n), PER_MILLION)
  {
    hide RawCost, SegmentSum, ExactSum, WithinBudget, RoundRaw, HalfUp;
    SumBounds(c, n);
    RoundBounds(RawCost(c, n));
    HalfUpMonotone(SegmentSum(c, n), ExactSum(c, n));
  }

  predicate AtMost(m: Tokens, n: Tokens) {
    m.input <= n.input && m.output <= n.output && m.cacheRead <= n.cacheRead && m.cacheWrite <= n.cacheWrite
  }

  lemma TokenCostMonotone(c: Components, m: Tokens, n: Tokens)
    requires NonNegative(c) && AtMost(m, n)
    ensures CostFromResolved(c, m) <= CostFromResolved(c, n)
  {
    hide RawCost, Segment, RoundRaw, HalfUp, ExactSum, WithinBudget;
    SumBounds(c, m);
    SumBounds(c, n);
    SegmentMonotone(m.input, n.input, OrZero(c.inputPerM));
    SegmentMonotone(m.output, n.output, OrZero(c.outputPerM));
    SegmentMonotone(m.cacheRead, n.cacheRead, OrZero(c.cacheReadPerM));
    SegmentMonotone(m.cacheWrite, n.cacheWrite, OrZero(c.cacheWritePerM));
    RoundBounds(RawCost(c, m));
    RoundBounds(RawCost(c, n));
    HalfUpMonotone(RawCost(c, m), RawCost(c, n));
  }

  lemma ProductBound(count: int, p: int)
    requires p >= 0 && count >= 0
    ensures 0 <= CappedProduct(count, p) <= TOTAL_CAP
    ensures CappedProduct(count, p) <= count * p
    ensures CappedProduct(count, p) == count * p <==> count * p <= TOTAL_CAP
  {
    if p > 0 && count > 0 { Quotient(TOTAL_CAP, count, p); }
  }

  lemma ProductMonotone(a: int, b: int, p: int)
    requires p >= 0 && 0 <= a <= b
    ensures CappedProduct(a, p) <= CappedProduct(b, p)
  {
    ProductBound(a, p);
    ProductBound(b, p);
    if p > 0 && a > 0 {
      Quotient(TOTAL_CAP, a, p);
      Quotient(TOTAL_CAP, b, p);
      Scale(if a > TOTAL_CAP / p then TOTAL_CAP / p else a, if b > TOTAL_CAP / p then TOTAL_CAP / p else b, p);
    }
  }

  /** Call cost: in range, monotone, and count times price unless that exceeds the cap. */
  lemma CallCost(c: Components, count: int, more: int)
    requires NonNegative(c) && count <= more
    ensures 0 <= CallCostFromResolved(c, count) <= MAX_INT64 / 100_000
    ensures CallCostFromResolved(c, count) <= CallCostFromResolved(c, more)
    ensures CallCostFromResolved(c, count) == Exact(count, PriceOf(c.perCall)) <==> Exact(count, PriceOf(c.perCall)) <= MAX_INT64 / 100_000
  {
    hide CappedProduct;
    ProductBound(AtLeastZero(count), OrZero(c.perCall));
    ProductMonotone(AtLeastZero(count), AtLeastZero(more), OrZero(c.perCall));
  }

  /** The two token components of an image request before rounding. */
  function ImageTokens(c: Components, inTok: int, outTok: int): int {
    Segment(inTok, OrZero(c.imgInTokPerM)) + Segment(outTok, OrZero(c.imgOutTokPerM))
  }

  /** Image cost without machine arithmetic: rounded tokens plus images, up to the cap. */
  lemma ImageCostIs(c: Components, inTok: int, outTok: int, count: int)
    requires NonNegative(c)
    ensures 0 <= ImageTokens(c, inTok, outTok) <= 2 * SEG_BUDGET
    ensures var total := HalfUp(ImageTokens(c, inTok, outTok), PER_MILLION) + CappedProduct(AtLeastZero(count), OrZero(c.perImage));
            0 <= ImageCostFromResolved(c, inTok, outTok, count) == (if total < TOTAL_CAP then total else TOTAL_CAP) <= TOTAL_CAP
  {
    hide Segment, CappedProduct, HalfUp, RoundRaw, Wrap;
    SegmentBound(inTok, OrZero(c.imgInTokPerM));
    SegmentBound(outTok, OrZero(c.imgOutTokPerM));
    RoundBounds(ImageTokens(c, inTok, outTok));
    ProductBound(AtLeastZero(count), OrZero(c.perImage));
  }

  lemma ImageCostMonotone(c: Components, in1: int, out1: int, n1: int, in2: int, out2: int, n2: int)
    requires NonNegative(c) && in1 <= in2 && out1 <= out2 && n1 <= n2
    ensures ImageCostFromResolved(c, in1, out1, n1) <= ImageCostFromResolved(c, in2, out2, n2)
  {
    hide Segment, CappedProduct, HalfUp, ImageCostFromResolved;
    ImageCostIs(c, in1, out1, n1);
    ImageCostIs(c, in2, out2, n2);
    SegmentMonotone(in1, in2, OrZero(c.imgInTokPerM));
    SegmentMonotone(out1, out2, OrZero(c.imgOutTokPerM));
    HalfUpMonotone(ImageTokens(c, in1, out1), ImageTokens(c, in2, out2));
    ProductMonotone(AtLeastZero(n1), AtLeastZero(n2), OrZero(c.perImage));
  }

  /** Image cost is the exact amount whenever no product exceeds its bound and the total does not exceed the cap. */
  lemma ImageCostExact(c: Components, inTok: int, outTok: int, count: int)
    requires NonNegative(c)
    ensures var tokens := Exact(inTok, PriceOf(c.imgInTokPerM)) + Exact(outTok, PriceOf(c.imgOutTokPerM));
            var total := HalfUp(tokens, PER_MILLION) + Exact(count, PriceOf(c.perImage));
            (Exact(inTok, PriceOf(c.imgInTokPerM)) <= (MAX_INT64 - 500_000) / 8 && Exact(outTok, PriceOf(c.imgOutTokPerM)) <= (MAX_INT64 - 500_000) / 8
             && total <= MAX_INT64 / 100_000) ==> ImageCostFromResolved(c, inTok, outTok, count) == total
  {
    hide Segment, CappedProduct, HalfUp, ImageCostFromResolved;
    ImageCostIs(c, inTok, outTok, count);
    SegmentBound(inTok, OrZero(c.imgInTokPerM));
    SegmentBound(outTok, OrZero(c.imgOutTokPerM));
    ProductBound(AtLeastZero(count), OrZero(c.perImage));
    RoundBounds(ImageTokens(c, inTok, outTok));
    NonNegativeHalfUp(Exact(inTok, OrZero(c.imgInTokPerM)) + Exact(outTok, OrZero(c.imgOutTokPerM)));
  }

  lemma NonNegativeHalfUp(a: int)
    ensures a >= 0 ==> HalfUp(a, PER_MILLION) >= 0
  {}

  // ------------------------------------------------------- end to end

  /** Every component is absent or between 0 and the multiplier's bound. */
  predicate InBound(c: Components) { NonNegative(c) && All(c, p => OrZero(p) <= PRICE_BOUND) }

  predicate All(c: Components, f: Option<int> -> bool) {
    f(c.inputPerM) && f(c.outputPerM) && f(c.cacheReadPerM) && f(c.cacheWritePerM) && f(c.perCall) && f(c.imgInTokPerM)
    && f(c.imgOutTokPerM) && f(c.perImage)
  }

  lemma MultiplyNonNegative(p: Option<int>, m: int)
    requires 0 <= OrZero(p) <= PRICE_BOUND
    ensures OrZero(MultiplyOpt(p, ClampMult(m))) >= 0
  {
    MultiplyExact(OrZero(p), m);
  }

  lemma ApplyNonNegative(v: Variant, c: Components)
    requires InBound(c) && NonNegative(v.overrides)
    ensures NonNegative(Apply(v, c))
  {
    hide MultiplyOpt;
    if v.multBp.Some? {
      var m := v.multBp.value;
      MultiplyNonNegative(c.inputPerM, m);
      MultiplyNonNegative(c.outputPerM, m);
      MultiplyNonNegative(c.cacheReadPerM, m);
      MultiplyNonNegative(c.cacheWritePerM, m);
      MultiplyNonNegative(c.perCall, m);
      MultiplyNonNegative(c.imgInTokPerM, m);
      MultiplyNonNegative(c.imgOutTokPerM, m);
      MultiplyNonNegative(c.perImage, m);
    }
  }

  lemma ResolvedNonNegative(c: Components, variants: seq<Variant>, tier: string, promptTokens: int, at: Clock, rp: Resolved)
    requires InBound(c) && (forall v | v in variants :: NonNegative(v.overrides))
    requires ResolvesTo(c, variants, tier, promptTokens, at, rp)
    ensures NonNegative(rp.prices)
  {
    hide NonNegative, Apply, FirstMatch;
    if exists i: nat | i < |variants| :: FirstMatch(variants, tier, promptTokens, at, i) {
      var i: nat :| i < |variants| && FirstMatch(variants, tier, promptTokens, at, i) && rp == Resolved(Apply(variants[i], c), Some(variants[i].seqNo));
      ApplyNonNegative(variants[i], c);
    }
  }

  /** From entry to amount: with prices in bound, whichever variant matches, all three costs lie between 0 and the cap. */
  lemma PriceToCost(entry: Components, variants: seq<Variant>, tier: string, promptTokens: int, at: Clock, rp: Resolved,
                    n: Tokens, inTok: int, outTok: int, images: int, calls: int)
    requires InBound(entry) && forall v | v in variants :: NonNegative(v.overrides)
    requires ResolvesTo(entry, variants, tier, promptTokens, at, rp)
    ensures 0 <= CostFromResolved(rp.prices, n) <= MAX_INT64 / 100_000
    ensures 0 <= ImageCostFromResolved(rp.prices, inTok, outTok, images) <= MAX_INT64 / 100_000
    ensures 0 <= CallCostFromResolved(rp.prices, calls) <= MAX_INT64 / 100_000
  {
    hide InBound, NonNegative, ResolvesTo, CostFromResolved, ImageCostFromResolved, CallCostFromResolved;
    ResolvedNonNegative(entry, variants, tier, promptTokens, at, rp);
    TokenCost(rp.prices, n);
    ImageCostIs(rp.prices, inTok, outTok, images);
    CallCost(rp.prices, calls, calls);
  }
}
