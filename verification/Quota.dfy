/** Saturating conversions from computed amounts to 32-bit quota, and the billing
    formulas built on them. float64 is a real number or one of the three special
    values; the rounding of float64 itself is not modelled. */
module Quota {
  import opened Wrappers

  datatype Float = NaN | NegInf | PosInf | Fin(v: real)

  datatype ClampKind = Overflow | Underflow | NotANumber

  datatype Converted = Converted(quota: int, clamp: Option<ClampKind>)

  const MAX_QUOTA: int := 2147483647
  const MIN_QUOTA: int := -2147483648

  /** The order of float64 on values that can be compared. */
  predicate Leq(a: Float, b: Float) {
    a != NaN && b != NaN &&
    (a == NegInf || b == PosInf || (a.Fin? && b.Fin? && a.v <= b.v))
  }

  function Trunc(x: real): int {
    if x >= 0.0 then x.Floor else -(-x).Floor
  }

  /** math.Round and decimal.Round(0): halves go away from zero. */
  function RoundHalfAway(x: real): int {
    if x >= 0.0 then (x + 0.5).Floor else -(-x + 0.5).Floor
  }

  function Round(f: Float): Float {
    if f.Fin? then Fin(RoundHalfAway(f.v) as real) else f
  }

  function Saturate(f: Float): Converted {
    match f
    case NaN => Converted(0, Some(NotANumber))
    case PosInf => Converted(MAX_QUOTA, Some(Overflow))
    case NegInf => Converted(MIN_QUOTA, Some(Underflow))
    case Fin(v) =>
      if v >= MAX_QUOTA as real then Converted(MAX_QUOTA, Some(Overflow))
      else if v <= MIN_QUOTA as real then Converted(MIN_QUOTA, Some(Underflow))
      else Converted(Trunc(v), None)
  }

  function QuotaFromFloat(f: Float): Converted { Saturate(f) }

  function QuotaRound(f: Float): Converted { Saturate(Round(f)) }

  function QuotaFromDecimal(d: real): Converted { Saturate(Fin(RoundHalfAway(d) as real)) }

  /** The strict variants turn a clamp into an error and never hand out a saturated value. */
  function Strict(c: Converted): Option<int> {
    if c.clamp.Some? then None else Some(c.quota)
  }

  // ---------------------------------------------------------------- rounding

  lemma RoundNearest(x: real)
    ensures -0.5 <= RoundHalfAway(x) as real - x <= 0.5
    ensures RoundHalfAway(-x) == -RoundHalfAway(x)
  {
  }

  lemma RoundMonotone(x: real, y: real)
    requires x <= y
    ensures RoundHalfAway(x) <= RoundHalfAway(y)
  {
    if x >= 0.0 {
      FloorMonotone(x + 0.5, y + 0.5);
    } else if y < 0.0 {
      FloorMonotone(-y + 0.5, -x + 0.5);
    }
  }

  lemma FloorMonotone(x: real, y: real)
    requires x <= y
    ensures x.Floor <= y.Floor
  {
  }

  /** The nearest integer reaches n exactly from n - 1/2 upwards, for positive n. */
  lemma RoundReaches(x: real, n: int)
    requires n > 0
    ensures RoundHalfAway(x) >= n <==> x >= n as real - 0.5
    ensures RoundHalfAway(x) <= -n <==> x <= 0.5 - n as real
  {
    if x >= 0.0 {
      assert (x + 0.5).Floor >= n <==> x + 0.5 >= n as real;
    } else {
      assert (-x + 0.5).Floor >= n <==> -x + 0.5 >= n as real;
    }
  }

  // ------------------------------------------------------------- conversions

  /** Every conversion lands in the int32 range, and is exact on integers strictly inside it. */
  lemma SaturateRange(f: Float)
    ensures MIN_QUOTA <= Saturate(f).quota <= MAX_QUOTA
    ensures Saturate(f).clamp.None? ==> MIN_QUOTA < Saturate(f).quota < MAX_QUOTA
    ensures f.Fin? && Saturate(f).clamp.None? ==>
              -1.0 < f.v - Saturate(f).quota as real < 1.0
              && (0.0 <= f.v ==> Saturate(f).quota as real <= f.v)
              && (f.v <= 0.0 ==> f.v <= Saturate(f).quota as real)
  {
  }

  /** Which conversions are clamped, and to what. */
  lemma SaturateExactly(f: Float)
    ensures f == NaN ==> QuotaFromFloat(f) == Converted(0, Some(NotANumber))
    ensures Leq(Fin(2147483647.0), f) ==> QuotaFromFloat(f) == Converted(2147483647, Some(Overflow))
    ensures Leq(f, Fin(-2147483648.0)) ==> QuotaFromFloat(f) == Converted(-2147483648, Some(Underflow))
    ensures f.Fin? && -2147483648.0 < f.v < 2147483647.0 ==> QuotaFromFloat(f).clamp.None?
  {
  }

  lemma SaturateMonotone(a: Float, b: Float)
    requires Leq(a, b)
    ensures Saturate(a).quota <= Saturate(b).quota
  {
    SaturateRange(a);
    SaturateRange(b);
    if a.Fin? && b.Fin? {
      if 0.0 <= a.v {
        FloorMonotone(a.v, b.v);
      } else if b.v < 0.0 {
        FloorMonotone(-b.v, -a.v);
      }
    }
  }

  lemma RoundedMonotone(a: Float, b: Float)
    requires Leq(a, b)
    ensures QuotaRound(a).quota <= QuotaRound(b).quota
  {
    if a.Fin? && b.Fin? { RoundMonotone(a.v, b.v); }
    SaturateMonotone(Round(a), Round(b));
  }

  /** A rounded conversion reports a clamp exactly when its input is NaN, or lies within one
      half of a bound or beyond it; otherwise the result is the nearest integer. The strict
      form fails on exactly those inputs. */
  lemma RoundClampsIff(f: Float)
    ensures QuotaRound(f).clamp.Some? <==>
              f == NaN || Leq(Fin(MAX_QUOTA as real - 0.5), f) || Leq(f, Fin(MIN_QUOTA as real + 0.5))
    ensures QuotaRound(f).clamp.None? ==> f.Fin? && -0.5 <= QuotaRound(f).quota as real - f.v <= 0.5
    ensures f == NaN ==> QuotaRound(f) == Converted(0, Some(NotANumber))
    ensures Leq(Fin(MAX_QUOTA as real - 0.5), f) ==> QuotaRound(f) == Converted(MAX_QUOTA, Some(Overflow))
    ensures Leq(f, Fin(MIN_QUOTA as real + 0.5)) ==> QuotaRound(f) == Converted(MIN_QUOTA, Some(Underflow))
    ensures Strict(QuotaRound(f)) == if QuotaRound(f).clamp.Some? then None else Some(QuotaRound(f).quota)
    ensures forall q :: Strict(QuotaRound(f)) == Some(q) ==> MIN_QUOTA < q < MAX_QUOTA
  {
    SaturateRange(Round(f));
    if f.Fin? {
      RoundReaches(f.v, MAX_QUOTA);
      RoundReaches(f.v, -MIN_QUOTA);
      RoundNearest(f.v);
      TruncInteger(RoundHalfAway(f.v));
    }
  }

  lemma TruncInteger(n: int)
    ensures Trunc(n as real) == n
    ensures RoundHalfAway(n as real) == n
  {
  }

  /** A decimal converts to a 32-bit value within one half of it, unless it reaches a bound half a unit
      early; exactly then the bound and a clamp are reported. */
  lemma DecimalConverts(d: real)
    ensures QuotaFromDecimal(d).clamp.None? <==> MIN_QUOTA as real + 0.5 < d < MAX_QUOTA as real - 0.5
    ensures QuotaFromDecimal(d).clamp.None? ==> -0.5 <= QuotaFromDecimal(d).quota as real - d <= 0.5
    ensures d >= MAX_QUOTA as real - 0.5 ==> QuotaFromDecimal(d) == Converted(MAX_QUOTA, Some(Overflow))
    ensures d <= MIN_QUOTA as real + 0.5 ==> QuotaFromDecimal(d) == Converted(MIN_QUOTA, Some(Underflow))
  {
    RoundReaches(d, MAX_QUOTA);
    RoundReaches(d, -MIN_QUOTA);
    RoundNearest(d);
    TruncInteger(RoundHalfAway(d));
  }

  lemma DecimalMonotone(d: real, e: real)
    requires d <= e
    ensures QuotaFromDecimal(d).quota <= QuotaFromDecimal(e).quota
  {
    RoundMonotone(d, e);
    SaturateMonotone(Fin(RoundHalfAway(d) as real), Fin(RoundHalfAway(e) as real));
  }

  // ----------------------------------------------------------- channel test

  datatype PriceData = PriceData(usePrice: bool, modelPrice: real, modelRatio: real, completionRatio: real)

  /** A token count scaled by a ratio and rounded: both stages of the per-token formula use it. */
  function Scaled(tokens: int, ratio: real): Converted {
    QuotaRound(Fin(tokens as real * ratio))
  }

  /** First stage: the completion tokens are scaled and added to the prompt tokens. */
  function WeightedTokens(p: PriceData, prompt: int, completion: int): int {
    prompt + Scaled(completion, p.completionRatio).quota
  }

  /** Second stage: the model ratio is applied, with a floor of one for priced models. */
  function Billed(tokens: int, modelRatio: real): int {
    var q := Scaled(tokens, modelRatio).quota;
    if modelRatio != 0.0 && q <= 0 then 1 else q
  }

  function SettleTestQuota(p: PriceData, prompt: int, completion: int, quotaPerUnit: real): int {
    if p.usePrice then QuotaFromFloat(Fin(p.modelPrice * quotaPerUnit)).quota
    else Billed(WeightedTokens(p, prompt, completion), p.modelRatio)
  }

  lemma MulMonotone(x: real, y: real, k: real)
    requires x <= y && 0.0 <= k
    ensures x * k <= y * k
  {
    assert (y - x) * k >= 0.0;
  }

  lemma ScaledOrder(n: int, n': int, k: real)
    requires n as real * k <= n' as real * k
    ensures Scaled(n, k).quota <= Scaled(n', k).quota
  {
    RoundedMonotone(Fin(n as real * k), Fin(n' as real * k));
  }

  lemma ScaledNearest(n: int, k: real)
    requires Scaled(n, k).clamp.None?
    ensures -0.5 <= Scaled(n, k).quota as real - n as real * k <= 0.5
  {
    RoundClampsIff(Fin(n as real * k));
  }

  /** More tokens never cost less, for ratios that are not negative. */
  lemma SettleMonotone(p: PriceData, prompt: int, completion: int, prompt': int, completion': int, unit: real)
    requires p.modelRatio >= 0.0 && p.completionRatio >= 0.0
    requires prompt <= prompt' && completion <= completion'
    ensures SettleTestQuota(p, prompt, completion, unit) <= SettleTestQuota(p, prompt', completion', unit)
  {
    MulMonotone(completion as real, completion' as real, p.completionRatio);
    ScaledOrder(completion, completion', p.completionRatio);
    var w, w' := WeightedTokens(p, prompt, completion), WeightedTokens(p, prompt', completion');
    MulMonotone(w as real, w' as real, p.modelRatio);
    ScaledOrder(w, w', p.modelRatio);
  }

  /** Per-token pricing with a nonzero ratio never bills below one. */
  /** In price mode the tokens do not matter: the price times the unit is truncated toward zero, or
      clamped to the bound it reaches. */
  lemma PriceSettles(p: PriceData, prompt: int, completion: int, unit: real, exact: real)
    requires p.usePrice && exact == p.modelPrice * unit
    ensures
      var q := SettleTestQuota(p, prompt, completion, unit);
      && (forall prompt', completion' :: SettleTestQuota(p, prompt', completion', unit) == q)
      && (exact >= MAX_QUOTA as real ==> q == MAX_QUOTA)
      && (exact <= MIN_QUOTA as real ==> q == MIN_QUOTA)
      && (MIN_QUOTA as real < exact < MAX_QUOTA as real ==>
            -1.0 < exact - q as real < 1.0 && (exact >= 0.0 ==> q as real <= exact) && (exact <= 0.0 ==> exact <= q as real))
  {
    SaturateRange(Fin(exact));
  }

  lemma PriceMonotone(p: PriceData, p': PriceData, prompt: int, completion: int, unit: real)
    requires p.usePrice && p'.usePrice && p.modelPrice <= p'.modelPrice && unit >= 0.0
    ensures SettleTestQuota(p, prompt, completion, unit) <= SettleTestQuota(p', prompt, completion, unit)
  {
    MulMonotone(p.modelPrice, p'.modelPrice, unit);
    PriceOrder(p, p', prompt, completion, unit, p.modelPrice * unit, p'.modelPrice * unit);
  }

  lemma PriceOrder(p: PriceData, p': PriceData, prompt: int, completion: int, unit: real, low: real, high: real)
    requires p.usePrice && p'.usePrice && low == p.modelPrice * unit && high == p'.modelPrice * unit && low <= high
    ensures SettleTestQuota(p, prompt, completion, unit) <= SettleTestQuota(p', prompt, completion, unit)
  {
    SaturateMonotone(Fin(low), Fin(high));
  }

  lemma SettleAtLeastOne(p: PriceData, prompt: int, completion: int, unit: real)
    requires !p.usePrice && p.modelRatio != 0.0
    ensures 1 <= SettleTestQuota(p, prompt, completion, unit) <= MAX_QUOTA
  {
    SaturateRange(Round(Fin(WeightedTokens(p, prompt, completion) as real * p.modelRatio)));
  }

  /** When neither stage clamps and the floor of one is not applied, the two roundings together
      move the bill by at most (modelRatio + 1) / 2 from the exact product. */
  lemma SettleError(p: PriceData, prompt: int, completion: int, unit: real, exact: real)
    requires !p.usePrice && p.modelRatio >= 0.0
    requires exact == prompt as real + completion as real * p.completionRatio
    requires Scaled(completion, p.completionRatio).clamp.None?
    requires
      var second := Scaled(WeightedTokens(p, prompt, completion), p.modelRatio);
      second.clamp.None? && (p.modelRatio == 0.0 || second.quota > 0)
    ensures
      var error := SettleTestQuota(p, prompt, completion, unit) as real - exact * p.modelRatio;
      -(0.5 * p.modelRatio + 0.5) <= error <= 0.5 * p.modelRatio + 0.5
  {
    WeightedNearest(p, prompt, completion, exact);
    BilledError(WeightedTokens(p, prompt, completion), exact, p.modelRatio);
  }

  lemma BilledError(w: int, exact: real, k: real)
    requires -0.5 <= w as real - exact <= 0.5 && k >= 0.0
    requires Scaled(w, k).clamp.None? && (k == 0.0 || Scaled(w, k).quota > 0)
    ensures -(0.5 * k + 0.5) <= Billed(w, k) as real - exact * k <= 0.5 * k + 0.5
  {
    ScaledNearest(w, k);
    AddErrors(Scaled(w, k).quota as real, w as real, exact, k);
  }

  /** Rounding before and after a scaling by k. */
  lemma AddErrors(bill: real, x: real, y: real, k: real)
    requires -0.5 <= x - y <= 0.5 && 0.0 <= k
    requires -0.5 <= bill - x * k <= 0.5
    ensures -(0.5 * k + 0.5) <= bill - y * k <= 0.5 * k + 0.5
  {
    ErrorAbove(bill, x, y, k);
    ErrorAbove(-bill, -x, -y, k);
    assert (-y) * k == -(y * k);
  }

  lemma ErrorAbove(bill: real, x: real, y: real, k: real)
    requires x <= y + 0.5 && 0.0 <= k
    requires bill <= x * k + 0.5
    ensures bill - y * k <= 0.5 * k + 0.5
  {
    MulMonotone(x, y + 0.5, k);
  }

  lemma WeightedNearest(p: PriceData, prompt: int, completion: int, exact: real)
    requires exact == prompt as real + completion as real * p.completionRatio
    requires Scaled(completion, p.completionRatio).clamp.None?
    ensures -0.5 <= WeightedTokens(p, prompt, completion) as real - exact <= 0.5
  {
    ScaledNearest(completion, p.completionRatio);
  }

  // ------------------------------------------------------------------ top-up

  /** decimal.Div keeps sixteen digits after the point and rounds the last one half away from zero. */
  const DIV_SCALE: int := 10000000000000000

  function DecimalDiv(a: int, b: int): real
    requires b > 0
  {
    RoundHalfAway(a as real / b as real * DIV_SCALE as real) as real / DIV_SCALE as real
  }

  /** Token display mode: the amount stored on the order. */
  function StoredAmount(tokens: int, quotaPerUnit: int): int
    requires quotaPerUnit > 0
  {
    Trunc(DecimalDiv(tokens, quotaPerUnit))
  }

  /** The quota credited when the order is paid. */
  function CreditFor(amount: int, quotaPerUnit: real): int {
    QuotaFromDecimal(amount as real * quotaPerUnit).quota
  }

  lemma FloorCharacter(x: real, n: int)
    requires n as real <= x < n as real + 1.0
    ensures x.Floor == n
  {
  }

  lemma QuotientParts(tokens: int, q: int) returns (frac: real)
    requires tokens >= 0 && q > 0
    ensures 0.0 <= frac < 1.0 && frac * q as real == (tokens % q) as real
    ensures tokens as real / q as real == (tokens / q) as real + frac
  {
    var a, r, m := tokens / q, tokens % q, q as real;
    frac := r as real / m;
    SignOfProduct(frac, m);
    SignOfProduct(frac - 1.0, m);
    assert tokens as real == a as real * m + r as real;
    assert (a as real * m + r as real) / m == a as real + frac;
  }

  lemma RoundedShift(a: int, frac: real)
    requires a >= 0 && 0.0 <= frac < 1.0
    ensures RoundHalfAway((a as real + frac) * DIV_SCALE as real)
              == a * DIV_SCALE + RoundHalfAway(frac * DIV_SCALE as real)
    ensures 0 <= RoundHalfAway(frac * DIV_SCALE as real) <= DIV_SCALE
  {
  }

  /** The sixteen-digit quotient truncates to the integer quotient, except when the remainder is
      so close to the divisor that the last digit rounds up to the next integer. */
  lemma StoredAmountExact(tokens: int, q: int)
    requires tokens >= 0 && q > 0
    ensures StoredAmount(tokens, q) ==
              if 2 * DIV_SCALE * (q - tokens % q) > q then tokens / q else tokens / q + 1
  {
    var a := tokens / q;
    var frac := QuotientParts(tokens, q);
    RoundedShift(a, frac);
    RoundsUpIff(tokens % q, q, frac);
    var k := RoundHalfAway(frac * DIV_SCALE as real);
    if k < DIV_SCALE {
      QuotientOfMultiple(a, DIV_SCALE, k);
    } else {
      QuotientOfMultiple(a + 1, DIV_SCALE, 0);
    }
  }

  lemma RoundsUpIff(r: int, q: int, frac: real)
    requires 0 <= r < q && frac * q as real == r as real
    requires 0.0 <= frac
    ensures RoundHalfAway(frac * DIV_SCALE as real) >= DIV_SCALE <==> 2 * DIV_SCALE * (q - r) <= q
  {
    var n := DIV_SCALE as real;
    var gap := (frac * n + 0.5 - n) * q as real;
    assert gap == r as real * n + 0.5 * q as real - n * q as real;
    assert 2.0 * gap == q as real - 2.0 * n * (q - r) as real;
    SignOfProduct(frac * n + 0.5 - n, q as real);
    assert gap >= 0.0 <==> 2 * DIV_SCALE * (q - r) <= q;
  }

  lemma QuotientOfMultiple(a: int, n: int, k: int)
    requires a >= 0 && n > 0 && 0 <= k < n
    ensures Trunc((a * n + k) as real / n as real) == a
  {
    var m := n as real;
    var x := (a * n + k) as real / m;
    assert x * m == a as real * m + k as real;
    SignOfProduct(x - a as real, m);
    SignOfProduct(x - (a as real + 1.0), m);
    FloorCharacter(x, a);
  }

  lemma SignOfProduct(z: real, m: real)
    requires m > 0.0
    ensures z * m >= 0.0 <==> z >= 0.0
  {
    if z < 0.0 { assert (-z) * m > 0.0; }
  }

  lemma CreditOfMultiple(a: int, q: int)
    requires a >= 0 && q > 0
    ensures CreditFor(a, q as real) == if a * q >= MAX_QUOTA then MAX_QUOTA else a * q
  {
    assert a as real * q as real == (a * q) as real;
    assert a * q >= 0;
    TruncInteger(a * q);
  }

  /** A token-mode request of `tokens` is credited the largest multiple of the unit that fits,
      capped at the int32 maximum, if and only if the divisor does not round a sub-unit request
      up; and whatever the unit, never more than was asked for. */
  lemma TokenTopUp(tokens: int, q: int)
    requires tokens >= 0 && q > 0
    ensures
      var credit := CreditFor(StoredAmount(tokens, q), q as real);
      var whole := tokens / q * q;
      && (credit == (if whole >= MAX_QUOTA then MAX_QUOTA else whole)
          <==> tokens >= q || 2 * DIV_SCALE * (q - tokens) > q)
      && credit <= tokens
      && (credit < MAX_QUOTA ==> tokens - q < credit)
  {
    StoredAmountExact(tokens, q);
    var a := tokens / q;
    CreditOfMultiple(StoredAmount(tokens, q), q);
    QuotientProduct(tokens, q, a);
  }

  lemma QuotientProduct(tokens: int, q: int, a: int)
    requires tokens >= 0 && q > 0 && a == tokens / q
    ensures tokens == a * q + tokens % q && (a + 1) * q == a * q + q
    ensures if tokens < q then a == 0 && tokens % q == tokens else a * q >= q
  {
  }
}
