// From a net exposure to capped instrument weights
// (src/adaptive_quant/quant/portfolio/policy.py:29-46,
// src/adaptive_quant/quant/backtest/allocation.py:67-122). Weights are exact reals; the
// code's 1e-12 tolerances are kept.
module Allocation {
  import opened Rounding

  datatype Symbol = QQQ | TQQQ | SQQQ

  const ORDER: seq<Symbol> := [QQQ, TQQQ, SQQQ]

  // The weight dictionary: one entry for each of the three instruments.
  datatype Weights = Weights(qqq: real, tqqq: real, sqqq: real) {
    function Of(s: Symbol): real {
      match s
      case QQQ => qqq
      case TQQQ => tqqq
      case SQQQ => sqqq
    }

    function With(s: Symbol, x: real): Weights {
      match s
      case QQQ => this.(qqq := x)
      case TQQQ => this.(tqqq := x)
      case SQQQ => this.(sqqq := x)
    }
  }

  const TOLERANCE := 0.000_000_000_001

  // The static limits of risk.yaml.
  datatype Limits = Limits(
    maxNet: real, maxInverse: real, maxGross: real, minCash: real, maxLeveraged: real,
    positionCaps: map<Symbol, real>, defaultCap: real)
  {
    // The bounds the configuration schema enforces.
    ghost predicate Valid() {
      && 0.0 <= maxNet <= 3.0 && 0.0 <= maxInverse <= 3.0
      && 0.0 <= maxGross <= 1.0 && 0.0 <= minCash <= 1.0 && 0.0 <= maxLeveraged <= 1.0
      && 0.0 <= defaultCap <= 1.0
      && (forall s :: s in positionCaps ==> 0.0 <= positionCaps[s] <= 1.0)
    }

    function Cap(s: Symbol): real {
      if s in positionCaps then positionCaps[s] else defaultCap
    }

    // What may be invested: the gross cap, and what the cash floor leaves.
    function Room(): real {
      Min(maxGross, 1.0 - minCash)
    }
  }

  datatype LongMode = QqqThenTqqq | TqqqOnly | QqqOnly

  datatype Adjustment = NetCapped | InverseCapped | PositionCapped(s: Symbol) | LeveragedScaled | GrossScaled

  function Min(a: real, b: real): real {
    if b < a then b else a
  }

  function Max(a: real, b: real): real {
    if b > a then b else a
  }

  // The instruments' leverages are 1, 3 and -3; the allocator refuses any others.
  function NetExposure(w: Weights): real {
    w.qqq + 3.0 * w.tqqq - 3.0 * w.sqqq
  }

  function Gross(w: Weights): real {
    w.qqq + w.tqqq + w.sqqq
  }

  function Leveraged(w: Weights): real {
    w.tqqq + w.sqqq
  }

  predicate NonNegative(w: Weights) {
    w.qqq >= 0.0 && w.tqqq >= 0.0 && w.sqqq >= 0.0
  }

  // ------------------------------------------------------------ the mapping

  function ExposureToWeights(e: real, mode: LongMode): Weights {
    if e < 0.0 then Weights(0.0, 0.0, Min(1.0, -e / 3.0))
    else match mode
      case QqqOnly => Weights(Min(e, 1.0), 0.0, 0.0)
      case TqqqOnly => Weights(0.0, Min(e / 3.0, 1.0), 0.0)
      case QqqThenTqqq =>
        if e <= 1.0 then Weights(e, 0.0, 0.0)
        else
          var t := Min((e - 1.0) / 2.0, 1.0);
          Weights(1.0 - t, t, 0.0)
  }

  // The weights reach the exposure as far as unlevered cash allows, and no further.
  lemma MappingReachesExposure(e: real, mode: LongMode)
    ensures var w := ExposureToWeights(e, mode);
      && NonNegative(w) && Gross(w) <= 1.0
      && NetExposure(w) == (if e < 0.0 then Max(e, -3.0) else Min(e, if mode == QqqOnly then 1.0 else 3.0))
      && (w.sqqq > 0.0 <==> e < 0.0)
  {
  }

  // The default mapping is the least leveraged one: any other long mix of the two funds
  // that reaches the same exposure within the same cash holds at least as much TQQQ.
  lemma LeastLeveragedMix(e: real, qqq: real, tqqq: real)
    requires 0.0 <= e <= 3.0 && 0.0 <= qqq && 0.0 <= tqqq && qqq + tqqq <= 1.0
    requires qqq + 3.0 * tqqq == e
    ensures ExposureToWeights(e, QqqThenTqqq).tqqq <= tqqq
  {
  }

  // ------------------------------------------------------------ the three passes

  // The share of `x` that brings `whole` down to `part`.
  function Scaled(x: real, part: real, whole: real): real
    requires whole > 0.0
  {
    x * (part / whole)
  }

  lemma ScaledBounds(x: real, part: real, whole: real)
    requires 0.0 <= x && 0.0 <= part <= whole && whole > 0.0
    ensures 0.0 <= Scaled(x, part, whole) <= x
  {
    var r := part / whole;
    assert r * whole == part;
    assert 0.0 <= r <= 1.0;
  }

  lemma ScaledSums(a: real, b: real, c: real, part: real, whole: real)
    requires whole > 0.0 && a + b + c == whole
    ensures Scaled(a, part, whole) + Scaled(b, part, whole) + Scaled(c, part, whole) == part
  {
    var r := part / whole;
    assert (a + b + c) * r == part;
  }

  function CapPosition(w: Weights, lim: Limits, s: Symbol): Weights {
    if w.Of(s) > lim.Cap(s) + TOLERANCE then w.With(s, lim.Cap(s)) else w
  }

  function CapPositions(w: Weights, lim: Limits, n: nat): Weights
    requires n <= |ORDER|
  {
    if n == 0 then w else CapPosition(CapPositions(w, lim, n - 1), lim, ORDER[n - 1])
  }

  predicate TooLeveraged(w: Weights, lim: Limits) {
    Leveraged(w) > lim.maxLeveraged + TOLERANCE
  }

  function ScaleLeveraged(w: Weights, lim: Limits): Weights
    requires lim.Valid()
  {
    if TooLeveraged(w, lim) then
      var total := Leveraged(w);
      w.(tqqq := Scaled(w.tqqq, lim.maxLeveraged, total), sqqq := Scaled(w.sqqq, lim.maxLeveraged, total))
    else w
  }

  predicate TooMuchInvested(w: Weights, lim: Limits) {
    Gross(w) > lim.Room() + TOLERANCE
  }

  function ScaleGross(w: Weights, lim: Limits): Weights
    requires lim.Valid()
  {
    if TooMuchInvested(w, lim) then
      var room, gross := lim.Room(), Gross(w);
      Weights(Scaled(w.qqq, room, gross), Scaled(w.tqqq, room, gross), Scaled(w.sqqq, room, gross))
    else w
  }

  function ApplyLimits(w: Weights, lim: Limits): Weights
    requires lim.Valid()
  {
    ScaleGross(ScaleLeveraged(CapPositions(w, lim, 3), lim), lim)
  }

  // What the limits ask for, within the tolerance.
  predicate WithinCaps(w: Weights, lim: Limits) {
    && w.qqq <= lim.Cap(QQQ) + TOLERANCE
    && w.tqqq <= lim.Cap(TQQQ) + TOLERANCE
    && w.sqqq <= lim.Cap(SQQQ) + TOLERANCE
  }

  predicate WithinLimits(w: Weights, lim: Limits) {
    && WithinCaps(w, lim)
    && !TooLeveraged(w, lim)
    && !TooMuchInvested(w, lim)
  }

  // No weight grows, and none turns negative.
  predicate Reduces(after: Weights, before: Weights) {
    && 0.0 <= after.qqq <= before.qqq
    && 0.0 <= after.tqqq <= before.tqqq
    && 0.0 <= after.sqqq <= before.sqqq
  }

  lemma CappedPositions(w: Weights, lim: Limits)
    requires lim.Valid() && NonNegative(w)
    ensures var c := CapPositions(w, lim, 3);
      Reduces(c, w) && WithinCaps(c, lim) && (WithinCaps(w, lim) <==> c == w)
  {
    var a := CapPosition(w, lim, QQQ);
    var b := CapPosition(a, lim, TQQQ);
    assert CapPositions(w, lim, 1) == CapPosition(CapPositions(w, lim, 0), lim, ORDER[0]) == a;
    assert CapPositions(w, lim, 2) == CapPosition(CapPositions(w, lim, 1), lim, ORDER[1]) == b;
  }

  lemma ScaledLeverage(w: Weights, lim: Limits)
    requires lim.Valid() && NonNegative(w)
    ensures var c := ScaleLeveraged(w, lim);
      Reduces(c, w) && !TooLeveraged(c, lim) && (TooLeveraged(w, lim) <==> c != w)
  {
    hide Scaled;
    if TooLeveraged(w, lim) {
      ScaledBounds(w.tqqq, lim.maxLeveraged, Leveraged(w));
      ScaledBounds(w.sqqq, lim.maxLeveraged, Leveraged(w));
      ScaledBounds(0.0, lim.maxLeveraged, Leveraged(w));
      ScaledSums(w.tqqq, w.sqqq, 0.0, lim.maxLeveraged, Leveraged(w));
    }
  }

  lemma ScaledGross(w: Weights, lim: Limits)
    requires lim.Valid() && NonNegative(w)
    ensures var c := ScaleGross(w, lim);
      Reduces(c, w) && !TooMuchInvested(c, lim) && (TooMuchInvested(w, lim) <==> c != w)
  {
    hide Scaled;
    if TooMuchInvested(w, lim) {
      ScaledBounds(w.qqq, lim.Room(), Gross(w));
      ScaledBounds(w.tqqq, lim.Room(), Gross(w));
      ScaledBounds(w.sqqq, lim.Room(), Gross(w));
      ScaledSums(w.qqq, w.tqqq, w.sqqq, lim.Room(), Gross(w));
    }
  }

  // After the three passes every limit holds at once, although each pass looks at one of
  // them; no weight has grown; and the passes do nothing exactly when there was nothing
  // to do.
  lemma LimitsHoldTogether(w: Weights, lim: Limits)
    requires lim.Valid() && NonNegative(w)
    ensures WithinLimits(ApplyLimits(w, lim), lim) && Reduces(ApplyLimits(w, lim), w)
    ensures WithinLimits(w, lim) <==> ApplyLimits(w, lim) == w
  {
    var a := CapPositions(w, lim, 3);
    var b := ScaleLeveraged(a, lim);
    CappedPositions(w, lim);
    ScaledLeverage(a, lim);
    ScaledGross(b, lim);
    hide Scaled, CapPositions, ScaleLeveraged, ScaleGross;
  }

  // Limiting twice is limiting once.
  lemma LimitsAreIdempotent(w: Weights, lim: Limits)
    requires lim.Valid() && NonNegative(w)
    ensures ApplyLimits(ApplyLimits(w, lim), lim) == ApplyLimits(w, lim)
  {
    LimitsHoldTogether(w, lim);
    LimitsHoldTogether(ApplyLimits(w, lim), lim);
  }

  // ------------------------------------------------------------ no more than needed

  // Each weight is as it was, or exactly at the cap it exceeded.
  predicate IsCapped(w: Weights, c: Weights, lim: Limits) {
    && c.qqq == (if w.qqq > lim.Cap(QQQ) + 0.000_000_000_001 then lim.Cap(QQQ) else w.qqq)
    && c.tqqq == (if w.tqqq > lim.Cap(TQQQ) + 0.000_000_000_001 then lim.Cap(TQQQ) else w.tqqq)
    && c.sqqq == (if w.sqqq > lim.Cap(SQQQ) + 0.000_000_000_001 then lim.Cap(SQQQ) else w.sqqq)
  }

  // Unless within the limit, the leveraged funds fill it, in the proportion they had.
  predicate IsDelevered(c: Weights, d: Weights, lim: Limits) {
    if c.tqqq + c.sqqq > lim.maxLeveraged + 0.000_000_000_001
    then d.qqq == c.qqq && d.tqqq + d.sqqq == lim.maxLeveraged && d.tqqq * c.sqqq == d.sqqq * c.tqqq
    else d == c
  }

  // Unless within the room, all three fill it, in the proportion they had.
  predicate IsFitted(d: Weights, v: Weights, lim: Limits) {
    var room := if 1.0 - lim.minCash < lim.maxGross then 1.0 - lim.minCash else lim.maxGross;
    if d.qqq + d.tqqq + d.sqqq > room + 0.000_000_000_001
    then
      && v.qqq + v.tqqq + v.sqqq == room
      && v.qqq * d.tqqq == v.tqqq * d.qqq && v.tqqq * d.sqqq == v.sqqq * d.tqqq && v.qqq * d.sqqq == v.sqqq * d.qqq
    else v == d
  }

  lemma SameProportion(a: real, b: real, part: real, whole: real)
    requires whole > 0.0
    ensures Scaled(a, part, whole) * b == Scaled(b, part, whole) * a
  {
    var r := part / whole;
    assert (a * r) * b == (b * r) * a;
  }

  // The passes take no more than they must: caps first, then the leveraged funds, then
  // everything, each exactly to its limit and without changing the mix.
  lemma LimitsTakeNoMore(w: Weights, lim: Limits) returns (c: Weights, d: Weights)
    requires lim.Valid() && NonNegative(w)
    ensures IsCapped(w, c, lim) && IsDelevered(c, d, lim) && IsFitted(d, ApplyLimits(w, lim), lim)
  {
    c := CapPositions(w, lim, 3);
    d := ScaleLeveraged(c, lim);
    CapsAre(w, lim);
    CappedPositions(w, lim);
    DeleveredIs(c, lim);
    ScaledLeverage(c, lim);
    FittedIs(d, lim);
    hide CapPositions, ScaleLeveraged, ScaleGross, IsCapped, IsDelevered, IsFitted;
  }

  lemma CapsAre(w: Weights, lim: Limits)
    ensures IsCapped(w, CapPositions(w, lim, 3), lim)
  {
    var a := CapPosition(w, lim, QQQ);
    var b := CapPosition(a, lim, TQQQ);
    assert CapPositions(w, lim, 1) == CapPosition(CapPositions(w, lim, 0), lim, ORDER[0]) == a;
    assert CapPositions(w, lim, 2) == CapPosition(CapPositions(w, lim, 1), lim, ORDER[1]) == b;
  }

  lemma DeleveredIs(c: Weights, lim: Limits)
    requires lim.Valid() && NonNegative(c)
    ensures IsDelevered(c, ScaleLeveraged(c, lim), lim)
  {
    hide Scaled;
    if TooLeveraged(c, lim) {
      ScaledSums(c.tqqq, c.sqqq, 0.0, lim.maxLeveraged, Leveraged(c));
      ScaledBounds(0.0, lim.maxLeveraged, Leveraged(c));
      SameProportion(c.tqqq, c.sqqq, lim.maxLeveraged, Leveraged(c));
    }
  }

  lemma FittedIs(d: Weights, lim: Limits)
    requires lim.Valid() && NonNegative(d)
    ensures IsFitted(d, ScaleGross(d, lim), lim)
  {
    hide Scaled;
    if TooMuchInvested(d, lim) {
      var room, gross := lim.Room(), Gross(d);
      ScaledSums(d.qqq, d.tqqq, d.sqqq, room, gross);
      SameProportion(d.qqq, d.tqqq, room, gross);
      SameProportion(d.tqqq, d.sqqq, room, gross);
      SameProportion(d.qqq, d.sqqq, room, gross);
    }
  }

  // ------------------------------------------------------------ the allocation

  // The requested exposure clipped to the long and the inverse limit.
  function Clip(e: real, lim: Limits): real {
    Max(Min(e, lim.maxNet), -lim.maxInverse)
  }

  lemma ClipBounds(e: real, lim: Limits)
    requires lim.Valid()
    ensures 0.0 <= lim.maxInverse && 0.0 <= lim.maxNet
    ensures -lim.maxInverse <= Clip(e, lim) <= lim.maxNet
    ensures if 0.0 <= e then 0.0 <= Clip(e, lim) <= e else e <= Clip(e, lim) <= 0.0
  {
  }

  // A mix is long or inverse, never both.
  predicate OneSided(w: Weights) {
    w.sqqq == 0.0 || (w.qqq == 0.0 && w.tqqq == 0.0)
  }

  lemma MappedBounds(e: real, mode: LongMode)
    ensures var w := ExposureToWeights(e, mode);
      && OneSided(w) && NonNegative(w)
      && (if 0.0 <= e then w.sqqq == 0.0 && 0.0 <= NetExposure(w) <= e
        else w.qqq == 0.0 == w.tqqq && e <= NetExposure(w) <= 0.0)
  {
    MappingReachesExposure(e, mode);
  }

  // Reducing the weights of a one-sided mix keeps the net exposure on its side and never
  // increases it.
  lemma ReducedExposure(after: Weights, before: Weights)
    requires Reduces(after, before)
    ensures before.sqqq == 0.0 ==> 0.0 <= NetExposure(after) <= NetExposure(before)
    ensures before.qqq == 0.0 == before.tqqq ==> NetExposure(before) <= NetExposure(after) <= 0.0
    ensures OneSided(before) ==> OneSided(after)
  {
  }

  lemma ExposureChain(clipped: real, w: Weights, v: Weights)
    requires Reduces(v, w)
    requires if 0.0 <= clipped then w.sqqq == 0.0 && NetExposure(w) <= clipped
             else w.qqq == 0.0 && w.tqqq == 0.0 && clipped <= NetExposure(w)
    ensures if 0.0 <= clipped then 0.0 <= NetExposure(v) <= clipped else clipped <= NetExposure(v) <= 0.0
    ensures OneSided(v)
  {
    ReducedExposure(v, w);
  }

  // Whatever exposure is asked for, the capped weights carry one between the inverse and
  // the long limit, on the asked side, and no more than was asked.
  lemma NetExposureWithinLimits(e: real, mode: LongMode, lim: Limits)
    requires lim.Valid()
    ensures var v := ApplyLimits(ExposureToWeights(Clip(e, lim), mode), lim);
      && NonNegative(v) && OneSided(v)
      && -lim.maxInverse <= NetExposure(v) <= lim.maxNet
      && (if 0.0 <= e then 0.0 <= NetExposure(v) <= e else e <= NetExposure(v) <= 0.0)
  {
    ClipBounds(e, lim);
    ClippedExposure(Clip(e, lim), mode, lim);
    hide *;
  }

  lemma ClippedExposure(clipped: real, mode: LongMode, lim: Limits)
    requires lim.Valid()
    ensures var v := ApplyLimits(ExposureToWeights(clipped, mode), lim);
      && NonNegative(v) && OneSided(v)
      && (if 0.0 <= clipped then 0.0 <= NetExposure(v) <= clipped else clipped <= NetExposure(v) <= 0.0)
  {
    var w := ExposureToWeights(clipped, mode);
    MappedBounds(clipped, mode);
    LimitsHoldTogether(w, lim);
    hide Scaled, ApplyLimits, ExposureToWeights, Clip, NetExposure, WithinLimits;
    ExposureChain(clipped, w, ApplyLimits(w, lim));
  }

  // quantize_weight: a weight in millionths.
  function Millionths(x: real): int {
    RoundHalfEven(x * 1_000_000.0)
  }

  datatype Allocated = Allocated(qqq: int, tqqq: int, sqqq: int) {
    function Net(): int {
      qqq + 3 * tqqq - 3 * sqqq
    }

    function Gross(): int {
      qqq + tqqq + sqqq
    }
  }

  function Rounded(w: Weights): Allocated {
    Allocated(Millionths(w.qqq), Millionths(w.tqqq), Millionths(w.sqqq))
  }

  function Allocate(e: real, mode: LongMode, lim: Limits): Allocated
    requires lim.Valid()
  {
    Rounded(ApplyLimits(ExposureToWeights(Clip(e, lim), mode), lim))
  }

  lemma RoundedWeight(x: real)
    ensures -0.5 <= 1_000_000.0 * x - Millionths(x) as real <= 0.5
    ensures x >= 0.0 ==> Millionths(x) >= 0
    ensures x == 0.0 ==> Millionths(x) == 0
  {
    if x >= 0.0 {
      RoundingIsMonotone(0.0, x * 1_000_000.0);
      RoundingIsUnique(0.0, 0);
    }
  }

  // What is traded, from what is asked for: clipped to the net limits, mapped, limited and
  // each weight rounded to millionths.
  lemma AllocationIs(e: real, mode: LongMode, lim: Limits)
    requires lim.Valid()
    ensures var asked := if e > lim.maxNet then lim.maxNet else if e < -lim.maxInverse then -lim.maxInverse else e;
      var v, a := ApplyLimits(ExposureToWeights(asked, mode), lim), Allocate(e, mode, lim);
      && Nearest(a.qqq, v.qqq * 1_000_000.0) && Nearest(a.tqqq, v.tqqq * 1_000_000.0)
      && Nearest(a.sqqq, v.sqqq * 1_000_000.0)
  {
    hide RoundHalfEven, ApplyLimits, ExposureToWeights;
  }

  // Position caps that are a whole number of millionths are kept exactly, after rounding
  // and in spite of the tolerance.
  lemma WholeCapsAreKept(e: real, mode: LongMode, lim: Limits, capQ: int, capT: int, capS: int)
    requires lim.Valid() && lim.Cap(QQQ) == capQ as real / 1_000_000.0
    requires lim.Cap(TQQQ) == capT as real / 1_000_000.0 && lim.Cap(SQQQ) == capS as real / 1_000_000.0
    ensures var a := Allocate(e, mode, lim); a.qqq <= capQ && a.tqqq <= capT && a.sqqq <= capS
  {
    var clipped := Clip(e, lim);
    var w := ExposureToWeights(clipped, mode);
    MappingReachesExposure(clipped, mode);
    LimitsHoldTogether(w, lim);
    hide Scaled, ApplyLimits, ExposureToWeights, Clip;
  }

  // ------------------------------------------------------------ in place

  // The passes as the code runs them, with the adjustments it records.
  method LimitInPlace(start: Weights, lim: Limits) returns (w: Weights, adjustments: seq<Adjustment>)
    requires lim.Valid() && NonNegative(start)
    ensures w == ApplyLimits(start, lim)
    ensures adjustments == [] <==> w == start
  {
    hide Scaled;
    w, adjustments := start, [];
    for i := 0 to |ORDER|
      invariant w == CapPositions(start, lim, i)
      invariant adjustments == [] ==> w == start
      invariant adjustments != [] ==> !WithinCaps(start, lim)
    {
      var s := ORDER[i];
      if w.Of(s) > lim.Cap(s) + TOLERANCE {
        adjustments := adjustments + [PositionCapped(s)];
        CapsOnlyWhenNeeded(start, lim, i);
        w := w.With(s, lim.Cap(s));
      }
    }
    CappedPositions(start, lim);
    ghost var capped := w;
    ScaledLeverage(capped, lim);
    var total := Leveraged(w);
    if total > lim.maxLeveraged + TOLERANCE {
      adjustments := adjustments + [LeveragedScaled];
      w := w.(tqqq := Scaled(w.tqqq, lim.maxLeveraged, total), sqqq := Scaled(w.sqqq, lim.maxLeveraged, total));
    }
    ghost var scaled := w;
    ScaledGross(scaled, lim);
    var room, gross := lim.Room(), Gross(w);
    if gross > room + TOLERANCE {
      adjustments := adjustments + [GrossScaled];
      w := Weights(Scaled(w.qqq, room, gross), Scaled(w.tqqq, room, gross), Scaled(w.sqqq, room, gross));
    }
    LimitsHoldTogether(start, lim);
  }

  lemma CapsOnlyWhenNeeded(start: Weights, lim: Limits, i: nat)
    requires i < |ORDER| && CapPositions(start, lim, i).Of(ORDER[i]) > lim.Cap(ORDER[i]) + TOLERANCE
    ensures !WithinCaps(start, lim)
  {
    if i >= 1 { assert CapPositions(start, lim, 1) == CapPosition(start, lim, QQQ); }
    if i == 2 { assert CapPositions(start, lim, 2) == CapPosition(CapPositions(start, lim, 1), lim, TQQQ); }
  }
}
