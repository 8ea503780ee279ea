// Weights are rounded to millionths after the caps are applied
// (src/adaptive_quant/quant/backtest/allocation.py:67-86): how far that can take them past
// a limit, and for which limits it never does.
module AllocationRounding {
  import opened Rounding
  import opened Allocation

  const MILLION := 1_000_000.0

  // ------------------------------------------------------------ rounding weights

  predicate Whole(x: real) {
    x.Floor as real == x
  }

  // Rounding `x` to millionths does not take it up.
  predicate RoundsDown(x: real) {
    Millionths(x) as real <= x * MILLION
  }

  lemma RoundsInOrder(x: real, y: real)
    requires x <= y
    ensures Millionths(x) <= Millionths(y)
  {
    RoundingIsMonotone(x * MILLION, y * MILLION);
  }

  lemma RoundsBackTo(y: real, whole: int)
    requires y <= whole as real + 0.25
    ensures RoundHalfEven(y) <= whole
  {
    RoundingIsUnique(whole as real + 0.25, whole);
    RoundingIsMonotone(y, whole as real + 0.25);
  }

  lemma InMillionths(x: real, limit: real)
    requires x <= limit + TOLERANCE
    ensures x * MILLION <= limit * MILLION + 0.25
  {
  }

  // A limit of whole millionths is kept, in spite of the tolerance.
  lemma RoundsWithin(x: real, limit: real)
    requires x <= limit + TOLERANCE && Whole(limit * MILLION)
    ensures Millionths(x) as real <= limit * MILLION
  {
    InMillionths(x, limit);
    RoundsBackTo(x * MILLION, (limit * MILLION).Floor);
  }

  // Of two weights with an even sum, one is rounded up exactly when the other is rounded
  // down.
  lemma RoundsMirrored(x: real, sum: int)
    requires sum % 2 == 0
    ensures RoundHalfEven(sum as real - x) == sum - RoundHalfEven(x)
  {
    hide RoundHalfEven;
    var r := RoundHalfEven(x);
    assert (sum - r) as real == sum as real - r as real;
    if r % 2 == 0 {
      EvenDifference(sum, r);
    }
    RoundingIsUnique(sum as real - x, sum - r);
  }

  lemma EvenDifference(sum: int, r: int)
    requires sum % 2 == 0 && r % 2 == 0
    ensures (sum - r) % 2 == 0
  {
  }

  // Two weights within an even sum round to numbers within it.
  lemma PairRoundsWithin(x: real, y: real, sum: int)
    requires x + y <= sum as real && sum % 2 == 0
    ensures RoundHalfEven(x) + RoundHalfEven(y) <= sum
  {
    RoundingIsMonotone(y, sum as real - x);
    RoundsMirrored(x, sum);
  }

  // One whole weight and another within a whole sum, up to the tolerance.
  lemma WholeAndOtherRoundWithin(whole: int, y: real, sum: int)
    requires whole as real + y <= sum as real + 0.25
    ensures RoundHalfEven(whole as real) == whole && whole + RoundHalfEven(y) <= sum
  {
    RoundingIsUnique(whole as real, whole);
  }

  // ------------------------------------------------------------ what the limits ask for

  // Every limit, exactly, of weights in millionths.
  predicate Keeps(a: Allocated, lim: Limits) {
    KeepsPositions(a, lim) && KeepsGross(a, lim) && KeepsNet(a, lim) && KeepsInverse(a, lim)
  }

  predicate KeepsPositions(a: Allocated, lim: Limits) {
    && a.qqq as real <= lim.Cap(QQQ) * MILLION
    && a.tqqq as real <= lim.Cap(TQQQ) * MILLION
    && a.sqqq as real <= lim.Cap(SQQQ) * MILLION
    && (a.tqqq + a.sqqq) as real <= lim.maxLeveraged * MILLION
  }

  predicate KeepsGross(a: Allocated, lim: Limits) {
    a.Gross() as real <= lim.Room() * MILLION
  }

  predicate KeepsNet(a: Allocated, lim: Limits) {
    a.Net() as real <= lim.maxNet * MILLION
  }

  predicate KeepsInverse(a: Allocated, lim: Limits) {
    -(lim.maxInverse * MILLION) <= a.Net() as real
  }

  predicate IsMix(a: Allocated) {
    && a.qqq >= 0 && a.tqqq >= 0 && a.sqqq >= 0
    && (a.sqqq == 0 || (a.qqq == 0 && a.tqqq == 0))
  }

  // ------------------------------------------------------------ one mix

  // The weights of a mix, with zero where it holds nothing.
  lemma RoundedMix(w: Weights)
    requires NonNegative(w) && OneSided(w)
    ensures IsMix(Rounded(w))
    ensures w.qqq == 0.0 ==> Rounded(w).qqq == 0
    ensures w.tqqq == 0.0 ==> Rounded(w).tqqq == 0
    ensures w.sqqq == 0.0 ==> Rounded(w).sqqq == 0
  {
    RoundedWeight(w.qqq);
    RoundedWeight(w.tqqq);
    RoundedWeight(w.sqqq);
    hide Millionths;
  }

  lemma RoundedReduces(after: Weights, before: Weights)
    requires Reduces(after, before)
    ensures var a, b := Rounded(after), Rounded(before);
      a.qqq <= b.qqq && a.tqqq <= b.tqqq && a.sqqq <= b.sqqq
  {
    hide Millionths;
    RoundsInOrder(after.qqq, before.qqq);
    RoundsInOrder(after.tqqq, before.tqqq);
    RoundsInOrder(after.sqqq, before.sqqq);
  }

  // What the mapping's weights for `e` carry once rounded.
  function LongNet(e: real, mode: LongMode): int {
    match mode
    case QqqOnly => Millionths(Min(e, 1.0))
    case TqqqOnly => 3 * Millionths(e / 3.0)
    case QqqThenTqqq => if e <= 1.0 then Millionths(e) else 1_000_000 + 2 * Millionths((e - 1.0) / 2.0)
  }

  lemma MappedLong(e: real, mode: LongMode)
    requires 0.0 <= e <= 3.0
    ensures Rounded(ExposureToWeights(e, mode)).Net() == LongNet(e, mode)
  {
    hide Rounded, Millionths;
    match mode
    case QqqOnly => RoundedAlone(QQQ, Min(e, 1.0));
    case TqqqOnly => RoundedAlone(TQQQ, e / 3.0);
    case QqqThenTqqq =>
      RoundedAlone(QQQ, e);
      RoundedPair((e - 1.0) / 2.0);
  }

  lemma RoundedPair(t: real)
    ensures Rounded(Weights(1.0 - t, t, 0.0)).Net() == 1_000_000 + 2 * Millionths(t)
  {
    MirroredMillionths(t);
    RoundedWeight(0.0);
    hide Millionths;
  }

  lemma MirroredMillionths(t: real)
    ensures Millionths(1.0 - t) == 1_000_000 - Millionths(t)
  {
    hide RoundHalfEven;
    assert (1.0 - t) * MILLION == 1_000_000 as real - t * MILLION;
    RoundsMirrored(t * MILLION, 1_000_000);
  }

  lemma MappedInverse(e: real, mode: LongMode)
    requires -3.0 <= e < 0.0
    ensures Rounded(ExposureToWeights(e, mode)) == Allocated(0, 0, Millionths(-e / 3.0))
  {
    MappedBounds(e, mode);
    RoundedMix(ExposureToWeights(e, mode));
    hide Millionths;
  }

  // Asking for more never carries less.
  lemma LongNetGrows(e: real, f: real, mode: LongMode)
    requires 0.0 <= e <= f
    ensures LongNet(e, mode) <= LongNet(f, mode)
  {
    match mode
    case QqqOnly => RoundsInOrder(Min(e, 1.0), Min(f, 1.0));
    case TqqqOnly => RoundsInOrder(e / 3.0, f / 3.0);
    case QqqThenTqqq =>
      if f <= 1.0 {
        RoundsInOrder(e, f);
      } else if e <= 1.0 {
        RoundsInOrder(e, 1.0);
        RoundingIsUnique(1.0 * MILLION, 1_000_000);
        RoundedWeight((f - 1.0) / 2.0);
      } else {
        RoundsInOrder((e - 1.0) / 2.0, (f - 1.0) / 2.0);
      }
  }

  // ------------------------------------------------------------ any request

  // One call's weights, before and after the caps.
  function Mapped(e: real, mode: LongMode, lim: Limits): Weights {
    ExposureToWeights(Clip(e, lim), mode)
  }

  function Capped(e: real, mode: LongMode, lim: Limits): Weights
    requires lim.Valid()
  {
    ApplyLimits(Mapped(e, mode, lim), lim)
  }

  lemma ValidBounds(lim: Limits)
    requires lim.Valid()
    ensures 0.0 <= lim.maxNet <= 3.0 && 0.0 <= lim.maxInverse <= 3.0 && lim.Room() <= 1.0
  {
  }

  lemma CappedMix(e: real, mode: LongMode, lim: Limits)
    requires lim.Valid()
    ensures Reduces(Capped(e, mode, lim), Mapped(e, mode, lim)) && WithinLimits(Capped(e, mode, lim), lim)
    ensures NonNegative(Capped(e, mode, lim)) && OneSided(Capped(e, mode, lim))
    ensures IsMix(Allocate(e, mode, lim)) && Allocate(e, mode, lim) == Rounded(Capped(e, mode, lim))
  {
    MappedBounds(Clip(e, lim), mode);
    LimitsHoldTogether(Mapped(e, mode, lim), lim);
    ReducedExposure(Capped(e, mode, lim), Mapped(e, mode, lim));
    hide ApplyLimits, ExposureToWeights, Clip, WithinLimits, Rounded, NetExposure;
    RoundedMix(Capped(e, mode, lim));
  }

  lemma LongSide(e: real, mode: LongMode, lim: Limits)
    requires lim.Valid() && 0.0 <= Clip(e, lim)
    ensures Mapped(e, mode, lim).sqqq == 0.0 == Capped(e, mode, lim).sqqq && Allocate(e, mode, lim).sqqq == 0
  {
    MappedBounds(Clip(e, lim), mode);
    CappedMix(e, mode, lim);
    hide ApplyLimits, ExposureToWeights, Clip, WithinLimits, Rounded, Allocate, Capped;
    RoundedMix(Capped(e, mode, lim));
  }

  lemma InverseSide(e: real, mode: LongMode, lim: Limits)
    requires lim.Valid() && Clip(e, lim) < 0.0
    ensures var w, v, a := Mapped(e, mode, lim), Capped(e, mode, lim), Allocate(e, mode, lim);
      && w.qqq == 0.0 == w.tqqq && v.qqq == 0.0 == v.tqqq && a.qqq == 0 == a.tqqq
  {
    MappedBounds(Clip(e, lim), mode);
    CappedMix(e, mode, lim);
    hide ApplyLimits, ExposureToWeights, Clip, WithinLimits, Rounded, Allocate, Capped;
    RoundedMix(Capped(e, mode, lim));
  }

  // The caps only take weights down, so what is traded carries no more than the rounded
  // mapping of the net limit ...
  lemma LongAllocation(e: real, mode: LongMode, lim: Limits)
    requires lim.Valid() && 0.0 <= Clip(e, lim)
    ensures Allocate(e, mode, lim).Net() <= LongNet(lim.maxNet, mode)
  {
    ClipBounds(e, lim);
    ValidBounds(lim);
    CappedMix(e, mode, lim);
    LongSide(e, mode, lim);
    hide *;
    MappedLong(Clip(e, lim), mode);
    LongNetGrows(Clip(e, lim), lim.maxNet, mode);
    LessNet(Capped(e, mode, lim), Mapped(e, mode, lim));
    MappedIsMap(e, mode, lim);
  }

  lemma MappedIsMap(e: real, mode: LongMode, lim: Limits)
    ensures Mapped(e, mode, lim) == ExposureToWeights(Clip(e, lim), mode)
  {
  }

  lemma LessNet(after: Weights, before: Weights)
    requires Reduces(after, before) && before.sqqq == 0.0 == after.sqqq
    ensures Rounded(after).Net() <= Rounded(before).Net()
  {
    RoundedReduces(after, before);
    RoundedWeight(0.0);
    hide Millionths;
  }

  // ... and no more inverse than that of the inverse limit.
  lemma InverseAllocation(e: real, mode: LongMode, lim: Limits)
    requires lim.Valid() && Clip(e, lim) < 0.0
    ensures Allocate(e, mode, lim).sqqq <= Millionths(lim.maxInverse / 3.0)
  {
    ClipBounds(e, lim);
    ValidBounds(lim);
    CappedMix(e, mode, lim);
    hide *;
    MappedInverse(Clip(e, lim), mode);
    MappedIsMap(e, mode, lim);
    RoundedReduces(Capped(e, mode, lim), Mapped(e, mode, lim));
    RoundsInOrder(-Clip(e, lim) / 3.0, lim.maxInverse / 3.0);
  }

  // ------------------------------------------------------------ how far over

  // Gross weight and net exposure, up to the rounding of the weights.
  predicate NearlyWithin(a: Allocated, lim: Limits) {
    && a.Gross() as real <= (lim.Room() + TOLERANCE) * MILLION + 1.0
    && a.Net() as real <= lim.maxNet * MILLION + 1.5
    && -(lim.maxInverse * MILLION) - 1.5 <= a.Net() as real
  }

  lemma LongNetBound(e: real, mode: LongMode)
    requires 0.0 <= e <= 3.0
    ensures LongNet(e, mode) as real <= e * MILLION + 1.5
  {
    match mode
    case QqqOnly => RoundedWeight(Min(e, 1.0));
    case TqqqOnly => RoundedWeight(e / 3.0);
    case QqqThenTqqq =>
      RoundedWeight(e);
      RoundedWeight((e - 1.0) / 2.0);
      hide Millionths;
  }

  lemma PairGross(w: Weights, room: real)
    requires OneSided(w) && Gross(w) <= room && NonNegative(w)
    ensures Rounded(w).Gross() as real <= room * MILLION + 1.0
  {
    RoundedMix(w);
    RoundedWeight(w.qqq);
    RoundedWeight(w.tqqq);
    RoundedWeight(w.sqqq);
    hide Millionths;
  }

  lemma LongNetIsNotNegative(a: Allocated)
    requires IsMix(a) && a.sqqq == 0
    ensures 0 <= a.Net()
  {
  }

  lemma InverseNet(a: Allocated, bound: int)
    requires IsMix(a) && a.qqq == 0 == a.tqqq && a.sqqq <= bound
    ensures -3 * bound <= a.Net() <= 0
  {
  }

  lemma InverseBound(e: real)
    ensures -(e * MILLION) - 1.5 <= (-3 * Millionths(e / 3.0)) as real
  {
    RoundedWeight(e / 3.0);
  }

  // Rounding comes after the limits, so the weights that are traded may exceed them: by
  // at most one millionth of gross and one and a half of net exposure.
  lemma AllocationWithinLimits(e: real, mode: LongMode, lim: Limits)
    requires lim.Valid()
    ensures IsMix(Allocate(e, mode, lim)) && NearlyWithin(Allocate(e, mode, lim), lim)
  {
    CappedMix(e, mode, lim);
    PairGross(Capped(e, mode, lim), lim.Room() + TOLERANCE);
    NetNearlyWithin(e, mode, lim);
    hide Allocate, Capped, Rounded, WithinLimits, Gross, OneSided, NonNegative;
  }

  lemma NetNearlyWithin(e: real, mode: LongMode, lim: Limits)
    requires lim.Valid()
    ensures var net := Allocate(e, mode, lim).Net() as real;
      -(lim.maxInverse * MILLION) - 1.5 <= net <= lim.maxNet * MILLION + 1.5
  {
    CappedMix(e, mode, lim);
    ValidBounds(lim);
    hide Allocate, Capped, Millionths, LongNet, Mapped, WithinLimits, Clip;
    if 0.0 <= Clip(e, lim) {
      LongSide(e, mode, lim);
      LongNetIsNotNegative(Allocate(e, mode, lim));
      LongAllocation(e, mode, lim);
      LongNetBound(lim.maxNet, mode);
    } else {
      InverseSide(e, mode, lim);
      InverseAllocation(e, mode, lim);
      InverseNet(Allocate(e, mode, lim), Millionths(lim.maxInverse / 3.0));
      InverseBound(lim.maxInverse);
    }
  }

  // ------------------------------------------------------------ one fund alone

  // All of the exposure in one instrument: long requests in the two single-fund modes,
  // inverse requests in every mode.
  function Alone(s: Symbol, x: real): Weights {
    Weights(0.0, 0.0, 0.0).With(s, x)
  }

  predicate Asks(e: real, mode: LongMode, s: Symbol) {
    match s
    case QQQ => 0.0 <= e && mode == QqqOnly
    case TQQQ => 0.0 <= e && mode == TqqqOnly
    case SQQQ => e < 0.0
  }

  // The weight of the instrument that carries the whole exposure limit ...
  function Reach(s: Symbol, lim: Limits): real {
    match s
    case QQQ => Min(lim.maxNet, 1.0)
    case TQQQ => lim.maxNet / 3.0
    case SQQQ => lim.maxInverse / 3.0
  }

  // ... the largest weight that keeps the caps ...
  function Ceiling(s: Symbol, lim: Limits): real {
    Min(lim.Cap(s), if s == QQQ then lim.Room() else Min(lim.maxLeveraged, lim.Room()))
  }

  // ... and the largest the allocator lets through.
  function Peak(s: Symbol, lim: Limits): real {
    Min(Reach(s, lim), Ceiling(s, lim) + TOLERANCE)
  }

  predicate PeakIsKept(s: Symbol, lim: Limits) {
    Millionths(Peak(s, lim)) as real <= Min(Reach(s, lim), Ceiling(s, lim)) * MILLION
  }

  lemma PeakBounds(s: Symbol, lim: Limits)
    requires lim.Valid()
    ensures 0.0 <= Ceiling(s, lim) <= 1.0 && 0.0 <= Peak(s, lim) <= Reach(s, lim) <= 1.0
  {
  }

  lemma AloneWithin(s: Symbol, x: real, lim: Limits)
    requires lim.Valid() && 0.0 <= x
    ensures WithinLimits(Alone(s, x), lim) <==> x <= Ceiling(s, lim) + TOLERANCE
  {
  }

  // The weight the request maps to.
  function AskedWeight(e: real, s: Symbol, lim: Limits): real {
    match s
    case QQQ => Min(Clip(e, lim), 1.0)
    case TQQQ => Clip(e, lim) / 3.0
    case SQQQ => -Clip(e, lim) / 3.0
  }

  lemma AskedAlone(e: real, mode: LongMode, s: Symbol, lim: Limits)
    requires lim.Valid() && Asks(e, mode, s)
    ensures Mapped(e, mode, lim) == Alone(s, AskedWeight(e, s, lim))
    ensures 0.0 <= AskedWeight(e, s, lim) <= Reach(s, lim)
  {
    ClipBounds(e, lim);
    ValidBounds(lim);
    hide Clip, Limits.Valid;
  }

  lemma AloneStays(v: Weights, s: Symbol, x: real)
    requires Reduces(v, Alone(s, x))
    ensures v == Alone(s, v.Of(s)) && 0.0 <= v.Of(s) <= x
  {
  }

  // Whatever is asked for, the capped weight is at most the peak.
  lemma CappedAlone(e: real, mode: LongMode, s: Symbol, lim: Limits)
    requires lim.Valid() && Asks(e, mode, s)
    ensures var v := Capped(e, mode, lim); v == Alone(s, v.Of(s)) && 0.0 <= v.Of(s) <= Peak(s, lim)
  {
    AskedAlone(e, mode, s, lim);
    CappedMix(e, mode, lim);
    hide Alone, Weights.Of, Capped, AskedWeight, WithinLimits, Reach, Ceiling;
    AloneStays(Capped(e, mode, lim), s, AskedWeight(e, s, lim));
    AloneWithin(s, Capped(e, mode, lim).Of(s), lim);
  }

  lemma RoundedAlone(s: Symbol, x: real)
    ensures Rounded(Alone(s, x)) == match s
      case QQQ => Allocated(Millionths(x), 0, 0)
      case TQQQ => Allocated(0, Millionths(x), 0)
      case SQQQ => Allocated(0, 0, Millionths(x))
  {
    RoundedWeight(0.0);
    hide Millionths;
  }

  // A single weight keeps every limit exactly when it is within the two bounds.
  lemma AloneKeepsIff(s: Symbol, x: real, lim: Limits)
    requires lim.Valid() && 0.0 <= x <= 1.0
    ensures Keeps(Rounded(Alone(s, x)), lim)
      <==> Millionths(x) as real <= Min(Reach(s, lim), Ceiling(s, lim)) * MILLION
  {
    RoundedAlone(s, x);
    RoundedWeight(x);
    RoundsInOrder(x, 1.0);
    OneIsWhole();
    hide Millionths, Rounded, Alone;
    AloneKeeps(s, Millionths(x), lim);
  }

  lemma AloneKeeps(s: Symbol, n: int, lim: Limits)
    requires lim.Valid() && 0 <= n <= 1_000_000
    ensures var a := match s
      case QQQ => Allocated(n, 0, 0)
      case TQQQ => Allocated(0, n, 0)
      case SQQQ => Allocated(0, 0, n);
      Keeps(a, lim) <==> n as real <= Min(Reach(s, lim), Ceiling(s, lim)) * MILLION
  {
  }

  lemma OneIsWhole()
    ensures Millionths(1.0) == 1_000_000
  {
    RoundingIsUnique(1.0 * MILLION, 1_000_000);
  }

  // For one fund alone, every request keeps every limit if and only if the largest weight
  // the allocator lets through does so once rounded.
  lemma AloneKeptIff(mode: LongMode, s: Symbol, lim: Limits)
    requires lim.Valid() && (s == QQQ ==> mode == QqqOnly) && (s == TQQQ ==> mode == TqqqOnly)
    ensures (forall e: real :: Asks(e, mode, s) ==> Keeps(Allocate(e, mode, lim), lim)) <==> PeakIsKept(s, lim)
  {
    hide *;
    if PeakIsKept(s, lim) {
      forall e: real | Asks(e, mode, s) ensures Keeps(Allocate(e, mode, lim), lim) {
        AloneKept(e, mode, s, lim);
      }
    } else {
      PeakIsAsked(mode, s, lim);
    }
  }

  lemma AloneKept(e: real, mode: LongMode, s: Symbol, lim: Limits)
    requires lim.Valid() && PeakIsKept(s, lim) && Asks(e, mode, s)
    ensures Keeps(Allocate(e, mode, lim), lim)
  {
    CappedMix(e, mode, lim);
    CappedAlone(e, mode, s, lim);
    PeakBounds(s, lim);
    hide Capped, Mapped, Allocate, Keeps, Rounded, Millionths, Asks, Reach, Ceiling, Peak, Alone, Weights.Of,
      Limits.Valid;
    RoundsInOrder(Capped(e, mode, lim).Of(s), Peak(s, lim));
    AloneKeepsIff(s, Capped(e, mode, lim).Of(s), lim);
  }

  // The request that gets the peak.
  function PeakRequest(s: Symbol, lim: Limits): real {
    match s
    case QQQ => Peak(s, lim)
    case TQQQ => 3.0 * Peak(s, lim)
    case SQQQ => -3.0 * Peak(s, lim)
  }

  lemma PeakIsAsked(mode: LongMode, s: Symbol, lim: Limits)
    requires lim.Valid() && (s == QQQ ==> mode == QqqOnly) && (s == TQQQ ==> mode == TqqqOnly)
    requires !PeakIsKept(s, lim)
    ensures Asks(PeakRequest(s, lim), mode, s) && !Keeps(Allocate(PeakRequest(s, lim), mode, lim), lim)
  {
    var e, x := PeakRequest(s, lim), Peak(s, lim);
    PeakBounds(s, lim);
    RoundedWeight(0.0);
    PeakRequestIsPlain(s, lim);
    hide Peak, Millionths, Keeps, Allocate, Rounded, Alone, Clip, Ceiling, Reach, Limits.Valid, Mapped, WithinLimits;
    assert x > 0.0;
    AskedAlone(e, mode, s, lim);
    PeakIsWithin(s, lim);
    MappedIsMap(e, mode, lim);
    AsMapped(e, mode, lim);
    AloneKeepsIff(s, x, lim);
  }

  lemma PeakRequestIsPlain(s: Symbol, lim: Limits)
    requires lim.Valid()
    ensures var e := PeakRequest(s, lim);
      && Clip(e, lim) == e && AskedWeight(e, s, lim) == Peak(s, lim)
      && (if s == SQQQ then Peak(s, lim) > 0.0 ==> e < 0.0 else 0.0 <= e)
  {
    PeakBounds(s, lim);
    hide Ceiling, Peak;
  }

  lemma PeakIsWithin(s: Symbol, lim: Limits)
    requires lim.Valid()
    ensures WithinLimits(Alone(s, Peak(s, lim)), lim)
  {
    PeakBounds(s, lim);
    AloneWithin(s, Peak(s, lim), lim);
    hide Reach, Ceiling, Alone, WithinLimits, Limits.Valid;
  }

  // So in the two modes of a single long fund the limits decide: two numbers to look at.
  lemma SingleFundKeptIff(mode: LongMode, lim: Limits)
    requires lim.Valid() && mode != QqqThenTqqq
    ensures (forall e: real :: Keeps(Allocate(e, mode, lim), lim))
      <==> PeakIsKept(SQQQ, lim) && PeakIsKept(if mode == QqqOnly then QQQ else TQQQ, lim)
  {
    var fund := if mode == QqqOnly then QQQ else TQQQ;
    AloneKeptIff(mode, SQQQ, lim);
    AloneKeptIff(mode, fund, lim);
    hide PeakIsKept, Keeps, Allocate, Limits.Valid;
    assert forall e: real :: Asks(e, mode, SQQQ) || Asks(e, mode, fund);
  }

  // ------------------------------------------------------------ the net limit of the two funds

  // Rounding the two weights that carry exactly `n` does not take their exposure up.
  predicate NetRoundsDown(n: real) {
    RoundsDown(if n <= 1.0 then n else (n - 1.0) / 2.0)
  }

  lemma NetRoundsDownIff(n: real)
    ensures NetRoundsDown(n) <==> LongNet(n, QqqThenTqqq) as real <= n * MILLION
  {
    hide Millionths;
  }

  // Where the caps leave the net limit itself alone, no request exceeds it if and only if
  // it rounds down.
  lemma NetKeptIff(lim: Limits)
    requires lim.Valid() && WithinLimits(ExposureToWeights(lim.maxNet, QqqThenTqqq), lim)
    ensures (forall e: real :: KeepsNet(Allocate(e, QqqThenTqqq, lim), lim)) <==> NetRoundsDown(lim.maxNet)
  {
    hide *;
    if NetRoundsDown(lim.maxNet) {
      forall e: real ensures KeepsNet(Allocate(e, QqqThenTqqq, lim), lim) {
        NetKept(e, lim);
      }
    } else {
      NetIsExceeded(lim);
    }
  }

  lemma NetIsExceeded(lim: Limits)
    requires lim.Valid() && WithinLimits(ExposureToWeights(lim.maxNet, QqqThenTqqq), lim)
    requires !NetRoundsDown(lim.maxNet)
    ensures !KeepsNet(Allocate(lim.maxNet, QqqThenTqqq, lim), lim)
  {
    ValidBounds(lim);
    NetRoundsDownIff(lim.maxNet);
    ClipOfLimit(lim);
    AsMapped(lim.maxNet, QqqThenTqqq, lim);
    MappedLong(lim.maxNet, QqqThenTqqq);
    hide LongNet, ExposureToWeights, Allocate, NetRoundsDown, Limits.Valid, WithinLimits, Rounded;
  }

  lemma ClipOfLimit(lim: Limits)
    requires lim.Valid()
    ensures Clip(lim.maxNet, lim) == lim.maxNet
  {
  }

  // A request the caps leave alone is traded as mapped.
  lemma AsMapped(e: real, mode: LongMode, lim: Limits)
    requires lim.Valid() && Clip(e, lim) == e && WithinLimits(ExposureToWeights(e, mode), lim)
    ensures Allocate(e, mode, lim) == Rounded(ExposureToWeights(e, mode))
  {
    MappedBounds(e, mode);
    LimitsHoldTogether(ExposureToWeights(e, mode), lim);
    hide ExposureToWeights, ApplyLimits, WithinLimits, Rounded, Clip;
  }

  lemma NetKept(e: real, lim: Limits)
    requires lim.Valid() && NetRoundsDown(lim.maxNet)
    ensures KeepsNet(Allocate(e, QqqThenTqqq, lim), lim)
  {
    CappedMix(e, QqqThenTqqq, lim);
    ValidBounds(lim);
    NetRoundsDownIff(lim.maxNet);
    hide Allocate, Capped, Millionths, LongNet, Mapped, WithinLimits, Clip, NetRoundsDown;
    if 0.0 <= Clip(e, lim) {
      LongAllocation(e, QqqThenTqqq, lim);
    } else {
      InverseSide(e, QqqThenTqqq, lim);
      InverseNet(Allocate(e, QqqThenTqqq, lim), Allocate(e, QqqThenTqqq, lim).sqqq);
    }
  }

  // ------------------------------------------------------------ limits on the grid

  // Caps of whole millionths.
  predicate WholeCaps(lim: Limits) {
    && Whole(lim.Cap(QQQ) * MILLION) && Whole(lim.Cap(TQQQ) * MILLION) && Whole(lim.Cap(SQQQ) * MILLION)
    && Whole(lim.maxLeveraged * MILLION) && Whole(lim.Room() * MILLION)
  }

  predicate EvenRoom(lim: Limits) {
    (lim.Room() * MILLION).Floor % 2 == 0
  }

  // An exposure limit is no hindrance where it rounds down or the caps bind first.
  predicate ReachIsSafe(s: Symbol, lim: Limits) {
    RoundsDown(Reach(s, lim)) || Ceiling(s, lim) <= Reach(s, lim)
  }

  predicate NetIsSafe(lim: Limits) {
    NetRoundsDown(lim.maxNet) || lim.Room() + 2.0 * Min(lim.Cap(TQQQ), lim.maxLeveraged) <= lim.maxNet
  }

  predicate OnGrid(mode: LongMode, lim: Limits) {
    && WholeCaps(lim) && ReachIsSafe(SQQQ, lim)
    && match mode
       case QqqOnly => ReachIsSafe(QQQ, lim)
       case TqqqOnly => ReachIsSafe(TQQQ, lim)
       case QqqThenTqqq => EvenRoom(lim) && NetIsSafe(lim)
  }

  // Limits on the grid are kept exactly by what is traded, whatever is asked for.
  lemma RoundedLimitsHold(e: real, mode: LongMode, lim: Limits)
    requires lim.Valid() && OnGrid(mode, lim)
    ensures Keeps(Allocate(e, mode, lim), lim)
  {
    if e < 0.0 {
      hide Keeps, Allocate, WholeCaps, ReachIsSafe, NetIsSafe, EvenRoom, Limits.Valid;
      SafePeakIsKept(SQQQ, lim);
      AloneKept(e, mode, SQQQ, lim);
    } else {
      hide Keeps, Allocate, WholeCaps, ReachIsSafe, NetIsSafe, EvenRoom, Limits.Valid;
      match mode
      case QqqOnly =>
        SafePeakIsKept(QQQ, lim);
        AloneKept(e, mode, QQQ, lim);
      case TqqqOnly =>
        SafePeakIsKept(TQQQ, lim);
        AloneKept(e, mode, TQQQ, lim);
      case QqqThenTqqq => TwoFundsKept(e, lim);
    }
  }

  lemma SafePeakIsKept(s: Symbol, lim: Limits)
    requires lim.Valid() && WholeCaps(lim) && ReachIsSafe(s, lim)
    ensures PeakIsKept(s, lim)
  {
    assert Whole(Ceiling(s, lim) * MILLION);
    PeakIsBelow(Reach(s, lim), Ceiling(s, lim));
    hide Millionths, Reach, Ceiling, WholeCaps, Limits.Valid;
  }

  lemma PeakIsBelow(reach: real, ceiling: real)
    requires Whole(ceiling * MILLION) && (RoundsDown(reach) || ceiling <= reach)
    ensures Millionths(Min(reach, ceiling + TOLERANCE)) as real <= Min(reach, ceiling) * MILLION
  {
    hide Millionths, Whole;
    var peak := Min(reach, ceiling + TOLERANCE);
    RoundsWithin(peak, ceiling);
    RoundsInOrder(peak, reach);
  }

  lemma TwoFundsKept(e: real, lim: Limits)
    requires lim.Valid() && WholeCaps(lim) && EvenRoom(lim) && NetIsSafe(lim) && 0.0 <= e
    ensures Keeps(Allocate(e, QqqThenTqqq, lim), lim)
  {
    var v, a := Capped(e, QqqThenTqqq, lim), Allocate(e, QqqThenTqqq, lim);
    CappedMix(e, QqqThenTqqq, lim);
    ClipBounds(e, lim);
    LongSide(e, QqqThenTqqq, lim);
    ValidBounds(lim);
    LongMixShape(e, lim);
    hide *;
    WithinRoundsWithin(v, lim);
    LongMixGross(v, lim);
    if NetRoundsDown(lim.maxNet) {
      NetKept(e, lim);
    }
    AllKept(a, lim);
  }

  // The caps of the two funds and of the leveraged one, after rounding.
  lemma WithinRoundsWithin(v: Weights, lim: Limits)
    requires WithinLimits(v, lim) && v.sqqq == 0.0 && WholeCaps(lim)
    ensures var a := Rounded(v);
      && a.qqq as real <= lim.Cap(QQQ) * MILLION
      && a.tqqq as real <= Min(lim.Cap(TQQQ), lim.maxLeveraged) * MILLION && a.sqqq == 0
  {
    hide Millionths, Whole, Limits.Room;
    RoundsWithin(v.qqq, lim.Cap(QQQ));
    RoundsWithin(v.tqqq, lim.Cap(TQQQ));
    RoundsWithin(v.tqqq, lim.maxLeveraged);
    RoundedWeight(v.sqqq);
  }

  lemma AllKept(a: Allocated, lim: Limits)
    requires a.qqq >= 0 && a.tqqq >= 0 && a.sqqq == 0 && lim.Valid()
    requires a.qqq as real <= lim.Cap(QQQ) * MILLION
    requires a.tqqq as real <= Min(lim.Cap(TQQQ), lim.maxLeveraged) * MILLION
    requires KeepsGross(a, lim) && NetIsSafe(lim) && (NetRoundsDown(lim.maxNet) ==> KeepsNet(a, lim))
    ensures Keeps(a, lim)
  {
    hide NetRoundsDown, Limits.Room;
  }

  // The shapes a long mix can have after the passes: it fills the room, or one of its
  // weights is at a cap or zero.
  predicate FilledOrWhole(v: Weights, lim: Limits) {
    Gross(v) == lim.Room() || Whole(v.qqq * MILLION) || Whole(v.tqqq * MILLION)
  }

  lemma LongMixGross(v: Weights, lim: Limits)
    requires !TooMuchInvested(v, lim) && v.sqqq == 0.0 && FilledOrWhole(v, lim)
    requires Whole(lim.Room() * MILLION) && EvenRoom(lim)
    ensures KeepsGross(Rounded(v), lim)
  {
    RoundedWeight(v.sqqq);
    hide Millionths, Limits.Room;
    if Gross(v) == lim.Room() {
      PairFills(v.qqq, v.tqqq, lim.Room());
    } else {
      MixRoundsWithin(v.qqq, v.tqqq, lim.Room());
    }
  }

  lemma PairFills(x: real, y: real, room: real)
    requires x + y == room && Whole(room * MILLION) && (room * MILLION).Floor % 2 == 0
    ensures (Millionths(x) + Millionths(y)) as real <= room * MILLION
  {
    hide RoundHalfEven;
    PairRoundsWithin(x * MILLION, y * MILLION, (room * MILLION).Floor);
  }

  lemma MixRoundsWithin(x: real, y: real, room: real)
    requires x + y <= room + TOLERANCE && Whole(room * MILLION) && (Whole(x * MILLION) || Whole(y * MILLION))
    ensures (Millionths(x) + Millionths(y)) as real <= room * MILLION
  {
    hide RoundHalfEven;
    if Whole(x * MILLION) {
      WholeAndOtherRoundWithin((x * MILLION).Floor, y * MILLION, (room * MILLION).Floor);
    } else {
      WholeAndOtherRoundWithin((y * MILLION).Floor, x * MILLION, (room * MILLION).Floor);
    }
  }

  lemma LongMixShape(e: real, lim: Limits)
    requires lim.Valid() && WholeCaps(lim) && 0.0 <= Clip(e, lim)
    ensures FilledOrWhole(Capped(e, QqqThenTqqq, lim), lim)
  {
    ClipBounds(e, lim);
    ValidBounds(lim);
    CappedMix(e, QqqThenTqqq, lim);
    MappedShape(Clip(e, lim));
    var w := Mapped(e, QqqThenTqqq, lim);
    LimitedShape(w, lim);
    hide ApplyLimits, WithinLimits, ExposureToWeights, Whole, Limits.Valid, Limits.Cap, Clip;
    MixShape(w, Capped(e, QqqThenTqqq, lim), lim);
  }

  // The room is filled, or each weight is as mapped or at a cap.
  predicate AtCaps(w: Weights, v: Weights, lim: Limits) {
    && (v.qqq == w.qqq || v.qqq == lim.Cap(QQQ))
    && (v.tqqq == w.tqqq || v.tqqq == lim.Cap(TQQQ) || v.tqqq == lim.maxLeveraged)
  }

  lemma MixShape(w: Weights, v: Weights, lim: Limits)
    requires lim.Room() <= 1.0 && WholeCaps(lim) && !TooMuchInvested(v, lim)
    requires w.tqqq == 0.0 || Gross(w) == 1.0
    requires w.sqqq == 0.0 == v.sqqq && (Gross(v) == lim.Room() || AtCaps(w, v, lim))
    ensures FilledOrWhole(v, lim)
  {
    hide Whole, Limits.Cap, Limits.Room, TooMuchInvested;
    ZeroIsWhole();
    if v == w && Gross(w) == 1.0 {
      FullRoom(w, lim);
    }
  }

  lemma LimitedShape(w: Weights, lim: Limits)
    requires lim.Valid() && w.sqqq == 0.0
    ensures Gross(ApplyLimits(w, lim)) == lim.Room() || AtCaps(w, ApplyLimits(w, lim), lim)
  {
    CapsShape(w, lim);
    LeveragedShape(CapPositions(w, lim, 3), lim);
    GrossShape(ScaleLeveraged(CapPositions(w, lim, 3), lim), lim);
    hide CapPositions, ScaleLeveraged, ScaleGross, Gross, Limits.Valid, Limits.Room, Limits.Cap;
  }

  lemma ZeroIsWhole()
    ensures Whole(0.0 * MILLION)
  {
  }

  lemma MappedShape(e: real)
    requires 0.0 <= e <= 3.0
    ensures var w := ExposureToWeights(e, QqqThenTqqq);
      && w.qqq >= 0.0 && w.tqqq >= 0.0 && w.sqqq == 0.0 && (w.tqqq == 0.0 || Gross(w) == 1.0)
  {
  }

  lemma CapsShape(w: Weights, lim: Limits)
    requires lim.Valid() && w.sqqq == 0.0
    ensures var c := CapPositions(w, lim, 3);
      && c.sqqq == 0.0
      && (c.qqq == w.qqq || c.qqq == lim.Cap(QQQ)) && (c.tqqq == w.tqqq || c.tqqq == lim.Cap(TQQQ))
  {
    assert CapPositions(w, lim, 1) == CapPosition(w, lim, QQQ);
    assert CapPositions(w, lim, 2) == CapPosition(CapPositions(w, lim, 1), lim, TQQQ);
  }

  lemma LeveragedShape(c: Weights, lim: Limits)
    requires lim.Valid() && c.sqqq == 0.0
    ensures var d := ScaleLeveraged(c, lim);
      && d.sqqq == 0.0 && d.qqq == c.qqq && (d.tqqq == c.tqqq || d.tqqq == lim.maxLeveraged)
  {
    hide Scaled;
    if TooLeveraged(c, lim) {
      ScaledSums(c.tqqq, 0.0, 0.0, lim.maxLeveraged, Leveraged(c));
      ScaledBounds(0.0, lim.maxLeveraged, Leveraged(c));
    }
  }

  lemma GrossShape(d: Weights, lim: Limits)
    requires lim.Valid()
    ensures var v := ScaleGross(d, lim); v == d || Gross(v) == lim.Room()
  {
    hide Scaled;
    if TooMuchInvested(d, lim) {
      ScaledSums(d.qqq, d.tqqq, d.sqqq, lim.Room(), Gross(d));
    }
  }

  // Full cash within a room of whole millionths, up to the tolerance, means a room of one.
  lemma FullRoom(v: Weights, lim: Limits)
    requires Gross(v) == 1.0 && !TooMuchInvested(v, lim) && lim.Room() <= 1.0 && Whole(lim.Room() * MILLION)
    ensures Gross(v) == lim.Room()
  {
    assert 1_000_000.0 - 0.5 <= lim.Room() * MILLION;
    assert (lim.Room() * MILLION).Floor == 1_000_000;
  }

  // ------------------------------------------------------------ the room must be even

  lemma GrossKept(e: real, lim: Limits)
    requires lim.Valid() && WholeCaps(lim) && EvenRoom(lim)
    ensures KeepsGross(Allocate(e, QqqThenTqqq, lim), lim)
  {
    var v := Capped(e, QqqThenTqqq, lim);
    CappedMix(e, QqqThenTqqq, lim);
    hide *;
    if Clip(e, lim) < 0.0 {
      InverseSide(e, QqqThenTqqq, lim);
      InverseGross(v, lim);
    } else {
      LongSide(e, QqqThenTqqq, lim);
      LongMixShape(e, lim);
      LongMixGross(v, lim);
    }
  }

  lemma InverseGross(v: Weights, lim: Limits)
    requires !TooMuchInvested(v, lim) && v.qqq == 0.0 == v.tqqq && Whole(lim.Room() * MILLION)
    ensures KeepsGross(Rounded(v), lim)
  {
    RoundedWeight(v.qqq);
    RoundedWeight(v.tqqq);
    RoundsWithin(v.sqqq, lim.Room());
    hide Millionths, Limits.Room, Whole;
  }

  // An exposure that divides an odd room into two halves of a millionth ...
  function SplitRequest(room: int): real
    requires room > 0
  {
    1.0 + 3.0 / room as real
  }

  // ... is traded with a millionth too much.
  lemma OddRoomIsExceeded(lim: Limits, room: int)
    requires lim.Valid() && room > 1 && room % 2 == 1 && lim.Room() * MILLION == room as real
    requires SplitRequest(room) <= lim.maxNet
    requires var w := ExposureToWeights(SplitRequest(room), QqqThenTqqq);
      WithinCaps(w, lim) && !TooLeveraged(w, lim)
    ensures Allocate(SplitRequest(room), QqqThenTqqq, lim) == Allocated(room - 1, 2, 0)
  {
    hide *;
    var e, x := SplitRequest(room), lim.Room();
    var t := 1.5 / room as real;
    RoomIsLimited(lim);
    SplitWeights(room);
    OddRoomIsShort(x, room);
    SplitIsPlain(e, lim);
    MixOfOne(t);
    OnlyGrossBinds(Weights(1.0 - t, t, 0.0), lim);
    SplitRounds(x, room);
    AllocatedAs(e, lim, Weights(1.0 - t, t, 0.0), x);
  }

  lemma RoomIsLimited(lim: Limits)
    requires lim.Valid()
    ensures lim.Room() <= 1.0
  {
  }

  lemma SplitIsPlain(e: real, lim: Limits)
    requires lim.Valid() && 0.0 <= e <= lim.maxNet
    ensures Clip(e, lim) == e
  {
  }

  lemma MixOfOne(t: real)
    requires 0.0 <= t <= 1.0
    ensures var w := Weights(1.0 - t, t, 0.0); NonNegative(w) && Gross(w) == 1.0
  {
  }

  lemma AllocatedAs(e: real, lim: Limits, w: Weights, room: real)
    requires lim.Valid() && Clip(e, lim) == e && ExposureToWeights(e, QqqThenTqqq) == w
    requires ApplyLimits(w, lim)
      == Weights(Scaled(w.qqq, room, 1.0), Scaled(w.tqqq, room, 1.0), Scaled(w.sqqq, room, 1.0))
    ensures Allocate(e, QqqThenTqqq, lim) == Allocated(
      Millionths(Scaled(w.qqq, room, 1.0)), Millionths(Scaled(w.tqqq, room, 1.0)),
      Millionths(Scaled(w.sqqq, room, 1.0)))
  {
    hide Millionths, ApplyLimits, Clip, ExposureToWeights, Scaled;
  }

  lemma SplitWeights(room: int)
    requires room > 1
    ensures var t := 1.5 / room as real;
      && ExposureToWeights(SplitRequest(room), QqqThenTqqq) == Weights(1.0 - t, t, 0.0) && 0.0 <= t <= 1.0
      && 0.0 <= SplitRequest(room)
  {
    var r := room as real;
    assert 3.0 / r == 2.0 * (1.5 / r);
    assert (1.5 / r) * r == 1.5;
  }

  lemma OddRoomIsShort(x: real, room: int)
    requires x * MILLION == room as real && x <= 1.0 && room % 2 == 1
    ensures x + TOLERANCE < 1.0
  {
    assert room <= 999_999;
  }

  lemma OnlyGrossBinds(w: Weights, lim: Limits)
    requires lim.Valid() && NonNegative(w) && WithinCaps(w, lim) && !TooLeveraged(w, lim)
    requires Gross(w) == 1.0 && lim.Room() + TOLERANCE < 1.0
    ensures var room := lim.Room();
      ApplyLimits(w, lim) == Weights(Scaled(w.qqq, room, 1.0), Scaled(w.tqqq, room, 1.0), Scaled(w.sqqq, room, 1.0))
  {
    CappedPositions(w, lim);
    hide CapPositions, Scaled, WithinCaps, Limits.Room;
  }

  lemma SplitRounds(x: real, room: int)
    requires room > 1 && room % 2 == 1 && x * MILLION == room as real
    ensures var t := 1.5 / room as real;
      && Millionths(Scaled(t, x, 1.0)) == 2 && Millionths(Scaled(1.0 - t, x, 1.0)) == room - 1
      && Millionths(Scaled(0.0, x, 1.0)) == 0
  {
    var t := 1.5 / room as real;
    assert t * room as real == 1.5;
    assert Scaled(t, x, 1.0) * MILLION == 1.5;
    assert Scaled(1.0 - t, x, 1.0) * MILLION == room as real - 1.5;
    RoundingIsUnique(1.5, 2);
    RoundingIsUnique(room as real - 1.5, room - 1);
    RoundingIsUnique(0.0, 0);
  }

  // Where the caps leave that exposure alone, every request of the two funds keeps the
  // room if and only if it is even.
  lemma GrossKeptIff(lim: Limits, room: int)
    requires lim.Valid() && WholeCaps(lim) && room > 1 && lim.Room() * MILLION == room as real
    requires SplitRequest(room) <= lim.maxNet
    requires var w := ExposureToWeights(SplitRequest(room), QqqThenTqqq);
      WithinCaps(w, lim) && !TooLeveraged(w, lim)
    ensures (forall e: real :: KeepsGross(Allocate(e, QqqThenTqqq, lim), lim)) <==> room % 2 == 0
  {
    assert EvenRoom(lim) <==> room % 2 == 0;
    hide Allocate, Limits.Valid, WholeCaps, EvenRoom, SplitRequest, ExposureToWeights;
    if room % 2 == 0 {
      forall e: real ensures KeepsGross(Allocate(e, QqqThenTqqq, lim), lim) {
        GrossKept(e, lim);
      }
    } else {
      OddRoomIsExceeded(lim, room);
      assert !KeepsGross(Allocate(SplitRequest(room), QqqThenTqqq, lim), lim);
    }
  }

  // ------------------------------------------------------------ concrete limits

  function Uncapped(maxNet: real, maxInverse: real): Limits {
    Limits(maxNet, maxInverse, 1.0, 0.0, 1.0, map[], 1.0)
  }

  lemma UncappedIsPlain(maxNet: real, maxInverse: real, s: Symbol)
    requires 0.0 <= maxNet <= 3.0 && 0.0 <= maxInverse <= 3.0
    ensures var lim := Uncapped(maxNet, maxInverse);
      lim.Valid() && lim.Cap(s) == 1.0 && lim.Room() == 1.0 && Ceiling(s, lim) == 1.0
  {
  }

  // With no caps, a limit on inverse exposure is kept by every request if and only if a
  // third of it rounds down: half of equity is not such a limit, in any mode.
  lemma InverseLimitIsExceeded(mode: LongMode)
    ensures var lim := Uncapped(2.0, 0.5);
      && lim.Valid() && Allocate(-0.5, mode, lim) == Allocated(0, 0, 166_667)
      && !KeepsInverse(Allocate(-0.5, mode, lim), lim)
  {
    var lim := Uncapped(2.0, 0.5);
    UncappedIsPlain(2.0, 0.5, SQQQ);
    UncappedIsPlain(2.0, 0.5, QQQ);
    UncappedIsPlain(2.0, 0.5, TQQQ);
    assert Clip(-0.5, lim) == -0.5;
    assert ExposureToWeights(-0.5, mode) == Alone(SQQQ, 0.5 / 3.0);
    AloneWithin(SQQQ, 0.5 / 3.0, lim);
    AsMapped(-0.5, mode, lim);
    RoundedAlone(SQQQ, 0.5 / 3.0);
    RoundingIsUnique(0.5 / 3.0 * MILLION, 166_667);
    hide Allocate, ExposureToWeights, Clip, WithinLimits, Alone, Rounded;
  }

  // The bound of one and a half millionths is reached, on both sides.
  lemma NetExcessIsReached()
    ensures var lim := Uncapped(0.000_004_5, 0.000_004_5);
      && lim.Valid()
      && Allocate(0.000_004_5, TqqqOnly, lim).Net() as real == lim.maxNet * MILLION + 1.5
      && Allocate(-0.000_004_5, TqqqOnly, lim).Net() as real == -(lim.maxInverse * MILLION) - 1.5
  {
    var n := 0.000_004_5;
    var lim := Uncapped(n, n);
    UncappedIsPlain(n, n, TQQQ);
    UncappedIsPlain(n, n, SQQQ);
    assert Clip(n, lim) == n && Clip(-n, lim) == -n;
    assert ExposureToWeights(n, TqqqOnly) == Alone(TQQQ, 0.000_001_5);
    assert ExposureToWeights(-n, TqqqOnly) == Alone(SQQQ, 0.000_001_5);
    AloneWithin(TQQQ, 0.000_001_5, lim);
    AloneWithin(SQQQ, 0.000_001_5, lim);
    AsMapped(n, TqqqOnly, lim);
    AsMapped(-n, TqqqOnly, lim);
    RoundedAlone(TQQQ, 0.000_001_5);
    RoundedAlone(SQQQ, 0.000_001_5);
    RoundingIsUnique(0.000_001_5 * MILLION, 2);
    hide Allocate, ExposureToWeights, Clip, WithinLimits, Alone, Rounded;
  }

  // A cap, a room or a leveraged cap that does not round down is exceeded by the mix of
  // the two funds that just reaches it.
  lemma OffGridIsExceeded(x: real)
    requires 0.0 <= x <= 1.0 && !RoundsDown(x)
    ensures var lim := OffGridCap(x); lim.Valid() && !KeepsPositions(Allocate(x, QqqThenTqqq, lim), lim)
    ensures var lim := OffGridRoom(x); lim.Valid() && !KeepsGross(Allocate(x, QqqThenTqqq, lim), lim)
    ensures var lim := OffGridLeveraged(x);
      lim.Valid() && !KeepsPositions(Allocate(1.0 + 2.0 * x, QqqThenTqqq, lim), lim)
  {
    OffGridCapIsExceeded(x);
    OffGridRoomIsExceeded(x);
    OffGridLeveragedIsExceeded(x);
    hide *;
  }

  function OffGridCap(x: real): Limits {
    Uncapped(3.0, 3.0).(positionCaps := map[QQQ := x])
  }

  function OffGridRoom(x: real): Limits {
    Uncapped(3.0, 3.0).(maxGross := x)
  }

  function OffGridLeveraged(x: real): Limits {
    Uncapped(3.0, 3.0).(maxLeveraged := x)
  }

  lemma OffGridCapIsExceeded(x: real)
    requires 0.0 <= x <= 1.0 && !RoundsDown(x)
    ensures var lim := OffGridCap(x); lim.Valid() && !KeepsPositions(Allocate(x, QqqThenTqqq, lim), lim)
  {
    assert Clip(x, OffGridCap(x)) == x && ExposureToWeights(x, QqqThenTqqq) == Weights(x, 0.0, 0.0);
    assert WithinLimits(Weights(x, 0.0, 0.0), OffGridCap(x));
    hide Allocate, WithinLimits, Clip, Millionths, ExposureToWeights;
    AsMapped(x, QqqThenTqqq, OffGridCap(x));
  }

  lemma OffGridRoomIsExceeded(x: real)
    requires 0.0 <= x <= 1.0 && !RoundsDown(x)
    ensures var lim := OffGridRoom(x); lim.Valid() && !KeepsGross(Allocate(x, QqqThenTqqq, lim), lim)
  {
    assert Clip(x, OffGridRoom(x)) == x && ExposureToWeights(x, QqqThenTqqq) == Weights(x, 0.0, 0.0);
    assert WithinLimits(Weights(x, 0.0, 0.0), OffGridRoom(x));
    assert OffGridRoom(x).Room() == x;
    RoundedWeight(0.0);
    hide Allocate, WithinLimits, Clip, Millionths, ExposureToWeights, Limits.Room;
    AsMapped(x, QqqThenTqqq, OffGridRoom(x));
  }

  lemma OffGridLeveragedIsExceeded(x: real)
    requires 0.0 <= x <= 1.0 && !RoundsDown(x)
    ensures var lim := OffGridLeveraged(x);
      lim.Valid() && !KeepsPositions(Allocate(1.0 + 2.0 * x, QqqThenTqqq, lim), lim)
  {
    var e, lim := 1.0 + 2.0 * x, OffGridLeveraged(x);
    RoundedWeight(0.0);
    OffGridMix(x);
    assert Clip(e, lim) == e;
    assert WithinLimits(Weights(1.0 - x, x, 0.0), lim);
    hide Allocate, WithinLimits, Clip, Millionths, ExposureToWeights;
    AsMapped(e, QqqThenTqqq, lim);
  }

  lemma OffGridMix(x: real)
    requires 0.0 <= x <= 1.0
    ensures ExposureToWeights(1.0 + 2.0 * x, QqqThenTqqq) == Weights(1.0 - x, x, 0.0)
  {
  }

  // The limits of config/risk.yaml:14-27 are on the grid of every mode.
  const SHIPPED := Limits(2.0, 0.45, 1.0, 0.0, 0.66, map[TQQQ := 0.66, SQQQ := 0.15, QQQ := 1.0], 1.0)

  lemma ShippedLimitsHold(e: real, mode: LongMode)
    ensures SHIPPED.Valid() && OnGrid(mode, SHIPPED) && Keeps(Allocate(e, mode, SHIPPED), SHIPPED)
  {
    ShippedIsOnGrid(mode);
    assert SHIPPED.Valid();
    hide *;
    RoundedLimitsHold(e, mode, SHIPPED);
  }

  lemma ShippedRoundsDown()
    ensures RoundsDown(0.15) && RoundsDown(1.0) && RoundsDown(0.5)
  {
    RoundingIsUnique(0.15 * MILLION, 150_000);
    RoundingIsUnique(1.0 * MILLION, 1_000_000);
    RoundingIsUnique(0.5 * MILLION, 500_000);
  }

  lemma ShippedIsOnGrid(mode: LongMode)
    ensures OnGrid(mode, SHIPPED)
  {
    ShippedRoundsDown();
    hide RoundsDown;
    assert SHIPPED.Cap(QQQ) == 1.0 && SHIPPED.Cap(TQQQ) == 0.66 && SHIPPED.Cap(SQQQ) == 0.15;
    assert SHIPPED.Room() == 1.0;
  }
}
