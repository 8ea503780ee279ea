// Fill pricing and transaction costs (src/adaptive_quant/quant/backtest/costs.py).
//
// Quantities are whole lot steps (`lotsPerShare` of them make one share), prices
// are ticks of 1e-6 dollars and cash amounts are cents. Rates stay real numbers.
module Costs {
  import opened Wrappers
  import opened Errors
  import opened Rounding

  const TICKS_PER_CENT := 10_000
  const BPS := 10_000.0

  datatype Side = Buy | Sell

  datatype CostConfig = CostConfig(
    commissionPerShare: real,
    commissionPerOrder: real,
    commissionMinimum: real,
    halfSpreadBps: map<string, real>,
    slippageBps: real,
    impactCoefficientBps: real,
    maxParticipation: real,
    rejectUnknownVolume: bool)
  {
    // The bounds the configuration schema enforces.
    ghost predicate Valid() {
      && 0.0 <= commissionPerShare && 0.0 <= commissionPerOrder && 0.0 <= commissionMinimum
      && "default" in halfSpreadBps
      && (forall s :: s in halfSpreadBps ==> 0.0 <= halfSpreadBps[s] <= 500.0)
      && 0.0 <= slippageBps <= 500.0
      && 0.0 <= impactCoefficientBps <= 5000.0
      && 0.0 < maxParticipation <= 1.0
    }

    function HalfSpread(symbol: string): real
      requires "default" in halfSpreadBps
    {
      if symbol in halfSpreadBps then halfSpreadBps[symbol] else halfSpreadBps["default"]
    }
  }

  // `sqrt` stands for Decimal.sqrt: all that is used of it is that it is monotone
  // on the non-negative numbers and does not leave the unit interval.
  datatype CostModel = CostModel(config: CostConfig, lotsPerShare: int, sqrt: real -> real) {
    ghost predicate Valid() {
      && config.Valid()
      && lotsPerShare > 0
      && MonotoneRoot(sqrt)
    }
  }

  ghost predicate MonotoneRoot(f: real -> real) {
    && (forall x, y :: 0.0 <= x <= y ==> 0.0 <= f(x) <= f(y))
    && f(1.0) <= 1.0
  }

  datatype FillQuote = FillQuote(
    quantity: int,
    refPrice: int,
    fillPrice: int,
    notional: int,
    commission: int,
    spreadCost: int,
    slippageCost: int,
    impactCost: int)
  {
    function ImplicitCost(): int {
      spreadCost + slippageCost + impactCost
    }
  }

  predicate KnownVolume(adv: Option<real>) {
    adv.Some? && adv.value > 0.0
  }

  // Most shares one order may fill; None when the volume is unknown.
  function ParticipationCap(m: CostModel, adv: Option<real>): Option<real> {
    if !KnownVolume(adv) then None else Some(adv.value * m.config.maxParticipation)
  }

  function Shares(m: CostModel, quantity: int): real
    requires m.lotsPerShare > 0
  {
    quantity as real / m.lotsPerShare as real
  }

  function ImpactBps(m: CostModel, quantity: int, adv: Option<real>): real
    requires m.lotsPerShare > 0
  {
    if !KnownVolume(adv) || quantity <= 0 then 0.0
    else RootImpact(m.sqrt, m.config.impactCoefficientBps, Shares(m, quantity), adv.value)
  }

  // Square-root market impact of trading `shares` against a daily `volume`.
  function RootImpact(root: real -> real, coefficient: real, shares: real, volume: real): real
    requires volume > 0.0
  {
    coefficient * root(shares / volume)
  }

  function Commission(m: CostModel, quantity: int): int
    requires m.lotsPerShare > 0
  {
    if quantity <= 0 then 0
    else
      RoundHalfEven(100.0 * ExactCommission(m.config, Shares(m, quantity)))
  }

  function ExactCommission(c: CostConfig, shares: real): real {
    var raw := c.commissionPerOrder + c.commissionPerShare * shares;
    if raw < c.commissionMinimum then c.commissionMinimum else raw
  }

  function TotalBps(m: CostModel, symbol: string, quantity: int, adv: Option<real>): real
    requires m.lotsPerShare > 0 && "default" in m.config.halfSpreadBps
  {
    m.config.HalfSpread(symbol) + m.config.slippageBps + ImpactBps(m, quantity, adv)
  }

  // The reference moved against the trader, before rounding to a tick.
  function MovedPrice(side: Side, ref: int, totalBps: real): real {
    ref as real * (if side == Buy then 1.0 + totalBps / BPS else 1.0 - totalBps / BPS)
  }

  function FillPrice(side: Side, ref: int, totalBps: real): int {
    RoundHalfEven(MovedPrice(side, ref, totalBps))
  }

  // Cents exchanged for `quantity` lot steps at `price` ticks a share.
  function Notional(m: CostModel, quantity: int, price: int): int
    requires m.lotsPerShare > 0
  {
    RoundHalfEven((quantity * price) as real / (m.lotsPerShare * TICKS_PER_CENT) as real)
  }

  function Abs(x: int): int {
    if x < 0 then -x else x
  }

  // Splits `total` cents in proportion to three weights; the last share takes the rest.
  function Split(total: int, a: real, b: real, c: real): (int, int, int) {
    var sum := a + b + c;
    if sum == 0.0 || total == 0 then (0, 0, 0)
    else
      var first := RoundHalfEven(total as real * a / sum);
      var second := RoundHalfEven(total as real * b / sum);
      (first, second, total - first - second)
  }

  function Quote(m: CostModel, symbol: string, side: Side, quantity: int, ref: int, adv: Option<real>)
    : Result<FillQuote, Error>
    requires m.lotsPerShare > 0 && "default" in m.config.halfSpreadBps
  {
    if quantity <= 0 then Failure(QuantityNotPositive)
    else if ref <= 0 then Failure(PriceNotPositive)
    else
      var spread, slip := m.config.HalfSpread(symbol), m.config.slippageBps;
      var impact := ImpactBps(m, quantity, adv);
      var price := FillPrice(side, ref, spread + slip + impact);
      if price <= 0 then Failure(CostsExceedPrice)
      else
        var notional := Notional(m, quantity, price);
        var implicit := Abs(notional - Notional(m, quantity, ref));
        var (s, k, i) := Split(implicit, spread, slip, impact);
        Success(FillQuote(quantity, ref, price, notional, Commission(m, quantity), s, k, i))
  }

  // ------------------------------------------------------------ bounds

  lemma SharesMonotone(m: CostModel, p: int, q: int)
    requires m.lotsPerShare > 0 && p <= q
    ensures Shares(m, p) <= Shares(m, q)
    ensures 0 <= p ==> 0.0 <= Shares(m, p)
  {
    DivideMonotone(p as real, q as real, m.lotsPerShare as real);
    if 0 <= p {
      DivideMonotone(0.0, p as real, m.lotsPerShare as real);
    }
  }

  lemma DivideMonotone(x: real, y: real, d: real)
    requires d > 0.0 && x <= y
    ensures x / d <= y / d
  {
    assert (x / d) * d == x && (y / d) * d == y;
  }

  lemma TimesMonotone(x: real, y: real, k: real)
    requires k >= 0.0 && x <= y
    ensures k * x <= k * y && x * k <= y * k
  {
  }

  lemma ImpactMonotone(m: CostModel, p: int, q: int, adv: Option<real>)
    requires m.Valid() && p <= q
    ensures 0.0 <= ImpactBps(m, p, adv) <= ImpactBps(m, q, adv)
  {
    hide Shares, RootImpact;
    if KnownVolume(adv) && 0 < q {
      SharesMonotone(m, 0, q);
      var k := m.config.impactCoefficientBps;
      RootImpactMonotone(m.sqrt, k, Shares(m, q), Shares(m, q), adv.value);
      if 0 < p {
        SharesMonotone(m, 0, p);
        SharesMonotone(m, p, q);
        RootImpactMonotone(m.sqrt, k, Shares(m, p), Shares(m, q), adv.value);
      }
    }
  }

  lemma RootImpactMonotone(root: real -> real, k: real, x: real, y: real, d: real)
    requires MonotoneRoot(root) && 0.0 <= k && 0.0 <= x <= y && d > 0.0
    ensures 0.0 <= RootImpact(root, k, x, d) <= RootImpact(root, k, y, d)
  {
    DivideMonotone(0.0, x, d);
    DivideMonotone(x, y, d);
    var a, b := root(x / d), root(y / d);
    assert 0.0 <= a <= b;
    TimesMonotone(0.0, a, k);
    TimesMonotone(a, b, k);
  }

  // A fill within one average day of volume pays at most 60 percent of the price.
  lemma BpsWithinSchema(m: CostModel, symbol: string, quantity: int, adv: Option<real>)
    requires m.Valid()
    requires KnownVolume(adv) ==> Shares(m, quantity) <= adv.value
    ensures 0.0 <= TotalBps(m, symbol, quantity, adv) <= 6000.0
  {
    ImpactMonotone(m, quantity, quantity, adv);
    ImpactBounded(m, quantity, adv);
  }

  lemma ImpactBounded(m: CostModel, quantity: int, adv: Option<real>)
    requires m.Valid()
    requires KnownVolume(adv) ==> Shares(m, quantity) <= adv.value
    ensures ImpactBps(m, quantity, adv) <= m.config.impactCoefficientBps
  {
    hide Shares, RootImpact;
    if KnownVolume(adv) && 0 < quantity {
      SharesMonotone(m, 0, quantity);
      RootImpactBounded(m.sqrt, m.config.impactCoefficientBps, Shares(m, quantity), adv.value);
    }
  }

  lemma RootImpactBounded(root: real -> real, k: real, x: real, d: real)
    requires MonotoneRoot(root) && 0.0 <= k && 0.0 <= x <= d && d > 0.0
    ensures RootImpact(root, k, x, d) <= k
  {
    UnitRatio(x, d);
    assert root(x / d) <= root(1.0) <= 1.0;
    AtMostUnit(k, root(x / d));
  }

  lemma AtMostUnit(k: real, r: real)
    requires 0.0 <= k && r <= 1.0
    ensures k * r <= k
  {
  }

  lemma UnitRatio(x: real, d: real)
    requires 0.0 <= x <= d && d > 0.0
    ensures 0.0 <= x / d <= 1.0
  {
    DivideMonotone(0.0, x, d);
    DivideMonotone(x, d, d);
  }

  lemma MovedPriceMonotone(side: Side, ref: int, b1: real, b2: real)
    requires 0 <= ref && b1 <= b2
    ensures if side == Buy then MovedPrice(side, ref, b1) <= MovedPrice(side, ref, b2)
            else MovedPrice(side, ref, b2) <= MovedPrice(side, ref, b1)
    ensures MovedPrice(side, ref, 0.0) == ref as real
  {
    if side == Buy {
      TimesMonotone(1.0 + b1 / BPS, 1.0 + b2 / BPS, ref as real);
    } else {
      TimesMonotone(1.0 - b2 / BPS, 1.0 - b1 / BPS, ref as real);
    }
  }

  // Buys never fill below the reference, sells never above it.
  lemma FillPriceDirection(side: Side, ref: int, bps: real)
    requires 0 <= ref && 0.0 <= bps
    ensures if side == Buy then ref <= FillPrice(side, ref, bps) else FillPrice(side, ref, bps) <= ref
    ensures bps == 0.0 ==> FillPrice(side, ref, bps) == ref
  {
    MovedPriceMonotone(side, ref, 0.0, bps);
    RoundToReference(MovedPrice(side, ref, bps), ref);
  }

  lemma RoundToReference(x: real, ref: int)
    ensures x <= ref as real ==> RoundHalfEven(x) <= ref
    ensures ref as real <= x ==> ref <= RoundHalfEven(x)
  {
    RoundingIsUnique(ref as real, ref);
    if x <= ref as real {
      RoundingIsMonotone(x, ref as real);
    }
    if ref as real <= x {
      RoundingIsMonotone(ref as real, x);
    }
  }

  // A quote is refused for its costs exactly when a sell keeps at most half a tick.
  lemma QuoteRefusedIff(m: CostModel, symbol: string, side: Side, quantity: int, ref: int, adv: Option<real>)
    requires m.Valid() && quantity > 0 && ref > 0
    ensures Quote(m, symbol, side, quantity, ref, adv).Failure?
       <==> side == Sell && MovedPrice(side, ref, TotalBps(m, symbol, quantity, adv)) <= 0.5
    ensures Quote(m, symbol, side, quantity, ref, adv).Failure?
        ==> Quote(m, symbol, side, quantity, ref, adv) == Failure(CostsExceedPrice)
  {
    var bps := TotalBps(m, symbol, quantity, adv);
    ImpactMonotone(m, quantity, quantity, adv);
    FillPriceDirection(side, ref, bps);
    RoundsToNothingIff(MovedPrice(side, ref, bps));
  }

  lemma RoundsToNothingIff(x: real)
    ensures RoundHalfEven(x) <= 0 <==> x <= 0.5
  {
    if x <= 0.5 {
      RoundingIsUnique(0.5, 0);
      RoundingIsMonotone(x, 0.5);
    }
  }

  // Under the schema's bounds every order within the participation cap gets a
  // positive fill price as soon as the reference is at least two ticks.
  lemma CappedQuotesSucceed(m: CostModel, symbol: string, side: Side, quantity: int, ref: int, adv: Option<real>)
    requires m.Valid() && quantity > 0 && ref >= 2
    requires ParticipationCap(m, adv).Some? ==> Shares(m, quantity) <= ParticipationCap(m, adv).value
    ensures Quote(m, symbol, side, quantity, ref, adv).Success?
    ensures Quote(m, symbol, side, quantity, ref, adv).value.fillPrice > 0
  {
    if KnownVolume(adv) {
      TimesMonotone(m.config.maxParticipation, 1.0, adv.value);
    }
    BpsWithinSchema(m, symbol, quantity, adv);
    var bps := TotalBps(m, symbol, quantity, adv);
    QuoteRefusedIff(m, symbol, side, quantity, ref, adv);
    MovedPriceMonotone(Sell, ref, bps, 6000.0);
  }

  // At one tick the same bounds do not suffice: a half-price cost rounds to nothing.
  lemma OneTickCanVanish()
    ensures FillPrice(Sell, 1, 6000.0) == 0
  {
    RoundingIsUnique(0.4, 0);
  }

  // ------------------------------------------------------------ attribution

  function ExactPart(total: real, weight: real, sum: real): real
    requires sum > 0.0
  {
    total * weight / sum
  }

  // Each of the first two shares is its exact pro-rata part rounded to a cent and the
  // third is within one cent of its part, so it can fall to minus one cent, not lower.
  lemma SplitIsProRata(total: int, a: real, b: real, c: real)
    requires 0 <= total && 0.0 <= a && 0.0 <= b && 0.0 <= c && a + b + c > 0.0
    ensures var (x, y, z) := Split(total, a, b, c);
      && x + y + z == total
      && 0 <= x && 0 <= y && -1 <= z
      && -0.5 <= ExactPart(total as real, a, a + b + c) - x as real <= 0.5
      && -0.5 <= ExactPart(total as real, b, a + b + c) - y as real <= 0.5
      && -1.0 <= ExactPart(total as real, c, a + b + c) - z as real <= 1.0
  {
    PartsAddUp(total as real, a, b, c, a + b + c);
    RoundToReference(ExactPart(total as real, a, a + b + c), 0);
    RoundToReference(ExactPart(total as real, b, a + b + c), 0);
  }

  lemma PartsAddUp(t: real, a: real, b: real, c: real, sum: real)
    requires 0.0 <= t && 0.0 <= a && 0.0 <= b && 0.0 <= c && a + b + c == sum > 0.0
    ensures ExactPart(t, a, sum) + ExactPart(t, b, sum) + ExactPart(t, c, sum) == t
    ensures 0.0 <= ExactPart(t, a, sum) && 0.0 <= ExactPart(t, b, sum) && 0.0 <= ExactPart(t, c, sum)
  {
    ScaledPart(t, a, sum);
    ScaledPart(t, b, sum);
    ScaledPart(t, c, sum);
    Distribute(t, a, b, c);
    SumOfParts(ExactPart(t, a, sum), ExactPart(t, b, sum), ExactPart(t, c, sum), t, sum);
  }

  lemma Distribute(t: real, a: real, b: real, c: real)
    ensures t * a + t * b + t * c == t * (a + b + c)
  {
  }

  lemma ScaledPart(t: real, x: real, d: real)
    requires 0.0 <= t && 0.0 <= x && d > 0.0
    ensures 0.0 <= ExactPart(t, x, d) && ExactPart(t, x, d) * d == t * x
  {
    TimesMonotone(0.0, x, t);
    DivideMonotone(0.0, t * x, d);
  }

  lemma SumOfParts(x: real, y: real, z: real, t: real, d: real)
    requires d > 0.0 && x * d + y * d + z * d == t * d
    ensures x + y + z == t
  {
    assert (x + y + z - t) * d == 0.0;
  }

  // Half a cent above an odd number of cents: a tie, rounded up.
  predicate TiesUp(x: real) {
    x - x.Floor as real == 0.5 && x.Floor % 2 == 1
  }

  // The third share is negative exactly when there is no third cost and the two parts
  // between which the total falls are both rounded up on a tie.
  lemma SplitIsNegativeIff(total: int, a: real, b: real, c: real)
    requires 0 <= total && 0.0 <= a && 0.0 <= b && 0.0 <= c && a + b + c > 0.0
    ensures Split(total, a, b, c).2 < 0
       <==> c == 0.0 && TiesUp(ExactPart(total as real, a, a + b + c)) && TiesUp(ExactPart(total as real, b, a + b + c))
  {
    var sum := a + b + c;
    PartsAddUp(total as real, a, b, c, sum);
    PartIsZeroIff(total as real, c, sum);
    var t := total as real;
    RestIsNegativeIff(ExactPart(t, a, sum), ExactPart(t, b, sum), ExactPart(t, c, sum), total);
    NothingToSplit(a, sum);
    hide TiesUp, ExactPart, RoundHalfEven;
  }

  lemma NothingToSplit(a: real, sum: real)
    requires sum > 0.0
    ensures !TiesUp(ExactPart(0.0, a, sum))
  {
  }

  lemma PartIsZeroIff(t: real, x: real, d: real)
    requires 0.0 <= t && 0.0 <= x && d > 0.0
    ensures ExactPart(t, x, d) == 0.0 <==> t == 0.0 || x == 0.0
  {
    ScaledPart(t, x, d);
  }

  lemma RestIsNegativeIff(x: real, y: real, z: real, total: int)
    requires 0.0 <= x && 0.0 <= y && 0.0 <= z && x + y + z == total as real
    ensures total - RoundHalfEven(x) - RoundHalfEven(y) < 0 <==> z == 0.0 && TiesUp(x) && TiesUp(y)
  {
  }

  // With an impact cost, or any third cost at all, every share is zero or more.
  lemma ImpactShareIsNotNegative(total: int, a: real, b: real, c: real)
    requires 0 <= total && 0.0 <= a && 0.0 <= b && 0.0 < c
    ensures var (x, y, z) := Split(total, a, b, c); 0 <= x && 0 <= y && 0 <= z
  {
    SplitIsNegativeIff(total, a, b, c);
    SplitIsProRata(total, a, b, c);
    hide Split;
  }

  lemma SplitCanGoNegative()
    ensures Split(3, 1.0, 1.0, 0.0) == (2, 2, -1)
  {
    RoundingIsUnique(3.0 * 1.0 / 2.0, 2);
  }

  // The attributed costs add up exactly to what the fill lost against the reference.
  lemma ImplicitCostIsExact(m: CostModel, symbol: string, side: Side, quantity: int, ref: int, adv: Option<real>)
    requires m.Valid()
    requires Quote(m, symbol, side, quantity, ref, adv).Success?
    ensures var q := Quote(m, symbol, side, quantity, ref, adv).value;
      && q.quantity == quantity && q.refPrice == ref
      && q.ImplicitCost() == Abs(q.notional - Notional(m, quantity, ref))
      && (if side == Buy then Notional(m, quantity, ref) <= q.notional else q.notional <= Notional(m, quantity, ref))
      && 0 <= q.notional && 0 <= q.commission
  {
    var bps := TotalBps(m, symbol, quantity, adv);
    ImpactMonotone(m, quantity, quantity, adv);
    FillPriceDirection(side, ref, bps);
    var price := FillPrice(side, ref, bps);
    if side == Buy {
      NotionalMonotone(m, quantity, quantity, ref, price);
    } else {
      NotionalMonotone(m, quantity, quantity, price, ref);
    }
    NotionalMonotone(m, 0, quantity, 0, price);
    CommissionMonotone(m, quantity, quantity);
    // with no rate at all the fill is at the reference and nothing is left to attribute
    assert bps == 0.0 ==> price == ref;
  }

  // ------------------------------------------------------------ monotone buy cost

  lemma NotionalMonotone(m: CostModel, p: int, q: int, x: int, y: int)
    requires m.lotsPerShare > 0 && 0 <= p <= q && 0 <= x <= y
    ensures 0 <= Notional(m, p, x) <= Notional(m, q, y)
  {
    assert 0 <= p * x <= q * x <= q * y;
    var d := (m.lotsPerShare * TICKS_PER_CENT) as real;
    DivideMonotone(0.0, (p * x) as real, d);
    DivideMonotone((p * x) as real, (q * y) as real, d);
    RoundingIsUnique(0.0, 0);
    RoundingIsMonotone(0.0, (p * x) as real / d);
    RoundingIsMonotone((p * x) as real / d, (q * y) as real / d);
  }

  lemma CommissionMonotone(m: CostModel, p: int, q: int)
    requires m.Valid() && p <= q
    ensures 0 <= Commission(m, p) <= Commission(m, q)
  {
    if 0 < q {
      SharesMonotone(m, 0, q);
      ExactCommissionMonotone(m.config, 0.0, Shares(m, q));
      RoundToReference(100.0 * ExactCommission(m.config, Shares(m, q)), 0);
      if 0 < p {
        SharesMonotone(m, 0, p);
        SharesMonotone(m, p, q);
        ExactCommissionMonotone(m.config, 0.0, Shares(m, p));
        ExactCommissionMonotone(m.config, Shares(m, p), Shares(m, q));
        var x, y := 100.0 * ExactCommission(m.config, Shares(m, p)), 100.0 * ExactCommission(m.config, Shares(m, q));
        RoundToReference(x, 0);
        RoundingIsMonotone(x, y);
      }
    }
  }

  lemma ExactCommissionMonotone(c: CostConfig, x: real, y: real)
    requires c.Valid() && 0.0 <= x <= y
    ensures 0.0 <= ExactCommission(c, x) <= ExactCommission(c, y)
  {
    TimesMonotone(x, y, c.commissionPerShare);
    TimesMonotone(0.0, x, c.commissionPerShare);
  }

  // Cents a buy of `quantity` lot steps takes out of the cash account.
  function BuyCost(m: CostModel, symbol: string, quantity: int, ref: int, adv: Option<real>): int
    requires m.lotsPerShare > 0 && "default" in m.config.halfSpreadBps
  {
    Notional(m, quantity, FillPrice(Buy, ref, TotalBps(m, symbol, quantity, adv))) + Commission(m, quantity)
  }

  lemma BuyCostIsQuoted(m: CostModel, symbol: string, quantity: int, ref: int, adv: Option<real>)
    requires m.Valid() && quantity > 0 && ref > 0
    ensures var q := Quote(m, symbol, Buy, quantity, ref, adv);
      q.Success? && q.value.notional + q.value.commission == BuyCost(m, symbol, quantity, ref, adv)
  {
    QuoteRefusedIff(m, symbol, Buy, quantity, ref, adv);
  }

  // Larger buys never cost less: through impact, tick rounding, cent rounding and the
  // commission floor.
  lemma BuyCostMonotone(m: CostModel, symbol: string, p: int, q: int, ref: int, adv: Option<real>)
    requires m.Valid() && 0 < p <= q && 0 < ref
    ensures 0 <= BuyCost(m, symbol, p, ref, adv) <= BuyCost(m, symbol, q, ref, adv)
  {
    ImpactMonotone(m, p, q, adv);
    var bp, bq := TotalBps(m, symbol, p, adv), TotalBps(m, symbol, q, adv);
    FillPriceDirection(Buy, ref, bp);
    MovedPriceMonotone(Buy, ref, bp, bq);
    RoundingIsMonotone(MovedPrice(Buy, ref, bp), MovedPrice(Buy, ref, bq));
    NotionalMonotone(m, p, q, FillPrice(Buy, ref, bp), FillPrice(Buy, ref, bq));
    CommissionMonotone(m, p, q);
  }
}
