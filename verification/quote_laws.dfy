// What a quote charges, in the terms of the cost configuration
// (src/adaptive_quant/quant/backtest/costs.py:56-113).
module QuoteLaws {
  import opened Wrappers
  import opened Errors
  import opened Rounding
  import opened Costs

  // Square-root impact: the coefficient times the root of the share of a day's volume.
  predicate IsImpact(m: CostModel, quantity: int, adv: Option<real>, bps: real)
    requires m.lotsPerShare > 0
  {
    if adv.Some? && adv.value > 0.0
    then bps == m.config.impactCoefficientBps * m.sqrt(quantity as real / (adv.value * m.lotsPerShare as real))
    else bps == 0.0
  }

  // The larger of the minimum and the charge per order and per share, in whole cents.
  predicate IsCommission(m: CostModel, quantity: int, cents: int)
    requires m.lotsPerShare > 0
  {
    var charge := m.config.commissionPerOrder
      + m.config.commissionPerShare * (quantity as real / m.lotsPerShare as real);
    && (charge <= m.config.commissionMinimum ==> Nearest(cents, 100.0 * m.config.commissionMinimum))
    && (charge >= m.config.commissionMinimum ==> Nearest(cents, 100.0 * charge))
  }

  // `cents` for so many lot steps at so many ticks a share.
  predicate IsValue(m: CostModel, quantity: int, price: int, cents: int)
    requires m.lotsPerShare > 0
  {
    Nearest(cents, (quantity * price) as real / (m.lotsPerShare * 10_000) as real)
  }

  // The reference moved against the trader by that many basis points.
  predicate IsMoved(side: Side, ref: int, bps: real, price: int) {
    Nearest(price, ref as real * (if side == Buy then 1.0 + bps / 10_000.0 else 1.0 - bps / 10_000.0))
  }

  // The part of `total` cents in proportion to one of several rates.
  predicate IsPart(cents: int, total: int, rate: real, rates: real)
    requires rates > 0.0
  {
    Nearest(cents, total as real * rate / rates)
  }

  predicate IsFair(m: CostModel, symbol: string, side: Side, adv: Option<real>, q: FillQuote, impact: real, was: int)
    requires m.lotsPerShare > 0
  {
    "default" in m.config.halfSpreadBps
    && var spread := m.config.halfSpreadBps[if symbol in m.config.halfSpreadBps then symbol else "default"];
    var slippage := m.config.slippageBps;
    var bps := spread + slippage + impact;
    var lost := if q.notional < was then was - q.notional else q.notional - was;
    && 0 < q.quantity && 0 < q.refPrice && 0 < q.fillPrice
    && IsImpact(m, q.quantity, adv, impact)
    && IsMoved(side, q.refPrice, bps, q.fillPrice)
    && IsValue(m, q.quantity, q.fillPrice, q.notional)
    && IsCommission(m, q.quantity, q.commission)
    && IsValue(m, q.quantity, q.refPrice, was)
    && q.spreadCost + q.slippageCost + q.impactCost == lost
    && (bps > 0.0 ==> IsPart(q.spreadCost, lost, spread, bps) && IsPart(q.slippageCost, lost, slippage, bps))
  }

  // A quote is the configured prices and charges, each rounded once, and its implicit cost
  // shared out over spread, slippage and impact.
  lemma QuoteIsFair(m: CostModel, symbol: string, side: Side, quantity: int, ref: int, adv: Option<real>)
    returns (impact: real, was: int)
    requires m.Valid() && Quote(m, symbol, side, quantity, ref, adv).Success?
    ensures var q := Quote(m, symbol, side, quantity, ref, adv).value;
      q.quantity == quantity && q.refPrice == ref && IsFair(m, symbol, side, adv, q, impact, was)
  {
    impact, was := ImpactBps(m, quantity, adv), Notional(m, quantity, ref);
    hide *;
    QuoteParts(m, symbol, side, quantity, ref, adv);
    var q := Quote(m, symbol, side, quantity, ref, adv).value;
    ImpactIsImpact(m, quantity, adv);
    MoveIsMoved(side, ref, m.config.HalfSpread(symbol) + m.config.slippageBps + impact);
    ValueIsValue(m, quantity, q.fillPrice);
    ValueIsValue(m, quantity, ref);
    CommissionIsCommission(m, quantity);
    PartsAreFair(m, symbol, side, adv, q, impact, was);
  }

  // What the quote is made of.
  predicate HasParts(m: CostModel, symbol: string, side: Side, q: FillQuote, impact: real, was: int)
    requires m.lotsPerShare > 0 && "default" in m.config.halfSpreadBps
  {
    var spread, slippage := m.config.HalfSpread(symbol), m.config.slippageBps;
    && 0 < q.quantity && 0 < q.refPrice && 0 < q.fillPrice
    && q.fillPrice == FillPrice(side, q.refPrice, spread + slippage + impact)
    && q.notional == Notional(m, q.quantity, q.fillPrice)
    && q.commission == Commission(m, q.quantity)
    && q.spreadCost + q.slippageCost + q.impactCost == Abs(q.notional - was)
    && Split(Abs(q.notional - was), spread, slippage, impact).0 == q.spreadCost
    && Split(Abs(q.notional - was), spread, slippage, impact).1 == q.slippageCost
  }

  lemma QuoteParts(m: CostModel, symbol: string, side: Side, quantity: int, ref: int, adv: Option<real>)
    requires m.Valid() && Quote(m, symbol, side, quantity, ref, adv).Success?
    ensures var q := Quote(m, symbol, side, quantity, ref, adv).value;
      && q.quantity == quantity && q.refPrice == ref && m.lotsPerShare > 0 && "default" in m.config.halfSpreadBps
      && HasParts(m, symbol, side, q, ImpactBps(m, quantity, adv), Notional(m, quantity, ref))
      && 0.0 <= m.config.HalfSpread(symbol) && 0.0 <= m.config.slippageBps && 0.0 <= ImpactBps(m, quantity, adv)
  {
    ImplicitCostIsExact(m, symbol, side, quantity, ref, adv);
    ImpactMonotone(m, quantity, quantity, adv);
    hide ImpactBps, Notional, FillPrice, Commission, Split;
  }

  lemma PartsAreFair(m: CostModel, symbol: string, side: Side, adv: Option<real>, q: FillQuote, impact: real, was: int)
    requires m.lotsPerShare > 0 && "default" in m.config.halfSpreadBps
    requires HasParts(m, symbol, side, q, impact, was)
    requires 0.0 <= m.config.HalfSpread(symbol) && 0.0 <= m.config.slippageBps && 0.0 <= impact
    requires IsImpact(m, q.quantity, adv, impact)
    requires IsMoved(side, q.refPrice, m.config.HalfSpread(symbol) + m.config.slippageBps + impact, q.fillPrice)
    requires IsValue(m, q.quantity, q.fillPrice, q.notional) && IsCommission(m, q.quantity, q.commission)
    requires IsValue(m, q.quantity, q.refPrice, was)
    ensures IsFair(m, symbol, side, adv, q, impact, was)
  {
    SharesAreNear(Abs(q.notional - was), m.config.HalfSpread(symbol), m.config.slippageBps, impact);
    hide FillPrice, Notional, Commission, Split, IsImpact, IsMoved, IsValue, IsCommission, IsPart;
  }

  lemma ImpactIsImpact(m: CostModel, quantity: int, adv: Option<real>)
    requires m.Valid() && quantity > 0
    ensures IsImpact(m, quantity, adv, ImpactBps(m, quantity, adv))
  {
    if KnownVolume(adv) {
      ShareOf(quantity as real, m.lotsPerShare as real, adv.value);
    }
  }

  lemma ShareOf(quantity: real, lots: real, volume: real)
    requires lots > 0.0 && volume > 0.0
    ensures quantity / (volume * lots) == quantity / lots / volume
  {
    var x := quantity / lots / volume;
    assert x * volume == quantity / lots;
    assert x * (volume * lots) == (x * volume) * lots == quantity;
  }

  lemma MoveIsMoved(side: Side, ref: int, bps: real)
    ensures IsMoved(side, ref, bps, FillPrice(side, ref, bps))
  {
    assert BPS == 10_000.0;
    assert MovedPrice(side, ref, bps)
        == ref as real * (if side == Buy then 1.0 + bps / 10_000.0 else 1.0 - bps / 10_000.0);
    RoundingIsNearest(MovedPrice(side, ref, bps));
    hide RoundHalfEven, Nearest;
  }

  lemma ValueIsValue(m: CostModel, quantity: int, price: int)
    requires m.lotsPerShare > 0
    ensures IsValue(m, quantity, price, Notional(m, quantity, price))
  {
    RoundingIsNearest((quantity * price) as real / (m.lotsPerShare * TICKS_PER_CENT) as real);
    hide RoundHalfEven, Nearest;
  }

  lemma RoundingIsNearest(x: real)
    ensures Nearest(RoundHalfEven(x), x)
  {
    hide RoundHalfEven;
  }

  lemma CommissionIsCommission(m: CostModel, quantity: int)
    requires m.lotsPerShare > 0 && quantity > 0
    ensures IsCommission(m, quantity, Commission(m, quantity))
  {
    var charge := m.config.commissionPerOrder
      + m.config.commissionPerShare * (quantity as real / m.lotsPerShare as real);
    assert Shares(m, quantity) == quantity as real / m.lotsPerShare as real;
    assert ExactCommission(m.config, Shares(m, quantity))
        == if charge < m.config.commissionMinimum then m.config.commissionMinimum else charge;
    RoundingIsNearest(100.0 * ExactCommission(m.config, Shares(m, quantity)));
    hide RoundHalfEven, Nearest;
  }

  lemma SharesAreNear(total: int, a: real, b: real, c: real)
    requires 0.0 <= a && 0.0 <= b && 0.0 <= c
    ensures var sum := a + b + c;
      var (x, y, z) := Split(total, a, b, c);
      sum > 0.0 ==> IsPart(x, total, a, sum) && IsPart(y, total, b, sum)
  {
    var sum := a + b + c;
    if sum > 0.0 {
      RoundingIsNearest(total as real * a / sum);
      RoundingIsNearest(total as real * b / sum);
      if total == 0 {
        assert 0.0 * a / sum == 0.0 && 0.0 * b / sum == 0.0;
      }
    }
    hide RoundHalfEven;
  }
}
