// The simulated portfolio (src/adaptive_quant/quant/backtest/portfolio.py): an object
// whose methods update cash, totals and lot queues in place, proved equal to Ledgers.
module Portfolios {
  import opened Wrappers
  import opened Errors
  import opened Rounding
  import opened Costs
  import opened Ledgers
  import opened LedgerLaws

  class Portfolio {
    const initialCash: int
    var cash: int
    var realizedPnl: int
    var commissions: int
    var implicitCosts: int
    var interest: int
    var lots: map<string, seq<Lot>>
    var fills: seq<Fill>
    var roundTrips: seq<RoundTrip>

    function State(): Ledger
      reads this
    {
      Ledger(initialCash, cash, realizedPnl, commissions, implicitCosts, interest, lots, fills, roundTrips)
    }

    constructor (initialCash: int)
      ensures State() == Open(initialCash)
    {
      this.initialCash := initialCash;
      cash := initialCash;
      realizedPnl, commissions, implicitCosts, interest := 0, 0, 0, 0;
      lots, fills, roundTrips := map[], [], [];
    }

    static method Create(amount: real) returns (r: Result<Portfolio, Error>)
      ensures amount <= 0.0 ==> r == Failure(InitialCashNotPositive)
      ensures amount > 0.0 ==> r.Success? && fresh(r.value) && r.value.State() == Open(RoundHalfEven(amount))
      ensures r.Success? ==> Sound(r.value.State())
    {
      if amount <= 0.0 {
        return Failure(InitialCashNotPositive);
      }
      RoundingIsUnique(0.0, 0);
      RoundingIsMonotone(0.0, amount);
      var p := new Portfolio(RoundHalfEven(amount));
      OpenIsLawful(RoundHalfEven(amount));
      return Success(p);
    }

    // ------------------------------------------------------------ queries

    method MarketValue(prices: map<string, int>) returns (r: Result<int, Error>)
      ensures Priced(State(), prices) ==> r == Success(Sum(MarketValues(State(), prices)))
      ensures !Priced(State(), prices) ==> r == Failure(NoMarkPrice)
    {
      ghost var values := MarketValues(State(), prices);
      var total := 0;
      var rest := lots.Keys;
      assert Among(values, rest) == values;
      while rest != {}
        invariant rest <= lots.Keys
        invariant forall s :: s in lots && s !in rest && lots[s] != [] ==> s in prices
        invariant total + Sum(Among(values, rest)) == Sum(values)
        decreases |rest|
      {
        var symbol :| symbol in rest;
        SumAmong(values, rest, symbol);
        if lots[symbol] != [] {
          if symbol !in prices {
            return Failure(NoMarkPrice);
          }
          total := total + Held(lots[symbol]) * prices[symbol];
        }
        rest := rest - {symbol};
      }
      assert Among(values, {}) == map[];
      return Success(total);
    }

    method TotalCostBasis() returns (basis: int)
      ensures basis == Sum(CostsOf(lots))
    {
      ghost var costs := CostsOf(lots);
      basis := 0;
      var rest := lots.Keys;
      assert Among(costs, rest) == costs;
      while rest != {}
        invariant rest <= lots.Keys
        invariant basis + Sum(Among(costs, rest)) == Sum(costs)
        decreases |rest|
      {
        var symbol :| symbol in rest;
        SumAmong(costs, rest, symbol);
        if lots[symbol] != [] {
          basis := basis + CostBasis(lots[symbol]);
        }
        rest := rest - {symbol};
      }
      assert Among(costs, {}) == map[];
    }

    method IdentityGap(prices: map<string, int>, scale: int) returns (r: Result<int, Error>)
      ensures Priced(State(), prices) ==> r == Success(Gap(State(), prices, scale))
      ensures !Priced(State(), prices) ==> r == Failure(NoMarkPrice)
      ensures Lawful(State()) && r.Success? ==> r.value == 0
    {
      var held := MarketValue(prices);
      if held.Failure? {
        return held;
      }
      var equity := cash * scale + held.value;
      var marked := MarketValue(prices);
      if marked.Failure? {
        return marked;
      }
      var basis := TotalCostBasis();
      var unrealized := marked.value - basis * scale;
      if Lawful(State()) {
        EquityIsExplained(State(), prices, scale);
      }
      return Success(equity - ((initialCash + realizedPnl - commissions + interest) * scale + unrealized));
    }

    // ------------------------------------------------------------ mutations

    method Apply(f: Fill, implicitCost: int) returns (error: Option<Error>)
      requires Positive(State())
      modifies this
      ensures Step(State(), error) == Ledgers.Apply(old(State()), f, implicitCost)
    {
      if f.quantity <= 0 {
        return Some(FillNotPositive);
      }
      if f.side == Buy {
        error := AddLot(f);
      } else {
        error := SellLots(f);
      }
      if error.Some? {
        return;
      }
      commissions := commissions + f.commission;
      implicitCosts := implicitCosts + implicitCost;
      fills := fills + [f];
      error := Check();
    }

    method AccrueInterest(amount: real) returns (error: Option<Error>)
      modifies this
      ensures Step(State(), error) == Accrue(old(State()), amount)
    {
      var cents := RoundHalfEven(amount);
      if cents < 0 {
        return Some(NegativeInterest);
      }
      cash := cash + cents;
      interest := interest + cents;
      return None;
    }

    method AddLot(f: Fill) returns (error: Option<Error>)
      modifies this
      ensures f.notional + f.commission > old(cash) ==> error == Some(InsufficientCash) && State() == old(State())
      ensures f.notional + f.commission <= old(cash) ==> error == None && State() == BuyFill(old(State()), f)
    {
      var outflow := f.notional + f.commission;
      if outflow > cash {
        return Some(InsufficientCash);
      }
      cash := cash - outflow;
      var queue := if f.symbol in lots then lots[f.symbol] else [];
      lots := lots[f.symbol := queue + [Lot(f.quantity, f.notional, f.commission, f.time)]];
      return None;
    }

    // The loop that consumes the oldest lots; `cut` is what it has taken so far.
    method SellLots(f: Fill) returns (error: Option<Error>)
      requires Positive(State()) && 0 < f.quantity
      modifies this
      ensures f.quantity > old(State()).Quantity(f.symbol) ==> error == Some(ExceedsHolding) && State() == old(State())
      ensures f.quantity <= old(State()).Quantity(f.symbol) ==> error == None && State() == SellFill(old(State()), f)
    {
      hide TakeSlice, Consume, Progress;
      var queue := if f.symbol in lots then lots[f.symbol] else [];
      if f.quantity > Held(queue) {
        return Some(ExceedsHolding);
      }
      cash := cash + f.notional - f.commission;
      var remaining := f.quantity;
      var proceedsLeft, sellCommissionLeft := f.notional, f.commission;
      ghost var whole := Consume(queue, f.quantity, f, f.notional, f.commission);
      ghost var cut: seq<Slice> := [];
      ProgressStarts(queue, f);
      assert lots[f.symbol := queue] == lots;
      while remaining > 0
        invariant Progress(whole, queue, remaining, f, proceedsLeft, sellCommissionLeft, cut)
        invariant 0 <= remaining
        invariant lots == old(lots)[f.symbol := queue]
        invariant realizedPnl == old(realizedPnl) + Realized(cut)
        invariant roundTrips == old(roundTrips) + TripsOf(f, cut)
        invariant cash == old(cash) + f.notional - f.commission
        invariant commissions == old(commissions) && implicitCosts == old(implicitCosts)
        invariant interest == old(interest) && fills == old(fills)
        decreases remaining
      {
        ProgressSteps(whole, queue, remaining, f, proceedsLeft, sellCommissionLeft, cut);
        var lot := queue[0];
        var s := TakeSlice(lot, remaining, f, proceedsLeft, sellCommissionLeft);
        proceedsLeft := proceedsLeft - s.proceeds;
        sellCommissionLeft := sellCommissionLeft - s.sellCommission;
        realizedPnl := realizedPnl + s.proceeds - s.cost;
        roundTrips := roundTrips + [TripOf(f, s)];
        if s.take == lot.quantity {
          queue := queue[1..];
        } else {
          queue := [Shrink(lot, s)] + queue[1..];
        }
        lots := lots[f.symbol := queue];
        remaining := remaining - s.take;
        CutGrows(f, cut, s);
        cut := cut + [s];
      }
      ProgressEnds(whole, queue, f, proceedsLeft, sellCommissionLeft, cut);
      return None;
    }

    method Check() returns (error: Option<Error>)
      ensures Step(State(), error) == Checked(State())
    {
      if cash < 0 {
        return Some(CashNegative);
      }
      if HasInvalidLot(State()) {
        return Some(InvalidLot);
      }
      return None;
    }
  }

  // What has been cut off plus what the rest of the loop will cut is the whole sale.
  ghost predicate Progress(whole: Sale, queue: seq<Lot>, remaining: int, f: Fill, p: int, c: int, cut: seq<Slice>) {
    && PositiveLots(queue) && 0 <= remaining <= Held(queue) && 0 < f.quantity
    && var rest := Consume(queue, remaining, f, p, c);
       whole == Sale(rest.lots, cut + rest.slices)
  }

  lemma ProgressStarts(queue: seq<Lot>, f: Fill)
    requires PositiveLots(queue) && 0 < f.quantity <= Held(queue)
    ensures Progress(Consume(queue, f.quantity, f, f.notional, f.commission),
                     queue, f.quantity, f, f.notional, f.commission, [])
  {
    hide Consume;
    var sale := Consume(queue, f.quantity, f, f.notional, f.commission);
    assert [] + sale.slices == sale.slices;
  }

  lemma ProgressSteps(whole: Sale, queue: seq<Lot>, remaining: int, f: Fill, p: int, c: int, cut: seq<Slice>)
    requires Progress(whole, queue, remaining, f, p, c, cut) && 0 < remaining
    ensures queue != [] && 0 < queue[0].quantity && 0 < f.quantity
    ensures var s := TakeSlice(queue[0], remaining, f, p, c);
      && 0 < s.take <= remaining
      && Progress(whole, if s.take == queue[0].quantity then queue[1..] else [Shrink(queue[0], s)] + queue[1..],
                  remaining - s.take, f, p - s.proceeds, c - s.sellCommission, cut + [s])
  {
    var s := TakeSlice(queue[0], remaining, f, p, c);
    var next := if s.take == queue[0].quantity then queue[1..] else [Shrink(queue[0], s)] + queue[1..];
    ConsumeSteps(queue, remaining, f, p, c);
    var rest := Consume(next, remaining - s.take, f, p - s.proceeds, c - s.sellCommission);
    assert cut + ([s] + rest.slices) == cut + [s] + rest.slices;
    hide Consume, TakeSlice, Shrink, Held, PositiveLots;
  }

  // The loop body leaves what the rest of the sale is computed from.
  lemma ConsumeSteps(queue: seq<Lot>, remaining: int, f: Fill, p: int, c: int)
    requires PositiveLots(queue) && 0 < remaining <= Held(queue) && 0 < f.quantity
    ensures queue != [] && 0 < queue[0].quantity
    ensures var s := TakeSlice(queue[0], remaining, f, p, c);
      var next := if s.take == queue[0].quantity then queue[1..] else [Shrink(queue[0], s)] + queue[1..];
      && 0 < s.take <= remaining
      && PositiveLots(next) && 0 <= remaining - s.take <= Held(next)
      && var rest := Consume(next, remaining - s.take, f, p - s.proceeds, c - s.sellCommission);
         Consume(queue, remaining, f, p, c) == Sale(rest.lots, [s] + rest.slices)
  {
    hide Consume, TakeSlice;
    ConsumeUnfolds(queue, remaining, f, p, c);
    var s := TakeSlice(queue[0], remaining, f, p, c);
    var next := if s.take == queue[0].quantity then queue[1..] else [Shrink(queue[0], s)] + queue[1..];
    HeldIsPositive(next);
    ConsumeUnfolds(next, remaining - s.take, f, p - s.proceeds, c - s.sellCommission);
    if s.take < queue[0].quantity {
      assert [s] + [] == [s];
    }
  }

  lemma ProgressEnds(whole: Sale, queue: seq<Lot>, f: Fill, p: int, c: int, cut: seq<Slice>)
    requires Progress(whole, queue, 0, f, p, c, cut)
    ensures whole == Sale(queue, cut)
  {
    hide Consume;
    ConsumeUnfolds(queue, 0, f, p, c);
    assert cut + [] == cut;
  }

  lemma CutGrows(f: Fill, cut: seq<Slice>, s: Slice)
    ensures Realized(cut + [s]) == Realized(cut) + s.proceeds - s.cost
    ensures TripsOf(f, cut + [s]) == TripsOf(f, cut) + [TripOf(f, s)]
    decreases |cut|
  {
    if cut == [] {
      assert [] + [s] == [s] && Realized([s]) == s.proceeds - s.cost;
    } else {
      assert (cut + [s])[1..] == cut[1..] + [s];
      CutGrows(f, cut[1..], s);
    }
  }
}
