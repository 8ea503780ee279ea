// Sizing nets pending orders (src/adaptive_quant/quant/backtest/engine.py:373-416).
module SizingLaws {
  import opened Wrappers
  import opened Rounding
  import opened Costs
  import opened Ledgers
  import opened Execution
  import opened EngineModel

  ghost predicate Sizable(setup: Setup, input: DecisionInput) {
    && (forall i, j :: 0 <= i < j < |setup.priced| ==> setup.priced[i] != setup.priced[j])
    && (forall s :: s in setup.priced ==> s in input.prices && 0 < input.prices[s])
  }

  // The trade sizing wants in a symbol whose held plus pending quantity is `projected`.
  function Wanted(setup: Setup, input: DecisionInput, equity: int, symbol: string, projected: int): int
    requires symbol in input.prices && 0 < input.prices[symbol]
  {
    TradeSize(setup, TargetWeight(input, symbol), equity, input.prices[symbol], projected)
  }

  function Investable(setup: Setup, equity: int): real {
    equity as real * (1.0 - setup.cashBuffer)
  }

  function Target(setup: Setup, input: DecisionInput, equity: int, symbol: string): int
    requires symbol in input.prices && 0 < input.prices[symbol]
  {
    TargetQuantity(TargetWeight(input, symbol), Investable(setup, equity), input.prices[symbol])
  }

  lemma PendingAppended(pending: seq<Order>, o: Order, symbol: string)
    ensures PendingQuantity(pending + [o], symbol)
         == PendingQuantity(pending, symbol)
            + (if o.symbol != symbol then 0 else if o.side == Buy then o.quantity else -o.quantity)
  {
    assert (pending + [o])[..|pending + [o]| - 1] == pending;
  }

  // One symbol's turn: the order it places, if any, and what is left to size after it.
  function Next(setup: Setup, st: Run, input: DecisionInput, sch: Schedule, i: nat, equity: int, k: nat): Run
    requires Sizable(setup, input) && k < |setup.priced|
  {
    var symbol := setup.priced[k];
    var delta := Wanted(setup, input, equity, symbol, Projected(st.ledger, st.pending, symbol));
    if delta == 0 then st
    else
      Place(st, OrderFor(setup, input, sch, i, symbol, delta, st.nextId))
  }

  lemma NextMoves(setup: Setup, st: Run, input: DecisionInput, sch: Schedule, i: nat, equity: int, k: nat,
    symbol: string)
    requires Sizable(setup, input) && k < |setup.priced|
    ensures var next := Next(setup, st, input, sch, i, equity, k);
      var before := Projected(st.ledger, st.pending, symbol);
      Projected(next.ledger, next.pending, symbol)
      == before + (if symbol == setup.priced[k] then Wanted(setup, input, equity, symbol, before) else 0)
    ensures SizeFrom(setup, st, input, sch, i, equity, k)
         == SizeFrom(setup, Next(setup, st, input, sch, i, equity, k), input, sch, i, equity, k + 1)
  {
    hide TradeSize, PendingQuantity;
    var next := setup.priced[k];
    var delta := Wanted(setup, input, equity, next, Projected(st.ledger, st.pending, next));
    if delta != 0 {
      PendingAppended(st.pending, OrderFor(setup, input, sch, i, next, delta, st.nextId), symbol);
    }
  }

  lemma {:induction false} SizingLeavesOthers(
      setup: Setup, st: Run, input: DecisionInput, sch: Schedule, i: nat, equity: int, k: nat, symbol: string)
    requires Sizable(setup, input) && k <= |setup.priced|
    requires forall j :: k <= j < |setup.priced| ==> setup.priced[j] != symbol
    ensures var after := SizeFrom(setup, st, input, sch, i, equity, k);
      Projected(after.ledger, after.pending, symbol) == Projected(st.ledger, st.pending, symbol)
    decreases |setup.priced| - k
  {
    hide Next, Projected;
    if k < |setup.priced| {
      NextMoves(setup, st, input, sch, i, equity, k, symbol);
      SizingLeavesOthers(setup, Next(setup, st, input, sch, i, equity, k), input, sch, i, equity, k + 1, symbol);
    }
  }

  // Sizing moves a symbol's projected quantity by exactly the trade it wanted.
  lemma {:induction false} SizingMoves(
      setup: Setup, st: Run, input: DecisionInput, sch: Schedule, i: nat, equity: int, k: nat, j: nat)
    requires Sizable(setup, input) && k <= j < |setup.priced|
    ensures var after := SizeFrom(setup, st, input, sch, i, equity, k);
      var symbol := setup.priced[j];
      var before := Projected(st.ledger, st.pending, symbol);
      Projected(after.ledger, after.pending, symbol) == before + Wanted(setup, input, equity, symbol, before)
    decreases |setup.priced| - k
  {
    hide Next, Projected, Wanted;
    var next := Next(setup, st, input, sch, i, equity, k);
    NextMoves(setup, st, input, sch, i, equity, k, setup.priced[j]);
    if k == j {
      SizingLeavesOthers(setup, next, input, sch, i, equity, k + 1, setup.priced[j]);
    } else {
      SizingMoves(setup, next, input, sch, i, equity, k + 1, j);
    }
  }

  // A symbol that is traded ends exactly at its target; one that is not was either there
  // already or inside the rebalance band.
  lemma SizingHitsTargets(setup: Setup, st: Run, input: DecisionInput, sch: Schedule, i: nat, equity: int,
    symbol: string)
    requires Sizable(setup, input) && symbol in setup.priced
    ensures var after := SizeFrom(setup, st, input, sch, i, equity, 0);
      var was, now := Projected(st.ledger, st.pending, symbol), Projected(after.ledger, after.pending, symbol);
      && (now != was ==> now == Target(setup, input, equity, symbol))
      && (now == was ==> Wanted(setup, input, equity, symbol, was) == 0)
  {
    var j :| 0 <= j < |setup.priced| && setup.priced[j] == symbol;
    SizingMoves(setup, st, input, sch, i, equity, 0, j);
  }

  // ------------------------------------------------------------ who is traded, and how far

  // What so much value buys, in whole lot steps and rounded towards zero.
  predicate IsTarget(value: real, price: int, q: int)
    requires 0 < price
  {
    var steps := value / price as real;
    && (value >= 0.0 ==> 0 <= q && q as real <= steps < q as real + 1.0)
    && (value <= 0.0 ==> q <= 0 && q as real - 1.0 < steps <= q as real)
  }

  // The weight's share of the equity without the cash buffer.
  function Share(weight: real, equity: int, buffer: real): real {
    weight * (equity as real * (1.0 - buffer))
  }

  // A wanted position is left alone while its weight is within the threshold of the target.
  predicate InBand(weight: real, threshold: real, projected: int, price: int, equity: int) {
    var current := if equity > 0 then (projected * price) as real / equity as real else 0.0;
    0.0 < weight && (if weight < current then current - weight else weight - current) < threshold
  }

  function WeightOf(input: DecisionInput, symbol: string): real {
    if symbol in input.weights then input.weights[symbol] else 0.0
  }

  lemma TargetIsTarget(setup: Setup, input: DecisionInput, equity: int, symbol: string)
    requires symbol in input.prices && 0 < input.prices[symbol]
    ensures IsTarget(Share(WeightOf(input, symbol), equity, setup.cashBuffer), input.prices[symbol],
                     Target(setup, input, equity, symbol))
  {
    hide IsTarget, Share, Investable, TargetQuantity;
    var weight, investable := TargetWeight(input, symbol), Investable(setup, equity);
    ShareIs(setup, weight, equity);
    TargetRounds(Share(weight, equity, setup.cashBuffer), weight, investable, input.prices[symbol]);
  }

  lemma TargetRounds(value: real, weight: real, investable: real, price: int)
    requires 0 < price && value == weight * investable
    ensures IsTarget(value, price, TargetQuantity(weight, investable, price))
  {
    hide RoundDown;
    QuotientRounds(weight * investable, price);
  }

  lemma ShareIs(setup: Setup, weight: real, equity: int)
    ensures Share(weight, equity, setup.cashBuffer) == weight * Investable(setup, equity)
  {
  }

  lemma QuotientRounds(value: real, price: int)
    requires 0 < price
    ensures IsTarget(value, price, RoundDown(value / price as real))
  {
    hide RoundDown;
    QuotientSign(value, price as real);
  }

  lemma QuotientSign(value: real, p: real)
    requires 0.0 < p
    ensures (value >= 0.0 ==> value / p >= 0.0) && (value <= 0.0 ==> value / p <= 0.0)
  {
    if value >= 0.0 {
      DivideMonotone(0.0, value, p);
    }
    if value <= 0.0 {
      DivideMonotone(value, 0.0, p);
    }
  }

  // What orders already waiting will add to a symbol: those to buy less those to sell.
  function Incoming(orders: seq<Order>, symbol: string): int {
    if orders == [] then 0
    else
      var o := orders[0];
      Incoming(orders[1..], symbol)
      + (if o.symbol == symbol && o.side == Buy then o.quantity
         else if o.symbol == symbol && o.side == Sell then -o.quantity else 0)
  }

  lemma {:induction false} IncomingAppended(orders: seq<Order>, o: Order, symbol: string)
    ensures Incoming(orders + [o], symbol) == Incoming(orders, symbol) + Incoming([o], symbol)
  {
    if orders != [] {
      assert (orders + [o])[1..] == orders[1..] + [o];
      IncomingAppended(orders[1..], o, symbol);
    } else {
      assert [] + [o] == [o];
    }
  }

  lemma {:induction false} PendingIsIncoming(orders: seq<Order>, symbol: string)
    ensures PendingQuantity(orders, symbol) == Incoming(orders, symbol)
  {
    if orders != [] {
      var head, o := orders[..|orders| - 1], orders[|orders| - 1];
      assert orders == head + [o];
      PendingIsIncoming(head, symbol);
      IncomingAppended(head, o, symbol);
      assert Incoming([o], symbol)
          == if o.symbol != symbol then 0 else if o.side == Buy then o.quantity else -o.quantity by {
        assert [o][1..] == [];
      }
    }
  }

  // Held and on order.
  function Expected(st: Run, symbol: string): int {
    st.ledger.Quantity(symbol) + Incoming(st.pending, symbol)
  }

  lemma ProjectedIsExpected(st: Run, symbol: string)
    ensures Projected(st.ledger, st.pending, symbol) == Expected(st, symbol)
  {
    PendingIsIncoming(st.pending, symbol);
  }

  // A symbol gets no order exactly if held and pending are at its target or inside the
  // band, and otherwise ends at the target. A weight of zero is always sold out.
  lemma SymbolIsLeftAloneIff(setup: Setup, st: Run, input: DecisionInput, sch: Schedule, i: nat, equity: int,
                             symbol: string) returns (target: int)
    requires Sizable(setup, input) && symbol in setup.priced
    ensures var weight, price := WeightOf(input, symbol), input.prices[symbol];
      var after := SizeFrom(setup, st, input, sch, i, equity, 0);
      var was, now := Expected(st, symbol), Expected(after, symbol);
      && IsTarget(Share(weight, equity, setup.cashBuffer), price, target)
      && (now == was <==> was == target || InBand(weight, setup.rebalanceThreshold, was, price, equity))
      && (now != was ==> now == target)
      && (weight == 0.0 ==> now == 0)
  {
    hide SizeFrom, TargetQuantity, Projected, IsTarget, Wanted, InBand, Share, Expected;
    ProjectedIsExpected(st, symbol);
    ProjectedIsExpected(SizeFrom(setup, st, input, sch, i, equity, 0), symbol);
    var weight, price, was := WeightOf(input, symbol), input.prices[symbol], Projected(st.ledger, st.pending, symbol);
    target := Target(setup, input, equity, symbol);
    TargetIsTarget(setup, input, equity, symbol);
    SizingHitsTargets(setup, st, input, sch, i, equity, symbol);
    SizingMovesSymbol(setup, st, input, sch, i, equity, symbol);
    WantedIs(setup, input, equity, symbol, was);
    if weight == 0.0 {
      TargetOfNothing(equity, setup.cashBuffer, price, target);
      NoBandForNothing(setup.rebalanceThreshold, was, price, equity);
    }
  }

  lemma SizingMovesSymbol(setup: Setup, st: Run, input: DecisionInput, sch: Schedule, i: nat, equity: int,
    symbol: string)
    requires Sizable(setup, input) && symbol in setup.priced
    ensures var after := SizeFrom(setup, st, input, sch, i, equity, 0);
      var was := Projected(st.ledger, st.pending, symbol);
      Projected(after.ledger, after.pending, symbol) == was + Wanted(setup, input, equity, symbol, was)
  {
    var j :| 0 <= j < |setup.priced| && setup.priced[j] == symbol;
    SizingMoves(setup, st, input, sch, i, equity, 0, j);
  }

  lemma WantedIs(setup: Setup, input: DecisionInput, equity: int, symbol: string, projected: int)
    requires symbol in input.prices && 0 < input.prices[symbol]
    ensures var wanted, target := Wanted(setup, input, equity, symbol, projected), Target(setup, input, equity, symbol);
      var weight, price := WeightOf(input, symbol), input.prices[symbol];
      && (wanted == 0 <==> projected == target || InBand(weight, setup.rebalanceThreshold, projected, price, equity))
      && (wanted != 0 ==> projected + wanted == target)
  {
    hide TargetQuantity;
  }

  lemma NoBandForNothing(threshold: real, projected: int, price: int, equity: int)
    ensures !InBand(0.0, threshold, projected, price, equity)
  {
  }

  lemma TargetOfNothing(equity: int, buffer: real, price: int, q: int)
    requires 0 < price && IsTarget(Share(0.0, equity, buffer), price, q)
    ensures q == 0
  {
    assert Share(0.0, equity, buffer) == 0.0;
  }

  lemma {:induction false} NothingWanted(
      setup: Setup, st: Run, input: DecisionInput, sch: Schedule, i: nat, equity: int, k: nat)
    requires Sizable(setup, input) && k <= |setup.priced|
    requires forall s :: s in setup.priced ==>
      Wanted(setup, input, equity, s, Projected(st.ledger, st.pending, s)) == 0
    ensures SizeFrom(setup, st, input, sch, i, equity, k) == st
    decreases |setup.priced| - k
  {
    if k < |setup.priced| {
      assert setup.priced[k] in setup.priced;
      NothingWanted(setup, st, input, sch, i, equity, k + 1);
    }
  }

  // Deciding again on unchanged inputs places no order: pending orders are never doubled.
  lemma SizingIsIdempotent(setup: Setup, st: Run, input: DecisionInput, sch: Schedule, i: nat, equity: int)
    requires Sizable(setup, input)
    ensures var after := SizeFrom(setup, st, input, sch, i, equity, 0);
      SizeFrom(setup, after, input, sch, i, equity, 0) == after
  {
    var after := SizeFrom(setup, st, input, sch, i, equity, 0);
    forall s | s in setup.priced
      ensures Wanted(setup, input, equity, s, Projected(after.ledger, after.pending, s)) == 0
    {
      SizingHitsTargets(setup, st, input, sch, i, equity, s);
    }
    NothingWanted(setup, after, input, sch, i, equity, 0);
  }

  // ------------------------------------------------------------ the orders placed

  // An order of this decision: its times, data and slot, and a real quantity.
  predicate IsPlaced(setup: Setup, input: DecisionInput, sch: Schedule, i: nat, o: Order) {
    && o.symbol in setup.priced && 0 < o.quantity
    && o.decisionTime == sch.decisionTime && o.dataTimestamp == input.dataTimestamp
    && o.adv == (if o.symbol in input.adv then input.adv[o.symbol] else None)
    && o.fillIndex == i + sch.fillOffset && o.fillPoint == sch.fillPoint
  }

  // `orders` were added, numbered on, at most one for a symbol.
  ghost predicate Adds(setup: Setup, st: Run, after: Run, orders: seq<Order>, input: DecisionInput, sch: Schedule,
    i: nat) {
    && after == st.(pending := st.pending + orders, issued := st.issued + orders, nextId := st.nextId + |orders|)
    && (forall k :: 0 <= k < |orders| ==> orders[k].id == st.nextId + k && IsPlaced(setup, input, sch, i, orders[k]))
    && (forall j, k :: 0 <= j < k < |orders| ==> orders[j].symbol != orders[k].symbol)
  }

  lemma {:induction false} SizingAdds(setup: Setup, st: Run, input: DecisionInput, sch: Schedule, i: nat, equity: int,
    k: nat)
    returns (orders: seq<Order>)
    requires Sizable(setup, input) && k <= |setup.priced|
    ensures Adds(setup, st, SizeFrom(setup, st, input, sch, i, equity, k), orders, input, sch, i)
    ensures forall o :: o in orders ==> exists j :: k <= j < |setup.priced| && setup.priced[j] == o.symbol
    decreases |setup.priced| - k
  {
    hide TradeSize;
    if k == |setup.priced| {
      orders := [];
    } else {
      var symbol := setup.priced[k];
      var delta := TradeSize(setup, TargetWeight(input, symbol), equity, input.prices[symbol],
                         Projected(st.ledger, st.pending, symbol));
      if delta == 0 {
        orders := SizingAdds(setup, st, input, sch, i, equity, k + 1);
      } else {
        var o := OrderFor(setup, input, sch, i, symbol, delta, st.nextId);
        var rest := SizingAdds(setup, Place(st, o), input, sch, i, equity, k + 1);
        orders := [o] + rest;
        JoinsOrders(setup, st, SizeFrom(setup, st, input, sch, i, equity, k), o, rest, input, sch, i, k);
      }
    }
  }

  lemma JoinsOrders(setup: Setup, st: Run, after: Run, o: Order, rest: seq<Order>, input: DecisionInput, sch: Schedule,
                    i: nat, k: nat)
    requires Sizable(setup, input) && k < |setup.priced| && o.symbol == setup.priced[k]
    requires o.id == st.nextId && IsPlaced(setup, input, sch, i, o)
    requires Adds(setup, Place(st, o), after, rest, input, sch, i)
    requires forall x :: x in rest ==> exists j :: k + 1 <= j < |setup.priced| && setup.priced[j] == x.symbol
    ensures Adds(setup, st, after, [o] + rest, input, sch, i)
    ensures forall x :: x in [o] + rest ==> exists j :: k <= j < |setup.priced| && setup.priced[j] == x.symbol
  {
    hide IsPlaced;
    assert st.pending + [o] + rest == st.pending + ([o] + rest);
    assert st.issued + [o] + rest == st.issued + ([o] + rest);
    forall j | 0 <= j < |rest| ensures rest[j].symbol != o.symbol {
      assert rest[j] in rest;
    }
  }

  // ------------------------------------------------------------ the budget

  function TargetValue(setup: Setup, input: DecisionInput, equity: int, k: nat): int
    requires Sizable(setup, input) && k <= |setup.priced|
    decreases |setup.priced| - k
  {
    if k == |setup.priced| then 0
    else
      var s := setup.priced[k];
      Target(setup, input, equity, s) * input.prices[s] + TargetValue(setup, input, equity, k + 1)
  }

  function WeightSum(setup: Setup, input: DecisionInput, k: nat): real
    requires k <= |setup.priced|
    decreases |setup.priced| - k
  {
    if k == |setup.priced| then 0.0 else TargetWeight(input, setup.priced[k]) + WeightSum(setup, input, k + 1)
  }

  // The targets together cost at most the investable equity times the weights given out.
  lemma {:induction false} TargetsWithinBudget(setup: Setup, input: DecisionInput, equity: int, k: nat)
    requires Sizable(setup, input) && k <= |setup.priced|
    requires 0 <= equity && 0.0 <= setup.cashBuffer <= 1.0
    requires forall s :: s in setup.priced ==> 0.0 <= TargetWeight(input, s)
    ensures TargetValue(setup, input, equity, k) as real
         <= Investable(setup, equity) * WeightSum(setup, input, k)
    decreases |setup.priced| - k
  {
    hide Target, Investable, TargetWeight;
    if k < |setup.priced| {
      var s := setup.priced[k];
      TargetsWithinBudget(setup, input, equity, k + 1);
      OneTarget(setup, input, equity, s);
      AddShares(Target(setup, input, equity, s) * input.prices[s], TargetValue(setup, input, equity, k + 1),
                Investable(setup, equity), TargetWeight(input, s), WeightSum(setup, input, k + 1));
    }
  }

  lemma OneTarget(setup: Setup, input: DecisionInput, equity: int, s: string)
    requires Sizable(setup, input) && s in setup.priced
    requires 0 <= equity && 0.0 <= setup.cashBuffer <= 1.0 && 0.0 <= TargetWeight(input, s)
    ensures (Target(setup, input, equity, s) * input.prices[s]) as real
         <= TargetWeight(input, s) * Investable(setup, equity)
  {
    TimesMonotone(0.0, 1.0 - setup.cashBuffer, equity as real);
    TimesMonotone(0.0, Investable(setup, equity), TargetWeight(input, s));
    FloorTimesPrice(TargetWeight(input, s) * Investable(setup, equity), input.prices[s]);
  }

  lemma FloorTimesPrice(budget: real, price: int)
    requires 0.0 <= budget && 0 < price
    ensures (RoundDown(budget / price as real) * price) as real <= budget
  {
    var x := budget / price as real;
    DivideMonotone(0.0, budget, price as real);
    assert x * price as real == budget;
    TimesMonotone(RoundDown(x) as real, x, price as real);
    WholeProduct(RoundDown(x), price);
  }

  lemma AddShares(first: int, others: int, investable: real, w: real, rest: real)
    requires first as real <= w * investable && others as real <= investable * rest
    ensures (first + others) as real <= investable * (w + rest)
  {
    assert w * investable + investable * rest == investable * (w + rest);
  }
}
