// The backtest engine in place (src/adaptive_quant/quant/backtest/engine.py): an object
// that queues, fills and cancels orders session by session, proved equal to EngineModel.
module Engines {
  import opened Wrappers
  import opened Errors
  import opened Rounding
  import opened Costs
  import opened Ledgers
  import opened LedgerLaws
  import opened Portfolios
  import opened Execution
  import opened EngineModel
  import opened EngineLaws

  // How a step that may raise matches the function that specifies it.
  ghost predicate Matches(spec: Result<Run, Error>, error: Option<Error>, st: Run) {
    if spec.Success? then error == None && st == spec.value else error == Some(spec.error)
  }

  class Engine {
    const setup: Setup
    const portfolio: Portfolio
    var pending: seq<Order>
    var cancelled: seq<Cancelled>
    var nextId: int
    ghost var issued: seq<Order>

    ghost function State(): Run
      reads this, portfolio
    {
      Run(portfolio.State(), pending, cancelled, nextId, issued)
    }

    ghost predicate Ready()
      reads this, portfolio
    {
      setup.Valid() && Usable(setup, State())
    }

    constructor (setup: Setup, portfolio: Portfolio)
      ensures this.setup == setup && this.portfolio == portfolio
      ensures State() == Run(portfolio.State(), [], [], 1, [])
    {
      this.setup := setup;
      this.portfolio := portfolio;
      pending, cancelled, nextId, issued := [], [], 1, [];
    }

    // ------------------------------------------------------------ one order

    // The size the cash account can pay, by bisection on the lot grid.
    method AffordableSize(o: Order, quantity: int, ref: int) returns (lo: int)
      requires setup.Valid() && (0 < quantity ==> 0 < ref)
      ensures lo == Affordable(setup.model, o.symbol, quantity, ref, o.adv, portfolio.cash)
      ensures 0 < lo ==> BuyCost(setup.model, o.symbol, lo, ref, o.adv) <= portfolio.cash
      ensures 0 < quantity <= Pow2(BISECTIONS) ==>
        forall q :: lo < q <= quantity ==> BuyCost(setup.model, o.symbol, q, ref, o.adv) > portfolio.cash
    {
      hide BuyCost, Pow2;
      var m, cash := setup.model, portfolio.cash;
      if 0 < quantity {
        AffordableFits(m, o.symbol, quantity, ref, o.adv, cash, quantity);
        if quantity <= Pow2(BISECTIONS) {
          forall q | Affordable(m, o.symbol, quantity, ref, o.adv, cash) < q <= quantity
            ensures BuyCost(m, o.symbol, q, ref, o.adv) > cash
          {
            AffordableIsLargest(m, o.symbol, quantity, ref, o.adv, cash, q);
          }
        }
      }
      if quantity <= 0 {
        return quantity;
      }
      var asked := CostOf(o, quantity, ref);
      if asked <= cash {
        return quantity;
      }
      var hi, rounds := quantity, BISECTIONS;
      lo := 0;
      while rounds > 0
        invariant 0 <= lo < hi && 0 <= rounds
        invariant Bisect(m, o.symbol, ref, o.adv, cash, rounds, lo, hi)
               == Bisect(m, o.symbol, ref, o.adv, cash, BISECTIONS, 0, quantity)
        decreases rounds
      {
        var mid := (lo + hi) / 2;
        if mid <= lo {
          break;
        }
        var cost := CostOf(o, mid, ref);
        if cost <= cash {
          lo := mid;
        } else {
          hi := mid;
        }
        rounds := rounds - 1;
      }
    }

    method CostOf(o: Order, quantity: int, ref: int) returns (cost: int)
      requires setup.Valid() && 0 < quantity && 0 < ref
      ensures cost == BuyCost(setup.model, o.symbol, quantity, ref, o.adv)
    {
      BuyCostIsQuoted(setup.model, o.symbol, quantity, ref, o.adv);
      var quote := Quote(setup.model, o.symbol, Buy, quantity, ref, o.adv).value;
      return quote.notional + quote.commission;
    }

    method CancelOrder(o: Order, quantity: int, reason: Reason)
      modifies this
      ensures portfolio.State() == old(portfolio.State())
      ensures State() == Cancel(old(State()), o, quantity, reason)
    {
      cancelled := cancelled + [Cancelled(o.id, o.symbol, o.side, quantity, reason)];
    }

    // Participation cap, holdings and cash bound what an order may fill.
    method SizeOrder(o: Order, ref: int) returns (size: Sized)
      requires setup.Valid() && (o.side == Buy && 0 < CapSize(setup.model, o).quantity ==> 0 < ref)
      ensures size == FinalSize(setup.model, portfolio.State(), o, ref)
    {
      hide Affordable, BuyCost, Pow2, RoundDown;
      var m := setup.model;
      var quantity, limit := o.quantity, Unlimited;
      var cap := ParticipationCap(m, o.adv);
      if cap.Some? {
        var capLots := RoundDown(cap.value * m.lotsPerShare as real);
        if quantity > capLots {
          quantity, limit := capLots, ByParticipation;
        }
      }
      assert Sized(quantity, limit) == CapSize(m, o);
      hide CapSize;
      if o.side == Sell {
        quantity := Min(quantity, portfolio.State().Quantity(o.symbol));
      } else {
        quantity := AffordableSize(o, quantity, ref);
        if quantity < o.quantity && limit == Unlimited {
          limit := ByCash;
        }
      }
      return Sized(quantity, limit);
    }

    method SettleOrder(o: Order, ref: int, when: int, size: Sized) returns (error: Option<Error>)
      requires Ready()
      modifies this, portfolio
      ensures Matches(Settle(setup.model, old(State()), o, ref, when, size), error, State())
      ensures error == None ==> Ready()
    {
      hide Quote, Apply;
      var quote := Quote(setup.model, o.symbol, o.side, size.quantity, ref, o.adv);
      if quote.Failure? {
        return Some(quote.error);
      }
      error := portfolio.Apply(FillOf(o, when, size.limit, quote.value), quote.value.ImplicitCost());
      if error.Some? {
        return;
      }
      if size.quantity < o.quantity {
        CancelOrder(o, o.quantity - size.quantity, UnfilledRemainder(size.limit));
      }
    }

    method ExecuteOrder(o: Order, ref: int, when: int) returns (error: Option<Error>)
      requires Ready()
      modifies this, portfolio
      ensures Matches(Execute(setup.model, old(State()), o, ref, when), error, State())
      ensures error == None ==> Ready()
    {
      hide FinalSize, CapSize, Settle;
      if o.adv.None? && setup.model.config.rejectUnknownVolume {
        CancelOrder(o, o.quantity, VolumeUnknown);
        return None;
      }
      if o.side == Buy && 0 < CapSize(setup.model, o).quantity && ref <= 0 {
        return Some(PriceNotPositive);
      }
      var size := SizeOrder(o, ref);
      if size.quantity <= 0 {
        CancelOrder(o, o.quantity, if size.limit == Unlimited then NothingToTrade else Limited(size.limit));
        return None;
      }
      error := SettleOrder(o, ref, when, size);
    }

    // ------------------------------------------------------------ fills due

    method FillDueOrders(i: nat, point: Point) returns (error: Option<Error>)
      requires Ready() && i < |setup.sessions|
      modifies this, portfolio
      ensures Matches(FillDue(setup, old(State()), i, point), error, State())
      ensures error == None ==> Ready()
    {
      hide Execute, Select, OfSide;
      var due := Select(pending, i, point, true);
      SelectIsSubset(pending, i, point, true);
      SelectIsSubset(pending, i, point, false);
      SideIsSubset(due, Sell);
      SideIsSubset(due, Buy);
      if due == [] {
        SelectNone(pending, i, point);
        return None;
      }
      pending := Select(pending, i, point, false);
      var when := FillTime(setup.sessions[i], point);
      var queue := ExecutionOrder(due);
      ghost var whole := FillAll(setup, State(), queue, i, point);
      var k := 0;
      assert queue[0..] == queue;
      while k < |queue|
        invariant 0 <= k <= |queue|
        invariant Ready()
        invariant forall o :: o in queue ==> o.symbol in setup.priced
        invariant FillAll(setup, State(), queue[k..], i, point) == whole
      {
        var o := queue[k];
        assert queue[k..][0] == o && queue[k..][1..] == queue[k + 1..];
        if !CheckTiming(o, when, AllowsSameBarClose(setup.timing, setup.delay)) {
          return Some(LookAhead);
        }
        var bar := setup.bars[i][o.symbol];
        error := ExecuteOrder(o, if point == AtOpen then bar.open else bar.close, when);
        if error.Some? {
          return;
        }
        k := k + 1;
      }
      return None;
    }

    // ------------------------------------------------------------ decisions

    method PlaceOrder(o: Order)
      modifies this
      ensures portfolio.State() == old(portfolio.State())
      ensures State() == Place(old(State()), o)
    {
      nextId := nextId + 1;
      pending := pending + [o];
      issued := issued + [o];
    }

    method DecideOrders(i: nat, slot: Schedule) returns (error: Option<Error>)
      requires Ready() && i < |setup.sessions|
      modifies this
      ensures portfolio.State() == old(portfolio.State())
      ensures Matches(Decide(setup, old(State()), i, slot), error, State())
      ensures error == None ==> Ready()
    {
      hide TradeSize, Sum, MarketValues;
      if i + slot.fillOffset >= |setup.sessions| {
        return None;
      }
      var input := setup.inputs[i];
      if input.dataTimestamp > slot.decisionTime {
        return Some(LookAhead);
      }
      var prices := KnownPrices(setup, input);
      var held := portfolio.MarketValue(prices);
      if held.Failure? {
        return Some(held.error);
      }
      var equity := portfolio.cash * setup.Scale() + held.value;
      if input.refused {
        return None;
      }
      if HoldsUnpriced(setup, input) {
        return Some(UnpricedHolding);
      }
      ghost var whole := SizeFrom(setup, State(), input, slot, i, equity, 0);
      var k := 0;
      while k < |setup.priced|
        invariant 0 <= k <= |setup.priced|
        invariant portfolio.State() == old(portfolio.State())
        invariant SizeFrom(setup, State(), input, slot, i, equity, k) == whole
      {
        var symbol := setup.priced[k];
        var projected := Projected(portfolio.State(), pending, symbol);
        var delta := TradeSize(setup, TargetWeight(input, symbol), equity, input.prices[symbol], projected);
        if delta != 0 {
          PlaceOrder(OrderFor(setup, input, slot, i, symbol, delta, nextId));
        }
        k := k + 1;
      }
      return None;
    }

    // ------------------------------------------------------------ the session loop

    method MarkSession(i: nat) returns (error: Option<Error>)
      requires setup.Valid() && i < |setup.sessions|
      ensures Matches(Mark(setup, State(), i), error, State())
    {
      hide Gap;
      var gap := portfolio.IdentityGap(Marks(setup, i), setup.Scale());
      if gap.Failure? {
        return Some(gap.error);
      }
      if gap.value != 0 {
        return Some(IdentityViolated);
      }
      return None;
    }

    method PaySessionInterest(i: nat) returns (error: Option<Error>)
      requires Ready() && i < |setup.sessions|
      modifies portfolio
      ensures Matches(PayInterest(setup, old(State()), i), error, State())
      ensures error == None ==> Ready()
    {
      if i == 0 || setup.interestRate <= 0.0 {
        return None;
      }
      error := portfolio.AccrueInterest(InterestOn(setup, portfolio.cash, i));
    }

    method RunMorning(i: nat) returns (error: Option<Error>)
      requires Ready() && i < |setup.sessions|
      modifies this, portfolio
      ensures Matches(Morning(setup, old(State()), i), error, State())
      ensures error == None ==> Ready()
    {
      hide FillDue, Decide;
      error := FillDueOrders(i, AtOpen);
      if error.Some? {
        return;
      }
      var slot := ScheduleOf(setup.timing, setup.sessions[i], setup.delay, setup.nearCloseMinutes);
      if slot.Failure? {
        return Some(slot.error);
      }
      if setup.timing == NearClose || setup.timing == ClosingAuction {
        error := DecideOrders(i, slot.value);
      }
    }

    method RunEvening(i: nat) returns (error: Option<Error>)
      requires Ready() && i < |setup.sessions|
      modifies this, portfolio
      ensures Matches(Evening(setup, old(State()), i), error, State())
      ensures error == None ==> Ready()
    {
      hide FillDue, Decide, PayInterest, Mark;
      error := FillDueOrders(i, AtClose);
      if error.Some? {
        return;
      }
      error := PaySessionInterest(i);
      if error.Some? {
        return;
      }
      error := MarkSession(i);
      if error.Some? {
        return;
      }
      var slot := ScheduleOf(setup.timing, setup.sessions[i], setup.delay, setup.nearCloseMinutes);
      if slot.Failure? {
        return Some(slot.error);
      }
      if setup.timing == NextOpen || setup.timing == NextClose {
        error := DecideOrders(i, slot.value);
      }
    }

    // A whole backtest over the configured sessions.
    method RunBacktest() returns (error: Option<Error>)
      requires setup.Valid() && State() == Start(portfolio.initialCash)
      modifies this, portfolio
      ensures Matches(Backtest(setup, portfolio.initialCash), error, State())
    {
      hide Morning, Evening;
      if |setup.sessions| < 2 {
        return Some(TooFewSessions);
      }
      ghost var whole := RunFrom(setup, State(), 0);
      var i := 0;
      while i < |setup.sessions|
        invariant 0 <= i <= |setup.sessions|
        invariant Ready()
        invariant RunFrom(setup, State(), i) == whole
      {
        error := RunMorning(i);
        if error.Some? {
          return;
        }
        error := RunEvening(i);
        if error.Some? {
          return;
        }
        i := i + 1;
      }
      ghost var last := State();
      while pending != []
        invariant CancelPending(State()) == CancelPending(last)
        decreases |pending|
      {
        var o := pending[0];
        pending := pending[1..];
        CancelOrder(o, o.quantity, BacktestEnded);
      }
      return None;
    }
  }

  lemma {:induction false} SelectNone(orders: seq<Order>, i: int, point: Point)
    requires Select(orders, i, point, true) == []
    ensures Select(orders, i, point, false) == orders
  {
    if orders != [] {
      SelectNone(orders[..|orders| - 1], i, point);
      assert orders == orders[..|orders| - 1] + [orders[|orders| - 1]];
    }
  }
}
