// What a whole backtest did, told from its record
// (src/adaptive_quant/quant/backtest/engine.py:180-260,373-416,483-600): every fill of its
// order at its slot's price, every order of a decision, every decision as the targets ask,
// and interest on the cash of every night.
module RunLaws {
  import opened Wrappers
  import opened Errors
  import opened Rounding
  import opened Costs
  import opened Ledgers
  import opened LedgerLaws
  import opened Execution
  import opened EngineModel
  import opened EngineLaws
  import opened OrderLaws
  import opened SizingLaws

  // ------------------------------------------------------------ orders and decisions

  // When the decision of session `d` is made, and when and where its orders fill.
  predicate IsScheduledBy(setup: Setup, d: nat, decisionTime: int, fillIndex: int, point: Point)
    requires d < |setup.sessions|
  {
    var session := setup.sessions[d];
    match setup.timing
    case NearClose =>
      && decisionTime == session.closeTime - 60 * setup.nearCloseMinutes && session.openTime < decisionTime
      && fillIndex == d + setup.delay && point == AtClose
    case NextOpen => decisionTime == session.closeTime && fillIndex == d + 1 + setup.delay && point == AtOpen
    case NextClose => decisionTime == session.closeTime && fillIndex == d + 1 + setup.delay && point == AtClose
    case ClosingAuction => decisionTime == session.closeTime && fillIndex == d + setup.delay && point == AtClose
  }

  // An order carries its decision's time, data and slot.
  predicate IsOrderOf(setup: Setup, d: nat, o: Order)
    requires d < |setup.sessions| && |setup.inputs| == |setup.sessions|
  {
    var input := setup.inputs[d];
    && !input.refused && o.symbol in setup.priced && 0 < o.quantity
    && IsScheduledBy(setup, d, o.decisionTime, o.fillIndex, o.fillPoint)
    && o.dataTimestamp == input.dataTimestamp <= o.decisionTime
    && o.adv == (if o.symbol in input.adv then input.adv[o.symbol] else None)
  }

  // Held plus pending, before and after: unchanged exactly at the target or inside the
  // rebalance band, and otherwise at the target.
  ghost predicate IsSized(setup: Setup, before: Run, after: Run, d: nat, symbol: string, target: int)
    requires setup.Valid() && d < |setup.sessions| && symbol in setup.priced
  {
    var input := setup.inputs[d];
    var weight, price := if symbol in input.weights then input.weights[symbol] else 0.0, input.prices[symbol];
    var equity := Equity(before.ledger, input.prices, setup.model.lotsPerShare * 10_000);
    var was, now := Expected(before, symbol), Expected(after, symbol);
    && IsTarget(Share(weight, equity, setup.cashBuffer), price, target)
    && (now == was <==> was == target || InBand(weight, setup.rebalanceThreshold, was, price, equity))
    && (now != was ==> now == target)
    && (weight == 0.0 ==> now == 0)
  }

  // No weight on a symbol without prices.
  predicate NoUnpriced(setup: Setup, d: nat)
    requires d < |setup.inputs|
  {
    forall s :: s in setup.unpriced && s in setup.inputs[d].weights ==> setup.inputs[d].weights[s] == 0.0
  }

  // The decision of session `d` adds `orders`, at most one for a symbol, and leaves the
  // rest of the run alone; it is not made on data from after it, nor on a weight that
  // cannot be traded.
  ghost predicate IsDecision(setup: Setup, before: Run, after: Run, d: nat, orders: seq<Order>)
    requires setup.Valid() && d < |setup.sessions|
  {
    && after == before.(pending := before.pending + orders, issued := before.issued + orders,
                        nextId := before.nextId + |orders|)
    && (forall k :: 0 <= k < |orders| ==> orders[k].id == before.nextId + k && IsOrderOf(setup, d, orders[k]))
    && (forall j, k :: 0 <= j < k < |orders| ==> orders[j].symbol != orders[k].symbol)
    && !IsLate(setup, d) && (!setup.inputs[d].refused ==> NoUnpriced(setup, d))
    && (if setup.inputs[d].refused then orders == []
        else forall symbol :: symbol in setup.priced ==>
          exists target :: IsSized(setup, before, after, d, symbol, target))
  }

  // Its orders fill within the run.
  predicate Decides(setup: Setup, d: nat) {
    d + setup.delay + (if setup.timing == NextOpen || setup.timing == NextClose then 1 else 0) < |setup.sessions|
  }

  lemma ScheduleIs(setup: Setup, d: nat)
    requires setup.Valid() && d < |setup.sessions|
    requires ScheduleOf(setup.timing, setup.sessions[d], setup.delay, setup.nearCloseMinutes).Success?
    ensures var s := ScheduleOf(setup.timing, setup.sessions[d], setup.delay, setup.nearCloseMinutes).value;
      && IsScheduledBy(setup, d, s.decisionTime, d + s.fillOffset, s.fillPoint)
      && (Decides(setup, d) <==> d + s.fillOffset < |setup.sessions|)
  {
  }

  lemma PlacedIsOrderOf(setup: Setup, d: nat, sch: Schedule, o: Order)
    requires setup.Valid() && d < |setup.sessions| && !setup.inputs[d].refused
    requires IsScheduledBy(setup, d, sch.decisionTime, d + sch.fillOffset, sch.fillPoint)
    requires setup.inputs[d].dataTimestamp <= sch.decisionTime
    requires IsPlaced(setup, setup.inputs[d], sch, d, o)
    ensures IsOrderOf(setup, d, o)
  {
    hide IsScheduledBy;
  }

  lemma SizedIs(setup: Setup, before: Run, d: nat, sch: Schedule, symbol: string) returns (target: int)
    requires setup.Valid() && d < |setup.sessions| && symbol in setup.priced
    requires PricedBy(setup, before.ledger, setup.inputs[d])
    ensures var equity := Equity(before.ledger, KnownPrices(setup, setup.inputs[d]), setup.Scale());
      IsSized(setup, before, SizeFrom(setup, before, setup.inputs[d], sch, d, equity, 0), d, symbol, target)
  {
    var input := setup.inputs[d];
    var equity := Equity(before.ledger, KnownPrices(setup, input), setup.Scale());
    target := SymbolIsLeftAloneIff(setup, before, input, sch, d, equity, symbol);
    EquityIsOfInput(setup, before.ledger, input);
    hide IsTarget, InBand, Expected, SizeFrom, Equity, Share, PricedBy;
  }

  // What is held is among the priced symbols, so only their prices count.
  lemma EquityIsOfInput(setup: Setup, l: Ledger, input: DecisionInput)
    requires PricedBy(setup, l, input)
    ensures Equity(l, KnownPrices(setup, input), setup.Scale())
         == Equity(l, input.prices, setup.model.lotsPerShare * 10_000)
  {
    assert MarketValues(l, KnownPrices(setup, input)) == MarketValues(l, input.prices);
  }

  lemma UnpricedIs(setup: Setup, d: nat)
    requires d < |setup.inputs|
    ensures HoldsUnpriced(setup, setup.inputs[d]) <==> !NoUnpriced(setup, d)
  {
  }

  // A decision that goes through places the orders its input asks for.
  lemma DecideIsDecision(setup: Setup, st: Run, d: nat) returns (orders: seq<Order>)
    requires setup.Valid() && d < |setup.sessions| && Decides(setup, d)
    requires ScheduleOf(setup.timing, setup.sessions[d], setup.delay, setup.nearCloseMinutes).Success?
    requires var sch := ScheduleOf(setup.timing, setup.sessions[d], setup.delay, setup.nearCloseMinutes).value;
      Decide(setup, st, d, sch).Success?
    ensures var sch := ScheduleOf(setup.timing, setup.sessions[d], setup.delay, setup.nearCloseMinutes).value;
      IsDecision(setup, st, Decide(setup, st, d, sch).value, d, orders)
  {
    var sch := ScheduleOf(setup.timing, setup.sessions[d], setup.delay, setup.nearCloseMinutes).value;
    var input := setup.inputs[d];
    ScheduleIs(setup, d);
    assert !IsLate(setup, d);
    hide IsLate, ScheduleOf, SizeFrom, Equity, KnownPrices, PricedBy, NoUnpriced, HoldsUnpriced, IsSized,
      IsScheduledBy, IsPlaced, IsOrderOf;
    if input.refused {
      orders := [];
    } else {
      var equity := Equity(st.ledger, KnownPrices(setup, input), setup.Scale());
      UnpricedIs(setup, d);
      orders := SizingAdds(setup, st, input, sch, d, equity, 0);
      forall symbol | symbol in setup.priced
        ensures exists target :: IsSized(setup, st, Decide(setup, st, d, sch).value, d, symbol, target)
      {
        var target := SizedIs(setup, st, d, sch, symbol);
      }
      forall k | 0 <= k < |orders| ensures IsOrderOf(setup, d, orders[k]) {
        PlacedIsOrderOf(setup, d, sch, orders[k]);
      }
    }
  }

  // ------------------------------------------------------------ one run

  // `next` continues `st`: nothing on record is changed, and what was filled meanwhile was
  // filled from `from` on.
  ghost predicate Continues(st: Run, next: Run, from: int) {
    && st.issued <= next.issued && st.ledger.fills <= next.ledger.fills
    && (forall k :: |st.ledger.fills| <= k < |next.ledger.fills| ==> from <= next.ledger.fills[k].time)
    && next.ledger.initialCash == st.ledger.initialCash
  }

  // Whatever was filled meanwhile was filled at that moment.
  ghost predicate FilledAt(st: Run, next: Run, when: int) {
    |st.ledger.fills| <= |next.ledger.fills|
    && forall k :: |st.ledger.fills| <= k < |next.ledger.fills| ==> next.ledger.fills[k].time == when
  }

  lemma FilledOn(st: Run, next: Run, last: Run, when: int)
    requires FilledAt(st, next, when) && FilledAt(next, last, when) && next.ledger.fills <= last.ledger.fills
    ensures FilledAt(st, last, when)
  {
    forall k | |st.ledger.fills| <= k < |last.ledger.fills| ensures last.ledger.fills[k].time == when {
      if k < |next.ledger.fills| {
        assert last.ledger.fills[k] == next.ledger.fills[k];
      }
    }
  }

  lemma ContinuesOn(st: Run, next: Run, last: Run, from: int, later: int)
    requires Continues(st, next, from) && Continues(next, last, later) && from <= later
    ensures Continues(st, last, from)
  {
    forall k | |st.ledger.fills| <= k < |last.ledger.fills| ensures from <= last.ledger.fills[k].time {
      if k < |next.ledger.fills| {
        assert last.ledger.fills[k] == next.ledger.fills[k];
      }
    }
  }

  lemma ExecuteContinues(m: CostModel, st: Run, o: Order, ref: int, when: int)
    requires m.lotsPerShare > 0 && "default" in m.config.halfSpreadBps && Positive(st.ledger)
    requires Execute(m, st, o, ref, when).Success?
    ensures var next := Execute(m, st, o, ref, when).value;
      && next.issued == st.issued && next.ledger.interest == st.ledger.interest
      && Continues(st, next, when) && FilledAt(st, next, when)
  {
    hide FinalSize, CapSize, Apply, Quote;
    var size := FinalSize(m, st.ledger, o, ref);
    if !(o.adv.None? && m.config.rejectUnknownVolume) && 0 < size.quantity {
      var quote := Quote(m, o.symbol, o.side, size.quantity, ref, o.adv).value;
      var f := FillOf(o, when, size.limit, quote);
      AppliedRecords(st.ledger, f, quote.ImplicitCost());
      AppliedTotals(st.ledger, f, quote.ImplicitCost());
    }
  }

  lemma {:induction false} FillAllContinues(setup: Setup, st: Run, queue: seq<Order>, i: nat, point: Point)
    requires setup.Valid() && i < |setup.sessions| && Positive(st.ledger)
    requires forall o :: o in queue ==> o.symbol in setup.priced
    requires FillAll(setup, st, queue, i, point).Success?
    ensures var next := FillAll(setup, st, queue, i, point).value;
      && next.issued == st.issued && next.ledger.interest == st.ledger.interest
      && Continues(st, next, FillTime(setup.sessions[i], point))
      && FilledAt(st, next, FillTime(setup.sessions[i], point))
    decreases |queue|
  {
    hide Execute, Continues, FilledAt;
    if queue == [] {
      ContinuesSelf(st, FillTime(setup.sessions[i], point));
    } else {
      var o, when := queue[0], FillTime(setup.sessions[i], point);
      var bar := setup.bars[i][o.symbol];
      var ref := if point == AtOpen then bar.open else bar.close;
      ExecuteContinues(setup.model, st, o, ref, when);
      var next := Execute(setup.model, st, o, ref, when).value;
      FillAllContinues(setup, next, queue[1..], i, point);
      var last := FillAll(setup, st, queue, i, point).value;
      ContinuesOn(st, next, last, when, when);
      IsPrefix(next, last, when);
      FilledOn(st, next, last, when);
    }
  }

  lemma ContinuesSelf(st: Run, from: int)
    ensures Continues(st, st, from) && FilledAt(st, st, from)
  {
  }

  lemma IsPrefix(st: Run, next: Run, from: int)
    requires Continues(st, next, from)
    ensures st.ledger.fills <= next.ledger.fills
  {
  }

  lemma FillDueContinues(setup: Setup, st: Run, i: nat, point: Point)
    requires setup.Valid() && i < |setup.sessions| && Usable(setup, st) && FillDue(setup, st, i, point).Success?
    ensures var next := FillDue(setup, st, i, point).value;
      && next.issued == st.issued && next.ledger.interest == st.ledger.interest
      && Continues(st, next, FillTime(setup.sessions[i], point))
      && FilledAt(st, next, FillTime(setup.sessions[i], point))
  {
    var due := Select(st.pending, i, point, true);
    SelectIsSubset(st.pending, i, point, true);
    SideIsSubset(due, Sell);
    SideIsSubset(due, Buy);
    hide FillAll, Select, OfSide;
    FillAllContinues(setup, st.(pending := Select(st.pending, i, point, false)), ExecutionOrder(due), i, point);
  }

  lemma DecideContinues(setup: Setup, st: Run, d: nat, from: int)
    requires setup.Valid() && d < |setup.sessions|
    requires ScheduleOf(setup.timing, setup.sessions[d], setup.delay, setup.nearCloseMinutes).Success?
    requires var sch := ScheduleOf(setup.timing, setup.sessions[d], setup.delay, setup.nearCloseMinutes).value;
      Decide(setup, st, d, sch).Success?
    ensures var sch := ScheduleOf(setup.timing, setup.sessions[d], setup.delay, setup.nearCloseMinutes).value;
      Continues(st, Decide(setup, st, d, sch).value, from)
  {
    var sch := ScheduleOf(setup.timing, setup.sessions[d], setup.delay, setup.nearCloseMinutes).value;
    ScheduleIs(setup, d);
    if Decides(setup, d) {
      var orders := DecideIsDecision(setup, st, d);
    }
    hide IsOrderOf, IsSized, ScheduleOf;
  }

  ghost predicate IsDecided(setup: Setup, o: Order)
    requires setup.Valid()
  {
    exists d: nat :: d < |setup.sessions| && IsOrderOf(setup, d, o)
  }

  // Every order on record was placed by a decision.
  ghost predicate OrdersTold(setup: Setup, issued: seq<Order>)
    requires setup.Valid()
  {
    forall k :: 0 <= k < |issued| ==> IsDecided(setup, issued[k])
  }

  lemma DecideTells(setup: Setup, st: Run, d: nat)
    requires setup.Valid() && d < |setup.sessions| && Told(setup, st) && OrdersTold(setup, st.issued)
    requires ScheduleOf(setup.timing, setup.sessions[d], setup.delay, setup.nearCloseMinutes).Success?
    requires var sch := ScheduleOf(setup.timing, setup.sessions[d], setup.delay, setup.nearCloseMinutes).value;
      Decide(setup, st, d, sch).Success?
    ensures var sch := ScheduleOf(setup.timing, setup.sessions[d], setup.delay, setup.nearCloseMinutes).value;
      var next := Decide(setup, st, d, sch).value;
      Told(setup, next) && OrdersTold(setup, next.issued)
  {
    var sch := ScheduleOf(setup.timing, setup.sessions[d], setup.delay, setup.nearCloseMinutes).value;
    ScheduleIs(setup, d);
    if Decides(setup, d) {
      var orders := DecideIsDecision(setup, st, d);
      MoreOrdersTold(setup, st, Decide(setup, st, d, sch).value, orders, d);
    }
    hide IsOrderOf, IsSized, ScheduleOf;
  }

  lemma MoreOrdersTold(setup: Setup, st: Run, next: Run, orders: seq<Order>, d: nat)
    requires setup.Valid() && d < |setup.sessions| && Told(setup, st) && OrdersTold(setup, st.issued)
    requires next.issued == st.issued + orders && next.ledger == st.ledger && next.cancelled == st.cancelled
    requires forall k :: 0 <= k < |orders| ==> IsOrderOf(setup, d, orders[k])
    ensures Told(setup, next) && OrdersTold(setup, next.issued)
  {
    hide IsOrderOf, IsFillOf, AtItsSlot, IsCancellationOf, SellsFirst, ImplicitCosts;
    forall k | 0 <= k < |next.issued| ensures IsDecided(setup, next.issued[k]) {
      if |st.issued| <= k {
        assert next.issued[k] == orders[k - |st.issued|];
      } else {
        assert next.issued[k] == st.issued[k];
      }
    }
  }

  // ------------------------------------------------------------ one session

  function Late(setup: Setup): bool {
    setup.timing == NextOpen || setup.timing == NextClose
  }

  lemma PayContinues(setup: Setup, st: Run, i: nat, from: int)
    requires i < |setup.sessions| && PayInterest(setup, st, i).Success?
    ensures var next := PayInterest(setup, st, i).value;
      Continues(st, next, from) && next == st.(ledger := next.ledger) && next.ledger.fills == st.ledger.fills
  {
  }

  // What a session does, in its two halves: `begun` after the fills of the open, `closed`
  // after those of the close, `paid` with the night's interest; the decision is at noon or
  // at night.
  ghost predicate IsMorning(setup: Setup, st: Run, i: nat, begun: Run, noon: Run)
    requires setup.Valid() && i < |setup.sessions|
  {
    && Continues(st, begun, setup.sessions[i].openTime) && begun.issued == st.issued
    && begun.ledger.interest == st.ledger.interest
    && IsDay(setup, begun, noon, i, !Late(setup))
  }

  ghost predicate IsEvening(setup: Setup, noon: Run, i: nat, closed: Run, paid: Run, night: Run)
    requires setup.Valid() && i < |setup.sessions|
  {
    && Continues(noon, closed, setup.sessions[i].closeTime) && closed.issued == noon.issued
    && closed.ledger.interest == noon.ledger.interest
    && PayInterest(setup, closed, i) == Success(paid)
    && IsDay(setup, paid, night, i, Late(setup))
  }

  // The decision, if this is its half of the day and its orders would still fill.
  ghost predicate IsDay(setup: Setup, st: Run, next: Run, i: nat, now: bool)
    requires setup.Valid() && i < |setup.sessions|
  {
    if now && Decides(setup, i) then exists orders :: IsDecision(setup, st, next, i, orders) else next == st
  }

  lemma DecideIsDay(setup: Setup, st: Run, i: nat)
    requires setup.Valid() && i < |setup.sessions|
    requires ScheduleOf(setup.timing, setup.sessions[i], setup.delay, setup.nearCloseMinutes).Success?
    requires var sch := ScheduleOf(setup.timing, setup.sessions[i], setup.delay, setup.nearCloseMinutes).value;
      Decide(setup, st, i, sch).Success?
    ensures var sch := ScheduleOf(setup.timing, setup.sessions[i], setup.delay, setup.nearCloseMinutes).value;
      IsDay(setup, st, Decide(setup, st, i, sch).value, i, true)
  {
    ScheduleIs(setup, i);
    if Decides(setup, i) {
      var orders := DecideIsDecision(setup, st, i);
    }
    hide IsDecision, ScheduleOf, Decides;
  }

  // The record stays true and is only added to.
  ghost predicate Good(setup: Setup, st: Run)
    requires setup.Valid()
  {
    Told(setup, st) && OrdersTold(setup, st.issued)
  }

  lemma MorningIs(setup: Setup, st: Run, i: nat) returns (begun: Run)
    requires setup.Valid() && i < |setup.sessions| && Usable(setup, st) && Morning(setup, st, i).Success?
    ensures IsMorning(setup, st, i, begun, Morning(setup, st, i).value)
    ensures FillDue(setup, st, i, AtOpen) == Success(begun)
  {
    hide FillDue, Decide, Continues, IsDecision, Decides;
    begun := FillDue(setup, st, i, AtOpen).value;
    FillDueContinues(setup, st, i, AtOpen);
    if !Late(setup) {
      DecideIsDay(setup, begun, i);
    }
  }

  lemma MorningTells(setup: Setup, st: Run, i: nat)
    requires setup.Valid() && i < |setup.sessions| && Usable(setup, st) && Morning(setup, st, i).Success?
    requires Invariant(setup, st, 2 * i) && Good(setup, st)
    ensures Good(setup, Morning(setup, st, i).value)
  {
    hide FillDue, Decide, Told, OrdersTold, Invariant;
    var begun := FillDue(setup, st, i, AtOpen).value;
    FillDueTells(setup, st, i, AtOpen);
    FillDueContinues(setup, st, i, AtOpen);
    if !Late(setup) {
      DecideTells(setup, begun, i);
    }
  }

  lemma EveningIs(setup: Setup, st: Run, i: nat) returns (closed: Run, paid: Run)
    requires setup.Valid() && i < |setup.sessions| && Usable(setup, st) && Evening(setup, st, i).Success?
    ensures IsEvening(setup, st, i, closed, paid, Evening(setup, st, i).value)
    ensures FillDue(setup, st, i, AtClose) == Success(closed)
  {
    hide FillDue, Decide, Continues, IsDecision, Decides, PayInterest;
    closed := FillDue(setup, st, i, AtClose).value;
    FillDueContinues(setup, st, i, AtClose);
    paid := PayInterest(setup, closed, i).value;
    if Late(setup) {
      DecideIsDay(setup, paid, i);
    }
  }

  lemma EveningTells(setup: Setup, st: Run, i: nat)
    requires setup.Valid() && i < |setup.sessions| && Usable(setup, st) && Evening(setup, st, i).Success?
    requires Invariant(setup, st, 2 * i + 1) && Good(setup, st)
    ensures Good(setup, Evening(setup, st, i).value)
  {
    hide FillDue, Decide, Told, OrdersTold, Invariant, PayInterest;
    var closed := FillDue(setup, st, i, AtClose).value;
    FillDueTells(setup, st, i, AtClose);
    FillDueContinues(setup, st, i, AtClose);
    var paid := PayInterest(setup, closed, i).value;
    PayTells(setup, closed, i);
    if Late(setup) {
      DecideTells(setup, paid, i);
    }
  }

  lemma PayTells(setup: Setup, st: Run, i: nat)
    requires setup.Valid() && i < |setup.sessions| && Good(setup, st) && PayInterest(setup, st, i).Success?
    ensures Good(setup, PayInterest(setup, st, i).value)
  {
    hide FillsTold, CancelsTold, SellsFirst, OrdersTold, ImplicitCosts;
  }

  // ------------------------------------------------------------ whole runs

  lemma {:induction false} RunTells(setup: Setup, st: Run, i: nat)
    requires setup.Valid() && i <= |setup.sessions| && Usable(setup, st) && RunFrom(setup, st, i).Success?
    requires Invariant(setup, st, 2 * i) && Good(setup, st)
    ensures Good(setup, RunFrom(setup, st, i).value)
    decreases |setup.sessions| - i
  {
    hide Invariant, Morning, Evening, Good;
    if i < |setup.sessions| {
      var noon := Morning(setup, st, i).value;
      MorningKeeps(setup, st, i);
      MorningTells(setup, st, i);
      EveningKeeps(setup, noon, i);
      EveningTells(setup, noon, i);
      RunTells(setup, Evening(setup, noon, i).value, i + 1);
    }
  }

  lemma SessionContinues(setup: Setup, st: Run, i: nat)
    requires setup.Valid() && i < |setup.sessions| && Usable(setup, st) && Morning(setup, st, i).Success?
    requires Evening(setup, Morning(setup, st, i).value, i).Success?
    ensures Continues(st, Evening(setup, Morning(setup, st, i).value, i).value, setup.sessions[i].openTime)
    ensures Continues(Morning(setup, st, i).value, Evening(setup, Morning(setup, st, i).value, i).value,
                      setup.sessions[i].closeTime)
  {
    var noon := Morning(setup, st, i).value;
    var night := Evening(setup, noon, i).value;
    var begun := MorningIs(setup, st, i);
    var closed, paid := EveningIs(setup, noon, i);
    hide Morning, Evening, IsDecision, PayInterest;
    var open, close := setup.sessions[i].openTime, setup.sessions[i].closeTime;
    DayContinues(setup, begun, noon, i, !Late(setup), open);
    DayContinues(setup, paid, night, i, Late(setup), close);
    PayContinues(setup, closed, i, close);
    hide Continues, IsDay;
    ContinuesOn(st, begun, noon, open, open);
    ContinuesOn(noon, closed, paid, close, close);
    ContinuesOn(noon, paid, night, close, close);
    ContinuesOn(st, noon, night, open, close);
  }

  lemma DayContinues(setup: Setup, st: Run, next: Run, i: nat, now: bool, from: int)
    requires setup.Valid() && i < |setup.sessions| && IsDay(setup, st, next, i, now)
    ensures Continues(st, next, from)
  {
    hide IsOrderOf, IsSized, Decides;
  }

  lemma {:induction false} RunContinues(setup: Setup, st: Run, i: nat)
    requires setup.Valid() && i <= |setup.sessions| && Usable(setup, st) && RunFrom(setup, st, i).Success?
    ensures i < |setup.sessions| ==> Continues(st, RunFrom(setup, st, i).value, setup.sessions[i].openTime)
    ensures i == |setup.sessions| ==> RunFrom(setup, st, i).value == st
    decreases |setup.sessions| - i
  {
    hide Morning, Evening, Continues;
    if i < |setup.sessions| {
      var night := Evening(setup, Morning(setup, st, i).value, i).value;
      var last := RunFrom(setup, st, i).value;
      SessionContinues(setup, st, i);
      RunContinues(setup, night, i + 1);
      if i + 1 < |setup.sessions| {
        ContinuesOn(st, night, last, setup.sessions[i].openTime, setup.sessions[i + 1].openTime);
      }
    }
  }

  // The moment that parts what happened before a session's decision from what comes after:
  // its close, or the next session's open.
  function Parting(setup: Setup, d: nat): int
    requires d < |setup.sessions| && Decides(setup, d)
  {
    if Late(setup) then setup.sessions[d + 1].openTime else setup.sessions[d].closeTime
  }

  // A decision of session `d` in the middle of a run that ends as `last`: it knew the
  // fills of before the moment and no others.
  ghost predicate DecidedIn(setup: Setup, d: nat, before: Run, after: Run, orders: seq<Order>, last: Run)
    requires setup.Valid() && d < |setup.sessions| && Decides(setup, d)
  {
    && IsDecision(setup, before, after, d, orders)
    && before.ledger.fills <= last.ledger.fills && after.issued <= last.issued
    && (forall k :: 0 <= k < |before.ledger.fills| ==> last.ledger.fills[k].time < Parting(setup, d))
    && (forall k :: |before.ledger.fills| <= k < |last.ledger.fills| ==> Parting(setup, d) <= last.ledger.fills[k].time)
  }

  // From any session on, the decision of every later one is made, as its input asks.
  lemma {:induction false} LaterSessionsDecide(setup: Setup, st: Run, i: nat, d: nat)
    returns (before: Run, after: Run, orders: seq<Order>)
    requires setup.Valid() && i <= d < |setup.sessions| && Usable(setup, st) && RunFrom(setup, st, i).Success?
    requires Invariant(setup, st, 2 * i) && Decides(setup, d)
    ensures DecidedIn(setup, d, before, after, orders, RunFrom(setup, st, i).value)
    decreases d - i
  {
    hide Invariant, Morning, Evening, DecidedIn, Decides;
    var noon := Morning(setup, st, i).value;
    MorningKeeps(setup, st, i);
    EveningKeeps(setup, noon, i);
    if i < d {
      before, after, orders := LaterSessionsDecide(setup, Evening(setup, noon, i).value, i + 1, d);
    } else if Late(setup) {
      before, after, orders := DecidesAtNight(setup, st, i);
    } else {
      before, after, orders := DecidesAtNoon(setup, st, i);
    }
  }

  lemma FillsBefore(setup: Setup, st: Run, slot: int)
    requires setup.Valid() && Invariant(setup, st, slot) && slot < 2 * |setup.sessions|
    ensures forall k :: 0 <= k < |st.ledger.fills| ==> st.ledger.fills[k].time < SlotTime(setup.sessions, slot)
  {
  }

  lemma DecidesAtNoon(setup: Setup, st: Run, i: nat) returns (before: Run, after: Run, orders: seq<Order>)
    requires setup.Valid() && i < |setup.sessions| && Usable(setup, st) && RunFrom(setup, st, i).Success?
    requires Invariant(setup, st, 2 * i) && Decides(setup, i) && !Late(setup)
    ensures DecidedIn(setup, i, before, after, orders, RunFrom(setup, st, i).value)
  {
    hide Invariant, Morning, Evening, Continues, IsDecision, FillDue;
    var last := RunFrom(setup, st, i).value;
    after := Morning(setup, st, i).value;
    before := MorningIs(setup, st, i);
    orders :| IsDecision(setup, before, after, i, orders);
    FillDueKeeps(setup, st, i, AtOpen);
    SlotIsWhen(setup, i, AtClose);
    FillsBefore(setup, before, 2 * i + 1);
    DecisionLeaves(setup, before, after, i, orders);
    RestOfRun(setup, st, i);
    Parts(before, after, last, setup.sessions[i].closeTime);
  }

  lemma DecisionLeaves(setup: Setup, before: Run, after: Run, d: nat, orders: seq<Order>)
    requires setup.Valid() && d < |setup.sessions| && IsDecision(setup, before, after, d, orders)
    ensures after.ledger == before.ledger
  {
    hide IsOrderOf, IsSized;
  }

  lemma RestOfRun(setup: Setup, st: Run, i: nat)
    requires setup.Valid() && i < |setup.sessions| && Usable(setup, st) && RunFrom(setup, st, i).Success?
    ensures Continues(Morning(setup, st, i).value, RunFrom(setup, st, i).value, setup.sessions[i].closeTime)
    ensures i + 1 < |setup.sessions| ==>
      Continues(Evening(setup, Morning(setup, st, i).value, i).value, RunFrom(setup, st, i).value,
                setup.sessions[i + 1].openTime)
  {
    hide Morning, Evening, Continues;
    var noon := Morning(setup, st, i).value;
    var night := Evening(setup, noon, i).value;
    SessionContinues(setup, st, i);
    RunContinues(setup, night, i + 1);
    if i + 1 < |setup.sessions| {
      ContinuesOn(noon, night, RunFrom(setup, st, i).value, setup.sessions[i].closeTime,
        setup.sessions[i + 1].openTime);
    }
  }

  lemma Parts(before: Run, after: Run, last: Run, moment: int)
    requires after.ledger == before.ledger && Continues(after, last, moment)
    requires forall k :: 0 <= k < |before.ledger.fills| ==> before.ledger.fills[k].time < moment
    ensures before.ledger.fills <= last.ledger.fills && after.issued <= last.issued
    ensures forall k :: 0 <= k < |before.ledger.fills| ==> last.ledger.fills[k].time < moment
    ensures forall k :: |before.ledger.fills| <= k < |last.ledger.fills| ==> moment <= last.ledger.fills[k].time
  {
  }

  lemma DecidesAtNight(setup: Setup, st: Run, i: nat) returns (before: Run, after: Run, orders: seq<Order>)
    requires setup.Valid() && i < |setup.sessions| && Usable(setup, st) && RunFrom(setup, st, i).Success?
    requires Invariant(setup, st, 2 * i) && Decides(setup, i) && Late(setup)
    ensures DecidedIn(setup, i, before, after, orders, RunFrom(setup, st, i).value)
  {
    hide Invariant, Morning, Evening, Continues, IsDecision, FillDue, PayInterest;
    var last := RunFrom(setup, st, i).value;
    var noon := Morning(setup, st, i).value;
    MorningKeeps(setup, st, i);
    after := Evening(setup, noon, i).value;
    var closed, paid := EveningIs(setup, noon, i);
    before := paid;
    orders :| IsDecision(setup, before, after, i, orders);
    EveningKeeps(setup, noon, i);
    SlotIsWhen(setup, i + 1, AtOpen);
    FillsBefore(setup, after, 2 * i + 2);
    DecisionLeaves(setup, before, after, i, orders);
    RestOfRun(setup, st, i);
    Parts(before, after, last, setup.sessions[i + 1].openTime);
  }

  // ------------------------------------------------------------ interest

  // The fills up to a moment.
  function Until(fills: seq<Fill>, moment: int): seq<Fill> {
    if fills == [] then []
    else
      var f := fills[|fills| - 1];
      Until(fills[..|fills| - 1], moment) + (if f.time <= moment then [f] else [])
  }

  // A night's interest: a year's rate for the days since the session before, to the
  // nearest cent.
  function Night(setup: Setup, cash: int, i: nat): int
    requires 0 < i < |setup.sessions|
  {
    var days := setup.sessions[i].date - setup.sessions[i - 1].date;
    if setup.interestRate > 0.0 then RoundHalfEven(cash as real * setup.interestRate * days as real / 365.0) else 0
  }

  // The interest a run has earned before session `i`, from its fills: every night but the
  // first, on the cash after that session's close.
  function Earned(setup: Setup, initialCash: int, fills: seq<Fill>, i: nat): int
    requires i <= |setup.sessions|
  {
    if i <= 1 then 0
    else
      var before := Earned(setup, initialCash, fills, i - 1);
      before + Night(setup, initialCash + before + CashFlow(Until(fills, setup.sessions[i - 1].closeTime)), i - 1)
  }

  lemma {:induction false} UntilAll(fills: seq<Fill>, moment: int)
    requires forall k :: 0 <= k < |fills| ==> fills[k].time <= moment
    ensures Until(fills, moment) == fills
  {
    if fills != [] {
      UntilAll(fills[..|fills| - 1], moment);
    }
  }

  lemma {:induction false} UntilMore(fills: seq<Fill>, more: seq<Fill>, moment: int)
    requires forall k :: 0 <= k < |more| ==> moment < more[k].time
    ensures Until(fills + more, moment) == Until(fills, moment)
  {
    if more == [] {
      assert fills + more == fills;
    } else {
      var head := more[..|more| - 1];
      assert (fills + more)[..|fills + more| - 1] == fills + head;
      UntilMore(fills, head, moment);
    }
  }

  lemma {:induction false} EarnedStays(setup: Setup, initialCash: int, st: Run, next: Run, i: nat, from: int)
    requires setup.Valid() && i <= |setup.sessions| && Continues(st, next, from)
    requires 0 < i ==> setup.sessions[i - 1].closeTime < from
    ensures Earned(setup, initialCash, next.ledger.fills, i) == Earned(setup, initialCash, st.ledger.fills, i)
  {
    hide Night, Until, CashFlow;
    if 1 < i {
      assert setup.sessions[i - 2].closeTime < setup.sessions[i - 1].openTime < setup.sessions[i - 1].closeTime;
      EarnedStays(setup, initialCash, st, next, i - 1, from);
      var a, b := st.ledger.fills, next.ledger.fills;
      assert b == a + b[|a|..];
      UntilMore(a, b[|a|..], setup.sessions[i - 1].closeTime);
    }
  }

  lemma PaysTheNight(setup: Setup, st: Run, i: nat)
    requires i < |setup.sessions| && PayInterest(setup, st, i).Success?
    ensures var next := PayInterest(setup, st, i).value;
      next.ledger.interest == st.ledger.interest + if i == 0 then 0 else Night(setup, st.ledger.cash, i)
  {
    hide RoundHalfEven;
  }

  // The night's interest is what the record says.
  lemma NightEarns(setup: Setup, closed: Run, i: nat)
    requires setup.Valid() && i < |setup.sessions| && PayInterest(setup, closed, i).Success? && CashLaw(closed.ledger)
    requires forall k :: 0 <= k < |closed.ledger.fills| ==> closed.ledger.fills[k].time <= setup.sessions[i].closeTime
    requires closed.ledger.interest == Earned(setup, closed.ledger.initialCash, closed.ledger.fills, i)
    ensures PayInterest(setup, closed, i).value.ledger.interest
         == Earned(setup, closed.ledger.initialCash, closed.ledger.fills, i + 1)
  {
    hide Until, CashFlow, Night, PayInterest, Earned;
    PaysTheNight(setup, closed, i);
    UntilAll(closed.ledger.fills, setup.sessions[i].closeTime);
    EarnedAfter(setup, closed.ledger.initialCash, closed.ledger.fills, i);
  }

  lemma EarnedAfter(setup: Setup, initialCash: int, fills: seq<Fill>, i: nat)
    requires i < |setup.sessions|
    ensures var before := Earned(setup, initialCash, fills, i);
      && (i == 0 ==> before == 0)
      && Earned(setup, initialCash, fills, i + 1) == before
         + if i == 0 then 0
           else Night(setup, initialCash + before + CashFlow(Until(fills, setup.sessions[i].closeTime)), i)
  {
    hide Night, CashFlow, Until;
  }

  lemma SoundHasCashLaw(setup: Setup, st: Run, slot: int)
    requires Invariant(setup, st, slot)
    ensures CashLaw(st.ledger)
  {
  }

  lemma FillsByClose(setup: Setup, st: Run, i: nat, closed: Run)
    requires setup.Valid() && i < |setup.sessions| && Invariant(setup, st, 2 * i + 1) && Usable(setup, st)
    requires FillDue(setup, st, i, AtClose) == Success(closed)
    ensures forall k :: 0 <= k < |closed.ledger.fills| ==> closed.ledger.fills[k].time <= setup.sessions[i].closeTime
    ensures CashLaw(closed.ledger) && closed.ledger.initialCash == st.ledger.initialCash
  {
    hide FillDue, Invariant, CashLaw, Usable, Setup.Valid;
    FillDueKeeps(setup, st, i, AtClose);
    FillDueContinues(setup, st, i, AtClose);
    FillsBefore(setup, st, 2 * i + 1);
    SlotIsWhen(setup, i, AtClose);
    SoundHasCashLaw(setup, closed, 2 * i + 2);
  }

  ghost predicate HasEarned(setup: Setup, st: Run, i: nat)
    requires i <= |setup.sessions|
  {
    st.ledger.interest == Earned(setup, st.ledger.initialCash, st.ledger.fills, i)
  }

  lemma EarnedOn(setup: Setup, st: Run, next: Run, i: nat, from: int)
    requires setup.Valid() && i <= |setup.sessions| && Continues(st, next, from) && HasEarned(setup, st, i)
    requires 0 < i ==> setup.sessions[i - 1].closeTime < from
    requires next.ledger.interest == st.ledger.interest
    ensures HasEarned(setup, next, i)
  {
    EarnedStays(setup, st.ledger.initialCash, st, next, i, from);
    hide Earned;
  }

  lemma DayKeepsLedger(setup: Setup, st: Run, next: Run, i: nat, now: bool)
    requires setup.Valid() && i < |setup.sessions| && IsDay(setup, st, next, i, now)
    ensures next.ledger == st.ledger
  {
    hide IsOrderOf, IsSized, Decides;
  }

  lemma MorningEarns(setup: Setup, st: Run, i: nat)
    requires setup.Valid() && i < |setup.sessions| && Usable(setup, st) && Morning(setup, st, i).Success?
    requires HasEarned(setup, st, i)
    ensures HasEarned(setup, Morning(setup, st, i).value, i)
  {
    hide Morning, Continues, HasEarned, IsDay;
    var noon := Morning(setup, st, i).value;
    var begun := MorningIs(setup, st, i);
    EarnedOn(setup, st, begun, i, setup.sessions[i].openTime);
    DayKeepsLedger(setup, begun, noon, i, !Late(setup));
    assert HasEarned(setup, noon, i) by {
      SameLedgerEarned(setup, begun, noon, i);
    }
  }

  lemma SameLedgerEarned(setup: Setup, st: Run, next: Run, i: nat)
    requires i <= |setup.sessions| && next.ledger == st.ledger && HasEarned(setup, st, i)
    ensures HasEarned(setup, next, i)
  {
  }

  lemma EveningEarns(setup: Setup, st: Run, i: nat)
    requires setup.Valid() && i < |setup.sessions| && Usable(setup, st) && Evening(setup, st, i).Success?
    requires Invariant(setup, st, 2 * i + 1) && HasEarned(setup, st, i)
    ensures HasEarned(setup, Evening(setup, st, i).value, i + 1)
  {
    hide Evening, Continues, IsDay, FillDue, Invariant, PayInterest, Earned, CashLaw;
    var night := Evening(setup, st, i).value;
    var closed, paid := EveningIs(setup, st, i);
    EarnedOn(setup, st, closed, i, setup.sessions[i].closeTime);
    FillsByClose(setup, st, i, closed);
    NightEarns(setup, closed, i);
    PayContinues(setup, closed, i, setup.sessions[i].closeTime);
    PaidIsEarned(setup, closed, paid, i);
    DayKeepsLedger(setup, paid, night, i, Late(setup));
    SameLedgerEarned(setup, paid, night, i + 1);
  }

  lemma PaidIsEarned(setup: Setup, closed: Run, paid: Run, i: nat)
    requires i < |setup.sessions| && PayInterest(setup, closed, i) == Success(paid)
    requires paid.ledger.interest == Earned(setup, closed.ledger.initialCash, closed.ledger.fills, i + 1)
    ensures HasEarned(setup, paid, i + 1)
  {
    hide Earned, InterestOn;
  }

  lemma {:induction false} RunEarns(setup: Setup, st: Run, i: nat)
    requires setup.Valid() && i <= |setup.sessions| && Usable(setup, st) && RunFrom(setup, st, i).Success?
    requires Invariant(setup, st, 2 * i) && HasEarned(setup, st, i)
    ensures HasEarned(setup, RunFrom(setup, st, i).value, |setup.sessions|)
    decreases |setup.sessions| - i
  {
    hide Invariant, Morning, Evening, HasEarned;
    if i < |setup.sessions| {
      var noon := Morning(setup, st, i).value;
      MorningKeeps(setup, st, i);
      MorningEarns(setup, st, i);
      EveningKeeps(setup, noon, i);
      EveningEarns(setup, noon, i);
      RunEarns(setup, Evening(setup, noon, i).value, i + 1);
    }
  }

  // ------------------------------------------------------------ whole backtests

  ghost predicate ClosedInOrder(trips: seq<RoundTrip>) {
    forall i, j :: 0 <= i < j < |trips| && trips[i].symbol == trips[j].symbol ==>
      trips[i].entryTime <= trips[j].entryTime
  }

  // A finished backtest is exact, causal and in order: the ledger laws hold, no fill used
  // data from its future, round trips close lots in the order they were opened. And its
  // record is true: each fill is of an order, within its limits, at the
  // time and price of its slot and as quoted; sells come before buys of the same moment;
  // each cancellation has its reason; each order comes from a decision.
  lemma BacktestIsTold(setup: Setup, initialCash: int)
    requires setup.Valid() && 0 <= initialCash && Backtest(setup, initialCash).Success?
    ensures 2 <= |setup.sessions|
    ensures var st := Backtest(setup, initialCash).value;
      && Sound(st.ledger)
      && Causal(st.ledger.fills, AllowsSameBarClose(setup.timing, setup.delay))
      && ClosedInOrder(st.ledger.roundTrips)
      && FillsTold(setup, st.issued, st.ledger.fills)
      && CancelsTold(setup, st.issued, st.cancelled)
      && SellsFirst(st.ledger.fills)
      && st.ledger.implicitCosts == ImplicitCosts(st.ledger.fills)
      && OrdersTold(setup, st.issued)
  {
    StartIsGood(setup, initialCash);
    hide RunFrom, Good;
    StartKeeps(setup, initialCash);
    RunTells(setup, Start(initialCash), 0);
    BacktestResolvesEveryOrder(setup, initialCash, 0);
    BacktestIsSound(setup, initialCash);
    GoodIs(setup, Backtest(setup, initialCash).value);
  }

  lemma StartIsGood(setup: Setup, initialCash: int)
    requires setup.Valid()
    ensures Good(setup, Start(initialCash)) && HasEarned(setup, Start(initialCash), 0)
  {
  }

  lemma GoodIs(setup: Setup, st: Run)
    requires setup.Valid() && Good(setup, st)
    ensures Told(setup, st) && OrdersTold(setup, st.issued)
  {
  }

  // A finished backtest paid the interest of every night, on the cash its fills left.
  lemma BacktestPaysInterest(setup: Setup, initialCash: int)
    requires setup.Valid() && 0 <= initialCash && Backtest(setup, initialCash).Success?
    ensures var l := Backtest(setup, initialCash).value.ledger;
      l.initialCash == initialCash && l.interest == Earned(setup, initialCash, l.fills, |setup.sessions|)
  {
    StartIsGood(setup, initialCash);
    hide RunFrom;
    StartKeeps(setup, initialCash);
    RunEarns(setup, Start(initialCash), 0);
    RunContinues(setup, Start(initialCash), 0);
    BacktestResolvesEveryOrder(setup, initialCash, 0);
    hide Earned;
  }

  // And it decided in every session whose orders could still fill, on what had happened by
  // then, and placed exactly the orders its input asked for.
  lemma EverySessionDecides(setup: Setup, initialCash: int, d: nat)
    returns (before: Run, after: Run, orders: seq<Order>)
    requires setup.Valid() && 0 <= initialCash && Backtest(setup, initialCash).Success?
    requires d < |setup.sessions| && Decides(setup, d)
    ensures DecidedIn(setup, d, before, after, orders, Backtest(setup, initialCash).value)
  {
    hide RunFrom, DecidedIn, Decides;
    StartKeeps(setup, initialCash);
    BacktestResolvesEveryOrder(setup, initialCash, 0);
    before, after, orders := LaterSessionsDecide(setup, Start(initialCash), 0, d);
  }

  // Nothing on the list of market errors can happen.
  predicate HasNoCause(setup: Setup)
    requires |setup.inputs| == |setup.sessions|
  {
    && 2 <= |setup.sessions|
    && !Charges(setup.model.config)
    && (forall i, s :: 0 <= i < |setup.bars| && s in setup.bars[i] ==>
      1 < setup.bars[i][s].open && 1 < setup.bars[i][s].close)
    && (forall i :: 0 <= i < |setup.sessions| ==> !IsLate(setup, i))
    && (setup.timing == NearClose ==> forall i :: 0 <= i < |setup.sessions| ==>
          setup.sessions[i].openTime < setup.sessions[i].closeTime - 60 * setup.nearCloseMinutes)
    && (forall i, s ::
          0 <= i < |setup.inputs| && !setup.inputs[i].refused && s in setup.unpriced && s in setup.inputs[i].weights ==>
            setup.inputs[i].weights[s] == 0.0)
  }

  lemma BacktestSucceeds(setup: Setup, initialCash: int)
    requires setup.Valid() && 0 <= initialCash && HasNoCause(setup)
    ensures Backtest(setup, initialCash).Success?
  {
    BacktestFailsOnlyOnMarkets(setup, initialCash);
    hide Backtest, IsLate;
  }
}
