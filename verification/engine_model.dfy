// The backtest engine as functions on values (src/adaptive_quant/quant/backtest/engine.py).
// `Engine` in engine.dfy runs the same steps in place; engine_laws.dfy proves what a
// whole run guarantees.
module EngineModel {
  import opened Wrappers
  import opened Errors
  import opened Rounding
  import opened Costs
  import opened Ledgers
  import opened LedgerLaws
  import opened Execution

  datatype Order = Order(
    id: int,
    symbol: string,
    side: Side,
    quantity: int,
    decisionTime: int,
    dataTimestamp: int,
    fillIndex: int,
    fillPoint: Point,
    adv: Option<real>)

  datatype Reason =
    VolumeUnknown | Limited(limit: Limit) | NothingToTrade | UnfilledRemainder(limit: Limit) | BacktestEnded

  datatype Cancelled = Cancelled(orderId: int, symbol: string, side: Side, quantity: int, reason: Reason)

  datatype Bar = Bar(open: int, close: int)

  // What the strategies, the allocation and the market data say at one decision.
  datatype DecisionInput = DecisionInput(
    dataTimestamp: int,
    prices: map<string, int>,
    weights: map<string, real>,
    adv: map<string, Option<real>>,
    refused: bool)

  datatype Setup = Setup(
    model: CostModel,
    timing: Timing,
    delay: nat,
    nearCloseMinutes: int,
    interestRate: real,
    cashBuffer: real,
    rebalanceThreshold: real,
    sessions: seq<Session>,
    priced: seq<string>,
    unpriced: set<string>,
    bars: seq<map<string, Bar>>,
    inputs: seq<DecisionInput>)
  {
    ghost predicate Valid() {
      && model.Valid()
      && 0 < nearCloseMinutes
      && 0.0 <= interestRate && 0.0 <= cashBuffer <= 1.0
      && Ordered(sessions)
      && (forall i, j :: 0 <= i < j < |priced| ==> priced[i] != priced[j])
      && |bars| == |sessions| && |inputs| == |sessions|
      && (forall i, s :: 0 <= i < |bars| && s in priced ==> s in bars[i])
      && (forall i, s :: 0 <= i < |inputs| && s in priced ==> s in inputs[i].prices && 0 < inputs[i].prices[s])
    }

    // Tick-steps in a cent: the unit market values and equity are measured in.
    function Scale(): int {
      model.lotsPerShare * TICKS_PER_CENT
    }
  }

  // `issued` keeps every order ever placed, in order of placement; the source keeps
  // only the ids, in its decisions.
  datatype Run = Run(ledger: Ledger, pending: seq<Order>, cancelled: seq<Cancelled>, nextId: int, issued: seq<Order>)

  function Start(initialCash: int): Run {
    Run(Open(initialCash), [], [], 1, [])
  }

  // ------------------------------------------------------------ affordable size

  // Bisection on the lot grid between an affordable `lo` and an unaffordable `hi`.
  function Bisect(m: CostModel, symbol: string, ref: int, adv: Option<real>, cash: int, rounds: nat, lo: int,
    hi: int): int
    requires m.lotsPerShare > 0 && "default" in m.config.halfSpreadBps
  {
    if rounds == 0 then lo
    else
      var mid := (lo + hi) / 2;
      if mid <= lo then lo
      else if BuyCost(m, symbol, mid, ref, adv) <= cash then Bisect(m, symbol, ref, adv, cash, rounds - 1, mid, hi)
      else Bisect(m, symbol, ref, adv, cash, rounds - 1, lo, mid)
  }

  const BISECTIONS := 60

  function Affordable(m: CostModel, symbol: string, quantity: int, ref: int, adv: Option<real>, cash: int): int
    requires m.lotsPerShare > 0 && "default" in m.config.halfSpreadBps
  {
    if quantity <= 0 || BuyCost(m, symbol, quantity, ref, adv) <= cash then quantity
    else Bisect(m, symbol, ref, adv, cash, BISECTIONS, 0, quantity)
  }

  // ------------------------------------------------------------ executing one order

  // Most lot steps one order may fill.
  function CapLots(m: CostModel, adv: Option<real>): Option<int> {
    var cap := ParticipationCap(m, adv);
    if cap.None? then None else Some(RoundDown(cap.value * m.lotsPerShare as real))
  }

  datatype Sized = Sized(quantity: int, limit: Limit)

  function CapSize(m: CostModel, o: Order): Sized {
    var cap := CapLots(m, o.adv);
    if cap.Some? && o.quantity > cap.value then Sized(cap.value, ByParticipation) else Sized(o.quantity, Unlimited)
  }

  function FinalSize(m: CostModel, l: Ledger, o: Order, ref: int): Sized
    requires m.lotsPerShare > 0 && "default" in m.config.halfSpreadBps
  {
    var capped := CapSize(m, o);
    if o.side == Sell then Sized(Min(capped.quantity, l.Quantity(o.symbol)), capped.limit)
    else
      var quantity := Affordable(m, o.symbol, capped.quantity, ref, o.adv, l.cash);
      Sized(quantity, if quantity < o.quantity && capped.limit == Unlimited then ByCash else capped.limit)
  }

  function FillOf(o: Order, when: int, limit: Limit, q: FillQuote): Fill {
    Fill(o.id, when, o.decisionTime, o.dataTimestamp, o.symbol, o.side, o.quantity, q.quantity, q.refPrice,
         q.fillPrice, q.notional, q.commission, q.spreadCost, q.slippageCost, q.impactCost, limit)
  }

  function Cancel(st: Run, o: Order, quantity: int, reason: Reason): Run {
    st.(cancelled := st.cancelled + [Cancelled(o.id, o.symbol, o.side, quantity, reason)])
  }

  function Settle(m: CostModel, st: Run, o: Order, ref: int, when: int, size: Sized): (r: Result<Run, Error>)
    requires m.lotsPerShare > 0 && "default" in m.config.halfSpreadBps && Positive(st.ledger)
    ensures r.Success? ==> Positive(r.value.ledger) && r.value.pending == st.pending
  {
    var quote :- Quote(m, o.symbol, o.side, size.quantity, ref, o.adv);
    var step := Apply(st.ledger, FillOf(o, when, size.limit, quote), quote.ImplicitCost());
    if step.error.Some? then Failure(step.error.value)
    else
      var filled := st.(ledger := step.ledger);
      if size.quantity < o.quantity
      then Success(Cancel(filled, o, o.quantity - size.quantity, UnfilledRemainder(size.limit)))
      else Success(filled)
  }

  function Execute(m: CostModel, st: Run, o: Order, ref: int, when: int): (r: Result<Run, Error>)
    requires m.lotsPerShare > 0 && "default" in m.config.halfSpreadBps && Positive(st.ledger)
    ensures r.Success? ==> Positive(r.value.ledger) && r.value.pending == st.pending
  {
    if o.adv.None? && m.config.rejectUnknownVolume then Success(Cancel(st, o, o.quantity, VolumeUnknown))
    else if o.side == Buy && 0 < CapSize(m, o).quantity && ref <= 0 then Failure(PriceNotPositive)
    else
      var size := FinalSize(m, st.ledger, o, ref);
      if size.quantity <= 0
      then Success(Cancel(st, o, o.quantity, if size.limit == Unlimited then NothingToTrade else Limited(size.limit)))
      else Settle(m, st, o, ref, when, size)
  }

  // ------------------------------------------------------------ fills due at a slot

  predicate IsDue(o: Order, i: int, point: Point) {
    o.fillIndex == i && o.fillPoint == point
  }

  function Select(orders: seq<Order>, i: int, point: Point, due: bool): seq<Order> {
    if orders == [] then []
    else
      var last := |orders| - 1;
      Select(orders[..last], i, point, due) + (if IsDue(orders[last], i, point) == due then [orders[last]] else [])
  }

  function OfSide(orders: seq<Order>, side: Side): seq<Order> {
    if orders == [] then []
    else
      var last := |orders| - 1;
      OfSide(orders[..last], side) + (if orders[last].side == side then [orders[last]] else [])
  }

  // Sells first so their proceeds can fund buys; by order id within each side.
  function ExecutionOrder(due: seq<Order>): seq<Order> {
    OfSide(due, Sell) + OfSide(due, Buy)
  }

  function CheckTiming(o: Order, when: int, sameBar: bool): bool {
    o.decisionTime <= when && (o.dataTimestamp < when || (sameBar && when == o.dataTimestamp))
  }

  function FillAll(setup: Setup, st: Run, queue: seq<Order>, i: nat, point: Point): (r: Result<Run, Error>)
    requires setup.Valid() && i < |setup.sessions| && Positive(st.ledger)
    requires forall o :: o in queue ==> o.symbol in setup.priced
    ensures r.Success? ==> Positive(r.value.ledger) && r.value.pending == st.pending
    decreases |queue|
  {
    if queue == [] then Success(st)
    else
      var o := queue[0];
      var when := FillTime(setup.sessions[i], point);
      if !CheckTiming(o, when, AllowsSameBarClose(setup.timing, setup.delay)) then Failure(LookAhead)
      else
        var bar := setup.bars[i][o.symbol];
        var next :- Execute(setup.model, st, o, if point == AtOpen then bar.open else bar.close, when);
        FillAll(setup, next, queue[1..], i, point)
  }

  predicate Usable(setup: Setup, st: Run) {
    Positive(st.ledger) && forall o :: o in st.pending ==> o.symbol in setup.priced
  }

  function FillDue(setup: Setup, st: Run, i: nat, point: Point): (r: Result<Run, Error>)
    requires setup.Valid() && i < |setup.sessions| && Usable(setup, st)
    ensures r.Success? ==> Usable(setup, r.value)
  {
    var due := Select(st.pending, i, point, true);
    var left := st.(pending := Select(st.pending, i, point, false));
    SelectIsSubset(st.pending, i, point, true);
    SelectIsSubset(st.pending, i, point, false);
    SideIsSubset(due, Sell);
    SideIsSubset(due, Buy);
    FillAll(setup, left, ExecutionOrder(due), i, point)
  }

  lemma {:induction false} SelectIsSubset(orders: seq<Order>, i: int, point: Point, due: bool)
    ensures forall o :: o in Select(orders, i, point, due) <==> o in orders && IsDue(o, i, point) == due
  {
    if orders != [] {
      SelectIsSubset(orders[..|orders| - 1], i, point, due);
      assert orders == orders[..|orders| - 1] + [orders[|orders| - 1]];
    }
  }

  lemma {:induction false} SideIsSubset(orders: seq<Order>, side: Side)
    ensures forall o :: o in OfSide(orders, side) <==> o in orders && o.side == side
  {
    if orders != [] {
      SideIsSubset(orders[..|orders| - 1], side);
      assert orders == orders[..|orders| - 1] + [orders[|orders| - 1]];
    }
  }

  // ------------------------------------------------------------ sizing

  // Quantity the pending orders of a symbol will add.
  function PendingQuantity(pending: seq<Order>, symbol: string): int {
    if pending == [] then 0
    else
      var o := pending[|pending| - 1];
      PendingQuantity(pending[..|pending| - 1], symbol)
      + (if o.symbol != symbol then 0 else if o.side == Buy then o.quantity else -o.quantity)
  }

  function Projected(l: Ledger, pending: seq<Order>, symbol: string): int {
    l.Quantity(symbol) + PendingQuantity(pending, symbol)
  }

  function TargetWeight(input: DecisionInput, symbol: string): real {
    if symbol in input.weights then input.weights[symbol] else 0.0
  }

  function TargetQuantity(weight: real, investable: real, price: int): int
    requires 0 < price
  {
    RoundDown(weight * investable / price as real)
  }

  // Signed quantity to trade: zero inside the rebalance band (exits always go through).
  function TradeSize(setup: Setup, weight: real, equity: int, price: int, projected: int): int
    requires 0 < price
  {
    var delta := TargetQuantity(weight, equity as real * (1.0 - setup.cashBuffer), price) - projected;
    var current := if equity > 0 then (projected * price) as real / equity as real else 0.0;
    var gap := if weight < current then current - weight else weight - current;
    if 0.0 < weight && gap < setup.rebalanceThreshold then 0 else delta
  }

  function OrderFor(setup: Setup, input: DecisionInput, slot: Schedule, i: nat, symbol: string, delta: int,
    id: int): Order {
    Order(id, symbol, if delta > 0 then Buy else Sell, Abs(delta), slot.decisionTime, input.dataTimestamp,
          i + slot.fillOffset, slot.fillPoint, if symbol in input.adv then input.adv[symbol] else None)
  }

  function Place(st: Run, o: Order): Run {
    st.(pending := st.pending + [o], nextId := st.nextId + 1, issued := st.issued + [o])
  }

  // Sizes the symbols from `k` on, each against the orders already pending.
  function SizeFrom(setup: Setup, st: Run, input: DecisionInput, slot: Schedule, i: nat, equity: int, k: nat): (r: Run)
    requires k <= |setup.priced|
    requires forall s :: s in setup.priced ==> s in input.prices && 0 < input.prices[s]
    ensures r.ledger == st.ledger && r.cancelled == st.cancelled
    ensures Usable(setup, st) ==> Usable(setup, r)
    decreases |setup.priced| - k
  {
    if k == |setup.priced| then st
    else
      var symbol := setup.priced[k];
      var delta := TradeSize(setup, TargetWeight(input, symbol), equity, input.prices[symbol],
                         Projected(st.ledger, st.pending, symbol));
      if delta == 0 then SizeFrom(setup, st, input, slot, i, equity, k + 1)
      else
        var o := OrderFor(setup, input, slot, i, symbol, delta, st.nextId);
        SizeFrom(setup, Place(st, o), input, slot, i, equity, k + 1)
  }

  predicate HoldsUnpriced(setup: Setup, input: DecisionInput) {
    exists s :: s in setup.unpriced && TargetWeight(input, s) != 0.0
  }

  ghost function Decide(setup: Setup, st: Run, i: nat, slot: Schedule): (r: Result<Run, Error>)
    requires setup.Valid() && i < |setup.sessions|
    ensures r.Success? ==> r.value.ledger == st.ledger && r.value.cancelled == st.cancelled
    ensures r.Success? && Usable(setup, st) ==> Usable(setup, r.value)
  {
    var input := setup.inputs[i];
    if i + slot.fillOffset >= |setup.sessions| then Success(st)
    else if input.dataTimestamp > slot.decisionTime then Failure(LookAhead)
    else if !PricedBy(setup, st.ledger, input) then Failure(NoMarkPrice)
    else if input.refused then Success(st)
    else if HoldsUnpriced(setup, input) then Failure(UnpricedHolding)
    else Success(SizeFrom(setup, st, input, slot, i, Equity(st.ledger, KnownPrices(setup, input), setup.Scale()), 0))
  }

  function KnownPrices(setup: Setup, input: DecisionInput): map<string, int> {
    map s | s in setup.priced && s in input.prices :: input.prices[s]
  }

  ghost predicate PricedBy(setup: Setup, l: Ledger, input: DecisionInput) {
    Priced(l, KnownPrices(setup, input))
  }

  // ------------------------------------------------------------ one session

  function Marks(setup: Setup, i: nat): map<string, int>
    requires i < |setup.bars|
  {
    map s | s in setup.priced && s in setup.bars[i] :: setup.bars[i][s].close
  }

  function InterestOn(setup: Setup, cash: int, i: nat): real
    requires 0 < i < |setup.sessions|
  {
    var days := setup.sessions[i].date - setup.sessions[i - 1].date;
    cash as real * setup.interestRate * days as real / 365.0
  }

  function PayInterest(setup: Setup, st: Run, i: nat): Result<Run, Error>
    requires i < |setup.sessions|
  {
    if i == 0 || setup.interestRate <= 0.0 then Success(st)
    else
      var step := Accrue(st.ledger, InterestOn(setup, st.ledger.cash, i));
      if step.error.Some? then Failure(step.error.value) else Success(st.(ledger := step.ledger))
  }

  ghost function Mark(setup: Setup, st: Run, i: nat): Result<Run, Error>
    requires i < |setup.bars|
  {
    if !Priced(st.ledger, Marks(setup, i)) then Failure(NoMarkPrice)
    else if Gap(st.ledger, Marks(setup, i), setup.Scale()) != 0 then Failure(IdentityViolated)
    else Success(st)
  }

  // Fills at the open; the decision of the models that decide before the close.
  ghost function Morning(setup: Setup, st: Run, i: nat): (r: Result<Run, Error>)
    requires setup.Valid() && i < |setup.sessions| && Usable(setup, st)
    ensures r.Success? ==> Usable(setup, r.value)
  {
    var begun :- FillDue(setup, st, i, AtOpen);
    var slot :- ScheduleOf(setup.timing, setup.sessions[i], setup.delay, setup.nearCloseMinutes);
    if setup.timing == NearClose || setup.timing == ClosingAuction then Decide(setup, begun, i, slot)
      else Success(begun)
  }

  // Fills at the close, interest, marking, and the decision of the models that wait.
  ghost function Evening(setup: Setup, st: Run, i: nat): (r: Result<Run, Error>)
    requires setup.Valid() && i < |setup.sessions| && Usable(setup, st)
    ensures r.Success? ==> Usable(setup, r.value)
  {
    var closed :- FillDue(setup, st, i, AtClose);
    var paid :- PayInterest(setup, closed, i);
    var marked :- Mark(setup, paid, i);
    var slot :- ScheduleOf(setup.timing, setup.sessions[i], setup.delay, setup.nearCloseMinutes);
    if setup.timing == NextOpen || setup.timing == NextClose then Decide(setup, marked, i, slot) else Success(marked)
  }

  ghost function RunFrom(setup: Setup, st: Run, i: nat): Result<Run, Error>
    requires setup.Valid() && i <= |setup.sessions| && Usable(setup, st)
    decreases |setup.sessions| - i
  {
    if i == |setup.sessions| then Success(st)
    else
      var noon :- Morning(setup, st, i);
      var night :- Evening(setup, noon, i);
      RunFrom(setup, night, i + 1)
  }

  function CancelPending(st: Run): Run
    decreases |st.pending|
  {
    if st.pending == [] then st
    else
      var o := st.pending[0];
      CancelPending(Cancel(st.(pending := st.pending[1..]), o, o.quantity, BacktestEnded))
  }

  // A whole backtest.
  ghost function Backtest(setup: Setup, initialCash: int): Result<Run, Error>
    requires setup.Valid()
  {
    if |setup.sessions| < 2 then Failure(TooFewSessions)
    else
      var last :- RunFrom(setup, Start(initialCash), 0);
      Success(CancelPending(last))
  }
}
