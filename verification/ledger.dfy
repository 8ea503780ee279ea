// The FIFO-lot ledger as a value (src/adaptive_quant/quant/backtest/portfolio.py).
//
// `Portfolio` in portfolio.dfy updates its fields in place; its methods are proved
// equal to the functions below, and the laws the ledger promises are proved of these
// functions in ledger_laws.dfy.
module Ledgers {
  import opened Wrappers
  import opened Errors
  import opened Rounding
  import opened Costs

  datatype Lot = Lot(quantity: int, cost: int, commission: int, openedAt: int)

  datatype Limit = Unlimited | ByParticipation | ByCash

  datatype Fill = Fill(
    orderId: int,
    time: int,
    decisionTime: int,
    dataTimestamp: int,
    symbol: string,
    side: Side,
    requestedQuantity: int,
    quantity: int,
    refPrice: int,
    fillPrice: int,
    notional: int,
    commission: int,
    spreadCost: int,
    slippageCost: int,
    impactCost: int,
    limitedBy: Limit)

  datatype RoundTrip = RoundTrip(
    symbol: string,
    quantity: int,
    entryTime: int,
    exitTime: int,
    cost: int,
    proceeds: int,
    commissions: int,
    pnl: int)

  datatype Ledger = Ledger(
    initialCash: int,
    cash: int,
    realizedPnl: int,
    commissions: int,
    implicitCosts: int,
    interest: int,
    lots: map<string, seq<Lot>>,
    fills: seq<Fill>,
    roundTrips: seq<RoundTrip>)
  {
    function LotsOf(symbol: string): seq<Lot> {
      if symbol in lots then lots[symbol] else []
    }

    function Quantity(symbol: string): int {
      Held(LotsOf(symbol))
    }
  }

  function Open(initialCash: int): Ledger {
    Ledger(initialCash, initialCash, 0, 0, 0, 0, map[], [], [])
  }

  // ------------------------------------------------------------ sums over lots

  function Held(lots: seq<Lot>): int {
    if lots == [] then 0 else lots[0].quantity + Held(lots[1..])
  }

  function CostBasis(lots: seq<Lot>): int {
    if lots == [] then 0 else lots[0].cost + CostBasis(lots[1..])
  }

  function OpenCommission(lots: seq<Lot>): int {
    if lots == [] then 0 else lots[0].commission + OpenCommission(lots[1..])
  }

  predicate PositiveLots(lots: seq<Lot>) {
    forall k :: 0 <= k < |lots| ==> lots[k].quantity > 0
  }

  predicate FundedLots(lots: seq<Lot>) {
    forall k :: 0 <= k < |lots| ==> lots[k].cost >= 0 && lots[k].commission >= 0
  }

  lemma HeldIsPositive(lots: seq<Lot>)
    requires PositiveLots(lots)
    ensures 0 <= Held(lots)
    ensures lots != [] ==> 0 < Held(lots)
  {
  }

  lemma {:induction false} SumsOfAppended(lots: seq<Lot>, lot: Lot)
    ensures Held(lots + [lot]) == Held(lots) + lot.quantity
    ensures CostBasis(lots + [lot]) == CostBasis(lots) + lot.cost
    ensures OpenCommission(lots + [lot]) == OpenCommission(lots) + lot.commission
  {
    if lots != [] {
      assert (lots + [lot])[1..] == lots[1..] + [lot];
      SumsOfAppended(lots[1..], lot);
    }
  }

  // ------------------------------------------------------------ a sale

  // What one pass of the sell loop takes out of the oldest lot.
  datatype Slice = Slice(take: int, openedAt: int, cost: int, buyCommission: int, proceeds: int, sellCommission: int)

  datatype Sale = Sale(lots: seq<Lot>, slices: seq<Slice>)

  function Min(a: int, b: int): int {
    if b < a then b else a
  }

  function TakeSlice(lot: Lot, remaining: int, f: Fill, proceedsLeft: int, commissionLeft: int): Slice
    requires lot.quantity > 0 && f.quantity > 0
  {
    var take := Min(remaining, lot.quantity);
    Slice(
      take,
      lot.openedAt,
      if take == lot.quantity then lot.cost else ProRata(lot.cost, take, lot.quantity),
      if take == lot.quantity then lot.commission else ProRata(lot.commission, take, lot.quantity),
      if take == remaining then proceedsLeft else ProRata(f.notional, take, f.quantity),
      if take == remaining then commissionLeft else ProRata(f.commission, take, f.quantity))
  }

  function Shrink(lot: Lot, s: Slice): Lot {
    Lot(lot.quantity - s.take, lot.cost - s.cost, lot.commission - s.buyCommission, lot.openedAt)
  }

  function Consume(lots: seq<Lot>, remaining: int, f: Fill, proceedsLeft: int, commissionLeft: int): Sale
    requires PositiveLots(lots) && 0 <= remaining <= Held(lots) && 0 < f.quantity
    decreases |lots|
  {
    if remaining == 0 then Sale(lots, [])
    else
      var s := TakeSlice(lots[0], remaining, f, proceedsLeft, commissionLeft);
      if s.take < lots[0].quantity then Sale([Shrink(lots[0], s)] + lots[1..], [s])
      else
        var rest := Consume(lots[1..], remaining - s.take, f, proceedsLeft - s.proceeds,
          commissionLeft - s.sellCommission);
        Sale(rest.lots, [s] + rest.slices)
  }

  function TripOf(f: Fill, s: Slice): RoundTrip {
    RoundTrip(f.symbol, s.take, s.openedAt, f.time, s.cost, s.proceeds, s.buyCommission + s.sellCommission,
              s.proceeds - s.cost - s.buyCommission - s.sellCommission)
  }

  function TripsOf(f: Fill, slices: seq<Slice>): seq<RoundTrip> {
    seq(|slices|, i requires 0 <= i < |slices| => TripOf(f, slices[i]))
  }

  function Realized(slices: seq<Slice>): int {
    if slices == [] then 0 else slices[0].proceeds - slices[0].cost + Realized(slices[1..])
  }

  // ------------------------------------------------------------ applying a fill

  datatype Step = Step(ledger: Ledger, error: Option<Error>)

  function BuyFill(l: Ledger, f: Fill): Ledger {
    l.(cash := l.cash - (f.notional + f.commission),
       lots := l.lots[f.symbol := l.LotsOf(f.symbol) + [Lot(f.quantity, f.notional, f.commission, f.time)]])
  }

  function SellFill(l: Ledger, f: Fill): Ledger
    requires PositiveLots(l.LotsOf(f.symbol)) && 0 < f.quantity <= l.Quantity(f.symbol)
  {
    var sale := Consume(l.LotsOf(f.symbol), f.quantity, f, f.notional, f.commission);
    l.(cash := l.cash + f.notional - f.commission,
       realizedPnl := l.realizedPnl + Realized(sale.slices),
       lots := l.lots[f.symbol := sale.lots],
       roundTrips := l.roundTrips + TripsOf(f, sale.slices))
  }

  function Record(l: Ledger, f: Fill, implicitCost: int): Ledger {
    l.(commissions := l.commissions + f.commission,
       implicitCosts := l.implicitCosts + implicitCost,
       fills := l.fills + [f])
  }

  predicate HasInvalidLot(l: Ledger) {
    exists s, k :: s in l.lots && 0 <= k < |l.lots[s]| && (l.lots[s][k].quantity <= 0 || l.lots[s][k].cost < 0)
  }

  function Checked(l: Ledger): Step {
    Step(l, if l.cash < 0 then Some(CashNegative) else if HasInvalidLot(l) then Some(InvalidLot) else None)
  }

  predicate Positive(l: Ledger) {
    forall s :: s in l.lots ==> PositiveLots(l.lots[s])
  }

  // Why a fill is turned away before anything is booked.
  function Refusal(l: Ledger, f: Fill): Option<Error> {
    if f.quantity <= 0 then Some(FillNotPositive)
    else if f.side == Buy && f.notional + f.commission > l.cash then Some(InsufficientCash)
    else if f.side == Sell && f.quantity > l.Quantity(f.symbol) then Some(ExceedsHolding)
    else None
  }

  function Booked(l: Ledger, f: Fill, implicitCost: int): Ledger
    requires Positive(l) && Refusal(l, f).None?
  {
    Record(if f.side == Buy then BuyFill(l, f) else SellFill(l, f), f, implicitCost)
  }

  // A refused fill leaves the ledger alone; the final check reports without undoing.
  function Apply(l: Ledger, f: Fill, implicitCost: int): (step: Step)
    requires Positive(l)
    ensures step.error.None? ==> Positive(step.ledger)
  {
    if Refusal(l, f).Some? then Step(l, Refusal(l, f)) else Checked(Booked(l, f, implicitCost))
  }

  function Accrue(l: Ledger, amount: real): Step {
    var cents := RoundHalfEven(amount);
    if cents < 0 then Step(l, Some(NegativeInterest))
    else Step(l.(cash := l.cash + cents, interest := l.interest + cents), None)
  }
}
