// What a sale books, lot by lot (src/adaptive_quant/quant/backtest/portfolio.py:150-210).
module SaleLaws {
  import opened Wrappers
  import opened Errors
  import opened Rounding
  import opened Costs
  import opened Ledgers
  import opened LedgerLaws

  // The oldest lots, each sold whole but for the last, at their own cost and buy
  // commission; proceeds and sell commission in proportion to the fill, the last slice
  // taking what is left of them.
  predicate IsCut(s: Slice, lot: Lot) {
    && 0 < s.take <= lot.quantity && s.openedAt == lot.openedAt
    && NearestPart(s.cost, lot.cost, s.take, lot.quantity)
    && NearestPart(s.buyCommission, lot.commission, s.take, lot.quantity)
    && (s.take == lot.quantity ==> s.cost == lot.cost && s.buyCommission == lot.commission)
  }

  predicate IsShare(s: Slice, f: Fill) {
    && NearestPart(s.proceeds, f.notional, s.take, f.quantity)
    && NearestPart(s.sellCommission, f.commission, s.take, f.quantity)
  }

  predicate AreCut(slices: seq<Slice>, lots: seq<Lot>, f: Fill) {
    && 0 < |slices| <= |lots|
    && (forall i :: 0 <= i < |slices| ==> IsCut(slices[i], lots[i]))
    && (forall i :: 0 <= i < |slices| - 1 ==> slices[i].take == lots[i].quantity && IsShare(slices[i], f))
  }

  // What is left: the last lot sold from without its slice, and the lots behind it.
  function Remainder(lots: seq<Lot>, k: int, quantity: int, cost: int, commission: int): seq<Lot>
    requires 0 < k <= |lots|
  {
    var lot := lots[k - 1];
    if quantity == lot.quantity then lots[k..]
    else [Lot(lot.quantity - quantity, lot.cost - cost, lot.commission - commission, lot.openedAt)] + lots[k..]
  }

  lemma SliceIsCut(lot: Lot, remaining: int, f: Fill, p: int, c: int)
    requires lot.quantity > 0 && f.quantity > 0 && remaining > 0
    ensures var s := TakeSlice(lot, remaining, f, p, c);
      && IsCut(s, lot) && (s.take < remaining ==> IsShare(s, f))
      && s.take == Min(remaining, lot.quantity)
  {
    var take := Min(remaining, lot.quantity);
    hide ProRata;
    ProRataIsNearest(lot.cost, take, lot.quantity);
    ProRataIsNearest(lot.commission, take, lot.quantity);
    ProRataIsNearest(f.notional, take, f.quantity);
    ProRataIsNearest(f.commission, take, f.quantity);
    WholeIsNearest(lot.cost, lot.quantity);
    WholeIsNearest(lot.commission, lot.quantity);
    hide NearestPart;
  }

  lemma WholeIsNearest(n: int, q: int)
    requires q > 0
    ensures NearestPart(n, n, q, q)
  {
  }

  lemma {:induction false} ConsumeCuts(lots: seq<Lot>, remaining: int, f: Fill, p: int, c: int)
    requires PositiveLots(lots) && 0 < remaining <= Held(lots) && 0 < f.quantity
    ensures var sale := Consume(lots, remaining, f, p, c);
      && AreCut(sale.slices, lots, f)
      && var k, last := |sale.slices|, sale.slices[|sale.slices| - 1];
      sale.lots == Remainder(lots, k, last.take, last.cost, last.buyCommission)
    decreases |lots|
  {
    hide Consume, TakeSlice, IsCut, IsShare, Held, NearestPart, Shrink;
    ConsumeUnfolds(lots, remaining, f, p, c);
    SliceIsCut(lots[0], remaining, f, p, c);
    CutIsWithin(lots[0], remaining, f, p, c);
    var s := TakeSlice(lots[0], remaining, f, p, c);
    if s.take == lots[0].quantity {
      if s.take < remaining {
        ConsumeCuts(lots[1..], remaining - s.take, f, p - s.proceeds, c - s.sellCommission);
        var rest := Consume(lots[1..], remaining - s.take, f, p - s.proceeds, c - s.sellCommission);
        CutsJoin(s, rest.slices, lots, f);
        var last := rest.slices[|rest.slices| - 1];
        RemainderOfTail(lots, |rest.slices|, last.take, last.cost, last.buyCommission);
      } else {
        ConsumeUnfolds(lots[1..], 0, f, p - s.proceeds, c - s.sellCommission);
      }
    }
  }

  lemma CutIsWithin(lot: Lot, remaining: int, f: Fill, p: int, c: int)
    requires lot.quantity > 0 && f.quantity > 0 && remaining > 0
    ensures var s := TakeSlice(lot, remaining, f, p, c);
      && 0 < s.take <= lot.quantity
      && Shrink(lot, s) == Lot(lot.quantity - s.take, lot.cost - s.cost, lot.commission - s.buyCommission, lot.openedAt)
  {
    hide ProRata;
  }

  lemma CutsJoin(s: Slice, rest: seq<Slice>, lots: seq<Lot>, f: Fill)
    requires lots != [] && AreCut(rest, lots[1..], f) && IsCut(s, lots[0]) && IsShare(s, f)
    requires s.take == lots[0].quantity
    ensures AreCut([s] + rest, lots, f)
  {
    hide IsCut, IsShare;
  }

  lemma RemainderOfTail(lots: seq<Lot>, k: int, quantity: int, cost: int, commission: int)
    requires 0 < k < |lots|
    ensures Remainder(lots[1..], k, quantity, cost, commission) == Remainder(lots, k + 1, quantity, cost, commission)
  {
    assert lots[1..][k..] == lots[k + 1..];
  }

  // A round trip of a sale: when, how many, and at what cost its lot was sold; `bought` is
  // the buy commission it carries and `paid` the sell commission.
  predicate IsTrip(t: RoundTrip, f: Fill, lot: Lot, bought: int, paid: int) {
    && t.symbol == f.symbol && t.entryTime == lot.openedAt && t.exitTime == f.time
    && 0 < t.quantity <= lot.quantity
    && NearestPart(t.cost, lot.cost, t.quantity, lot.quantity)
    && NearestPart(bought, lot.commission, t.quantity, lot.quantity)
    && (t.quantity == lot.quantity ==> t.cost == lot.cost && bought == lot.commission)
    && t.commissions == bought + paid
    && t.pnl == t.proceeds - t.cost - t.commissions
  }

  function TripTotals(trips: seq<RoundTrip>): (int, int, int) {
    if trips == [] then (0, 0, 0)
    else
      var t, rest := trips[0], TripTotals(trips[1..]);
      (t.quantity + rest.0, t.proceeds + rest.1, t.cost + rest.2)
  }

  function Total(xs: seq<int>): int {
    if xs == [] then 0 else xs[0] + Total(xs[1..])
  }

  // A real sale, from the ledger before it to the ledger after it: one round trip for each
  // of the oldest lots sold from, all of them whole but the last.
  ghost predicate IsSale(l: Ledger, f: Fill, n: Ledger, trips: seq<RoundTrip>, bought: seq<int>, paid: seq<int>) {
    var lots, k := l.LotsOf(f.symbol), |trips|;
    && 0 < k <= |lots| && |bought| == k && |paid| == k
    && n.roundTrips == l.roundTrips + trips
    && (forall i :: 0 <= i < k ==> IsTrip(trips[i], f, lots[i], bought[i], paid[i]))
    && (forall i :: 0 <= i < k - 1 ==>
          && trips[i].quantity == lots[i].quantity
          && NearestPart(trips[i].proceeds, f.notional, trips[i].quantity, f.quantity)
          && NearestPart(paid[i], f.commission, trips[i].quantity, f.quantity))
    && TripTotals(trips).0 == f.quantity && TripTotals(trips).1 == f.notional && Total(paid) == f.commission
    && n.lots == l.lots[f.symbol := Remainder(lots, k, trips[k - 1].quantity, trips[k - 1].cost, bought[k - 1])]
    && n.realizedPnl == l.realizedPnl + f.notional - TripTotals(trips).2
    && n.cash == l.cash + f.notional - f.commission
  }

  function BoughtOf(slices: seq<Slice>): seq<int> {
    seq(|slices|, i requires 0 <= i < |slices| => slices[i].buyCommission)
  }

  function PaidOf(slices: seq<Slice>): seq<int> {
    seq(|slices|, i requires 0 <= i < |slices| => slices[i].sellCommission)
  }

  lemma {:induction false} SumsOfSlices(f: Fill, slices: seq<Slice>)
    ensures var sum, trips := SumSlices(slices), TripTotals(TripsOf(f, slices));
      trips.1 == sum.proceeds && trips.2 == sum.cost && Total(PaidOf(slices)) == sum.sellCommission
  {
    if slices != [] {
      assert TripsOf(f, slices)[1..] == TripsOf(f, slices[1..]);
      assert PaidOf(slices)[1..] == PaidOf(slices[1..]);
      SumsOfSlices(f, slices[1..]);
    }
  }

  lemma {:induction false} TakesAddUp(lots: seq<Lot>, remaining: int, f: Fill, p: int, c: int)
    requires PositiveLots(lots) && 0 <= remaining <= Held(lots) && 0 < f.quantity
    ensures TripTotals(TripsOf(f, Consume(lots, remaining, f, p, c).slices)).0 == remaining
    decreases |lots|
  {
    hide Consume, TakeSlice;
    ConsumeUnfolds(lots, remaining, f, p, c);
    if remaining > 0 {
      var s := TakeSlice(lots[0], remaining, f, p, c);
      if s.take == lots[0].quantity {
        TakesAddUp(lots[1..], remaining - s.take, f, p - s.proceeds, c - s.sellCommission);
        var rest := Consume(lots[1..], remaining - s.take, f, p - s.proceeds, c - s.sellCommission).slices;
        assert TripsOf(f, [s] + rest)[1..] == TripsOf(f, rest);
      } else {
        assert TripsOf(f, [s])[1..] == [];
      }
    }
  }

  lemma SaleIsExact(l: Ledger, f: Fill) returns (trips: seq<RoundTrip>, bought: seq<int>, paid: seq<int>)
    requires PositiveLots(l.LotsOf(f.symbol)) && 0 < f.quantity <= l.Quantity(f.symbol)
    ensures IsSale(l, f, SellFill(l, f), trips, bought, paid)
  {
    hide Consume, NearestPart, Remainder, Held, TripTotals, Total, Realized, SumSlices;
    var lots := l.LotsOf(f.symbol);
    ConsumeCuts(lots, f.quantity, f, f.notional, f.commission);
    TakesAddUp(lots, f.quantity, f, f.notional, f.commission);
    ProceedsAreConserved(lots, f.quantity, f, f.notional, f.commission);
    var slices := Consume(lots, f.quantity, f, f.notional, f.commission).slices;
    SumsOfSlices(f, slices);
    trips, bought, paid := TripsOf(f, slices), BoughtOf(slices), PaidOf(slices);
  }

  // An accepted fill is booked in full: a buy as a lot of its own, a sale lot by lot, and
  // either on the record.
  lemma AppliedIsExact(l: Ledger, f: Fill, implicitCost: int)
    returns (trips: seq<RoundTrip>, bought: seq<int>, paid: seq<int>)
    requires Positive(l) && Apply(l, f, implicitCost).error.None?
    ensures var n := Apply(l, f, implicitCost).ledger;
      && n.initialCash == l.initialCash && n.interest == l.interest
      && n.fills == l.fills + [f]
      && n.commissions == l.commissions + f.commission
      && n.implicitCosts == l.implicitCosts + implicitCost
      && (f.side == Sell ==> IsSale(l, f, n, trips, bought, paid))
      && (f.side == Buy ==>
            && n.cash == l.cash - f.notional - f.commission
            && n.realizedPnl == l.realizedPnl && n.roundTrips == l.roundTrips
            && n.lots == l.lots[f.symbol := l.LotsOf(f.symbol) + [Lot(f.quantity, f.notional, f.commission, f.time)]])
  {
    hide Consume, IsTrip, Remainder, TripTotals, Total, Held, NearestPart;
    trips, bought, paid := [], [], [];
    if f.side == Sell {
      trips, bought, paid := SaleIsExact(l, f);
    }
  }
}
