// What the ledger promises (module docstring of portfolio.py) over every sequence of
// fills and interest accruals, accepted or refused.
module LedgerLaws {
  import opened Wrappers
  import opened Errors
  import opened Rounding
  import opened Costs
  import opened Ledgers

  // ------------------------------------------------------------ the plain queue

  // The queue a symbol's lots stand for: one entry per lot step, oldest first, each
  // carrying the time it was bought.
  function Repeat(time: int, n: int): (u: seq<int>)
    ensures |u| == if n < 0 then 0 else n
  {
    if n <= 0 then [] else seq(n, _ => time)
  }

  function Units(lots: seq<Lot>): seq<int> {
    if lots == [] then [] else Repeat(lots[0].openedAt, lots[0].quantity) + Units(lots[1..])
  }

  function SliceUnits(slices: seq<Slice>): seq<int> {
    if slices == [] then [] else Repeat(slices[0].openedAt, slices[0].take) + SliceUnits(slices[1..])
  }

  function SoldUnits(trips: seq<RoundTrip>, symbol: string): seq<int> {
    if trips == [] then []
    else
      var t := trips[|trips| - 1];
      SoldUnits(trips[..|trips| - 1], symbol) + (if t.symbol == symbol then Repeat(t.entryTime, t.quantity) else [])
  }

  function BoughtUnits(fills: seq<Fill>, symbol: string): seq<int> {
    if fills == [] then []
    else
      var f := fills[|fills| - 1];
      BoughtUnits(fills[..|fills| - 1], symbol)
      + (if f.side == Buy && f.symbol == symbol then Repeat(f.time, f.quantity) else [])
  }

  lemma {:induction false} UnitsCountHeld(lots: seq<Lot>)
    requires PositiveLots(lots)
    ensures |Units(lots)| == Held(lots)
  {
    if lots != [] {
      UnitsCountHeld(lots[1..]);
    }
  }

  lemma {:induction false} UnitsOfAppended(lots: seq<Lot>, lot: Lot)
    ensures Units(lots + [lot]) == Units(lots) + Repeat(lot.openedAt, lot.quantity)
  {
    if lots == [] {
      assert Units([lot]) == Repeat(lot.openedAt, lot.quantity) + Units([]);
    } else {
      assert (lots + [lot])[1..] == lots[1..] + [lot];
      UnitsOfAppended(lots[1..], lot);
    }
  }

  lemma RepeatSplits(time: int, m: int, n: int)
    requires 0 <= m <= n
    ensures Repeat(time, m) + Repeat(time, n - m) == Repeat(time, n)
  {
  }

  lemma UnitsOfFront(lot: Lot, tail: seq<Lot>)
    ensures Units([lot] + tail) == Repeat(lot.openedAt, lot.quantity) + Units(tail)
  {
    assert ([lot] + tail)[1..] == tail;
  }

  lemma SliceUnitsOfFront(s: Slice, tail: seq<Slice>)
    ensures SliceUnits([s] + tail) == Repeat(s.openedAt, s.take) + SliceUnits(tail)
  {
    assert ([s] + tail)[1..] == tail;
  }

  lemma Regroup(a: seq<int>, b: seq<int>, c: seq<int>)
    ensures (a + b) + c == a + (b + c)
  {
  }

  // The slices are the oldest `n` units of `lots`, and `left` is the rest, in order.
  ghost predicate IsQueueCut(slices: seq<Slice>, left: seq<Lot>, lots: seq<Lot>, n: int) {
    SliceUnits(slices) + Units(left) == Units(lots) && |SliceUnits(slices)| == n
  }

  lemma NothingCut(lots: seq<Lot>)
    ensures IsQueueCut([], lots, lots, 0)
  {
    assert [] + Units(lots) == Units(lots);
  }

  lemma CutFront(lot: Lot, left: Lot, s: Slice, tail: seq<Lot>)
    requires s.openedAt == lot.openedAt == left.openedAt
    requires 0 <= s.take <= lot.quantity && left.quantity == lot.quantity - s.take
    ensures IsQueueCut([s], [left] + tail, [lot] + tail, s.take)
  {
    RepeatSplits(lot.openedAt, s.take, lot.quantity);
    UnitsOfFront(left, tail);
    UnitsOfFront(lot, tail);
    SliceUnitsOfFront(s, []);
    assert [s] + [] == [s];
    Regroup(Repeat(s.openedAt, s.take), Repeat(left.openedAt, left.quantity), Units(tail));
  }

  lemma TakeFront(lot: Lot, s: Slice, tail: seq<Lot>, rest: Sale, n: int)
    requires s.openedAt == lot.openedAt && 0 <= s.take == lot.quantity
    requires IsQueueCut(rest.slices, rest.lots, tail, n)
    ensures IsQueueCut([s] + rest.slices, rest.lots, [lot] + tail, s.take + n)
  {
    UnitsOfFront(lot, tail);
    SliceUnitsOfFront(s, rest.slices);
    Regroup(Repeat(s.openedAt, s.take), SliceUnits(rest.slices), Units(rest.lots));
  }

  // One pass of the sell loop, in the terms the proofs below need.
  lemma ConsumeUnfolds(lots: seq<Lot>, remaining: int, f: Fill, p: int, c: int)
    requires PositiveLots(lots) && 0 <= remaining <= Held(lots) && 0 < f.quantity
    ensures remaining == 0 ==> Consume(lots, remaining, f, p, c) == Sale(lots, [])
    ensures remaining > 0 ==>
      && lots != []
      && var lot, tail := lots[0], lots[1..];
      && lots == [lot] + tail && PositiveLots(tail)
      && var s := TakeSlice(lot, remaining, f, p, c);
      && s.openedAt == lot.openedAt && 0 < s.take == Min(remaining, lot.quantity) <= lot.quantity
      && Shrink(lot, s).quantity == lot.quantity - s.take && Shrink(lot, s).openedAt == lot.openedAt
      && (s.take == remaining ==> s.proceeds == p && s.sellCommission == c)
      && 0 <= remaining - s.take
      && (s.take < lot.quantity ==> Consume(lots, remaining, f, p, c) == Sale([Shrink(lot, s)] + tail, [s]))
      && (s.take == lot.quantity ==>
            && s.cost == lot.cost && s.buyCommission == lot.commission
            && remaining - s.take <= Held(tail)
            && var rest := Consume(tail, remaining - s.take, f, p - s.proceeds, c - s.sellCommission);
            && (remaining == s.take ==> rest.slices == [])
            && Consume(lots, remaining, f, p, c) == Sale(rest.lots, [s] + rest.slices))
  {
    hide ProRata;
  }

  // A sale removes exactly the oldest `remaining` units and leaves the rest in order.
  lemma {:induction false} ConsumeIsQueue(lots: seq<Lot>, remaining: int, f: Fill, p: int, c: int)
    requires PositiveLots(lots) && 0 <= remaining <= Held(lots) && 0 < f.quantity
    ensures var sale := Consume(lots, remaining, f, p, c);
      IsQueueCut(sale.slices, sale.lots, lots, remaining)
    decreases |lots|
  {
    hide Consume, TakeSlice, IsQueueCut;
    ConsumeUnfolds(lots, remaining, f, p, c);
    if remaining == 0 {
      NothingCut(lots);
    } else {
      var lot, tail := lots[0], lots[1..];
      var s := TakeSlice(lot, remaining, f, p, c);
      if s.take < lot.quantity {
        CutFront(lot, Shrink(lot, s), s, tail);
      } else {
        ConsumeIsQueue(tail, remaining - s.take, f, p - s.proceeds, c - s.sellCommission);
        TakeFront(lot, s, tail, Consume(tail, remaining - s.take, f, p - s.proceeds, c - s.sellCommission),
          remaining - s.take);
      }
    }
  }

  lemma {:induction false} ConsumeKeepsPositive(lots: seq<Lot>, remaining: int, f: Fill, p: int, c: int)
    requires PositiveLots(lots) && 0 <= remaining <= Held(lots) && 0 < f.quantity
    ensures var sale := Consume(lots, remaining, f, p, c);
      && PositiveLots(sale.lots)
      && (forall k :: 0 <= k < |sale.slices| ==> 0 < sale.slices[k].take)
    decreases |lots|
  {
    hide Consume, TakeSlice;
    ConsumeUnfolds(lots, remaining, f, p, c);
    if remaining != 0 {
      var lot, tail := lots[0], lots[1..];
      var s := TakeSlice(lot, remaining, f, p, c);
      if s.take == lot.quantity {
        ConsumeKeepsPositive(tail, remaining - s.take, f, p - s.proceeds, c - s.sellCommission);
      }
    }
  }

  lemma {:induction false} SoldUnitsOfTrips(trips: seq<RoundTrip>, f: Fill, slices: seq<Slice>, symbol: string)
    ensures SoldUnits(trips + TripsOf(f, slices), symbol)
         == SoldUnits(trips, symbol) + (if f.symbol == symbol then SliceUnits(slices) else [])
    decreases |slices|
  {
    if slices == [] {
      assert trips + TripsOf(f, slices) == trips;
    } else {
      var one := trips + [TripOf(f, slices[0])];
      assert trips + TripsOf(f, slices) == one + TripsOf(f, slices[1..]);
      assert one[..|one| - 1] == trips;
      SoldUnitsOfTrips(one, f, slices[1..], symbol);
    }
  }

  // ------------------------------------------------------------ sums over a sale

  datatype SliceSums = SliceSums(cost: int, buyCommission: int, proceeds: int, sellCommission: int)

  function SumSlices(slices: seq<Slice>): SliceSums {
    if slices == [] then SliceSums(0, 0, 0, 0)
    else
      var rest := SumSlices(slices[1..]);
      SliceSums(slices[0].cost + rest.cost, slices[0].buyCommission + rest.buyCommission,
                slices[0].proceeds + rest.proceeds, slices[0].sellCommission + rest.sellCommission)
  }

  lemma SumsOfFront(lot: Lot, tail: seq<Lot>, s: Slice, rest: seq<Slice>)
    ensures CostBasis([lot] + tail) == lot.cost + CostBasis(tail)
    ensures OpenCommission([lot] + tail) == lot.commission + OpenCommission(tail)
    ensures SumSlices([s] + rest).cost == s.cost + SumSlices(rest).cost
    ensures SumSlices([s] + rest).buyCommission == s.buyCommission + SumSlices(rest).buyCommission
    ensures SumSlices([s] + rest).proceeds == s.proceeds + SumSlices(rest).proceeds
    ensures SumSlices([s] + rest).sellCommission == s.sellCommission + SumSlices(rest).sellCommission
    ensures Realized([s] + rest) == s.proceeds - s.cost + Realized(rest)
  {
    assert ([lot] + tail)[1..] == tail && ([s] + rest)[1..] == rest;
  }

  // Nothing is lost to rounding: the slices and the lots left behind add up to the lots
  // before ...
  lemma {:induction false} CostIsConserved(lots: seq<Lot>, remaining: int, f: Fill, p: int, c: int)
    requires PositiveLots(lots) && 0 <= remaining <= Held(lots) && 0 < f.quantity
    ensures var sale := Consume(lots, remaining, f, p, c);
      SumSlices(sale.slices).cost + CostBasis(sale.lots) == CostBasis(lots)
    decreases |lots|
  {
    hide Consume, TakeSlice;
    ConsumeUnfolds(lots, remaining, f, p, c);
    if remaining != 0 {
      var lot, tail := lots[0], lots[1..];
      var s := TakeSlice(lot, remaining, f, p, c);
      SumsOfFront(lot, tail, s, []);
      assert [s] + [] == [s];
      if s.take < lot.quantity {
        SumsOfFront(Shrink(lot, s), tail, s, []);
      } else {
        CostIsConserved(tail, remaining - s.take, f, p - s.proceeds, c - s.sellCommission);
        SumsOfFront(lot, tail, s, Consume(tail, remaining - s.take, f, p - s.proceeds, c - s.sellCommission).slices);
      }
    }
  }

  lemma {:induction false} BuyCommissionIsConserved(lots: seq<Lot>, remaining: int, f: Fill, p: int, c: int)
    requires PositiveLots(lots) && 0 <= remaining <= Held(lots) && 0 < f.quantity
    ensures var sale := Consume(lots, remaining, f, p, c);
      SumSlices(sale.slices).buyCommission + OpenCommission(sale.lots) == OpenCommission(lots)
    decreases |lots|
  {
    hide Consume, TakeSlice;
    ConsumeUnfolds(lots, remaining, f, p, c);
    if remaining != 0 {
      var lot, tail := lots[0], lots[1..];
      var s := TakeSlice(lot, remaining, f, p, c);
      SumsOfFront(lot, tail, s, []);
      assert [s] + [] == [s];
      if s.take < lot.quantity {
        SumsOfFront(Shrink(lot, s), tail, s, []);
      } else {
        BuyCommissionIsConserved(tail, remaining - s.take, f, p - s.proceeds, c - s.sellCommission);
        SumsOfFront(lot, tail, s, Consume(tail, remaining - s.take, f, p - s.proceeds, c - s.sellCommission).slices);
      }
    }
  }

  // ... and the slices' proceeds and commissions add up to the fill's.
  lemma {:induction false} ProceedsAreConserved(lots: seq<Lot>, remaining: int, f: Fill, p: int, c: int)
    requires PositiveLots(lots) && 0 <= remaining <= Held(lots) && 0 < f.quantity
    ensures var sale := Consume(lots, remaining, f, p, c);
      && (remaining > 0 ==> SumSlices(sale.slices).proceeds == p && SumSlices(sale.slices).sellCommission == c)
      && Realized(sale.slices) == SumSlices(sale.slices).proceeds - SumSlices(sale.slices).cost
    decreases |lots|
  {
    hide Consume, TakeSlice;
    ConsumeUnfolds(lots, remaining, f, p, c);
    if remaining != 0 {
      var lot, tail := lots[0], lots[1..];
      var s := TakeSlice(lot, remaining, f, p, c);
      SumsOfFront(lot, tail, s, []);
      assert [s] + [] == [s];
      if s.take < lot.quantity {
        SumsOfFront(Shrink(lot, s), tail, s, []);
      } else {
        ProceedsAreConserved(tail, remaining - s.take, f, p - s.proceeds, c - s.sellCommission);
        SumsOfFront(lot, tail, s, Consume(tail, remaining - s.take, f, p - s.proceeds, c - s.sellCommission).slices);
      }
    }
  }

  datatype TripSums = TripSums(proceeds: int, commissions: int, pnl: int)

  function SumTrips(trips: seq<RoundTrip>): TripSums {
    if trips == [] then TripSums(0, 0, 0)
    else
      var rest, t := SumTrips(trips[..|trips| - 1]), trips[|trips| - 1];
      TripSums(rest.proceeds + t.proceeds, rest.commissions + t.commissions, rest.pnl + t.pnl)
  }

  lemma {:induction false} SumTripsOfSale(trips: seq<RoundTrip>, f: Fill, slices: seq<Slice>)
    ensures var sum, before := SumSlices(slices), SumTrips(trips);
      var after := SumTrips(trips + TripsOf(f, slices));
      && after.proceeds == before.proceeds + sum.proceeds
      && after.commissions == before.commissions + sum.buyCommission + sum.sellCommission
      && after.pnl == before.pnl + sum.proceeds - sum.cost - sum.buyCommission - sum.sellCommission
    decreases |slices|
  {
    if slices == [] {
      assert trips + TripsOf(f, slices) == trips;
    } else {
      var one := trips + [TripOf(f, slices[0])];
      assert trips + TripsOf(f, slices) == one + TripsOf(f, slices[1..]);
      assert one[..|one| - 1] == trips;
      SumTripsOfSale(one, f, slices[1..]);
    }
  }

  // ------------------------------------------------------------ rounding bounds

  // `x` is within `halves` half cents of the pro-rata part n * take / q.
  predicate NearPart(x: int, n: int, take: int, q: int, halves: int) {
    -halves * q <= 2 * (x * q - n * take) <= halves * q
  }

  lemma PartIsNear(n: int, take: int, q: int)
    requires q > 0
    ensures NearPart(ProRata(n, take, q), n, take, q, 1)
  {
    ProRataError(n, take, q);
  }

  lemma RestIsNear(p: int, x: int, n: int, remaining: int, take: int, q: int, done: int)
    requires NearPart(p, n, remaining, q, done) && NearPart(x, n, take, q, 1)
    ensures NearPart(p - x, n, remaining - take, q, done + 1)
  {
    assert (p - x) * q - n * (remaining - take) == (p * q - n * remaining) - (x * q - n * take);
  }

  lemma SliceIsPart(lot: Lot, remaining: int, f: Fill, p: int, c: int)
    requires lot.quantity > 0 && f.quantity > 0
    ensures var s := TakeSlice(lot, remaining, f, p, c);
      s.take < remaining ==>
        && s.proceeds == ProRata(f.notional, s.take, f.quantity)
        && s.sellCommission == ProRata(f.commission, s.take, f.quantity)
  {
    hide ProRata;
  }

  predicate SliceNear(f: Fill, s: Slice, halves: int) {
    && NearPart(s.proceeds, f.notional, s.take, f.quantity, halves)
    && NearPart(s.sellCommission, f.commission, s.take, f.quantity, halves)
  }

  // Every slice but the last within half a cent, the last within `last` half cents.
  predicate SlicesNear(f: Fill, slices: seq<Slice>, last: int) {
    && slices != []
    && (forall i :: 0 <= i < |slices| - 1 ==> SliceNear(f, slices[i], 1))
    && SliceNear(f, slices[|slices| - 1], last)
  }

  lemma NearFront(f: Fill, s: Slice, rest: seq<Slice>, last: int)
    requires SliceNear(f, s, 1) && SlicesNear(f, rest, last)
    ensures SlicesNear(f, [s] + rest, last)
  {
    hide SliceNear;
  }

  lemma CutIsNear(lot: Lot, remaining: int, f: Fill, p: int, c: int, done: int)
    requires lot.quantity > 0 && f.quantity > 0
    requires NearPart(p, f.notional, remaining, f.quantity, done)
      && NearPart(c, f.commission, remaining, f.quantity, done)
    ensures var s := TakeSlice(lot, remaining, f, p, c);
      if s.take < remaining then
        && SliceNear(f, s, 1)
        && NearPart(p - s.proceeds, f.notional, remaining - s.take, f.quantity, done + 1)
        && NearPart(c - s.sellCommission, f.commission, remaining - s.take, f.quantity, done + 1)
      else SliceNear(f, s, done)
  {
    hide NearPart;
    var s := TakeSlice(lot, remaining, f, p, c);
    if s.take < remaining {
      SliceIsPart(lot, remaining, f, p, c);
      PartIsNear(f.notional, s.take, f.quantity);
      PartIsNear(f.commission, s.take, f.quantity);
      RestIsNear(p, s.proceeds, f.notional, remaining, s.take, f.quantity, done);
      RestIsNear(c, s.sellCommission, f.commission, remaining, s.take, f.quantity, done);
    }
    hide ProRata;
  }

  // Slice by slice: proceeds and commission of every slice but the last are within half a
  // cent of their pro-rata part, and the last is off by at most half a cent for each of
  // the others. `done` counts slices already cut and bounds the error they left behind.
  lemma {:induction false} SlicesAreProRata(lots: seq<Lot>, remaining: int, f: Fill, p: int, c: int, done: int)
    requires PositiveLots(lots) && 0 < remaining <= Held(lots) && 0 < f.quantity
    requires NearPart(p, f.notional, remaining, f.quantity, done)
      && NearPart(c, f.commission, remaining, f.quantity, done)
    ensures var slices := Consume(lots, remaining, f, p, c).slices;
      SlicesNear(f, slices, done + |slices| - 1)
    decreases |lots|
  {
    hide Consume, TakeSlice, NearPart, SliceNear;
    ConsumeUnfolds(lots, remaining, f, p, c);
    CutIsNear(lots[0], remaining, f, p, c, done);
    var s := TakeSlice(lots[0], remaining, f, p, c);
    if s.take < remaining {
      SlicesAreProRata(lots[1..], remaining - s.take, f, p - s.proceeds, c - s.sellCommission, done + 1);
      var rest := Consume(lots[1..], remaining - s.take, f, p - s.proceeds, c - s.sellCommission).slices;
      NearFront(f, s, rest, done + |rest|);
    } else {
      assert Consume(lots, remaining, f, p, c).slices == [s];
    }
  }

  // A real sale, from its start: nothing is cut yet and the pool is the fill's notional.
  // The round trips it adds get their proceeds pro rata to half a cent each, the last to
  // half a cent for each of the others, and the sell commissions likewise.
  lemma SaleIsProRata(l: Ledger, f: Fill)
    requires PositiveLots(l.LotsOf(f.symbol)) && 0 < f.quantity <= l.Quantity(f.symbol)
    ensures var slices := Consume(l.LotsOf(f.symbol), f.quantity, f, f.notional, f.commission).slices;
      var trips := SellFill(l, f).roundTrips[|l.roundTrips|..];
      && |trips| == |slices| > 0 && SlicesNear(f, slices, |slices| - 1)
      && (forall i :: 0 <= i < |trips| ==>
            trips[i].proceeds == slices[i].proceeds && trips[i].quantity == slices[i].take
            && trips[i].commissions == slices[i].buyCommission + slices[i].sellCommission)
      && (forall i :: 0 <= i < |trips| ==>
            NearPart(trips[i].proceeds, f.notional, trips[i].quantity, f.quantity,
                     if i < |trips| - 1 then 1 else |trips| - 1))
  {
    var lots := l.LotsOf(f.symbol);
    WholeIsNear(f.notional, f.quantity);
    WholeIsNear(f.commission, f.quantity);
    hide NearPart, Consume;
    SlicesAreProRata(lots, f.quantity, f, f.notional, f.commission, 0);
    var slices := Consume(lots, f.quantity, f, f.notional, f.commission).slices;
    assert SellFill(l, f).roundTrips[|l.roundTrips|..] == TripsOf(f, slices);
    assert SliceNear(f, slices[|slices| - 1], |slices| - 1);
  }

  lemma WholeIsNear(n: int, q: int)
    ensures NearPart(n, n, q, q, 0)
  {
  }

  // What a sale leaves behind: the untouched tail, whose first lot may have been cut
  // with cost and commission staying between zero and what they were.
  ghost predicate LeftBehind(lots: seq<Lot>, after: seq<Lot>) {
    |after| <= |lots|
    && var gone := |lots| - |after|;
      && (after != [] ==>
            var was, now := lots[gone], after[0];
            && now.openedAt == was.openedAt
            && 0 < now.quantity <= was.quantity
            && 0 <= now.cost <= was.cost
            && 0 <= now.commission <= was.commission)
      && (forall k :: 1 <= k < |after| ==> after[k] == lots[gone + k])
  }

  lemma {:induction false} SaleLeavesFundedLots(lots: seq<Lot>, remaining: int, f: Fill, p: int, c: int)
    requires PositiveLots(lots) && FundedLots(lots) && 0 <= remaining <= Held(lots) && 0 < f.quantity
    ensures LeftBehind(lots, Consume(lots, remaining, f, p, c).lots)
    ensures FundedLots(Consume(lots, remaining, f, p, c).lots)
    decreases |lots|
  {
    if remaining != 0 {
      var s := TakeSlice(lots[0], remaining, f, p, c);
      if s.take < lots[0].quantity {
        ProRataBetween(lots[0].cost, s.take, lots[0].quantity);
        ProRataBetween(lots[0].commission, s.take, lots[0].quantity);
      } else {
        SaleLeavesFundedLots(lots[1..], remaining - s.take, f, p - s.proceeds, c - s.sellCommission);
      }
    }
  }

  // The last slice absorbs every rounding error. It is not negative, though, when its exact
  // share of the proceeds is above (k - 3) / 2 cents, k being the number of slices; when
  // three lots or fewer are sold from, any proceeds are enough.
  lemma LastSliceIsNotNegative(l: Ledger, f: Fill)
    requires PositiveLots(l.LotsOf(f.symbol)) && 0 < f.quantity <= l.Quantity(f.symbol) && 0 <= f.notional
    ensures var trips := SellFill(l, f).roundTrips[|l.roundTrips|..];
      && |trips| > 0
      && var k, last := |trips|, trips[|trips| - 1];
      && (forall i :: 0 <= i < k - 1 ==> trips[i].proceeds >= 0)
      && (2 * f.notional * last.quantity > (k - 3) * f.quantity ==> last.proceeds >= 0)
      && (k <= 2 || (k <= 3 && f.notional > 0) ==> last.proceeds >= 0)
  {
    var lots := l.LotsOf(f.symbol);
    SaleIsProRata(l, f);
    ConsumeKeepsPositive(lots, f.quantity, f, f.notional, f.commission);
    hide SellFill, Consume, NearPart, SlicesNear, Held;
    var trips := SellFill(l, f).roundTrips[|l.roundTrips|..];
    var k := |trips|;
    forall i | 0 <= i < k - 1 ensures trips[i].proceeds >= 0 {
      PartSign(trips[i].proceeds, f.notional, trips[i].quantity, f.quantity);
    }
    LastSign(trips[k - 1].proceeds, f.notional, trips[k - 1].quantity, f.quantity, k);
  }

  lemma PartSign(x: int, n: int, take: int, q: int)
    requires q > 0 && take > 0 && n >= 0 && NearPart(x, n, take, q, 1)
    ensures x >= 0
  {
    NegativeProduct(x, q);
    assert n * take >= 0;
  }

  lemma NegativeProduct(x: int, q: int)
    requires q > 0
    ensures x < 0 ==> x * q <= -q
  {
  }

  lemma LastSign(x: int, n: int, take: int, q: int, k: int)
    requires q > 0 && take > 0 && n >= 0 && NearPart(x, n, take, q, k - 1)
    ensures 2 * n * take > (k - 3) * q ==> x >= 0
    ensures k <= 2 || (k <= 3 && n > 0) ==> x >= 0
  {
    NegativeProduct(x, q);
    if k <= 2 || (k <= 3 && n > 0) {
      FewSlicesSuffice(n, take, q, k);
    }
  }

  lemma FewSlicesSuffice(n: int, take: int, q: int, k: int)
    requires q > 0 && take > 0 && n >= 0 && (k <= 2 || (k <= 3 && n > 0))
    ensures 2 * n * take > (k - 3) * q
  {
    assert n * take >= 0 && (n > 0 ==> n * take > 0);
  }

  // `n` lots of three units before one of `m`.
  predicate Threes(lots: seq<Lot>, n: nat, m: int) {
    |lots| == n + 1 && (forall i :: 0 <= i < n ==> lots[i].quantity == 3) && lots[n].quantity == m > 0
  }

  lemma {:induction false} ThreesHold(lots: seq<Lot>, n: nat, m: int)
    requires Threes(lots, n, m)
    ensures PositiveLots(lots) && Held(lots) == 3 * n + m
  {
    if n > 0 {
      ThreesHold(lots[1..], n - 1, m);
    } else {
      assert lots[1..] == [];
    }
  }

  // Sold from the front at two cents each, they leave the last lot what is left.
  lemma {:induction false} ThreesAreSold(lots: seq<Lot>, n: nat, m: int, f: Fill, p: int, c: int)
    requires Threes(lots, n, m) && f.quantity > 0 && ProRata(f.notional, 3, f.quantity) == 2
    requires PositiveLots(lots) && Held(lots) == 3 * n + m
    ensures var slices := Consume(lots, 3 * n + m, f, p, c).slices;
      |slices| == n + 1 && slices[n].proceeds == p - 2 * n && slices[n].take == m
    decreases n
  {
    hide Consume, TakeSlice, Held, ProRata, Shrink, PositiveLots;
    var q := 3 * n + m;
    var s := TakeSlice(lots[0], q, f, p, c);
    ConsumeUnfolds(lots, q, f, p, c);
    if n > 0 {
      SliceIsPart(lots[0], q, f, p, c);
      ThreesHold(lots[1..], n - 1, m);
      ThreesAreSold(lots[1..], n - 1, m, f, p - s.proceeds, c - s.sellCommission);
    }
  }

  // The threshold is exact: for every k of four or more there is a sale whose last slice has
  // just that share and gets minus one cent. With k of four, ten units sold for five cents
  // from lots of three, three, three and one pay 2, 2, 2 and -1.
  lemma LastSliceCanBeNegative(k: nat, l: Ledger, f: Fill)
    requires 4 <= k && Threes(l.LotsOf(f.symbol), k - 1, k - 3)
    requires f.quantity == 4 * k - 6 && f.notional == 2 * k - 3
    ensures PositiveLots(l.LotsOf(f.symbol)) && f.quantity == l.Quantity(f.symbol)
    ensures var trips := SellFill(l, f).roundTrips[|l.roundTrips|..];
      && |trips| == k
      && 2 * f.notional * trips[k - 1].quantity == (k - 3) * f.quantity
      && trips[k - 1].proceeds == -1
  {
    ThreesPay(k, l, f);
    hide SellFill, Held;
    ExactShare(f.notional, f.quantity, k);
  }

  lemma ThreesPay(k: nat, l: Ledger, f: Fill)
    requires 4 <= k && Threes(l.LotsOf(f.symbol), k - 1, k - 3)
    requires f.quantity == 4 * k - 6 && f.notional == 2 * k - 3
    ensures PositiveLots(l.LotsOf(f.symbol)) && f.quantity == l.Quantity(f.symbol)
    ensures var trips := SellFill(l, f).roundTrips[|l.roundTrips|..];
      |trips| == k && trips[k - 1].quantity == k - 3 && trips[k - 1].proceeds == -1
  {
    hide SellFill, Consume, NearPart, SlicesNear, Held, ProRata, Threes, PositiveLots;
    var lots := l.LotsOf(f.symbol);
    ThreesHold(lots, k - 1, k - 3);
    HalfOfThree(f.notional, f.quantity);
    SaleIsProRata(l, f);
    ThreesAreSold(lots, k - 1, k - 3, f, f.notional, f.commission);
    assert 3 * (k - 1) + (k - 3) == f.quantity;
  }

  lemma ExactShare(n: int, q: int, k: int)
    requires n == 2 * k - 3 && q == 4 * k - 6
    ensures 2 * n * (k - 3) == (k - 3) * q
  {
  }

  // Three units' share of half their number is one and a half.
  lemma HalfOfThree(n: int, q: int)
    requires q == 2 * n > 0
    ensures ProRata(n, 3, q) == 2
  {
    assert (n * 3) as real == 1.5 * q as real;
    assert (n * 3) as real / q as real == 1.5;
    RoundingIsUnique(1.5, 2);
  }

  // ------------------------------------------------------------ sums over symbols

  ghost function Sum(m: map<string, int>): int {
    if m == map[] then 0
    else
      var k :| k in m;
      m[k] + Sum(m - {k})
  }

  lemma {:induction false} SumPicksAny(m: map<string, int>, k: string)
    requires k in m
    ensures Sum(m) == m[k] + Sum(m - {k})
    decreases |m|
  {
    var j :| j in m && Sum(m) == m[j] + Sum(m - {j});
    if j != k {
      SumPicksAny(m - {j}, k);
      SumPicksAny(m - {k}, j);
      assert m - {j} - {k} == m - {k} - {j};
    }
  }

  lemma SumUpdated(m: map<string, int>, k: string, v: int)
    ensures Sum(m[k := v]) == Sum(m) - (if k in m then m[k] else 0) + v
  {
    SumPicksAny(m[k := v], k);
    assert m[k := v] - {k} == m - {k};
    if k in m {
      SumPicksAny(m, k);
    } else {
      assert m - {k} == m;
    }
  }

  // The part of a table a loop over its keys still has to visit.
  ghost function Among(m: map<string, int>, keys: set<string>): map<string, int> {
    map s | s in m && s in keys :: m[s]
  }

  lemma SumAmong(m: map<string, int>, keys: set<string>, k: string)
    requires k in keys
    ensures Sum(Among(m, keys)) == (if k in m then m[k] else 0) + Sum(Among(m, keys - {k}))
    ensures m.Keys <= keys ==> Among(m, keys) == m
  {
    if k in m {
      SumPicksAny(Among(m, keys), k);
      assert Among(m, keys) - {k} == Among(m, keys - {k});
    } else {
      assert Among(m, keys) == Among(m, keys - {k});
    }
  }

  ghost function CostsOf(lots: map<string, seq<Lot>>): map<string, int> {
    map s | s in lots :: CostBasis(lots[s])
  }

  ghost function CommissionsOf(lots: map<string, seq<Lot>>): map<string, int> {
    map s | s in lots :: OpenCommission(lots[s])
  }

  lemma CostsUpdated(lots: map<string, seq<Lot>>, symbol: string, now: seq<Lot>)
    ensures var was := if symbol in lots then lots[symbol] else [];
      Sum(CostsOf(lots[symbol := now])) == Sum(CostsOf(lots)) - CostBasis(was) + CostBasis(now)
  {
    hide Sum;
    assert CostsOf(lots[symbol := now]) == CostsOf(lots)[symbol := CostBasis(now)] by { hide CostBasis; }
    SumUpdated(CostsOf(lots), symbol, CostBasis(now));
  }

  lemma CommissionsUpdated(lots: map<string, seq<Lot>>, symbol: string, now: seq<Lot>)
    ensures var was := if symbol in lots then lots[symbol] else [];
      Sum(CommissionsOf(lots[symbol := now])) == Sum(CommissionsOf(lots)) - OpenCommission(was) + OpenCommission(now)
  {
    hide Sum;
    assert CommissionsOf(lots[symbol := now])
      == CommissionsOf(lots)[symbol := OpenCommission(now)] by { hide OpenCommission; }
    SumUpdated(CommissionsOf(lots), symbol, OpenCommission(now));
  }

  lemma BookUpdated(lots: map<string, seq<Lot>>, symbol: string, now: seq<Lot>)
    ensures var was := if symbol in lots then lots[symbol] else [];
      && Sum(CostsOf(lots[symbol := now])) == Sum(CostsOf(lots)) - CostBasis(was) + CostBasis(now)
      && Sum(CommissionsOf(lots[symbol := now])) == Sum(CommissionsOf(lots)) - OpenCommission(was) + OpenCommission(now)
  {
    CostsUpdated(lots, symbol, now);
    CommissionsUpdated(lots, symbol, now);
    hide Sum, CostsOf, CommissionsOf, CostBasis, OpenCommission;
  }

  // ------------------------------------------------------------ the laws

  // Cash moved by the fills alone.
  function CashFlow(fills: seq<Fill>): int {
    if fills == [] then 0
    else
      var f := fills[|fills| - 1];
      CashFlow(fills[..|fills| - 1])
      + (if f.side == Buy then -(f.notional + f.commission) else f.notional - f.commission)
  }

  function SaleProceeds(fills: seq<Fill>): int {
    if fills == [] then 0
    else
      var f := fills[|fills| - 1];
      SaleProceeds(fills[..|fills| - 1]) + (if f.side == Buy then 0 else f.notional)
  }

  function CommissionsPaid(fills: seq<Fill>): int {
    if fills == [] then 0
    else CommissionsPaid(fills[..|fills| - 1]) + fills[|fills| - 1].commission
  }

  // Cash is what the fills and the interest left of the initial cash.
  ghost predicate CashLaw(l: Ledger) {
    l.cash == l.initialCash + l.interest + CashFlow(l.fills)
  }

  // The ledger identity with market values cancelled on both sides.
  ghost predicate IdentityLaw(l: Ledger) {
    l.cash + Sum(CostsOf(l.lots)) == l.initialCash + l.realizedPnl - l.commissions + l.interest
  }

  // Every commission is in a closed round trip or in an open lot.
  ghost predicate CommissionLaw(l: Ledger) {
    && l.commissions == CommissionsPaid(l.fills)
    && l.commissions == SumTrips(l.roundTrips).commissions + Sum(CommissionsOf(l.lots))
  }

  // Round trips share out the sale proceeds and net to realized P&L less commissions.
  ghost predicate PnlLaw(l: Ledger) {
    && SumTrips(l.roundTrips).proceeds == SaleProceeds(l.fills)
    && SumTrips(l.roundTrips).pnl == l.realizedPnl - SumTrips(l.roundTrips).commissions
  }

  // First in, first out: units closed, in closing order, followed by units still held
  // are exactly the units bought, in buying order.
  ghost predicate FifoLaw(l: Ledger) {
    forall s :: SoldUnits(l.roundTrips, s) + Units(l.LotsOf(s)) == BoughtUnits(l.fills, s)
  }

  // Only real trades are on record.
  ghost predicate Sized(l: Ledger) {
    && (forall k :: 0 <= k < |l.fills| ==> 0 < l.fills[k].quantity)
    && (forall k :: 0 <= k < |l.roundTrips| ==> 0 < l.roundTrips[k].quantity)
  }

  ghost predicate Lawful(l: Ledger) {
    Positive(l) && Sized(l) && CashLaw(l) && IdentityLaw(l) && CommissionLaw(l) && PnlLaw(l) && FifoLaw(l)
  }

  lemma OpenIsLawful(initialCash: int)
    ensures Lawful(Open(initialCash))
  {
    var l := Open(initialCash);
    assert CostsOf(l.lots) == map[] && CommissionsOf(l.lots) == map[];
  }

  lemma LastOf<T>(s: seq<T>, x: T)
    ensures (s + [x])[..|s + [x]| - 1] == s
  {
  }

  lemma BuyKeepsSums(l: Ledger, f: Fill, implicitCost: int)
    requires Lawful(l) && f.side == Buy && f.quantity > 0
    ensures var n := Record(BuyFill(l, f), f, implicitCost);
      Positive(n) && Sized(n) && CashLaw(n) && IdentityLaw(n) && CommissionLaw(n) && PnlLaw(n)
  {
    var lot := Lot(f.quantity, f.notional, f.commission, f.time);
    SumsOfAppended(l.LotsOf(f.symbol), lot);
    BookUpdated(l.lots, f.symbol, l.LotsOf(f.symbol) + [lot]);
    LastOf(l.fills, f);
  }

  lemma BuyKeepsFifo(l: Ledger, f: Fill, implicitCost: int)
    requires Lawful(l) && f.side == Buy && f.quantity > 0
    ensures FifoLaw(Record(BuyFill(l, f), f, implicitCost))
  {
    var n := Record(BuyFill(l, f), f, implicitCost);
    var lot := Lot(f.quantity, f.notional, f.commission, f.time);
    LastOf(l.fills, f);
    forall s ensures SoldUnits(n.roundTrips, s) + Units(n.LotsOf(s)) == BoughtUnits(n.fills, s) {
      assert SoldUnits(l.roundTrips, s) + Units(l.LotsOf(s)) == BoughtUnits(l.fills, s);
      if s == f.symbol {
        UnitsOfAppended(l.LotsOf(s), lot);
        assert n.LotsOf(s) == l.LotsOf(s) + [lot];
        Regroup(SoldUnits(l.roundTrips, s), Units(l.LotsOf(s)), Repeat(f.time, f.quantity));
      } else {
        assert n.LotsOf(s) == l.LotsOf(s);
      }
    }
  }

  lemma SellKeepsSums(l: Ledger, f: Fill, implicitCost: int)
    requires Lawful(l) && f.side == Sell && 0 < f.quantity <= l.Quantity(f.symbol)
    ensures var n := Record(SellFill(l, f), f, implicitCost);
      Positive(n) && CashLaw(n) && IdentityLaw(n) && CommissionLaw(n) && PnlLaw(n)
  {
    var lots := l.LotsOf(f.symbol);
    var sale := Consume(lots, f.quantity, f, f.notional, f.commission);
    ConsumeKeepsPositive(lots, f.quantity, f, f.notional, f.commission);
    CostIsConserved(lots, f.quantity, f, f.notional, f.commission);
    BuyCommissionIsConserved(lots, f.quantity, f, f.notional, f.commission);
    ProceedsAreConserved(lots, f.quantity, f, f.notional, f.commission);
    BookUpdated(l.lots, f.symbol, sale.lots);
    SumTripsOfSale(l.roundTrips, f, sale.slices);
    LastOf(l.fills, f);
  }

  lemma SellKeepsSized(l: Ledger, f: Fill, implicitCost: int)
    requires Lawful(l) && f.side == Sell && 0 < f.quantity <= l.Quantity(f.symbol)
    ensures Sized(Record(SellFill(l, f), f, implicitCost))
  {
    ConsumeKeepsPositive(l.LotsOf(f.symbol), f.quantity, f, f.notional, f.commission);
  }

  lemma FifoShifts(sold: seq<int>, cut: seq<int>, left: seq<int>, units: seq<int>, bought: seq<int>)
    requires sold + units == bought && cut + left == units
    ensures (sold + cut) + left == bought
  {
    Regroup(sold, cut, left);
  }

  lemma SellKeepsFifo(l: Ledger, f: Fill, implicitCost: int)
    requires Lawful(l) && f.side == Sell && 0 < f.quantity <= l.Quantity(f.symbol)
    ensures FifoLaw(Record(SellFill(l, f), f, implicitCost))
  {
    forall s {
      SellKeepsFifoOf(l, f, implicitCost, s);
    }
    hide Consume, Record, SellFill, Units, SoldUnits, BoughtUnits;
  }

  lemma SellKeepsFifoOf(l: Ledger, f: Fill, implicitCost: int, s: string)
    requires Lawful(l) && f.side == Sell && 0 < f.quantity <= l.Quantity(f.symbol)
    ensures var n := Record(SellFill(l, f), f, implicitCost);
      SoldUnits(n.roundTrips, s) + Units(n.LotsOf(s)) == BoughtUnits(n.fills, s)
  {
    var n := Record(SellFill(l, f), f, implicitCost);
    var lots := l.LotsOf(f.symbol);
    var sale := Consume(lots, f.quantity, f, f.notional, f.commission);
    assert SoldUnits(l.roundTrips, s) + Units(l.LotsOf(s)) == BoughtUnits(l.fills, s);
    assert BoughtUnits(n.fills, s) == BoughtUnits(l.fills, s) by {
      LastOf(l.fills, f);
    }
    hide Consume, BoughtUnits, Units, SoldUnits, Sized, CashLaw, IdentityLaw, CommissionLaw, PnlLaw, FifoLaw;
    SoldUnitsOfTrips(l.roundTrips, f, sale.slices, s);
    if s == f.symbol {
      ConsumeIsQueue(lots, f.quantity, f, f.notional, f.commission);
      FifoShifts(SoldUnits(l.roundTrips, s), SliceUnits(sale.slices), Units(sale.lots), Units(lots),
        BoughtUnits(l.fills, s));
    } else {
      assert n.LotsOf(s) == l.LotsOf(s);
      assert SoldUnits(l.roundTrips, s) + [] == SoldUnits(l.roundTrips, s);
    }
  }

  // Every fill keeps every law, whether it is accepted, refused, or reported by the
  // final check.
  lemma ApplyKeepsLaws(l: Ledger, f: Fill, implicitCost: int)
    requires Lawful(l)
    ensures Lawful(Apply(l, f, implicitCost).ledger)
  {
    if Refusal(l, f).None? {
      if f.side == Buy {
        BuyKeepsSums(l, f, implicitCost);
        BuyKeepsFifo(l, f, implicitCost);
      } else {
        SellKeepsSums(l, f, implicitCost);
        SellKeepsSized(l, f, implicitCost);
        SellKeepsFifo(l, f, implicitCost);
      }
    }
  }

  datatype Operation = Trade(fill: Fill, implicitCost: int) | Interest(amount: real)

  function Perform(l: Ledger, op: Operation): Step
    requires Positive(l)
  {
    match op
    case Trade(f, implicitCost) => Apply(l, f, implicitCost)
    case Interest(amount) => Accrue(l, amount)
  }

  lemma InterestKeepsLaws(l: Ledger, amount: real)
    requires Lawful(l)
    ensures Lawful(Accrue(l, amount).ledger)
  {
    hide Apply, Sum, Units, SoldUnits, BoughtUnits;
  }

  lemma PerformKeepsLaws(l: Ledger, op: Operation)
    requires Lawful(l)
    ensures Lawful(Perform(l, op).ledger)
  {
    hide Apply;
    match op
    case Trade(f, implicitCost) => ApplyKeepsLaws(l, f, implicitCost);
    case Interest(amount) => InterestKeepsLaws(l, amount);
  }

  // A history of operations, each performed on whatever ledger the last one left.
  ghost predicate History(ledgers: seq<Ledger>, ops: seq<Operation>) {
    && |ledgers| == |ops| + 1
    && (forall i :: 0 <= i < |ops| ==> Positive(ledgers[i]) && ledgers[i + 1] == Perform(ledgers[i], ops[i]).ledger)
  }

  // The laws hold after every operation of every history.
  lemma {:induction false} LawsHoldForever(ledgers: seq<Ledger>, ops: seq<Operation>, initialCash: int, i: nat)
    requires History(ledgers, ops) && ledgers[0] == Open(initialCash)
    requires i < |ledgers|
    ensures Lawful(ledgers[i])
  {
    if i == 0 {
      OpenIsLawful(initialCash);
    } else {
      LawsHoldForever(ledgers, ops, initialCash, i - 1);
      PerformKeepsLaws(ledgers[i - 1], ops[i - 1]);
    }
  }

  // ------------------------------------------------------------ quantities

  function ClosedQuantity(trips: seq<RoundTrip>, symbol: string): int {
    if trips == [] then 0
    else
      var t := trips[|trips| - 1];
      ClosedQuantity(trips[..|trips| - 1], symbol) + (if t.symbol == symbol then t.quantity else 0)
  }

  function BoughtQuantity(fills: seq<Fill>, symbol: string): int {
    if fills == [] then 0
    else
      var f := fills[|fills| - 1];
      BoughtQuantity(fills[..|fills| - 1], symbol)
      + (if f.side == Buy && f.symbol == symbol then f.quantity else 0)
  }

  lemma {:induction false} UnitsCountClosed(trips: seq<RoundTrip>, symbol: string)
    requires forall k :: 0 <= k < |trips| ==> 0 < trips[k].quantity
    ensures |SoldUnits(trips, symbol)| == ClosedQuantity(trips, symbol)
  {
    if trips != [] {
      UnitsCountClosed(trips[..|trips| - 1], symbol);
    }
  }

  lemma {:induction false} UnitsCountBought(fills: seq<Fill>, symbol: string)
    requires forall k :: 0 <= k < |fills| ==> 0 < fills[k].quantity
    ensures |BoughtUnits(fills, symbol)| == BoughtQuantity(fills, symbol)
  {
    if fills != [] {
      UnitsCountBought(fills[..|fills| - 1], symbol);
    }
  }

  // Per symbol, what was bought is either closed or still held.
  lemma QuantityIsConserved(l: Ledger, symbol: string)
    requires Lawful(l)
    ensures BoughtQuantity(l.fills, symbol) == ClosedQuantity(l.roundTrips, symbol) + l.Quantity(symbol)
  {
    assert SoldUnits(l.roundTrips, symbol) + Units(l.LotsOf(symbol)) == BoughtUnits(l.fills, symbol);
    UnitsCountClosed(l.roundTrips, symbol);
    UnitsCountBought(l.fills, symbol);
    UnitsCountHeld(l.LotsOf(symbol));
  }

  // ------------------------------------------------------------ entry order

  predicate Ascending(u: seq<int>) {
    forall i, j :: 0 <= i < j < |u| ==> u[i] <= u[j]
  }

  predicate InTimeOrder(fills: seq<Fill>) {
    forall i, j :: 0 <= i < j < |fills| ==> fills[i].time <= fills[j].time
  }

  lemma AscendingAppend(u: seq<int>, t: int, n: int)
    requires Ascending(u) && forall x :: x in u ==> x <= t
    ensures Ascending(u + Repeat(t, n))
    ensures forall x :: x in u + Repeat(t, n) ==> x <= t
  {
    var w := u + Repeat(t, n);
    forall i, j | 0 <= i < j < |w| ensures w[i] <= w[j] {
      if j < |u| {
        assert w[i] == u[i] && w[j] == u[j];
      } else {
        assert w[j] == t;
        assert i < |u| ==> w[i] == u[i] && u[i] in u;
      }
    }
  }

  lemma {:induction false} BoughtInOrder(fills: seq<Fill>, symbol: string)
    requires InTimeOrder(fills)
    ensures Ascending(BoughtUnits(fills, symbol))
    ensures forall t :: t in BoughtUnits(fills, symbol) ==> fills != [] && t <= fills[|fills| - 1].time
  {
    if fills != [] {
      var head, last := fills[..|fills| - 1], fills[|fills| - 1];
      BoughtInOrder(head, symbol);
      assert forall t :: t in BoughtUnits(head, symbol) ==> t <= last.time;
      AscendingAppend(BoughtUnits(head, symbol), last.time, last.quantity);
    }
  }

  lemma {:induction false} EntryIsSold(trips: seq<RoundTrip>, i: nat)
    requires i < |trips| && 0 < trips[i].quantity
    ensures trips[i].entryTime in SoldUnits(trips, trips[i].symbol)
    decreases |trips|
  {
    var last := |trips| - 1;
    if i == last {
      var units := Repeat(trips[i].entryTime, trips[i].quantity);
      assert units[0] == trips[i].entryTime;
      assert trips[i].entryTime in units;
    } else {
      EntryIsSold(trips[..last], i);
    }
  }

  lemma AscendingPrefix(u: seq<int>, v: seq<int>)
    requires Ascending(u + v)
    ensures Ascending(u)
    ensures forall x, y :: x in u && y in v ==> x <= y
  {
    forall i, j | 0 <= i < j < |u| ensures u[i] <= u[j] {
      assert (u + v)[i] == u[i] && (u + v)[j] == u[j];
    }
    forall x, y | x in u && y in v ensures x <= y {
      var i :| 0 <= i < |u| && u[i] == x;
      var j :| 0 <= j < |v| && v[j] == y;
      assert (u + v)[i] == x && (u + v)[|u| + j] == y;
    }
  }

  lemma {:induction false} EntriesAscend(trips: seq<RoundTrip>, i: nat, j: nat)
    requires i < j < |trips| && trips[i].symbol == trips[j].symbol
    requires forall k :: 0 <= k < |trips| ==> 0 < trips[k].quantity
    requires Ascending(SoldUnits(trips, trips[j].symbol))
    ensures trips[i].entryTime <= trips[j].entryTime
    decreases |trips|
  {
    var last := |trips| - 1;
    var sym := trips[j].symbol;
    var head := trips[..last];
    var tail := if trips[last].symbol == sym then Repeat(trips[last].entryTime, trips[last].quantity) else [];
    AscendingPrefix(SoldUnits(head, sym), tail);
    if j == last {
      EntryIsSold(head, i);
      assert trips[i].entryTime in SoldUnits(head, sym);
      assert tail[0] == trips[j].entryTime;
      assert tail[0] in tail;
    } else {
      EntriesAscend(head, i, j);
    }
  }

  // Successive round trips of a symbol never go back in entry time.
  lemma EntryTimesNeverDecrease(l: Ledger, i: nat, j: nat)
    requires Lawful(l) && InTimeOrder(l.fills)
    requires i < j < |l.roundTrips| && l.roundTrips[i].symbol == l.roundTrips[j].symbol
    ensures l.roundTrips[i].entryTime <= l.roundTrips[j].entryTime
  {
    var sym := l.roundTrips[j].symbol;
    BoughtInOrder(l.fills, sym);
    assert SoldUnits(l.roundTrips, sym) + Units(l.LotsOf(sym)) == BoughtUnits(l.fills, sym);
    AscendingPrefix(SoldUnits(l.roundTrips, sym), Units(l.LotsOf(sym)));
    EntriesAscend(l.roundTrips, i, j);
  }

  // ------------------------------------------------------------ refusals

  // A ledger no bug has touched: nothing is negative.
  ghost predicate Sound(l: Ledger) {
    && Lawful(l)
    && 0 <= l.cash
    && Funded(l)
  }

  ghost predicate Funded(l: Ledger) {
    forall s :: s in l.lots ==> FundedLots(l.lots[s])
  }

  lemma BuyIsFunded(l: Ledger, f: Fill)
    requires Funded(l) && 0 <= f.notional && 0 <= f.commission
    ensures Funded(BuyFill(l, f))
  {
  }

  lemma SellIsFunded(l: Ledger, f: Fill)
    requires Funded(l) && PositiveLots(l.LotsOf(f.symbol)) && 0 < f.quantity <= l.Quantity(f.symbol)
    ensures Funded(SellFill(l, f))
  {
    SaleLeavesFundedLots(l.LotsOf(f.symbol), f.quantity, f, f.notional, f.commission);
  }

  lemma BookedIsFunded(l: Ledger, f: Fill, implicitCost: int)
    requires Sound(l) && Refusal(l, f).None?
    requires 0 <= f.notional && 0 <= f.commission
    ensures var n := Booked(l, f, implicitCost);
      && Lawful(n) && Funded(n) && !HasInvalidLot(n)
      && (f.side == Buy ==> 0 <= n.cash)
  {
    hide Consume;
    ApplyKeepsLaws(l, f, implicitCost);
    if f.side == Buy {
      BuyIsFunded(l, f);
    } else {
      SellIsFunded(l, f);
    }
  }

  // The only way a fill that was not refused can fail is a sale whose commission exceeds
  // the cash plus the proceeds; a buy never overdraws and no lot is ever invalid.
  lemma AppliedIff(l: Ledger, f: Fill, implicitCost: int)
    requires Sound(l) && 0 <= f.notional && 0 <= f.commission
    ensures var step := Apply(l, f, implicitCost);
      && (step.error.None? <==>
            && 0 < f.quantity
            && (f.side == Buy ==> f.notional + f.commission <= l.cash)
            && (f.side == Sell ==> f.quantity <= l.Quantity(f.symbol) && f.commission <= l.cash + f.notional))
      && (step.error.None? ==> Sound(step.ledger))
      && (step.error.Some? && Refusal(l, f).None? ==> f.side == Sell && step.error == Some(CashNegative))
  {
    if Refusal(l, f).None? {
      BookedIsFunded(l, f, implicitCost);
    }
  }

  function FlatFill(side: Side, time: int, notional: int): Fill {
    Fill(time, time, time, time - 1, "QQQ", side, 1, 1, notional, notional, notional, 10, 0, 0, 0, Unlimited)
  }

  lemma FlatBuy()
    ensures var buy := FlatFill(Buy, 1, 100);
      && Sound(Open(110)) && Refusal(Open(110), buy).None?
      && var bought := Booked(Open(110), buy, 0);
      bought.cash == 0 && bought.Quantity("QQQ") == 1
  {
    OpenIsLawful(110);
    assert Sound(Open(110)) by {
      hide Lawful;
    }
    hide Lawful, Sound, Consume;
    assert Held([Lot(1, 100, 10, 1)]) == 1 + Held([]);
    assert [] + [Lot(1, 100, 10, 1)] == [Lot(1, 100, 10, 1)];
  }

  // That sale exists: all the cash buys one share at 100 cents with the minimum commission
  // of 10, the price falls to 5, and selling it with the same commission overdraws.
  lemma SaleCanOverdraw() returns (ledgers: seq<Ledger>)
    ensures History(ledgers, [Trade(FlatFill(Buy, 1, 100), 0)]) && ledgers[0] == Open(110)
    ensures Sound(ledgers[1]) && Refusal(ledgers[1], FlatFill(Sell, 2, 5)).None?
    ensures Apply(ledgers[1], FlatFill(Sell, 2, 5), 0).error == Some(CashNegative)
  {
    var buy, sell := FlatFill(Buy, 1, 100), FlatFill(Sell, 2, 5);
    FlatBuy();
    hide Sound, Lawful, Booked, HasInvalidLot;
    AppliedIff(Open(110), buy, 0);
    var bought := Apply(Open(110), buy, 0).ledger;
    AppliedIff(bought, sell, 0);
    ledgers := [Open(110), bought];
  }

  // ------------------------------------------------------------ the identity

  // Cents of market value are measured in tick-steps: `scale` of them make a cent.
  ghost function MarketValues(l: Ledger, prices: map<string, int>): map<string, int> {
    map s | s in l.lots && l.lots[s] != [] && s in prices :: Held(l.lots[s]) * prices[s]
  }

  ghost predicate Priced(l: Ledger, prices: map<string, int>) {
    forall s :: s in l.lots && l.lots[s] != [] ==> s in prices
  }

  ghost function Equity(l: Ledger, prices: map<string, int>, scale: int): int {
    l.cash * scale + Sum(MarketValues(l, prices))
  }

  // equity less (initial cash + realized + unrealized - commissions + interest).
  ghost function Gap(l: Ledger, prices: map<string, int>, scale: int): int {
    var unrealized := Sum(MarketValues(l, prices)) - Sum(CostsOf(l.lots)) * scale;
    Equity(l, prices, scale) - ((l.initialCash + l.realizedPnl - l.commissions + l.interest) * scale + unrealized)
  }

  // equity == initial cash + realized + unrealized - commissions + interest, exactly,
  // for every set of prices.
  lemma EquityIsExplained(l: Ledger, prices: map<string, int>, scale: int)
    requires Lawful(l)
    ensures Gap(l, prices, scale) == 0
  {
    var basis := Sum(CostsOf(l.lots));
    assert l.cash == (l.initialCash + l.realizedPnl - l.commissions + l.interest) - basis;
    assert l.cash * scale
        == (l.initialCash + l.realizedPnl - l.commissions + l.interest) * scale - basis * scale;
  }

  // Equity is cash at prices of nothing, and moves with each price by what is held.
  lemma EquityMoves(l: Ledger, prices: map<string, int>, scale: int, symbol: string, price: int)
    requires symbol in l.lots && l.lots[symbol] != [] && symbol in prices
    ensures Equity(l, prices[symbol := price], scale) - Equity(l, prices, scale)
         == l.Quantity(symbol) * (price - prices[symbol])
  {
    hide Sum, Held;
    var held := Held(l.lots[symbol]);
    var was := MarketValues(l, prices);
    assert MarketValues(l, prices[symbol := price]) == was[symbol := held * price];
    SumUpdated(was, symbol, held * price);
    assert was[symbol] == held * prices[symbol];
    Distributes(held, price, prices[symbol]);
  }

  lemma Distributes(q: int, x: int, y: int)
    ensures q * x - q * y == q * (x - y)
  {
  }

  lemma EquityOfNothing(l: Ledger, prices: map<string, int>, scale: int)
    requires forall s :: s in prices ==> prices[s] == 0
    ensures Equity(l, prices, scale) == l.cash * scale
  {
    SumOfZeros(MarketValues(l, prices));
  }

  lemma {:induction false} SumOfZeros(m: map<string, int>)
    requires forall s :: s in m ==> m[s] == 0
    ensures Sum(m) == 0
  {
    if m != map[] {
      var k :| k in m;
      SumPicksAny(m, k);
      SumOfZeros(m - {k});
    }
  }

  // Prices of what is not held do not matter.
  lemma EquityIgnores(l: Ledger, prices: map<string, int>, scale: int, symbol: string, price: int)
    requires symbol !in l.lots || l.lots[symbol] == []
    ensures Equity(l, prices[symbol := price], scale) == Equity(l, prices, scale)
  {
    assert MarketValues(l, prices[symbol := price]) == MarketValues(l, prices);
  }

  // Interest is booked to the nearest cent, in cash and in its own total; a negative amount
  // is refused and changes nothing.
  lemma AccruedIs(l: Ledger, amount: real, cents: int)
    requires Nearest(cents, amount)
    ensures var step := Accrue(l, amount);
      if cents < 0 then step == Step(l, Some(NegativeInterest))
      else step == Step(l.(cash := l.cash + cents, interest := l.interest + cents), None)
  {
    RoundingIsUnique(amount, cents);
  }
}
