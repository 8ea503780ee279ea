// What becomes of each order (src/adaptive_quant/quant/backtest/engine.py:483-600): it is
// filled with the largest quantity all limits allow, at its own slot's price and as its
// quote says, or it is cancelled for the reason on record.
module OrderLaws {
  import opened Wrappers
  import opened Errors
  import opened Rounding
  import opened Costs
  import opened QuoteLaws
  import opened Ledgers
  import opened LedgerLaws
  import opened Execution
  import opened EngineModel
  import opened EngineLaws

  // ------------------------------------------------------------ the largest size

  // Within the share of a day's volume one order may take. An unknown volume limits
  // nothing, or everything.
  predicate WithinVolume(m: CostModel, adv: Option<real>, q: int) {
    match adv
    case None => !m.config.rejectUnknownVolume
    case Some(volume) => volume > 0.0 ==> q as real <= volume * m.config.maxParticipation * m.lotsPerShare as real
  }

  // A quantity the order, the market, the holding and the cash allow.
  predicate Fits(m: CostModel, l: Ledger, o: Order, ref: int, q: int)
    requires m.lotsPerShare > 0 && "default" in m.config.halfSpreadBps
  {
    && 0 < q <= o.quantity && WithinVolume(m, o.adv, q)
    && (if o.side == Sell then q <= l.Quantity(o.symbol) else BuyCost(m, o.symbol, q, ref, o.adv) <= l.cash)
  }

  // Why less than the whole order was filled, or why none was.
  predicate IsLimit(m: CostModel, o: Order, filled: int, limit: Limit) {
    match limit
    case ByParticipation => !WithinVolume(m, o.adv, o.quantity)
    case ByCash => WithinVolume(m, o.adv, o.quantity) && o.side == Buy && filled < o.quantity
    case Unlimited => WithinVolume(m, o.adv, o.quantity) && (o.side == Sell || filled == o.quantity)
  }

  predicate IsReason(m: CostModel, o: Order, reason: Reason) {
    match reason
    case VolumeUnknown => o.adv.None? && m.config.rejectUnknownVolume
    case Limited(limit) => limit != Unlimited && IsLimit(m, o, 0, limit)
    case NothingToTrade => IsLimit(m, o, 0, Unlimited)
    case _ => false
  }

  // The cap in lot steps is the largest whole number of them within the volume.
  lemma CapIsWithinVolume(m: CostModel, adv: Option<real>, q: int)
    requires m.Valid() && (adv.None? ==> !m.config.rejectUnknownVolume) && 0 < q
    ensures WithinVolume(m, adv, q) <==> (CapLots(m, adv).Some? ==> q <= CapLots(m, adv).value)
  {
    if KnownVolume(adv) {
      var cap := adv.value * m.config.maxParticipation;
      TimesMonotone(0.0, m.config.maxParticipation, adv.value);
      TimesMonotone(0.0, cap, m.lotsPerShare as real);
    }
  }

  // The size of an order is the largest that fits, or there is none.
  lemma SizeIsLargest(m: CostModel, l: Ledger, o: Order, ref: int, q: int)
    requires m.Valid() && Sound(l) && 0 < o.quantity
    requires o.side == Buy && 0 < CapSize(m, o).quantity ==> 0 < ref
    requires o.adv.None? ==> !m.config.rejectUnknownVolume
    requires o.side == Buy ==> o.quantity <= Pow2(60)
    ensures var size := FinalSize(m, l, o, ref);
      && (0 < size.quantity ==> Fits(m, l, o, ref, size.quantity))
      && (Fits(m, l, o, ref, q) ==> q <= size.quantity)
  {
    hide BuyCost, Bisect, CapLots, WithinVolume, Pow2, Sound, Affordable;
    var capped := CapSize(m, o).quantity;
    var size := FinalSize(m, l, o, ref);
    ExecuteSize(m, l, o, ref);
    if 0 < size.quantity {
      CapIsWithinVolume(m, o.adv, size.quantity);
    }
    if Fits(m, l, o, ref, q) {
      CapIsWithinVolume(m, o.adv, q);
      assert q <= capped;
      if o.side == Buy && size.quantity < q {
        AffordableIsLargest(m, o.symbol, capped, ref, o.adv, l.cash, q);
      }
    }
  }

  // ------------------------------------------------------------ one order's outcome

  // The limit on record follows from what was asked and what was got.
  lemma LimitIsRight(m: CostModel, l: Ledger, o: Order, ref: int)
    requires m.Valid() && Sound(l) && 0 < o.quantity
    requires o.side == Buy && 0 < CapSize(m, o).quantity ==> 0 < ref
    requires o.adv.None? ==> !m.config.rejectUnknownVolume
    ensures var size := FinalSize(m, l, o, ref);
      && (0 < size.quantity ==> IsLimit(m, o, size.quantity, size.limit))
      && (size.quantity <= 0 ==> IsLimit(m, o, 0, size.limit))
  {
    hide BuyCost, Bisect, CapLots, WithinVolume, Sound, Affordable;
    CapIsWithinVolume(m, o.adv, o.quantity);
    ExecuteSize(m, l, o, ref);
  }

  // The fill says what was ordered, when, at which reference, and what the quote charged.
  ghost predicate IsFillOf(m: CostModel, o: Order, f: Fill)
    requires m.lotsPerShare > 0
  {
    && f.orderId == o.id && f.symbol == o.symbol && f.side == o.side && f.requestedQuantity == o.quantity
    && f.decisionTime == o.decisionTime && f.dataTimestamp == o.dataTimestamp
    && 0 < f.quantity <= o.quantity && WithinVolume(m, o.adv, f.quantity)
    && IsLimit(m, o, f.quantity, f.limitedBy)
    && exists impact: real, was: int :: IsFair(m, o.symbol, o.side, o.adv, QuoteOf(f), impact, was)
  }

  function QuoteOf(f: Fill): FillQuote {
    FillQuote(f.quantity, f.refPrice, f.fillPrice, f.notional, f.commission, f.spreadCost, f.slippageCost, f.impactCost)
  }

  // Cancelled as a whole, for one of the reasons there are.
  predicate IsCancelled(m: CostModel, st: Run, o: Order, next: Run) {
    && next.ledger == st.ledger
    && |next.cancelled| == |st.cancelled| + 1
    && var c := next.cancelled[|st.cancelled|];
    && c == Cancelled(o.id, o.symbol, o.side, o.quantity, c.reason) && IsReason(m, o, c.reason)
  }

  // Filled at the time and the reference price, and what was not is cancelled.
  ghost predicate IsFilled(m: CostModel, st: Run, o: Order, ref: int, when: int, next: Run, f: Fill)
    requires m.lotsPerShare > 0
  {
    && next.ledger.fills == st.ledger.fills + [f] && f.time == when && f.refPrice == ref && IsFillOf(m, o, f)
    && next.ledger.implicitCosts == st.ledger.implicitCosts + f.spreadCost + f.slippageCost + f.impactCost
    && next.cancelled == st.cancelled
         + if f.quantity == o.quantity then []
           else [Cancelled(o.id, o.symbol, o.side, o.quantity - f.quantity, UnfilledRemainder(f.limitedBy))]
  }

  ghost predicate FilledOrCancelled(m: CostModel, st: Run, o: Order, ref: int, when: int, next: Run)
    requires m.lotsPerShare > 0
  {
    && st.cancelled <= next.cancelled
    && next.issued == st.issued && next.pending == st.pending && next.ledger.interest == st.ledger.interest
    && (IsCancelled(m, st, o, next)
        || (next.ledger.fills != [] && IsFilled(m, st, o, ref, when, next, next.ledger.fills[|next.ledger.fills| - 1])))
  }

  lemma SettleFills(m: CostModel, st: Run, o: Order, ref: int, when: int, size: EngineModel.Sized)
    requires m.Valid() && Sound(st.ledger) && Positive(st.ledger) && 0 < size.quantity <= o.quantity
    requires WithinVolume(m, o.adv, size.quantity) && IsLimit(m, o, size.quantity, size.limit)
    requires Settle(m, st, o, ref, when, size).Success?
    ensures FilledOrCancelled(m, st, o, ref, when, Settle(m, st, o, ref, when, size).value)
  {
    hide WithinVolume, IsLimit, Sound, Quote, Apply, IsFair;
    var quote := Quote(m, o.symbol, o.side, size.quantity, ref, o.adv).value;
    var impact, was := QuoteIsFair(m, o.symbol, o.side, size.quantity, ref, o.adv);
    var f := FillOf(o, when, size.limit, quote);
    AppliedRecords(st.ledger, f, quote.ImplicitCost());
    AppliedTotals(st.ledger, f, quote.ImplicitCost());
    assert QuoteOf(f) == quote;
    var next := Settle(m, st, o, ref, when, size).value;
    assert next.ledger.fills[|next.ledger.fills| - 1] == f;
  }

  lemma AppliedTotals(l: Ledger, f: Fill, implicitCost: int)
    requires Positive(l) && Apply(l, f, implicitCost).error.None?
    ensures var n := Apply(l, f, implicitCost).ledger;
      && n.implicitCosts == l.implicitCosts + implicitCost && n.interest == l.interest
      && n.initialCash == l.initialCash
  {
    hide Consume;
  }

  // Executing an order fills or cancels it: with the largest quantity that fits, or because
  // none does.
  lemma ExecuteIsLargest(m: CostModel, st: Run, o: Order, ref: int, when: int)
    requires m.Valid() && Sound(st.ledger) && Positive(st.ledger) && 0 < o.quantity
    requires Execute(m, st, o, ref, when).Success?
    ensures FilledOrCancelled(m, st, o, ref, when, Execute(m, st, o, ref, when).value)
    ensures (o.side == Buy ==> o.quantity <= Pow2(60)) ==>
      TookTheLargest(m, st, o, ref, Execute(m, st, o, ref, when).value)
  {
    hide Settle, WithinVolume, IsLimit, Sound, BuyCost, CapLots, CapSize, IsFillOf, Pow2, FinalSize, Fits;
    var next := Execute(m, st, o, ref, when).value;
    if o.adv.None? && m.config.rejectUnknownVolume {
      NothingFitsUnknown(m, st.ledger, o, ref);
    } else {
      var size := FinalSize(m, st.ledger, o, ref);
      LimitIsRight(m, st.ledger, o, ref);
      if o.side == Buy ==> o.quantity <= Pow2(60) {
        forall q ensures Fits(m, st.ledger, o, ref, q) ==> q <= size.quantity {
          SizeIsLargest(m, st.ledger, o, ref, q);
        }
      }
      if 0 < size.quantity {
        SizeFits(m, st.ledger, o, ref);
        SettleFills(m, st, o, ref, when, size);
        SettleRecords(m, st, o, ref, when, size);
      } else {
        FitsIsPositive(m, st.ledger, o, ref);
      }
    }
  }

  // A buy that the volume allows at all is never tried at a price of nothing.
  lemma NothingBuysNothing(m: CostModel, st: Run, o: Order, ref: int, when: int)
    requires m.Valid() && Positive(st.ledger) && 0 < o.quantity
    requires o.side == Buy && ref <= 0 && WithinVolume(m, o.adv, 1)
    ensures Execute(m, st, o, ref, when) == Failure(PriceNotPositive)
  {
    CapIsWithinVolume(m, o.adv, 1);
    hide CapLots, FinalSize, Settle;
  }

  // If the order was not cancelled, its fill is on record as the last one.
  ghost predicate TookTheLargest(m: CostModel, st: Run, o: Order, ref: int, next: Run)
    requires m.lotsPerShare > 0 && "default" in m.config.halfSpreadBps
  {
    if next.ledger.fills == st.ledger.fills then forall q :: !Fits(m, st.ledger, o, ref, q)
    else
      && next.ledger.fills != []
      && var filled := next.ledger.fills[|next.ledger.fills| - 1].quantity;
      Fits(m, st.ledger, o, ref, filled) && forall q :: Fits(m, st.ledger, o, ref, q) ==> q <= filled
  }

  lemma NothingFitsUnknown(m: CostModel, l: Ledger, o: Order, ref: int)
    requires m.lotsPerShare > 0 && "default" in m.config.halfSpreadBps
    requires o.adv.None? && m.config.rejectUnknownVolume
    ensures forall q :: !Fits(m, l, o, ref, q)
  {
    hide BuyCost;
  }

  lemma FitsIsPositive(m: CostModel, l: Ledger, o: Order, ref: int)
    requires m.lotsPerShare > 0 && "default" in m.config.halfSpreadBps
    ensures forall q :: Fits(m, l, o, ref, q) ==> 0 < q
  {
    hide BuyCost, WithinVolume;
  }

  lemma SizeFits(m: CostModel, l: Ledger, o: Order, ref: int)
    requires m.Valid() && Sound(l) && 0 < o.quantity
    requires o.side == Buy && 0 < CapSize(m, o).quantity ==> 0 < ref
    requires o.adv.None? ==> !m.config.rejectUnknownVolume
    requires 0 < FinalSize(m, l, o, ref).quantity
    ensures Fits(m, l, o, ref, FinalSize(m, l, o, ref).quantity)
    ensures WithinVolume(m, o.adv, FinalSize(m, l, o, ref).quantity)
    ensures FinalSize(m, l, o, ref).quantity <= o.quantity
  {
    hide BuyCost, Bisect, CapLots, WithinVolume, Sound, Affordable;
    ExecuteSize(m, l, o, ref);
    CapIsWithinVolume(m, o.adv, FinalSize(m, l, o, ref).quantity);
  }

  lemma SettleRecords(m: CostModel, st: Run, o: Order, ref: int, when: int, size: EngineModel.Sized)
    requires m.lotsPerShare > 0 && "default" in m.config.halfSpreadBps && Positive(st.ledger)
    requires Settle(m, st, o, ref, when, size).Success?
    ensures var fills := Settle(m, st, o, ref, when, size).value.ledger.fills;
      fills != [] && fills[|fills| - 1].quantity == size.quantity && |fills| == |st.ledger.fills| + 1
  {
    hide Apply;
    var quote := Quote(m, o.symbol, o.side, size.quantity, ref, o.adv).value;
    QuoteQuantity(m, o.symbol, o.side, size.quantity, ref, o.adv);
    AppliedRecords(st.ledger, FillOf(o, when, size.limit, quote), quote.ImplicitCost());
    hide Quote;
  }

  lemma QuoteQuantity(m: CostModel, symbol: string, side: Side, quantity: int, ref: int, adv: Option<real>)
    requires m.lotsPerShare > 0 && "default" in m.config.halfSpreadBps
    ensures var q := Quote(m, symbol, side, quantity, ref, adv); q.Success? ==> q.value.quantity == quantity
  {
    hide Split, Notional, FillPrice, Commission;
  }

  // ------------------------------------------------------------ whole runs

  // At the time of the slot the order asked for, and at the price of that very moment: the
  // session's open at the open, its close at the close.
  predicate AtItsSlot(setup: Setup, o: Order, f: Fill)
    requires |setup.bars| == |setup.sessions|
  {
    var i := o.fillIndex;
    && 0 <= i < |setup.sessions| && o.symbol in setup.bars[i]
    && match o.fillPoint
       case AtOpen => f.time == setup.sessions[i].openTime && f.refPrice == setup.bars[i][o.symbol].open
       case AtClose => f.time == setup.sessions[i].closeTime && f.refPrice == setup.bars[i][o.symbol].close
  }

  ghost predicate FillsTold(setup: Setup, issued: seq<Order>, fills: seq<Fill>)
    requires setup.Valid()
  {
    forall k :: 0 <= k < |fills| ==>
      && 1 <= fills[k].orderId <= |issued|
      && IsFillOf(setup.model, issued[fills[k].orderId - 1], fills[k])
      && AtItsSlot(setup, issued[fills[k].orderId - 1], fills[k])
  }

  // A cancellation is of a whole order, for one of the reasons there are, or of what a fill
  // left of one.
  predicate IsCancellationOf(m: CostModel, o: Order, c: Cancelled) {
    && c.orderId == o.id && c.symbol == o.symbol && c.side == o.side
    && if c.reason.UnfilledRemainder?
       then 0 < c.quantity < o.quantity && IsLimit(m, o, o.quantity - c.quantity, c.reason.limit)
       else c.quantity == o.quantity && IsReason(m, o, c.reason)
  }

  ghost predicate CancelsTold(setup: Setup, issued: seq<Order>, cancelled: seq<Cancelled>) {
    forall k :: 0 <= k < |cancelled| ==>
      && 1 <= cancelled[k].orderId <= |issued|
      && IsCancellationOf(setup.model, issued[cancelled[k].orderId - 1], cancelled[k])
  }

  // Fills of one moment: sells before buys, in the order they were issued.
  predicate Precedes(side: Side, id: int, otherSide: Side, otherId: int) {
    if side == otherSide then id < otherId else side == Sell
  }

  ghost predicate SellsFirst(fills: seq<Fill>) {
    forall a, b :: 0 <= a < b < |fills| && fills[a].time == fills[b].time ==>
      Precedes(fills[a].side, fills[a].orderId, fills[b].side, fills[b].orderId)
  }

  function ImplicitCosts(fills: seq<Fill>): int {
    if fills == [] then 0
    else
      var f := fills[|fills| - 1];
      ImplicitCosts(fills[..|fills| - 1]) + f.spreadCost + f.slippageCost + f.impactCost
  }

  // The record of a run up to now tells what happened to its orders.
  ghost predicate Told(setup: Setup, st: Run)
    requires setup.Valid()
  {
    && FillsTold(setup, st.issued, st.ledger.fills)
    && CancelsTold(setup, st.issued, st.cancelled)
    && SellsFirst(st.ledger.fills)
    && st.ledger.implicitCosts == ImplicitCosts(st.ledger.fills)
  }

  // Everything filled at this moment so far comes before the orders still queued.
  ghost predicate Ahead(fills: seq<Fill>, queue: seq<Order>, when: int) {
    forall k, o :: 0 <= k < |fills| && fills[k].time == when && o in queue ==>
      Precedes(fills[k].side, fills[k].orderId, o.side, o.id)
  }

  predicate InExecutionOrder(queue: seq<Order>) {
    forall a, b :: 0 <= a < b < |queue| ==> Precedes(queue[a].side, queue[a].id, queue[b].side, queue[b].id)
  }

  predicate IsRef(setup: Setup, o: Order, i: nat, point: Point, ref: int, when: int)
    requires setup.Valid() && i < |setup.sessions|
  {
    && o.symbol in setup.bars[i]
    && ref == (if point == AtOpen then setup.bars[i][o.symbol].open else setup.bars[i][o.symbol].close)
    && when == (if point == AtOpen then setup.sessions[i].openTime else setup.sessions[i].closeTime)
  }

  lemma CancelToldOf(setup: Setup, issued: seq<Order>, cancelled: seq<Cancelled>, o: Order, c: Cancelled)
    requires CancelsTold(setup, issued, cancelled)
    requires 1 <= o.id <= |issued| && issued[o.id - 1] == o && IsCancellationOf(setup.model, o, c)
    ensures CancelsTold(setup, issued, cancelled + [c])
  {
    hide IsCancellationOf;
    assert c.orderId == o.id by {
      NamesItsOrder(setup.model, o, c);
    }
  }

  lemma NamesItsOrder(m: CostModel, o: Order, c: Cancelled)
    requires IsCancellationOf(m, o, c)
    ensures c.orderId == o.id
  {
  }

  lemma CancelTells(setup: Setup, st: Run, o: Order, next: Run)
    requires setup.Valid() && Told(setup, st) && IsIssued(st, o) && IsCancelled(setup.model, st, o, next)
    requires st.cancelled <= next.cancelled && next.issued == st.issued
    ensures Told(setup, next)
  {
    hide IsLimit, FillsTold, SellsFirst, ImplicitCosts, CancelsTold;
    var c := next.cancelled[|st.cancelled|];
    assert next.cancelled == st.cancelled + [c];
    CancelToldOf(setup, st.issued, st.cancelled, o, c);
  }

  lemma FillToldOf(setup: Setup, issued: seq<Order>, fills: seq<Fill>, o: Order, f: Fill)
    requires setup.Valid() && FillsTold(setup, issued, fills)
    requires 1 <= o.id <= |issued| && issued[o.id - 1] == o && f.orderId == o.id
    requires IsFillOf(setup.model, o, f) && AtItsSlot(setup, o, f)
    ensures FillsTold(setup, issued, fills + [f])
  {
    hide IsFillOf, AtItsSlot;
  }

  lemma FillIsAtItsSlot(setup: Setup, o: Order, i: nat, point: Point, f: Fill)
    requires setup.Valid() && i < |setup.sessions| && IsDue(o, i, point)
    requires IsRef(setup, o, i, point, f.refPrice, f.time)
    ensures AtItsSlot(setup, o, f)
  {
  }

  lemma SellsFirstOf(fills: seq<Fill>, o: Order, f: Fill, when: int)
    requires SellsFirst(fills) && Ahead(fills, [o], when) && f.time == when && f.side == o.side && f.orderId == o.id
    ensures SellsFirst(fills + [f])
  {
    hide Precedes;
    assert o in [o];
  }

  lemma FillTells(setup: Setup, st: Run, o: Order, i: nat, point: Point, ref: int, when: int, next: Run, f: Fill)
    requires setup.Valid() && i < |setup.sessions| && Told(setup, st) && IsIssued(st, o) && IsDue(o, i, point)
    requires IsRef(setup, o, i, point, ref, when) && IsFilled(setup.model, st, o, ref, when, next, f)
    requires next.issued == st.issued && Ahead(st.ledger.fills, [o], when)
    ensures Told(setup, next)
  {
    hide IsFillOf, AtItsSlot, FillsTold, CancelsTold, SellsFirst, Ahead, IsRef, IsLimit, ImplicitCosts;
    FillIsAtItsSlot(setup, o, i, point, f);
    FillNames(setup.model, o, f);
    FillToldOf(setup, st.issued, st.ledger.fills, o, f);
    SellsFirstOf(st.ledger.fills, o, f, when);
    ImplicitCostsOf(st.ledger.fills, f);
    if f.quantity < o.quantity {
      var c := Cancelled(o.id, o.symbol, o.side, o.quantity - f.quantity, UnfilledRemainder(f.limitedBy));
      CancelToldOf(setup, st.issued, st.cancelled, o, c);
      assert next.cancelled == st.cancelled + [c];
    } else {
      assert next.cancelled == st.cancelled;
    }
  }

  lemma FillNames(m: CostModel, o: Order, f: Fill)
    requires m.lotsPerShare > 0 && IsFillOf(m, o, f)
    ensures f.orderId == o.id && f.side == o.side && 0 < f.quantity <= o.quantity
    ensures IsLimit(m, o, f.quantity, f.limitedBy)
  {
  }

  lemma ImplicitCostsOf(fills: seq<Fill>, f: Fill)
    ensures ImplicitCosts(fills + [f]) == ImplicitCosts(fills) + f.spreadCost + f.slippageCost + f.impactCost
  {
    LastOf(fills, f);
  }

  lemma AheadStays(fills: seq<Fill>, f: Fill, queue: seq<Order>, when: int)
    requires queue != [] && InExecutionOrder(queue) && Ahead(fills, queue, when)
    requires f.side == queue[0].side && f.orderId == queue[0].id
    ensures Ahead(fills + [f], queue[1..], when) && Ahead(fills, queue[1..], when) && InExecutionOrder(queue[1..])
    ensures Ahead(fills, [queue[0]], when)
  {
    hide Precedes;
    forall o | o in queue[1..] ensures Precedes(f.side, f.orderId, o.side, o.id) {
      var j :| 0 <= j < |queue| - 1 && queue[1..][j] == o;
      assert queue[j + 1] == o;
    }
  }

  lemma ExecuteTells(setup: Setup, st: Run, o: Order, i: nat, point: Point, ref: int, when: int, open: set<int>)
    requires setup.Valid() && i < |setup.sessions| && Told(setup, st)
    requires InFlight(setup, st, open, when) && Waiting(setup, st, o, open, when) && Positive(st.ledger)
    requires IsDue(o, i, point) && IsRef(setup, o, i, point, ref, when) && Ahead(st.ledger.fills, [o], when)
    requires Execute(setup.model, st, o, ref, when).Success?
    ensures var next := Execute(setup.model, st, o, ref, when).value;
      && Told(setup, next)
      && (next.ledger.fills == st.ledger.fills
          || exists f: Fill :: next.ledger.fills == st.ledger.fills + [f] && f.side == o.side && f.orderId == o.id)
  {
    hide Execute, Told, Sound, Settled, IsRef, Ahead, Chronological, Causal;
    IssuedIsPositive(setup, st, o);
    ExecuteIsLargest(setup.model, st, o, ref, when);
    var next := Execute(setup.model, st, o, ref, when).value;
    hide IsFillOf;
    if IsCancelled(setup.model, st, o, next) {
      CancelTells(setup, st, o, next);
    } else {
      var f := next.ledger.fills[|next.ledger.fills| - 1];
      FillTells(setup, st, o, i, point, ref, when, next, f);
      FillNames(setup.model, o, f);
    }
  }

  lemma IssuedIsPositive(setup: Setup, st: Run, o: Order)
    requires Numbered(setup, st) && IsIssued(st, o)
    ensures 0 < o.quantity
  {
  }

  lemma {:induction false} FillAllTells(setup: Setup, st: Run, queue: seq<Order>, i: nat, point: Point, open: set<int>)
    requires setup.Valid() && i < |setup.sessions| && Positive(st.ledger) && Told(setup, st)
    requires forall o :: o in queue ==> o.symbol in setup.priced && IsDue(o, i, point)
    requires InFlight(setup, st, open, FillTime(setup.sessions[i], point))
    requires forall o :: o in queue ==> Waiting(setup, st, o, open, FillTime(setup.sessions[i], point))
    requires DistinctIds(queue) && InExecutionOrder(queue)
    requires Ahead(st.ledger.fills, queue, FillTime(setup.sessions[i], point))
    requires FillAll(setup, st, queue, i, point).Success?
    ensures Told(setup, FillAll(setup, st, queue, i, point).value)
    decreases |queue|
  {
    hide InFlight, Execute, Told, Ahead, InExecutionOrder, Waiting;
    if queue != [] {
      var o, when := queue[0], FillTime(setup.sessions[i], point);
      var bar := setup.bars[i][o.symbol];
      var ref := if point == AtOpen then bar.open else bar.close;
      var next := Execute(setup.model, st, o, ref, when).value;
      var f := FillFor(o);
      AheadStays(st.ledger.fills, f, queue, when);
      ExecuteTells(setup, st, o, i, point, ref, when, open);
      ExecuteKeeps(setup, st, o, ref, when, open);
      AheadFollows(st.ledger.fills, next.ledger.fills, queue, when);
      forall x | x in queue[1..] ensures Waiting(setup, next, x, open - {o.id}, when) {
        StillWaiting(setup, st, next, queue, x, open, when);
      }
      FillAllTells(setup, next, queue[1..], i, point, open - {o.id});
    }
  }

  function FillFor(o: Order): Fill {
    Fill(o.id, 0, 0, 0, o.symbol, o.side, 0, 0, 0, 0, 0, 0, 0, 0, 0, Unlimited)
  }

  lemma AheadFollows(fills: seq<Fill>, now: seq<Fill>, queue: seq<Order>, when: int)
    requires queue != [] && InExecutionOrder(queue) && Ahead(fills, queue, when)
    requires now == fills
      || exists f: Fill :: now == fills + [f] && f.side == queue[0].side && f.orderId == queue[0].id
    ensures Ahead(now, queue[1..], when)
  {
    hide Ahead, InExecutionOrder;
    if now == fills {
      AheadStays(fills, FillFor(queue[0]), queue, when);
    } else {
      var f :| now == fills + [f] && f.side == queue[0].side && f.orderId == queue[0].id;
      AheadStays(fills, f, queue, when);
    }
  }

  lemma FillDueTells(setup: Setup, st: Run, i: nat, point: Point)
    requires setup.Valid() && i < |setup.sessions| && Usable(setup, st)
    requires Invariant(setup, st, Slot(i, point)) && Told(setup, st)
    requires FillDue(setup, st, i, point).Success?
    ensures Told(setup, FillDue(setup, st, i, point).value)
  {
    hide Sound, Settled, FillAll, Select, ExecutionOrder, SlotTime, FillsTold, CancelsTold, SellsFirst, ImplicitCosts;
    var slot, when := Slot(i, point), FillTime(setup.sessions[i], point);
    SlotIsWhen(setup, i, point);
    var due, rest := Select(st.pending, i, point, true), Select(st.pending, i, point, false);
    var left, queue := st.(pending := rest), ExecutionOrder(due);
    SelectIsSubset(st.pending, i, point, true);
    SelectIncreasing(st.pending, i, point, true);
    ExecutionOrderIsSorted(due);
    ExecutionOrderIsDistinct(due);
    SameSettled(st, left, Ids(st.pending));
    forall o | o in queue ensures Waiting(setup, left, o, Ids(st.pending), when) {
      SlotIsDue(o, i, point);
    }
    FillAllTells(setup, left, queue, i, point, Ids(st.pending));
  }
}
