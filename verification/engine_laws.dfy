// What a whole backtest guarantees.
module EngineLaws {
  import opened Wrappers
  import opened Errors
  import opened Rounding
  import opened Costs
  import opened Ledgers
  import opened LedgerLaws
  import opened Execution
  import opened EngineModel

  // ------------------------------------------------------------ affordable size

  function Pow2(n: nat): (p: int)
    ensures 0 < p
  {
    if n == 0 then 1 else 2 * Pow2(n - 1)
  }

  // The bisection ends on an affordable size with an unaffordable one at most
  // (hi - lo - 1) / 2^rounds + 1 steps above it.
  lemma {:induction false} BisectBrackets(
      m: CostModel, symbol: string, ref: int, adv: Option<real>, cash: int, rounds: nat, lo: int, hi: int)
    returns (top: int)
    requires m.Valid() && 0 <= lo < hi
    requires lo == 0 || BuyCost(m, symbol, lo, ref, adv) <= cash
    requires BuyCost(m, symbol, hi, ref, adv) > cash
    ensures var r := Bisect(m, symbol, ref, adv, cash, rounds, lo, hi);
      && lo <= r < top <= hi
      && (r == 0 || BuyCost(m, symbol, r, ref, adv) <= cash)
      && BuyCost(m, symbol, top, ref, adv) > cash
      && (top - r - 1) * Pow2(rounds) <= hi - lo - 1
    decreases rounds
  {
    hide BuyCost;
    var mid := (lo + hi) / 2;
    if rounds == 0 || mid <= lo {
      top := hi;
      if rounds > 0 {
        assert hi - lo - 1 == 0;
      }
    } else if BuyCost(m, symbol, mid, ref, adv) <= cash {
      top := BisectBrackets(m, symbol, ref, adv, cash, rounds - 1, mid, hi);
      Halved(top - Bisect(m, symbol, ref, adv, cash, rounds, lo, hi) - 1, Pow2(rounds - 1), hi - mid - 1, hi - lo - 1);
    } else {
      top := BisectBrackets(m, symbol, ref, adv, cash, rounds - 1, lo, mid);
      Halved(top - Bisect(m, symbol, ref, adv, cash, rounds, lo, hi) - 1, Pow2(rounds - 1), mid - lo - 1, hi - lo - 1);
    }
  }

  lemma Halved(gap: int, p: int, half: int, whole: int)
    requires gap * p <= half && 2 * half <= whole
    ensures gap * (2 * p) <= whole
  {
    assert gap * (2 * p) == 2 * (gap * p);
  }

  // Never more than asked for or than the cash pays; and any larger size within the
  // request that the cash would pay is less than (quantity - 1) / 2^60 + 1 steps away.
  lemma AffordableFits(m: CostModel, symbol: string, quantity: int, ref: int, adv: Option<real>, cash: int, better: int)
    requires m.Valid() && 0 < quantity && 0 < ref
    ensures var r := Affordable(m, symbol, quantity, ref, adv, cash);
      && 0 <= r <= quantity
      && (0 < r ==> BuyCost(m, symbol, r, ref, adv) <= cash)
      && (r < better <= quantity && BuyCost(m, symbol, better, ref, adv) <= cash ==>
            (better - r) * Pow2(BISECTIONS) <= quantity - 1)
  {
    hide BuyCost, Pow2;
    if BuyCost(m, symbol, quantity, ref, adv) > cash {
      var top := BisectBrackets(m, symbol, ref, adv, cash, BISECTIONS, 0, quantity);
      var r := Bisect(m, symbol, ref, adv, cash, BISECTIONS, 0, quantity);
      if r < better <= quantity && BuyCost(m, symbol, better, ref, adv) <= cash {
        if top <= better {
          BuyCostMonotone(m, symbol, top, better, ref, adv);
        }
        Scaled(better - r, top - r - 1, Pow2(BISECTIONS));
      }
    }
  }

  lemma Scaled(a: int, b: int, p: int)
    requires a <= b && 0 < p
    ensures a * p <= b * p
  {
  }

  // For any request of up to 2^60 lot steps the size is the largest that fits.
  lemma AffordableIsLargest(m: CostModel, symbol: string, quantity: int, ref: int, adv: Option<real>, cash: int,
    better: int)
    requires m.Valid() && 0 < quantity <= Pow2(BISECTIONS) && 0 < ref
    requires Affordable(m, symbol, quantity, ref, adv, cash) < better <= quantity
    ensures BuyCost(m, symbol, better, ref, adv) > cash
  {
    hide Pow2, Affordable, BuyCost;
    AffordableFits(m, symbol, quantity, ref, adv, cash, better);
    Scaled(1, better - Affordable(m, symbol, quantity, ref, adv, cash), Pow2(BISECTIONS));
  }

  // Beyond that, for every size, there are markets where the sixty rounds stop short: with
  // free trading at a cent a step and one cent too little cash, the step below the
  // request would fit and is left out.
  lemma AffordableCanStopShort(m: CostModel, symbol: string, quantity: int, adv: Option<real>)
    requires m.Valid() && IsFree(m) && Pow2(BISECTIONS) < quantity
    ensures Affordable(m, symbol, quantity, TICKS_PER_CENT, adv, quantity - 1) < quantity - 1
    ensures BuyCost(m, symbol, quantity - 1, TICKS_PER_CENT, adv) <= quantity - 1
  {
    hide Pow2, BuyCost;
    FreeCost(m, symbol, quantity, adv);
    FreeCost(m, symbol, quantity - 1, adv);
    FreeBisect(m, symbol, adv, BISECTIONS, 0, quantity);
  }

  // No larger size within the request fits.
  ghost predicate IsLargest(m: CostModel, symbol: string, quantity: int, ref: int, adv: Option<real>, cash: int)
    requires m.Valid() && 0 < quantity && 0 < ref
  {
    forall better :: Affordable(m, symbol, quantity, ref, adv, cash) < better <= quantity ==>
      BuyCost(m, symbol, better, ref, adv) > cash
  }

  // So 2^60 lot steps is exactly how far the docstring holds over all markets.
  lemma AffordableIsLargestIff(quantity: int)
    requires 0 < quantity
    ensures (forall m: CostModel, symbol, ref, adv, cash :: m.Valid() && 0 < ref ==>
               IsLargest(m, symbol, quantity, ref, adv, cash))
       <==> quantity <= Pow2(BISECTIONS)
  {
    hide Pow2, Affordable, BuyCost;
    if quantity <= Pow2(BISECTIONS) {
      forall m: CostModel, symbol, ref, adv, cash | m.Valid() && 0 < ref
        ensures IsLargest(m, symbol, quantity, ref, adv, cash)
      {
        forall better | Affordable(m, symbol, quantity, ref, adv, cash) < better <= quantity
          ensures BuyCost(m, symbol, better, ref, adv) > cash
        {
          AffordableIsLargest(m, symbol, quantity, ref, adv, cash, better);
        }
      }
    } else {
      var free := FreeMarket();
      AffordableCanStopShort(free, "", quantity, None);
      assert !IsLargest(free, "", quantity, TICKS_PER_CENT, None, quantity - 1);
    }
  }

  function FreeMarket(): (m: CostModel)
    ensures m.Valid() && IsFree(m)
  {
    CostModel(CostConfig(0.0, 0.0, 0.0, map["default" := 0.0], 0.0, 0.0, 1.0, false), 1, x => 0.0)
  }

  ghost predicate IsFree(m: CostModel) {
    m.lotsPerShare == 1 && m.config == CostConfig(0.0, 0.0, 0.0, map["default" := 0.0], 0.0, 0.0, 1.0, false)
  }

  lemma FreeCost(m: CostModel, symbol: string, q: int, adv: Option<real>)
    requires m.Valid() && IsFree(m) && 0 < q
    ensures BuyCost(m, symbol, q, TICKS_PER_CENT, adv) == q
  {
    var bps := TotalBps(m, symbol, q, adv);
    assert m.config.HalfSpread(symbol) == 0.0;
    assert bps == 0.0;
    FillPriceDirection(Buy, TICKS_PER_CENT, bps);
    RoundingIsUnique(0.0, 0);
    RoundingIsUnique(q as real, q);
    assert (q * TICKS_PER_CENT) as real / (1 * TICKS_PER_CENT) as real == q as real;
  }

  lemma {:induction false} FreeBisect(m: CostModel, symbol: string, adv: Option<real>, rounds: nat, lo: int, hi: int)
    requires m.Valid() && IsFree(m) && 0 <= lo && Pow2(rounds) < hi - lo
    ensures Bisect(m, symbol, TICKS_PER_CENT, adv, hi - 1, rounds, lo, hi) < hi - 1
    decreases rounds
  {
    hide BuyCost;
    if rounds > 0 {
      var mid := (lo + hi) / 2;
      FreeCost(m, symbol, mid, adv);
      FreeBisect(m, symbol, adv, rounds - 1, mid, hi);
    }
  }

  // ------------------------------------------------------------ what became of an order

  function FilledQuantity(fills: seq<Fill>, id: int): int {
    if fills == [] then 0
    else
      var f := fills[|fills| - 1];
      FilledQuantity(fills[..|fills| - 1], id) + (if f.orderId == id then f.quantity else 0)
  }

  function FillCount(fills: seq<Fill>, id: int): nat {
    if fills == [] then 0
    else FillCount(fills[..|fills| - 1], id) + (if fills[|fills| - 1].orderId == id then 1 else 0)
  }

  function CancelledQuantity(cancelled: seq<Cancelled>, id: int): int {
    if cancelled == [] then 0
    else
      var c := cancelled[|cancelled| - 1];
      CancelledQuantity(cancelled[..|cancelled| - 1], id) + (if c.orderId == id then c.quantity else 0)
  }

  function CancelCount(cancelled: seq<Cancelled>, id: int): nat {
    if cancelled == [] then 0
    else CancelCount(cancelled[..|cancelled| - 1], id) + (if cancelled[|cancelled| - 1].orderId == id then 1 else 0)
  }

  lemma CountFilled(fills: seq<Fill>, f: Fill, id: int)
    ensures FilledQuantity(fills + [f], id) == FilledQuantity(fills, id) + (if f.orderId == id then f.quantity else 0)
    ensures FillCount(fills + [f], id) == FillCount(fills, id) + (if f.orderId == id then 1 else 0)
  {
    LastOf(fills, f);
  }

  lemma CountCancelled(cancelled: seq<Cancelled>, c: Cancelled, id: int)
    ensures CancelledQuantity(cancelled + [c], id)
         == CancelledQuantity(cancelled, id) + (if c.orderId == id then c.quantity else 0)
    ensures CancelCount(cancelled + [c], id) == CancelCount(cancelled, id) + (if c.orderId == id then 1 else 0)
  {
    LastOf(cancelled, c);
  }

  ghost predicate Untouched(st: Run, id: int) {
    && FillCount(st.ledger.fills, id) == 0 && FilledQuantity(st.ledger.fills, id) == 0
    && CancelCount(st.cancelled, id) == 0 && CancelledQuantity(st.cancelled, id) == 0
  }

  // An order is resolved once: by one fill, one cancellation, or one fill and the
  // cancellation of its remainder, which add up to the quantity ordered.
  ghost predicate Resolved(st: Run, o: Order) {
    && FillCount(st.ledger.fills, o.id) <= 1
    && CancelCount(st.cancelled, o.id) <= 1
    && 1 <= FillCount(st.ledger.fills, o.id) + CancelCount(st.cancelled, o.id)
    && FilledQuantity(st.ledger.fills, o.id) + CancelledQuantity(st.cancelled, o.id) == o.quantity
  }

  ghost function Ids(orders: seq<Order>): set<int> {
    set o | o in orders :: o.id
  }

  // Orders are numbered from one in the order they are issued.
  ghost predicate Numbered(setup: Setup, st: Run) {
    && st.nextId == |st.issued| + 1
    && (forall k :: 0 <= k < |st.issued| ==>
          st.issued[k].id == k + 1 && 0 < st.issued[k].quantity && st.issued[k].symbol in setup.priced)
  }

  ghost predicate IsIssued(st: Run, o: Order) {
    1 <= o.id <= |st.issued| && st.issued[o.id - 1] == o
  }

  // Of the orders issued, exactly those in `open` are still unresolved.
  ghost predicate Settled(st: Run, open: set<int>) {
    && (forall k :: 0 <= k < |st.issued| ==>
          if st.issued[k].id in open then Untouched(st, st.issued[k].id) else Resolved(st, st.issued[k]))
    && (forall id :: id < 1 || id > |st.issued| ==> Untouched(st, id))
  }

  lemma CancelSettles(setup: Setup, st: Run, o: Order, reason: Reason, open: set<int>)
    requires Numbered(setup, st) && IsIssued(st, o) && o.id in open && Settled(st, open)
    ensures Settled(Cancel(st, o, o.quantity, reason), open - {o.id})
  {
    var next := Cancel(st, o, o.quantity, reason);
    var c := Cancelled(o.id, o.symbol, o.side, o.quantity, reason);
    forall k | 0 <= k < |st.issued|
      ensures if st.issued[k].id in open - {o.id} then Untouched(next, st.issued[k].id)
        else Resolved(next, st.issued[k])
    {
      CountCancelled(st.cancelled, c, st.issued[k].id);
    }
    forall id | id < 1 || id > |st.issued| ensures Untouched(next, id) {
      assert Untouched(st, id);
      CountCancelled(st.cancelled, c, id);
    }
  }

  // Adds a fill of part or all of `o`, and the cancellation of the rest.
  lemma CountsAfterFill(st: Run, next: Run, o: Order, f: Fill, limit: Limit, id: int)
    requires f.orderId == o.id && 0 < f.quantity <= o.quantity
    requires next.ledger.fills == st.ledger.fills + [f]
    requires next.cancelled == if f.quantity < o.quantity
      then st.cancelled + [Cancelled(o.id, o.symbol, o.side, o.quantity - f.quantity, UnfilledRemainder(limit))]
      else st.cancelled
    ensures id != o.id && Untouched(st, id) ==> Untouched(next, id)
    ensures forall x: Order :: x.id == id && id != o.id && Resolved(st, x) ==> Resolved(next, x)
    ensures id == o.id && Untouched(st, id) ==> Resolved(next, o)
  {
    CountCancelled(st.cancelled, Cancelled(o.id, o.symbol, o.side, o.quantity - f.quantity, UnfilledRemainder(limit)),
      id);
    CountFilled(st.ledger.fills, f, id);
    hide FilledQuantity, FillCount, CancelledQuantity, CancelCount;
  }

  lemma FillSettles(setup: Setup, st: Run, next: Run, o: Order, f: Fill, limit: Limit, open: set<int>)
    requires Numbered(setup, st) && IsIssued(st, o) && o.id in open && Settled(st, open)
    requires f.orderId == o.id && 0 < f.quantity <= o.quantity
    requires next.issued == st.issued && next.ledger.fills == st.ledger.fills + [f]
    requires next.cancelled == if f.quantity < o.quantity
      then st.cancelled + [Cancelled(o.id, o.symbol, o.side, o.quantity - f.quantity, UnfilledRemainder(limit))]
      else st.cancelled
    ensures Settled(next, open - {o.id})
  {
    hide FilledQuantity, FillCount, CancelledQuantity, CancelCount;
    forall k | 0 <= k < |st.issued|
      ensures if st.issued[k].id in open - {o.id} then Untouched(next, st.issued[k].id)
        else Resolved(next, st.issued[k])
    {
      CountsAfterFill(st, next, o, f, limit, st.issued[k].id);
    }
    forall id | id < 1 || id > |st.issued| ensures Untouched(next, id) {
      assert Untouched(st, id);
      CountsAfterFill(st, next, o, f, limit, id);
    }
  }

  // ------------------------------------------------------------ executing one order

  // Whether any commission is charged at all.
  predicate Charges(c: CostConfig) {
    0.0 < c.commissionPerShare || 0.0 < c.commissionPerOrder || 0.0 < c.commissionMinimum
  }

  // The decision of a session would fill within the run, and its data are from after it.
  predicate IsLate(setup: Setup, i: nat)
    requires i < |setup.sessions| && |setup.inputs| == |setup.sessions|
  {
    var s := ScheduleOf(setup.timing, setup.sessions[i], setup.delay, setup.nearCloseMinutes);
    && s.Success? && i + s.value.fillOffset < |setup.sessions|
    && setup.inputs[i].dataTimestamp > s.value.decisionTime
  }

  // What a run can fail of, each error with its cause in the market data, the strategies or
  // the configuration; none is an accounting bug.
  ghost predicate MarketError(setup: Setup, e: Error)
    requires |setup.inputs| == |setup.sessions|
  {
    match e
    case PriceNotPositive =>
      exists i, s ::
        0 <= i < |setup.bars| && s in setup.bars[i] && (setup.bars[i][s].open <= 0 || setup.bars[i][s].close <= 0)
    case CostsExceedPrice =>
      exists i, s ::
        0 <= i < |setup.bars| && s in setup.bars[i] && (setup.bars[i][s].open == 1 || setup.bars[i][s].close == 1)
    case CashNegative => Charges(setup.model.config)
    case SessionTooShort =>
      && setup.timing == NearClose
      && (exists i :: 0 <= i < |setup.sessions|
            && setup.sessions[i].closeTime - 60 * setup.nearCloseMinutes <= setup.sessions[i].openTime)
    case UnpricedHolding =>
      exists i, s :: 0 <= i < |setup.inputs| && !setup.inputs[i].refused && s in setup.unpriced
        && s in setup.inputs[i].weights && setup.inputs[i].weights[s] != 0.0
    case LookAhead => exists i :: 0 <= i < |setup.sessions| && IsLate(setup, i)
    case TooFewSessions => |setup.sessions| < 2
    case _ => false
  }

  // What one order can fail of at a reference price.
  ghost predicate OrderError(m: CostModel, ref: int, e: Error) {
    || (e == PriceNotPositive && ref <= 0)
    || (e == CostsExceedPrice && ref == 1)
    || (e == CashNegative && Charges(m.config))
  }

  lemma OrderErrorIsCaused(setup: Setup, i: nat, s: string, ref: int, e: Error)
    requires setup.Valid() && i < |setup.bars| && s in setup.bars[i]
    requires ref == setup.bars[i][s].open || ref == setup.bars[i][s].close
    requires OrderError(setup.model, ref, e)
    ensures MarketError(setup, e)
  {
  }

  // The fill times of a ledger never decrease and none is after `clock`.
  ghost predicate Chronological(fills: seq<Fill>, clock: int) {
    InTimeOrder(fills) && forall k :: 0 <= k < |fills| ==> fills[k].time <= clock
  }

  // No fill uses data that was not available, but for the explicit closing auction.
  ghost predicate Causal(fills: seq<Fill>, sameBar: bool) {
    forall k :: 0 <= k < |fills| ==>
      && fills[k].decisionTime <= fills[k].time
      && (fills[k].dataTimestamp < fills[k].time || (sameBar && fills[k].dataTimestamp == fills[k].time))
  }

  ghost predicate KeysPriced(setup: Setup, l: Ledger) {
    forall s :: s in l.lots ==> s in setup.priced
  }

  lemma ExecuteSize(m: CostModel, l: Ledger, o: Order, ref: int)
    requires m.Valid() && Sound(l) && 0 < o.quantity
    requires o.side == Buy && 0 < CapSize(m, o).quantity ==> 0 < ref
    ensures var size := FinalSize(m, l, o, ref);
      && size.quantity <= o.quantity
      && size.quantity <= CapSize(m, o).quantity
      && (o.side == Sell ==> size.quantity <= l.Quantity(o.symbol))
      && (o.side == Buy && 0 < size.quantity ==> BuyCost(m, o.symbol, size.quantity, ref, o.adv) <= l.cash)
  {
    hide BuyCost, Bisect;
    var capped := CapSize(m, o).quantity;
    if o.side == Buy && 0 < capped {
      AffordableFits(m, o.symbol, capped, ref, o.adv, l.cash, capped);
    }
  }

  // A size within the cap in lot steps is within it in shares.
  lemma CapInShares(m: CostModel, adv: Option<real>, quantity: int)
    requires m.Valid() && 0 < quantity
    requires CapLots(m, adv).Some? ==> quantity <= CapLots(m, adv).value
    ensures ParticipationCap(m, adv).Some? ==> Shares(m, quantity) <= ParticipationCap(m, adv).value
  {
    var cap := ParticipationCap(m, adv);
    if cap.Some? {
      LotsToShares(quantity, m.lotsPerShare, cap.value);
    }
  }

  lemma LotsToShares(q: int, d: int, cap: real)
    requires 0 < q && 0 < d && q <= RoundDown(cap * d as real)
    ensures q as real / d as real <= cap
  {
    var x := cap * d as real;
    assert q as real <= x;
    DivideMonotone(q as real, x, d as real);
    assert x / d as real == cap;
  }

  lemma AppliedRecords(l: Ledger, f: Fill, implicitCost: int)
    requires Positive(l) && Apply(l, f, implicitCost).error.None?
    ensures var n := Apply(l, f, implicitCost).ledger;
      n.fills == l.fills + [f] && n.lots.Keys <= l.lots.Keys + {f.symbol}
  {
    hide Consume;
  }

  // The quote behind a sized order: it fails only for a price of nothing, or for a sale
  // at one tick that its costs wipe out; and it is what the fill will say.
  lemma SettleQuote(m: CostModel, l: Ledger, o: Order, ref: int, size: Sized)
    requires m.Valid() && 0 < size.quantity
    requires CapLots(m, o.adv).Some? ==> size.quantity <= CapLots(m, o.adv).value
    requires o.side == Buy ==> 0 < ref && BuyCost(m, o.symbol, size.quantity, ref, o.adv) <= l.cash
    ensures var q := Quote(m, o.symbol, o.side, size.quantity, ref, o.adv);
      && (q.Failure? ==>
            (q.error == PriceNotPositive && ref <= 0) || (q.error == CostsExceedPrice && ref == 1))
      && (q.Success? ==>
            && q.value.quantity == size.quantity && q.value.commission == Commission(m, size.quantity)
            && 0 <= q.value.notional && 0 <= q.value.commission
            && (o.side == Buy ==> q.value.notional + q.value.commission <= l.cash))
  {
    QuoteCommission(m, o.symbol, o.side, size.quantity, ref, o.adv);
    hide BuyCost, CapLots, Quote, Commission;
    if ref >= 2 {
      CapInShares(m, o.adv, size.quantity);
      CappedQuotesSucceed(m, o.symbol, o.side, size.quantity, ref, o.adv);
    } else {
      QuoteErrors(m, o.symbol, o.side, size.quantity, ref, o.adv);
    }
    if Quote(m, o.symbol, o.side, size.quantity, ref, o.adv).Success? {
      ImplicitCostIsExact(m, o.symbol, o.side, size.quantity, ref, o.adv);
      if o.side == Buy {
        BuyCostIsQuoted(m, o.symbol, size.quantity, ref, o.adv);
      }
    }
  }

  lemma QuoteCommission(m: CostModel, symbol: string, side: Side, quantity: int, ref: int, adv: Option<real>)
    requires m.lotsPerShare > 0 && "default" in m.config.halfSpreadBps
    ensures var q := Quote(m, symbol, side, quantity, ref, adv);
      q.Success? ==> q.value.commission == Commission(m, quantity)
  {
    hide Commission, Notional, FillPrice, Split;
  }

  // A sized order fills as quoted and keeps the ledger sound; the only failures are a
  // sale at no price, one its costs wipe out, and one too small for its commission.
  lemma SettleOutcome(m: CostModel, st: Run, o: Order, ref: int, when: int, size: Sized)
    requires m.Valid() && Sound(st.ledger) && 0 < size.quantity
    requires CapLots(m, o.adv).Some? ==> size.quantity <= CapLots(m, o.adv).value
    requires o.side == Sell ==> size.quantity <= st.ledger.Quantity(o.symbol)
    requires o.side == Buy ==> 0 < ref && BuyCost(m, o.symbol, size.quantity, ref, o.adv) <= st.ledger.cash
    ensures var r := Settle(m, st, o, ref, when, size);
      && (r.Failure? ==> OrderError(m, ref, r.error))
      && (r.Success? ==> Sound(r.value.ledger) && Filled(m, st, o, ref, when, size, r.value))
  {
    hide BuyCost, CapLots, Quote, Apply, Lawful, HasInvalidLot, Commission, Charges;
    SettleQuote(m, st.ledger, o, ref, size);
    assert Positive(st.ledger) by {
      SoundIsPositive(st.ledger);
    }
    var quoted := Quote(m, o.symbol, o.side, size.quantity, ref, o.adv);
    if quoted.Success? {
      var f := FillOf(o, when, size.limit, quoted.value);
      AppliedIff(st.ledger, f, quoted.value.ImplicitCost());
      if Apply(st.ledger, f, quoted.value.ImplicitCost()).error.None? {
        AppliedRecords(st.ledger, f, quoted.value.ImplicitCost());
      } else {
        ChargedCommission(m, size.quantity);
      }
    }
  }

  lemma SoundIsPositive(l: Ledger)
    requires Sound(l)
    ensures Positive(l)
  {
  }

  lemma ChargedCommission(m: CostModel, quantity: int)
    requires m.Valid() && 0 < Commission(m, quantity)
    ensures Charges(m.config)
  {
    RoundingIsUnique(0.0, 0);
    hide RoundHalfEven;
  }

  // `next` is `st` with `o` filled in the given size, and its remainder cancelled.
  ghost predicate Filled(m: CostModel, st: Run, o: Order, ref: int, when: int, size: Sized, next: Run)
    requires m.lotsPerShare > 0 && "default" in m.config.halfSpreadBps
  {
    var quoted := Quote(m, o.symbol, o.side, size.quantity, ref, o.adv);
    && quoted.Success? && quoted.value.quantity == size.quantity
    && next.ledger.fills == st.ledger.fills + [FillOf(o, when, size.limit, quoted.value)]
    && next.ledger.lots.Keys <= st.ledger.lots.Keys + {o.symbol}
    && next.pending == st.pending && next.nextId == st.nextId && next.issued == st.issued
    && next.cancelled == if size.quantity < o.quantity
         then st.cancelled + [Cancelled(o.id, o.symbol, o.side, o.quantity - size.quantity,
           UnfilledRemainder(size.limit))]
         else st.cancelled
  }

  lemma QuoteErrors(m: CostModel, symbol: string, side: Side, quantity: int, ref: int, adv: Option<real>)
    requires m.Valid() && 0 < quantity
    ensures var q := Quote(m, symbol, side, quantity, ref, adv);
      q.Failure? ==> if ref <= 0 then q.error == PriceNotPositive else side == Sell && q.error == CostsExceedPrice
  {
    if 0 < ref {
      QuoteRefusedIff(m, symbol, side, quantity, ref, adv);
    }
  }

  // ------------------------------------------------------------ orders in flight

  // The state while the orders in `open` still wait, with no fill later than `clock`.
  ghost predicate InFlight(setup: Setup, st: Run, open: set<int>, clock: int) {
    && Numbered(setup, st)
    && Settled(st, open)
    && Sound(st.ledger)
    && KeysPriced(setup, st.ledger)
    && Chronological(st.ledger.fills, clock)
    && Causal(st.ledger.fills, AllowsSameBarClose(setup.timing, setup.delay))
  }

  ghost predicate Waiting(setup: Setup, st: Run, o: Order, open: set<int>, when: int) {
    && IsIssued(st, o) && o.id in open
    && CheckTiming(o, when, AllowsSameBarClose(setup.timing, setup.delay))
  }

  // What a filled order leaves, with the fill it put on record.
  ghost predicate OnRecord(st: Run, o: Order, when: int, size: Sized, next: Run, f: Fill) {
    && f.orderId == o.id && f.quantity == size.quantity
    && f.time == when && f.decisionTime == o.decisionTime && f.dataTimestamp == o.dataTimestamp
    && next.ledger.fills == st.ledger.fills + [f]
    && next.ledger.lots.Keys <= st.ledger.lots.Keys + {o.symbol}
    && next.pending == st.pending && next.nextId == st.nextId && next.issued == st.issued
    && next.cancelled == if size.quantity < o.quantity
         then st.cancelled + [Cancelled(o.id, o.symbol, o.side, o.quantity - size.quantity,
           UnfilledRemainder(size.limit))]
         else st.cancelled
  }

  lemma FilledIsOnRecord(m: CostModel, st: Run, o: Order, ref: int, when: int, size: Sized, next: Run) returns (f: Fill)
    requires m.lotsPerShare > 0 && "default" in m.config.halfSpreadBps
    requires Filled(m, st, o, ref, when, size, next)
    ensures OnRecord(st, o, when, size, next, f)
  {
    hide Quote;
    f := FillOf(o, when, size.limit, Quote(m, o.symbol, o.side, size.quantity, ref, o.adv).value);
  }

  lemma RecordKeepsNumbers(setup: Setup, st: Run, o: Order, when: int, size: Sized, next: Run, f: Fill)
    requires OnRecord(st, o, when, size, next, f) && Numbered(setup, st) && KeysPriced(setup, st.ledger)
      && IsIssued(st, o)
    ensures Numbered(setup, next) && KeysPriced(setup, next.ledger)
  {
  }

  lemma FilledKeeps(setup: Setup, st: Run, o: Order, ref: int, when: int, size: Sized, next: Run, open: set<int>)
    requires setup.Valid() && InFlight(setup, st, open, when) && Waiting(setup, st, o, open, when)
    requires 0 < size.quantity <= o.quantity
    requires Sound(next.ledger) && Filled(setup.model, st, o, ref, when, size, next)
    ensures InFlight(setup, next, open - {o.id}, when)
  {
    hide Quote, Sound, Filled, Settled, Chronological, Causal, Numbered, KeysPriced, IsIssued;
    var f := FilledIsOnRecord(setup.model, st, o, ref, when, size, next);
    FillSettles(setup, st, next, o, f, size.limit, open);
    FillStaysInOrder(st.ledger.fills, f, when, AllowsSameBarClose(setup.timing, setup.delay));
    RecordKeepsNumbers(setup, st, o, when, size, next, f);
  }

  lemma FillStaysInOrder(fills: seq<Fill>, f: Fill, when: int, sameBar: bool)
    requires Chronological(fills, when) && Causal(fills, sameBar)
    requires f.time == when && f.decisionTime <= when
    requires f.dataTimestamp < when || (sameBar && f.dataTimestamp == when)
    ensures Chronological(fills + [f], when) && Causal(fills + [f], sameBar)
  {
  }

  lemma CancelKeeps(setup: Setup, st: Run, o: Order, when: int, reason: Reason, open: set<int>)
    requires setup.Valid() && InFlight(setup, st, open, when) && Waiting(setup, st, o, open, when)
    ensures InFlight(setup, Cancel(st, o, o.quantity, reason), open - {o.id}, when)
  {
    hide Sound;
    CancelSettles(setup, st, o, reason, open);
  }

  lemma ExecuteKeeps(setup: Setup, st: Run, o: Order, ref: int, when: int, open: set<int>)
    requires setup.Valid() && InFlight(setup, st, open, when) && Waiting(setup, st, o, open, when)
    requires Positive(st.ledger)
    ensures var r := Execute(setup.model, st, o, ref, when);
      && (r.Failure? ==> OrderError(setup.model, ref, r.error))
      && (r.Success? ==>
            && InFlight(setup, r.value, open - {o.id}, when)
            && r.value.issued == st.issued && r.value.pending == st.pending && r.value.nextId == st.nextId)
  {
    hide Sound, Settled, FinalSize, CapSize, Settle;
    var m := setup.model;
    if o.adv.None? && m.config.rejectUnknownVolume {
      CancelKeeps(setup, st, o, when, VolumeUnknown, open);
    } else if !(o.side == Buy && 0 < CapSize(m, o).quantity && ref <= 0) {
      var size := FinalSize(m, st.ledger, o, ref);
      ExecuteSize(m, st.ledger, o, ref);
      if size.quantity <= 0 {
        CancelKeeps(setup, st, o, when, if size.limit == Unlimited then NothingToTrade else Limited(size.limit), open);
      } else {
        CapSizeWithinCap(m, o);
        SettleOutcome(m, st, o, ref, when, size);
        var r := Settle(m, st, o, ref, when, size);
        if r.Success? {
          FilledKeeps(setup, st, o, ref, when, size, r.value, open);
        }
      }
    }
  }

  lemma CapSizeWithinCap(m: CostModel, o: Order)
    ensures CapLots(m, o.adv).Some? ==> CapSize(m, o).quantity <= CapLots(m, o.adv).value
  {
  }

  ghost predicate DistinctIds(orders: seq<Order>) {
    forall a, b :: 0 <= a < b < |orders| ==> orders[a].id != orders[b].id
  }

  lemma WaitsInTime(setup: Setup, st: Run, o: Order, open: set<int>, when: int)
    requires Waiting(setup, st, o, open, when)
    ensures CheckTiming(o, when, AllowsSameBarClose(setup.timing, setup.delay))
  {
  }

  lemma StillWaiting(setup: Setup, st: Run, next: Run, queue: seq<Order>, x: Order, open: set<int>, when: int)
    requires queue != [] && x in queue[1..] && DistinctIds(queue) && next.issued == st.issued
    requires forall o :: o in queue ==> Waiting(setup, st, o, open, when)
    ensures Waiting(setup, next, x, open - {queue[0].id}, when)
  {
    var j :| 0 <= j < |queue[1..]| && queue[1..][j] == x;
    assert queue[j + 1] == x && queue[0].id != queue[j + 1].id;
    assert x in queue && Waiting(setup, st, x, open, when);
  }

  lemma {:induction false} FillAllKeeps(setup: Setup, st: Run, queue: seq<Order>, i: nat, point: Point, open: set<int>)
    requires setup.Valid() && i < |setup.sessions| && Positive(st.ledger)
    requires forall o :: o in queue ==> o.symbol in setup.priced
    requires InFlight(setup, st, open, FillTime(setup.sessions[i], point))
    requires forall o :: o in queue ==> Waiting(setup, st, o, open, FillTime(setup.sessions[i], point))
    requires DistinctIds(queue)
    ensures var r := FillAll(setup, st, queue, i, point);
      && (r.Failure? ==> MarketError(setup, r.error))
      && (r.Success? ==>
            && InFlight(setup, r.value, open - Ids(queue), FillTime(setup.sessions[i], point))
            && r.value.issued == st.issued && r.value.pending == st.pending && r.value.nextId == st.nextId)
    decreases |queue|
  {
    hide InFlight, Execute, Waiting, MarketError, OrderError;
    if queue == [] {
      assert open - Ids(queue) == open;
    } else {
      var o, when := queue[0], FillTime(setup.sessions[i], point);
      var bar := setup.bars[i][o.symbol];
      var ref := if point == AtOpen then bar.open else bar.close;
      WaitsInTime(setup, st, o, open, when);
      ExecuteKeeps(setup, st, o, ref, when, open);
      var r := Execute(setup.model, st, o, ref, when);
      if r.Failure? {
        OrderErrorIsCaused(setup, i, o.symbol, ref, r.error);
      } else {
        forall x | x in queue[1..] ensures Waiting(setup, r.value, x, open - {o.id}, when) {
          StillWaiting(setup, st, r.value, queue, x, open, when);
        }
        FillAllKeeps(setup, r.value, queue[1..], i, point, open - {o.id});
        assert Ids(queue) == {o.id} + Ids(queue[1..]) by {
          assert queue == [o] + queue[1..];
        }
        assert open - {o.id} - Ids(queue[1..]) == open - Ids(queue);
      }
    }
  }

  // ------------------------------------------------------------ between slots

  ghost predicate Increasing(orders: seq<Order>) {
    forall a, b :: 0 <= a < b < |orders| ==> orders[a].id < orders[b].id
  }

  // A pending order will fill at a slot still to come, when its data is old enough.
  ghost predicate Scheduled(setup: Setup, o: Order, slot: int) {
    var due := Slot(o.fillIndex, o.fillPoint);
    && 0 <= slot <= due < 2 * |setup.sessions|
    && CheckTiming(o, SlotTime(setup.sessions, due), AllowsSameBarClose(setup.timing, setup.delay))
  }

  ghost predicate AllScheduled(setup: Setup, st: Run, slot: int) {
    && Increasing(st.pending)
    && (forall o :: o in st.pending ==> IsIssued(st, o) && Scheduled(setup, o, slot))
  }

  // The state before the fills of `slot`: whatever happened lies strictly before it.
  ghost predicate Invariant(setup: Setup, st: Run, slot: int) {
    && 0 <= slot <= 2 * |setup.sessions|
    && AllScheduled(setup, st, slot)
    && Numbered(setup, st)
    && Settled(st, Ids(st.pending))
    && Sound(st.ledger)
    && KeysPriced(setup, st.ledger)
    && InTimeOrder(st.ledger.fills)
    && (slot < 2 * |setup.sessions| ==>
          forall k :: 0 <= k < |st.ledger.fills| ==> st.ledger.fills[k].time < SlotTime(setup.sessions, slot))
    && Causal(st.ledger.fills, AllowsSameBarClose(setup.timing, setup.delay))
  }

  lemma {:induction false} SelectIncreasing(orders: seq<Order>, i: int, point: Point, due: bool)
    requires Increasing(orders)
    ensures Increasing(Select(orders, i, point, due))
  {
    if orders != [] {
      var head := orders[..|orders| - 1];
      SelectIncreasing(head, i, point, due);
      SelectIsSubset(head, i, point, due);
      AppendIncreasing(head, Select(head, i, point, due), orders[|orders| - 1]);
    }
  }

  lemma AppendIncreasing(all: seq<Order>, part: seq<Order>, o: Order)
    requires Increasing(part) && Increasing(all + [o])
    requires forall x :: x in part ==> x in all
    ensures Increasing(part + [o])
  {
    forall k | 0 <= k < |part| ensures part[k].id < o.id {
      assert part[k] in all;
      var j :| 0 <= j < |all| && all[j] == part[k];
      assert (all + [o])[j] == part[k] && (all + [o])[|all|] == o;
    }
  }

  lemma {:induction false} SideIncreasing(orders: seq<Order>, side: Side)
    requires Increasing(orders)
    ensures Increasing(OfSide(orders, side))
  {
    if orders != [] {
      var head := orders[..|orders| - 1];
      SideIncreasing(head, side);
      SideIsSubset(head, side);
      assert orders == head + [orders[|orders| - 1]];
      AppendIncreasing(head, OfSide(head, side), orders[|orders| - 1]);
    }
  }

  // The execution order is the due orders sorted by side, sells first, then by id.
  lemma ExecutionOrderIsSorted(due: seq<Order>)
    requires Increasing(due)
    ensures var queue := ExecutionOrder(due);
      && (forall o :: o in queue <==> o in due)
      && (forall a, b :: 0 <= a < b < |queue| ==>
            if queue[a].side == queue[b].side then queue[a].id < queue[b].id else queue[a].side == Sell)
  {
    SideIncreasing(due, Sell);
    SideIncreasing(due, Buy);
    SideIsSubset(due, Sell);
    SideIsSubset(due, Buy);
    var sells, buys := OfSide(due, Sell), OfSide(due, Buy);
    forall k | 0 <= k < |sells| ensures sells[k].side == Sell {
      assert sells[k] in sells;
    }
    forall k | 0 <= k < |buys| ensures buys[k].side == Buy {
      assert buys[k] in buys;
    }
  }

  lemma SameIdSameOrder(orders: seq<Order>, a: Order, b: Order)
    requires Increasing(orders) && a in orders && b in orders && a.id == b.id
    ensures a == b
  {
    var i :| 0 <= i < |orders| && orders[i] == a;
    var j :| 0 <= j < |orders| && orders[j] == b;
  }

  lemma ExecutionOrderIsDistinct(due: seq<Order>)
    requires Increasing(due)
    ensures DistinctIds(ExecutionOrder(due))
  {
    var queue := ExecutionOrder(due);
    ExecutionOrderIsSorted(due);
    forall a, b | 0 <= a < b < |queue| ensures queue[a].id != queue[b].id {
      assert queue[a] in queue && queue[b] in queue;
      if queue[a].id == queue[b].id {
        SameIdSameOrder(due, queue[a], queue[b]);
      }
    }
  }

  lemma SlotIsDue(o: Order, i: nat, point: Point)
    requires 0 <= Slot(o.fillIndex, o.fillPoint)
    ensures IsDue(o, i, point) <==> Slot(o.fillIndex, o.fillPoint) == Slot(i, point)
  {
  }

  lemma SlotIsWhen(setup: Setup, i: nat, point: Point)
    requires i < |setup.sessions|
    ensures 0 <= Slot(i, point) < 2 * |setup.sessions|
    ensures SlotTime(setup.sessions, Slot(i, point)) == FillTime(setup.sessions[i], point)
  {
    assert Slot(i, point) / 2 == i;
  }

  // After the fills of a slot every order due there is resolved and the rest wait for
  // later slots.
  lemma FillDueKeeps(setup: Setup, st: Run, i: nat, point: Point)
    requires setup.Valid() && i < |setup.sessions| && Usable(setup, st)
    requires Invariant(setup, st, Slot(i, point))
    ensures var r := FillDue(setup, st, i, point);
      && (r.Failure? ==> MarketError(setup, r.error))
      && (r.Success? ==> Invariant(setup, r.value, Slot(i, point) + 1))
  {
    hide Sound, Settled, FillAll, Select, ExecutionOrder, SlotTime;
    var slot, when := Slot(i, point), FillTime(setup.sessions[i], point);
    SlotIsWhen(setup, i, point);
    var due, rest := Select(st.pending, i, point, true), Select(st.pending, i, point, false);
    var left, queue := st.(pending := rest), ExecutionOrder(due);
    SelectIsSubset(st.pending, i, point, true);
    SelectIsSubset(st.pending, i, point, false);
    SelectIncreasing(st.pending, i, point, true);
    SelectIncreasing(st.pending, i, point, false);
    ExecutionOrderIsSorted(due);
    ExecutionOrderIsDistinct(due);
    SameSettled(st, left, Ids(st.pending));
    forall o | o in queue ensures Waiting(setup, left, o, Ids(st.pending), when) {
      SlotIsDue(o, i, point);
    }
    FillAllKeeps(setup, left, queue, i, point, Ids(st.pending));
    var r := FillAll(setup, left, queue, i, point);
    if r.Success? {
      assert Ids(st.pending) - Ids(queue) == Ids(rest) by {
        DueIdsSplit(st.pending, queue, rest);
      }
      forall o | o in rest ensures Scheduled(setup, o, slot + 1) {
        SlotIsDue(o, i, point);
      }
      if slot + 1 < 2 * |setup.sessions| {
        SlotTimesIncrease(setup.sessions, slot, slot + 1);
      }
    }
  }

  lemma SameSettled(a: Run, b: Run, open: set<int>)
    requires a.ledger == b.ledger && a.cancelled == b.cancelled && a.issued == b.issued
    requires Settled(a, open)
    ensures Settled(b, open)
  {
    forall k | 0 <= k < |b.issued|
      ensures if b.issued[k].id in open then Untouched(b, b.issued[k].id) else Resolved(b, b.issued[k])
    {
    }
    forall id | id < 1 || id > |b.issued| ensures Untouched(b, id) {
      assert Untouched(a, id);
    }
  }

  lemma DueIdsSplit(pending: seq<Order>, queue: seq<Order>, rest: seq<Order>)
    requires Increasing(pending)
    requires forall o :: o in pending <==> o in queue || o in rest
    requires forall o :: !(o in queue && o in rest)
    ensures Ids(pending) - Ids(queue) == Ids(rest)
  {
    forall id | id in Ids(rest) ensures id in Ids(pending) && id !in Ids(queue) {
      var o :| o in rest && o.id == id;
      assert o in pending;
      if id in Ids(queue) {
        var p :| p in queue && p.id == id;
        SameIdSameOrder(pending, o, p);
      }
    }
  }

  // ------------------------------------------------------------ placing orders

  // An order may be placed at a decision when it will fill at `slot` or later.
  ghost predicate Placeable(setup: Setup, input: DecisionInput, sch: Schedule, i: nat, slot: int) {
    var due := Slot(i + sch.fillOffset, sch.fillPoint);
    && 0 <= slot <= due < 2 * |setup.sessions|
    && sch.decisionTime <= SlotTime(setup.sessions, due)
    && (input.dataTimestamp < SlotTime(setup.sessions, due)
        || (AllowsSameBarClose(setup.timing, setup.delay) && input.dataTimestamp == SlotTime(setup.sessions, due)))
  }

  lemma PlaceKeepsSettled(setup: Setup, st: Run, o: Order)
    requires Numbered(setup, st) && Settled(st, Ids(st.pending)) && o.id == st.nextId
    requires forall p :: p in st.pending ==> p.id <= |st.issued|
    ensures Settled(Place(st, o), Ids(Place(st, o).pending))
  {
    var next := Place(st, o);
    assert Ids(next.pending) == Ids(st.pending) + {o.id};
    assert Untouched(st, o.id);
    forall k | 0 <= k < |next.issued|
      ensures var x := next.issued[k];
        if x.id in Ids(next.pending) then Untouched(next, x.id) else Resolved(next, x)
    {
      if k < |st.issued| {
        assert next.issued[k] == st.issued[k];
        assert st.issued[k].id != o.id;
        if st.issued[k].id in Ids(st.pending) {
          assert Untouched(st, st.issued[k].id);
        } else {
          assert Resolved(st, st.issued[k]);
        }
      }
    }
    forall id | id < 1 || id > |next.issued| ensures Untouched(next, id) {
      assert Untouched(st, id);
    }
  }

  lemma PlaceKeeps(setup: Setup, st: Run, o: Order, slot: int)
    requires setup.Valid() && Invariant(setup, st, slot)
    requires o.id == st.nextId && 0 < o.quantity && o.symbol in setup.priced && Scheduled(setup, o, slot)
    ensures Invariant(setup, Place(st, o), slot)
  {
    hide Sound, Settled;
    var next := Place(st, o);
    PlaceKeepsSettled(setup, st, o);
    forall p | p in next.pending ensures IsIssued(next, p) && Scheduled(setup, p, slot) {
      if p != o {
        assert p in st.pending;
      }
    }
  }

  lemma {:induction false} SizeFromKeeps(
      setup: Setup, st: Run, input: DecisionInput, sch: Schedule, i: nat, equity: int, k: nat, slot: int)
    requires setup.Valid() && Invariant(setup, st, slot) && k <= |setup.priced|
    requires forall s :: s in setup.priced ==> s in input.prices && 0 < input.prices[s]
    requires Placeable(setup, input, sch, i, slot)
    ensures Invariant(setup, SizeFrom(setup, st, input, sch, i, equity, k), slot)
    decreases |setup.priced| - k
  {
    hide Invariant, TradeSize;
    if k < |setup.priced| {
      var symbol := setup.priced[k];
      var delta := TradeSize(setup, TargetWeight(input, symbol), equity, input.prices[symbol],
                         Projected(st.ledger, st.pending, symbol));
      if delta == 0 {
        SizeFromKeeps(setup, st, input, sch, i, equity, k + 1, slot);
      } else {
        var o := OrderFor(setup, input, sch, i, symbol, delta, st.nextId);
        PlaceKeeps(setup, st, o, slot);
        SizeFromKeeps(setup, Place(st, o), input, sch, i, equity, k + 1, slot);
      }
    }
  }

  lemma KnownPricesCover(setup: Setup, l: Ledger, i: nat)
    requires setup.Valid() && i < |setup.sessions| && KeysPriced(setup, l)
    ensures PricedBy(setup, l, setup.inputs[i])
    ensures Priced(l, Marks(setup, i))
  {
  }

  // The decision's orders are all for slots still ahead: at or after `slot`, which is
  // this session's close for the models that decide before it and the next session's
  // open for the others.
  lemma DecideKeeps(setup: Setup, st: Run, i: nat)
    requires setup.Valid() && i < |setup.sessions|
    requires ScheduleOf(setup.timing, setup.sessions[i], setup.delay, setup.nearCloseMinutes).Success?
    requires var late := setup.timing == NextOpen || setup.timing == NextClose;
      Invariant(setup, st, if late then 2 * i + 2 else 2 * i + 1)
    ensures var sch := ScheduleOf(setup.timing, setup.sessions[i], setup.delay, setup.nearCloseMinutes).value;
      var late := setup.timing == NextOpen || setup.timing == NextClose;
      var r := Decide(setup, st, i, sch);
      && (r.Failure? ==> MarketError(setup, r.error))
      && (r.Success? ==> Invariant(setup, r.value, if late then 2 * i + 2 else 2 * i + 1))
  {
    hide SizeFrom, Sound, Settled, Equity;
    var sch := ScheduleOf(setup.timing, setup.sessions[i], setup.delay, setup.nearCloseMinutes).value;
    var late := setup.timing == NextOpen || setup.timing == NextClose;
    var slot := if late then 2 * i + 2 else 2 * i + 1;
    KnownPricesCover(setup, st.ledger, i);
    if IsLate(setup, i) {
      assert Decide(setup, st, i, sch) == Failure(LookAhead);
    } else if i + sch.fillOffset < |setup.sessions| {
      hide Invariant;
      FillFollowsDecision(setup.sessions, setup.timing, setup.delay, setup.nearCloseMinutes, i);
      var equity := Equity(st.ledger, KnownPrices(setup, setup.inputs[i]), setup.Scale());
      SizeFromKeeps(setup, st, setup.inputs[i], sch, i, equity, 0, slot);
    }
  }

  // ------------------------------------------------------------ one session

  lemma InterestKeeps(setup: Setup, st: Run, i: nat, slot: int)
    requires setup.Valid() && i < |setup.sessions| && Invariant(setup, st, slot)
    ensures var r := PayInterest(setup, st, i);
      r.Success? && Invariant(setup, r.value, slot)
  {
    if 0 < i && 0.0 < setup.interestRate {
      var amount := InterestOn(setup, st.ledger.cash, i);
      InterestIsNotNegative(setup, st.ledger.cash, i);
      RoundToReference(amount, 0);
      AccrualIsSound(st.ledger, amount);
      var next := st.(ledger := Accrue(st.ledger, amount).ledger);
      hide Sound, Settled;
      SettledAfterAccrual(st, next, Ids(st.pending));
    }
  }

  lemma SettledAfterAccrual(a: Run, b: Run, open: set<int>)
    requires a.ledger.fills == b.ledger.fills && a.cancelled == b.cancelled && a.issued == b.issued
    requires Settled(a, open)
    ensures Settled(b, open)
  {
    forall k | 0 <= k < |b.issued|
      ensures if b.issued[k].id in open then Untouched(b, b.issued[k].id) else Resolved(b, b.issued[k])
    {
      if a.issued[k].id in open {
        assert Untouched(a, a.issued[k].id);
      } else {
        assert Resolved(a, a.issued[k]);
      }
    }
    forall id | id < 1 || id > |b.issued| ensures Untouched(b, id) {
      assert Untouched(a, id);
    }
  }

  lemma InterestIsNotNegative(setup: Setup, cash: int, i: nat)
    requires setup.Valid() && 0 < i < |setup.sessions| && 0 <= cash
    ensures 0.0 <= InterestOn(setup, cash, i)
  {
    var days := setup.sessions[i].date - setup.sessions[i - 1].date;
    assert 0 < days;
    TimesMonotone(0.0, setup.interestRate, cash as real);
    TimesMonotone(0.0, days as real, cash as real * setup.interestRate);
  }

  lemma AccrualIsSound(l: Ledger, amount: real)
    requires Sound(l) && 0 <= RoundHalfEven(amount)
    ensures Accrue(l, amount).error.None? && Sound(Accrue(l, amount).ledger)
  {
    PerformKeepsLaws(l, Interest(amount));
  }

  lemma MarkKeeps(setup: Setup, st: Run, i: nat, slot: int)
    requires setup.Valid() && i < |setup.sessions| && Invariant(setup, st, slot)
    ensures Mark(setup, st, i) == Success(st)
  {
    hide Settled, Sum, Equity, MarketValues, CostsOf, Numbered, AllScheduled;
    KnownPricesCover(setup, st.ledger, i);
    EquityIsExplained(st.ledger, Marks(setup, i), setup.Scale());
  }

  lemma MorningKeeps(setup: Setup, st: Run, i: nat)
    requires setup.Valid() && i < |setup.sessions| && Usable(setup, st)
    requires Invariant(setup, st, 2 * i)
    ensures var r := Morning(setup, st, i);
      && (r.Failure? ==> MarketError(setup, r.error))
      && (r.Success? ==> Invariant(setup, r.value, 2 * i + 1))
      && (r.Success? ==> ScheduleOf(setup.timing, setup.sessions[i], setup.delay, setup.nearCloseMinutes).Success?)
  {
    hide Invariant, FillDue, Decide;
    FillDueKeeps(setup, st, i, AtOpen);
    var begun := FillDue(setup, st, i, AtOpen);
    var sch := ScheduleOf(setup.timing, setup.sessions[i], setup.delay, setup.nearCloseMinutes);
    if begun.Success? && sch.Success? && (setup.timing == NearClose || setup.timing == ClosingAuction) {
      DecideKeeps(setup, begun.value, i);
    }
  }

  lemma EveningKeeps(setup: Setup, st: Run, i: nat)
    requires setup.Valid() && i < |setup.sessions| && Usable(setup, st)
    requires Invariant(setup, st, 2 * i + 1)
    requires ScheduleOf(setup.timing, setup.sessions[i], setup.delay, setup.nearCloseMinutes).Success?
    ensures var r := Evening(setup, st, i);
      && (r.Failure? ==> MarketError(setup, r.error))
      && (r.Success? ==> Invariant(setup, r.value, 2 * i + 2))
  {
    hide Invariant, FillDue, Decide, PayInterest, Mark;
    FillDueKeeps(setup, st, i, AtClose);
    var closed := FillDue(setup, st, i, AtClose);
    if closed.Success? {
      InterestKeeps(setup, closed.value, i, 2 * i + 2);
      var paid := PayInterest(setup, closed.value, i);
      MarkKeeps(setup, paid.value, i, 2 * i + 2);
      if setup.timing == NextOpen || setup.timing == NextClose {
        DecideKeeps(setup, paid.value, i);
      }
    }
  }

  lemma {:induction false} RunKeeps(setup: Setup, st: Run, i: nat)
    requires setup.Valid() && i <= |setup.sessions| && Usable(setup, st)
    requires Invariant(setup, st, 2 * i)
    ensures var r := RunFrom(setup, st, i);
      && (r.Failure? ==> MarketError(setup, r.error))
      && (r.Success? ==> Invariant(setup, r.value, 2 * |setup.sessions|))
    decreases |setup.sessions| - i
  {
    hide Invariant, Morning, Evening;
    if i < |setup.sessions| {
      MorningKeeps(setup, st, i);
      var noon := Morning(setup, st, i);
      if noon.Success? {
        EveningKeeps(setup, noon.value, i);
        var night := Evening(setup, noon.value, i);
        if night.Success? {
          RunKeeps(setup, night.value, i + 1);
        }
      }
    }
  }

  lemma StartKeeps(setup: Setup, initialCash: int)
    requires setup.Valid() && 0 <= initialCash
    ensures Invariant(setup, Start(initialCash), 0) && Usable(setup, Start(initialCash))
  {
    OpenIsLawful(initialCash);
  }

  // ------------------------------------------------------------ whole backtests

  // Every way a backtest can go wrong is in the market data or the configuration: it
  // never looks ahead, never breaks the accounting identity, never overdraws on a buy,
  // never sells more than it holds and never meets an invalid lot or a missing mark.
  lemma BacktestFailsOnlyOnMarkets(setup: Setup, initialCash: int)
    requires setup.Valid() && 0 <= initialCash
    ensures var r := Backtest(setup, initialCash);
      r.Failure? ==> MarketError(setup, r.error)
  {
    hide Invariant, RunFrom;
    StartKeeps(setup, initialCash);
    RunKeeps(setup, Start(initialCash), 0);
  }

  // No slot is left after the last session, so no order can still be waiting for one.
  lemma NothingLeft(setup: Setup, st: Run)
    requires AllScheduled(setup, st, 2 * |setup.sessions|)
    ensures st.pending == []
  {
    FirstIsMember(st.pending);
  }

  lemma FirstIsMember(orders: seq<Order>)
    ensures orders != [] ==> orders[0] in orders
  {
  }

  // Every order issued in a finished backtest was resolved exactly once, during the
  // session loop: nothing is left to cancel when it ends.
  lemma BacktestResolvesEveryOrder(setup: Setup, initialCash: int, k: nat)
    requires setup.Valid() && 0 <= initialCash
    requires Backtest(setup, initialCash).Success?
    ensures var st := Backtest(setup, initialCash).value;
      && RunFrom(setup, Start(initialCash), 0) == Success(st)
      && st.pending == []
      && (k < |st.issued| ==> Resolved(st, st.issued[k]))
  {
    hide RunFrom;
    StartKeeps(setup, initialCash);
    RunKeeps(setup, Start(initialCash), 0);
    var last := RunFrom(setup, Start(initialCash), 0).value;
    NothingLeft(setup, last);
    if k < |last.issued| {
      assert last.issued[k].id !in Ids(last.pending);
    }
  }

  // Every finished backtest is exact, causal and in order: the ledger laws hold, no fill
  // used data from its future, and round trips close lots in the order they were opened.
  lemma BacktestIsSound(setup: Setup, initialCash: int)
    requires setup.Valid() && 0 <= initialCash
    requires Backtest(setup, initialCash).Success?
    ensures var l := Backtest(setup, initialCash).value.ledger;
      && Sound(l)
      && Causal(l.fills, AllowsSameBarClose(setup.timing, setup.delay))
      && (forall i, j :: 0 <= i < j < |l.roundTrips| && l.roundTrips[i].symbol == l.roundTrips[j].symbol ==>
            l.roundTrips[i].entryTime <= l.roundTrips[j].entryTime)
  {
    hide RunFrom;
    StartKeeps(setup, initialCash);
    RunKeeps(setup, Start(initialCash), 0);
    BacktestResolvesEveryOrder(setup, initialCash, 0);
    var l := Backtest(setup, initialCash).value.ledger;
    hide Sound;
    forall i, j | 0 <= i < j < |l.roundTrips| && l.roundTrips[i].symbol == l.roundTrips[j].symbol
      ensures l.roundTrips[i].entryTime <= l.roundTrips[j].entryTime
    {
      SoundIsLawful(l);
      EntryTimesNeverDecrease(l, i, j);
    }
  }

  lemma SoundIsLawful(l: Ledger)
    requires Sound(l)
    ensures Lawful(l)
  {
  }
}
