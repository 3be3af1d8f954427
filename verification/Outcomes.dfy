/** What becomes of an order that is placed, and of a working one that is swept: when a stop wakes, when an order fills
    and how much of it, when it is rejected or cancelled, and when it is left alone. Said of trigger, limit, touch
    and tolerance, and of available funds as they would be with the fill in the books.
 */
module Outcomes {
  import opened Money
  import opened Fees
  import opened Books
  import opened Risk
  import opened Pricing
  import opened Limits
  import opened Orders
  import opened OrderLaws

  // ------------------------------------------------------------------ stops

  /** Swept in a stock that is neither halted nor suspended, a dormant stop wakes exactly when the last price has
      reached its trigger, and until then the sweep changes nothing. */
  lemma StopWakes(t: TeamRec, i: nat, env: Env)
    requires env.Sound() && i < |t.orders| && t.orders[i].kind.IsStop() && t.orders[i].status.Pending?
    requires t.orders[i].symbol in env.instruments
    requires var s := env.instruments[t.orders[i].symbol].status; !s.Halted? && !s.Suspended?
    ensures var o, t' := t.orders[i], SweepOne(t, i, env);
      var last := env.instruments[o.symbol].last;
      var reached := o.trigger.Some? && if o.side.Buy? then last >= o.trigger.value else last <= o.trigger.value;
      && |t'.orders| == |t.orders| && (t'.orders[i].status.Pending? <==> !reached) && (!reached ==> t' == t)
  {
    hide RoundDiv, RoundToTick, Fillable, DealPrice, ComputeFees, Booked, RealisedBy, Unaffordable;
  }

  /** Placed and accepted, a stop stays PENDING exactly when the last price has not reached its trigger, and then
      recording it is all that happens. */
  lemma StopEnters(t: TeamRec, r: Request, env: Env)
    requires env.Sound() && r.symbol in env.instruments && r.kind.IsStop()
    requires r.clientId == "" || forall o | o in t.orders :: o.clientId != r.clientId
    requires Accepts(t, r, env.instruments[r.symbol], env)
    ensures var t', i, last := Submit(t, r, env), |t.orders|, env.instruments[r.symbol].last;
      var reached := r.trigger.Some? && if r.side.Buy? then last >= r.trigger.value else last <= r.trigger.value;
      && |t'.orders| == i + 1 && (t'.orders[i].status.Pending? <==> !reached)
      && (!reached ==> t'.orders[..i] == t.orders && t'.book == t.book && t'.fills == t.fills)
  {
    hide RoundDiv, RoundToTick, Fillable, DealPrice, ComputeFees, Booked, RealisedBy, Unaffordable, Slipped, Accepts;
  }

  // ------------------------------------------------------------------ the outcome of an attempt

  /** With this fill and its charges in the books, available funds would not be negative. */
  predicate Afforded(b: Book, symbol: Symbol, side: Side, qty: nat, price: int, env: Env) {
    var fee := ComputeFees(env.rules.fees, price * qty, side);
    Valued(Booked(b, symbol, side, qty, price, fee), env.Marks(), env.rules.margin).available >= 0
  }

  lemma AffordedExactly(t: TeamRec, o: OrderRec, ins: Instr, qty: nat, price: int, env: Env)
    requires env.Sound() && ins.symbol in env.instruments && env.instruments[ins.symbol] == ins
    requires OnGrid(t.book.cash, MICROS_PER_PAISA) && ins.tick > 0 && OnGrid(price, ins.tick)
    ensures Gross(qty, price) == price * qty
    ensures Unaffordable(t, o, ins, qty, price, env) <==> !Afforded(t.book, ins.symbol, o.side, qty, price, env)
  {
    hide RoundDiv, ComputeFees, ProjectAvailable, Valued, Booked, QtyOf, Gross;
    TickIsPaise(price, ins.tick);
    var fee := ComputeFees(env.rules.fees, price * qty, o.side);
    FeesSettle(env.rules.fees, price * qty, o.side);
    BookedCash(t.book, ins.symbol, o.side, qty, price, fee);
    FundsCheckIsRevaluation(t.book, env.Marks(), ins.symbol, o.side, qty, price, fee, env.rules.margin);
  }

  /** A market-type order, or a limit at the touch or through it. */
  predicate AtTouch(o: OrderRec, touch: int) {
    o.kind.WorksAsMarket()
    || (o.limit.Some? && touch > 0 && if o.side.Buy? then o.limit.value >= touch else o.limit.value <= touch)
  }

  predicate Within(o: OrderRec, price: int)
    requires o.limit.Some?
  {
    if o.side.Buy? then price <= o.limit.value else price >= o.limit.value
  }

  /** A resting limit is one the exchange accepted. */
  predicate LimitOnGrid(o: OrderRec, ins: Instr)
    requires ins.tick > 0
  {
    !o.kind.WorksAsMarket() ==> o.limit.Some? && o.limit.value > 0 && OnGrid(o.limit.value, ins.tick)
  }

  /** What an order at the touch could fill, and at what: something, all of it if there is no limit, and otherwise
      as much as the book holds within the limit, at the price the walk gives. */
  lemma FillableAtTouch(o: OrderRec, ins: Instr, slippage: bool)
    requires ins.Sound() && o.filled < o.qty && LimitOnGrid(o, ins)
    ensures var touch, n := QuoteFor(ins).Touch(o.side), Fillable(o, ins, slippage);
      && (n > 0 <==> AtTouch(o, touch)) && n <= o.qty - o.filled
      && (n > 0 ==> var price := FillPrice(ins, o.side, touch, n, slippage);
        && DealPrice(o, ins, n, slippage) == price && OnGrid(price, ins.tick)
        && RoundToTick(price, 1, ins.tick) == price && (!o.kind.WorksAsMarket() ==> Within(o, price)))
  {
    hide RoundDiv, RoundToTick, FillPrice, SliceQty, StepsWithin, QuoteFor;
    var touch, n := QuoteFor(ins).Touch(o.side), Fillable(o, ins, slippage);
    QuoteStraddles(ins);
    if !o.kind.WorksAsMarket() { WithinLimitPositive(ins, o.side, o.limit.value, touch, slippage); }
    if n > 0 {
      var price := FillPrice(ins, o.side, touch, n, slippage);
      PriceBounds(ins, o.side, touch, n, slippage);
      RoundToTickGrid(price, 1, ins.tick);
      if !o.kind.WorksAsMarket() { LimitHolds(ins, o.side, o.limit.value, touch, n, slippage); }
    }
  }

  /** A limit lets something fill exactly when the touch is positive and the limit at it or through it. */
  lemma WithinLimitPositive(ins: Instr, side: Side, limit: int, touch: int, slippage: bool)
    ensures MaxQtyWithinLimit(ins, side, limit, touch, slippage) > 0
      <==> touch > 0 && if side.Buy? then limit >= touch else limit <= touch
  {
    hide SliceQty, StepsWithin;
    if touch > 0 && Marketable(side, limit, touch) && Slips(ins, slippage) && ins.spread > 0 {
      MulMono(SliceQty(ins, touch), 1, StepsWithin(ins, side, limit, touch) + 1);
    }
  }

  /** A market-type order's price is no further from the touch than its owner accepts. */
  predicate Tolerated(o: OrderRec, touch: int, price: int) {
    !o.kind.WorksAsMarket() || o.tolerance.None? || o.tolerance.value < 0 || touch <= 0
    || Abs(price - touch) * PERCENT <= o.tolerance.value * touch
  }

  /** Order `i` was at the touch and free to trade. Between 1 and all of its remaining shares could fill, all of them
      without a limit, and with one as many as the walk holds within it, at no worse a price. They did if the team
      can afford them and, for a new order, its owner accepts the price. If not, a new order is REJECTED, a resting
      one CANCELLED, and nothing else has changed. */
  predicate Attempted(t: TeamRec, t': TeamRec, i: nat, ins: Instr, n: nat, price: int, placed: bool, env: Env)
    requires i < |t.orders| && ins.tick > 0
  {
    var o := t.orders[i];
    var touch, left := QuoteFor(ins).Touch(o.side), o.qty - o.filled;
    && 1 <= n <= left && price == FillPrice(ins, o.side, touch, n, env.rules.slippage)
    && (if o.kind.WorksAsMarket() then n == left else
        && o.limit.Some? && Within(o, price)
        && n == Min(left, MaxQtyWithinLimit(ins, o.side, o.limit.value, touch, env.rules.slippage)))
    && if (placed ==> Tolerated(o, touch, price)) && Afforded(t.book, ins.symbol, o.side, n, price, env)
       then GainsFill(t, t', i, ins.symbol, n, price, env)
       else t' == t.(orders := t.orders[i := o.(status := if placed then Rejected else Cancelled)])
  }

  /** Trying to fill a resting order that may trade. */
  lemma RetryOutcome(t: TeamRec, i: nat, ins: Instr, env: Env) returns (n: nat, price: int)
    requires env.Sound() && ins.symbol in env.instruments && env.instruments[ins.symbol] == ins
    requires i < |t.orders| && t.orders[i].filled < t.orders[i].qty && LimitOnGrid(t.orders[i], ins)
    requires OnGrid(t.book.cash, MICROS_PER_PAISA) && env.market.Open? && SideAllowed(ins.status, t.orders[i].side)
    ensures if AtTouch(t.orders[i], QuoteFor(ins).Touch(t.orders[i].side))
      then Attempted(t, Retried(t, i, ins, env), i, ins, n, price, false, env) else Retried(t, i, ins, env) == t
  {
    hide RoundDiv, RoundToTick, FillPrice, MaxQtyWithinLimit, QuoteFor, ComputeFees, Booked, RealisedBy, Unaffordable;
    hide Gross, Afforded;
    var o := t.orders[i];
    FillableAtTouch(o, ins, env.rules.slippage);
    n, price := 1, 0;
    if Fillable(o, ins, env.rules.slippage) > 0 {
      n := Fillable(o, ins, env.rules.slippage);
      price := DealPrice(o, ins, n, env.rules.slippage);
      AffordedExactly(t, o, ins, n, price, env);
    }
  }

  /** `n` shares of order `i` have filled at `price`, been booked with their charges and been recorded; the order
      is FILLED if that was the last of it. Nothing else has changed. */
  predicate GainsFill(t: TeamRec, t': TeamRec, i: nat, symbol: Symbol, n: nat, price: int, env: Env)
    requires i < |t.orders|
  {
    var o := t.orders[i];
    var fee := ComputeFees(env.rules.fees, price * n, o.side);
    && t'.status == t.status && t'.book == Booked(t.book, symbol, o.side, n, price, fee)
    && |t'.fills| == |t.fills| + 1 && t'.fills[..|t.fills|] == t.fills
    && var f := t'.fills[|t.fills|];
    && f.order == i && f.symbol == symbol && f.side == o.side && f.qty == n && f.price == price && f.fee == fee
    && |t'.orders| == |t.orders| && (forall j | 0 <= j < |t.orders| && j != i :: t'.orders[j] == t.orders[j])
    && SameTerms(o, t'.orders[i]) && t'.orders[i].filled == o.filled + n
    && t'.orders[i].status == if o.filled + n == o.qty then Filled else o.status
  }

  // ------------------------------------------------------------------ sweeping one

  /** Order `i` due for a look: a woken stop is marked TRIGGERED, anything else is as it was. */
  function Roused(t: TeamRec, i: nat): TeamRec
    requires i < |t.orders|
  {
    if t.orders[i].kind.IsStop() then t.(orders := t.orders[i := t.orders[i].(status := Triggered)]) else t
  }

  /** Main result: exactly what a sweep makes of a working order in a stock that is neither halted nor suspended.
      A stop whose trigger has not been reached is left alone. Of the rest, one that is not at the touch, or may not
      trade now, is left working, a stop marked TRIGGERED. One that is and may fills, at least in part, exactly when
      available funds would not be negative afterwards, and is CANCELLED exactly when they would be. */
  lemma SweepOutcome(t: TeamRec, i: nat, env: Env) returns (n: nat, price: int)
    requires env.Sound() && i < |t.orders| && t.orders[i].symbol in env.instruments
    requires t.orders[i].status.IsOpen() && t.orders[i].filled < t.orders[i].qty
    requires LimitOnGrid(t.orders[i], env.instruments[t.orders[i].symbol]) && OnGrid(t.book.cash, MICROS_PER_PAISA)
    requires var s := env.instruments[t.orders[i].symbol].status; !s.Halted? && !s.Suspended?
    ensures var o, ins, t' := t.orders[i], env.instruments[t.orders[i].symbol], SweepOne(t, i, env);
      var reached :=
        o.trigger.Some? && if o.side.Buy? then ins.last >= o.trigger.value else ins.last <= o.trigger.value;
      var free := ins.status.Active? || if o.side.Buy? then ins.status.LowerCircuit? else ins.status.UpperCircuit?;
      if o.kind.IsStop() && o.status.Pending? && !reached then t' == t
      else if env.market.Open? && free && AtTouch(o, QuoteFor(ins).Touch(o.side)) then
        Attempted(Roused(t, i), t', i, ins, n, price, false, env)
      else t' == Roused(t, i)
  {
    hide RoundDiv, RoundToTick, QuoteFor, Retried, Attempted;
    var o, ins := t.orders[i], env.instruments[t.orders[i].symbol];
    SweepIs(t, i, env);
    n, price := 1, 0;
    if env.market.Open? && SideAllowed(ins.status, o.side) {
      n, price := RetryOutcome(Roused(t, i), i, ins, env);
    } else {
      RetryNothing(Roused(t, i), i, ins, env);
    }
  }

  lemma SweepIs(t: TeamRec, i: nat, env: Env)
    requires env.Sound() && i < |t.orders| && t.orders[i].symbol in env.instruments
    requires t.orders[i].status.IsOpen()
    requires var s := env.instruments[t.orders[i].symbol].status; !s.Halted? && !s.Suspended?
    ensures var o, ins := t.orders[i], env.instruments[t.orders[i].symbol];
      SweepOne(t, i, env)
      == if o.kind.IsStop() && o.status.Pending? && !StopTriggered(o, ins.last) then t
         else Retried(Roused(t, i), i, ins, env)
  {
    hide Retried, StopTriggered;
    var o := t.orders[i];
    assert t.orders[i := o] == t.orders;
  }

  lemma RetryNothing(t: TeamRec, i: nat, ins: Instr, env: Env)
    requires i < |t.orders| && ins.tick > 0 && !(env.market.Open? && SideAllowed(ins.status, t.orders[i].side))
    ensures Retried(t, i, ins, env) == t
  {
  }

  /** Every other look is no look: an order that is terminal, or in a stock that is unknown, halted or suspended. */
  lemma SweepLeaves(t: TeamRec, i: nat, env: Env)
    requires env.Sound()
    requires i < |t.orders| && t.orders[i].status.IsOpen() && t.orders[i].symbol in env.instruments ==>
      var s := env.instruments[t.orders[i].symbol].status; s.Halted? || s.Suspended?
    ensures SweepOne(t, i, env) == t
  {
  }

  // ------------------------------------------------------------------ placing an order

  /** Trying to fill a new order that may trade. */
  lemma WorkOutcome(t: TeamRec, i: nat, ins: Instr, env: Env) returns (n: nat, price: int)
    requires env.Sound() && ins.symbol in env.instruments && env.instruments[ins.symbol] == ins
    requires i < |t.orders| && t.orders[i].filled < t.orders[i].qty && LimitOnGrid(t.orders[i], ins)
    requires OnGrid(t.book.cash, MICROS_PER_PAISA) && env.market.Open? && SideAllowed(ins.status, t.orders[i].side)
    ensures var t' := Worked(t, i, ins, t.orders[i].kind.Market?, env);
      if AtTouch(t.orders[i], QuoteFor(ins).Touch(t.orders[i].side))
      then Attempted(t, t', i, ins, n, price, true, env) else t' == t
  {
    hide RoundDiv, RoundToTick, FillPrice, MaxQtyWithinLimit, QuoteFor, ComputeFees, Booked, RealisedBy, Unaffordable;
    hide Gross, Afforded;
    var o := t.orders[i];
    FillableAtTouch(o, ins, env.rules.slippage);
    n, price := 1, 0;
    if Fillable(o, ins, env.rules.slippage) > 0 {
      n := Fillable(o, ins, env.rules.slippage);
      price := DealPrice(o, ins, n, env.rules.slippage);
      AffordedExactly(t, o, ins, n, price, env);
    }
  }

  /** Main result: exactly what placing an order makes of a team, for a client id not seen before in a stock that
      exists. One that is not accepted is recorded as REJECTED; a stop whose trigger has not been reached is recorded.
      Of the rest, one at the touch of an open market fills, at least in part, exactly when its owner accepts the
      price and available funds would not be negative afterwards, and is REJECTED otherwise; any other rests. */
  lemma PlaceOutcome(t: TeamRec, r: Request, env: Env) returns (n: nat, price: int)
    requires env.Sound() && r.symbol in env.instruments && OnGrid(t.book.cash, MICROS_PER_PAISA)
    requires r.clientId == "" || forall o | o in t.orders :: o.clientId != r.clientId
    ensures var ins, t', i := env.instruments[r.symbol], Submit(t, r, env), |t.orders|;
      var o := OrderRec(
        r.side, r.kind, r.symbol, r.qty, r.limit, r.trigger, r.tolerance, r.clientId, Normal, Pending, 0, 0, 0);
      var t1 := t.(orders := t.orders + [o]);
      var reached :=
        r.trigger.Some? && if r.side.Buy? then ins.last >= r.trigger.value else ins.last <= r.trigger.value;
      if !Accepts(t, r, ins, env) then t' == t.(orders := t.orders + [o.(status := Rejected)])
      else if r.kind.IsStop() && !reached then t' == t1
      else if env.market.Open? && AtTouch(o, QuoteFor(ins).Touch(r.side)) then
        Attempted(Roused(t1, i), t', i, ins, n, price, true, env)
      else t' == Roused(t1, i)
  {
    hide RoundDiv, RoundToTick, QuoteFor, Worked, Attempted, Accepts;
    var ins, i := env.instruments[r.symbol], |t.orders|;
    n, price := 1, 0;
    if Accepts(t, r, ins, env) {
      var t1 := Appended(t, NewOrder(r, Normal, Pending));
      AcceptedMeans(t, r, ins, env);
      if env.market.Open? {
        n, price := WorkOutcome(Roused(t1, i), i, ins, env);
      } else {
        WorkNothing(Roused(t1, i), i, ins, env);
      }
    }
  }

  lemma AcceptedMeans(t: TeamRec, r: Request, ins: Instr, env: Env)
    requires ins.tick > 0 && Accepts(t, r, ins, env)
    ensures r.qty > 0 && LimitOnGrid(NewOrder(r, Normal, Pending), ins)
    ensures env.market.Open? ==> SideAllowed(ins.status, r.side)
    ensures env.market.Open? || !r.kind.Market?
  {
    hide RoundDiv, RoundToTick;
    if r.limit.Some? { RoundToTickGrid(r.limit.value, 1, ins.tick); }
  }

  lemma WorkNothing(t: TeamRec, i: nat, ins: Instr, env: Env)
    requires i < |t.orders| && ins.tick > 0 && !env.market.Open? && !t.orders[i].kind.Market?
    ensures Worked(t, i, ins, false, env) == t
  {
  }
}
