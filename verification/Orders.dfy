/** The order path of one team: submit, try to execute, sweep, cancel.

    `TeamRec` is everything the database holds for one team. Orders and fills are append-only sequences,
    so an order's id is its index. Every operation is a function from one state to the next, given the
    market around it.
 */
module Orders {
  import opened Money
  import opened Fees
  import opened Books
  import opened Risk
  import opened Pricing
  import opened Limits

  datatype Option<+T> = None | Some(value: T)

  datatype MarketState = Closed | PreOpen | Open | MarketHalted | MarketFrozen | Final

  datatype TeamStatus = TeamActive | TeamFrozen | Busted | Disqualified

  datatype OrderType = Market | Limit | StopMarket | StopLimit {
    predicate IsStop() { StopMarket? || StopLimit? }

    /** A triggered stop works as a plain market or limit order. */
    predicate WorksAsMarket() { Market? || StopMarket? }
  }

  datatype OrderStatus = Pending | Triggered | Filled | Cancelled | Rejected {
    predicate IsOpen() { Pending? || Triggered? }
  }

  datatype Tag = Normal | Margin | SquareOff

  /** `avg` is 0 until the first fill; `tolerance` is in millionths of a per cent. */
  datatype OrderRec = OrderRec(
    side: Side, kind: OrderType, symbol: Symbol, qty: int, limit: Option<int>, trigger: Option<int>,
    tolerance: Option<int>, clientId: string, tag: Tag,
    status: OrderStatus, filled: nat, avg: int, fees: int)

  datatype FillRec = FillRec(order: nat, symbol: Symbol, side: Side, qty: nat, price: int, fee: int, realised: int)

  datatype TeamRec = TeamRec(status: TeamStatus, book: Book, orders: seq<OrderRec>, fills: seq<FillRec>)

  datatype Rules = Rules(fees: FeeRules, margin: MarginRules, slippage: bool, maxOrderQty: int)

  /** The market an operation runs against. */
  datatype Env = Env(market: MarketState, instruments: map<Symbol, Instr>, rules: Rules) {
    function Marks(): Marks { map s | s in instruments :: instruments[s].last }

    ghost predicate Sound() {
      && (forall s | s in instruments :: instruments[s].Sound() && instruments[s].symbol == s)
      && rules.fees.Nonnegative()
    }
  }

  // ------------------------------------------------------------------ booking a fill

  /** The order's half of booking a fill. */
  function FilledOrder(o: OrderRec, qty: nat, price: int, fee: int): OrderRec
    requires qty > 0
  {
    var filled := o.filled + qty;
    o.(filled := filled,
       avg := RoundDiv(o.avg * o.filled + price * qty, filled),
       fees := Paise(o.fees + fee, 1),
       status := if filled >= o.qty then Filled else o.status)
  }

  /** The team with a fill in its books, its order and its fill table. */
  function ExecuteFill(t: TeamRec, i: nat, ins: Instr, qty: nat, price: int, rules: Rules): TeamRec
    requires i < |t.orders| && qty > 0 && ins.tick > 0
  {
    var o := t.orders[i];
    var snapped := RoundToTick(price, 1, ins.tick);
    var fee := ComputeFees(rules.fees, Gross(qty, snapped), o.side);
    var realised := RealisedBy(t.book.positions, ins.symbol, o.side, qty, snapped);
    TeamRec(
      t.status,
      Booked(t.book, ins.symbol, o.side, qty, snapped, fee),
      t.orders[i := FilledOrder(o, qty, snapped, fee)],
      t.fills + [FillRec(i, ins.symbol, o.side, qty, snapped, fee, realised)])
  }

  // ------------------------------------------------------------------ trying to execute

  datatype Attempt = Nothing | Refused | Executed(team: TeamRec)

  /** Shares of a working order that could fill now; 0 when it is not marketable. */
  function Fillable(o: OrderRec, ins: Instr, slippage: bool): int
    requires ins.tick > 0
  {
    var remaining := o.qty - o.filled;
    if o.kind.WorksAsMarket() then remaining
    else if o.limit.None? then 0
    else Min(remaining, MaxQtyWithinLimit(ins, o.side, o.limit.value, QuoteFor(ins).Touch(o.side), slippage))
  }

  /** The price `qty` shares of it would fill at. */
  function DealPrice(o: OrderRec, ins: Instr, qty: int, slippage: bool): int
    requires ins.tick > 0
  {
    var price := FillPrice(ins, o.side, QuoteFor(ins).Touch(o.side), qty, slippage);
    if !o.kind.WorksAsMarket() && o.limit.Some? then Clamp(o.side, price, o.limit.value) else price
  }

  /** A market order priced further from the quote than the participant accepts. */
  predicate Slipped(o: OrderRec, ins: Instr, price: int)
    requires ins.tick > 0
  {
    var touch := QuoteFor(ins).Touch(o.side);
    && o.kind.WorksAsMarket() && o.tolerance.Some? && o.tolerance.value >= 0 && touch > 0
    && Abs(price - touch) * PERCENT > o.tolerance.value * touch
  }

  /** The fill would leave available funds below zero. */
  predicate Unaffordable(t: TeamRec, o: OrderRec, ins: Instr, qty: nat, price: int, env: Env) {
    ProjectAvailable(
      Valued(t.book, env.Marks(), env.rules.margin), QtyOf(t.book.positions, ins.symbol), o.side, qty, price, ins.last,
      ComputeFees(env.rules.fees, Gross(qty, price), o.side), env.rules.margin) < 0
  }

  function TryExecute(t: TeamRec, i: nat, ins: Instr, env: Env, enforceSlippage: bool, enforceFunds: bool): Attempt
    requires i < |t.orders| && ins.tick > 0
  {
    var o := t.orders[i];
    if o.qty - o.filled <= 0 || !env.market.Open? || !SideAllowed(ins.status, o.side) then Nothing
    else
      var qty := Fillable(o, ins, env.rules.slippage);
      if qty <= 0 then Nothing
      else
        var price := DealPrice(o, ins, qty, env.rules.slippage);
        if enforceSlippage && Slipped(o, ins, price) then Refused
        else if enforceFunds && Unaffordable(t, o, ins, qty, price, env) then Refused
        else Executed(ExecuteFill(t, i, ins, qty, price, env.rules))
  }

  // ------------------------------------------------------------------ submit, sweep, cancel

  datatype Request = Request(
    side: Side, kind: OrderType, symbol: Symbol, qty: int, limit: Option<int>, trigger: Option<int>,
    tolerance: Option<int>, clientId: string)

  function NewOrder(r: Request, tag: Tag, status: OrderStatus): OrderRec {
    OrderRec(r.side, r.kind, r.symbol, r.qty, r.limit, r.trigger, r.tolerance, r.clientId, tag, status, 0, 0, 0)
  }

  predicate OnTick(price: Option<int>, tick: int)
    requires tick > 0
  {
    price.Some? && price.value > 0 && RoundToTick(price.value, 1, tick) == price.value
  }

  /** Quantity, limit and trigger are ones the exchange accepts. */
  predicate ValidRequest(r: Request, ins: Instr, rules: Rules)
    requires ins.tick > 0
  {
    && 0 < r.qty <= rules.maxOrderQty
    && (ins.lot > 1 ==> r.qty % ins.lot == 0)
    && (r.kind.Limit? || r.kind.StopLimit? ==> OnTick(r.limit, ins.tick))
    && (r.kind.IsStop() ==> OnTick(r.trigger, ins.tick))
  }

  /** The instrument can be traded at all, and in an open market the side is not locked at a circuit. */
  predicate CanTrade(ins: Instr, side: Side, market: MarketState) {
    ins.status.Tradable() && (market.Open? ==> SideAllowed(ins.status, side))
  }

  predicate Accepts(t: TeamRec, r: Request, ins: Instr, env: Env)
    requires ins.tick > 0
  {
    && ins.listed && t.status.TeamActive? && (env.market.Open? || env.market.PreOpen?)
    && !(env.market.PreOpen? && r.kind.Market?)
    && ValidRequest(r, ins, env.rules) && CanTrade(ins, r.side, env.market)
  }

  /** The last price has reached the trigger: from below for a buy, from above for a sell. */
  predicate StopTriggered(o: OrderRec, last: int) {
    o.trigger.Some? && if o.side.Buy? then last >= o.trigger.value else last <= o.trigger.value
  }

  predicate Seen(t: TeamRec, clientId: string) { clientId != "" && exists o | o in t.orders :: o.clientId == clientId }

  function Marked(t: TeamRec, i: nat, status: OrderStatus): TeamRec
    requires i < |t.orders|
  {
    t.(orders := t.orders[i := t.orders[i].(status := status)])
  }

  function Appended(t: TeamRec, o: OrderRec): TeamRec { t.(orders := t.orders + [o]) }

  /** Try to fill an order just accepted: a refusal rejects it, and so does an idle market order. */
  function Worked(t: TeamRec, i: nat, ins: Instr, market: bool, env: Env): TeamRec
    requires i < |t.orders| && ins.tick > 0
  {
    match TryExecute(t, i, ins, env, true, true)
    case Executed(t') => t'
    case Refused => Marked(t, i, Rejected)
    case Nothing => if market then Marked(t, i, Rejected) else t
  }

  /** Record an acceptable order and, unless it is a stop whose trigger is not met, try to fill it. */
  function Enter(t: TeamRec, r: Request, ins: Instr, env: Env): TeamRec
    requires ins.tick > 0
  {
    var t1 := Appended(t, NewOrder(r, Normal, Pending));
    var i := |t.orders|;
    if r.kind.IsStop() && !StopTriggered(t1.orders[i], ins.last) then t1
    else
      var t2 := if r.kind.IsStop() then Marked(t1, i, Triggered) else t1;
      Worked(t2, i, ins, r.kind.Market?, env)
  }

  /** Place an order. A repeated client id changes nothing; a refusal
      leaves a REJECTED row, except for an unknown symbol, which cannot be recorded. */
  function Submit(t: TeamRec, r: Request, env: Env): TeamRec
    requires env.Sound()
  {
    if Seen(t, r.clientId) || r.symbol !in env.instruments then t
    else
      var ins := env.instruments[r.symbol];
      if Accepts(t, r, ins, env) then Enter(t, r, ins, env) else Appended(t, NewOrder(r, Normal, Rejected))
  }

  /** Try to fill a resting order: one that can no longer be afforded is cancelled. */
  function Retried(t: TeamRec, i: nat, ins: Instr, env: Env): TeamRec
    requires i < |t.orders| && ins.tick > 0
  {
    match TryExecute(t, i, ins, env, false, true)
    case Executed(t') => t'
    case Refused => Marked(t, i, Cancelled)
    case Nothing => t
  }

  /** Evaluate one working order against the current prices. */
  function SweepOne(t: TeamRec, i: nat, env: Env): TeamRec
    requires env.Sound()
  {
    if i >= |t.orders| || !t.orders[i].status.IsOpen() || t.orders[i].symbol !in env.instruments then t
    else
      var o := t.orders[i];
      var ins := env.instruments[o.symbol];
      if !ins.status.Tradable() then t
      else
        var dormant := o.kind.IsStop() && o.status.Pending?;
        if dormant && !StopTriggered(o, ins.last) then t
        else
          var t1 := if dormant then Marked(t, i, Triggered) else t;
          Retried(t1, i, ins, env)
  }

  function SweepFrom(t: TeamRec, ids: seq<nat>, env: Env): TeamRec
    requires env.Sound()
  {
    if ids == [] then t else SweepOne(SweepFrom(t, ids[..|ids| - 1], env), ids[|ids| - 1], env)
  }

  /** The engine's pass over a team's working orders; teams that are not active are left alone. */
  function SweepAll(t: TeamRec, ids: seq<nat>, env: Env): TeamRec
    requires env.Sound()
  {
    if t.status.TeamActive? then SweepFrom(t, ids, env) else t
  }

  /** A participant's cancel: refused, changing nothing, once the order is terminal. */
  function Cancel(t: TeamRec, i: nat): TeamRec {
    if i < |t.orders| && t.orders[i].status.IsOpen() then Marked(t, i, Cancelled) else t
  }

  predicate Working(o: OrderRec, symbol: Option<Symbol>) {
    o.status.IsOpen() && (symbol.None? || o.symbol == symbol.value)
  }

  /** Cancel every working order, or every one in `symbol`. */
  function CancelWorking(t: TeamRec, symbol: Option<Symbol>): TeamRec {
    t.(orders := seq(|t.orders|, k requires 0 <= k < |t.orders| =>
      if Working(t.orders[k], symbol) then t.orders[k].(status := Cancelled) else t.orders[k]))
  }
}
