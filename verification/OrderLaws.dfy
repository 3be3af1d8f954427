/** What every step of the order path keeps: orders are their fills, terminal orders never change, limits
    hold on average, funds-checked fills are affordable, and no fill makes money at fixed marks.
 */
module OrderLaws {
  import opened Money
  import opened Fees
  import opened Books
  import opened Risk
  import opened Pricing
  import opened Limits
  import opened Liquidation
  import opened Orders
  import opened Totals

  // ------------------------------------------------------------------ what a fill is

  /** Instrument facts the orders in a book rely on, constant over a competition. */
  type Ticks = map<Symbol, int>

  ghost predicate Uses(env: Env, ticks: Ticks) {
    env.Sound() && forall s | s in env.instruments :: s in ticks && ticks[s] == env.instruments[s].tick
  }

  /** Limits and triggers of accepted orders are on their instrument's tick grid. */
  ghost predicate WellPriced(o: OrderRec, ticks: Ticks) {
    o.status.Rejected? || o.kind.WorksAsMarket()
    || (&& o.symbol in ticks && ticks[o.symbol] > 0
        && o.limit.Some? && o.limit.value > 0 && OnGrid(o.limit.value, ticks[o.symbol]))
  }

  /** An order that `TryExecute` executes fills some of what remains, at a price on the tick grid no better
      than the touch nor worse than its limit, and (if asked) only when the result is affordable. */
  lemma ExecutedFill(t: TeamRec, i: nat, ins: Instr, env: Env, ticks: Ticks, enforceSlippage: bool, enforceFunds: bool)
    requires i < |t.orders| && Uses(env, ticks) && ins.symbol in env.instruments && ins == env.instruments[ins.symbol]
    requires t.orders[i].symbol == ins.symbol && t.orders[i].status.IsOpen() && WellPriced(t.orders[i], ticks)
    requires TryExecute(t, i, ins, env, enforceSlippage, enforceFunds).Executed?
    ensures var o := t.orders[i];
      var qty := Fillable(o, ins, env.rules.slippage);
      && 0 < qty <= o.qty - o.filled
      && var price := DealPrice(o, ins, qty, env.rules.slippage);
      && OnGrid(price, ins.tick)
      && NoBetter(o.side, price, QuoteFor(ins).Touch(o.side))
      && NoBetter(o.side, price, ins.last)
      && (!o.kind.WorksAsMarket() ==> NoBetter(o.side, o.limit.value, price))
      && (o.kind.WorksAsMarket() ==> qty == o.qty - o.filled)
      && (enforceFunds ==> !Unaffordable(t, o, ins, qty, price, env))
      && RoundToTick(price, 1, ins.tick) == price
      && TryExecute(t, i, ins, env, enforceSlippage, enforceFunds)
         == Executed(ExecuteFill(t, i, ins, qty, price, env.rules))
  {
    hide RoundDiv, RoundToTick, FillPrice, MaxQtyWithinLimit, Unaffordable, ExecuteFill;
    var o := t.orders[i];
    var qty := Fillable(o, ins, env.rules.slippage);
    var price := DealPrice(o, ins, qty, env.rules.slippage);
    var base := QuoteFor(ins).Touch(o.side);
    QuoteStraddles(ins);
    if base > 0 {
      PriceBounds(ins, o.side, base, qty, env.rules.slippage);
      if !o.kind.WorksAsMarket() {
        LimitHolds(ins, o.side, o.limit.value, base, qty, env.rules.slippage);
      }
    } else {
      NoTouchNoLimit(o, ins, base, env.rules.slippage);
    }
    RoundToTickGrid(price, 1, ins.tick);
  }

  /** With no positive touch nothing is marketable but a market order, which trades at that touch. */
  lemma NoTouchNoLimit(o: OrderRec, ins: Instr, base: int, slippage: bool)
    requires ins.tick > 0 && base <= 0
    ensures forall limit: int :: MaxQtyWithinLimit(ins, o.side, limit, base, slippage) == 0
    ensures forall qty: int :: FillPrice(ins, o.side, base, qty, slippage) == base
  {
  }

  // ------------------------------------------------------------------ orders are their fills

  function FillQty(fills: seq<FillRec>, i: nat): int {
    if fills == [] then 0 else
      var last := fills[|fills| - 1];
      FillQty(fills[..|fills| - 1], i) + (if last.order == i then last.qty else 0)
  }

  function FillValue(fills: seq<FillRec>, i: nat): int {
    if fills == [] then 0 else
      var last := fills[|fills| - 1];
      FillValue(fills[..|fills| - 1], i) + (if last.order == i then last.price * last.qty else 0)
  }

  function FillFees(fills: seq<FillRec>, i: nat): int {
    if fills == [] then 0 else
      var last := fills[|fills| - 1];
      FillFees(fills[..|fills| - 1], i) + (if last.order == i then last.fee else 0)
  }

  function FillCount(fills: seq<FillRec>, i: nat): nat {
    if fills == [] then 0 else
      FillCount(fills[..|fills| - 1], i) + (if fills[|fills| - 1].order == i then 1 else 0)
  }

  lemma FillsAppend(fills: seq<FillRec>, f: FillRec, i: nat)
    ensures FillQty(fills + [f], i) == FillQty(fills, i) + (if f.order == i then f.qty else 0)
    ensures FillValue(fills + [f], i) == FillValue(fills, i) + (if f.order == i then f.price * f.qty else 0)
    ensures FillCount(fills + [f], i) == FillCount(fills, i) + (if f.order == i then 1 else 0)
    ensures FillFees(fills + [f], i) == FillFees(fills, i) + (if f.order == i then f.fee else 0)
  {
    assert (fills + [f])[..|fills|] == fills;
  }

  lemma {:induction false} NoFillsFor(fills: seq<FillRec>, i: nat)
    requires forall f | f in fills :: f.order != i
    ensures FillQty(fills, i) == 0 && FillValue(fills, i) == 0 && FillCount(fills, i) == 0 && FillFees(fills, i) == 0
  {
    if fills != [] {
      NoFillsFor(fills[..|fills| - 1], i);
      assert fills[|fills| - 1] in fills;
    }
  }

  /** One order against the fills booked for it. */
  ghost predicate Accounted(o: OrderRec, i: nat, fills: seq<FillRec>) {
    && o.filled == FillQty(fills, i)
    && o.filled <= Max(0, o.qty)
    && (o.status.Filled? <==> 0 < o.qty == o.filled)
    && (o.status.Rejected? ==> o.filled == 0)
    && o.fees == FillFees(fills, i) && OnGrid(o.fees, MICROS_PER_PAISA)
    // The average is within k half-micro-rupees of the true mean of k fills.
    && 2 * Abs(o.avg * o.filled - FillValue(fills, i)) <= FillCount(fills, i) * o.filled
    // A limit order's average is never worse than its limit.
    && (!o.kind.WorksAsMarket() && o.limit.Some? && o.filled > 0 ==> NoBetter(o.side, o.limit.value, o.avg))
  }

  /** P&L realised in a stock, as its fills recorded it. */
  function RealisedOn(fills: seq<FillRec>, symbol: Symbol): int {
    if fills == [] then 0 else
      var last := fills[|fills| - 1];
      RealisedOn(fills[..|fills| - 1], symbol) + (if last.symbol == symbol then last.realised else 0)
  }

  /** Charges paid in a stock, as its fills recorded them. */
  function FeesOn(fills: seq<FillRec>, symbol: Symbol): int {
    if fills == [] then 0 else
      var last := fills[|fills| - 1];
      FeesOn(fills[..|fills| - 1], symbol) + (if last.symbol == symbol then last.fee else 0)
  }

  /** What a position says it has realised and paid is what its fills recorded. */
  ghost predicate Tallied(b: Book, fills: seq<FillRec>) {
    forall s :: TalliedFor(RowFor(b.positions, s), fills, s)
  }

  ghost predicate TalliedFor(p: Pos, fills: seq<FillRec>, symbol: Symbol) {
    && p.realised == RealisedOn(fills, symbol)
    && p.feesPaid == FeesOn(fills, symbol) && OnGrid(p.feesPaid, MICROS_PER_PAISA)
  }

  lemma TalliedKeeps(b: Book, fills: seq<FillRec>, f: FillRec, b': Book)
    requires Tallied(b, fills) && f.qty > 0 && OnGrid(f.fee, MICROS_PER_PAISA)
    requires f.realised == RealisedBy(b.positions, f.symbol, f.side, f.qty, f.price)
    requires b'.positions == Repositioned(b.positions, f.symbol, f.side, f.qty, f.price, f.fee)
    ensures Tallied(b', fills + [f])
  {
    hide Repositioned, RealisedBy, FillMoves, RowFor, Paise, OnGrid;
    forall s
      ensures TalliedFor(RowFor(b'.positions, s), fills + [f], s)
    {
      assert (fills + [f])[..|fills|] == fills;
      assert TalliedFor(RowFor(b.positions, s), fills, s);
      FillMovesItsRow(b.positions, f.symbol, f.side, f.qty, f.price, f.fee, s);
      GridSum(RowFor(b.positions, s).feesPaid, f.fee, MICROS_PER_PAISA);
      PaiseExact(RowFor(b.positions, s).feesPaid + f.fee);
    }
  }

  ghost predicate TeamOk(t: TeamRec, ticks: Ticks) {
    && (forall i | 0 <= i < |t.orders| :: Accounted(t.orders[i], i, t.fills) && WellPriced(t.orders[i], ticks))
    && (forall k | 0 <= k < |t.fills| :: t.fills[k].order < |t.orders|)
    && DistinctSymbols(t.book.positions)
    && OnGrid(t.book.cash, MICROS_PER_PAISA)
    && Tallied(t.book, t.fills)
  }

  /** What no later step may undo: orders keep their terms, terminal ones keep everything, fills are only
      ever appended, and only to orders that were still open. */
  ghost predicate Continues(t: TeamRec, t': TeamRec) {
    && |t.orders| <= |t'.orders|
    && (forall i | 0 <= i < |t.orders| :: SameTerms(t.orders[i], t'.orders[i]))
    && (forall i | 0 <= i < |t.orders| && !t.orders[i].status.IsOpen() :: t'.orders[i] == t.orders[i])
    && |t.fills| <= |t'.fills| && t'.fills[..|t.fills|] == t.fills
    && (forall k | |t.fills| <= k < |t'.fills| && t'.fills[k].order < |t.orders| ::
          t.orders[t'.fills[k].order].status.IsOpen())
  }

  predicate SameTerms(o: OrderRec, o': OrderRec) {
    o' == o.(status := o'.status, filled := o'.filled, avg := o'.avg, fees := o'.fees)
  }

  lemma ContinuesTrans(t: TeamRec, u: TeamRec, v: TeamRec)
    requires Continues(t, u) && Continues(u, v)
    ensures Continues(t, v)
  {
    assert v.fills[..|t.fills|] == v.fills[..|u.fills|][..|t.fills|];
    forall k | |t.fills| <= k < |v.fills| && v.fills[k].order < |t.orders|
      ensures t.orders[v.fills[k].order].status.IsOpen()
    {
      if k < |u.fills| {
        assert v.fills[k] == v.fills[..|u.fills|][k] == u.fills[k];
      }
    }
  }

  // ------------------------------------------------------------------ the primitive steps

  lemma AppendKeeps(t: TeamRec, o: OrderRec, ticks: Ticks)
    requires TeamOk(t, ticks) && o.filled == 0 && o.fees == 0 && WellPriced(o, ticks)
    requires o.status.Pending? || o.status.Rejected?
    ensures TeamOk(Appended(t, o), ticks) && Continues(t, Appended(t, o))
  {
    var n := |t.orders|;
    forall f | f in t.fills
      ensures f.order != n
    {
      var k :| 0 <= k < |t.fills| && t.fills[k] == f;
    }
    NoFillsFor(t.fills, n);
  }

  /** Re-marking an open order as triggered or cancelled, or rejecting one that has no fills. */
  lemma MarkKeeps(t: TeamRec, i: nat, status: OrderStatus, ticks: Ticks)
    requires TeamOk(t, ticks) && i < |t.orders| && t.orders[i].status.IsOpen()
    requires status.Triggered? || status.Cancelled? || (status.Rejected? && t.orders[i].filled == 0)
    ensures TeamOk(Marked(t, i, status), ticks) && Continues(t, Marked(t, i, status))
  {
  }

  lemma FilledOrderAccounted(o: OrderRec, i: nat, fills: seq<FillRec>, f: FillRec, fee: int)
    requires Accounted(o, i, fills) && o.status.IsOpen()
    requires f.order == i && 0 < f.qty <= o.qty - o.filled
    requires !o.kind.WorksAsMarket() && o.limit.Some? ==> NoBetter(o.side, o.limit.value, f.price)
    requires f.fee == fee && OnGrid(fee, MICROS_PER_PAISA)
    ensures Accounted(FilledOrder(o, f.qty, f.price, fee), i, fills + [f])
  {
    hide RoundDiv, FillQty, FillValue, FillCount, FillFees, OnGrid, Paise;
    FillsAppend(fills, f, i);
    GridSum(o.fees, fee, MICROS_PER_PAISA);
    PaiseExact(o.fees + fee);
    var n, cost := o.filled + f.qty, o.avg * o.filled + f.price * f.qty;
    var avg := RoundDiv(cost, n);
    RoundDivNearest(cost, n);
    var k, value := FillCount(fills, i), FillValue(fills, i);
    assert n * avg == avg * n;
    MulMono(k, o.filled, n);
    assert (k + 1) * n == k * n + n;
    if !o.kind.WorksAsMarket() && o.limit.Some? {
      MeanRespects(o.side, o.limit.value, o.avg, o.filled, f.price, f.qty);
    }
  }

  /** The rounded mean of two quantities at prices no worse than the limit is no worse than the limit. */
  lemma MeanRespects(side: Side, limit: int, avg: int, filled: nat, price: int, qty: nat)
    requires qty > 0 && (filled > 0 ==> NoBetter(side, limit, avg)) && NoBetter(side, limit, price)
    ensures NoBetter(side, limit, RoundDiv(avg * filled + price * qty, filled + qty))
  {
    hide RoundDiv;
    var n := filled + qty;
    assert limit * n == limit * filled + limit * qty;
    if side.Buy? {
      MulMono(qty, price, limit);
      if filled > 0 { MulMono(filled, avg, limit); }
    } else {
      MulMono(qty, limit, price);
      if filled > 0 { MulMono(filled, limit, avg); }
    }
    RoundDivBetween(limit, avg * filled + price * qty, limit, n);
  }

  lemma OtherOrderAccounted(o: OrderRec, j: nat, fills: seq<FillRec>, f: FillRec)
    requires Accounted(o, j, fills) && f.order != j
    ensures Accounted(o, j, fills + [f])
  {
    hide FillQty, FillValue, FillCount, FillFees;
    FillsAppend(fills, f, j);
  }

  lemma RepositionedDistinct(ps: seq<Pos>, symbol: Symbol, side: Side, qty: nat, price: int, fee: int)
    requires DistinctSymbols(ps)
    ensures DistinctSymbols(Repositioned(ps, symbol, side, qty, price, fee))
  {
    hide RoundDiv;
  }

  /** Booking a fill the order still has room for, at a grid price within its limit. */
  lemma FillKeeps(t: TeamRec, i: nat, ins: Instr, qty: nat, price: int, rules: Rules, ticks: Ticks)
    requires TeamOk(t, ticks) && i < |t.orders| && t.orders[i].status.IsOpen()
    requires 0 < qty <= t.orders[i].qty - t.orders[i].filled
    requires ValidTick(ins.tick) && OnGrid(price, ins.tick) && RoundToTick(price, 1, ins.tick) == price
    requires rules.fees.Nonnegative()
    requires var o := t.orders[i]; !o.kind.WorksAsMarket() ==> o.limit.Some? && NoBetter(o.side, o.limit.value, price)
    ensures var t' := ExecuteFill(t, i, ins, qty, price, rules); TeamOk(t', ticks) && Continues(t, t')
  {
    hide RoundDiv, RoundToTick, FilledOrder, Accounted, Booked, Repositioned, ComputeFees, RealisedBy;
    var o, t' := t.orders[i], ExecuteFill(t, i, ins, qty, price, rules);
    var fee := ComputeFees(rules.fees, Gross(qty, price), o.side);
    var f := t'.fills[|t.fills|];
    FeesSettle(rules.fees, Gross(qty, price), o.side);
    FilledOrderAccounted(o, i, t.fills, f, fee);
    FilledOrderTerms(o, qty, price, fee);
    forall j | 0 <= j < |t.orders| && j != i
      ensures Accounted(t'.orders[j], j, t'.fills)
    {
      OtherOrderAccounted(t.orders[j], j, t.fills, f);
    }
    TickIsPaise(price, ins.tick);
    FeesSettle(rules.fees, Gross(qty, price), o.side);
    BookedCash(t.book, ins.symbol, o.side, qty, price, fee);
    BookedPositions(t.book, ins.symbol, o.side, qty, price, fee);
    RepositionedDistinct(t.book.positions, ins.symbol, o.side, qty, price, fee);
    hide Tallied;
    TalliedKeeps(t.book, t.fills, f, t'.book);
  }

  /** A fill of at least one share is recorded with the P&L it realised, and moves the team's row for the stock
      as `FillMoves` says and no other row. */
  lemma FillIsRecorded(t: TeamRec, i: nat, ins: Instr, qty: nat, price: int, rules: Rules, other: Symbol)
    requires i < |t.orders| && qty > 0 && ins.tick > 0 && OnGrid(price, ins.tick)
    ensures var t', side := ExecuteFill(t, i, ins, qty, price, rules), t.orders[i].side;
      var p, q := RowFor(t.book.positions, ins.symbol), RowFor(t'.book.positions, ins.symbol);
      && |t'.fills| == |t.fills| + 1
      && var f := t'.fills[|t.fills|];
      && f.order == i && f.symbol == ins.symbol && f.side == side && f.qty == qty && f.price == price
      && FillMoves(p, q, side, qty, price) && f.realised == q.realised - p.realised
      && (other != ins.symbol ==> RowFor(t'.book.positions, other) == RowFor(t.book.positions, other))
  {
    hide RoundDiv, RoundToTick, FilledOrder, Booked, Repositioned, ComputeFees, RealisedBy, FillMoves, RowFor;
    var o, t' := t.orders[i], ExecuteFill(t, i, ins, qty, price, rules);
    var f := t'.fills[|t.fills|];
    RoundToTickGrid(price, 1, ins.tick);
    BookedPositions(t.book, ins.symbol, o.side, qty, price, f.fee);
    FillMovesItsRow(t.book.positions, ins.symbol, o.side, qty, price, f.fee, other);
  }

  lemma FilledOrderTerms(o: OrderRec, qty: nat, price: int, fee: int)
    requires qty > 0
    ensures var o' := FilledOrder(o, qty, price, fee);
      SameTerms(o, o') && o'.status == (if o.filled + qty >= o.qty then Filled else o.status)
  {
    hide RoundDiv;
  }

  // ------------------------------------------------------------------ money at fixed marks

  function Equity(t: TeamRec, env: Env): int { Valued(t.book, env.Marks(), env.rules.margin).equity }

  function AvailableFunds(t: TeamRec, env: Env): int { Valued(t.book, env.Marks(), env.rules.margin).available }

  /** Every position is in a stock the market has. */
  ghost predicate AllListed(t: TeamRec, env: Env) { forall p | p in t.book.positions :: p.symbol in env.instruments }

  /** Equity has not risen, the books are as they were or leave available funds at or above zero, and any
      new position is in a stock the market has. */
  ghost predicate Prudent(t: TeamRec, t': TeamRec, env: Env) {
    && Equity(t', env) <= Equity(t, env)
    && (t'.book == t.book || AvailableFunds(t', env) >= 0)
    && (AllListed(t, env) ==> AllListed(t', env))
  }

  lemma RepositionedListed(ps: seq<Pos>, symbol: Symbol, side: Side, qty: nat, price: int, fee: int, known: set<Symbol>)
    requires symbol in known && forall p | p in ps :: p.symbol in known
    ensures forall p | p in Repositioned(ps, symbol, side, qty, price, fee) :: p.symbol in known
  {
    hide RoundDiv;
  }

  /** An executed fill costs exactly the signed gap between mark and fill price, plus charges: never a gain. */
  lemma ExecutedMoney(t: TeamRec, i: nat, ins: Instr, env: Env, ticks: Ticks, enforceSlippage: bool, enforceFunds: bool)
    requires i < |t.orders| && Uses(env, ticks) && ins.symbol in env.instruments && ins == env.instruments[ins.symbol]
    requires t.orders[i].symbol == ins.symbol && t.orders[i].status.IsOpen() && TeamOk(t, ticks)
    requires TryExecute(t, i, ins, env, enforceSlippage, enforceFunds).Executed?
    ensures var t' := TryExecute(t, i, ins, env, enforceSlippage, enforceFunds).team;
      var f := t'.fills[|t.fills|];
      && TeamOk(t', ticks) && Continues(t, t')
      && |t'.fills| == |t.fills| + 1 && f.order == i && f.qty > 0
      && Equity(t', env) == Equity(t, env) + f.side.Sign() * (ins.last - f.price) * f.qty - f.fee
      && Equity(t', env) <= Equity(t, env)
      && (enforceFunds ==> AvailableFunds(t', env) >= 0)
      && (t.orders[i].kind.WorksAsMarket() ==> f.qty == t.orders[i].qty - t.orders[i].filled)
      && t'.book == Booked(t.book, ins.symbol, f.side, f.qty, f.price, f.fee)
      && OnGrid(f.price, MICROS_PER_PAISA) && OnGrid(f.fee, MICROS_PER_PAISA) && f.fee >= 0
      && f.side == t.orders[i].side && f.symbol == ins.symbol && t'.status == t.status && |t'.orders| == |t.orders|
      && (AllListed(t, env) ==> AllListed(t', env))
      && (forall j | 0 <= j < |t.orders| && j != i :: t'.orders[j] == t.orders[j])
  {
    hide RoundDiv, RoundToTick, Fillable, DealPrice, Valued, Booked, Repositioned, ComputeFees, FilledOrder;
    hide RealisedBy, TryExecute, Accounted, QuoteFor;
    var o := t.orders[i];
    ExecutedFill(t, i, ins, env, ticks, enforceSlippage, enforceFunds);
    var qty := Fillable(o, ins, env.rules.slippage);
    var price := DealPrice(o, ins, qty, env.rules.slippage);
    var fee := ComputeFees(env.rules.fees, Gross(qty, price), o.side);
    FillKeeps(t, i, ins, qty, price, env.rules, ticks);
    TickIsPaise(price, ins.tick);
    FeesSettle(env.rules.fees, Gross(qty, price), o.side);
    FillMovesEquityByTheGap(t.book, env.Marks(), ins.symbol, o.side, qty, price, fee, env.rules.margin);
    GapNeverGains(o.side, ins.last, price, qty);
    BookedPositions(t.book, ins.symbol, o.side, qty, price, fee);
    if AllListed(t, env) {
      RepositionedListed(t.book.positions, ins.symbol, o.side, qty, price, fee, env.instruments.Keys);
    }
    if enforceFunds {
      FundsCheckIsRevaluation(t.book, env.Marks(), ins.symbol, o.side, qty, price, fee, env.rules.margin);
    }
  }

  lemma GapNeverGains(side: Side, mark: int, price: int, qty: nat)
    requires NoBetter(side, price, mark)
    ensures side.Sign() * (mark - price) * qty <= 0
  {
    MulMono(qty, side.Sign() * (mark - price), 0);
  }

  lemma SameBook(t: TeamRec, t': TeamRec, env: Env)
    requires t'.book == t.book
    ensures Prudent(t, t', env)
  {
  }

  // ------------------------------------------------------------------ every operation

  lemma SubmitKeeps(t: TeamRec, r: Request, env: Env, ticks: Ticks)
    requires TeamOk(t, ticks) && Uses(env, ticks)
    ensures var t' := Submit(t, r, env);
      TeamOk(t', ticks) && Continues(t, t') && Prudent(t, t', env) && t'.status == t.status
  {
    hide TryExecute, TeamOk, Continues, Prudent, Valued, RoundToTick, RoundDiv, CanTrade;
    ContinuesRefl(t);
    SameBook(t, t, env);
    if !Seen(t, r.clientId) && r.symbol in env.instruments {
      var ins := env.instruments[r.symbol];
      var i := |t.orders|;
      if !Accepts(t, r, ins, env) {
        AppendKeeps(t, NewOrder(r, Normal, Rejected), ticks);
        SameBook(t, Appended(t, NewOrder(r, Normal, Rejected)), env);
      } else {
        var o := NewOrder(r, Normal, Pending);
        AcceptedWellPriced(r, ins, env, ticks);
        var t1 := Appended(t, o);
        AppendKeeps(t, o, ticks);
        SameBook(t, t1, env);
        if !(r.kind.IsStop() && !StopTriggered(o, ins.last)) {
          var t2 := if r.kind.IsStop() then Marked(t1, i, Triggered) else t1;
          MarkKeeps(t1, i, Triggered, ticks);
          ContinuesRefl(t1);
          ContinuesTrans(t, t1, t2);
          match TryExecute(t2, i, ins, env, true, true) {
            case Executed(t3) =>
              ExecutedMoney(t2, i, ins, env, ticks, true, true);
              ContinuesTrans(t, t2, t3);
              PrudentAfterSameBook(t, t2, t3, env);
            case Refused =>
              MarkKeeps(t2, i, Rejected, ticks);
              ContinuesTrans(t, t2, Marked(t2, i, Rejected));
              SameBook(t, Marked(t2, i, Rejected), env);
            case Nothing =>
              MarkKeeps(t2, i, Rejected, ticks);
              ContinuesTrans(t, t2, Marked(t2, i, Rejected));
              SameBook(t, Marked(t2, i, Rejected), env);
              SameBook(t, t2, env);
          }
        }
      }
    }
  }

  lemma ContinuesRefl(t: TeamRec)
    ensures Continues(t, t)
  {
  }

  lemma PrudentAfterSameBook(t: TeamRec, t1: TeamRec, t2: TeamRec, env: Env)
    requires t1.book == t.book && Equity(t2, env) <= Equity(t1, env) && AvailableFunds(t2, env) >= 0
    requires AllListed(t1, env) ==> AllListed(t2, env)
    ensures Prudent(t, t2, env)
  {
  }

  lemma AcceptedWellPriced(r: Request, ins: Instr, env: Env, ticks: Ticks)
    requires Uses(env, ticks) && r.symbol in env.instruments && ins == env.instruments[r.symbol]
    requires ValidRequest(r, ins, env.rules)
    ensures WellPriced(NewOrder(r, Normal, Pending), ticks)
  {
    hide RoundDiv;
    if !r.kind.WorksAsMarket() {
      RoundToTickGrid(r.limit.value, 1, ins.tick);
    }
  }

  lemma SweepOneKeeps(t: TeamRec, i: nat, env: Env, ticks: Ticks)
    requires TeamOk(t, ticks) && Uses(env, ticks)
    ensures var t' := SweepOne(t, i, env);
      TeamOk(t', ticks) && Continues(t, t') && Prudent(t, t', env) && t'.status == t.status
  {
    hide TryExecute, TeamOk, Continues, Prudent, Valued, RoundToTick, RoundDiv;
    ContinuesRefl(t);
    SameBook(t, t, env);
    if i < |t.orders| && t.orders[i].status.IsOpen() && t.orders[i].symbol in env.instruments {
      var o := t.orders[i];
      var ins := env.instruments[o.symbol];
      var dormant := o.kind.IsStop() && o.status.Pending?;
      if ins.status.Tradable() && !(dormant && !StopTriggered(o, ins.last)) {
        var t1 := if dormant then Marked(t, i, Triggered) else t;
        MarkKeeps(t, i, Triggered, ticks);
        match TryExecute(t1, i, ins, env, false, true) {
          case Executed(t2) =>
            ExecutedMoney(t1, i, ins, env, ticks, false, true);
            ContinuesTrans(t, t1, t2);
            PrudentAfterSameBook(t, t1, t2, env);
          case Refused =>
            MarkKeeps(t1, i, Cancelled, ticks);
            ContinuesTrans(t, t1, Marked(t1, i, Cancelled));
            SameBook(t, Marked(t1, i, Cancelled), env);
          case Nothing =>
            SameBook(t, t1, env);
        }
      }
    }
  }

  lemma CancelWorkingKeeps(t: TeamRec, symbol: Option<Symbol>, ticks: Ticks)
    requires TeamOk(t, ticks)
    ensures TeamOk(CancelWorking(t, symbol), ticks) && Continues(t, CancelWorking(t, symbol))
    ensures forall o | o in CancelWorking(t, symbol).orders :: !Working(o, symbol)
    ensures var t' := CancelWorking(t, symbol);
      && t'.book == t.book && t'.fills == t.fills && t'.status == t.status && |t'.orders| == |t.orders|
      && forall i | 0 <= i < |t.orders| ::
        var o := t.orders[i];
        var cancelled := (o.status.Pending? || o.status.Triggered?) && (symbol == None || symbol == Some(o.symbol));
        t'.orders[i] == if cancelled then o.(status := Cancelled) else o
  {
    hide FillQty, FillValue, FillCount, FillFees;
  }

  lemma CancelKeeps(t: TeamRec, i: nat, ticks: Ticks)
    requires TeamOk(t, ticks)
    ensures var t' := Cancel(t, i);
      && TeamOk(t', ticks) && Continues(t, t')
      && t'.book == t.book && t'.fills == t.fills && t'.status == t.status
      && |t'.orders| == |t.orders|
      && (i < |t.orders| ==>
        var o := t.orders[i];
        && !t'.orders[i].status.IsOpen()
        && t'.orders[i] == if o.status.Pending? || o.status.Triggered? then o.(status := Cancelled) else o)
      && forall j | 0 <= j < |t.orders| && j != i :: t'.orders[j] == t.orders[j]
  {
    hide TeamOk, Continues;
    ContinuesRefl(t);
    if i < |t.orders| && t.orders[i].status.IsOpen() {
      MarkKeeps(t, i, Cancelled, ticks);
    }
  }
}
