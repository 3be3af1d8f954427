/** The risk desk: buying shorts back, busting a team, and charging for borrowed stock.

    A cover is a real market order at a real price, so spread, slippage and charges all make the account
    a little poorer each time. `DeskSettles` says the desk nevertheless finishes.
 */
module RiskDesk {
  import opened Money
  import opened Fees
  import opened Books
  import opened Totals
  import opened Risk
  import opened Pricing
  import opened Liquidation
  import opened Orders
  import opened OrderLaws

  function DeskOrder(side: Side, symbol: Symbol, qty: int, tag: Tag): OrderRec {
    OrderRec(side, Market, symbol, qty, None, None, None, "", tag, Pending, 0, 0, 0)
  }

  /** Record a desk order and try to fill it, without asking about slippage or funds. */
  function DeskTrade(t: TeamRec, o: OrderRec, env: Env): TeamRec
    requires env.Sound()
  {
    if o.symbol !in env.instruments || !env.instruments[o.symbol].status.Tradable() then t
    else
      var t1 := Appended(t, o);
      match TryExecute(t1, |t.orders|, env.instruments[o.symbol], env, false, false)
      case Executed(t2) => t2
      case _ => t1
  }

  function CoverLegs(t: TeamRec, legs: seq<Leg>, env: Env): TeamRec
    requires env.Sound()
    decreases |legs|
  {
    if legs == [] then t
    else CoverLegs(DeskTrade(t, DeskOrder(Buy, legs[0].symbol, legs[0].qty, Margin), env), legs[1..], env)
  }

  /** The side that closes a position. */
  function ClosingSide(p: Pos): Side { if p.qty > 0 then Sell else Buy }

  /** Close out position rows `k` onwards. */
  function CloseFrom(t: TeamRec, k: nat, rows: nat, env: Env): TeamRec
    requires env.Sound() && k <= rows
    decreases rows - k
  {
    if k == rows || k >= |t.book.positions| then t
    else CloseFrom(CloseRow(t, k, env), k + 1, rows, env)
  }

  function CloseRow(t: TeamRec, k: nat, env: Env): TeamRec
    requires env.Sound() && k < |t.book.positions|
  {
    var p := t.book.positions[k];
    if p.qty == 0 then t
    else DeskTrade(t, DeskOrder(ClosingSide(p), p.symbol, Abs(p.qty), SquareOff), env)
  }

  /** The end of a team: positions closed out, orders cancelled, status BUSTED. */
  function BustTeam(t: TeamRec, env: Env): TeamRec
    requires env.Sound()
  {
    CancelWorking(CloseFrom(t, 0, |t.book.positions|, env), None).(status := Busted)
  }

  function StateOf(t: TeamRec, env: Env): MarginState { Valued(t.book, env.Marks(), env.rules.margin).MarginState() }

  predicate Acts(t: TeamRec, env: Env) {
    t.status.TeamActive? && (StateOf(t, env).Call? || StateOf(t, env).Bust?)
  }

  function DeskPlan(t: TeamRec, env: Env): seq<Leg>
    requires env.rules.margin.liquidateTo > 0
  {
    Plan(Valued(t.book, env.Marks(), env.rules.margin), t.book.positions, env.Marks(), env.rules.margin.liquidateTo)
  }

  /** Cover shorts until the plan is done; if that leaves no equity, the team is out. */
  function Liquidate(t: TeamRec, env: Env): TeamRec
    requires env.Sound() && env.rules.margin.liquidateTo > 0
  {
    if !Acts(t, env) then t
    else
      var t1 := CoverLegs(t, DeskPlan(t, env), env);
      if Equity(t1, env) <= 0 then BustTeam(t1, env) else t1
  }

  function ShortOnly(): Pos -> int { (p: Pos) => Max(0, -p.qty) }

  function ShortShares(t: TeamRec): int { SumBy(ShortOnly(), t.book.positions) }

  /** One tick of the desk: teams without shorts are not looked at. */
  function DeskTick(t: TeamRec, env: Env): TeamRec
    requires env.Sound() && env.rules.margin.liquidateTo > 0
  {
    if ShortShares(t) == 0 then t else Liquidate(t, env)
  }

  function DeskTicks(t: TeamRec, env: Env, n: nat): TeamRec
    requires env.Sound() && env.rules.margin.liquidateTo > 0
    decreases n
  {
    if n == 0 then t else DeskTicks(DeskTick(t, env), env, n - 1)
  }

  // ------------------------------------------------------------------ what a desk trade does

  lemma DeskTradeKeeps(t: TeamRec, o: OrderRec, env: Env, ticks: Ticks)
    requires TeamOk(t, ticks) && Uses(env, ticks)
    requires o == DeskOrder(o.side, o.symbol, o.qty, o.tag)
    ensures var t' := DeskTrade(t, o, env);
      && TeamOk(t', ticks) && Continues(t, t') && t'.status == t.status
      && Equity(t', env) <= Equity(t, env)
      && (AllListed(t, env) ==> AllListed(t', env))
  {
    hide TryExecute, TeamOk, Continues, Valued, RoundDiv;
    ContinuesRefl(t);
    if o.symbol in env.instruments && env.instruments[o.symbol].status.Tradable() {
      var t1, ins := Appended(t, o), env.instruments[o.symbol];
      AppendKeeps(t, o, ticks);
      if TryExecute(t1, |t.orders|, ins, env, false, false).Executed? {
        ExecutedMoney(t1, |t.orders|, ins, env, ticks, false, false);
        ContinuesTrans(t, t1, DeskTrade(t, o, env));
      }
    }
  }

  /** In an open market, on a side that is not locked, a desk order fills whole, at the price of the walk and with
      the charges on that. */
  lemma DeskTradeFills(t: TeamRec, o: OrderRec, env: Env, ticks: Ticks)
    requires TeamOk(t, ticks) && Uses(env, ticks)
    requires o == DeskOrder(o.side, o.symbol, o.qty, o.tag) && o.qty > 0
    requires env.market.Open? && o.symbol in env.instruments && SideAllowed(env.instruments[o.symbol].status, o.side)
    ensures var t' := DeskTrade(t, o, env);
      && |t'.fills| == |t.fills| + 1
      && var f := t'.fills[|t.fills|];
      && f.qty == o.qty
      && t'.book.positions == Repositioned(t.book.positions, o.symbol, o.side, f.qty, f.price, f.fee)
      && Equity(t', env) == Equity(t, env) - TradeCost(o, env)
  {
    hide TeamOk, Continues, Valued, RoundDiv, RoundToTick, DealPrice, Repositioned, ExecuteFill, TradeCost, ComputeFees;
    var t1, ins := Appended(t, o), env.instruments[o.symbol];
    AppendKeeps(t, o, ticks);
    ExecutedMoney(t1, |t.orders|, ins, env, ticks, false, false);
    ExecutedFill(t1, |t.orders|, ins, env, ticks, false, false);
    var f := DeskTrade(t, o, env).fills[|t.fills|];
    BookedPositions(t.book, o.symbol, o.side, f.qty, f.price, f.fee);
    DeskFill(t1, |t.orders|, o, ins, env);
  }

  /** This side of a stock can be dealt in now: the market open, the stock trading and not locked on that side. */
  predicate CanDeal(symbol: Symbol, side: Side, env: Env) {
    && env.market.Open? && symbol in env.instruments
    && var s := env.instruments[symbol].status;
    s.Active? || if side.Buy? then s.LowerCircuit? else s.UpperCircuit?
  }

  /** What a desk order costs a team: the gap between the price of the walk and the last price, and charges. */
  function TradeCost(o: OrderRec, env: Env): int
    requires env.Sound()
  {
    if o.qty <= 0 || !CanDeal(o.symbol, o.side, env) then 0 else
      var ins := env.instruments[o.symbol];
      var price := FillPrice(ins, o.side, QuoteFor(ins).Touch(o.side), o.qty, env.rules.slippage);
      o.side.Sign() * (price - ins.last) * o.qty + ComputeFees(env.rules.fees, price * o.qty, o.side)
  }

  /** Where it cannot be dealt in, a desk order moves no money and no shares. */
  lemma DeskTradeIdle(t: TeamRec, o: OrderRec, env: Env)
    requires env.Sound() && !CanDeal(o.symbol, o.side, env)
    ensures var t' := DeskTrade(t, o, env); t'.book == t.book && t'.fills == t.fills
  {
    hide RoundDiv, RoundToTick, Fillable, DealPrice, ComputeFees, Booked, RealisedBy, Unaffordable;
  }

  lemma DeskFill(t: TeamRec, i: nat, o: OrderRec, ins: Instr, env: Env)
    requires env.Sound() && i < |t.orders| && t.orders[i] == o && o == DeskOrder(o.side, o.symbol, o.qty, o.tag)
    requires o.qty > 0 && CanDeal(o.symbol, o.side, env) && ins == env.instruments[o.symbol]
    requires var price := DealPrice(o, ins, o.qty, env.rules.slippage);
      OnGrid(price, ins.tick) && RoundToTick(price, 1, ins.tick) == price
    ensures var price := DealPrice(o, ins, o.qty, env.rules.slippage);
      var fills := ExecuteFill(t, i, ins, o.qty, price, env.rules).fills;
      && |fills| == |t.fills| + 1
      && var f := fills[|t.fills|];
      TradeCost(o, env) == o.side.Sign() * (f.price - ins.last) * f.qty + f.fee
  {
    hide RoundDiv, RoundToTick, FillPrice, ComputeFees, QuoteFor, Booked, RealisedBy, FilledOrder;
    var price := DealPrice(o, ins, o.qty, env.rules.slippage);
    TickIsPaise(price, ins.tick);
    GridScale(price, o.qty, MICROS_PER_PAISA);
    PaiseExact(price * o.qty);
  }

  /** Shares of a leg that are bought back: all, if its stock can be bought now. */
  function Bought(leg: Leg, env: Env): int { if CanDeal(leg.symbol, Buy, env) then leg.qty else 0 }

  /** Shares a plan buys back in all. */
  function LegShares(legs: seq<Leg>, env: Env): int {
    if legs == [] then 0 else Bought(legs[0], env) + LegShares(legs[1..], env)
  }

  /** What it costs to buy a plan's legs, in spread, slippage and charges. */
  function CoverCost(legs: seq<Leg>, env: Env): int
    requires env.Sound()
  {
    if legs == [] then 0
    else TradeCost(DeskOrder(Buy, legs[0].symbol, legs[0].qty, Margin), env) + CoverCost(legs[1..], env)
  }

  /** Shares of one stock a plan buys back. */
  function LegsIn(legs: seq<Leg>, s: Symbol, env: Env): int {
    if legs == [] then 0 else (if legs[0].symbol == s then Bought(legs[0], env) else 0) + LegsIn(legs[1..], s, env)
  }

  /** A market in which every short can be bought back: open, with each shorted stock off its upper circuit
      and not halted. */
  ghost predicate CoverableMarket(t: TeamRec, env: Env) {
    && env.market.Open? && AllListed(t, env)
    && forall p | p in t.book.positions && p.qty < 0 :: SideAllowed(env.instruments[p.symbol].status, Buy)
  }

  /** One leg: bought whole if its stock can be bought now, and otherwise not at all. */
  lemma CoverLegEffect(t: TeamRec, leg: Leg, env: Env, ticks: Ticks)
    requires TeamOk(t, ticks) && Uses(env, ticks) && 1 <= leg.qty <= -QtyOf(t.book.positions, leg.symbol)
    ensures var o := DeskOrder(Buy, leg.symbol, leg.qty, Margin);
      var t' := DeskTrade(t, o, env);
      && TeamOk(t', ticks) && Continues(t, t') && t'.status == t.status
      && Equity(t', env) == Equity(t, env) - TradeCost(o, env) <= Equity(t, env)
      && (AllListed(t, env) ==> AllListed(t', env))
      && ShortShares(t') == ShortShares(t) - Bought(leg, env)
      && forall s :: QtyOf(t'.book.positions, s)
                  == QtyOf(t.book.positions, s) + if s == leg.symbol then Bought(leg, env) else 0
  {
    var o := DeskOrder(Buy, leg.symbol, leg.qty, Margin);
    assert CanDeal(leg.symbol, Buy, env)
      <==> env.market.Open? && leg.symbol in env.instruments && SideAllowed(env.instruments[leg.symbol].status, Buy);
    assert !CanDeal(leg.symbol, Buy, env) ==> TradeCost(o, env) == 0;
    hide TeamOk, Continues, DeskTrade, QtyOf, Valued, SideAllowed, AllListed, TradeCost, CanDeal, Repositioned;
    var t' := DeskTrade(t, o, env);
    DeskTradeKeeps(t, o, env, ticks);
    if CanDeal(leg.symbol, Buy, env) {
      DeskTradeFills(t, o, env, ticks);
      var f := t'.fills[|t.fills|];
      CoverShortens(t.book.positions, leg.symbol, leg.qty, f.price, f.fee);
      forall s
        ensures QtyOf(t'.book.positions, s) == QtyOf(t.book.positions, s) + if s == leg.symbol then leg.qty else 0
      {
        QtyAfterFill(t.book.positions, leg.symbol, Buy, leg.qty, f.price, f.fee, s);
      }
    } else {
      DeskTradeIdle(t, o, env);
    }
  }

  /** Buying a plan's legs at real prices, in any market: each leg whose stock can be bought fills whole, nothing else
      moves, no short turns long, and equity falls by exactly what the covers cost. */
  lemma {:induction false} CoverLegsEffect(t: TeamRec, legs: seq<Leg>, rows: seq<Pos>, env: Env, ticks: Ticks)
    requires TeamOk(t, ticks) && Uses(env, ticks) && Follows(legs, rows) && DistinctSymbols(rows)
    requires forall i | 0 <= i < |rows| :: QtyOf(t.book.positions, rows[i].symbol) == rows[i].qty < 0
    ensures var t' := CoverLegs(t, legs, env);
      && TeamOk(t', ticks) && Continues(t, t') && t'.status == t.status
      && Equity(t', env) <= Equity(t, env) && (AllListed(t, env) ==> AllListed(t', env))
      && ShortShares(t') == ShortShares(t) - LegShares(legs, env)
      && Equity(t', env) == Equity(t, env) - CoverCost(legs, env)
      && (forall s :: QtyOf(t'.book.positions, s) == QtyOf(t.book.positions, s) + LegsIn(legs, s, env))
      && forall s :: NotFlipped(QtyOf(t.book.positions, s), QtyOf(t'.book.positions, s))
    decreases |legs|
  {
    hide TeamOk, Continues, DeskTrade, QtyOf, Equity, Follows, DistinctSymbols, AllListed, TradeCost, CanDeal;
    hide ShortShares;
    ContinuesRefl(t);
    if legs != [] {
      FirstLeg(legs, rows);
      var leg, more := legs[0], rows[1..];
      var t1 := DeskTrade(t, DeskOrder(Buy, leg.symbol, leg.qty, Margin), env);
      CoverLegEffect(t, leg, env, ticks);
      forall i | 0 <= i < |more|
        ensures QtyOf(t1.book.positions, more[i].symbol) == more[i].qty < 0
      {
        assert more[i] == rows[i + 1];
        assert rows[0].symbol != rows[i + 1].symbol;
      }
      CoverLegsEffect(t1, legs[1..], more, env, ticks);
      var t' := CoverLegs(t, legs, env);
      ContinuesTrans(t, t1, t');
      forall s
        ensures NotFlipped(QtyOf(t.book.positions, s), QtyOf(t'.book.positions, s))
        ensures QtyOf(t'.book.positions, s) == QtyOf(t.book.positions, s) + LegsIn(legs, s, env)
      {
        assert NotFlipped(QtyOf(t1.book.positions, s), QtyOf(t'.book.positions, s));
      }
    }
  }

  /** A short stays short or is closed; anything else is untouched. */
  predicate NotFlipped(before: int, after: int) {
    if before < 0 then before <= after <= 0 else after == before
  }

  lemma FirstLeg(legs: seq<Leg>, rows: seq<Pos>)
    requires Follows(legs, rows) && DistinctSymbols(rows) && legs != []
    ensures rows != [] && legs[0].symbol == rows[0].symbol && 1 <= legs[0].qty <= -rows[0].qty
    ensures Follows(legs[1..], rows[1..]) && DistinctSymbols(rows[1..])
    ensures forall i | 0 < i < |rows| :: rows[0].symbol != rows[i].symbol
  {
    FollowsRest(legs, rows);
    assert forall i | 0 <= i < |rows[1..]| :: rows[1..][i] == rows[i + 1];
  }

  lemma CoverShortens(ps: seq<Pos>, symbol: Symbol, qty: nat, price: int, fee: int)
    requires qty <= -QtyOf(ps, symbol)
    ensures SumBy(ShortOnly(), Repositioned(ps, symbol, Buy, qty, price, fee)) == SumBy(ShortOnly(), ps) - qty
  {
    hide RoundDiv, Repositioned;
    SumByRepositioned(ShortOnly(), ps, symbol, Buy, qty, price, fee);
    FilledRow(ps, symbol, Buy, qty, price, fee);
  }

  // ------------------------------------------------------------------ progress

  lemma ShortSharesNonneg(t: TeamRec)
    ensures ShortShares(t) >= 0
    ensures ShortShares(t) > 0 ==> exists p :: p in t.book.positions && p.qty < 0
  {
    SumByNonnegative(ShortOnly(), t.book.positions);
    if ShortShares(t) > 0 && forall p | p in t.book.positions :: p.qty >= 0 {
      AllZero(t.book.positions);
    }
  }

  lemma {:induction false} AllZero(ps: seq<Pos>)
    requires forall p | p in ps :: p.qty >= 0
    ensures SumBy(ShortOnly(), ps) == 0
  {
    if ps != [] {
      assert ps[0] in ps;
      AllZero(ps[1..]);
    }
  }

  /** With the target at or above maintenance, a team in trouble with a short has something to buy back. */
  lemma PlanNonempty(t: TeamRec, env: Env)
    requires env.Sound() && DistinctSymbols(t.book.positions)
    requires AllListed(t, env)
    requires env.rules.margin.liquidateTo > 0 && env.rules.margin.maintenance <= env.rules.margin.liquidateTo
    requires (StateOf(t, env).Call? || StateOf(t, env).Bust?) && ShortShares(t) > 0
    ensures DeskPlan(t, env) != []
  {
    hide RoundDiv, Loss, Take, Insert;
    var marks, rules := env.Marks(), env.rules.margin;
    var v := Valued(t.book, marks, rules);
    ShortSharesNonneg(t);
    var p :| p in t.book.positions && p.qty < 0;
    MarksAreSound(env);
    ShortIsPositive(t.book, marks, p);
    if v.MarginState().Call? {
      if v.equity * PERCENT >= v.shortMv * rules.maintenance {
        RoundDivBetween(0, v.shortMv * rules.maintenance, v.equity, PERCENT);
      }
      MulMono(v.shortMv, rules.maintenance, rules.liquidateTo);
    } else {
      MulMono(rules.liquidateTo, 1, v.shortMv);
    }
    var shorts := SortedShorts(marks, t.book.positions);
    SortedShortsKeep(marks, t.book.positions, p);
    MarksPositive(marks, shorts);
  }

  lemma MarksAreSound(env: Env)
    requires env.Sound()
    ensures SoundMarks(env.Marks())
  {
    forall s | s in env.Marks()
      ensures env.Marks()[s] > 0 && OnGrid(env.Marks()[s], MICROS_PER_PAISA)
    {
      TickIsPaise(env.instruments[s].last, env.instruments[s].tick);
    }
  }

  lemma ShortIsPositive(b: Book, marks: Marks, p: Pos)
    requires SoundMarks(marks) && p in b.positions && p.qty < 0
    requires forall q | q in b.positions :: q.symbol in marks
    ensures SumBy(ShortValue(marks), b.positions) > 0
  {
    forall q | q in b.positions
      ensures ShortValue(marks)(q) >= 0
    {
      if q.qty < 0 { MulMono(-q.qty, 0, marks[q.symbol]); }
    }
    SumByNonnegative(ShortValue(marks), b.positions);
    MulMono(marks[p.symbol], 1, -p.qty);
  }

  lemma {:induction false} SortedShortsKeep(marks: Marks, ps: seq<Pos>, p: Pos)
    requires p in ps && PricedShort(marks, p)
    ensures SortedShorts(marks, ps) != []
  {
    hide Loss;
    if p != ps[0] {
      assert p in ps[1..];
      SortedShortsKeep(marks, ps[1..], p);
    }
  }

  lemma {:induction false} LegSharesPositive(legs: seq<Leg>, rows: seq<Pos>, env: Env)
    requires Follows(legs, rows) && forall i | 0 <= i < |rows| :: CanDeal(rows[i].symbol, Buy, env)
    ensures LegShares(legs, env) >= |legs|
  {
    hide CanDeal;
    if legs != [] {
      FollowsRest(legs, rows);
      LegSharesPositive(legs[1..], rows[1..], env);
    }
  }

  /** Carrying out a plan at real prices. */
  lemma CoversCost(t: TeamRec, env: Env, ticks: Ticks)
    requires TeamOk(t, ticks) && Uses(env, ticks) && AllListed(t, env) && env.rules.margin.liquidateTo > 0
    ensures var legs := DeskPlan(t, env);
      var t' := CoverLegs(t, legs, env);
      && TeamOk(t', ticks) && AllListed(t', env) && t'.status == t.status
      && Follows(legs, SortedShorts(env.Marks(), t.book.positions))
      && Equity(t', env) == Equity(t, env) - CoverCost(legs, env) <= Equity(t, env)
      && ShortShares(t') == ShortShares(t) - LegShares(legs, env)
      && (forall s :: QtyOf(t'.book.positions, s) == QtyOf(t.book.positions, s) + LegsIn(legs, s, env))
      && forall s :: NotFlipped(QtyOf(t.book.positions, s), QtyOf(t'.book.positions, s))
  {
    hide TeamOk, Continues, Valued, QtyOf, Follows, DistinctSymbols, DeskPlan, CoverLegs, SoundMarks, Worth, Equity;
    var shorts := SortedShorts(env.Marks(), t.book.positions);
    TeamRows(t, ticks);
    MarksAreSound(env);
    BookShorts(t.book, env.Marks());
    PlanLegs(t, env);
    CoverLegsEffect(t, DeskPlan(t, env), shorts, env, ticks);
  }

  /** Nothing left for the desk to do: not in trouble, no shorts, or out of the competition. */
  predicate Settled(t: TeamRec, env: Env) { !Acts(t, env) || ShortShares(t) == 0 }

  /** Carrying out a nonempty plan at real prices. */
  lemma CoveringProgress(t: TeamRec, env: Env, ticks: Ticks)
    requires TeamOk(t, ticks) && Uses(env, ticks) && CoverableMarket(t, env)
    requires env.rules.margin.liquidateTo > 0 && DeskPlan(t, env) != []
    ensures var t' := CoverLegs(t, DeskPlan(t, env), env);
      && TeamOk(t', ticks) && CoverableMarket(t', env)
      && t'.status == t.status && Equity(t', env) <= Equity(t, env)
      && 0 <= ShortShares(t') < ShortShares(t)
      && forall s :: NotFlipped(QtyOf(t.book.positions, s), QtyOf(t'.book.positions, s))
  {
    hide TeamOk, Valued, QtyOf, Follows, DeskPlan, CoverLegs, Equity, CoverCost, LegsIn, ShortShares, CoverableMarket;
    CoverableSymbols(t, env);
    CoversCost(t, env, ticks);
    ShortsCanBeBought(t, env);
    LegSharesPositive(DeskPlan(t, env), SortedShorts(env.Marks(), t.book.positions), env);
    ShortSharesNonneg(CoverLegs(t, DeskPlan(t, env), env));
    StillCoverable(t, CoverLegs(t, DeskPlan(t, env), env), env, ticks);
  }

  lemma ShortsCanBeBought(t: TeamRec, env: Env)
    requires CoverableMarket(t, env)
    ensures var shorts := SortedShorts(env.Marks(), t.book.positions);
      forall i | 0 <= i < |shorts| :: CanDeal(shorts[i].symbol, Buy, env)
  {
    hide SortedShorts;
    SortedShortsMembers(env.Marks(), t.book.positions);
  }

  /** Covering opens no short, so what could be bought back still can. */
  lemma StillCoverable(t: TeamRec, t': TeamRec, env: Env, ticks: Ticks)
    requires CoverableMarket(t, env) && AllListed(t', env) && TeamOk(t', ticks)
    requires forall s :: NotFlipped(QtyOf(t.book.positions, s), QtyOf(t'.book.positions, s))
    ensures CoverableMarket(t', env)
  {
    hide SideAllowed, Accounted, QtyOf;
    var ps, qs := t.book.positions, t'.book.positions;
    forall q | q in qs && q.qty < 0
      ensures SideAllowed(env.instruments[q.symbol].status, Buy)
    {
      var k :| 0 <= k < |qs| && qs[k] == q;
      FindDistinct(qs, k);
      assert NotFlipped(QtyOf(ps, q.symbol), QtyOf(qs, q.symbol));
      HeldRow(ps, q.symbol);
    }
  }

  lemma HeldRow(ps: seq<Pos>, symbol: Symbol)
    requires QtyOf(ps, symbol) != 0
    ensures exists p :: p in ps && p.symbol == symbol && p.qty == QtyOf(ps, symbol)
  {
    assert ps[Find(ps, symbol)] in ps;
  }

  /** One acting sweep makes progress: it covers at least one share, turns no short into a long, and leaves
      fewer shares short, unless the team is out. */
  lemma LiquidateProgress(t: TeamRec, env: Env, ticks: Ticks)
    requires TeamOk(t, ticks) && Uses(env, ticks) && CoverableMarket(t, env)
    requires env.rules.margin.liquidateTo > 0 && env.rules.margin.maintenance <= env.rules.margin.liquidateTo
    requires Acts(t, env) && ShortShares(t) > 0
    ensures var t' := Liquidate(t, env);
      !t'.status.Busted? ==>
        && TeamOk(t', ticks) && CoverableMarket(t', env)
        && t'.status == t.status && Equity(t', env) <= Equity(t, env)
        && 0 <= ShortShares(t') < ShortShares(t)
        && forall s :: NotFlipped(QtyOf(t.book.positions, s), QtyOf(t'.book.positions, s))
  {
    hide TeamOk, Valued, QtyOf, DeskPlan, CoverLegs, CloseFrom, CancelWorking, ShortShares, Equity, StateOf;
    hide CoverableMarket;
    TeamRows(t, ticks);
    assert AllListed(t, env) by { CoverableSymbols(t, env); }
    PlanNonempty(t, env);
    CoveringProgress(t, env, ticks);
  }

  lemma CoverableSymbols(t: TeamRec, env: Env)
    requires CoverableMarket(t, env)
    ensures AllListed(t, env)
  {
  }

  lemma TeamRows(t: TeamRec, ticks: Ticks)
    requires TeamOk(t, ticks)
    ensures DistinctSymbols(t.book.positions)
  {
  }

  lemma PlanLegs(t: TeamRec, env: Env)
    requires env.Sound() && env.rules.margin.liquidateTo > 0
    requires DistinctSymbols(t.book.positions) && SoundMarks(env.Marks())
    requires AllListed(t, env)
    ensures Follows(DeskPlan(t, env), SortedShorts(env.Marks(), t.book.positions))
  {
    hide RoundDiv, Loss, Take, Worth, Follows, Whole, DistinctSymbols, SumBy;
    var marks, rules := env.Marks(), env.rules.margin;
    var v := Valued(t.book, marks, rules);
    BookShorts(t.book, marks);
    PlanFollows(SortedShorts(marks, t.book.positions), marks, v.equity, v.shortMv, rules.liquidateTo);
  }

  /** Worth nothing, or short with equity under the maintenance level. */
  predicate InTrouble(t: TeamRec, env: Env) {
    var v := Valued(t.book, env.Marks(), env.rules.margin);
    v.equity <= 0 || (v.shortMv > 0 && !AtLevel(v, env.rules.margin.maintenance))
  }

  lemma ActsExactly(t: TeamRec, env: Env)
    requires env.Sound() && AllListed(t, env)
    ensures Acts(t, env) <==> t.status.TeamActive? && InTrouble(t, env)
  {
    hide Valued, AtLevel, OnGrid;
    MarksAreSound(env);
    forall p | p in t.book.positions
      ensures MarkOf(env.Marks(), p) >= 0
    {
      assert p.symbol in env.instruments;
    }
    MarginStateExactly(t.book, env.Marks(), env.rules.margin);
  }

  /** Main result: what one look of the desk at a team comes to, in any market. A team that is not active, or not
      in trouble, is left alone. Otherwise the planned shares of each short that can be bought now are bought, and
      nothing else; if what that costs is less than its equity the team stays in with the rest, and
      it is BUSTED exactly when it is not. */
  lemma LiquidateOutcome(t: TeamRec, env: Env, ticks: Ticks)
    requires TeamOk(t, ticks) && Uses(env, ticks) && AllListed(t, env) && env.rules.margin.liquidateTo > 0
    ensures var t', legs := Liquidate(t, env), DeskPlan(t, env);
      var left := Equity(t, env) - CoverCost(legs, env);
      && (!t.status.TeamActive? || !InTrouble(t, env) ==> t' == t)
      && (t.status.TeamActive? && InTrouble(t, env) ==>
        && Follows(legs, SortedShorts(env.Marks(), t.book.positions))
        && (t'.status.Busted? <==> left <= 0)
        && (left <= 0 ==> t' == BustTeam(CoverLegs(t, legs, env), env))
        && (left > 0 ==>
          && t'.status.TeamActive? && Equity(t', env) == left && TeamOk(t', ticks) && AllListed(t', env)
          && forall s :: QtyOf(t'.book.positions, s) == QtyOf(t.book.positions, s) + LegsIn(legs, s, env)))
  {
    hide TeamOk, Continues, Valued, QtyOf, DeskPlan, CoverLegs, CloseFrom, CancelWorking, Equity, StateOf, Follows;
    hide InTrouble, SortedShorts, LegsIn, CoverCost, Acts, AllListed;
    ActsExactly(t, env);
    if Acts(t, env) {
      CoversCost(t, env, ticks);
      ActsActive(t, env);
    }
  }

  lemma ActsActive(t: TeamRec, env: Env)
    requires Acts(t, env)
    ensures t.status.TeamActive?
  {
  }

  /** In trouble, with no more equity than its covers cost. */
  predicate Spent(t: TeamRec, env: Env)
    requires env.Sound() && env.rules.margin.liquidateTo > 0
  {
    t.status.TeamActive? && InTrouble(t, env) && Equity(t, env) <= CoverCost(DeskPlan(t, env), env)
  }

  /** Main result. At fixed prices in a coverable market the desk settles a team within as many ticks as it has
      shares short, however much each forced cover costs it. In the end the team is in as it was, with no short or
      out of trouble; or tick `k` found it in trouble and without the equity its covers cost. A team that was never in
      trouble is left alone. */
  lemma {:induction false} DeskSettles(t: TeamRec, env: Env, ticks: Ticks, n: nat) returns (k: nat)
    requires TeamOk(t, ticks) && Uses(env, ticks) && CoverableMarket(t, env)
    requires env.rules.margin.liquidateTo > 0 && env.rules.margin.maintenance <= env.rules.margin.liquidateTo
    requires n >= ShortShares(t)
    ensures k <= n
    ensures ShortShares(t) == 0 || !t.status.TeamActive? || !InTrouble(t, env) ==> DeskTicks(t, env, n) == t
    ensures var u, t' := DeskTicks(t, env, k), DeskTicks(t, env, n);
      if k == n then t'.status == t.status && (!t'.status.TeamActive? || ShortShares(t') == 0 || !InTrouble(t', env))
      else Spent(u, env) && t'.status.Busted?
    decreases n
  {
    hide TeamOk, CoverableMarket, DeskTick, DeskTicks, ShortShares, InTrouble, Settled, Spent;
    k := 0;
    SettledMeans(t, env);
    if Settled(t, env) {
      SettledStays(t, env, n);
      k := n;
    } else {
      DeskStep(t, env, ticks);
      var t' := DeskTick(t, env);
      NoTicks(t, env);
      FirstTick(t, env, n);
      if t'.status.Busted? {
        SettledStays(t', env, n - 1);
      } else {
        k := DeskSettles(t', env, ticks, n - 1);
        FirstTick(t, env, k + 1);
        k := k + 1;
      }
    }
  }

  lemma NoTicks(t: TeamRec, env: Env)
    requires env.Sound() && env.rules.margin.liquidateTo > 0
    ensures DeskTicks(t, env, 0) == t
  {
  }

  lemma FirstTick(t: TeamRec, env: Env, n: nat)
    requires env.Sound() && env.rules.margin.liquidateTo > 0 && n > 0
    ensures DeskTicks(t, env, n) == DeskTicks(DeskTick(t, env), env, n - 1)
  {
  }

  lemma SettledMeans(t: TeamRec, env: Env)
    requires env.Sound() && CoverableMarket(t, env)
    ensures Settled(t, env) <==> !t.status.TeamActive? || ShortShares(t) == 0 || !InTrouble(t, env)
  {
    hide InTrouble, Acts, ShortShares;
    ActsExactly(t, env);
  }

  /** A tick of the desk on a team that is not settled. */
  lemma DeskStep(t: TeamRec, env: Env, ticks: Ticks)
    requires TeamOk(t, ticks) && Uses(env, ticks) && CoverableMarket(t, env) && !Settled(t, env)
    requires env.rules.margin.liquidateTo > 0 && env.rules.margin.maintenance <= env.rules.margin.liquidateTo
    ensures ShortShares(t) > 0
    ensures var t' := DeskTick(t, env);
      if t'.status.Busted? then Spent(t, env) && Settled(t', env)
      else TeamOk(t', ticks) && CoverableMarket(t', env) && t'.status == t.status && ShortShares(t') < ShortShares(t)
  {
    hide TeamOk, Liquidate, CoverableMarket, ShortShares, Valued, InTrouble, Acts, CoverCost, DeskPlan, Equity, QtyOf;
    ShortSharesNonneg(t);
    assert AllListed(t, env) by { CoverableSymbols(t, env); }
    ActsExactly(t, env);
    ActsActive(t, env);
    LiquidateProgress(t, env, ticks);
    LiquidateOutcome(t, env, ticks);
    var t' := DeskTick(t, env);
    if Acts(t', env) { ActsActive(t', env); }
  }

  /** What the covers of `n` ticks cost a team that pays for them all. */
  function DeskCost(t: TeamRec, env: Env, n: nat): int
    requires env.Sound() && env.rules.margin.liquidateTo > 0
    decreases n
  {
    if n == 0 || Settled(t, env) then 0
    else CoverCost(DeskPlan(t, env), env) + DeskCost(CoverLegs(t, DeskPlan(t, env), env), env, n - 1)
  }

  /** Main result: at fixed prices, in any market, a team worth more than its covers cost in spread, slippage
      and charges is never busted, and is poorer by exactly that. */
  lemma {:induction false} SurvivesItsCovers(t: TeamRec, env: Env, ticks: Ticks, n: nat)
    requires TeamOk(t, ticks) && Uses(env, ticks) && AllListed(t, env) && env.rules.margin.liquidateTo > 0
    requires Equity(t, env) > DeskCost(t, env, n)
    ensures var t' := DeskTicks(t, env, n);
      t'.status == t.status && Equity(t', env) == Equity(t, env) - DeskCost(t, env, n)
    decreases n
  {
    hide TeamOk, Continues, AllListed, ShortShares, Valued, CoverCost, DeskPlan, CoverLegs, Equity, LegsIn;
    hide Follows, SortedShorts, LegShares, Acts, BustTeam;
    if Settled(t, env) {
      SettledStays(t, env, n);
    } else if n > 0 {
      CoversCost(t, env, ticks);
      CostsNonneg(CoverLegs(t, DeskPlan(t, env), env), env, ticks, n - 1);
      SurvivesItsCovers(CoverLegs(t, DeskPlan(t, env), env), env, ticks, n - 1);
    }
  }

  lemma {:induction false} CostsNonneg(t: TeamRec, env: Env, ticks: Ticks, n: nat)
    requires TeamOk(t, ticks) && Uses(env, ticks) && AllListed(t, env) && env.rules.margin.liquidateTo > 0
    ensures DeskCost(t, env, n) >= 0
    decreases n
  {
    hide TeamOk, Continues, AllListed, ShortShares, Valued, CoverCost, DeskPlan, CoverLegs, Equity, LegsIn;
    hide Follows, SortedShorts, LegShares, Acts;
    if n > 0 && !Settled(t, env) {
      CoversCost(t, env, ticks);
      CostsNonneg(CoverLegs(t, DeskPlan(t, env), env), env, ticks, n - 1);
    }
  }

  lemma {:induction false} SettledStays(t: TeamRec, env: Env, n: nat)
    requires env.Sound() && env.rules.margin.liquidateTo > 0 && Settled(t, env)
    ensures DeskTicks(t, env, n) == t
  {
    hide Valued, Plan, CoverLegs, BustTeam, ShortShares;
    if n > 0 {
      SettledStays(t, env, n - 1);
    }
  }

  // ------------------------------------------------------------------ out of the competition

  /** A position is closed if its stock can be dealt in on the closing side now, and otherwise as it was. */
  predicate ClosedIfPossible(p: Pos, q: Pos, env: Env) {
    if p.qty != 0 && CanDeal(p.symbol, if p.qty > 0 then Sell else Buy, env) then q.symbol == p.symbol && q.qty == 0
    else q == p
  }

  /** Closing row `k` leaves every other row alone. */
  lemma CloseRowEffect(t: TeamRec, k: nat, env: Env, ticks: Ticks)
    requires TeamOk(t, ticks) && Uses(env, ticks) && k < |t.book.positions|
    ensures var t' := CloseRow(t, k, env);
      && TeamOk(t', ticks) && |t'.book.positions| == |t.book.positions|
      && ClosedIfPossible(t.book.positions[k], t'.book.positions[k], env)
      && forall j | 0 <= j < |t.book.positions| && j != k :: t'.book.positions[j] == t.book.positions[j]
  {
    hide TeamOk, DeskTrade, Netted, RoundDiv, Equity, Continues, TradeCost;
    var ps := t.book.positions;
    var p := ps[k];
    if p.qty != 0 {
      var o := DeskOrder(ClosingSide(p), p.symbol, Abs(p.qty), SquareOff);
      DeskTradeKeeps(t, o, env, ticks);
      if CanDeal(p.symbol, o.side, env) {
        DeskTradeFills(t, o, env, ticks);
        TeamRows(t, ticks);
        FindDistinct(ps, k);
        var f := DeskTrade(t, o, env).fills[|t.fills|];
        FilledRow(ps, o.symbol, o.side, f.qty, f.price, f.fee);
      } else {
        DeskTradeIdle(t, o, env);
      }
    }
  }

  lemma {:induction false} CloseFromEffect(t: TeamRec, k: nat, env: Env, ticks: Ticks)
    requires TeamOk(t, ticks) && Uses(env, ticks) && k <= |t.book.positions|
    ensures var ps, qs := t.book.positions, CloseFrom(t, k, |t.book.positions|, env).book.positions;
      && |qs| == |ps|
      && forall j | 0 <= j < |ps| :: if j < k then qs[j] == ps[j] else ClosedIfPossible(ps[j], qs[j], env)
    decreases |t.book.positions| - k
  {
    hide TeamOk, CloseRow, ClosedIfPossible;
    if k < |t.book.positions| {
      CloseRowEffect(t, k, env, ticks);
      CloseFromEffect(CloseRow(t, k, env), k + 1, env, ticks);
    }
  }

  /** A market in which every position can be closed: open, with each one's closing side allowed. */
  ghost predicate ClosableMarket(t: TeamRec, env: Env) {
    && env.market.Open? && AllListed(t, env)
    && forall p | p in t.book.positions && p.qty != 0 :: SideAllowed(env.instruments[p.symbol].status, ClosingSide(p))
  }

  predicate Flat(ps: seq<Pos>) { forall i | 0 <= i < |ps| :: ps[i].qty == 0 }

  /** Main result. In any market a busted team is out of every position whose closing side can be dealt in and keeps
      the rest as they were; where each can be closed it is left with no position. */
  lemma BustFlattens(t: TeamRec, env: Env, ticks: Ticks)
    requires TeamOk(t, ticks) && Uses(env, ticks)
    ensures var ps, qs := t.book.positions, BustTeam(t, env).book.positions;
      && |qs| == |ps| && (forall k | 0 <= k < |ps| :: ClosedIfPossible(ps[k], qs[k], env))
      && (ClosableMarket(t, env) ==> Flat(qs))
  {
    hide TeamOk, CloseFrom;
    CloseFromEffect(t, 0, env, ticks);
  }

  // ------------------------------------------------------------------ the overnight borrow fee

  /** Value at its mark of a short that has one. */
  function BorrowedValue(marks: Marks): Pos -> int {
    (p: Pos) => if p.qty < 0 && p.symbol in marks then marks[p.symbol] * -p.qty else 0
  }

  /** A day's fee on one position: each short's is settled to the paisa on its own. */
  function FeeOn(marks: Marks, rate: int, p: Pos): int { Max(0, Levy(BorrowedValue(marks)(p), rate)) }

  function BorrowFeeOn(marks: Marks, rate: int): Pos -> int { (p: Pos) => FeeOn(marks, rate, p) }

  function BorrowDue(ps: seq<Pos>, marks: Marks, rate: int): int {
    if rate <= 0 then 0 else SumBy(BorrowFeeOn(marks, rate), ps)
  }

  lemma NoBorrowFee(p: Pos, marks: Marks, rate: int)
    requires p.qty >= 0 || p.symbol !in marks
    ensures FeeOn(marks, rate, p) == 0
  {
    assert BorrowedValue(marks)(p) == 0;
    RoundDivExact(0, PERCENT * MICROS_PER_PAISA);
  }

  method BorrowFees(positions: seq<Pos>, marks: Marks, rate: int) returns (total: int)
    ensures total == SumBy(BorrowFeeOn(marks, rate), positions)
  {
    hide Levy;
    total := 0;
    for k := 0 to |positions|
      invariant total == SumBy(BorrowFeeOn(marks, rate), positions[..k])
    {
      var p := positions[k];
      assert positions[..k + 1] == positions[..k] + [p];
      SumByAppend(BorrowFeeOn(marks, rate), positions[..k], p);
      if p.qty < 0 && p.symbol in marks {
        var fee := Levy(marks[p.symbol] * -p.qty, rate);
        if fee > 0 {
          total := total + fee;
        }
      } else {
        NoBorrowFee(p, marks, rate);
      }
    }
    assert positions[..|positions|] == positions;
  }

  /** Charge a day's borrow fee on every short, as one ledger row; only active teams pay. */
  function BorrowCharged(t: TeamRec, env: Env): TeamRec {
    var due := BorrowDue(t.book.positions, env.Marks(), env.rules.margin.borrowFee);
    if !t.status.TeamActive? || due <= 0 then t else t.(book := Posted(t.book, BorrowFee, -due))
  }

  /** One for each position that is charged. */
  function Charged(marks: Marks): Pos -> int { (p: Pos) => if p.qty < 0 && p.symbol in marks then 1 else 0 }

  lemma BorrowFeeError(p: Pos, marks: Marks, rate: int)
    requires rate > 0 && (p.symbol in marks ==> marks[p.symbol] >= 0)
    ensures var fee := BorrowFeeOn(marks, rate)(p);
      && fee >= 0 && OnGrid(fee, MICROS_PER_PAISA)
      && 2 * Abs(PERCENT * fee - rate * BorrowedValue(marks)(p)) <= PERCENT * MICROS_PER_PAISA * Charged(marks)(p)
  {
    var value := BorrowedValue(marks)(p);
    if value != 0 || Charged(marks)(p) == 1 { MulMono(-p.qty, 0, marks[p.symbol]); }
    LevySettles(value, rate);
    LevyError(value, rate);
    if Charged(marks)(p) == 0 { NoBorrowFee(p, marks, rate); }
  }

  /** The fee due is a whole number of paise, nothing for a book with no shorts, and within half a paisa for
      each short of the daily rate on the value borrowed. */
  lemma {:induction false} BorrowNearExact(ps: seq<Pos>, marks: Marks, rate: int)
    requires rate > 0 && forall p | p in ps && p.symbol in marks :: marks[p.symbol] >= 0
    ensures var due := BorrowDue(ps, marks, rate);
      && due >= 0 && OnGrid(due, MICROS_PER_PAISA)
      && 2 * Abs(PERCENT * due - rate * SumBy(BorrowedValue(marks), ps))
         <= PERCENT * MICROS_PER_PAISA * SumBy(Charged(marks), ps)
  {
    hide BorrowFeeOn, BorrowedValue, Charged;
    if ps != [] {
      assert ps[0] in ps;
      BorrowFeeError(ps[0], marks, rate);
      BorrowNearExact(ps[1..], marks, rate);
      var fee, due := BorrowFeeOn(marks, rate)(ps[0]), BorrowDue(ps[1..], marks, rate);
      GridSum(fee, due, MICROS_PER_PAISA);
      var value, rest := BorrowedValue(marks)(ps[0]), SumBy(BorrowedValue(marks), ps[1..]);
      assert rate * (value + rest) == rate * value + rate * rest;
    }
  }

  /** Charging it lowers equity and cash of an active team by exactly what is due, of any other by nothing, and
      moves nothing else. */
  lemma BorrowCosts(t: TeamRec, env: Env)
    requires env.Sound() && OnGrid(t.book.cash, MICROS_PER_PAISA)
    ensures var fee, t' := BorrowDue(t.book.positions, env.Marks(), env.rules.margin.borrowFee), BorrowCharged(t, env);
      var due := if t.status.TeamActive? then fee else 0;
      && Equity(t', env) == Equity(t, env) - due
      && t'.book.cash == t.book.cash - due && t'.book.positions == t.book.positions
      && t'.orders == t.orders && t'.fills == t.fills
  {
    hide RoundDiv, Posted, BorrowFeeOn;
    var marks, rate := env.Marks(), env.rules.margin.borrowFee;
    if rate > 0 && t.status.TeamActive? {
      BorrowNearExact(t.book.positions, marks, rate);
      var due := BorrowDue(t.book.positions, marks, rate);
      GridSum(0, due, MICROS_PER_PAISA);
      PostedExact(t.book, BorrowFee, -due);
      EquityIsCashPlusExposure(t.book, marks, env.rules.margin);
      EquityIsCashPlusExposure(BorrowCharged(t, env).book, marks, env.rules.margin);
    }
  }
}
