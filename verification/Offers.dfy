/** What becomes of an order that is placed, and so of one placed for the quantity the slider offers.

    The slider looks at available funds and one price. The exchange also asks whether the order is acceptable
    (quantity cap, lots, a market that is open), prices the whole quantity through the book, holds a market
    order to its slippage tolerance, and only then checks funds at the price it would really fill at.
 */
module Offers {
  import opened Money
  import opened Fees
  import opened Books
  import opened Risk
  import opened Pricing
  import opened Orders
  import opened Outcomes
  import opened Sizing
  import opened Traces

  function ValuationOf(t: TeamRec, env: Env): Valuation { Valued(t.book, env.Marks(), env.rules.margin) }

  function NewOf(r: Request): OrderRec { NewOrder(r, Normal, Pending) }

  /** The request has no client id, or one that no order has. */
  predicate NewId(t: TeamRec, r: Request) { r.clientId == "" || forall o | o in t.orders :: o.clientId != r.clientId }

  /** Shares a request would fill at once: none outside an open market or while its stop is dormant. */
  function FillsNow(r: Request, ins: Instr, env: Env): int
    requires ins.tick > 0
  {
    if !env.market.Open? || (r.kind.IsStop() && !StopTriggered(NewOf(r), ins.last)) then 0
    else Fillable(NewOf(r), ins, env.rules.slippage)
  }

  /** What is in available funds for `qty` shares at `price`, charges paid, to within half a micro-rupee. */
  predicate Funded(t: TeamRec, r: Request, ins: Instr, qty: nat, price: int, env: Env) {
    var held, fee := QtyOf(t.book.positions, ins.symbol), ComputeFees(env.rules.fees, Gross(qty, price), r.side);
    var needs := Needs(held, r.side, qty, price, ins.last, fee, env.rules.margin);
    2 * (Unrounded(ValuationOf(t, env), env.rules.margin) - needs) > -PERCENT
  }

  /** `qty` shares would fill within the slippage tolerance and within available funds. */
  predicate Deal(t: TeamRec, r: Request, ins: Instr, qty: nat, env: Env)
    requires ins.tick > 0
  {
    var price := DealPrice(NewOf(r), ins, qty, env.rules.slippage);
    Tolerated(NewOf(r), QuoteFor(ins).Touch(r.side), price) && Funded(t, r, ins, qty, price, env)
  }

  lemma SlippedIsNotTolerated(o: OrderRec, ins: Instr, price: int)
    requires ins.tick > 0
    ensures Slipped(o, ins, price) <==> !Tolerated(o, QuoteFor(ins).Touch(o.side), price)
  {
    hide QuoteFor;
  }

  lemma FundedIsAffordable(t: TeamRec, r: Request, o: OrderRec, ins: Instr, qty: nat, price: int, env: Env)
    requires o.side == r.side
    ensures Funded(t, r, ins, qty, price, env) <==> !Unaffordable(t, o, ins, qty, price, env)
  {
    hide ComputeFees, ProjectAvailable, Needs, Unrounded, QtyOf, Gross, Valued;
    var held, fee := QtyOf(t.book.positions, ins.symbol), ComputeFees(env.rules.fees, Gross(qty, price), r.side);
    FundedExactly(ValuationOf(t, env), held, r.side, qty, price, ins.last, fee, env.rules.margin);
  }

  /** Trying to execute a newly recorded order: what it fills, or whether it is refused. */
  lemma AttemptOutcome(t: TeamRec, i: nat, r: Request, ins: Instr, env: Env)
    requires i < |t.orders| && ins.tick > 0 && env.market.Open? && SideAllowed(ins.status, r.side)
    requires t.orders[i] == NewOf(r).(status := t.orders[i].status) && t.orders[i].status.IsOpen() && r.qty > 0
    ensures var n, a := Fillable(NewOf(r), ins, env.rules.slippage), TryExecute(t, i, ins, env, true, true);
      && (a.Nothing? <==> n <= 0) && (a.Refused? <==> n > 0 && !Deal(t, r, ins, n, env))
      && (a.Executed? ==> (a.team.orders[i].status.Filled? <==> n == r.qty))
      && (a.Executed? ==> a.team.orders[i].status.Filled? || a.team.orders[i].status == t.orders[i].status)
  {
    hide RoundDiv, RoundToTick, FillPrice, ComputeFees, Booked, RealisedBy, Unaffordable, Funded, QuoteFor;
    var n := Fillable(NewOf(r), ins, env.rules.slippage);
    if n > 0 {
      var price := DealPrice(NewOf(r), ins, n, env.rules.slippage);
      FundedIsAffordable(t, r, t.orders[i], ins, n, price, env);
      SlippedIsNotTolerated(t.orders[i], ins, price);
    }
  }

  /** Main result: exactly what becomes of any request not seen before, in a stock that exists. It is FILLED
      when it is accepted, can fill whole at once, and that is a deal; REJECTED when it is not accepted, or what
      could fill at once is no deal; and otherwise rests. How far the fill walks from the touch matters only
      through the tolerance and the funds. */
  lemma SubmitOutcome(t: TeamRec, r: Request, env: Env)
    requires env.Sound() && NewId(t, r) && r.symbol in env.instruments
    ensures var ins, status := env.instruments[r.symbol], Submit(t, r, env).orders[|t.orders|].status;
      var n := FillsNow(r, ins, env);
      && (status.Filled? <==> Accepts(t, r, ins, env) && n == r.qty && Deal(t, r, ins, r.qty, env))
      && (status.Rejected? <==> !Accepts(t, r, ins, env) || (n > 0 && !Deal(t, r, ins, n, env)))
  {
    hide TryExecute, Fillable, Deal, SideAllowed, StopTriggered, OnTick;
    var ins, i := env.instruments[r.symbol], |t.orders|;
    if Accepts(t, r, ins, env) {
      var t1 := Appended(t, NewOf(r));
      var t2 := if r.kind.IsStop() then Marked(t1, i, Triggered) else t1;
      if !(r.kind.IsStop() && !StopTriggered(NewOf(r), ins.last)) {
        if env.market.Open? {
          AttemptOutcome(t2, i, r, ins, env);
          DealIgnoresOrders(t, t2, r, ins, env);
          MarketIsWhole(r, ins, env);
        } else {
          ShutAttempt(t2, i, ins, env);
        }
      }
    }
  }

  lemma DealIgnoresOrders(t: TeamRec, t': TeamRec, r: Request, ins: Instr, env: Env)
    requires ins.tick > 0 && t'.book == t.book
    ensures forall n: nat :: Deal(t', r, ins, n, env) == Deal(t, r, ins, n, env)
  {
    hide DealPrice, Slipped, ComputeFees, Needs, Unrounded;
  }

  lemma MarketIsWhole(r: Request, ins: Instr, env: Env)
    requires ins.tick > 0
    ensures r.kind.WorksAsMarket() ==> Fillable(NewOf(r), ins, env.rules.slippage) == r.qty
  {
  }

  lemma ShutAttempt(t: TeamRec, i: nat, ins: Instr, env: Env)
    requires i < |t.orders| && ins.tick > 0 && !env.market.Open?
    ensures TryExecute(t, i, ins, env, true, true) == Nothing
  {
  }

  /** A market order is FILLED exactly when it is accepted and its whole quantity is a deal. */
  lemma MarketOrderFills(t: TeamRec, r: Request, env: Env)
    requires env.Sound() && NewId(t, r) && r.symbol in env.instruments && r.kind.Market?
    ensures var ins := env.instruments[r.symbol];
      Submit(t, r, env).orders[|t.orders|].status.Filled?
      <==> Accepts(t, r, ins, env) && Deal(t, r, ins, r.qty, env)
  {
    hide Submit, Deal, Fillable, ValidRequest, CanTrade;
    SubmitOutcome(t, r, env);
    MarketIsWhole(r, env.instruments[r.symbol], env);
    if Accepts(t, r, env.instruments[r.symbol], env) { AcceptedQty(t, r, env.instruments[r.symbol], env); }
  }

  lemma AcceptedQty(t: TeamRec, r: Request, ins: Instr, env: Env)
    requires ins.tick > 0 && Accepts(t, r, ins, env)
    ensures 0 < r.qty <= env.rules.maxOrderQty && (ins.lot > 1 ==> r.qty % ins.lot == 0)
  {
    hide OnTick;
  }

  // ------------------------------------------------------------------ the quantity the slider offers

  function Held(t: TeamRec, r: Request): int { QtyOf(t.book.positions, r.symbol) }

  /** What the slider offers a team for a request's stock and side at a price. */
  function Offer(t: TeamRec, r: Request, price: int, env: Env): nat {
    MaxAffordable(ValuationOf(t, env), Held(t, r), r.side, price, env.rules.margin)
  }

  /** A market request, not seen before, in a stock that exists. */
  predicate NewMarketOrder(t: TeamRec, r: Request, env: Env) {
    NewId(t, r) && r.symbol in env.instruments && r.kind.Market?
  }

  /** It ends up FILLED. */
  predicate Taken(t: TeamRec, r: Request, env: Env)
    requires env.Sound() && NewMarketOrder(t, r, env)
  {
    Submit(t, r, env).orders[|t.orders|].status.Filled?
  }

  /** The exchange takes the order, funds apart: accepted, and within tolerance at the price it fills at. */
  predicate Welcome(t: TeamRec, r: Request, env: Env)
    requires env.Sound() && r.symbol in env.instruments
  {
    var ins := env.instruments[r.symbol];
    && Accepts(t, r, ins, env)
    && Tolerated(NewOf(r), QuoteFor(ins).Touch(r.side), DealPrice(NewOf(r), ins, r.qty, env.rules.slippage))
  }

  /** The price a request's whole quantity fills at. */
  function PriceOf(r: Request, env: Env): int
    requires env.Sound() && r.symbol in env.instruments
  {
    DealPrice(NewOf(r), env.instruments[r.symbol], r.qty, env.rules.slippage)
  }

  /** The charges on it there. */
  function FeeOf(r: Request, env: Env): int
    requires env.Sound() && r.symbol in env.instruments && r.qty >= 0
  {
    ComputeFees(env.rules.fees, Gross(r.qty, PriceOf(r, env)), r.side)
  }

  /** A market order is taken exactly when it is welcome and passes the funds check at the price it fills at. */
  lemma TakenExactly(t: TeamRec, r: Request, env: Env)
    requires env.Sound() && NewMarketOrder(t, r, env) && r.qty >= 0
    ensures var v, mark, price := ValuationOf(t, env), env.instruments[r.symbol].last, PriceOf(r, env);
      var left := ProjectAvailable(v, Held(t, r), r.side, r.qty, price, mark, FeeOf(r, env), env.rules.margin);
      Taken(t, r, env) <==> Welcome(t, r, env) && left >= 0
  {
    hide Submit, Accepts, Slipped, DealPrice, ComputeFees, ProjectAvailable, Needs, Unrounded, QtyOf, Valued, Gross;
    var ins, v, price := env.instruments[r.symbol], ValuationOf(t, env), PriceOf(r, env);
    MarketOrderFills(t, r, env);
    FundedExactly(v, Held(t, r), r.side, r.qty, price, ins.last, FeeOf(r, env), env.rules.margin);
  }

  /** Main result: exactly when a market order for the whole quantity offered at the price `quoted` is taken,
      for either side of any holding, at the price it really fills at. */
  lemma OfferIsTaken(t: TeamRec, r: Request, quoted: int, env: Env)
    requires env.Sound() && NewMarketOrder(t, r, env) && r.qty == Offer(t, r, quoted, env)
    ensures var ins, q, held := env.instruments[r.symbol], r.qty, Held(t, r);
      var price, fee, rules := PriceOf(r, env), FeeOf(r, env), env.rules.margin;
      var free := Unrounded(ValuationOf(t, env), rules);
      var paid, freed := (price * q + fee) * PERCENT, ins.last * q * (PERCENT + rules.initial);
      var received, ok := (price * q - fee) * PERCENT, Welcome(t, r, env);
      && (r.side.Buy? && held >= 0 ==> (Taken(t, r, env) <==> ok && 2 * (free - paid) > -PERCENT))
      && (r.side.Buy? && held < 0 ==> (Taken(t, r, env) <==> ok && 2 * (free - paid + freed) > -PERCENT))
      && (r.side.Sell? && held > 0 ==> (Taken(t, r, env) <==> ok && 2 * (free + received) > -PERCENT))
      && (r.side.Sell? && held <= 0 ==> (Taken(t, r, env) <==> ok && 2 * (free + received - freed) > -PERCENT))
  {
    hide Taken, Welcome, PriceOf, FeeOf, MaxAffordable, ProjectAvailable, Unrounded, Held, Valued;
    TakenExactly(t, r, env);
    OfferIsFunded(
      ValuationOf(t, env), Held(t, r), r.side, quoted, PriceOf(r, env), env.instruments[r.symbol].last, FeeOf(r, env),
      env.rules.margin);
  }

  /** Opening or adding up to the quantity offered at the price it fills at, where the 0.15 per cent assumed
      covers the charges and, for a sale, value and margin of the gap to the mark: taken exactly when welcome. */
  lemma OpeningIsTaken(t: TeamRec, r: Request, env: Env)
    requires env.Sound() && NewMarketOrder(t, r, env) && ExactMargin(ValuationOf(t, env), env.rules.margin)
    requires 0 < r.qty <= Offer(t, r, PriceOf(r, env), env)
    requires if r.side.Buy? then Held(t, r) >= 0 else Held(t, r) <= 0
    requires var gap := if r.side.Buy? then 0 else (env.instruments[r.symbol].last - PriceOf(r, env)) * r.qty;
      FeeOf(r, env) * PERCENT + gap * (PERCENT + env.rules.margin.initial) <= PriceOf(r, env) * r.qty * ASSUMED_FEE
    ensures Taken(t, r, env) <==> Welcome(t, r, env)
  {
    hide Taken, Welcome, PriceOf, FeeOf, MaxAffordable, ProjectAvailable, ExactMargin, Held, Valued;
    var v, mark := ValuationOf(t, env), env.instruments[r.symbol].last;
    TakenExactly(t, r, env);
    MaxIsFunded(v, Held(t, r), r.side, r.qty, PriceOf(r, env), mark, FeeOf(r, env), env.rules.margin);
  }

  lemma BuyPrice(r: Request, env: Env)
    requires env.Sound() && r.symbol in env.instruments && r.kind.Market? && r.side.Buy? && r.qty >= 0
    ensures PriceOf(r, env) > 0 && Gross(r.qty, PriceOf(r, env)) == PriceOf(r, env) * r.qty
  {
    hide RoundDiv, FillPrice, RoundToTick, QuoteFor;
    var ins := env.instruments[r.symbol];
    QuoteStraddles(ins);
    PriceBounds(ins, Buy, QuoteFor(ins).ask, r.qty, env.rules.slippage);
    TickIsPaise(PriceOf(r, env), ins.tick);
    GridScale(PriceOf(r, env), r.qty, MICROS_PER_PAISA);
    PaiseExact(PriceOf(r, env) * r.qty);
  }

  /** Under the default schedule a buy that opens or adds, of Rs 75,400 or more and up to the quantity offered
      at the price it fills at, is taken exactly when welcome. */
  lemma LargeBuyIsTaken(t: TeamRec, r: Request, env: Env)
    requires env.Sound() && NewMarketOrder(t, r, env) && ExactMargin(ValuationOf(t, env), env.rules.margin)
    requires r.side.Buy? && Held(t, r) >= 0 && env.rules.fees == DEFAULT_FEES
    requires 0 <= r.qty <= Offer(t, r, PriceOf(r, env), env)
    requires PriceOf(r, env) * r.qty >= 75_400 * MICROS_PER_RUPEE
    ensures Taken(t, r, env) <==> Welcome(t, r, env)
  {
    hide Taken, Welcome, PriceOf, MaxAffordable, ProjectAvailable, ExactMargin, Held, Valued, ComputeFees, Gross;
    var price, mark := PriceOf(r, env), env.instruments[r.symbol].last;
    TakenExactly(t, r, env);
    BuyPrice(r, env);
    LargeBuysAreFunded(ValuationOf(t, env), Held(t, r), r.qty, price, mark, env.rules.margin);
  }

  /** Buying back all or part of a short from available funds that are not negative, at a price that with the
      charges stays within the value and margin given back: taken exactly when welcome. */
  lemma CoverIsTaken(t: TeamRec, r: Request, env: Env)
    requires env.Sound() && NewMarketOrder(t, r, env)
    requires r.side.Buy? && 0 <= r.qty <= -Held(t, r) && Unrounded(ValuationOf(t, env), env.rules.margin) >= 0
    requires var mark := env.instruments[r.symbol].last;
      (PriceOf(r, env) * r.qty + FeeOf(r, env)) * PERCENT <= mark * r.qty * (PERCENT + env.rules.margin.initial)
    ensures Taken(t, r, env) <==> Welcome(t, r, env)
  {
    hide Taken, Welcome, PriceOf, FeeOf, ProjectAvailable, Unrounded, Held, Valued;
    var mark := env.instruments[r.symbol].last;
    TakenExactly(t, r, env);
    CoversAreFunded(ValuationOf(t, env), Held(t, r), r.qty, PriceOf(r, env), mark, FeeOf(r, env), env.rules.margin);
  }

  // ------------------------------------------------------------------ offers that are refused, and sizes that are not

  lemma NewTeamFunds(capital: int, env: Env)
    requires OnGrid(capital, MICROS_PER_PAISA)
    ensures var v := ValuationOf(NewTeam(capital), env); v.cash == capital && v.shortMv == 0 && v.available == capital
    ensures forall s :: QtyOf(NewTeam(capital).book.positions, s) == 0
  {
    hide RoundDiv;
    PaiseExact(capital);
    RoundDivExact(capital, PERCENT);
  }

  /** The cap on one order: a new team with Rs 10,00,000 and a share at Rs 50 is offered 19,970, and an order for
      them is REJECTED for having more than 10,000. */
  lemma CappedOfferRefused(r: Request, env: Env)
    requires env.Sound() && env.rules.maxOrderQty == 10_000 && r.symbol in env.instruments
    requires r.kind.Market? && r.side.Buy? && r.qty == 19_970
    requires QuoteFor(env.instruments[r.symbol]).ask == 50 * MICROS_PER_RUPEE
    ensures var t := NewTeam(1_000_000 * MICROS_PER_RUPEE);
      && NewMarketOrder(t, r, env) && Offer(t, r, 50 * MICROS_PER_RUPEE, env) == r.qty
      && Submit(t, r, env).orders[0].status.Rejected?
  {
    hide Valued, RoundDiv, CanTrade, OnTick;
    var t := NewTeam(1_000_000 * MICROS_PER_RUPEE);
    NewTeamFunds(1_000_000 * MICROS_PER_RUPEE, env);
    DivUnique(1_000_000 * MICROS_PER_RUPEE * PERCENT, 50 * MICROS_PER_RUPEE * (PERCENT + ASSUMED_FEE), 19_970);
  }

  /** A thinly traded stock at Rs 49,504.95 with a spread of 200 basis points: one share to a slice at an ask of
      Rs 50,000. */
  function ThinStock(symbol: Symbol): Instr {
    Instr(symbol, 49_504_950_000, 50_000, 200_000_000, 50_000_000_000, Active, 1, true)
  }

  lemma ThinStockPrices(symbol: Symbol)
    ensures var ins, ask := ThinStock(symbol), 50_000_000_000;
      && QuoteFor(ins).ask == ask && SliceQty(ins, ask) == 1
      && FillPrice(ins, Buy, ask, 1, true) == ask && FillPrice(ins, Buy, ask, 2, true) == 50_250_000_000
  {
    var ins, ask := ThinStock(symbol), 50_000_000_000;
    DivUnique(2 * (49_504_950_000 * 20_200_000_000) + HALF * 50_000, 2 * (HALF * 50_000), 1_000_000);
    assert RoundToTick(ins.last * (HALF + ins.spread), HALF, ins.tick) == ask;
    assert RoundToTick(ins.last * (HALF - ins.spread), HALF, ins.tick) <= ask by {
      RoundToTickMono(ins.last * (HALF - ins.spread), ins.last * (HALF + ins.spread), HALF, ins.tick);
    }
    assert SliceQty(ins, ask) == 1;
    assert SharePrice(ins, Buy, ask, 0) == ask * HALF;
    assert SharePrice(ins, Buy, ask, 1) == ask * (HALF + 200_000_000);
    assert SharesCost(ins, Buy, ask, 0) == 0;
    assert SharesCost(ins, Buy, ask, 1) == ask * HALF;
    assert SharesCost(ins, Buy, ask, 2) == 50_250_000_000 * (HALF * 2);
    RoundDivExact(1_000_000, HALF * 1 * 50_000);
    RoundDivExact(1_005_000, HALF * 2 * 50_000);
  }

  /** The walk: with Rs 1,00,300 the preview of one share, at Rs 50,000, offers two; two fill at Rs 50,250, well
      within tolerance, and are refused for funds whatever the charges. */
  lemma WalkedOfferRefused(r: Request, env: Env)
    requires env.Sound() && env.market.Open? && env.rules.slippage && env.rules.maxOrderQty >= 2
    requires r.symbol in env.instruments && env.instruments[r.symbol] == ThinStock(r.symbol)
    requires r.kind.Market? && r.side.Buy? && r.qty == 2 && r.tolerance == Some(1_000_000)
    ensures var t := NewTeam(100_300 * MICROS_PER_RUPEE);
      && NewMarketOrder(t, r, env)
      && PriceOf(r.(qty := 1), env) == 50_000 * MICROS_PER_RUPEE
      && Offer(t, r, PriceOf(r.(qty := 1), env), env) == r.qty
      && Welcome(t, r, env) && !Taken(t, r, env)
  {
    hide Valued, FillPrice, QuoteFor, ComputeFees, Submit, ProjectAvailable, RoundDiv, Unrounded, Gross;
    var t, ins := NewTeam(100_300 * MICROS_PER_RUPEE), ThinStock(r.symbol);
    ThinStockPrices(r.symbol);
    NewTeamFunds(100_300 * MICROS_PER_RUPEE, env);
    DivUnique(100_300 * MICROS_PER_RUPEE * PERCENT, 50_000 * MICROS_PER_RUPEE * (PERCENT + ASSUMED_FEE), 2);
    FeesSettle(env.rules.fees, Gross(2, 50_250_000_000), Buy);
    TakenExactly(t, r, env);
    CashOnly(ValuationOf(t, env), 2, 50_250_000_000, ins.last, FeeOf(r, env), env.rules.margin);
  }

  /** With no short, a buy passes the funds check exactly when cash covers it. */
  lemma CashOnly(v: Valuation, q: nat, price: int, mark: int, fee: int, rules: MarginRules)
    requires v.shortMv == 0
    ensures ProjectAvailable(v, 0, Buy, q, price, mark, fee, rules) >= 0 <==> price * q + fee <= v.cash
  {
    hide ProjectAvailable;
    FundedExactly(v, 0, Buy, q, price, mark, fee, rules);
    assert Shorted(0, Buy, q) == 0;
    assert mark * 0 * (PERCENT + rules.initial) == 0;
  }

  /** Size alone never has an order refused: without a tolerance a market order is taken exactly when it is
      accepted and passes the funds check, however far its walk goes. */
  lemma SizeAloneNeverRefuses(t: TeamRec, r: Request, env: Env)
    requires env.Sound() && NewMarketOrder(t, r, env) && r.tolerance.None? && r.qty >= 0
    ensures var ins, v := env.instruments[r.symbol], ValuationOf(t, env);
      var left := ProjectAvailable(
        v, Held(t, r), r.side, r.qty, PriceOf(r, env), ins.last, FeeOf(r, env), env.rules.margin);
      Taken(t, r, env) <==> Accepts(t, r, ins, env) && left >= 0
  {
    hide Submit, Accepts, DealPrice, ComputeFees, ProjectAvailable, QtyOf, Valued, Gross;
    TakenExactly(t, r, env);
  }

  /** An order whose walk reaches the cap of a tenth, and fills: twenty shares, one to a slice, of a stock at
      Rs 100 with a spread of 200 basis points, for a new team under the default charges. */
  lemma PastATenthFills(r: Request, env: Env)
    requires env.Sound() && env.market.Open? && env.rules.slippage && env.rules.maxOrderQty >= 20
    requires env.rules.fees == DEFAULT_FEES && r.symbol in env.instruments
    requires env.instruments[r.symbol]
          == Instr(r.symbol, 100_000_000, 50_000, 200_000_000, 100_000_000, Active, 1, true)
    requires r.kind.Market? && r.side.Buy? && r.qty == 20 && r.tolerance.None?
    ensures var t, ins := NewTeam(1_000_000 * MICROS_PER_RUPEE), env.instruments[r.symbol];
      && NewMarketOrder(t, r, env) && Taken(t, r, env)
      && ins.spread * ((r.qty - 1) / SliceQty(ins, QuoteFor(ins).ask)) > MAX_SLIPPAGE
  {
    hide Valued, FillPrice, ComputeFees, Submit, ProjectAvailable, RoundDiv;
    var t, ins := NewTeam(1_000_000 * MICROS_PER_RUPEE), env.instruments[r.symbol];
    var price := PriceOf(r, env);
    HundredRupeeQuote(ins);
    NewTeamFunds(1_000_000 * MICROS_PER_RUPEE, env);
    PriceBounds(ins, Buy, 101_000_000, 20, true);
    RoundDivExact(2_222, 10 * 50_000);
    BuyPrice(r, env);
    DefaultBuyCharges(price * 20);
    SizeAloneNeverRefuses(t, r, env);
    CashOnly(ValuationOf(t, env), 20, price, ins.last, FeeOf(r, env), env.rules.margin);
  }

  lemma HundredRupeeQuote(ins: Instr)
    requires ins.last == 100_000_000 && ins.tick == 50_000 && ins.spread == 200_000_000 && ins.liquidity == 100_000_000
    ensures QuoteFor(ins).ask == 101_000_000 && SliceQty(ins, 101_000_000) == 1
  {
    RoundDivExact(2_020, HALF * 50_000);
    RoundDivExact(1_980, HALF * 50_000);
  }
}
