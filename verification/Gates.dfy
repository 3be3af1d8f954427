/** What may trade, and when: no path books a fill outside an open market or on a side that is locked, every
    request leaves exactly one row behind, and a market order is never left working.

    The market is the one the step was handed. A sweep and the risk desk are handed a state read before they
    take the team's lock, so a freeze committed in between is not seen by the step already under way.
 */
module Gates {
  import opened Money
  import opened Fees
  import opened Books
  import opened Pricing
  import opened Limits
  import opened Liquidation
  import opened Orders
  import opened OrderLaws
  import opened RiskDesk
  import opened Traces

  /** The market is open and the fill's side of its stock is neither halted nor locked at a circuit. */
  predicate Allowed(f: FillRec, env: Env) {
    env.market.Open? && f.symbol in env.instruments && SideAllowed(env.instruments[f.symbol].status, f.side)
  }

  /** Every fill booked on the way from `t` to `t'` was allowed. */
  ghost predicate NewFillsAllowed(t: TeamRec, t': TeamRec, env: Env) {
    && |t.fills| <= |t'.fills| && t'.fills[..|t.fills|] == t.fills
    && forall k | |t.fills| <= k < |t'.fills| :: Allowed(t'.fills[k], env)
  }

  lemma AllowedTrans(t: TeamRec, u: TeamRec, v: TeamRec, env: Env)
    requires NewFillsAllowed(t, u, env) && NewFillsAllowed(u, v, env)
    ensures NewFillsAllowed(t, v, env)
  {
    assert v.fills[..|t.fills|] == v.fills[..|u.fills|][..|t.fills|];
    forall k | |t.fills| <= k < |v.fills|
      ensures Allowed(v.fills[k], env)
    {
      if k < |u.fills| { assert v.fills[k] == v.fills[..|u.fills|][k]; }
    }
  }

  lemma NoFillsAllowed(t: TeamRec, t': TeamRec, env: Env)
    requires t'.fills == t.fills
    ensures NewFillsAllowed(t, t', env)
  {
  }

  lemma AttemptAllowed(t: TeamRec, i: nat, ins: Instr, env: Env, slip: bool, funds: bool)
    requires i < |t.orders| && ins.tick > 0 && ins.symbol in env.instruments && env.instruments[ins.symbol] == ins
    requires TryExecute(t, i, ins, env, slip, funds).Executed?
    ensures NewFillsAllowed(t, TryExecute(t, i, ins, env, slip, funds).team, env)
  {
    hide RoundDiv, RoundToTick, Fillable, DealPrice, ComputeFees, Booked, RealisedBy, Unaffordable, FilledOrder;
  }

  lemma DeskTradeAllowed(t: TeamRec, o: OrderRec, env: Env)
    requires env.Sound()
    ensures NewFillsAllowed(t, DeskTrade(t, o, env), env)
  {
    hide TryExecute;
    if o.symbol in env.instruments && env.instruments[o.symbol].status.Tradable() {
      var t1, ins := Appended(t, o), env.instruments[o.symbol];
      if TryExecute(t1, |t.orders|, ins, env, false, false).Executed? {
        AttemptAllowed(t1, |t.orders|, ins, env, false, false);
      }
    }
  }

  lemma {:induction false} CoverLegsAllowed(t: TeamRec, legs: seq<Leg>, env: Env)
    requires env.Sound()
    ensures NewFillsAllowed(t, CoverLegs(t, legs, env), env)
    decreases |legs|
  {
    hide DeskTrade;
    NoFillsAllowed(t, t, env);
    if legs != [] {
      var o := DeskOrder(Buy, legs[0].symbol, legs[0].qty, Margin);
      DeskTradeAllowed(t, o, env);
      CoverLegsAllowed(DeskTrade(t, o, env), legs[1..], env);
      AllowedTrans(t, DeskTrade(t, o, env), CoverLegs(t, legs, env), env);
    }
  }

  lemma {:induction false} CloseFromAllowed(t: TeamRec, k: nat, rows: nat, env: Env)
    requires env.Sound() && k <= rows
    ensures NewFillsAllowed(t, CloseFrom(t, k, rows, env), env)
    decreases rows - k
  {
    hide DeskTrade;
    NoFillsAllowed(t, t, env);
    if k < rows && k < |t.book.positions| {
      var p := t.book.positions[k];
      DeskTradeAllowed(t, DeskOrder(ClosingSide(p), p.symbol, Abs(p.qty), SquareOff), env);
      var t1 := CloseRow(t, k, env);
      CloseFromAllowed(t1, k + 1, rows, env);
      AllowedTrans(t, t1, CloseFrom(t, k, rows, env), env);
    }
  }

  lemma LiquidateAllowed(t: TeamRec, env: Env)
    requires env.Sound() && env.rules.margin.liquidateTo > 0
    ensures NewFillsAllowed(t, Liquidate(t, env), env)
  {
    hide CoverLegs, CloseFrom, DeskPlan, Equity, StateOf, NewFillsAllowed;
    NoFillsAllowed(t, t, env);
    if Acts(t, env) {
      var t1 := CoverLegs(t, DeskPlan(t, env), env);
      CoverLegsAllowed(t, DeskPlan(t, env), env);
      if Equity(t1, env) <= 0 {
        var t2 := CloseFrom(t1, 0, |t1.book.positions|, env);
        CloseFromAllowed(t1, 0, |t1.book.positions|, env);
        NoFillsAllowed(t2, BustTeam(t1, env), env);
        AllowedTrans(t1, t2, BustTeam(t1, env), env);
        AllowedTrans(t, t1, BustTeam(t1, env), env);
      }
    }
  }

  lemma SubmitAllowed(t: TeamRec, r: Request, env: Env)
    requires env.Sound()
    ensures NewFillsAllowed(t, Submit(t, r, env), env)
  {
    hide TryExecute, RoundToTick, CanTrade, ValidRequest;
    if r.symbol in env.instruments {
      var ins, i := env.instruments[r.symbol], |t.orders|;
      var t1 := Appended(t, NewOrder(r, Normal, Pending));
      var t2 := if r.kind.IsStop() then Marked(t1, i, Triggered) else t1;
      if TryExecute(t2, i, ins, env, true, true).Executed? { AttemptAllowed(t2, i, ins, env, true, true); }
    }
  }

  lemma SweepAllowed(t: TeamRec, i: nat, env: Env)
    requires env.Sound()
    ensures NewFillsAllowed(t, SweepOne(t, i, env), env)
  {
    hide TryExecute, RoundToTick;
    if i < |t.orders| && t.orders[i].symbol in env.instruments {
      var ins, t1 := env.instruments[t.orders[i].symbol], Marked(t, i, Triggered);
      if TryExecute(t1, i, ins, env, false, true).Executed? { AttemptAllowed(t1, i, ins, env, false, true); }
      if TryExecute(t, i, ins, env, false, true).Executed? { AttemptAllowed(t, i, ins, env, false, true); }
    }
  }

  lemma StepAllowed(t: TeamRec, s: Step, ticks: Ticks)
    requires SoundStep(s, ticks)
    ensures NewFillsAllowed(t, Next(t, s), s.env)
  {
    hide Submit, SweepOne, Posted, SplitRow, Liquidate, BorrowDue, NewFillsAllowed;
    match s.action
    case Place(r) => SubmitAllowed(t, r, s.env);
    case SweepOrder(i) =>
      SweepAllowed(t, i, s.env);
      NoFillsAllowed(t, t, s.env);
    case RiskCheck => LiquidateAllowed(t, s.env);
    case _ => NoFillsAllowed(t, Next(t, s), s.env);
  }

  /** Main result. In any run every fill booked along the way, forced covers and square-offs included, was
      booked by a step handed a market that was open and in which its stock was trading freely, or at its upper
      circuit and the fill a sale, or at its lower circuit and the fill a buy. */
  lemma {:induction false} FillsOnlyWhenAllowed(t: TeamRec, steps: seq<Step>, ticks: Ticks, i: nat) returns (k: nat)
    requires SoundTrace(steps, ticks) && |t.fills| <= i < |After(t, steps, ticks).fills|
    ensures k < |steps| && |After(t, steps[..k], ticks).fills| <= i < |After(t, steps[..k + 1], ticks).fills|
    ensures After(t, steps[..k + 1], ticks).fills[i] == After(t, steps, ticks).fills[i]
    ensures var f, env := After(t, steps, ticks).fills[i], steps[k].env;
      && env.market.Open? && f.symbol in env.instruments
      && var s := env.instruments[f.symbol].status;
      s.Active? || if f.side.Buy? then s.LowerCircuit? else s.UpperCircuit?
  {
    hide Next, SoundStep, Allowed;
    var n := |steps| - 1;
    var t1, t2 := After(t, steps[..n], ticks), After(t, steps, ticks);
    StepAllowed(t1, steps[n], ticks);
    assert steps[..n + 1] == steps;
    if i < |t1.fills| {
      k := FillsOnlyWhenAllowed(t, steps[..n], ticks, i);
      assert steps[..n][..k] == steps[..k] && steps[..n][..k + 1] == steps[..k + 1];
      assert t2.fills[i] == t2.fills[..|t1.fills|][i] == t1.fills[i];
    } else {
      k := n;
      AllowedMeans(t2.fills[i], steps[n].env);
    }
  }

  lemma AllowedMeans(f: FillRec, env: Env)
    requires Allowed(f, env)
    ensures env.market.Open? && f.symbol in env.instruments
    ensures var s := env.instruments[f.symbol].status;
      s.Active? || if f.side.Buy? then s.LowerCircuit? else s.UpperCircuit?
  {
  }

  // ------------------------------------------------------------------ what a request leaves behind

  /** What can be relied on of an order that is on the books and not rejected: a positive quantity within the cap
      and in whole lots, and prices that are positive and on the tick grid where the type needs them. */
  ghost predicate WellFormed(o: OrderRec, ins: Instr, rules: Rules)
    requires ins.tick > 0
  {
    && 0 < o.qty <= rules.maxOrderQty && (ins.lot > 1 ==> OnGrid(o.qty, ins.lot))
    && (!o.kind.WorksAsMarket() ==> o.limit.Some? && o.limit.value > 0 && OnGrid(o.limit.value, ins.tick))
    && (o.kind.IsStop() ==> o.trigger.Some? && o.trigger.value > 0 && OnGrid(o.trigger.value, ins.tick))
  }

  /** Exactly which requests are accepted. */
  lemma AcceptsExactly(t: TeamRec, r: Request, ins: Instr, env: Env)
    requires ins.tick > 0
    ensures Accepts(t, r, ins, env)
      <==> && ins.listed && t.status.TeamActive? && !ins.status.Halted? && !ins.status.Suspended?
           && (env.market.Open? || (env.market.PreOpen? && !r.kind.Market?))
           && (env.market.Open? && ins.status.UpperCircuit? ==> r.side.Sell?)
           && (env.market.Open? && ins.status.LowerCircuit? ==> r.side.Buy?)
           && WellFormed(NewOrder(r, Normal, Pending), ins, env.rules)
  {
    hide RoundDiv, RoundToTick;
    if r.limit.Some? { RoundToTickGrid(r.limit.value, 1, ins.tick); }
    if r.trigger.Some? { RoundToTickGrid(r.trigger.value, 1, ins.tick); }
  }

  lemma ValidIsWellFormed(r: Request, ins: Instr, rules: Rules)
    requires ins.tick > 0 && ValidRequest(r, ins, rules)
    ensures WellFormed(NewOrder(r, Normal, Pending), ins, rules)
  {
    hide RoundDiv, RoundToTick;
    if r.limit.Some? { RoundToTickGrid(r.limit.value, 1, ins.tick); }
    if r.trigger.Some? { RoundToTickGrid(r.trigger.value, 1, ins.tick); }
  }

  /** Main result. A request not seen before, for a stock that exists, leaves exactly one row with its terms
      and touches no other; a REJECTED row comes with no fill and an untouched book; a row that is not REJECTED
      is well formed, for an active team, in a listed and tradable stock, with the market open or about to
      open; and a market order ends FILLED or REJECTED. */
  lemma SubmitRecords(t: TeamRec, r: Request, env: Env)
    requires env.Sound() && r.symbol in env.instruments
    requires r.clientId == "" || forall o | o in t.orders :: o.clientId != r.clientId
    ensures var t', i := Submit(t, r, env), |t.orders|;
      && |t'.orders| == i + 1 && t'.orders[..i] == t.orders
      && SameTerms(NewOrder(r, Normal, Pending), t'.orders[i])
      && (t'.orders[i].status.Rejected? ==> t'.book == t.book && t'.fills == t.fills)
      && (r.kind.Market? ==> t'.orders[i].status.Filled? || t'.orders[i].status.Rejected?)
      && (!t'.orders[i].status.Rejected? ==>
        var ins := env.instruments[r.symbol];
        && WellFormed(t'.orders[i], ins, env.rules) && t.status.TeamActive? && ins.listed && ins.status.Tradable()
        && (env.market.Open? || (env.market.PreOpen? && !r.kind.Market?)))
  {
    hide TryExecute, RoundToTick, StopTriggered, ValidRequest, WellFormed, SideAllowed;
    var ins, i := env.instruments[r.symbol], |t.orders|;
    if Accepts(t, r, ins, env) {
      ValidIsWellFormed(r, ins, env.rules);
      var t1 := Appended(t, NewOrder(r, Normal, Pending));
      var t2 := if r.kind.IsStop() then Marked(t1, i, Triggered) else t1;
      if TryExecute(t2, i, ins, env, true, true).Executed? {
        TryExecuteTouchesOne(t2, i, ins, env, true, true);
        MarketFillsWhole(t2, i, ins, env, true, true);
      }
      SameTermsWellFormed(NewOrder(r, Normal, Pending), Submit(t, r, env).orders[i], ins, env.rules);
    }
  }

  lemma SameTermsWellFormed(o: OrderRec, o': OrderRec, ins: Instr, rules: Rules)
    requires ins.tick > 0 && SameTerms(o, o') && WellFormed(o, ins, rules)
    ensures WellFormed(o', ins, rules)
  {
  }

  /** Executing never rejects, and fills a market order whole. */
  lemma MarketFillsWhole(t: TeamRec, i: nat, ins: Instr, env: Env, slip: bool, funds: bool)
    requires i < |t.orders| && ins.tick > 0 && TryExecute(t, i, ins, env, slip, funds).Executed?
    ensures var o := TryExecute(t, i, ins, env, slip, funds).team.orders[i];
      && (o.status == t.orders[i].status || o.status.Filled?)
      && (t.orders[i].kind.WorksAsMarket() ==> o.status.Filled?)
  {
    hide RoundDiv, RoundToTick, DealPrice, ComputeFees, Booked, RealisedBy, Unaffordable, Slipped, MaxQtyWithinLimit;
  }

  /** A market order that fills when first placed fills within the slippage its owner accepted. */
  lemma ToleranceRespected(t: TeamRec, i: nat, ins: Instr, env: Env, ticks: Ticks, funds: bool)
    requires i < |t.orders| && Uses(env, ticks) && ins.symbol in env.instruments && ins == env.instruments[ins.symbol]
    requires t.orders[i].symbol == ins.symbol && t.orders[i].status.IsOpen() && WellPriced(t.orders[i], ticks)
    requires t.orders[i].kind.WorksAsMarket() && t.orders[i].tolerance.Some? && t.orders[i].tolerance.value >= 0
    requires QuoteFor(ins).Touch(t.orders[i].side) > 0 && TryExecute(t, i, ins, env, true, funds).Executed?
    ensures var fills := TryExecute(t, i, ins, env, true, funds).team.fills;
      var touch := QuoteFor(ins).Touch(t.orders[i].side);
      |fills| == |t.fills| + 1 && Abs(fills[|t.fills|].price - touch) * PERCENT <= t.orders[i].tolerance.value * touch
  {
    hide RoundDiv, RoundToTick, FillPrice, ComputeFees, Booked, RealisedBy, Unaffordable, FilledOrder, QuoteFor;
    ExecutedFill(t, i, ins, env, ticks, true, funds);
  }
}
