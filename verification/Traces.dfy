/** Whole runs of one team: every sequence of orders, sweeps, cancels, cash movements, splits, risk checks
    and operator overrides, each against a market of its own.
 */
module Traces {
  import opened Money
  import opened Totals
  import opened Fees
  import opened Books
  import opened Risk
  import opened Pricing
  import opened Liquidation
  import opened Orders
  import opened OrderLaws
  import opened RiskDesk

  datatype Action =
    | Place(request: Request)
    | SweepOrder(order: nat)
    | Withdraw(order: nat)
    | CancelAll(symbol: Option<Symbol>)
    | Post(kind: Kind, amount: int)
    | BuyResearch(cost: int)
    | SplitStock(stock: Symbol, num: int, den: int)
    | RiskCheck
    | ChargeBorrow
    | Override(status: TeamStatus)

  datatype Step = Step(action: Action, env: Env)

  ghost predicate SoundStep(s: Step, ticks: Ticks) {
    && Uses(s.env, ticks) && s.env.rules.margin.liquidateTo > 0
    && (s.action.SplitStock? ==> s.action.num > 0 && s.action.den > 0)
    && (s.action.Post? ==> !s.action.kind.Trade?)
  }

  function Next(t: TeamRec, s: Step): TeamRec
    requires s.env.Sound() && s.env.rules.margin.liquidateTo > 0
    requires s.action.SplitStock? ==> s.action.num > 0 && s.action.den > 0
  {
    match s.action
    case Place(r) => Submit(t, r, s.env)
    case SweepOrder(i) => if t.status.TeamActive? then SweepOne(t, i, s.env) else t
    case Withdraw(i) => Cancel(t, i)
    case CancelAll(symbol) => CancelWorking(t, symbol)
    case Post(kind, amount) => t.(book := Posted(t.book, kind, amount))
    case BuyResearch(cost) => t.(book := Researched(t.book, cost))
    case SplitStock(symbol, num, den) =>
      CancelWorking(t, Some(symbol)).(book := t.book.(positions := SplitRow(t.book.positions, symbol, num, den)))
    case RiskCheck => Liquidate(t, s.env)
    case ChargeBorrow => BorrowCharged(t, s.env)
    case Override(status) => t.(status := status)
  }

  /** A research report is sold only for cash in hand. */
  function Researched(b: Book, cost: int): Book { if b.cash < cost then b else Posted(b, Research, -cost) }

  ghost predicate SoundTrace(steps: seq<Step>, ticks: Ticks) {
    forall k | 0 <= k < |steps| :: SoundStep(steps[k], ticks)
  }

  /** The state after all of `steps`. */
  ghost function After(t: TeamRec, steps: seq<Step>, ticks: Ticks): TeamRec
    requires SoundTrace(steps, ticks)
  {
    if steps == [] then t else Next(After(t, steps[..|steps| - 1], ticks), steps[|steps| - 1])
  }

  function NewTeam(capital: int): TeamRec { TeamRec(TeamActive, OpeningBook(capital), [], []) }

  // ------------------------------------------------------------------ every step keeps the books

  lemma {:induction false} CloseFromKeeps(t: TeamRec, k: nat, rows: nat, env: Env, ticks: Ticks)
    requires TeamOk(t, ticks) && Uses(env, ticks) && k <= rows
    ensures var t' := CloseFrom(t, k, rows, env); TeamOk(t', ticks) && Continues(t, t')
    decreases rows - k
  {
    hide TeamOk, Continues, DeskTrade, Equity;
    ContinuesRefl(t);
    if k < rows && k < |t.book.positions| {
      var p := t.book.positions[k];
      if p.qty != 0 {
        DeskTradeKeeps(t, DeskOrder(ClosingSide(p), p.symbol, Abs(p.qty), SquareOff), env, ticks);
      }
      var t1 := CloseRow(t, k, env);
      CloseFromKeeps(t1, k + 1, rows, env, ticks);
      ContinuesTrans(t, t1, CloseFrom(t1, k + 1, rows, env));
    }
  }

  lemma {:induction false} CoverLegsKeeps(t: TeamRec, legs: seq<Leg>, env: Env, ticks: Ticks)
    requires TeamOk(t, ticks) && Uses(env, ticks)
    ensures var t' := CoverLegs(t, legs, env); TeamOk(t', ticks) && Continues(t, t') && t'.status == t.status
    decreases |legs|
  {
    hide TeamOk, Continues, DeskTrade, Equity;
    ContinuesRefl(t);
    if legs != [] {
      var o := DeskOrder(Buy, legs[0].symbol, legs[0].qty, Margin);
      DeskTradeKeeps(t, o, env, ticks);
      var t1 := DeskTrade(t, o, env);
      CoverLegsKeeps(t1, legs[1..], env, ticks);
      ContinuesTrans(t, t1, CoverLegs(t1, legs[1..], env));
    }
  }

  lemma StatusKeeps(t: TeamRec, status: TeamStatus, ticks: Ticks)
    requires TeamOk(t, ticks)
    ensures TeamOk(t.(status := status), ticks) && Continues(t, t.(status := status))
  {
  }

  lemma BustKeeps(t: TeamRec, env: Env, ticks: Ticks)
    requires TeamOk(t, ticks) && Uses(env, ticks)
    ensures TeamOk(BustTeam(t, env), ticks) && Continues(t, BustTeam(t, env))
    ensures Out(BustTeam(t, env))
  {
    hide TeamOk, Continues, CloseFrom;
    var t1 := CloseFrom(t, 0, |t.book.positions|, env);
    CloseFromKeeps(t, 0, |t.book.positions|, env, ticks);
    var t2 := CancelWorking(t1, None);
    CancelWorkingKeeps(t1, None, ticks);
    StatusKeeps(t2, Busted, ticks);
    ContinuesTrans(t, t1, t2);
    ContinuesTrans(t, t2, BustTeam(t, env));
  }

  /** Out of the competition with nothing working. */
  predicate Out(t: TeamRec) {
    t.status.Busted? && forall i | 0 <= i < |t.orders| :: !t.orders[i].status.IsOpen()
  }

  lemma LiquidateKeeps(t: TeamRec, env: Env, ticks: Ticks)
    requires TeamOk(t, ticks) && Uses(env, ticks) && env.rules.margin.liquidateTo > 0
    ensures TeamOk(Liquidate(t, env), ticks) && Continues(t, Liquidate(t, env))
    ensures Acts(t, env) && Equity(CoverLegs(t, DeskPlan(t, env), env), env) <= 0 ==> Out(Liquidate(t, env))
  {
    hide TeamOk, Continues, CoverLegs, DeskPlan, BustTeam, Equity, StateOf, Out;
    ContinuesRefl(t);
    if Acts(t, env) {
      var t1 := CoverLegs(t, DeskPlan(t, env), env);
      CoverLegsKeeps(t, DeskPlan(t, env), env, ticks);
      BustKeeps(t1, env, ticks);
      ContinuesTrans(t, t1, BustTeam(t1, env));
    }
  }

  lemma BookKeeps(t: TeamRec, b: Book, ticks: Ticks)
    requires TeamOk(t, ticks) && DistinctSymbols(b.positions) && OnGrid(b.cash, MICROS_PER_PAISA)
    requires b.positions == t.book.positions || Tallied(b, t.fills)
    ensures TeamOk(t.(book := b), ticks) && Continues(t, t.(book := b))
  {
    hide RowFor, TalliedFor;
  }

  lemma SplitKeepsTallies(b: Book, fills: seq<FillRec>, symbol: Symbol, num: int, den: int)
    requires Tallied(b, fills) && num > 0 && den > 0
    ensures Tallied(b.(positions := SplitRow(b.positions, symbol, num, den)), fills)
  {
    hide RoundDiv, Truncated;
    var ps, qs := b.positions, SplitRow(b.positions, symbol, num, den);
    forall s
      ensures TalliedFor(RowFor(qs, s), fills, s)
    {
      assert TalliedFor(RowFor(ps, s), fills, s);
      FindIs(qs, s, Find(ps, s));
    }
  }

  lemma TeamTallied(t: TeamRec, ticks: Ticks)
    requires TeamOk(t, ticks)
    ensures Tallied(t.book, t.fills)
  {
    hide Tallied;
  }

  lemma SplitKeepsSymbols(ps: seq<Pos>, symbol: Symbol, num: int, den: int)
    requires DistinctSymbols(ps) && num > 0 && den > 0
    ensures DistinctSymbols(SplitRow(ps, symbol, num, den))
  {
    hide RoundDiv;
  }

  lemma TeamBook(t: TeamRec, ticks: Ticks)
    requires TeamOk(t, ticks)
    ensures DistinctSymbols(t.book.positions) && OnGrid(t.book.cash, MICROS_PER_PAISA)
  {
  }

  /** Every step keeps the accounts of every order and continues its history. */
  lemma StepKeeps(t: TeamRec, s: Step, ticks: Ticks)
    requires TeamOk(t, ticks) && SoundStep(s, ticks)
    ensures TeamOk(Next(t, s), ticks) && Continues(t, Next(t, s))
  {
    hide TeamOk, Continues, Submit, SweepOne, Liquidate, CancelWorking, Posted, SplitRow, Prudent, BorrowDue;
    hide DistinctSymbols, Tallied;
    TeamBook(t, ticks);
    ContinuesRefl(t);
    match s.action
    case Place(r) => SubmitKeeps(t, r, s.env, ticks);
    case SweepOrder(i) => SweepOneKeeps(t, i, s.env, ticks);
    case Withdraw(i) => CancelKeeps(t, i, ticks);
    case CancelAll(symbol) => CancelWorkingKeeps(t, symbol, ticks);
    case Post(kind, amount) =>
      PostedExact(t.book, kind, amount);
      BookKeeps(t, Posted(t.book, kind, amount), ticks);
    case BuyResearch(cost) =>
      PostedExact(t.book, Research, -cost);
      BookKeeps(t, Researched(t.book, cost), ticks);
    case SplitStock(symbol, num, den) =>
      var t1 := CancelWorking(t, Some(symbol));
      CancelWorkingKeeps(t, Some(symbol), ticks);
      SplitKeepsSymbols(t.book.positions, symbol, num, den);
      SameBookCancelled(t, Some(symbol));
      TeamTallied(t, ticks);
      SplitKeepsTallies(t.book, t.fills, symbol, num, den);
      var b := t.book.(positions := SplitRow(t.book.positions, symbol, num, den));
      BookKeeps(t1, b, ticks);
      ContinuesTrans(t, t1, t1.(book := b));
    case RiskCheck => LiquidateKeeps(t, s.env, ticks);
    case ChargeBorrow =>
      var due := BorrowDue(t.book.positions, s.env.Marks(), s.env.rules.margin.borrowFee);
      PostedExact(t.book, BorrowFee, -due);
      BookKeeps(t, BorrowCharged(t, s.env).book, ticks);
    case Override(status) => StatusKeeps(t, status, ticks);
  }

  /** From any sound state, any run keeps every order's accounts, changes no terminal order, and only ever
      appends fills, to orders that were open. */
  lemma {:induction false} RunKeeps(t: TeamRec, steps: seq<Step>, ticks: Ticks)
    requires TeamOk(t, ticks) && SoundTrace(steps, ticks)
    ensures TeamOk(After(t, steps, ticks), ticks) && Continues(t, After(t, steps, ticks))
  {
    hide TeamOk, Continues, Next, SoundStep;
    ContinuesRefl(t);
    if steps != [] {
      var t1 := After(t, steps[..|steps| - 1], ticks);
      RunKeeps(t, steps[..|steps| - 1], ticks);
      StepKeeps(t1, steps[|steps| - 1], ticks);
      ContinuesTrans(t, t1, After(t, steps, ticks));
    }
  }

  lemma NewTeamOk(capital: int, ticks: Ticks)
    ensures TeamOk(NewTeam(capital), ticks)
  {
    hide RoundDiv;
    MultipleOnGrid(RoundDiv(capital, MICROS_PER_PAISA), MICROS_PER_PAISA);
  }

  /** Main result: over every run of a new team, what each position says it has realised and paid in charges is
      the sum of what its recorded fills realised and paid. */
  lemma TalliesAreTheirFills(capital: int, steps: seq<Step>, ticks: Ticks, s: Symbol)
    requires SoundTrace(steps, ticks)
    ensures var t := After(NewTeam(capital), steps, ticks);
      var p := RowFor(t.book.positions, s);
      p.realised == RealisedOn(t.fills, s) && p.feesPaid == FeesOn(t.fills, s)
  {
    hide TeamOk;
    NewTeamOk(capital, ticks);
    RunKeeps(NewTeam(capital), steps, ticks);
    var t := After(NewTeam(capital), steps, ticks);
    TeamTallied(t, ticks);
    assert TalliedFor(RowFor(t.book.positions, s), t.fills, s);
  }

  /** Main result: order accounting over every run of a new team. */
  lemma OrdersAreTheirFills(capital: int, steps: seq<Step>, ticks: Ticks, i: nat)
    requires SoundTrace(steps, ticks) && i < |After(NewTeam(capital), steps, ticks).orders|
    ensures var t := After(NewTeam(capital), steps, ticks); Accounted(t.orders[i], i, t.fills)
  {
    NewTeamOk(capital, ticks);
    RunKeeps(NewTeam(capital), steps, ticks);
  }

  /** A research report is sold exactly for cash in hand: its cost, settled to the paisa, is paid and recorded, and
      cash does not go below zero; without the cash nothing changes. */
  lemma ResearchIsPaidFor(b: Book, cost: int)
    requires OnGrid(b.cash, MICROS_PER_PAISA) && b.cash >= 0
    ensures var b' := Researched(b, cost);
      && b'.cash >= 0
      && (b.cash < cost ==> b' == b)
      && (b.cash >= cost ==>
        && 2 * Abs(b.cash - b'.cash - cost) <= MICROS_PER_PAISA && b'.positions == b.positions
        && b'.rows == b.rows + [Row(Research, b'.cash - b.cash, b'.cash)])
  {
    hide RoundDiv;
    if b.cash >= cost {
      RoundDivNearest(-cost, MICROS_PER_PAISA);
      PostedExact(b, Research, -cost);
      GridQuotient(b.cash, MICROS_PER_PAISA);
      RoundDivOdd(cost, MICROS_PER_PAISA);
      RoundDivBetween(0, cost, b.cash / MICROS_PER_PAISA, MICROS_PER_PAISA);
    }
  }

  lemma SweepKeepsStatus(t: TeamRec, i: nat, env: Env)
    requires env.Sound()
    ensures SweepOne(t, i, env).status == t.status
  {
    hide RoundDiv, RoundToTick, Fillable, DealPrice, ComputeFees, Booked, RealisedBy, Unaffordable, FilledOrder;
  }

  /** The engine's pass over a team's orders is the run that sweeps each of them in turn; a team that is not active is
      left alone. */
  lemma {:induction false} SweepIsARun(t: TeamRec, ids: seq<nat>, env: Env, ticks: Ticks)
    requires Uses(env, ticks) && env.rules.margin.liquidateTo > 0
    ensures var steps := seq(|ids|, k requires 0 <= k < |ids| => Step(SweepOrder(ids[k]), env));
      && SoundTrace(steps, ticks)
      && After(t, steps, ticks) == SweepAll(t, ids, env) && SweepAll(t, ids, env).status == t.status
      && (!t.status.TeamActive? ==> SweepAll(t, ids, env) == t)
  {
    hide SweepOne;
    var steps := seq(|ids|, k requires 0 <= k < |ids| => Step(SweepOrder(ids[k]), env));
    if ids != [] {
      var n := |ids| - 1;
      var before := ids[..n];
      SweepIsARun(t, before, env, ticks);
      assert steps[..n] == seq(n, k requires 0 <= k < n => Step(SweepOrder(before[k]), env));
      SweepKeepsStatus(SweepAll(t, before, env), ids[n], env);
    }
  }

  // ------------------------------------------------------------------ retries

  /** Main result: a client id that was ever recorded stays recorded, so a retry changes nothing, whatever
      happened in between. */
  lemma RetryChangesNothing(t: TeamRec, steps: seq<Step>, ticks: Ticks, r: Request, env: Env)
    requires TeamOk(t, ticks) && SoundTrace(steps, ticks) && env.Sound()
    requires r.clientId != "" && exists o | o in t.orders :: o.clientId == r.clientId
    ensures Submit(After(t, steps, ticks), r, env) == After(t, steps, ticks)
  {
    hide TeamOk, TryExecute;
    RunKeeps(t, steps, ticks);
    var o :| o in t.orders && o.clientId == r.clientId;
    var i :| 0 <= i < |t.orders| && t.orders[i] == o;
    assert After(t, steps, ticks).orders[i].clientId == r.clientId;
  }

  // ------------------------------------------------------------------ out is out

  lemma OutStepStays(t: TeamRec, s: Step, ticks: Ticks)
    requires TeamOk(t, ticks) && SoundStep(s, ticks) && Out(t) && !s.action.Override?
    ensures Out(Next(t, s)) && Next(t, s).fills == t.fills
  {
    hide TeamOk, TryExecute, Researched, BorrowDue, Posted, SplitRow, CoverLegs, BustTeam, StateOf;
  }

  /** Main result: once a team is out, absent an operator override, it has no working order and no fill is
      ever booked for it again. */
  lemma {:induction false} OutForever(t: TeamRec, steps: seq<Step>, ticks: Ticks)
    requires TeamOk(t, ticks) && SoundTrace(steps, ticks) && Out(t)
    requires forall k | 0 <= k < |steps| :: !steps[k].action.Override?
    ensures Out(After(t, steps, ticks)) && After(t, steps, ticks).fills == t.fills
  {
    hide TeamOk, Next, Out, SoundStep;
    if steps != [] {
      OutForever(t, steps[..|steps| - 1], ticks);
      RunKeeps(t, steps[..|steps| - 1], ticks);
      OutStepStays(After(t, steps[..|steps| - 1], ticks), steps[|steps| - 1], ticks);
    }
  }

  // ------------------------------------------------------------------ stops wait for their trigger

  /** A stop that has woken up: triggered, or with something filled. */
  predicate Awake(o: OrderRec) { o.kind.IsStop() && (o.status.Triggered? || o.filled > 0) }

  /** In this step's market the order's last price meets its trigger. */
  predicate Meets(s: Step, o: OrderRec) {
    o.symbol in s.env.instruments && StopTriggered(o, s.env.instruments[o.symbol].last)
  }

  /** Every stop awake afterwards was awake before, or meets its trigger in this step. */
  ghost predicate Wakes(t: TeamRec, t': TeamRec, s: Step) {
    forall i | 0 <= i < |t'.orders| && Awake(t'.orders[i]) ::
      (i < |t.orders| && Awake(t.orders[i])) || Meets(s, t'.orders[i])
  }

  /** No stop wakes at all. */
  ghost predicate Quiet(t: TeamRec, t': TeamRec) {
    && |t.orders| <= |t'.orders|
    && forall i | 0 <= i < |t'.orders| && Awake(t'.orders[i]) :: i < |t.orders| && Awake(t.orders[i])
  }

  lemma DeskTradeQuiet(t: TeamRec, o: OrderRec, env: Env)
    requires env.Sound() && o.kind.Market?
    ensures Quiet(t, DeskTrade(t, o, env))
  {
    hide RoundDiv, RoundToTick, Fillable, DealPrice, ComputeFees, Booked, RealisedBy, Unaffordable;
  }

  lemma {:induction false} CoverLegsQuiet(t: TeamRec, legs: seq<Leg>, env: Env)
    requires env.Sound()
    ensures Quiet(t, CoverLegs(t, legs, env))
    decreases |legs|
  {
    hide DeskTrade;
    if legs != [] {
      var o := DeskOrder(Buy, legs[0].symbol, legs[0].qty, Margin);
      DeskTradeQuiet(t, o, env);
      CoverLegsQuiet(DeskTrade(t, o, env), legs[1..], env);
    }
  }

  lemma {:induction false} CloseFromQuiet(t: TeamRec, k: nat, rows: nat, env: Env)
    requires env.Sound() && k <= rows
    ensures Quiet(t, CloseFrom(t, k, rows, env))
    decreases rows - k
  {
    hide DeskTrade;
    if k < rows && k < |t.book.positions| {
      var p := t.book.positions[k];
      DeskTradeQuiet(t, DeskOrder(ClosingSide(p), p.symbol, Abs(p.qty), SquareOff), env);
      CloseFromQuiet(CloseRow(t, k, env), k + 1, rows, env);
    }
  }

  lemma LiquidateQuiet(t: TeamRec, env: Env)
    requires env.Sound() && env.rules.margin.liquidateTo > 0
    ensures Quiet(t, Liquidate(t, env))
  {
    hide CoverLegs, CloseFrom, DeskPlan, Equity, StateOf;
    if Acts(t, env) {
      var t1 := CoverLegs(t, DeskPlan(t, env), env);
      CoverLegsQuiet(t, DeskPlan(t, env), env);
      CloseFromQuiet(t1, 0, |t1.book.positions|, env);
    }
  }

  lemma TryExecuteTouchesOne(t: TeamRec, i: nat, ins: Instr, env: Env, enforceSlippage: bool, enforceFunds: bool)
    requires i < |t.orders| && ins.tick > 0 && TryExecute(t, i, ins, env, enforceSlippage, enforceFunds).Executed?
    ensures var t' := TryExecute(t, i, ins, env, enforceSlippage, enforceFunds).team;
      |t'.orders| == |t.orders| && SameTerms(t.orders[i], t'.orders[i])
      && forall j | 0 <= j < |t.orders| && j != i :: t'.orders[j] == t.orders[j]
  {
    hide RoundDiv, RoundToTick, Fillable, DealPrice, ComputeFees, Booked, RealisedBy, Unaffordable;
  }

  lemma PlaceWakes(t: TeamRec, r: Request, s: Step)
    requires s.env.Sound()
    ensures Wakes(t, Submit(t, r, s.env), s)
  {
    hide TryExecute, RoundToTick, CanTrade, ValidRequest;
    if r.symbol in s.env.instruments {
      var ins, i := s.env.instruments[r.symbol], |t.orders|;
      var t1 := Appended(t, NewOrder(r, Normal, Pending));
      var t2 := if r.kind.IsStop() then Marked(t1, i, Triggered) else t1;
      if TryExecute(t2, i, ins, s.env, true, true).Executed? { TryExecuteTouchesOne(t2, i, ins, s.env, true, true); }
    }
  }

  lemma SweepWakes(t: TeamRec, i: nat, s: Step)
    requires s.env.Sound()
    ensures Wakes(t, SweepOne(t, i, s.env), s)
  {
    hide TryExecute, RoundToTick;
    if i < |t.orders| && t.orders[i].symbol in s.env.instruments {
      var ins := s.env.instruments[t.orders[i].symbol];
      var t1 := Marked(t, i, Triggered);
      if TryExecute(t1, i, ins, s.env, false, true).Executed? { TryExecuteTouchesOne(t1, i, ins, s.env, false, true); }
      if TryExecute(t, i, ins, s.env, false, true).Executed? { TryExecuteTouchesOne(t, i, ins, s.env, false, true); }
    }
  }

  lemma StepWakes(t: TeamRec, s: Step, ticks: Ticks)
    requires SoundStep(s, ticks)
    ensures Wakes(t, Next(t, s), s)
  {
    hide Submit, SweepOne, Posted, SplitRow, Liquidate, BorrowDue;
    match s.action
    case Place(r) => PlaceWakes(t, r, s);
    case SweepOrder(i) => SweepWakes(t, i, s);
    case RiskCheck => LiquidateQuiet(t, s.env);
    case _ =>
  }

  /** Order `i` is on the book and awake. */
  predicate AwakeIn(t: TeamRec, i: nat) { i < |t.orders| && Awake(t.orders[i]) }

  /** Main result: in any run of a new team, a stop order that is triggered or has a fill was woken by one step:
      before it the order was dormant or not yet placed, and in that step's market the last price had risen to
      the trigger of a buy or fallen to that of a sell. So no fill, all of which come from that step on, precedes
      the trigger. */
  lemma {:induction false} StopsWait(capital: int, steps: seq<Step>, ticks: Ticks, i: nat) returns (k: nat)
    requires SoundTrace(steps, ticks) && AwakeIn(After(NewTeam(capital), steps, ticks), i)
    ensures k < |steps|
    ensures !AwakeIn(After(NewTeam(capital), steps[..k], ticks), i)
    ensures AwakeIn(After(NewTeam(capital), steps[..k + 1], ticks), i)
    ensures var o, market := After(NewTeam(capital), steps, ticks).orders[i], steps[k].env.instruments;
      && o.symbol in market && o.trigger.Some?
      && if o.side.Buy? then market[o.symbol].last >= o.trigger.value else market[o.symbol].last <= o.trigger.value
  {
    hide Next, TeamOk, SoundStep, Meets;
    var n := |steps| - 1;
    var t1, t := After(NewTeam(capital), steps[..n], ticks), After(NewTeam(capital), steps, ticks);
    StepWakes(t1, steps[n], ticks);
    assert steps[..n + 1] == steps;
    if AwakeIn(t1, i) {
      k := StopsWait(capital, steps[..n], ticks, i);
      assert steps[..n][..k] == steps[..k] && steps[..n][..k + 1] == steps[..k + 1];
      NewTeamOk(capital, ticks);
      RunKeeps(NewTeam(capital), steps[..n], ticks);
      StepKeeps(t1, steps[n], ticks);
      assert SameTerms(t1.orders[i], t.orders[i]);
    } else {
      k := n;
      MeetsMeans(steps[n], t.orders[i]);
    }
  }

  lemma MeetsMeans(s: Step, o: OrderRec)
    requires Meets(s, o)
    ensures o.symbol in s.env.instruments && o.trigger.Some?
    ensures var last := s.env.instruments[o.symbol].last;
      if o.side.Buy? then last >= o.trigger.value else last <= o.trigger.value
  {
  }

  // ------------------------------------------------------------------ fixed prices

  /** What participants and the resting-order sweep do. */
  predicate Trading(a: Action) { a.Place? || a.SweepOrder? || a.Withdraw? || a.CancelAll? }

  /** Main result: at fixed prices no sequence of orders makes money or overspends. */
  lemma {:induction false} NoMoneyPump(t: TeamRec, steps: seq<Step>, ticks: Ticks, env: Env)
    requires TeamOk(t, ticks) && SoundTrace(steps, ticks) && Uses(env, ticks)
    requires forall k | 0 <= k < |steps| :: Trading(steps[k].action) && steps[k].env == env
    ensures var t' := After(t, steps, ticks);
      && Equity(t', env) <= Equity(t, env)
      && (AvailableFunds(t, env) >= 0 ==> AvailableFunds(t', env) >= 0)
      && (AllListed(t, env) ==> AllListed(t', env))
  {
    hide TeamOk, SoundStep, Next, AllListed, AvailableFunds, Equity;
    if steps != [] {
      var n := |steps| - 1;
      var t1 := After(t, steps[..n], ticks);
      NoMoneyPump(t, steps[..n], ticks, env);
      RunKeeps(t, steps[..n], ticks);
      TradingPrudent(t1, steps[n], ticks);
      PrudentFunds(t1, After(t, steps, ticks), env);
    }
  }

  lemma TradingPrudent(t: TeamRec, s: Step, ticks: Ticks)
    requires TeamOk(t, ticks) && SoundStep(s, ticks) && Trading(s.action)
    ensures Prudent(t, Next(t, s), s.env)
  {
    hide TeamOk, Prudent, Submit, SweepOne, CancelWorking, Continues;
    SameBook(t, t, s.env);
    match s.action {
      case Place(r) => SubmitKeeps(t, r, s.env, ticks);
      case SweepOrder(i) => SweepOneKeeps(t, i, s.env, ticks);
      case Withdraw(i) => SameBook(t, Cancel(t, i), s.env);
      case CancelAll(symbol) =>
        SameBookCancelled(t, symbol);
        SameBook(t, CancelWorking(t, symbol), s.env);
    }
  }

  lemma PrudentFunds(t: TeamRec, t': TeamRec, env: Env)
    requires Prudent(t, t', env)
    ensures Equity(t', env) <= Equity(t, env)
    ensures AvailableFunds(t, env) >= 0 ==> AvailableFunds(t', env) >= 0
    ensures AllListed(t, env) ==> AllListed(t', env)
  {
  }

  /** Main result: no team trades itself into trouble. At fixed prices, from non-negative available funds, no
      sequence of orders, sweeps and cancels brings on a margin warning or a margin call, and none takes
      equity below zero. */
  lemma NoSelfInflictedCall(t: TeamRec, steps: seq<Step>, ticks: Ticks, env: Env)
    requires TeamOk(t, ticks) && SoundTrace(steps, ticks) && Uses(env, ticks)
    requires forall k | 0 <= k < |steps| :: Trading(steps[k].action) && steps[k].env == env
    requires AllListed(t, env) && AvailableFunds(t, env) >= 0
    requires var m := env.rules.margin; 0 <= m.maintenance <= m.initial && 0 <= m.warning <= m.initial
    ensures var t' := After(t, steps, ticks);
      Equity(t', env) >= 0 && (Equity(t', env) > 0 ==> StateOf(t', env) == Ok)
  {
    hide TeamOk, SoundStep, Valued, After;
    NoMoneyPump(t, steps, ticks, env);
    FundedIsCovered(After(t, steps, ticks), env);
  }

  /** Non-negative available funds on a listed book: short value is at most 100 / initial% of equity (to within
      the storage grid), equity is not negative, and no margin state but OK applies to an account worth anything. */
  lemma FundedIsCovered(t: TeamRec, env: Env)
    requires env.Sound() && AllListed(t, env) && AvailableFunds(t, env) >= 0
    requires var m := env.rules.margin; 0 <= m.maintenance <= m.initial && 0 <= m.warning <= m.initial
    ensures var v := Valued(t.book, env.Marks(), env.rules.margin);
      && 2 * (v.shortMv * env.rules.margin.initial) <= 2 * PERCENT * v.equity + PERCENT
      && v.equity >= 0 && (v.equity > 0 ==> v.MarginState() == Ok)
  {
    hide Valued;
    MarksAreSound(env);
    forall p | p in t.book.positions
      ensures MarkOf(env.Marks(), p) >= 0
    {
      assert p.symbol in env.instruments;
    }
    FundsCoverMargin(t.book, env.Marks(), env.rules.margin);
    AvailableCapsLeverage(t.book, env.Marks(), env.rules.margin);
  }

  /** Main result: every fill the funds check lets through leaves the team covered: within its leverage cap,
      not worth less than nothing, and not in a margin warning or call. */
  lemma FundedFillIsCovered(t: TeamRec, i: nat, ins: Instr, env: Env, ticks: Ticks, enforceSlippage: bool)
    requires i < |t.orders| && Uses(env, ticks) && ins.symbol in env.instruments && ins == env.instruments[ins.symbol]
    requires t.orders[i].symbol == ins.symbol && t.orders[i].status.IsOpen() && TeamOk(t, ticks) && AllListed(t, env)
    requires var m := env.rules.margin; 0 <= m.maintenance <= m.initial && 0 <= m.warning <= m.initial
    requires TryExecute(t, i, ins, env, enforceSlippage, true).Executed?
    ensures var v := Valued(TryExecute(t, i, ins, env, enforceSlippage, true).team.book, env.Marks(), env.rules.margin);
      && 2 * (v.shortMv * env.rules.margin.initial) <= 2 * PERCENT * v.equity + PERCENT
      && v.equity >= 0 && (v.equity > 0 ==> v.MarginState() == Ok)
  {
    hide TeamOk, Continues, Valued, TryExecute;
    ExecutedMoney(t, i, ins, env, ticks, enforceSlippage, true);
    FundedIsCovered(TryExecute(t, i, ins, env, enforceSlippage, true).team, env);
  }

  lemma SameBookCancelled(t: TeamRec, symbol: Option<Symbol>)
    ensures CancelWorking(t, symbol).book == t.book && CancelWorking(t, symbol).fills == t.fills
  {
  }
}
