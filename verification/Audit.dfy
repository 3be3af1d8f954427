/** Every run of a team is a run of its books: the order path, the sweep, the desk and the operators move
    cash and positions only through fills, postings and splits. `History` reads that run of ledger events off
    the steps; its fills are the fill table, so positions and rounding drift are those of the recorded fills.
 */
module Audit {
  import opened Money
  import opened Fees
  import opened Books
  import opened Totals
  import opened Risk
  import opened Pricing
  import opened Liquidation
  import opened Orders
  import opened OrderLaws
  import opened RiskDesk
  import opened Traces
  import Reconcile

  type Events = seq<Reconcile.Event>

  ghost predicate Explains(b: Book, events: Events, b': Book) {
    Reconcile.SoundRun(b, events) && Reconcile.Run(b, events) == b'
  }

  lemma {:induction false} ExplainsThen(b: Book, first: Events, b1: Book, later: Events, b2: Book)
    requires Explains(b, first, b1) && Explains(b1, later, b2)
    ensures Explains(b, first + later, b2)
    decreases |first|
  {
    hide Reconcile.Sound, Reconcile.Apply;
    if first == [] {
      assert first + later == later;
    } else {
      assert (first + later)[1..] == first[1..] + later;
      ExplainsThen(Reconcile.Apply(b, first[0]), first[1..], b1, later, b2);
    }
  }

  lemma ExplainsNothing(b: Book)
    ensures Explains(b, [], b)
  {
  }

  lemma ExplainsOne(b: Book, e: Reconcile.Event)
    requires Reconcile.Sound(b, e)
    ensures Explains(b, [e], Reconcile.Apply(b, e))
  {
    hide Reconcile.Sound, Reconcile.Apply;
    assert [e][1..] == [];
    ExplainsNothing(Reconcile.Apply(b, e));
  }

  // ------------------------------------------------------------------ fills explain what trading does

  function FillEvents(fills: seq<FillRec>): Events {
    seq(|fills|, k requires 0 <= k < |fills| =>
      Reconcile.Fill(fills[k].symbol, fills[k].side, fills[k].qty, fills[k].price, fills[k].fee))
  }

  lemma FillEventsAppend(a: seq<FillRec>, b: seq<FillRec>)
    ensures FillEvents(a + b) == FillEvents(a) + FillEvents(b)
  {
  }

  /** The fills booked between `t` and `t'`, which has those of `t` and more. */
  function NewFills(t: TeamRec, t': TeamRec): seq<FillRec> {
    if |t.fills| <= |t'.fills| then t'.fills[|t.fills|..] else []
  }

  /** Fills were only appended, and they are all that happened to the books. */
  ghost predicate FillsExplain(t: TeamRec, t': TeamRec) {
    t'.fills == t.fills + NewFills(t, t') && Explains(t.book, FillEvents(NewFills(t, t')), t'.book)
  }

  lemma NothingBooked(t: TeamRec, t': TeamRec)
    requires t'.fills == t.fills && t'.book == t.book
    ensures FillsExplain(t, t')
  {
    assert NewFills(t, t') == [];
    ExplainsNothing(t.book);
  }

  lemma FillsExplainTrans(t: TeamRec, u: TeamRec, v: TeamRec)
    requires FillsExplain(t, u) && FillsExplain(u, v)
    ensures FillsExplain(t, v)
  {
    hide Explains;
    assert NewFills(t, v) == NewFills(t, u) + NewFills(u, v);
    FillEventsAppend(NewFills(t, u), NewFills(u, v));
    ExplainsThen(t.book, FillEvents(NewFills(t, u)), u.book, FillEvents(NewFills(u, v)), v.book);
  }

  /** An attempt to execute is explained by the one fill it books. */
  lemma AttemptExplained(t: TeamRec, i: nat, ins: Instr, env: Env, ticks: Ticks, slip: bool, funds: bool)
    requires i < |t.orders| && Uses(env, ticks) && ins.symbol in env.instruments && ins == env.instruments[ins.symbol]
    requires t.orders[i].symbol == ins.symbol && t.orders[i].status.IsOpen() && TeamOk(t, ticks)
    requires TryExecute(t, i, ins, env, slip, funds).Executed?
    ensures FillsExplain(t, TryExecute(t, i, ins, env, slip, funds).team)
  {
    hide TryExecute, TeamOk, Equity, AvailableFunds, Booked;
    var t' := TryExecute(t, i, ins, env, slip, funds).team;
    ExecutedMoney(t, i, ins, env, ticks, slip, funds);
    var f := t'.fills[|t.fills|];
    var e := Reconcile.Fill(ins.symbol, f.side, f.qty, f.price, f.fee);
    assert NewFills(t, t') == [f];
    assert FillEvents([f]) == [e];
    ExplainsOne(t.book, e);
  }

  lemma DeskTradeExplained(t: TeamRec, o: OrderRec, env: Env, ticks: Ticks)
    requires TeamOk(t, ticks) && Uses(env, ticks) && o == DeskOrder(o.side, o.symbol, o.qty, o.tag)
    ensures FillsExplain(t, DeskTrade(t, o, env))
  {
    hide TryExecute, TeamOk, Continues, FillsExplain;
    NothingBooked(t, t);
    if o.symbol in env.instruments && env.instruments[o.symbol].status.Tradable() {
      var t1, ins := Appended(t, o), env.instruments[o.symbol];
      AppendKeeps(t, o, ticks);
      NothingBooked(t, t1);
      if TryExecute(t1, |t.orders|, ins, env, false, false).Executed? {
        AttemptExplained(t1, |t.orders|, ins, env, ticks, false, false);
        FillsExplainTrans(t, t1, DeskTrade(t, o, env));
      }
    }
  }

  lemma {:induction false} CoverLegsExplained(t: TeamRec, legs: seq<Leg>, env: Env, ticks: Ticks)
    requires TeamOk(t, ticks) && Uses(env, ticks)
    ensures FillsExplain(t, CoverLegs(t, legs, env))
    decreases |legs|
  {
    hide TeamOk, Continues, DeskTrade, FillsExplain, Equity;
    NothingBooked(t, t);
    if legs != [] {
      var o := DeskOrder(Buy, legs[0].symbol, legs[0].qty, Margin);
      var t1 := DeskTrade(t, o, env);
      DeskTradeExplained(t, o, env, ticks);
      DeskTradeKeeps(t, o, env, ticks);
      CoverLegsExplained(t1, legs[1..], env, ticks);
      FillsExplainTrans(t, t1, CoverLegs(t, legs, env));
    }
  }

  lemma {:induction false} CloseFromExplained(t: TeamRec, k: nat, rows: nat, env: Env, ticks: Ticks)
    requires TeamOk(t, ticks) && Uses(env, ticks) && k <= rows
    ensures FillsExplain(t, CloseFrom(t, k, rows, env))
    decreases rows - k
  {
    hide TeamOk, Continues, DeskTrade, FillsExplain, Equity;
    NothingBooked(t, t);
    if k < rows && k < |t.book.positions| {
      var p := t.book.positions[k];
      var o := DeskOrder(ClosingSide(p), p.symbol, Abs(p.qty), SquareOff);
      DeskTradeExplained(t, o, env, ticks);
      DeskTradeKeeps(t, o, env, ticks);
      var t1 := CloseRow(t, k, env);
      CloseFromExplained(t1, k + 1, rows, env, ticks);
      FillsExplainTrans(t, t1, CloseFrom(t, k, rows, env));
    }
  }

  lemma LiquidateExplained(t: TeamRec, env: Env, ticks: Ticks)
    requires TeamOk(t, ticks) && Uses(env, ticks) && env.rules.margin.liquidateTo > 0
    ensures FillsExplain(t, Liquidate(t, env))
  {
    hide TeamOk, Continues, CoverLegs, CloseFrom, DeskPlan, FillsExplain, Equity, StateOf;
    NothingBooked(t, t);
    if Acts(t, env) {
      var t1 := CoverLegs(t, DeskPlan(t, env), env);
      CoverLegsExplained(t, DeskPlan(t, env), env, ticks);
      if Equity(t1, env) <= 0 {
        var t2 := CloseFrom(t1, 0, |t1.book.positions|, env);
        CoverLegsKeeps(t, DeskPlan(t, env), env, ticks);
        CloseFromExplained(t1, 0, |t1.book.positions|, env, ticks);
        NothingBooked(t2, BustTeam(t1, env));
        FillsExplainTrans(t1, t2, BustTeam(t1, env));
        FillsExplainTrans(t, t1, BustTeam(t1, env));
      }
    }
  }

  lemma SubmitExplained(t: TeamRec, r: Request, env: Env, ticks: Ticks)
    requires TeamOk(t, ticks) && Uses(env, ticks)
    ensures FillsExplain(t, Submit(t, r, env))
  {
    hide TryExecute, TeamOk, Continues, FillsExplain, RoundToTick, CanTrade;
    NothingBooked(t, t);
    if !Seen(t, r.clientId) && r.symbol in env.instruments {
      var ins, i, o := env.instruments[r.symbol], |t.orders|, NewOrder(r, Normal, Pending);
      if Accepts(t, r, ins, env) {
        AcceptedWellPriced(r, ins, env, ticks);
        AppendKeeps(t, o, ticks);
        var t1 := Appended(t, o);
        MarkKeeps(t1, i, Triggered, ticks);
        var t2 := if r.kind.IsStop() then Marked(t1, i, Triggered) else t1;
        NothingBooked(t, t1);
        NothingBooked(t, t2);
        NothingBooked(t, Marked(t2, i, Rejected));
        if TryExecute(t2, i, ins, env, true, true).Executed? {
          AttemptExplained(t2, i, ins, env, ticks, true, true);
          FillsExplainTrans(t, t2, TryExecute(t2, i, ins, env, true, true).team);
        }
      } else {
        NothingBooked(t, Appended(t, NewOrder(r, Normal, Rejected)));
      }
    }
  }

  lemma SweepExplained(t: TeamRec, i: nat, env: Env, ticks: Ticks)
    requires TeamOk(t, ticks) && Uses(env, ticks)
    ensures FillsExplain(t, SweepOne(t, i, env))
  {
    hide TryExecute, TeamOk, Continues, FillsExplain;
    NothingBooked(t, t);
    if i < |t.orders| && t.orders[i].status.IsOpen() && t.orders[i].symbol in env.instruments {
      var o := t.orders[i];
      var ins := env.instruments[o.symbol];
      var t1 := if o.kind.IsStop() && o.status.Pending? then Marked(t, i, Triggered) else t;
      MarkKeeps(t, i, Triggered, ticks);
      NothingBooked(t, t1);
      NothingBooked(t, Marked(t1, i, Cancelled));
      if TryExecute(t1, i, ins, env, false, true).Executed? {
        AttemptExplained(t1, i, ins, env, ticks, false, true);
        FillsExplainTrans(t, t1, TryExecute(t1, i, ins, env, false, true).team);
      }
    }
  }

  // ------------------------------------------------------------------ steps and runs

  /** A split that leaves this team no fraction of a share. */
  ghost predicate WholeSplit(t: TeamRec, a: Action) {
    a.SplitStock? ==> a.den > 0 && OnGrid(QtyOf(t.book.positions, a.stock) * a.num, a.den)
  }

  /** The ledger events of one step: what an operator posts or splits, and otherwise the fills it books. */
  ghost function StepEvents(t: TeamRec, s: Step, ticks: Ticks): Events
    requires SoundStep(s, ticks)
  {
    match s.action
    case Post(kind, amount) => [Reconcile.Cash(kind, amount)]
    case BuyResearch(cost) => if t.book.cash < cost then [] else [Reconcile.Cash(Research, -cost)]
    case SplitStock(symbol, num, den) => [Reconcile.Split(symbol, num, den)]
    case ChargeBorrow =>
      var due := BorrowDue(t.book.positions, s.env.Marks(), s.env.rules.margin.borrowFee);
      if !t.status.TeamActive? || due <= 0 then [] else [Reconcile.Cash(BorrowFee, -due)]
    case _ => FillEvents(NewFills(t, Next(t, s)))
  }

  ghost function History(t: TeamRec, steps: seq<Step>, ticks: Ticks): Events
    requires SoundTrace(steps, ticks)
  {
    if steps == [] then []
    else
      var n := |steps| - 1;
      History(t, steps[..n], ticks) + StepEvents(After(t, steps[..n], ticks), steps[n], ticks)
  }

  predicate Clerical(a: Action) { a.Post? || a.BuyResearch? || a.SplitStock? || a.ChargeBorrow? }

  /** Orders, sweeps, cancels and risk checks are explained by their fills. */
  lemma TradeExplained(t: TeamRec, s: Step, ticks: Ticks)
    requires TeamOk(t, ticks) && SoundStep(s, ticks) && !Clerical(s.action)
    ensures FillsExplain(t, Next(t, s))
  {
    hide TeamOk, Continues, Submit, SweepOne, Liquidate, CancelWorking, FillsExplain;
    NothingBooked(t, t);
    match s.action
    case Place(r) => SubmitExplained(t, r, s.env, ticks);
    case SweepOrder(i) => SweepExplained(t, i, s.env, ticks);
    case Withdraw(i) => NothingBooked(t, Cancel(t, i));
    case CancelAll(symbol) =>
      SameBookCancelled(t, symbol);
      NothingBooked(t, CancelWorking(t, symbol));
    case RiskCheck => LiquidateExplained(t, s.env, ticks);
    case Override(status) => NothingBooked(t, t.(status := status));
  }

  /** The fills among ledger events, in order. */
  function FillsIn(events: Events): Events {
    if events == [] then [] else (if events[0].Fill? then [events[0]] else []) + FillsIn(events[1..])
  }

  lemma {:induction false} FillsInAppend(a: Events, b: Events)
    ensures FillsIn(a + b) == FillsIn(a) + FillsIn(b)
  {
    if a == [] {
      assert a + b == b;
    } else {
      assert (a + b)[1..] == a[1..] + b;
      FillsInAppend(a[1..], b);
    }
  }

  lemma {:induction false} OnlyFills(fills: seq<FillRec>)
    ensures FillsIn(FillEvents(fills)) == FillEvents(fills)
  {
    if fills != [] {
      assert FillEvents(fills)[1..] == FillEvents(fills[1..]);
      OnlyFills(fills[1..]);
    }
  }

  lemma StepExplained(t: TeamRec, s: Step, ticks: Ticks)
    requires TeamOk(t, ticks) && SoundStep(s, ticks) && WholeSplit(t, s.action)
    ensures Explains(t.book, StepEvents(t, s, ticks), Next(t, s).book)
  {
    hide TeamOk, Continues, Submit, SweepOne, Liquidate, CancelWorking, Explains, Posted, SplitRow, BorrowDue;
    ExplainsNothing(t.book);
    if Clerical(s.action) {
      var events := StepEvents(t, s, ticks);
      if events != [] { ExplainsOne(t.book, events[0]); }
    } else {
      TradeExplained(t, s, ticks);
    }
  }

  /** The fills among a step's ledger events are the ones it adds to the fill table. */
  lemma StepFills(t: TeamRec, s: Step, ticks: Ticks)
    requires TeamOk(t, ticks) && SoundStep(s, ticks)
    ensures Next(t, s).fills == t.fills + NewFills(t, Next(t, s))
    ensures FillsIn(StepEvents(t, s, ticks)) == FillEvents(NewFills(t, Next(t, s)))
  {
    hide TeamOk, Continues, Submit, SweepOne, Liquidate, CancelWorking, Explains, Posted, SplitRow, BorrowDue;
    if Clerical(s.action) {
      if s.action.SplitStock? { SameBookCancelled(t, Some(s.action.stock)); }
      assert Next(t, s).fills == t.fills && NewFills(t, Next(t, s)) == [];
    } else {
      TradeExplained(t, s, ticks);
      OnlyFills(NewFills(t, Next(t, s)));
    }
  }

  /** The history of a run explains its books. */
  lemma {:induction false} RunExplained(t: TeamRec, steps: seq<Step>, ticks: Ticks)
    requires TeamOk(t, ticks) && SoundTrace(steps, ticks)
    requires forall k | 0 <= k < |steps| :: WholeSplit(After(t, steps[..k], ticks), steps[k].action)
    ensures Explains(t.book, History(t, steps, ticks), After(t, steps, ticks).book)
  {
    hide TeamOk, Continues, Next, SoundStep, Explains, WholeSplit, StepEvents, NewFills, FillEvents, FillsIn;
    ExplainsNothing(t.book);
    if steps != [] {
      var n := |steps| - 1;
      var t1 := After(t, steps[..n], ticks);
      assert forall k | 0 <= k < n :: steps[..n][..k] == steps[..k];
      RunExplained(t, steps[..n], ticks);
      Traces.RunKeeps(t, steps[..n], ticks);
      StepExplained(t1, steps[n], ticks);
      ExplainsThen(
        t.book, History(t, steps[..n], ticks), t1.book, StepEvents(t1, steps[n], ticks), After(t, steps, ticks).book);
    }
  }

  /** Fills are only appended, and those of the history are the ones appended, in order. */
  lemma {:induction false} HistoryIsTheFillTable(t: TeamRec, steps: seq<Step>, ticks: Ticks)
    requires TeamOk(t, ticks) && SoundTrace(steps, ticks)
    ensures After(t, steps, ticks).fills == t.fills + NewFills(t, After(t, steps, ticks))
    ensures FillsIn(History(t, steps, ticks)) == FillEvents(NewFills(t, After(t, steps, ticks)))
  {
    hide TeamOk, Continues, Next, SoundStep, StepEvents, FillsIn;
    if steps == [] {
      assert NewFills(t, t) == [];
      OnlyFills([]);
    } else {
      var n := |steps| - 1;
      var t1, t2 := After(t, steps[..n], ticks), After(t, steps, ticks);
      HistoryIsTheFillTable(t, steps[..n], ticks);
      Traces.RunKeeps(t, steps[..n], ticks);
      StepFills(t1, steps[n], ticks);
      FillsInAppend(History(t, steps[..n], ticks), StepEvents(t1, steps[n], ticks));
      assert NewFills(t, t2) == NewFills(t, t1) + NewFills(t1, t2);
      FillEventsAppend(NewFills(t, t1), NewFills(t1, t2));
    }
  }

  /** Main result. After any run of a new team in which no split leaves it a fraction of a share, its books are
      what its history makes of the opening balance, and the fills of that history are its fill table. So cash
      is the ledger, every balance is a prefix sum, every position is the history's net fills, and at any marks
      equity is what was paid in plus realised plus unrealised P&L, to within half a micro-rupee for each share
      the history re-averages. */
  lemma TeamReconciles(capital: int, steps: seq<Step>, ticks: Ticks, marks: Marks, rules: MarginRules)
    requires SoundTrace(steps, ticks)
    requires forall k | 0 <= k < |steps| :: WholeSplit(After(NewTeam(capital), steps[..k], ticks), steps[k].action)
    ensures var t, history := After(NewTeam(capital), steps, ticks), History(NewTeam(capital), steps, ticks);
      var b, v := t.book, Valued(t.book, marks, rules);
      && Explains(OpeningBook(capital), history, b) && FillsIn(history) == FillEvents(t.fills)
      && b.cash == RowTotal(b.rows)
      && (forall i | 0 <= i < |b.rows| :: b.rows[i].balance == RowTotal(b.rows[..i + 1]))
      && (forall s :: QtyOf(b.positions, s) == Reconcile.NetShares(0, history, s))
      && 2 * Abs(v.equity - (NonTradeTotal(b.rows) + v.realised + v.unrealised))
         <= Reconcile.Drift(OpeningBook(capital), history)
  {
    hide TeamOk, SoundStep, Valued, After, WholeSplit, QtyOf, RowTotal, Reconcile.Drift, RoundDiv, History;
    NewTeamOk(capital, ticks);
    RunExplained(NewTeam(capital), steps, ticks);
    HistoryIsTheFillTable(NewTeam(capital), steps, ticks);
    var t, history := After(NewTeam(capital), steps, ticks), History(NewTeam(capital), steps, ticks);
    assert NewFills(NewTeam(capital), t) == t.fills;
    Reconcile.Reconciles(capital, history, marks, rules);
    forall s
      ensures QtyOf(t.book.positions, s) == Reconcile.NetShares(0, history, s)
    {
      Reconcile.PositionsAreTheirFills(OpeningBook(capital), history, s);
      NoneHeld(capital, s);
    }
  }

  // ------------------------------------------------------------------ positions and drift from the fill table

  /** Ledger events one after another: net shares carry on from where the first part left them. */
  lemma {:induction false} NetSharesThen(qty: int, a: Events, b: Events, s: Symbol)
    ensures Reconcile.NetShares(qty, a + b, s) == Reconcile.NetShares(Reconcile.NetShares(qty, a, s), b, s)
    decreases |a|
  {
    if a == [] {
      assert a + b == b;
    } else {
      assert (a + b)[1..] == a[1..] + b;
      NetSharesThen(Reconcile.NextShares(qty, a[0], s), a[1..], b, s);
    }
  }

  /** A step that does not split the stock moves a position by the fills it books, and by nothing else. */
  lemma StepShares(t: TeamRec, step: Step, ticks: Ticks, s: Symbol)
    requires TeamOk(t, ticks) && SoundStep(step, ticks) && !(step.action.SplitStock? && step.action.stock == s)
    ensures var t' := Next(t, step);
      && t'.fills == t.fills + NewFills(t, t')
      && QtyOf(t'.book.positions, s) == Reconcile.NetShares(QtyOf(t.book.positions, s), FillEvents(NewFills(t, t')), s)
  {
    hide TeamOk, Continues, Submit, SweepOne, Liquidate, CancelWorking, Posted, SplitRow, BorrowDue, QtyOf;
    var a := step.action;
    StepFills(t, step, ticks);
    if Clerical(a) {
      if a.Post? { Reconcile.PostedKeepsPositions(t.book, a.kind, a.amount); }
      if a.BuyResearch? { Reconcile.PostedKeepsPositions(t.book, Research, -a.cost); }
      if a.ChargeBorrow? {
        var due := BorrowDue(t.book.positions, step.env.Marks(), step.env.rules.margin.borrowFee);
        Reconcile.PostedKeepsPositions(t.book, BorrowFee, -due);
      }
      if a.SplitStock? {
        SameBookCancelled(t, Some(a.stock));
        Reconcile.OtherAfterSplit(t.book.positions, a.stock, a.num, a.den, s);
      }
      assert NewFills(t, Next(t, step)) == [];
    } else {
      TradeExplained(t, step, ticks);
      Reconcile.PositionsAreTheirFills(t.book, FillEvents(NewFills(t, Next(t, step))), s);
    }
  }

  /** Main result: the third book-keeping invariant. After any run of a new team, whatever else was split on
      the way, a position in a stock that was not is the signed sum of the team's recorded fills in it. */
  lemma {:induction false} PositionsAreTheFillTable(capital: int, steps: seq<Step>, ticks: Ticks, s: Symbol)
    requires SoundTrace(steps, ticks)
    requires forall k | 0 <= k < |steps| :: !(steps[k].action.SplitStock? && steps[k].action.stock == s)
    ensures var t := After(NewTeam(capital), steps, ticks);
      QtyOf(t.book.positions, s) == Reconcile.NetShares(0, FillEvents(t.fills), s)
  {
    hide TeamOk, Continues, Next, SoundStep, QtyOf;
    if steps == [] {
      NoneHeld(capital, s);
    } else {
      var n := |steps| - 1;
      var t1, t := After(NewTeam(capital), steps[..n], ticks), After(NewTeam(capital), steps, ticks);
      PositionsAreTheFillTable(capital, steps[..n], ticks, s);
      NewTeamOk(capital, ticks);
      Traces.RunKeeps(NewTeam(capital), steps[..n], ticks);
      StepShares(t1, steps[n], ticks, s);
      FillEventsAppend(t1.fills, NewFills(t1, t));
      NetSharesThen(0, FillEvents(t1.fills), FillEvents(NewFills(t1, t)), s);
    }
  }

  ghost predicate NoSplits(events: Events) { forall k | 0 <= k < |events| :: !events[k].Split? }

  lemma {:induction false} UnsplitHistory(t: TeamRec, steps: seq<Step>, ticks: Ticks)
    requires SoundTrace(steps, ticks) && forall k | 0 <= k < |steps| :: !steps[k].action.SplitStock?
    ensures NoSplits(History(t, steps, ticks))
  {
    hide Next, SoundStep, StepEvents;
    if steps != [] {
      var n := |steps| - 1;
      UnsplitHistory(t, steps[..n], ticks);
      UnsplitStep(After(t, steps[..n], ticks), steps[n], ticks);
    }
  }

  lemma UnsplitStep(t: TeamRec, s: Step, ticks: Ticks)
    requires SoundStep(s, ticks) && !s.action.SplitStock?
    ensures NoSplits(StepEvents(t, s, ticks))
  {
    hide Next, BorrowDue, NewFills;
  }

  /** Without splits only fills re-average: the drift of a history is that of its fills alone, replayed on any
      book with the same positions. */
  lemma {:induction false} DriftIsFromFills(b: Book, events: Events, b': Book)
    requires Reconcile.SoundRun(b, events) && NoSplits(events) && b'.positions == b.positions
    ensures Reconcile.SoundRun(b', FillsIn(events))
    ensures Reconcile.Drift(b', FillsIn(events)) == Reconcile.Drift(b, events)
    decreases |events|
  {
    hide Booked, Posted, QtyOf, OnGrid;
    if events != [] {
      var e := events[0];
      match e {
        case Fill(s, side, qty, price, fee) =>
          BookedPositions(b, s, side, qty, price, fee);
          BookedPositions(b', s, side, qty, price, fee);
          DriftIsFromFills(Reconcile.Apply(b, e), events[1..], Reconcile.Apply(b', e));
          assert FillsIn(events)[1..] == FillsIn(events[1..]);
        case Cash(kind, amount) =>
          Reconcile.PostedKeepsPositions(b, kind, amount);
          DriftIsFromFills(Reconcile.Apply(b, e), events[1..], b');
          assert FillsIn(events) == FillsIn(events[1..]);
      }
    }
  }

  /** Main result. After any run of a new team without splits, equity is what was paid in plus realised plus
      unrealised P&L to within half a micro-rupee for each share that replaying its recorded fills re-averages. */
  lemma FillTableReconciles(capital: int, steps: seq<Step>, ticks: Ticks, marks: Marks, rules: MarginRules)
    requires SoundTrace(steps, ticks) && forall k | 0 <= k < |steps| :: !steps[k].action.SplitStock?
    ensures var t := After(NewTeam(capital), steps, ticks);
      var v, fills := Valued(t.book, marks, rules), FillEvents(t.fills);
      && Reconcile.SoundRun(OpeningBook(capital), fills)
      && 2 * Abs(v.equity - (NonTradeTotal(t.book.rows) + v.realised + v.unrealised))
         <= Reconcile.Drift(OpeningBook(capital), fills)
  {
    hide SoundStep, Valued, After, Reconcile.Drift, RoundDiv, History, Reconcile.SoundRun;
    TeamReconciles(capital, steps, ticks, marks, rules);
    UnsplitHistory(NewTeam(capital), steps, ticks);
    DriftIsFromFills(OpeningBook(capital), History(NewTeam(capital), steps, ticks), OpeningBook(capital));
  }

  lemma NoneHeld(capital: int, s: Symbol)
    ensures QtyOf(OpeningBook(capital).positions, s) == 0
  {
  }
}
