/** The objects the exchange updates in place, proved to do what the functions of `Orders` and `RiskDesk` say.

    A `Team` owns its account and its orders. `Value()` is the team's state as a `TeamRec`; every method's
    postcondition equates the new value with a specification function of the old one.
 */
module Exchange {
  import opened Money
  import opened Fees
  import opened Books
  import opened Risk
  import opened Pricing
  import opened Limits
  import opened Liquidation
  import opened Orders
  import opened OrderLaws
  import opened RiskDesk
  import opened Traces

  class Order {
    const side: Side
    const kind: OrderType
    const symbol: Symbol
    const qty: int
    const limit: Option<int>
    const trigger: Option<int>
    const tolerance: Option<int>
    const clientId: string
    const tag: Tag
    var status: OrderStatus
    var filledQty: nat
    var avgPrice: int
    var feesTotal: int

    constructor (o: OrderRec)
      ensures Rec() == o
    {
      side, kind, symbol, qty := o.side, o.kind, o.symbol, o.qty;
      limit, trigger, tolerance, clientId, tag := o.limit, o.trigger, o.tolerance, o.clientId, o.tag;
      status, filledQty, avgPrice, feesTotal := o.status, o.filled, o.avg, o.fees;
    }

    function Rec(): OrderRec
      reads this
    {
      OrderRec(
        side, kind, symbol, qty, limit, trigger, tolerance, clientId, tag, status, filledQty, avgPrice, feesTotal)
    }

    /** One more fill of the order: its average is over all of them, and the last one completes it. */
    method BookFill(n: nat, price: int, fee: int)
      requires n > 0
      modifies this
      ensures Rec() == FilledOrder(old(Rec()), n, price, fee)
    {
      var previousValue := avgPrice * filledQty;
      filledQty := filledQty + n;
      avgPrice := RoundDiv(previousValue + price * n, filledQty);
      feesTotal := Paise(feesTotal + fee, 1);
      if filledQty >= qty {
        status := Filled;
      }
    }
  }

  class Team {
    const account: Account
    var status: TeamStatus
    var orders: seq<Order>
    var fills: seq<FillRec>

    constructor (capital: int)
      ensures Valid() && Value() == TeamRec(TeamActive, OpeningBook(capital), [], [])
    {
      account := new Account(capital);
      status, orders, fills := TeamActive, [], [];
    }

    ghost predicate Valid()
      reads this, account, account.positions
    {
      account.Valid() && forall i, j | 0 <= i < j < |orders| :: orders[i] != orders[j]
    }

    ghost function Recs(): seq<OrderRec>
      reads this, orders
    {
      seq(|orders|, i requires 0 <= i < |orders| reads this, orders => orders[i].Rec())
    }

    ghost function Value(): TeamRec
      reads this, orders, account, account.positions
    {
      TeamRec(status, account.Value(), Recs(), fills)
    }

    /** Nothing but this team's own objects, and ones created since, belongs to it. */
    twostate predicate Owns()
      reads this, account
    {
      && (forall k | 0 <= k < |orders| :: orders[k] in old(orders) || fresh(orders[k]))
      && (forall k | 0 <= k < |account.positions| ::
            account.positions[k] in old(account.positions) || fresh(account.positions[k]))
    }

    /** Carry out a fill that has been decided on, in the account, the order and the fill table. */
    method ExecuteFill(i: nat, ins: Instr, qty: nat, price: int, rules: Rules)
      requires Valid() && i < |orders| && qty > 0 && ins.tick > 0
      modifies this`fills, account, account.positions, orders
      ensures Valid() && Owns() && orders == old(orders)
      ensures Value() == Orders.ExecuteFill(old(Value()), i, ins, qty, price, rules)
    {
      hide RoundDiv, ComputeFees, Booked, RealisedBy, RoundToTick;
      var order := orders[i];
      var snapped := RoundToTick(price, 1, ins.tick);
      var fees := ComputeFees(rules.fees, Gross(qty, snapped), order.side);
      var realised := account.BookFill(ins.symbol, order.side, qty, snapped, fees);
      fills := fills + [FillRec(i, ins.symbol, order.side, qty, snapped, fees, realised)];
      ghost var recs := Recs();
      order.BookFill(qty, snapped, fees);
      assert Recs() == recs[i := order.Rec()];
    }

    /** The position rows as they are now. */
    method LoadPositions() returns (ps: seq<Pos>)
      requires Valid()
      ensures ps == account.Recs()
    {
      ps := [];
      for k := 0 to |account.positions|
        invariant ps == account.Recs()[..k]
      {
        ps := ps + [account.positions[k].Rec()];
      }
    }

    /** Would the fill leave available funds below zero? */
    method CheckFunds(order: Order, ins: Instr, qty: nat, price: int, env: Env) returns (refused: bool)
      requires Valid()
      ensures refused == Unaffordable(Value(), order.Rec(), ins, qty, price, env)
    {
      hide RoundDiv, ComputeFees, ProjectAvailable, Valued;
      var positions, valuation := Assess(env);
      var current := QtyOf(positions, ins.symbol);
      var fees := ComputeFees(env.rules.fees, Gross(qty, price), order.side);
      refused := ProjectAvailable(valuation, current, order.side, qty, price, ins.last, fees, env.rules.margin) < 0;
    }

    /** How much of an order could fill now, and at what price. */
    method PriceOrder(order: Order, ins: Instr, slippage: bool) returns (fillable: int, price: int)
      requires ins.tick > 0
      ensures fillable == Fillable(order.Rec(), ins, slippage)
      ensures fillable > 0 ==> price == DealPrice(order.Rec(), ins, fillable, slippage)
    {
      hide RoundDiv, RoundToTick, FillPrice, MaxQtyWithinLimit, QuoteFor;
      var quote := QuoteFor(ins);
      fillable, price := order.qty - order.filledQty, 0;
      if !order.kind.WorksAsMarket() {
        if order.limit.None? {
          return 0, 0;
        }
        var within := MaxQtyWithinLimit(ins, order.side, order.limit.value, quote.Touch(order.side), slippage);
        fillable := Min(fillable, within);
      }
      if fillable > 0 {
        var slices;
        price, slices := FillQuote(ins, order.side, fillable, quote, slippage);
        if !order.kind.WorksAsMarket() {
          price := Clamp(order.side, price, order.limit.value);
        }
      }
    }

    /** Fill what can be filled now; says whether the order was refused and whether it filled. */
    method TryExecute(i: nat, ins: Instr, env: Env, enforceSlippage: bool, enforceFunds: bool)
      returns (refused: bool, filled: bool)
      requires Valid() && i < |orders| && ins.tick > 0
      modifies this`fills, account, account.positions, orders
      ensures Valid() && Owns() && orders == old(orders)
      ensures match Orders.TryExecute(old(Value()), i, ins, env, enforceSlippage, enforceFunds)
        case Nothing => !refused && !filled && Value() == old(Value())
        case Refused => refused && !filled && Value() == old(Value())
        case Executed(t) => !refused && filled && Value() == t
    {
      hide RoundDiv, Fillable, DealPrice, Orders.ExecuteFill, Unaffordable, Slipped;
      refused, filled := false, false;
      var order := orders[i];
      if order.qty - order.filledQty <= 0 || !env.market.Open? || !SideAllowed(ins.status, order.side) {
        return;
      }
      var fillable, price := PriceOrder(order, ins, env.rules.slippage);
      if fillable <= 0 {
        return;
      }
      if enforceSlippage && Slipped(order.Rec(), ins, price) {
        return true, false;
      }
      if enforceFunds {
        refused := CheckFunds(order, ins, fillable, price, env);
        if refused {
          return;
        }
      }
      ExecuteFill(i, ins, fillable, price, env.rules);
      filled := true;
    }

    method Record(o: OrderRec) returns (order: Order)
      requires Valid()
      modifies this`orders
      ensures Valid() && Owns() && fresh(order) && orders == old(orders) + [order] && order.Rec() == o
      ensures Value() == Appended(old(Value()), o)
    {
      order := new Order(o);
      orders := orders + [order];
      assert Recs() == old(Recs()) + [o];
    }

    method Mark(i: nat, to: OrderStatus)
      requires Valid() && i < |orders|
      modifies orders
      ensures Valid() && Value() == Marked(old(Value()), i, to)
    {
      orders[i].status := to;
      assert Recs() == old(Recs())[i := orders[i].Rec()];
    }

    /** Has an order with this client id been recorded before? */
    method Replayed(clientId: string) returns (seen: bool)
      requires Valid()
      ensures seen == Seen(Value(), clientId)
    {
      seen := false;
      if clientId != "" {
        for k := 0 to |orders|
          invariant forall j | 0 <= j < k :: orders[j].clientId != clientId
        {
          if orders[k].clientId == clientId {
            assert Recs()[k] in Recs();
            return true;
          }
        }
      }
    }

    method EnterOrder(r: Request, ins: Instr, env: Env)
      requires Valid() && ins.tick > 0
      modifies this, account, account.positions, orders
      ensures Valid() && Owns() && Value() == Enter(old(Value()), r, ins, env)
    {
      hide Worked, NewOrder, StopTriggered;
      var i := |orders|;
      var order := Record(NewOrder(r, Normal, Pending));
      if r.kind.IsStop() {
        if !StopTriggered(order.Rec(), ins.last) {
          return;
        }
        Mark(i, Triggered);
      }
      WorkOrder(i, ins, r.kind.Market?, env);
    }

    /** Try to fill an order just accepted. */
    method WorkOrder(i: nat, ins: Instr, market: bool, env: Env)
      requires Valid() && i < |orders| && ins.tick > 0
      modifies this`fills, account, account.positions, orders
      ensures Valid() && Owns() && orders == old(orders)
      ensures Value() == Worked(old(Value()), i, ins, market, env)
    {
      hide Orders.TryExecute;
      var refused, filled := TryExecute(i, ins, env, true, true);
      if refused || (!filled && market) {
        Mark(i, Rejected);
      }
    }

    method SubmitOrder(r: Request, env: Env)
      requires Valid() && env.Sound()
      modifies this, account, account.positions, orders
      ensures Valid() && Owns() && Value() == Submit(old(Value()), r, env)
    {
      hide Enter, Accepts, Seen, NewOrder;
      var seen := Replayed(r.clientId);
      if seen || r.symbol !in env.instruments {
        return;
      }
      var ins := env.instruments[r.symbol];
      var accepted := MayEnter(r, ins, env);
      if accepted {
        EnterOrder(r, ins, env);
      } else {
        var _ := Record(NewOrder(r, Normal, Rejected));
      }
    }

    method MayEnter(r: Request, ins: Instr, env: Env) returns (ok: bool)
      requires ins.tick > 0
      ensures ok == Accepts(Value(), r, ins, env)
    {
      ok := ins.listed && status.TeamActive? && (env.market.Open? || env.market.PreOpen?)
        && !(env.market.PreOpen? && r.kind.Market?)
        && ValidRequest(r, ins, env.rules) && CanTrade(ins, r.side, env.market);
    }

    /** The engine's look at one working order after a price change. */
    method SweepOrder(i: nat, env: Env)
      requires Valid() && env.Sound()
      modifies this, account, account.positions, orders
      ensures Valid() && Owns() && Value() == SweepOne(old(Value()), i, env)
    {
      hide Retried, StopTriggered;
      if i >= |orders| || !orders[i].status.IsOpen() || orders[i].symbol !in env.instruments {
        return;
      }
      var order := orders[i];
      var ins := env.instruments[order.symbol];
      if !ins.status.Tradable() {
        return;
      }
      if order.kind.IsStop() && order.status.Pending? {
        if !StopTriggered(order.Rec(), ins.last) {
          return;
        }
        Mark(i, Triggered);
      }
      RetryOrder(i, ins, env);
    }

    /** Try to fill a resting order. */
    method RetryOrder(i: nat, ins: Instr, env: Env)
      requires Valid() && i < |orders| && ins.tick > 0
      modifies this`fills, account, account.positions, orders
      ensures Valid() && Owns() && orders == old(orders) && Value() == Retried(old(Value()), i, ins, env)
    {
      hide Orders.TryExecute;
      var refused, _ := TryExecute(i, ins, env, false, true);
      if refused {
        Mark(i, Cancelled);
      }
    }

    /** Evaluate each of the listed orders, in turn, against the new prices. */
    method SweepTeamOrders(ids: seq<nat>, env: Env)
      requires Valid() && env.Sound()
      modifies this, account, account.positions, orders
      ensures Valid() && Owns() && Value() == SweepAll(old(Value()), ids, env)
    {
      hide SweepOne;
      if !status.TeamActive? {
        return;
      }
      ghost var t := Value();
      for k := 0 to |ids|
        invariant Valid() && Owns()
        invariant Value() == SweepFrom(t, ids[..k], env)
      {
        SweepOrder(ids[k], env);
        assert ids[..k + 1][..k] == ids[..k];
      }
      assert ids[..|ids|] == ids;
    }

    method CancelOrder(i: nat) returns (ok: bool)
      requires Valid() && i < |orders|
      modifies orders
      ensures Valid() && ok == old(orders[i].status.IsOpen()) && Value() == Cancel(old(Value()), i)
    {
      ok := orders[i].status.IsOpen();
      if ok {
        Mark(i, Cancelled);
      }
    }

    // ---------------------------------------------------------------- the risk desk

    method DeskTrade(o: OrderRec, env: Env)
      requires Valid() && env.Sound()
      modifies this, account, account.positions, orders
      ensures Valid() && Owns() && Value() == RiskDesk.DeskTrade(old(Value()), o, env)
    {
      hide Orders.TryExecute;
      if o.symbol !in env.instruments || !env.instruments[o.symbol].status.Tradable() {
        return;
      }
      var i := |orders|;
      var _ := Record(o);
      var _, _ := TryExecute(i, env.instruments[o.symbol], env, false, false);
    }

    /** Cancel everything still working. */
    method CancelWorking()
      requires Valid()
      modifies orders
      ensures Valid() && Value() == Orders.CancelWorking(old(Value()), None)
    {
      ghost var recs := Recs();
      for k := 0 to |orders|
        invariant forall j | 0 <= j < k ::
          orders[j].Rec() == if recs[j].status.IsOpen() then recs[j].(status := Cancelled) else recs[j]
        invariant forall j | k <= j < |orders| :: orders[j].Rec() == recs[j]
      {
        assert orders[k].Rec() == recs[k];
        if orders[k].status.IsOpen() {
          orders[k].status := Cancelled;
        }
      }
      assert Recs() == Orders.CancelWorking(old(Value()), None).orders;
    }

    /** Close every position that can be traded. */
    method CloseOut(env: Env)
      requires Valid() && env.Sound()
      modifies this, account, account.positions, orders
      ensures Valid() && Owns() && Value() == CloseFrom(old(Value()), 0, |old(Value()).book.positions|, env)
    {
      hide RiskDesk.DeskTrade;
      ghost var t := Value();
      var rows := |account.positions|;
      var k := 0;
      while k < rows && k < |account.positions|
        invariant k <= rows && Valid() && Owns()
        invariant CloseFrom(Value(), k, rows, env) == CloseFrom(t, 0, rows, env)
        decreases rows - k
      {
        var p := account.positions[k];
        if p.qty != 0 {
          DeskTrade(DeskOrder(ClosingSide(p.Rec()), p.symbol, Abs(p.qty), SquareOff), env);
        }
        k := k + 1;
      }
    }

    method BustTeam(env: Env)
      requires Valid() && env.Sound()
      modifies this, account, account.positions, orders
      ensures Valid() && Owns() && Value() == RiskDesk.BustTeam(old(Value()), env)
    {
      hide CloseFrom, Orders.CancelWorking;
      CloseOut(env);
      CancelWorking();
      status := Busted;
    }

    /** Mark the team's book to the market. */
    method Assess(env: Env) returns (positions: seq<Pos>, v: Valuation)
      requires Valid()
      ensures positions == account.Recs() && v == Valued(account.Value(), env.Marks(), env.rules.margin)
    {
      hide RoundDiv, FromTotals;
      positions := LoadPositions();
      v := Valuate(account.cash, positions, env.Marks(), env.rules.margin);
      assert v == Valued(account.Value(), env.Marks(), env.rules.margin);
    }

    /** Buy back each leg of a plan. */
    method Cover(plan: seq<Leg>, env: Env)
      requires Valid() && env.Sound()
      modifies this, account, account.positions, orders
      ensures Valid() && Owns() && Value() == CoverLegs(old(Value()), plan, env)
    {
      hide RiskDesk.DeskTrade;
      ghost var t := Value();
      for k := 0 to |plan|
        invariant Valid() && Owns()
        invariant CoverLegs(Value(), plan[k..], env) == CoverLegs(t, plan, env)
      {
        assert plan[k..][1..] == plan[k + 1..];
        DeskTrade(DeskOrder(Buy, plan[k].symbol, plan[k].qty, Margin), env);
      }
    }

    /** Cover shorts until the plan is done; if that leaves no equity, the team is out. */
    method LiquidateTeam(env: Env)
      requires Valid() && env.Sound() && env.rules.margin.liquidateTo > 0
      modifies this, account, account.positions, orders
      ensures Valid() && Owns() && Value() == Liquidate(old(Value()), env)
    {
      hide CoverLegs, RiskDesk.BustTeam, Valued, Plan;
      var positions, valuation := Assess(env);
      if !status.TeamActive? || !(valuation.MarginState().Call? || valuation.MarginState().Bust?) {
        return;
      }
      var plan := LiquidationPlan(valuation, positions, env.Marks(), env.rules.margin);
      Cover(plan, env);
      BustIfSpent(env);
    }

    /** Out of the competition if nothing is left. */
    method BustIfSpent(env: Env)
      requires Valid() && env.Sound()
      modifies this, account, account.positions, orders
      ensures Valid() && Owns()
      ensures var t := old(Value()); Value() == if Equity(t, env) <= 0 then RiskDesk.BustTeam(t, env) else t
    {
      hide RiskDesk.BustTeam, Valued;
      var _, valuation := Assess(env);
      if valuation.equity <= 0 {
        BustTeam(env);
      }
    }

    /** Charge a day's borrow fee on every short. */
    method ChargeBorrowFees(env: Env)
      requires Valid()
      modifies account
      ensures Valid() && Owns() && Value() == BorrowCharged(old(Value()), env)
    {
      hide Posted, BorrowFeeOn;
      var rate := env.rules.margin.borrowFee;
      if rate <= 0 || !status.TeamActive? {
        return;
      }
      var positions := LoadPositions();
      var total := BorrowFees(positions, env.Marks(), rate);
      if total > 0 {
        account.PostLedger(BorrowFee, -total);
      }
    }

    /** Buy a research report, if the cash is there. */
    method BuyResearch(cost: int) returns (ok: bool)
      requires Valid()
      modifies account
      ensures Valid() && Owns() && Value() == old(Value()).(book := Researched(old(Value()).book, cost))
      ensures ok == (old(Value()).book.cash >= cost)
    {
      hide Posted;
      ok := account.cash >= cost;
      if ok {
        account.PostLedger(Research, -cost);
      }
    }
  }
}
