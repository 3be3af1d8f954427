/** Account valuation, the margin state, and the funds check.

    Available funds are cash less what the shorts are worth and less the initial margin on them.
    Rates are in millionths of a per cent; amounts are micro-rupees, so marks times quantities are exact
    and only the percentages are rounded.
 */
module Risk {
  import opened Money
  import opened Fees
  import opened Books
  import opened Totals

  datatype MarginRules = MarginRules(initial: int, maintenance: int, warning: int, liquidateTo: int, borrowFee: int)

  datatype Valuation = Valuation(
    cash: int, longMv: int, shortMv: int, equity: int, marginRequired: int, available: int,
    maintenanceRequired: int, warningThreshold: int, unrealised: int, realised: int)
  {
    function MarginState(): MarginState {
      if equity <= 0 then Bust
      else if shortMv <= 0 then Ok
      else if equity < maintenanceRequired then Call
      else if equity < warningThreshold then Warning
      else Ok
    }
  }

  datatype MarginState = Ok | Warning | Call | Bust

  /** The price a position is marked at: its symbol's, or its own average cost where there is none. */
  function MarkOf(marks: Marks, p: Pos): int {
    if p.symbol in marks then marks[p.symbol] else p.avg
  }

  function LongValue(marks: Marks): Pos -> int {
    (p: Pos) => if p.qty > 0 then MarkOf(marks, p) * p.qty else 0
  }

  function ShortValue(marks: Marks): Pos -> int {
    (p: Pos) => if p.qty < 0 then MarkOf(marks, p) * -p.qty else 0
  }

  function UnrealisedOf(marks: Marks): Pos -> int {
    (p: Pos) => if p.qty > 0 then (MarkOf(marks, p) - p.avg) * p.qty
                else if p.qty < 0 then (p.avg - MarkOf(marks, p)) * -p.qty else 0
  }

  function RealisedOf(): Pos -> int { (p: Pos) => p.realised }

  /** `cash - short - initial% of short`, rounded once to the storage grid. */
  function Available(cash: int, short: int, rules: MarginRules): int {
    RoundDiv((cash - short) * PERCENT - short * rules.initial, PERCENT)
  }

  /** What the totals of a book say about it. */
  function FromTotals(cash: int, long: int, short: int, unrealised: int, realised: int, rules: MarginRules): Valuation {
    Valuation(cash, long, short, cash + long - short,
              RoundDiv(short * rules.initial, PERCENT), Available(cash, short, rules),
              RoundDiv(short * rules.maintenance, PERCENT), RoundDiv(short * rules.warning, PERCENT),
              unrealised, realised)
  }

  /** A book marked to `marks`. */
  function Valued(b: Book, marks: Marks, rules: MarginRules): Valuation {
    FromTotals(b.cash, SumBy(LongValue(marks), b.positions), SumBy(ShortValue(marks), b.positions),
               SumBy(UnrealisedOf(marks), b.positions), SumBy(RealisedOf(), b.positions), rules)
  }

  method Valuate(cash: int, positions: seq<Pos>, marks: Marks, rules: MarginRules) returns (v: Valuation)
    ensures forall rows :: v == Valued(Book(cash, rows, positions), marks, rules)
  {
    var longMv, shortMv, unrealised, realised := 0, 0, 0, 0;
    for i := 0 to |positions|
      invariant longMv == SumBy(LongValue(marks), positions[..i])
      invariant shortMv == SumBy(ShortValue(marks), positions[..i])
      invariant unrealised == SumBy(UnrealisedOf(marks), positions[..i])
      invariant realised == SumBy(RealisedOf(), positions[..i])
    {
      var p := positions[i];
      assert positions[..i + 1] == positions[..i] + [p];
      SumByAppend(LongValue(marks), positions[..i], p);
      SumByAppend(ShortValue(marks), positions[..i], p);
      SumByAppend(UnrealisedOf(marks), positions[..i], p);
      SumByAppend(RealisedOf(), positions[..i], p);
      realised := realised + p.realised;
      if p.qty == 0 {
        continue;
      }
      var mark := if p.symbol in marks then marks[p.symbol] else p.avg;
      var value := mark * Abs(p.qty);
      if p.qty > 0 {
        longMv := longMv + value;
        unrealised := unrealised + (mark - p.avg) * p.qty;
      } else {
        shortMv := shortMv + value;
        unrealised := unrealised + (p.avg - mark) * Abs(p.qty);
      }
    }
    assert positions[..|positions|] == positions;
    v := FromTotals(cash, longMv, shortMv, unrealised, realised, rules);
  }

  /** A book is worth its cash and its shares at their marks, or at cost where there is no mark: longs for, shorts
      against; its unrealised P&L is what they are worth over what they cost. */
  lemma ValuedAtMarks(b: Book, marks: Marks, rules: MarginRules)
    ensures var v, at := Valued(b, marks, rules), (p: Pos) => if p.symbol in marks then marks[p.symbol] else p.avg;
      && v.cash == b.cash && v.equity == b.cash + v.longMv - v.shortMv
      && v.longMv == SumBy((p: Pos) => if p.qty > 0 then at(p) * p.qty else 0, b.positions)
      && v.shortMv == SumBy((p: Pos) => if p.qty < 0 then at(p) * -p.qty else 0, b.positions)
      && v.unrealised == SumBy((p: Pos) => (at(p) - p.avg) * p.qty, b.positions)
      && v.realised == SumBy((p: Pos) => p.realised, b.positions)
  {
    hide RoundDiv, Available;
    var at := (p: Pos) => if p.symbol in marks then marks[p.symbol] else p.avg;
    SumBySame(LongValue(marks), (p: Pos) => if p.qty > 0 then at(p) * p.qty else 0, b.positions);
    SumBySame(ShortValue(marks), (p: Pos) => if p.qty < 0 then at(p) * -p.qty else 0, b.positions);
    forall p: Pos
      ensures UnrealisedOf(marks)(p) == (at(p) - p.avg) * p.qty
    {
      SignSwap(at(p) - p.avg, p.qty);
    }
    SumBySame(UnrealisedOf(marks), (p: Pos) => (at(p) - p.avg) * p.qty, b.positions);
    SumBySame(RealisedOf(), (p: Pos) => p.realised, b.positions);
  }

  lemma SignSwap(x: int, n: int)
    ensures -x * -n == x * n
  {
  }

  // ------------------------------------------------------------------ the funds check

  /** What a fill would leave in available funds, worked out from the valuation before it. */
  function ProjectAvailable(
    v: Valuation, current: int, side: Side, qty: nat, price: int, mark: int, fees: int, rules: MarginRules): int
  {
    var gross := price * qty;
    var deltaCash := (if side.Buy? then -gross else gross) - fees;
    var now := current + side.Sign() * qty;
    var deltaShort := mark * (Max(0, -now) - Max(0, -current));
    Available(v.cash + deltaCash, v.shortMv + deltaShort, rules)
  }

  /** Cash after booking, when everything is on the settlement grid already. */
  lemma BookedCash(b: Book, symbol: Symbol, side: Side, qty: nat, price: int, fee: int)
    requires OnGrid(b.cash, MICROS_PER_PAISA) && OnGrid(price, MICROS_PER_PAISA)
    requires fee >= 0 && OnGrid(fee, MICROS_PER_PAISA)
    ensures var b' := Booked(b, symbol, side, qty, price, fee);
            && b'.cash == b.cash - side.Sign() * price * qty - fee
            && OnGrid(b'.cash, MICROS_PER_PAISA)
            && Gross(qty, price) == price * qty
  {
    hide RoundDiv, Posted, Paise, Repositioned;
    GridScale(price, qty, MICROS_PER_PAISA);
    PaiseExact(price * qty);
    var amount := -side.Sign() * Gross(qty, price);
    GridSum(0, price * qty, MICROS_PER_PAISA);
    GridSum(0, fee, MICROS_PER_PAISA);
    var b1 := b.(positions := Repositioned(b.positions, symbol, side, qty, price, fee));
    PostedExact(b1, Trade, amount);
    PostedExact(Posted(b1, Trade, amount), Fee, -fee);
    assert amount == -side.Sign() * price * qty;
  }

  /** Posting moves cash by exactly the settled amount. */
  lemma PostedExact(b: Book, kind: Kind, amount: int)
    requires OnGrid(b.cash, MICROS_PER_PAISA)
    ensures var b' := Posted(b, kind, amount);
            var a := Paise(amount, 1);
            && b'.cash == b.cash + a && OnGrid(b'.cash, MICROS_PER_PAISA)
            && b'.rows == b.rows + [Row(kind, a, b.cash + a)]
            && b'.positions == b.positions
            && (OnGrid(amount, MICROS_PER_PAISA) ==> a == amount)
  {
    hide RoundDiv;
    var a := Paise(amount, 1);
    MultipleOnGrid(RoundDiv(amount, MICROS_PER_PAISA), MICROS_PER_PAISA);
    if OnGrid(amount, MICROS_PER_PAISA) { PaiseExact(amount); }
    GridSum(b.cash, a, MICROS_PER_PAISA);
    PaiseExact(b.cash + a);
  }

  lemma ShortOf(marks: Marks, p: Pos)
    ensures ShortValue(marks)(p) == MarkOf(marks, p) * Max(0, -p.qty)
    ensures ShortValue(marks)(Pos(p.symbol, 0, 0, 0, 0)) == 0
  {
  }

  lemma ShortAfterFill(ps: seq<Pos>, marks: Marks, symbol: Symbol, side: Side, qty: nat, price: int, fee: int)
    requires symbol in marks
    ensures var before := QtyOf(ps, symbol);
            var change := Max(0, -(before + side.Sign() * qty)) - Max(0, -before);
            SumBy(ShortValue(marks), Repositioned(ps, symbol, side, qty, price, fee))
            == SumBy(ShortValue(marks), ps) + marks[symbol] * change
  {
    hide Repositioned, Max, ShortValue;
    ShortOf(marks, RowFor(ps, symbol));
    SumByRepositioned(ShortValue(marks), ps, symbol, side, qty, price, fee);
    FilledRow(ps, symbol, side, qty, price, fee);
    var i := Find(ps, symbol);
    var p, q := RowFor(ps, symbol), Repositioned(ps, symbol, side, qty, price, fee)[i];
    ShortOf(marks, p);
    ShortOf(marks, q);
    var mark, more, less := marks[symbol], Max(0, -q.qty), Max(0, -p.qty);
    assert mark * (more - less) == mark * more - mark * less;
  }

  /** The funds check refines full revaluation: for buys, sells, covers, new shorts and flips alike, the
      incremental projection is the available-funds figure of the book with the fill in it. */
  lemma FundsCheckIsRevaluation(
    b: Book, marks: Marks, symbol: Symbol, side: Side, qty: nat, price: int, fee: int, rules: MarginRules)
    requires symbol in marks
    requires OnGrid(b.cash, MICROS_PER_PAISA) && OnGrid(price, MICROS_PER_PAISA)
    requires fee >= 0 && OnGrid(fee, MICROS_PER_PAISA)
    ensures var v, held := Valued(b, marks, rules), QtyOf(b.positions, symbol);
      ProjectAvailable(v, held, side, qty, price, marks[symbol], fee, rules)
      == Valued(Booked(b, symbol, side, qty, price, fee), marks, rules).available
  {
    hide Available, RoundDiv, Repositioned, Valued, Booked, SumBy, ShortValue, QtyOf, Max;
    var b' := Booked(b, symbol, side, qty, price, fee);
    BookedCash(b, symbol, side, qty, price, fee);
    BookedPositions(b, symbol, side, qty, price, fee);
    ShortAfterFill(b.positions, marks, symbol, side, qty, price, fee);
    ValuedFunds(b, marks, rules);
    ValuedFunds(b', marks, rules);
    var v, held := Valued(b, marks, rules), QtyOf(b.positions, symbol);
    var now := held + side.Sign() * qty;
    var cash := b.cash + (if side.Buy? then -(price * qty) else price * qty) - fee;
    var short := SumBy(ShortValue(marks), b.positions) + marks[symbol] * (Max(0, -now) - Max(0, -held));
    assert ProjectAvailable(v, held, side, qty, price, marks[symbol], fee, rules) == Available(cash, short, rules);
  }

  lemma ValuedFunds(b: Book, marks: Marks, rules: MarginRules)
    ensures var v := Valued(b, marks, rules);
      && v.cash == b.cash && v.shortMv == SumBy(ShortValue(marks), b.positions)
      && v.available == Available(v.cash, v.shortMv, rules)
  {
  }

  lemma AvailableBound(cash: int, short: int, rules: MarginRules)
    requires Available(cash, short, rules) >= 0
    ensures 2 * (short * rules.initial) <= 2 * PERCENT * (cash - short) + PERCENT
  {
    hide RoundDiv;
    RoundDivNearest((cash - short) * PERCENT - short * rules.initial, PERCENT);
  }

  /** Non-negative available funds are the leverage cap: at most `100 / initial%` of equity is short. */
  lemma AvailableCapsLeverage(b: Book, marks: Marks, rules: MarginRules)
    requires Valued(b, marks, rules).available >= 0
    requires forall p | p in b.positions :: MarkOf(marks, p) >= 0
    ensures var v := Valued(b, marks, rules);
            2 * (v.shortMv * rules.initial) <= 2 * PERCENT * v.equity + PERCENT
  {
    hide Available, RoundDiv;
    AvailableBound(b.cash, SumBy(ShortValue(marks), b.positions), rules);
    MarketValuesNonnegative(b, marks);
  }

  /** A fraction rounds to at least zero exactly when it is above minus a half. */
  lemma RoundsToNonnegative(n: int, d: int)
    requires d > 0
    ensures RoundDiv(n, d) >= 0 <==> 2 * n > -d
  {
    if n >= 0 {
      RoundDivBetween(0, n, 0, d);
    } else if -2 * n < d {
      DivUnique(-2 * n + d, 2 * d, 0);
    } else {
      DivMono(2 * d, -2 * n + d, 2 * d);
    }
  }

  /** A whole amount covers a rounded fraction exactly when it is less than a half short of the exact one. */
  lemma CoversRounded(c: int, x: int, d: int)
    requires x >= 0 && d > 0
    ensures c >= RoundDiv(x, d) <==> 2 * (c * d - x) > -d
  {
    var r := RoundDiv(x, d);
    DivBounds(2 * x + d, 2 * d);
    if c >= r { MulMono(d, r, c); } else { MulMono(d, c, r - 1); }
  }

  /** Worth so many per cent of the short value, to within half a micro-rupee. */
  predicate AtLevel(v: Valuation, rate: int) { 2 * (v.equity * PERCENT - v.shortMv * rate) > -PERCENT }

  lemma LevelReached(v: Valuation, rate: int)
    requires v.equity > 0 && v.shortMv >= 0
    ensures v.equity >= RoundDiv(v.shortMv * rate, PERCENT) <==> AtLevel(v, rate)
  {
    hide RoundDiv;
    if rate >= 0 {
      MulMono(v.shortMv, 0, rate);
      CoversRounded(v.equity, v.shortMv * rate, PERCENT);
    } else {
      MulMono(v.shortMv, rate, 0);
      RoundDivBetween(0, v.shortMv * rate, 0, PERCENT);
    }
  }

  /** Exactly when each margin state applies: BUST without equity, CALL under the maintenance level, WARNING between
      that and the warning level, OK otherwise or with nothing short. */
  lemma MarginStateExactly(b: Book, marks: Marks, rules: MarginRules)
    requires forall p | p in b.positions :: MarkOf(marks, p) >= 0
    ensures var v := Valued(b, marks, rules);
      var state, covered, well := v.MarginState(), AtLevel(v, rules.maintenance), AtLevel(v, rules.warning);
      && (state.Bust? <==> v.equity <= 0)
      && (state.Call? <==> v.equity > 0 && v.shortMv > 0 && !covered)
      && (state.Warning? <==> v.equity > 0 && v.shortMv > 0 && covered && !well)
      && (state.Ok? <==> v.equity > 0 && (v.shortMv == 0 || (covered && well)))
  {
    hide RoundDiv, SumBy, AtLevel, Available;
    var v := Valued(b, marks, rules);
    MarketValuesNonnegative(b, marks);
    if v.equity > 0 {
      LevelReached(v, rules.maintenance);
      LevelReached(v, rules.warning);
    }
  }

  lemma MarketValuesNonnegative(b: Book, marks: Marks)
    requires forall p | p in b.positions :: MarkOf(marks, p) >= 0
    ensures SumBy(LongValue(marks), b.positions) >= 0 && SumBy(ShortValue(marks), b.positions) >= 0
  {
    forall p | p in b.positions
      ensures LongValue(marks)(p) >= 0 && ShortValue(marks)(p) >= 0
    {
      MulMono(MarkOf(marks, p), 0, Abs(p.qty));
    }
    SumByNonnegative(LongValue(marks), b.positions);
    SumByNonnegative(ShortValue(marks), b.positions);
  }

  /** Available funds are non-negative exactly when cash net of the shorts covers the margin required; with
      the warning level at or under the initial margin, such an account is not worth less than nothing, and
      one worth anything is out of every margin state. */
  lemma FundsCoverMargin(b: Book, marks: Marks, rules: MarginRules)
    requires forall p | p in b.positions :: MarkOf(marks, p) >= 0
    requires 0 <= rules.maintenance <= rules.initial && 0 <= rules.warning <= rules.initial
    ensures var v := Valued(b, marks, rules);
      && (v.available >= 0 <==> v.cash - v.shortMv >= v.marginRequired)
      && (v.available >= 0 ==> v.equity >= 0 && (v.equity > 0 ==> v.MarginState() == Ok))
  {
    hide RoundDiv, SumBy;
    var long, short := SumBy(LongValue(marks), b.positions), SumBy(ShortValue(marks), b.positions);
    MarketValuesNonnegative(b, marks);
    MulMono(short, 0, rules.initial);
    CoversRounded(b.cash - short, short * rules.initial, PERCENT);
    RoundsToNonnegative((b.cash - short) * PERCENT - short * rules.initial, PERCENT);
    RoundDivBetween(0, short * rules.initial, 0, PERCENT);
    MulMono(short, rules.maintenance, rules.initial);
    MulMono(short, rules.warning, rules.initial);
    RoundDivMono(short * rules.maintenance, short * rules.initial, PERCENT);
    RoundDivMono(short * rules.warning, short * rules.initial, PERCENT);
  }

  // ------------------------------------------------------------------ equity

  /** Signed value of a position at its mark. */
  function Exposure(marks: Marks): Pos -> int { (p: Pos) => MarkOf(marks, p) * p.qty }

  lemma EquityIsCashPlusExposure(b: Book, marks: Marks, rules: MarginRules)
    ensures Valued(b, marks, rules).equity == b.cash + SumBy(Exposure(marks), b.positions)
  {
    SumByLinear(LongValue(marks), Exposure(marks), ShortValue(marks), b.positions);
  }

  lemma ExposureAfterFill(ps: seq<Pos>, marks: Marks, symbol: Symbol, side: Side, qty: nat, price: int, fee: int)
    requires symbol in marks
    ensures SumBy(Exposure(marks), Repositioned(ps, symbol, side, qty, price, fee))
         == SumBy(Exposure(marks), ps) + side.Sign() * marks[symbol] * qty
  {
    ExposureOf(marks, RowFor(ps, symbol));
    ExposureOf(marks, Repositioned(ps, symbol, side, qty, price, fee)[Find(ps, symbol)]);
    SignedMove(marks[symbol], QtyOf(ps, symbol), side.Sign(), qty);
    hide Repositioned, Exposure, QtyOf, RowFor, MarkOf;
    SumByRepositioned(Exposure(marks), ps, symbol, side, qty, price, fee) by { FlatExposure(marks, symbol); }
    FilledRow(ps, symbol, side, qty, price, fee);
  }

  lemma ExposureOf(marks: Marks, p: Pos)
    ensures p.symbol in marks ==> Exposure(marks)(p) == marks[p.symbol] * p.qty
  {
  }

  lemma FlatExposure(marks: Marks, symbol: Symbol)
    ensures Exposure(marks)(Pos(symbol, 0, 0, 0, 0)) == 0
  {
  }

  lemma SignedMove(mark: int, before: int, sign: int, qty: int)
    ensures mark * (before + sign * qty) == mark * before + sign * mark * qty
  {
  }

  /** A fill changes equity by the gap between mark and fill price, less charges, and by nothing else. */
  lemma FillMovesEquityByTheGap(
    b: Book, marks: Marks, symbol: Symbol, side: Side, qty: nat, price: int, fee: int, rules: MarginRules)
    requires symbol in marks
    requires OnGrid(b.cash, MICROS_PER_PAISA) && OnGrid(price, MICROS_PER_PAISA)
    requires fee >= 0 && OnGrid(fee, MICROS_PER_PAISA)
    ensures Valued(Booked(b, symbol, side, qty, price, fee), marks, rules).equity
         == Valued(b, marks, rules).equity + side.Sign() * (marks[symbol] - price) * qty - fee
  {
    hide RoundDiv, Repositioned, Valued, Posted;
    BookedCash(b, symbol, side, qty, price, fee);
    EquityIsCashPlusExposure(b, marks, rules);
    EquityIsCashPlusExposure(Booked(b, symbol, side, qty, price, fee), marks, rules);
    ExposureAfterFill(b.positions, marks, symbol, side, qty, price, fee);
    BookedPositions(b, symbol, side, qty, price, fee);
    assert side.Sign() * (marks[symbol] - price) * qty == side.Sign() * marks[symbol] * qty - side.Sign() * price * qty;
  }

  lemma BookedPositions(b: Book, symbol: Symbol, side: Side, qty: nat, price: int, fee: int)
    ensures Booked(b, symbol, side, qty, price, fee).positions
         == Repositioned(b.positions, symbol, side, qty, price, fee)
  {
    hide RoundDiv, Repositioned;
  }
}
