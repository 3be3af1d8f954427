/** The books reconcile over every run.

    Any sequence of fills, cash movements and whole-share splits leaves cash equal to its ledger, every
    running balance equal to its prefix sum, every position equal to its net fills, and equity equal to
    what was paid in plus realised plus unrealised P&L, up to half a micro-rupee for each share held
    after each re-averaging of a cost.
 */
module Reconcile {
  import opened Money
  import opened Fees
  import opened Books
  import opened Totals
  import opened Risk

  datatype Event =
    | Fill(symbol: Symbol, side: Side, qty: nat, price: int, fee: int)
    | Cash(kind: Kind, amount: int)
    | Split(symbol: Symbol, num: int, den: int)

  /** Fills are of at least one share at prices and charges on the paisa grid, cash movements outside
      trading may be of any amount, and a split leaves nobody a fraction of a share. */
  ghost predicate Sound(b: Book, e: Event) {
    match e
    case Fill(_, _, qty, price, fee) =>
      qty > 0 && OnGrid(price, MICROS_PER_PAISA) && OnGrid(fee, MICROS_PER_PAISA) && fee >= 0
    case Cash(kind, _) => !kind.Trade?
    case Split(symbol, num, den) => num > 0 && den > 0 && OnGrid(QtyOf(b.positions, symbol) * num, den)
  }

  function Apply(b: Book, e: Event): Book
    requires Sound(b, e)
  {
    match e
    case Fill(symbol, side, qty, price, fee) => Booked(b, symbol, side, qty, price, fee)
    case Cash(kind, amount) => Posted(b, kind, amount)
    case Split(symbol, num, den) => b.(positions := SplitRow(b.positions, symbol, num, den))
  }

  ghost predicate SoundRun(b: Book, events: seq<Event>)
    decreases |events|
  {
    events == [] || (Sound(b, events[0]) && SoundRun(Apply(b, events[0]), events[1..]))
  }

  function Run(b: Book, events: seq<Event>): Book
    requires SoundRun(b, events)
    decreases |events|
  {
    if events == [] then b else Run(Apply(b, events[0]), events[1..])
  }

  /** The shares whose cost is rounded by one event: all of them after adding or splitting, else none. */
  function Rerounded(b: Book, e: Event): nat
    requires Sound(b, e)
  {
    match e
    case Fill(symbol, side, qty, _, _) =>
      var before := QtyOf(b.positions, symbol);
      if Adds(before, side, qty) then Abs(before + side.Sign() * qty) else 0
    case Cash(_, _) => 0
    case Split(symbol, num, den) => Abs(QtyOf(b.positions, symbol) * num / den)
  }

  function Drift(b: Book, events: seq<Event>): nat
    requires SoundRun(b, events)
    decreases |events|
  {
    if events == [] then 0 else Rerounded(b, events[0]) + Drift(Apply(b, events[0]), events[1..])
  }

  /** Shares of `symbol` the events leave, starting from `qty`, whatever happens to any other symbol. */
  function NetShares(qty: int, events: seq<Event>, symbol: Symbol): int
    decreases |events|
  {
    if events == [] then qty else NetShares(NextShares(qty, events[0], symbol), events[1..], symbol)
  }

  function NextShares(qty: int, e: Event, symbol: Symbol): int {
    if e.Fill? && e.symbol == symbol then qty + e.side.Sign() * e.qty
    else if e.Split? && e.symbol == symbol && e.den > 0 then qty * e.num / e.den
    else qty
  }

  /** Cash is the ledger, on the paisa grid, and each balance is the sum of the rows up to it. */
  ghost predicate Kept(b: Book) {
    && OnGrid(b.cash, MICROS_PER_PAISA)
    && b.cash == RowTotal(b.rows)
    && forall i | 0 <= i < |b.rows| :: b.rows[i].balance == RowTotal(b.rows[..i + 1])
  }

  /** Realised P&L less the cost of what is held: the net cash trading should have brought in. */
  function Basis(): Pos -> int { (p: Pos) => p.realised - p.avg * p.qty }

  /** The rounding accumulated in average costs: trade cash received less the cash the rows account for. */
  function CostError(b: Book): int { TradeTotal(b.rows) - SumBy(Basis(), b.positions) }

  /** At any mark, a row's realised plus unrealised P&L is its basis plus its exposure. */
  lemma RowGap(marks: Marks, p: Pos)
    ensures p.realised + UnrealisedOf(marks)(p) == Basis()(p) + Exposure(marks)(p)
  {
    var m := MarkOf(marks, p);
    Distribute(m, p.avg, p.qty);
    Distribute(m, p.avg, -p.qty);
  }

  lemma Distribute(x: int, y: int, z: int)
    ensures (x - y) * z == x * z - y * z
    ensures (y - x) * -z == x * z - y * z
  {
  }

  /** Equity less (everything paid in or out + realised + unrealised P&L) is the accumulated cost rounding. */
  lemma GapIsCostError(b: Book, marks: Marks, rules: MarginRules)
    requires Kept(b)
    ensures var v := Valued(b, marks, rules);
            v.equity - (NonTradeTotal(b.rows) + v.realised + v.unrealised) == CostError(b)
  {
    hide RoundDiv, Available, UnrealisedOf, Exposure, Basis, LongValue, ShortValue;
    EquityIsCashPlusExposure(b, marks, rules);
    TotalsSplit(b.rows);
    var both := (p: Pos) => p.realised + UnrealisedOf(marks)(p);
    SumByLinear(both, RealisedOf(), UnrealisedOf(marks), b.positions);
    forall p | p in b.positions
      ensures both(p) == Basis()(p) + Exposure(marks)(p)
    {
      RowGap(marks, p);
    }
    SumByLinear(both, Basis(), Exposure(marks), b.positions);
  }

  /** Netting in a fill accounts for its cash exactly, except for one rounding when it adds. */
  lemma NettedBasis(p: Pos, side: Side, qty: nat, price: int)
    requires qty > 0
    ensures var q := Netted(p, side, qty, price);
            var error := Basis()(q) - Basis()(p) + side.Sign() * price * qty;
            if Adds(p.qty, side, qty) then 2 * Abs(error) <= Abs(q.qty) else error == 0
  {
    if Adds(p.qty, side, qty) {
      AddingBasis(p, side, qty, price);
    } else {
      hide Netted, Basis;
      ClosingBasis(p, side, qty, price);
    }
  }

  /** The new average times the new size is within half the new size of the two costs it averages. */
  lemma AddingBasis(p: Pos, side: Side, qty: nat, price: int)
    requires qty > 0 && Adds(p.qty, side, qty)
    ensures var q := Netted(p, side, qty, price);
      2 * Abs(Basis()(q) - Basis()(p) + side.Sign() * price * qty) <= Abs(q.qty)
  {
    var q, size, n := Netted(p, side, qty, price), Abs(p.qty), Abs(p.qty) + qty;
    var sign := side.Sign();
    assert q.qty == sign * n && p.qty == sign * size;
    assert q.realised == p.realised && q.avg == RoundDiv(p.avg * size + price * qty, n);
    hide RoundDiv, Netted;
    RoundDivNearest(p.avg * size + price * qty, n);
    SignedCost(sign, q.avg, n);
    SignedCost(sign, p.avg, size);
    SignedCost(sign, price, qty);
    SignedGap(sign, q.avg * n, p.avg * size, price * qty);
  }

  lemma SignedGap(sign: int, x: int, y: int, z: int)
    requires sign == 1 || sign == -1
    ensures Abs(-(sign * x) + sign * y + sign * z) == Abs(x - (y + z))
  {
  }

  lemma SignedCost(sign: int, price: int, size: int)
    requires sign == 1 || sign == -1
    ensures price * (sign * size) == sign * (price * size) == sign * price * size
    ensures size * price == price * size
  {
  }

  lemma ClosingBasis(p: Pos, side: Side, qty: nat, price: int)
    requires qty > 0 && !Adds(p.qty, side, qty)
    ensures Basis()(Netted(p, side, qty, price)) == Basis()(p) - side.Sign() * price * qty
  {
    hide RoundDiv;
    var now := p.qty + side.Sign() * qty;
    if qty <= Abs(p.qty) {
      ReducingIdentity(p.avg, price, p.qty, side.Sign(), qty);
      assert now == 0 ==> p.avg * now == 0;
    } else {
      FlippingIdentity(p.avg, price, p.qty, side.Sign(), qty);
    }
  }

  lemma ReducingIdentity(avg: int, price: int, held: int, sign: int, qty: int)
    requires sign == 1 || sign == -1
    ensures var gain := if sign == -1 then price - avg else avg - price;
      gain * qty - avg * (held + sign * qty) == -(sign * price * qty) - avg * held
  {
  }

  lemma FlippingIdentity(avg: int, price: int, held: int, sign: int, qty: int)
    requires sign == 1 || sign == -1
    ensures var gain := if sign == -1 then price - avg else avg - price;
      gain * (-sign * held) - price * (held + sign * qty) == -(sign * price * qty) - avg * held
  {
  }

  lemma SplitBasis(p: Pos, num: int, den: int)
    requires num > 0 && den > 0 && OnGrid(p.qty * num, den)
    ensures 2 * Abs(Basis()(SplitPos(p, num, den)) - Basis()(p)) <= Abs(p.qty * num / den)
    ensures SplitPos(p, num, den).qty == p.qty * num / den
  {
    hide RoundDiv;
    if p.qty != 0 {
      var q := SplitPos(p, num, den);
      var k := p.qty * num / den;
      GridQuotient(p.qty * num, den);
      if p.qty < 0 { DivUnique(-(p.qty * num), den, -k); }
      assert q.qty == k;
      var x, y := p.avg * den, num;
      RoundDivNearest(x, y);
      ScaledError(q.avg, k, p.avg, p.qty, num, den);
    } else {
      DivUnique(0, den, 0);
    }
  }

  /** If `num * avg` is within `num / 2` of `cost * den` and `k * den == qty * num`, then `avg * k` is within
      `k / 2` of `cost * qty`. */
  lemma ScaledError(avg: int, k: int, cost: int, qty: int, num: int, den: int)
    requires num > 0 && den > 0 && k * den == qty * num
    requires 2 * Abs(num * avg - cost * den) <= num
    ensures 2 * Abs(avg * k - cost * qty) <= Abs(k)
  {
    var e, f, m := num * avg - cost * den, avg * k - cost * qty, Abs(k);
    ScaledIdentity(avg, k, cost, qty, num, den);
    AbsProduct(num, f);
    AbsProduct(k, e);
    var x, z := Abs(e), Abs(f);
    MulMono(m, 2 * x, num);
    Cancel(num, z, m, x);
  }

  lemma ScaledIdentity(avg: int, k: int, cost: int, qty: int, num: int, den: int)
    requires k * den == qty * num
    ensures num * (avg * k - cost * qty) == k * (num * avg - cost * den)
  {
    calc {
      num * (avg * k - cost * qty);
      num * avg * k - cost * (qty * num);
      num * avg * k - cost * (k * den);
      k * (num * avg - cost * den);
    }
  }

  lemma Cancel(num: int, z: int, m: int, x: int)
    requires num > 0 && num * z == m * x && m * (2 * x) <= m * num
    ensures 2 * z <= m
  {
    if 2 * z > m {
      MulMono(num, m + 1, 2 * z);
    }
  }

  // ------------------------------------------------------------------ one event

  lemma PostedKept(b: Book, kind: Kind, amount: int)
    requires Kept(b)
    ensures var b' := Posted(b, kind, amount);
            && Kept(b')
            && TradeTotal(b'.rows) == TradeTotal(b.rows) + (if kind.Trade? then Paise(amount, 1) else 0)
            && (OnGrid(amount, MICROS_PER_PAISA) ==> Paise(amount, 1) == amount)
  {
    hide RoundDiv, Posted, Paise;
    PostedExact(b, kind, amount);
    var b' := Posted(b, kind, amount);
    TotalsAppend(b.rows, b'.rows[|b.rows|]);
    forall i | 0 <= i < |b'.rows|
      ensures b'.rows[i].balance == RowTotal(b'.rows[..i + 1])
    {
      if i < |b.rows| {
        assert b'.rows[..i + 1] == b.rows[..i + 1];
      } else {
        assert b'.rows[..i + 1] == b'.rows;
      }
    }
  }

  lemma KeptIgnoresPositions(b: Book, b': Book)
    requires Kept(b) && b' == b.(positions := b'.positions)
    ensures Kept(b') && OnGrid(b.cash, MICROS_PER_PAISA)
  {
  }

  lemma FillStep(b: Book, symbol: Symbol, side: Side, qty: nat, price: int, fee: int)
    requires Kept(b) && Sound(b, Fill(symbol, side, qty, price, fee))
    ensures var b' := Booked(b, symbol, side, qty, price, fee);
            && Kept(b')
            && TradeTotal(b'.rows) == TradeTotal(b.rows) - side.Sign() * price * qty
  {
    hide RoundDiv, Repositioned, Posted, Paise, Kept, TradeTotal;
    var b1 := b.(positions := Repositioned(b.positions, symbol, side, qty, price, fee));
    var amount := -side.Sign() * Gross(qty, price);
    KeptIgnoresPositions(b, b1);
    BookedCash(b, symbol, side, qty, price, fee);
    GridScale(price, -side.Sign() * qty, MICROS_PER_PAISA);
    assert price * (-side.Sign() * qty) == amount;
    PostedKept(b1, Trade, amount);
    PostedKept(Posted(b1, Trade, amount), Fee, -fee);
    assert amount == -side.Sign() * price * qty;
  }

  /** One event keeps the ledger and adds at most its own share to the cost rounding. */
  lemma Step(b: Book, e: Event)
    requires Kept(b) && Sound(b, e)
    ensures Kept(Apply(b, e))
    ensures 2 * Abs(CostError(Apply(b, e)) - CostError(b)) <= Rerounded(b, e)
  {
    hide RoundDiv, Repositioned, Booked, Posted, Netted, Kept, Basis;
    match e
    case Fill(symbol, side, qty, price, fee) =>
      FillStep(b, symbol, side, qty, price, fee);
      BookedPositions(b, symbol, side, qty, price, fee);
      BasisAfterFill(b.positions, symbol, side, qty, price, fee);
    case Cash(kind, amount) =>
      PostedKept(b, kind, amount);
      PostedKeepsPositions(b, kind, amount);
    case Split(symbol, num, den) =>
      SplitStep(b, symbol, num, den);
  }

  lemma PostedKeepsPositions(b: Book, kind: Kind, amount: int)
    ensures Posted(b, kind, amount).positions == b.positions
  {
  }

  lemma BasisAfterFill(ps: seq<Pos>, symbol: Symbol, side: Side, qty: nat, price: int, fee: int)
    requires qty > 0
    ensures var before := QtyOf(ps, symbol);
            var change := SumBy(Basis(), Repositioned(ps, symbol, side, qty, price, fee)) - SumBy(Basis(), ps);
            var error := change + side.Sign() * price * qty;
            if Adds(before, side, qty) then 2 * Abs(error) <= Abs(before + side.Sign() * qty) else error == 0
  {
    hide RoundDiv, Netted, Paise;
    var p := RowFor(ps, symbol);
    SumByRepositioned(Basis(), ps, symbol, side, qty, price, fee);
    FilledRow(ps, symbol, side, qty, price, fee);
    NettedBasis(p, side, qty, price);
  }

  lemma SplitStep(b: Book, symbol: Symbol, num: int, den: int)
    requires Kept(b) && Sound(b, Split(symbol, num, den))
    ensures var e := Split(symbol, num, den);
      Kept(Apply(b, e)) && 2 * Abs(CostError(Apply(b, e)) - CostError(b)) <= Rerounded(b, e)
  {
    hide RoundDiv, SplitPos;
    var i := Find(b.positions, symbol);
    if i < |b.positions| {
      SumByUpdate(Basis(), b.positions, i, SplitPos(b.positions[i], num, den));
      SplitBasis(b.positions[i], num, den);
    }
  }

  // ------------------------------------------------------------------ positions are their fills

  lemma OtherAfterSplit(ps: seq<Pos>, symbol: Symbol, num: int, den: int, other: Symbol)
    requires num > 0 && den > 0 && other != symbol
    ensures QtyOf(SplitRow(ps, symbol, num, den), other) == QtyOf(ps, other)
  {
    hide SplitPos;
    var i := Find(ps, symbol);
    if i < |ps| { SplitKeepsSymbol(ps[i], num, den); }
    FindIs(SplitRow(ps, symbol, num, den), other, Find(ps, other));
  }

  lemma QtyAfterSplit(ps: seq<Pos>, symbol: Symbol, num: int, den: int)
    requires num > 0 && den > 0 && OnGrid(QtyOf(ps, symbol) * num, den)
    ensures QtyOf(SplitRow(ps, symbol, num, den), symbol) == QtyOf(ps, symbol) * num / den
  {
    hide SplitPos, Basis, Abs;
    var i := Find(ps, symbol);
    if i < |ps| {
      SplitBasis(ps[i], num, den);
      SplitKeepsSymbol(ps[i], num, den);
    }
    hide OnGrid;
    FindIs(SplitRow(ps, symbol, num, den), symbol, i);
    DivUnique(0, den, 0);
  }

  lemma SplitKeepsSymbol(p: Pos, num: int, den: int)
    requires num > 0 && den > 0
    ensures SplitPos(p, num, den).symbol == p.symbol
  {
  }

  /** A position is the sum of its signed fills, scaled by its splits. */
  lemma {:induction false} PositionsAreTheirFills(b: Book, events: seq<Event>, symbol: Symbol)
    requires SoundRun(b, events)
    ensures QtyOf(Run(b, events).positions, symbol) == NetShares(QtyOf(b.positions, symbol), events, symbol)
    decreases |events|
  {
    hide Repositioned, Booked, Posted, SplitRow, QtyOf;
    if events != [] {
      var e := events[0];
      match e {
        case Fill(s, side, qty, price, fee) =>
          BookedPositions(b, s, side, qty, price, fee);
          QtyAfterFill(b.positions, s, side, qty, price, fee, symbol);
        case Cash(kind, amount) =>
          PostedKeepsPositions(b, kind, amount);
        case Split(s, num, den) =>
          if s == symbol {
            QtyAfterSplit(b.positions, s, num, den);
          } else {
            OtherAfterSplit(b.positions, s, num, den, symbol);
          }
      }
      PositionsAreTheirFills(Apply(b, e), events[1..], symbol);
    }
  }

  // ------------------------------------------------------------------ whole runs

  lemma {:induction false} RunKeeps(b: Book, events: seq<Event>)
    requires Kept(b) && SoundRun(b, events)
    ensures Kept(Run(b, events))
    ensures 2 * Abs(CostError(Run(b, events)) - CostError(b)) <= Drift(b, events)
    decreases |events|
  {
    hide Kept, CostError, Rerounded, Sound, Apply;
    if events != [] {
      Step(b, events[0]);
      RunKeeps(Apply(b, events[0]), events[1..]);
    }
  }

  /** A run of events is its first part, and then the rest from where that leaves the books. */
  lemma {:induction false} RunSplit(b: Book, first: seq<Event>, rest: seq<Event>)
    requires SoundRun(b, first + rest)
    ensures SoundRun(b, first) && SoundRun(Run(b, first), rest) && Run(b, first + rest) == Run(Run(b, first), rest)
    decreases |first|
  {
    hide Sound, Apply;
    if first == [] {
      assert first + rest == rest;
    } else {
      assert (first + rest)[1..] == first[1..] + rest;
      RunSplit(Apply(b, first[0]), first[1..], rest);
    }
  }

  /** Main result: in any sound run every fill moves its stock's row as `FillMoves` says: a close realises price
      less cost on the shares closed and leaves the cost of the rest, a flip reopens at the price, an addition
      realises nothing. */
  lemma EveryFillMoves(b: Book, events: seq<Event>, k: nat)
    requires SoundRun(b, events) && k < |events| && events[k].Fill?
    ensures SoundRun(b, events[..k]) && SoundRun(b, events[..k + 1])
    ensures var e := events[k];
      var p, q := RowFor(Run(b, events[..k]).positions, e.symbol), RowFor(Run(b, events[..k + 1]).positions, e.symbol);
      FillMoves(p, q, e.side, e.qty, e.price)
  {
    hide Booked, Repositioned, FillMoves, RowFor, Apply;
    assert events == events[..k] + events[k..] && events == events[..k + 1] + events[k + 1..];
    RunSplit(b, events[..k], events[k..]);
    var e, b1 := events[k], Run(b, events[..k]);
    RunSplit(b, events[..k + 1], events[k + 1..]);
    assert events[..k + 1] == events[..k] + [e] && [e][1..] == [];
    RunSplit(b, events[..k], [e]);
    assert Run(b, events[..k + 1]) == Apply(b1, e);
    FillApplied(b1, e);
    FillMovesItsRow(b1.positions, e.symbol, e.side, e.qty, e.price, e.fee, e.symbol);
  }

  lemma FillApplied(b: Book, e: Event)
    requires e.Fill? && Sound(b, e)
    ensures e.qty > 0 && Apply(b, e).positions == Repositioned(b.positions, e.symbol, e.side, e.qty, e.price, e.fee)
  {
    hide Repositioned, Booked;
    BookedPositions(b, e.symbol, e.side, e.qty, e.price, e.fee);
  }

  lemma OpeningKept(capital: int)
    ensures Kept(OpeningBook(capital)) && CostError(OpeningBook(capital)) == 0
  {
    hide RoundDiv;
    var rows := OpeningBook(capital).rows;
    MultipleOnGrid(RoundDiv(capital, MICROS_PER_PAISA), MICROS_PER_PAISA);
    TotalsAppend([], rows[0]);
    assert [] + [rows[0]] == rows && rows[..1] == rows;
  }

  /** Main result. From an account opened with any capital, through any sound run of events and at any
      marks: cash is the ledger, balances are prefix sums, and equity is what was paid in plus realised
      plus unrealised P&L, to within half a micro-rupee per share re-averaged along the way. */
  lemma Reconciles(capital: int, events: seq<Event>, marks: Marks, rules: MarginRules)
    requires SoundRun(OpeningBook(capital), events)
    ensures var b := Run(OpeningBook(capital), events);
            var v := Valued(b, marks, rules);
            && b.cash == RowTotal(b.rows)
            && (forall i | 0 <= i < |b.rows| :: b.rows[i].balance == RowTotal(b.rows[..i + 1]))
            && 2 * Abs(v.equity - (NonTradeTotal(b.rows) + v.realised + v.unrealised))
               <= Drift(OpeningBook(capital), events)
  {
    hide Valued, Run, Drift, RoundDiv;
    var opening := OpeningBook(capital);
    OpeningKept(capital);
    RunKeeps(opening, events);
    GapIsCostError(Run(opening, events), marks, rules);
  }
}
