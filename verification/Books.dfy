/** A team's books: cash, the append-only ledger, and one signed position per symbol.

    `Book` is the value of the books, with the functions that say what each operation does to it; the
    classes below it update fields in place and are proved to do exactly that.
 */
module Books {
  import opened Money
  import opened Fees

  type Symbol = string

  type Marks = map<Symbol, int>

  /** Signed quantity (negative is short), average cost, realised P&L and charges paid. */
  datatype Pos = Pos(symbol: Symbol, qty: int, avg: int, realised: int, feesPaid: int)

  datatype Kind = Opening | Trade | Fee | BorrowFee | Dividend | Adjustment | Bonus | Research

  datatype Row = Row(kind: Kind, amount: int, balance: int)

  datatype Book = Book(cash: int, rows: seq<Row>, positions: seq<Pos>)

  // ------------------------------------------------------------------ operations

  /** The fill opens or grows a holding of `held` shares. */
  predicate Adds(held: int, side: Side, qty: nat) { held == 0 || (held > 0) == (side.Sign() * qty > 0) }

  /** The position after netting in a fill: growing re-averages the cost, shrinking realises the
      difference and keeps the cost, flipping realises all of it and reopens at the fill price. */
  function Netted(p: Pos, side: Side, qty: nat, price: int): Pos {
    var now := p.qty + side.Sign() * qty;
    var size := Abs(p.qty);
    var gain := if p.qty > 0 then price - p.avg else p.avg - price;
    if Adds(p.qty, side, qty) then
      p.(qty := now, avg := if size + qty == 0 || now == 0 then 0 else RoundDiv(p.avg * size + price * qty, size + qty))
    else if qty <= size then
      p.(qty := now, avg := if now == 0 then 0 else p.avg, realised := p.realised + gain * qty)
    else
      p.(qty := now, avg := price, realised := p.realised + gain * size)
  }

  /** What a fill of at least one share does to a holding, case by case: opening or adding realises nothing and
      averages the costs to the nearest micro-rupee; closing all or part realises price less cost for the shares
      closed, signed by the holding, and leaves the cost of the rest; a flip closes all and reopens at the price. */
  ghost predicate FillMoves(p: Pos, q: Pos, side: Side, qty: nat, price: int) {
    var size, gain := Abs(p.qty), -side.Sign() * (price - p.avg);
    && q.symbol == p.symbol && q.qty == p.qty + side.Sign() * qty
    && (side.Sign() * p.qty >= 0 ==>
      q.realised == p.realised && 2 * Abs(q.avg * (size + qty) - (p.avg * size + price * qty)) <= size + qty)
    && (side.Sign() * p.qty < 0 && qty < size ==> q.realised == p.realised + gain * qty && q.avg == p.avg)
    && (side.Sign() * p.qty < 0 && qty == size ==> q.realised == p.realised + gain * qty && q.avg == 0)
    && (side.Sign() * p.qty < 0 && qty > size ==> q.realised == p.realised + gain * size && q.avg == price)
  }

  lemma NettedMoves(p: Pos, side: Side, qty: nat, price: int)
    requires qty > 0
    ensures FillMoves(p, Netted(p, side, qty, price), side, qty, price)
    ensures Netted(p, side, qty, price).feesPaid == p.feesPaid
  {
    hide RoundDiv;
    if side.Sign() * p.qty >= 0 {
      var size := Abs(p.qty);
      RoundDivNearest(p.avg * size + price * qty, size + qty);
      assert (size + qty) * Netted(p, side, qty, price).avg == Netted(p, side, qty, price).avg * (size + qty);
    }
  }

  /** Index of `symbol`'s row, or the length if there is none. */
  function Find(ps: seq<Pos>, symbol: Symbol): (i: nat)
    ensures i <= |ps|
    ensures i < |ps| ==> ps[i].symbol == symbol
    ensures forall j | 0 <= j < i :: ps[j].symbol != symbol
  {
    if ps == [] then 0 else if ps[0].symbol == symbol then 0 else 1 + Find(ps[1..], symbol)
  }

  function QtyOf(ps: seq<Pos>, symbol: Symbol): int {
    var i := Find(ps, symbol);
    if i < |ps| then ps[i].qty else 0
  }

  /** The positions with a flat row added for `symbol` if it had none. */
  function WithRow(ps: seq<Pos>, symbol: Symbol): (qs: seq<Pos>)
    ensures Find(ps, symbol) < |qs| && qs[Find(ps, symbol)].symbol == symbol
    ensures ps <= qs
  {
    if Find(ps, symbol) < |ps| then ps else ps + [Pos(symbol, 0, 0, 0, 0)]
  }

  function Posted(b: Book, kind: Kind, amount: int): Book {
    var a := Paise(amount, 1);
    var cash := Paise(b.cash + a, 1);
    Book(cash, b.rows + [Row(kind, a, cash)], b.positions)
  }

  function Gross(qty: nat, price: int): int { Paise(price * qty, 1) }

  /** The positions after a fill with charges `fee`. */
  function Repositioned(ps: seq<Pos>, symbol: Symbol, side: Side, qty: nat, price: int, fee: int): (qs: seq<Pos>)
    ensures Find(ps, symbol) < |qs|
  {
    var i := Find(ps, symbol);
    var p := Netted(WithRow(ps, symbol)[i], side, qty, price);
    WithRow(ps, symbol)[i := p.(feesPaid := Paise(p.feesPaid + fee, 1))]
  }

  lemma RepositionedIs(ps: seq<Pos>, symbol: Symbol, side: Side, qty: nat, price: int, fee: int)
    ensures var i, qs := Find(ps, symbol), WithRow(ps, symbol);
      var p := Netted(qs[i], side, qty, price);
      && Repositioned(ps, symbol, side, qty, price, fee) == qs[i := p.(feesPaid := Paise(p.feesPaid + fee, 1))]
      && RealisedBy(ps, symbol, side, qty, price) == p.realised - qs[i].realised
  {
  }

  /** The P&L a fill crystallises. */
  function RealisedBy(ps: seq<Pos>, symbol: Symbol, side: Side, qty: nat, price: int): int {
    var p := WithRow(ps, symbol)[Find(ps, symbol)];
    Netted(p, side, qty, price).realised - p.realised
  }

  /** Cash, positions and ledger after a fill of `qty` at `price` with charges `fee`. */
  function Booked(b: Book, symbol: Symbol, side: Side, qty: nat, price: int, fee: int): Book {
    var b1 := b.(positions := Repositioned(b.positions, symbol, side, qty, price, fee));
    var b2 := Posted(b1, Trade, -side.Sign() * Gross(qty, price));
    if fee > 0 then Posted(b2, Fee, -fee) else b2
  }

  /** `n / d` cut off toward zero. */
  function Truncated(n: int, d: int): int
    requires d > 0
  {
    if n >= 0 then n / d else -(-n / d)
  }

  /** A `num`-for-`den` split of one position: whole shares only, cost scaled the other way. */
  function SplitPos(p: Pos, num: int, den: int): Pos
    requires num > 0 && den > 0
  {
    if p.qty == 0 then p
    else p.(qty := Truncated(p.qty * num, den), avg := RoundDiv(p.avg * den, num))
  }

  function SplitRow(ps: seq<Pos>, symbol: Symbol, num: int, den: int): seq<Pos>
    requires num > 0 && den > 0
  {
    var i := Find(ps, symbol);
    if i < |ps| then ps[i := SplitPos(ps[i], num, den)] else ps
  }

  // ------------------------------------------------------------------ the classes

  class Position {
    const symbol: Symbol
    var qty: int
    var avgCost: int
    var realisedPnl: int
    var feesPaid: int

    constructor (symbol: Symbol)
      ensures Rec() == Pos(symbol, 0, 0, 0, 0)
    {
      this.symbol := symbol;
      qty, avgCost, realisedPnl, feesPaid := 0, 0, 0, 0;
    }

    function Rec(): Pos
      reads this
    {
      Pos(symbol, qty, avgCost, realisedPnl, feesPaid)
    }

    method ApplyDelta(side: Side, qty: nat, price: int) returns (realised: int)
      modifies this
      ensures Rec() == Netted(old(Rec()), side, qty, price)
      ensures realised == realisedPnl - old(realisedPnl)
      ensures qty > 0 ==> FillMoves(old(Rec()), Rec(), side, qty, price)
    {
      if qty > 0 { NettedMoves(Rec(), side, qty, price); }
      hide FillMoves;
      var before := this.qty;
      var delta := side.Sign() * qty;
      realised := 0;
      if before == 0 || (before > 0) == (delta > 0) {
        var total := Abs(before) + qty;
        avgCost := if total != 0 then RoundDiv(avgCost * Abs(before) + price * qty, total) else 0;
      } else if Abs(delta) <= Abs(before) {
        realised := if before > 0 then (price - avgCost) * qty else (avgCost - price) * qty;
      } else {
        var closed := Abs(before);
        realised := if before > 0 then (price - avgCost) * closed else (avgCost - price) * closed;
        avgCost := price;
      }
      this.qty := before + delta;
      if this.qty == 0 {
        avgCost := 0;
      }
      realisedPnl := realisedPnl + realised;
    }
  }

  class Account {
    var cash: int
    var ledger: seq<Row>
    var positions: seq<Position>

    /** Distinct rows for distinct symbols. */
    ghost predicate Valid()
      reads this, positions
    {
      && (forall i, j | 0 <= i < j < |positions| :: positions[i] != positions[j])
      && (forall i, j | 0 <= i < j < |positions| :: positions[i].symbol != positions[j].symbol)
    }

    ghost function Recs(): seq<Pos>
      reads this, positions
    {
      seq(|positions|, i requires 0 <= i < |positions| reads this, positions => positions[i].Rec())
    }

    ghost function Value(): Book
      reads this, positions
    {
      Book(cash, ledger, Recs())
    }

    constructor (capital: int)
      ensures Valid() && positions == []
      ensures Value() == OpeningBook(capital)
    {
      cash := Paise(capital, 1);
      ledger := [Row(Opening, Paise(capital, 1), Paise(capital, 1))];
      positions := [];
    }

    /** Settle an amount into cash and record the new balance; nothing else writes `cash`. */
    method PostLedger(kind: Kind, amount: int)
      requires Valid()
      modifies this`cash, this`ledger
      ensures Valid() && Value() == Posted(old(Value()), kind, amount)
    {
      var a := Paise(amount, 1);
      cash := Paise(cash + a, 1);
      ledger := ledger + [Row(kind, a, cash)];
    }

    method GetPosition(symbol: Symbol) returns (p: Position, ghost i: nat)
      requires Valid()
      modifies this`positions
      ensures Valid() && forall q | q in positions :: q in old(positions) || fresh(q)
      ensures i == Find(old(Recs()), symbol) < |positions| && positions[i] == p && (p in old(positions) || fresh(p))
      ensures Recs() == WithRow(old(Recs()), symbol)
    {
      for k := 0 to |positions|
        invariant forall j | 0 <= j < k :: positions[j].symbol != symbol
      {
        if positions[k].symbol == symbol {
          FindIs(Recs(), symbol, k);
          return positions[k], k;
        }
      }
      FindIs(Recs(), symbol, |positions|);
      p := new Position(symbol);
      i := |positions|;
      positions := positions + [p];
    }

    /** Net a fill into the position and add its charges to the position's tally. */
    method BookPosition(symbol: Symbol, side: Side, qty: nat, price: int, fee: int) returns (realised: int)
      requires Valid()
      modifies this`positions, positions
      ensures Valid() && forall q | q in positions :: q in old(positions) || fresh(q)
      ensures Recs() == Repositioned(old(Recs()), symbol, side, qty, price, fee)
      ensures realised == RealisedBy(old(Recs()), symbol, side, qty, price)
    {
      RepositionedIs(Recs(), symbol, side, qty, price, fee);
      hide RoundDiv, Netted, Paise, Repositioned, RealisedBy, WithRow, Find;
      var p, i := GetPosition(symbol);
      ghost var ps, before := Recs(), p.Rec();
      assert ps[i] == before;
      realised := p.ApplyDelta(side, qty, price);
      p.feesPaid := Paise(p.feesPaid + fee, 1);
      assert Recs() == ps[i := p.Rec()];
    }

    /** The books' half of booking a fill: position, charges, ledger and cash move together. */
    method BookFill(symbol: Symbol, side: Side, qty: nat, price: int, fee: int) returns (realised: int)
      requires Valid()
      modifies this, positions
      ensures Valid() && forall q | q in positions :: q in old(positions) || fresh(q)
      ensures Value() == Booked(old(Value()), symbol, side, qty, price, fee)
      ensures realised == RealisedBy(old(Recs()), symbol, side, qty, price)
    {
      hide RoundDiv, Repositioned, RealisedBy;
      var gross := Gross(qty, price);
      realised := BookPosition(symbol, side, qty, price, fee);
      PostLedger(Trade, if side.Buy? then -gross else gross);
      if fee > 0 {
        PostLedger(Fee, -fee);
      }
    }
  }

  function OpeningBook(capital: int): Book {
    Book(Paise(capital, 1), [Row(Opening, Paise(capital, 1), Paise(capital, 1))], [])
  }

  lemma FindIs(ps: seq<Pos>, symbol: Symbol, i: nat)
    requires i <= |ps| && (i < |ps| ==> ps[i].symbol == symbol)
    requires forall j | 0 <= j < i :: ps[j].symbol != symbol
    ensures Find(ps, symbol) == i
  {
  }
}
