/** Sums over position rows and over ledger rows, and how one changed row changes them. */
module Totals {
  import opened Money
  import opened Fees
  import opened Books

  function SumBy(f: Pos -> int, ps: seq<Pos>): int {
    if ps == [] then 0 else f(ps[0]) + SumBy(f, ps[1..])
  }

  lemma {:induction false} SumByAppend(f: Pos -> int, ps: seq<Pos>, p: Pos)
    ensures SumBy(f, ps + [p]) == SumBy(f, ps) + f(p)
  {
    if ps == [] {
      assert ps + [p] == [p];
    } else {
      assert (ps + [p])[1..] == ps[1..] + [p];
      SumByAppend(f, ps[1..], p);
    }
  }

  lemma {:induction false} SumByUpdate(f: Pos -> int, ps: seq<Pos>, i: nat, p: Pos)
    requires i < |ps|
    ensures SumBy(f, ps[i := p]) == SumBy(f, ps) - f(ps[i]) + f(p)
  {
    if i == 0 {
      assert ps[0 := p][1..] == ps[1..];
    } else {
      assert ps[i := p][1..] == ps[1..][i - 1 := p];
      SumByUpdate(f, ps[1..], i - 1, p);
    }
  }

  lemma {:induction false} SumByLinear(f: Pos -> int, g: Pos -> int, h: Pos -> int, ps: seq<Pos>)
    requires forall p | p in ps :: f(p) == g(p) + h(p)
    ensures SumBy(f, ps) == SumBy(g, ps) + SumBy(h, ps)
  {
    if ps != [] {
      SumByLinear(f, g, h, ps[1..]);
    }
  }

  lemma {:induction false} SumBySame(f: Pos -> int, g: Pos -> int, ps: seq<Pos>)
    requires forall p :: f(p) == g(p)
    ensures SumBy(f, ps) == SumBy(g, ps)
  {
    if ps != [] {
      SumBySame(f, g, ps[1..]);
    }
  }

  lemma {:induction false} SumByNonnegative(f: Pos -> int, ps: seq<Pos>)
    requires forall p | p in ps :: f(p) >= 0
    ensures SumBy(f, ps) >= 0
    ensures forall p | p in ps :: f(p) <= SumBy(f, ps)
  {
    if ps != [] {
      SumByNonnegative(f, ps[1..]);
      forall p | p in ps
        ensures f(p) <= SumBy(f, ps)
      {
        if p != ps[0] { assert p in ps[1..]; }
      }
    }
  }

  /** The row a fill in `symbol` will change: the team's own, or the flat one about to be added. */
  function RowFor(ps: seq<Pos>, symbol: Symbol): Pos {
    WithRow(ps, symbol)[Find(ps, symbol)]
  }

  /** A fill changes exactly one term of any sum to which a flat row contributes nothing. */
  lemma SumByRepositioned(f: Pos -> int, ps: seq<Pos>, symbol: Symbol, side: Side, qty: nat, price: int, fee: int)
    requires f(Pos(symbol, 0, 0, 0, 0)) == 0
    ensures var i := Find(ps, symbol);
            var qs := Repositioned(ps, symbol, side, qty, price, fee);
            SumBy(f, qs) == SumBy(f, ps) - f(RowFor(ps, symbol)) + f(qs[i])
  {
    var i := Find(ps, symbol);
    SumByAppend(f, ps, Pos(symbol, 0, 0, 0, 0));
    SumByUpdate(f, WithRow(ps, symbol), i, Repositioned(ps, symbol, side, qty, price, fee)[i]);
  }

  /** The row a fill leaves behind: same symbol, quantity moved by the signed fill. */
  lemma FilledRow(ps: seq<Pos>, symbol: Symbol, side: Side, qty: nat, price: int, fee: int)
    ensures var p := Repositioned(ps, symbol, side, qty, price, fee)[Find(ps, symbol)];
            p.symbol == symbol && p.qty == QtyOf(ps, symbol) + side.Sign() * qty
    ensures RowFor(ps, symbol).symbol == symbol && RowFor(ps, symbol).qty == QtyOf(ps, symbol)
  {
    hide RoundDiv;
  }

  /** A fill moves the quantity of its own symbol and of no other. */
  lemma QtyAfterFill(ps: seq<Pos>, symbol: Symbol, side: Side, qty: nat, price: int, fee: int, other: Symbol)
    ensures QtyOf(Repositioned(ps, symbol, side, qty, price, fee), other)
         == QtyOf(ps, other) + if other == symbol then side.Sign() * qty else 0
  {
    hide RoundDiv, Netted;
    FilledRow(ps, symbol, side, qty, price, fee);
    var qs := Repositioned(ps, symbol, side, qty, price, fee);
    var k := Find(ps, other);
    if other == symbol || k < |ps| {
      FindIs(qs, other, k);
    } else {
      FindIs(qs, other, |qs|);
    }
  }

  /** A fill changes one row, as `FillMoves` says, and adds its charges to that row's tally. */
  lemma FillMovesItsRow(ps: seq<Pos>, symbol: Symbol, side: Side, qty: nat, price: int, fee: int, other: Symbol)
    requires qty > 0
    ensures var qs := Repositioned(ps, symbol, side, qty, price, fee);
      var p, q := RowFor(ps, symbol), RowFor(qs, symbol);
      && FillMoves(p, q, side, qty, price)
      && q.feesPaid == Paise(p.feesPaid + fee, 1)
      && q.realised == p.realised + RealisedBy(ps, symbol, side, qty, price)
      && (other != symbol ==> RowFor(qs, other) == RowFor(ps, other))
  {
    hide Netted, Repositioned, FillMoves, RowFor, RealisedBy, RoundDiv, Paise, Find, WithRow;
    var p := RowFor(ps, symbol);
    var n := Netted(p, side, qty, price);
    NettedMoves(p, side, qty, price);
    FilledRowIs(ps, symbol, side, qty, price, fee);
    SameMoves(p, n, side, qty, price, Paise(n.feesPaid + fee, 1));
    if other != symbol { OtherRowStays(ps, symbol, side, qty, price, fee, other); }
  }

  lemma SameMoves(p: Pos, q: Pos, side: Side, qty: nat, price: int, fee: int)
    requires FillMoves(p, q, side, qty, price)
    ensures FillMoves(p, q.(feesPaid := fee), side, qty, price)
  {
  }

  lemma FilledRowIs(ps: seq<Pos>, symbol: Symbol, side: Side, qty: nat, price: int, fee: int)
    ensures var p := RowFor(ps, symbol);
      var n := Netted(p, side, qty, price);
      && RowFor(Repositioned(ps, symbol, side, qty, price, fee), symbol) == n.(feesPaid := Paise(n.feesPaid + fee, 1))
      && RealisedBy(ps, symbol, side, qty, price) == n.realised - p.realised
  {
    RepositionedIs(ps, symbol, side, qty, price, fee);
    FilledRow(ps, symbol, side, qty, price, fee);
    hide Netted, Paise;
    FindIs(Repositioned(ps, symbol, side, qty, price, fee), symbol, Find(ps, symbol));
  }

  lemma OtherRowStays(ps: seq<Pos>, symbol: Symbol, side: Side, qty: nat, price: int, fee: int, other: Symbol)
    requires other != symbol
    ensures RowFor(Repositioned(ps, symbol, side, qty, price, fee), other) == RowFor(ps, other)
  {
    FilledRow(ps, symbol, side, qty, price, fee);
    hide Netted, Paise;
    var qs, k := Repositioned(ps, symbol, side, qty, price, fee), Find(ps, other);
    FindIs(qs, other, if k < |ps| then k else |qs|);
  }

  function RowTotal(rows: seq<Row>): int {
    if rows == [] then 0 else RowTotal(rows[..|rows| - 1]) + rows[|rows| - 1].amount
  }

  function TradeTotal(rows: seq<Row>): int {
    if rows == [] then 0 else
      var last := rows[|rows| - 1];
      TradeTotal(rows[..|rows| - 1]) + (if last.kind.Trade? then last.amount else 0)
  }

  /** Opening capital, dividends, adjustments and research, less charges: every row that is not a trade. */
  function NonTradeTotal(rows: seq<Row>): int {
    if rows == [] then 0 else
      var last := rows[|rows| - 1];
      NonTradeTotal(rows[..|rows| - 1]) + (if last.kind.Trade? then 0 else last.amount)
  }

  lemma TotalsAppend(rows: seq<Row>, r: Row)
    ensures RowTotal(rows + [r]) == RowTotal(rows) + r.amount
    ensures TradeTotal(rows + [r]) == TradeTotal(rows) + (if r.kind.Trade? then r.amount else 0)
    ensures NonTradeTotal(rows + [r]) == NonTradeTotal(rows) + (if r.kind.Trade? then 0 else r.amount)
  {
    assert (rows + [r])[..|rows|] == rows;
  }

  lemma {:induction false} TotalsSplit(rows: seq<Row>)
    ensures RowTotal(rows) == TradeTotal(rows) + NonTradeTotal(rows)
  {
    if rows != [] {
      TotalsSplit(rows[..|rows| - 1]);
    }
  }
}
