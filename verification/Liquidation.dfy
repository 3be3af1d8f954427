/** Which shorts a margin call buys back, and how many of each: worst loser first, and no share more
    than it takes.
 */
module Liquidation {
  import opened Money
  import opened Fees
  import opened Books
  import opened Totals
  import opened Risk

  datatype Leg = Leg(symbol: Symbol, qty: int, loss: int)

  // ------------------------------------------------------------------ worst loser first

  predicate PricedShort(marks: Marks, p: Pos) { p.qty < 0 && p.symbol in marks }

  function Loss(marks: Marks, p: Pos): int
    requires PricedShort(marks, p)
  {
    (marks[p.symbol] - p.avg) * -p.qty
  }

  predicate PricedShorts(marks: Marks, ps: seq<Pos>) { forall i | 0 <= i < |ps| :: PricedShort(marks, ps[i]) }

  /** `p` ahead of the first row that has lost no more than it. */
  function Insert(marks: Marks, p: Pos, ps: seq<Pos>): (qs: seq<Pos>)
    requires PricedShort(marks, p) && PricedShorts(marks, ps)
    ensures PricedShorts(marks, qs)
  {
    if ps == [] || Loss(marks, p) >= Loss(marks, ps[0]) then [p] + ps
    else [ps[0]] + Insert(marks, p, ps[1..])
  }

  /** The shorts that have a price, by descending loss, ties in row order. */
  function SortedShorts(marks: Marks, ps: seq<Pos>): (qs: seq<Pos>)
    ensures PricedShorts(marks, qs)
  {
    if ps == [] then []
    else if PricedShort(marks, ps[0]) then Insert(marks, ps[0], SortedShorts(marks, ps[1..]))
    else SortedShorts(marks, ps[1..])
  }

  ghost predicate Descending(marks: Marks, ps: seq<Pos>)
    requires PricedShorts(marks, ps)
  {
    forall i, j | 0 <= i < j < |ps| :: Loss(marks, ps[i]) >= Loss(marks, ps[j])
  }

  ghost predicate DistinctSymbols(ps: seq<Pos>) {
    forall i, j | 0 <= i < j < |ps| :: ps[i].symbol != ps[j].symbol
  }

  lemma {:induction false} InsertMembers(marks: Marks, p: Pos, ps: seq<Pos>)
    requires PricedShort(marks, p) && PricedShorts(marks, ps)
    ensures multiset(Insert(marks, p, ps)) == multiset(ps) + multiset{p}
  {
    hide Loss;
    if ps != [] && Loss(marks, p) < Loss(marks, ps[0]) {
      InsertMembers(marks, p, ps[1..]);
      assert ps == [ps[0]] + ps[1..];
    }
  }

  lemma {:induction false} InsertDescending(marks: Marks, p: Pos, ps: seq<Pos>)
    requires PricedShort(marks, p) && PricedShorts(marks, ps) && Descending(marks, ps)
    ensures Descending(marks, Insert(marks, p, ps))
  {
    hide Loss;
    if ps != [] && Loss(marks, p) < Loss(marks, ps[0]) {
      var rest := Insert(marks, p, ps[1..]);
      InsertDescending(marks, p, ps[1..]);
      InsertMembers(marks, p, ps[1..]);
      forall j | 0 <= j < |rest|
        ensures Loss(marks, ps[0]) >= Loss(marks, rest[j])
      {
        assert rest[j] in multiset(rest);
        assert rest[j] == p || rest[j] in ps[1..];
      }
    }
  }

  /** The sort is a permutation of the priced shorts, by rising unrealised P&L, so worst loser first, and rows that
      have lost the same stay in the order of the book. */
  lemma SortedShortsAreTheShorts(marks: Marks, ps: seq<Pos>, unrealised: int)
    ensures var qs := SortedShorts(marks, ps);
      && (forall p :: multiset(qs)[p] == if p.qty < 0 && p.symbol in marks then multiset(ps)[p] else 0)
      && (forall i, j | 0 <= i < j < |qs| :: UnrealisedOf(marks)(qs[i]) <= UnrealisedOf(marks)(qs[j]))
      && AtLoss(marks, qs, unrealised) == AtLoss(marks, PricedOnly(marks, ps), unrealised)
  {
    hide Insert, SortedShorts;
    SortedShortsDescend(marks, ps);
    SortedShortsStable(marks, ps, unrealised);
    PricedOnlyCounts(marks, ps);
    var qs := SortedShorts(marks, ps);
    forall i | 0 <= i < |qs|
      ensures UnrealisedOf(marks)(qs[i]) == -Loss(marks, qs[i])
    {
      LossIsUnrealised(marks, qs[i]);
    }
  }

  lemma LossIsUnrealised(marks: Marks, p: Pos)
    requires PricedShort(marks, p)
    ensures UnrealisedOf(marks)(p) == -Loss(marks, p)
  {
    var x, n := marks[p.symbol] - p.avg, -p.qty;
    assert -x * n == -(x * n);
  }

  /** The rows with a given unrealised P&L, in their order. */
  function AtLoss(marks: Marks, ps: seq<Pos>, unrealised: int): seq<Pos> {
    if ps == [] then []
    else (if UnrealisedOf(marks)(ps[0]) == unrealised then [ps[0]] else []) + AtLoss(marks, ps[1..], unrealised)
  }

  lemma {:induction false} InsertStable(marks: Marks, p: Pos, ps: seq<Pos>, unrealised: int)
    requires PricedShort(marks, p) && PricedShorts(marks, ps)
    ensures AtLoss(marks, Insert(marks, p, ps), unrealised) == AtLoss(marks, [p] + ps, unrealised)
  {
    hide Loss, UnrealisedOf;
    assert ([p] + ps)[1..] == ps;
    if ps != [] && Loss(marks, p) < Loss(marks, ps[0]) {
      LossIsUnrealised(marks, p);
      LossIsUnrealised(marks, ps[0]);
      InsertStable(marks, p, ps[1..], unrealised);
      var rest := Insert(marks, p, ps[1..]);
      assert ([ps[0]] + rest)[1..] == rest && ([p] + ps[1..])[1..] == ps[1..];
    }
  }

  lemma {:induction false} SortedShortsStable(marks: Marks, ps: seq<Pos>, unrealised: int)
    ensures AtLoss(marks, SortedShorts(marks, ps), unrealised) == AtLoss(marks, PricedOnly(marks, ps), unrealised)
  {
    hide Loss, UnrealisedOf, Insert;
    if ps != [] {
      SortedShortsStable(marks, ps[1..], unrealised);
      if PricedShort(marks, ps[0]) {
        var sorted, rest := SortedShorts(marks, ps[1..]), PricedOnly(marks, ps[1..]);
        InsertStable(marks, ps[0], sorted, unrealised);
        assert ([ps[0]] + sorted)[1..] == sorted && ([ps[0]] + rest)[1..] == rest;
      }
    }
  }

  lemma {:induction false} SortedShortsDescend(marks: Marks, ps: seq<Pos>)
    ensures Descending(marks, SortedShorts(marks, ps))
    ensures multiset(SortedShorts(marks, ps)) == multiset(PricedOnly(marks, ps))
  {
    hide Loss, Insert;
    if ps != [] {
      SortedShortsDescend(marks, ps[1..]);
      if PricedShort(marks, ps[0]) {
        InsertMembers(marks, ps[0], SortedShorts(marks, ps[1..]));
        InsertDescending(marks, ps[0], SortedShorts(marks, ps[1..]));
      }
    }
  }

  function PricedOnly(marks: Marks, ps: seq<Pos>): seq<Pos> {
    if ps == [] then []
    else if PricedShort(marks, ps[0]) then [ps[0]] + PricedOnly(marks, ps[1..])
    else PricedOnly(marks, ps[1..])
  }

  lemma {:induction false} PricedOnlyCounts(marks: Marks, ps: seq<Pos>)
    ensures forall p :: multiset(PricedOnly(marks, ps))[p] == if PricedShort(marks, p) then multiset(ps)[p] else 0
  {
    if ps != [] {
      PricedOnlyCounts(marks, ps[1..]);
      assert ps == [ps[0]] + ps[1..];
    }
  }

  // ------------------------------------------------------------------ the plan

  function CeilDiv(n: int, d: int): int
    requires d > 0
  {
    (n + d - 1) / d
  }

  /** Legs for the remaining rows, given the short value still open. `target` is in millionths of a per cent. */
  function PlanFrom(shorts: seq<Pos>, marks: Marks, equity: int, short: int, target: int): seq<Leg>
    requires target > 0 && PricedShorts(marks, shorts)
  {
    if shorts == [] || short <= 0 || equity * PERCENT >= target * short then []
    else
      var p := shorts[0];
      var mark := marks[p.symbol];
      if mark <= 0 then PlanFrom(shorts[1..], marks, equity, short, target)
      else
        var take := Take(p, mark, equity, short, target);
        [Leg(p.symbol, take, Loss(marks, p))] + PlanFrom(shorts[1..], marks, equity, short - mark * take, target)
  }

  /** Shares of one short to buy back: those it takes to reach the target, or all there are. */
  function Take(p: Pos, mark: int, equity: int, short: int, target: int): int
    requires mark > 0 && target > 0
  {
    var needed := CeilDiv(target * short - equity * PERCENT, target * mark);
    Max(1, Min(-p.qty, needed))
  }

  function Plan(v: Valuation, ps: seq<Pos>, marks: Marks, target: int): seq<Leg>
    requires target > 0
  {
    PlanFrom(SortedShorts(marks, ps), marks, v.equity, v.shortMv, target)
  }

  method LiquidationPlan(v: Valuation, positions: seq<Pos>, marks: Marks, rules: MarginRules) returns (legs: seq<Leg>)
    requires rules.liquidateTo > 0
    ensures legs == Plan(v, positions, marks, rules.liquidateTo)
  {
    hide Loss, Take, CeilDiv;
    var target := rules.liquidateTo;
    var shorts := SortedShorts(marks, positions);
    if shorts == [] {
      return [];
    }
    var equity, shortMv := v.equity, v.shortMv;
    legs := [];
    ghost var whole := PlanFrom(shorts, marks, equity, shortMv, target);
    for i := 0 to |shorts|
      invariant PricedShorts(marks, shorts[i..])
      invariant legs + PlanFrom(shorts[i..], marks, equity, shortMv, target) == whole
    {
      assert shorts[i..][1..] == shorts[i + 1..];
      var position := shorts[i];
      if shortMv <= 0 || equity * PERCENT >= target * shortMv {
        return;
      }
      var mark := marks[position.symbol];
      if mark <= 0 {
        continue;
      }
      var take := Take(position, mark, equity, shortMv, target);
      legs := legs + [Leg(position.symbol, take, Loss(marks, position))];
      shortMv := shortMv - mark * take;
    }
  }

  // ------------------------------------------------------------------ exactness

  /** The shorts a plan can act on: those with a positive price. */
  function Coverable(marks: Marks, ps: seq<Pos>): (qs: seq<Pos>)
    requires PricedShorts(marks, ps)
    ensures PricedShorts(marks, qs) && forall i | 0 <= i < |qs| :: marks[qs[i].symbol] > 0
  {
    if ps == [] then []
    else if marks[ps[0].symbol] > 0 then [ps[0]] + Coverable(marks, ps[1..])
    else Coverable(marks, ps[1..])
  }

  function Worth(marks: Marks, ps: seq<Pos>): int
    requires PricedShorts(marks, ps)
  {
    if ps == [] then 0 else marks[ps[0].symbol] * -ps[0].qty + Worth(marks, ps[1..])
  }

  /** Value at the marks of the shares a plan buys back. */
  function Covered(marks: Marks, legs: seq<Leg>): int {
    if legs == [] then 0
    else (if legs[0].symbol in marks then marks[legs[0].symbol] * legs[0].qty else 0) + Covered(marks, legs[1..])
  }

  /** Legs `legs` buy back rows `rows` in order: every row but the last in full, none beyond its size. */
  ghost predicate Follows(legs: seq<Leg>, rows: seq<Pos>) {
    && |legs| <= |rows|
    && (forall i | 0 <= i < |legs| :: legs[i].symbol == rows[i].symbol && 1 <= legs[i].qty <= -rows[i].qty)
    && (forall i | 0 <= i < |legs| - 1 :: legs[i].qty == -rows[i].qty)
  }

  lemma TakeBounds(p: Pos, mark: int, equity: int, short: int, target: int)
    requires mark > 0 && target > 0 && p.qty < 0 && equity * PERCENT < target * short
    ensures var take := Take(p, mark, equity, short, target);
      && 1 <= take <= -p.qty
      && equity * PERCENT < target * (short - mark * (take - 1))
      && (take < -p.qty ==> equity * PERCENT >= target * (short - mark * take))
  {
    var gap, unit := target * short - equity * PERCENT, target * mark;
    var needed := CeilDiv(gap, unit);
    DivBounds(gap + unit - 1, unit);
    assert unit * needed >= gap > unit * (needed - 1) by { assert unit * (needed - 1) == unit * needed - unit; }
    if needed < 1 { MulMono(unit, needed, 0); }
    var take := Take(p, mark, equity, short, target);
    MulMono(unit, take - 1, needed - 1);
    TakeDistributes(target, short, mark, take);
    TakeDistributes(target, short, mark, take - 1);
  }

  lemma TakeDistributes(target: int, short: int, mark: int, take: int)
    ensures target * (short - mark * take) == target * short - target * mark * take
  {
  }

  /** The legs follow the coverable rows in order; short of the target, they take all of them whole. */
  lemma {:induction false} PlanFollows(shorts: seq<Pos>, marks: Marks, equity: int, short: int, target: int)
    requires target > 0 && PricedShorts(marks, shorts) && short >= Worth(marks, Coverable(marks, shorts))
    ensures var legs := PlanFrom(shorts, marks, equity, short, target);
      var rows := Coverable(marks, shorts);
      && Follows(legs, rows)
      && (equity * PERCENT < target * (short - Covered(marks, legs)) ==> Whole(legs, rows))
  {
    hide Loss, Take, Follows, Whole, Covered;
    var legs := PlanFrom(shorts, marks, equity, short, target);
    var rows := Coverable(marks, shorts);
    FollowsNone(rows);
    CoveredNone(marks);
    if shorts == [] || equity * PERCENT >= target * short {
    } else if short <= 0 {
      WorthPositive(marks, rows);
      assert rows == [];
    } else if marks[shorts[0].symbol] <= 0 {
      PlanFollows(shorts[1..], marks, equity, short, target);
    } else {
      var p := shorts[0];
      var mark := marks[p.symbol];
      var take := Take(p, mark, equity, short, target);
      TakeBounds(p, mark, equity, short, target);
      MulMono(mark, take, -p.qty);
      var more := Coverable(marks, shorts[1..]);
      assert rows == [p] + more;
      PlanFollows(shorts[1..], marks, equity, short - mark * take, target);
      var rest := PlanFrom(shorts[1..], marks, equity, short - mark * take, target);
      assert take < -p.qty ==> rest == [];
      CoveredCons(marks, Leg(p.symbol, take, Loss(marks, p)), rest);
      FollowsCons(Leg(p.symbol, take, Loss(marks, p)), rest, p, more);
      if rest == [] { FollowsNone(more); }
    }
  }

  /** Each leg records what its short has lost. */
  lemma {:induction false} LegsRecordLosses(shorts: seq<Pos>, marks: Marks, equity: int, short: int, target: int)
    requires target > 0 && PricedShorts(marks, shorts)
    ensures var legs, rows := PlanFrom(shorts, marks, equity, short, target), Coverable(marks, shorts);
      |legs| <= |rows| && forall i | 0 <= i < |legs| :: legs[i].loss == -UnrealisedOf(marks)(rows[i])
  {
    hide Loss, Take, UnrealisedOf;
    if shorts != [] && short > 0 && equity * PERCENT < target * short {
      var p := shorts[0];
      var mark := marks[p.symbol];
      if mark <= 0 {
        LegsRecordLosses(shorts[1..], marks, equity, short, target);
      } else {
        LossIsUnrealised(marks, p);
        LegsRecordLosses(shorts[1..], marks, equity, short - mark * Take(p, mark, equity, short, target), target);
      }
    }
  }

  ghost predicate Whole(legs: seq<Leg>, rows: seq<Pos>) {
    |legs| == |rows| && forall i | 0 <= i < |legs| :: legs[i].qty == -rows[i].qty
  }

  lemma CoveredNone(marks: Marks)
    ensures Covered(marks, []) == 0
  {
  }

  lemma CoveredCons(marks: Marks, leg: Leg, legs: seq<Leg>)
    requires leg.symbol in marks
    ensures Covered(marks, [leg] + legs) == marks[leg.symbol] * leg.qty + Covered(marks, legs)
  {
    var all := [leg] + legs;
    assert all[0] == leg && all[1..] == legs;
  }

  lemma FollowsNone(rows: seq<Pos>)
    ensures Follows([], rows) && (rows == [] <==> Whole([], rows))
  {
  }

  lemma FollowsCons(leg: Leg, legs: seq<Leg>, p: Pos, rows: seq<Pos>)
    requires Follows(legs, rows) && leg.symbol == p.symbol && 1 <= leg.qty <= -p.qty
    requires leg.qty == -p.qty || legs == []
    ensures Follows([leg] + legs, [p] + rows)
    ensures Whole(legs, rows) && leg.qty == -p.qty <==> Whole([leg] + legs, [p] + rows)
  {
    var ls, ps := [leg] + legs, [p] + rows;
    forall i | 0 <= i < |ls|
      ensures ls[i] == (if i == 0 then leg else legs[i - 1]) && ps[i] == (if i == 0 then p else rows[i - 1])
    {
    }
    if Whole(ls, ps) {
      assert ls[0] == leg;
      forall i | 0 <= i < |legs|
        ensures legs[i].qty == -rows[i].qty
      {
        assert ls[i + 1].qty == -ps[i + 1].qty;
      }
    }
  }

  /** No share more than it takes: had the last leg been one share shorter, the target would be missed. */
  lemma {:induction false} PlanIsMinimal(shorts: seq<Pos>, marks: Marks, equity: int, short: int, target: int)
    requires target > 0 && PricedShorts(marks, shorts)
    ensures var legs := PlanFrom(shorts, marks, equity, short, target);
      legs != [] ==>
        var last := legs[|legs| - 1];
        last.symbol in marks && equity * PERCENT < target * (short - Covered(marks, legs) + marks[last.symbol])
  {
    hide Loss, Take;
    var legs := PlanFrom(shorts, marks, equity, short, target);
    if shorts != [] && short > 0 && equity * PERCENT < target * short {
      var p := shorts[0];
      var mark := marks[p.symbol];
      if mark <= 0 {
        PlanIsMinimal(shorts[1..], marks, equity, short, target);
      } else {
        var take := Take(p, mark, equity, short, target);
        var rest := PlanFrom(shorts[1..], marks, equity, short - mark * take, target);
        TakeBounds(p, mark, equity, short, target);
        PlanIsMinimal(shorts[1..], marks, equity, short - mark * take, target);
        assert legs == [Leg(p.symbol, take, Loss(marks, p))] + rest;
        assert legs[1..] == rest;
        if rest == [] {
          assert mark * (take - 1) == mark * take - mark;
        } else {
          assert legs[|legs| - 1] == rest[|rest| - 1];
        }
      }
    }
  }

  lemma {:induction false} WorthPositive(marks: Marks, rows: seq<Pos>)
    requires PricedShorts(marks, rows) && forall i | 0 <= i < |rows| :: marks[rows[i].symbol] > 0
    ensures Worth(marks, rows) >= |rows|
  {
    if rows != [] {
      WorthPositive(marks, rows[1..]);
      MulMono(marks[rows[0].symbol], 1, -rows[0].qty);
    }
  }

  // ------------------------------------------------------------------ executing a plan

  lemma {:induction false} InsertDistinct(marks: Marks, p: Pos, ps: seq<Pos>)
    requires PricedShort(marks, p) && PricedShorts(marks, ps) && DistinctSymbols(ps)
    requires forall i | 0 <= i < |ps| :: ps[i].symbol != p.symbol
    ensures DistinctSymbols(Insert(marks, p, ps))
  {
    hide Loss;
    if ps != [] && Loss(marks, p) < Loss(marks, ps[0]) {
      var rest := Insert(marks, p, ps[1..]);
      InsertDistinct(marks, p, ps[1..]);
      InsertMembers(marks, p, ps[1..]);
      forall j | 0 <= j < |rest|
        ensures rest[j].symbol != ps[0].symbol
      {
        assert rest[j] in multiset(rest);
        assert rest[j] == p || rest[j] in ps[1..];
      }
    }
  }

  lemma {:induction false} SortedShortsMembers(marks: Marks, ps: seq<Pos>)
    ensures forall i | 0 <= i < |SortedShorts(marks, ps)| :: SortedShorts(marks, ps)[i] in ps
  {
    hide Loss, Insert;
    if ps != [] {
      SortedShortsMembers(marks, ps[1..]);
      if PricedShort(marks, ps[0]) {
        var rest, all := SortedShorts(marks, ps[1..]), SortedShorts(marks, ps);
        InsertMembers(marks, ps[0], rest);
        forall i | 0 <= i < |all|
          ensures all[i] in ps
        {
          assert all[i] in multiset(all);
          assert all[i] == ps[0] || all[i] in rest;
        }
      }
    }
  }

  lemma {:induction false} SortedShortsDistinct(marks: Marks, ps: seq<Pos>)
    requires DistinctSymbols(ps)
    ensures DistinctSymbols(SortedShorts(marks, ps))
  {
    hide Loss, Insert;
    if ps != [] {
      assert forall i | 0 <= i < |ps[1..]| :: ps[1..][i] == ps[i + 1];
      SortedShortsDistinct(marks, ps[1..]);
      if PricedShort(marks, ps[0]) {
        var rest := SortedShorts(marks, ps[1..]);
        SortedShortsMembers(marks, ps[1..]);
        forall i | 0 <= i < |rest|
          ensures rest[i].symbol != ps[0].symbol
        {
          assert rest[i] in ps[1..];
        }
        InsertDistinct(marks, ps[0], rest);
      }
    }
  }

  /** With every short priced, the sorted shorts are worth the book's short value. */
  lemma {:induction false} SortedShortsWorth(marks: Marks, ps: seq<Pos>)
    requires forall p | p in ps && p.qty < 0 :: p.symbol in marks
    ensures Worth(marks, SortedShorts(marks, ps)) == SumBy(ShortValue(marks), ps)
  {
    hide Loss, Insert, Worth;
    if ps == [] {
      WorthNone(marks);
    } else {
      assert forall p | p in ps[1..] :: p in ps;
      SortedShortsWorth(marks, ps[1..]);
      if PricedShort(marks, ps[0]) {
        WorthInsert(marks, ps[0], SortedShorts(marks, ps[1..]));
      } else {
        assert ps[0] in ps;
      }
    }
  }

  /** The rows a plan can act on are worth at most the book's short value, which also counts, at cost, the
      shorts that have no price. */
  lemma {:induction false} CoverableWorth(marks: Marks, ps: seq<Pos>)
    requires forall p | p in ps && p.qty < 0 :: MarkOf(marks, p) >= 0
    ensures Worth(marks, SortedShorts(marks, ps)) <= SumBy(ShortValue(marks), ps)
  {
    hide Loss, Insert, Worth;
    if ps == [] {
      WorthNone(marks);
    } else {
      assert forall p | p in ps[1..] :: p in ps;
      CoverableWorth(marks, ps[1..]);
      if PricedShort(marks, ps[0]) {
        WorthInsert(marks, ps[0], SortedShorts(marks, ps[1..]));
      } else if ps[0].qty < 0 {
        MulMono(-ps[0].qty, 0, MarkOf(marks, ps[0]));
      }
    }
  }

  lemma {:induction false} WorthOfCoverable(marks: Marks, ps: seq<Pos>)
    requires PricedShorts(marks, ps) && forall i | 0 <= i < |ps| :: marks[ps[i].symbol] >= 0
    ensures Worth(marks, Coverable(marks, ps)) == Worth(marks, ps)
  {
    if ps != [] {
      WorthOfCoverable(marks, ps[1..]);
      if marks[ps[0].symbol] > 0 {
        assert ([ps[0]] + Coverable(marks, ps[1..]))[1..] == Coverable(marks, ps[1..]);
      }
    }
  }

  /** Main result. On any book, with shorts that have no price and stocks that are worth nothing among them, the
      plan's legs follow the coverable shorts by descending loss, which they record, all but the last whole and none
      beyond its size; and if the target is still missed, every coverable short has been covered whole. */
  lemma PlanOnBook(b: Book, marks: Marks, rules: MarginRules)
    requires rules.liquidateTo > 0 && forall p | p in b.positions && p.qty < 0 :: MarkOf(marks, p) >= 0
    ensures var v, rows := Valued(b, marks, rules), Coverable(marks, SortedShorts(marks, b.positions));
      var legs := Plan(v, b.positions, marks, rules.liquidateTo);
      && Follows(legs, rows)
      && (forall i | 0 <= i < |legs| :: legs[i].loss == -UnrealisedOf(marks)(rows[i]))
      && (v.equity * PERCENT < rules.liquidateTo * (v.shortMv - Covered(marks, legs)) ==> Whole(legs, rows))
  {
    hide RoundDiv, Loss, Insert, Worth, SumBy, Available, Follows, Whole, Covered;
    var v, shorts := Valued(b, marks, rules), SortedShorts(marks, b.positions);
    SortedShortsMembers(marks, b.positions);
    CoverableWorth(marks, b.positions);
    forall i | 0 <= i < |shorts|
      ensures marks[shorts[i].symbol] >= 0
    {
      assert shorts[i] in b.positions;
    }
    WorthOfCoverable(marks, shorts);
    PlanFollows(shorts, marks, v.equity, v.shortMv, rules.liquidateTo);
    LegsRecordLosses(shorts, marks, v.equity, v.shortMv, rules.liquidateTo);
  }

  lemma WorthNone(marks: Marks)
    ensures Worth(marks, []) == 0
  {
  }

  lemma {:induction false} WorthInsert(marks: Marks, p: Pos, ps: seq<Pos>)
    requires PricedShort(marks, p) && PricedShorts(marks, ps)
    ensures Worth(marks, Insert(marks, p, ps)) == marks[p.symbol] * -p.qty + Worth(marks, ps)
  {
    hide Loss;
    if ps == [] || Loss(marks, p) >= Loss(marks, ps[0]) {
      assert ([p] + ps)[1..] == ps;
    } else {
      WorthInsert(marks, p, ps[1..]);
      assert ([ps[0]] + Insert(marks, p, ps[1..]))[1..] == Insert(marks, p, ps[1..]);
    }
  }

  lemma {:induction false} CoverableAll(marks: Marks, ps: seq<Pos>)
    requires PricedShorts(marks, ps) && forall i | 0 <= i < |ps| :: marks[ps[i].symbol] > 0
    ensures Coverable(marks, ps) == ps
  {
    if ps != [] {
      CoverableAll(marks, ps[1..]);
    }
  }

  lemma {:induction false} CoveredWhole(marks: Marks, legs: seq<Leg>, rows: seq<Pos>)
    requires PricedShorts(marks, rows) && Follows(legs, rows) && Whole(legs, rows)
    ensures Covered(marks, legs) == Worth(marks, rows)
  {
    if legs != [] {
      FollowsRest(legs, rows);
      CoveredWhole(marks, legs[1..], rows[1..]);
    }
  }

  lemma FollowsRest(legs: seq<Leg>, rows: seq<Pos>)
    requires Follows(legs, rows) && legs != []
    ensures Follows(legs[1..], rows[1..]) && (Whole(legs, rows) ==> Whole(legs[1..], rows[1..]))
  {
    assert forall i | 0 <= i < |legs| - 1 :: legs[1..][i] == legs[i + 1] && rows[1..][i] == rows[i + 1];
  }

  /** Buy each leg back at its mark, free of charges. */
  function Execute(b: Book, legs: seq<Leg>, marks: Marks): Book
    requires forall i | 0 <= i < |legs| :: legs[i].symbol in marks && legs[i].qty >= 0
    decreases |legs|
  {
    if legs == [] then b
    else Execute(Booked(b, legs[0].symbol, Buy, legs[0].qty, marks[legs[0].symbol], 0), legs[1..], marks)
  }

  /** Every mark is a positive whole number of paise. */
  ghost predicate SoundMarks(marks: Marks) {
    forall s | s in marks :: marks[s] > 0 && OnGrid(marks[s], MICROS_PER_PAISA)
  }

  lemma {:induction false} ExecuteMoves(b: Book, legs: seq<Leg>, rows: seq<Pos>, marks: Marks, rules: MarginRules)
    requires PricedShorts(marks, rows) && Follows(legs, rows) && DistinctSymbols(rows)
    requires forall i | 0 <= i < |rows| :: QtyOf(b.positions, rows[i].symbol) == rows[i].qty
    requires OnGrid(b.cash, MICROS_PER_PAISA) && SoundMarks(marks)
    ensures var v, w := Valued(b, marks, rules), Valued(Execute(b, legs, marks), marks, rules);
      w.equity == v.equity && w.shortMv == v.shortMv - Covered(marks, legs)
    decreases |legs|
  {
    hide RoundDiv, Valued, Booked, QtyOf, Repositioned;
    if legs != [] {
      var s, n := legs[0].symbol, legs[0].qty;
      var b' := Booked(b, s, Buy, n, marks[s], 0);
      FillMovesEquityByTheGap(b, marks, s, Buy, n, marks[s], 0, rules);
      CoverMoves(b, marks, s, n, rules);
      FollowsRest(legs, rows);
      var more := rows[1..];
      forall i | 0 <= i < |more|
        ensures QtyOf(b'.positions, more[i].symbol) == more[i].qty
      {
        assert more[i] == rows[i + 1];
        BookedPositions(b, s, Buy, n, marks[s], 0);
        QtyAfterFill(b.positions, s, Buy, n, marks[s], 0, more[i].symbol);
      }
      assert DistinctSymbols(more) by {
        assert forall i | 0 <= i < |more| :: more[i] == rows[i + 1];
      }
      ExecuteMoves(b', legs[1..], more, marks, rules);
    }
  }

  lemma CoverMoves(b: Book, marks: Marks, symbol: Symbol, qty: nat, rules: MarginRules)
    requires symbol in marks && SoundMarks(marks) && OnGrid(b.cash, MICROS_PER_PAISA)
    requires qty <= -QtyOf(b.positions, symbol)
    ensures var b' := Booked(b, symbol, Buy, qty, marks[symbol], 0);
      && OnGrid(b'.cash, MICROS_PER_PAISA)
      && Valued(b', marks, rules).shortMv == Valued(b, marks, rules).shortMv - marks[symbol] * qty
  {
    hide RoundDiv, Repositioned, QtyOf, Available, Posted;
    BookedCash(b, symbol, Buy, qty, marks[symbol], 0);
    BookedPositions(b, symbol, Buy, qty, marks[symbol], 0);
    ShortAfterFill(b.positions, marks, symbol, Buy, qty, marks[symbol], 0);
    var before, n: int := QtyOf(b.positions, symbol), qty;
    assert Max(0, -(before + n)) - Max(0, -before) == -n;
    assert marks[symbol] * -n == -(marks[symbol] * n);
  }

  lemma FindDistinct(ps: seq<Pos>, i: nat)
    requires DistinctSymbols(ps) && i < |ps|
    ensures Find(ps, ps[i].symbol) == i && QtyOf(ps, ps[i].symbol) == ps[i].qty
  {
    FindIs(ps, ps[i].symbol, i);
  }

  /** Main result. With every short priced and marks positive, buying a plan's legs back at the marks
      leaves equity where it was and, if equity is positive, the account out of every margin state but OK. */
  lemma CoveringRestores(b: Book, marks: Marks, rules: MarginRules)
    requires DistinctSymbols(b.positions) && OnGrid(b.cash, MICROS_PER_PAISA) && SoundMarks(marks)
    requires forall p | p in b.positions && p.qty < 0 :: p.symbol in marks
    requires rules.liquidateTo > 0 && rules.warning <= rules.liquidateTo && rules.maintenance <= rules.liquidateTo
    ensures var v := Valued(b, marks, rules);
      var legs := Plan(v, b.positions, marks, rules.liquidateTo);
      && (forall i | 0 <= i < |legs| :: legs[i].symbol in marks && legs[i].qty >= 1)
      && var w := Valued(Execute(b, legs, marks), marks, rules);
      && w.equity == v.equity
      && (v.equity > 0 ==> w.MarginState() == Ok)
  {
    hide RoundDiv, Loss, Worth, Covered, SumBy, Available, SoundMarks, Follows, Whole, QtyOf, DistinctSymbols;
    var v := Valued(b, marks, rules);
    var shorts := SortedShorts(marks, b.positions);
    var legs := Plan(v, b.positions, marks, rules.liquidateTo);
    BookShorts(b, marks);
    PlanFollows(shorts, marks, v.equity, v.shortMv, rules.liquidateTo);
    FollowsShape(legs, shorts);
    ExecuteMoves(b, legs, shorts, marks, rules);
    var left := v.shortMv - Covered(marks, legs);
    if v.equity * PERCENT < rules.liquidateTo * left {
      CoveredWhole(marks, legs, shorts);
    } else if left > 0 {
      ThresholdMet(v.equity, left, rules.maintenance, rules.liquidateTo);
      ThresholdMet(v.equity, left, rules.warning, rules.liquidateTo);
    }
  }

  lemma FollowsShape(legs: seq<Leg>, rows: seq<Pos>)
    requires Follows(legs, rows)
    ensures |legs| <= |rows|
    ensures forall i | 0 <= i < |legs| :: legs[i].symbol == rows[i].symbol && legs[i].qty >= 1
  {
  }

  lemma BookShorts(b: Book, marks: Marks)
    requires DistinctSymbols(b.positions) && SoundMarks(marks)
    requires forall p | p in b.positions && p.qty < 0 :: p.symbol in marks
    ensures var shorts := SortedShorts(marks, b.positions);
      && DistinctSymbols(shorts)
      && Coverable(marks, shorts) == shorts
      && Worth(marks, shorts) == SumBy(ShortValue(marks), b.positions)
      && (forall i | 0 <= i < |shorts| :: QtyOf(b.positions, shorts[i].symbol) == shorts[i].qty)
  {
    hide Loss, Insert, Worth, SumBy, QtyOf;
    var shorts := SortedShorts(marks, b.positions);
    SortedShortsMembers(marks, b.positions);
    SortedShortsDistinct(marks, b.positions);
    SortedShortsWorth(marks, b.positions);
    MarksPositive(marks, shorts);
    CoverableAll(marks, shorts);
    forall i | 0 <= i < |shorts|
      ensures QtyOf(b.positions, shorts[i].symbol) == shorts[i].qty
    {
      var k :| 0 <= k < |b.positions| && b.positions[k] == shorts[i];
      FindDistinct(b.positions, k);
    }
  }

  lemma MarksPositive(marks: Marks, ps: seq<Pos>)
    requires SoundMarks(marks) && PricedShorts(marks, ps)
    ensures forall i | 0 <= i < |ps| :: marks[ps[i].symbol] > 0
  {
  }

  /** Equity at the liquidation target is at any lower, rounded, threshold. */
  lemma ThresholdMet(equity: int, short: int, pct: int, target: int)
    requires equity * PERCENT >= target * short && short > 0 && pct <= target
    ensures equity >= RoundDiv(short * pct, PERCENT)
  {
    hide RoundDiv;
    MulMono(short, pct, target);
    RoundDivBetween(0, short * pct, equity, PERCENT);
  }
}
