/** Final results: the largest peak-to-trough fall of an equity curve, and the final table. */
module Results {
  import opened Money

  /** `worst` is the largest fall from any point of the curve to any later one. */
  ghost predicate LargestFall(curve: seq<int>, worst: int) {
    && (forall i, j | 0 <= i <= j < |curve| :: curve[i] - curve[j] <= worst)
    && exists i, j :: 0 <= i <= j < |curve| && curve[i] - curve[j] == worst
  }

  /** `pct` is the percentage of a positive peak that a fall is, to the nearest millionth of a per cent. */
  ghost predicate FallPct(pct: int, fall: int, peak: int) {
    if fall > 0 && peak > 0 then
      2 * Abs(peak * pct - fall * PERCENT) <= peak
      && (2 * Abs(peak * pct - fall * PERCENT) == peak ==> peak * pct > fall * PERCENT)
    else pct == 0
  }

  /** One pass, keeping the running peak and the worst fall from it so far. */
  method MaxDrawdown(curve: seq<int>) returns (worst: int, worstPct: int)
    ensures curve == [] ==> worst == 0 && worstPct == 0
    ensures curve != [] ==> LargestFall(curve, worst)
    ensures curve != [] ==> exists i, j ::
      0 <= i <= j < |curve| && curve[i] - curve[j] == worst && FallPct(worstPct, worst, curve[i])
  {
    hide RoundDiv;
    if curve == [] {
      return 0, 0;
    }
    var peak := curve[0];
    worst, worstPct := 0, 0;
    ghost var top, from, to := 0, 0, 0;
    for k := 0 to |curve|
      invariant 0 <= top < |curve| && top <= k && peak == curve[top]
      invariant forall i | 0 <= i < k :: curve[i] <= peak
      invariant worst >= 0 && forall i, j | 0 <= i <= j < k :: curve[i] - curve[j] <= worst
      invariant 0 <= from <= to < |curve| && curve[from] - curve[to] == worst && FallPct(worstPct, worst, curve[from])
    {
      var value := curve[k];
      if value > peak {
        peak, top := value, k;
      }
      var fall := peak - value;
      if fall > worst {
        worst := fall;
        worstPct := if peak > 0 then RoundDiv(fall * PERCENT, peak) else 0;
        NearestFall(fall, peak);
        from, to := top, k;
      }
    }
  }

  lemma NearestFall(fall: int, peak: int)
    requires fall > 0
    ensures FallPct(if peak > 0 then RoundDiv(fall * PERCENT, peak) else 0, fall, peak)
  {
    if peak > 0 { RoundDivHalfAway(fall * PERCENT, peak, RoundDiv(fall * PERCENT, peak)); }
  }

  // ------------------------------------------------------------------ the final table

  /** One team's line of the table. `bustedAt` is 0 when unknown; a busted team's equity counts as zero. */
  datatype Line = Line(team: int, busted: bool, equity: int, bustedAt: int, drawdown: int, trades: int, rank: int)

  /** Survivors first; then account value, the later bust, the smaller drawdown, the fewer trades, the
      earlier registration. */
  function SortKey(l: Line): seq<int> {
    [if l.busted then 1 else 0, -l.equity, if l.busted then -l.bustedAt else 0, l.drawdown, l.trades, l.team]
  }

  /** Strictly before, comparing elements from the front. */
  predicate Lex(a: seq<int>, b: seq<int>)
    requires |a| == |b|
  {
    a != [] && (a[0] < b[0] || (a[0] == b[0] && Lex(a[1..], b[1..])))
  }

  predicate Ahead(l: Line, m: Line) { Lex(SortKey(l), SortKey(m)) }

  function Placed(l: Line, ls: seq<Line>): seq<Line> {
    if ls == [] || !Ahead(ls[0], l) then [l] + ls else [ls[0]] + Placed(l, ls[1..])
  }

  function Sorted(ls: seq<Line>): seq<Line> { if ls == [] then [] else Placed(ls[0], Sorted(ls[1..])) }

  function Stamped(ls: seq<Line>): seq<Line> { seq(|ls|, i requires 0 <= i < |ls| => ls[i].(rank := i + 1)) }

  method ApplyRanking(results: seq<Line>) returns (table: seq<Line>)
    ensures table == Stamped(Sorted(results))
  {
    hide Sorted;
    table := Sorted(results);
    for i := 0 to |table|
      invariant table == Stamped(Sorted(results))[..i] + Sorted(results)[i..]
    {
      table := table[i := table[i].(rank := i + 1)];
    }
  }

  ghost predicate DistinctTeams(ls: seq<Line>) { forall i, j | 0 <= i < j < |ls| :: ls[i].team != ls[j].team }

  ghost predicate InOrder(ls: seq<Line>) { forall i, j | 0 <= i < j < |ls| :: Ahead(ls[i], ls[j]) }

  lemma {:induction false} LexIsAnOrder(a: seq<int>, b: seq<int>, c: seq<int>)
    requires |a| == |b| == |c|
    ensures !Lex(a, a) && !(Lex(a, b) && Lex(b, a)) && (Lex(a, b) && Lex(b, c) ==> Lex(a, c))
    ensures a != b ==> Lex(a, b) || Lex(b, a)
  {
    if a != [] {
      assert a == [a[0]] + a[1..] && b == [b[0]] + b[1..];
      LexIsAnOrder(a[1..], b[1..], c[1..]);
    }
  }

  /** Teams differ, so of any two lines exactly one is ahead. */
  lemma OneIsAhead(l: Line, m: Line)
    requires l.team != m.team
    ensures Ahead(l, m) <==> !Ahead(m, l)
  {
    hide Lex;
    assert SortKey(l)[5] != SortKey(m)[5];
    LexIsAnOrder(SortKey(l), SortKey(m), SortKey(l));
  }

  lemma AheadTrans(l: Line, m: Line, n: Line)
    requires Ahead(l, m) && Ahead(m, n)
    ensures Ahead(l, n)
  {
    hide Lex;
    LexIsAnOrder(SortKey(l), SortKey(m), SortKey(n));
  }

  lemma {:induction false} PlacedMembers(l: Line, ls: seq<Line>)
    ensures multiset(Placed(l, ls)) == multiset(ls) + multiset{l}
  {
    hide Ahead;
    if ls != [] && Ahead(ls[0], l) {
      PlacedMembers(l, ls[1..]);
      assert ls == [ls[0]] + ls[1..];
    }
  }

  lemma {:induction false} PlacedInOrder(l: Line, ls: seq<Line>)
    requires InOrder(ls) && forall m | m in ls :: m.team != l.team
    ensures InOrder(Placed(l, ls))
  {
    hide Ahead;
    if ls != [] && Ahead(ls[0], l) {
      var rest := Placed(l, ls[1..]);
      PlacedInOrder(l, ls[1..]);
      PlacedMembers(l, ls[1..]);
      forall j | 0 <= j < |rest|
        ensures Ahead(ls[0], rest[j])
      {
        assert rest[j] in multiset(rest);
        assert rest[j] == l || rest[j] in ls[1..];
      }
    } else if ls != [] {
      OneIsAhead(l, ls[0]);
      forall j | 0 <= j < |ls|
        ensures Ahead(l, ls[j])
      {
        if j > 0 { AheadTrans(l, ls[0], ls[j]); }
      }
    }
  }

  lemma {:induction false} SortedInOrder(ls: seq<Line>)
    requires DistinctTeams(ls)
    ensures multiset(Sorted(ls)) == multiset(ls) && InOrder(Sorted(ls))
  {
    hide Ahead, Placed;
    if ls != [] {
      var rest := ls[1..];
      assert ls == [ls[0]] + rest;
      SortedInOrder(rest);
      PlacedMembers(ls[0], Sorted(rest));
      forall m | m in Sorted(rest)
        ensures m.team != ls[0].team
      {
        assert m in multiset(rest);
      }
      PlacedInOrder(ls[0], Sorted(rest));
    }
  }

  /** There is only one way to put lines in order. */
  lemma {:induction false} OrderIsUnique(a: seq<Line>, b: seq<Line>)
    requires InOrder(a) && InOrder(b) && multiset(a) == multiset(b)
    ensures a == b
  {
    hide Ahead;
    if a != [] && b != [] {
      assert a[0] in multiset(b) && b[0] in multiset(a);
      if a[0] != b[0] {
        AheadTrans(a[0], b[0], a[0]);
        NotAheadOfItself(a[0]);
      }
      assert a == [a[0]] + a[1..] && b == [b[0]] + b[1..];
      assert multiset(a[1..]) == multiset(a) - multiset{a[0]};
      assert multiset(b[1..]) == multiset(b) - multiset{b[0]};
      OrderIsUnique(a[1..], b[1..]);
    } else {
      assert |multiset(a)| == |multiset(b)|;
    }
  }

  lemma NotAheadOfItself(l: Line)
    ensures !Ahead(l, l)
  {
    hide Lex;
    LexIsAnOrder(SortKey(l), SortKey(l), SortKey(l));
  }

  /** Main result. The table holds every team once, in strict order of the documented tie-breaks, ranked
      from 1, and does not depend on the order the results arrived in. */
  lemma TableIsDetermined(results: seq<Line>, shuffled: seq<Line>)
    requires DistinctTeams(results) && multiset(shuffled) == multiset(results) && DistinctTeams(shuffled)
    ensures var table := Stamped(Sorted(results));
      && table == Stamped(Sorted(shuffled))
      && multiset(Sorted(results)) == multiset(results)
      && (forall i, j | 0 <= i < j < |table| :: Ahead(table[i], table[j]))
      && forall i | 0 <= i < |table| :: table[i].rank == i + 1
  {
    hide Sorted, Lex;
    SortedInOrder(results);
    SortedInOrder(shuffled);
    OrderIsUnique(Sorted(results), Sorted(shuffled));
    var table, sorted := Stamped(Sorted(results)), Sorted(results);
    forall i, j | 0 <= i < j < |table|
      ensures Ahead(table[i], table[j])
    {
      assert Ahead(sorted[i], sorted[j]);
      assert SortKey(table[i]) == SortKey(sorted[i]) && SortKey(table[j]) == SortKey(sorted[j]);
    }
  }

  /** What being ahead means: no busted team above a survivor, survivors by account value and then the smaller
      drawdown, busted teams by how long they lasted. */
  lemma AheadMeans(l: Line, m: Line)
    requires Ahead(l, m) && (l.busted ==> l.equity == 0) && (m.busted ==> m.equity == 0)
    ensures l.busted ==> m.busted && l.bustedAt >= m.bustedAt
    ensures !l.busted && !m.busted ==> l.equity >= m.equity
    ensures !l.busted && !m.busted && l.equity == m.equity ==> l.drawdown <= m.drawdown
    ensures !l.busted && !m.busted && l.equity == m.equity && l.drawdown == m.drawdown ==> l.trades <= m.trades
  {
    var a, b := SortKey(l), SortKey(m);
    Unfold(a, b);
    Unfold(a[1..], b[1..]);
    Unfold(a[2..], b[2..]);
    Unfold(a[3..], b[3..]);
    Unfold(a[4..], b[4..]);
  }

  /** Exactly when one line is ahead of another: a survivor of a busted team, the larger account value, of two busted
      teams the one that lasted longer, the smaller drawdown, the fewer trades, and the earlier registration. */
  lemma AheadExactly(l: Line, m: Line)
    ensures Ahead(l, m)
      <==> if l.busted != m.busted then m.busted
           else if l.equity != m.equity then l.equity > m.equity
           else if l.busted && l.bustedAt != m.bustedAt then l.bustedAt > m.bustedAt
           else if l.drawdown != m.drawdown then l.drawdown < m.drawdown
           else if l.trades != m.trades then l.trades < m.trades
           else l.team < m.team
  {
    var a, b := SortKey(l), SortKey(m);
    Unfold(a, b);
    Unfold(a[1..], b[1..]);
    Unfold(a[2..], b[2..]);
    Unfold(a[3..], b[3..]);
    Unfold(a[4..], b[4..]);
    Unfold(a[5..], b[5..]);
  }

  lemma Unfold(a: seq<int>, b: seq<int>)
    requires |a| == |b| > 0
    ensures Lex(a, b) <==> a[0] < b[0] || (a[0] == b[0] && Lex(a[1..], b[1..]))
  {
  }
}
