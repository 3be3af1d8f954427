/** Exact money arithmetic.

    An amount is an `int` number of micro-rupees, the six-decimal storage grid. Cash and charges live on
    the coarser paisa grid, prices on an instrument's tick grid. An unrounded decimal is a fraction
    `n / d` with `d > 0`, and every rounding is one call of `RoundDiv`.
 */
module Money {

  const MICROS_PER_PAISA := 10_000
  const MICROS_PER_RUPEE := 1_000_000

  /** Percentages are held in millionths of a per cent, so `p` per cent of `v` is `v * p / PERCENT`. */
  const PERCENT := 100_000_000

  function Abs(x: int): (r: int)
    ensures r >= 0 && (r == x || r == -x)
  {
    if x < 0 then -x else x
  }

  function Min(x: int, y: int): int { if x <= y then x else y }

  function Max(x: int, y: int): int { if x >= y then x else y }

  /** `n / d` to the nearest integer, halves away from zero. */
  function RoundDiv(n: int, d: int): int
    requires d > 0
  {
    if n >= 0 then (2 * n + d) / (2 * d) else -((-2 * n + d) / (2 * d))
  }

  /** `n / d` micro-rupees on the settlement grid. */
  function Paise(n: int, d: int): int
    requires d > 0
  {
    RoundDiv(n, d * MICROS_PER_PAISA) * MICROS_PER_PAISA
  }

  /** The price `n / d` on the grid of multiples of `tick`. */
  function RoundToTick(n: int, d: int, tick: int): int
    requires d > 0 && tick > 0
  {
    RoundDiv(n, d * tick) * tick
  }

  predicate OnGrid(x: int, grid: int)
    requires grid > 0
  {
    x % grid == 0
  }

  /** A tick is a positive whole number of paise. */
  predicate ValidTick(tick: int) { tick > 0 && tick % MICROS_PER_PAISA == 0 }

  // ------------------------------------------------------------------ division

  lemma DivBounds(n: int, d: int)
    requires d > 0
    ensures d * (n / d) <= n < d * (n / d) + d
  {
  }

  /** If `n` lies in the `k`-th half-open interval of length `d` then `n / d == k`. */
  lemma DivUnique(n: int, d: int, k: int)
    requires d > 0 && d * k <= n < d * k + d
    ensures n / d == k
  {
    var q := n / d;
    DivBounds(n, d);
    if q < k {
      MulMono(d, q + 1, k);
    } else if q > k {
      MulMono(d, k + 1, q);
    }
  }

  lemma MulMono(d: int, x: int, y: int)
    requires d >= 0 && x <= y
    ensures d * x <= d * y
  {
  }

  /** A product is a multiple of its second factor. */
  lemma MultipleOnGrid(k: int, grid: int)
    requires grid > 0
    ensures OnGrid(k * grid, grid) && k * grid / grid == k
  {
    DivUnique(k * grid, grid, k);
  }

  lemma GridOfMultiple(x: int, k: int, grid: int)
    requires grid > 0 && x == k * grid
    ensures OnGrid(x, grid)
  {
    MultipleOnGrid(k, grid);
  }

  lemma GridQuotient(x: int, grid: int)
    requires grid > 0 && OnGrid(x, grid)
    ensures x == (x / grid) * grid
  {
  }

  lemma GridSum(x: int, y: int, grid: int)
    requires grid > 0 && OnGrid(x, grid) && OnGrid(y, grid)
    ensures OnGrid(x + y, grid) && OnGrid(x - y, grid) && OnGrid(-x, grid)
  {
    var a, b := x / grid, y / grid;
    GridQuotient(x, grid);
    GridQuotient(y, grid);
    GridOfMultiple(x + y, a + b, grid);
    GridOfMultiple(x - y, a - b, grid);
    GridOfMultiple(-x, -a, grid);
  }

  lemma GridScale(x: int, k: int, grid: int)
    requires grid > 0 && OnGrid(x, grid)
    ensures OnGrid(x * k, grid)
  {
    GridQuotient(x, grid);
    GridOfMultiple(x * k, x / grid * k, grid);
  }

  /** A price on a tick grid is a whole number of paise. */
  lemma TickIsPaise(x: int, tick: int)
    requires ValidTick(tick) && OnGrid(x, tick)
    ensures OnGrid(x, MICROS_PER_PAISA)
  {
    GridQuotient(x, tick);
    var k := x / tick;
    GridScale(tick, k, MICROS_PER_PAISA);
    assert x == tick * k;
  }

  lemma AbsProduct(x: int, y: int)
    ensures Abs(x * y) == Abs(x) * Abs(y)
  {
    if x >= 0 && y >= 0 { MulMono(x, 0, y); }
    if x >= 0 && y < 0 { MulMono(x, y, 0); assert x * -y == -(x * y); }
    if x < 0 && y >= 0 { MulMono(y, x, 0); assert -x * y == -(x * y); }
    if x < 0 && y < 0 { MulMono(-x, 0, -y); assert -x * -y == x * y; }
  }

  // ------------------------------------------------------------------ rounding

  /** The rounded quotient is a nearest integer: it is off by at most one half. */
  lemma RoundDivNearest(n: int, d: int)
    requires d > 0
    ensures 2 * Abs(d * RoundDiv(n, d) - n) <= d
  {
    hide RoundDiv;
    RoundDivHalfAway(n, d, RoundDiv(n, d));
  }

  /** Of two equally near integers the one away from zero is taken, so an integer is the rounded quotient
      exactly when it is within a half, and on a tie further out. */
  lemma RoundDivHalfAway(n: int, d: int, r: int)
    requires d > 0
    ensures r == RoundDiv(n, d) <==> 2 * Abs(d * r - n) <= d && (2 * Abs(d * r - n) == d ==> Abs(d * r) > Abs(n))
  {
    if n >= 0 {
      HalfAwayUp(n, d, r);
    } else {
      HalfAwayUp(-n, d, -r);
      assert d * -r == -(d * r);
      hide RoundDiv;
      RoundDivOdd(n, d);
    }
  }

  lemma HalfAwayUp(n: int, d: int, r: int)
    requires d > 0 && n >= 0
    ensures r == RoundDiv(n, d) <==> 2 * Abs(d * r - n) <= d && (2 * Abs(d * r - n) == d ==> Abs(d * r) > Abs(n))
  {
    QuotientIs(2 * n + d, 2 * d, r);
    var p := d * r;
    assert 2 * d * r == 2 * p;
    if r >= 0 { MulMono(d, 0, r); } else { MulMono(d, r, -1); }
    NearestOrAbove(n, d, p);
  }

  lemma QuotientIs(n: int, d: int, q: int)
    requires d > 0
    ensures n / d == q <==> d * q <= n < d * q + d
  {
    DivBounds(n, d);
    if d * q <= n < d * q + d { DivUnique(n, d, q); }
  }

  lemma NearestOrAbove(n: int, d: int, p: int)
    requires d > 0 && n >= 0 && (p >= 0 || p <= -d)
    ensures 2 * p <= 2 * n + d < 2 * p + 2 * d <==> 2 * Abs(p - n) <= d && (2 * Abs(p - n) == d ==> Abs(p) > Abs(n))
  {
  }

  lemma RoundDivOdd(n: int, d: int)
    requires d > 0
    ensures RoundDiv(-n, d) == -RoundDiv(n, d)
  {
    if n == 0 {
      DivUnique(d, 2 * d, 0);
    }
  }

  /** Rounding preserves order. */
  lemma RoundDivMono(m: int, n: int, d: int)
    requires d > 0 && m <= n
    ensures RoundDiv(m, d) <= RoundDiv(n, d)
  {
    if 0 <= m {
      DivMono(2 * m + d, 2 * n + d, 2 * d);
    } else if n < 0 {
      DivMono(-2 * n + d, -2 * m + d, 2 * d);
    } else {
      DivMono(0, -2 * m + d, 2 * d);
      DivMono(0, 2 * n + d, 2 * d);
      DivUnique(0, 2 * d, 0);
    }
  }

  lemma DivMono(m: int, n: int, d: int)
    requires d > 0 && m <= n
    ensures m / d <= n / d
  {
    DivBounds(m, d);
    DivBounds(n, d);
    if n / d < m / d {
      MulMono(d, n / d + 1, m / d);
    }
  }

  lemma RoundDivExact(k: int, d: int)
    requires d > 0
    ensures RoundDiv(k * d, d) == k
  {
    var a := Abs(k);
    assert a * d >= 0;
    assert 2 * (a * d) + d == 2 * d * a + d;
    DivUnique(2 * (a * d) + d, 2 * d, a);
    if k < 0 {
      assert k * d == -(a * d);
      MulMono(d, 1, a);
    }
  }

  /** Integer bounds on a fraction are bounds on its rounding. */
  lemma RoundDivBetween(lo: int, n: int, hi: int, d: int)
    requires d > 0
    ensures lo * d <= n ==> lo <= RoundDiv(n, d)
    ensures n <= hi * d ==> RoundDiv(n, d) <= hi
  {
    RoundDivExact(lo, d);
    RoundDivExact(hi, d);
    if lo * d <= n { RoundDivMono(lo * d, n, d); }
    if n <= hi * d { RoundDivMono(n, hi * d, d); }
  }

  /** A common factor of numerator and denominator does not matter. */
  lemma RoundDivScale(n: int, d: int, k: int)
    requires d > 0 && k > 0
    ensures d * k > 0 && RoundDiv(n * k, d * k) == RoundDiv(n, d)
  {
    MulMono(d, 1, k);
    if n >= 0 {
      RoundDivScaleUp(n, d, k);
    } else {
      RoundDivScaleUp(-n, d, k);
      assert -n * k == -(n * k);
      hide RoundDiv;
      RoundDivOdd(n, d);
      RoundDivOdd(n * k, d * k);
    }
  }

  lemma RoundDivScaleUp(n: int, d: int, k: int)
    requires n >= 0 && d > 0 && k > 0 && d * k > 0
    ensures RoundDiv(n * k, d * k) == RoundDiv(n, d)
  {
    var q := (2 * n + d) / (2 * d);
    MulMono(k, 0, n);
    DivBounds(2 * n + d, 2 * d);
    MulMono(k, 2 * d * q, 2 * n + d);
    MulMono(k, 2 * n + d + 1, 2 * d * q + 2 * d);
    ScaledBounds(n, d, k, q);
    DivUnique(2 * (n * k) + d * k, 2 * (d * k), q);
  }

  lemma ScaledBounds(n: int, d: int, k: int, q: int)
    ensures k * (2 * n + d) == 2 * (n * k) + d * k
    ensures k * (2 * d * q) == 2 * (d * k) * q
    ensures k * (2 * d * q + 2 * d) == 2 * (d * k) * q + 2 * (d * k)
    ensures k * (2 * n + d + 1) == 2 * (n * k) + d * k + k
  {
    Associate(d, k, q);
    assert k * (2 * d * q + 2 * d) == k * (2 * d * q) + k * (2 * d);
  }

  lemma Associate(d: int, k: int, q: int)
    ensures k * (2 * d * q) == 2 * (d * k) * q
  {
  }

  /** Amounts already on the paisa grid are not changed by settling them. */
  lemma PaiseExact(x: int)
    requires OnGrid(x, MICROS_PER_PAISA)
    ensures Paise(x, 1) == x
  {
    RoundDivExact(x / MICROS_PER_PAISA, MICROS_PER_PAISA);
  }

  /** Snapping a price to its grid lands on the grid, keeps it if it is there already, and is monotone. */
  lemma RoundToTickGrid(n: int, d: int, tick: int)
    requires d > 0 && tick > 0
    ensures OnGrid(RoundToTick(n, d, tick), tick)
    ensures OnGrid(n, d * tick) ==> RoundToTick(n, d, tick) * d == n
    ensures 2 * Abs(RoundToTick(n, d, tick) * d - n) <= d * tick
  {
    var r := RoundDiv(n, d * tick);
    MultipleOnGrid(r, tick);
    RoundDivNearest(n, d * tick);
    assert d * tick * r == r * tick * d;
    if OnGrid(n, d * tick) {
      GridQuotient(n, d * tick);
      RoundDivExact(n / (d * tick), d * tick);
    }
  }

  /** A bound that is itself on the tick grid bounds the snapped price. */
  lemma RoundToTickBetween(lo: int, n: int, hi: int, d: int, tick: int)
    requires d > 0 && tick > 0
    ensures OnGrid(lo, tick) && lo * d <= n ==> lo <= RoundToTick(n, d, tick)
    ensures OnGrid(hi, tick) && n <= hi * d ==> RoundToTick(n, d, tick) <= hi
  {
    hide RoundToTick;
    if OnGrid(lo, tick) && lo * d <= n { SnapsAbove(lo, n, d, tick); }
    if OnGrid(hi, tick) && n <= hi * d { SnapsBelow(n, hi, d, tick); }
  }

  lemma SnapsAbove(lo: int, n: int, d: int, tick: int)
    requires d > 0 && tick > 0 && OnGrid(lo, tick) && lo * d <= n
    ensures lo <= RoundToTick(n, d, tick)
  {
    hide RoundDiv, OnGrid;
    GridQuotient(lo, tick);
    MulSwap(lo / tick, d, tick);
    RoundDivBetween(lo / tick, n, 0, d * tick);
    MulMono(tick, lo / tick, RoundDiv(n, d * tick));
  }

  lemma SnapsBelow(n: int, hi: int, d: int, tick: int)
    requires d > 0 && tick > 0 && OnGrid(hi, tick) && n <= hi * d
    ensures RoundToTick(n, d, tick) <= hi
  {
    hide RoundDiv, OnGrid;
    GridQuotient(hi, tick);
    MulSwap(hi / tick, d, tick);
    RoundDivBetween(0, n, hi / tick, d * tick);
    MulMono(tick, RoundDiv(n, d * tick), hi / tick);
  }

  lemma MulSwap(x: int, y: int, z: int)
    ensures x * (y * z) == x * z * y
  {
  }

  /** Snapping keeps a price at one tick or more exactly when it was at half a tick or more. */
  lemma SnapsToATick(n: int, d: int, tick: int)
    requires d > 0 && tick > 0
    ensures RoundToTick(n, d, tick) >= tick <==> 2 * n >= d * tick
  {
    var unit := d * tick;
    var steps := RoundDiv(n, unit);
    if n < 0 {
      RoundDivBetween(0, n, 0, unit);
    } else if 2 * n >= unit {
      DivMono(2 * unit, 2 * n + unit, 2 * unit);
      DivUnique(2 * unit, 2 * unit, 1);
    } else {
      DivUnique(2 * n + unit, 2 * unit, 0);
    }
    if steps >= 1 { MulMono(tick, 1, steps); } else { MulMono(tick, steps, 0); }
  }

  lemma RoundToTickMono(m: int, n: int, d: int, tick: int)
    requires d > 0 && tick > 0 && m <= n
    ensures RoundToTick(m, d, tick) <= RoundToTick(n, d, tick)
  {
    RoundDivMono(m, n, d * tick);
    MulMono(tick, RoundDiv(m, d * tick), RoundDiv(n, d * tick));
  }
}
