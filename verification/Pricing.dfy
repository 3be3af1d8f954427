/** What a stock is quoted at and what an order of a given size fills at.

    The walk takes the book a slice at a time, starting from the touch and stepping half a spread away with
    each slice until it is a tenth away. `SharePrice` says what each single share costs; the walk over
    slices and the closed form for a limit order are both proved against it.
 */
module Pricing {
  import opened Money
  import opened Fees
  import opened Books

  datatype Status = Active | Halted | Suspended | UpperCircuit | LowerCircuit {
    predicate Tradable() { Active? || UpperCircuit? || LowerCircuit? }

    predicate Frozen() { Halted? || Suspended? }
  }

  /** Prices and liquidity in micro-rupees, the spread in millionths of a basis point. */
  datatype Instr = Instr(
    symbol: Symbol, last: int, tick: int, spread: int, liquidity: int, status: Status, lot: int, listed: bool)
  {
    /** The standing assumptions: a tick of whole paise, a positive price on the tick grid, no negative spread. */
    predicate Sound() { ValidTick(tick) && last > 0 && OnGrid(last, tick) && spread >= 0 }
  }

  /** Half a spread is `spread / HALF` of the price. */
  const HALF := 20_000_000_000

  /** A tenth, over the same denominator: no slice is further than this from the touch. */
  const MAX_SLIPPAGE := 2_000_000_000

  /** Quantity returned when a limit order meets no slippage at all. */
  const UNLIMITED := 1_000_000_000

  datatype Quote = Quote(bid: int, ask: int) {
    function Touch(side: Side): int { if side.Buy? then ask else bid }
  }

  function QuoteFor(ins: Instr): Quote
    requires ins.tick > 0
  {
    var bid := RoundToTick(ins.last * (HALF - ins.spread), HALF, ins.tick);
    var ask := RoundToTick(ins.last * (HALF + ins.spread), HALF, ins.tick);
    Quote(bid, if ask < bid then bid else ask)
  }

  predicate SideAllowed(status: Status, side: Side) {
    if status.UpperCircuit? then side.Sell?
    else if status.LowerCircuit? then side.Buy?
    else status.Tradable()
  }

  /** Shares in one slice. */
  function SliceQty(ins: Instr, base: int): (n: nat)
    requires base > 0
    ensures n >= 1
  {
    Max(1, ins.liquidity / base)
  }

  /** Price of slice `index`, times `HALF`. */
  function SlicePrice(ins: Instr, side: Side, base: int, index: nat): int {
    var step := if ins.spread * index > MAX_SLIPPAGE then MAX_SLIPPAGE else ins.spread * index;
    Max(base * (HALF + side.Sign() * step), ins.tick * HALF)
  }

  /** Price of the `j`-th share of an order, times `HALF`. */
  function SharePrice(ins: Instr, side: Side, base: int, j: nat): int
    requires base > 0
  {
    SlicePrice(ins, side, base, j / SliceQty(ins, base))
  }

  /** Cost of the first `qty` shares, times `HALF`. */
  function SharesCost(ins: Instr, side: Side, base: int, qty: nat): int
    requires base > 0
  {
    if qty == 0 then 0 else SharesCost(ins, side, base, qty - 1) + SharePrice(ins, side, base, qty - 1)
  }

  predicate Slips(ins: Instr, slippage: bool) { slippage && ins.liquidity > 0 }

  /** The price an order of `qty` fills at: the mean share price, snapped to the tick grid. */
  function FillPrice(ins: Instr, side: Side, base: int, qty: int, slippage: bool): int
    requires ins.tick > 0
  {
    if qty <= 0 || base <= 0 || !Slips(ins, slippage) then base
    else RoundToTick(SharesCost(ins, side, base, qty), HALF * qty, ins.tick)
  }

  /** Slices a `qty`-share order consumes, `qty / slice` rounded up. */
  function Slices(ins: Instr, base: int, qty: int, slippage: bool): int {
    if qty <= 0 || base <= 0 then 0
    else if !Slips(ins, slippage) then 1
    else (qty + SliceQty(ins, base) - 1) / SliceQty(ins, base)
  }

  /** The walk through the book, slice by slice. */
  method FillQuote(ins: Instr, side: Side, qty: int, quote: Quote, slippage: bool) returns (price: int, slices: int)
    requires ins.tick > 0
    ensures price == FillPrice(ins, side, quote.Touch(side), qty, slippage)
    ensures slices == Slices(ins, quote.Touch(side), qty, slippage)
  {
    hide RoundDiv, RoundToTick, SlicePrice, SliceQty;
    var base := quote.Touch(side);
    if qty <= 0 || base <= 0 {
      return base, 0;
    }
    if !(slippage && ins.liquidity > 0) {
      return base, 1;
    }
    var sliceQty := SliceQty(ins, base);
    var remaining, total, index := qty, 0, 0;
    while remaining > 0
      invariant 0 <= remaining <= qty && 0 <= index
      invariant total == SharesCost(ins, side, base, qty - remaining)
      invariant qty - remaining == Min(qty, index * sliceQty)
      invariant index > 0 ==> (index - 1) * sliceQty < qty
    {
      var take := if remaining <= sliceQty then remaining else sliceQty;
      var step := ins.spread * index;
      if step > MAX_SLIPPAGE {
        step := MAX_SLIPPAGE;
      }
      var factor := if side.Buy? then HALF + step else HALF - step;
      var slicePrice := Max(base * factor, ins.tick * HALF);
      SlicePriceIs(ins, side, base, index);
      SliceCost(ins, side, base, qty - remaining, take, index);
      total := total + slicePrice * take;
      remaining := remaining - take;
      index := index + 1;
    }
    DivUnique(qty + sliceQty - 1, sliceQty, index);
    price, slices := RoundToTick(total, HALF * qty, ins.tick), index;
  }

  lemma SlicePriceIs(ins: Instr, side: Side, base: int, index: nat)
    ensures var step := if ins.spread * index > MAX_SLIPPAGE then MAX_SLIPPAGE else ins.spread * index;
            var factor := if side.Buy? then HALF + step else HALF - step;
            SlicePrice(ins, side, base, index) == Max(base * factor, ins.tick * HALF)
  {
  }

  /** A run of shares inside one slice all cost the same. */
  lemma SliceCost(ins: Instr, side: Side, base: int, from: nat, take: nat, index: nat)
    requires base > 0 && from == index * SliceQty(ins, base) && take <= SliceQty(ins, base)
    ensures SharesCost(ins, side, base, from + take)
         == SharesCost(ins, side, base, from) + SlicePrice(ins, side, base, index) * take
  {
    hide SlicePrice, SliceQty;
    if take > 0 {
      SliceCost(ins, side, base, from, take - 1, index);
      DivUnique(from + take - 1, SliceQty(ins, base), index);
    }
  }

  // ------------------------------------------------------------------ quotes

  lemma QuoteStraddles(ins: Instr)
    requires ins.Sound()
    ensures var q := QuoteFor(ins);
            q.bid <= ins.last <= q.ask && OnGrid(q.bid, ins.tick) && OnGrid(q.ask, ins.tick)
  {
    hide RoundDiv;
    var lo, hi := ins.last * (HALF - ins.spread), ins.last * (HALF + ins.spread);
    MulMono(ins.last, HALF - ins.spread, HALF);
    MulMono(ins.last, HALF, HALF + ins.spread);
    RoundToTickGrid(lo, HALF, ins.tick);
    RoundToTickGrid(hi, HALF, ins.tick);
    RoundToTickBetween(ins.last, lo, ins.last, HALF, ins.tick);
    RoundToTickBetween(ins.last, hi, ins.last, HALF, ins.tick);
  }

  // ------------------------------------------------------------------ the walk's price

  /** `x` is no better for the trader than `y`: higher when buying, lower when selling. */
  predicate NoBetter(side: Side, x: int, y: int) { if side.Buy? then x >= y else x <= y }

  /** Later slices are never better. */
  lemma SlicePriceMono(ins: Instr, side: Side, base: int, i: nat, j: nat)
    requires i <= j && base > 0 && ins.spread >= 0
    ensures NoBetter(side, SlicePrice(ins, side, base, j), SlicePrice(ins, side, base, i))
  {
    MulMono(ins.spread, i, j);
    var si := if ins.spread * i > MAX_SLIPPAGE then MAX_SLIPPAGE else ins.spread * i;
    var sj := if ins.spread * j > MAX_SLIPPAGE then MAX_SLIPPAGE else ins.spread * j;
    MulMono(base, HALF + si, HALF + sj);
    MulMono(base, HALF - sj, HALF - si);
  }

  /** The best and the worst a share can cost, times ten. */
  lemma SlicePriceBounds(ins: Instr, side: Side, base: int, i: nat)
    requires ins.spread >= 0 && ins.tick > 0 && base >= ins.tick
    ensures var p := SlicePrice(ins, side, base, i);
            && p >= ins.tick * HALF
            && NoBetter(side, p, base * HALF)
            && (if side.Buy? then 10 * p <= 11 * (base * HALF) else 10 * p >= 9 * (base * HALF))
  {
    MulMono(ins.spread, 0, i);
    var s := if ins.spread * i > MAX_SLIPPAGE then MAX_SLIPPAGE else ins.spread * i;
    MulMono(base, HALF + s, HALF + MAX_SLIPPAGE);
    MulMono(base, HALF - MAX_SLIPPAGE, HALF - s);
    MulMono(base, HALF, HALF + s);
    MulMono(base, HALF - s, HALF);
  }

  lemma {:induction false} CostBounds(ins: Instr, side: Side, base: int, qty: nat, k: int, lo: int, hi: int)
    requires base > 0
    requires forall j: nat | j < qty :: lo <= k * SharePrice(ins, side, base, j) <= hi
    ensures lo * qty <= k * SharesCost(ins, side, base, qty) <= hi * qty
  {
    hide SharePrice;
    if qty > 0 {
      CostBounds(ins, side, base, qty - 1, k, lo, hi);
      var c, p := SharesCost(ins, side, base, qty - 1), SharePrice(ins, side, base, qty - 1);
      assert k * (c + p) == k * c + k * p;
      assert lo * (qty - 1) == lo * qty - lo && hi * (qty - 1) == hi * qty - hi;
    }
  }

  /** The next share is no better than the mean of the shares before it. */
  lemma {:induction false} NextShareNoBetter(ins: Instr, side: Side, base: int, qty: nat)
    requires base > 0 && ins.spread >= 0
    ensures NoBetter(side, SharePrice(ins, side, base, qty) * qty, SharesCost(ins, side, base, qty))
  {
    hide SlicePrice, SliceQty;
    if qty > 0 {
      NextShareNoBetter(ins, side, base, qty - 1);
      DivMono(qty - 1, qty, SliceQty(ins, base));
      DivNonneg(qty - 1, SliceQty(ins, base));
      SlicePriceMono(ins, side, base, (qty - 1) / SliceQty(ins, base), qty / SliceQty(ins, base));
      var p, q := SharePrice(ins, side, base, qty - 1), SharePrice(ins, side, base, qty);
      hide SharePrice;
      if side.Buy? { MulMono(qty, p, q); } else { MulMono(qty, q, p); }
      OneMoreShare(p, qty);
    }
  }

  lemma OneMoreShare(price: int, qty: int)
    ensures price * qty == price * (qty - 1) + price
  {
  }

  lemma DivNonneg(n: int, d: int)
    requires n >= 0 && d > 0
    ensures n / d >= 0
  {
  }

  /** Rounding respects order between fractions of different denominators. */
  lemma RoundToTickCross(a: int, d: int, b: int, e: int, tick: int)
    requires d > 0 && e > 0 && tick > 0 && a * e <= b * d
    ensures RoundToTick(a, d, tick) <= RoundToTick(b, e, tick)
  {
    hide RoundDiv;
    var x, y := d * tick, e * tick;
    RoundDivScale(a, x, e);
    RoundDivScale(b, y, d);
    assert x * e == y * d;
    RoundDivMono(a * e, b * d, x * e);
    MulMono(tick, RoundDiv(a, x), RoundDiv(b, y));
  }

  /** Taking one more share never improves the price. */
  lemma PriceWorsensByOne(ins: Instr, side: Side, base: int, qty: int, slippage: bool)
    requires ins.tick > 0 && ins.spread >= 0 && qty > 0
    ensures NoBetter(side, FillPrice(ins, side, base, qty + 1, slippage), FillPrice(ins, side, base, qty, slippage))
  {
    hide RoundDiv, RoundToTick, SharePrice;
    if base > 0 && Slips(ins, slippage) {
      NextShareNoBetter(ins, side, base, qty);
      var c, p := SharesCost(ins, side, base, qty), SharePrice(ins, side, base, qty);
      assert c * (HALF * (qty + 1)) == HALF * (c * qty + c);
      assert (c + p) * (HALF * qty) == HALF * (c * qty + p * qty);
      if side.Buy? {
        RoundToTickCross(c, HALF * qty, c + p, HALF * (qty + 1), ins.tick);
      } else {
        RoundToTickCross(c + p, HALF * (qty + 1), c, HALF * qty, ins.tick);
      }
    }
  }

  /** Size never improves the price: monotone in quantity for buys, antitone for sells. */
  lemma {:induction false} PriceWorsensWithSize(
    ins: Instr, side: Side, base: int, small: int, large: int, slippage: bool)
    requires ins.tick > 0 && ins.spread >= 0 && 0 < small <= large
    ensures NoBetter(side, FillPrice(ins, side, base, large, slippage), FillPrice(ins, side, base, small, slippage))
    decreases large - small
  {
    hide FillPrice;
    if small < large {
      PriceWorsensByOne(ins, side, base, small, slippage);
      PriceWorsensWithSize(ins, side, base, small + 1, large, slippage);
    }
  }

  /** A fill price is on the tick grid. From a positive touch it never beats the touch, is within a tenth of it
      (snapped to a tick), and is not under one tick; a touch that is not positive is the price itself. */
  lemma PriceBounds(ins: Instr, side: Side, base: int, qty: int, slippage: bool)
    requires ValidTick(ins.tick) && ins.spread >= 0 && OnGrid(base, ins.tick)
    ensures var p := FillPrice(ins, side, base, qty, slippage);
      && OnGrid(p, ins.tick) && NoBetter(side, p, base)
      && (base > 0 ==> p >= ins.tick && NoBetter(side, RoundToTick(base * (10 + side.Sign()), 10, ins.tick), p))
      && (base <= 0 ==> p == base)
  {
    hide RoundDiv, RoundToTick, SlicePrice;
    var p := FillPrice(ins, side, base, qty, slippage);
    if base > 0 {
      GridAtLeast(base, ins.tick);
      if qty <= 0 || !Slips(ins, slippage) {
        RoundToTickBetween(base, base * (10 + side.Sign()), base, 10, ins.tick);
      } else {
        SharesWithinTenth(ins, side, base, qty);
        var c, n := SharesCost(ins, side, base, qty), HALF * qty;
        RoundToTickGrid(c, n, ins.tick);
        GridOfMultiple(ins.tick, 1, ins.tick);
        RoundToTickBetween(ins.tick, c, base, n, ins.tick);
        RoundToTickBetween(base, c, base, n, ins.tick);
        if side.Buy? {
          RoundToTickCross(c, n, base * 11, 10, ins.tick);
        } else {
          RoundToTickCross(base * 9, 10, c, n, ins.tick);
        }
      }
    }
  }

  /** A buy never fills under one tick, and a sale of any size exactly when the bid before snapping is at half a
      tick or more: a spread near 200 per cent takes the bid, and every sale, to nothing or below. */
  lemma PriceFloor(ins: Instr, side: Side, qty: int, slippage: bool)
    requires ins.Sound()
    ensures FillPrice(ins, side, QuoteFor(ins).Touch(side), qty, slippage) >= ins.tick
       <==> side.Buy? || 2 * (ins.last * (HALF - ins.spread)) >= HALF * ins.tick
  {
    hide RoundDiv, RoundToTick, FillPrice;
    var base := QuoteFor(ins).Touch(side);
    QuoteStraddles(ins);
    PriceBounds(ins, side, base, qty, slippage);
    SnapsToATick(ins.last * (HALF - ins.spread), HALF, ins.tick);
    if base > 0 { GridAtLeast(base, ins.tick); }
  }

  lemma SharesWithinTenth(ins: Instr, side: Side, base: int, qty: nat)
    requires ins.spread >= 0 && ins.tick > 0 && base >= ins.tick
    ensures var c, n := SharesCost(ins, side, base, qty), HALF * qty;
      && ins.tick * n <= c
      && NoBetter(side, c, base * n)
      && (if side.Buy? then c * 10 <= base * 11 * n else c * 10 >= base * 9 * n)
  {
    hide SlicePrice;
    var worst := base * HALF * (10 + side.Sign());
    forall j: nat | j < qty
      ensures var s := SharePrice(ins, side, base, j);
        && s >= ins.tick * HALF && NoBetter(side, s, base * HALF) && NoBetter(side, worst, 10 * s)
    {
      DivNonneg(j, SliceQty(ins, base));
      SlicePriceBounds(ins, side, base, j / SliceQty(ins, base));
    }
    hide SharePrice;
    var top := if side.Buy? then base * HALF * 11 else base * HALF * 10;
    var low := if side.Buy? then base * HALF * 10 else base * HALF * 9;
    CostBounds(ins, side, base, qty, 10, low, top);
    CostBounds(ins, side, base, qty, 10, ins.tick * HALF * 10, top);
    CostScales(base, qty);
    CostScales(ins.tick, qty);
  }

  lemma CostScales(x: int, qty: int)
    ensures x * HALF * 9 * qty == x * 9 * (HALF * qty)
    ensures x * HALF * 10 * qty == 10 * (x * (HALF * qty))
    ensures x * HALF * 11 * qty == x * 11 * (HALF * qty)
  {
  }

  lemma GridAtLeast(x: int, tick: int)
    requires tick > 0 && x > 0 && OnGrid(x, tick)
    ensures x >= tick
  {
    GridQuotient(x, tick);
    if x / tick <= 0 { MulMono(tick, x / tick, 0); }
    else { MulMono(tick, 1, x / tick); }
  }
}
