/** What the walk through the book comes to, said of the touch, the liquidity and the spread alone: how many
    shares a slice holds, what each share costs, and that a fill is at the tick nearest the mean of those.
 */
module Walk {
  import opened Money
  import opened Fees
  import opened Pricing

  /** `size` shares at `base` are as many as the liquidity is worth, or one if it is not worth two. */
  predicate OneSlice(size: nat, base: int, liquidity: int) {
    size >= 1 && (size > 1 ==> size * base <= liquidity) && liquidity < (size + 1) * base
  }

  lemma SliceHolds(ins: Instr, base: int, size: nat)
    requires base > 0 && OneSlice(size, base, ins.liquidity)
    ensures SliceQty(ins, base) == size
  {
    DivBounds(ins.liquidity, base);
    var n := ins.liquidity / base;
    if n > size { MulMono(base, size + 1, n); }
    if n < size && size > 1 { MulMono(base, n + 1, size); }
  }

  /** What share `j` costs, times `HALF`, where slices hold `size`: one half-spread further from the touch with
      each slice, a tenth at most, and never under a tick. */
  function CostOfShare(ins: Instr, side: Side, base: int, size: nat, j: nat): int
    requires size > 0
  {
    var off := Min(ins.spread * (j / size), HALF / 10);
    Max(if side.Buy? then base * (HALF + off) else base * (HALF - off), ins.tick * HALF)
  }

  function Sum(xs: seq<int>): int {
    if xs == [] then 0 else Sum(xs[..|xs| - 1]) + xs[|xs| - 1]
  }

  lemma ShareCosts(ins: Instr, side: Side, base: int, size: nat, j: nat)
    requires base > 0 && OneSlice(size, base, ins.liquidity)
    ensures SharePrice(ins, side, base, j) == CostOfShare(ins, side, base, size, j)
  {
    hide SliceQty;
    SliceHolds(ins, base, size);
    DivNonneg(j, size);
    SlicePriceIs(ins, side, base, j / size);
  }

  lemma {:induction false} CostIsTheSum(ins: Instr, side: Side, base: int, size: nat, costs: seq<int>)
    requires base > 0 && OneSlice(size, base, ins.liquidity)
    requires forall j | 0 <= j < |costs| :: costs[j] == CostOfShare(ins, side, base, size, j)
    ensures SharesCost(ins, side, base, |costs|) == Sum(costs)
  {
    hide CostOfShare, SharePrice, OneSlice;
    if costs != [] {
      CostIsTheSum(ins, side, base, size, costs[..|costs| - 1]);
      ShareCosts(ins, side, base, size, |costs| - 1);
    }
  }

  /** Main result: where the walk slips, an order fills at the tick nearest the mean of what its shares cost one by
      one, over as many slices as it takes to hold it. */
  lemma FillIsTheMean(ins: Instr, side: Side, base: int, size: nat, costs: seq<int>)
    requires ins.tick > 0 && base > 0 && ins.liquidity > 0 && OneSlice(size, base, ins.liquidity) && costs != []
    requires forall j | 0 <= j < |costs| :: costs[j] == CostOfShare(ins, side, base, size, j)
    ensures var qty := |costs|;
      var price, n := FillPrice(ins, side, base, qty, true), Slices(ins, base, qty, true);
      && OnGrid(price, ins.tick) && 2 * Abs(price * (HALF * qty) - Sum(costs)) <= HALF * qty * ins.tick
      && (n - 1) * size < qty <= n * size
  {
    hide RoundDiv, RoundToTick, CostOfShare, SharesCost, Sum, SliceQty;
    var qty := |costs|;
    CostIsTheSum(ins, side, base, size, costs);
    RoundToTickGrid(Sum(costs), HALF * qty, ins.tick);
    SliceHolds(ins, base, size);
    DivBounds(qty + size - 1, size);
    var n := Slices(ins, base, qty, true);
    assert (n - 1) * size == n * size - size;
  }

  /** An order worth no more than the liquidity at the touch fills in one slice at exactly the touch, and so does
      any order where nothing slips. */
  lemma TouchHolds(ins: Instr, side: Side, base: int, qty: nat, slippage: bool)
    requires ins.tick > 0 && base >= ins.tick && OnGrid(base, ins.tick) && qty > 0
    requires !slippage || ins.liquidity <= 0 || qty * base <= ins.liquidity
    ensures FillPrice(ins, side, base, qty, slippage) == base && Slices(ins, base, qty, slippage) == 1
  {
    hide RoundDiv, RoundToTick, SharesCost, SliceQty;
    if slippage && ins.liquidity > 0 {
      SliceTakesAll(ins, base, qty);
      TouchCost(ins, side, base, qty);
      var unit := HALF * qty;
      RoundToTickBetween(base, base * unit, base, unit, ins.tick);
      DivUnique(qty + SliceQty(ins, base) - 1, SliceQty(ins, base), 1);
    }
  }

  lemma SliceTakesAll(ins: Instr, base: int, qty: nat)
    requires base > 0 && qty * base <= ins.liquidity
    ensures qty <= SliceQty(ins, base)
  {
    DivMono(qty * base, ins.liquidity, base);
    DivUnique(qty * base, base, qty);
  }

  /** Shares within the first slice all cost the touch. */
  lemma TouchCost(ins: Instr, side: Side, base: int, qty: nat)
    requires ins.tick > 0 && base >= ins.tick && qty <= SliceQty(ins, base)
    ensures SharesCost(ins, side, base, qty) == base * (HALF * qty)
  {
    hide SlicePrice, SliceQty;
    SliceCost(ins, side, base, 0, qty, 0);
    SlicePriceIs(ins, side, base, 0);
    assert base * HALF * qty == base * (HALF * qty);
  }

  /** The first share past the liquidity at the touch is strictly worse, if there is a spread at all: always for a
      buy, and for a sale from any touch above the one tick no share goes under. */
  lemma NextShareIsWorse(ins: Instr, side: Side, base: int, qty: nat)
    requires ins.tick > 0 && base >= ins.tick && ins.spread > 0 && qty > 0
    requires qty * base <= ins.liquidity < (qty + 1) * base
    ensures var next := SharesCost(ins, side, base, qty + 1) - SharesCost(ins, side, base, qty);
      && (side.Buy? ==> next > base * HALF)
      && (side.Sell? ==> (next < base * HALF <==> base > ins.tick))
      && (side.Sell? ==> next >= ins.tick * HALF)
  {
    hide CostOfShare, SharePrice;
    ShareCosts(ins, side, base, qty, qty);
    DivUnique(qty, qty, 1);
    SecondSlice(ins, side, base, qty);
  }

  lemma SecondSlice(ins: Instr, side: Side, base: int, qty: nat)
    requires ins.tick > 0 && base >= ins.tick && ins.spread > 0 && qty > 0 && qty / qty == 1
    ensures var next := CostOfShare(ins, side, base, qty, qty);
      && (side.Buy? ==> next > base * HALF)
      && (side.Sell? ==> (next < base * HALF <==> base > ins.tick))
      && (side.Sell? ==> next >= ins.tick * HALF)
  {
    var off := Min(ins.spread, HALF / 10);
    MulMono(base, HALF + 1, HALF + off);
    MulMono(base, HALF - off, HALF - 1);
  }

  /** When two shares are worth more than the liquidity, every share is a slice of its own. */
  lemma EachShareIsASlice(ins: Instr, side: Side, base: int, qty: nat)
    requires base > 0 && 0 < ins.liquidity < 2 * base && qty > 0
    ensures Slices(ins, base, qty, true) == qty
  {
    SliceHolds(ins, base, 1);
  }

  /** Bid and ask are the ticks nearest to half a spread under and over the last price. */
  lemma QuoteIsHalfTheSpread(ins: Instr)
    requires ins.Sound()
    ensures var q, unit := QuoteFor(ins), 20_000_000_000;
      && 2 * Abs(q.bid * unit - ins.last * (unit - ins.spread)) <= unit * ins.tick
      && 2 * Abs(q.ask * unit - ins.last * (unit + ins.spread)) <= unit * ins.tick
  {
    hide RoundDiv, RoundToTick;
    RoundToTickGrid(ins.last * (HALF - ins.spread), HALF, ins.tick);
    RoundToTickGrid(ins.last * (HALF + ins.spread), HALF, ins.tick);
    MulMono(ins.last, HALF - ins.spread, HALF + ins.spread);
    RoundToTickMono(ins.last * (HALF - ins.spread), ins.last * (HALF + ins.spread), HALF, ins.tick);
  }
}
