/** Limit orders: how much of one may fill now, by a closed form that is exactly as far as the walk may go. */
module Limits {
  import opened Money
  import opened Fees
  import opened Pricing

  predicate Marketable(side: Side, limit: int, touch: int) { if side.Buy? then limit >= touch else limit <= touch }

  /** A fill price held to the limit. */
  function Clamp(side: Side, price: int, limit: int): int {
    if side.Buy? then Min(price, limit) else Max(price, limit)
  }

  /** How many half-spread steps from the touch stay within the limit and within the tenth. */
  function StepsWithin(ins: Instr, side: Side, limit: int, base: int): (k: nat)
    requires base > 0 && ins.spread > 0 && Marketable(side, limit, base)
  {
    var room := side.Sign() * (limit - base);
    DivNonneg(room * HALF, base * ins.spread);
    DivNonneg(MAX_SLIPPAGE, ins.spread);
    Min(room * HALF / (base * ins.spread), MAX_SLIPPAGE / ins.spread)
  }

  /** The largest quantity whose every slice stays within the limit. */
  function MaxQtyWithinLimit(ins: Instr, side: Side, limit: int, base: int, slippage: bool): int {
    if base <= 0 || !Marketable(side, limit, base) then 0
    else if !Slips(ins, slippage) || ins.spread <= 0 then UNLIMITED
    else (StepsWithin(ins, side, limit, base) + 1) * SliceQty(ins, base)
  }

  lemma StepsBounds(ins: Instr, side: Side, limit: int, base: int)
    requires base > 0 && ins.spread > 0 && Marketable(side, limit, base)
    ensures var k := StepsWithin(ins, side, limit, base);
            var room := side.Sign() * (limit - base);
            && ins.spread * k <= MAX_SLIPPAGE
            && base * (ins.spread * k) <= room * HALF
            && (10 * room < base ==> base * (ins.spread * (k + 1)) > room * HALF)
  {
    var room := side.Sign() * (limit - base);
    var unit := base * ins.spread;
    var k, a, b := StepsWithin(ins, side, limit, base), room * HALF / unit, MAX_SLIPPAGE / ins.spread;
    DivBounds(room * HALF, unit);
    DivBounds(MAX_SLIPPAGE, ins.spread);
    DivNonneg(room * HALF, unit);
    CappedSteps(base, ins.spread, room, k, a, b);
  }

  /** The arithmetic of the two caps: `a` steps fit in the room, `b` in the tenth, and `k` in both. */
  lemma CappedSteps(base: int, spread: int, room: int, k: int, a: int, b: int)
    requires base > 0 && spread > 0 && 0 <= k == Min(a, b)
    requires base * spread * a <= room * HALF < base * spread * a + base * spread
    requires spread * b <= MAX_SLIPPAGE < spread * b + spread
    ensures spread * k <= MAX_SLIPPAGE
    ensures base * (spread * k) <= room * HALF
    ensures 10 * room < base ==> base * (spread * (k + 1)) > room * HALF
  {
    var unit := base * spread;
    MulMono(unit, k, a);
    MulMono(spread, k, b);
    assert base * (spread * k) == unit * k;
    assert base * (spread * (k + 1)) == unit * k + unit;
    if 10 * room < base && k < a {
      // One more step passes the tenth, and the room is under a tenth.
      MulMono(base, MAX_SLIPPAGE + 1, spread * (k + 1));
    }
  }

  lemma StepPrice(base: int, step: int, room: int)
    requires base * step <= room * HALF
    ensures base * (HALF + step) <= (base + room) * HALF && base * (HALF - step) >= (base - room) * HALF
  {
  }

  /** A slice up to the last allowed step is within the limit. */
  lemma SliceWithinLimit(ins: Instr, side: Side, limit: int, base: int, i: nat)
    requires base > 0 && ins.spread > 0 && Marketable(side, limit, base) && ins.tick > 0 && limit >= ins.tick
    requires i <= StepsWithin(ins, side, limit, base)
    ensures NoBetter(side, limit * HALF, SlicePrice(ins, side, base, i))
  {
    hide StepsWithin, SlicePrice;
    StepsBounds(ins, side, limit, base);
    var k := StepsWithin(ins, side, limit, base);
    MulMono(ins.spread, i, k);
    MulMono(base, ins.spread * i, ins.spread * k);
    SlicePriceIs(ins, side, base, i);
    StepPrice(base, ins.spread * i, side.Sign() * (limit - base));
  }

  /** Main result, one half: any quantity up to the closed form is filled share by share at or better
      than the limit, so the mean respects it too and clamping the price changes nothing. */
  lemma LimitHolds(ins: Instr, side: Side, limit: int, base: int, qty: int, slippage: bool)
    requires ValidTick(ins.tick) && ins.spread >= 0
    requires base > 0 && OnGrid(base, ins.tick) && limit > 0 && OnGrid(limit, ins.tick)
    requires 0 < qty <= MaxQtyWithinLimit(ins, side, limit, base, slippage)
    ensures Slips(ins, slippage) ==>
      forall j: nat | j < qty :: NoBetter(side, limit * HALF, SharePrice(ins, side, base, j))
    ensures Clamp(side, FillPrice(ins, side, base, qty, slippage), limit) == FillPrice(ins, side, base, qty, slippage)
  {
    hide RoundDiv, RoundToTick, SlicePrice, SliceQty, StepsWithin;
    GridAtLeast(limit, ins.tick);
    GridAtLeast(base, ins.tick);
    if Slips(ins, slippage) {
      var n := SliceQty(ins, base);
      forall j: nat | j < qty
        ensures NoBetter(side, limit * HALF, SharePrice(ins, side, base, j)) && SharePrice(ins, side, base, j) >= 0
      {
        DivNonneg(j, n);
        if ins.spread == 0 {
          FlatSlice(ins, side, base, j / n);
        } else {
          var k := StepsWithin(ins, side, limit, base);
          DivBounds(j, n);
          if j / n > k { MulMono(n, k + 1, j / n); }
          SliceWithinLimit(ins, side, limit, base, j / n);
          SlicePriceBounds(ins, side, base, j / n);
        }
      }
      MeanWithinLimit(ins, side, limit, base, qty);
    }
  }

  lemma FlatSlice(ins: Instr, side: Side, base: int, i: nat)
    requires ins.spread == 0 && base >= ins.tick
    ensures SlicePrice(ins, side, base, i) == base * HALF
  {
  }

  lemma MeanWithinLimit(ins: Instr, side: Side, limit: int, base: int, qty: int)
    requires ins.tick > 0 && base > 0 && OnGrid(limit, ins.tick) && qty > 0
    requires forall j: nat | j < qty ::
      NoBetter(side, limit * HALF, SharePrice(ins, side, base, j)) && SharePrice(ins, side, base, j) >= 0
    ensures NoBetter(side, limit, RoundToTick(SharesCost(ins, side, base, qty), HALF * qty, ins.tick))
  {
    hide RoundDiv, RoundToTick, SharePrice;
    var c := SharesCost(ins, side, base, qty);
    CostWithin(ins, side, base, qty, limit * HALF);
    assert limit * HALF * qty == limit * (HALF * qty);
    RoundToTickBetween(limit, c, limit, HALF * qty, ins.tick);
  }

  lemma {:induction false} CostWithin(ins: Instr, side: Side, base: int, qty: nat, bound: int)
    requires base > 0
    requires forall j: nat | j < qty :: NoBetter(side, bound, SharePrice(ins, side, base, j))
    ensures NoBetter(side, bound * qty, SharesCost(ins, side, base, qty))
  {
    hide SharePrice;
    if qty > 0 {
      CostWithin(ins, side, base, qty - 1, bound);
      assert bound * (qty - 1) == bound * qty - bound;
    }
  }

  /** Main result, other half: where the walk slips, one share more than the closed form opens a slice
      strictly worse than the limit, exactly when the limit is less than a tenth away from the touch (and,
      for a sell, above one tick, the price no slice goes under). */
  lemma LimitIsTight(ins: Instr, side: Side, limit: int, base: int)
    requires ValidTick(ins.tick) && ins.spread > 0 && ins.liquidity > 0
    requires base > 0 && OnGrid(base, ins.tick) && limit > 0 && OnGrid(limit, ins.tick)
    requires Marketable(side, limit, base)
    ensures var next := SharePrice(ins, side, base, MaxQtyWithinLimit(ins, side, limit, base, true));
            next != limit * HALF && NoBetter(side, next, limit * HALF)
            <==> 10 * Abs(limit - base) < base && (side.Sell? ==> limit > ins.tick)
  {
    hide SlicePrice, SliceQty, StepsWithin;
    var n, k := SliceQty(ins, base), StepsWithin(ins, side, limit, base);
    DivUnique((k + 1) * n, n, k + 1);
    GridAtLeast(limit, ins.tick);
    GridAtLeast(base, ins.tick);
    StepsBounds(ins, side, limit, base);
    SlicePriceIs(ins, side, base, k + 1);
    var room := side.Sign() * (limit - base);
    var s := ins.spread * (k + 1);
    var step := if s > MAX_SLIPPAGE then MAX_SLIPPAGE else s;
    assert base * (HALF + step) == base * HALF + base * step && base * (HALF - step) == base * HALF - base * step;
    MulMono(base, step, MAX_SLIPPAGE);
  }
}
