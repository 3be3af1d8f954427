/** The quantity slider: the largest order the terminal offers, and when the exchange would really take it. */
module Sizing {
  import opened Money
  import opened Fees
  import opened Books
  import opened Risk

  /** The flat charge the slider assumes, 0.15 per cent. */
  const ASSUMED_FEE := 150_000

  /** Closing a position is offered whole; otherwise what available funds buy, or can be shorted against. */
  function MaxAffordable(v: Valuation, current: int, side: Side, price: int, rules: MarginRules): (q: nat) {
    if price <= 0 then 0
    else if side.Buy? && current < 0 then -current
    else if side.Sell? && current > 0 then current
    else
      var perShare := price * ((if side.Buy? then PERCENT else rules.initial) + ASSUMED_FEE);
      if perShare <= 0 then 0 else Max(0, Truncated(v.available * PERCENT, perShare))
  }

  /** Closing offers the whole holding; opening or adding offers the largest quantity whose price, or initial margin,
      with 0.15 per cent on top fits in available funds; nothing is offered from negative funds or at no price. */
  lemma OfferIsTheLargest(v: Valuation, current: int, side: Side, price: int, rules: MarginRules)
    requires rules.initial >= 0
    ensures var q := MaxAffordable(v, current, side, price, rules);
      var each := price * ((if side.Buy? then PERCENT else rules.initial) + 150_000);
      if price <= 0 then q == 0
      else if side.Buy? && current < 0 then q == -current
      else if side.Sell? && current > 0 then q == current
      else if v.available < 0 then q == 0
      else each * q <= v.available * PERCENT < each * q + each
  {
    if price <= 0 { return; }
    var each := price * ((if side.Buy? then PERCENT else rules.initial) + ASSUMED_FEE);
    MulMono(price, 1, (if side.Buy? then PERCENT else rules.initial) + ASSUMED_FEE);
    var n := v.available * PERCENT;
    if n >= 0 {
      DivBounds(n, each);
      DivMono(0, n, each);
      DivUnique(0, each, 0);
    } else {
      DivMono(0, -n, each);
      DivUnique(0, each, 0);
    }
  }

  // ------------------------------------------------------------------ what the funds check asks of any order

  /** Available funds before rounding, times `PERCENT`. */
  function Unrounded(v: Valuation, rules: MarginRules): int {
    (v.cash - v.shortMv) * PERCENT - v.shortMv * rules.initial
  }

  /** Shares an order adds to the short side of a holding: negative when it covers. */
  function Shorted(current: int, side: Side, qty: nat): int {
    Max(0, -(current + side.Sign() * qty)) - Max(0, -current)
  }

  /** What an order would take out of available funds, times `PERCENT`: the cash it pays, and value and margin
      of the shares it shorts. */
  function Needs(current: int, side: Side, qty: nat, price: int, mark: int, fee: int, rules: MarginRules): int {
    (side.Sign() * (price * qty) + fee) * PERCENT + mark * Shorted(current, side, qty) * (PERCENT + rules.initial)
  }

  /** Any order at all passes the funds check exactly when it needs less than half a micro-rupee more than
      there is. */
  lemma FundedExactly(
    v: Valuation, current: int, side: Side, qty: nat, price: int, mark: int, fee: int, rules: MarginRules)
    ensures ProjectAvailable(v, current, side, qty, price, mark, fee, rules) >= 0
       <==> 2 * (Unrounded(v, rules) - Needs(current, side, qty, price, mark, fee, rules)) > -PERCENT
  {
    hide RoundDiv, Shorted;
    var gross, more := price * qty, mark * Shorted(current, side, qty);
    ProjectedFrom(v, current, side, qty, price, mark, fee, rules);
    var n := (v.cash - side.Sign() * gross - fee - (v.shortMv + more)) * PERCENT - (v.shortMv + more) * rules.initial;
    RoundsToNonnegative(n, PERCENT);
    assert (v.shortMv + more) * rules.initial == v.shortMv * rules.initial + more * rules.initial;
    assert more * (PERCENT + rules.initial) == more * PERCENT + more * rules.initial;
  }

  lemma ProjectedFrom(
    v: Valuation, current: int, side: Side, qty: nat, price: int, mark: int, fee: int, rules: MarginRules)
    ensures ProjectAvailable(v, current, side, qty, price, mark, fee, rules)
         == Available(v.cash - side.Sign() * (price * qty) - fee, v.shortMv + mark * Shorted(current, side, qty), rules)
  {
    hide Available;
  }

  // ------------------------------------------------------------------ the four kinds of offer

  /** Main result: exactly when the funds check passes the quantity offered at the price `quoted`, filled at any
      price, for either side of any holding. A buy that opens or adds and a closing sale must leave the cash and
      charges covered; a cover is also given back the value and margin of the short at its mark; a new short is
      charged them. */
  lemma OfferIsFunded(
    v: Valuation, current: int, side: Side, quoted: int, price: int, mark: int, fee: int, rules: MarginRules)
    ensures var q, free := MaxAffordable(v, current, side, quoted, rules), Unrounded(v, rules);
      var ok := ProjectAvailable(v, current, side, q, price, mark, fee, rules) >= 0;
      var paid, freed := (price * q + fee) * PERCENT, mark * q * (PERCENT + rules.initial);
      var received := (price * q - fee) * PERCENT;
      && (side.Buy? && current >= 0 ==> (ok <==> 2 * (free - paid) > -PERCENT))
      && (side.Buy? && current < 0 ==> (ok <==> 2 * (free - paid + freed) > -PERCENT))
      && (side.Sell? && current > 0 ==> (ok <==> 2 * (free + received) > -PERCENT))
      && (side.Sell? && current <= 0 ==> (ok <==> 2 * (free + received - freed) > -PERCENT))
  {
    var q: int := MaxAffordable(v, current, side, quoted, rules);
    ShortedByOffer(v, current, side, quoted, rules);
    hide Unrounded, Shorted, ProjectAvailable, MaxAffordable;
    FundedExactly(v, current, side, q, price, mark, fee, rules);
    assert mark * -q == -(mark * q);
    assert -(mark * q) * (PERCENT + rules.initial) == -(mark * q * (PERCENT + rules.initial));
  }

  lemma ShortedByOffer(v: Valuation, current: int, side: Side, quoted: int, rules: MarginRules)
    ensures var q: int := MaxAffordable(v, current, side, quoted, rules);
      Shorted(current, side, q) == if side.Buy? then (if current < 0 then -q else 0) else if current > 0 then 0 else q
  {
    hide Truncated;
  }

  /** The margin required needs no rounding, so available funds are exact. */
  predicate ExactMargin(v: Valuation, rules: MarginRules) {
    OnGrid(v.shortMv * rules.initial, PERCENT) && v.available == Available(v.cash, v.shortMv, rules)
  }

  lemma ExactAvailable(v: Valuation, rules: MarginRules)
    requires ExactMargin(v, rules)
    ensures v.available * PERCENT == Unrounded(v, rules)
  {
    hide RoundDiv;
    var margin := v.shortMv * rules.initial / PERCENT;
    GridQuotient(v.shortMv * rules.initial, PERCENT);
    RoundDivExact(v.cash - v.shortMv - margin, PERCENT);
    assert Unrounded(v, rules) == (v.cash - v.shortMv - margin) * PERCENT;
  }

  /** In whole micro-rupees: opening or adding passes exactly when available funds cover price and charges, and
      a closing sale exactly when the charges do not eat up available funds and proceeds together. */
  lemma CashOffers(
    v: Valuation, current: int, side: Side, quoted: int, price: int, mark: int, fee: int, rules: MarginRules)
    requires ExactMargin(v, rules)
    ensures var q := MaxAffordable(v, current, side, quoted, rules);
      var ok := ProjectAvailable(v, current, side, q, price, mark, fee, rules) >= 0;
      && (side.Buy? && current >= 0 ==> (ok <==> fee <= v.available - price * q))
      && (side.Sell? && current > 0 ==> (ok <==> fee <= v.available + price * q))
  {
    hide MaxAffordable, ProjectAvailable;
    ExactAvailable(v, rules);
    OfferIsFunded(v, current, side, quoted, price, mark, fee, rules);
  }

  // ------------------------------------------------------------------ when the slider is right

  lemma TruncatedFits(n: int, d: int)
    requires d > 0 && Truncated(n, d) > 0
    ensures d * Truncated(n, d) <= n
  {
    DivBounds(n, d);
    if n < 0 { DivMono(0, -n, d); DivUnique(0, d, 0); }
  }

  /** The slider's rate on the value of an opening order, before the charges it assumes. */
  function OpeningRate(side: Side, rules: MarginRules): int { if side.Buy? then PERCENT else rules.initial }

  /** Any quantity up to the one offered at a price fits in available funds at that price, assumed charges
      included. */
  lemma OfferFits(v: Valuation, current: int, side: Side, q: int, price: int, rules: MarginRules)
    requires 0 < q <= MaxAffordable(v, current, side, price, rules)
    requires if side.Buy? then current >= 0 else current <= 0
    ensures price * q * (OpeningRate(side, rules) + ASSUMED_FEE) <= v.available * PERCENT
  {
    hide Truncated;
    var perShare := price * (OpeningRate(side, rules) + ASSUMED_FEE);
    TruncatedFits(v.available * PERCENT, perShare);
    MulMono(perShare, q, MaxAffordable(v, current, side, price, rules));
    assert perShare * q == price * q * (OpeningRate(side, rules) + ASSUMED_FEE);
  }

  /** Opening or adding, any quantity up to the one offered at the price it fills at passes the funds check
      whenever the 0.15 per cent assumed covers the charges and, for a sale under the mark, value and margin of
      the gap. */
  lemma MaxIsFunded(
    v: Valuation, current: int, side: Side, q: nat, price: int, mark: int, fee: int, rules: MarginRules)
    requires ExactMargin(v, rules) && (if side.Buy? then current >= 0 else current <= 0)
    requires 0 < q <= MaxAffordable(v, current, side, price, rules)
    requires var gap := if side.Buy? then 0 else (mark - price) * q;
      fee * PERCENT + gap * (PERCENT + rules.initial) <= price * q * ASSUMED_FEE
    ensures ProjectAvailable(v, current, side, q, price, mark, fee, rules) >= 0
  {
    ExactAvailable(v, rules);
    OfferFits(v, current, side, q, price, rules);
    assert Shorted(current, side, q) == if side.Buy? then 0 else q;
    hide MaxAffordable, ProjectAvailable, Unrounded, Shorted;
    FundedExactly(v, current, side, q, price, mark, fee, rules);
    Split(price * q, OpeningRate(side, rules));
    if side.Sell? { GapValue(mark, price, q, rules.initial); }
  }

  lemma Split(gross: int, rate: int)
    ensures gross * (rate + ASSUMED_FEE) == gross * rate + gross * ASSUMED_FEE
  {
  }

  lemma GapValue(mark: int, price: int, q: int, initial: int)
    ensures (mark - price) * q * (PERCENT + initial)
         == mark * q * (PERCENT + initial) - price * q * PERCENT - price * q * initial
  {
    var x, y, z := mark * q, price * q, PERCENT + initial;
    assert (mark - price) * q == x - y;
    assert (x - y) * z == x * z - y * z;
  }

  /** Under the default schedule every buy that opens or adds, up to the quantity offered at the price it fills
      at, passes the funds check from Rs 75,400 upwards. */
  lemma LargeBuysAreFunded(v: Valuation, current: nat, q: nat, price: int, mark: int, rules: MarginRules)
    requires ExactMargin(v, rules) && q <= MaxAffordable(v, current, Buy, price, rules)
    requires price * q >= 75_400 * MICROS_PER_RUPEE
    ensures ProjectAvailable(v, current, Buy, q, price, mark, ComputeFees(DEFAULT_FEES, price * q, Buy), rules) >= 0
  {
    hide MaxAffordable, ComputeFees, ProjectAvailable;
    assert q > 0;
    DefaultBuyCharges(price * q);
    MaxIsFunded(v, current, Buy, q, price, mark, ComputeFees(DEFAULT_FEES, price * q, Buy), rules);
  }

  /** Buying back all or part of a short passes the funds check of any team whose available funds are not
      negative, if price and charges stay within the value and margin it gives back. */
  lemma CoversAreFunded(
    v: Valuation, current: int, q: nat, price: int, mark: int, fee: int, rules: MarginRules)
    requires q <= -current && Unrounded(v, rules) >= 0
    requires (price * q + fee) * PERCENT <= mark * q * (PERCENT + rules.initial)
    ensures ProjectAvailable(v, current, Buy, q, price, mark, fee, rules) >= 0
  {
    var n: int := q;
    assert Shorted(current, Buy, q) == -n;
    hide Unrounded, ProjectAvailable, Shorted;
    FundedExactly(v, current, Buy, q, price, mark, fee, rules);
    assert mark * -n == -(mark * n);
    assert -(mark * n) * (PERCENT + rules.initial) == -(mark * n * (PERCENT + rules.initial));
  }

  // ------------------------------------------------------------------ offers that are refused

  /** With Rs 1,001.50 and a share at Rs 1,000 the slider says one, and the real charge of Rs 1.54 has it refused. */
  lemma SmallBuyRefused(rules: MarginRules)
    ensures var v := FromTotals(1_001_500_000, 0, 0, 0, 0, rules);
      var price := 1_000_000_000;
      && MaxAffordable(v, 0, Buy, price, rules) == 1
      && ProjectAvailable(v, 0, Buy, 1, price, price, ComputeFees(DEFAULT_FEES, price, Buy), rules) < 0
  {
    hide RoundDiv, ComputeFees;
    RoundDivExact(1_001_500_000, PERCENT);
    DivUnique(1_001_500_000 * PERCENT, 1_000_000_000 * (PERCENT + ASSUMED_FEE), 1);
    DefaultBuyCharges(1_000_000_000);
    var left := 1_001_500_000 - 1_000_000_000 - ComputeFees(DEFAULT_FEES, 1_000_000_000, Buy);
    RoundDivExact(left, PERCENT);
  }

  /** Initial 20, maintenance 12, warning 15, cover to 20, borrow 0.05 per cent a day. */
  const DEFAULT_MARGIN := MarginRules(20_000_000, 12_000_000, 15_000_000, 20_000_000, 50_000)

  /** The whole short cannot always be bought back: with Rs 60,000 in cash, longs of Rs 90,000 and 1,000 shares
      short at Rs 76, in no margin trouble and at no charge, the cover is offered and refused. */
  lemma CoverRefused()
    ensures var v := FromTotals(60_000_000_000, 90_000_000_000, 76_000_000_000, 0, 0, DEFAULT_MARGIN);
      var price := 76_000_000;
      && v.MarginState() == Ok
      && MaxAffordable(v, -1_000, Buy, price, DEFAULT_MARGIN) == 1_000
      && ProjectAvailable(v, -1_000, Buy, 1_000, price, price, 0, DEFAULT_MARGIN) < 0
  {
    hide RoundDiv;
    RoundDivExact(9_120_000_000, PERCENT);
    RoundDivExact(11_400_000_000, PERCENT);
    RoundDivExact(-16_000_000_000, PERCENT);
  }

  /** A spread is enough to refuse a new short: with Rs 2,005 and a bid of Rs 995 under a mark of Rs 1,000 the
      slider says ten, and at no charge they are refused. */
  lemma SaleRefused()
    ensures var v := FromTotals(2_005_000_000, 0, 0, 0, 0, DEFAULT_MARGIN);
      var bid, mark := 995_000_000, 1_000_000_000;
      && MaxAffordable(v, 0, Sell, bid, DEFAULT_MARGIN) == 10
      && ProjectAvailable(v, 0, Sell, 10, bid, mark, 0, DEFAULT_MARGIN) < 0
  {
    hide RoundDiv;
    RoundDivExact(2_005_000_000, PERCENT);
    DivUnique(2_005_000_000 * PERCENT, 995_000_000 * (20_000_000 + ASSUMED_FEE), 10);
    RoundDivExact(-45_000_000, PERCENT);
  }
}
