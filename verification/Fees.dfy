/** Charges on a fill: six components, each settled to whole paise before they are added up. */
module Fees {
  import opened Money

  datatype Side = Buy | Sell {
    function Sign(): int { if Buy? then 1 else -1 }
  }

  /** Rates in millionths of a per cent, the brokerage cap in micro-rupees. */
  datatype FeeRules = FeeRules(
    enabled: bool, flat: bool, flatPct: int,
    brokeragePct: int, brokerageCap: int, sttPct: int, sttOnBuy: bool,
    exchangePct: int, sebiPct: int, stampPct: int, gstPct: int)
  {
    predicate Nonnegative() {
      flatPct >= 0 && brokeragePct >= 0 && brokerageCap >= 0 && sttPct >= 0
      && exchangePct >= 0 && sebiPct >= 0 && stampPct >= 0 && gstPct >= 0
    }
  }

  /** The realistic schedule the rulebook ships with. */
  const DEFAULT_FEES :=
    FeeRules(true, false, 100_000, 30_000, 20_000_000, 100_000, true, 3_000, 100, 15_000, 18_000_000)

  datatype Charges = Charges(brokerage: int, stt: int, exchange: int, sebi: int, stamp: int, gst: int) {
    function Total(): int { brokerage + stt + exchange + sebi + stamp + gst }
  }

  /** `pct` per cent of `value`, settled to the paisa. */
  function Levy(value: int, pct: int): int { Paise(value * pct, PERCENT) }

  function Brokerage(rules: FeeRules, value: int): int {
    if rules.brokerageCap * PERCENT <= value * rules.brokeragePct
    then Paise(rules.brokerageCap, 1)
    else Levy(value, rules.brokeragePct)
  }

  function Itemise(rules: FeeRules, value: int, side: Side): Charges {
    var brokerage := Brokerage(rules, value);
    var exchange := Levy(value, rules.exchangePct);
    Charges(
      brokerage,
      if rules.sttOnBuy || side.Sell? then Levy(value, rules.sttPct) else 0,
      exchange,
      Levy(value, rules.sebiPct),
      if side.Buy? then Levy(value, rules.stampPct) else 0,
      Levy(brokerage + exchange, rules.gstPct))
  }

  function ComputeFees(rules: FeeRules, value: int, side: Side): int {
    if !rules.enabled || value <= 0 then 0
    else if rules.flat then Levy(value, rules.flatPct)
    else Itemise(rules, value, side).Total()
  }

  lemma LevySettles(value: int, pct: int)
    ensures OnGrid(Levy(value, pct), MICROS_PER_PAISA)
    ensures value >= 0 && pct >= 0 ==> Levy(value, pct) >= 0
  {
    MultipleOnGrid(RoundDiv(value * pct, PERCENT * MICROS_PER_PAISA), MICROS_PER_PAISA);
    if value >= 0 && pct >= 0 {
      MulMono(value, 0, pct);
      RoundDivBetween(0, value * pct, 0, PERCENT * MICROS_PER_PAISA);
    }
  }

  lemma BrokerageSettles(rules: FeeRules, value: int)
    ensures OnGrid(Brokerage(rules, value), MICROS_PER_PAISA)
    ensures value >= 0 && rules.Nonnegative() ==> Brokerage(rules, value) >= 0
  {
    LevySettles(value, rules.brokeragePct);
    MultipleOnGrid(RoundDiv(rules.brokerageCap, MICROS_PER_PAISA), MICROS_PER_PAISA);
    if rules.Nonnegative() { RoundDivBetween(0, rules.brokerageCap, 0, MICROS_PER_PAISA); }
  }

  /** Charges are always a whole number of paise, and with non-negative rates never negative. */
  lemma FeesSettle(rules: FeeRules, value: int, side: Side)
    ensures OnGrid(ComputeFees(rules, value, side), MICROS_PER_PAISA)
    ensures rules.Nonnegative() ==> ComputeFees(rules, value, side) >= 0
  {
    LevySettles(value, rules.flatPct);
    BrokerageSettles(rules, value);
    LevySettles(value, rules.sttPct);
    LevySettles(value, rules.exchangePct);
    LevySettles(value, rules.sebiPct);
    LevySettles(value, rules.stampPct);
    LevySettles(Brokerage(rules, value) + Levy(value, rules.exchangePct), rules.gstPct);
    if rules.enabled && value > 0 && !rules.flat { TotalSettles(Itemise(rules, value, side)); }
  }

  lemma TotalSettles(c: Charges)
    requires forall x | x in [c.brokerage, c.stt, c.exchange, c.sebi, c.stamp, c.gst] :: OnGrid(x, MICROS_PER_PAISA)
    ensures OnGrid(c.Total(), MICROS_PER_PAISA)
  {
    var items := [c.brokerage, c.stt, c.exchange, c.sebi, c.stamp, c.gst];
    assert forall i | 0 <= i < 6 :: OnGrid(items[i], MICROS_PER_PAISA);
    GridSum(items[0], items[1], MICROS_PER_PAISA);
    GridSum(items[0] + items[1], items[2], MICROS_PER_PAISA);
    GridSum(items[0] + items[1] + items[2], items[3], MICROS_PER_PAISA);
    GridSum(items[0] + items[1] + items[2] + items[3], items[4], MICROS_PER_PAISA);
    GridSum(items[0] + items[1] + items[2] + items[3] + items[4], items[5], MICROS_PER_PAISA);
  }

  /** A charge within half a paisa of `exact / PERCENT`. */
  predicate Near(charge: int, exact: int) { 2 * Abs(PERCENT * charge - exact) <= PERCENT * MICROS_PER_PAISA }

  /** A levy is within half a paisa of the exact percentage. */
  lemma LevyError(value: int, pct: int)
    ensures Near(Levy(value, pct), value * pct)
  {
    RoundDivNearest(value * pct, PERCENT * MICROS_PER_PAISA);
  }

  /** The schedule before any rounding, times `PERCENT` squared: the capped brokerage, each levy on the side
      it applies to, and GST on brokerage and exchange charge alone. */
  function ExactCharges(rules: FeeRules, value: int, side: Side): int {
    var brokerage := Min(rules.brokerageCap * PERCENT, value * rules.brokeragePct);
    var exchange := value * rules.exchangePct;
    var stt := if rules.sttOnBuy || side.Sell? then value * rules.sttPct else 0;
    var stamp := if side.Buy? then value * rules.stampPct else 0;
    PERCENT * (brokerage + exchange + stt + value * rules.sebiPct + stamp) + (brokerage + exchange) * rules.gstPct
  }

  /** Rounding every component on its own costs at most three paise, plus the GST rate on one paisa. */
  lemma ItemisedNearExact(rules: FeeRules, value: int, side: Side)
    requires rules.gstPct >= 0
    ensures 2 * Abs(PERCENT * PERCENT * Itemise(rules, value, side).Total() - ExactCharges(rules, value, side))
         <= (6 * PERCENT + 2 * rules.gstPct) * PERCENT * MICROS_PER_PAISA
  {
    hide Levy, Brokerage, Near;
    var c := Itemise(rules, value, side);
    var b, e := Min(rules.brokerageCap * PERCENT, value * rules.brokeragePct), value * rules.exchangePct;
    var stt := if rules.sttOnBuy || side.Sell? then value * rules.sttPct else 0;
    var stamp := if side.Buy? then value * rules.stampPct else 0;
    BrokerageError(rules, value);
    LevyError(value, rules.sttPct);
    LevyError(value, rules.exchangePct);
    LevyError(value, rules.sebiPct);
    LevyError(value, rules.stampPct);
    NothingNear();
    LevyError(c.brokerage + c.exchange, rules.gstPct);
    BaseError(c.brokerage, b, c.exchange, e);
    TaxError(c.gst, c.brokerage + c.exchange, b + e, rules.gstPct);
    var slack := (PERCENT + 2 * rules.gstPct) * PERCENT * MICROS_PER_PAISA;
    TotalError(c, b, stt, e, value * rules.sebiPct, stamp, (b + e) * rules.gstPct, slack);
  }

  /** What is charged on a fill: nothing where charges are off or the value is not positive, the flat rate to half a
      paisa where there is one, and otherwise the unrounded schedule to the sum of its items' roundings. */
  lemma ChargesNearExact(rules: FeeRules, value: int, side: Side)
    requires rules.gstPct >= 0
    ensures var fee := ComputeFees(rules, value, side);
      && (!rules.enabled || value <= 0 ==> fee == 0)
      && (rules.enabled && value > 0 && rules.flat ==>
        2 * Abs(PERCENT * fee - value * rules.flatPct) <= PERCENT * MICROS_PER_PAISA)
      && (rules.enabled && value > 0 && !rules.flat ==>
        2 * Abs(PERCENT * PERCENT * fee - ExactCharges(rules, value, side))
        <= (6 * PERCENT + 2 * rules.gstPct) * PERCENT * MICROS_PER_PAISA)
  {
    hide Levy, Itemise, ExactCharges;
    LevyError(value, rules.flatPct);
    ItemisedNearExact(rules, value, side);
  }

  lemma NothingNear()
    ensures Near(0, 0)
  {
  }

  lemma BaseError(x: int, exactX: int, y: int, exactY: int)
    requires Near(x, exactX) && Near(y, exactY)
    ensures 2 * Abs(PERCENT * (x + y) - (exactX + exactY)) <= 2 * PERCENT * MICROS_PER_PAISA
  {
  }

  lemma TotalError(c: Charges, brokerage: int, stt: int, exchange: int, sebi: int, stamp: int, gst: int, slack: int)
    requires Near(c.brokerage, brokerage) && Near(c.stt, stt) && Near(c.exchange, exchange)
    requires Near(c.sebi, sebi) && Near(c.stamp, stamp)
    requires 2 * Abs(PERCENT * PERCENT * c.gst - gst) <= slack
    ensures 2 * Abs(PERCENT * PERCENT * c.Total() - (PERCENT * (brokerage + exchange + stt + sebi + stamp) + gst))
         <= 5 * PERCENT * PERCENT * MICROS_PER_PAISA + slack
  {
    var sum := brokerage + exchange + stt + sebi + stamp;
    var rest := PERCENT * (c.brokerage + c.stt + c.exchange + c.sebi + c.stamp) - sum;
    RestError(c, brokerage, stt, exchange, sebi, stamp);
    hide Near;
    var tax := PERCENT * PERCENT * c.gst - gst;
    assert PERCENT * PERCENT * c.Total() - (PERCENT * sum + gst) == PERCENT * rest + tax;
  }

  lemma RestError(c: Charges, brokerage: int, stt: int, exchange: int, sebi: int, stamp: int)
    requires Near(c.brokerage, brokerage) && Near(c.stt, stt) && Near(c.exchange, exchange)
    requires Near(c.sebi, sebi) && Near(c.stamp, stamp)
    ensures var exact := brokerage + exchange + stt + sebi + stamp;
      2 * Abs(PERCENT * (c.brokerage + c.stt + c.exchange + c.sebi + c.stamp) - exact) <= 5 * PERCENT * MICROS_PER_PAISA
  {
  }

  lemma BrokerageError(rules: FeeRules, value: int)
    ensures Near(Brokerage(rules, value), Min(rules.brokerageCap * PERCENT, value * rules.brokeragePct))
  {
    hide RoundDiv;
    LevyError(value, rules.brokeragePct);
    RoundDivNearest(rules.brokerageCap, MICROS_PER_PAISA);
  }

  /** A tax on a base that is itself rounded, against the tax on the exact base `base / PERCENT`. */
  lemma TaxError(tax: int, rounded: int, base: int, pct: int)
    requires pct >= 0 && Near(tax, rounded * pct)
    requires 2 * Abs(PERCENT * rounded - base) <= 2 * PERCENT * MICROS_PER_PAISA
    ensures 2 * Abs(PERCENT * PERCENT * tax - base * pct) <= (PERCENT + 2 * pct) * PERCENT * MICROS_PER_PAISA
  {
    var gap := PERCENT * rounded - base;
    MulMono(pct, gap, PERCENT * MICROS_PER_PAISA);
    MulMono(pct, -(PERCENT * MICROS_PER_PAISA), gap);
    assert pct * gap == PERCENT * (rounded * pct) - base * pct;
  }

  /** Under the default schedule a buy of `value` is charged at most 0.15404% of it (the sum of the rates)
      plus four paise. The flat 0.15% the quantity slider assumes is an upper bound from Rs 75,400 upwards,
      where the brokerage cap has taken over, but falls short of the real charge on every buy worth
      Rs 800 to Rs 75,100. */
  lemma DefaultBuyCharges(value: int)
    requires value >= 0
    ensures var fee := ComputeFees(DEFAULT_FEES, value, Buy);
      && 1_000_000_000 * fee <= 1_540_400 * value + 40_000 * 1_000_000_000
      && (75_400 * MICROS_PER_RUPEE <= value ==> 10_000 * fee <= 15 * value)
      && (800 * MICROS_PER_RUPEE <= value <= 75_100 * MICROS_PER_RUPEE ==> 10_000 * fee > 15 * value)
  {
    if value > 0 {
      var c := Itemise(DEFAULT_FEES, value, Buy);
      DefaultBrokerage(value);
      LevyError(value, 100_000);
      LevyError(value, 3_000);
      LevyError(value, 100);
      LevyError(value, 15_000);
      LevyError(c.brokerage + c.exchange, 18_000_000);
      DefaultTotal(value, c);
    }
  }

  lemma DefaultBrokerage(value: int)
    ensures var b := Brokerage(DEFAULT_FEES, value);
      && 2 * (PERCENT * b - 30_000 * value) <= PERCENT * MICROS_PER_PAISA
      && b <= 20_000_000
      && (b == 20_000_000 || 2 * (30_000 * value - PERCENT * b) <= PERCENT * MICROS_PER_PAISA)
  {
    if 20_000_000 * PERCENT <= value * 30_000 {
      RoundDivExact(2_000, MICROS_PER_PAISA);
    } else {
      LevyError(value, 30_000);
      RoundDivBetween(0, value * 30_000, 2_000, PERCENT * MICROS_PER_PAISA);
    }
  }

  lemma DefaultTotal(value: int, c: Charges)
    requires Near(c.stt, value * 100_000) && Near(c.exchange, value * 3_000)
    requires Near(c.sebi, value * 100) && Near(c.stamp, value * 15_000)
    requires Near(c.gst, (c.brokerage + c.exchange) * 18_000_000)
    requires c.brokerage <= 20_000_000 && 2 * (PERCENT * c.brokerage - 30_000 * value) <= PERCENT * MICROS_PER_PAISA
    requires c.brokerage == 20_000_000 || 2 * (30_000 * value - PERCENT * c.brokerage) <= PERCENT * MICROS_PER_PAISA
    ensures 1_000_000_000 * c.Total() <= 1_540_400 * value + 40_000 * 1_000_000_000
    ensures 75_400 * MICROS_PER_RUPEE <= value ==> 10_000 * c.Total() <= 15 * value
    ensures 800 * MICROS_PER_RUPEE <= value <= 75_100 * MICROS_PER_RUPEE ==> 10_000 * c.Total() > 15 * value
  {
    var slack := 500_000_000_000;
    // Everything but the brokerage and the tax on it, to within half a paisa an item.
    var rest := PERCENT * (c.stt + c.exchange + c.sebi + c.stamp);
    assert 118_100 * value - 4 * slack <= rest <= 118_100 * value + 4 * slack;
    assert 18_000_000 * c.exchange <= 540 * value + 90_000_000_000;
    assert 18_000_000 * c.exchange >= 540 * value - 90_000_000_000;
    var tax := PERCENT * c.gst;
    assert tax <= 18_000_000 * c.brokerage + 540 * value + 590_000_000_000;
    assert tax >= 18_000_000 * c.brokerage + 540 * value - 590_000_000_000;
    assert PERCENT * c.Total() == PERCENT * c.brokerage + rest + tax;
    assert PERCENT * c.Total() <= 118_000_000 * c.brokerage + 118_640 * value + 2_590_000_000_000;
    assert PERCENT * c.Total() >= 118_000_000 * c.brokerage + 118_640 * value - 2_590_000_000_000;
  }
}
