/** How a price moves: every tick, jump and finished move lands on the tick grid and inside the day's band,
    and the circuit status says which side of the band was touched. Dividends, splits and undone actions
    keep the grid too, but can take a price under one tick; `SurvivesExactly` says when.
 */
module Tape {
  import opened Money
  import opened Pricing

  /** The price fields of an instrument; `bandPct` in millionths of a per cent. */
  datatype Stock = Stock(
    last: int, tick: int, status: Status, reference: int, bandPct: int,
    prevClose: int, dayOpen: int, dayHigh: int, dayLow: int)
  {
    function Low(): int
      requires tick > 0
    {
      RoundToTick(reference * (PERCENT - bandPct), PERCENT, tick)
    }

    function High(): int
      requires tick > 0
    {
      RoundToTick(reference * (PERCENT + bandPct), PERCENT, tick)
    }

    /** On the tick grid and at least one tick, with a day reference that is too, and a band of at most 100%. */
    ghost predicate OnTape() {
      && ValidTick(tick) && OnGrid(last, tick) && last >= tick
      && OnGrid(reference, tick) && reference >= tick
      && 0 <= bandPct <= PERCENT
    }

    /** Inside the rounded band, and never under one tick. */
    ghost predicate Within()
      requires tick > 0
    {
      Max(Low(), tick) <= last <= High()
    }

    /** The circuit status matches the side of the band the price is on. */
    ghost predicate CircuitMatches()
      requires tick > 0
    {
      match status
      case UpperCircuit => last == High()
      case LowerCircuit => last == Max(Low(), tick)
      case Active => Low() < last < High()
      case _ => true
    }
  }

  /** Where a trading stock aimed at the price `n / d` is left: within half a tick of it inside the band, and on the
      band's edge, marked so, when it is within half a tick of the edge or past it. */
  ghost predicate LandsAt(s: Stock, r: Stock, n: int, d: int)
    requires s.tick > 0
  {
    match r.status
    case Active => s.Low() < r.last < s.High() && 2 * Abs(r.last * d - n) <= d * s.tick
    case UpperCircuit => r.last == s.High() && 2 * (s.High() * d - n) <= d * s.tick
    case LowerCircuit => r.last == Max(s.Low(), s.tick) && 2 * (n - s.Low() * d) <= d * s.tick
    case _ => false
  }

  /** What an operator aims a jump or a move at: a price `n / d`, or a percentage of the price when it was created. */
  datatype Aim = Price(n: int, d: int) | Percentage(anchor: int, pct: int)

  function Target(tick: int, aim: Aim): int
    requires tick > 0 && (aim.Price? ==> aim.d > 0)
  {
    match aim
    case Price(n, d) => RoundToTick(n, d, tick)
    case Percentage(anchor, pct) => RoundToTick(anchor * (PERCENT + pct), PERCENT, tick)
  }

  /** Clamp a price to the band and derive the status; halted and suspended stocks do not move. */
  function Banded(s: Stock, price: int): Stock
    requires s.tick > 0
  {
    if s.status.Frozen() then s
    else if price >= s.High() then s.(last := Max(s.High(), s.tick), status := UpperCircuit)
    else if price <= s.Low() then s.(last := Max(s.Low(), s.tick), status := LowerCircuit)
    else s.(last := Max(price, s.tick), status := Active)
  }

  /** One tick by the multiplier `n / d`, with the day's range following. */
  function Ticked(s: Stock, n: int, d: int): Stock
    requires s.tick > 0 && d > 0
  {
    if s.status.Frozen() then s
    else
      var b := Banded(s, RoundToTick(s.last * n, d, s.tick));
      b.(dayHigh := Max(s.dayHigh, b.last), dayLow := if s.dayLow > 0 then Min(s.dayLow, b.last) else b.last)
  }

  function DayStarted(s: Stock): Stock {
    s.(reference := s.last, prevClose := s.last, dayOpen := s.last, dayHigh := s.last, dayLow := s.last,
       status := if s.status.UpperCircuit? || s.status.LowerCircuit? then Active else s.status)
  }

  /** The price once a dividend of `amount` a share is out of it. */
  function ExPrice(last: int, amount: int, tick: int): int
    requires tick > 0
  {
    RoundToTick(last - amount, 1, tick)
  }

  /** A price divided by the ratio `num / den` and snapped back to its grid. */
  function SplitPrice(price: int, num: int, den: int, tick: int): int
    requires num > 0 && den > 0 && tick > 0
  {
    RoundToTick(price * den, num, tick)
  }

  function WentEx(s: Stock, amount: int): Stock
    requires s.tick > 0
  {
    var ex := ExPrice(s.last, amount, s.tick);
    s.(last := ex, reference := ex, prevClose := ex)
  }

  function Divided(s: Stock, num: int, den: int): Stock
    requires num > 0 && den > 0 && s.tick > 0
  {
    s.(last := SplitPrice(s.last, num, den, s.tick), reference := SplitPrice(s.reference, num, den, s.tick),
       prevClose := SplitPrice(s.prevClose, num, den, s.tick), dayOpen := SplitPrice(s.dayOpen, num, den, s.tick),
       dayHigh := SplitPrice(s.dayHigh, num, den, s.tick), dayLow := SplitPrice(s.dayLow, num, den, s.tick))
  }

  /** The price goes back to what it was before the undone action. */
  function Restored(s: Stock, before: int): Stock
    requires s.tick > 0
  {
    s.(last := RoundToTick(before, 1, s.tick))
  }

  class Instrument {
    const tick: int
    var last: int
    var status: Status
    var dayReference: int
    var bandPct: int
    var prevClose: int
    var dayOpen: int
    var dayHigh: int
    var dayLow: int

    constructor (s: Stock)
      ensures Value() == s
    {
      tick, last, status, dayReference, bandPct := s.tick, s.last, s.status, s.reference, s.bandPct;
      prevClose, dayOpen, dayHigh, dayLow := s.prevClose, s.dayOpen, s.dayHigh, s.dayLow;
    }

    function Value(): Stock
      reads this
    {
      Stock(last, tick, status, dayReference, bandPct, prevClose, dayOpen, dayHigh, dayLow)
    }

    method ApplyBand(price: int) returns (banded: int, circuit: Status)
      requires tick > 0
      ensures Banded(Value(), price) == Value().(last := banded, status := circuit)
    {
      hide RoundDiv;
      var low := RoundToTick(dayReference * (PERCENT - bandPct), PERCENT, tick);
      var high := RoundToTick(dayReference * (PERCENT + bandPct), PERCENT, tick);
      if status.Frozen() {
        return last, status;
      }
      if price >= high {
        return Max(high, tick), UpperCircuit;
      }
      if price <= low {
        return Max(low, tick), LowerCircuit;
      }
      return Max(price, tick), Active;
    }

    /** One engine tick; the random walk's multiplier arrives as the fraction `n / d`. */
    method Tick(n: int, d: int)
      requires tick > 0 && d > 0
      modifies this
      ensures Value() == Ticked(old(Value()), n, d)
    {
      hide RoundDiv, RoundToTick;
      if status.Frozen() {
        return;
      }
      var price, circuit := ApplyBand(RoundToTick(last * n, d, tick));
      last, status := price, circuit;
      dayHigh := Max(dayHigh, price);
      dayLow := if dayLow > 0 then Min(dayLow, price) else price;
    }

    /** An instant jump, or a move landing on its target. */
    method Jump(aim: Aim)
      requires tick > 0 && (aim.Price? ==> aim.d > 0)
      modifies this
      ensures Value() == Banded(old(Value()), Target(old(Value()).tick, aim))
    {
      hide RoundDiv, RoundToTick;
      last, status := ApplyBand(Target(tick, aim));
    }

    /** A new band width, in force from the next price change. */
    method SetBandPct(pct: int)
      modifies this`bandPct
      ensures Value() == old(Value()).(bandPct := pct)
    {
      bandPct := pct;
    }

    method GoEx(amount: int)
      requires tick > 0
      modifies this
      ensures Value() == WentEx(old(Value()), amount)
    {
      hide RoundDiv, RoundToTick;
      last := ExPrice(last, amount, tick);
      dayReference, prevClose := last, last;
    }

    /** Scale every price field of the day by the split ratio `num / den`. */
    method Split(num: int, den: int)
      requires num > 0 && den > 0 && tick > 0
      modifies this
      ensures Value() == Divided(old(Value()), num, den)
    {
      hide RoundDiv, RoundToTick;
      last, dayReference := SplitPrice(last, num, den, tick), SplitPrice(dayReference, num, den, tick);
      prevClose, dayOpen := SplitPrice(prevClose, num, den, tick), SplitPrice(dayOpen, num, den, tick);
      dayHigh, dayLow := SplitPrice(dayHigh, num, den, tick), SplitPrice(dayLow, num, den, tick);
    }

    method Undo(before: int)
      requires tick > 0
      modifies this
      ensures Value() == Restored(old(Value()), before)
    {
      hide RoundDiv, RoundToTick;
      last := RoundToTick(before, 1, tick);
    }

    method StartDay()
      modifies this
      ensures Value() == DayStarted(old(Value()))
    {
      dayReference, prevClose, dayOpen, dayHigh, dayLow := last, last, last, last, last;
      if status.UpperCircuit? || status.LowerCircuit? {
        status := Active;
      }
    }
  }

  // ------------------------------------------------------------------ the band

  lemma BandAroundReference(s: Stock)
    requires s.OnTape()
    ensures OnGrid(s.Low(), s.tick) && OnGrid(s.High(), s.tick)
    ensures 0 <= s.Low() <= s.reference <= s.High()
  {
    hide RoundDiv, RoundToTick;
    var lo, hi := s.reference * (PERCENT - s.bandPct), s.reference * (PERCENT + s.bandPct);
    MulMono(s.reference, 0, PERCENT - s.bandPct);
    MulMono(s.reference, PERCENT - s.bandPct, PERCENT);
    MulMono(s.reference, PERCENT, PERCENT + s.bandPct);
    RoundToTickGrid(lo, PERCENT, s.tick);
    RoundToTickGrid(hi, PERCENT, s.tick);
    GridOfMultiple(0, 0, s.tick);
    RoundToTickBetween(0, lo, s.reference, PERCENT, s.tick);
    RoundToTickBetween(s.reference, lo, s.reference, PERCENT, s.tick);
    RoundToTickBetween(s.reference, hi, s.reference, PERCENT, s.tick);
  }

  /** Any grid price, however far out, is brought inside the band with the status of the side it hit. */
  lemma BandedHolds(s: Stock, price: int)
    requires s.OnTape() && OnGrid(price, s.tick)
    ensures var b := Banded(s, price);
      b.OnTape() && (if s.status.Frozen() then b == s else b.Within() && b.CircuitMatches())
  {
    hide RoundDiv, RoundToTick;
    BandAroundReference(s);
    if !s.status.Frozen() {
      GridOfMultiple(s.tick, 1, s.tick);
      if s.Low() < price < s.High() { GridAtLeast(price, s.tick); }
    }
  }

  lemma BandedLands(s: Stock, n: int, d: int)
    requires s.OnTape() && !s.status.Frozen() && d > 0
    ensures LandsAt(s, Banded(s, RoundToTick(n, d, s.tick)), n, d)
  {
    hide RoundDiv, RoundToTick;
    var price := RoundToTick(n, d, s.tick);
    BandAroundReference(s);
    RoundToTickGrid(n, d, s.tick);
    if s.Low() < price < s.High() {
      GridAtLeast(price, s.tick);
    } else if price >= s.High() {
      MulMono(d, s.High(), price);
    } else {
      MulMono(d, price, s.Low());
    }
    assert price * d == d * price && s.High() * d == d * s.High() && s.Low() * d == d * s.Low();
    hide Stock.Low, Stock.High;
  }

  /** The edges of the band are the ticks nearest to so many per cent under and over the day's reference. */
  lemma BandIsAPercentage(s: Stock)
    requires s.tick > 0
    ensures 2 * Abs(s.Low() * PERCENT - s.reference * (PERCENT - s.bandPct)) <= PERCENT * s.tick
    ensures 2 * Abs(s.High() * PERCENT - s.reference * (PERCENT + s.bandPct)) <= PERCENT * s.tick
  {
    hide RoundDiv, RoundToTick;
    RoundToTickGrid(s.reference * (PERCENT - s.bandPct), PERCENT, s.tick);
    RoundToTickGrid(s.reference * (PERCENT + s.bandPct), PERCENT, s.tick);
  }

  // ------------------------------------------------------------------ runs

  datatype Move =
    | Advance(n: int, d: int)
    | JumpTo(aim: Aim)
    | NewDay
    | SetStatus(status: Status)
    | SetBand(pct: int)
    | ExDividend(amount: int)
    | SplitBy(num: int, den: int)
    | UndoTo(before: int)
  {
    /** An operator's correction of the price itself, outside the band and whatever the status. */
    predicate Corporate() { ExDividend? || SplitBy? || UndoTo? }
  }

  predicate SoundMove(m: Move) {
    match m
    case Advance(n, d) => n > 0 && d > 0
    case JumpTo(aim) => aim.Price? ==> aim.d > 0
    case SetStatus(status) => status.Frozen() || status.Active?
    case SetBand(pct) => 0 <= pct <= PERCENT
    case SplitBy(num, den) => num > 0 && den > 0
    case _ => true
  }

  function Moved(s: Stock, m: Move): Stock
    requires s.tick > 0 && SoundMove(m)
  {
    match m
    case Advance(n, d) => Ticked(s, n, d)
    case JumpTo(aim) => Banded(s, Target(s.tick, aim))
    case NewDay => DayStarted(s)
    case SetStatus(status) => s.(status := status)
    case SetBand(pct) => s.(bandPct := pct)
    case ExDividend(amount) => WentEx(s, amount)
    case SplitBy(num, den) => Divided(s, num, den)
    case UndoTo(before) => Restored(s, before)
  }

  ghost predicate SoundMoves(moves: seq<Move>) { forall k | 0 <= k < |moves| :: SoundMove(moves[k]) }

  ghost function Played(s: Stock, moves: seq<Move>): (r: Stock)
    requires s.tick > 0 && SoundMoves(moves)
    ensures r.tick == s.tick
  {
    if moves == [] then s else Moved(Played(s, moves[..|moves| - 1]), moves[|moves| - 1])
  }

  /** The correction leaves the price, and the reference it sets, at half a tick or more before snapping. */
  predicate Survives(s: Stock, m: Move) {
    match m
    case ExDividend(amount) => 2 * (s.last - amount) >= s.tick
    case SplitBy(num, den) => 2 * (s.last * den) >= num * s.tick && 2 * (s.reference * den) >= num * s.tick
    case UndoTo(before) => 2 * before >= s.tick
    case _ => true
  }

  /** Where each move of a trading stock takes its price, and a tick its day's range: a tick follows the multiplier,
      a jump goes to the operator's price or percentage, and nothing else about the stock changes. */
  lemma MoveLands(s: Stock, m: Move)
    requires s.OnTape() && !s.status.Frozen() && SoundMove(m) && (m.Advance? || m.JumpTo?)
    ensures var r := Moved(s, m);
      && r == s.(last := r.last, status := r.status, dayHigh := r.dayHigh, dayLow := r.dayLow)
      && match m
         case Advance(n, d) =>
           && LandsAt(s, r, s.last * n, d) && r.dayHigh == Max(s.dayHigh, r.last)
           && r.dayLow == if s.dayLow > 0 then Min(s.dayLow, r.last) else r.last
         case JumpTo(Price(n, d)) => LandsAt(s, r, n, d) && r.dayHigh == s.dayHigh && r.dayLow == s.dayLow
         case JumpTo(Percentage(anchor, pct)) =>
           LandsAt(s, r, anchor * (PERCENT + pct), PERCENT) && r.dayHigh == s.dayHigh && r.dayLow == s.dayLow
         case _ => true
  {
    hide RoundDiv, RoundToTick;
    match m
    case Advance(n, d) => BandedLands(s, s.last * n, d);
    case JumpTo(Price(n, d)) => BandedLands(s, n, d);
    case JumpTo(Percentage(anchor, pct)) => BandedLands(s, anchor * (PERCENT + pct), PERCENT);
  }

  /** `price` is a tick nearest to `n / d`. */
  predicate Snapped(price: int, n: int, d: int, tick: int)
    requires tick > 0
  {
    OnGrid(price, tick) && 2 * Abs(price * d - n) <= d * tick
  }

  /** What the other moves do. A dividend takes its amount off the price and makes that the reference and previous
      close; a split scales all six prices of the day by its ratio; an undo sets the price; each is snapped to a
      tick, and no status changes. A new day keeps the price, measures the day from it and releases a circuit. */
  lemma CorrectionLands(s: Stock, m: Move)
    requires s.tick > 0 && SoundMove(m)
    ensures var r := Moved(s, m);
      match m
      case ExDividend(amount) =>
        Snapped(r.last, s.last - amount, 1, s.tick) && r == s.(last := r.last, reference := r.last, prevClose := r.last)
      case SplitBy(num, den) =>
        && Snapped(r.last, s.last * den, num, s.tick) && Snapped(r.reference, s.reference * den, num, s.tick)
        && Snapped(r.prevClose, s.prevClose * den, num, s.tick) && Snapped(r.dayOpen, s.dayOpen * den, num, s.tick)
        && Snapped(r.dayHigh, s.dayHigh * den, num, s.tick) && Snapped(r.dayLow, s.dayLow * den, num, s.tick)
        && r.status == s.status && r.bandPct == s.bandPct && r.tick == s.tick
      case UndoTo(before) => Snapped(r.last, before, 1, s.tick) && r == s.(last := r.last)
      case NewDay =>
        && r.last == s.last == r.reference == r.prevClose == r.dayOpen == r.dayHigh == r.dayLow
        && r.status == (if s.status.Frozen() then s.status else Active) && r.bandPct == s.bandPct && r.tick == s.tick
      case _ => true
  {
    hide RoundDiv, RoundToTick;
    match m
    case ExDividend(amount) => RoundToTickGrid(s.last - amount, 1, s.tick);
    case SplitBy(num, den) =>
      RoundToTickGrid(s.last * den, num, s.tick);
      RoundToTickGrid(s.reference * den, num, s.tick);
      RoundToTickGrid(s.prevClose * den, num, s.tick);
      RoundToTickGrid(s.dayOpen * den, num, s.tick);
      RoundToTickGrid(s.dayHigh * den, num, s.tick);
      RoundToTickGrid(s.dayLow * den, num, s.tick);
    case UndoTo(before) => RoundToTickGrid(before, 1, s.tick);
    case _ =>
  }

  /** A dividend, split or undo of a stock on the tape leaves it there exactly when `Survives` says; nothing
      in the code refuses the others. */
  lemma SurvivesExactly(s: Stock, m: Move)
    requires s.OnTape() && SoundMove(m) && m.Corporate()
    ensures Moved(s, m).OnTape() <==> Survives(s, m)
  {
    hide RoundDiv, RoundToTick, OnGrid, ValidTick;
    TapeIsGridded(s);
    GridKept(s, m);
    match m
    case ExDividend(amount) => SnapsToATick(s.last - amount, 1, s.tick);
    case SplitBy(num, den) =>
      SnapsToATick(s.last * den, num, s.tick);
      SnapsToATick(s.reference * den, num, s.tick);
    case UndoTo(before) => SnapsToATick(before, 1, s.tick);
  }

  /** A stock at its five-paisa minimum: a dividend of four paise is under the price, so it is accepted, and
      takes the price to nothing. */
  lemma DividendCanEraseAPrice(s: Stock)
    requires s.OnTape() && s.tick == 50_000 && s.last == 50_000
    ensures 40_000 < s.last && WentEx(s, 40_000).last == 0 && !WentEx(s, 40_000).OnTape()
  {
    DivUnique(70_000, 100_000, 0);
  }

  /** Undoing an action that began from a price on the tape puts the stock back on it. */
  lemma UndoSurvives(s: Stock, before: Stock)
    requires s.OnTape() && before.OnTape() && before.tick == s.tick
    ensures Restored(s, before.last).OnTape() && Restored(s, before.last).last == before.last
  {
    hide RoundDiv, RoundToTick;
    RoundToTickGrid(before.last, 1, s.tick);
  }

  /** On the grid, with no claim about its size. */
  ghost predicate Gridded(s: Stock) { s.tick > 0 && OnGrid(s.last, s.tick) && OnGrid(s.reference, s.tick) }

  lemma TapeIsGridded(s: Stock)
    requires s.OnTape()
    ensures Gridded(s)
  {
  }

  lemma GridKept(s: Stock, m: Move)
    requires Gridded(s) && SoundMove(m)
    ensures Gridded(Moved(s, m))
  {
    hide RoundDiv, RoundToTick;
    GridOfMultiple(s.tick, 1, s.tick);
    RoundToTickGrid(s.reference * (PERCENT - s.bandPct), PERCENT, s.tick);
    RoundToTickGrid(s.reference * (PERCENT + s.bandPct), PERCENT, s.tick);
    match m
    case Advance(n, d) => RoundToTickGrid(s.last * n, d, s.tick);
    case JumpTo(aim) => TargetOnGrid(s.tick, aim);
    case ExDividend(amount) => RoundToTickGrid(s.last - amount, 1, s.tick);
    case SplitBy(num, den) =>
      RoundToTickGrid(s.last * den, num, s.tick);
      RoundToTickGrid(s.reference * den, num, s.tick);
    case UndoTo(before) => RoundToTickGrid(before, 1, s.tick);
    case _ =>
  }

  /** Main result. No sequence of ticks, jumps, new days, halts, dividends, splits and undos, with any
      multipliers and any ratios, takes the price or the day's reference off the tick grid. */
  lemma {:induction false} PricesStayOnGrid(s: Stock, moves: seq<Move>)
    requires Gridded(s) && SoundMoves(moves)
    ensures Gridded(Played(s, moves))
  {
    hide Moved, SoundMove, OnGrid;
    if moves != [] {
      PricesStayOnGrid(s, moves[..|moves| - 1]);
      GridKept(Played(s, moves[..|moves| - 1]), moves[|moves| - 1]);
    }
  }

  /** After this move the price is in the band: a new day and a dividend centre the band on it, a tick or jump
      of a trading stock clamps it, and a halt, a resumption or a tick while halted leaves it where it was. */
  ghost predicate Inside(s: Stock, m: Move)
    requires s.tick > 0
  {
    match m
    case Advance(_, _) => s.Within() || !s.status.Frozen()
    case JumpTo(_) => s.Within() || !s.status.Frozen()
    case NewDay => true
    case ExDividend(_) => true
    case SetStatus(_) => s.Within()
    case SetBand(_) => false
    case SplitBy(_, _) => false
    case UndoTo(_) => false
  }

  lemma MoveKeeps(s: Stock, m: Move)
    requires s.OnTape() && SoundMove(m) && Survives(s, m)
    ensures var r := Moved(s, m);
      && r.OnTape()
      && (s.status.Frozen() && !m.Corporate() ==> r.last == s.last)
      && ((m.Advance? || m.JumpTo?) && !s.status.Frozen() ==> r.Within() && r.CircuitMatches())
      && (m.Advance? && !s.status.Frozen() ==> r.dayLow <= r.last <= r.dayHigh)
      && (Inside(s, m) ==> r.Within())
  {
    hide RoundDiv, RoundToTick;
    match m
    case Advance(n, d) =>
      RoundToTickGrid(s.last * n, d, s.tick);
      BandedHolds(s, RoundToTick(s.last * n, d, s.tick));
    case JumpTo(aim) =>
      TargetOnGrid(s.tick, aim);
      BandedHolds(s, Target(s.tick, aim));
    case NewDay => BandAroundReference(DayStarted(s));
    case ExDividend(amount) =>
      SurvivesExactly(s, m);
      BandAroundReference(WentEx(s, amount));
    case SplitBy(_, _) => SurvivesExactly(s, m);
    case UndoTo(_) => SurvivesExactly(s, m);
    case SetStatus(_) =>
    case SetBand(_) =>
  }

  lemma TargetOnGrid(tick: int, aim: Aim)
    requires tick > 0 && (aim.Price? ==> aim.d > 0)
    ensures OnGrid(Target(tick, aim), tick)
  {
    hide RoundDiv, RoundToTick;
    match aim
    case Price(n, d) => RoundToTickGrid(n, d, tick);
    case Percentage(anchor, pct) => RoundToTickGrid(anchor * (PERCENT + pct), PERCENT, tick);
  }

  /** Main result. After any sequence of ticks, jumps, moves, new days, halts and resumptions, and of any
      corrections the price survives, it is on the tick grid and at least one tick. If the last thing that
      happened to a trading stock was a tick or a jump, its price is in the band with the matching circuit
      status; `Inside` lists the other moves after which it is in the band; and while the stock is halted only
      a correction moves it. */
  lemma {:induction false} TapeHolds(s: Stock, moves: seq<Move>)
    requires s.OnTape() && SoundMoves(moves)
    requires forall k | 0 <= k < |moves| :: Survives(Played(s, moves[..k]), moves[k])
    ensures Played(s, moves).OnTape()
    ensures moves != [] ==>
      var before, m, r := Played(s, moves[..|moves| - 1]), moves[|moves| - 1], Played(s, moves);
      && (before.status.Frozen() && !m.Corporate() ==> r.last == before.last)
      && ((m.Advance? || m.JumpTo?) && !before.status.Frozen() ==> r.Within() && r.CircuitMatches())
      && (Inside(before, m) ==> r.Within())
  {
    hide Moved, SoundMove, Survives, Inside, RoundDiv, RoundToTick;
    if moves != [] {
      var n := |moves| - 1;
      assert forall k | 0 <= k < n :: moves[..n][..k] == moves[..k];
      TapeHolds(s, moves[..n]);
      MoveKeeps(Played(s, moves[..n]), moves[n]);
    }
  }

  /** Main result. Once a price is in its band it is in the band of the day ever after, through ticks, jumps, new
      days, halts, resumptions and dividends, until a split, an undo or a change of the band itself. */
  lemma {:induction false} BandPersists(s: Stock, moves: seq<Move>)
    requires s.OnTape() && s.Within() && SoundMoves(moves)
    requires forall k | 0 <= k < |moves| :: Survives(Played(s, moves[..k]), moves[k])
    requires forall k | 0 <= k < |moves| :: !moves[k].SplitBy? && !moves[k].UndoTo? && !moves[k].SetBand?
    ensures Played(s, moves).OnTape() && Played(s, moves).Within()
  {
    hide Moved, SoundMove, Survives, RoundDiv, RoundToTick;
    if moves != [] {
      var n := |moves| - 1;
      assert forall k | 0 <= k < n :: moves[..n][..k] == moves[..k];
      BandPersists(s, moves[..n]);
      MoveKeeps(Played(s, moves[..n]), moves[n]);
    }
  }
}
