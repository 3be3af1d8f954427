/** The market's day: pre-open, open, closed, again, until the last day is final; freezing stops the clock.

    Times are microseconds. A tick is a pure function of the state, the time, and whether the index tripped
    the market-wide breaker; everything a tick does to prices and orders is elsewhere.
 */
module Clock {
  import opened Money
  import opened Orders

  const SECOND := 1_000_000

  /** Durations in microseconds. */
  datatype Session = Session(preOpen: nat, open: nat, pause: nat, blackout: nat, breaker: nat, autoAdvance: bool)

  datatype Day = Day(
    state: MarketState, dayNo: int, totalDays: int, endsAt: Option<int>,
    frozenSeconds: Option<int>, breakerUntil: Option<int>, blackout: bool)
  {
    function Remaining(now: int): (r: nat) { if endsAt.None? then 0 else Max(0, endsAt.value - now) }
  }

  function Started(c: Day, day: int, now: int, s: Session): Day {
    c.(state := PreOpen, dayNo := day, endsAt := Some(now + s.preOpen), blackout := false, breakerUntil := None)
  }

  function Opened(c: Day, now: int, s: Session): Day { c.(state := Open, endsAt := Some(now + s.open)) }

  function ClosedDay(c: Day, now: int, s: Session): Day { c.(state := Closed, endsAt := Some(now + s.pause)) }

  function Finalised(c: Day): Day { c.(state := Final, endsAt := None, blackout := false) }

  function NextDay(c: Day, now: int, s: Session): Day {
    if !s.autoAdvance || c.dayNo == 0 || c.Remaining(now) > 0 then c
    else if c.dayNo >= c.totalDays then Finalised(c)
    else Started(c, c.dayNo + 1, now, s)
  }

  function Advanced(c: Day, now: int, s: Session): Day {
    if c.state.MarketHalted? && c.breakerUntil.Some? then
      if now >= c.breakerUntil.value then c.(state := Open, breakerUntil := None) else c
    else if !c.state.Open? || !s.autoAdvance then c
    else if c.Remaining(now) <= 0 then ClosedDay(c, now, s)
    else if c.Remaining(now) <= s.blackout && c.dayNo >= c.totalDays then c.(blackout := true)
    else c
  }

  function Tripped(c: Day, now: int, trips: bool, s: Session): Day {
    if trips && c.breakerUntil.None? then c.(state := MarketHalted, breakerUntil := Some(now + s.breaker)) else c
  }

  function Ticked(c: Day, now: int, trips: bool, s: Session): Day {
    match c.state
    case MarketFrozen => c
    case Final => c
    case Closed => NextDay(c, now, s)
    case PreOpen => if s.autoAdvance && c.Remaining(now) <= 0 then Opened(c, now, s) else c
    case MarketHalted => Advanced(c, now, s)
    case Open => Advanced(Tripped(c, now, trips, s), now, s)
  }

  function Frozen(c: Day, now: int): Day {
    if c.state.MarketFrozen? then c
    else c.(frozenSeconds := Some(c.Remaining(now) / SECOND), state := MarketFrozen, endsAt := None)
  }

  function Resumed(c: Day, to: MarketState, now: int): Day {
    var left := if c.frozenSeconds.Some? then c.frozenSeconds.value else 0;
    c.(state := to, endsAt := if left != 0 then Some(now + left * SECOND) else None, frozenSeconds := None)
  }

  class MarketEngine {
    var state: MarketState
    var dayNo: int
    const totalDays: int
    var sessionEndsAt: Option<int>
    var frozenRemainingSeconds: Option<int>
    var breakerUntil: Option<int>
    var leaderboardBlackout: bool
    const session: Session

    constructor (totalDays: int, session: Session)
      ensures Value() == Day(Closed, 0, totalDays, None, None, None, false) && this.session == session
    {
      this.totalDays, this.session := totalDays, session;
      state, dayNo, leaderboardBlackout := Closed, 0, false;
      sessionEndsAt, frozenRemainingSeconds, breakerUntil := None, None, None;
    }

    function Value(): Day
      reads this
    {
      Day(state, dayNo, totalDays, sessionEndsAt, frozenRemainingSeconds, breakerUntil, leaderboardBlackout)
    }

    function RemainingAt(now: int): int
      reads this
    {
      if sessionEndsAt.None? then 0 else Max(0, sessionEndsAt.value - now)
    }

    method StartDay(day: int, now: int)
      modifies this
      ensures Value() == Started(old(Value()), day, now, session)
    {
      dayNo, state, sessionEndsAt := day, PreOpen, Some(now + session.preOpen);
      leaderboardBlackout, breakerUntil := false, None;
    }

    method OpenTrading(now: int)
      modifies this
      ensures Value() == Opened(old(Value()), now, session)
    {
      state, sessionEndsAt := Open, Some(now + session.open);
    }

    method CloseDay(now: int)
      modifies this
      ensures Value() == ClosedDay(old(Value()), now, session)
    {
      state, sessionEndsAt := Closed, Some(now + session.pause);
    }

    method Finalise()
      modifies this
      ensures Value() == Finalised(old(Value()))
    {
      state, sessionEndsAt, leaderboardBlackout := Final, None, false;
    }

    method AdvanceClock(now: int)
      modifies this
      ensures Value() == Advanced(old(Value()), now, session)
    {
      if state.MarketHalted? && breakerUntil.Some? {
        if now >= breakerUntil.value {
          state, breakerUntil := Open, None;
        }
        return;
      }
      if !state.Open? || !session.autoAdvance {
        return;
      }
      var remaining := RemainingAt(now);
      if remaining <= 0 {
        CloseDay(now);
      } else if remaining <= session.blackout && dayNo >= totalDays {
        leaderboardBlackout := true;
      }
    }

    method MaybeStartNextDay(now: int)
      modifies this
      ensures Value() == NextDay(old(Value()), now, session)
    {
      if !session.autoAdvance || dayNo == 0 {
        return;
      }
      if RemainingAt(now) > 0 {
        return;
      }
      if dayNo >= totalDays {
        Finalise();
      } else {
        StartDay(dayNo + 1, now);
      }
    }

    /** One engine tick; `trips` says the index moved past the breaker threshold. */
    method Tick(now: int, trips: bool)
      modifies this
      ensures Value() == Ticked(old(Value()), now, trips, session)
    {
      if state.MarketFrozen? || state.Final? {
        return;
      }
      if state.Closed? {
        MaybeStartNextDay(now);
        return;
      }
      if state.PreOpen? {
        if session.autoAdvance && RemainingAt(now) <= 0 {
          OpenTrading(now);
        }
        return;
      }
      if state.Open? && trips && breakerUntil.None? {
        state, breakerUntil := MarketHalted, Some(now + session.breaker);
      }
      AdvanceClock(now);
    }

    /** Keep the whole seconds left and drop the timer. */
    method Freeze(now: int)
      modifies this
      ensures Value() == Frozen(old(Value()), now)
    {
      if state.MarketFrozen? {
        return;
      }
      frozenRemainingSeconds := Some(RemainingAt(now) / SECOND);
      state, sessionEndsAt := MarketFrozen, None;
    }

    /** Set the timer again from the seconds kept. */
    method Resume(to: MarketState, now: int)
      modifies this
      ensures Value() == Resumed(old(Value()), to, now)
    {
      var remaining := if frozenRemainingSeconds.Some? then frozenRemainingSeconds.value else 0;
      state := to;
      sessionEndsAt := if remaining != 0 then Some(now + remaining * SECOND) else None;
      frozenRemainingSeconds := None;
    }
  }

  // ------------------------------------------------------------------ runs of ticks

  datatype Beat = Beat(now: int, trips: bool)

  function Beats(c: Day, beats: seq<Beat>, s: Session): Day
    decreases |beats|
  {
    if beats == [] then c else Beats(Ticked(c, beats[0].now, beats[0].trips, s), beats[1..], s)
  }

  /** States a single tick may go to: the day's cycle, with the breaker as a detour from an open market. */
  predicate Follows(c: Day, c': Day) {
    && c'.totalDays == c.totalDays
    && match c.state
       case MarketFrozen => c' == c
       case Final => c' == c
       case Closed =>
         || c' == c
         || (c'.state.Final? && c'.dayNo == c.dayNo >= c.totalDays)
         || (c'.state.PreOpen? && c'.dayNo == c.dayNo + 1 <= c.totalDays)
       case PreOpen => c' == c || (c'.state.Open? && c'.dayNo == c.dayNo)
       case Open => (c'.state.Open? || c'.state.Closed? || c'.state.MarketHalted?) && c'.dayNo == c.dayNo
       case MarketHalted => c' == c || (c'.state.Open? && c'.dayNo == c.dayNo)
  }

  /** Main result. Over any run of ticks, trips and all, at any times: the day number never falls and never
      passes the last day, each tick takes a step of the day's cycle, and frozen and final markets stay put. */
  lemma {:induction false} DaysOnlyAdvance(c: Day, beats: seq<Beat>, s: Session)
    requires c.dayNo <= c.totalDays
    ensures var r := Beats(c, beats, s);
      && c.dayNo <= r.dayNo <= r.totalDays == c.totalDays
      && (c.state.MarketFrozen? || c.state.Final? ==> r == c)
      && (beats != [] ==> Follows(c, Ticked(c, beats[0].now, beats[0].trips, s)))
    decreases |beats|
  {
    if beats != [] {
      DaysOnlyAdvance(Ticked(c, beats[0].now, beats[0].trips, s), beats[1..], s);
    }
  }

  /** None of these ticks may end the phase: its end is not reached, or the day does not advance by itself. */
  predicate BeforeTheEnd(c: Day, beats: seq<Beat>, s: Session) {
    !s.autoAdvance || (c.endsAt.Some? && forall k | 0 <= k < |beats| :: beats[k].now < c.endsAt.value)
  }

  /** Main result: no phase of a day is cut short. Until its end a pre-open and a break stay exactly as they are, and a
      session goes on, its end unmoved, halted at most for a while by the breaker, and not at all without a trip. */
  lemma {:induction false} PhaseLasts(c: Day, beats: seq<Beat>, s: Session)
    requires BeforeTheEnd(c, beats, s)
    ensures var r := Beats(c, beats, s);
      && (c.state.PreOpen? || c.state.Closed? ==> r == c)
      && (c.state.Open? || c.state.MarketHalted? ==>
        && (r.state.Open? || r.state.MarketHalted?)
        && r == c.(state := r.state, breakerUntil := r.breakerUntil, blackout := r.blackout))
      && (c.state.Open? && (forall k | 0 <= k < |beats| :: !beats[k].trips) ==> r == c.(blackout := r.blackout))
    decreases |beats|
  {
    if beats != [] {
      var c1, rest := Ticked(c, beats[0].now, beats[0].trips, s), beats[1..];
      assert !s.autoAdvance || beats[0].now < c.endsAt.value;
      assert forall k | 0 <= k < |rest| :: rest[k] == beats[k + 1];
      PhaseLasts(c1, rest, s);
    }
  }

  /** And none lasts longer: at the first tick at or after its end the pre-open gives way to the session, the session
      to the break, and the break to the next day, or after the last day to FINAL, each with its own length to run.
      Before that an open last day goes into blackout exactly when little enough of it is left. */
  lemma PhaseEnds(c: Day, now: int, s: Session)
    requires s.autoAdvance && 1 <= c.dayNo <= c.totalDays
    ensures var c', ended := Ticked(c, now, false, s), c.endsAt.None? || now >= c.endsAt.value;
      && (ended && c.state.PreOpen? ==> c' == c.(state := Open, endsAt := Some(now + s.open)))
      && (ended && c.state.Open? ==> c' == c.(state := Closed, endsAt := Some(now + s.pause)))
      && (ended && c.state.Closed? && c.dayNo < c.totalDays ==>
        && c'.state.PreOpen? && c'.dayNo == c.dayNo + 1 && c'.endsAt == Some(now + s.preOpen)
        && !c'.blackout && c'.breakerUntil.None?)
      && (ended && c.state.Closed? && c.dayNo == c.totalDays ==> c'.state.Final? && c'.endsAt.None? && !c'.blackout)
      && (!ended && c.state.Open? ==>
        (c'.blackout <==> c.blackout || (c.dayNo == c.totalDays && c.endsAt.value - now <= s.blackout)))
  {
  }

  /** The breaker's halt: a trip starts it, the session's clock running on; it lasts its whole length, whatever the
      ticks in it, and ends at the first tick at or after that. */
  lemma {:induction false} HaltLasts(c: Day, now: int, beats: seq<Beat>, b: Beat, s: Session)
    requires c.state.Open? && c.breakerUntil.None? && s.breaker > 0
    requires (forall k | 0 <= k < |beats| :: beats[k].now < now + s.breaker) && b.now >= now + s.breaker
    ensures var halted := Beats(Ticked(c, now, true, s), beats, s);
      && halted == c.(state := MarketHalted, breakerUntil := Some(now + s.breaker))
      && Ticked(halted, b.now, b.trips, s) == c
    decreases |beats|
  {
    if beats != [] {
      var c1, rest := Ticked(c, now, true, s), beats[1..];
      assert Ticked(c1, beats[0].now, beats[0].trips, s) == c1;
      assert forall k | 0 <= k < |rest| :: rest[k] == beats[k + 1];
      HaltLasts(c, now, rest, b, s);
    }
  }

  /** Ticks at least `period` apart, the first of them at least that long after `now`. */
  predicate Advancing(now: int, period: nat, beats: seq<Beat>)
    decreases |beats|
  {
    beats == [] || (beats[0].now >= now + period && Advancing(beats[0].now, period, beats[1..]))
  }

  /** Ticks at which the index is past the breaker's threshold. */
  function Trips(beats: seq<Beat>): nat {
    if beats == [] then 0 else (if beats[0].trips then 1 else 0) + Trips(beats[1..])
  }

  /** A started day whose clock runs: between days, before the open, open, or halted by the breaker. */
  predicate Running(c: Day) {
    && (c.state.Closed? || c.state.PreOpen? || c.state.Open? || (c.state.MarketHalted? && c.breakerUntil.Some?))
    && 1 <= c.dayNo <= c.totalDays
  }

  /** Ticks it takes for `time` to pass. */
  function TicksIn(time: nat, period: nat): nat
    requires period > 0
  {
    (time + period - 1) / period
  }

  function DayTicks(s: Session, period: nat): nat
    requires period > 0
  {
    TicksIn(s.preOpen, period) + TicksIn(s.open, period) + TicksIn(s.pause, period) + 3
  }

  /** What is left of a halt. */
  function HaltLeft(c: Day, now: int): nat { if c.breakerUntil.None? then 0 else Max(0, c.breakerUntil.value - now) }

  /** Days left, then the phase of the day, then the time left in it and in a halt, as a number of ticks. */
  function Measure(c: Day, now: int, s: Session, period: nat): nat
    requires Running(c) && period > 0
  {
    DaysOf(c.totalDays - c.dayNo, s, period) + TicksIn(c.Remaining(now), period) +
      match c.state
      case PreOpen => TicksIn(s.open, period) + TicksIn(s.pause, period) + 3
      case Open => TicksIn(s.pause, period) + 2
      case MarketHalted => TicksIn(HaltLeft(c, now), period) + TicksIn(s.pause, period) + 3
      case _ => 1
  }

  function DaysOf(days: nat, s: Session, period: nat): nat
    requires period > 0
  {
    if days == 0 then 0 else DaysOf(days - 1, s, period) + DayTicks(s, period)
  }

  lemma {:induction false} DaysOfIs(days: nat, s: Session, period: nat)
    requires period > 0
    ensures DaysOf(days, s, period) == days * DayTicks(s, period)
  {
    hide DayTicks;
    if days > 0 {
      DaysOfIs(days - 1, s, period);
      assert (days - 1) * DayTicks(s, period) + DayTicks(s, period) == days * DayTicks(s, period);
    }
  }

  /** Ticks a trip can add: those of its halt, the one that ends it, and its own. */
  function TripTicks(s: Session, period: nat): nat
    requires period > 0
  {
    TicksIn(s.breaker, period) + 2
  }

  /** One tick fewer to wait after a tick that finds time left. */
  lemma TicksFall(left: nat, later: nat, period: nat)
    requires period > 0 && later <= Max(0, left - period)
    ensures later > 0 ==> TicksIn(later, period) < TicksIn(left, period)
    ensures TicksIn(later, period) <= TicksIn(left, period)
  {
    if later > 0 {
      DivMono(later + period - 1, left - 1, period);
      DivUnique(left - 1 + period, period, (left - 1) / period + 1);
    } else {
      DivUnique(period - 1, period, 0);
    }
  }

  /** Every tick brings FINAL nearer, but for the halt that a trip may start. */
  lemma TickDescends(c: Day, now: int, b: Beat, s: Session, period: nat)
    requires Running(c) && s.autoAdvance && period > 0 && now + period <= b.now
    ensures var c' := Ticked(c, b.now, b.trips, s);
      || c'.state.Final?
      || (&& Running(c')
          && Measure(c', b.now, s, period) < Measure(c, now, s, period) + if b.trips then TripTicks(s, period) else 0)
  {
    hide TicksIn;
    TicksFall(c.Remaining(now), c.Remaining(b.now), period);
    TicksFall(HaltLeft(c, now), HaltLeft(c, b.now), period);
  }

  /** Main result. With automatic advance every started day, a halted one included, leads to FINAL: any run of
      ticks at least `period` apart, with at least `Measure` of them and `TripTicks` more for each trip, ends
      there. */
  lemma {:induction false} ReachesFinal(c: Day, now: int, beats: seq<Beat>, s: Session, period: nat)
    requires Running(c) && s.autoAdvance && period > 0 && Advancing(now, period, beats)
    requires |beats| >= Measure(c, now, s, period) + Trips(beats) * TripTicks(s, period)
    ensures Beats(c, beats, s).state.Final?
    decreases |beats|
  {
    hide Measure, Ticked, Running, TripTicks;
    if beats == [] {
      MeasurePositive(c, now, s, period);
    } else {
      var c', rest := Ticked(c, beats[0].now, beats[0].trips, s), Trips(beats[1..]);
      TickDescends(c, now, beats[0], s, period);
      assert (1 + rest) * TripTicks(s, period) == TripTicks(s, period) + rest * TripTicks(s, period);
      if c'.state.Final? {
        FinalStays(c', beats[1..], s);
      } else {
        ReachesFinal(c', beats[0].now, beats[1..], s, period);
      }
    }
  }

  /** And only those: a started day that is frozen, halted by an operator with no breaker to end it, or final
      stays as it is under any ticks at all. */
  lemma {:induction false} OthersStay(c: Day, beats: seq<Beat>, s: Session)
    requires 1 <= c.dayNo <= c.totalDays && !Running(c)
    ensures Beats(c, beats, s) == c
  {
    if beats != [] {
      OthersStay(c, beats[1..], s);
    }
  }

  /** A whole competition, from the start of its first day, takes its days times the ticks of a day (those its
      sessions last and three more), and those of each trip. */
  lemma CompetitionTicks(c: Day, now: int, beats: seq<Beat>, s: Session, period: nat)
    requires c.totalDays >= 1 && s.autoAdvance && period > 0 && Advancing(now, period, beats)
    requires |beats| >= c.totalDays * DayTicks(s, period) + Trips(beats) * TripTicks(s, period)
    ensures Beats(Started(c, 1, now, s), beats, s).state.Final?
  {
    hide TicksIn, Beats, Advancing, Trips, TripTicks;
    var c1 := Started(c, 1, now, s);
    DaysOfIs(c.totalDays, s, period);
    ReachesFinal(c1, now, beats, s, period);
  }

  lemma MeasurePositive(c: Day, now: int, s: Session, period: nat)
    requires Running(c) && period > 0
    ensures Measure(c, now, s, period) > 0
  {
    hide TicksIn;
  }

  lemma {:induction false} FinalStays(c: Day, beats: seq<Beat>, s: Session)
    requires c.state.Final?
    ensures Beats(c, beats, s) == c
  {
    if beats != [] {
      FinalStays(c, beats[1..], s);
    }
  }

  // ------------------------------------------------------------------ freezing

  /** Frozen from any state but frozen and resumed to any other, the day is as it was with the whole seconds that were
      left, and with no timer at all if that is none. */
  lemma ResumePicksUp(c: Day, frozenAt: int, to: MarketState, now: int)
    requires !c.state.MarketFrozen?
    ensures var f, r := Frozen(c, frozenAt), Resumed(Frozen(c, frozenAt), to, now);
      && f.state.MarketFrozen? && f.endsAt.None?
      && r == c.(state := to, endsAt := r.endsAt, frozenSeconds := None)
      && r.Remaining(now) <= c.Remaining(frozenAt) < r.Remaining(now) + 1_000_000
      && r.Remaining(now) % 1_000_000 == 0 && (r.endsAt.None? <==> c.Remaining(frozenAt) < 1_000_000)
  {
  }

  /** Trade for `open`, then stop for `stop`. */
  datatype Pause = Pause(open: nat, stop: nat)

  function Paused(c: Day, now: int, p: Pause): Day { Resumed(Frozen(c, now + p.open), Open, now + p.open + p.stop) }

  function AfterPauses(c: Day, now: int, pauses: seq<Pause>): Day
    decreases |pauses|
  {
    if pauses == [] then c
    else AfterPauses(Paused(c, now, pauses[0]), now + pauses[0].open + pauses[0].stop, pauses[1..])
  }

  function TimeAfter(now: int, pauses: seq<Pause>): int
    decreases |pauses|
  {
    if pauses == [] then now else TimeAfter(now + pauses[0].open + pauses[0].stop, pauses[1..])
  }

  /** Open time used up: what each stretch of trading took from what was left when it began. */
  function OpenTime(c: Day, now: int, pauses: seq<Pause>): nat
    decreases |pauses|
  {
    if pauses == [] then 0
    else
      var p := pauses[0];
      Min(p.open, c.Remaining(now)) + OpenTime(Paused(c, now, p), now + p.open + p.stop, pauses[1..])
  }

  /** Main result. Over any number of freeze-and-resume pairs of an open market no open time is gained, and
      less than one second is lost for each pair; freezing a frozen market changes nothing. */
  lemma {:induction false} FreezingConserves(c: Day, now: int, pauses: seq<Pause>)
    requires c.state.Open?
    ensures var left := AfterPauses(c, now, pauses).Remaining(TimeAfter(now, pauses));
      var used := OpenTime(c, now, pauses);
      && AfterPauses(c, now, pauses).state.Open?
      && left + used <= c.Remaining(now)
      && c.Remaining(now) - (left + used) <= |pauses| * (SECOND - 1)
    ensures forall t, u: int :: Frozen(Frozen(c, t), u) == Frozen(c, t)
    decreases |pauses|
  {
    if pauses != [] {
      var p := pauses[0];
      var c' := Paused(c, now, p);
      var left := c.Remaining(now + p.open);
      DivBounds(left, SECOND);
      assert c'.Remaining(now + p.open + p.stop) == left / SECOND * SECOND;
      FreezingConserves(c', now + p.open + p.stop, pauses[1..]);
    }
  }
}
