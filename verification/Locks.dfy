/** Many requests at once, interleaved at every await.

    A job is one locked section: take the team's lock, read its account, positions and orders (each at its
    own moment), compute, commit or roll back in one step, release. Any number of jobs on any number of
    teams run in any interleaving. The lock makes every team's books the serial result of its jobs in the
    order they took the lock.
 */
module Locks {
  import opened Books
  import opened Orders
  import opened OrderLaws
  import opened Traces

  type TeamId = nat

  /** `body` maps what was read to what to commit, or to nothing when the transaction raises and rolls back. */
  datatype Job = Job(team: TeamId, body: TeamRec -> Option<TeamRec>)

  /** The parts of a team's state that are read by separate queries. */
  datatype AccountRow = AccountRow(status: TeamStatus, cash: int, rows: seq<Row>)

  datatype OrderRows = OrderRows(orders: seq<OrderRec>, fills: seq<FillRec>)

  datatype Phase =
    | Waiting
    | Reading(account: Option<AccountRow>, positions: Option<seq<Pos>>, orders: Option<OrderRows>)
    | Finished
    | Released

  /** `log[t]` lists the jobs that have taken team `t`'s lock, in order. */
  datatype Sys = Sys(
    committed: TeamId -> TeamRec, holder: TeamId -> Option<nat>, phases: seq<Phase>, log: TeamId -> seq<nat>)

  function AccountOf(t: TeamRec): AccountRow { AccountRow(t.status, t.book.cash, t.book.rows) }

  function OrdersOf(t: TeamRec): OrderRows { OrderRows(t.orders, t.fills) }

  function Assembled(a: AccountRow, ps: seq<Pos>, o: OrderRows): TeamRec {
    TeamRec(a.status, Book(a.cash, a.rows, ps), o.orders, o.fills)
  }

  function Set<T>(f: TeamId -> T, t: TeamId, v: T): TeamId -> T { (u: TeamId) => if u == t then v else f(u) }

  datatype Move = Acquire | ReadAccount | ReadPositions | ReadOrders | Commit | Release

  ghost predicate Enabled(jobs: seq<Job>, s: Sys, p: nat, m: Move) {
    && p < |jobs| == |s.phases|
    && match m
       case Acquire => s.phases[p].Waiting? && s.holder(jobs[p].team).None?
       case Release => s.phases[p].Finished?
       case Commit =>
         var ph := s.phases[p];
         ph.Reading? && ph.account.Some? && ph.positions.Some? && ph.orders.Some?
       case _ => s.phases[p].Reading?
  }

  ghost function Stepped(jobs: seq<Job>, s: Sys, p: nat, m: Move): Sys
    requires Enabled(jobs, s, p, m)
  {
    var t := jobs[p].team;
    var ph := s.phases[p];
    match m
    case Acquire =>
      s.(holder := Set(s.holder, t, Some(p)), phases := s.phases[p := Reading(None, None, None)],
         log := Set(s.log, t, s.log(t) + [p]))
    case ReadAccount => s.(phases := s.phases[p := ph.(account := Some(AccountOf(s.committed(t))))])
    case ReadPositions => s.(phases := s.phases[p := ph.(positions := Some(s.committed(t).book.positions))])
    case ReadOrders => s.(phases := s.phases[p := ph.(orders := Some(OrdersOf(s.committed(t))))])
    case Commit =>
      var result := jobs[p].body(Assembled(ph.account.value, ph.positions.value, ph.orders.value));
      s.(committed := if result.Some? then Set(s.committed, t, result.value) else s.committed,
         phases := s.phases[p := Finished])
    case Release => s.(holder := Set(s.holder, t, None), phases := s.phases[p := Released])
  }

  /** A schedule: which job moves next, and how. */
  type Schedule = seq<(nat, Move)>

  ghost predicate Legal(jobs: seq<Job>, s: Sys, schedule: Schedule)
    decreases |schedule|
  {
    schedule == [] || (
      Enabled(jobs, s, schedule[0].0, schedule[0].1)
      && Legal(jobs, Stepped(jobs, s, schedule[0].0, schedule[0].1), schedule[1..]))
  }

  ghost function Executed(jobs: seq<Job>, s: Sys, schedule: Schedule): Sys
    requires Legal(jobs, s, schedule)
    decreases |schedule|
  {
    if schedule == [] then s else Executed(jobs, Stepped(jobs, s, schedule[0].0, schedule[0].1), schedule[1..])
  }

  ghost function Initial(jobs: seq<Job>, committed: TeamId -> TeamRec): Sys {
    Sys(committed, (t: TeamId) => None, seq(|jobs|, i => Waiting), (t: TeamId) => [])
  }

  // ------------------------------------------------------------------ the serial reference

  function Apply(j: Job, t: TeamRec): TeamRec { if j.body(t).Some? then j.body(t).value else t }

  /** Run the listed jobs one after another, each to completion. */
  function Serially(jobs: seq<Job>, t: TeamRec, order: seq<nat>): TeamRec
    requires forall i | 0 <= i < |order| :: order[i] < |jobs|
  {
    if order == [] then t else Apply(jobs[order[|order| - 1]], Serially(jobs, t, order[..|order| - 1]))
  }

  /** The jobs that have taken the lock and committed or rolled back: all in the log but one still reading. */
  ghost function Complete(s: Sys, t: TeamId): seq<nat> {
    var log := s.log(t);
    if log != [] && log[|log| - 1] < |s.phases| && s.phases[log[|log| - 1]].Reading? then log[..|log| - 1] else log
  }

  /** A job's reads so far agree with what is committed now. */
  predicate Fresh(ph: Phase, t: TeamRec) {
    ph.Reading? ==>
      && (ph.account.Some? ==> ph.account.value == AccountOf(t))
      && (ph.positions.Some? ==> ph.positions.value == t.book.positions)
      && (ph.orders.Some? ==> ph.orders.value == OrdersOf(t))
  }

  predicate InSection(ph: Phase) { ph.Reading? || ph.Finished? }

  /** Whoever is inside a locked section holds its team's lock and was the last to take it. */
  ghost predicate Exclusive(jobs: seq<Job>, s: Sys) {
    && |s.phases| == |jobs|
    && (forall p | 0 <= p < |jobs| && InSection(s.phases[p]) :: s.holder(jobs[p].team) == Some(p))
    && (forall t: TeamId | s.holder(t).Some? :: HeldBy(jobs, s, t, s.holder(t).value))
    && (forall t: TeamId, i | 0 <= i < |s.log(t)| :: Logged(jobs, s, t, s.log(t)[i]))
  }

  ghost predicate HeldBy(jobs: seq<Job>, s: Sys, t: TeamId, p: nat) {
    p < |jobs| && p < |s.phases| && jobs[p].team == t && InSection(s.phases[p])
    && s.log(t) != [] && s.log(t)[|s.log(t)| - 1] == p
  }

  ghost predicate Logged(jobs: seq<Job>, s: Sys, t: TeamId, p: nat) {
    p < |jobs| && p < |s.phases| && jobs[p].team == t && !s.phases[p].Waiting?
  }

  /** Every read made inside a locked section is of what is committed now. */
  ghost predicate ReadsFresh(jobs: seq<Job>, s: Sys) {
    |s.phases| == |jobs| && forall p | 0 <= p < |jobs| :: Fresh(s.phases[p], s.committed(jobs[p].team))
  }

  /** Committed books are the serial result of the completed jobs. */
  ghost predicate Serial(jobs: seq<Job>, initial: TeamId -> TeamRec, s: Sys)
    requires Exclusive(jobs, s)
  {
    forall t: TeamId :: s.committed(t) == Serially(jobs, initial(t), Complete(s, t))
  }

  lemma ExclusiveStep(jobs: seq<Job>, s: Sys, p: nat, m: Move)
    requires Exclusive(jobs, s) && Enabled(jobs, s, p, m)
    ensures Exclusive(jobs, Stepped(jobs, s, p, m))
  {
    var s' := Stepped(jobs, s, p, m);
    var t := jobs[p].team;
    forall u: TeamId, i | 0 <= i < |s'.log(u)|
      ensures Logged(jobs, s', u, s'.log(u)[i])
    {
      if m.Acquire? && u == t && i == |s.log(t)| {
      } else {
        assert Logged(jobs, s, u, s.log(u)[i]);
      }
    }
    forall u: TeamId | s'.holder(u).Some?
      ensures HeldBy(jobs, s', u, s'.holder(u).value)
    {
      if !(m.Acquire? && u == t) {
        assert HeldBy(jobs, s, u, s.holder(u).value);
      }
    }
  }

  lemma FreshStep(jobs: seq<Job>, s: Sys, p: nat, m: Move)
    requires Exclusive(jobs, s) && ReadsFresh(jobs, s) && Enabled(jobs, s, p, m)
    ensures ReadsFresh(jobs, Stepped(jobs, s, p, m))
  {
    var s' := Stepped(jobs, s, p, m);
    forall q | 0 <= q < |jobs|
      ensures Fresh(s'.phases[q], s'.committed(jobs[q].team))
    {
      assert Fresh(s.phases[q], s.committed(jobs[q].team));
      if m.Commit? && q != p && jobs[q].team == jobs[p].team {
        assert InSection(s.phases[p]) && s.holder(jobs[p].team) == Some(p);
        assert !InSection(s.phases[q]);
      }
    }
  }

  /** What a job has read in full is the committed state, so it commits exactly one serial step. */
  lemma CommitIsSerial(jobs: seq<Job>, s: Sys, p: nat)
    requires Exclusive(jobs, s) && ReadsFresh(jobs, s) && Enabled(jobs, s, p, Commit)
    ensures var t := jobs[p].team;
      var ph := s.phases[p];
      && Assembled(ph.account.value, ph.positions.value, ph.orders.value) == s.committed(t)
      && Stepped(jobs, s, p, Commit).committed(t) == Apply(jobs[p], s.committed(t))
      && s.log(t) != [] && s.log(t)[|s.log(t)| - 1] == p
  {
    assert Fresh(s.phases[p], s.committed(jobs[p].team));
    assert InSection(s.phases[p]);
  }

  lemma SerialStep(jobs: seq<Job>, initial: TeamId -> TeamRec, s: Sys, p: nat, m: Move)
    requires Exclusive(jobs, s) && ReadsFresh(jobs, s) && Serial(jobs, initial, s) && Enabled(jobs, s, p, m)
    ensures Exclusive(jobs, Stepped(jobs, s, p, m)) && Serial(jobs, initial, Stepped(jobs, s, p, m))
  {
    hide Exclusive, ReadsFresh, Complete, Stepped, Enabled, Serially;
    ExclusiveStep(jobs, s, p, m);
    LoggedJobs(jobs, s);
    LoggedJobs(jobs, Stepped(jobs, s, p, m));
    forall u: TeamId
      ensures Stepped(jobs, s, p, m).committed(u) == Serially(jobs, initial(u), Complete(Stepped(jobs, s, p, m), u))
    {
      assert s.committed(u) == Serially(jobs, initial(u), Complete(s, u));
      SerialFor(jobs, initial(u), s, p, m, u);
    }
  }

  lemma LoggedJobs(jobs: seq<Job>, s: Sys)
    requires Exclusive(jobs, s)
    ensures forall u: TeamId, i | 0 <= i < |Complete(s, u)| :: Complete(s, u)[i] < |jobs|
  {
    forall u: TeamId, i | 0 <= i < |Complete(s, u)|
      ensures Complete(s, u)[i] < |jobs|
    {
      assert Logged(jobs, s, u, s.log(u)[i]);
    }
  }

  lemma SerialFor(jobs: seq<Job>, t: TeamRec, s: Sys, p: nat, m: Move, u: TeamId)
    requires Exclusive(jobs, s) && ReadsFresh(jobs, s) && Enabled(jobs, s, p, m)
    requires Exclusive(jobs, Stepped(jobs, s, p, m)) && s.committed(u) == Serially(jobs, t, Complete(s, u))
    ensures Stepped(jobs, s, p, m).committed(u) == Serially(jobs, t, Complete(Stepped(jobs, s, p, m), u))
  {
    CommittedStep(jobs, s, p, m, u);
    CompleteStep(jobs, s, p, m, u);
    hide Exclusive, ReadsFresh, Complete, Stepped, Enabled;
    if m.Commit? && u == jobs[p].team {
      var order := Complete(s, u) + [p];
      assert order[..|order| - 1] == Complete(s, u);
    }
  }

  /** Only a commit changes committed state: its own team's, by its own job. */
  lemma CommittedStep(jobs: seq<Job>, s: Sys, p: nat, m: Move, u: TeamId)
    requires Exclusive(jobs, s) && ReadsFresh(jobs, s) && Enabled(jobs, s, p, m)
    ensures Stepped(jobs, s, p, m).committed(u)
         == if m.Commit? && u == jobs[p].team then Apply(jobs[p], s.committed(u)) else s.committed(u)
    ensures m.Commit? ==> s.log(jobs[p].team) != [] && s.log(jobs[p].team)[|s.log(jobs[p].team)| - 1] == p
  {
    if m.Commit? { CommitIsSerial(jobs, s, p); }
  }

  /** Same log, and its last job reading in both or in neither: the same jobs are complete. */
  lemma CompleteSame(s: Sys, s': Sys, u: TeamId)
    requires s'.log(u) == s.log(u) && |s'.phases| == |s.phases|
    requires s.log(u) != [] ==>
      var q := s.log(u)[|s.log(u)| - 1]; q < |s.phases| && s'.phases[q].Reading? == s.phases[q].Reading?
    ensures Complete(s', u) == Complete(s, u)
  {
  }

  lemma AcquireCompletes(jobs: seq<Job>, s: Sys, p: nat)
    requires Exclusive(jobs, s) && Enabled(jobs, s, p, Acquire)
    ensures Complete(Stepped(jobs, s, p, Acquire), jobs[p].team) == Complete(s, jobs[p].team)
  {
    var log := s.log(jobs[p].team);
    if log != [] { LastLogged(jobs, s, jobs[p].team); }
    hide Exclusive;
    assert (log + [p])[..|log|] == log;
  }

  lemma CommitCompletes(jobs: seq<Job>, s: Sys, p: nat)
    requires Enabled(jobs, s, p, Commit)
    requires s.log(jobs[p].team) != [] && s.log(jobs[p].team)[|s.log(jobs[p].team)| - 1] == p
    ensures Complete(Stepped(jobs, s, p, Commit), jobs[p].team) == Complete(s, jobs[p].team) + [p]
  {
    var log := s.log(jobs[p].team);
    assert log == log[..|log| - 1] + [p];
  }

  /** A commit completes its own job; no other step completes any. */
  lemma CompleteStep(jobs: seq<Job>, s: Sys, p: nat, m: Move, u: TeamId)
    requires Exclusive(jobs, s) && Enabled(jobs, s, p, m)
    requires m.Commit? ==> s.log(jobs[p].team) != [] && s.log(jobs[p].team)[|s.log(jobs[p].team)| - 1] == p
    ensures Complete(Stepped(jobs, s, p, m), u)
         == if m.Commit? && u == jobs[p].team then Complete(s, u) + [p] else Complete(s, u)
  {
    if s.log(u) != [] { LastLogged(jobs, s, u); }
    if u == jobs[p].team && m.Acquire? {
      AcquireCompletes(jobs, s, p);
    } else if u == jobs[p].team && m.Commit? {
      CommitCompletes(jobs, s, p);
    } else {
      hide Exclusive, Complete;
      CompleteSame(s, Stepped(jobs, s, p, m), u);
    }
  }

  /** The last job to have taken a team's lock is one of the team's, and holds it while it reads. */
  lemma LastLogged(jobs: seq<Job>, s: Sys, u: TeamId)
    requires Exclusive(jobs, s) && s.log(u) != []
    ensures var q := s.log(u)[|s.log(u)| - 1];
      q < |jobs| && q < |s.phases| && jobs[q].team == u && (s.phases[q].Reading? ==> s.holder(u) == Some(q))
  {
    var q := s.log(u)[|s.log(u)| - 1];
    assert Logged(jobs, s, u, q);
    assert s.phases[q].Reading? ==> InSection(s.phases[q]);
  }

  /** No team's log repeats a job, and every job that is under way or done is in its team's. */
  ghost predicate Once(jobs: seq<Job>, s: Sys) {
    && |s.phases| == |jobs|
    && (forall t: TeamId, i, j | 0 <= i < j < |s.log(t)| :: s.log(t)[i] != s.log(t)[j])
    && (forall p | 0 <= p < |jobs| && !s.phases[p].Waiting? :: p in s.log(jobs[p].team))
  }

  lemma OnceStep(jobs: seq<Job>, s: Sys, p: nat, m: Move)
    requires Exclusive(jobs, s) && Once(jobs, s) && Enabled(jobs, s, p, m)
    ensures Once(jobs, Stepped(jobs, s, p, m))
  {
    if m.Acquire? { WaitingIsNotLogged(jobs, s, p); }
  }

  lemma WaitingIsNotLogged(jobs: seq<Job>, s: Sys, p: nat)
    requires Exclusive(jobs, s) && p < |jobs| && s.phases[p].Waiting?
    ensures p !in s.log(jobs[p].team)
  {
    var log := s.log(jobs[p].team);
    forall i | 0 <= i < |log|
      ensures log[i] != p
    {
      assert Logged(jobs, s, jobs[p].team, s.log(jobs[p].team)[i]);
    }
  }

  /** What every schedule keeps. */
  ghost predicate Kept(jobs: seq<Job>, initial: TeamId -> TeamRec, s: Sys) {
    Exclusive(jobs, s) && Once(jobs, s) && ReadsFresh(jobs, s) && Serial(jobs, initial, s)
  }

  lemma {:induction false} ScheduleKeeps(jobs: seq<Job>, initial: TeamId -> TeamRec, s: Sys, schedule: Schedule)
    requires Kept(jobs, initial, s) && Legal(jobs, s, schedule)
    ensures Kept(jobs, initial, Executed(jobs, s, schedule))
    decreases |schedule|
  {
    hide Exclusive, Once, ReadsFresh, Serial, Enabled, Stepped;
    if schedule != [] {
      var p, m := schedule[0].0, schedule[0].1;
      SerialStep(jobs, initial, s, p, m);
      OnceStep(jobs, s, p, m);
      FreshStep(jobs, s, p, m);
      ScheduleKeeps(jobs, initial, Stepped(jobs, s, p, m), schedule[1..]);
    }
  }

  lemma InitialKept(jobs: seq<Job>, initial: TeamId -> TeamRec)
    ensures Kept(jobs, initial, Initial(jobs, initial))
  {
  }

  /** Main result. Under every legal schedule of any jobs on any teams, whoever is inside a locked section
      holds the lock and has read what is committed now, and each team's committed state is what its
      completed jobs would have left run one after another in the order they took the lock. A team whose
      lock is free has completed every job logged for it; once all jobs are done, each is logged once. */
  lemma EveryScheduleIsSerial(jobs: seq<Job>, initial: TeamId -> TeamRec, schedule: Schedule)
    requires Legal(jobs, Initial(jobs, initial), schedule)
    ensures var r := Executed(jobs, Initial(jobs, initial), schedule);
      && Exclusive(jobs, r) && ReadsFresh(jobs, r) && Serial(jobs, initial, r)
      && (forall t: TeamId | r.holder(t).None? :: r.committed(t) == Serially(jobs, initial(t), r.log(t)))
      && (AllReleased(r) ==> Once(jobs, r) && forall p | 0 <= p < |jobs| :: p in r.log(jobs[p].team))
  {
    hide Initial, Serially, ReadsFresh;
    InitialKept(jobs, initial);
    ScheduleKeeps(jobs, initial, Initial(jobs, initial), schedule);
    var r := Executed(jobs, Initial(jobs, initial), schedule);
    forall t: TeamId | r.holder(t).None?
      ensures r.committed(t) == Serially(jobs, initial(t), r.log(t))
    {
      if r.log(t) != [] { LastLogged(jobs, r, t); }
      assert r.committed(t) == Serially(jobs, initial(t), Complete(r, t));
    }
  }

  // ------------------------------------------------------------------ nobody waits for ever

  predicate AllReleased(s: Sys) { forall p | 0 <= p < |s.phases| :: s.phases[p].Released? }

  /** Moves a job has left to make. */
  function Left(ph: Phase): nat {
    match ph
    case Waiting => 6
    case Reading(a, ps, o) => 2 + (if a.None? then 1 else 0) + (if ps.None? then 1 else 0) + (if o.None? then 1 else 0)
    case Finished => 1
    case Released => 0
  }

  function AllLeft(phases: seq<Phase>): nat {
    if phases == [] then 0 else Left(phases[0]) + AllLeft(phases[1..])
  }

  lemma {:induction false} AllLeftUpdate(phases: seq<Phase>, p: nat, ph: Phase)
    requires p < |phases|
    ensures AllLeft(phases[p := ph]) == AllLeft(phases) - Left(phases[p]) + Left(ph)
  {
    if p > 0 {
      assert phases[p := ph][1..] == phases[1..][p - 1 := ph];
      AllLeftUpdate(phases[1..], p - 1, ph);
    }
  }

  /** The next move of a job inside its section. */
  function NextMove(ph: Phase): Move
    requires InSection(ph)
  {
    match ph
    case Finished => Release
    case Reading(a, ps, o) =>
      if a.None? then ReadAccount else if ps.None? then ReadPositions else if o.None? then ReadOrders else Commit
  }

  /** No deadlock: while a job is unfinished, it or the holder of the lock it waits for can move forward. */
  lemma SomeoneMoves(jobs: seq<Job>, s: Sys, p: nat) returns (q: nat, m: Move)
    requires Exclusive(jobs, s) && p < |jobs| && !s.phases[p].Released?
    ensures Enabled(jobs, s, q, m)
    ensures var s' := Stepped(jobs, s, q, m);
      s'.phases == s.phases[q := s'.phases[q]] && Left(s'.phases[q]) < Left(s.phases[q])
  {
    var t := jobs[p].team;
    if s.phases[p].Waiting? && s.holder(t).None? {
      q, m := p, Acquire;
    } else if s.phases[p].Waiting? {
      q := s.holder(t).value;
      assert HeldBy(jobs, s, t, q);
      m := NextMove(s.phases[q]);
    } else {
      q, m := p, NextMove(s.phases[p]);
    }
  }

  /** Main result. From any state the locks allow, some schedule completes and releases every job. */
  lemma {:induction false} EveryJobCanFinish(jobs: seq<Job>, s: Sys) returns (schedule: Schedule)
    requires Exclusive(jobs, s)
    ensures Legal(jobs, s, schedule) && AllReleased(Executed(jobs, s, schedule))
    decreases AllLeft(s.phases)
  {
    hide Exclusive, Enabled, Stepped, Left;
    schedule := [];
    if !AllReleased(s) {
      var p :| 0 <= p < |s.phases| && !s.phases[p].Released?;
      PhasesMatch(jobs, s);
      var q, m := SomeoneMoves(jobs, s, p);
      EnabledJob(jobs, s, q, m);
      var s' := Stepped(jobs, s, q, m);
      AllLeftUpdate(s.phases, q, s'.phases[q]);
      ExclusiveStep(jobs, s, q, m);
      var rest := EveryJobCanFinish(jobs, s');
      schedule := [(q, m)] + rest;
      assert schedule[1..] == rest;
    }
  }

  lemma PhasesMatch(jobs: seq<Job>, s: Sys)
    requires Exclusive(jobs, s)
    ensures |s.phases| == |jobs|
  {
  }

  lemma EnabledJob(jobs: seq<Job>, s: Sys, p: nat, m: Move)
    requires Enabled(jobs, s, p, m)
    ensures p < |jobs| == |s.phases|
  {
  }

  // ------------------------------------------------------------------ what a team's jobs each keep, they keep together

  lemma {:induction false} SerialInvariant(
    jobs: seq<Job>, team: TeamId, P: TeamRec -> bool, t: TeamRec, order: seq<nat>)
    requires forall p: nat, u: TeamRec | p < |jobs| && jobs[p].team == team && P(u) :: P(Apply(jobs[p], u))
    requires forall i | 0 <= i < |order| :: order[i] < |jobs| && jobs[order[i]].team == team
    requires P(t)
    ensures P(Serially(jobs, t, order))
  {
    if order != [] {
      SerialInvariant(jobs, team, P, t, order[..|order| - 1]);
    }
  }

  /** Main result. Whatever every single job of a team keeps true is true of the team's committed state
      under every interleaving with any jobs of any other teams. */
  lemma InvariantsSurvive(
    jobs: seq<Job>, initial: TeamId -> TeamRec, schedule: Schedule, team: TeamId, P: TeamRec -> bool)
    requires forall p: nat, u: TeamRec | p < |jobs| && jobs[p].team == team && P(u) :: P(Apply(jobs[p], u))
    requires P(initial(team)) && Legal(jobs, Initial(jobs, initial), schedule)
    ensures P(Executed(jobs, Initial(jobs, initial), schedule).committed(team))
  {
    hide Initial;
    EveryScheduleIsSerial(jobs, initial, schedule);
    var r := Executed(jobs, Initial(jobs, initial), schedule);
    forall i | 0 <= i < |r.log(team)|
      ensures r.log(team)[i] < |jobs| && jobs[r.log(team)[i]].team == team
    {
      assert Logged(jobs, r, team, r.log(team)[i]);
    }
    SerialInvariant(jobs, team, P, initial(team), Complete(r, team));
  }

  /** The job of a run of locked steps committed together: placing an order, a cancel, the sweep of all a
      team's working orders, a risk check, an adjustment. */
  ghost function RunJob(team: TeamId, steps: seq<Step>, ticks: Ticks): Job {
    Job(team, (t: TeamRec) =>
      if TeamOk(t, ticks) && SoundTrace(steps, ticks) then Some(After(t, steps, ticks)) else None)
  }

  /** Every job of `team` is such a run: job `p` runs `runs[p]`. */
  ghost predicate RunsOf(jobs: seq<Job>, runs: seq<seq<Step>>, team: TeamId, ticks: Ticks) {
    |runs| == |jobs| && forall p | 0 <= p < |jobs| && jobs[p].team == team :: jobs[p] == RunJob(team, runs[p], ticks)
  }

  /** The sweep of a team's working orders is one such job. */
  lemma SweepIsOneJob(team: TeamId, ids: seq<nat>, env: Env, ticks: Ticks, t: TeamRec)
    requires Uses(env, ticks) && env.rules.margin.liquidateTo > 0 && TeamOk(t, ticks)
    ensures var steps := seq(|ids|, k requires 0 <= k < |ids| => Step(SweepOrder(ids[k]), env));
      && (forall k | 0 <= k < |steps| :: Trading(steps[k].action) && steps[k].env == env)
      && Apply(RunJob(team, steps, ticks), t) == SweepAll(t, ids, env)
  {
    hide SweepOne, TeamOk, Uses;
    SweepIsARun(t, ids, env, ticks);
  }

  /** Main result. However many orders, cancels and sweeps of all its working orders are in flight for a team at
      fixed prices, and however they interleave, they cannot jointly take its available funds below zero. */
  lemma NoJointOverspend(
    jobs: seq<Job>, runs: seq<seq<Step>>, initial: TeamId -> TeamRec, schedule: Schedule,
    env: Env, ticks: Ticks, team: TeamId)
    requires RunsOf(jobs, runs, team, ticks)
    requires forall p, k | 0 <= p < |runs| && 0 <= k < |runs[p]| :: Trading(runs[p][k].action) && runs[p][k].env == env
    requires Uses(env, ticks) && TeamOk(initial(team), ticks) && AvailableFunds(initial(team), env) >= 0
    requires Legal(jobs, Initial(jobs, initial), schedule)
    ensures AvailableFunds(Executed(jobs, Initial(jobs, initial), schedule).committed(team), env) >= 0
  {
    hide TeamOk, AvailableFunds, Initial, Uses, SoundTrace, Continues, Legal, Executed, After;
    var P := (u: TeamRec) => TeamOk(u, ticks) && AvailableFunds(u, env) >= 0;
    forall p: nat, u: TeamRec | p < |jobs| && jobs[p].team == team && P(u)
      ensures P(Apply(jobs[p], u))
    {
      if SoundTrace(runs[p], ticks) {
        RunKeeps(u, runs[p], ticks);
        NoMoneyPump(u, runs[p], ticks, env);
      }
    }
    InvariantsSurvive(jobs, initial, schedule, team, P);
  }

  /** Main result. However many research reports a team's members buy at once, its cash does not go below zero. */
  lemma NoJointOverdraft(
    jobs: seq<Job>, runs: seq<seq<Step>>, initial: TeamId -> TeamRec, schedule: Schedule, ticks: Ticks, team: TeamId)
    requires RunsOf(jobs, runs, team, ticks)
    requires forall p, k | 0 <= p < |runs| && 0 <= k < |runs[p]| :: runs[p][k].action.BuyResearch?
    requires TeamOk(initial(team), ticks) && initial(team).book.cash >= 0
    requires Legal(jobs, Initial(jobs, initial), schedule)
    ensures Executed(jobs, Initial(jobs, initial), schedule).committed(team).book.cash >= 0
  {
    hide TeamOk, Initial, SoundTrace, Continues, Legal, Executed, After;
    var P := (u: TeamRec) => TeamOk(u, ticks) && u.book.cash >= 0;
    forall p: nat, u: TeamRec | p < |jobs| && jobs[p].team == team && P(u)
      ensures P(Apply(jobs[p], u))
    {
      if SoundTrace(runs[p], ticks) {
        RunKeeps(u, runs[p], ticks);
        ResearchRun(u, runs[p], ticks);
      }
    }
    InvariantsSurvive(jobs, initial, schedule, team, P);
  }

  lemma {:induction false} ResearchRun(t: TeamRec, steps: seq<Step>, ticks: Ticks)
    requires TeamOk(t, ticks) && SoundTrace(steps, ticks) && t.book.cash >= 0
    requires forall k | 0 <= k < |steps| :: steps[k].action.BuyResearch?
    ensures After(t, steps, ticks).book.cash >= 0
  {
    hide TeamOk, SoundStep, Continues, Researched;
    if steps != [] {
      var n := |steps| - 1;
      var t1 := After(t, steps[..n], ticks);
      ResearchRun(t, steps[..n], ticks);
      RunKeeps(t, steps[..n], ticks);
      TeamBook(t1, ticks);
      ResearchIsPaidFor(t1.book, steps[n].action.cost);
    }
  }
}
