/** The termination ladder of a session: the exit latch with its tightening
    deadline, the proportional budget, and the escalator (session.rs). */
module Ladder {
  import opened Common

  /** Milliseconds on a clock that never runs backwards. */
  type Time = real

  const INTERRUPT_GRACE: Time := 2000.0
  const TERMINATE_GRACE: Time := 2000.0
  const FORCE_EOF_GRACE: Time := 1000.0
  const FULL_BUDGET: Time := INTERRUPT_GRACE + TERMINATE_GRACE + FORCE_EOF_GRACE
  const MINIMUM_GRACE: Time := 50.0
  const POLL: Time := 50.0

  function Min(a: Time, b: Time): Time {
    if a < b then a else b
  }

  function Max(a: Time, b: Time): Time {
    if a > b then a else b
  }

  // ----------------------------------------------------------------- budget

  function ScaledGrace(remaining: Time, default: Time): Time {
    var share := remaining * (default / FULL_BUDGET);
    if share < MINIMUM_GRACE then MINIMUM_GRACE else if share > default then default else share
  }

  datatype Graces = Graces(interrupt: Time, terminate: Time, forceEof: Time) {
    function Sum(): Time {
      interrupt + terminate + forceEof
    }
  }

  function GracesFor(remaining: Time): Graces {
    if remaining >= FULL_BUDGET
    then Graces(INTERRUPT_GRACE, TERMINATE_GRACE, FORCE_EOF_GRACE)
    else Graces(ScaledGrace(remaining, INTERRUPT_GRACE), ScaledGrace(remaining, TERMINATE_GRACE),
                ScaledGrace(remaining, FORCE_EOF_GRACE))
  }

  function ScaledGraces(deadline: Option<Time>, now: Time): Graces {
    match deadline
    case None => Graces(INTERRUPT_GRACE, TERMINATE_GRACE, FORCE_EOF_GRACE)
    case Some(d) => GracesFor(Max(d - now, 0.0))
  }

  ghost predicate WithinDefaults(g: Graces) {
    && MINIMUM_GRACE <= g.interrupt <= INTERRUPT_GRACE
    && MINIMUM_GRACE <= g.terminate <= TERMINATE_GRACE
    && MINIMUM_GRACE <= g.forceEof <= FORCE_EOF_GRACE
  }

  /** Every grace lies between the floor and its default, whatever the deadline. */
  lemma GracesAreBounded(deadline: Option<Time>, now: Time)
    ensures WithinDefaults(ScaledGraces(deadline, now))
  {
  }

  /** The graces spend the remaining time exactly when it is between five floors
      and the full budget; below that they overspend it, never by more than
      three floors, and above it they leave the rest. */
  lemma GracesSpendTheBudget(remaining: Time)
    requires remaining >= 0.0
    ensures GracesFor(remaining).Sum() == remaining <==> 5.0 * MINIMUM_GRACE <= remaining <= FULL_BUDGET
    ensures GracesFor(remaining).Sum() > remaining <==> remaining < 5.0 * MINIMUM_GRACE
    ensures remaining < 5.0 * MINIMUM_GRACE ==>
      3.0 * MINIMUM_GRACE <= GracesFor(remaining).Sum() < 5.0 * MINIMUM_GRACE
  {
  }

  /** So the graces given for a deadline spend the time to it, when that is worth
      splitting; and without one they are the full budget. */
  lemma DeadlineIsTheBudget(d: Time, now: Time)
    ensures ScaledGraces(Some(d), now) == GracesFor(Max(d - now, 0.0))
    ensures 5.0 * MINIMUM_GRACE <= d - now <= FULL_BUDGET ==> ScaledGraces(Some(d), now).Sum() == d - now
    ensures d - now > FULL_BUDGET ==> ScaledGraces(Some(d), now).Sum() == FULL_BUDGET
    ensures d - now < 5.0 * MINIMUM_GRACE ==> ScaledGraces(Some(d), now).Sum() < 5.0 * MINIMUM_GRACE
    ensures ScaledGraces(None, now).Sum() == FULL_BUDGET
  {
    GracesSpendTheBudget(Max(d - now, 0.0));
  }

  /** They are split as the defaults are: two, two and one fifth. */
  lemma BudgetIsSplitInProportion(d: Time, now: Time)
    requires 5.0 * MINIMUM_GRACE <= d - now <= FULL_BUDGET
    ensures ScaledGraces(Some(d), now) == Graces(0.4 * (d - now), 0.4 * (d - now), 0.2 * (d - now))
  {
  }

  /** More time never buys a shorter grace. */
  lemma GracesAreMonotone(less: Time, more: Time)
    requires less <= more
    ensures GracesFor(less).interrupt <= GracesFor(more).interrupt
    ensures GracesFor(less).terminate <= GracesFor(more).terminate
    ensures GracesFor(less).forceEof <= GracesFor(more).forceEof
  {
  }

  // ------------------------------------------------- what other threads will do

  /** `Spurious` is a wake with nothing behind it. */
  datatype Change = Conclude | Bound(deadline: Time) | Spurious

  datatype Happening = Happening(at: Time, change: Change)

  datatype LatchState = LatchState(exited: bool, deadline: Option<Time>)

  function Apply(s: LatchState, c: Change): LatchState {
    match c
    case Conclude => s.(exited := true)
    case Bound(d) => s.(deadline := Some(if s.deadline.Some? then Min(s.deadline.value, d) else d))
    case Spurious => s
  }

  ghost predicate InOrder(coming: seq<Happening>) {
    forall i, j | 0 <= i < j < |coming| :: coming[i].at <= coming[j].at
  }

  /** The latch at an instant, if nobody but these happenings touch it. */
  function StateAt(s: LatchState, coming: seq<Happening>, t: Time): LatchState
    decreases |coming|
  {
    if coming == [] || coming[0].at > t then s
    else StateAt(Apply(s, coming[0].change), coming[1..], t)
  }

  /** No deadline may be relaxed and no exit undone. */
  predicate Tightens(before: LatchState, after: LatchState) {
    && (before.exited ==> after.exited)
    && (before.deadline.Some? ==> after.deadline.Some? && after.deadline.value <= before.deadline.value)
  }

  lemma {:induction false} OnlyTightens(s: LatchState, coming: seq<Happening>, t0: Time, t1: Time)
    requires t0 <= t1
    ensures Tightens(s, StateAt(s, coming, t0))
    ensures Tightens(StateAt(s, coming, t0), StateAt(s, coming, t1))
    decreases |coming|
  {
    if coming != [] {
      OnlyTightens(Apply(s, coming[0].change), coming[1..], t0, t1);
    }
  }

  /** The deadline at an instant is the least of all that were asked for by then. */
  lemma {:induction false} DeadlineIsTheTightest(s: LatchState, coming: seq<Happening>, t: Time, k: nat)
    requires InOrder(coming) && k < |coming| && coming[k].at <= t && coming[k].change.Bound?
    ensures StateAt(s, coming, t).deadline.Some?
    ensures StateAt(s, coming, t).deadline.value <= coming[k].change.deadline
    decreases |coming|
  {
    var next := Apply(s, coming[0].change);
    if k == 0 {
      OnlyTightens(next, coming[1..], t, t);
    } else {
      DeadlineIsTheTightest(next, coming[1..], t, k - 1);
    }
  }

  /** The latch as it is and as it will be. */
  datatype Timeline = Timeline(latch: LatchState, coming: seq<Happening>) {
    function At(t: Time): LatchState {
      StateAt(latch, coming, t)
    }
  }

  lemma TimelineTightens(line: Timeline, t0: Time, t1: Time)
    requires t0 <= t1
    ensures Tightens(line.At(t0), line.At(t1))
  {
    OnlyTightens(line.latch, line.coming, t0, t1);
  }

  // ------------------------------------------------------------- one rung

  datatype PhaseWait = Exited | GraceElapsed | DeadlineReached

  predicate Due(s: LatchState, t: Time) {
    s.deadline.Some? && s.deadline.value <= t
  }

  /** A rung has no reason to wait beyond this instant. */
  predicate Stops(line: Timeline, graceEnds: Time, t: Time) {
    line.At(t).exited || Due(line.At(t), t) || graceEnds <= t
  }

  /** A rung ended at the first instant it had reason to, not before or after. */
  ghost predicate EndedFirst(line: Timeline, from: Time, graceEnds: Time, end: Time) {
    && from <= end && Stops(line, graceEnds, end)
    && forall t | from <= t < end :: !Stops(line, graceEnds, t)
  }

  /** The instant by which whatever was in force at `t` should have ended
      something that began at `from`. */
  function Expected(line: Timeline, from: Time, t: Time): Option<Time> {
    match line.At(t).deadline
    case None => None
    case Some(d) => Some(Max(from, Max(t, d)))
  }

  /** So no rung waits past its grace, nor past a deadline: not one that was
      set before it, nor one set while it waits. */
  lemma NoRungOutlastsADeadline(line: Timeline, from: Time, graceEnds: Time, end: Time, t: Time)
    requires EndedFirst(line, from, graceEnds, end) && from <= graceEnds
    ensures end <= graceEnds
    ensures Expected(line, from, t).Some? ==> end <= Expected(line, from, t).value
  {
    assert Stops(line, graceEnds, graceEnds);
    var latest := Expected(line, from, t);
    if latest.Some? {
      TimelineTightens(line, t, latest.value);
      assert Stops(line, graceEnds, latest.value);
    }
  }

  /** A rung is a rung of every timeline that agrees from its start. */
  lemma RungOfTheWhole(line: Timeline, later: Timeline, from: Time, graceEnds: Time, end: Time)
    requires EndedFirst(later, from, graceEnds, end)
    requires forall t | from <= t :: later.At(t) == line.At(t)
    ensures EndedFirst(line, from, graceEnds, end)
  {
    forall t | from <= t ensures Stops(line, graceEnds, t) <==> Stops(later, graceEnds, t) {
    }
  }

  // --------------------------------------------------------- watching the tree

  /** The process tree as the escalator sees it: until when it has live members. */
  datatype Tree = Untracked | Tracked(gone: Option<Time>) {
    predicate HasLiveMembers(now: Time) {
      Tracked? && (gone.Some? ==> now < gone.value)
    }
  }

  function Poll(from: Time, k: nat): Time {
    from + k as real * POLL
  }

  lemma PollsAscend(from: Time, j: nat, k: nat)
    ensures j <= k ==> Poll(from, j) <= Poll(from, k)
    ensures Poll(from, k + 1) == Poll(from, k) + POLL
  {
    assert (k + 1) as real == k as real + 1.0;
  }

  /** A watch ended at the first look that found nobody, or at its bound. */
  ghost predicate Watched(tree: Tree, from: Time, bound: Time, end: Time) {
    && from <= end <= Max(from, bound)
    && (tree.HasLiveMembers(end) ==> bound <= end)
    && (end == bound || exists k: nat :: end == Poll(from, k))
    && forall k: nat | Poll(from, k) < end :: tree.HasLiveMembers(Poll(from, k))
  }

  /** The last look at or before an instant. */
  function LastLook(from: Time, t: Time): (k: nat)
    requires from <= t
    ensures Poll(from, k) <= t < Poll(from, k + 1)
  {
    ((t - from) / POLL).Floor
  }

  /** A watch lasts beyond an instant exactly when its bound does and its last
      look by then still found someone. */
  lemma OutlastsExactly(tree: Tree, from: Time, bound: Time, end: Time, t: Time)
    requires Watched(tree, from, bound, end) && from <= t
    ensures t < end <==> t < bound && tree.HasLiveMembers(Poll(from, LastLook(from, t)))
  {
    hide Poll;
    var last := LastLook(from, t);
    if end <= t < bound {
      var k: nat :| end == Poll(from, k);
      if k > last {
        PollsAscend(from, last + 1, k);
      }
      PollsAscend(from, k, last);
    }
  }

  // ---------------------------------------------------------------- the ladder

  /** When the rungs of one run of the ladder ended, in order, as far as it went:
      SIGTERM goes out at `interrupted`, the sweep at `swept`. */
  datatype Run = Run(interrupted: Time, terminated: Option<Time>, watched: Option<Time>, swept: Option<Time>, forced: bool)

  /** When a run began, the graces it was given, and how long its signals took. */
  datatype Pace = Pace(start: Time, graces: Graces, signalling: Time, sweeping: Time) {
    ghost predicate Valid() {
      WithinDefaults(graces) && signalling >= 0.0 && sweeping >= 0.0
    }

    function Terminating(run: Run): Time {
      run.interrupted + signalling
    }

    function Forcing(run: Run): Time
      requires run.swept.Some?
    {
      run.swept.value + sweeping
    }

    function Waited(run: Run, end: Time): Time {
      (run.interrupted - start)
      + (if run.terminated.Some? then run.terminated.value - Terminating(run) else 0.0)
      + (if run.swept.Some? then end - Forcing(run) else 0.0)
    }

    /** Until when the tree is watched: the bound is read as the rung begins. */
    function Bound(line: Timeline, run: Run): Time {
      var graceEnds := Terminating(run) + graces.terminate;
      match line.At(Terminating(run)).deadline
      case None => graceEnds
      case Some(d) => Min(graceEnds, d)
    }
  }

  ghost predicate InterruptRung(line: Timeline, tree: Tree, pace: Pace, run: Run) {
    && EndedFirst(line, pace.start, pace.start + pace.graces.interrupt, run.interrupted)
    && (run.terminated.None? <==> line.At(run.interrupted).exited && !tree.HasLiveMembers(run.interrupted))
  }

  ghost predicate TerminateRung(line: Timeline, tree: Tree, pace: Pace, run: Run)
    requires run.terminated.Some?
  {
    var from, end := pace.Terminating(run), run.terminated.value;
    && EndedFirst(line, from, from + pace.graces.terminate, end)
    && (run.watched.Some? <==> line.At(end).exited)
    && (run.watched.Some? ==> Watched(tree, end, pace.Bound(line, run), run.watched.value))
    && (run.swept.Some? <==> (run.watched.Some? ==> tree.HasLiveMembers(run.watched.value)))
    && (run.swept.Some? ==> run.swept.value == if run.watched.Some? then run.watched.value else end)
  }

  ghost predicate SweepRung(line: Timeline, pace: Pace, run: Run, end: Time)
    requires run.terminated.Some? && run.swept.Some?
  {
    var from, jump := pace.Forcing(run), run.watched.None? && Due(line.At(run.terminated.value), run.terminated.value);
    && (if jump then end == from else EndedFirst(line, from, from + pace.graces.forceEof, end))
    && (run.forced <==> jump || !line.At(end).exited)
  }

  /** A run of the ladder: each rung it reached began when the one before it
      ended, and ended for cause; and how it ended. */
  ghost predicate Escalated(line: Timeline, tree: Tree, pace: Pace, run: Run, end: Time) {
    && InterruptRung(line, tree, pace, run)
    && if run.terminated.None? then
         end == run.interrupted && run.watched.None? && run.swept.None? && !run.forced
       else
         && TerminateRung(line, tree, pace, run)
         && if run.swept.None? then end == run.watched.value && !run.forced
            else SweepRung(line, pace, run, end)
  }

  /** The three waits fit the budget, and so does the whole ladder. */
  lemma WaitsFitTheBudget(line: Timeline, tree: Tree, pace: Pace, run: Run, end: Time)
    requires pace.Valid() && Escalated(line, tree, pace, run, end)
    ensures pace.Waited(run, end) <= FULL_BUDGET
    ensures end <= pace.start + FULL_BUDGET + pace.signalling + pace.sweeping
  {
    hide EndedFirst;
    var g := pace.graces;
    NoRungOutlastsADeadline(line, pace.start, pace.start + g.interrupt, run.interrupted, pace.start);
    if run.terminated.Some? {
      var from := pace.Terminating(run);
      NoRungOutlastsADeadline(line, from, from + g.terminate, run.terminated.value, from);
      if run.swept.Some? && end != pace.Forcing(run) {
        NoRungOutlastsADeadline(line, pace.Forcing(run), pace.Forcing(run) + g.forceEof, end, from);
      }
    }
  }

  /** SIGTERM precedes the sweep, which precedes the forced end of file. */
  lemma SignalsAreInOrder(line: Timeline, tree: Tree, pace: Pace, run: Run, end: Time)
    requires pace.Valid() && Escalated(line, tree, pace, run, end)
    ensures pace.start <= run.interrupted <= end
    ensures run.swept.Some? ==> run.terminated.Some? && run.interrupted + pace.signalling <= run.swept.value
    ensures run.swept.Some? ==> run.swept.value + pace.sweeping <= end
    ensures run.forced ==> run.swept.Some?
  {
  }

  /** No step is taken before its grace is over, but on a deadline that has come;
      and SIGTERM goes out early to what a concluded session left behind. */
  lemma NoStepIsEarly(line: Timeline, tree: Tree, pace: Pace, run: Run, end: Time)
    requires pace.Valid() && Escalated(line, tree, pace, run, end)
    ensures run.terminated.Some? ==>
      || pace.start + pace.graces.interrupt <= run.interrupted
      || Due(line.At(run.interrupted), run.interrupted)
      || (line.At(run.interrupted).exited && tree.HasLiveMembers(run.interrupted))
    ensures run.swept.Some? ==>
      || pace.Terminating(run) + pace.graces.terminate <= run.swept.value
      || Due(line.At(run.swept.value), run.swept.value)
    ensures run.forced && run.swept.Some? ==>
      || pace.Forcing(run) + pace.graces.forceEof <= end
      || Due(line.At(end), end)
  {
    if run.terminated.Some? && run.swept.Some? {
      TimelineTightens(line, run.terminated.value, end);
      TimelineTightens(line, pace.Terminating(run), run.swept.value);
    }
  }

  /** It stops before the forced end only because the session has concluded, and
      before the sweep only if nothing is left of it. */
  lemma NothingIsLeftRunning(line: Timeline, tree: Tree, pace: Pace, run: Run, end: Time)
    requires pace.Valid() && Escalated(line, tree, pace, run, end)
    ensures !run.forced ==> line.At(end).exited
    ensures run.swept.None? ==> line.At(end).exited && !tree.HasLiveMembers(end)
  {
    if run.terminated.Some? && run.swept.None? {
      TimelineTightens(line, run.terminated.value, end);
    }
  }

  /** The deadline in force at `t` is missed by the second rung: the session has
      concluded in it, and the watch that follows goes on. */
  predicate Missed(line: Timeline, tree: Tree, pace: Pace, run: Run, t: Time)
    requires run.terminated.Some?
  {
    var due := Expected(line, pace.Terminating(run), t);
    && due.Some? && run.terminated.value <= due.value < pace.Bound(line, run)
    && line.At(run.terminated.value).exited
    && tree.HasLiveMembers(Poll(run.terminated.value, LastLook(run.terminated.value, due.value)))
  }

  /** Exactly which deadlines the second rung overruns. */
  lemma RungMissesExactly(line: Timeline, tree: Tree, pace: Pace, run: Run, end: Time, t: Time)
    requires pace.Valid() && Escalated(line, tree, pace, run, end) && run.terminated.Some?
    requires line.At(t).deadline.Some?
    ensures var rungEnd := if run.watched.Some? then run.watched.value else run.terminated.value;
      Expected(line, pace.Terminating(run), t).value < rungEnd <==> Missed(line, tree, pace, run, t)
  {
    var from, due := pace.Terminating(run), Expected(line, pace.Terminating(run), t).value;
    NoRungOutlastsADeadline(line, from, from + pace.graces.terminate, run.terminated.value, t);
    if run.watched.Some? {
      OutlastsExactly(tree, run.terminated.value, pace.Bound(line, run), run.watched.value, due);
    }
  }

  /** One set by the time the second rung begins is never missed. */
  lemma EarlyDeadlinesAreNotMissed(line: Timeline, tree: Tree, pace: Pace, run: Run, t: Time)
    requires run.terminated.Some? && t <= pace.Terminating(run)
    ensures !Missed(line, tree, pace, run, t)
  {
    TimelineTightens(line, t, pace.Terminating(run));
  }

  /** And every deadline not missed there ends the whole ladder in time, but for
      the time the two signals take to send. */
  lemma LadderMeetsDeadlines(line: Timeline, tree: Tree, pace: Pace, run: Run, end: Time, t: Time)
    requires pace.Valid() && Escalated(line, tree, pace, run, end)
    requires line.At(t).deadline.Some?
    requires run.terminated.Some? ==> !Missed(line, tree, pace, run, t)
    ensures end <= Expected(line, pace.start, t).value + pace.signalling + pace.sweeping
  {
    hide Missed, Watched;
    NoRungOutlastsADeadline(line, pace.start, pace.start + pace.graces.interrupt, run.interrupted, t);
    if run.terminated.Some? {
      RungMissesExactly(line, tree, pace, run, end, t);
      if run.swept.Some? && end != pace.Forcing(run) {
        NoRungOutlastsADeadline(line, pace.Forcing(run), pace.Forcing(run) + pace.graces.forceEof, end, t);
      }
    }
  }

  // ----------------------------------------------------------------- the latch

  /** The latch, with the clock and what the other threads are about to do. */
  class ExitLatch {
    var exited: bool
    var deadline: Option<Time>
    var now: Time
    var coming: seq<Happening>

    ghost predicate Valid()
      reads this
    {
      InOrder(coming) && forall i | 0 <= i < |coming| :: now < coming[i].at
    }

    function State(): LatchState
      reads this
    {
      LatchState(exited, deadline)
    }

    function Line(): Timeline
      reads this
    {
      Timeline(State(), coming)
    }

    constructor (now: Time, coming: seq<Happening>)
      requires InOrder(coming) && forall i | 0 <= i < |coming| :: now < coming[i].at
      ensures Valid() && State() == LatchState(false, None)
      ensures this.now == now && this.coming == coming
    {
      this.exited, this.deadline := false, None;
      this.now, this.coming := now, coming;
    }

    method Notify()
      modifies this`exited
      ensures State() == Apply(old(State()), Conclude)
    {
      exited := true;
    }

    /** Min-combines: a later, looser deadline relaxes nothing. */
    method SetDeadline(d: Time)
      modifies this`deadline
      ensures State() == Apply(old(State()), Bound(d))
      ensures Tightens(old(State()), State()) && deadline.Some? && deadline.value <= d
    {
      deadline := Some(match deadline case Some(existing) => Min(existing, d) case None => d);
    }

    /** The latch is where it was going to be, and goes on as it was going to. */
    twostate predicate KeepsTime()
      reads this
    {
      && old(now) <= now && State() == old(Line()).At(now)
      && forall t | now <= t :: Line().At(t) == old(Line()).At(t)
    }

    /** Time passes, and what is due happens. */
    method Pass(until: Time)
      requires Valid() && now <= until
      modifies this
      ensures Valid() && now == until && KeepsTime()
      ensures if old(coming) != [] && old(coming)[0].at <= until then |coming| < |old(coming)| else coming == old(coming)
    {
      now := until;
      while coming != [] && coming[0].at <= now
        invariant now == until && InOrder(coming)
        invariant coming == old(coming) || (|coming| < |old(coming)| && old(coming)[0].at <= now)
        invariant forall t | now <= t :: Line().At(t) == old(Line()).At(t)
        decreases |coming|
      {
        ghost var was := Line();
        match coming[0].change {
          case Conclude => Notify();
          case Bound(d) => SetDeadline(d);
          case Spurious =>
        }
        coming := coming[1..];
        assert forall t | now <= t :: was.At(t) == Line().At(t);
      }
      assert Line().At(now) == State();
    }

    /** `Condvar::wait_timeout`: back at the first happening, or when time is up. */
    method WaitTimeout(timeout: Time)
      requires Valid() && timeout >= 0.0
      modifies this
      ensures Valid() && KeepsTime() && now <= old(now) + timeout
      ensures forall t | old(now) <= t < now :: old(Line()).At(t) == old(State())
      ensures |coming| < |old(coming)| || (now == old(now) + timeout && coming == old(coming) && State() == old(State()))
    {
      var wakes := now + timeout;
      Pass(if coming != [] && coming[0].at <= wakes then coming[0].at else wakes);
    }

    /** Wait out one rung. It returns at the first instant it should, and what
        it returns is so: the exit first, then the deadline, then the grace. */
    method WaitPhase(grace: Time) returns (r: PhaseWait)
      requires Valid() && grace >= 0.0
      modifies this
      ensures Valid() && KeepsTime()
      ensures EndedFirst(old(Line()), old(now), old(now) + grace, now)
      ensures r.Exited? <==> exited
      ensures r.DeadlineReached? <==> !exited && Due(State(), now)
      ensures r.GraceElapsed? ==> now == old(now) + grace
    {
      var graceEnds := now + grace;
      ghost var from := now;
      assert Line().At(now) == State();
      while true
        invariant Valid() && KeepsTime() && now <= graceEnds
        invariant forall t | from <= t < now :: !Stops(old(Line()), graceEnds, t)
        decreases |coming|, if now < graceEnds && !Due(State(), now) then 1 else 0
      {
        if exited {
          return Exited;
        }
        if deadline.Some? && deadline.value <= now {
          return DeadlineReached;
        }
        if now >= graceEnds {
          return GraceElapsed;
        }
        var wakeAt := match deadline case Some(d) => Min(d, graceEnds) case None => graceEnds;
        ghost var was, since := Line(), now;
        WaitTimeout(wakeAt - now);
        forall t | since <= t < now ensures !Stops(old(Line()), graceEnds, t) {
          assert was.At(t) == was.latch;
        }
      }
    }

    /** `ProcessTree::wait_for_exit`: polls; answers whether members outlived it. */
    method WaitForExit(tree: Tree, until: Time) returns (live: bool)
      requires Valid()
      modifies this
      ensures Valid() && KeepsTime() && Watched(tree, old(now), until, now)
      ensures live <==> tree.HasLiveMembers(now)
    {
      ghost var from, k: nat := now, 0;
      assert Line().At(now) == State() && now == Poll(from, 0);
      forall j: nat ensures Poll(from, 0) <= Poll(from, j) {
        PollsAscend(from, 0, j);
      }
      hide Poll, StateAt;
      while tree.HasLiveMembers(now) && now < until
        invariant Valid() && KeepsTime() && now <= Max(from, until)
        invariant now == Poll(from, k) || until <= now <= Poll(from, k)
        invariant forall j: nat | Poll(from, j) < now :: tree.HasLiveMembers(Poll(from, j))
        decreases if now < until then (until - now).Floor + 1 else 0
      {
        ghost var looked := now;
        PollsAscend(from, k, k);
        Pass(now + Min(until - now, POLL));
        forall j: nat | Poll(from, j) < now ensures tree.HasLiveMembers(Poll(from, j)) {
          PollsAscend(from, j, k);
          PollsAscend(from, k + 1, j);
        }
        k := k + 1;
      }
      live := tree.HasLiveMembers(now);
    }

    /** The rung that SIGTERM opens: a wait and, when the session concluded, a
        watch over what is left of its tree, bounded as of the rung's start. */
    method AwaitTermination(grace: Time, tree: Tree)
      returns (wait: PhaseWait, terminated: Time, watched: Option<Time>, live: bool)
      requires Valid() && grace >= 0.0
      modifies this
      ensures Valid() && KeepsTime()
      ensures EndedFirst(old(Line()), old(now), old(now) + grace, terminated)
      ensures wait.Exited? <==> watched.Some?
      ensures watched.Some? <==> old(Line()).At(terminated).exited
      ensures wait.DeadlineReached? <==> watched.None? && Due(old(Line()).At(terminated), terminated)
      ensures now == (if watched.Some? then watched.value else terminated)
      ensures watched.Some? ==>
        && Watched(tree, terminated, if old(deadline).Some? then Min(old(now) + grace, old(deadline).value) else old(now) + grace,
                   watched.value)
        && (live <==> tree.HasLiveMembers(now))
    {
      hide EndedFirst, Watched, StateAt;
      var terminateDeadline := now + grace;
      if deadline.Some? {
        terminateDeadline := Min(terminateDeadline, deadline.value);
      }
      wait := WaitPhase(grace);
      terminated, watched, live := now, None, false;
      if wait.Exited? {
        live := WaitForExit(tree, terminateDeadline);
        watched := Some(now);
      }
    }

    /** The last rung: SIGKILL, and unless a deadline has come, one more wait. */
    method Sweep(sweeping: Time, jump: bool, grace: Time) returns (concluded: bool)
      requires Valid() && sweeping >= 0.0 && grace >= 0.0
      modifies this
      ensures Valid() && KeepsTime()
      ensures if jump then now == old(now) + sweeping && !concluded
              else EndedFirst(old(Line()), old(now) + sweeping, old(now) + sweeping + grace, now)
                   && (concluded <==> exited)
    {
      hide StateAt;
      Pass(now + sweeping);
      concluded := false;
      if !jump {
        ghost var later, from := Line(), now;
        var wait := WaitPhase(grace);
        RungOfTheWhole(old(Line()), later, from, from + grace, now);
        concluded := wait.Exited?;
      }
    }

    /** The escalator, given how long the two signals take to send. */
    method Escalate(tree: Tree, signalling: Time, sweeping: Time) returns (run: Run)
      requires Valid() && signalling >= 0.0 && sweeping >= 0.0
      modifies this
      ensures Valid() && KeepsTime()
      ensures Escalated(old(Line()), tree,
                        Pace(old(now), ScaledGraces(old(deadline), old(now)), signalling, sweeping), run, now)
    {
      hide ScaledGraces, EndedFirst, Watched, Due, StateAt;
      ghost var line := Line();
      var graces := ScaledGraces(deadline, now);
      GracesAreBounded(deadline, now);
      var wait := WaitPhase(graces.interrupt);
      run := Run(now, None, None, None, false);
      if wait.Exited? && !tree.HasLiveMembers(now) {
        return;
      }

      Pass(now + signalling);
      ghost var later, from := Line(), now;
      var terminated, watched, live;
      wait, terminated, watched, live := AwaitTermination(graces.terminate, tree);
      RungOfTheWhole(line, later, from, from + graces.terminate, terminated);
      run := run.(terminated := Some(terminated), watched := watched);
      if wait.Exited? && !live {
        return;
      }

      run := run.(swept := Some(now));
      later, from := Line(), now + sweeping;
      var concluded := Sweep(sweeping, wait.DeadlineReached?, graces.forceEof);
      if !wait.DeadlineReached? {
        RungOfTheWhole(line, later, from, from + graces.forceEof, now);
      }
      run := run.(forced := !concluded);
    }
  }

  /** A session that never concludes, with one deadline in force throughout, has
      two fifths of the time to it before SIGTERM, and two more before the sweep
      once SIGTERM is out, cut short by nothing but the deadline itself. */
  method DeadlineIsShared(left: Time, signalling: Time, sweeping: Time) returns (run: Run)
    requires 5.0 * MINIMUM_GRACE <= left <= FULL_BUDGET && signalling >= 0.0 && sweeping >= 0.0
    ensures run.interrupted == 0.4 * left
    ensures run.swept == Some(Max(0.4 * left + signalling, Min(0.8 * left + signalling, left)))
  {
    var latch := new ExitLatch(0.0, []);
    latch.SetDeadline(left);
    ghost var line := latch.Line();
    assert forall t :: line.At(t) == LatchState(false, Some(left));
    BudgetIsSplitInProportion(left, 0.0);
    run := latch.Escalate(Tracked(None), signalling, sweeping);
    RungEndsFirst(line, 0.0, 0.4 * left, run.interrupted, left);
    RungEndsFirst(line, run.interrupted + signalling, run.interrupted + signalling + 0.4 * left,
                  run.terminated.value, left);
  }

  lemma RungEndsFirst(line: Timeline, from: Time, graceEnds: Time, end: Time, d: Time)
    requires EndedFirst(line, from, graceEnds, end) && from <= graceEnds
    requires forall t :: line.At(t) == LatchState(false, Some(d))
    ensures end == Max(from, Min(graceEnds, d))
  {
    assert Stops(line, graceEnds, Max(from, Min(graceEnds, d)));
  }

  /** A deadline really is missed: whenever the session concludes in the first
      rung, its tree outlives it, and a deadline then arrives that falls due
      before the second rung's grace is over, the sweep still waits for that. */
  method LaterDeadlineIsMissed(concluded: Time, signalling: Time, sweeping: Time, arrives: Time, d: Time)
    returns (run: Run, deadline: Option<Time>)
    requires 0.0 < concluded < INTERRUPT_GRACE && signalling >= 0.0 && sweeping >= 0.0
    requires concluded + signalling < arrives <= d < concluded + signalling + TERMINATE_GRACE
    ensures run.swept == Some(concluded + signalling + TERMINATE_GRACE) && deadline == Some(d)
  {
    var coming := [Happening(concluded, Conclude), Happening(arrives, Bound(d))];
    var latch := new ExitLatch(0.0, coming);
    ghost var line := latch.Line();
    TwoHappenings(line, concluded, arrives, d);
    run := latch.Escalate(Tracked(None), signalling, sweeping);
    RungEndsWithExit(line, 0.0, INTERRUPT_GRACE, concluded, run.interrupted);
    assert line.At(run.interrupted + signalling).exited;
    assert Stops(line, run.interrupted + signalling + TERMINATE_GRACE, run.interrupted + signalling);
    deadline := latch.deadline;
  }

  function ExitThenDeadline(concluded: Time, arrives: Time, d: Time, t: Time): LatchState {
    if t < concluded then LatchState(false, None)
    else if t < arrives then LatchState(true, None)
    else LatchState(true, Some(d))
  }

  lemma TwoHappenings(line: Timeline, concluded: Time, arrives: Time, d: Time)
    requires line == Timeline(LatchState(false, None), [Happening(concluded, Conclude), Happening(arrives, Bound(d))])
    requires concluded < arrives
    ensures forall t :: line.At(t) == ExitThenDeadline(concluded, arrives, d, t)
  {
    forall t ensures line.At(t) == ExitThenDeadline(concluded, arrives, d, t) {
      var rest := [Happening(arrives, Bound(d))];
      assert line.coming[1..] == rest && rest[1..] == [];
      assert StateAt(LatchState(true, None), rest, t)
          == if t < arrives then LatchState(true, None) else StateAt(LatchState(true, Some(d)), [], t);
    }
  }

  /** A rung that would otherwise go on ends as the session concludes. */
  lemma RungEndsWithExit(line: Timeline, from: Time, graceEnds: Time, concluded: Time, end: Time)
    requires EndedFirst(line, from, graceEnds, end) && from <= concluded < graceEnds
    requires line.At(concluded).exited && forall t | t < concluded :: line.At(t) == LatchState(false, None)
    ensures end == concluded
  {
    assert Stops(line, graceEnds, concluded);
  }
}
