/** Conditional release seals the session against every later use. */
module SessionSeal {
  import opened Common
  import opened Authority
  import opened SessionModel
  import opened SessionLocks
  import opened SessionBase

  /** Some view or automation input that consumes the session was accepted. */
  ghost predicate Consumed(queue: seq<Entry>) {
    exists i | 0 <= i < |queue| :: queue[i].Consumes()
  }

  /** Past the seal, and still under `lifecycle`. */
  predicate Admitted(pc: Pc) {
    match pc
    case Gate(g) =>
      g.AttachWait? || g.AttachLocked? || g.EpochWait? || g.EpochLocked? || g.TakeOverWait? || g.TakeOverLocked?
      || g.AuthorizeWait? || g.AuthorizeLocked? || g.QueueWait? || g.QueueLocked? || g.MarkUsed? || g.Record?
    case _ => false
  }

  /** A release that has seen no attached view. */
  function Releasing(pc: Pc): Option<ReleaseCondition> {
    match pc
    case Gate(Activity(cond)) => Some(cond)
    case Gate(Terminate(Seal(cond))) => Some(cond)
    case Gate(InterruptWait(Seal(cond))) => Some(cond)
    case Gate(InterruptLocked(Seal(cond))) => Some(cond)
    case Gate(InterruptRecord(Seal(cond))) => Some(cond)
    case Gate(SpawnLadder(Seal(cond))) => Some(cond)
    case Gate(SealRelease(cond)) => Some(cond)
    case _ => None
  }

  /** A release that has passed the unused check. */
  predicate SawUnused(pc: Pc) {
    pc == Gate(ViewsWait(Unused)) || pc == Gate(ViewsLocked(Unused)) || Releasing(pc) == Some(Unused)
  }

  /** A release granted because the child had exited. */
  predicate SawExit(pc: Pc) {
    Releasing(pc) == Some(Exited) && pc != Gate(Activity(Exited))
  }

  ghost predicate Marking(s: State) {
    exists t :: t in s.threads && s.threads[t].Gate? && s.threads[t].gate.MarkUsed? && s.threads[t].gate.entry.Consumes()
  }

  ghost predicate ThreadOk(sh: Shared, pc: Pc) {
    && (Admitted(pc) ==> !sh.life.released)
    && (Releasing(pc).Some? ==> sh.auth.views == map[])
    && (SawUnused(pc) ==> sh.interactiveShell && !sh.life.inputUsed)
    && (SawExit(pc) ==> sh.exited)
    && (pc.Gate? && pc.gate.MarkUsed? ==> pc.gate.entry in sh.input.queue)
    && (pc.Done? && pc.outcome.ReleaseSays? && pc.outcome.result.Released? ==> pc.outcome.condition in sh.life.seals)
  }

  ghost predicate Sealed(sh: Shared) {
    && (sh.life.seals != {} <==> sh.life.released)
    && (sh.life.released ==> sh.auth.views == map[])
    && (Unused in sh.life.seals ==> sh.interactiveShell && !Consumed(sh.input.queue))
    && (Exited in sh.life.seals ==> sh.exited)
    && (sh.life.inputUsed ==> Consumed(sh.input.queue))
  }

  ghost predicate Inv(s: State) {
    && Base(s)
    && Sealed(s.sh)
    && (Consumed(s.sh.input.queue) ==> s.sh.life.inputUsed || Marking(s))
    && forall t | t in s.threads :: ThreadOk(s.sh, s.threads[t])
  }

  lemma UnderLifecycle(pc: Pc)
    ensures Admitted(pc) || Releasing(pc).Some? || SawUnused(pc) || SawExit(pc) ==> Holds(pc, Lifecycle)
    ensures pc.Gate? && pc.gate.MarkUsed? ==> Holds(pc, Lifecycle)
  {
  }

  // ------------------------------------------------------------ what steps do

  lemma GateGrowsViewsAdmitted(sh: Shared, g: GatePc, c: Choice, v: ViewId)
    requires v in WorkGate(sh, g, c).0.auth.views && v !in sh.auth.views
    ensures Admitted(Gate(g))
  {
  }

  lemma SizeGrowsNoViews(sh: Shared, z: SizePc, c: Choice, v: ViewId)
    requires !z.SizeLocked? && PlanOk(sh.auth, Sizing(z)) && v in WorkSize(sh, z, c).0.auth.views
    ensures v in sh.auth.views
  {
    if z.Commit? {
      DecidedFacts(sh.auth, z.plan);
    }
  }

  lemma ViewGrowsNoViews(sh: Shared, w: ViewPc, c: Choice, v: ViewId)
    requires v in WorkView(sh, w, c).0.auth.views
    ensures v in sh.auth.views
  {
  }

  lemma OutputKeepsAuthority(sh: Shared, o: OutputPc, c: Choice)
    ensures WorkOutput(sh, o, c).0.auth == sh.auth
  {
  }

  /** Only an admitted operation attaches a view. */
  lemma StepGrowsViewsAdmitted(sh: Shared, pc: Pc, c: Choice, v: ViewId)
    requires PlanOk(sh.auth, pc) && v in Advance(sh, pc, c).0.auth.views && v !in sh.auth.views
    ensures Admitted(pc)
  {
    hide WorkGate, WorkView, WorkSize, WorkOutput, Admitted, PlanOk, Decide;
    match pc
    case Done(_) =>
    case Gate(g) => GateGrowsViewsAdmitted(sh, g, c, v);
    case Viewing(w) => ViewGrowsNoViews(sh, w, c, v);
    case Sizing(SizeLocked(_)) =>
    case Sizing(z) => SizeGrowsNoViews(sh, z, c, v);
    case Output(o) => OutputKeepsAuthority(sh, o, c);
  }

  lemma EmptyStaysEmpty(sh: Shared, pc: Pc, c: Choice)
    requires PlanOk(sh.auth, pc) && sh.auth.views == map[] && !Admitted(pc)
    ensures Advance(sh, pc, c).0.auth.views == map[]
  {
    forall v ensures v !in Advance(sh, pc, c).0.auth.views {
      if v in Advance(sh, pc, c).0.auth.views {
        StepGrowsViewsAdmitted(sh, pc, c, v);
      }
    }
  }

  /** Only an admitted operation is accepted into the queue, bar the host. */
  lemma StepQueuesAdmitted(sh: Shared, pc: Pc, c: Choice)
    ensures var now := Advance(sh, pc, c).0.input.queue;
      || now == sh.input.queue
      || now == sh.input.queue + [FromHost]
      || (Admitted(pc) && Advance(sh, pc, c).1.Gate? && Advance(sh, pc, c).1.gate.MarkUsed?
          && now == sh.input.queue + [Advance(sh, pc, c).1.gate.entry])
  {
    match pc
    case Gate(g) => GateQueuesAdmitted(sh, g, c);
    case Sizing(z) => SizeQueuesNothing(sh, z, c);
    case _ =>
  }

  lemma GateQueuesAdmitted(sh: Shared, g: GatePc, c: Choice)
    ensures var (next, pc) := WorkGate(sh, g, c);
      || next.input.queue == sh.input.queue
      || next.input.queue == sh.input.queue + [FromHost]
      || (Admitted(Gate(g)) && pc.Gate? && pc.gate.MarkUsed? && next.input.queue == sh.input.queue + [pc.gate.entry])
  {
  }

  lemma SizeQueuesNothing(sh: Shared, z: SizePc, c: Choice)
    ensures Advance(sh, Sizing(z), c).0.input == sh.input
    ensures Advance(sh, Sizing(z), c).0.life == sh.life
  {
  }

  /** The life flags change only in the two steps that name them. */
  lemma StepChangesLife(sh: Shared, pc: Pc, c: Choice)
    ensures var life := Advance(sh, pc, c).0.life;
      match pc
      case Gate(SealRelease(cond)) => life == sh.life.(released := true, seals := sh.life.seals + {cond})
      case Gate(MarkUsed(entry)) => life == sh.life.(inputUsed := sh.life.inputUsed || entry.Consumes())
      case _ => life == sh.life
  {
    if pc.Sizing? {
      SizeQueuesNothing(sh, pc.sizing, c);
    }
  }

  lemma AdmittedOwnOk(sh: Shared, g: GatePc, c: Choice)
    requires ThreadOk(sh, Gate(g)) && Admitted(Gate(g))
    ensures ThreadOk(WorkGate(sh, g, c).0, WorkGate(sh, g, c).1)
  {
    hide ViewAuthority.Attach, ViewAuthority.TakeOver, ViewAuthority.AuthorizeInput, ViewAuthority.Control;
  }

  lemma CheckOwnOk(sh: Shared, op: Gated, c: Choice)
    requires ThreadOk(sh, Gate(Check(op)))
    ensures ThreadOk(WorkGate(sh, Check(op), c).0, WorkGate(sh, Check(op), c).1)
  {
  }

  lemma ReleasingOwnOk(sh: Shared, g: GatePc, c: Choice)
    requires ThreadOk(sh, Gate(g)) && !Admitted(Gate(g)) && !g.Check?
    ensures ThreadOk(WorkGate(sh, g, c).0, WorkGate(sh, g, c).1)
  {
    hide PassGate, ViewAuthority.Attach, ViewAuthority.TakeOver, ViewAuthority.AuthorizeInput, ViewAuthority.Control;
  }

  lemma GateOwnOk(sh: Shared, g: GatePc, c: Choice)
    requires ThreadOk(sh, Gate(g))
    ensures ThreadOk(Advance(sh, Gate(g), c).0, Advance(sh, Gate(g), c).1)
  {
    hide WorkGate, PassGate;
    if g.Check? {
      CheckOwnOk(sh, g.op, c);
    } else if GateWants(g).None? {
      if Admitted(Gate(g)) {
        AdmittedOwnOk(sh, g, c);
      } else {
        ReleasingOwnOk(sh, g, c);
      }
    }
  }

  lemma StepOwnOk(sh: Shared, pc: Pc, c: Choice)
    requires ThreadOk(sh, pc)
    ensures ThreadOk(Advance(sh, pc, c).0, Advance(sh, pc, c).1)
  {
    match pc
    case Gate(g) => GateOwnOk(sh, g, c);
    case Sizing(z) => SizeSaysNothing(sh, z, c);
    case _ =>
  }

  lemma SizeSaysNothing(sh: Shared, z: SizePc, c: Choice)
    ensures var pc := Advance(sh, Sizing(z), c).1; !pc.Gate? && !(pc.Done? && pc.outcome.ReleaseSays?)
  {
  }

  lemma OthersOk(s: State, e: Event, u: ThreadId)
    requires Inv(s) && Enabled(s, e) && e.Step? && u in s.threads && u != e.id
    ensures ThreadOk(Next(s, e).sh, s.threads[u])
  {
    hide Advance, ThreadOk, Sealed, Admitted, SawUnused, SawExit;
    var pc := s.threads[e.id];
    assert Disjoint(pc, s.threads[u]);
    OtherStepKeepsOk(s.sh, pc, s.threads[u], e.choice);
  }

  lemma OtherStepKeepsOk(sh: Shared, pc: Pc, other: Pc, c: Choice)
    requires ThreadOk(sh, other) && PlanOk(sh.auth, pc)
    requires !(Holds(pc, Lifecycle) && Holds(other, Lifecycle))
    ensures ThreadOk(Advance(sh, pc, c).0, other)
  {
    hide Advance, PlanOk;
    UnderLifecycle(pc);
    UnderLifecycle(other);
    WritesAreGuarded(sh, pc, c);
    StepChangesLife(sh, pc, c);
    StepQueuesAdmitted(sh, pc, c);
    if Releasing(other).Some? {
      EmptyStaysEmpty(sh, pc, c);
    }
  }

  lemma ConsumedGrows(queue: seq<Entry>, entry: Entry)
    ensures Consumed(queue + [entry]) <==> Consumed(queue) || entry.Consumes()
  {
    var more := queue + [entry];
    if Consumed(queue) {
      var i :| 0 <= i < |queue| && queue[i].Consumes();
      assert more[i].Consumes();
    }
    if entry.Consumes() {
      assert more[|queue|].Consumes();
    }
  }

  lemma UseStaysBacked(sh: Shared, pc: Pc, c: Choice)
    requires Sealed(sh) && ThreadOk(sh, pc)
    ensures Advance(sh, pc, c).0.life.inputUsed ==> Consumed(Advance(sh, pc, c).0.input.queue)
  {
    hide Advance;
    var now := Advance(sh, pc, c).0;
    StepChangesLife(sh, pc, c);
    StepQueuesAdmitted(sh, pc, c);
    if now.input.queue != sh.input.queue {
      ConsumedGrows(sh.input.queue, now.input.queue[|sh.input.queue|]);
    }
  }

  /** Sealing an unused session, nobody is between queueing and marking. */
  lemma NobodyMarks(s: State, t: ThreadId)
    requires Inv(s) && t in s.threads && s.threads[t] == Gate(SealRelease(Unused))
    ensures !Consumed(s.sh.input.queue)
  {
    if Marking(s) {
      var u :| u in s.threads && s.threads[u].Gate? && s.threads[u].gate.MarkUsed?;
      assert Disjoint(s.threads[t], s.threads[u]);
      UnderLifecycle(s.threads[u]);
      assert Holds(s.threads[t], Lifecycle);
    }
  }

  lemma SealStays(s: State, e: Event)
    requires Inv(s) && Enabled(s, e) && e.Step?
    ensures Sealed(Next(s, e).sh)
  {
    hide Advance;
    var pc, c := s.threads[e.id], e.choice;
    var now := Advance(s.sh, pc, c).0;
    StepChangesLife(s.sh, pc, c);
    WritesAreGuarded(s.sh, pc, c);
    UseStaysBacked(s.sh, pc, c);
    if now.life.released && (s.sh.life.released || Releasing(pc).Some?) {
      EmptyStaysEmpty(s.sh, pc, c);
    }
    if Unused in now.life.seals {
      SealedUnusedStays(s, e);
    }
  }

  lemma SealedUnusedStays(s: State, e: Event)
    requires Inv(s) && Enabled(s, e) && e.Step? && Unused in Next(s, e).sh.life.seals
    ensures !Consumed(Next(s, e).sh.input.queue)
  {
    hide Advance, Base, Holds;
    var pc, c := s.threads[e.id], e.choice;
    var now := Advance(s.sh, pc, c).0;
    StepChangesLife(s.sh, pc, c);
    StepQueuesAdmitted(s.sh, pc, c);
    if pc == Gate(SealRelease(Unused)) {
      NobodyMarks(s, e.id);
    }
    if now.input.queue != s.sh.input.queue {
      ConsumedGrows(s.sh.input.queue, now.input.queue[|s.sh.input.queue|]);
    }
  }

  lemma UseIsMarked(s: State, e: Event)
    requires Inv(s) && Enabled(s, e) && e.Step?
    requires Consumed(Next(s, e).sh.input.queue)
    ensures Next(s, e).sh.life.inputUsed || Marking(Next(s, e))
  {
    hide Advance, Base;
    var pc, c, now := s.threads[e.id], e.choice, Next(s, e);
    StepChangesLife(s.sh, pc, c);
    StepQueuesAdmitted(s.sh, pc, c);
    if Consumed(s.sh.input.queue) {
      if !s.sh.life.inputUsed {
        var t :| t in s.threads && s.threads[t].Gate? && s.threads[t].gate.MarkUsed? && s.threads[t].gate.entry.Consumes();
        assert t != e.id ==> now.threads[t] == s.threads[t];
      }
    } else {
      var i :| 0 <= i < |now.sh.input.queue| && now.sh.input.queue[i].Consumes();
      assert now.threads[e.id].Gate? && now.threads[e.id].gate.MarkUsed? && now.threads[e.id].gate.entry.Consumes();
    }
  }

  lemma NextKeepsInv(s: State, e: Event)
    requires Inv(s)
    ensures Inv(Next(s, e))
  {
    hide Base, Advance, Holds;
    NextKeepsBase(s, e);
    if Enabled(s, e) {
      var now := Next(s, e);
      if e.Step? {
        SealStays(s, e);
        if Consumed(now.sh.input.queue) {
          UseIsMarked(s, e);
        }
        forall t | t in now.threads
          ensures ThreadOk(now.sh, now.threads[t])
        {
          if t == e.id {
            StepOwnOk(s.sh, s.threads[t], e.choice);
          } else {
            OthersOk(s, e, t);
          }
        }
      } else if Marking(s) {
        var t :| t in s.threads && s.threads[t].Gate? && s.threads[t].gate.MarkUsed? && s.threads[t].gate.entry.Consumes();
        assert now.threads[t] == s.threads[t];
      }
    }
  }

  lemma {:induction false} RunsKeepInv(s: State, run: seq<Event>)
    requires Inv(s)
    ensures Inv(Execute(s, run))
    decreases |run|
  {
    if run != [] {
      NextKeepsInv(s, run[0]);
      RunsKeepInv(Next(s, run[0]), run[1..]);
    }
  }

  lemma ReachableInv(s: State)
    requires Reachable(s)
    ensures Inv(s)
  {
    var start, run :| Initial(start) && Execute(start, run) == s;
    RunsKeepInv(start, run);
  }

  // ----------------------------------------------------------------- theorems

  /** A release that answered `Released` found no view attached. One conditional
      on an exited session found the child gone; one conditional on an unused
      session was of an interactive shell, and no consuming view or automation
      input had been accepted, whatever raced with it. */
  lemma ReleasedIsTrue(s: State, t: ThreadId, cond: ReleaseCondition)
    requires Reachable(s)
    requires t in s.threads && s.threads[t] == Done(ReleaseSays(cond, Released))
    ensures s.sh.life.released && s.sh.auth.views == map[]
    ensures cond.Exited? ==> s.sh.exited
    ensures cond.Unused? ==> s.sh.interactiveShell && forall e | e in s.sh.input.queue :: !e.Consumes()
  {
    ReachableInv(s);
  }

  lemma AnswerIsTrue(sh: Shared, pc: Pc, c: Choice, cond: ReleaseCondition, answer: ReleaseResult)
    requires Sealed(sh) && !pc.Done? && Advance(sh, pc, c).1 == Done(ReleaseSays(cond, answer))
    ensures match answer
      case Released => cond in Advance(sh, pc, c).0.life.seals
      case StillAttached => sh.auth.views != map[]
      case Running => cond.Exited? && !sh.exited
      case Busy => cond.Unused? && !sh.exited
      case Used => cond.Unused? && Consumed(sh.input.queue)
      case NotShell => cond.Unused? && !sh.interactiveShell
  {
    match pc
    case Gate(g) =>
      if !g.Check? {
        GateAnswerIsTrue(sh, g, c, cond, answer);
      }
    case Sizing(z) => SizeSaysNothing(sh, z, c);
    case _ =>
  }

  lemma GateAnswerIsTrue(sh: Shared, g: GatePc, c: Choice, cond: ReleaseCondition, answer: ReleaseResult)
    requires GateWants(g).None? && WorkGate(sh, g, c).1 == Done(ReleaseSays(cond, answer)) && !g.Check?
    ensures match answer
      case Released => cond in WorkGate(sh, g, c).0.life.seals
      case StillAttached => sh.auth.views != map[]
      case Running => cond.Exited? && !sh.exited
      case Busy => cond.Unused? && !sh.exited
      case _ => false
  {
  }

  /** A release that is refused says what stood in its way, and it did: among
      threads, every answer but `Released` is true of the state it is given in. */
  lemma RefusedReleaseIsTrue(s: State, t: ThreadId, c: Choice, cond: ReleaseCondition, answer: ReleaseResult)
    requires Reachable(s) && t in s.threads && !s.threads[t].Done? && Enabled(s, Step(t, c))
    requires Next(s, Step(t, c)).threads[t] == Done(ReleaseSays(cond, answer))
    ensures match answer
      case Released => cond in Next(s, Step(t, c)).sh.life.seals
      case StillAttached => s.sh.auth.views != map[]
      case Running => cond.Exited? && !s.sh.exited
      case Busy => cond.Unused? && !s.sh.exited
      case Used => cond.Unused? && exists e | e in s.sh.input.queue :: e.Consumes()
      case NotShell => cond.Unused? && !s.sh.interactiveShell
  {
    hide Base;
    ReachableInv(s);
    AnswerIsTrue(s.sh, s.threads[t], c, cond, answer);
  }

  ghost predicate OnlyHost(entries: seq<Entry>) {
    forall e | e in entries :: e.FromHost?
  }

  lemma SealedStep(s: State, e: Event)
    requires Inv(s) && s.sh.life.released
    ensures Next(s, e).sh.life.released
    ensures s.sh.input.queue <= Next(s, e).sh.input.queue
    ensures OnlyHost(Next(s, e).sh.input.queue[|s.sh.input.queue|..])
  {
    hide Advance, Base;
    if Enabled(s, e) && e.Step? {
      StepChangesLife(s.sh, s.threads[e.id], e.choice);
      StepQueuesAdmitted(s.sh, s.threads[e.id], e.choice);
    }
  }

  lemma {:induction false} SealedRuns(s: State, run: seq<Event>)
    requires Inv(s) && s.sh.life.released
    ensures var now := Execute(s, run).sh;
      && now.life.released && now.auth.views == map[]
      && s.sh.input.queue <= now.input.queue
      && OnlyHost(now.input.queue[|s.sh.input.queue|..])
    decreases |run|
  {
    hide Next, Base, Marking, ThreadOk;
    if run != [] {
      SealedStep(s, run[0]);
      NextKeepsInv(s, run[0]);
      var mid := Next(s, run[0]);
      SealedRuns(mid, run[1..]);
      var last := Execute(s, run).sh.input.queue;
      assert last[|s.sh.input.queue|..]
        == mid.sh.input.queue[|s.sh.input.queue|..] + last[|mid.sh.input.queue|..];
    }
  }

  /** Sealed for good: whatever runs after a release, no view is attached and
      the input queue accepts nothing from a view or from automation. */
  lemma SealedForever(s: State, run: seq<Event>, t: ThreadId, cond: ReleaseCondition)
    requires Reachable(s)
    requires t in s.threads && s.threads[t] == Done(ReleaseSays(cond, Released))
    ensures var now := Execute(s, run).sh;
      && now.life.released && now.auth.views == map[]
      && s.sh.input.queue <= now.input.queue
      && OnlyHost(now.input.queue[|s.sh.input.queue|..])
  {
    ReachableInv(s);
    SealedRuns(s, run);
  }

  predicate Knocking(pc: Pc) {
    || (pc.Gate? && pc.gate.Enter? && !pc.gate.op.ReleaseIf?)
    || (pc.Gate? && pc.gate.Check? && !pc.gate.op.ReleaseIf?)
    || pc == Done(Refused)
  }

  /** Every attach, takeover, view input and automation that begins after the
      seal ends refused: it never gets past the gate. */
  lemma {:induction false} LateComersAreRefused(s: State, run: seq<Event>, t: ThreadId)
    requires Inv(s) && s.sh.life.released && t in s.threads && Knocking(s.threads[t])
    ensures t in Execute(s, run).threads && Knocking(Execute(s, run).threads[t])
    ensures Execute(s, run).threads[t].Done? ==> Execute(s, run).threads[t] == Done(Refused)
    decreases |run|
  {
    if run != [] {
      SealedStep(s, run[0]);
      NextKeepsInv(s, run[0]);
      LateComersAreRefused(Next(s, run[0]), run[1..], t);
    }
  }
}
