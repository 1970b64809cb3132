/** Mutual exclusion and deadlock freedom of the session's locks. */
module SessionLocks {
  import opened Common
  import opened Authority
  import opened SessionModel

  // ------------------------------------------------------- mutual exclusion

  ghost predicate Disjoint(p: Pc, q: Pc) {
    forall l :: !(Holds(p, l) && Holds(q, l))
  }

  ghost predicate Exclusive(s: State) {
    forall t, u | t in s.threads && u in s.threads && t != u :: Disjoint(s.threads[t], s.threads[u])
  }

  /** Taking a lock adds that lock to the guards in scope, and nothing else. */
  lemma AcquireTakesOne(sh: Shared, pc: Pc, c: Choice, l: Lock)
    requires Wants(pc).Some?
    ensures Holds(Acquire(sh, pc, c), l) <==> Holds(pc, l) || l == Wants(pc).value
  {
  }

  /** No other step brings a guard into scope. */
  lemma WorkTakesNone(sh: Shared, pc: Pc, c: Choice, l: Lock)
    requires Wants(pc).None? && !Holds(pc, l)
    ensures !Holds(Work(sh, pc, c).1, l)
  {
    match pc
    case Gate(g) => GateTakesNone(sh, g, c, l);
    case Sizing(z) => SizeTakesNone(sh, z, c, l);
    case _ =>
  }

  lemma GateTakesNone(sh: Shared, g: GatePc, c: Choice, l: Lock)
    requires GateWants(g).None? && !GateHolds(g, l)
    ensures !Holds(WorkGate(sh, g, c).1, l)
  {
    hide WorkGate, GateHolds, Holds;
    if Leaving(g) {
      ReleaseTakesNone(sh, g, c, l);
    } else {
      EntryTakesNone(sh, g, c, l);
    }
  }

  /** The part of the gate that release and termination pass. */
  predicate Leaving(g: GatePc) {
    || g.ViewsWait? || g.ViewsLocked? || g.Activity? || g.Terminate? || g.InterruptWait? || g.InterruptLocked?
    || g.InterruptRecord? || g.SpawnLadder? || g.SealRelease?
  }

  lemma ReleaseTakesNone(sh: Shared, g: GatePc, c: Choice, l: Lock)
    requires GateWants(g).None? && !GateHolds(g, l) && Leaving(g)
    ensures !Holds(WorkGate(sh, g, c).1, l)
  {
    hide ViewAuthority.Attach, ViewAuthority.TakeOver, ViewAuthority.AuthorizeInput, PassGate;
  }

  lemma EntryTakesNone(sh: Shared, g: GatePc, c: Choice, l: Lock)
    requires GateWants(g).None? && !GateHolds(g, l) && !Leaving(g)
    ensures !Holds(WorkGate(sh, g, c).1, l)
  {
    hide ViewAuthority.Attach, ViewAuthority.TakeOver, ViewAuthority.AuthorizeInput;
  }

  lemma SizeTakesNone(sh: Shared, z: SizePc, c: Choice, l: Lock)
    requires SizeWants(z).None? && !SizeHolds(z, l)
    ensures !Holds(Work(sh, Sizing(z), c).1, l)
  {
    hide PlanOf;
  }

  lemma StepKeepsDisjoint(sh: Shared, pc: Pc, c: Choice, other: Pc)
    requires Disjoint(pc, other)
    requires Wants(pc).Some? ==> !Holds(other, Wants(pc).value)
    ensures Disjoint(Advance(sh, pc, c).1, other)
  {
    forall l ensures !(Holds(Advance(sh, pc, c).1, l) && Holds(other, l)) {
      if Wants(pc).Some? {
        AcquireTakesOne(sh, pc, c, l);
      } else if !Holds(pc, l) {
        WorkTakesNone(sh, pc, c, l);
      }
    }
  }

  lemma EntriesHoldNothing(pc: Pc, l: Lock)
    requires IsEntry(pc)
    ensures !Holds(pc, l)
  {
  }

  lemma NextKeepsExclusive(s: State, e: Event)
    requires Exclusive(s)
    ensures Exclusive(Next(s, e))
  {
    hide Advance, Holds, Wants, IsEntry, ValidPick;
    if Enabled(s, e) && e.Start? {
      forall l ensures !Holds(e.pc, l) {
        EntriesHoldNothing(e.pc, l);
      }
    }
    if Enabled(s, e) && e.Step? {
      forall u | u in s.threads && u != e.id
        ensures Disjoint(Next(s, e).threads[e.id], s.threads[u])
      {
        StepKeepsDisjoint(s.sh, s.threads[e.id], e.choice, s.threads[u]);
      }
    }
  }

  lemma {:induction false} RunsAreExclusive(s: State, run: seq<Event>)
    requires Exclusive(s)
    ensures Exclusive(Execute(s, run))
    decreases |run|
  {
    if run != [] {
      NextKeepsExclusive(s, run[0]);
      RunsAreExclusive(Next(s, run[0]), run[1..]);
    }
  }

  // ------------------------------------------------------- deadlock freedom

  /** Every operation acquires only above what it holds. */
  lemma AcquiresInOrder(pc: Pc, l: Lock)
    requires Wants(pc).Some? && Holds(pc, l)
    ensures Rank(l) < Rank(Wants(pc).value)
  {
  }

  ghost predicate CanStep(s: State, t: ThreadId) {
    exists c :: Enabled(s, Step(t, c))
  }

  /** From any unfinished thread, following who holds what it waits for climbs
      the lock order to a thread that can step. */
  lemma {:induction false} ClimbToRunnable(s: State, t: ThreadId) returns (u: ThreadId)
    requires t in s.threads && !s.threads[t].Done?
    ensures u in s.threads && CanStep(s, u)
    decreases if Wants(s.threads[t]).Some? then 6 - Rank(Wants(s.threads[t]).value) else 0
  {
    var pc := s.threads[t];
    if Wants(pc).None? || s.Free(Wants(pc).value) {
      var pick: ViewId := "";
      if pc.Output? && pc.output.Publish? && pc.output.todo != {} {
        pick :| pick in pc.output.todo;
      }
      assert Enabled(s, Step(t, Choice(true, true, pick)));
      u := t;
    } else {
      var l := Wants(pc).value;
      var holder :| holder in s.threads && Holds(s.threads[holder], l);
      if Wants(s.threads[holder]).Some? {
        AcquiresInOrder(s.threads[holder], l);
      }
      u := ClimbToRunnable(s, holder);
    }
  }

  /** In every reachable state, if any thread is unfinished then some thread
      can step. */
  lemma NoDeadlock(s: State)
    requires Reachable(s)
    ensures (exists t | t in s.threads :: !s.threads[t].Done?) ==>
              exists u | u in s.threads :: CanStep(s, u) && !s.threads[u].Done?
  {
    if t :| t in s.threads && !s.threads[t].Done? {
      var u := ClimbToRunnable(s, t);
    }
  }

  /** No two threads ever hold the same lock. */
  lemma ReachableIsExclusive(s: State)
    requires Reachable(s)
    ensures Exclusive(s)
  {
    var start, run :| Initial(start) && Execute(start, run) == s;
    RunsAreExclusive(start, run);
  }

  /** Past the gate: from passing it until the operation answers, the snapshot of
      an attach and the termination of a release included. */
  predicate PastGate(pc: Pc) {
    match pc
    case Gate(Enter(_)) => false
    case Gate(Terminate(ending)) => ending.Seal?
    case Gate(InterruptWait(ending)) => ending.Seal?
    case Gate(InterruptLocked(ending)) => ending.Seal?
    case Gate(InterruptRecord(ending)) => ending.Seal?
    case Gate(SpawnLadder(ending)) => ending.Seal?
    case Gate(_) => true
    case Output(o) => Updating(o).Some? && Updating(o).value.AfterAttach?
    case _ => false
  }

  /** What follows the update this is part of. */
  function Updating(o: OutputPc): Option<After> {
    match o
    case RenderWait(after) => Some(after)
    case RenderModelWait(after) => Some(after)
    case RenderModel(after) => Some(after)
    case PublishWait(after) => Some(after)
    case Publish(after, _) => Some(after)
    case PublishTx(after, _, _) => Some(after)
    case Effects(after) => Some(after)
    case ReplySend(after) => Some(after)
    case _ => None
  }

  /** What is serialized with conditional release happens one at a time. */
  lemma GateIsPassedAlone(s: State, t: ThreadId, u: ThreadId)
    requires Reachable(s) && t in s.threads && u in s.threads && t != u
    ensures !(PastGate(s.threads[t]) && PastGate(s.threads[u]))
  {
    ReachableIsExclusive(s);
    assert Disjoint(s.threads[t], s.threads[u]);
    GateIsHeld(s.threads[t]);
    GateIsHeld(s.threads[u]);
  }

  lemma GateIsHeld(pc: Pc)
    ensures PastGate(pc) ==> Holds(pc, Lifecycle)
  {
  }

  /** In the middle of changing or announcing what the model shows: an update
      until its effects are out, a resize, a removal, a read of a selection. */
  predicate InOperation(pc: Pc) {
    match pc
    case Output(o) => Updating(o).Some? && !o.RenderWait? && !o.ReplySend?
    case Sizing(z) => z.ResizePty? || z.ResizeModelWait? || z.ResizeModel?
    case Viewing(v) =>
      || v.RemovalModelWait? || v.RemovalModel? || v.RemovalTxWait? || v.RemovalTx?
      || v.HandOver? || v.TrackWait? || v.Track? || v.TrackTxWait? || v.TrackTx?
    case _ => false
  }

  /** And so do those: no update comes between another and its effects. */
  lemma OperationsAreSerial(s: State, t: ThreadId, u: ThreadId)
    requires Reachable(s) && t in s.threads && u in s.threads && t != u
    ensures !(InOperation(s.threads[t]) && InOperation(s.threads[u]))
  {
    ReachableIsExclusive(s);
    assert Disjoint(s.threads[t], s.threads[u]);
    OperationIsHeld(s.threads[t]);
    OperationIsHeld(s.threads[u]);
  }

  lemma OperationIsHeld(pc: Pc)
    ensures InOperation(pc) ==> Holds(pc, Operation)
  {
  }
}
