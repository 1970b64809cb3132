/** An operation that runs alone does exactly one of its whole steps, however
    many locks it takes on the way. */
module SessionAlone {
  import opened Common
  import opened Authority
  import opened AuthorityLaws
  import opened SessionModel
  import opened SessionRuns
  import opened SessionLocks
  import opened SessionProgress
  import opened SessionWhole

  // ------------------------------------------------------- from where it is

  ghost predicate GateOwes(sh: Shared, g: GatePc, now: Shared, o: Outcome) {
    match g
    case Enter(op) => Passes(sh, op, now, o)
    case Check(op) => Passes(sh, op, now, o)
    case AttachWait(v, cl, a, snap) => Attaches(sh, v, cl, a, snap, now, o)
    case AttachLocked(v, cl, a, snap) => Attaches(sh, v, cl, a, snap, now, o)
    case EpochWait(q) => TakesOver(sh, q, now, o)
    case EpochLocked(q) => TakesOver(sh, q, now, o)
    case TakeOverWait(q) => TakesOver(sh, q, now, o)
    case TakeOverLocked(q) => TakesOver(sh, q, now, o)
    case TakeOverAnnounce(state) => now == sh.(announced := sh.announced + [state]) && o.TookOver?
    case AuthorizeWait(typed) => Types(sh, typed, now, o)
    case AuthorizeLocked(typed) => Types(sh, typed, now, o)
    case QueueWait(item) => Queues(sh, item, now, o)
    case QueueLocked(item) => Queues(sh, item, now, o)
    case MarkUsed(entry) =>
      now == sh.(input := sh.input.Recorded(entry), life := sh.life.(inputUsed := sh.life.inputUsed || entry.Consumes()))
      && o == Answer(now.input.order, entry)
    case Record(entry) => now == sh.(input := sh.input.Recorded(entry)) && o == Answer(now.input.order, entry)
    case ViewsWait(cond) => ReleasesUnviewed(sh, cond, now, o)
    case ViewsLocked(cond) => ReleasesUnviewed(sh, cond, now, o)
    case Activity(cond) => ReleasesIdle(sh, cond, now, o)
    case Terminate(ending) => Terminates(sh, ending, now, o)
    case InterruptWait(ending) => Interrupts(sh, ending, now, o)
    case InterruptLocked(ending) => Interrupts(sh, ending, now, o)
    case InterruptRecord(ending) => StartsLadder(sh.(input := sh.input.Recorded(FromHost)), ending, now, o)
    case SpawnLadder(ending) => StartsLadder(sh, ending, now, o)
    case SealRelease(cond) => Closes(sh, Seal(cond), now, o)
  }

  ghost predicate ViewOwes(sh: Shared, v: ViewPc, now: Shared, o: Outcome) {
    match v
    case DetachWait(view, cl, only) => Detaches(sh, view, cl, only, now, o)
    case DetachLocked(view, cl, only) => Detaches(sh, view, cl, only, now, o)
    case DetachAnnounce(view, state) => now == Forgotten(sh, view).(announced := sh.announced + [state]) && o.DetachDone?
    case RemovalWait(view) => now == Forgotten(sh, view) && o.DetachDone?
    case RemovalModelWait(view) => now == Forgotten(sh, view) && o.DetachDone?
    case RemovalModel(view) => now == Forgotten(sh, view) && o.DetachDone?
    case RemovalTxWait(view) => now == sh.(marks := sh.marks.(publishers := sh.marks.publishers - {view})) && o.DetachDone?
    case RemovalTx(view) => now == sh.(marks := sh.marks.(publishers := sh.marks.publishers - {view})) && o.DetachDone?
    case ReadWait(view, cl, e) => Reads(sh, view, cl, e, now, o)
    case ReadLocked(view, cl, e) => Reads(sh, view, cl, e, now, o)
    case ReadOpWait(view) => Tracks(sh, view, now, o)
    case HandOver(view) => Tracks(sh, view, now, o)
    case UnfencedWait(view) => Tracks(sh, view, now, o)
    case TrackWait(view) => Tracks(sh, view, now, o)
    case Track(view) => Tracks(sh, view, now, o)
    case TrackTxWait(view) => now == sh.(marks := sh.marks.(publishers := sh.marks.publishers + {view})) && o.ReadDone?
    case TrackTx(view) => now == sh.(marks := sh.marks.(publishers := sh.marks.publishers + {view})) && o.ReadDone?
    case CollectWait(cl, through) => now == sh.(auth := sh.auth.GcWatermarks(cl, through)) && o.Collected?
    case CollectLocked(cl, through) => now == sh.(auth := sh.auth.GcWatermarks(cl, through)) && o.Collected?
  }

  ghost predicate SizeOwes(sh: Shared, z: SizePc, now: Shared, o: Outcome) {
    match z
    case SizeWait(op) => Sizes(sh, op, now, o)
    case SizeLocked(op) => Sizes(sh, op, now, o)
    case ResizeWait(plan, prev) => ResizesTerminal(sh, plan, prev, now, o)
    case ResizePty(plan, prev) => ResizesTerminal(sh, plan, prev, now, o)
    case ResizeModelWait(plan, prev) => ResizesModel(sh, plan, prev, now, o)
    case ResizeModel(plan, prev) => ResizesModel(sh, plan, prev, now, o)
    case Commit(plan) => Commits(sh, plan, now, o)
    case ControlWait => Announces(sh, sh.auth.Control(), now, o)
    case ControlLocked => Announces(sh, sh.auth.Control(), now, o)
    case Announce(state) => Announces(sh, state, now, o)
  }

  function Published(sh: Shared, views: set<ViewId>): Shared {
    sh.(marks := sh.marks.(publishers := sh.marks.publishers + views))
  }

  ghost predicate OutputOwes(sh: Shared, out: OutputPc, now: Shared, o: Outcome) {
    match out
    case BatchWait => Renders(sh, AfterRender, now, o)
    case BatchLocked => Renders(sh, AfterRender, now, o)
    case RenderWait(after) => Renders(sh, after, now, o)
    case RenderModelWait(after) => Renders(sh, after, now, o)
    case RenderModel(after) => Renders(sh, after, now, o)
    case PublishWait(after) => Finishes(Shown(sh), after, now, o)
    case Publish(after, todo) => Finishes(Published(sh, todo), after, now, o)
    case PublishTx(after, todo, v) => Finishes(Published(sh, todo + {v}), after, now, o)
    case Effects(after) => Finishes(sh, after, now, o)
    case ReplySend(after) => Finishes(sh, after, now, o)
    case OrderReadWait => now == sh && o == EpochIs(sh.input.order.humanEpoch)
    case OrderReadLocked => now == sh && o == EpochIs(sh.input.order.humanEpoch)
    case ModelReadWait => now == sh && o == Rendered
    case ModelReadLocked => now == sh && o == Rendered
  }

  /** What is left to do, wherever a thread is. */
  ghost predicate Owes(sh: Shared, pc: Pc, now: Shared, o: Outcome) {
    match pc
    case Done(outcome) => now == sh && o == outcome
    case Gate(g) => GateOwes(sh, g, now, o)
    case Viewing(v) => ViewOwes(sh, v, now, o)
    case Sizing(z) => SizeOwes(sh, z, now, o)
    case Output(out) => OutputOwes(sh, out, now, o)
  }

  /** Taking a lock leaves all of it to do. */
  lemma AcquireOwes(sh: Shared, pc: Pc, c: Choice, now: Shared, o: Outcome)
    requires Wants(pc).Some? && ValidPick(pc, c) && Owes(sh, Acquire(sh, pc, c), now, o)
    ensures Owes(sh, pc, now, o)
  {
    match pc
    case Gate(g) => AcquireGateOwes(sh, g, now, o);
    case Viewing(v) => AcquireViewOwes(sh, v, now, o);
    case Sizing(z) => AcquireSizeOwes(sh, z, now, o);
    case Output(out) => AcquireOutputOwes(sh, out, c, now, o);
  }

  lemma AcquireGateOwes(sh: Shared, g: GatePc, now: Shared, o: Outcome)
    requires GateOwes(sh, AcquireGate(g), now, o) && GateWants(g).Some?
    ensures GateOwes(sh, g, now, o)
  {
    hide Passes, Attaches, TakesOver, Types, Queues, ReleasesUnviewed, Interrupts;
  }

  lemma AcquireViewOwes(sh: Shared, v: ViewPc, now: Shared, o: Outcome)
    requires ViewOwes(sh, AcquireView(v), now, o) && ViewWants(v).Some?
    ensures ViewOwes(sh, v, now, o)
  {
    hide Detaches, Reads, Tracks;
  }

  lemma AcquireSizeOwes(sh: Shared, z: SizePc, now: Shared, o: Outcome)
    requires SizeOwes(sh, AcquireSize(z), now, o) && SizeWants(z).Some?
    ensures SizeOwes(sh, z, now, o)
  {
    hide Sizes, ResizesTerminal, ResizesModel, Announces;
  }

  lemma AcquireOutputOwes(sh: Shared, out: OutputPc, c: Choice, now: Shared, o: Outcome)
    requires OutputWants(out).Some? && ValidPick(Output(out), c)
    requires OutputOwes(sh, AcquireOutput(sh, out, c), now, o)
    ensures OutputOwes(sh, out, now, o)
  {
    hide Renders, Finishes;
    if out.Publish? {
      assert out.todo + {c.pick} == out.todo;
    }
  }

  predicate Releasing(g: GatePc) {
    || g.ViewsLocked? || g.Activity? || g.Terminate? || g.InterruptLocked? || g.InterruptRecord? || g.SpawnLadder? || g.SealRelease?
  }

  lemma CheckOwes(sh: Shared, op: Gated, now: Shared, o: Outcome)
    requires Owes(sh, PassGate(sh, op), now, o)
    ensures Passes(sh, op, now, o)
  {
    hide Attaches, TakesOver, Types, Queues, ReleasesUnviewed;
  }

  lemma AttachOwes(sh: Shared, g: GatePc, c: Choice, now: Shared, o: Outcome)
    requires g.AttachLocked? || g.TakeOverLocked?
    requires Owes(WorkGate(sh, g, c).0, WorkGate(sh, g, c).1, now, o)
    ensures GateOwes(sh, g, now, o)
  {
    hide ViewAuthority.Attach, ViewAuthority.TakeOver, ViewAuthority.Control;
    assert sh.announced + [] == sh.announced;
    if g.AttachLocked? {
      WhoMayAttach(sh.auth, g.view, g.client, g.access);
    } else {
      AcceptedAttemptFences(sh.auth, g.request);
    }
  }

  lemma InputOwes(sh: Shared, g: GatePc, c: Choice, now: Shared, o: Outcome)
    requires g.AuthorizeLocked?
    requires Owes(WorkGate(sh, g, c).0, WorkGate(sh, g, c).1, now, o)
    ensures GateOwes(sh, g, now, o)
  {
    hide Queues, ViewAuthority.AuthorizeInput;
    WhoMayType(sh.auth, g.input.view, g.input.client, g.input.epoch, g.input.sequence);
  }

  lemma QueueOwes(sh: Shared, g: GatePc, c: Choice, now: Shared, o: Outcome)
    requires g.QueueLocked? || g.MarkUsed? || g.Record? || g.EpochLocked? || g.TakeOverAnnounce?
    requires Owes(WorkGate(sh, g, c).0, WorkGate(sh, g, c).1, now, o)
    ensures GateOwes(sh, g, now, o)
  {
    hide TakesOver;
  }

  lemma LooksOwes(sh: Shared, g: GatePc, c: Choice, now: Shared, o: Outcome)
    requires g.ViewsLocked? || g.Activity?
    requires Owes(WorkGate(sh, g, c).0, WorkGate(sh, g, c).1, now, o)
    ensures GateOwes(sh, g, now, o)
  {
    hide Terminates;
  }

  lemma TerminateOwes(sh: Shared, ending: Ending, c: Choice, now: Shared, o: Outcome)
    requires var (next, pc) := WorkGate(sh, Terminate(ending), c); Owes(next, pc, now, o)
    ensures Terminates(sh, ending, now, o)
  {
    hide StartsLadder, Interrupts, AfterTerminate, Closes;
    if sh.exited || sh.terminating {
      ClosesNow(sh, ending, now, o);
    }
  }

  lemma InterruptOwes(sh: Shared, ending: Ending, c: Choice, now: Shared, o: Outcome)
    requires var (next, pc) := WorkGate(sh, InterruptLocked(ending), c); Owes(next, pc, now, o)
    ensures Interrupts(sh, ending, now, o)
  {
    hide StartsLadder;
  }

  lemma ClosesNow(sh: Shared, ending: Ending, now: Shared, o: Outcome)
    requires Owes(sh, AfterTerminate(ending), now, o)
    ensures Closes(sh, ending, now, o)
  {
  }

  lemma LadderOwes(sh: Shared, g: GatePc, c: Choice, now: Shared, o: Outcome)
    requires g.InterruptRecord? || g.SpawnLadder? || g.SealRelease?
    requires Owes(WorkGate(sh, g, c).0, WorkGate(sh, g, c).1, now, o)
    ensures GateOwes(sh, g, now, o)
  {
    hide AfterTerminate;
    if g.SpawnLadder? && c.ok {
      ClosesNow(sh, g.ending, now, o);
    }
  }

  lemma ReleaseOwes(sh: Shared, g: GatePc, c: Choice, now: Shared, o: Outcome)
    requires Releasing(g)
    requires Owes(WorkGate(sh, g, c).0, WorkGate(sh, g, c).1, now, o)
    ensures GateOwes(sh, g, now, o)
  {
    hide WorkGate, ReleasesUnviewed, ReleasesIdle, Terminates, Interrupts, StartsLadder;
    if g.ViewsLocked? || g.Activity? {
      LooksOwes(sh, g, c, now, o);
    } else if g.Terminate? {
      TerminateOwes(sh, g.ending, c, now, o);
    } else if g.InterruptLocked? {
      InterruptOwes(sh, g.ending, c, now, o);
    } else {
      LadderOwes(sh, g, c, now, o);
    }
  }

  lemma GateStepOwes(sh: Shared, g: GatePc, c: Choice, now: Shared, o: Outcome)
    requires GateWants(g).None? && Owes(WorkGate(sh, g, c).0, WorkGate(sh, g, c).1, now, o)
    ensures GateOwes(sh, g, now, o)
  {
    hide Attaches, TakesOver, Types, Queues, ReleasesUnviewed, Interrupts;
    if g.Check? {
      CheckOwes(sh, g.op, now, o);
    } else if Releasing(g) {
      ReleaseOwes(sh, g, c, now, o);
    } else if g.AttachLocked? || g.TakeOverLocked? {
      AttachOwes(sh, g, c, now, o);
    } else if g.AuthorizeLocked? {
      InputOwes(sh, g, c, now, o);
    } else {
      QueueOwes(sh, g, c, now, o);
    }
  }

  lemma DetachIs(auth: ViewAuthority, view: ViewId, client: ClientId, only: Option<u64>)
    ensures var named := if only.Some? then Incarnation(auth, view, client, only.value) else AuthorityLaws.Attached(auth, view, client);
      (if only.Some? then auth.DetachIfEpoch(view, client, only.value) else auth.Detach(view, client))
      == if named then (auth.Remove(view), true) else (auth, false)
  {
    hide ViewAuthority.Remove;
  }

  lemma DetachOwes(sh: Shared, view: ViewId, client: ClientId, only: Option<u64>, c: Choice, now: Shared, o: Outcome)
    requires var (next, pc) := WorkView(sh, DetachLocked(view, client, only), c); Owes(next, pc, now, o)
    ensures Detaches(sh, view, client, only, now, o)
  {
    hide ViewAuthority.Remove, ViewAuthority.Control, ViewAuthority.Detach, ViewAuthority.DetachIfEpoch, Incarnation, AuthorityLaws.Attached;
    DetachIs(sh.auth, view, client, only);
    assert sh.announced + [] == sh.announced;
  }

  lemma ViewStepOwes(sh: Shared, v: ViewPc, c: Choice, now: Shared, o: Outcome)
    requires ViewWants(v).None? && Owes(WorkView(sh, v, c).0, WorkView(sh, v, c).1, now, o)
    ensures ViewOwes(sh, v, now, o)
  {
    hide Detaches, WorkView;
    if v.DetachLocked? {
      DetachOwes(sh, v.view, v.client, v.onlyEpoch, c, now, o);
    } else if v.ReadLocked? {
      ReadOwes(sh, v.view, v.client, v.epoch, c, now, o);
    } else if v.DetachAnnounce? || v.RemovalModel? || v.RemovalTx? {
      ForgetOwes(sh, v, c, now, o);
    } else {
      TrackOwes(sh, v, c, now, o);
    }
  }

  lemma ReadOwes(sh: Shared, view: ViewId, client: ClientId, epoch: u64, c: Choice, now: Shared, o: Outcome)
    requires var (next, pc) := WorkView(sh, ReadLocked(view, client, epoch), c); Owes(next, pc, now, o)
    ensures Reads(sh, view, client, epoch, now, o)
  {
    hide Tracks, ViewAuthority.AuthorizeRead;
    WhoMayRead(sh.auth, view, client, epoch);
  }

  lemma ForgetOwes(sh: Shared, v: ViewPc, c: Choice, now: Shared, o: Outcome)
    requires v.DetachAnnounce? || v.RemovalModel? || v.RemovalTx?
    requires Owes(WorkView(sh, v, c).0, WorkView(sh, v, c).1, now, o)
    ensures ViewOwes(sh, v, now, o)
  {
  }

  lemma TrackOwes(sh: Shared, v: ViewPc, c: Choice, now: Shared, o: Outcome)
    requires v.HandOver? || v.Track? || v.TrackTx? || v.CollectLocked?
    requires Owes(WorkView(sh, v, c).0, WorkView(sh, v, c).1, now, o)
    ensures ViewOwes(sh, v, now, o)
  {
    hide ViewAuthority.GcWatermarks;
  }

  lemma DecideOwes(sh: Shared, op: SizeOp, now: Shared, o: Outcome)
    requires Owes(sh, Decide(sh.auth, op), now, o)
    ensures Sizes(sh, op, now, o)
  {
    hide PlanOf, ResizesTerminal, Commits;
  }

  lemma TerminalOwes(sh: Shared, plan: Plan, prev: Size, c: Choice, now: Shared, o: Outcome)
    requires var (next, pc) := WorkSize(sh, ResizePty(plan, prev), c); Owes(next, pc, now, o)
    ensures ResizesTerminal(sh, plan, prev, now, o)
  {
    hide ResizesModel;
  }

  lemma ModelOwes(sh: Shared, plan: Plan, prev: Size, c: Choice, now: Shared, o: Outcome)
    requires var (next, pc) := WorkSize(sh, ResizeModel(plan, prev), c); Owes(next, pc, now, o)
    ensures ResizesModel(sh, plan, prev, now, o)
  {
    hide Finishes;
  }

  lemma SizeStepOwes(sh: Shared, z: SizePc, c: Choice, now: Shared, o: Outcome)
    requires SizeWants(z).None? && Owes(Work(sh, Sizing(z), c).0, Work(sh, Sizing(z), c).1, now, o)
    ensures SizeOwes(sh, z, now, o)
  {
    hide Decide, Sizes, ResizesTerminal, ResizesModel, ViewAuthority.Control;
    if z.SizeLocked? {
      DecideOwes(sh, z.op, now, o);
    } else if z.ResizePty? {
      TerminalOwes(sh, z.plan, z.previous, c, now, o);
    } else if z.ResizeModel? {
      ModelOwes(sh, z.plan, z.previous, c, now, o);
    }
  }

  lemma OutputStepOwes(sh: Shared, out: OutputPc, c: Choice, now: Shared, o: Outcome)
    requires OutputWants(out).None? && Owes(WorkOutput(sh, out, c).0, WorkOutput(sh, out, c).1, now, o)
    ensures OutputOwes(sh, out, now, o)
  {
    hide Commits;
    if out.PublishTx? {
      assert sh.marks.publishers + {out.view} + (out.todo - {out.view}) == sh.marks.publishers + (out.todo + {out.view});
    }
    assert sh.marks.publishers + {} == sh.marks.publishers;
  }

  lemma StepOwes(sh: Shared, pc: Pc, c: Choice, now: Shared, o: Outcome)
    requires !pc.Done? && ValidPick(pc, c)
    requires Owes(Advance(sh, pc, c).0, Advance(sh, pc, c).1, now, o)
    ensures Owes(sh, pc, now, o)
  {
    if Wants(pc).Some? {
      AcquireOwes(sh, pc, c, now, o);
    } else {
      WorkOwes(sh, pc, c, now, o);
    }
  }

  lemma WorkOwes(sh: Shared, pc: Pc, c: Choice, now: Shared, o: Outcome)
    requires !pc.Done? && Wants(pc).None? && Owes(Work(sh, pc, c).0, Work(sh, pc, c).1, now, o)
    ensures Owes(sh, pc, now, o)
  {
    hide WorkGate, WorkView, WorkSize, WorkOutput, GateOwes, ViewOwes, SizeOwes, OutputOwes;
    match pc
    case Gate(g) => GateStepOwes(sh, g, c, now, o);
    case Viewing(v) => ViewStepOwes(sh, v, c, now, o);
    case Sizing(z) => SizeStepOwes(sh, z, c, now, o);
    case Output(out) => OutputStepOwes(sh, out, c, now, o);
  }

  lemma {:induction false} AloneOwes(sh: Shared, pc: Pc, choices: seq<Choice>)
    requires Unhindered(sh, pc, choices) && Alone(sh, pc, choices).1.Done?
    ensures Owes(sh, pc, Alone(sh, pc, choices).0, Alone(sh, pc, choices).1.outcome)
    decreases |choices|
  {
    hide Advance, Owes;
    if choices == [] {
      NothingLeft(sh, pc);
    } else {
      var (next, after) := Advance(sh, pc, choices[0]);
      var (now, last) := Alone(sh, pc, choices);
      AloneOwes(next, after, choices[1..]);
      StepOwes(sh, pc, choices[0], now, last.outcome);
    }
  }

  lemma NothingLeft(sh: Shared, pc: Pc)
    requires pc.Done?
    ensures Owes(sh, pc, sh, pc.outcome)
  {
  }

  /** Run alone to its end, an operation does and answers exactly what one of
      its whole steps does, whichever calls fail on the way. */
  lemma AloneIsWhole(sh: Shared, asked: Pc, choices: seq<Choice>)
    requires IsEntry(asked) && Unhindered(sh, asked, choices) && Alone(sh, asked, choices).1.Done?
    ensures Does(sh, asked, Alone(sh, asked, choices).0, Alone(sh, asked, choices).1.outcome)
  {
    hide Alone, Unhindered, Passes, Sizes, Renders, Reads, Detaches, Tracks, Terminates;
    AloneOwes(sh, asked, choices);
  }

  // ------------------------------------------------------ and all it may do

  ghost function Any(views: set<ViewId>): (v: ViewId)
    requires views != {}
    ensures v in views
  {
    var v :| v in views; v
  }

  /** How calls must turn out for a thread to end as it may. */
  ghost function Resolving(sh: Shared, pc: Pc, now: Shared, o: Outcome): Choice {
    match pc
    case Gate(QueueLocked(_)) => Choice(!o.QueueFull?, true, "")
    case Gate(Activity(cond)) => Choice(o != ReleaseSays(cond, Busy), true, "")
    case Gate(InterruptLocked(ending)) => Choice(!StartsLadder(sh, ending, now, o), true, "")
    case Gate(SpawnLadder(ending)) => Choice(Closes(sh, ending, now, o), true, "")
    case Viewing(Track(_)) => Choice(!o.Failed?, true, "")
    case Sizing(ResizePty(_, _)) => Choice(!(now == sh && o.Failed?), true, "")
    case Sizing(ResizeModel(plan, prev)) =>
      Choice(Finishes(Shown(sh.(terminal := sh.terminal.(model := plan.Target()))), AfterResize(plan), now, o),
             now == sh.(terminal := sh.terminal.(pty := Some(prev), rollbackLost := false)), "")
    case Output(RenderModel(after)) => Choice(Finishes(Shown(sh), after, now, o), true, "")
    case Output(Publish(_, todo)) => Choice(true, true, if todo == {} then "" else Any(todo))
    case _ => Choice(true, true, "")
  }

  ghost predicate Reaches(sh: Shared, pc: Pc, now: Shared, o: Outcome) {
    var (next, after) := Advance(sh, pc, Resolving(sh, pc, now, o));
    Owes(next, after, now, o)
  }

  lemma AcquireReaches(sh: Shared, pc: Pc, now: Shared, o: Outcome)
    requires Wants(pc).Some? && Owes(sh, pc, now, o)
    ensures Reaches(sh, pc, now, o)
  {
    hide Resolving;
    var c := Resolving(sh, pc, now, o);
    match pc
    case Gate(g) => GateTaken(sh, g, now, o);
    case Viewing(v) => ViewTaken(sh, v, now, o);
    case Sizing(z) => SizeTaken(sh, z, now, o);
    case Output(out) => PickIsValid(sh, out, now, o); OutputTaken(sh, out, c, now, o);
  }

  lemma PickIsValid(sh: Shared, out: OutputPc, now: Shared, o: Outcome)
    ensures ValidPick(Output(out), Resolving(sh, Output(out), now, o))
  {
  }

  lemma GateTaken(sh: Shared, g: GatePc, now: Shared, o: Outcome)
    requires GateWants(g).Some? && GateOwes(sh, g, now, o)
    ensures GateOwes(sh, AcquireGate(g), now, o)
  {
    hide Passes, Attaches, TakesOver, Types, Queues, ReleasesUnviewed, Interrupts;
  }

  lemma ViewTaken(sh: Shared, v: ViewPc, now: Shared, o: Outcome)
    requires ViewWants(v).Some? && ViewOwes(sh, v, now, o)
    ensures ViewOwes(sh, AcquireView(v), now, o)
  {
    hide Detaches, Reads, Tracks;
  }

  lemma SizeTaken(sh: Shared, z: SizePc, now: Shared, o: Outcome)
    requires SizeWants(z).Some? && SizeOwes(sh, z, now, o)
    ensures SizeOwes(sh, AcquireSize(z), now, o)
  {
    hide Sizes, ResizesTerminal, ResizesModel, Announces;
  }

  lemma OutputTaken(sh: Shared, out: OutputPc, c: Choice, now: Shared, o: Outcome)
    requires OutputWants(out).Some? && ValidPick(Output(out), c) && OutputOwes(sh, out, now, o)
    ensures OutputOwes(sh, AcquireOutput(sh, out, c), now, o)
  {
    hide Renders, Finishes;
    if out.Publish? {
      assert out.todo + {c.pick} == out.todo;
    }
  }

  lemma CheckReaches(sh: Shared, op: Gated, now: Shared, o: Outcome)
    requires Passes(sh, op, now, o)
    ensures Owes(sh, PassGate(sh, op), now, o)
  {
    hide Attaches, TakesOver, Types, Queues, ReleasesUnviewed;
  }

  lemma AttachReaches(sh: Shared, g: GatePc, now: Shared, o: Outcome)
    requires (g.AttachLocked? || g.TakeOverLocked?) && GateOwes(sh, g, now, o)
    ensures var (next, pc) := WorkGate(sh, g, Resolving(sh, Gate(g), now, o)); Owes(next, pc, now, o)
  {
    hide ViewAuthority.Attach, ViewAuthority.TakeOver, ViewAuthority.Control;
    assert sh.announced + [] == sh.announced;
    if g.AttachLocked? {
      WhoMayAttach(sh.auth, g.view, g.client, g.access);
    } else {
      AcceptedAttemptFences(sh.auth, g.request);
    }
  }

  lemma InputReaches(sh: Shared, g: GatePc, now: Shared, o: Outcome)
    requires g.AuthorizeLocked? && GateOwes(sh, g, now, o)
    ensures var (next, pc) := WorkGate(sh, g, Resolving(sh, Gate(g), now, o)); Owes(next, pc, now, o)
  {
    hide Queues, ViewAuthority.AuthorizeInput;
    WhoMayType(sh.auth, g.input.view, g.input.client, g.input.epoch, g.input.sequence);
  }

  lemma QueueReaches(sh: Shared, g: GatePc, now: Shared, o: Outcome)
    requires (g.QueueLocked? || g.MarkUsed? || g.Record? || g.EpochLocked? || g.TakeOverAnnounce?) && GateOwes(sh, g, now, o)
    ensures var (next, pc) := WorkGate(sh, g, Resolving(sh, Gate(g), now, o)); Owes(next, pc, now, o)
  {
    hide TakesOver;
  }

  lemma TerminationIsNotBusy(sh: Shared, cond: ReleaseCondition, now: Shared, o: Outcome)
    requires Terminates(sh, Seal(cond), now, o)
    ensures o != ReleaseSays(cond, Busy)
  {
  }

  lemma LooksReaches(sh: Shared, g: GatePc, now: Shared, o: Outcome)
    requires (g.ViewsLocked? || g.Activity?) && GateOwes(sh, g, now, o)
    ensures var (next, pc) := WorkGate(sh, g, Resolving(sh, Gate(g), now, o)); Owes(next, pc, now, o)
  {
    hide Terminates;
    if g.Activity? && Terminates(sh, Seal(g.condition), now, o) {
      TerminationIsNotBusy(sh, g.condition, now, o);
    }
  }

  lemma TerminateReaches(sh: Shared, ending: Ending, c: Choice, now: Shared, o: Outcome)
    requires Terminates(sh, ending, now, o)
    ensures var (next, pc) := WorkGate(sh, Terminate(ending), c); Owes(next, pc, now, o)
  {
    hide Interrupts, AfterTerminate, Closes;
    if sh.exited || sh.terminating {
      ClosingEnds(sh, ending, now, o);
    }
  }

  lemma ClosingEnds(sh: Shared, ending: Ending, now: Shared, o: Outcome)
    requires Closes(sh, ending, now, o)
    ensures Owes(sh, AfterTerminate(ending), now, o)
  {
  }

  lemma InterruptReaches(sh: Shared, g: GatePc, now: Shared, o: Outcome)
    requires g.InterruptLocked? && GateOwes(sh, g, now, o)
    ensures var (next, pc) := WorkGate(sh, g, Resolving(sh, Gate(g), now, o)); Owes(next, pc, now, o)
  {
    hide StartsLadder;
  }

  lemma LadderReaches(sh: Shared, g: GatePc, now: Shared, o: Outcome)
    requires (g.InterruptRecord? || g.SpawnLadder? || g.SealRelease?) && GateOwes(sh, g, now, o)
    ensures var (next, pc) := WorkGate(sh, g, Resolving(sh, Gate(g), now, o)); Owes(next, pc, now, o)
  {
    hide AfterTerminate;
    if g.SpawnLadder? && Closes(sh, g.ending, now, o) {
      ClosingEnds(sh, g.ending, now, o);
    }
  }

  lemma GateReaches(sh: Shared, g: GatePc, now: Shared, o: Outcome)
    requires GateWants(g).None? && GateOwes(sh, g, now, o)
    ensures var (next, pc) := WorkGate(sh, g, Resolving(sh, Gate(g), now, o)); Owes(next, pc, now, o)
  {
    hide WorkGate, Resolving, Attaches, TakesOver, Types, Queues, ReleasesUnviewed, ReleasesIdle, Interrupts, StartsLadder;
    match g
    case Check(op) => CheckReaches(sh, op, now, o); CheckPasses(sh, op, Resolving(sh, Gate(g), now, o));
    case AttachLocked(_, _, _, _) => AttachReaches(sh, g, now, o);
    case TakeOverLocked(_) => AttachReaches(sh, g, now, o);
    case AuthorizeLocked(_) => InputReaches(sh, g, now, o);
    case ViewsLocked(_) => LooksReaches(sh, g, now, o);
    case Activity(_) => LooksReaches(sh, g, now, o);
    case Terminate(ending) => TerminateReaches(sh, ending, Resolving(sh, Gate(g), now, o), now, o);
    case InterruptLocked(_) => InterruptReaches(sh, g, now, o);
    case InterruptRecord(_) => LadderReaches(sh, g, now, o);
    case SpawnLadder(_) => LadderReaches(sh, g, now, o);
    case SealRelease(_) => LadderReaches(sh, g, now, o);
    case _ => QueueReaches(sh, g, now, o);
  }

  lemma CheckPasses(sh: Shared, op: Gated, c: Choice)
    ensures WorkGate(sh, Check(op), c) == (sh, PassGate(sh, op))
  {
  }

  lemma DetachReaches(sh: Shared, view: ViewId, client: ClientId, only: Option<u64>, c: Choice, now: Shared, o: Outcome)
    requires Detaches(sh, view, client, only, now, o)
    ensures var (next, pc) := WorkView(sh, DetachLocked(view, client, only), c); Owes(next, pc, now, o)
  {
    hide ViewAuthority.Remove, ViewAuthority.Control, ViewAuthority.Detach, ViewAuthority.DetachIfEpoch, Incarnation, AuthorityLaws.Attached;
    DetachIs(sh.auth, view, client, only);
    assert sh.announced + [] == sh.announced;
  }

  lemma ReadReaches(sh: Shared, view: ViewId, client: ClientId, epoch: u64, c: Choice, now: Shared, o: Outcome)
    requires Reads(sh, view, client, epoch, now, o)
    ensures var (next, pc) := WorkView(sh, ReadLocked(view, client, epoch), c); Owes(next, pc, now, o)
  {
    hide Tracks, ViewAuthority.AuthorizeRead;
    WhoMayRead(sh.auth, view, client, epoch);
  }

  lemma ForgetReaches(sh: Shared, v: ViewPc, now: Shared, o: Outcome)
    requires (v.DetachAnnounce? || v.RemovalModel? || v.RemovalTx?) && ViewOwes(sh, v, now, o)
    ensures var (next, pc) := WorkView(sh, v, Resolving(sh, Viewing(v), now, o)); Owes(next, pc, now, o)
  {
  }

  lemma TrackReaches(sh: Shared, v: ViewPc, now: Shared, o: Outcome)
    requires (v.HandOver? || v.Track? || v.TrackTx? || v.CollectLocked?) && ViewOwes(sh, v, now, o)
    ensures var (next, pc) := WorkView(sh, v, Resolving(sh, Viewing(v), now, o)); Owes(next, pc, now, o)
  {
    hide ViewAuthority.GcWatermarks;
  }

  lemma ViewReaches(sh: Shared, v: ViewPc, now: Shared, o: Outcome)
    requires ViewWants(v).None? && ViewOwes(sh, v, now, o)
    ensures var (next, pc) := WorkView(sh, v, Resolving(sh, Viewing(v), now, o)); Owes(next, pc, now, o)
  {
    hide WorkView, Resolving, Detaches, Reads, Tracks;
    var c := Resolving(sh, Viewing(v), now, o);
    if v.DetachLocked? {
      DetachReaches(sh, v.view, v.client, v.onlyEpoch, c, now, o);
    } else if v.ReadLocked? {
      ReadReaches(sh, v.view, v.client, v.epoch, c, now, o);
    } else if v.DetachAnnounce? || v.RemovalModel? || v.RemovalTx? {
      ForgetReaches(sh, v, now, o);
    } else {
      TrackReaches(sh, v, now, o);
    }
  }

  lemma DecideReaches(sh: Shared, op: SizeOp, now: Shared, o: Outcome)
    requires Sizes(sh, op, now, o)
    ensures Owes(sh, Decide(sh.auth, op), now, o)
  {
    hide PlanOf, ResizesTerminal, Commits;
  }

  lemma TerminalReaches(sh: Shared, z: SizePc, now: Shared, o: Outcome)
    requires z.ResizePty? && SizeOwes(sh, z, now, o)
    ensures var (next, pc) := WorkSize(sh, z, Resolving(sh, Sizing(z), now, o)); Owes(next, pc, now, o)
  {
    hide ResizesModel;
  }

  lemma ModelReaches(sh: Shared, z: SizePc, now: Shared, o: Outcome)
    requires z.ResizeModel? && SizeOwes(sh, z, now, o)
    ensures var (next, pc) := WorkSize(sh, z, Resolving(sh, Sizing(z), now, o)); Owes(next, pc, now, o)
  {
    hide Finishes;
  }

  lemma CommitReaches(sh: Shared, z: SizePc, now: Shared, o: Outcome)
    requires (z.Commit? || z.ControlLocked? || z.Announce?) && SizeOwes(sh, z, now, o)
    ensures var (next, pc) := WorkSize(sh, z, Resolving(sh, Sizing(z), now, o)); Owes(next, pc, now, o)
  {
    hide ViewAuthority.Control, ViewAuthority.CommitResize;
  }

  lemma SizeReaches(sh: Shared, z: SizePc, now: Shared, o: Outcome)
    requires SizeWants(z).None? && SizeOwes(sh, z, now, o)
    ensures var (next, pc) := Work(sh, Sizing(z), Resolving(sh, Sizing(z), now, o)); Owes(next, pc, now, o)
  {
    hide WorkSize, Resolving, Decide, Sizes, ResizesTerminal, ResizesModel, Commits;
    match z
    case SizeLocked(op) => DecideReaches(sh, op, now, o);
    case ResizePty(_, _) => TerminalReaches(sh, z, now, o);
    case ResizeModel(_, _) => ModelReaches(sh, z, now, o);
    case _ => CommitReaches(sh, z, now, o);
  }

  lemma OutputReaches(sh: Shared, out: OutputPc, now: Shared, o: Outcome)
    requires OutputWants(out).None? && OutputOwes(sh, out, now, o)
    ensures var (next, pc) := WorkOutput(sh, out, Resolving(sh, Output(out), now, o)); Owes(next, pc, now, o)
  {
    hide Commits;
    if out.PublishTx? {
      assert sh.marks.publishers + {out.view} + (out.todo - {out.view}) == sh.marks.publishers + (out.todo + {out.view});
    }
    assert sh.marks.publishers + {} == sh.marks.publishers;
  }

  lemma StepReaches(sh: Shared, pc: Pc, now: Shared, o: Outcome)
    requires !pc.Done? && Owes(sh, pc, now, o)
    ensures Reaches(sh, pc, now, o)
  {
    hide WorkGate, WorkView, WorkSize, WorkOutput, Resolving, GateOwes, ViewOwes, SizeOwes, OutputOwes, Acquire, Decide;
    if Wants(pc).Some? {
      AcquireReaches(sh, pc, now, o);
    } else {
      match pc
      case Gate(g) => GateReaches(sh, g, now, o);
      case Viewing(v) => ViewReaches(sh, v, now, o);
      case Sizing(z) => SizeReaches(sh, z, now, o);
      case Output(out) => OutputReaches(sh, out, now, o);
    }
  }

  lemma {:induction false} AloneReaches(sh: Shared, pc: Pc, now: Shared, o: Outcome) returns (choices: seq<Choice>)
    requires Owes(sh, pc, now, o)
    ensures Unhindered(sh, pc, choices) && Alone(sh, pc, choices) == (now, Done(o))
    decreases Stage(pc), Announcing(pc)
  {
    hide Advance, GateOwes, ViewOwes, SizeOwes, OutputOwes, Stage, Announcing, Holds, Wants, Alone, Unhindered;
    if pc.Done? {
      choices := [];
      NoMore(sh, pc);
    } else {
      var c := Resolving(sh, pc, now, o);
      StepReaches(sh, pc, now, o);
      StepsNearer(sh, pc, c);
      var (next, after) := Advance(sh, pc, c);
      var rest := AloneReaches(next, after, now, o);
      if Wants(pc).Some? && Holds(pc, Wants(pc).value) {
        AcquiresInOrder(pc, Wants(pc).value);
      }
      OneMore(sh, pc, c, rest);
      choices := [c] + rest;
    }
  }

  /** The whole step is exactly what running alone can come to: every end it
      allows is reached, when the calls on the way turn out so, and no other. */
  lemma AloneIsExactly(sh: Shared, asked: Pc, now: Shared, o: Outcome)
    requires IsEntry(asked)
    ensures Does(sh, asked, now, o)
      <==> exists choices :: Unhindered(sh, asked, choices) && Alone(sh, asked, choices) == (now, Done(o))
  {
    hide Alone, Unhindered, Passes, Sizes, Renders, Reads, Detaches, Tracks, Terminates;
    if Does(sh, asked, now, o) {
      var choices := AloneReaches(sh, asked, now, o);
    }
    if choices :| Unhindered(sh, asked, choices) && Alone(sh, asked, choices) == (now, Done(o)) {
      AloneIsWhole(sh, asked, choices);
    }
  }
}
