/** Every operation that has begun can be brought to its end. */
module SessionProgress {
  import opened Authority
  import opened SessionModel
  import opened SessionLocks

  // ------------------------------------------------- how far a thread has to go

  function GateStage(g: GatePc): nat {
    match g
    case Enter(_) => 30
    case Check(_) => 29
    case AttachWait(_, _, _, _) => 20
    case AttachLocked(_, _, _, _) => 19
    case EpochWait(_) => 28
    case EpochLocked(_) => 27
    case TakeOverWait(_) => 26
    case TakeOverLocked(_) => 25
    case TakeOverAnnounce(_) => 24
    case AuthorizeWait(_) => 28
    case AuthorizeLocked(_) => 27
    case QueueWait(_) => 26
    case QueueLocked(_) => 25
    case MarkUsed(_) => 24
    case Record(_) => 23
    case ViewsWait(_) => 28
    case ViewsLocked(_) => 27
    case Activity(_) => 26
    case Terminate(_) => 25
    case InterruptWait(_) => 24
    case InterruptLocked(_) => 23
    case InterruptRecord(_) => 22
    case SpawnLadder(_) => 21
    case SealRelease(_) => 20
  }

  function ViewStage(v: ViewPc): nat {
    match v
    case DetachWait(_, _, _) => 10
    case DetachLocked(_, _, _) => 9
    case DetachAnnounce(_, _) => 8
    case RemovalWait(_) => 7
    case RemovalModelWait(_) => 6
    case RemovalModel(_) => 5
    case RemovalTxWait(_) => 4
    case RemovalTx(_) => 3
    case ReadWait(_, _, _) => 10
    case ReadLocked(_, _, _) => 9
    case ReadOpWait(_) => 8
    case HandOver(_) => 7
    case UnfencedWait(_) => 7
    case TrackWait(_) => 6
    case Track(_) => 5
    case TrackTxWait(_) => 4
    case TrackTx(_) => 3
    case CollectWait(_, _) => 2
    case CollectLocked(_, _) => 1
  }

  function SizeStage(z: SizePc): nat {
    match z
    case SizeWait(_) => 30
    case SizeLocked(_) => 29
    case ResizeWait(_, _) => 28
    case ResizePty(_, _) => 27
    case ResizeModelWait(_, _) => 26
    case ResizeModel(_, _) => 25
    case Commit(_) => 4
    case ControlWait => 3
    case ControlLocked => 2
    case Announce(_) => 1
  }

  function OutputStage(o: OutputPc): nat {
    match o
    case BatchWait => 17
    case BatchLocked => 16
    case RenderWait(_) => 15
    case RenderModelWait(_) => 14
    case RenderModel(_) => 13
    case PublishWait(_) => 12
    case Publish(_, _) => 11
    case PublishTx(_, _, _) => 11
    case Effects(_) => 10
    case ReplySend(_) => 9
    case OrderReadWait => 2
    case OrderReadLocked => 1
    case ModelReadWait => 2
    case ModelReadLocked => 1
  }

  function Stage(pc: Pc): nat {
    match pc
    case Done(_) => 0
    case Gate(g) => GateStage(g)
    case Viewing(v) => ViewStage(v)
    case Sizing(z) => SizeStage(z)
    case Output(o) => OutputStage(o)
  }

  /** The one loop: the views still to announce. */
  function Announcing(pc: Pc): nat {
    match pc
    case Output(Publish(_, todo)) => 2 * |todo|
    case Output(PublishTx(_, todo, view)) => 2 * |todo - {view}| + 1
    case _ => 0
  }

  /** A step brings its thread nearer to its end. */
  ghost predicate Nearer(before: Pc, after: Pc) {
    Stage(after) < Stage(before) || (Stage(after) == Stage(before) && Announcing(after) < Announcing(before))
  }

  lemma GateStepsNearer(sh: Shared, g: GatePc, c: Choice)
    requires GateWants(g).None?
    ensures Stage(WorkGate(sh, g, c).1) < GateStage(g)
  {
    hide WorkGate, GateStage, Stage;
    if Leaving(g) {
      ReleaseStepsNearer(sh, g, c);
    } else {
      EntryStepsNearer(sh, g, c);
    }
  }

  lemma ReleaseStepsNearer(sh: Shared, g: GatePc, c: Choice)
    requires GateWants(g).None? && Leaving(g)
    ensures Stage(WorkGate(sh, g, c).1) < GateStage(g)
  {
    hide ViewAuthority.Attach, ViewAuthority.TakeOver, ViewAuthority.AuthorizeInput, PassGate;
  }

  lemma EntryStepsNearer(sh: Shared, g: GatePc, c: Choice)
    requires GateWants(g).None? && !Leaving(g)
    ensures Stage(WorkGate(sh, g, c).1) < GateStage(g)
  {
    hide ViewAuthority.Attach, ViewAuthority.TakeOver, ViewAuthority.AuthorizeInput, ViewAuthority.Control, PassGate;
    if g.Check? {
      GateOpensOnward(sh, g.op);
    }
  }

  lemma GateOpensOnward(sh: Shared, op: Gated)
    ensures Stage(PassGate(sh, op)) < GateStage(Check(op))
  {
  }

  lemma SizeStepsNearer(sh: Shared, z: SizePc, c: Choice)
    requires SizeWants(z).None?
    ensures Stage(Work(sh, Sizing(z), c).1) < SizeStage(z)
  {
    hide PlanOf;
  }

  lemma AnnouncingComesNearer(sh: Shared, after: After, todo: set<ViewId>, c: Choice)
    requires todo != {} && c.pick in todo
    ensures Nearer(Output(Publish(after, todo)), Advance(sh, Output(Publish(after, todo)), c).1)
  {
    hide Work;
    assert |todo - {c.pick}| == |todo| - 1;
  }

  lemma AnnouncedComesNearer(sh: Shared, after: After, todo: set<ViewId>, view: ViewId, c: Choice)
    ensures Nearer(Output(PublishTx(after, todo, view)), Advance(sh, Output(PublishTx(after, todo, view)), c).1)
  {
  }

  lemma OutputWorksOnward(sh: Shared, o: OutputPc, c: Choice)
    requires OutputWants(o).None? && !o.PublishTx?
    ensures Stage(WorkOutput(sh, o, c).1) < OutputStage(o)
  {
  }

  lemma OutputStepsNearer(sh: Shared, o: OutputPc, c: Choice)
    requires ValidPick(Output(o), c)
    ensures Nearer(Output(o), Advance(sh, Output(o), c).1)
  {
    hide WorkOutput;
    match o
    case Publish(after, todo) =>
      if todo != {} {
        AnnouncingComesNearer(sh, after, todo, c);
      } else {
        OutputWorksOnward(sh, o, c);
      }
    case PublishTx(after, todo, view) => AnnouncedComesNearer(sh, after, todo, view, c);
    case _ =>
      if OutputWants(o).None? {
        OutputWorksOnward(sh, o, c);
      }
  }

  lemma StepsNearer(sh: Shared, pc: Pc, c: Choice)
    requires !pc.Done? && ValidPick(pc, c)
    ensures Nearer(pc, Advance(sh, pc, c).1)
  {
    match pc
    case Gate(g) => if GateWants(g).None? { GateStepsNearer(sh, g, c); }
    case Viewing(_) =>
    case Sizing(z) => if SizeWants(z).None? { SizeStepsNearer(sh, z, c); }
    case Output(o) => OutputStepsNearer(sh, o, c);
  }

  // ------------------------------------------------------- all threads together

  function TotalStage(threads: map<ThreadId, Pc>, n: nat): nat {
    if n == 0 then 0
    else TotalStage(threads, n - 1) + if n - 1 in threads then Stage(threads[n - 1]) else 0
  }

  function TotalAnnouncing(threads: map<ThreadId, Pc>, n: nat): nat {
    if n == 0 then 0
    else TotalAnnouncing(threads, n - 1) + if n - 1 in threads then Announcing(threads[n - 1]) else 0
  }

  lemma {:induction false} TotalsMove(threads: map<ThreadId, Pc>, t: ThreadId, pc: Pc, n: nat)
    requires t in threads
    ensures TotalStage(threads[t := pc], n) - TotalStage(threads, n)
         == if t < n then Stage(pc) - Stage(threads[t]) else 0
    ensures TotalAnnouncing(threads[t := pc], n) - TotalAnnouncing(threads, n)
         == if t < n then Announcing(pc) - Announcing(threads[t]) else 0
    decreases n
  {
    hide Stage, Announcing;
    if n > 0 {
      TotalsMove(threads, t, pc, n - 1);
    }
  }

  ghost predicate IdsBelow(threads: map<ThreadId, Pc>, n: nat) {
    forall t | t in threads :: t < n
  }

  lemma {:induction false} SomeBound(ids: set<ThreadId>) returns (n: nat)
    ensures forall t | t in ids :: t < n
    decreases |ids|
  {
    if ids == {} {
      n := 0;
    } else {
      var t :| t in ids;
      var m := SomeBound(ids - {t});
      n := if m > t then m else t + 1;
      forall u | u in ids ensures u < n {
        assert u == t || u in ids - {t};
      }
    }
  }

  ghost predicate AllDone(s: State) {
    forall t | t in s.threads :: s.threads[t].Done?
  }

  lemma {:induction false} RunToTheEnd(s: State, n: nat) returns (run: seq<Event>)
    requires IdsBelow(s.threads, n)
    ensures AllDone(Execute(s, run)) && Execute(s, run).threads.Keys == s.threads.Keys
    decreases TotalStage(s.threads, n), TotalAnnouncing(s.threads, n)
  {
    hide Advance, Holds, Wants, ValidPick, Stage, Announcing;
    if AllDone(s) {
      run := [];
    } else {
      var t :| t in s.threads && !s.threads[t].Done?;
      var u := ClimbToRunnable(s, t);
      var c :| Enabled(s, Step(u, c));
      var pc := Advance(s.sh, s.threads[u], c).1;
      StepsNearer(s.sh, s.threads[u], c);
      TotalsMove(s.threads, u, pc, n);
      var rest := RunToTheEnd(Next(s, Step(u, c)), n);
      run := [Step(u, c)] + rest;
      assert run[1..] == rest;
      assert Next(s, run[0]).threads.Keys == s.threads.Keys;
    }
  }

  /** From every state, some run of the threads there are ends with all of them
      finished. */
  lemma EverythingCanFinish(s: State) returns (run: seq<Event>)
    ensures AllDone(Execute(s, run)) && Execute(s, run).threads.Keys == s.threads.Keys
  {
    var n := SomeBound(s.threads.Keys);
    run := RunToTheEnd(s, n);
  }
}
