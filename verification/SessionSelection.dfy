/** A detached view's selection stays gone. */
module SessionSelection {
  import opened Authority
  import opened SessionModel
  import opened SessionLocks
  import opened SessionBase
  import opened SessionRuns

  /** A detach of this view whose removal has not finished. */
  predicate Owes(pc: Pc, view: ViewId) {
    match pc
    case Viewing(DetachAnnounce(v, _)) => v == view
    case Viewing(RemovalWait(v)) => v == view
    case Viewing(RemovalModelWait(v)) => v == view
    case Viewing(RemovalModel(v)) => v == view
    case Viewing(RemovalTxWait(v)) => v == view
    case Viewing(RemovalTx(v)) => v == view
    case _ => false
  }

  ghost predicate Owed(s: State, view: ViewId) {
    exists t | t in s.threads :: Owes(s.threads[t], view)
  }

  ghost predicate Backed(s: State, view: ViewId) {
    view in s.sh.auth.views || Owed(s, view)
  }

  /** A step that may still track this view's selection or create its publisher. */
  predicate Mentions(pc: Pc, view: ViewId) {
    match pc
    case Viewing(ReadOpWait(v)) => v == view
    case Viewing(HandOver(v)) => v == view
    case Viewing(TrackWait(v)) => v == view
    case Viewing(Track(v)) => v == view
    case Viewing(TrackTxWait(v)) => v == view
    case Viewing(TrackTx(v)) => v == view
    case Output(Publish(_, todo)) => view in todo
    case Output(PublishTx(_, todo, v)) => v == view || view in todo
    case _ => false
  }

  predicate Authorizing(pc: Pc, view: ViewId) {
    match pc
    case Viewing(ReadOpWait(v)) => v == view
    case Viewing(HandOver(v)) => v == view
    case _ => false
  }

  /** Past the model's half of the removal. */
  predicate Unmodelled(pc: Pc, view: ViewId) {
    match pc
    case Viewing(RemovalTxWait(v)) => v == view
    case Viewing(RemovalTx(v)) => v == view
    case _ => false
  }

  /** About to take `model_operation` for a read nothing has authorized. */
  predicate Unfenced(pc: Pc) {
    pc.Viewing? && pc.viewing.UnfencedWait?
  }

  /** If this is an unfenced read taking `model_operation`, its view is backed. */
  ghost predicate FindsBacked(s: State, e: Event) {
    Enabled(s, e) && e.Step? && Unfenced(s.threads[e.id]) ==> Backed(s, s.threads[e.id].viewing.view)
  }

  ghost predicate AllBacked(s: State, run: seq<Event>)
    decreases |run|
  {
    run != [] ==> FindsBacked(s, run[0]) && AllBacked(Next(s, run[0]), run[1..])
  }

  ghost predicate ThreadOk(s: State, pc: Pc) {
    && (forall v | Mentions(pc, v) :: Backed(s, v))
    && (forall v | Authorizing(pc, v) :: v in s.sh.auth.views)
    && (forall v | Unmodelled(pc, v) :: v !in s.sh.marks.selections)
  }

  /** A tracked selection or a publisher belongs to an attached view, or to one
      whose removal is still owed. */
  ghost predicate Confined(s: State) {
    forall v | v in s.sh.marks.selections || v in s.sh.marks.publishers :: Backed(s, v)
  }

  ghost predicate Inv(s: State) {
    Base(s) && Confined(s) && forall t | t in s.threads :: ThreadOk(s, s.threads[t])
  }

  // --------------------------------------------------------- what one step does

  lemma GateKeepsViews(sh: Shared, g: GatePc, c: Choice, v: ViewId)
    requires v in sh.auth.views
    ensures v in WorkGate(sh, g, c).0.auth.views
  {
  }

  lemma ViewLosesOnlyOwed(sh: Shared, p: ViewPc, c: Choice, v: ViewId)
    requires v in sh.auth.views && v !in WorkView(sh, p, c).0.auth.views
    ensures Owes(WorkView(sh, p, c).1, v)
  {
    hide ViewAuthority.AuthorizeRead;
    if !p.DetachLocked? {
      OtherViewStepsKeepViews(sh, p, c);
    }
  }

  lemma OtherViewStepsKeepViews(sh: Shared, p: ViewPc, c: Choice)
    requires !p.DetachLocked?
    ensures WorkView(sh, p, c).0.auth.views == sh.auth.views
  {
    hide ViewAuthority.AuthorizeRead, ViewAuthority.Detach, ViewAuthority.DetachIfEpoch;
  }

  lemma SizeKeepsViews(sh: Shared, z: SizePc, c: Choice, v: ViewId)
    requires !z.SizeLocked? && PlanOk(sh.auth, Sizing(z)) && v in sh.auth.views
    ensures v in WorkSize(sh, z, c).0.auth.views
  {
    if z.Commit? {
      DecidedFacts(sh.auth, z.plan);
    }
  }

  /** A view leaves the authority only in a step that then owes its removal. */
  lemma StepLosesOnlyOwed(sh: Shared, pc: Pc, c: Choice, v: ViewId)
    requires PlanOk(sh.auth, pc) && v in sh.auth.views
    ensures v in Advance(sh, pc, c).0.auth.views || Owes(Advance(sh, pc, c).1, v)
  {
    match pc
    case Done(_) =>
    case Gate(g) => GateKeepsViews(sh, g, c, v);
    case Viewing(p) =>
      if Wants(pc).None? && v !in WorkView(sh, p, c).0.auth.views {
        ViewLosesOnlyOwed(sh, p, c, v);
      }
    case Sizing(SizeLocked(_)) =>
    case Sizing(z) => SizeKeepsViews(sh, z, c, v);
    case Output(_) =>
  }

  /** A removal stays owed until its last step. */
  lemma StepKeepsOwing(sh: Shared, pc: Pc, c: Choice, v: ViewId)
    requires Owes(pc, v) && pc != Viewing(RemovalTx(v))
    ensures Owes(Advance(sh, pc, c).1, v)
  {
  }

  predicate Finishes(s: State, e: Event, v: ViewId) {
    e.Step? && e.id in s.threads && s.threads[e.id] == Viewing(RemovalTx(v))
  }

  lemma StepKeepsBacked(s: State, e: Event, v: ViewId)
    requires Base(s) && Backed(s, v) && !Finishes(s, e, v)
    ensures Backed(Next(s, e), v)
  {
    if Enabled(s, e) {
      var now := Next(s, e);
      if e.Step? && v in s.sh.auth.views {
        StepLosesOnlyOwed(s.sh, s.threads[e.id], e.choice, v);
        assert Owes(now.threads[e.id], v) ==> Owed(now, v);
      } else if v !in s.sh.auth.views {
        var t :| t in s.threads && Owes(s.threads[t], v);
        if e.Step? && t == e.id {
          StepKeepsOwing(s.sh, s.threads[t], e.choice, v);
        }
        assert Owes(now.threads[t], v);
      }
    }
  }

  lemma MentionsUnderOperation(pc: Pc, v: ViewId)
    requires Mentions(pc, v)
    ensures Holds(pc, Operation) || Authorizing(pc, v)
    ensures Authorizing(pc, v) ==> Holds(pc, AuthorityLock)
  {
  }

  /** The last step of a removal leaves nothing behind that names the view. */
  lemma FinishLeavesNothing(s: State, e: Event, v: ViewId)
    requires Inv(s) && Enabled(s, e) && Finishes(s, e, v)
    ensures v !in Next(s, e).sh.marks.selections && v !in Next(s, e).sh.marks.publishers
    ensures forall u | u in s.threads && u != e.id && Mentions(s.threads[u], v) :: v in s.sh.auth.views
  {
    forall u | u in s.threads && u != e.id && Mentions(s.threads[u], v)
      ensures v in s.sh.auth.views
    {
      MentionsUnderOperation(s.threads[u], v);
      assert Disjoint(s.threads[e.id], s.threads[u]);
      assert !(Holds(s.threads[e.id], Operation) && Holds(s.threads[u], Operation));
    }
  }

  // -------------------------------------------------------------- preservation

  /** Where a mark, or the thread about to make it, comes from. */
  lemma StepMentionsOnlyKnown(sh: Shared, pc: Pc, c: Choice, v: ViewId)
    requires ValidPick(pc, c)
    requires Mentions(Advance(sh, pc, c).1, v)
    ensures Mentions(pc, v) || v in sh.marks.selections
            || (pc.Viewing? && (pc.viewing.UnfencedWait? || (pc.viewing.ReadLocked? && v in sh.auth.views)))
    ensures Authorizing(Advance(sh, pc, c).1, v) ==> Authorizing(pc, v) || v in sh.auth.views
  {
    match pc
    case Done(_) =>
    case Gate(g) => GateMentionsNothing(sh, g, c, v);
    case Viewing(_) =>
    case Sizing(z) => SizeMentionsNothing(sh, z, c, v);
    case Output(_) =>
  }

  lemma GateMentionsNothing(sh: Shared, g: GatePc, c: Choice, v: ViewId)
    ensures !Mentions(WorkGate(sh, g, c).1, v) && !Unmodelled(WorkGate(sh, g, c).1, v)
  {
  }

  lemma SizeMentionsNothing(sh: Shared, z: SizePc, c: Choice, v: ViewId)
    ensures !Mentions(Advance(sh, Sizing(z), c).1, v) && !Unmodelled(Advance(sh, Sizing(z), c).1, v)
  {
  }

  lemma StepMarksOnlyKnown(sh: Shared, pc: Pc, c: Choice, v: ViewId)
    requires v in Advance(sh, pc, c).0.marks.selections + Advance(sh, pc, c).0.marks.publishers
    ensures v in sh.marks.selections || v in sh.marks.publishers || Mentions(pc, v)
  {
    hide WorkGate, WorkView, WorkSize, WorkOutput, Mentions, Decide;
    match pc
    case Done(_) =>
    case Gate(g) => GateMarksNothing(sh, g, c);
    case Viewing(w) => if ViewWants(w).None? { ViewMarksOnlyKnown(sh, w, c, v); }
    case Sizing(z) => SizeMarksNothing(sh, z, c);
    case Output(o) => if OutputWants(o).None? { OutputMarksOnlyKnown(sh, o, c, v); }
  }

  lemma ViewMarksOnlyKnown(sh: Shared, w: ViewPc, c: Choice, v: ViewId)
    requires v in WorkView(sh, w, c).0.marks.selections + WorkView(sh, w, c).0.marks.publishers
    ensures v in sh.marks.selections || v in sh.marks.publishers || Mentions(Viewing(w), v)
  {
    hide ViewAuthority.AuthorizeRead, ViewAuthority.Detach, ViewAuthority.DetachIfEpoch;
  }

  lemma OutputMarksOnlyKnown(sh: Shared, o: OutputPc, c: Choice, v: ViewId)
    requires v in WorkOutput(sh, o, c).0.marks.selections + WorkOutput(sh, o, c).0.marks.publishers
    ensures v in sh.marks.selections || v in sh.marks.publishers || Mentions(Output(o), v)
  {
  }

  lemma GateMarksNothing(sh: Shared, g: GatePc, c: Choice)
    ensures WorkGate(sh, g, c).0.marks == sh.marks
  {
  }

  lemma SizeMarksNothing(sh: Shared, z: SizePc, c: Choice)
    ensures Advance(sh, Sizing(z), c).0.marks == sh.marks
  {
  }

  lemma OwnThreadOk(s: State, e: Event)
    requires Inv(s) && Enabled(s, e) && e.Step? && FindsBacked(s, e)
    ensures ThreadOk(Next(s, e), Next(s, e).threads[e.id])
  {
    var pc, now := s.threads[e.id], Next(s, e);
    var next := now.threads[e.id];
    forall v | Mentions(next, v)
      ensures Backed(now, v)
      ensures Authorizing(next, v) ==> v in now.sh.auth.views
    {
      StepMentionsOnlyKnown(s.sh, pc, e.choice, v);
      assert Backed(s, v);
      StepKeepsBacked(s, e, v);
      if Authorizing(next, v) {
        StepLosesOnlyOwed(s.sh, pc, e.choice, v);
      }
    }
    forall v | Unmodelled(next, v)
      ensures v !in now.sh.marks.selections
    {
      UnmodelledOnlyAfterModel(s.sh, pc, e.choice, v);
    }
  }

  lemma UnmodelledOnlyAfterModel(sh: Shared, pc: Pc, c: Choice, v: ViewId)
    requires Unmodelled(Advance(sh, pc, c).1, v)
    requires Unmodelled(pc, v) ==> v !in sh.marks.selections
    ensures v !in Advance(sh, pc, c).0.marks.selections
  {
    match pc
    case Gate(g) => GateMentionsNothing(sh, g, c, v);
    case Sizing(z) => SizeMentionsNothing(sh, z, c, v);
    case _ =>
  }

  lemma OtherThreadOk(s: State, e: Event, u: ThreadId)
    requires Inv(s) && Enabled(s, e) && u in s.threads && (e.Step? ==> e.id != u)
    ensures ThreadOk(Next(s, e), s.threads[u])
  {
    var pc, now := s.threads[u], Next(s, e);
    forall v | Mentions(pc, v)
      ensures Backed(now, v)
    {
      if Finishes(s, e, v) {
        FinishLeavesNothing(s, e, v);
      } else {
        StepKeepsBacked(s, e, v);
      }
    }
    if e.Step? {
      assert Disjoint(s.threads[e.id], pc);
      WritesAreGuarded(s.sh, s.threads[e.id], e.choice);
      assert !(Holds(s.threads[e.id], AuthorityLock) && Holds(pc, AuthorityLock));
      assert !(Holds(s.threads[e.id], Operation) && Holds(pc, Operation));
    }
  }

  lemma NextKeepsInv(s: State, e: Event)
    requires Inv(s) && FindsBacked(s, e)
    ensures Inv(Next(s, e))
  {
    NextKeepsBase(s, e);
    if Enabled(s, e) {
      var now := Next(s, e);
      forall v | v in now.sh.marks.selections || v in now.sh.marks.publishers
        ensures Backed(now, v)
      {
        if e.Step? {
          StepMarksOnlyKnown(s.sh, s.threads[e.id], e.choice, v);
        }
        if Finishes(s, e, v) {
          FinishLeavesNothing(s, e, v);
        } else {
          StepKeepsBacked(s, e, v);
        }
      }
      forall t | t in now.threads
        ensures ThreadOk(now, now.threads[t])
      {
        if e.Step? && t == e.id {
          OwnThreadOk(s, e);
        } else if t in s.threads {
          OtherThreadOk(s, e, t);
        }
      }
    }
  }

  lemma {:induction false} RunsKeepInv(s: State, run: seq<Event>)
    requires Inv(s) && AllBacked(s, run)
    ensures Inv(Execute(s, run))
    decreases |run|
  {
    if run != [] {
      NextKeepsInv(s, run[0]);
      RunsKeepInv(Next(s, run[0]), run[1..]);
    }
  }

  // ------------------------------------------------------------------ theorems

  /** In every interleaving of reads, attaches, detaches, claims and output in
      which each unfenced read finds its view backed, a view has a tracked
      selection or a publisher only while it is attached or a detach of it still
      owes the removal. */
  lemma DetachedSelectionStaysGone(start: State, run: seq<Event>, view: ViewId)
    requires Initial(start) && AllBacked(start, run)
    ensures var now := Execute(start, run);
      view in now.sh.marks.selections || view in now.sh.marks.publishers ==>
        view in now.sh.auth.views || exists t | t in now.threads :: Owes(now.threads[t], view)
  {
    RunsKeepInv(start, run);
  }

  /** Once the detaches have returned, only attached views are announced. */
  lemma QuiescentMarksAreAttached(start: State, run: seq<Event>)
    requires Initial(start) && AllBacked(start, run)
    requires forall t | t in Execute(start, run).threads :: Execute(start, run).threads[t].Done?
    ensures var sh := Execute(start, run).sh; sh.marks.selections + sh.marks.publishers <= sh.auth.views.Keys
  {
    RunsKeepInv(start, run);
  }

  ghost predicate NoneUnfenced(s: State) {
    forall t | t in s.threads :: !Unfenced(s.threads[t])
  }

  lemma FencedStaysFenced(sh: Shared, pc: Pc, c: Choice)
    requires !Unfenced(pc)
    ensures !Unfenced(Advance(sh, pc, c).1)
  {
  }

  /** Fenced reads need no such luck: a run that starts no unfenced read is one
      in which every read finds its view backed. */
  lemma {:induction false} FencedReadsFindBacked(s: State, run: seq<Event>)
    requires NoneUnfenced(s) && forall e | e in run :: e.Start? ==> !Unfenced(e.pc)
    ensures AllBacked(s, run)
    decreases |run|
  {
    hide Advance, Backed, IsEntry;
    if run != [] {
      var e := run[0];
      if Enabled(s, e) && e.Step? {
        FencedStaysFenced(s.sh, s.threads[e.id], e.choice);
      }
      FencedReadsFindBacked(Next(s, e), run[1..]);
    }
  }

  /** Whoever holds the model but not the operation gives it up in one step, and
      no view's standing changes by it. */
  lemma ModelIsGivenUp(s: State, u: ThreadId, c: Choice, view: ViewId)
    requires u in s.threads && Holds(s.threads[u], ModelLock) && !Holds(s.threads[u], Operation)
    ensures Enabled(s, Step(u, c))
    ensures var now := Next(s, Step(u, c));
      && !Holds(now.threads[u], ModelLock)
      && now.sh == s.sh && !Owes(now.threads[u], view)
      && !Unfenced(s.threads[u])
  {
  }

  /** The read tracks its selection as soon as the model is free. */
  lemma ReadTracks(s: State, t: ThreadId, view: ViewId) returns (run: seq<Event>)
    requires t in s.threads && s.threads[t] == Viewing(TrackWait(view)) && s.Free(ModelLock)
    requires !Backed(s, view)
    ensures AllBacked(s, run) && !Confined(Execute(s, run))
  {
    var c := Choice(true, true, view);
    var locked := Next(s, Step(t, c));
    assert locked.threads == s.threads[t := Viewing(Track(view))] && locked.sh == s.sh;
    var tracked := Next(locked, Step(t, c));
    assert tracked.threads == s.threads[t := Viewing(TrackTxWait(view))] && tracked.sh.auth == s.sh.auth;
    run := [Step(t, c), Step(t, c)];
    assert run[1..] == [Step(t, c)] && run[1..][1..] == [];
    assert Execute(locked, run[1..]) == Execute(tracked, []) == tracked;
    assert view in tracked.sh.marks.selections;
    forall u | u in tracked.threads ensures !Owes(tracked.threads[u], view) {
      assert u != t ==> !Owes(s.threads[u], view);
    }
    assert !Backed(tracked, view);
  }

  /** A read of a view that is not backed, once it has the operation, can go on
      to leave the view's selection behind. */
  lemma UnbackedReadEscapes(s: State, t: ThreadId, view: ViewId) returns (run: seq<Event>)
    requires Exclusive(s) && t in s.threads && s.threads[t] == Viewing(TrackWait(view))
    requires !Backed(s, view)
    ensures AllBacked(s, run) && !Confined(Execute(s, run))
  {
    if s.Free(ModelLock) {
      run := ReadTracks(s, t, view);
    } else {
      var u :| u in s.threads && Holds(s.threads[u], ModelLock);
      assert Disjoint(s.threads[t], s.threads[u]);
      assert Holds(s.threads[t], Operation);
      var e := Step(u, Choice(true, true, view));
      ModelIsGivenUp(s, u, e.choice, view);
      var now := Next(s, e);
      forall v | v in now.threads ensures !Holds(now.threads[v], ModelLock) {
        if v != u {
          assert Disjoint(s.threads[u], s.threads[v]);
          assert !(Holds(s.threads[u], ModelLock) && Holds(s.threads[v], ModelLock));
        }
      }
      forall v | v in now.threads ensures !Owes(now.threads[v], view) {
        assert v != u ==> now.threads[v] == s.threads[v] && !Owes(s.threads[v], view);
      }
      assert !Backed(now, view);
      var rest := ReadTracks(now, t, view);
      run := [e] + rest;
      assert run[1..] == rest;
    }
  }

  /** Exactly when an unfenced read is safe: from the step in which it takes
      `model_operation`, nothing it does can leave a detached view's selection
      behind if and only if its view is attached, or a detach of it still owes
      the removal, at that step. */
  lemma UnfencedReadIsSafeExactly(s: State, t: ThreadId, view: ViewId, c: Choice)
    requires Inv(s) && t in s.threads && s.threads[t] == Viewing(UnfencedWait(view))
    requires Enabled(s, Step(t, c))
    ensures var taken := Next(s, Step(t, c));
      (forall run | AllBacked(taken, run) :: Confined(Execute(taken, run))) <==> Backed(s, view)
  {
    var taken := Next(s, Step(t, c));
    assert taken.sh == s.sh && taken.threads == s.threads[t := Viewing(TrackWait(view))];
    if Backed(s, view) {
      NextKeepsInv(s, Step(t, c));
      forall run | AllBacked(taken, run) ensures Confined(Execute(taken, run)) {
        RunsKeepInv(taken, run);
      }
    } else {
      forall u | u in taken.threads ensures !Owes(taken.threads[u], view) {
        assert u != t ==> !Owes(s.threads[u], view);
      }
      NextKeepsExclusive(s, Step(t, c));
      var run := UnbackedReadEscapes(taken, t, view);
      assert !Confined(Execute(taken, run));
    }
  }

  /** And it does happen: an unfenced read in a new session, of any view at all,
      leaves that view's selection and publisher behind when everything has
      finished. */
  lemma UnfencedReadResurrects(start: State, view: ViewId) returns (run: seq<Event>)
    requires Initial(start)
    ensures var now := Execute(start, run);
      && (forall t | t in now.threads :: now.threads[t].Done?)
      && view !in now.sh.auth.views
      && view in now.sh.marks.selections && view in now.sh.marks.publishers
  {
    var c := Choice(true, true, view);
    UnfencedReadAlone(start.sh, view, c);
    run := RunOperation(start, 0, Viewing(UnfencedWait(view)), [c, c, c, c, c]);
  }

  lemma TrackAlone(sh: Shared, view: ViewId, c: Choice)
    requires c.ok
    ensures var tracked := sh.(marks := Marks(sh.marks.selections + {view}, sh.marks.publishers));
      Advance(sh, Viewing(Track(view)), c) == (tracked, Viewing(TrackTxWait(view)))
    ensures Advance(sh, Viewing(TrackTxWait(view)), c) == (sh, Viewing(TrackTx(view)))
    ensures Advance(sh, Viewing(TrackTx(view)), c)
         == (sh.(marks := Marks(sh.marks.selections, sh.marks.publishers + {view})), Done(ReadDone))
  {
  }

  lemma TrackedReadAlone(sh: Shared, view: ViewId, c: Choice)
    requires c.ok
    ensures Unhindered(sh, Viewing(TrackTxWait(view)), [c, c])
    ensures Alone(sh, Viewing(TrackTxWait(view)), [c, c])
         == (sh.(marks := Marks(sh.marks.selections, sh.marks.publishers + {view})), Done(ReadDone))
  {
    hide Work, Unhindered, Alone;
    TrackAlone(sh, view, c);
    NoMore(sh.(marks := Marks(sh.marks.selections, sh.marks.publishers + {view})), Done(ReadDone));
    OneMore(sh, Viewing(TrackTx(view)), c, []);
    OneMore(sh, Viewing(TrackTxWait(view)), c, [c]);
    assert [c] + [] == [c] && [c] + [c] == [c, c];
  }

  lemma UnfencedReadAlone(sh: Shared, view: ViewId, c: Choice)
    requires c.ok
    ensures Unhindered(sh, Viewing(UnfencedWait(view)), [c, c, c, c, c])
    ensures var (now, pc) := Alone(sh, Viewing(UnfencedWait(view)), [c, c, c, c, c]);
      && pc == Done(ReadDone) && now.auth == sh.auth
      && view in now.marks.selections && view in now.marks.publishers
  {
    hide Work, Unhindered, Alone;
    TrackAlone(sh, view, c);
    TrackedReadAlone(sh.(marks := Marks(sh.marks.selections + {view}, sh.marks.publishers)), view, c);
    OneMore(sh, Viewing(Track(view)), c, [c, c]);
    OneMore(sh, Viewing(TrackWait(view)), c, [c, c, c]);
    OneMore(sh, Viewing(UnfencedWait(view)), c, [c, c, c, c]);
    assert [c] + [c, c] == [c, c, c] && [c] + [c, c, c] == [c, c, c, c];
    assert [c] + [c, c, c, c] == [c, c, c, c, c];
  }
}
