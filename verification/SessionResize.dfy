/** A resize is all or nothing across the authority, the model and the PTY. */
module SessionResize {
  import opened Common
  import opened Authority
  import opened SessionModel
  import opened SessionLocks
  import opened SessionBase
  import opened SessionRuns

  function LayoutOf(auth: ViewAuthority): Layout {
    Layout(auth.size, auth.layoutEpoch)
  }

  /** A live PTY is at this size, unless the last rollback of it failed, and
      then it is not. */
  predicate PtyAt(sh: Shared, size: Size) {
    sh.terminal.pty.Some? ==> (sh.terminal.pty.value == size <==> !sh.terminal.rollbackLost)
  }

  predicate Settled(sh: Shared) {
    sh.terminal.model == LayoutOf(sh.auth) && PtyAt(sh, sh.auth.size)
  }

  /** The PTY has moved; the model has not. */
  predicate PtyAhead(pc: Pc) {
    pc.Sizing? && (pc.sizing.ResizeModelWait? || pc.sizing.ResizeModel?)
  }

  /** PTY and model have moved; the authority commits next. */
  predicate AuthorityBehind(pc: Pc) {
    Carried(pc).Some? && (pc.Output? || pc.sizing.Commit?)
  }

  ghost predicate WindowOk(sh: Shared, pc: Pc) {
    && (PtyAhead(pc) ==> sh.terminal.model == LayoutOf(sh.auth) && Carried(pc).value.SizeChanged()
                         && (sh.terminal.pty.Some? ==>
                               sh.terminal.pty.value == Carried(pc).value.Target().size && !sh.terminal.rollbackLost))
    && (AuthorityBehind(pc) ==> sh.terminal.model == Carried(pc).value.Target()
                                && PtyAt(sh, Carried(pc).value.Target().size))
    && (pc.Sizing? && (pc.sizing.ResizeWait? || pc.sizing.ResizePty?) ==> Carried(pc).value.SizeChanged())
    && (pc.Output? && (pc.output.RenderWait? || pc.output.RenderModelWait? || pc.output.RenderModel?) ==>
          !pc.output.after.AfterResize?)
    && pc != Done(Panicked)
  }

  predicate InWindow(pc: Pc) {
    PtyAhead(pc) || AuthorityBehind(pc)
  }

  ghost predicate Inv(s: State) {
    && Base(s)
    && ((forall t | t in s.threads :: !InWindow(s.threads[t])) ==> Settled(s.sh))
    && forall t | t in s.threads :: WindowOk(s.sh, s.threads[t])
  }

  // ------------------------------------------------------------ what steps do

  lemma GateKeepsLayout(sh: Shared, g: GatePc, c: Choice)
    ensures LayoutOf(WorkGate(sh, g, c).0.auth) == LayoutOf(sh.auth)
    ensures WorkGate(sh, g, c).0.terminal == sh.terminal
    ensures !InWindow(WorkGate(sh, g, c).1) && WindowOk(sh, WorkGate(sh, g, c).1)
  {
    if !g.AttachLocked? && !g.TakeOverLocked? && !g.AuthorizeLocked? {
      OtherGatesKeepLayout(sh, g, c);
    }
  }

  lemma OtherGatesKeepLayout(sh: Shared, g: GatePc, c: Choice)
    requires !g.AttachLocked? && !g.TakeOverLocked? && !g.AuthorizeLocked?
    ensures WorkGate(sh, g, c).0.auth == sh.auth && WorkGate(sh, g, c).0.terminal == sh.terminal
    ensures !InWindow(WorkGate(sh, g, c).1) && WindowOk(sh, WorkGate(sh, g, c).1)
  {
    hide ViewAuthority.Attach, ViewAuthority.TakeOver, ViewAuthority.AuthorizeInput;
  }

  lemma ViewKeepsLayout(sh: Shared, v: ViewPc, c: Choice)
    ensures LayoutOf(WorkView(sh, v, c).0.auth) == LayoutOf(sh.auth)
    ensures WorkView(sh, v, c).0.terminal == sh.terminal
    ensures !InWindow(WorkView(sh, v, c).1) && WindowOk(sh, WorkView(sh, v, c).1)
  {
  }

  /** What a step does to a settled or half-moved session, by where it starts. */
  ghost predicate StepSettles(sh: Shared, pc: Pc, c: Choice) {
    var (now, next) := Advance(sh, pc, c);
    && WindowOk(now, next)
    && (!InWindow(next) ==>
          Settled(now) || (!InWindow(pc) && LayoutOf(now.auth) == LayoutOf(sh.auth) && now.terminal == sh.terminal))
  }

  lemma SizeStepSettles(sh: Shared, z: SizePc, c: Choice)
    requires sh.auth.Valid() && PlanOk(sh.auth, Sizing(z)) && WindowOk(sh, Sizing(z))
    requires !InWindow(Sizing(z)) && Carried(Sizing(z)).Some? ==> Settled(sh)
    requires !z.SizeLocked?
    ensures StepSettles(sh, Sizing(z), c)
  {
    if z.Commit? {
      CommitSettles(sh, z.plan, c);
    } else {
      TerminalStepSettles(sh, z, c);
    }
  }

  lemma CommitSettles(sh: Shared, plan: Plan, c: Choice)
    requires sh.auth.Valid() && PlanOk(sh.auth, Sizing(Commit(plan))) && WindowOk(sh, Sizing(Commit(plan)))
    ensures StepSettles(sh, Sizing(Commit(plan)), c)
  {
    DecidedFacts(sh.auth, plan);
  }

  lemma TerminalStepSettles(sh: Shared, z: SizePc, c: Choice)
    requires PlanOk(sh.auth, Sizing(z)) && WindowOk(sh, Sizing(z)) && !z.SizeLocked? && !z.Commit?
    requires !InWindow(Sizing(z)) && Carried(Sizing(z)).Some? ==> Settled(sh)
    ensures StepSettles(sh, Sizing(z), c)
  {
    match z
    case ResizePty(plan, prev) => PtyStepSettles(sh, plan, prev, c);
    case ResizeModel(plan, prev) => ModelStepSettles(sh, plan, prev, c);
    case _ =>
  }

  lemma PtyStepSettles(sh: Shared, plan: Plan, prev: Size, c: Choice)
    requires PlanOk(sh.auth, Sizing(ResizePty(plan, prev))) && WindowOk(sh, Sizing(ResizePty(plan, prev))) && Settled(sh)
    ensures StepSettles(sh, Sizing(ResizePty(plan, prev)), c)
  {
    DecidedFacts(sh.auth, plan);
    hide Decided, Committed;
  }

  lemma ModelStepSettles(sh: Shared, plan: Plan, prev: Size, c: Choice)
    requires PlanOk(sh.auth, Sizing(ResizeModel(plan, prev))) && WindowOk(sh, Sizing(ResizeModel(plan, prev)))
    ensures StepSettles(sh, Sizing(ResizeModel(plan, prev)), c)
  {
    DecidedFacts(sh.auth, plan);
    hide Decided, Committed;
  }

  lemma DecideStepSettles(sh: Shared, op: SizeOp, c: Choice)
    requires Settled(sh)
    ensures StepSettles(sh, Sizing(SizeLocked(op)), c)
  {
    if PlanOf(sh.auth, op).Ok? {
      assert Decided(sh.auth, PlanOf(sh.auth, op).value);
      DecidedFacts(sh.auth, PlanOf(sh.auth, op).value);
    }
  }

  lemma OutputStepSettles(sh: Shared, o: OutputPc, c: Choice)
    requires WindowOk(sh, Output(o))
    ensures StepSettles(sh, Output(o), c)
  {
    if !o.ReplySend? {
      RenderStepSettles(sh, o, c);
    }
  }

  lemma RenderStepSettles(sh: Shared, o: OutputPc, c: Choice)
    requires WindowOk(sh, Output(o)) && !o.ReplySend?
    ensures StepSettles(sh, Output(o), c)
  {
    hide AfterUpdate;
  }

  lemma StepIsSettling(sh: Shared, pc: Pc, c: Choice)
    requires sh.auth.Valid() && PlanOk(sh.auth, pc) && WindowOk(sh, pc)
    requires Holds(pc, AuthorityLock) && !InWindow(pc) ==> Settled(sh)
    ensures StepSettles(sh, pc, c)
  {
    match pc
    case Done(_) =>
    case Gate(g) => if GateWants(g).None? { GateKeepsLayout(sh, g, c); }
    case Viewing(v) => if ViewWants(v).None? { ViewKeepsLayout(sh, v, c); }
    case Sizing(SizeLocked(op)) => DecideStepSettles(sh, op, c);
    case Sizing(z) => CarriersHoldAuthority(pc); SizeStepSettles(sh, z, c);
    case Output(o) => OutputStepSettles(sh, o, c);
  }

  lemma WindowHoldsAuthority(pc: Pc)
    ensures InWindow(pc) || (pc.Sizing? && (pc.sizing.ResizeWait? || pc.sizing.ResizePty?)) ==> Holds(pc, AuthorityLock)
  {
  }

  // -------------------------------------------------------------- preservation

  /** With the authority held outside the window, nobody is inside it. */
  lemma HolderSeesSettled(s: State, t: ThreadId)
    requires Inv(s) && t in s.threads && Holds(s.threads[t], AuthorityLock) && !InWindow(s.threads[t])
    ensures Settled(s.sh)
  {
    forall u | u in s.threads
      ensures !InWindow(s.threads[u])
    {
      if u != t {
        WindowHoldsAuthority(s.threads[u]);
        assert Disjoint(s.threads[t], s.threads[u]);
      }
    }
  }

  /** The layout moves only under the authority. */
  lemma StepKeepsLayoutUnlessHeld(sh: Shared, pc: Pc, c: Choice)
    ensures !Holds(pc, AuthorityLock) ==>
      Advance(sh, pc, c).0.auth == sh.auth && Advance(sh, pc, c).0.terminal == sh.terminal
  {
    WritesAreGuarded(sh, pc, c);
  }

  lemma OwnStepSettles(s: State, e: Event)
    requires Inv(s) && Enabled(s, e) && e.Step?
    ensures StepSettles(s.sh, s.threads[e.id], e.choice)
  {
    hide Advance, Holds, WindowOk, StepSettles;
    var pc := s.threads[e.id];
    if Holds(pc, AuthorityLock) && !InWindow(pc) {
      HolderSeesSettled(s, e.id);
    }
    StepIsSettling(s.sh, pc, e.choice);
  }

  lemma OtherStepsKeepWindow(s: State, e: Event, u: ThreadId)
    requires Inv(s) && Enabled(s, e) && e.Step? && u in s.threads && u != e.id
    ensures WindowOk(Next(s, e).sh, s.threads[u])
  {
    hide Advance, Holds;
    StepKeepsLayoutUnlessHeld(s.sh, s.threads[e.id], e.choice);
    WindowHoldsAuthority(s.threads[u]);
    assert Disjoint(s.threads[e.id], s.threads[u]);
    assert !(Holds(s.threads[e.id], AuthorityLock) && Holds(s.threads[u], AuthorityLock));
  }

  lemma StepLeavesSettled(s: State, e: Event)
    requires Inv(s) && Enabled(s, e) && e.Step?
    requires forall t | t in Next(s, e).threads :: !InWindow(Next(s, e).threads[t])
    ensures Settled(Next(s, e).sh)
  {
    hide Advance, Holds, WindowOk, Base;
    var now := Next(s, e);
    OwnStepSettles(s, e);
    assert !InWindow(now.threads[e.id]);
    if !InWindow(s.threads[e.id]) {
      forall t | t in s.threads ensures !InWindow(s.threads[t]) {
        assert t != e.id ==> now.threads[t] == s.threads[t];
      }
    }
  }

  lemma OtherEventsKeepWindow(s: State, e: Event)
    requires Inv(s) && Enabled(s, e) && !e.Step?
    ensures forall t | t in Next(s, e).threads :: WindowOk(Next(s, e).sh, Next(s, e).threads[t])
    ensures forall t | t in s.threads :: Next(s, e).threads[t] == s.threads[t]
    ensures Settled(s.sh) ==> Settled(Next(s, e).sh)
  {
    hide Base;
  }

  lemma NextKeepsInv(s: State, e: Event)
    requires Inv(s)
    ensures Inv(Next(s, e))
  {
    hide Advance, Holds, WindowOk, Base, Settled;
    NextKeepsBase(s, e);
    var now := Next(s, e);
    if Enabled(s, e) && e.Step? {
      OwnStepSettles(s, e);
      forall u | u in s.threads && u != e.id ensures WindowOk(now.sh, s.threads[u]) {
        OtherStepsKeepWindow(s, e, u);
      }
      if forall t | t in now.threads :: !InWindow(now.threads[t]) {
        StepLeavesSettled(s, e);
      }
    } else if Enabled(s, e) {
      OtherEventsKeepWindow(s, e);
    }
  }

  lemma {:induction false} RunsKeepInv(s: State, run: seq<Event>)
    requires Inv(s)
    ensures Inv(Execute(s, run))
    decreases |run|
  {
    if run != [] {
      NextKeepsInv(s, run[0]);
      RunsKeepInv(Next(s, run[0]), run[1..]);
    }
  }

  lemma ReachableInv(s: State)
    requires Reachable(s)
    ensures Inv(s)
  {
    var start, run :| Initial(start) && Execute(start, run) == s;
    RunsKeepInv(start, run);
  }

  /** Whenever the authority is free, it agrees with the model on size and
      layout epoch, and with a live PTY on size exactly when the last rollback,
      if there was one, succeeded: whatever claims and resizes ran, granted,
      lost or failed half way, and whatever else ran between them. */
  lemma ResizeIsTransactional(s: State)
    requires Reachable(s) && s.Free(AuthorityLock)
    ensures s.sh.terminal.model == Layout(s.sh.auth.size, s.sh.auth.layoutEpoch)
    ensures s.sh.terminal.pty.Some? ==>
              (s.sh.terminal.pty.value == s.sh.auth.size <==> !s.sh.terminal.rollbackLost)
  {
    ReachableInv(s);
    forall t | t in s.threads ensures !InWindow(s.threads[t]) {
      WindowHoldsAuthority(s.threads[t]);
    }
  }

  /** A lone attach of a view not yet attached, without its snapshot. */
  lemma AttachAlone(sh: Shared, view: ViewId, client: ClientId, ok: Choice)
    requires 0 < |view| <= MAX_VIEW_ID_BYTES && view !in sh.auth.views && !sh.life.released
    ensures var attach := Gate(Enter(AttachView(view, client, ReadWrite, false)));
      && Unhindered(sh, attach, [ok, ok, ok, ok])
      && Alone(sh, attach, [ok, ok, ok, ok])
         == (sh.(auth := sh.auth.Install(view, client, ReadWrite)), Done(Attached(Bump(sh.auth.nextAttachmentEpoch))))
  {
    hide Unhindered, Alone;
    var next := sh.(auth := sh.auth.Install(view, client, ReadWrite));
    var op := AttachView(view, client, ReadWrite, false);
    NoMore(next, Done(Attached(next.auth.nextAttachmentEpoch)));
    OneMore(sh, Gate(AttachLocked(view, client, ReadWrite, false)), ok, []);
    OneMore(sh, Gate(AttachWait(view, client, ReadWrite, false)), ok, [ok]);
    OneMore(sh, Gate(Check(op)), ok, [ok, ok]);
    OneMore(sh, Gate(Enter(op)), ok, [ok, ok, ok]);
    assert [ok] + [] == [ok] && [ok] + [ok] == [ok, ok] && [ok] + [ok, ok] == [ok, ok, ok];
    assert [ok] + [ok, ok, ok] == [ok, ok, ok, ok];
  }

  /** A lone claim with a new size, when the PTY follows, the model then refuses,
      and the PTY refuses to go back. */
  lemma ClaimAlone(sh: Shared, view: ViewId, client: ClientId, size: Size, ok: Choice, bad: Choice)
    requires view in sh.auth.views && sh.auth.views[view].client == client && sh.auth.views[view].access == ReadWrite
    requires size != sh.auth.size && sh.terminal.pty.Some? && ok.ok && !bad.ok && !bad.rollback
    ensures var claim := Sizing(SizeWait(Claim(view, client, size)));
      && Unhindered(sh, claim, [ok, ok, ok, ok, ok, bad])
      && Alone(sh, claim, [ok, ok, ok, ok, ok, bad])
         == (sh.(terminal := sh.terminal.(pty := Some(size), rollbackLost := true)), Done(Failed))
  {
    hide Unhindered, Alone;
    var op := Claim(view, client, size);
    var plan, prev := PlanOf(sh.auth, op).value, sh.auth.size;
    var moved := sh.(terminal := sh.terminal.(pty := Some(size), rollbackLost := false));
    NoMore(moved.(terminal := moved.terminal.(rollbackLost := true)), Done(Failed));
    OneMore(moved, Sizing(ResizeModel(plan, prev)), bad, []);
    OneMore(moved, Sizing(ResizeModelWait(plan, prev)), ok, [bad]);
    OneMore(sh, Sizing(ResizePty(plan, prev)), ok, [ok, bad]);
    OneMore(sh, Sizing(ResizeWait(plan, prev)), ok, [ok, ok, bad]);
    OneMore(sh, Sizing(SizeLocked(op)), ok, [ok, ok, ok, bad]);
    OneMore(sh, Sizing(SizeWait(op)), ok, [ok, ok, ok, ok, bad]);
    assert [bad] + [] == [bad] && [ok] + [bad] == [ok, bad] && [ok] + [ok, bad] == [ok, ok, bad];
    assert [ok] + [ok, ok, bad] == [ok, ok, ok, bad] && [ok] + [ok, ok, ok, bad] == [ok, ok, ok, ok, bad];
    assert [ok] + [ok, ok, ok, ok, bad] == [ok, ok, ok, ok, ok, bad];
  }

  /** The exception is reached: in any new session a claim of any other size can
      end with every thread finished and the PTY at that size, which neither the
      authority nor the model has. */
  lemma LostRollbackDisagrees(start: State, view: ViewId, client: ClientId, size: Size) returns (run: seq<Event>)
    requires Initial(start) && 0 < |view| <= MAX_VIEW_ID_BYTES && size != start.sh.auth.size
    ensures var now := Execute(start, run);
      && (forall t | t in now.threads :: now.threads[t].Done?)
      && now.sh.terminal.pty == Some(size) && size != now.sh.auth.size == now.sh.terminal.model.size
  {
    hide Unhindered, Alone;
    var ok, bad := Choice(true, true, view), Choice(false, false, view);
    AttachAlone(start.sh, view, client, ok);
    var attach := RunOperation(start, 0, Gate(Enter(AttachView(view, client, ReadWrite, false))), [ok, ok, ok, ok]);
    var attached := Execute(start, attach);
    ClaimAlone(attached.sh, view, client, size, ok, bad);
    var claim := RunOperation(attached, 1, Sizing(SizeWait(Claim(view, client, size))), [ok, ok, ok, ok, ok, bad]);
    run := attach + claim;
    ExecuteAppend(start, attach, claim);
  }

  /** A prepared resize never finds its view gone. */
  lemma CommitNeverPanics(s: State, t: ThreadId)
    requires Reachable(s) && t in s.threads
    ensures s.threads[t] != Done(Panicked)
  {
    ReachableInv(s);
  }
}
