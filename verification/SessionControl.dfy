/** Control snapshots are sent after the authority is released, so they can
    overtake one another; keeping the highest revision still converges. */
module SessionControl {
  import opened Common
  import opened Authority
  import opened AuthorityLaws
  import opened SessionModel
  import opened SessionBase

  /** A snapshot a thread has taken and not sent yet. */
  function Pending(pc: Pc): Option<ControlState> {
    match pc
    case Gate(TakeOverAnnounce(state)) => Some(state)
    case Viewing(DetachAnnounce(_, state)) => Some(state)
    case Sizing(Announce(state)) => Some(state)
    case _ => None
  }

  ghost predicate OutstandingAt(s: State, t: ThreadId, state: ControlState) {
    t in s.threads && Pending(s.threads[t]) == Some(state)
  }

  /** Sent, or about to be by the thread that took it. */
  ghost predicate Told(s: State, state: ControlState) {
    state in s.sh.announced || exists t :: OutstandingAt(s, t, state)
  }

  /** What an announcement may say next to the authority as it is now. */
  ghost predicate Consistent(auth: ViewAuthority, state: ControlState) {
    state.revision < auth.controlRevision || state == auth.Control()
  }

  /** Below saturation: nothing told is ahead of the authority, and the current
      state has been told unless the controller never changed. */
  ghost predicate Inv(s: State) {
    && Base(s)
    && (s.sh.auth.controlRevision < U64_MAX ==>
          && (forall state | Told(s, state) :: Consistent(s.sh.auth, state))
          && (s.sh.auth.Control() == ControlState(None, 1) || Told(s, s.sh.auth.Control())))
  }

  // ------------------------------------------------------------ what steps do

  lemma GateTellsChange(sh: Shared, g: GatePc, c: Choice)
    ensures var (now, pc) := WorkGate(sh, g, c);
      now.auth.Control() != sh.auth.Control() ==> Pending(pc) == Some(now.auth.Control())
    ensures var (now, pc) := WorkGate(sh, g, c);
      Pending(pc).Some? ==> Pending(pc) == Some(now.auth.Control()) && Pending(Gate(g)).None?
  {
    if !g.AttachLocked? && !g.TakeOverLocked? && !g.AuthorizeLocked? {
      OtherGatesTellNothing(sh, g, c);
    }
  }

  lemma OtherGatesTellNothing(sh: Shared, g: GatePc, c: Choice)
    requires !g.AttachLocked? && !g.TakeOverLocked? && !g.AuthorizeLocked?
    ensures var (now, pc) := WorkGate(sh, g, c);
      now.auth == sh.auth && Pending(pc).None?
  {
    hide ViewAuthority.Attach, ViewAuthority.TakeOver, ViewAuthority.AuthorizeInput;
  }

  lemma ViewTellsChange(sh: Shared, v: ViewPc, c: Choice)
    requires sh.auth.controlRevision < U64_MAX
    ensures var (now, pc) := WorkView(sh, v, c);
      now.auth.Control() != sh.auth.Control() ==> Pending(pc) == Some(now.auth.Control())
    ensures var (now, pc) := WorkView(sh, v, c);
      Pending(pc).Some? && Pending(pc) != Pending(Viewing(v)) ==> Pending(pc) == Some(now.auth.Control())
  {
  }

  lemma SizeTellsChange(sh: Shared, z: SizePc, c: Choice)
    requires !z.SizeLocked?
    ensures var (now, pc) := WorkSize(sh, z, c);
      now.auth.Control() != sh.auth.Control() ==> Pending(pc) == Some(now.auth.Control())
    ensures var (now, pc) := WorkSize(sh, z, c);
      Pending(pc).Some? && Pending(pc) != Pending(Sizing(z)) ==> Pending(pc) == Some(now.auth.Control())
  {
  }

  /** A step that changes the controller or its revision leaves with the new
      state in hand, and no step takes any other. */
  lemma StepTellsChange(sh: Shared, pc: Pc, c: Choice)
    requires sh.auth.controlRevision < U64_MAX
    ensures var (now, next) := Advance(sh, pc, c);
      && (now.auth.Control() != sh.auth.Control() ==> Pending(next) == Some(now.auth.Control()))
      && (Pending(next).Some? && Pending(next) != Pending(pc) ==> Pending(next) == Some(now.auth.Control()))
  {
    match pc
    case Done(_) =>
    case Gate(g) => GateTellsChange(sh, g, c);
    case Viewing(v) => ViewTellsChange(sh, v, c);
    case Sizing(SizeLocked(op)) =>
    case Sizing(z) => SizeTellsChange(sh, z, c);
    case Output(_) =>
  }

  /** Announcing is exactly sending what was pending. */
  lemma StepSendsPending(sh: Shared, pc: Pc, c: Choice)
    ensures var (now, next) := Advance(sh, pc, c);
      if Pending(pc).Some? then now.announced == sh.announced + [Pending(pc).value]
      else now.announced == sh.announced
  {
    match pc
    case Gate(g) => GateSendsPending(sh, g, c);
    case Sizing(SizeLocked(_)) =>
    case Sizing(z) => SizeSendsPending(sh, z, c);
    case _ =>
  }

  lemma GateSendsPending(sh: Shared, g: GatePc, c: Choice)
    ensures WorkGate(sh, g, c).0.announced
            == if g.TakeOverAnnounce? then sh.announced + [g.state] else sh.announced
  {
  }

  lemma SizeSendsPending(sh: Shared, z: SizePc, c: Choice)
    requires !z.SizeLocked?
    ensures WorkSize(sh, z, c).0.announced
            == if z.Announce? then sh.announced + [z.state] else sh.announced
  {
  }

  lemma StepMovesRevision(sh: Shared, pc: Pc, c: Choice)
    requires sh.auth.Valid() && PlanOk(sh.auth, pc)
    ensures var now := Advance(sh, pc, c).0.auth;
      && now.controlRevision >= sh.auth.controlRevision
      && (sh.auth.controlRevision < U64_MAX && now.controlRevision == sh.auth.controlRevision ==>
            now.Control() == sh.auth.Control())
  {
    AuthorityStep(sh, pc, c);
    var op := OpOf(sh, pc);
    if op.Some? {
      if sh.auth.controlRevision < U64_MAX {
        RevisionTracksController(sh.auth, op.value);
      } else {
        RevisionNeverFalls(sh.auth, op.value);
      }
    }
  }

  lemma RevisionNeverFalls(a: ViewAuthority, op: Op)
    ensures Apply(a, op).controlRevision >= a.controlRevision
  {
  }

  // -------------------------------------------------------------- preservation

  lemma ToldBefore(s: State, e: Event, state: ControlState)
    requires Inv(s) && Enabled(s, e) && e.Step? && s.sh.auth.controlRevision < U64_MAX
    requires Told(Next(s, e), state)
    ensures Told(s, state) || state == Next(s, e).sh.auth.Control()
  {
    var pc, now := s.threads[e.id], Next(s, e);
    StepSendsPending(s.sh, pc, e.choice);
    StepTellsChange(s.sh, pc, e.choice);
    if state in now.sh.announced {
      assert state in s.sh.announced || OutstandingAt(s, e.id, state);
    } else {
      var t :| OutstandingAt(now, t, state);
      assert OutstandingAt(s, t, state) || t == e.id;
    }
  }

  lemma StaysTold(s: State, e: Event, state: ControlState)
    requires Told(s, state)
    ensures Told(Next(s, e), state)
  {
    var now := Next(s, e);
    if Enabled(s, e) && e.Step? {
      StepSendsPending(s.sh, s.threads[e.id], e.choice);
    }
    if state !in s.sh.announced {
      var t :| OutstandingAt(s, t, state);
      assert state in now.sh.announced || OutstandingAt(now, t, state);
    }
  }

  lemma NextKeepsInv(s: State, e: Event)
    requires Inv(s)
    ensures Inv(Next(s, e))
  {
    NextKeepsBase(s, e);
    var now := Next(s, e);
    if Enabled(s, e) && e.Step? {
      StepMovesRevision(s.sh, s.threads[e.id], e.choice);
      if now.sh.auth.controlRevision < U64_MAX {
        forall state | Told(now, state)
          ensures Consistent(now.sh.auth, state)
        {
          ToldBefore(s, e, state);
        }
        StepTellsChange(s.sh, s.threads[e.id], e.choice);
        if now.sh.auth.Control() == s.sh.auth.Control() {
          if Told(s, s.sh.auth.Control()) {
            StaysTold(s, e, s.sh.auth.Control());
          }
        } else {
          assert OutstandingAt(now, e.id, now.sh.auth.Control());
        }
      }
    } else if Enabled(s, e) {
      if Told(s, s.sh.auth.Control()) {
        StaysTold(s, e, s.sh.auth.Control());
      }
      forall state | Told(now, state)
        ensures Told(s, state)
      {
        if state !in s.sh.announced {
          var t :| OutstandingAt(now, t, state);
          assert OutstandingAt(s, t, state);
        }
      }
    }
  }

  lemma {:induction false} RunsKeepInv(s: State, run: seq<Event>)
    requires Inv(s)
    ensures Inv(Execute(s, run))
    decreases |run|
  {
    if run != [] {
      NextKeepsInv(s, run[0]);
      RunsKeepInv(Next(s, run[0]), run[1..]);
    }
  }

  lemma InitialInv(s: State)
    requires Initial(s)
    ensures Inv(s)
  {
  }

  lemma ReachableInv(s: State)
    requires Reachable(s)
    ensures Inv(s)
  {
    var start, run :| Initial(start) && Execute(start, run) == s;
    InitialInv(start);
    RunsKeepInv(start, run);
  }

  /** Revisions only rise, equal revisions below saturation are equal states,
      and what has been sent stays sent. */
  lemma {:induction false} ControlOnlyMovesForward(s: State, run: seq<Event>)
    requires Base(s)
    ensures var now := Execute(s, run).sh;
      && s.sh.announced <= now.announced
      && s.sh.auth.controlRevision <= now.auth.controlRevision
      && (now.auth.controlRevision < U64_MAX && now.auth.controlRevision == s.sh.auth.controlRevision ==>
            now.auth.Control() == s.sh.auth.Control())
    decreases |run|
  {
    if run != [] {
      NextKeepsBase(s, run[0]);
      ControlOnlyMovesForward(Next(s, run[0]), run[1..]);
      if Enabled(s, run[0]) && run[0].Step? {
        StepMovesRevision(s.sh, s.threads[run[0].id], run[0].choice);
        StepSendsPending(s.sh, s.threads[run[0].id], run[0].choice);
      }
    }
  }

  // ----------------------------------------------------------------- observers

  /** An observer keeps the snapshot with the highest revision it has seen. */
  function Observe(seen: ControlState, delivered: seq<ControlState>): ControlState
    decreases |delivered|
  {
    if delivered == [] then seen
    else Observe(if delivered[0].revision > seen.revision then delivered[0] else seen, delivered[1..])
  }

  lemma {:induction false} ObserveKeepsHighest(seen: ControlState, delivered: seq<ControlState>)
    ensures var kept := Observe(seen, delivered);
      && (kept == seen || kept in delivered)
      && kept.revision >= seen.revision
      && (forall d | d in delivered :: kept.revision >= d.revision)
    decreases |delivered|
  {
    if delivered != [] {
      ObserveKeepsHighest(if delivered[0].revision > seen.revision then delivered[0] else seen, delivered[1..]);
      assert delivered == [delivered[0]] + delivered[1..];
    }
  }

  /** An observer that subscribed and then read the state, and to whom the
      snapshots sent since are delivered in any order, agrees with the
      authority once every operation has returned: controller and revision,
      and a cleared controller no less than a claimed one. */
  lemma ObserversConverge(s: State, run: seq<Event>, subscribed: nat, delivered: seq<ControlState>)
    requires Reachable(s) && subscribed <= |s.sh.announced|
    requires var now := Execute(s, run);
      && (forall t | t in now.threads :: now.threads[t].Done?)
      && now.sh.auth.controlRevision < U64_MAX
      && subscribed <= |now.sh.announced|
      && forall d :: d in delivered <==> d in now.sh.announced[subscribed..]
    ensures Observe(s.sh.auth.Control(), delivered) == Execute(s, run).sh.auth.Control()
  {
    var now := Execute(s, run);
    ReachableInv(s);
    RunsKeepInv(s, run);
    ControlOnlyMovesForward(s, run);
    ObserveKeepsHighest(s.sh.auth.Control(), delivered);
    var kept, current := Observe(s.sh.auth.Control(), delivered), now.sh.auth.Control();
    assert kept in delivered ==> Told(now, kept);
    if now.sh.auth.controlRevision > s.sh.auth.controlRevision {
      assert s.sh.auth.controlRevision >= 1;
      assert Told(now, current);
      var i :| 0 <= i < |now.sh.announced| && now.sh.announced[i] == current;
      if i < |s.sh.announced| {
        assert s.sh.announced[i] == current;
        assert Told(s, current);
      }
      assert current == now.sh.announced[subscribed..][i - subscribed];
    }
  }

  /** At saturation the promise ends: a detach that clears the controller no
      longer moves the revision, so nothing is announced. */
  lemma SaturatedClearIsSilent(sh: Shared, view: ViewId, client: ClientId, c: Choice)
    requires sh.auth.controlRevision == U64_MAX
    requires view in sh.auth.views && sh.auth.views[view].client == client
    requires sh.auth.controller.Some? && sh.auth.controller.value.view == view
    ensures var (now, pc) := Advance(sh, Viewing(DetachLocked(view, client, None)), c);
      now.auth.controller.None? && Pending(pc).None? && now.announced == sh.announced
  {
  }

  /** A controller once superseded, taken over or detached resizes nothing in any
      later state of any interleaving, by the terminal or by the authority. */
  lemma DeposedNeverResizes(s: State, run: seq<Event>, t: ThreadId, op: SizeOp, c: Choice)
    requires Reachable(s) && t in Execute(s, run).threads && Execute(s, run).threads[t] == Sizing(SizeLocked(op))
    requires (op.Resize? || op.ResizeChecked?) && Deposed(s.sh.auth, op.controlEpoch) && op.controlEpoch < U64_MAX
    ensures Next(Execute(s, run), Step(t, c)).threads[t] == Done(Denied)
    ensures Next(Execute(s, run), Step(t, c)).sh == Execute(s, run).sh
  {
    hide Execute, OpsOf, Apply;
    ReachableIsBase(s);
    AuthorityLinearizes(s, run);
    DeposedForever(s.sh.auth, OpsOf(s, run), op.controlEpoch, op.view, op.client, op.sequence, op.size);
  }

  /** And a claim that expects a revision some change of control has superseded
      takes nothing: it is denied, or told that it lost. */
  lemma SupersededNeverClaims(s: State, run: seq<Event>, t: ThreadId, op: SizeOp, c: Choice)
    requires Reachable(s) && t in Execute(s, run).threads && Execute(s, run).threads[t] == Sizing(SizeLocked(op))
    requires op.ClaimChecked? && op.expected.Some? && op.expected.value < s.sh.auth.controlRevision
    ensures Next(Execute(s, run), Step(t, c)).threads[t] in {Done(Denied), Done(ClaimLost)}
    ensures Next(Execute(s, run), Step(t, c)).sh == Execute(s, run).sh
  {
    hide Execute, OpsOf, Apply;
    ReachableIsBase(s);
    AuthorityLinearizes(s, run);
    SupersededClaimLoses(s.sh.auth, OpsOf(s, run), op.view, op.client, op.epoch, op.size, op.expected.value);
  }
}
