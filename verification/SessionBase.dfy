/** What every later argument about a session rests on: each field is written
    only under its lock, and every change of the shared view authority is one
    authority operation, taking effect at one step. */
module SessionBase {
  import opened Common
  import opened Authority
  import opened SessionModel
  import opened SessionLocks

  /** Each field a step changes is one whose lock the thread holds. */
  ghost predicate Guarded(before: Shared, now: Shared, pc: Pc) {
    && (now.auth != before.auth ==> Holds(pc, AuthorityLock))
    && (now.terminal != before.terminal ==> Holds(pc, AuthorityLock) && Holds(pc, Operation))
    && (now.marks != before.marks ==> Holds(pc, Operation))
    && (now.input != before.input ==> Holds(pc, OrderLock))
    && (now.life != before.life ==> Holds(pc, Lifecycle))
    && now.exited == before.exited && now.interactiveShell == before.interactiveShell
  }

  lemma GateWritesAreGuarded(sh: Shared, g: GatePc, c: Choice)
    ensures Guarded(sh, WorkGate(sh, g, c).0, Gate(g))
  {
  }

  lemma ViewWritesAreGuarded(sh: Shared, v: ViewPc, c: Choice)
    ensures Guarded(sh, WorkView(sh, v, c).0, Viewing(v))
  {
  }

  lemma SizeWritesAreGuarded(sh: Shared, z: SizePc, c: Choice)
    requires !z.SizeLocked?
    ensures Guarded(sh, WorkSize(sh, z, c).0, Sizing(z))
  {
  }

  lemma OutputWritesAreGuarded(sh: Shared, o: OutputPc, c: Choice)
    ensures Guarded(sh, WorkOutput(sh, o, c).0, Output(o))
  {
  }

  /** Every write is made under the lock that orders it. */
  lemma WritesAreGuarded(sh: Shared, pc: Pc, c: Choice)
    ensures Guarded(sh, Advance(sh, pc, c).0, pc)
  {
    match pc
    case Done(_) =>
    case Gate(g) => GateWritesAreGuarded(sh, g, c);
    case Viewing(v) => ViewWritesAreGuarded(sh, v, c);
    case Sizing(SizeLocked(_)) =>
    case Sizing(z) => SizeWritesAreGuarded(sh, z, c);
    case Output(o) => OutputWritesAreGuarded(sh, o, c);
  }

  /** The size operation a thread has decided and not yet committed. */
  function Carried(pc: Pc): Option<Plan> {
    match pc
    case Sizing(ResizeWait(plan, _)) => Some(plan)
    case Sizing(ResizePty(plan, _)) => Some(plan)
    case Sizing(ResizeModelWait(plan, _)) => Some(plan)
    case Sizing(ResizeModel(plan, _)) => Some(plan)
    case Sizing(Commit(plan)) => Some(plan)
    case Output(o) =>
      if !o.BatchWait? && !o.BatchLocked? && !o.OrderReadWait? && !o.OrderReadLocked?
         && !o.ModelReadWait? && !o.ModelReadLocked? && o.after.AfterResize?
      then Some(o.after.plan) else None
    case _ => None
  }

  function PreviousSize(pc: Pc): Option<Size> {
    match pc
    case Sizing(ResizeWait(_, prev)) => Some(prev)
    case Sizing(ResizePty(_, prev)) => Some(prev)
    case Sizing(ResizeModelWait(_, prev)) => Some(prev)
    case Sizing(ResizeModel(_, prev)) => Some(prev)
    case _ => None
  }

  /** The plan is what some operation decides on the authority as it is now. */
  ghost predicate Decided(auth: ViewAuthority, plan: Plan) {
    exists op :: PlanOf(auth, op) == Ok(plan)
  }

  ghost predicate PlanOk(auth: ViewAuthority, pc: Pc) {
    && (Carried(pc).Some? ==> Decided(auth, Carried(pc).value))
    && (PreviousSize(pc).Some? ==> PreviousSize(pc).value == auth.size)
  }

  ghost predicate Base(s: State) {
    && Exclusive(s)
    && s.sh.auth.Valid()
    && forall t | t in s.threads :: PlanOk(s.sh.auth, s.threads[t])
  }

  lemma CarriersHoldAuthority(pc: Pc)
    ensures Carried(pc).Some? || PreviousSize(pc).Some? ==> Holds(pc, AuthorityLock)
  {
  }

  /** The authority operation a size operation stands for. */
  function AsOp(op: SizeOp): Op {
    match op
    case Claim(v, cl, size) => OpClaim(v, cl, size)
    case ClaimChecked(v, cl, e, size, expected) => OpClaimChecked(v, cl, e, size, expected)
    case Resize(v, cl, ctl, n, size) => OpResize(v, cl, ctl, n, size)
    case ResizeChecked(v, cl, e, ctl, n, size) => OpResizeChecked(v, cl, e, ctl, n, size)
  }

  /** Deciding on a copy and committing later is the operation itself. */
  lemma CommitIsTheOperation(auth: ViewAuthority, op: SizeOp)
    ensures PlanOf(auth, op).Ok? ==> Committed(auth, PlanOf(auth, op).value) == Apply(auth, AsOp(op))
  {
  }

  /** What a decided plan says about the sizes it moves between. */
  lemma DecidedFacts(auth: ViewAuthority, plan: Plan)
    requires Decided(auth, plan)
    ensures plan.SizeChanged() <==> plan.Target().size != auth.size
    ensures !plan.SizeChanged() ==> plan.Target().epoch == auth.layoutEpoch
    ensures plan.ResizePlan? ==> plan.view in auth.views
    ensures Layout(Committed(auth, plan).size, Committed(auth, plan).layoutEpoch) == plan.Target()
    ensures Committed(auth, plan).views.Keys == auth.views.Keys
  {
    var op :| PlanOf(auth, op) == Ok(plan);
  }

  /** The authority operation a step performs, if it performs one. */
  ghost function OpOf(sh: Shared, pc: Pc): Option<Op>
    requires PlanOk(sh.auth, pc)
  {
    match pc
    case Gate(AttachLocked(v, cl, a, _)) => Some(OpAttach(v, cl, a))
    case Gate(TakeOverLocked(q)) => Some(OpTakeOver(q))
    case Gate(AuthorizeLocked(typed)) => Some(OpInput(typed.view, typed.client, typed.epoch, typed.sequence))
    case Viewing(DetachLocked(v, cl, only)) =>
      Some(if only.Some? then OpDetachIfEpoch(v, cl, only.value) else OpDetach(v, cl))
    case Viewing(CollectLocked(cl, through)) => Some(OpGc(cl, through))
    case Sizing(Commit(plan)) =>
      var op :| PlanOf(sh.auth, op) == Ok(plan); Some(AsOp(op))
    case _ => None
  }

  lemma GateAuthorityStep(sh: Shared, g: GatePc, c: Choice)
    ensures var now := WorkGate(sh, g, c).0.auth; var op := OpOf(sh, Gate(g));
      now == if op.None? then sh.auth else Apply(sh.auth, op.value)
  {
  }

  lemma ViewAuthorityStep(sh: Shared, v: ViewPc, c: Choice)
    ensures var now := WorkView(sh, v, c).0.auth; var op := OpOf(sh, Viewing(v));
      now == if op.None? then sh.auth else Apply(sh.auth, op.value)
  {
  }

  lemma SizeAuthorityStep(sh: Shared, z: SizePc, c: Choice)
    requires !z.SizeLocked? && PlanOk(sh.auth, Sizing(z))
    ensures var now := WorkSize(sh, z, c).0.auth; var op := OpOf(sh, Sizing(z));
      now == if op.None? then sh.auth else Apply(sh.auth, op.value)
  {
    match z
    case Commit(plan) =>
      var op :| PlanOf(sh.auth, op) == Ok(plan) && OpOf(sh, Sizing(z)) == Some(AsOp(op));
      CommitIsTheOperation(sh.auth, op);
    case _ =>
  }

  /** Every step leaves the authority alone or performs one whole authority
      operation on it. */
  lemma AuthorityStep(sh: Shared, pc: Pc, c: Choice)
    requires PlanOk(sh.auth, pc)
    ensures var now := Advance(sh, pc, c).0.auth; var op := OpOf(sh, pc);
      now == if op.None? then sh.auth else Apply(sh.auth, op.value)
  {
    match pc
    case Done(_) =>
    case Gate(g) => GateAuthorityStep(sh, g, c);
    case Viewing(v) => ViewAuthorityStep(sh, v, c);
    case Sizing(SizeLocked(_)) =>
    case Sizing(z) => SizeAuthorityStep(sh, z, c);
    case Output(o) =>
  }

  lemma StepKeepsOwnPlan(sh: Shared, pc: Pc, c: Choice)
    requires PlanOk(sh.auth, pc)
    ensures PlanOk(Advance(sh, pc, c).0.auth, Advance(sh, pc, c).1)
  {
    match pc
    case Done(_) =>
    case Gate(g) => GateCarriesNothing(sh, g, c);
    case Viewing(v) => ViewCarriesNothing(sh, v, c);
    case Sizing(SizeLocked(op)) =>
      if PlanOf(sh.auth, op).Ok? {
        assert Decided(sh.auth, PlanOf(sh.auth, op).value);
      }
    case Sizing(z) => SizeKeepsOwnPlan(sh, z, c);
    case Output(o) =>
  }

  lemma GateCarriesNothing(sh: Shared, g: GatePc, c: Choice)
    ensures Carried(WorkGate(sh, g, c).1).None? && PreviousSize(WorkGate(sh, g, c).1).None?
    ensures Carried(Gate(AcquireGate(g))).None?
  {
  }

  lemma ViewCarriesNothing(sh: Shared, v: ViewPc, c: Choice)
    ensures Carried(WorkView(sh, v, c).1).None? && PreviousSize(WorkView(sh, v, c).1).None?
  {
  }

  lemma SizeKeepsOwnPlan(sh: Shared, z: SizePc, c: Choice)
    requires !z.SizeLocked? && PlanOk(sh.auth, Sizing(z))
    ensures PlanOk(Advance(sh, Sizing(z), c).0.auth, Advance(sh, Sizing(z), c).1)
  {
  }

  lemma NextKeepsBase(s: State, e: Event)
    requires Base(s)
    ensures Base(Next(s, e))
  {
    NextKeepsExclusive(s, e);
    if Enabled(s, e) && e.Step? {
      var pc := s.threads[e.id];
      AuthorityStep(s.sh, pc, e.choice);
      var op := OpOf(s.sh, pc);
      if op.Some? {
        ApplyKeepsValid(s.sh.auth, op.value);
      }
      StepKeepsOwnPlan(s.sh, pc, e.choice);
      forall u | u in s.threads && u != e.id
        ensures PlanOk(Next(s, e).sh.auth, s.threads[u])
      {
        CarriersHoldAuthority(s.threads[u]);
        WritesAreGuarded(s.sh, pc, e.choice);
        assert Disjoint(pc, s.threads[u]);
        assert !(Holds(pc, AuthorityLock) && Holds(s.threads[u], AuthorityLock));
      }
    }
  }

  lemma InitialBase(s: State)
    requires Initial(s)
    ensures Base(s)
  {
  }

  lemma {:induction false} RunsKeepBase(s: State, run: seq<Event>)
    requires Base(s)
    ensures Base(Execute(s, run))
    decreases |run|
  {
    if run != [] {
      NextKeepsBase(s, run[0]);
      RunsKeepBase(Next(s, run[0]), run[1..]);
    }
  }

  lemma ReachableIsBase(s: State)
    requires Reachable(s)
    ensures Base(s)
  {
    var start, run :| Initial(start) && Execute(start, run) == s;
    InitialBase(start);
    RunsKeepBase(start, run);
  }

  /** What the threads of a run ask of the authority, in the order of the steps
      at which it takes effect. */
  ghost function OpsOf(s: State, run: seq<Event>): seq<Op>
    decreases |run|
  {
    if run == [] then []
    else
      var e, rest := run[0], OpsOf(Next(s, run[0]), run[1..]);
      if Enabled(s, e) && e.Step? && PlanOk(s.sh.auth, s.threads[e.id]) && OpOf(s.sh, s.threads[e.id]).Some?
      then [OpOf(s.sh, s.threads[e.id]).value] + rest
      else rest
  }

  /** Whatever the interleaving, the authority has run exactly those operations,
      each of them whole. */
  lemma {:induction false} AuthorityLinearizes(s: State, run: seq<Event>)
    requires Base(s)
    ensures Execute(s, run).sh.auth == ApplyAll(s.sh.auth, OpsOf(s, run))
    decreases |run|
  {
    hide Base, Advance, Holds, Apply, OpOf;
    if run != [] {
      var e := run[0];
      NextKeepsBase(s, e);
      AuthorityLinearizes(Next(s, e), run[1..]);
      BaseStep(s, e);
    }
  }

  lemma BaseStep(s: State, e: Event)
    requires Base(s)
    ensures if Enabled(s, e) && e.Step?
            then PlanOk(s.sh.auth, s.threads[e.id])
                 && Next(s, e).sh.auth
                    == (if OpOf(s.sh, s.threads[e.id]).None? then s.sh.auth
                        else Apply(s.sh.auth, OpOf(s.sh, s.threads[e.id]).value))
            else Next(s, e).sh.auth == s.sh.auth
  {
    hide Advance, OpOf, Apply;
    if Enabled(s, e) && e.Step? {
      AuthorityStep(s.sh, s.threads[e.id], e.choice);
    }
  }

  /** So an incarnation once superseded or detached is refused in every later
      state of every interleaving. */
  lemma RetiredStaysRefused(s: State, run: seq<Event>, view: ViewId, epoch: u64, client: ClientId, n: u64)
    requires Reachable(s) && s.sh.auth.Retired(view, epoch) && epoch < U64_MAX
    ensures var auth := Execute(s, run).sh.auth;
      && auth.AuthorizeInput(view, client, epoch, n).1.Err?
      && auth.AuthorizeRead(view, client, epoch).Err?
      && !auth.DetachIfEpoch(view, client, epoch).1
  {
    ReachableIsBase(s);
    AuthorityLinearizes(s, run);
    RetiredForever(s.sh.auth, OpsOf(s, run), view, epoch);
  }
}
