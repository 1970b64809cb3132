/** What each operation of a session does, all of it at once: the locks, the
    threads and the steps between them left out. */
module SessionWhole {
  import opened Common
  import opened Authority
  import opened AuthorityLaws
  import opened SessionModel

  /** Accepted into the input queue: queued, counted, and known to be used. */
  function Queued(sh: Shared, entry: Entry): Shared {
    var order := InputOrder(
      if entry.Human() then Bump(sh.input.order.humanEpoch) else sh.input.order.humanEpoch,
      Bump(sh.input.order.sequence));
    sh.(input := Input(order, sh.input.queue + [entry], sh.input.recorded + [entry]),
        life := sh.life.(inputUsed := sh.life.inputUsed || entry.Consumes()))
  }

  /** Automation is told where it stands; a view is told that it was accepted. */
  function Answer(order: InputOrder, entry: Entry): Outcome {
    if entry.FromAutomation? then Automated(order.humanEpoch, order.sequence) else Accepted
  }

  /** An automation that expects another human epoch is fenced; otherwise the
      queue takes the entry or is full. */
  predicate Queues(sh: Shared, item: Item, now: Shared, o: Outcome) {
    if item.expected.Some? && item.expected.value != sh.input.order.humanEpoch then now == sh && o == Fenced(sh.input.order.humanEpoch)
    else (now == sh && o.QueueFull?) || (now == Queued(sh, item.entry) && o == Answer(now.input.order, item.entry))
  }

  /** Input of a view is queued if its incarnation is live, writable and has not
      sent the number before; the number is used up even by a full queue. */
  ghost predicate Types(sh: Shared, typed: Typed, now: Shared, o: Outcome) {
    var accepted := sh.auth.AuthorizeInput(typed.view, typed.client, typed.epoch, typed.sequence).0;
    if !(Writer(sh.auth, typed.view, typed.client) && sh.auth.Current(typed.view, typed.epoch)) then now == sh && o.Denied?
    else if typed.sequence <= sh.auth.views[typed.view].lastInput then now == sh && o.Ignored?
    else Queues(sh.(auth := accepted), Item(FromView(typed), None), now, o)
  }

  /** An update is rendered to every view with a selection, or fails first. */
  function Shown(sh: Shared): Shared {
    sh.(marks := sh.marks.(publishers := sh.marks.publishers + sh.marks.selections))
  }

  ghost predicate Attaches(sh: Shared, view: ViewId, client: ClientId, access: Access, snapshot: bool, now: Shared, o: Outcome) {
    var (auth, r) := sh.auth.Attach(view, client, access);
    var attached := sh.(auth := auth);
    if r.Err? then now == sh && o.Denied?
    else if snapshot then (now == attached && o.Failed?) || (now == Shown(attached) && o == Attached(r.value))
    else now == attached && o == Attached(r.value)
  }

  /** A takeover that cleared a controller says so to every viewer. */
  ghost predicate TakesOver(sh: Shared, request: TakeOverRequest, now: Shared, o: Outcome) {
    var (auth, r) := sh.auth.TakeOver(request);
    if r.Err? then now == sh && o.Denied?
    else
      && o.TookOver?
      && now == sh.(auth := auth, announced := sh.announced + if r.value.controllerCleared then [auth.Control()] else [])
  }

  /** The end of a termination: of the session, or of a release that seals. */
  predicate Closes(sh: Shared, ending: Ending, now: Shared, o: Outcome) {
    match ending
    case Stop => now == sh && o.Terminated?
    case Seal(cond) =>
      now == sh.(life := sh.life.(released := true, seals := sh.life.seals + {cond})) && o == ReleaseSays(cond, Released)
  }

  /** The ladder is started once: it is, or the termination is undone. */
  predicate StartsLadder(sh: Shared, ending: Ending, now: Shared, o: Outcome) {
    Closes(sh, ending, now, o) || (now == sh.(terminating := false) && o.Failed?)
  }

  predicate Interrupts(sh: Shared, ending: Ending, now: Shared, o: Outcome) {
    StartsLadder(sh, ending, now, o) || StartsLadder(Queued(sh, FromHost), ending, now, o)
  }

  predicate Terminates(sh: Shared, ending: Ending, now: Shared, o: Outcome) {
    if sh.exited || sh.terminating then Closes(sh, ending, now, o)
    else Interrupts(sh.(terminating := true), ending, now, o)
  }

  /** A release with no view attached: a live child lets nobody release who
      waits for its exit, nor anybody while it is busy. */
  predicate ReleasesIdle(sh: Shared, cond: ReleaseCondition, now: Shared, o: Outcome) {
    if sh.exited then Terminates(sh, Seal(cond), now, o)
    else match cond
      case Exited => now == sh && o == ReleaseSays(cond, Running)
      case Unused => (now == sh && o == ReleaseSays(cond, Busy)) || Terminates(sh, Seal(cond), now, o)
  }

  predicate ReleasesUnviewed(sh: Shared, cond: ReleaseCondition, now: Shared, o: Outcome) {
    if sh.auth.views.Keys != {} then now == sh && o == ReleaseSays(cond, StillAttached) else ReleasesIdle(sh, cond, now, o)
  }

  predicate Releases(sh: Shared, cond: ReleaseCondition, now: Shared, o: Outcome) {
    if cond.Unused? && sh.life.inputUsed then now == sh && o == ReleaseSays(cond, Used)
    else if cond.Unused? && !sh.interactiveShell then now == sh && o == ReleaseSays(cond, NotShell)
    else ReleasesUnviewed(sh, cond, now, o)
  }

  /** Everything but a release finds a released session closing. */
  ghost predicate Passes(sh: Shared, op: Gated, now: Shared, o: Outcome) {
    match op
    case ReleaseIf(cond) => Releases(sh, cond, now, o)
    case AttachView(view, client, access, snapshot) =>
      if sh.life.released then now == sh && o.Refused? else Attaches(sh, view, client, access, snapshot, now, o)
    case TakeOverView(request) => if sh.life.released then now == sh && o.Refused? else TakesOver(sh, request, now, o)
    case ViewInput(typed) => if sh.life.released then now == sh && o.Refused? else Types(sh, typed, now, o)
    case AutomationInput(expected, consumes) =>
      if sh.life.released then now == sh && o.Refused?
      else Queues(sh, Item(FromAutomation(consumes), Some(expected)), now, o)
  }

  function Forgotten(sh: Shared, view: ViewId): Shared {
    sh.(marks := Marks(sh.marks.selections - {view}, sh.marks.publishers - {view}))
  }

  /** A detach takes the view, its selection and its publisher, and says when it
      cleared the controller. */
  ghost predicate Detaches(sh: Shared, view: ViewId, client: ClientId, onlyEpoch: Option<u64>, now: Shared, o: Outcome) {
    var named := if onlyEpoch.Some? then Incarnation(sh.auth, view, client, onlyEpoch.value) else AuthorityLaws.Attached(sh.auth, view, client);
    && o.DetachDone?
    && if !named then now == sh
       else
         var auth := sh.auth.Remove(view);
         now == Forgotten(sh, view).(auth := auth,
           announced := sh.announced + if auth.controlRevision != sh.auth.controlRevision then [auth.Control()] else [])
  }

  /** Reading a selection leaves it tracked, with a publisher. */
  predicate Tracks(sh: Shared, view: ViewId, now: Shared, o: Outcome) {
    || (now == sh && o.Failed?)
    || (o.ReadDone? && now == sh.(marks := Marks(sh.marks.selections + {view}, sh.marks.publishers + {view})))
  }

  ghost predicate Reads(sh: Shared, view: ViewId, client: ClientId, epoch: u64, now: Shared, o: Outcome) {
    if Incarnation(sh.auth, view, client, epoch) then Tracks(sh, view, now, o) else now == sh && o.Denied?
  }

  ghost predicate Commits(sh: Shared, plan: Plan, now: Shared, o: Outcome) {
    match plan
    case ClaimPlan(next, _) => now == sh.(auth := next, announced := sh.announced + [next.Control()]) && o.Announced?
    case ResizePlan(view, p) =>
      if view in sh.auth.views then now == sh.(auth := sh.auth.CommitResize(view, p)) && o.Resized? else now == sh && o.Panicked?
  }

  ghost predicate Finishes(sh: Shared, after: After, now: Shared, o: Outcome) {
    match after
    case AfterAttach(epoch) => now == sh && o == Attached(epoch)
    case AfterRender => now == sh && o == Rendered
    case AfterResize(plan) => Commits(sh, plan, now, o)
  }

  ghost predicate Renders(sh: Shared, after: After, now: Shared, o: Outcome) {
    (now == sh && o.Failed?) || Finishes(Shown(sh), after, now, o)
  }

  /** The model follows the PTY, or the PTY is put back where the model is; a
      PTY that cannot be put back stays resized. */
  ghost predicate ResizesModel(sh: Shared, plan: Plan, previous: Size, now: Shared, o: Outcome) {
    || Finishes(Shown(sh.(terminal := sh.terminal.(model := plan.Target()))), AfterResize(plan), now, o)
    || (now == sh && o.Failed? && sh.terminal.pty.None?)
    || (now == sh.(terminal := sh.terminal.(pty := Some(previous), rollbackLost := false)) && o.Failed? && sh.terminal.pty.Some?)
    || (now == sh.(terminal := sh.terminal.(rollbackLost := true)) && o.Failed? && sh.terminal.pty.Some?)
  }

  ghost predicate ResizesTerminal(sh: Shared, plan: Plan, previous: Size, now: Shared, o: Outcome) {
    if sh.terminal.pty.None? then ResizesModel(sh, plan, previous, now, o)
    else
      || (now == sh && o.Failed?)
      || ResizesModel(sh.(terminal := sh.terminal.(pty := Some(plan.Target().size), rollbackLost := false)), plan, previous, now, o)
  }

  /** A claim or resize is decided on the authority, followed by the terminal
      when the size changes, and only then committed. */
  ghost predicate Sizes(sh: Shared, op: SizeOp, now: Shared, o: Outcome) {
    match PlanOf(sh.auth, op)
    case Err(refused) => now == sh && o == refused
    case Ok(plan) =>
      if plan.SizeChanged() then ResizesTerminal(sh, plan, sh.auth.size, now, o) else Commits(sh, plan, now, o)
  }

  ghost predicate Announces(sh: Shared, state: ControlState, now: Shared, o: Outcome) {
    now == sh.(announced := sh.announced + [state]) && o.Announced?
  }

  /** What an operation may do and answer, by where it begins. */
  ghost predicate Does(sh: Shared, asked: Pc, now: Shared, o: Outcome)
    requires IsEntry(asked)
  {
    match asked
    case Gate(Enter(op)) => Passes(sh, op, now, o)
    case Gate(_) => Terminates(sh, Stop, now, o)
    case Viewing(DetachWait(view, client, onlyEpoch)) => Detaches(sh, view, client, onlyEpoch, now, o)
    case Viewing(ReadWait(view, client, epoch)) => Reads(sh, view, client, epoch, now, o)
    case Viewing(UnfencedWait(view)) => Tracks(sh, view, now, o)
    case Viewing(CollectWait(client, through)) => now == sh.(auth := sh.auth.GcWatermarks(client, through)) && o.Collected?
    case Sizing(SizeWait(op)) => Sizes(sh, op, now, o)
    case Sizing(_) => Announces(sh, sh.auth.Control(), now, o)
    case Output(OrderReadWait) => now == sh && o == EpochIs(sh.input.order.humanEpoch)
    case Output(ModelReadWait) => now == sh && o == Rendered
    case Output(_) => Renders(sh, AfterRender, now, o)
  }

  // ------------------------------------------------------------ what it comes to

  /** All a caller can ask for is somewhere an operation may begin. */
  lemma AllMayBegin(op: Gated, sizeOp: SizeOp, view: ViewId, client: ClientId, epoch: u64, onlyEpoch: Option<u64>)
    ensures IsEntry(Gate(Enter(op))) && IsEntry(Gate(Terminate(Stop)))
    ensures IsEntry(Viewing(DetachWait(view, client, onlyEpoch))) && IsEntry(Viewing(CollectWait(client, epoch)))
    ensures IsEntry(Viewing(ReadWait(view, client, epoch))) && IsEntry(Viewing(UnfencedWait(view)))
    ensures IsEntry(Sizing(SizeWait(sizeOp))) && IsEntry(Sizing(ControlWait))
    ensures IsEntry(Output(BatchWait)) && IsEntry(Output(RenderWait(AfterRender)))
    ensures IsEntry(Output(OrderReadWait)) && IsEntry(Output(ModelReadWait))
  {
  }

  /** What an accepted input leaves behind: it is the next entry of the queue, a
      human one alone moves the human epoch, and one that consumes the session
      leaves it used. */
  lemma AcceptedInputCounts(sh: Shared, op: Gated, now: Shared, o: Outcome)
    requires op.ViewInput? || op.AutomationInput?
    requires Does(sh, Gate(Enter(op)), now, o) && (o.Accepted? || o.Automated?)
    ensures o.Automated? <==> op.AutomationInput?
    ensures now.input.queue == sh.input.queue + [if op.ViewInput? then FromView(op.input) else FromAutomation(op.consumes)]
    ensures now.input.order.sequence == Bump(sh.input.order.sequence)
    ensures now.input.order.humanEpoch
      == if op.ViewInput? && op.input.human then Bump(sh.input.order.humanEpoch) else sh.input.order.humanEpoch
    ensures now.life.inputUsed <==> sh.life.inputUsed || if op.ViewInput? then op.input.consumes else op.consumes
    ensures op.AutomationInput? ==> op.expected == sh.input.order.humanEpoch && now.auth == sh.auth
    ensures op.ViewInput? ==> Writer(sh.auth, op.input.view, op.input.client) && sh.auth.Current(op.input.view, op.input.epoch)
  {
  }

  /** A new session is running: nobody waiting for its exit is let go, and one
      that is no interactive shell never counts as unused. */
  lemma NewSessionIsOpen(size: Size, interactiveShell: bool, now: Shared, o: Outcome)
    ensures var started := NewSession(size, interactiveShell);
      && (Does(started, Gate(Enter(ReleaseIf(Exited))), now, o) <==> now == started && o == ReleaseSays(Exited, Running))
      && (Does(started, Gate(Enter(ReleaseIf(Unused))), now, o) ==>
            if interactiveShell then o.Failed? || o == ReleaseSays(Unused, Busy) || (o == ReleaseSays(Unused, Released) && now.life.released)
            else now == started && o == ReleaseSays(Unused, NotShell))
  {
    hide Queued;
  }

  /** Terminating it starts the ladder, or leaves it running. */
  lemma NewSessionTerminates(size: Size, interactiveShell: bool, now: Shared, o: Outcome)
    requires Does(NewSession(size, interactiveShell), Gate(Terminate(Stop)), now, o)
    ensures now.terminating <==> o.Terminated?
    ensures !now.terminating ==> o.Failed?
    ensures now != NewSession(size, interactiveShell) || o.Failed?
  {
  }

  /** How a claim or a resize is decided: who may, whether it is too late, and
      the size and layout epoch it moves the terminal to. */
  lemma SizesAreDecided(auth: ViewAuthority, op: SizeOp)
    requires auth.Valid()
    ensures var plan := PlanOf(auth, op);
      && (plan.Ok? ==>
            && plan.value.Target().size == op.size
            && (plan.value.SizeChanged() <==> op.size != auth.size)
            && (op.size == auth.size ==> plan.value.Target().epoch == auth.layoutEpoch)
            && (op.size != auth.size && auth.layoutEpoch < U64_MAX ==> plan.value.Target().epoch == auth.layoutEpoch + 1))
      && (plan.Err? ==> plan.error.Denied? || plan.error.ClaimLost? || plan.error.Ignored?)
      && match op
         case Claim(v, cl, _) => if Writer(auth, v, cl) then plan.Ok? else plan == Err(Denied)
         case ClaimChecked(v, cl, e, _, expected) =>
           var live := Writer(auth, v, cl) && auth.Current(v, e);
           && (plan == Err(Denied) <==> !live)
           && (plan == Err(ClaimLost) <==> live && expected.Some? && expected.value != auth.controlRevision)
           && plan != Err(Ignored)
         case Resize(v, cl, ctl, n, _) =>
           && (plan == Err(Denied) <==> !InControl(auth, v, cl, ctl))
           && (plan == Err(Ignored) <==> InControl(auth, v, cl, ctl) && n <= auth.views[v].lastResize)
           && plan != Err(ClaimLost)
         case ResizeChecked(v, cl, e, ctl, n, _) =>
           var mine := auth.controller == Some(Controller(v, cl, ctl, e));
           && (plan == Err(Denied) <==> !mine)
           && (plan == Err(Ignored) <==> mine && n <= auth.views[v].lastResize)
           && plan != Err(ClaimLost)
  {
    hide ViewAuthority.ClaimControl, ViewAuthority.ClaimControlChecked;
    match op
    case Claim(v, cl, size) => WhoMayClaim(auth, v, cl, size);
    case ClaimChecked(v, cl, e, size, expected) => WhoMayClaimChecked(auth, v, cl, e, size, expected);
    case Resize(v, cl, ctl, n, size) => WhoMayResize(auth, v, cl, ctl, n, size);
    case ResizeChecked(v, cl, e, ctl, n, size) =>
      WhoMayResize(auth, v, cl, ctl, n, size);
      WhoMayResizeChecked(auth, v, cl, e, ctl, n, size);
  }
}
