/** The lock and attachment protocol of one session (session.rs) as a transition
    system. Any number of threads run the session's operations; a thread is a
    program counter, taking a lock is a step of its own, and a guard lives
    exactly as long as the counter stays where the guard is in scope, so the
    set of locks a thread holds is a function of its counter. Statements between
    two lock operations run as one step: what they touch is protected by a lock
    the thread holds, or is a single atomic. */
module SessionModel {
  import opened Common
  import opened Authority

  // ------------------------------------------------------------ shared state

  /** Ordering shared by human, automation and host input (input_order.rs). */
  datatype InputOrder = InputOrder(humanEpoch: u64, sequence: u64)
  {
    predicate Accepts(expected: u64) { humanEpoch == expected }

    function Record(human: bool): InputOrder {
      InputOrder(if human then Bump(humanEpoch) else humanEpoch, Bump(sequence))
    }
  }

  /** What a client sends from one incarnation of its view. */
  datatype Typed = Typed(view: ViewId, client: ClientId, epoch: u64, sequence: u64, human: bool, consumes: bool)

  /** One operation accepted by the input queue. */
  datatype Entry =
    | FromView(input: Typed)
    | FromAutomation(consumes: bool)
    | FromHost
  {
    predicate Human() { FromView? && input.human }

    predicate Consumes() {
      match this
      case FromView(typed) => typed.consumes
      case FromAutomation(counts) => counts
      case FromHost => false
    }
  }

  datatype ReleaseCondition = Unused | Exited

  datatype ReleaseResult = Released | StillAttached | Busy | Running | Used | NotShell

  /** A grid size at a layout epoch. */
  datatype Layout = Layout(size: Size, epoch: u64)

  /** Written under `lifecycle`. */
  datatype Life = Life(
    released: bool,
    seals: set<ReleaseCondition>,     // the conditions releases were granted under
    inputUsed: bool)

  /** Written under `input_order`. */
  datatype Input = Input(
    order: InputOrder,
    queue: seq<Entry>,                // all the input the queue ever accepted (not the reader's wake-up at the end)
    recorded: seq<Entry>)             // everything the order ever recorded
  {
    function Recorded(entry: Entry): Input {
      this.(order := order.Record(entry.Human()), recorded := recorded + [entry])
    }
  }

  /** Written under the authority and `model_operation` together. */
  datatype Terminal = Terminal(
    model: Layout,
    pty: Option<Size>,                // None once the master is released
    rollbackLost: bool)               // the last PTY resize was a rollback that failed

  /** Written under `model_operation`. */
  datatype Marks = Marks(
    selections: set<ViewId>,          // views with a selection tracked by the model
    publishers: set<ViewId>)          // views with a selection publisher

  datatype Shared = Shared(
    interactiveShell: bool,
    exited: bool,
    terminating: bool,
    life: Life,
    auth: ViewAuthority,
    input: Input,
    terminal: Terminal,
    marks: Marks,
    announced: seq<ControlState>)     // control snapshots, in sending order

  function NewSession(size: Size, interactiveShell: bool): Shared {
    Shared(interactiveShell, false, false, Life(false, {}, false), NewAuthority(size),
           Input(InputOrder(0, 0), [], []), Terminal(Layout(size, 1), Some(size), false), Marks({}, {}), [])
  }

  // ----------------------------------------------------------- program text

  datatype Lock = Lifecycle | AuthorityLock | OrderLock | Operation | ModelLock | Publishers

  /** The one order locks are taken in. */
  function Rank(l: Lock): nat {
    match l
    case Lifecycle => 0
    case AuthorityLock => 1
    case OrderLock => 2
    case Operation => 3
    case ModelLock => 4
    case Publishers => 5
  }

  /** Operations serialized with conditional release. */
  datatype Gated =
    | AttachView(view: ViewId, client: ClientId, access: Access, snapshot: bool)
    | TakeOverView(request: TakeOverRequest)
    | ViewInput(input: Typed)
    | AutomationInput(expected: u64, consumes: bool)
    | ReleaseIf(condition: ReleaseCondition)

  datatype SizeOp =
    | Claim(view: ViewId, client: ClientId, size: Size)
    | ClaimChecked(view: ViewId, client: ClientId, epoch: u64, size: Size, expected: Option<u64>)
    | Resize(view: ViewId, client: ClientId, controlEpoch: u64, sequence: u64, size: Size)
    | ResizeChecked(view: ViewId, client: ClientId, epoch: u64, controlEpoch: u64, sequence: u64, size: Size)

  /** What a size operation commits once the terminal has followed. */
  datatype Plan =
    | ClaimPlan(next: ViewAuthority, resized: bool)
    | ResizePlan(view: ViewId, prepared: PreparedResize)
  {
    function Target(): Layout {
      match this
      case ClaimPlan(next, _) => Layout(next.size, next.layoutEpoch)
      case ResizePlan(_, p) => Layout(p.size, p.layoutEpoch)
    }

    predicate SizeChanged() {
      match this
      case ClaimPlan(_, resized) => resized
      case ResizePlan(_, p) => p.sizeChanged
    }
  }

  /** Where `execute_update` returns to. */
  datatype After = AfterAttach(epoch: u64) | AfterRender | AfterResize(plan: Plan)

  /** Where `terminate` returns to. */
  datatype Ending = Stop | Seal(condition: ReleaseCondition)

  /** An operation on its way into the input queue. */
  datatype Item = Item(entry: Entry, expected: Option<u64>)

  datatype Outcome =
    | Refused                          // "session is closing"
    | Denied | Failed | Ignored | QueueFull | Fenced(humanEpoch: u64)
    | Attached(epoch: u64) | TookOver | Accepted | Automated(humanEpoch: u64, sequence: u64) | ReadDone | DetachDone | Rendered
    | Resized | ClaimLost | Announced | EpochIs(humanEpoch: u64) | Terminated
    | Collected
    | ReleaseSays(condition: ReleaseCondition, result: ReleaseResult)
    | Panicked

  /** Attach, takeover, input, automation and release start at the lifecycle
      gate; `terminate` is also an operation of its own. */
  datatype GatePc =
    | Enter(op: Gated)
    | Check(op: Gated)
    | AttachWait(view: ViewId, client: ClientId, access: Access, snapshot: bool)
    | AttachLocked(view: ViewId, client: ClientId, access: Access, snapshot: bool)
    | EpochWait(request: TakeOverRequest)
    | EpochLocked(request: TakeOverRequest)
    | TakeOverWait(request: TakeOverRequest)
    | TakeOverLocked(request: TakeOverRequest)
    | TakeOverAnnounce(state: ControlState)
    | AuthorizeWait(input: Typed)
    | AuthorizeLocked(input: Typed)
    | QueueWait(item: Item)
    | QueueLocked(item: Item)
    | MarkUsed(entry: Entry)
    | Record(entry: Entry)
    | ViewsWait(condition: ReleaseCondition)
    | ViewsLocked(condition: ReleaseCondition)
    | Activity(condition: ReleaseCondition)
    | Terminate(ending: Ending)
    | InterruptWait(ending: Ending)
    | InterruptLocked(ending: Ending)
    | InterruptRecord(ending: Ending)
    | SpawnLadder(ending: Ending)
    | SealRelease(condition: ReleaseCondition)

  /** Detaches, with the removal they owe, selection reads, and the collection of
      attach watermarks. */
  datatype ViewPc =
    | DetachWait(view: ViewId, client: ClientId, onlyEpoch: Option<u64>)
    | DetachLocked(view: ViewId, client: ClientId, onlyEpoch: Option<u64>)
    | DetachAnnounce(view: ViewId, state: ControlState)
    | RemovalWait(view: ViewId)
    | RemovalModelWait(view: ViewId)
    | RemovalModel(view: ViewId)
    | RemovalTxWait(view: ViewId)
    | RemovalTx(view: ViewId)
    | ReadWait(view: ViewId, client: ClientId, epoch: u64)
    | ReadLocked(view: ViewId, client: ClientId, epoch: u64)
    | ReadOpWait(view: ViewId)
    | HandOver(view: ViewId)
    | UnfencedWait(view: ViewId)
    | TrackWait(view: ViewId)
    | Track(view: ViewId)
    | TrackTxWait(view: ViewId)
    | TrackTx(view: ViewId)
    | CollectWait(client: ClientId, terminatedThrough: u64)
    | CollectLocked(client: ClientId, terminatedThrough: u64)

  /** Claims, resizes, and control announcements. */
  datatype SizePc =
    | SizeWait(op: SizeOp)
    | SizeLocked(op: SizeOp)
    | ResizeWait(plan: Plan, previous: Size)
    | ResizePty(plan: Plan, previous: Size)
    | ResizeModelWait(plan: Plan, previous: Size)
    | ResizeModel(plan: Plan, previous: Size)
    | Commit(plan: Plan)
    | ControlWait
    | ControlLocked
    | Announce(state: ControlState)

  /** Output batches, refreshes and `execute_update`; plain reads. */
  datatype OutputPc =
    | BatchWait
    | BatchLocked
    | RenderWait(after: After)
    | RenderModelWait(after: After)
    | RenderModel(after: After)
    | PublishWait(after: After)
    | Publish(after: After, todo: set<ViewId>)
    | PublishTx(after: After, todo: set<ViewId>, view: ViewId)
    | Effects(after: After)
    | ReplySend(after: After)
    | OrderReadWait
    | OrderReadLocked
    | ModelReadWait
    | ModelReadLocked

  datatype Pc =
    | Done(outcome: Outcome)
    | Gate(gate: GatePc)
    | Viewing(viewing: ViewPc)
    | Sizing(sizing: SizePc)
    | Output(output: OutputPc)

  /** Where an operation may begin. */
  predicate IsEntry(pc: Pc) {
    match pc
    case Done(_) => false
    case Gate(g) => g.Enter? || g == Terminate(Stop)
    case Viewing(v) => v.DetachWait? || v.ReadWait? || v.UnfencedWait? || v.CollectWait?
    case Sizing(z) => z.SizeWait? || z.ControlWait?
    case Output(o) => o.BatchWait? || o == RenderWait(AfterRender) || o.OrderReadWait? || o.ModelReadWait?
  }

  // ------------------------------------------------------- guards in scope

  predicate AfterHolds(after: After, l: Lock) {
    match after
    case AfterAttach(_) => l == Lifecycle
    case AfterRender => false
    case AfterResize(_) => l == AuthorityLock
  }

  predicate EndingHolds(ending: Ending, l: Lock) {
    ending.Seal? && l == Lifecycle
  }

  predicate GateHolds(g: GatePc, l: Lock) {
    match g
    case Enter(_) => false
    case Check(_) => l == Lifecycle
    case AttachWait(_, _, _, _) => l == Lifecycle
    case AttachLocked(_, _, _, _) => l == Lifecycle || l == AuthorityLock
    case EpochWait(_) => l == Lifecycle
    case EpochLocked(_) => l == Lifecycle || l == ModelLock
    case TakeOverWait(_) => l == Lifecycle
    case TakeOverLocked(_) => l == Lifecycle || l == AuthorityLock
    case TakeOverAnnounce(_) => l == Lifecycle
    case AuthorizeWait(_) => l == Lifecycle
    case AuthorizeLocked(_) => l == Lifecycle || l == AuthorityLock
    case QueueWait(_) => l == Lifecycle
    case QueueLocked(_) => l == Lifecycle || l == OrderLock
    case MarkUsed(_) => l == Lifecycle || l == OrderLock
    case Record(_) => l == Lifecycle || l == OrderLock
    case ViewsWait(_) => l == Lifecycle
    case ViewsLocked(_) => l == Lifecycle || l == AuthorityLock
    case Activity(_) => l == Lifecycle
    case Terminate(ending) => EndingHolds(ending, l)
    case InterruptWait(ending) => EndingHolds(ending, l)
    case InterruptLocked(ending) => EndingHolds(ending, l) || l == OrderLock
    case InterruptRecord(ending) => EndingHolds(ending, l) || l == OrderLock
    case SpawnLadder(ending) => EndingHolds(ending, l)
    case SealRelease(_) => l == Lifecycle
  }

  predicate ViewHolds(v: ViewPc, l: Lock) {
    match v
    case DetachLocked(_, _, _) => l == AuthorityLock
    case RemovalModelWait(_) => l == Operation
    case RemovalModel(_) => l == Operation || l == ModelLock
    case RemovalTxWait(_) => l == Operation
    case RemovalTx(_) => l == Operation || l == Publishers
    case ReadLocked(_, _, _) => l == AuthorityLock
    case ReadOpWait(_) => l == AuthorityLock
    case HandOver(_) => l == AuthorityLock || l == Operation
    case TrackWait(_) => l == Operation
    case Track(_) => l == Operation || l == ModelLock
    case TrackTxWait(_) => l == Operation
    case TrackTx(_) => l == Operation || l == Publishers
    case CollectLocked(_, _) => l == AuthorityLock
    case _ => false
  }

  predicate SizeHolds(z: SizePc, l: Lock) {
    match z
    case SizeLocked(_) => l == AuthorityLock
    case ResizeWait(_, _) => l == AuthorityLock
    case ResizePty(_, _) => l == AuthorityLock || l == Operation
    case ResizeModelWait(_, _) => l == AuthorityLock || l == Operation
    case ResizeModel(_, _) => l == AuthorityLock || l == Operation || l == ModelLock
    case Commit(_) => l == AuthorityLock
    case ControlLocked => l == AuthorityLock
    case _ => false
  }

  predicate OutputHolds(o: OutputPc, l: Lock) {
    match o
    case BatchLocked => l == AuthorityLock
    case RenderWait(after) => AfterHolds(after, l)
    case RenderModelWait(after) => AfterHolds(after, l) || l == Operation
    case RenderModel(after) => AfterHolds(after, l) || l == Operation || l == ModelLock
    case PublishWait(after) => AfterHolds(after, l) || l == Operation
    case Publish(after, _) => AfterHolds(after, l) || l == Operation || l == ModelLock
    case PublishTx(after, _, _) => AfterHolds(after, l) || l == Operation || l == ModelLock || l == Publishers
    case Effects(after) => AfterHolds(after, l) || l == Operation
    case ReplySend(after) => AfterHolds(after, l)
    case OrderReadLocked => l == OrderLock
    case ModelReadLocked => l == ModelLock
    case _ => false
  }

  /** Whether the guard of this lock is in scope at this program counter. */
  predicate Holds(pc: Pc, l: Lock) {
    match pc
    case Done(_) => false
    case Gate(g) => GateHolds(g, l)
    case Viewing(v) => ViewHolds(v, l)
    case Sizing(z) => SizeHolds(z, l)
    case Output(o) => OutputHolds(o, l)
  }

  // ------------------------------------------------------------ acquisitions

  function GateWants(g: GatePc): Option<Lock> {
    match g
    case Enter(_) => Some(Lifecycle)
    case AttachWait(_, _, _, _) => Some(AuthorityLock)
    case EpochWait(_) => Some(ModelLock)
    case TakeOverWait(_) => Some(AuthorityLock)
    case AuthorizeWait(_) => Some(AuthorityLock)
    case QueueWait(_) => Some(OrderLock)
    case ViewsWait(_) => Some(AuthorityLock)
    case InterruptWait(_) => Some(OrderLock)
    case _ => None
  }

  function ViewWants(v: ViewPc): Option<Lock> {
    match v
    case DetachWait(_, _, _) => Some(AuthorityLock)
    case RemovalWait(_) => Some(Operation)
    case RemovalModelWait(_) => Some(ModelLock)
    case RemovalTxWait(_) => Some(Publishers)
    case ReadWait(_, _, _) => Some(AuthorityLock)
    case ReadOpWait(_) => Some(Operation)
    case UnfencedWait(_) => Some(Operation)
    case TrackWait(_) => Some(ModelLock)
    case TrackTxWait(_) => Some(Publishers)
    case CollectWait(_, _) => Some(AuthorityLock)
    case _ => None
  }

  function SizeWants(z: SizePc): Option<Lock> {
    match z
    case SizeWait(_) => Some(AuthorityLock)
    case ResizeWait(_, _) => Some(Operation)
    case ResizeModelWait(_, _) => Some(ModelLock)
    case ControlWait => Some(AuthorityLock)
    case _ => None
  }

  function OutputWants(o: OutputPc): Option<Lock> {
    match o
    case BatchWait => Some(AuthorityLock)
    case RenderWait(_) => Some(Operation)
    case RenderModelWait(_) => Some(ModelLock)
    case PublishWait(_) => Some(ModelLock)
    case Publish(_, todo) => if todo != {} then Some(Publishers) else None
    case OrderReadWait => Some(OrderLock)
    case ModelReadWait => Some(ModelLock)
    case _ => None
  }

  /** The lock a thread is waiting for, if it is at an acquisition. */
  function Wants(pc: Pc): Option<Lock> {
    match pc
    case Done(_) => None
    case Gate(g) => GateWants(g)
    case Viewing(v) => ViewWants(v)
    case Sizing(z) => SizeWants(z)
    case Output(o) => OutputWants(o)
  }

  /** How an environment resolves what a step leaves open: whether a call
      succeeds, whether a rollback does, and which view is announced next. */
  datatype Choice = Choice(ok: bool, rollback: bool, pick: ViewId)

  function AcquireGate(g: GatePc): GatePc {
    match g
    case Enter(op) => Check(op)
    case AttachWait(v, cl, a, snap) => AttachLocked(v, cl, a, snap)
    case EpochWait(q) => EpochLocked(q)
    case TakeOverWait(q) => TakeOverLocked(q)
    case AuthorizeWait(typed) => AuthorizeLocked(typed)
    case QueueWait(item) => QueueLocked(item)
    case ViewsWait(cond) => ViewsLocked(cond)
    case InterruptWait(ending) => InterruptLocked(ending)
    case _ => g
  }

  function AcquireView(v: ViewPc): ViewPc {
    match v
    case DetachWait(view, cl, e) => DetachLocked(view, cl, e)
    case RemovalWait(view) => RemovalModelWait(view)
    case RemovalModelWait(view) => RemovalModel(view)
    case RemovalTxWait(view) => RemovalTx(view)
    case ReadWait(view, cl, e) => ReadLocked(view, cl, e)
    case ReadOpWait(view) => HandOver(view)
    case UnfencedWait(view) => TrackWait(view)
    case TrackWait(view) => Track(view)
    case TrackTxWait(view) => TrackTx(view)
    case CollectWait(cl, through) => CollectLocked(cl, through)
    case _ => v
  }

  function AcquireSize(z: SizePc): SizePc {
    match z
    case SizeWait(op) => SizeLocked(op)
    case ResizeWait(plan, prev) => ResizePty(plan, prev)
    case ResizeModelWait(plan, prev) => ResizeModel(plan, prev)
    case ControlWait => ControlLocked
    case _ => z
  }

  /** `execute_update` reads the tracked views in the statement that takes the
      model, and keeps the model until they are announced. */
  function AcquireOutput(sh: Shared, o: OutputPc, c: Choice): OutputPc {
    match o
    case BatchWait => BatchLocked
    case RenderWait(after) => RenderModelWait(after)
    case RenderModelWait(after) => RenderModel(after)
    case PublishWait(after) => Publish(after, sh.marks.selections)
    case Publish(after, todo) => PublishTx(after, todo, c.pick)
    case OrderReadWait => OrderReadLocked
    case ModelReadWait => ModelReadLocked
    case _ => o
  }

  /** Taking the lock a thread waits for. */
  function Acquire(sh: Shared, pc: Pc, c: Choice): Pc {
    match pc
    case Done(_) => pc
    case Gate(g) => Gate(AcquireGate(g))
    case Viewing(v) => Viewing(AcquireView(v))
    case Sizing(z) => Sizing(AcquireSize(z))
    case Output(o) => Output(AcquireOutput(sh, o, c))
  }

  // ------------------------------------------------ everything but acquiring

  function AfterTerminate(ending: Ending): Pc {
    if ending.Seal? then Gate(SealRelease(ending.condition)) else Done(Terminated)
  }

  function AfterUpdate(after: After): Pc {
    match after
    case AfterAttach(epoch) => Done(Attached(epoch))
    case AfterRender => Done(Rendered)
    case AfterResize(plan) => Sizing(Commit(plan))
  }

  /** The release seal, and what each gated operation does past it. */
  function PassGate(sh: Shared, op: Gated): Pc {
    match op
    case ReleaseIf(cond) =>
      if cond.Unused? && sh.life.inputUsed then Done(ReleaseSays(cond, Used))
      else if cond.Unused? && !sh.interactiveShell then Done(ReleaseSays(cond, NotShell))
      else Gate(ViewsWait(cond))
    case AttachView(v, cl, a, snap) => if sh.life.released then Done(Refused) else Gate(AttachWait(v, cl, a, snap))
    case TakeOverView(q) => if sh.life.released then Done(Refused) else Gate(EpochWait(q))
    case ViewInput(typed) => if sh.life.released then Done(Refused) else Gate(AuthorizeWait(typed))
    case AutomationInput(expected, consumes) =>
      if sh.life.released then Done(Refused) else Gate(QueueWait(Item(FromAutomation(consumes), Some(expected))))
  }

  function WorkGate(sh: Shared, g: GatePc, c: Choice): (Shared, Pc) {
    match g
    case Check(op) => (sh, PassGate(sh, op))
    case AttachLocked(v, cl, a, snap) =>
      var (auth, r) := sh.auth.Attach(v, cl, a);
      (sh.(auth := auth),
       if r.Err? then Done(Denied)
       else if snap then Output(RenderWait(AfterAttach(r.value))) else Done(Attached(r.value)))
    case EpochLocked(q) => (sh, Gate(TakeOverWait(q)))
    case TakeOverLocked(q) =>
      var (auth, r) := sh.auth.TakeOver(q);
      (sh.(auth := auth),
       if r.Err? then Done(Denied)
       else if r.value.controllerCleared then Gate(TakeOverAnnounce(auth.Control())) else Done(TookOver))
    case TakeOverAnnounce(state) => (sh.(announced := sh.announced + [state]), Done(TookOver))
    case AuthorizeLocked(typed) =>
      var (auth, r) := sh.auth.AuthorizeInput(typed.view, typed.client, typed.epoch, typed.sequence);
      (sh.(auth := auth),
       if r.Err? then Done(Denied) else if !r.value then Done(Ignored) else Gate(QueueWait(Item(FromView(typed), None))))
    case QueueLocked(item) =>
      if item.expected.Some? && !sh.input.order.Accepts(item.expected.value) then (sh, Done(Fenced(sh.input.order.humanEpoch)))
      else if !c.ok then (sh, Done(QueueFull))
      else (sh.(input := sh.input.(queue := sh.input.queue + [item.entry])), Gate(MarkUsed(item.entry)))
    case MarkUsed(entry) => (sh.(life := sh.life.(inputUsed := sh.life.inputUsed || entry.Consumes())), Gate(Record(entry)))
    case Record(entry) =>
      var input := sh.input.Recorded(entry);
      (sh.(input := input), Done(if entry.FromAutomation? then Automated(input.order.humanEpoch, input.order.sequence) else Accepted))
    case ViewsLocked(cond) =>
      (sh, if sh.auth.views != map[] then Done(ReleaseSays(cond, StillAttached)) else Gate(Activity(cond)))
    case Activity(cond) =>
      (sh, if sh.exited then Gate(Terminate(Seal(cond)))
           else if cond.Exited? then Done(ReleaseSays(cond, Running))
           else if !c.ok then Done(ReleaseSays(cond, Busy)) else Gate(Terminate(Seal(cond))))
    case Terminate(ending) =>
      if sh.exited || sh.terminating then (sh, AfterTerminate(ending))
      else (sh.(terminating := true), Gate(InterruptWait(ending)))
    case InterruptLocked(ending) =>
      if c.ok then (sh.(input := sh.input.(queue := sh.input.queue + [FromHost])), Gate(InterruptRecord(ending)))
      else (sh, Gate(SpawnLadder(ending)))
    case InterruptRecord(ending) =>
      (sh.(input := sh.input.Recorded(FromHost)), Gate(SpawnLadder(ending)))
    case SpawnLadder(ending) =>
      if c.ok then (sh, AfterTerminate(ending)) else (sh.(terminating := false), Done(Failed))
    case SealRelease(cond) =>
      (sh.(life := sh.life.(released := true, seals := sh.life.seals + {cond})), Done(ReleaseSays(cond, Released)))
    case _ => (sh, Gate(g))
  }

  function WorkView(sh: Shared, v: ViewPc, c: Choice): (Shared, Pc) {
    match v
    case DetachLocked(view, cl, only) =>
      var (auth, detached) :=
        if only.Some? then sh.auth.DetachIfEpoch(view, cl, only.value) else sh.auth.Detach(view, cl);
      (sh.(auth := auth),
       if !detached then Done(DetachDone)
       else if auth.controlRevision != sh.auth.controlRevision then Viewing(DetachAnnounce(view, auth.Control()))
       else Viewing(RemovalWait(view)))
    case DetachAnnounce(view, state) => (sh.(announced := sh.announced + [state]), Viewing(RemovalWait(view)))
    case RemovalModel(view) => (sh.(marks := sh.marks.(selections := sh.marks.selections - {view})), Viewing(RemovalTxWait(view)))
    case RemovalTx(view) => (sh.(marks := sh.marks.(publishers := sh.marks.publishers - {view})), Done(DetachDone))
    case ReadLocked(view, cl, e) =>
      (sh, if sh.auth.AuthorizeRead(view, cl, e).Err? then Done(Denied) else Viewing(ReadOpWait(view)))
    case HandOver(view) => (sh, Viewing(TrackWait(view)))
    case Track(view) =>
      if c.ok then (sh.(marks := sh.marks.(selections := sh.marks.selections + {view})), Viewing(TrackTxWait(view))) else (sh, Done(Failed))
    case TrackTx(view) => (sh.(marks := sh.marks.(publishers := sh.marks.publishers + {view})), Done(ReadDone))
    case CollectLocked(cl, through) => (sh.(auth := sh.auth.GcWatermarks(cl, through)), Done(Collected))
    case _ => (sh, Viewing(v))
  }

  function ClaimPlanOf(claimed: (ViewAuthority, Result<Authority.Claim, Refusal>)): Result<Plan, Outcome> {
    match claimed.1
    case Err(_) => Err(Denied)
    case Ok(Rejected(_)) => Err(ClaimLost)
    case Ok(Granted(_, changed)) => Ok(ClaimPlan(claimed.0, changed))
  }

  function ResizePlanOf(view: ViewId, prepared: Result<Option<PreparedResize>, Refusal>): Result<Plan, Outcome> {
    match prepared
    case Err(_) => Err(Denied)
    case Ok(None) => Err(Ignored)
    case Ok(Some(p)) => Ok(ResizePlan(view, p))
  }

  /** What a size operation will commit, decided on a copy of the authority. */
  function PlanOf(auth: ViewAuthority, op: SizeOp): Result<Plan, Outcome> {
    match op
    case Claim(v, cl, size) => ClaimPlanOf(auth.ClaimControl(v, cl, size))
    case ClaimChecked(v, cl, e, size, expected) => ClaimPlanOf(auth.ClaimControlChecked(v, cl, e, size, expected))
    case Resize(v, cl, ctl, n, size) => ResizePlanOf(v, auth.PrepareResize(v, cl, ctl, n, size))
    case ResizeChecked(v, cl, e, ctl, n, size) => ResizePlanOf(v, auth.PrepareResizeChecked(v, cl, e, ctl, n, size))
  }

  function Decide(auth: ViewAuthority, op: SizeOp): Pc {
    var plan := PlanOf(auth, op);
    if plan.Err? then Done(plan.error)
    else if plan.value.SizeChanged() then Sizing(ResizeWait(plan.value, auth.size))
    else Sizing(Commit(plan.value))
  }

  function Committed(auth: ViewAuthority, plan: Plan): ViewAuthority {
    match plan
    case ClaimPlan(next, _) => next
    case ResizePlan(v, p) => if v in auth.views then auth.CommitResize(v, p) else auth
  }

  /** Committing a resize of a view that is gone would panic. */
  function AfterCommit(auth: ViewAuthority, plan: Plan): Pc {
    match plan
    case ClaimPlan(next, _) => Sizing(Announce(next.Control()))
    case ResizePlan(v, _) => if v in auth.views then Done(Resized) else Done(Panicked)
  }

  function WorkSize(sh: Shared, z: SizePc, c: Choice): (Shared, Pc) {
    match z
    case ResizePty(plan, prev) =>
      if sh.terminal.pty.None? then (sh, Sizing(ResizeModelWait(plan, prev)))
      else if !c.ok then (sh, Done(Failed))
      else (sh.(terminal := sh.terminal.(pty := Some(plan.Target().size), rollbackLost := false)), Sizing(ResizeModelWait(plan, prev)))
    case ResizeModel(plan, prev) =>
      if c.ok then (sh.(terminal := sh.terminal.(model := plan.Target())), Output(PublishWait(AfterResize(plan))))
      else if sh.terminal.pty.None? then (sh, Done(Failed))
      else if c.rollback then (sh.(terminal := sh.terminal.(pty := Some(prev), rollbackLost := false)), Done(Failed))
      else (sh.(terminal := sh.terminal.(rollbackLost := true)), Done(Failed))
    case Commit(plan) => (sh.(auth := Committed(sh.auth, plan)), AfterCommit(sh.auth, plan))
    case ControlLocked => (sh, Sizing(Announce(sh.auth.Control())))
    case Announce(state) => (sh.(announced := sh.announced + [state]), Done(Announced))
    case _ => (sh, Sizing(z))
  }

  function WorkOutput(sh: Shared, o: OutputPc, c: Choice): (Shared, Pc) {
    match o
    case BatchLocked => (sh, Output(RenderWait(AfterRender)))
    case RenderModel(after) => (sh, if c.ok then Output(PublishWait(after)) else Done(Failed))
    case Publish(after, _) => (sh, Output(Effects(after)))
    case PublishTx(after, todo, v) => (sh.(marks := sh.marks.(publishers := sh.marks.publishers + {v})), Output(Publish(after, todo - {v})))
    case Effects(after) => (sh, Output(ReplySend(after)))
    case ReplySend(after) => (sh, AfterUpdate(after))
    case OrderReadLocked => (sh, Done(EpochIs(sh.input.order.humanEpoch)))
    case ModelReadLocked => (sh, Done(Rendered))
    case _ => (sh, Output(o))
  }

  /** Everything a thread does that is not taking a lock. */
  function Work(sh: Shared, pc: Pc, c: Choice): (Shared, Pc) {
    match pc
    case Done(_) => (sh, pc)
    case Gate(g) => WorkGate(sh, g, c)
    case Viewing(v) => WorkView(sh, v, c)
    case Sizing(SizeLocked(op)) => (sh, Decide(sh.auth, op))
    case Sizing(z) => WorkSize(sh, z, c)
    case Output(o) => WorkOutput(sh, o, c)
  }

  // ------------------------------------------------------------------- runs

  type ThreadId = nat

  datatype State = State(sh: Shared, threads: map<ThreadId, Pc>)
  {
    ghost predicate Free(l: Lock) {
      forall t | t in threads :: !Holds(threads[t], l)
    }
  }

  datatype Event =
    | Start(id: ThreadId, pc: Pc)
    | Step(id: ThreadId, choice: Choice)
    | ChildExits
    | MasterReleased

  /** Selections are announced one view at a time, in any order. */
  predicate ValidPick(pc: Pc, c: Choice) {
    pc.Output? && pc.output.Publish? && pc.output.todo != {} ==> c.pick in pc.output.todo
  }

  ghost predicate Enabled(s: State, e: Event) {
    match e
    case Start(id, pc) => id !in s.threads && IsEntry(pc)
    case Step(id, c) =>
      && id in s.threads
      && !s.threads[id].Done?
      && (Wants(s.threads[id]).Some? ==> s.Free(Wants(s.threads[id]).value))
      && ValidPick(s.threads[id], c)
    case ChildExits => true
    case MasterReleased => true
  }

  function Advance(sh: Shared, pc: Pc, c: Choice): (Shared, Pc) {
    if Wants(pc).Some? then (sh, Acquire(sh, pc, c)) else Work(sh, pc, c)
  }

  /** One event; an event that is not enabled changes nothing. */
  ghost function Next(s: State, e: Event): State {
    if !Enabled(s, e) then s
    else match e
      case Start(id, pc) => s.(threads := s.threads[id := pc])
      case Step(id, c) =>
        var (sh, pc) := Advance(s.sh, s.threads[id], c);
        State(sh, s.threads[id := pc])
      case ChildExits => s.(sh := s.sh.(exited := true))
      case MasterReleased => s.(sh := s.sh.(terminal := s.sh.terminal.(pty := None)))
  }

  /** Any interleaving is a sequence of events. */
  ghost function Execute(s: State, run: seq<Event>): State
    decreases |run|
  {
    if run == [] then s else Execute(Next(s, run[0]), run[1..])
  }

  ghost predicate Initial(s: State) {
    s.threads == map[] && s.sh == NewSession(s.sh.auth.size, s.sh.interactiveShell)
  }

  /** What some run of some session can arrive at. */
  ghost predicate Reachable(s: State) {
    exists start, run :: Initial(start) && Execute(start, run) == s
  }
}
