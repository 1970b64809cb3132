/** Who may see, steer and type into a session: attached views, their controller,
    attach watermarks and sequence numbers, as one value whose operations are
    functions (crates/ghosttea-core/src/authority.rs), and what they keep. */
module Authority {
  import opened Common

  /** Identifiers are carried as their bytes, one `char` a byte. */
  type ViewId = string
  type ClientId = string

  const MAX_VIEW_ID_BYTES := 128
  const MAX_ATTACH_WATERMARKS_PER_CLIENT := 256

  datatype Access = ReadOnly | ReadWrite

  datatype Size = Size(cols: u16, rows: u16)

  datatype View = View(client: ClientId, access: Access, epoch: u64, lastInput: u64, lastResize: u64)

  datatype Controller = Controller(view: ViewId, client: ClientId, controlEpoch: u64, attachmentEpoch: u64)

  /** The controller at a known revision: what a viewer reconciles against. */
  datatype ControlState = ControlState(controller: Option<Controller>, revision: u64)

  datatype Watermark = Watermark(generation: u64, fence: u64)

  datatype PreparedResize = PreparedResize(sequence: u64, size: Size, layoutEpoch: u64, sizeChanged: bool)

  datatype Refusal =
    | InvalidViewId | ForeignView | NotAttached | ReadOnlyView
    | StaleAttachment | StaleController

  datatype Rejection = StaleResume | ViewInvalid | ViewLimit | SessionEpochMismatch

  datatype TakeOverRequest = TakeOverRequest(
    view: ViewId, client: ClientId, access: Access, generation: u64, fence: u64,
    sessionEpoch: u64, resumeEpoch: Option<u64>)

  datatype Taken = Taken(epoch: u64, resumed: bool, controllerCleared: bool, control: ControlState)

  datatype Claim = Granted(controller: Controller, sizeChanged: bool) | Rejected(control: ControlState)

  datatype ViewAuthority = ViewAuthority(
    views: map<ViewId, View>,
    controller: Option<Controller>,
    nextControlEpoch: u64,
    nextAttachmentEpoch: u64,
    controlRevision: u64,
    watermarks: map<ClientId, map<ViewId, Watermark>>,
    size: Size,
    layoutEpoch: u64)
  {
    function Control(): ControlState {
      ControlState(controller, controlRevision)
    }

    /** The view, if it is attached by this client. */
    function RequireView(view: ViewId, client: ClientId): Result<View, Refusal> {
      if view !in views then Err(NotAttached)
      else if views[view].client != client then Err(ForeignView)
      else Ok(views[view])
    }

    function Install(view: ViewId, client: ClientId, access: Access): ViewAuthority {
      var epoch := Bump(nextAttachmentEpoch);
      this.(nextAttachmentEpoch := epoch, views := views[view := View(client, access, epoch, 0, 0)])
    }

    /** A re-attach by the same client keeps the incarnation it finds. */
    function Attach(view: ViewId, client: ClientId, access: Access): (ViewAuthority, Result<u64, Refusal>) {
      if |view| == 0 || |view| > MAX_VIEW_ID_BYTES then (this, Err(InvalidViewId))
      else if view in views then
        if views[view].client == client then (this, Ok(views[view].epoch)) else (this, Err(ForeignView))
      else
        var next := Install(view, client, access);
        (next, Ok(next.nextAttachmentEpoch))
    }

    function ClientWatermarks(client: ClientId): map<ViewId, Watermark> {
      if client in watermarks then watermarks[client] else map[]
    }

    function WatermarkOf(client: ClientId, view: ViewId): Option<Watermark> {
      if view in ClientWatermarks(client) then Some(ClientWatermarks(client)[view]) else None
    }

    /** Every check of an attach attempt, in the order it is made. */
    function TakeOverCheck(q: TakeOverRequest): Option<Rejection> {
      var watermark := WatermarkOf(q.client, q.view);
      if |q.view| == 0 || |q.view| > MAX_VIEW_ID_BYTES then Some(ViewInvalid)
      else if q.resumeEpoch.Some? && q.resumeEpoch.value != q.sessionEpoch then Some(SessionEpochMismatch)
      else if watermark.Some? && q.generation <= watermark.value.generation then Some(StaleResume)
      else if watermark.None? && |ClientWatermarks(q.client)| >= MAX_ATTACH_WATERMARKS_PER_CLIENT then Some(ViewLimit)
      else if q.view in views && views[q.view].client != q.client then Some(ViewInvalid)
      else None
    }

    function RaiseWatermark(q: TakeOverRequest): ViewAuthority {
      var watermark := WatermarkOf(q.client, q.view);
      var fence := if watermark.Some? && watermark.value.fence > q.fence then watermark.value.fence else q.fence;
      var raised := ClientWatermarks(q.client)[q.view := Watermark(q.generation, fence)];
      this.(watermarks := watermarks[q.client := raised])
    }

    /** Attach with a fresh incarnation even for the same client and view. */
    function TakeOver(q: TakeOverRequest): (ViewAuthority, Result<Taken, Rejection>) {
      var rejection := TakeOverCheck(q);
      if rejection.Some? then (this, Err(rejection.value))
      else
        var installed := RaiseWatermark(q).Install(q.view, q.client, q.access);
        var (next, cleared) := installed.ClearControllerFor(q.view);
        (next, Ok(Taken(next.nextAttachmentEpoch, q.view in views, cleared, next.Control())))
    }

    /** Watermarks are freed only when detached and provably out of reach. */
    function GcWatermarks(client: ClientId, terminatedThrough: u64): ViewAuthority {
      if client !in watermarks then this
      else
        var kept := map v | v in watermarks[client]
          && ((v in views && views[v].client == client) || watermarks[client][v].fence > terminatedThrough)
          :: watermarks[client][v];
        if kept == map[] then this.(watermarks := watermarks - {client})
        else this.(watermarks := watermarks[client := kept])
    }

    function ClearControllerFor(view: ViewId): (ViewAuthority, bool) {
      if controller.None? || controller.value.view != view then (this, false)
      else (this.(controller := None, controlRevision := Bump(controlRevision)), true)
    }

    function Remove(view: ViewId): ViewAuthority {
      this.(views := views - {view}).ClearControllerFor(view).0
    }

    function Detach(view: ViewId, client: ClientId): (ViewAuthority, bool) {
      if view in views && views[view].client == client then (Remove(view), true) else (this, false)
    }

    /** Detach only the named incarnation. */
    function DetachIfEpoch(view: ViewId, client: ClientId, epoch: u64): (ViewAuthority, bool) {
      if view in views && views[view].client == client && views[view].epoch == epoch
      then (Remove(view), true) else (this, false)
    }

    function CommitClaim(view: ViewId, client: ClientId, epoch: u64, newSize: Size): (ViewAuthority, Claim) {
      var claimed := Controller(view, client, Bump(nextControlEpoch), epoch);
      var changed := size != newSize;
      (this.(nextControlEpoch := Bump(nextControlEpoch), controller := Some(claimed),
             controlRevision := Bump(controlRevision), size := newSize,
             layoutEpoch := if changed then Bump(layoutEpoch) else layoutEpoch),
       Granted(claimed, changed))
    }

    function ClaimControl(view: ViewId, client: ClientId, newSize: Size): (ViewAuthority, Result<Claim, Refusal>) {
      match RequireView(view, client)
      case Err(e) => (this, Err(e))
      case Ok(v) =>
        if v.access != ReadWrite then (this, Err(ReadOnlyView))
        else var (next, claim) := CommitClaim(view, client, v.epoch, newSize); (next, Ok(claim))
    }

    /** A claim fenced by the attachment epoch and, when given, by a
        compare-and-swap on the control revision. */
    function ClaimControlChecked(view: ViewId, client: ClientId, epoch: u64, newSize: Size, expected: Option<u64>)
      : (ViewAuthority, Result<Claim, Refusal>)
    {
      match RequireView(view, client)
      case Err(e) => (this, Err(e))
      case Ok(v) =>
        if v.access != ReadWrite then (this, Err(ReadOnlyView))
        else if v.epoch != epoch then (this, Err(StaleAttachment))
        else if expected.Some? && expected.value != controlRevision then (this, Ok(Rejected(Control())))
        else var (next, claim) := CommitClaim(view, client, epoch, newSize); (next, Ok(claim))
    }

    function PrepareResize(view: ViewId, client: ClientId, controlEpoch: u64, sequence: u64, newSize: Size)
      : Result<Option<PreparedResize>, Refusal>
    {
      if !(controller.Some? && controller.value.view == view && controller.value.client == client
           && controller.value.controlEpoch == controlEpoch)
      then Err(StaleController)
      else match RequireView(view, client)
        case Err(e) => Err(e)
        case Ok(v) =>
          if sequence <= v.lastResize then Ok(None)
          else
            var changed := size != newSize;
            Ok(Some(PreparedResize(sequence, newSize, if changed then Bump(layoutEpoch) else layoutEpoch, changed)))
    }

    function PrepareResizeChecked(view: ViewId, client: ClientId, epoch: u64, controlEpoch: u64, sequence: u64, newSize: Size)
      : Result<Option<PreparedResize>, Refusal>
    {
      match RequireView(view, client)
      case Err(e) => Err(e)
      case Ok(v) =>
        if v.epoch != epoch then Err(StaleAttachment)
        else PrepareResize(view, client, controlEpoch, sequence, newSize)
    }

    function CommitResize(view: ViewId, p: PreparedResize): ViewAuthority
      requires view in views
    {
      var resized := this.(views := views[view := views[view].(lastResize := p.sequence)]);
      if p.sizeChanged then resized.(size := p.size, layoutEpoch := p.layoutEpoch) else resized
    }

    /** `Ok(false)` is a duplicate: accepted before, and ignored. */
    function AuthorizeInput(view: ViewId, client: ClientId, epoch: u64, sequence: u64)
      : (ViewAuthority, Result<bool, Refusal>)
    {
      match RequireView(view, client)
      case Err(e) => (this, Err(e))
      case Ok(v) =>
        if v.access != ReadWrite then (this, Err(ReadOnlyView))
        else if v.epoch != epoch then (this, Err(StaleAttachment))
        else if sequence <= v.lastInput then (this, Ok(false))
        else (this.(views := views[view := v.(lastInput := sequence)]), Ok(true))
    }

    /** A read-only view may read; nothing is recorded. */
    function AuthorizeRead(view: ViewId, client: ClientId, epoch: u64): Result<(), Refusal> {
      match RequireView(view, client)
      case Err(e) => Err(e)
      case Ok(v) => if v.epoch != epoch then Err(StaleAttachment) else Ok(())
    }

    /** The controller is always a live, writable incarnation, and no counter
        in use has been overtaken. */
    ghost predicate Valid() {
      && (forall v | v in views :: views[v].epoch <= nextAttachmentEpoch)
      && (controller.Some? ==>
            var c := controller.value;
            && c.view in views
            && views[c.view].client == c.client
            && views[c.view].epoch == c.attachmentEpoch
            && views[c.view].access == ReadWrite
            && c.controlEpoch <= nextControlEpoch)
      && (nextControlEpoch < controlRevision || controlRevision == U64_MAX)
      && (forall c | c in watermarks :: |watermarks[c]| <= MAX_ATTACH_WATERMARKS_PER_CLIENT)
    }

    ghost predicate Current(view: ViewId, epoch: u64) {
      view in views && views[view].epoch == epoch
    }

    /** An incarnation that was superseded or detached. */
    ghost predicate Retired(view: ViewId, epoch: u64) {
      epoch <= nextAttachmentEpoch && !Current(view, epoch)
    }
  }

  function NewAuthority(size: Size): ViewAuthority {
    ViewAuthority(map[], None, 0, 0, 1, map[], size, 1)
  }

  datatype Op =
    | OpAttach(view: ViewId, client: ClientId, access: Access)
    | OpTakeOver(request: TakeOverRequest)
    | OpGc(client: ClientId, terminatedThrough: u64)
    | OpDetach(view: ViewId, client: ClientId)
    | OpDetachIfEpoch(view: ViewId, client: ClientId, epoch: u64)
    | OpClaim(view: ViewId, client: ClientId, size: Size)
    | OpClaimChecked(view: ViewId, client: ClientId, epoch: u64, size: Size, expected: Option<u64>)
    | OpResize(view: ViewId, client: ClientId, controlEpoch: u64, sequence: u64, size: Size)
    | OpResizeChecked(view: ViewId, client: ClientId, epoch: u64, controlEpoch: u64, sequence: u64, size: Size)
    | OpInput(view: ViewId, client: ClientId, epoch: u64, sequence: u64)

  /** Prepare and, when it was authorized and new, commit. */
  function CommitPrepared(a: ViewAuthority, view: ViewId, prepared: Result<Option<PreparedResize>, Refusal>): ViewAuthority
    requires prepared.Ok? && prepared.value.Some? ==> view in a.views
  {
    if prepared.Ok? && prepared.value.Some? then a.CommitResize(view, prepared.value.value) else a
  }

  function Apply(a: ViewAuthority, op: Op): ViewAuthority {
    match op
    case OpAttach(view, client, access) => a.Attach(view, client, access).0
    case OpTakeOver(request) => a.TakeOver(request).0
    case OpGc(client, through) => a.GcWatermarks(client, through)
    case OpDetach(view, client) => a.Detach(view, client).0
    case OpDetachIfEpoch(view, client, epoch) => a.DetachIfEpoch(view, client, epoch).0
    case OpClaim(view, client, size) => a.ClaimControl(view, client, size).0
    case OpClaimChecked(view, client, epoch, size, expected) =>
      a.ClaimControlChecked(view, client, epoch, size, expected).0
    case OpResize(view, client, ctl, seqno, size) =>
      CommitPrepared(a, view, a.PrepareResize(view, client, ctl, seqno, size))
    case OpResizeChecked(view, client, epoch, ctl, seqno, size) =>
      CommitPrepared(a, view, a.PrepareResizeChecked(view, client, epoch, ctl, seqno, size))
    case OpInput(view, client, epoch, seqno) => a.AuthorizeInput(view, client, epoch, seqno).0
  }

  function ApplyAll(a: ViewAuthority, ops: seq<Op>): ViewAuthority
    decreases |ops|
  {
    if ops == [] then a else ApplyAll(Apply(a, ops[0]), ops[1..])
  }

  // ---------------------------------------------------------------- invariant

  lemma GcShrinks(m: map<ViewId, Watermark>, kept: map<ViewId, Watermark>)
    requires kept.Keys <= m.Keys
    ensures |kept| <= |m|
  {
    var extra := m.Keys - kept.Keys;
    assert m.Keys == kept.Keys + extra;
    assert |m.Keys| == |kept.Keys| + |extra|;
  }

  lemma GcKeepsValid(a: ViewAuthority, client: ClientId, through: u64)
    requires a.Valid()
    ensures a.GcWatermarks(client, through).Valid()
  {
    if client in a.watermarks {
      var kept := map v | v in a.watermarks[client]
        && ((v in a.views && a.views[v].client == client) || a.watermarks[client][v].fence > through)
        :: a.watermarks[client][v];
      GcShrinks(a.watermarks[client], kept);
    }
  }

  lemma InsertGrowsByOne(m: map<ViewId, Watermark>, v: ViewId, w: Watermark)
    ensures |m[v := w]| == if v in m then |m| else |m| + 1
  {
    assert m[v := w].Keys == m.Keys + {v};
    assert |m| == |m.Keys| && |m[v := w]| == |m[v := w].Keys|;
  }

  lemma RaiseStaysCapped(a: ViewAuthority, q: TakeOverRequest)
    requires a.Valid() && a.TakeOverCheck(q).None?
    ensures q.client in a.RaiseWatermark(q).watermarks
    ensures |a.RaiseWatermark(q).watermarks[q.client]| <= MAX_ATTACH_WATERMARKS_PER_CLIENT
  {
    var before := a.ClientWatermarks(q.client);
    InsertGrowsByOne(before, q.view, a.RaiseWatermark(q).watermarks[q.client][q.view]);
  }

  lemma RaiseKeepsValid(a: ViewAuthority, q: TakeOverRequest)
    requires a.Valid() && a.TakeOverCheck(q).None?
    ensures a.RaiseWatermark(q).Valid()
  {
    RaiseStaysCapped(a, q);
    var raised := a.RaiseWatermark(q);
    assert forall c | c in raised.watermarks && c != q.client :: raised.watermarks[c] == a.watermarks[c];
  }

  lemma TakeOverKeepsValid(a: ViewAuthority, q: TakeOverRequest)
    requires a.Valid()
    ensures a.TakeOver(q).0.Valid()
  {
    if a.TakeOverCheck(q).None? {
      RaiseKeepsValid(a, q);
      InstallAndClearKeepValid(a.RaiseWatermark(q), q.view, q.client, q.access);
    }
  }

  lemma InstallAndClearKeepValid(a: ViewAuthority, view: ViewId, client: ClientId, access: Access)
    requires a.Valid()
    ensures a.Install(view, client, access).ClearControllerFor(view).0.Valid()
  {
  }

  lemma ClaimKeepsValid(a: ViewAuthority, view: ViewId, client: ClientId, epoch: u64, size: Size)
    requires a.Valid()
    requires view in a.views && a.views[view] == a.views[view].(client := client, access := ReadWrite, epoch := epoch)
    ensures a.CommitClaim(view, client, epoch, size).0.Valid()
  {
  }

  lemma DetachKeepsValid(a: ViewAuthority, view: ViewId)
    requires a.Valid() && view in a.views
    ensures a.Remove(view).Valid()
  {
  }

  lemma ClaimsKeepValid(a: ViewAuthority, op: Op)
    requires a.Valid() && (op.OpClaim? || op.OpClaimChecked?)
    ensures Apply(a, op).Valid()
  {
    hide ViewAuthority.Valid, ViewAuthority.CommitClaim;
    match op
    case OpClaim(view, client, size) =>
      if a.ClaimControl(view, client, size).1.Ok? {
        ClaimKeepsValid(a, view, client, a.views[view].epoch, size);
      }
    case OpClaimChecked(view, client, epoch, size, expected) =>
      if a.ClaimControlChecked(view, client, epoch, size, expected).1.Ok? {
        ClaimKeepsValid(a, view, client, epoch, size);
      }
    case _ =>
  }

  lemma ApplyKeepsValid(a: ViewAuthority, op: Op)
    requires a.Valid()
    ensures Apply(a, op).Valid()
  {
    hide ViewAuthority.TakeOver, ViewAuthority.GcWatermarks, ViewAuthority.Remove;
    hide ViewAuthority.ClaimControl, ViewAuthority.ClaimControlChecked;
    match op
    case OpTakeOver(q) => TakeOverKeepsValid(a, q);
    case OpGc(client, through) => GcKeepsValid(a, client, through);
    case OpClaim(_, _, _) => ClaimsKeepValid(a, op);
    case OpClaimChecked(_, _, _, _, _) => ClaimsKeepValid(a, op);
    case OpDetach(view, _) => if view in a.views { DetachKeepsValid(a, view); }
    case OpDetachIfEpoch(view, _, _) => if view in a.views { DetachKeepsValid(a, view); }
    case _ =>
  }

  /** Whatever clients do, the controller stays a live writable incarnation and
      no client exceeds its watermark allowance. */
  lemma {:induction false} RunsKeepValid(size: Size, ops: seq<Op>)
    ensures ApplyAll(NewAuthority(size), ops).Valid()
  {
    RunKeepsValid(NewAuthority(size), ops);
  }

  lemma {:induction false} RunKeepsValid(a: ViewAuthority, ops: seq<Op>)
    requires a.Valid()
    ensures ApplyAll(a, ops).Valid()
    decreases |ops|
  {
    if ops != [] {
      ApplyKeepsValid(a, ops[0]);
      RunKeepsValid(Apply(a, ops[0]), ops[1..]);
    }
  }

  // ------------------------------------------------------- incarnation fence

  /** A retired incarnation is refused on every epoch-checked path. */
  lemma RetiredIsRefused(a: ViewAuthority, view: ViewId, epoch: u64, client: ClientId, n: u64, ctl: u64, size: Size, expected: Option<u64>)
    requires a.Retired(view, epoch)
    ensures a.AuthorizeInput(view, client, epoch, n).1.Err?
    ensures a.AuthorizeRead(view, client, epoch).Err?
    ensures a.ClaimControlChecked(view, client, epoch, size, expected).1.Err?
    ensures a.PrepareResizeChecked(view, client, epoch, ctl, n, size).Err?
    ensures !a.DetachIfEpoch(view, client, epoch).1
  {
  }

  /** Once retired, an incarnation never comes back, whatever runs after it. */
  lemma {:induction false} RetiredForever(a: ViewAuthority, ops: seq<Op>, view: ViewId, epoch: u64)
    requires a.Retired(view, epoch) && epoch < U64_MAX
    ensures ApplyAll(a, ops).Retired(view, epoch)
    decreases |ops|
  {
    if ops != [] {
      RetiredForever(Apply(a, ops[0]), ops[1..], view, epoch);
    }
  }

  /** The one epoch the fence cannot retire: once the counter has saturated,
      every attach hands out the maximum again. */
  lemma SaturatedEpochReturns(a: ViewAuthority, view: ViewId, client: ClientId, access: Access)
    requires a.nextAttachmentEpoch == U64_MAX
    requires view !in a.views && 0 < |view| <= MAX_VIEW_ID_BYTES
    ensures a.Retired(view, U64_MAX)
    ensures !Apply(a, OpAttach(view, client, access)).Retired(view, U64_MAX)
    ensures Apply(a, OpAttach(view, client, access)).AuthorizeRead(view, client, U64_MAX).Ok?
  {
  }

  /** A takeover supersedes: the incarnation it found is retired, and so is
      every other epoch of that view except the one it answered with. */
  lemma TakeOverSupersedes(a: ViewAuthority, q: TakeOverRequest)
    requires a.Valid()
    ensures var (next, r) := a.TakeOver(q);
      r.Ok? ==>
        && next.Current(q.view, r.value.epoch)
        && (forall e: u64 | e <= a.nextAttachmentEpoch && e < U64_MAX :: next.Retired(q.view, e))
        && (next.controller.Some? ==> next.controller.value.view != q.view)
        && (r.value.resumed <==> q.view in a.views)
        && (r.value.controllerCleared <==> a.controller.Some? && a.controller.value.view == q.view)
        && (forall v | v != q.view :: (v in next.views <==> v in a.views) && (v in a.views ==> next.views[v] == a.views[v]))
  {
  }

  // ------------------------------------------------------ attempt generations

  /** Only collection removes a watermark, and only a detached, retired one;
      nothing else lowers its generation or its fence. */
  lemma WatermarkStep(a: ViewAuthority, op: Op, client: ClientId, view: ViewId)
    requires a.WatermarkOf(client, view).Some?
    ensures var before := a.WatermarkOf(client, view).value;
      var now := Apply(a, op).WatermarkOf(client, view);
      if now.Some? then now.value.generation >= before.generation && now.value.fence >= before.fence
      else op.OpGc? && op.client == client && before.fence <= op.terminatedThrough
           && !(view in a.views && a.views[view].client == client)
  {
  }

  ghost predicate CollectsBelow(ops: seq<Op>, client: ClientId, fence: u64) {
    forall op | op in ops && op.OpGc? && op.client == client :: op.terminatedThrough < fence
  }

  /** A delayed attempt is refused for as long as a connection that could still
      deliver it is not known to have terminated. */
  lemma {:induction false} DelayedAttemptStaysRefused(a: ViewAuthority, ops: seq<Op>, q: TakeOverRequest)
    requires a.WatermarkOf(q.client, q.view).Some?
    requires q.generation <= a.WatermarkOf(q.client, q.view).value.generation
    requires CollectsBelow(ops, q.client, a.WatermarkOf(q.client, q.view).value.fence)
    ensures ApplyAll(a, ops).TakeOver(q).1.Err?
    ensures ApplyAll(a, ops).TakeOver(q).0 == ApplyAll(a, ops)
    decreases |ops|
  {
    if ops != [] {
      WatermarkStep(a, ops[0], q.client, q.view);
      assert ops[0] in ops;
      DelayedAttemptStaysRefused(Apply(a, ops[0]), ops[1..], q);
    }
  }

  /** An accepted attempt leaves the watermark its successors must beat. */
  lemma AcceptedAttemptFences(a: ViewAuthority, q: TakeOverRequest)
    ensures var (next, r) := a.TakeOver(q);
      if r.Ok? then
        && next.WatermarkOf(q.client, q.view).Some?
        && next.WatermarkOf(q.client, q.view).value.generation == q.generation
        && next.WatermarkOf(q.client, q.view).value.fence >= q.fence
        && next.TakeOver(q).1.Err?
      else next == a
  {
  }

  // --------------------------------------------------------- control revision

  /** Below saturation, the revision moves exactly when the controller does. */
  lemma RevisionTracksController(a: ViewAuthority, op: Op)
    requires a.Valid() && a.controlRevision < U64_MAX
    ensures Apply(a, op).controlRevision == a.controlRevision <==> Apply(a, op).controller == a.controller
    ensures Apply(a, op).controlRevision in {a.controlRevision, a.controlRevision + 1}
  {
  }
}
