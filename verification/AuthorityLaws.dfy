/** Who may do what with a session, and what of it holds over every run: the
    laws of the view authority (authority.rs), stated from who is attached. */
module AuthorityLaws {
  import opened Common
  import opened Authority

  ghost predicate Attached(a: ViewAuthority, view: ViewId, client: ClientId) {
    view in a.views && a.views[view].client == client
  }

  /** This attachment of the view, and no earlier or later one. */
  ghost predicate Incarnation(a: ViewAuthority, view: ViewId, client: ClientId, epoch: u64) {
    Attached(a, view, client) && a.Current(view, epoch)
  }

  ghost predicate Writer(a: ViewAuthority, view: ViewId, client: ClientId) {
    Attached(a, view, client) && a.views[view].access.ReadWrite?
  }

  ghost predicate InControl(a: ViewAuthority, view: ViewId, client: ClientId, controlEpoch: u64) {
    a.controller.Some? && exists epoch :: a.controller.value == Controller(view, client, controlEpoch, epoch)
  }

  /** What both values say of every view but one. */
  ghost predicate OthersStay(a: ViewAuthority, b: ViewAuthority, view: ViewId) {
    forall v | v != view :: (v in b.views <==> v in a.views) && (v in a.views ==> b.views[v] == a.views[v])
  }

  // ------------------------------------------------------------- who may act

  /** Exactly the client of a live writable incarnation types into the session,
      each sequence number once and in rising order; a duplicate and a refusal
      leave no trace, and an acceptance leaves the sequence number alone. */
  lemma WhoMayType(a: ViewAuthority, view: ViewId, client: ClientId, epoch: u64, sequence: u64)
    ensures var (next, r) := a.AuthorizeInput(view, client, epoch, sequence);
      && (r.Ok? <==> Writer(a, view, client) && a.Current(view, epoch))
      && (r == Ok(true) <==> r.Ok? && a.views[view].lastInput < sequence)
      && (if r == Ok(true)
          then view in next.views && next.views[view] == a.views[view].(lastInput := sequence)
               && OthersStay(a, next, view) && next == a.(views := next.views)
          else next == a)
  {
  }

  /** Exactly the client of the live incarnation reads a selection of it,
      writable or not. */
  lemma WhoMayRead(a: ViewAuthority, view: ViewId, client: ClientId, epoch: u64)
    ensures a.AuthorizeRead(view, client, epoch).Ok? <==> Incarnation(a, view, client, epoch)
  {
  }

  /** Why an operation is refused: the refusal names what is wrong, and the
      first thing wrong. */
  lemma RefusalsSayWhy(a: ViewAuthority, view: ViewId, client: ClientId, epoch: u64, sequence: u64, size: Size, expected: Option<u64>)
    ensures var refused := a.AuthorizeInput(view, client, epoch, sequence).1;
      && (refused == Err(NotAttached) <==> view !in a.views)
      && (refused == Err(ForeignView) <==> view in a.views && !Attached(a, view, client))
      && (refused == Err(ReadOnlyView) <==> Attached(a, view, client) && !Writer(a, view, client))
      && (refused == Err(StaleAttachment) <==> Writer(a, view, client) && !a.Current(view, epoch))
      && (a.ClaimControlChecked(view, client, epoch, size, expected).1.Err? <==> refused.Err?)
      && (refused.Err? ==> a.ClaimControlChecked(view, client, epoch, size, expected) == (a, Err(refused.error)))
  {
  }

  /** What a granted claim does: the claimant controls under a control epoch
      above every one handed out before, the revision moves, and the terminal
      has the size it asked for, at a new layout epoch when that is a change. */
  ghost predicate TakesControl(a: ViewAuthority, b: ViewAuthority, view: ViewId, client: ClientId, size: Size, claim: Claim) {
    && claim.Granted?
    && claim.sizeChanged == (size != a.size)
    && b.controller == Some(claim.controller)
    && claim.controller.view == view && claim.controller.client == client
    && a.Current(view, claim.controller.attachmentEpoch)
    && b.nextControlEpoch == claim.controller.controlEpoch
    && (a.nextControlEpoch < U64_MAX ==> claim.controller.controlEpoch == a.nextControlEpoch + 1)
    && (a.controlRevision < U64_MAX ==> b.controlRevision == a.controlRevision + 1)
    && b.size == size
    && (size == a.size ==> b.layoutEpoch == a.layoutEpoch)
    && (size != a.size && a.layoutEpoch < U64_MAX ==> b.layoutEpoch == a.layoutEpoch + 1)
    && b.views == a.views && b.watermarks == a.watermarks && b.nextAttachmentEpoch == a.nextAttachmentEpoch
  }

  /** Exactly a writable view takes control. */
  lemma WhoMayClaim(a: ViewAuthority, view: ViewId, client: ClientId, size: Size)
    ensures var (next, r) := a.ClaimControl(view, client, size);
      if Writer(a, view, client) then r.Ok? && TakesControl(a, next, view, client, size, r.value)
      else r.Err? && next == a
  {
  }

  /** A checked claim is granted exactly to a live writable incarnation that
      expects the revision there is, or none; a claim that lost the race learns
      who won it. */
  lemma WhoMayClaimChecked(a: ViewAuthority, view: ViewId, client: ClientId, epoch: u64, size: Size, expected: Option<u64>)
    ensures var (next, r) := a.ClaimControlChecked(view, client, epoch, size, expected);
      var expects := expected.None? || expected.value == a.controlRevision;
      if Writer(a, view, client) && a.Current(view, epoch) then
        r.Ok? && if expects then TakesControl(a, next, view, client, size, r.value)
                 else next == a && r.value == Rejected(ControlState(a.controller, a.controlRevision))
      else r.Err? && next == a
  {
  }

  /** Exactly the controller resizes, by the control epoch it was granted; a
      sequence number it has used is ignored. */
  lemma WhoMayResize(a: ViewAuthority, view: ViewId, client: ClientId, controlEpoch: u64, sequence: u64, size: Size)
    requires a.Valid()
    ensures var r := a.PrepareResize(view, client, controlEpoch, sequence, size);
      && (r.Ok? <==> InControl(a, view, client, controlEpoch))
      && (r.Ok? ==> (r.value.Some? <==> a.views[view].lastResize < sequence))
      && (!InControl(a, view, client, controlEpoch) ==> r == Err(StaleController))
  {
    if InControl(a, view, client, controlEpoch) {
      var epoch :| a.controller.value == Controller(view, client, controlEpoch, epoch);
    } else if a.controller.Some? {
      assert a.controller.value != Controller(view, client, controlEpoch, a.controller.value.attachmentEpoch);
    }
  }

  /** And a checked resize also by the incarnation that claimed. */
  lemma WhoMayResizeChecked(a: ViewAuthority, view: ViewId, client: ClientId, epoch: u64, controlEpoch: u64, sequence: u64, size: Size)
    requires a.Valid()
    ensures var r := a.PrepareResizeChecked(view, client, epoch, controlEpoch, sequence, size);
      && (r.Ok? <==> a.controller == Some(Controller(view, client, controlEpoch, epoch)))
      && (r.Ok? ==> r == a.PrepareResize(view, client, controlEpoch, sequence, size))
      && (r == Err(StaleAttachment) <==> Attached(a, view, client) && !a.Current(view, epoch))
  {
  }

  /** What is committed: the size asked for, at a new layout epoch when that is
      a change, with control where it was. */
  lemma ResizeIsWhatWasAsked(a: ViewAuthority, view: ViewId, client: ClientId, controlEpoch: u64, sequence: u64, size: Size)
    requires a.Valid()
    ensures var r := a.PrepareResize(view, client, controlEpoch, sequence, size);
      var b := Apply(a, OpResize(view, client, controlEpoch, sequence, size));
      if r.Ok? && r.value.Some? then
        && b.size == size
        && (size == a.size ==> b.layoutEpoch == a.layoutEpoch)
        && (size != a.size && a.layoutEpoch < U64_MAX ==> b.layoutEpoch == a.layoutEpoch + 1)
        && b.views[view] == a.views[view].(lastResize := sequence) && OthersStay(a, b, view)
        && b == a.(size := b.size, layoutEpoch := b.layoutEpoch, views := b.views)
      else b == a
  {
  }

  /** An attach finds the view free, its own, or another client's: a free one
      becomes a fresh incarnation, its own is answered unchanged. */
  lemma WhoMayAttach(a: ViewAuthority, view: ViewId, client: ClientId, access: Access)
    ensures var (next, r) := a.Attach(view, client, access);
      && (r.Ok? <==> 0 < |view| <= 128 && (view in a.views ==> Attached(a, view, client)))
      && (r.Err? || view in a.views ==> next == a)
      && (r.Ok? ==> Incarnation(next, view, client, r.value))
      && (r.Ok? && view !in a.views ==>
            && next.views[view] == View(client, access, r.value, 0, 0)
            && (a.nextAttachmentEpoch < U64_MAX ==> r.value == a.nextAttachmentEpoch + 1)
            && OthersStay(a, next, view)
            && next == a.(views := next.views, nextAttachmentEpoch := r.value))
  {
  }

  /** A takeover of a view nobody else holds is a fresh incarnation with the
      access asked for and no sequence number used, and everything else of the
      authority but its own watermark and lost control is as it was. */
  lemma TakeOverInstalls(a: ViewAuthority, q: TakeOverRequest)
    ensures var (next, r) := a.TakeOver(q);
      r.Ok? ==>
        && (q.view in a.views ==> Attached(a, q.view, q.client))
        && q.view in next.views && next.views[q.view] == View(q.client, q.access, r.value.epoch, 0, 0)
        && (a.nextAttachmentEpoch < U64_MAX ==> r.value.epoch == a.nextAttachmentEpoch + 1)
        && a.nextAttachmentEpoch <= r.value.epoch == next.nextAttachmentEpoch
        && r.value.control == ControlState(next.controller, next.controlRevision)
        && (!r.value.controllerCleared ==> next.controller == a.controller && next.controlRevision == a.controlRevision)
        && next.size == a.size && next.layoutEpoch == a.layoutEpoch && next.nextControlEpoch == a.nextControlEpoch
        && (forall c, v | c != q.client || v != q.view :: next.WatermarkOf(c, v) == a.WatermarkOf(c, v))
  {
  }

  /** Why an attach attempt is refused. */
  lemma TakeOverRefusals(a: ViewAuthority, q: TakeOverRequest)
    ensures var r := a.TakeOver(q).1;
      && (r == Err(StaleResume) ==> a.WatermarkOf(q.client, q.view).Some?
                                    && q.generation <= a.WatermarkOf(q.client, q.view).value.generation)
      && (r == Err(ViewLimit) ==> a.WatermarkOf(q.client, q.view).None?
                                  && |a.ClientWatermarks(q.client)| >= 256)
      && (r == Err(SessionEpochMismatch) ==> q.resumeEpoch.Some? && q.resumeEpoch != Some(q.sessionEpoch))
      && (r == Err(ViewInvalid) ==> !(0 < |q.view| <= 128)
                                    || (q.view in a.views && !Attached(a, q.view, q.client)))
      && (r.Ok? <==>
            && 0 < |q.view| <= 128
            && (q.resumeEpoch.Some? ==> q.resumeEpoch.value == q.sessionEpoch)
            && (q.view in a.views ==> Attached(a, q.view, q.client))
            && (match a.WatermarkOf(q.client, q.view)
                case Some(w) => w.generation < q.generation
                case None => |a.ClientWatermarks(q.client)| < 256))
  {
  }

  /** Exactly its client detaches a view, and a checked detach exactly the
      incarnation it names; the control it held lapses and nothing else does. */
  lemma WhoMayDetach(a: ViewAuthority, view: ViewId, client: ClientId, epoch: u64)
    ensures a.Detach(view, client).1 <==> Attached(a, view, client)
    ensures a.DetachIfEpoch(view, client, epoch).1 <==> Incarnation(a, view, client, epoch)
    ensures a.Detach(view, client).1 ==> Departed(a, a.Detach(view, client).0, view)
    ensures a.DetachIfEpoch(view, client, epoch).1 ==> Departed(a, a.DetachIfEpoch(view, client, epoch).0, view)
    ensures !a.Detach(view, client).1 ==> a.Detach(view, client).0 == a
    ensures !a.DetachIfEpoch(view, client, epoch).1 ==> a.DetachIfEpoch(view, client, epoch).0 == a
  {
  }

  ghost predicate Departed(a: ViewAuthority, b: ViewAuthority, view: ViewId) {
    && view !in b.views && OthersStay(a, b, view)
    && (if a.controller.Some? && a.controller.value.view == view
        then b.controller.None? && (a.controlRevision < U64_MAX ==> b.controlRevision == a.controlRevision + 1)
        else b.controller == a.controller && b.controlRevision == a.controlRevision)
    && b == a.(views := b.views, controller := b.controller, controlRevision := b.controlRevision)
  }

  /** Collection frees exactly the watermarks of views its client does not have
      attached and that no live connection can reach. */
  lemma CollectsExactly(a: ViewAuthority, client: ClientId, terminatedThrough: u64, other: ClientId, view: ViewId)
    ensures var next := a.GcWatermarks(client, terminatedThrough);
      && next == a.(watermarks := next.watermarks)
      && (client in next.watermarks ==> next.watermarks[client] != map[])
      && var before := a.WatermarkOf(other, view);
         next.WatermarkOf(other, view)
         == (if before.Some? && other == client && before.value.fence <= terminatedThrough && !Attached(a, view, client)
             then None else before)
  {
  }

  // --------------------------------------------------- sequence numbers rise

  /** The two operations a view numbers. */
  datatype Numbering = Typing | Resizing

  function LastUsed(v: View, n: Numbering): u64 {
    match n
    case Typing => v.lastInput
    case Resizing => v.lastResize
  }

  function Prepared(a: ViewAuthority, op: Op): Result<Option<PreparedResize>, Refusal> {
    match op
    case OpResize(view, client, ctl, seqno, size) => a.PrepareResize(view, client, ctl, seqno, size)
    case OpResizeChecked(view, client, epoch, ctl, seqno, size) => a.PrepareResizeChecked(view, client, epoch, ctl, seqno, size)
    case _ => Err(NotAttached)
  }

  /** The sequence number this operation gets accepted from the view. */
  function Uses(a: ViewAuthority, op: Op, n: Numbering, view: ViewId): Option<u64> {
    match op
    case OpInput(v, client, epoch, sequence) =>
      if n.Typing? && v == view && a.AuthorizeInput(v, client, epoch, sequence).1 == Ok(true) then Some(sequence) else None
    case OpResize(v, _, _, sequence, _) =>
      if n.Resizing? && v == view && Prepared(a, op).Ok? && Prepared(a, op).value.Some? then Some(sequence) else None
    case OpResizeChecked(v, _, _, _, sequence, _) =>
      if n.Resizing? && v == view && Prepared(a, op).Ok? && Prepared(a, op).value.Some? then Some(sequence) else None
    case _ => None
  }

  /** Every sequence number a run accepts from one incarnation, in order. */
  ghost function Used(a: ViewAuthority, ops: seq<Op>, n: Numbering, view: ViewId, epoch: u64): seq<u64>
    decreases |ops|
  {
    if ops == [] then []
    else
      var rest := Used(Apply(a, ops[0]), ops[1..], n, view, epoch);
      if a.Current(view, epoch) && Uses(a, ops[0], n, view).Some?
      then [Uses(a, ops[0], n, view).value] + rest else rest
  }

  ghost predicate RisesFrom(from: u64, s: seq<u64>) {
    && (forall i | 0 <= i < |s| :: from < s[i])
    && (forall i, j | 0 <= i < j < |s| :: s[i] < s[j])
  }

  function LastOf(s: seq<u64>, otherwise: u64): u64 {
    if s == [] then otherwise else s[|s| - 1]
  }

  ghost function UsedSoFar(a: ViewAuthority, n: Numbering, view: ViewId, epoch: u64): u64 {
    if a.Current(view, epoch) then LastUsed(a.views[view], n) else 0
  }

  /** From one value to the next, an incarnation that accepts a sequence number
      accepts one above its last, which it becomes; nothing else moves the last,
      and an incarnation that is over stays over. */
  ghost predicate Rises(a: ViewAuthority, b: ViewAuthority, uses: Option<u64>, n: Numbering, view: ViewId, epoch: u64) {
    && (a.Current(view, epoch) && uses.Some? ==> b.Current(view, epoch) && UsedSoFar(a, n, view, epoch) < uses.value)
    && (a.Current(view, epoch) && b.Current(view, epoch) ==>
          UsedSoFar(b, n, view, epoch) == if uses.Some? then uses.value else UsedSoFar(a, n, view, epoch))
    && (!a.Current(view, epoch) && b.Current(view, epoch) ==>
          UsedSoFar(b, n, view, epoch) == 0 && a.nextAttachmentEpoch < epoch)
    && a.nextAttachmentEpoch <= b.nextAttachmentEpoch
  }

  lemma TakeOverRises(a: ViewAuthority, q: TakeOverRequest, n: Numbering, view: ViewId, epoch: u64)
    requires a.Valid() && epoch < U64_MAX
    ensures Rises(a, a.TakeOver(q).0, None, n, view, epoch)
  {
    hide ViewAuthority.TakeOver, ViewAuthority.WatermarkOf;
    TakeOverInstalls(a, q);
    TakeOverSupersedes(a, q);
    AcceptedAttemptFences(a, q);
  }

  lemma ClaimRises(a: ViewAuthority, op: Op, n: Numbering, view: ViewId, epoch: u64)
    requires op.OpClaim? || op.OpClaimChecked?
    ensures Rises(a, Apply(a, op), None, n, view, epoch)
  {
  }

  lemma DetachRises(a: ViewAuthority, op: Op, n: Numbering, view: ViewId, epoch: u64)
    requires op.OpDetach? || op.OpDetachIfEpoch?
    ensures Rises(a, Apply(a, op), None, n, view, epoch)
  {
  }

  lemma ResizeRises(a: ViewAuthority, op: Op, n: Numbering, view: ViewId, epoch: u64)
    requires op.OpResize? || op.OpResizeChecked?
    ensures Rises(a, Apply(a, op), Uses(a, op, n, view), n, view, epoch)
  {
  }

  lemma UseStep(a: ViewAuthority, op: Op, n: Numbering, view: ViewId, epoch: u64)
    requires a.Valid() && epoch < U64_MAX
    ensures Rises(a, Apply(a, op), Uses(a, op, n, view), n, view, epoch)
  {
    hide ViewAuthority.GcWatermarks, ViewAuthority.TakeOver, Rises;
    match op
    case OpTakeOver(request) => TakeOverRises(a, request, n, view, epoch);
    case OpGc(client, through) => CollectRises(a, client, through, n, view, epoch);
    case OpClaim(_, _, _) => ClaimRises(a, op, n, view, epoch);
    case OpClaimChecked(_, _, _, _, _) => ClaimRises(a, op, n, view, epoch);
    case OpDetach(_, _) => DetachRises(a, op, n, view, epoch);
    case OpDetachIfEpoch(_, _, _) => DetachRises(a, op, n, view, epoch);
    case OpResize(_, _, _, _, _) => ResizeRises(a, op, n, view, epoch);
    case OpResizeChecked(_, _, _, _, _, _) => ResizeRises(a, op, n, view, epoch);
    case OpAttach(_, _, _) => AttachOrInputRises(a, op, n, view, epoch);
    case OpInput(_, _, _, _) => AttachOrInputRises(a, op, n, view, epoch);
  }

  lemma CollectRises(a: ViewAuthority, client: ClientId, through: u64, n: Numbering, view: ViewId, epoch: u64)
    ensures Rises(a, a.GcWatermarks(client, through), None, n, view, epoch)
  {
    hide ViewAuthority.GcWatermarks;
    CollectsExactly(a, client, through, client, view);
  }

  lemma AttachOrInputRises(a: ViewAuthority, op: Op, n: Numbering, view: ViewId, epoch: u64)
    requires a.Valid() && epoch < U64_MAX && (op.OpAttach? || op.OpInput?)
    ensures Rises(a, Apply(a, op), Uses(a, op, n, view), n, view, epoch)
  {
  }

  /** What one incarnation gets accepted rises strictly over any run, and its
      last is what the authority remembers, whatever else is going on. */
  lemma {:induction false} SequencesRise(a: ViewAuthority, ops: seq<Op>, n: Numbering, view: ViewId, epoch: u64)
    requires a.Valid() && epoch < U64_MAX
    ensures RisesFrom(UsedSoFar(a, n, view, epoch), Used(a, ops, n, view, epoch))
    ensures a.Retired(view, epoch) ==> Used(a, ops, n, view, epoch) == []
    ensures ApplyAll(a, ops).Current(view, epoch) ==>
      UsedSoFar(ApplyAll(a, ops), n, view, epoch) == LastOf(Used(a, ops, n, view, epoch), UsedSoFar(a, n, view, epoch))
    decreases |ops|
  {
    hide Apply;
    if ops != [] {
      UseStep(a, ops[0], n, view, epoch);
      ApplyKeepsValid(a, ops[0]);
      SequencesRise(Apply(a, ops[0]), ops[1..], n, view, epoch);
      if Apply(a, ops[0]).Retired(view, epoch) {
        RetiredForever(Apply(a, ops[0]), ops[1..], view, epoch);
      }
    }
  }

  /** So an input is accepted as new exactly when its incarnation is live and
      writable and its number is above all the numbers accepted before it from
      that incarnation, since the session began. */
  lemma AcceptedOnce(size: Size, ops: seq<Op>, view: ViewId, client: ClientId, epoch: u64, sequence: u64)
    requires epoch < U64_MAX
    ensures var a := ApplyAll(NewAuthority(size), ops);
      a.AuthorizeInput(view, client, epoch, sequence).1 == Ok(true)
      <==> Writer(a, view, client) && a.Current(view, epoch) && 0 < sequence
           && forall n | n in Used(NewAuthority(size), ops, Typing, view, epoch) :: n < sequence
  {
    hide ViewAuthority.AuthorizeInput, Apply;
    var start := NewAuthority(size);
    var used := Used(start, ops, Typing, view, epoch);
    SequencesRise(start, ops, Typing, view, epoch);
    WhoMayType(ApplyAll(start, ops), view, client, epoch, sequence);
    if used != [] {
      assert used[|used| - 1] in used;
    }
  }

  // ------------------------------------------------------- control is fenced

  /** A control epoch that was handed out and is no longer the controller's. */
  ghost predicate Deposed(a: ViewAuthority, controlEpoch: u64) {
    && controlEpoch <= a.nextControlEpoch
    && !(a.controller.Some? && a.controller.value.controlEpoch == controlEpoch)
  }

  lemma DeposedStep(a: ViewAuthority, op: Op, controlEpoch: u64)
    requires Deposed(a, controlEpoch) && controlEpoch < U64_MAX
    ensures Deposed(Apply(a, op), controlEpoch)
  {
  }

  /** A controller that was superseded, taken over or detached never resizes
      again, whatever runs after it. */
  lemma {:induction false} DeposedForever(a: ViewAuthority, ops: seq<Op>, controlEpoch: u64, view: ViewId, client: ClientId, sequence: u64, size: Size)
    requires Deposed(a, controlEpoch) && controlEpoch < U64_MAX
    ensures ApplyAll(a, ops).PrepareResize(view, client, controlEpoch, sequence, size) == Err(StaleController)
    decreases |ops|
  {
    hide Apply;
    if ops != [] {
      DeposedStep(a, ops[0], controlEpoch);
      DeposedForever(Apply(a, ops[0]), ops[1..], controlEpoch, view, client, sequence, size);
    }
  }

  /** Every claim that is granted deposes every control epoch before it. */
  lemma ClaimDeposes(a: ViewAuthority, op: Op, controlEpoch: u64)
    requires a.Valid() && (op.OpClaim? || op.OpClaimChecked?) && controlEpoch <= a.nextControlEpoch < U64_MAX
    ensures Apply(a, op) == a || Deposed(Apply(a, op), controlEpoch)
  {
  }

  lemma RevisionNeverFalls(a: ViewAuthority, op: Op)
    ensures a.controlRevision <= Apply(a, op).controlRevision
  {
  }

  /** A claim that expects a superseded revision is never granted, whatever
      runs before it arrives: it changes nothing, and a claimant who could
      have claimed learns the controller there is. */
  lemma {:induction false} SupersededClaimLoses(a: ViewAuthority, ops: seq<Op>, view: ViewId, client: ClientId, epoch: u64, size: Size, expected: u64)
    requires expected < a.controlRevision
    ensures var now := ApplyAll(a, ops);
      var (next, r) := now.ClaimControlChecked(view, client, epoch, size, Some(expected));
      next == now && (r.Ok? ==> r.value == Rejected(ControlState(now.controller, now.controlRevision)))
    decreases |ops|
  {
    hide Apply;
    if ops != [] {
      RevisionNeverFalls(a, ops[0]);
      SupersededClaimLoses(Apply(a, ops[0]), ops[1..], view, client, epoch, size, expected);
    }
  }

  /** So of all the claims that expect one revision, at most one is granted. */
  lemma OneClaimWins(a: ViewAuthority, op: Op, ops: seq<Op>, view: ViewId, client: ClientId, epoch: u64, size: Size, expected: u64)
    requires expected < U64_MAX && op.OpClaimChecked? && op.expected == Some(expected) && Apply(a, op) != a
    ensures var now := ApplyAll(Apply(a, op), ops);
      now.ClaimControlChecked(view, client, epoch, size, Some(expected)).0 == now
  {
    SupersededClaimLoses(Apply(a, op), ops, view, client, epoch, size, expected);
  }
}
