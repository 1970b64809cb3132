/** What views type into a session: only writers, in the order they numbered it,
    and each number once. */
module SessionInput {
  import opened Common
  import opened Authority
  import opened AuthorityLaws
  import opened SessionModel
  import opened SessionLocks
  import opened SessionBase
  import opened SessionRuns

  /** The view input a thread has had authorized and not queued yet. */
  function Pending(pc: Pc): Option<Typed> {
    match pc
    case Gate(QueueWait(Item(FromView(typed), _))) => Some(typed)
    case Gate(QueueLocked(Item(FromView(typed), _))) => Some(typed)
    case _ => None
  }

  /** The authority has seen this input: its incarnation was handed out, and if
      it is still live it will not accept the number again. */
  ghost predicate Spent(auth: ViewAuthority, typed: Typed) {
    && typed.epoch <= auth.nextAttachmentEpoch
    && (auth.Current(typed.view, typed.epoch) ==> typed.sequence <= auth.views[typed.view].lastInput)
  }

  predicate SameIncarnation(x: Typed, y: Typed) {
    x.view == y.view && x.epoch == y.epoch && x.epoch < U64_MAX
  }

  /** This input comes after everything its incarnation has in the queue. */
  ghost predicate Follows(queue: seq<Entry>, typed: Typed) {
    forall i | 0 <= i < |queue| :: queue[i].FromView? && SameIncarnation(queue[i].input, typed) ==>
      queue[i].input.sequence < typed.sequence
  }

  ghost predicate InOrder(queue: seq<Entry>) {
    forall i, j | 0 <= i < j < |queue| && queue[i].FromView? && queue[j].FromView? && SameIncarnation(queue[i].input, queue[j].input) ::
      queue[i].input.sequence < queue[j].input.sequence
  }

  ghost predicate AllSpent(auth: ViewAuthority, queue: seq<Entry>) {
    forall i | 0 <= i < |queue| :: queue[i].FromView? && queue[i].input.epoch < U64_MAX ==> Spent(auth, queue[i].input)
  }

  ghost predicate PendingOk(sh: Shared, pc: Pc) {
    Pending(pc).Some? && Pending(pc).value.epoch < U64_MAX ==>
      Spent(sh.auth, Pending(pc).value) && Follows(sh.input.queue, Pending(pc).value)
  }

  ghost predicate Inv(s: State) {
    && Base(s)
    && InOrder(s.sh.input.queue) && AllSpent(s.sh.auth, s.sh.input.queue)
    && forall t | t in s.threads :: PendingOk(s.sh, s.threads[t])
  }

  lemma PendingHoldsLifecycle(pc: Pc)
    ensures Pending(pc).Some? ==> Holds(pc, Lifecycle)
  {
  }

  /** What was spent stays spent. */
  lemma SpentStays(sh: Shared, pc: Pc, c: Choice, typed: Typed)
    requires sh.auth.Valid() && PlanOk(sh.auth, pc) && Spent(sh.auth, typed) && typed.epoch < U64_MAX
    ensures Spent(Advance(sh, pc, c).0.auth, typed)
  {
    hide Advance, Apply, OpOf, PlanOk, ViewAuthority.Valid;
    AuthorityStep(sh, pc, c);
    if OpOf(sh, pc).Some? {
      UseStep(sh.auth, OpOf(sh, pc).value, Typing, typed.view, typed.epoch);
    }
  }

  /** How a step may change the queue: a view's input enters it from the turn it
      was pending for, and becomes pending by being authorized as new. */
  ghost predicate TypingStep(sh: Shared, pc: Pc, c: Choice) {
    var (now, next) := Advance(sh, pc, c);
    var queue := now.input.queue;
    && (queue == sh.input.queue || (|queue| > 0 && queue == sh.input.queue + [queue[|queue| - 1]]))
    && (queue != sh.input.queue ==> queue[|queue| - 1].FromHost? || Holds(pc, Lifecycle))
    && (queue != sh.input.queue && queue[|queue| - 1].FromView? ==>
          Pending(pc) == Some(queue[|queue| - 1].input) && now.auth == sh.auth && Pending(next).None?)
    && (Pending(next).Some? ==>
          && queue == sh.input.queue
          && ((Pending(pc) == Pending(next) && now.auth == sh.auth) || AuthorizedNow(sh, now, Pending(next).value)))
  }

  ghost predicate AuthorizedNow(sh: Shared, now: Shared, typed: Typed) {
    sh.auth.AuthorizeInput(typed.view, typed.client, typed.epoch, typed.sequence) == (now.auth, Ok(true))
  }

  lemma GateTypingStep(sh: Shared, g: GatePc, c: Choice)
    ensures TypingStep(sh, Gate(g), c)
  {
    hide ViewAuthority.Attach, ViewAuthority.TakeOver, ViewAuthority.AuthorizeInput, ViewAuthority.Control;
  }

  lemma SizeTypingStep(sh: Shared, z: SizePc, c: Choice)
    ensures TypingStep(sh, Sizing(z), c)
  {
    hide PlanOf;
  }

  lemma StepIsTypingStep(sh: Shared, pc: Pc, c: Choice)
    ensures TypingStep(sh, pc, c)
  {
    match pc
    case Gate(g) => GateTypingStep(sh, g, c);
    case Sizing(z) => SizeTypingStep(sh, z, c);
    case _ =>
  }

  /** A number accepted as new is above all of its incarnation in the queue. */
  lemma NewFollows(sh: Shared, now: Shared, typed: Typed)
    requires sh.auth.Valid() && AllSpent(sh.auth, sh.input.queue) && AuthorizedNow(sh, now, typed)
    ensures Spent(now.auth, typed) && Follows(sh.input.queue, typed)
  {
    hide ViewAuthority.AuthorizeInput;
    WhoMayType(sh.auth, typed.view, typed.client, typed.epoch, typed.sequence);
  }

  lemma OwnStep(sh: Shared, pc: Pc, c: Choice)
    requires sh.auth.Valid() && PlanOk(sh.auth, pc) && PendingOk(sh, pc)
    requires InOrder(sh.input.queue) && AllSpent(sh.auth, sh.input.queue)
    ensures var (now, next) := Advance(sh, pc, c);
      InOrder(now.input.queue) && AllSpent(now.auth, now.input.queue) && PendingOk(now, next)
  {
    hide Advance, ViewAuthority.Valid, PlanOk, AuthorizedNow, Holds;
    var (now, next) := Advance(sh, pc, c);
    StepIsTypingStep(sh, pc, c);
    forall i | 0 <= i < |sh.input.queue| && sh.input.queue[i].FromView? && sh.input.queue[i].input.epoch < U64_MAX
      ensures Spent(now.auth, sh.input.queue[i].input)
    {
      SpentStays(sh, pc, c, sh.input.queue[i].input);
    }
    if Pending(next).Some? && AuthorizedNow(sh, now, Pending(next).value) {
      NewFollows(sh, now, Pending(next).value);
    }
  }

  lemma OtherStep(sh: Shared, pc: Pc, c: Choice, other: Pc)
    requires sh.auth.Valid() && PlanOk(sh.auth, pc) && PendingOk(sh, other)
    requires !(Holds(pc, Lifecycle) && Holds(other, Lifecycle))
    ensures PendingOk(Advance(sh, pc, c).0, other)
  {
    hide Advance, ViewAuthority.Valid, PlanOk, AuthorizedNow, Holds;
    StepIsTypingStep(sh, pc, c);
    PendingHoldsLifecycle(other);
    if Pending(other).Some? && Pending(other).value.epoch < U64_MAX {
      SpentStays(sh, pc, c, Pending(other).value);
    }
  }

  lemma NextKeepsInv(s: State, e: Event)
    requires Inv(s)
    ensures Inv(Next(s, e))
  {
    hide Advance, Holds, InOrder, AllSpent, PendingOk;
    NextKeepsBase(s, e);
    var now := Next(s, e);
    if Enabled(s, e) && e.Step? {
      OwnStep(s.sh, s.threads[e.id], e.choice);
      forall t | t in s.threads && t != e.id ensures PendingOk(now.sh, s.threads[t]) {
        assert Disjoint(s.threads[e.id], s.threads[t]);
        OtherStep(s.sh, s.threads[e.id], e.choice, s.threads[t]);
      }
    } else {
      StartsNothingPending(s, e);
    }
  }

  lemma StartsNothingPending(s: State, e: Event)
    requires Inv(s) && !(Enabled(s, e) && e.Step?)
    ensures Next(s, e).sh.input == s.sh.input && Next(s, e).sh.auth == s.sh.auth
    ensures forall t | t in Next(s, e).threads :: PendingOk(Next(s, e).sh, Next(s, e).threads[t])
  {
    hide Base, InOrder, AllSpent;
  }

  lemma {:induction false} RunsKeepInv(s: State, run: seq<Event>)
    requires Inv(s)
    ensures Inv(Execute(s, run))
    decreases |run|
  {
    hide Inv, Next;
    if run != [] {
      NextKeepsInv(s, run[0]);
      RunsKeepInv(Next(s, run[0]), run[1..]);
    }
  }

  /** What an incarnation typed stands in the queue in the order of its own
      numbers, each number once, however its messages raced. */
  lemma TypedInOrder(s: State, i: nat, j: nat)
    requires Reachable(s) && i < j < |s.sh.input.queue|
    requires s.sh.input.queue[i].FromView? && s.sh.input.queue[j].FromView?
    requires SameIncarnation(s.sh.input.queue[i].input, s.sh.input.queue[j].input)
    ensures s.sh.input.queue[i].input.sequence < s.sh.input.queue[j].input.sequence
  {
    hide Next, Base;
    var start, run :| Initial(start) && Execute(start, run) == s;
    InitialInv(start);
    RunsKeepInv(start, run);
  }

  lemma InitialInv(s: State)
    requires Initial(s)
    ensures Inv(s)
  {
    InitialBase(s);
  }

  // ----------------------------------------------------- who typed what there is

  /** At some moment of the run the authority accepted this input as new. */
  ghost predicate WasAuthorized(s: State, run: seq<Event>, typed: Typed) {
    exists k | 0 <= k < |run| ::
      Execute(s, run[..k]).sh.auth.AuthorizeInput(typed.view, typed.client, typed.epoch, typed.sequence).1 == Ok(true)
  }

  ghost predicate AllAuthorized(s: State, run: seq<Event>) {
    var now := Execute(s, run);
    && (forall i | 0 <= i < |now.sh.input.queue| && now.sh.input.queue[i].FromView? ::
          WasAuthorized(s, run, now.sh.input.queue[i].input))
    && (forall t | t in now.threads && Pending(now.threads[t]).Some? :: WasAuthorized(s, run, Pending(now.threads[t]).value))
  }

  lemma AuthorizedLonger(s: State, run: seq<Event>, e: Event, typed: Typed)
    requires WasAuthorized(s, run, typed)
    ensures WasAuthorized(s, run + [e], typed)
  {
    hide Execute, ViewAuthority.AuthorizeInput;
    var k :| 0 <= k < |run|
      && Execute(s, run[..k]).sh.auth.AuthorizeInput(typed.view, typed.client, typed.epoch, typed.sequence).1 == Ok(true);
    assert (run + [e])[..k] == run[..k];
  }

  lemma AuthorizedHere(s: State, run: seq<Event>, e: Event, typed: Typed)
    requires Execute(s, run).sh.auth.AuthorizeInput(typed.view, typed.client, typed.epoch, typed.sequence).1 == Ok(true)
    ensures WasAuthorized(s, run + [e], typed)
  {
    hide Execute, ViewAuthority.AuthorizeInput;
    assert (run + [e])[..|run|] == run;
  }

  lemma StepIsAuthorized(s: State, run: seq<Event>, e: Event)
    requires AllAuthorized(s, run)
    ensures AllAuthorized(s, run + [e])
  {
    hide Execute, Advance, WasAuthorized, ViewAuthority.AuthorizeInput;
    var was, now := Execute(s, run), Execute(s, run + [e]);
    ExecuteOne(s, run, e);
    forall i | 0 <= i < |was.sh.input.queue| && was.sh.input.queue[i].FromView?
      ensures WasAuthorized(s, run + [e], was.sh.input.queue[i].input)
    {
      AuthorizedLonger(s, run, e, was.sh.input.queue[i].input);
    }
    forall t | t in was.threads && Pending(was.threads[t]).Some?
      ensures WasAuthorized(s, run + [e], Pending(was.threads[t]).value)
    {
      AuthorizedLonger(s, run, e, Pending(was.threads[t]).value);
    }
    if Enabled(was, e) && e.Step? {
      StepIsTypingStep(was.sh, was.threads[e.id], e.choice);
      var next := now.threads[e.id];
      if Pending(next).Some? && AuthorizedNow(was.sh, now.sh, Pending(next).value) {
        AuthorizedHere(s, run, e, Pending(next).value);
      }
    }
  }

  lemma ExecuteOne(s: State, run: seq<Event>, e: Event)
    ensures Execute(s, run + [e]) == Next(Execute(s, run), e)
  {
    hide Next;
    ExecuteAppend(s, run, [e]);
    assert Execute(Execute(s, run), [e]) == Next(Execute(s, run), e);
  }

  lemma {:induction false} AllIsAuthorized(s: State, run: seq<Event>)
    requires Initial(s)
    ensures AllAuthorized(s, run)
    decreases |run|
  {
    hide Next, WasAuthorized;
    if run != [] {
      var front := run[..|run| - 1];
      AllIsAuthorized(s, front);
      StepIsAuthorized(s, front, run[|run| - 1]);
      assert run == front + [run[|run| - 1]];
    }
  }

  ghost predicate AsWriter(auth: ViewAuthority, typed: Typed) {
    && Writer(auth, typed.view, typed.client) && auth.Current(typed.view, typed.epoch)
    && auth.views[typed.view].lastInput < typed.sequence
  }

  /** Whatever of a view stands in the queue was typed by the client of a live
      writable incarnation of that view: at some moment of the run it was
      attached read-write under the epoch the input names, and had been
      accepted no number as high. */
  lemma TypedByWriters(s: State, run: seq<Event>, i: nat)
    requires Initial(s) && i < |Execute(s, run).sh.input.queue| && Execute(s, run).sh.input.queue[i].FromView?
    ensures var typed := Execute(s, run).sh.input.queue[i].input;
      exists k | 0 <= k < |run| :: AsWriter(Execute(s, run[..k]).sh.auth, typed)
  {
    hide Execute, ViewAuthority.AuthorizeInput;
    AllIsAuthorized(s, run);
    var typed := Execute(s, run).sh.input.queue[i].input;
    var k :| 0 <= k < |run|
      && Execute(s, run[..k]).sh.auth.AuthorizeInput(typed.view, typed.client, typed.epoch, typed.sequence).1 == Ok(true);
    WhoMayType(Execute(s, run[..k]).sh.auth, typed.view, typed.client, typed.epoch, typed.sequence);
    assert AsWriter(Execute(s, run[..k]).sh.auth, typed);
  }
}
