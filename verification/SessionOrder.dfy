/** Input is recorded in the order it was queued, and an automation epoch is a
    fence against human input. */
module SessionOrder {
  import opened Common
  import opened Authority
  import opened SessionModel
  import opened SessionLocks
  import opened SessionBase

  function Humans(entries: seq<Entry>): nat {
    if entries == [] then 0
    else Humans(entries[..|entries| - 1]) + if entries[|entries| - 1].Human() then 1 else 0
  }

  function Capped(n: nat): u64 {
    if n < U64_MAX then n else U64_MAX
  }

  /** An entry the queue has taken and the order has not recorded yet. */
  function Half(pc: Pc): Option<Entry> {
    match pc
    case Gate(MarkUsed(entry)) => Some(entry)
    case Gate(Record(entry)) => Some(entry)
    case Gate(InterruptRecord(_)) => Some(FromHost)
    case _ => None
  }

  ghost predicate HalfOk(input: Input, pc: Pc) {
    Half(pc).Some? ==> input.queue == input.recorded + [Half(pc).value]
  }

  ghost predicate Counted(input: Input) {
    && input.order.humanEpoch == Capped(Humans(input.recorded))
    && input.order.sequence == Capped(|input.recorded|)
  }

  ghost predicate Inv(s: State) {
    && Base(s)
    && Counted(s.sh.input)
    && ((forall t | t in s.threads :: Half(s.threads[t]).None?) ==> s.sh.input.queue == s.sh.input.recorded)
    && forall t | t in s.threads :: HalfOk(s.sh.input, s.threads[t])
  }

  lemma HalfHoldsOrder(pc: Pc)
    ensures Half(pc).Some? ==> Holds(pc, OrderLock)
  {
  }

  lemma RecordCounts(input: Input, entry: Entry)
    requires Counted(input)
    ensures Counted(input.Recorded(entry))
  {
    var recorded := input.recorded + [entry];
    assert recorded[..|recorded| - 1] == input.recorded;
  }

  /** What a step does to the input, by where it starts and ends. */
  ghost predicate InputStep(sh: Shared, pc: Pc, c: Choice) {
    var (now, next) := Advance(sh, pc, c);
    match Half(pc)
    case None =>
      if Half(next).Some? then Holds(pc, OrderLock) && now.input == sh.input.(queue := sh.input.queue + [Half(next).value])
      else now.input == sh.input
    case Some(entry) =>
      if Half(next).Some? then now.input == sh.input && Half(next) == Half(pc)
      else now.input == sh.input.Recorded(entry)
  }

  lemma GateInputStep(sh: Shared, g: GatePc, c: Choice)
    ensures InputStep(sh, Gate(g), c)
  {
    hide ViewAuthority.Attach, ViewAuthority.TakeOver, ViewAuthority.AuthorizeInput, ViewAuthority.Control;
  }

  lemma OtherInputStep(sh: Shared, pc: Pc, c: Choice)
    requires !pc.Gate?
    ensures InputStep(sh, pc, c)
  {
  }

  lemma HolderSeesWhole(s: State, t: ThreadId)
    requires Inv(s) && t in s.threads && Holds(s.threads[t], OrderLock) && Half(s.threads[t]).None?
    ensures s.sh.input.queue == s.sh.input.recorded
  {
    forall u | u in s.threads
      ensures Half(s.threads[u]).None?
    {
      if u != t {
        HalfHoldsOrder(s.threads[u]);
        assert Disjoint(s.threads[t], s.threads[u]);
      }
    }
  }

  lemma StepIsInputStep(sh: Shared, pc: Pc, c: Choice)
    ensures InputStep(sh, pc, c)
  {
    if pc.Gate? {
      GateInputStep(sh, pc.gate, c);
    } else {
      OtherInputStep(sh, pc, c);
    }
  }

  lemma OwnStepKeepsHalf(s: State, e: Event)
    requires Inv(s) && Enabled(s, e) && e.Step?
    ensures Counted(Next(s, e).sh.input) && HalfOk(Next(s, e).sh.input, Next(s, e).threads[e.id])
  {
    hide Advance, Holds, Base, Counted;
    var pc, next := s.threads[e.id], Next(s, e).threads[e.id];
    StepIsInputStep(s.sh, pc, e.choice);
    if Half(pc).None? && Half(next).Some? {
      HolderSeesWhole(s, e.id);
    }
    if Half(pc).Some? && Half(next).None? {
      RecordCounts(s.sh.input, Half(pc).value);
    } else {
      CountedIgnoresQueue(s.sh.input, Next(s, e).sh.input);
    }
  }

  lemma CountedIgnoresQueue(a: Input, b: Input)
    requires Counted(a) && a.order == b.order && a.recorded == b.recorded
    ensures Counted(b)
  {
  }

  lemma OtherStepsKeepHalf(s: State, e: Event, u: ThreadId)
    requires Inv(s) && Enabled(s, e) && e.Step? && u in s.threads && u != e.id
    ensures HalfOk(Next(s, e).sh.input, s.threads[u])
  {
    hide Advance, Holds, Counted;
    var pc := s.threads[e.id];
    StepIsInputStep(s.sh, pc, e.choice);
    HalfHoldsOrder(pc);
    HalfHoldsOrder(s.threads[u]);
    assert Disjoint(pc, s.threads[u]);
    assert !(Holds(pc, OrderLock) && Holds(s.threads[u], OrderLock));
  }

  /** Once nobody is half way, everything queued has been recorded. */
  lemma StepSettlesQueue(s: State, e: Event)
    requires Inv(s) && Enabled(s, e) && e.Step?
    requires forall t | t in Next(s, e).threads :: Half(Next(s, e).threads[t]).None?
    ensures Next(s, e).sh.input.queue == Next(s, e).sh.input.recorded
  {
    hide Advance, Holds, Base, Counted;
    var pc, now := s.threads[e.id], Next(s, e);
    StepIsInputStep(s.sh, pc, e.choice);
    assert Half(now.threads[e.id]).None?;
    if Half(pc).None? {
      forall t | t in s.threads ensures Half(s.threads[t]).None? {
        assert t != e.id ==> now.threads[t] == s.threads[t];
      }
    }
  }

  lemma NextKeepsInv(s: State, e: Event)
    requires Inv(s)
    ensures Inv(Next(s, e))
  {
    hide Advance, Holds, Base, Counted, HalfOk;
    NextKeepsBase(s, e);
    var now := Next(s, e);
    if Enabled(s, e) && e.Step? {
      OwnStepKeepsHalf(s, e);
      forall u | u in s.threads && u != e.id ensures HalfOk(now.sh.input, s.threads[u]) {
        OtherStepsKeepHalf(s, e, u);
      }
      if forall t | t in now.threads :: Half(now.threads[t]).None? {
        StepSettlesQueue(s, e);
      }
    } else if Enabled(s, e) {
      EntriesAreWhole(s, e);
    }
  }

  lemma EntriesAreWhole(s: State, e: Event)
    requires Inv(s) && Enabled(s, e) && !e.Step?
    ensures Next(s, e).sh.input == s.sh.input
    ensures forall t | t in Next(s, e).threads :: HalfOk(s.sh.input, Next(s, e).threads[t])
    ensures forall t | t in s.threads :: Next(s, e).threads[t] == s.threads[t]
  {
    hide Base, Counted;
  }

  lemma {:induction false} RunsKeepInv(s: State, run: seq<Event>)
    requires Inv(s)
    ensures Inv(Execute(s, run))
    ensures s.sh.input.queue <= Execute(s, run).sh.input.queue
    ensures s.sh.input.recorded <= Execute(s, run).sh.input.recorded
    decreases |run|
  {
    if run != [] {
      NextKeepsInv(s, run[0]);
      if Enabled(s, run[0]) && run[0].Step? {
        StepIsInputStep(s.sh, s.threads[run[0].id], run[0].choice);
      }
      RunsKeepInv(Next(s, run[0]), run[1..]);
    }
  }

  lemma ReachableInv(s: State)
    requires Reachable(s)
    ensures Inv(s)
  {
    var start, run :| Initial(start) && Execute(start, run) == s;
    RunsKeepInv(start, run);
  }

  /** Whenever the order is free, what it recorded is the queue, entry for
      entry, and its counters are the counts of it. */
  lemma QueueIsRecorded(s: State)
    requires Reachable(s) && s.Free(OrderLock)
    ensures s.sh.input.queue == s.sh.input.recorded
    ensures s.sh.input.order.humanEpoch == Capped(Humans(s.sh.input.queue))
    ensures s.sh.input.order.sequence == Capped(|s.sh.input.queue|)
  {
    ReachableInv(s);
    forall t | t in s.threads ensures Half(s.threads[t]).None? {
      HalfHoldsOrder(s.threads[t]);
    }
  }

  lemma {:induction false} HumansSplit(a: seq<Entry>, b: seq<Entry>)
    requires a <= b
    ensures Humans(a) <= Humans(b)
    ensures Humans(a) == Humans(b) <==> forall i | |a| <= i < |b| :: !b[i].Human()
    decreases |b|
  {
    if a == b {
    } else {
      var front := b[..|b| - 1];
      assert a <= front;
      HumansSplit(a, front);
      assert forall i | |a| <= i < |front| :: b[i] == front[i];
    }
  }

  /** The human epoch a thread has just been told: by `automation_state`, by an
      automation that was accepted, or by one that was not. */
  function Told(pc: Pc): Option<u64> {
    match pc
    case Done(EpochIs(epoch)) => Some(epoch)
    case Done(Fenced(epoch)) => Some(epoch)
    case Done(Automated(epoch, _)) => Some(epoch)
    case _ => None
  }

  lemma TellsCurrentEpoch(sh: Shared, pc: Pc, c: Choice)
    requires !pc.Done? && Told(Advance(sh, pc, c).1).Some?
    ensures Holds(pc, OrderLock) && Half(Advance(sh, pc, c).1).None?
    ensures Told(Advance(sh, pc, c).1).value == Advance(sh, pc, c).0.input.order.humanEpoch
    ensures Advance(sh, pc, c).1.outcome.Automated? ==>
      Half(pc).Some? && Advance(sh, pc, c).1.outcome.sequence == Advance(sh, pc, c).0.input.order.sequence
  {
    hide ViewAuthority.Attach, ViewAuthority.TakeOver, ViewAuthority.AuthorizeInput, PlanOf;
    if pc.Sizing? {
      SizeTellsNothing(sh, pc.sizing, c);
    }
  }

  lemma SizeTellsNothing(sh: Shared, z: SizePc, c: Choice)
    ensures Told(Advance(sh, Sizing(z), c).1).None?
  {
  }

  /** Just after its step, everything queued is recorded. */
  lemma OrderKeeperLeavesWhole(s: State, t: ThreadId, c: Choice)
    requires Inv(s) && Enabled(s, Step(t, c)) && Holds(s.threads[t], OrderLock) && Half(Next(s, Step(t, c)).threads[t]).None?
    ensures Next(s, Step(t, c)).sh.input.queue == Next(s, Step(t, c)).sh.input.recorded
  {
    hide Advance, Holds, Base, Counted, HalfOk;
    NextKeepsInv(s, Step(t, c));
    var now := Next(s, Step(t, c));
    forall u | u in now.threads ensures Half(now.threads[u]).None? {
      if u != t {
        OthersAreWhole(s, t, u);
      }
    }
  }

  lemma OthersAreWhole(s: State, t: ThreadId, u: ThreadId)
    requires Inv(s) && t in s.threads && u in s.threads && u != t && Holds(s.threads[t], OrderLock)
    ensures Half(s.threads[u]).None?
  {
    HalfHoldsOrder(s.threads[u]);
    assert Disjoint(s.threads[t], s.threads[u]);
  }

  /** Whoever is told a human epoch is told how many human operations were ever
      queued, as far as the counter goes; and an automation that is accepted is
      told its own place in the queue. */
  lemma EpochToldIsTrue(s: State, t: ThreadId, c: Choice)
    requires Reachable(s) && Enabled(s, Step(t, c)) && Told(Next(s, Step(t, c)).threads[t]).Some?
    ensures var now := Next(s, Step(t, c));
      && Told(now.threads[t]) == Some(Capped(Humans(now.sh.input.queue)))
      && (now.threads[t].outcome.Automated? ==> now.threads[t].outcome.sequence == Capped(|now.sh.input.queue|))
      && now.sh.input.queue == now.sh.input.recorded
  {
    hide Advance, Holds, Base, HalfOk;
    ReachableInv(s);
    TellsCurrentEpoch(s.sh, s.threads[t], c);
    OrderKeeperLeavesWhole(s, t, c);
    NextKeepsInv(s, Step(t, c));
  }

  /** In this run some thread was told this epoch, and later another came to its
      turn with an automation carrying it. */
  ghost predicate CarriesTold(s: State, teller: ThreadId, c: Choice, run: seq<Event>, t: ThreadId, item: Item) {
    var told := Next(s, Step(teller, c));
    && Reachable(s) && Enabled(s, Step(teller, c))
    && item.expected.Some? && Told(told.threads[teller]) == item.expected
    && t in Execute(told, run).threads && Execute(told, run).threads[t] == Gate(QueueLocked(item))
  }

  /** An epoch a caller was told fences exactly the human input queued since: a
      later automation that carries it is accepted at the fence if and only if
      no human operation was queued between the answer and its turn. */
  lemma FenceIsExact(s: State, teller: ThreadId, c: Choice, run: seq<Event>, t: ThreadId, item: Item)
    requires CarriesTold(s, teller, c, run, t, item) && item.expected.value < U64_MAX
    ensures var before, turn := Next(s, Step(teller, c)).sh.input.queue, Execute(Next(s, Step(teller, c)), run).sh.input;
      && before <= turn.queue
      && (turn.order.Accepts(item.expected.value)
          <==> forall i | |before| <= i < |turn.queue| :: !turn.queue[i].Human())
  {
    hide Base, Next;
    var told := Next(s, Step(teller, c));
    EpochToldIsTrue(s, teller, c);
    ReachableInv(s);
    NextKeepsInv(s, Step(teller, c));
    RunsKeepInv(told, run);
    TurnSeesWhole(Execute(told, run), t, item);
    HumansSplit(told.sh.input.queue, Execute(told, run).sh.input.queue);
  }

  lemma TurnSeesWhole(s: State, t: ThreadId, item: Item)
    requires Inv(s) && t in s.threads && s.threads[t] == Gate(QueueLocked(item))
    ensures s.sh.input.order.humanEpoch == Capped(Humans(s.sh.input.queue))
  {
    HolderSeesWhole(s, t);
  }

  /** So an automation that carries an epoch its caller was told is the next
      entry of the queue after its turn if and only if nobody human got in
      between and the queue has room; otherwise its turn changes nothing, and it
      learns which of the two it was. */
  lemma AutomationIsQueuedExactly(s: State, teller: ThreadId, c: Choice, run: seq<Event>, t: ThreadId, item: Item, room: Choice)
    requires CarriesTold(s, teller, c, run, t, item) && item.expected.value < U64_MAX
    ensures var before, turn := Next(s, Step(teller, c)).sh.input.queue, Execute(Next(s, Step(teller, c)), run);
      var after := Next(turn, Step(t, room));
      var alone := forall i | |before| <= i < |turn.sh.input.queue| :: !turn.sh.input.queue[i].Human();
      && before <= turn.sh.input.queue
      && after.sh.input.queue == (if alone && room.ok then turn.sh.input.queue + [item.entry] else turn.sh.input.queue)
      && (after.threads[t].Done? && after.threads[t].outcome.Fenced? <==> !alone)
      && (after.threads[t] == Done(QueueFull) <==> alone && !room.ok)
      && (after.threads[t].Done? ==> after.sh == turn.sh)
  {
    FenceIsExact(s, teller, c, run, t, item);
  }

  /** A saturated epoch fences nothing: human input leaves it as it is. */
  lemma SaturatedFenceIsOpen(order: InputOrder)
    requires order.humanEpoch == U64_MAX
    ensures order.Record(true).Accepts(order.humanEpoch)
  {
  }
}
