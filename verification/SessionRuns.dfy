/** Building runs: one after another, and of one thread while the others have
    finished. */
module SessionRuns {
  import opened SessionModel

  lemma {:induction false} ExecuteAppend(s: State, a: seq<Event>, b: seq<Event>)
    ensures Execute(s, a + b) == Execute(Execute(s, a), b)
    decreases |a|
  {
    if a == [] {
      assert a + b == b;
    } else {
      ExecuteAppend(Next(s, a[0]), a[1..], b);
      assert (a + b)[1..] == a[1..] + b;
    }
  }

  /** One thread's steps, each resolved by its choice. */
  function Alone(sh: Shared, pc: Pc, choices: seq<Choice>): (Shared, Pc)
    decreases |choices|
  {
    if choices == [] then (sh, pc)
    else Alone(Advance(sh, pc, choices[0]).0, Advance(sh, pc, choices[0]).1, choices[1..])
  }

  /** None of these steps waits for a lock its own thread holds. */
  predicate Unhindered(sh: Shared, pc: Pc, choices: seq<Choice>)
    decreases |choices|
  {
    choices != [] ==>
      && !pc.Done? && ValidPick(pc, choices[0])
      && (Wants(pc).Some? ==> !Holds(pc, Wants(pc).value))
      && Unhindered(Advance(sh, pc, choices[0]).0, Advance(sh, pc, choices[0]).1, choices[1..])
  }

  lemma NoMore(sh: Shared, pc: Pc)
    ensures Unhindered(sh, pc, []) && Alone(sh, pc, []) == (sh, pc)
  {
  }

  lemma OneMore(sh: Shared, pc: Pc, c: Choice, rest: seq<Choice>)
    requires !pc.Done? && ValidPick(pc, c) && (Wants(pc).Some? ==> !Holds(pc, Wants(pc).value))
    ensures var (next, after) := Advance(sh, pc, c);
      && (Unhindered(sh, pc, [c] + rest) <==> Unhindered(next, after, rest))
      && Alone(sh, pc, [c] + rest) == Alone(next, after, rest)
  {
    hide Advance;
    assert ([c] + rest)[1..] == rest;
  }

  ghost predicate OthersDone(s: State, t: ThreadId) {
    forall u | u in s.threads && u != t :: s.threads[u].Done?
  }

  /** With every other thread finished, a thread runs straight through. */
  lemma {:induction false} RunAlone(s: State, t: ThreadId, choices: seq<Choice>) returns (run: seq<Event>)
    requires t in s.threads && OthersDone(s, t) && Unhindered(s.sh, s.threads[t], choices)
    ensures var (sh, pc) := Alone(s.sh, s.threads[t], choices);
      Execute(s, run) == State(sh, s.threads[t := pc])
    decreases |choices|
  {
    hide Advance, ValidPick;
    if choices == [] {
      run := [];
      assert s.threads[t := s.threads[t]] == s.threads;
    } else {
      var next := Advance(s.sh, s.threads[t], choices[0]);
      assert Enabled(s, Step(t, choices[0]));
      var rest := RunAlone(State(next.0, s.threads[t := next.1]), t, choices[1..]);
      run := [Step(t, choices[0])] + rest;
      assert run[1..] == rest;
      assert s.threads[t := next.1][t := Execute(s, run).threads[t]] == s.threads[t := Execute(s, run).threads[t]];
    }
  }

  /** Start an operation with every other thread finished, and run it. */
  lemma RunOperation(s: State, t: ThreadId, pc: Pc, choices: seq<Choice>) returns (run: seq<Event>)
    requires t !in s.threads && (forall u | u in s.threads :: s.threads[u].Done?)
    requires IsEntry(pc) && Unhindered(s.sh, pc, choices)
    ensures var (sh, last) := Alone(s.sh, pc, choices);
      Execute(s, run) == State(sh, s.threads[t := last])
  {
    hide Advance, ValidPick, IsEntry, Unhindered, Alone;
    var started := s.(threads := s.threads[t := pc]);
    assert Next(s, Start(t, pc)) == started;
    var rest := RunAlone(started, t, choices);
    run := [Start(t, pc)] + rest;
    assert run[1..] == rest;
    var last := Alone(s.sh, pc, choices).1;
    assert s.threads[t := pc][t := last] == s.threads[t := last];
  }
}
