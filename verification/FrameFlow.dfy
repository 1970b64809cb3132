/** High/low-water accounting of frames in flight (frame-flow.ts). */
module FrameFlow {
  import opened Common

  const FRAME_IN_FLIGHT_HIGH_WATER_BYTES: nat := 32 * 1024 * 1024
  const FRAME_IN_FLIGHT_LOW_WATER_BYTES: nat := 16 * 1024 * 1024
  const MAX_SAFE_INTEGER: nat := 0x1F_FFFF_FFFF_FFFF

  datatype Signal = Pause | Resume | Quiet

  /** The controller as a value: what the class below is measured against. */
  datatype Flow = Flow(inFlight: nat, paused: bool)
  {
    /** Paused, it holds more than the low-water mark; running, less than the
        high-water mark. */
    predicate Valid() {
      if paused then inFlight > FRAME_IN_FLIGHT_LOW_WATER_BYTES else inFlight < FRAME_IN_FLIGHT_HIGH_WATER_BYTES
    }

    function Accepted(bytes: nat): Flow {
      Flow(inFlight + bytes, paused || inFlight + bytes >= FRAME_IN_FLIGHT_HIGH_WATER_BYTES)
    }

    function Released(bytes: nat): (Flow, Signal)
      requires bytes <= inFlight
    {
      var total := inFlight - bytes;
      if paused && total <= FRAME_IN_FLIGHT_LOW_WATER_BYTES then (Flow(total, false), Resume)
      else (Flow(total, paused), Quiet)
    }
  }

  function Sum(credits: seq<nat>): nat
    decreases |credits|
  {
    if credits == [] then 0 else credits[0] + Sum(credits[1..])
  }

  function ReleasedAll(flow: Flow, credits: seq<nat>): (Flow, nat)
    requires Sum(credits) <= flow.inFlight
    decreases |credits|
  {
    if credits == [] then (flow, 0)
    else
      var (next, signal) := flow.Released(credits[0]);
      var (last, resumes) := ReleasedAll(next, credits[1..]);
      (last, resumes + if signal == Resume then 1 else 0)
  }

  /** Crediting everything outstanding, in any portions, resumes a paused
      controller exactly once. */
  lemma {:induction false} CreditingAllResumesOnce(flow: Flow, credits: seq<nat>)
    requires flow.Valid() && Sum(credits) == flow.inFlight
    ensures ReleasedAll(flow, credits) == (Flow(0, false), if flow.paused then 1 else 0)
    decreases |credits|
  {
    if credits != [] {
      CreditingAllResumesOnce(flow.Released(credits[0]).0, credits[1..]);
    }
  }

  // -------------------------------------------------------------- hysteresis

  datatype Move = Accepts(bytes: nat) | Releases(bytes: nat)

  /** Credit in excess of what is in flight is refused. */
  function After(flow: Flow, m: Move): Flow {
    match m
    case Accepts(bytes) => flow.Accepted(bytes)
    case Releases(bytes) => if bytes <= flow.inFlight then flow.Released(bytes).0 else flow
  }

  function AfterAll(moves: seq<Move>): Flow
    decreases |moves|
  {
    if moves == [] then Flow(0, false) else After(AfterAll(moves[..|moves| - 1]), moves[|moves| - 1])
  }

  /** From its first `i` moves on it has been over the low-water mark. */
  ghost predicate StaysOver(moves: seq<Move>, i: nat) {
    forall j | i <= j <= |moves| :: AfterAll(moves[..j]).inFlight > FRAME_IN_FLIGHT_LOW_WATER_BYTES
  }

  /** After its first `i` moves it was over the high-water mark, and it has been
      over the low-water mark ever since. */
  ghost predicate OverSince(moves: seq<Move>, i: nat) {
    i <= |moves| && AfterAll(moves[..i]).inFlight >= FRAME_IN_FLIGHT_HIGH_WATER_BYTES && StaysOver(moves, i)
  }

  lemma StaysOverGrows(moves: seq<Move>, i: nat)
    requires moves != [] && i < |moves|
    ensures StaysOver(moves, i) <==>
      StaysOver(moves[..|moves| - 1], i) && AfterAll(moves).inFlight > FRAME_IN_FLIGHT_LOW_WATER_BYTES
  {
    hide AfterAll;
    var front := moves[..|moves| - 1];
    assert moves[..|moves|] == moves;
    if StaysOver(moves, i) {
      forall j | i <= j <= |front|
        ensures AfterAll(front[..j]).inFlight > FRAME_IN_FLIGHT_LOW_WATER_BYTES
      {
        assert front[..j] == moves[..j];
      }
    }
    if StaysOver(front, i) && AfterAll(moves).inFlight > FRAME_IN_FLIGHT_LOW_WATER_BYTES {
      forall j | i <= j <= |moves|
        ensures AfterAll(moves[..j]).inFlight > FRAME_IN_FLIGHT_LOW_WATER_BYTES
      {
        if j <= |front| {
          assert front[..j] == moves[..j];
        }
      }
    }
  }

  lemma OverSinceGrows(moves: seq<Move>, i: nat)
    requires moves != [] && i < |moves|
    ensures OverSince(moves, i) <==>
      OverSince(moves[..|moves| - 1], i) && AfterAll(moves).inFlight > FRAME_IN_FLIGHT_LOW_WATER_BYTES
  {
    hide AfterAll, StaysOver;
    StaysOverGrows(moves, i);
    assert moves[..|moves| - 1][..i] == moves[..i];
  }

  /** What the controller's flag means, in terms of the bytes alone: it is paused
      exactly when the bytes in flight have reached the high-water mark and not
      come down to the low-water mark since. */
  lemma {:induction false} PausedExactly(moves: seq<Move>)
    ensures AfterAll(moves).Valid()
    ensures AfterAll(moves).paused <==> exists i :: OverSince(moves, i)
    decreases |moves|
  {
    hide OverSince;
    NowIsOver(moves);
    if moves == [] {
      assert forall i :: !OverSince(moves, i) by {
        forall i ensures !OverSince(moves, i) {
          StartsEmpty(i);
        }
      }
    } else {
      var front := moves[..|moves| - 1];
      PausedExactly(front);
      forall i: nat | i < |moves| ensures OverSince(moves, i) <==>
        OverSince(front, i) && AfterAll(moves).inFlight > FRAME_IN_FLIGHT_LOW_WATER_BYTES
      {
        OverSinceGrows(moves, i);
      }
      forall i: nat ensures OverSince(moves, i) ==> i <= |moves| && OverSince(front, i) ==> i < |moves| {
        OverSinceIsWithin(moves, i);
        OverSinceIsWithin(front, i);
      }
      if i: nat :| OverSince(front, i) {
        OverSinceIsWithin(front, i);
        assert OverSince(moves, i) <==> AfterAll(moves).inFlight > FRAME_IN_FLIGHT_LOW_WATER_BYTES;
      }
      if i: nat :| OverSince(moves, i) {
        OverSinceIsWithin(moves, i);
      }
    }
  }

  lemma OverSinceIsWithin(moves: seq<Move>, i: nat)
    ensures OverSince(moves, i) ==> i <= |moves|
  {
  }

  lemma StartsEmpty(i: nat)
    ensures !OverSince([], i)
  {
  }

  lemma NowIsOver(moves: seq<Move>)
    ensures OverSince(moves, |moves|) <==> AfterAll(moves).inFlight >= FRAME_IN_FLIGHT_HIGH_WATER_BYTES
  {
    hide AfterAll;
    assert moves[..|moves|] == moves;
  }

  datatype RangeError = RangeError

  class FrameFlowControl {
    var inFlightBytes: nat
    var paused: bool

    function State(): Flow
      reads this
    {
      Flow(inFlightBytes, paused)
    }

    constructor ()
      ensures State() == Flow(0, false)
    {
      inFlightBytes, paused := 0, false;
    }

    method Accept(bytes: int) returns (r: Result<Signal, RangeError>)
      modifies this
      ensures r.Err? <==> bytes < 0 || bytes > MAX_SAFE_INTEGER
      ensures r.Err? ==> State() == old(State())
      ensures r.Ok? ==> State() == After(old(State()), Accepts(bytes))
      ensures r == Ok(Pause) <==> paused && !old(paused)
      ensures r.Ok? ==> r.value != Resume
      ensures old(State()).Valid() ==> State().Valid()
    {
      if bytes < 0 || bytes > MAX_SAFE_INTEGER {
        return Err(RangeError);
      }
      inFlightBytes := inFlightBytes + bytes;
      if !paused && inFlightBytes >= FRAME_IN_FLIGHT_HIGH_WATER_BYTES {
        paused := true;
        return Ok(Pause);
      }
      return Ok(Quiet);
    }

    method Release(bytes: int) returns (r: Result<Signal, RangeError>)
      modifies this
      ensures r.Err? <==> bytes < 0 || bytes > MAX_SAFE_INTEGER || bytes > old(inFlightBytes)
      ensures r.Err? ==> State() == old(State())
      ensures r.Ok? ==> State() == After(old(State()), Releases(bytes))
      ensures r == Ok(Resume) <==> !paused && old(paused)
      ensures r.Ok? ==> r.value != Pause
      ensures old(State()).Valid() ==> State().Valid()
    {
      if bytes < 0 || bytes > MAX_SAFE_INTEGER || bytes > inFlightBytes {
        return Err(RangeError);
      }
      inFlightBytes := inFlightBytes - bytes;
      if paused && inFlightBytes <= FRAME_IN_FLIGHT_LOW_WATER_BYTES {
        paused := false;
        return Ok(Resume);
      }
      return Ok(Quiet);
    }
  }
}
