/** Fan-out of terminal frames with bounded loss attribution (frame_hub.rs). */
module FrameHub {
  import opened Common
  import opened Framing

  datatype FramePacket = FramePacket(ordinal: u64, handle: u64, bytes: seq<byte>)

  datatype FrameMetadata = FrameMetadata(ordinal: u64, handle: u64)

  /** Everything ever published, numbered from one without gaps. */
  ghost predicate Numbered(sent: seq<FramePacket>) {
    |sent| <= U64_MAX && forall i | 0 <= i < |sent| :: sent[i].ordinal == i + 1
  }

  function Metadata(sent: seq<FramePacket>): seq<FrameMetadata> {
    seq(|sent|, i requires 0 <= i < |sent| => FrameMetadata(sent[i].ordinal, sent[i].handle))
  }

  /** The last `capacity` of them. */
  function Window(sent: seq<FramePacket>, capacity: nat): seq<FrameMetadata> {
    var all := Metadata(sent);
    if |all| <= capacity then all else all[|all| - capacity..]
  }

  // ------------------------------------------------------------- attribution

  predicate Lost(m: FrameMetadata, first: u64, last: u64, starts: map<u64, u64>) {
    first <= m.ordinal <= last && m.handle in starts && m.ordinal > starts[m.handle]
  }

  predicate Covers(history: seq<FrameMetadata>, first: u64, last: u64) {
    history != [] && history[0].ordinal <= first && history[|history| - 1].ordinal >= last
  }

  /** Which subscriptions a gap may have cost a frame, and whether the history
      was enough to say so exactly. */
  function Affected(history: seq<FrameMetadata>, first: u64, last: u64, starts: map<u64, u64>): (set<u64>, bool) {
    if first > last || starts == map[] then ({}, true)
    else
      var seen := set i | 0 <= i < |history| && Lost(history[i], first, last, starts) :: history[i].handle;
      if Covers(history, first, last) then (seen, true)
      else (seen + (set h | h in starts && last > starts[h] :: h), false)
  }

  /** The subscriptions that really lost a published frame in the gap. */
  ghost function LostHandles(sent: seq<FramePacket>, first: u64, last: u64, starts: map<u64, u64>): set<u64> {
    set i | 0 <= i < |sent| && first <= sent[i].ordinal <= last
            && sent[i].handle in starts && starts[sent[i].handle] < sent[i].ordinal :: sent[i].handle
  }

  /** With enough history the attribution is exact; without it, it is every
      subscription that had started before the end of the gap, which includes
      every one that lost a frame. */
  lemma GapAttribution(sent: seq<FramePacket>, capacity: nat, first: u64, last: u64, starts: map<u64, u64>)
    requires Numbered(sent)
    ensures var (affected, complete) := Affected(Window(sent, capacity), first, last, starts);
      && (complete ==> affected == LostHandles(sent, first, last, starts))
      && (!complete ==> affected == set h | h in starts && starts[h] < last :: h)
      && LostHandles(sent, first, last, starts) <= affected
  {
    var window := Window(sent, capacity);
    var seen := set i | 0 <= i < |window| && Lost(window[i], first, last, starts) :: window[i].handle;
    assert seen <= LostHandles(sent, first, last, starts);
    forall i | 0 <= i < |sent| && Covers(window, first, last) && first <= sent[i].ordinal <= last
      ensures window[i - |sent| + |window|] == FrameMetadata(sent[i].ordinal, sent[i].handle)
    {
    }
  }

  /** Exactly when the history is enough: there is nothing to attribute, or the
      gap lies within the retained ordinals. */
  lemma CompleteExactly(sent: seq<FramePacket>, capacity: nat, first: u64, last: u64, starts: map<u64, u64>)
    requires Numbered(sent)
    ensures Affected(Window(sent, capacity), first, last, starts).1 <==>
      || first > last || starts == map[]
      || (0 < |sent| && 0 < capacity && |sent| - capacity < first && 0 < first && last <= |sent|)
  {
  }

  // ----------------------------------------------------------------- sorting

  ghost predicate Ascending(s: seq<u64>) {
    forall i, j | 0 <= i < j < |s| :: s[i] < s[j]
  }

  predicate Least(s: set<u64>, m: u64) {
    m in s && forall x | x in s :: m <= x
  }

  lemma {:induction false} LeastExists(s: set<u64>)
    requires s != {}
    ensures exists m :: Least(s, m)
    decreases s
  {
    var any :| any in s;
    var others := s - {any};
    assert forall x | x in s :: x == any || x in others;
    if others == {} {
      assert Least(s, any);
    } else {
      LeastExists(others);
      var m :| Least(others, m);
      assert Least(s, if any < m then any else m);
    }
  }

  function TheLeast(s: set<u64>): (m: u64)
    requires s != {}
    ensures Least(s, m)
  {
    LeastExists(s);
    var m :| Least(s, m);
    m
  }

  function Sorted(s: set<u64>): seq<u64>
    decreases s
  {
    if s == {} then [] else [TheLeast(s)] + Sorted(s - {TheLeast(s)})
  }

  lemma {:induction false} SortedHolds(s: set<u64>, x: u64)
    ensures x in Sorted(s) <==> x in s
    decreases s
  {
    if s != {} {
      SortedHolds(s - {TheLeast(s)}, x);
    }
  }

  lemma {:induction false} SortedIsAscending(s: set<u64>)
    ensures Ascending(Sorted(s))
    decreases s
  {
    if s != {} {
      var m, rest := TheLeast(s), s - {TheLeast(s)};
      SortedIsAscending(rest);
      forall j | 0 <= j < |Sorted(rest)|
        ensures m < Sorted(rest)[j]
      {
        SortedHolds(rest, Sorted(rest)[j]);
      }
    }
  }

  // -------------------------------------------------------------------- hub

  /** `frame_u64`: eight little-endian bytes, if the frame has them. */
  function FrameU64(frame: seq<byte>, offset: nat): (r: Option<u64>)
    ensures r.None? <==> |frame| < offset + 8
  {
    if |frame| < offset + 8 then None
    else
      ValueRoundTrip(frame[offset..offset + 8]);
      EightBytes();
      Some(Value(frame[offset..offset + 8]))
  }

  lemma EightBytes()
    ensures Radix(8) == U64_MAX + 1
  {
    FourBytes();
    assert Radix(5) == 256 * Radix(4) && Radix(6) == 256 * Radix(5) && Radix(7) == 256 * Radix(6);
  }

  lemma MetadataGrows(sent: seq<FramePacket>, p: FramePacket)
    ensures Metadata(sent + [p]) == Metadata(sent) + [FrameMetadata(p.ordinal, p.handle)]
  {
  }

  lemma WindowGrows(sent: seq<FramePacket>, capacity: nat, p: FramePacket)
    ensures |Window(sent, capacity)| <= capacity
    ensures var all := Window(sent, capacity) + [FrameMetadata(p.ordinal, p.handle)];
      Window(sent + [p], capacity) == if |all| <= capacity then all else all[|all| - capacity..]
  {
    MetadataGrows(sent, p);
  }

  lemma EnqueuedFollows(queues: seq<seq<FramePacket>>, sent: seq<FramePacket>, baselines: seq<nat>, p: FramePacket)
    requires |baselines| == |queues|
    requires forall k | 0 <= k < |queues| :: baselines[k] <= |sent| && queues[k] == sent[baselines[k]..]
    ensures |Enqueued(queues, p)| == |queues|
    ensures forall k | 0 <= k < |queues| :: Enqueued(queues, p)[k] == (sent + [p])[baselines[k]..]
  {
  }

  lemma {:induction false} NamedGrows(frames: seq<seq<byte>>, n: nat)
    requires n <= |frames|
    ensures |Named(frames[..n])| <= |Named(frames)|
    decreases |frames| - n
  {
    if n == |frames| {
      assert frames[..n] == frames;
    } else {
      NamedGrows(frames, n + 1);
      assert frames[..n + 1][..n] == frames[..n];
    }
  }

  datatype Publication = Skipped | Published(ordinal: u64) | OrdinalOverflow

  /** The frames long enough to name their session. */
  function Named(frames: seq<seq<byte>>): seq<seq<byte>>
    decreases |frames|
  {
    if frames == [] then []
    else Named(frames[..|frames| - 1]) + if |frames[|frames| - 1]| < 16 then [] else [frames[|frames| - 1]]
  }

  function Enqueued(queues: seq<seq<FramePacket>>, p: FramePacket): seq<seq<FramePacket>> {
    seq(|queues|, k requires 0 <= k < |queues| => queues[k] + [p])
  }

  class Hub {
    const historyCapacity: nat
    var nextOrdinal: u64
    var history: seq<FrameMetadata>
    var receivers: seq<seq<FramePacket>>    // what the broadcast has put to each subscriber
    ghost var sent: seq<FramePacket>
    ghost var baselines: seq<nat>           // the ordinal each subscriber was given

    ghost predicate Valid()
      reads this
    {
      && Numbered(sent) && nextOrdinal == |sent| && history == Window(sent, historyCapacity)
      && |baselines| == |receivers|
      && forall k | 0 <= k < |receivers| :: baselines[k] <= |sent| && receivers[k] == sent[baselines[k]..]
    }

    constructor (historyCapacity: nat)
      ensures Valid() && sent == [] && receivers == [] && this.historyCapacity == historyCapacity
    {
      this.historyCapacity := historyCapacity;
      nextOrdinal, history, receivers, sent, baselines := 0, [], [], [], [];
    }

    method Remember(m: FrameMetadata)
      requires |history| <= historyCapacity
      modifies this`history
      ensures var all := old(history) + [m];
        history == if |all| <= historyCapacity then all else all[|all| - historyCapacity..]
    {
      history := history + [m];
      ghost var all := history;
      while |history| > historyCapacity
        invariant |history| <= |all| && history == all[|all| - |history|..]
        invariant |history| >= historyCapacity || history == all
        decreases |history|
      {
        history := history[1..];
      }
    }

    /** A frame too short to name its session is dropped; the ordinal counter
        panics rather than wrap. */
    method Publish(frame: seq<byte>) returns (r: Publication)
      requires Valid()
      modifies this`nextOrdinal, this`history, this`receivers, this`sent
      ensures Valid() && |receivers| == |old(receivers)|
      ensures r.Skipped? <==> |frame| < 16
      ensures r.OrdinalOverflow? <==> |frame| >= 16 && old(|sent|) == U64_MAX
      ensures match r
        case Published(ordinal) =>
          sent == old(sent) + [FramePacket(ordinal, FrameU64(frame, 8).value, frame)] && ordinal == |sent|
        case _ => sent == old(sent) && history == old(history)
    {
      hide FrameU64, Metadata, Window, Enqueued;
      var handle := FrameU64(frame, 8);
      if handle.None? {
        return Skipped;
      }
      if nextOrdinal == U64_MAX {
        return OrdinalOverflow;
      }
      nextOrdinal := nextOrdinal + 1;
      var p := FramePacket(nextOrdinal, handle.value, frame);
      WindowGrows(sent, historyCapacity, p);
      Remember(FrameMetadata(p.ordinal, p.handle));
      EnqueuedFollows(receivers, sent, baselines, p);
      receivers := Enqueued(receivers, p);
      sent := sent + [p];
      return Published(nextOrdinal);
    }

    /** No packet can land between the receiver's place in the broadcast and the
        ordinal it is given. */
    method Subscribe() returns (k: nat, baseline: u64)
      requires Valid()
      modifies this`receivers, this`baselines
      ensures Valid()
      ensures k == |old(receivers)| && receivers == old(receivers) + [[]]
      ensures baselines == old(baselines) + [baseline as int]
    {
      k, baseline := |receivers|, nextOrdinal;
      receivers := receivers + [[]];
      baselines := baselines + [baseline];
    }

    /** A subscriber receives every packet published since, whole, once and in
        order, and they are numbered from one past its baseline. */
    method SubscriberReceivesAll(frames: seq<seq<byte>>) returns (k: nat, baseline: u64, panicked: bool)
      requires Valid()
      modifies this
      ensures Valid() && k < |receivers|
      ensures panicked <==> old(|sent|) + |Named(frames)| > U64_MAX
      ensures !panicked ==>
        && |receivers[k]| == |Named(frames)|
        && forall i | 0 <= i < |Named(frames)| ::
             && receivers[k][i].ordinal == baseline + 1 + i
             && receivers[k][i].bytes == Named(frames)[i]
             && FrameU64(Named(frames)[i], 8) == Some(receivers[k][i].handle)
    {
      hide FrameU64, Metadata, Window;
      k, baseline := Subscribe();
      assert frames[..|frames|] == frames;
      for i := 0 to |frames|
        invariant Valid() && k < |receivers| && baselines[k] == baseline == old(|sent|)
        invariant |sent| == baseline + |Named(frames[..i])|
        invariant forall j | 0 <= j < |Named(frames[..i])| ::
          sent[baseline + j].bytes == Named(frames[..i])[j]
          && FrameU64(Named(frames[..i])[j], 8) == Some(sent[baseline + j].handle)
      {
        assert frames[..i + 1][..i] == frames[..i];
        var r := Publish(frames[i]);
        if r.OrdinalOverflow? {
          NamedGrows(frames, i + 1);
          return k, baseline, true;
        }
      }
      panicked := false;
    }

    method AffectedHandles(first: u64, last: u64, starts: map<u64, u64>) returns (affected: seq<u64>, complete: bool)
      requires Valid()
      ensures affected == Sorted(Affected(history, first, last, starts).0)
      ensures complete == Affected(history, first, last, starts).1
      ensures Ascending(affected)
      ensures complete ==> forall h :: h in affected <==> h in LostHandles(sent, first, last, starts)
      ensures !complete ==> forall h :: h in affected <==> h in starts && starts[h] < last
    {
      GapAttribution(sent, historyCapacity, first, last, starts);
      hide Metadata, Window, LostHandles, Numbered;
      ghost var expected := Affected(history, first, last, starts).0;
      SortedIsAscending(expected);
      forall h ensures h in Sorted(expected) <==> h in expected {
        SortedHolds(expected, h);
      }
      if first > last || starts == map[] {
        return [], true;
      }
      complete := |history| > 0 && history[0].ordinal <= first && history[|history| - 1].ordinal >= last;
      var handles: set<u64> := {};
      for i := 0 to |history|
        invariant handles == set j | 0 <= j < i && Lost(history[j], first, last, starts) :: history[j].handle
      {
        if Lost(history[i], first, last, starts) {
          handles := handles + {history[i].handle};
        }
      }
      if !complete {
        handles := handles + (set h | h in starts && last > starts[h] :: h);
      }
      affected := Sorted(handles);
    }
  }
}
