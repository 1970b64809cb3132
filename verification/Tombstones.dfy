/** Bounded evidence of why sessions ended (session.rs): one list ordered by
    last use, kept as a map and a queue, behind one removal choke point. */
module Tombstones {
  import opened Common

  type SessionId = string

  const TOMBSTONE_CAPACITY: nat := 128
  const TOMBSTONE_TTL_MS: nat := 24 * 60 * 60 * 1000

  datatype EndCause = Exited(code: Option<int>) | Closed

  datatype Tombstone = Tombstone(cause: EndCause, endedAt: u64)

  datatype Entry = Entry(id: SessionId, tombstone: Tombstone)

  /** A clock that ran backwards does not expire anything. */
  predicate Fresh(t: Tombstone, now: u64) {
    (if now >= t.endedAt then now - t.endedAt else 0) < TOMBSTONE_TTL_MS
  }

  /** Evidence lasts one day from the end it records. */
  lemma LastsADay(t: Tombstone, now: u64)
    ensures Fresh(t, now) <==> now < t.endedAt + 86_400_000
  {
  }

  // ---------------------------------------------------- the list, as a value

  function Ids(l: seq<Entry>): set<SessionId> {
    set i | 0 <= i < |l| :: l[i].id
  }

  ghost predicate Distinct(l: seq<Entry>) {
    forall i, j | 0 <= i < j < |l| :: l[i].id != l[j].id
  }

  function Unexpired(l: seq<Entry>, now: u64): seq<Entry> {
    if l == [] then []
    else Unexpired(l[..|l| - 1], now) + if Fresh(l[|l| - 1].tombstone, now) then [l[|l| - 1]] else []
  }

  function IndexOf(l: seq<Entry>, id: SessionId): (r: Option<nat>)
    ensures r.Some? ==> r.value < |l| && l[r.value].id == id
    ensures r.None? ==> id !in Ids(l)
  {
    if l == [] then None
    else if l[0].id == id then Some(0)
    else
      var r := IndexOf(l[1..], id);
      assert r.None? ==> forall i | 0 < i < |l| :: l[i] == l[1..][i - 1];
      if r.Some? then Some(r.value + 1) else None
  }

  /** Used last: to the back. */
  function Touched(l: seq<Entry>, id: SessionId): seq<Entry> {
    var at := IndexOf(l, id);
    if at.None? then l else l[..at.value] + l[at.value + 1..] + [l[at.value]]
  }

  /** Used longest ago: off the front. */
  function Capped(l: seq<Entry>): seq<Entry> {
    if |l| <= TOMBSTONE_CAPACITY then l else l[|l| - TOMBSTONE_CAPACITY..]
  }

  datatype Event =
    | Commit(id: SessionId, cause: EndCause, now: u64)
    | Lookup(id: SessionId, now: u64)
    | Count(now: u64)

  function After(l: seq<Entry>, e: Event): seq<Entry> {
    match e
    case Commit(id, cause, now) =>
      var live := Unexpired(l, now);
      if id in Ids(live) then live else Capped(live + [Entry(id, Tombstone(cause, now))])
    case Lookup(id, now) => Touched(Unexpired(l, now), id)
    case Count(now) => Unexpired(l, now)
  }

  function AfterAll(l: seq<Entry>, events: seq<Event>): seq<Entry> {
    if events == [] then l else After(AfterAll(l, events[..|events| - 1]), events[|events| - 1])
  }

  // -------------------------------------------------------- laws of the list

  lemma {:induction false} UnexpiredKeepsFresh(l: seq<Entry>, now: u64, e: Entry)
    ensures e in Unexpired(l, now) <==> e in l && Fresh(e.tombstone, now)
    decreases |l|
  {
    if l != [] {
      UnexpiredKeepsFresh(l[..|l| - 1], now, e);
      assert l == l[..|l| - 1] + [l[|l| - 1]];
    }
  }

  /** The use stamps of a list rise strictly: it is ordered by last use. */
  ghost predicate Ordered(l: seq<Entry>, stamp: map<SessionId, nat>) {
    && (forall i | 0 <= i < |l| :: l[i].id in stamp)
    && forall i, j | 0 <= i < j < |l| :: stamp[l[i].id] < stamp[l[j].id]
  }

  lemma OrderedIsDistinct(l: seq<Entry>, stamp: map<SessionId, nat>)
    requires Ordered(l, stamp)
    ensures Distinct(l)
  {
  }

  lemma {:induction false} UnexpiredKeepsOrder(l: seq<Entry>, now: u64, stamp: map<SessionId, nat>)
    requires Ordered(l, stamp)
    ensures Ordered(Unexpired(l, now), stamp)
    ensures |Unexpired(l, now)| <= |l|
    decreases |l|
  {
    if l != [] {
      var front, last := l[..|l| - 1], l[|l| - 1];
      UnexpiredKeepsOrder(front, now, stamp);
      forall i | 0 <= i < |Unexpired(front, now)|
        ensures stamp[Unexpired(front, now)[i].id] < stamp[last.id]
      {
        UnexpiredKeepsFresh(front, now, Unexpired(front, now)[i]);
      }
    }
  }

  /** An event uses an id when it finds it or writes it. */
  predicate Uses(l: seq<Entry>, e: Event, id: SessionId) {
    match e
    case Commit(k, _, now) => k == id && id !in Ids(Unexpired(l, now))
    case Lookup(k, now) => k == id && id in Ids(Unexpired(l, now))
    case Count(_) => false
  }

  /** When each id was last used, from the events alone. */
  ghost function Stamps(events: seq<Event>): map<SessionId, nat> {
    if events == [] then map[]
    else
      var before, e := events[..|events| - 1], events[|events| - 1];
      if !e.Count? && Uses(AfterAll([], before), e, e.id)
      then Stamps(before)[e.id := |events|]
      else Stamps(before)
  }

  lemma {:induction false} StampsAreBounded(events: seq<Event>, id: SessionId)
    requires id in Stamps(events)
    ensures Stamps(events)[id] <= |events|
    decreases |events|
  {
    if events != [] && id in Stamps(events[..|events| - 1]) {
      StampsAreBounded(events[..|events| - 1], id);
    }
  }

  lemma TouchKeepsOrder(l: seq<Entry>, id: SessionId, stamp: map<SessionId, nat>, n: nat)
    requires Ordered(l, stamp) && id in Ids(l)
    requires forall i | 0 <= i < |l| :: stamp[l[i].id] < n
    ensures Ordered(Touched(l, id), stamp[id := n])
    ensures |Touched(l, id)| == |l|
  {
    hide IndexOf, Ids;
    var at := IndexOf(l, id).value;
    var rest := l[..at] + l[at + 1..];
    forall i | 0 <= i < |rest| ensures rest[i].id != id {
    }
  }

  lemma EventKeepsOrder(l: seq<Entry>, e: Event, stamp: map<SessionId, nat>, n: nat)
    requires Ordered(l, stamp) && |l| <= TOMBSTONE_CAPACITY
    requires forall i | 0 <= i < |l| :: stamp[l[i].id] < n
    ensures Ordered(After(l, e), if !e.Count? && Uses(l, e, e.id) then stamp[e.id := n] else stamp)
    ensures |After(l, e)| <= TOMBSTONE_CAPACITY
  {
    hide IndexOf, Unexpired;
    UnexpiredKeepsOrder(l, e.now, stamp);
    var live := Unexpired(l, e.now);
    forall i | 0 <= i < |live| ensures stamp[live[i].id] < n {
      UnexpiredKeepsFresh(l, e.now, live[i]);
    }
    if e.Lookup? && e.id in Ids(live) {
      TouchKeepsOrder(live, e.id, stamp, n);
    }
  }

  /** Over any run, with any clock, the list holds at most its capacity and is
      ordered by last use; so no id is in it twice. */
  lemma {:induction false} RunsAreOrdered(events: seq<Event>)
    ensures Ordered(AfterAll([], events), Stamps(events)) && Distinct(AfterAll([], events))
    ensures |AfterAll([], events)| <= 128
    decreases |events|
  {
    hide After, Uses;
    if events != [] {
      var before, e := events[..|events| - 1], events[|events| - 1];
      RunsAreOrdered(before);
      var l, stamp := AfterAll([], before), Stamps(before);
      forall i | 0 <= i < |l| ensures stamp[l[i].id] < |events| {
        StampsAreBounded(before, l[i].id);
      }
      EventKeepsOrder(l, e, stamp, |events|);
      OrderedIsDistinct(AfterAll([], events), Stamps(events));
    }
  }

  /** The one entry a commit may push out of a list within capacity: the front
      of a full one. */
  predicate Evicts(l: seq<Entry>, e: Event, x: Entry) {
    var live := Unexpired(l, e.now);
    e.Commit? && e.id !in Ids(live) && |live| == TOMBSTONE_CAPACITY && x == live[0]
  }

  /** An entry stays until it expires or is the least recently used of a full
      list that must take another; and it changes in no other way. */
  lemma StaysUntilDue(l: seq<Entry>, e: Event, x: Entry)
    requires |l| <= TOMBSTONE_CAPACITY && x in l
    requires Fresh(x.tombstone, e.now) && !Evicts(l, e, x)
    ensures x in After(l, e)
  {
    hide IndexOf, Ids, Unexpired;
    UnexpiredKeepsFresh(l, e.now, x);
    UnexpiredShrinks(l, e.now);
    var live := Unexpired(l, e.now);
    var i :| 0 <= i < |live| && live[i] == x;
    match e
    case Commit(id, cause, now) =>
      if id !in Ids(live) {
        var grown := live + [Entry(id, Tombstone(cause, now))];
        var off := if |grown| > TOMBSTONE_CAPACITY then 1 else 0;
        assert Capped(grown)[i - off] == grown[i];
      }
    case Lookup(id, _) =>
      var at := IndexOf(live, id);
      if at.Some? {
        var touched := Touched(live, id);
        var now := if i < at.value then i else if i == at.value then |touched| - 1 else i - 1;
        assert touched[now] == x;
      }
    case Count(_) =>
  }

  lemma {:induction false} UnexpiredShrinks(l: seq<Entry>, now: u64)
    ensures |Unexpired(l, now)| <= |l|
    decreases |l|
  {
    if l != [] {
      UnexpiredShrinks(l[..|l| - 1], now);
    }
  }

  /** Nothing enters the list but a commit of an id it does not retain. */
  lemma EnteredOnlyByCommit(l: seq<Entry>, e: Event, x: Entry)
    requires x in After(l, e) && x !in l
    ensures e.Commit? && x == Entry(e.id, Tombstone(e.cause, e.now)) && e.id !in Ids(Unexpired(l, e.now))
  {
    forall y: Entry ensures y in Unexpired(l, e.now) ==> y in l {
      UnexpiredKeepsFresh(l, e.now, y);
    }
  }

  /** Every event leaves only fresh entries, and a commit is retained. */
  lemma WhatIsLeftIsFresh(l: seq<Entry>, e: Event, x: Entry)
    requires x in After(l, e)
    ensures Fresh(x.tombstone, e.now)
  {
    UnexpiredKeepsFresh(l, e.now, x);
    assert x in Unexpired(l, e.now) || (e.Commit? && x == Entry(e.id, Tombstone(e.cause, e.now)));
  }

  /** Over a run: a retained tombstone was written by one commit, and from that
      commit to the end the id was retained throughout, so every commit of it
      since was refused. The first writer stands. */
  lemma {:induction false} FirstWriterStands(events: seq<Event>, x: Entry) returns (k: nat)
    requires x in AfterAll([], events)
    ensures k < |events| && events[k] == Commit(x.id, x.tombstone.cause, x.tombstone.endedAt)
    ensures x !in AfterAll([], events[..k])
    ensures forall j | k < j <= |events| :: x in AfterAll([], events[..j])
    decreases |events|
  {
    hide After, Ids, Unexpired;
    assert events[..|events|] == events;
    var before, e := events[..|events| - 1], events[|events| - 1];
    if x in AfterAll([], before) {
      k := FirstWriterStands(before, x);
      assert before[..k] == events[..k];
      forall j | k < j <= |events| ensures x in AfterAll([], events[..j]) {
        if j < |events| {
          assert before[..j] == events[..j];
        }
      }
    } else {
      EnteredOnlyByCommit(AfterAll([], before), e, x);
      k := |events| - 1;
    }
  }
}
