/** The tombstone store as the service keeps it, and the registry's single
    removal choke point in front of it (session.rs). */
module TombstoneStore {
  import opened Common
  import opened Tombstones

  function Names(l: seq<Entry>): (r: seq<SessionId>)
    ensures |r| == |l|
  {
    seq(|l|, i requires 0 <= i < |l| => l[i].id)
  }

  /** `VecDeque::retain` on the ids a map still holds. */
  function Retained(queue: seq<SessionId>, m: map<SessionId, Tombstone>): seq<SessionId> {
    if queue == [] then []
    else Retained(queue[..|queue| - 1], m) + if queue[|queue| - 1] in m then [queue[|queue| - 1]] else []
  }

  /** Retaining the ids of fresh entries keeps the names of the unexpired list. */
  lemma {:induction false} RetainedIsUnexpired(l: seq<Entry>, m: map<SessionId, Tombstone>, now: u64)
    requires forall i | 0 <= i < |l| :: l[i].id in m <==> Fresh(l[i].tombstone, now)
    ensures Retained(Names(l), m) == Names(Unexpired(l, now))
    decreases |l|
  {
    if l != [] {
      var front := l[..|l| - 1];
      RetainedIsUnexpired(front, m, now);
      assert Names(l)[..|l| - 1] == Names(front);
    }
  }

  lemma {:induction false} UnexpiredKeepsDistinct(l: seq<Entry>, now: u64)
    requires Distinct(l)
    ensures Distinct(Unexpired(l, now)) && |Unexpired(l, now)| <= |l|
    decreases |l|
  {
    if l != [] {
      var front, last := l[..|l| - 1], l[|l| - 1];
      UnexpiredKeepsDistinct(front, now);
      forall i | 0 <= i < |Unexpired(front, now)|
        ensures Unexpired(front, now)[i].id != last.id
      {
        UnexpiredKeepsFresh(front, now, Unexpired(front, now)[i]);
      }
    }
  }

  /** A map and a queue hold this list. */
  ghost predicate Holds(byId: map<SessionId, Tombstone>, recency: seq<SessionId>, l: seq<Entry>) {
    && Distinct(l) && recency == Names(l)
    && (forall i | 0 <= i < |l| :: l[i].id in byId && byId[l[i].id] == l[i].tombstone)
    && (forall id | id in byId :: Entry(id, byId[id]) in l)
  }

  function Pruned(byId: map<SessionId, Tombstone>, now: u64): map<SessionId, Tombstone> {
    map id | id in byId && Fresh(byId[id], now) :: byId[id]
  }

  lemma PrunedHoldsUnexpired(byId: map<SessionId, Tombstone>, recency: seq<SessionId>, l: seq<Entry>, now: u64)
    requires Holds(byId, recency, l)
    ensures Holds(Pruned(byId, now), Retained(recency, Pruned(byId, now)), Unexpired(l, now))
  {
    var m, live := Pruned(byId, now), Unexpired(l, now);
    UnexpiredKeepsDistinct(l, now);
    RetainedIsUnexpired(l, m, now);
    forall i | 0 <= i < |live|
      ensures live[i].id in m && m[live[i].id] == live[i].tombstone
    {
      UnexpiredKeepsFresh(l, now, live[i]);
    }
    forall id | id in m
      ensures Entry(id, m[id]) in live
    {
      UnexpiredKeepsFresh(l, now, Entry(id, m[id]));
    }
  }

  lemma MovedIsDistinct(l: seq<Entry>, at: nat)
    requires Distinct(l) && at < |l|
    ensures Distinct(l[..at] + l[at + 1..] + [l[at]])
    ensures Names(l[..at] + l[at + 1..] + [l[at]]) == Names(l)[..at] + Names(l)[at + 1..] + [Names(l)[at]]
  {
  }

  lemma MovedHolds(byId: map<SessionId, Tombstone>, recency: seq<SessionId>, l: seq<Entry>, at: nat)
    requires Holds(byId, recency, l) && at < |recency|
    ensures Holds(byId, recency[..at] + recency[at + 1..] + [recency[at]], l[..at] + l[at + 1..] + [l[at]])
  {
    hide Names, Distinct;
    var moved := l[..at] + l[at + 1..] + [l[at]];
    MovedIsDistinct(l, at);
    forall i | 0 <= i < |moved|
      ensures moved[i].id in byId && byId[moved[i].id] == moved[i].tombstone
    {
      assert moved[i] == l[if i < at then i else if i == |l| - 1 then at else i + 1];
    }
    forall id | id in byId ensures Entry(id, byId[id]) in moved {
      var k :| 0 <= k < |l| && l[k] == Entry(id, byId[id]);
      assert moved[if k < at then k else if k == at then |l| - 1 else k - 1] == l[k];
    }
  }

  /** What a search of the queue for an id found. */
  lemma NamesFind(l: seq<Entry>, id: SessionId, at: nat)
    requires Distinct(l) && at <= |l| && id !in Names(l)[..at]
    requires at < |l| ==> Names(l)[at] == id
    ensures at == |l| ==> Touched(l, id) == l
    ensures at < |l| ==> Touched(l, id) == l[..at] + l[at + 1..] + [l[at]]
  {
    if at < |l| {
      TouchedPresent(l, at);
    } else {
      forall k | 0 <= k < |l| ensures l[k].id != id {
        assert Names(l)[..at][k] == l[k].id;
      }
      TouchedAbsent(l, id);
    }
  }

  lemma TouchedPresent(l: seq<Entry>, at: nat)
    requires Distinct(l) && at < |l|
    ensures Touched(l, l[at].id) == l[..at] + l[at + 1..] + [l[at]]
  {
    AtIndex(l, at);
  }

  lemma TouchedAbsent(l: seq<Entry>, id: SessionId)
    requires forall k | 0 <= k < |l| :: l[k].id != id
    ensures Touched(l, id) == l
  {
  }

  lemma {:induction false} AtIndex(l: seq<Entry>, at: nat)
    requires Distinct(l) && at < |l|
    ensures IndexOf(l, l[at].id) == Some(at)
  {
    var r := IndexOf(l, l[at].id);
    assert l[at].id in Ids(l);
    assert r.value == at;
  }

  lemma DroppedFrontHolds(byId: map<SessionId, Tombstone>, recency: seq<SessionId>, l: seq<Entry>)
    requires Holds(byId, recency, l) && l != []
    ensures Holds(byId - {recency[0]}, recency[1..], l[1..])
  {
    assert Names(l[1..]) == recency[1..];
    hide Names;
    assert recency[0] == l[0].id;
    forall id | id in byId - {recency[0]} ensures Entry(id, byId[id]) in l[1..] {
      var i :| 0 <= i < |l| && l[i] == Entry(id, byId[id]);
      assert l[1..][i - 1] == l[i];
    }
  }

  lemma AddedHolds(byId: map<SessionId, Tombstone>, recency: seq<SessionId>, l: seq<Entry>, e: Entry)
    requires Holds(byId, recency, l) && e.id !in byId
    ensures Holds(byId[e.id := e.tombstone], recency + [e.id], l + [e])
  {
    assert Names(l + [e]) == recency + [e.id];
    assert forall x | x in l :: x in l + [e];
    assert (l + [e])[|l|] == e;
  }

  /** The map and the queue hold the same ids, each once. */
  lemma HoldsSameIds(byId: map<SessionId, Tombstone>, recency: seq<SessionId>, l: seq<Entry>)
    requires Holds(byId, recency, l)
    ensures forall id :: id in recency <==> id in byId
    ensures forall id :: id in Ids(l) <==> id in byId
    ensures forall i, j | 0 <= i < j < |recency| :: recency[i] != recency[j]
    ensures |byId| == |recency| == |l|
  {
    forall id | id in byId ensures id in recency && id in Ids(l) {
      var k :| 0 <= k < |l| && l[k] == Entry(id, byId[id]);
      assert recency[k] == id && l[k].id == id;
    }
    CountDistinct(recency, byId.Keys);
  }

  lemma {:induction false} CountDistinct(names: seq<SessionId>, ids: set<SessionId>)
    requires forall i, j | 0 <= i < j < |names| :: names[i] != names[j]
    requires forall id :: id in names <==> id in ids
    ensures |ids| == |names|
    decreases |names|
  {
    if names == [] {
      assert ids == {};
    } else {
      assert names == [names[0]] + names[1..];
      CountDistinct(names[1..], ids - {names[0]});
    }
  }

  lemma FrontEvicted(byId: map<SessionId, Tombstone>, recency: seq<SessionId>, l: seq<Entry>)
    requires Holds(byId, recency, l) && l != []
    ensures |recency| == |l| && Holds(byId - {recency[0]}, recency[1..], l[1..])
    ensures |byId - {recency[0]}| == |l| - 1
  {
    DroppedFrontHolds(byId, recency, l);
    HoldsSameIds(byId - {recency[0]}, recency[1..], l[1..]);
  }

  class TombstoneEntries {
    var byId: map<SessionId, Tombstone>
    var recency: seq<SessionId>
    ghost var list: seq<Entry>

    ghost predicate Valid()
      reads this
    {
      Holds(byId, recency, list) && |list| <= TOMBSTONE_CAPACITY
    }

    constructor ()
      ensures Valid() && list == []
    {
      byId, recency, list := map[], [], [];
    }

    method RetainKnown()
      modifies this`recency
      ensures recency == Retained(old(recency), byId)
    {
      var kept := [];
      for i := 0 to |recency|
        invariant recency == old(recency) && kept == Retained(recency[..i], byId)
      {
        assert recency[..i + 1][..i] == recency[..i];
        if recency[i] in byId {
          kept := kept + [recency[i]];
        }
      }
      assert recency[..|recency|] == recency;
      recency := kept;
    }

    method Expire(now: u64)
      requires Valid()
      modifies this
      ensures Valid() && list == Unexpired(old(list), now)
    {
      UnexpiredShrinks(list, now);
      PrunedHoldsUnexpired(byId, recency, list, now);
      HoldsSameIds(byId, recency, list);
      if byId == map[] {
        assert |recency| == 0 && |list| == 0;
        return;
      }
      byId := Pruned(byId, now);
      list := Unexpired(list, now);
      RetainKnown();
    }

    method Touch(id: SessionId)
      requires Valid()
      modifies this`recency, this`list
      ensures Valid() && list == Touched(old(list), id)
    {
      hide Touched, IndexOf, Ids;
      var position := 0;
      while position < |recency| && recency[position] != id
        invariant position <= |recency|
        invariant forall k | 0 <= k < position :: recency[k] != id
      {
        position := position + 1;
      }
      NamesFind(list, id, position);
      if position == |recency| {
        return;
      }
      MovedHolds(byId, recency, list, position);
      var moved := recency[position];
      recency := recency[..position] + recency[position + 1..];
      recency := recency + [moved];
      list := Touched(list, id);
    }

    /** Evict from the front while the map is over capacity. */
    method Evict()
      requires Holds(byId, recency, list)
      modifies this
      ensures Valid() && list == Capped(old(list))
    {
      hide Holds;
      HoldsSameIds(byId, recency, list);
      ghost var start, off := list, 0;
      while |byId| > TOMBSTONE_CAPACITY && |recency| > 0
        invariant Holds(byId, recency, list) && |byId| == |recency| == |list|
        invariant off <= |start| && list == start[off..]
        invariant off > 0 ==> |list| >= TOMBSTONE_CAPACITY
        decreases |recency|
      {
        FrontEvicted(byId, recency, list);
        var evicted := recency[0];
        recency := recency[1..];
        byId := byId - {evicted};
        assert start[off..][1..] == start[off + 1..];
        list := list[1..];
        off := off + 1;
      }
    }
  }

  // ------------------------------------------------------- the choke point

  /** What is known of a session's process when it leaves the registry. */
  datatype Evidence = Evidence(exited: bool, code: Option<int>)

  /** An observed exit wins, whatever path removes the session. */
  function CauseOf(e: Evidence): EndCause {
    if e.exited then Exited(e.code) else Closed
  }

  datatype SessionStatus = Live | Ended(cause: EndCause) | Unknown

  datatype Request =
    | Registers(id: SessionId)
    | Exits(id: SessionId)
    | Stamps(id: SessionId, code: Option<int>)
    | Removes(id: SessionId, now: u64)
    | Asks(id: SessionId, now: u64)
    | Counts(now: u64)

  /** Every commit carries the cause its removal's evidence decided. */
  ghost predicate Recorded(events: seq<Event>, evidence: map<nat, Evidence>) {
    forall k | 0 <= k < |events| && events[k].Commit? ::
      k in evidence && events[k].cause == CauseOf(evidence[k])
  }

  lemma RecordedAppends(events: seq<Event>, evidence: map<nat, Evidence>, e: Event, known: Evidence)
    requires Recorded(events, evidence) && (e.Commit? ==> e.cause == CauseOf(known))
    ensures Recorded(events + [e], evidence[|events| := known])
    ensures !e.Commit? ==> Recorded(events + [e], evidence)
  {
  }

  /** The registry after a request. */
  function Registry(sessions: map<SessionId, Evidence>, q: Request): map<SessionId, Evidence> {
    match q
    case Registers(id) => sessions[id := Evidence(false, None)]
    case Exits(id) => if id in sessions then sessions[id := Evidence(true, sessions[id].code)] else sessions
    case Stamps(id, code) => if id in sessions then sessions[id := Evidence(sessions[id].exited, code)] else sessions
    case Removes(id, _) => sessions - {id}
    case _ => sessions
  }

  /** What it asks of the store: the end of a session it removes, the fate of one
      it does not know, how many there are. */
  function AskedOfStore(sessions: map<SessionId, Evidence>, q: Request): seq<Event> {
    match q
    case Removes(id, now) => if id in sessions then [Commit(id, CauseOf(sessions[id]), now)] else []
    case Asks(id, now) => if id in sessions then [] else [Lookup(id, now)]
    case Counts(now) => [Count(now)]
    case _ => []
  }

  function RegistryAfter(sessions: map<SessionId, Evidence>, requests: seq<Request>): map<SessionId, Evidence>
    decreases |requests|
  {
    if requests == [] then sessions
    else Registry(RegistryAfter(sessions, requests[..|requests| - 1]), requests[|requests| - 1])
  }

  class Host {
    var sessions: map<SessionId, Evidence>
    const entries: TombstoneEntries
    ghost var events: seq<Event>              // everything asked of the store
    ghost var evidence: map<nat, Evidence>    // what each removal knew, by its event

    ghost predicate Valid()
      reads this, entries
    {
      && entries.Valid()
      && entries.list == AfterAll([], events)
      && Recorded(events, evidence)
    }

    constructor ()
      ensures Valid() && sessions == map[] && events == [] && fresh(entries)
    {
      sessions := map[];
      entries := new TombstoneEntries();
      events, evidence := [], map[];
    }

    method Register(id: SessionId)
      requires Valid()
      modifies this`sessions
      ensures Valid() && sessions == old(sessions)[id := Evidence(false, None)]
    {
      sessions := sessions[id := Evidence(false, None)];
    }

    /** The reader saw end of file; the code is stamped later, if at all. */
    method ObserveExit(id: SessionId)
      requires Valid() && id in sessions
      modifies this`sessions
      ensures Valid() && sessions == old(sessions)[id := old(sessions)[id].(exited := true)]
    {
      sessions := sessions[id := sessions[id].(exited := true)];
    }

    method StampExitCode(id: SessionId, code: Option<int>)
      requires Valid() && id in sessions
      modifies this`sessions
      ensures Valid() && sessions == old(sessions)[id := old(sessions)[id].(code := code)]
    {
      sessions := sessions[id := sessions[id].(code := code)];
    }

    /** The event the store runs, and its place in the history. */
    lemma EventAppended(e: Event)
      ensures AfterAll([], events + [e]) == After(AfterAll([], events), e)
    {
      assert (events + [e])[..|events|] == events;
    }

    method RemoveWithCause(id: SessionId, now: u64) returns (removed: Option<Evidence>)
      requires Valid()
      modifies this`sessions, this`events, this`evidence, entries
      ensures Valid()
      ensures removed == if id in old(sessions) then Some(old(sessions)[id]) else None
      ensures sessions == old(sessions) - {id}
      ensures removed.None? ==> entries.list == old(entries.list) && events == old(events) && evidence == old(evidence)
      ensures removed.Some? ==>
        && events == old(events) + [Commit(id, CauseOf(removed.value), now)]
        && evidence == old(evidence)[|old(events)| := removed.value]
    {
      hide Holds, Recorded;
      if id !in sessions {
        return None;
      }
      removed := Some(sessions[id]);
      sessions := sessions - {id};
      var cause := if removed.value.exited then Exited(removed.value.code) else Closed;
      EventAppended(Commit(id, cause, now));
      RecordedAppends(events, evidence, Commit(id, cause, now), removed.value);
      RecordEnd(id, cause, now);
      evidence := evidence[|events| := removed.value];
      events := events + [Commit(id, cause, now)];
    }

    /** `commit`: the first writer's tombstone stands. */
    method RecordEnd(id: SessionId, cause: EndCause, now: u64)
      requires entries.Valid()
      modifies entries
      ensures entries.Valid() && entries.list == After(old(entries.list), Commit(id, cause, now))
    {
      entries.Expire(now);
      HoldsSameIds(entries.byId, entries.recency, entries.list);
      if id in entries.byId {
        return;
      }
      AddedHolds(entries.byId, entries.recency, entries.list, Entry(id, Tombstone(cause, now)));
      entries.byId := entries.byId[id := Tombstone(cause, now)];
      entries.recency := entries.recency + [id];
      entries.list := entries.list + [Entry(id, Tombstone(cause, now))];
      entries.Evict();
    }

    method LookupTombstone(id: SessionId, now: u64) returns (r: Option<Tombstone>)
      requires Valid()
      modifies this`events, entries
      ensures Valid() && events == old(events) + [Lookup(id, now)]
      ensures r.Some? <==> id in Ids(Unexpired(old(entries.list), now))
      ensures r.Some? ==> Entry(id, r.value) in Unexpired(old(entries.list), now)
    {
      EventAppended(Lookup(id, now));
      entries.Expire(now);
      HoldsSameIds(entries.byId, entries.recency, entries.list);
      events := events + [Lookup(id, now)];
      if id !in entries.byId {
        TouchedMissing(entries.list, id);
        return None;
      }
      r := Some(entries.byId[id]);
      entries.Touch(id);
    }

    lemma TouchedMissing(l: seq<Entry>, id: SessionId)
      requires id !in Ids(l)
      ensures Touched(l, id) == l
    {
      forall k | 0 <= k < |l| ensures l[k].id != id {
        assert l[k].id in Ids(l) || l[k].id != id;
      }
      TouchedAbsent(l, id);
    }

    method Len(now: u64) returns (n: nat)
      requires Valid()
      modifies this`events, entries
      ensures Valid() && events == old(events) + [Count(now)]
      ensures n == |Unexpired(old(entries.list), now)| <= TOMBSTONE_CAPACITY
    {
      EventAppended(Count(now));
      entries.Expire(now);
      HoldsSameIds(entries.byId, entries.recency, entries.list);
      n := |entries.byId|;
      events := events + [Count(now)];
    }

    /** What the history says an answer of `Ended` means: one removal decided
        this cause on the evidence it had, and its tombstone has been retained
        at every moment since, so no later removal of the id has spoken. */
    ghost predicate DecidedBy(history: seq<Event>, known: map<nat, Evidence>, id: SessionId, cause: EndCause, k: nat) {
      && k < |history| && k in known
      && history[k].Commit? && history[k].id == id && history[k].cause == cause == CauseOf(known[k])
      && forall j | k < j <= |history| :: Entry(id, Tombstone(cause, history[k].now)) in AfterAll([], history[..j])
    }

    /** Given whether the registry had the session when it was read, which may
        be before now: live even after its process exited; ended with the cause
        the first retained removal decided; or unknown. */
    method StatusAfterRegistry(live: bool, id: SessionId, now: u64) returns (status: SessionStatus)
      requires Valid()
      modifies this`events, entries
      ensures Valid()
      ensures events == old(events) + (if live then [] else [Lookup(id, now)])
      ensures status.Live? <==> live
      ensures status.Ended? <==> !live && id in Ids(Unexpired(old(entries.list), now))
      ensures status.Ended? ==> exists k :: DecidedBy(old(events), old(evidence), id, status.cause, k)
    {
      if live {
        return Live;
      }
      ghost var history := events;
      ghost var before := entries.list;
      var tombstone := LookupTombstone(id, now);
      match tombstone
      case Some(t) =>
        ghost var x := Entry(id, t);
        UnexpiredKeepsFresh(before, now, x);
        ghost var k := FirstWriterStands(history, x);
        assert DecidedBy(history, old(evidence), id, t.cause, k);
        return Ended(t.cause);
      case None =>
        return Unknown;
    }

    /** With the registry held: a registered session is `Live`. */
    method Status(id: SessionId, now: u64) returns (status: SessionStatus)
      requires Valid()
      modifies this`events, entries
      ensures Valid()
      ensures events == old(events) + (if id in sessions then [] else [Lookup(id, now)])
      ensures status.Live? <==> id in sessions
      ensures status.Ended? <==> id !in sessions && id in Ids(Unexpired(old(entries.list), now))
      ensures status.Ended? ==> exists k :: DecidedBy(old(events), old(evidence), id, status.cause, k)
    {
      hide Holds, Recorded, DecidedBy, Unexpired, Ids;
      status := StatusAfterRegistry(id in sessions, id, now);
    }

    /** One thing the service may ask of the host. */
    method Serve(q: Request)
      requires Valid()
      modifies this`sessions, this`events, this`evidence, entries
      ensures Valid() && sessions == Registry(old(sessions), q)
      ensures events == old(events) + AskedOfStore(old(sessions), q)
      ensures forall k | 0 <= k < |old(events)| && k in old(evidence) :: k in evidence && evidence[k] == old(evidence)[k]
    {
      hide AfterAll, After, Holds, Unexpired, Recorded, CauseOf, Ids;
      match q
      case Registers(id) => Register(id);
      case Exits(id) => if id in sessions { ObserveExit(id); }
      case Stamps(id, code) => if id in sessions { StampExitCode(id, code); }
      case Removes(id, now) => var removed := RemoveWithCause(id, now);
      case Asks(id, now) => var status := Status(id, now);
      case Counts(now) => var n := Len(now);
    }

    /** The end of a session whose exit had been observed is told as that exit or
        not at all: whatever is asked of the host in between, at whatever times. */
    method ObservedExitIsToldOrForgotten(id: SessionId, removedAt: u64, requests: seq<Request>, asked: u64)
      returns (status: SessionStatus)
      requires Valid() && id in sessions && sessions[id].exited
      requires id !in Ids(entries.list)
      requires Registers(id) !in requests
      modifies this`sessions, this`events, this`evidence, entries
      ensures Valid() && sessions == RegistryAfter(old(sessions) - {id}, requests)
      ensures status == Ended(Exited(old(sessions)[id].code)) || status == Unknown
    {
      hide AfterAll, After, Holds, Unexpired, Recorded;
      ghost var before := events;
      NoneRetainedBefore(id);
      var removed := RemoveWithCause(id, removedAt);
      ghost var mine := |before|;
      for i := 0 to |requests|
        invariant Valid() && id !in sessions && sessions == RegistryAfter(old(sessions) - {id}, requests[..i])
        invariant |events| > mine && before <= events && events[mine] == Commit(id, CauseOf(removed.value), removedAt)
        invariant mine in evidence && evidence[mine] == removed.value
        invariant forall k | mine < k < |events| && events[k].Commit? :: events[k].id != id
      {
        assert requests[i] in requests && requests[..i + 1][..i] == requests[..i];
        Serve(requests[i]);
      }
      assert requests[..|requests|] == requests;
      ghost var history, known := events, evidence;
      status := Status(id, asked);
      if status.Ended? {
        ghost var k: nat :| DecidedBy(history, known, id, status.cause, k);
        assert history[..mine] == before;
        assert k >= mine;
      }
    }

    lemma NoneRetainedBefore(id: SessionId)
      requires Valid() && id !in Ids(entries.list)
      ensures forall t :: Entry(id, t) !in AfterAll([], events)
    {
      forall e | e in entries.list ensures e.id in Ids(entries.list) {
        var i :| 0 <= i < |entries.list| && entries.list[i] == e;
      }
    }
  }
}
