/** The control client (ghosttea-client/src/index.ts): one socket at a time, the
    packet parser of its data handler, and the requests it has out. Each method
    is one callback; any sequence of them is a run. */
module Client {
  import opened Common
  import opened Framing

  const MAX_CONTROL_BYTES: nat := 1024 * 1024
  const AUTHENTICATED: packet := [111, 107]   // "ok"

  type SocketId = nat

  type RequestId = n: nat | n > 0 witness 1

  /** A server event; request 0 is nobody's. */
  datatype ServerEvent = ServerEvent(requestId: nat, isError: bool, content: string)

  datatype Settlement =
    | Resolved(event: ServerEvent)
    | Rejected(event: ServerEvent)
    | TimedOut
    | ConnectionClosed
    | ClientClosed

  function Answer(e: ServerEvent): Settlement {
    if e.isError then Rejected(e) else Resolved(e)
  }

  // ------------------------------------------------- correlation, as a value

  /** The requests that are out, and how the others came back. */
  datatype Book = Book(pending: set<nat>, settled: map<nat, Settlement>) {
    function Hear(e: ServerEvent): Book {
      if e.requestId in pending
      then Book(pending - {e.requestId}, settled[e.requestId := Answer(e)])
      else this
    }
  }

  function HearAll(b: Book, events: seq<ServerEvent>): Book
    decreases |events|
  {
    if events == [] then b else HearAll(b, events[..|events| - 1]).Hear(events[|events| - 1])
  }

  ghost predicate Bears(events: seq<ServerEvent>, id: nat) {
    exists i :: 0 <= i < |events| && events[i].requestId == id
  }

  /** The first event that bears an id answers it; later ones, and events for an
      id that is not out, change nothing. */
  lemma {:induction false} FirstAnswerSettles(b: Book, events: seq<ServerEvent>, id: nat)
    ensures id in HearAll(b, events).pending <==> id in b.pending && !Bears(events, id)
    ensures id !in b.pending ==>
      (id in HearAll(b, events).settled <==> id in b.settled)
      && (id in b.settled ==> HearAll(b, events).settled[id] == b.settled[id])
    ensures forall i | 0 <= i < |events| && id in b.pending && events[i].requestId == id && !Bears(events[..i], id) ::
      id in HearAll(b, events).settled && HearAll(b, events).settled[id] == Answer(events[i])
    ensures id in b.pending && !Bears(events, id) ==>
      (id in HearAll(b, events).settled <==> id in b.settled)
    decreases |events|
  {
    if events != [] {
      var front, last := events[..|events| - 1], events[|events| - 1];
      FirstAnswerSettles(b, front, id);
      assert Bears(events, id) <==> Bears(front, id) || last.requestId == id;
      forall i | 0 <= i < |events| && id in b.pending && events[i].requestId == id && !Bears(events[..i], id)
        ensures id in HearAll(b, events).settled && HearAll(b, events).settled[id] == Answer(events[i])
      {
        if i < |front| {
          assert front[..i] == events[..i] && front[i] == events[i];
          assert Bears(front, id);
        } else {
          assert events[..i] == front;
        }
      }
    }
  }

  lemma HearNothing(b: Book)
    ensures HearAll(b, []) == b
  {
  }

  lemma HearOne(b: Book, events: seq<ServerEvent>, e: ServerEvent)
    ensures HearAll(b, events + [e]) == HearAll(b, events).Hear(e)
  {
    assert (events + [e])[..|events|] == events;
  }

  /** Every answer a book holds is one of these events, and bears its id. */
  ghost predicate Honest(settled: map<nat, Settlement>, heard: seq<ServerEvent>) {
    forall id | id in settled && (settled[id].Resolved? || settled[id].Rejected?) ::
      settled[id].event in heard && settled[id].event.requestId == id
      && (settled[id].Resolved? <==> !settled[id].event.isError)
  }

  lemma {:induction false} HearingIsHonest(b: Book, before: seq<ServerEvent>, events: seq<ServerEvent>)
    requires Honest(b.settled, before)
    ensures Honest(HearAll(b, events).settled, before + events)
    decreases |events|
  {
    if events == [] {
      assert before + events == before;
    } else {
      var front, last := events[..|events| - 1], events[|events| - 1];
      HearingIsHonest(b, before, front);
      assert before + events == before + front + [last];
    }
  }

  /** What was settled is settled still, and in the same way. */
  ghost predicate Extends(before: map<nat, Settlement>, after: map<nat, Settlement>) {
    forall id | id in before :: id in after && after[id] == before[id]
  }

  lemma HearingExtends(b: Book, events: seq<ServerEvent>)
    requires b.pending !! b.settled.Keys
    ensures Extends(b.settled, HearAll(b, events).settled)
  {
    forall id | id in b.settled
      ensures id in HearAll(b, events).settled && HearAll(b, events).settled[id] == b.settled[id]
    {
      FirstAnswerSettles(b, events, id);
    }
  }

  /** Every request that is out, settled for one reason. */
  ghost function AllFor(pending: set<nat>, reason: Settlement): (m: map<nat, Settlement>)
    ensures m.Keys == pending
  {
    map id | id in pending :: reason
  }

  lemma RejectingIsHonest(settled: map<nat, Settlement>, heard: seq<ServerEvent>, pending: set<nat>, reason: Settlement)
    requires Honest(settled, heard) && !reason.Resolved? && !reason.Rejected?
    ensures Honest(settled + AllFor(pending, reason), heard)
  {
  }

  // -------------------------------------------------------------- the client

  datatype Callback =
    | Connects
    | Opens(s: SocketId)
    | OpenFails
    | GivesUp(s: SocketId)
    | HelloAnswered(s: SocketId)
    | Asks(supported: bool, bytes: nat)
    | TimerFires(id: nat)
    | Delivers(s: SocketId, chunk: seq<byte>)
    | Closes(s: SocketId)
    | Disposes

  class AutomationClient {
    var socket: Option<SocketId>
    var buffer: seq<byte>
    var authenticated: bool
    var pending: set<nat>
    var timers: set<nat>                    // request timeouts that are running
    var nextRequestId: nat
    var disposed: bool
    var promised: bool                      // `connectPromise` is set
    var opening: nat                        // opens that wait for their endpoint
    var handshakes: set<SocketId>           // opens that got one and have not ended
    var destroyed: set<SocketId>            // sockets that will deliver no more data
    var known: set<SocketId>                // every socket there has been: none comes twice
    const parse: packet -> Option<ServerEvent>
    // history
    ghost var issued: set<nat>
    ghost var settled: map<nat, Settlement>
    ghost var via: map<nat, SocketId>       // the socket each request was written to
    ghost var left: set<SocketId>           // those given up or replaced before they closed
    ghost var heard: seq<ServerEvent>       // every event taken off any connection
    ghost var took: set<packet>             // and every packet
    ghost var received: seq<byte>           // what the current connection delivered
    ghost var wire: seq<packet>             // and the packets taken off it
    ghost var performed: seq<Callback>

    ghost function Requests(): Book
      reads this
    {
      Book(pending, settled)
    }

    /** Every event heard was in a packet taken off a connection. */
    ghost predicate HeardFromPackets()
      reads this`heard, this`took
    {
      forall e | e in heard :: exists p :: p in took && parse(p) == Some(e)
    }

    /** Every id is fresh and nonzero, every issued id is either out with its
        timer running or settled, and every answer is an event heard for it. */
    ghost predicate RequestsOk()
      reads this`pending, this`timers, this`nextRequestId, this`issued, this`settled, this`heard, this`took
    {
      && timers == pending && nextRequestId > 0
      && (forall id | id in issued :: 0 < id < nextRequestId)
      && issued == pending + settled.Keys && pending !! settled.Keys
      && Honest(settled, heard) && HeardFromPackets()
    }

    /** A request that is out was written to the current socket, or to one the
        client has left. */
    ghost predicate RoutesOk()
      reads this`socket, this`pending, this`via, this`known, this`left, this`destroyed, this`handshakes
    {
      && destroyed <= known && handshakes <= known && left <= known
      && (socket.Some? ==> socket.value in known && socket.value !in left)
      && forall id | id in pending :: id in via && via[id] in known && (via[id] in left || socket == Some(via[id]))
    }

    /** What the current connection has delivered is accounted for, and an open
        stands behind it until it is authenticated. */
    ghost predicate LinkOk()
      reads this`socket, this`authenticated, this`wire, this`destroyed, this`handshakes, this`received, this`buffer
    {
      && (authenticated ==> socket.Some? && wire != [] && wire[0] == AUTHENTICATED)
      && (socket.Some? && !authenticated && socket.value !in destroyed ==> wire == [] && socket.value in handshakes)
      && (socket.Some? ==> Accounts(received, wire, buffer, MAX_CONTROL_BYTES))
    }

    ghost predicate Valid()
      reads this
    {
      RequestsOk() && RoutesOk() && LinkOk()
    }

    constructor (parse: packet -> Option<ServerEvent>)
      ensures Valid() && socket.None? && issued == {} && settled == map[]
      ensures !disposed && !promised && opening == 0 && known == {}
    {
      socket, buffer, authenticated := None, [], false;
      pending, timers, nextRequestId := {}, {}, 1;
      disposed, promised, opening, handshakes, destroyed := false, false, 0, {}, {};
      this.parse := parse;
      issued, settled, via, known, left := {}, map[], map[], {}, {};
      heard, took, received, wire, performed := [], {}, [], [], [];
    }

    /** `connect`: refused once disposed; otherwise at most one open is promised
        at a time. */
    method Connect() returns (refused: bool)
      requires Valid()
      modifies this`promised, this`opening
      ensures Valid() && (refused <==> disposed)
      ensures promised <==> old(promised) || !(disposed || (authenticated && socket.Some?))
      ensures opening == old(opening)
        + if !disposed && !(authenticated && socket.Some?) && !old(promised) then 1 else 0
    {
      hide AutomationClient.RequestsOk, AutomationClient.RoutesOk, AutomationClient.LinkOk;
      if disposed {
        return true;
      }
      refused := false;
      if authenticated && socket.Some? {
        return;
      }
      if !promised {
        promised := true;
        opening := opening + 1;
      }
    }

    /** The `finally` of an open: the next `connect` may open again. */
    method Finally()
      requires Valid()
      modifies this`promised
      ensures Valid() && (promised <==> old(promised) && authenticated && socket.Some?)
    {
      hide AutomationClient.RequestsOk, AutomationClient.RoutesOk, AutomationClient.LinkOk;
      if !(authenticated && socket.Some?) {
        promised := false;
      }
    }

    method OpenFails()
      requires Valid() && opening > 0
      modifies this`opening, this`promised
      ensures Valid() && opening == old(opening) - 1
      ensures promised <==> old(promised) && authenticated && socket.Some?
    {
      hide AutomationClient.RequestsOk, AutomationClient.RoutesOk, AutomationClient.LinkOk;
      opening := opening - 1;
      Finally();
    }

    /** The current socket, if any, is left with whatever was written to it. */
    method LeaveSocket()
      requires RoutesOk()
      modifies this`socket, this`left
      ensures RoutesOk() && socket.None?
      ensures forall x :: x in left <==> x in old(left) || old(socket) == Some(x)
    {
      if socket.Some? {
        left := left + {socket.value};
      }
      socket := None;
    }

    method TakeSocket(s: SocketId)
      requires RoutesOk() && socket.None? && s !in known
      modifies this`socket, this`known, this`handshakes
      ensures RoutesOk() && socket == Some(s) && known == old(known) + {s} && handshakes == old(handshakes) + {s}
    {
      known, handshakes := known + {s}, handshakes + {s};
      socket := Some(s);
    }

    /** An endpoint answered an open: the client starts over on a new socket.
        Nothing asks whether it has been disposed meanwhile. */
    method Opened(s: SocketId)
      requires Valid() && opening > 0 && s !in known
      modifies this`opening, this`handshakes, this`socket, this`buffer, this`authenticated,
               this`known, this`left, this`received, this`wire
      ensures Valid() && socket == Some(s) && !authenticated && buffer == [] && s in handshakes
      ensures opening == old(opening) - 1 && known == old(known) + {s}
      ensures forall x :: x in left <==> x in old(left) || old(socket) == Some(x)
    {
      hide AutomationClient.RequestsOk, AutomationClient.RoutesOk, AutomationClient.LinkOk;
      opening := opening - 1;
      LeaveSocket();
      TakeSocket(s);
      StartOver();
    }

    method StartOver()
      requires socket.Some? && socket.value in handshakes
      modifies this`buffer, this`authenticated, this`received, this`wire
      ensures LinkOk() && buffer == [] && !authenticated
    {
      hide Accounts;
      buffer, authenticated := [], false;
      received, wire := [], [];
      NewAccount(MAX_CONTROL_BYTES);
    }

    /** An open gives its connection up: refused or late to authenticate, or no
        proper hello. */
    method GiveUp(s: SocketId)
      requires Valid() && s in handshakes
      modifies this`socket, this`authenticated, this`destroyed, this`handshakes, this`promised, this`left
      ensures Valid() && destroyed == old(destroyed) + {s} && handshakes == old(handshakes) - {s}
      ensures socket == if old(socket) == Some(s) then None else old(socket)
      ensures authenticated == (old(authenticated) && old(socket) != Some(s))
      ensures promised <==> old(promised) && authenticated && socket.Some?
      ensures forall x :: x in left <==> x in old(left) || (old(socket) == Some(s) && x == s)
    {
      hide AutomationClient.RequestsOk, Accounts;
      if socket == Some(s) {
        LeaveSocket();
        authenticated := false;
      }
      destroyed := destroyed + {s};
      handshakes := handshakes - {s};
      Finally();
    }

    /** The hello was answered as it should be, whatever became of the socket. */
    method HelloAnswered(s: SocketId)
      requires Valid() && s in handshakes && !(socket == Some(s) && !authenticated)
      modifies this`handshakes, this`promised
      ensures Valid() && handshakes == old(handshakes) - {s}
      ensures promised <==> old(promised) && authenticated && socket.Some?
    {
      hide AutomationClient.RequestsOk, Accounts;
      handshakes := handshakes - {s};
      Finally();
    }

    /** `#requestConnected`: the id it issued, or nothing. `supported` is whether
        the negotiated protocol has the command; `bytes` the encoded length. */
    method Request(supported: bool, bytes: nat) returns (r: Option<RequestId>)
      requires Valid()
      modifies this`pending, this`timers, this`nextRequestId, this`issued, this`via
      ensures Valid()
      ensures r.Some? <==> socket.Some? && authenticated && supported && bytes <= 0x10_0000
      ensures r.Some? ==>
        && r.value !in old(issued) && pending == old(pending) + {r.value} && issued == old(issued) + {r.value}
        && via == old(via)[r.value := socket.value]
      ensures r.None? ==> pending == old(pending) && issued == old(issued) && via == old(via)
      ensures nextRequestId ==
        old(nextRequestId) + if socket.Some? && authenticated && supported then 1 else 0
    {
      hide AutomationClient.LinkOk, Accounts, Honest;
      if socket.None? || !authenticated {
        return None;
      }
      if !supported {
        return None;
      }
      var requestId := nextRequestId;
      nextRequestId := nextRequestId + 1;
      if bytes > MAX_CONTROL_BYTES {
        return None;
      }
      pending := pending + {requestId};
      timers := timers + {requestId};
      issued := issued + {requestId};
      via := via[requestId := socket.value];
      r := Some(requestId);
    }

    /** One request's promise settles; never a second time. */
    ghost method Settle(id: nat, s: Settlement)
      requires id !in settled
      modifies this`settled
      ensures settled == old(settled)[id := s]
    {
      settled := settled[id := s];
    }

    ghost method SettleAll(ids: set<nat>, reason: Settlement)
      requires ids !! settled.Keys
      modifies this`settled
      ensures settled == old(settled) + AllFor(ids, reason)
    {
      settled := settled + AllFor(ids, reason);
    }

    method TimesOut(id: nat)
      requires Valid() && id in timers
      modifies this`pending, this`timers, this`settled
      ensures Extends(old(settled), settled)
      ensures Valid() && pending == old(pending) - {id} && settled == old(settled)[id := TimedOut]
    {
      hide AutomationClient.LinkOk;
      timers := timers - {id};
      pending := pending - {id};
      Settle(id, TimedOut);
    }

    method ClearTimers()
      requires timers == pending
      modifies this`timers
      ensures timers == {}
    {
      var left := pending;
      while left != {}
        invariant timers == left
        decreases |left|
      {
        var id :| id in left;
        timers := timers - {id};
        left := left - {id};
      }
    }

    method RejectPending(reason: Settlement)
      requires RequestsOk() && !reason.Resolved? && !reason.Rejected?
      modifies this`pending, this`timers, this`settled
      ensures RequestsOk() && pending == {}
      ensures settled == old(settled) + AllFor(old(pending), reason)
    {
      hide Honest, AllFor;
      RejectingIsHonest(settled, heard, pending, reason);
      ClearTimers();
      SettleAll(pending, reason);
      pending := {};
    }

    /** A request whose socket closes is out afterwards exactly when the client
        had left that socket before. */
    method OnSocketClose(s: SocketId)
      requires Valid()
      modifies this`socket, this`authenticated, this`promised, this`pending, this`timers, this`settled
      ensures Valid() && Extends(old(settled), settled)
      ensures old(socket) == Some(s) ==>
        && socket.None? && !authenticated && !promised
        && pending == {} && settled == old(settled) + AllFor(old(pending), ConnectionClosed)
      ensures old(socket) != Some(s) ==>
        socket == old(socket) && authenticated == old(authenticated) && promised == old(promised)
        && pending == old(pending) && settled == old(settled)
      ensures forall id | id in old(pending) && via[id] == s :: id in pending <==> s in left
    {
      if socket != Some(s) {
        return;
      }
      socket, authenticated, promised := None, false, false;
      RejectPending(ConnectionClosed);
    }

    method Dispose()
      requires Valid()
      modifies this`socket, this`authenticated, this`pending, this`timers, this`settled, this`disposed, this`destroyed
      ensures Valid() && disposed && Extends(old(settled), settled)
      ensures destroyed == old(destroyed) + if old(disposed) || old(socket).None? then {} else {old(socket).value}
      ensures !old(disposed) ==>
        socket.None? && pending == {} && settled == old(settled) + AllFor(old(pending), ClientClosed)
      ensures old(disposed) ==> socket == old(socket) && pending == old(pending) && settled == old(settled)
    {
      hide Honest, AllFor, Accounts;
      if disposed {
        return;
      }
      disposed := true;
      if socket.Some? {
        destroyed := destroyed + {socket.value};
      }
      socket, authenticated := None, false;
      RejectPending(ClientClosed);
    }

    /** One event off the wire; 0 goes to the listeners. */
    method Dispatch(decoded: ServerEvent)
      requires Valid() && exists p :: p in took && parse(p) == Some(decoded)
      modifies this`pending, this`timers, this`settled, this`heard
      ensures Valid() && heard == old(heard) + [decoded]
      ensures Requests() == old(Requests()).Hear(decoded)
    {
      hide AutomationClient.LinkOk, Accounts;
      HearingIsHonest(Requests(), heard, [decoded]);
      assert HearAll(Requests(), [decoded]) == Requests().Hear(decoded) by {
        assert [decoded][..0] == [];
      }
      heard := heard + [decoded];
      if decoded.requestId == 0 {
        return;
      }
      if decoded.requestId !in pending {
        return;
      }
      pending := pending - {decoded.requestId};
      timers := timers - {decoded.requestId};
      Settle(decoded.requestId, Answer(decoded));
    }

    /** The packet at the front of the buffer, off it and onto the record. */
    method Unwrap() returns (body: packet)
      requires RequestsOk() && Accounts(received, wire, buffer, MAX_CONTROL_BYTES) && Whole(buffer, MAX_CONTROL_BYTES)
      modifies this`buffer, this`wire, this`took
      ensures RequestsOk() && Accounts(received, wire, buffer, MAX_CONTROL_BYTES)
      ensures body == Body(old(buffer)) && wire == old(wire) + [body] && buffer == Tail(old(buffer)) && body in took
      ensures |buffer| < |old(buffer)|
    {
      hide Accounts, ReadUInt32LE, Honest;
      TakingKeepsAccount(received, wire, buffer, MAX_CONTROL_BYTES);
      TakeOne(buffer, MAX_CONTROL_BYTES);
      body := Body(buffer);
      buffer := Tail(buffer);
      wire := wire + [body];
      took := took + {body};
    }

    method Destroy(s: SocketId)
      requires RoutesOk() && socket == Some(s)
      modifies this`destroyed
      ensures RoutesOk() && destroyed == old(destroyed) + {s}
    {
      destroyed := destroyed + {s};
    }

    /** One turn of the parser: take the packet at the front of the buffer and
        act on it. */
    method TakePacket(s: SocketId) returns (stopped: bool)
      requires Valid() && socket == Some(s) && s !in destroyed && Whole(buffer, MAX_CONTROL_BYTES)
      modifies this`buffer, this`authenticated, this`socket, this`destroyed, this`handshakes, this`promised, this`left,
               this`pending, this`timers, this`settled, this`heard, this`took, this`wire
      ensures Valid() && wire == old(wire) + [Body(old(buffer))] && buffer == Tail(old(buffer)) && |buffer| < |old(buffer)|
      ensures stopped <==> if old(authenticated) then parse(Body(old(buffer))).None? else Body(old(buffer)) != AUTHENTICATED
      ensures if stopped then s in destroyed
              else left == old(left) && authenticated && socket == Some(s) && destroyed == old(destroyed) && handshakes == old(handshakes)
      ensures forall x | x in left :: x in old(left) || (stopped && !old(authenticated) && x == s)
      ensures if old(authenticated) && !stopped
              then heard == old(heard) + [parse(Body(old(buffer))).value]
                   && Requests() == old(Requests()).Hear(parse(Body(old(buffer))).value)
              else heard == old(heard) && Requests() == old(Requests())
    {
      hide AutomationClient.RequestsOk, AutomationClient.RoutesOk, Accounts, ReadUInt32LE, Honest, Body, Tail, Whole;
      var body := Unwrap();
      stopped := false;
      if !authenticated {
        if body != AUTHENTICATED {
          Destroy(s);
          GiveUp(s);
          return true;
        }
        authenticated := true;
        return;
      }
      var decoded := parse(body);
      if decoded.None? {
        Destroy(s);
        return true;
      }
      Dispatch(decoded.value);
    }

    /** The loop of `#onData`: it takes exactly the decoder's packets, in order,
        and hears the events in them; the requests they answer come back as the
        book says. It stops at a refused authentication, a length over quota or
        a body that is no event, and then destroys the socket; otherwise it
        leaves no whole packet behind. */
    method TakePackets(s: SocketId) returns (ghost packets: seq<packet>, ghost events: seq<ServerEvent>)
      requires Valid() && socket == Some(s) && s !in destroyed
      modifies this`buffer, this`authenticated, this`socket, this`destroyed, this`handshakes, this`promised, this`left,
               this`pending, this`timers, this`settled, this`heard, this`took, this`wire
      ensures Valid() && wire == old(wire) + packets && heard == old(heard) + events
      ensures Parsed(old(buffer), buffer, packets, MAX_CONTROL_BYTES)
      ensures Hears(old(authenticated), packets, events)
      ensures Requests() == HearAll(old(Requests()), events)
      ensures s in destroyed <==> Refused(old(authenticated), packets, events) || OverQuota(buffer, MAX_CONTROL_BYTES)
      ensures forall x | x in left :: x in old(left) || (!old(authenticated) && x == s)
      ensures s !in destroyed ==> socket == Some(s) && !Whole(buffer, MAX_CONTROL_BYTES)
      ensures s !in destroyed ==> (authenticated <==> old(authenticated) || packets != []) && handshakes == old(handshakes)
    {
      hide AutomationClient.RequestsOk, AutomationClient.RoutesOk, Accounts, Decode, Parsed, ReadUInt32LE, HearAll, Honest, Hears, Refused;
      packets, events := [], [];
      HearNothing(Requests());
      ParsedNothing(buffer, MAX_CONTROL_BYTES);
      HearsNothing(authenticated);
      while |buffer| >= 4
        invariant Valid() && socket == Some(s) && s !in destroyed
        invariant wire == old(wire) + packets && heard == old(heard) + events && left == old(left)
        invariant Parsed(old(buffer), buffer, packets, MAX_CONTROL_BYTES)
        invariant Hears(old(authenticated), packets, events) && !Refused(old(authenticated), packets, events)
        invariant (authenticated <==> old(authenticated) || packets != []) && handshakes == old(handshakes)
        invariant Requests() == HearAll(old(Requests()), events)
        decreases |buffer|
      {
        var length := ReadUInt32LE(buffer);
        if length > MAX_CONTROL_BYTES {
          Destroy(s);
          return;
        }
        if |buffer| < 4 + length {
          return;
        }
        ParsedOneMore(old(buffer), buffer, packets, MAX_CONTROL_BYTES);
        ghost var body, wasAuthenticated := Body(buffer), authenticated;
        HearsMore(old(authenticated), packets, events, body);
        packets := packets + [body];
        var stopped := TakePacket(s);
        if stopped {
          return;
        }
        if wasAuthenticated {
          HearOne(old(Requests()), events, parse(body).value);
          events := events + [parse(body).value];
        }
      }
    }

    /** `#onData`: only the current socket is listened to, and a destroyed one
        says nothing more. */
    method OnData(s: SocketId, chunk: seq<byte>)
      requires Valid()
      modifies this`buffer, this`authenticated, this`socket, this`destroyed, this`handshakes, this`promised, this`left,
               this`pending, this`timers, this`settled, this`heard, this`took, this`received, this`wire
      ensures Valid() && old(heard) <= heard && Extends(old(settled), settled)
      ensures Requests() == HearAll(old(Requests()), heard[|old(heard)|..])
      ensures forall x | x in left && x !in old(left) :: old(socket) == Some(x) && !old(authenticated) && x == s
      ensures old(socket) != Some(s) || s in old(destroyed) ==>
        socket == old(socket) && authenticated == old(authenticated) && wire == old(wire) && heard == old(heard)
      ensures old(socket) == Some(s) && s !in old(destroyed) ==>
        && received == old(received) + chunk && old(wire) <= wire
        && Parsed(old(buffer) + chunk, buffer, wire[|old(wire)|..], MAX_CONTROL_BYTES)
        && Hears(old(authenticated), wire[|old(wire)|..], heard[|old(heard)|..])
        && (s in destroyed <==>
              || Refused(old(authenticated), wire[|old(wire)|..], heard[|old(heard)|..])
              || OverQuota(buffer, MAX_CONTROL_BYTES))
        && (s !in destroyed ==> socket == Some(s) && !Whole(buffer, MAX_CONTROL_BYTES))
        && (s !in destroyed ==> (authenticated <==> old(authenticated) || wire != old(wire)) && handshakes == old(handshakes))
    {
      hide Accounts, Decode, Parsed, ReadUInt32LE, HearAll, Honest, Hears, Refused;
      if socket != Some(s) || s in destroyed {
        HearNothing(Requests());
        assert heard[|old(heard)|..] == [];
        return;
      }
      ArrivingKeepsAccount(received, wire, buffer, chunk, MAX_CONTROL_BYTES);
      buffer := buffer + chunk;
      received := received + chunk;
      ghost var before := Requests();
      ghost var packets, events := TakePackets(s);
      HearingExtends(before, events);
      assert wire[|old(wire)|..] == packets && heard[|old(heard)|..] == events;
    }

    function Answers(authenticated: bool, packets: seq<packet>): seq<packet> {
      if authenticated || packets == [] then packets else packets[1..]
    }

    /** The events heard are those in the packets taken past the authentication;
        a packet that is neither is the last. */
    ghost predicate Hears(authenticated: bool, packets: seq<packet>, events: seq<ServerEvent>) {
      var answers := Answers(authenticated, packets);
      && |events| <= |answers| <= |events| + 1
      && (forall i | 0 <= i < |events| :: parse(answers[i]) == Some(events[i]))
      && (|answers| > |events| ==> parse(answers[|events|]).None?)
      && (!authenticated && packets != [] && packets[0] != AUTHENTICATED ==> |packets| == 1)
    }

    /** The last packet ended the connection. */
    predicate Refused(authenticated: bool, packets: seq<packet>, events: seq<ServerEvent>) {
      || |Answers(authenticated, packets)| > |events|
      || (!authenticated && packets != [] && packets[0] != AUTHENTICATED)
    }

    lemma HearsNothing(authenticated: bool)
      ensures Hears(authenticated, [], []) && !Refused(authenticated, [], [])
    {
    }

    lemma HearsMore(authenticated: bool, packets: seq<packet>, events: seq<ServerEvent>, body: packet)
      requires Hears(authenticated, packets, events) && !Refused(authenticated, packets, events)
      ensures var expected := authenticated || packets != [];
              var now := if expected && parse(body).Some? then events + [parse(body).value] else events;
              Hears(authenticated, packets + [body], now)
              && (Refused(authenticated, packets + [body], now)
                  <==> if expected then parse(body).None? else body != AUTHENTICATED)
    {
    }

    // -------------------------------------------------------------- theorems

    /** However the daemon's packets were cut, what was taken off the current
        connection is a prefix of them, and what is buffered the start of the
        rest. */
    lemma TakenIsPrefix(sent: seq<packet>)
      requires Valid() && socket.Some? && Within(sent, MAX_CONTROL_BYTES) && received <= Encode(sent)
      ensures wire <= sent && buffer <= Encode(sent[|wire|..])
      ensures !Whole(buffer, MAX_CONTROL_BYTES) && received == Encode(sent) ==> wire == sent
    {
      AccountIsPrefix(received, wire, buffer, sent, MAX_CONTROL_BYTES);
    }

    /** Whether a callback can come: a timer only while it runs, a socket only of
        an open that waits for one, and never the same one again. */
    predicate Possible(c: Callback)
      reads this
    {
      match c
      case Opens(s) => opening > 0 && s !in known
      case OpenFails => opening > 0
      case GivesUp(s) => s in handshakes
      case HelloAnswered(s) => s in handshakes && !(socket == Some(s) && !authenticated)
      case TimerFires(id) => id in timers
      case _ => true
    }

    method Perform(c: Callback)
      requires Valid()
      modifies this
      ensures Valid() && old(issued) <= issued && Extends(old(settled), settled)
      ensures performed == old(performed) + [c]
      ensures old(Possible(c)) ==>
        match c
        case Connects => promised <==> old(promised) || !(disposed || (authenticated && socket.Some?))
        case Opens(s) => socket == Some(s) && !authenticated
        case OpenFails => opening == old(opening) - 1 && socket == old(socket)
        case GivesUp(s) => socket != Some(s) && s in destroyed && s !in handshakes
        case HelloAnswered(s) => socket == old(socket) && destroyed == old(destroyed) && s !in handshakes
        case Asks(supported, bytes) =>
          issued != old(issued) <==> socket.Some? && authenticated && supported && bytes <= MAX_CONTROL_BYTES
        case TimerFires(id) => id in settled && settled[id] == TimedOut
        case Delivers(s, chunk) =>
          old(socket) == Some(s) && s !in old(destroyed) ==> received == old(received) + chunk
        case Closes(s) => old(socket) == Some(s) ==> socket.None? && !promised && pending == {}
        case Disposes => disposed && (old(disposed) || pending == {})
      ensures forall x | x in left && x !in old(left) ::
        old(socket) == Some(x) && (c == GivesUp(x) || c.Opens? || (c.Delivers? && c.s == x && !old(authenticated)))
      ensures old(disposed) ==> disposed && opening <= old(opening)
      ensures old(disposed && socket.None?) && !(c.Opens? && old(opening) > 0) ==> socket.None?
    {
      hide AutomationClient.RequestsOk, AutomationClient.RoutesOk, AutomationClient.LinkOk, Accounts, Decode, Parsed, ReadUInt32LE, HearAll, Honest, Hears, Refused, AllFor;
      performed := performed + [c];
      if !Possible(c) {
        return;
      }
      match c
      case Connects => var refused := Connect();
      case Opens(s) => Opened(s);
      case OpenFails => OpenFails();
      case GivesUp(s) => GiveUp(s);
      case HelloAnswered(s) => HelloAnswered(s);
      case Asks(supported, bytes) => var r := Request(supported, bytes);
      case TimerFires(id) => TimesOut(id);
      case Delivers(s, chunk) => OnData(s, chunk);
      case Closes(s) => OnSocketClose(s);
      case Disposes => Dispose();
    }

    /** Over every run: each id ever issued is out or settled, never both, and
        once settled it stays as it was settled; a success is an event that came
        in a packet off a connection; a request is out only on the current socket
        or on one that was left; and a disposed client without a socket stays so,
        unless an open was in progress and a socket comes of it. */
    method Run(callbacks: seq<Callback>)
      requires Valid()
      modifies this
      ensures Valid() && old(issued) <= issued && Extends(old(settled), settled)
      ensures performed == old(performed) + callbacks
      ensures forall id | id in issued :: id in pending <==> id !in settled
      ensures forall id | id in settled && settled[id].Resolved? ::
        settled[id].event.requestId == id && exists p :: p in took && parse(p) == Some(settled[id].event)
      ensures forall id | id in pending :: via[id] in left || socket == Some(via[id])
      ensures old(disposed && socket.None?) && (old(opening) == 0 || forall c | c in callbacks :: !c.Opens?) ==> socket.None?
    {
      hide Accounts, Hears, Refused;
      for i := 0 to |callbacks|
        invariant Valid() && old(issued) <= issued && Extends(old(settled), settled)
        invariant old(disposed) ==> disposed && opening <= old(opening)
        invariant performed == old(performed) + callbacks[..i]
        invariant old(disposed && socket.None?) && (old(opening) == 0 || forall c | c in callbacks :: !c.Opens?) ==> socket.None?
      {
        assert callbacks[i] in callbacks;
        Perform(callbacks[i]);
      }
    }

    method Authenticates(s: SocketId)
      requires Valid() && socket == Some(s) && s !in destroyed && !authenticated && buffer == []
      modifies this`buffer, this`authenticated, this`socket, this`destroyed, this`handshakes, this`promised, this`left,
               this`pending, this`timers, this`settled, this`heard, this`took, this`received, this`wire
      ensures Valid() && socket == Some(s) && authenticated
      ensures handshakes == old(handshakes)
    {
      hide Accounts, Decode, Parsed, Frame, ReadUInt32LE, HearAll, Honest;
      var bytes := Frame(AUTHENTICATED);
      assert buffer + bytes == bytes;
      ghost var taken := wire;
      OnData(s, bytes);
      OneAuthentication(bytes, buffer, wire[|taken|..]);
      assert wire == taken + wire[|taken|..];
    }

    /** And then it does not stay so: whenever an open is in progress, disposed or
        not, the client can come to be connected. */
    method OpenInProgressConnects(s: SocketId)
      requires Valid() && opening > 0 && s !in known
      modifies this
      ensures Valid() && socket == Some(s) && authenticated && disposed == old(disposed) && s in handshakes
    {
      Opened(s);
      Authenticates(s);
    }
  }

  /** A request outlives the close of its socket: whenever a hello fails while
      another request is out. */
  method FailedHelloForgetsRequests(parse: packet -> Option<ServerEvent>, s: SocketId)
    returns (id: Option<RequestId>, closed: bool, stillOut: bool)
    ensures id.Some? && closed && stillOut
  {
    hide AutomationClient.RequestsOk, AutomationClient.LinkOk;
    var client := new AutomationClient(parse);
    var refused := client.Connect();
    client.OpenInProgressConnects(s);
    id := client.Request(true, 100);
    client.GiveUp(s);
    client.OnSocketClose(s);
    closed, stillOut := client.socket.None?, id.value in client.pending;
  }

  lemma OneAuthentication(bytes: seq<byte>, buffer: seq<byte>, packets: seq<packet>)
    requires bytes == Frame(AUTHENTICATED) && Parsed(bytes, buffer, packets, MAX_CONTROL_BYTES)
    ensures packets <= [AUTHENTICATED] && !OverQuota(buffer, MAX_CONTROL_BYTES)
    ensures !Whole(buffer, MAX_CONTROL_BYTES) ==> packets == [AUTHENTICATED]
  {
    DecodeOne(AUTHENTICATED, [], MAX_CONTROL_BYTES);
    assert bytes + [] == bytes;
    assert Decode(bytes, MAX_CONTROL_BYTES) == Decoded([AUTHENTICATED], [], false);
    assert packets <= packets + Decode(buffer, MAX_CONTROL_BYTES).packets;
  }
}
