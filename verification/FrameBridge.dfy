/** The frame half of a renderer's bridge: the incremental packet parser
    (bridge-socket.ts), the credit handshake and handlers (bridge-entry.ts) and
    the flow controller, together. Each method is one event of the bridge
    process; any sequence of them is an interleaving of it. */
module FrameBridge {
  import opened Common
  import opened Framing
  import opened FrameFlow

  const MAX_FRAME_BYTES: nat := 16 * 1024 * 1024
  const FRAME_MAGIC: nat := 0x3146_5254
  const AUTHENTICATED: packet := [111, 107]   // "ok"

  /** What a renderer's `subscribe` says about credits. */
  datatype CreditOffer = Capabilities | Legacy | Unsupported

  predicate IsFrame(body: packet) {
    |body| >= 4 && ReadUInt32LE(body) == FRAME_MAGIC
  }

  /** One event of the bridge process. */
  datatype Happening =
    | Data(chunk: seq<byte>)
    | Resumed
    | Attaches
    | Subscribes(credits: CreditOffer)
    | Credits(bytes: int)
    | Disconnects
    | AuthenticationExpires
    | RendererCloses
    | PortTurns(broken: bool)

  /** What the renderer can have credited by this event. */
  function Offered(h: Happening): nat {
    if h.Credits? && h.bytes > 0 then h.bytes else 0
  }

  function OfferedInAll(happenings: seq<Happening>): nat
    decreases |happenings|
  {
    if happenings == [] then 0
    else OfferedInAll(happenings[..|happenings| - 1]) + Offered(happenings[|happenings| - 1])
  }

  /** The bytes of the frames among these packets. */
  function FrameBytes(packets: seq<packet>): nat
    decreases |packets|
  {
    if packets == [] then 0
    else
      var last := packets[|packets| - 1];
      FrameBytes(packets[..|packets| - 1]) + if IsFrame(last) then |last| else 0
  }

  function FrameBytesSince(packets: seq<packet>, from: nat): nat {
    if from <= |packets| then FrameBytes(packets[from..]) else 0
  }

  /** What is in flight is the frame bytes forwarded since credits were switched
      on, less what has been credited. */
  ghost predicate Balanced(forwarded: seq<packet>, enabledAt: nat, enabled: bool, credited: nat, inFlight: nat) {
    && enabledAt <= |forwarded|
    && inFlight + credited == if enabled then FrameBytesSince(forwarded, enabledAt) else 0
  }

  lemma ForwardingBalances(forwarded: seq<packet>, enabledAt: nat, enabled: bool, credited: nat, inFlight: nat,
                           body: packet)
    requires Balanced(forwarded, enabledAt, enabled, credited, inFlight)
    ensures Balanced(forwarded + [body], enabledAt, enabled, credited,
                     inFlight + if enabled && IsFrame(body) then |body| else 0)
  {
    hide ReadUInt32LE;
    assert (forwarded + [body])[enabledAt..] == forwarded[enabledAt..] + [body];
    assert (forwarded[enabledAt..] + [body])[..|forwarded| - enabledAt] == forwarded[enabledAt..];
  }

  class Bridge {
    // the parser inside `connectSocket`
    var buffered: seq<byte>
    var draining: bool
    var authenticated: bool
    var settled: bool
    // the frame socket
    var paused: bool
    var destroyed: bool
    // `attachRenderer`
    var attached: bool              // `frameSocket` holds the socket
    var frameFlowEnabled: bool
    var connectionLost: bool
    var rendererClosed: bool
    const flow: FrameFlowControl
    const isChannelMessage: packet -> bool
    // the renderer's port
    var portBroken: bool            // `postMessage` throws
    // history
    ghost var received: seq<byte>   // every byte the socket delivered
    ghost var wire: seq<packet>     // every packet taken off it
    ghost var forwarded: seq<packet>
    ghost var enabledAt: nat        // how many were forwarded when credits were switched on
    ghost var credited: nat         // frame bytes the renderer has credited
    ghost var performed: seq<Happening>

    /** Nothing has gone wrong that ends the bridge. */
    predicate Working()
      reads this
    {
      !connectionLost && !rendererClosed
    }

    ghost predicate Valid()
      reads this, flow
    {
      && flow.State().Valid()
      && (authenticated ==> settled && wire != [] && wire[0] == AUTHENTICATED)
      && (!authenticated && !destroyed ==> wire == [])
      && (attached ==> authenticated)
      && (frameFlowEnabled ==> attached)
      && (!attached ==> !paused)
      && (!frameFlowEnabled ==> flow.State() == Flow(0, false))
      // the socket is paused exactly while the controller is
      && (Working() ==> (paused <==> flow.paused))
      && (Working() ==> flow.inFlightBytes < FRAME_IN_FLIGHT_HIGH_WATER_BYTES + MAX_FRAME_BYTES)
      && Balanced(forwarded, enabledAt, frameFlowEnabled, credited, flow.inFlightBytes)
      // nothing received is lost, and what was taken is what the decoder takes
      && Accounts(received, wire, buffered, MAX_FRAME_BYTES)
    }

    /** Between events: nothing is half parsed, and while the bridge works,
        every packet past the authentication has reached the renderer. */
    ghost predicate UpToDate()
      reads this, flow
    {
      && Valid()
      && (!authenticated ==> forwarded == [])
      && (authenticated && Working() ==> forwarded == wire[1..])
    }

    ghost predicate Sound()
      reads this, flow
    {
      UpToDate() && !draining
    }

    constructor (isChannelMessage: packet -> bool)
      ensures Sound() && fresh(flow) && this.isChannelMessage == isChannelMessage
      ensures received == [] && wire == [] && forwarded == [] && credited == 0 && !destroyed
      ensures Working() && !settled && !authenticated && !attached && !frameFlowEnabled && !portBroken && performed == []
    {
      buffered, draining, authenticated, settled := [], false, false, false;
      paused, destroyed := false, false;
      attached, frameFlowEnabled, connectionLost, rendererClosed := false, false, false, false;
      flow := new FrameFlowControl();
      this.isChannelMessage := isChannelMessage;
      portBroken := false;
      received, wire, forwarded, enabledAt, credited, performed := [], [], [], 0, 0, [];
    }

    method ReportConnectionLost()
      modifies this`connectionLost, this`destroyed
      ensures !Working() && (connectionLost <==> old(connectionLost) || !old(rendererClosed))
      ensures destroyed <==> old(destroyed) || (attached && old(Working()))
      ensures old(Valid()) ==> Valid()
    {
      hide Accounts, Balanced, ReadUInt32LE;
      if rendererClosed || connectionLost {
        return;
      }
      connectionLost := true;
      if attached {
        destroyed := true;
      }
    }

    /** A frame goes to the renderer's port; under credit its bytes are in flight
        from just before, and may pause the socket. */
    method ForwardFrame(body: packet)
      requires Valid() && !paused && IsFrame(body) && |body| <= MAX_FRAME_BYTES
      modifies this`connectionLost, this`destroyed, this`paused, this`forwarded, flow
      ensures Valid() && (old(destroyed) ==> destroyed)
      ensures forwarded == if portBroken then old(forwarded) else old(forwarded) + [body]
      ensures flow.inFlightBytes == old(flow.inFlightBytes) + if frameFlowEnabled && !portBroken then |body| else 0
      ensures portBroken ==> !Working() && (destroyed <==> old(destroyed) || (attached && old(Working())))
      ensures !portBroken ==> connectionLost == old(connectionLost) && destroyed == old(destroyed)
      ensures paused ==> frameFlowEnabled
    {
      hide Accounts, ReadUInt32LE, Balanced, IsFrame;
      var counted := frameFlowEnabled;
      var action := Quiet;
      if counted {
        var r := flow.Accept(|body|);
        action := r.value;
      }
      if portBroken {
        if counted {
          var undone := flow.Release(|body|);
        }
        ReportConnectionLost();
        return;
      }
      ForwardingBalances(forwarded, enabledAt, frameFlowEnabled, credited, old(flow.inFlightBytes), body);
      forwarded := forwarded + [body];
      if action == Pause && attached {
        paused := true;
      }
    }

    /** The renderer's port takes frames and channel messages while it works. */
    predicate Accepts(body: packet)
      reads this`portBroken
    {
      !portBroken && (IsFrame(body) || isChannelMessage(body))
    }

    /** The frame socket's packet handler. */
    method HandlePacket(body: packet)
      requires Valid() && !paused && |body| <= MAX_FRAME_BYTES
      modifies this`connectionLost, this`destroyed, this`paused, this`forwarded, flow
      ensures Valid() && (old(destroyed) ==> destroyed)
      ensures Working() <==> old(Working()) && Accepts(body)
      ensures forwarded == if Accepts(body) then old(forwarded) + [body] else old(forwarded)
      ensures flow.inFlightBytes
        == old(flow.inFlightBytes) + if IsFrame(body) && Accepts(body) && frameFlowEnabled then |body| else 0
      ensures destroyed <==> old(destroyed) || (attached && old(Working()) && !Accepts(body))
      ensures paused ==> IsFrame(body) && frameFlowEnabled
    {
      hide Accounts, ReadUInt32LE, Balanced;
      if |body| >= 4 && ReadUInt32LE(body) == FRAME_MAGIC {
        ForwardFrame(body);
      } else if isChannelMessage(body) && !portBroken {
        ForwardingBalances(forwarded, enabledAt, frameFlowEnabled, credited, flow.inFlightBytes, body);
        forwarded := forwarded + [body];
      } else {
        ReportConnectionLost();
      }
    }

    /** One turn of the parser: take the whole packet at the front and act on
        it. The first packet must answer the authentication. */
    method TakePacket() returns (refused: bool)
      requires Valid() && !paused && (destroyed ==> authenticated)
      requires Whole(buffered, MAX_FRAME_BYTES)
      modifies this`buffered, this`wire, this`authenticated, this`settled, this`connectionLost, this`destroyed,
               this`paused, this`forwarded, flow
      ensures Valid() && (destroyed ==> authenticated || refused)
      ensures wire == old(wire) + [Body(old(buffered))] && buffered == Tail(old(buffered))
      ensures |buffered| < |old(buffered)|
      ensures refused <==> !old(authenticated) && Body(old(buffered)) != AUTHENTICATED
      ensures refused ==> destroyed
      ensures destroyed ==> refused || old(destroyed) || !Working()
      ensures Working() ==> old(Working())
      ensures !authenticated ==> forwarded == old(forwarded)
      ensures Working() && !refused ==>
        forwarded == if old(authenticated) then old(forwarded) + [Body(old(buffered))] else old(forwarded)
    {
      hide Accounts, ReadUInt32LE, Balanced;
      var body := Body(buffered);
      TakingKeepsAccount(received, wire, buffered, MAX_FRAME_BYTES);
      TakeOne(buffered, MAX_FRAME_BYTES);
      buffered := Tail(buffered);
      wire := wire + [body];
      refused := false;
      if !authenticated {
        settled := true;
        if body != AUTHENTICATED {
          destroyed := true;
          return true;
        }
        authenticated := true;
      } else {
        HandlePacket(body);
      }
    }

    /** The parser's loop: until the buffer holds no whole packet, the socket
        pauses, or the connection is refused. */
    method TakePackets() returns (ghost packets: seq<packet>)
      requires UpToDate() && !destroyed && !paused
      modifies this`buffered, this`wire, this`authenticated, this`settled, this`connectionLost,
               this`destroyed, this`paused, this`forwarded, flow
      ensures UpToDate() && wire == old(wire) + packets
      ensures Parsed(old(buffered), buffered, packets, MAX_FRAME_BYTES)
      ensures !paused && !destroyed ==> !Whole(buffered, MAX_FRAME_BYTES) && !OverQuota(buffered, MAX_FRAME_BYTES)
      ensures Working() && destroyed ==> OverQuota(buffered, MAX_FRAME_BYTES) || !authenticated
    {
      hide Accounts, Decode, Parsed, ReadUInt32LE, Body, Tail, Balanced;
      packets := [];
      ParsedNothing(buffered, MAX_FRAME_BYTES);
      while |buffered| >= 4
        invariant UpToDate() && !paused && (destroyed ==> authenticated && !Working())
        invariant wire == old(wire) + packets
        invariant Parsed(old(buffered), buffered, packets, MAX_FRAME_BYTES)
        decreases |buffered|
      {
        var length := ReadUInt32LE(buffered);
        if length > MAX_FRAME_BYTES {
          destroyed := true;
          return;
        }
        if |buffered| < 4 + length {
          return;
        }
        ParsedOneMore(old(buffered), buffered, packets, MAX_FRAME_BYTES);
        packets := packets + [Body(buffered)];
        var refused := TakePacket();
        if refused || paused {
          return;
        }
      }
    }

    /** `drainPackets`: never re-entered, and nothing is parsed while paused. */
    method DrainPackets()
      requires Sound() && !destroyed
      modifies this`buffered, this`draining, this`wire, this`authenticated, this`settled, this`connectionLost,
               this`destroyed, this`paused, this`forwarded, flow
      ensures Sound()
      ensures old(wire) <= wire
      // what is taken is what the decoder takes, in order
      ensures Parsed(old(buffered), buffered, wire[|old(wire)|..], MAX_FRAME_BYTES)
      // a paused socket parses nothing
      ensures old(paused) ==> wire == old(wire) && buffered == old(buffered) && forwarded == old(forwarded)
      // a running one leaves no whole packet behind, and none too long
      ensures !paused && !destroyed ==> !Whole(buffered, MAX_FRAME_BYTES) && !OverQuota(buffered, MAX_FRAME_BYTES)
      // only a length over quota or a refused authentication ends a working bridge here
      ensures Working() && destroyed ==> OverQuota(buffered, MAX_FRAME_BYTES) || !authenticated
    {
      hide Accounts, Decode, Parsed, ReadUInt32LE, Body, Tail, Balanced;
      if draining || paused {
        ParsedNothing(buffered, MAX_FRAME_BYTES);
        assert wire[|wire|..] == [];
        return;
      }
      draining := true;
      ghost var packets := TakePackets();
      assert wire[|old(wire)|..] == packets;
      draining := false;
    }

    /** A destroyed socket emits nothing more. */
    method OnData(chunk: seq<byte>)
      requires Sound()
      modifies this`received, this`buffered, this`draining, this`wire, this`authenticated, this`settled, this`connectionLost,
               this`destroyed, this`paused, this`forwarded, flow
      ensures Sound()
      ensures received == (if old(destroyed) then old(received) else old(received) + chunk)
      ensures old(wire) <= wire
      ensures old(paused) ==> wire == old(wire) && forwarded == old(forwarded)
      ensures !paused && !destroyed ==> !Whole(buffered, MAX_FRAME_BYTES)
    {
      if destroyed {
        return;
      }
      hide Accounts, Decode, ReadUInt32LE, Balanced;
      ArrivingKeepsAccount(received, wire, buffered, chunk, MAX_FRAME_BYTES);
      buffered := buffered + chunk;
      received := received + chunk;
      DrainPackets();
    }

    /** The socket's `resume` event. */
    method OnResume()
      requires Sound()
      modifies this`buffered, this`draining, this`wire, this`authenticated, this`settled, this`connectionLost,
               this`destroyed, this`paused, this`forwarded, flow
      ensures Sound() && received == old(received)
      ensures old(wire) <= wire
      ensures old(paused) ==> wire == old(wire) && forwarded == old(forwarded)
      ensures !paused && !destroyed ==> !Whole(buffered, MAX_FRAME_BYTES)
    {
      hide Accounts, Decode, ReadUInt32LE, Balanced;
      if destroyed {
        return;
      }
      DrainPackets();
    }

    /** `frameSocket = await connectSocket(..)` completes some time after the
        parser resolved it, and only then are the port's handlers registered. */
    method SocketAttached()
      requires Sound() && authenticated
      modifies this`attached
      ensures Sound() && attached
    {
      hide Accounts, Balanced, ReadUInt32LE;
      attached := true;
    }

    /** The renderer subscribes; the capability reply goes out before credits
        are switched on. */
    method OnSubscribe(credits: CreditOffer)
      requires Sound() && attached
      modifies this`frameFlowEnabled, this`enabledAt
      ensures Sound()
      ensures enabledAt == if frameFlowEnabled && !old(frameFlowEnabled) then |forwarded| else old(enabledAt)
      ensures frameFlowEnabled <==> old(frameFlowEnabled) || credits.Legacy? || (credits.Capabilities? && !portBroken)
    {
      hide Accounts, ReadUInt32LE;
      if !frameFlowEnabled && (credits.Legacy? || (credits.Capabilities? && !portBroken)) {
        enabledAt := |forwarded|;
      }
      match credits
      case Capabilities =>
        if !portBroken {
          frameFlowEnabled := true;
        }
      case Legacy => frameFlowEnabled := true;
      case Unsupported =>
    }

    /** The renderer credits frames it has consumed. */
    method OnCredit(bytes: int) returns (r: Result<Signal, RangeError>)
      requires Sound() && attached
      modifies this`paused, this`credited, flow
      ensures Sound()
      ensures !frameFlowEnabled ==> r == Ok(Quiet) && credited == old(credited) && flow.State() == old(flow.State())
      ensures frameFlowEnabled ==>
        (r.Ok? <==> 0 <= bytes <= MAX_SAFE_INTEGER && bytes <= old(flow.inFlightBytes))
      ensures frameFlowEnabled && r.Ok? ==> credited == old(credited) + bytes
      ensures frameFlowEnabled && r.Ok? && bytes == old(flow.inFlightBytes) ==> !paused || !Working()
      ensures r.Err? ==> credited == old(credited) && flow.State() == old(flow.State()) && paused == old(paused)
    {
      hide Accounts, ReadUInt32LE, FrameBytesSince;
      if !frameFlowEnabled {
        return Ok(Quiet);
      }
      r := flow.Release(bytes);
      if r.Ok? {
        credited := credited + bytes;
        if r.value == Resume {
          paused := false;
        }
      }
    }

    /** Error or close of the frame socket. */
    method OnDisconnect()
      requires Sound()
      modifies this`settled, this`connectionLost, this`destroyed
      ensures Sound() && settled && destroyed
      ensures connectionLost <==> old(connectionLost) || (old(settled) && authenticated && !rendererClosed)
    {
      hide Accounts, Balanced, ReadUInt32LE;
      if !settled {
        settled := true;
      } else if authenticated {
        ReportConnectionLost();
      }
      destroyed := true;
    }

    method OnAuthenticationTimeout()
      requires Sound()
      modifies this`settled, this`destroyed
      ensures Sound() && settled && (destroyed <==> old(destroyed) || !old(settled))
    {
      hide Accounts, Balanced, ReadUInt32LE;
      if !settled {
        settled := true;
        destroyed := true;
      }
    }

    method OnRendererClosed()
      requires Sound() && attached
      modifies this`rendererClosed, this`destroyed
      ensures Sound() && rendererClosed && destroyed
    {
      hide Accounts, Balanced, ReadUInt32LE;
      rendererClosed := true;
      destroyed := true;
    }

    /** The port starts or stops accepting messages. */
    method PortChanges(broken: bool)
      requires Sound()
      modifies this`portBroken
      ensures Sound() && portBroken == broken
    {
      hide Accounts, Balanced, ReadUInt32LE;
      portBroken := broken;
    }

    // ---------------------------------------------------------- interleavings

    predicate Possible(h: Happening)
      reads this
    {
      match h
      case Attaches => authenticated
      case Subscribes(_) => attached
      case Credits(_) => attached
      case RendererCloses => attached
      case _ => true
    }

    method Perform(h: Happening)
      requires Sound()
      modifies this, flow
      ensures Sound() && old(wire) <= wire
      ensures old(paused) && paused ==> wire == old(wire) && forwarded == old(forwarded)
      ensures old(credited) <= credited <= old(credited) + Offered(h)
      ensures performed == old(performed) + [h]
      ensures old(Possible(h)) ==>
        match h
        case Data(chunk) => received == if old(destroyed) then old(received) else old(received) + chunk
        case Attaches => attached
        case Subscribes(credits) =>
          frameFlowEnabled <==> old(frameFlowEnabled) || credits.Legacy? || (credits.Capabilities? && !portBroken)
        case Credits(bytes) =>
          credited == old(credited) + if frameFlowEnabled && 0 <= bytes <= old(flow.inFlightBytes) && bytes <= MAX_SAFE_INTEGER then bytes else 0
        case RendererCloses => rendererClosed && destroyed
        case Disconnects => settled && destroyed
        case AuthenticationExpires => settled && (destroyed <==> old(destroyed) || !old(settled))
        case PortTurns(broken) => portBroken == broken
        case Resumed => received == old(received) && (!paused && !destroyed ==> !Whole(buffered, MAX_FRAME_BYTES))
      ensures !h.Data? ==> received == old(received)
      ensures old(frameFlowEnabled) ==> frameFlowEnabled && enabledAt == old(enabledAt)
      ensures frameFlowEnabled && !old(frameFlowEnabled) ==> h.Subscribes? && enabledAt == |forwarded|
    {
      hide Accounts, Decode, ReadUInt32LE, Balanced;
      performed := performed + [h];
      if !Possible(h) {
        return;
      }
      match h
      case Data(chunk) => OnData(chunk);
      case Resumed => OnResume();
      case Attaches => SocketAttached();
      case Subscribes(credits) => OnSubscribe(credits);
      case Credits(bytes) => var r := OnCredit(bytes);
      case Disconnects => OnDisconnect();
      case AuthenticationExpires => OnAuthenticationTimeout();
      case RendererCloses => OnRendererClosed();
      case PortTurns(broken) => PortChanges(broken);
    }

    /** Over every interleaving of chunks, credits, pauses, resumes and failures:
        packets are taken in order, no more is credited than the renderer offered,
        and while the bridge works, the bytes of the frames forwarded since credits
        were switched on stay under those credited, the high-water mark (32 MiB) and one
        frame (16 MiB) together; paused, they are over the low-water mark (16 MiB). */
    method Run(happenings: seq<Happening>)
      requires Sound()
      modifies this, flow
      ensures Sound() && old(wire) <= wire
      ensures old(credited) <= credited <= old(credited) + OfferedInAll(happenings)
      ensures performed == old(performed) + happenings
      ensures old(frameFlowEnabled) ==> frameFlowEnabled && enabledAt == old(enabledAt)
      ensures Working() && frameFlowEnabled ==>
        var bytes := FrameBytesSince(forwarded, enabledAt);
        && enabledAt <= |forwarded| && credited <= bytes < credited + 0x300_0000
        && (paused ==> bytes > credited + 0x100_0000)
        && (bytes >= credited + 0x200_0000 ==> paused)
    {
      hide Accounts, Decode, ReadUInt32LE;
      assert happenings[..|happenings|] == happenings;
      for i := 0 to |happenings|
        invariant Sound() && old(wire) <= wire
        invariant old(credited) <= credited <= old(credited) + OfferedInAll(happenings[..i])
        invariant performed == old(performed) + happenings[..i]
        invariant old(frameFlowEnabled) ==> frameFlowEnabled && enabledAt == old(enabledAt)
      {
        assert happenings[..i + 1][..i] == happenings[..i];
        Perform(happenings[i]);
      }
    }

    // ---------------------------------------------------------------- theorems

    /** Whatever list of packets the daemon sends, and however its bytes were
        cut and its socket paused, what was taken off the wire is a prefix of
        the list and what is buffered is the start of the rest. */
    lemma TakenIsPrefix(sent: seq<packet>)
      requires Sound() && Within(sent, MAX_FRAME_BYTES) && received <= Encode(sent)
      ensures wire <= sent
      ensures authenticated && Working() ==> forwarded == wire[1..]
      ensures buffered <= Encode(sent[|wire|..])
      ensures !Whole(buffered, MAX_FRAME_BYTES) && received == Encode(sent) ==> wire == sent
    {
      AccountIsPrefix(received, wire, buffered, sent, MAX_FRAME_BYTES);
    }
  }
}
