/** Length-prefixed packets (bridge-socket.ts, ghosttea-client/src/index.ts):
    the encoder both ends share, and the one-shot decoder their streaming
    parsers are measured against. */
module Framing {
  type byte = n: int | 0 <= n < 256

  const U32_MAX: int := 0xFFFF_FFFF

  /** The `width` low-order bytes of a number, least significant first. */
  function Little(n: nat, width: nat): (b: seq<byte>)
    ensures |b| == width
    decreases width
  {
    if width == 0 then [] else [n % 256] + Little(n / 256, width - 1)
  }

  function Value(b: seq<byte>): nat
    decreases |b|
  {
    if b == [] then 0 else (b[0] as int) + 256 * Value(b[1..])
  }

  function Radix(width: nat): nat {
    if width == 0 then 1 else 256 * Radix(width - 1)
  }

  lemma {:induction false} LittleRoundTrip(n: nat, width: nat)
    requires n < Radix(width)
    ensures Value(Little(n, width)) == n
    decreases width
  {
    if width > 0 {
      LittleRoundTrip(n / 256, width - 1);
      assert Little(n, width)[1..] == Little(n / 256, width - 1);
    }
  }

  lemma {:induction false} ValueRoundTrip(b: seq<byte>)
    ensures Value(b) < Radix(|b|) && Little(Value(b), |b|) == b
    decreases |b|
  {
    if b != [] {
      ValueRoundTrip(b[1..]);
      assert Value(b) / 256 == Value(b[1..]) && Value(b) % 256 == b[0];
    }
  }

  /** Byte `i` weighs 256 to the `i`: the least significant comes first. */
  lemma {:induction false} ByteWeighs(b: seq<byte>, i: nat)
    requires i < |b| && b[i] < 255
    ensures Value(b[i := b[i] + 1]) == Value(b) + Radix(i)
    decreases |b|
  {
    var more := b[i := b[i] + 1];
    if i == 0 {
      assert more[1..] == b[1..];
    } else {
      ByteWeighs(b[1..], i - 1);
      assert more[1..] == b[1..][i - 1 := b[i] + 1];
    }
  }

  lemma {:induction false} NoBytesNoValue(b: seq<byte>)
    requires forall i | 0 <= i < |b| :: b[i] == 0
    ensures Value(b) == 0
    decreases |b|
  {
    if b != [] {
      NoBytesNoValue(b[1..]);
    }
  }

  lemma FourBytes()
    ensures Radix(4) == U32_MAX + 1
  {
    assert Radix(1) == 256 && Radix(2) == 0x1_0000 && Radix(3) == 0x100_0000;
  }

  function WriteUInt32LE(n: nat): (b: seq<byte>)
    requires n <= U32_MAX
    ensures |b| == 4
  {
    Little(n, 4)
  }

  function ReadUInt32LE(b: seq<byte>): nat
    requires |b| >= 4
  {
    Value(b[..4])
  }

  /** A body short enough for its length prefix. */
  type packet = p: seq<byte> | |p| <= U32_MAX

  /** `packet`. */
  function Frame(body: packet): seq<byte> {
    WriteUInt32LE(|body|) + body
  }

  /** The wire image of a list of packets. */
  function Encode(packets: seq<packet>): seq<byte>
    decreases |packets|
  {
    if packets == [] then [] else Frame(packets[0]) + Encode(packets[1..])
  }

  ghost predicate Within(packets: seq<packet>, limit: nat) {
    forall i | 0 <= i < |packets| :: |packets[i]| <= limit
  }

  datatype Decoded = Decoded(packets: seq<packet>, rest: seq<byte>, overQuota: bool)
  {
    function After(earlier: seq<packet>): Decoded {
      this.(packets := earlier + packets)
    }
  }

  /** Whether the buffer starts with a whole packet within quota. */
  predicate Whole(buffer: seq<byte>, limit: nat) {
    |buffer| >= 4 && ReadUInt32LE(buffer) <= limit && |buffer| >= 4 + ReadUInt32LE(buffer)
  }

  predicate OverQuota(buffer: seq<byte>, limit: nat) {
    |buffer| >= 4 && ReadUInt32LE(buffer) > limit
  }

  function Body(buffer: seq<byte>): packet
    requires |buffer| >= 4 && |buffer| >= 4 + ReadUInt32LE(buffer)
  {
    PrefixInverse(buffer);
    buffer[4..4 + ReadUInt32LE(buffer)]
  }

  function Tail(buffer: seq<byte>): seq<byte>
    requires |buffer| >= 4 && |buffer| >= 4 + ReadUInt32LE(buffer)
  {
    buffer[4 + ReadUInt32LE(buffer)..]
  }

  function Decode(buffer: seq<byte>, limit: nat): Decoded
    decreases |buffer|
  {
    if Whole(buffer, limit) then Decode(Tail(buffer), limit).After([Body(buffer)])
    else Decoded([], buffer, OverQuota(buffer, limit))
  }

  lemma PrefixRoundTrip(n: nat, more: seq<byte>)
    requires n <= U32_MAX
    ensures ReadUInt32LE(WriteUInt32LE(n) + more) == n
  {
    FourBytes();
    LittleRoundTrip(n, 4);
    assert (WriteUInt32LE(n) + more)[..4] == WriteUInt32LE(n);
  }

  lemma PrefixInverse(b: seq<byte>)
    requires |b| >= 4
    ensures ReadUInt32LE(b) <= U32_MAX && WriteUInt32LE(ReadUInt32LE(b)) == b[..4]
  {
    FourBytes();
    ValueRoundTrip(b[..4]);
  }

  /** Taking one whole packet off a buffer is undone by framing it again. */
  lemma TakeOne(buffer: seq<byte>, limit: nat)
    requires Whole(buffer, limit)
    ensures |Body(buffer)| <= limit
    ensures Frame(Body(buffer)) + Tail(buffer) == buffer
  {
    hide ReadUInt32LE, WriteUInt32LE;
    PrefixInverse(buffer);
    assert buffer == buffer[..4] + Body(buffer) + Tail(buffer);
  }

  /** A buffer that begins with a framed packet yields that packet. */
  lemma PutOne(body: packet, more: seq<byte>, limit: nat)
    requires |body| <= limit
    ensures Whole(Frame(body) + more, limit)
    ensures Body(Frame(body) + more) == body && Tail(Frame(body) + more) == more
  {
    hide ReadUInt32LE, WriteUInt32LE;
    PrefixRoundTrip(|body|, body + more);
    assert Frame(body) + more == WriteUInt32LE(|body|) + (body + more);
  }

  lemma EncodeHead(packets: seq<packet>, more: seq<byte>)
    requires packets != []
    ensures Encode(packets) + more == Frame(packets[0]) + (Encode(packets[1..]) + more)
  {
    hide Frame, ReadUInt32LE;
  }

  lemma {:induction false} EncodeAppend(a: seq<packet>, b: seq<packet>)
    ensures Encode(a + b) == Encode(a) + Encode(b)
    decreases |a|
  {
    hide Frame, ReadUInt32LE;
    if a == [] {
      assert a + b == b;
    } else {
      EncodeAppend(a[1..], b);
      assert (a + b)[1..] == a[1..] + b;
      EncodeHead(a, Encode(b));
    }
  }

  lemma DecodeOne(body: packet, more: seq<byte>, limit: nat)
    requires |body| <= limit
    ensures Decode(Frame(body) + more, limit) == Decode(more, limit).After([body])
  {
    hide Frame, ReadUInt32LE;
    PutOne(body, more, limit);
  }

  lemma AfterAfter(d: Decoded, a: seq<packet>, b: seq<packet>)
    ensures d.After(b).After(a) == d.After(a + b)
  {
    hide Frame, ReadUInt32LE;
    assert a + (b + d.packets) == (a + b) + d.packets;
  }

  /** Round trip: decoding an encoded list gives the list back, whatever
      follows it on the wire. */
  lemma {:induction false} DecodeEncoded(packets: seq<packet>, more: seq<byte>, limit: nat)
    requires Within(packets, limit)
    ensures Decode(Encode(packets) + more, limit) == Decode(more, limit).After(packets)
    decreases |packets|
  {
    hide Frame, ReadUInt32LE;
    if packets == [] {
      assert Encode(packets) + more == more;
      assert packets + Decode(more, limit).packets == Decode(more, limit).packets;
    } else {
      EncodeHead(packets, more);
      DecodeEncoded(packets[1..], more, limit);
      DecodeOne(packets[0], Encode(packets[1..]) + more, limit);
      AfterAfter(Decode(more, limit), [packets[0]], packets[1..]);
      assert packets == [packets[0]] + packets[1..];
    }
  }

  /** Nothing is lost or invented: the packets and what is left re-encode to the
      bytes that came in. */
  lemma {:induction false} DecodeConserves(buffer: seq<byte>, limit: nat)
    ensures Within(Decode(buffer, limit).packets, limit)
    ensures Encode(Decode(buffer, limit).packets) + Decode(buffer, limit).rest == buffer
    decreases |buffer|
  {
    hide Frame, ReadUInt32LE;
    var d := Decode(buffer, limit);
    if Whole(buffer, limit) {
      TakeOne(buffer, limit);
      DecodeConserves(Tail(buffer), limit);
      assert d.packets[1..] == Decode(Tail(buffer), limit).packets;
      EncodeHead(d.packets, d.rest);
    } else {
      assert Encode([]) + buffer == buffer;
    }
  }

  lemma WholeKeeps(buffer: seq<byte>, chunk: seq<byte>, limit: nat)
    requires |buffer| >= 4
    ensures ReadUInt32LE(buffer + chunk) == ReadUInt32LE(buffer)
    ensures Whole(buffer, limit) ==>
              Whole(buffer + chunk, limit)
              && Body(buffer + chunk) == Body(buffer) && Tail(buffer + chunk) == Tail(buffer) + chunk
  {
    assert (buffer + chunk)[..4] == buffer[..4];
  }

  /** A chunk boundary changes nothing: decoding what had arrived and then the
      rest with the new chunk is decoding it all at once. */
  lemma {:induction false} DecodeChunk(buffer: seq<byte>, chunk: seq<byte>, limit: nat)
    requires !Decode(buffer, limit).overQuota
    ensures Decode(buffer + chunk, limit)
            == Decode(Decode(buffer, limit).rest + chunk, limit).After(Decode(buffer, limit).packets)
    decreases |buffer|
  {
    hide Frame, ReadUInt32LE;
    var d := Decode(buffer, limit);
    var e := Decode(d.rest + chunk, limit);
    if Whole(buffer, limit) {
      WholeKeeps(buffer, chunk, limit);
      DecodeChunk(Tail(buffer), chunk, limit);
      AfterAfter(e, [Body(buffer)], Decode(Tail(buffer), limit).packets);
    } else {
      assert [] + e.packets == e.packets;
    }
  }

  /** A parser has taken exactly the decoder's next packets off its buffer. */
  ghost predicate Parsed(before: seq<byte>, after: seq<byte>, taken: seq<packet>, limit: nat) {
    Decode(before, limit) == Decode(after, limit).After(taken)
  }

  lemma ParsedNothing(buffer: seq<byte>, limit: nat)
    ensures Parsed(buffer, buffer, [], limit)
  {
    var d := Decode(buffer, limit);
    assert [] + d.packets == d.packets;
  }

  lemma ParsedOneMore(before: seq<byte>, buffer: seq<byte>, taken: seq<packet>, limit: nat)
    requires Parsed(before, buffer, taken, limit) && Whole(buffer, limit)
    ensures Parsed(before, Tail(buffer), taken + [Body(buffer)], limit)
  {
    AfterAfter(Decode(Tail(buffer), limit), taken, [Body(buffer)]);
  }

  /** Bytes past a refused length change neither the packets nor the refusal. */
  lemma {:induction false} OverQuotaIsFinal(buffer: seq<byte>, chunk: seq<byte>, limit: nat)
    requires Decode(buffer, limit).overQuota
    ensures Decode(buffer + chunk, limit).overQuota
    ensures Decode(buffer + chunk, limit).packets == Decode(buffer, limit).packets
    decreases |buffer|
  {
    hide Frame, ReadUInt32LE;
    WholeKeeps(buffer, chunk, limit);
    if Whole(buffer, limit) {
      OverQuotaIsFinal(Tail(buffer), chunk, limit);
    }
  }

  lemma DecodeWhole(packets: seq<packet>, limit: nat)
    requires Within(packets, limit)
    ensures Decode(Encode(packets), limit) == Decoded(packets, [], false)
  {
    hide Frame, ReadUInt32LE;
    DecodeEncoded(packets, [], limit);
    assert Encode(packets) + [] == Encode(packets);
    assert packets + [] == packets;
  }

  lemma RestIsPrefix(a: seq<byte>, b: seq<byte>, rest: seq<byte>, missing: seq<byte>)
    requires a + b == a + rest + missing
    ensures rest <= b
  {
    assert |b| == |rest| + |missing|;
    forall i | 0 <= i < |rest| ensures b[i] == rest[i] {
      assert b[i] == (a + b)[|a| + i];
      assert rest[i] == (a + rest + missing)[|a| + i];
    }
  }

  /** However the wire image of a list is cut, the part that has arrived decodes
      to a prefix of the list, and the undecoded bytes are the start of the
      rest. */
  lemma DecodePartial(packets: seq<packet>, arrived: seq<byte>, limit: nat)
    requires Within(packets, limit) && arrived <= Encode(packets)
    ensures !Decode(arrived, limit).overQuota
    ensures Decode(arrived, limit).packets <= packets
    ensures Decode(arrived, limit).rest <= Encode(packets[|Decode(arrived, limit).packets|..])
  {
    hide Frame, ReadUInt32LE;
    var missing := Encode(packets)[|arrived|..];
    assert Encode(packets) == arrived + missing;
    DecodeWhole(packets, limit);
    var d := Decode(arrived, limit);
    if d.overQuota {
      OverQuotaIsFinal(arrived, missing, limit);
    } else {
      DecodeChunk(arrived, missing, limit);
      DecodeConserves(arrived, limit);
      var left := packets[|d.packets|..];
      EncodeSplit(packets, |d.packets|);
      RestIsPrefix(Encode(d.packets), Encode(left), d.rest, missing);
    }
  }

  lemma EncodeSplit(packets: seq<packet>, n: nat)
    requires n <= |packets|
    ensures Encode(packets) == Encode(packets[..n]) + Encode(packets[n..])
  {
    hide *;
    EncodeAppend(packets[..n], packets[n..]);
    assert packets[..n] + packets[n..] == packets;
  }

  /** A parser's account of a connection: what it took, then what it holds. */
  ghost predicate Accounts(received: seq<byte>, wire: seq<packet>, buffered: seq<byte>, limit: nat) {
    Within(wire, limit) && received == Encode(wire) + buffered
  }

  lemma NewAccount(limit: nat)
    ensures Accounts([], [], [], limit)
  {
    assert Encode([]) + [] == [];
  }

  /** Taking a whole packet off the buffer keeps the account. */
  lemma TakingKeepsAccount(received: seq<byte>, wire: seq<packet>, buffered: seq<byte>, limit: nat)
    requires Accounts(received, wire, buffered, limit) && Whole(buffered, limit)
    ensures Accounts(received, wire + [Body(buffered)], Tail(buffered), limit)
  {
    hide Frame, ReadUInt32LE;
    var body, rest := Body(buffered), Tail(buffered);
    TakeOne(buffered, limit);
    EncodeAppend(wire, [body]);
    assert Encode([body]) == Frame(body) + Encode([]) == Frame(body);
    assert Encode(wire) + Frame(body) + rest == Encode(wire) + (Frame(body) + rest);
  }

  lemma ArrivingKeepsAccount(received: seq<byte>, wire: seq<packet>, buffered: seq<byte>, chunk: seq<byte>, limit: nat)
    requires Accounts(received, wire, buffered, limit)
    ensures Accounts(received + chunk, wire, buffered + chunk, limit)
  {
    hide Frame;
    assert Encode(wire) + buffered + chunk == Encode(wire) + (buffered + chunk);
  }

  /** Whatever list the other end sends and however its bytes are cut, a parser
      that keeps the account has taken a prefix of the list and holds the start
      of the rest; and once everything has arrived and no whole packet is held,
      it has taken the list. */
  lemma AccountIsPrefix(received: seq<byte>, wire: seq<packet>, buffered: seq<byte>, sent: seq<packet>, limit: nat)
    requires Accounts(received, wire, buffered, limit)
    requires Within(sent, limit) && received <= Encode(sent)
    ensures wire <= sent
    ensures buffered <= Encode(sent[|wire|..])
    ensures !Whole(buffered, limit) && received == Encode(sent) ==> wire == sent
  {
    hide Frame, ReadUInt32LE;
    DecodeEncoded(wire, buffered, limit);
    DecodePartial(sent, received, limit);
    var missing := Encode(sent)[|received|..];
    assert Encode(sent) == received + missing;
    EncodeSplit(sent, |wire|);
    assert sent[..|wire|] == wire;
    RestIsPrefix(Encode(wire), Encode(sent[|wire|..]), buffered, missing);
    if received == Encode(sent) && !Whole(buffered, limit) {
      DecodeWhole(sent, limit);
      assert wire + [] == wire;
    }
  }
}
