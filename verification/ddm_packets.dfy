/**
 The packets exchanged with a debugger before the agent is loaded: a JDWP header (length, id, flags
 and command, all big-endian) followed by one DDM chunk (type, length, payload).
 */
module DdmPackets {

  type Byte = x: int | 0 <= x < 0x100

  type U32 = x: int | 0 <= x < 0x1_0000_0000

  const JDWP_HEADER: nat := 11
  const DDM_HEADER: nat := 19
  const DDM_COMMAND_SET: Byte := 199
  const DDM_COMMAND: Byte := 1

  /** A length as the 32 bits that are sent. */
  function Wrap(n: nat): U32 {
    n % 0x1_0000_0000
  }

  function Bytes(v: U32): (r: seq<Byte>)
    ensures |r| == 4
  {
    [v / 0x100_0000, v / 0x1_0000 % 0x100, v / 0x100 % 0x100, v % 0x100]
  }

  function Value(b: seq<Byte>): U32
    requires |b| == 4
  {
    var high: int, midHigh: int, midLow: int, low: int := b[0], b[1], b[2], b[3];
    high * 0x100_0000 + midHigh * 0x1_0000 + midLow * 0x100 + low
  }

  lemma ValueOfBytes(v: U32)
    ensures Value(Bytes(v)) == v
  {
    assert v / 0x1_0000 == v / 0x1_0000 / 0x100 * 0x100 + v / 0x1_0000 % 0x100;
    assert v / 0x100 == v / 0x100 / 0x100 * 0x100 + v / 0x100 % 0x100;
  }

  // --- Writing -----------------------------------------------------------------------------------------

  datatype Kind = Command | Reply

  function Flags(kind: Kind): Byte {
    if kind.Reply? then 0x80 else 0
  }

  /** The last two bytes of the JDWP header: a command and its set, or an error code of 0. */
  function CommandBytes(kind: Kind): seq<Byte> {
    if kind.Reply? then [0, 0] else [DDM_COMMAND_SET, DDM_COMMAND]
  }

  function JdwpHeader(id: U32, kind: Kind, length: nat): (r: seq<Byte>)
    ensures |r| == JDWP_HEADER
  {
    Bytes(Wrap(DDM_HEADER + length)) + Bytes(id) + [Flags(kind)] + CommandBytes(kind)
  }

  function Header(id: U32, kind: Kind, chunk: U32, length: nat): (r: seq<Byte>)
    ensures |r| == DDM_HEADER
  {
    JdwpHeader(id, kind, length) + Bytes(chunk) + Bytes(Wrap(length))
  }

  function Packet(id: U32, kind: Kind, chunk: U32, data: seq<Byte>): seq<Byte> {
    Header(id, kind, chunk, |data|) + data
  }

  /** Stores a number and returns the position behind it. */
  method Put(pkt: array<Byte>, at: nat, v: U32) returns (next: nat)
    requires at + 4 <= pkt.Length
    modifies pkt
    ensures next == at + 4
    ensures pkt[..next] == old(pkt[..at]) + Bytes(v)
  {
    var b := Bytes(v);
    pkt[at], pkt[at + 1], pkt[at + 2], pkt[at + 3] := b[0], b[1], b[2], b[3];
    next := at + 4;
  }

  method PutByte(pkt: array<Byte>, at: nat, b: Byte) returns (next: nat)
    requires at < pkt.Length
    modifies pkt
    ensures next == at + 1
    ensures pkt[..next] == old(pkt[..at]) + [b]
  {
    pkt[at] := b;
    next := at + 1;
  }

  /** Fills the header from front to back and sends it with the payload behind it. */
  method WritePacket(id: U32, kind: Kind, chunk: U32, data: seq<Byte>) returns (sent: seq<Byte>)
    ensures sent == Packet(id, kind, chunk, data)
  {
    var pkt := new Byte[DDM_HEADER](_ => 0);
    var at := WriteJdwpHeader(pkt, id, kind, |data|);
    at := Put(pkt, at, chunk);
    at := Put(pkt, at, Wrap(|data|));
    sent := pkt[..] + data;
  }

  method WriteJdwpHeader(pkt: array<Byte>, id: U32, kind: Kind, length: nat) returns (at: nat)
    requires pkt.Length == DDM_HEADER
    modifies pkt
    ensures at == JDWP_HEADER && pkt[..at] == JdwpHeader(id, kind, length)
  {
    at := Put(pkt, 0, Wrap(DDM_HEADER + length));
    at := Put(pkt, at, id);
    at := PutByte(pkt, at, Flags(kind));
    match kind {
      case Command =>
        at := PutByte(pkt, at, DDM_COMMAND_SET);
        at := PutByte(pkt, at, DDM_COMMAND);
      case Reply =>
        at := PutByte(pkt, at, 0);
        at := PutByte(pkt, at, 0);
    }
  }

  // --- Reading -----------------------------------------------------------------------------------------

  /** Which of the system calls fail. */
  datatype Faults = Faults(peek: bool, available: bool, receive: bool)

  const NO_FAULTS: Faults := Faults(false, false, false)

  /** What is done with the data at hand; `rest` is what stays in the socket. */
  datatype Reading =
    | CloseSocket
    | LoadAgent
    | Dropped(rest: seq<Byte>)
    | Chunk(id: U32, chunk: U32, payload: seq<Byte>, rest: seq<Byte>)

  function Number(stream: seq<Byte>, at: nat): U32
    requires at + 4 <= |stream|
  {
    Value(stream[at..at + 4])
  }

  function Read(stream: seq<Byte>, faults: Faults): Reading {
    if faults.peek || stream == [] then CloseSocket
    else if |stream| < JDWP_HEADER then LoadAgent
    else
      var fullLength := Number(stream, 0);
      if stream[9] != DDM_COMMAND_SET || stream[10] != DDM_COMMAND || fullLength < JDWP_HEADER then LoadAgent
      else if faults.available then CloseSocket
      else if |stream| < fullLength then LoadAgent
      else if faults.receive then CloseSocket
      else
        var dataSize := fullLength - JDWP_HEADER;
        if dataSize < 8 then Dropped(stream[fullLength..])
        else
          var length := Number(stream, 15);
          if length > dataSize - 8 then Dropped(stream[fullLength..])
          else Chunk(Number(stream, 4), Number(stream, 11), stream[DDM_HEADER..DDM_HEADER + length],
                     stream[fullLength..])
  }

  /** A number as its four bytes stand in a packet, the most significant first. */
  predicate StandsAt(s: seq<Byte>, at: nat, n: int) {
    at + 4 <= |s| &&
    var b0: int, b1: int, b2: int, b3: int := s[at], s[at + 1], s[at + 2], s[at + 3];
    b0 * 16777216 + b1 * 65536 + b2 * 256 + b3 == n
  }

  lemma NumberStands(s: seq<Byte>, at: nat)
    requires at + 4 <= |s|
    ensures StandsAt(s, at, Number(s, at))
  {
  }

  /** What each byte of a packet is, as long as its length fits. */
  lemma PacketLayout(id: U32, kind: Kind, chunk: U32, data: seq<Byte>)
    requires 19 + |data| < 0x1_0000_0000
    ensures var p := Packet(id, kind, chunk, data);
            && |p| == 19 + |data|
            && StandsAt(p, 0, 19 + |data|) && StandsAt(p, 4, id)
            && p[8] == (if kind.Reply? then 128 else 0)
            && p[9] == (if kind.Reply? then 0 else 199) && p[10] == (if kind.Reply? then 0 else 1)
            && StandsAt(p, 11, chunk) && StandsAt(p, 15, |data|)
            && p[19..] == data
  {
    hide Packet, Number, StandsAt;
    var p := Packet(id, kind, chunk, data);
    HeaderFields(id, kind, chunk, data, []);
    assert p + [] == p;
    NumberStands(p, 0);
    NumberStands(p, 4);
    NumberStands(p, 11);
    NumberStands(p, 15);
  }

  /**
   What is done with the bytes at hand, by what they are: a DDM command is handled if it has all
   arrived and its chunk fits into it; any other packet, and one that has not arrived, is for the agent.
   */
  lemma ReadByContent(s: seq<Byte>, faults: Faults, n: nat)
    requires |s| >= 11 ==> StandsAt(s, 0, n)
    ensures var r := Read(s, faults);
            var isDdm := |s| >= 11 && s[9] == 199 && s[10] == 1 && n >= 11;
            var arrived := isDdm && n <= |s|;
            && (r.CloseSocket? <==> faults.peek || s == [] || (isDdm && faults.available) || (arrived && faults.receive))
            && (r.LoadAgent? <==> !faults.peek && s != [] && !(isDdm && faults.available) && !arrived)
            && (r.Dropped? || r.Chunk? <==> arrived && !faults.peek && !faults.available && !faults.receive)
            && (r.Dropped? ==> r.rest == s[n..])
  {
  }

  /** A chunk is taken out of a command exactly if it fits, and then it is what the bytes say. */
  lemma ChunkByContent(s: seq<Byte>, n: nat, length: nat, id: U32, chunk: U32)
    requires 11 <= n <= |s| && StandsAt(s, 0, n) && s[9] == 199 && s[10] == 1
    requires n >= 19 ==> StandsAt(s, 4, id) && StandsAt(s, 11, chunk) && StandsAt(s, 15, length)
    ensures Read(s, NO_FAULTS) ==
            if n >= 19 && length <= n - 19 then Chunk(id, chunk, s[19..19 + length], s[n..]) else Dropped(s[n..])
  {
  }

  /** An accepted chunk lies inside its packet, which is inside what has arrived. */
  lemma ChunkInsidePacket(stream: seq<Byte>, faults: Faults)
    requires Read(stream, faults).Chunk?
    ensures |stream| >= DDM_HEADER
    ensures var fullLength, payload := Number(stream, 0), Read(stream, faults).payload;
            && DDM_HEADER + |payload| <= fullLength <= |stream|
            && |payload| == Number(stream, 15)
            && payload <= stream[DDM_HEADER..fullLength]
            && stream == stream[..fullLength] + Read(stream, faults).rest
  {
  }

  lemma HeaderFields(id: U32, kind: Kind, chunk: U32, data: seq<Byte>, more: seq<Byte>)
    ensures var s := Packet(id, kind, chunk, data) + more;
            && |s| == DDM_HEADER + |data| + |more|
            && Number(s, 0) == Wrap(DDM_HEADER + |data|)
            && Number(s, 4) == id
            && s[8] == Flags(kind) && [s[9], s[10]] == CommandBytes(kind)
            && Number(s, 11) == chunk
            && Number(s, 15) == Wrap(|data|)
            && s[DDM_HEADER..DDM_HEADER + |data|] == data
            && s[DDM_HEADER + |data|..] == more
  {
    var s := Packet(id, kind, chunk, data) + more;
    assert s[0..4] == Bytes(Wrap(DDM_HEADER + |data|));
    assert s[4..8] == Bytes(id);
    assert s[11..15] == Bytes(chunk);
    assert s[15..19] == Bytes(Wrap(|data|));
    ValueOfBytes(Wrap(DDM_HEADER + |data|));
    ValueOfBytes(id);
    ValueOfBytes(chunk);
    ValueOfBytes(Wrap(|data|));
  }

  lemma ReadsChunk(s: seq<Byte>, n: nat)
    requires |s| >= DDM_HEADER + n && [s[9], s[10]] == CommandBytes(Command)
    requires Number(s, 0) == DDM_HEADER + n && Number(s, 15) == n
    ensures Read(s, NO_FAULTS) ==
            Chunk(Number(s, 4), Number(s, 11), s[DDM_HEADER..DDM_HEADER + n], s[DDM_HEADER + n..])
  {
  }

  lemma CutShort(s: seq<Byte>, n: nat)
    requires |s| >= DDM_HEADER && Number(s, 0) < DDM_HEADER + n && Read(s, NO_FAULTS).Chunk?
    ensures |Read(s, NO_FAULTS).payload| < n
  {
  }

  /**
   A command is read back as it was written, leaving what follows it, exactly when its length fits
   in 32 bits.
   */
  lemma CommandRoundTrip(id: U32, chunk: U32, data: seq<Byte>, more: seq<Byte>)
    ensures Read(Packet(id, Command, chunk, data) + more, NO_FAULTS) == Chunk(id, chunk, data, more) <==>
            DDM_HEADER + |data| < 0x1_0000_0000
  {
    HeaderFields(id, Command, chunk, data, more);
    Recognised(Packet(id, Command, chunk, data) + more, |data|);
  }

  lemma Recognised(s: seq<Byte>, n: nat)
    requires |s| >= DDM_HEADER + n && [s[9], s[10]] == CommandBytes(Command)
    requires Number(s, 0) == Wrap(DDM_HEADER + n) && Number(s, 15) == Wrap(n)
    ensures var whole := Chunk(Number(s, 4), Number(s, 11), s[DDM_HEADER..DDM_HEADER + n], s[DDM_HEADER + n..]);
            Read(s, NO_FAULTS) == whole <==> DDM_HEADER + n < 0x1_0000_0000
  {
    if DDM_HEADER + n < 0x1_0000_0000 {
      ReadsChunk(s, n);
    } else if Read(s, NO_FAULTS).Chunk? {
      CutShort(s, n);
    }
  }

  /** What this side sends as a reply is never taken for a command. */
  lemma ReplyIsNoCommand(id: U32, chunk: U32, data: seq<Byte>, more: seq<Byte>, faults: Faults)
    ensures !Read(Packet(id, Reply, chunk, data) + more, faults).Chunk?
  {
  }

  // --- Streams of packets --------------------------------------------------------------------------------

  datatype Message = Message(id: U32, chunk: U32, data: seq<Byte>)

  predicate Sendable(messages: seq<Message>) {
    forall m :: m in messages ==> DDM_HEADER + |m.data| < 0x1_0000_0000
  }

  function Stream(messages: seq<Message>): seq<Byte> {
    if messages == [] then []
    else Packet(messages[0].id, Command, messages[0].chunk, messages[0].data) + Stream(messages[1..])
  }

  /** The chunks read from a socket until one of them needs something else. */
  function Received(stream: seq<Byte>): seq<Message>
    decreases |stream|
  {
    var r := Read(stream, NO_FAULTS);
    if r.Chunk? then
      ChunkInsidePacket(stream, NO_FAULTS);
      [Message(r.id, r.chunk, r.payload)] + Received(r.rest)
    else []
  }

  /** Packets sent one after another are received one by one, in order. */
  lemma {:induction false} StreamRoundTrip(messages: seq<Message>)
    requires Sendable(messages)
    ensures Received(Stream(messages)) == messages
  {
    if messages != [] {
      var m, later := messages[0], messages[1..];
      CommandRoundTrip(m.id, m.chunk, m.data, Stream(later));
      StreamRoundTrip(later);
    }
  }
}
