/**
 The thread that connects a process to adbd: it holds at most one debugger connection, handles it
 itself until a packet needs the JDWP agent, and from then on hands connections to the agent.
 */
module AdbConnection {

  import opened Options
  import opened DdmPackets

  type Fd = nat

  /** What the runtime is told about the DDM client. */
  datatype DdmEvent = Connected | Disconnected

  /** A connection passed to the agent, which performs the handshake if asked to. */
  datatype Handover = Handover(fd: Fd, performHandshake: bool)

  /** A packet written to the connection. */
  datatype Sent = Sent(id: U32, kind: Kind, chunk: U32, data: seq<Byte>)

  datatype Conn = Conn(
    socket: Option<Fd>, agentLoaded: bool, agentListening: bool, agentHasSocket: bool, sentAgentFds: bool,
    performedHandshake: bool, notifiedDdmActive: bool, jdwpAllowed: bool,
    ddm: seq<DdmEvent>, handovers: seq<Handover>, written: seq<Sent>)

  /** A process that can be debugged, or one that can only be profiled. */
  function Initial(jdwpAllowed: bool): Conn {
    Conn(None, false, false, false, false, false, false, jdwpAllowed, [], [], [])
  }

  const HANDSHAKE: seq<Byte> := [74, 68, 87, 80, 45, 72, 97, 110, 100, 115, 104, 97, 107, 101]

  datatype AgentMessage = ListenStart | ListenEnd | HandshakeComplete | Close | Accept | Unknown

  /** How the calls made while handling data end. */
  datatype Calls = Calls(faults: Faults, answered: bool, attached: bool, reply: Option<(U32, seq<Byte>)>)

  /** What wakes the thread up; `delivered` tells whether descriptors can be sent to the agent. */
  datatype Event =
    | FromAgent(message: AgentMessage, delivered: bool)
    | FromAdbd(fd: Option<Fd>, delivered: bool)
    | AdbdHangUp
    | SocketData(data: seq<Byte>, calls: Calls, delivered: bool)
    | SocketHangUp
    | Other

  /** The agent is polled once loaded; the connection only while it is not the agent's. */
  predicate Polled(c: Conn, e: Event) {
    match e
    case FromAgent(_, _) => c.agentLoaded
    case SocketData(_, _, _) => c.socket.Some? && !c.agentHasSocket && !c.sentAgentFds
    case SocketHangUp => c.socket.Some? && !c.agentHasSocket && !c.sentAgentFds
    case _ => true
  }

  /** The agent's end is polled from loading on, the connection as long as the agent neither has it nor was sent it. */
  lemma PollSet(c: Conn, message: AgentMessage, data: seq<Byte>, calls: Calls, delivered: bool, fd: Option<Fd>)
    ensures Polled(c, FromAgent(message, delivered)) <==> c.agentLoaded
    ensures Polled(c, SocketData(data, calls, delivered)) <==> c.socket.Some? && !c.agentHasSocket && !c.sentAgentFds
    ensures Polled(c, SocketHangUp) <==> c.socket.Some? && !c.agentHasSocket && !c.sentAgentFds
    ensures Polled(c, FromAdbd(fd, delivered)) && Polled(c, AdbdHangUp) && Polled(c, Other)
  {
  }

  // --- The effect of each event --------------------------------------------------------------------------

  function Notified(c: Conn, active: bool): Conn {
    c.(notifiedDdmActive := active, ddm := c.ddm + [if active then Connected else Disconnected])
  }

  function Closed(c: Conn): Conn {
    var d := c.(socket := None, performedHandshake := false);
    if !c.agentLoaded && c.notifiedDdmActive then Notified(d, false) else d
  }

  function Handed(c: Conn, performHandshake: bool, delivered: bool): Conn {
    if delivered && c.socket.Some?
    then c.(sentAgentFds := true, handovers := c.handovers + [Handover(c.socket.value, performHandshake)])
    else c
  }

  /** The peer's handshake is complete, correct and could be answered. */
  predicate Shook(data: seq<Byte>, calls: Calls) {
    !calls.faults.available && !calls.faults.receive && HANDSHAKE <= data && calls.answered
  }

  function ChunkHandled(c: Conn, id: U32, reply: Option<(U32, seq<Byte>)>): Conn {
    var d := if c.notifiedDdmActive then c else Notified(c, true);
    if reply.Some? && d.socket.Some? && d.performedHandshake
    then d.(written := d.written + [Sent(id, Reply, reply.value.0, reply.value.1)])
    else d
  }

  function Answered(c: Conn, r: Reading, calls: Calls): Conn {
    match r
    case CloseSocket => Closed(c)
    case LoadAgent => if calls.attached then c.(agentLoaded := true) else c
    case Dropped(_) => c
    case Chunk(id, _, _, _) => ChunkHandled(c, id, calls.reply)
  }

  function DataHandled(c: Conn, data: seq<Byte>, calls: Calls): Conn {
    if c.performedHandshake then Answered(c, Read(data, calls.faults), calls)
    else if Shook(data, calls) then c.(performedHandshake := true)
    else Closed(c)
  }

  function Heard(c: Conn, message: AgentMessage, delivered: bool): Conn {
    match message
    case ListenStart => Handed(c.(agentListening := true), !c.performedHandshake, delivered)
    case ListenEnd => c.(agentListening := false)
    case HandshakeComplete => if c.agentHasSocket then c.(performedHandshake := true) else c
    case Close => Closed(c).(agentHasSocket := false)
    case Accept => c.(agentHasSocket := true, sentAgentFds := false, performedHandshake := false)
    case Unknown => c
  }

  function Step(c: Conn, e: Event): Conn {
    match e
    case FromAgent(message, delivered) => Heard(c, message, delivered)
    case FromAdbd(fd, delivered) =>
      if !c.jdwpAllowed || fd.None? || c.socket.Some? then c
      else if c.agentLoaded && c.agentListening then Handed(c.(socket := fd), true, delivered)
      else c.(socket := fd)
    case SocketData(data, calls, delivered) =>
      if !c.agentLoaded then DataHandled(c, data, calls)
      else if c.agentListening && !c.sentAgentFds then Handed(c, true, delivered)
      else c
    case SocketHangUp => Closed(c)
    case AdbdHangUp => c
    case Other => c
  }

  /** The state after a run from process start. */
  function After(jdwp: bool, es: seq<Event>): Conn {
    if es == [] then Initial(jdwp) else Step(After(jdwp, es[..|es| - 1]), es[|es| - 1])
  }

  predicate IsRun(jdwp: bool, es: seq<Event>) {
    es == [] || (IsRun(jdwp, es[..|es| - 1]) && Polled(After(jdwp, es[..|es| - 1]), es[|es| - 1]))
  }

  // --- Any agent ---------------------------------------------------------------------------------------

  function Alternating(n: nat): (r: seq<DdmEvent>)
    ensures |r| == n
  {
    if n == 0 then [] else Alternating(n - 1) + [if n % 2 == 1 then Connected else Disconnected]
  }

  /**
   Listening and descriptors are only ever the loaded agent's, only a process that can be debugged
   has connections or an agent, and the runtime hears alternating news.
   */
  predicate Consistent(c: Conn) {
    && (c.socket.Some? || c.agentLoaded ==> c.jdwpAllowed)
    && (c.agentListening || c.agentHasSocket || c.sentAgentFds ==> c.agentLoaded)
    && (!c.agentLoaded && c.notifiedDdmActive ==> c.performedHandshake)
    && (!c.agentLoaded && c.performedHandshake ==> c.socket.Some?)
    && c.ddm == Alternating(|c.ddm|)
    && c.notifiedDdmActive == (|c.ddm| % 2 == 1)
  }

  lemma ClosedConsistent(c: Conn)
    requires Consistent(c)
    ensures Consistent(Closed(c))
  {
  }

  lemma AnsweredConsistent(c: Conn, r: Reading, calls: Calls)
    requires Consistent(c) && c.socket.Some? && !c.agentLoaded && c.performedHandshake
    ensures Consistent(Answered(c, r, calls))
  {
  }

  lemma StepConsistent(c: Conn, e: Event)
    requires Consistent(c) && Polled(c, e)
    ensures Consistent(Step(c, e))
  {
    ClosedConsistent(c);
    if e.SocketData? && !c.agentLoaded && c.performedHandshake {
      AnsweredConsistent(c, Read(e.data, e.calls.faults), e.calls);
    }
  }

  lemma {:induction false} EveryRunConsistent(jdwp: bool, es: seq<Event>)
    requires IsRun(jdwp, es)
    ensures Consistent(After(jdwp, es))
  {
    if es != [] {
      EveryRunConsistent(jdwp, es[..|es| - 1]);
      StepConsistent(After(jdwp, es[..|es| - 1]), es[|es| - 1]);
    }
  }

  predicate KeptOrClosed(from: Option<Fd>, to: Option<Fd>) {
    from.Some? ==> to == from || to.None?
  }

  lemma ClosedKeeps(c: Conn)
    ensures var d := Closed(c); d.socket.None? && d.handovers == c.handovers && d.written == c.written
  {
  }

  lemma HandedKeeps(c: Conn, performHandshake: bool, delivered: bool)
    ensures var d := Handed(c, performHandshake, delivered);
            && d.socket == c.socket && d.written == c.written
            && (d.handovers == c.handovers
                || (c.socket.Some? && d.handovers == c.handovers + [Handover(c.socket.value, performHandshake)]))
  {
  }

  lemma HeardKeeps(c: Conn, message: AgentMessage, delivered: bool)
    ensures var d := Heard(c, message, delivered);
            && KeptOrClosed(c.socket, d.socket) && d.written == c.written
            && (d.handovers == c.handovers
                || (c.socket.Some? && d.handovers == c.handovers + [Handover(c.socket.value, !c.performedHandshake)]))
  {
    hide Closed, Handed;
    match message {
      case ListenStart => HandedKeeps(c.(agentListening := true), !c.performedHandshake, delivered);
      case Close => ClosedKeeps(c);
      case _ =>
    }
  }

  /** A connection in use is kept or closed, never exchanged for another. */
  lemma SocketKeptOrClosed(c: Conn, e: Event)
    ensures KeptOrClosed(c.socket, Step(c, e).socket)
  {
    hide Closed, Handed, Heard, DataHandled;
    match e {
      case FromAgent(message, delivered) => HeardKeeps(c, message, delivered);
      case SocketHangUp => ClosedKeeps(c);
      case FromAdbd(fd, delivered) => HandedKeeps(c.(socket := fd), true, delivered);
      case SocketData(data, calls, delivered) =>
        DataKeeps(c, data, calls);
        HandedKeeps(c, true, delivered);
      case _ =>
    }
  }

  lemma AnsweredKeeps(c: Conn, r: Reading, calls: Calls)
    ensures KeptOrClosed(c.socket, Answered(c, r, calls).socket)
    ensures Answered(c, r, calls).handovers == c.handovers
    ensures Answered(c, r, calls).written == c.written ||
            (r.Chunk? && calls.reply.Some? && Answered(c, r, calls).written ==
                                              c.written + [Sent(r.id, Reply, calls.reply.value.0, calls.reply.value.1)])
  {
    hide Closed;
    ClosedKeeps(c);
  }

  lemma DataKeeps(c: Conn, data: seq<Byte>, calls: Calls)
    ensures KeptOrClosed(c.socket, DataHandled(c, data, calls).socket)
    ensures DataHandled(c, data, calls).handovers == c.handovers
    ensures var r := Read(data, calls.faults);
            DataHandled(c, data, calls).written == c.written ||
            (c.performedHandshake && r.Chunk? && calls.reply.Some? && DataHandled(c, data, calls).written ==
                                              c.written + [Sent(r.id, Reply, calls.reply.value.0, calls.reply.value.1)])
  {
    hide Closed, Answered, Read;
    ClosedKeeps(c);
    AnsweredKeeps(c, Read(data, calls.faults), calls);
  }

  /** The connection after each event of a run. */
  function Sockets(jdwp: bool, es: seq<Event>): (r: seq<Option<Fd>>)
    ensures |r| == |es| + 1
  {
    seq(|es| + 1, i requires 0 <= i <= |es| => After(jdwp, es[..i]).socket)
  }

  lemma SocketsKeptOrClosed(jdwp: bool, es: seq<Event>, i: nat)
    requires i < |es|
    ensures KeptOrClosed(Sockets(jdwp, es)[i], Sockets(jdwp, es)[i + 1])
  {
    assert es[..i + 1][..i] == es[..i];
    SocketKeptOrClosed(After(jdwp, es[..i]), es[i]);
  }

  lemma {:induction false} GapBetween(sockets: seq<Option<Fd>>, k: nat, n: nat)
    requires forall i: nat :: i + 1 < |sockets| ==> KeptOrClosed(sockets[i], sockets[i + 1])
    requires k <= n < |sockets| && sockets[k].Some? && sockets[n].Some? && sockets[k] != sockets[n]
    ensures exists j :: k < j < n && sockets[j].None?
  {
    assert KeptOrClosed(sockets[n - 1], sockets[n]);
    if sockets[n - 1].Some? {
      GapBetween(sockets, k, n - 1);
    }
  }

  /** Between two different connections there is a moment without any. */
  lemma SocketNeverReplaced(jdwp: bool, es: seq<Event>, k: nat, n: nat)
    requires k <= n <= |es| && Sockets(jdwp, es)[k].Some? && Sockets(jdwp, es)[n].Some?
    requires Sockets(jdwp, es)[k] != Sockets(jdwp, es)[n]
    ensures exists j :: k < j < n && Sockets(jdwp, es)[j].None?
  {
    var sockets := Sockets(jdwp, es);
    forall i: nat | i + 1 < |sockets|
      ensures KeptOrClosed(sockets[i], sockets[i + 1])
    {
      SocketsKeptOrClosed(jdwp, es, i);
    }
    GapBetween(sockets, k, n);
  }

  /** Every reply goes out under the id of the command it answers, over a connection with a handshake. */
  lemma RepliesMatchCommands(c: Conn, e: Event)
    requires Polled(c, e) && Step(c, e).written != c.written
    ensures e.SocketData? && !c.agentLoaded && c.performedHandshake && e.calls.reply.Some?
    ensures var r := Read(e.data, e.calls.faults);
            r.Chunk? && Step(c, e).written ==
                        c.written + [Sent(r.id, Reply, e.calls.reply.value.0, e.calls.reply.value.1)]
  {
    hide Closed, Handed, Heard, DataHandled, Read;
    match e {
      case FromAgent(message, delivered) => HeardKeeps(c, message, delivered);
      case SocketHangUp => ClosedKeeps(c);
      case FromAdbd(fd, delivered) => HandedKeeps(c.(socket := fd), true, delivered);
      case SocketData(data, calls, delivered) =>
        DataKeeps(c, data, calls);
        HandedKeeps(c, true, delivered);
      case _ =>
    }
  }

  // --- The effect of an event, one part of the state at a time ---------------------------------------------

  /** The peer has sent "JDWP-Handshake", and the answer could be sent. */
  predicate IsHandshake(data: seq<Byte>, calls: Calls) {
    && !calls.faults.available && !calls.faults.receive && calls.answered
    && |data| >= 14 && data[..14] == [74, 68, 87, 80, 45, 72, 97, 110, 100, 115, 104, 97, 107, 101]
  }

  /** Data that this side has to deal with because no agent is loaded. */
  predicate IsOwnData(c: Conn, e: Event) {
    e.SocketData? && !c.agentLoaded
  }

  /** A packet, after the handshake, and what it is found to be. */
  predicate IsPacket(c: Conn, e: Event, r: Reading) {
    IsOwnData(c, e) && c.performedHandshake && Read(e.data, e.calls.faults) == r
  }

  predicate IsChunk(c: Conn, e: Event) {
    IsOwnData(c, e) && c.performedHandshake && Read(e.data, e.calls.faults).Chunk?
  }

  predicate IsFromAgent(e: Event, message: AgentMessage) {
    e.FromAgent? && e.message == message
  }

  /** The peer or the agent hangs up, the handshake fails, or nothing can be read. */
  predicate Closes(c: Conn, e: Event) {
    || e.SocketHangUp? || IsFromAgent(e, Close) || IsPacket(c, e, CloseSocket)
    || (IsOwnData(c, e) && !c.performedHandshake && !IsHandshake(e.data, e.calls))
  }

  predicate Shakes(c: Conn, e: Event) {
    || (IsOwnData(c, e) && !c.performedHandshake && IsHandshake(e.data, e.calls))
    || (IsFromAgent(e, HandshakeComplete) && c.agentHasSocket)
  }

  /** A debugger connects to a process that can be debugged and is not being debugged. */
  predicate Takes(c: Conn, e: Event) {
    e.FromAdbd? && e.fd.Some? && c.jdwpAllowed && c.socket.None?
  }

  /** The connection that the agent is given, and whether it has to perform the handshake. */
  function Handing(c: Conn, e: Event): Option<Handover> {
    if IsFromAgent(e, ListenStart) && c.socket.Some? && e.delivered
    then Some(Handover(c.socket.value, !c.performedHandshake))
    else if Takes(c, e) && c.agentLoaded && c.agentListening && e.delivered
    then Some(Handover(e.fd.value, true))
    else if e.SocketData? && c.agentLoaded && c.agentListening && !c.sentAgentFds && c.socket.Some? && e.delivered
    then Some(Handover(c.socket.value, true))
    else None
  }

  /**
   The state after an event, field by field: a connection is taken when there is none and lost when
   it closes; a handshake counts until then, or until the agent takes the connection over; the
   agent's flags are what it says; a client is announced with its first chunk and taken back when
   its connection closes without an agent; every chunk with an answer is answered under its id.
   */
  function Described(c: Conn, e: Event): Conn {
    var connects := IsChunk(c, e) && !c.notifiedDdmActive;
    var disconnects := Closes(c, e) && !c.agentLoaded && c.notifiedDdmActive;
    Conn(
      socket := if Closes(c, e) then None else if Takes(c, e) then e.fd else c.socket,
      agentLoaded := c.agentLoaded || (IsPacket(c, e, LoadAgent) && e.calls.attached),
      agentListening := !IsFromAgent(e, ListenEnd) && (c.agentListening || IsFromAgent(e, ListenStart)),
      agentHasSocket := !IsFromAgent(e, Close) && (c.agentHasSocket || IsFromAgent(e, Accept)),
      sentAgentFds := !IsFromAgent(e, Accept) && (c.sentAgentFds || Handing(c, e).Some?),
      performedHandshake := !Closes(c, e) && !IsFromAgent(e, Accept) && (c.performedHandshake || Shakes(c, e)),
      notifiedDdmActive := connects || (c.notifiedDdmActive && !disconnects),
      jdwpAllowed := c.jdwpAllowed,
      ddm := c.ddm + if connects then [Connected] else if disconnects then [Disconnected] else [],
      handovers := c.handovers + if Handing(c, e).Some? then [Handing(c, e).value] else [],
      written := c.written + if IsChunk(c, e) && e.calls.reply.Some?
                             then [Sent(Read(e.data, e.calls.faults).id, Reply,
                                        e.calls.reply.value.0, e.calls.reply.value.1)]
                             else [])
  }

  lemma NothingAdded(c: Conn)
    ensures c.ddm + [] == c.ddm && c.handovers + [] == c.handovers && c.written + [] == c.written
  {
  }

  lemma ListenDescribed(c: Conn, delivered: bool)
    ensures Heard(c, ListenStart, delivered) == Described(c, FromAgent(ListenStart, delivered))
  {
    hide Read, Closed;
    NothingAdded(c);
  }

  lemma CloseDescribed(c: Conn, delivered: bool)
    ensures Heard(c, Close, delivered) == Described(c, FromAgent(Close, delivered))
  {
    hide Read, Handed;
    NothingAdded(c);
  }

  lemma FlagDescribed(c: Conn, message: AgentMessage, delivered: bool)
    requires message != ListenStart && message != Close
    ensures Heard(c, message, delivered) == Described(c, FromAgent(message, delivered))
  {
    hide Read, Handed, Closed;
    NothingAdded(c);
  }

  lemma MessageDescribed(c: Conn, message: AgentMessage, delivered: bool)
    ensures Heard(c, message, delivered) == Described(c, FromAgent(message, delivered))
  {
    hide Heard, Described;
    match message {
      case ListenStart => ListenDescribed(c, delivered);
      case Close => CloseDescribed(c, delivered);
      case _ => FlagDescribed(c, message, delivered);
    }
  }

  lemma ConnectionDescribed(c: Conn, fd: Option<Fd>, delivered: bool)
    ensures Step(c, FromAdbd(fd, delivered)) == Described(c, FromAdbd(fd, delivered))
  {
    NothingAdded(c);
  }

  lemma HandshakeDescribed(c: Conn, e: Event)
    requires Polled(c, e) && IsOwnData(c, e) && !c.performedHandshake
    ensures DataHandled(c, e.data, e.calls) == Described(c, e)
  {
    hide Read;
    NothingAdded(c);
    assert Shook(e.data, e.calls) <==> IsHandshake(e.data, e.calls);
  }

  lemma PacketDescribed(c: Conn, e: Event, r: Reading)
    requires Polled(c, e) && IsOwnData(c, e) && c.performedHandshake && r == Read(e.data, e.calls.faults)
    ensures Answered(c, r, e.calls) == Described(c, e)
  {
    hide Read;
    NothingAdded(c);
    match r {
      case CloseSocket =>
      case LoadAgent =>
      case Dropped(_) =>
      case Chunk(_, _, _, _) =>
    }
  }

  lemma AgentDataDescribed(c: Conn, e: Event)
    requires Polled(c, e) && e.SocketData? && c.agentLoaded
    ensures Step(c, e) == Described(c, e)
  {
    hide Read;
    NothingAdded(c);
  }

  /** The code, which goes event by event, does what the description says. */
  lemma StepIsDescribed(c: Conn, e: Event)
    requires Polled(c, e)
    ensures Step(c, e) == Described(c, e)
  {
    hide Described, Heard, DataHandled;
    match e {
      case FromAgent(message, delivered) => MessageDescribed(c, message, delivered);
      case FromAdbd(fd, delivered) => ConnectionDescribed(c, fd, delivered);
      case SocketData(data, calls, delivered) =>
        if c.agentLoaded {
          AgentDataDescribed(c, e);
        } else {
          OwnDataDescribed(c, e);
        }
      case _ => QuietDescribed(c, e);
    }
  }

  /** In particular a chunk that has an answer is always answered. */
  lemma EveryChunkAnswered(c: Conn, e: Event)
    requires Polled(c, e) && e.SocketData? && !c.agentLoaded && c.performedHandshake
    requires Read(e.data, e.calls.faults).Chunk? && e.calls.reply.Some?
    ensures Step(c, e).written ==
            c.written + [Sent(Read(e.data, e.calls.faults).id, Reply, e.calls.reply.value.0, e.calls.reply.value.1)]
  {
    hide Read, Step;
    StepIsDescribed(c, e);
  }

  lemma OwnDataDescribed(c: Conn, e: Event)
    requires Polled(c, e) && IsOwnData(c, e)
    ensures DataHandled(c, e.data, e.calls) == Described(c, e)
  {
    hide Described, Read, Answered;
    if c.performedHandshake {
      PacketDescribed(c, e, Read(e.data, e.calls.faults));
    } else {
      HandshakeDescribed(c, e);
    }
  }

  lemma QuietDescribed(c: Conn, e: Event)
    requires e.SocketHangUp? || e.AdbdHangUp? || e.Other?
    ensures Step(c, e) == Described(c, e)
  {
    hide Read;
    NothingAdded(c);
  }

  // --- A well-behaved agent --------------------------------------------------------------------------------

  /** The agent accepts what it was sent, closes what it has, and listens when it has neither. */
  predicate Expected(c: Conn, e: Event) {
    e.FromAgent? ==>
      match e.message
      case Accept => c.sentAgentFds
      case Close => c.agentHasSocket
      case ListenStart => !c.sentAgentFds && !c.agentHasSocket
      case _ => true
  }

  predicate IsProperRun(jdwp: bool, es: seq<Event>) {
    es == []
    || (IsProperRun(jdwp, es[..|es| - 1]) && Polled(After(jdwp, es[..|es| - 1]), es[|es| - 1])
        && Expected(After(jdwp, es[..|es| - 1]), es[|es| - 1]))
  }

  /** Whatever the agent was sent or has is the connection held here. */
  predicate Sound(c: Conn) {
    && Consistent(c)
    && (c.sentAgentFds || c.agentHasSocket ==> c.socket.Some?)
    && !(c.sentAgentFds && c.agentHasSocket)
    && (c.performedHandshake ==> c.socket.Some?)
  }

  lemma StepSound(c: Conn, e: Event)
    requires Sound(c) && Polled(c, e) && Expected(c, e)
    ensures Sound(Step(c, e))
  {
    StepConsistent(c, e);
  }

  lemma {:induction false} EveryProperRunSound(jdwp: bool, es: seq<Event>)
    requires IsProperRun(jdwp, es)
    ensures IsRun(jdwp, es) && Sound(After(jdwp, es))
  {
    if es != [] {
      EveryProperRunSound(jdwp, es[..|es| - 1]);
      StepSound(After(jdwp, es[..|es| - 1]), es[|es| - 1]);
    }
  }

  /**
   The assertions about the connection's state on the way through one event, but for those of
   `NotifyDdms` and `PerformHandshake`, which are preconditions of the methods below.
   */
  predicate AssertionsHold(c: Conn, e: Event) {
    match e
    case FromAgent(message, _) =>
      && c.jdwpAllowed && c.agentLoaded
      && (message.ListenStart? && c.socket.Some? ==> !c.sentAgentFds)
    case FromAdbd(fd, _) =>
      c.jdwpAllowed && fd.Some? && c.socket.None? && c.agentLoaded && c.agentListening ==> !c.sentAgentFds
    case AdbdHangUp => !c.agentHasSocket
    case SocketData(_, _, _) => c.jdwpAllowed && !c.agentHasSocket && (!c.agentLoaded ==> !c.agentListening)
    case SocketHangUp => c.jdwpAllowed && !c.agentHasSocket
    case Other => true
  }

  /** Only one of them can fail: adbd may go away while the agent has a connection. */
  lemma AssertionFailsIff(jdwp: bool, es: seq<Event>, e: Event)
    requires IsProperRun(jdwp, es) && Polled(After(jdwp, es), e) && Expected(After(jdwp, es), e)
    ensures AssertionsHold(After(jdwp, es), e) <==> !(e.AdbdHangUp? && After(jdwp, es).agentHasSocket)
  {
    EveryProperRunSound(jdwp, es);
  }

  /** The run that reaches it: a debugger connects, its packet loads the agent, and the agent accepts. */
  lemma AdbdLeavesDuringDebugging(fd: Fd) returns (es: seq<Event>)
    ensures IsProperRun(true, es) && Polled(After(true, es), AdbdHangUp) && Expected(After(true, es), AdbdHangUp)
    ensures !AssertionsHold(After(true, es), AdbdHangUp)
  {
    var calls := Calls(NO_FAULTS, true, true, None);
    var es1 := [FromAdbd(Some(fd), true)];
    Extend(true, [], es1[0]);
    var es2 := es1 + [SocketData(HANDSHAKE, calls, true)];
    Extend(true, es1, es2[1]);
    var es3 := es2 + [SocketData([0], calls, true)];
    Extend(true, es2, es3[2]);
    var es4 := es3 + [FromAgent(ListenStart, true)];
    Extend(true, es3, es4[3]);
    es := es4 + [FromAgent(Accept, true)];
    Extend(true, es4, es[4]);
  }

  lemma Extend(jdwp: bool, es: seq<Event>, e: Event)
    ensures After(jdwp, es + [e]) == Step(After(jdwp, es), e)
    ensures IsProperRun(jdwp, es + [e]) <==>
            IsProperRun(jdwp, es) && Polled(After(jdwp, es), e) && Expected(After(jdwp, es), e)
  {
  }

  /** This event completes a handshake, here or in the agent. */
  predicate Completes(e: Event) {
    (e.SocketData? && Shook(e.data, e.calls)) || (e.FromAgent? && e.message.HandshakeComplete?)
  }

  lemma HandshakeStep(c: Conn, e: Event)
    requires Sound(c) && Polled(c, e) && Expected(c, e) && Step(c, e).performedHandshake
    ensures Step(c, e).socket == c.socket && c.socket.Some?
    ensures c.performedHandshake || Completes(e)
  {
  }

  /** Event `k` completed a handshake, and the connection has been the same since. */
  ghost predicate ShookAt(jdwp: bool, es: seq<Event>, k: nat) {
    k < |es| && Completes(es[k]) && forall j :: k <= j < |es| ==> Sockets(jdwp, es)[j] == Sockets(jdwp, es)[|es|]
  }

  lemma StillShook(jdwp: bool, es: seq<Event>, k: nat)
    requires es != [] && ShookAt(jdwp, es[..|es| - 1], k)
    requires Sockets(jdwp, es)[|es| - 1] == Sockets(jdwp, es)[|es|]
    ensures ShookAt(jdwp, es, k)
  {
    var before := es[..|es| - 1];
    forall j | k <= j < |es|
      ensures Sockets(jdwp, es)[j] == Sockets(jdwp, es)[|es|]
    {
      assert es[..j] == before[..j];
      assert es[..|es| - 1] == before[..|before|];
      assert Sockets(jdwp, before)[j] == Sockets(jdwp, before)[|before|];
    }
  }

  /** The handshake in force was performed on the connection that is open now. */
  lemma {:induction false} HandshakeIsCurrent(jdwp: bool, es: seq<Event>)
    requires IsProperRun(jdwp, es) && After(jdwp, es).performedHandshake
    ensures After(jdwp, es).socket.Some? && exists k: nat :: ShookAt(jdwp, es, k)
  {
    var before, e := es[..|es| - 1], es[|es| - 1];
    EveryProperRunSound(jdwp, before);
    HandshakeStep(After(jdwp, before), e);
    assert es[..|es|] == es;
    if After(jdwp, before).performedHandshake {
      HandshakeIsCurrent(jdwp, before);
      var k: nat :| ShookAt(jdwp, before, k);
      StillShook(jdwp, es, k);
    } else {
      assert ShookAt(jdwp, es, |before|);
    }
  }

  lemma SkippedStep(c: Conn, e: Event, fd: Fd)
    requires Step(c, e).handovers == c.handovers + [Handover(fd, false)]
    ensures c.performedHandshake && c.socket == Some(fd)
  {
    hide Closed, Handed, Heard, DataHandled, Read;
    assert Step(c, e).handovers[|c.handovers|] == Handover(fd, false);
    match e {
      case FromAgent(message, delivered) => HeardKeeps(c, message, delivered);
      case SocketHangUp => ClosedKeeps(c);
      case FromAdbd(fd, delivered) => HandedKeeps(c.(socket := fd), true, delivered);
      case SocketData(data, calls, delivered) =>
        DataKeeps(c, data, calls);
        HandedKeeps(c, true, delivered);
      case _ =>
    }
  }

  /** So the agent is told to skip the handshake only where it has been performed. */
  lemma HandshakeSkippedOnlyWhenDone(jdwp: bool, es: seq<Event>, e: Event, fd: Fd)
    requires IsProperRun(jdwp, es)
    requires Step(After(jdwp, es), e).handovers == After(jdwp, es).handovers + [Handover(fd, false)]
    ensures After(jdwp, es).socket == Some(fd) && exists k: nat :: ShookAt(jdwp, es, k)
  {
    SkippedStep(After(jdwp, es), e, fd);
    HandshakeIsCurrent(jdwp, es);
  }

  // --- The connection object -------------------------------------------------------------------------------

  class AdbConnectionState {
    var socket: Option<Fd>
    var agentLoaded: bool
    var agentListening: bool
    var agentHasSocket: bool
    var sentAgentFds: bool
    var performedHandshake: bool
    var notifiedDdmActive: bool
    const jdwpAllowed: bool
    var ddm: seq<DdmEvent>
    var handovers: seq<Handover>
    var written: seq<Sent>

    function View(): Conn
      reads this
    {
      Conn(socket, agentLoaded, agentListening, agentHasSocket, sentAgentFds, performedHandshake,
           notifiedDdmActive, jdwpAllowed, ddm, handovers, written)
    }

    constructor (jdwpAllowed: bool)
      ensures View() == Initial(jdwpAllowed)
    {
      this.jdwpAllowed := jdwpAllowed;
      socket, agentLoaded, agentListening, agentHasSocket, sentAgentFds := None, false, false, false, false;
      performedHandshake, notifiedDdmActive, ddm, handovers, written := false, false, [], [], [];
    }

    method NotifyDdms(active: bool)
      requires notifiedDdmActive != active
      modifies this
      ensures View() == Notified(old(View()), active)
    {
      notifiedDdmActive := active;
      if active {
        ddm := ddm + [Connected];
      } else {
        ddm := ddm + [Disconnected];
      }
    }

    method CloseFds()
      modifies this
      ensures View() == Closed(old(View()))
    {
      socket := None;
      performedHandshake := false;
      if !agentLoaded && notifiedDdmActive {
        NotifyDdms(false);
      }
    }

    method SendAgentFds(requireHandshake: bool, delivered: bool)
      requires socket.Some?
      modifies this
      ensures View() == Handed(old(View()), requireHandshake, delivered)
    {
      if delivered {
        handovers := handovers + [Handover(socket.value, requireHandshake)];
        sentAgentFds := true;
      }
    }

    /** Writes a packet unless there is no connection, or none with a handshake. */
    method SendDdmPacket(id: U32, kind: Kind, chunk: U32, data: seq<Byte>) returns (bytes: seq<Byte>)
      modifies this
      ensures if old(socket).Some? && old(performedHandshake)
              then View() == old(View()).(written := old(written) + [Sent(id, kind, chunk, data)])
                   && bytes == Packet(id, kind, chunk, data)
              else View() == old(View()) && bytes == []
    {
      if socket.None? || !performedHandshake {
        return [];
      }
      bytes := WritePacket(id, kind, chunk, data);
      written := written + [Sent(id, kind, chunk, data)];
    }

    method PerformHandshake(data: seq<Byte>, calls: Calls)
      requires !performedHandshake
      modifies this
      ensures View() == if Shook(data, calls) then old(View()).(performedHandshake := true) else Closed(old(View()))
    {
      if calls.faults.available || |data| < |HANDSHAKE| {
        CloseFds();
        return;
      }
      if calls.faults.receive || data[..|HANDSHAKE|] != HANDSHAKE {
        CloseFds();
        return;
      }
      if !calls.answered {
        CloseFds();
        return;
      }
      performedHandshake := true;
    }

    method HandleDataWithoutAgent(data: seq<Byte>, calls: Calls)
      requires !agentLoaded && !agentListening
      modifies this
      ensures View() == DataHandled(old(View()), data, calls)
    {
      if !performedHandshake {
        PerformHandshake(data, calls);
        return;
      }
      match Read(data, calls.faults) {
        case CloseSocket => CloseFds();
        case LoadAgent => AttachJdwpAgent(calls.attached);
        case Dropped(_) =>
        case Chunk(id, _, _, _) =>
          if !notifiedDdmActive {
            NotifyDdms(true);
          }
          if calls.reply.Some? {
            var _ := SendDdmPacket(id, Reply, calls.reply.value.0, calls.reply.value.1);
          }
      }
    }

    method AttachJdwpAgent(attached: bool)
      modifies this
      ensures View() == if attached then old(View()).(agentLoaded := true) else old(View())
    {
      if attached {
        agentLoaded := true;
      }
    }

    method HandleAgentMessage(message: AgentMessage, delivered: bool)
      requires agentLoaded
      modifies this
      ensures View() == Heard(old(View()), message, delivered)
    {
      match message {
        case ListenStart =>
          agentListening := true;
          if socket.Some? {
            SendAgentFds(!performedHandshake, delivered);
          }
        case ListenEnd => agentListening := false;
        case HandshakeComplete =>
          if agentHasSocket {
            performedHandshake := true;
          }
        case Close =>
          CloseFds();
          agentHasSocket := false;
        case Accept =>
          agentHasSocket := true;
          sentAgentFds := false;
          performedHandshake := false;
        case Unknown =>
      }
    }

    method ReceiveConnection(fd: Option<Fd>, delivered: bool)
      modifies this
      ensures View() == Step(old(View()), FromAdbd(fd, delivered))
    {
      if !jdwpAllowed || fd.None? || socket.Some? {
        return;
      }
      socket := fd;
      if agentLoaded && agentListening {
        SendAgentFds(true, delivered);
      }
    }

    /** One turn of the loop. */
    method Wake(e: Event)
      requires Consistent(View()) && Polled(View(), e)
      modifies this
      ensures View() == Step(old(View()), e) && Consistent(View())
    {
      StepConsistent(View(), e);
      match e {
        case FromAgent(message, delivered) => HandleAgentMessage(message, delivered);
        case FromAdbd(fd, delivered) => ReceiveConnection(fd, delivered);
        case SocketData(data, calls, delivered) =>
          if !agentLoaded {
            HandleDataWithoutAgent(data, calls);
          } else if agentListening && !sentAgentFds {
            SendAgentFds(true, delivered);
          }
        case SocketHangUp => CloseFds();
        case AdbdHangUp =>
        case Other =>
      }
    }

    method RunPollLoop(es: seq<Event>)
      requires View() == Initial(jdwpAllowed) && IsRun(jdwpAllowed, es)
      modifies this
      ensures View() == After(jdwpAllowed, es) && Consistent(View())
    {
      EveryRunConsistent(jdwpAllowed, []);
      for i := 0 to |es|
        invariant View() == After(jdwpAllowed, es[..i]) && Consistent(View())
      {
        assert es[..i + 1][..i] == es[..i];
        RunPrefix(jdwpAllowed, es, i);
        Wake(es[i]);
      }
      assert es[..|es|] == es;
    }
  }

  lemma {:induction false} RunPrefix(jdwp: bool, es: seq<Event>, i: nat)
    requires IsRun(jdwp, es) && i < |es|
    ensures Polled(After(jdwp, es[..i]), es[i])
    decreases |es|
  {
    var before := es[..|es| - 1];
    if i < |before| {
      RunPrefix(jdwp, before, i);
      assert before[..i] == es[..i];
    }
  }
}
