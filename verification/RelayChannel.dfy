/**
 The relay's end of one channel: the credit-controlled queue towards the client,
 and the TCP flow behind it with its quota queue and dialing backlog.

 Answers from outside arrive as arguments: how many messages the WebSocket takes
 before it reports a full buffer, the quota verdicts, and how many bytes each TCP
 write accepts.
 */
module RelayChannel {
  import opened Bytes
  import opened MuxProtocol
  import opened Trap

  const FLOW_BUFFER_LIMIT: nat := 1024 * 1024
  const RELAY_BUFFER_LIMIT: nat := 8 * FLOW_BUFFER_LIMIT

  datatype Item = Note(reply: Reply) | Data(bytes: seq<byte>)

  datatype Channel = Channel(
    queue: seq<Item>, queued: int, available: nat, incoming: int, closing: bool, dead: bool)

  datatype Phase = Dialing | Open | Ended

  datatype Charge = Charge(bytes: seq<byte>, upload: bool)

  datatype Flow = Flow(
    phase: Phase, bytes: nat, buffered: int, pending: seq<Charge>, backlog: seq<seq<byte>>,
    charging: bool, peerEnded: bool, fin: bool)

  /**
   One channel and its flow, the fields they share with others (`total`, the bytes
   the process buffers; `peerBytes`, the bytes queued on the connection; `stopped`,
   the connection being closed), what the channel has sent, and a record of what
   went through it:

    - read      the client messages consumed so far
    - offered   the tokens handed to the channel to send
    - early     upload bytes that came before the flow was admitted
    - received  upload bytes put in the flow's quota queue
    - late      upload bytes refused once the flow was there
    - lost      how many upload bytes were never counted in `incoming`
    - tcp       bytes the TCP socket took
    - arrived   bytes the TCP socket delivered and the flow queued
    - aborted   the channel died with its queue dropped
   */
  datatype Remote = Remote(
    ch: Channel, flow: Option<Flow>, total: int, peerBytes: int, stopped: bool, out: seq<Down>, read: seq<Up>,
    offered: seq<Token>, early: seq<byte>, received: seq<byte>, late: seq<byte>, lost: nat,
    tcp: seq<byte>, arrived: seq<byte>, aborted: bool)
  {
    predicate Live() {
      flow.Some? && flow.value.phase != Ended
    }
  }

  /** What the WebSocket answers while one operation runs. */
  datatype Socket = Socket(room: nat, full: bool)

  datatype Verdict = Yes | No | Later | Throws

  /**
   What the outside answers in one round of a draining loop. `mayOpen` says whether
   the connection is below its cap on channels.
   */
  datatype Answer = Answer(verdict: Verdict, wrote: int, mayOpen: bool, first: Socket, second: Socket)

  /** The flow is as it was, or it ended and gave back exactly what it was charged. */
  predicate KeepsFlow(s: Remote, r: Remote) {
    || (r.flow == s.flow && r.total == s.total)
    || (s.Live() && r.flow.Some? && r.total == s.total - s.flow.value.buffered
        && r.flow.value == s.flow.value.(phase := Ended, buffered := 0, pending := [], backlog := []))
  }

  /**
   Nothing sent, offered or written is taken back, no message is read, no upload
   comes too early, the connection's count moved with the channel's own, and what
   is admitted, closing or dead stays so.
   */
  predicate Extends(s: Remote, r: Remote) {
    && r.read == s.read && r.early == s.early && s.out <= r.out && s.offered <= r.offered && s.tcp <= r.tcp
    && r.peerBytes - r.ch.queued == s.peerBytes - s.ch.queued
    && (s.flow.Some? ==> r.flow.Some?) && (s.ch.dead ==> r.ch.dead) && (s.ch.closing ==> r.ch.closing)
  }

  /** Nothing new is offered to the client, and nothing new came from TCP. */
  predicate SameStreams(s: Remote, r: Remote) {
    r.offered == s.offered && r.arrived == s.arrived
  }

  const FRESH_CHANNEL := Channel([], 0, MUX_WINDOW, 0, false, false)

  const FRESH_FLOW := Flow(Dialing, 0, 0, [], [], false, false, false)

  /** Before the client's first message, which opens the channel. */
  function Unopened(total: int, peerBytes: int): Remote {
    Remote(FRESH_CHANNEL, None, total, peerBytes, false, [], [], [], [], [], [], 0, [], [], false)
  }

  // ---- The channel ----

  /** The queue after `count` bytes of the data item at its head were sent. */
  function WithoutHead(queue: seq<Item>, count: nat): seq<Item>
    requires queue != [] && queue[0].Data? && count <= |queue[0].bytes|
  {
    if count == |queue[0].bytes| then queue[1..] else [Data(queue[0].bytes[count..])] + queue[1..]
  }

  /** How much of the data item at the head of the queue may go out in one frame. */
  function Count(s: Remote): nat
    requires s.ch.queue != [] && s.ch.queue[0].Data?
  {
    Min(Min(|s.ch.queue[0].bytes|, s.ch.available), MUX_FRAME)
  }

  predicate CanSend(s: Remote) {
    !s.stopped && s.ch.queue != [] && (s.ch.queue[0].Data? ==> Count(s) > 0)
  }

  /** Send the head of the queue, as much of it as the credit allows. */
  function SendHead(s: Remote): Remote
    requires CanSend(s)
  {
    match s.ch.queue[0]
    case Note(reply) =>
      s.(out := s.out + [Line(reply)], ch := s.ch.(queue := s.ch.queue[1..]))
    case Data(bytes) =>
      var count := Count(s);
      s.(out := s.out + [Frame(bytes[..count])], peerBytes := s.peerBytes - count,
         ch := s.ch.(queue := WithoutHead(s.ch.queue, count), available := s.ch.available - count,
                     queued := s.ch.queued - count))
  }

  /** The draining loop: send queued messages while the socket and the credit allow. */
  function Pump(s: Remote, room: nat): (r: Remote)
    ensures r == s.(out := r.out, peerBytes := s.peerBytes - s.ch.queued + r.ch.queued,
                    ch := s.ch.(queue := r.ch.queue, queued := r.ch.queued, available := r.ch.available))
    ensures s.out <= r.out
    decreases room
  {
    if room == 0 || !CanSend(s) then s else Pump(SendHead(s), room - 1)
  }

  /** The flow ends: its buffers are dropped and given back to the process total. */
  function EndFlow(s: Remote): (r: Remote)
    ensures KeepsFlow(s, r) && Extends(s, r) && SameStreams(s, r)
  {
    if !s.Live() then s else
      var f := s.flow.value;
      s.(total := s.total - f.buffered,
         flow := Some(f.(phase := Ended, buffered := 0, pending := [], backlog := [])))
  }

  function Abort(s: Remote, full: bool): (r: Remote)
    ensures KeepsFlow(s, r) && Extends(s, r) && SameStreams(s, r) && r.ch.dead
  {
    if s.ch.dead then s else
      var s := s.(ch := s.ch.(dead := true, queued := 0, queue := []), peerBytes := s.peerBytes - s.ch.queued,
                  aborted := true);
      var s := if s.stopped then s
               else if full then s.(stopped := true)
               else s.(out := s.out + [Closed]);
      if s.Live() then EndFlow(s).(ch := s.ch.(closing := true)) else s
  }

  /** The connection is closed, which aborts every channel on it. */
  function Stop(s: Remote): (r: Remote)
    ensures KeepsFlow(s, r) && Extends(s, r) && SameStreams(s, r)
  {
    if s.stopped then s else Abort(s.(stopped := true), false)
  }

  function Drain(s: Remote, k: Socket): (r: Remote)
    ensures KeepsFlow(s, r) && Extends(s, r) && SameStreams(s, r)
  {
    if s.ch.dead then s else
      var s := Pump(s, k.room);
      if !(s.ch.closing && s.ch.queue == []) then s
      else if !s.stopped && k.full then Stop(s)
      else (if s.stopped then s else s.(out := s.out + [Closed])).(ch := s.ch.(dead := true))
  }

  function Close(s: Remote, k: Socket): (r: Remote)
    ensures KeepsFlow(s, r) && Extends(s, r) && SameStreams(s, r) && r.ch.closing
  {
    Drain(s.(ch := s.ch.(closing := true)), k)
  }

  function SendText(s: Remote, reply: Reply, k: Socket): (r: Remote)
    ensures KeepsFlow(s, r) && Extends(s, r) && r.arrived == s.arrived
    ensures r.offered == s.offered || r.offered == s.offered + [Text(reply)]
  {
    if s.ch.dead then s
    else if |s.ch.queue| >= 32 then Abort(s, k.full)
    else Drain(s.(ch := s.ch.(queue := s.ch.queue + [Note(reply)]), offered := s.offered + [Text(reply)]), k)
  }

  function SendBinary(s: Remote, bytes: seq<byte>, k: Socket): (r: Remote)
    ensures KeepsFlow(s, r) && Extends(s, r) && r.arrived == s.arrived
    ensures r.offered == s.offered || r.offered == s.offered + Octets(bytes)
  {
    if s.ch.dead then s
    else if s.ch.queued + |bytes| > MUX_WINDOW + MUX_FRAME || s.peerBytes + |bytes| > MUX_SOCKET_BUFFER
    then Abort(s, k.full)
    else Drain(s.(ch := s.ch.(queue := s.ch.queue + [Data(bytes)], queued := s.ch.queued + |bytes|),
                  peerBytes := s.peerBytes + |bytes|, offered := s.offered + Octets(bytes)), k)
  }

  /** WINDOW n: credit beyond the window stops the connection. */
  function GrantWindow(s: Remote, n: nat, k: Socket): (r: Remote)
    ensures KeepsFlow(s, r) && Extends(s, r) && SameStreams(s, r)
  {
    if s.ch.available + n > MUX_WINDOW then Stop(s)
    else Drain(s.(ch := s.ch.(available := s.ch.available + n)), k)
  }

  /** ACK n; a full socket stops the connection instead. */
  function Acknowledge(s: Remote, n: nat, full: bool): (r: Remote)
    ensures KeepsFlow(s, r) && Extends(s, r) && SameStreams(s, r)
  {
    var s := s.(ch := s.ch.(incoming := s.ch.incoming - n));
    if s.stopped then s else if full then Stop(s) else s.(out := s.out + [Ack(n)])
  }

  // ---- The flow ----

  function Finish(s: Remote, k: Socket): (r: Remote)
    ensures KeepsFlow(s, r) && Extends(s, r) && SameStreams(s, r) && !r.Live()
  {
    if !s.Live() then s else Close(EndFlow(s), k)
  }

  predicate HasRoom(s: Remote, n: nat)
    requires s.flow.Some?
  {
    var f := s.flow.value;
    && f.buffered + n <= FLOW_BUFFER_LIMIT
    && s.total + n <= RELAY_BUFFER_LIMIT
    && |f.pending| + |f.backlog| < 1024
  }

  /** Count n bytes as buffered, or as no longer buffered when n is negative. */
  function Charged(s: Remote, n: int): Remote
    requires s.flow.Some?
  {
    s.(total := s.total + n, flow := Some(s.flow.value.(buffered := s.flow.value.buffered + n)))
  }

  function PushBacklog(s: Remote, bytes: seq<byte>, k: Socket): (r: Remote)
    requires s.flow.Some?
    ensures r.flow.Some? && Extends(s, r) && SameStreams(s, r)
    ensures r.Live() ==>
      r.flow.value == s.flow.value.(buffered := r.flow.value.buffered, backlog := r.flow.value.backlog)
  {
    if !HasRoom(s, |bytes|) then Finish(s, k) else
      var s := Charged(s, |bytes|);
      s.(flow := Some(s.flow.value.(backlog := s.flow.value.backlog + [bytes])))
  }

  function UnshiftBacklog(s: Remote, bytes: seq<byte>, k: Socket): (r: Remote)
    requires s.flow.Some?
    ensures r.flow.Some? && Extends(s, r) && SameStreams(s, r)
    ensures r.Live() ==>
      r.flow.value == s.flow.value.(buffered := r.flow.value.buffered, backlog := r.flow.value.backlog)
  {
    if !HasRoom(s, |bytes|) then Finish(s, k) else
      var s := Charged(s, |bytes|);
      s.(flow := Some(s.flow.value.(backlog := [bytes] + s.flow.value.backlog)))
  }

  /** Hand bytes to TCP, acknowledge what it took, put the rest back in front. */
  function WriteTcp(s: Remote, bytes: seq<byte>, a: Answer): (r: Remote)
    requires s.flow.Some? && a.wrote <= |bytes|
    ensures r.flow.Some? && Extends(s, r) && SameStreams(s, r)
    ensures r.Live() ==>
      r.flow.value == s.flow.value.(buffered := r.flow.value.buffered, backlog := r.flow.value.backlog)
  {
    if a.wrote < 0 then Finish(s, a.second) else
      var s := s.(tcp := s.tcp + bytes[..a.wrote]);
      var s := if a.wrote > 0 then Acknowledge(s, a.wrote, a.first.full) else s;
      if a.wrote < |bytes| then UnshiftBacklog(s, bytes[a.wrote..], a.second) else s
  }

  function ForwardCharged(s: Remote, a: Answer): (r: Remote)
    requires s.Live() && s.flow.value.pending != []
    requires a.wrote <= |s.flow.value.pending[0].bytes|
    ensures r.flow.Some? && Extends(s, r)
    ensures r.Live() ==>
      r.flow.value == s.flow.value.(pending := s.flow.value.pending[1..],
                                    buffered := r.flow.value.buffered, backlog := r.flow.value.backlog)
  {
    var item := s.flow.value.pending[0];
    var s := Charged(s.(flow := Some(s.flow.value.(pending := s.flow.value.pending[1..]))), -|item.bytes|);
    if !item.upload then SendBinary(s, item.bytes, a.first)
    else if s.flow.value.phase == Dialing || s.flow.value.backlog != [] then PushBacklog(s, item.bytes, a.second)
    else WriteTcp(s, item.bytes, a)
  }

  function CompletePeer(s: Remote, a: Answer): (r: Remote)
    requires s.flow.Some?
    ensures Extends(s, r)
  {
    if !s.Live() || !s.flow.value.peerEnded || s.flow.value.pending != [] then s
    else Finish(SendText(s, Eof, a.first), a.second)
  }

  /** The client has nothing more to send; a flow that is not there yet, or over, does not notice. */
  function NoteFin(s: Remote): (r: Remote)
    ensures Extends(s, r) && SameStreams(s, r) && r.Live() == s.Live()
  {
    if !s.Live() then s else s.(flow := Some(s.flow.value.(fin := true)))
  }

  /** A connected flow that got FIN was quiet for too long: EOF, whatever still waits for quota. */
  function QuietEnd(s: Remote, a: Answer): (r: Remote)
    ensures KeepsFlow(s, r) && Extends(s, r)
  {
    if !s.Live() || s.flow.value.phase != Open || !s.flow.value.fin then s
    else Finish(SendText(s, Eof, a.first), a.second)
  }

  /** The answer for a write of `len` bytes: TCP takes at most that many. */
  function Clamp(a: Answer, len: nat): (r: Answer)
    ensures r.wrote <= len
  {
    if a.wrote <= len then a else a.(wrote := len)
  }

  /** Charge queued items in order until one has to wait, is refused, or none is left. */
  function DrainQuota(s: Remote, i: nat, answers: nat -> Answer): (r: Remote)
    requires s.flow.Some?
    ensures Extends(s, r)
    decreases |s.flow.value.pending|
  {
    var f := s.flow.value;
    if f.charging || !s.Live() then s
    else if f.pending == [] then CompletePeer(s, answers(i))
    else match answers(i).verdict
      case Later => s.(flow := Some(f.(charging := true)))
      case No => Finish(s, answers(i).second)
      case Throws => Finish(s, answers(i).second)
      case Yes =>
        var next := ForwardCharged(s, Clamp(answers(i), |f.pending[0].bytes|));
        if next.Live() then DrainQuota(next, i + 1, answers) else next
  }

  function DrainBacklog(s: Remote, i: nat, answers: nat -> Answer): (r: Remote)
    requires s.flow.Some?
    ensures r.flow.Some? && Extends(s, r) && SameStreams(s, r)
    decreases |s.flow.value.backlog|
  {
    var f := s.flow.value;
    if f.phase != Open || f.backlog == [] then s else
      var bytes := f.backlog[0];
      var taken := Charged(s.(flow := Some(f.(backlog := f.backlog[1..]))), -|bytes|);
      var next := WriteTcp(taken, bytes, Clamp(answers(i), |bytes|));
      if |next.flow.value.backlog| >= |f.backlog| then next else DrainBacklog(next, i + 1, answers)
  }

  /** Queue bytes for quota, or end the flow over its buffer limits. */
  function Pend(s: Remote, bytes: seq<byte>, upload: bool, answers: nat -> Answer): (r: Remote)
    requires s.Live()
    ensures Extends(s, r)
  {
    if !HasRoom(s, |bytes|) then Finish(if upload then s.(late := s.late + bytes) else s, answers(0).second) else
      var s := Charged(s, |bytes|);
      var s := s.(flow := Some(s.flow.value.(pending := s.flow.value.pending + [Charge(bytes, upload)])));
      DrainQuota(if upload then s.(received := s.received + bytes) else s.(arrived := s.arrived + bytes), 1, answers)
  }

  /** Bytes for the flow, from the client or from TCP. */
  function Enqueue(s: Remote, bytes: seq<byte>, upload: bool, maxBytes: nat, answers: nat -> Answer): (r: Remote)
    requires s.Live()
    ensures Extends(s, r)
  {
    hide Pend;
    if bytes == [] then s else
      var f := s.flow.value;
      var s := s.(flow := Some(f.(bytes := f.bytes + |bytes|)));
      if f.bytes + |bytes| > maxBytes then
        Finish(if upload then s.(late := s.late + bytes) else s, answers(0).second)
      else Pend(s, bytes, upload, answers)
  }

  /** The channel is open and its flow not admitted yet: data that comes now is dropped. */
  predicate TooEarly(s: Remote) {
    s.flow.None? && !s.ch.dead && !s.ch.closing
  }

  /** A data frame from the client. */
  function Receive(s: Remote, bytes: seq<byte>, maxBytes: nat, answers: nat -> Answer): (r: Remote)
    ensures Extends(s.(early := r.early), r)
    ensures r.early == if TooEarly(s) then s.early + bytes else s.early
  {
    if TooEarly(s) then s.(early := s.early + bytes, lost := s.lost + |bytes|)
    else if s.ch.dead || s.ch.closing || s.flow.None? then s.(late := s.late + bytes, lost := s.lost + |bytes|)
    else
      var s := s.(ch := s.ch.(incoming := s.ch.incoming + |bytes|));
      if s.ch.incoming > MUX_WINDOW then Abort(s.(late := s.late + bytes), answers(0).first.full)
      else if !s.Live() then s.(late := s.late + bytes)
      else Enqueue(s, bytes, true, maxBytes, answers)
  }

  // ---- Everything that can happen to the relay's end ----

  /** How the relay ends a flow by itself: without a word, with ERR, or with the resolved addresses. */
  datatype Ending = Silent | Refused | Resolved

  datatype RelayEvent =
    | Admitted(granted: bool)
    | OpenFailed
    | Connected
    | TcpData(bytes: seq<byte>)
    | TcpDrain
    | TcpEnded
    | QuotaAnswered(granted: bool)
    | Conclude(ending: Ending)
    | QuietAfterFin
    | SocketWritable
    | ConnectionLost

  function EndingReply(e: Ending): Reply {
    if e == Resolved then Addresses else Error
  }

  /** A refused channel is answered and forgotten. */
  function OpenChannel(s: Remote, a: Answer): (r: Remote)
    ensures Extends(s, r)
  {
    if s.stopped || a.mayOpen then s
    else if a.first.full then Stop(s)
    else
      var s := s.(out := s.out + [Line(Error)], offered := s.offered + [Text(Error)]);
      if a.second.full then Stop(s) else s.(out := s.out + [Closed], ch := s.ch.(dead := true))
  }

  /** The client message at the head of the connection. */
  function OnMessage(s: Remote, m: Up, maxBytes: nat, answers: nat -> Answer): (r: Remote)
    requires s.read == [] ==> m.Command?
    ensures Extends(s.(read := s.read + [m], early := r.early), r)
    ensures r.early == if m.Payload? && TooEarly(s) then s.early + m.bytes else s.early
  {
    var known := s.read != [];
    var s := s.(read := s.read + [m]);
    match m
    case Command => if known then Stop(s) else OpenChannel(s, answers(0))
    case Fin => NoteFin(s)
    case Window(n) => if s.ch.dead then s else GrantWindow(s, n, answers(0).first)
    case Payload(bytes) => Receive(s, bytes, maxBytes, answers)
    case Shut => Abort(s, answers(0).first.full)
  }

  /** Whether the flow may be; a refusal is answered and the channel closed. */
  function Admit(s: Remote, granted: bool, a: Answer): (r: Remote)
    ensures Extends(s, r)
  {
    if s.flow.Some? || s.ch.closing then s
    else if !granted then Close(SendText(s, Error, a.first), a.second)
    else s.(flow := Some(if s.ch.dead then FRESH_FLOW.(phase := Ended) else FRESH_FLOW))
  }

  function Connect(s: Remote, answers: nat -> Answer): (r: Remote)
    ensures Extends(s, r)
  {
    if !s.Live() || s.flow.value.phase != Dialing then s else
      DrainBacklog(SendText(s.(flow := Some(s.flow.value.(phase := Open))), Okay, answers(0).first), 1, answers)
  }

  function QuotaAnswer(s: Remote, granted: bool, answers: nat -> Answer): (r: Remote)
    ensures Extends(s, r)
  {
    if !s.Live() || !s.flow.value.charging || s.flow.value.pending == [] then s else
      var f := s.flow.value;
      var s := s.(flow := Some(f.(charging := false)));
      if !granted then Finish(s, answers(0).second)
      else DrainQuota(ForwardCharged(s, Clamp(answers(0), |f.pending[0].bytes|)), 1, answers)
  }

  function OnEvent(s: Remote, e: RelayEvent, maxBytes: nat, answers: nat -> Answer): (r: Remote)
    ensures Extends(s, r)
  {
    hide SendText, Close, Enqueue, DrainBacklog, DrainQuota, CompletePeer, ForwardCharged, Finish, Drain, Stop, Abort;
    match e
    case Admitted(granted) => Admit(s, granted, answers(0))
    case OpenFailed => Abort(s, answers(0).first.full)
    case Connected => Connect(s, answers)
    case TcpData(bytes) =>
      if !s.Live() || s.flow.value.phase != Open then s else Enqueue(s, bytes, false, maxBytes, answers)
    case TcpDrain =>
      if s.flow.None? then s else DrainBacklog(s, 0, answers)
    case TcpEnded =>
      if s.flow.None? then s else
        CompletePeer(s.(flow := Some(s.flow.value.(peerEnded := true))), answers(0))
    case QuotaAnswered(granted) => QuotaAnswer(s, granted, answers)
    case Conclude(ending) =>
      if !s.Live() then s
      else if ending == Silent then Finish(s, answers(0).second)
      else Finish(SendText(s, EndingReply(ending), answers(0).first), answers(0).second)
    case QuietAfterFin => QuietEnd(s, answers(0))
    case SocketWritable => Drain(s, answers(0).first)
    case ConnectionLost => Stop(s)
  }
}
