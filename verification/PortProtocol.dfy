/**
 One guest port and the broker's client record for it, with all their flows, over
 the two ordered message queues of a MessagePort. The relay behind the broker is
 free to acknowledge, deliver and close within the credit contract.
 */
module PortProtocol {
  import opened Bytes
  import opened MuxProtocol

  const PORT_LIMIT: nat := 1024 * 1024
  datatype ToBroker =
    | OpenMsg(id: nat)
    | CommandMsg(id: nat)
    | FinMsg(id: nat)
    | BinaryMsg(id: nat, bytes: seq<byte>)
    | ConsumedMsg(id: nat, count: nat)
    | CloseMsg(id: nat)

  datatype ToPort =
    | OpenedMsg(id: nat)
    | DataMsg(id: nat, count: nat)
    | AckMsg(id: nat, count: nat)
    | ClosedMsg(id: nat)
    | RefusedMsg(id: nat)

  // ---- The port ----

  /** `ready` and `started` are the guest's: it saw the opened event, it sent a command. */
  datatype PortFlow = PortFlow(pending: int, live: bool, ready: bool, started: bool)

  /**
   `events` are data events the guest has not polled, as (id, bytes). `log` and
   `seen` are the messages sent and received so far, and `spent[k]` is what each
   flow had pending when the k-th message was sent.
   */
  datatype Port = Port(
    flows: map<nat, PortFlow>, next: nat, pending: int, events: seq<(nat, nat)>,
    log: seq<ToBroker>, seen: seq<ToPort>, spent: seq<map<nat, int>>)

  function Pendings(flows: map<nat, PortFlow>): map<nat, int> {
    map id | id in flows :: flows[id].pending
  }

  function Post(p: Port, m: ToBroker): Port {
    p.(log := p.log + [m], spent := p.spent + [Pendings(p.flows)])
  }

  function PostAll(p: Port, id: nat, frames: seq<seq<byte>>): Port
    decreases |frames|
  {
    if frames == [] then p else PostAll(Post(p, BinaryMsg(id, frames[0])), id, frames[1..])
  }

  /** `bytes` cut into frames of MUX_FRAME, the last one possibly shorter. */
  function Frames(bytes: seq<byte>): seq<seq<byte>> {
    if bytes == [] then []
    else if |bytes| <= MUX_FRAME then [bytes]
    else [bytes[..MUX_FRAME]] + Frames(bytes[MUX_FRAME..])
  }

  function PortOpen(p: Port): Port {
    if p.next >= MAX_ID || |p.flows| >= 64 then p else
      Post(p.(next := p.next + 1, flows := p.flows[p.next + 1 := PortFlow(0, true, false, false)]), OpenMsg(p.next + 1))
  }

  /** The guest sends its one command after the opened event. */
  function PortCommand(p: Port, id: nat): Port {
    if id !in p.flows || !p.flows[id].live || !p.flows[id].ready || p.flows[id].started then p else
      Post(p.(flows := p.flows[id := p.flows[id].(started := true)]), CommandMsg(id))
  }

  function PortFin(p: Port, id: nat): Port {
    if id !in p.flows || !p.flows[id].live || !p.flows[id].started then p else Post(p, FinMsg(id))
  }

  predicate MaySend(p: Port, id: nat, n: nat) {
    && id in p.flows && p.flows[id].live && p.flows[id].started
    && p.flows[id].pending + n <= MUX_WINDOW
    && p.pending + n <= PORT_LIMIT
  }

  /** `sendBinary`, for a guest that sends data only after its command. */
  function PortSend(p: Port, id: nat, bytes: seq<byte>): Port {
    if !MaySend(p, id, |bytes|) then p else
      PostAll(p.(flows := p.flows[id := p.flows[id].(pending := p.flows[id].pending + |bytes|)],
                 pending := p.pending + |bytes|), id, Frames(bytes))
  }

  function Without(events: seq<(nat, nat)>, id: nat): seq<(nat, nat)> {
    if events == [] then [] else
      (if events[0].0 == id then [] else [events[0]]) + Without(events[1..], id)
  }

  function PortClose(p: Port, id: nat): Port {
    if id !in p.flows then p else
      Post(p.(flows := p.flows - {id}, pending := p.pending - p.flows[id].pending, events := Without(p.events, id)),
           CloseMsg(id))
  }

  function PortReceive(p: Port, m: ToPort): Port {
    var p := p.(seen := p.seen + [m]);
    if m.id !in p.flows then p else
      var f := p.flows[m.id];
      match m
      case OpenedMsg(id) => p.(flows := p.flows[id := f.(ready := true)])
      case DataMsg(id, n) => p.(events := p.events + [(id, n)])
      case AckMsg(id, n) =>
        if n == 0 || n > f.pending then PortClose(p, id)
        else p.(flows := p.flows[id := f.(pending := f.pending - n)], pending := p.pending - n)
      case _ => p.(flows := p.flows[m.id := f.(pending := 0, live := false)], pending := p.pending - f.pending)
  }

  /** The guest polls the i-th event, which gives its bytes back. */
  function PortPoll(p: Port, i: nat): Port {
    if i >= |p.events| then p else
      Post(p.(events := p.events[..i] + p.events[i + 1..]), ConsumedMsg(p.events[i].0, p.events[i].1))
  }

  // ---- The broker ----

  datatype BrokerChannel = BrokerChannel(announced: bool, started: bool, bytes: int, received: int)

  /** The broker's client record; `read` and `out` are the messages it took and posted. */
  datatype Hub = Hub(channels: map<nat, BrokerChannel>, bytes: int, read: seq<ToBroker>, out: seq<ToPort>)

  function HubClose(h: Hub, id: nat): Hub {
    if id !in h.channels then h else
      h.(channels := h.channels - {id}, bytes := h.bytes - h.channels[id].bytes, out := h.out + [ClosedMsg(id)])
  }

  function HubOpened(h: Hub, id: nat): Hub {
    if id !in h.channels || h.channels[id].announced then h else
      h.(channels := h.channels[id := h.channels[id].(announced := true)], out := h.out + [OpenedMsg(id)])
  }

  /**
   The message breaks the port's side of the contract: its channel is closed on it,
   or, for an id opened twice, the whole port is detached.
   */
  predicate Objects(h: Hub, m: ToBroker) {
    if m.OpenMsg? then m.id in h.channels || m.id == 0 || m.id > MAX_ID else
      m.id in h.channels && !m.CloseMsg? &&
      var c := h.channels[m.id];
      || !c.announced
      || (m.CommandMsg? && c.started)
      || (m.FinMsg? && !c.started)
      || (m.BinaryMsg? && (!c.started || |m.bytes| == 0 || |m.bytes| > MUX_FRAME
                           || c.bytes + |m.bytes| > MUX_WINDOW || h.bytes + |m.bytes| > PORT_LIMIT))
      || (m.ConsumedMsg? && !(0 < m.count <= c.received))
  }

  /** The record of the channel after a message it has no objection to. */
  function Accept(h: Hub, m: ToBroker): Hub
    requires m.id in h.channels
  {
    var c := h.channels[m.id];
    match m
    case CommandMsg(id) => h.(channels := h.channels[id := c.(started := true)])
    case BinaryMsg(id, bytes) =>
      h.(channels := h.channels[id := c.(bytes := c.bytes + |bytes|)], bytes := h.bytes + |bytes|)
    case ConsumedMsg(id, n) => h.(channels := h.channels[id := c.(received := c.received - n)])
    case _ => h
  }

  /** `room` is whether the broker's process-wide limits leave room for one more. */
  function HubReceive(h: Hub, m: ToBroker, connected: bool, room: bool): Hub {
    var h := h.(read := h.read + [m]);
    if m.OpenMsg? then
      if m.id in h.channels then h.(channels := map[], bytes := 0)
      else if !room then h.(out := h.out + [RefusedMsg(m.id)])
      else
        var h := h.(channels := h.channels[m.id := BrokerChannel(false, false, 0, 0)]);
        if connected then HubOpened(h, m.id) else h
    else if m.id !in h.channels then h
    else if m.CloseMsg? || Objects(h, m) then HubClose(h, m.id)
    else
      var h := Accept(h, m);
      if room then h else HubClose(h, m.id)
  }

  /** An acknowledgement from the relay, within what is outstanding. */
  function HubAck(h: Hub, id: nat, n: nat): Hub {
    if id !in h.channels || n == 0 || n > h.channels[id].bytes then h else
      h.(channels := h.channels[id := h.channels[id].(bytes := h.channels[id].bytes - n)],
         bytes := h.bytes - n, out := h.out + [AckMsg(id, n)])
  }

  function HubData(h: Hub, id: nat, n: nat): Hub {
    if id !in h.channels || n == 0 || !h.channels[id].started then h else
      h.(channels := h.channels[id := h.channels[id].(received := h.channels[id].received + n)],
         out := h.out + [DataMsg(id, n)])
  }

  // ---- Runs ----

  datatype PortEvent =
    | GuestOpens
    | GuestCommands(id: nat)
    | GuestFins(id: nat)
    | GuestSends(id: nat, bytes: seq<byte>)
    | GuestCloses(id: nat)
    | GuestPolls(i: nat)
    | PortReads
    | BrokerReads(connected: bool, room: bool)
    | BrokerOpens(id: nat)
    | RelayAcks(id: nat, count: nat)
    | RelayDelivers(id: nat, count: nat)
    | BrokerCloses(id: nat)

  datatype Link = Link(port: Port, hub: Hub)

  function Next(s: Link, e: PortEvent): Link {
    var p, h := s.port, s.hub;
    match e
    case GuestOpens => s.(port := PortOpen(p))
    case GuestCommands(id) => s.(port := PortCommand(p, id))
    case GuestFins(id) => s.(port := PortFin(p, id))
    case GuestSends(id, bytes) => s.(port := PortSend(p, id, bytes))
    case GuestCloses(id) => s.(port := PortClose(p, id))
    case GuestPolls(i) => s.(port := PortPoll(p, i))
    case PortReads => if |p.seen| < |h.out| then s.(port := PortReceive(p, h.out[|p.seen|])) else s
    case BrokerReads(connected, room) =>
      if |h.read| < |p.log| then s.(hub := HubReceive(h, p.log[|h.read|], connected, room)) else s
    case BrokerOpens(id) => s.(hub := HubOpened(h, id))
    case RelayAcks(id, n) => s.(hub := HubAck(h, id, n))
    case RelayDelivers(id, n) => s.(hub := HubData(h, id, n))
    case BrokerCloses(id) => s.(hub := HubClose(h, id))
  }

  function Run(s: Link, events: seq<PortEvent>): Link
    decreases |events|
  {
    if events == [] then s else Run(Next(s, events[0]), events[1..])
  }

  const START := Link(Port(map[], 0, 0, [], [], [], [map[]]), Hub(map[], 0, [], []))
}
