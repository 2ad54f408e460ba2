/**
 The browser's relay broker as a value: many guest ports share one WebSocket. Each
 port's channel table is the client record of PortProtocol; what the channels put on
 the wire goes through one queue. Answers of the socket (how many messages it takes,
 whether its buffer is full) and the order in which a table is walked are arguments.
 */
module BrokerModel {
  import opened MuxProtocol
  import opened PortProtocol

  const TOTAL_LIMIT: nat := 8 * PORT_LIMIT

  /** A channel, by the port it belongs to and its id there. */
  datatype Key = Key(client: nat, local: nat)

  /** A queued message and its length on the wire. */
  datatype Outgoing = Outgoing(key: Key, message: Up, size: nat)

  function Sizes(queue: seq<Outgoing>): nat {
    if queue == [] then 0 else queue[0].size + Sizes(queue[1..])
  }

  /** The queue without a channel's messages. */
  function Others(queue: seq<Outgoing>, key: Key): seq<Outgoing> {
    if queue == [] then [] else (if queue[0].key == key then [] else [queue[0]]) + Others(queue[1..], key)
  }

  /** A channel's messages in the queue. */
  function Mine(queue: seq<Outgoing>, key: Key): seq<Up> {
    if queue == [] then [] else (if queue[0].key == key then [queue[0].message] else []) + Mine(queue[1..], key)
  }

  lemma {:induction false} SizesSnoc(queue: seq<Outgoing>, item: Outgoing)
    ensures Sizes(queue + [item]) == Sizes(queue) + item.size
  {
    if queue == [] {
      assert queue + [item] == [item];
    } else {
      SizesSnoc(queue[1..], item);
      assert (queue + [item])[1..] == queue[1..] + [item];
    }
  }

  lemma {:induction false} MineSnoc(queue: seq<Outgoing>, item: Outgoing, key: Key)
    ensures Mine(queue + [item], key) == Mine(queue, key) + if item.key == key then [item.message] else []
  {
    if queue == [] {
      assert queue + [item] == [item];
    } else {
      MineSnoc(queue[1..], item, key);
      assert (queue + [item])[1..] == queue[1..] + [item];
    }
  }

  lemma {:induction false} MineOthers(queue: seq<Outgoing>, gone: Key, key: Key)
    ensures Mine(Others(queue, gone), key) == if key == gone then [] else Mine(queue, key)
  {
    if queue != [] {
      MineOthers(queue[1..], gone, key);
      if queue[0].key != gone {
        assert Others(queue, gone)[1..] == Others(queue[1..], gone);
      } else {
        assert Others(queue, gone) == Others(queue[1..], gone);
      }
    }
  }

  lemma {:induction false} OthersKept(queue: seq<Outgoing>, gone: Key, i: nat)
    requires i < |Others(queue, gone)|
    ensures Others(queue, gone)[i].key != gone && Others(queue, gone)[i] in queue
  {
    var rest := Others(queue[1..], gone);
    if queue[0].key != gone {
      if i > 0 {
        OthersKept(queue[1..], gone, i - 1);
      }
    } else {
      assert Others(queue, gone) == rest;
      OthersKept(queue[1..], gone, i);
    }
  }

  lemma Nothing(key: Key)
    ensures Sizes([]) == 0 && Others([], key) == []
  {
  }

  lemma ConsLaws(head: Outgoing, tail: seq<Outgoing>, key: Key)
    ensures Sizes([head] + tail) == head.size + Sizes(tail)
    ensures Others([head] + tail, key) == (if head.key == key then [] else [head]) + Others(tail, key)
  {
    assert ([head] + tail)[1..] == tail;
  }

  /** `routes` names the channel of each wire id; `sent` is everything written so far, by wire id. */
  datatype Hive = Hive(clients: map<nat, Hub>, ids: map<Key, nat>, routes: map<nat, Key>, nextId: nat,
                       queue: seq<Outgoing>, connected: bool, sent: seq<(nat, Up)>)
  {
    predicate Has(key: Key) {
      key.client in clients && key.local in clients[key.client].channels
    }

    function ChannelOf(key: Key): BrokerChannel
      requires Has(key)
    {
      clients[key.client].channels[key.local]
    }

    /** The channel's id on the wire, 0 before its command. */
    function WireId(key: Key): nat {
      if key in ids then ids[key] else 0
    }

    function WithHub(c: nat, h: Hub): Hive {
      this.(clients := clients[c := h])
    }
  }

  const EMPTY := Hive(map[], map[], map[], 0, [], false, [])

  // ---- Writing ----

  /** Queued messages as they are written. */
  function Sending(queue: seq<Outgoing>, h: Hive): seq<(nat, Up)> {
    if queue == [] then [] else [(h.WireId(queue[0].key), queue[0].message)] + Sending(queue[1..], h)
  }

  /** Write queued messages while the socket takes them. */
  function FlushHive(h: Hive, room: nat): Hive {
    var n := if h.connected then Min(room, |h.queue|) else 0;
    h.(queue := h.queue[n..], sent := h.sent + Sending(h.queue[..n], h))
  }

  // ---- Closing ----

  /** Forget a channel, its queued messages with it, and tell its port. */
  function ForgetChannel(h: Hive, key: Key): Hive {
    if !h.Has(key) then h else
      h.(clients := h.clients[key.client := HubClose(h.clients[key.client], key.local)],
         ids := h.ids - {key}, routes := h.routes - {h.WireId(key)}, queue := Others(h.queue, key))
  }

  function ForgetAll(h: Hive, order: seq<Key>): Hive {
    if order == [] then h else ForgetChannel(ForgetAll(h, order[..|order| - 1]), order[|order| - 1])
  }

  /** The connection is gone, and the channels in `order` with it. */
  function LoseHive(h: Hive, order: seq<Key>): Hive {
    ForgetAll(h.(connected := false), order)
  }

  /** Close a channel. `notify` tells the relay; a full socket loses the connection instead. */
  function CloseHive(h: Hive, key: Key, notify: bool, full: bool, order: seq<Key>): Hive {
    if !h.Has(key) then h else
      var id := h.WireId(key);
      var g := ForgetChannel(h, key);
      if !notify || id == 0 || !g.connected then g
      else if full then LoseHive(g, order)
      else g.(sent := g.sent + [(id, Shut)])
  }

  // ---- Messages from a port ----

  /** What a port message puts on the wire. */
  function Outbound(m: ToBroker): Up {
    match m
    case CommandMsg(_) => Command
    case FinMsg(_) => Fin
    case BinaryMsg(_, bytes) => Payload(bytes)
    case ConsumedMsg(_, n) => Window(n)
    case _ => Shut
  }

  /** Whether the shared queue takes one more message. */
  predicate HasRoom(h: Hive, size: nat) {
    Sizes(h.queue) + size <= TOTAL_LIMIT && |h.queue| < 4096
  }

  /** What the socket and the channel table answer while one port message is handled. */
  datatype Reaction = Reaction(size: nat, room: nat, full: bool, mayOpen: bool, order: seq<Key>)

  function EnqueueHive(h: Hive, key: Key, m: Up, a: Reaction): Hive {
    if !HasRoom(h, a.size) then CloseHive(h, key, true, a.full, a.order)
    else FlushHive(h.(queue := h.queue + [Outgoing(key, m, a.size)]), a.room)
  }

  /** A command gets the next wire id. */
  function Numbering(h: Hive, key: Key, m: ToBroker): Hive {
    if !m.CommandMsg? then h else
      h.(nextId := h.nextId + 1, ids := h.ids[key := h.nextId + 1], routes := h.routes[h.nextId + 1 := key])
  }

  /** A message the broker has no objection to: count it and queue it for the relay. */
  function TakeHive(h: Hive, c: nat, m: ToBroker, a: Reaction): Hive
    requires h.Has(Key(c, m.id))
  {
    var g := Numbering(h.WithHub(c, Accept(h.clients[c], m)), Key(c, m.id), m);
    EnqueueHive(g, Key(c, m.id), Outbound(m), a)
  }

  /** A channel is opened, and announced if there is a connection. */
  function OpenHive(h: Hive, c: nat, local: nat, mayOpen: bool): Hive
    requires c in h.clients
  {
    h.WithHub(c, HubReceive(h.clients[c], OpenMsg(local), h.connected, mayOpen))
  }

  function DetachLoop(h: Hive, keys: seq<Key>, full: nat -> bool, order: seq<Key>): Hive {
    if keys == [] then h else
      CloseHive(DetachLoop(h, keys[..|keys| - 1], full, order), keys[|keys| - 1], true, full(|keys|), order)
  }

  /** Drop a port with its channels; without ports there is no connection. */
  function DetachHive(h: Hive, c: nat, keys: seq<Key>, full: nat -> bool, order: seq<Key>): Hive {
    var g := DetachLoop(h, keys, full, order);
    var g := g.(clients := g.clients - {c});
    if g.clients == map[] then g.(connected := false) else g
  }

  predicate BadId(m: ToBroker) {
    m.id == 0 || m.id > MAX_ID
  }

  /** The message makes the broker drop the whole port. */
  predicate Detaching(h: Hub, m: ToBroker) {
    BadId(m) || (m.OpenMsg? && Objects(h, m))
  }

  /** `keys` names every channel of port c. */
  predicate Covering(h: Hive, c: nat, keys: seq<Key>) {
    c in h.clients && forall l :: l in h.clients[c].channels ==> Key(c, l) in keys
  }

  /** Before the connection is lost it does not matter in which order it would be. */
  lemma {:induction false} DetachOrder(h: Hive, keys: seq<Key>, full: nat -> bool, order: seq<Key>, other: seq<Key>)
    requires DetachLoop(h, keys, full, order).connected
    ensures DetachLoop(h, keys, full, other) == DetachLoop(h, keys, full, order)
    decreases |keys|
  {
    hide ForgetChannel, ForgetAll;
    if keys != [] {
      var rest, last := keys[..|keys| - 1], keys[|keys| - 1];
      var g := DetachLoop(h, rest, full, order);
      ForgetFields(g, last);
      ForgetAllFields(ForgetChannel(g, last).(connected := false), order);
      DetachOrder(h, rest, full, order, other);
    }
  }

  lemma ReadObjects(h: Hub, m: ToBroker)
    ensures Objects(h.(read := h.read + [m]), m) == Objects(h, m)
  {
  }

  /** A message from a port that does not detach it. */
  function MessageHive(h: Hive, c: nat, m: ToBroker, a: Reaction): Hive
    requires c in h.clients
  {
    if m.OpenMsg? then OpenHive(h, c, m.id, a.mayOpen) else
      var key := Key(c, m.id);
      var g := h.WithHub(c, h.clients[c].(read := h.clients[c].read + [m]));
      if !g.Has(key) then g
      else if m.CloseMsg? || Objects(g.clients[c], m) then CloseHive(g, key, true, a.full, a.order)
      else TakeHive(g, c, m, a)
  }

  // ---- Messages from the relay ----

  /** The relay message breaks the credit contract. */
  predicate Breach(c: BrokerChannel, m: Down) {
    || (m.Ack? && m.count > c.bytes)
    || (m.Frame? && c.received + |m.bytes| > MUX_WINDOW)
  }

  function HearHive(h: Hive, id: nat, m: Down, order: seq<Key>): Hive {
    if id !in h.routes || !h.Has(h.routes[id]) then h else
      var key := h.routes[id];
      var hub := h.clients[key.client];
      if Breach(h.ChannelOf(key), m) then LoseHive(h, order)
      else match m
        case Line(_) => h
        case Closed => CloseHive(h, key, false, false, [])
        case Ack(n) => h.WithHub(key.client, HubAck(hub, key.local, n))
        case Frame(bytes) => h.WithHub(key.client, HubData(hub, key.local, |bytes|))
  }

  // ---- Ports and connections come ----

  function AttachHive(h: Hive, c: nat): Hive {
    if c in h.clients then h else h.WithHub(c, START.hub)
  }

  function AnnounceAll(h: Hive, order: seq<Key>): Hive {
    if order == [] then h else
      var g := AnnounceAll(h, order[..|order| - 1]);
      var key := order[|order| - 1];
      if key.client in g.clients then g.WithHub(key.client, HubOpened(g.clients[key.client], key.local)) else g
  }

  /** The socket is open: every channel is announced. */
  function ConnectHive(h: Hive, order: seq<Key>): Hive {
    AnnounceAll(h.(connected := true), order)
  }

  /** `order` names every channel. */
  ghost predicate Complete(h: Hive, order: seq<Key>) {
    forall key :: h.Has(key) ==> key in order
  }

  // ---- Wire ids and channels name each other ----

  /** A channel has a wire id exactly once it sent its command. */
  predicate Numbered(h: Hive, key: Key) {
    && (key in h.ids ==>
          h.Has(key) && 0 < h.ids[key] <= h.nextId && h.ids[key] in h.routes && h.routes[h.ids[key]] == key)
    && (h.Has(key) ==>
          var c := h.ChannelOf(key);
          (key in h.ids <==> c.started) && (!c.started ==> c.bytes == 0 && c.received == 0))
  }

  ghost predicate Routed(h: Hive) {
    && (forall key :: Numbered(h, key))
    && (forall id :: id in h.routes ==> h.routes[id] in h.ids && h.ids[h.routes[id]] == id)
    && (forall i :: 0 <= i < |h.queue| ==> h.queue[i].key in h.ids)
    && Issued(h.sent, h.nextId)
  }

  /** Nothing was written for wire ids not given yet. */
  predicate Issued(sent: seq<(nat, Up)>, nextId: nat) {
    forall i :: 0 <= i < |sent| ==> sent[i].0 <= nextId
  }

  lemma {:induction false} NotIssued(sent: seq<(nat, Up)>, nextId: nat, id: nat)
    requires Issued(sent, nextId) && id > nextId
    ensures Written(sent, id) == []
    decreases |sent|
  {
    if sent != [] {
      NotIssued(sent[..|sent| - 1], nextId, id);
    }
  }

  lemma {:induction false} SendingIssued(queue: seq<Outgoing>, h: Hive)
    requires Routed(h)
    ensures Issued(Sending(queue, h), h.nextId)
  {
    if queue != [] {
      SendingIssued(queue[1..], h);
      assert Numbered(h, queue[0].key);
    }
  }

  lemma RouteHolds(h: Hive, id: nat)
    requires Routed(h) && id in h.routes
    ensures h.Has(h.routes[id]) && h.ids[h.routes[id]] == id && 0 < id <= h.nextId
    ensures h.ChannelOf(h.routes[id]).started
  {
    assert Numbered(h, h.routes[id]);
  }

  lemma ForgetRouted(h: Hive, key: Key)
    requires Routed(h)
    ensures Routed(ForgetChannel(h, key)) && !ForgetChannel(h, key).Has(key)
  {
    if h.Has(key) {
      var g := ForgetChannel(h, key);
      assert Numbered(h, key);
      forall i | 0 <= i < |g.queue| ensures g.queue[i].key in g.ids {
        OthersKept(h.queue, key, i);
      }
      forall k ensures Numbered(g, k) {
        assert Numbered(h, k);
      }
      forall id | id in g.routes ensures g.routes[id] in g.ids && g.ids[g.routes[id]] == id {
        assert id in h.routes;
      }
    }
  }

  lemma {:induction false} ForgetAllRouted(h: Hive, order: seq<Key>)
    requires Routed(h)
    ensures Routed(ForgetAll(h, order))
  {
    hide Routed, ForgetChannel;
    if order != [] {
      ForgetAllRouted(h, order[..|order| - 1]);
      ForgetRouted(ForgetAll(h, order[..|order| - 1]), order[|order| - 1]);
    }
  }

  lemma FlagRouted(h: Hive, connected: bool)
    requires Routed(h)
    ensures Routed(h.(connected := connected))
  {
    forall k ensures Numbered(h.(connected := connected), k) {
      assert Numbered(h, k);
    }
  }

  lemma LoseRouted(h: Hive, order: seq<Key>)
    requires Routed(h)
    ensures Routed(LoseHive(h, order))
  {
    hide Routed, ForgetAll;
    FlagRouted(h, false);
    ForgetAllRouted(h.(connected := false), order);
  }

  lemma SentRouted(h: Hive, queue: seq<Outgoing>, sent: seq<(nat, Up)>)
    requires Routed(h) && Issued(sent, h.nextId) && forall i :: 0 <= i < |queue| ==> queue[i].key in h.ids
    ensures Routed(h.(queue := queue, sent := sent))
  {
    forall k ensures Numbered(h.(queue := queue, sent := sent), k) {
      assert Numbered(h, k);
    }
  }

  lemma CloseRouted(h: Hive, key: Key, notify: bool, full: bool, order: seq<Key>)
    requires Routed(h)
    ensures Routed(CloseHive(h, key, notify, full, order))
  {
    hide ForgetChannel, LoseHive;
    var g := ForgetChannel(h, key);
    ForgetRouted(h, key);
    LoseRouted(g, order);
    assert Numbered(h, key) && g.nextId == h.nextId && g.sent == h.sent by { ForgetFields(h, key); }
    SentRouted(g, g.queue, g.sent + [(h.WireId(key), Shut)]);
  }

  lemma ForgetFields(h: Hive, key: Key)
    ensures var g := ForgetChannel(h, key);
            g.nextId == h.nextId && g.sent == h.sent && g.connected == h.connected && g.clients.Keys == h.clients.Keys
  {
    hide Others;
  }

  lemma {:induction false} ForgetAllFields(h: Hive, order: seq<Key>)
    ensures ForgetAll(h, order).nextId == h.nextId && ForgetAll(h, order).clients.Keys == h.clients.Keys
    ensures ForgetAll(h, order).connected == h.connected
  {
    hide ForgetChannel;
    if order != [] {
      ForgetAllFields(h, order[..|order| - 1]);
      ForgetFields(ForgetAll(h, order[..|order| - 1]), order[|order| - 1]);
    }
  }

  lemma FlushRouted(h: Hive, room: nat)
    requires Routed(h)
    ensures Routed(FlushHive(h, room))
  {
    hide Sending;
    var g := FlushHive(h, room);
    SendingIssued(h.queue[..if h.connected then Min(room, |h.queue|) else 0], h);
    SentRouted(h, g.queue, g.sent);
  }

  lemma QueuedRouted(h: Hive, item: Outgoing)
    requires Routed(h) && item.key in h.ids
    ensures Routed(h.(queue := h.queue + [item])) && h.Has(item.key)
  {
    assert Numbered(h, item.key);
    SentRouted(h, h.queue + [item], h.sent);
  }

  lemma {:induction false} ForgetAllGone(h: Hive, order: seq<Key>, key: Key)
    ensures ForgetAll(h, order).Has(key) ==> h.Has(key) && key !in order
    decreases |order|
  {
    hide ForgetChannel;
    if order != [] {
      var rest, last := order[..|order| - 1], order[|order| - 1];
      ForgetAllGone(h, rest, key);
      ForgetGone(ForgetAll(h, rest), last, key);
      assert order == rest + [last];
    }
  }

  lemma ForgetGone(h: Hive, gone: Key, key: Key)
    ensures ForgetChannel(h, gone).Has(key) <==> h.Has(key) && key != gone
  {
    hide Others;
  }

  lemma CloseFields(h: Hive, gone: Key, notify: bool, full: bool, order: seq<Key>)
    ensures var g := CloseHive(h, gone, notify, full, order);
            && g.nextId == h.nextId && g.clients.Keys == h.clients.Keys
            && forall key :: g.Has(key) ==> h.Has(key) && key != gone
  {
    hide ForgetChannel, ForgetAll;
    var f := ForgetChannel(h, gone);
    ForgetFields(h, gone);
    ForgetAllFields(f.(connected := false), order);
    forall key ensures CloseHive(h, gone, notify, full, order).Has(key) ==> h.Has(key) && key != gone {
      ForgetGone(h, gone, key);
      ForgetAllGone(f.(connected := false), order, key);
    }
  }

  lemma {:induction false} DetachLoopFields(h: Hive, keys: seq<Key>, full: nat -> bool, order: seq<Key>)
    ensures var g := DetachLoop(h, keys, full, order);
            && g.nextId == h.nextId && g.clients.Keys == h.clients.Keys
            && forall key :: g.Has(key) ==> h.Has(key) && key !in keys
    decreases |keys|
  {
    hide CloseHive;
    if keys != [] {
      var rest, last := keys[..|keys| - 1], keys[|keys| - 1];
      DetachLoopFields(h, rest, full, order);
      CloseFields(DetachLoop(h, rest, full, order), last, true, full(|keys|), order);
      assert keys == rest + [last];
    }
  }

  /** What forgetting a channel leaves of the records. */
  lemma ForgetClients(h: Hive, key: Key)
    requires h.Has(key)
    ensures var g := ForgetChannel(h, key);
            && g.clients.Keys == h.clients.Keys
            && (forall d :: d in h.clients && d != key.client ==> g.clients[d] == h.clients[d])
            && g.clients[key.client].channels.Keys == h.clients[key.client].channels.Keys - {key.local}
  {
    hide Others;
  }

  lemma EnqueueRouted(h: Hive, key: Key, m: Up, a: Reaction)
    requires Routed(h) && key in h.ids
    ensures Routed(EnqueueHive(h, key, m, a))
  {
    hide CloseHive, FlushHive;
    CloseRouted(h, key, true, a.full, a.order);
    var items := h.queue + [Outgoing(key, m, a.size)];
    SentRouted(h, items, h.sent);
    FlushRouted(h.(queue := items), a.room);
  }

  /** A hub whose channels are the same ones, started or not as before. */
  predicate SameStarts(h: Hub, g: Hub) {
    && g.channels.Keys == h.channels.Keys
    && forall id :: id in h.channels ==>
         && g.channels[id].started == h.channels[id].started
         && (!h.channels[id].started ==>
               g.channels[id].bytes == h.channels[id].bytes && g.channels[id].received == h.channels[id].received)
  }

  lemma HubRouted(h: Hive, c: nat, g: Hub)
    requires Routed(h) && c in h.clients && SameStarts(h.clients[c], g)
    ensures Routed(h.WithHub(c, g))
  {
    forall k ensures Numbered(h.WithHub(c, g), k) {
      assert Numbered(h, k);
    }
  }

  lemma AcceptRouted(h: Hive, c: nat, m: ToBroker)
    requires Routed(h) && h.Has(Key(c, m.id)) && !m.OpenMsg? && !m.CloseMsg? && !Objects(h.clients[c], m)
    ensures var g := Numbering(h.WithHub(c, Accept(h.clients[c], m)), Key(c, m.id), m);
            Routed(g) && Key(c, m.id) in g.ids
  {
    var key := Key(c, m.id);
    var g := Numbering(h.WithHub(c, Accept(h.clients[c], m)), key, m);
    assert Numbered(h, key);
    forall k ensures Numbered(g, k) {
      assert Numbered(h, k);
    }
    forall id | id in g.routes ensures g.routes[id] in g.ids && g.ids[g.routes[id]] == id {
      if id in h.routes {
        RouteHolds(h, id);
      }
    }
  }

  lemma TakeRouted(h: Hive, c: nat, m: ToBroker, a: Reaction)
    requires Routed(h) && h.Has(Key(c, m.id)) && !m.OpenMsg? && !m.CloseMsg? && !Objects(h.clients[c], m)
    ensures Routed(TakeHive(h, c, m, a))
  {
    hide Routed, Accept, Objects, EnqueueHive, Numbering;
    AcceptRouted(h, c, m);
    EnqueueRouted(Numbering(h.WithHub(c, Accept(h.clients[c], m)), Key(c, m.id), m), Key(c, m.id), Outbound(m), a);
  }

  lemma OpenRouted(h: Hive, c: nat, local: nat, mayOpen: bool)
    requires Routed(h) && c in h.clients && !Objects(h.clients[c], OpenMsg(local))
    ensures Routed(OpenHive(h, c, local, mayOpen))
  {
    forall k ensures Numbered(OpenHive(h, c, local, mayOpen), k) {
      assert Numbered(h, k);
    }
  }

  lemma MessageRouted(h: Hive, c: nat, m: ToBroker, a: Reaction)
    requires Routed(h) && c in h.clients && (m.OpenMsg? ==> !Objects(h.clients[c], m))
    ensures Routed(MessageHive(h, c, m, a))
  {
    hide Routed, CloseHive, TakeHive, OpenHive;
    if m.OpenMsg? {
      OpenRouted(h, c, m.id, a.mayOpen);
    } else {
      var g := h.WithHub(c, h.clients[c].(read := h.clients[c].read + [m]));
      HubRouted(h, c, g.clients[c]);
      CloseRouted(g, Key(c, m.id), true, a.full, a.order);
      if g.Has(Key(c, m.id)) && !m.CloseMsg? && !Objects(g.clients[c], m) {
        TakeRouted(g, c, m, a);
      }
    }
  }

  lemma HearRouted(h: Hive, id: nat, m: Down, order: seq<Key>)
    requires Routed(h)
    ensures Routed(HearHive(h, id, m, order))
  {
    hide Routed, LoseHive, CloseHive;
    LoseRouted(h, order);
    if id in h.routes && h.Has(h.routes[id]) {
      var key := h.routes[id];
      CloseRouted(h, key, false, false, []);
      RouteHolds(h, id);
      match m
      case Ack(n) => HubRouted(h, key.client, HubAck(h.clients[key.client], key.local, n));
      case Frame(bytes) => HubRouted(h, key.client, HubData(h.clients[key.client], key.local, |bytes|));
      case _ =>
    }
  }

  lemma AttachRouted(h: Hive, c: nat)
    requires Routed(h)
    ensures Routed(AttachHive(h, c))
  {
    if c !in h.clients {
      forall k ensures Numbered(AttachHive(h, c), k) {
        assert Numbered(h, k);
      }
    }
  }

  lemma {:induction false} AnnounceRouted(h: Hive, order: seq<Key>)
    requires Routed(h)
    ensures Routed(AnnounceAll(h, order))
  {
    hide Routed;
    if order != [] {
      AnnounceRouted(h, order[..|order| - 1]);
      var g, key := AnnounceAll(h, order[..|order| - 1]), order[|order| - 1];
      if key.client in g.clients {
        HubRouted(g, key.client, HubOpened(g.clients[key.client], key.local));
      }
    }
  }

  lemma {:induction false} DetachLoopRouted(h: Hive, keys: seq<Key>, full: nat -> bool, order: seq<Key>)
    requires Routed(h)
    ensures Routed(DetachLoop(h, keys, full, order))
  {
    hide Routed, CloseHive;
    if keys != [] {
      DetachLoopRouted(h, keys[..|keys| - 1], full, order);
      CloseRouted(DetachLoop(h, keys[..|keys| - 1], full, order), keys[|keys| - 1], true, full(|keys|), order);
    }
  }

  lemma DropRouted(h: Hive, c: nat)
    requires Routed(h) && (c in h.clients ==> h.clients[c].channels == map[])
    ensures Routed(h.(clients := h.clients - {c})) && Routed(h.(clients := h.clients - {c}, connected := false))
  {
    var g := h.(clients := h.clients - {c});
    forall k ensures Numbered(g, k) && Numbered(g.(connected := false), k) {
      assert Numbered(h, k);
    }
  }

  lemma {:induction false} MineConcat(a: seq<Outgoing>, b: seq<Outgoing>, key: Key)
    ensures Mine(a + b, key) == Mine(a, key) + Mine(b, key)
  {
    if a == [] {
      assert a + b == b;
    } else {
      hide Mine;
      var head, tail := a[0], a[1..];
      assert a == [head] + tail && a + b == [head] + (tail + b);
      MineConcat(tail, b, key);
      MineCons(head, tail, key);
      MineCons(head, tail + b, key);
    }
  }

  lemma MineCons(head: Outgoing, tail: seq<Outgoing>, key: Key)
    ensures Mine([head] + tail, key) == (if head.key == key then [head.message] else []) + Mine(tail, key)
  {
    assert ([head] + tail)[1..] == tail;
  }

}
