/**
 The browser's relay broker as the object it is: tables and a shared queue updated in
 place, walked by loops when channels are announced, closed or filtered out. Every
 method is tied to the function of the broker's state it computes.
 */
module Broker {
  import opened MuxProtocol
  import opened PortProtocol
  import opened BrokerModel

  class RelayBroker {
    var clients: map<nat, Hub>
    var ids: map<Key, nat>
    var routes: map<nat, Key>
    var nextId: nat
    var queue: seq<Outgoing>
    var queued: int
    var connected: bool
    var sent: seq<(nat, Up)>

    ghost function View(): Hive
      reads this
    {
      Hive(clients, ids, routes, nextId, queue, connected, sent)
    }

    /** The queue is measured, and wire ids and channels name each other. */
    ghost predicate Valid()
      reads this
    {
      queued == Sizes(queue) && Routed(View())
    }

    predicate Has(key: Key)
      reads this`clients
    {
      key.client in clients && key.local in clients[key.client].channels
    }

    constructor ()
      ensures Valid() && View() == EMPTY
    {
      clients, ids, routes, nextId, queue, queued, connected, sent := map[], map[], map[], 0, [], 0, false, [];
    }

    // ---- Ports and connections come ----

    method Attach(c: nat)
      requires Valid() && c !in clients
      modifies this
      ensures Valid() && View() == AttachHive(old(View()), c)
    {
      hide Routed, Sizes;
      AttachRouted(View(), c);
      clients := clients[c := Hub(map[], 0, [], [])];
    }

    /** The socket is open: announce every channel of every port. */
    method Connected() returns (ghost order: seq<Key>)
      requires Valid()
      modifies this
      ensures Valid() && View() == ConnectHive(old(View()), order) && Complete(old(View()), order)
    {
      hide Routed, Sizes;
      connected := true;
      ghost var base := View();
      FlagRouted(old(View()), true);
      order := [];
      var todo := clients.Keys;
      while todo != {}
        invariant Valid() && View() == AnnounceAll(base, order)
        invariant clients.Keys == base.clients.Keys && todo <= clients.Keys
        invariant forall c :: c in clients ==> clients[c].channels.Keys == base.clients[c].channels.Keys
        invariant forall key :: base.Has(key) && key.client !in todo ==> key in order
        decreases |todo|
      {
        var c :| c in todo;
        order := AnnouncePort(c, base, order);
        todo := todo - {c};
      }
    }

    method AnnouncePort(c: nat, ghost base: Hive, ghost before: seq<Key>) returns (ghost order: seq<Key>)
      requires Valid() && c in clients && View() == AnnounceAll(base, before)
      modifies this
      ensures Valid() && View() == AnnounceAll(base, order)
      ensures clients.Keys == old(clients.Keys) && clients[c].channels.Keys == old(clients[c].channels.Keys)
      ensures forall d :: d in clients && d != c ==> clients[d] == old(clients)[d]
      ensures (forall key :: key in before ==> key in order)
      ensures (forall l :: l in clients[c].channels ==> Key(c, l) in order)
    {
      hide Routed, Sizes, AnnounceAll, HubOpened;
      order := before;
      var todo := clients[c].channels.Keys;
      while todo != {}
        invariant Valid() && View() == AnnounceAll(base, order)
        invariant clients.Keys == old(clients.Keys) && clients[c].channels.Keys == old(clients[c].channels.Keys)
        invariant todo <= clients[c].channels.Keys
        invariant forall d :: d in clients && d != c ==> clients[d] == old(clients)[d]
        invariant forall key :: key in before ==> key in order
        invariant forall l :: l in clients[c].channels && l !in todo ==> Key(c, l) in order
        decreases |todo|
      {
        var local :| local in todo;
        AnnounceOne(c, local, base, order);
        order := order + [Key(c, local)];
        todo := todo - {local};
      }
    }

    method AnnounceOne(c: nat, local: nat, ghost base: Hive, ghost order: seq<Key>)
      requires Valid() && c in clients && local in clients[c].channels && View() == AnnounceAll(base, order)
      modifies this`clients
      ensures Valid() && View() == AnnounceAll(base, order + [Key(c, local)])
      ensures clients == old(clients)[c := clients[c]] && clients[c].channels.Keys == old(clients)[c].channels.Keys
    {
      hide Routed, Sizes, AnnounceAll;
      HubRouted(View(), c, HubOpened(clients[c], local));
      AnnounceSnoc(base, order, Key(c, local));
      Opened(c, local);
    }

    /** Announce one channel, once. */
    method Opened(c: nat, local: nat)
      requires c in clients && local in clients[c].channels
      modifies this`clients
      ensures clients == old(clients)[c := HubOpened(old(clients)[c], local)]
    {
      var h := clients[c];
      if !h.channels[local].announced {
        h := h.(channels := h.channels[local := h.channels[local].(announced := true)], out := h.out + [OpenedMsg(local)]);
      }
      clients := clients[c := h];
    }

    // ---- Writing ----

    /** Write queued messages while the socket takes them. */
    method Flush(room: nat)
      requires Valid()
      modifies this`queue, this`queued, this`sent
      ensures Valid() && View() == FlushHive(old(View()), room)
    {
      hide Routed, Sizes;
      ghost var before := View();
      FlushRouted(before, room);
      assert Sending([], before) == [];
      if !connected {
        return;
      }
      var left := room;
      ghost var n := 0;
      while |queue| > 0 && left > 0
        invariant queued == Sizes(queue) && 0 <= n <= |before.queue| && n + left == room
        invariant queue == before.queue[n..]
        invariant sent == before.sent + Sending(before.queue[..n], before)
        decreases left
      {
        var item := queue[0];
        assert queue == [item] + queue[1..];
        ConsLaws(item, queue[1..], item.key);
        QueuedHasId(before, n);
        queue := queue[1..];
        queued := queued - item.size;
        sent := sent + [(ids[item.key], item.message)];
        SendingSnoc(before.queue[..n], item, before);
        assert before.queue[..n + 1] == before.queue[..n] + [item];
        n, left := n + 1, left - 1;
      }
    }

    /** Drop a channel's queued messages. */
    method DropQueued(key: Key)
      requires queued == Sizes(queue)
      modifies this`queue, this`queued
      ensures queue == Others(old(queue), key) && queued == Sizes(queue)
    {
      hide Others, Sizes;
      var kept: seq<Outgoing> := [];
      var i := 0;
      Nothing(key);
      assert queue[0..] == queue;
      while i < |queue|
        invariant 0 <= i <= |queue|
        invariant kept + Others(queue[i..], key) == Others(queue, key)
        invariant queued == Sizes(kept) + Sizes(queue[i..])
        invariant queue == old(queue)
      {
        assert queue[i..] == [queue[i]] + queue[i + 1..];
        ConsLaws(queue[i], queue[i + 1..], key);
        if queue[i].key != key {
          SizesSnoc(kept, queue[i]);
          kept := kept + [queue[i]];
        } else {
          queued := queued - queue[i].size;
        }
        i := i + 1;
      }
      assert queue[i..] == [];
      queue := kept;
    }

    // ---- Closing ----

    /** Forget a channel, its queued messages with it, and tell its port. */
    method Forget(key: Key) returns (id: nat)
      requires Valid() && Has(key)
      modifies this
      ensures Valid() && View() == ForgetChannel(old(View()), key) && id == old(View()).WireId(key)
    {
      hide Others, Sizes, Routed;
      ForgetRouted(View(), key);
      id := if key in ids then ids[key] else 0;
      var h := clients[key.client];
      DropQueued(key);
      clients := clients[key.client := h.(channels := h.channels - {key.local},
                                          bytes := h.bytes - h.channels[key.local].bytes,
                                          out := h.out + [ClosedMsg(key.local)])];
      ids := ids - {key};
      routes := routes - {id};
    }

    /** The connection is gone: every channel of every port is closed. */
    method Lost() returns (ghost order: seq<Key>)
      requires Valid()
      modifies this
      ensures Valid() && View() == LoseHive(old(View()), order) && Complete(old(View()), order)
      ensures !connected && forall key :: !Has(key)
    {
      hide Routed, Sizes;
      connected := false;
      ghost var base := View();
      FlagRouted(old(View()), false);
      order := [];
      var todo := clients.Keys;
      while todo != {}
        invariant Valid() && View() == ForgetAll(base, order) && !connected
        invariant clients.Keys == base.clients.Keys && todo <= clients.Keys
        invariant forall c :: c in clients && c !in todo ==> clients[c].channels == map[]
        invariant forall key :: base.Has(key) ==> Has(key) || key in order
        decreases |todo|
      {
        var c :| c in todo;
        order := CloseAll(c, base, order);
        todo := todo - {c};
      }
    }

    /** Close all channels of one port, without a word to the relay. */
    method CloseAll(c: nat, ghost base: Hive, ghost before: seq<Key>) returns (ghost order: seq<Key>)
      requires Valid() && c in clients && View() == ForgetAll(base, before)
      requires forall key :: base.Has(key) ==> Has(key) || key in before
      modifies this
      ensures Valid() && View() == ForgetAll(base, order) && connected == old(connected)
      ensures clients.Keys == old(clients.Keys) && clients[c].channels == map[]
      ensures forall d :: d in clients && d != c ==> clients[d] == old(clients)[d]
      ensures forall key :: base.Has(key) ==> Has(key) || key in order
    {
      hide Routed, Sizes, ForgetChannel, ForgetAll;
      order := before;
      while clients[c].channels.Keys != {}
        invariant Valid() && View() == ForgetAll(base, order) && connected == old(connected)
        invariant clients.Keys == old(clients.Keys)
        invariant forall d :: d in clients && d != c ==> clients[d] == old(clients)[d]
        invariant forall key :: base.Has(key) ==> Has(key) || key in order
        decreases |clients[c].channels.Keys|
      {
        var local :| local in clients[c].channels.Keys;
        ghost var key, was := Key(c, local), View();
        ForgetSnoc(base, order, key);
        ForgetClients(was, key);
        ForgetFields(was, key);
        var _ := Forget(Key(c, local));
        assert forall k :: was.Has(k) ==> Has(k) || k == key by {
          forall k | was.Has(k) ensures Has(k) || k == key {
            ForgetGone(was, key, k);
          }
        }
        order := order + [key];
      }
    }

    /** Close a channel; telling the relay through a full socket loses the connection. */
    method Close(key: Key, notify: bool, full: bool) returns (ghost order: seq<Key>)
      requires Valid()
      modifies this
      ensures Valid() && View() == CloseHive(old(View()), key, notify, full, order)
      ensures connected || !old(connected) || Complete(ForgetChannel(old(View()), key), order)
    {
      hide Routed, Sizes, ForgetChannel, LoseHive;
      CloseRouted(View(), key, notify, full, []);
      order := [];
      if !Has(key) {
        return;
      }
      ForgetFields(View(), key);
      var id := Forget(key);
      if notify && id != 0 && connected {
        if full {
          order := Lost();
        } else {
          sent := sent + [(id, Shut)];
        }
      }
    }

    // ---- Messages from a port ----

    /** Queue a message, or close its channel when the queue is full. */
    method Enqueue(key: Key, m: Up, size: nat, room: nat, full: bool, mayOpen: bool) returns (ghost order: seq<Key>)
      requires Valid() && key in ids
      modifies this
      ensures Valid() && View() == EnqueueHive(old(View()), key, m, Reaction(size, room, full, mayOpen, order))
    {
      hide Routed, CloseHive, FlushHive, Sizes;
      order := [];
      if queued + size > TOTAL_LIMIT || |queue| >= 4096 {
        order := Close(key, true, full);
        return;
      }
      SizesSnoc(queue, Outgoing(key, m, size));
      QueuedRouted(View(), Outgoing(key, m, size));
      queue := queue + [Outgoing(key, m, size)];
      queued := queued + size;
      Flush(room);
    }

    /** A message the broker has no objection to: count it and queue it for the relay. */
    method Take(c: nat, m: ToBroker, size: nat, room: nat, full: bool, mayOpen: bool) returns (ghost order: seq<Key>)
      requires Valid() && Has(Key(c, m.id)) && !m.OpenMsg? && !m.CloseMsg? && !Objects(clients[c], m)
      modifies this
      ensures Valid() && View() == TakeHive(old(View()), c, m, Reaction(size, room, full, mayOpen, order))
    {
      hide Routed, EnqueueHive, Sizes, Objects;
      var key := Key(c, m.id);
      AcceptRouted(View(), c, m);
      clients := clients[c := Accept(clients[c], m)];
      if m.CommandMsg? {
        nextId := nextId + 1;
        ids := ids[key := nextId];
        routes := routes[nextId := key];
      }
      order := Enqueue(key, Outbound(m), size, room, full, mayOpen);
    }

    /** A port opens a channel. */
    method Open(c: nat, local: nat, mayOpen: bool)
      requires Valid() && c in clients && !Objects(clients[c], OpenMsg(local))
      modifies this
      ensures Valid() && View() == OpenHive(old(View()), c, local, mayOpen)
    {
      hide Routed, Sizes;
      OpenRouted(View(), c, local, mayOpen);
      var h := clients[c].(read := clients[c].read + [OpenMsg(local)]);
      if !mayOpen {
        clients := clients[c := h.(out := h.out + [RefusedMsg(local)])];
        return;
      }
      clients := clients[c := h.(channels := h.channels[local := BrokerChannel(false, false, 0, 0)])];
      if connected {
        Opened(c, local);
      }
      assert clients == old(clients)[c := HubReceive(old(clients)[c], OpenMsg(local), connected, mayOpen)];
    }

    /** A message from a port. A bad id, or opening a known one, drops the port. */
    method Message(c: nat, m: ToBroker, size: nat, room: nat, full: bool, mayOpen: bool)
      returns (ghost keys: seq<Key>, ghost order: seq<Key>)
      requires Valid() && c in clients
      modifies this
      ensures Valid()
      ensures !old(Detaching(clients[c], m)) ==>
        View() == MessageHive(old(View()), c, m, Reaction(size, room, full, mayOpen, order))
      ensures old(Detaching(clients[c], m)) ==>
        Covering(old(View()), c, keys) && View() == DetachHive(old(View()), c, keys, _ => full, order)
    {
      hide Routed, CloseHive, TakeHive, OpenHive, DetachHive, Sizes, Objects;
      var key := Key(c, m.id);
      keys, order := [], [];
      if m.id == 0 || m.id > MAX_ID || (m.OpenMsg? && Objects(clients[c], m)) {
        keys, order := Detach(c, _ => full);
        return;
      }
      if m.OpenMsg? {
        Open(c, m.id, mayOpen);
        return;
      }
      HubRouted(View(), c, clients[c].(read := clients[c].read + [m]));
      clients := clients[c := clients[c].(read := clients[c].read + [m])];
      if !Has(key) {
        return;
      }
      if m.CloseMsg? || Objects(clients[c], m) {
        order := Close(key, true, full);
        return;
      }
      order := Take(c, m, size, room, full, mayOpen);
    }

    /** Drop a port with all its channels; the relay is told of each while the socket takes it. */
    method Detach(c: nat, full: nat -> bool) returns (ghost keys: seq<Key>, ghost order: seq<Key>)
      requires Valid() && c in clients
      modifies this
      ensures Valid() && Covering(old(View()), c, keys)
      ensures View() == DetachHive(old(View()), c, keys, full, order)
    {
      hide Routed, Sizes, CloseHive, DetachLoop;
      ghost var base := View();
      keys, order := [], [];
      var count := 0;
      var todo := clients[c].channels.Keys;
      NothingDetached(base, full, order);
      while todo != {}
        invariant Valid() && View() == DetachLoop(base, keys, full, order) && count == |keys|
        invariant forall l :: l in base.clients[c].channels ==> l in todo || Key(c, l) in keys
        decreases |todo|
      {
        var local :| local in todo;
        count := count + 1;
        order := DetachOne(Key(c, local), full(count), base, keys, full, order);
        keys := keys + [Key(c, local)];
        todo := todo - {local};
      }
      AllDetached(base, c, keys, full, order);
      DropRouted(View(), c);
      clients := clients - {c};
      if clients == map[] {
        connected := false;
      }
    }

    /** Close one channel of a port that goes. */
    method DetachOne(key: Key, now: bool, ghost base: Hive, ghost keys: seq<Key>, ghost full: nat -> bool,
                     ghost before: seq<Key>) returns (ghost order: seq<Key>)
      requires Valid() && View() == DetachLoop(base, keys, full, before) && now == full(|keys| + 1)
      modifies this
      ensures Valid() && View() == DetachLoop(base, keys + [key], full, order)
    {
      hide Routed, Sizes, CloseHive, DetachLoop;
      ghost var was := View();
      order := Close(key, true, now);
      if was.connected {
        DetachOrder(base, keys, full, before, order);
      } else {
        NoLoss(was, key, now, order, before);
        order := before;
      }
      DetachSnoc(base, keys, full, order, key);
    }

    // ---- Messages from the relay ----

    /** A control or data message. A breach of credit drops the connection. */
    method Receive(id: nat, m: Down) returns (ghost order: seq<Key>)
      requires Valid() && (m.Ack? ==> m.count > 0) && (m.Frame? ==> m.bytes != [])
      modifies this
      ensures Valid() && View() == HearHive(old(View()), id, m, order)
    {
      hide Routed, CloseHive, LoseHive, Sizes;
      order := [];
      HearRouted(View(), id, m, []);
      if id !in routes {
        return;
      }
      RouteHolds(View(), id);
      var key := routes[id];
      var h := clients[key.client];
      var c := h.channels[key.local];
      match m {
        case Line(_) =>
        case Closed =>
          ghost var none := Close(key, false, false);
          CloseQuietly(old(View()), key, none);
        case Ack(n) =>
          if n > c.bytes {
            order := Lost();
            return;
          }
          clients := clients[key.client := h.(channels := h.channels[key.local := c.(bytes := c.bytes - n)],
                                              bytes := h.bytes - n, out := h.out + [AckMsg(key.local, n)])];
        case Frame(bytes) =>
          if c.received + |bytes| > MUX_WINDOW {
            order := Lost();
            return;
          }
          clients := clients[key.client := h.(channels := h.channels[key.local := c.(received := c.received + |bytes|)],
                                              out := h.out + [DataMsg(key.local, |bytes|)])];
      }
    }
  }

  // ---- What the loops need ----

  lemma AnnounceSnoc(h: Hive, order: seq<Key>, key: Key)
    ensures var g := AnnounceAll(h, order);
            AnnounceAll(h, order + [key])
            == if key.client in g.clients then g.WithHub(key.client, HubOpened(g.clients[key.client], key.local)) else g
  {
    assert (order + [key])[..|order|] == order;
  }

  lemma ForgetSnoc(h: Hive, order: seq<Key>, key: Key)
    ensures ForgetAll(h, order + [key]) == ForgetChannel(ForgetAll(h, order), key)
  {
    hide ForgetChannel;
    assert (order + [key])[..|order|] == order;
  }

  lemma DetachSnoc(h: Hive, keys: seq<Key>, full: nat -> bool, order: seq<Key>, key: Key)
    ensures DetachLoop(h, keys + [key], full, order)
         == CloseHive(DetachLoop(h, keys, full, order), key, true, full(|keys| + 1), order)
  {
    hide CloseHive;
    assert (keys + [key])[..|keys|] == keys;
  }

  lemma {:induction false} SendingSnoc(queue: seq<Outgoing>, item: Outgoing, h: Hive)
    ensures Sending(queue + [item], h) == Sending(queue, h) + [(h.WireId(item.key), item.message)]
  {
    if queue == [] {
      assert queue + [item] == [item];
    } else {
      SendingSnoc(queue[1..], item, h);
      assert (queue + [item])[1..] == queue[1..] + [item];
    }
  }

  lemma QueuedHasId(h: Hive, i: nat)
    requires Routed(h) && i < |h.queue|
    ensures h.queue[i].key in h.ids
  {
  }

  /** Without a connection nothing is lost by closing. */
  lemma NoLoss(h: Hive, key: Key, full: bool, order: seq<Key>, other: seq<Key>)
    requires !h.connected
    ensures CloseHive(h, key, true, full, order) == CloseHive(h, key, true, full, other)
  {
    ForgetFields(h, key);
    hide ForgetChannel;
  }

  lemma CloseQuietly(h: Hive, key: Key, order: seq<Key>)
    ensures CloseHive(h, key, false, false, order) == CloseHive(h, key, false, false, [])
  {
    hide ForgetChannel;
  }

  lemma NothingDetached(h: Hive, full: nat -> bool, order: seq<Key>)
    ensures DetachLoop(h, [], full, order) == h
  {
  }

  lemma AllDetached(h: Hive, c: nat, keys: seq<Key>, full: nat -> bool, order: seq<Key>)
    requires Covering(h, c, keys)
    ensures var g := DetachLoop(h, keys, full, order); c in g.clients && g.clients[c].channels == map[]
  {
    hide DetachLoop;
    var g := DetachLoop(h, keys, full, order);
    DetachLoopFields(h, keys, full, order);
    assert forall l :: l in g.clients[c].channels ==> g.Has(Key(c, l));
  }
}
