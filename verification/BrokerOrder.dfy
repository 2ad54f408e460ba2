/** Commands reach the wire in the order of their ids, through the broker's shared queue. */
module BrokerOrder {
  import opened MuxProtocol
  import opened PortProtocol
  import opened BrokerModel

  /** Written and queued commands rise, up to the last id given. */
  predicate InOrder(h: Hive) {
    var waiting := Sending(h.queue, h);
    && Rising(h.sent, 0) && Rising(waiting, LastId(h.sent, 0))
    && LastId(waiting, LastId(h.sent, 0)) <= h.nextId
  }

  lemma {:induction false} SendingConcat(a: seq<Outgoing>, b: seq<Outgoing>, h: Hive)
    ensures Sending(a + b, h) == Sending(a, h) + Sending(b, h)
    decreases |a|
  {
    if a == [] {
      assert a + b == b;
    } else {
      assert (a + b)[1..] == a[1..] + b;
      SendingConcat(a[1..], b, h);
    }
  }

  /** Only the ids of the queued channels matter. */
  lemma {:induction false} SendingSame(queue: seq<Outgoing>, h: Hive, g: Hive)
    requires forall i :: 0 <= i < |queue| ==> g.WireId(queue[i].key) == h.WireId(queue[i].key)
    ensures Sending(queue, g) == Sending(queue, h)
    decreases |queue|
  {
    if queue != [] {
      SendingSame(queue[1..], h, g);
    }
  }

  /** Nothing about the order changes with tables and flags. */
  lemma SameOrder(h: Hive, g: Hive)
    requires InOrder(h) && g.queue == h.queue && g.sent == h.sent && g.ids == h.ids && g.nextId == h.nextId
    ensures InOrder(g)
  {
    hide Rising, LastId;
    SendingSame(h.queue, h, g);
  }

  // ---- Closing ----

  lemma {:induction false} OthersRise(queue: seq<Outgoing>, key: Key, h: Hive, g: Hive, last: nat)
    requires g.ids == h.ids - {key} && Rising(Sending(queue, h), last)
    ensures Rising(Sending(Others(queue, key), g), last)
    ensures LastId(Sending(Others(queue, key), g), last) <= LastId(Sending(queue, h), last)
    decreases |queue|
  {
    if queue != [] {
      var head, tail := queue[0], queue[1..];
      var next := if head.message.Command? then h.WireId(head.key) else last;
      assert Sending(queue, h)[1..] == Sending(tail, h);
      OthersRise(tail, key, h, g, next);
      if head.key == key {
        assert Others(queue, key) == Others(tail, key);
        RisingLower(Sending(Others(tail, key), g), next, last);
      } else {
        var kept := Others(queue, key);
        assert kept[0] == head && kept[1..] == Others(tail, key);
        assert Sending(kept, g)[1..] == Sending(Others(tail, key), g);
      }
    }
  }

  lemma ForgetOrder(h: Hive, key: Key)
    requires InOrder(h)
    ensures InOrder(ForgetChannel(h, key))
  {
    hide Rising, LastId, Sending, Others;
    if h.Has(key) {
      OthersRise(h.queue, key, h, ForgetChannel(h, key), LastId(h.sent, 0));
    }
  }

  lemma {:induction false} ForgetAllOrder(h: Hive, order: seq<Key>)
    requires InOrder(h)
    ensures InOrder(ForgetAll(h, order))
  {
    hide InOrder, ForgetChannel;
    if order != [] {
      ForgetAllOrder(h, order[..|order| - 1]);
      ForgetOrder(ForgetAll(h, order[..|order| - 1]), order[|order| - 1]);
    }
  }

  lemma LoseOrder(h: Hive, order: seq<Key>)
    requires InOrder(h)
    ensures InOrder(LoseHive(h, order))
  {
    hide InOrder, ForgetAll;
    SameOrder(h, h.(connected := false));
    ForgetAllOrder(h.(connected := false), order);
  }

  lemma WroteOrder(h: Hive, id: nat, m: Up)
    requires InOrder(h) && !m.Command?
    ensures InOrder(h.(sent := h.sent + [(id, m)]))
  {
    hide Rising, LastId;
    RisingConcat(h.sent, [(id, m)], 0);
    RisingOne(id, m, LastId(h.sent, 0));
    SendingSame(h.queue, h, h.(sent := h.sent + [(id, m)]));
  }

  lemma CloseOrder(h: Hive, key: Key, notify: bool, full: bool, order: seq<Key>)
    requires InOrder(h)
    ensures InOrder(CloseHive(h, key, notify, full, order))
  {
    hide InOrder, ForgetChannel, LoseHive;
    var g := ForgetChannel(h, key);
    ForgetOrder(h, key);
    LoseOrder(g, order);
    WroteOrder(g, h.WireId(key), Shut);
  }

  // ---- Queueing and writing ----

  lemma FlushOrder(h: Hive, room: nat)
    requires InOrder(h)
    ensures InOrder(FlushHive(h, room))
  {
    hide Rising, LastId, Sending;
    var g := FlushHive(h, room);
    var n := if h.connected then Min(room, |h.queue|) else 0;
    assert h.queue == h.queue[..n] + h.queue[n..];
    SendingConcat(h.queue[..n], h.queue[n..], h);
    RisingConcat(Sending(h.queue[..n], h), Sending(h.queue[n..], h), LastId(h.sent, 0));
    RisingConcat(h.sent, Sending(h.queue[..n], h), 0);
    SendingSame(h.queue[n..], h, g);
  }

  lemma QueueOrder(h: Hive, item: Outgoing)
    requires InOrder(h)
    requires item.message.Command? ==>
      LastId(Sending(h.queue, h), LastId(h.sent, 0)) < h.WireId(item.key) <= h.nextId
    ensures InOrder(h.(queue := h.queue + [item]))
  {
    hide Rising, LastId;
    var g, last := h.(queue := h.queue + [item]), LastId(h.sent, 0);
    SendingConcat(h.queue, [item], h);
    SendingSame(g.queue, h, g);
    assert [item][1..] == [] && Sending([item], h) == [(h.WireId(item.key), item.message)];
    RisingConcat(Sending(h.queue, h), [(h.WireId(item.key), item.message)], last);
    RisingOne(h.WireId(item.key), item.message, LastId(Sending(h.queue, h), last));
  }

  lemma EnqueueOrder(h: Hive, key: Key, m: Up, a: Reaction)
    requires InOrder(h)
    requires m.Command? ==> LastId(Sending(h.queue, h), LastId(h.sent, 0)) < h.WireId(key) <= h.nextId
    ensures InOrder(EnqueueHive(h, key, m, a))
  {
    hide InOrder, CloseHive, FlushHive, LastId, Sending;
    CloseOrder(h, key, true, a.full, a.order);
    QueueOrder(h, Outgoing(key, m, a.size));
    FlushOrder(h.(queue := h.queue + [Outgoing(key, m, a.size)]), a.room);
  }

  /** What waits belongs to channels with an id. */
  predicate QueueNamed(h: Hive) {
    forall i :: 0 <= i < |h.queue| ==> h.queue[i].key in h.ids
  }

  /** A command's id is above all that were given before. */
  lemma NumberingOrder(h: Hive, key: Key, m: ToBroker)
    requires InOrder(h) && QueueNamed(h) && (m.CommandMsg? ==> key !in h.ids)
    ensures var g := Numbering(h, key, m);
            && InOrder(g)
            && (m.CommandMsg? ==> LastId(Sending(g.queue, g), LastId(g.sent, 0)) < g.WireId(key) <= g.nextId)
  {
    hide Rising, LastId, Sending;
    SendingSame(h.queue, h, Numbering(h, key, m));
  }

  /** A command the broker takes is its channel's first. */
  lemma FirstCommand(h: Hive, c: nat, m: ToBroker)
    requires Routed(h) && h.Has(Key(c, m.id)) && !Objects(h.clients[c], m) && !m.OpenMsg?
    ensures QueueNamed(h) && (m.CommandMsg? ==> Key(c, m.id) !in h.ids)
  {
    assert Numbered(h, Key(c, m.id));
  }

  lemma TakeOrder(h: Hive, c: nat, m: ToBroker, a: Reaction)
    requires InOrder(h) && Routed(h) && h.Has(Key(c, m.id)) && !m.OpenMsg? && !m.CloseMsg? && !Objects(h.clients[c], m)
    ensures InOrder(TakeHive(h, c, m, a))
  {
    hide InOrder, Routed, EnqueueHive, Accept, LastId, Sending, Objects;
    var key, k := Key(c, m.id), h.WithHub(c, Accept(h.clients[c], m));
    FirstCommand(h, c, m);
    SameOrder(h, k);
    NumberingOrder(k, key, m);
    EnqueueOrder(Numbering(k, key, m), key, Outbound(m), a);
  }

  lemma MessageOrder(h: Hive, c: nat, m: ToBroker, a: Reaction)
    requires InOrder(h) && Routed(h) && c in h.clients
    ensures InOrder(MessageHive(h, c, m, a))
  {
    hide InOrder, Routed, CloseHive, TakeHive, HubReceive, Objects;
    if m.OpenMsg? {
      SameOrder(h, OpenHive(h, c, m.id, a.mayOpen));
    } else {
      var g := h.WithHub(c, h.clients[c].(read := h.clients[c].read + [m]));
      HubRouted(h, c, g.clients[c]);
      SameOrder(h, g);
      CloseOrder(g, Key(c, m.id), true, a.full, a.order);
      if g.Has(Key(c, m.id)) && !m.CloseMsg? && !Objects(g.clients[c], m) {
        TakeOrder(g, c, m, a);
      }
    }
  }

  // ---- The rest touches no command ----

  lemma HearOrder(h: Hive, id: nat, m: Down, order: seq<Key>)
    requires InOrder(h)
    ensures InOrder(HearHive(h, id, m, order))
  {
    hide InOrder, CloseHive, LoseHive, HubAck, HubData;
    LoseOrder(h, order);
    if id in h.routes && h.Has(h.routes[id]) {
      var key := h.routes[id];
      CloseOrder(h, key, false, false, []);
      var g := HearHive(h, id, m, order);
      if !Breach(h.ChannelOf(key), m) && !m.Closed? {
        SameOrder(h, g);
      }
    }
  }

  lemma {:induction false} DetachLoopOrder(h: Hive, keys: seq<Key>, full: nat -> bool, order: seq<Key>)
    requires InOrder(h)
    ensures InOrder(DetachLoop(h, keys, full, order))
    decreases |keys|
  {
    hide InOrder, CloseHive;
    if keys != [] {
      var rest := keys[..|keys| - 1];
      DetachLoopOrder(h, rest, full, order);
      CloseOrder(DetachLoop(h, rest, full, order), keys[|keys| - 1], true, full(|keys|), order);
    }
  }

  lemma DetachOrdered(h: Hive, c: nat, keys: seq<Key>, full: nat -> bool, order: seq<Key>)
    requires InOrder(h)
    ensures InOrder(DetachHive(h, c, keys, full, order))
  {
    hide InOrder, DetachLoop;
    DetachLoopOrder(h, keys, full, order);
    SameOrder(DetachLoop(h, keys, full, order), DetachHive(h, c, keys, full, order));
  }

  lemma {:induction false} AnnounceOrder(h: Hive, order: seq<Key>)
    ensures var g := AnnounceAll(h, order);
            g.queue == h.queue && g.sent == h.sent && g.ids == h.ids && g.nextId == h.nextId
  {
    if order != [] {
      AnnounceOrder(h, order[..|order| - 1]);
    }
  }

  lemma ConnectOrder(h: Hive, order: seq<Key>)
    requires InOrder(h)
    ensures InOrder(ConnectHive(h, order))
  {
    hide InOrder, AnnounceAll;
    AnnounceOrder(h.(connected := true), order);
    SameOrder(h, ConnectHive(h, order));
  }
}
