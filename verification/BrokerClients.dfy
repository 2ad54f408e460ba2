/**
 Every channel of the broker is, on its own, the client of the credit protocol: each
 thing the broker does is, for each wire id, a few steps of that client.
 */
module BrokerClients {
  import opened MuxProtocol
  import opened PortProtocol
  import opened BrokerModel
  import CP = CreditProtocol

  /** The client half of wire id `w` as the broker holds it. */
  predicate Mirrors(h: Hive, w: nat, c: CP.Client) {
    && c.up == Written(h.sent, w)
    && (w in h.routes ==>
          && h.Has(h.routes[w])
          && c == CP.Client(true, h.ChannelOf(h.routes[w]).bytes, h.ChannelOf(h.routes[w]).received,
                            Mine(h.queue, h.routes[w]), c.up, c.seen))
    && (w !in h.routes ==> !c.live && c.queue == [])
  }

  // ---- Closing ----

  lemma ForgetMirrors(h: Hive, key: Key, w: nat, s: CP.Sys) returns (t: CP.Sys)
    requires Routed(h) && Mirrors(h, w, s.client)
    ensures Mirrors(ForgetChannel(h, key), w, t.client) && CP.Moves(s, t)
  {
    hide CP.Moves, Written, Mine, Others;
    t := s;
    CP.StaysPut(s);
    if h.Has(key) {
      assert Numbered(h, key);
      if w in h.routes {
        RouteHolds(h, w);
        MineOthers(h.queue, key, h.routes[w]);
        if h.routes[w] == key {
          t := CP.Next(s, CP.ClientCloses(false));
          CP.MovesStep(s, CP.ClientCloses(false));
        }
      }
    }
  }

  lemma {:induction false} ForgetAllMirrors(h: Hive, order: seq<Key>, w: nat, s: CP.Sys) returns (t: CP.Sys)
    requires Routed(h) && Mirrors(h, w, s.client)
    ensures Mirrors(ForgetAll(h, order), w, t.client) && CP.Moves(s, t)
    decreases |order|
  {
    hide CP.Moves, Mirrors, Routed, ForgetChannel;
    if order == [] {
      t := s;
      CP.StaysPut(s);
    } else {
      var u := ForgetAllMirrors(h, order[..|order| - 1], w, s);
      ForgetAllRouted(h, order[..|order| - 1]);
      t := ForgetMirrors(ForgetAll(h, order[..|order| - 1]), order[|order| - 1], w, u);
      CP.MovesOn(s, u, t);
    }
  }

  lemma LoseMirrors(h: Hive, order: seq<Key>, w: nat, s: CP.Sys) returns (t: CP.Sys)
    requires Routed(h) && Mirrors(h, w, s.client)
    ensures Mirrors(LoseHive(h, order), w, t.client) && CP.Moves(s, t)
  {
    hide CP.Moves, ForgetAll, Routed, Written, Mine;
    FlagRouted(h, false);
    t := ForgetAllMirrors(h.(connected := false), order, w, s);
  }

  lemma WroteShut(sent: seq<(nat, Up)>, id: nat, w: nat)
    ensures Written(sent + [(id, Shut)], w) == Written(sent, w) + if id == w then [Shut] else []
  {
    Snoc(sent, (id, Shut));
  }

  /** Closing with a CLOSE to the relay. */
  lemma ShutMirrors(h: Hive, key: Key, w: nat, s: CP.Sys) returns (t: CP.Sys)
    requires Routed(h) && Mirrors(h, w, s.client) && h.Has(key) && key in h.ids
    ensures var g := ForgetChannel(h, key);
            Mirrors(g.(sent := g.sent + [(h.ids[key], Shut)]), w, t.client) && CP.Moves(s, t)
  {
    hide CP.Moves, Written, Mine, Others;
    assert Numbered(h, key);
    WroteShut(h.sent, h.ids[key], w);
    t := s;
    CP.StaysPut(s);
    if w in h.routes {
      RouteHolds(h, w);
      MineOthers(h.queue, key, h.routes[w]);
      if h.routes[w] == key {
        t := CP.Next(s, CP.ClientCloses(true));
        CP.MovesStep(s, CP.ClientCloses(true));
      }
    }
  }

  lemma CloseMirrors(h: Hive, key: Key, notify: bool, full: bool, order: seq<Key>, w: nat, s: CP.Sys)
    returns (t: CP.Sys)
    requires Routed(h) && Mirrors(h, w, s.client)
    ensures Mirrors(CloseHive(h, key, notify, full, order), w, t.client) && CP.Moves(s, t)
  {
    hide CP.Moves, Mirrors, ForgetChannel, LoseHive;
    var g := ForgetChannel(h, key);
    var id := h.WireId(key);
    if notify && id != 0 && g.connected && !full && h.Has(key) {
      t := ShutMirrors(h, key, w, s);
    } else {
      t := ForgetMirrors(h, key, w, s);
      if h.Has(key) && notify && id != 0 && g.connected {
        var u := t;
        ForgetRouted(h, key);
        t := LoseMirrors(g, order, w, u);
        CP.MovesOn(s, u, t);
      } else {
        ForgetNothing(h, key);
      }
    }
  }

  lemma ForgetNothing(h: Hive, key: Key)
    ensures !h.Has(key) ==> ForgetChannel(h, key) == h
  {
  }

  // ---- Writing ----

  /** Writing queued messages writes each channel's own, in order. */
  lemma {:induction false} SendingMine(queue: seq<Outgoing>, h: Hive, key: Key)
    requires Routed(h) && key in h.ids && forall i :: 0 <= i < |queue| ==> queue[i].key in h.ids
    ensures Written(Sending(queue, h), h.ids[key]) == Mine(queue, key)
  {
    if queue != [] {
      SendingMine(queue[1..], h, key);
      WrittenCons((h.WireId(queue[0].key), queue[0].message), Sending(queue[1..], h), h.ids[key]);
      assert Numbered(h, key) && Numbered(h, queue[0].key);
    }
  }

  /** Wire ids without a channel are written to no more. */
  lemma {:induction false} SendingNone(queue: seq<Outgoing>, h: Hive, w: nat)
    requires Routed(h) && w !in h.routes && forall i :: 0 <= i < |queue| ==> queue[i].key in h.ids
    ensures Written(Sending(queue, h), w) == []
  {
    if queue != [] {
      SendingNone(queue[1..], h, w);
      WrittenCons((h.WireId(queue[0].key), queue[0].message), Sending(queue[1..], h), w);
      assert Numbered(h, queue[0].key);
    }
  }

  /** Writing the front of the shared queue flushes each channel's own. */
  lemma FlushMirrors(h: Hive, room: nat, w: nat, s: CP.Sys) returns (t: CP.Sys)
    requires Routed(h) && Mirrors(h, w, s.client)
    ensures Mirrors(FlushHive(h, room), w, t.client) && CP.Moves(s, t)
  {
    hide CP.Moves, Mine, Written, Sending, Numbered;
    var n := if h.connected then Min(room, |h.queue|) else 0;
    var front, back := h.queue[..n], h.queue[n..];
    assert h.queue == front + back;
    WrittenConcat(h.sent, Sending(front, h), w);
    if w in h.routes {
      RouteHolds(h, w);
      var key := h.routes[w];
      MineConcat(front, back, key);
      SendingMine(front, h, key);
      var moved := Mine(front, key);
      t := CP.Next(s, CP.ClientFlushes(|moved|));
      CP.MovesStep(s, CP.ClientFlushes(|moved|));
      assert s.client.queue[..|moved|] == moved && s.client.queue[|moved|..] == Mine(back, key);
    } else {
      SendingNone(front, h, w);
      assert h.sent + Sending(front, h) == FlushHive(h, room).sent;
      t := s;
      CP.StaysPut(s);
    }
  }

  // ---- Messages from a port ----

  /** For a channel that already has its wire id, an accepted message is a step of its client. */
  lemma AcceptMirrors(h: Hive, c: nat, m: ToBroker, size: nat, w: nat, s: CP.Sys) returns (t: CP.Sys)
    requires Routed(h) && Mirrors(h, w, s.client) && h.Has(Key(c, m.id))
    requires !m.OpenMsg? && !m.CloseMsg? && !Objects(h.clients[c], m)
    requires w <= h.nextId
    ensures var g := Numbering(h.WithHub(c, Accept(h.clients[c], m)), Key(c, m.id), m);
            Mirrors(g.(queue := g.queue + [Outgoing(Key(c, m.id), Outbound(m), size)]), w, t.client) && CP.Moves(s, t)
  {
    hide CP.Moves, Mine, Written;
    var key := Key(c, m.id);
    t := s;
    CP.StaysPut(s);
    assert Numbered(h, key);
    if w in h.routes {
      RouteHolds(h, w);
      MineSnoc(h.queue, Outgoing(key, Outbound(m), size), h.routes[w]);
      if h.routes[w] == key {
        var e := match m
                 case BinaryMsg(_, bytes) => CP.ClientSends(bytes)
                 case ConsumedMsg(_, n) => CP.ClientCredits(n)
                 case _ => CP.ClientFin;
        t := CP.Next(s, e);
        CP.MovesStep(s, e);
      }
    }
  }

  /** The channel that sent its command starts as a fresh client. */
  lemma FreshMirrors(h: Hive, c: nat, m: ToBroker, size: nat, s: CP.Sys)
    requires Routed(h) && h.Has(Key(c, m.id)) && m.CommandMsg? && !Objects(h.clients[c], m)
    requires Written(h.sent, h.nextId + 1) == [] && h.ChannelOf(Key(c, m.id)).bytes == 0
    requires h.ChannelOf(Key(c, m.id)).received == 0 && s.client == CP.FRESH_CLIENT
    ensures var g := Numbering(h.WithHub(c, Accept(h.clients[c], m)), Key(c, m.id), m);
            Mirrors(g.(queue := g.queue + [Outgoing(Key(c, m.id), Outbound(m), size)]), h.nextId + 1, s.client)
  {
    hide Written;
    var key := Key(c, m.id);
    assert Numbered(h, key);
    MineSnoc(h.queue, Outgoing(key, Command, size), key);
    NoneQueued(h.queue, key, h.ids);
  }

  lemma {:induction false} NoneQueued(queue: seq<Outgoing>, key: Key, ids: map<Key, nat>)
    requires key !in ids && forall i :: 0 <= i < |queue| ==> queue[i].key in ids
    ensures Mine(queue, key) == []
  {
    if queue != [] {
      NoneQueued(queue[1..], key, ids);
    }
  }

  /** A message that is queued and may be written, or is refused and closes its channel. */
  lemma EnqueueMirrors(h: Hive, key: Key, m: Up, a: Reaction, w: nat, s: CP.Sys) returns (t: CP.Sys)
    requires Routed(h) && key in h.ids
    requires Mirrors(h.(queue := h.queue + [Outgoing(key, m, a.size)]), w, s.client)
    ensures Mirrors(EnqueueHive(h, key, m, a), w, t.client) && CP.Moves(s, t)
  {
    hide CP.Moves, Mirrors, Routed, FlushHive, CloseHive;
    var g := h.(queue := h.queue + [Outgoing(key, m, a.size)]);
    QueuedRouted(h, Outgoing(key, m, a.size));
    if HasRoom(h, a.size) {
      t := FlushMirrors(g, a.room, w, s);
    } else {
      t := CloseMirrors(g, key, true, a.full, a.order, w, s);
      RefusedIsDropped(h, Outgoing(key, m, a.size), a);
    }
  }

  /** Closing a channel drops its last message whether it was queued or not. */
  lemma RefusedIsDropped(h: Hive, item: Outgoing, a: Reaction)
    ensures CloseHive(h, item.key, true, a.full, a.order)
         == CloseHive(h.(queue := h.queue + [item]), item.key, true, a.full, a.order) || !h.Has(item.key)
  {
    OthersSnoc(h.queue, item);
    hide Others;
    var g := h.(queue := h.queue + [item]);
    if h.Has(item.key) {
      assert ForgetChannel(g, item.key) == ForgetChannel(h, item.key);
    }
  }

  lemma {:induction false} OthersSnoc(queue: seq<Outgoing>, item: Outgoing)
    ensures Others(queue + [item], item.key) == Others(queue, item.key)
  {
    if queue == [] {
      assert queue + [item] == [item];
    } else {
      OthersSnoc(queue[1..], item);
      assert (queue + [item])[1..] == queue[1..] + [item];
    }
  }

  /** The port's record changed in nothing the wire depends on. */
  predicate SameCounts(h: Hub, g: Hub) {
    forall id :: id in h.channels ==>
      && id in g.channels
      && g.channels[id].bytes == h.channels[id].bytes && g.channels[id].received == h.channels[id].received
  }

  lemma HubMirrors(h: Hive, c: nat, g: Hub, w: nat, s: CP.Sys)
    requires Mirrors(h, w, s.client) && c in h.clients && SameCounts(h.clients[c], g)
    ensures Mirrors(h.WithHub(c, g), w, s.client)
  {
    hide Mine, Written;
  }

  lemma TakeMirrors(h: Hive, c: nat, m: ToBroker, a: Reaction, w: nat, s: CP.Sys) returns (t: CP.Sys)
    requires Routed(h) && Mirrors(h, w, s.client) && h.Has(Key(c, m.id)) && w <= h.nextId
    requires !m.OpenMsg? && !m.CloseMsg? && !Objects(h.clients[c], m)
    ensures Mirrors(TakeHive(h, c, m, a), w, t.client) && CP.Moves(s, t)
  {
    hide CP.Moves, Mirrors, Routed, Accept, Objects, EnqueueHive, Numbering;
    AcceptRouted(h, c, m);
    var u := AcceptMirrors(h, c, m, a.size, w, s);
    var g := Numbering(h.WithHub(c, Accept(h.clients[c], m)), Key(c, m.id), m);
    t := EnqueueMirrors(g, Key(c, m.id), Outbound(m), a, w, u);
    CP.MovesOn(s, u, t);
  }

  /** The wire id given to a command. */
  lemma CommandMirrors(h: Hive, c: nat, m: ToBroker, a: Reaction, s: CP.Sys) returns (t: CP.Sys)
    requires Routed(h) && h.Has(Key(c, m.id)) && m.CommandMsg? && !Objects(h.clients[c], m)
    requires Written(h.sent, h.nextId + 1) == [] && h.ChannelOf(Key(c, m.id)).bytes == 0
    requires h.ChannelOf(Key(c, m.id)).received == 0 && s.client == CP.FRESH_CLIENT
    ensures Mirrors(TakeHive(h, c, m, a), h.nextId + 1, t.client) && CP.Moves(s, t)
  {
    hide CP.Moves, Mirrors, Routed, Accept, Objects, EnqueueHive, Numbering;
    AcceptRouted(h, c, m);
    FreshMirrors(h, c, m, a.size, s);
    var g := Numbering(h.WithHub(c, Accept(h.clients[c], m)), Key(c, m.id), m);
    t := EnqueueMirrors(g, Key(c, m.id), Outbound(m), a, h.nextId + 1, s);
  }

  lemma OpenCounts(h: Hub, local: nat, connected: bool, mayOpen: bool)
    requires !Objects(h, OpenMsg(local))
    ensures SameCounts(h, HubReceive(h, OpenMsg(local), connected, mayOpen))
  {
  }

  lemma MessageMirrors(h: Hive, c: nat, m: ToBroker, a: Reaction, w: nat, s: CP.Sys) returns (t: CP.Sys)
    requires Routed(h) && Mirrors(h, w, s.client) && c in h.clients && w <= h.nextId
    requires m.OpenMsg? ==> !Objects(h.clients[c], m)
    ensures Mirrors(MessageHive(h, c, m, a), w, t.client) && CP.Moves(s, t)
  {
    hide CP.Moves, Mirrors, Routed, CloseHive, TakeHive, Objects;
    t := s;
    CP.StaysPut(s);
    if m.OpenMsg? {
      OpenCounts(h.clients[c], m.id, h.connected, a.mayOpen);
      HubMirrors(h, c, HubReceive(h.clients[c], m, h.connected, a.mayOpen), w, s);
    } else {
      var key := Key(c, m.id);
      var g := h.WithHub(c, h.clients[c].(read := h.clients[c].read + [m]));
      HubMirrors(h, c, g.clients[c], w, s);
      HubRouted(h, c, g.clients[c]);
      if g.Has(key) {
        if m.CloseMsg? || Objects(g.clients[c], m) {
          t := CloseMirrors(g, key, true, a.full, a.order, w, s);
        } else {
          t := TakeMirrors(g, c, m, a, w, s);
        }
      }
    }
  }

  // ---- Messages from the relay ----

  /** The channel the message is for reads it; the relay never gives cause to drop the connection. */
  lemma HearMirrors(h: Hive, w: nat, order: seq<Key>, s: CP.Sys)
    requires Routed(h) && Mirrors(h, w, s.client) && CP.Inv(s) && |s.client.seen| < |s.remote.out|
    ensures var m := s.remote.out[|s.client.seen|];
            && Mirrors(HearHive(h, w, m, order), w, CP.Next(s, CP.ClientReads).client)
            && (w in h.routes && h.Has(h.routes[w]) ==> !Breach(h.ChannelOf(h.routes[w]), m))
  {
    hide Mine, Written, Others, CP.Inv;
    var m := s.remote.out[|s.client.seen|];
    if w in h.routes {
      RouteHolds(h, w);
      CP.RelayNeverBreaksTheContract(s);
      WireIsPositive(s, |s.client.seen|);
      MineOthers(h.queue, h.routes[w], h.routes[w]);
    }
  }

  lemma WireIsPositive(s: CP.Sys, i: nat)
    requires CP.Inv(s) && i < |s.remote.out|
    ensures s.remote.out[i].Ack? ==> s.remote.out[i].count > 0
    ensures s.remote.out[i].Frame? ==> s.remote.out[i].bytes != []
  {
  }

  /** For every other channel nothing happens. */
  lemma HearsElsewhere(h: Hive, id: nat, m: Down, order: seq<Key>, w: nat, s: CP.Sys)
    requires Routed(h) && Mirrors(h, w, s.client) && w != id
    requires id in h.routes && h.Has(h.routes[id]) ==> !Breach(h.ChannelOf(h.routes[id]), m)
    ensures Mirrors(HearHive(h, id, m, order), w, s.client)
  {
    hide Mine, Written, Others;
    if id in h.routes {
      RouteHolds(h, id);
      if w in h.routes {
        RouteHolds(h, w);
        MineOthers(h.queue, h.routes[id], h.routes[w]);
      }
    }
  }

  // ---- Ports and connections come and go ----

  lemma AttachMirrors(h: Hive, c: nat, w: nat, s: CP.Sys)
    requires Mirrors(h, w, s.client)
    ensures Mirrors(AttachHive(h, c), w, s.client)
  {
    hide Mine, Written;
  }

  lemma {:induction false} AnnounceMirrors(h: Hive, order: seq<Key>, w: nat, s: CP.Sys)
    requires Mirrors(h, w, s.client)
    ensures Mirrors(AnnounceAll(h, order), w, s.client)
  {
    hide Mirrors;
    if order != [] {
      AnnounceMirrors(h, order[..|order| - 1], w, s);
      var g, key := AnnounceAll(h, order[..|order| - 1]), order[|order| - 1];
      if key.client in g.clients {
        HubMirrors(g, key.client, HubOpened(g.clients[key.client], key.local), w, s);
      }
    }
  }

  lemma ConnectMirrors(h: Hive, order: seq<Key>, w: nat, s: CP.Sys)
    requires Mirrors(h, w, s.client)
    ensures Mirrors(ConnectHive(h, order), w, s.client)
  {
    hide Mine, Written;
    AnnounceMirrors(h.(connected := true), order, w, s);
  }

  lemma {:induction false} DetachLoopMirrors(h: Hive, keys: seq<Key>, full: nat -> bool, order: seq<Key>, w: nat, s: CP.Sys)
    returns (t: CP.Sys)
    requires Routed(h) && Mirrors(h, w, s.client)
    ensures Mirrors(DetachLoop(h, keys, full, order), w, t.client) && CP.Moves(s, t)
    decreases |keys|
  {
    hide CP.Moves, Mirrors, Routed, CloseHive;
    if keys == [] {
      t := s;
      CP.StaysPut(s);
    } else {
      var rest := keys[..|keys| - 1];
      var u := DetachLoopMirrors(h, rest, full, order, w, s);
      DetachLoopRouted(h, rest, full, order);
      t := CloseMirrors(DetachLoop(h, rest, full, order), keys[|keys| - 1], true, full(|keys|), order, w, u);
      CP.MovesOn(s, u, t);
    }
  }

  lemma DropMirrors(h: Hive, c: nat, w: nat, s: CP.Sys)
    requires Routed(h) && Mirrors(h, w, s.client) && (c in h.clients ==> h.clients[c].channels == map[])
    ensures Mirrors(h.(clients := h.clients - {c}), w, s.client)
    ensures Mirrors(h.(clients := h.clients - {c}, connected := false), w, s.client)
  {
    hide Mine, Written;
  }
}
