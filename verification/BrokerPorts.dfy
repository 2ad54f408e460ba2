/**
 Every port of the broker is, on its own, the broker's end of the port protocol: each
 thing the broker does is, for each port, a few steps of that end.
 */
module BrokerPorts {
  import opened MuxProtocol
  import opened PortProtocol
  import opened BrokerModel
  import PL = PortLaws

  /** Port c is still there, and its record moved on by steps of the port protocol. */
  ghost predicate Follows(h: Hive, g: Hive, c: nat, p: Port) {
    c in h.clients && c in g.clients && PL.Leads(Link(p, h.clients[c]), Link(p, g.clients[c]))
  }

  lemma FollowsSame(h: Hive, g: Hive, c: nat, p: Port)
    requires c in h.clients && c in g.clients && g.clients[c] == h.clients[c]
    ensures Follows(h, g, c, p)
  {
    PL.LeadsHere(Link(p, h.clients[c]));
  }

  lemma FollowsOn(h: Hive, g: Hive, k: Hive, c: nat, p: Port)
    requires Follows(h, g, c, p) && Follows(g, k, c, p)
    ensures Follows(h, k, c, p)
  {
    hide PL.Leads;
    PL.LeadsOn(Link(p, h.clients[c]), Link(p, g.clients[c]), Link(p, k.clients[c]));
  }

  /** One step of the broker's end for port c, none for the others. */
  lemma FollowsStep(h: Hive, c: nat, e: PortEvent, d: nat, p: Port)
    requires c in h.clients && d in h.clients
    requires e.BrokerOpens? || e.RelayAcks? || e.RelayDelivers? || e.BrokerCloses?
    ensures Follows(h, h.WithHub(c, Next(Link(p, h.clients[c]), e).hub), d, p)
  {
    hide PL.Leads;
    PL.LeadsStep(Link(p, h.clients[c]), e);
    PL.LeadsHere(Link(p, h.clients[d]));
  }

  lemma ForgetFollows(h: Hive, key: Key, c: nat, p: Port)
    requires c in h.clients
    ensures Follows(h, ForgetChannel(h, key), c, p)
  {
    hide Follows, Others;
    if h.Has(key) {
      FollowsStep(h, key.client, BrokerCloses(key.local), c, p);
      var g := h.WithHub(key.client, HubClose(h.clients[key.client], key.local));
      SameClients(h, g, ForgetChannel(h, key), c, p);
    } else {
      FollowsSame(h, h, c, p);
    }
  }

  /** Only the records matter. */
  lemma SameClients(h: Hive, g: Hive, k: Hive, c: nat, p: Port)
    requires Follows(h, g, c, p) && k.clients == g.clients
    ensures Follows(h, k, c, p)
  {
  }

  lemma {:induction false} ForgetAllFollows(h: Hive, order: seq<Key>, c: nat, p: Port)
    requires c in h.clients
    ensures Follows(h, ForgetAll(h, order), c, p)
    decreases |order|
  {
    hide PL.Leads, ForgetChannel;
    if order == [] {
      FollowsSame(h, h, c, p);
    } else {
      var g := ForgetAll(h, order[..|order| - 1]);
      ForgetAllFollows(h, order[..|order| - 1], c, p);
      ForgetFollows(g, order[|order| - 1], c, p);
      FollowsOn(h, g, ForgetAll(h, order), c, p);
    }
  }

  lemma LoseFollows(h: Hive, order: seq<Key>, c: nat, p: Port)
    requires c in h.clients
    ensures Follows(h, LoseHive(h, order), c, p)
  {
    hide PL.Leads, ForgetAll;
    var g := h.(connected := false);
    FollowsSame(h, g, c, p);
    ForgetAllFollows(g, order, c, p);
    FollowsOn(h, g, LoseHive(h, order), c, p);
  }

  lemma CloseFollows(h: Hive, key: Key, notify: bool, full: bool, order: seq<Key>, c: nat, p: Port)
    requires c in h.clients
    ensures Follows(h, CloseHive(h, key, notify, full, order), c, p)
  {
    hide PL.Leads, ForgetChannel, LoseHive;
    var g := ForgetChannel(h, key);
    FollowsSame(h, h, c, p);
    ForgetFollows(h, key, c, p);
    LoseFollows(g, order, c, p);
    FollowsOn(h, g, LoseHive(g, order), c, p);
  }

  /** After the port's record is as it should be, queueing either leaves it or loses the connection. */
  lemma ClosedFollows(h: Hive, key: Key, full: bool, order: seq<Key>, c: nat, p: Port)
    requires c in h.clients && h.Has(key)
    ensures Follows(ForgetChannel(h, key), CloseHive(h, key, true, full, order), c, p)
  {
    hide PL.Leads, LoseHive;
    var g := ForgetChannel(h, key);
    FollowsSame(g, g, c, p);
    LoseFollows(g, order, c, p);
    FollowsSame(g, g.(sent := g.sent + [(h.WireId(key), Shut)]), c, p);
  }

  lemma EnqueueFollows(h: Hive, key: Key, m: Up, a: Reaction, c: nat, p: Port)
    requires c in h.clients
    ensures Follows(h, EnqueueHive(h, key, m, a), c, p)
  {
    hide PL.Leads, CloseHive, Sending;
    CloseFollows(h, key, true, a.full, a.order, c, p);
    FollowsSame(h, FlushHive(h.(queue := h.queue + [Outgoing(key, m, a.size)]), a.room), c, p);
  }

  /** For the ports a message did not come from, only a lost connection matters. */
  lemma MessageElsewhere(h: Hive, c: nat, m: ToBroker, a: Reaction, d: nat, p: Port)
    requires c in h.clients && d in h.clients && d != c
    ensures Follows(h, MessageHive(h, c, m, a), d, p)
  {
    hide PL.Leads, CloseHive, EnqueueHive, HubReceive, Accept, Objects;
    if m.OpenMsg? {
      FollowsSame(h, MessageHive(h, c, m, a), d, p);
    } else {
      var key := Key(c, m.id);
      var g := h.WithHub(c, h.clients[c].(read := h.clients[c].read + [m]));
      FollowsSame(h, g, d, p);
      CloseFollows(g, key, true, a.full, a.order, d, p);
      FollowsOn(h, g, CloseHive(g, key, true, a.full, a.order), d, p);
      if g.Has(key) {
        var k := Numbering(g.WithHub(c, Accept(g.clients[c], m)), key, m);
        FollowsSame(h, k, d, p);
        EnqueueFollows(k, key, Outbound(m), a, d, p);
        FollowsOn(h, k, EnqueueHive(k, key, Outbound(m), a), d, p);
      }
    }
  }

  /** The broker took the next message of port c. */
  lemma ReadStep(h: Hive, c: nat, p: Port, m: ToBroker, room: bool)
    requires c in h.clients && |h.clients[c].read| < |p.log| && m == p.log[|h.clients[c].read|]
    ensures PL.Leads(Link(p, h.clients[c]), Link(p, HubReceive(h.clients[c], m, h.connected, room)))
  {
    hide PL.Leads;
    PL.LeadsStep(Link(p, h.clients[c]), BrokerReads(h.connected, room));
  }

  lemma MessageFollows(h: Hive, c: nat, m: ToBroker, a: Reaction, p: Port)
    requires c in h.clients && |h.clients[c].read| < |p.log| && m == p.log[|h.clients[c].read|]
    requires m.OpenMsg? ==> !Objects(h.clients[c], m)
    ensures Follows(h, MessageHive(h, c, m, a), c, p)
  {
    hide PL.Leads, CloseHive, EnqueueHive, HubReceive, Accept, Objects;
    if m.OpenMsg? {
      ReadStep(h, c, p, m, a.mayOpen);
    } else {
      var key := Key(c, m.id);
      var g := h.WithHub(c, h.clients[c].(read := h.clients[c].read + [m]));
      if !g.Has(key) {
        ReadUnknown(h.clients[c], m, h.connected, true);
        ReadStep(h, c, p, m, true);
      } else {
        ReadObjects(h.clients[c], m);
        if m.CloseMsg? || Objects(h.clients[c], m) {
          ReadCloses(h, c, m);
          ReadStep(h, c, p, m, true);
          ClosedFollows(g, key, a.full, a.order, c, p);
          FollowsOn(h, ForgetChannel(g, key), CloseHive(g, key, true, a.full, a.order), c, p);
        } else {
          TakeFollows(h, g, c, m, a, p);
        }
      }
    }
  }

  lemma ReadUnknown(h: Hub, m: ToBroker, connected: bool, room: bool)
    requires !m.OpenMsg? && m.id !in h.channels
    ensures HubReceive(h, m, connected, room) == h.(read := h.read + [m])
  {
  }

  lemma ReadCloses(h: Hive, c: nat, m: ToBroker)
    requires c in h.clients && m.id in h.clients[c].channels
    requires m.CloseMsg? || (!m.OpenMsg? && Objects(h.clients[c], m))
    ensures var g := h.WithHub(c, h.clients[c].(read := h.clients[c].read + [m]));
            && ForgetChannel(g, Key(c, m.id)).clients.Keys == h.clients.Keys
            && ForgetChannel(g, Key(c, m.id)).clients[c] == HubReceive(h.clients[c], m, h.connected, true)
  {
    hide Others;
  }

  lemma ReadTakes(h: Hub, m: ToBroker, connected: bool, room: bool)
    requires !m.OpenMsg? && !m.CloseMsg? && m.id in h.channels && !Objects(h, m)
    ensures var g := h.(read := h.read + [m]);
            HubReceive(h, m, connected, room)
            == if room then Accept(g, m) else HubClose(Accept(g, m), m.id)
  {
  }

  lemma TakeFollows(h: Hive, g: Hive, c: nat, m: ToBroker, a: Reaction, p: Port)
    requires c in h.clients && |h.clients[c].read| < |p.log| && m == p.log[|h.clients[c].read|]
    requires g == h.WithHub(c, h.clients[c].(read := h.clients[c].read + [m])) && g.Has(Key(c, m.id))
    requires !Objects(h.clients[c], m) && !m.OpenMsg? && !m.CloseMsg?
    ensures Follows(h, TakeHive(g, c, m, a), c, p)
  {
    hide PL.Leads, CloseHive, HubReceive, Objects, Sending, HubClose;
    var key := Key(c, m.id);
    var k := Numbering(g.WithHub(c, Accept(g.clients[c], m)), key, m);
    var room := HasRoom(k, a.size);
    ReadTakes(h.clients[c], m, h.connected, room);
    ReadStep(h, c, p, m, room);
    if room {
      FollowsSame(k, TakeHive(g, c, m, a), c, p);
    } else {
      AcceptHas(g, c, m);
      ClosedFollows(k, key, a.full, a.order, c, p);
      FollowsOn(h, ForgetChannel(k, key), TakeHive(g, c, m, a), c, p);
    }
  }

  lemma AcceptHas(h: Hive, c: nat, m: ToBroker)
    requires h.Has(Key(c, m.id))
    ensures var k := Numbering(h.WithHub(c, Accept(h.clients[c], m)), Key(c, m.id), m);
            k.Has(Key(c, m.id)) && c in ForgetChannel(k, Key(c, m.id)).clients
            && ForgetChannel(k, Key(c, m.id)).clients[c] == HubClose(Accept(h.clients[c], m), m.id)
  {
    hide Others;
  }

  lemma HearFollows(h: Hive, id: nat, m: Down, order: seq<Key>, c: nat, p: Port)
    requires c in h.clients
    ensures Follows(h, HearHive(h, id, m, order), c, p)
  {
    hide PL.Leads, LoseHive, CloseHive;
    FollowsSame(h, h, c, p);
    LoseFollows(h, order, c, p);
    if id in h.routes && h.Has(h.routes[id]) {
      var key := h.routes[id];
      CloseFollows(h, key, false, false, [], c, p);
      match m
      case Ack(n) => FollowsStep(h, key.client, RelayAcks(key.local, n), c, p);
      case Frame(bytes) => FollowsStep(h, key.client, RelayDelivers(key.local, |bytes|), c, p);
      case _ =>
    }
  }

  lemma {:induction false} AnnounceFollows(h: Hive, order: seq<Key>, c: nat, p: Port)
    requires c in h.clients
    ensures Follows(h, AnnounceAll(h, order), c, p)
    decreases |order|
  {
    hide PL.Leads;
    if order == [] {
      FollowsSame(h, h, c, p);
    } else {
      var g, key := AnnounceAll(h, order[..|order| - 1]), order[|order| - 1];
      AnnounceFollows(h, order[..|order| - 1], c, p);
      if key.client in g.clients {
        FollowsStep(g, key.client, BrokerOpens(key.local), c, p);
        FollowsOn(h, g, AnnounceAll(h, order), c, p);
      }
    }
  }

  lemma ConnectFollows(h: Hive, order: seq<Key>, c: nat, p: Port)
    requires c in h.clients
    ensures Follows(h, ConnectHive(h, order), c, p)
  {
    hide PL.Leads;
    var g := h.(connected := true);
    FollowsSame(h, g, c, p);
    AnnounceFollows(g, order, c, p);
    FollowsOn(h, g, ConnectHive(h, order), c, p);
  }

  lemma {:induction false} DetachLoopFollows(h: Hive, keys: seq<Key>, full: nat -> bool, order: seq<Key>, c: nat, p: Port)
    requires c in h.clients
    ensures Follows(h, DetachLoop(h, keys, full, order), c, p)
    decreases |keys|
  {
    hide PL.Leads, CloseHive;
    if keys == [] {
      FollowsSame(h, h, c, p);
    } else {
      var g := DetachLoop(h, keys[..|keys| - 1], full, order);
      DetachLoopFollows(h, keys[..|keys| - 1], full, order, c, p);
      CloseFollows(g, keys[|keys| - 1], true, full(|keys|), order, c, p);
      FollowsOn(h, g, DetachLoop(h, keys, full, order), c, p);
    }
  }
}
