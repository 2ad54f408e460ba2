/**
 The whole path of a browser's network: guest ports, the broker they share, and the
 relay's end of every channel. Messages travel over ordered logs; guests, sockets, the
 relay's surroundings and other users of the relay may do anything at any point.
 */
module Network {
  import opened MuxProtocol
  import opened PortProtocol
  import opened BrokerModel
  import opened BrokerClients
  import opened BrokerPorts
  import opened BrokerOrder
  import RC = RelayChannel
  import RL = RelayLaws
  import RE = RelayEnds

  /** `heard[id]` is what the broker has read from the relay for wire id `id`. */
  datatype World = World(hive: Hive, ports: map<nat, Port>, remotes: map<nat, RC.Remote>, heard: map<nat, seq<Down>>)

  const EMPTY_WORLD := World(EMPTY, map[], map[], map[])

  datatype WorldEvent =
    | Attaches(c: nat)
    | Guest(c: nat, e: PortEvent)
    | Takes(c: nat, a: Reaction)
    | Connects(order: seq<Key>)
    | Flushes(room: nat)
    | Loses(order: seq<Key>)
    | Detaches(c: nat, keys: seq<Key>, full: nat -> bool, order: seq<Key>)
    | Hears(id: nat, order: seq<Key>)
    | RelayReads(id: nat, maxBytes: nat, answers: nat -> RC.Answer)
    | RelayActs(id: nat, event: RC.RelayEvent, maxBytes: nat, answers: nat -> RC.Answer)
    | OthersAct(id: nat, buffered: int, queued: int)

  /** What happens on the guest's side of a port. */
  predicate GuestSide(e: PortEvent) {
    e.GuestOpens? || e.GuestCommands? || e.GuestFins? || e.GuestSends? || e.GuestCloses? || e.GuestPolls? || e.PortReads?
  }

  function LinkOf(w: World, c: nat): Link
    requires c in w.ports && c in w.hive.clients
  {
    Link(w.ports[c], w.hive.clients[c])
  }

  /** The next message of port c, if there is one. */
  predicate Posts(w: World, c: nat) {
    c in w.ports && c in w.hive.clients && |w.hive.clients[c].read| < |w.ports[c].log|
  }

  /** The broker handles the next message of port c; a command gets a wire id and a relay end. */
  function TakeNext(w: World, c: nat, a: Reaction): World
    requires Posts(w, c)
  {
    var m := w.ports[c].log[|w.hive.clients[c].read|];
    if Detaching(w.hive.clients[c], m) then w.(hive := DetachHive(w.hive, c, a.order, _ => a.full, a.order)) else
      var g := MessageHive(w.hive, c, m, a);
      if g.nextId == w.hive.nextId then w.(hive := g)
      else World(g, w.ports, w.remotes[g.nextId := RC.Unopened(0, 0)], w.heard[g.nextId := []])
  }

  /** The relay may read the next message written for the channel. */
  predicate Arrives(w: World, id: nat) {
    && id in w.remotes
    && |w.remotes[id].read| < |Written(w.hive.sent, id)|
    && (w.remotes[id].read == [] ==> Written(w.hive.sent, id)[0].Command?)
  }

  function Next(w: World, e: WorldEvent): World {
    match e
    case Attaches(c) =>
      if c in w.ports then w else w.(hive := AttachHive(w.hive, c), ports := w.ports[c := START.port])
    case Guest(c, e) =>
      if c !in w.ports || c !in w.hive.clients || !GuestSide(e) then w else
        w.(ports := w.ports[c := PortProtocol.Next(LinkOf(w, c), e).port])
    case Takes(c, a) => if Posts(w, c) then TakeNext(w, c, a) else w
    case Connects(order) => if w.hive.connected then w else w.(hive := ConnectHive(w.hive, order))
    case Flushes(room) => w.(hive := FlushHive(w.hive, room))
    case Loses(order) => w.(hive := LoseHive(w.hive, order))
    case Detaches(c, keys, full, order) =>
      if !Covering(w.hive, c, keys) then w else w.(hive := DetachHive(w.hive, c, keys, full, order))
    case Hears(id, order) =>
      if id !in w.remotes || id !in w.heard || |w.heard[id]| >= |w.remotes[id].out| then w else
        var m := w.remotes[id].out[|w.heard[id]|];
        w.(hive := HearHive(w.hive, id, m, order), heard := w.heard[id := w.heard[id] + [m]])
    case RelayReads(id, maxBytes, answers) =>
      if !Arrives(w, id) then w else
        var m := Written(w.hive.sent, id)[|w.remotes[id].read|];
        w.(remotes := w.remotes[id := RC.OnMessage(w.remotes[id], m, maxBytes, answers)])
    case RelayActs(id, e, maxBytes, answers) =>
      if id !in w.remotes || (w.remotes[id].read == [] && !e.ConnectionLost?) then w else
        w.(remotes := w.remotes[id := RC.OnEvent(w.remotes[id], e, maxBytes, answers)])
    case OthersAct(id, buffered, queued) =>
      if id !in w.remotes then w else
        var r := w.remotes[id];
        w.(remotes := w.remotes[id := r.(total := r.total + buffered, peerBytes := r.peerBytes + queued)])
  }

  function Run(w: World, events: seq<WorldEvent>): World
    decreases |events|
  {
    if events == [] then w else Run(Next(w, events[0]), events[1..])
  }

  // ---- Each channel and each port on its own ----

  /** Wire id `id` is in the state of some run of the credit protocol. */
  ghost predicate IsRun(w: World, id: nat) {
    id in w.remotes && id in w.heard &&
      exists s: CP.Sys :: CP.Reached(s) && Shows(w, id, s)
  }

  predicate Shows(w: World, id: nat, s: CP.Sys)
    requires id in w.remotes && id in w.heard
  {
    Mirrors(w.hive, id, s.client) && s.remote == w.remotes[id] && s.client.seen == w.heard[id]
  }

  ghost predicate PortRuns(w: World, c: nat) {
    c in w.hive.clients ==> c in w.ports && PL.Reached(LinkOf(w, c))
  }

  predicate Known(w: World, id: nat) {
    (id in w.remotes <==> 0 < id <= w.hive.nextId) && (id in w.heard <==> id in w.remotes)
  }

  ghost predicate Inv(w: World) {
    && Routed(w.hive)
    && (forall c :: PortRuns(w, c))
    && (forall id :: Known(w, id) && (id in w.remotes ==> IsRun(w, id)))
  }

  lemma RunOf(w: World, id: nat) returns (s: CP.Sys)
    requires IsRun(w, id)
    ensures CP.Reached(s) && Shows(w, id, s) && CP.Inv(s)
  {
    hide CP.Reached, CP.Inv, Shows;
    s :| CP.Reached(s) && Shows(w, id, s);
    CP.ReachedInv(s);
  }

  /** The client's half moved on, the relay's end did not. */
  lemma Advance(w: World, v: World, id: nat, s: CP.Sys, t: CP.Sys)
    requires IsRun(w, id) && CP.Reached(s) && Shows(w, id, s) && CP.Moves(s, t)
    requires id in v.remotes && id in v.heard && v.remotes[id] == w.remotes[id] && v.heard[id] == w.heard[id]
    requires Mirrors(v.hive, id, t.client)
    ensures IsRun(v, id)
  {
    hide CP.Reached, CP.Leads, Mirrors;
    CP.ReachedOn(s, t);
    assert Shows(v, id, t);
  }

  /** A port's record moved on by steps of the broker's end. */
  lemma PortAdvance(w: World, v: World, c: nat)
    requires PortRuns(w, c) && c in w.hive.clients && c in w.ports && v.ports == w.ports
    requires Follows(w.hive, v.hive, c, w.ports[c])
    ensures PortRuns(v, c)
  {
    hide PL.Leads;
    PL.LeadsOn(START, LinkOf(w, c), LinkOf(v, c));
  }

  // ---- What each event keeps ----

  lemma AttachesKeeps(w: World, c: nat)
    requires Inv(w)
    ensures Inv(Next(w, Attaches(c)))
  {
    hide Routed, Mirrors, PL.Leads, CP.Reached;
    var v := Next(w, Attaches(c));
    if c !in w.ports {
      AttachRouted(w.hive, c);
      assert PortRuns(w, c);
      forall d ensures PortRuns(v, d) {
        assert PortRuns(w, d);
        PL.LeadsHere(START);
      }
      forall id ensures Known(v, id) && (id in v.remotes ==> IsRun(v, id)) {
        assert Known(w, id);
        if id in w.remotes {
          var s := RunOf(w, id);
          AttachMirrors(w.hive, c, id, s);
          CP.StaysPut(s);
          Advance(w, v, id, s, s);
        }
      }
    }
  }

  lemma GuestKeeps(w: World, c: nat, e: PortEvent)
    requires Inv(w)
    ensures Inv(Next(w, Guest(c, e)))
  {
    hide Routed, Mirrors, PL.Leads, CP.Reached;
    var v := Next(w, Guest(c, e));
    if c in w.ports && c in w.hive.clients && GuestSide(e) {
      forall d ensures PortRuns(v, d) {
        assert PortRuns(w, d);
        if d == c {
          PL.LeadsStep(LinkOf(w, c), e);
          PL.LeadsOn(START, LinkOf(w, c), LinkOf(v, c));
        }
      }
      SameWires(w, v);
    }
  }

  /** Nothing changed on the wire. */
  lemma SameWires(w: World, v: World)
    requires Inv(w) && v.hive == w.hive && v.remotes == w.remotes && v.heard == w.heard
    ensures forall id :: Known(v, id) && (id in v.remotes ==> IsRun(v, id))
  {
    hide Mirrors, CP.Reached, Routed;
    forall id ensures Known(v, id) && (id in v.remotes ==> IsRun(v, id)) {
      assert Known(w, id);
      if id in w.remotes {
        var s := RunOf(w, id);
        assert Shows(v, id, s);
      }
    }
  }

  /** Connecting, flushing and losing the connection touch the broker alone. */
  lemma BrokerKeeps(w: World, e: WorldEvent)
    requires Inv(w) && (e.Connects? || e.Flushes? || e.Loses?)
    ensures Inv(Next(w, e))
  {
    hide Mirrors, PL.Leads, CP.Reached, CP.Moves, Follows, ConnectHive, FlushHive, LoseHive, Routed;
    var v := Next(w, e);
    BrokerRouted(w.hive, e);
    BrokerFields(w.hive, e);
    forall c ensures PortRuns(v, c) {
      assert PortRuns(w, c);
      if c in w.hive.clients {
        BrokerFollows(w, e, c);
        PortAdvance(w, v, c);
      }
    }
    forall id ensures Known(v, id) && (id in v.remotes ==> IsRun(v, id)) {
      assert Known(w, id);
      if id in w.remotes {
        var s := RunOf(w, id);
        var t := BrokerMirrors(w, e, id, s);
        Advance(w, v, id, s, t);
      }
    }
  }

  lemma BrokerRouted(h: Hive, e: WorldEvent)
    requires Routed(h)
    ensures Routed(ConnectHive(h, if e.Connects? then e.order else []))
    ensures Routed(FlushHive(h, if e.Flushes? then e.room else 0))
    ensures Routed(LoseHive(h, if e.Loses? then e.order else []))
  {
    hide Routed, AnnounceAll, FlushHive, LoseHive;
    FlagRouted(h, true);
    AnnounceRouted(h.(connected := true), if e.Connects? then e.order else []);
    FlushRouted(h, if e.Flushes? then e.room else 0);
    LoseRouted(h, if e.Loses? then e.order else []);
  }

  lemma {:induction false} AnnounceFields(h: Hive, order: seq<Key>)
    ensures AnnounceAll(h, order).nextId == h.nextId && AnnounceAll(h, order).clients.Keys == h.clients.Keys
  {
    if order != [] {
      AnnounceFields(h, order[..|order| - 1]);
    }
  }

  lemma BrokerFields(h: Hive, e: WorldEvent)
    ensures e.Connects? ==> ConnectHive(h, e.order).nextId == h.nextId && ConnectHive(h, e.order).clients.Keys == h.clients.Keys
    ensures e.Flushes? ==> FlushHive(h, e.room).nextId == h.nextId && FlushHive(h, e.room).clients.Keys == h.clients.Keys
    ensures e.Loses? ==> LoseHive(h, e.order).nextId == h.nextId && LoseHive(h, e.order).clients.Keys == h.clients.Keys
  {
    hide AnnounceAll, ForgetAll;
    if e.Connects? {
      AnnounceFields(h.(connected := true), e.order);
    } else if e.Loses? {
      ForgetAllFields(h.(connected := false), e.order);
    }
  }

  lemma BrokerFollows(w: World, e: WorldEvent, c: nat)
    requires c in w.hive.clients && c in w.ports && (e.Connects? || e.Flushes? || e.Loses?)
    ensures Follows(w.hive, Next(w, e).hive, c, w.ports[c])
  {
    hide Follows, ConnectHive, LoseHive;
    FollowsSame(w.hive, w.hive, c, w.ports[c]);
    match e
    case Connects(order) => ConnectFollows(w.hive, order, c, w.ports[c]);
    case Flushes(room) => FollowsSame(w.hive, FlushHive(w.hive, room), c, w.ports[c]);
    case Loses(order) => LoseFollows(w.hive, order, c, w.ports[c]);
  }

  lemma BrokerMirrors(w: World, e: WorldEvent, id: nat, s: CP.Sys) returns (t: CP.Sys)
    requires Routed(w.hive) && Mirrors(w.hive, id, s.client) && (e.Connects? || e.Flushes? || e.Loses?)
    ensures Mirrors(Next(w, e).hive, id, t.client) && CP.Moves(s, t)
  {
    hide Mirrors, CP.Moves, ConnectHive, FlushHive, LoseHive, Routed;
    t := s;
    CP.StaysPut(s);
    match e
    case Connects(order) => ConnectMirrors(w.hive, order, id, s);
    case Flushes(room) => t := FlushMirrors(w.hive, room, id, s);
    case Loses(order) => t := LoseMirrors(w.hive, order, id, s);
  }

  // ---- A port goes ----

  lemma DetachKeeps(w: World, c: nat, keys: seq<Key>, full: nat -> bool, order: seq<Key>)
    requires Inv(w) && Covering(w.hive, c, keys)
    ensures Inv(w.(hive := DetachHive(w.hive, c, keys, full, order)))
  {
    hide Mirrors, PL.Leads, CP.Reached, CP.Moves, Routed, DetachLoop;
    var g := DetachLoop(w.hive, keys, full, order);
    var v := w.(hive := DetachHive(w.hive, c, keys, full, order));
    DetachLoopFields(w.hive, keys, full, order);
    DetachLoopRouted(w.hive, keys, full, order);
    assert g.clients[c].channels == map[] by {
      assert forall l :: l in g.clients[c].channels ==> g.Has(Key(c, l));
    }
    DropRouted(g, c);
    forall d ensures PortRuns(v, d) {
      assert PortRuns(w, d);
      if d in w.hive.clients && d != c {
        DetachLoopFollows(w.hive, keys, full, order, d, w.ports[d]);
        PortAdvance(w, v, d);
      }
    }
    forall id ensures Known(v, id) && (id in v.remotes ==> IsRun(v, id)) {
      assert Known(w, id);
      if id in w.remotes {
        var s := RunOf(w, id);
        var t := DetachLoopMirrors(w.hive, keys, full, order, id, s);
        DropMirrors(g, c, id, t);
        Advance(w, v, id, s, t);
      }
    }
  }

  // ---- A message of a port ----

  lemma TakeFields(h: Hive, c: nat, m: ToBroker, a: Reaction)
    requires c in h.clients
    ensures var g := MessageHive(h, c, m, a);
            && g.clients.Keys == h.clients.Keys
            && g.nextId == if m.CommandMsg? && h.Has(Key(c, m.id)) && !Objects(h.clients[c], m) then h.nextId + 1 else h.nextId
  {
    hide CloseHive, Objects, Accept, HubReceive, Sending;
    ReadObjects(h.clients[c], m);
    if !m.OpenMsg? {
      var key := Key(c, m.id);
      var g := h.WithHub(c, h.clients[c].(read := h.clients[c].read + [m]));
      CloseFields(g, key, true, a.full, a.order);
      if g.Has(key) {
        var k := Numbering(g.WithHub(c, Accept(g.clients[c], m)), key, m);
        CloseFields(k, key, true, a.full, a.order);
      }
    }
  }

  /** The broker never has cause to drop a port. */
  lemma NeverDetaching(w: World, c: nat)
    requires Inv(w) && Posts(w, c)
    ensures var m := w.ports[c].log[|w.hive.clients[c].read|];
            !Objects(w.hive.clients[c], m) && !Detaching(w.hive.clients[c], m)
  {
    hide PL.Leads, PL.Inv, Objects, Routed;
    assert PortRuns(w, c);
    PL.ReachedInv(LinkOf(w, c));
    PL.BrokerNeverObjects(LinkOf(w, c));
    IdsAreGood(LinkOf(w, c));
  }

  lemma IdsAreGood(s: Link)
    requires PL.Inv(s) && |s.hub.read| < |s.port.log|
    ensures !BadId(s.port.log[|s.hub.read|])
  {
    hide PL.Covers, PL.Polls, PL.HubLaw;
    PL.IdIsPositive(s.port, |s.hub.read|);
  }

  lemma TakesKeeps(w: World, c: nat, a: Reaction)
    requires Inv(w) && Posts(w, c)
    ensures Inv(TakeNext(w, c, a))
  {
    hide Mirrors, PL.Leads, CP.Reached, CP.Moves, Routed, MessageHive, Objects, Follows, Detaching;
    var m := w.ports[c].log[|w.hive.clients[c].read|];
    var g := MessageHive(w.hive, c, m, a);
    var v := TakeNext(w, c, a);
    NeverDetaching(w, c);
    TakeFields(w.hive, c, m, a);
    MessageRouted(w.hive, c, m, a);
    forall d ensures PortRuns(v, d) {
      assert PortRuns(w, d);
      if d in w.hive.clients {
        if d == c {
          MessageFollows(w.hive, c, m, a, w.ports[c]);
        } else {
          MessageElsewhere(w.hive, c, m, a, d, w.ports[d]);
        }
        PortAdvance(w, v, d);
      }
    }
    forall id ensures Known(v, id) && (id in v.remotes ==> IsRun(v, id)) {
      assert Known(w, id);
      if id in w.remotes {
        var s := RunOf(w, id);
        var t := MessageMirrors(w.hive, c, m, a, id, s);
        Advance(w, v, id, s, t);
      } else if id in v.remotes {
        CommandIsRun(w, c, m, a);
      }
    }
  }

  /** The channel of a command starts a run of its own. */
  lemma CommandIsRun(w: World, c: nat, m: ToBroker, a: Reaction)
    requires Inv(w) && Posts(w, c) && m == w.ports[c].log[|w.hive.clients[c].read|]
    requires m.CommandMsg? && w.hive.Has(Key(c, m.id)) && !Objects(w.hive.clients[c], m)
    requires !Detaching(w.hive.clients[c], m)
    ensures IsRun(TakeNext(w, c, a), w.hive.nextId + 1)
  {
    hide Mirrors, PL.Leads, CP.Leads, Routed, TakeHive, Objects, Detaching, Written;
    var h := w.hive;
    var g := h.WithHub(c, h.clients[c].(read := h.clients[c].read + [m]));
    ReadObjects(h.clients[c], m);
    HubRouted(h, c, g.clients[c]);
    TakeFields(h, c, m, a);
    FreshCounts(g, Key(c, m.id), m);
    var s := CP.Start(0, 0);
    var t := CommandMirrors(g, c, m, a, s);
    CP.LeadsHere(s);
    assert CP.Reached(s);
    CP.ReachedOn(s, t);
    assert Shows(TakeNext(w, c, a), h.nextId + 1, t);
  }

  lemma FreshCounts(h: Hive, key: Key, m: ToBroker)
    requires Routed(h) && h.Has(key) && m == CommandMsg(key.local) && !Objects(h.clients[key.client], m)
    ensures h.ChannelOf(key).bytes == 0 && h.ChannelOf(key).received == 0 && Written(h.sent, h.nextId + 1) == []
  {
    hide Written;
    assert Numbered(h, key);
    NotIssued(h.sent, h.nextId, h.nextId + 1);
  }

  // ---- A message of the relay ----

  lemma HearsKeeps(w: World, id0: nat, order: seq<Key>)
    requires Inv(w)
    ensures Inv(Next(w, Hears(id0, order)))
  {
    hide Mirrors, PL.Leads, CP.Leads, CP.Moves, Routed, HearHive, Follows, CP.Inv;
    var v := Next(w, Hears(id0, order));
    if id0 in w.remotes && id0 in w.heard && |w.heard[id0]| < |w.remotes[id0].out| {
      var m := w.remotes[id0].out[|w.heard[id0]|];
      assert Known(w, id0) && IsRun(w, id0);
      var s0 := RunOf(w, id0);
      HearMirrors(w.hive, id0, order, s0);
      HearRouted(w.hive, id0, m, order);
      HearFields(w.hive, id0, m, order);
      forall c ensures PortRuns(v, c) {
        assert PortRuns(w, c);
        if c in w.hive.clients {
          HearFollows(w.hive, id0, m, order, c, w.ports[c]);
          PortAdvance(w, v, c);
        }
      }
      forall id ensures Known(v, id) && (id in v.remotes ==> IsRun(v, id)) {
        assert Known(w, id);
        if id in w.remotes {
          if id == id0 {
            var t := CP.Next(s0, CP.ClientReads);
            CP.LeadsStep(s0, CP.ClientReads);
            CP.ReachedOn(s0, t);
            ReadFields(s0);
            assert Shows(v, id, t);
          } else {
            var s := RunOf(w, id);
            HearsElsewhere(w.hive, id0, m, order, id, s);
            CP.StaysPut(s);
            Advance(w, v, id, s, s);
          }
        }
      }
    }
  }

  lemma ReadFields(s: CP.Sys)
    requires |s.client.seen| < |s.remote.out|
    ensures var t := CP.Next(s, CP.ClientReads);
            t.remote == s.remote && t.client.seen == s.client.seen + [s.remote.out[|s.client.seen|]]
  {
  }

  lemma HearFields(h: Hive, id: nat, m: Down, order: seq<Key>)
    ensures HearHive(h, id, m, order).nextId == h.nextId && HearHive(h, id, m, order).clients.Keys == h.clients.Keys
  {
    hide CloseHive, ForgetAll;
    ForgetAllFields(h.(connected := false), order);
    if id in h.routes {
      CloseFields(h, h.routes[id], false, false, []);
    }
  }

  // ---- The relay's end moves ----

  /** Only the relay's end of one channel changes. */
  lemma RelayFields(w: World, e: WorldEvent, id: nat)
    requires e.RelayReads? || e.RelayActs? || e.OthersAct?
    ensures var v := Next(w, e);
            && v.hive == w.hive && v.heard == w.heard && v.remotes.Keys == w.remotes.Keys
            && (id in w.remotes && id != e.id ==> v.remotes[id] == w.remotes[id])
            && v.ports == w.ports
  {
    hide RC.OnMessage, RC.OnEvent, Written;
  }

  lemma RelayRunAt(w: World, e: WorldEvent, id: nat)
    requires Inv(w) && (e.RelayReads? || e.RelayActs? || e.OthersAct?) && Next(w, e) != w
    ensures Known(Next(w, e), id) && (id in Next(w, e).remotes ==> IsRun(Next(w, e), id))
  {
    hide Inv, Next, CP.Leads, CP.Inv, Mirrors;
    KnownAt(w, id);
    RelayFields(w, e, id);
    if id in w.remotes {
      var s := RunOf(w, id);
      if id == e.id {
        var t := RelayMoves(w, e, s);
        CP.ReachedOn(s, t);
      } else {
        assert Shows(Next(w, e), id, s);
      }
    }
  }

  lemma RelayKeeps(w: World, e: WorldEvent)
    requires Inv(w) && (e.RelayReads? || e.RelayActs? || e.OthersAct?)
    ensures Inv(Next(w, e))
  {
    hide Next, Known, IsRun, Routed, PL.Reached;
    var v := Next(w, e);
    if v != w {
      RelayFields(w, e, 0);
      forall c ensures PortRuns(v, c) {
        assert PortRuns(w, c);
      }
      forall id ensures Known(v, id) && (id in v.remotes ==> IsRun(v, id)) {
        RelayRunAt(w, e, id);
      }
    }
  }

  /** The event of the credit protocol that an event at the relay is. */
  function AsProtocol(e: WorldEvent): CP.Event {
    match e
    case RelayReads(_, maxBytes, answers) => CP.RelayReads(maxBytes, answers)
    case RelayActs(_, event, maxBytes, answers) => CP.RelayActs(event, maxBytes, answers)
    case OthersAct(_, buffered, queued) => CP.OthersAct(buffered, queued)
    case _ => CP.ClientFin
  }

  /** The relay's end of one channel takes a step of the credit protocol. */
  lemma RelayMoves(w: World, e: WorldEvent, s: CP.Sys) returns (t: CP.Sys)
    requires (e.RelayReads? || e.RelayActs? || e.OthersAct?) && Next(w, e) != w
    requires e.id in w.remotes && e.id in w.heard && Shows(w, e.id, s)
    ensures CP.Leads(s, t) && Shows(Next(w, e), e.id, t)
  {
    hide CP.Leads, RC.OnMessage, RC.OnEvent, Written, Mine;
    var f := AsProtocol(e);
    t := CP.Next(s, f);
    CP.LeadsStep(s, f);
  }

  lemma StepKeeps(w: World, e: WorldEvent)
    requires Inv(w)
    ensures Inv(Next(w, e))
  {
    hide Inv;
    match e
    case Attaches(c) => AttachesKeeps(w, c);
    case Guest(c, g) => GuestKeeps(w, c, g);
    case Takes(c, a) =>
      if Posts(w, c) {
        TakesKeeps(w, c, a);
      }
    case Detaches(c, keys, full, order) =>
      if Covering(w.hive, c, keys) {
        DetachKeeps(w, c, keys, full, order);
      }
    case Hears(id, order) => HearsKeeps(w, id, order);
    case Connects(order) => BrokerKeeps(w, e);
    case Flushes(room) => BrokerKeeps(w, e);
    case Loses(order) => BrokerKeeps(w, e);
    case RelayReads(id, maxBytes, answers) => RelayKeeps(w, e);
    case RelayActs(id, event, maxBytes, answers) => RelayKeeps(w, e);
    case OthersAct(id, buffered, queued) => RelayKeeps(w, e);
  }

  lemma {:induction false} RunKeeps(w: World, events: seq<WorldEvent>)
    requires Inv(w)
    ensures Inv(Run(w, events))
    decreases |events|
  {
    hide Inv, Next;
    if events != [] {
      StepKeeps(w, events[0]);
      RunKeeps(Next(w, events[0]), events[1..]);
    }
  }

  lemma EmptyInv()
    ensures Inv(EMPTY_WORLD)
  {
  }

  // ---- Over whole runs ----

  /**
   In every run of the whole network, each port with the broker's record of it is in a
   state of the port protocol, and each channel the broker ever gave a wire id is, with
   the relay's end of it, in a state of the credit protocol.
   */
  lemma EverythingIsARun(events: seq<WorldEvent>)
    ensures var w := Run(EMPTY_WORLD, events);
            && (forall c :: c in w.hive.clients ==> c in w.ports && PL.Reached(LinkOf(w, c)))
            && (forall id :: 0 < id <= w.hive.nextId ==> IsRun(w, id))
  {
    hide Run, Routed, PL.Reached, IsRun;
    EmptyInv();
    RunKeeps(EMPTY_WORLD, events);
    var w := Run(EMPTY_WORLD, events);
    forall c | c in w.hive.clients ensures c in w.ports && PL.Reached(LinkOf(w, c)) {
      assert PortRuns(w, c);
    }
    forall id | 0 < id <= w.hive.nextId ensures IsRun(w, id) {
      assert Known(w, id);
    }
  }

  // ---- Nobody is ever at fault ----

  /** Port c's next message gives the broker no cause to close a channel or drop the port. */
  predicate PortIsGood(w: World, c: nat) {
    Posts(w, c) ==>
      var m := w.ports[c].log[|w.hive.clients[c].read|];
      !Objects(w.hive.clients[c], m) && !Detaching(w.hive.clients[c], m)
  }

  /** The relay's next message on a channel gives the broker no cause to drop the connection. */
  predicate RelayIsGood(w: World, id: nat) {
    id in w.remotes && id in w.heard && |w.heard[id]| < |w.remotes[id].out| && id in w.hive.routes ==>
      && w.hive.Has(w.hive.routes[id])
      && !Breach(w.hive.ChannelOf(w.hive.routes[id]), w.remotes[id].out[|w.heard[id]|])
  }

  /** The broker's next message on a channel is within the relay's window and credit. */
  predicate BrokerIsGood(w: World, id: nat) {
    Arrives(w, id) && !w.remotes[id].ch.dead ==>
      var m := Written(w.hive.sent, id)[|w.remotes[id].read|];
      && (m.Window? ==> w.remotes[id].ch.available + m.count <= MUX_WINDOW)
      && (m.Payload? ==> w.remotes[id].ch.incoming + |m.bytes| <= MUX_WINDOW)
  }

  /**
   In every run of the whole network, whatever guests, sockets, TCP, quotas and other
   users do, no port is at fault with the broker, no relay message is a breach of credit,
   and no broker message exceeds the relay's window.
   */
  lemma NobodyIsAtFault(events: seq<WorldEvent>)
    ensures var w := Run(EMPTY_WORLD, events);
            && (forall c :: PortIsGood(w, c))
            && (forall id :: RelayIsGood(w, id) && BrokerIsGood(w, id))
  {
    hide Run, Inv;
    EmptyInv();
    RunKeeps(EMPTY_WORLD, events);
    var w := Run(EMPTY_WORLD, events);
    forall c ensures PortIsGood(w, c) {
      if Posts(w, c) {
        NeverDetaching(w, c);
      }
    }
    forall id ensures RelayIsGood(w, id) && BrokerIsGood(w, id) {
      GoodWire(w, id);
    }
  }

  lemma GoodWire(w: World, id: nat)
    requires Inv(w)
    ensures RelayIsGood(w, id) && BrokerIsGood(w, id)
  {
    hide PL.Leads, CP.Leads, CP.Inv, Written, Mine;
    assert Known(w, id);
    if id in w.remotes {
      var s := RunOf(w, id);
      if |w.heard[id]| < |w.remotes[id].out| {
        HearMirrors(w.hive, id, [], s);
      }
      if Arrives(w, id) && !w.remotes[id].ch.dead {
        CP.ClientNeverExceedsItsCredit(s);
      }
    }
  }

  /** The relay ends channel `id`'s flow for being quiet after FIN, with a download still waiting for quota. */
  predicate CutsOffNow(w: World, e: WorldEvent, id: nat) {
    e.RelayActs? && e.id == id && id in w.remotes && w.remotes[id].read != [] && RE.CutsOff(w.remotes[id], e.event)
  }

  predicate EverCutsOff(w: World, events: seq<WorldEvent>, id: nat)
    decreases |events|
  {
    events != [] && (CutsOffNow(w, events[0], id) || EverCutsOff(Next(w, events[0]), events[1..], id))
  }

  predicate IsCutOff(w: World, id: nat) {
    id in w.remotes && RE.CutOff(w.remotes[id])
  }

  lemma CutStep(w: World, e: WorldEvent, id: nat)
    requires Inv(w)
    ensures IsCutOff(Next(w, e), id) <==> IsCutOff(w, id) || CutsOffNow(w, e, id)
  {
    hide RE.CutOff, RE.CutsOff, RC.OnMessage, RC.OnEvent, Routed, MessageHive, DetachHive, Mirrors, CP.Reached, Written;
    assert Known(w, id);
    match e
    case Takes(c, a) =>
      if Posts(w, c) {
        NeverDetaching(w, c);
        TakeFields(w.hive, c, w.ports[c].log[|w.hive.clients[c].read|], a);
        NothingOffered();
      }
    case RelayReads(id0, maxBytes, answers) => RelayCuts(w, e, id);
    case RelayActs(id0, event, maxBytes, answers) => RelayCuts(w, e, id);
    case OthersAct(id0, buffered, queued) => RelayCuts(w, e, id);
    case _ =>
  }

  lemma NothingOffered()
    ensures !RE.CutOff(RC.Unopened(0, 0))
  {
  }

  /** At the relay's end an event is the protocol's event. */
  lemma SameStep(w: World, e: WorldEvent, s: CP.Sys)
    requires (e.RelayReads? || e.RelayActs? || e.OthersAct?) && e.id in w.remotes && e.id in w.heard && Shows(w, e.id, s)
    ensures e.id in Next(w, e).remotes && Next(w, e).remotes[e.id] == CP.Next(s, AsProtocol(e)).remote
    ensures CutsOffNow(w, e, e.id) == CP.CutsOffNow(s, AsProtocol(e))
  {
    hide RE.CutsOff, RC.OnMessage, RC.OnEvent, Mine, Written;
  }

  lemma RelayCuts(w: World, e: WorldEvent, id: nat)
    requires Inv(w) && (e.RelayReads? || e.RelayActs? || e.OthersAct?)
    ensures IsCutOff(Next(w, e), id) <==> IsCutOff(w, id) || CutsOffNow(w, e, id)
  {
    hide Inv, Next, CP.Next, CutsOffNow, CP.CutsOffNow, RE.CutOff, Shows, CP.Inv, CP.Reached;
    KnownAt(w, id);
    if e.id == id && id in w.remotes {
      var s := RunOf(w, id);
      SameStep(w, e, s);
      CP.CutStep(s, AsProtocol(e));
      CutOffIs(w, id, s);
    } else {
      ElsewhereCuts(w, e, id);
    }
  }

  lemma KnownAt(w: World, id: nat)
    requires Inv(w)
    ensures Known(w, id) && (id in w.remotes ==> IsRun(w, id))
  {
  }

  lemma ElsewhereCuts(w: World, e: WorldEvent, id: nat)
    requires (e.RelayReads? || e.RelayActs? || e.OthersAct?) && (e.id != id || id !in w.remotes)
    ensures IsCutOff(Next(w, e), id) == IsCutOff(w, id) && !CutsOffNow(w, e, id)
  {
    hide RE.CutOff, RE.CutsOff, RC.OnMessage, RC.OnEvent, Written;
  }

  lemma CutOffIs(w: World, id: nat, s: CP.Sys)
    requires id in w.remotes && id in w.heard && Shows(w, id, s)
    ensures IsCutOff(w, id) == RE.CutOff(s.remote)
  {
    hide RE.CutOff;
  }

  lemma {:induction false} CutRun(w: World, events: seq<WorldEvent>, id: nat)
    requires Inv(w)
    ensures IsCutOff(Run(w, events), id) <==> IsCutOff(w, id) || EverCutsOff(w, events, id)
    decreases |events|
  {
    hide Inv, Next, CutsOffNow, IsCutOff;
    if events != [] {
      CutStep(w, events[0], id);
      StepKeeps(w, events[0]);
      CutRun(Next(w, events[0]), events[1..], id);
    }
  }

  /**
   In every run of the whole network and for every channel: TCP is given the bytes the
   broker wrote, in order and without gaps from the first one after admission; what the
   broker read is in order a prefix of what the relay was given to send, with TCP's bytes
   in it; and a channel that read EOF read every byte TCP delivered if and only if its
   flow was not ended for being quiet after FIN while a download waited for quota.
   */
  lemma StreamsThroughTheBroker(events: seq<WorldEvent>, id: nat)
    ensures var w := Run(EMPTY_WORLD, events);
            id in w.remotes && id in w.heard ==>
              var r := w.remotes[id];
              && r.early + r.tcp <= PayloadBytes(Written(w.hive.sent, id))
              && DownTokens(w.heard[id]) <= r.offered && RL.TokenBytes(r.offered) <= r.arrived
              && (Line(Eof) in w.heard[id] ==>
                    && DownTokens(w.heard[id]) == r.offered
                    && (FrameBytes(w.heard[id]) == r.arrived <==> !EverCutsOff(EMPTY_WORLD, events, id)))
  {
    hide Run, PayloadBytes, DownTokens, FrameBytes, RL.TokenBytes, Inv, RE.CutOff, EverCutsOff;
    EmptyInv();
    RunKeeps(EMPTY_WORLD, events);
    CutRun(EMPTY_WORLD, events, id);
    var w := Run(EMPTY_WORLD, events);
    if id in w.remotes && id in w.heard {
      StreamsAt(w, id);
    }
  }

  lemma StreamsAt(w: World, id: nat)
    requires Inv(w) && id in w.remotes && id in w.heard
    ensures var r := w.remotes[id];
            && r.early + r.tcp <= PayloadBytes(Written(w.hive.sent, id))
            && DownTokens(w.heard[id]) <= r.offered && RL.TokenBytes(r.offered) <= r.arrived
            && (Line(Eof) in w.heard[id] ==>
                  && DownTokens(w.heard[id]) == r.offered
                  && (FrameBytes(w.heard[id]) == r.arrived <==> !RE.CutOff(r)))
  {
    hide PayloadBytes, DownTokens, FrameBytes, RL.TokenBytes, Written, Mine, CP.Run, CP.Inv, RE.CutOff;
    assert Known(w, id);
    var s := RunOf(w, id);
    var total, peerBytes :| CP.Leads(CP.Start(total, peerBytes), s);
    var trace :| CP.Run(CP.Start(total, peerBytes), trace) == s;
    CP.StreamsAreInOrder(total, peerBytes, trace);
    CP.EofAt(s);
  }

  // ---- Where every byte of a flow is ----

  /** Bytes posted by the port that the broker has not read. */
  function ToBrokerBytes(w: World, c: nat, id: nat): int
    requires c in w.ports && c in w.hive.clients
  {
    PL.SentFor(w.ports[c].log, id) - PL.SentFor(w.hive.clients[c].read, id)
  }

  /** Bytes in the broker's queue and on the wire to the relay. */
  function ToRelayBytes(w: World, key: Key, id: nat): int
    requires id in w.remotes
  {
    |PayloadBytes(Mine(w.hive.queue, key))| + |PayloadBytes(Written(w.hive.sent, id))| - |PayloadBytes(w.remotes[id].read)|
  }

  /** Acknowledged bytes on the wire to the broker. */
  function AcksToBroker(w: World, id: nat): int
    requires id in w.remotes && id in w.heard
  {
    AckBytes(w.remotes[id].out) - AckBytes(w.heard[id])
  }

  /** Acknowledged bytes on their way to the port. */
  function AcksToPort(w: World, c: nat, id: nat): int
    requires c in w.ports && c in w.hive.clients
  {
    PL.AckFor(w.hive.clients[c].out, id) - PL.AckFor(w.ports[c].seen, id)
  }

  /** Credit on its way from the broker to the relay. */
  function CreditToRelay(w: World, key: Key, id: nat): int
    requires id in w.remotes
  {
    WindowBytes(Mine(w.hive.queue, key)) + WindowBytes(Written(w.hive.sent, id)) - WindowBytes(w.remotes[id].read)
  }

  /** Bytes delivered to the port that the broker was not given back. */
  function WithPort(w: World, c: nat, id: nat): int
    requires c in w.hive.clients
  {
    PL.DataFor(w.hive.clients[c].out, id) - PL.ConsumedFor(w.hive.clients[c].read, id)
  }

  /** Flow `id` of port c is live at the port, has wire id `wire`, and its channel at the relay is alive. */
  predicate Joined(w: World, c: nat, id: nat, wire: nat) {
    && c in w.ports && c in w.hive.clients
    && id in w.ports[c].flows && w.ports[c].flows[id].live
    && Key(c, id) in w.hive.ids && w.hive.ids[Key(c, id)] == wire
    && wire in w.remotes && wire in w.heard && !w.remotes[wire].ch.dead
  }

  /**
   In every run of the whole network and for every flow joined through all three tiers,
   what the port counts as pending is on its way to the broker, at the broker or on its
   way to the relay, held by the relay, acknowledged and on its way back on either hop,
   or was dropped by the relay before admission; and the download window is split
   between the relay's credit, frames on the wire, bytes with the port, and credit on its
   way back.
   */
  lemma ThreeTiers(events: seq<WorldEvent>, c: nat, id: nat, wire: nat)
    ensures var w := Run(EMPTY_WORLD, events);
            Joined(w, c, id, wire) ==>
              && w.ports[c].flows[id].pending
                 == ToBrokerBytes(w, c, id) + ToRelayBytes(w, Key(c, id), wire) + w.remotes[wire].ch.incoming
                    + AcksToBroker(w, wire) + AcksToPort(w, c, id) + w.remotes[wire].lost
              && w.remotes[wire].ch.available + (|FrameBytes(w.remotes[wire].out)| - |FrameBytes(w.heard[wire])|)
                 + WithPort(w, c, id) + CreditToRelay(w, Key(c, id), wire) == MUX_WINDOW
  {
    hide Run, Inv;
    EmptyInv();
    RunKeeps(EMPTY_WORLD, events);
    var w := Run(EMPTY_WORLD, events);
    if Joined(w, c, id, wire) {
      TiersAt(w, c, id, wire);
    }
  }

  lemma TiersAt(w: World, c: nat, id: nat, wire: nat)
    requires Inv(w) && Joined(w, c, id, wire)
    ensures w.ports[c].flows[id].pending
         == ToBrokerBytes(w, c, id) + ToRelayBytes(w, Key(c, id), wire) + w.remotes[wire].ch.incoming
            + AcksToBroker(w, wire) + AcksToPort(w, c, id) + w.remotes[wire].lost
    ensures w.remotes[wire].ch.available + (|FrameBytes(w.remotes[wire].out)| - |FrameBytes(w.heard[wire])|)
            + WithPort(w, c, id) + CreditToRelay(w, Key(c, id), wire) == MUX_WINDOW
  {
    hide PL.Leads, CP.Leads, CP.Inv, PL.Inv, Written, Mine, FrameBytes, AckBytes, PayloadBytes, WindowBytes;
    hide PL.SentFor, PL.AckFor, PL.DataFor, PL.ConsumedFor;
    var key := Key(c, id);
    assert Known(w, wire) && Numbered(w.hive, key) && PortRuns(w, c);
    var s := RunOf(w, wire);
    CP.InvConserves(s);
    UpConcat(s.client.up, s.client.queue);
    PL.ReachedInv(LinkOf(w, c));
    PortTier(LinkOf(w, c), id);
  }

  lemma PortTier(s: Link, id: nat)
    requires PL.Inv(s) && id in s.port.flows && s.port.flows[id].live && id in s.hub.channels
    ensures s.port.flows[id].pending
         == PL.SentFor(s.port.log, id) - PL.SentFor(s.hub.read, id) + s.hub.channels[id].bytes
            + PL.AckFor(s.hub.out, id) - PL.AckFor(s.port.seen, id)
    ensures s.hub.channels[id].received == PL.DataFor(s.hub.out, id) - PL.ConsumedFor(s.hub.read, id)
  {
    hide PL.SentFor, PL.AckFor, PL.DataFor, PL.ConsumedFor, PL.Covers, PL.Ordered, PL.Polls;
    assert PL.FlowCount(s.port, id, 0) && PL.ChannelLaw(s.hub, id);
  }

  // ---- Commands rise ----

  lemma OrderStep(w: World, e: WorldEvent)
    requires Inv(w) && InOrder(w.hive)
    ensures InOrder(Next(w, e).hive)
  {
    hide InOrder, Routed, MessageHive, DetachHive, ConnectHive, FlushHive, LoseHive, HearHive, Detaching, Objects;
    hide RC.OnMessage, RC.OnEvent, Written, PL.Leads, CP.Reached, Mirrors;
    match e
    case Attaches(c) => SameOrder(w.hive, AttachHive(w.hive, c));
    case Takes(c, a) =>
      if Posts(w, c) {
        var m := w.ports[c].log[|w.hive.clients[c].read|];
        DetachOrdered(w.hive, c, a.order, _ => a.full, a.order);
        MessageOrder(w.hive, c, m, a);
      }
    case Connects(order) => ConnectOrder(w.hive, order);
    case Flushes(room) => FlushOrder(w.hive, room);
    case Loses(order) => LoseOrder(w.hive, order);
    case Detaches(c, keys, full, order) => DetachOrdered(w.hive, c, keys, full, order);
    case Hears(id, order) =>
      if id in w.remotes && id in w.heard && |w.heard[id]| < |w.remotes[id].out| {
        HearOrder(w.hive, id, w.remotes[id].out[|w.heard[id]|], order);
      }
    case _ =>
  }

  lemma {:induction false} OrderRun(w: World, events: seq<WorldEvent>)
    requires Inv(w) && InOrder(w.hive)
    ensures InOrder(Run(w, events).hive)
    decreases |events|
  {
    hide Inv, Next, InOrder;
    if events != [] {
      OrderStep(w, events[0]);
      StepKeeps(w, events[0]);
      OrderRun(Next(w, events[0]), events[1..]);
    }
  }

  /**
   In every run the broker's commands reach the wire in the order of their ids. So a
   relay, from whichever message it reads a connection on, never finds a channel reused.
   */
  lemma NoChannelIsReused(events: seq<WorldEvent>, start: nat, k: nat)
    ensures var sent := Run(EMPTY_WORLD, events).hive.sent;
            start <= k < |sent| && sent[k].1.Command? ==> LastId(sent[start..k], 0) < sent[k].0
  {
    hide Run, Inv, LastId, Rising;
    EmptyInv();
    EmptyInOrder();
    OrderRun(EMPTY_WORLD, events);
    var sent := Run(EMPTY_WORLD, events).hive.sent;
    if start <= k < |sent| && sent[k].1.Command? {
      RisingFrom(sent, start, k);
    }
  }

  lemma EmptyInOrder()
    ensures InOrder(EMPTY_WORLD.hive)
  {
  }
}
