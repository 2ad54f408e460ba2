/** The native transport against the relay's end of each of its channels, over whole runs. */
module NativeRuns {
  import opened Bytes
  import opened MuxProtocol
  import opened NativeModel
  import opened Trap
  import RC = RelayChannel
  import RL = RelayLaws
  import RE = RelayEnds

  /** `heard[id]` is what the transport has read from the relay for channel `id`. */
  datatype World = World(trunk: Trunk, remotes: map<nat, RC.Remote>, heard: map<nat, seq<Down>>)

  const QUIET := World(CLOSED, map[], map[])

  datatype Event =
    | Opens
    | Texts(id: nat, command: bool, length: nat, fails: bool)
    | Sends(id: nat, bytes: seq<byte>, taken: nat)
    | Closes(id: nat, fails: bool)
    | Dialed(ok: bool)
    | Announces
    | Hears(id: nat)
    | Credits(taken: nat)
    | Fails
    | RelayReads(id: nat, maxBytes: nat, answers: nat -> RC.Answer)
    | RelayActs(id: nat, event: RC.RelayEvent, maxBytes: nat, answers: nat -> RC.Answer)
    | OthersAct(id: nat, buffered: int, queued: int)

  function LineOf(command: bool): Up {
    if command then Command else Fin
  }

  /** A command that was written gives the channel an end at the relay. */
  function SendLine(w: World, id: nat, command: bool, length: nat, fails: bool): World {
    var u := TextTrunk(w.trunk, id, LineOf(command), length, fails);
    if !command || u.sent == w.trunk.sent then w.(trunk := u)
    else World(u, w.remotes[id := RC.Unopened(0, 0)], w.heard[id := []])
  }

  predicate Arrives(w: World, id: nat) {
    && id in w.remotes
    && |w.remotes[id].read| < |Written(w.trunk.sent, id)|
    && (w.remotes[id].read == [] ==> Written(w.trunk.sent, id)[0].Command?)
  }

  function Next(w: World, e: Event): World {
    match e
    case Opens => w.(trunk := OpenTrunk(w.trunk))
    case Texts(id, command, length, fails) => SendLine(w, id, command, length, fails)
    case Sends(id, bytes, taken) => w.(trunk := DataTrunk(w.trunk, id, bytes, taken))
    case Closes(id, fails) => w.(trunk := CloseTrunk(w.trunk, id, fails))
    case Dialed(ok) => w.(trunk := DialedTrunk(w.trunk, ok))
    case Announces => w.(trunk := AnnounceTrunk(w.trunk))
    case Hears(id) =>
      if id !in w.remotes || id !in w.heard || |w.heard[id]| >= |w.remotes[id].out| then w else
        var m := w.remotes[id].out[|w.heard[id]|];
        w.(trunk := HearTrunk(w.trunk, id, m), heard := w.heard[id := w.heard[id] + [m]])
    case Credits(taken) => w.(trunk := CreditTrunk(w.trunk, taken))
    case Fails => w.(trunk := FailTrunk(w.trunk))
    case RelayReads(id, maxBytes, answers) =>
      if !Arrives(w, id) then w else
        var m := Written(w.trunk.sent, id)[|w.remotes[id].read|];
        w.(remotes := w.remotes[id := RC.OnMessage(w.remotes[id], m, maxBytes, answers)])
    case RelayActs(id, e, maxBytes, answers) =>
      if id !in w.remotes || (w.remotes[id].read == [] && !e.ConnectionLost?) then w else
        w.(remotes := w.remotes[id := RC.OnEvent(w.remotes[id], e, maxBytes, answers)])
    case OthersAct(id, buffered, queued) =>
      if id !in w.remotes then w else
        var r := w.remotes[id];
        w.(remotes := w.remotes[id := r.(total := r.total + buffered, peerBytes := r.peerBytes + queued)])
  }

  function Run(w: World, events: seq<Event>): World
    decreases |events|
  {
    if events == [] then w else Run(Next(w, events[0]), events[1..])
  }

  // ---- Each channel on its own ----

  predicate Shows(w: World, id: nat, s: CP.Sys)
    requires id in w.remotes && id in w.heard
  {
    Mirrors(w.trunk, id, s.client) && s.remote == w.remotes[id] && s.client.seen == w.heard[id]
  }

  /** Channel `id` is in the state of some run of the credit protocol. */
  ghost predicate IsRun(w: World, id: nat) {
    id in w.remotes && id in w.heard && exists s: CP.Sys :: CP.Reached(s) && Shows(w, id, s)
  }

  /** The channels with an end at the relay are those that wrote their command. */
  predicate Known(w: World, id: nat) {
    && (id in w.remotes ==> 0 < id <= w.trunk.next)
    && (id in w.trunk.channels ==> (id in w.remotes <==> w.trunk.channels[id].started))
    && (id in w.heard <==> id in w.remotes)
  }

  ghost predicate Inv(w: World) {
    && Sane(w.trunk)
    && (forall id :: Known(w, id) && (id in w.remotes ==> IsRun(w, id)))
  }

  lemma RunOf(w: World, id: nat) returns (s: CP.Sys)
    requires IsRun(w, id)
    ensures CP.Reached(s) && Shows(w, id, s) && CP.Inv(s)
  {
    hide CP.Reached, CP.Inv, Shows;
    s :| CP.Reached(s) && Shows(w, id, s);
    CP.ReachedInv(s);
  }

  lemma Advance(w: World, v: World, id: nat, s: CP.Sys, t: CP.Sys)
    requires IsRun(w, id) && CP.Reached(s) && Shows(w, id, s) && CP.Moves(s, t)
    requires id in v.remotes && id in v.heard && v.remotes[id] == w.remotes[id] && v.heard[id] == w.heard[id]
    requires Mirrors(v.trunk, id, t.client)
    ensures IsRun(v, id)
  {
    hide CP.Reached, CP.Leads, Mirrors;
    CP.ReachedOn(s, t);
    assert Shows(v, id, t);
  }

  // ---- What each event keeps ----

  /** The transport alone moves. */
  predicate OwnStep(e: Event) {
    e.Opens? || e.Sends? || e.Closes? || e.Dialed? || e.Announces? || e.Credits? || e.Fails? || (e.Texts? && !e.command)
  }

  lemma OwnMirrors(w: World, e: Event, id: nat, s: CP.Sys) returns (t: CP.Sys)
    requires OwnStep(e) && Sane(w.trunk) && Mirrors(w.trunk, id, s.client) && 0 < id <= w.trunk.next
    ensures Mirrors(Next(w, e).trunk, id, t.client) && CP.Moves(s, t)
  {
    hide CP.Moves, Mirrors, Sane, OpenTrunk, TextTrunk, DataTrunk, CloseTrunk, AnnounceTrunk, CreditTrunk, FailTrunk;
    t := s;
    CP.StaysPut(s);
    QuietMirrors(w.trunk, id, s);
    match e
    case Texts(id0, command, length, fails) => t := TextMirrors(w.trunk, id0, Fin, length, fails, id, s);
    case Sends(id0, bytes, taken) => t := DataMirrors(w.trunk, id0, bytes, taken, id, s);
    case Closes(id0, fails) => t := CloseMirrors(w.trunk, id0, fails, id, s);
    case Dialed(ok) =>
      if !ok && w.trunk.connection.Handshaking? {
        t := FailMirrors(w.trunk, id, s);
      }
    case Credits(taken) => t := CreditMirrors(w.trunk, taken, id, s);
    case Fails => t := FailMirrors(w.trunk, id, s);
    case _ =>
  }

  lemma OwnSane(w: World, e: Event)
    requires OwnStep(e) && Sane(w.trunk)
    ensures Sane(Next(w, e).trunk)
  {
    hide Sane, OpenTrunk, TextTrunk, DataTrunk, CloseTrunk, AnnounceTrunk, CreditTrunk, DialedTrunk;
    match e
    case Opens => OpenSane(w.trunk);
    case Texts(id0, command, length, fails) => TextSane(w.trunk, id0, Fin, length, fails);
    case Sends(id0, bytes, taken) => DataSane(w.trunk, id0, bytes, taken);
    case Closes(id0, fails) => CloseSane(w.trunk, id0, fails);
    case Dialed(ok) => DialedSane(w.trunk, ok);
    case Announces => AnnounceSane(w.trunk);
    case Credits(taken) => CreditSane(w.trunk, taken);
    case Fails =>
      FailSane(w.trunk, []);
      assert w.trunk.sent + [] == w.trunk.sent;
    case _ =>
  }

  /** No channel is started by anything but its command. */
  lemma OwnKnown(w: World, e: Event, id: nat)
    requires OwnStep(e) && Sane(w.trunk) && Known(w, id)
    ensures Known(Next(w, e), id)
  {
    hide Payloads, Tagged, Windows, Written, PP.Frames;
    assert id in w.trunk.channels ==> Counted(w.trunk, id);
  }

  lemma OwnKeeps(w: World, e: Event)
    requires Inv(w) && OwnStep(e)
    ensures Inv(Next(w, e))
  {
    hide CP.Reached, Mirrors, Sane, CP.Moves, CP.Inv;
    var v := Next(w, e);
    OwnSane(w, e);
    SameEnds(w, e);
    forall id ensures Known(v, id) && (id in v.remotes ==> IsRun(v, id)) {
      assert Known(w, id);
      OwnKnown(w, e, id);
      if id in w.remotes {
        var s := RunOf(w, id);
        var t := OwnMirrors(w, e, id, s);
        Advance(w, v, id, s, t);
      }
    }
  }

  lemma SameEnds(w: World, e: Event)
    requires OwnStep(e)
    ensures Next(w, e).remotes == w.remotes && Next(w, e).heard == w.heard
  {
  }

  lemma CommandKeeps(w: World, id0: nat, length: nat, fails: bool)
    requires Inv(w)
    ensures Inv(Next(w, Texts(id0, true, length, fails)))
  {
    hide CP.Leads, Mirrors, CP.Inv, TextTrunk, Sane;
    var e := Texts(id0, true, length, fails);
    var v := Next(w, e);
    TextSane(w.trunk, id0, Command, length, fails);
    CommandFields(w.trunk, id0, length, fails);
    forall id ensures Known(v, id) && (id in v.remotes ==> IsRun(v, id)) {
      assert Known(w, id) && Known(w, id0);
      if id in w.remotes {
        var s := RunOf(w, id);
        var t := TextMirrors(w.trunk, id0, Command, length, fails, id, s);
        Advance(w, v, id, s, t);
      } else if id in v.remotes {
        var s := CP.Start(0, 0);
        var t := CommandMirrors(w.trunk, id, length, s);
        CP.LeadsHere(s);
        CP.ReachedOn(s, t);
        assert Shows(v, id, t);
      }
    }
  }

  /** Either the command was written and only started its channel, or nothing or everything is gone. */
  lemma CommandFields(t: Trunk, id: nat, length: nat, fails: bool)
    requires Sane(t)
    ensures var u := TextTrunk(t, id, Command, length, fails);
            && u.next == t.next
            && (u.sent != t.sent ==>
                  && MayText(t, id, Command, length) && !fails && id <= t.next && 0 < id
                  && u.channels == t.channels[id := t.channels[id].(started := true)])
            && (u.sent == t.sent ==> u.channels == t.channels || u.channels == map[])
  {
    hide Written;
    assert id in t.channels ==> Counted(t, id);
  }

  lemma HearsKeeps(w: World, id0: nat)
    requires Inv(w)
    ensures Inv(Next(w, Hears(id0)))
  {
    hide CP.Leads, Mirrors, CP.Moves, CP.Inv, Sane, HearTrunk;
    var v := Next(w, Hears(id0));
    if id0 in w.remotes && id0 in w.heard && |w.heard[id0]| < |w.remotes[id0].out| {
      var m := w.remotes[id0].out[|w.heard[id0]|];
      assert Known(w, id0) && IsRun(w, id0);
      var s0 := RunOf(w, id0);
      HearMirrors(w.trunk, id0, s0);
      HearSane(w.trunk, id0, m);
      forall id ensures Known(v, id) && (id in v.remotes ==> IsRun(v, id)) {
        assert Known(w, id);
        HearKnown(w, id0, m, id);
        if id in w.remotes {
          if id == id0 {
            var t := CP.Next(s0, CP.ClientReads);
            CP.LeadsStep(s0, CP.ClientReads);
            CP.ReachedOn(s0, t);
            ReadFields(s0);
            assert Shows(v, id, t);
          } else {
            var s := RunOf(w, id);
            HearsElsewhere(w.trunk, id0, m, id, s);
            CP.StaysPut(s);
            Advance(w, v, id, s, s);
          }
        }
      }
    }
  }

  lemma ReadFields(s: CP.Sys)
    requires |s.client.seen| < |s.remote.out|
    ensures var t := CP.Next(s, CP.ClientReads);
            t.remote == s.remote && t.client.seen == s.client.seen + [s.remote.out[|s.client.seen|]]
  {
  }

  lemma HearKnown(w: World, id0: nat, m: Down, id: nat)
    requires Known(w, id)
    ensures var u := HearTrunk(w.trunk, id0, m);
            u.next == w.trunk.next && (id in u.channels ==> id in w.trunk.channels && u.channels[id].started == w.trunk.channels[id].started)
  {
  }

  /** The event of the credit protocol that an event at the relay is. */
  function AsProtocol(e: Event): CP.Event {
    match e
    case RelayReads(_, maxBytes, answers) => CP.RelayReads(maxBytes, answers)
    case RelayActs(_, event, maxBytes, answers) => CP.RelayActs(event, maxBytes, answers)
    case OthersAct(_, buffered, queued) => CP.OthersAct(buffered, queued)
    case _ => CP.ClientFin
  }

  /** The relay's end of one channel takes a step of the credit protocol. */
  lemma RelayMoves(w: World, e: Event, s: CP.Sys) returns (t: CP.Sys)
    requires (e.RelayReads? || e.RelayActs? || e.OthersAct?) && Next(w, e) != w
    requires e.id in w.remotes && e.id in w.heard && Shows(w, e.id, s)
    ensures CP.Leads(s, t) && Shows(Next(w, e), e.id, t)
  {
    hide CP.Leads, RC.OnMessage, RC.OnEvent, Written;
    var f := AsProtocol(e);
    t := CP.Next(s, f);
    CP.LeadsStep(s, f);
  }

  /** Only the relay's end of one channel changes. */
  lemma RelayFields(w: World, e: Event, id: nat)
    requires e.RelayReads? || e.RelayActs? || e.OthersAct?
    ensures var v := Next(w, e);
            && v.trunk == w.trunk && v.heard == w.heard && v.remotes.Keys == w.remotes.Keys
            && (id in w.remotes && id != e.id ==> v.remotes[id] == w.remotes[id])
  {
    hide RC.OnMessage, RC.OnEvent, Written;
  }

  lemma RelayRunAt(w: World, e: Event, id: nat)
    requires Inv(w) && (e.RelayReads? || e.RelayActs? || e.OthersAct?) && Next(w, e) != w
    ensures Known(Next(w, e), id) && (id in Next(w, e).remotes ==> IsRun(Next(w, e), id))
  {
    hide Inv, Next, CP.Leads, CP.Inv, Mirrors;
    KnownAt(w, id);
    RelayFields(w, e, id);
    if id in w.remotes {
      var s := RunOf(w, id);
      if id == e.id {
        var t := RelayMoves(w, e, s);
        CP.ReachedOn(s, t);
      } else {
        assert Shows(Next(w, e), id, s);
      }
    }
  }

  lemma RelayKeeps(w: World, e: Event)
    requires Inv(w) && (e.RelayReads? || e.RelayActs? || e.OthersAct?)
    ensures Inv(Next(w, e))
  {
    hide Next, Known, IsRun, Sane;
    var v := Next(w, e);
    if v != w {
      RelayFields(w, e, 0);
      forall id ensures Known(v, id) && (id in v.remotes ==> IsRun(v, id)) {
        RelayRunAt(w, e, id);
      }
    }
  }

  lemma StepKeeps(w: World, e: Event)
    requires Inv(w)
    ensures Inv(Next(w, e))
  {
    hide Inv, Next;
    if OwnStep(e) {
      OwnKeeps(w, e);
    } else {
      match e
      case Texts(id, command, length, fails) => CommandKeeps(w, id, length, fails);
      case Hears(id) => HearsKeeps(w, id);
      case _ => RelayKeeps(w, e);
    }
  }

  lemma {:induction false} RunKeeps(w: World, events: seq<Event>)
    requires Inv(w)
    ensures Inv(Run(w, events))
    decreases |events|
  {
    hide Inv, Next;
    if events != [] {
      StepKeeps(w, events[0]);
      RunKeeps(Next(w, events[0]), events[1..]);
    }
  }

  lemma QuietInv()
    ensures Inv(QUIET)
  {
    assert Pendings(map[]) == map[];
  }

  // ---- Over whole runs ----

  /**
   In every run every channel that wrote its command is, with the relay's end of it, in a
   state of the credit protocol, and the relay never gives the transport cause to end the
   connection.
   */
  lemma EveryChannelIsARun(events: seq<Event>)
    ensures var w := Run(QUIET, events);
            && (forall id :: id in w.trunk.channels && w.trunk.channels[id].started ==> id in w.remotes)
            && (forall id :: id in w.remotes ==> IsRun(w, id))
            && (forall id :: id in w.remotes && id in w.heard && |w.heard[id]| < |w.remotes[id].out|
                             && id in w.trunk.channels ==>
                  !Breach(w.trunk.channels[id], w.remotes[id].out[|w.heard[id]|]))
  {
    hide Run, Sane, IsRun;
    QuietInv();
    RunKeeps(QUIET, events);
    var w := Run(QUIET, events);
    assert forall id :: Known(w, id);
    forall id | id in w.remotes && id in w.heard && |w.heard[id]| < |w.remotes[id].out| && id in w.trunk.channels
      ensures !Breach(w.trunk.channels[id], w.remotes[id].out[|w.heard[id]|])
    {
      GoodWire(w, id);
    }
  }

  lemma GoodWire(w: World, id: nat)
    requires IsRun(w, id) && |w.heard[id]| < |w.remotes[id].out| && id in w.trunk.channels
    ensures !Breach(w.trunk.channels[id], w.remotes[id].out[|w.heard[id]|])
  {
    hide CP.Leads, CP.Inv, Mirrors;
    var s := RunOf(w, id);
    HearMirrors(w.trunk, id, s);
  }

  /**
   In every run, what the transport counts as pending on a channel is on the wire, held
   by the relay, acknowledged on the wire, or was dropped by the relay.
   */
  lemma PendingIsSomewhere(events: seq<Event>, id: nat)
    ensures var w := Run(QUIET, events);
            id in w.remotes && id in w.heard && id in w.trunk.channels && !w.remotes[id].ch.dead ==>
              w.trunk.channels[id].pending
              == (|PayloadBytes(Written(w.trunk.sent, id))| - |PayloadBytes(w.remotes[id].read)|)
                 + w.remotes[id].ch.incoming + (AckBytes(w.remotes[id].out) - AckBytes(w.heard[id])) + w.remotes[id].lost
  {
    hide Run, Inv, IsRun;
    QuietInv();
    RunKeeps(QUIET, events);
    var w := Run(QUIET, events);
    if id in w.remotes && id in w.heard && id in w.trunk.channels && !w.remotes[id].ch.dead {
      RunAt(w, id);
      PendingAt(w, id);
    }
  }

  lemma RunAt(w: World, id: nat)
    requires Inv(w) && id in w.remotes
    ensures IsRun(w, id)
  {
    assert Known(w, id);
  }

  lemma PendingAt(w: World, id: nat)
    requires IsRun(w, id) && id in w.trunk.channels && !w.remotes[id].ch.dead
    ensures w.trunk.channels[id].pending
         == (|PayloadBytes(Written(w.trunk.sent, id))| - |PayloadBytes(w.remotes[id].read)|)
            + w.remotes[id].ch.incoming + (AckBytes(w.remotes[id].out) - AckBytes(w.heard[id])) + w.remotes[id].lost
  {
    hide CP.Leads, CP.Inv, Written, FrameBytes, AckBytes, PayloadBytes, WindowBytes;
    var s := RunOf(w, id);
    CP.InvConserves(s);
    assert s.client.up + [] == s.client.up;
  }

  // ---- Both streams ----

  /** The relay ends channel `id`'s flow for being quiet after FIN, with a download still waiting for quota. */
  predicate CutsOffNow(w: World, e: Event, id: nat) {
    e.RelayActs? && e.id == id && id in w.remotes && w.remotes[id].read != [] && RE.CutsOff(w.remotes[id], e.event)
  }

  predicate EverCutsOff(w: World, events: seq<Event>, id: nat)
    decreases |events|
  {
    events != [] && (CutsOffNow(w, events[0], id) || EverCutsOff(Next(w, events[0]), events[1..], id))
  }

  predicate IsCutOff(w: World, id: nat) {
    id in w.remotes && RE.CutOff(w.remotes[id])
  }

  lemma CutStep(w: World, e: Event, id: nat)
    requires Inv(w)
    ensures IsCutOff(Next(w, e), id) <==> IsCutOff(w, id) || CutsOffNow(w, e, id)
  {
    hide RE.CutOff, RE.CutsOff, RC.OnMessage, RC.OnEvent, Sane, Mirrors, CP.Reached, Written;
    assert Known(w, id);
    if e.RelayReads? || e.RelayActs? || e.OthersAct? {
      RelayCuts(w, e, id);
    } else if e.Texts? && e.command {
      CommandFields(w.trunk, e.id, e.length, e.fails);
      assert Known(w, e.id);
      NothingOffered();
    }
  }

  lemma NothingOffered()
    ensures !RE.CutOff(RC.Unopened(0, 0))
  {
  }

  /** At the relay's end an event is the protocol's event. */
  lemma SameStep(w: World, e: Event, s: CP.Sys)
    requires (e.RelayReads? || e.RelayActs? || e.OthersAct?) && e.id in w.remotes && e.id in w.heard && Shows(w, e.id, s)
    ensures e.id in Next(w, e).remotes && Next(w, e).remotes[e.id] == CP.Next(s, AsProtocol(e)).remote
    ensures CutsOffNow(w, e, e.id) == CP.CutsOffNow(s, AsProtocol(e))
  {
    hide RE.CutsOff, RC.OnMessage, RC.OnEvent, Written;
  }

  lemma RelayCuts(w: World, e: Event, id: nat)
    requires Inv(w) && (e.RelayReads? || e.RelayActs? || e.OthersAct?)
    ensures IsCutOff(Next(w, e), id) <==> IsCutOff(w, id) || CutsOffNow(w, e, id)
  {
    hide Inv, Next, CP.Next, CutsOffNow, CP.CutsOffNow, RE.CutOff, Shows, CP.Inv, CP.Reached;
    KnownAt(w, id);
    if e.id == id && id in w.remotes {
      var s := RunOf(w, id);
      SameStep(w, e, s);
      CP.CutStep(s, AsProtocol(e));
      CutOffIs(w, id, s);
    } else {
      ElsewhereCuts(w, e, id);
    }
  }

  lemma KnownAt(w: World, id: nat)
    requires Inv(w)
    ensures Known(w, id) && (id in w.remotes ==> IsRun(w, id))
  {
  }

  lemma ElsewhereCuts(w: World, e: Event, id: nat)
    requires (e.RelayReads? || e.RelayActs? || e.OthersAct?) && (e.id != id || id !in w.remotes)
    ensures IsCutOff(Next(w, e), id) == IsCutOff(w, id) && !CutsOffNow(w, e, id)
  {
    hide RE.CutOff, RE.CutsOff, RC.OnMessage, RC.OnEvent, Written;
  }

  lemma CutOffIs(w: World, id: nat, s: CP.Sys)
    requires id in w.remotes && id in w.heard && Shows(w, id, s)
    ensures IsCutOff(w, id) == RE.CutOff(s.remote)
  {
    hide RE.CutOff;
  }

  lemma {:induction false} CutRun(w: World, events: seq<Event>, id: nat)
    requires Inv(w)
    ensures IsCutOff(Run(w, events), id) <==> IsCutOff(w, id) || EverCutsOff(w, events, id)
    decreases |events|
  {
    hide Inv, Next, CutsOffNow, IsCutOff;
    if events != [] {
      CutStep(w, events[0], id);
      StepKeeps(w, events[0]);
      CutRun(Next(w, events[0]), events[1..], id);
    }
  }

  /**
   In every run and for every channel, TCP is given what the transport wrote, in order
   and without gaps from the first byte after admission; what the transport read is in
   order a prefix of what the relay was given to send; and a channel that read EOF read
   every byte TCP delivered if and only if its flow was not ended for being quiet after
   FIN while a download waited for quota.
   */
  lemma StreamsThroughTheTransport(events: seq<Event>, id: nat)
    ensures var w := Run(QUIET, events);
            id in w.remotes && id in w.heard ==>
              var r := w.remotes[id];
              && r.early + r.tcp <= PayloadBytes(Written(w.trunk.sent, id))
              && DownTokens(w.heard[id]) <= r.offered && RL.TokenBytes(r.offered) <= r.arrived
              && (Line(Eof) in w.heard[id] ==>
                    && DownTokens(w.heard[id]) == r.offered
                    && (FrameBytes(w.heard[id]) == r.arrived <==> !EverCutsOff(QUIET, events, id)))
  {
    hide Run, PayloadBytes, DownTokens, FrameBytes, RL.TokenBytes, Inv, RE.CutOff, EverCutsOff, IsRun;
    QuietInv();
    RunKeeps(QUIET, events);
    CutRun(QUIET, events, id);
    var w := Run(QUIET, events);
    if id in w.remotes && id in w.heard {
      RunAt(w, id);
      StreamsAt(w, id);
    }
  }

  lemma StreamsAt(w: World, id: nat)
    requires IsRun(w, id)
    ensures var r := w.remotes[id];
            && r.early + r.tcp <= PayloadBytes(Written(w.trunk.sent, id))
            && DownTokens(w.heard[id]) <= r.offered && RL.TokenBytes(r.offered) <= r.arrived
            && (Line(Eof) in w.heard[id] ==>
                  && DownTokens(w.heard[id]) == r.offered
                  && (FrameBytes(w.heard[id]) == r.arrived <==> !RE.CutOff(r)))
  {
    hide PayloadBytes, DownTokens, FrameBytes, RL.TokenBytes, Written, CP.Run, CP.Inv, RE.CutOff;
    var s := RunOf(w, id);
    var total, peerBytes :| CP.Leads(CP.Start(total, peerBytes), s);
    var trace :| CP.Run(CP.Start(total, peerBytes), trace) == s;
    CP.StreamsAreInOrder(total, peerBytes, trace);
    CP.EofAt(s);
  }

  // ---- The order of commands ----

  /** The event writes the channel's command. */
  predicate Commands(w: World, e: Event) {
    e.Texts? && e.command && !e.fails && w.trunk.connection.Live? && MayText(w.trunk, e.id, Command, e.length)
  }

  /** A command is written when a channel with a higher id has written its own. */
  predicate Overtakes(w: World, e: Event) {
    Commands(w, e) && exists other :: other in w.remotes && other > e.id
  }

  predicate EverOvertakes(w: World, events: seq<Event>)
    decreases |events|
  {
    events != [] && (Overtakes(w, events[0]) || EverOvertakes(Next(w, events[0]), events[1..]))
  }

  /** While commands rise, the last one written is the highest there is. */
  predicate LastIsTop(w: World) {
    Rising(w.trunk.sent, 0) ==>
      var last := LastId(w.trunk.sent, 0);
      (last > 0 ==> last in w.remotes) && forall id :: id in w.remotes ==> id <= last
  }

  lemma CommandRises(w: World, e: Event)
    requires Inv(w) && LastIsTop(w) && Commands(w, e)
    ensures LastIsTop(Next(w, e))
    ensures Rising(Next(w, e).trunk.sent, 0) <==> Rising(w.trunk.sent, 0) && !Overtakes(w, e)
  {
    hide Rising, LastId, Sane, IsRun;
    var sent, last := w.trunk.sent, LastId(w.trunk.sent, 0);
    assert Known(w, e.id);
    assert Next(w, e).trunk.sent == sent + [(e.id, Command)] && Next(w, e).remotes.Keys == w.remotes.Keys + {e.id};
    RisingConcat(sent, [(e.id, Command)], 0);
    RisingOne(e.id, Command, last);
    IsPositive(w.trunk, e.id);
    if Rising(sent, 0) && e.id < last {
      assert last in w.remotes;
    }
  }

  lemma IsPositive(t: Trunk, id: nat)
    requires Sane(t) && id in t.channels
    ensures 0 < id
  {
    assert Counted(t, id);
  }

  lemma DataMore(t: Trunk, id: nat, bytes: seq<byte>, taken: nat) returns (more: seq<(nat, Up)>)
    ensures DataTrunk(t, id, bytes, taken).sent == t.sent + more && NoCommand(more)
  {
    hide Payloads, PP.Frames;
    var frames := PP.Frames(bytes);
    more := [];
    if MayData(t, id, |bytes|) {
      var written := if |frames| <= taken then frames else frames[..taken];
      NoCommandInFrames(id, written);
      more := Tagged(id, Payloads(written));
    }
  }

  lemma CreditMore(t: Trunk, taken: nat) returns (more: seq<(nat, Up)>)
    ensures CreditTrunk(t, taken).sent == t.sent + more && NoCommand(more)
  {
    hide Windows;
    var all := Windows(t.channels, t.next);
    NoCommandInWindows(t.channels, t.next);
    more := if !t.connection.Live? then [] else if |all| <= taken then all else all[..taken];
  }

  /** What anything else writes holds no command. */
  lemma OtherSends(w: World, e: Event) returns (more: seq<(nat, Up)>)
    requires !Commands(w, e)
    ensures Next(w, e).trunk.sent == w.trunk.sent + more && NoCommand(more)
    ensures Next(w, e).remotes.Keys == w.remotes.Keys
  {
    hide RC.OnMessage, RC.OnEvent, Written, DataTrunk, CreditTrunk;
    more := [];
    match e
    case Sends(id, bytes, taken) => more := DataMore(w.trunk, id, bytes, taken);
    case Credits(taken) => more := CreditMore(w.trunk, taken);
    case Texts(id, command, length, fails) =>
      more := TextMore(w.trunk, id, LineOf(command), length, fails);
    case Closes(id, fails) =>
      if id in w.trunk.channels && w.trunk.channels[id].started && w.trunk.connection.Live? && !fails {
        more := [(id, Shut)];
      }
    case _ =>
  }

  lemma TextMore(t: Trunk, id: nat, m: Up, length: nat, fails: bool) returns (more: seq<(nat, Up)>)
    ensures TextTrunk(t, id, m, length, fails).sent == t.sent + more
    ensures more == if MayText(t, id, m, length) && t.connection.Live? && !fails then [(id, m)] else []
  {
    more := if MayText(t, id, m, length) && t.connection.Live? && !fails then [(id, m)] else [];
  }

  lemma {:induction false} NoCommandInFrames(id: nat, frames: seq<seq<byte>>)
    ensures NoCommand(Tagged(id, Payloads(frames)))
  {
    if frames != [] {
      var rest, last := frames[..|frames| - 1], frames[|frames| - 1];
      NoCommandInFrames(id, rest);
      assert forall i :: 0 <= i < |Payloads(rest)| ==> Tagged(id, Payloads(rest))[i].1 == Payloads(rest)[i];
    }
  }

  lemma {:induction false} NoCommandInWindows(channels: map<nat, Half>, n: nat)
    ensures NoCommand(Windows(channels, n))
  {
    if n > 0 {
      NoCommandInWindows(channels, n - 1);
    }
  }

  lemma RiseStep(w: World, e: Event)
    requires Inv(w) && LastIsTop(w)
    ensures LastIsTop(Next(w, e))
    ensures Rising(Next(w, e).trunk.sent, 0) <==> Rising(w.trunk.sent, 0) && !Overtakes(w, e)
  {
    hide Rising, LastId, Inv, Next, Commands;
    if Commands(w, e) {
      CommandRises(w, e);
    } else {
      var more := OtherSends(w, e);
      RisingConcat(w.trunk.sent, more, 0);
      RisingQuietly(more, LastId(w.trunk.sent, 0));
    }
  }

  lemma {:induction false} RiseRun(w: World, events: seq<Event>)
    requires Inv(w) && LastIsTop(w)
    ensures Rising(Run(w, events).trunk.sent, 0) <==> Rising(w.trunk.sent, 0) && !EverOvertakes(w, events)
    decreases |events|
  {
    hide Rising, Inv, Next, Overtakes, LastIsTop;
    if events != [] {
      RiseStep(w, events[0]);
      StepKeeps(w, events[0]);
      RiseRun(Next(w, events[0]), events[1..]);
    }
  }

  /**
   In every run commands are written in the order of their ids, as the relay demands, if
   and only if no channel writes its command after one with a higher id did.
   */
  lemma CommandsRise(events: seq<Event>)
    ensures Rising(Run(QUIET, events).trunk.sent, 0) <==> !EverOvertakes(QUIET, events)
  {
    hide Run, EverOvertakes, Inv;
    QuietInv();
    RiseRun(QUIET, events);
  }

  // ---- A poll is such a run ----

  lemma {:induction false} RunConcat(w: World, before: seq<Event>, events: seq<Event>)
    ensures Run(w, before + events) == Run(Run(w, before), events)
    decreases |before|
  {
    hide Next;
    if before == [] {
      assert before + events == events;
    } else {
      assert (before + events)[0] == before[0] && (before + events)[1..] == before[1..] + events;
      RunConcat(Next(w, before[0]), before[1..], events);
    }
  }

  lemma RunOne(w: World, e: Event)
    ensures Run(w, [e]) == Next(w, e)
  {
    hide Next;
    assert [e][1..] == [];
  }

  /** The messages are the next ones of these channels, one after the other. */
  predicate Delivered(w: World, ids: seq<nat>, messages: seq<(nat, Down)>)
    decreases |ids|
  {
    if ids == [] then messages == [] else
      && messages != []
      && ids[0] in w.remotes && ids[0] in w.heard && |w.heard[ids[0]]| < |w.remotes[ids[0]].out|
      && messages[0] == (ids[0], w.remotes[ids[0]].out[|w.heard[ids[0]]|])
      && Delivered(Next(w, Hears(ids[0])), ids[1..], messages[1..])
  }

  lemma {:induction false} HearingIsARun(w: World, ids: seq<nat>, messages: seq<(nat, Down)>) returns (events: seq<Event>)
    requires Delivered(w, ids, messages)
    ensures Run(w, events).trunk == HearAll(w.trunk, messages)
    decreases |ids|
  {
    hide HearTrunk, Run;
    if ids == [] || !w.trunk.connection.Live? {
      events := [];
      assert Run(w, []) == w by { RunNone(w); }
    } else {
      var v := Next(w, Hears(ids[0]));
      var rest := HearingIsARun(v, ids[1..], messages[1..]);
      RunOne(w, Hears(ids[0]));
      RunConcat(w, [Hears(ids[0])], rest);
      events := [Hears(ids[0])] + rest;
    }
  }

  lemma RunNone(w: World)
    ensures Run(w, []) == w
  {
  }

  /** One more event, or none. */
  lemma Append(w: World, events: seq<Event>, e: Event, now: bool) returns (more: seq<Event>)
    ensures Run(w, more) == if now then Next(Run(w, events), e) else Run(w, events)
  {
    hide Run, Next;
    more := events;
    if now {
      RunOne(Run(w, events), e);
      RunConcat(w, events, [e]);
      more := events + [e];
    }
  }

  /** A poll is a run: the socket arrives, channels are announced, messages read, credit given back. */
  lemma PollIsARun(w: World, a: Polled, ids: seq<nat>) returns (events: seq<Event>)
    requires Delivered(w.(trunk := AnnounceTrunk(if a.dialed == Some(true) then DialedTrunk(w.trunk, true) else w.trunk)),
                       ids, a.messages)
    ensures Run(w, events).trunk == PollTrunk(w.trunk, a)
  {
    hide HearAll, AnnounceTrunk, CreditTrunk, FailTrunk, HearTrunk, Run, Delivered;
    events := [];
    RunNone(w);
    if w.trunk.connection.Handshaking? && a.dialed.None? {
      return;
    }
    events := Append(w, [], Dialed(a.dialed.Some? && a.dialed.value), a.dialed.Some?);
    var v := Run(w, events);
    if !v.trunk.connection.Live? {
      return;
    }
    if !a.flushes {
      events := Append(w, events, Fails, true);
      return;
    }
    events := Append(w, events, Announces, true);
    StillDelivered(w, a, ids);
    var heard := HearingIsARun(Run(w, events), ids, a.messages);
    RunConcat(w, events, heard);
    events := Append(w, events + heard, Fails, a.readFails);
    events := Append(w, events, Credits(a.taken), true);
    events := Append(w, events, Fails, a.ends);
  }

  lemma StillDelivered(w: World, a: Polled, ids: seq<nat>)
    requires Delivered(w.(trunk := AnnounceTrunk(if a.dialed == Some(true) then DialedTrunk(w.trunk, true) else w.trunk)),
                       ids, a.messages)
    ensures var v := if a.dialed.Some? then Next(w, Dialed(a.dialed.value)) else w;
            v.trunk.connection.Live? ==> Delivered(Next(v, Announces), ids, a.messages)
  {
    hide AnnounceTrunk, Delivered;
  }
}
