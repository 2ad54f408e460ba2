/** Concrete runs that show where the relay's guarantees end. */
module CreditExamples {
  import opened Bytes
  import opened MuxProtocol
  import opened RelayChannel
  import opened RelayLaws
  import opened RelayBuffers
  import opened CreditProtocol
  import opened Trap
  import RP = RelayProcess

  const TAKES_ALL := Answer(Yes, MUX_FRAME, true, Socket(9, false), Socket(9, false))

  function Willing(): nat -> Answer {
    _ => TAKES_ALL
  }

  /** The client opens, and sends one byte that is read before the flow is admitted. */
  function Early(): Sys {
    Run(Start(0, 0), [ClientFlushes(1), RelayReads(100, Willing()), ClientSends([1]), ClientFlushes(1),
                   RelayReads(100, Willing())])
  }

  /** Then the flow is admitted and connects. */
  function Joined(): Sys {
    Next(Next(Early(), RelayActs(Admitted(true), 100, Willing())), RelayActs(Connected, 100, Willing()))
  }

  /** The client sends a second byte. */
  function Skipped(): Sys {
    Next(Next(Next(Joined(), ClientSends([2])), ClientFlushes(1)), RelayReads(100, Willing()))
  }

  /** The client once its first byte is written, and the relay's end once that was read. */
  function EarlyClient(): Client {
    Client(true, 1, 0, [], [Command, Payload([1])], [])
  }

  function EarlyRemote(): Remote {
    ASKED.(read := [Command, Payload([1])], early := [1], lost := 1)
  }

  lemma EarlyState()
    ensures Early() == Sys(EarlyClient(), EarlyRemote())
  {
    hide Next, OnMessage;
    var e := [ClientFlushes(1), RelayReads(100, Willing()), ClientSends([1]), ClientFlushes(1), RelayReads(100, Willing())];
    var c := Client(true, 0, 0, [], [Command], []);
    var d := c.(outstanding := 1, queue := [Payload([1])]);
    Cons(Start(0, 0), e[0], [e[1], e[2], e[3], e[4]]);
    assert Next(Start(0, 0), e[0]) == Sys(c, Unopened(0, 0)) by { FlushesAll(FRESH_CLIENT, Unopened(0, 0)); }
    Cons(Sys(c, Unopened(0, 0)), e[1], [e[2], e[3], e[4]]);
    assert Next(Sys(c, Unopened(0, 0)), e[1]) == Sys(c, ASKED) by { Asks(Unopened(0, 0), 100); ReadsNext(Sys(c, Unopened(0, 0))); }
    Cons(Sys(c, ASKED), e[2], [e[3], e[4]]);
    assert Next(Sys(c, ASKED), e[2]) == Sys(d, ASKED) by { SendsFrame(c, ASKED, [1]); }
    Cons(Sys(d, ASKED), e[3], [e[4]]);
    assert Next(Sys(d, ASKED), e[3]) == Sys(EarlyClient(), ASKED) by {
      FlushesAll(d, ASKED);
      assert [Command] + [Payload([1])] == [Command, Payload([1])];
    }
    Cons(Sys(EarlyClient(), ASKED), e[4], []);
    assert Next(Sys(EarlyClient(), ASKED), e[4]) == Sys(EarlyClient(), EarlyRemote()) by {
      ReadsNext(Sys(EarlyClient(), ASKED));
      DropsEarly(ASKED, [1]);
      assert [Command] + [Payload([1])] == [Command, Payload([1])];
    }
  }

  lemma SendsFrame(c: Client, r: Remote, bytes: seq<byte>)
    requires MaySend(c, bytes) && c.queue == []
    ensures Next(Sys(c, r), ClientSends(bytes)) == Sys(c.(outstanding := c.outstanding + |bytes|, queue := [Payload(bytes)]), r)
  {
    assert [] + [Payload(bytes)] == [Payload(bytes)];
  }

  lemma DropsEarly(s: Remote, bytes: seq<byte>)
    requires TooEarly(s) && s.read != [] && s.early == [] && s.lost == 0
    ensures OnMessage(s, Payload(bytes), 100, Willing())
         == s.(read := s.read + [Payload(bytes)], early := bytes, lost := |bytes|)
  {
    hide Enqueue, Abort;
    assert [] + bytes == bytes;
  }

  lemma JoinedState()
    ensures Joined() == Sys(EarlyClient(), EarlyRemote().(flow := Some(FRESH_FLOW.(phase := Open)),
                                                          out := [Line(Okay)], offered := [Text(Okay)]))
  {
    hide Early, Next, OnEvent;
    EarlyState();
    var s := EarlyRemote().(flow := Some(FRESH_FLOW));
    ActsNow(EarlyClient(), EarlyRemote(), Admitted(true), Willing());
    Admits(EarlyRemote());
    ActsNow(EarlyClient(), s, Connected, Willing());
    Greeted(s);
    assert [] + [Line(Okay)] == [Line(Okay)] && [] + [Text(Okay)] == [Text(Okay)];
  }

  lemma Admits(s: Remote)
    requires s.flow.None? && !s.ch.closing && !s.ch.dead
    ensures OnEvent(s, Admitted(true), 100, Willing()) == s.(flow := Some(FRESH_FLOW))
  {
  }

  /** With nothing in the way, a frame goes straight through to TCP. */
  lemma GoesThrough(s: Remote, bytes: seq<byte>)
    requires s.flow == Some(FRESH_FLOW.(phase := Open)) && s.total == 0 && 0 < |bytes| <= 100
    requires !s.ch.dead && !s.ch.closing && s.ch.incoming == 0
    ensures Receive(s, bytes, 100, Willing()).tcp == s.tcp + bytes
  {
    hide Acknowledge, SendText, SendBinary, Abort, Finish, PushBacklog, UnshiftBacklog, CompletePeer;
    var t := s.(ch := s.ch.(incoming := |bytes|), received := s.received + bytes);
    var item := Charge(bytes, true);
    var f := FRESH_FLOW.(phase := Open, bytes := |bytes|, buffered := |bytes|, pending := [item]);
    var u := t.(flow := Some(f), total := |bytes|);
    assert [] + [item] == [item];
    assert Receive(s, bytes, 100, Willing()) == DrainQuota(u, 1, Willing());
    Written(u, bytes);
  }

  lemma Written(u: Remote, bytes: seq<byte>)
    requires u.flow == Some(FRESH_FLOW.(phase := Open, bytes := |bytes|, buffered := |bytes|, pending := [Charge(bytes, true)]))
    requires 0 < |bytes| <= 100
    ensures DrainQuota(u, 1, Willing()).tcp == u.tcp + bytes
  {
    hide SendText, SendBinary, Abort, Finish, PushBacklog, UnshiftBacklog;
    var a := Clamp(TAKES_ALL, |bytes|);
    assert a.wrote == |bytes| && bytes[..a.wrote] == bytes;
    var v := ForwardCharged(u, a);
    assert v.tcp == u.tcp + bytes;
    assert v.Live() && v.flow.value.pending == [];
    assert CompletePeer(v, Willing()(2)) == v;
  }

  lemma TwoPayloads()
    ensures PayloadBytes([Command, Payload([1]), Payload([2])]) == [1, 2]
  {
    UpSnoc([Command, Payload([1])], Payload([2]));
    UpSnoc([Command], Payload([1]));
    assert [Command] + [Payload([1])] == [Command, Payload([1])];
    assert [Command, Payload([1])] + [Payload([2])] == [Command, Payload([1]), Payload([2])];
    assert PayloadBytes([Command]) == [];
  }

  /** From the connected state, the second byte goes out, is read and written. */
  lemma SecondByte(c: Client, r: Remote)
    requires c == EarlyClient() && r.read == c.up && r.flow == Some(FRESH_FLOW.(phase := Open)) && r.total == 0
    requires r.ch == FRESH_CHANNEL && r.tcp == []
    ensures var s := Next(Next(Next(Sys(c, r), ClientSends([2])), ClientFlushes(1)), RelayReads(100, Willing()));
            s.client.up == [Command, Payload([1]), Payload([2])] && s.remote.tcp == [2]
  {
    hide Next, OnMessage, Receive;
    var up := [Command, Payload([1]), Payload([2])];
    SendsFrame(c, r, [2]);
    FlushesAll(c.(outstanding := 2, queue := [Payload([2])]), r);
    assert [Command, Payload([1])] + [Payload([2])] == up;
    var d := Sys(c.(outstanding := 2, up := up), r);
    ReadsNext(d);
    ReadsFrame(r, [2]);
    GoesThrough(r.(read := up), [2]);
    assert [] + [2] == [2];
  }

  /** TCP gets the second byte without the first: a prefix only if nothing came early. */
  lemma EarlyByteIsSkipped()
    ensures PayloadBytes(Skipped().client.up) == [1, 2] && Skipped().remote.tcp == [2]
  {
    hide Joined, Next, PayloadBytes;
    JoinedState();
    SecondByte(EarlyClient(), Joined().remote);
    TwoPayloads();
  }

  lemma ReadsFrame(s: Remote, bytes: seq<byte>)
    requires s.read != []
    ensures OnMessage(s, Payload(bytes), 100, Willing()) == Receive(s.(read := s.read + [Payload(bytes)]), bytes, 100, Willing())
  {
    hide Receive;
  }

  // ---- An EOF before the last byte ----

  /** The quota service takes its time. */
  function Waits(): nat -> Answer {
    _ => TAKES_ALL.(verdict := Later)
  }

  /** The channel opens, is admitted and connects. */
  function Opening(): seq<Event> {
    [ClientFlushes(1), RelayReads(100, Willing()), RelayActs(Admitted(true), 100, Willing()),
     RelayActs(Connected, 100, Willing())]
  }

  /** The client has nothing more to send. */
  function Finning(): seq<Event> {
    [ClientFin, ClientFlushes(1), RelayReads(100, Willing())]
  }

  /** TCP delivers a byte that waits for quota; the flow is swept as quiet; the client reads what there is. */
  function Sweeping(): seq<Event> {
    [RelayActs(TcpData([7]), 100, Waits()), RelayActs(QuietAfterFin, 100, Willing()), ClientReads, ClientReads]
  }

  lemma Cons(s: Sys, e: Event, rest: seq<Event>)
    ensures Run(s, [e] + rest) == Run(Next(s, e), rest)
  {
    hide Next;
    assert ([e] + rest)[1..] == rest;
  }

  lemma OpeningState()
    ensures Run(Start(0, 0), Opening()) == Sys(Client(true, 0, 0, [], [Command], []), Greeting())
  {
    hide Next, OnMessage, OnEvent;
    var e := Opening();
    var c := Client(true, 0, 0, [], [Command], []);
    Cons(Start(0, 0), e[0], [e[1], e[2], e[3]]);
    assert Next(Start(0, 0), e[0]) == Sys(c, Unopened(0, 0)) by { FlushesAll(FRESH_CLIENT, Unopened(0, 0)); }
    Cons(Sys(c, Unopened(0, 0)), e[1], [e[2], e[3]]);
    assert Next(Sys(c, Unopened(0, 0)), e[1]) == Sys(c, ASKED) by { Asks(Unopened(0, 0), 100); ReadsNext(Sys(c, Unopened(0, 0))); }
    var s := ASKED.(flow := Some(FRESH_FLOW));
    Cons(Sys(c, ASKED), e[2], [e[3]]);
    assert Next(Sys(c, ASKED), e[2]) == Sys(c, s) by { ActsNow(c, ASKED, Admitted(true), Willing()); Admits(ASKED); }
    Cons(Sys(c, s), e[3], []);
    assert Next(Sys(c, s), e[3]) == Sys(c, Greeting()) by {
      Greeted(s);
      assert [] + [Line(Okay)] == [Line(Okay)] && [] + [Text(Okay)] == [Text(Okay)];
      ActsNow(c, s, Connected, Willing());
    }
  }

  lemma FlushesAll(c: Client, r: Remote)
    requires |c.queue| == 1
    ensures Next(Sys(c, r), ClientFlushes(1)) == Sys(c.(queue := [], up := c.up + c.queue), r)
  {
    assert c.queue[..1] == c.queue;
  }

  lemma ReadsNext(s: Sys)
    requires Readable(s)
    ensures Next(s, RelayReads(100, Willing()))
         == s.(remote := OnMessage(s.remote, s.client.up[|s.remote.read|], 100, Willing()))
  {
    hide OnMessage;
  }

  lemma ActsNow(c: Client, r: Remote, e: RelayEvent, answers: nat -> Answer)
    requires r.read != []
    ensures Next(Sys(c, r), RelayActs(e, 100, answers)) == Sys(c, OnEvent(r, e, 100, answers))
  {
    hide OnEvent;
  }

  /** The channel once it has its FIN. */
  function Finned(): Remote {
    Greeting().(read := [Command, Fin], flow := Some(FRESH_FLOW.(phase := Open, fin := true)))
  }

  lemma FinningState()
    ensures Run(Run(Start(0, 0), Opening()), Finning()) == Sys(Client(true, 0, 0, [], [Command, Fin], []), Finned())
  {
    hide Next, OnMessage, Opening;
    OpeningState();
    var e := Finning();
    var c := Client(true, 0, 0, [], [Command], []);
    var d := c.(up := [Command, Fin]);
    var s := Sys(c, Greeting());
    Cons(s, e[0], [e[1], e[2]]);
    assert Next(s, e[0]) == Sys(c.(queue := [Fin]), Greeting()) by { SaysFin(c, Greeting()); }
    Cons(Sys(c.(queue := [Fin]), Greeting()), e[1], [e[2]]);
    assert Next(Sys(c.(queue := [Fin]), Greeting()), e[1]) == Sys(d, Greeting()) by {
      FlushesAll(c.(queue := [Fin]), Greeting());
      assert [Command] + [Fin] == [Command, Fin];
    }
    Cons(Sys(d, Greeting()), e[2], []);
    assert Next(Sys(d, Greeting()), e[2]) == Sys(d, Finned()) by {
      ReadsNext(Sys(d, Greeting()));
      ReadsFin(Greeting());
      assert [Command] + [Fin] == [Command, Fin];
    }
  }

  lemma SaysFin(c: Client, r: Remote)
    requires c.live && c.queue == []
    ensures Next(Sys(c, r), ClientFin) == Sys(c.(queue := [Fin]), r)
  {
    assert [] + [Fin] == [Fin];
  }

  lemma ReadsFin(r: Remote)
    requires r.Live() && r.read != []
    ensures OnMessage(r, Fin, 100, Willing()) == r.(read := r.read + [Fin], flow := Some(r.flow.value.(fin := true)))
  {
  }

  /** With the byte waiting for quota. */
  function Holding(): Remote {
    Finned().(arrived := [7], total := 1,
              flow := Some(FRESH_FLOW.(phase := Open, fin := true, bytes := 1, buffered := 1, charging := true,
                                       pending := [Charge([7], false)])))
  }

  /** A download of a flow that has none waits for its verdict. */
  lemma HeldBack(s: Remote, bytes: seq<byte>)
    requires s.Live() && s.flow.value.phase == Open && s.flow.value.pending == [] && !s.flow.value.charging
    requires bytes != [] && s.flow.value.bytes + |bytes| <= 100 && HasRoom(s, |bytes|)
    ensures OnEvent(s, TcpData(bytes), 100, Waits())
         == s.(arrived := s.arrived + bytes, total := s.total + |bytes|,
               flow := Some(s.flow.value.(bytes := s.flow.value.bytes + |bytes|, buffered := s.flow.value.buffered + |bytes|,
                                          charging := true, pending := [Charge(bytes, false)])))
  {
    hide SendText, Close, DrainBacklog, CompletePeer, ForwardCharged, Finish, Drain, Stop, Abort, Extends;
    assert s.flow.value.pending + [Charge(bytes, false)] == [Charge(bytes, false)];
    assert Enqueue(s, bytes, false, 100, Waits()) == DrainQuota(Pended(s, bytes, false).(arrived := s.arrived + bytes), 1, Waits());
  }

  lemma HoldingState()
    ensures OnEvent(Finned(), TcpData([7]), 100, Waits()) == Holding()
  {
    hide OnEvent;
    HeldBack(Finned(), [7]);
    assert [] + [7] == [7];
  }

  lemma SweptState()
    ensures var r := OnEvent(Holding(), QuietAfterFin, 100, Willing());
            && r.out == [Line(Okay), Line(Eof), Closed] && r.arrived == [7]
  {
    hide SendText, Pump;
    Says(Holding(), Eof, Socket(9, false));
    var s := Holding();
    var t := s.(out := s.out + [Line(Eof)], offered := s.offered + [Text(Eof)]);
    assert SendText(s, Eof, Socket(9, false)) == t;
    var u := EndFlow(t).(ch := t.ch.(closing := true));
    assert Pump(u, 9) == u by { NothingQueued(u); }
    assert [Line(Okay)] + [Line(Eof)] + [Closed] == [Line(Okay), Line(Eof), Closed];
  }

  lemma NothingQueued(s: Remote)
    requires s.ch.queue == []
    ensures Pump(s, 9) == s
  {
  }

  lemma FourEvents(s: Sys, a: Event, b: Event, c: Event, d: Event)
    ensures Run(s, [a, b, c, d]) == Next(Next(Next(Next(s, a), b), c), d)
  {
    hide Next;
    Cons(s, a, [b, c, d]);
    Cons(Next(s, a), b, [c, d]);
    Cons(Next(Next(s, a), b), c, [d]);
    Cons(Next(Next(Next(s, a), b), c), d, []);
  }

  /** What the client reads of the channel once it was swept. */
  lemma ReadsBoth(c: Client, r: Remote)
    requires c.seen == [] && r.out == [Line(Okay), Line(Eof), Closed]
    ensures Next(Next(Sys(c, r), ClientReads), ClientReads) == Sys(c.(seen := [Line(Okay), Line(Eof)]), r)
  {
    hide Next;
    ReadsLine(c, r, Okay);
    assert [] + [Line(Okay)] == [Line(Okay)];
    ReadsLine(c.(seen := [Line(Okay)]), r, Eof);
    assert [Line(Okay)] + [Line(Eof)] == [Line(Okay), Line(Eof)];
  }

  lemma NoFrames()
    ensures FrameBytes([Line(Okay), Line(Eof)]) == []
  {
    DownSnoc([Line(Okay)], Line(Eof));
    DownSnoc([], Line(Okay));
    assert [] + [Line(Okay)] == [Line(Okay)] && [Line(Okay)] + [Line(Eof)] == [Line(Okay), Line(Eof)];
  }

  lemma SweepingState(c: Client)
    requires c.seen == []
    ensures var s := Run(Sys(c, Finned()), Sweeping());
            s.client.seen == [Line(Okay), Line(Eof)] && s.remote.arrived == [7]
  {
    var a, b := RelayActs(TcpData([7]), 100, Waits()), RelayActs(QuietAfterFin, 100, Willing());
    var r := OnEvent(Holding(), QuietAfterFin, 100, Willing());
    FourEvents(Sys(c, Finned()), a, b, ClientReads, ClientReads);
    hide Next, Run, OnEvent;
    assert Next(Sys(c, Finned()), a) == Sys(c, Holding()) by {
      ActsNow(c, Finned(), TcpData([7]), Waits());
      HoldingState();
    }
    assert Next(Sys(c, Holding()), b) == Sys(c, r) by { ActsNow(c, Holding(), QuietAfterFin, Willing()); }
    SweptState();
    ReadsBoth(c, r);
  }

  /** The client reads EOF and no byte, although TCP delivered one. */
  lemma QuietFlowLosesADownload()
    ensures var s := Run(Start(0, 0), Opening() + Finning() + Sweeping());
            && s.client.seen == [Line(Okay), Line(Eof)] && FrameBytes(s.client.seen) == [] && s.remote.arrived == [7]
  {
    hide Run, Opening, Finning, Sweeping, Finned, FrameBytes;
    FinningState();
    RunConcat(Start(0, 0), Opening() + Finning(), Sweeping());
    RunConcat(Start(0, 0), Opening(), Finning());
    SweepingState(Client(true, 0, 0, [], [Command, Fin], []));
    NoFrames();
  }

  lemma ReadsLine(c: Client, r: Remote, reply: Reply)
    requires |c.seen| < |r.out| && r.out[|c.seen|] == Line(reply)
    ensures Next(Sys(c, r), ClientReads) == Sys(c.(seen := c.seen + [Line(reply)]), r)
  {
  }

  // ---- Bytes charged to a flow that is over ----

  const TAKES_ONE := Answer(Yes, 1, true, Socket(0, true), Socket(0, false))

  function Congested(): nat -> Answer {
    _ => TAKES_ONE
  }

  /** A connection opens a channel, which is admitted and connects. */
  function Ready(): RP.Process {
    RP.Run(RP.IDLE, [RP.Joins, RP.Opens(1, 1, Willing()), RP.Acts(1, 1, Admitted(true), 100, Willing()),
                     RP.Acts(1, 1, Connected, 100, Willing())])
  }

  function Upload(): RP.Act {
    RP.Reads(1, 1, Payload([1, 2]), 100, Congested())
  }

  /** TCP takes one of two bytes, and the socket is full when that is acknowledged. */
  function Stranded(): RP.Process {
    RP.Next(Ready(), Upload())
  }

  /** A process with one channel on one connection. */
  function One(s: Remote): RP.Process {
    RP.Process(map[1 := RP.Peer(map[1 := s], 1, s.peerBytes, s.stopped)], 1, s.total)
  }

  lemma OneActs(s: Remote, e: RelayEvent, answers: nat -> Answer)
    requires !s.stopped && !OnEvent(s, e, 100, answers).stopped
    ensures RP.Next(One(s), RP.Acts(1, 1, e, 100, answers)) == One(OnEvent(s, e, 100, answers))
  {
    hide OnEvent;
    assert One(s).At(1, 1) == s;
    OnePut(s, OnEvent(s, e, 100, answers));
  }

  lemma OnePut(s: Remote, r: Remote)
    requires !s.stopped
    ensures One(s).Put(1, 1, r) == One(r)
  {
    assert map[1 := s][1 := r] == map[1 := r];
    var q := RP.Peer(map[1 := r], 1, r.peerBytes, r.stopped);
    assert One(s).peers[1 := q] == map[1 := q];
  }

  /** The channel right after its command was read. */
  const ASKED := Unopened(0, 0).(read := [Command])

  lemma AskedState()
    ensures RP.Next(RP.Next(RP.IDLE, RP.Joins), RP.Opens(1, 1, Willing())) == One(ASKED)
  {
    hide OnMessage;
    Asks(Unopened(0, 0), 0);
    var p := RP.Next(RP.IDLE, RP.Joins);
    assert p.peers == map[1 := RP.Peer(map[], 0, 0, false)];
    assert RP.Opened(p, 1, Willing()) == ASKED;
    var q := RP.Peer(map[][1 := ASKED], 1, 0, false);
    assert map[][1 := ASKED] == map[1 := ASKED];
    assert p.peers[1 := q] == map[1 := q];
  }

  lemma Asks(s: Remote, maxBytes: nat)
    requires s.read == [] && !s.stopped
    ensures OnMessage(s, Command, maxBytes, Willing()) == s.(read := [Command])
  {
    hide Abort;
    assert s.read + [Command] == [Command];
  }

  /** A line goes out at once when nothing is queued before it. */
  lemma Says(s: Remote, reply: Reply, k: Socket)
    requires s.ch == FRESH_CHANNEL && !s.stopped && k.room > 0
    ensures SendText(s, reply, k) == s.(out := s.out + [Line(reply)], offered := s.offered + [Text(reply)])
  {
    hide Abort, Stop;
    var t := s.(ch := s.ch.(queue := [Note(reply)]), offered := s.offered + [Text(reply)]);
    assert s.ch.queue + [Note(reply)] == [Note(reply)] && [Note(reply)][1..] == [] == s.ch.queue;
    assert SendText(s, reply, k) == Drain(t, k);
    var u := t.(out := t.out + [Line(reply)], ch := s.ch);
    assert SendHead(t) == u;
    assert Pump(u, k.room - 1) == u;
    assert CanSend(t) && Pump(t, k.room) == u;
    assert Drain(t, k) == u;
  }

  lemma Greeted(s: Remote)
    requires s.flow == Some(FRESH_FLOW) && s.ch == FRESH_CHANNEL && !s.stopped
    ensures OnEvent(s, Connected, 100, Willing())
         == s.(flow := Some(FRESH_FLOW.(phase := Open)), out := s.out + [Line(Okay)], offered := s.offered + [Text(Okay)])
  {
    hide SendText;
    Says(s.(flow := Some(FRESH_FLOW.(phase := Open))), Okay, Socket(9, false));
  }

  /** The channel of the example once it is connected. */
  function Greeting(): Remote {
    ASKED.(flow := Some(FRESH_FLOW.(phase := Open)), out := [Line(Okay)], offered := [Text(Okay)])
  }

  lemma ReadyState()
    ensures Ready() == One(Greeting())
  {
    AskedState();
    var s := ASKED.(flow := Some(FRESH_FLOW));
    Greeted(s);
    assert OnEvent(ASKED, Admitted(true), 100, Willing()) == s;
    assert [] + [Line(Okay)] == [Line(Okay)] && [] + [Text(Okay)] == [Text(Okay)];
    OneActs(ASKED, Admitted(true), Willing());
    OneActs(s, Connected, Willing());
    FourSteps(RP.IDLE, RP.Joins, RP.Opens(1, 1, Willing()), RP.Acts(1, 1, Admitted(true), 100, Willing()),
              RP.Acts(1, 1, Connected, 100, Willing()));
  }

  lemma FourSteps(p: RP.Process, a: RP.Act, b: RP.Act, c: RP.Act, d: RP.Act)
    ensures RP.Run(p, [a, b, c, d]) == RP.Next(RP.Next(RP.Next(RP.Next(p, a), b), c), d)
  {
    hide RP.Next;
    OneStep(p, a, [b, c, d]);
    OneStep(RP.Next(p, a), b, [c, d]);
    OneStep(RP.Next(RP.Next(p, a), b), c, [d]);
    OneStep(RP.Next(RP.Next(RP.Next(p, a), b), c), d, []);
  }

  lemma OneStep(p: RP.Process, a: RP.Act, rest: seq<RP.Act>)
    ensures RP.Run(p, [a] + rest) == RP.Run(RP.Next(p, a), rest)
  {
    hide RP.Next;
    assert ([a] + rest)[1..] == rest;
  }

  lemma CutShort(s: Remote)
    requires s.ch == FRESH_CHANNEL && s.flow == Some(FRESH_FLOW.(phase := Open)) && s.total == 0 && !s.stopped
    requires s.read != []
    ensures var r := OnMessage(s, Payload([1, 2]), 100, Congested());
            r.flow.Some? && !r.Live() && r.flow.value.backlog == [[2]] && r.total == 1 && r.stopped
    ensures MessageStrands(s, Payload([1, 2]), 100, Congested())
  {
    hide DrainQuota, QuotaStrands, Enqueue, Recorded, EnqueueStrands, Abort;
    var bytes: seq<byte> := [1, 2];
    var t := Counted(s, bytes);
    EnqueueCases(t, bytes, true, 100, Congested());
    PendedAlone(t, bytes);
    HalfWritten(Recorded(t, bytes, true), bytes);
    StrandsQueued(t, bytes);
    assert bytes[1..] == [2];
  }

  lemma StrandsQueued(t: Remote, bytes: seq<byte>)
    requires t.Live() && bytes != [] && Takes(t, bytes, 100) && QuotaStrands(Recorded(t, bytes, true), 1, Congested())
    ensures EnqueueStrands(t, bytes, true, 100, Congested())
  {
    hide QuotaStrands, Recorded;
  }

  lemma PendedAlone(t: Remote, bytes: seq<byte>)
    requires t.flow == Some(FRESH_FLOW.(phase := Open)) && t.total == 0 && |bytes| == 2
    ensures var u := Recorded(t, bytes, true);
            && u.flow == Some(FRESH_FLOW.(phase := Open, bytes := 2, buffered := 2, pending := [Charge(bytes, true)]))
            && u.total == 2 && u.ch == t.ch && u.stopped == t.stopped
  {
    assert [] + [Charge(bytes, true)] == [Charge(bytes, true)];
  }

  lemma HalfWritten(u: Remote, bytes: seq<byte>)
    requires !u.ch.dead && !u.stopped && u.total == 2 == |bytes|
    requires u.flow == Some(FRESH_FLOW.(phase := Open, bytes := 2, buffered := 2, pending := [Charge(bytes, true)]))
    ensures var r := DrainQuota(u, 1, Congested());
            r.flow.Some? && !r.Live() && r.flow.value.backlog == [bytes[1..]] && r.total == 1 && r.stopped
    ensures QuotaStrands(u, 1, Congested())
  {
    hide SendText, SendBinary, Finish, PushBacklog, CompletePeer, WriteTcp;
    var a := Clamp(TAKES_ONE, 2);
    assert a == TAKES_ONE && ForwardStrands(u, a);
    assert [Charge(bytes, true)][1..] == [];
    OneWritten(Taken(u), bytes, a);
    assert !ForwardCharged(u, a).Live();
  }

  lemma OneWritten(t: Remote, bytes: seq<byte>, a: Answer)
    requires !t.ch.dead && !t.stopped && t.total == 0 && |bytes| == 2 && a == TAKES_ONE
    requires t.flow == Some(FRESH_FLOW.(phase := Open, bytes := 2))
    ensures var r := WriteTcp(t, bytes, a);
            r.flow.Some? && !r.Live() && r.flow.value.backlog == [bytes[1..]] && r.total == 1 && r.stopped
  {
    hide Finish;
    assert [bytes[1..]] + [] == [bytes[1..]];
  }

  /** The process total keeps one byte of a flow that is over, and no live flow holds any. */
  lemma StoppedWriteStrandsBytes()
    ensures RP.Strands(Ready(), Upload()) && RP.AllSettled(Ready())
    ensures var p := Stranded();
            && p.buffered == 1 && p.peers.Keys == {1} && p.peers[1].conns.Keys == {1}
            && p.peers[1].conns[1].flow.Some? && !p.peers[1].conns[1].Live()
            && p.peers[1].conns[1].flow.value.backlog == [[2]]
            && !RP.AllSettled(p)
  {
    ReadyState();
    hide Ready, OnMessage, MessageStrands, RP.Next, RP.AllSettled, RP.Strands;
    CutShort(Greeting());
    OneReads(Greeting());
  }

  lemma OneReads(s: Remote)
    requires s.read != [] && !s.stopped && Settled(s)
    requires var r := OnMessage(s, Payload([1, 2]), 100, Congested());
             r.flow.Some? && !r.Live() && r.flow.value.backlog == [[2]] && r.total == 1 && r.stopped
    requires MessageStrands(s, Payload([1, 2]), 100, Congested())
    ensures RP.Strands(One(s), Upload()) && RP.AllSettled(One(s))
    ensures var p := RP.Next(One(s), Upload());
            && p.buffered == 1 && p.peers.Keys == {1} && p.peers[1].conns.Keys == {1}
            && p.peers[1].conns[1].flow.Some? && !p.peers[1].conns[1].Live()
            && p.peers[1].conns[1].flow.value.backlog == [[2]]
            && !RP.AllSettled(p)
  {
    hide OnMessage, MessageStrands, RP.AbortAll;
    assert One(s).At(1, 1) == s;
    var r := OnMessage(s, Payload([1, 2]), 100, Congested());
    OnePut(s, r);
    OverStays(One(r));
    assert RP.Next(One(s), Upload()) == RP.AbortAll(One(r), 1, 1);
    assert RP.Next(One(s), Upload()).Has(1, 1);
  }

  /** Aborting the channels of a connection whose only flow is over changes no flow and no total. */
  lemma OverStays(p: RP.Process)
    requires p.peers.Keys == {1} && p.peers[1].conns.Keys == {1}
    requires p.peers[1].conns[1].flow.Some? && !p.peers[1].conns[1].Live()
    ensures var q := RP.AbortAll(p, 1, 1);
            && q.peers.Keys == {1} && q.peers[1].conns.Keys == {1} && q.buffered == p.buffered
            && q.peers[1].conns[1].flow == p.peers[1].conns[1].flow
  {
    hide Abort;
    assert RP.AbortAll(p, 1, 0) == p;
  }
}
