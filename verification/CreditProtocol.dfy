/**
 A client and the relay on one channel of one ordered connection.

 The client half is what the browser's broker and the native transport have in
 common: bytes sent and not acknowledged, bytes received and not credited back,
 and messages waiting to be written. What the rest of the system does to the
 channel (other channels, a lost connection, limits, timers) are events that may
 happen at any point.
 */
module CreditProtocol {
  import opened Bytes
  import opened MuxProtocol
  import opened RelayChannel
  import opened RelayLaws
  import opened RelayEnds

  datatype Client = Client(
    live: bool, outstanding: int, received: int, queue: seq<Up>, up: seq<Up>, seen: seq<Down>)
  {
    /** Everything sent or waiting to be sent. */
    function Issued(): seq<Up> {
      up + queue
    }
  }

  /** A client that has just queued its command. */
  const FRESH_CLIENT := Client(true, 0, 0, [Command], [], [])

  function Push(c: Client, m: Up): Client {
    c.(queue := c.queue + [m])
  }

  predicate MaySend(c: Client, bytes: seq<byte>) {
    c.live && 0 < |bytes| <= MUX_FRAME && c.outstanding + |bytes| <= MUX_WINDOW
  }

  function SendData(c: Client, bytes: seq<byte>): Client {
    if !MaySend(c, bytes) then c else Push(c.(outstanding := c.outstanding + |bytes|), Payload(bytes))
  }

  /** Give credit back for bytes that were consumed. */
  function GiveCredit(c: Client, n: nat): Client {
    if !c.live || n == 0 || c.received < n then c else Push(c.(received := c.received - n), Window(n))
  }

  function SendFin(c: Client): Client {
    if !c.live then c else Push(c, Fin)
  }

  /** Write queued messages while the socket takes them. */
  function Flush(c: Client, count: nat): Client {
    var n := Min(count, |c.queue|);
    c.(queue := c.queue[n..], up := c.up + c.queue[..n])
  }

  /** Closing drops what is still queued; `notify` tells the relay. */
  function CloseClient(c: Client, notify: bool): Client {
    if !c.live then c else
      c.(live := false, queue := [], up := if notify then c.up + [Shut] else c.up)
  }

  /** The relay message breaks the credit contract, which drops the connection. */
  predicate Breaks(c: Client, m: Down) {
    || (m.Ack? && m.count > c.outstanding)
    || (m.Frame? && c.received + |m.bytes| > MUX_WINDOW)
  }

  function OnDown(c: Client, m: Down): Client {
    var c := c.(seen := c.seen + [m]);
    if !c.live then c
    else if Breaks(c, m) then CloseClient(c, false)
    else match m
      case Ack(n) => c.(outstanding := c.outstanding - n)
      case Frame(bytes) => c.(received := c.received + |bytes|)
      case Closed => CloseClient(c, false)
      case Line(_) => c
  }

  datatype Sys = Sys(client: Client, remote: Remote)

  datatype Event =
    | ClientSends(bytes: seq<byte>)
    | ClientCredits(count: nat)
    | ClientFin
    | ClientFlushes(count: nat)
    | ClientReads
    | ClientCloses(notify: bool)
    | RelayReads(maxBytes: nat, answers: nat -> Answer)
    | RelayActs(event: RelayEvent, maxBytes: nat, answers: nat -> Answer)
    | OthersAct(buffered: int, queued: int)

  predicate Readable(s: Sys) {
    |s.remote.read| < |s.client.up| && (s.remote.read == [] ==> s.client.up[0].Command?)
  }

  function Next(s: Sys, e: Event): Sys {
    var c, r := s.client, s.remote;
    match e
    case ClientSends(bytes) => s.(client := SendData(c, bytes))
    case ClientCredits(n) => s.(client := GiveCredit(c, n))
    case ClientFin => s.(client := SendFin(c))
    case ClientFlushes(n) => s.(client := Flush(c, n))
    case ClientReads => if |c.seen| < |r.out| then s.(client := OnDown(c, r.out[|c.seen|])) else s
    case ClientCloses(notify) => s.(client := CloseClient(c, notify))
    case RelayReads(maxBytes, answers) =>
      if Readable(s) then s.(remote := OnMessage(r, c.up[|r.read|], maxBytes, answers)) else s
    case RelayActs(event, maxBytes, answers) =>
      if r.read == [] && !event.ConnectionLost? then s
      else s.(remote := OnEvent(r, event, maxBytes, answers))
    case OthersAct(buffered, queued) =>
      s.(remote := r.(total := r.total + buffered, peerBytes := r.peerBytes + queued))
  }

  function Run(s: Sys, events: seq<Event>): Sys
    decreases |events|
  {
    if events == [] then s else Run(Next(s, events[0]), events[1..])
  }

  function Start(total: int, peerBytes: int): Sys {
    Sys(FRESH_CLIENT, Unopened(total, peerBytes))
  }

  // ---- The client's own law ----

  /**
   A client opens its channel once, first (unless it closes before the command was
   written), and its frames and credits are well formed.
   */
  predicate Honest(log: seq<Up>) {
    forall i :: 0 <= i < |log| ==>
      && (log[i].Command? ==> i == 0)
      && (log[i].Payload? ==> 0 < |log[i].bytes| <= MUX_FRAME)
      && (log[i].Window? ==> log[i].count > 0)
  }

  /** What the client counts follows from what it issued and what it saw. */
  predicate ClientLaw(c: Client) {
    && Honest(c.Issued()) && (!c.live ==> c.queue == [])
    && WindowBytes(c.Issued()) <= |FrameBytes(c.seen)|
    && |PayloadBytes(c.Issued())| <= AckBytes(c.seen) + MUX_WINDOW
    && (c.live ==>
          && c.Issued() != []
          && c.outstanding + AckBytes(c.seen) == |PayloadBytes(c.Issued())|
          && c.received + WindowBytes(c.Issued()) == |FrameBytes(c.seen)|
          && c.received <= MUX_WINDOW)
  }

  predicate Fresh(r: Remote) {
    r.read == [] ==> r.ch.queue == [] && r.flow.None? && (r.ch.dead ==> r.stopped)
  }

  predicate Inv(s: Sys) {
    && Sound(s.remote) && ClientLaw(s.client) && Fresh(s.remote) && EofLaw(s.remote) && SpokenLaw(s.remote)
    && s.remote.read <= s.client.up
    && s.client.seen <= s.remote.out
  }

  // ---- Every step keeps the invariant ----

  lemma StartInv(total: int, peerBytes: int)
    ensures Inv(Start(total, peerBytes))
  {
    UnopenedIsSound(total, peerBytes);
    var log := FRESH_CLIENT.Issued();
    assert log == [] + [Command];
    UpSnoc([], Command);
  }

  lemma PushKeeps(c: Client, m: Up, outstanding: int, received: int)
    requires ClientLaw(c) && c.live
    requires !m.Command? && (m.Payload? ==> 0 < |m.bytes| <= MUX_FRAME) && (m.Window? ==> m.count > 0)
    requires outstanding == c.outstanding + (if m.Payload? then |m.bytes| else 0) <= MUX_WINDOW
    requires received == c.received - (if m.Window? then m.count else 0) >= 0
    ensures ClientLaw(Push(c.(outstanding := outstanding, received := received), m))
  {
    hide FrameBytes, AckBytes, DownTokens, PayloadBytes, WindowBytes;
    UpSnoc(c.Issued(), m);
    var d := Push(c.(outstanding := outstanding, received := received), m);
    assert d.Issued() == c.Issued() + [m];
  }

  lemma FlushKeeps(c: Client, n: nat)
    requires ClientLaw(c)
    ensures ClientLaw(Flush(c, n)) && Flush(c, n).Issued() == c.Issued()
  {
    hide FrameBytes, AckBytes, DownTokens, PayloadBytes, WindowBytes;
    assert Flush(c, n).Issued() == c.Issued();
  }

  lemma CloseKeeps(c: Client, notify: bool)
    requires ClientLaw(c)
    ensures ClientLaw(CloseClient(c, notify))
  {
    hide FrameBytes, AckBytes, DownTokens, PayloadBytes, WindowBytes;
    if c.live {
      assert c.up <= c.Issued();
      UpPrefix(c.up, c.Issued());
      UpSnoc(c.up, Shut);
      var d := CloseClient(c, notify);
      assert d.Issued() == if notify then c.up + [Shut] else c.up;
    }
  }

  /** The parts of the two ends that the credit argument needs, in one chain. */
  lemma Chain(s: Sys)
    requires Inv(s)
    ensures WindowBytes(s.remote.read) <= WindowBytes(s.client.Issued())
    ensures PayloadBytes(s.remote.read) <= PayloadBytes(s.client.Issued())
    ensures |FrameBytes(s.client.seen)| <= |FrameBytes(s.remote.out)|
    ensures AckBytes(s.client.seen) <= AckBytes(s.remote.out)
  {
    hide FrameBytes, AckBytes, DownTokens, PayloadBytes, WindowBytes;
    hide Sound;
    assert s.remote.read <= s.client.Issued();
    UpPrefix(s.remote.read, s.client.Issued());
    DownPrefix(s.client.seen, s.remote.out);
  }

  /** "excess acknowledgement" and "receive window exceeded" are unreachable. */
  lemma RelayNeverBreaksTheContract(s: Sys)
    requires Inv(s) && s.client.live && |s.client.seen| < |s.remote.out|
    ensures !Breaks(s.client, s.remote.out[|s.client.seen|])
  {
    hide FrameBytes, AckBytes, DownTokens, PayloadBytes, WindowBytes;
    var c, out := s.client, s.remote.out;
    var m := out[|c.seen|];
    Chain(s);
    assert c.seen + [m] <= out;
    DownPrefix(c.seen + [m], out);
    DownSnoc(c.seen, m);
  }

  /** "excess credit" and the upload window abort are unreachable. */
  lemma ClientNeverExceedsItsCredit(s: Sys)
    requires Inv(s) && Readable(s) && !s.remote.ch.dead
    ensures var m := s.client.up[|s.remote.read|];
            && (m.Window? ==> s.remote.ch.available + m.count <= MUX_WINDOW)
            && (m.Payload? ==> s.remote.ch.incoming + |m.bytes| <= MUX_WINDOW)
  {
    hide FrameBytes, AckBytes, DownTokens, PayloadBytes, WindowBytes;
    var c, r := s.client, s.remote;
    var m := c.up[|r.read|];
    Chain(s);
    assert r.read + [m] <= c.Issued();
    UpPrefix(r.read + [m], c.Issued());
    UpSnoc(r.read, m);
  }

  lemma OnDownKeeps(s: Sys)
    requires Inv(s) && |s.client.seen| < |s.remote.out|
    ensures Inv(Next(s, ClientReads))
  {
    hide FrameBytes, AckBytes, DownTokens, PayloadBytes, WindowBytes;
    hide Sound;
    var c, m := s.client, s.remote.out[|s.client.seen|];
    DownSnoc(c.seen, m);
    if c.live {
      RelayNeverBreaksTheContract(s);
      var d := c.(seen := c.seen + [m]);
      if m.Closed? {
        assert ClientLaw(d);
        CloseKeeps(d, false);
      }
    }
  }

  lemma ClientStepKeeps(s: Sys, e: Event)
    requires Inv(s) && !e.RelayReads? && !e.RelayActs? && !e.OthersAct?
    ensures Inv(Next(s, e))
  {
    hide FrameBytes, AckBytes, DownTokens, PayloadBytes, WindowBytes;
    hide Sound;
    var c := s.client;
    match e
    case ClientSends(bytes) =>
      if MaySend(c, bytes) {
        PushKeeps(c, Payload(bytes), c.outstanding + |bytes|, c.received);
      }
    case ClientCredits(n) =>
      if c.live && 0 < n <= c.received {
        PushKeeps(c, Window(n), c.outstanding, c.received - n);
      }
    case ClientFin =>
      if c.live {
        PushKeeps(c, Fin, c.outstanding, c.received);
      }
    case ClientFlushes(n) => FlushKeeps(c, n);
    case ClientReads =>
      if |c.seen| < |s.remote.out| {
        OnDownKeeps(s);
      }
    case ClientCloses(notify) => CloseKeeps(c, notify);
  }

  lemma StepKeeps(s: Sys, e: Event)
    requires Inv(s)
    ensures Inv(Next(s, e))
  {
    hide Sound, OnMessage, OnEvent, ClientLaw, Fresh, EofLaw, SpokenLaw;
    match e
    case RelayReads(maxBytes, answers) =>
      if Readable(s) {
        MessageKeepsFresh(s, maxBytes, answers);
      }
    case RelayActs(event, maxBytes, answers) =>
      if s.remote.read == [] && !event.ConnectionLost? {
        return;
      }
      OnEventKeeps(s.remote, event, maxBytes, answers);
      OnEventEof(s.remote, event, maxBytes, answers);
      OnEventSpoken(s.remote, event, maxBytes, answers);
      EventKeepsFresh(s.remote, event, maxBytes, answers);
    case OthersAct(buffered, queued) =>
      OthersKeep(s.remote, s.remote.total + buffered, s.remote.peerBytes + queued);
      OthersKeepFresh(s.remote, s.remote.total + buffered, s.remote.peerBytes + queued);
    case _ => ClientStepKeeps(s, e);
  }

  lemma MessageKeepsFresh(s: Sys, maxBytes: nat, answers: nat -> Answer)
    requires Inv(s) && Readable(s)
    ensures var r := OnMessage(s.remote, s.client.up[|s.remote.read|], maxBytes, answers);
            Sound(r) && Fresh(r) && EofLaw(r) && SpokenLaw(r)
  {
    hide Sound, OnMessage, EofLaw, SpokenLaw;
    var m := s.client.up[|s.remote.read|];
    assert m == s.client.Issued()[|s.remote.read|];
    OnMessageKeeps(s.remote, m, maxBytes, answers);
    OnMessageEof(s.remote, m, maxBytes, answers);
    OnMessageSpoken(s.remote, m, maxBytes, answers);
  }

  lemma OthersKeepFresh(r: Remote, total: int, peerBytes: int)
    requires Fresh(r) && EofLaw(r) && SpokenLaw(r)
    ensures var t := r.(total := total, peerBytes := peerBytes); Fresh(t) && EofLaw(t) && SpokenLaw(t)
  {
  }

  lemma EventKeepsFresh(r: Remote, e: RelayEvent, maxBytes: nat, answers: nat -> Answer)
    requires Fresh(r) && (r.read == [] ==> e.ConnectionLost?)
    ensures Fresh(OnEvent(r, e, maxBytes, answers))
  {
  }

  lemma {:induction false} RunKeeps(s: Sys, events: seq<Event>)
    requires Inv(s)
    ensures Inv(Run(s, events))
    decreases |events|
  {
    hide Inv, Next;
    if events != [] {
      StepKeeps(s, events[0]);
      RunKeeps(Next(s, events[0]), events[1..]);
    }
  }

  /** Some run goes from s to t. */
  ghost predicate Leads(s: Sys, t: Sys) {
    exists events :: Run(s, events) == t
  }

  /** Some run from a fresh channel ends in s. */
  ghost predicate Reached(s: Sys) {
    exists total, peerBytes :: Leads(Start(total, peerBytes), s)
  }

  lemma {:induction false} RunConcat(s: Sys, before: seq<Event>, events: seq<Event>)
    ensures Run(s, before + events) == Run(Run(s, before), events)
    decreases |before|
  {
    hide Next;
    if before == [] {
      assert before + events == events;
    } else {
      assert (before + events)[0] == before[0] && (before + events)[1..] == before[1..] + events;
      RunConcat(Next(s, before[0]), before[1..], events);
    }
  }

  lemma LeadsHere(s: Sys)
    ensures Leads(s, s)
  {
    assert Run(s, []) == s;
  }

  lemma LeadsStep(s: Sys, e: Event)
    ensures Leads(s, Next(s, e))
  {
    hide Next;
    assert [e][1..] == [];
    assert Run(s, [e]) == Next(s, e);
  }

  lemma LeadsOn(s: Sys, t: Sys, u: Sys)
    requires Leads(s, t) && Leads(t, u)
    ensures Leads(s, u)
  {
    var before :| Run(s, before) == t;
    var events :| Run(t, events) == u;
    RunConcat(s, before, events);
  }

  /** t is further along than s, with the same relay end and the same messages read. */
  ghost predicate Moves(s: Sys, t: Sys) {
    Leads(s, t) && t.remote == s.remote && t.client.seen == s.client.seen
  }

  lemma StaysPut(s: Sys)
    ensures Moves(s, s)
  {
    LeadsHere(s);
  }

  lemma MovesOn(s: Sys, t: Sys, u: Sys)
    requires Moves(s, t) && Moves(t, u)
    ensures Moves(s, u)
  {
    hide Leads;
    LeadsOn(s, t, u);
  }

  /** A step of the client other than reading. */
  lemma MovesStep(s: Sys, e: Event)
    requires e.ClientSends? || e.ClientCredits? || e.ClientFin? || e.ClientFlushes? || e.ClientCloses?
    ensures Moves(s, Next(s, e))
  {
    hide Leads;
    LeadsStep(s, e);
  }

  lemma ReachedOn(s: Sys, t: Sys)
    requires Reached(s) && Leads(s, t)
    ensures Reached(t)
  {
    hide Leads;
    var total, peerBytes :| Leads(Start(total, peerBytes), s);
    LeadsOn(Start(total, peerBytes), s, t);
  }

  lemma ReachedInv(s: Sys)
    requires Reached(s)
    ensures Inv(s)
  {
    hide Inv, Run;
    var total, peerBytes :| Leads(Start(total, peerBytes), s);
    var events :| Run(Start(total, peerBytes), events) == s;
    StartInv(total, peerBytes);
    RunKeeps(Start(total, peerBytes), events);
  }

  // ---- Over whole runs ----

  /** Data frames on their way to the client, and WINDOW credit on its way back. */
  function DownInFlight(s: Sys): int {
    |FrameBytes(s.remote.out)| - |FrameBytes(s.client.seen)|
  }

  function CreditInFlight(s: Sys): int {
    WindowBytes(s.client.Issued()) - WindowBytes(s.remote.read)
  }

  function UpInFlight(s: Sys): int {
    |PayloadBytes(s.client.Issued())| - |PayloadBytes(s.remote.read)|
  }

  function AcksInFlight(s: Sys): int {
    AckBytes(s.remote.out) - AckBytes(s.client.seen)
  }

  /**
   While both ends are live, the download window is split between the relay's credit,
   frames in flight, the client's uncredited bytes and credit in flight; and what the
   client counts as outstanding is in flight, at the relay, acknowledged in flight, or
   was dropped by the relay.
   */
  predicate Conserved(s: Sys) {
    && 0 <= DownInFlight(s) && 0 <= CreditInFlight(s) && 0 <= UpInFlight(s) && 0 <= AcksInFlight(s)
    && (s.client.live && !s.remote.ch.dead ==>
          && s.remote.ch.available + DownInFlight(s) + s.client.received + CreditInFlight(s) == MUX_WINDOW
          && s.client.outstanding == UpInFlight(s) + s.remote.ch.incoming + AcksInFlight(s) + s.remote.lost)
  }

  /** In every run credit and acknowledgements add up. */
  lemma CreditIsConserved(total: int, peerBytes: int, events: seq<Event>)
    ensures Conserved(Run(Start(total, peerBytes), events))
  {
    hide Run, Conserved, Inv;
    StartInv(total, peerBytes);
    RunKeeps(Start(total, peerBytes), events);
    InvConserves(Run(Start(total, peerBytes), events));
  }

  lemma InvConserves(s: Sys)
    requires Inv(s)
    ensures Conserved(s)
  {
    hide FrameBytes, AckBytes, DownTokens, PayloadBytes, WindowBytes;
    Chain(s);
  }

  /** In no run does either end find the other beyond its credit. */
  lemma NobodyExceedsCredit(total: int, peerBytes: int, events: seq<Event>)
    ensures var s := Run(Start(total, peerBytes), events);
            && (s.client.live && |s.client.seen| < |s.remote.out| ==>
                  !Breaks(s.client, s.remote.out[|s.client.seen|]))
            && (Readable(s) && !s.remote.ch.dead ==>
                  var m := s.client.up[|s.remote.read|];
                  && (m.Window? ==> s.remote.ch.available + m.count <= MUX_WINDOW)
                  && (m.Payload? ==> s.remote.ch.incoming + |m.bytes| <= MUX_WINDOW))
  {
    hide Inv, Run, Breaks;
    StartInv(total, peerBytes);
    RunKeeps(Start(total, peerBytes), events);
    var s := Run(Start(total, peerBytes), events);
    if s.client.live && |s.client.seen| < |s.remote.out| {
      RelayNeverBreaksTheContract(s);
    }
    if Readable(s) && !s.remote.ch.dead {
      ClientNeverExceedsItsCredit(s);
    }
  }

  /**
   In every run the TCP socket was given the client's bytes in order and without
   gaps, starting after those that came before admission; what the client saw is
   in order a prefix of what the relay was given to send, whose bytes are a prefix
   of what TCP delivered; and a CLOSE that did not drop the queue follows all of it.
   */
  lemma StreamsAreInOrder(total: int, peerBytes: int, events: seq<Event>)
    ensures var s := Run(Start(total, peerBytes), events);
            && s.remote.early + s.remote.tcp <= PayloadBytes(s.client.up)
            && DownTokens(s.client.seen) <= s.remote.offered
            && TokenBytes(s.remote.offered) <= s.remote.arrived
            && (Closed in s.client.seen && !s.remote.aborted ==> DownTokens(s.client.seen) == s.remote.offered)
            && (forall m :: m in s.remote.out && m.Frame? ==> 1 <= |m.bytes| <= MUX_FRAME)
  {
    hide FrameBytes, AckBytes, DownTokens, PayloadBytes, WindowBytes;
    hide Run, QueueTokens, TokenBytes;
    StartInv(total, peerBytes);
    RunKeeps(Start(total, peerBytes), events);
    var s := Run(Start(total, peerBytes), events);
    UpPrefix(s.remote.read, s.client.up);
    DownPrefix(s.client.seen, s.remote.out);
    if Closed in s.client.seen && !s.remote.aborted {
      var i :| 0 <= i < |s.client.seen| && s.client.seen[i] == Closed;
      assert s.remote.out[i] == Closed;
      assert s.client.seen == s.remote.out;
      EmptyQueue();
    }
  }

  // ---- What EOF says ----

  /** The relay ends a flow for being quiet after FIN, with a download still waiting for quota. */
  predicate CutsOffNow(s: Sys, e: Event) {
    e.RelayActs? && s.remote.read != [] && CutsOff(s.remote, e.event)
  }

  predicate EverCutsOff(s: Sys, events: seq<Event>)
    decreases |events|
  {
    events != [] && (CutsOffNow(s, events[0]) || EverCutsOff(Next(s, events[0]), events[1..]))
  }

  lemma CutStep(s: Sys, e: Event)
    requires Inv(s)
    ensures CutOff(Next(s, e).remote) <==> CutOff(s.remote) || CutsOffNow(s, e)
  {
    hide Sound, OnMessage, OnEvent, SendData, GiveCredit, SendFin, Flush, OnDown, CloseClient, EofLaw, SpokenLaw;
    hide ClientLaw, TokenBytes, CutsOff;
    if e.RelayReads? && Readable(s) {
      OnMessageEof(s.remote, s.client.up[|s.remote.read|], e.maxBytes, e.answers);
    } else if e.RelayActs? {
      OnEventEof(s.remote, e.event, e.maxBytes, e.answers);
      OnlyQuietCuts(s.remote, e.event);
    }
  }

  lemma OnlyQuietCuts(r: Remote, e: RelayEvent)
    ensures CutsOff(r, e) ==> e.QuietAfterFin?
  {
  }

  lemma {:induction false} CutRun(s: Sys, events: seq<Event>)
    requires Inv(s)
    ensures CutOff(Run(s, events).remote) <==> CutOff(s.remote) || EverCutsOff(s, events)
    decreases |events|
  {
    hide Inv, Next, CutsOffNow, CutOff;
    if events != [] {
      CutStep(s, events[0]);
      StepKeeps(s, events[0]);
      CutRun(Next(s, events[0]), events[1..]);
    }
  }

  /**
   In every run, a client that read EOF has read everything the relay was given to send;
   and that is every byte TCP delivered if and only if the flow was not ended for being
   quiet after FIN while a download waited for quota.
   */
  lemma EofMeansEverything(total: int, peerBytes: int, events: seq<Event>)
    ensures var s := Run(Start(total, peerBytes), events);
            Line(Eof) in s.client.seen ==>
              && DownTokens(s.client.seen) == s.remote.offered
              && (FrameBytes(s.client.seen) == s.remote.arrived <==> !EverCutsOff(Start(total, peerBytes), events))
  {
    hide FrameBytes, AckBytes, DownTokens, PayloadBytes, WindowBytes, EverCutsOff;
    hide Run, QueueTokens, TokenBytes;
    StartInv(total, peerBytes);
    RunKeeps(Start(total, peerBytes), events);
    CutRun(Start(total, peerBytes), events);
    var s := Run(Start(total, peerBytes), events);
    EofAt(s);
  }

  lemma EofAt(s: Sys)
    requires Inv(s)
    ensures Line(Eof) in s.client.seen ==>
              && DownTokens(s.client.seen) == s.remote.offered
              && (FrameBytes(s.client.seen) == s.remote.arrived <==> !CutOff(s.remote))
  {
    hide FrameBytes, AckBytes, DownTokens, PayloadBytes, WindowBytes, QueueTokens, TokenBytes;
    DownPrefix(s.client.seen, s.remote.out);
    if Line(Eof) in s.client.seen {
      EofIsLast(s.client.seen, s.remote);
    }
  }

  predicate FinLaw(s: Sys) {
    s.remote.Live() && s.remote.flow.value.fin ==> Fin in s.remote.read
  }

  predicate Fins(events: seq<Event>) {
    exists i :: 0 <= i < |events| && events[i].ClientFin?
  }

  lemma FinStep(s: Sys, e: Event)
    requires Inv(s) && FinLaw(s)
    ensures FinLaw(Next(s, e)) && (CutsOffNow(s, e) ==> Fin in s.client.Issued())
    ensures !e.ClientFin? && Fin in Next(s, e).client.Issued() ==> Fin in s.client.Issued()
  {
    hide Sound, OnMessage, OnEvent, EofLaw, SpokenLaw, ClientLaw, Waiting;
    if e.RelayReads? && Readable(s) {
      MessageFins(s.remote, s.client.up[|s.remote.read|], e.maxBytes, e.answers);
    } else if e.RelayActs? {
      EventFins(s.remote, e.event, e.maxBytes, e.answers);
    }
    NewIssue(s, e);
  }

  lemma NewIssue(s: Sys, e: Event)
    ensures !e.ClientFin? && Fin in Next(s, e).client.Issued() ==> Fin in s.client.Issued()
  {
    hide OnMessage, OnEvent;
  }

  lemma {:induction false} FinRun(s: Sys, events: seq<Event>)
    requires Inv(s) && FinLaw(s) && Fin !in s.client.Issued() && !Fins(events)
    ensures !EverCutsOff(s, events)
    decreases |events|
  {
    hide Inv, Next, CutsOffNow, FinLaw;
    if events != [] {
      assert !events[0].ClientFin?;
      FinStep(s, events[0]);
      StepKeeps(s, events[0]);
      assert forall i :: 0 <= i < |events[1..]| ==> events[1..][i] == events[i + 1];
      FinRun(Next(s, events[0]), events[1..]);
    }
  }

  /** A client that sends no FIN and reads EOF has read every byte TCP delivered. */
  lemma WithoutFinEofIsWhole(total: int, peerBytes: int, events: seq<Event>)
    ensures var s := Run(Start(total, peerBytes), events);
            !Fins(events) && Line(Eof) in s.client.seen ==> FrameBytes(s.client.seen) == s.remote.arrived
  {
    hide Run, FrameBytes, DownTokens, Inv, EverCutsOff, Fins;
    StartInv(total, peerBytes);
    EofMeansEverything(total, peerBytes, events);
    if !Fins(events) {
      assert FRESH_CLIENT.Issued() == [Command];
      FinRun(Start(total, peerBytes), events);
    }
  }

  // ---- Which uploads TCP gets ----

  /** The relay reads data of a channel whose flow is not admitted yet. */
  predicate ReadsEarly(s: Sys, e: Event) {
    e.RelayReads? && Readable(s) && s.client.up[|s.remote.read|].Payload? && TooEarly(s.remote)
  }

  predicate EverEarly(s: Sys, events: seq<Event>)
    decreases |events|
  {
    events != [] && (ReadsEarly(s, events[0]) || EverEarly(Next(s, events[0]), events[1..]))
  }

  lemma EarlyStep(s: Sys, e: Event)
    requires Inv(s)
    ensures s.remote.early <= Next(s, e).remote.early
    ensures Next(s, e).remote.early == s.remote.early <==> !ReadsEarly(s, e)
  {
    hide Sound, OnMessage, OnEvent, SendData, GiveCredit, SendFin, Flush, OnDown, CloseClient, EofLaw, SpokenLaw, Fresh;
    hide PayloadBytes, WindowBytes, FrameBytes, AckBytes;
    if e.RelayReads? && Readable(s) {
      var i := |s.remote.read|;
      assert s.client.up[i] == s.client.Issued()[i];
    }
  }

  lemma {:induction false} EarlyRun(s: Sys, events: seq<Event>)
    requires Inv(s)
    ensures s.remote.early <= Run(s, events).remote.early
    ensures Run(s, events).remote.early == s.remote.early <==> !EverEarly(s, events)
    decreases |events|
  {
    hide Inv, Next, ReadsEarly;
    if events != [] {
      EarlyStep(s, events[0]);
      StepKeeps(s, events[0]);
      EarlyRun(Next(s, events[0]), events[1..]);
    }
  }

  /**
   TCP's k-th byte is the client's byte number |early| + k. So TCP gets the uploads
   from the first byte on, in order and without gaps, if and only if the relay read
   no data frame before the flow was admitted.
   */
  lemma UploadsFromTheStart(total: int, peerBytes: int, events: seq<Event>)
    ensures var s := Run(Start(total, peerBytes), events);
            var sent, skipped := PayloadBytes(s.client.up), |s.remote.early|;
            && skipped + |s.remote.tcp| <= |sent|
            && (forall k :: 0 <= k < |s.remote.tcp| ==> s.remote.tcp[k] == sent[skipped + k])
            && (skipped == 0 <==> !EverEarly(Start(total, peerBytes), events))
            && (skipped == 0 ==> s.remote.tcp <= sent)
  {
    hide Run, PayloadBytes, EverEarly, Inv, DownTokens, TokenBytes;
    StartInv(total, peerBytes);
    EarlyRun(Start(total, peerBytes), events);
    StreamsAreInOrder(total, peerBytes, events);
    var s := Run(Start(total, peerBytes), events);
    Shifted(s.remote.early, s.remote.tcp, PayloadBytes(s.client.up));
  }

  lemma Shifted(head: seq<byte>, tail: seq<byte>, all: seq<byte>)
    requires head + tail <= all
    ensures |head| + |tail| <= |all|
    ensures forall k :: 0 <= k < |tail| ==> tail[k] == all[|head| + k]
    ensures head == [] ==> tail <= all
  {
    forall k | 0 <= k < |tail| ensures tail[k] == all[|head| + k] {
      assert (head + tail)[|head| + k] == tail[k];
    }
    assert head == [] ==> head + tail == tail;
  }

  /** The client was answered: it read a line from the relay. */
  predicate Answered(seen: seq<Down>) {
    exists i :: 0 <= i < |seen| && seen[i].Line?
  }

  /** In this run the client sends data only after it was answered. */
  predicate WaitsForReply(s: Sys, events: seq<Event>)
    decreases |events|
  {
    events != [] ==>
      && (events[0].ClientSends? ==> Answered(s.client.seen))
      && WaitsForReply(Next(s, events[0]), events[1..])
  }

  predicate Polite(s: Sys) {
    HasPayload(s.client.Issued()) ==> Answered(s.client.seen)
  }

  predicate HasPayload(log: seq<Up>) {
    exists i :: 0 <= i < |log| && log[i].Payload?
  }

  lemma AnsweredIsSpoken(s: Sys)
    requires Inv(s) && Answered(s.client.seen)
    ensures !TooEarly(s.remote)
  {
    hide FrameBytes, AckBytes, DownTokens, PayloadBytes, WindowBytes;
    var i :| 0 <= i < |s.client.seen| && s.client.seen[i].Line?;
    var reply := s.client.seen[i].reply;
    assert s.remote.out[i] == Line(reply);
    LineIsToken(s.remote.out, reply);
  }

  lemma AnsweredStays(part: seq<Down>, log: seq<Down>)
    requires Answered(part) && part <= log
    ensures Answered(log)
  {
    var i :| 0 <= i < |part| && part[i].Line?;
    assert log[i].Line?;
  }

  lemma PoliteStep(s: Sys, e: Event)
    requires Inv(s) && Polite(s) && (e.ClientSends? ==> Answered(s.client.seen))
    ensures Polite(Next(s, e)) && !ReadsEarly(s, e)
  {
    hide Sound, OnMessage, OnEvent, EofLaw, SpokenLaw, Fresh, Answered, TooEarly;
    hide PayloadBytes, WindowBytes, FrameBytes, AckBytes;
    var t := Next(s, e);
    assert s.client.seen <= t.client.seen;
    if Answered(s.client.seen) {
      AnsweredStays(s.client.seen, t.client.seen);
      AnsweredIsSpoken(s);
    } else {
      SilentIssue(s, e);
      assert Readable(s) ==> s.client.Issued()[|s.remote.read|] == s.client.up[|s.remote.read|];
    }
  }

  lemma SilentIssue(s: Sys, e: Event)
    requires !HasPayload(s.client.Issued()) && !e.ClientSends?
    ensures !HasPayload(Next(s, e).client.Issued())
  {
    hide OnMessage, OnEvent;
    var c, d := s.client, Next(s, e).client;
    assert c.Issued()[..|c.up|] == c.up && c.up + [] == c.up;
    assert d.Issued() == c.Issued() || d.Issued() == c.up || d.Issued() == c.up + [Shut]
        || (exists m: Up :: !m.Payload? && d.Issued() == c.Issued() + [m]) by {
      match e
      case ClientCredits(n) => assert GiveCredit(c, n).Issued() == c.Issued() || GiveCredit(c, n).Issued() == c.Issued() + [Window(n)];
      case ClientFin => assert SendFin(c).Issued() == c.Issued() || SendFin(c).Issued() == c.Issued() + [Fin];
      case ClientFlushes(n) => assert Flush(c, n).Issued() == c.Issued();
      case _ =>
    }
  }

  lemma {:induction false} PoliteRun(s: Sys, events: seq<Event>)
    requires Inv(s) && Polite(s) && WaitsForReply(s, events)
    ensures !EverEarly(s, events)
    decreases |events|
  {
    hide Inv, Next, ReadsEarly, Polite, Answered;
    if events != [] {
      PoliteStep(s, events[0]);
      StepKeeps(s, events[0]);
      PoliteRun(Next(s, events[0]), events[1..]);
    }
  }

  /** A client that waits for the relay's first line before sending data loses none of it to admission. */
  lemma WaitingClientLosesNothing(total: int, peerBytes: int, events: seq<Event>)
    ensures WaitsForReply(Start(total, peerBytes), events) ==>
              && !EverEarly(Start(total, peerBytes), events)
              && Run(Start(total, peerBytes), events).remote.tcp
                 <= PayloadBytes(Run(Start(total, peerBytes), events).client.up)
  {
    hide Run, PayloadBytes, EverEarly, WaitsForReply, Inv;
    StartInv(total, peerBytes);
    UploadsFromTheStart(total, peerBytes, events);
    if WaitsForReply(Start(total, peerBytes), events) {
      assert FRESH_CLIENT.Issued() == [Command];
      PoliteRun(Start(total, peerBytes), events);
    }
  }
}
