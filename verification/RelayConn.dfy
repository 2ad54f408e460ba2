/**
 The relay's channel and flow as the objects they are: fields updated in place by
 the channel's queueing and credit methods and by the flow's quota, backlog and TCP
 methods. Every method is tied to the function of the old state it computes.
 */
module RelayServer {
  import opened Bytes
  import opened MuxProtocol
  import opened RelayChannel
  import opened RelayLaws
  import opened RelayEnds
  import opened Trap

  /** The process: bytes buffered over all flows. */
  class Relay {
    var buffered: int

    constructor ()
      ensures buffered == 0
    {
      buffered := 0;
    }
  }

  /** One WebSocket connection: bytes queued over its channels, and whether it is closed. */
  class Peer {
    var pendingBytes: int
    var closed: bool

    constructor ()
      ensures pendingBytes == 0 && !closed
    {
      pendingBytes, closed := 0, false;
    }

    method Reserve(n: nat) returns (ok: bool)
      modifies this`pendingBytes
      ensures ok <==> old(pendingBytes) + n <= MUX_SOCKET_BUFFER
      ensures pendingBytes == old(pendingBytes) + if ok then n else 0
    {
      ok := pendingBytes + n <= MUX_SOCKET_BUFFER;
      if ok {
        pendingBytes := pendingBytes + n;
      }
    }

    method Release(n: int)
      modifies this`pendingBytes
      ensures pendingBytes == old(pendingBytes) - n
    {
      pendingBytes := pendingBytes - n;
    }
  }

  class Conn {
    const peer: Peer
    const relay: Relay

    var ch: Channel
    var data: Option<Flow>
    var out: seq<Down>

    /** What went through the channel; only the record of it counts. */
    ghost var past: Remote

    ghost function View(): Remote
      reads this, peer, relay
    {
      past.(ch := ch, flow := data, total := relay.buffered, peerBytes := peer.pendingBytes,
            stopped := peer.closed, out := out)
    }

    /** The channel of a CONNECT or RESOLVE that has just been read. */
    constructor (peer: Peer, relay: Relay)
      requires !peer.closed
      ensures this.peer == peer && this.relay == relay
      ensures View() == Unopened(relay.buffered, peer.pendingBytes).(read := [Command])
      ensures Lawful(View())
    {
      this.peer, this.relay := peer, relay;
      ch, data, out := FRESH_CHANNEL, None, [];
      past := Unopened(0, 0).(read := [Command]);
      new;
      AskedIsLawful(relay.buffered, peer.pendingBytes);
    }

    ghost function Rank(): nat
      reads this, peer
    {
      (if ch.dead then 0 else 1) + if peer.closed then 0 else 1
    }

    // ---- The channel ----

    method Control(m: Down, full: bool)
      modifies this, peer, relay
      ensures View() == if old(peer.closed) then old(View())
                        else if full then RelayChannel.Stop(old(View()))
                        else old(View()).(out := old(out) + [m])
      decreases Rank(), 2
    {
      if full {
        Stop();
      }
      if !peer.closed {
        out := out + [m];
      }
    }

    method Stop()
      modifies this, peer, relay
      ensures View() == RelayChannel.Stop(old(View()))
      decreases Rank(), 1
    {
      if peer.closed {
        return;
      }
      peer.closed := true;
      Abort(false);
    }

    method Abort(full: bool)
      modifies this, peer, relay
      ensures View() == RelayChannel.Abort(old(View()), full)
      decreases Rank(), 3
    {
      hide RelayChannel.Stop, RelayChannel.EndFlow, KeepsFlow, Extends;
      if ch.dead {
        return;
      }
      peer.Release(ch.queued);
      ch := ch.(dead := true, queued := 0, queue := []);
      past := past.(aborted := true);
      DeadStops(View());
      Control(Closed, full);
      if data.Some? && data.value.phase != Ended {
        EndFlow();
        ch := ch.(closing := true);
      }
    }

    method EndFlow()
      modifies this`data, relay
      ensures View() == RelayChannel.EndFlow(old(View()))
    {
      if data.Some? && data.value.phase != Ended {
        relay.buffered := relay.buffered - data.value.buffered;
        data := Some(data.value.(phase := Ended, buffered := 0, pending := [], backlog := []));
      }
    }

    /** Send what the credit and the socket allow, then finish a graceful close. */
    method Drain(k: Socket)
      modifies this, peer, relay
      ensures View() == RelayChannel.Drain(old(View()), k)
    {
      if ch.dead {
        return;
      }
      var room: nat := k.room;
      var stuck := false;
      while ch.queue != [] && !peer.closed && room > 0 && !stuck
        invariant !ch.dead && (stuck ==> !CanSend(View()))
        invariant Pump(View(), room) == Pump(old(View()), k.room)
        decreases room, !stuck
      {
        var sent := SendHead();
        if sent {
          room := room - 1;
        } else {
          stuck := true;
        }
      }
      if ch.closing && ch.queue == [] {
        Control(Closed, k.full);
        ch := ch.(dead := true);
      }
    }

    /** One round of the loop; false when the window is used up. */
    method SendHead() returns (sent: bool)
      requires ch.queue != [] && !peer.closed
      modifies this, peer
      ensures sent <==> CanSend(old(View()))
      ensures View() == if sent then RelayChannel.SendHead(old(View())) else old(View())
    {
      sent := true;
      match ch.queue[0]
      case Note(reply) =>
        out := out + [Line(reply)];
        ch := ch.(queue := ch.queue[1..]);
      case Data(bytes) =>
        var count := Min(Min(|bytes|, ch.available), MUX_FRAME);
        if count == 0 {
          return false;
        }
        out := out + [Frame(bytes[..count])];
        var rest := if count == |bytes| then ch.queue[1..] else [Data(bytes[count..])] + ch.queue[1..];
        ch := ch.(available := ch.available - count, queued := ch.queued - count, queue := rest);
        peer.Release(count);
    }

    method Close(k: Socket)
      modifies this, peer, relay
      ensures View() == RelayChannel.Close(old(View()), k)
    {
      ch := ch.(closing := true);
      Drain(k);
    }

    method SendText(reply: Reply, k: Socket)
      modifies this, peer, relay
      ensures View() == RelayChannel.SendText(old(View()), reply, k)
    {
      hide RelayChannel.Drain, RelayChannel.Abort, KeepsFlow, Extends;
      if ch.dead {
        return;
      }
      if |ch.queue| >= 32 {
        Abort(k.full);
        return;
      }
      ch := ch.(queue := ch.queue + [Note(reply)]);
      past := past.(offered := past.offered + [Text(reply)]);
      Drain(k);
    }

    method SendBinary(bytes: seq<byte>, k: Socket)
      modifies this, peer, relay
      ensures View() == RelayChannel.SendBinary(old(View()), bytes, k)
    {
      hide RelayChannel.Drain, RelayChannel.Abort, KeepsFlow, Extends;
      if ch.dead {
        return;
      }
      if ch.queued + |bytes| > MUX_WINDOW + MUX_FRAME {
        Abort(k.full);
        return;
      }
      var reserved := peer.Reserve(|bytes|);
      if !reserved {
        Abort(k.full);
        return;
      }
      ch := ch.(queued := ch.queued + |bytes|, queue := ch.queue + [Data(bytes)]);
      past := past.(offered := past.offered + Octets(bytes));
      Drain(k);
    }

    method GrantWindow(n: nat, k: Socket)
      modifies this, peer, relay
      ensures View() == RelayChannel.GrantWindow(old(View()), n, k)
    {
      if ch.available + n > MUX_WINDOW {
        Stop();
        return;
      }
      ch := ch.(available := ch.available + n);
      Drain(k);
    }

    method Acknowledge(n: nat, full: bool)
      modifies this, peer, relay
      ensures View() == RelayChannel.Acknowledge(old(View()), n, full)
    {
      ch := ch.(incoming := ch.incoming - n);
      Control(Ack(n), full);
    }

    // ---- The flow ----

    method Finish(k: Socket)
      modifies this, peer, relay
      ensures View() == RelayChannel.Finish(old(View()), k)
    {
      if data.None? || data.value.phase == Ended {
        return;
      }
      EndFlow();
      Close(k);
    }

    /** Count n more bytes as buffered, or end the flow over its limits. */
    method Reserve(n: nat, k: Socket) returns (ok: bool)
      requires data.Some?
      modifies this, peer, relay
      ensures ok <==> HasRoom(old(View()), n)
      ensures View() == if ok then Charged(old(View()), n) else RelayChannel.Finish(old(View()), k)
    {
      var f := data.value;
      if f.buffered + n > FLOW_BUFFER_LIMIT || relay.buffered + n > RELAY_BUFFER_LIMIT
         || |f.pending| + |f.backlog| >= 1024 {
        Finish(k);
        return false;
      }
      data := Some(f.(buffered := f.buffered + n));
      relay.buffered := relay.buffered + n;
      return true;
    }

    method ReleaseBuffer(n: int)
      requires data.Some?
      modifies this`data, relay
      ensures View() == Charged(old(View()), -n)
    {
      data := Some(data.value.(buffered := data.value.buffered - n));
      relay.buffered := relay.buffered - n;
    }

    method WriteTcp(bytes: seq<byte>, a: Answer)
      requires data.Some? && a.wrote <= |bytes|
      modifies this, peer, relay
      ensures View() == RelayChannel.WriteTcp(old(View()), bytes, a)
    {
      hide RelayChannel.Finish, RelayChannel.Acknowledge, RelayChannel.UnshiftBacklog, Extends;
      var wrote := a.wrote;
      if wrote < 0 {
        Finish(a.second);
        return;
      }
      past := past.(tcp := past.tcp + bytes[..wrote]);
      if wrote > 0 {
        Acknowledge(wrote, a.first.full);
      }
      if wrote < |bytes| {
        UnshiftBacklog(bytes[wrote..], a.second);
      }
    }

    /** Put bytes in front of the backlog, within the limits. */
    method UnshiftBacklog(bytes: seq<byte>, k: Socket)
      requires data.Some?
      modifies this, peer, relay
      ensures View() == RelayChannel.UnshiftBacklog(old(View()), bytes, k)
    {
      hide RelayChannel.Finish, Extends, HasRoom;
      var room := Reserve(|bytes|, k);
      if room {
        data := Some(data.value.(backlog := [bytes] + data.value.backlog));
      }
    }

    /** Put bytes at the end of the backlog, within the limits. */
    method PushBacklog(bytes: seq<byte>, k: Socket)
      requires data.Some?
      modifies this, peer, relay
      ensures View() == RelayChannel.PushBacklog(old(View()), bytes, k)
    {
      hide RelayChannel.Finish, Extends, HasRoom;
      var room := Reserve(|bytes|, k);
      if room {
        data := Some(data.value.(backlog := data.value.backlog + [bytes]));
      }
    }

    method ForwardCharged(a: Answer)
      requires data.Some? && data.value.phase != Ended && data.value.pending != []
      requires a.wrote <= |data.value.pending[0].bytes|
      modifies this, peer, relay
      ensures View() == RelayChannel.ForwardCharged(old(View()), a)
    {
      hide RelayChannel.PushBacklog, RelayChannel.WriteTcp, RelayChannel.SendBinary, KeepsFlow, Extends;
      var item := data.value.pending[0];
      data := Some(data.value.(pending := data.value.pending[1..]));
      ReleaseBuffer(|item.bytes|);
      if item.upload {
        if data.value.phase == Dialing || data.value.backlog != [] {
          PushBacklog(item.bytes, a.second);
        } else {
          WriteTcp(item.bytes, a);
        }
      } else {
        SendBinary(item.bytes, a.first);
      }
    }

    method CompletePeer(a: Answer)
      requires data.Some?
      modifies this, peer, relay
      ensures View() == RelayChannel.CompletePeer(old(View()), a)
    {
      if !data.value.peerEnded || |data.value.pending| > 0 || data.value.phase == Ended {
        return;
      }
      SendText(Eof, a.first);
      Finish(a.second);
    }

    /** Charge and forward queued items; `answers` are the outside's, round by round. */
    method DrainQuota(start: nat, answers: nat -> Answer)
      requires data.Some?
      modifies this, peer, relay
      ensures View() == RelayChannel.DrainQuota(old(View()), start, answers)
    {
      hide RelayChannel.Finish, RelayChannel.CompletePeer, RelayChannel.ForwardCharged, KeepsFlow, Extends;
      if data.value.charging || data.value.phase == Ended {
        return;
      }
      var i := start;
      while |data.value.pending| > 0
        invariant data.Some? && !data.value.charging && data.value.phase != Ended
        invariant RelayChannel.DrainQuota(View(), i, answers) == RelayChannel.DrainQuota(old(View()), start, answers)
        decreases |data.value.pending|
      {
        var a := answers(i);
        match a.verdict {
          case Throws =>
            Finish(a.second);
            return;
          case Later =>
            data := Some(data.value.(charging := true));
            return;
          case No =>
            Finish(a.second);
            return;
          case Yes =>
        }
        ForwardCharged(Clamp(a, |data.value.pending[0].bytes|));
        if data.value.phase == Ended {
          return;
        }
        i := i + 1;
      }
      CompletePeer(answers(i));
    }

    method DrainBacklog(start: nat, answers: nat -> Answer)
      requires data.Some?
      modifies this, peer, relay
      ensures View() == RelayChannel.DrainBacklog(old(View()), start, answers)
    {
      hide RelayChannel.DrainBacklog, BacklogRound, KeepsFlow, Extends;
      var i := start;
      BacklogUnrolls(View(), i, answers);
      while data.value.phase == Open && |data.value.backlog| > 0
        invariant data.Some?
        invariant RelayChannel.DrainBacklog(View(), i, answers) == RelayChannel.DrainBacklog(old(View()), start, answers)
        decreases |data.value.backlog|
      {
        var before := |data.value.backlog|;
        BacklogUnrolls(View(), i, answers);
        WriteHead(answers(i));
        if |data.value.backlog| >= before {
          return;
        }
        i := i + 1;
      }
      BacklogUnrolls(View(), i, answers);
    }

    /** Write the head of the backlog. */
    method WriteHead(a: Answer)
      requires data.Some? && data.value.backlog != []
      modifies this, peer, relay
      ensures data.Some? && View() == BacklogRound(old(View()), a)
    {
      hide RelayChannel.WriteTcp, KeepsFlow, Extends, Clamp;
      var bytes := data.value.backlog[0];
      data := Some(data.value.(backlog := data.value.backlog[1..]));
      ReleaseBuffer(|bytes|);
      WriteTcp(bytes, Clamp(a, |bytes|));
    }

    method Enqueue(bytes: seq<byte>, upload: bool, maxBytes: nat, answers: nat -> Answer)
      requires data.Some? && data.value.phase != Ended
      modifies this, peer, relay
      ensures View() == RelayChannel.Enqueue(old(View()), bytes, upload, maxBytes, answers)
    {
      hide RelayChannel.Finish, RelayChannel.Pend, KeepsFlow, Extends;
      if |bytes| == 0 {
        return;
      }
      var f := data.value;
      data := Some(f.(bytes := f.bytes + |bytes|));
      if f.bytes + |bytes| > maxBytes {
        past := if upload then past.(late := past.late + bytes) else past;
        Finish(answers(0).second);
        return;
      }
      Pend(bytes, upload, answers);
    }

    method Pend(bytes: seq<byte>, upload: bool, answers: nat -> Answer)
      requires data.Some? && data.value.phase != Ended
      modifies this, peer, relay
      ensures View() == RelayChannel.Pend(old(View()), bytes, upload, answers)
    {
      hide RelayChannel.Finish, RelayChannel.DrainQuota, KeepsFlow, Extends, HasRoom;
      ghost var was := View();
      RoomIgnoresRecord(was, |bytes|, past.late + bytes);
      past := if upload && !HasRoom(was, |bytes|) then past.(late := past.late + bytes) else past;
      var room := Reserve(|bytes|, answers(0).second);
      if !room {
        return;
      }
      data := Some(data.value.(pending := data.value.pending + [Charge(bytes, upload)]));
      past := if upload then past.(received := past.received + bytes) else past.(arrived := past.arrived + bytes);
      DrainQuota(1, answers);
    }

    /** A data frame from the client. */
    method Receive(bytes: seq<byte>, maxBytes: nat, answers: nat -> Answer)
      modifies this, peer, relay
      ensures View() == RelayChannel.Receive(old(View()), bytes, maxBytes, answers)
    {
      hide RelayChannel.Enqueue, RelayChannel.Abort, KeepsFlow, Extends;
      if ch.dead || ch.closing || data.None? {
        past := if data.None? && !ch.dead && !ch.closing
                then past.(early := past.early + bytes, lost := past.lost + |bytes|)
                else past.(late := past.late + bytes, lost := past.lost + |bytes|);
        return;
      }
      ch := ch.(incoming := ch.incoming + |bytes|);
      if ch.incoming > MUX_WINDOW {
        past := past.(late := past.late + bytes);
        Abort(answers(0).first.full);
        return;
      }
      if data.value.phase == Ended {
        past := past.(late := past.late + bytes);
        return;
      }
      Enqueue(bytes, true, maxBytes, answers);
    }

    // ---- Everything that happens to the channel ----

    /** The admission of the flow is decided: a refusal is answered and the channel closed. */
    method Admit(granted: bool, a: Answer)
      modifies this, peer, relay
      ensures View() == RelayChannel.Admit(old(View()), granted, a)
    {
      hide RelayChannel.SendText, RelayChannel.Close, KeepsFlow, Extends;
      if data.Some? || ch.closing {
        return;
      }
      if !granted {
        SendText(Error, a.first);
        Close(a.second);
        return;
      }
      data := Some(FRESH_FLOW);
      if ch.dead {
        data := Some(FRESH_FLOW.(phase := Ended));
      }
    }

    /** FIN is noted by a flow that is there and not over. */
    method NoteFin()
      modifies this`data
      ensures View() == RelayChannel.NoteFin(old(View()))
    {
      if data.Some? && data.value.phase != Ended {
        data := Some(data.value.(fin := true));
      }
    }

    /** The sweep finds the flow quiet after FIN: EOF, and the flow ends with what still waits. */
    method QuietEnd(a: Answer)
      modifies this, peer, relay
      ensures View() == RelayChannel.QuietEnd(old(View()), a)
    {
      hide RelayChannel.SendText, RelayChannel.Finish, KeepsFlow, Extends;
      if data.Some? && data.value.phase == Open && data.value.fin {
        SendText(Eof, a.first);
        Finish(a.second);
      }
    }

    /** TCP is open: say OK and write what was held back. */
    method Connect(answers: nat -> Answer)
      modifies this, peer, relay
      ensures View() == RelayChannel.Connect(old(View()), answers)
    {
      hide RelayChannel.SendText, RelayChannel.DrainBacklog, KeepsFlow;
      if data.None? || data.value.phase != Dialing {
        return;
      }
      data := Some(data.value.(phase := Open));
      SendText(Okay, answers(0).first);
      DrainBacklog(1, answers);
    }

    /** The quota service answers about the head of the quota queue. */
    method QuotaAnswer(granted: bool, answers: nat -> Answer)
      modifies this, peer, relay
      ensures View() == RelayChannel.QuotaAnswer(old(View()), granted, answers)
    {
      hide RelayChannel.Finish, RelayChannel.ForwardCharged, RelayChannel.DrainQuota, KeepsFlow, Extends;
      if data.None? || data.value.phase == Ended || !data.value.charging || data.value.pending == [] {
        return;
      }
      data := Some(data.value.(charging := false));
      if !granted {
        Finish(answers(0).second);
        return;
      }
      ForwardCharged(Clamp(answers(0), |data.value.pending[0].bytes|));
      DrainQuota(1, answers);
    }

    method OnMessage(m: Up, maxBytes: nat, answers: nat -> Answer)
      requires past.read != []
      modifies this, peer, relay
      ensures View() == RelayChannel.OnMessage(old(View()), m, maxBytes, answers)
    {
      hide RelayChannel.Stop, RelayChannel.GrantWindow, RelayChannel.Receive, RelayChannel.Abort, Extends;
      past := past.(read := past.read + [m]);
      match m
      case Command => Stop();
      case Fin => NoteFin();
      case Window(n) =>
        if !ch.dead {
          GrantWindow(n, answers(0).first);
        }
      case Payload(bytes) => Receive(bytes, maxBytes, answers);
      case Shut => Abort(answers(0).first.full);
    }

    method OnEvent(e: RelayEvent, maxBytes: nat, answers: nat -> Answer)
      modifies this, peer, relay
      ensures View() == RelayChannel.OnEvent(old(View()), e, maxBytes, answers)
    {
      hide RelayChannel.SendText, RelayChannel.Close, RelayChannel.Enqueue, RelayChannel.DrainBacklog;
      hide RelayChannel.CompletePeer, RelayChannel.Finish, RelayChannel.Drain, RelayChannel.Stop, RelayChannel.Abort;
      hide RelayChannel.Admit, RelayChannel.Connect, RelayChannel.QuotaAnswer, RelayChannel.QuietEnd, KeepsFlow, Extends;
      var a := answers(0);
      match e
      case Admitted(granted) => Admit(granted, a);
      case OpenFailed => Abort(a.first.full);
      case Connected => Connect(answers);
      case TcpData(bytes) =>
        if data.Some? && data.value.phase == Open {
          Enqueue(bytes, false, maxBytes, answers);
        }
      case TcpDrain =>
        if data.Some? {
          DrainBacklog(0, answers);
        }
      case TcpEnded =>
        if data.Some? {
          data := Some(data.value.(peerEnded := true));
          CompletePeer(a);
        }
      case QuotaAnswered(granted) => QuotaAnswer(granted, answers);
      case Conclude(ending) =>
        if data.Some? && data.value.phase != Ended {
          if ending != Silent {
            SendText(EndingReply(ending), a.first);
          }
          Finish(a.second);
        }
      case QuietAfterFin => QuietEnd(a);
      case SocketWritable => Drain(a.first);
      case ConnectionLost => Stop();
    }

    /**
     Whatever the client sends, TCP, the quota service and the socket answer and other
     channels do to the shared counts, the channel keeps every law: its queue is
     measured, credit and acknowledgements add up, both streams are in order, CLOSE is
     the last thing sent and EOF the last thing offered. All of TCP's bytes come before
     it unless the flow ended for being quiet after FIN while some waited for quota.
     */
    method Serve(inputs: seq<Input>)
      requires past.read != [] && Lawful(View())
      requires forall i :: 0 <= i < |inputs| ==> WellFormed(inputs[i])
      modifies this, peer, relay
      ensures View() == Replay(old(View()), inputs)
      ensures Lawful(View())
      ensures CutOff(View()) <==> CutOff(old(View())) || EverCutsOff(old(View()), inputs)
    {
      hide RelayChannel.OnMessage, RelayChannel.OnEvent, Lawful, Extends, WellFormed, CutOff, CutsOff;
      assert inputs[0..] == inputs;
      for i := 0 to |inputs|
        invariant past.read != [] && Lawful(View())
        invariant Replay(View(), inputs[i..]) == Replay(old(View()), inputs)
        invariant CutOff(View()) || EverCutsOff(View(), inputs[i..]) <==> CutOff(old(View())) || EverCutsOff(old(View()), inputs)
      {
        assert inputs[i..][0] == inputs[i] && inputs[i..][1..] == inputs[i + 1..];
        StepLawful(View(), inputs[i]);
        match inputs[i] {
          case Message(m, maxBytes, answers) => OnMessage(m, maxBytes, answers);
          case Happens(e, maxBytes, answers) => OnEvent(e, maxBytes, answers);
          case Elsewhere(buffered, queued) =>
            relay.buffered := relay.buffered + buffered;
            peer.pendingBytes := peer.pendingBytes + queued;
        }
      }
    }
  }

  /** What reaches a channel: a client message, an event, or other channels moving the shared counts. */
  datatype Input =
    | Message(m: Up, maxBytes: nat, answers: nat -> Answer)
    | Happens(e: RelayEvent, maxBytes: nat, answers: nat -> Answer)
    | Elsewhere(buffered: int, queued: int)

  /** Data frames are not empty, by their encoding. */
  predicate WellFormed(i: Input) {
    i.Message? && i.m.Payload? ==> i.m.bytes != []
  }

  function Stepped(s: Remote, i: Input): (r: Remote)
    requires s.read != []
    ensures r.read != []
  {
    match i
    case Message(m, maxBytes, answers) => RelayChannel.OnMessage(s, m, maxBytes, answers)
    case Happens(e, maxBytes, answers) => RelayChannel.OnEvent(s, e, maxBytes, answers)
    case Elsewhere(buffered, queued) => s.(total := s.total + buffered, peerBytes := s.peerBytes + queued)
  }

  function Replay(s: Remote, inputs: seq<Input>): Remote
    requires s.read != []
    decreases |inputs|
  {
    if inputs == [] then s else Replay(Stepped(s, inputs[0]), inputs[1..])
  }

  /** Somewhere in the run a flow quiet after FIN ends while a download waits for quota. */
  predicate EverCutsOff(s: Remote, inputs: seq<Input>)
    requires s.read != []
    decreases |inputs|
  {
    inputs != [] &&
      (|| (inputs[0].Happens? && CutsOff(s, inputs[0].e))
       || EverCutsOff(Stepped(s, inputs[0]), inputs[1..]))
  }

  predicate Lawful(s: Remote) {
    Sound(s) && EofLaw(s)
  }

  lemma AskedIsLawful(total: int, peerBytes: int)
    ensures Lawful(Unopened(total, peerBytes).(read := [Command]))
  {
    hide Sound;
    UnopenedIsSound(total, peerBytes);
    assert [] + [Command] == [Command];
    CommandKeeps(Unopened(total, peerBytes));
  }

  lemma StepLawful(s: Remote, i: Input)
    requires Lawful(s) && s.read != [] && WellFormed(i)
    ensures Lawful(Stepped(s, i))
    ensures CutOff(Stepped(s, i)) <==> CutOff(s) || (i.Happens? && CutsOff(s, i.e))
  {
    hide Sound, RelayChannel.OnMessage, RelayChannel.OnEvent, CutsOff;
    match i
    case Message(m, maxBytes, answers) =>
      OnMessageKeeps(s, m, maxBytes, answers);
      OnMessageEof(s, m, maxBytes, answers);
    case Happens(e, maxBytes, answers) =>
      OnEventKeeps(s, e, maxBytes, answers);
      OnEventEof(s, e, maxBytes, answers);
    case Elsewhere(buffered, queued) =>
      OthersKeep(s, s.total + buffered, s.peerBytes + queued);
  }

  lemma RoomIgnoresRecord(s: Remote, n: nat, late: seq<byte>)
    requires s.flow.Some?
    ensures HasRoom(s.(late := late), n) == HasRoom(s, n)
  {
  }

  /** Stopping after this channel is already dead only marks the connection. */
  lemma DeadStops(s: Remote)
    ensures s.ch.dead ==> RelayChannel.Stop(s) == s.(stopped := true)
  {
  }

  /** One round of writing the backlog. */
  function BacklogRound(s: Remote, a: Answer): (r: Remote)
    requires s.flow.Some? && s.flow.value.backlog != []
    ensures r.flow.Some?
  {
    var f := s.flow.value;
    var taken := Charged(s.(flow := Some(f.(backlog := f.backlog[1..]))), -|f.backlog[0]|);
    RelayChannel.WriteTcp(taken, f.backlog[0], Clamp(a, |f.backlog[0]|))
  }

  lemma BacklogUnrolls(s: Remote, i: nat, answers: nat -> Answer)
    requires s.flow.Some?
    ensures RelayChannel.DrainBacklog(s, i, answers) ==
      if s.flow.value.phase != Open || s.flow.value.backlog == [] then s
      else if |BacklogRound(s, answers(i)).flow.value.backlog| >= |s.flow.value.backlog| then BacklogRound(s, answers(i))
      else RelayChannel.DrainBacklog(BacklogRound(s, answers(i)), i + 1, answers)
  {
    hide RelayChannel.WriteTcp, Clamp;
  }
}
