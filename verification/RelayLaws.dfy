/** What every operation on the relay's end of a channel keeps. */
module RelayLaws {
  import opened Bytes
  import opened MuxProtocol
  import opened RelayChannel
  import opened Trap

  function QueueBytes(queue: seq<Item>): nat {
    if queue == [] then 0 else
      (if queue[0].Data? then |queue[0].bytes| else 0) + QueueBytes(queue[1..])
  }

  function ItemTokens(item: Item): seq<Token> {
    match item
    case Note(reply) => [Text(reply)]
    case Data(bytes) => Octets(bytes)
  }

  function QueueTokens(queue: seq<Item>): seq<Token> {
    if queue == [] then [] else ItemTokens(queue[0]) + QueueTokens(queue[1..])
  }

  function TokenBytes(tokens: seq<Token>): seq<byte> {
    if tokens == [] then [] else
      (if tokens[0].Octet? then [tokens[0].b] else []) + TokenBytes(tokens[1..])
  }

  /** The bytes waiting for quota in one direction. */
  function Waiting(pending: seq<Charge>, upload: bool): seq<byte> {
    if pending == [] then [] else
      (if pending[0].upload == upload then pending[0].bytes else []) + Waiting(pending[1..], upload)
  }

  lemma EmptyQueue()
    ensures QueueBytes([]) == 0 && QueueTokens([]) == []
  {
  }

  // ---- Appending ----

  lemma {:induction false} QueueSnoc(queue: seq<Item>, item: Item)
    ensures QueueBytes(queue + [item]) == QueueBytes(queue) + if item.Data? then |item.bytes| else 0
    ensures QueueTokens(queue + [item]) == QueueTokens(queue) + ItemTokens(item)
  {
    if queue == [] {
      assert queue + [item] == [item];
      assert QueueTokens([]) == [];
    } else {
      hide QueueBytes, QueueTokens, ItemTokens;
      var head, tail := queue[0], queue[1..];
      assert queue == [head] + tail && queue + [item] == [head] + (tail + [item]);
      QueueSnoc(tail, item);
      QueueCons(head, tail);
      QueueCons(head, tail + [item]);
      assert ItemTokens(head) + (QueueTokens(tail) + ItemTokens(item))
          == ItemTokens(head) + QueueTokens(tail) + ItemTokens(item);
    }
  }

  lemma {:induction false} TokenBytesConcat(a: seq<Token>, b: seq<Token>)
    ensures TokenBytes(a + b) == TokenBytes(a) + TokenBytes(b)
  {
    if a == [] {
      assert a + b == b;
    } else {
      TokenBytesConcat(a[1..], b);
      assert (a + b)[1..] == a[1..] + b;
      var head := if a[0].Octet? then [a[0].b] else [];
      assert head + (TokenBytes(a[1..]) + TokenBytes(b)) == head + TokenBytes(a[1..]) + TokenBytes(b);
    }
  }

  lemma {:induction false} OctetBytes(bytes: seq<byte>)
    ensures TokenBytes(Octets(bytes)) == bytes
  {
    if bytes != [] {
      OctetBytes(bytes[1..]);
      assert Octets(bytes)[1..] == Octets(bytes[1..]);
    }
  }

  lemma {:induction false} WaitingSnoc(pending: seq<Charge>, item: Charge, upload: bool)
    ensures Waiting(pending + [item], upload)
         == Waiting(pending, upload) + if item.upload == upload then item.bytes else []
  {
    if pending == [] {
      assert pending + [item] == [item];
    } else {
      hide Waiting;
      var head, tail := pending[0], pending[1..];
      assert pending == [head] + tail && pending + [item] == [head] + (tail + [item]);
      WaitingSnoc(tail, item, upload);
      WaitingCons(head, tail, upload);
      WaitingCons(head, tail + [item], upload);
    }
  }

  lemma OctetsSplit(bytes: seq<byte>, count: nat)
    requires count <= |bytes|
    ensures Octets(bytes) == Octets(bytes[..count]) + Octets(bytes[count..])
  {
  }

  // ---- The laws ----

  predicate QueueLaw(s: Remote) {
    && s.ch.queued == QueueBytes(s.ch.queue)
    && (s.ch.dead ==> s.ch.queue == [])
  }

  /** Credit spent on frames plus credit left is the window plus what was granted. */
  predicate CreditLaw(s: Remote) {
    && s.ch.available <= MUX_WINDOW
    && s.ch.available + |FrameBytes(s.out)| <= MUX_WINDOW + WindowBytes(s.read)
    && (!s.ch.dead ==> s.ch.available + |FrameBytes(s.out)| == MUX_WINDOW + WindowBytes(s.read))
  }

  /** Frames carry 1 to MUX_FRAME bytes, and a CLOSE is the last thing sent. */
  predicate WireLaw(s: Remote) {
    forall i :: 0 <= i < |s.out| ==>
      && (s.out[i].Frame? ==> 1 <= |s.out[i].bytes| <= MUX_FRAME)
      && (s.out[i].Ack? ==> s.out[i].count > 0)
      && (s.out[i].Closed? ==> i == |s.out| - 1 && s.ch.dead)
  }

  /** Sent and queued is what was offered, in order, unless the queue was dropped. */
  predicate OrderLaw(s: Remote) {
    && DownTokens(s.out) + QueueTokens(s.ch.queue) <= s.offered
    && (!s.aborted ==> DownTokens(s.out) + QueueTokens(s.ch.queue) == s.offered)
  }

  /** `hole` is an upload taken out of the buffers that TCP is still to be given. */
  predicate UploadLaw(s: Remote, hole: seq<byte>) {
    && PayloadBytes(s.read) == s.early + s.received + s.late
    && 0 <= s.ch.incoming
    && s.ch.incoming + AckBytes(s.out) + s.lost <= |PayloadBytes(s.read)|
    && (!s.ch.dead ==> s.ch.incoming + AckBytes(s.out) + s.lost == |PayloadBytes(s.read)|)
    && s.tcp <= s.received
    && (s.flow.None? ==> s.received == [] && s.ch.incoming == 0)
    && (s.flow.None? && !s.ch.dead && !s.ch.closing ==> s.late == [])
    && (s.Live() ==>
          var f := s.flow.value;
          && s.late == []
          && s.received == s.tcp + hole + Concat(f.backlog) + Waiting(f.pending, true)
          && s.ch.incoming == |hole| + |Concat(f.backlog)| + |Waiting(f.pending, true)|
          && (f.phase == Dialing ==> s.tcp == []))
  }

  /** `hole` is a download taken out of the buffers that is still to be offered. */
  predicate DownloadLaw(s: Remote, hole: seq<byte>) {
    && TokenBytes(s.offered) <= s.arrived
    && (s.flow.None? ==> s.arrived == [])
    && (s.Live() ==> s.arrived == TokenBytes(s.offered) + hole + Waiting(s.flow.value.pending, false))
  }

  predicate PhaseLaw(s: Remote) {
    && (s.stopped ==> s.ch.dead)
    && (s.aborted ==> s.ch.dead)
    && (s.Live() ==> !s.ch.dead && !s.ch.closing)
    && (s.Live() && s.flow.value.charging ==> s.flow.value.pending != [])
  }

  predicate Partial(s: Remote, up: seq<byte>, down: seq<byte>) {
    QueueLaw(s) && CreditLaw(s) && WireLaw(s) && OrderLaw(s) && UploadLaw(s, up) && DownloadLaw(s, down)
    && PhaseLaw(s)
  }

  predicate Sound(s: Remote) {
    Partial(s, [], [])
  }

  lemma UnopenedIsSound(total: int, peerBytes: int)
    ensures Sound(Unopened(total, peerBytes))
  {
  }

  // ---- The channel keeps them ----

  /** Sending a line from the head of the queue. */
  lemma SendLine(s: Remote, up: seq<byte>, down: seq<byte>)
    requires Partial(s, up, down) && !s.ch.dead && CanSend(s) && s.ch.queue[0].Note?
    ensures Partial(SendHead(s), up, down)
  {
    hide FrameBytes, AckBytes, DownTokens, PayloadBytes, WindowBytes, Octets, Concat, Waiting, TokenBytes;
    DownSnoc(s.out, Line(s.ch.queue[0].reply));
    assert DownTokens(s.out) + [Text(s.ch.queue[0].reply)] + QueueTokens(s.ch.queue[1..])
        == DownTokens(s.out) + QueueTokens(s.ch.queue);
  }

  /** Taking `count` bytes off the data item at the head. */
  lemma HeadSent(queue: seq<Item>, count: nat)
    requires queue != [] && queue[0].Data? && 0 < count <= |queue[0].bytes|
    ensures QueueBytes(WithoutHead(queue, count)) == QueueBytes(queue) - count
    ensures QueueTokens(queue) == Octets(queue[0].bytes[..count]) + QueueTokens(WithoutHead(queue, count))
  {
    hide Octets, QueueTokens, QueueBytes;
    var bytes, tail := queue[0].bytes, queue[1..];
    assert queue == [Data(bytes)] + tail;
    QueueCons(Data(bytes), tail);
    if count < |bytes| {
      QueueCons(Data(bytes[count..]), tail);
      OctetsSplit(bytes, count);
      assert Octets(bytes[..count]) + (Octets(bytes[count..]) + QueueTokens(tail))
          == Octets(bytes) + QueueTokens(tail);
    } else {
      assert bytes[..count] == bytes;
    }
  }

  lemma QueueCons(item: Item, tail: seq<Item>)
    ensures QueueBytes([item] + tail) == (if item.Data? then |item.bytes| else 0) + QueueBytes(tail)
    ensures QueueTokens([item] + tail) == ItemTokens(item) + QueueTokens(tail)
  {
    assert ([item] + tail)[1..] == tail;
  }

  /** Sending a frame from the head of the queue. */
  lemma SendFrame(s: Remote, up: seq<byte>, down: seq<byte>)
    requires Partial(s, up, down) && !s.ch.dead && CanSend(s) && s.ch.queue[0].Data?
    ensures Partial(SendHead(s), up, down)
  {
    hide FrameBytes, AckBytes, DownTokens, PayloadBytes, WindowBytes, Octets, Concat, Waiting, TokenBytes;
    hide QueueBytes, QueueTokens;
    var bytes, count := s.ch.queue[0].bytes, Count(s);
    DownSnoc(s.out, Frame(bytes[..count]));
    HeadSent(s.ch.queue, count);
    assert DownTokens(s.out) + Octets(bytes[..count]) + QueueTokens(WithoutHead(s.ch.queue, count))
        == DownTokens(s.out) + QueueTokens(s.ch.queue);
  }

  lemma {:induction false} PumpKeeps(s: Remote, room: nat, up: seq<byte>, down: seq<byte>)
    requires Partial(s, up, down) && !s.ch.dead
    ensures Partial(Pump(s, room), up, down)
    decreases room
  {
    hide Partial;
    if room > 0 && CanSend(s) {
      if s.ch.queue[0].Note? {
        SendLine(s, up, down);
      } else {
        SendFrame(s, up, down);
      }
      PumpKeeps(SendHead(s), room - 1, up, down);
    }
  }

  lemma EndFlowKeeps(s: Remote, up: seq<byte>, down: seq<byte>)
    requires Partial(s, up, down)
    ensures Sound(EndFlow(s)) && !EndFlow(s).Live()
  {
    hide FrameBytes, AckBytes, DownTokens, PayloadBytes, WindowBytes, Octets, Concat, Waiting, TokenBytes;
  }

  lemma AbortKeeps(s: Remote, full: bool, up: seq<byte>, down: seq<byte>)
    requires Partial(s, up, down)
    ensures Sound(Abort(s, full)) && Abort(s, full).ch.dead
  {
    hide FrameBytes, AckBytes, DownTokens, PayloadBytes, WindowBytes, Octets, Concat, Waiting, TokenBytes;
    hide QueueBytes, QueueTokens;
    DownSnoc(s.out, Closed);
    assert QueueBytes([]) == 0 && QueueTokens([]) == [] by { EmptyQueue(); }
  }

  lemma StopKeeps(s: Remote, up: seq<byte>, down: seq<byte>)
    requires Partial(s, up, down)
    ensures Sound(Stop(s)) && Stop(s).ch.dead
  {
    hide FrameBytes, AckBytes, DownTokens, PayloadBytes, WindowBytes, Octets, Concat, Waiting, TokenBytes;
    hide QueueBytes, QueueTokens;
    EmptyQueue();
  }

  lemma DrainKeeps(s: Remote, k: Socket, up: seq<byte>, down: seq<byte>)
    requires Partial(s, up, down)
    ensures Partial(Drain(s, k), up, down)
  {
    hide FrameBytes, AckBytes, DownTokens, PayloadBytes, WindowBytes, Octets, Concat, Waiting, TokenBytes;
    hide QueueBytes, QueueTokens;
    hide Pump;
    if !s.ch.dead {
      PumpKeeps(s, k.room, up, down);
      var p := Pump(s, k.room);
      StopKeeps(p, up, down);
      DownSnoc(p.out, Closed);
    }
  }

  lemma CloseKeeps(s: Remote, k: Socket)
    requires Sound(s) && !s.Live()
    ensures Sound(Close(s, k)) && !Close(s, k).Live()
  {
    hide FrameBytes, AckBytes, DownTokens, PayloadBytes, WindowBytes, Octets, Concat, Waiting, TokenBytes;
    hide QueueBytes, QueueTokens;
    hide Drain;
    DrainKeeps(s.(ch := s.ch.(closing := true)), k, [], []);
  }

  lemma SendTextKeeps(s: Remote, reply: Reply, k: Socket, up: seq<byte>, down: seq<byte>)
    requires Partial(s, up, down)
    ensures Partial(SendText(s, reply, k), up, down)
  {
    hide FrameBytes, AckBytes, DownTokens, PayloadBytes, WindowBytes, Octets, Concat, Waiting, TokenBytes;
    hide QueueBytes, QueueTokens;
    hide Drain, Abort;
    if !s.ch.dead {
      if |s.ch.queue| >= 32 {
        AbortKeeps(s, k.full, up, down);
      } else {
        QueueSnoc(s.ch.queue, Note(reply));
        TokenBytesConcat(s.offered, [Text(reply)]);
        assert TokenBytes([Text(reply)]) == [] by { NoBytes(reply); }
        var t := s.(ch := s.ch.(queue := s.ch.queue + [Note(reply)]), offered := s.offered + [Text(reply)]);
        assert DownTokens(s.out) + QueueTokens(t.ch.queue)
            == DownTokens(s.out) + QueueTokens(s.ch.queue) + [Text(reply)];
        DrainKeeps(t, k, up, down);
      }
    }
  }

  lemma NoBytes(reply: Reply)
    ensures TokenBytes([Text(reply)]) == []
  {
    assert TokenBytes([Text(reply)]) == [] + TokenBytes([Text(reply)][1..]);
  }

  /** A download that left the buffers ends up offered. */
  lemma SendBinaryKeeps(s: Remote, bytes: seq<byte>, k: Socket)
    requires Partial(s, [], bytes) && s.Live()
    ensures Sound(SendBinary(s, bytes, k))
  {
    hide FrameBytes, AckBytes, DownTokens, PayloadBytes, WindowBytes, Octets, Concat, Waiting, TokenBytes;
    hide QueueBytes, QueueTokens;
    hide Drain, Abort;
    if !s.ch.dead {
      if s.ch.queued + |bytes| > MUX_WINDOW + MUX_FRAME || s.peerBytes + |bytes| > MUX_SOCKET_BUFFER {
        AbortKeeps(s, k.full, [], bytes);
      } else {
        QueueSnoc(s.ch.queue, Data(bytes));
        TokenBytesConcat(s.offered, Octets(bytes));
        OctetBytes(bytes);
        var t := s.(ch := s.ch.(queue := s.ch.queue + [Data(bytes)], queued := s.ch.queued + |bytes|),
                    peerBytes := s.peerBytes + |bytes|, offered := s.offered + Octets(bytes));
        assert DownTokens(s.out) + QueueTokens(t.ch.queue)
            == DownTokens(s.out) + QueueTokens(s.ch.queue) + Octets(bytes);
        DrainKeeps(t, k, [], []);
      }
    }
  }

  /** Credit that fits in the window is added; `s` has read it but not applied it. */
  lemma GrantWindowKeeps(s: Remote, n: nat, k: Socket)
    requires QueueLaw(s) && WireLaw(s) && OrderLaw(s) && UploadLaw(s, []) && DownloadLaw(s, []) && PhaseLaw(s)
    requires !s.ch.dead && s.ch.available <= MUX_WINDOW
    requires s.ch.available + |FrameBytes(s.out)| + n == MUX_WINDOW + WindowBytes(s.read)
    ensures Sound(GrantWindow(s, n, k))
  {
    hide FrameBytes, AckBytes, DownTokens, PayloadBytes, WindowBytes, Octets, Concat, Waiting, TokenBytes;
    hide QueueBytes, QueueTokens;
    hide Drain;
    if s.ch.available + n <= MUX_WINDOW {
      DrainKeeps(s.(ch := s.ch.(available := s.ch.available + n)), k, [], []);
    } else {
      EmptyQueue();
    }
  }

  // ---- The flow keeps them ----

  lemma FinishKeeps(s: Remote, k: Socket, up: seq<byte>, down: seq<byte>)
    requires Partial(s, up, down)
    ensures Sound(Finish(s, k))
  {
    hide Partial, Close;
    EndFlowKeeps(s, up, down);
    CloseKeeps(EndFlow(s), k);
  }

  /** TCP took the first n bytes of the hole, and they are acknowledged. */
  lemma WroteKeeps(s: Remote, bytes: seq<byte>, n: nat, full: bool)
    requires Partial(s, bytes, []) && s.Live() && s.flow.value.phase == Open
    requires 0 < n <= |bytes|
    ensures Partial(Acknowledge(s.(tcp := s.tcp + bytes[..n]), n, full), bytes[n..], [])
  {
    hide FrameBytes, AckBytes, DownTokens, PayloadBytes, WindowBytes, Octets, Concat, Waiting, TokenBytes;
    hide QueueBytes, QueueTokens;
    EmptyQueue();
    DownSnoc(s.out, Ack(n));
    var f := s.flow.value;
    assert s.tcp + bytes[..n] + bytes[n..] + Concat(f.backlog) + Waiting(f.pending, true)
        == s.tcp + bytes + Concat(f.backlog) + Waiting(f.pending, true);
  }

  lemma UnshiftKeeps(s: Remote, bytes: seq<byte>, k: Socket)
    requires Partial(s, bytes, []) && s.flow.Some?
    ensures Sound(UnshiftBacklog(s, bytes, k))
  {
    hide FrameBytes, AckBytes, DownTokens, PayloadBytes, WindowBytes, Octets, Concat, Waiting, TokenBytes;
    hide QueueBytes, QueueTokens;
    hide Finish;
    if !HasRoom(s, |bytes|) {
      FinishKeeps(s, k, bytes, []);
    } else {
      var f := s.flow.value;
      ConcatCons(bytes, f.backlog);
      assert s.tcp + bytes + Concat(f.backlog) + Waiting(f.pending, true)
          == s.tcp + [] + (bytes + Concat(f.backlog)) + Waiting(f.pending, true);
    }
  }

  lemma WriteTcpKeeps(s: Remote, bytes: seq<byte>, a: Answer)
    requires Partial(s, bytes, []) && s.Live() && s.flow.value.phase == Open && a.wrote <= |bytes|
    ensures Sound(WriteTcp(s, bytes, a))
  {
    hide Partial, Finish, UnshiftBacklog, Acknowledge;
    if a.wrote < 0 {
      FinishKeeps(s, a.second, bytes, []);
    } else {
      var t := s.(tcp := s.tcp + bytes[..a.wrote]);
      var u := if a.wrote > 0 then Acknowledge(t, a.wrote, a.first.full) else t;
      assert Partial(u, bytes[a.wrote..], []) by {
        if a.wrote > 0 {
          WroteKeeps(s, bytes, a.wrote, a.first.full);
        } else {
          assert bytes[..0] == [] && bytes[0..] == bytes && t == s;
        }
      }
      if a.wrote < |bytes| {
        UnshiftKeeps(u, bytes[a.wrote..], a.second);
      } else {
        assert bytes[a.wrote..] == [];
      }
    }
  }

  /** Bytes behind a non-empty backlog, or before TCP is open, go to its end. */
  lemma PushKeeps(s: Remote, bytes: seq<byte>, k: Socket)
    requires QueueLaw(s) && CreditLaw(s) && WireLaw(s) && OrderLaw(s) && DownloadLaw(s, []) && PhaseLaw(s)
    requires s.Live()
    requires var f := s.flow.value;
             UploadLaw(s.(flow := Some(f.(pending := [Charge(bytes, true)] + f.pending))), [])
    ensures Sound(PushBacklog(s, bytes, k))
  {
    hide FrameBytes, AckBytes, DownTokens, PayloadBytes, WindowBytes, Octets, Concat, Waiting, TokenBytes;
    hide QueueBytes, QueueTokens;
    hide Finish;
    var f := s.flow.value;
    WaitingCons(Charge(bytes, true), f.pending, true);
    ConcatSnoc(f.backlog, bytes);
    if !HasRoom(s, |bytes|) {
      assert UploadLaw(EndFlow(s), []);
      assert Sound(EndFlow(s));
      assert Finish(s, k) == Close(EndFlow(s), k) by { FinishIsClose(s, k); }
      CloseKeeps(EndFlow(s), k);
    } else {
      assert s.tcp + [] + Concat(f.backlog) + (bytes + Waiting(f.pending, true))
          == s.tcp + [] + (Concat(f.backlog) + bytes) + Waiting(f.pending, true);
    }
  }

  lemma FinishIsClose(s: Remote, k: Socket)
    requires s.Live()
    ensures Finish(s, k) == Close(EndFlow(s), k)
  {
  }

  lemma WaitingCons(item: Charge, pending: seq<Charge>, upload: bool)
    ensures Waiting([item] + pending, upload)
         == (if item.upload == upload then item.bytes else []) + Waiting(pending, upload)
  {
    assert ([item] + pending)[1..] == pending;
  }

  /** The state in which the head of the quota queue has been taken out. */
  function Taken(s: Remote): Remote
    requires s.Live() && s.flow.value.pending != []
  {
    var f := s.flow.value;
    Charged(s.(flow := Some(f.(pending := f.pending[1..]))), -|f.pending[0].bytes|)
  }

  lemma TakenHasHole(s: Remote)
    requires Sound(s) && s.Live() && s.flow.value.pending != [] && !s.flow.value.charging
    ensures var item := s.flow.value.pending[0];
            && (!item.upload ==> Partial(Taken(s), [], item.bytes))
            && (item.upload && s.flow.value.backlog == [] ==> Partial(Taken(s), item.bytes, []))
  {
    hide FrameBytes, AckBytes, DownTokens, PayloadBytes, WindowBytes, Octets, Concat, Waiting, TokenBytes;
    hide QueueBytes, QueueTokens;
    var f := s.flow.value;
    var item, rest := f.pending[0], f.pending[1..];
    assert f.pending == [item] + rest;
    WaitingCons(item, rest, true);
    WaitingCons(item, rest, false);
    if item.upload && f.backlog == [] {
      assert Concat([]) == [] by { ConcatNothing(); }
    }
  }

  lemma ForwardChargedKeeps(s: Remote, a: Answer)
    requires Sound(s) && s.Live() && s.flow.value.pending != [] && !s.flow.value.charging
    requires a.wrote <= |s.flow.value.pending[0].bytes|
    ensures Sound(ForwardCharged(s, a))
  {
    hide Partial, SendBinary, WriteTcp, PushBacklog;
    var f := s.flow.value;
    var item, t := f.pending[0], Taken(s);
    TakenHasHole(s);
    if !item.upload {
      SendBinaryKeeps(t, item.bytes, a.first);
    } else if f.phase == Dialing || f.backlog != [] {
      assert f.pending == [item] + f.pending[1..];
      PushTaken(s, a.second);
    } else {
      WriteTcpKeeps(t, item.bytes, a);
    }
  }

  lemma PushTaken(s: Remote, k: Socket)
    requires Sound(s) && s.Live() && s.flow.value.pending != [] && !s.flow.value.charging
    requires s.flow.value.pending[0].upload
    ensures Sound(PushBacklog(Taken(s), s.flow.value.pending[0].bytes, k))
  {
    hide FrameBytes, AckBytes, DownTokens, PayloadBytes, WindowBytes, Octets, Concat, Waiting, TokenBytes;
    hide QueueBytes, QueueTokens;
    hide PushBacklog;
    var f := s.flow.value;
    var item, rest := f.pending[0], f.pending[1..];
    assert f.pending == [item] + rest;
    WaitingCons(item, rest, false);
    PushKeeps(Taken(s), item.bytes, k);
  }

  lemma CompletePeerKeeps(s: Remote, a: Answer)
    requires Sound(s) && s.flow.Some?
    ensures Sound(CompletePeer(s, a))
  {
    hide Partial, SendText, Finish;
    if s.Live() && s.flow.value.peerEnded && s.flow.value.pending == [] {
      SendTextKeeps(s, Eof, a.first, [], []);
      FinishKeeps(SendText(s, Eof, a.first), a.second, [], []);
    }
  }

  lemma {:induction false} DrainQuotaKeeps(s: Remote, i: nat, answers: nat -> Answer)
    requires Sound(s) && s.flow.Some?
    ensures Sound(DrainQuota(s, i, answers))
    decreases |s.flow.value.pending|
  {
    hide Partial, Finish, ForwardCharged, CompletePeer;
    var f := s.flow.value;
    if f.charging || !s.Live() {
    } else if f.pending == [] {
      CompletePeerKeeps(s, answers(i));
    } else {
      match answers(i).verdict
      case Later =>
        LaterKeeps(s);
      case No =>
        FinishKeeps(s, answers(i).second, [], []);
      case Throws =>
        FinishKeeps(s, answers(i).second, [], []);
      case Yes =>
        var a := Clamp(answers(i), |f.pending[0].bytes|);
        ForwardChargedKeeps(s, a);
        if ForwardCharged(s, a).Live() {
          DrainQuotaKeeps(ForwardCharged(s, a), i + 1, answers);
        }
    }
  }

  lemma LaterKeeps(s: Remote)
    requires Sound(s) && s.Live() && s.flow.value.pending != []
    ensures Sound(s.(flow := Some(s.flow.value.(charging := true))))
    ensures Sound(s.(flow := Some(s.flow.value.(charging := false))))
  {
    hide FrameBytes, AckBytes, DownTokens, PayloadBytes, WindowBytes, Octets, Concat, Waiting, TokenBytes;
    hide QueueBytes, QueueTokens;
  }

  lemma {:induction false} DrainBacklogKeeps(s: Remote, i: nat, answers: nat -> Answer)
    requires Sound(s) && s.flow.Some?
    ensures Sound(DrainBacklog(s, i, answers))
    decreases |s.flow.value.backlog|
  {
    hide Partial, WriteTcp;
    var f := s.flow.value;
    if f.phase == Open && f.backlog != [] {
      var bytes := f.backlog[0];
      var taken := Charged(s.(flow := Some(f.(backlog := f.backlog[1..]))), -|bytes|);
      BacklogHole(s);
      var a := Clamp(answers(i), |bytes|);
      WriteTcpKeeps(taken, bytes, a);
      if |WriteTcp(taken, bytes, a).flow.value.backlog| < |f.backlog| {
        DrainBacklogKeeps(WriteTcp(taken, bytes, a), i + 1, answers);
      }
    }
  }

  lemma BacklogHole(s: Remote)
    requires Sound(s) && s.Live() && s.flow.value.backlog != []
    ensures var f := s.flow.value;
            Partial(Charged(s.(flow := Some(f.(backlog := f.backlog[1..]))), -|f.backlog[0]|), f.backlog[0], [])
  {
    hide FrameBytes, AckBytes, DownTokens, PayloadBytes, WindowBytes, Octets, Concat, Waiting, TokenBytes;
    hide QueueBytes, QueueTokens;
    var f := s.flow.value;
    assert f.backlog == [f.backlog[0]] + f.backlog[1..];
    ConcatCons(f.backlog[0], f.backlog[1..]);
  }

  // ---- Every message and event keeps them ----

  /** The flow with `bytes` at the end of its quota queue. */
  function Pended(s: Remote, bytes: seq<byte>, upload: bool): Remote
    requires s.flow.Some?
  {
    var s := s.(flow := Some(s.flow.value.(bytes := s.flow.value.bytes + |bytes|)));
    var s := Charged(s, |bytes|);
    s.(flow := Some(s.flow.value.(pending := s.flow.value.pending + [Charge(bytes, upload)])))
  }

  /** With the bytes on record as received or arrived. */
  function Recorded(s: Remote, bytes: seq<byte>, upload: bool): (r: Remote)
    requires s.flow.Some?
    ensures r.flow.Some? && r.Live() == s.Live()
  {
    var p := Pended(s, bytes, upload);
    if upload then p.(received := p.received + bytes) else p.(arrived := p.arrived + bytes)
  }

  /** The flow with the bytes counted and not taken. */
  function Declined(s: Remote, bytes: seq<byte>, upload: bool): (r: Remote)
    requires s.flow.Some?
    ensures r.flow.Some? && r.Live() == s.Live()
  {
    var t := s.(flow := Some(s.flow.value.(bytes := s.flow.value.bytes + |bytes|)));
    if upload then t.(late := t.late + bytes) else t
  }

  predicate Takes(s: Remote, bytes: seq<byte>, maxBytes: nat)
    requires s.flow.Some?
  {
    s.flow.value.bytes + |bytes| <= maxBytes && HasRoom(s, |bytes|)
  }

  /** Bytes are nothing, declined with the end of the flow, or queued for quota. */
  lemma EnqueueCases(s: Remote, bytes: seq<byte>, upload: bool, maxBytes: nat, answers: nat -> Answer)
    requires s.Live()
    ensures Enqueue(s, bytes, upload, maxBytes, answers)
         == if bytes == [] then s
            else if Takes(s, bytes, maxBytes) then DrainQuota(Recorded(s, bytes, upload), 1, answers)
            else Finish(Declined(s, bytes, upload), answers(0).second)
  {
    hide Finish, DrainQuota, Extends;
  }

  lemma PendedDownload(s: Remote, bytes: seq<byte>)
    requires Sound(s) && s.Live()
    ensures Sound(Recorded(s, bytes, false))
  {
    hide FrameBytes, AckBytes, DownTokens, PayloadBytes, WindowBytes, Octets, Concat, Waiting, TokenBytes;
    hide QueueBytes, QueueTokens;
    var f := s.flow.value;
    WaitingSnoc(f.pending, Charge(bytes, false), true);
    WaitingSnoc(f.pending, Charge(bytes, false), false);
    assert TokenBytes(s.offered) + [] + (Waiting(f.pending, false) + bytes)
        == TokenBytes(s.offered) + [] + Waiting(f.pending, false) + bytes;
  }

  /** A data frame just read and counted. */
  function Counted(s: Remote, bytes: seq<byte>): Remote {
    s.(read := s.read + [Payload(bytes)], ch := s.ch.(incoming := s.ch.incoming + |bytes|))
  }

  lemma PendedUpload(s: Remote, bytes: seq<byte>)
    requires Sound(s) && s.Live()
    ensures Sound(Recorded(Counted(s, bytes), bytes, true))
  {
    hide FrameBytes, AckBytes, DownTokens, PayloadBytes, WindowBytes, Octets, Concat, Waiting, TokenBytes;
    hide QueueBytes, QueueTokens;
    var f := s.flow.value;
    UpSnoc(s.read, Payload(bytes));
    WaitingSnoc(f.pending, Charge(bytes, true), true);
    WaitingSnoc(f.pending, Charge(bytes, true), false);
    assert s.early + s.received + s.late + bytes == s.early + (s.received + bytes) + s.late;
    assert s.tcp + [] + Concat(f.backlog) + (Waiting(f.pending, true) + bytes)
        == s.tcp + [] + Concat(f.backlog) + Waiting(f.pending, true) + bytes;
  }

  /** An upload refused after it was counted: it is late, and the flow is over. */
  lemma RefusedUpload(s: Remote, bytes: seq<byte>)
    requires Sound(s) && s.flow.Some?
    ensures Sound(EndFlow(Counted(s, bytes).(late := s.late + bytes)))
  {
    hide FrameBytes, AckBytes, DownTokens, PayloadBytes, WindowBytes, Octets, Concat, Waiting, TokenBytes;
    hide QueueBytes, QueueTokens;
    UpSnoc(s.read, Payload(bytes));
    assert s.early + s.received + s.late + bytes == s.early + s.received + (s.late + bytes);
  }

  lemma RefusedFinish(s: Remote, bytes: seq<byte>, total: nat, k: Socket)
    requires Sound(s) && s.Live()
    ensures var t := Counted(s, bytes).(late := s.late + bytes);
            Sound(Finish(t.(flow := Some(t.flow.value.(bytes := total))), k))
  {
    hide Partial, Close;
    var t := Counted(s, bytes).(late := s.late + bytes);
    RefusedUpload(s, bytes);
    CountKeeps(EndFlow(t), total);
    CloseKeeps(EndFlow(t.(flow := Some(t.flow.value.(bytes := total)))), k);
  }

  lemma RefusedAbort(s: Remote, bytes: seq<byte>, full: bool)
    requires Sound(s) && s.flow.Some? && !s.ch.dead
    ensures Sound(Abort(Counted(s, bytes).(late := s.late + bytes), full))
  {
    hide Partial;
    var t := Counted(s, bytes).(late := s.late + bytes);
    RefusedUpload(s, bytes);
    AbortKeeps(EndFlow(t), full, [], []);
    if t.Live() {
      ClosingKeeps(Abort(EndFlow(t), full));
      assert Abort(t, full) == Abort(EndFlow(t), full).(ch := Abort(EndFlow(t), full).ch.(closing := true));
    }
  }

  lemma ClosingKeeps(s: Remote)
    requires Sound(s) && !s.Live()
    ensures Sound(s.(ch := s.ch.(closing := true)))
  {
    hide FrameBytes, AckBytes, DownTokens, PayloadBytes, WindowBytes, Octets, Concat, Waiting, TokenBytes;
    hide QueueBytes, QueueTokens;
  }

  lemma EnqueueKeeps(s: Remote, bytes: seq<byte>, maxBytes: nat, answers: nat -> Answer)
    requires Sound(s) && s.Live()
    ensures Sound(Enqueue(s, bytes, false, maxBytes, answers))
    ensures bytes != [] ==> Sound(Enqueue(Counted(s, bytes), bytes, true, maxBytes, answers))
  {
    hide Partial, Finish, DrainQuota, Enqueue, Takes, Pended;
    EnqueueCases(s, bytes, false, maxBytes, answers);
    EnqueueCases(Counted(s, bytes), bytes, true, maxBytes, answers);
    PendedDownload(s, bytes);
    PendedUpload(s, bytes);
    DrainQuotaKeeps(Recorded(s, bytes, false), 1, answers);
    DrainQuotaKeeps(Recorded(Counted(s, bytes), bytes, true), 1, answers);
    var total := s.flow.value.bytes + |bytes|;
    RefusedFinish(s, bytes, total, answers(0).second);
    CountKeeps(s, total);
    FinishKeeps(s.(flow := Some(s.flow.value.(bytes := total))), answers(0).second, [], []);
  }

  lemma CountKeeps(s: Remote, total: nat)
    requires Sound(s) && s.flow.Some?
    ensures Sound(s.(flow := Some(s.flow.value.(bytes := total))))
  {
    hide FrameBytes, AckBytes, DownTokens, PayloadBytes, WindowBytes, Octets, Concat, Waiting, TokenBytes;
    hide QueueBytes, QueueTokens;
  }

  /** A frame dropped uncounted, before admission or after the end. */
  lemma DroppedKeeps(s: Remote, bytes: seq<byte>)
    requires Sound(s)
    ensures var t := s.(read := s.read + [Payload(bytes)]);
            && (s.flow.None? && !s.ch.dead && !s.ch.closing ==>
                  Sound(t.(early := s.early + bytes, lost := s.lost + |bytes|)))
            && (s.ch.dead || s.ch.closing ==> Sound(t.(late := s.late + bytes, lost := s.lost + |bytes|)))
  {
    hide FrameBytes, AckBytes, DownTokens, PayloadBytes, WindowBytes, Octets, Concat, Waiting, TokenBytes;
    hide QueueBytes, QueueTokens;
    UpSnoc(s.read, Payload(bytes));
    assert s.early + s.received + s.late + bytes == s.early + s.received + (s.late + bytes);
    assert s.received == [] && s.late == [] ==>
      s.early + s.received + s.late + bytes == s.early + bytes + s.received + s.late;
  }

  lemma ReceiveKeeps(s: Remote, bytes: seq<byte>, maxBytes: nat, answers: nat -> Answer)
    requires Sound(s) && bytes != []
    ensures Sound(Receive(s.(read := s.read + [Payload(bytes)]), bytes, maxBytes, answers))
  {
    hide Partial, Enqueue, Abort;
    if s.ch.dead || s.ch.closing || s.flow.None? {
      DroppedKeeps(s, bytes);
    } else {
      RefusedUpload(s, bytes);
      RefusedAbort(s, bytes, answers(0).first.full);
      EndedIsEnded(Counted(s, bytes).(late := s.late + bytes));
      if s.Live() {
        EnqueueKeeps(s, bytes, maxBytes, answers);
      }
    }
  }

  lemma EndedIsEnded(s: Remote)
    ensures !s.Live() ==> EndFlow(s) == s
  {
  }

  /** A line sent past the queue while nothing is queued. */
  lemma DirectLineKeeps(s: Remote, reply: Reply)
    requires Sound(s) && s.ch.queue == [] && !s.ch.dead
    ensures Sound(s.(out := s.out + [Line(reply)], offered := s.offered + [Text(reply)]))
  {
    hide FrameBytes, AckBytes, DownTokens, PayloadBytes, WindowBytes, Octets, Concat, Waiting, TokenBytes;
    hide QueueBytes, QueueTokens;
    EmptyQueue();
    DownSnoc(s.out, Line(reply));
    TokenBytesConcat(s.offered, [Text(reply)]);
    NoBytes(reply);
  }

  lemma DirectCloseKeeps(s: Remote)
    requires Sound(s) && s.ch.queue == [] && !s.Live() && !s.ch.dead
    ensures Sound(s.(out := s.out + [Closed], ch := s.ch.(dead := true)))
  {
    hide FrameBytes, AckBytes, DownTokens, PayloadBytes, WindowBytes, Octets, Concat, Waiting, TokenBytes;
    hide QueueBytes, QueueTokens;
    EmptyQueue();
    DownSnoc(s.out, Closed);
  }

  lemma OpenChannelKeeps(s: Remote, a: Answer)
    requires Sound(s) && s.ch.queue == [] && s.flow.None? && !s.ch.dead
    ensures Sound(OpenChannel(s, a))
  {
    hide Partial, Stop;
    StopKeeps(s, [], []);
    var t := s.(out := s.out + [Line(Error)], offered := s.offered + [Text(Error)]);
    DirectLineKeeps(s, Error);
    StopKeeps(t, [], []);
    DirectCloseKeeps(t);
  }

  lemma StoppedOpens(s: Remote, a: Answer)
    ensures s.stopped ==> OpenChannel(s, a) == s
  {
  }

  lemma OnMessageKeeps(s: Remote, m: Up, maxBytes: nat, answers: nat -> Answer)
    requires Sound(s) && (s.read == [] ==> m.Command? && s.ch.queue == [] && s.flow.None? && (s.ch.dead ==> s.stopped))
    requires m.Payload? ==> m.bytes != []
    ensures Sound(OnMessage(s, m, maxBytes, answers))
  {
    hide FrameBytes, AckBytes, DownTokens, PayloadBytes, WindowBytes, Octets, Concat, Waiting, TokenBytes;
    hide QueueBytes, QueueTokens;
    hide Receive, GrantWindow, Abort, Stop, OpenChannel;
    StoppedOpens(s.(read := s.read + [m]), answers(0));
    var t := s.(read := s.read + [m]);
    UpSnoc(s.read, m);
    match m
    case Command =>
      StopKeeps(t, [], []);
      if !s.ch.dead && s.read == [] {
        OpenChannelKeeps(t, answers(0));
      }
    case Fin => NoteFinKeeps(t);
    case Window(n) =>
      if !s.ch.dead {
        GrantWindowKeeps(t, n, answers(0).first);
      }
    case Payload(bytes) => ReceiveKeeps(s, bytes, maxBytes, answers);
    case Shut => AbortKeeps(t, answers(0).first.full, [], []);
  }

  lemma OnEventKeeps(s: Remote, e: RelayEvent, maxBytes: nat, answers: nat -> Answer)
    requires Sound(s)
    ensures Sound(OnEvent(s, e, maxBytes, answers))
  {
    hide Partial, SendText, Close, Enqueue, DrainBacklog, DrainQuota, CompletePeer, ForwardCharged, Finish, Drain, Stop, Abort;
    var a := answers(0);
    match e
    case Admitted(granted) =>
      if s.flow.None? && !s.ch.closing {
        AdmittedKeeps(s, answers);
      }
    case OpenFailed =>
      AbortKeeps(s, a.first.full, [], []);
    case Connected =>
      if s.Live() && s.flow.value.phase == Dialing {
        var t := s.(flow := Some(s.flow.value.(phase := Open)));
        OpenedKeeps(s);
        SendTextKeeps(t, Okay, a.first, [], []);
        DrainBacklogKeeps(SendText(t, Okay, a.first), 1, answers);
      }
    case TcpData(bytes) =>
      if s.Live() && s.flow.value.phase == Open {
        EnqueueKeeps(s, bytes, maxBytes, answers);
      }
    case TcpDrain =>
      if s.flow.Some? {
        DrainBacklogKeeps(s, 0, answers);
      }
    case TcpEnded =>
      if s.flow.Some? {
        EndedKeeps(s);
        CompletePeerKeeps(s.(flow := Some(s.flow.value.(peerEnded := true))), a);
      }
    case QuotaAnswered(granted) =>
      if s.Live() && s.flow.value.charging && s.flow.value.pending != [] {
        var t := s.(flow := Some(s.flow.value.(charging := false)));
        LaterKeeps(s);
        FinishKeeps(t, a.second, [], []);
        var b := Clamp(a, |s.flow.value.pending[0].bytes|);
        ForwardChargedKeeps(t, b);
        DrainQuotaKeeps(ForwardCharged(t, b), 1, answers);
      }
    case Conclude(ending) =>
      FinishKeeps(s, a.second, [], []);
      if ending != Silent {
        SendTextKeeps(s, EndingReply(ending), a.first, [], []);
        FinishKeeps(SendText(s, EndingReply(ending), a.first), a.second, [], []);
      }
    case QuietAfterFin =>
      SendTextKeeps(s, Eof, a.first, [], []);
      FinishKeeps(SendText(s, Eof, a.first), a.second, [], []);
    case SocketWritable => DrainKeeps(s, a.first, [], []);
    case ConnectionLost => StopKeeps(s, [], []);
  }

  lemma AdmittedKeeps(s: Remote, answers: nat -> Answer)
    requires Sound(s) && s.flow.None? && !s.ch.closing
    ensures Sound(Close(SendText(s, Error, answers(0).first), answers(0).second))
    ensures Sound(s.(flow := Some(if s.ch.dead then FRESH_FLOW.(phase := Ended) else FRESH_FLOW)))
  {
    hide FrameBytes, AckBytes, DownTokens, PayloadBytes, WindowBytes, Octets, TokenBytes;
    hide QueueBytes, QueueTokens;
    hide SendText, Close;
    SendTextKeeps(s, Error, answers(0).first, [], []);
    CloseKeeps(SendText(s, Error, answers(0).first), answers(0).second);
  }

  lemma OpenedKeeps(s: Remote)
    requires Sound(s) && s.Live()
    ensures Sound(s.(flow := Some(s.flow.value.(phase := Open))))
  {
    hide FrameBytes, AckBytes, DownTokens, PayloadBytes, WindowBytes, Octets, Concat, Waiting, TokenBytes;
    hide QueueBytes, QueueTokens;
  }

  lemma EndedKeeps(s: Remote)
    requires Sound(s) && s.flow.Some?
    ensures Sound(s.(flow := Some(s.flow.value.(peerEnded := true))))
  {
    hide FrameBytes, AckBytes, DownTokens, PayloadBytes, WindowBytes, Octets, Concat, Waiting, TokenBytes;
    hide QueueBytes, QueueTokens;
  }

  lemma NoteFinKeeps(s: Remote)
    requires Sound(s)
    ensures Sound(NoteFin(s))
  {
    hide FrameBytes, AckBytes, DownTokens, PayloadBytes, WindowBytes, Octets, Concat, Waiting, TokenBytes;
    hide QueueBytes, QueueTokens;
  }

  lemma CommandKeeps(s: Remote)
    requires Sound(s)
    ensures Sound(s.(read := s.read + [Command]))
  {
    hide FrameBytes, AckBytes, DownTokens, PayloadBytes, WindowBytes, Octets, Concat, Waiting, TokenBytes;
    hide QueueBytes, QueueTokens;
    UpSnoc(s.read, Command);
  }

  lemma OthersKeep(s: Remote, total: int, peerBytes: int)
    requires Sound(s)
    ensures Sound(s.(total := total, peerBytes := peerBytes))
  {
    hide FrameBytes, AckBytes, DownTokens, PayloadBytes, WindowBytes, Octets, Concat, Waiting, TokenBytes;
    hide QueueBytes, QueueTokens;
  }

  lemma NothingWaits()
    ensures Waiting([], false) == []
  {
  }
}
