/** What the relay counts as buffered is what its flows hold. */
module RelayBuffers {
  import opened Bytes
  import opened MuxProtocol
  import opened RelayChannel
  import opened RelayLaws
  import opened Trap

  function PendingBytes(pending: seq<Charge>): nat {
    if pending == [] then 0 else |pending[0].bytes| + PendingBytes(pending[1..])
  }

  lemma PendingCons(item: Charge, pending: seq<Charge>)
    ensures PendingBytes([item] + pending) == |item.bytes| + PendingBytes(pending)
  {
    assert ([item] + pending)[1..] == pending;
  }

  lemma {:induction false} PendingSnoc(pending: seq<Charge>, item: Charge)
    ensures PendingBytes(pending + [item]) == PendingBytes(pending) + |item.bytes|
  {
    if pending == [] {
      assert pending + [item] == [item];
    } else {
      PendingSnoc(pending[1..], item);
      assert (pending + [item])[1..] == pending[1..] + [item];
    }
  }

  function Held(f: Flow): nat {
    PendingBytes(f.pending) + |Concat(f.backlog)|
  }

  /**
   The flow is charged for what it holds, within its limits, and could be charged
   again for `hole` bytes in `slots` pieces; the rest of the process holds `others`.
   */
  predicate Metered(s: Remote, others: int, hole: nat, slots: nat) {
    && s.total + hole <= RELAY_BUFFER_LIMIT
    && (s.flow.None? ==> s.total == others)
    && (s.flow.Some? ==>
          var f := s.flow.value;
          && f.buffered == Held(f)
          && f.buffered + hole <= FLOW_BUFFER_LIMIT
          && s.total == others + f.buffered
          && |f.pending| + |f.backlog| + slots <= 1024)
  }

  /** An ended flow holds nothing, so the process total is the sum over live flows. */
  predicate Settled(s: Remote) {
    s.flow.Some? && !s.Live() ==> s.flow.value.pending == [] && s.flow.value.backlog == []
  }

  predicate Accounted(s: Remote, others: int) {
    Metered(s, others, 0, 0) && Settled(s)
  }

  lemma KeepsFlowAccounted(s: Remote, r: Remote, others: int, hole: nat, slots: nat)
    requires Metered(s, others, hole, slots) && KeepsFlow(s, r)
    ensures Metered(r, others, hole, slots)
    ensures Settled(s) <==> Settled(r)
  {
    hide PendingBytes, Concat;
    NothingHeld();
  }

  lemma NothingHeld()
    ensures PendingBytes([]) == 0 && Concat([]) == []
  {
  }

  // ---- Bytes just released can be charged again ----

  /** The limits refuse only new bytes: what was just released always fits back. */
  lemma ReleasedBytesFit(s: Remote, others: int, hole: nat, n: nat)
    requires Metered(s, others, hole, 1) && s.flow.Some? && n <= hole
    ensures HasRoom(s, n)
  {
  }

  lemma PushAccounted(s: Remote, others: int, bytes: seq<byte>, k: Socket)
    requires Metered(s, others, |bytes|, 1) && s.Live()
    ensures Accounted(PushBacklog(s, bytes, k), others)
    ensures PushBacklog(s, bytes, k).Live()
  {
    hide PendingBytes, Concat, Finish;
    ReleasedBytesFit(s, others, |bytes|, |bytes|);
    ConcatSnoc(s.flow.value.backlog, bytes);
  }

  /** The remainder of a partial write always finds room, even on an ended flow. */
  lemma UnshiftMetered(s: Remote, others: int, bytes: seq<byte>, k: Socket, hole: nat)
    requires Metered(s, others, hole, 1) && s.flow.Some? && |bytes| <= hole
    ensures var r := UnshiftBacklog(s, bytes, k);
            && Metered(r, others, 0, 0)
            && r.Live() == s.Live()
            && r.flow.value.backlog == [bytes] + s.flow.value.backlog
  {
    hide PendingBytes, Concat, Finish;
    ReleasedBytesFit(s, others, hole, |bytes|);
    ConcatCons(bytes, s.flow.value.backlog);
  }

  /** The connection stops during the acknowledgement of a partial write. */
  predicate StopsMidWrite(s: Remote, bytes: seq<byte>, a: Answer) {
    a.first.full && !s.stopped && !s.ch.dead && 0 < a.wrote < |bytes|
  }

  /**
   A TCP write keeps the meter. The ended flow is left holding bytes exactly when
   acknowledging a partial write stopped the connection.
   */
  lemma WriteTcpAccounted(s: Remote, others: int, bytes: seq<byte>, a: Answer)
    requires Metered(s, others, |bytes|, 1) && s.Live() && a.wrote <= |bytes|
    ensures Metered(WriteTcp(s, bytes, a), others, 0, 0)
    ensures Accounted(WriteTcp(s, bytes, a), others) <==> !StopsMidWrite(s, bytes, a)
  {
    hide PendingBytes, Concat, Finish, UnshiftBacklog;
    KeepsFlowAccounted(s, Finish(s, a.second), others, |bytes|, 1);
    if a.wrote >= 0 {
      var t := s.(tcp := s.tcp + bytes[..a.wrote]);
      var u := if a.wrote > 0 then Acknowledge(t, a.wrote, a.first.full) else t;
      KeepsFlowAccounted(t, u, others, |bytes|, 1);
      if a.wrote < |bytes| {
        UnshiftMetered(u, others, bytes[a.wrote..], a.second, |bytes|);
      }
    }
  }

  // ---- Exactly which operations strand bytes ----

  /** Forwarding the head of the quota queue stops the connection in the middle of a TCP write. */
  predicate ForwardStrands(s: Remote, a: Answer)
    requires s.Live() && s.flow.value.pending != []
  {
    var f := s.flow.value;
    f.pending[0].upload && f.phase == Open && f.backlog == [] && StopsMidWrite(s, f.pending[0].bytes, a)
  }

  predicate QuotaStrands(s: Remote, i: nat, answers: nat -> Answer)
    requires s.flow.Some?
    decreases |s.flow.value.pending|
  {
    var f := s.flow.value;
    !f.charging && s.Live() && f.pending != [] && answers(i).verdict == Yes &&
      var a := Clamp(answers(i), |f.pending[0].bytes|);
      var next := ForwardCharged(s, a);
      ForwardStrands(s, a) || (next.Live() && QuotaStrands(next, i + 1, answers))
  }

  predicate BacklogStrands(s: Remote, i: nat, answers: nat -> Answer)
    requires s.flow.Some?
    decreases |s.flow.value.backlog|
  {
    var f := s.flow.value;
    f.phase == Open && f.backlog != [] &&
      var bytes := f.backlog[0];
      var a := Clamp(answers(i), |bytes|);
      var next := WriteTcp(Unshelved(s), bytes, a);
      || StopsMidWrite(s, bytes, a)
      || (|next.flow.value.backlog| < |f.backlog| && BacklogStrands(next, i + 1, answers))
  }

  /** The flow with the head of its backlog taken out. */
  function Unshelved(s: Remote): Remote
    requires s.flow.Some? && s.flow.value.backlog != []
  {
    var f := s.flow.value;
    Charged(s.(flow := Some(f.(backlog := f.backlog[1..]))), -|f.backlog[0]|)
  }

  /** New bytes are accepted and charged, and a write in the course of that strands some. */
  predicate EnqueueStrands(s: Remote, bytes: seq<byte>, upload: bool, maxBytes: nat, answers: nat -> Answer)
    requires s.Live()
  {
    bytes != [] && Takes(s, bytes, maxBytes) &&
      QuotaStrands(Recorded(s, bytes, upload), 1, answers)
  }

  predicate MessageStrands(s: Remote, m: Up, maxBytes: nat, answers: nat -> Answer) {
    m.Payload? && s.Live() && !s.ch.dead && !s.ch.closing && s.ch.incoming + |m.bytes| <= MUX_WINDOW &&
      EnqueueStrands(Counted(s, m.bytes), m.bytes, true, maxBytes, answers)
  }

  predicate ConnectStrands(s: Remote, answers: nat -> Answer) {
    s.Live() && s.flow.value.phase == Dialing &&
      var t := SendText(s.(flow := Some(s.flow.value.(phase := Open))), Okay, answers(0).first);
      BacklogStrands(t, 1, answers)
  }

  predicate AnswerStrands(s: Remote, granted: bool, answers: nat -> Answer) {
    granted && s.Live() && s.flow.value.charging && s.flow.value.pending != [] &&
      var t := s.(flow := Some(s.flow.value.(charging := false)));
      var a := Clamp(answers(0), |s.flow.value.pending[0].bytes|);
      ForwardStrands(t, a) || QuotaStrands(ForwardCharged(t, a), 1, answers)
  }

  predicate EventStrands(s: Remote, e: RelayEvent, maxBytes: nat, answers: nat -> Answer) {
    match e
    case Connected => ConnectStrands(s, answers)
    case TcpData(bytes) =>
      s.Live() && s.flow.value.phase == Open && EnqueueStrands(s, bytes, false, maxBytes, answers)
    case TcpDrain => s.flow.Some? && BacklogStrands(s, 0, answers)
    case QuotaAnswered(granted) => AnswerStrands(s, granted, answers)
    case _ => false
  }

  // ---- Whole operations ----

  lemma TakenMetered(s: Remote, others: int)
    requires Metered(s, others, 0, 0) && s.Live() && s.flow.value.pending != []
    ensures Metered(Taken(s), others, |s.flow.value.pending[0].bytes|, 1)
  {
    hide PendingBytes, Concat;
    var f := s.flow.value;
    assert f.pending == [f.pending[0]] + f.pending[1..];
    PendingCons(f.pending[0], f.pending[1..]);
  }

  lemma ForwardChargedAccounted(s: Remote, others: int, a: Answer)
    requires Metered(s, others, 0, 0) && s.Live() && s.flow.value.pending != []
    requires a.wrote <= |s.flow.value.pending[0].bytes|
    ensures Metered(ForwardCharged(s, a), others, 0, 0)
    ensures Settled(ForwardCharged(s, a)) <==> !ForwardStrands(s, a)
  {
    hide PendingBytes, Concat, SendBinary, WriteTcp, PushBacklog;
    var item, t := s.flow.value.pending[0], Taken(s);
    TakenMetered(s, others);
    if !item.upload {
      KeepsFlowAccounted(t, SendBinary(t, item.bytes, a.first), others, |item.bytes|, 1);
    } else if s.flow.value.phase == Dialing || s.flow.value.backlog != [] {
      PushAccounted(t, others, item.bytes, a.second);
    } else {
      WriteTcpAccounted(t, others, item.bytes, a);
    }
  }

  lemma CompletePeerKeepsFlow(s: Remote, others: int, a: Answer)
    requires Metered(s, others, 0, 0) && s.flow.Some?
    ensures Metered(CompletePeer(s, a), others, 0, 0)
    ensures Settled(s) <==> Settled(CompletePeer(s, a))
  {
    hide PendingBytes, Concat, SendText, Finish;
    var t := SendText(s, Eof, a.first);
    KeepsFlowAccounted(s, t, others, 0, 0);
    KeepsFlowAccounted(t, Finish(t, a.second), others, 0, 0);
  }

  lemma {:induction false} DrainQuotaAccounted(s: Remote, others: int, i: nat, answers: nat -> Answer)
    requires Metered(s, others, 0, 0) && s.flow.Some?
    ensures Metered(DrainQuota(s, i, answers), others, 0, 0)
    ensures Settled(DrainQuota(s, i, answers)) <==> Settled(s) && !QuotaStrands(s, i, answers)
    decreases |s.flow.value.pending|
  {
    hide PendingBytes, Concat, Finish, ForwardCharged, CompletePeer;
    var f := s.flow.value;
    if f.charging || !s.Live() {
    } else if f.pending == [] {
      CompletePeerKeepsFlow(s, others, answers(i));
    } else {
      KeepsFlowAccounted(s, Finish(s, answers(i).second), others, 0, 0);
      var a := Clamp(answers(i), |f.pending[0].bytes|);
      if answers(i).verdict == Yes {
        ForwardChargedAccounted(s, others, a);
        if ForwardCharged(s, a).Live() {
          DrainQuotaAccounted(ForwardCharged(s, a), others, i + 1, answers);
        }
      }
    }
  }

  lemma {:induction false} DrainBacklogAccounted(s: Remote, others: int, i: nat, answers: nat -> Answer)
    requires Metered(s, others, 0, 0) && s.flow.Some?
    ensures Metered(DrainBacklog(s, i, answers), others, 0, 0)
    ensures Settled(DrainBacklog(s, i, answers)) <==> Settled(s) && !BacklogStrands(s, i, answers)
    decreases |s.flow.value.backlog|
  {
    hide PendingBytes, WriteTcp, Concat;
    var f := s.flow.value;
    if f.phase == Open && f.backlog != [] {
      var bytes := f.backlog[0];
      var taken := Unshelved(s);
      assert f.backlog == [bytes] + f.backlog[1..];
      ConcatCons(bytes, f.backlog[1..]);
      var a := Clamp(answers(i), |bytes|);
      WriteTcpAccounted(taken, others, bytes, a);
      if |WriteTcp(taken, bytes, a).flow.value.backlog| < |f.backlog| {
        DrainBacklogAccounted(WriteTcp(taken, bytes, a), others, i + 1, answers);
      }
    }
  }

  /** Only here can "buffer limit" end a flow. */
  lemma EnqueueAccounted(s: Remote, others: int, bytes: seq<byte>, upload: bool, maxBytes: nat, answers: nat -> Answer)
    requires Metered(s, others, 0, 0) && s.Live()
    ensures Metered(Enqueue(s, bytes, upload, maxBytes, answers), others, 0, 0)
    ensures Settled(Enqueue(s, bytes, upload, maxBytes, answers)) <==> !EnqueueStrands(s, bytes, upload, maxBytes, answers)
  {
    hide PendingBytes, Concat, Finish, DrainQuota, Metered, QuotaStrands, Enqueue, Recorded, HasRoom;
    EnqueueCases(s, bytes, upload, maxBytes, answers);
    var u := Declined(s, bytes, upload);
    CountedMetered(s, others, bytes, upload);
    KeepsFlowAccounted(u, Finish(u, answers(0).second), others, 0, 0);
    if HasRoom(s, |bytes|) {
      PendedMetered(s, others, bytes, upload);
      DrainQuotaAccounted(Recorded(s, bytes, upload), others, 1, answers);
    }
  }

  lemma CountedMetered(s: Remote, others: int, bytes: seq<byte>, upload: bool)
    requires Metered(s, others, 0, 0) && s.flow.Some?
    ensures Metered(Declined(s, bytes, upload), others, 0, 0)
  {
    hide PendingBytes, Concat;
  }

  lemma PendedMetered(s: Remote, others: int, bytes: seq<byte>, upload: bool)
    requires Metered(s, others, 0, 0) && s.Live() && HasRoom(s, |bytes|)
    ensures Metered(Recorded(s, bytes, upload), others, 0, 0)
  {
    hide PendingBytes, Concat;
    PendingSnoc(s.flow.value.pending, Charge(bytes, upload));
  }

  lemma OnMessageAccounted(s: Remote, others: int, m: Up, maxBytes: nat, answers: nat -> Answer)
    requires Metered(s, others, 0, 0) && (s.read == [] ==> m.Command?)
    ensures Metered(OnMessage(s, m, maxBytes, answers), others, 0, 0)
    ensures Settled(OnMessage(s, m, maxBytes, answers)) <==> Settled(s) && !MessageStrands(s, m, maxBytes, answers)
  {
    hide PendingBytes, Concat, Receive, GrantWindow, Abort, Stop, EnqueueStrands, Metered;
    var t, a := s.(read := s.read + [m]), answers(0);
    ReadMetered(s, others, m);
    match m
    case Command =>
      KeepsFlowAccounted(t, Stop(t), others, 0, 0);
      var u := t.(out := t.out + [Line(Error)], offered := t.offered + [Text(Error)]);
      LineMetered(t, others);
      KeepsFlowAccounted(u, Stop(u), others, 0, 0);
    case Fin => NoteFinMetered(t, others);
    case Window(n) => KeepsFlowAccounted(t, GrantWindow(t, n, a.first), others, 0, 0);
    case Shut => KeepsFlowAccounted(t, Abort(t, a.first.full), others, 0, 0);
    case Payload(bytes) => ReceiveAccounted(s, others, bytes, maxBytes, answers);
  }

  lemma ReadMetered(s: Remote, others: int, m: Up)
    requires Metered(s, others, 0, 0)
    ensures Metered(s.(read := s.read + [m]), others, 0, 0)
  {
  }

  lemma NoteFinMetered(s: Remote, others: int)
    requires Metered(s, others, 0, 0)
    ensures Metered(NoteFin(s), others, 0, 0) && (Settled(NoteFin(s)) <==> Settled(s))
  {
  }

  lemma LineMetered(s: Remote, others: int)
    requires Metered(s, others, 0, 0)
    ensures var t := s.(out := s.out + [Line(Error)], offered := s.offered + [Text(Error)]);
            && Metered(t, others, 0, 0)
            && Metered(t.(out := t.out + [Closed], ch := t.ch.(dead := true)), others, 0, 0)
  {
  }

  lemma ReceiveAccounted(s: Remote, others: int, bytes: seq<byte>, maxBytes: nat, answers: nat -> Answer)
    requires Metered(s, others, 0, 0)
    ensures var r := Receive(s.(read := s.read + [Payload(bytes)]), bytes, maxBytes, answers);
            && Metered(r, others, 0, 0)
            && (Settled(r) <==> Settled(s) && !MessageStrands(s, Payload(bytes), maxBytes, answers))
  {
    hide PendingBytes, Concat, Enqueue, Abort, EnqueueStrands;
    var u := Counted(s, bytes);
    var v := u.(late := u.late + bytes);
    KeepsFlowAccounted(v, Abort(v, answers(0).first.full), others, 0, 0);
    if s.Live() {
      EnqueueAccounted(u, others, bytes, true, maxBytes, answers);
    }
  }

  lemma AdmitAccounted(s: Remote, others: int, granted: bool, a: Answer)
    requires Metered(s, others, 0, 0)
    ensures Metered(Admit(s, granted, a), others, 0, 0) && (Settled(Admit(s, granted, a)) <==> Settled(s))
  {
    hide PendingBytes, Concat, SendText, Close;
    NothingHeld();
    var t := SendText(s, Error, a.first);
    KeepsFlowAccounted(s, t, others, 0, 0);
    KeepsFlowAccounted(t, Close(t, a.second), others, 0, 0);
  }

  lemma FlagsMetered(s: Remote, others: int)
    requires Metered(s, others, 0, 0) && s.Live()
    ensures Metered(s.(flow := Some(s.flow.value.(phase := Open))), others, 0, 0)
    ensures Metered(s.(flow := Some(s.flow.value.(charging := false))), others, 0, 0)
  {
  }

  lemma EndedMetered(s: Remote, others: int)
    requires Metered(s, others, 0, 0) && s.flow.Some?
    ensures var t := s.(flow := Some(s.flow.value.(peerEnded := true)));
            Metered(t, others, 0, 0) && (Settled(t) <==> Settled(s))
  {
  }

  lemma ConnectAccounted(s: Remote, others: int, answers: nat -> Answer)
    requires Metered(s, others, 0, 0)
    ensures Metered(Connect(s, answers), others, 0, 0)
    ensures Settled(Connect(s, answers)) <==> Settled(s) && !ConnectStrands(s, answers)
  {
    hide SendText, DrainBacklog, BacklogStrands, Metered;
    if s.Live() && s.flow.value.phase == Dialing {
      var t := s.(flow := Some(s.flow.value.(phase := Open)));
      FlagsMetered(s, others);
      KeepsFlowAccounted(t, SendText(t, Okay, answers(0).first), others, 0, 0);
      DrainBacklogAccounted(SendText(t, Okay, answers(0).first), others, 1, answers);
    }
  }

  lemma AnswerAccounted(s: Remote, others: int, granted: bool, answers: nat -> Answer)
    requires Metered(s, others, 0, 0)
    ensures Metered(QuotaAnswer(s, granted, answers), others, 0, 0)
    ensures Settled(QuotaAnswer(s, granted, answers)) <==> Settled(s) && !AnswerStrands(s, granted, answers)
  {
    hide Finish, ForwardCharged, DrainQuota, ForwardStrands, QuotaStrands, Metered;
    if s.Live() && s.flow.value.charging && s.flow.value.pending != [] {
      var t := s.(flow := Some(s.flow.value.(charging := false)));
      FlagsMetered(s, others);
      KeepsFlowAccounted(t, Finish(t, answers(0).second), others, 0, 0);
      var b := Clamp(answers(0), |s.flow.value.pending[0].bytes|);
      ForwardChargedAccounted(t, others, b);
      DrainQuotaAccounted(ForwardCharged(t, b), others, 1, answers);
    }
  }

  lemma OnEventAccounted(s: Remote, others: int, e: RelayEvent, maxBytes: nat, answers: nat -> Answer)
    requires Metered(s, others, 0, 0)
    ensures Metered(OnEvent(s, e, maxBytes, answers), others, 0, 0)
    ensures Settled(OnEvent(s, e, maxBytes, answers)) <==> Settled(s) && !EventStrands(s, e, maxBytes, answers)
  {
    hide SendText, Enqueue, DrainBacklog, CompletePeer, Finish, Drain, Stop, Abort, Admit, Connect, QuotaAnswer, QuietEnd;
    hide Metered, ConnectStrands, AnswerStrands, EnqueueStrands, BacklogStrands;
    var a := answers(0);
    match e
    case Admitted(granted) => AdmitAccounted(s, others, granted, a);
    case OpenFailed => KeepsFlowAccounted(s, Abort(s, a.first.full), others, 0, 0);
    case Connected => ConnectAccounted(s, others, answers);
    case TcpData(bytes) =>
      if s.Live() {
        EnqueueAccounted(s, others, bytes, false, maxBytes, answers);
      }
    case TcpDrain =>
      if s.flow.Some? {
        DrainBacklogAccounted(s, others, 0, answers);
      }
    case TcpEnded =>
      if s.flow.Some? {
        EndedMetered(s, others);
        CompletePeerKeepsFlow(s.(flow := Some(s.flow.value.(peerEnded := true))), others, a);
      }
    case QuotaAnswered(granted) => AnswerAccounted(s, others, granted, answers);
    case Conclude(ending) =>
      KeepsFlowAccounted(s, Finish(s, a.second), others, 0, 0);
      if ending != Silent {
        var t := SendText(s, EndingReply(ending), a.first);
        KeepsFlowAccounted(s, t, others, 0, 0);
        KeepsFlowAccounted(t, Finish(t, a.second), others, 0, 0);
      }
    case QuietAfterFin => KeepsFlowAccounted(s, QuietEnd(s, a), others, 0, 0);
    case SocketWritable => KeepsFlowAccounted(s, Drain(s, a.first), others, 0, 0);
    case ConnectionLost => KeepsFlowAccounted(s, Stop(s), others, 0, 0);
  }
}
