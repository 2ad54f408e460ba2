/**
 What EOF means. The relay says it in two places: when TCP's side is over and nothing
 waits for quota, and when a flow that got FIN has been quiet for too long. The second
 drops what still waits.
 */
module RelayEnds {
  import opened Bytes
  import opened MuxProtocol
  import opened RelayChannel
  import opened RelayLaws
  import opened Trap

  /** EOF is the last thing offered, once, by a flow that is over. */
  predicate EofLaw(s: Remote) {
    Text(Eof) in s.offered ==>
      && s.flow.Some? && !s.Live()
      && Text(Eof) !in s.offered[..|s.offered| - 1]
  }

  /** EOF was offered without all of TCP's bytes before it. */
  predicate CutOff(s: Remote) {
    Text(Eof) in s.offered && TokenBytes(s.offered) != s.arrived
  }

  predicate EofWhole(s: Remote) {
    EofLaw(s) && !CutOff(s)
  }

  /** A flow that got FIN ends for being quiet, with room to say EOF and a download waiting for quota. */
  predicate CutsOff(s: Remote, e: RelayEvent) {
    && e.QuietAfterFin? && s.Live() && s.flow.value.phase == Open && s.flow.value.fin
    && |s.ch.queue| < 32 && Waiting(s.flow.value.pending, false) != []
  }

  /** A flow that is over stays over. */
  predicate StaysOver(s: Remote, r: Remote) {
    s.flow.Some? && !s.Live() ==> r.flow.Some? && !r.Live()
  }

  lemma NothingNew(s: Remote, r: Remote)
    requires EofWhole(s) && SameStreams(s, r) && StaysOver(s, r)
    ensures EofWhole(r)
  {
  }

  /** EOF is offered with nothing left to charge, so all of TCP's bytes were offered. */
  lemma CompletePeerEof(s: Remote, a: Answer)
    requires Sound(s) && EofWhole(s) && s.flow.Some?
    ensures EofWhole(CompletePeer(s, a)) && CompletePeer(s, a).flow.Some?
    ensures StaysOver(s, CompletePeer(s, a))
  {
    hide QueueLaw, CreditLaw, WireLaw, OrderLaw, UploadLaw, PhaseLaw, SendText, Finish, TokenBytes, Waiting;
    if s.Live() && s.flow.value.peerEnded && s.flow.value.pending == [] {
      NothingWaits();
      NoBytes(Eof);
      TokenBytesConcat(s.offered, [Text(Eof)]);
      assert (s.offered + [Text(Eof)])[..|s.offered|] == s.offered;
    }
  }

  lemma NoEofInOctets(bytes: seq<byte>)
    ensures Text(Eof) !in Octets(bytes)
  {
  }

  lemma ForwardChargedEof(s: Remote, a: Answer)
    requires EofWhole(s) && s.Live() && s.flow.value.pending != [] && a.wrote <= |s.flow.value.pending[0].bytes|
    ensures EofWhole(ForwardCharged(s, a))
  {
    hide SendBinary, WriteTcp, PushBacklog, Octets;
    NoEofInOctets(s.flow.value.pending[0].bytes);
  }

  lemma {:induction false} DrainQuotaEof(s: Remote, i: nat, answers: nat -> Answer)
    requires Sound(s) && EofWhole(s) && s.flow.Some?
    ensures EofWhole(DrainQuota(s, i, answers))
    decreases |s.flow.value.pending|
  {
    hide EofWhole, Partial, Finish, ForwardCharged, CompletePeer;
    var f := s.flow.value;
    if f.charging || !s.Live() {
    } else if f.pending == [] {
      CompletePeerEof(s, answers(i));
    } else {
      NothingNew(s, Finish(s, answers(i).second));
      NothingNew(s, s.(flow := Some(f.(charging := true))));
      var a := Clamp(answers(i), |f.pending[0].bytes|);
      if answers(i).verdict == Yes {
        ForwardChargedEof(s, a);
        ForwardChargedKeeps(s, a);
        if ForwardCharged(s, a).Live() {
          DrainQuotaEof(ForwardCharged(s, a), i + 1, answers);
        }
      }
    }
  }

  lemma EnqueueEof(s: Remote, bytes: seq<byte>, maxBytes: nat, answers: nat -> Answer)
    requires Sound(s) && EofWhole(s) && s.Live()
    ensures EofWhole(Enqueue(s, bytes, false, maxBytes, answers))
    ensures EofWhole(Enqueue(Counted(s, bytes), bytes, true, maxBytes, answers))
  {
    hide Partial, Finish, DrainQuota, Enqueue, Takes;
    EnqueueCases(s, bytes, false, maxBytes, answers);
    EnqueueCases(Counted(s, bytes), bytes, true, maxBytes, answers);
    PendedDownload(s, bytes);
    PendedUpload(s, bytes);
    DrainQuotaEof(Recorded(s, bytes, false), 1, answers);
    DrainQuotaEof(Recorded(Counted(s, bytes), bytes, true), 1, answers);
  }

  lemma OnMessageWhole(s: Remote, m: Up, maxBytes: nat, answers: nat -> Answer)
    requires Sound(s) && EofWhole(s) && (s.read == [] ==> m.Command? && s.flow.None?)
    ensures EofWhole(OnMessage(s, m, maxBytes, answers))
  {
    hide EofWhole, Partial, Enqueue, GrantWindow, Abort, Stop;
    var t, a := s.(read := s.read + [m]), answers(0);
    NothingNew(s, t);
    match m
    case Command =>
      NothingNew(t, Stop(t));
      if s.read == [] {
        OpenChannelEof(t, a);
      }
    case Fin => NothingNew(t, NoteFin(t));
    case Window(n) => NothingNew(t, GrantWindow(t, n, a.first));
    case Shut => NothingNew(t, Abort(t, a.first.full));
    case Payload(bytes) =>
      var u := t.(ch := t.ch.(incoming := t.ch.incoming + |bytes|));
      var v := u.(late := u.late + bytes);
      NothingNew(t, v);
      NothingNew(v, Abort(v, a.first.full));
      NothingNew(t, t.(early := t.early + bytes, lost := t.lost + |bytes|));
      NothingNew(t, t.(late := t.late + bytes, lost := t.lost + |bytes|));
      if s.Live() {
        EnqueueEof(s, bytes, maxBytes, answers);
      }
  }

  lemma OpenChannelEof(s: Remote, a: Answer)
    requires EofWhole(s) && s.flow.None?
    ensures EofWhole(OpenChannel(s, a))
  {
    hide Abort;
  }

  lemma OnEventWhole(s: Remote, e: RelayEvent, maxBytes: nat, answers: nat -> Answer)
    requires Sound(s) && EofWhole(s) && !CutsOff(s, e)
    ensures EofWhole(OnEvent(s, e, maxBytes, answers))
  {
    hide Partial, SendText, Close, Enqueue, DrainBacklog, DrainQuota, CompletePeer, ForwardCharged, Finish, Drain, Stop, Abort;
    var a := answers(0);
    match e
    case TcpData(bytes) =>
      if s.Live() {
        EnqueueEof(s, bytes, maxBytes, answers);
      }
    case TcpEnded =>
      if s.flow.Some? {
        var t := s.(flow := Some(s.flow.value.(peerEnded := true)));
        EndedKeeps(s);
        NothingNew(s, t);
        CompletePeerEof(t, a);
      }
    case QuotaAnswered(granted) =>
      if s.Live() && s.flow.value.charging && s.flow.value.pending != [] {
        var t := s.(flow := Some(s.flow.value.(charging := false)));
        var b := Clamp(a, |s.flow.value.pending[0].bytes|);
        LaterKeeps(s);
        ForwardChargedKeeps(t, b);
        ForwardChargedEof(t, b);
        DrainQuotaEof(ForwardCharged(t, b), 1, answers);
      }
    case TcpDrain =>
      if s.flow.Some? {
        BacklogStaysOver(s, answers);
      }
    case QuietAfterFin => QuietWhole(s, a);
    case _ =>
  }

  /** An ending by silence drops no download exactly when none waits for quota. */
  lemma QuietWhole(s: Remote, a: Answer)
    requires Sound(s) && EofWhole(s)
    ensures EofLaw(QuietEnd(s, a))
    ensures CutOff(QuietEnd(s, a)) <==> CutsOff(s, QuietAfterFin)
  {
    hide QueueLaw, CreditLaw, WireLaw, OrderLaw, UploadLaw, Drain, Abort, Finish, TokenBytes, Waiting;
    if s.Live() && s.flow.value.phase == Open && s.flow.value.fin {
      NoBytes(Eof);
      TokenBytesConcat(s.offered, [Text(Eof)]);
      assert (s.offered + [Text(Eof)])[..|s.offered|] == s.offered;
      assert s.arrived == TokenBytes(s.offered) + Waiting(s.flow.value.pending, false);
    }
  }

  lemma BacklogStaysOver(s: Remote, answers: nat -> Answer)
    requires s.flow.Some?
    ensures StaysOver(s, DrainBacklog(s, 0, answers))
  {
  }

  /** A flow that is over offers nothing more and takes nothing more from TCP. */
  lemma OverMessage(s: Remote, m: Up, maxBytes: nat, answers: nat -> Answer)
    requires s.flow.Some? && !s.Live() && s.read != []
    ensures SameStreams(s, OnMessage(s, m, maxBytes, answers)) && StaysOver(s, OnMessage(s, m, maxBytes, answers))
  {
    hide GrantWindow, Abort, Stop, Enqueue;
  }

  lemma OverEvent(s: Remote, e: RelayEvent, maxBytes: nat, answers: nat -> Answer)
    requires s.flow.Some? && !s.Live()
    ensures SameStreams(s, OnEvent(s, e, maxBytes, answers)) && StaysOver(s, OnEvent(s, e, maxBytes, answers))
  {
    hide SendText, Close, Enqueue, DrainBacklog, DrainQuota, ForwardCharged, Finish, Drain, Stop, Abort;
    BacklogStaysOver(s, answers);
  }

  /** A client message keeps EOF the last thing offered, and cuts nothing off. */
  lemma OnMessageEof(s: Remote, m: Up, maxBytes: nat, answers: nat -> Answer)
    requires Sound(s) && EofLaw(s) && (s.read == [] ==> m.Command? && s.flow.None?)
    ensures EofLaw(OnMessage(s, m, maxBytes, answers))
    ensures CutOff(OnMessage(s, m, maxBytes, answers)) <==> CutOff(s)
  {
    hide Sound, OnMessage;
    if s.flow.Some? && !s.Live() {
      OverMessage(s, m, maxBytes, answers);
    } else {
      OnMessageWhole(s, m, maxBytes, answers);
    }
  }

  /** An event keeps EOF the last thing offered, and cuts bytes off exactly if it ends a quiet flow while some wait. */
  lemma OnEventEof(s: Remote, e: RelayEvent, maxBytes: nat, answers: nat -> Answer)
    requires Sound(s) && EofLaw(s)
    ensures EofLaw(OnEvent(s, e, maxBytes, answers))
    ensures CutOff(OnEvent(s, e, maxBytes, answers)) <==> CutOff(s) || CutsOff(s, e)
  {
    hide Sound;
    hide OnEvent;
    if s.flow.Some? && !s.Live() {
      OverEvent(s, e, maxBytes, answers);
    } else if CutsOff(s, e) {
      EventIsQuiet(s, maxBytes, answers);
      QuietWhole(s, answers(0));
    } else {
      OnEventWhole(s, e, maxBytes, answers);
    }
  }

  lemma EventIsQuiet(s: Remote, maxBytes: nat, answers: nat -> Answer)
    ensures OnEvent(s, QuietAfterFin, maxBytes, answers) == QuietEnd(s, answers(0))
  {
  }

  // ---- What comes before admission ----

  /** Nothing is said to the client while its data would come too early. */
  predicate SpokenLaw(s: Remote) {
    TooEarly(s) ==> s.offered == []
  }

  lemma OnMessageSpoken(s: Remote, m: Up, maxBytes: nat, answers: nat -> Answer)
    requires SpokenLaw(s) && (s.read == [] ==> m.Command?)
    ensures SpokenLaw(OnMessage(s, m, maxBytes, answers))
  {
    hide Enqueue, GrantWindow, Abort;
  }

  lemma OnEventSpoken(s: Remote, e: RelayEvent, maxBytes: nat, answers: nat -> Answer)
    requires SpokenLaw(s)
    ensures SpokenLaw(OnEvent(s, e, maxBytes, answers))
  {
    hide SendText, Close, Enqueue, DrainBacklog, DrainQuota, CompletePeer, ForwardCharged, Finish, Drain, Stop, Abort;
  }

  // ---- Where a FIN comes from ----

  /** A live flow that has its FIN had it before. */
  predicate NoNewFin(s: Remote, r: Remote) {
    r.Live() && r.flow.value.fin ==> s.Live() && s.flow.value.fin
  }

  lemma {:induction false} DrainQuotaFins(s: Remote, i: nat, answers: nat -> Answer)
    requires s.flow.Some?
    ensures NoNewFin(s, DrainQuota(s, i, answers))
    decreases |s.flow.value.pending|
  {
    hide Finish, ForwardCharged, SendText, Extends;
    var f := s.flow.value;
    if !f.charging && s.Live() && f.pending != [] && answers(i).verdict == Yes {
      var next := ForwardCharged(s, Clamp(answers(i), |f.pending[0].bytes|));
      if next.Live() {
        DrainQuotaFins(next, i + 1, answers);
      }
    }
  }

  lemma {:induction false} DrainBacklogFins(s: Remote, i: nat, answers: nat -> Answer)
    requires s.flow.Some?
    ensures NoNewFin(s, DrainBacklog(s, i, answers))
    decreases |s.flow.value.backlog|
  {
    hide WriteTcp, Extends;
    var f := s.flow.value;
    if f.phase == Open && f.backlog != [] {
      var bytes := f.backlog[0];
      var taken := Charged(s.(flow := Some(f.(backlog := f.backlog[1..]))), -|bytes|);
      var next := WriteTcp(taken, bytes, Clamp(answers(i), |bytes|));
      if |next.flow.value.backlog| < |f.backlog| {
        DrainBacklogFins(next, i + 1, answers);
      }
    }
  }

  lemma EnqueueFins(s: Remote, bytes: seq<byte>, upload: bool, maxBytes: nat, answers: nat -> Answer)
    requires s.Live()
    ensures NoNewFin(s, Enqueue(s, bytes, upload, maxBytes, answers))
  {
    hide Finish, DrainQuota, Extends, Enqueue, Takes;
    EnqueueCases(s, bytes, upload, maxBytes, answers);
    DrainQuotaFins(Recorded(s, bytes, upload), 1, answers);
  }

  /** Only a FIN that was read is noted. */
  lemma MessageFins(s: Remote, m: Up, maxBytes: nat, answers: nat -> Answer)
    requires s.read == [] ==> m.Command?
    ensures m.Fin? || NoNewFin(s, OnMessage(s, m, maxBytes, answers))
  {
    hide Enqueue, GrantWindow, Abort, Stop, Extends;
    if m.Payload? && s.Live() {
      var t := s.(read := s.read + [m], ch := s.ch.(incoming := s.ch.incoming + |m.bytes|));
      EnqueueFins(t, m.bytes, true, maxBytes, answers);
    }
  }

  lemma EventFins(s: Remote, e: RelayEvent, maxBytes: nat, answers: nat -> Answer)
    ensures NoNewFin(s, OnEvent(s, e, maxBytes, answers))
  {
    hide SendText, Close, Enqueue, DrainBacklog, DrainQuota, ForwardCharged, Finish, Drain, Stop, Abort, Extends;
    match e
    case TcpData(bytes) =>
      if s.Live() {
        EnqueueFins(s, bytes, false, maxBytes, answers);
      }
    case TcpDrain =>
      if s.flow.Some? {
        DrainBacklogFins(s, 0, answers);
      }
    case Connected =>
      if s.Live() {
        DrainBacklogFins(SendText(s.(flow := Some(s.flow.value.(phase := Open))), Okay, answers(0).first), 1, answers);
      }
    case QuotaAnswered(granted) =>
      if s.Live() && s.flow.value.charging && s.flow.value.pending != [] {
        var t := s.(flow := Some(s.flow.value.(charging := false)));
        DrainQuotaFins(ForwardCharged(t, Clamp(answers(0), |s.flow.value.pending[0].bytes|)), 1, answers);
      }
    case _ =>
  }

  // ---- What the client reads ----

  lemma {:induction false} FramesAreTokens(log: seq<Down>)
    ensures TokenBytes(DownTokens(log)) == FrameBytes(log)
  {
    if log != [] {
      var rest, last := log[..|log| - 1], log[|log| - 1];
      FramesAreTokens(rest);
      match last
      case Line(reply) =>
        TokenBytesConcat(DownTokens(rest), [Text(reply)]);
        NoBytes(reply);
      case Frame(bytes) =>
        TokenBytesConcat(DownTokens(rest), Octets(bytes));
        OctetBytes(bytes);
      case _ => assert DownTokens(rest) + [] == DownTokens(rest);
    }
  }

  lemma {:induction false} LineIsToken(log: seq<Down>, reply: Reply)
    ensures Line(reply) in log <==> Text(reply) in DownTokens(log)
  {
    if log != [] {
      var rest, last := log[..|log| - 1], log[|log| - 1];
      LineIsToken(rest, reply);
      assert log == rest + [last];
    }
  }

  lemma OnlyLast(tokens: seq<Token>, i: nat)
    requires i < |tokens| && tokens[i] !in tokens[..|tokens| - 1]
    ensures i == |tokens| - 1
  {
    var rest := tokens[..|tokens| - 1];
    assert forall j :: 0 <= j < |rest| ==> rest[j] == tokens[j];
  }

  /** A client that read EOF read everything that was offered. */
  lemma EofIsLast(seen: seq<Down>, s: Remote)
    requires EofLaw(s) && Line(Eof) in seen && DownTokens(seen) <= s.offered
    ensures DownTokens(seen) == s.offered && (FrameBytes(seen) == s.arrived <==> !CutOff(s))
  {
    LineIsToken(seen, Eof);
    FramesAreTokens(seen);
    var tokens := DownTokens(seen);
    var i :| 0 <= i < |tokens| && tokens[i] == Text(Eof);
    OnlyLast(s.offered, i);
  }
}
