/**
 The native runner's transport as the object it is: a channel table and a socket, with
 loops over frames, over the messages of a poll and over the credit to give back.
 */
module NativeTransport {
  import opened Bytes
  import opened MuxProtocol
  import opened NativeModel
  import opened Sums

  class TungsteniteTransport {
    var connection: Connection
    var next: nat
    var channels: map<nat, Half>
    var pending: int
    var sent: seq<(nat, Up)>

    ghost function View(): Trunk
      reads this
    {
      Trunk(connection, next, channels, pending, sent)
    }

    ghost predicate Valid()
      reads this
    {
      Summed(View())
    }

    constructor ()
      ensures Valid() && View() == CLOSED
    {
      connection, next, channels, pending, sent := Idle, 0, map[], 0, [];
      new;
      assert Pendings(map[]) == map[];
    }

    /** The connection is gone and every channel with it. */
    method Fail()
      modifies this
      ensures Valid() && View() == FailTrunk(old(View()))
    {
      connection, channels, pending := Idle, map[], 0;
      assert Pendings(map[]) == map[];
      SumNothing(next);
    }

    /** Write one message; a socket that cannot take it ends the connection. */
    method Send(id: nat, m: Up, fails: bool) returns (ok: bool)
      requires Valid()
      modifies this
      ensures Valid() && View() == SendTrunk(old(View()), id, m, fails)
      ensures ok <==> old(connection).Live? && !fails
    {
      if !connection.Live? {
        return false;
      }
      if fails {
        Fail();
        return false;
      }
      sent := sent + [(id, m)];
      return true;
    }

    method Open() returns (id: nat)
      requires Valid()
      modifies this
      ensures Valid() && View() == OpenTrunk(old(View()))
      ensures id == if |old(channels)| >= MAX_CHANNELS || old(next) >= MAX_ID then 0 else old(next) + 1
      ensures id > 0 ==> id !in old(channels)
    {
      hide Summed;
      OpenSummed(View());
      if |channels| >= MAX_CHANNELS || next >= MAX_ID {
        return 0;
      }
      if connection.Idle? {
        connection := Handshaking;
      }
      next := next + 1;
      id := next;
      channels := channels[id := Half(false, false, 0, 0)];
    }

    /** CONNECT or RESOLVE once the channel is announced, then FIN; no line over the limit. */
    method SendText(id: nat, m: Up, length: nat, fails: bool) returns (ok: bool)
      requires Valid()
      modifies this
      ensures Valid() && View() == TextTrunk(old(View()), id, m, length, fails)
      ensures ok <==> MayText(old(View()), id, m, length) && !fails
    {
      if id !in channels || !channels[id].announced || length > MAX_TEXT {
        return false;
      }
      if !channels[id].started {
        if !m.Command? {
          return false;
        }
        assert Pendings(channels[id := channels[id].(started := true)]) == Pendings(channels);
        channels := channels[id := channels[id].(started := true)];
      } else if !m.Fin? {
        return false;
      }
      assert channels == old(channels)[id := old(channels)[id].(started := true)];
      ok := Send(id, m, fails);
    }

    /** Take all the bytes or none, and write them in frames; `taken` frames fit the socket. */
    method SendBinary(id: nat, bytes: seq<byte>, taken: nat) returns (ok: bool)
      requires Valid()
      modifies this
      ensures Valid() && View() == DataTrunk(old(View()), id, bytes, taken)
      ensures ok <==> MayData(old(View()), id, |bytes|) && |PP.Frames(bytes)| <= taken
    {
      hide Payloads, Tagged, PP.Frames;
      if id !in channels || !channels[id].started || channels[id].pending + |bytes| > MUX_WINDOW
         || pending + |bytes| > MUX_SOCKET_BUFFER {
        return false;
      }
      ghost var was := channels;
      channels := channels[id := channels[id].(pending := channels[id].pending + |bytes|)];
      pending := pending + |bytes|;
      SumUpdate(Pendings(was), Pendings(channels), id, next);
      ok := WriteFrames(id, bytes, taken);
    }

    method WriteFrames(id: nat, bytes: seq<byte>, taken: nat) returns (ok: bool)
      requires Valid() && connection.Live?
      modifies this
      ensures Valid() && (ok <==> |PP.Frames(bytes)| <= taken)
      ensures var t, frames := old(View()), PP.Frames(bytes);
              View() == if ok then t.(sent := t.sent + Tagged(id, Payloads(frames)))
                        else FailTrunk(t).(sent := t.sent + Tagged(id, Payloads(frames[..taken])))
    {
      hide PP.Frames, Summed;
      var offset, n := 0, 0;
      ghost var all, done := PP.Frames(bytes), [];
      assert bytes[0..] == bytes;
      while offset < |bytes|
        invariant 0 <= offset && Valid() && n == |done| <= taken
        invariant all == done + PP.Frames(bytes[Min(offset, |bytes|)..])
        invariant View() == old(View()).(sent := old(sent) + Tagged(id, Payloads(done)))
        decreases |bytes| - offset
      {
        var end := Min(offset + MUX_FRAME, |bytes|);
        var data := bytes[offset..end];
        NextFrame(bytes, offset);
        var wrote := Send(id, Payload(data), n >= taken);
        if !wrote {
          assert all[..taken] == done;
          return false;
        }
        MoreTagged(id, done, data);
        done := done + [data];
        offset, n := offset + MUX_FRAME, n + 1;
      }
      assert bytes[Min(offset, |bytes|)..] == [];
      NoFrames();
      assert all == done;
      return true;
    }

    /** How much of the window the caller should treat as used. */
    method BufferedAmount(id: nat) returns (n: int)
      requires Valid()
      ensures id !in channels ==> n == MUX_WINDOW
      ensures id in channels ==>
        forall len :: 0 < len ==> (Fits(channels[id], pending, len) <==> n + len <= MUX_WINDOW)
    {
      if id !in channels {
        return MUX_WINDOW;
      }
      var free := MUX_SOCKET_BUFFER - pending;
      var shared := if MUX_WINDOW > free then MUX_WINDOW - free else 0;
      n := if channels[id].pending > shared then channels[id].pending else shared;
    }

    method Close(id: nat, fails: bool)
      requires Valid()
      modifies this
      ensures Valid() && View() == CloseTrunk(old(View()), id, fails)
    {
      if id !in channels {
        return;
      }
      var h := channels[id];
      ghost var was := channels;
      channels := channels - {id};
      pending := pending - h.pending;
      SumUpdate(Pendings(was), Pendings(channels), id, next);
      if h.started {
        var _ := Send(id, Shut, fails);
      }
    }

    /** One message from the relay; a breach of credit ends the connection. */
    method Receive(id: nat, m: Down) returns (ok: bool)
      requires Valid()
      modifies this
      ensures Valid() && View() == HearTrunk(old(View()), id, m)
      ensures ok <==> !(id in old(channels) && Breach(old(channels)[id], m))
    {
      hide Summed;
      HearSummed(View(), id, m);
      ok := true;
      if id !in channels {
        return;
      }
      var h := channels[id];
      match m {
        case Line(_) =>
        case Ack(n) =>
          if n > h.pending {
            Fail();
            return false;
          }
          channels := channels[id := h.(pending := h.pending - n)];
          pending := pending - n;
        case Frame(bytes) =>
          if h.received + |bytes| > MUX_WINDOW {
            Fail();
            return false;
          }
          channels := channels[id := h.(received := h.received + |bytes|)];
        case Closed =>
          pending := pending - h.pending;
          channels := channels - {id};
      }
    }

    /** Give back every channel's received bytes, lowest id first. */
    method CreditBack(taken: nat)
      requires Valid() && connection.Live?
      modifies this
      ensures Valid() && View() == CreditTrunk(old(View()), taken)
    {
      hide Summed;
      var consumed: seq<(nat, Up)> := [];
      for id := 0 to next
        invariant consumed == Windows(channels, id)
        invariant Valid() && View() == old(View())
      {
        if id + 1 in channels && channels[id + 1].received > 0 {
          consumed := consumed + [(id + 1, Window(channels[id + 1].received))];
        }
      }
      CreditedSummed(View());
      channels := Credited(channels);
      for i := 0 to |consumed|
        invariant Valid() && next == old(next) && consumed == Windows(old(channels), next)
        invariant i <= taken ==> View() == old(View()).(channels := Credited(old(channels)), sent := old(sent) + consumed[..i])
        invariant i > taken ==> View() == FailTrunk(old(View())).(sent := old(sent) + consumed[..taken])
      {
        var _ := Send(consumed[i].0, consumed[i].1, i >= taken);
        assert consumed[..i + 1] == consumed[..i] + [consumed[i]];
      }
      assert consumed[..|consumed|] == consumed;
    }

    /** Announce every channel not announced yet. */
    method Announce()
      requires Valid() && connection.Live?
      modifies this`channels
      ensures Valid() && View() == AnnounceTrunk(old(View()))
    {
      channels := map id | id in channels :: channels[id].(announced := true);
      assert Pendings(channels) == Pendings(old(channels));
    }

    /** Read what the socket has, until the connection ends. */
    method Hear(messages: seq<(nat, Down)>)
      requires Valid()
      modifies this
      ensures Valid() && View() == HearAll(old(View()), messages)
    {
      hide Summed, HearTrunk;
      assert messages[0..] == messages;
      for i := 0 to |messages|
        invariant Valid() && HearAll(View(), messages[i..]) == HearAll(old(View()), messages)
      {
        if !connection.Live? {
          return;
        }
        assert messages[i..][1..] == messages[i + 1..];
        var _ := Receive(messages[i].0, messages[i].1);
      }
    }

    /** Take the dialed socket, announce channels, read, and give credit back. */
    method Poll(a: Polled)
      requires Valid()
      modifies this
      ensures Valid() && View() == PollTrunk(old(View()), a)
    {
      hide Summed, HearAll, CreditTrunk, AnnounceTrunk;
      if connection.Handshaking? {
        if a.dialed.None? {
          return;
        }
        if a.dialed.value {
          LiveSummed(View());
          connection := Live;
        } else {
          Fail();
        }
      }
      if !connection.Live? {
        return;
      }
      if !a.flushes {
        Fail();
        return;
      }
      Announce();
      Hear(a.messages);
      if a.readFails {
        Fail();
      }
      if connection.Live? {
        CreditBack(a.taken);
      } else {
        DeadCredits(View(), a.taken);
      }
      if a.ends {
        Fail();
      }
    }
  }

  // ---- What the loops need ----

  lemma OpenSummed(t: Trunk)
    requires Summed(t)
    ensures Summed(OpenTrunk(t)) && t.next + 1 !in t.channels
  {
    hide SumTo;
    var u := OpenTrunk(t);
    if u != t {
      SumStep(Pendings(u.channels), u.next);
      SumUpdate(Pendings(t.channels), Pendings(u.channels), u.next, t.next);
    }
  }

  lemma HearSummed(t: Trunk, id: nat, m: Down)
    requires Summed(t)
    ensures Summed(HearTrunk(t, id, m))
  {
    hide SumTo;
    if id in t.channels {
      if Breach(t.channels[id], m) {
        assert Pendings(map[]) == map[];
        SumNothing(t.next);
      } else {
        SumUpdate(Pendings(t.channels), Pendings(HearTrunk(t, id, m).channels), id, t.next);
      }
    }
  }

  lemma CreditedSummed(t: Trunk)
    requires Summed(t)
    ensures Summed(t.(channels := Credited(t.channels)))
  {
    hide SumTo;
    assert Pendings(Credited(t.channels)) == Pendings(t.channels);
  }

  lemma LiveSummed(t: Trunk)
    requires Summed(t) && t.connection.Handshaking?
    ensures Summed(t.(connection := Live))
  {
  }

  lemma DeadCredits(t: Trunk, taken: nat)
    requires !t.connection.Live?
    ensures CreditTrunk(t, taken) == t
  {
  }

  lemma NoFrames()
    ensures PP.Frames([]) == []
  {
  }

  lemma MoreTagged(id: nat, frames: seq<seq<byte>>, frame: seq<byte>)
    ensures Tagged(id, Payloads(frames + [frame])) == Tagged(id, Payloads(frames)) + [(id, Payload(frame))]
  {
    assert (frames + [frame])[..|frames|] == frames;
  }

  /** The chunk at `offset` is the first of the frames left. */
  lemma NextFrame(bytes: seq<byte>, offset: nat)
    requires offset < |bytes|
    ensures var end := Min(offset + MUX_FRAME, |bytes|);
            PP.Frames(bytes[offset..]) == [bytes[offset..end]] + PP.Frames(bytes[end..])
  {
    var rest, end := bytes[offset..], Min(offset + MUX_FRAME, |bytes|);
    if |rest| > MUX_FRAME {
      assert rest[MUX_FRAME..] == bytes[end..] && rest[..MUX_FRAME] == bytes[offset..end];
    } else {
      assert bytes[end..] == [] && bytes[offset..end] == rest;
    }
  }
}
