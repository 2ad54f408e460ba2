/**
 The native runner's transport as a value, and a run of it against the relay. It is the
 same client half as the broker's, writing to the socket directly. What the socket
 takes before it fails is an argument.
 */
module NativeModel {
  import opened Bytes
  import opened MuxProtocol
  import opened Sums
  import opened Trap
  import PP = PortProtocol
  import PL = PortLaws
  import CP = CreditProtocol

  const MAX_CHANNELS: nat := 64
  const MAX_TEXT: nat := 4000

  datatype Half = Half(announced: bool, started: bool, pending: int, received: int)

  datatype Connection = Idle | Handshaking | Live

  datatype Trunk = Trunk(connection: Connection, next: nat, channels: map<nat, Half>, pending: int, sent: seq<(nat, Up)>)

  const CLOSED := Trunk(Idle, 0, map[], 0, [])

  function Pendings(channels: map<nat, Half>): map<nat, int> {
    map id | id in channels :: channels[id].pending
  }

  function Payloads(frames: seq<seq<byte>>): seq<Up> {
    if frames == [] then [] else Payloads(frames[..|frames| - 1]) + [Payload(frames[|frames| - 1])]
  }

  function Tagged(id: nat, messages: seq<Up>): seq<(nat, Up)> {
    seq(|messages|, i requires 0 <= i < |messages| => (id, messages[i]))
  }

  /** The connection is gone and every channel with it. */
  function FailTrunk(t: Trunk): Trunk {
    t.(connection := Idle, channels := map[], pending := 0)
  }

  /** Write one message; a socket that cannot take it ends the connection. */
  function SendTrunk(t: Trunk, id: nat, m: Up, fails: bool): Trunk {
    if !t.connection.Live? then t else if fails then FailTrunk(t) else t.(sent := t.sent + [(id, m)])
  }

  function OpenTrunk(t: Trunk): Trunk {
    if |t.channels| >= MAX_CHANNELS || t.next >= MAX_ID then t else
      t.(connection := if t.connection.Idle? then Handshaking else t.connection,
         next := t.next + 1, channels := t.channels[t.next + 1 := Half(false, false, 0, 0)])
  }

  /** The line is one the channel may send now: a command first, then FIN. */
  predicate MayText(t: Trunk, id: nat, m: Up, length: nat) {
    id in t.channels && t.channels[id].announced && length <= MAX_TEXT
    && if t.channels[id].started then m.Fin? else m.Command?
  }

  function TextTrunk(t: Trunk, id: nat, m: Up, length: nat, fails: bool): Trunk {
    if !MayText(t, id, m, length) then t else
      SendTrunk(t.(channels := t.channels[id := t.channels[id].(started := true)]), id, m, fails)
  }

  /** The channel's window and the shared limit both have room. */
  predicate Fits(h: Half, total: int, n: nat) {
    h.pending + n <= MUX_WINDOW && total + n <= MUX_SOCKET_BUFFER
  }

  predicate MayData(t: Trunk, id: nat, n: nat) {
    id in t.channels && t.channels[id].started && Fits(t.channels[id], t.pending, n)
  }

  /** All the bytes are counted, then written in frames; the socket takes `taken` of them. */
  function DataTrunk(t: Trunk, id: nat, bytes: seq<byte>, taken: nat): Trunk {
    if !MayData(t, id, |bytes|) then t else
      var frames := PP.Frames(bytes);
      if |frames| <= taken then
        t.(channels := t.channels[id := t.channels[id].(pending := t.channels[id].pending + |bytes|)],
           pending := t.pending + |bytes|, sent := t.sent + Tagged(id, Payloads(frames)))
      else FailTrunk(t).(sent := t.sent + Tagged(id, Payloads(frames[..taken])))
  }

  function CloseTrunk(t: Trunk, id: nat, fails: bool): Trunk {
    if id !in t.channels then t else
      var h := t.channels[id];
      var u := t.(channels := t.channels - {id}, pending := t.pending - h.pending);
      if h.started then SendTrunk(u, id, Shut, fails) else u
  }

  predicate Breach(h: Half, m: Down) {
    || (m.Ack? && m.count > h.pending)
    || (m.Frame? && h.received + |m.bytes| > MUX_WINDOW)
  }

  /** One message from the relay; a breach of credit ends the connection. */
  function HearTrunk(t: Trunk, id: nat, m: Down): Trunk {
    if id !in t.channels then t
    else if Breach(t.channels[id], m) then FailTrunk(t)
    else
      var h := t.channels[id];
      match m
      case Line(_) => t
      case Ack(n) => t.(channels := t.channels[id := h.(pending := h.pending - n)], pending := t.pending - n)
      case Frame(bytes) => t.(channels := t.channels[id := h.(received := h.received + |bytes|)])
      case Closed => t.(channels := t.channels - {id}, pending := t.pending - h.pending)
  }

  /** The dialed socket arrives, or dialing failed. */
  function DialedTrunk(t: Trunk, ok: bool): Trunk {
    if !t.connection.Handshaking? then t else if ok then t.(connection := Live) else FailTrunk(t)
  }

  function AnnounceTrunk(t: Trunk): Trunk {
    if !t.connection.Live? then t else
      t.(channels := map id | id in t.channels :: t.channels[id].(announced := true))
  }

  function Credited(channels: map<nat, Half>): map<nat, Half> {
    map id | id in channels :: channels[id].(received := 0)
  }

  /** A WINDOW message for every channel up to n that has bytes to give back. */
  function Windows(channels: map<nat, Half>, n: nat): seq<(nat, Up)> {
    if n == 0 then [] else
      Windows(channels, n - 1) +
      if n in channels && channels[n].received > 0 then [(n, Window(channels[n].received))] else []
  }

  /** Give back every channel's received bytes, lowest id first; the socket takes `taken` messages. */
  function CreditTrunk(t: Trunk, taken: nat): Trunk {
    if !t.connection.Live? then t else
      var all := Windows(t.channels, t.next);
      if |all| <= taken then t.(channels := Credited(t.channels), sent := t.sent + all)
      else FailTrunk(t).(sent := t.sent + all[..taken])
  }

  /** What one poll finds: the dialed socket, whether it flushes, what it reads, and how it ends. */
  datatype Polled = Polled(dialed: Option<bool>, flushes: bool, messages: seq<(nat, Down)>, readFails: bool, taken: nat,
                           ends: bool)

  function HearAll(t: Trunk, messages: seq<(nat, Down)>): Trunk
    decreases |messages|
  {
    if messages == [] || !t.connection.Live? then t
    else HearAll(HearTrunk(t, messages[0].0, messages[0].1), messages[1..])
  }

  /** The part of a poll on a live connection: announce, read, give credit back. */
  function ServeTrunk(t: Trunk, a: Polled): Trunk {
    var t := HearAll(AnnounceTrunk(t), a.messages);
    var t := CreditTrunk(if a.readFails then FailTrunk(t) else t, a.taken);
    if a.ends then FailTrunk(t) else t
  }

  function PollTrunk(t: Trunk, a: Polled): Trunk {
    if t.connection.Handshaking? && a.dialed.None? then t else
      var t := if a.dialed.Some? then DialedTrunk(t, a.dialed.value) else t;
      if !t.connection.Live? then t else if !a.flushes then FailTrunk(t) else ServeTrunk(t, a)
  }

  // ---- What the counts keep ----

  /** The shared count is the sum over the channels, and everything is within its limits. */
  ghost predicate Summed(t: Trunk) {
    && t.pending == SumTo(Pendings(t.channels), t.next) <= MUX_SOCKET_BUFFER
    && (forall id :: id in t.channels ==>
          && 0 < id <= t.next
          && 0 <= t.channels[id].pending <= MUX_WINDOW && 0 <= t.channels[id].received <= MUX_WINDOW
          && (t.channels[id].announced || t.channels[id].started ==> t.connection.Live?))
    && (t.connection.Idle? ==> t.channels == map[])
  }

  predicate Counted(t: Trunk, id: nat)
    requires id in t.channels
  {
    var h := t.channels[id];
    && 0 < id <= t.next
    && 0 <= h.pending <= MUX_WINDOW && 0 <= h.received <= MUX_WINDOW
    && (h.started ==> h.announced) && (h.announced ==> t.connection.Live?)
    && (!h.started ==> h.pending == 0 && h.received == 0 && Written(t.sent, id) == [])
  }

  ghost predicate Sane(t: Trunk) {
    && t.pending == SumTo(Pendings(t.channels), t.next) <= MUX_SOCKET_BUFFER
    && (forall id :: id in t.channels ==> Counted(t, id))
    && (forall i :: 0 <= i < |t.sent| ==> 0 < t.sent[i].0 <= t.next)
    && (t.connection.Idle? ==> t.channels == map[])
  }

  lemma FailSane(t: Trunk, more: seq<(nat, Up)>)
    requires Sane(t) && forall i :: 0 <= i < |more| ==> 0 < more[i].0 <= t.next
    ensures Sane(FailTrunk(t).(sent := t.sent + more))
  {
    assert Pendings(map[]) == map[];
    SumNothing(t.next);
  }

  lemma {:induction false} NothingSent(sent: seq<(nat, Up)>, id: nat)
    requires forall i :: 0 <= i < |sent| ==> sent[i].0 != id
    ensures Written(sent, id) == []
    decreases |sent|
  {
    if sent != [] {
      NothingSent(sent[..|sent| - 1], id);
    }
  }

  lemma {:induction false} TaggedFor(id: nat, messages: seq<Up>, other: nat)
    ensures Written(Tagged(id, messages), other) == if id == other then messages else []
    decreases |messages|
  {
    var tagged := Tagged(id, messages);
    if messages != [] {
      var rest := messages[..|messages| - 1];
      TaggedFor(id, rest, other);
      assert tagged[..|tagged| - 1] == Tagged(id, rest);
      assert messages == rest + [messages[|messages| - 1]];
    }
  }

  /** One more message for `id` in the log. */
  lemma WroteOne(sent: seq<(nat, Up)>, id: nat, m: Up, other: nat)
    ensures Written(sent + [(id, m)], other) == Written(sent, other) + if id == other then [m] else []
  {
    Snoc(sent, (id, m));
  }

  lemma OpenSane(t: Trunk)
    requires Sane(t)
    ensures Sane(OpenTrunk(t))
  {
    hide SumTo, Written;
    if |t.channels| < MAX_CHANNELS && t.next < MAX_ID {
      var u := OpenTrunk(t);
      assert u.next in t.channels ==> Counted(t, u.next);
      NothingSent(t.sent, u.next);
      forall id | id in u.channels ensures Counted(u, id) {
        if id != u.next {
          assert Counted(t, id);
        }
      }
      SumStep(Pendings(u.channels), u.next);
      SumUpdate(Pendings(t.channels), Pendings(u.channels), u.next, t.next);
    }
  }

  lemma TextSane(t: Trunk, id: nat, m: Up, length: nat, fails: bool)
    requires Sane(t)
    ensures Sane(TextTrunk(t, id, m, length, fails))
  {
    hide SumTo, Written;
    if MayText(t, id, m, length) {
      assert Counted(t, id);
      var v := t.(channels := t.channels[id := t.channels[id].(started := true)]);
      assert Pendings(v.channels) == Pendings(t.channels);
      var u := v.(sent := v.sent + [(id, m)]);
      forall k | k in u.channels ensures Counted(u, k) {
        assert Counted(t, k);
        WroteOne(t.sent, id, m, k);
      }
      FailSane(t, []);
      assert t.sent + [] == t.sent;
      assert TextTrunk(t, id, m, length, fails) == if fails then FailTrunk(t) else u;
    }
  }

  lemma TaggedIds(id: nat, messages: seq<Up>)
    ensures forall i :: 0 <= i < |Tagged(id, messages)| ==> Tagged(id, messages)[i].0 == id
  {
  }

  lemma DataSane(t: Trunk, id: nat, bytes: seq<byte>, taken: nat)
    requires Sane(t)
    ensures Sane(DataTrunk(t, id, bytes, taken))
  {
    hide SumTo, Written, Payloads, Tagged;
    if MayData(t, id, |bytes|) {
      assert Counted(t, id);
      var frames := PP.Frames(bytes);
      var u := DataTrunk(t, id, bytes, taken);
      if |frames| <= taken {
        TaggedIds(id, Payloads(frames));
        SumUpdate(Pendings(t.channels), Pendings(u.channels), id, t.next);
        forall k | k in u.channels ensures Counted(u, k) {
          assert Counted(t, k);
          WrittenConcat(t.sent, Tagged(id, Payloads(frames)), k);
          TaggedFor(id, Payloads(frames), k);
        }
      } else {
        TaggedIds(id, Payloads(frames[..taken]));
        FailSane(t, Tagged(id, Payloads(frames[..taken])));
      }
    }
  }

  lemma CloseSane(t: Trunk, id: nat, fails: bool)
    requires Sane(t)
    ensures Sane(CloseTrunk(t, id, fails))
  {
    hide SumTo, Written;
    if id in t.channels {
      assert Counted(t, id);
      var v := t.(channels := t.channels - {id}, pending := t.pending - t.channels[id].pending);
      SumUpdate(Pendings(t.channels), Pendings(v.channels), id, t.next);
      var u := v.(sent := v.sent + [(id, Shut)]);
      forall k | k in v.channels ensures Counted(v, k) && Counted(u, k) {
        assert Counted(t, k);
        WroteOne(t.sent, id, Shut, k);
      }
      FailSane(t, []);
      assert t.sent + [] == t.sent;
    }
  }

  lemma HearSane(t: Trunk, id: nat, m: Down)
    requires Sane(t) && (id in t.channels ==> t.channels[id].started)
    ensures Sane(HearTrunk(t, id, m))
  {
    hide SumTo, Written;
    if id in t.channels {
      assert Counted(t, id);
      var u := HearTrunk(t, id, m);
      FailSane(t, []);
      assert t.sent + [] == t.sent;
      if !Breach(t.channels[id], m) {
        SumUpdate(Pendings(t.channels), Pendings(u.channels), id, t.next);
        forall k | k in u.channels ensures Counted(u, k) {
          assert Counted(t, k);
        }
      }
    }
  }

  lemma DialedSane(t: Trunk, ok: bool)
    requires Sane(t)
    ensures Sane(DialedTrunk(t, ok))
  {
    hide SumTo, Written;
    FailSane(t, []);
    assert t.sent + [] == t.sent;
    forall k | k in t.channels ensures Counted(t.(connection := Live), k) {
      assert Counted(t, k);
    }
  }

  lemma AnnounceSane(t: Trunk)
    requires Sane(t)
    ensures Sane(AnnounceTrunk(t))
  {
    hide SumTo, Written;
    var u := AnnounceTrunk(t);
    assert Pendings(u.channels) == Pendings(t.channels);
    forall k | k in u.channels ensures Counted(u, k) {
      assert Counted(t, k);
    }
  }

  lemma {:induction false} WindowIds(channels: map<nat, Half>, n: nat)
    ensures forall i :: 0 <= i < |Windows(channels, n)| ==> 0 < Windows(channels, n)[i].0 <= n
  {
    if n > 0 {
      WindowIds(channels, n - 1);
    }
  }

  /** Each channel gets at most its own window. */
  lemma {:induction false} WindowsFor(channels: map<nat, Half>, n: nat, id: nat)
    requires 0 < id
    ensures Written(Windows(channels, n), id)
         == if id <= n && id in channels && channels[id].received > 0 then [Window(channels[id].received)] else []
  {
    if n > 0 {
      hide Written;
      WindowsFor(channels, n - 1, id);
      if n in channels && channels[n].received > 0 {
        WroteOne(Windows(channels, n - 1), n, Window(channels[n].received), id);
      } else {
        assert Windows(channels, n) == Windows(channels, n - 1);
      }
    } else {
      NothingSent([], id);
    }
  }

  lemma CreditSane(t: Trunk, taken: nat)
    requires Sane(t)
    ensures Sane(CreditTrunk(t, taken))
  {
    hide SumTo, Written, Windows;
    if t.connection.Live? {
      var all := Windows(t.channels, t.next);
      WindowIds(t.channels, t.next);
      var u := CreditTrunk(t, taken);
      if |all| <= taken {
        assert Pendings(u.channels) == Pendings(t.channels);
        forall k | k in u.channels ensures Counted(u, k) {
          assert Counted(t, k);
          WindowsFor(t.channels, t.next, k);
          WrittenConcat(t.sent, all, k);
        }
      } else {
        FailSane(t, all[..taken]);
      }
    }
  }

  // ---- Each channel on its own ----

  /** A client half with nothing queued, as the credit protocol sees the channel. */
  function ClientOf(h: Half, up: seq<Up>, seen: seq<Down>): CP.Client {
    CP.Client(true, h.pending, h.received, [], up, seen)
  }

  predicate Mirrors(t: Trunk, id: nat, c: CP.Client) {
    && c.up == Written(t.sent, id) && c.queue == []
    && (if id in t.channels then t.channels[id].started && c == ClientOf(t.channels[id], c.up, c.seen) else !c.live)
  }

  lemma FailMirrors(t: Trunk, id: nat, s: CP.Sys) returns (u: CP.Sys)
    requires Mirrors(t, id, s.client)
    ensures Mirrors(FailTrunk(t), id, u.client) && CP.Moves(s, u)
  {
    hide CP.Moves, Written;
    u := s;
    CP.StaysPut(s);
    if s.client.live {
      u := CP.Next(s, CP.ClientCloses(false));
      CP.MovesStep(s, CP.ClientCloses(false));
    }
  }

  /** The client sends a message and it is written at once. */
  lemma WritesAtOnce(s: CP.Sys, e: CP.Event, m: Up) returns (u: CP.Sys)
    requires s.client.live && s.client.queue == [] && (e.ClientSends? || e.ClientCredits? || e.ClientFin?)
    requires CP.Next(s, e).client.queue == [m] && CP.Next(s, e).client.up == s.client.up
    ensures CP.Moves(s, u) && u.client == CP.Next(s, e).client.(queue := [], up := s.client.up + [m])
  {
    hide CP.Moves;
    var t := CP.Next(s, e);
    u := CP.Next(t, CP.ClientFlushes(1));
    CP.MovesStep(s, e);
    CP.MovesStep(t, CP.ClientFlushes(1));
    CP.MovesOn(s, t, u);
    assert [m][..1] == [m] && [m][1..] == [];
  }

  lemma TextMirrors(t: Trunk, id0: nat, m: Up, length: nat, fails: bool, id: nat, s: CP.Sys) returns (u: CP.Sys)
    requires Sane(t) && Mirrors(t, id, s.client)
    ensures Mirrors(TextTrunk(t, id0, m, length, fails), id, u.client) && CP.Moves(s, u)
  {
    hide CP.Moves, Written, CP.Leads;
    u := s;
    CP.StaysPut(s);
    if MayText(t, id0, m, length) {
      assert Counted(t, id0);
      if fails {
        u := FailMirrors(t, id, s);
      } else {
        WroteOne(t.sent, id0, m, id);
        if id == id0 {
          assert s.client.queue + [Fin] == [Fin];
          u := WritesAtOnce(s, CP.ClientFin, Fin);
        } else {
          assert Written(t.sent, id) + [] == Written(t.sent, id);
        }
      }
    }
  }

  /** Frames that fit are sent one by one. */
  lemma {:induction false} FramesMove(s: CP.Sys, frames: seq<seq<byte>>) returns (u: CP.Sys)
    requires s.client.live && s.client.queue == [] && s.client.outstanding + |Concat(frames)| <= MUX_WINDOW
    requires forall i :: 0 <= i < |frames| ==> 0 < |frames[i]| <= MUX_FRAME
    ensures CP.Moves(s, u)
    ensures u.client == s.client.(outstanding := s.client.outstanding + |Concat(frames)|,
                                  up := s.client.up + Payloads(frames))
    decreases |frames|
  {
    hide CP.Moves, Concat;
    if frames == [] {
      u := s;
      CP.StaysPut(s);
      ConcatNothing();
      assert s.client.up + [] == s.client.up;
    } else {
      var rest, last := frames[..|frames| - 1], frames[|frames| - 1];
      assert frames == rest + [last];
      ConcatSnoc(rest, last);
      var v := FramesMove(s, rest);
      assert v.client.queue + [Payload(last)] == [Payload(last)];
      u := WritesAtOnce(v, CP.ClientSends(last), Payload(last));
      CP.MovesOn(s, v, u);
      assert s.client.up + Payloads(rest) + [Payload(last)] == s.client.up + Payloads(frames);
    }
  }

  lemma PartOfFrames(bytes: seq<byte>, n: nat)
    requires n <= |PP.Frames(bytes)|
    ensures var part := PP.Frames(bytes)[..n];
            |Concat(part)| <= |bytes| && forall i :: 0 <= i < |part| ==> 0 < |part[i]| <= MUX_FRAME
  {
    PL.FramesOf(bytes);
    ConcatPart(PP.Frames(bytes), n);
  }

  lemma {:induction false} ConcatPart(frames: seq<seq<byte>>, n: nat)
    requires n <= |frames|
    ensures |Concat(frames[..n])| <= |Concat(frames)|
    decreases |frames|
  {
    if n < |frames| {
      var rest := frames[..|frames| - 1];
      assert frames == rest + [frames[|frames| - 1]] && frames[..n] == rest[..n];
      ConcatSnoc(rest, frames[|frames| - 1]);
      ConcatPart(rest, n);
    } else {
      assert frames[..n] == frames;
    }
  }

  lemma DataMirrors(t: Trunk, id0: nat, bytes: seq<byte>, taken: nat, id: nat, s: CP.Sys) returns (u: CP.Sys)
    requires Sane(t) && Mirrors(t, id, s.client)
    ensures Mirrors(DataTrunk(t, id0, bytes, taken), id, u.client) && CP.Moves(s, u)
  {
    hide CP.Moves, Written, Payloads, Tagged, SumTo;
    u := s;
    CP.StaysPut(s);
    if MayData(t, id0, |bytes|) {
      var frames := PP.Frames(bytes);
      var n := Min(taken, |frames|);
      var part := frames[..n];
      var messages := Payloads(part);
      WrittenConcat(t.sent, Tagged(id0, messages), id);
      TaggedFor(id0, messages, id);
      if id == id0 {
        PartOfFrames(bytes, n);
        u := FramesMove(s, part);
        PL.FramesOf(bytes);
      } else {
        assert Written(t.sent, id) + [] == Written(t.sent, id);
      }
      if |frames| <= taken {
        assert part == frames;
      } else if u.client.live {
        var v := u;
        u := CP.Next(v, CP.ClientCloses(false));
        CP.MovesStep(v, CP.ClientCloses(false));
        CP.MovesOn(s, v, u);
      }
    }
  }

  lemma CloseMirrors(t: Trunk, id0: nat, fails: bool, id: nat, s: CP.Sys) returns (u: CP.Sys)
    requires Sane(t) && Mirrors(t, id, s.client)
    ensures Mirrors(CloseTrunk(t, id0, fails), id, u.client) && CP.Moves(s, u)
  {
    hide CP.Moves, Written;
    u := s;
    CP.StaysPut(s);
    if id0 in t.channels {
      assert Counted(t, id0);
      WroteOne(t.sent, id0, Shut, id);
      assert Written(t.sent, id) + [] == Written(t.sent, id);
      if s.client.live && (id == id0 || (t.channels[id0].started && fails)) {
        u := CP.Next(s, CP.ClientCloses(id == id0 && !fails));
        CP.MovesStep(s, CP.ClientCloses(id == id0 && !fails));
      }
    }
  }

  lemma CreditMirrors(t: Trunk, taken: nat, id: nat, s: CP.Sys) returns (u: CP.Sys)
    requires Sane(t) && Mirrors(t, id, s.client) && 0 < id
    ensures Mirrors(CreditTrunk(t, taken), id, u.client) && CP.Moves(s, u)
  {
    hide CP.Moves, Written, Windows, SumTo;
    u := s;
    CP.StaysPut(s);
    if t.connection.Live? {
      var all := Windows(t.channels, t.next);
      var n := Min(taken, |all|);
      var part := all[..n];
      assert all == part + all[n..];
      WindowsFor(t.channels, t.next, id);
      WrittenConcat(part, all[n..], id);
      WrittenConcat(t.sent, part, id);
      assert |all| <= taken ==> part == all;
      if id in t.channels {
        assert Counted(t, id);
        var r := t.channels[id].received;
        OneOrNone(Written(part, id), Written(all[n..], id), Window(r));
        if r > 0 && Written(part, id) == [Window(r)] {
          assert s.client.queue + [Window(r)] == [Window(r)];
          u := WritesAtOnce(s, CP.ClientCredits(r), Window(r));
        }
      }
      assert Written(t.sent, id) + [] == Written(t.sent, id);
      if |all| > taken && u.client.live {
        var v := u;
        u := CP.Next(v, CP.ClientCloses(false));
        CP.MovesStep(v, CP.ClientCloses(false));
        CP.MovesOn(s, v, u);
      }
    }
  }

  lemma OneOrNone(a: seq<Up>, b: seq<Up>, m: Up)
    requires a + b == [m] || a + b == []
    ensures a == [] || a == [m]
    ensures a + b == [] ==> a == []
    ensures b == [] ==> a == a + b
  {
    if a != [] {
      assert (a + b)[0] == a[0] && |a| == 1;
    }
    assert b == [] ==> a + b == a;
  }

  /** The channel the message is for reads it; the relay never gives cause to end the connection. */
  lemma HearMirrors(t: Trunk, id: nat, s: CP.Sys)
    requires Mirrors(t, id, s.client) && CP.Inv(s) && |s.client.seen| < |s.remote.out|
    ensures var m := s.remote.out[|s.client.seen|];
            && Mirrors(HearTrunk(t, id, m), id, CP.Next(s, CP.ClientReads).client)
            && (id in t.channels ==> !Breach(t.channels[id], m))
  {
    hide Written, CP.Inv;
    if id in t.channels {
      CP.RelayNeverBreaksTheContract(s);
    }
  }

  lemma HearsElsewhere(t: Trunk, id0: nat, m: Down, id: nat, s: CP.Sys)
    requires Mirrors(t, id, s.client) && id != id0 && (id0 in t.channels ==> !Breach(t.channels[id0], m))
    ensures Mirrors(HearTrunk(t, id0, m), id, s.client)
  {
    hide Written;
  }

  lemma QuietMirrors(t: Trunk, id: nat, s: CP.Sys)
    requires Mirrors(t, id, s.client) && Sane(t)
    ensures Mirrors(AnnounceTrunk(t), id, s.client) && Mirrors(t.(connection := Live), id, s.client)
    ensures id <= t.next ==> Mirrors(OpenTrunk(t), id, s.client)
  {
    hide Written;
    assert id in t.channels ==> Counted(t, id);
  }

  /** The channel whose command was just written. */
  lemma CommandMirrors(t: Trunk, id: nat, length: nat, s: CP.Sys) returns (u: CP.Sys)
    requires Sane(t) && MayText(t, id, Command, length) && s == CP.Start(0, 0)
    ensures Mirrors(TextTrunk(t, id, Command, length, false), id, u.client) && CP.Moves(s, u)
  {
    hide CP.Moves, Written;
    assert Counted(t, id);
    WroteOne(t.sent, id, Command, id);
    u := CP.Next(s, CP.ClientFlushes(1));
    CP.MovesStep(s, CP.ClientFlushes(1));
    assert [Command][..1] == [Command] && [Command][1..] == [];
  }
}
