/** What a guest port and the broker keep between them. */
module PortLaws {
  import opened Bytes
  import opened MuxProtocol
  import opened PortProtocol
  import opened Sums

  // ---- Totals per flow over a message log ----

  function SentFor(log: seq<ToBroker>, id: nat): nat {
    if log == [] then 0 else
      var rest, m := log[..|log| - 1], log[|log| - 1];
      SentFor(rest, id) + if m.BinaryMsg? && m.id == id then |m.bytes| else 0
  }

  function ConsumedFor(log: seq<ToBroker>, id: nat): nat {
    if log == [] then 0 else
      var rest, m := log[..|log| - 1], log[|log| - 1];
      ConsumedFor(rest, id) + if m.ConsumedMsg? && m.id == id then m.count else 0
  }

  function AckFor(log: seq<ToPort>, id: nat): nat {
    if log == [] then 0 else
      var rest, m := log[..|log| - 1], log[|log| - 1];
      AckFor(rest, id) + if m.AckMsg? && m.id == id then m.count else 0
  }

  function DataFor(log: seq<ToPort>, id: nat): nat {
    if log == [] then 0 else
      var rest, m := log[..|log| - 1], log[|log| - 1];
      DataFor(rest, id) + if m.DataMsg? && m.id == id then m.count else 0
  }

  lemma BrokerSnoc(log: seq<ToBroker>, m: ToBroker, id: nat)
    ensures SentFor(log + [m], id) == SentFor(log, id) + if m.BinaryMsg? && m.id == id then |m.bytes| else 0
    ensures ConsumedFor(log + [m], id) == ConsumedFor(log, id) + if m.ConsumedMsg? && m.id == id then m.count else 0
  {
    Snoc(log, m);
  }

  lemma PortSnoc(log: seq<ToPort>, m: ToPort, id: nat)
    ensures AckFor(log + [m], id) == AckFor(log, id) + if m.AckMsg? && m.id == id then m.count else 0
    ensures DataFor(log + [m], id) == DataFor(log, id) + if m.DataMsg? && m.id == id then m.count else 0
  {
    Snoc(log, m);
  }

  lemma {:induction false} BrokerPrefix(part: seq<ToBroker>, log: seq<ToBroker>, id: nat)
    requires part <= log
    ensures SentFor(part, id) <= SentFor(log, id) && ConsumedFor(part, id) <= ConsumedFor(log, id)
    decreases |log|
  {
    if |part| < |log| {
      BrokerPrefix(part, log[..|log| - 1], id);
    } else {
      assert part == log;
    }
  }

  lemma {:induction false} PortPrefix(part: seq<ToPort>, log: seq<ToPort>, id: nat)
    requires part <= log
    ensures AckFor(part, id) <= AckFor(log, id) && DataFor(part, id) <= DataFor(log, id)
    decreases |log|
  {
    if |part| < |log| {
      PortPrefix(part, log[..|log| - 1], id);
    } else {
      assert part == log;
    }
  }

  // ---- The port's law ----

  /** The port was told the flow is over. */
  predicate Over(log: seq<ToPort>, id: nat) {
    ClosedMsg(id) in log || RefusedMsg(id) in log
  }

  function EventBytes(events: seq<(nat, nat)>, id: nat): nat {
    if events == [] then 0 else (if events[0].0 == id then events[0].1 else 0) + EventBytes(events[1..], id)
  }

  /** `extra` bytes of the flow are counted and not posted yet. */
  predicate FlowCount(p: Port, id: nat, extra: nat)
    requires id in p.flows
  {
    var f := p.flows[id];
    && 0 < id <= p.next
    && 0 <= f.pending <= MUX_WINDOW
    && (f.live ==> f.pending + AckFor(p.seen, id) == SentFor(p.log, id) + extra)
    && (!f.live ==> f.pending == 0 && Over(p.seen, id))
  }

  /** What the port counts, with `extra` bytes of flow `id0` still to be posted. */
  predicate Counts(p: Port, id0: nat, extra: nat) {
    && p.next <= MAX_ID
    && (forall id :: id in p.flows ==> FlowCount(p, id, if id == id0 then extra else 0))
    && p.pending == SumTo(Pendings(p.flows), p.next) <= PORT_LIMIT
  }

  /** What the flow had pending at message k covers what it had sent by then. */
  predicate SpentLaw(p: Port, k: nat, id: nat)
    requires k <= |p.log| && |p.spent| == |p.log| + 1
  {
    && (id in p.spent[k] ==>
          && id <= p.next
          && 0 <= p.spent[k][id] <= MUX_WINDOW
          && (SentFor(p.log[..k], id) <= p.spent[k][id] + AckFor(p.seen, id) || Over(p.seen, id)))
    && (OpenMsg(id) in p.log[..k] && CloseMsg(id) !in p.log[..k] ==> id in p.spent[k])
  }

  ghost predicate Covers(p: Port) {
    && |p.spent| == |p.log| + 1
    && (forall k, id :: 0 <= k <= |p.log| ==> SpentLaw(p, k, id))
    && (forall k :: 0 <= k <= |p.log| ==> SumTo(p.spent[k], p.next) <= PORT_LIMIT)
  }

  /** A flow is there from its open message to its close message. */
  predicate FlowOrder(p: Port, id: nat) {
    && (id in p.flows <==> OpenMsg(id) in p.log && CloseMsg(id) !in p.log)
    && (id in p.flows ==>
          && (p.flows[id].ready ==> OpenedMsg(id) in p.seen)
          && (p.flows[id].started <==> CommandMsg(id) in p.log))
  }

  /** Opened once, then one command after the opened event, then data. */
  predicate Timely(p: Port, i: nat)
    requires i < |p.log|
  {
    var m := p.log[i];
    && 0 < m.id <= p.next
    && (m.OpenMsg? || m.CommandMsg? ==> m !in p.log[..i])
    && (!m.OpenMsg? ==> OpenMsg(m.id) in p.log[..i])
    && (m.CommandMsg? || m.FinMsg? || m.BinaryMsg? ==> OpenedMsg(m.id) in p.seen)
    && (m.FinMsg? || m.BinaryMsg? ==> CommandMsg(m.id) in p.log[..i])
    && (m.BinaryMsg? ==> 0 < |m.bytes| <= MUX_FRAME)
    && (m.ConsumedMsg? ==> 0 < m.count)
  }

  ghost predicate Ordered(p: Port) {
    && (forall id :: FlowOrder(p, id))
    && (forall i :: 0 <= i < |p.log| ==> Timely(p, i))
  }

  /** Bytes given back and bytes still to be polled were delivered. */
  ghost predicate Polls(p: Port) {
    && (forall id :: ConsumedFor(p.log, id) + EventBytes(p.events, id) <= DataFor(p.seen, id))
    && (forall e :: e in p.events ==> 0 < e.0 <= p.next && 0 < e.1 && OpenMsg(e.0) in p.log)
  }

  ghost predicate PortLaw(p: Port) {
    Counts(p, 0, 0) && Covers(p) && Ordered(p) && Polls(p)
  }

  // ---- The broker's law ----

  function Outstanding(channels: map<nat, BrokerChannel>): map<nat, int> {
    map id | id in channels :: channels[id].bytes
  }

  predicate ChannelLaw(h: Hub, id: nat)
    requires id in h.channels
  {
    var c := h.channels[id];
    && OpenMsg(id) in h.read && CloseMsg(id) !in h.read && !Over(h.out, id)
    && c.bytes + AckFor(h.out, id) == SentFor(h.read, id)
    && c.received + ConsumedFor(h.read, id) == DataFor(h.out, id)
    && (c.announced <==> OpenedMsg(id) in h.out)
    && (c.started <==> CommandMsg(id) in h.read)
    && (c.started ==> c.announced)
    && (DataFor(h.out, id) > 0 ==> c.started)
  }

  /** What the broker posted: on opened ids, positive counts, no acknowledgement after the end. */
  predicate Posted(out: seq<ToPort>, read: seq<ToBroker>, j: nat)
    requires j < |out|
  {
    && OpenMsg(out[j].id) in read
    && (out[j].DataMsg? ==> out[j].count > 0)
    && (out[j].AckMsg? ==> out[j].count > 0 && !Over(out[..j], out[j].id))
  }

  ghost predicate HubLaw(h: Hub, n: nat) {
    && h.bytes == SumTo(Outstanding(h.channels), n)
    && (forall id :: AckFor(h.out, id) <= SentFor(h.read, id))
    && (forall j :: 0 <= j < |h.out| ==> Posted(h.out, h.read, j))
    && (forall id :: id in h.channels ==> ChannelLaw(h, id))
  }

  ghost predicate Inv(s: Link) {
    && PortLaw(s.port) && HubLaw(s.hub, s.port.next)
    && s.hub.read <= s.port.log && s.port.seen <= s.hub.out
  }

  // ---- Neither side finds fault with the other ----

  /** What a live channel holds was pending at the port when its last message was sent. */
  lemma ChannelIsCovered(s: Link, k: nat, id: nat)
    requires Inv(s) && |s.hub.read| <= k <= |s.port.log| && id in s.hub.channels
    requires CloseMsg(id) !in s.port.log[|s.hub.read|..k]
    ensures id in s.port.spent[k]
    ensures SentFor(s.port.log[..k], id) - AckFor(s.hub.out, id) <= s.port.spent[k][id] <= MUX_WINDOW
  {
    hide SentFor, AckFor, ConsumedFor, DataFor, SumTo;
    hide Counts, Ordered, Polls;
    var p, h := s.port, s.hub;
    assert ChannelLaw(h, id) && SpentLaw(p, k, id);
    assert p.log[..k] == h.read + p.log[|h.read|..k];
    PortPrefix(p.seen, h.out, id);
  }

  /** One more data message keeps the broker within the port's own limits. */
  lemma WithinLimits(s: Link)
    requires Inv(s) && |s.hub.read| < |s.port.log|
    requires var m := s.port.log[|s.hub.read|]; m.BinaryMsg? && m.id in s.hub.channels
    ensures var m := s.port.log[|s.hub.read|];
            && s.hub.bytes + |m.bytes| <= PORT_LIMIT
            && s.hub.channels[m.id].bytes + |m.bytes| <= MUX_WINDOW
  {
    hide SentFor, AckFor, ConsumedFor, DataFor, SumTo;
    hide Counts, Ordered, Polls, ChannelLaw, SpentLaw;
    var p, h := s.port, s.hub;
    var k := |h.read| + 1;
    var m := p.log[|h.read|];
    assert p.log[|h.read|..k] == [m];
    assert p.log[..k] == h.read + [m];
    var now := Outstanding(h.channels);
    var after := now[m.id := now[m.id] + |m.bytes|];
    forall id | id in after
      ensures id in p.spent[k] && after[id] <= p.spent[k][id]
    {
      ChannelIsCovered(s, k, id);
      BrokerSnoc(h.read, m, id);
      ChannelBytes(h, p.next, id);
    }
    ChannelIsCovered(s, k, m.id);
    assert 0 < m.id by { IdIsPositive(p, |h.read|); }
    SumUpdate(now, after, m.id, p.next);
    forall id | id in p.spent[k] ensures 0 <= p.spent[k][id] {
      SpentIsNatural(p, k, id);
    }
    SumBelow(after, p.spent[k], p.next);
    assert m.id <= p.next by { IdIsPositive(p, |h.read|); }
  }

  lemma ChannelBytes(h: Hub, n: nat, id: nat)
    requires HubLaw(h, n) && id in h.channels
    ensures h.channels[id].bytes + AckFor(h.out, id) == SentFor(h.read, id)
  {
    assert ChannelLaw(h, id);
  }

  lemma IdIsPositive(p: Port, i: nat)
    requires Ordered(p) && i < |p.log|
    ensures 0 < p.log[i].id <= p.next
  {
    assert Timely(p, i);
  }

  lemma SpentIsNatural(p: Port, k: nat, id: nat)
    requires Covers(p) && k <= |p.log| && id in p.spent[k]
    ensures 0 <= p.spent[k][id]
  {
    assert SpentLaw(p, k, id);
  }

  /** No message of the port makes the broker close a channel or detach the port. */
  lemma BrokerNeverObjects(s: Link)
    requires Inv(s) && |s.hub.read| < |s.port.log|
    ensures !Objects(s.hub, s.port.log[|s.hub.read|])
  {
    hide SentFor, AckFor, ConsumedFor, DataFor, SumTo;
    hide Covers, EventBytes;
    var p, h := s.port, s.hub;
    var i := |h.read|;
    var m := p.log[i];
    assert p.log[..i] == h.read;
    assert Timely(p, i);
    if m.id in h.channels {
      assert ChannelLaw(h, m.id);
      assert h.read + [m] <= p.log;
      BrokerPrefix(h.read + [m], p.log, m.id);
      BrokerSnoc(h.read, m, m.id);
      PortPrefix(p.seen, h.out, m.id);
      if m.BinaryMsg? {
        WithinLimits(s);
      }
    }
  }

  /** No acknowledgement makes the port close a flow. */
  lemma PortNeverObjects(s: Link)
    requires Inv(s) && |s.port.seen| < |s.hub.out|
    requires var m := s.hub.out[|s.port.seen|]; m.AckMsg? && m.id in s.port.flows
    ensures var m := s.hub.out[|s.port.seen|];
            s.port.flows[m.id].live && 0 < m.count <= s.port.flows[m.id].pending
  {
    hide SentFor, AckFor, ConsumedFor, DataFor, SumTo;
    hide Covers, EventBytes, Ordered, Polls;
    var p, h := s.port, s.hub;
    var j := |p.seen|;
    var m := h.out[j];
    assert h.out[..j] == p.seen && Posted(h.out, h.read, j);
    assert FlowCount(p, m.id, 0);
    assert p.seen + [m] <= h.out;
    PortPrefix(p.seen + [m], h.out, m.id);
    PortSnoc(p.seen, m, m.id);
    BrokerPrefix(h.read, p.log, m.id);
  }

  // ---- Posting a message ----

  lemma OverGrows(a: seq<ToPort>, b: seq<ToPort>, id: nat)
    requires a <= b && Over(a, id)
    ensures Over(b, id)
  {
  }

  /** Posting m: the bytes it carries are no longer extra. */
  lemma CountsPost(p: Port, m: ToBroker, id0: nat, extra: nat)
    requires Counts(p, id0, extra)
    requires m.BinaryMsg? ==> m.id == id0 && |m.bytes| <= extra
    ensures Counts(Post(p, m), id0, if m.BinaryMsg? then extra - |m.bytes| else extra)
  {
    hide SentFor, AckFor, ConsumedFor, DataFor, SumTo;
    var q := Post(p, m);
    var left := if m.BinaryMsg? then extra - |m.bytes| else extra;
    forall id | id in q.flows
      ensures FlowCount(q, id, if id == id0 then left else 0)
    {
      assert FlowCount(p, id, if id == id0 then extra else 0);
      BrokerSnoc(p.log, m, id);
    }
  }

  /** Posting m: what is pending now covers what has been sent with it. */
  lemma CoversPost(p: Port, m: ToBroker, id0: nat, extra: nat)
    requires Covers(p) && Counts(p, id0, extra)
    requires m.BinaryMsg? ==> m.id == id0 && |m.bytes| <= extra
    requires Ordered(Post(p, m))
    ensures Covers(Post(p, m))
  {
    hide SentFor, AckFor, ConsumedFor, DataFor, SumTo;
    hide Timely, Ordered;
    var q := Post(p, m);
    forall k, id | 0 <= k <= |q.log|
      ensures SpentLaw(q, k, id)
    {
      if k <= |p.log| {
        assert SpentLaw(p, k, id);
        assert q.log[..k] == p.log[..k];
      } else {
        assert q.log[..k] == q.log && q.spent[k] == Pendings(p.flows);
        assert FlowOrder(q, id) by { OrderAt(q, id); }
        if id in p.flows {
          assert FlowCount(p, id, if id == id0 then extra else 0);
          BrokerSnoc(p.log, m, id);
        }
      }
    }
  }

  lemma OrderAt(p: Port, id: nat)
    requires Ordered(p)
    ensures FlowOrder(p, id)
  {
  }

  /** Posting m when the flows already are as they should be after it. */
  lemma OrderedPost(p: Port, q: Port, m: ToBroker)
    requires Ordered(p) && q.log == p.log + [m] && q.seen == p.seen && p.next <= q.next
    requires Timely(q, |p.log|)
    requires forall id :: id != m.id ==>
               (id in p.flows <==> id in q.flows) && (id in p.flows ==> p.flows[id] == q.flows[id])
    requires FlowOrder(q, m.id)
    ensures Ordered(q)
  {
    forall id
      ensures FlowOrder(q, id)
    {
      if id != m.id {
        assert FlowOrder(p, id);
      }
    }
    forall i | 0 <= i < |q.log|
      ensures Timely(q, i)
    {
      if i < |p.log| {
        assert Timely(p, i);
        assert q.log[..i] == p.log[..i];
      }
    }
  }

  lemma PollsPost(p: Port, m: ToBroker)
    requires Polls(p) && !m.ConsumedMsg?
    ensures Polls(Post(p, m))
  {
    hide SentFor, AckFor, ConsumedFor, DataFor, SumTo;
    forall id
      ensures ConsumedFor(p.log + [m], id) == ConsumedFor(p.log, id)
    {
      BrokerSnoc(p.log, m, id);
    }
  }

  // ---- The port's operations keep the law ----

  lemma {:induction false} NothingSent(p: Port, log: seq<ToBroker>, id: nat)
    requires Ordered(p) && log <= p.log && p.next < id
    ensures SentFor(log, id) == 0
    decreases |log|
  {
    if log != [] {
      NothingSent(p, log[..|log| - 1], id);
      assert Timely(p, |log| - 1);
    }
  }

  lemma UnknownId(p: Port, id: nat)
    requires Ordered(p) && p.next < id
    ensures forall m :: m in p.log ==> m.id != id
  {
    forall m | m in p.log
      ensures m.id != id
    {
      var i :| 0 <= i < |p.log| && p.log[i] == m;
      assert Timely(p, i);
    }
  }

  lemma OpenKeeps(s: Link)
    requires Inv(s)
    ensures Inv(s.(port := PortOpen(s.port)))
  {
    hide SentFor, AckFor, ConsumedFor, DataFor, SumTo, EventBytes;
    var p, h := s.port, s.hub;
    if p.next < MAX_ID && |p.flows| < 64 {
      var id := p.next + 1;
      var q := p.(next := id, flows := p.flows[id := PortFlow(0, true, false, false)]);
      OpenedOrder(p);
      OpenedCounts(s);
      OpenedCovers(p);
      CountsPost(q, OpenMsg(id), 0, 0);
      CoversPost(q, OpenMsg(id), 0, 0);
      PollsPost(q, OpenMsg(id));
      OpenedHub(s);
    }
  }

  /** The port with its next flow in the map and its message still to be posted. */
  function Opening(p: Port): Port {
    p.(next := p.next + 1, flows := p.flows[p.next + 1 := PortFlow(0, true, false, false)])
  }

  lemma OpenedOrder(p: Port)
    requires Ordered(p)
    ensures Ordered(Post(Opening(p), OpenMsg(p.next + 1)))
  {
    var id := p.next + 1;
    var q := Post(Opening(p), OpenMsg(id));
    UnknownId(p, id);
    assert q.log[..|p.log|] == p.log && q.log[|p.log|] == OpenMsg(id);
    OrderedPost(p, q, OpenMsg(id));
  }

  lemma OpenedCounts(s: Link)
    requires Inv(s) && s.port.next < MAX_ID
    ensures Counts(Opening(s.port), 0, 0)
  {
    hide SentFor, AckFor, ConsumedFor, DataFor, SumTo, EventBytes;
    hide Covers, Polls;
    var p, h := s.port, s.hub;
    var id := p.next + 1;
    var q := Opening(p);
    NothingSent(p, p.log, id);
    NothingSent(p, h.read, id);
    PortPrefix(p.seen, h.out, id);
    forall i | i in q.flows
      ensures FlowCount(q, i, 0)
    {
      if i != id {
        assert FlowCount(p, i, 0);
      }
    }
    KnownIds(p);
    SumUpdate(Pendings(p.flows), Pendings(q.flows), id, p.next);
    SumStep(Pendings(q.flows), id);
  }

  lemma KnownIds(p: Port)
    requires Counts(p, 0, 0)
    ensures forall id :: id in p.flows ==> 0 < id <= p.next
  {
    forall id | id in p.flows ensures 0 < id <= p.next {
      assert FlowCount(p, id, 0);
    }
  }

  lemma OpenedCovers(p: Port)
    requires Covers(p)
    ensures Covers(Opening(p))
  {
    hide SentFor, AckFor, ConsumedFor, DataFor, SumTo, EventBytes;
    var q := Opening(p);
    forall k, id | 0 <= k <= |q.log|
      ensures SpentLaw(q, k, id)
    {
      assert SpentLaw(p, k, id);
    }
    forall k | 0 <= k <= |q.log|
      ensures SumTo(q.spent[k], q.next) <= PORT_LIMIT
    {
      assert SpentLaw(p, k, q.next);
      SumStep(p.spent[k], q.next);
    }
  }

  lemma OpenedHub(s: Link)
    requires Inv(s)
    ensures HubLaw(s.hub, s.port.next + 1)
  {
    hide SentFor, AckFor, ConsumedFor, DataFor, SumTo, EventBytes;
    hide Counts, Covers, Polls;
    var id := s.port.next + 1;
    UnknownId(s.port, id);
    assert id in s.hub.channels ==> ChannelLaw(s.hub, id);
    SumStep(Outstanding(s.hub.channels), id);
  }

  lemma FlowsKeepCovers(p: Port, q: Port)
    requires Covers(p) && q.log == p.log && q.spent == p.spent && q.seen == p.seen && q.next == p.next
    ensures Covers(q)
  {
    forall k, i | 0 <= k <= |q.log| ensures SpentLaw(q, k, i) {
      assert SpentLaw(p, k, i);
    }
  }

  lemma CommandKeeps(s: Link, id: nat)
    requires Inv(s)
    ensures Inv(s.(port := PortCommand(s.port, id)))
  {
    hide SentFor, AckFor, ConsumedFor, DataFor, SumTo, EventBytes;
    hide HubLaw, Covers, Timely;
    var p := s.port;
    if PortCommand(p, id) != p {
      var q := p.(flows := p.flows[id := p.flows[id].(started := true)]);
      assert FlowCount(p, id, 0) && FlowOrder(p, id);
      var r := Post(q, CommandMsg(id));
      assert r.log[..|p.log|] == p.log && r.log[|p.log|] == CommandMsg(id);
      OrderedPost(p, r, CommandMsg(id));
      forall i | i in q.flows ensures FlowCount(q, i, 0) {
        assert FlowCount(p, i, 0);
      }
      assert Pendings(q.flows) == Pendings(p.flows);
      FlowsKeepCovers(p, q);
      CountsPost(q, CommandMsg(id), 0, 0);
      CoversPost(q, CommandMsg(id), 0, 0);
      PollsPost(q, CommandMsg(id));
    }
  }

  /** A message that changes no flow. */
  lemma PlainPost(p: Port, m: ToBroker, id0: nat, extra: nat)
    requires Counts(p, id0, extra) && Covers(p) && Ordered(p)
    requires m.BinaryMsg? || m.FinMsg? || m.ConsumedMsg?
    requires Timely(Post(p, m), |p.log|)
    requires m.BinaryMsg? ==> m.id == id0 && |m.bytes| <= extra
    ensures var q := Post(p, m);
            Counts(q, id0, if m.BinaryMsg? then extra - |m.bytes| else extra) && Covers(q) && Ordered(q)
  {
    hide Counts, Covers;
    var q := Post(p, m);
    assert FlowOrder(p, m.id);
    OrderedPost(p, q, m);
    CountsPost(p, m, id0, extra);
    CoversPost(p, m, id0, extra);
  }

  lemma FinKeeps(s: Link, id: nat)
    requires Inv(s)
    ensures Inv(s.(port := PortFin(s.port, id)))
  {
    hide SentFor, AckFor, ConsumedFor, DataFor, SumTo, EventBytes;
    hide HubLaw, Covers;
    var p := s.port;
    if PortFin(p, id) != p {
      var q := Post(p, FinMsg(id));
      assert q.log[..|p.log|] == p.log && q.log[|p.log|] == FinMsg(id);
      StartedIsTimely(p, id);
      PlainPost(p, FinMsg(id), 0, 0);
      PollsPost(p, FinMsg(id));
    }
  }

  lemma StartedIsTimely(p: Port, id: nat)
    requires Ordered(p) && id in p.flows && p.flows[id].started
    ensures CommandMsg(id) in p.log && OpenMsg(id) in p.log && OpenedMsg(id) in p.seen && 0 < id <= p.next
  {
    assert FlowOrder(p, id);
    var i :| 0 <= i < |p.log| && p.log[i] == CommandMsg(id);
    assert Timely(p, i);
  }

  lemma {:induction false} PostAllKeeps(p: Port, id: nat, frames: seq<seq<byte>>, extra: nat)
    requires Counts(p, id, extra) && Covers(p) && Ordered(p) && Polls(p)
    requires id in p.flows && p.flows[id].started
    requires forall i :: 0 <= i < |frames| ==> 0 < |frames[i]| <= MUX_FRAME
    requires |Concat(frames)| == extra
    ensures PortLaw(PostAll(p, id, frames))
    ensures PostAll(p, id, frames).seen == p.seen && PostAll(p, id, frames).next == p.next
    ensures p.log <= PostAll(p, id, frames).log
    decreases |frames|
  {
    hide Covers, Ordered, Polls;
    if frames == [] {
      CountsZero(p, id);
    } else {
      var m := BinaryMsg(id, frames[0]);
      var q := Post(p, m);
      assert Timely(q, |p.log|) by {
        StartedIsTimely(p, id);
        assert q.log[..|p.log|] == p.log && q.log[|p.log|] == m;
      }
      PlainPost(p, m, id, extra);
      PollsPost(p, m);
      PostAllKeeps(q, id, frames[1..], extra - |frames[0]|);
    }
  }

  lemma CountsZero(p: Port, id: nat)
    requires Counts(p, id, 0)
    ensures Counts(p, 0, 0)
  {
    forall i | i in p.flows ensures FlowCount(p, i, 0) {
      assert FlowCount(p, i, if i == id then 0 else 0);
    }
  }

  /** Frames are non-empty, fit, and together are the bytes. */
  lemma {:induction false} FramesOf(bytes: seq<byte>)
    ensures Concat(Frames(bytes)) == bytes
    ensures forall i :: 0 <= i < |Frames(bytes)| ==> 0 < |Frames(bytes)[i]| <= MUX_FRAME
  {
    if |bytes| > MUX_FRAME {
      FramesOf(bytes[MUX_FRAME..]);
      assert Frames(bytes)[1..] == Frames(bytes[MUX_FRAME..]);
    }
  }

  /** The port with n more bytes of a flow counted and not posted yet. */
  function Spending(p: Port, id: nat, n: nat): Port
    requires id in p.flows
  {
    p.(flows := p.flows[id := p.flows[id].(pending := p.flows[id].pending + n)], pending := p.pending + n)
  }

  lemma SpendingCounts(p: Port, id: nat, n: nat)
    requires Counts(p, 0, 0) && MaySend(p, id, n)
    ensures Counts(Spending(p, id, n), id, n)
  {
    hide SentFor, AckFor, SumTo;
    var q := Spending(p, id, n);
    assert FlowCount(p, id, 0);
    forall i | i in q.flows ensures FlowCount(q, i, if i == id then n else 0) {
      assert FlowCount(p, i, 0);
    }
    SumUpdate(Pendings(p.flows), Pendings(q.flows), id, p.next);
  }

  lemma SendKeeps(s: Link, id: nat, bytes: seq<byte>)
    requires Inv(s)
    ensures Inv(s.(port := PortSend(s.port, id, bytes)))
  {
    hide HubLaw, Covers, Ordered, Counts, PostAll, Frames, Concat;
    var p, n := s.port, |bytes|;
    if MaySend(p, id, n) {
      var q := Spending(p, id, n);
      SpendingCounts(p, id, n);
      SameLogKeeps(p, q);
      FramesOf(bytes);
      PostAllKeeps(q, id, Frames(bytes), n);
    }
  }

  /** Changing only what flows have pending leaves the message laws alone. */
  lemma SameLogKeeps(p: Port, q: Port)
    requires Covers(p) && Ordered(p) && q == p.(flows := q.flows, pending := q.pending)
    requires q.flows.Keys == p.flows.Keys
    requires forall id :: id in p.flows ==> q.flows[id].ready == p.flows[id].ready && q.flows[id].started == p.flows[id].started
    ensures Covers(q) && Ordered(q)
  {
    forall k, i | 0 <= k <= |q.log| ensures SpentLaw(q, k, i) {
      assert SpentLaw(p, k, i);
    }
    forall id ensures FlowOrder(q, id) {
      assert FlowOrder(p, id);
    }
    forall i | 0 <= i < |q.log| ensures Timely(q, i) {
      assert Timely(p, i);
    }
  }

  lemma ClosePortKeeps(s: Link, id: nat)
    requires Inv(s)
    ensures Inv(s.(port := PortClose(s.port, id)))
  {
    hide SentFor, AckFor, ConsumedFor, DataFor, SumTo, EventBytes;
    hide HubLaw, Covers, Timely;
    var p := s.port;
    if id in p.flows {
      var q := p.(flows := p.flows - {id}, pending := p.pending - p.flows[id].pending, events := Without(p.events, id));
      var r := Post(q, CloseMsg(id));
      assert FlowCount(p, id, 0) && FlowOrder(p, id);
      assert r.log[..|p.log|] == p.log && r.log[|p.log|] == CloseMsg(id);
      OrderedPost(p, r, CloseMsg(id));
      forall i | i in q.flows ensures FlowCount(q, i, 0) {
        assert FlowCount(p, i, 0);
      }
      SumUpdate(Pendings(p.flows), Pendings(q.flows), id, p.next);
      FlowsKeepCovers(p, q);
      CountsPost(q, CloseMsg(id), 0, 0);
      CoversPost(q, CloseMsg(id), 0, 0);
      forall i ensures EventBytes(q.events, i) <= EventBytes(p.events, i) {
        WithoutLess(p.events, id, i);
      }
      WithoutSubset(p.events, id);
      PollsPost(q, CloseMsg(id));
    }
  }

  lemma {:induction false} WithoutLess(events: seq<(nat, nat)>, id: nat, i: nat)
    ensures EventBytes(Without(events, id), i) <= EventBytes(events, i)
  {
    if events != [] {
      WithoutLess(events[1..], id, i);
      assert [] + Without(events[1..], id) == Without(events[1..], id);
      EventCons(events[0], Without(events[1..], id), i);
    }
  }

  lemma EventCons(head: (nat, nat), tail: seq<(nat, nat)>, i: nat)
    ensures EventBytes([head] + tail, i) == (if head.0 == i then head.1 else 0) + EventBytes(tail, i)
  {
    assert ([head] + tail)[1..] == tail;
  }

  lemma {:induction false} WithoutSubset(events: seq<(nat, nat)>, id: nat)
    ensures forall e :: e in Without(events, id) ==> e in events
  {
    if events != [] {
      WithoutSubset(events[1..], id);
    }
  }

  lemma {:induction false} EventRemove(events: seq<(nat, nat)>, i: nat, id: nat)
    requires i < |events|
    ensures EventBytes(events, id)
         == EventBytes(events[..i] + events[i + 1..], id) + if events[i].0 == id then events[i].1 else 0
  {
    if i == 0 {
      assert events[..0] + events[1..] == events[1..];
    } else {
      EventRemove(events[1..], i - 1, id);
      assert events[..i] + events[i + 1..] == [events[0]] + (events[1..][..i - 1] + events[1..][i..]);
      EventCons(events[0], events[1..][..i - 1] + events[1..][i..], id);
    }
  }

  lemma PollKeeps(s: Link, i: nat)
    requires Inv(s)
    ensures Inv(s.(port := PortPoll(s.port, i)))
  {
    hide SentFor, AckFor, ConsumedFor, DataFor, SumTo, EventBytes;
    hide HubLaw;
    var p := s.port;
    if i < |p.events| {
      var (id, n) := p.events[i];
      var q := p.(events := p.events[..i] + p.events[i + 1..]);
      var m := ConsumedMsg(id, n);
      EventsKeep(p, q);
      assert Post(q, m).log[..|q.log|] == q.log && Post(q, m).log[|q.log|] == m;
      assert p.events[i] in p.events;
      PlainPost(q, m, 0, 0);
      forall j ensures ConsumedFor(p.log + [m], j) + EventBytes(q.events, j) <= DataFor(p.seen, j) {
        BrokerSnoc(p.log, m, j);
        EventRemove(p.events, i, j);
      }
    }
  }

  lemma EventsKeep(p: Port, q: Port)
    requires q == p.(events := q.events) && Counts(p, 0, 0) && Covers(p) && Ordered(p)
    ensures Counts(q, 0, 0) && Covers(q) && Ordered(q)
  {
    forall id | id in q.flows ensures FlowCount(q, id, 0) {
      assert FlowCount(p, id, 0);
    }
    forall k, i | 0 <= k <= |q.log| ensures SpentLaw(q, k, i) {
      assert SpentLaw(p, k, i);
    }
    forall id ensures FlowOrder(q, id) {
      assert FlowOrder(p, id);
    }
    forall i | 0 <= i < |q.log| ensures Timely(q, i) {
      assert Timely(p, i);
    }
  }

  // ---- Reading a broker message ----

  /** The port's flows after it read m, which only its own flow feels. */
  lemma SeenKeeps(p: Port, q: Port, m: ToPort)
    requires Covers(p) && Ordered(p)
    requires q.log == p.log && q.spent == p.spent && q.next == p.next && q.seen == p.seen + [m]
    requires forall id :: id != m.id ==>
               (id in p.flows <==> id in q.flows) && (id in p.flows ==> p.flows[id] == q.flows[id])
    requires m.id in p.flows <==> m.id in q.flows
    requires m.id in p.flows ==>
               && q.flows[m.id].started == p.flows[m.id].started
               && (q.flows[m.id].ready ==> p.flows[m.id].ready || m.OpenedMsg?)
    ensures Covers(q) && Ordered(q)
  {
    hide SentFor, AckFor, SumTo;
    forall k, i | 0 <= k <= |q.log| ensures SpentLaw(q, k, i) {
      assert SpentLaw(p, k, i);
      PortSnoc(p.seen, m, i);
    }
    forall id ensures FlowOrder(q, id) {
      assert FlowOrder(p, id);
    }
    forall i | 0 <= i < |q.log| ensures Timely(q, i) {
      assert Timely(p, i);
    }
  }

  lemma SeenPolls(p: Port, q: Port, m: ToPort)
    requires Polls(p) && q.log == p.log && q.next == p.next && q.seen == p.seen + [m]
    requires q.events == p.events || (m.DataMsg? && m.count > 0 && 0 < m.id <= p.next && OpenMsg(m.id) in p.log && q.events == p.events + [(m.id, m.count)])
    ensures Polls(q)
  {
    hide ConsumedFor, DataFor, EventBytes;
    forall id ensures ConsumedFor(q.log, id) + EventBytes(q.events, id) <= DataFor(q.seen, id) {
      PortSnoc(p.seen, m, id);
      if m.DataMsg? {
        EventSnoc(p.events, (m.id, m.count), id);
      }
    }
  }

  lemma {:induction false} EventSnoc(events: seq<(nat, nat)>, e: (nat, nat), id: nat)
    ensures EventBytes(events + [e], id) == EventBytes(events, id) + if e.0 == id then e.1 else 0
  {
    if events == [] {
      assert events + [e] == [e];
    } else {
      EventSnoc(events[1..], e, id);
      assert (events + [e])[1..] == events[1..] + [e];
    }
  }

  lemma ReceiveKeeps(s: Link)
    requires Inv(s) && |s.port.seen| < |s.hub.out|
    ensures Inv(s.(port := PortReceive(s.port, s.hub.out[|s.port.seen|])))
  {
    hide SentFor, AckFor, ConsumedFor, DataFor, SumTo, EventBytes;
    hide Covers, Ordered, PortClose;
    var p, h := s.port, s.hub;
    var m := h.out[|p.seen|];
    if m.AckMsg? && m.id in p.flows {
      PortNeverObjects(s);
    }
    var q := PortReceive(p, m);
    assert Posted(h.out, h.read, |p.seen|);
    assert m.id in p.flows ==> FlowCount(p, m.id, 0) && FlowOrder(p, m.id) by { if m.id in p.flows { OrderAt(p, m.id); } }
    SeenKeeps(p, q, m);
    SeenPolls(p, q, m);
    SeenCounts(s, q, m);
  }

  lemma SeenCounts(s: Link, q: Port, m: ToPort)
    requires Inv(s) && |s.port.seen| < |s.hub.out| && m == s.hub.out[|s.port.seen|] && q == PortReceive(s.port, m)
    requires m.AckMsg? && m.id in s.port.flows ==>
               s.port.flows[m.id].live && 0 < m.count <= s.port.flows[m.id].pending
    ensures Counts(q, 0, 0)
  {
    hide SentFor, AckFor, ConsumedFor, DataFor, SumTo, EventBytes;
    hide Covers, Ordered, Polls, HubLaw, PortClose;
    var p := s.port;
    forall id | id in q.flows ensures FlowCount(q, id, 0) {
      assert FlowCount(p, id, 0);
      PortSnoc(p.seen, m, id);
      if !p.flows[id].live {
        OverGrows(p.seen, q.seen, id);
      }
    }
    if m.id in p.flows {
      assert FlowCount(p, m.id, 0);
      SumUpdate(Pendings(p.flows), Pendings(q.flows), m.id, p.next);
    }
  }

  // ---- The broker's operations keep the law ----

  /** Posting m about a channel that is there, with its record updated to fit. */
  lemma HubPost(h: Hub, g: Hub, n: nat, id: nat, m: ToPort)
    requires HubLaw(h, n) && id in h.channels && 0 < id <= n && m.id == id
    requires g.read == h.read && g.out == h.out + [m]
    requires forall i :: i != id ==>
               (i in h.channels <==> i in g.channels) && (i in h.channels ==> h.channels[i] == g.channels[i])
    requires m.DataMsg? || m.AckMsg? ==> m.count > 0
    requires m.AckMsg? ==> m.count <= h.channels[id].bytes
    requires id in g.channels ==> ChannelLaw(g, id)
    requires g.bytes == h.bytes - h.channels[id].bytes + if id in g.channels then g.channels[id].bytes else 0
    ensures HubLaw(g, n)
  {
    hide SentFor, AckFor, ConsumedFor, DataFor, SumTo;
    assert ChannelLaw(h, id);
    forall j | 0 <= j < |g.out| ensures Posted(g.out, g.read, j) {
      if j < |h.out| {
        assert Posted(h.out, h.read, j);
        assert g.out[..j] == h.out[..j];
      } else {
        assert g.out[..j] == h.out;
      }
    }
    forall i ensures AckFor(g.out, i) <= SentFor(g.read, i) {
      PortSnoc(h.out, m, i);
    }
    forall i | i in g.channels ensures ChannelLaw(g, i) {
      if i != id {
        assert ChannelLaw(h, i);
        PortSnoc(h.out, m, i);
      }
    }
    SumUpdate(Outstanding(h.channels), Outstanding(g.channels), id, n);
  }

  lemma KnownChannel(s: Link, id: nat)
    requires Inv(s) && id in s.hub.channels
    ensures ChannelLaw(s.hub, id) && 0 < id <= s.port.next
  {
    hide Counts, Covers, Polls;
    assert ChannelLaw(s.hub, id);
    var i :| 0 <= i < |s.hub.read| && s.hub.read[i] == OpenMsg(id);
    assert Timely(s.port, i);
  }

  lemma HubCloseKeeps(h: Hub, n: nat, id: nat)
    requires HubLaw(h, n) && 0 < id <= n
    ensures HubLaw(HubClose(h, id), n)
  {
    hide ChannelLaw, Posted, SumTo, AckFor, SentFor;
    if id in h.channels {
      HubPost(h, HubClose(h, id), n, id, ClosedMsg(id));
    }
  }

  lemma HubOpenedKeeps(h: Hub, n: nat, id: nat)
    requires HubLaw(h, n) && 0 < id <= n
    ensures HubLaw(HubOpened(h, id), n)
  {
    hide Posted, SumTo, AckFor, SentFor, DataFor, ConsumedFor;
    if id in h.channels && !h.channels[id].announced {
      assert ChannelLaw(h, id);
      PortSnoc(h.out, OpenedMsg(id), id);
      HubPost(h, HubOpened(h, id), n, id, OpenedMsg(id));
    }
  }

  lemma HubAckKeeps(h: Hub, n: nat, id: nat, count: nat)
    requires HubLaw(h, n) && 0 < id <= n
    ensures HubLaw(HubAck(h, id, count), n)
  {
    hide Posted, SumTo, AckFor, SentFor, DataFor, ConsumedFor;
    if HubAck(h, id, count) != h {
      assert ChannelLaw(h, id);
      PortSnoc(h.out, AckMsg(id, count), id);
      HubPost(h, HubAck(h, id, count), n, id, AckMsg(id, count));
    }
  }

  lemma HubDataKeeps(h: Hub, n: nat, id: nat, count: nat)
    requires HubLaw(h, n) && 0 < id <= n
    ensures HubLaw(HubData(h, id, count), n)
  {
    hide Posted, SumTo, AckFor, SentFor, DataFor, ConsumedFor;
    if HubData(h, id, count) != h {
      assert ChannelLaw(h, id);
      PortSnoc(h.out, DataMsg(id, count), id);
      HubPost(h, HubData(h, id, count), n, id, DataMsg(id, count));
    }
  }

  /** Telling the port that an opened id has no channel. */
  lemma HubNote(h: Hub, n: nat, m: ToPort)
    requires HubLaw(h, n) && m.id !in h.channels && OpenMsg(m.id) in h.read
    requires m.ClosedMsg? || m.RefusedMsg?
    ensures HubLaw(h.(out := h.out + [m]), n)
  {
    hide SentFor, AckFor, ConsumedFor, DataFor, SumTo;
    var g := h.(out := h.out + [m]);
    forall j | 0 <= j < |g.out| ensures Posted(g.out, g.read, j) {
      if j < |h.out| {
        assert Posted(h.out, h.read, j);
        assert g.out[..j] == h.out[..j];
      }
    }
    forall i ensures AckFor(g.out, i) <= SentFor(g.read, i) {
      PortSnoc(h.out, m, i);
    }
    forall i | i in g.channels ensures ChannelLaw(g, i) {
      assert ChannelLaw(h, i);
      PortSnoc(h.out, m, i);
    }
  }

  /** Reading m, with only its own channel's record changed to fit. */
  lemma HubRead(h: Hub, g: Hub, n: nat, m: ToBroker)
    requires HubLaw(h, n) && 0 < m.id <= n
    requires g.read == h.read + [m] && g.out == h.out
    requires forall i :: i != m.id ==>
               (i in h.channels <==> i in g.channels) && (i in h.channels ==> h.channels[i] == g.channels[i])
    requires m.id in g.channels ==> ChannelLaw(g, m.id)
    requires g.bytes == h.bytes - (if m.id in h.channels then h.channels[m.id].bytes else 0)
                                + (if m.id in g.channels then g.channels[m.id].bytes else 0)
    ensures HubLaw(g, n)
  {
    hide SentFor, AckFor, ConsumedFor, DataFor, SumTo;
    forall j | 0 <= j < |g.out| ensures Posted(g.out, g.read, j) {
      assert Posted(h.out, h.read, j);
    }
    forall i ensures AckFor(g.out, i) <= SentFor(g.read, i) {
      BrokerSnoc(h.read, m, i);
    }
    forall i | i in g.channels ensures ChannelLaw(g, i) {
      if i != m.id {
        assert ChannelLaw(h, i);
        BrokerSnoc(h.read, m, i);
      }
    }
    SumUpdate(Outstanding(h.channels), Outstanding(g.channels), m.id, n);
  }

  lemma {:induction false} NoneSent(log: seq<ToBroker>, id: nat)
    requires forall m :: m in log ==> m.id != id
    ensures SentFor(log, id) == 0 && ConsumedFor(log, id) == 0
  {
    if log != [] {
      NoneSent(log[..|log| - 1], id);
      assert log[|log| - 1] in log;
    }
  }

  lemma {:induction false} NonePosted(log: seq<ToPort>, id: nat)
    requires forall m :: m in log ==> m.id != id
    ensures AckFor(log, id) == 0 && DataFor(log, id) == 0
  {
    if log != [] {
      NonePosted(log[..|log| - 1], id);
      assert log[|log| - 1] in log;
    }
  }

  /** Before an id is opened nobody mentioned it. */
  lemma NewId(s: Link)
    requires Inv(s) && |s.hub.read| < |s.port.log| && s.port.log[|s.hub.read|].OpenMsg?
    ensures var id := s.port.log[|s.hub.read|].id;
            (forall m :: m in s.hub.read ==> m.id != id) && (forall m :: m in s.hub.out ==> m.id != id)
  {
    hide SentFor, AckFor, ConsumedFor, DataFor, SumTo;
    hide Counts, Covers, Polls;
    var p, h := s.port, s.hub;
    var i := |h.read|;
    var id := p.log[i].id;
    assert p.log[..i] == h.read && Timely(p, i);
    forall m | m in h.read ensures m.id != id {
      var j :| 0 <= j < |h.read| && h.read[j] == m;
      assert Timely(p, j);
    }
    forall m | m in h.out ensures m.id != id {
      var j :| 0 <= j < |h.out| && h.out[j] == m;
      assert Posted(h.out, h.read, j);
    }
  }

  lemma ReadOpenKeeps(s: Link, connected: bool, room: bool)
    requires Inv(s) && |s.hub.read| < |s.port.log| && s.port.log[|s.hub.read|].OpenMsg?
    ensures HubLaw(HubReceive(s.hub, s.port.log[|s.hub.read|], connected, room), s.port.next)
  {
    hide SentFor, AckFor, ConsumedFor, DataFor, SumTo;
    hide Counts, Covers, Polls, Posted;
    var p, h := s.port, s.hub;
    var m := p.log[|h.read|];
    assert Timely(p, |h.read|);
    BrokerNeverObjects(s);
    NewId(s);
    NoneSent(h.read, m.id);
    NonePosted(h.out, m.id);
    BrokerSnoc(h.read, m, m.id);
    var g := h.(read := h.read + [m]);
    if room {
      var f := g.(channels := g.channels[m.id := BrokerChannel(false, false, 0, 0)]);
      assert ChannelLaw(f, m.id);
      HubRead(h, f, p.next, m);
      HubOpenedKeeps(f, p.next, m.id);
    } else {
      HubRead(h, g, p.next, m);
      HubNote(g, p.next, RefusedMsg(m.id));
    }
  }

  lemma AcceptKeeps(h: Hub, n: nat, m: ToBroker)
    requires HubLaw(h, n) && 0 < m.id <= n && m.id in h.channels && !m.OpenMsg? && !m.CloseMsg? && !Objects(h, m)
    ensures HubLaw(Accept(h.(read := h.read + [m]), m), n)
  {
    hide SentFor, AckFor, ConsumedFor, DataFor, SumTo, Posted;
    var g := Accept(h.(read := h.read + [m]), m);
    assert ChannelLaw(h, m.id);
    BrokerSnoc(h.read, m, m.id);
    assert ChannelLaw(g, m.id);
    HubRead(h, g, n, m);
  }

  lemma ReadOtherKeeps(s: Link, connected: bool, room: bool)
    requires Inv(s) && |s.hub.read| < |s.port.log| && !s.port.log[|s.hub.read|].OpenMsg?
    ensures HubLaw(HubReceive(s.hub, s.port.log[|s.hub.read|], connected, room), s.port.next)
  {
    hide HubLaw, Counts, Covers, Polls, Accept;
    var p, h := s.port, s.hub;
    var m, n := p.log[|h.read|], p.next;
    assert Timely(p, |h.read|) && p.log[..|h.read|] == h.read;
    BrokerNeverObjects(s);
    var g := h.(read := h.read + [m]);
    if m.id !in h.channels {
      HubRead(h, g, n, m);
    } else if m.CloseMsg? {
      var f := g.(channels := g.channels - {m.id}, bytes := g.bytes - g.channels[m.id].bytes);
      HubRead(h, f, n, m);
      HubNote(f, n, ClosedMsg(m.id));
    } else {
      AcceptKeeps(h, n, m);
      HubCloseKeeps(Accept(g, m), n, m.id);
    }
  }

  // ---- Over whole runs ----

  lemma StartInv()
    ensures Inv(START)
  {
    assert Pendings(map[]) == map[] && Outstanding(map[]) == map[];
  }

  lemma StepKeeps(s: Link, e: PortEvent)
    requires Inv(s)
    ensures Inv(Next(s, e))
  {
    hide PortLaw, HubLaw;
    hide PortOpen, PortCommand, PortFin, PortSend, PortClose, PortPoll, PortReceive;
    match e
    case GuestOpens => OpenKeeps(s);
    case GuestCommands(id) => CommandKeeps(s, id);
    case GuestFins(id) => FinKeeps(s, id);
    case GuestSends(id, bytes) => SendKeeps(s, id, bytes);
    case GuestCloses(id) => ClosePortKeeps(s, id);
    case GuestPolls(i) => PollKeeps(s, i);
    case PortReads =>
      if |s.port.seen| < |s.hub.out| {
        ReceiveKeeps(s);
      }
    case BrokerReads(connected, room) =>
      if |s.hub.read| < |s.port.log| {
        if s.port.log[|s.hub.read|].OpenMsg? {
          ReadOpenKeeps(s, connected, room);
        } else {
          ReadOtherKeeps(s, connected, room);
        }
      }
    case _ => HubStepKeeps(s, e);
  }

  lemma HubStepKeeps(s: Link, e: PortEvent)
    requires Inv(s) && (e.BrokerOpens? || e.RelayAcks? || e.RelayDelivers? || e.BrokerCloses?)
    ensures Inv(Next(s, e))
  {
    hide PortLaw, HubLaw;
    if e.id in s.hub.channels {
      KnownChannel(s, e.id);
      match e
      case BrokerOpens(id) => HubOpenedKeeps(s.hub, s.port.next, id);
      case RelayAcks(id, n) => HubAckKeeps(s.hub, s.port.next, id, n);
      case RelayDelivers(id, n) => HubDataKeeps(s.hub, s.port.next, id, n);
      case BrokerCloses(id) => HubCloseKeeps(s.hub, s.port.next, id);
    }
  }

  lemma {:induction false} RunKeeps(s: Link, events: seq<PortEvent>)
    requires Inv(s)
    ensures Inv(Run(s, events))
    decreases |events|
  {
    hide Inv, Next;
    if events != [] {
      StepKeeps(s, events[0]);
      RunKeeps(Next(s, events[0]), events[1..]);
    }
  }

  /** Some run goes from s to t. */
  ghost predicate Leads(s: Link, t: Link) {
    exists events :: Run(s, events) == t
  }

  /** Some run from the start ends in s. */
  ghost predicate Reached(s: Link) {
    Leads(START, s)
  }

  lemma {:induction false} RunConcat(s: Link, before: seq<PortEvent>, events: seq<PortEvent>)
    ensures Run(s, before + events) == Run(Run(s, before), events)
    decreases |before|
  {
    hide Next;
    if before == [] {
      assert before + events == events;
    } else {
      assert (before + events)[0] == before[0] && (before + events)[1..] == before[1..] + events;
      RunConcat(Next(s, before[0]), before[1..], events);
    }
  }

  lemma LeadsHere(s: Link)
    ensures Leads(s, s)
  {
    assert Run(s, []) == s;
  }

  lemma LeadsStep(s: Link, e: PortEvent)
    ensures Leads(s, Next(s, e))
  {
    hide Next;
    assert [e][1..] == [];
    assert Run(s, [e]) == Next(s, e);
  }

  lemma LeadsOn(s: Link, t: Link, u: Link)
    requires Leads(s, t) && Leads(t, u)
    ensures Leads(s, u)
  {
    var before :| Run(s, before) == t;
    var events :| Run(t, events) == u;
    RunConcat(s, before, events);
  }

  lemma ReachedInv(s: Link)
    requires Reached(s)
    ensures Inv(s)
  {
    hide Inv, Run;
    var events :| Run(START, events) == s;
    StartInv();
    RunKeeps(START, events);
  }

  /**
   In every run of a guest that commands before it sends: the broker never closes a
   channel or detaches the port over a port message, whatever closes cross on the
   two queues; the port never closes a flow over an acknowledgement; and what a flow
   counts is in flight, held by the broker's channel, or acknowledged in flight.
   */
  lemma NobodyObjects(events: seq<PortEvent>)
    ensures var s := Run(START, events);
            && (|s.hub.read| < |s.port.log| ==> !Objects(s.hub, s.port.log[|s.hub.read|]))
            && (|s.port.seen| < |s.hub.out| ==>
                  var m := s.hub.out[|s.port.seen|];
                  m.AckMsg? && m.id in s.port.flows ==> 0 < m.count <= s.port.flows[m.id].pending)
            && (forall id :: id in s.port.flows && s.port.flows[id].live && id in s.hub.channels ==>
                  s.port.flows[id].pending
                  == (SentFor(s.port.log, id) - SentFor(s.hub.read, id)) + s.hub.channels[id].bytes
                     + (AckFor(s.hub.out, id) - AckFor(s.port.seen, id)))
  {
    hide SentFor, AckFor, ConsumedFor, DataFor, SumTo, Run;
    hide Covers, Ordered, Polls, Objects;
    StartInv();
    RunKeeps(START, events);
    var s := Run(START, events);
    if |s.hub.read| < |s.port.log| {
      BrokerNeverObjects(s);
    }
    if |s.port.seen| < |s.hub.out| {
      var m := s.hub.out[|s.port.seen|];
      if m.AckMsg? && m.id in s.port.flows {
        PortNeverObjects(s);
      }
    }
    forall id | id in s.port.flows && s.port.flows[id].live && id in s.hub.channels
      ensures s.port.flows[id].pending
           == (SentFor(s.port.log, id) - SentFor(s.hub.read, id)) + s.hub.channels[id].bytes
              + (AckFor(s.hub.out, id) - AckFor(s.port.seen, id))
    {
      assert FlowCount(s.port, id, 0) && ChannelLaw(s.hub, id);
    }
  }
}
