/**
 The relay process: every connection with all its channels. What the process counts
 as buffered is the sum over the flows of all connections, and what each connection
 counts as queued is the sum over its own channels.
 */
module RelayProcess {
  import opened MuxProtocol
  import opened RelayChannel
  import opened RelayBuffers
  import opened Sums

  /** One connection; `last` is the highest channel id opened on it so far. */
  datatype Peer = Peer(conns: map<nat, Remote>, last: nat, pendingBytes: int, closed: bool)

  /** Connections are numbered as they come. */
  datatype Process = Process(peers: map<nat, Peer>, last: nat, buffered: int)
  {
    predicate Has(k: nat, id: nat) {
      k in peers && id in peers[k].conns
    }

    /** The channel as it sees what it shares with others. */
    function At(k: nat, id: nat): Remote
      requires Has(k, id)
    {
      peers[k].conns[id].(total := buffered, peerBytes := peers[k].pendingBytes, stopped := peers[k].closed)
    }

    function Put(k: nat, id: nat, r: Remote): Process
      requires k in peers
    {
      Process(peers[k := peers[k].(conns := peers[k].conns[id := r], pendingBytes := r.peerBytes,
                                   closed := peers[k].closed || r.stopped)], last, r.total)
    }
  }

  const IDLE := Process(map[], 0, 0)

  /** The connection is closed; the channels with ids up to n are aborted, lowest first. */
  function AbortAll(p: Process, k: nat, n: nat): (q: Process)
    requires k in p.peers
    ensures k in q.peers && q.peers[k].last == p.peers[k].last
  {
    if n == 0 then p else
      var q := AbortAll(p, k, n - 1);
      if n in q.peers[k].conns then q.Put(k, n, Abort(q.At(k, n), false)) else q
  }

  /** A channel's step; one that stops the connection takes all its channels with it. */
  function Settle(p: Process, k: nat, id: nat, r: Remote): Process
    requires k in p.peers
  {
    var q := p.Put(k, id, r);
    if r.stopped && !p.peers[k].closed then AbortAll(q, k, q.peers[k].last) else q
  }

  function Stopped(p: Process, k: nat): Process
    requires k in p.peers
  {
    if p.peers[k].closed then p else
      AbortAll(p.(peers := p.peers[k := p.peers[k].(closed := true)]), k, p.peers[k].last)
  }

  datatype Act =
    | Joins
    | Opens(k: nat, id: nat, answers: nat -> Answer)
    | Reads(k: nat, id: nat, m: Up, maxBytes: nat, answers: nat -> Answer)
    | Acts(k: nat, id: nat, event: RelayEvent, maxBytes: nat, answers: nat -> Answer)
    | Quits(k: nat)

  /** A CONNECT or RESOLVE. Ids go up; a reused id stops the connection. */
  function Opening(p: Process, k: nat, id: nat, answers: nat -> Answer): Process
    requires k in p.peers
  {
    if id <= p.peers[k].last then Stopped(p, k) else
      Settle(p.(peers := p.peers[k := p.peers[k].(last := id)]), k, id, Opened(p, k, answers))
  }

  function Opened(p: Process, k: nat, answers: nat -> Answer): Remote
    requires k in p.peers
  {
    OnMessage(Unopened(p.buffered, p.peers[k].pendingBytes), Command, 0, answers)
  }

  /** A closed connection reads nothing; its flows may still hear from TCP and from quotas. */
  function Next(p: Process, a: Act): Process {
    match a
    case Joins => p.(peers := p.peers[p.last + 1 := Peer(map[], 0, 0, false)], last := p.last + 1)
    case Opens(k, id, answers) => if k !in p.peers || p.peers[k].closed then p else Opening(p, k, id, answers)
    case Reads(k, id, m, maxBytes, answers) =>
      if !p.Has(k, id) || p.peers[k].closed || m.Command? then p
      else if p.peers[k].conns[id].read == [] then p
      else Settle(p, k, id, OnMessage(p.At(k, id), m, maxBytes, answers))
    case Acts(k, id, e, maxBytes, answers) =>
      if !p.Has(k, id) then p else Settle(p, k, id, OnEvent(p.At(k, id), e, maxBytes, answers))
    case Quits(k) => if k !in p.peers then p else Stopped(p, k)
  }

  function Run(p: Process, acts: seq<Act>): Process
    decreases |acts|
  {
    if acts == [] then p else Run(Next(p, acts[0]), acts[1..])
  }

  // ---- What is counted ----

  function Buffered(s: Remote): int {
    if s.flow.Some? then s.flow.value.buffered else 0
  }

  function Buffers(conns: map<nat, Remote>): map<nat, int> {
    map id | id in conns :: Buffered(conns[id])
  }

  function Queues(conns: map<nat, Remote>): map<nat, int> {
    map id | id in conns :: conns[id].ch.queued
  }

  /** What the flows of one connection have buffered. */
  function PeerTotal(peer: Peer): int {
    SumTo(Buffers(peer.conns), peer.last)
  }

  function PeerTotals(peers: map<nat, Peer>): map<nat, int> {
    map k | k in peers :: PeerTotal(peers[k])
  }

  /** One channel's part: its flow is charged for what it holds, within its limits. */
  predicate Own(p: Process, k: nat, id: nat)
    requires p.Has(k, id)
  {
    && 0 < id <= p.peers[k].last
    && Metered(p.At(k, id), p.buffered - Buffered(p.peers[k].conns[id]), 0, 0)
  }

  predicate OwnPeer(p: Process, k: nat)
    requires k in p.peers
  {
    && 0 < k <= p.last
    && p.peers[k].pendingBytes == SumTo(Queues(p.peers[k].conns), p.peers[k].last)
  }

  ghost predicate Inv(p: Process) {
    && (forall k, id :: p.Has(k, id) ==> Own(p, k, id))
    && (forall k :: k in p.peers ==> OwnPeer(p, k))
    && p.buffered == SumTo(PeerTotals(p.peers), p.last) <= RELAY_BUFFER_LIMIT
  }

  /** What one channel holds does not depend on what others count. */
  lemma OwnElsewhere(p: Process, q: Process, k: nat, id: nat)
    requires Inv(p) && p.Has(k, id) && q.Has(k, id) && q.peers[k].conns[id] == p.peers[k].conns[id]
    requires p.peers[k].last <= q.peers[k].last && q.buffered <= RELAY_BUFFER_LIMIT
    ensures Own(q, k, id)
  {
    hide SumTo, Held;
    assert Own(p, k, id);
  }

  /** A step of one channel, known or new, moves the shared counts by what its own counts moved. */
  lemma PutKeeps(p: Process, k: nat, id: nat, r: Remote)
    requires Inv(p) && k in p.peers && 0 < id <= p.peers[k].last
    requires Metered(r, p.buffered - (if p.Has(k, id) then Buffered(p.peers[k].conns[id]) else 0), 0, 0)
    requires r.peerBytes - r.ch.queued
          == p.peers[k].pendingBytes - if p.Has(k, id) then p.peers[k].conns[id].ch.queued else 0
    ensures Inv(p.Put(k, id, r))
  {
    hide SumTo, Held;
    var q := p.Put(k, id, r);
    PutSums(p, k, id, r);
    assert OwnPeer(p, k);
    assert Own(q, k, id);
    forall j, i | q.Has(j, i) ensures Own(q, j, i) {
      if j != k || i != id {
        OwnElsewhere(p, q, j, i);
      }
    }
    forall j | j in q.peers ensures OwnPeer(q, j) {
      assert j in p.peers && OwnPeer(p, j);
    }
  }

  /** The three sums a channel's counts are part of. */
  lemma PutSums(p: Process, k: nat, id: nat, r: Remote)
    requires k in p.peers && 0 < id <= p.peers[k].last && 0 < k <= p.last
    ensures var q := p.Put(k, id, r);
            var a, b := p.peers[k], q.peers[k];
            && SumTo(Buffers(b.conns), a.last) == SumTo(Buffers(a.conns), a.last)
               + Buffered(r) - (if p.Has(k, id) then Buffered(a.conns[id]) else 0)
            && SumTo(Queues(b.conns), a.last) == SumTo(Queues(a.conns), a.last)
               + r.ch.queued - (if p.Has(k, id) then a.conns[id].ch.queued else 0)
            && SumTo(PeerTotals(q.peers), p.last) == SumTo(PeerTotals(p.peers), p.last)
               + SumTo(Buffers(b.conns), a.last) - SumTo(Buffers(a.conns), a.last)
  {
    hide SumTo, Held;
    var q := p.Put(k, id, r);
    var a, b := p.peers[k], q.peers[k];
    SumUpdate(Buffers(a.conns), Buffers(b.conns), id, a.last);
    SumUpdate(Queues(a.conns), Queues(b.conns), id, a.last);
    SumUpdate(PeerTotals(p.peers), PeerTotals(q.peers), k, p.last);
  }

  lemma FlagKeeps(p: Process, k: nat, last: nat, closed: bool)
    requires Inv(p) && k in p.peers && p.peers[k].last <= last
    ensures Inv(p.(peers := p.peers[k := p.peers[k].(last := last, closed := closed)]))
  {
    hide SumTo, Held;
    var q := p.(peers := p.peers[k := p.peers[k].(last := last, closed := closed)]);
    forall i | i in p.peers[k].conns ensures i <= p.peers[k].last {
      assert p.Has(k, i) && Own(p, k, i);
    }
    SumExtend(Buffers(p.peers[k].conns), p.peers[k].last, last);
    SumExtend(Queues(p.peers[k].conns), p.peers[k].last, last);
    assert PeerTotals(q.peers) == PeerTotals(p.peers);
    forall j, i | q.Has(j, i) ensures Own(q, j, i) {
      assert p.Has(j, i);
      OwnElsewhere(p, q, j, i);
    }
    forall j | j in q.peers ensures OwnPeer(q, j) {
      assert OwnPeer(p, j);
    }
  }

  /** Ended flows hold nothing. */
  ghost predicate AllSettled(p: Process) {
    forall k, id :: p.Has(k, id) ==> Settled(p.peers[k].conns[id])
  }

  /** A channel's step settles or strands its own flow and no other. */
  lemma PutSettles(p: Process, k: nat, id: nat, r: Remote, good: bool)
    requires k in p.peers
    requires if p.Has(k, id) then Settled(r) <==> Settled(p.peers[k].conns[id]) && good else Settled(r) == good
    ensures AllSettled(p.Put(k, id, r)) <==> AllSettled(p) && good
  {
    var q := p.Put(k, id, r);
    assert q.Has(k, id);
    if AllSettled(q) {
      forall j, i | p.Has(j, i) ensures Settled(p.peers[j].conns[i]) {
        assert q.Has(j, i);
      }
    }
    if AllSettled(p) && good {
      forall j, i | q.Has(j, i) ensures Settled(q.peers[j].conns[i]) {
        assert j != k || i != id ==> p.Has(j, i);
      }
    }
  }

  lemma {:induction false} AbortAllKeeps(p: Process, k: nat, n: nat)
    requires Inv(p) && k in p.peers
    ensures Inv(AbortAll(p, k, n))
    ensures AllSettled(AbortAll(p, k, n)) <==> AllSettled(p)
    decreases n
  {
    hide Inv, AllSettled, Abort, Metered;
    if n > 0 {
      AbortAllKeeps(p, k, n - 1);
      var q := AbortAll(p, k, n - 1);
      if n in q.peers[k].conns {
        AbortOne(q, k, n);
      }
    }
  }

  lemma AbortOne(p: Process, k: nat, id: nat)
    requires Inv(p) && p.Has(k, id)
    ensures var q := p.Put(k, id, Abort(p.At(k, id), false));
            Inv(q) && (AllSettled(q) <==> AllSettled(p))
  {
    hide Abort, Metered, SumTo, AllSettled;
    var s, r := p.At(k, id), Abort(p.At(k, id), false);
    assert Own(p, k, id);
    KeepsFlowAccounted(s, r, p.buffered - Buffered(p.peers[k].conns[id]), 0, 0);
    PutKeeps(p, k, id, r);
    PutSettles(p, k, id, r, true);
  }

  lemma SettleKeeps(p: Process, k: nat, id: nat, r: Remote, good: bool)
    requires Inv(p) && k in p.peers && 0 < id <= p.peers[k].last
    requires Metered(r, p.buffered - (if p.Has(k, id) then Buffered(p.peers[k].conns[id]) else 0), 0, 0)
    requires r.peerBytes - r.ch.queued
          == p.peers[k].pendingBytes - if p.Has(k, id) then p.peers[k].conns[id].ch.queued else 0
    requires if p.Has(k, id) then Settled(r) <==> Settled(p.peers[k].conns[id]) && good else Settled(r) == good
    ensures Inv(Settle(p, k, id, r))
    ensures AllSettled(Settle(p, k, id, r)) <==> AllSettled(p) && good
  {
    hide Inv, AllSettled, AbortAll, Metered, Settled;
    PutKeeps(p, k, id, r);
    PutSettles(p, k, id, r, good);
    var q := p.Put(k, id, r);
    AbortAllKeeps(q, k, q.peers[k].last);
  }

  lemma StoppedKeeps(p: Process, k: nat)
    requires Inv(p) && k in p.peers
    ensures Inv(Stopped(p, k)) && (AllSettled(Stopped(p, k)) <==> AllSettled(p))
  {
    hide Inv, AbortAll;
    var q := p.(peers := p.peers[k := p.peers[k].(last := p.peers[k].last, closed := true)]);
    FlagKeeps(p, k, p.peers[k].last, true);
    SameConns(p, q);
    AbortAllKeeps(q, k, p.peers[k].last);
  }

  lemma SameConns(p: Process, q: Process)
    requires p.peers.Keys == q.peers.Keys && forall k :: k in p.peers ==> q.peers[k].conns == p.peers[k].conns
    ensures AllSettled(p) <==> AllSettled(q)
  {
    if AllSettled(p) {
      forall k, id | q.Has(k, id) ensures Settled(q.peers[k].conns[id]) {
        assert p.Has(k, id);
      }
    }
    if AllSettled(q) {
      forall k, id | p.Has(k, id) ensures Settled(p.peers[k].conns[id]) {
        assert q.Has(k, id);
      }
    }
  }

  // ---- Every step ----

  /** A TCP write of the step is cut short by an acknowledgement that finds the socket full. */
  predicate Strands(p: Process, a: Act) {
    match a
    case Reads(k, id, m, maxBytes, answers) =>
      p.Has(k, id) && !p.peers[k].closed && p.peers[k].conns[id].read != [] &&
        MessageStrands(p.At(k, id), m, maxBytes, answers)
    case Acts(k, id, e, maxBytes, answers) =>
      p.Has(k, id) && EventStrands(p.At(k, id), e, maxBytes, answers)
    case _ => false
  }

  lemma OpeningKeeps(p: Process, k: nat, id: nat, answers: nat -> Answer)
    requires Inv(p) && k in p.peers
    ensures Inv(Opening(p, k, id, answers)) && (AllSettled(Opening(p, k, id, answers)) <==> AllSettled(p))
  {
    hide Inv, AllSettled, Settle, Stopped, Metered, SumTo;
    StoppedKeeps(p, k);
    if id > p.peers[k].last {
      var q := p.(peers := p.peers[k := p.peers[k].(last := id, closed := p.peers[k].closed)]);
      NewId(p, k, id);
      FlagKeeps(p, k, id, p.peers[k].closed);
      SameConns(p, q);
      OpenedMetered(p, k, answers);
      SettleKeeps(q, k, id, Opened(p, k, answers), true);
    }
  }

  lemma NewId(p: Process, k: nat, id: nat)
    requires Inv(p) && k in p.peers && id > p.peers[k].last
    ensures id !in p.peers[k].conns
  {
    assert p.Has(k, id) ==> Own(p, k, id);
  }

  lemma OpenedMetered(p: Process, k: nat, answers: nat -> Answer)
    requires Inv(p) && k in p.peers
    ensures var r := Opened(p, k, answers);
            && Metered(r, p.buffered, 0, 0) && Settled(r)
            && r.peerBytes - r.ch.queued == p.peers[k].pendingBytes
  {
    hide OnMessage, SumTo;
    OnMessageAccounted(Unopened(p.buffered, p.peers[k].pendingBytes), p.buffered, Command, 0, answers);
  }

  lemma StepKeeps(p: Process, a: Act)
    requires Inv(p)
    ensures Inv(Next(p, a))
    ensures AllSettled(Next(p, a)) <==> AllSettled(p) && !Strands(p, a)
  {
    hide Inv, AllSettled, OnMessage, OnEvent, Metered, SumTo, Settle, Opening, Stopped, MessageStrands, EventStrands;
    match a
    case Joins => JoinsKeeps(p);
    case Opens(k, id, answers) =>
      if k in p.peers {
        OpeningKeeps(p, k, id, answers);
      }
    case Reads(k, id, m, maxBytes, answers) =>
      CommandStrandsNothing(p, a);
      if p.Has(k, id) && p.peers[k].conns[id].read != [] {
        var r := OnMessage(p.At(k, id), m, maxBytes, answers);
        OwnMetered(p, k, id);
        OnMessageAccounted(p.At(k, id), p.buffered - Buffered(p.peers[k].conns[id]), m, maxBytes, answers);
        SettleKeeps(p, k, id, r, !MessageStrands(p.At(k, id), m, maxBytes, answers));
      }
    case Acts(k, id, e, maxBytes, answers) =>
      if p.Has(k, id) {
        var r := OnEvent(p.At(k, id), e, maxBytes, answers);
        OwnMetered(p, k, id);
        OnEventAccounted(p.At(k, id), p.buffered - Buffered(p.peers[k].conns[id]), e, maxBytes, answers);
        SettleKeeps(p, k, id, r, !EventStrands(p.At(k, id), e, maxBytes, answers));
      }
    case Quits(k) =>
      if k in p.peers {
        StoppedKeeps(p, k);
      }
  }

  lemma CommandStrandsNothing(p: Process, a: Act)
    ensures a.Reads? && a.m.Command? ==> !Strands(p, a)
  {
  }

  lemma OwnMetered(p: Process, k: nat, id: nat)
    requires Inv(p) && p.Has(k, id)
    ensures 0 < id <= p.peers[k].last
    ensures Metered(p.At(k, id), p.buffered - Buffered(p.peers[k].conns[id]), 0, 0)
  {
    assert Own(p, k, id);
  }

  lemma JoinsKeeps(p: Process)
    requires Inv(p)
    ensures Inv(Next(p, Joins)) && (AllSettled(Next(p, Joins)) <==> AllSettled(p))
  {
    hide SumTo, Held;
    var q, k := Next(p, Joins), p.last + 1;
    assert forall j :: j in p.peers ==> OwnPeer(p, j);
    forall j, i | q.Has(j, i) ensures Own(q, j, i) && p.Has(j, i) {
      OwnElsewhere(p, q, j, i);
    }
    assert Buffers(map[]) == map[] && Queues(map[]) == map[];
    SumNothing(0);
    forall j | j in q.peers ensures OwnPeer(q, j) {
      assert j != k ==> OwnPeer(p, j);
    }
    SumStep(PeerTotals(q.peers), k);
    SumUpdate(PeerTotals(p.peers), PeerTotals(q.peers), k, p.last);
    if AllSettled(q) {
      forall j, i | p.Has(j, i) ensures Settled(p.peers[j].conns[i]) {
        assert q.Has(j, i);
      }
    }
  }

  // ---- Whole runs ----

  predicate EverStrands(p: Process, acts: seq<Act>)
    decreases |acts|
  {
    acts != [] && (Strands(p, acts[0]) || EverStrands(Next(p, acts[0]), acts[1..]))
  }

  lemma {:induction false} RunKeeps(p: Process, acts: seq<Act>)
    requires Inv(p)
    ensures Inv(Run(p, acts))
    ensures AllSettled(Run(p, acts)) <==> AllSettled(p) && !EverStrands(p, acts)
    decreases |acts|
  {
    hide Inv, Next, AllSettled, Strands;
    if acts != [] {
      StepKeeps(p, acts[0]);
      RunKeeps(Next(p, acts[0]), acts[1..]);
    }
  }

  /**
   In every run over any number of connections and channels, each flow is charged for
   exactly its quota queue and backlog, the process total is the sum over the flows of
   all connections, and each connection's count is the sum over its own queues. Ended
   flows hold nothing, so that the total is the sum over live flows, if and only if no
   acknowledgement in the middle of a TCP write found the socket full.
   */
  lemma TotalsAreSums(acts: seq<Act>)
    ensures var p := Run(IDLE, acts);
            && p.buffered == SumTo(PeerTotals(p.peers), p.last) <= RELAY_BUFFER_LIMIT
            && (forall k :: k in p.peers ==> p.peers[k].pendingBytes == SumTo(Queues(p.peers[k].conns), p.peers[k].last))
            && (forall k, id :: p.Has(k, id) && p.peers[k].conns[id].flow.Some? ==>
                  var f := p.peers[k].conns[id].flow.value;
                  f.buffered == Held(f) <= FLOW_BUFFER_LIMIT)
            && (AllSettled(p) <==> !EverStrands(IDLE, acts))
  {
    hide SumTo, Held, Run, AllSettled, EverStrands;
    assert Inv(IDLE) && AllSettled(IDLE) by { IdleInv(); }
    RunKeeps(IDLE, acts);
    var p := Run(IDLE, acts);
    forall k, id | p.Has(k, id) && p.peers[k].conns[id].flow.Some?
      ensures var f := p.peers[k].conns[id].flow.value; f.buffered == Held(f) <= FLOW_BUFFER_LIMIT
    {
      assert Own(p, k, id);
    }
    forall k | k in p.peers ensures p.peers[k].pendingBytes == SumTo(Queues(p.peers[k].conns), p.peers[k].last) {
      assert OwnPeer(p, k);
    }
  }

  lemma IdleInv()
    ensures Inv(IDLE) && AllSettled(IDLE)
  {
    assert PeerTotals(map[]) == map[];
  }
}
