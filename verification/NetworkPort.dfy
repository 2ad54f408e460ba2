/** The guest's end of the MessagePort, with its flow table and event list. */
module GuestPort {
  import opened Bytes
  import opened MuxProtocol
  import opened PortProtocol

  /** All events polled in order, each given back. */
  function PollAll(p: Port): Port
    decreases |p.events|
  {
    if p.events == [] then p else PollAll(PortPoll(p, 0))
  }

  // ---- The port itself keeps no order among the guest's calls ----

  /** `sendText`: whatever the guest says about a live flow is posted. */
  function PortText(p: Port, id: nat, command: bool): Port {
    if id !in p.flows || !p.flows[id].live then p else
      var f := p.flows[id];
      Post(p.(flows := p.flows[id := f.(started := f.started || command)]), if command then CommandMsg(id) else FinMsg(id))
  }

  /** The flow is live, and its window and the port's limit have room. */
  predicate Fits(p: Port, id: nat, n: nat) {
    id in p.flows && p.flows[id].live && p.flows[id].pending + n <= MUX_WINDOW && p.pending + n <= PORT_LIMIT
  }

  function PortData(p: Port, id: nat, bytes: seq<byte>): Port {
    if !Fits(p, id, |bytes|) then p else
      PostAll(p.(flows := p.flows[id := p.flows[id].(pending := p.flows[id].pending + |bytes|)],
                 pending := p.pending + |bytes|), id, Frames(bytes))
  }

  /**
   A guest that sends one command per flow, once it is announced, and FIN and data only
   after it, drives the port as the port protocol has it.
   */
  lemma OrderlyGuest(p: Port, id: nat, bytes: seq<byte>)
    requires id in p.flows
    ensures p.flows[id].ready && !p.flows[id].started ==> PortText(p, id, true) == PortCommand(p, id)
    ensures p.flows[id].started ==> PortText(p, id, false) == PortFin(p, id) && PortData(p, id, bytes) == PortSend(p, id, bytes)
  {
    var f := p.flows[id];
    if f.started {
      assert p.flows[id := f.(started := f.started || false)] == p.flows;
    }
  }

  class NetworkPort {
    var flows: map<nat, PortFlow>
    var next: nat
    var pending: int
    var events: seq<(nat, nat)>
    var log: seq<ToBroker>

    ghost var seen: seq<ToPort>
    ghost var spent: seq<map<nat, int>>

    ghost function View(): Port
      reads this
    {
      Port(flows, next, pending, events, log, seen, spent)
    }

    constructor ()
      ensures View() == START.port
    {
      flows, next, pending, events, log, seen, spent := map[], 0, 0, [], [], [], [map[]];
    }

    method Send(m: ToBroker)
      modifies this`log, this`spent
      ensures View() == Post(old(View()), m)
    {
      log := log + [m];
      spent := spent + [Pendings(flows)];
    }

    method Open() returns (id: nat)
      modifies this
      ensures View() == PortOpen(old(View()))
      ensures id == if old(next) >= MAX_ID || |old(flows)| >= 64 then 0 else next
    {
      if next >= MAX_ID || |flows| >= 64 {
        return 0;
      }
      next := next + 1;
      id := next;
      flows := flows[id := PortFlow(0, true, false, false)];
      Send(OpenMsg(id));
    }

    /** A line of the guest's, CONNECT or RESOLVE or FIN. */
    method SendText(id: nat, command: bool) returns (ok: bool)
      modifies this
      ensures ok <==> id in old(flows) && old(flows)[id].live
      ensures View() == PortText(old(View()), id, command)
    {
      ok := id in flows && flows[id].live;
      if ok {
        flows := flows[id := flows[id].(started := flows[id].started || command)];
        Send(if command then CommandMsg(id) else FinMsg(id));
      }
    }

    /** Take all the bytes or none, and post them in frames. */
    method SendBinary(id: nat, bytes: seq<byte>) returns (ok: bool)
      modifies this
      ensures ok <==> Fits(old(View()), id, |bytes|)
      ensures View() == PortData(old(View()), id, bytes)
    {
      ok := id in flows && flows[id].live && flows[id].pending + |bytes| <= MUX_WINDOW
            && pending + |bytes| <= PORT_LIMIT;
      if !ok {
        return;
      }
      flows := flows[id := flows[id].(pending := flows[id].pending + |bytes|)];
      pending := pending + |bytes|;
      ghost var counted := View();
      var offset := 0;
      assert bytes[0..] == bytes;
      while offset < |bytes|
        invariant 0 <= offset && flows == counted.flows
        invariant offset <= |bytes| ==>
          PostAll(View(), id, Frames(bytes[offset..])) == PostAll(counted, id, Frames(bytes))
        invariant offset > |bytes| ==> View() == PostAll(counted, id, Frames(bytes))
        decreases |bytes| - offset
      {
        var end := if offset + MUX_FRAME < |bytes| then offset + MUX_FRAME else |bytes|;
        var data := bytes[offset..end];
        FirstFrame(bytes, offset);
        Send(BinaryMsg(id, data));
        offset := offset + MUX_FRAME;
      }
    }

    /** How much of the window the caller should treat as used. */
    method BufferedAmount(id: nat) returns (n: int)
      ensures n >= MUX_WINDOW || (id in flows && flows[id].live)
      ensures forall len :: 0 < len ==> (Fits(View(), id, len) <==> n + len <= MUX_WINDOW)
    {
      if id !in flows || !flows[id].live {
        return MUX_WINDOW;
      }
      var shared := MUX_WINDOW - (PORT_LIMIT - pending);
      n := if flows[id].pending > shared then flows[id].pending else shared;
    }

    method Close(id: nat)
      modifies this
      ensures View() == PortClose(old(View()), id)
    {
      if id !in flows {
        return;
      }
      pending := pending - flows[id].pending;
      flows := flows - {id};
      DropEvents(id);
      Send(CloseMsg(id));
    }

    method DropEvents(id: nat)
      modifies this`events
      ensures events == Without(old(events), id)
    {
      hide Without;
      var kept: seq<(nat, nat)> := [];
      var i := 0;
      assert events[0..] == events && [] + Without(events, id) == Without(events, id);
      while i < |events|
        invariant 0 <= i <= |events| && events == old(events)
        invariant kept + Without(events[i..], id) == Without(events, id)
      {
        assert events[i..] == [events[i]] + events[i + 1..];
        WithoutCons(events[i], events[i + 1..], id);
        if events[i].0 != id {
          kept := kept + [events[i]];
        }
        i := i + 1;
      }
      WithoutCons((0, 0), [], id);
      assert events[i..] == [] && kept + [] == kept;
      events := kept;
    }

    /** A message from the broker. */
    method Receive(m: ToPort)
      modifies this
      ensures View() == PortReceive(old(View()), m)
    {
      seen := seen + [m];
      if m.id !in flows {
        return;
      }
      var f := flows[m.id];
      match m
      case OpenedMsg(id) => flows := flows[id := f.(ready := true)];
      case DataMsg(id, n) => events := events + [(id, n)];
      case AckMsg(id, n) =>
        if n == 0 || n > f.pending {
          Close(id);
          return;
        }
        flows := flows[id := f.(pending := f.pending - n)];
        pending := pending - n;
      case _ =>
        pending := pending - f.pending;
        flows := flows[m.id := f.(pending := 0, live := false)];
    }

    /** Hand the events to the guest and give their bytes back. */
    method Poll() returns (taken: seq<(nat, nat)>)
      modifies this
      ensures taken == old(events)
      ensures View() == PollAll(old(View()))
    {
      taken := events;
      events := [];
      assert taken[0..] == taken;
      for i := 0 to |taken|
        invariant events == [] && PollAll(View().(events := taken[i..])) == PollAll(old(View()))
      {
        hide Pendings;
        ghost var now := View().(events := taken[i..]);
        assert now.events[..0] + now.events[1..] == taken[i + 1..];
        Send(ConsumedMsg(taken[i].0, taken[i].1));
        assert PortPoll(now, 0) == View().(events := taken[i + 1..]);
      }
    }
  }

  /** The frame cut off at `offset` is the first of the frames left. */
  lemma FirstFrame(bytes: seq<byte>, offset: nat)
    requires offset < |bytes|
    ensures var end := if offset + MUX_FRAME < |bytes| then offset + MUX_FRAME else |bytes|;
            var frames := Frames(bytes[offset..]);
            && frames != [] && frames[0] == bytes[offset..end]
            && (offset + MUX_FRAME <= |bytes| ==> frames[1..] == Frames(bytes[offset + MUX_FRAME..]))
            && (offset + MUX_FRAME > |bytes| ==> frames[1..] == [])
  {
    var rest := bytes[offset..];
    if |rest| > MUX_FRAME {
      assert rest[MUX_FRAME..] == bytes[offset + MUX_FRAME..];
      assert rest[..MUX_FRAME] == bytes[offset..offset + MUX_FRAME];
    } else if |rest| == MUX_FRAME {
      assert bytes[offset + MUX_FRAME..] == [];
    }
  }

  lemma WithoutCons(head: (nat, nat), tail: seq<(nat, nat)>, id: nat)
    ensures Without([head] + tail, id) == (if head.0 == id then [] else [head]) + Without(tail, id)
    ensures Without([], id) == []
  {
    assert ([head] + tail)[1..] == tail;
  }
}
