/** The session controller as the object it is: fields updated between awaits. */
module SessionController {
  import opened Session
  import opened Trap
  import S = Session

  class Controller {
    var current: Option<nat>
    var images: bool
    var phase: Phase
    var sequence: nat
    var pending: seq<Task>
    var waiting: Waiting
    var closing: bool
    var made: nat

    /** Record of the driver's machines and of the requests. */
    ghost var past: State

    ghost function View(): State
      reads this
    {
      past.(current := current, images := images, phase := phase, sequence := sequence, queue := pending,
            waiting := waiting, closing := closing, made := made)
    }

    constructor ()
      ensures View() == START
    {
      current, images, phase, sequence, pending, waiting, closing := None, false, Stopped, 0, [], Idle, false;
      made := 0;
      past := START;
    }

    method Release()
      modifies this
      ensures View() == S.Release(old(View()))
    {
      if current.Some? {
        past := past.(live := past.live - {current.value});
      }
      current := None;
    }

    method Queue(r: Request)
      requires r == Boot || r == Restart ==> images
      modifies this
      ensures View() == if old(closing) then old(View()) else Ask(old(View()), r).(closing := closing)
      ensures images == old(images) && closing == old(closing)
    {
      if closing {
        return;
      }
      sequence := sequence + 1;
      phase := Announced(r);
      pending := pending + [Task(r, sequence)];
      past := past.(last := r);
    }

    method Call(r: Request)
      modifies this
      ensures View() == Ask(old(View()), r)
    {
      if r == Boot {
        images := true;
      }
      if r == Restart && !images {
        return;
      }
      Queue(r);
      if r == Dispose {
        closing := true;
      }
    }

    /** The next task of the chain starts, if there is one and nothing is awaited. */
    method Begin()
      modifies this
      ensures View() == S.Begin(old(View()))
    {
      if waiting != Idle || pending == [] {
        return;
      }
      var t := pending[0];
      pending := pending[1..];
      if t.sequence != sequence {
        return;
      }
      Release();
      match t.request
      case Boot => waiting := Creating(t);
      case Restart => waiting := Creating(t);
      case Stop => phase := Stopped;
      case Reset => waiting := Resetting(t);
      case Fail =>
      case Dispose => waiting := Disposing(t);
    }

    /** The awaited promise settles. */
    method Settle(ok: bool, startedThrows: bool)
      modifies this
      ensures View() == S.Settle(old(View()), ok, startedThrows)
    {
      match waiting {
        case Idle =>
        case Creating(t) =>
          if !ok {
            waiting := Rejected(t);
          } else {
            Arrive(t, startedThrows);
          }
        case Resetting(t) =>
          if !ok {
            waiting := Rejected(t);
          } else if t.sequence != sequence {
            waiting := Idle;
          } else if !images {
            phase, waiting := Stopped, Idle;
          } else {
            phase := Starting;
            Release();
            waiting := Creating(t);
          }
        case Disposing(t) =>
          phase := Disposed;
          waiting := if ok then Idle else Rejected(t);
        case Rejected(t) =>
          waiting := Idle;
          if t.sequence == sequence {
            Release();
            phase := Failed;
          }
      }
    }

    /** The machine that was awaited: kept for the newest request, destroyed otherwise. */
    method Arrive(t: Task, startedThrows: bool)
      modifies this
      ensures View() == Created(old(View()), t, startedThrows)
    {
      var candidate := made;
      made := made + 1;
      past := past.(live := past.live + {candidate});
      if t.sequence != sequence {
        past := past.(live := past.live - {candidate});
        waiting := Idle;
        return;
      }
      current, phase := Some(candidate), Running;
      past := past.(owner := t.sequence);
      waiting := if startedThrows then Rejected(t) else Idle;
    }

    /**
     Whatever calls are made and however the awaited promises settle, after the
     events `before` of the past and these: "running" means there is a machine made
     for the newest request, no other machine is left over, and once nothing is
     queued or awaited the phase is where the newest request leads.
     */
    method Handle(events: seq<Event>, ghost before: seq<Event>)
      requires View() == Run(START, before)
      modifies this
      ensures View() == Run(START, before + events)
      ensures View().live == if current.Some? then {current.value} else {}
      ensures phase == Running ==> current.Some? && View().owner == sequence
      ensures pending == [] && waiting == Idle ==> Outcome(View()) && (current.Some? <==> phase == Running)
    {
      hide Run, Outcome;
      assert before + events[..0] == before;
      for i := 0 to |events|
        invariant View() == Run(START, before + events[..i])
      {
        RunStep(before + events[..i], events[i]);
        assert before + events[..i + 1] == before + events[..i] + [events[i]];
        match events[i] {
          case Asked(r) => Call(r);
          case Begun => Begin();
          case Settled(ok, startedThrows) => Settle(ok, startedThrows);
        }
      }
      assert before + events[..|events|] == before + events;
      LastRequestWins(before + events);
    }
  }

  lemma RunStep(before: seq<Event>, e: Event)
    ensures Run(START, before + [e]) == Next(Run(START, before), e)
  {
    RunConcat(START, before, [e]);
    assert [e][1..] == [];
  }
}
