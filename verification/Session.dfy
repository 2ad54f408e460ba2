/**
 The session controller: requests are queued on one promise chain, each taking
 effect only if no newer request was made meanwhile. Awaits are points where
 requests and resolutions interleave freely.
 */
module Session {
  import opened Trap

  datatype Request = Boot | Restart | Stop | Reset | Fail | Dispose

  datatype Phase = Stopped | Starting | Running | Stopping | Failed | Disposed

  datatype Task = Task(request: Request, sequence: nat)

  /** What the chain is waiting for; Rejected is a failure on its way to the handler. */
  datatype Waiting =
    | Idle
    | Creating(task: Task)
    | Resetting(task: Task)
    | Disposing(task: Task)
    | Rejected(task: Task)

  /**
   `live` are machines created and not destroyed, `made` counts machines, `owner` is
   the request the current machine was created for, and `last` is the newest request.
   */
  datatype State = State(
    current: Option<nat>, images: bool, phase: Phase, sequence: nat, queue: seq<Task>, waiting: Waiting,
    closing: bool, live: set<nat>, made: nat, owner: nat, last: Request)

  const START := State(None, false, Stopped, 0, [], Idle, false, {}, 0, 0, Stop)

  function Announced(r: Request): Phase {
    match r
    case Boot => Starting
    case Restart => Starting
    case Fail => Failed
    case _ => Stopping
  }

  function Release(s: State): State {
    if s.current.None? then s else s.(current := None, live := s.live - {s.current.value})
  }

  /** A call on the session, which takes effect on the chain later. */
  function Ask(s: State, r: Request): State {
    var s := if r == Boot then s.(images := true) else s;
    if r == Restart && !s.images then s else
      var s := if s.closing then s else
        s.(sequence := s.sequence + 1, phase := Announced(r), queue := s.queue + [Task(r, s.sequence + 1)], last := r);
      if r == Dispose then s.(closing := true) else s
  }

  /** The chain reaches the next task, unless it was superseded. */
  function Begin(s: State): State {
    if s.waiting != Idle || s.queue == [] then s else
      var t := s.queue[0];
      var s := s.(queue := s.queue[1..]);
      if t.sequence != s.sequence then s else
        var s := Release(s);
        match t.request
        case Boot => s.(waiting := Creating(t))
        case Restart => s.(waiting := Creating(t))
        case Stop => s.(phase := Stopped)
        case Reset => s.(waiting := Resetting(t))
        case Fail => s
        case Dispose => s.(waiting := Disposing(t))
  }

  /** A machine arrives: it becomes current, or is destroyed if nobody wants it any more. */
  function Created(s: State, t: Task, startedThrows: bool): State {
    var candidate := s.made;
    var s := s.(made := s.made + 1, live := s.live + {candidate});
    if t.sequence != s.sequence then s.(live := s.live - {candidate}, waiting := Idle) else
      s.(current := Some(candidate), owner := t.sequence, phase := Running,
         waiting := if startedThrows then Rejected(t) else Idle)
  }

  /** What the chain waits for resolves or rejects. */
  function Settle(s: State, ok: bool, startedThrows: bool): State {
    match s.waiting
    case Idle => s
    case Creating(t) => if ok then Created(s, t, startedThrows) else s.(waiting := Rejected(t))
    case Resetting(t) =>
      if !ok then s.(waiting := Rejected(t))
      else if t.sequence != s.sequence then s.(waiting := Idle)
      else if !s.images then s.(phase := Stopped, waiting := Idle)
      else Release(s.(phase := Starting)).(waiting := Creating(t))
    case Disposing(t) => s.(phase := Disposed, waiting := if ok then Idle else Rejected(t))
    case Rejected(t) =>
      var s := s.(waiting := Idle);
      if t.sequence != s.sequence then s else Release(s).(phase := Failed)
  }

  datatype Event = Asked(request: Request) | Begun | Settled(ok: bool, startedThrows: bool)

  function Next(s: State, e: Event): State {
    match e
    case Asked(r) => Ask(s, r)
    case Begun => Begin(s)
    case Settled(ok, startedThrows) => Settle(s, ok, startedThrows)
  }

  function Run(s: State, events: seq<Event>): State
    decreases |events|
  {
    if events == [] then s else Run(Next(s, events[0]), events[1..])
  }

  // ---- What every interleaving keeps ----

  /** The only live machine is the current one. */
  predicate OneMachine(s: State) {
    && s.live == (if s.current.Some? then {s.current.value} else {})
    && (s.current.Some? ==> s.current.value < s.made)
  }

  predicate Ascending(queue: seq<Task>) {
    forall i, j :: 0 <= i < j < |queue| ==> queue[i].sequence < queue[j].sequence
  }

  /** Tasks are in the order of their requests, and the newest request is the last of them. */
  predicate InOrder(s: State) {
    && Ascending(s.queue) && (forall i :: 0 <= i < |s.queue| ==> s.queue[i].sequence <= s.sequence)
    && (s.queue != [] ==> s.queue[|s.queue| - 1] == Task(s.last, s.sequence))
    && (s.waiting != Idle ==> s.waiting.task.sequence <= s.sequence)
    && (s.waiting != Idle && s.waiting.task.sequence == s.sequence ==> s.waiting.task.request == s.last)
    && (s.waiting != Idle && s.queue != [] ==> s.waiting.task.sequence < s.queue[0].sequence)
    && (s.waiting != Idle && s.queue == [] ==> s.waiting.task.sequence == s.sequence)
    && (s.sequence == 0 ==> s.queue == [] && s.waiting == Idle)
  }

  /** The newest request has nothing left to do. */
  predicate Quiet(s: State) {
    s.queue == [] && s.waiting == Idle
  }

  /** Where the newest request can have led. */
  predicate Outcome(s: State) {
    match s.last
    case Stop => s.phase == Stopped
    case Fail => s.phase == Failed
    case Dispose => s.phase == Disposed || s.phase == Failed
    case Reset => s.phase == Running || s.phase == Failed || (s.phase == Stopped && s.current.None?)
    case _ => s.phase == Running || s.phase == Failed
  }

  /** Each wait is one that its request can lead to. */
  predicate Fitting(s: State) {
    match s.waiting
    case Idle => true
    case Creating(t) => t.request == Boot || t.request == Restart || t.request == Reset
    case Resetting(t) => t.request == Reset
    case Disposing(t) => t.request == Dispose
    case Rejected(t) => t.request != Stop && t.request != Fail
  }

  predicate Phases(s: State) {
    && (s.phase == Running ==>
          s.current.Some? && s.owner == s.sequence && s.queue == [] && (s.waiting == Idle || s.waiting.Rejected?))
    && (s.phase == Disposed ==> s.closing && s.queue == [] && (s.waiting == Idle || s.waiting.Rejected?))
    && (s.closing <==> s.last == Dispose)
    && (s.waiting != Idle && s.waiting.task.request == Dispose ==> s.closing && s.waiting.task.sequence == s.sequence)
    && ((s.waiting.Creating? || s.waiting.Resetting? || s.waiting.Disposing?) && s.waiting.task.sequence == s.sequence ==> s.current.None?)
    && (s.last == Fail ==> s.phase == Failed)
    && (Quiet(s) ==> Outcome(s))
    && (Quiet(s) && s.phase != Running ==> s.current.None?)
  }

  predicate Inv(s: State) {
    OneMachine(s) && InOrder(s) && Fitting(s) && Phases(s)
  }

  lemma AskKeepsOrder(s: State, r: Request)
    requires InOrder(s)
    ensures InOrder(Ask(s, r))
  {
    hide Ascending;
    AppendInOrder(s.queue, Task(r, s.sequence + 1));
  }

  lemma AppendInOrder(queue: seq<Task>, t: Task)
    requires Ascending(queue) && forall i :: 0 <= i < |queue| ==> queue[i].sequence < t.sequence
    ensures Ascending(queue + [t])
  {
  }

  lemma AskKeeps(s: State, r: Request)
    requires Inv(s)
    ensures Inv(Ask(s, r))
  {
    AskKeepsOrder(s, r);
    assert s.waiting != Idle ==> s.waiting.task.sequence <= s.sequence;
    hide InOrder;
  }

  lemma BeginKeepsOrder(s: State)
    requires Inv(s)
    ensures InOrder(Begin(s)) && Fitting(Begin(s))
  {
    hide OneMachine, Phases, Release;
    if s.waiting == Idle && s.queue != [] {
      assert forall i :: 0 <= i < |s.queue[1..]| ==> s.queue[1..][i] == s.queue[i + 1];
      ReleaseKeepsOrder(s.(queue := s.queue[1..]));
    }
  }

  lemma ReleaseKeepsOrder(s: State)
    ensures Release(s) == s.(current := Release(s).current, live := Release(s).live, phase := Release(s).phase)
  {
  }

  lemma BeginKeeps(s: State)
    requires Inv(s)
    ensures Inv(Begin(s))
  {
    BeginKeepsOrder(s);
    assert s.queue != [] ==> s.queue[0].sequence <= s.sequence && s.queue[|s.queue| - 1] == Task(s.last, s.sequence);
    assert |s.queue| > 1 ==> s.queue[0].sequence < s.queue[|s.queue| - 1].sequence;
    hide InOrder, Fitting;
  }

  lemma CreatedKeeps(s: State, startedThrows: bool)
    requires Inv(s) && s.waiting.Creating?
    ensures Inv(Created(s, s.waiting.task, startedThrows))
  {
    assert s.made !in s.live;
    assert s.live + {s.made} - {s.made} == s.live;
  }

  lemma SettleKeeps(s: State, ok: bool, startedThrows: bool)
    requires Inv(s)
    ensures Inv(Settle(s, ok, startedThrows))
  {
    hide Created, Inv, Release;
    match s.waiting
    case Idle =>
    case Creating(t) =>
      CreatedKeeps(s, startedThrows);
      RejectionKeeps(s);
    case Resetting(t) =>
      RejectionKeeps(s);
      ResetKeeps(s);
    case Disposing(t) => DisposingKeeps(s, ok);
    case Rejected(t) => HandlerKeeps(s);
  }

  lemma DisposingKeeps(s: State, ok: bool)
    requires Inv(s) && s.waiting.Disposing?
    ensures Inv(s.(phase := Disposed, waiting := if ok then Idle else Rejected(s.waiting.task)))
  {
  }

  lemma HandlerKeeps(s: State)
    requires Inv(s) && s.waiting.Rejected?
    ensures Inv(Settle(s, true, false))
  {
  }

  lemma RejectionKeeps(s: State)
    requires Inv(s) && (s.waiting.Creating? || s.waiting.Resetting?)
    ensures Inv(s.(waiting := Rejected(s.waiting.task)))
  {
  }

  lemma ResetKeeps(s: State)
    requires Inv(s) && s.waiting.Resetting?
    ensures Inv(Settle(s, true, false))
  {
  }

  lemma {:induction false} RunKeeps(s: State, events: seq<Event>)
    requires Inv(s)
    ensures Inv(Run(s, events))
    decreases |events|
  {
    hide Inv, Next;
    if events != [] {
      StepKeeps(s, events[0]);
      RunKeeps(Next(s, events[0]), events[1..]);
    }
  }

  /**
   Last request wins. In every interleaving at most one machine is live and it is
   the current one; "running" means there is a current machine, made for the newest
   request; and once nothing is queued or awaited, the phase is where the newest
   request leads and a machine is live only if it is running.
   */
  lemma LastRequestWins(events: seq<Event>)
    ensures var s := Run(START, events);
            && |s.live| <= 1 && s.live == (if s.current.Some? then {s.current.value} else {})
            && (s.phase == Running ==> s.current.Some? && s.owner == s.sequence)
            && (Quiet(s) ==> Outcome(s) && (s.current.Some? <==> s.phase == Running))
  {
    hide Run, Outcome;
    assert Inv(START) by { StartInv(); }
    RunKeeps(START, events);
  }

  lemma {:induction false} RunConcat(s: State, before: seq<Event>, events: seq<Event>)
    ensures Run(s, before + events) == Run(Run(s, before), events)
    decreases |before|
  {
    hide Next;
    if before == [] {
      assert before + events == events;
    } else {
      assert (before + events)[0] == before[0] && (before + events)[1..] == before[1..] + events;
      RunConcat(Next(s, before[0]), before[1..], events);
    }
  }

  lemma StartInv()
    ensures Inv(START)
  {
  }

  // ---- Being disposed ----

  /** Nothing leaves "disposed" except a rejected disposal on its way to the handler. */
  lemma DisposedIsFinal(s: State, e: Event)
    requires Inv(s) && s.phase == Disposed
    ensures Next(s, e).phase == Disposed <==> !(s.waiting.Rejected? && e.Settled?)
  {
  }

  lemma {:induction false} DisposedForever(s: State, events: seq<Event>)
    requires Inv(s) && s.phase == Disposed && s.waiting == Idle
    ensures Run(s, events).phase == Disposed && Run(s, events).live == {}
    decreases |events|
  {
    hide Ask, Begin, Settle, InOrder;
    if events != [] {
      StillIdle(s, events[0]);
      StepKeeps(s, events[0]);
      DisposedForever(Next(s, events[0]), events[1..]);
    }
  }

  lemma StillIdle(s: State, e: Event)
    requires Inv(s) && s.phase == Disposed && s.waiting == Idle
    ensures Next(s, e).phase == Disposed && Next(s, e).waiting == Idle
  {
  }

  lemma StepKeeps(s: State, e: Event)
    requires Inv(s)
    ensures Inv(Next(s, e))
  {
    hide Inv, Ask, Begin, Settle;
    match e
    case Asked(r) => AskKeeps(s, r);
    case Begun => BeginKeeps(s);
    case Settled(ok, startedThrows) => SettleKeeps(s, ok, startedThrows);
  }

  /** A disk that cannot be disposed of takes the session from "disposed" to "failed". */
  lemma RejectedDisposalFails()
    ensures var s := Run(START, [Asked(Dispose), Begun, Settled(false, false)]);
            s.phase == Disposed && Next(s, Settled(true, false)).phase == Failed
  {
    var s := Ask(START, Dispose);
    assert s.queue == [Task(Dispose, 1)];
    assert s.queue[1..] == [];
  }
}
