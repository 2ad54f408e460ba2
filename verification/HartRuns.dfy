/** What holds of the reference hart over whole runs. */
module HartRuns {
  import opened Trap
  import opened Isa
  import opened Sv39
  import opened CsrFiles
  import opened Cores
  import opened Privilege
  import opened Harts

  // ------------------------------------------------------------------
  // Privilege over whole runs
  // ------------------------------------------------------------------

  /** Registers, counters and the pc play no part in the privilege invariant. */
  lemma BookkeepingKeepsPrivilege(c: Core, op: Op, nextPc: u64)
    requires WellPrivileged(c)
    ensures WellPrivileged(Retire(c, op, nextPc)) && Retire(c, op, nextPc).mode == c.mode
    ensures WellPrivileged(Tick(c)) && Tick(c).mode == c.mode
  {
  }

  lemma InstructionKeepsPrivilege(p: Platform, h: Hart, raw: nat, op: Op)
    requires WellPrivileged(h.core)
    ensures var o := ExecuteInstruction(p, h, raw, op);
            && WellPrivileged(o.h.core)
            && Rank(o.h.core.mode) <= Rank(h.core.mode)
            && (o.r.Err? || (!op.Mret? && !op.Sret?) ==> o.h.core.mode == h.core.mode)
  {
    hide ExecuteMemory, ExecuteRegister, WellPrivileged, Retire, Rank;
    var fallThrough := (h.core.pc + Length(raw)) % TWO_64;
    if TouchesMemory(op) {
      var o := ExecuteMemory(p, h, op);
      SameStatus(h.core, o.h.core);
      BookkeepingKeepsPrivilege(o.h.core, op, fallThrough);
    } else {
      RegisterKeepsPrivilege(p, h, raw, op, fallThrough);
    }
  }

  lemma RegisterKeepsPrivilege(p: Platform, h: Hart, raw: nat, op: Op, fallThrough: u64)
    requires WellPrivileged(h.core) && !TouchesMemory(op)
    ensures var o := ExecuteRegister(p, h, raw, op, fallThrough);
            && WellPrivileged(o.h.core)
            && Rank(o.h.core.mode) <= Rank(h.core.mode)
            && (o.r.Err? || (!op.Mret? && !op.Sret?) ==> o.h.core.mode == h.core.mode)
  {
    hide Execute, WellPrivileged, Retire, Rank, Fenced;
    var x := Execute(p.units, h.core, raw, op, fallThrough, p.mtime(h.dev));
    ExecuteKeepsPrivilege(p.units, h.core, raw, op, fallThrough, p.mtime(h.dev));
    if x.Executed? {
      BookkeepingKeepsPrivilege(x.core, op, x.nextPc);
      FencedCore(WithCore(h, Retire(x.core, op, x.nextPc)), x.fence);
    }
  }

  lemma FencedCore(h: Hart, fence: Fence)
    ensures Fenced(h, fence).core == h.core
  {
  }

  lemma SameStatus(c: Core, d: Core)
    requires WellPrivileged(c) && d.mode == c.mode && d.csr == c.csr
    ensures WellPrivileged(d)
  {
  }

  /**
   A step keeps the privilege invariant, and lowers privilege only by executing
   MRET or SRET.
   */
  lemma StepKeepsPrivilege(p: Platform, h: Hart)
    requires WellPrivileged(h.core)
    ensures WellPrivileged(Step(p, h).core)
    ensures Rank(Step(p, h).core.mode) < Rank(h.core.mode) ==>
              var f := FetchInstruction(p, WithCore(h, h.core.(wfi := false)));
              f.r.Ok? && (f.r.value.1.Mret? || f.r.value.1.Sret?)
  {
    hide ExecuteInstruction, FetchInstruction, WellPrivileged, Tick, EnterTrap, Waiting, ExceptionToS;
    var g := WithCore(h, h.core.(wfi := false));
    SameStatus(h.core, g.core);
    var f := FetchInstruction(p, g);
    if f.r.Ok? {
      InstructionKeepsPrivilege(p, f.h, f.r.value.0, f.r.value.1);
    }
    var o := StepInner(p, g);
    if o.r.Err? {
      ExceptionKeepsPrivilege(o.h.core, o.r.error);
      BookkeepingKeepsPrivilege(TakeException(o.h.core, o.r.error), Op.Fence, 0);
    } else {
      BookkeepingKeepsPrivilege(o.h.core, Op.Fence, 0);
    }
  }

  lemma ExceptionKeepsPrivilege(c: Core, e: Exception)
    requires WellPrivileged(c)
    ensures WellPrivileged(TakeException(c, e)) && Rank(TakeException(c, e).mode) >= Rank(c.mode)
  {
    hide EnterTrap, WellPrivileged;
    SameStatus(c, c.(reservation := None));
    TrapKeepsPrivilege(c.(reservation := None), e.Cause(), e.Tval(), ExceptionToS(c, e), false);
  }

  lemma InterruptKeepsPrivilege(h: Hart)
    requires WellPrivileged(h.core)
    ensures WellPrivileged(Interrupted(h).core) && Rank(Interrupted(h).core.mode) >= Rank(h.core.mode)
  {
    hide PendingInterrupt, TakeInterrupt, WellPrivileged, Rank;
    if PendingInterrupt(h.core).Some? {
      InterruptGoesWhereClassified(h.core);
    }
  }

  /** From any well-privileged state, reset included, every run stays well privileged. */
  lemma {:induction false} RunKeepsPrivilege(p: Platform, h: Hart, events: seq<Event>)
    requires WellPrivileged(h.core)
    ensures WellPrivileged(Run(p, h, events).core)
    decreases |events|
  {
    hide Step, Interrupted, WellPrivileged;
    if events != [] {
      var r := Receive(h, events[0]);
      ReceiveKeepsPrivilege(h, events[0]);
      InterruptKeepsPrivilege(r);
      StepKeepsPrivilege(p, Interrupted(r));
      RunKeepsPrivilege(p, Turn(p, h, events[0]), events[1..]);
    }
  }

  lemma ReceiveKeepsPrivilege(h: Hart, e: Event)
    requires WellPrivileged(h.core)
    ensures WellPrivileged(Receive(h, e).core)
  {
    hide WriteRam;
  }

  lemma ResetIsWellPrivileged(regs: seq<u64>, pc: u64)
    ensures WellPrivileged(Core(regs, pc, Machine, Reset(), None, false))
  {
  }
}
