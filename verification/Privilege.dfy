/**
 The privilege stack: what every trap, return and CSR write keeps, and what a
 return undoes (sections 3.1.6.1, 3.1.6.3, 3.1.8 and 3.1.9 of the RISC-V
 Privileged Architecture, 20211203).
 */
module Privilege {
  import opened Trap
  import opened Isa
  import opened CsrFiles
  import opened Cores

  /**
   MPP never holds the reserved encoding, UXL = SXL = 2, MPRV is clear below
   M-mode, and only supervisor interrupts are delegated.
   */
  predicate WellPrivileged(c: Core) {
    var s := c.csr.mstatus;
    && s.mpp in {0, 1, 3} && s.uxl == s.sxl == 2
    && (c.mode != Machine ==> !s.mprv)
    && c.csr.mideleg <= MIDELEG_MASK
  }

  // ------------------------------------------------------------------
  // Traps and returns
  // ------------------------------------------------------------------

  lemma TrapKeepsPrivilege(c: Core, cause: nat, tval: nat, toS: bool, isInterrupt: bool)
    requires WellPrivileged(c) && cause < 64 && (toS ==> c.mode != Machine)
    ensures var t := EnterTrap(c, cause, tval, toS, isInterrupt);
            WellPrivileged(t) && Rank(t.mode) >= Rank(c.mode)
  {
  }

  /** A trap into M-mode and the MRET that follows restore pc, mode and every status bit but MPIE and MPP. */
  lemma TrapThenMret(c: Core, cause: nat, tval: nat, isInterrupt: bool)
    requires WellPrivileged(c) && cause < 64
    ensures var t := EnterTrap(c, cause, tval, false, isInterrupt);
            && MretAllowed(t)
            && var (r, pc) := ReturnFromM(t);
               && pc == c.pc && r.mode == c.mode && WellPrivileged(r)
               && r.csr.mstatus == c.csr.mstatus.(mpie := true, mpp := 0)
               && r.regs == c.regs && r.csr.satp == c.csr.satp
  {
    hide TvecTarget;
  }

  /** Likewise for a trap into S-mode and SRET, permitted exactly when TSR is clear. */
  lemma TrapThenSret(c: Core, cause: nat, tval: nat, isInterrupt: bool)
    requires WellPrivileged(c) && cause < 64 && c.mode != Machine
    ensures var t := EnterTrap(c, cause, tval, true, isInterrupt);
            && (SretAllowed(t) <==> !c.csr.mstatus.tsr)
            && var (r, pc) := ReturnFromS(t);
               && pc == c.pc && r.mode == c.mode && WellPrivileged(r)
               && r.csr.mstatus == c.csr.mstatus.(spie := true, spp := false)
               && r.regs == c.regs && r.csr.satp == c.csr.satp
  {
    hide TvecTarget;
  }

  /** Every instruction keeps the invariant, and only MRET and SRET lower privilege. */
  lemma ExecuteKeepsPrivilege(u: Units, c: Core, raw: nat, op: Op, fallThrough: u64, mtime: u64)
    requires WellPrivileged(c) && !TouchesMemory(op)
    ensures var x := Execute(u, c, raw, op, fallThrough, mtime);
            x.Executed? ==>
              && WellPrivileged(x.core)
              && (!op.Mret? && !op.Sret? ==> x.core.mode == c.mode)
              && Rank(x.core.mode) <= Rank(c.mode)
  {
    if op.Csr? {
      CsrKeepsPrivilege(c, raw, op, fallThrough, mtime);
    }
  }

  lemma CsrKeepsPrivilege(c: Core, raw: nat, op: Op, nextPc: u64, mtime: u64)
    requires WellPrivileged(c) && op.Csr?
    ensures var x := ExecuteCsr(c, raw, op, nextPc, mtime);
            x.Executed? ==> WellPrivileged(x.core) && x.core.mode == c.mode
  {
    hide Word, Bits, CsrFile.Write, CsrFile.Accessible, ReadCsr, WellPrivileged;
    forall val: u64 | c.csr.Accessible(op.csr, c.mode, true)
      ensures WellPrivileged(c.(csr := c.csr.Write(op.csr, val)))
    {
      WriteKeepsPrivilege(c, op.csr, val);
    }
    forall d: Core, r: nat, v: nat | WellPrivileged(d)
      ensures WellPrivileged(d.SetReg(r, v))
    {
      SetRegKeepsPrivilege(d, r, v);
    }
  }

  lemma SetRegKeepsPrivilege(c: Core, r: nat, v: nat)
    requires WellPrivileged(c)
    ensures WellPrivileged(c.SetReg(r, v))
  {
  }

  lemma MstatusIsMachineOnly(f: CsrFile, mode: Mode)
    ensures f.Accessible(MSTATUS, mode, true) ==> mode == Machine
  {
    assert MSTATUS / 0x100 % 4 == 3;
  }

  /** MPRV and MPP are out of reach below M-mode, because mstatus is an M-mode register. */
  lemma WriteKeepsPrivilege(c: Core, addr: nat, val: u64)
    requires WellPrivileged(c) && c.csr.Accessible(addr, c.mode, true)
    ensures WellPrivileged(c.(csr := c.csr.Write(addr, val)))
  {
    hide DecodeStatus, CsrFile.Write, CsrFile.Accessible;
    MstatusIsMachineOnly(c.csr, c.mode);
  }

  // ------------------------------------------------------------------
  // Which interrupt, and where it goes
  // ------------------------------------------------------------------

  predicate Delegated(c: Core, i: Interrupt) {
    i.Code() in c.csr.mideleg
  }

  /** Pending, enabled, and not masked at the level it is delegated to. */
  predicate Takeable(c: Core, i: Interrupt) {
    && i.Code() in c.csr.MipValue() * c.csr.mie
    && if Delegated(c, i) then c.mode == User || (c.mode == Supervisor && c.csr.mstatus.sie)
       else c.mode != Machine || c.csr.mstatus.mie
  }

  /** `j` comes before `i` in a priority order. */
  predicate Outranks(order: seq<Interrupt>, j: Interrupt, i: Interrupt) {
    exists m, n :: 0 <= m < n < |order| && order[m] == j && order[n] == i
  }

  lemma {:induction false} FirstOfIsFirst(bits: set<nat>, order: seq<Interrupt>)
    requires forall m, n :: 0 <= m < n < |order| ==> order[m] != order[n]
    ensures var f := FirstOf(bits, order);
            && (f == None ==> forall i :: i in order ==> i.Code() !in bits)
            && (f.Some? ==> f.value in order && f.value.Code() in bits
                            && forall j :: Outranks(order, j, f.value) ==> j.Code() !in bits)
  {
    hide Interrupt.Code;
    if order != [] {
      var rest := order[1..];
      assert forall i :: i in order <==> i == order[0] || i in rest;
      if order[0].Code() in bits {
        assert FirstOf(bits, order) == Some(order[0]);
      } else {
        FirstOfIsFirst(bits, rest);
        assert FirstOf(bits, order) == FirstOf(bits, rest);
        forall i, j | i in rest && Outranks(order, j, i)
          ensures j == order[0] || Outranks(rest, j, i)
        {
          var m, n :| 0 <= m < n < |order| && order[m] == j && order[n] == i;
          assert m > 0 ==> rest[m - 1] == j && rest[n - 1] == i;
        }
      }
    }
  }

  lemma OrdersListAll(i: Interrupt)
    ensures i in M_ORDER
    ensures i in S_ORDER || i == MachineExternal || i == MachineSoftware || i == MachineTimer
  {
    assert M_ORDER[0] == MachineExternal && M_ORDER[1] == MachineSoftware && M_ORDER[2] == MachineTimer;
    assert M_ORDER[3] == S_ORDER[0] == SupervisorExternal;
    assert M_ORDER[4] == S_ORDER[1] == SupervisorSoftware;
    assert M_ORDER[5] == S_ORDER[2] == SupervisorTimer;
  }

  lemma OrdersAreDistinct()
    ensures forall m, n :: 0 <= m < n < |M_ORDER| ==> M_ORDER[m] != M_ORDER[n]
    ensures forall m, n :: 0 <= m < n < |S_ORDER| ==> S_ORDER[m] != S_ORDER[n]
  {
  }

  /**
   An interrupt is chosen exactly when one can be taken. The chosen one can,
   outranks every other of its level, and is a delegated one only when nothing
   is takeable at M-level.
   */
  lemma ChosenInterrupt(c: Core)
    requires WellPrivileged(c)
    ensures match PendingInterrupt(c)
            case None => forall i :: !Takeable(c, i)
            case Some(i) =>
              && Takeable(c, i)
              && (Delegated(c, i) ==> forall j :: Takeable(c, j) ==> Delegated(c, j) && !Outranks(S_ORDER, j, i))
              && (!Delegated(c, i) ==> forall j :: Takeable(c, j) && !Delegated(c, j) ==> !Outranks(M_ORDER, j, i))
  {
    hide FirstOf, CsrFile.MipValue, Outranks;
    var pending := c.csr.MipValue() * c.csr.mie;
    OrdersAreDistinct();
    FirstOfIsFirst(pending - c.csr.mideleg, M_ORDER);
    FirstOfIsFirst(pending * c.csr.mideleg, S_ORDER);
    forall i: Interrupt
      ensures i in M_ORDER && (Delegated(c, i) ==> i in S_ORDER)
    {
      OrdersListAll(i);
    }
  }

  /** The chosen interrupt is delivered to the level it was classified for, never below the current one. */
  lemma InterruptGoesWhereClassified(c: Core)
    requires WellPrivileged(c) && PendingInterrupt(c).Some?
    ensures var i := PendingInterrupt(c).value;
            var t := TakeInterrupt(c, i);
            && t.mode == (if Delegated(c, i) then Supervisor else Machine)
            && Rank(t.mode) >= Rank(c.mode) && WellPrivileged(t)
  {
    hide PendingInterrupt, EnterTrap, CsrFile.MipValue;
    ChosenInterrupt(c);
    var i := PendingInterrupt(c).value;
    TrapLevel(c.(wfi := false), i.Code(), 0, InterruptToS(c, i), true);
    TrapKeepsPrivilege(c.(wfi := false), i.Code(), 0, InterruptToS(c, i), true);
  }

  lemma TrapLevel(c: Core, cause: nat, tval: nat, toS: bool, isInterrupt: bool)
    requires cause < 64
    ensures EnterTrap(c, cause, tval, toS, isInterrupt).mode == if toS then Supervisor else Machine
  {
  }
}
