/**
 The hart's architectural registers: trap entry and return, interrupt choice,
 and the instructions that touch no memory.
 */
module Cores {
  import opened Trap
  import opened Isa
  import opened Sv39
  import opened CsrFiles

  /** Architectural state apart from memory. */
  datatype Core = Core(regs: seq<u64>, pc: u64, mode: Mode, csr: CsrFile, reservation: Option<nat>, wfi: bool) {
    function Reg(r: nat): u64 {
      if r < |regs| then regs[r] else 0
    }

    function SetReg(r: nat, v: nat): (c: Core)
      ensures c == this.(regs := c.regs)
    {
      if 0 < r < |regs| then this.(regs := regs[r := v % TWO_64]) else this
    }

    /** Effective privilege of loads and stores. */
    function DataMode(): Mode {
      if csr.mstatus.mprv then ModeOf(csr.mstatus.mpp) else mode
    }

    function ViewFor(m: Mode): View {
      View(csr.satp, m, csr.mstatus.mxr, csr.mstatus.sum, csr.menvcfg.adue)
    }
  }

  /** Only the encodings 1 and 3 select elevated privilege. */
  function ModeOf(mpp: nat): Mode {
    if mpp == 1 then Supervisor else if mpp == 3 then Machine else User
  }

  // ------------------------------------------------------------------
  // Traps and returns
  // ------------------------------------------------------------------

  function TvecTarget(tvec: u64, cause: nat, isInterrupt: bool): u64 {
    var base := tvec / 4 * 4;
    if tvec % 4 == 1 && isInterrupt then (base + 4 * cause) % TWO_64 else base
  }

  /** `cause` is the code without the interrupt bit. */
  function EnterTrap(c: Core, cause: nat, tval: nat, toS: bool, isInterrupt: bool): Core
    requires cause < 64
  {
    var status := c.csr.mstatus;
    var code: u64 := if isInterrupt then 0x8000_0000_0000_0000 + cause else cause;
    if toS then
      var s := status.(spie := status.sie, sie := false, spp := c.mode == Supervisor);
      var csr := c.csr.(sepc := c.pc, scause := code, stval := tval % TWO_64, mstatus := WriteStatus(status, s));
      c.(csr := csr, mode := Supervisor, pc := TvecTarget(csr.stvec, cause, isInterrupt))
    else
      var s := status.(mpie := status.mie, mie := false, mpp := Rank(c.mode));
      var csr := c.csr.(mepc := c.pc, mcause := code, mtval := tval % TWO_64, mstatus := WriteStatus(status, s));
      c.(csr := csr, mode := Machine, pc := TvecTarget(csr.mtvec, cause, isInterrupt))
  }

  function ExceptionToS(c: Core, e: Exception): bool {
    c.mode != Machine && e.Cause() in c.csr.medeleg
  }

  function TakeException(c: Core, e: Exception): Core {
    EnterTrap(c.(reservation := None), e.Cause(), e.Tval(), ExceptionToS(c, e), false)
  }

  datatype Interrupt = SupervisorSoftware | MachineSoftware | SupervisorTimer | MachineTimer
                     | SupervisorExternal | MachineExternal
  {
    function Code(): nat {
      match this
      case SupervisorSoftware => 1
      case MachineSoftware => 3
      case SupervisorTimer => 5
      case MachineTimer => 7
      case SupervisorExternal => 9
      case MachineExternal => 11
    }
  }

  const M_ORDER: seq<Interrupt> :=
    [MachineExternal, MachineSoftware, MachineTimer, SupervisorExternal, SupervisorSoftware, SupervisorTimer]
  const S_ORDER: seq<Interrupt> := [SupervisorExternal, SupervisorSoftware, SupervisorTimer]

  function FirstOf(bits: set<nat>, order: seq<Interrupt>): Option<Interrupt> {
    if order == [] then None
    else if order[0].Code() in bits then Some(order[0])
    else FirstOf(bits, order[1..])
  }

  function PendingInterrupt(c: Core): Option<Interrupt> {
    var pending := c.csr.MipValue() * c.csr.mie;
    var m := if c.mode != Machine || c.csr.mstatus.mie then FirstOf(pending - c.csr.mideleg, M_ORDER) else None;
    if m.Some? then m
    else if c.mode == User || (c.mode == Supervisor && c.csr.mstatus.sie)
    then FirstOf(pending * c.csr.mideleg, S_ORDER)
    else None
  }

  function InterruptToS(c: Core, i: Interrupt): bool {
    c.mode != Machine && i.Code() in c.csr.mideleg
  }

  function TakeInterrupt(c: Core, i: Interrupt): Core {
    EnterTrap(c.(wfi := false), i.Code(), 0, InterruptToS(c, i), true)
  }

  predicate MretAllowed(c: Core) {
    c.mode == Machine
  }

  predicate SretAllowed(c: Core) {
    c.mode == Machine || (c.mode == Supervisor && !c.csr.mstatus.tsr)
  }

  /** The core after MRET, except that the pc is still to become the second component. */
  function ReturnFromM(c: Core): (Core, u64) {
    var status := c.csr.mstatus;
    var to := ModeOf(status.mpp);
    var s := status.(mie := status.mpie, mpie := true, mpp := 0, mprv := status.mprv && to == Machine);
    (c.(csr := c.csr.(mstatus := WriteStatus(status, s)), mode := to), c.csr.mepc)
  }

  function ReturnFromS(c: Core): (Core, u64) {
    var status := c.csr.mstatus;
    var to := if status.spp then Supervisor else User;
    var s := status.(sie := status.spie, spie := true, spp := false, mprv := false);
    (c.(csr := c.csr.(mstatus := WriteStatus(status, s)), mode := to), c.csr.sepc)
  }

  // ------------------------------------------------------------------
  // Instructions that touch no memory
  // ------------------------------------------------------------------

  /** What the rest of the machine must do after an instruction. */
  datatype Fence = NoFence | FlushTranslations | FlushBlocks

  datatype Executed = Executed(core: Core, nextPc: u64, fence: Fence) | Raised(e: Exception)

  /** The register functions: results of ALU operations, branch conditions and AMOs. */
  datatype Units = Units(alu: (nat, u64, u64, u64) -> u64, taken: (nat, u64, u64) -> bool, amo: (nat, u64, u64) -> u64)

  predicate TouchesMemory(op: Op) {
    op.Load? || op.Store? || op.Lr? || op.Sc? || op.Amo?
  }

  function ReadCsr(c: Core, addr: nat, mtime: u64): u64 {
    if addr == TIME then mtime else c.csr.LoadRaw(addr)
  }

  function CsrFence(before: CsrFile, after: CsrFile, addr: nat): Fence {
    if addr == SATP && before.satp != after.satp then FlushTranslations else NoFence
  }

  function ExecuteCsr(c: Core, raw: nat, op: Op, nextPc: u64, mtime: u64): Executed
    requires op.Csr?
  {
    hide Word, Bits, CsrFile.Write, CsrFile.Accessible, ReadCsr;
    var illegal := Raised(IllegalInstruction(raw));
    var src: u64 := if op.immediate then op.rs1 else c.Reg(op.rs1);
    var old_ := ReadCsr(c, op.csr, mtime);
    if op.kind == Rw then
      if op.rd != 0 && !c.csr.Accessible(op.csr, c.mode, false) then illegal
      else if !c.csr.Accessible(op.csr, c.mode, true) then illegal
      else
        var csr := c.csr.Write(op.csr, src);
        Executed(c.(csr := csr).SetReg(op.rd, old_), nextPc, CsrFence(c.csr, csr, op.csr))
    else if !c.csr.Accessible(op.csr, c.mode, false) then illegal
    else if op.rs1 == 0 then Executed(c.SetReg(op.rd, old_), nextPc, NoFence)
    else if !c.csr.Accessible(op.csr, c.mode, true) then illegal
    else
      var new_ := if op.kind == Rs then Word(Bits(old_) + Bits(src)) else Word(Bits(old_) - Bits(src));
      var csr := c.csr.Write(op.csr, new_);
      Executed(c.(csr := csr).SetReg(op.rd, old_), nextPc, CsrFence(c.csr, csr, op.csr))
  }

  /** `fallThrough` is the pc after the instruction. */
  function Execute(u: Units, c: Core, raw: nat, op: Op, fallThrough: u64, mtime: u64): Executed
    requires !TouchesMemory(op)
  {
    match op
    case Alu(f, rd, rs1, rs2) =>
      Executed(c.SetReg(rd, u.alu(f, c.Reg(rs1), c.Reg(rs2), c.pc)), fallThrough, NoFence)
    case Jal(rd, imm) => Executed(c.SetReg(rd, fallThrough), (c.pc + imm) % TWO_64, NoFence)
    case Jalr(rd, rs1, imm) =>
      Executed(c.SetReg(rd, fallThrough), (c.Reg(rs1) + imm) % TWO_64 / 2 * 2, NoFence)
    case Branch(f, rs1, rs2, imm) =>
      Executed(c, if u.taken(f, c.Reg(rs1), c.Reg(rs2)) then (c.pc + imm) % TWO_64 else fallThrough, NoFence)
    case Csr(_, _, _, _, _) => ExecuteCsr(c, raw, op, fallThrough, mtime)
    case Fence => Executed(c, fallThrough, NoFence)
    case FenceI => Executed(c, fallThrough, FlushBlocks)
    case Ecall =>
      Raised(match c.mode
             case User => EnvironmentCallFromU
             case Supervisor => EnvironmentCallFromS
             case Machine => EnvironmentCallFromM)
    case Ebreak => Raised(Breakpoint(c.pc))
    case Mret =>
      if MretAllowed(c) then Executed(ReturnFromM(c).0, ReturnFromM(c).1, NoFence) else Raised(IllegalInstruction(raw))
    case Sret =>
      if SretAllowed(c) then Executed(ReturnFromS(c).0, ReturnFromS(c).1, NoFence) else Raised(IllegalInstruction(raw))
    case Wfi =>
      if c.mode == User || (c.mode == Supervisor && c.csr.mstatus.tw) then Raised(IllegalInstruction(raw))
      else Executed(c.(wfi := true), fallThrough, NoFence)
    case SfenceVma =>
      if c.mode == User || (c.mode == Supervisor && c.csr.mstatus.tvm) then Raised(IllegalInstruction(raw))
      else Executed(c, fallThrough, FlushTranslations)
  }

  predicate WritesMinstret(op: Op) {
    op.Csr? && op.csr == MINSTRET && (op.kind == Rw || op.rs1 != 0)
  }

  /** Move to the next instruction and count this one. */
  function Retire(c: Core, op: Op, nextPc: u64): Core {
    var counted := !WritesMinstret(op) && c.csr.Get(MCOUNTINHIBIT) / 4 % 2 == 0;
    c.(pc := nextPc, csr := if counted then c.csr.(instret := (c.csr.instret + 1) % TWO_64) else c.csr)
  }

  /** One cycle passed. */
  function Tick(c: Core): Core {
    var regs := if |c.regs| > 0 then c.regs[0 := 0] else c.regs;
    c.(regs := regs,
       csr := if c.csr.Get(MCOUNTINHIBIT) % 2 == 0 then c.csr.(cycle := (c.csr.cycle + 1) % TWO_64) else c.csr)
  }

  // ------------------------------------------------------------------
  // What the block cache relies on
  // ------------------------------------------------------------------

  /**
   An instruction that lets a block continue changes neither the privilege mode
   nor satp and flushes nothing; and satp never changes without a flush.
   */
  lemma StraightLineKeepsMapping(u: Units, c: Core, raw: nat, op: Op, fallThrough: u64, mtime: u64)
    requires !TouchesMemory(op)
    ensures var x := Execute(u, c, raw, op, fallThrough, mtime);
            x.Executed? ==>
              && (x.core.csr.satp != c.csr.satp ==> x.fence == FlushTranslations)
              && (x.fence == FlushBlocks ==> op.FenceI?)
              && (!EndsBlock(op) ==>
                    x.core.mode == c.mode && x.core.csr.satp == c.csr.satp && x.fence == NoFence)
  {
    if op.Csr? {
      CsrKeepsMapping(c, raw, op, fallThrough, mtime);
    }
  }

  lemma CsrKeepsMapping(c: Core, raw: nat, op: Op, nextPc: u64, mtime: u64)
    requires op.Csr?
    ensures var x := ExecuteCsr(c, raw, op, nextPc, mtime);
            x.Executed? ==>
              && x.core.mode == c.mode
              && (x.core.csr.satp != c.csr.satp ==> x.fence == FlushTranslations && op.csr == SATP)
              && (op.csr != SATP ==> x.fence == NoFence)
  {
    hide Word, Bits, CsrFile.Write, CsrFile.Accessible, ReadCsr;
  }
}
