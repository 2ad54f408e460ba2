/** Whatever a hart has run, its registers fit the snapshot. */
module SnapshotRuns {
  import opened Trap
  import opened Isa
  import opened Sv39
  import opened CsrFiles
  import opened Cores
  import opened Harts
  import opened SnapshotCore
  import SM = SnapshotMachine

  predicate FileFits(f: CsrFile) {
    && FieldsFit(f.mstatus) && OwnSlots(f.table)
    && Below64(f.medeleg) && Below64(f.mideleg) && Below64(f.mie) && Below64(f.mip) && Below64(f.deviceMip)
  }

  lemma FitsIsStorable(c: Core)
    ensures Storable(c) <==> |c.regs| == 32 && (c.reservation.Some? ==> c.reservation.value < TWO_64) && FileFits(c.csr)
  {
  }

  // ---- CSR writes ----

  lemma BitsBelow(v: u64)
    ensures Below64(Bits(v))
  {
  }

  lemma WriteBitsFits(f: CsrFile, addr: nat, val: set<nat>)
    requires FileFits(f) && Below64(val)
    ensures FileFits(f.WriteBits(addr, val))
  {
  }

  lemma PutFits(f: CsrFile, addr: nat, val: u64)
    requires FileFits(f) && addr < SM.CSR_SLOTS
    requires addr !in {MSTATUS, MEDELEG, MIDELEG, MIE, MIP, MENVCFG, SATP}
    ensures FileFits(f.Put(addr, val))
  {
    hide Below64;
  }

  lemma DecodedFits(v: u64)
    ensures FieldsFit(DecodeStatus(v))
  {
  }

  lemma WriteFits(f: CsrFile, addr: nat, val: u64, mode: Mode)
    requires FileFits(f) && f.Accessible(addr, mode, true)
    ensures FileFits(f.Write(addr, val))
  {
    hide Bits, DecodeStatus, CsrFile.WriteBits, CsrFile.Put, CsrFile.Get, Below64, OwnSlots, CsrFile.Legalized;
    hide CsrFile.Accessible, CsrFile.WriteFcsr, FileFits;
    HasSlot(f, addr, mode);
    StatusFits(f, val);
    BitsBelow(val);
    WriteBitsFits(f, addr, Bits(val));
    PlainFits(f, if SatpLegal(val) then val else f.satp, val);
    if !BitRegister(addr) && addr != MSTATUS && addr != SATP {
      PutFits(f, addr, f.Legalized(addr, val));
      FcsrFits(f, addr, val);
    }
  }

  lemma HasSlot(f: CsrFile, addr: nat, mode: Mode)
    requires f.Accessible(addr, mode, true)
    ensures addr < SM.CSR_SLOTS
  {
  }

  lemma StatusFits(f: CsrFile, val: u64)
    requires FileFits(f)
    ensures FileFits(f.(mstatus := WriteStatus(f.mstatus, DecodeStatus(val))))
    ensures FileFits(f.(mstatus := WriteSstatus(f.mstatus, DecodeStatus(val))))
  {
    hide DecodeStatus, Below64, OwnSlots;
    DecodedFits(val);
  }

  lemma PlainFits(f: CsrFile, satp: u64, val: u64)
    requires FileFits(f)
    ensures FileFits(f.(satp := satp)) && FileFits(f.(cycle := val)) && FileFits(f.(instret := val))
  {
  }

  lemma FcsrFits(f: CsrFile, addr: nat, val: u64)
    requires FileFits(f)
    ensures FileFits(f.WriteFcsr(addr, val))
  {
    hide CsrFile.Put, CsrFile.Get, Below64, OwnSlots;
    forall v: u64 ensures FileFits(f.Put(FCSR, v)) {
      PutFits(f, FCSR, v);
    }
  }

  // ---- Instructions ----

  lemma SetRegFits(c: Core, r: nat, v: nat)
    requires Storable(c)
    ensures Storable(c.SetReg(r, v))
  {
    hide Below64, OwnSlots;
  }

  lemma WithFile(c: Core, f: CsrFile)
    requires Storable(c) && FileFits(f)
    ensures Storable(c.(csr := f))
  {
    hide Below64, OwnSlots;
  }

  lemma ExecuteCsrFits(c: Core, raw: nat, op: Op, nextPc: u64, mtime: u64)
    requires Storable(c) && op.Csr?
    ensures var x := ExecuteCsr(c, raw, op, nextPc, mtime); x.Executed? ==> Storable(x.core)
  {
    hide Word, Bits, CsrFile.Write, CsrFile.Accessible, ReadCsr, Storable, Core.SetReg;
    forall val: u64, v: nat | c.csr.Accessible(op.csr, c.mode, true)
      ensures Storable(c.(csr := c.csr.Write(op.csr, val)).SetReg(op.rd, v))
    {
      FitsIsStorable(c);
      WriteFits(c.csr, op.csr, val, c.mode);
      WithFile(c, c.csr.Write(op.csr, val));
      SetRegFits(c.(csr := c.csr.Write(op.csr, val)), op.rd, v);
    }
    forall v: nat ensures Storable(c.SetReg(op.rd, v)) {
      SetRegFits(c, op.rd, v);
    }
  }

  lemma ExecuteFits(u: Units, c: Core, raw: nat, op: Op, fallThrough: u64, mtime: u64)
    requires Storable(c) && !TouchesMemory(op)
    ensures var x := Execute(u, c, raw, op, fallThrough, mtime); x.Executed? ==> Storable(x.core)
  {
    hide Below64, OwnSlots, ExecuteCsr, Core.SetReg;
    if op.Csr? {
      ExecuteCsrFits(c, raw, op, fallThrough, mtime);
    }
    forall r: nat, v: nat ensures Storable(c.SetReg(r, v)) {
      SetRegFits(c, r, v);
    }
  }

  lemma CountFits(c: Core, op: Op, nextPc: u64)
    requires Storable(c)
    ensures Storable(Retire(c, op, nextPc)) && Storable(Tick(c))
  {
    hide Below64, OwnSlots;
  }

  // ---- Memory ----

  lemma TargetBound(ppn: nat, level: Level, va: nat)
    requires ppn < 0x1000_0000_0000
    ensures Target(ppn, level, va) < TWO_64
  {
  }

  lemma AddressBound(h: Hart, mode: Mode, acc: Access, va: u64)
    ensures var o := Harts.Translate(h, mode, acc, va); o.r.Ok? ==> o.r.value < TWO_64
  {
    hide Resolve, WordAt, WithWord, Target, Pte.Permits, Pte.UpToDate;
    var view := h.core.ViewFor(mode);
    if view.Translated() && Resolve(h.mem, view.satp, va / PAGE).LeafAt? {
      var r := Resolve(h.mem, view.satp, va / PAGE);
      TargetBound(DecodePte(WordAt(h.mem, r.pte)).ppn, r.level, va);
    }
  }

  /** Only registers and the reservation differ, and the reservation is an address. */
  predicate Works(c: Core, d: Core) {
    && d.csr == c.csr && |d.regs| == |c.regs|
    && (d.reservation.Some? ==> d.reservation == c.reservation || d.reservation.value < TWO_64)
  }

  lemma WorksFits(c: Core, d: Core)
    requires Storable(c) && Works(c, d)
    ensures Storable(d)
  {
    hide Below64, OwnSlots;
  }

  lemma LrWorks(p: Platform, h: Hart, rd: Reg, va: u64, size: Size)
    ensures Works(h.core, ExecuteLr(p, h, rd, va, size).h.core)
  {
    hide BusRead, Harts.Translate, SignExtend;
    AddressBound(h, h.core.DataMode(), Access.Load, va);
  }

  lemma ScWorks(p: Platform, h: Hart, rd: Reg, va: u64, val: u64, size: Size)
    ensures Works(h.core, ExecuteSc(p, h, rd, va, val, size).h.core)
  {
    hide BusWrite, TranslateAmo, WriteAccessible;
  }

  lemma AmoWorks(p: Platform, h: Hart, f: nat, rd: Reg, va: u64, val: u64, size: Size)
    ensures Works(h.core, ExecuteAmo(p, h, f, rd, va, val, size).h.core)
  {
    hide BusRead, BusWrite, TranslateAmo, SignExtend;
  }

  lemma LoadWorks(p: Platform, h: Hart, rd: Reg, va: u64, size: Size, signed: bool)
    ensures Works(h.core, ExecuteLoad(p, h, rd, va, size, signed).h.core)
  {
    hide LoadValue, SignExtend;
  }

  lemma MemoryWorks(p: Platform, h: Hart, op: Op)
    requires TouchesMemory(op)
    ensures Works(h.core, ExecuteMemory(p, h, op).h.core)
  {
    hide ExecuteLoad, ExecuteLr, ExecuteSc, ExecuteAmo, StoreValue;
    var c := h.core;
    match op
    case Load(rd, rs1, imm, size, signed) => LoadWorks(p, h, rd, (c.Reg(rs1) + imm) % TWO_64, size, signed);
    case Store(rs1, rs2, imm, size) =>
    case Lr(rd, rs1, size) => LrWorks(p, h, rd, c.Reg(rs1), size);
    case Sc(rd, rs1, rs2, size) => ScWorks(p, h, rd, c.Reg(rs1), c.Reg(rs2), size);
    case Amo(f, rd, rs1, rs2, size) => AmoWorks(p, h, f, rd, c.Reg(rs1), c.Reg(rs2), size);
  }

  // ---- Steps and runs ----

  lemma InstructionFits(p: Platform, h: Hart, raw: nat, op: Op)
    requires Storable(h.core)
    ensures Storable(ExecuteInstruction(p, h, raw, op).h.core)
  {
    hide Storable, ExecuteMemory, Execute, Retire;
    var fallThrough := (h.core.pc + Length(raw)) % TWO_64;
    if TouchesMemory(op) {
      var d := ExecuteMemory(p, h, op).h.core;
      MemoryWorks(p, h, op);
      WorksFits(h.core, d);
      CountFits(d, op, fallThrough);
    } else {
      var x := Execute(p.units, h.core, raw, op, fallThrough, p.mtime(h.dev));
      ExecuteFits(p.units, h.core, raw, op, fallThrough, p.mtime(h.dev));
      if x.Executed? {
        CountFits(x.core, op, x.nextPc);
      }
    }
  }

  lemma TrapFits(c: Core, cause: nat, tval: nat, toS: bool, isInterrupt: bool)
    requires Storable(c) && cause < 64
    ensures Storable(EnterTrap(c, cause, tval, toS, isInterrupt))
  {
    hide Below64, OwnSlots, TvecTarget;
  }

  lemma AwakeFits(c: Core)
    requires Storable(c)
    ensures Storable(c.(wfi := false)) && Storable(c.(reservation := None))
  {
    hide Below64, OwnSlots;
  }

  lemma StepFits(p: Platform, h: Hart)
    requires Storable(h.core)
    ensures Storable(Step(p, h).core)
  {
    hide Storable, ExecuteInstruction, FetchInstruction, EnterTrap, Tick, Waiting, ExceptionToS;
    AwakeFits(h.core);
    var g := Awake(h);
    var f := FetchInstruction(p, g);
    if f.r.Ok? {
      InstructionFits(p, f.h, f.r.value.0, f.r.value.1);
    }
    var o := StepInner(p, g);
    if o.r.Err? {
      var c, e := o.h.core, o.r.error;
      AwakeFits(c);
      TrapFits(c.(reservation := None), e.Cause(), e.Tval(), ExceptionToS(c, e), false);
      CountFits(TakeException(c, e), Op.Fence, 0);
    } else {
      CountFits(o.h.core, Op.Fence, 0);
    }
  }

  lemma InterruptFits(h: Hart)
    requires Storable(h.core)
    ensures Storable(Interrupted(h).core)
  {
    hide Storable, EnterTrap, PendingInterrupt, InterruptToS;
    if PendingInterrupt(h.core).Some? {
      var i := PendingInterrupt(h.core).value;
      AwakeFits(h.core);
      TrapFits(h.core.(wfi := false), i.Code(), 0, InterruptToS(h.core, i), true);
    }
  }

  /** Interrupt lines are bits of a word. */
  predicate LinesFit(e: Event) {
    e.Lines? ==> Below64(e.pending)
  }

  lemma ReceiveFits(h: Hart, e: Event)
    requires Storable(h.core) && LinesFit(e)
    ensures Storable(Receive(h, e).core)
  {
    hide OwnSlots, WriteRam;
  }

  /** From any core that fits, reset included, every run leaves one that fits. */
  lemma {:induction false} RunFits(p: Platform, h: Hart, events: seq<Event>)
    requires Storable(h.core) && forall i :: 0 <= i < |events| ==> LinesFit(events[i])
    ensures Storable(Run(p, h, events).core)
    decreases |events|
  {
    hide Step, Interrupted, Storable, LinesFit, Receive;
    if events != [] {
      var r := Receive(h, events[0]);
      ReceiveFits(h, events[0]);
      InterruptFits(r);
      StepFits(p, Interrupted(r));
      assert forall i :: 0 <= i < |events[1..]| ==> events[1..][i] == events[i + 1];
      RunFits(p, Turn(p, h, events[0]), events[1..]);
    }
  }

  lemma ResetFits(regs: seq<u64>, pc: u64)
    requires |regs| == 32
    ensures Storable(Core(regs, pc, Machine, Reset(), None, false))
  {
  }

  /** Whatever a hart ran since reset, what is captured of it restores it. */
  lemma EveryRunComesBack(p: Platform, h: Hart, events: seq<Event>, fregs: seq<nat>, nextPc: nat)
    requires |h.core.regs| == 32 && h.core == Core(h.core.regs, h.core.pc, Machine, Reset(), None, false)
    requires forall i :: 0 <= i < |events| ==> LinesFit(events[i])
    ensures var c := Run(p, h, events).core;
            RestoreCore(CaptureHart(c, fregs, nextPc), CaptureCsr(c.csr)) == c
  {
    hide Run, Storable, RestoreCore, CaptureHart, CaptureCsr, LinesFit;
    ResetFits(h.core.regs, h.core.pc);
    RunFits(p, h, events);
    LayoutTrip(Run(p, h, events).core, fregs, nextPc);
  }
}
