/**
 The CSR file: storage, the read and write views of each register, and the
 access rules. Registers with bit-level rules are records or sets of bit numbers; the rest live in
 a table indexed by CSR number.
 */
module CsrFiles {
  import opened Isa
  import opened Trap
  import opened Sv39

  type u64 = x: nat | x < TWO_64

  function Pow2(n: nat): (p: nat)
    ensures p > 0
  {
    if n == 0 then 1 else 2 * Pow2(n - 1)
  }

  /** The numbers of the bits set in a word. */
  function Bits(v: u64): set<nat> {
    set k: nat | k < 64 && v / Pow2(k) % 2 == 1
  }

  function WordBelow(bits: set<nat>, n: nat): (v: nat)
    ensures v < Pow2(n)
  {
    if n == 0 then 0 else WordBelow(bits, n - 1) + (if n - 1 in bits then Pow2(n - 1) else 0)
  }

  /** The word with exactly these bits set. */
  function Word(bits: set<nat>): u64 {
    WordBelow(bits, 64) % TWO_64
  }

  const FFLAGS: nat := 0x001
  const FRM: nat := 0x002
  const FCSR: nat := 0x003
  const CYCLE: nat := 0xC00
  const TIME: nat := 0xC01
  const INSTRET: nat := 0xC02
  const SSTATUS: nat := 0x100
  const SIE: nat := 0x104
  const STVEC: nat := 0x105
  const SCOUNTEREN: nat := 0x106
  const SENVCFG: nat := 0x10A
  const SSCRATCH: nat := 0x140
  const SEPC: nat := 0x141
  const SCAUSE: nat := 0x142
  const STVAL: nat := 0x143
  const SIP: nat := 0x144
  const STIMECMP: nat := 0x14D
  const MSTATUS: nat := 0x300
  const MISA: nat := 0x301
  const MEDELEG: nat := 0x302
  const MIDELEG: nat := 0x303
  const MIE: nat := 0x304
  const MTVEC: nat := 0x305
  const MCOUNTEREN: nat := 0x306
  const MENVCFG: nat := 0x30A
  const MCOUNTINHIBIT: nat := 0x320
  const MSCRATCH: nat := 0x340
  const MEPC: nat := 0x341
  const MCAUSE: nat := 0x342
  const MTVAL: nat := 0x343
  const MIP: nat := 0x344
  const PMPCFG0: nat := 0x3A0
  const PMPADDR0: nat := 0x3B0
  const MCYCLE: nat := 0xB00
  const MINSTRET: nat := 0xB02

  /** mstatus by field; the bits outside these fields are hardwired to zero. */
  datatype Status = Status(sie: bool, mie: bool, spie: bool, mpie: bool, spp: bool, mpp: nat, fs: nat,
                           mprv: bool, sum: bool, mxr: bool, tvm: bool, tw: bool, tsr: bool,
                           uxl: nat, sxl: nat)

  function Flag(b: bool): nat {
    if b then 1 else 0
  }

  function DecodeStatus(v: u64): (s: Status)
    ensures s.mpp < 4
  {
    Status(v / 0x2 % 2 == 1, v / 0x8 % 2 == 1, v / 0x20 % 2 == 1, v / 0x80 % 2 == 1, v / 0x100 % 2 == 1,
           v / 0x800 % 4, v / 0x2000 % 4,
           v / 0x2_0000 % 2 == 1, v / 0x4_0000 % 2 == 1, v / 0x8_0000 % 2 == 1,
           v / 0x10_0000 % 2 == 1, v / 0x20_0000 % 2 == 1, v / 0x40_0000 % 2 == 1,
           v / 0x1_0000_0000 % 4, v / 0x4_0000_0000 % 4)
  }

  /** The fields sstatus shows, as a word; SD summarises FS. */
  function SstatusWord(s: Status): nat {
    Flag(s.sie) * 0x2 + Flag(s.spie) * 0x20 + Flag(s.spp) * 0x100 + s.fs % 4 * 0x2000 +
    Flag(s.sum) * 0x4_0000 + Flag(s.mxr) * 0x8_0000 + s.uxl % 4 * 0x1_0000_0000 +
    Flag(s.fs == 3) * 0x8000_0000_0000_0000
  }

  function MstatusWord(s: Status): nat {
    SstatusWord(s) + Flag(s.mie) * 0x8 + Flag(s.mpie) * 0x80 + s.mpp % 4 * 0x800 + Flag(s.mprv) * 0x2_0000 +
    Flag(s.tvm) * 0x10_0000 + Flag(s.tw) * 0x20_0000 + Flag(s.tsr) * 0x40_0000 + s.sxl % 4 * 0x4_0000_0000
  }

  /** mstatus after `val` is written: MPP never becomes 2, UXL and SXL read 2. */
  function WriteStatus(old_: Status, val: Status): Status {
    val.(mpp := if val.mpp == 2 then old_.mpp else val.mpp, uxl := 2, sxl := 2)
  }

  /** A write through sstatus reaches only the supervisor fields. */
  function WriteSstatus(old_: Status, val: Status): Status {
    old_.(sie := val.sie, spie := val.spie, spp := val.spp, fs := val.fs, sum := val.sum, mxr := val.mxr,
          uxl := 2, sxl := 2)
  }

  // Bit numbers in mip, mie and mideleg
  const SSIP: nat := 1
  const STIP: nat := 5
  const MIE_MASK: set<nat> := {1, 3, 5, 7, 9, 11}
  const MIP_WRITE_MASK: set<nat> := {1, 5, 9}
  const MIDELEG_MASK: set<nat> := {1, 5, 9}
  const MEDELEG_MASK: set<nat> := {1, 2, 3, 4, 5, 6, 7, 8, 9, 12, 13, 15, 18, 19}

  /** menvcfg: Sstc enable, hardware A/D updates, and FIOM. */
  datatype Env = Env(stce: bool, adue: bool, fiom: bool)

  function EnvWord(e: Env): u64 {
    Flag(e.fiom) + Flag(e.adue) * 0x2000_0000_0000_0000 + Flag(e.stce) * 0x8000_0000_0000_0000
  }

  /** Replace the writable bits. */
  function Merge(old_: set<nat>, val: set<nat>, writable: set<nat>): set<nat> {
    (old_ - writable) + (val * writable)
  }

  datatype CsrFile = CsrFile(mstatus: Status, medeleg: set<nat>, mideleg: set<nat>, mie: set<nat>, mip: set<nat>,
                             deviceMip: set<nat>, menvcfg: Env, satp: u64,
                             stvec: u64, sepc: u64, scause: u64, stval: u64,
                             mtvec: u64, mepc: u64, mcause: u64, mtval: u64,
                             table: map<nat, u64>, cycle: u64, instret: u64, pmpStubs: bool)
  {
    function Get(addr: nat): u64 {
      if addr == STVEC then stvec
      else if addr == SEPC then sepc
      else if addr == SCAUSE then scause
      else if addr == STVAL then stval
      else if addr == MTVEC then mtvec
      else if addr == MEPC then mepc
      else if addr == MCAUSE then mcause
      else if addr == MTVAL then mtval
      else if addr in table then table[addr] else 0
    }

    /** A register that reads zero has no entry in the table. */
    function Put(addr: nat, val: u64): (f: CsrFile)
      ensures f.satp == satp && f.mstatus == mstatus && f.mideleg == mideleg
    {
      if addr == STVEC then this.(stvec := val)
      else if addr == SEPC then this.(sepc := val)
      else if addr == SCAUSE then this.(scause := val)
      else if addr == STVAL then this.(stval := val)
      else if addr == MTVEC then this.(mtvec := val)
      else if addr == MEPC then this.(mepc := val)
      else if addr == MCAUSE then this.(mcause := val)
      else if addr == MTVAL then this.(mtval := val)
      else this.(table := if val == 0 then table - {addr} else table[addr := val])
    }

    function MipValue(): set<nat> {
      (if menvcfg.stce then mip - {STIP} else mip) + deviceMip
    }

    function LoadRaw(addr: nat): u64 {
      if addr == MCYCLE || addr == CYCLE then cycle
      else if addr == MINSTRET || addr == INSTRET then instret
      else if 0x7A0 <= addr <= 0x7A4 then 0
      else if addr == MSTATUS then MstatusWord(mstatus) % TWO_64
      else if addr == SSTATUS then SstatusWord(mstatus) % TWO_64
      else if addr == MEDELEG then Word(medeleg)
      else if addr == MIDELEG then Word(mideleg)
      else if addr == MIE then Word(mie)
      else if addr == SIE then Word(mie * mideleg)
      else if addr == MIP then Word(MipValue())
      else if addr == SIP then Word(MipValue() * mideleg)
      else if addr == MENVCFG then EnvWord(menvcfg)
      else if addr == SATP then satp
      else if addr == FFLAGS then Get(FCSR) % 0x20
      else if addr == FRM then Get(FCSR) / 0x20 % 8
      else Get(addr)
    }

    function DirtyFs(): CsrFile {
      this.(mstatus := mstatus.(fs := 3))
    }

    /** Whether a CSR instruction in `mode` may touch the register. */
    predicate Accessible(addr: nat, mode: Mode, isWrite: bool) {
      && Rank(mode) >= addr / 0x100 % 4
      && !(isWrite && addr / 0x400 % 4 == 3)
      && !(addr == SATP && mode == Supervisor && mstatus.tvm)
      && !(addr == STIMECMP && mode != Machine && (!menvcfg.stce || Get(MCOUNTEREN) / 2 % 2 == 0))
      && !((addr == FFLAGS || addr == FRM || addr == FCSR) && mstatus.fs == 0)
      && !((addr == CYCLE || addr == TIME || addr == INSTRET) &&
           (|| (mode != Machine && !CounterEnabled(Get(MCOUNTEREN), addr))
            || (mode == User && !CounterEnabled(Get(SCOUNTEREN), addr))))
      && Exists(addr)
    }

    predicate Exists(addr: nat) {
      || (pmpStubs && (addr == PMPCFG0 || addr == PMPADDR0))
      || addr in {FFLAGS, FRM, FCSR, CYCLE, TIME, INSTRET}
      || addr in {SSTATUS, SIE, STVEC, SCOUNTEREN, SENVCFG, SSCRATCH, SEPC, SCAUSE, STVAL, SIP, STIMECMP, SATP}
      || addr in {MSTATUS, MISA, MEDELEG, MIDELEG, MIE, MTVEC, MCOUNTEREN, MENVCFG, MCOUNTINHIBIT, MSCRATCH,
                  MEPC, MCAUSE, MTVAL, MIP, MCYCLE, MINSTRET}
      || 0xF11 <= addr <= 0xF15 || 0x7A0 <= addr <= 0x7A4
    }

    /** The registers with bit-level write rules. */
    function WriteBits(addr: nat, val: set<nat>): (f: CsrFile)
      ensures f.satp == satp && f.mstatus == mstatus
      ensures mideleg <= MIDELEG_MASK ==> f.mideleg <= MIDELEG_MASK
    {
      if addr == MIP then this.(mip := Merge(mip, val, if menvcfg.stce then MIP_WRITE_MASK - {STIP} else MIP_WRITE_MASK))
      else if addr == SIP then this.(mip := Merge(mip, val, {SSIP} * mideleg))
      else if addr == MIE then this.(mie := val * MIE_MASK)
      else if addr == SIE then this.(mie := (mie - mideleg) + (val * mideleg * MIE_MASK))
      else if addr == MEDELEG then this.(medeleg := val * MEDELEG_MASK)
      else if addr == MIDELEG then this.(mideleg := val * MIDELEG_MASK)
      else if addr == MENVCFG then this.(menvcfg := Env(63 in val, 61 in val, 0 in val))
      else this
    }

    /** The value a table register takes when `val` is written. */
    function Legalized(addr: nat, val: u64): u64 {
      if addr == MCOUNTEREN || addr == SCOUNTEREN then val % 8
      else if addr == MCOUNTINHIBIT then val % 2 + 4 * (val / 4 % 2)
      else if addr == SENVCFG then val % 2
      else if addr == MTVEC || addr == STVEC then if val % 4 > 1 then val / 4 * 4 else val
      else if addr == MEPC || addr == SEPC then val / 2 * 2
      else val
    }

    function WriteFcsr(addr: nat, val: u64): CsrFile {
      var f := Get(FCSR);
      var f': nat := if addr == FFLAGS then f / 0x20 * 0x20 + val % 0x20
                     else if addr == FRM then f / 0x100 * 0x100 + val % 8 * 0x20 + f % 0x20
                     else val % 0x100;
      Put(FCSR, f' % TWO_64).DirtyFs()
    }

    /** The file after a permitted CSR-instruction write. */
    function Write(addr: nat, val: u64): (f: CsrFile)
      ensures addr != SATP ==> f.satp == satp
      ensures mideleg <= MIDELEG_MASK ==> f.mideleg <= MIDELEG_MASK
      ensures || f.mstatus == mstatus || f.mstatus == mstatus.(fs := 3)
              || (addr == MSTATUS && f.mstatus == WriteStatus(mstatus, DecodeStatus(val)))
              || (addr == SSTATUS && f.mstatus == WriteSstatus(mstatus, DecodeStatus(val)))
    {
      hide Bits, DecodeStatus, WriteBits, Legalized, Put, Get, WriteStatus, WriteSstatus;
      if addr == MISA || 0xF11 <= addr <= 0xF15 || 0x7A0 <= addr <= 0x7A4 then this
      else if addr == MSTATUS then this.(mstatus := WriteStatus(mstatus, DecodeStatus(val)))
      else if addr == SSTATUS then this.(mstatus := WriteSstatus(mstatus, DecodeStatus(val)))
      else if BitRegister(addr) then WriteBits(addr, Bits(val))
      else if addr == FFLAGS || addr == FRM || addr == FCSR then WriteFcsr(addr, val)
      else if addr == SATP then this.(satp := if SatpLegal(val) then val else satp)
      else if addr == MCYCLE then this.(cycle := val)
      else if addr == MINSTRET then this.(instret := val)
      else Put(addr, Legalized(addr, val))
    }
  }

  /** The CSR file at reset. */
  function Reset(): CsrFile {
    CsrFile(Status(false, false, false, false, false, 0, 0, false, false, false, false, false, false, 2, 2),
            {}, {}, {}, {}, {}, Env(false, false, false), 0, 0, 0, 0, 0, 0, 0, 0, 0, map[MISA := 0x8000_0000_0014_112D, STIMECMP := TWO_64 - 1], 0, 0, false)
  }

  predicate BitRegister(addr: nat) {
    addr == MIP || addr == SIP || addr == MIE || addr == SIE || addr == MEDELEG || addr == MIDELEG || addr == MENVCFG
  }

  /** Only the Bare and Sv39 modes may be written. */
  predicate SatpLegal(val: u64) {
    val / 0x1000_0000_0000_0000 == 0 || val / 0x1000_0000_0000_0000 == 8
  }

  function Rank(mode: Mode): nat {
    match mode
    case User => 0
    case Supervisor => 1
    case Machine => 3
  }

  predicate CounterEnabled(enables: u64, addr: nat) {
    if addr == CYCLE then enables % 2 == 1
    else if addr == TIME then enables / 2 % 2 == 1
    else enables / 4 % 2 == 1
  }
}
