/**
 A hart's registers in the snapshot: the file of 4096 CSR slots and the fields beside
 it, and back. Registers the hart keeps by field or as sets of bits are words there.
 */
module SnapshotCore {
  import opened Trap
  import opened Isa
  import opened Sv39
  import opened CsrFiles
  import opened Cores
  import opened Snapshot
  import SM = SnapshotMachine

  /** Bit k of mstatus as it is stored: SD is only ever computed. */
  predicate HasBit(s: Status, k: nat) {
    match k
    case 1 => s.sie
    case 3 => s.mie
    case 5 => s.spie
    case 7 => s.mpie
    case 8 => s.spp
    case 11 => s.mpp % 2 == 1
    case 12 => s.mpp / 2 % 2 == 1
    case 13 => s.fs % 2 == 1
    case 14 => s.fs / 2 % 2 == 1
    case 17 => s.mprv
    case 18 => s.sum
    case 19 => s.mxr
    case 20 => s.tvm
    case 21 => s.tw
    case 22 => s.tsr
    case 32 => s.uxl % 2 == 1
    case 33 => s.uxl / 2 % 2 == 1
    case 34 => s.sxl % 2 == 1
    case 35 => s.sxl / 2 % 2 == 1
    case _ => false
  }

  function StatusBits(s: Status): set<nat> {
    set k: nat | k < 64 && HasBit(s, k)
  }

  function DecodeEnv(v: u64): Env {
    Env(v / 0x8000_0000_0000_0000 % 2 == 1, v / 0x2000_0000_0000_0000 % 2 == 1, v % 2 == 1)
  }

  /** The slots of registers with fields of their own in the file. */
  predicate Named(addr: nat) {
    || addr == MSTATUS || addr == MEDELEG || addr == MIDELEG || addr == MIE || addr == MIP || addr == MENVCFG || addr == SATP
    || addr == STVEC || addr == SEPC || addr == SCAUSE || addr == STVAL
    || addr == MTVEC || addr == MEPC || addr == MCAUSE || addr == MTVAL
  }

  /** What a slot of the file holds. */
  function Slot(f: CsrFile, addr: nat): u64 {
    if addr == MSTATUS then Word(StatusBits(f.mstatus))
    else if addr == MEDELEG then Word(f.medeleg)
    else if addr == MIDELEG then Word(f.mideleg)
    else if addr == MIE then Word(f.mie)
    else if addr == MIP then Word(f.mip)
    else if addr == MENVCFG then EnvWord(f.menvcfg)
    else if addr == SATP then f.satp
    else f.Get(addr)
  }

  function CaptureCsr(f: CsrFile): (s: CsrState)
    ensures s.Writable()
  {
    CsrState(seq(SM.CSR_SLOTS, i requires 0 <= i < SM.CSR_SLOTS => Slot(f, i)), Word(f.deviceMip), f.pmpStubs, f.cycle, f.instret)
  }

  /** The floating-point registers and the pc to come are captured as they are. */
  function CaptureHart(c: Core, fregs: seq<nat>, nextPc: nat): HartState {
    HartState(c.regs, fregs, c.pc, nextPc, c.mode, c.reservation, c.wfi)
  }

  /** The two sections are a capture of this hart. */
  predicate Captures(h: HartState, s: CsrState, c: Core) {
    h == CaptureHart(c, h.fregs, h.nextPc) && s == CaptureCsr(c.csr)
  }

  // ---- Back ----

  function U64At(words: seq<nat>, i: nat): u64 {
    if i < |words| then words[i] % TWO_64 else 0
  }

  function RestoreCsr(s: CsrState): CsrFile {
    CsrFile(DecodeStatus(U64At(s.regs, MSTATUS)),
            Bits(U64At(s.regs, MEDELEG)), Bits(U64At(s.regs, MIDELEG)), Bits(U64At(s.regs, MIE)), Bits(U64At(s.regs, MIP)),
            Bits(s.deviceMip % TWO_64), DecodeEnv(U64At(s.regs, MENVCFG)), U64At(s.regs, SATP),
            U64At(s.regs, STVEC), U64At(s.regs, SEPC), U64At(s.regs, SCAUSE), U64At(s.regs, STVAL),
            U64At(s.regs, MTVEC), U64At(s.regs, MEPC), U64At(s.regs, MCAUSE), U64At(s.regs, MTVAL),
            Table(s.regs), s.cycle % TWO_64, s.instret % TWO_64, s.legacyPmpStubs)
  }

  function Table(regs: seq<nat>): map<nat, u64> {
    map i: nat | i < SM.CSR_SLOTS && !Named(i) && U64At(regs, i) != 0 :: U64At(regs, i)
  }

  function RestoreCore(h: HartState, s: CsrState): Core {
    Core(seq(32, i requires 0 <= i < 32 => U64At(h.regs, i)), h.pc % TWO_64, h.mode, RestoreCsr(s),
         if h.reservation.Some? then Some(h.reservation.value % TWO_64) else None, h.wfi)
  }

  // ---- What the file can hold ----

  predicate Below64(bits: set<nat>) {
    forall k :: k in bits ==> k < 64
  }

  /** The fields fit their widths, and what the table holds has a slot that is its own. */
  predicate Storable(c: Core) {
    var f := c.csr;
    && |c.regs| == 32 && (c.reservation.Some? ==> c.reservation.value < TWO_64)
    && f.mstatus.mpp < 4 && f.mstatus.fs < 4 && f.mstatus.uxl < 4 && f.mstatus.sxl < 4
    && Below64(f.medeleg) && Below64(f.mideleg) && Below64(f.mie) && Below64(f.mip) && Below64(f.deviceMip)
    && OwnSlots(f.table)
  }

  predicate OwnSlots(table: map<nat, u64>) {
    forall a :: a in table ==> a < SM.CSR_SLOTS && !Named(a) && table[a] != 0
  }

  // ---- Words and bits ----

  lemma {:induction false} Pow2Splits(k: nat, n: nat)
    requires k < n
    ensures Pow2(n) == Pow2(k) * 2 * Pow2(n - 1 - k)
    decreases n
  {
    if n == k + 1 {
      assert Pow2(0) == 1;
    } else {
      Pow2Splits(k, n - 1);
      assert Pow2(n - 1 - k) == 2 * Pow2(n - 2 - k);
      Doubled(Pow2(k), Pow2(n - 2 - k));
    }
  }

  lemma Doubled(a: nat, b: nat)
    ensures 2 * (a * 2 * b) == a * 2 * (2 * b)
  {
  }

  /** A multiple of 2p changes nothing about bit p. */
  lemma HigherBits(w: nat, p: nat, m: nat)
    requires p > 0
    ensures (w + p * 2 * m) / p % 2 == w / p % 2
  {
    DivisionShifts(w, p, 2 * m);
    assert p * 2 * m == p * (2 * m);
    assert (w / p + 2 * m) % 2 == w / p % 2;
  }

  lemma {:induction false} DivisionShifts(w: nat, p: nat, m: nat)
    requires p > 0
    ensures (w + p * m) / p == w / p + m
  {
    var q, r := w / p, w % p;
    assert w == p * q + r;
    assert w + p * m == p * (q + m) + r by { assert p * q + p * m == p * (q + m); }
    Quotient(w + p * m, p, q + m, r);
  }

  lemma Quotient(v: nat, p: nat, q: nat, r: nat)
    requires p > 0 && v == p * q + r && r < p
    ensures v / p == q && v % p == r
  {
    var d := v / p - q;
    assert v == p * (v / p) + v % p;
    assert p * d == p * (v / p) - p * q;
    assert 0 < p * d + p && p * d < p;
    assert d >= 1 ==> p * d >= p;
    assert d <= -1 ==> p * d + p <= 0;
  }

  lemma {:induction false} WordHasBits(bits: set<nat>, n: nat, k: nat)
    requires k < n
    ensures WordBelow(bits, n) / Pow2(k) % 2 == 1 <==> k in bits
    decreases n
  {
    var w, top := WordBelow(bits, n - 1), if n - 1 in bits then 1 else 0;
    assert WordBelow(bits, n) == w + Pow2(n - 1) * top;
    if k == n - 1 {
      Quotient(w + Pow2(k) * top, Pow2(k), top, w);
    } else {
      WordHasBits(bits, n - 1, k);
      Pow2Splits(k, n - 1);
      HigherBits(w, Pow2(k), Pow2(n - 2 - k) * top);
      assert Pow2(k) * 2 * (Pow2(n - 2 - k) * top) == Pow2(n - 1) * top;
    }
  }

  lemma {:induction false} Pow2Sum(a: nat, b: nat)
    ensures Pow2(a + b) == Pow2(a) * Pow2(b)
    decreases a
  {
    if a > 0 {
      Pow2Sum(a - 1, b);
      assert Pow2(a) * Pow2(b) == 2 * (Pow2(a - 1) * Pow2(b));
    } else {
      assert Pow2(0) == 1;
    }
  }

  lemma Pow8()
    ensures Pow2(8) == 256
  {
    assert Pow2(4) == 16;
  }

  lemma Pow64()
    ensures Pow2(64) == TWO_64
  {
    hide Pow2;
    Pow8();
    Pow2Sum(8, 8);
    Pow2Sum(16, 16);
    Pow2Sum(32, 32);
  }

  /** A set of bits is what its word holds. */
  lemma BitsOfWord(bits: set<nat>)
    requires Below64(bits)
    ensures Bits(Word(bits)) == bits
  {
    Pow64();
    assert Word(bits) == WordBelow(bits, 64);
    forall k: nat ensures k in Bits(Word(bits)) <==> k in bits {
      if k < 64 {
        WordHasBits(bits, 64, k);
      }
    }
  }

  lemma HalfAgain(v: nat, p: nat)
    requires p > 0
    ensures v / (2 * p) == v / p / 2
  {
    var q, r := v / p, v % p;
    var h, odd := q / 2, q % 2;
    Distributes(p, 2 * h, odd);
    assert p * (2 * h) == 2 * p * h;
    assert p * odd <= p;
    Quotient(v, 2 * p, h, p * odd + r);
  }

  lemma Distributes(p: nat, a: nat, b: nat)
    ensures p * (a + b) == p * a + p * b
  {
  }

  /** Two bits read as one number. */
  lemma PairAt(v: nat, p: nat, n: nat)
    requires p > 0 && n < 4 && (v / p % 2 == 1 <==> n % 2 == 1) && (v / (2 * p) % 2 == 1 <==> n / 2 % 2 == 1)
    ensures v / p % 4 == n
  {
    HalfAgain(v, p);
  }

  lemma LowPowers()
    ensures Pow2(1) == 0x2 && Pow2(3) == 0x8 && Pow2(5) == 0x20 && Pow2(7) == 0x80 && Pow2(8) == 0x100
    ensures Pow2(11) == 0x800 && Pow2(12) == 0x1000 && Pow2(13) == 0x2000 && Pow2(14) == 0x4000
  {
    assert Pow2(4) == 16;
    assert Pow2(10) == 0x400;
  }

  lemma HighPowers()
    ensures Pow2(17) == 0x2_0000 && Pow2(18) == 0x4_0000 && Pow2(19) == 0x8_0000
    ensures Pow2(20) == 0x10_0000 && Pow2(21) == 0x20_0000 && Pow2(22) == 0x40_0000
    ensures Pow2(32) == 0x1_0000_0000 && Pow2(33) == 0x2_0000_0000 && Pow2(34) == 0x4_0000_0000 && Pow2(35) == 0x8_0000_0000
  {
    LowPowers();
    assert Pow2(16) == 0x1_0000;
    Pow2Sum(16, 16);
  }

  predicate FieldsFit(s: Status) {
    s.mpp < 4 && s.fs < 4 && s.uxl < 4 && s.sxl < 4
  }

  /** Bit k of the stored word, which weighs p. */
  lemma StatusBit(s: Status, k: nat, p: nat)
    requires k < 64 && p == Pow2(k)
    ensures Word(StatusBits(s)) / p % 2 == 1 <==> HasBit(s, k)
  {
    hide HasBit, Pow2;
    Pow64();
    WordHasBits(StatusBits(s), 64, k);
  }

  lemma LowFields(s: Status)
    requires FieldsFit(s)
    ensures var v := Word(StatusBits(s));
            && (v / 0x2 % 2 == 1 <==> s.sie) && (v / 0x8 % 2 == 1 <==> s.mie) && (v / 0x20 % 2 == 1 <==> s.spie)
            && (v / 0x80 % 2 == 1 <==> s.mpie) && (v / 0x100 % 2 == 1 <==> s.spp)
            && v / 0x800 % 4 == s.mpp && v / 0x2000 % 4 == s.fs
  {
    hide Word, Pow2, StatusBits;
    LowPowers();
    StatusBit(s, 1, 0x2);
    StatusBit(s, 3, 0x8);
    StatusBit(s, 5, 0x20);
    StatusBit(s, 7, 0x80);
    StatusBit(s, 8, 0x100);
    StatusBit(s, 11, 0x800);
    StatusBit(s, 12, 0x1000);
    StatusBit(s, 13, 0x2000);
    StatusBit(s, 14, 0x4000);
    PairAt(Word(StatusBits(s)), 0x800, s.mpp);
    PairAt(Word(StatusBits(s)), 0x2000, s.fs);
  }

  lemma HighFields(s: Status)
    requires FieldsFit(s)
    ensures var v := Word(StatusBits(s));
            && (v / 0x2_0000 % 2 == 1 <==> s.mprv) && (v / 0x4_0000 % 2 == 1 <==> s.sum) && (v / 0x8_0000 % 2 == 1 <==> s.mxr)
            && (v / 0x10_0000 % 2 == 1 <==> s.tvm) && (v / 0x20_0000 % 2 == 1 <==> s.tw) && (v / 0x40_0000 % 2 == 1 <==> s.tsr)
            && v / 0x1_0000_0000 % 4 == s.uxl && v / 0x4_0000_0000 % 4 == s.sxl
  {
    hide Word, Pow2, StatusBits;
    HighPowers();
    StatusBit(s, 17, 0x2_0000);
    StatusBit(s, 18, 0x4_0000);
    StatusBit(s, 19, 0x8_0000);
    StatusBit(s, 20, 0x10_0000);
    StatusBit(s, 21, 0x20_0000);
    StatusBit(s, 22, 0x40_0000);
    StatusBit(s, 32, 0x1_0000_0000);
    StatusBit(s, 33, 0x2_0000_0000);
    StatusBit(s, 34, 0x4_0000_0000);
    StatusBit(s, 35, 0x8_0000_0000);
    PairAt(Word(StatusBits(s)), 0x1_0000_0000, s.uxl);
    PairAt(Word(StatusBits(s)), 0x4_0000_0000, s.sxl);
  }

  /** mstatus comes back from its slot field by field. */
  lemma StatusTrip(s: Status)
    requires FieldsFit(s)
    ensures DecodeStatus(Word(StatusBits(s))) == s
  {
    hide Word, StatusBits;
    LowFields(s);
    HighFields(s);
  }

  lemma EnvTrip(e: Env)
    ensures DecodeEnv(EnvWord(e)) == e
  {
  }

  // ---- There and back ----

  lemma SlotOf(f: CsrFile, addr: nat)
    requires addr < SM.CSR_SLOTS
    ensures U64At(CaptureCsr(f).regs, addr) == Slot(f, addr)
  {
    hide Slot;
  }

  lemma TableTrip(f: CsrFile)
    requires OwnSlots(f.table)
    ensures Table(CaptureCsr(f).regs) == f.table
  {
    hide Word, EnvWord, StatusBits, CaptureCsr;
    var t := Table(CaptureCsr(f).regs);
    forall a: nat ensures (a in t <==> a in f.table) && (a in t ==> t[a] == f.table[a]) {
      if a < SM.CSR_SLOTS {
        SlotOf(f, a);
      }
    }
  }

  lemma CsrTripsBack(f: CsrFile)
    requires FieldsFit(f.mstatus) && OwnSlots(f.table)
    requires Below64(f.medeleg) && Below64(f.mideleg) && Below64(f.mie) && Below64(f.mip) && Below64(f.deviceMip)
    ensures RestoreCsr(CaptureCsr(f)) == f
  {
    hide Word, Bits, EnvWord, DecodeEnv, StatusBits, DecodeStatus, Table, OwnSlots, Below64, U64At;
    TableTrip(f);
    StatusTrip(f.mstatus);
    EnvTrip(f.menvcfg);
    BitsOfWord(f.medeleg);
    BitsOfWord(f.mideleg);
    BitsOfWord(f.mie);
    BitsOfWord(f.mip);
    BitsOfWord(f.deviceMip);
    SlotsOf(f);
  }

  lemma SlotsOf(f: CsrFile)
    ensures var r := CaptureCsr(f).regs;
            && U64At(r, MSTATUS) == Word(StatusBits(f.mstatus)) && U64At(r, MEDELEG) == Word(f.medeleg)
            && U64At(r, MIDELEG) == Word(f.mideleg) && U64At(r, MIE) == Word(f.mie) && U64At(r, MIP) == Word(f.mip)
            && U64At(r, MENVCFG) == EnvWord(f.menvcfg) && U64At(r, SATP) == f.satp
            && U64At(r, STVEC) == f.stvec && U64At(r, SEPC) == f.sepc && U64At(r, SCAUSE) == f.scause && U64At(r, STVAL) == f.stval
            && U64At(r, MTVEC) == f.mtvec && U64At(r, MEPC) == f.mepc && U64At(r, MCAUSE) == f.mcause && U64At(r, MTVAL) == f.mtval
  {
    hide Word, EnvWord, StatusBits, CaptureCsr, U64At;
    SlotOf(f, MSTATUS);
    SlotOf(f, MEDELEG);
    SlotOf(f, MIDELEG);
    SlotOf(f, MIE);
    SlotOf(f, MIP);
    SlotOf(f, MENVCFG);
    SlotOf(f, SATP);
    SlotOf(f, STVEC);
    SlotOf(f, SEPC);
    SlotOf(f, SCAUSE);
    SlotOf(f, STVAL);
    SlotOf(f, MTVEC);
    SlotOf(f, MEPC);
    SlotOf(f, MCAUSE);
    SlotOf(f, MTVAL);
  }

  lemma RegsTrip(regs: seq<u64>)
    requires |regs| == 32
    ensures seq(32, i requires 0 <= i < 32 => U64At(regs, i)) == regs
  {
  }

  /** Whatever is restored fits the file. */
  lemma RestoredIsStorable(h: HartState, s: CsrState)
    ensures Storable(RestoreCore(h, s))
  {
  }

  lemma CapturedComesBack(h: HartState, s: CsrState, c: Core)
    requires Captures(h, s, c) && Storable(c)
    ensures RestoreCore(h, s) == c
  {
    hide RestoreCore, CaptureCsr, Storable;
    LayoutTrip(c, h.fregs, h.nextPc);
  }

  /** A hart comes back from its two sections if and only if its registers fit them. */
  lemma LayoutTrip(c: Core, fregs: seq<nat>, nextPc: nat)
    ensures RestoreCore(CaptureHart(c, fregs, nextPc), CaptureCsr(c.csr)) == c <==> Storable(c)
  {
    hide RestoreCsr, CaptureCsr, OwnSlots, Below64;
    if Storable(c) {
      CsrTripsBack(c.csr);
      RegsTrip(c.regs);
    }
    RestoredIsStorable(CaptureHart(c, fregs, nextPc), CaptureCsr(c.csr));
  }
}
