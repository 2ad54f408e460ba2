/**
 The reference hart: no TLB, no fetch memo, no decoded blocks. Every fetch and
 every access walks the page table, every instruction is read and decoded anew.

 Beside the architectural state it tracks the fencing discipline that any TLB
 needs: the pages translated since the last flush (`seen`), those among them
 whose walk a later data write has changed (`stale`), and whether a stale page
 was ever used before a flush (`disciplined` becomes false, for good).
 */
module Harts {
  import opened Bytes
  import opened Trap
  import opened Isa
  import opened Sv39
  import opened CsrFiles
  import opened Cores

  /** What the hart is built on: the decoder, the register functions and the devices. */
  datatype Platform = Platform(
    decode: Decoder,
    units: Units,
    mtime: nat -> u64,
    /** A device read: the devices' next state and the reply. */
    mmioRead: (nat, nat, nat) -> (nat, Option<nat>),
    /** A device write: the next state, whether it was accepted, and the DMA it causes. */
    mmioWrite: (nat, Memory, nat, u64, nat) -> (nat, bool, seq<(nat, seq<byte>)>),
    mmioWritable: (nat, nat) -> bool)

  datatype Hart = Hart(core: Core, mem: Memory, dev: nat, seen: set<nat>, stale: set<nat>, disciplined: bool)

  datatype Outcome<T> = Outcome(h: Hart, r: Result<T>)

  // ------------------------------------------------------------------
  // Translation and data writes
  // ------------------------------------------------------------------

  /** Walking page `vpn` reads the same leaf in both memories. */
  predicate SameWalk(mem: Memory, mem': Memory, satp: nat, vpn: nat) {
    && Resolve(mem, satp, vpn) == Resolve(mem', satp, vpn)
    && (Resolve(mem, satp, vpn).LeafAt? ==> LeafWord(mem, satp, vpn) == LeafWord(mem', satp, vpn))
  }

  /** Walk, and note the page: seen if it translates, undisciplined if it was stale. */
  function Translate(h: Hart, mode: Mode, acc: Access, va: nat): (o: Outcome<nat>)
    ensures o.h.disciplined ==> h.disciplined
    ensures |o.h.mem| == |h.mem| && o.h.core == h.core && o.h.dev == h.dev && o.h.stale == h.stale
  {
    var view := h.core.ViewFor(mode);
    var t := Sv39.Translate(h.mem, view, acc, va);
    if view.Translated() then
      Outcome(h.(mem := t.mem,
                 seen := if t.result.Ok? then h.seen + {va / PAGE} else h.seen,
                 disciplined := h.disciplined && va / PAGE !in h.stale), t.result)
    else Outcome(h, t.result)
  }

  /** Memory becomes `mem` by a data write; pages whose walk it changed go stale. */
  function WithData(h: Hart, mem: Memory): Hart {
    h.(mem := mem, stale := h.stale + set v | v in h.seen && !SameWalk(h.mem, mem, h.core.csr.satp, v))
  }

  function WriteRam(h: Hart, offset: nat, bytes: seq<byte>): (h': Hart)
    ensures |h'.mem| == |h.mem|
    ensures h'.disciplined == h.disciplined && h'.core == h.core && h'.dev == h.dev && h'.seen == h.seen
  {
    if offset + |bytes| <= |h.mem| then WithData(h, Splice(h.mem, offset, bytes)) else h
  }

  function ApplyDma(h: Hart, dma: seq<(nat, seq<byte>)>): (h': Hart)
    ensures |h'.mem| == |h.mem|
    ensures h'.disciplined == h.disciplined && h'.core == h.core && h'.dev == h.dev && h'.seen == h.seen
    decreases |dma|
  {
    hide WriteRam;
    if dma == [] then h else ApplyDma(WriteRam(h, dma[0].0, dma[0].1), dma[1..])
  }

  // ------------------------------------------------------------------
  // The bus
  // ------------------------------------------------------------------

  function BusRead(p: Platform, h: Hart, addr: nat, size: nat): (o: (Hart, Option<nat>))
    ensures o.0 == h.(dev := o.0.dev)
  {
    if addr >= DRAM_BASE then
      var offset := addr - DRAM_BASE;
      (h, if offset + size <= |h.mem| then Some(LeValue(h.mem[offset..offset + size])) else None)
    else
      var (dev, v) := p.mmioRead(h.dev, addr, size);
      (h.(dev := dev), if v.Some? then Some(v.value % Radix(size)) else None)
  }

  function BusWrite(p: Platform, h: Hart, addr: nat, val: u64, size: nat): (o: (Hart, bool))
    ensures |o.0.mem| == |h.mem|
    ensures o.0.disciplined == h.disciplined && o.0.core == h.core && o.0.seen == h.seen
  {
    if addr >= DRAM_BASE then
      (WriteRam(h, addr - DRAM_BASE, LeBytes(val, size)), addr - DRAM_BASE + size <= |h.mem|)
    else
      var (dev, ok, dma) := p.mmioWrite(h.dev, h.mem, addr, val, size);
      (ApplyDma(h.(dev := dev), dma), ok)
  }

  predicate WriteAccessible(p: Platform, h: Hart, addr: nat, size: nat) {
    if addr >= DRAM_BASE then addr + size <= DRAM_BASE + |h.mem| else p.mmioWritable(addr, size)
  }

  // ------------------------------------------------------------------
  // Loads and stores
  // ------------------------------------------------------------------

  /** Only a misaligned access that leaves its page is split into bytes. */
  predicate CrossesPage(va: u64, size: Size) {
    size > 1 && va % size != 0 && va % PAGE + size > PAGE
  }

  /** Translate the bytes from |pas| to n of an access at va, stopping at the first fault. */
  function TranslateBytes(h: Hart, mode: Mode, acc: Access, va: u64, n: nat, pas: seq<nat>): (o: Outcome<seq<nat>>)
    requires |pas| <= n
    ensures o.h.disciplined ==> h.disciplined
    ensures o.h.core == h.core && |o.h.mem| == |h.mem| && o.h.dev == h.dev && o.h.stale == h.stale
    ensures o.r.Ok? ==> |o.r.value| == n
    decreases n - |pas|
  {
    if |pas| == n then Outcome(h, Ok(pas))
    else if va + |pas| >= TWO_64 then Outcome(h, Err(PageFault(acc, va)))
    else
      var t := Translate(h, mode, acc, va + |pas|);
      if t.r.Err? then Outcome(t.h, Err(t.r.error))
      else TranslateBytes(t.h, mode, acc, va, n, pas + [t.r.value])
  }

  /** Read one byte from each address, least significant first. */
  function ReadBytes(p: Platform, h: Hart, pas: seq<nat>, va: u64, got: seq<byte>): (o: Outcome<nat>)
    requires |got| <= |pas|
    ensures o.h == h.(dev := o.h.dev)
    decreases |pas| - |got|
  {
    if |got| == |pas| then Outcome(h, Ok(LeValue(got)))
    else
      var (h', v) := BusRead(p, h, pas[|got|], 1);
      if v == None then Outcome(h', Err(LoadAccessFault(va)))
      else ReadBytes(p, h', pas, va, got + [v.value % 256])
  }

  /** Write one byte to each address. */
  function WriteBytes(p: Platform, h: Hart, pas: seq<nat>, va: u64, bytes: seq<byte>, done: nat): (o: Outcome<()>)
    requires |bytes| == |pas| && done <= |pas|
    ensures o.h.disciplined == h.disciplined && o.h.core == h.core && |o.h.mem| == |h.mem| && o.h.seen == h.seen
    decreases |pas| - done
  {
    if done == |pas| then Outcome(h, Ok(()))
    else
      var (h', ok) := BusWrite(p, h, pas[done], bytes[done], 1);
      if !ok then Outcome(h', Err(StoreAccessFault(va)))
      else WriteBytes(p, h', pas, va, bytes, done + 1)
  }

  function LoadValue(p: Platform, h: Hart, va: u64, size: Size): (o: Outcome<nat>)
    ensures o.h.disciplined ==> h.disciplined
    ensures o.h.core == h.core
  {
    var mode := h.core.DataMode();
    if CrossesPage(va, size) then
      var t := TranslateBytes(h, mode, Access.Load, va, size, []);
      if t.r.Err? then Outcome(t.h, Err(t.r.error)) else ReadBytes(p, t.h, t.r.value, va, [])
    else
      var t := Translate(h, mode, Access.Load, va);
      if t.r.Err? then t
      else
        var (h', v) := BusRead(p, t.h, t.r.value, size);
        Outcome(h', if v.Some? then Ok(v.value) else Err(LoadAccessFault(va)))
  }

  function StoreValue(p: Platform, h: Hart, va: u64, val: u64, size: Size): (o: Outcome<()>)
    ensures o.h.disciplined ==> h.disciplined
    ensures o.h.core == h.core.(reservation := None)
  {
    var h := h.(core := h.core.(reservation := None));
    var mode := h.core.DataMode();
    if CrossesPage(va, size) then
      var t := TranslateBytes(h, mode, Access.Store, va, size, []);
      if t.r.Err? then Outcome(t.h, Err(t.r.error))
      else if exists i :: 0 <= i < size && !WriteAccessible(p, t.h, t.r.value[i], 1)
      then Outcome(t.h, Err(StoreAccessFault(va)))
      else WriteBytes(p, t.h, t.r.value, va, LeBytes(val, size), 0)
    else
      var t := Translate(h, mode, Access.Store, va);
      if t.r.Err? then Outcome(t.h, Err(t.r.error))
      else
        var (h', ok) := BusWrite(p, t.h, t.r.value, val, size);
        Outcome(h', if ok then Ok(()) else Err(StoreAccessFault(va)))
  }

  /** Address of an LR, SC or AMO, which must be aligned. */
  function TranslateAmo(h: Hart, va: u64, size: Size, store: bool): (o: Outcome<nat>)
    ensures o.h.disciplined ==> h.disciplined
    ensures o.h.core == h.core
  {
    var acc := if store then Access.Store else Access.Load;
    if va % size != 0 then Outcome(h, Err(AccessFault(acc, va)))
    else Translate(h, h.core.DataMode(), acc, va)
  }

  function SignExtend(v: nat, size: nat): nat {
    if size == 1 && v >= 0x80 then v + TWO_64 - 0x100
    else if size == 2 && v >= 0x8000 then v + TWO_64 - 0x1_0000
    else if size == 4 && v >= 0x8000_0000 then v + TWO_64 - 0x1_0000_0000
    else v
  }

  function WithCore(h: Hart, core: Core): Hart {
    h.(core := core)
  }

  function ExecuteLoad(p: Platform, h: Hart, rd: Reg, va: u64, size: Size, signed: bool): (o: Outcome<()>)
    ensures o.h.disciplined ==> h.disciplined
    ensures o.h.core.mode == h.core.mode && o.h.core.csr == h.core.csr && o.h.core.pc == h.core.pc
  {
    hide LoadValue, SignExtend, Core.SetReg;
    var o := LoadValue(p, h, va, size);
    if o.r.Err? then Outcome(o.h, Err(o.r.error))
    else Outcome(WithCore(o.h, o.h.core.SetReg(rd, if signed then SignExtend(o.r.value, size) else o.r.value)), Ok(()))
  }

  function ExecuteLr(p: Platform, h: Hart, rd: Reg, va: u64, size: Size): (o: Outcome<()>)
    ensures o.h.disciplined ==> h.disciplined
    ensures o.h.core.mode == h.core.mode && o.h.core.csr == h.core.csr && o.h.core.pc == h.core.pc
  {
    hide TranslateAmo, BusRead, SignExtend, Core.SetReg;
    var t := TranslateAmo(h, va, size, false);
    if t.r.Err? then Outcome(t.h, Err(t.r.error))
    else
      var (h', v) := BusRead(p, t.h, t.r.value, size);
      if v == None then Outcome(h', Err(LoadAccessFault(va)))
      else Outcome(WithCore(h', h'.core.SetReg(rd, SignExtend(v.value, size)).(reservation := Some(t.r.value))), Ok(()))
  }

  /** SC writes only when the reservation held at its start is for this address. */
  function ExecuteSc(p: Platform, h: Hart, rd: Reg, va: u64, val: u64, size: Size): (o: Outcome<()>)
    ensures o.h.disciplined ==> h.disciplined
    ensures o.h.core.mode == h.core.mode && o.h.core.csr == h.core.csr && o.h.core.pc == h.core.pc
  {
    hide TranslateAmo, BusWrite, Core.SetReg;
    var t := TranslateAmo(h, va, size, true);
    if t.r.Err? then Outcome(t.h, Err(t.r.error))
    else if !WriteAccessible(p, t.h, t.r.value, size) then Outcome(t.h, Err(StoreAccessFault(va)))
    else
      var h' := WithCore(t.h, t.h.core.(reservation := None));
      if h.core.reservation == Some(t.r.value) then
        var (w, ok) := BusWrite(p, h', t.r.value, val, size);
        if ok then Outcome(WithCore(w, w.core.SetReg(rd, 0)), Ok(())) else Outcome(w, Err(StoreAccessFault(va)))
      else Outcome(WithCore(h', h'.core.SetReg(rd, 1)), Ok(()))
  }

  function ExecuteAmo(p: Platform, h: Hart, f: nat, rd: Reg, va: u64, val: u64, size: Size): (o: Outcome<()>)
    ensures o.h.disciplined ==> h.disciplined
    ensures o.h.core.mode == h.core.mode && o.h.core.csr == h.core.csr && o.h.core.pc == h.core.pc
  {
    hide TranslateAmo, BusRead, BusWrite, SignExtend, Core.SetReg;
    var t := TranslateAmo(WithCore(h, h.core.(reservation := None)), va, size, true);
    if t.r.Err? then Outcome(t.h, Err(t.r.error))
    else
      var (r, v) := BusRead(p, t.h, t.r.value, size);
      if v == None then Outcome(r, Err(StoreAccessFault(va)))
      else
        var (w, ok) := BusWrite(p, r, t.r.value, p.units.amo(f, v.value % TWO_64, val), size);
        if ok then Outcome(WithCore(w, w.core.SetReg(rd, SignExtend(v.value, size))), Ok(()))
        else Outcome(w, Err(StoreAccessFault(va)))
  }

  /** The instructions that touch memory. */
  function ExecuteMemory(p: Platform, h: Hart, op: Op): (o: Outcome<()>)
    requires TouchesMemory(op)
    ensures o.h.disciplined ==> h.disciplined
    ensures o.h.core.mode == h.core.mode && o.h.core.csr == h.core.csr && o.h.core.pc == h.core.pc
  {
    hide ExecuteLoad, StoreValue, ExecuteLr, ExecuteSc, ExecuteAmo;
    var c := h.core;
    match op
    case Load(rd, rs1, imm, size, signed) => ExecuteLoad(p, h, rd, (c.Reg(rs1) + imm) % TWO_64, size, signed)
    case Store(rs1, rs2, imm, size) => StoreValue(p, h, (c.Reg(rs1) + imm) % TWO_64, c.Reg(rs2), size)
    case Lr(rd, rs1, size) => ExecuteLr(p, h, rd, c.Reg(rs1), size)
    case Sc(rd, rs1, rs2, size) => ExecuteSc(p, h, rd, c.Reg(rs1), c.Reg(rs2), size)
    case Amo(f, rd, rs1, rs2, size) => ExecuteAmo(p, h, f, rd, c.Reg(rs1), c.Reg(rs2), size)
  }

  // ------------------------------------------------------------------
  // One step
  // ------------------------------------------------------------------

  /** Read the instruction window at `pa`; its upper half may need a walk of the next page. */
  function FetchWindow(p: Platform, h: Hart, pa: nat): (o: Outcome<nat>)
    ensures o.h.disciplined ==> h.disciplined
    ensures o.h.core == h.core
  {
    hide FetchUpper;
    var (h1, low) := BusRead(p, h, pa, 2);
    if low == None then Outcome(h1, Err(InstructionAccessFault(h.core.pc)))
    else if low.value % 4 != 3 then Outcome(h1, Ok(low.value))
    else FetchUpper(p, h1, pa, low.value)
  }

  /** The upper half of a 32-bit instruction whose lower half is at `pa`. */
  function FetchUpper(p: Platform, h: Hart, pa: nat, low: nat): (o: Outcome<nat>)
    ensures o.h.disciplined ==> h.disciplined
    ensures o.h.core == h.core
  {
    var pc2 := (h.core.pc + 2) % TWO_64;
    var t := if pc2 % PAGE == 0 then Translate(h, h.core.mode, Fetch, pc2) else Outcome(h, Ok(pa + 2));
    if t.r.Err? then t
    else
      var (h2, high) := BusRead(p, t.h, t.r.value, 2);
      if high == None then Outcome(h2, Err(InstructionAccessFault(pc2)))
      else Outcome(h2, Ok(low + 0x1_0000 * high.value))
  }

  /** Read and decode the instruction at a translated pc. */
  function DecodeAt(p: Platform, h: Hart, pa: nat): (o: Outcome<(nat, Op)>)
    ensures o.h.disciplined ==> h.disciplined
    ensures o.h.core == h.core
  {
    hide FetchWindow;
    var w := FetchWindow(p, h, pa);
    if w.r.Err? then Outcome(w.h, Err(w.r.error))
    else
      match p.decode(w.r.value)
      case None => Outcome(w.h, Err(IllegalInstruction(w.r.value)))
      case Some(op) => Outcome(w.h, Ok((w.r.value, op)))
  }

  /** Walk, read and decode the instruction at the pc. */
  function FetchInstruction(p: Platform, h: Hart): (o: Outcome<(nat, Op)>)
    ensures o.h.disciplined ==> h.disciplined
    ensures o.h.core == h.core
  {
    hide DecodeAt;
    var pc := h.core.pc;
    if pc % 2 != 0 then Outcome(h, Err(InstructionAddressMisaligned(pc)))
    else
      var t := Translate(h, h.core.mode, Fetch, pc);
      if t.r.Err? then Outcome(t.h, Err(t.r.error)) else DecodeAt(p, t.h, t.r.value)
  }

  /** A flush forgets what was translated. */
  function Fenced(h: Hart, fence: Fence): Hart {
    if fence == FlushTranslations then h.(seen := {}, stale := {}) else h
  }

  /** An instruction that touches no memory, with any flush it asks for. */
  function ExecuteRegister(p: Platform, h: Hart, raw: nat, op: Op, fallThrough: u64): (o: Outcome<()>)
    requires !TouchesMemory(op)
    ensures o.h.disciplined ==> h.disciplined
  {
    hide Execute, Retire;
    var x := Execute(p.units, h.core, raw, op, fallThrough, p.mtime(h.dev));
    if x.Raised? then Outcome(h, Err(x.e))
    else Outcome(Fenced(WithCore(h, Retire(x.core, op, x.nextPc)), x.fence), Ok(()))
  }

  /** Execute one fetched instruction and move on. */
  function ExecuteInstruction(p: Platform, h: Hart, raw: nat, op: Op): (o: Outcome<()>)
    ensures o.h.disciplined ==> h.disciplined
  {
    var fallThrough := (h.core.pc + Length(raw)) % TWO_64;
    if TouchesMemory(op) then
      var o := ExecuteMemory(p, h, op);
      if o.r.Err? then o else Outcome(WithCore(o.h, Retire(o.h.core, op, fallThrough)), Ok(()))
    else ExecuteRegister(p, h, raw, op, fallThrough)
  }

  function StepInner(p: Platform, h: Hart): (o: Outcome<()>)
    ensures o.h.disciplined ==> h.disciplined
  {
    var f := FetchInstruction(p, h);
    if f.r.Err? then Outcome(f.h, Err(f.r.error))
    else ExecuteInstruction(p, f.h, f.r.value.0, f.r.value.1)
  }

  predicate Waiting(c: Core) {
    c.wfi && c.csr.MipValue() * c.csr.mie == {}
  }

  /** The hart no longer waits. */
  function Awake(h: Hart): Hart {
    WithCore(h, h.core.(wfi := false))
  }

  /** One call of `step`: stay in WFI, or run one instruction and take the trap it raises. */
  function Step(p: Platform, h: Hart): (h': Hart)
    ensures h'.disciplined ==> h.disciplined
  {
    if Waiting(h.core) then h
    else
      var o := StepInner(p, Awake(h));
      var core := if o.r.Err? then TakeException(o.h.core, o.r.error) else o.h.core;
      WithCore(o.h, Tick(core))
  }

  /** What the outside does to the hart between two steps. */
  datatype Event =
    | Lines(mask: set<nat>, pending: set<nat>)
    | Dma(offset: nat, bytes: seq<byte>)
    | Devices(dev: nat)

  function Receive(h: Hart, e: Event): (h': Hart)
    ensures h'.disciplined == h.disciplined
  {
    match e
    case Lines(mask, pending) =>
      var csr := h.core.csr;
      WithCore(h, h.core.(csr := csr.(deviceMip := Merge(csr.deviceMip, pending, mask))))
    case Dma(offset, bytes) => WriteRam(h, offset, bytes)
    case Devices(dev) => h.(dev := dev)
  }

  function Interrupted(h: Hart): (h': Hart)
    ensures h'.disciplined == h.disciplined
  {
    match PendingInterrupt(h.core)
    case None => h
    case Some(i) => WithCore(h, TakeInterrupt(h.core, i))
  }

  /** One turn of the machine loop: an outside event, a pending interrupt, a step. */
  function Turn(p: Platform, h: Hart, e: Event): (h': Hart)
    ensures h'.disciplined ==> h.disciplined
  {
    Step(p, Interrupted(Receive(h, e)))
  }

  function Run(p: Platform, h: Hart, events: seq<Event>): (h': Hart)
    ensures h'.disciplined ==> h.disciplined
    decreases |events|
  {
    hide Turn;
    if events == [] then h else Run(p, Turn(p, h, events[0]), events[1..])
  }

  /** Taking the pending interrupt, with Sv39 on, changes mode yet lands on the very pc it interrupts. */
  predicate SelfVectors(c: Core) {
    var i := PendingInterrupt(c);
    i.Some? &&
      var t := TakeInterrupt(c, i.value);
      t.pc == c.pc && t.mode != c.mode && c.csr.satp / 0x1000_0000_0000_0000 == 8
  }

  /** No interrupt of the run vectors to the pc it interrupts in another mode. */
  predicate NeverSelfVectors(p: Platform, h: Hart, events: seq<Event>)
    decreases |events|
  {
    events == [] ||
      (!SelfVectors(Receive(h, events[0]).core) && NeverSelfVectors(p, Turn(p, h, events[0]), events[1..]))
  }
}
