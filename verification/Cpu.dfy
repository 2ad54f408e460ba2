/**
 The hart as built: architectural state, RAM and devices, with the TLB, the
 one-entry fetch memo and the decoded-block cache in front of them. Each method
 is proved against the reference hart's function of the same purpose.
 */
module CachedCpu {
  import opened Bytes
  import opened Trap
  import opened Isa
  import opened Sv39
  import opened GuestRam
  import opened TlbMmu
  import opened BlockCache
  import opened CsrFiles
  import opened Cores
  import opened Harts
  import opened CacheLaws

  class Cpu {
    const p: Platform
    const ram: Ram
    const mmu: Mmu
    const cache: DecodeCache
    var core: Core
    var dev: nat
    var memo: Option<FetchTranslation>

    /** What holds whatever the guest does: the block cache never misquotes RAM. */
    ghost predicate Valid()
      reads this, ram, mmu, mmu.tlb, cache, cache.blocks, cache.nextVictim
    {
      && ram.Valid() && mmu.Valid() && cache.Valid()
      && (memo.Some? ==> memo.value.mmuGeneration <= mmu.generation)
      && BlockCache.Coherent(cache.blocks[..], ram.data, ram.generations, p.decode)
    }

    /** The hart is in the state of the reference hart `h`, and its translation caches agree with it. */
    ghost predicate Agrees(h: Hart)
      reads this, ram, mmu, mmu.tlb
    {
      && h.core == core && h.mem == ram.data && h.dev == dev
      && TlbAgrees(mmu.tlb[..], h) && MemoAgrees(memo, mmu.generation, h)
    }

    /** A hart starts with every cache empty, in agreement with the reference hart in the same state. */
    constructor (p: Platform, ram: Ram, core: Core, dev: nat)
      requires ram.Valid()
      ensures this.p == p && this.ram == ram && this.core == core && this.dev == dev
      ensures Valid() && Agrees(Hart(core, ram.data, dev, {}, {}, true)) && cache.active == None
      ensures forall s :: 0 <= s < BLOCK_SLOTS ==> cache.blocks[s].startPa == INVALID_PA
      ensures fresh(mmu) && fresh(mmu.tlb) && fresh(cache) && fresh(cache.blocks) && fresh(cache.nextVictim)
    {
      this.p, this.ram, this.core, this.dev, memo := p, ram, core, dev, None;
      mmu := new Mmu();
      cache := new DecodeCache();
    }

    // ----------------------------------------------------------------
    // Translation
    // ----------------------------------------------------------------

    method Translate(mode: Mode, acc: Access, va: u64, ghost h: Hart) returns (r: Result<nat>)
      requires Valid()
      modifies mmu.tlb, ram
      ensures Valid() && (r.Ok? ==> r.value % PAGE == va % PAGE)
      ensures Touched(old(ram.data), old(ram.generations), ram.data, ram.generations)
      ensures old(Agrees(h)) && Harts.Translate(h, mode, acc, va).h.disciplined ==>
        Agrees(Harts.Translate(h, mode, acc, va).h) && r == Harts.Translate(h, mode, acc, va).r
    {
      hide Sv39.Translate, Truthful, FetchTruthful, BlockCoherent, Tracked;
      ghost var blocks, mem, gens := cache.blocks[..], ram.data, ram.generations;
      ghost var agreed := Agrees(h);
      r := mmu.Translate(ram, core.ViewFor(mode), acc, va, h.stale);
      TrackedGrew(mem, gens, ram.data, ram.generations);
      WritesKeepCoherence(blocks, mem, gens, ram.data, ram.generations, p.decode);
      assert cache.blocks[..] == blocks;
      if !core.ViewFor(mode).Translated() {
        Untranslated(mem, core.ViewFor(mode), acc, va);
      }
      if agreed {
        WalkKeepsMemo(memo, mmu.generation, h, mode, acc, va);
      }
    }

    // ----------------------------------------------------------------
    // RAM and devices
    // ----------------------------------------------------------------

    method WriteRam(offset: nat, bytes: seq<byte>, ghost h: Hart) returns (ok: bool)
      requires Valid()
      modifies ram
      ensures Valid() && |ram.data| == |old(ram.data)|
      ensures ok <==> offset + |bytes| <= |old(ram.data)|
      ensures old(Agrees(h)) ==> Agrees(Harts.WriteRam(h, offset, bytes))
    {
      hide TlbAgrees, MemoAgrees, BlockCoherent, Tracked, Splice, WithData;
      ghost var mem, gens := ram.data, ram.generations;
      ghost var agreed := Agrees(h);
      ok := ram.WriteSlice(offset, bytes);
      WritesKeepCoherence(cache.blocks[..], mem, gens, ram.data, ram.generations, p.decode);
      if agreed && ok {
        DataWriteKeepsTlb(mmu.tlb[..], h, ram.data);
        DataWriteKeepsMemo(memo, mmu.generation, h, ram.data);
        WithDataFields(h, ram.data);
      }
    }

    method BusRead(addr: nat, size: nat, ghost h: Hart) returns (v: Option<nat>)
      requires Valid()
      modifies this`dev
      ensures Valid()
      ensures v.Some? && addr >= DRAM_BASE ==>
        InRam(ram.data, addr, size) && v.value == LeValue(ram.data[addr - DRAM_BASE..addr - DRAM_BASE + size])
      ensures old(Agrees(h)) ==>
        Agrees(Harts.BusRead(p, h, addr, size).0) && v == Harts.BusRead(p, h, addr, size).1
    {
      hide LeValue, TlbMmu.Coherent, FetchTruthful, Radix;
      if addr >= DRAM_BASE {
        var ok, w := ram.Read(addr - DRAM_BASE, size);
        v := if ok then Some(w) else None;
      } else {
        var (dev', w) := p.mmioRead(dev, addr, size);
        dev := dev';
        v := if w.Some? then Some(w.value % Radix(size)) else None;
      }
    }

    method BusWrite(addr: nat, val: u64, size: nat, ghost h: Hart) returns (ok: bool)
      requires Valid()
      modifies this`dev, ram
      ensures Valid() && |ram.data| == |old(ram.data)|
      ensures old(Agrees(h)) ==>
        Agrees(Harts.BusWrite(p, h, addr, val, size).0) && ok == Harts.BusWrite(p, h, addr, val, size).1
    {
      hide LeBytes, TlbMmu.Coherent, FetchTruthful, BlockCoherent, Harts.WriteRam;
      if addr >= DRAM_BASE {
        ok := WriteRam(addr - DRAM_BASE, LeBytes(val, size), h);
      } else {
        var (dev', accepted, dma) := p.mmioWrite(dev, ram.data, addr, val, size);
        ok := accepted;
        ghost var agreed, g := Agrees(h), h.(dev := dev');
        dev := dev';
        for i := 0 to |dma|
          invariant Valid() && |ram.data| == |old(ram.data)| && dev == dev'
          invariant agreed ==> Agrees(g) && ApplyDma(h.(dev := dev'), dma) == ApplyDma(g, dma[i..])
        {
          var _ := WriteRam(dma[i].0, dma[i].1, g);
          g := Harts.WriteRam(g, dma[i].0, dma[i].1);
          assert dma[i..][1..] == dma[i + 1..];
        }
      }
    }

    // ----------------------------------------------------------------
    // Loads and stores
    // ----------------------------------------------------------------

    /** Resolve every byte of a split access, taking any fault, before touching the bus. */
    method TranslateBytes(mode: Mode, acc: Access, va: u64, size: Size, ghost h: Hart) returns (r: Result<seq<nat>>)
      requires Valid()
      modifies mmu.tlb, ram
      ensures Valid() && (r.Ok? ==> |r.value| == size)
      ensures var o := Harts.TranslateBytes(h, mode, acc, va, size, []);
        old(Agrees(h)) && o.h.disciplined ==> Agrees(o.h) && r == o.r
    {
      hide Agrees, Valid, Harts.Translate, Harts.TranslateBytes;
      ghost var o := Harts.TranslateBytes(h, mode, acc, va, size, []);
      ghost var trusted, g := Agrees(h) && o.h.disciplined, h;
      var pas: seq<nat> := [];
      while |pas| < size
        invariant |pas| <= size && Valid()
        invariant trusted ==> Agrees(g) && o == Harts.TranslateBytes(g, mode, acc, va, size, pas)
      {
        BytesUnroll(g, mode, acc, va, size, pas);
        if va + |pas| >= TWO_64 {
          return Err(PageFault(acc, va));
        }
        ghost var t := Harts.Translate(g, mode, acc, va + |pas|);
        var b := Translate(mode, acc, va + |pas|, g);
        if b.Err? {
          return Err(b.error);
        }
        pas, g := pas + [b.value], t.h;
      }
      BytesUnroll(g, mode, acc, va, size, pas);
      r := Ok(pas);
    }

    method ReadBytes(pas: seq<nat>, va: u64, ghost h: Hart) returns (r: Result<nat>)
      requires Valid()
      modifies this`dev
      ensures Valid()
      ensures var o := Harts.ReadBytes(p, h, pas, va, []);
        old(Agrees(h)) ==> Agrees(o.h) && r == o.r
    {
      hide Agrees, Valid, Harts.BusRead, LeValue;
      ghost var o := Harts.ReadBytes(p, h, pas, va, []);
      ghost var trusted, g := Agrees(h), h;
      var got: seq<byte> := [];
      while |got| < |pas|
        invariant |got| <= |pas| && Valid()
        invariant trusted ==> Agrees(g) && o == Harts.ReadBytes(p, g, pas, va, got)
      {
        ghost var n := Harts.BusRead(p, g, pas[|got|], 1);
        var b := BusRead(pas[|got|], 1, g);
        if b == None {
          return Err(LoadAccessFault(va));
        }
        got, g := got + [b.value % 256], n.0;
      }
      r := Ok(LeValue(got));
    }

    method WriteBytes(pas: seq<nat>, va: u64, bytes: seq<byte>, ghost h: Hart) returns (r: Result<()>)
      requires Valid() && |bytes| == |pas|
      modifies this`dev, ram
      ensures Valid()
      ensures var o := Harts.WriteBytes(p, h, pas, va, bytes, 0);
        old(Agrees(h)) ==> Agrees(o.h) && r == o.r
    {
      hide Agrees, Valid, Harts.BusWrite;
      ghost var o := Harts.WriteBytes(p, h, pas, va, bytes, 0);
      ghost var trusted, g := Agrees(h), h;
      for i := 0 to |pas|
        invariant Valid()
        invariant trusted ==> Agrees(g) && o == Harts.WriteBytes(p, g, pas, va, bytes, i)
      {
        ghost var n := Harts.BusWrite(p, g, pas[i], bytes[i], 1);
        var ok := BusWrite(pas[i], bytes[i], 1, g);
        if !ok {
          return Err(StoreAccessFault(va));
        }
        g := n.0;
      }
      r := Ok(());
    }

    method LoadValue(va: u64, size: Size, ghost h: Hart) returns (r: Result<nat>)
      requires Valid()
      modifies this`dev, mmu.tlb, ram
      ensures Valid()
      ensures var o := Harts.LoadValue(p, h, va, size);
        old(Agrees(h)) && o.h.disciplined ==> Agrees(o.h) && r == o.r
    {
      hide Valid, Harts.Translate, Harts.TranslateBytes, Harts.ReadBytes, Harts.BusRead, TlbAgrees, MemoAgrees;
      var mode := core.DataMode();
      if CrossesPage(va, size) {
        ghost var t := Harts.TranslateBytes(h, mode, Access.Load, va, size, []);
        var pas := TranslateBytes(mode, Access.Load, va, size, h);
        if pas.Err? {
          return Err(pas.error);
        }
        r := ReadBytes(pas.value, va, t.h);
      } else {
        ghost var t := Harts.Translate(h, mode, Access.Load, va);
        r := Translate(mode, Access.Load, va, h);
        if r.Err? {
          return;
        }
        var v := BusRead(r.value, size, t.h);
        r := if v.Some? then Ok(v.value) else Err(LoadAccessFault(va));
      }
    }

    /** Replace the core; the mapping stays as it was. */
    method SetCore(c: Core, ghost h: Hart)
      requires Valid() && c.csr.satp == core.csr.satp
      modifies this`core
      ensures Valid() && core == c
      ensures old(Agrees(h)) ==> Agrees(WithCore(h, c))
    {
      hide TlbAgrees, MemoAgrees, BlockCache.Coherent;
      ghost var agreed := Agrees(h);
      core := c;
      if agreed {
        CoreKeepsTranslations(mmu.tlb[..], memo, mmu.generation, h, c);
      }
    }

    method StoreValue(va: u64, val: u64, size: Size, ghost h: Hart) returns (r: Result<()>)
      requires Valid()
      modifies this`dev, this`core, mmu.tlb, ram
      ensures Valid() && core == old(core).(reservation := None)
      ensures var o := Harts.StoreValue(p, h, va, val, size);
        old(Agrees(h)) && o.h.disciplined ==> Agrees(o.h) && r == o.r
    {
      hide Valid, Harts.Translate, Harts.TranslateBytes, Harts.WriteBytes, Harts.BusWrite, TlbAgrees, MemoAgrees, LeBytes;
      SetCore(core.(reservation := None), h);
      ghost var g := WithCore(h, core);
      var mode := core.DataMode();
      if CrossesPage(va, size) {
        ghost var t := Harts.TranslateBytes(g, mode, Access.Store, va, size, []);
        var pas := TranslateBytes(mode, Access.Store, va, size, g);
        if pas.Err? {
          return Err(pas.error);
        }
        if exists i :: 0 <= i < size && !Accessible(pas.value[i], 1) {
          return Err(StoreAccessFault(va));
        }
        r := WriteBytes(pas.value, va, LeBytes(val, size), t.h);
      } else {
        ghost var t := Harts.Translate(g, mode, Access.Store, va);
        var pa := Translate(mode, Access.Store, va, g);
        if pa.Err? {
          return Err(pa.error);
        }
        var ok := BusWrite(pa.value, val, size, t.h);
        r := if ok then Ok(()) else Err(StoreAccessFault(va));
      }
    }

    predicate Accessible(addr: nat, size: nat)
      reads this, ram
    {
      if addr >= DRAM_BASE then addr + size <= DRAM_BASE + |ram.data| else p.mmioWritable(addr, size)
    }

    method TranslateAmo(va: u64, size: Size, store: bool, ghost h: Hart) returns (r: Result<nat>)
      requires Valid()
      modifies mmu.tlb, ram
      ensures Valid()
      ensures var o := Harts.TranslateAmo(h, va, size, store);
        old(Agrees(h)) && o.h.disciplined ==> Agrees(o.h) && r == o.r
    {
      hide Valid, Harts.Translate, TlbAgrees, MemoAgrees;
      var acc := if store then Access.Store else Access.Load;
      if va % size != 0 {
        return Err(AccessFault(acc, va));
      }
      r := Translate(core.DataMode(), acc, va, h);
    }

    method ExecuteLoad(rd: Reg, va: u64, size: Size, signed: bool, ghost h: Hart) returns (r: Result<()>)
      requires Valid()
      modifies this`dev, this`core, mmu.tlb, ram
      ensures Valid() && core == old(core).(regs := core.regs)
      ensures var o := Harts.ExecuteLoad(p, h, rd, va, size, signed);
        old(Agrees(h)) && o.h.disciplined ==> Agrees(o.h) && r == o.r
    {
      hide Valid, Harts.LoadValue, SignExtend, Core.SetReg, TlbAgrees, MemoAgrees;
      ghost var o := Harts.LoadValue(p, h, va, size);
      var v := LoadValue(va, size, h);
      if v.Err? {
        return Err(v.error);
      }
      SetCore(core.SetReg(rd, if signed then SignExtend(v.value, size) else v.value), o.h);
      r := Ok(());
    }

    method ExecuteLr(rd: Reg, va: u64, size: Size, ghost h: Hart) returns (r: Result<()>)
      requires Valid()
      modifies this`dev, this`core, mmu.tlb, ram
      ensures Valid() && core == old(core).(regs := core.regs, reservation := core.reservation)
      ensures var o := Harts.ExecuteLr(p, h, rd, va, size);
        old(Agrees(h)) && o.h.disciplined ==> Agrees(o.h) && r == o.r
    {
      hide Valid, Harts.TranslateAmo, Harts.BusRead, SignExtend, Core.SetReg, TlbAgrees, MemoAgrees;
      ghost var t := Harts.TranslateAmo(h, va, size, false);
      var pa := TranslateAmo(va, size, false, h);
      if pa.Err? {
        return Err(pa.error);
      }
      ghost var n := Harts.BusRead(p, t.h, pa.value, size);
      var v := BusRead(pa.value, size, t.h);
      if v == None {
        return Err(LoadAccessFault(va));
      }
      SetCore(core.SetReg(rd, SignExtend(v.value, size)).(reservation := Some(pa.value)), n.0);
      r := Ok(());
    }

    method ExecuteSc(rd: Reg, va: u64, val: u64, size: Size, ghost h: Hart) returns (r: Result<()>)
      requires Valid()
      modifies this`dev, this`core, mmu.tlb, ram
      ensures Valid() && core == old(core).(regs := core.regs, reservation := core.reservation)
      ensures var o := Harts.ExecuteSc(p, h, rd, va, val, size);
        old(Agrees(h)) && o.h.disciplined ==> Agrees(o.h) && r == o.r
    {
      hide Valid, Harts.TranslateAmo, Harts.BusWrite, Core.SetReg, TlbAgrees, MemoAgrees;
      var saved := core.reservation;
      ghost var t := Harts.TranslateAmo(h, va, size, true);
      var pa := TranslateAmo(va, size, true, h);
      if pa.Err? {
        return Err(pa.error);
      }
      if !Accessible(pa.value, size) {
        return Err(StoreAccessFault(va));
      }
      SetCore(core.(reservation := None), t.h);
      ghost var g := WithCore(t.h, core);
      r := Ok(());
      if saved == Some(pa.value) {
        ghost var w := Harts.BusWrite(p, g, pa.value, val, size);
        var ok := BusWrite(pa.value, val, size, g);
        if !ok {
          return Err(StoreAccessFault(va));
        }
        SetCore(core.SetReg(rd, 0), w.0);
      } else {
        SetCore(core.SetReg(rd, 1), g);
      }
    }

    method ExecuteAmo(f: nat, rd: Reg, va: u64, val: u64, size: Size, ghost h: Hart) returns (r: Result<()>)
      requires Valid()
      modifies this`dev, this`core, mmu.tlb, ram
      ensures Valid() && core == old(core).(regs := core.regs, reservation := core.reservation)
      ensures var o := Harts.ExecuteAmo(p, h, f, rd, va, val, size);
        old(Agrees(h)) && o.h.disciplined ==> Agrees(o.h) && r == o.r
    {
      hide Valid, Harts.TranslateAmo, Harts.BusRead, Harts.BusWrite, SignExtend, Core.SetReg, TlbAgrees, MemoAgrees;
      SetCore(core.(reservation := None), h);
      ghost var g := WithCore(h, core);
      ghost var t := Harts.TranslateAmo(g, va, size, true);
      var pa := TranslateAmo(va, size, true, g);
      if pa.Err? {
        return Err(pa.error);
      }
      ghost var n := Harts.BusRead(p, t.h, pa.value, size);
      var v := BusRead(pa.value, size, t.h);
      if v == None {
        return Err(StoreAccessFault(va));
      }
      var new_ := p.units.amo(f, v.value % TWO_64, val);
      ghost var w := Harts.BusWrite(p, n.0, pa.value, new_, size);
      var ok := BusWrite(pa.value, new_, size, n.0);
      if !ok {
        return Err(StoreAccessFault(va));
      }
      SetCore(core.SetReg(rd, SignExtend(v.value, size)), w.0);
      r := Ok(());
    }

    method ExecuteMemory(op: Op, ghost h: Hart) returns (r: Result<()>)
      requires Valid() && TouchesMemory(op)
      modifies this`dev, this`core, mmu.tlb, ram
      ensures Valid() && core == old(core).(regs := core.regs, reservation := core.reservation)
      ensures var o := Harts.ExecuteMemory(p, h, op);
        old(Agrees(h)) && o.h.disciplined ==> Agrees(o.h) && r == o.r
    {
      hide Valid, Harts.ExecuteLoad, Harts.StoreValue, Harts.ExecuteLr, Harts.ExecuteSc, Harts.ExecuteAmo;
      hide TlbAgrees, MemoAgrees, Core.Reg;
      match op {
        case Load(rd, rs1, imm, size, signed) =>
          r := ExecuteLoad(rd, (core.Reg(rs1) + imm) % TWO_64, size, signed, h);
        case Store(rs1, rs2, imm, size) =>
          r := StoreValue((core.Reg(rs1) + imm) % TWO_64, core.Reg(rs2), size, h);
        case Lr(rd, rs1, size) =>
          r := ExecuteLr(rd, core.Reg(rs1), size, h);
        case Sc(rd, rs1, rs2, size) =>
          r := ExecuteSc(rd, core.Reg(rs1), core.Reg(rs2), size, h);
        case Amo(f, rd, rs1, rs2, size) =>
          r := ExecuteAmo(f, rd, core.Reg(rs1), core.Reg(rs2), size, h);
      }
    }

    // ----------------------------------------------------------------
    // Instruction fetch
    // ----------------------------------------------------------------

    /** Translate the pc for a fetch, through the memo; a success leaves the memo on this page. */
    method TranslateFetch(ghost h: Hart) returns (r: Result<nat>)
      requires Valid()
      modifies this`memo, mmu.tlb, ram
      ensures Valid()
      ensures Touched(old(ram.data), old(ram.generations), ram.data, ram.generations)
      ensures r.Ok? ==>
        && r.value % PAGE == core.pc % PAGE
        && memo == Some(FetchTranslation(core.pc / PAGE, r.value / PAGE, core.mode, mmu.generation))
      ensures var o := Harts.Translate(h, core.mode, Fetch, core.pc);
        old(Agrees(h)) && o.h.disciplined ==> Agrees(o.h) && r == o.r
    {
      hide Harts.Translate, TlbAgrees, MemoAgrees, BlockCache.Coherent;
      if memo.Some? && memo.value.vpn == core.pc / PAGE && memo.value.mode == core.mode
         && memo.value.mmuGeneration == mmu.generation {
        if Agrees(h) { MemoHit(memo.value, mmu.generation, h, core.pc); }
        OffsetKept(memo.value.frame, core.pc);
        return Ok(memo.value.frame * PAGE + core.pc % PAGE);
      }
      ghost var o := Harts.Translate(h, core.mode, Fetch, core.pc);
      ghost var trusted := Agrees(h) && o.h.disciplined;
      r := Translate(core.mode, Fetch, core.pc, h);
      if r.Err? {
        return;
      }
      memo := Some(FetchTranslation(core.pc / PAGE, r.value / PAGE, core.mode, mmu.generation));
      if trusted { MemoFill(h, core.pc, mmu.generation, r.value); }
    }

    /** The RAM page of a physical address, with its generation. */
    function RamPage(pa: nat): (g: Option<(nat, nat)>)
      requires ram.Valid()
      reads this, ram
    {
      if DRAM_BASE <= pa < DRAM_BASE + |ram.data|
      then Some(((pa - DRAM_BASE) / PAGE, ram.generations[(pa - DRAM_BASE) / PAGE])) else None
    }

    /** Read the window at `pa`; `page` is given when it may be cached. */
    method FetchWindow(pa: nat, ghost h: Hart) returns (r: Result<nat>, page: Option<(nat, nat)>)
      requires Valid() && pa % PAGE == core.pc % PAGE && core.pc % 2 == 0
      modifies this`dev, mmu.tlb, ram
      ensures Valid()
      ensures Touched(old(ram.data), old(ram.generations), ram.data, ram.generations)
      ensures r.Ok? && page.Some? ==> page == RamPage(pa)
      ensures r.Ok? ==> (page.Some? <==> HoldsInstruction(ram.data, pa, r.value))
      ensures var o := Harts.FetchWindow(p, h, pa);
        old(Agrees(h)) && o.h.disciplined ==> Agrees(o.h) && r == o.r
    {
      hide Harts.FetchUpper, Harts.BusRead, TlbAgrees, MemoAgrees, BlockCache.Coherent, LeValue;
      page := None;
      ghost var n := Harts.BusRead(p, h, pa, 2);
      var low := BusRead(pa, 2, h);
      if low == None {
        return Err(InstructionAccessFault(core.pc)), None;
      }
      EvenInPage(core.pc, pa);
      if low.value % 4 != 3 {
        return Ok(low.value), RamPage(pa);
      }
      r, page := FetchUpper(pa, low.value, n.0);
    }

    /** The upper half may need a translation of the next page, and then the window is not cached. */
    method FetchUpper(pa: nat, low: nat, ghost h: Hart) returns (r: Result<nat>, page: Option<(nat, nat)>)
      requires Valid() && pa % PAGE == core.pc % PAGE && core.pc % 2 == 0 && pa % 2 == 0 && low % 4 == 3
      requires pa >= DRAM_BASE ==>
        InRam(ram.data, pa, 2) && low == LeValue(ram.data[pa - DRAM_BASE..pa - DRAM_BASE + 2])
      modifies this`dev, mmu.tlb, ram
      ensures Valid()
      ensures Touched(old(ram.data), old(ram.generations), ram.data, ram.generations)
      ensures r.Ok? && page.Some? ==> page == RamPage(pa)
      ensures r.Ok? ==> (page.Some? <==> HoldsInstruction(ram.data, pa, r.value))
      ensures var o := Harts.FetchUpper(p, h, pa, low);
        old(Agrees(h)) && o.h.disciplined ==> Agrees(o.h) && r == o.r
    {
      hide Harts.Translate, Harts.BusRead, TlbAgrees, MemoAgrees, BlockCache.Coherent, LeValue, HoldsInstruction;
      page := None;
      if (core.pc + 2) % TWO_64 % PAGE == 0 {
        r := UpperNextPage(pa, low, h);
      } else {
        r, page := UpperInPage(pa, low, h);
      }
    }

    method UpperNextPage(pa: nat, low: nat, ghost h: Hart) returns (r: Result<nat>)
      requires Valid() && pa % PAGE == core.pc % PAGE && (core.pc + 2) % TWO_64 % PAGE == 0 && low % 4 == 3
      modifies this`dev, mmu.tlb, ram
      ensures Valid()
      ensures Touched(old(ram.data), old(ram.generations), ram.data, ram.generations)
      ensures r.Ok? ==> !HoldsInstruction(ram.data, pa, r.value)
      ensures var o := Harts.FetchUpper(p, h, pa, low);
        old(Agrees(h)) && o.h.disciplined ==> Agrees(o.h) && r == o.r
    {
      hide Harts.Translate, Harts.BusRead, TlbAgrees, MemoAgrees, BlockCache.Coherent, LeValue, HoldsInstruction, Touched;
      var pc2 := (core.pc + 2) % TWO_64;
      ghost var t := Harts.Translate(h, core.mode, Fetch, pc2);
      var pa2 := Translate(core.mode, Fetch, pc2, h);
      if pa2.Err? {
        return Err(pa2.error);
      }
      var high := BusRead(pa2.value, 2, t.h);
      if high == None {
        return Err(InstructionAccessFault(pc2));
      }
      r := Ok(low + 0x1_0000 * high.value);
      HeldWindow(ram.data, pa, r.value);
      LastHalf(core.pc, pa);
    }

    method UpperInPage(pa: nat, low: nat, ghost h: Hart) returns (r: Result<nat>, page: Option<(nat, nat)>)
      requires Valid() && pa % PAGE == core.pc % PAGE && pa % 2 == 0 && (core.pc + 2) % TWO_64 % PAGE != 0
      requires low % 4 == 3
      requires pa >= DRAM_BASE ==>
        InRam(ram.data, pa, 2) && low == LeValue(ram.data[pa - DRAM_BASE..pa - DRAM_BASE + 2])
      modifies this`dev
      ensures Valid()
      ensures r.Ok? && page.Some? ==> page == RamPage(pa)
      ensures r.Ok? ==> (page.Some? <==> HoldsInstruction(ram.data, pa, r.value))
      ensures var o := Harts.FetchUpper(p, h, pa, low);
        old(Agrees(h)) ==> Agrees(o.h) && r == o.r
    {
      hide Harts.Translate, Harts.BusRead, TlbAgrees, MemoAgrees, Valid, LeValue, HoldsInstruction;
      assert ram.Valid() by { ValidRam(); }
      page := None;
      var high := BusRead(pa + 2, 2, h);
      if high == None {
        return Err(InstructionAccessFault((core.pc + 2) % TWO_64)), None;
      }
      r := Ok(low + 0x1_0000 * high.value);
      HeldWindow(ram.data, pa, r.value);
      InOnePage(core.pc, pa);
      if RamPage(pa) == RamPage(pa + 2) && core.pc / PAGE == (core.pc + 2) % TWO_64 / PAGE {
        page := RamPage(pa);
        if page.Some? {
          HoldsLong(ram.data, pa, low, high.value);
        }
      }
    }

    lemma ValidRam()
      requires Valid()
      ensures ram.Valid()
    {
    }

    /** If the active block goes on at the present pc, the memo vouches for its physical address. */
    ghost predicate ActiveCovered()
      requires cache.Valid()
      reads this, mmu, ram, cache, cache.blocks, cache.nextVictim
    {
      cache.Continues(core.pc, ram.generations) ==>
        Covers(memo, mmu.generation, core, core.pc, cache.active.value.expectedPa)
    }

    /** The reference fetches without writing memory and without using a stale page. */
    ghost predicate Undisturbed(h: Hart)
    {
      var t, o := Harts.Translate(h, h.core.mode, Fetch, h.core.pc), Harts.FetchInstruction(p, h);
      o.h.disciplined && t.h.mem == h.mem && o.h.mem == h.mem
    }

    /** The reference fetches an instruction that lies in one RAM page. */
    ghost predicate Cacheable(h: Hart)
    {
      var t, o := Harts.Translate(h, h.core.mode, Fetch, h.core.pc), Harts.FetchInstruction(p, h);
      t.r.Ok? && o.r.Ok? && HoldsInstruction(h.mem, t.r.value, o.r.value.0)
    }

    /**
     Fetch through all three caches: continue the active block, else translate
     and look up a block by physical address, else read, decode and insert.
     */
    method FetchInstruction(ghost h: Hart) returns (r: Result<(nat, Op)>, location: Option<CacheLocation>)
      requires Valid()
      modifies this`memo, this`dev, mmu.tlb, ram, cache`active, cache.blocks, cache.nextVictim
      ensures Valid() && cache.active == None
      ensures location.Some? ==>
        && location.value.slot < BLOCK_SLOTS && location.value.index < MAX_BLOCK_INSTRUCTIONS
        && location.value.instruction.pa < DRAM_BASE + MAX_RAM
        && r == Ok((location.value.instruction.raw, location.value.instruction.op))
      ensures old(cache.Continues(core.pc, ram.generations)) ==>
        && location.Some? && location.value.instruction.pa == old(cache.active).value.expectedPa
        && old(cache.blocks[cache.active.value.slot].instructions[cache.active.value.index]) == Some(location.value.instruction)
      ensures location.Some? && ram.generations == old(ram.generations) ==>
        Fetched(old(cache.blocks[..]), old(cache.active), core.pc, ram.generations, cache.blocks[..], location.value)
      ensures old(Agrees(h)) && old(ActiveCovered()) && Undisturbed(h) ==>
        ram.generations == old(ram.generations) && (Cacheable(h) ==> location.Some?)
      ensures var o := Harts.FetchInstruction(p, h);
        old(Agrees(h)) && old(ActiveCovered()) && o.h.disciplined ==>
          && Agrees(o.h) && r == o.r
          && (location.Some? ==> Harts.Translate(h, core.mode, Fetch, core.pc).r == Ok(location.value.instruction.pa))
          && (location.Some? ==> Covers(memo, mmu.generation, core, core.pc, location.value.instruction.pa))
    {
      hide TlbAgrees, MemoAgrees, Faithful, Covers, Harts.Translate, Harts.FetchWindow, BlockCoherent, HoldsInstruction;
      ghost var o := Harts.FetchInstruction(p, h);
      ghost var trusted := Agrees(h) && ActiveCovered() && o.h.disciplined;
      var a := cache.LookupActive(core.pc, ram, p.decode);
      if a.ActiveHit? {
        var i := a.location.instruction;
        HeldInRam(ram.data, i, cache.blocks[a.location.slot].ramPage, p.decode);
        if trusted {
          CoveredInstruction(p, memo, mmu.generation, h, i, cache.blocks[a.location.slot].ramPage);
        }
        return Ok((i.raw, i.op)), Some(a.location);
      }
      if core.pc % 2 != 0 {
        return Err(InstructionAddressMisaligned(core.pc)), None;
      }
      r, location := FetchPhysical(a, h);
    }

    /** The part of a fetch that needs a translation; `a` says whether a block is being grown. */
    method FetchPhysical(a: ActiveLookup, ghost h: Hart) returns (r: Result<(nat, Op)>, location: Option<CacheLocation>)
      requires Valid() && core.pc % 2 == 0 && cache.active == None && (a.Append? ==> a.slot < BLOCK_SLOTS)
      modifies this`memo, this`dev, mmu.tlb, ram, cache.blocks, cache.nextVictim
      ensures Valid()
      ensures location.Some? ==>
        && location.value.slot < BLOCK_SLOTS && location.value.index < MAX_BLOCK_INSTRUCTIONS
        && location.value.instruction.pa < DRAM_BASE + MAX_RAM
        && r == Ok((location.value.instruction.raw, location.value.instruction.op))
      ensures Grew(old(ram.generations), ram.generations)
      ensures location.Some? && ram.generations == old(ram.generations) ==>
        Served(old(cache.blocks[..]), a, ram.generations, cache.blocks[..], location.value)
      ensures old(Agrees(h)) && Undisturbed(h) ==>
        ram.generations == old(ram.generations) && (Cacheable(h) ==> location.Some?)
      ensures var o := Harts.FetchInstruction(p, h);
        old(Agrees(h)) && o.h.disciplined ==>
          && Agrees(o.h) && r == o.r
          && (location.Some? ==> Harts.Translate(h, core.mode, Fetch, core.pc).r == Ok(location.value.instruction.pa))
          && (location.Some? ==> Covers(memo, mmu.generation, core, core.pc, location.value.instruction.pa))
    {
      hide TlbAgrees, MemoAgrees, Harts.Translate, Harts.DecodeAt, BlockCache.Coherent, HoldsInstruction, Served;
      location := None;
      ghost var t := Harts.Translate(h, core.mode, Fetch, core.pc);
      var pa := TranslateFetch(h);
      if pa.Err? {
        return Err(pa.error), None;
      }
      EvenInPage(core.pc, pa.value);
      assert Covers(memo, mmu.generation, core, core.pc, pa.value);
      r, location := FetchAt(pa.value, a, t.h);
    }

    /** Find the instruction at `pa` in a block, else decode it. */
    method FetchAt(pa: nat, a: ActiveLookup, ghost h: Hart) returns (r: Result<(nat, Op)>, location: Option<CacheLocation>)
      requires Valid() && core.pc % 2 == 0 && cache.active == None && (a.Append? ==> a.slot < BLOCK_SLOTS)
      requires pa % PAGE == core.pc % PAGE && pa % 2 == 0
      modifies this`dev, mmu.tlb, ram, cache.blocks, cache.nextVictim
      ensures Valid()
      ensures location.Some? ==>
        && location.value.slot < BLOCK_SLOTS && location.value.index < MAX_BLOCK_INSTRUCTIONS
        && location.value.instruction.pa == pa < DRAM_BASE + MAX_RAM
        && r == Ok((location.value.instruction.raw, location.value.instruction.op))
      ensures Touched(old(ram.data), old(ram.generations), ram.data, ram.generations)
      ensures location.Some? && ram.generations == old(ram.generations) ==>
        Served(old(cache.blocks[..]), a, ram.generations, cache.blocks[..], location.value)
      ensures r.Ok? && HoldsInstruction(ram.data, pa, r.value.0) ==> location.Some?
      ensures var o := Harts.DecodeAt(p, h, pa);
        old(Agrees(h)) && o.h.disciplined ==> Agrees(o.h) && r == o.r
    {
      hide TlbAgrees, MemoAgrees, Harts.DecodeAt, BlockCoherent, HoldsInstruction;
      location := None;
      if !a.Append? {
        var l := cache.LookupPhysical(pa, ram, p.decode);
        if l.Hit? {
          var i := l.location.instruction;
          HeldInRam(ram.data, i, cache.blocks[l.location.slot].ramPage, p.decode);
          if Agrees(h) { HeldIsDecoded(p, h, pa, i.raw, i.op); }
          return Ok((i.raw, i.op)), Some(l.location);
        }
      }
      r, location := Decode(pa, a, h);
    }

    /** Read and decode at `pa`, and remember the instruction when it lies in one RAM page. */
    method Decode(pa: nat, a: ActiveLookup, ghost h: Hart) returns (r: Result<(nat, Op)>, location: Option<CacheLocation>)
      requires Valid() && core.pc % 2 == 0 && cache.active == None && (a.Append? ==> a.slot < BLOCK_SLOTS)
      requires pa % PAGE == core.pc % PAGE && pa % 2 == 0
      modifies this`dev, mmu.tlb, ram, cache.blocks, cache.nextVictim
      ensures Valid()
      ensures location.Some? ==>
        && location.value.slot < BLOCK_SLOTS && location.value.index < MAX_BLOCK_INSTRUCTIONS
        && location.value.instruction.pa == pa < DRAM_BASE + MAX_RAM
        && r == Ok((location.value.instruction.raw, location.value.instruction.op))
      ensures Touched(old(ram.data), old(ram.generations), ram.data, ram.generations)
      ensures location.Some? ==>
        Inserted(old(cache.blocks[..]), cache.blocks[..], ram.generations,
                 if a.Append? then Some((a.slot, a.index)) else None, location.value)
      ensures r.Ok? && HoldsInstruction(ram.data, pa, r.value.0) ==> location.Some?
      ensures var o := Harts.DecodeAt(p, h, pa);
        old(Agrees(h)) && o.h.disciplined ==> Agrees(o.h) && r == o.r
    {
      hide TlbAgrees, MemoAgrees, Harts.FetchWindow, BlockCoherent, HoldsInstruction;
      location := None;
      ghost var w := Harts.FetchWindow(p, h, pa);
      var raw, page := FetchWindow(pa, h);
      if raw.Err? {
        return Err(raw.error), None;
      }
      var op := p.decode(raw.value);
      if op == None {
        return Err(IllegalInstruction(raw.value)), None;
      }
      r := Ok((raw.value, op.value));
      if page.Some? {
        var l := cache.Insert(pa, page.value.0, page.value.1, CachedInstruction(pa, raw.value, op.value),
                              if a.Append? then Some((a.slot, a.index)) else None, ram, p.decode);
        HeldInRam(ram.data, l.instruction, page.value.0, p.decode);
        location := Some(l);
      }
    }

    // ----------------------------------------------------------------
    // One step
    // ----------------------------------------------------------------

    /** Flush the TLB and move to a core with a possibly different satp. */
    method FlushTo(c: Core, ghost h: Hart)
      requires Valid()
      modifies this`core, mmu, mmu.tlb
      ensures Valid() && core == c && cache.active == old(cache.active)
      ensures old(Agrees(h)) ==> Agrees(Fenced(WithCore(h, c), FlushTranslations))
    {
      hide TlbAgrees, MemoAgrees, BlockCache.Coherent;
      mmu.FlushAll();
      core := c;
      FlushAgrees(mmu.tlb[..], memo, mmu.generation, Fenced(WithCore(h, c), FlushTranslations));
    }

    method ExecuteRegister(raw: nat, op: Op, next: u64, ghost h: Hart) returns (r: Result<()>)
      requires Valid() && cache.active == None && !TouchesMemory(op)
      modifies this`core, mmu, mmu.tlb, cache, cache.blocks, cache.nextVictim
      ensures Valid() && cache.active == None
      ensures r.Ok? && !EndsBlock(op) ==>
        core.mode == old(core.mode) && core.csr.satp == old(core.csr.satp) && mmu.generation == old(mmu.generation)
      ensures !op.FenceI? ==> cache.blocks[..] == old(cache.blocks[..])
      ensures var o := Harts.ExecuteRegister(p, h, raw, op, next);
        old(Agrees(h)) && o.h.disciplined ==> Agrees(o.h) && r == o.r
    {
      hide TlbAgrees, MemoAgrees, BlockCache.Coherent, Execute, EndsBlock, Retire;
      var x := Execute(p.units, core, raw, op, next, p.mtime(dev));
      StraightLineKeepsMapping(p.units, core, raw, op, next, p.mtime(dev));
      if x.Raised? {
        return Err(x.e);
      }
      RetireFields(x.core, op, x.nextPc);
      var c := Retire(x.core, op, x.nextPc);
      if x.fence == FlushTranslations {
        FlushTo(c, h);
      } else {
        if x.fence == FlushBlocks {
          cache.Flush();
          EmptyIsCoherent(cache.blocks[..], ram.data, ram.generations, p.decode);
        }
        SetCore(c, h);
      }
      r := Ok(());
    }

    /** Move on to the next instruction and count this one. */
    method RetireTo(op: Op, next: u64, ghost h: Hart)
      requires Valid()
      modifies this`core
      ensures Valid() && core.mode == old(core.mode) && core.csr.satp == old(core.csr.satp)
      ensures old(Agrees(h)) ==> Agrees(WithCore(h, Retire(h.core, op, next)))
    {
      hide TlbAgrees, MemoAgrees, BlockCache.Coherent, Retire;
      RetireFields(core, op, next);
      SetCore(Retire(core, op, next), h);
    }

    /**
     Execute one instruction. An instruction after which a block may continue
     leaves mode, satp and the flush count alone.
     */
    method ExecuteInstruction(raw: nat, op: Op, ghost h: Hart) returns (r: Result<()>)
      requires Valid() && cache.active == None
      modifies this`core, this`dev, mmu, mmu.tlb, ram, cache, cache.blocks, cache.nextVictim
      ensures Valid() && cache.active == None
      ensures r.Ok? && !EndsBlock(op) ==>
        core.mode == old(core.mode) && core.csr.satp == old(core.csr.satp) && mmu.generation == old(mmu.generation)
      ensures !op.FenceI? ==> cache.blocks[..] == old(cache.blocks[..])
      ensures !TouchesMemory(op) ==> unchanged(ram)
      ensures var o := Harts.ExecuteInstruction(p, h, raw, op);
        old(Agrees(h)) && o.h.disciplined ==> Agrees(o.h) && r == o.r
    {
      hide TlbAgrees, MemoAgrees, BlockCache.Coherent, Valid, Harts.ExecuteMemory, Harts.ExecuteRegister, EndsBlock, Retire;
      var next := (core.pc + Length(raw)) % TWO_64;
      if TouchesMemory(op) {
        ghost var m := Harts.ExecuteMemory(p, h, op);
        r := ExecuteMemory(op, h);
        if r.Ok? {
          RetireTo(op, next, m.h);
          r := Ok(());
        }
      } else {
        r := ExecuteRegister(raw, op, next, h);
      }
    }

    /** Where a block continues to is vouched for by the memo. */
    ghost predicate ActiveArmed()
      reads this, mmu, cache
    {
      cache.active.Some? ==>
        && cache.active.value.expectedPc == core.pc
        && Covers(memo, mmu.generation, core, core.pc, cache.active.value.expectedPa)
    }

    /** What a step does to the block cache when its instruction came from there and touches no memory. */
    ghost predicate StepCached(at: CacheLocation, before: seq<DecodedBlock>, active: Option<ActiveInstruction>, pc: nat)
      requires cache.Valid()
      reads this, ram, cache, cache.blocks, cache.nextVictim
    {
      && Fetched(before, active, pc, ram.generations, cache.blocks[..], at)
      && cache.active == Armed(cache.blocks[..], at, pc, (pc + Length(at.instruction.raw)) % TWO_64, core.pc, ram.generations)
    }

    /** The reference's next instruction touches no memory and raises nothing. */
    ghost predicate Simple(h: Hart)
    {
      var f := Harts.FetchInstruction(p, h);
      && Undisturbed(h) && Cacheable(h) && !TouchesMemory(f.r.value.1) && !f.r.value.1.FenceI?
      && Harts.StepInner(p, h).r.Ok? && Harts.StepInner(p, h).h.disciplined
    }

    /** `at` is where in the block cache the instruction is. */
    method StepInner(ghost h: Hart) returns (r: Result<()>, ghost at: Option<CacheLocation>)
      requires Valid()
      modifies this, mmu, mmu.tlb, ram, cache, cache.blocks, cache.nextVictim
      ensures Valid() && (r.Err? ==> cache.active == None)
      ensures old(Agrees(h)) && old(ActiveCovered()) && Simple(h) ==>
        && at.Some? && ram.generations == old(ram.generations)
        && StepCached(at.value, old(cache.blocks[..]), old(cache.active), old(core.pc))
        && (at.value.instruction.raw, at.value.instruction.op) == Harts.FetchInstruction(p, h).r.value
        && Harts.Translate(h, h.core.mode, Fetch, h.core.pc).r == Ok(at.value.instruction.pa)
      ensures var o := Harts.StepInner(p, h);
        old(Agrees(h)) && old(ActiveCovered()) && o.h.disciplined ==>
          Agrees(o.h) && r == o.r && ActiveArmed()
    {
      hide TlbAgrees, MemoAgrees, BlockCache.Coherent, Harts.FetchInstruction, Harts.ExecuteInstruction, Covers, EndsBlock;
      hide Harts.Translate, Fetched, Armed, HoldsInstruction;
      ghost var o := Harts.StepInner(p, h);
      ghost var trusted := Agrees(h) && ActiveCovered() && o.h.disciplined;
      ghost var f := Harts.FetchInstruction(p, h);
      var pc := core.pc;
      at := None;
      var i, location := FetchInstruction(h);
      if i.Err? {
        return Err(i.error), None;
      }
      at := location;
      var (raw, op) := i.value;
      ghost var before := core;
      var next := (pc + Length(raw)) % TWO_64;
      r := ExecuteInstruction(raw, op, f.h);
      if r.Ok? && location.Some? {
        cache.FinishInstruction(location.value, pc, next, core.pc, ram);
        if trusted && cache.active.Some? {
          ArmedNext(cache.blocks[..], location.value, pc, next, core.pc, ram.generations);
          CoversNext(memo, mmu.generation, before, pc, location.value.instruction.pa, core, next, raw);
        }
      }
    }

    /** Replace the core by one with the same pc, mode and satp: a block may still continue. */
    method SetCoreInPlace(c: Core, ghost h: Hart)
      requires Valid() && c.csr.satp == core.csr.satp && c.mode == core.mode && c.pc == core.pc
      modifies this`core
      ensures Valid() && core == c
      ensures old(Agrees(h)) ==> Agrees(WithCore(h, c))
      ensures (old(ActiveArmed()) ==> ActiveArmed()) && (old(ActiveCovered()) ==> ActiveCovered())
    {
      hide Valid, Agrees, WithCore;
      SetCore(c, h);
    }

    /** One step, as the reference hart takes it; a waiting hart does nothing. */
    method Step(ghost h: Hart) returns (ghost at: Option<CacheLocation>)
      requires Valid()
      modifies this, mmu, mmu.tlb, ram, cache, cache.blocks, cache.nextVictim
      ensures Valid()
      ensures old(Agrees(h)) && old(ActiveCovered()) && !Waiting(h.core) && Simple(Awake(h)) ==>
        && at.Some? && ram.generations == old(ram.generations)
        && StepCached(at.value, old(cache.blocks[..]), old(cache.active), old(core.pc))
        && (at.value.instruction.raw, at.value.instruction.op) == Harts.FetchInstruction(p, Awake(h)).r.value
        && Harts.Translate(Awake(h), h.core.mode, Fetch, h.core.pc).r == Ok(at.value.instruction.pa)
      ensures var h' := Harts.Step(p, h);
        old(Agrees(h)) && old(ActiveCovered()) && old(Waiting(core) ==> ActiveArmed()) && h'.disciplined ==>
          Agrees(h') && ActiveArmed()
    {
      hide TlbAgrees, MemoAgrees, BlockCache.Coherent, Harts.StepInner, Covers, Waiting, Tick, TakeException;
      hide Harts.FetchInstruction, Undisturbed, Cacheable, Fetched, Armed;
      at := None;
      if Waiting(core) {
        return;
      }
      ghost var g := WithCore(h, core.(wfi := false));
      SetCoreInPlace(core.(wfi := false), h);
      ghost var o := Harts.StepInner(p, g);
      var r, l := StepInner(g);
      at := l;
      ghost var e := o.h;
      if r.Err? {
        TrapFields(core, r.error);
        e := WithCore(e, TakeException(core, r.error));
        SetCore(TakeException(core, r.error), o.h);
      }
      TickFields(core);
      SetCoreInPlace(Tick(core), e);
    }

    /** What the outside does between steps: interrupt lines, DMA, device state. */
    method Receive(e: Event, ghost h: Hart)
      requires Valid()
      modifies this`core, this`dev, ram
      ensures Valid()
      ensures old(Agrees(h)) ==> Agrees(Harts.Receive(h, e))
      ensures old(ActiveArmed()) ==> ActiveArmed()
      ensures core.pc == old(core.pc) && (!e.Dma? ==> unchanged(ram))
    {
      hide TlbAgrees, MemoAgrees, BlockCache.Coherent, Covers, Harts.WriteRam;
      match e {
        case Lines(mask, pending) =>
          SetCoreInPlace(core.(csr := core.csr.(deviceMip := Merge(core.csr.deviceMip, pending, mask))), h);
        case Dma(offset, bytes) =>
          var _ := WriteRam(offset, bytes, h);
        case Devices(d) =>
          ghost var agreed := Agrees(h);
          dev := d;
          if agreed {
            DevicesKeepTranslations(mmu.tlb[..], memo, mmu.generation, h, d);
          }
      }
    }

    /** The pending interrupt is misplaced for the active slot, and the slot's block goes on. */
    ghost predicate Strays()
      requires cache.Valid()
      reads this, ram, cache, cache.blocks, cache.nextVictim
    {
      && cache.Continues(core.pc, ram.generations) && PendingInterrupt(core).Some?
      && Misplaced(core, PendingInterrupt(core).value, cache.active.value.expectedPa)
    }

    /** Take the pending interrupt, if any. The block cache's active slot is left as it is. */
    method Interrupted(ghost h: Hart)
      requires Valid()
      modifies this`core
      ensures Valid()
      ensures old(Agrees(h)) ==> Agrees(Harts.Interrupted(h))
      ensures old(Agrees(h)) && old(ActiveArmed()) && !old(Strays()) ==>
        ActiveCovered() && (Waiting(core) ==> ActiveArmed())
    {
      hide TlbAgrees, MemoAgrees, BlockCache.Coherent, Covers, TakeInterrupt, PendingInterrupt, CsrFile.MipValue, Misplaced;
      var i := PendingInterrupt(core);
      if i.Some? {
        InterruptFields(core, i.value);
        ghost var agreed := Agrees(h) && ActiveArmed() && cache.Continues(core.pc, ram.generations) && !Strays();
        SetCore(TakeInterrupt(core, i.value), h);
        if agreed {
          InterruptKeepsCover(memo, mmu.generation, h, i.value, cache.active.value.expectedPa);
        }
      }
    }

    /**
     The fetch after an interrupt, through all three caches. It comes from the physical
     address the reference hart fetches from if and only if the interrupt does not stray;
     then all else agrees too. After one that strays it returns the active block's
     instruction; entering S-mode from U-mode, the reference takes a page fault instead.
     */
    method FetchAfterInterrupt(ghost h: Hart) returns (r: Result<(nat, Op)>, location: Option<CacheLocation>)
      requires Valid() && Agrees(h) && ActiveArmed() && PendingInterrupt(core).Some?
      requires Harts.FetchInstruction(p, Harts.Interrupted(h)).h.disciplined
      modifies this, mmu.tlb, ram, cache`active, cache.blocks, cache.nextVictim
      ensures Valid()
      ensures var g := Harts.Interrupted(h);
        (location.Some? ==> Harts.Translate(g, g.core.mode, Fetch, g.core.pc).r == Ok(location.value.instruction.pa))
        <==> !old(Strays())
      ensures var o := Harts.FetchInstruction(p, Harts.Interrupted(h));
        !old(Strays()) ==> r == o.r && Agrees(o.h)
      ensures old(Strays()) ==>
        && location.Some? && r == Ok((location.value.instruction.raw, location.value.instruction.op))
        && old(cache.blocks[cache.active.value.slot].instructions[cache.active.value.index]) == Some(location.value.instruction)
        && location.value.instruction.pa == old(cache.active.value.expectedPa)
      ensures var g := Harts.Interrupted(h);
        old(Strays()) && g.core.mode == Supervisor ==> Harts.FetchInstruction(p, g).r == Err(InstructionPageFault(g.core.pc))
    {
      hide TlbAgrees, MemoAgrees, BlockCache.Coherent, Covers, TakeInterrupt, PendingInterrupt, Harts.FetchInstruction;
      hide Misplaced, FetchesFresh, Harts.Translate, Undisturbed, Cacheable, Fetched;
      ghost var i := PendingInterrupt(core).value;
      ghost var strays := Strays();
      if strays {
        MisplacedHere(core, i, cache.active.value.expectedPa);
        assert core.pc % 2 == 0 by { CoveredIsEven(memo, mmu.generation, core, core.pc, cache.active.value.expectedPa); }
        DisciplinedIsFresh(p, Harts.Interrupted(h));
        ContinuationAfterInterrupt(memo, mmu.generation, h, i, cache.active.value.expectedPa);
        SupervisorVectorFaults(p, memo, mmu.generation, h, i, cache.active.value.expectedPa);
      }
      Interrupted(h);
      r, location := FetchInstruction(Harts.Interrupted(h));
    }

    /** One turn of the machine loop; `strayed` tells whether its interrupt did. */
    method Turn(e: Event, ghost h: Hart) returns (ghost strayed: bool)
      requires Valid()
      modifies this, mmu, mmu.tlb, ram, cache, cache.blocks, cache.nextVictim
      ensures Valid()
      ensures var h' := Harts.Turn(p, h, e);
        old(Agrees(h)) && old(ActiveArmed()) && h'.disciplined && !strayed ==>
          Agrees(h') && ActiveArmed()
      ensures old(Agrees(h)) && old(ActiveArmed()) && strayed ==> SelfVectors(Harts.Receive(h, e).core)
      ensures var c := Harts.Receive(h, e).core;
        old(Agrees(h)) && !e.Dma? ==>
          (strayed <==>
            && old(cache.Continues(core.pc, ram.generations)) && PendingInterrupt(c).Some?
            && Misplaced(c, PendingInterrupt(c).value, old(cache.active.value.expectedPa)))
    {
      hide Harts.Receive, Harts.Interrupted, Harts.Step, SelfVectors, Waiting, TlbAgrees, MemoAgrees, BlockCache.Coherent, Covers;
      hide Misplaced, PendingInterrupt;
      Receive(e, h);
      strayed := Strays();
      if Agrees(Harts.Receive(h, e)) && ActiveArmed() && strayed {
        MisplacedSelfVectors(memo, mmu.generation, Harts.Receive(h, e), cache.active.value.expectedPa);
      }
      Interrupted(Harts.Receive(h, e));
      ghost var _ := Step(Harts.Interrupted(Harts.Receive(h, e)));
    }

    /**
     Whole runs: from agreement, whatever the program, the devices and the
     events, the cached hart ends in the state of the cache-free hart -
     registers, pc, mode, CSRs, memory and devices - as long as no stale page
     was used before a flush and no interrupt strayed. None strays in a run in
     which no interrupt vectors to its own pc.
     */
    method Run(events: seq<Event>, ghost h: Hart) returns (ghost strayed: bool)
      requires Valid()
      modifies this, mmu, mmu.tlb, ram, cache, cache.blocks, cache.nextVictim
      ensures Valid()
      ensures var end := Harts.Run(p, h, events);
        old(Agrees(h)) && old(ActiveArmed()) && end.disciplined && !strayed ==>
          Agrees(end) && ActiveArmed()
      ensures old(Agrees(h)) && old(ActiveArmed()) && Harts.Run(p, h, events).disciplined && NeverSelfVectors(p, h, events) ==>
        !strayed
    {
      hide Valid, Agrees, ActiveArmed, Harts.Turn, SelfVectors, Harts.Receive;
      ghost var end := Harts.Run(p, h, events);
      ghost var trusted, g := Agrees(h) && ActiveArmed() && end.disciplined, h;
      strayed := false;
      for i := 0 to |events|
        invariant Valid()
        invariant trusted ==> end == Harts.Run(p, g, events[i..])
        invariant trusted && !strayed ==> Agrees(g) && ActiveArmed()
        invariant trusted && NeverSelfVectors(p, h, events) ==> !strayed && NeverSelfVectors(p, g, events[i..])
      {
        assert events[i..][0] == events[i] && events[i..][1..] == events[i + 1..];
        ghost var now := Turn(events[i], g);
        strayed := strayed || now;
        g := Harts.Turn(p, g, events[i]);
      }
    }

    /**
     Drop every cache, as after a snapshot restore: whatever the core, memory
     and generations have become, the hart agrees with the reference hart in
     the same state.
     */
    method InvalidateCaches()
      requires ram.Valid() && mmu.Valid() && cache.Valid()
      modifies this`memo, mmu, mmu.tlb, cache, cache.blocks, cache.nextVictim
      ensures Valid() && ActiveArmed()
      ensures Agrees(Hart(core, ram.data, dev, {}, {}, true))
    {
      mmu.FlushAll();
      cache.Flush();
      memo := None;
      EmptyIsCoherent(cache.blocks[..], ram.data, ram.generations, p.decode);
      FlushAgrees(mmu.tlb[..], memo, mmu.generation, Hart(core, ram.data, dev, {}, {}, true));
    }
  }
}
