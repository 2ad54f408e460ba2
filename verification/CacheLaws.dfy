/**
 Why the hart's translation caches may stand in for walks of the reference
 hart: what keeps a TLB and the one-entry fetch memo in agreement with it.
 */
module CacheLaws {
  import opened Bytes
  import opened Trap
  import opened Isa
  import opened Sv39
  import opened GuestRam
  import opened TlbMmu
  import opened BlockCache
  import opened CsrFiles
  import opened Cores
  import opened Harts

  /** The last instruction-fetch translation: page, frame, mode, and the flush count it was made under. */
  datatype FetchTranslation = FetchTranslation(vpn: nat, frame: nat, mode: Mode, mmuGeneration: nat)

  /** Live entries are of pages the reference has seen, and truthful unless stale. */
  ghost predicate TlbAgrees(tlb: seq<TlbEntry>, h: Hart) {
    && TlbMmu.Coherent(tlb, h.mem, h.core.csr.satp, h.stale)
    && forall i :: 0 <= i < |tlb| ==> tlb[i].vpn == INVALID || tlb[i].vpn in h.seen
  }

  predicate Sv39On(satp: nat, mode: Mode) {
    View(satp, mode, false, false, false).Translated()
  }

  /** Walking the memo's page for a fetch in the memo's mode gives its frame and writes nothing. */
  ghost predicate FetchTruthful(m: FetchTranslation, mem: Memory, satp: nat) {
    var r := Resolve(mem, satp, m.vpn);
    && Canonical(m.vpn * PAGE)
    && r.LeafAt?
    && var p := DecodePte(LeafWord(mem, satp, m.vpn));
       p.Permits(m.mode, false, false, Fetch) && p.a && m.frame == Frame(p.ppn, r.level, m.vpn)
  }

  ghost predicate MemoAgrees(memo: Option<FetchTranslation>, generation: nat, h: Hart) {
    memo.Some? && memo.value.mmuGeneration == generation ==>
      var m := memo.value;
      if Sv39On(h.core.csr.satp, m.mode)
      then m.vpn in h.seen && (m.vpn in h.stale || FetchTruthful(m, h.mem, h.core.csr.satp))
      else m.frame == m.vpn
  }

  // ------------------------------------------------------------------
  // Walks
  // ------------------------------------------------------------------

  lemma WalkKeepsMemo(memo: Option<FetchTranslation>, generation: nat, h: Hart, mode: Mode, acc: Access, va: nat)
    requires MemoAgrees(memo, generation, h)
    ensures MemoAgrees(memo, generation, Harts.Translate(h, mode, acc, va).h)
  {
    hide DecodePte, Marked, WordAt, WithWord, ResolveFrom, Frame, Sv39.Translate;
    if memo.Some? {
      var satp, vpn := h.core.csr.satp, memo.value.vpn;
      TranslateKeepsResolutions(h.mem, h.core.ViewFor(mode), acc, va, satp, vpn);
      if Resolve(h.mem, satp, vpn).LeafAt? {
        WordBound(h.mem, Resolve(h.mem, satp, vpn).pte);
        MarkedKeepsOtherBits(LeafWord(h.mem, satp, vpn), acc);
      }
    }
  }

  /** A memo that covers the pc answers as the reference's walk, which changes nothing. */
  lemma MemoHit(m: FetchTranslation, generation: nat, h: Hart, pc: u64)
    requires MemoAgrees(Some(m), generation, h) && m.mmuGeneration == generation
    requires m.mode == h.core.mode && m.vpn == pc / PAGE
    ensures var o := Harts.Translate(h, h.core.mode, Fetch, pc);
            o.h.disciplined ==> o == Outcome(h, Ok(m.frame * PAGE + pc % PAGE))
  {
    hide DecodePte, Marked, WordAt, WithWord, ResolveFrom, Frame;
    SameCanonicalPage(pc);
    if Sv39On(h.core.csr.satp, m.mode) && m.vpn !in h.stale {
      assert h.seen + {m.vpn} == h.seen;
    }
  }

  lemma SameCanonicalPage(va: u64)
    ensures Canonical(va) == Canonical(va / PAGE * PAGE)
  {
  }

  /** What a successful fetch translation leaves to remember. */
  lemma MemoFill(h: Hart, pc: u64, generation: nat, pa: nat)
    requires Harts.Translate(h, h.core.mode, Fetch, pc).r == Ok(pa)
    ensures var h' := Harts.Translate(h, h.core.mode, Fetch, pc).h;
            MemoAgrees(Some(FetchTranslation(pc / PAGE, pa / PAGE, h.core.mode, generation)), generation, h')
  {
    hide DecodePte, Marked, WordAt, WithWord, ResolveFrom, Frame;
    SameCanonicalPage(pc);
    var view := h.core.ViewFor(h.core.mode);
    if view.Translated() {
      var r := Resolve(h.mem, view.satp, pc / PAGE);
      TranslateKeepsResolutions(h.mem, view, Fetch, pc, view.satp, pc / PAGE);
      LeafIsLeaf(h.mem, Root(view.satp), pc / PAGE, 2);
      WordBound(h.mem, r.pte);
      MarkedKeepsOtherBits(WordAt(h.mem, r.pte), Fetch);
      WordAfterWrite(h.mem, r.pte, Marked(WordAt(h.mem, r.pte), Fetch), r.pte);
      OffsetKept(Frame(DecodePte(WordAt(h.mem, r.pte)).ppn, r.level, pc / PAGE), pc);
    }
  }

  // ------------------------------------------------------------------
  // Data writes
  // ------------------------------------------------------------------

  lemma DataWriteKeepsTlb(tlb: seq<TlbEntry>, h: Hart, mem: Memory)
    requires TlbAgrees(tlb, h)
    ensures TlbAgrees(tlb, WithData(h, mem))
  {
    hide DecodePte, WordAt, ResolveFrom, Frame;
    var g := WithData(h, mem);
    forall i | 0 <= i < |tlb| && tlb[i].vpn != INVALID && tlb[i].vpn !in g.stale
      ensures Truthful(tlb[i], mem, h.core.csr.satp)
    {
      assert SameWalk(h.mem, mem, h.core.csr.satp, tlb[i].vpn);
    }
  }

  lemma WithDataFields(h: Hart, mem: Memory)
    ensures var g := WithData(h, mem); g.core == h.core && g.dev == h.dev && g.mem == mem
  {
  }

  lemma DataWriteKeepsMemo(memo: Option<FetchTranslation>, generation: nat, h: Hart, mem: Memory)
    requires MemoAgrees(memo, generation, h)
    ensures MemoAgrees(memo, generation, WithData(h, mem))
  {
    hide DecodePte, WordAt, ResolveFrom, Frame;
    if memo.Some? && memo.value.vpn in h.seen && memo.value.vpn !in WithData(h, mem).stale {
      assert SameWalk(h.mem, mem, h.core.csr.satp, memo.value.vpn);
    }
  }

  // ------------------------------------------------------------------
  // Register changes
  // ------------------------------------------------------------------

  /** Nothing in the core but satp matters to the translation caches. */
  lemma CoreKeepsTranslations(tlb: seq<TlbEntry>, memo: Option<FetchTranslation>, generation: nat, h: Hart, core: Core)
    requires TlbAgrees(tlb, h) && MemoAgrees(memo, generation, h) && core.csr.satp == h.core.csr.satp
    ensures TlbAgrees(tlb, WithCore(h, core)) && MemoAgrees(memo, generation, WithCore(h, core))
  {
    hide TlbMmu.Coherent, FetchTruthful;
  }

  /** After a flush nothing cached is left to disagree. */
  lemma FlushAgrees(tlb: seq<TlbEntry>, memo: Option<FetchTranslation>, generation: nat, h: Hart)
    requires forall i :: 0 <= i < |tlb| ==> tlb[i].vpn == INVALID
    requires memo.Some? ==> memo.value.mmuGeneration < generation
    ensures TlbAgrees(tlb, h) && MemoAgrees(memo, generation, h)
  {
  }

  // ------------------------------------------------------------------
  // Cached instructions
  // ------------------------------------------------------------------

  /** An instruction RAM holds within a page is what the reference reads there, without a walk. */
  lemma HeldIsFetched(p: Platform, h: Hart, pa: nat, raw: nat)
    requires HoldsInstruction(h.mem, pa, raw) && pa % PAGE == h.core.pc % PAGE
    ensures FetchWindow(p, h, pa) == Outcome(h, Ok(raw))
  {
    hide LeValue, Harts.Translate;
    var pc, offset := h.core.pc, pa - DRAM_BASE;
    assert BusRead(p, h, pa, 2) == (h, Some(Half(h.mem, offset)));
    if Half(h.mem, offset) % 4 == 3 {
      UpperHalfInPage(pc, offset);
      assert BusRead(p, h, pa + 2, 2) == (h, Some(Half(h.mem, offset + 2)));
    }
  }

  lemma HeldIsDecoded(p: Platform, h: Hart, pa: nat, raw: nat, op: Op)
    requires HoldsInstruction(h.mem, pa, raw) && pa % PAGE == h.core.pc % PAGE && p.decode(raw) == Some(op)
    ensures DecodeAt(p, h, pa) == Outcome(h, Ok((raw, op)))
  {
    hide FetchWindow, HoldsInstruction;
    HeldIsFetched(p, h, pa, raw);
  }

  /** An instruction held in one page is wholly in RAM there. */
  lemma HeldWindow(mem: Memory, pa: nat, raw: nat)
    ensures HoldsInstruction(mem, pa, raw) ==>
              && DRAM_BASE <= pa < DRAM_BASE + |mem|
              && (raw % 4 == 3 ==>
                    && pa + 2 < DRAM_BASE + |mem| && pa % PAGE + 4 <= PAGE
                    && (pa - DRAM_BASE) / PAGE == (pa + 2 - DRAM_BASE) / PAGE)
  {
    hide LeValue;
  }

  lemma HoldsLong(mem: Memory, pa: nat, low: nat, high: nat)
    requires DRAM_BASE <= pa && pa % 2 == 0 && InRam(mem, pa, 4) && (pa - DRAM_BASE) % PAGE + 4 <= PAGE
    requires low % 4 == 3 && low == Half(mem, pa - DRAM_BASE) && high == Half(mem, pa - DRAM_BASE + 2)
    ensures HoldsInstruction(mem, pa, low + 0x1_0000 * high)
  {
    hide LeValue;
  }

  /** A window whose upper half is on the next page does not lie in one page. */
  lemma LastHalf(pc: u64, pa: nat)
    requires (pc + 2) % TWO_64 % PAGE == 0 && pa % PAGE == pc % PAGE
    ensures pa % PAGE + 4 > PAGE
  {
  }

  /** Any other window lies in one page, of the virtual and of the physical space. */
  lemma InOnePage(pc: u64, pa: nat)
    requires (pc + 2) % TWO_64 % PAGE != 0 && pa % PAGE == pc % PAGE && pa % 2 == 0
    ensures pc / PAGE == (pc + 2) % TWO_64 / PAGE
    ensures pa >= DRAM_BASE ==>
              (pa - DRAM_BASE) / PAGE == (pa + 2 - DRAM_BASE) / PAGE && (pa - DRAM_BASE) % PAGE + 4 <= PAGE
    ensures pa < DRAM_BASE ==> pa + 2 < DRAM_BASE
  {
    var o := pa % PAGE;
    assert o % 2 == 0 by { EvenInPageToo(pa); }
    assert o != PAGE - 2 by { LastHalfWraps(pc); }
    WithinPage(pc, o);
    WithinPage(pa, o);
    if pa >= DRAM_BASE {
      assert (pa - DRAM_BASE) % PAGE == o by { BaseIsAligned(pa); }
      WithinPage(pa - DRAM_BASE, o);
    }
  }

  lemma EvenInPageToo(pa: nat)
    requires pa % 2 == 0
    ensures pa % PAGE % 2 == 0
  {
  }

  /** The last half-word of a page is followed by the next page, or by address 0. */
  lemma LastHalfWraps(pc: u64)
    ensures pc % PAGE == PAGE - 2 ==> (pc + 2) % TWO_64 % PAGE == 0
  {
    if pc % PAGE == PAGE - 2 {
      assert pc + 2 == (pc / PAGE + 1) * PAGE;
    }
  }

  lemma BaseIsAligned(pa: nat)
    requires pa >= DRAM_BASE
    ensures (pa - DRAM_BASE) % PAGE == pa % PAGE
  {
  }

  /** Two bytes on, an address is still in its page. */
  lemma WithinPage(a: nat, o: nat)
    requires a % PAGE == o && o + 4 <= PAGE
    ensures (a + 2) / PAGE == a / PAGE && a + 2 < (a / PAGE + 1) * PAGE
    ensures a < TWO_64 ==> a + 2 < TWO_64
  {
    assert a == a / PAGE * PAGE + o;
  }

  lemma HeldInRam(mem: Memory, i: CachedInstruction, page: nat, decode: Decoder)
    requires Faithful(i, mem, page, decode)
    ensures i.pa < DRAM_BASE + |mem|
  {
  }

  lemma UpperHalfInPage(pc: u64, offset: nat)
    requires offset % PAGE + 4 <= PAGE && (offset + DRAM_BASE) % PAGE == pc % PAGE
    ensures (pc + 2) % TWO_64 % PAGE != 0
  {
    assert offset % PAGE == pc % PAGE;
    assert (pc + 2) % TWO_64 == pc + 2;
  }

  lemma EvenInPage(pc: u64, pa: nat)
    requires pc % 2 == 0 && pa % PAGE == pc % PAGE
    ensures pa % 2 == 0
  {
    assert pc == pc / PAGE * PAGE + pc % PAGE;
    assert pa == pa / PAGE * PAGE + pa % PAGE;
  }

  // ------------------------------------------------------------------
  // Continuing a block without a translation
  // ------------------------------------------------------------------

  /**
   The memo vouches that fetching at `pc` now means physical address `pa`: it is
   of this page, flush count and mode, or fetches are untranslated and the two
   addresses are one.
   */
  predicate Covers(memo: Option<FetchTranslation>, generation: nat, core: Core, pc: u64, pa: nat) {
    && pc % 2 == 0
    && memo.Some? && memo.value.mmuGeneration == generation
    && memo.value.vpn == pc / PAGE && pa == memo.value.frame * PAGE + pc % PAGE
    && (memo.value.mode == core.mode || (!Sv39On(core.csr.satp, core.mode) && pa == pc))
  }

  lemma CoveredTranslation(memo: Option<FetchTranslation>, generation: nat, h: Hart, pa: nat)
    requires MemoAgrees(memo, generation, h) && Covers(memo, generation, h.core, h.core.pc, pa)
    ensures var o := Harts.Translate(h, h.core.mode, Fetch, h.core.pc);
            o.h.disciplined ==> o == Outcome(h, Ok(pa))
  {
    hide MemoAgrees, Sv39.Translate;
    if memo.value.mode == h.core.mode {
      MemoHit(memo.value, generation, h, h.core.pc);
    } else {
      Untranslated(h.mem, h.core.ViewFor(h.core.mode), Fetch, h.core.pc);
    }
  }

  /** A covered, faithful entry is exactly what the reference would fetch, and fetching it changes nothing. */
  lemma CoveredInstruction(p: Platform, memo: Option<FetchTranslation>, generation: nat, h: Hart,
                           i: CachedInstruction, page: nat)
    requires MemoAgrees(memo, generation, h) && Covers(memo, generation, h.core, h.core.pc, i.pa)
    requires Faithful(i, h.mem, page, p.decode)
    ensures var o := FetchInstruction(p, h);
            o.h.disciplined ==>
              o == Outcome(h, Ok((i.raw, i.op))) && Harts.Translate(h, h.core.mode, Fetch, h.core.pc).r == Ok(i.pa)
  {
    hide MemoAgrees, HoldsInstruction, Harts.Translate, FetchWindow;
    CoveredTranslation(memo, generation, h, i.pa);
    CoveredOffset(memo, generation, h.core, h.core.pc, i.pa);
    HeldIsFetched(p, h, i.pa, i.raw);
  }

  lemma CoveredIsEven(memo: Option<FetchTranslation>, generation: nat, core: Core, pc: u64, pa: nat)
    requires Covers(memo, generation, core, pc, pa)
    ensures pc % 2 == 0
  {
  }

  lemma CoveredOffset(memo: Option<FetchTranslation>, generation: nat, core: Core, pc: u64, pa: nat)
    requires Covers(memo, generation, core, pc, pa)
    ensures pa % PAGE == pc % PAGE
  {
    OffsetKept(memo.value.frame, pc);
  }

  /** The next instruction of the page is covered too, while mode, satp and flush count stand. */
  lemma CoversNext(memo: Option<FetchTranslation>, generation: nat, core: Core, pc: u64, pa: nat,
                   core': Core, next: u64, raw: nat)
    requires Covers(memo, generation, core, pc, pa) && pa < DRAM_BASE + MAX_RAM
    requires core'.mode == core.mode && core'.csr.satp == core.csr.satp
    requires next == (pc + Length(raw)) % TWO_64 && next / PAGE == pc / PAGE
    ensures Covers(memo, generation, core', next, (pa + (next - pc) % TWO_64) % TWO_64)
  {
    hide Length;
    NextInPage(pc, next, raw);
    SmallSum(pa, Length(raw));
  }

  /** What an armed slot says about the instruction before it. */
  lemma ArmedNext(blocks: seq<DecodedBlock>, l: CacheLocation, pc: nat, nextPc: nat, actualPc: nat, generations: seq<nat>)
    requires Armed(blocks, l, pc, nextPc, actualPc, generations).Some?
    ensures !EndsBlock(l.instruction.op) && actualPc == nextPc && nextPc / PAGE == pc / PAGE
    ensures var a := Armed(blocks, l, pc, nextPc, actualPc, generations).value;
            a.expectedPc == nextPc && a.expectedPa == (l.instruction.pa + (nextPc - pc) % TWO_64) % TWO_64
  {
  }

  lemma SmallSum(pa: nat, n: nat)
    requires pa < DRAM_BASE + MAX_RAM && n <= 4
    ensures (pa + n) % TWO_64 == pa + n
  {
  }

  lemma NextInPage(pc: u64, next: u64, raw: nat)
    requires next == (pc + Length(raw)) % TWO_64 && next / PAGE == pc / PAGE
    ensures Length(raw) <= 4 && (next - pc) % TWO_64 == Length(raw)
    ensures next % PAGE == pc % PAGE + Length(raw)
    ensures pc % 2 == 0 ==> next % 2 == 0
  {
    var n := Length(raw);
    assert n == 2 || n == 4;
    assert pc + n >= TWO_64 ==> next == pc + n - TWO_64;
    assert next == pc + n;
  }

  /** The byte loop of a translation, one byte at a time. */
  lemma BytesUnroll(h: Hart, mode: Mode, acc: Access, va: u64, n: nat, pas: seq<nat>)
    requires |pas| <= n
    ensures TranslateBytes(h, mode, acc, va, n, pas) ==
      if |pas| == n then Outcome(h, Ok(pas))
      else if va + |pas| >= TWO_64 then Outcome(h, Err(PageFault(acc, va)))
      else
        var t := Harts.Translate(h, mode, acc, va + |pas|);
        if t.r.Err? then Outcome(t.h, Err(t.r.error)) else TranslateBytes(t.h, mode, acc, va, n, pas + [t.r.value])
  {
    hide Harts.Translate;
  }

  lemma RetireFields(c: Core, op: Op, nextPc: u64)
    ensures var r := Retire(c, op, nextPc);
            r.mode == c.mode && r.csr.satp == c.csr.satp && r.pc == nextPc
  {
  }

  lemma EmptyIsCoherent(blocks: seq<DecodedBlock>, mem: Memory, generations: seq<nat>, decode: Decoder)
    requires forall s :: 0 <= s < |blocks| ==> blocks[s].startPa == INVALID_PA
    ensures BlockCache.Coherent(blocks, mem, generations, decode)
  {
  }

  lemma TrapFields(c: Core, e: Exception)
    ensures TakeException(c, e).csr.satp == c.csr.satp
  {
  }

  lemma TickFields(c: Core)
    ensures var t := Tick(c); t.mode == c.mode && t.csr.satp == c.csr.satp && t.pc == c.pc
  {
  }

  lemma InterruptFields(c: Core, i: Interrupt)
    ensures var t := TakeInterrupt(c, i);
            t.csr.satp == c.csr.satp && !t.wfi && t.mode == if InterruptToS(c, i) then Supervisor else Machine
  {
    hide TvecTarget;
  }

  lemma DevicesKeepTranslations(tlb: seq<TlbEntry>, memo: Option<FetchTranslation>, generation: nat, h: Hart, dev: nat)
    requires TlbAgrees(tlb, h) && MemoAgrees(memo, generation, h)
    ensures TlbAgrees(tlb, h.(dev := dev)) && MemoAgrees(memo, generation, h.(dev := dev))
  {
    hide TlbMmu.Coherent, FetchTruthful;
  }

  // ------------------------------------------------------------------
  // Interrupts and the active slot
  // ------------------------------------------------------------------

  /**
   The interrupt lands on its own pc in another mode, and there that pc means
   something else: any page in S-mode under Sv39, or a page not mapped onto
   itself in M-mode.
   */
  predicate Misplaced(c: Core, i: Interrupt, pa: nat) {
    var t := TakeInterrupt(c, i);
    && t.pc == c.pc && t.mode != c.mode
    && if t.mode == Supervisor then Sv39On(c.csr.satp, Supervisor) else pa != c.pc
  }

  /** An interrupt that is not misplaced leaves the slot covered or unused. */
  lemma InterruptKeepsCover(memo: Option<FetchTranslation>, generation: nat, h: Hart, i: Interrupt, pa: nat)
    requires MemoAgrees(memo, generation, h) && Covers(memo, generation, h.core, h.core.pc, pa)
    requires !Misplaced(h.core, i, pa)
    ensures var t := TakeInterrupt(h.core, i);
            t.pc == h.core.pc ==> Covers(memo, generation, t, t.pc, pa)
  {
    hide TakeInterrupt, FetchTruthful;
    InterruptFields(h.core, i);
  }

  /** Only an interrupt that vectors to its own pc can be misplaced. */
  lemma MisplacedSelfVectors(memo: Option<FetchTranslation>, generation: nat, h: Hart, pa: nat)
    requires MemoAgrees(memo, generation, h) && Covers(memo, generation, h.core, h.core.pc, pa)
    requires PendingInterrupt(h.core).Some? && Misplaced(h.core, PendingInterrupt(h.core).value, pa)
    ensures SelfVectors(h.core)
  {
    hide TakeInterrupt, PendingInterrupt, FetchTruthful;
  }

  /** The next fetch does not use a stale translation. */
  predicate FetchesFresh(h: Hart) {
    Sv39On(h.core.csr.satp, h.core.mode) ==> h.core.pc / PAGE !in h.stale
  }

  lemma MisplacedHere(c: Core, i: Interrupt, pa: nat)
    requires Misplaced(c, i, pa)
    ensures TakeInterrupt(c, i).pc == c.pc
  {
  }

  lemma DisciplinedIsFresh(p: Platform, h: Hart)
    requires FetchInstruction(p, h).h.disciplined && h.core.pc % 2 == 0
    ensures FetchesFresh(h)
  {
    hide Harts.Translate, DecodeAt, Sv39.Translate;
    TranslateIsFresh(h);
  }

  lemma TranslateIsFresh(h: Hart)
    requires Harts.Translate(h, h.core.mode, Fetch, h.core.pc).h.disciplined
    ensures FetchesFresh(h)
  {
    hide Sv39.Translate;
  }

  /**
   Exactly when continuing the active block after an interrupt is right: the
   slot's physical address is what the new mode's fetch translates the pc to,
   or the slot is not used, if and only if the interrupt is not misplaced.
   */
  lemma ContinuationAfterInterrupt(memo: Option<FetchTranslation>, generation: nat, h: Hart, i: Interrupt, pa: nat)
    requires MemoAgrees(memo, generation, h) && Covers(memo, generation, h.core, h.core.pc, pa)
    requires FetchesFresh(WithCore(h, TakeInterrupt(h.core, i)))
    ensures var t := TakeInterrupt(h.core, i);
            (t.pc == h.core.pc ==> Harts.Translate(WithCore(h, t), t.mode, Fetch, t.pc).r == Ok(pa))
            <==> !Misplaced(h.core, i, pa)
  {
    hide TakeInterrupt, Sv39.Translate, FetchTruthful;
    InterruptFields(h.core, i);
    var t := TakeInterrupt(h.core, i);
    var g := WithCore(h, t);
    if t.pc == h.core.pc {
      if !Sv39On(t.csr.satp, t.mode) {
        Untranslated(g.mem, t.ViewFor(t.mode), Fetch, t.pc);
      } else if t.mode == h.core.mode {
        MemoMode(memo, generation, h, t);
        MemoHit(memo.value, generation, g.(disciplined := true), t.pc);
      } else {
        SupervisorCannotFetch(memo.value, h, t);
      }
    }
  }

  lemma MemoMode(memo: Option<FetchTranslation>, generation: nat, h: Hart, t: Core)
    requires MemoAgrees(memo, generation, h) && t.csr.satp == h.core.csr.satp
    ensures MemoAgrees(memo, generation, WithCore(h, t).(disciplined := true))
  {
    hide FetchTruthful;
  }

  /** A page User mode can execute from is one Supervisor mode cannot. */
  lemma SupervisorCannotFetch(m: FetchTranslation, h: Hart, t: Core)
    requires FetchTruthful(m, h.mem, h.core.csr.satp) && m.mode == User && m.vpn == t.pc / PAGE
    requires t.csr.satp == h.core.csr.satp && t.mode == Supervisor && Sv39On(t.csr.satp, Supervisor)
    ensures Harts.Translate(WithCore(h, t), Supervisor, Fetch, t.pc).r == Err(InstructionPageFault(t.pc))
  {
    hide DecodePte, WordAt, ResolveFrom, Frame;
    SameCanonicalPage(t.pc);
  }

  lemma SupervisorVectorFaults(p: Platform, memo: Option<FetchTranslation>, generation: nat, h: Hart, i: Interrupt, pa: nat)
    requires MemoAgrees(memo, generation, h) && Covers(memo, generation, h.core, h.core.pc, pa)
    requires FetchesFresh(WithCore(h, TakeInterrupt(h.core, i))) && Misplaced(h.core, i, pa)
    ensures var t := TakeInterrupt(h.core, i);
            t.mode == Supervisor ==>
              var o := FetchInstruction(p, WithCore(h, t));
              o.r == Err(InstructionPageFault(t.pc)) && o.h.disciplined == h.disciplined
  {
    hide TakeInterrupt, Sv39.Translate, FetchTruthful, FetchWindow;
    InterruptFields(h.core, i);
    var t := TakeInterrupt(h.core, i);
    if t.mode == Supervisor {
      SupervisorCannotFetch(memo.value, h, t);
    }
  }
}
