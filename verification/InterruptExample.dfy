/**
 A run in which an interrupt is misplaced. User code at virtual 0x1000 is a loop of
 two instructions, mapped by one gigapage entry to 0x8000_1000, and stvec is 0x1004.
 After one round of the loop the decoded block holds both instructions; after the first
 instruction of the next round a delegated external interrupt comes up.
 */
module InterruptExample {
  import opened Bytes
  import opened Trap
  import opened Isa
  import opened Sv39
  import opened GuestRam
  import opened BlockCache
  import opened CsrFiles
  import opened Cores
  import opened Harts
  import opened CacheLaws
  import opened CachedCpu

  /** A leaf for the first gigabyte: V R X U A, physical page 0x8_0000. */
  const ENTRY: nat := 0x2000_005B
  const TABLE: u64 := 0x8000_0000_0008_0000

  const NOP: nat := 0x13
  const JUMP: nat := 0xFFDF_F06F
  const NOP_OP := Alu(0, 0, 0, 0)
  const JUMP_OP := Jal(0, TWO_64 - 4)

  const FIRST_PA: nat := 0x8000_1000

  function Decoding(raw: nat): Option<Op> {
    if raw == NOP then Some(NOP_OP) else if raw == JUMP then Some(JUMP_OP) else None
  }

  /** No devices, and register functions that yield zero. */
  const PLATFORM := Platform(Decoding, Units((_, _, _, _) => 0, (_, _, _) => false, (_, _, _) => 0), _ => 0,
                             (d, _, _) => (d, None), (d, _, _, _, _) => (d, false, []), (_, _) => false)

  const CODE: seq<byte> := [0x13, 0, 0, 0, 0x6F, 0xF0, 0xDF, 0xFF]

  /** One page with the table entry at its start, one with the code at its start. */
  function LoopMemory(): Memory {
    Splice(Splice(Zeros(2 * PAGE), 0, LeBytes(ENTRY, 8)), PAGE, CODE)
  }

  function LoopCsr(): CsrFile {
    Reset().(mie := {9}, mideleg := {9}, stvec := 0x1004, satp := TABLE)
  }

  function LoopCore(): Core {
    Core(seq(32, _ => 0), 0x1000, User, LoopCsr(), None, false)
  }

  function StartHart(): Hart {
    Hart(LoopCore(), LoopMemory(), 0, {}, {}, true)
  }

  // ---- The reference hart goes round the loop ----

  /** The hart is in the loop, at this pc. */
  predicate Looping(h: Hart, pc: nat) {
    && h.mem == LoopMemory() && h.stale == {} && h.disciplined
    && h.core.pc == pc && h.core.mode == User && !h.core.wfi
    && h.core.csr == LoopCsr().(instret := h.core.csr.instret, cycle := h.core.csr.cycle)
  }

  lemma LoopWord()
    ensures InRam(LoopMemory(), DRAM_BASE, 8) && WordAt(LoopMemory(), DRAM_BASE) == ENTRY
  {
    Radix8();
    LeRoundTrip(ENTRY, 8);
    assert LoopMemory()[0..8] == LeBytes(ENTRY, 8);
  }

  lemma LoopPte()
    ensures DecodePte(ENTRY) == Pte(true, true, false, true, true, true, false, 0x8_0000, false)
  {
    assert ENTRY / 64 == 0x80_0001;
  }

  lemma LoopResolves()
    ensures Resolve(LoopMemory(), TABLE, 1) == LeafAt(DRAM_BASE, 2)
  {
    hide DecodePte, WordAt, LoopMemory;
    LoopWord();
    LoopPte();
    assert Root(TABLE) == 0x8_0000;
    assert Index(1, 2) == 0;
  }

  lemma LoopTranslates(h: Hart, pc: nat)
    requires Looping(h, pc) && (pc == 0x1000 || pc == 0x1004)
    ensures Harts.Translate(h, User, Fetch, pc) == Outcome(h.(seen := h.seen + {1}), Ok(DRAM_BASE + pc))
  {
    hide DecodePte, WordAt, LoopMemory, ResolveFrom;
    LoopWord();
    LoopPte();
    LoopResolves();
    assert pc / PAGE == 1;
  }

  lemma HalfOf(low: byte, high: byte)
    ensures LeValue([low, high]) == low as int + 256 * (high as int)
  {
    assert [low, high][1..] == [high] && [high][1..] == [];
    assert LeValue([high]) == high as int;
  }

  lemma CodeHalf(k: nat)
    requires k + 2 <= |CODE|
    ensures PAGE + k + 2 <= |LoopMemory()| && Half(LoopMemory(), PAGE + k) == CODE[k] as int + 256 * (CODE[k + 1] as int)
  {
    assert LoopMemory()[PAGE + k..PAGE + k + 2] == [CODE[k], CODE[k + 1]];
    HalfOf(CODE[k], CODE[k + 1]);
  }

  lemma CodeIsHeld()
    ensures HoldsInstruction(LoopMemory(), FIRST_PA, NOP) && HoldsInstruction(LoopMemory(), FIRST_PA + 4, JUMP)
  {
    hide LoopMemory, Half;
    CodeHalf(0);
    CodeHalf(2);
    CodeHalf(4);
    CodeHalf(6);
  }

  function RawAt(pc: nat): nat {
    if pc == 0x1000 then NOP else JUMP
  }

  function OpAt(pc: nat): Op {
    if pc == 0x1000 then NOP_OP else JUMP_OP
  }

  lemma LoopFetches(h: Hart, pc: nat)
    requires Looping(h, pc) && (pc == 0x1000 || pc == 0x1004)
    ensures Harts.FetchInstruction(PLATFORM, h) == Outcome(h.(seen := h.seen + {1}), Ok((RawAt(pc), OpAt(pc))))
    ensures HoldsInstruction(h.mem, DRAM_BASE + pc, RawAt(pc))
  {
    hide LoopMemory, HoldsInstruction, Harts.Translate, DecodeAt;
    LoopTranslates(h, pc);
    CodeIsHeld();
    HeldIsDecoded(PLATFORM, h.(seen := h.seen + {1}), DRAM_BASE + pc, RawAt(pc), OpAt(pc));
  }

  /** One step of the loop: to 0x1004, or back to 0x1000. */
  lemma LoopSteps(h: Hart, pc: nat)
    requires Looping(h, pc) && (pc == 0x1000 || pc == 0x1004)
    ensures Looping(Harts.Step(PLATFORM, h), 0x2004 - pc)
    ensures Awake(h) == h && !Waiting(h.core)
    ensures Harts.StepInner(PLATFORM, h).r.Ok? && Harts.StepInner(PLATFORM, h).h.disciplined
  {
    hide LoopMemory, HoldsInstruction, Harts.FetchInstruction;
    LoopFetches(h, pc);
    var g := h.(seen := h.seen + {1});
    assert Harts.StepInner(PLATFORM, h) == ExecuteInstruction(PLATFORM, g, RawAt(pc), OpAt(pc));
  }

  // ---- The cached hart goes round the loop ----

  const FIRST: CachedInstruction := CachedInstruction(FIRST_PA, NOP, NOP_OP)
  const SECOND: CachedInstruction := CachedInstruction(FIRST_PA + 4, JUMP, JUMP_OP)

  /** The loop's block, with `len` instructions. */
  predicate LoopBlock(b: DecodedBlock, len: nat, generations: seq<nat>) {
    && b.startPa == FIRST_PA && b.ramPage == 1 && 1 < |generations| && b.pageGeneration == generations[1] && b.len == len
    && |b.instructions| == MAX_BLOCK_INSTRUCTIONS && b.instructions[0] == Some(FIRST)
    && (len == 2 ==> b.instructions[1] == Some(SECOND))
  }

  /** The cache holds the loop's block and no other. */
  predicate Sole(blocks: seq<DecodedBlock>, s: nat, len: nat, generations: seq<nat>) {
    && s < |blocks| && InSet(s, FIRST_PA) && LoopBlock(blocks[s], len, generations)
    && forall t :: 0 <= t < |blocks| && t != s ==> blocks[t].startPa == INVALID_PA
  }

  function Expecting(s: nat): Option<ActiveInstruction> {
    Some(ActiveInstruction(s, 1, 0x1004, FIRST_PA + 4))
  }

  lemma FirstStarts(before: seq<DecodedBlock>, generations: seq<nat>, after: seq<DecodedBlock>, at: CacheLocation)
    requires forall t :: 0 <= t < |before| ==>
               before[t].startPa == INVALID_PA && |before[t].instructions| == MAX_BLOCK_INSTRUCTIONS
    requires |generations| == 2 && at.instruction == FIRST
    requires Fetched(before, None, 0x1000, generations, after, at)
    ensures at.index == 0 && Sole(after, at.slot, 1, generations)
    ensures Armed(after, at, 0x1000, 0x1004, 0x1004, generations) == Expecting(at.slot)
  {
    hide SetFor;
    assert forall t :: !StartsAt(before, FIRST_PA, t);
    assert PageOf(FIRST_PA) == 1;
  }

  lemma SecondGrows(before: seq<DecodedBlock>, s: nat, generations: seq<nat>, after: seq<DecodedBlock>, at: CacheLocation)
    requires Sole(before, s, 1, generations) && at.instruction == SECOND
    requires Fetched(before, Expecting(s), 0x1004, generations, after, at)
    ensures Sole(after, s, 2, generations)
    ensures Armed(after, at, 0x1004, 0x1008, 0x1000, generations) == None
  {
    hide SetFor;
    assert PageOf(FIRST_PA + 4) == 1;
    assert Appending(before, Expecting(s), 0x1004, generations);
    assert Growing(before[s], 1, generations, 1);
  }

  lemma FirstAgain(before: seq<DecodedBlock>, s: nat, generations: seq<nat>, after: seq<DecodedBlock>, at: CacheLocation)
    requires Sole(before, s, 2, generations) && at.instruction == FIRST
    requires Fetched(before, None, 0x1000, generations, after, at)
    ensures after == before
    ensures Armed(after, at, 0x1000, 0x1004, 0x1004, generations) == Expecting(s)
    ensures Continuing(after, Expecting(s), 0x1004, generations)
  {
    hide SetFor;
    assert StartsAt(before, FIRST_PA, s);
    assert forall t :: StartsAt(before, FIRST_PA, t) ==> t == s;
  }

  /** A step of the loop as the cached hart takes it. */
  method LoopStep(cpu: Cpu, ghost h: Hart) returns (ghost at: CacheLocation)
    requires cpu.Valid() && cpu.p == PLATFORM && cpu.Agrees(h) && cpu.ActiveArmed()
    requires Looping(h, h.core.pc) && (h.core.pc == 0x1000 || h.core.pc == 0x1004)
    modifies cpu, cpu.mmu, cpu.mmu.tlb, cpu.ram, cpu.cache, cpu.cache.blocks, cpu.cache.nextVictim
    ensures cpu.Valid() && cpu.Agrees(Harts.Step(PLATFORM, h)) && cpu.ActiveArmed()
    ensures cpu.ram.generations == old(cpu.ram.generations)
    ensures cpu.cache.Valid() && cpu.core.pc == 0x2004 - h.core.pc && Looping(Harts.Step(PLATFORM, h), cpu.core.pc)
    ensures cpu.StepCached(at, old(cpu.cache.blocks[..]), old(cpu.cache.active), h.core.pc)
    ensures at.instruction == CachedInstruction(DRAM_BASE + h.core.pc, RawAt(h.core.pc), OpAt(h.core.pc))
  {
    hide LoopMemory, Harts.Step, Harts.StepInner, Harts.FetchInstruction, Harts.Translate, HoldsInstruction, Cpu.Valid;
    hide TlbAgrees, MemoAgrees, Covers, Fetched, Armed, Waiting;
    LoopSteps(h, h.core.pc);
    LoopFetches(h, h.core.pc);
    LoopTranslates(h, h.core.pc);
    var l := cpu.Step(h);
    at := l.value;
    assert cpu.cache.Valid() by { ValidCache(cpu); }
  }

  lemma ValidCache(cpu: Cpu)
    requires cpu.Valid()
    ensures cpu.cache.Valid()
  {
  }

  /** The machine of the example: memory with the table and the code, and a hart at the loop's start. */
  method Build() returns (cpu: Cpu)
    ensures fresh(cpu) && fresh(cpu.mmu) && fresh(cpu.mmu.tlb) && fresh(cpu.ram)
    ensures fresh(cpu.cache) && fresh(cpu.cache.blocks) && fresh(cpu.cache.nextVictim)
    ensures cpu.Valid() && cpu.p == PLATFORM && cpu.cache.active == None
    ensures cpu.Agrees(StartHart()) && |cpu.ram.generations| == 2
    ensures forall t :: 0 <= t < |cpu.cache.blocks[..]| ==>
              && cpu.cache.blocks[..][t].startPa == INVALID_PA
              && |cpu.cache.blocks[..][t].instructions| == MAX_BLOCK_INSTRUCTIONS
  {
    hide TlbAgrees, MemoAgrees, BlockCache.Coherent;
    var ram := new Ram(2 * PAGE);
    assert ram.data == Zeros(2 * PAGE);
    var ok := ram.WriteSlice(0, LeBytes(ENTRY, 8));
    ok := ram.WriteSlice(PAGE, CODE);
    cpu := new Cpu(PLATFORM, ram, LoopCore(), 0);
  }

  /** The reference hart after three steps of the loop, with the interrupt line raised. */
  function Interruptible(): Hart {
    Harts.Receive(ThreeSteps(StartHart()), Lines({9}, {9}))
  }

  function ThreeSteps(h: Hart): Hart {
    Harts.Step(PLATFORM, Harts.Step(PLATFORM, Harts.Step(PLATFORM, h)))
  }

  lemma {:induction false} NoneOf(order: seq<Interrupt>)
    ensures FirstOf({}, order) == None
  {
    if order != [] {
      NoneOf(order[1..]);
    }
  }

  lemma LoopInterrupt(h: Hart)
    requires Looping(h, 0x1004)
    ensures Harts.Receive(h, Lines({9}, {9})).stale == {} && Harts.Receive(h, Lines({9}, {9})).disciplined
    ensures var c := Harts.Receive(h, Lines({9}, {9})).core;
            && PendingInterrupt(c) == Some(SupervisorExternal)
            && Misplaced(c, SupervisorExternal, FIRST_PA + 4)
            && TakeInterrupt(c, SupervisorExternal).mode == Supervisor && TakeInterrupt(c, SupervisorExternal).pc == 0x1004
  {
    hide LoopMemory;
    var c := Harts.Receive(h, Lines({9}, {9})).core;
    assert c.csr.deviceMip == {9} && c.csr.mideleg == {9};
    assert c.csr.MipValue() * c.csr.mie == {9};
    assert {9} - {9} == {};
    assert {9} * {9} == {9};
    assert FirstOf({}, M_ORDER) == None by { NoneOf(M_ORDER); }
    assert FirstOf({9}, S_ORDER) == Some(SupervisorExternal);
  }

  method FirstStep(cpu: Cpu) returns (ghost s: nat)
    requires cpu.Valid() && cpu.p == PLATFORM && cpu.Agrees(StartHart()) && cpu.cache.active == None
    requires |cpu.ram.generations| == 2
    requires forall t :: 0 <= t < |cpu.cache.blocks[..]| ==>
               && cpu.cache.blocks[..][t].startPa == INVALID_PA
               && |cpu.cache.blocks[..][t].instructions| == MAX_BLOCK_INSTRUCTIONS
    modifies cpu, cpu.mmu, cpu.mmu.tlb, cpu.ram, cpu.cache, cpu.cache.blocks, cpu.cache.nextVictim
    ensures cpu.Valid() && cpu.Agrees(Harts.Step(PLATFORM, StartHart())) && cpu.ActiveArmed()
    ensures Looping(Harts.Step(PLATFORM, StartHart()), 0x1004)
    ensures Sole(cpu.cache.blocks[..], s, 1, cpu.ram.generations) && cpu.cache.active == Expecting(s)
  {
    hide LoopMemory, Harts.Step, Cpu.Valid, Cpu.Agrees, Covers, Fetched, Armed, Sole;
    ghost var before := cpu.cache.blocks[..];
    assert Looping(StartHart(), 0x1000);
    ghost var at := LoopStep(cpu, StartHart());
    FirstStarts(before, cpu.ram.generations, cpu.cache.blocks[..], at);
    s := at.slot;
  }

  method SecondStep(cpu: Cpu, ghost h: Hart, ghost s: nat)
    requires cpu.Valid() && cpu.p == PLATFORM && cpu.Agrees(h) && cpu.ActiveArmed() && Looping(h, 0x1004)
    requires Sole(cpu.cache.blocks[..], s, 1, cpu.ram.generations) && cpu.cache.active == Expecting(s)
    modifies cpu, cpu.mmu, cpu.mmu.tlb, cpu.ram, cpu.cache, cpu.cache.blocks, cpu.cache.nextVictim
    ensures cpu.Valid() && cpu.Agrees(Harts.Step(PLATFORM, h)) && cpu.ActiveArmed()
    ensures Looping(Harts.Step(PLATFORM, h), 0x1000)
    ensures Sole(cpu.cache.blocks[..], s, 2, cpu.ram.generations) && cpu.cache.active == None
  {
    hide LoopMemory, Harts.Step, Cpu.Valid, Cpu.Agrees, Covers, Fetched, Armed, Sole;
    ghost var before := cpu.cache.blocks[..];
    ghost var at := LoopStep(cpu, h);
    SecondGrows(before, s, cpu.ram.generations, cpu.cache.blocks[..], at);
  }

  method ThirdStep(cpu: Cpu, ghost h: Hart, ghost s: nat)
    requires cpu.Valid() && cpu.p == PLATFORM && cpu.Agrees(h) && cpu.ActiveArmed() && Looping(h, 0x1000)
    requires Sole(cpu.cache.blocks[..], s, 2, cpu.ram.generations) && cpu.cache.active == None
    modifies cpu, cpu.mmu, cpu.mmu.tlb, cpu.ram, cpu.cache, cpu.cache.blocks, cpu.cache.nextVictim
    ensures cpu.Valid() && cpu.Agrees(Harts.Step(PLATFORM, h)) && cpu.ActiveArmed()
    ensures Looping(Harts.Step(PLATFORM, h), 0x1004) && cpu.core.pc == 0x1004
    ensures cpu.cache.active == Expecting(s)
    ensures Sole(cpu.cache.blocks[..], s, 2, cpu.ram.generations)
    ensures Continuing(cpu.cache.blocks[..], cpu.cache.active, 0x1004, cpu.ram.generations)
  {
    hide LoopMemory, Harts.Step, Cpu.Valid, Cpu.Agrees, Covers, Fetched, Armed, Sole, Continuing;
    ghost var before := cpu.cache.blocks[..];
    ghost var at := LoopStep(cpu, h);
    FirstAgain(before, s, cpu.ram.generations, cpu.cache.blocks[..], at);
  }

  /** Three steps of the loop and the interrupt line: the hart as built agrees, and its active slot is on the second instruction. */
  method RunLoop() returns (cpu: Cpu, ghost s: nat)
    ensures fresh(cpu) && fresh(cpu.mmu.tlb) && fresh(cpu.ram)
    ensures fresh(cpu.cache) && fresh(cpu.cache.blocks) && fresh(cpu.cache.nextVictim)
    ensures cpu.Valid() && cpu.p == PLATFORM && cpu.Agrees(Interruptible()) && cpu.ActiveArmed()
    ensures cpu.core.pc == 0x1004 && cpu.cache.active == Expecting(s)
    ensures Sole(cpu.cache.blocks[..], s, 2, cpu.ram.generations)
    ensures Continuing(cpu.cache.blocks[..], cpu.cache.active, 0x1004, cpu.ram.generations)
    ensures Looping(ThreeSteps(StartHart()), 0x1004)
  {
    hide LoopMemory, Harts.Step, Cpu.Valid, Harts.Receive, TlbAgrees, MemoAgrees, Covers, Fetched, Armed;
    cpu := Build();
    s := FirstStep(cpu);
    SecondStep(cpu, Harts.Step(PLATFORM, StartHart()), s);
    ghost var h := Harts.Step(PLATFORM, Harts.Step(PLATFORM, StartHart()));
    ThirdStep(cpu, h, s);
    cpu.Receive(Lines({9}, {9}), Harts.Step(PLATFORM, h));
  }

  /**
   Where that run has led, the cached hart takes the interrupt and fetches the loop's
   second instruction in S-mode. The hart without caches takes a page fault.
   */
  method MisplacedInterrupt() returns (r: Result<(nat, Op)>)
    ensures r == Ok((JUMP, JUMP_OP))
    ensures Harts.FetchInstruction(PLATFORM, Harts.Interrupted(Interruptible())).r == Err(InstructionPageFault(0x1004))
  {
    hide LoopMemory, Harts.Step, Harts.FetchInstruction, Harts.Translate, HoldsInstruction, Cpu.Valid, Harts.Receive;
    hide TlbAgrees, MemoAgrees, Covers, Fetched, Armed, PendingInterrupt, Misplaced, TakeInterrupt;
    var cpu, s := RunLoop();
    assert cpu.cache.Valid() by { ValidCache(cpu); }
    LoopInterrupt(ThreeSteps(StartHart()));
    SupervisorVectorFaults(PLATFORM, cpu.memo, cpu.mmu.generation, Interruptible(), SupervisorExternal, FIRST_PA + 4);
    var location;
    r, location := cpu.FetchAfterInterrupt(Interruptible());
  }
}
