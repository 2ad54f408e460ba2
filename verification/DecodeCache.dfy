/**
 The decoded-block cache: 1024 sets of 4 blocks keyed by physical address, each
 block up to 16 instructions of one RAM page, good while that page's write
 generation stands.
 */
module BlockCache {
  import opened Bytes
  import opened Trap
  import opened Isa
  import opened Sv39
  import opened GuestRam

  const BLOCK_SETS: nat := 1024
  const BLOCK_WAYS: nat := 4
  const BLOCK_SLOTS: nat := 4096
  const MAX_BLOCK_INSTRUCTIONS: nat := 16
  const INVALID_PA: nat := TWO_64 - 1

  datatype CachedInstruction = CachedInstruction(pa: nat, raw: nat, op: Op)

  datatype CacheLocation = CacheLocation(slot: nat, index: nat, instruction: CachedInstruction)

  /** `len` entries of `instructions` count; a reused block keeps old entries behind them. */
  datatype DecodedBlock = DecodedBlock(startPa: nat, ramPage: nat, pageGeneration: nat, len: nat,
                                       instructions: seq<Option<CachedInstruction>>)
  {
    predicate Current(generations: seq<nat>) {
      ramPage < |generations| && generations[ramPage] == pageGeneration
    }
  }

  datatype ActiveInstruction = ActiveInstruction(slot: nat, index: nat, expectedPc: nat, expectedPa: nat)

  datatype ActiveLookup = ActiveHit(location: CacheLocation) | Append(slot: nat, index: nat) | NoActive

  datatype Lookup = Hit(location: CacheLocation) | Miss

  function SetFor(pa: nat): (s: nat)
    ensures s < BLOCK_SETS
  {
    ((pa / 2 % BLOCK_SETS) as bv10 ^ (pa / 2048 % BLOCK_SETS) as bv10) as nat
  }

  /** The `offset`-th way to try, wrapping around from the cursor. */
  function Way(first: nat, cursor: nat, offset: nat): (s: nat)
    ensures first <= s < first + BLOCK_WAYS
  {
    first + (cursor + offset) % BLOCK_WAYS
  }

  predicate InSet(slot: int, pa: nat) {
    SetFor(pa) * BLOCK_WAYS <= slot < SetFor(pa) * BLOCK_WAYS + BLOCK_WAYS
  }

  // ------------------------------------------------------------------
  // What the cache may claim
  // ------------------------------------------------------------------

  function Half(mem: Memory, offset: nat): nat
    requires offset + 2 <= |mem|
  {
    LeValue(mem[offset..offset + 2])
  }

  /** The instruction at `pa`, wholly inside RAM and inside one page, is `raw`. */
  predicate HoldsInstruction(mem: Memory, pa: nat, raw: nat) {
    && DRAM_BASE <= pa && pa % 2 == 0
    && var offset := pa - DRAM_BASE;
       && offset + 2 <= |mem|
       && var low := Half(mem, offset);
          if low % 4 != 3 then raw == low
          else
            && offset % PAGE + 4 <= PAGE && offset + 4 <= |mem|
            && raw == low + 0x1_0000 * Half(mem, offset + 2)
  }

  /** The entry repeats RAM's present bytes in `page` and their decoding. */
  predicate Faithful(i: CachedInstruction, mem: Memory, page: nat, decode: Decoder) {
    && HoldsInstruction(mem, i.pa, i.raw)
    && (i.pa - DRAM_BASE) / PAGE == page
    && decode(i.raw) == Some(i.op)
  }

  ghost predicate BlockCoherent(b: DecodedBlock, mem: Memory, generations: seq<nat>, decode: Decoder) {
    b.startPa != INVALID_PA ==>
      && 1 <= b.len <= MAX_BLOCK_INSTRUCTIONS == |b.instructions|
      && b.ramPage < |generations| && b.pageGeneration <= generations[b.ramPage]
      && (forall i :: 0 <= i < b.len ==> b.instructions[i].Some?)
      && b.instructions[0].value.pa == b.startPa
      && (b.Current(generations) ==>
            forall i :: 0 <= i < b.len ==> Faithful(b.instructions[i].value, mem, b.ramPage, decode))
  }

  ghost predicate Coherent(blocks: seq<DecodedBlock>, mem: Memory, generations: seq<nat>, decode: Decoder) {
    forall s :: 0 <= s < |blocks| ==> BlockCoherent(blocks[s], mem, generations, decode)
  }

  lemma PageKeepsHalf(mem: Memory, mem': Memory, offset: nat, page: nat)
    requires SamePage(mem, mem', page) && offset + 2 <= |mem|
    requires page * PAGE <= offset && offset + 2 <= (page + 1) * PAGE
    ensures |mem'| == |mem|
    ensures Half(mem', offset) == Half(mem, offset)
  {
    assert mem[offset..offset + 2] == mem'[offset..offset + 2];
  }

  lemma PageKeepsInstruction(mem: Memory, mem': Memory, pa: nat, raw: nat)
    requires HoldsInstruction(mem, pa, raw)
    requires SamePage(mem, mem', (pa - DRAM_BASE) / PAGE)
    ensures HoldsInstruction(mem', pa, raw)
  {
    hide SamePage, Half;
    var offset := pa - DRAM_BASE;
    var page := offset / PAGE;
    PageKeepsHalf(mem, mem', offset, page);
    if Half(mem, offset) % 4 == 3 {
      PageKeepsHalf(mem, mem', offset + 2, page);
    }
  }

  /** No RAM write, by store, walker or device, can make the cache claim something false. */
  lemma WritesKeepCoherence(blocks: seq<DecodedBlock>, mem: Memory, generations: seq<nat>,
                            mem': Memory, generations': seq<nat>, decode: Decoder)
    requires Coherent(blocks, mem, generations, decode)
    requires Tracked(mem, generations, mem', generations')
    ensures Coherent(blocks, mem', generations', decode)
  {
    hide HoldsInstruction;
    forall s | 0 <= s < |blocks|
      ensures BlockCoherent(blocks[s], mem', generations', decode)
    {
      var b := blocks[s];
      assert BlockCoherent(b, mem, generations, decode);
      if b.startPa != INVALID_PA && b.Current(generations') {
        assert b.Current(generations);
        forall i | 0 <= i < b.len
          ensures Faithful(b.instructions[i].value, mem', b.ramPage, decode)
        {
          var c := b.instructions[i].value;
          assert Faithful(c, mem, b.ramPage, decode);
          PageKeepsInstruction(mem, mem', c.pa, c.raw);
        }
      }
    }
  }

  // ------------------------------------------------------------------
  // What a fetch does to the cache
  // ------------------------------------------------------------------

  /** The slot is for this pc, and its block is valid and current. */
  predicate Active(blocks: seq<DecodedBlock>, active: Option<ActiveInstruction>, pc: nat, generations: seq<nat>) {
    && active.Some? && active.value.expectedPc == pc && active.value.slot < |blocks|
    && blocks[active.value.slot].startPa != INVALID_PA && blocks[active.value.slot].Current(generations)
  }

  /** The active block already holds the instruction. */
  predicate Continuing(blocks: seq<DecodedBlock>, active: Option<ActiveInstruction>, pc: nat, generations: seq<nat>) {
    Active(blocks, active, pc, generations) &&
      var b := blocks[active.value.slot];
      && active.value.index < b.len && active.value.index < |b.instructions|
      && b.instructions[active.value.index].Some?
      && b.instructions[active.value.index].value.pa == active.value.expectedPa
  }

  /** The active block ends where the instruction would go. */
  predicate Appending(blocks: seq<DecodedBlock>, active: Option<ActiveInstruction>, pc: nat, generations: seq<nat>) {
    Active(blocks, active, pc, generations) &&
      active.value.index == blocks[active.value.slot].len < MAX_BLOCK_INSTRUCTIONS
  }

  function PageOf(pa: nat): int {
    (pa - DRAM_BASE) / PAGE
  }

  /** The block can take one more instruction of this page. */
  predicate Growing(b: DecodedBlock, page: int, generations: seq<nat>, index: nat) {
    && b.startPa != INVALID_PA && b.ramPage == page && b.Current(generations)
    && index == b.len < MAX_BLOCK_INSTRUCTIONS && index < |b.instructions|
  }

  /**
   The instruction was recorded: at the end of the block being grown if that takes
   it, else as a new block in its own set. Nothing else changed.
   */
  predicate Inserted(before: seq<DecodedBlock>, after: seq<DecodedBlock>, generations: seq<nat>,
                     append: Option<(nat, nat)>, l: CacheLocation)
  {
    var i := l.instruction;
    && l.slot < |before| && 0 <= PageOf(i.pa) < |generations| && 0 < |before[l.slot].instructions|
    && if append.Some? && append.value.0 < |before|
          && Growing(before[append.value.0], PageOf(i.pa), generations, append.value.1) then
         && (l.slot, l.index) == append.value
         && var b := before[l.slot];
            after == before[l.slot := b.(len := b.len + 1, instructions := b.instructions[l.index := Some(i)])]
       else
         && l.index == 0 && InSet(l.slot, i.pa)
         && after == before[l.slot := DecodedBlock(i.pa, PageOf(i.pa), generations[PageOf(i.pa)], 1,
                                                   before[l.slot].instructions[0 := Some(i)])]
  }

  predicate StartsAt(blocks: seq<DecodedBlock>, pa: nat, s: int) {
    InSet(s, pa) && 0 <= s < |blocks| && blocks[s].startPa == pa
  }

  /** A fetch that had to translate: the active block grows, a current block is used again, or a new one begins. */
  ghost predicate Served(before: seq<DecodedBlock>, a: ActiveLookup, generations: seq<nat>,
                         after: seq<DecodedBlock>, l: CacheLocation)
  {
    var pa := l.instruction.pa;
    && (a.Append? ==> Inserted(before, after, generations, Some((a.slot, a.index)), l))
    && (!a.Append? && (forall s :: !StartsAt(before, pa, s)) ==> Inserted(before, after, generations, None, l))
    && (!a.Append? && (exists s :: StartsAt(before, pa, s))
        && (forall s :: StartsAt(before, pa, s) ==> before[s].Current(generations)) ==>
          after == before && l.index == 0 && StartsAt(before, pa, l.slot))
  }

  /** A fetch during which no page generation changed: the active block goes on, or the fetch had to translate. */
  ghost predicate Fetched(before: seq<DecodedBlock>, active: Option<ActiveInstruction>, pc: nat, generations: seq<nat>,
                          after: seq<DecodedBlock>, l: CacheLocation)
  {
    && (Continuing(before, active, pc, generations) ==>
          && after == before && l.slot == active.value.slot && l.index == active.value.index
          && before[l.slot].instructions[l.index] == Some(l.instruction))
    && (Appending(before, active, pc, generations) ==>
          Served(before, Append(active.value.slot, active.value.index), generations, after, l))
    && (active.None? ==> Served(before, NoActive, generations, after, l))
  }

  /** Whether a block may continue past the instruction at `l`. */
  predicate FallsThrough(blocks: seq<DecodedBlock>, l: CacheLocation, pc: nat, nextPc: nat, actualPc: nat,
                         generations: seq<nat>)
  {
    && !EndsBlock(l.instruction.op) && actualPc == nextPc && l.slot < |blocks|
    && var b := blocks[l.slot];
       && b.startPa != INVALID_PA && b.Current(generations)
       && l.index < |b.instructions| && b.instructions[l.index].Some?
       && b.instructions[l.index].value.pa == l.instruction.pa
       && l.index + 1 < MAX_BLOCK_INSTRUCTIONS && nextPc / PAGE == pc / PAGE
  }

  /** The active slot after an instruction. */
  function Armed(blocks: seq<DecodedBlock>, l: CacheLocation, pc: nat, nextPc: nat, actualPc: nat,
                 generations: seq<nat>): Option<ActiveInstruction>
  {
    if !FallsThrough(blocks, l, pc, nextPc, actualPc, generations) then None else
      Some(ActiveInstruction(l.slot, l.index + 1, nextPc, (l.instruction.pa + (nextPc - pc) % TWO_64) % TWO_64))
  }

  lemma FaithfulPage(i: CachedInstruction, mem: Memory, page: nat, decode: Decoder)
    requires Faithful(i, mem, page, decode)
    ensures PageOf(i.pa) == page
  {
  }

  /** A block that takes one more instruction of its page. */
  lemma GrownIsCoherent(b: DecodedBlock, page: nat, index: nat, i: CachedInstruction,
                        mem: Memory, generations: seq<nat>, decode: Decoder)
    requires BlockCoherent(b, mem, generations, decode) && Faithful(i, mem, page, decode)
    ensures Growing(b, page, generations, index) ==>
              index > 0 && BlockCoherent(b.(len := b.len + 1, instructions := b.instructions[index := Some(i)]), mem, generations, decode)
  {
    hide Faithful;
  }

  /** A block that begins with an instruction. */
  lemma FreshIsCoherent(i: CachedInstruction, page: nat, instructions: seq<Option<CachedInstruction>>,
                        mem: Memory, generations: seq<nat>, decode: Decoder)
    requires Faithful(i, mem, page, decode) && page < |generations| && |instructions| == MAX_BLOCK_INSTRUCTIONS
    requires instructions[0] == Some(i)
    ensures BlockCoherent(DecodedBlock(i.pa, page, generations[page], 1, instructions), mem, generations, decode)
  {
    hide Faithful;
  }

  class DecodeCache {
    const blocks: array<DecodedBlock>
    const nextVictim: array<nat>
    var active: Option<ActiveInstruction>

    ghost predicate Valid()
      reads this, blocks, nextVictim
    {
      && blocks.Length == BLOCK_SLOTS && nextVictim.Length == BLOCK_SETS
      && (forall s :: 0 <= s < BLOCK_SLOTS ==> |blocks[s].instructions| == MAX_BLOCK_INSTRUCTIONS)
      && (forall s :: 0 <= s < BLOCK_SETS ==> nextVictim[s] < BLOCK_WAYS)
      && (active.Some? ==> active.value.slot < BLOCK_SLOTS && 1 <= active.value.index < MAX_BLOCK_INSTRUCTIONS)
    }

    /** The location names a live entry of a block that is current. */
    ghost predicate Located(l: CacheLocation, generations: seq<nat>)
      requires Valid()
      reads this, blocks, nextVictim
    {
      && l.slot < BLOCK_SLOTS && l.index < blocks[l.slot].len <= MAX_BLOCK_INSTRUCTIONS
      && blocks[l.slot].startPa != INVALID_PA && blocks[l.slot].Current(generations)
      && blocks[l.slot].instructions[l.index] == Some(l.instruction)
    }

    constructor ()
      ensures Valid() && fresh(blocks) && fresh(nextVictim) && active == None
      ensures forall s :: 0 <= s < BLOCK_SLOTS ==> blocks[s].startPa == INVALID_PA
    {
      blocks := new DecodedBlock[BLOCK_SLOTS](_ =>
        DecodedBlock(INVALID_PA, 0, 0, 0, seq(MAX_BLOCK_INSTRUCTIONS, _ => None)));
      nextVictim := new nat[BLOCK_SETS](_ => 0);
      active := None;
    }

    method Flush()
      requires Valid()
      modifies this, blocks, nextVictim
      ensures Valid() && active == None
      ensures forall s :: 0 <= s < BLOCK_SLOTS ==> blocks[s].startPa == INVALID_PA
    {
      for s := 0 to blocks.Length
        invariant Valid()
        invariant forall t :: 0 <= t < s ==> blocks[t].startPa == INVALID_PA
      {
        Invalidate(s);
      }
      for s := 0 to nextVictim.Length
        invariant Valid()
        invariant forall t :: 0 <= t < BLOCK_SLOTS ==> blocks[t].startPa == INVALID_PA
      {
        nextVictim[s] := 0;
      }
      active := None;
    }

    method Invalidate(slot: nat)
      requires Valid() && slot < BLOCK_SLOTS
      modifies blocks
      ensures Valid()
      ensures blocks[slot].startPa == INVALID_PA
      ensures forall s :: 0 <= s < BLOCK_SLOTS && s != slot ==> blocks[s] == old(blocks[s])
    {
      blocks[slot] := blocks[slot].(startPa := INVALID_PA, len := 0);
    }

    /** Whether continuing at `pc` finds the next instruction of the active block. */
    ghost predicate Continues(pc: nat, generations: seq<nat>)
      requires Valid()
      reads this, blocks, nextVictim
    {
      Continuing(blocks[..], active, pc, generations)
    }

    /**
     Continue the active block. A hit is exactly a continuation, and returns an
     instruction that RAM still holds at the expected physical address.
     */
    method LookupActive(pc: nat, ram: Ram, ghost decode: Decoder) returns (r: ActiveLookup)
      requires Valid() && Coherent(blocks[..], ram.data, ram.generations, decode)
      modifies this`active, blocks
      ensures Valid() && Coherent(blocks[..], ram.data, ram.generations, decode) && active == None
      ensures r.ActiveHit? <==> old(Continues(pc, ram.generations))
      ensures r.ActiveHit? ==>
        && Located(r.location, ram.generations)
        && r.location.instruction.pa == old(active).value.expectedPa
        && Faithful(r.location.instruction, ram.data, blocks[r.location.slot].ramPage, decode)
      ensures r.Append? ==> r.slot < BLOCK_SLOTS
      ensures r.Append? <==> old(Appending(blocks[..], active, pc, ram.generations))
      ensures r.Append? ==> (r.slot, r.index) == old((active.value.slot, active.value.index))
      ensures r.ActiveHit? ==>
        (r.location.slot, r.location.index) == old((active.value.slot, active.value.index))
      ensures r.ActiveHit? || r.Append? || old(active).None? ==> blocks[..] == old(blocks[..])
    {
      if active == None {
        return NoActive;
      }
      var a := active.value;
      active := None;
      var b := blocks[a.slot];
      assert BlockCoherent(blocks[..][a.slot], ram.data, ram.generations, decode);
      if a.expectedPc == pc && b.startPa != INVALID_PA && b.Current(ram.generations) {
        if a.index < b.len {
          var i := b.instructions[a.index].value;
          if i.pa == a.expectedPa {
            return ActiveHit(CacheLocation(a.slot, a.index, i));
          }
        } else if a.index == b.len && b.len < MAX_BLOCK_INSTRUCTIONS {
          return Append(a.slot, a.index);
        }
      } else if b.startPa != INVALID_PA && !b.Current(ram.generations) {
        Invalidate(a.slot);
      }
      return NoActive;
    }

    /**
     Look up a block by its start. A hit returns the instruction RAM holds at
     `pa` now; a miss means no current block of its set starts there.
     */
    method LookupPhysical(pa: nat, ram: Ram, ghost decode: Decoder) returns (r: Lookup)
      requires Valid() && pa != INVALID_PA && Coherent(blocks[..], ram.data, ram.generations, decode)
      modifies blocks
      ensures Valid() && Coherent(blocks[..], ram.data, ram.generations, decode) && active == old(active)
      ensures r.Hit? ==>
        && Located(r.location, ram.generations)
        && r.location.instruction.pa == pa
        && Faithful(r.location.instruction, ram.data, blocks[r.location.slot].ramPage, decode)
      ensures r.Miss? ==>
        forall s :: InSet(s, pa) ==> blocks[s].startPa != pa
      ensures r.Hit? ==> r.location.index == 0 && StartsAt(blocks[..], pa, r.location.slot)
      ensures old(forall s :: StartsAt(blocks[..], pa, s) ==> blocks[s].Current(ram.generations)) ==>
        blocks[..] == old(blocks[..])
    {
      hide Faithful, SetFor;
      var first := SetFor(pa) * BLOCK_WAYS;
      for slot := first to first + BLOCK_WAYS
        invariant Valid() && Coherent(blocks[..], ram.data, ram.generations, decode)
        invariant forall s :: first <= s < slot ==> blocks[s].startPa != pa
        invariant (forall s :: StartsAt(old(blocks[..]), pa, s) ==> old(blocks[..])[s].Current(ram.generations)) ==>
          blocks[..] == old(blocks[..])
      {
        var b := blocks[slot];
        assert BlockCoherent(blocks[..][slot], ram.data, ram.generations, decode);
        if b.startPa == pa {
          assert StartsAt(blocks[..], pa, slot);
          if b.Current(ram.generations) {
            return Hit(CacheLocation(slot, 0, b.instructions[0].value));
          }
          Invalidate(slot);
        }
      }
      return Miss;
    }

    /**
     Record a decoded instruction: at the end of the block being grown when
     that block still describes the same page, else as a new block in its own
     set, evicting a valid block only from a full set.
     */
    method Insert(pa: nat, ramPage: nat, pageGeneration: nat, instruction: CachedInstruction,
                  append: Option<(nat, nat)>, ghost ram: Ram, ghost decode: Decoder) returns (l: CacheLocation)
      requires Valid() && pa != INVALID_PA && Coherent(blocks[..], ram.data, ram.generations, decode)
      requires instruction.pa == pa && Faithful(instruction, ram.data, ramPage, decode)
      requires ramPage < |ram.generations| && pageGeneration == ram.generations[ramPage]
      requires append.Some? ==> append.value.0 < BLOCK_SLOTS
      modifies blocks, nextVictim
      ensures Valid() && Coherent(blocks[..], ram.data, ram.generations, decode) && active == old(active)
      ensures Located(l, ram.generations) && l.instruction == instruction
      ensures Inserted(old(blocks[..]), blocks[..], ram.generations, append, l)
      ensures l.index == 0 && old(blocks[l.slot]).startPa != INVALID_PA ==>
        forall s :: InSet(s, pa) ==> old(blocks[s]).startPa != INVALID_PA
    {
      hide Faithful, BlockCoherent;
      FaithfulPage(instruction, ram.data, ramPage, decode);
      ghost var before := blocks[..];
      if append.Some? {
        var (slot, index) := append.value;
        var b := blocks[slot];
        GrownIsCoherent(b, ramPage, index, instruction, ram.data, ram.generations, decode);
        if b.startPa != INVALID_PA && b.ramPage == ramPage && b.pageGeneration == pageGeneration
           && index == b.len && index < MAX_BLOCK_INSTRUCTIONS {
          blocks[slot] := b.(len := b.len + 1, instructions := b.instructions[index := Some(instruction)]);
          assert blocks[..] == before[slot := blocks[slot]];
          return CacheLocation(slot, index, instruction);
        }
      }
      var slot := PickVictim(pa);
      FreshIsCoherent(instruction, ramPage, blocks[slot].instructions[0 := Some(instruction)], ram.data, ram.generations, decode);
      blocks[slot] := DecodedBlock(pa, ramPage, pageGeneration, 1,
                                   blocks[slot].instructions[0 := Some(instruction)]);
      assert blocks[..] == before[slot := blocks[slot]];
      return CacheLocation(slot, 0, instruction);
    }

    /** The way to reuse: the first free one from the set's cursor on, else the one at the cursor. */
    method PickVictim(pa: nat) returns (slot: nat)
      requires Valid()
      modifies nextVictim
      ensures Valid() && InSet(slot, pa)
      ensures blocks[slot].startPa != INVALID_PA ==> forall s :: InSet(s, pa) ==> blocks[s].startPa != INVALID_PA
    {
      hide SetFor;
      var set_ := SetFor(pa);
      var first, firstWay := set_ * BLOCK_WAYS, nextVictim[set_];
      slot := first + firstWay;
      for offset := 0 to BLOCK_WAYS
        invariant slot == first + firstWay
        invariant forall o :: 0 <= o < offset ==> blocks[Way(first, firstWay, o)].startPa != INVALID_PA
      {
        if blocks[Way(first, firstWay, offset)].startPa == INVALID_PA {
          slot := Way(first, firstWay, offset);
          break;
        }
      }
      if blocks[slot].startPa != INVALID_PA {
        forall s | InSet(s, pa)
          ensures blocks[s].startPa != INVALID_PA
        {
          assert s == Way(first, firstWay, (s - first - firstWay) % BLOCK_WAYS);
        }
      }
      nextVictim[set_] := (slot - first + 1) % BLOCK_WAYS;
    }

    /** Arm the continuation after an instruction that fell through to the next one of its page. */
    method FinishInstruction(l: CacheLocation, pc: nat, nextPc: nat, actualPc: nat, ram: Ram)
      requires Valid() && l.slot < BLOCK_SLOTS && l.index < MAX_BLOCK_INSTRUCTIONS
      requires pc < TWO_64 && nextPc < TWO_64
      modifies this`active
      ensures Valid()
      ensures active == Armed(blocks[..], l, pc, nextPc, actualPc, ram.generations)
    {
      active := None;
      if EndsBlock(l.instruction.op) || actualPc != nextPc {
        return;
      }
      var b := blocks[l.slot];
      if b.startPa == INVALID_PA || !b.Current(ram.generations)
         || b.instructions[l.index] == None || b.instructions[l.index].value.pa != l.instruction.pa
         || l.index + 1 >= MAX_BLOCK_INSTRUCTIONS || nextPc / PAGE != pc / PAGE {
        return;
      }
      active := Some(ActiveInstruction(l.slot, l.index + 1, nextPc, (l.instruction.pa + (nextPc - pc) % TWO_64) % TWO_64));
    }
  }
}
