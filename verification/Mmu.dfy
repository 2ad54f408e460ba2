/**
 The direct-mapped TLB. Entries are tagged by 4-KiB virtual page only, keep the
 leaf's flag bits, and are trusted until the next flush.
 */
module TlbMmu {
  import opened Bytes
  import opened Trap
  import opened Sv39
  import opened GuestRam

  const TLB_ENTRIES: nat := 256
  const INVALID: nat := TWO_64 - 1

  /** A virtual page, the 4-KiB physical frame it maps to, and the leaf's flag byte. */
  datatype TlbEntry = TlbEntry(vpn: nat, frame: nat, flags: nat)

  /** The entry says what walking its page in `mem` would find, up to a D bit set since. */
  ghost predicate Truthful(e: TlbEntry, mem: Memory, satp: nat) {
    var r := Resolve(mem, satp, e.vpn);
    && Canonical(e.vpn * PAGE)
    && r.LeafAt?
    && var p, f := DecodePte(LeafWord(mem, satp, e.vpn)), DecodePte(e.flags);
       && f.r == p.r && f.w == p.w && f.x == p.x && f.u == p.u
       && f.a && p.a && (f.d ==> p.d)
       && e.frame == Frame(p.ppn, r.level, e.vpn)
  }

  /** Every entry is invalid, or its page is in `stale`, or it is truthful. */
  ghost predicate Coherent(tlb: seq<TlbEntry>, mem: Memory, satp: nat, stale: set<nat>) {
    forall i :: 0 <= i < |tlb| ==>
      tlb[i].vpn == INVALID || tlb[i].vpn in stale || Truthful(tlb[i], mem, satp)
  }

  // ------------------------------------------------------------------
  // Arithmetic of pages
  // ------------------------------------------------------------------

  /** The bytes an entry of `level` maps. */
  function Span(level: Level): (n: nat)
    ensures n > 0
  {
    if level == 0 then PAGE else if level == 1 then 0x20_0000 else 0x4000_0000
  }

  /** The physical address built from masks is the frame's address plus the page offset. */
  lemma MaskedTarget(ppn: nat, level: Level, va: nat)
    ensures ppn * PAGE / Span(level) * Span(level) + va % Span(level) == Target(ppn, level, va)
  {
    if level == 1 {
      Masked512(ppn, 0);
      Masked512(va / PAGE, va % PAGE);
    } else if level == 2 {
      Masked256K(ppn, 0);
      Masked256K(va / PAGE, va % PAGE);
    }
  }

  lemma Masked512(q: nat, o: nat)
    requires o < PAGE
    ensures (q * PAGE + o) / 0x20_0000 == q / 512
    ensures (q * PAGE + o) % 0x20_0000 == q % 512 * PAGE + o
  {
    assert q * PAGE + o == 0x20_0000 * (q / 512) + (q % 512 * PAGE + o);
  }

  lemma Masked256K(q: nat, o: nat)
    requires o < PAGE
    ensures (q * PAGE + o) / 0x4000_0000 == q / 0x4_0000
    ensures (q * PAGE + o) % 0x4000_0000 == q % 0x4_0000 * PAGE + o
  {
    assert q * PAGE + o == 0x4000_0000 * (q / 0x4_0000) + (q % 0x4_0000 * PAGE + o);
  }

  lemma OffsetKept(frame: nat, va: nat)
    ensures (frame * PAGE + va % PAGE) % PAGE == va % PAGE
    ensures (frame * PAGE + va % PAGE) / PAGE == frame
  {
  }

  lemma TargetOffset(ppn: nat, level: Level, va: nat)
    ensures Target(ppn, level, va) % PAGE == va % PAGE
  {
    hide Frame;
    OffsetKept(Frame(ppn, level, va / PAGE), va);
  }

  /** The low byte of an entry holds all its flags. */
  lemma LowByteFlags(word: nat)
    ensures var p, f := DecodePte(word), DecodePte(word % 256);
            f.r == p.r && f.w == p.w && f.x == p.x && f.u == p.u && f.a == p.a && f.d == p.d
  {
    hide DecodePte;
    LowDigits(word);
    SameFlags(word, word % 256);
  }

  /** Flags are read from the low six bits and bits 6 and 7. */
  lemma SameFlags(word: nat, other: nat)
    requires word % 64 == other % 64 && word / 64 % 2 == other / 64 % 2 && word / 64 / 2 % 2 == other / 64 / 2 % 2
    ensures var p, f := DecodePte(word), DecodePte(other);
            f.r == p.r && f.w == p.w && f.x == p.x && f.u == p.u && f.a == p.a && f.d == p.d
  {
  }

  lemma LowDigits(word: nat)
    ensures word % 256 % 64 == word % 64 && word % 256 / 64 % 2 == word / 64 % 2
    ensures word % 256 / 64 / 2 % 2 == word / 64 / 2 % 2
  {
    var high, q, low := word / 256, word % 256 / 64, word % 256 % 64;
    assert word == 64 * (4 * high + q) + low;
    assert word / 64 == 4 * high + q && word % 64 == low;
    assert (4 * high + q) / 2 == 2 * high + q / 2;
  }

  // ------------------------------------------------------------------
  // Why an entry may be trusted
  // ------------------------------------------------------------------

  /** A hit on a truthful entry answers as the walk would, and the walk would write nothing. */
  lemma HitAgrees(e: TlbEntry, mem: Memory, view: View, acc: Access, va: nat)
    requires view.Translated() && e.vpn == va / PAGE && va < TWO_64
    requires Truthful(e, mem, view.satp)
    ensures var f := DecodePte(e.flags);
            && (!f.Permits(view.mode, view.mxr, view.sum, acc) ==>
                  Translate(mem, view, acc, va) == Translation(Err(PageFault(acc, va)), mem))
            && (f.Permits(view.mode, view.mxr, view.sum, acc) && (acc.Store? ==> f.d) ==>
                  Translate(mem, view, acc, va) == Translation(Ok(e.frame * PAGE + va % PAGE), mem))
  {
    hide DecodePte, WordAt, ResolveFrom, Frame;
  }

  /** Walks, of any page in any mode, leave the whole TLB as truthful as it was. */
  lemma TranslateKeepsCoherence(tlb: seq<TlbEntry>, mem: Memory, satp: nat, stale: set<nat>,
                                view: View, acc: Access, va: nat)
    requires Coherent(tlb, mem, satp, stale)
    ensures Coherent(tlb, Translate(mem, view, acc, va).mem, satp, stale)
  {
    hide DecodePte, Marked, WordAt, WithWord, ResolveFrom, Frame, Translate;
    forall i | 0 <= i < |tlb| && tlb[i].vpn != INVALID && tlb[i].vpn !in stale
      ensures Truthful(tlb[i], Translate(mem, view, acc, va).mem, satp)
    {
      var vpn := tlb[i].vpn;
      TranslateKeepsResolutions(mem, view, acc, va, satp, vpn);
      WordBound(mem, Resolve(mem, satp, vpn).pte);
      MarkedKeepsOtherBits(LeafWord(mem, satp, vpn), acc);
    }
  }

  /** What a successful walk puts in the TLB is truthful. */
  lemma FillIsTruthful(mem: Memory, view: View, acc: Access, va: nat, e: TlbEntry)
    requires view.Translated() && va < TWO_64 && Translate(mem, view, acc, va).result.Ok?
    requires e.vpn == va / PAGE
    requires e.frame == Translate(mem, view, acc, va).result.value / PAGE
    requires e.flags == Marked(LeafWord(mem, view.satp, va / PAGE), acc) % 256
    ensures Truthful(e, Translate(mem, view, acc, va).mem, view.satp)
  {
    hide DecodePte, Marked, WordAt, WithWord, ResolveFrom, Frame;
    var r := Resolve(mem, view.satp, va / PAGE);
    var word := WordAt(mem, r.pte);
    TranslateKeepsResolutions(mem, view, acc, va, view.satp, va / PAGE);
    WordBound(mem, r.pte);
    MarkedKeepsOtherBits(word, acc);
    LowByteFlags(Marked(word, acc));
    LeafIsLeaf(mem, Root(view.satp), va / PAGE, 2);
    WordAfterWrite(mem, r.pte, Marked(word, acc), r.pte);
  }

  class Mmu {
    const tlb: array<TlbEntry>
    var generation: nat

    ghost predicate Valid() {
      tlb.Length == TLB_ENTRIES
    }

    constructor ()
      ensures Valid() && fresh(tlb) && generation == 0
      ensures forall i :: 0 <= i < TLB_ENTRIES ==> tlb[i].vpn == INVALID
    {
      tlb := new TlbEntry[TLB_ENTRIES](_ => TlbEntry(INVALID, 0, 0));
      generation := 0;
    }

    method FlushAll()
      requires Valid()
      modifies this, tlb
      ensures generation == old(generation) + 1
      ensures forall i :: 0 <= i < TLB_ENTRIES ==> tlb[i].vpn == INVALID
    {
      for i := 0 to tlb.Length
        invariant generation == old(generation)
        invariant forall j :: 0 <= j < i ==> tlb[j].vpn == INVALID
      {
        tlb[i] := tlb[i].(vpn := INVALID);
      }
      generation := generation + 1;
    }

    /**
     Translate through the TLB. While the TLB is coherent, and the page is not
     one whose table was edited since the last flush, the answer and the memory
     left behind are those of a fresh walk, for every mode, SUM, MXR, ADUE and
     access; and the TLB stays coherent.
     */
    method Translate(ram: Ram, view: View, acc: Access, va: nat, ghost stale: set<nat>) returns (r: Result<nat>)
      requires Valid() && ram.Valid() && va < TWO_64
      modifies tlb, ram
      ensures r.Ok? ==> r.value % PAGE == va % PAGE
      ensures ram.Valid() && Tracked(old(ram.data), old(ram.generations), ram.data, ram.generations)
      ensures ram.data == old(ram.data) ==> ram.generations == old(ram.generations)
      ensures forall i :: 0 <= i < TLB_ENTRIES ==>
        tlb[i] == old(tlb[i]) || (view.Translated() && r.Ok? && tlb[i].vpn == va / PAGE)
      ensures old(Coherent(tlb[..], ram.data, view.satp, stale)) && (view.Translated() ==> va / PAGE !in stale) ==>
        && Coherent(tlb[..], ram.data, view.satp, stale)
        && Translation(r, ram.data) == Sv39.Translate(old(ram.data), view, acc, va)
    {
      hide DecodePte, Truthful, ResolveFrom, WordAt, Frame, Tracked;
      TrackedRefl(ram.data, ram.generations);
      if !view.Translated() {
        return Ok(va);
      }
      var vpn := va / PAGE;
      var e := tlb[vpn % TLB_ENTRIES];
      if e.vpn == vpn {
        assert old(tlb[..])[vpn % TLB_ENTRIES] == e;
        if DecodePte(e.flags).Permits(view.mode, view.mxr, view.sum, acc) {
          if acc != Store || DecodePte(e.flags).d {
            if Truthful(e, ram.data, view.satp) { HitAgrees(e, ram.data, view, acc, va); }
            OffsetKept(e.frame, va);
            return Ok(e.frame * PAGE + va % PAGE);
          }
        } else {
          if Truthful(e, ram.data, view.satp) { HitAgrees(e, ram.data, view, acc, va); }
          return Err(PageFault(acc, va));
        }
      }
      r := Walk(ram, view, acc, va, stale);
    }

    method Walk(ram: Ram, view: View, acc: Access, va: nat, ghost stale: set<nat>) returns (r: Result<nat>)
      requires Valid() && ram.Valid() && va < TWO_64 && view.Translated()
      modifies tlb, ram
      ensures r.Ok? ==> r.value % PAGE == va % PAGE
      ensures ram.Valid() && Tracked(old(ram.data), old(ram.generations), ram.data, ram.generations)
      ensures ram.data == old(ram.data) ==> ram.generations == old(ram.generations)
      ensures Translation(r, ram.data) == Sv39.Translate(old(ram.data), view, acc, va)
      ensures forall i :: 0 <= i < TLB_ENTRIES ==>
        tlb[i] == old(tlb[i]) || (r.Ok? && tlb[i].vpn == va / PAGE)
      ensures old(Coherent(tlb[..], ram.data, view.satp, stale)) ==>
        Coherent(tlb[..], ram.data, view.satp, stale)
    {
      hide DecodePte, Marked, Frame, Target, Index, Aligned, Truthful, Coherent, Tracked, LeValue;
      ghost var mem := ram.data;
      TrackedRefl(mem, ram.generations);
      if !Canonical(va) {
        return Err(PageFault(acc, va));
      }
      var vpn := va / PAGE;
      var table: nat, level: Level := Root(view.satp), 2;
      while true
        invariant unchanged(ram) && unchanged(tlb) && ram.data == mem && tlb[..] == old(tlb[..])
        invariant Tracked(old(ram.data), old(ram.generations), ram.data, ram.generations)
        invariant Resolve(mem, view.satp, vpn) == ResolveFrom(mem, table, vpn, level)
        decreases level
      {
        var at := table * PAGE + Index(vpn, level) * 8;
        if !InRam(ram.data, at, 8) {
          return Err(AccessFault(acc, va));
        }
        var ok, word := ram.Read(at - DRAM_BASE, 8);
        var p := DecodePte(word);
        if p.Malformed() {
          return Err(PageFault(acc, va));
        }
        if p.Leaf() {
          if !Aligned(p.ppn, level) || !p.Permits(view.mode, view.mxr, view.sum, acc) {
            return Err(PageFault(acc, va));
          }
          r := UseLeaf(ram, view, acc, va, at, level, word, stale);
          return;
        }
        if level == 0 || p.d || p.a || p.u {
          return Err(PageFault(acc, va));
        }
        level, table := level - 1, p.ppn;
      }
    }

    /** Set A, and D for a store, in the leaf's entry, or refuse to. */
    method MarkLeaf(ram: Ram, view: View, acc: Access, vpn: nat, at: nat, level: Level, word: nat) returns (ok: bool)
      requires ram.Valid() && Resolve(ram.data, view.satp, vpn) == LeafAt(at, level) && word == WordAt(ram.data, at)
      modifies ram
      ensures ok <==> Marked(word, acc) == word || view.adue
      ensures ram.Valid() && Tracked(old(ram.data), old(ram.generations), ram.data, ram.generations)
      ensures !ok || Marked(word, acc) == word ==> unchanged(ram)
      ensures ok && Marked(word, acc) != word ==> ram.data == WithWord(old(ram.data), at, Marked(word, acc)) != old(ram.data)
    {
      hide DecodePte, Marked, ResolveFrom, Frame;
      ghost var mem := ram.data;
      TrackedRefl(mem, ram.generations);
      WordBound(mem, at);
      MarkedKeepsOtherBits(word, acc);
      if Marked(word, acc) == word {
        return true;
      }
      if !view.adue {
        return false;
      }
      ok := ram.WriteSlice(at - DRAM_BASE, LeBytes(Marked(word, acc), 8));
      LeafIsLeaf(mem, Root(view.satp), vpn, 2);
      WordAfterWrite(mem, at, Marked(word, acc), at);
    }

    /** The leaf permits the access: update A and D, fill the TLB, form the address. */
    method UseLeaf(ram: Ram, view: View, acc: Access, va: nat, at: nat, level: Level, word: nat, ghost stale: set<nat>)
      returns (r: Result<nat>)
      requires Valid() && ram.Valid() && va < TWO_64 && view.Translated() && Canonical(va)
      requires Resolve(ram.data, view.satp, va / PAGE) == LeafAt(at, level)
      requires word == WordAt(ram.data, at)
      requires DecodePte(word).Permits(view.mode, view.mxr, view.sum, acc)
      modifies tlb, ram
      ensures r.Ok? ==> r.value % PAGE == va % PAGE
      ensures ram.Valid() && Tracked(old(ram.data), old(ram.generations), ram.data, ram.generations)
      ensures ram.data == old(ram.data) ==> ram.generations == old(ram.generations)
      ensures Translation(r, ram.data) == Sv39.Translate(old(ram.data), view, acc, va)
      ensures forall i :: 0 <= i < TLB_ENTRIES ==>
        tlb[i] == old(tlb[i]) || (r.Ok? && tlb[i].vpn == va / PAGE)
      ensures old(Coherent(tlb[..], ram.data, view.satp, stale)) ==>
        Coherent(tlb[..], ram.data, view.satp, stale)
    {
      hide DecodePte, Marked, Frame, Target, ResolveFrom, Truthful, WordAt, WithWord, Tracked;
      ghost var mem := ram.data;
      var p, marked := DecodePte(word), Marked(word, acc);
      WordBound(mem, at);
      MarkedKeepsOtherBits(word, acc);
      var ok := MarkLeaf(ram, view, acc, va / PAGE, at, level, word);
      if !ok {
        return Err(PageFault(acc, va));
      }
      MaskedTarget(p.ppn, level, va);
      TargetOffset(p.ppn, level, va);
      var pa := p.ppn * PAGE / Span(level) * Span(level) + va % Span(level);
      r := Ok(pa);
      var e := TlbEntry(va / PAGE, pa / PAGE, marked % 256);
      FillIsTruthful(mem, view, acc, va, e);
      ghost var before := tlb[..];
      if Coherent(before, mem, view.satp, stale) {
        TranslateKeepsCoherence(before, mem, view.satp, stale, view, acc, va);
      }
      tlb[va / PAGE % TLB_ENTRIES] := e;
    }
  }
}
