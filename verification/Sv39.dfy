/**
 Sv39 address translation as a function of memory: what a hart that walks the
 page table on every access computes, and what the walker's own accessed/dirty
 updates can and cannot change.
 */
module Sv39 {
  import opened Bytes
  import opened Trap

  type Memory = seq<byte>

  const DRAM_BASE: nat := 0x8000_0000
  const PAGE: nat := 4096
  const TWO_64: nat := 0x1_0000_0000_0000_0000

  /** The CSR-derived inputs of a translation; `mode` already honours MPRV. */
  datatype View = View(satp: nat, mode: Mode, mxr: bool, sum: bool, adue: bool) {
    predicate Translated() {
      satp / 0x1000_0000_0000_0000 == 8 && mode != Machine
    }
  }

  /** Physical page of the root table. */
  function Root(satp: nat): nat {
    satp % 0x1000_0000_0000
  }

  /** The fields of a 64-bit page-table entry that the walk looks at. */
  datatype Pte = Pte(v: bool, r: bool, w: bool, x: bool, u: bool, a: bool, d: bool, ppn: nat, reserved: bool) {
    predicate Leaf() {
      r || x
    }

    /** Faults whatever the level. */
    predicate Malformed() {
      reserved || !v || (w && !r)
    }

    predicate Permits(mode: Mode, mxr: bool, sum: bool, acc: Access) {
      && (mode.User? ==> u)
      && (mode.Supervisor? && u ==> !acc.Fetch? && sum)
      && match acc
         case Fetch => x
         case Load => r || (mxr && x)
         case Store => w
    }

    predicate UpToDate(acc: Access) {
      a && (acc.Store? ==> d)
    }
  }

  /** Bits 0 to 4 are V R W X U, bits 6 and 7 are A and D, bits 10 to 53 the page number. */
  function DecodePte(word: nat): Pte {
    var low, rest := word % 64, word / 64;
    var high := rest / 4;
    Pte(low % 2 == 1, low / 2 % 2 == 1, low / 4 % 2 == 1, low / 8 % 2 == 1, low / 16 % 2 == 1,
        rest % 2 == 1, rest / 2 % 2 == 1,
        high / 4 % 0x1000_0000_0000, high / 0x4000_0000_0000 != 0)
  }

  /** The entry with A set, and D too for a store. */
  function Marked(word: nat, acc: Access): nat {
    var rest := word / 64;
    word + (if rest % 2 == 1 then 0 else 64) + (if acc.Store? && rest / 2 % 2 == 0 then 128 else 0)
  }

  predicate InRam(mem: Memory, addr: nat, size: nat) {
    DRAM_BASE <= addr && addr + size <= DRAM_BASE + |mem|
  }

  function WordAt(mem: Memory, addr: nat): nat
    requires InRam(mem, addr, 8)
  {
    LeValue(mem[addr - DRAM_BASE..addr - DRAM_BASE + 8])
  }

  function WithWord(mem: Memory, addr: nat, word: nat): (m: Memory)
    requires InRam(mem, addr, 8)
    ensures |m| == |mem|
  {
    Splice(mem, addr - DRAM_BASE, LeBytes(word, 8))
  }

  type Level = l: nat | l <= 2

  /** The nine bits of a virtual page number that index a table of `level`. */
  function Index(vpn: nat, level: Level): nat {
    if level == 0 then vpn % 512 else if level == 1 then vpn / 512 % 512 else vpn / 0x4_0000 % 512
  }

  /** A superpage's physical page number must be a multiple of its size. */
  predicate Aligned(ppn: nat, level: Level) {
    if level == 0 then true else if level == 1 then ppn % 512 == 0 else ppn % 0x4_0000 == 0
  }

  /** How far down a walk got: the leaf entry it ended at, or the fault it hit. */
  datatype Resolution = NoPage | NoAccess | LeafAt(pte: nat, level: Level)

  /**
   The permission-independent part of a walk of virtual page `vpn`, from the
   table in physical page `table`, whose entries are level-`level` ones.
   */
  function ResolveFrom(mem: Memory, table: nat, vpn: nat, level: Level): (r: Resolution)
    ensures r.LeafAt? ==> InRam(mem, r.pte, 8)
    decreases level
  {
    var at := table * PAGE + Index(vpn, level) * 8;
    if !InRam(mem, at, 8) then NoAccess else
    var p := DecodePte(WordAt(mem, at));
    if p.Malformed() then NoPage
    else if p.Leaf() then
      if !Aligned(p.ppn, level) then NoPage else LeafAt(at, level)
    else if level == 0 || p.d || p.a || p.u then NoPage
    else ResolveFrom(mem, p.ppn, vpn, level - 1)
  }

  function Resolve(mem: Memory, satp: nat, vpn: nat): (r: Resolution)
    ensures r.LeafAt? ==> InRam(mem, r.pte, 8)
  {
    ResolveFrom(mem, Root(satp), vpn, 2)
  }

  predicate Canonical(va: nat) {
    va < 0x40_0000_0000 || TWO_64 - 0x40_0000_0000 <= va < TWO_64
  }

  /** The 4-KiB frame a leaf gives page `vpn`: a superpage takes its low bits from the page number. */
  function Frame(ppn: nat, level: Level, vpn: nat): nat {
    if level == 0 then ppn
    else if level == 1 then ppn / 512 * 512 + vpn % 512
    else ppn / 0x4_0000 * 0x4_0000 + vpn % 0x4_0000
  }

  /** Where a leaf at `level` with physical page number `ppn` sends `va`. */
  function Target(ppn: nat, level: Level, va: nat): nat {
    Frame(ppn, level, va / PAGE) * PAGE + va % PAGE
  }

  datatype Translation = Translation(result: Result<nat>, mem: Memory)

  /** Translate by walking: the answer, and memory with any A/D update made. */
  function Translate(mem: Memory, view: View, acc: Access, va: nat): (t: Translation)
    ensures |t.mem| == |mem|
  {
    if !view.Translated() then Translation(Ok(va), mem)
    else if !Canonical(va) then Translation(Err(PageFault(acc, va)), mem)
    else
      match Resolve(mem, view.satp, va / PAGE)
      case NoPage => Translation(Err(PageFault(acc, va)), mem)
      case NoAccess => Translation(Err(AccessFault(acc, va)), mem)
      case LeafAt(pte, level) =>
        var word := WordAt(mem, pte);
        var p := DecodePte(word);
        if !p.Permits(view.mode, view.mxr, view.sum, acc) then Translation(Err(PageFault(acc, va)), mem)
        else if p.UpToDate(acc) then Translation(Ok(Target(p.ppn, level, va)), mem)
        else if !view.adue then Translation(Err(PageFault(acc, va)), mem)
        else Translation(Ok(Target(p.ppn, level, va)), WithWord(mem, pte, Marked(word, acc)))
  }

  lemma Untranslated(mem: Memory, view: View, acc: Access, va: nat)
    requires !view.Translated()
    ensures Translate(mem, view, acc, va) == Translation(Ok(va), mem)
  {
  }

  // ------------------------------------------------------------------
  // Words of memory
  // ------------------------------------------------------------------

  lemma WordBound(mem: Memory, addr: nat)
    requires InRam(mem, addr, 8)
    ensures WordAt(mem, addr) < TWO_64
  {
    LeValueBound(mem[addr - DRAM_BASE..addr - DRAM_BASE + 8]);
    Radix8();
  }

  /** Aligned words do not overlap, so writing one leaves every other alone. */
  lemma WordAfterWrite(mem: Memory, at: nat, word: nat, addr: nat)
    requires InRam(mem, at, 8) && InRam(mem, addr, 8)
    requires at % 8 == 0 && addr % 8 == 0 && word < TWO_64
    ensures WordAt(WithWord(mem, at, word), addr) == if addr == at then word else WordAt(mem, addr)
  {
    var after := WithWord(mem, at, word);
    var lo := addr - DRAM_BASE;
    if addr == at {
      assert after[lo..lo + 8] == LeBytes(word, 8);
      Radix8();
      LeRoundTrip(word, 8);
    } else {
      assert after[lo..lo + 8] == mem[lo..lo + 8];
    }
  }

  /** Bits 6 and 7 and what lies around them determine a word, and back. */
  lemma Digits(low: nat, a: nat, d: nat, high: nat)
    requires low < 64 && a < 2 && d < 2
    ensures var word := 64 * (2 * (2 * high + d) + a) + low;
            && word % 64 == low && word / 64 % 2 == a
            && word / 64 / 2 % 2 == d && word / 64 / 4 == high
  {
    var rest := 2 * (2 * high + d) + a;
    assert (64 * rest + low) / 64 == rest;
    assert rest / 2 == 2 * high + d;
    assert rest / 4 == high;
  }

  lemma MarkedDigits(word: nat, acc: Access)
    ensures var rest, rest' := word / 64, Marked(word, acc) / 64;
            && Marked(word, acc) % 64 == word % 64
            && rest' / 4 == rest / 4
            && rest' % 2 == 1
            && rest' / 2 % 2 == if acc.Store? then 1 else rest / 2 % 2
  {
    var low, a, d, high := word % 64, word / 64 % 2, word / 64 / 2 % 2, word / 64 / 2 / 2;
    Digits(low, a, d, high);
    Digits(low, 1, if acc.Store? then 1 else d, high);
  }

  lemma MarkedKeepsOtherBits(word: nat, acc: Access)
    requires word < TWO_64
    ensures Marked(word, acc) < TWO_64
    ensures Marked(word, acc) % 64 == word % 64
    ensures DecodePte(Marked(word, acc)) == DecodePte(word).(a := true, d := DecodePte(word).d || acc.Store?)
    ensures DecodePte(word).UpToDate(acc) ==> Marked(word, acc) == word
  {
    MarkedDigits(word, acc);
  }

  lemma {:induction false} LeafIsLeaf(mem: Memory, table: nat, vpn: nat, level: Level)
    ensures var r := ResolveFrom(mem, table, vpn, level);
            r.LeafAt? ==>
              var p := DecodePte(WordAt(mem, r.pte));
              r.pte % 8 == 0 && p.Leaf() && !p.Malformed() && Aligned(p.ppn, r.level)
    decreases level
  {
    hide DecodePte, WordAt, Index, Aligned;
    var entry := table * PAGE + Index(vpn, level) * 8;
    if InRam(mem, entry, 8) {
      var p := DecodePte(WordAt(mem, entry));
      if !p.Malformed() && !p.Leaf() && level > 0 && !(p.d || p.a || p.u) {
        LeafIsLeaf(mem, p.ppn, vpn, level - 1);
      }
    }
  }

  // ------------------------------------------------------------------
  // Accessed/dirty updates
  // ------------------------------------------------------------------

  /** Nothing, or A and perhaps D set in what is a leaf entry. */
  predicate Remarked(word: nat, word': nat) {
    word' == word || (DecodePte(word).Leaf() && (word' == Marked(word, Load) || word' == Marked(word, Store)))
  }

  /** Memory changed in A and D bits of leaf entries only. */
  ghost predicate AdOnly(mem: Memory, mem': Memory) {
    && |mem'| == |mem|
    && (forall a: nat :: a % 8 == 0 && InRam(mem, a, 8) ==> Remarked(WordAt(mem, a), WordAt(mem', a)))
    && (forall i :: |mem| / 8 * 8 <= i < |mem| ==> mem'[i] == mem[i])
  }

  lemma RemarkedFields(word: nat, word': nat)
    requires word < TWO_64 && Remarked(word, word')
    ensures word' < TWO_64
    ensures var p, p' := DecodePte(word), DecodePte(word');
            && p' == p.(a := p'.a, d := p'.d) && (p.a ==> p'.a) && (p.d ==> p'.d)
            && (!p.Leaf() ==> p' == p)
  {
    hide DecodePte, Marked;
    MarkedKeepsOtherBits(word, Load);
    MarkedKeepsOtherBits(word, Store);
  }

  /**
   A/D changes, however many, change no walk of any page from any table, not
   even one that meets a changed entry at another level or as part of its own
   table.
   */
  lemma {:induction false} AdChangesAreInvisible(mem: Memory, mem': Memory, table: nat, vpn: nat, level: Level)
    requires AdOnly(mem, mem')
    ensures ResolveFrom(mem', table, vpn, level) == ResolveFrom(mem, table, vpn, level)
    decreases level
  {
    hide DecodePte, WordAt, Index, Aligned, Remarked;
    var entry: nat := table * PAGE + Index(vpn, level) * 8;
    if InRam(mem, entry, 8) {
      WordBound(mem, entry);
      RemarkedFields(WordAt(mem, entry), WordAt(mem', entry));
      var p := DecodePte(WordAt(mem, entry));
      if !p.Malformed() && !p.Leaf() && level > 0 && !(p.d || p.a || p.u) {
        AdChangesAreInvisible(mem, mem', p.ppn, vpn, level - 1);
      }
    }
  }

  /** A walk's own update is an A/D change. */
  lemma MarkIsAdOnly(mem: Memory, at: nat, acc: Access)
    requires at % 8 == 0 && InRam(mem, at, 8) && DecodePte(WordAt(mem, at)).Leaf()
    ensures AdOnly(mem, WithWord(mem, at, Marked(WordAt(mem, at), acc)))
  {
    hide DecodePte, Marked, WordAt;
    var word := WordAt(mem, at);
    WordBound(mem, at);
    MarkedKeepsOtherBits(word, acc);
    SameMark(word, acc);
    var after := WithWord(mem, at, Marked(word, acc));
    forall a: nat | a % 8 == 0 && InRam(mem, a, 8)
      ensures Remarked(WordAt(mem, a), WordAt(after, a))
    {
      WordAfterWrite(mem, at, Marked(word, acc), a);
    }
  }

  /** Loads and fetches mark alike. */
  lemma SameMark(word: nat, acc: Access)
    ensures Marked(word, acc) == Marked(word, Load) || Marked(word, acc) == Marked(word, Store)
  {
  }

  lemma RemarkedTrans(w: nat, w': nat, w'': nat)
    requires w < TWO_64 && Remarked(w, w') && Remarked(w', w'')
    ensures Remarked(w, w'')
  {
    hide DecodePte, Marked;
    RemarkedFields(w, w');
    MarkTwice(w, Load, Load);
    MarkTwice(w, Load, Store);
    MarkTwice(w, Store, Load);
    MarkTwice(w, Store, Store);
  }

  lemma MarkTwice(w: nat, acc: Access, acc2: Access)
    requires w < TWO_64
    ensures Marked(Marked(w, acc), acc2) == Marked(w, if acc.Store? then acc else acc2)
  {
    MarkedDigits(w, acc);
  }

  lemma AdOnlyTrans(mem: Memory, mem': Memory, mem'': Memory)
    requires AdOnly(mem, mem') && AdOnly(mem', mem'')
    ensures AdOnly(mem, mem'')
  {
    hide WordAt, Remarked;
    forall a: nat | a % 8 == 0 && InRam(mem, a, 8)
      ensures Remarked(WordAt(mem, a), WordAt(mem'', a))
    {
      WordBound(mem, a);
      RemarkedTrans(WordAt(mem, a), WordAt(mem', a), WordAt(mem'', a));
    }
  }

  lemma TranslateIsAdOnly(mem: Memory, view: View, acc: Access, va: nat)
    ensures AdOnly(mem, Translate(mem, view, acc, va).mem)
  {
    hide DecodePte, Marked, WordAt, WithWord, ResolveFrom, Frame, Remarked;
    AdOnlyRefl(mem);
    var used := Resolve(mem, view.satp, va / PAGE);
    if used.LeafAt? {
      LeafIsLeaf(mem, Root(view.satp), va / PAGE, 2);
      MarkIsAdOnly(mem, used.pte, acc);
    }
  }

  lemma AdOnlyRefl(mem: Memory)
    ensures AdOnly(mem, mem)
  {
    hide WordAt, DecodePte, Marked;
  }

  /** The leaf entry that page `vpn` resolves to, in a memory where it does. */
  function LeafWord(mem: Memory, satp: nat, vpn: nat): nat
    requires Resolve(mem, satp, vpn).LeafAt?
  {
    WordAt(mem, Resolve(mem, satp, vpn).pte)
  }

  /** Translating `va` under `view` uses the entry at `pte`. */
  predicate Uses(mem: Memory, view: View, va: nat, pte: nat) {
    && view.Translated()
    && var r := Resolve(mem, view.satp, va / PAGE);
       r.LeafAt? && r.pte == pte
  }

  /**
   What any translation leaves of any page: it resolves as before, to an entry
   that is unchanged or, if it is the entry that translation used, marked.
   */
  lemma TranslateKeepsResolutions(mem: Memory, view: View, acc: Access, va: nat, satp: nat, vpn: nat)
    ensures var after, r := Translate(mem, view, acc, va).mem, Resolve(mem, satp, vpn);
            && Resolve(after, satp, vpn) == r
            && (r.LeafAt? ==>
                  var word, word' := LeafWord(mem, satp, vpn), LeafWord(after, satp, vpn);
                  || word' == word
                  || (word' == Marked(word, acc) && view.adue && Uses(mem, view, va, r.pte)))
  {
    hide DecodePte, Marked, WordAt, WithWord, ResolveFrom;
    var after, r := Translate(mem, view, acc, va).mem, Resolve(mem, satp, vpn);
    if after != mem {
      var used := Resolve(mem, view.satp, va / PAGE);
      var word := WordAt(mem, used.pte);
      LeafIsLeaf(mem, Root(view.satp), va / PAGE, 2);
      TranslateIsAdOnly(mem, view, acc, va);
      AdChangesAreInvisible(mem, after, Root(satp), vpn, 2);
      if r.LeafAt? {
        LeafIsLeaf(mem, Root(satp), vpn, 2);
        WordBound(mem, used.pte);
        MarkedKeepsOtherBits(word, acc);
        WordAfterWrite(mem, used.pte, Marked(word, acc), r.pte);
      }
    }
  }

  /** With ADUE on, A/D changes leave every translation's outcome as it was. */
  lemma AdChangesKeepResult(mem: Memory, mem': Memory, view: View, acc: Access, va: nat)
    requires AdOnly(mem, mem') && view.adue
    ensures Translate(mem', view, acc, va).result == Translate(mem, view, acc, va).result
  {
    hide DecodePte, Marked, WordAt, WithWord, ResolveFrom, Frame, Remarked;
    AdChangesAreInvisible(mem, mem', Root(view.satp), va / PAGE, 2);
    var r := Resolve(mem, view.satp, va / PAGE);
    if r.LeafAt? {
      LeafIsLeaf(mem, Root(view.satp), va / PAGE, 2);
      WordBound(mem, r.pte);
      RemarkedFields(WordAt(mem, r.pte), WordAt(mem', r.pte));
    }
  }

  /**
   With ADUE on, no translation changes the outcome of another: not its physical
   address, not its fault, whatever the two accesses, modes and tables are.
   */
  lemma TranslationsDoNotInterfere(mem: Memory, view: View, acc: Access, va: nat,
                                   view2: View, acc2: Access, va2: nat)
    requires view2.adue
    ensures Translate(Translate(mem, view, acc, va).mem, view2, acc2, va2).result
         == Translate(mem, view2, acc2, va2).result
  {
    TranslateIsAdOnly(mem, view, acc, va);
    AdChangesKeepResult(mem, Translate(mem, view, acc, va).mem, view2, acc2, va2);
  }

  /**
   With ADUE off, a translation can be changed by an earlier one in one way
   only: a page fault for want of A or D becomes a success, and then the two
   used the same entry.
   */
  lemma InterferenceWithoutAdue(mem: Memory, view: View, acc: Access, va: nat,
                                view2: View, acc2: Access, va2: nat)
    requires !view2.adue
    ensures var before := Translate(mem, view2, acc2, va2).result;
            var after := Translate(Translate(mem, view, acc, va).mem, view2, acc2, va2).result;
            || after == before
            || (&& before == Err(PageFault(acc2, va2))
                && after == Translate(mem, view2.(adue := true), acc2, va2).result
                && after.Ok?
                && exists pte :: Uses(mem, view, va, pte) && Uses(mem, view2, va2, pte))
  {
    hide DecodePte, Marked, WordAt, WithWord, ResolveFrom;
    TranslateKeepsResolutions(mem, view, acc, va, view2.satp, va2 / PAGE);
    var r := Resolve(mem, view2.satp, va2 / PAGE);
    if r.LeafAt? {
      WordBound(mem, r.pte);
      MarkedKeepsOtherBits(WordAt(mem, r.pte), acc);
      assert view.Translated() && view2.Translated() && Uses(mem, view, va, r.pte) ==> Uses(mem, view2, va2, r.pte);
    }
  }

  /** Translating again, even with ADUE now off, gives the same address and writes nothing. */
  lemma RepeatIsSilent(mem: Memory, view: View, acc: Access, va: nat, adue: bool)
    requires Translate(mem, view, acc, va).result.Ok?
    ensures var t := Translate(mem, view, acc, va);
            Translate(t.mem, view.(adue := adue), acc, va) == t
  {
    hide DecodePte, Marked, WordAt, WithWord, ResolveFrom;
    if view.Translated() {
      TranslateKeepsResolutions(mem, view, acc, va, view.satp, va / PAGE);
      var r := Resolve(mem, view.satp, va / PAGE);
      WordBound(mem, r.pte);
      MarkedKeepsOtherBits(WordAt(mem, r.pte), acc);
      LeafIsLeaf(mem, Root(view.satp), va / PAGE, 2);
      WordAfterWrite(mem, r.pte, Marked(WordAt(mem, r.pte), acc), r.pte);
    }
  }
}
