/**
 Stores are all or nothing: whatever the alignment and however many pages are
 touched, a trapping store leaves memory as it was but for A/D bits, and a
 successful one puts exactly the little-endian value at the translated bytes.
 */
module Stores {
  import opened Bytes
  import opened Trap
  import opened Isa
  import opened Sv39
  import opened CsrFiles
  import opened Cores
  import opened Harts

  /** Where byte `i` of an access at `va` goes, by a walk of `mem`. */
  function ByteResult(mem: Memory, view: View, acc: Access, va: u64, i: nat): Result<nat> {
    if va + i >= TWO_64 then Err(PageFault(acc, va)) else Sv39.Translate(mem, view, acc, va + i).result
  }

  lemma TranslationKeepsOffset(mem: Memory, view: View, acc: Access, va: nat)
    ensures var r := Sv39.Translate(mem, view, acc, va).result;
            r.Ok? ==> r.value % PAGE == va % PAGE
  {
    hide DecodePte, Marked, WordAt, WithWord, ResolveFrom, Frame;
  }

  /** Bytes of one page translate together. */
  lemma PageTranslatesTogether(mem: Memory, view: View, acc: Access, va: nat, i: nat)
    requires va % PAGE + i < PAGE && va + i < TWO_64
    ensures var r, s := Sv39.Translate(mem, view, acc, va).result, Sv39.Translate(mem, view, acc, va + i).result;
            && (s.Ok? <==> r.Ok?)
            && (r.Ok? ==> s.value == r.value + i)
  {
    hide DecodePte, Marked, WordAt, WithWord, ResolveFrom, Frame;
    assert (va + i) / PAGE == va / PAGE && (va + i) % PAGE == va % PAGE + i;
    SameCanonical(va, i);
  }

  lemma SameCanonical(va: nat, i: nat)
    requires va % PAGE + i < PAGE
    ensures Canonical(va + i) == Canonical(va)
  {
    assert (va + i) / PAGE == va / PAGE;
  }

  /** The current memory is the original one as far as translations under `view` go. */
  ghost predicate SameTranslations(m0: Memory, mem: Memory, view: View) {
    AdOnly(m0, mem) && (view.adue || mem == m0)
  }

  lemma TranslateKeepsTranslations(m0: Memory, mem: Memory, view: View, acc: Access, va: nat)
    requires SameTranslations(m0, mem, view)
    ensures SameTranslations(m0, Sv39.Translate(mem, view, acc, va).mem, view)
    ensures Sv39.Translate(mem, view, acc, va).result == Sv39.Translate(m0, view, acc, va).result
  {
    hide DecodePte, Marked, WordAt, WithWord, ResolveFrom, AdOnly, Frame;
    if view.adue {
      AdChangesKeepResult(m0, mem, view, acc, va);
      TranslateIsAdOnly(mem, view, acc, va);
      AdOnlyTrans(m0, mem, Sv39.Translate(mem, view, acc, va).mem);
    }
  }

  lemma {:induction false} BytesTranslate(m0: Memory, h: Hart, mode: Mode, acc: Access, va: u64, n: nat, pas: seq<nat>)
    requires |pas| <= n && SameTranslations(m0, h.mem, h.core.ViewFor(mode))
    requires forall i :: 0 <= i < |pas| ==> ByteResult(m0, h.core.ViewFor(mode), acc, va, i) == Ok(pas[i])
    ensures var view, o := h.core.ViewFor(mode), TranslateBytes(h, mode, acc, va, n, pas);
            && SameTranslations(m0, o.h.mem, view)
            && (o.r.Ok? <==> forall i :: 0 <= i < n ==> ByteResult(m0, view, acc, va, i).Ok?)
            && (o.r.Ok? ==> forall i :: 0 <= i < n ==> ByteResult(m0, view, acc, va, i) == Ok(o.r.value[i]))
    decreases n - |pas|
  {
    hide SameTranslations, Sv39.Translate;
    if |pas| < n {
      var view := h.core.ViewFor(mode);
      if va + |pas| >= TWO_64 {
        assert ByteResult(m0, view, acc, va, |pas|).Err?;
      } else {
        TranslateKeepsTranslations(m0, h.mem, view, acc, va + |pas|);
        var t := Harts.Translate(h, mode, acc, va + |pas|);
        assert ByteResult(m0, view, acc, va, |pas|) == t.r;
        if t.r.Ok? {
          BytesTranslate(m0, t.h, mode, acc, va, n, pas + [t.r.value]);
        }
      }
    }
  }

  /** `after` is `mem` with bytes[i] at physical address pas[i] for i below n, and nothing else changed. */
  ghost predicate Placed(mem: Memory, after: Memory, pas: seq<nat>, bytes: seq<byte>, n: nat)
    requires n <= |pas| == |bytes|
  {
    && |after| == |mem|
    && (forall i :: 0 <= i < n ==> InRam(mem, pas[i], 1) && after[pas[i] - DRAM_BASE] == bytes[i])
    && (forall j :: 0 <= j < |mem| ==> after[j] == mem[j] || exists i :: 0 <= i < n && pas[i] == j + DRAM_BASE)
  }

  lemma OneByte(b: byte)
    ensures LeBytes(b, 1) == [b]
  {
    assert LeBytes(b, 1) == [b % 256] + LeBytes(b / 256, 0);
  }

  lemma PlaceOne(mem: Memory, now: Memory, pas: seq<nat>, bytes: seq<byte>, n: nat)
    requires n < |pas| == |bytes| && Placed(mem, now, pas, bytes, n)
    requires InRam(mem, pas[n], 1)
    requires forall i, j :: 0 <= i < j < |pas| ==> pas[i] != pas[j]
    ensures Placed(mem, Splice(now, pas[n] - DRAM_BASE, [bytes[n]]), pas, bytes, n + 1)
  {
  }

  lemma {:induction false} BytesArePlaced(p: Platform, h: Hart, m1: Memory, pas: seq<nat>, va: u64, bytes: seq<byte>, done: nat)
    requires |bytes| == |pas| && done <= |pas| && |m1| == |h.mem|
    requires forall i :: 0 <= i < |pas| ==> InRam(m1, pas[i], 1)
    requires forall i, j :: 0 <= i < j < |pas| ==> pas[i] != pas[j]
    requires Placed(m1, h.mem, pas, bytes, done)
    ensures var o := WriteBytes(p, h, pas, va, bytes, done);
            o.r.Ok? && Placed(m1, o.h.mem, pas, bytes, |pas|) && o.h.dev == h.dev
    decreases |pas| - done
  {
    hide Splice, Placed, LeBytes, SameWalk;
    if done < |pas| {
      OneByte(bytes[done]);
      PlaceOne(m1, h.mem, pas, bytes, done);
      var (h', ok) := BusWrite(p, h, pas[done], bytes[done], 1);
      BytesArePlaced(p, h', m1, pas, va, bytes, done + 1);
    }
  }

  /** Every byte that translates goes to RAM's side of the address space. */
  predicate RamBacked(mem: Memory, view: View, va: u64, size: Size) {
    forall i :: 0 <= i < size ==>
      var r := ByteResult(mem, view, Access.Store, va, i);
      r.Ok? ==> r.value >= DRAM_BASE
  }

  /** Every byte translates, into RAM. */
  predicate Writable(mem: Memory, view: View, va: u64, size: Size) {
    forall i :: 0 <= i < size ==>
      var r := ByteResult(mem, view, Access.Store, va, i);
      r.Ok? && InRam(mem, r.value, 1)
  }

  predicate Targets(mem: Memory, view: View, va: u64, pas: seq<nat>) {
    forall i :: 0 <= i < |pas| ==> ByteResult(mem, view, Access.Store, va, i) == Ok(pas[i])
  }

  /** The bytes were put where the original page tables say, on top of A/D updates. */
  ghost predicate StoredAt(mem: Memory, after: Memory, view: View, va: u64, bytes: seq<byte>) {
    exists marked: Memory, pas: seq<nat> ::
      |pas| == |bytes| && AdOnly(mem, marked) && Targets(mem, view, va, pas)
      && Placed(marked, after, pas, bytes, |pas|)
  }

  /** Bytes of an access land at different places, even when two pages share a frame. */
  lemma TargetsAreDistinct(mem: Memory, view: View, va: u64, pas: seq<nat>)
    requires |pas| <= 8 && Targets(mem, view, va, pas)
    ensures forall i, j :: 0 <= i < j < |pas| ==> pas[i] != pas[j]
  {
    hide Sv39.Translate;
    forall i, j | 0 <= i < j < |pas|
      ensures pas[i] != pas[j]
    {
      assert ByteResult(mem, view, Access.Store, va, i) == Ok(pas[i]);
      assert ByteResult(mem, view, Access.Store, va, j) == Ok(pas[j]);
      TranslationKeepsOffset(mem, view, Access.Store, va + i);
      TranslationKeepsOffset(mem, view, Access.Store, va + j);
      OffsetsDiffer(va + i, j - i);
    }
  }

  lemma OffsetsDiffer(x: nat, d: nat)
    requires 0 < d < 8
    ensures (x + d) % PAGE != x % PAGE
  {
  }

  lemma SplitStore(p: Platform, h: Hart, va: u64, val: u64, size: Size)
    requires CrossesPage(va, size)
    requires RamBacked(h.mem, h.core.ViewFor(h.core.DataMode()), va, size)
    ensures AllOrNothing(p, h, va, val, size)
  {
    hide Sv39.Translate, ByteResult, TranslateBytes, WriteBytes, AdOnly, Placed, CrossesPage, InRam, LeBytes;
    var mode := h.core.DataMode();
    var view := h.core.ViewFor(mode);
    var g := h.(core := h.core.(reservation := None));
    AdOnlyRefl(h.mem);
    BytesTranslate(h.mem, g, mode, Access.Store, va, size, []);
    var t := TranslateBytes(g, mode, Access.Store, va, size, []);
    if t.r.Ok? {
      var pas := t.r.value;
      TargetsAreDistinct(h.mem, view, va, pas);
      forall i | 0 <= i < size
        ensures WriteAccessible(p, t.h, pas[i], 1) <==> InRam(h.mem, pas[i], 1)
      {
        assert ByteResult(h.mem, view, Access.Store, va, i) == Ok(pas[i]);
        InRamByte(h.mem, pas[i]);
      }
      if forall i :: 0 <= i < size ==> WriteAccessible(p, t.h, pas[i], 1) {
        NothingPlaced(t.h.mem, pas, LeBytes(val, size));
        forall i | 0 <= i < size
          ensures InRam(t.h.mem, pas[i], 1)
        {
          assert WriteAccessible(p, t.h, pas[i], 1);
          InRamByte(t.h.mem, pas[i]);
          InRamByte(h.mem, pas[i]);
        }
        BytesArePlaced(p, t.h, t.h.mem, pas, va, LeBytes(val, size), 0);
        assert Targets(h.mem, view, va, pas);
      }
    }
  }

  lemma InRamByte(mem: Memory, pa: nat)
    ensures InRam(mem, pa, 1) <==> DRAM_BASE <= pa < DRAM_BASE + |mem|
  {
  }

  lemma NothingPlaced(mem: Memory, pas: seq<nat>, bytes: seq<byte>)
    requires |pas| == |bytes|
    ensures Placed(mem, mem, pas, bytes, 0)
  {
  }

  ghost predicate AllOrNothing(p: Platform, h: Hart, va: u64, val: u64, size: Size) {
    var view := h.core.ViewFor(h.core.DataMode());
    var o := StoreValue(p, h, va, val, size);
    && (o.r.Ok? <==> Writable(h.mem, view, va, size))
    && (o.r.Err? ==> AdOnly(h.mem, o.h.mem) && o.h.dev == h.dev)
    && (o.r.Ok? ==> StoredAt(h.mem, o.h.mem, view, va, LeBytes(val, size)) && o.h.dev == h.dev)
  }

  /** An unsplit access stays in its page. */
  lemma UnsplitStaysInPage(va: u64, size: Size)
    requires !CrossesPage(va, size)
    ensures va % PAGE + size <= PAGE && va + size <= TWO_64
  {
    assert PAGE % size == 0 && TWO_64 % PAGE == 0;
    if va % size == 0 {
      if size == 2 {
      } else if size == 4 {
      } else if size == 8 {
      }
    }
  }

  lemma UnsplitBytes(mem: Memory, view: View, va: u64, size: Size, i: nat)
    requires !CrossesPage(va, size) && i < size
    ensures var r, s := Sv39.Translate(mem, view, Access.Store, va).result, ByteResult(mem, view, Access.Store, va, i);
            && (s.Ok? <==> r.Ok?) && (r.Ok? ==> s.value == r.value + i)
  {
    hide Sv39.Translate;
    UnsplitStaysInPage(va, size);
    PageTranslatesTogether(mem, view, Access.Store, va, i);
  }

  /** Consecutive addresses from `pa`. */
  function Run(pa: nat, n: nat): (s: seq<nat>)
    ensures |s| == n && forall i :: 0 <= i < n ==> s[i] == pa + i
  {
    seq(n, i requires 0 <= i => pa + i)
  }

  lemma UnsplitTargets(mem: Memory, view: View, va: u64, size: Size)
    requires !CrossesPage(va, size) && RamBacked(mem, view, va, size)
    ensures var r := Sv39.Translate(mem, view, Access.Store, va).result;
            && (r.Err? ==> !Writable(mem, view, va, size))
            && (r.Ok? ==> && r.value >= DRAM_BASE
                          && Targets(mem, view, va, Run(r.value, size))
                          && (Writable(mem, view, va, size) <==> InRam(mem, r.value, size)))
  {
    hide Sv39.Translate, ByteResult, CrossesPage, Run;
    var r := Sv39.Translate(mem, view, Access.Store, va).result;
    forall i | 0 <= i < size
      ensures var s := ByteResult(mem, view, Access.Store, va, i);
              (s.Ok? <==> r.Ok?) && (r.Ok? ==> s.value == r.value + i)
    {
      UnsplitBytes(mem, view, va, size, i);
    }
    assert ByteResult(mem, view, Access.Store, va, 0).Ok? <==> r.Ok?;
    assert r.Ok? ==> ByteResult(mem, view, Access.Store, va, size - 1).value == r.value + (size - 1);
  }

  lemma SplicePlaces(mem: Memory, pa: nat, bytes: seq<byte>)
    requires InRam(mem, pa, |bytes|)
    ensures Placed(mem, Splice(mem, pa - DRAM_BASE, bytes), Run(pa, |bytes|), bytes, |bytes|)
  {
    var after, pas := Splice(mem, pa - DRAM_BASE, bytes), Run(pa, |bytes|);
    forall j | 0 <= j < |mem|
      ensures after[j] == mem[j] || exists i :: 0 <= i < |bytes| && pas[i] == j + DRAM_BASE
    {
      if pa - DRAM_BASE <= j < pa - DRAM_BASE + |bytes| {
        assert pas[j - (pa - DRAM_BASE)] == j + DRAM_BASE;
      }
    }
  }

  lemma UnsplitStore(p: Platform, h: Hart, va: u64, val: u64, size: Size)
    requires !CrossesPage(va, size)
    requires RamBacked(h.mem, h.core.ViewFor(h.core.DataMode()), va, size)
    ensures AllOrNothing(p, h, va, val, size)
  {
    hide Sv39.Translate, Writable, RamBacked, Targets, AdOnly, Placed, CrossesPage, Splice, SameWalk, LeBytes, Run;
    hide TranslateBytes, WriteBytes, ApplyDma, StoredAt, Core.DataMode, Core.ViewFor;
    var mode := h.core.DataMode();
    var view := h.core.ViewFor(mode);
    var bytes := LeBytes(val, size);
    var r := Sv39.Translate(h.mem, view, Access.Store, va);
    TranslateIsAdOnly(h.mem, view, Access.Store, va);
    if !view.Translated() { Untranslated(h.mem, view, Access.Store, va); }
    UnsplitTargets(h.mem, view, va, size);
    if r.result.Ok? && InRam(h.mem, r.result.value, size) {
      SplicePlaces(r.mem, r.result.value, bytes);
      StoredThere(h.mem, r.mem, Splice(r.mem, r.result.value - DRAM_BASE, bytes), view, va, Run(r.result.value, size), bytes);
    }
    SameAccess(h.core);
  }

  /** Giving up a reservation changes no access. */
  lemma SameAccess(c: Core)
    ensures c.(reservation := None).DataMode() == c.DataMode()
    ensures c.(reservation := None).ViewFor(c.DataMode()) == c.ViewFor(c.DataMode())
  {
  }

  lemma StoredThere(mem: Memory, marked: Memory, after: Memory, view: View, va: u64, pas: seq<nat>, bytes: seq<byte>)
    requires |pas| == |bytes| && AdOnly(mem, marked) && Targets(mem, view, va, pas)
    requires Placed(marked, after, pas, bytes, |pas|)
    ensures StoredAt(mem, after, view, va, bytes)
  {
  }

  /**
   For any alignment and page crossing with RAM-backed targets: the store
   succeeds exactly when every byte translates into RAM; if it traps, only A/D
   bits changed; if it succeeds, exactly the little-endian bytes of the value
   are at the addresses the original page tables give.
   */
  lemma StoreIsAllOrNothing(p: Platform, h: Hart, va: u64, val: u64, size: Size)
    requires RamBacked(h.mem, h.core.ViewFor(h.core.DataMode()), va, size)
    ensures var view, o := h.core.ViewFor(h.core.DataMode()), StoreValue(p, h, va, val, size);
            && (o.r.Ok? <==> Writable(h.mem, view, va, size))
            && (o.r.Err? ==> AdOnly(h.mem, o.h.mem) && o.h.dev == h.dev)
            && (o.r.Ok? ==> StoredAt(h.mem, o.h.mem, view, va, LeBytes(val, size)) && o.h.dev == h.dev)
  {
    hide StoreValue, RamBacked, Writable, StoredAt, AdOnly, CrossesPage;
    if CrossesPage(va, size) {
      SplitStore(p, h, va, val, size);
    } else {
      UnsplitStore(p, h, va, val, size);
    }
  }
}
