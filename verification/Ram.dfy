/** Guest DRAM with a write generation per 4-KiB page. */
module GuestRam {
  import opened Bytes
  import opened Sv39

  /** The largest byte buffer there can be. */
  const MAX_RAM: nat := 0x7FFF_FFFF_FFFF_FFFF

  predicate SamePage(d: Memory, d': Memory, page: nat) {
    |d| == |d'| && forall i :: page * PAGE <= i < (page + 1) * PAGE && i < |d| ==> d[i] == d'[i]
  }

  /**
   Going from (d, g) to (d', g'), generations only grew, and a page whose
   generation did not grow still holds the same bytes.
   */
  ghost predicate Tracked(d: Memory, g: seq<nat>, d': Memory, g': seq<nat>) {
    && |d'| == |d| && |g'| == |g|
    && forall p :: 0 <= p < |g| ==>
         g[p] <= g'[p] && (g[p] == g'[p] ==> SamePage(d, d', p))
  }

  lemma TrackedRefl(d: Memory, g: seq<nat>)
    ensures Tracked(d, g, d, g)
  {
  }

  predicate Grew(g: seq<nat>, g': seq<nat>) {
    |g'| == |g| && forall p :: 0 <= p < |g| ==> g[p] <= g'[p]
  }

  /** Generations only grew, and not at all if no byte changed. */
  predicate Touched(d: Memory, g: seq<nat>, d': Memory, g': seq<nat>) {
    Grew(g, g') && (d' == d ==> g' == g)
  }

  lemma TrackedGrew(d: Memory, g: seq<nat>, d': Memory, g': seq<nat>)
    requires Tracked(d, g, d', g')
    ensures Grew(g, g')
  {
  }

  class Ram {
    var data: Memory
    var generations: seq<nat>

    ghost predicate Valid()
      reads this
    {
      |data| <= MAX_RAM && |generations| == (|data| + PAGE - 1) / PAGE
    }

    constructor (size: nat)
      requires size <= MAX_RAM
      ensures Valid()
      ensures |data| == size && forall i :: 0 <= i < size ==> data[i] == 0
      ensures forall p :: 0 <= p < |generations| ==> generations[p] == 0
    {
      data := seq(size, _ => 0);
      generations := seq((size + PAGE - 1) / PAGE, _ => 0);
    }

    /** Little-endian read of `size` bytes, or nothing outside RAM. */
    method Read(offset: nat, size: nat) returns (ok: bool, v: nat)
      ensures ok <==> offset + size <= |data|
      ensures ok ==> v == LeValue(data[offset..offset + size])
    {
      v := 0;
      ok := offset + size <= |data|;
      if ok {
        for i := 0 to size
          invariant v == LeValue(data[offset..offset + i])
        {
          LeValueSnoc(data[offset..offset + i], data[offset + i]);
          assert data[offset..offset + i + 1] == data[offset..offset + i] + [data[offset + i]];
          v := v + data[offset + i] * Radix(i);
        }
      }
    }

    /** Copy bytes in, all or nothing, and bump each touched page once. */
    method WriteSlice(offset: nat, bytes: seq<byte>) returns (ok: bool)
      requires Valid()
      modifies this
      ensures Valid()
      ensures ok <==> offset + |bytes| <= |old(data)|
      ensures !ok ==> data == old(data) && generations == old(generations)
      ensures ok ==> data == Splice(old(data), offset, bytes)
      ensures ok ==> forall p :: 0 <= p < |generations| ==>
        generations[p] == old(generations)[p] +
          if bytes != [] && offset / PAGE <= p <= (offset + |bytes| - 1) / PAGE then 1 else 0
      ensures Tracked(old(data), old(generations), data, generations)
    {
      ok := offset + |bytes| <= |data|;
      if ok {
        data := Splice(data, offset, bytes);
        BumpPageGenerations(offset, |bytes|);
      }
    }

    method BumpPageGenerations(offset: nat, len: nat)
      requires Valid() && offset + len <= |data|
      modifies this`generations
      ensures Valid()
      ensures forall p :: 0 <= p < |generations| ==>
        generations[p] == old(generations)[p] +
          if len > 0 && offset / PAGE <= p <= (offset + len - 1) / PAGE then 1 else 0
    {
      if len == 0 {
        return;
      }
      var page, last := offset / PAGE, (offset + len - 1) / PAGE;
      while page <= last
        invariant offset / PAGE <= page <= last + 1 <= |generations|
        invariant Valid()
        invariant forall p :: 0 <= p < |generations| ==>
          generations[p] == old(generations)[p] + if offset / PAGE <= p < page then 1 else 0
      {
        generations := generations[page := generations[page] + 1];
        page := page + 1;
      }
    }
  }
}
