/** A snapshot's view of the root disk: the 4-KiB blocks that differ from the seed image. */
module DiskOverlay {
  import opened Bytes
  import opened Snapshot
  import opened SnapshotRam

  /** The first n blocks where `modified` differs. */
  function Changed(original: seq<byte>, modified: seq<byte>, n: nat): seq<Page>
    requires |original| == |modified| && n <= PageCount(|modified|)
  {
    if n == 0 then [] else
      var after := PageOf(modified, n - 1);
      Changed(original, modified, n - 1) + if PageOf(original, n - 1) != after then [Page(n - 1, after)] else []
  }

  function Diff(original: seq<byte>, modified: seq<byte>): Parsed<seq<Page>> {
    if |original| != |modified| then Bad else Got(Changed(original, modified, PageCount(|modified|)), [])
  }

  /** Block by block, as the capture does it. */
  method ComputeDiff(original: seq<byte>, modified: seq<byte>) returns (r: Parsed<seq<Page>>)
    ensures r == Diff(original, modified)
  {
    if |original| != |modified| {
      return Bad;
    }
    var blocks: seq<Page> := [];
    for i := 0 to PageCount(|modified|)
      invariant blocks == Changed(original, modified, i)
    {
      if PageOf(original, i) != PageOf(modified, i) {
        blocks := blocks + [Page(i, PageOf(modified, i))];
      }
    }
    return Got(blocks, []);
  }

  lemma {:induction false} ChangedFit(o: seq<byte>, m: seq<byte>, n: nat)
    requires |o| == |m| && n <= PageCount(|m|)
    ensures AllFit(Changed(o, m, n), |m|)
  {
    hide PageOf, PageCount;
    if n > 0 {
      ChangedFit(o, m, n - 1);
      assert |PageOf(m, n - 1)| == PageEnd(|m|, n - 1) - (n - 1) * PAGE;
    }
  }

  /** The first n blocks of `m`, the rest of `o`. */
  function Mixed(o: seq<byte>, m: seq<byte>, n: nat): (r: seq<byte>)
    requires |o| == |m|
    ensures |r| == |m|
  {
    seq(|m|, i requires 0 <= i < |m| => if i < n * PAGE then m[i] else o[i])
  }

  lemma OneBlock(o: seq<byte>, m: seq<byte>, n: nat)
    requires |o| == |m| && n < PageCount(|m|)
    ensures Splice(Mixed(o, m, n), n * PAGE, PageOf(m, n)) == Mixed(o, m, n + 1)
    ensures PageOf(o, n) == PageOf(m, n) ==> Mixed(o, m, n) == Mixed(o, m, n + 1)
    ensures Splice(m, n * PAGE, PageOf(m, n)) == m
  {
    if PageOf(o, n) == PageOf(m, n) {
      forall i | 0 <= i < |m| ensures Mixed(o, m, n)[i] == Mixed(o, m, n + 1)[i] {
        assert n * PAGE <= i < (n + 1) * PAGE ==>
          PageOf(o, n)[i - n * PAGE] == o[i] && PageOf(m, n)[i - n * PAGE] == m[i];
      }
    }
  }

  /** Loading one more difference. */
  lemma ChangedStep(base: seq<byte>, o: seq<byte>, m: seq<byte>, n: nat)
    requires |base| == |o| == |m| && n < PageCount(|m|)
    requires AllFit(Changed(o, m, n), |m|) && AllFit(Changed(o, m, n + 1), |m|)
    ensures Loaded(base, Changed(o, m, n + 1))
         == if PageOf(o, n) == PageOf(m, n) then Loaded(base, Changed(o, m, n))
            else Splice(Loaded(base, Changed(o, m, n)), n * PAGE, PageOf(m, n))
  {
    hide PageOf, PageEnd, Splice, PageCount;
    var blocks, before := Changed(o, m, n + 1), Changed(o, m, n);
    if PageOf(o, n) != PageOf(m, n) {
      assert blocks[..|blocks| - 1] == before;
    } else {
      assert blocks == before;
    }
  }

  /** Applying the differences turns the one image into the other, and then changes nothing. */
  lemma {:induction false} ChangedLoads(o: seq<byte>, m: seq<byte>, n: nat)
    requires |o| == |m| && n <= PageCount(|m|)
    ensures AllFit(Changed(o, m, n), |m|)
    ensures Loaded(o, Changed(o, m, n)) == Mixed(o, m, n)
    ensures Loaded(m, Changed(o, m, n)) == m
  {
    hide PageOf, PageEnd, Splice, PageCount, Mixed, Loaded, Changed, AllFit;
    ChangedFit(o, m, n);
    if n == 0 {
      MixedEnds(o, m);
      NothingChanged(o, m);
    } else {
      ChangedFit(o, m, n - 1);
      ChangedLoads(o, m, n - 1);
      OneBlock(o, m, n - 1);
      ChangedStep(o, o, m, n - 1);
      ChangedStep(m, o, m, n - 1);
    }
  }

  lemma NothingChanged(o: seq<byte>, m: seq<byte>)
    requires |o| == |m|
    ensures Changed(o, m, 0) == [] && Loaded(o, []) == o && Loaded(m, []) == m
  {
  }

  lemma MixedEnds(o: seq<byte>, m: seq<byte>)
    requires |o| == |m|
    ensures Mixed(o, m, 0) == o && Mixed(o, m, PageCount(|m|)) == m
  {
  }

  /** Applying `diff(o, m)` to `o` gives `m`, and applying it again leaves `m`. */
  lemma DiffApplies(o: seq<byte>, m: seq<byte>)
    requires |o| == |m|
    ensures var d := Diff(o, m).value;
            AllFit(d, |o|) && Loaded(o, d) == m && Loaded(Loaded(o, d), d) == Loaded(o, d)
  {
    ChangedLoads(o, m, PageCount(|m|));
    MixedEnds(o, m);
  }

  // ---- In the container ----

  function OverlayBody(blocks: seq<Page>): seq<byte> {
    LeBytes(|blocks|, 8) + Encoded(blocks)
  }

  /** Blocks are read whole. */
  function TakeBlocks(s: seq<byte>, count: nat): Parsed<seq<Page>>
    decreases count
  {
    if count == 0 then Got([], s) else
      match TakeInt(s, 8)
      case Bad => Bad
      case Got(index, a) =>
        match TakeRaw(a, PAGE)
        case Bad => Bad
        case Got(bytes, b) =>
          match TakeBlocks(b, count - 1)
          case Bad => Bad
          case Got(blocks, c) => Got([Page(index, bytes)] + blocks, c)
  }

  function ParseOverlay(s: seq<byte>): Parsed<seq<Page>> {
    match TakeInt(s, 8)
    case Bad => Bad
    case Got(count, a) => TakeBlocks(a, count)
  }

  predicate WholeBlocks(blocks: seq<Page>) {
    forall i :: 0 <= i < |blocks| ==> U64(blocks[i].index) && |blocks[i].bytes| == PAGE
  }

  lemma {:induction false} BlocksTrip(blocks: seq<Page>, rest: seq<byte>)
    requires WholeBlocks(blocks)
    ensures TakeBlocks(Encoded(blocks) + rest, |blocks|) == Got(blocks, rest)
    decreases |blocks|
  {
    hide LeBytes, TakeInt;
    if blocks == [] {
      assert Encoded(blocks) + rest == rest;
    } else {
      var p, tail := blocks[0], blocks[1..];
      var more := Encoded(tail) + rest;
      assert Encoded(blocks) + rest == LeBytes(p.index, 8) + (p.bytes + more);
      WordTrip(p.index, p.bytes + more);
      RawTrip(p.bytes, more);
      BlocksTrip(tail, rest);
      assert [p] + tail == blocks;
    }
  }

  lemma OverlayTrip(blocks: seq<Page>)
    requires WholeBlocks(blocks) && U64(|blocks|)
    ensures Whole(ParseOverlay(OverlayBody(blocks))) == Got(blocks, [])
  {
    hide LeBytes, TakeInt, Encoded, TakeBlocks;
    WordTrip(|blocks|, Encoded(blocks));
    BlocksTrip(blocks, []);
    assert Encoded(blocks) + [] == Encoded(blocks);
  }

  /** The differences of images that are whole blocks can be written and read back. */
  lemma {:induction false} DiffIsWhole(o: seq<byte>, m: seq<byte>, n: nat)
    requires |o| == |m| && |m| % PAGE == 0 && U64(|m|) && n <= PageCount(|m|)
    ensures WholeBlocks(Changed(o, m, n)) && |Changed(o, m, n)| <= n
  {
    if n > 0 {
      DiffIsWhole(o, m, n - 1);
      assert n * PAGE <= |m|;
    }
  }

  predicate Inside(b: Page, size: nat) {
    b.index * PAGE + |b.bytes| <= size
  }

  predicate AllInside(blocks: seq<Page>, size: nat) {
    forall i :: 0 <= i < |blocks| ==> Inside(blocks[i], size)
  }

  /** The disk with the blocks written, in order. */
  function Patched(disk: seq<byte>, blocks: seq<Page>): (r: seq<byte>)
    requires AllInside(blocks, |disk|)
    ensures |r| == |disk|
    decreases |blocks|
  {
    if blocks == [] then disk else
      var last := blocks[|blocks| - 1];
      assert Inside(last, |disk|);
      Splice(Patched(disk, blocks[..|blocks| - 1]), last.index * PAGE, last.bytes)
  }

  /** Whole blocks of the disk are written as RAM pages are loaded. */
  lemma {:induction false} PatchedIsLoaded(disk: seq<byte>, blocks: seq<Page>)
    requires AllFit(blocks, |disk|)
    ensures AllInside(blocks, |disk|) && Patched(disk, blocks) == Loaded(disk, blocks)
    decreases |blocks|
  {
    forall i | 0 <= i < |blocks| ensures Inside(blocks[i], |disk|) {
      assert Fits(blocks[i], |disk|);
    }
    if blocks != [] {
      PatchedIsLoaded(disk, blocks[..|blocks| - 1]);
    }
  }

  /** Write an overlay's blocks through to the disk. It fails exactly when a block is not inside it. */
  method Apply(disk: seq<byte>, blocks: seq<Page>) returns (ok: bool, r: seq<byte>)
    ensures ok <==> AllInside(blocks, |disk|)
    ensures ok ==> r == Patched(disk, blocks)
    ensures AllFit(blocks, |disk|) ==> ok && r == Loaded(disk, blocks)
  {
    if AllFit(blocks, |disk|) { PatchedIsLoaded(disk, blocks); }
    r := disk;
    assert blocks[..0] == [];
    for i := 0 to |blocks|
      invariant AllInside(blocks[..i], |disk|) && r == Patched(disk, blocks[..i])
    {
      if blocks[i].index * PAGE + |blocks[i].bytes| > |disk| {
        assert !Inside(blocks[i], |disk|);
        return false, r;
      }
      assert blocks[..i + 1][..i] == blocks[..i] && blocks[..i + 1][i] == blocks[i];
      r := Splice(r, blocks[i].index * PAGE, blocks[i].bytes);
    }
    assert blocks[..|blocks|] == blocks;
    ok := true;
  }
}
