/** Guest RAM in a snapshot: only pages that are not all zeros, a short last page written short. */
module SnapshotRam {
  import opened Bytes
  import opened Snapshot
  import GuestRam
  import Sv39

  const PAGE: nat := Sv39.PAGE

  function PageCount(size: nat): nat {
    (size + PAGE - 1) / PAGE
  }

  /** The bytes of page `index`, fewer for a short last page. */
  function PageEnd(size: nat, index: nat): (e: nat)
    requires index < PageCount(size)
    ensures index * PAGE < e <= size && e <= (index + 1) * PAGE
  {
    if (index + 1) * PAGE < size then (index + 1) * PAGE else size
  }

  function PageOf(data: seq<byte>, index: nat): (r: seq<byte>)
    requires index < PageCount(|data|)
    ensures |r| == PageEnd(|data|, index) - index * PAGE
  {
    data[index * PAGE..PageEnd(|data|, index)]
  }

  datatype Page = Page(index: nat, bytes: seq<byte>)

  /** The first n pages of RAM that are not all zeros. */
  function Pages(data: seq<byte>, n: nat): seq<Page>
    requires n <= PageCount(|data|)
  {
    if n == 0 then [] else
      Pages(data, n - 1) + if !Zero(PageOf(data, n - 1)) then [Page(n - 1, PageOf(data, n - 1))] else []
  }

  function Encoded(pages: seq<Page>): seq<byte> {
    if pages == [] then [] else LeBytes(pages[0].index, 8) + pages[0].bytes + Encoded(pages[1..])
  }

  function RamBody(data: seq<byte>): seq<byte> {
    var pages := Pages(data, PageCount(|data|));
    LeBytes(|data|, 8) + LeBytes(|pages|, 8) + Encoded(pages)
  }

  // ---- Reading ----

  function TakePages(s: seq<byte>, count: nat, size: nat): Parsed<seq<Page>>
    decreases count
  {
    if count == 0 then Got([], s) else
      match TakeInt(s, 8)
      case Bad => Bad
      case Got(index, a) =>
        if index >= PageCount(size) then Bad else
          match TakeRaw(a, PageEnd(size, index) - index * PAGE)
          case Bad => Bad
          case Got(bytes, b) =>
            match TakePages(b, count - 1, size)
            case Bad => Bad
            case Got(pages, c) => Got([Page(index, bytes)] + pages, c)
  }

  /** The pages for a machine with `size` bytes of RAM. */
  function ParseRam(s: seq<byte>, size: nat): Parsed<seq<Page>> {
    match TakeInt(s, 8)
    case Bad => Bad
    case Got(n, a) =>
      if n != size then Bad else
        match TakeInt(a, 8)
        case Bad => Bad
        case Got(count, b) => if count > PageCount(size) then Bad else TakePages(b, count, size)
  }

  predicate Fits(p: Page, size: nat) {
    p.index < PageCount(size) && p.index * PAGE + |p.bytes| == PageEnd(size, p.index)
  }

  predicate AllFit(pages: seq<Page>, size: nat) {
    forall i :: 0 <= i < |pages| ==> Fits(pages[i], size)
  }

  /** RAM with pages copied in, in order. */
  function Loaded(data: seq<byte>, pages: seq<Page>): (r: seq<byte>)
    requires AllFit(pages, |data|)
    ensures |r| == |data|
    decreases |pages|
  {
    if pages == [] then data else
      var last := pages[|pages| - 1];
      assert Fits(last, |data|);
      Splice(Loaded(data, pages[..|pages| - 1]), last.index * PAGE, last.bytes)
  }

  /** Whatever parses fits the RAM it is for. */
  lemma {:induction false} TakenPagesFit(s: seq<byte>, count: nat, size: nat)
    ensures var p := TakePages(s, count, size); p.Got? ==> AllFit(p.value, size) && |p.value| == count
    decreases count
  {
    hide TakeInt, PageEnd;
    if count > 0 {
      match TakeInt(s, 8)
      case Bad =>
      case Got(index, a) =>
        if index < PageCount(size) && |a| >= PageEnd(size, index) - index * PAGE {
          TakenPagesFit(a[PageEnd(size, index) - index * PAGE..], count - 1, size);
        }
    }
  }

  // ---- Round trip ----

  lemma {:induction false} PagesFit(data: seq<byte>, n: nat)
    requires n <= PageCount(|data|)
    ensures AllFit(Pages(data, n), |data|) && |Pages(data, n)| <= n
  {
    if n > 0 {
      PagesFit(data, n - 1);
    }
  }

  /** The first n pages of RAM on zeros. */
  function Front(data: seq<byte>, n: nat): (r: seq<byte>)
    ensures |r| == |data|
  {
    seq(|data|, i requires 0 <= i < |data| => if i < n * PAGE then data[i] else 0)
  }

  lemma OnePage(data: seq<byte>, n: nat)
    requires n < PageCount(|data|)
    ensures Splice(Front(data, n), n * PAGE, PageOf(data, n)) == Front(data, n + 1)
    ensures Zero(PageOf(data, n)) ==> Front(data, n + 1) == Front(data, n)
  {
    var page := PageOf(data, n);
    if Zero(page) {
      forall i | 0 <= i < |data| ensures Front(data, n + 1)[i] == Front(data, n)[i] {
        assert n * PAGE <= i < (n + 1) * PAGE ==> page[i - n * PAGE] == data[i];
      }
    }
  }

  /** Loading the first n pages onto zeros restores the first n pages. */
  lemma {:induction false} PagesLoad(data: seq<byte>, n: nat)
    requires n <= PageCount(|data|)
    ensures AllFit(Pages(data, n), |data|) && Loaded(Zeros(|data|), Pages(data, n)) == Front(data, n)
  {
    hide Front, PageOf, PageEnd, Splice, PageCount, Zero, Loaded, AllFit;
    if n == 0 {
      NoPages(data);
    } else {
      PagesLoad(data, n - 1);
      OnePage(data, n - 1);
      var page, before := PageOf(data, n - 1), Pages(data, n - 1);
      if !Zero(page) {
        PageFits(data, n - 1);
        LoadedSnoc(Zeros(|data|), before, Page(n - 1, page));
      } else {
        assert Pages(data, n) == before;
      }
    }
  }

  lemma PageFits(data: seq<byte>, n: nat)
    requires n < PageCount(|data|)
    ensures Fits(Page(n, PageOf(data, n)), |data|)
  {
  }

  lemma NoPages(data: seq<byte>)
    ensures AllFit([], |data|) && Loaded(Zeros(|data|), []) == Front(data, 0)
  {
    assert Front(data, 0) == Zeros(|data|);
  }

  lemma FrontAll(data: seq<byte>)
    ensures Front(data, PageCount(|data|)) == data
  {
  }

  lemma {:induction false} PagesTrip(pages: seq<Page>, size: nat, rest: seq<byte>)
    requires AllFit(pages, size) && U64(size)
    ensures TakePages(Encoded(pages) + rest, |pages|, size) == Got(pages, rest)
    decreases |pages|
  {
    hide LeBytes, TakeInt, PageEnd;
    if pages == [] {
      assert Encoded(pages) + rest == rest;
    } else {
      var p, tail := pages[0], pages[1..];
      assert Fits(p, size);
      var more := Encoded(tail) + rest;
      assert Encoded(pages) + rest == LeBytes(p.index, 8) + (p.bytes + more);
      WordTrip(p.index, p.bytes + more);
      RawTrip(p.bytes, more);
      PagesTrip(tail, size, rest);
      assert [p] + tail == pages;
    }
  }

  /** Any RAM, short last page included, comes back byte for byte. */
  lemma RamTrip(data: seq<byte>)
    requires U64(|data|)
    ensures var p := Whole(ParseRam(RamBody(data), |data|));
            p.Got? && AllFit(p.value, |data|) && Loaded(Zeros(|data|), p.value) == data
  {
    hide LeBytes, TakeInt, Pages, Encoded, TakePages;
    var n := PageCount(|data|);
    var pages := Pages(data, n);
    PagesFit(data, n);
    assert RamBody(data) == LeBytes(|data|, 8) + (LeBytes(|pages|, 8) + Encoded(pages));
    WordTrip(|data|, LeBytes(|pages|, 8) + Encoded(pages));
    WordTrip(|pages|, Encoded(pages));
    PagesTrip(pages, |data|, []);
    assert Encoded(pages) + [] == Encoded(pages);
    PagesLoad(data, n);
    FrontAll(data);
  }

  // ---- The loops ----

  lemma {:induction false} EncodedSnoc(pages: seq<Page>, p: Page)
    ensures Encoded(pages + [p]) == Encoded(pages) + LeBytes(p.index, 8) + p.bytes
  {
    hide LeBytes;
    if pages == [] {
      assert pages + [p] == [p];
      assert [p][1..] == [];
    } else {
      EncodedSnoc(pages[1..], p);
      assert (pages + [p])[1..] == pages[1..] + [p];
    }
  }

  /** Count the pages, then write each that is not all zeros. */
  method Capture(data: seq<byte>) returns (body: seq<byte>)
    ensures body == RamBody(data)
  {
    hide LeBytes, Encoded, PageOf, Zero;
    var n := PageCount(|data|);
    var count := 0;
    for i := 0 to n
      invariant count == |Pages(data, i)|
    {
      var zero := IsZero(PageOf(data, i));
      count := count + if zero then 0 else 1;
    }
    body := LeBytes(|data|, 8) + LeBytes(count, 8);
    assert Encoded([]) == [] by { EncodedNone(); }
    for i := 0 to n
      invariant body == LeBytes(|data|, 8) + LeBytes(count, 8) + Encoded(Pages(data, i))
    {
      var page := PageOf(data, i);
      var zero := IsZero(page);
      if !zero {
        EncodedSnoc(Pages(data, i), Page(i, page));
        body := body + LeBytes(i, 8) + page;
      } else {
        assert Pages(data, i + 1) == Pages(data, i);
      }
    }
  }

  lemma EncodedNone()
    ensures Encoded([]) == []
  {
  }

  lemma LoadedNone(data: seq<byte>)
    ensures Loaded(data, []) == data
  {
  }

  lemma LoadedSnoc(data: seq<byte>, pages: seq<Page>, p: Page)
    requires AllFit(pages, |data|) && Fits(p, |data|)
    ensures AllFit(pages + [p], |data|)
    ensures Loaded(data, pages + [p]) == Splice(Loaded(data, pages), p.index * PAGE, p.bytes)
  {
    assert (pages + [p])[..|pages|] == pages;
  }

  /** Copy parsed pages onto zeroed RAM; their generations restart at 1, all others at 0. */
  method Load(ram: GuestRam.Ram, pages: seq<Page>)
    requires ram.Valid() && AllFit(pages, |ram.data|)
    modifies ram
    ensures ram.Valid() && ram.data == Loaded(Zeros(|old(ram.data)|), pages)
    ensures forall p :: 0 <= p < |ram.generations| ==>
      ram.generations[p] == if exists i :: 0 <= i < |pages| && pages[i].index == p then 1 else 0
  {
    hide Loaded, Splice;
    var size := |ram.data|;
    LoadedNone(Zeros(size));
    ram.data := Zeros(size);
    ram.generations := seq(PageCount(size), _ => 0);
    assert pages[..0] == [];
    for i := 0 to |pages|
      invariant |ram.data| == size && |ram.generations| == PageCount(size) && size == |old(ram.data)|
      invariant AllFit(pages[..i], size) && ram.data == Loaded(Zeros(size), pages[..i])
      invariant forall p :: 0 <= p < |ram.generations| ==>
        ram.generations[p] == if exists j :: 0 <= j < i && pages[j].index == p then 1 else 0
    {
      assert Fits(pages[i], size);
      assert pages[..i + 1] == pages[..i] + [pages[i]];
      LoadedSnoc(Zeros(size), pages[..i], pages[i]);
      ram.data := Splice(ram.data, pages[i].index * PAGE, pages[i].bytes);
      ram.generations := ram.generations[pages[i].index := 1];
    }
    assert pages[..|pages|] == pages;
  }
}
