/**
 Streaming SHA-256 over an arbitrary compression function: the chaining value after
 any sequence of updates is the fold over whole blocks, and finishing pads as
 FIPS 180-4 section 5.1.1 says.
 */
module Sha256 {
  import opened Bytes

  const BLOCK: nat := 64
  const TWO_64: nat := 0x1_0000_0000_0000_0000

  type Words = seq<nat>
  type Compression = (Words, seq<byte>) -> Words

  const INITIAL: Words :=
    [0x6a09e667, 0xbb67ae85, 0x3c6ef372, 0xa54ff53a, 0x510e527f, 0x9b05688c, 0x1f83d9ab, 0x5be0cd19]

  /** The chaining value after the blocks of `m`. */
  function Fold(compress: Compression, h: Words, m: seq<byte>): Words
    requires |m| % BLOCK == 0
    decreases |m|
  {
    if m == [] then h else Fold(compress, compress(h, m[..BLOCK]), m[BLOCK..])
  }

  /** How many zero bytes the padding needs after the 0x80. */
  function Gap(length: nat): (k: nat)
    ensures k < BLOCK && (length + 1 + k) % BLOCK == 56 && (length + 9 + k) % BLOCK == 0
  {
    (119 - length % BLOCK) % BLOCK
  }

  /** The message, 0x80, the fewest zeros, and the length in bits as 64 big-endian bits. */
  function Padded(m: seq<byte>): (r: seq<byte>)
    ensures |r| % BLOCK == 0
  {
    hide BeBytes, Gap, Zeros;
    var r := m + [0x80] + Zeros(Gap(|m|)) + BeBytes(8 * |m| % TWO_64, 8);
    assert |r| == |m| + 9 + Gap(|m|);
    r
  }

  /** The words of the chaining value, big-endian. */
  function Output(h: Words): seq<byte> {
    if h == [] then [] else BeBytes(h[0], 4) + Output(h[1..])
  }

  function Hash(compress: Compression, m: seq<byte>): seq<byte> {
    Output(Fold(compress, INITIAL, Padded(m)))
  }

  /** Folding block by block from the left or adding a block at the right. */
  lemma {:induction false} FoldSnoc(compress: Compression, h: Words, m: seq<byte>, block: seq<byte>)
    requires |m| % BLOCK == 0 && |block| == BLOCK
    ensures Fold(compress, h, m + block) == compress(Fold(compress, h, m), block)
    decreases |m|
  {
    if m == [] {
      assert m + block == block && block[..BLOCK] == block && block[BLOCK..] == [];
    } else {
      assert (m + block)[..BLOCK] == m[..BLOCK] && (m + block)[BLOCK..] == m[BLOCK..] + block;
      FoldSnoc(compress, compress(h, m[..BLOCK]), m[BLOCK..], block);
    }
  }

  lemma {:induction false} OutputSnoc(h: Words, w: nat)
    ensures Output(h + [w]) == Output(h) + BeBytes(w, 4)
  {
    if h == [] {
      assert h + [w] == [w];
    } else {
      OutputSnoc(h[1..], w);
      assert (h + [w])[1..] == h[1..] + [w];
    }
  }

  /** State, block and fill level after taking in `m`. */
  ghost predicate Absorbed(compress: Compression, state: Words, block: seq<byte>, filled: nat, m: seq<byte>) {
    && |block| == BLOCK && filled < BLOCK && filled <= |m| && (|m| - filled) % BLOCK == 0
    && state == Fold(compress, INITIAL, m[..|m| - filled])
    && block[..filled] == m[|m| - filled..]
  }

  /** Copying the next bytes in after the filled part, and compressing a full block. */
  lemma AbsorbMore(compress: Compression, state: Words, block: seq<byte>, filled: nat, m: seq<byte>, part: seq<byte>)
    requires Absorbed(compress, state, block, filled, m) && filled + |part| <= BLOCK
    ensures var b := block[..filled] + part + block[filled + |part|..];
            && (filled + |part| < BLOCK ==> Absorbed(compress, state, b, filled + |part|, m + part))
            && (filled + |part| == BLOCK ==> Absorbed(compress, compress(state, b), b, 0, m + part))
  {
    hide Fold;
    var b := block[..filled] + part + block[filled + |part|..];
    var done := m[..|m| - filled];
    assert (m + part)[..|m| - filled] == done;
    assert b[..filled + |part|] == (m + part)[|m| - filled..];
    if filled + |part| == BLOCK {
      assert b[..BLOCK] == b;
      assert done + b == m + part;
      FoldSnoc(compress, INITIAL, done, b);
      assert (m + part)[..|m + part|] == m + part;
      assert b[..0] == [] == (m + part)[|m + part|..];
    }
  }

  /** The last block: what is left of the message and padding, with the bit length at the end. */
  lemma LastBlock(compress: Compression, state: Words, block: seq<byte>, m: seq<byte>)
    requires Absorbed(compress, state, block, 56, m + [0x80] + Zeros(Gap(|m|)))
    ensures compress(state, block[..56] + BeBytes(8 * |m| % TWO_64, 8)) == Fold(compress, INITIAL, Padded(m))
  {
    hide Fold, BeBytes, Gap;
    var body := m + [0x80] + Zeros(Gap(|m|));
    var done := body[..|body| - 56];
    var last := block[..56] + BeBytes(8 * |m| % TWO_64, 8);
    assert Padded(m) == done + last;
    FoldSnoc(compress, INITIAL, done, last);
  }

  /** The chaining value as bytes. */
  method Digest(h: Words) returns (out: seq<byte>)
    ensures out == Output(h)
  {
    out := [];
    for i := 0 to |h|
      invariant out == Output(h[..i])
    {
      OutputSnoc(h[..i], h[i]);
      assert h[..i + 1] == h[..i] + [h[i]];
      out := out + BeBytes(h[i], 4);
    }
    assert h[..|h|] == h;
  }

  class Hasher {
    const compress: Compression
    var state: Words
    var block: seq<byte>
    var filled: nat
    var length: nat

    /** The hasher has taken in exactly `m`. */
    ghost predicate Holds(m: seq<byte>)
      reads this
    {
      length == |m| % TWO_64 && Absorbed(compress, state, block, filled, m)
    }

    constructor (compress: Compression)
      ensures this.compress == compress && Holds([])
    {
      this.compress := compress;
      state, block, filled, length := INITIAL, seq(BLOCK, _ => 0), 0, 0;
    }

    method Update(data: seq<byte>, ghost m: seq<byte>)
      requires Holds(m)
      modifies this
      ensures Holds(m + data)
    {
      length := (length + |data|) % TWO_64;
      var rest := data;
      ghost var seen := m;
      while rest != []
        invariant m + data == seen + rest && length == |m + data| % TWO_64
        invariant Absorbed(compress, state, block, filled, seen)
        decreases |rest|
      {
        var take := if BLOCK - filled < |rest| then BLOCK - filled else |rest|;
        AbsorbMore(compress, state, block, filled, seen, rest[..take]);
        hide Absorbed;
        assert seen + rest == seen + rest[..take] + rest[take..];
        block := block[..filled] + rest[..take] + block[filled + take..];
        filled := filled + take;
        seen := seen + rest[..take];
        rest := rest[take..];
        if filled == BLOCK {
          state := compress(state, block);
          filled := 0;
        }
      }
      assert seen == m + data;
    }

    method Finish(ghost m: seq<byte>) returns (out: seq<byte>)
      requires Holds(m)
      modifies this
      ensures out == Hash(compress, m)
    {
      hide Fold, Output, BeBytes;
      var bits := length * 8 % TWO_64;
      BitCount(|m|);
      Update([0x80], m);
      ghost var k := 0;
      assert m + [0x80] + Zeros(0) == m + [0x80];
      while filled != 56
        invariant 0 <= k <= Gap(|m|) && Holds(m + [0x80] + Zeros(k))
        decreases Gap(|m|) - k
      {
        GapLeft(|m|, k, filled);
        Update([0], m + [0x80] + Zeros(k));
        assert m + [0x80] + Zeros(k) + [0] == m + [0x80] + Zeros(k + 1);
        k := k + 1;
      }
      GapDone(|m|, k);
      LastBlock(compress, state, block, m);
      block := block[..56] + BeBytes(bits, 8);
      state := compress(state, block);
      out := Digest(state);
    }
  }

  lemma BitCount(n: nat)
    ensures n % TWO_64 * 8 % TWO_64 == 8 * n % TWO_64
  {
  }

  lemma GapLeft(length: nat, k: nat, filled: nat)
    requires k <= Gap(length) && filled < BLOCK && (length + 1 + k - filled) % BLOCK == 0 && filled != 56
    ensures k < Gap(length)
  {
  }

  /** Stopping at 56 means exactly the padding's zeros were added. */
  lemma GapDone(length: nat, k: nat)
    requires k <= Gap(length) && (length + 1 + k - 56) % BLOCK == 0
    ensures k == Gap(length)
  {
  }

  // ---- Chunks and framing ----

  /** However a message is cut into updates, the digest is that of the whole. */
  method HashChunks(compress: Compression, chunks: seq<seq<byte>>) returns (out: seq<byte>)
    ensures out == Hash(compress, Concat(chunks))
  {
    hide Hash, Concat;
    var hasher := new Hasher(compress);
    assert Concat([]) == [] by { ConcatNothing(); }
    assert chunks[..0] == [];
    for i := 0 to |chunks|
      invariant fresh(hasher) && hasher.compress == compress && hasher.Holds(Concat(chunks[..i]))
    {
      ConcatSnoc(chunks[..i], chunks[i]);
      assert chunks[..i + 1] == chunks[..i] + [chunks[i]];
      hasher.Update(chunks[i], Concat(chunks[..i]));
    }
    assert chunks[..|chunks|] == chunks;
    out := hasher.Finish(Concat(chunks));
  }

  /** Each chunk behind its length. */
  function Framed(chunks: seq<seq<byte>>): seq<byte> {
    if chunks == [] then [] else LeBytes(|chunks[0]|, 8) + chunks[0] + Framed(chunks[1..])
  }

  lemma {:induction false} FramedSnoc(chunks: seq<seq<byte>>, last: seq<byte>)
    ensures Framed(chunks + [last]) == Framed(chunks) + LeBytes(|last|, 8) + last
  {
    hide LeBytes;
    if chunks == [] {
      assert chunks + [last] == [last];
      assert [last][1..] == [];
    } else {
      FramedSnoc(chunks[1..], last);
      assert (chunks + [last])[1..] == chunks[1..] + [last];
    }
  }

  method HashImages(compress: Compression, chunks: seq<seq<byte>>) returns (out: seq<byte>)
    ensures out == Hash(compress, Framed(chunks))
  {
    hide Hash, Framed, LeBytes;
    var hasher := new Hasher(compress);
    assert Framed([]) == [] by { FramedNothing(); }
    assert chunks[..0] == [];
    for i := 0 to |chunks|
      invariant fresh(hasher) && hasher.compress == compress && hasher.Holds(Framed(chunks[..i]))
    {
      FramedSnoc(chunks[..i], chunks[i]);
      assert chunks[..i + 1] == chunks[..i] + [chunks[i]];
      hasher.Update(LeBytes(|chunks[i]|, 8), Framed(chunks[..i]));
      hasher.Update(chunks[i], Framed(chunks[..i]) + LeBytes(|chunks[i]|, 8));
    }
    assert chunks[..|chunks|] == chunks;
    out := hasher.Finish(Framed(chunks));
  }

  lemma FramedNothing()
    ensures Framed([]) == []
  {
  }

  ghost predicate Addressable(chunks: seq<seq<byte>>) {
    forall i :: 0 <= i < |chunks| ==> |chunks[i]| < TWO_64
  }

  /** Different lists of images are never the same message. */
  lemma {:induction false} FramingIsInjective(a: seq<seq<byte>>, b: seq<seq<byte>>)
    requires Addressable(a) && Addressable(b) && Framed(a) == Framed(b)
    ensures a == b
    decreases |a|
  {
    hide LeBytes;
    if a == [] || b == [] {
      assert a == b;
    } else {
      var m := Framed(a);
      var n, k := |a[0]|, |b[0]|;
      assert m[..8] == LeBytes(n, 8) && m[..8] == LeBytes(k, 8);
      Radix8();
      LeInjective(n, k, 8);
      assert a[0] == m[8..8 + n] == b[0];
      assert Framed(a[1..]) == m[8 + n..] == Framed(b[1..]);
      FramingIsInjective(a[1..], b[1..]);
      assert a == [a[0]] + a[1..] && b == [b[0]] + b[1..];
    }
  }
}
