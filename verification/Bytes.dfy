/**
 Byte strings and their integer readings, shared by RAM, the snapshot container
 and the hash: little-endian (`to_le_bytes`) and big-endian (`to_be_bytes`)
 encodings, and overwriting a range of a buffer.
 */
module Bytes {

  type byte = b: int | 0 <= b < 256

  /** 256 to the power n: the number of values n bytes can hold. */
  function Radix(n: nat): (r: nat)
    ensures r > 0
  {
    if n == 0 then 1 else 256 * Radix(n - 1)
  }

  /** The unsigned integer a little-endian byte string denotes. */
  function LeValue(s: seq<byte>): nat {
    if s == [] then 0 else s[0] + 256 * LeValue(s[1..])
  }

  /** The n low-order bytes of v, least significant first. */
  function LeBytes(v: nat, n: nat): (s: seq<byte>)
    ensures |s| == n
  {
    if n == 0 then [] else [v % 256] + LeBytes(v / 256, n - 1)
  }

  function Reverse(s: seq<byte>): (r: seq<byte>)
    ensures |r| == |s|
    ensures forall i :: 0 <= i < |s| ==> r[i] == s[|s| - 1 - i]
  {
    seq(|s|, i requires 0 <= i < |s| => s[|s| - 1 - i])
  }

  /** The n low-order bytes of v, most significant first. */
  function BeBytes(v: nat, n: nat): (s: seq<byte>)
    ensures |s| == n
  {
    Reverse(LeBytes(v, n))
  }

  /** The buffer with the bytes from `at` on replaced by `patch`. */
  function Splice(s: seq<byte>, at: nat, patch: seq<byte>): (r: seq<byte>)
    requires at + |patch| <= |s|
    ensures |r| == |s|
    ensures forall i :: at <= i < at + |patch| ==> r[i] == patch[i - at]
    ensures forall i :: 0 <= i < |s| && !(at <= i < at + |patch|) ==> r[i] == s[i]
  {
    s[..at] + patch + s[at + |patch|..]
  }

  function Zeros(n: nat): (r: seq<byte>)
    ensures |r| == n && forall i :: 0 <= i < n ==> r[i] == 0
  {
    seq(n, _ => 0)
  }

  predicate Zero(s: seq<byte>) {
    forall i :: 0 <= i < |s| ==> s[i] == 0
  }

  /** Whether a block or page holds nothing but zeros. */
  method IsZero(s: seq<byte>) returns (zero: bool)
    ensures zero <==> Zero(s)
  {
    for i := 0 to |s|
      invariant forall j :: 0 <= j < i ==> s[j] == 0
    {
      if s[i] != 0 {
        return false;
      }
    }
    return true;
  }

  /** Pieces joined in order. */
  function Concat(pieces: seq<seq<byte>>): seq<byte> {
    if pieces == [] then [] else pieces[0] + Concat(pieces[1..])
  }

  lemma ConcatNothing()
    ensures Concat([]) == []
  {
  }

  lemma ConcatCons(head: seq<byte>, tail: seq<seq<byte>>)
    ensures Concat([head] + tail) == head + Concat(tail)
  {
    assert ([head] + tail)[1..] == tail;
  }

  lemma {:induction false} ConcatSnoc(pieces: seq<seq<byte>>, last: seq<byte>)
    ensures Concat(pieces + [last]) == Concat(pieces) + last
  {
    if pieces == [] {
      assert pieces + [last] == [last];
    } else {
      ConcatSnoc(pieces[1..], last);
      assert (pieces + [last])[1..] == pieces[1..] + [last];
    }
  }

  lemma {:induction false} LeValueBound(s: seq<byte>)
    ensures LeValue(s) < Radix(|s|)
  {
    if s != [] {
      LeValueBound(s[1..]);
    }
  }

  /** A further, more significant byte adds its place value. */
  lemma {:induction false} LeValueSnoc(s: seq<byte>, b: byte)
    ensures LeValue(s + [b]) == LeValue(s) + b * Radix(|s|)
  {
    if s == [] {
      assert s + [b] == [b];
      assert LeValue([b]) == b + 256 * LeValue([]);
    } else {
      assert (s + [b])[1..] == s[1..] + [b];
      LeValueSnoc(s[1..], b);
      assert 256 * (b * Radix(|s| - 1)) == b * Radix(|s|);
    }
  }

  /** Decoding what was encoded gives the value back when it fits. */
  lemma {:induction false} LeRoundTrip(v: nat, n: nat)
    requires v < Radix(n)
    ensures LeValue(LeBytes(v, n)) == v
  {
    if n > 0 {
      LeRoundTrip(v / 256, n - 1);
      assert LeBytes(v, n)[1..] == LeBytes(v / 256, n - 1);
    }
  }

  /** Encoding what was decoded gives the bytes back. */
  lemma {:induction false} LeBytesOfValue(s: seq<byte>)
    ensures LeBytes(LeValue(s), |s|) == s
  {
    if s != [] {
      LeBytesOfValue(s[1..]);
      assert LeValue(s) / 256 == LeValue(s[1..]);
      assert s == [s[0]] + s[1..];
    }
  }

  /** Two values that fit are told apart by their encodings. */
  lemma LeInjective(v: nat, w: nat, n: nat)
    requires v < Radix(n) && w < Radix(n)
    requires LeBytes(v, n) == LeBytes(w, n)
    ensures v == w
  {
    LeRoundTrip(v, n);
    LeRoundTrip(w, n);
  }

  lemma Radix2()
    ensures Radix(2) == 0x1_0000
  {
    assert Radix(1) == 256;
  }

  lemma Radix4()
    ensures Radix(4) == 0x1_0000_0000
  {
    Radix2();
    assert Radix(3) == 0x100_0000;
  }

  lemma Radix8()
    ensures Radix(8) == 0x1_0000_0000_0000_0000
  {
    Radix4();
    assert Radix(5) == 0x100_0000_0000;
    assert Radix(6) == 0x1_0000_0000_0000;
    assert Radix(7) == 0x100_0000_0000_0000;
  }
}
