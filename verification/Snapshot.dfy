/**
 The snapshot container: little-endian fields in length-prefixed, versioned
 sections. Parsers take the front of a byte string and return what is left, so
 that reading back what was written consumes exactly that.
 */
module Snapshot {
  import opened Bytes
  import opened Trap

  datatype Parsed<+T> = Got(value: T, rest: seq<byte>) | Bad

  // ---- Fields ----

  function TakeRaw(s: seq<byte>, n: nat): Parsed<seq<byte>> {
    if |s| < n then Bad else Got(s[..n], s[n..])
  }

  function TakeInt(s: seq<byte>, n: nat): Parsed<nat> {
    if |s| < n then Bad else Got(LeValue(s[..n]), s[n..])
  }

  function BoolBytes(b: bool): seq<byte> {
    [if b then 1 else 0]
  }

  function TakeBool(s: seq<byte>): Parsed<bool> {
    if s == [] || s[0] > 1 then Bad else Got(s[0] == 1, s[1..])
  }

  /** Bytes behind a u32 length. */
  function Prefixed(bytes: seq<byte>): seq<byte> {
    LeBytes(|bytes| % 0x1_0000_0000, 4) + bytes
  }

  function TakePrefixed(s: seq<byte>): Parsed<seq<byte>> {
    match TakeInt(s, 4)
    case Bad => Bad
    case Got(n, rest) => TakeRaw(rest, n)
  }

  function Words(ws: seq<nat>): seq<byte> {
    if ws == [] then [] else LeBytes(ws[0], 8) + Words(ws[1..])
  }

  function TakeWords(s: seq<byte>, n: nat): Parsed<seq<nat>>
    decreases n
  {
    if n == 0 then Got([], s) else
      match TakeInt(s, 8)
      case Bad => Bad
      case Got(w, rest) =>
        match TakeWords(rest, n - 1)
        case Bad => Bad
        case Got(ws, left) => Got([w] + ws, left)
  }

  predicate U64(v: nat) {
    v < 0x1_0000_0000_0000_0000
  }

  predicate AllU64(ws: seq<nat>) {
    forall i :: 0 <= i < |ws| ==> U64(ws[i])
  }

  /** A body behind its version and length. */
  function Section(version: nat, body: seq<byte>): seq<byte> {
    LeBytes(version, 2) + Prefixed(body)
  }

  /** The body of a section of the expected version. */
  function TakeSection(s: seq<byte>, version: nat): Parsed<seq<byte>> {
    match TakeInt(s, 2)
    case Bad => Bad
    case Got(v, rest) => if v != version then Bad else TakePrefixed(rest)
  }

  /** A section's body must be consumed exactly. */
  function Whole<T>(p: Parsed<T>): Parsed<T> {
    if p.Got? && p.rest == [] then p else Bad
  }

  // ---- Reading back what was written ----

  lemma RawTrip(bytes: seq<byte>, rest: seq<byte>)
    ensures TakeRaw(bytes + rest, |bytes|) == Got(bytes, rest)
  {
    assert (bytes + rest)[..|bytes|] == bytes && (bytes + rest)[|bytes|..] == rest;
  }

  lemma IntTrip(v: nat, n: nat, rest: seq<byte>)
    requires v < Radix(n)
    ensures TakeInt(LeBytes(v, n) + rest, n) == Got(v, rest)
  {
    hide LeBytes, LeValue, Radix;
    RawTrip(LeBytes(v, n), rest);
    LeRoundTrip(v, n);
  }

  lemma WordTrip(v: nat, rest: seq<byte>)
    requires U64(v)
    ensures TakeInt(LeBytes(v, 8) + rest, 8) == Got(v, rest)
  {
    Radix8();
    IntTrip(v, 8, rest);
  }

  lemma BoolTrip(b: bool, rest: seq<byte>)
    ensures TakeBool(BoolBytes(b) + rest) == Got(b, rest)
  {
    assert (BoolBytes(b) + rest)[1..] == rest;
  }

  /** Exactly when the length fits its prefix. */
  lemma PrefixedTrip(bytes: seq<byte>, rest: seq<byte>)
    ensures TakePrefixed(Prefixed(bytes) + rest) == Got(bytes, rest) <==> |bytes| < 0x1_0000_0000
  {
    hide LeBytes, LeValue, Radix;
    Radix4();
    var n := |bytes| % 0x1_0000_0000;
    IntTrip(n, 4, bytes + rest);
    assert Prefixed(bytes) + rest == LeBytes(n, 4) + (bytes + rest);
    RawTrip(bytes, rest);
  }

  lemma {:induction false} WordsTrip(ws: seq<nat>, rest: seq<byte>)
    requires AllU64(ws)
    ensures TakeWords(Words(ws) + rest, |ws|) == Got(ws, rest)
    decreases |ws|
  {
    hide LeBytes, TakeInt;
    if ws == [] {
      assert Words(ws) + rest == rest;
    } else {
      hide Words, TakeWords;
      var w, tail := ws[0], ws[1..];
      assert ws == [w] + tail;
      WordsCons(w, tail);
      WordsTrip(tail, rest);
      WordTrip(w, Words(tail) + rest);
      assert Words(ws) + rest == LeBytes(w, 8) + (Words(tail) + rest);
      TakeWordsStep(Words(ws) + rest, |ws|);
    }
  }

  lemma WordsCons(w: nat, ws: seq<nat>)
    ensures Words([w] + ws) == LeBytes(w, 8) + Words(ws)
  {
    hide LeBytes;
    assert ([w] + ws)[1..] == ws;
  }

  lemma TakeWordsStep(s: seq<byte>, n: nat)
    requires n > 0 && TakeInt(s, 8).Got? && TakeWords(TakeInt(s, 8).rest, n - 1).Got?
    ensures var p := TakeWords(TakeInt(s, 8).rest, n - 1);
            TakeWords(s, n) == Got([TakeInt(s, 8).value] + p.value, p.rest)
  {
    hide TakeInt;
  }

  lemma SectionTrip(version: nat, body: seq<byte>, rest: seq<byte>)
    requires version < 0x1_0000
    ensures TakeSection(Section(version, body) + rest, version) == Got(body, rest) <==> |body| < 0x1_0000_0000
  {
    hide LeBytes, LeValue, Radix, TakeInt, TakePrefixed, Prefixed;
    Radix2();
    IntTrip(version, 2, Prefixed(body) + rest);
    assert Section(version, body) + rest == LeBytes(version, 2) + (Prefixed(body) + rest);
    PrefixedTrip(body, rest);
  }

  // ---- Header ----

  datatype Header = Header(
    imageHash: seq<byte>, diskId: seq<byte>, ramBytes: nat, timebaseHz: nat, mtime: nat, capturedUnixNs: nat,
    ramPages: nat, diskBlocks: nat)
  {
    function Numbers(): seq<nat> {
      [ramBytes, timebaseHz, mtime, capturedUnixNs, ramPages, diskBlocks]
    }

    /** A hash of 32 bytes, a disk name that is text and not absurdly long, 64-bit numbers. */
    predicate Writable(utf8: seq<byte> -> bool) {
      |imageHash| == 32 && utf8(diskId) && |diskId| < 0xffff_ff00 && AllU64(Numbers())
    }
  }

  function HeaderBody(h: Header): seq<byte> {
    h.imageHash + Prefixed(h.diskId) + Words(h.Numbers())
  }

  function ParseHeader(s: seq<byte>, utf8: seq<byte> -> bool): Parsed<Header> {
    match TakeRaw(s, 32)
    case Bad => Bad
    case Got(hash, a) =>
      match TakePrefixed(a)
      case Bad => Bad
      case Got(disk, b) =>
        if !utf8(disk) then Bad else
          match TakeWords(b, 6)
          case Bad => Bad
          case Got(n, c) => if |n| != 6 then Bad else Got(Header(hash, disk, n[0], n[1], n[2], n[3], n[4], n[5]), c)
  }

  lemma HeaderTrip(h: Header, utf8: seq<byte> -> bool)
    requires h.Writable(utf8)
    ensures Whole(ParseHeader(HeaderBody(h), utf8)) == Got(h, [])
  {
    hide LeBytes, TakeInt, TakePrefixed, Prefixed, Words, TakeWords;
    var tail := Words(h.Numbers());
    assert HeaderBody(h) == h.imageHash + (Prefixed(h.diskId) + tail);
    RawTrip(h.imageHash, Prefixed(h.diskId) + tail);
    PrefixedTrip(h.diskId, tail);
    WordsTrip(h.Numbers(), []);
    assert tail + [] == tail;
  }

  // ---- Hart ----

  datatype HartState = HartState(
    regs: seq<nat>, fregs: seq<nat>, pc: nat, nextPc: nat, mode: Mode, reservation: Option<nat>, wfi: bool)
  {
    function Numbers(): seq<nat> {
      regs + fregs + [pc, nextPc]
    }

    predicate Writable() {
      |regs| == 32 && |fregs| == 32 && AllU64(Numbers()) && (reservation.Some? ==> U64(reservation.value))
    }
  }

  function ModeByte(m: Mode): byte {
    match m
    case User => 0
    case Supervisor => 1
    case Machine => 3
  }

  function HartBody(h: HartState): seq<byte> {
    Words(h.Numbers()) + [ModeByte(h.mode)] + BoolBytes(h.reservation.Some?)
    + LeBytes(if h.reservation.Some? then h.reservation.value else 0, 8) + BoolBytes(h.wfi)
  }

  function ParseHart(s: seq<byte>): Parsed<HartState> {
    match TakeWords(s, 66)
    case Bad => Bad
    case Got(n, a) =>
      if a == [] || |n| != 66 || (a[0] != 0 && a[0] != 1 && a[0] != 3) then Bad else
        var mode := if a[0] == 0 then User else if a[0] == 1 then Supervisor else Machine;
        match TakeBool(a[1..])
        case Bad => Bad
        case Got(held, b) =>
          match TakeInt(b, 8)
          case Bad => Bad
          case Got(address, c) =>
            match TakeBool(c)
            case Bad => Bad
            case Got(wfi, d) =>
              Got(HartState(n[..32], n[32..64], n[64], n[65], mode, if held then Some(address) else None, wfi), d)
  }

  lemma HartTrip(h: HartState)
    requires h.Writable()
    ensures Whole(ParseHart(HartBody(h))) == Got(h, [])
  {
    hide LeBytes, TakeInt, Words, TakeWords;
    var address := if h.reservation.Some? then h.reservation.value else 0;
    var d := BoolBytes(h.wfi);
    var c := LeBytes(address, 8) + d;
    var b := BoolBytes(h.reservation.Some?) + c;
    var a := [ModeByte(h.mode)] + b;
    assert HartBody(h) == Words(h.Numbers()) + a;
    WordsTrip(h.Numbers(), a);
    assert a[1..] == b;
    BoolTrip(h.reservation.Some?, c);
    WordTrip(address, d);
    BoolTrip(h.wfi, []);
    assert d + [] == d;
    var n := h.Numbers();
    assert n[..32] == h.regs && n[32..64] == h.fregs;
  }

  // ---- CSRs ----

  datatype CsrState = CsrState(regs: seq<nat>, deviceMip: nat, legacyPmpStubs: bool, cycle: nat, instret: nat)
  {
    predicate Writable() {
      |regs| == 4096 && AllU64(regs) && U64(deviceMip) && U64(cycle) && U64(instret)
    }
  }

  function CsrBody(c: CsrState): seq<byte> {
    LeBytes(|c.regs| % 0x1_0000_0000, 4) + Words(c.regs) + LeBytes(c.deviceMip, 8) + BoolBytes(c.legacyPmpStubs)
    + Words([c.cycle, c.instret])
  }

  /** `slots` is the number of CSRs this build has. */
  function ParseCsr(s: seq<byte>, slots: nat): Parsed<CsrState> {
    match TakeInt(s, 4)
    case Bad => Bad
    case Got(count, a) =>
      if count != slots then Bad else
        match TakeWords(a, slots)
        case Bad => Bad
        case Got(regs, b) =>
          match TakeInt(b, 8)
          case Bad => Bad
          case Got(mip, c) =>
            match TakeBool(c)
            case Bad => Bad
            case Got(legacy, d) =>
              match TakeWords(d, 2)
              case Bad => Bad
              case Got(n, e) => if |n| != 2 then Bad else Got(CsrState(regs, mip, legacy, n[0], n[1]), e)
  }

  lemma CsrTrip(c: CsrState)
    requires c.Writable()
    ensures Whole(ParseCsr(CsrBody(c), 4096)) == Got(c, [])
  {
    hide LeBytes, TakeInt, Words, TakeWords;
    var e := Words([c.cycle, c.instret]);
    var d := BoolBytes(c.legacyPmpStubs) + e;
    var b := LeBytes(c.deviceMip, 8) + d;
    var a := Words(c.regs) + b;
    assert CsrBody(c) == LeBytes(4096, 4) + a;
    assert 4096 < Radix(4) by { Radix4(); }
    IntTrip(4096, 4, a);
    WordsTrip(c.regs, b);
    WordTrip(c.deviceMip, d);
    BoolTrip(c.legacyPmpStubs, e);
    WordsTrip([c.cycle, c.instret], []);
    assert e + [] == e;
  }
}
