/** The container's append-only writer and its checked cursor. */
module SnapshotIo {
  import opened Bytes
  import opened Snapshot
  import opened SnapshotCore
  import opened Trap
  import SnapshotRam
  import SM = SnapshotMachine
  import CachedCpu
  import Cores
  import Harts

  class Writer {
    var buf: seq<byte>

    constructor ()
      ensures buf == []
    {
      buf := [];
    }

    method Raw(bytes: seq<byte>)
      modifies this
      ensures buf == old(buf) + bytes
    {
      buf := buf + bytes;
    }

    /** An integer of n bytes. */
    method Int(v: nat, n: nat)
      modifies this
      ensures buf == old(buf) + LeBytes(v, n)
    {
      buf := buf + LeBytes(v, n);
    }

    method Bool(b: bool)
      modifies this
      ensures buf == old(buf) + BoolBytes(b)
    {
      buf := buf + [if b then 1 else 0];
    }

    method Bytes(bytes: seq<byte>)
      modifies this
      ensures buf == old(buf) + Prefixed(bytes)
    {
      hide LeBytes;
      Int(|bytes| % 0x1_0000_0000, 4);
      Raw(bytes);
    }

    /** A body written to a nested writer, behind its version and length. */
    method Section(version: nat, inner: Writer)
      requires inner != this
      modifies this
      ensures buf == old(buf) + Snapshot.Section(version, inner.buf)
    {
      hide LeBytes;
      Int(version, 2);
      Int(|inner.buf| % 0x1_0000_0000, 4);
      Raw(inner.buf);
    }

    method Numbers(ws: seq<nat>)
      modifies this
      ensures buf == old(buf) + Words(ws)
    {
      hide LeBytes, Words;
      assert ws[..0] == [] && Words([]) == [] by { WordsNone(); }
      for i := 0 to |ws|
        invariant buf == old(buf) + Words(ws[..i])
      {
        WordsSnoc(ws[..i], ws[i]);
        assert ws[..i + 1] == ws[..i] + [ws[i]];
        Int(ws[i], 8);
      }
      assert ws[..|ws|] == ws;
    }

    method Hart(h: HartState)
      modifies this
      ensures buf == old(buf) + HartBody(h)
    {
      hide LeBytes, Words;
      WordsConcat(h.regs + h.fregs, [h.pc, h.nextPc]);
      WordsConcat(h.regs, h.fregs);
      Numbers(h.regs);
      Numbers(h.fregs);
      Numbers([h.pc, h.nextPc]);
      Raw([ModeByte(h.mode)]);
      Reservation(h.reservation);
      Bool(h.wfi);
      assert buf == old(buf) + HartBody(h);
    }

    method Reservation(r: Option<nat>)
      modifies this
      ensures buf == old(buf) + (BoolBytes(r.Some?) + LeBytes(if r.Some? then r.value else 0, 8))
    {
      hide LeBytes;
      match r {
        case Some(address) =>
          Bool(true);
          Int(address, 8);
        case None =>
          Bool(false);
          Int(0, 8);
      }
    }
  }

  lemma WordsNone()
    ensures Words([]) == []
  {
  }

  lemma {:induction false} WordsConcat(a: seq<nat>, b: seq<nat>)
    ensures Words(a + b) == Words(a) + Words(b)
  {
    hide LeBytes;
    if a == [] {
      assert a + b == b;
    } else {
      hide Words;
      var w, tail := a[0], a[1..];
      assert a == [w] + tail && a + b == [w] + (tail + b);
      WordsConcat(tail, b);
      WordsCons(w, tail);
      WordsCons(w, tail + b);
    }
  }

  lemma WordsSnoc(ws: seq<nat>, w: nat)
    ensures Words(ws + [w]) == Words(ws) + LeBytes(w, 8)
  {
    hide LeBytes;
    WordsConcat(ws, [w]);
    assert [w][1..] == [];
  }

  /** A cursor; every accessor is checked, and reads exactly what its parser takes. */
  class Reader {
    const data: seq<byte>
    var pos: nat

    ghost predicate Valid()
      reads this
    {
      pos <= |data|
    }

    /** What is left to read. */
    ghost function Rest(): seq<byte>
      requires Valid()
      reads this
    {
      data[pos..]
    }

    constructor (data: seq<byte>)
      ensures Valid() && Rest() == data && this.data == data
    {
      this.data, pos := data, 0;
    }

    method Raw(n: nat) returns (ok: bool, bytes: seq<byte>)
      requires Valid()
      modifies this
      ensures Valid()
      ensures (if ok then Got(bytes, Rest()) else Bad) == TakeRaw(old(Rest()), n)
    {
      if |data| < pos + n {
        return false, [];
      }
      ok, bytes := true, data[pos..pos + n];
      assert data[pos..][..n] == bytes && data[pos..][n..] == data[pos + n..];
      pos := pos + n;
    }

    method Int(n: nat) returns (ok: bool, v: nat)
      requires Valid()
      modifies this
      ensures Valid()
      ensures (if ok then Got(v, Rest()) else Bad) == TakeInt(old(Rest()), n)
    {
      var bytes;
      ok, bytes := Raw(n);
      v := if ok then LeValue(bytes) else 0;
    }

    method Bool() returns (ok: bool, b: bool)
      requires Valid()
      modifies this
      ensures Valid()
      ensures ok ==> Got(b, Rest()) == TakeBool(old(Rest()))
      ensures !ok ==> TakeBool(old(Rest())) == Bad
    {
      var bytes;
      ok, bytes := Raw(1);
      b := ok && bytes[0] == 1;
      ok := ok && bytes[0] <= 1;
    }

    /** The body of the next section, if it has the expected version. */
    method Section(version: nat) returns (ok: bool, body: seq<byte>)
      requires Valid()
      modifies this
      ensures Valid()
      ensures ok ==> Got(body, Rest()) == TakeSection(old(Rest()), version)
      ensures !ok ==> TakeSection(old(Rest()), version) == Bad
    {
      hide LeValue;
      body := [];
      var v, n;
      ok, v := Int(2);
      if !ok || v != version {
        return false, [];
      }
      ok, n := Int(4);
      if ok {
        ok, body := Raw(n);
      }
    }

    method Numbers(n: nat) returns (ok: bool, ws: seq<nat>)
      requires Valid()
      modifies this
      ensures Valid()
      ensures ok ==> Got(ws, Rest()) == TakeWords(old(Rest()), n)
      ensures !ok ==> TakeWords(old(Rest()), n) == Bad
    {
      hide TakeInt;
      ok, ws := true, [];
      PrependNothing(TakeWords(Rest(), n));
      for i := 0 to n
        invariant Valid() && ok
        invariant TakeWords(old(Rest()), n) == Prepend(ws, TakeWords(Rest(), n - i))
      {
        ghost var before := Rest();
        var w;
        ok, w := Int(8);
        if !ok {
          return false, [];
        }
        PrependMore(ws, w, TakeWords(Rest(), n - i - 1));
        ws := ws + [w];
      }
      assert ws + [] == ws;
    }
  }

  /** Words read before the rest of them. */
  function Prepend(ws: seq<nat>, p: Parsed<seq<nat>>): Parsed<seq<nat>> {
    if p.Got? then Got(ws + p.value, p.rest) else Bad
  }

  lemma PrependNothing(p: Parsed<seq<nat>>)
    ensures Prepend([], p) == p
  {
    if p.Got? {
      assert [] + p.value == p.value;
    }
  }

  lemma PrependMore(ws: seq<nat>, w: nat, p: Parsed<seq<nat>>)
    ensures Prepend(ws + [w], p) == Prepend(ws, if p.Got? then Got([w] + p.value, p.rest) else Bad)
  {
    if p.Got? {
      assert ws + [w] + p.value == ws + ([w] + p.value);
    }
  }

  /**
   Restore a hart's memory and drop its caches: generations restart, and the hart
   agrees with the reference hart in the restored state.
   */
  method RestoreMemory(cpu: CachedCpu.Cpu, pages: seq<SnapshotRam.Page>)
    requires cpu.ram.Valid() && cpu.mmu.Valid() && cpu.cache.Valid()
    requires SnapshotRam.AllFit(pages, |cpu.ram.data|)
    modifies cpu`memo, cpu.ram, cpu.mmu, cpu.mmu.tlb, cpu.cache, cpu.cache.blocks, cpu.cache.nextVictim
    ensures cpu.Valid() && cpu.ActiveArmed()
    ensures cpu.ram.data == SnapshotRam.Loaded(Zeros(|old(cpu.ram.data)|), pages)
    ensures cpu.Agrees(Harts.Hart(cpu.core, cpu.ram.data, cpu.dev, {}, {}, true))
  {
    SnapshotRam.Load(cpu.ram, pages);
    cpu.InvalidateCaches();
  }

  /** Registers and memory are what was read. */
  predicate Holds(core: Cores.Core, ram: seq<byte>, r: SM.Restored, size: nat) {
    && core == RestoreCore(r.hart, r.csr)
    && SnapshotRam.AllFit(r.pages, size) && ram == SnapshotRam.Loaded(Zeros(size), r.pages)
  }

  /**
   One restore, from the container to a hart that runs: it succeeds exactly when the
   container is whole and the host admits it, and leaves the hart with the captured
   registers and memory, agreeing with the hart without caches in that state.
   */
  method RestoreMachine(cpu: CachedCpu.Cpu, data: seq<byte>, check: SM.Check, versions: seq<nat>,
                        utf8: seq<byte> -> bool) returns (ok: bool)
    requires cpu.ram.Valid() && cpu.mmu.Valid() && cpu.cache.Valid() && check.ramBytes == |cpu.ram.data|
    modifies cpu, cpu.ram, cpu.mmu, cpu.mmu.tlb, cpu.cache, cpu.cache.blocks, cpu.cache.nextVictim
    ensures ok <==> SM.Restore(data, check, versions, utf8).Got?
    ensures ok ==>
      && cpu.Valid() && cpu.ActiveArmed()
      && cpu.Agrees(Harts.Hart(cpu.core, cpu.ram.data, cpu.dev, {}, {}, true))
      && Holds(cpu.core, cpu.ram.data, SM.Restore(data, check, versions, utf8).value, check.ramBytes)
    ensures forall c: SM.Contents, core: Cores.Core ::
      data == SM.Container(c) && Captures(c.hart, c.csr, core) && Storable(core) && versions == SM.Versions(c.devices)
      && SM.Writable(c, utf8) && SM.Admits(check, c.header) && check.ramBytes == |c.ram| ==>
        ok && cpu.core == core && cpu.ram.data == c.ram
  {
    hide SM.Restore, SM.Container, SM.Writable, SM.Admits, SnapshotRam.Loaded, RestoreCore, Captures, Storable;
    hide CachedCpu.Cpu.Agrees, CachedCpu.Cpu.ActiveArmed;
    ghost var size := |cpu.ram.data|;
    var r := SM.Restore(data, check, versions, utf8);
    forall c: SM.Contents | data == SM.Container(c) && versions == SM.Versions(c.devices)
      && SM.Writable(c, utf8) && SM.Admits(check, c.header) && check.ramBytes == |c.ram|
      ensures r.Got? && r.value.hart == c.hart && r.value.csr == c.csr
      ensures SnapshotRam.AllFit(r.value.pages, size) && SnapshotRam.Loaded(Zeros(size), r.value.pages) == c.ram
    {
      SM.ContainerTrip(c, check, utf8);
    }
    forall h: HartState, s: CsrState, core: Cores.Core | Captures(h, s, core) && Storable(core)
      ensures RestoreCore(h, s) == core
    {
      CapturedComesBack(h, s, core);
    }
    if r.Bad? {
      return false;
    }
    SM.RestoredFits(data, check, versions, utf8);
    cpu.core := RestoreCore(r.value.hart, r.value.csr);
    RestoreMemory(cpu, r.value.pages);
    return true;
  }
}
