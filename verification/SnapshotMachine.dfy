/** The whole container: what a machine writes and what a restore accepts and returns. */
module SnapshotMachine {
  import opened Bytes
  import opened Snapshot
  import opened SnapshotRam
  import opened DiskOverlay
  import opened Trap

  /** "EMUSNAP1". */
  const MAGIC: seq<byte> := [0x45, 0x4d, 0x55, 0x53, 0x4e, 0x41, 0x50, 0x31]
  const FORMAT_VERSION: nat := 6
  const CSR_SLOTS: nat := 4096

  /** A device's section, with a body only the device reads. */
  datatype Device = Device(version: nat, body: seq<byte>)

  datatype Contents = Contents(
    header: Header, hart: HartState, csr: CsrState, devices: seq<Device>, ram: seq<byte>, overlay: seq<Page>)

  function DeviceSections(devices: seq<Device>): seq<byte> {
    if devices == [] then [] else Section(devices[0].version, devices[0].body) + DeviceSections(devices[1..])
  }

  function Versions(devices: seq<Device>): seq<nat> {
    if devices == [] then [] else [devices[0].version] + Versions(devices[1..])
  }

  function TakeDevices(s: seq<byte>, versions: seq<nat>): Parsed<seq<Device>>
    decreases |versions|
  {
    if versions == [] then Got([], s) else
      match TakeSection(s, versions[0])
      case Bad => Bad
      case Got(body, a) =>
        match TakeDevices(a, versions[1..])
        case Bad => Bad
        case Got(devices, b) => Got([Device(versions[0], body)] + devices, b)
  }

  function Container(c: Contents): seq<byte> {
    MAGIC + LeBytes(FORMAT_VERSION, 4) + Section(1, HeaderBody(c.header)) + Section(1, HartBody(c.hart))
    + Section(1, CsrBody(c.csr)) + DeviceSections(c.devices) + Section(1, RamBody(c.ram))
    + Section(1, OverlayBody(c.overlay))
  }

  // ---- Reading ----

  /** The magic, the format version and the header, and what follows. */
  function TakeHeader(s: seq<byte>, utf8: seq<byte> -> bool): Parsed<Header> {
    match TakeRaw(s, 8)
    case Bad => Bad
    case Got(magic, a) =>
      if magic != MAGIC then Bad else
        match TakeInt(a, 4)
        case Bad => Bad
        case Got(version, b) =>
          if version != FORMAT_VERSION then Bad else
            match TakeSection(b, 1)
            case Bad => Bad
            case Got(body, c) =>
              match Whole(ParseHeader(body, utf8))
              case Bad => Bad
              case Got(h, _) => Got(h, c)
  }

  /** What a host insists on: images, disk, RAM size and timebase. */
  datatype Check = Check(imageHash: Option<seq<byte>>, diskId: Option<seq<byte>>, ramBytes: nat, timebaseHz: nat)

  predicate Admits(check: Check, h: Header) {
    && (check.imageHash.Some? ==> check.imageHash.value == h.imageHash)
    && (check.diskId.Some? ==> check.diskId.value == h.diskId)
    && h.ramBytes == check.ramBytes
    && h.timebaseHz == check.timebaseHz
  }

  datatype Restored = Restored(
    header: Header, hart: HartState, csr: CsrState, devices: seq<Device>, pages: seq<Page>, overlay: seq<Page>)

  function TakeHart(s: seq<byte>): Parsed<HartState> {
    match TakeSection(s, 1)
    case Bad => Bad
    case Got(body, rest) =>
      match Whole(ParseHart(body))
      case Bad => Bad
      case Got(h, _) => Got(h, rest)
  }

  function TakeCsr(s: seq<byte>): Parsed<CsrState> {
    match TakeSection(s, 1)
    case Bad => Bad
    case Got(body, rest) =>
      match Whole(ParseCsr(body, CSR_SLOTS))
      case Bad => Bad
      case Got(c, _) => Got(c, rest)
  }

  function TakeRam(s: seq<byte>, size: nat): Parsed<seq<Page>> {
    match TakeSection(s, 1)
    case Bad => Bad
    case Got(body, rest) =>
      match Whole(ParseRam(body, size))
      case Bad => Bad
      case Got(pages, _) => Got(pages, rest)
  }

  function TakeOverlay(s: seq<byte>): Parsed<seq<Page>> {
    match TakeSection(s, 1)
    case Bad => Bad
    case Got(body, rest) =>
      match Whole(ParseOverlay(body))
      case Bad => Bad
      case Got(blocks, _) => Got(blocks, rest)
  }

  /** Hart, CSRs, devices, RAM and overlay, in that order. */
  function TakeState(s: seq<byte>, h: Header, versions: seq<nat>, size: nat): Parsed<Restored> {
    match TakeHart(s)
    case Bad => Bad
    case Got(hart, a) =>
      match TakeCsr(a)
      case Bad => Bad
      case Got(csr, b) =>
        match TakeDevices(b, versions)
        case Bad => Bad
        case Got(devices, c) =>
          match TakeRam(c, size)
          case Bad => Bad
          case Got(pages, d) =>
            match TakeOverlay(d)
            case Bad => Bad
            case Got(overlay, e) => Got(Restored(h, hart, csr, devices, pages, overlay), e)
  }

  function Restore(s: seq<byte>, check: Check, versions: seq<nat>, utf8: seq<byte> -> bool): Parsed<Restored> {
    match TakeHeader(s, utf8)
    case Bad => Bad
    case Got(h, rest) => if !Admits(check, h) then Bad else TakeState(rest, h, versions, check.ramBytes)
  }

  // ---- Round trip ----

  predicate Short(body: seq<byte>) {
    |body| < 0x1_0000_0000
  }

  /** A machine whose section bodies are under 2^32 bytes. */
  predicate Writable(c: Contents, utf8: seq<byte> -> bool) {
    && c.header.Writable(utf8) && c.hart.Writable() && c.csr.Writable()
    && U64(|c.ram|) && WholeBlocks(c.overlay) && U64(|c.overlay|)
    && Short(HeaderBody(c.header)) && Short(HartBody(c.hart)) && Short(CsrBody(c.csr))
    && Short(RamBody(c.ram)) && Short(OverlayBody(c.overlay))
    && (forall i :: 0 <= i < |c.devices| ==> c.devices[i].version < 0x1_0000 && Short(c.devices[i].body))
  }

  lemma {:induction false} DevicesTrip(devices: seq<Device>, rest: seq<byte>)
    requires forall i :: 0 <= i < |devices| ==> devices[i].version < 0x1_0000 && Short(devices[i].body)
    ensures TakeDevices(DeviceSections(devices) + rest, Versions(devices)) == Got(devices, rest)
    decreases |devices|
  {
    hide Section, TakeSection;
    if devices == [] {
      assert DeviceSections(devices) + rest == rest;
    } else {
      var d, tail := devices[0], devices[1..];
      var more := DeviceSections(tail) + rest;
      assert DeviceSections(devices) + rest == Section(d.version, d.body) + more;
      SectionTrip(d.version, d.body, more);
      DevicesTrip(tail, rest);
      assert Versions(devices)[1..] == Versions(tail);
      assert [d] + tail == devices;
    }
  }

  lemma HeaderBack(h: Header, utf8: seq<byte> -> bool, rest: seq<byte>)
    requires h.Writable(utf8) && Short(HeaderBody(h))
    ensures TakeHeader(MAGIC + LeBytes(FORMAT_VERSION, 4) + Section(1, HeaderBody(h)) + rest, utf8) == Got(h, rest)
  {
    hide LeBytes, TakeInt, Section, TakeSection, HeaderBody, ParseHeader;
    var c := Section(1, HeaderBody(h)) + rest;
    var b := LeBytes(FORMAT_VERSION, 4) + c;
    assert MAGIC + LeBytes(FORMAT_VERSION, 4) + Section(1, HeaderBody(h)) + rest == MAGIC + b;
    RawTrip(MAGIC, b);
    assert FORMAT_VERSION < Radix(4) by { Radix4(); }
    IntTrip(FORMAT_VERSION, 4, c);
    SectionTrip(1, HeaderBody(h), rest);
    HeaderTrip(h, utf8);
  }

  lemma StateBack(c: Contents, utf8: seq<byte> -> bool)
    requires Writable(c, utf8)
    ensures var s := Section(1, HartBody(c.hart)) + (Section(1, CsrBody(c.csr)) + (DeviceSections(c.devices)
                       + (Section(1, RamBody(c.ram)) + Section(1, OverlayBody(c.overlay)))));
            var p := Whole(ParseRam(RamBody(c.ram), |c.ram|));
            p.Got? && TakeState(s, c.header, Versions(c.devices), |c.ram|)
                      == Got(Restored(c.header, c.hart, c.csr, c.devices, p.value, c.overlay), [])
  {
    hide Section, TakeSection, DeviceSections, TakeDevices, Versions;
    hide HartBody, CsrBody, RamBody, OverlayBody, ParseHart, ParseCsr, ParseRam, ParseOverlay;
    var e := Section(1, OverlayBody(c.overlay));
    var d := Section(1, RamBody(c.ram)) + e;
    var b := DeviceSections(c.devices) + d;
    var a := Section(1, CsrBody(c.csr)) + b;
    SectionTrip(1, HartBody(c.hart), a);
    HartTrip(c.hart);
    SectionTrip(1, CsrBody(c.csr), b);
    CsrTrip(c.csr);
    DevicesTrip(c.devices, d);
    SectionTrip(1, RamBody(c.ram), e);
    RamTrip(c.ram);
    SectionTrip(1, OverlayBody(c.overlay), []);
    assert e + [] == e;
    OverlayTrip(c.overlay);
  }

  /**
   Restoring a container on a host that admits its header consumes exactly what was
   written and returns the header, hart, CSRs, device bodies and overlay as they were,
   with pages that rebuild RAM byte for byte.
   */
  lemma ContainerTrip(c: Contents, check: Check, utf8: seq<byte> -> bool)
    requires Writable(c, utf8) && Admits(check, c.header) && check.ramBytes == |c.ram|
    ensures var r := Restore(Container(c), check, Versions(c.devices), utf8);
            && r.Got? && r.rest == []
            && r.value.header == c.header && r.value.hart == c.hart && r.value.csr == c.csr
            && r.value.devices == c.devices && r.value.overlay == c.overlay
            && AllFit(r.value.pages, |c.ram|) && Loaded(Zeros(|c.ram|), r.value.pages) == c.ram
  {
    hide LeBytes, Section, DeviceSections, HeaderBody, HartBody, CsrBody, RamBody, OverlayBody;
    hide TakeHeader, TakeState, ParseRam;
    var tail := Section(1, HartBody(c.hart)) + (Section(1, CsrBody(c.csr)) + (DeviceSections(c.devices)
                  + (Section(1, RamBody(c.ram)) + Section(1, OverlayBody(c.overlay)))));
    assert Container(c) == MAGIC + LeBytes(FORMAT_VERSION, 4) + Section(1, HeaderBody(c.header)) + tail;
    HeaderBack(c.header, utf8, tail);
    StateBack(c, utf8);
    RamTrip(c.ram);
  }

  /** A host that does not admit the header refuses the container. */
  lemma MismatchIsRefused(c: Contents, check: Check, versions: seq<nat>, utf8: seq<byte> -> bool)
    requires Writable(c, utf8) && !Admits(check, c.header)
    ensures Restore(Container(c), check, versions, utf8) == Bad
  {
    hide LeBytes, Section, DeviceSections, HeaderBody, HartBody, CsrBody, RamBody, OverlayBody;
    hide TakeHeader, TakeState, Admits;
    var tail := Section(1, HartBody(c.hart)) + Section(1, CsrBody(c.csr)) + DeviceSections(c.devices)
                + Section(1, RamBody(c.ram)) + Section(1, OverlayBody(c.overlay));
    assert Container(c) == MAGIC + LeBytes(FORMAT_VERSION, 4) + Section(1, HeaderBody(c.header)) + tail;
    HeaderBack(c.header, utf8, tail);
  }

  /** The pages of a restore that succeeds fit the machine's RAM. */
  lemma RestoredFits(s: seq<byte>, check: Check, versions: seq<nat>, utf8: seq<byte> -> bool)
    requires Restore(s, check, versions, utf8).Got?
    ensures AllFit(Restore(s, check, versions, utf8).value.pages, check.ramBytes)
  {
    hide TakeHeader, TakeHart, TakeCsr, TakeDevices, TakeOverlay, TakeSection, AllFit;
    var h := TakeHeader(s, utf8).value;
    var a := TakeHart(TakeHeader(s, utf8).rest).rest;
    var c := TakeDevices(TakeCsr(a).rest, versions).rest;
    TakenFits(TakeSection(c, 1).value, check.ramBytes);
  }

  lemma TakenFits(body: seq<byte>, size: nat)
    ensures Whole(ParseRam(body, size)).Got? ==> AllFit(Whole(ParseRam(body, size)).value, size)
  {
    hide TakeInt, TakePages, AllFit;
    match TakeInt(body, 8)
    case Bad =>
    case Got(_, a) =>
      match TakeInt(a, 8)
      case Bad =>
      case Got(count, b) => TakenPagesFit(b, count, size);
  }
}
