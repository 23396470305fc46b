/**
 * pci_bios_check_devices of src/fw/pciinit.c: the sizing pass of the PCI
 * resource allocator.
 *
 * Every implemented BAR of every device becomes a request in the ledger of
 * the bus the device sits on (busses[0] for every root bus). Then the buses
 * are visited from MaxPCIBus down to 1: the bridge leading to each bus
 * turns the requests behind it into one window request per region type,
 * filed in the ledger of the bridge's own bus. Because a bridge's secondary
 * bus is numbered above its own bus, a window is sized only after every
 * window below it has been filed.
 *
 * The busses[] array of pci_setup is an array of BusRegions. malloc_tmp for
 * a request fails once allocCap requests exist; a failure stops the pass.
 */
module PciAlloc {
  import opened Bits
  import opened Wrappers
  import opened PciConfig
  import opened PciDevice
  import opened PciRegion
  import opened PciBar
  import PciBus

  /** Smallest memory BAR and smallest bridge windows (pciinit.c). */
  const PCI_DEVICE_MEM_MIN: int := 0x1000
  const PCI_BRIDGE_MEM_MIN: int := 0x20_0000
  const PCI_BRIDGE_IO_MIN: int := 0x1000

  /** Offsets of the reservation fields in QEMU's resource-reserve vendor capability. */
  const RES_RESERVE_IO: int := 8
  const RES_RESERVE_MEM: int := 16
  const RES_RESERVE_PREF_MEM_32: int := 20
  const RES_RESERVE_PREF_MEM_64: int := 24

  /** struct pci_bus: one region per type, and the bridge leading to the bus (None for a root bus). */
  datatype BusRegions = BusRegions(io: Region, mem: Region, pref: Region, busDev: Option<Device>)

  /** A zeroed struct pci_bus, as pci_setup allocates them. */
  const NoRegions: BusRegions := BusRegions(Region(0, []), Region(0, []), Region(0, []), None)

  /** bus->r[type] */
  function Reg(b: BusRegions, t: RegionType): Region {
    match t
    case Io => b.io
    case Mem => b.mem
    case PrefMem => b.pref
  }

  function WithReg(b: BusRegions, t: RegionType, r: Region): (b': BusRegions)
    ensures Reg(b', t) == r && b'.busDev == b.busDev
    ensures forall u :: u != t ==> Reg(b', u) == Reg(b, u)
  {
    match t
    case Io => b.(io := r)
    case Mem => b.(mem := r)
    case PrefMem => b.(pref := r)
  }

  /** The busses[] array, the number of requests allocated so far, and whether an allocation failed. */
  datatype Ledger = Ledger(busses: seq<BusRegions>, count: nat, failed: bool)

  /** The bus_dev of every bus. */
  function Bridges(bs: seq<BusRegions>): (r: seq<Option<Device>>)
    ensures |r| == |bs| && forall b :: 0 <= b < |bs| ==> r[b] == bs[b].busDev
  {
    seq(|bs|, b requires 0 <= b < |bs| => bs[b].busDev)
  }

  /** Every bus's bridge leads to that bus and sits on a bus of the array. */
  predicate BridgesFit(ds: seq<Option<Device>>) {
    forall b :: 0 <= b < |ds| && ds[b].Some? ==> ds[b].value.secondaryBus as int == b && 0 <= Bus(ds[b].value) < |ds|
  }

  predicate BusDevsFit(bs: seq<BusRegions>) {
    BridgesFit(Bridges(bs))
  }

  /** Bridges are left alone (and the array keeps its length). */
  predicate SameBridges(bs: seq<BusRegions>, bs': seq<BusRegions>) {
    Bridges(bs') == Bridges(bs)
  }

  /**
   * pci_region_create_entry(&busses[b], ...): the request joins the list of
   * its type in sorted position, unless malloc_tmp fails.
   */
  function Create(l: Ledger, b: nat, e: Entry, allocCap: int): (r: Ledger)
    requires b < |l.busses|
    ensures SameBridges(l.busses, r.busses)
  {
    if l.count >= allocCap then l.(failed := true)
    else
      var bus := l.busses[b];
      var reg := Reg(bus, e.rtype);
      l.(busses := l.busses[b := WithReg(bus, e.rtype, reg.(list := Insert(reg.list, e)))], count := l.count + 1)
  }

  /** The ledger that takes the requests of a device on bus b: that bus's own, or busses[0] for a root bus. */
  function Home(bs: seq<BusRegions>, b: int): (h: int)
    requires 0 <= b < |bs|
    ensures 0 <= h < |bs|
    ensures h == b <==> bs[b].busDev.Some? || b == 0
    ensures h != b ==> h == 0
  {
    if bs[b].busDev.Some? then b else 0
  }

  // ---------------------------------------------------------------------
  // Device requests (the first loop)
  // ---------------------------------------------------------------------

  /** The BARs the first loop passes over on a PCI-to-PCI bridge: 2 to 5, the header's bus-number and window registers. */
  predicate SkipsSlot(pci: Device, i: int) {
    pci.classCode == PciBus.PCI_CLASS_BRIDGE_PCI && PCI_BRIDGE_NUM_REGIONS <= i < PCI_ROM_SLOT
  }

  /** What pci_bios_get_bar reports for each of the seven BAR slots of pci: it leaves configuration space as it was. */
  function BarInfos(s: Space, wmask: Regs, pci: Device): (bars: seq<BarInfo>)
    ensures |bars| == PCI_NUM_REGIONS
  {
    seq(PCI_NUM_REGIONS, i requires 0 <= i < PCI_NUM_REGIONS => Probe(s, wmask, pci, i))
  }

  /** A probed size as the u64 the loop works with. */
  function SizeOf64(info: BarInfo): u64 {
    info.size as int
  }

  /** The size a BAR of that type and probed size requests: memory BARs take at least a page. */
  function ReqSize(rtype: RegionType, size: u64): (r: u64)
    requires size > 0
    ensures r > 0 && r >= size
    ensures rtype != Io ==> r >= PCI_DEVICE_MEM_MIN
    ensures r != size ==> rtype != Io && r == PCI_DEVICE_MEM_MIN
  {
    if rtype != Io && size < PCI_DEVICE_MEM_MIN then PCI_DEVICE_MEM_MIN else size
  }

  /** e is a request of pci for an implemented BAR: sized by the probe, aligned to its size. */
  predicate RequestOf(bars: seq<BarInfo>, pci: Device, e: Entry)
    requires |bars| == PCI_NUM_REGIONS
  {
    0 <= e.bar < PCI_NUM_REGIONS && !SkipsSlot(pci, e.bar) && e.dev == pci &&
    SizeOf64(bars[e.bar]) > 0 &&
    e.size == ReqSize(e.rtype, SizeOf64(bars[e.bar])) && e.align == e.size &&
    e.rtype == bars[e.bar].rtype && e.is64 == bars[e.bar].is64
  }

  /**
   * The requests the BAR loop makes for pci from slot i on, given what the
   * slots probe as: a slot is passed over on a bridge or when it probes as
   * size 0, and a 64-bit BAR takes the next slot as its high half.
   */
  function Requests(bars: seq<BarInfo>, pci: Device, i: int): seq<Entry>
    requires |bars| == PCI_NUM_REGIONS && 0 <= i <= PCI_NUM_REGIONS + 1
    decreases PCI_NUM_REGIONS + 1 - i
  {
    if i >= PCI_NUM_REGIONS then []
    else if SkipsSlot(pci, i) || SizeOf64(bars[i]) == 0 then Requests(bars, pci, i + 1)
    else
      var size := ReqSize(bars[i].rtype, SizeOf64(bars[i]));
      [Entry(pci, i, size, size, bars[i].is64, bars[i].rtype)] + Requests(bars, pci, if bars[i].is64 then i + 2 else i + 1)
  }

  /**
   * Every request is a request for an implemented BAR from slot i on, and
   * the BARs come in increasing order with the high half of a 64-bit BAR
   * left out.
   */
  lemma {:induction false} RequestsWellFormed(bars: seq<BarInfo>, pci: Device, i: int)
    requires |bars| == PCI_NUM_REGIONS && 0 <= i <= PCI_NUM_REGIONS + 1
    ensures forall k :: 0 <= k < |Requests(bars, pci, i)| ==>
      RequestOf(bars, pci, Requests(bars, pci, i)[k]) && i <= Requests(bars, pci, i)[k].bar
    ensures forall k, m :: 0 <= k < m < |Requests(bars, pci, i)| ==>
      Requests(bars, pci, i)[k].bar + (if Requests(bars, pci, i)[k].is64 then 1 else 0) < Requests(bars, pci, i)[m].bar
    decreases PCI_NUM_REGIONS + 1 - i
  {
    if i < PCI_NUM_REGIONS {
      if SkipsSlot(pci, i) || SizeOf64(bars[i]) == 0 {
        assert Requests(bars, pci, i) == Requests(bars, pci, i + 1);
        RequestsWellFormed(bars, pci, i + 1);
      } else {
        var next := if bars[i].is64 then i + 2 else i + 1;
        RequestsHead(bars, pci, i);
        RequestsWellFormed(bars, pci, next);
        var e := SlotRequest(bars, pci, i);
        assert RequestOf(bars, pci, e);
        ConsOrdered(bars, pci, i, e, Requests(bars, pci, next), next);
      }
    }
  }

  /** A request for an earlier slot in front of the requests from slot next on keeps both facts. */
  lemma ConsOrdered(bars: seq<BarInfo>, pci: Device, i: int, e: Entry, t: seq<Entry>, next: int)
    requires |bars| == PCI_NUM_REGIONS
    requires RequestOf(bars, pci, e) && i <= e.bar && e.bar + (if e.is64 then 1 else 0) < next
    requires forall k :: 0 <= k < |t| ==> RequestOf(bars, pci, t[k]) && next <= t[k].bar
    requires forall k, m :: 0 <= k < m < |t| ==> t[k].bar + (if t[k].is64 then 1 else 0) < t[m].bar
    ensures forall k :: 0 <= k < |[e] + t| ==> RequestOf(bars, pci, ([e] + t)[k]) && i <= ([e] + t)[k].bar
    ensures forall k, m :: 0 <= k < m < |[e] + t| ==>
      ([e] + t)[k].bar + (if ([e] + t)[k].is64 then 1 else 0) < ([e] + t)[m].bar
  {
    var r := [e] + t;
    forall k | 0 <= k < |r|
      ensures RequestOf(bars, pci, r[k]) && i <= r[k].bar
    {
      if k > 0 {
        assert r[k] == t[k - 1];
      }
    }
    forall k, m | 0 <= k < m < |r|
      ensures r[k].bar + (if r[k].is64 then 1 else 0) < r[m].bar
    {
      assert r[m] == t[m - 1];
      if k > 0 {
        assert r[k] == t[k - 1];
      }
    }
  }

  /** Slot j has a request in r. */
  predicate Listed(r: seq<Entry>, j: int) {
    exists k :: 0 <= k < |r| && r[k].bar == j
  }

  /** Slot j is the high half of a 64-bit request in r. */
  predicate HighHalf(r: seq<Entry>, j: int) {
    exists k :: 0 <= k < |r| && r[k].bar == j - 1 && r[k].is64
  }

  /**
   * Nothing is lost: every slot from i on that is not passed over on a
   * bridge and probes nonzero gets a request, unless it is the high half of
   * the 64-bit BAR below it.
   */
  lemma {:induction false} RequestsComplete(bars: seq<BarInfo>, pci: Device, i: int, j: int)
    requires |bars| == PCI_NUM_REGIONS && 0 <= i <= j < PCI_NUM_REGIONS
    requires !SkipsSlot(pci, j) && SizeOf64(bars[j]) != 0
    requires !HighHalf(Requests(bars, pci, i), j)
    ensures Listed(Requests(bars, pci, i), j)
    decreases j - i
  {
    if i == j {
      assert Requests(bars, pci, i)[0].bar == j;
    } else if SkipsSlot(pci, i) || SizeOf64(bars[i]) == 0 {
      RequestsComplete(bars, pci, i + 1, j);
    } else {
      var next := if bars[i].is64 then i + 2 else i + 1;
      RequestsHead(bars, pci, i);
      ConsListed(SlotRequest(bars, pci, i), Requests(bars, pci, next), j);
      if next > j {
        assert false;
      } else {
        RequestsComplete(bars, pci, next, j);
      }
    }
  }

  /** The request an implemented slot i makes. */
  function SlotRequest(bars: seq<BarInfo>, pci: Device, i: int): Entry
    requires |bars| == PCI_NUM_REGIONS && 0 <= i < PCI_NUM_REGIONS && SizeOf64(bars[i]) != 0
  {
    var size := ReqSize(bars[i].rtype, SizeOf64(bars[i]));
    Entry(pci, i, size, size, bars[i].is64, bars[i].rtype)
  }

  /** A slot that is not passed over heads the requests from it on. */
  lemma RequestsHead(bars: seq<BarInfo>, pci: Device, i: int)
    requires |bars| == PCI_NUM_REGIONS && 0 <= i < PCI_NUM_REGIONS
    requires !SkipsSlot(pci, i) && SizeOf64(bars[i]) != 0
    ensures Requests(bars, pci, i) == [SlotRequest(bars, pci, i)] + Requests(bars, pci, if bars[i].is64 then i + 2 else i + 1)
  {}

  /** A request in front keeps every slot listed, and every high half a high half. */
  lemma ConsListed(e: Entry, t: seq<Entry>, j: int)
    ensures Listed(t, j) ==> Listed([e] + t, j)
    ensures HighHalf(t, j) ==> HighHalf([e] + t, j)
    ensures e.bar == j - 1 && e.is64 ==> HighHalf([e] + t, j)
  {
    if Listed(t, j) {
      var k :| 0 <= k < |t| && t[k].bar == j;
      assert ([e] + t)[k + 1] == t[k];
    }
    if HighHalf(t, j) {
      var k :| 0 <= k < |t| && t[k].bar == j - 1 && t[k].is64;
      assert ([e] + t)[k + 1] == t[k];
    }
    if e.bar == j - 1 && e.is64 {
      assert ([e] + t)[0] == e;
    }
  }

  /** The requests of one device, filed one after another in busses[b]; the first failure stops. */
  function CreateAll(l: Ledger, b: nat, es: seq<Entry>, allocCap: int): (r: Ledger)
    requires b < |l.busses|
    ensures SameBridges(l.busses, r.busses)
    decreases |es|
  {
    if |es| == 0 || l.failed then l else CreateAll(Create(l, b, es[0], allocCap), b, es[1..], allocCap)
  }

  /** Bus numbers a device refers to lie inside the array. */
  predicate Fits(pci: Device, n: int) {
    0 <= Bus(pci) < n && pci.secondaryBus as int < n
  }

  predicate DevsFit(devs: seq<Device>, n: int) {
    forall i :: 0 <= i < |devs| ==> Fits(devs[i], n)
  }

  /** A PCI-to-PCI bridge becomes the bus_dev of its secondary bus; a later one replaces an earlier one. */
  function Adopt(bs: seq<BusRegions>, pci: Device): (r: seq<BusRegions>)
    requires pci.secondaryBus as int < |bs|
    ensures |r| == |bs|
  {
    if pci.classCode == PciBus.PCI_CLASS_BRIDGE_PCI then
      bs[pci.secondaryBus as int := bs[pci.secondaryBus as int].(busDev := Some(pci))]
    else bs
  }

  /** One iteration of foreachpci in the first loop. */
  function CheckDevice(s: Space, wmask: Regs, l: Ledger, pci: Device, allocCap: int): (r: Ledger)
    requires Fits(pci, |l.busses|)
    ensures |r.busses| == |l.busses|
  {
    var bs := Adopt(l.busses, pci);
    CreateAll(l.(busses := bs), Home(bs, Bus(pci)), Requests(BarInfos(s, wmask, pci), pci, 0), allocCap)
  }

  /** The first loop over the device list, in list order. */
  function CheckAll(s: Space, wmask: Regs, l: Ledger, devs: seq<Device>, allocCap: int): (r: Ledger)
    requires DevsFit(devs, |l.busses|)
    ensures |r.busses| == |l.busses|
    decreases |devs|
  {
    if |devs| == 0 || l.failed then l
    else
      assert Fits(devs[0], |l.busses|);
      CheckAll(s, wmask, CheckDevice(s, wmask, l, devs[0], allocCap), devs[1..], allocCap)
  }

  // ---------------------------------------------------------------------
  // Bridge windows (the second loop)
  // ---------------------------------------------------------------------

  /** The capabilities the second loop reads for a bridge: Express, QEMU reservation, and hot-plug support. */
  datatype BridgeCaps = BridgeCaps(pcieCap: bv8, qemuCap: bv8, hotplug: bool)

  /** A little-endian u64 from two configuration dwords. */
  function ReadQ(s: Space, bdf: Bdf, ofs: int): u64
    requires 0 <= ofs <= 0x1000 - 8
  {
    ReadL(s, bdf, ofs) as int + ReadL(s, bdf, ofs + 4) as int * U32
  }

  /**
   * The size a bridge's reservation capability at cap asks for (0: none).
   * All-ones means "no reservation"; for prefetchable memory exactly one of
   * the 32-bit and the 64-bit fields may be set.
   */
  function Hint(s: Space, bdf: Bdf, cap: bv8, t: RegionType): (h: u64) {
    if cap == 0 then 0
    else match t
      case Io =>
        var v := ReadQ(s, bdf, cap as int + RES_RESERVE_IO);
        if v != U64 - 1 then v else 0
      case Mem =>
        var v := ReadL(s, bdf, cap as int + RES_RESERVE_MEM);
        if v != 0xffff_ffff then v as int else 0
      case PrefMem =>
        var v32 := ReadL(s, bdf, cap as int + RES_RESERVE_PREF_MEM_32);
        var v64 := ReadQ(s, bdf, cap as int + RES_RESERVE_PREF_MEM_64);
        if v32 != 0xffff_ffff && v64 == U64 - 1 then v32 as int
        else if v32 == 0xffff_ffff && v64 != U64 - 1 then v64
        else 0
  }

  /** The smallest window of a type. */
  function WindowMin(t: RegionType): u64 {
    if t == Io then PCI_BRIDGE_IO_MIN else PCI_BRIDGE_MEM_MIN
  }

  /** A window's alignment: the type's minimum, or the largest alignment behind it if that is larger. */
  function WindowAlign(t: RegionType, childAlign: u64): (a: u64)
    ensures a >= WindowMin(t) && a >= childAlign
    ensures a == WindowMin(t) || a == childAlign
  {
    if childAlign > WindowMin(t) then childAlign else WindowMin(t)
  }

  /** What the window must hold: the requests behind it, or one alignment unit for an empty hot-plug bus unless the window is optional. */
  function Need(sum: u64, align: u64, hotplug: bool, optional: bool): u64 {
    if sum == 0 && hotplug && !optional then align else sum
  }

  /**
   * A window's size: what it must hold rounded up to the alignment, unless
   * the reservation hint is larger; an I/O hint is taken as it is.
   */
  function WindowSize(t: RegionType, hint: u64, sum: u64, align: u64, hotplug: bool, optional: bool): u64
    requires align > 0
  {
    var need := Need(sum, align, hotplug, optional);
    if hint > need then (if t != Io then AlignUp64(hint, align) else hint)
    else AlignUp64(need, align)
  }

  /** Without wrap-around the window is the least multiple of align holding both what it must and the hint (I/O hints excepted). */
  lemma WindowCovers(t: RegionType, hint: u64, sum: u64, align: u64, hotplug: bool, optional: bool)
    requires align > 0 && sum + align <= U64 && hint + align <= U64 && 2 * align <= U64
    ensures var size := WindowSize(t, hint, sum, align, hotplug, optional);
      var need := Need(sum, align, hotplug, optional);
      size >= need && size >= hint &&
      (t != Io || hint <= need ==> size % align == 0 && size < (if hint > need then hint else need) + align)
  {
    var need := Need(sum, align, hotplug, optional);
    AlignUp64Exact(hint, align);
    AlignUp64Exact(need, align);
  }

  /** An empty bus with hot-plug support gets one alignment unit, so a device plugged in later has room. */
  lemma WindowHotplug(t: RegionType, hint: u64, align: u64, optional: bool)
    requires align > 0 && 2 * align <= U64 && hint <= align && !optional
    ensures WindowSize(t, hint, 0, align, true, optional) == align
  {
    AlignUpExact(align, align);
    AlignUp64Exact(align, align);
  }

  /** An empty bus without hot-plug, or an Express bridge's I/O window, and no hint: the window is empty. */
  lemma WindowEmpty(t: RegionType, align: u64, hotplug: bool, optional: bool)
    requires align > 0 && (!hotplug || optional)
    ensures WindowSize(t, 0, 0, align, hotplug, optional) == 0
  {
    AlignUpExact(0, align);
    AlignUp64Exact(0, align);
  }

  /** A hint larger than the requests wins: as it is for I/O, rounded up for memory. */
  lemma WindowHint(t: RegionType, hint: u64, sum: u64, align: u64, hotplug: bool, optional: bool)
    requires align > 0 && sum > 0 && hint > sum && hint + align <= U64
    ensures t == Io ==> WindowSize(t, hint, sum, align, hotplug, optional) == hint
    ensures t != Io ==> WindowSize(t, hint, sum, align, hotplug, optional) == AlignUp(hint, align)
  {
    AlignUp64Exact(hint, align);
  }

  /** What pci_bridge_has_region leaves in configuration space: 0xff in the probed base byte (nothing for memory). */
  function ProbedWindow(s: Space, wmask: Regs, bdf: Bdf, t: RegionType): Space {
    if t == Mem then s
    else s.(regs := Store(s.regs, wmask, Location(s.mmconfig, bdf, WindowProbeOffset(t), Byte), 1, 0xff))
  }

  /** pci_bridge_has_region's answer, from the space before its write. */
  predicate HasRegion(s: Space, wmask: Regs, bdf: Bdf, t: RegionType) {
    t == Mem || ByteReadback(s, wmask, bdf, WindowProbeOffset(t)) != 0
  }

  /** The window request a bridge files for type t, given the requests behind it. */
  function WindowEntry(s: Space, wmask: Regs, dev: Device, list: seq<Entry>, c: BridgeCaps, t: RegionType): (e: Entry)
    ensures e.dev == dev && e.bar == -1 && e.rtype == t
    ensures e.align >= WindowMin(t) && e.align >= Align(list)
  {
    var align := WindowAlign(t, Align(list));
    var size := WindowSize(t, Hint(s, dev.bdf, c.qemuCap, t), RegionSum(list), align, c.hotplug, c.pcieCap != 0 && t == Io);
    Entry(dev, -1, size, align, BridgeIs64(s, wmask, dev.bdf, t, list), t)
  }

  /** The configuration space and the ledger, as the second loop changes both. */
  datatype Pass = Pass(s: Space, l: Ledger)

  /** One region type for the bridge of bus b, whose windows go to busses[parent]. */
  function BridgeWindow(p: Pass, wmask: Regs, b: nat, parent: nat, c: BridgeCaps, t: RegionType, allocCap: int): (r: Pass)
    requires b < |p.l.busses| && parent < |p.l.busses| && p.l.busses[b].busDev.Some?
    ensures SameBridges(p.l.busses, r.l.busses)
  {
    var dev := p.l.busses[b].busDev.value;
    var s' := ProbedWindow(p.s, wmask, dev.bdf, t);
    if !HasRegion(p.s, wmask, dev.bdf, t) then Pass(s', p.l)
    else Pass(s', Create(p.l, parent, WindowEntry(s', wmask, dev, Reg(p.l.busses[b], t).list, c, t), allocCap))
  }

  /** The region types in the order the loop over PCI_REGION_TYPE_COUNT visits them. */
  const RegionTypes: seq<RegionType> := [Io, Mem, PrefMem]

  /** The region types from the k-th on, stopping at a failed allocation. */
  function BridgeWindows(p: Pass, wmask: Regs, b: nat, parent: nat, c: BridgeCaps, k: nat, allocCap: int): (r: Pass)
    requires b < |p.l.busses| && parent < |p.l.busses| && p.l.busses[b].busDev.Some?
    ensures SameBridges(p.l.busses, r.l.busses)
    decreases |RegionTypes| - k
  {
    if k >= |RegionTypes| then p
    else
      var p1 := BridgeWindow(p, wmask, b, parent, c, RegionTypes[k], allocCap);
      if p1.l.failed then p1 else BridgeWindows(p1, wmask, b, parent, c, k + 1, allocCap)
  }

  /** The capabilities read for the bridge dev from the space s. */
  function CapsOf(s: Space, rescap: map<int, bv8>, dev: Device): BridgeCaps {
    var pcieCap := FindCap(s, dev.bdf, PCI_CAP_ID_EXP, 0);
    BridgeCaps(pcieCap, PciBus.ReserveCap(rescap, dev.bdf), HotplugSupport(s, dev.bdf, pcieCap))
  }

  /** The body of the second loop for secondary bus sb: nothing when no bridge leads to it. */
  function BusStep(p: Pass, wmask: Regs, rescap: map<int, bv8>, sb: nat, allocCap: int): (r: Pass)
    requires sb < |p.l.busses| && BusDevsFit(p.l.busses)
    ensures SameBridges(p.l.busses, r.l.busses) && BusDevsFit(r.l.busses)
  {
    match p.l.busses[sb].busDev
    case None => p
    case Some(dev) => BridgeWindows(p, wmask, sb, Home(p.l.busses, Bus(dev)), CapsOf(p.s, rescap, dev), 0, allocCap)
  }

  /** A loop body over secondary bus numbers, as a value. */
  type Round = (Pass, int) -> Pass

  /** BusStep as a total round: a bus outside the array, or a ledger breaking the bridge invariant, is left alone. */
  function BusRound(wmask: Regs, rescap: map<int, bv8>, allocCap: int): Round {
    (p: Pass, sb: int) => if 0 <= sb < |p.l.busses| && BusDevsFit(p.l.busses) then BusStep(p, wmask, rescap, sb, allocCap) else p
  }

  /** The rounds for secondary busses sb down to 1, stopping at a failed allocation. */
  function Iterate(round: Round, p: Pass, sb: int): Pass
    decreases sb
  {
    if sb <= 0 || p.l.failed then p else Iterate(round, round(p, sb), sb - 1)
  }

  /** The passes the loop goes through from secondary bus sb down: the state before each round, then the final one. */
  function Trace(round: Round, p: Pass, sb: int): (t: seq<Pass>)
    ensures |t| > 0 && t[0] == p && t[|t| - 1] == Iterate(round, p, sb)
    decreases sb
  {
    if sb <= 0 || p.l.failed then [p] else [p] + Trace(round, round(p, sb), sb - 1)
  }

  /** Round i of the trace handles secondary bus sb - i, and the trace ends at bus 0 or at the first failure. */
  lemma {:induction false} TraceAt(round: Round, p: Pass, sb: int, i: nat)
    requires i < |Trace(round, p, sb)|
    ensures var t := Trace(round, p, sb);
      (i < |t| - 1 <==> sb - i > 0 && !t[i].l.failed) &&
      (i < |t| - 1 ==> t[i + 1] == round(t[i], sb - i))
    decreases i
  {
    if sb > 0 && !p.l.failed && i > 0 {
      TraceAt(round, round(p, sb), sb - 1, i - 1);
    }
  }

  /** Round i of the second loop's trace is BusStep for secondary bus sb - i, and the trace ends at bus 0 or at the first failure. */
  lemma TraceStep(wmask: Regs, rescap: map<int, bv8>, allocCap: int, p: Pass, sb: int, i: nat)
    requires i < |Trace(BusRound(wmask, rescap, allocCap), p, sb)|
    ensures var t := Trace(BusRound(wmask, rescap, allocCap), p, sb);
      i < |t| - 1 <==> sb - i > 0 && !t[i].l.failed
    ensures var t := Trace(BusRound(wmask, rescap, allocCap), p, sb);
      i < |t| - 1 && 0 <= sb - i < |t[i].l.busses| && BusDevsFit(t[i].l.busses) ==>
      t[i + 1] == BusStep(t[i], wmask, rescap, sb - i, allocCap)
  {
    TraceAt(BusRound(wmask, rescap, allocCap), p, sb, i);
  }

  /** The loop over the region types as a round: type RegionTypes[3 - sb] for sb = 3, 2, 1. */
  function TypeRound(wmask: Regs, b: nat, parent: nat, c: BridgeCaps, allocCap: int): Round {
    (p: Pass, sb: int) =>
      if 1 <= sb <= 3 && b < |p.l.busses| && parent < |p.l.busses| && p.l.busses[b].busDev.Some? then
        BridgeWindow(p, wmask, b, parent, c, RegionTypes[3 - sb], allocCap)
      else p
  }

  /** The loop over the region types from the k-th on is the rounds of TypeRound. */
  lemma {:induction false} BridgeWindowsIterate(p: Pass, wmask: Regs, b: nat, parent: nat, c: BridgeCaps, k: nat, allocCap: int)
    requires k <= |RegionTypes| && b < |p.l.busses| && parent < |p.l.busses| && p.l.busses[b].busDev.Some? && !p.l.failed
    ensures BridgeWindows(p, wmask, b, parent, c, k, allocCap) == Iterate(TypeRound(wmask, b, parent, c, allocCap), p, 3 - k)
    decreases |RegionTypes| - k
  {
    if k < |RegionTypes| {
      var p1 := BridgeWindow(p, wmask, b, parent, c, RegionTypes[k], allocCap);
      assert TypeRound(wmask, b, parent, c, allocCap)(p, 3 - k) == p1;
      if !p1.l.failed {
        assert p1.l.busses[b].busDev == Bridges(p1.l.busses)[b];
        BridgeWindowsIterate(p1, wmask, b, parent, c, k + 1, allocCap);
      }
    }
  }

  /** Round i of the region-type trace is the window of type RegionTypes[i], and the trace ends after three types or at the first failure. */
  lemma TypeTraceStep(wmask: Regs, b: nat, parent: nat, c: BridgeCaps, allocCap: int, p: Pass, i: nat)
    requires i < |Trace(TypeRound(wmask, b, parent, c, allocCap), p, 3)|
    ensures var t := Trace(TypeRound(wmask, b, parent, c, allocCap), p, 3);
      i < |t| - 1 <==> i < 3 && !t[i].l.failed
    ensures var t := Trace(TypeRound(wmask, b, parent, c, allocCap), p, 3);
      i < |t| - 1 && b < |t[i].l.busses| && parent < |t[i].l.busses| && t[i].l.busses[b].busDev.Some? ==>
      t[i + 1] == BridgeWindow(t[i], wmask, b, parent, c, RegionTypes[i], allocCap)
  {
    TraceAt(TypeRound(wmask, b, parent, c, allocCap), p, 3, i);
  }

  /** The second loop from secondary bus sb down to 1. */
  function Propagate(p: Pass, wmask: Regs, rescap: map<int, bv8>, sb: int, allocCap: int): Pass {
    Iterate(BusRound(wmask, rescap, allocCap), p, sb)
  }

  /** pci_bios_check_devices: the first loop, then the second from MaxPCIBus = |bs0| - 1 down. */
  function CheckDevices(s: Space, wmask: Regs, bs0: seq<BusRegions>, devs: seq<Device>, rescap: map<int, bv8>, allocCap: int): (p: Pass)
    requires |bs0| > 0 && BusDevsFit(bs0) && DevsFit(devs, |bs0|)
  {
    var l := CheckAll(s, wmask, Ledger(bs0, 0, false), devs, allocCap);
    CheckAllBridges(s, wmask, Ledger(bs0, 0, false), devs, allocCap);
    Propagate(Pass(s, l), wmask, rescap, |bs0| - 1, allocCap)
  }

  // ---------------------------------------------------------------------
  // The ledger invariant
  // ---------------------------------------------------------------------

  /** A request names a BAR of its device, or is a window whose secondary bus is in the array. */
  predicate EntryOk(e: Entry, n: int) {
    (e.bar == -1 && e.dev.secondaryBus as int < n) || 0 <= e.bar < PCI_NUM_REGIONS
  }

  /** Every list is sorted, holds requests of its own type only, and every request is well formed. */
  predicate LedgerOk(bs: seq<BusRegions>) {
    forall b, t :: 0 <= b < |bs| ==>
      Sorted(Reg(bs[b], t).list) &&
      forall e :: e in Reg(bs[b], t).list ==> EntryOk(e, |bs|) && e.rtype == t
  }

  lemma CreateOk(l: Ledger, b: nat, e: Entry, allocCap: int)
    requires b < |l.busses| && LedgerOk(l.busses) && EntryOk(e, |l.busses|)
    ensures LedgerOk(Create(l, b, e, allocCap).busses)
  {
    if l.count < allocCap {
      var reg := Reg(l.busses[b], e.rtype);
      InsertSorted(reg.list, e);
      InsertContents(reg.list, e);
      var bs := Create(l, b, e, allocCap).busses;
      forall c, t | 0 <= c < |bs|
        ensures Sorted(Reg(bs[c], t).list)
        ensures forall x :: x in Reg(bs[c], t).list ==> EntryOk(x, |bs|) && x.rtype == t
      {
        if c == b && t == e.rtype {
          forall x | x in Reg(bs[c], t).list
            ensures EntryOk(x, |bs|) && x.rtype == t
          {
            assert x in multiset(Insert(reg.list, e));
          }
        }
      }
    }
  }

  lemma {:induction false} CreateAllOk(l: Ledger, b: nat, es: seq<Entry>, allocCap: int)
    requires b < |l.busses| && LedgerOk(l.busses)
    requires forall k :: 0 <= k < |es| ==> EntryOk(es[k], |l.busses|)
    ensures LedgerOk(CreateAll(l, b, es, allocCap).busses)
    decreases |es|
  {
    if |es| > 0 && !l.failed {
      CreateOk(l, b, es[0], allocCap);
      CreateAllOk(Create(l, b, es[0], allocCap), b, es[1..], allocCap);
    }
  }

  /** The first loop keeps every bus's bridge leading to that bus. */
  lemma {:induction false} CheckAllBridges(s: Space, wmask: Regs, l: Ledger, devs: seq<Device>, allocCap: int)
    requires DevsFit(devs, |l.busses|) && BusDevsFit(l.busses)
    ensures BusDevsFit(CheckAll(s, wmask, l, devs, allocCap).busses)
    decreases |devs|
  {
    if |devs| > 0 && !l.failed {
      assert Fits(devs[0], |l.busses|);
      var l' := CheckDevice(s, wmask, l, devs[0], allocCap);
      CheckDeviceBridges(s, wmask, l, devs[0], allocCap);
      DevsFitTail(devs, |l'.busses|);
      CheckAllBridges(s, wmask, l', devs[1..], allocCap);
    }
  }

  /** One device of the first loop keeps every bus's bridge leading to that bus. */
  lemma CheckDeviceBridges(s: Space, wmask: Regs, l: Ledger, pci: Device, allocCap: int)
    requires Fits(pci, |l.busses|) && BusDevsFit(l.busses)
    ensures BusDevsFit(CheckDevice(s, wmask, l, pci, allocCap).busses)
  {
    var bs := Adopt(l.busses, pci);
    AdoptFits(l.busses, pci);
    var r := CreateAll(l.(busses := bs), Home(bs, Bus(pci)), Requests(BarInfos(s, wmask, pci), pci, 0), allocCap);
    assert r == CheckDevice(s, wmask, l, pci, allocCap);
    assert Bridges(r.busses) == Bridges(bs);
  }

  /** Adopting a bridge for its secondary bus keeps every bus's bridge leading to that bus. */
  lemma AdoptFits(bs: seq<BusRegions>, pci: Device)
    requires Fits(pci, |bs|) && BusDevsFit(bs)
    ensures BusDevsFit(Adopt(bs, pci))
  {
    var ds := Bridges(Adopt(bs, pci));
    forall b | 0 <= b < |ds| && ds[b].Some?
      ensures ds[b].value.secondaryBus as int == b && 0 <= Bus(ds[b].value) < |ds|
    {
      if pci.classCode == PciBus.PCI_CLASS_BRIDGE_PCI && b == pci.secondaryBus as int {
        assert ds[b] == Some(pci);
      } else {
        assert ds[b] == Bridges(bs)[b];
      }
    }
  }

  /** The devices after the first still fit. */
  lemma DevsFitTail(devs: seq<Device>, n: int)
    requires |devs| > 0 && DevsFit(devs, n)
    ensures DevsFit(devs[1..], n)
  {
    forall i | 0 <= i < |devs| - 1 ensures Fits(devs[1..][i], n) {
      assert devs[1..][i] == devs[i + 1];
    }
  }

  lemma CheckDeviceOk(s: Space, wmask: Regs, l: Ledger, pci: Device, allocCap: int)
    requires Fits(pci, |l.busses|) && LedgerOk(l.busses)
    ensures LedgerOk(CheckDevice(s, wmask, l, pci, allocCap).busses)
  {
    var bs := Adopt(l.busses, pci);
    assert LedgerOk(bs) by {
      forall b, t | 0 <= b < |bs| ensures Reg(bs[b], t) == Reg(l.busses[b], t) {}
    }
    var bars := BarInfos(s, wmask, pci);
    var es := Requests(bars, pci, 0);
    RequestsWellFormed(bars, pci, 0);
    forall k | 0 <= k < |es|
      ensures EntryOk(es[k], |bs|)
    {
      assert RequestOf(bars, pci, es[k]);
    }
    CreateAllOk(l.(busses := bs), Home(bs, Bus(pci)), es, allocCap);
  }

  lemma {:induction false} CheckAllOk(s: Space, wmask: Regs, l: Ledger, devs: seq<Device>, allocCap: int)
    requires DevsFit(devs, |l.busses|) && LedgerOk(l.busses)
    ensures LedgerOk(CheckAll(s, wmask, l, devs, allocCap).busses)
    decreases |devs|
  {
    if |devs| > 0 && !l.failed {
      assert Fits(devs[0], |l.busses|);
      CheckDeviceOk(s, wmask, l, devs[0], allocCap);
      var l' := CheckDevice(s, wmask, l, devs[0], allocCap);
      assert DevsFit(devs[1..], |l'.busses|) by {
        forall i | 0 <= i < |devs| - 1 ensures Fits(devs[1..][i], |l'.busses|) {
          assert devs[1..][i] == devs[i + 1];
        }
      }
      CheckAllOk(s, wmask, l', devs[1..], allocCap);
    }
  }

  lemma {:induction false} BridgeWindowsOk(p: Pass, wmask: Regs, b: nat, parent: nat, c: BridgeCaps, k: nat, allocCap: int)
    requires b < |p.l.busses| && parent < |p.l.busses| && p.l.busses[b].busDev.Some?
    requires BusDevsFit(p.l.busses) && LedgerOk(p.l.busses)
    ensures LedgerOk(BridgeWindows(p, wmask, b, parent, c, k, allocCap).l.busses)
    decreases |RegionTypes| - k
  {
    if k < |RegionTypes| {
      var p1 := BridgeWindow(p, wmask, b, parent, c, RegionTypes[k], allocCap);
      WindowOk(p, wmask, b, parent, c, RegionTypes[k], allocCap);
      if !p1.l.failed {
        BridgeWindowsOk(p1, wmask, b, parent, c, k + 1, allocCap);
      }
    }
  }

  lemma WindowOk(p: Pass, wmask: Regs, b: nat, parent: nat, c: BridgeCaps, t: RegionType, allocCap: int)
    requires b < |p.l.busses| && parent < |p.l.busses| && p.l.busses[b].busDev.Some?
    requires BusDevsFit(p.l.busses) && LedgerOk(p.l.busses)
    ensures var r := BridgeWindow(p, wmask, b, parent, c, t, allocCap);
      LedgerOk(r.l.busses) && BusDevsFit(r.l.busses)
  {
    var dev := p.l.busses[b].busDev.value;
    assert dev.secondaryBus as int == b;
    var s' := ProbedWindow(p.s, wmask, dev.bdf, t);
    if HasRegion(p.s, wmask, dev.bdf, t) {
      var e := WindowEntry(s', wmask, dev, Reg(p.l.busses[b], t).list, c, t);
      assert EntryOk(e, |p.l.busses|);
      CreateOk(p.l, parent, e, allocCap);
    }
  }

  lemma BusStepOk(p: Pass, wmask: Regs, rescap: map<int, bv8>, sb: nat, allocCap: int)
    requires sb < |p.l.busses| && BusDevsFit(p.l.busses) && LedgerOk(p.l.busses)
    ensures LedgerOk(BusStep(p, wmask, rescap, sb, allocCap).l.busses)
  {
    if p.l.busses[sb].busDev.Some? {
      var dev := p.l.busses[sb].busDev.value;
      BridgeWindowsOk(p, wmask, sb, Home(p.l.busses, Bus(dev)), CapsOf(p.s, rescap, dev), 0, allocCap);
    }
  }

  lemma {:induction false} PropagateOk(p: Pass, wmask: Regs, rescap: map<int, bv8>, sb: int, allocCap: int)
    requires sb < |p.l.busses| && BusDevsFit(p.l.busses) && LedgerOk(p.l.busses)
    ensures var r := Propagate(p, wmask, rescap, sb, allocCap);
      LedgerOk(r.l.busses) && SameBridges(p.l.busses, r.l.busses) && BusDevsFit(r.l.busses)
    decreases sb
  {
    if sb > 0 && !p.l.failed {
      BusStepOk(p, wmask, rescap, sb, allocCap);
      PropagateOk(BusStep(p, wmask, rescap, sb, allocCap), wmask, rescap, sb - 1, allocCap);
    }
  }

  /** After the sizing pass every ledger is sorted and well formed, whether or not it failed. */
  lemma CheckDevicesOk(s: Space, wmask: Regs, bs0: seq<BusRegions>, devs: seq<Device>, rescap: map<int, bv8>, allocCap: int)
    requires |bs0| > 0 && BusDevsFit(bs0) && DevsFit(devs, |bs0|) && LedgerOk(bs0)
    ensures LedgerOk(CheckDevices(s, wmask, bs0, devs, rescap, allocCap).l.busses)
    ensures BusDevsFit(CheckDevices(s, wmask, bs0, devs, rescap, allocCap).l.busses)
  {
    var l := CheckAll(s, wmask, Ledger(bs0, 0, false), devs, allocCap);
    CheckAllOk(s, wmask, Ledger(bs0, 0, false), devs, allocCap);
    CheckAllBridges(s, wmask, Ledger(bs0, 0, false), devs, allocCap);
    PropagateOk(Pass(s, l), wmask, rescap, |bs0| - 1, allocCap);
    assert CheckDevices(s, wmask, bs0, devs, rescap, allocCap) == Propagate(Pass(s, l), wmask, rescap, |bs0| - 1, allocCap);
  }

  // ---------------------------------------------------------------------
  // The firmware's loops
  // ---------------------------------------------------------------------

  /** pci_region_create_entry on busses[b]: false when malloc_tmp fails. */
  method CreateEntry(busses: array<BusRegions>, b: int, e: Entry, count: nat, allocCap: int) returns (ok: bool, count': nat)
    requires 0 <= b < busses.Length
    modifies busses
    ensures var r := Create(Ledger(old(busses[..]), count, false), b, e, allocCap);
      busses[..] == r.busses && count' == r.count && ok == !r.failed
  {
    if count >= allocCap {
      return false, count;
    }
    var bus := busses[b];
    var reg := Reg(bus, e.rtype);
    var l := InsertEntry(reg.list, e);
    busses[b] := WithReg(bus, e.rtype, reg.(list := l));
    ok, count' := true, count + 1;
  }

  /** Filing a request in front of others: one Create, then the rest. */
  lemma CreateAllCons(l: Ledger, b: nat, e: Entry, rest: seq<Entry>, allocCap: int)
    requires b < |l.busses| && !l.failed
    ensures CreateAll(l, b, [e] + rest, allocCap) == CreateAll(Create(l, b, e, allocCap), b, rest, allocCap)
  {
    assert ([e] + rest)[0] == e && ([e] + rest)[1..] == rest;
  }

  /** CreateEntry for the first of a run of requests. */
  method FileRequest(busses: array<BusRegions>, b: int, e: Entry, count: nat, allocCap: int, ghost rest: seq<Entry>)
    returns (ok: bool, count': nat)
    requires 0 <= b < busses.Length
    modifies busses
    ensures var goal := CreateAll(Ledger(old(busses[..]), count, false), b, [e] + rest, allocCap);
      if ok then CreateAll(Ledger(busses[..], count', false), b, rest, allocCap) == goal
      else Ledger(busses[..], count', true) == goal
  {
    CreateAllCons(Ledger(busses[..], count, false), b, e, rest, allocCap);
    ok, count' := CreateEntry(busses, b, e, count, allocCap);
  }

  /** pci_bios_get_bar for slot i: the slot's entry of BarInfos, with configuration space restored. */
  method ProbeSlot(cfg: ConfigSpace, pci: Device, i: int, ghost bars: seq<BarInfo>) returns (info: BarInfo)
    requires 0 <= i < PCI_NUM_REGIONS && bars == BarInfos(cfg.State(), cfg.wmask, pci)
    modifies cfg
    ensures cfg.regs == old(cfg.regs) && cfg.mmconfig == old(cfg.mmconfig)
    ensures info == bars[i]
  {
    info := GetBar(cfg, pci, i);
  }

  /** One slot of the BAR loop: the next slot to look at, and the requests filed on the way. */
  method RequestSlot(cfg: ConfigSpace, busses: array<BusRegions>, pci: Device, b: int, i: int, count: nat, allocCap: int,
                     ghost bars: seq<BarInfo>)
    returns (ok: bool, count': nat, next: int)
    requires 0 <= b < busses.Length && 0 <= i < PCI_NUM_REGIONS
    requires bars == BarInfos(cfg.State(), cfg.wmask, pci)
    modifies cfg, busses
    ensures cfg.regs == old(cfg.regs) && cfg.mmconfig == old(cfg.mmconfig)
    ensures i < next <= i + 2
    ensures var goal := CreateAll(Ledger(old(busses[..]), count, false), b, Requests(bars, pci, i), allocCap);
      if ok then CreateAll(Ledger(busses[..], count', false), b, Requests(bars, pci, next), allocCap) == goal
      else Ledger(busses[..], count', true) == goal
  {
    count' := count;
    if pci.classCode == PciBus.PCI_CLASS_BRIDGE_PCI && PCI_BRIDGE_NUM_REGIONS <= i < PCI_ROM_SLOT {
      return true, count, i + 1;
    }
    var info := ProbeSlot(cfg, pci, i, bars);
    var size := SizeOf64(info);
    if size == 0 {
      return true, count, i + 1;
    }
    if info.rtype != Io && size < PCI_DEVICE_MEM_MIN {
      size := PCI_DEVICE_MEM_MIN;
    }
    next := if info.is64 then i + 2 else i + 1;
    var e := Entry(pci, i, size, size, info.is64, info.rtype);
    assert e == SlotRequest(bars, pci, i);
    RequestsHead(bars, pci, i);
    ok, count' := FileRequest(busses, b, e, count, allocCap, Requests(bars, pci, next));
  }

  /** The BAR loop of the first loop, for one device whose requests go to busses[b]. */
  method DeviceRequests(cfg: ConfigSpace, busses: array<BusRegions>, pci: Device, b: int, count: nat, allocCap: int)
    returns (ok: bool, count': nat)
    requires 0 <= b < busses.Length
    modifies cfg, busses
    ensures cfg.regs == old(cfg.regs) && cfg.mmconfig == old(cfg.mmconfig)
    ensures var r := CreateAll(Ledger(old(busses[..]), count, false), b, Requests(BarInfos(old(cfg.State()), cfg.wmask, pci), pci, 0), allocCap);
      busses[..] == r.busses && count' == r.count && ok == !r.failed
  {
    ghost var bars := BarInfos(cfg.State(), cfg.wmask, pci);
    ghost var goal := CreateAll(Ledger(busses[..], count, false), b, Requests(bars, pci, 0), allocCap);
    count' := count;
    var i := 0;
    while i < PCI_NUM_REGIONS
      invariant 0 <= i <= PCI_NUM_REGIONS + 1
      invariant cfg.regs == old(cfg.regs) && cfg.mmconfig == old(cfg.mmconfig)
      invariant CreateAll(Ledger(busses[..], count', false), b, Requests(bars, pci, i), allocCap) == goal
      decreases PCI_NUM_REGIONS + 1 - i
    {
      ok, count', i := RequestSlot(cfg, busses, pci, b, i, count', allocCap, bars);
      if !ok {
        return;
      }
    }
    ok := true;
  }

  /** One iteration of foreachpci in the first loop. */
  method DeviceStep(cfg: ConfigSpace, busses: array<BusRegions>, pci: Device, count: nat, allocCap: int) returns (ok: bool, count': nat)
    requires Fits(pci, busses.Length)
    modifies cfg, busses
    ensures cfg.regs == old(cfg.regs) && cfg.mmconfig == old(cfg.mmconfig)
    ensures var r := CheckDevice(old(cfg.State()), cfg.wmask, Ledger(old(busses[..]), count, false), pci, allocCap);
      busses[..] == r.busses && count' == r.count && ok == !r.failed
  {
    if pci.classCode == PciBus.PCI_CLASS_BRIDGE_PCI {
      busses[pci.secondaryBus as int] := busses[pci.secondaryBus as int].(busDev := Some(pci));
    }
    assert busses[..] == Adopt(old(busses[..]), pci);
    var b := Bus(pci);
    if busses[b].busDev.None? {
      b := 0;
    }
    ok, count' := DeviceRequests(cfg, busses, pci, b, count, allocCap);
  }

  /** The first loop of pci_bios_check_devices, over the device list. */
  method DeviceLoop(cfg: ConfigSpace, busses: array<BusRegions>, devs: seq<Device>, allocCap: int) returns (ok: bool, count: nat)
    requires DevsFit(devs, busses.Length)
    modifies cfg, busses
    ensures cfg.regs == old(cfg.regs) && cfg.mmconfig == old(cfg.mmconfig)
    ensures var r := CheckAll(old(cfg.State()), cfg.wmask, Ledger(old(busses[..]), 0, false), devs, allocCap);
      busses[..] == r.busses && count == r.count && ok == !r.failed
  {
    ghost var s := cfg.State();
    ghost var goal := CheckAll(s, cfg.wmask, Ledger(busses[..], 0, false), devs, allocCap);
    count := 0;
    var k := 0;
    while k < |devs|
      invariant 0 <= k <= |devs|
      invariant cfg.regs == s.regs && cfg.mmconfig == s.mmconfig
      invariant CheckAll(s, cfg.wmask, Ledger(busses[..], count, false), devs[k..], allocCap) == goal
    {
      assert devs[k..][0] == devs[k] && devs[k..][1..] == devs[k + 1..];
      assert Fits(devs[k], busses.Length);
      ok, count := DeviceStep(cfg, busses, devs[k], count, allocCap);
      if !ok {
        return;
      }
      k := k + 1;
    }
    ok := true;
  }

  /** The window request for type t of the bridge dev, with the requests behind it in list. */
  method WindowRequest(cfg: ConfigSpace, dev: Device, list: seq<Entry>, c: BridgeCaps, t: RegionType) returns (e: Entry)
    modifies cfg
    ensures cfg.regs == old(cfg.regs) && cfg.mmconfig == old(cfg.mmconfig)
    ensures e == WindowEntry(old(cfg.State()), cfg.wmask, dev, list, c, t)
  {
    var hint := Hint(cfg.State(), dev.bdf, c.qemuCap, t);
    var size, align := WindowSizing(t, hint, list, c.hotplug, c.pcieCap != 0 && t == Io);
    var is64 := BridgeRegionIs64(cfg, dev, t, list);
    e := Entry(dev, -1, size, align, is64, t);
  }

  /** The window arithmetic of the second loop. */
  method WindowSizing(t: RegionType, hint: u64, list: seq<Entry>, hotplug: bool, optional: bool) returns (size: u64, align: u64)
    ensures align == WindowAlign(t, Align(list))
    ensures size == WindowSize(t, hint, RegionSum(list), align, hotplug, optional)
  {
    align := WindowMin(t);
    size := hint;
    if Align(list) > align {
      align := Align(list);
    }
    var sum := Sum(list);
    if sum == 0 && hotplug && !optional {
      sum := align;
    }
    if size > sum {
      if t != Io {
        size := AlignUp64(size, align);
      }
    } else {
      size := AlignUp64(sum, align);
    }
  }

  /** One region type of the second loop's body, for the bridge of bus b. */
  method Window(cfg: ConfigSpace, busses: array<BusRegions>, b: int, parent: int, c: BridgeCaps, t: RegionType, count: nat, allocCap: int)
    returns (ok: bool, count': nat)
    requires 0 <= b < busses.Length && 0 <= parent < busses.Length && busses[b].busDev.Some?
    modifies cfg, busses
    ensures var r := BridgeWindow(Pass(old(cfg.State()), Ledger(old(busses[..]), count, false)), cfg.wmask, b, parent, c, t, allocCap);
      cfg.State() == r.s && busses[..] == r.l.busses && count' == r.l.count && ok == !r.l.failed
  {
    var dev := busses[b].busDev.value;
    var has := BridgeHasRegion(cfg, dev, t);
    assert cfg.State() == ProbedWindow(old(cfg.State()), cfg.wmask, dev.bdf, t);
    if !has {
      return true, count;
    }
    var e := WindowRequest(cfg, dev, Reg(busses[b], t).list, c, t);
    ok, count' := CreateEntry(busses, parent, e, count, allocCap);
  }

  /** One turn of the loop over the region types, moving the state from trace[k] to trace[k + 1]. */
  method WindowsStep(cfg: ConfigSpace, busses: array<BusRegions>, b: int, parent: int, c: BridgeCaps, k: nat,
                     count: nat, allocCap: int, ghost p0: Pass, ghost trace: seq<Pass>)
    returns (ok: bool, count': nat)
    requires k < |RegionTypes| && 0 <= b < busses.Length && 0 <= parent < busses.Length && busses[b].busDev.Some?
    requires trace == Trace(TypeRound(cfg.wmask, b, parent, c, allocCap), p0, 3)
    requires k < |trace| && trace[k] == Pass(cfg.State(), Ledger(busses[..], count, false))
    modifies cfg, busses
    ensures k + 1 < |trace| && trace[k + 1] == Pass(cfg.State(), Ledger(busses[..], count', !ok))
    ensures k + 1 == |trace| - 1 <==> !ok || k == 2
    ensures busses[b].busDev.Some?
  {
    TypeTraceStep(cfg.wmask, b, parent, c, allocCap, p0, k);
    ok, count' := Window(cfg, busses, b, parent, c, RegionTypes[k], count, allocCap);
    TypeTraceStep(cfg.wmask, b, parent, c, allocCap, p0, k + 1);
    assert Bridges(busses[..]) == Bridges(trace[k].l.busses);
    assert busses[b].busDev == Bridges(busses[..])[b];
  }

  /** The body of the second loop for the bridge of bus b: the region types in order. */
  method Windows(cfg: ConfigSpace, busses: array<BusRegions>, b: int, parent: int, c: BridgeCaps, count: nat, allocCap: int)
    returns (ok: bool, count': nat)
    requires 0 <= b < busses.Length && 0 <= parent < busses.Length && busses[b].busDev.Some?
    modifies cfg, busses
    ensures var r := BridgeWindows(Pass(old(cfg.State()), Ledger(old(busses[..]), count, false)), cfg.wmask, b, parent, c, 0, allocCap);
      cfg.State() == r.s && busses[..] == r.l.busses && count' == r.l.count && ok == !r.l.failed
  {
    ghost var p0 := Pass(cfg.State(), Ledger(busses[..], count, false));
    ghost var trace := Trace(TypeRound(cfg.wmask, b, parent, c, allocCap), p0, 3);
    BridgeWindowsIterate(p0, cfg.wmask, b, parent, c, 0, allocCap);
    count' := count;
    var k := 0;
    while k < |RegionTypes|
      invariant 0 <= k <= |RegionTypes| && busses[b].busDev.Some?
      invariant k < |trace| && trace[k] == Pass(cfg.State(), Ledger(busses[..], count', false))
      invariant k == 3 ==> k == |trace| - 1
    {
      ok, count' := WindowsStep(cfg, busses, b, parent, c, k, count', allocCap, p0, trace);
      if !ok {
        return;
      }
      k := k + 1;
    }
    ok := true;
  }

  /** One iteration of the second loop. */
  method BusWindows(cfg: ConfigSpace, busses: array<BusRegions>, rescap: map<int, bv8>, sb: int, count: nat, allocCap: int, ghost p: Pass)
    returns (ok: bool, count': nat)
    requires 0 <= sb < busses.Length && BusDevsFit(busses[..])
    requires p == Pass(cfg.State(), Ledger(busses[..], count, false))
    modifies cfg, busses
    ensures var r := BusStep(p, cfg.wmask, rescap, sb, allocCap);
      cfg.State() == r.s && busses[..] == r.l.busses && count' == r.l.count && ok == !r.l.failed
  {
    if busses[sb].busDev.None? {
      return true, count;
    }
    var dev := busses[sb].busDev.value;
    var parent := Bus(dev);
    if busses[parent].busDev.None? {
      parent := 0;
    }
    var pcieCap := cfg.FindCapability(dev.bdf, PCI_CAP_ID_EXP, 0);
    var qemuCap := PciBus.ReserveCap(rescap, dev.bdf);
    var hotplug := HotplugSupport(cfg.State(), dev.bdf, pcieCap);
    ok, count' := Windows(cfg, busses, sb, parent, BridgeCaps(pcieCap, qemuCap, hotplug), count, allocCap);
  }

  /** Round i of the second loop, for secondary bus sb, moving the state from trace[i] to trace[i + 1]. */
  method BridgeRound(cfg: ConfigSpace, busses: array<BusRegions>, rescap: map<int, bv8>, sb: int, count: nat, allocCap: int,
                     ghost p0: Pass, ghost trace: seq<Pass>, ghost i: nat)
    returns (ok: bool, count': nat)
    requires 0 < sb < busses.Length && i + sb == busses.Length - 1
    requires trace == Trace(BusRound(cfg.wmask, rescap, allocCap), p0, busses.Length - 1)
    requires i < |trace| && trace[i] == Pass(cfg.State(), Ledger(busses[..], count, false))
    requires BusDevsFit(busses[..])
    modifies cfg, busses
    ensures i + 1 < |trace| && trace[i + 1] == Pass(cfg.State(), Ledger(busses[..], count', !ok))
    ensures i + 1 == |trace| - 1 <==> !ok || sb == 1
    ensures BusDevsFit(busses[..])
  {
    TraceStep(cfg.wmask, rescap, allocCap, p0, busses.Length - 1, i);
    ok, count' := BusWindows(cfg, busses, rescap, sb, count, allocCap, trace[i]);
    TraceStep(cfg.wmask, rescap, allocCap, p0, busses.Length - 1, i + 1);
  }

  /** The second loop of pci_bios_check_devices, from MaxPCIBus down to bus 1. */
  method BridgeLoop(cfg: ConfigSpace, busses: array<BusRegions>, rescap: map<int, bv8>, count: nat, allocCap: int)
    returns (ok: bool, count': nat)
    requires busses.Length > 0 && BusDevsFit(busses[..])
    modifies cfg, busses
    ensures var r := Propagate(Pass(old(cfg.State()), Ledger(old(busses[..]), count, false)), cfg.wmask, rescap, busses.Length - 1, allocCap);
      cfg.State() == r.s && busses[..] == r.l.busses && count' == r.l.count && ok == !r.l.failed
  {
    ghost var p0 := Pass(cfg.State(), Ledger(busses[..], count, false));
    ghost var trace := Trace(BusRound(cfg.wmask, rescap, allocCap), p0, busses.Length - 1);
    ghost var i := 0;
    count' := count;
    var sb := busses.Length - 1;
    if sb == 0 {
      return true, count;
    }
    while sb > 0
      invariant 0 < sb < busses.Length && BusDevsFit(busses[..])
      invariant i + sb == busses.Length - 1 && i < |trace| && trace[i] == Pass(cfg.State(), Ledger(busses[..], count', false))
    {
      ok, count' := BridgeRound(cfg, busses, rescap, sb, count', allocCap, p0, trace, i);
      i := i + 1;
      if !ok || sb == 1 {
        return;
      }
      sb := sb - 1;
    }
  }

  /** pci_bios_check_devices: 0 when every request was filed, -1 when an allocation failed. */
  method BiosCheckDevices(cfg: ConfigSpace, busses: array<BusRegions>, devs: seq<Device>, rescap: map<int, bv8>, allocCap: int)
    returns (ret: int)
    requires busses.Length > 0 && BusDevsFit(busses[..]) && DevsFit(devs, busses.Length)
    modifies cfg, busses
    ensures var p := CheckDevices(old(cfg.State()), cfg.wmask, old(busses[..]), devs, rescap, allocCap);
      cfg.State() == p.s && busses[..] == p.l.busses && (ret == 0 <==> !p.l.failed) && (ret == 0 || ret == -1)
  {
    ghost var s := cfg.State();
    ghost var bs0 := busses[..];
    var ok, count := DeviceLoop(cfg, busses, devs, allocCap);
    if !ok {
      return -1;
    }
    CheckAllBridges(s, cfg.wmask, Ledger(bs0, 0, false), devs, allocCap);
    assert cfg.State() == s;
    ok, count := BridgeLoop(cfg, busses, rescap, count, allocCap);
    ret := if ok then 0 else -1;
  }
}
