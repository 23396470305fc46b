/**
 * pci_probe_devices (src/hw/pcidevice.c) as a function of configuration
 * space, and the facts about the list it builds: every function foreachbdf
 * visits on the scanned buses once, in ascending order, with parents, root buses
 * and MaxPCIBus consistent.
 */
module PciProbe {
  import opened Bits
  import opened Wrappers
  import opened PciConfig
  import opened PciDevice
  // ---------------------------------------------------------------------
  // pci_probe_devices, as a function of configuration space
  // ---------------------------------------------------------------------

  /** Device d is a bridge that becomes the parent of the devices on bus b. */
  predicate Feeds(d: Device, b: int) {
    IsBridgeHeader(d.headerType) && d.secondaryBus as int == b && b > Bus(d)
  }

  /** The first device of the list that feeds bus b: what busdevs[b] holds. */
  function FirstFeeder(devs: seq<Device>, b: int): (r: Option<nat>)
    ensures r.Some? ==> r.value < |devs| && Feeds(devs[r.value], b)
    ensures r.Some? ==> forall k :: 0 <= k < r.value ==> !Feeds(devs[k], b)
    ensures r.None? ==> forall k :: 0 <= k < |devs| ==> !Feeds(devs[k], b)
    decreases |devs|
  {
    if |devs| == 0 then None
    else
      var f := FirstFeeder(devs[..|devs| - 1], b);
      if f.Some? then f
      else if Feeds(devs[|devs| - 1], b) then Some(|devs| - 1)
      else None
  }

  /** The locals of pci_probe_devices (and the global MaxPCIBus) between two steps. */
  datatype ProbeState = ProbeState(
    devs: seq<Device>,
    busdevs: seq<Option<nat>>,
    lastbus: int,
    rootbuses: int,
    maxBus: int,
    bus: int,
    failed: bool)

  predicate Shape(p: ProbeState) {
    |p.busdevs| == 256 && -1 <= p.bus <= 0xff &&
    forall b :: 0 <= b < 256 && p.busdevs[b].Some? ==> p.busdevs[b].value < |p.devs|
  }

  function ProbeInit(maxBus: int): (p: ProbeState)
    ensures Shape(p)
  {
    ProbeState([], seq(256, _ => None), 0, 0, maxBus, -1, false)
  }

  /**
   * The parent lookup for a device on bus p.bus: busdevs[bus] is its parent;
   * without one it starts (or continues) a root bus. Yields the new
   * (rootbuses, lastbus, MaxPCIBus) and the device's rootbus.
   */
  function Adopt(p: ProbeState): (int, int, int, int)
    requires Shape(p) && 0 <= p.bus
  {
    var parent := p.busdevs[p.bus];
    if parent.Some? then (p.rootbuses, p.lastbus, p.maxBus, p.devs[parent.value].rootbus)
    else
      var rootbuses := if p.bus != p.lastbus then p.rootbuses + 1 else p.rootbuses;
      (rootbuses, p.bus, if p.bus > p.maxBus then p.bus else p.maxBus, rootbuses)
  }

  /**
   * The bridge bookkeeping for device number idx on `bus`: a bridge claims
   * busdevs[secbus] if that bus lies below it and is still unclaimed, and
   * raises MaxPCIBus to its secondary bus. Yields (busdevs, MaxPCIBus).
   */
  function Record(busdevs: seq<Option<nat>>, maxBus: int, bus: int, idx: nat, bridge: bool, secbus: bv8): (r: (seq<Option<nat>>, int))
    requires |busdevs| == 256
    ensures |r.0| == 256 && r.1 >= maxBus
    ensures forall b :: 0 <= b < 256 ==> r.0[b] == busdevs[b] || r.0[b] == Some(idx)
  {
    if !bridge then (busdevs, maxBus)
    else
      var bd := if secbus as int > bus && busdevs[secbus].None? then busdevs[secbus as int := Some(idx)] else busdevs;
      (bd, if secbus as int > maxBus then secbus as int else maxBus)
  }

  /** The device record filled in from configuration space. */
  function ReadDevice(s: Space, bdf: Bdf, rootbus: int, parent: Option<nat>): (d: Device)
    ensures d.bdf == bdf && d.rootbus == rootbus && d.parent == parent && !d.haveDriver
    ensures d.headerType == ReadB(s, bdf, PCI_HEADER_TYPE)
    ensures IsBridgeHeader(d.headerType) ==> d.secondaryBus == ReadB(s, bdf, PCI_SECONDARY_BUS)
    ensures !IsBridgeHeader(d.headerType) ==> d.secondaryBus == 0
  {
    var vendev := ReadL(s, bdf, PCI_VENDOR_ID);
    var classrev := ReadL(s, bdf, PCI_CLASS_REVISION);
    var ht := ReadB(s, bdf, PCI_HEADER_TYPE);
    var secbus: bv8 := if IsBridgeHeader(ht) then ReadB(s, bdf, PCI_SECONDARY_BUS) else 0;
    Device(bdf, rootbus, parent, Lo16(vendev), Hi16(vendev), Hi16(classrev),
           ByteOf(classrev, 1), ByteOf(classrev, 0), ht, secbus, false)
  }

  /** One iteration of the foreachbdf body for function bdf of bus p.bus. */
  function Step(s: Space, p: ProbeState, bdf: Bdf, allocCap: int): (r: ProbeState)
    requires Shape(p) && 0 <= p.bus
    ensures Shape(r) && r.bus == p.bus
  {
    if |p.devs| >= allocCap then p.(failed := true)
    else
      var (rootbuses, lastbus, maxBus, rootbus) := Adopt(p);
      var dev := ReadDevice(s, bdf, rootbus, p.busdevs[p.bus]);
      var (busdevs, maxBus') := Record(p.busdevs, maxBus, p.bus, |p.devs|, IsBridgeHeader(dev.headerType), dev.secondaryBus);
      ProbeState(p.devs + [dev], busdevs, lastbus, rootbuses, maxBus', p.bus, false)
  }

  /** The foreachbdf loop over the functions fs of bus p.bus. */
  function ScanList(s: Space, p: ProbeState, fs: seq<int>, allocCap: int): (r: ProbeState)
    requires Shape(p) && 0 <= p.bus
    requires forall i :: 0 <= i < |fs| ==> 0 <= fs[i] < 0x1_0000
    ensures Shape(r) && r.bus == p.bus
    decreases |fs|
  {
    if p.failed || |fs| == 0 then p
    else ScanList(s, Step(s, p, fs[0], allocCap), fs[1..], allocCap)
  }

  /** The outer loop over bus numbers, p.bus being the bus scanned last. */
  function ProbeLoop(s: Space, p: ProbeState, extraroots: int, allocCap: int): (r: ProbeState)
    requires Shape(p)
    ensures Shape(r)
    decreases 0xff - p.bus
  {
    if p.failed || !(p.bus < 0xff && (p.bus < p.maxBus || p.rootbuses < extraroots)) then p
    else
      var b := p.bus + 1;
      ProbeLoop(s, ScanList(s, p.(bus := b), BusFunctions(s, b), allocCap), extraroots, allocCap)
  }

  /** One turn of the bus loop: scan the next bus, or stop with the state as it stands. */
  lemma ProbeLoopStep(s: Space, p: ProbeState, extraroots: int, allocCap: int)
    requires Shape(p)
    ensures !p.failed && p.bus < 0xff && (p.bus < p.maxBus || p.rootbuses < extraroots) ==>
      ProbeLoop(s, p, extraroots, allocCap)
      == ProbeLoop(s, ScanList(s, p.(bus := p.bus + 1), BusFunctions(s, p.bus + 1), allocCap), extraroots, allocCap)
    ensures p.failed || !(p.bus < 0xff && (p.bus < p.maxBus || p.rootbuses < extraroots)) ==>
      ProbeLoop(s, p, extraroots, allocCap) == p
  {
  }

  /**
   * The outcome of pci_probe_devices with MaxPCIBus initially maxBus,
   * extraroots read from "etc/extra-pci-roots", and a heap from which
   * malloc_tmp can satisfy allocCap device allocations.
   */
  function Probe(s: Space, maxBus: int, extraroots: int, allocCap: int): (r: ProbeState)
    ensures Shape(r)
  {
    ProbeLoop(s, ProbeInit(maxBus), extraroots, allocCap)
  }

  /** The functions foreachbdf has yet to visit once it stands at bdf (-1: done). */
  function Rest(s: Space, bus: int, bdf: int): seq<int>
    requires 0 <= bus < 256 && (bdf == -1 || bus * 256 - 1 <= bdf < bus * 256 + 256)
  {
    if bdf < 0 then [] else [bdf] + EnumFrom(s, bus, bdf)
  }

  /** One turn of the foreachbdf loop, and its outcome when allocation fails or succeeds. */
  lemma ScanListStep(s: Space, p: ProbeState, bdf: int, allocCap: int)
    requires Shape(p) && 0 <= p.bus && !p.failed && p.bus * 256 <= bdf < p.bus * 256 + 256
    ensures ScanList(s, p, Rest(s, p.bus, bdf), allocCap)
            == ScanList(s, Step(s, p, bdf, allocCap), Rest(s, p.bus, NextBdf(s, bdf, p.bus)), allocCap)
    ensures |p.devs| >= allocCap ==> ScanList(s, p, Rest(s, p.bus, bdf), allocCap) == p.(failed := true)
    ensures |p.devs| < allocCap ==> Step(s, p, bdf, allocCap) == Step(s, p, bdf, |p.devs| + 1)
  {
    assert Rest(s, p.bus, bdf) == [bdf] + Rest(s, p.bus, NextBdf(s, bdf, p.bus));
  }

  // ---------------------------------------------------------------------
  // What pci_probe_devices establishes
  // ---------------------------------------------------------------------

  /** The bdf of every listed device, in list order. */
  function Bdfs(devs: seq<Device>): (r: seq<int>)
    ensures |r| == |devs| && forall i :: 0 <= i < |devs| ==> r[i] == devs[i].bdf
  {
    seq(|devs|, i requires 0 <= i < |devs| => devs[i].bdf)
  }

  /** The functions foreachbdf visits on buses 0 .. n-1, bus by bus. */
  function Scanned(s: Space, n: int): seq<int>
    requires 0 <= n <= 256
    decreases n
  {
    if n == 0 then [] else Scanned(s, n - 1) + BusFunctions(s, n - 1)
  }

  /** The functions scanned on buses 0 .. n-1 are exactly the functions foreachbdf visits there. */
  lemma {:induction false} ScannedExact(s: Space, n: int)
    requires 0 <= n <= 256
    ensures forall d :: d in Scanned(s, n) <==> 0 <= d < n * 256 && Visited(s, d)
    decreases n
  {
    if n > 0 {
      ScannedExact(s, n - 1);
      BusFunctionsExact(s, n - 1);
    }
  }

  /** Bus by bus, and within a bus in pci_next order, is ascending bdf order. */
  lemma {:induction false} ScannedAscending(s: Space, n: int)
    requires 0 <= n <= 256
    ensures forall i :: 0 <= i < |Scanned(s, n)| ==> 0 <= Scanned(s, n)[i] < n * 256
    ensures forall i, j :: 0 <= i < j < |Scanned(s, n)| ==> Scanned(s, n)[i] < Scanned(s, n)[j]
    decreases n
  {
    if n > 0 {
      ScannedAscending(s, n - 1);
      var fs := BusFunctions(s, n - 1);
      forall i | 0 <= i < |fs| ensures (n - 1) * 256 <= fs[i] < (n - 1) * 256 + 256 {
        BusWindowOf(fs[i], n - 1);
      }
      AppendAscending(Scanned(s, n - 1), fs, (n - 1) * 256);
    }
  }

  /** Appending an ascending run above every element of an ascending sequence keeps it ascending. */
  lemma AppendAscending(a: seq<int>, b: seq<int>, lo: int)
    requires lo >= 0
    requires forall i :: 0 <= i < |a| ==> 0 <= a[i] < lo
    requires forall i, j :: 0 <= i < j < |a| ==> a[i] < a[j]
    requires forall i :: 0 <= i < |b| ==> lo <= b[i] < lo + 256
    requires forall i, j :: 0 <= i < j < |b| ==> b[i] < b[j]
    ensures forall i :: 0 <= i < |a + b| ==> 0 <= (a + b)[i] < lo + 256
    ensures forall i, j :: 0 <= i < j < |a + b| ==> (a + b)[i] < (a + b)[j]
  {
    var c := a + b;
    forall i, j | 0 <= i < j < |c| ensures c[i] < c[j] {
      if j < |a| {
        assert c[i] == a[i] && c[j] == a[j];
      } else if i >= |a| {
        assert c[i] == b[i - |a|] && c[j] == b[j - |a|];
      } else {
        assert c[i] == a[i] && c[j] == b[j - |a|];
      }
    }
  }

  /** A bdf on bus b lies in [b*256, b*256+256). */
  lemma BusWindowOf(x: int, b: int)
    requires 0 <= x < 0x1_0000 && 0 <= b < 256 && BdfToBus(x) == b
    ensures b * 256 <= x < b * 256 + 256
  {
    DivModUnique(x, 256, x / 256, x % 256);
    DivModUnique(x / 256, 256, 0, x / 256);
  }

  predicate Parentless(d: Device) { d.parent.None? }

  /** Every device's parent is the first earlier bridge that feeds its bus. */
  ghost predicate ParentsOk(devs: seq<Device>) {
    forall i :: 0 <= i < |devs| ==> devs[i].parent == FirstFeeder(devs[..i], Bus(devs[i]))
  }

  /** busdevs[b] is the first listed bridge feeding bus b. */
  ghost predicate BusdevsOk(p: ProbeState)
    requires |p.busdevs| == 256
  {
    forall b :: 0 <= b < 256 ==> p.busdevs[b] == FirstFeeder(p.devs, b)
  }

  /** A device behind a bridge shares the bridge's root bus. */
  ghost predicate RootsInherit(devs: seq<Device>) {
    forall i :: 0 <= i < |devs| && devs[i].parent.Some? ==>
      devs[i].parent.value < i && devs[i].rootbus == devs[devs[i].parent.value].rootbus
  }

  /**
   * Parentless devices number their root buses in bus order: two of them
   * share a root bus number exactly when they sit on the same bus.
   */
  ghost predicate RootsOrdered(devs: seq<Device>) {
    forall i, j :: 0 <= i < j < |devs| && Parentless(devs[i]) && Parentless(devs[j]) ==>
      devs[i].rootbus <= devs[j].rootbus && (devs[i].rootbus == devs[j].rootbus <==> Bus(devs[i]) == Bus(devs[j]))
  }

  /** The root-bus counter: rootbuses is the number of the last root bus, lastbus its bus. */
  ghost predicate RootCounter(p: ProbeState) {
    0 <= p.rootbuses <= p.lastbus <= (if p.bus < 0 then 0 else p.bus) &&
    (forall i :: 0 <= i < |p.devs| ==> Bus(p.devs[i]) <= p.bus && 0 <= p.devs[i].rootbus <= p.rootbuses) &&
    (forall i :: 0 <= i < |p.devs| && Parentless(p.devs[i]) ==>
       Bus(p.devs[i]) <= p.lastbus && (p.devs[i].rootbus == p.rootbuses <==> Bus(p.devs[i]) == p.lastbus))
  }

  /** MaxPCIBus covers its initial value, every bridge's secondary bus and every root bus. */
  ghost predicate MaxOk(p: ProbeState, maxBus0: int) {
    maxBus0 <= p.maxBus <= (if maxBus0 < 0xff then 0xff else maxBus0) &&
    forall i :: 0 <= i < |p.devs| ==>
      (IsBridgeHeader(p.devs[i].headerType) ==> p.devs[i].secondaryBus as int <= p.maxBus) &&
      (Parentless(p.devs[i]) ==> Bus(p.devs[i]) <= p.maxBus)
  }

  ghost predicate Inv(p: ProbeState, maxBus0: int)
    requires Shape(p)
  {
    BusdevsOk(p) && ParentsOk(p.devs) && RootsInherit(p.devs) && RootsOrdered(p.devs) &&
    RootCounter(p) && MaxOk(p, maxBus0)
  }

  lemma InitInv(maxBus0: int)
    ensures Inv(ProbeInit(maxBus0), maxBus0)
  {}

  /** Appending a device that does not feed bus b keeps b's first feeder; one that feeds it becomes it if none did. */
  lemma FirstFeederAppend(devs: seq<Device>, d: Device, b: int)
    ensures FirstFeeder(devs + [d], b) == if FirstFeeder(devs, b).Some? then FirstFeeder(devs, b)
                                         else if Feeds(d, b) then Some(|devs|) else None
  {
    assert (devs + [d])[..|devs|] == devs;
  }

  lemma StepBusdevs(s: Space, p: ProbeState, bdf: Bdf, allocCap: int)
    requires Shape(p) && 0 <= p.bus && BdfToBus(bdf) == p.bus && BusdevsOk(p)
    ensures BusdevsOk(Step(s, p, bdf, allocCap))
  {
    var r := Step(s, p, bdf, allocCap);
    if |p.devs| < allocCap {
      var n := |p.devs|;
      var dev := r.devs[n];
      assert r.devs == p.devs + [dev];
      assert Bus(dev) == p.bus;
      forall b | 0 <= b < 256 ensures r.busdevs[b] == FirstFeeder(r.devs, b) {
        FirstFeederAppend(p.devs, dev, b);
      }
    }
  }

  lemma StepParents(s: Space, p: ProbeState, bdf: Bdf, allocCap: int)
    requires Shape(p) && 0 <= p.bus && BdfToBus(bdf) == p.bus
    requires BusdevsOk(p) && ParentsOk(p.devs)
    ensures ParentsOk(Step(s, p, bdf, allocCap).devs)
  {
    var r := Step(s, p, bdf, allocCap);
    if |p.devs| < allocCap {
      var n := |p.devs|;
      assert r.devs == p.devs + [r.devs[n]];
      assert r.devs[..n] == p.devs;
      forall i | 0 <= i < |r.devs| ensures r.devs[i].parent == FirstFeeder(r.devs[..i], Bus(r.devs[i])) {
        if i < n {
          assert r.devs[..i] == p.devs[..i];
        }
      }
    }
  }

  lemma StepInherit(s: Space, p: ProbeState, bdf: Bdf, allocCap: int)
    requires Shape(p) && 0 <= p.bus && BdfToBus(bdf) == p.bus
    requires BusdevsOk(p) && RootsInherit(p.devs)
    ensures RootsInherit(Step(s, p, bdf, allocCap).devs)
  {
    var r := Step(s, p, bdf, allocCap);
    if |p.devs| < allocCap {
      var n := |p.devs|;
      assert r.devs == p.devs + [r.devs[n]];
      assert r.devs[n].parent == FirstFeeder(p.devs, p.bus);
    }
  }

  lemma StepCounter(s: Space, p: ProbeState, bdf: Bdf, allocCap: int)
    requires Shape(p) && 0 <= p.bus && BdfToBus(bdf) == p.bus
    requires RootCounter(p)
    ensures RootCounter(Step(s, p, bdf, allocCap))
  {
    var r := Step(s, p, bdf, allocCap);
    if |p.devs| < allocCap {
      var n := |p.devs|;
      var dev := r.devs[n];
      assert r.devs == p.devs + [dev];
      assert Bus(dev) == p.bus;
      if dev.parent.None? {
        assert r.lastbus == p.bus;
        forall i | 0 <= i < |r.devs| && Parentless(r.devs[i])
          ensures Bus(r.devs[i]) <= r.lastbus && (r.devs[i].rootbus == r.rootbuses <==> Bus(r.devs[i]) == r.lastbus)
        {
          if i < n {
            assert r.devs[i] == p.devs[i];
          }
        }
      } else {
        assert r.rootbuses == p.rootbuses && r.lastbus == p.lastbus;
        assert dev.rootbus == p.devs[dev.parent.value].rootbus;
      }
    }
  }

  lemma StepOrdered(s: Space, p: ProbeState, bdf: Bdf, allocCap: int)
    requires Shape(p) && 0 <= p.bus && BdfToBus(bdf) == p.bus
    requires RootsOrdered(p.devs) && RootCounter(p)
    ensures RootsOrdered(Step(s, p, bdf, allocCap).devs)
  {
    var r := Step(s, p, bdf, allocCap);
    if |p.devs| < allocCap {
      var n := |p.devs|;
      var dev := r.devs[n];
      assert r.devs == p.devs + [dev];
      assert Bus(dev) == p.bus;
      if dev.parent.None? {
        forall i | 0 <= i < n && Parentless(p.devs[i])
          ensures p.devs[i].rootbus <= dev.rootbus && (p.devs[i].rootbus == dev.rootbus <==> Bus(p.devs[i]) == Bus(dev))
        {
          if p.bus != p.lastbus {
            assert dev.rootbus == p.rootbuses + 1;
          } else {
            assert dev.rootbus == p.rootbuses;
          }
        }
      }
      forall i, j | 0 <= i < j < |r.devs| && Parentless(r.devs[i]) && Parentless(r.devs[j])
        ensures r.devs[i].rootbus <= r.devs[j].rootbus && (r.devs[i].rootbus == r.devs[j].rootbus <==> Bus(r.devs[i]) == Bus(r.devs[j]))
      {
        assert r.devs[i] == p.devs[i];
        if j < n {
          assert r.devs[j] == p.devs[j];
        }
      }
    }
  }

  lemma StepMax(s: Space, p: ProbeState, bdf: Bdf, allocCap: int, maxBus0: int)
    requires Shape(p) && 0 <= p.bus && BdfToBus(bdf) == p.bus && MaxOk(p, maxBus0)
    ensures MaxOk(Step(s, p, bdf, allocCap), maxBus0)
  {
    var r := Step(s, p, bdf, allocCap);
    if |p.devs| < allocCap {
      var n := |p.devs|;
      assert r.devs == p.devs + [r.devs[n]];
      assert Bus(r.devs[n]) == p.bus;
    }
  }

  lemma StepInv(s: Space, p: ProbeState, bdf: Bdf, allocCap: int, maxBus0: int)
    requires Shape(p) && 0 <= p.bus && BdfToBus(bdf) == p.bus && Inv(p, maxBus0)
    ensures Inv(Step(s, p, bdf, allocCap), maxBus0)
  {
    StepBusdevs(s, p, bdf, allocCap);
    StepParents(s, p, bdf, allocCap);
    StepInherit(s, p, bdf, allocCap);
    StepCounter(s, p, bdf, allocCap);
    StepOrdered(s, p, bdf, allocCap);
    StepMax(s, p, bdf, allocCap, maxBus0);
  }

  /**
   * How far the probe got: all functions of buses 0 .. bus once a bus is
   * done; when malloc_tmp failed, a prefix of them with the heap used up.
   */
  ghost predicate Tracks(s: Space, p: ProbeState, allocCap: int)
    requires Shape(p)
  {
    if p.failed then |p.devs| >= allocCap && Bdfs(p.devs) <= Scanned(s, p.bus + 1)
    else Bdfs(p.devs) == Scanned(s, p.bus + 1)
  }

  /** Tracks, in the middle of a bus with the functions fs still to visit. */
  ghost predicate TracksMid(s: Space, p: ProbeState, fs: seq<int>, allocCap: int)
    requires Shape(p)
  {
    if p.failed then |p.devs| >= allocCap && Bdfs(p.devs) <= Scanned(s, p.bus + 1)
    else Bdfs(p.devs) + fs == Scanned(s, p.bus + 1)
  }

  lemma StepTracks(s: Space, p: ProbeState, fs: seq<int>, allocCap: int)
    requires Shape(p) && 0 <= p.bus && !p.failed && |fs| > 0 && 0 <= fs[0] < 0x1_0000
    requires TracksMid(s, p, fs, allocCap)
    ensures TracksMid(s, Step(s, p, fs[0], allocCap), fs[1..], allocCap)
  {
    var r := Step(s, p, fs[0], allocCap);
    if |p.devs| >= allocCap {
      assert Bdfs(r.devs) == Bdfs(p.devs);
    } else {
      assert Bdfs(r.devs) == Bdfs(p.devs) + [fs[0]];
    }
    MidStep(Bdfs(p.devs), fs, Scanned(s, p.bus + 1));
  }

  /** The list arithmetic of one visited function. */
  lemma MidStep(a: seq<int>, fs: seq<int>, sc: seq<int>)
    requires a + fs == sc && |fs| > 0
    ensures a + [fs[0]] + fs[1..] == sc && a <= sc
  {
    assert a + [fs[0]] + fs[1..] == a + fs;
  }

  lemma {:induction false} ScanListInv(s: Space, p: ProbeState, fs: seq<int>, allocCap: int, maxBus0: int)
    requires Shape(p) && 0 <= p.bus && Inv(p, maxBus0)
    requires forall i :: 0 <= i < |fs| ==> 0 <= fs[i] < 0x1_0000 && BdfToBus(fs[i]) == p.bus
    requires TracksMid(s, p, fs, allocCap)
    ensures Inv(ScanList(s, p, fs, allocCap), maxBus0) && Tracks(s, ScanList(s, p, fs, allocCap), allocCap)
    decreases |fs|
  {
    if p.failed || |fs| == 0 {
      assert ScanList(s, p, fs, allocCap) == p;
      assert p.failed || Bdfs(p.devs) + fs == Bdfs(p.devs);
    } else {
      var r := Step(s, p, fs[0], allocCap);
      StepInv(s, p, fs[0], allocCap, maxBus0);
      StepTracks(s, p, fs, allocCap);
      ScanListInv(s, r, fs[1..], allocCap, maxBus0);
      assert ScanList(s, p, fs, allocCap) == ScanList(s, r, fs[1..], allocCap);
    }
  }

  /** The bus loop's exit: past bus 0xff, or past MaxPCIBus with enough root buses seen. */
  predicate Stopped(r: ProbeState, extraroots: int) {
    !r.failed ==> !(r.bus < 0xff && (r.bus < r.maxBus || r.rootbuses < extraroots))
  }

  /** Moving on to the next bus keeps the invariant; the new bus is still to be visited. */
  lemma NextBusInv(s: Space, p: ProbeState, allocCap: int, maxBus0: int)
    requires Shape(p) && Inv(p, maxBus0) && Tracks(s, p, allocCap) && !p.failed && p.bus < 0xff
    ensures var q := p.(bus := p.bus + 1);
      Shape(q) && Inv(q, maxBus0) && TracksMid(s, q, BusFunctions(s, p.bus + 1), allocCap)
  {
    var b := p.bus + 1;
    assert Scanned(s, b + 1) == Scanned(s, b) + BusFunctions(s, b);
  }

  /** Scanning the next bus keeps the invariants. */
  lemma BusInv(s: Space, p: ProbeState, allocCap: int, maxBus0: int)
    requires Shape(p) && Inv(p, maxBus0) && Tracks(s, p, allocCap) && !p.failed && p.bus < 0xff
    ensures var q := ScanList(s, p.(bus := p.bus + 1), BusFunctions(s, p.bus + 1), allocCap);
      Inv(q, maxBus0) && Tracks(s, q, allocCap)
  {
    var q := p.(bus := p.bus + 1);
    NextBusInv(s, p, allocCap, maxBus0);
    ScanListInv(s, q, BusFunctions(s, p.bus + 1), allocCap, maxBus0);
  }

  lemma {:induction false} ProbeLoopInv(s: Space, p: ProbeState, extraroots: int, allocCap: int, maxBus0: int)
    requires Shape(p) && Inv(p, maxBus0) && Tracks(s, p, allocCap)
    ensures Inv(ProbeLoop(s, p, extraroots, allocCap), maxBus0)
    ensures Tracks(s, ProbeLoop(s, p, extraroots, allocCap), allocCap)
    ensures Stopped(ProbeLoop(s, p, extraroots, allocCap), extraroots)
    decreases 0xff - p.bus
  {
    if !(p.failed || !(p.bus < 0xff && (p.bus < p.maxBus || p.rootbuses < extraroots))) {
      var q2 := ScanList(s, p.(bus := p.bus + 1), BusFunctions(s, p.bus + 1), allocCap);
      BusInv(s, p, allocCap, maxBus0);
      ProbeLoopInv(s, q2, extraroots, allocCap, maxBus0);
      assert ProbeLoop(s, p, extraroots, allocCap) == ProbeLoop(s, q2, extraroots, allocCap);
    }
  }

  /**
   * pci_probe_devices lists every function foreachbdf visits on the buses it scans,
   * in ascending bdf order (bus by bus, pci_next order within a bus); it
   * scans buses 0, 1, ... until it has passed MaxPCIBus and seen extraroots
   * root buses, or reached bus 0xff. Each device's parent is the first
   * earlier bridge whose secondary bus is the device's bus and lies above
   * the bridge's own; devices behind a bridge inherit its root bus, while
   * parentless devices number the root buses in bus order. MaxPCIBus ends
   * at least its initial value, every bridge's secondary bus and every root
   * bus. When malloc_tmp fails the list holds a prefix of the functions.
   */
  lemma ProbeFacts(s: Space, maxBus0: int, extraroots: int, allocCap: int)
    ensures var r := Probe(s, maxBus0, extraroots, allocCap);
      (!r.failed ==> Bdfs(r.devs) == Scanned(s, r.bus + 1)) &&
      (r.failed ==> |r.devs| >= allocCap && Bdfs(r.devs) <= Scanned(s, r.bus + 1)) &&
      (!r.failed ==> r.bus == 0xff || (r.bus >= r.maxBus && r.rootbuses >= extraroots))
    ensures var r := Probe(s, maxBus0, extraroots, allocCap);
      forall i, j :: 0 <= i < j < |r.devs| ==> r.devs[i].bdf < r.devs[j].bdf
    ensures var r := Probe(s, maxBus0, extraroots, allocCap);
      ParentsOk(r.devs) && RootsInherit(r.devs) && RootsOrdered(r.devs) && MaxOk(r, maxBus0) &&
      forall i :: 0 <= i < |r.devs| ==> 0 <= r.devs[i].rootbus < 256
  {
    var r := Probe(s, maxBus0, extraroots, allocCap);
    InitInv(maxBus0);
    ProbeLoopInv(s, ProbeInit(maxBus0), extraroots, allocCap, maxBus0);
    ScannedAscending(s, r.bus + 1);
    var sc := Scanned(s, r.bus + 1);
    var bd := Bdfs(r.devs);
    assert bd <= sc;
    forall i, j | 0 <= i < j < |r.devs| ensures r.devs[i].bdf < r.devs[j].bdf {
      assert bd[i] == sc[i] && bd[j] == sc[j];
    }
  }

  /**
   * Which functions the list holds: without an allocation failure exactly
   * the functions foreachbdf visits on the scanned buses, and after one only
   * such functions.
   */
  lemma ProbeVisits(s: Space, maxBus0: int, extraroots: int, allocCap: int)
    ensures var r := Probe(s, maxBus0, extraroots, allocCap);
      !r.failed ==> forall d :: d in Bdfs(r.devs) <==> 0 <= d < (r.bus + 1) * 256 && Visited(s, d)
    ensures var r := Probe(s, maxBus0, extraroots, allocCap);
      forall i :: 0 <= i < |r.devs| ==> 0 <= r.devs[i].bdf < 0x1_0000 && Visited(s, r.devs[i].bdf)
  {
    InitInv(maxBus0);
    ProbeLoopInv(s, ProbeInit(maxBus0), extraroots, allocCap, maxBus0);
    TracksVisited(s, Probe(s, maxBus0, extraroots, allocCap), allocCap);
  }

  /** A state that tracks the scan lists visited functions only, and all of them unless it failed. */
  lemma TracksVisited(s: Space, p: ProbeState, allocCap: int)
    requires Shape(p) && Tracks(s, p, allocCap)
    ensures !p.failed ==> forall d :: d in Bdfs(p.devs) <==> 0 <= d < (p.bus + 1) * 256 && Visited(s, d)
    ensures forall i :: 0 <= i < |p.devs| ==> 0 <= p.devs[i].bdf < 0x1_0000 && Visited(s, p.devs[i].bdf)
  {
    var bd := Bdfs(p.devs);
    ListedVisited(s, p.bus + 1, bd);
    if !p.failed {
      ListedExact(s, p.bus + 1, bd);
    }
    forall i | 0 <= i < |p.devs| ensures 0 <= p.devs[i].bdf < 0x1_0000 && Visited(s, p.devs[i].bdf) {
      assert bd[i] == p.devs[i].bdf;
    }
  }

  lemma ListedExact(s: Space, n: int, bd: seq<int>)
    requires 0 <= n <= 256 && bd == Scanned(s, n)
    ensures forall d :: d in bd <==> 0 <= d < n * 256 && Visited(s, d)
  {
    ScannedExact(s, n);
  }

  lemma ListedVisited(s: Space, n: int, bd: seq<int>)
    requires 0 <= n <= 256 && bd <= Scanned(s, n)
    ensures forall i :: 0 <= i < |bd| ==> 0 <= bd[i] < 0x1_0000 && Visited(s, bd[i])
  {
    ScannedExact(s, n);
    forall i | 0 <= i < |bd| ensures 0 <= bd[i] < 0x1_0000 && Visited(s, bd[i]) {
      assert bd[i] in Scanned(s, n);
    }
  }
}
