/**
 * The device list PCIDevices and MaxPCIBus (src/hw/pcidevice.c) as an
 * object: probing fills it, the searches and the enable helpers use it.
 */
module DeviceList {
  import opened Bits
  import opened Wrappers
  import opened PciConfig
  import opened PciDevice
  import opened PciProbe

  class PciDevices {
    /** PCIDevices, in list order. */
    var devices: seq<Device>
    /** MaxPCIBus */
    var maxBus: int

    constructor ()
      ensures devices == [] && maxBus == 0
    {
      devices := [];
      maxBus := 0;
    }

    /**
     * pci_probe_devices: each new device is linked in after the ones found
     * before it in this probe, ahead of whatever the list held already.
     */
    method ProbeDevices(cfg: ConfigSpace, extraroots: int, allocCap: int)
      modifies this
      ensures var p := Probe(cfg.State(), old(maxBus), extraroots, allocCap);
        devices == p.devs + old(devices) && maxBus == p.maxBus
    {
      var s := cfg.State();
      ghost var tail := devices;
      ghost var goal := Probe(s, maxBus, extraroots, allocCap);
      var busdevs: seq<Option<nat>> := seq(256, _ => None);
      var bus, lastbus, rootbuses, count := -1, 0, 0, 0;
      ghost var devs: seq<Device> := [];
      assert ProbeState(devs, busdevs, lastbus, rootbuses, maxBus, bus, false) == ProbeInit(maxBus);
      while bus < 0xff && (bus < maxBus || rootbuses < extraroots)
        invariant -1 <= bus <= 0xff
        invariant count == |devs| && devices == devs + tail
        invariant Shape(ProbeState(devs, busdevs, lastbus, rootbuses, maxBus, bus, false))
        invariant ProbeLoop(s, ProbeState(devs, busdevs, lastbus, rootbuses, maxBus, bus, false), extraroots, allocCap) == goal
        decreases 0xff - bus
      {
        ProbeLoopStep(s, ProbeState(devs, busdevs, lastbus, rootbuses, maxBus, bus, false), extraroots, allocCap);
        bus := bus + 1;
        var failed;
        busdevs, lastbus, rootbuses, count, failed, devs := ScanBus(cfg, busdevs, bus, lastbus, rootbuses, count, devs, tail, allocCap);
        if failed {
          ProbeLoopStep(s, ProbeState(devs, busdevs, lastbus, rootbuses, maxBus, bus, true), extraroots, allocCap);
          return;
        }
      }
      ProbeLoopStep(s, ProbeState(devs, busdevs, lastbus, rootbuses, maxBus, bus, false), extraroots, allocCap);
    }

    /** The foreachbdf loop of pci_probe_devices over one bus; `failed` when malloc_tmp ran out. */
    method ScanBus(cfg: ConfigSpace, busdevs: seq<Option<nat>>, bus: int, lastbus: int, rootbuses: int,
                   count: nat, ghost devs: seq<Device>, ghost tail: seq<Device>, allocCap: int)
        returns (busdevs': seq<Option<nat>>, lastbus': int, rootbuses': int, count': nat, failed: bool, ghost devs': seq<Device>)
      requires 0 <= bus <= 0xff && count == |devs| && devices == devs + tail
      requires Shape(ProbeState(devs, busdevs, lastbus, rootbuses, maxBus, bus, false))
      modifies this
      ensures count' == |devs'| && devices == devs' + tail
      ensures ScanList(cfg.State(), ProbeState(devs, busdevs, lastbus, rootbuses, old(maxBus), bus, false),
                       BusFunctions(cfg.State(), bus), allocCap)
              == ProbeState(devs', busdevs', lastbus', rootbuses', maxBus, bus, failed)
    {
      var s := cfg.State();
      ghost var goal := ScanList(s, ProbeState(devs, busdevs, lastbus, rootbuses, maxBus, bus, false),
                                 BusFunctions(s, bus), allocCap);
      busdevs', lastbus', rootbuses', count', devs' := busdevs, lastbus, rootbuses, count, devs;
      var bdf := cfg.Next(bus * 256 - 1, bus);
      assert Rest(s, bus, bdf) == BusFunctions(s, bus);
      while bdf >= 0
        invariant bdf == -1 || bus * 256 <= bdf < bus * 256 + 256
        invariant count' == |devs'| && devices == devs' + tail
        invariant Shape(ProbeState(devs', busdevs', lastbus', rootbuses', maxBus, bus, false))
        invariant ScanList(s, ProbeState(devs', busdevs', lastbus', rootbuses', maxBus, bus, false),
                           Rest(s, bus, bdf), allocCap) == goal
        decreases if bdf < 0 then 0 else bus * 256 + 257 - bdf
      {
        ScanListStep(s, ProbeState(devs', busdevs', lastbus', rootbuses', maxBus, bus, false), bdf, allocCap);
        if count' >= allocCap {
          return busdevs', lastbus', rootbuses', count', true, devs';
        }
        busdevs', lastbus', rootbuses', devs' := AddDevice(s, busdevs', bus, bdf, lastbus', rootbuses', count', devs', tail);
        count' := count' + 1;
        bdf := cfg.Next(bdf, bus);
      }
      return busdevs', lastbus', rootbuses', count', false, devs';
    }

    /** The foreachbdf body of pci_probe_devices for function bdf of `bus`, allocation having succeeded. */
    method AddDevice(s: Space, busdevs: seq<Option<nat>>, bus: int, bdf: Bdf, lastbus: int, rootbuses: int,
                     count: nat, ghost devs: seq<Device>, ghost tail: seq<Device>)
        returns (busdevs': seq<Option<nat>>, lastbus': int, rootbuses': int, ghost devs': seq<Device>)
      requires 0 <= bus <= 0xff && count == |devs| && devices == devs + tail
      requires Shape(ProbeState(devs, busdevs, lastbus, rootbuses, maxBus, bus, false))
      modifies this
      ensures devices == devs' + tail
      ensures ProbeState(devs', busdevs', lastbus', rootbuses', maxBus, bus, false)
              == Step(s, ProbeState(devs, busdevs, lastbus, rootbuses, old(maxBus), bus, false), bdf, count + 1)
    {
      var parent := busdevs[bus];
      var rootbus;
      lastbus', rootbuses', rootbus := FindParent(busdevs, bus, lastbus, rootbuses, devs, tail);
      var vendev := ReadL(s, bdf, PCI_VENDOR_ID);
      var classrev := ReadL(s, bdf, PCI_CLASS_REVISION);
      var ht := ReadB(s, bdf, PCI_HEADER_TYPE);
      var secbus;
      busdevs', secbus := NoteBridge(s, busdevs, bus, bdf, count, ht);
      var dev := Device(bdf, rootbus, parent, Lo16(vendev), Hi16(vendev), Hi16(classrev),
                        ByteOf(classrev, 1), ByteOf(classrev, 0), ht, secbus, false);
      assert dev == ReadDevice(s, bdf, rootbus, parent);
      devices := devices[..count] + [dev] + devices[count..];
      devs' := devs + [dev];
      assert devices == devs' + tail by {
        assert old(devices)[..count] == devs && old(devices)[count..] == tail;
      }
    }

    /** The parent lookup of pci_probe_devices; it may raise MaxPCIBus. */
    method FindParent(busdevs: seq<Option<nat>>, bus: int, lastbus: int, rootbuses: int,
                      ghost devs: seq<Device>, ghost tail: seq<Device>)
        returns (lastbus': int, rootbuses': int, rootbus: int)
      requires 0 <= bus <= 0xff && devices == devs + tail
      requires Shape(ProbeState(devs, busdevs, lastbus, rootbuses, maxBus, bus, false))
      modifies this
      ensures devices == old(devices)
      ensures (rootbuses', lastbus', maxBus, rootbus)
              == Adopt(ProbeState(devs, busdevs, lastbus, rootbuses, old(maxBus), bus, false))
    {
      lastbus', rootbuses' := lastbus, rootbuses;
      var parent := busdevs[bus];
      if parent.None? {
        if bus != lastbus' {
          rootbuses' := rootbuses' + 1;
        }
        lastbus' := bus;
        rootbus := rootbuses';
        if bus > maxBus {
          maxBus := bus;
        }
      } else {
        assert devices[parent.value] == devs[parent.value];
        rootbus := devices[parent.value].rootbus;
      }
    }

    /** The bridge bookkeeping of pci_probe_devices for device number idx with header type ht. */
    method NoteBridge(s: Space, busdevs: seq<Option<nat>>, bus: int, bdf: Bdf, idx: nat, ht: bv8)
        returns (busdevs': seq<Option<nat>>, secbus: bv8)
      requires |busdevs| == 256
      modifies this
      ensures devices == old(devices)
      ensures IsBridgeHeader(ht) ==> secbus == ReadB(s, bdf, PCI_SECONDARY_BUS)
      ensures !IsBridgeHeader(ht) ==> secbus == 0
      ensures (busdevs', maxBus) == Record(busdevs, old(maxBus), bus, idx, IsBridgeHeader(ht), secbus)
    {
      busdevs', secbus := busdevs, 0;
      var v := ht & 0x7f;
      if v == PCI_HEADER_TYPE_BRIDGE || v == PCI_HEADER_TYPE_CARDBUS {
        secbus := ReadB(s, bdf, PCI_SECONDARY_BUS);
        if secbus as int > bus && busdevs'[secbus].None? {
          busdevs' := busdevs'[secbus as int := Some(idx)];
        }
        if secbus as int > maxBus {
          maxBus := secbus as int;
        }
      }
    }

    /** pci_find_device: the first device in list order with these ids. */
    method FindDevice(vendid: bv16, devid: bv16) returns (r: Option<nat>)
      ensures r.Some? ==> r.value < |devices| && devices[r.value].vendor == vendid && devices[r.value].device == devid
      ensures r.Some? ==> forall k :: 0 <= k < r.value ==> !(devices[k].vendor == vendid && devices[k].device == devid)
      ensures r.None? ==> forall k :: 0 <= k < |devices| ==> !(devices[k].vendor == vendid && devices[k].device == devid)
    {
      var i := 0;
      while i < |devices|
        invariant 0 <= i <= |devices|
        invariant forall k :: 0 <= k < i ==> !(devices[k].vendor == vendid && devices[k].device == devid)
      {
        if devices[i].vendor == vendid && devices[i].device == devid {
          return Some(i);
        }
        i := i + 1;
      }
      return None;
    }

    /** pci_find_class: the first device in list order of this class. */
    method FindClass(classId: bv16) returns (r: Option<nat>)
      ensures r.Some? ==> r.value < |devices| && devices[r.value].classCode == classId
      ensures r.Some? ==> forall k :: 0 <= k < r.value ==> devices[k].classCode != classId
      ensures r.None? ==> forall k :: 0 <= k < |devices| ==> devices[k].classCode != classId
    {
      var i := 0;
      while i < |devices|
        invariant 0 <= i <= |devices|
        invariant forall k :: 0 <= k < i ==> devices[k].classCode != classId
      {
        if devices[i].classCode == classId {
          return Some(i);
        }
        i := i + 1;
      }
      return None;
    }

    /** pci_find_init_device: the first device in list order that the table accepts. */
    method FindInitDevice(ids: seq<DeviceId>) returns (r: Option<nat>, called: Option<nat>)
      requires Terminated(ids)
      ensures r.Some? ==> r.value < |devices| && TableMatch(ids, devices[r.value], 0).Some?
      ensures r.Some? ==> called == ids[TableMatch(ids, devices[r.value], 0).value].func
      ensures r.Some? ==> forall k :: 0 <= k < r.value ==> TableMatch(ids, devices[k], 0).None?
      ensures r.None? ==> called == None && forall k :: 0 <= k < |devices| ==> TableMatch(ids, devices[k], 0).None?
    {
      var i := 0;
      while i < |devices|
        invariant 0 <= i <= |devices|
        invariant forall k :: 0 <= k < i ==> TableMatch(ids, devices[k], 0).None?
      {
        var ret, f := InitDevice(ids, devices[i]);
        if ret == 0 {
          return Some(i), f;
        }
        i := i + 1;
      }
      return None, None;
    }

    /** pci_enable_busmaster: bus mastering on, and the device marked as driven. */
    method EnableBusmaster(cfg: ConfigSpace, i: nat)
      requires i < |devices|
      modifies this, cfg
      ensures cfg.mmconfig == old(cfg.mmconfig) && maxBus == old(maxBus)
      ensures cfg.regs == Store(old(cfg.regs), cfg.wmask, Location(cfg.mmconfig, old(devices)[i].bdf, PCI_COMMAND, Word), 2,
                                (ReadW(old(cfg.State()), old(devices)[i].bdf, PCI_COMMAND) | PCI_COMMAND_MASTER) as bv32)
      ensures devices == old(devices)[i := old(devices)[i].(haveDriver := true)]
    {
      var bdf := devices[i].bdf;
      MaskSetOnly(ReadW(cfg.State(), bdf, PCI_COMMAND), PCI_COMMAND_MASTER);
      cfg.MaskW(bdf, PCI_COMMAND, 0, PCI_COMMAND_MASTER);
      devices := devices[i := devices[i].(haveDriver := true)];
    }

    /**
     * pci_enable_iobar: a valid I/O BAR turns on I/O decoding and marks the
     * device as driven; anything else returns 0 and changes nothing.
     */
    method EnableIoBar(cfg: ConfigSpace, i: nat, addr: Offset) returns (r: bv32)
      requires i < |devices|
      modifies this, cfg
      ensures r == IoBarBase(ReadL(old(cfg.State()), old(devices)[i].bdf, addr))
      ensures cfg.mmconfig == old(cfg.mmconfig) && maxBus == old(maxBus)
      ensures r == 0 ==> cfg.regs == old(cfg.regs) && devices == old(devices)
      ensures r != 0 ==> devices == old(devices)[i := old(devices)[i].(haveDriver := true)]
      ensures r != 0 ==> cfg.regs == Store(old(cfg.regs), cfg.wmask, Location(cfg.mmconfig, old(devices)[i].bdf, PCI_COMMAND, Word), 2,
                                           (ReadW(old(cfg.State()), old(devices)[i].bdf, PCI_COMMAND) | PCI_COMMAND_IO) as bv32)
    {
      var bdf := devices[i].bdf;
      var bar := ReadL(cfg.State(), bdf, addr);
      r := IoBarBase(bar);
      if r == 0 {
        return;
      }
      MaskSetOnly(ReadW(cfg.State(), bdf, PCI_COMMAND), PCI_COMMAND_IO);
      cfg.MaskW(bdf, PCI_COMMAND, 0, PCI_COMMAND_IO);
      devices := devices[i := devices[i].(haveDriver := true)];
    }

    /**
     * pci_enable_membar: a valid memory BAR below 4 GiB and outside the first
     * 16 MiB and the last 4 MiB turns on memory decoding and marks the device
     * as driven; anything else returns NULL and changes nothing. The upper
     * dword is read only for a 64-bit memory BAR.
     */
    method EnableMemBar(cfg: ConfigSpace, i: nat, addr: Offset) returns (r: Option<bv32>)
      requires i < |devices| && addr + 4 < 0x1000
      modifies this, cfg
      ensures r == MemBarBase(ReadL(old(cfg.State()), old(devices)[i].bdf, addr),
                              ReadL(old(cfg.State()), old(devices)[i].bdf, addr + 4))
      ensures cfg.mmconfig == old(cfg.mmconfig) && maxBus == old(maxBus)
      ensures r.None? ==> cfg.regs == old(cfg.regs) && devices == old(devices)
      ensures r.Some? ==> devices == old(devices)[i := old(devices)[i].(haveDriver := true)]
      ensures r.Some? ==> cfg.regs == Store(old(cfg.regs), cfg.wmask, Location(cfg.mmconfig, old(devices)[i].bdf, PCI_COMMAND, Word), 2,
                                            (ReadW(old(cfg.State()), old(devices)[i].bdf, PCI_COMMAND) | PCI_COMMAND_MEMORY) as bv32)
    {
      var bdf := devices[i].bdf;
      var bar := ReadL(cfg.State(), bdf, addr);
      var high: bv32 := 0;
      if bar & PCI_BASE_ADDRESS_SPACE_IO == 0 && bar & PCI_BASE_ADDRESS_MEM_TYPE_64 != 0 {
        high := ReadL(cfg.State(), bdf, addr + 4);
      }
      r := MemBarBase(bar, high);
      assert r == MemBarBase(bar, ReadL(cfg.State(), bdf, addr + 4));
      if r.None? {
        return;
      }
      MaskSetOnly(ReadW(cfg.State(), bdf, PCI_COMMAND), PCI_COMMAND_MEMORY);
      cfg.MaskW(bdf, PCI_COMMAND, 0, PCI_COMMAND_MEMORY);
      devices := devices[i := devices[i].(haveDriver := true)];
    }
  }
}
