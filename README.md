# SeaBIOS core in Dafny

This project models the parts of SeaBIOS (the x86 firmware as built for
QEMU) that compute something: PCI configuration access and enumeration,
the device list, bus numbering, BAR sizing, the PCI resource allocator,
slot interrupt routing, the i8042 PS/2 controller driver, PAM shadow-RAM
control, the computing parts of POST, and a small debug stack. Each part
is stated as specification functions over values. Code that changes state
step by step is modelled as methods with loops. Those methods are proved
equal to the specification functions. Lemmas then prove what the firmware
relies on.

Modules, one per file, in dependency order:

- `Bits` (bits.dfy): C integer ranges, byte/word composition, masked
  updates, and the ALIGN / ALIGN_DOWN rounding.
- `Wrappers` (wrappers.dfy): `Option`.
- `PciConfig` (pci_config.dfy): configuration space as a map from
  (bdf, offset) to register bytes with write masks. The ECAM and
  0xcf8/0xcfc access paths are encoded to their wire form and decoded
  back. Also covered: `pci_find_capability` and `pci_next` /
  `foreachbdf`. Class `ConfigSpace` holds the accessors.
- `PciDevice` (pci_device.dfy): `struct pci_device`, the PCI_DEVICE /
  PCI_DEVICE_CLASS quirk tables with their first-match scan, and the BAR
  checks of `pci_enable_iobar` / `pci_enable_membar`.
- `PciProbe` (pci_probe.dfy): `pci_probe_devices` as a function of
  configuration space, with the invariants of the list it builds.
- `DeviceList` (device_list.dfy): class `PciDevices` (the `PCIDevices`
  list and `MaxPCIBus`). It holds the probe loop, the searches
  `pci_find_device` / `pci_find_class` / `pci_find_init_device`, and the
  enable helpers.
- `PciIrq` (pci_irq.dfy): `piix_pci_slot_get_irq` and
  `mch_pci_slot_get_irq`.
- `PciRegion` (pci_region.dfy): the per-bus resource ledger. It is kept
  sorted by falling alignment and then falling size. Also covered are its
  u64 sum, its alignment, and the move of 64-bit requests.
- `PciBar` (pci_bar.dfy): BAR location, sizing by writing ones and
  restoring, BAR programming, and the bridge window probes.
- `PciBus` (pci_bus.dfy): depth-first bus numbering with the 8-bit
  counter, bus reservations, and extra root buses.
- `PciAlloc` (pci_alloc.dfy): `pci_bios_check_devices`, the sizing pass.
  It files the requests and sizes the bridge windows bottom-up.
- `PciMap` (pci_map.dfy): `pci_bios_map_devices`, the placement pass. It
  places the root regions below `pcimem_end` and falls back to the 64-bit
  window above RAM. Every request is assigned in list order, and each BAR
  and bridge window is programmed.
- `Post` (post.dfy): `ivt_init`, relocation patching (`updateRelocs`,
  `reloc_preinit`), `code_mutable_preinit`, and the EBDA segment and
  base-memory size of `bda_init`.
- `Ps2Port` (ps2port.dfy): the i8042 driver. The controller is a script
  of status samples and timer answers. Every routine is a specification
  function, and class `Controller` runs the C loops against it.
- `Shadow` (shadow.dfy): making the BIOS area writable and read-only
  through the i440FX / Q35 PAM registers.
- `StackDbg` (stack_dbg.dfy): the 64-entry debug stack.

Behaviour worth noting:

- Root memory order. When the root bus's two 32-bit memory regions are
  placed below `pcimem_end`, the code puts the region with the SMALLER
  alignment at the top (prefetchable on a tie), with the other one below
  it. `PciMap.RootMem` and `PciMap.RootMemLayout` state the code's order.
- Bus reservations. When a reservation fits in 8 bits but does not reach
  past the buses the subtree used, `pci_bios_init_bus_rec` writes the raw
  reservation count as the subordinate bus. `PciBus.SubordinateRawCount`
  and `PciBus.SubordinateBelowSubtree` state this.
- The u64 request sum. The sum of a large ledger wraps modulo 2^64
  (`PciRegion.Sum`).

## Model

| member | source | states |
|---|---|---|
| Bits.AlignDown | src/post.c:84 | ALIGN_DOWN gives the largest multiple of the alignment at or below the value |
| Bits.AlignUp | src/fw/pciinit.c:1247-1250 | ALIGN gives the least multiple of the alignment at or above the value |
| Bits.AlignUp64Exact | src/fw/pciinit.c:1250 | ALIGN on a u64 is exact rounding up when the sum does not wrap |
| PciConfig.PathOf | src/hw/pci.c:19-30 | the memory-mapped path is taken exactly when mmconfig is non-zero, with address mmconfig + (bdf << 12) + addr; otherwise the command word is 0x80000000 \| bdf << 8 \| (addr & 0xfc) and the data port carries the byte lane |
| PciConfig.LocationDecodes | src/hw/pci.c:19-30 | on either path the register the hardware decodes from the emitted access is Location(mmconfig, bdf, addr, width) |
| PciConfig.LegacyDecode | src/hw/pci.c:24-30 | the 0xcf8/0xcfc pair reaches dword addr & 0xfc of bdf plus the byte lane of the data port |
| PciConfig.EcamDecode | src/hw/pci.c:19-22 | the memory-mapped access reaches (bdf, addr), or lands below the first function when the 32-bit address wraps |
| PciConfig.PathsAgree | src/hw/pci.c:32-103 | for an aligned register below 0x100 both access paths reach the same register at every width |
| PciConfig.LocationOffset | src/hw/pci.c:32-103 | a byte or aligned word access below 0x100 reaches register offset addr on either path |
| PciConfig.Store | src/hw/pci.c:32-64 | a write keeps the set of implemented registers and leaves every byte outside the written span unchanged |
| PciConfig.StoreGet | src/hw/pci.c:32-64 | each written byte becomes the old byte merged with the new byte through its write mask |
| PciConfig.StoreReadback32 | src/hw/pci.c:32-77 | a dword read right after a write shows the written value in the writable bits and the old value elsewhere |
| PciConfig.StoreReadback8 | src/hw/pci.c:56-64 | a byte read right after a write shows the written value in the writable bits and the old value elsewhere |
| PciConfig.Reg32Bytes | src/hw/pci.c:66-77 | the bytes of a dword read are the four register bytes, low byte first |
| PciConfig.StoreRestore32 | src/hw/pci.c:32-77 | writing back the dword read before another write restores configuration space exactly |
| PciConfig.StoreRestore8 | src/hw/pci.c:56-64 | writing back the byte read before another write restores configuration space exactly |
| PciConfig.ReadL | src/hw/pci.c:66-77 | a dword read returns the four register bytes at the legacy offset when mmconfig is 0, at (bdf, addr) inside the window |
| PciConfig.ReadW | src/hw/pci.c:79-90 | a word read returns the two register bytes at the legacy offset when mmconfig is 0, at (bdf, addr) inside the window |
| PciConfig.ReadB | src/hw/pci.c:92-103 | a byte read returns the register byte at the legacy offset when mmconfig is 0, at (bdf, addr) inside the window |
| PciConfig.CapWalk | src/hw/pci.c:137-141 | the walk returns 0 or a capability whose id byte is the one searched for |
| PciConfig.FindCap | src/hw/pci.c:122-144 | the result is 0 or a capability with the searched id, and 0 whenever the status register does not advertise a capability list |
| PciConfig.CapChain | src/hw/pci.c:137-141 | the chain of visited capabilities has at most the loop bound of entries and none of them is the null pointer |
| PciConfig.CapWalkNone | src/hw/pci.c:137-141 | the walk finds nothing if and only if no capability of the chain carries the searched id |
| PciConfig.CapWalkFirst | src/hw/pci.c:137-141 | a capability the walk returns is the first one of the chain that carries the searched id |
| PciConfig.SlotGap | src/hw/pci.c:148-176 | two distinct function-0 bdfs are at least one slot (8 functions) apart |
| PciConfig.BusWindow | src/hw/pci.c:148-176 | a candidate just past the bus belongs to it exactly when it is below the next bus's first bdf |
| PciConfig.Scan | src/hw/pci.c:162-175 | the search returns -1 or a present function on the same bus at or after the candidate |
| PciConfig.ScanGap | src/hw/pci.c:162-175 | every present function the search passes over is no function 0 and sits in a slot from the candidate on whose function 0 is absent; a result other than a function 0 lies in the candidate's own slot |
| PciConfig.NextBdf | src/hw/pci.c:148-176 | pci_next returns -1 or a present function on the bus strictly after bdf |
| PciConfig.NextGap | src/hw/pci.c:148-176 | every present function pci_next passes over is no function 0 and either follows a single-function function 0 bdf in its own slot or sits in a later slot whose function 0 is absent; a result other than a function 0 lies in bdf's slot and was reached past a function other than 0 or a multi-function function 0 |
| PciConfig.NextStepsOne | src/hw/pci.c:152-158 | after a function other than 0, or a multi-function function 0, pci_next returns the very next function when it answers |
| PciConfig.NextVisits | src/hw/pci.c:148-176 | from the start of the bus or a visited function, pci_next returns a visited function (or -1) and passes over no visited function |
| PciConfig.ScanSkipsNoSlot | src/hw/pci.c:162-175 | the search never passes over a slot whose function 0 is present |
| PciConfig.NextSkipsNoSlot | src/hw/pci.c:148-176 | no present function 0 lies strictly between bdf and what pci_next returns (or the end of the bus) |
| PciConfig.EnumFrom | src/hw/pci.c:148-176 | the functions visited after bdf are present, on the bus, after bdf and strictly ascending |
| PciConfig.BusFunctions | src/hw/pci.c:148-176 | foreachbdf visits present functions of the bus only, in strictly ascending order |
| PciConfig.EnumFromExact | src/hw/pci.c:148-176 | the functions enumerated after the start or a visited function are exactly the visited functions above it |
| PciConfig.BusFunctionsExact | src/hw/pci.c:148-176 | foreachbdf visits exactly the functions of the bus that answer and are function 0 or sit in a slot whose function 0 is multi-function |
| PciConfig.ProbeHost | src/hw/pci.c:190-202 | the probe succeeds (0) exactly when the host bridge echoes 0x80000000, and fails with -1 otherwise |
| PciConfig.ConfigSpace.constructor | src/hw/pci.c:32-103 | starts with the given register contents and write masks and the port-pair access path |
| PciConfig.ConfigSpace.WriteL | src/hw/pci.c:32-42 | stores the dword through the write masks at the register the chosen path reaches; mmconfig unchanged |
| PciConfig.ConfigSpace.WriteW | src/hw/pci.c:44-54 | stores the word through the write masks at the register the chosen path reaches; mmconfig unchanged |
| PciConfig.ConfigSpace.WriteB | src/hw/pci.c:56-64 | stores the byte through the write masks at the register the chosen path reaches; mmconfig unchanged |
| PciConfig.ConfigSpace.MaskW | src/hw/pci.c:106-111 | writes back the word read with the `off` bits cleared and the `on` bits set |
| PciConfig.ConfigSpace.EnableMmconfig | src/hw/pci.c:114-120 | takes the window only when its address is below 4 GiB; registers unchanged |
| PciConfig.ConfigSpace.FindCapability | src/hw/pci.c:122-144 | returns FindCap on the current configuration space, so the walk properties above apply |
| PciConfig.ConfigSpace.Next | src/hw/pci.c:148-176 | returns NextBdf on the current configuration space |
| PciDevice.ClassNoMask | src/hw/pcidevice.h:59-66 | an entry with class mask 0 accepts every class |
| PciDevice.ClassFullMask | src/hw/pcidevice.h:68-75 | an entry with class mask ~0 accepts a class if and only if it is exactly its class |
| PciDevice.Matches | src/hw/pcidevice.c:157-159 | an entry accepts a device when its vendor and device ids are each PCI_ANY_ID or equal and its class agrees with the device's on every bit of the class mask; PciDevice.DeviceEntryMatches and PciDevice.DeviceClassEntryMatches state it for the two entry macros |
| PciDevice.DeviceEntryMatches | src/hw/pcidevice.h:59-66 | a PCI_DEVICE entry accepts a device if and only if its vendor and device ids are equal or PCI_ANY_ID |
| PciDevice.DeviceClassEntryMatches | src/hw/pcidevice.h:68-75 | a PCI_DEVICE_CLASS entry accepts a device if and only if the ids are accepted and the class is exactly its class |
| PciDevice.Terminators | src/hw/pcidevice.h:77-80 | PCI_DEVICE_END ends a table, a PCI_DEVICE_CLASS entry never does, and a PCI_DEVICE entry does exactly when its vendor id is 0 |
| PciDevice.TableEnd | src/hw/pcidevice.c:155 | the scan stops at the first entry with vendid 0 and class mask 0, and every entry before it is scanned |
| PciDevice.TableMatch | src/hw/pcidevice.c:155-191 | a match found is the first entry before the terminator that accepts the device; none found means no entry before the terminator accepts it |
| PciDevice.TerminatedEnd | src/hw/pcidevice.c:155-191 | in a terminated table the scan from any entry before the terminator ends at that same terminator |
| PciDevice.TableEndFrom | src/hw/pcidevice.c:155-191 | scanning on from an entry the scan passed ends at the same terminator |
| PciDevice.InitDevice | src/hw/pcidevice.c:152-192 | returns 0 exactly when an entry before the terminator accepts the device, and then reports the first such entry's callback (none for NULL); -1 otherwise |
| PciDevice.IoBarBase | src/hw/pcidevice.c:216-232 | a BAR is accepted if and only if it is an I/O BAR whose masked value is non-zero and at most 0xffff; the port returned is the BAR with the low two bits cleared |
| PciDevice.MemBarBase | src/hw/pcidevice.c:248-280 | a BAR is accepted if and only if it is a memory BAR, its upper dword is 0 when 64-bit, and its masked address lies in [16 MiB, 4 GiB - 4 MiB); the address returned is the masked BAR |
| PciProbe.FirstFeeder | src/hw/pcidevice.c:97-102 | busdevs[b] is the first listed bridge whose secondary bus is b and lies below it, or none when no listed device feeds b |
| PciProbe.ProbeInit | src/hw/pcidevice.c:37-42 | the probe starts with 256 empty parent slots, no devices and bus -1 |
| PciProbe.Record | src/hw/pcidevice.c:97-105 | a bridge may claim only its secondary bus's parent slot, every other slot is unchanged, and MaxPCIBus never decreases |
| PciProbe.ReadDevice | src/hw/pcidevice.c:82-99 | the record carries the bdf, parent, root bus and header type read from configuration space, and a secondary bus only for bridge and CardBus headers |
| PciProbe.Step | src/hw/pcidevice.c:51-107 | one visited function keeps the 256 parent slots well formed and stays on the same bus |
| PciProbe.ScanList | src/hw/pcidevice.c:50-108 | the foreachbdf loop over a bus keeps the parent slots well formed and stays on that bus |
| PciProbe.ProbeLoop | src/hw/pcidevice.c:45-111 | the bus loop keeps the parent slots well formed |
| PciProbe.Probe | src/hw/pcidevice.c:34-115 | pci_probe_devices ends with well-formed parent slots |
| PciProbe.ScanListStep | src/hw/pcidevice.c:50-65 | one turn of foreachbdf visits the current function and moves on to pci_next's successor; a failed allocation stops the probe with the devices listed so far |
| PciProbe.Bdfs | src/hw/pcidevice.c:82 | the bdfs of the listed devices, in list order |
| PciProbe.ScannedAscending | src/hw/pcidevice.c:45-108 | the functions visited on buses 0 to n-1 are below n*256 and strictly ascending |
| PciProbe.InitInv | src/hw/pcidevice.c:37-42 | the probe invariant holds before the first bus |
| PciProbe.FirstFeederAppend | src/hw/pcidevice.c:101-102 | appending a device keeps bus b's first feeder if it had one, and otherwise makes the new device its feeder exactly when it feeds b |
| PciProbe.StepBusdevs | src/hw/pcidevice.c:97-105 | after a visited function, every parent slot still holds the first listed bridge feeding that bus |
| PciProbe.StepParents | src/hw/pcidevice.c:67-84 | a new device's parent is the first earlier bridge that feeds its bus |
| PciProbe.StepInherit | src/hw/pcidevice.c:77-79 | a device behind a bridge has the bridge's root bus, and the bridge is listed before it |
| PciProbe.StepCounter | src/hw/pcidevice.c:70-76 | the root-bus counter numbers the last root bus and every device's root bus is at most that number |
| PciProbe.StepOrdered | src/hw/pcidevice.c:70-76 | parentless devices' root-bus numbers are non-decreasing in list order and equal exactly when the devices share a bus |
| PciProbe.StepMax | src/hw/pcidevice.c:75-76 | MaxPCIBus stays at least its initial value, every bridge's secondary bus and every root bus seen, and at most 0xff or its initial value |
| PciProbe.StepInv | src/hw/pcidevice.c:51-107 | one visited function preserves all of the probe invariants above |
| PciProbe.StepTracks | src/hw/pcidevice.c:50-65 | after one visited function the list is the visited functions so far, and the rest of the bus is still to come |
| PciProbe.ScanListInv | src/hw/pcidevice.c:50-108 | scanning a bus preserves the invariants, and the list is every function of the buses done (or, after a failed allocation, a prefix of them) |
| PciProbe.NextBusInv | src/hw/pcidevice.c:45-47 | moving on to the next bus keeps the invariants, with all of that bus's functions still to visit |
| PciProbe.ProbeLoopInv | src/hw/pcidevice.c:45-111 | the bus loop preserves the invariants and stops past bus 0xff, or once it has passed MaxPCIBus and seen extraroots root buses |
| PciProbe.ProbeFacts | src/hw/pcidevice.c:34-115 | the devices are every function foreachbdf visits on the scanned buses in ascending bdf order (a prefix of them when allocation fails); each device's parent is the first earlier bridge that feeds its bus; children share their parent's root bus; root buses are numbered in bus order; MaxPCIBus covers every secondary and root bus; and the loop stops only under its exit condition |
| PciProbe.ProbeVisits | src/hw/pcidevice.c:34-115 | without an allocation failure the list holds exactly the functions foreachbdf visits on the scanned buses (present, and function 0 or in a multi-function slot); after one it holds only such functions |
| PciProbe.TracksVisited | src/hw/pcidevice.c:34-115 | every state of the scan lists visited functions only, and all of the scanned buses' visited functions unless allocation failed |
| PciProbe.ScannedExact | src/hw/pcidevice.c:45-111 | the functions scanned on buses 0 .. n-1 are exactly the visited functions below bus n |
| DeviceList.PciDevices.constructor | src/hw/pcidevice.h:23-24 | the device list starts empty and MaxPCIBus at 0 |
| DeviceList.PciDevices.ProbeDevices | src/hw/pcidevice.c:34-115 | the list gains exactly the devices of the probe specification, in order, linked before what it held already, and MaxPCIBus becomes the probe's final value |
| DeviceList.PciDevices.ScanBus | src/hw/pcidevice.c:50-108 | the foreachbdf loop over one bus produces exactly the state of the specification's scan of that bus's functions |
| DeviceList.PciDevices.AddDevice | src/hw/pcidevice.c:60-107 | the loop body for one function produces exactly one step of the specification |
| DeviceList.PciDevices.FindParent | src/hw/pcidevice.c:67-80 | the parent lookup yields the specification's root-bus counter, last bus, MaxPCIBus and root bus; the list is unchanged |
| DeviceList.PciDevices.NoteBridge | src/hw/pcidevice.c:94-105 | reads the secondary bus only for bridge and CardBus headers and updates busdevs and MaxPCIBus as the specification's Record does |
| DeviceList.PciDevices.FindDevice | src/hw/pcidevice.c:119-127 | returns the first device in list order with both ids, or none if no device has them |
| DeviceList.PciDevices.FindClass | src/hw/pcidevice.c:131-139 | returns the first device in list order of that class, or none if no device has it |
| DeviceList.PciDevices.FindInitDevice | src/hw/pcidevice.c:195-203 | returns the first device in list order the table accepts, and the callback its first matching entry names; no device and no callback when none is accepted |
| DeviceList.PciDevices.EnableBusmaster | src/hw/pcidevice.c:207-212 | sets the bus-master bit of the command word and marks only that device as driven |
| DeviceList.PciDevices.EnableIoBar | src/hw/pcidevice.c:216-232 | returns IoBarBase of the BAR read; a rejected BAR changes nothing, an accepted one turns on I/O decoding and marks only that device as driven |
| DeviceList.PciDevices.EnableMemBar | src/hw/pcidevice.c:248-280 | returns MemBarBase of the BAR and its upper dword; a rejected BAR changes nothing, an accepted one turns on memory decoding and marks only that device as driven |
| PciIrq.Root | src/fw/pciinit.c:151-154 | the parent walk ends at a listed device at or before the start that has no parent |
| PciIrq.PiixIrq | src/fw/pciinit.c:147-157 | the PIIX routing always yields one of the pci_irqs lines, 10 or 11 |
| PciIrq.MchIrq | src/fw/pciinit.c:159-173 | the Q35 routing always yields one of the pci_irqs lines, 10 or 11 |
| PciIrq.PiixSwizzle | src/fw/pciinit.c:147-157 | a device behind a bridge gets the line its parent would get on the pin rotated by the device's slot |
| PciIrq.MchSwizzle | src/fw/pciinit.c:159-173 | a device behind a bridge gets the line its parent would get on the pin rotated by the device's slot |
| PciIrq.PiixRootBus | src/fw/pciinit.c:155-156 | on a root bus, pin p of slot s gets pci_irqs[(p + s - 2) & 3] |
| PciIrq.MchHighSlots | src/fw/pciinit.c:166-172 | root-bus slots 25 to 31 all route like LNKA: pin p gets pci_irqs[(p - 1) & 3] whatever the slot |
| PciIrq.Walk | src/fw/pciinit.c:149-154 | the while loop sums the device numbers of the chain below the root-bus ancestor and stops at that ancestor |
| PciIrq.PiixSlotGetIrq | src/fw/pciinit.c:147-157 | returns PiixIrq, so the swizzle and root-bus rules above apply |
| PciIrq.MchSlotGetIrq | src/fw/pciinit.c:159-173 | returns MchIrq, so the swizzle and high-slot rules above apply |
| PciRegion.InsertPos | src/fw/pciinit.c:1051-1054 | the insertion point is the first entry ranking below the new one (smaller align, or equal align and smaller size), scanning from the head |
| PciRegion.Insert | src/fw/pciinit.c:1046-1056 | the new entry is linked in at InsertPos; PciRegion.InsertSorted and PciRegion.InsertContents state that the list stays sorted and gains exactly that entry |
| PciRegion.RanksTransitive | src/fw/pciinit.c:1052 | the ranking test is a strict order on (align, size): its negation is transitive and it is asymmetric |
| PciRegion.InsertSorted | src/fw/pciinit.c:1046-1056 | inserting into a sorted ledger keeps it sorted by falling align and then falling size, with the new entry after every entry with an equal key and before every entry ranking below it |
| PciRegion.InsertContents | src/fw/pciinit.c:1046-1056 | insertion adds exactly the new entry and nothing else |
| PciRegion.AlignIsMax | src/fw/pciinit.c:980-988 | on a sorted ledger pci_region_align is the largest align of any entry and belongs to an entry, and it is 1 for an empty ledger |
| PciRegion.SumSizes | src/fw/pciinit.c:990-998 | the exact sum of sizes, at least the head's size |
| PciRegion.SumSizesAppend | src/fw/pciinit.c:990-998 | the exact sum over two concatenated lists is the sum of their sums |
| PciRegion.SumSizesBound | src/fw/pciinit.c:990-998 | every entry's size is at most the exact sum |
| PciRegion.RegionSum | src/fw/pciinit.c:990-998 | pci_region_sum equals the exact sum whenever that is below 2^64 |
| PciRegion.Sum | src/fw/pciinit.c:990-998 | the u64 accumulation loop returns the exact sum reduced modulo 2^64 |
| PciRegion.InsertSum | src/fw/pciinit.c:1046-1056 | insertion adds the new size to the exact sum |
| PciRegion.InsertEntry | src/fw/pciinit.c:1046-1056 | the insertion loop links the new entry in at InsertPos |
| PciRegion.Moved | src/fw/pciinit.c:1005-1014 | the migrated entries are entries of the list that are 64-bit and not a USB controller's |
| PciRegion.Stayed | src/fw/pciinit.c:1005-1014 | the entries left behind are entries of the list that are not migrated |
| PciRegion.MovedAppend | src/fw/pciinit.c:1005-1014 | migration of two concatenated lists is the concatenation of their migrations |
| PciRegion.StayedAppend | src/fw/pciinit.c:1005-1014 | what stays of two concatenated lists is the concatenation of what stays of each |
| PciRegion.SplitContents | src/fw/pciinit.c:1000-1015 | the migration loses and duplicates no entry, and the sizes of the two halves add up to the original sum |
| PciRegion.SplitMultiset | src/fw/pciinit.c:1000-1015 | the two halves together hold exactly the entries of the original list |
| PciRegion.SplitSizes | src/fw/pciinit.c:1000-1015 | the exact sums of the two halves add up to the original exact sum |
| PciRegion.SplitSorted | src/fw/pciinit.c:1000-1015 | both halves of the split of a sorted ledger are sorted |
| PciRegion.Migrate | src/fw/pciinit.c:1000-1015 | the source keeps exactly the non-migrated entries in order, and the migrated entries, in order, go in front of what the destination held |
| PciBar.BarOffset | src/fw/pciinit.c:81-97 | BARs 0 to 5 sit at 0x10 + 4i, below the ROM registers; the ROM slot is at 0x38 exactly when the header type (multi-function bit masked off) is a PCI-to-PCI bridge, else at 0x30 |
| PciBar.BarOffsetsTile | src/fw/pciinit.c:81-97 | distinct slots never overlap and BARs are consecutive dwords, so a 64-bit BAR's high dword is the next slot |
| PciBar.ReadbackAfterWrite | src/fw/pciinit.c:927-930 | the value read right after the sizing write holds the written bits where the register is writable and its old bits elsewhere |
| PciBar.SizeOf | src/fw/pciinit.c:938-953 | for a 32-bit BAR the size is ~(val & mask) + 1 truncated to 32 bits |
| PciBar.Truncation | src/fw/pciinit.c:952 | computing the size in 64 bits and truncating it gives the 32-bit computation |
| PciBar.ProbeKind | src/fw/pciinit.c:900-923 | the type is I/O exactly when bit 0 of the old value is set, prefetchable exactly for a memory BAR with bit 3 set, and 64-bit exactly for a memory BAR whose bits 1-2 read 2; the ROM slot is plain 32-bit memory |
| PciBar.SizingPow2 | src/fw/pciinit.c:927-953 | when the writable address bits of a 32-bit BAR are exactly bits k and up, the probe yields size 2^k |
| PciBar.AddressBitsRead | src/fw/pciinit.c:927-930 | after the all-ones write the address bits read back are exactly the writable ones |
| PciBar.LowBitsSize | src/fw/pciinit.c:952 | the complement-plus-one of a mask of bits k and up is 2^k |
| PciBar.SizingPow2Wide | src/fw/pciinit.c:938-949 | when the writable address bits of the combined 64-bit register are bits k and up, the probe yields size 2^k |
| PciBar.Sample | src/fw/pciinit.c:927-945 | one write, read back and restore leaves configuration space exactly as it was and returns the read-back value |
| PciBar.ProbeParts | src/fw/pciinit.c:895-955 | the probe result is the type, the size from the two read-back dwords under the mask, and the width, all decided by the old value |
| PciBar.Probe | src/fw/pciinit.c:886-957 | the specification of pci_bios_get_bar: type, size and width from the old value and the read-back dwords; PciBar.ProbeKind, PciBar.ProbeParts and PciBar.SizingPow2 state their meaning, PciBar.GetBar runs it |
| PciBar.BarKind | src/fw/pciinit.c:900-928 | the branches on the old value give the type, mask, width and sizing write of the specification |
| PciBar.GetBar | src/fw/pciinit.c:886-957 | pci_bios_get_bar returns the specification's probe result and leaves configuration space exactly as it was (both dwords written back) |
| PciBar.SetRegionAddr | src/fw/pciinit.c:114-121 | the BAR receives the low 32 bits of the address and, for a 64-bit BAR, the next dword the high 32 bits |
| PciBar.WriteBar | src/fw/pciinit.c:117-120 | the two pci_config_writel calls produce exactly the BarWrite state |
| PciBar.BarDecodes | src/fw/pciinit.c:114-121 | when the writable address bits are bits k and up and the address is 2^k-aligned, the BAR afterwards decodes exactly the address written |
| PciBar.BridgeIs64 | src/fw/pciinit.c:959-978 | a window is 64-bit if and only if it is prefetchable, the bridge's prefetchable range type says 64-bit (probed with 0xfff0fff0 when it reads 0), and every request below it is 64-bit |
| PciBar.BridgeRegionIs64 | src/fw/pciinit.c:959-978 | returns BridgeIs64 and leaves configuration space as it was, since the probe write is undone |
| PciBar.ByteReadback | src/fw/pciinit.c:1109-1111 | the base byte read after 0xff was written is the old byte merged with 0xff through its write mask |
| PciBar.BridgeHasRegion | src/fw/pciinit.c:1092-1112 | memory forwarding is always reported and changes nothing; for I/O and prefetchable memory the base byte receives 0xff, which is not undone, and forwarding is reported exactly when the byte then reads non-zero |
| PciBar.HasRegionBits | src/fw/pciinit.c:1109-1111 | a base byte with no writable bit reads back its own contents, and one with any writable bit reads back non-zero |
| PciBar.PortType | src/fw/pciinit.c:1066-1067 | the Express port type is a 4-bit field |
| PciBar.HotplugSupport | src/fw/pciinit.c:1059-1086 | with an Express capability, hot-plug is supported if and only if the port is a downstream or root port with a slot implemented; without one, if and only if an SHPC capability is found |
| PciBar.PortTypeValues | src/fw/pciinit.c:1066-1069 | root port and downstream port are flag values 0x40 and 0x60 in bits 4-7 |
| PciBus.PutByteStore | src/hw/pci.c:56-64 | a byte write on the configuration-space value is the one-byte Store of the accessor |
| PciBus.Reservation | src/fw/pciinit.c:810-816 | a bridge without a reservation capability asks for no bus reservation |
| PciBus.OverflowsCarry | src/fw/pciinit.c:817-818 | the 8-bit wrap-around test flags a reservation exactly when secondary bus plus reservation exceeds 255 |
| PciBus.Subordinate | src/fw/pciinit.c:808-833 | without a reservation the subordinate bus is the highest bus the subtree reached |
| PciBus.SubordinateReserves | src/fw/pciinit.c:823-827 | a reservation that fits and reaches past the subtree sets the subordinate bus to secondary + reservation |
| PciBus.SubordinateOverflow | src/fw/pciinit.c:817-827 | an overflowing reservation counts as 0: the subordinate bus is the secondary bus if that lies past the subtree, else 0 |
| PciBus.SubordinateRawCount | src/fw/pciinit.c:816-833 | a reservation that fits but does not reach past the subtree leaves the subordinate bus at the raw reservation count |
| PciBus.SubordinateBelowSubtree | src/fw/pciinit.c:816-833 | so the subordinate bus can fall below the subtree: 1 while buses 2 and 3 sit behind the bridge |
| PciBus.Open | src/fw/pciinit.c:781-803 | opening a bridge leaves the counter at its new secondary bus (old counter + 1, wrapping in 8 bits) and changes no register enumeration reads |
| PciBus.Finish | src/fw/pciinit.c:808-837 | closing a bridge changes no register enumeration reads and, without a reservation capability, keeps the counter the subtree left |
| PciBus.Close | src/fw/pciinit.c:808-836 | without a reservation capability the subordinate bus is the counter the subtree left |
| PciBus.ExtraRoots | src/fw/pciinit.c:860-865 | the extra-roots loop uses at most its bound of turns and, if it stops with turns to spare, stops with the counter at 0xff |
| PciBus.ExtraRootsStep | src/fw/pciinit.c:861-864 | one turn of the extra-roots loop raises the counter by one and numbers the bus it then names |
| PciBus.ClearOneRegs | src/fw/pciinit.c:764-771 | after the first loop's body a bridge reads secondary 255 and subordinate 0 in every writable bit |
| PciBus.PutByteRead | src/hw/pci.c:56-64 | the byte a write reaches reads back merged through its write mask |
| PciBus.SameIdsAt | src/hw/pci.c:148-176 | spaces with the same id registers read the same vendor id, class and header type at every bdf |
| PciBus.PutByteIds | src/fw/pciinit.c:768-837 | writes to the bus number registers (at or above 0x10) change none of the id registers |
| PciBus.LowAgree | src/fw/pciinit.c:764-838 | spaces that agree on every byte below 0x10 agree on the id registers |
| PciBus.SameIdsTrans | src/fw/pciinit.c:764-838 | agreement on the id registers is transitive |
| PciBus.ScanSame | src/hw/pci.c:162-175 | the pci_next search gives the same answer on spaces with the same id registers |
| PciBus.NextSame | src/hw/pci.c:148-176 | pci_next gives the same answer on spaces with the same id registers, so numbering does not disturb enumeration |
| PciBus.ClearOneIds | src/fw/pciinit.c:766-770 | the first loop's body changes no id register |
| PciBus.ClearAtIds | src/fw/pciinit.c:764-771 | the first loop changes no id register |
| PciBus.NumberOneBridge | src/fw/pciinit.c:789-806 | in the depth-first count a bridge takes the next bus number and its subtree is counted from there |
| PciBus.InitBusNumbers | src/fw/pciinit.c:753-839 | pci_bios_init_bus_rec changes no id register and, without reservation capabilities, leaves the counter at the depth-first count of the bridges below the bus (secondary numbers handed out consecutively in that order) |
| PciBus.WalkNumbers | src/fw/pciinit.c:773-838 | the second loop changes no id register and, without reservations, advances the counter by the depth-first count from the cursor on |
| PciBus.RenumberIds | src/fw/pciinit.c:781-798 | the primary and secondary bus writes change no id register |
| PciBus.SubtreeNumbers | src/fw/pciinit.c:806 | the recursive call changes no id register and, without reservations, counts the subtree from the secondary bus |
| PciBus.StepNumbers | src/fw/pciinit.c:774-837 | one second-loop body changes no id register and, without reservations, advances the counter by that bridge's depth-first count |
| PciBus.CloseNumbers | src/fw/pciinit.c:808-837 | closing a bridge whose subtree followed the depth-first count keeps that count |
| PciBus.WriteByte | src/hw/pci.c:56-64 | pci_config_writeb performs exactly PutByte |
| PciBus.ClearBridge | src/fw/pciinit.c:766-770 | the first loop's body gives a bridge secondary 255 and subordinate 0, and leaves other functions alone |
| PciBus.ClearBus | src/fw/pciinit.c:764-771 | the first loop over the bus is the specification's ClearAt from the bus's first function |
| PciBus.InitBusRec | src/fw/pciinit.c:753-839 | pci_bios_init_bus_rec leaves configuration space and the counter as InitBus says; PciBusLayout.InitBusRegs and PciBusLayout.InitBusBridges state what the bus registers then read |
| PciBus.InitBus | src/fw/pciinit.c:753-839 | the specification of pci_bios_init_bus_rec: the first loop over the bus's functions, then the second from the bus's first function; PciBusLayout.InitBusRegs states the bus registers it leaves and PciBus.InitBusRec runs it |
| PciBus.WalkAt | src/fw/pciinit.c:773-838 | the second loop from function n on: one BridgeStep for each function NextBdf visits; PciBusLayout.WalkRegs states the bus registers it leaves |
| PciBus.BridgeStep | src/fw/pciinit.c:774-837 | a function that is not a bridge is left alone; a bridge gets primary = bus, secondary = counter + 1 and subordinate 255, its subtree is numbered, then the subordinate and the counter take the subtree's last number (or the reservation); PciBusLayout.StepRegs states the registers |
| PciBus.WalkBus | src/fw/pciinit.c:773-838 | the second loop over the bus is the specification's WalkAt from the bus's first function |
| PciBus.NumberBridge | src/fw/pciinit.c:774-837 | the second loop's body is exactly one BridgeStep |
| PciBus.OpenBridge | src/fw/pciinit.c:781-803 | forces the primary bus, sets the secondary to counter + 1 and the subordinate to 255, and returns the subordinate read before that write |
| PciBus.CloseBridge | src/fw/pciinit.c:808-837 | writes the subordinate bus Close computes and returns it as the new counter |
| PciBus.SetBusNumbers | src/fw/pciinit.c:781-798 | the primary and secondary bus registers are written only when they differ from the wanted values |
| PciBus.ResBus | src/fw/pciinit.c:809-829 | res_bus is Subordinate of the counter, the secondary bus and the bridge's reservation |
| PciBus.InitBusAll | src/fw/pciinit.c:852-866 | pci_bios_init_bus numbers from the host bus with the counter at 0, then each extra root bus, as InitAll says; PciBusLayout.InitAllRegs states what the bus registers then read |
| PciBus.InitAll | src/fw/pciinit.c:852-866 | the specification of pci_bios_init_bus: the host bus with the counter at 0, then the extra-roots loop when extraroots is non-zero; PciBusLayout.InitAllRegs states the bus registers it leaves |
| PciBus.ExtraRootsLoop | src/fw/pciinit.c:860-865 | the extra-roots loop is the specification's ExtraRoots |
| PciBusLayout.LayoutKeys | src/fw/pciinit.c:773-838 | every bridge the layout of a bus names is a function of that bus or of a bus numbered after the starting counter, and its numbers satisfy primary < secondary <= subordinate, with secondary above the starting counter and subordinate at most the last number used |
| PciBusLayout.LayoutCovers | src/fw/pciinit.c:773-806 | among the functions of the bus itself the layout names exactly the bridges foreachbdf visits, each with the bus as primary |
| PciBusLayout.PutBusReg | src/hw/pci.c:56-64 | a byte write to a fully writable bus number register sets that register of the function to the byte and changes no other bus number register of any function |
| PciBusLayout.ClearAtFrame | src/fw/pciinit.c:764-771 | the first loop creates no register and changes no bus number register outside the bus's functions from the cursor on |
| PciBusLayout.RenumberRegs | src/fw/pciinit.c:781-798 | with writable registers the bridge reads the bus as primary and the new number as secondary; its subordinate and every other function's registers are unchanged |
| PciBusLayout.OpenRegs | src/fw/pciinit.c:781-803 | opening a bridge with the counter at c leaves it reading primary bus, secondary c + 1 and subordinate 255, with the counter at c + 1 and no other function changed |
| PciBusLayout.FinishRegs | src/fw/pciinit.c:808-837 | without a reservation capability the close writes the counter the subtree left as subordinate and keeps that counter; nothing else reads differently |
| PciBusLayout.InitBusRegs | src/fw/pciinit.c:753-839 | with fully writable bus number registers, no reservation capability and enough numbers, pci_bios_init_bus_rec leaves every bridge of the layout reading exactly its primary, secondary and subordinate, the counter at the layout's last number, and no bus number register outside the bus and the newly numbered buses changed |
| PciBusLayout.WalkRegs | src/fw/pciinit.c:773-838 | the same for the second loop from a cursor on: the bridges from there on follow the layout and nothing outside changes |
| PciBusLayout.StepRegs | src/fw/pciinit.c:774-837 | one second-loop body leaves a bridge with primary bus, secondary counter + 1 and subordinate the last number its subtree used, its subtree laid out, and a function that is no bridge untouched |
| PciBusLayout.SubtreeRegs | src/fw/pciinit.c:806 | the recursive call numbers the secondary bus's tree as its layout says and touches nothing else |
| PciBusLayout.ExtraRootsRegs | src/fw/pciinit.c:860-865 | each extra root bus, numbered from the counter plus one, leaves its bridges with their layout's numbers and the counter at the last number used |
| PciBusLayout.InitAllRegs | src/fw/pciinit.c:852-866 | pci_bios_init_bus leaves the counter at the last number of the host tree's layout (and the extra roots' when there are any) and every bridge of those trees reading the layout's numbers |
| PciBusLayout.InitBusBridges | src/fw/pciinit.c:773-806 | after pci_bios_init_bus_rec every bridge foreachbdf visits on the bus reads the bus as primary and the layout's secondary and subordinate |
| PciAlloc.WithReg | src/fw/pciinit.c:1162-1163 | replacing one region of a bus changes that region only and keeps the bus's bridge |
| PciAlloc.Bridges | src/fw/pciinit.c:1133-1134 | the bus_dev of every bus, in bus order |
| PciAlloc.Create | src/fw/pciinit.c:1031-1057 | filing a request never changes any bus's bridge |
| PciAlloc.Home | src/fw/pciinit.c:1136-1141 | a device's requests go to its own bus when that bus has a bridge (or is bus 0), and to busses[0] otherwise |
| PciAlloc.BarInfos | src/fw/pciinit.c:1143-1152 | one probe result for each of the seven BAR slots |
| PciAlloc.ReqSize | src/fw/pciinit.c:1158-1159 | the requested size is at least the probed size and positive; a memory request is at least 0x1000, and the size changes only when a memory BAR is raised to exactly 0x1000 |
| PciAlloc.RequestsWellFormed | src/fw/pciinit.c:1143-1170 | every request is for an implemented BAR from the start slot on, with align equal to size, and requests come in increasing slot order with a 64-bit BAR's high slot left out |
| PciAlloc.RequestsComplete | src/fw/pciinit.c:1143-1170 | every slot that is not passed over on a bridge, probes non-zero and is not the high half of a 64-bit BAR gets a request |
| PciAlloc.RequestsHead | src/fw/pciinit.c:1152-1169 | an implemented slot's request heads the list, followed by the requests from the next slot, or from the one after for a 64-bit BAR |
| PciAlloc.CreateAll | src/fw/pciinit.c:1162-1166 | filing a device's requests never changes any bus's bridge |
| PciAlloc.Adopt | src/fw/pciinit.c:1133-1134 | recording a bridge as bus_dev keeps the number of busses |
| PciAlloc.CheckDevice | src/fw/pciinit.c:1132-1170 | one iteration of the first loop keeps the number of busses |
| PciAlloc.CheckAll | src/fw/pciinit.c:1132-1171 | the first loop keeps the number of busses |
| PciAlloc.WindowAlign | src/fw/pciinit.c:1197-1198 | a window's align is at least its type's minimum (0x1000 for I/O, 2 MiB otherwise) and the largest align behind it, and is one of the two |
| PciAlloc.WindowCovers | src/fw/pciinit.c:1236-1251 | without wrap-around, the window holds what it must and the hint, and is the least multiple of align doing so (except that an I/O hint is taken as it is) |
| PciAlloc.WindowHotplug | src/fw/pciinit.c:1239-1241 | an empty bus with hot-plug support gets one align of room unless the window is optional |
| PciAlloc.WindowEmpty | src/fw/pciinit.c:1239-1251 | an empty bus without hot-plug, or the I/O window of an Express bridge, with no hint gets an empty window |
| PciAlloc.WindowHint | src/fw/pciinit.c:1242-1248 | a hint larger than the requests wins: as it is for I/O, rounded up to align for memory |
| PciAlloc.WindowEntry | src/fw/pciinit.c:1196-1256 | a window request names the bridge, has bar -1 and the window's type, and an align at least the type's minimum and the largest align behind it |
| PciAlloc.BridgeWindow | src/fw/pciinit.c:1196-1262 | one window type of a bridge never changes any bus's bridge |
| PciAlloc.BridgeWindows | src/fw/pciinit.c:1196-1262 | the type loop never changes any bus's bridge |
| PciAlloc.BusStep | src/fw/pciinit.c:1177-1263 | one secondary bus's windows never change any bus's bridge, and every bridge keeps leading to its bus |
| PciAlloc.Trace | src/fw/pciinit.c:1177 | the states of the second loop start at its initial state and end at its result |
| PciAlloc.TraceAt | src/fw/pciinit.c:1177 | round i handles secondary bus sb - i, and the loop ends at bus 0 or right after the first failure |
| PciAlloc.TraceStep | src/fw/pciinit.c:1177-1263 | round i of the second loop is the body for secondary bus sb - i, and the loop ends at bus 0 or right after the first failure |
| PciAlloc.CreateOk | src/fw/pciinit.c:1031-1057 | filing a well-formed request keeps every ledger sorted, of its own type and well formed |
| PciAlloc.CreateAllOk | src/fw/pciinit.c:1162-1166 | filing a device's requests keeps every ledger sorted and well formed |
| PciAlloc.CheckAllBridges | src/fw/pciinit.c:1132-1171 | the first loop keeps every bus's bridge leading to that bus |
| PciAlloc.CheckDeviceOk | src/fw/pciinit.c:1132-1170 | one device's requests keep every ledger sorted and well formed |
| PciAlloc.CheckAllOk | src/fw/pciinit.c:1132-1171 | the first loop keeps every ledger sorted and well formed |
| PciAlloc.BridgeWindowsOk | src/fw/pciinit.c:1196-1262 | a bridge's window requests keep every ledger sorted and well formed |
| PciAlloc.WindowOk | src/fw/pciinit.c:1196-1262 | one window request keeps every ledger sorted and well formed, and every bridge leading to its bus |
| PciAlloc.BusStepOk | src/fw/pciinit.c:1177-1263 | one secondary bus's windows keep every ledger sorted and well formed |
| PciAlloc.PropagateOk | src/fw/pciinit.c:1177-1263 | the second loop keeps every ledger sorted and well formed and leaves the bridges alone |
| PciAlloc.Propagate | src/fw/pciinit.c:1177-1263 | the second loop: BusRound from the highest secondary bus down to bus 1, stopping at the first failure; PciAlloc.PropagateOk states the ledger invariant it keeps |
| PciAlloc.CheckDevices | src/fw/pciinit.c:1124-1265 | the specification of pci_bios_check_devices: the device loop from empty ledgers, then Propagate from MaxPCIBus; PciAlloc.CheckDevicesOk and PciAlloc.BiosCheckDevices state what it ends in |
| PciAlloc.CheckDevicesOk | src/fw/pciinit.c:1124-1265 | after pci_bios_check_devices, failed or not, every ledger is sorted by falling align and size, holds only its own type and well-formed requests, and every bridge leads to its bus |
| PciAlloc.CreateEntry | src/fw/pciinit.c:1031-1057 | pci_region_create_entry changes the bus array exactly as Create says and reports the allocation failure |
| PciAlloc.CreateAllCons | src/fw/pciinit.c:1162-1166 | filing a request in front of others is one Create followed by the rest |
| PciAlloc.FileRequest | src/fw/pciinit.c:1162-1166 | files the first of a run of requests and stops on a failed allocation |
| PciAlloc.ProbeSlot | src/fw/pciinit.c:1152 | pci_bios_get_bar for one slot returns that slot's probe result and restores configuration space |
| PciAlloc.RequestSlot | src/fw/pciinit.c:1143-1169 | one slot of the BAR loop advances by one slot, or two after a 64-bit BAR, filing exactly the requests of the passed slots |
| PciAlloc.DeviceRequests | src/fw/pciinit.c:1143-1170 | the BAR loop files exactly the device's requests in slot order and leaves configuration space as it was |
| PciAlloc.DeviceStep | src/fw/pciinit.c:1133-1170 | one iteration of foreachpci changes the bus array as CheckDevice says |
| PciAlloc.DeviceLoop | src/fw/pciinit.c:1132-1171 | the first loop changes the bus array as CheckAll says and leaves configuration space as it was |
| PciAlloc.WindowRequest | src/fw/pciinit.c:1197-1253 | computes WindowEntry and leaves configuration space as it was |
| PciAlloc.WindowSizing | src/fw/pciinit.c:1236-1251 | the window's align and size are WindowAlign and WindowSize of the list's align and u64 sum |
| PciAlloc.Window | src/fw/pciinit.c:1197-1261 | one type of the window loop changes configuration space and the bus array as BridgeWindow says |
| PciAlloc.Windows | src/fw/pciinit.c:1196-1262 | the type loop changes configuration space and the bus array as BridgeWindows says |
| PciAlloc.BusWindows | src/fw/pciinit.c:1178-1262 | one iteration of the second loop is BusStep |
| PciAlloc.BridgeRound | src/fw/pciinit.c:1178-1262 | round i moves the state from trace entry i to entry i + 1, and it is the last round exactly on failure or at bus 1 |
| PciAlloc.BridgeLoop | src/fw/pciinit.c:1177-1263 | the second loop, from MaxPCIBus down to bus 1, changes configuration space and the bus array as Propagate says |
| PciAlloc.BiosCheckDevices | src/fw/pciinit.c:1124-1265 | pci_bios_check_devices ends in the specification's state and returns 0 if every request was filed and -1 if an allocation failed |
| PciMap.Down64 | src/fw/pciinit.c:1338-1341 | ALIGN_DOWN gives the largest multiple of the alignment at or below the value |
| PciMap.Up64 | src/fw/pciinit.c:1474-1481 | ALIGN gives the least multiple of the alignment at or above the value when the sum does not wrap |
| PciMap.RootIoBase | src/fw/pciinit.c:1284-1312 | the root I/O base is always 0xc000 or 0x1000 |
| PciMap.RootIoFits | src/fw/pciinit.c:1284-1312 | the root I/O region lies in 0x1000-0xffff; 0xc000 exactly when the sum is below 0x4000, 0x1000 only when that hole is too small and the region ends below pci_io_low_end, and failure exactly when neither hole fits |
| PciMap.RootIoLowEndWraps | src/fw/pciinit.c:1303 | with pci_io_low_end below 0x1000 the u64 difference wraps, so any sum from 0x4000 up is placed at 0x1000 |
| PciMap.RootMem | src/fw/pciinit.c:1325-1349 | the region with the smaller alignment (PrefMem on a tie) is placed below pcimem_end and the other below it, and the placement succeeds exactly when the lower base lies in [pcimem_start, pcimem_end] |
| PciMap.BelowFits | src/fw/pciinit.c:1336-1341 | without wrap-around a region placed below a top is aligned, ends at or below the top, and no aligned base above it would still fit |
| PciMap.RootMemLayout | src/fw/pciinit.c:1325-1349 | without wrap-around both root memory regions are aligned, end at or below pcimem_end, do not overlap, are each as high as they can go, and the placement succeeds exactly when both lie at or above pcimem_start |
| PciMap.TwoStepAlign | src/fw/pciinit.c:1474-1478 | rounding up to a power-of-two alignment and then to 1 GiB gives a multiple of both, at most align + 1 GiB above |
| PciMap.HighLayout | src/fw/pciinit.c:1465-1481 | without wrap-around r64_mem starts above RAM and etc/reserved-memory-end, r64_pref follows it without overlap, both bases are multiples of 1 GiB and of their alignment, and pcimem64_end, a multiple of 1 GiB, covers r64_pref |
| PciMap.IoWindowRoundTrip | src/fw/pciinit.c:1386-1391 | an I/O window on 256-byte boundaries in the first 64 KiB reads back from its base and limit registers: base * 256 is the base, limit * 256 + 255 the last port |
| PciMap.MemWindowRoundTrip | src/fw/pciinit.c:1394-1397 | a 32-bit memory window on 64 KiB boundaries reads back from its 16-bit base and limit registers |
| PciMap.PrefWindowRoundTrip | src/fw/pciinit.c:1398-1403 | a prefetchable window on 64 KiB boundaries anywhere in the 64-bit space reads back from its 16-bit and upper-32 registers |
| PciMap.BridgeWriteFrame | src/fw/pciinit.c:1385-1403 | programming a bridge window writes only the window registers at offsets 0x1c-0x33 and keeps the configuration mechanism |
| PciMap.BookStep | src/fw/pciinit.c:1422-1433 | one iteration unlinks the head request of its region and leaves every other bus region's list alone |
| PciMap.MapStep | src/fw/pciinit.c:1422-1433 | one iteration with its configuration write unlinks the head request and leaves every other list alone |
| PciMap.MapWalk | src/fw/pciinit.c:1417-1434 | pci_region_map_entries empties the walked region's list and leaves every other list alone |
| PciMap.MapWalkBook | src/fw/pciinit.c:1417-1434 | the walk's bus regions do not depend on the configuration writes it makes |
| PciMap.Book | src/fw/pciinit.c:1417-1434 | the bookkeeping of pci_region_map_entries keeps the number of busses, leaves configuration space alone and empties the walked list |
| PciMap.MapWalkFits | src/fw/pciinit.c:1417-1434 | the walk keeps every remaining request naming a BAR or a bus in the array |
| PciMap.EntryAddr | src/fw/pciinit.c:1423-1425 | the address of the i-th request is the base plus the sizes before it, when that does not wrap |
| PciMap.BookStepOther | src/fw/pciinit.c:1426-1428 | one iteration changes another bus region only when the head request is a bridge window for it, and then only its base, to the head's address |
| PciMap.BookStepOwn | src/fw/pciinit.c:1423-1425 | one iteration moves the region's base past the head request |
| PciMap.MapWalkBase | src/fw/pciinit.c:1422-1425 | after the walk the region's base is its old base plus the sum of the sizes, in u64 |
| PciMap.MapWalkProgram | src/fw/pciinit.c:1422-1430 | the walk programs request i, in list order, at the old base plus the sizes of requests 0 .. i-1 |
| PciMap.LastSeed | src/fw/pciinit.c:1426-1428 | the index found is a bridge window seeding the region, and no later request seeds it |
| PciMap.MapWalkSeeds | src/fw/pciinit.c:1426-1428 | after the walk every other bus region's base is the address of the last bridge window seeding it, or unchanged when none does |
| PciMap.EntryAddrExact | src/fw/pciinit.c:1423-1425 | without wrap-around each address is exact and the request ends within the region's total |
| PciMap.EntryAddrsDisjoint | src/fw/pciinit.c:1422-1425 | without wrap-around the addresses handed out lie in [base, base + sum) and no two requests overlap |
| PciMap.SweepPrefix | src/fw/pciinit.c:1492-1497 | the first i steps of the bus loop keep every request well formed and leave each region they walked empty |
| PciMap.SweepClears | src/fw/pciinit.c:1492-1497 | after the bus loop every request list of every bus is empty |
| PciMap.WriteWindow | src/fw/pciinit.c:1385-1403 | the bridge half of pci_region_map_one_entry changes configuration space as BridgeWrite says |
| PciMap.MapOneEntry | src/fw/pciinit.c:1368-1404 | pci_region_map_one_entry changes configuration space as MapOne says |
| PciMap.MapEntry | src/fw/pciinit.c:1422-1433 | one iteration over the array and the local region is MapStep |
| PciMap.MapEntries | src/fw/pciinit.c:1417-1434 | pci_region_map_entries changes the bus array, the local region and configuration space as MapWalk says |
| PciMap.SweepStep | src/fw/pciinit.c:1494-1496 | one pass of the inner loop moves the state one step along the bus loop's trace and keeps every request well formed |
| PciMap.SweepBus | src/fw/pciinit.c:1493-1496 | the inner loop for one bus moves the state three steps along the trace |
| PciMap.MapBusses | src/fw/pciinit.c:1491-1497 | the bus loop changes the bus array and configuration space as Sweep says |
| PciMap.SetBase | src/fw/pciinit.c:1302-1305 | setting one region's base changes that base only |
| PciMap.PlaceRoot | src/fw/pciinit.c:1338-1341 | busses[0]'s Mem and PrefMem bases are the placement's |
| PciMap.KeepLow | src/fw/pciinit.c:1457-1460 | migration leaves on busses[0] only the Mem and PrefMem requests that stay below 4 GiB, and changes nothing else |
| PciMap.MapHighEntriesClears | src/fw/pciinit.c:1484-1497 | the second attempt's mapping empties every request list of every bus |
| PciMap.MapDevicesClears | src/fw/pciinit.c:1446-1498 | when pci_bios_map_devices does not panic, every request of every bus has been mapped and unlinked |
| PciMap.MapDevicesSpec | src/fw/pciinit.c:1446-1498 | the specification of pci_bios_map_devices: root I/O window, root memory with the retry that moves 64-bit requests above 4 GiB, then the bus mapping; a failed root I/O or second memory placement is a panic (ok == false) |
| PciMap.InitRootIo | src/fw/pciinit.c:1284-1312 | returns 0 with busses[0]'s I/O base set exactly when RootIoBase finds a hole, and -1 with nothing changed otherwise |
| PciMap.InitRootMem | src/fw/pciinit.c:1325-1349 | writes both bases as RootMem places them and returns 0 exactly when the placement succeeds, else -1 |
| PciMap.MigrateRoot | src/fw/pciinit.c:1454-1460 | busses[0] keeps only what stays below 4 GiB and the two local lists receive exactly the moved Mem and PrefMem requests |
| PciMap.HighWindows | src/fw/pciinit.c:1465-1481 | computes the r64_mem and r64_pref bases and pcimem64_end as HighPlacement says |
| PciMap.MapHighRegions | src/fw/pciinit.c:1484-1497 | the mapping of the two local lists and then every bus changes state as MapHighEntries says |
| PciMap.MapHigh | src/fw/pciinit.c:1454-1485 | the second attempt changes the busses, configuration space and pcimem globals as MapHighSpec says and reports the panic |
| PciMap.MapDevices | src/fw/pciinit.c:1446-1498 | pci_bios_map_devices changes the busses, configuration space and pcimem globals as MapDevicesSpec says, with a panic as ok == false |
| Post.IvtLayersDisjoint | src/post.c:42-70 | the layers of ivt_init do not collide: the two PIC ranges are apart, no software handler sits on a hardware or cleared vector, and no cleared vector is a hardware one |
| Post.IvtRouting | src/post.c:37-46 | every hardware IRQ vector ends with its PIC's handler and every other unlisted vector with the default handler |
| Post.IvtEntry | src/post.c:37-70 | the final content of each vector after ivt_init, later writes taking precedence; Post.IvtRouting and Post.IvtLayersDisjoint state its layers |
| Post.InterruptTable.SetSoftwareLow | src/post.c:49-54 | the software handlers below vector 0x14 are installed and every other vector keeps its value |
| Post.InterruptTable.SetSoftwareHigh | src/post.c:55-62 | the software handlers from vector 0x14 up are installed and every other vector keeps its value |
| Post.InterruptTable.Init | src/post.c:33-71 | after ivt_init each of the 256 vectors holds its final entry: 0:0 for 0x60-0x66 and 0x79, else its software handler, else its PIC's handler, else the default |
| Post.Store32 | src/post.c:309 | a word store keeps the memory's length and every byte outside the four it writes |
| Post.LoadStore | src/post.c:309 | a stored word reads back |
| Post.ApplyRelocs | src/post.c:305-310 | applying relocations keeps the memory's length |
| Post.ApplyRelocsFrame | src/post.c:305-310 | a byte no relocation covers keeps its value |
| Post.ApplyRelocsWord | src/post.c:305-310 | with non-overlapping relocations every relocated word grows by delta modulo 2^32 |
| Post.RelocDelta | src/post.c:339 | delta is the u32 that carries codesrc to codedest modulo 2^32 |
| Post.UpdateRelocs | src/post.c:305-310 | updateRelocs changes memory exactly as ApplyRelocs says |
| Post.RelocatedEntry | src/post.c:350-351 | a function inside the init code moves by the relocation delta, modulo 2^32, and any other function stays |
| Post.RelocatedOffset | src/post.c:339-351 | a relocated init function lands inside the copy, at the same offset from its start |
| Post.Relocated | src/post.c:342-347 | the three relocation passes keep the memory's length |
| Post.PatchRelocs | src/post.c:342-347 | the three updateRelocs calls change memory as Relocated says: absolute and init relocations by +delta, relative ones by -delta |
| Post.RelocPreinit | src/post.c:322-356 | without CONFIG_RELOCATE_INIT the function is called in place and memory is left alone; without space the firmware panics; otherwise memory is relocated and the relocated entry is called |
| Post.PostFlags.CodeMutablePreinit | src/post.c:365-375 | the first call clears the CMOS reset code and sets HaveRunPost; a later call changes nothing |
| Post.AfterPreinit | src/post.c:365-375 | HaveRunPost is always set afterwards, and CMOS changes only on the first call |
| Post.PreinitIdempotent | src/post.c:367-369 | code_mutable_preinit is idempotent |
| Post.EbdaSeg | src/post.c:81-86 | the EBDA segment is a u16, and without CONFIG_MALLOC_UPPERMEMORY it is a multiple of 64 (a KiB boundary) |
| Post.MemSizeKb | src/post.c:88 | mem_size_kb is the whole number of KiB below the EBDA segment, exact when the segment lies on a KiB boundary |
| Ps2Port.Receive | src/hw/ps2port.c:121 | the receive count of a command word is below 16 |
| Ps2Port.Send | src/hw/ps2port.c:122 | the send count of a command word is below 16 |
| Ps2Port.CommandWordFields | src/hw/ps2port.h:24-27 | a command word built from an opcode, a receive count and a send count decodes back to those three fields |
| Ps2Port.WctrCommand | src/hw/ps2port.h:30 | WCTR is opcode 0x60 with one byte sent and none received |
| Ps2Port.AuxSendCommand | src/hw/ps2port.h:39 | AUX_SEND is opcode 0xd4 with one byte sent and none received |
| Ps2Port.KbdEnableCommand | src/hw/ps2port.h:35 | KBD_ENABLE is opcode 0xae and carries no bytes |
| Ps2Port.CommandTable | src/hw/ps2port.h:29-58 | RCTR and the self tests receive one byte, GETID two (the keyboard and mouse words are equal), keyboard RESET_BAT one and mouse RESET_BAT two, SETLEDS, SSCANSET, SETRES and SETRATE send one, GETINFO receives three |
| Ps2Port.ResetBatOpcodes | src/hw/ps2port.h:44-58 | both RESET_BAT words have opcode 0xff; GETID is 0xf2 and mouse ENABLE 0xf4 |
| Ps2Port.StatusRoundTrip | src/hw/ps2port.h:61-68 | OBF, IBF and AUXDATA are distinct bits: encoding a status and decoding it gives it back |
| Ps2Port.RegisterBits | src/hw/ps2port.h:61-76 | OBF, IBF and AUXDATA are distinct single bits, and so are KBDINT, AUXINT, KBDDIS, AUXDIS and XLATE |
| Ps2Port.StatusBitsKept | src/hw/ps2port.h:61-68 | decoding a status byte keeps exactly its OBF, IBF and AUXDATA bits |
| Ps2Port.Wait | src/hw/ps2port.c:32-69 | a wait returns 0 or -1, writes nothing, and on success has just polled a ready sample |
| Ps2Port.WaitStep | src/hw/ps2port.c:32-69 | one attempt: a ready sample ends the wait with 0, an unready one leaves the same wait with one attempt fewer, no attempt left fails without polling |
| Ps2Port.WaitPolls | src/hw/ps2port.c:32-69 | a successful wait stops within its attempts, a failed one polls all of them, and no sample passed over was ready |
| Ps2Port.Flush | src/hw/ps2port.c:84-102 | a flush returns 0 or -1 and writes nothing |
| Ps2Port.FlushDrains | src/hw/ps2port.c:84-102 | a flush returns 0 at the first sample with OBF clear after dropping fewer than 16 bytes, and -1 after dropping 16; every byte dropped was announced by OBF |
| Ps2Port.DataWrites | src/hw/ps2port.c:134-141 | the data-port writes of the send loop are param[i..n), in order |
| Ps2Port.SendParamsLog | src/hw/ps2port.c:134-141 | the send loop writes exactly its bytes when it completes and a prefix of them when a wait fails |
| Ps2Port.RecvParamsFrame | src/hw/ps2port.c:147-154 | the receive loop touches only its own slots, also when it fails |
| Ps2Port.RecvParamsReads | src/hw/ps2port.c:147-154 | a completed receive loop stores in each slot the output byte of a sample with OBF set, at increasing positions |
| Ps2Port.CommandLog | src/hw/ps2port.c:119-156 | __i8042_command writes the opcode to 0x64 and then exactly the first send parameter bytes to 0x60, a prefix of that on failure, and leaves the bytes past the received ones alone |
| Ps2Port.WriteCtrLog | src/hw/ps2port.c:336 | writing the control register writes 0x60 to 0x64 and then the value to 0x60, or a prefix of that |
| Ps2Port.RecvByteAccepts | src/hw/ps2port.c:232-273 | a byte ps2_recvbyte returns is the data of the last sample polled, which had OBF set, came from the port aux names and, when an ACK was awaited, is an ACK or a NAK; every sample polled before it was dropped, so it is the first such byte; without a byte no polled sample passed and the last timer check had expired; each dropped sample is followed by one timer check and only the last check can have expired |
| Ps2Port.WriteByteLog | src/hw/ps2port.c:189-202 | a device byte that went out wrote the AUX_SEND prefix for the mouse and then the byte, and a failed one a prefix of that |
| Ps2Port.SendByteAck | src/hw/ps2port.c:280-303 | ps2_sendbyte succeeds exactly when the byte went out and the answer was ACK; a NAK fails |
| Ps2Port.TempCtrBits | src/hw/ps2port.c:331-332 | the temporary control value disables both ports and both interrupts and keeps every other bit |
| Ps2Port.TempCtr | src/hw/ps2port.c:331-332 | the first control value of __ps2_command; Ps2Port.TempCtrBits states its bits |
| Ps2Port.EnableCtrBits | src/hw/ps2port.c:345-349 | then only the addressed port is enabled again; the other port stays disabled, the interrupts stay off, every other bit is that of Ps2ctr |
| Ps2Port.EnableCtr | src/hw/ps2port.c:346-349 | the control value that enables the addressed port again; Ps2Port.EnableCtrBits states its bits |
| Ps2Port.Ps2EnabledLog | src/hw/ps2port.c:352-428 | a branch that ran successfully was preceded by the write of the one-port value |
| Ps2Port.Ps2CommandCtr | src/hw/ps2port.c:320-438 | __ps2_command leaves Ps2ctr where it found it, and a success wrote the temporary value and then the one-port value |
| Ps2Port.Ps2CommandRestores | src/hw/ps2port.c:430-437 | the last two writes of a successful command restore the original control value |
| Ps2Port.GetIdSecondByte | src/hw/ps2port.c:380-402 | on success GETID sent its command, param[0] is the first byte received after it, param[1] is the second byte received when param[0] is one of the six keyboard ids (0xab, 0xac, 0x2b, 0x5d, 0x60, 0x47) and 0 otherwise, and no slot past the second changes |
| Ps2Port.ResetBatReceives | src/hw/ps2port.c:358-379 | RESET_BAT stores one byte, and a second only when the word asks for more than one |
| Ps2Port.ExchangeFrame | src/hw/ps2port.c:403-426 | the general branch touches no slot past the received ones |
| Ps2Port.MouseCtrBits | src/hw/ps2port.c:492-501 | mouse ENABLE clears AUXDIS and sets AUXINT only with hardware interrupts; DISABLE sets AUXDIS and clears AUXINT; no other bit moves, and other commands keep Ps2ctr |
| Ps2Port.MouseCtr | src/hw/ps2port.c:492-501 | the Ps2ctr update of ps2_mouse_command; Ps2Port.MouseCtrBits states its bits |
| Ps2Port.KbdCommand | src/hw/ps2port.c:473-479 | without PS/2 support the keyboard command returns -1 and changes nothing |
| Ps2Port.MouseCommand | src/hw/ps2port.c:486-504 | without PS/2 support the mouse command returns -1 and changes nothing |
| Ps2Port.KbdCommandCtr | src/hw/ps2port.c:473-479 | a keyboard command leaves Ps2ctr as it found it |
| Ps2Port.MouseCommandCtr | src/hw/ps2port.c:486-504 | a mouse command leaves Ps2ctr at the ENABLE/DISABLE update of the value it found |
| Ps2Port.Handle74Accepts | src/hw/ps2port.c:513-536 | the mouse handler processes a byte exactly when PS/2 is supported, OBF and AUXDATA are set and AUXINT is on, and the byte is the one read |
| Ps2Port.Handle09Accepts | src/hw/ps2port.c:540-566 | the keyboard handler processes a byte exactly when PS/2 is supported, AUXDATA is clear and KBDINT is on, and afterwards writes at most KBD_ENABLE |
| Ps2Port.Route | src/hw/ps2port.c:583-589 | one byte read hands on at most one event |
| Ps2Port.DrainFromDrain | src/hw/ps2port.c:578-590 | the loop run after some bytes were handed on ends where draining does, with those bytes ahead |
| Ps2Port.DrainRouting | src/hw/ps2port.c:578-590 | the loop stops at the first sample with OBF clear, hands on fewer bytes than it read, mouse bytes only with AUXDIS clear and keyboard bytes only with KBDDIS clear |
| Ps2Port.CheckEventRouting | src/hw/ps2port.c:570-591 | polling reads nothing when both ports are disabled and routes mouse bytes only with AUXDIS clear and keyboard bytes only with KBDDIS clear |
| Ps2Port.SendParams | src/hw/ps2port.c:134-141 | the send loop returns 0 or -1, only appends to the port log and uses no timer check |
| Ps2Port.RecvParams | src/hw/ps2port.c:147-154 | the receive loop returns 0 or -1, keeps the parameter buffer's length, writes no port and uses no timer check |
| Ps2Port.Exec | src/hw/ps2port.c:119-183 | the exchange returns 0 or -1, keeps the parameter buffer's length and only appends to the port log |
| Ps2Port.Command | src/hw/ps2port.c:119-183 | __i8042_command returns 0 or -1, keeps the parameter buffer's length and only appends to the port log |
| Ps2Port.RecvByte | src/hw/ps2port.c:232-273 | ps2_recvbyte writes no port and polls at least one sample |
| Ps2Port.WriteByte | src/hw/ps2port.c:189-202 | a device byte write returns 0 or -1, only appends to the port log and uses no timer check |
| Ps2Port.SendByte | src/hw/ps2port.c:280-303 | ps2_sendbyte returns 0 or -1 and only appends to the port log |
| Ps2Port.ResetBat | src/hw/ps2port.c:358-379 | the RESET_BAT branch keeps the parameter buffer's length and only appends to the port log |
| Ps2Port.GetId | src/hw/ps2port.c:380-402 | the GETID branch keeps the parameter buffer's length and only appends to the port log |
| Ps2Port.SendBytes | src/hw/ps2port.c:412-417 | the send loop of the general branch returns 0 or -1 and only appends to the port log |
| Ps2Port.RecvBytes | src/hw/ps2port.c:419-424 | the receive loop of the general branch returns 0 or -1, keeps the parameter buffer's length and writes no port |
| Ps2Port.Exchange | src/hw/ps2port.c:403-426 | the general branch keeps the parameter buffer's length and only appends to the port log |
| Ps2Port.Ps2Body | src/hw/ps2port.c:358-426 | each of the three branches keeps the parameter buffer's length and only appends to the port log |
| Ps2Port.Ps2Enabled | src/hw/ps2port.c:345-428 | the middle of __ps2_command keeps the parameter buffer's length and only appends to the port log |
| Ps2Port.Ps2Command | src/hw/ps2port.c:320-460 | __ps2_command keeps the parameter buffer's length and only appends to the port log |
| Ps2Port.Handle74 | src/hw/ps2port.c:513-536 | handle_74 writes no port |
| Ps2Port.Handle09 | src/hw/ps2port.c:540-566 | handle_09 only appends to the port log |
| Ps2Port.Drain | src/hw/ps2port.c:578-590 | the loop of ps2_check_event writes no port and polls at least one sample |
| Ps2Port.CheckEvent | src/hw/ps2port.c:570-591 | ps2_check_event writes no port |
| Ps2Port.Controller.WaitFor | src/hw/ps2port.c:32-69 | i8042_wait_read and i8042_wait_write behave as Wait with 10000 attempts |
| Ps2Port.Controller.I8042Flush | src/hw/ps2port.c:84-102 | i8042_flush behaves as Flush |
| Ps2Port.Controller.SendParamLoop | src/hw/ps2port.c:134-141 | the send loop behaves as SendParams |
| Ps2Port.Controller.RecvParamLoop | src/hw/ps2port.c:147-154 | the receive loop behaves as RecvParams on the array |
| Ps2Port.Controller.I8042Command | src/hw/ps2port.c:119-183 | __i8042_command behaves as Command and leaves Ps2ctr alone |
| Ps2Port.Controller.WriteDeviceByte | src/hw/ps2port.c:189-202 | i8042_kbd_write and i8042_aux_write behave as WriteByte |
| Ps2Port.Controller.RecvDeviceByte | src/hw/ps2port.c:232-273 | ps2_recvbyte behaves as RecvByte |
| Ps2Port.Controller.SendDeviceByte | src/hw/ps2port.c:280-303 | ps2_sendbyte behaves as SendByte |
| Ps2Port.Controller.ResetBatBranch | src/hw/ps2port.c:358-379 | the RESET_BAT branch behaves as ResetBat |
| Ps2Port.Controller.GetIdBranch | src/hw/ps2port.c:380-402 | the GETID branch behaves as GetId |
| Ps2Port.Controller.SendBytesLoop | src/hw/ps2port.c:412-417 | the send loop of the general branch behaves as SendBytes |
| Ps2Port.Controller.RecvBytesLoop | src/hw/ps2port.c:419-424 | the receive loop of the general branch behaves as RecvBytes |
| Ps2Port.Controller.ExchangeBranch | src/hw/ps2port.c:403-426 | the general branch behaves as Exchange |
| Ps2Port.Controller.Ps2EnabledBody | src/hw/ps2port.c:345-428 | the middle of __ps2_command behaves as Ps2Enabled with Ps2ctr at the temporary value |
| Ps2Port.Controller.Ps2Cmd | src/hw/ps2port.c:320-460 | __ps2_command behaves as Ps2Command, Ps2ctr included |
| Ps2Port.Controller.KbdCmd | src/hw/ps2port.c:473-479 | ps2_kbd_command behaves as KbdCommand |
| Ps2Port.Controller.UpdateMouseCtr | src/hw/ps2port.c:492-501 | the Ps2ctr update of ps2_mouse_command is MouseCtr and polls nothing |
| Ps2Port.Controller.MouseCmd | src/hw/ps2port.c:486-504 | ps2_mouse_command behaves as MouseCommand |
| Ps2Port.Controller.MouseIrq | src/hw/ps2port.c:513-536 | handle_74 behaves as Handle74 |
| Ps2Port.Controller.KeyboardIrq | src/hw/ps2port.c:540-566 | handle_09 behaves as Handle09 |
| Ps2Port.Controller.DrainLoop | src/hw/ps2port.c:578-590 | the loop of ps2_check_event behaves as Drain |
| Ps2Port.Controller.CheckPs2Event | src/hw/ps2port.c:570-591 | ps2_check_event behaves as CheckEvent |
| Shadow.PamBase | src/fw/shadow.c:36-38 | ALIGN_DOWN(pam0, 4) is dword aligned, holds pam0 and leaves room for the second dword |
| Shadow.PamBytes | src/fw/shadow.c:24-27 | data8 holds the bytes of data32[0] and then those of data32[1], little-endian |
| Shadow.PamWordsRoundTrip | src/fw/shadow.c:24-27 | the union's two views agree: words to bytes and back gives the words |
| Shadow.PamBytesRoundTrip | src/fw/shadow.c:24-27 | the union's two views agree: bytes to words and back gives the bytes |
| Shadow.Writable | src/fw/shadow.c:43-49 | the edits touch only pam[0..6] of the window |
| Shadow.WritableOpensAll | src/fw/shadow.c:42-49 | afterwards every 16 KiB block of 0xc0000-0xeffff and the BIOS segment read and write RAM, and pam[0] has bit 0x10 set |
| Shadow.WritableIdempotent | src/fw/shadow.c:42-49 | making writable twice is making writable once |
| Shadow.ReadonlyBlocks | src/fw/shadow.c:105-123 | the BIOS segment becomes read-only; a ROM block is read-only exactly when ROMs reach its start and the ROM area covers it; the upper half of the segment where the loop stops becomes read-write when only its lower half is locked; every other block keeps its attribute |
| Shadow.WritableAfterReadonly | src/fw/shadow.c:42-49 | making writable undoes making read-only completely |
| Shadow.LockFromFrame | src/fw/shadow.c:112-120 | the segment loop edits only pam[1..6] |
| Shadow.LoadPam | src/fw/shadow.c:35-38 | the two pci_config_readl calls fill the union with the window as configuration space holds it |
| Shadow.StorePam | src/fw/shadow.c:53-55 | the two pci_config_writel calls store the union back |
| Shadow.PamRead | src/fw/shadow.c:36-38 | the two dword reads give the eight-byte window |
| Shadow.PamWrite | src/fw/shadow.c:53-55 | the two dword writes store the window's two dwords; Shadow.PamWriteRead is its partner |
| Shadow.PamWriteRead | src/fw/shadow.c:36-55 | when every bit of the two dwords is implemented and writable, reading the window right after storing it gives back exactly the stored bytes, on either access path |
| Shadow.EditWritable | src/fw/shadow.c:40-49 | the edits make the window Writable and return the old pam[0] & 0x10 |
| Shadow.WritableIntelBody | src/fw/shadow.c:31-63 | the PAM registers are written with the Writable window, and the BIOS is copied exactly when the old pam[0] lacked bit 0x10 |
| Shadow.WritableIntel | src/fw/shadow.c:71-91 | both paths, from flash or from RAM, have the same effect on the PAM registers |
| Shadow.EditReadonly | src/fw/shadow.c:111-123 | the segment loop and pam[0] := 0x10 make the window Readonly |
| Shadow.ReadonlyIntel | src/fw/shadow.c:94-128 | the PAM registers are written with the Readonly window |
| Shadow.ShadowPam | src/fw/shadow.c:159-171 | a recognised host bridge gets a PAM0 offset the union can hold |
| Shadow.FindShadowFirst | src/fw/shadow.c:151-178 | the search picks the first i440FX or Q35 host bridge and finds none only when there is none |
| Shadow.FindShadowBridge | src/fw/shadow.c:151-178 | the foreachbdf loop returns the bridge and PAM0 offset ShadowTarget names, or -1 |
| Shadow.LockFrom | src/fw/shadow.c:112-120 | the segment loop from any segment on keeps the eight-byte window |
| Shadow.Readonly | src/fw/shadow.c:105-123 | the edits of make_bios_readonly_intel keep the eight-byte window |
| Shadow.FindShadow | src/fw/shadow.c:151-178 | a host bridge found is one of the scanned functions whose ids name a supported bridge |
| Shadow.ShadowTarget | src/fw/shadow.c:151-178 | the PAM0 offset of the bridge found fits the eight-byte window |
| Shadow.ShadowState.MakeBiosWritable | src/fw/shadow.c:138-183 | without QEMU, on Xen or without a host bridge nothing changes; otherwise the bridge's PAM is opened, code_mutable_preinit runs and ShadowBDF records the bridge |
| Shadow.ShadowState.MakeBiosReadonly | src/fw/shadow.c:187-203 | without QEMU, on Xen or before a bridge was found nothing changes; otherwise the PAM is locked at the i440FX offset for an 82441 device id and at the Q35 offset for any other |
| StackDbg.Spaces | src/stack_dbg.c:30-32 | the indentation of entry i is exactly i blanks |
| StackDbg.PopIdx | src/stack_dbg.c:18-24 | the index drops by cnt when that keeps it non-negative and is unchanged otherwise; it never goes negative, and a negative cnt raises it |
| StackDbg.PopAfterPushes | src/stack_dbg.c:9-24 | popping n entries right after n pushes returns the index to its old value |
| StackDbg.DebugStack.constructor | src/stack_dbg.c:6-7 | the globals start zeroed: index 0 and every slot empty |
| StackDbg.DebugStack.Push | src/stack_dbg.c:9-16 | the entry is stored at the old index, only that slot changes, the index grows by one, and the overflow report is made exactly when the index reaches 64 |
| StackDbg.DebugStack.Pop | src/stack_dbg.c:18-24 | the index becomes PopIdx(old index, cnt) and the report is made exactly when the pop would go below 0 |
| StackDbg.DebugStack.Print | src/stack_dbg.c:26-36 | prints the header and then entries 0 to idx-1 in order, entry i indented by i blanks |

## Left out

- Post.EbdaSeg: requires the `ebdaSize` KiB to fit below the aligned final_varlow_start and that address to lie below 1 MiB (`U16 * 16`). The u32 wrap-around of the subtraction in the FLATPTR_TO_SEG expression (src/post.c:84) and the truncation of its result to a u16 segment are therefore not modelled.
- Port and memory-mapped I/O are abstract. Configuration space is a map of register bytes, and the i8042 is a script of samples, because the hardware behind the ports is not code.
- Logging (`dprintf`, `printf`, `olly_printf`, `warn_timeout`, `debug_isr`) is not modelled because it changes no state. Conditions that are only logged, such as the PREF32/PREF64 conflict in `pci_bios_check_devices`, therefore have no effect in the model either.
- `panic` becomes a failure result (`ok == false`, `Reloc.NoSpace`) instead of a halt.
- `malloc_tmp` is replaced by an input, `allocCap`: allocation fails once that many entries exist. `memalign_tmp`'s result is an `Option` input. `free` has no modelled effect.
- `pci_find_resource_reserve_capability` is not part of this model. Its result is the input `rescap` (bridge to capability offset).
- `romfile_loadint("etc/reserved-memory-end")` and `RamSizeOver4G` are inputs (`reservedEnd`, `ramOver4G`). The fw_cfg interface is not part of this model.
- `PciBus.InitBus`: the 8-bit bus counter can wrap, so the C recursion need not end. The model follows at most `fuel` bridge levels.
- `PciBus.ExtraRoots`: the extra-roots loop runs at most `rounds` turns.
- Ps2Port.RecvByte: its own contract says only that it writes no port and polls at least one sample. What it returns is stated by Ps2Port.RecvByteAccepts.
- Ps2Port.GetId: its own contract says only that the buffer keeps its length and the port log grows. What the buffer then holds is stated by Ps2Port.GetIdSecondByte.
- PciBus.InitBusRec: its own contract ties the method to InitBus. What the registers then read is proved in PciBusLayout only when every bridge's three bus number registers are fully writable, no bridge carries a reservation capability, and the numbers handed out stay within 255. With reservations or read-only register bits, only the id-register facts and the depth-first counter of PciBus hold.
- PciBus.InitBusAll: the same conditions as for PciBus.InitBusRec apply to PciBusLayout.InitAllRegs.
- PciConfig.Scan: its own contract gives only what the search can return. What it passes over is stated by PciConfig.ScanGap.
- PciConfig.EnumFrom: its own contract gives range and order only. That it enumerates exactly the visited functions is PciConfig.EnumFromExact, and for a whole bus PciConfig.BusFunctionsExact.
- `PciConfig.CapWalk`: the capability walk is bounded by a `fuel` parameter. `pci_find_capability` passes the source's limit of 256 hops.
- `PciConfig.NextBdf`: requires a bdf on the bus or just before it (`bus*256-1 <= bdf < bus*256+256`), which is what every `foreachbdf` caller passes.
- `PciConfig.PathsAgree`: states agreement of the two access paths only for dword-aligned registers inside the ECAM window. Outside the window the 32-bit ECAM address wraps (`PciConfig.EcamDecode`).
- `PciAlloc.BiosCheckDevices`: requires every device's bus and secondary bus to be an index of `busses` (`DevsFit`, `BusDevsFit`). `pci_probe_devices` guarantees this because it sizes the array by `MaxPCIBus + 1`. The model does not carry that link between the two passes.
- `PciMap.MapDevices`: requires every request to name a BAR slot or a bus of the array (`ListsFit`), which `pci_bios_check_devices` establishes.
- `PciMap.MapWalkBase`: proved under `NoSelfSeed`, meaning no bridge window in a list seeds the region being walked. Bus numbering guarantees this (secondary > bus), but the model takes it as a hypothesis.
- `PciMap.MapWalkSeeds`: proved under the same `NoSelfSeed` hypothesis.
- `PciMap.RootMemLayout`: states the layout only when the two regions and their alignment padding fit below `pcimem_end`. The wrapping case is left to `PciMap.RootMem` itself.
- `PciMap.HighLayout`: states the 64-bit window layout only for alignments that divide 1 GiB or are multiples of it (all power-of-two BAR sizes), and only when no u64 wraps.
- `PciMap.TwoStepAlign`: stated under the same conditions as `PciMap.HighLayout`.
- `Bits.AlignUp` and `Bits.AlignDown` model the rounding. The C macros use masks, which agree with rounding for the power-of-two alignments the firmware passes.
- The PCI setup sequence is not modelled, because it is call ordering and fixed register writes outside the allocator. This covers `pci_setup`, the board-quirk callbacks, `pci_bios_init_device(s)`, `pci_enable_default_vga`, `mch_mmconfig_setup` and `pci_resume`. Configuration options such as CONFIG_QEMU and CONFIG_PS2PORT become boolean parameters.
- `e820_add` is not modelled: the memory map is not part of this model.
- PS/2 time: the `timer_check` answers are a script, so the different timeout lengths of the calls are not distinguished. `yield`, `udelay` and the threads are not modelled.
- `ps2port_setup`, `ps2_keyboard_setup`, `i8042_reboot` and `pic_eoi1`/`pic_eoi2` are not modelled, because they are setup sequencing and a reset. `process_key` and `process_mouse` are calls into code that is not part of this model: the bytes handed to them are returned as events.
- Shadow RAM: the `memcpy` of the BIOS image, the far call through the flash alias, `wbinvd` and `qemu_reboot` are not modelled. The result says whether the image would have been copied. `runningOnXen` and the ROM bounds `romlast` and `rommax` are inputs (BUILD_BIOS_ADDR in the default configuration, else what rom_get_last and rom_get_max return, which belong to the ROM loader).
- POST: `handle_post`, `dopost`, `maininit` and the other init sequencing are not modelled. The only parts of `bda_init` modelled are `ebda_seg` and `mem_size_kb`, not the memset of the BIOS data area.
- `Post.RelocPreinit`: the copy of the init code is not modelled. The relocations are applied to memory as it stands, and the call of the relocated function is returned as its address.
- MODESEGMENT is taken as false (the 32-bit build), so `GET_LOW`/`SET_LOW` are plain memory accesses.
- `StackDbg.DebugStack.Push` requires a free slot (`idx < 64`). The C code stores without a bounds check, and a store past the array is not modelled.
- src/hw/pci_regs.h, hw/pci_ids.h, config.h, hw/rtc.h, dev-piix.h and dev-q35.h are not part of this model. Their constants are written out with the values those headers give.
