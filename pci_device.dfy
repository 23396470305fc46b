/**
 * The PCI device cache (src/hw/pcidevice.c, src/hw/pcidevice.h): the list
 * of devices pci_probe_devices builds, the first-match quirk
 * tables written with PCI_DEVICE / PCI_DEVICE_CLASS / PCI_DEVICE_END, the
 * list searches, and the BAR validation helpers.
 *
 * The intrusive hlist becomes a sequence in list order; a `parent` pointer
 * becomes the index of the parent in that sequence.
 */
module PciDevice {
  import opened Bits
  import opened Wrappers
  import opened PciConfig

  /** struct pci_device */
  datatype Device = Device(
    bdf: Bdf,
    rootbus: int,
    parent: Option<nat>,
    vendor: bv16,
    device: bv16,
    classCode: bv16,
    progIf: bv8,
    revision: bv8,
    headerType: bv8,
    secondaryBus: bv8,
    haveDriver: bool)

  function Bus(d: Device): int { BdfToBus(d.bdf) }

  /** pci_classprog: the class code above the programming interface (see Join24Parts). */
  function ClassProg(d: Device): bv32 {
    Join24(d.classCode, d.progIf)
  }

  /** A header type (with the multi-function bit masked off) of a PCI-to-PCI or CardBus bridge. */
  predicate IsBridgeHeader(ht: bv8) {
    var v := ht & 0x7f;
    v == PCI_HEADER_TYPE_BRIDGE || v == PCI_HEADER_TYPE_CARDBUS
  }

  // ---------------------------------------------------------------------
  // Quirk tables (struct pci_device_id)
  // ---------------------------------------------------------------------

  const PCI_ANY_ID: bv32 := 0xffff_ffff

  /** struct pci_device_id; `func` names the board callback, None for NULL. */
  datatype DeviceId = DeviceId(vendid: bv32, devid: bv32, classCode: bv32, classMask: bv32, func: Option<nat>)

  /** PCI_DEVICE: any class. */
  function PciDeviceEntry(vendorId: bv32, deviceId: bv32, func: Option<nat>): DeviceId {
    DeviceId(vendorId, deviceId, PCI_ANY_ID, 0, func)
  }

  /** PCI_DEVICE_CLASS: exactly this class. */
  function PciDeviceClassEntry(vendorId: bv32, deviceId: bv32, classCode: bv32, func: Option<nat>): DeviceId {
    DeviceId(vendorId, deviceId, classCode, 0xffff_ffff, func)
  }

  /** PCI_DEVICE_END: every field zero. */
  const PCI_DEVICE_END: DeviceId := DeviceId(0, 0, 0, 0, None)

  /** The loop of pci_init_device runs while `ids->vendid || ids->class_mask`. */
  predicate IsEnd(id: DeviceId) { id.vendid == 0 && id.classMask == 0 }

  /** An id field of an entry accepts a device id: equal, or PCI_ANY_ID. */
  predicate IdAccepts(want: bv32, have: bv16) {
    want == PCI_ANY_ID || want == have as bv32
  }

  /** The class field of an entry accepts a class code: they agree on the bits of the mask. */
  predicate ClassAccepts(classCode: bv32, classMask: bv32, have: bv16) {
    (classCode ^ have as bv32) & classMask == 0
  }

  /** An entry accepts a device (the test in pci_init_device). */
  predicate Matches(id: DeviceId, pci: Device) {
    IdAccepts(id.vendid, pci.vendor) && IdAccepts(id.devid, pci.device) &&
    ClassAccepts(id.classCode, id.classMask, pci.classCode)
  }

  /** With mask 0 every class passes. */
  lemma ClassNoMask(classCode: bv32, have: bv16)
    ensures ClassAccepts(classCode, 0, have)
  {}

  /** With the full mask exactly the equal class passes. */
  lemma ClassFullMask(classCode: bv32, have: bv16)
    ensures ClassAccepts(classCode, 0xffff_ffff, have) ==> classCode == have as bv32
    ensures classCode == have as bv32 ==> ClassAccepts(classCode, 0xffff_ffff, have)
  {}

  /** A PCI_DEVICE entry compares the vendor and device ids only. */
  lemma DeviceEntryMatches(vendorId: bv32, deviceId: bv32, func: Option<nat>, pci: Device)
    ensures Matches(PciDeviceEntry(vendorId, deviceId, func), pci) ==>
      IdAccepts(vendorId, pci.vendor) && IdAccepts(deviceId, pci.device)
    ensures IdAccepts(vendorId, pci.vendor) && IdAccepts(deviceId, pci.device) ==>
      Matches(PciDeviceEntry(vendorId, deviceId, func), pci)
  {
    ClassNoMask(PCI_ANY_ID, pci.classCode);
  }

  /** A PCI_DEVICE_CLASS entry also demands exactly its class. */
  lemma DeviceClassEntryMatches(vendorId: bv32, deviceId: bv32, classCode: bv32, func: Option<nat>, pci: Device)
    ensures Matches(PciDeviceClassEntry(vendorId, deviceId, classCode, func), pci) ==>
      IdAccepts(vendorId, pci.vendor) && IdAccepts(deviceId, pci.device) && classCode == pci.classCode as bv32
    ensures IdAccepts(vendorId, pci.vendor) && IdAccepts(deviceId, pci.device) && classCode == pci.classCode as bv32 ==>
      Matches(PciDeviceClassEntry(vendorId, deviceId, classCode, func), pci)
  {
    ClassFullMask(classCode, pci.classCode);
  }

  /**
   * PCI_DEVICE_END ends a table; a PCI_DEVICE_CLASS entry never does, and a
   * PCI_DEVICE entry does exactly when its vendor id is 0.
   */
  lemma Terminators(vendorId: bv32, deviceId: bv32, classCode: bv32, func: Option<nat>)
    ensures IsEnd(PCI_DEVICE_END)
    ensures !IsEnd(PciDeviceClassEntry(vendorId, deviceId, classCode, func))
    ensures IsEnd(PciDeviceEntry(vendorId, deviceId, func)) <==> vendorId == 0
  {}

  /** The end of the table from entry i: the first terminator, or the end of the sequence. */
  function TableEnd(ids: seq<DeviceId>, i: nat): (e: nat)
    requires i <= |ids|
    ensures i <= e <= |ids|
    ensures e < |ids| ==> IsEnd(ids[e])
    ensures forall k :: i <= k < e ==> !IsEnd(ids[k])
    decreases |ids| - i
  {
    if i == |ids| || IsEnd(ids[i]) then i else TableEnd(ids, i + 1)
  }

  /** The entry pci_init_device settles on, scanning from entry i. */
  function TableMatch(ids: seq<DeviceId>, pci: Device, i: nat): (r: Option<nat>)
    requires i <= |ids|
    ensures r.Some? ==> i <= r.value < TableEnd(ids, i) && Matches(ids[r.value], pci)
    ensures r.Some? ==> forall k :: i <= k < r.value ==> !Matches(ids[k], pci)
    ensures r.None? ==> forall k :: i <= k < TableEnd(ids, i) ==> !Matches(ids[k], pci)
    decreases |ids| - i
  {
    if i == |ids| || IsEnd(ids[i]) then None
    else if Matches(ids[i], pci) then Some(i)
    else TableMatch(ids, pci, i + 1)
  }

  /** The table has a terminator. */
  predicate Terminated(ids: seq<DeviceId>) {
    exists k :: 0 <= k < |ids| && IsEnd(ids[k])
  }

  lemma TerminatedEnd(ids: seq<DeviceId>, i: nat)
    requires Terminated(ids) && i <= TableEnd(ids, 0)
    ensures TableEnd(ids, i) == TableEnd(ids, 0) < |ids|
  {
    var k :| 0 <= k < |ids| && IsEnd(ids[k]);
    assert TableEnd(ids, 0) <= k;
    TableEndFrom(ids, 0, i);
  }

  lemma {:induction false} TableEndFrom(ids: seq<DeviceId>, i: nat, j: nat)
    requires i <= |ids| && i <= j <= TableEnd(ids, i)
    ensures TableEnd(ids, j) == TableEnd(ids, i)
    decreases j - i
  {
    if i < j {
      assert !IsEnd(ids[i]) && i < |ids|;
      TableEndFrom(ids, i + 1, j);
    }
  }

  /**
   * pci_init_device: 0 at the first entry before the terminator that
   * accepts the device, naming the callback it then invokes (if any); -1
   * when none does.
   */
  method InitDevice(ids: seq<DeviceId>, pci: Device) returns (r: int, called: Option<nat>)
    requires Terminated(ids)
    ensures r == 0 || r == -1
    ensures r == 0 <==> TableMatch(ids, pci, 0).Some?
    ensures called == if r == 0 then ids[TableMatch(ids, pci, 0).value].func else None
  {
    var i := 0;
    TerminatedEnd(ids, 0);
    while !IsEnd(ids[i])
      invariant i <= TableEnd(ids, 0)
      invariant TableMatch(ids, pci, i) == TableMatch(ids, pci, 0)
      decreases TableEnd(ids, 0) - i
    {
      TerminatedEnd(ids, i);
      if Matches(ids[i], pci) {
        return 0, ids[i].func;
      }
      i := i + 1;
    }
    TerminatedEnd(ids, i);
    return -1, None;
  }

  // ---------------------------------------------------------------------
  // BAR validation (pci_enable_iobar, pci_enable_membar)
  // ---------------------------------------------------------------------

  const PCI_BASE_ADDRESS_SPACE_IO: bv32 := 0x01
  const PCI_BASE_ADDRESS_MEM_TYPE_64: bv32 := 0x04
  const PCI_BASE_ADDRESS_IO_MASK: bv32 := 0xffff_fffc
  const PCI_BASE_ADDRESS_MEM_MASK: bv32 := 0xffff_fff0

  /** The port base pci_enable_iobar hands out for a BAR value, 0 for a rejected BAR. */
  function IoBarBase(bar: bv32): (r: bv32)
    ensures r <= 0xfffc && r & 3 == 0
    ensures r != 0 <==> bar & PCI_BASE_ADDRESS_SPACE_IO != 0 && bar < 0x1_0000 && bar & PCI_BASE_ADDRESS_IO_MASK != 0
    ensures r != 0 ==> r == bar & PCI_BASE_ADDRESS_IO_MASK
  {
    if bar & PCI_BASE_ADDRESS_SPACE_IO == 0 then 0
    else
      var b := bar & PCI_BASE_ADDRESS_IO_MASK;
      if b == 0 || b > 0xffff then 0 else b
  }

  /**
   * The address pci_enable_membar hands out for a BAR value (and the upper
   * dword of a 64-bit BAR); None for NULL. The u32 test `bar + 4M < 20M`
   * wraps around, so it rejects exactly the first 16 MiB and the last 4 MiB.
   */
  function MemBarBase(bar: bv32, high: bv32): (r: Option<bv32>)
    ensures r.Some? <==>
      bar & PCI_BASE_ADDRESS_SPACE_IO == 0 &&
      (bar & PCI_BASE_ADDRESS_MEM_TYPE_64 == 0 || high == 0) &&
      0x100_0000 <= bar & PCI_BASE_ADDRESS_MEM_MASK < 0xffc0_0000
    ensures r.Some? ==> r.value == bar & PCI_BASE_ADDRESS_MEM_MASK
  {
    if bar & PCI_BASE_ADDRESS_SPACE_IO != 0 then None
    else if bar & PCI_BASE_ADDRESS_MEM_TYPE_64 != 0 && high != 0 then None
    else
      var b := bar & PCI_BASE_ADDRESS_MEM_MASK;
      if b + 0x40_0000 < 0x140_0000 then None else Some(b)
  }

}
