/**
 * The slot-to-IRQ routing of src/fw/pciinit.c: piix_pci_slot_get_irq and
 * mch_pci_slot_get_irq add up the device numbers along the parent chain
 * and rotate the interrupt pin by that amount, selecting one of the four
 * host IRQs in pci_irqs.
 *
 * Devices are the entries of the device list; a parent is an index into
 * that list. The C `& 3` on an int is the Euclidean remainder by 4 (two's
 * complement), which is Dafny's `% 4`.
 */
module PciIrq {
  import opened Wrappers
  import opened PciConfig
  import opened PciDevice

  /** pci_irqs: the host IRQs of PCI lines A-D. */
  const PciIrqs: seq<int> := [10, 10, 11, 11]

  /** Parents come earlier in the list, which is how pci_probe_devices builds it. */
  predicate ParentsBefore(devs: seq<Device>) {
    forall i :: 0 <= i < |devs| && devs[i].parent.Some? ==> devs[i].parent.value < i
  }

  /** pci_bdf_to_dev */
  function Slot(d: Device): int { BdfToDev(d.bdf) }

  /** The device numbers of the chain from device i up to, but not including, its root-bus ancestor. */
  function ChainSum(devs: seq<Device>, i: nat): int
    requires ParentsBefore(devs) && i < |devs|
    decreases i
  {
    match devs[i].parent
    case None => 0
    case Some(p) => Slot(devs[i]) + ChainSum(devs, p)
  }

  /** The ancestor of device i that sits on a root bus (has no parent). */
  function Root(devs: seq<Device>, i: nat): (r: nat)
    requires ParentsBefore(devs) && i < |devs|
    ensures r <= i && devs[r].parent.None?
    decreases i
  {
    match devs[i].parent
    case None => i
    case Some(p) => Root(devs, p)
  }

  /** PIIX routing: pin rotated by the chain's device numbers plus the root slot, less one. */
  function PiixIrq(devs: seq<Device>, i: nat, pin: int): (irq: int)
    requires ParentsBefore(devs) && i < |devs|
    ensures irq == 10 || irq == 11
  {
    PciIrqs[(pin - 1 + ChainSum(devs, i) + Slot(devs[Root(devs, i)]) - 1) % 4]
  }

  /** Q35 routing: as PIIX but without the -1, and slots 25-31 on a root bus are not rotated by their slot. */
  function MchIrq(devs: seq<Device>, i: nat, pin: int): (irq: int)
    requires ParentsBefore(devs) && i < |devs|
    ensures irq == 10 || irq == 11
  {
    var slot := Slot(devs[Root(devs, i)]);
    if slot <= 24 then PciIrqs[(pin - 1 + ChainSum(devs, i) + slot) % 4]
    else PciIrqs[(pin - 1 + ChainSum(devs, i)) % 4]
  }

  /**
   * The bridge swizzle: a device behind a bridge raises the IRQ the bridge
   * itself would raise on its pin rotated by the device's slot number.
   */
  lemma PiixSwizzle(devs: seq<Device>, i: nat, pin: int)
    requires ParentsBefore(devs) && i < |devs| && devs[i].parent.Some?
    ensures PiixIrq(devs, i, pin) == PiixIrq(devs, devs[i].parent.value, pin + Slot(devs[i]))
  {}

  lemma MchSwizzle(devs: seq<Device>, i: nat, pin: int)
    requires ParentsBefore(devs) && i < |devs| && devs[i].parent.Some?
    ensures MchIrq(devs, i, pin) == MchIrq(devs, devs[i].parent.value, pin + Slot(devs[i]))
  {}

  /** On a root bus, PIIX maps INTA of slot s to line s-1 (mod 4), and each later pin to the next line. */
  lemma PiixRootBus(devs: seq<Device>, i: nat, pin: int)
    requires ParentsBefore(devs) && i < |devs| && devs[i].parent.None?
    ensures PiixIrq(devs, i, pin) == PciIrqs[(pin + Slot(devs[i]) - 2) % 4]
  {}

  /** Q35 slots 25-31 on a root bus all route like LNKA: the slot number does not matter. */
  lemma MchHighSlots(devs: seq<Device>, i: nat, j: nat, pin: int)
    requires ParentsBefore(devs) && i < |devs| && j < |devs|
    requires devs[i].parent.None? && devs[j].parent.None?
    requires Slot(devs[i]) > 24 && Slot(devs[j]) > 24
    ensures MchIrq(devs, i, pin) == MchIrq(devs, j, pin) == PciIrqs[(pin - 1) % 4]
  {}

  /** The parent walk shared by both routings: the chain sum and the root-bus ancestor of device i. */
  method Walk(devs: seq<Device>, i: nat) returns (addend: int, root: nat)
    requires ParentsBefore(devs) && i < |devs|
    ensures addend == ChainSum(devs, i) && root == Root(devs, i)
  {
    addend := 0;
    root := i;
    while devs[root].parent.Some?
      invariant root < |devs|
      invariant addend + ChainSum(devs, root) == ChainSum(devs, i)
      invariant Root(devs, root) == Root(devs, i)
      decreases root
    {
      addend := addend + Slot(devs[root]);
      root := devs[root].parent.value;
    }
  }

  /** piix_pci_slot_get_irq */
  method PiixSlotGetIrq(devs: seq<Device>, i: nat, pin: int) returns (irq: int)
    requires ParentsBefore(devs) && i < |devs|
    ensures irq == PiixIrq(devs, i, pin)
  {
    var addend, root := Walk(devs, i);
    addend := addend + Slot(devs[root]) - 1;
    irq := PciIrqs[(pin - 1 + addend) % 4];
  }

  /** mch_pci_slot_get_irq */
  method MchSlotGetIrq(devs: seq<Device>, i: nat, pin: int) returns (irq: int)
    requires ParentsBefore(devs) && i < |devs|
    ensures irq == MchIrq(devs, i, pin)
  {
    var addend, root := Walk(devs, i);
    var slot := Slot(devs[root]);
    if slot <= 24 {
      irq := PciIrqs[(pin - 1 + addend + slot) % 4];
    } else {
      irq := PciIrqs[(pin - 1 + addend) % 4];
    }
  }
}
