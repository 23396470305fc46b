/**
 * BAR probing and the bridge register helpers of src/fw/pciinit.c:
 * where each BAR lives (pci_bar), sizing by writing ones, reading back and
 * restoring (pci_bios_get_bar, section 6.2.5.1 of the PCI Local Bus
 * Specification 3.0), programming a BAR (pci_set_io_region_addr) and the
 * bridge window probes (pci_bios_bridge_region_is64,
 * pci_bridge_has_region, pci_bus_hotplug_support).
 *
 * The firmware is a 32-bit build: `unsigned long` masks such as ~0x0ful
 * are 32 bits wide before being widened to u64.
 */
module PciBar {
  import opened Bits
  import opened PciConfig
  import opened PciDevice
  import opened PciRegion

  const PCI_ROM_SLOT: int := 6
  const PCI_NUM_REGIONS: int := 7
  const PCI_BRIDGE_NUM_REGIONS: int := 2

  // Type 0 / type 1 header offsets and BAR bits
  const PCI_BASE_ADDRESS_0: int := 0x10
  const PCI_ROM_ADDRESS: int := 0x30
  const PCI_ROM_ADDRESS1: int := 0x38
  const PCI_BASE_ADDRESS_MEM_TYPE_MASK: bv32 := 0x06
  const PCI_BASE_ADDRESS_MEM_PREFETCH: bv32 := 0x08
  const PCI_ROM_ADDRESS_MASK: bv32 := 0xffff_f800
  const PCI_IO_BASE: int := 0x1c
  const PCI_PREF_MEMORY_BASE: int := 0x24
  const PCI_PREF_RANGE_TYPE_MASK: bv32 := 0x0f
  const PCI_PREF_RANGE_TYPE_64: bv32 := 0x01

  // Capabilities consulted for hot-plug support
  const PCI_CAP_ID_EXP: bv8 := 0x10
  const PCI_CAP_ID_SHPC: bv8 := 0x0c
  const PCI_EXP_FLAGS: int := 2
  const PCI_EXP_FLAGS_TYPE: bv16 := 0x00f0
  const PCI_EXP_FLAGS_SLOT: bv16 := 0x0100
  const PCI_EXP_TYPE_ROOT_PORT: bv16 := 0x4
  const PCI_EXP_TYPE_DOWNSTREAM: bv16 := 0x6

  // ---------------------------------------------------------------------
  // pci_bar
  // ---------------------------------------------------------------------

  /**
   * pci_bar: BARs 0..5 are the consecutive dwords from 0x10; the ROM slot is
   * at 0x38 in a PCI-to-PCI bridge header and at 0x30 otherwise.
   */
  function BarOffset(headerType: bv8, i: int): (ofs: int)
    requires 0 <= i <= PCI_ROM_SLOT
    ensures ofs % 4 == 0 && PCI_BASE_ADDRESS_0 <= ofs <= PCI_ROM_ADDRESS1
    ensures i < PCI_ROM_SLOT ==> ofs < PCI_ROM_ADDRESS
    ensures i == PCI_ROM_SLOT ==> (ofs == PCI_ROM_ADDRESS1 <==> headerType & 0x7f == PCI_HEADER_TYPE_BRIDGE)
    ensures i == PCI_ROM_SLOT ==> (ofs == PCI_ROM_ADDRESS || ofs == PCI_ROM_ADDRESS1)
  {
    if i != PCI_ROM_SLOT then PCI_BASE_ADDRESS_0 + i * 4
    else if headerType & 0x7f == PCI_HEADER_TYPE_BRIDGE then PCI_ROM_ADDRESS1 else PCI_ROM_ADDRESS
  }

  /**
   * The high dword of a 64-bit BAR is the next BAR's dword, which is why
   * a 64-bit BAR uses up the following slot; distinct slots never overlap.
   */
  lemma BarOffsetsTile(headerType: bv8, i: int, j: int)
    requires 0 <= i < j <= PCI_ROM_SLOT
    ensures BarOffset(headerType, i) + 4 <= BarOffset(headerType, j)
    ensures j < PCI_ROM_SLOT ==> BarOffset(headerType, i) + 4 * (j - i) == BarOffset(headerType, j)
  {}

  // ---------------------------------------------------------------------
  // pci_bios_get_bar
  // ---------------------------------------------------------------------

  /** The probe's outcome: region type, size and 64-bit flag. */
  datatype BarInfo = BarInfo(rtype: RegionType, size: bv64, is64: bool)

  /** The bits of a dword register that a write reaches. */
  function WriteMask(s: Space, wmask: Regs, bdf: Bdf, ofs: Offset): bv32 {
    EffMask32(s.regs, wmask, Location(s.mmconfig, bdf, ofs, Dword))
  }

  /**
   * What a dword register reads right after `x` was written to it: the
   * writable bits hold x, the others their old contents.
   */
  function Readback(s: Space, wmask: Regs, bdf: Bdf, ofs: Offset, x: bv32): bv32 {
    Merge32(ReadL(s, bdf, ofs), x, WriteMask(s, wmask, bdf, ofs))
  }

  /** Readback is what a dword read returns after the write. */
  lemma ReadbackAfterWrite(s: Space, wmask: Regs, bdf: Bdf, ofs: Offset, x: bv32)
    ensures var k := Location(s.mmconfig, bdf, ofs, Dword);
      Reg32(Store(s.regs, wmask, k, 4, x), k) == Readback(s, wmask, bdf, ofs, x)
  {
    StoreReadback32(s.regs, wmask, Location(s.mmconfig, bdf, ofs, Dword), x);
  }

  /** The address bits of the BAR: the ROM mask for the ROM slot, else ~3 for I/O and ~0xf for memory. */
  function BarMask(bar: int, orig: bv32): bv32 {
    if bar == PCI_ROM_SLOT then PCI_ROM_ADDRESS_MASK
    else if orig & PCI_BASE_ADDRESS_SPACE_IO != 0 then PCI_BASE_ADDRESS_IO_MASK
    else PCI_BASE_ADDRESS_MEM_MASK
  }

  /** The region type: I/O from bit 0, prefetchable memory from bit 3; the ROM is plain memory. */
  function BarType(bar: int, orig: bv32): RegionType {
    if bar == PCI_ROM_SLOT then Mem
    else if orig & PCI_BASE_ADDRESS_SPACE_IO != 0 then Io
    else if orig & PCI_BASE_ADDRESS_MEM_PREFETCH != 0 then PrefMem
    else Mem
  }

  /** A memory BAR whose type field (bits 1-2) says 64-bit. */
  predicate BarIs64(bar: int, orig: bv32) {
    bar != PCI_ROM_SLOT && orig & PCI_BASE_ADDRESS_SPACE_IO == 0 &&
    orig & PCI_BASE_ADDRESS_MEM_TYPE_MASK == PCI_BASE_ADDRESS_MEM_TYPE_64
  }

  /** The sizing write: the ROM address mask (leaving the enable bit clear) for the ROM slot, all ones otherwise. */
  function ProbeValue(bar: int): bv32 {
    if bar == PCI_ROM_SLOT then PCI_ROM_ADDRESS_MASK else 0xffff_ffff
  }

  /**
   * The size rule `~(val & mask) + 1` in u64 arithmetic: with the high
   * dword and a mask widened by ones for a 64-bit BAR, truncated to 32 bits
   * otherwise.
   */
  function SizeOf(val: bv32, high: bv32, mask: bv32, is64: bool): (size: bv64)
    ensures !is64 ==> size == (!(val & mask) + 1) as bv64
  {
    var v: bv64 := (val as bv64) | (if is64 then (high as bv64) << 32 else 0);
    var m: bv64 := (mask as bv64) | (if is64 then 0xffff_ffff_0000_0000 else 0);
    var sz: bv64 := !(v & m) + 1;
    Truncation(val, mask);
    if is64 then sz else sz & 0xffff_ffff
  }

  /** Truncating the 64-bit computation to its low dword is the same computation in 32 bits. */
  lemma Truncation(val: bv32, mask: bv32)
    ensures (!((val as bv64) & (mask as bv64)) + 1) & 0xffff_ffff == (!(val & mask) + 1) as bv64
  {}

  /**
   * pci_bios_get_bar on configuration space s: the old value decides the
   * type, mask and width; the low dword is read back after the sizing
   * write, and for a 64-bit BAR the high dword after an all-ones write.
   */
  /** The high dword read back after its all-ones write, for a 64-bit BAR; 0 otherwise. */
  function HighProbe(s: Space, wmask: Regs, bdf: Bdf, ofs: int, is64: bool): bv32
    requires 0 <= ofs <= PCI_ROM_ADDRESS1
  {
    if is64 then Readback(s, wmask, bdf, ofs + 4, 0xffff_ffff) else 0
  }

  function Probe(s: Space, wmask: Regs, pci: Device, bar: int): BarInfo
    requires 0 <= bar <= PCI_ROM_SLOT
  {
    var ofs := BarOffset(pci.headerType, bar);
    var orig := ReadL(s, pci.bdf, ofs);
    var val := Readback(s, wmask, pci.bdf, ofs, ProbeValue(bar));
    var is64 := BarIs64(bar, orig);
    var high := HighProbe(s, wmask, pci.bdf, ofs, is64);
    BarInfo(BarType(bar, orig), SizeOf(val, high, BarMask(bar, orig), is64), is64)
  }

  /** The probe's type and width follow the old value's bits 0, 1-2 and 3. */
  lemma ProbeKind(s: Space, wmask: Regs, pci: Device, bar: int)
    requires 0 <= bar <= PCI_ROM_SLOT
    ensures var orig := ReadL(s, pci.bdf, BarOffset(pci.headerType, bar));
      var info := Probe(s, wmask, pci, bar);
      (info.rtype == Io <==> bar != PCI_ROM_SLOT && orig & 1 == 1) &&
      (info.rtype == PrefMem <==> bar != PCI_ROM_SLOT && orig & 1 == 0 && orig & 8 == 8) &&
      (info.is64 <==> bar != PCI_ROM_SLOT && orig & 1 == 0 && orig & 6 == 4) &&
      (info.is64 ==> info.rtype != Io)
  {}

  /**
   * Sizing by section 6.2.5.1 of the PCI Local Bus Specification: when the
   * address bits of a 32-bit BAR that software can write are exactly bits
   * k and above, and the read-only address bits read as zero, the probe
   * finds a size of 2^k.
   */
  lemma SizingPow2(orig: bv32, w: bv32, x: bv32, mask: bv32, k: bv32)
    requires k < 32
    requires w & mask == 0xffff_ffff << k
    requires orig & !w & mask == 0
    requires x & mask == mask
    ensures SizeOf(Merge32(orig, x, w), 0, mask, false) == ((1 as bv32) << k) as bv64
  {
    AddressBitsRead(orig, w, x, mask, k);
    LowBitsSize(k);
  }

  /** After writing ones, the address bits read back are exactly the writable ones. */
  lemma AddressBitsRead(orig: bv32, w: bv32, x: bv32, mask: bv32, k: bv32)
    requires k < 32
    requires w & mask == 0xffff_ffff << k
    requires orig & !w & mask == 0
    requires x & mask == mask
    ensures Merge32(orig, x, w) & mask == 0xffff_ffff << k
  {}

  lemma LowBitsSize(k: bv32)
    requires k < 32
    ensures !(0xffff_ffff << k) + 1 == (1 as bv32) << k
  {}

  /**
   * The same for a 64-bit BAR: with the writable address bits of the
   * combined 64-bit register being bits k and above, the size is 2^k.
   */
  lemma SizingPow2Wide(lo: bv32, hi: bv32, mask: bv32, k: bv64)
    requires k < 64
    requires (((hi as bv64) << 32) | (lo as bv64)) & (0xffff_ffff_0000_0000 | (mask as bv64)) == 0xffff_ffff_ffff_ffff << k
    ensures SizeOf(lo, hi, mask, true) == (1 as bv64) << k
  {
    assert !(0xffff_ffff_ffff_ffff << k) + 1 == (1 as bv64) << k;
  }

  /**
   * One write-read-restore step of pci_bios_get_bar on a dword whose
   * contents `orig` were just read: write x, read the register back, write
   * orig again. Configuration space ends as it started.
   */
  method Sample(cfg: ConfigSpace, ghost s: Space, bdf: Bdf, ofs: Offset, orig: bv32, x: bv32) returns (val: bv32)
    requires cfg.State() == s && orig == ReadL(s, bdf, ofs)
    modifies cfg
    ensures cfg.State() == s
    ensures val == Readback(s, cfg.wmask, bdf, ofs, x)
  {
    cfg.WriteL(bdf, ofs, x);
    val := ReadL(cfg.State(), bdf, ofs);
    ReadbackAfterWrite(s, cfg.wmask, bdf, ofs, x);
    cfg.WriteL(bdf, ofs, orig);
    StoreRestore32(s.regs, cfg.wmask, Location(s.mmconfig, bdf, ofs, Dword), x);
  }

  /** Probe in terms of the two read-back values. */
  lemma ProbeParts(s: Space, wmask: Regs, pci: Device, bar: int, val: bv32, high: bv32)
    requires 0 <= bar <= PCI_ROM_SLOT
    requires var ofs := BarOffset(pci.headerType, bar);
      val == Readback(s, wmask, pci.bdf, ofs, ProbeValue(bar)) &&
      high == HighProbe(s, wmask, pci.bdf, ofs, BarIs64(bar, ReadL(s, pci.bdf, ofs)))
    ensures var orig := ReadL(s, pci.bdf, BarOffset(pci.headerType, bar));
      Probe(s, wmask, pci, bar) == BarInfo(BarType(bar, orig), SizeOf(val, high, BarMask(bar, orig), BarIs64(bar, orig)), BarIs64(bar, orig))
  {}

  /** The branches of pci_bios_get_bar on the old BAR value: type, mask, width and the sizing write. */
  method BarKind(bar: int, orig: bv32) returns (rtype: RegionType, mask: bv32, is64: bool, probe: bv32)
    ensures rtype == BarType(bar, orig) && mask == BarMask(bar, orig)
    ensures is64 == BarIs64(bar, orig) && probe == ProbeValue(bar)
  {
    is64 := false;
    rtype := Mem;
    if bar == PCI_ROM_SLOT {
      mask := PCI_ROM_ADDRESS_MASK;
      probe := mask;
    } else {
      if orig & PCI_BASE_ADDRESS_SPACE_IO != 0 {
        mask := PCI_BASE_ADDRESS_IO_MASK;
        rtype := Io;
      } else {
        mask := PCI_BASE_ADDRESS_MEM_MASK;
        if orig & PCI_BASE_ADDRESS_MEM_PREFETCH != 0 {
          rtype := PrefMem;
        }
        is64 := orig & PCI_BASE_ADDRESS_MEM_TYPE_MASK == PCI_BASE_ADDRESS_MEM_TYPE_64;
      }
      probe := 0xffff_ffff;
    }
  }

  /**
   * pci_bios_get_bar: probe BAR `bar` of `pci` and write both original
   * dwords back, so configuration space ends as it started.
   */
  method GetBar(cfg: ConfigSpace, pci: Device, bar: int) returns (info: BarInfo)
    requires 0 <= bar <= PCI_ROM_SLOT
    modifies cfg
    ensures cfg.regs == old(cfg.regs) && cfg.mmconfig == old(cfg.mmconfig)
    ensures info == Probe(old(cfg.State()), cfg.wmask, pci, bar)
  {
    ghost var s := cfg.State();
    var ofs := BarOffset(pci.headerType, bar);
    var bdf := pci.bdf;
    var orig := ReadL(cfg.State(), bdf, ofs);
    var rtype, mask, is64, probe := BarKind(bar, orig);
    var val := Sample(cfg, s, bdf, ofs, orig, probe);
    var high: bv32 := 0;
    if is64 {
      var hold := ReadL(cfg.State(), bdf, ofs + 4);
      high := Sample(cfg, s, bdf, ofs + 4, hold, 0xffff_ffff);
    }
    info := BarInfo(rtype, SizeOf(val, high, mask, is64), is64);
    ProbeParts(s, cfg.wmask, pci, bar, val, high);
  }

  // ---------------------------------------------------------------------
  // pci_set_io_region_addr
  // ---------------------------------------------------------------------

  /** The low and high dwords of a u64 address, as the u32 parameters of pci_config_writel take them. */
  function LowDword(addr: u64): bv32 { (addr % U32) as bv32 }
  function HighDword(addr: u64): bv32 { (addr / U32) as bv32 }

  /** A dword write of configuration space s, as pci_config_writel performs it. */
  function WriteDword(s: Space, wmask: Regs, bdf: Bdf, ofs: Offset, v: bv32): Space {
    s.(regs := Store(s.regs, wmask, Location(s.mmconfig, bdf, ofs, Dword), 4, v))
  }

  /** The configuration space after an address is written to the BAR at ofs (and to the next dword for a 64-bit BAR). */
  function BarWrite(s: Space, wmask: Regs, bdf: Bdf, ofs: int, addr: u64, is64: bool): Space
    requires 0 <= ofs <= PCI_ROM_ADDRESS1
  {
    var s1 := WriteDword(s, wmask, bdf, ofs, LowDword(addr));
    if is64 then WriteDword(s1, wmask, bdf, ofs + 4, HighDword(addr)) else s1
  }

  /** pci_set_io_region_addr: the BAR gets the low 32 bits, and a 64-bit BAR's next dword the high 32 bits. */
  method SetRegionAddr(cfg: ConfigSpace, pci: Device, bar: int, addr: u64, is64: bool)
    requires 0 <= bar <= PCI_ROM_SLOT
    modifies cfg
    ensures cfg.State() == BarWrite(old(cfg.State()), cfg.wmask, pci.bdf, BarOffset(pci.headerType, bar), addr, is64)
  {
    var ofs := BarOffset(pci.headerType, bar);
    WriteBar(cfg, pci.bdf, ofs, addr, is64);
  }

  /** The two pci_config_writel calls of pci_set_io_region_addr. */
  method WriteBar(cfg: ConfigSpace, bdf: Bdf, ofs: int, addr: u64, is64: bool)
    requires 0 <= ofs <= PCI_ROM_ADDRESS1
    modifies cfg
    ensures cfg.State() == BarWrite(old(cfg.State()), cfg.wmask, bdf, ofs, addr, is64)
  {
    cfg.WriteL(bdf, ofs, LowDword(addr));
    if is64 {
      cfg.WriteL(bdf, ofs + 4, HighDword(addr));
    }
  }

  /**
   * The partner of sizing: when the BAR's writable address bits are bits k
   * and above, its read-only address bits are zero and the address is
   * 2^k-aligned, the BAR decodes exactly the address written.
   */
  lemma BarDecodes(cur: bv32, a: bv32, w: bv32, mask: bv32, k: bv32)
    requires k < 32
    requires w & mask == 0xffff_ffff << k
    requires cur & !w & mask == 0
    requires a & !(0xffff_ffff << k) == 0
    ensures Merge32(cur, a, w) & mask == a
  {}

  // ---------------------------------------------------------------------
  // Bridge window probes
  // ---------------------------------------------------------------------

  /** The prefetchable base a bridge reports, probed with 0xfff0fff0 when it reads zero. */
  function PrefBase(s: Space, wmask: Regs, bdf: Bdf): bv32 {
    var pmem := ReadL(s, bdf, PCI_PREF_MEMORY_BASE);
    if pmem != 0 then pmem else Readback(s, wmask, bdf, PCI_PREF_MEMORY_BASE, 0xfff0_fff0)
  }

  /** Every request of a list is 64-bit capable. */
  predicate AllIs64(l: seq<Entry>) {
    forall i :: 0 <= i < |l| ==> l[i].is64
  }

  /**
   * pci_bios_bridge_region_is64: only a prefetchable window can be 64-bit,
   * and only when the bridge's range type says 64 and every request below
   * it is 64-bit.
   */
  function BridgeIs64(s: Space, wmask: Regs, bdf: Bdf, t: RegionType, l: seq<Entry>): (r: bool)
    ensures r ==> t == PrefMem && AllIs64(l)
    ensures r <==> t == PrefMem && PrefBase(s, wmask, bdf) & PCI_PREF_RANGE_TYPE_MASK == PCI_PREF_RANGE_TYPE_64 && AllIs64(l)
  {
    t == PrefMem && PrefBase(s, wmask, bdf) & PCI_PREF_RANGE_TYPE_MASK == PCI_PREF_RANGE_TYPE_64 && AllIs64(l)
  }

  /**
   * pci_bios_bridge_region_is64 as the firmware runs it: the probe write of
   * a zero register is undone by writing zero back, so configuration space
   * is left as it was.
   */
  method BridgeRegionIs64(cfg: ConfigSpace, pci: Device, t: RegionType, l: seq<Entry>) returns (r: bool)
    modifies cfg
    ensures cfg.regs == old(cfg.regs) && cfg.mmconfig == old(cfg.mmconfig)
    ensures r == BridgeIs64(old(cfg.State()), cfg.wmask, pci.bdf, t, l)
  {
    if t != PrefMem {
      return false;
    }
    ghost var s := cfg.State();
    var pmem := ReadL(cfg.State(), pci.bdf, PCI_PREF_MEMORY_BASE);
    if pmem == 0 {
      cfg.WriteL(pci.bdf, PCI_PREF_MEMORY_BASE, 0xfff0_fff0);
      pmem := ReadL(cfg.State(), pci.bdf, PCI_PREF_MEMORY_BASE);
      ReadbackAfterWrite(s, cfg.wmask, pci.bdf, PCI_PREF_MEMORY_BASE, 0xfff0_fff0);
      cfg.WriteL(pci.bdf, PCI_PREF_MEMORY_BASE, 0);
      StoreRestore32(s.regs, cfg.wmask, Location(s.mmconfig, pci.bdf, PCI_PREF_MEMORY_BASE, Dword), 0xfff0_fff0);
    }
    if pmem & PCI_PREF_RANGE_TYPE_MASK != PCI_PREF_RANGE_TYPE_64 {
      return false;
    }
    var i := 0;
    while i < |l|
      invariant 0 <= i <= |l|
      invariant forall j :: 0 <= j < i ==> l[j].is64
    {
      if !l[i].is64 {
        return false;
      }
      i := i + 1;
    }
    return true;
  }

  /** The window base register pci_bridge_has_region probes: I/O base or prefetchable base. */
  function WindowProbeOffset(t: RegionType): int
    requires t != Mem
  {
    if t == Io then PCI_IO_BASE else PCI_PREF_MEMORY_BASE
  }

  /** The byte such a register reads after 0xff was written to it. */
  function ByteReadback(s: Space, wmask: Regs, bdf: Bdf, ofs: Offset): (r: bv8)
    ensures var k := Location(s.mmconfig, bdf, ofs, Byte);
      r == Merge(Get(s.regs, k), 0xff, EffMask(s.regs, wmask, k))
  {
    var k := Location(s.mmconfig, bdf, ofs, Byte);
    StoreReadback8(s.regs, wmask, k, 0xff);
    Get(Store(s.regs, wmask, k, 1, 0xff), k)
  }

  /**
   * pci_bridge_has_region: memory forwarding is mandatory; for I/O and
   * prefetchable memory the base byte gets 0xff, and the bridge forwards
   * that type when the byte then reads nonzero. The write is not undone.
   */
  method BridgeHasRegion(cfg: ConfigSpace, pci: Device, t: RegionType) returns (r: bool)
    modifies cfg
    ensures cfg.mmconfig == old(cfg.mmconfig)
    ensures t == Mem ==> r && cfg.regs == old(cfg.regs)
    ensures t != Mem ==>
      var ofs := WindowProbeOffset(t);
      cfg.regs == Store(old(cfg.regs), cfg.wmask, Location(cfg.mmconfig, pci.bdf, ofs, Byte), 1, 0xff) &&
      (r <==> ByteReadback(old(cfg.State()), cfg.wmask, pci.bdf, ofs) != 0)
  {
    if t == Mem {
      return true;
    }
    var ofs := WindowProbeOffset(t);
    cfg.WriteB(pci.bdf, ofs, 0xff);
    var b := ReadB(cfg.State(), pci.bdf, ofs);
    r := b != 0;
  }

  /**
   * A base byte with no writable bit reads back its own (possibly 0)
   * contents: a bridge that hardwires the register to zero has no window
   * of that type, and one with any writable bit does.
   */
  lemma HasRegionBits(cur: bv8, w: bv8)
    ensures w == 0 ==> Merge(cur, 0xff, w) == cur
    ensures w != 0 ==> Merge(cur, 0xff, w) != 0
  {}

  /** The PCI Express port type of a set of Express capability flags. */
  function PortType(flags: bv16): (t: bv16)
    ensures t < 16
  {
    (flags & PCI_EXP_FLAGS_TYPE) >> 4
  }

  /**
   * pci_bus_hotplug_support: with an Express capability, a downstream or
   * root port whose slot-implemented bit is set; otherwise the presence of
   * an SHPC capability.
   */
  function HotplugSupport(s: Space, bdf: Bdf, pcieCap: bv8): (r: bool)
    ensures pcieCap == 0 ==> (r <==> FindCap(s, bdf, PCI_CAP_ID_SHPC, 0) != 0)
    ensures pcieCap != 0 ==>
      var flags := ReadW(s, bdf, pcieCap as int + PCI_EXP_FLAGS);
      (r <==> (PortType(flags) == PCI_EXP_TYPE_DOWNSTREAM || PortType(flags) == PCI_EXP_TYPE_ROOT_PORT) &&
              flags & PCI_EXP_FLAGS_SLOT != 0)
  {
    if pcieCap != 0 then
      var flags := ReadW(s, bdf, pcieCap as int + PCI_EXP_FLAGS);
      var portType := PortType(flags);
      var downstream := portType == PCI_EXP_TYPE_DOWNSTREAM || portType == PCI_EXP_TYPE_ROOT_PORT;
      downstream && flags & PCI_EXP_FLAGS_SLOT != 0
    else
      FindCap(s, bdf, PCI_CAP_ID_SHPC, 0) != 0
  }

  /** Port types 4 and 6 are the flag values 0x40 and 0x60 in bits 4-7. */
  lemma PortTypeValues(flags: bv16)
    ensures PortType(flags) == PCI_EXP_TYPE_ROOT_PORT <==> flags & 0xf0 == 0x40
    ensures PortType(flags) == PCI_EXP_TYPE_DOWNSTREAM <==> flags & 0xf0 == 0x60
  {}
}
