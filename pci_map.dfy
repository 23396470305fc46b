/**
 * pci_bios_map_devices of src/fw/pciinit.c: the mapping pass of the PCI
 * resource allocator.
 *
 * The root bus's I/O region is placed at 0xc000 or 0x1000 and its two
 * memory regions just below pcimem_end. When they do not fit, the 64-bit
 * requests of the root bus move to two windows above RAM and the 32-bit
 * placement is tried again. Then every region of every bus is walked in
 * list order: each request gets the region's running base, which moves on
 * by the request's size; a bridge window also becomes the base of its
 * secondary bus's region of the same type, which is walked later because
 * the secondary bus has the higher number. A BAR is programmed with its
 * address, a bridge with its base and limit registers.
 *
 * The address-space globals (pcimem_start, pcimem_end, pcimem64_start,
 * pcimem64_end, pci_io_low_end) are the fields of class AddressSpace. The
 * C ALIGN and ALIGN_DOWN are rounding to a multiple on a u64; with a zero
 * alignment both give 0, as their masks do.
 */
module PciMap {
  import opened Bits
  import opened Wrappers
  import opened PciConfig
  import opened PciDevice
  import opened PciRegion
  import opened PciBar
  import opened PciAlloc

  // Type-1 header window registers (PCI-to-PCI Bridge Architecture Specification 1.2, section 3.2.5).
  const PCI_IO_LIMIT: int := 0x1d
  const PCI_MEMORY_BASE: int := 0x20
  const PCI_MEMORY_LIMIT: int := 0x22
  const PCI_PREF_MEMORY_LIMIT: int := 0x26
  const PCI_PREF_BASE_UPPER32: int := 0x28
  const PCI_PREF_LIMIT_UPPER32: int := 0x2c
  const PCI_IO_BASE_UPPER16: int := 0x30
  const PCI_IO_LIMIT_UPPER16: int := 0x32

  /** 1 << PCI_IO_SHIFT and 1 << PCI_MEMORY_SHIFT (= 1 << PCI_PREF_MEMORY_SHIFT). */
  const IO_GRANULE: int := 0x100
  const MEM_GRANULE: int := 0x1_0000

  /** The 1 GiB rounding of the 64-bit windows (hugepage alignment). */
  const GiB: int := 0x4000_0000

  // ---------------------------------------------------------------------
  // u64 arithmetic
  // ---------------------------------------------------------------------

  function Add64(x: u64, y: u64): (r: u64)
    ensures x + y < U64 ==> r == x + y
    ensures x + y >= U64 ==> r == x + y - U64
  {
    (x + y) % U64
  }

  function Sub64(x: u64, y: u64): (r: u64)
    ensures y <= x ==> r == x - y
    ensures y > x ==> r == x - y + U64
  {
    (x - y) % U64
  }

  /** ALIGN_DOWN on a u64. */
  function Down64(x: u64, a: u64): (r: u64)
    ensures a > 0 ==> r <= x < r + a && r % a == 0
    ensures a == 0 ==> r == 0
  {
    if a == 0 then 0 else AlignDown(x, a)
  }

  /** ALIGN on a u64: the sum `x + a - 1` wraps before the mask is applied. */
  function Up64(x: u64, a: u64): (r: u64)
    ensures a > 0 && x + a <= U64 ==> x <= r < x + a && r % a == 0
    ensures a == 0 ==> r == 0
  {
    if a == 0 then 0
    else if x + a <= U64 then
      AlignUp64Exact(x, a);
      AlignUp64(x, a)
    else AlignUp64(x, a)
  }

  // ---------------------------------------------------------------------
  // Root regions (pci_bios_init_root_regions_io / _mem)
  // ---------------------------------------------------------------------

  /**
   * pci_bios_init_root_regions_io: the base of the root bus's I/O region,
   * or None when neither hole is large enough.
   */
  function RootIoBase(sum: u64, ioLowEnd: u64): (r: Option<u64>)
    ensures r.Some? ==> r.value == 0xc000 || r.value == 0x1000
  {
    if sum < 0x4000 then Some(0xc000)
    else if sum < Sub64(ioLowEnd, 0x1000) then Some(0x1000)
    else None
  }

  /**
   * The I/O region lands either in 0xc000-0xffff or in 0x1000 up to
   * pci_io_low_end, never over the legacy ports below 0x1000, and the
   * upper hole is preferred whenever it is large enough.
   */
  lemma RootIoFits(sum: u64, ioLowEnd: u64)
    requires 0x1000 <= ioLowEnd <= 0x1_0000
    ensures var r := RootIoBase(sum, ioLowEnd);
      r.Some? ==> 0x1000 <= r.value && r.value + sum <= 0x1_0000
    ensures var r := RootIoBase(sum, ioLowEnd);
      r == Some(0x1000) ==> 0x4000 <= sum && r.value + sum < ioLowEnd
    ensures RootIoBase(sum, ioLowEnd) == Some(0xc000) <==> sum < 0x4000
    ensures RootIoBase(sum, ioLowEnd).None? <==> 0x4000 <= sum && ioLowEnd <= sum + 0x1000
  {}

  /**
   * When a board sets pci_io_low_end below 0x1000 the u64 difference
   * wraps, and every sum above 0x3fff is placed at 0x1000.
   */
  lemma RootIoLowEndWraps(sum: u64, ioLowEnd: u64)
    requires ioLowEnd < 0x1000 && 0x4000 <= sum < ioLowEnd + U64 - 0x1000
    ensures RootIoBase(sum, ioLowEnd) == Some(0x1000)
  {}

  /** The new bases of busses[0]'s Mem and PrefMem regions, and whether the lower one lies in [pcimem_start, pcimem_end]. */
  datatype RootPlacement = RootPlacement(memBase: u64, prefBase: u64, ok: bool)

  /** The region placed at the top of the 32-bit window: PrefMem, unless Mem has the smaller alignment. */
  predicate MemOnTop(mem: seq<Entry>, pref: seq<Entry>) {
    Align(mem) < Align(pref)
  }

  /** ALIGN_DOWN(top - sum, align): the highest aligned base at which the region still ends at or below `top`. */
  function Below(top: u64, l: seq<Entry>): u64 {
    Down64(Sub64(top, RegionSum(l)), Align(l))
  }

  /**
   * pci_bios_init_root_regions_mem: the upper region ends at pcimem_end,
   * the lower one ends at the upper one's base.
   */
  function RootMem(mem: seq<Entry>, pref: seq<Entry>, memStart: u64, memEnd: u64): (r: RootPlacement)
    ensures MemOnTop(mem, pref) ==> r.memBase == Below(memEnd, mem) && r.prefBase == Below(r.memBase, pref)
    ensures !MemOnTop(mem, pref) ==> r.prefBase == Below(memEnd, pref) && r.memBase == Below(r.prefBase, mem)
    ensures r.ok <==> memStart <= (if MemOnTop(mem, pref) then r.prefBase else r.memBase) <= memEnd
  {
    var top := if MemOnTop(mem, pref) then mem else pref;
    var bottom := if MemOnTop(mem, pref) then pref else mem;
    var topBase := Below(memEnd, top);
    var bottomBase := Below(topBase, bottom);
    var ok := !(bottomBase < memStart || bottomBase > memEnd);
    if MemOnTop(mem, pref) then RootPlacement(topBase, bottomBase, ok) else RootPlacement(bottomBase, topBase, ok)
  }

  /**
   * The placement of one region below `top` when nothing wraps: aligned,
   * ending at or below `top`, and as high as its alignment allows.
   */
  lemma BelowFits(top: u64, l: seq<Entry>)
    requires Align(l) > 0 && SumSizes(l) <= top
    ensures Below(top, l) % Align(l) == 0
    ensures Below(top, l) + SumSizes(l) <= top < Below(top, l) + SumSizes(l) + Align(l)
  {}

  /**
   * Without wrap-around the two memory regions are stacked below
   * pcimem_end without overlap, each at a multiple of its alignment, the
   * one with the smaller alignment on top (PrefMem on a tie), each as high
   * as it can go; and the placement succeeds exactly when the lower one
   * starts at or above pcimem_start.
   */
  lemma RootMemLayout(mem: seq<Entry>, pref: seq<Entry>, memStart: u64, memEnd: u64)
    requires Align(mem) > 0 && Align(pref) > 0
    requires SumSizes(mem) + SumSizes(pref) + Align(mem) + Align(pref) <= memEnd
    ensures var r := RootMem(mem, pref, memStart, memEnd);
      r.memBase % Align(mem) == 0 && r.prefBase % Align(pref) == 0 &&
      r.memBase + SumSizes(mem) <= memEnd && r.prefBase + SumSizes(pref) <= memEnd
    ensures var r := RootMem(mem, pref, memStart, memEnd);
      MemOnTop(mem, pref) ==>
        (memEnd < r.memBase + SumSizes(mem) + Align(mem) &&
         r.prefBase + SumSizes(pref) <= r.memBase < r.prefBase + SumSizes(pref) + Align(pref))
    ensures var r := RootMem(mem, pref, memStart, memEnd);
      !MemOnTop(mem, pref) ==>
        (memEnd < r.prefBase + SumSizes(pref) + Align(pref) &&
         r.memBase + SumSizes(mem) <= r.prefBase < r.memBase + SumSizes(mem) + Align(mem))
    ensures var r := RootMem(mem, pref, memStart, memEnd);
      r.ok <==> memStart <= r.memBase && memStart <= r.prefBase
  {
    if MemOnTop(mem, pref) {
      BelowFits(memEnd, mem);
      BelowFits(Below(memEnd, mem), pref);
    } else {
      BelowFits(memEnd, pref);
      BelowFits(Below(memEnd, pref), mem);
    }
  }

  // ---------------------------------------------------------------------
  // The 64-bit windows of pci_bios_map_devices
  // ---------------------------------------------------------------------

  /** pcimem64_start (the r64_mem base), the r64_pref base and pcimem64_end. */
  datatype HighWindow = HighWindow(memBase: u64, prefBase: u64, end: u64)

  /**
   * r64_mem starts at the larger of etc/reserved-memory-end and
   * 4 GiB + RamSizeOver4G, rounded up to its alignment and then to 1 GiB;
   * r64_pref follows it, rounded likewise; the window ends at the end of
   * r64_pref rounded up to 1 GiB.
   */
  function HighPlacement(reservedEnd: u64, ramOver4G: u64, sumMem: u64, alignMem: u64, sumPref: u64, alignPref: u64): HighWindow {
    var floor := Add64(U32, ramOver4G);
    var start := if reservedEnd < floor then floor else reservedEnd;
    var memBase := Up64(Up64(start, alignMem), GiB);
    var prefBase := Up64(Up64(Add64(memBase, sumMem), alignPref), GiB);
    HighWindow(memBase, prefBase, Up64(Add64(prefBase, sumPref), GiB))
  }

  /** A power-of-two alignment and 1 GiB divide one another one way or the other. */
  predicate GiBCompatible(a: int) {
    a > 0 && (a % GiB == 0 || GiB % a == 0)
  }

  /** Rounding up to `a` and then to 1 GiB gives a multiple of both. */
  lemma TwoStepAlign(x: u64, a: u64)
    requires GiBCompatible(a) && x + a + GiB <= U64
    ensures var r := Up64(Up64(x, a), GiB);
      x <= r < x + a + GiB && r % GiB == 0 && r % a == 0
  {
    var y := Up64(x, a);
    var r := Up64(y, GiB);
    if a % GiB == 0 {
      MultipleTrans(y, GiB, a);
      assert y % GiB == 0;
      AlignUpExact(y, GiB);
      AlignUp64Exact(y, GiB);
    } else {
      MultipleTrans(r, a, GiB);
    }
  }

  /**
   * Without wrap-around the 64-bit windows lie above both RAM and the
   * reserved area, r64_mem before r64_pref without overlap, each base a
   * multiple of 1 GiB and of its region's alignment, and pcimem64_end
   * covers r64_pref.
   */
  lemma HighLayout(reservedEnd: u64, ramOver4G: u64, sumMem: u64, alignMem: u64, sumPref: u64, alignPref: u64)
    requires GiBCompatible(alignMem) && GiBCompatible(alignPref)
    requires U32 + ramOver4G + reservedEnd + sumMem + alignMem + sumPref + alignPref + 3 * GiB <= U64
    ensures var h := HighPlacement(reservedEnd, ramOver4G, sumMem, alignMem, sumPref, alignPref);
      reservedEnd <= h.memBase && U32 + ramOver4G <= h.memBase &&
      h.memBase % GiB == 0 && h.memBase % alignMem == 0 &&
      h.memBase + sumMem <= h.prefBase && h.prefBase % GiB == 0 && h.prefBase % alignPref == 0 &&
      h.prefBase + sumPref <= h.end && h.end % GiB == 0
  {
    var floor := Add64(U32, ramOver4G);
    var start := if reservedEnd < floor then floor else reservedEnd;
    TwoStepAlign(start, alignMem);
    var memBase := Up64(Up64(start, alignMem), GiB);
    TwoStepAlign(Add64(memBase, sumMem), alignPref);
  }

  // ---------------------------------------------------------------------
  // Programming one request (pci_region_map_one_entry)
  // ---------------------------------------------------------------------

  /** A byte write of configuration space, as pci_config_writeb performs it. */
  function PutB(s: Space, wmask: Regs, bdf: Bdf, ofs: Offset, v: bv8): Space {
    s.(regs := Store(s.regs, wmask, Location(s.mmconfig, bdf, ofs, Byte), 1, v as bv32))
  }

  /** A word write, as pci_config_writew performs it. */
  function PutW(s: Space, wmask: Regs, bdf: Bdf, ofs: Offset, v: bv16): Space {
    s.(regs := Store(s.regs, wmask, Location(s.mmconfig, bdf, ofs, Word), 2, v as bv32))
  }

  /** An 8-bit I/O base or limit register: address bits 8..15 (`addr >> 8` passed as a u8). */
  function IoField(a: u64): u8 { (a / IO_GRANULE) % 0x100 }

  /** A 16-bit memory base or limit register: address bits 16..31 (`addr >> 16` passed as a u16). */
  function MemField(a: u64): u16 { (a / MEM_GRANULE) % 0x1_0000 }

  /** An upper-32 register: address bits 32..63. */
  function Upper32(a: u64): u32 { a / U32 }

  /** limit = addr + size - 1 on a u64. */
  function Limit(addr: u64, size: u64): u64 { (addr + size - 1) % U64 }

  /**
   * The bridge registers give the window back: for an I/O window in the
   * first 64 KiB on 256-byte boundaries the base register times 256 is the
   * base, and the limit register times 256 plus 255 is the last port.
   */
  lemma IoWindowRoundTrip(addr: u64, size: u64)
    requires addr % IO_GRANULE == 0 && size % IO_GRANULE == 0 && 0 < size && addr + size <= 0x1_0000
    ensures IoField(addr) * IO_GRANULE == addr
    ensures Limit(addr, size) == addr + size - 1
    ensures IoField(Limit(addr, size)) * IO_GRANULE + (IO_GRANULE - 1) == addr + size - 1
  {
    var l := addr + size - 1;
    DivModUnique(l, IO_GRANULE, (addr + size) / IO_GRANULE - 1, IO_GRANULE - 1);
  }

  /** The same for a 32-bit memory window on 64 KiB boundaries. */
  lemma MemWindowRoundTrip(addr: u64, size: u64)
    requires addr % MEM_GRANULE == 0 && size % MEM_GRANULE == 0 && 0 < size && addr + size <= U32
    ensures MemField(addr) * MEM_GRANULE == addr
    ensures Limit(addr, size) == addr + size - 1
    ensures MemField(Limit(addr, size)) * MEM_GRANULE + (MEM_GRANULE - 1) == addr + size - 1
  {
    var l := addr + size - 1;
    DivModUnique(l, MEM_GRANULE, (addr + size) / MEM_GRANULE - 1, MEM_GRANULE - 1);
  }

  /** A prefetchable window anywhere in the 64-bit space: the upper-32 register supplies bits 32..63. */
  lemma PrefWindowRoundTrip(addr: u64, size: u64)
    requires addr % MEM_GRANULE == 0 && size % MEM_GRANULE == 0 && 0 < size && addr + size <= U64
    ensures Upper32(addr) * U32 + MemField(addr) * MEM_GRANULE == addr
    ensures Limit(addr, size) == addr + size - 1
    ensures Upper32(Limit(addr, size)) * U32 + MemField(Limit(addr, size)) * MEM_GRANULE + (MEM_GRANULE - 1) == addr + size - 1
  {
    var l := addr + size - 1;
    DivModUnique(l, MEM_GRANULE, (addr + size) / MEM_GRANULE - 1, MEM_GRANULE - 1);
    SplitUpper(addr);
    SplitUpper(l);
  }

  /** a = (a >> 32) << 32 + ((a >> 16) & 0xffff) << 16 + (a & 0xffff). */
  lemma SplitUpper(a: u64)
    ensures Upper32(a) * U32 + MemField(a) * MEM_GRANULE + a % MEM_GRANULE == a
  {
    var q := a / MEM_GRANULE;
    assert a == q * MEM_GRANULE + a % MEM_GRANULE;
    assert q == (q / 0x1_0000) * 0x1_0000 + q % 0x1_0000;
    DivModUnique(a, U32, q / 0x1_0000, (q % 0x1_0000) * MEM_GRANULE + a % MEM_GRANULE);
  }

  /** The window registers of a bridge after pci_region_map_one_entry programs [base, limit]. */
  function BridgeWrite(s: Space, wmask: Regs, bdf: Bdf, t: RegionType, base: u64, limit: u64): Space {
    match t
    case Io =>
      var s1 := PutB(s, wmask, bdf, PCI_IO_BASE, IoField(base) as bv8);
      var s2 := PutW(s1, wmask, bdf, PCI_IO_BASE_UPPER16, 0);
      var s3 := PutB(s2, wmask, bdf, PCI_IO_LIMIT, IoField(limit) as bv8);
      PutW(s3, wmask, bdf, PCI_IO_LIMIT_UPPER16, 0)
    case Mem =>
      var s1 := PutW(s, wmask, bdf, PCI_MEMORY_BASE, MemField(base) as bv16);
      PutW(s1, wmask, bdf, PCI_MEMORY_LIMIT, MemField(limit) as bv16)
    case PrefMem =>
      var s1 := PutW(s, wmask, bdf, PCI_PREF_MEMORY_BASE, MemField(base) as bv16);
      var s2 := PutW(s1, wmask, bdf, PCI_PREF_MEMORY_LIMIT, MemField(limit) as bv16);
      var s3 := WriteDword(s2, wmask, bdf, PCI_PREF_BASE_UPPER32, Upper32(base) as bv32);
      WriteDword(s3, wmask, bdf, PCI_PREF_LIMIT_UPPER32, Upper32(limit) as bv32)
  }

  /** pci_region_map_one_entry: a BAR gets the address, a bridge window its base and limit registers. */
  function MapOne(s: Space, wmask: Regs, e: Entry, addr: u64): Space
    requires e.bar < PCI_NUM_REGIONS
  {
    if e.bar >= 0 then BarWrite(s, wmask, e.dev.bdf, BarOffset(e.dev.headerType, e.bar), addr, e.is64)
    else BridgeWrite(s, wmask, e.dev.bdf, e.rtype, addr, Limit(addr, e.size))
  }

  /** The registers a configuration write at `ofs` of `n` bytes touches lie at offsets ofs .. ofs + n - 1 of some function. */
  predicate Untouched(m: Regs, m': Regs, lo: int, hi: int) {
    m'.Keys == m.Keys && forall j :: j in m && !(lo <= j.1 < hi) ==> m'[j] == m[j]
  }

  lemma UntouchedTrans(m: Regs, m': Regs, m'': Regs, lo: int, hi: int)
    requires Untouched(m, m', lo, hi) && Untouched(m', m'', lo, hi)
    ensures Untouched(m, m'', lo, hi)
  {}

  /** A write of n bytes at k leaves every register outside [lo, hi) alone when k's offset and the n bytes lie inside. */
  lemma StoreUntouched(m: Regs, w: Regs, k: Key, n: int, v: bv32, lo: int, hi: int)
    requires lo <= k.1 && k.1 + n <= hi
    ensures Untouched(m, Store(m, w, k, n, v), lo, hi)
  {}

  /** A byte or word write at ofs, in the first 256 bytes, reaches offset ofs (for word writes at an even ofs). */
  lemma PutUntouched(s: Space, wmask: Regs, bdf: Bdf, ofs: Offset, w: Width, v: bv32, lo: int, hi: int)
    requires ofs < 0x100 && (w == Dword ==> ofs % 4 == 0) && (w == Word ==> ofs % 2 == 0)
    requires lo <= ofs && ofs + Size(w) <= hi
    ensures Untouched(s.regs, Store(s.regs, wmask, Location(s.mmconfig, bdf, ofs, w), Size(w), v), lo, hi)
  {
    if w == Dword {
      DivModUnique(ofs, 4, ofs / 4, 0);
      assert Location(s.mmconfig, bdf, ofs, w).1 == ofs;
    } else {
      LocationOffset(s.mmconfig, bdf, ofs, w);
    }
    StoreUntouched(s.regs, wmask, Location(s.mmconfig, bdf, ofs, w), Size(w), v, lo, hi);
  }

  /**
   * Programming a bridge window changes only the window registers
   * (offsets 0x1c to 0x33), on either configuration path.
   */
  lemma BridgeWriteFrame(s: Space, wmask: Regs, bdf: Bdf, t: RegionType, base: u64, limit: u64)
    ensures BridgeWrite(s, wmask, bdf, t, base, limit).mmconfig == s.mmconfig
    ensures Untouched(s.regs, BridgeWrite(s, wmask, bdf, t, base, limit).regs, PCI_IO_BASE, PCI_IO_LIMIT_UPPER16 + 2)
  {
    var lo, hi := PCI_IO_BASE, PCI_IO_LIMIT_UPPER16 + 2;
    match t
    case Io =>
      var s1 := PutB(s, wmask, bdf, PCI_IO_BASE, IoField(base) as bv8);
      var s2 := PutW(s1, wmask, bdf, PCI_IO_BASE_UPPER16, 0);
      var s3 := PutB(s2, wmask, bdf, PCI_IO_LIMIT, IoField(limit) as bv8);
      PutUntouched(s, wmask, bdf, PCI_IO_BASE, Byte, IoField(base) as bv8 as bv32, lo, hi);
      PutUntouched(s1, wmask, bdf, PCI_IO_BASE_UPPER16, Word, 0, lo, hi);
      PutUntouched(s2, wmask, bdf, PCI_IO_LIMIT, Byte, IoField(limit) as bv8 as bv32, lo, hi);
      PutUntouched(s3, wmask, bdf, PCI_IO_LIMIT_UPPER16, Word, 0, lo, hi);
      UntouchedTrans(s.regs, s1.regs, s2.regs, lo, hi);
      UntouchedTrans(s.regs, s2.regs, s3.regs, lo, hi);
      UntouchedTrans(s.regs, s3.regs, PutW(s3, wmask, bdf, PCI_IO_LIMIT_UPPER16, 0).regs, lo, hi);
    case Mem =>
      var s1 := PutW(s, wmask, bdf, PCI_MEMORY_BASE, MemField(base) as bv16);
      PutUntouched(s, wmask, bdf, PCI_MEMORY_BASE, Word, MemField(base) as bv16 as bv32, lo, hi);
      PutUntouched(s1, wmask, bdf, PCI_MEMORY_LIMIT, Word, MemField(limit) as bv16 as bv32, lo, hi);
      UntouchedTrans(s.regs, s1.regs, PutW(s1, wmask, bdf, PCI_MEMORY_LIMIT, MemField(limit) as bv16).regs, lo, hi);
    case PrefMem =>
      var s1 := PutW(s, wmask, bdf, PCI_PREF_MEMORY_BASE, MemField(base) as bv16);
      var s2 := PutW(s1, wmask, bdf, PCI_PREF_MEMORY_LIMIT, MemField(limit) as bv16);
      var s3 := WriteDword(s2, wmask, bdf, PCI_PREF_BASE_UPPER32, Upper32(base) as bv32);
      PutUntouched(s, wmask, bdf, PCI_PREF_MEMORY_BASE, Word, MemField(base) as bv16 as bv32, lo, hi);
      PutUntouched(s1, wmask, bdf, PCI_PREF_MEMORY_LIMIT, Word, MemField(limit) as bv16 as bv32, lo, hi);
      PutUntouched(s2, wmask, bdf, PCI_PREF_BASE_UPPER32, Dword, Upper32(base) as bv32, lo, hi);
      PutUntouched(s3, wmask, bdf, PCI_PREF_LIMIT_UPPER32, Dword, Upper32(limit) as bv32, lo, hi);
      UntouchedTrans(s.regs, s1.regs, s2.regs, lo, hi);
      UntouchedTrans(s.regs, s2.regs, s3.regs, lo, hi);
      UntouchedTrans(s.regs, s3.regs, WriteDword(s3, wmask, bdf, PCI_PREF_LIMIT_UPPER32, Upper32(limit) as bv32).regs, lo, hi);
  }

  // ---------------------------------------------------------------------
  // Walking a region (pci_region_map_entries)
  // ---------------------------------------------------------------------

  /** The region a walk goes through: busses[bus].r[t], or the local r64_mem / r64_pref of pci_bios_map_devices. */
  datatype Target = OnBus(bus: int, t: RegionType) | Local

  /** The mapper's state: busses[], the local 64-bit region in use, and configuration space. */
  datatype Layout = Layout(busses: seq<BusRegions>, local: Region, s: Space)

  /** An uninitialised local region: no requests. */
  const NoLocal: Region := Region(0, [])

  predicate Targets(m: Layout, g: Target) {
    g.OnBus? ==> 0 <= g.bus < |m.busses|
  }

  function RegionOf(m: Layout, g: Target): Region
    requires Targets(m, g)
  {
    if g.Local? then m.local else Reg(m.busses[g.bus], g.t)
  }

  function WithRegion(m: Layout, g: Target, r: Region): (m': Layout)
    requires Targets(m, g)
    ensures |m'.busses| == |m.busses| && m'.s == m.s && RegionOf(m', g) == r
    ensures forall b, t :: 0 <= b < |m.busses| && OnBus(b, t) != g ==> Reg(m'.busses[b], t) == Reg(m.busses[b], t)
    ensures g.OnBus? ==> m'.local == m.local
  {
    if g.Local? then m.(local := r) else m.(busses := m.busses[g.bus := WithReg(m.busses[g.bus], g.t, r)])
  }

  function WithBase(m: Layout, g: Target, base: u64): (m': Layout)
    requires Targets(m, g)
    ensures |m'.busses| == |m.busses| && m'.s == m.s && RegionOf(m', g) == RegionOf(m, g).(base := base)
    ensures forall b, t :: 0 <= b < |m.busses| && OnBus(b, t) != g ==> Reg(m'.busses[b], t) == Reg(m.busses[b], t)
    ensures g.OnBus? ==> m'.local == m.local
  {
    WithRegion(m, g, RegionOf(m, g).(base := base))
  }

  /** busses[entry->dev->secondary_bus].r[entry->type]: the region a bridge window seeds. */
  function Child(e: Entry): Target {
    OnBus(e.dev.secondaryBus as int, e.rtype)
  }

  predicate EntriesFit(l: seq<Entry>, n: int) {
    forall e :: e in l ==> EntryOk(e, n)
  }

  /** Every request of every bus names a BAR or a secondary bus in the array. */
  predicate ListsFit(bs: seq<BusRegions>) {
    forall b, t :: 0 <= b < |bs| ==> EntriesFit(Reg(bs[b], t).list, |bs|)
  }

  /** The requests of the array and of the local region are all well formed. */
  predicate Fits(m: Layout) {
    ListsFit(m.busses) && EntriesFit(m.local.list, |m.busses|)
  }

  /**
   * The bookkeeping of one iteration of pci_region_map_entries over target
   * g: the head request's address is the region's base, the base moves past
   * it, a bridge window seeds its secondary bus's region, and the request is
   * unlinked. Configuration space is left alone.
   */
  function BookStep(m: Layout, g: Target): (m': Layout)
    requires Targets(m, g) && RegionOf(m, g).list != [] && EntryOk(RegionOf(m, g).list[0], |m.busses|)
    ensures |m'.busses| == |m.busses| && m'.s == m.s && RegionOf(m', g).list == RegionOf(m, g).list[1..]
    ensures forall b, t :: 0 <= b < |m.busses| && OnBus(b, t) != g ==> Reg(m'.busses[b], t).list == Reg(m.busses[b], t).list
    ensures g.OnBus? ==> m'.local == m.local
  {
    var r := RegionOf(m, g);
    var e := r.list[0];
    var m1 := WithRegion(m, g, Region(Add64(r.base, e.size), r.list[1..]));
    if e.bar == -1 then WithBase(m1, Child(e), r.base) else m1
  }

  /** One iteration of pci_region_map_entries over target g: the bookkeeping, and the head request programmed at its address. */
  function MapStep(m: Layout, wmask: Regs, g: Target): (m': Layout)
    requires Targets(m, g) && RegionOf(m, g).list != [] && EntryOk(RegionOf(m, g).list[0], |m.busses|)
    ensures |m'.busses| == |m.busses| && RegionOf(m', g).list == RegionOf(m, g).list[1..]
    ensures forall b, t :: 0 <= b < |m.busses| && OnBus(b, t) != g ==> Reg(m'.busses[b], t).list == Reg(m.busses[b], t).list
    ensures g.OnBus? ==> m'.local == m.local
  {
    var r := RegionOf(m, g);
    BookStep(m, g).(s := MapOne(m.s, wmask, r.list[0], r.base))
  }

  /** pci_region_map_entries: the loop runs until the region's list is empty. */
  function MapWalk(m: Layout, wmask: Regs, g: Target): (m': Layout)
    requires Targets(m, g) && EntriesFit(RegionOf(m, g).list, |m.busses|)
    ensures |m'.busses| == |m.busses| && RegionOf(m', g).list == []
    ensures forall b, t :: 0 <= b < |m.busses| && OnBus(b, t) != g ==> Reg(m'.busses[b], t).list == Reg(m.busses[b], t).list
    ensures g.OnBus? ==> m'.local == m.local
    decreases |RegionOf(m, g).list|
  {
    if RegionOf(m, g).list == [] then m else MapWalk(MapStep(m, wmask, g), wmask, g)
  }

  /** The bookkeeping of pci_region_map_entries alone: the walk without its configuration writes. */
  function Book(m: Layout, g: Target): (m': Layout)
    requires Targets(m, g) && EntriesFit(RegionOf(m, g).list, |m.busses|)
    ensures |m'.busses| == |m.busses| && m'.s == m.s && RegionOf(m', g).list == []
    decreases |RegionOf(m, g).list|
  {
    if RegionOf(m, g).list == [] then m
    else
      assert RegionOf(m, g).list[0] in RegionOf(m, g).list;
      Book(BookStep(m, g), g)
  }

  /** The walk's bus regions and local region are its bookkeeping's, whatever configuration space it starts from. */
  lemma {:induction false} MapWalkBook(m: Layout, wmask: Regs, g: Target, k: Layout)
    requires Targets(m, g) && EntriesFit(RegionOf(m, g).list, |m.busses|)
    requires k.busses == m.busses && k.local == m.local
    ensures MapWalk(m, wmask, g).busses == Book(k, g).busses && MapWalk(m, wmask, g).local == Book(k, g).local
    decreases |RegionOf(m, g).list|
  {
    var l := RegionOf(m, g).list;
    if l != [] {
      assert l[0] in l;
      assert forall x :: x in l[1..] ==> x in l;
      var m1 := MapStep(m, wmask, g);
      var k1 := BookStep(k, g);
      assert m1.busses == k1.busses && m1.local == k1.local;
      MapWalkBook(m1, wmask, g, k1);
    }
  }

  /** Walking one region keeps every remaining request well formed. */
  lemma MapWalkFits(m: Layout, wmask: Regs, g: Target)
    requires Targets(m, g) && Fits(m)
    ensures Fits(MapWalk(m, wmask, g))
  {
    var m' := MapWalk(m, wmask, g);
    forall b, t | 0 <= b < |m'.busses| ensures EntriesFit(Reg(m'.busses[b], t).list, |m'.busses|) {
      if OnBus(b, t) == g {
        assert Reg(m'.busses[b], t) == RegionOf(m', g);
      }
    }
  }

  // ---------------------------------------------------------------------
  // What a walk hands out
  // ---------------------------------------------------------------------

  /** The address the walk gives the i-th request of l from `base`: base plus the sizes before it, in u64. */
  function EntryAddr(base: u64, l: seq<Entry>, i: nat): (a: u64)
    requires i <= |l|
    ensures base + SumSizes(l[..i]) < U64 ==> a == base + SumSizes(l[..i])
  {
    (base + SumSizes(l[..i])) % U64
  }

  function EntryAddrs(base: u64, l: seq<Entry>): (a: seq<u64>)
    ensures |a| == |l| && forall i :: 0 <= i < |l| ==> a[i] == EntryAddr(base, l, i)
  {
    seq(|l|, i requires 0 <= i < |l| => EntryAddr(base, l, i))
  }

  /** Programs the requests of l in order, each at the address of the same index. */
  function ProgramAll(s: Space, wmask: Regs, l: seq<Entry>, addrs: seq<u64>): Space
    requires |addrs| == |l| && forall e :: e in l ==> e.bar < PCI_NUM_REGIONS
    decreases |l|
  {
    if l == [] then s else ProgramAll(MapOne(s, wmask, l[0], addrs[0]), wmask, l[1..], addrs[1..])
  }

  /** No bridge window of l seeds the region g that l belongs to. */
  predicate NoSelfSeed(l: seq<Entry>, g: Target) {
    forall e :: e in l && e.bar == -1 ==> Child(e) != g
  }

  /** The address of request k + 1 is that of request k of the tail, from the base advanced past the head. */
  lemma EntryAddrShift(base: u64, l: seq<Entry>, k: nat)
    requires k < |l|
    ensures EntryAddr(base, l, k + 1) == EntryAddr(Add64(base, l[0].size), l[1..], k)
  {
    assert l[..k + 1][1..] == l[1..][..k];
    ModAdd(base + l[0].size, SumSizes(l[1..][..k]), U64);
  }

  /** The addresses after the head are those of the tail from the advanced base. */
  lemma EntryAddrsTail(base: u64, l: seq<Entry>)
    requires l != []
    ensures EntryAddrs(base, l)[0] == base
    ensures EntryAddrs(base, l)[1..] == EntryAddrs(Add64(base, l[0].size), l[1..])
  {
    var a := EntryAddrs(base, l);
    var b := EntryAddrs(Add64(base, l[0].size), l[1..]);
    assert l[..0] == [];
    forall i | 0 <= i < |b| ensures a[1..][i] == b[i] {
      EntryAddrShift(base, l, i);
    }
  }

  /** One step, seen from another bus region c: only a bridge window for c changes it, and only its base. */
  lemma BookStepOther(m: Layout, g: Target, c: Target)
    requires Targets(m, g) && RegionOf(m, g).list != [] && EntryOk(RegionOf(m, g).list[0], |m.busses|)
    requires Targets(m, c) && c.OnBus? && c != g
    ensures var e := RegionOf(m, g).list[0];
      RegionOf(BookStep(m, g), c) ==
        if e.bar == -1 && Child(e) == c then RegionOf(m, c).(base := RegionOf(m, g).base) else RegionOf(m, c)
  {
    var r := RegionOf(m, g);
    var e := r.list[0];
    var m1 := WithRegion(m, g, Region(Add64(r.base, e.size), r.list[1..]));
    assert RegionOf(m1, c) == RegionOf(m, c);
  }

  /** One step without self-seeding moves the region's base past the head request. */
  lemma BookStepOwn(m: Layout, g: Target)
    requires Targets(m, g) && RegionOf(m, g).list != [] && EntryOk(RegionOf(m, g).list[0], |m.busses|)
    requires NoSelfSeed(RegionOf(m, g).list, g)
    ensures var r := RegionOf(m, g);
      RegionOf(BookStep(m, g), g).base == Add64(r.base, r.list[0].size)
  {
    var r := RegionOf(m, g);
    var e := r.list[0];
    assert e in r.list;
    var m1 := WithRegion(m, g, Region(Add64(r.base, e.size), r.list[1..]));
    if e.bar == -1 {
      assert RegionOf(WithBase(m1, Child(e), r.base), g) == RegionOf(m1, g) by {
        if g.OnBus? {
          assert OnBus(g.bus, g.t) != Child(e);
        }
      }
    }
  }

  /**
   * Without self-seeding the bookkeeping ends with the region's base just
   * past its last request: base + (sum of the sizes), in u64.
   */
  lemma {:induction false} BookBase(m: Layout, g: Target)
    requires Targets(m, g) && EntriesFit(RegionOf(m, g).list, |m.busses|)
    requires NoSelfSeed(RegionOf(m, g).list, g)
    ensures var r := RegionOf(m, g);
      RegionOf(Book(m, g), g).base == EntryAddr(r.base, r.list, |r.list|)
    decreases |RegionOf(m, g).list|
  {
    var r := RegionOf(m, g);
    if r.list != [] {
      assert r.list[0] in r.list;
      var m1 := BookStep(m, g);
      BookStepOwn(m, g);
      assert forall x :: x in RegionOf(m1, g).list ==> x in r.list;
      BookBase(m1, g);
      EntryAddrShift(r.base, r.list, |r.list| - 1);
    } else {
      assert r.list[..0] == [];
    }
  }

  /**
   * pci_region_map_entries advances r->base past every request: without
   * self-seeding, the region's base ends at base + (sum of the sizes), in u64.
   */
  lemma MapWalkBase(m: Layout, wmask: Regs, g: Target)
    requires Targets(m, g) && EntriesFit(RegionOf(m, g).list, |m.busses|)
    requires NoSelfSeed(RegionOf(m, g).list, g)
    ensures var r := RegionOf(m, g);
      RegionOf(MapWalk(m, wmask, g), g).base == EntryAddr(r.base, r.list, |r.list|)
  {
    MapWalkBook(m, wmask, g, m);
    BookBase(m, g);
  }

  /**
   * pci_region_map_entries hands out consecutive addresses: without
   * self-seeding, request i is programmed at base + (sizes of requests
   * 0 .. i-1), in u64, in list order.
   */
  lemma {:induction false} MapWalkProgram(m: Layout, wmask: Regs, g: Target)
    requires Targets(m, g) && EntriesFit(RegionOf(m, g).list, |m.busses|)
    requires NoSelfSeed(RegionOf(m, g).list, g)
    ensures var r := RegionOf(m, g);
      MapWalk(m, wmask, g).s == ProgramAll(m.s, wmask, r.list, EntryAddrs(r.base, r.list))
    decreases |RegionOf(m, g).list|
  {
    var r := RegionOf(m, g);
    if r.list != [] {
      var e := r.list[0];
      assert e in r.list;
      var m1 := MapStep(m, wmask, g);
      BookStepOwn(m, g);
      var r1 := RegionOf(m1, g);
      assert r1 == Region(Add64(r.base, e.size), r.list[1..]);
      assert forall x :: x in r1.list ==> x in r.list;
      MapWalkProgram(m1, wmask, g);
      EntryAddrsTail(r.base, r.list);
    }
  }

  /** The index of the last bridge window of l that seeds region c, or -1 when none does. */
  function LastSeed(l: seq<Entry>, c: Target): (i: int)
    ensures -1 <= i < |l|
    ensures i >= 0 ==> l[i].bar == -1 && Child(l[i]) == c
    ensures forall j :: i < j < |l| ==> !(l[j].bar == -1 && Child(l[j]) == c)
    decreases |l|
  {
    if l == [] then -1
    else if l[|l| - 1].bar == -1 && Child(l[|l| - 1]) == c then |l| - 1
    else LastSeed(l[..|l| - 1], c)
  }

  lemma LastSeedCons(l: seq<Entry>, c: Target)
    requires l != []
    ensures var k := LastSeed(l[1..], c);
      LastSeed(l, c) == if k >= 0 then k + 1 else if l[0].bar == -1 && Child(l[0]) == c then 0 else -1
  {
    var k := LastSeed(l[1..], c);
    if k >= 0 {
      assert l[k + 1] == l[1..][k];
    }
  }

  /** The seeding of the bookkeeping: every other bus region ends at the address of the last window seeding it, or unchanged. */
  lemma {:induction false} BookSeeds(m: Layout, g: Target, c: Target)
    requires Targets(m, g) && EntriesFit(RegionOf(m, g).list, |m.busses|)
    requires NoSelfSeed(RegionOf(m, g).list, g)
    requires Targets(m, c) && c.OnBus? && c != g
    ensures var r := RegionOf(m, g);
      var k := LastSeed(r.list, c);
      RegionOf(Book(m, g), c) ==
        RegionOf(m, c).(base := if k >= 0 then EntryAddr(r.base, r.list, k) else RegionOf(m, c).base)
    decreases |RegionOf(m, g).list|
  {
    var r := RegionOf(m, g);
    if r.list != [] {
      assert r.list[0] in r.list;
      var m1 := BookStep(m, g);
      BookStepOther(m, g, c);
      BookStepOwn(m, g);
      assert forall e :: e in r.list[1..] ==> e in r.list;
      BookSeeds(m1, g, c);
      LastSeedCons(r.list, c);
      var k := LastSeed(r.list[1..], c);
      if k >= 0 {
        EntryAddrShift(r.base, r.list, k);
      } else {
        assert r.list[..0] == [];
      }
    }
  }

  /**
   * A bridge window seeds busses[secondary_bus].r[type].base with its own
   * address: after the walk, every other bus region's base is the address
   * of the last window of the list that seeds it, or is unchanged.
   */
  lemma MapWalkSeeds(m: Layout, wmask: Regs, g: Target, c: Target)
    requires Targets(m, g) && EntriesFit(RegionOf(m, g).list, |m.busses|)
    requires NoSelfSeed(RegionOf(m, g).list, g)
    requires Targets(m, c) && c.OnBus? && c != g
    ensures var r := RegionOf(m, g);
      var k := LastSeed(r.list, c);
      RegionOf(MapWalk(m, wmask, g), c) ==
        RegionOf(m, c).(base := if k >= 0 then EntryAddr(r.base, r.list, k) else RegionOf(m, c).base)
  {
    MapWalkBook(m, wmask, g, m);
    BookSeeds(m, g, c);
  }

  /** The sizes before request i and request i itself fit in the sizes before any later j. */
  lemma SumSizesPrefix(l: seq<Entry>, i: nat, j: nat)
    requires i < j <= |l|
    ensures SumSizes(l[..i]) + l[i].size <= SumSizes(l[..j]) <= SumSizes(l)
  {
    assert l[..j] == l[..i] + l[i..j];
    SumSizesAppend(l[..i], l[i..j]);
    assert l == l[..j] + l[j..];
    SumSizesAppend(l[..j], l[j..]);
  }

  lemma EntryAddrExact(base: u64, l: seq<Entry>, i: nat)
    requires base + SumSizes(l) < U64 && i < |l|
    ensures EntryAddr(base, l, i) == base + SumSizes(l[..i])
    ensures EntryAddr(base, l, i) + l[i].size <= base + SumSizes(l)
  {
    SumSizesPrefix(l, i, |l|);
  }

  /** Without u64 wrap-around the addresses handed out lie in [base, base + sum) and do not overlap. */
  lemma EntryAddrsDisjoint(base: u64, l: seq<Entry>)
    requires base + SumSizes(l) < U64
    ensures forall i :: 0 <= i < |l| ==> base <= EntryAddr(base, l, i) && EntryAddr(base, l, i) + l[i].size <= base + SumSizes(l)
    ensures forall i, j :: 0 <= i < j < |l| ==> EntryAddr(base, l, i) + l[i].size <= EntryAddr(base, l, j)
  {
    forall i | 0 <= i < |l|
      ensures base <= EntryAddr(base, l, i) && EntryAddr(base, l, i) + l[i].size <= base + SumSizes(l)
    {
      EntryAddrExact(base, l, i);
    }
    forall i, j | 0 <= i < j < |l|
      ensures EntryAddr(base, l, i) + l[i].size <= EntryAddr(base, l, j)
    {
      EntryAddrExact(base, l, i);
      EntryAddrExact(base, l, j);
      SumSizesPrefix(l, i, j);
    }
  }

  /** The region walked at step j of the bus loop of pci_bios_map_devices: bus j / 3, type j % 3. */
  function SweepTarget(j: nat): Target {
    OnBus(j / 3, RegionTypes[j % 3])
  }

  /** A round of a counted loop over layouts: the state after step j. */
  type LayoutRound = (Layout, nat) -> Layout

  /** Steps j, j + 1, ..., n - 1 of a counted loop. */
  function Steps(round: LayoutRound, m: Layout, j: nat, n: nat): Layout
    decreases n - j
  {
    if j >= n then m else Steps(round, round(m, j), j + 1, n)
  }

  /** The states a counted loop passes through from step j: one per step, then the result. */
  ghost function StepTrace(round: LayoutRound, m: Layout, j: nat, n: nat): (tr: seq<Layout>)
    ensures |tr| == (if j >= n then 1 else n - j + 1)
    ensures tr[0] == m && tr[|tr| - 1] == Steps(round, m, j, n)
    decreases n - j
  {
    if j >= n then [m] else [m] + StepTrace(round, round(m, j), j + 1, n)
  }

  lemma {:induction false} StepTraceAt(round: LayoutRound, m: Layout, j: nat, n: nat, i: nat)
    requires j + i < n
    ensures var tr := StepTrace(round, m, j, n); tr[i + 1] == round(tr[i], j + i)
    decreases i
  {
    if i > 0 {
      StepTraceAt(round, round(m, j), j + 1, n, i - 1);
    }
  }

  /** Step j of the bus loop: walk the region SweepTarget(j) (every layout the loop meets fits, see SweepPrefix). */
  function SweepRound(wmask: Regs): LayoutRound {
    (m: Layout, j: nat) => if Fits(m) && Targets(m, SweepTarget(j)) then MapWalk(m, wmask, SweepTarget(j)) else m
  }

  /** for (bus = 0; bus <= MaxPCIBus; bus++) for (type = 0; type < 3; type++) map busses[bus].r[type]. */
  function Sweep(m: Layout, wmask: Regs): Layout {
    Steps(SweepRound(wmask), m, 0, 3 * |m.busses|)
  }

  /** Step i of the bus loop from a layout that fits walks the region SweepTarget(i). */
  lemma SweepTraceStep(m: Layout, wmask: Regs, i: nat)
    requires i < 3 * |m.busses|
    ensures var tr := StepTrace(SweepRound(wmask), m, 0, 3 * |m.busses|);
      Fits(tr[i]) && Targets(tr[i], SweepTarget(i)) ==> tr[i + 1] == MapWalk(tr[i], wmask, SweepTarget(i))
  {
    StepTraceAt(SweepRound(wmask), m, 0, 3 * |m.busses|, i);
  }

  /** Two different steps of the bus loop walk two different regions. */
  lemma SweepTargetsDiffer(i: nat, j: nat)
    requires i != j
    ensures SweepTarget(i) != SweepTarget(j)
  {
    assert i == 3 * (i / 3) + i % 3 && j == 3 * (j / 3) + j % 3;
  }

  /** Every region among the first i steps of the bus loop has an empty list in m. */
  predicate ClearedBefore(m: Layout, i: nat) {
    forall j :: 0 <= j < i && j / 3 < |m.busses| ==> Reg(m.busses[j / 3], RegionTypes[j % 3]).list == []
  }

  /** Walking the region of step i after steps 0 .. i-1 clears it and keeps the earlier ones clear. */
  lemma SweepPrefixStep(p: Layout, wmask: Regs, i: nat)
    requires Fits(p) && Targets(p, SweepTarget(i)) && ClearedBefore(p, i)
    ensures Fits(MapWalk(p, wmask, SweepTarget(i))) && ClearedBefore(MapWalk(p, wmask, SweepTarget(i)), i + 1)
  {
    var g := SweepTarget(i);
    var q := MapWalk(p, wmask, g);
    MapWalkFits(p, wmask, g);
    forall j | 0 <= j < i + 1 && j / 3 < |q.busses|
      ensures Reg(q.busses[j / 3], RegionTypes[j % 3]).list == []
    {
      if j < i {
        SweepTargetsDiffer(j, i);
        assert OnBus(j / 3, RegionTypes[j % 3]) != g;
      } else {
        assert RegionOf(q, g) == Reg(q.busses[j / 3], RegionTypes[j % 3]);
      }
    }
  }

  /**
   * The first i steps of the bus loop keep every request well formed and
   * leave each region they walked with an empty list.
   */
  lemma {:induction false} SweepPrefix(m: Layout, wmask: Regs, i: nat)
    requires Fits(m) && i <= 3 * |m.busses|
    ensures var tr := StepTrace(SweepRound(wmask), m, 0, 3 * |m.busses|);
      |tr[i].busses| == |m.busses| && Fits(tr[i]) && ClearedBefore(tr[i], i)
    decreases i
  {
    var tr := StepTrace(SweepRound(wmask), m, 0, 3 * |m.busses|);
    if i > 0 {
      SweepPrefix(m, wmask, i - 1);
      SweepTraceStep(m, wmask, i - 1);
      SweepPrefixStep(tr[i - 1], wmask, i - 1);
    }
  }

  /** A layout whose regions of all 3 * |busses| steps are clear has every request list empty. */
  lemma ClearedAll(m: Layout)
    requires ClearedBefore(m, 3 * |m.busses|)
    ensures forall b, t :: 0 <= b < |m.busses| ==> Reg(m.busses[b], t).list == []
  {
    forall b, t | 0 <= b < |m.busses|
      ensures Reg(m.busses[b], t).list == []
    {
      var k := if t == Io then 0 else if t == Mem then 1 else 2;
      SweepTargetAt(b, k);
      assert 3 * b + k < 3 * |m.busses|;
    }
  }

  /** After the bus loop of pci_bios_map_devices every request list of every bus is empty. */
  lemma SweepClears(m: Layout, wmask: Regs)
    requires Fits(m)
    ensures |Sweep(m, wmask).busses| == |m.busses|
    ensures forall b, t :: 0 <= b < |m.busses| ==> Reg(Sweep(m, wmask).busses[b], t).list == []
  {
    var n := 3 * |m.busses|;
    var tr := StepTrace(SweepRound(wmask), m, 0, n);
    SweepPrefix(m, wmask, n);
    ClearedAll(tr[n]);
    assert tr[n] == Sweep(m, wmask);
  }

  // ---------------------------------------------------------------------
  // The mapping loops
  // ---------------------------------------------------------------------

  method WriteByte(cfg: ConfigSpace, bdf: Bdf, ofs: Offset, v: bv8)
    modifies cfg
    ensures cfg.State() == PutB(old(cfg.State()), cfg.wmask, bdf, ofs, v)
  {
    cfg.WriteB(bdf, ofs, v);
  }

  method WriteWord(cfg: ConfigSpace, bdf: Bdf, ofs: Offset, v: bv16)
    modifies cfg
    ensures cfg.State() == PutW(old(cfg.State()), cfg.wmask, bdf, ofs, v)
  {
    cfg.WriteW(bdf, ofs, v);
  }

  method WriteDwordAt(cfg: ConfigSpace, bdf: Bdf, ofs: Offset, v: bv32)
    modifies cfg
    ensures cfg.State() == WriteDword(old(cfg.State()), cfg.wmask, bdf, ofs, v)
  {
    cfg.WriteL(bdf, ofs, v);
  }

  /** The bridge half of pci_region_map_one_entry. */
  method WriteWindow(cfg: ConfigSpace, bdf: Bdf, t: RegionType, base: u64, limit: u64)
    modifies cfg
    ensures cfg.State() == BridgeWrite(old(cfg.State()), cfg.wmask, bdf, t, base, limit)
  {
    if t == Io {
      WriteByte(cfg, bdf, PCI_IO_BASE, IoField(base) as bv8);
      WriteWord(cfg, bdf, PCI_IO_BASE_UPPER16, 0);
      WriteByte(cfg, bdf, PCI_IO_LIMIT, IoField(limit) as bv8);
      WriteWord(cfg, bdf, PCI_IO_LIMIT_UPPER16, 0);
    }
    if t == Mem {
      WriteWord(cfg, bdf, PCI_MEMORY_BASE, MemField(base) as bv16);
      WriteWord(cfg, bdf, PCI_MEMORY_LIMIT, MemField(limit) as bv16);
    }
    if t == PrefMem {
      WriteWord(cfg, bdf, PCI_PREF_MEMORY_BASE, MemField(base) as bv16);
      WriteWord(cfg, bdf, PCI_PREF_MEMORY_LIMIT, MemField(limit) as bv16);
      WriteDwordAt(cfg, bdf, PCI_PREF_BASE_UPPER32, Upper32(base) as bv32);
      WriteDwordAt(cfg, bdf, PCI_PREF_LIMIT_UPPER32, Upper32(limit) as bv32);
    }
  }

  /** pci_region_map_one_entry */
  method MapOneEntry(cfg: ConfigSpace, e: Entry, addr: u64)
    requires e.bar < PCI_NUM_REGIONS
    modifies cfg
    ensures cfg.State() == MapOne(old(cfg.State()), cfg.wmask, e, addr)
  {
    if e.bar >= 0 {
      SetRegionAddr(cfg, e.dev, e.bar, addr, e.is64);
      return;
    }
    var limit := Limit(addr, e.size);
    WriteWindow(cfg, e.dev.bdf, e.rtype, addr, limit);
  }

  /** The region `g` names, read from the array or the local. */
  function Current(bs: seq<BusRegions>, local: Region, g: Target): Region
    requires g.OnBus? ==> 0 <= g.bus < |bs|
  {
    if g.Local? then local else Reg(bs[g.bus], g.t)
  }

  /** One iteration of the hlist walk of pci_region_map_entries. */
  method MapEntry(cfg: ConfigSpace, busses: array<BusRegions>, g: Target, local: Region) returns (local': Region)
    requires Targets(Layout(busses[..], local, cfg.State()), g)
    requires Current(busses[..], local, g).list != [] && EntryOk(Current(busses[..], local, g).list[0], busses.Length)
    modifies cfg, busses
    ensures Layout(busses[..], local', cfg.State()) == MapStep(Layout(old(busses[..]), local, old(cfg.State())), cfg.wmask, g)
  {
    var r := if g.Local? then local else Reg(busses[g.bus], g.t);
    var e := r.list[0];
    var addr := r.base;
    local' := local;
    if g.Local? {
      local' := Region(Add64(addr, e.size), r.list[1..]);
    } else {
      busses[g.bus] := WithReg(busses[g.bus], g.t, Region(Add64(addr, e.size), r.list[1..]));
    }
    if e.bar == -1 {
      var c := e.dev.secondaryBus as int;
      busses[c] := WithReg(busses[c], e.rtype, Reg(busses[c], e.rtype).(base := addr));
    }
    MapOneEntry(cfg, e, addr);
  }

  /** pci_region_map_entries(busses, r) for the region g names. */
  method MapEntries(cfg: ConfigSpace, busses: array<BusRegions>, g: Target, local: Region) returns (local': Region)
    requires Targets(Layout(busses[..], local, cfg.State()), g)
    requires EntriesFit(Current(busses[..], local, g).list, busses.Length)
    modifies cfg, busses
    ensures Layout(busses[..], local', cfg.State()) == MapWalk(Layout(old(busses[..]), local, old(cfg.State())), cfg.wmask, g)
  {
    local' := local;
    ghost var goal := MapWalk(Layout(busses[..], local, cfg.State()), cfg.wmask, g);
    while (if g.Local? then local'.list else Reg(busses[g.bus], g.t).list) != []
      invariant Targets(Layout(busses[..], local', cfg.State()), g)
      invariant EntriesFit(Current(busses[..], local', g).list, busses.Length)
      invariant MapWalk(Layout(busses[..], local', cfg.State()), cfg.wmask, g) == goal
      decreases |Current(busses[..], local', g).list|
    {
      local' := MapEntry(cfg, busses, g, local');
    }
  }

  /** Step 3 * bus + k of the bus loop walks type k of bus `bus`. */
  lemma SweepTargetAt(bus: nat, k: nat)
    requires k < 3
    ensures SweepTarget(3 * bus + k) == OnBus(bus, RegionTypes[k])
  {
    DivModUnique(3 * bus + k, 3, bus, k);
  }

  /** One pass of the inner loop: pci_region_map_entries(busses, &busses[bus].r[type]). */
  method SweepStep(cfg: ConfigSpace, busses: array<BusRegions>, bus: int, k: int, ghost m0: Layout, ghost tr: seq<Layout>)
    requires 0 <= bus < busses.Length && 0 <= k < 3
    requires |m0.busses| == busses.Length && tr == StepTrace(SweepRound(cfg.wmask), m0, 0, 3 * |m0.busses|)
    requires Layout(busses[..], NoLocal, cfg.State()) == tr[3 * bus + k]
    requires Fits(Layout(busses[..], NoLocal, cfg.State()))
    modifies cfg, busses
    ensures Layout(busses[..], NoLocal, cfg.State()) == tr[3 * bus + k + 1]
    ensures Fits(Layout(busses[..], NoLocal, cfg.State()))
  {
    ghost var m := Layout(busses[..], NoLocal, cfg.State());
    SweepTraceStep(m0, cfg.wmask, 3 * bus + k);
    SweepTargetAt(bus, k);
    MapWalkFits(m, cfg.wmask, OnBus(bus, RegionTypes[k]));
    var _ := MapEntries(cfg, busses, OnBus(bus, RegionTypes[k]), NoLocal);
  }

  /** The inner loop for one bus: its Io, Mem and PrefMem regions in turn. */
  method SweepBus(cfg: ConfigSpace, busses: array<BusRegions>, bus: int, ghost m0: Layout, ghost tr: seq<Layout>)
    requires 0 <= bus < busses.Length
    requires |m0.busses| == busses.Length && tr == StepTrace(SweepRound(cfg.wmask), m0, 0, 3 * |m0.busses|)
    requires Layout(busses[..], NoLocal, cfg.State()) == tr[3 * bus]
    requires Fits(Layout(busses[..], NoLocal, cfg.State()))
    modifies cfg, busses
    ensures Layout(busses[..], NoLocal, cfg.State()) == tr[3 * bus + 3]
    ensures Fits(Layout(busses[..], NoLocal, cfg.State()))
  {
    var k := 0;
    while k < 3
      invariant 0 <= k <= 3
      invariant Layout(busses[..], NoLocal, cfg.State()) == tr[3 * bus + k]
      invariant Fits(Layout(busses[..], NoLocal, cfg.State()))
    {
      SweepStep(cfg, busses, bus, k, m0, tr);
      k := k + 1;
    }
  }

  /** The bus loop of pci_bios_map_devices: every region of every bus, in bus order and then Io, Mem, PrefMem. */
  method MapBusses(cfg: ConfigSpace, busses: array<BusRegions>)
    requires Fits(Layout(busses[..], NoLocal, cfg.State()))
    modifies cfg, busses
    ensures Layout(busses[..], NoLocal, cfg.State()) == Sweep(Layout(old(busses[..]), NoLocal, old(cfg.State())), cfg.wmask)
  {
    ghost var m0 := Layout(busses[..], NoLocal, cfg.State());
    ghost var tr := StepTrace(SweepRound(cfg.wmask), m0, 0, 3 * busses.Length);
    var bus := 0;
    while bus < busses.Length
      invariant 0 <= bus <= busses.Length
      invariant Layout(busses[..], NoLocal, cfg.State()) == tr[3 * bus]
      invariant Fits(Layout(busses[..], NoLocal, cfg.State()))
    {
      SweepBus(cfg, busses, bus, m0, tr);
      bus := bus + 1;
    }
  }

  // ---------------------------------------------------------------------
  // pci_bios_map_devices
  // ---------------------------------------------------------------------

  /** pcimem_start, pcimem_end, pcimem64_start, pcimem64_end and pci_io_low_end. */
  datatype Globals = Globals(memStart: u64, memEnd: u64, mem64Start: u64, mem64End: u64, ioLowEnd: u64)

  /** The address-space globals of pciinit.c, which the boards and pci_setup set before the mapping pass. */
  class AddressSpace {
    var memStart: u64
    var memEnd: u64
    var mem64Start: u64
    var mem64End: u64
    var ioLowEnd: u64

    constructor (g: Globals)
      ensures Values() == g
    {
      memStart, memEnd, mem64Start, mem64End, ioLowEnd := g.memStart, g.memEnd, g.mem64Start, g.mem64End, g.ioLowEnd;
    }

    function Values(): Globals
      reads this
    {
      Globals(memStart, memEnd, mem64Start, mem64End, ioLowEnd)
    }
  }

  /** busses[b].r[t].base = base */
  function SetBase(bs: seq<BusRegions>, b: int, t: RegionType, base: u64): (r: seq<BusRegions>)
    requires 0 <= b < |bs|
    ensures |r| == |bs| && Reg(r[b], t).base == base
    ensures forall c, u :: 0 <= c < |bs| ==> Reg(r[c], u).list == Reg(bs[c], u).list
    ensures forall c, u :: 0 <= c < |bs| && (c != b || u != t) ==> Reg(r[c], u) == Reg(bs[c], u)
  {
    bs[b := WithReg(bs[b], t, Reg(bs[b], t).(base := base))]
  }

  /** The bases pci_bios_init_root_regions_mem writes into busses[0]. */
  function PlaceRoot(bs: seq<BusRegions>, p: RootPlacement): (r: seq<BusRegions>)
    requires |bs| > 0
    ensures |r| == |bs| && r[0].mem.base == p.memBase && r[0].pref.base == p.prefBase
  {
    SetBase(SetBase(bs, 0, Mem, p.memBase), 0, PrefMem, p.prefBase)
  }

  /** busses[0] after both pci_region_migrate_64bit_entries calls: its Mem and PrefMem lists keep only what stays below 4 GiB. */
  function KeepLow(bs: seq<BusRegions>): (r: seq<BusRegions>)
    requires |bs| > 0
    ensures |r| == |bs| && r[0].mem.list == Stayed(bs[0].mem.list) && r[0].pref.list == Stayed(bs[0].pref.list)
    ensures r[0].io == bs[0].io && r[0].mem.base == bs[0].mem.base && r[0].pref.base == bs[0].pref.base
    ensures forall c :: 0 < c < |bs| ==> r[c] == bs[c]
  {
    bs[0 := bs[0].(mem := bs[0].mem.(list := Stayed(bs[0].mem.list)), pref := bs[0].pref.(list := Stayed(bs[0].pref.list)))]
  }

  /** Changing bases keeps every request well formed. */
  lemma SetBaseFits(bs: seq<BusRegions>, b: int, t: RegionType, base: u64)
    requires 0 <= b < |bs| && ListsFit(bs)
    ensures ListsFit(SetBase(bs, b, t, base))
  {
    var r := SetBase(bs, b, t, base);
    forall c, u | 0 <= c < |r| ensures EntriesFit(Reg(r[c], u).list, |r|) {
      assert Reg(r[c], u).list == Reg(bs[c], u).list;
    }
  }

  /** Migration keeps every request well formed, and the moved requests are well formed too. */
  lemma KeepLowFits(bs: seq<BusRegions>)
    requires |bs| > 0 && ListsFit(bs)
    ensures ListsFit(KeepLow(bs))
    ensures EntriesFit(Moved(bs[0].mem.list), |bs|) && EntriesFit(Moved(bs[0].pref.list), |bs|)
  {
    var r := KeepLow(bs);
    assert EntriesFit(Reg(bs[0], Mem).list, |bs|) && EntriesFit(Reg(bs[0], PrefMem).list, |bs|);
    forall c, u | 0 <= c < |r| ensures EntriesFit(Reg(r[c], u).list, |r|) {
      if c > 0 {
        assert r[c] == bs[c];
      } else {
        assert EntriesFit(Reg(bs[0], u).list, |bs|);
      }
    }
  }

  /** What pci_bios_map_devices leaves behind: the mapper's state, the globals, and false where it panics. */
  datatype Outcome = Outcome(m: Layout, g: Globals, ok: bool)

  /** The 64-bit windows for the requests moved off the root bus. */
  function HighOf(memHigh: seq<Entry>, prefHigh: seq<Entry>, reservedEnd: u64, ramOver4G: u64): HighWindow {
    HighPlacement(reservedEnd, ramOver4G, RegionSum(memHigh), Align(memHigh), RegionSum(prefHigh), Align(prefHigh))
  }

  /**
   * The mapping of pci_bios_map_devices's second attempt: the 64-bit
   * memory entries from the r64_mem base, the 64-bit prefetchable ones
   * from the r64_pref base, then every bus.
   */
  function MapHighEntries(m: Layout, wmask: Regs, memHigh: seq<Entry>, prefHigh: seq<Entry>, h: HighWindow): (r: Layout)
    requires ListsFit(m.busses) && EntriesFit(memHigh, |m.busses|) && EntriesFit(prefHigh, |m.busses|)
  {
    var m5 := MapWalk(m.(local := Region(h.memBase, memHigh)), wmask, Local);
    var m6 := MapWalk(m5.(local := Region(h.prefBase, prefHigh)), wmask, Local);
    MapWalkFits(m.(local := Region(h.memBase, memHigh)), wmask, Local);
    Sweep(m6.(local := NoLocal), wmask)
  }

  /**
   * The second attempt of pci_bios_map_devices, after the root memory did
   * not fit below the 32-bit window: the 64-bit entries leave the root
   * lists, the root is placed again and, when it fits, the 64-bit entries
   * are mapped above 4 GiB.
   */
  function MapHighSpec(m: Layout, wmask: Regs, gl: Globals, reservedEnd: u64, ramOver4G: u64): (r: Outcome)
    requires |m.busses| > 0 && ListsFit(m.busses)
  {
    var bs := m.busses;
    var memHigh := Moved(bs[0].mem.list);
    var prefHigh := Moved(bs[0].pref.list);
    var bs3 := KeepLow(bs);
    var p2 := RootMem(bs3[0].mem.list, bs3[0].pref.list, gl.memStart, gl.memEnd);
    var bs4 := PlaceRoot(bs3, p2);
    if !p2.ok then Outcome(Layout(bs4, NoLocal, m.s), gl, false)
    else
      var h := HighOf(memHigh, prefHigh, reservedEnd, ramOver4G);
      KeepLowFits(bs);
      SetBaseFits(bs3, 0, Mem, p2.memBase);
      SetBaseFits(SetBase(bs3, 0, Mem, p2.memBase), 0, PrefMem, p2.prefBase);
      Outcome(MapHighEntries(Layout(bs4, NoLocal, m.s), wmask, memHigh, prefHigh, h),
              gl.(mem64Start := h.memBase, mem64End := h.end), true)
  }

  /**
   * pci_bios_map_devices: root I/O, root memory (with the retry after
   * migrating 64-bit requests above 4 GiB), the 64-bit windows, then the
   * bus loop. reservedEnd is etc/reserved-memory-end, ramOver4G is
   * RamSizeOver4G.
   */
  function MapDevicesSpec(m: Layout, wmask: Regs, gl: Globals, reservedEnd: u64, ramOver4G: u64): (r: Outcome)
    requires |m.busses| > 0 && ListsFit(m.busses)
  {
    var bs := m.busses;
    var io := RootIoBase(RegionSum(bs[0].io.list), gl.ioLowEnd);
    if io.None? then Outcome(m, gl, false)
    else
      var bs1 := SetBase(bs, 0, Io, io.value);
      var p := RootMem(bs1[0].mem.list, bs1[0].pref.list, gl.memStart, gl.memEnd);
      var bs2 := PlaceRoot(bs1, p);
      SetBaseFits(bs, 0, Io, io.value);
      SetBaseFits(bs1, 0, Mem, p.memBase);
      SetBaseFits(SetBase(bs1, 0, Mem, p.memBase), 0, PrefMem, p.prefBase);
      if p.ok then Outcome(Sweep(Layout(bs2, NoLocal, m.s), wmask), gl.(mem64Start := 0), true)
      else MapHighSpec(Layout(bs2, NoLocal, m.s), wmask, gl, reservedEnd, ramOver4G)
  }

  /** The second attempt's mapping empties every request list of every bus. */
  lemma MapHighEntriesClears(m: Layout, wmask: Regs, memHigh: seq<Entry>, prefHigh: seq<Entry>, h: HighWindow)
    requires ListsFit(m.busses) && EntriesFit(memHigh, |m.busses|) && EntriesFit(prefHigh, |m.busses|)
    ensures var r := MapHighEntries(m, wmask, memHigh, prefHigh, h);
      |r.busses| == |m.busses| && forall b, t :: 0 <= b < |m.busses| ==> Reg(r.busses[b], t).list == []
  {
    var m4 := m.(local := Region(h.memBase, memHigh));
    MapWalkFits(m4, wmask, Local);
    var m5 := MapWalk(m4, wmask, Local).(local := Region(h.prefBase, prefHigh));
    MapWalkFits(m5, wmask, Local);
    SweepClears(MapWalk(m5, wmask, Local).(local := NoLocal), wmask);
  }

  /** When pci_bios_map_devices succeeds, every request of every bus has been mapped and unlinked. */
  lemma MapDevicesClears(m: Layout, wmask: Regs, gl: Globals, reservedEnd: u64, ramOver4G: u64)
    requires |m.busses| > 0 && ListsFit(m.busses)
    ensures var r := MapDevicesSpec(m, wmask, gl, reservedEnd, ramOver4G);
      r.ok ==> |r.m.busses| == |m.busses| && forall b, t :: 0 <= b < |m.busses| ==> Reg(r.m.busses[b], t).list == []
  {
    var bs := m.busses;
    var io := RootIoBase(RegionSum(bs[0].io.list), gl.ioLowEnd);
    if io.Some? {
      var bs1 := SetBase(bs, 0, Io, io.value);
      var p := RootMem(bs1[0].mem.list, bs1[0].pref.list, gl.memStart, gl.memEnd);
      var bs2 := PlaceRoot(bs1, p);
      SetBaseFits(bs, 0, Io, io.value);
      SetBaseFits(bs1, 0, Mem, p.memBase);
      SetBaseFits(SetBase(bs1, 0, Mem, p.memBase), 0, PrefMem, p.prefBase);
      if p.ok {
        SweepClears(Layout(bs2, NoLocal, m.s), wmask);
      } else {
        var bs3 := KeepLow(bs2);
        var p2 := RootMem(bs3[0].mem.list, bs3[0].pref.list, gl.memStart, gl.memEnd);
        if p2.ok {
          KeepLowFits(bs2);
          SetBaseFits(bs3, 0, Mem, p2.memBase);
          SetBaseFits(SetBase(bs3, 0, Mem, p2.memBase), 0, PrefMem, p2.prefBase);
          MapHighEntriesClears(Layout(PlaceRoot(bs3, p2), NoLocal, m.s), wmask, Moved(bs2[0].mem.list), Moved(bs2[0].pref.list),
            HighOf(Moved(bs2[0].mem.list), Moved(bs2[0].pref.list), reservedEnd, ramOver4G));
        }
      }
    }
  }

  /** pci_bios_init_root_regions_io: 0 with busses[0]'s I/O base set, -1 when the I/O space is exhausted. */
  method InitRootIo(busses: array<BusRegions>, ioLowEnd: u64) returns (ret: int)
    requires busses.Length > 0
    modifies busses
    ensures var r := RootIoBase(RegionSum(old(busses[0]).io.list), ioLowEnd);
      (ret == 0 <==> r.Some?) && (ret == 0 || ret == -1) &&
      busses[..] == if r.Some? then SetBase(old(busses[..]), 0, Io, r.value) else old(busses[..])
  {
    var sum := Sum(busses[0].io.list);
    var base: u64;
    if sum < 0x4000 {
      base := 0xc000;
    } else if sum < Sub64(ioLowEnd, 0x1000) {
      base := 0x1000;
    } else {
      return -1;
    }
    busses[0] := WithReg(busses[0], Io, busses[0].io.(base := base));
    return 0;
  }

  /** pci_bios_init_root_regions_mem: both bases are written; 0 when the lower region lies in [memStart, memEnd], else -1. */
  method InitRootMem(busses: array<BusRegions>, memStart: u64, memEnd: u64) returns (ret: int)
    requires busses.Length > 0
    modifies busses
    ensures var p := RootMem(old(busses[0]).mem.list, old(busses[0]).pref.list, memStart, memEnd);
      (ret == 0 <==> p.ok) && (ret == 0 || ret == -1) && busses[..] == PlaceRoot(old(busses[..]), p)
  {
    ghost var p := RootMem(busses[0].mem.list, busses[0].pref.list, memStart, memEnd);
    var rEnd, rStart := PrefMem, Mem;
    if Align(busses[0].mem.list) < Align(busses[0].pref.list) {
      rEnd, rStart := Mem, PrefMem;
    }
    var sum := Sum(Reg(busses[0], rEnd).list);
    var align := Align(Reg(busses[0], rEnd).list);
    var endBase := Down64(Sub64(memEnd, sum), align);
    busses[0] := WithReg(busses[0], rEnd, Reg(busses[0], rEnd).(base := endBase));
    sum := Sum(Reg(busses[0], rStart).list);
    align := Align(Reg(busses[0], rStart).list);
    var startBase := Down64(Sub64(endBase, sum), align);
    busses[0] := WithReg(busses[0], rStart, Reg(busses[0], rStart).(base := startBase));
    assert busses[..] == PlaceRoot(old(busses[..]), p);
    if startBase < memStart || startBase > memEnd {
      return -1;
    }
    return 0;
  }

  /** The two pci_region_migrate_64bit_entries calls of pci_bios_map_devices, into empty local lists. */
  method MigrateRoot(busses: array<BusRegions>) returns (memHigh: seq<Entry>, prefHigh: seq<Entry>)
    requires busses.Length > 0
    modifies busses
    ensures busses[..] == KeepLow(old(busses[..]))
    ensures memHigh == Moved(old(busses[0]).mem.list) && prefHigh == Moved(old(busses[0]).pref.list)
  {
    var memLow, prefLow;
    memLow, memHigh := Migrate(busses[0].mem.list, []);
    prefLow, prefHigh := Migrate(busses[0].pref.list, []);
    assert memHigh == Moved(busses[0].mem.list) + [];
    assert prefHigh == Moved(busses[0].pref.list) + [];
    busses[0] := busses[0].(mem := busses[0].mem.(list := memLow), pref := busses[0].pref.(list := prefLow));
  }

  /** The r64_mem and r64_pref bases and pcimem64_end, computed as pci_bios_map_devices does. */
  method HighWindows(memHigh: seq<Entry>, prefHigh: seq<Entry>, reservedEnd: u64, ramOver4G: u64) returns (h: HighWindow)
    ensures h == HighOf(memHigh, prefHigh, reservedEnd, ramOver4G)
  {
    var sumMem := Sum(memHigh);
    var sumPref := Sum(prefHigh);
    var alignMem := Align(memHigh);
    var alignPref := Align(prefHigh);
    var memBase := reservedEnd;
    if memBase < Add64(U32, ramOver4G) {
      memBase := Add64(U32, ramOver4G);
    }
    memBase := Up64(memBase, alignMem);
    memBase := Up64(memBase, GiB);
    var prefBase := Add64(memBase, sumMem);
    prefBase := Up64(prefBase, alignPref);
    prefBase := Up64(prefBase, GiB);
    var end := Add64(prefBase, sumPref);
    end := Up64(end, GiB);
    h := HighWindow(memBase, prefBase, end);
  }

  /** The three mapping calls that end pci_bios_map_devices's second attempt. */
  method MapHighRegions(cfg: ConfigSpace, busses: array<BusRegions>, memHigh: seq<Entry>, prefHigh: seq<Entry>, h: HighWindow)
    requires ListsFit(busses[..]) && EntriesFit(memHigh, busses.Length) && EntriesFit(prefHigh, busses.Length)
    modifies cfg, busses
    ensures Layout(busses[..], NoLocal, cfg.State()) == MapHighEntries(Layout(old(busses[..]), NoLocal, old(cfg.State())), cfg.wmask, memHigh, prefHigh, h)
  {
    ghost var m := Layout(busses[..], NoLocal, cfg.State());
    MapWalkFits(m.(local := Region(h.memBase, memHigh)), cfg.wmask, Local);
    var local := MapEntries(cfg, busses, Local, Region(h.memBase, memHigh));
    ghost var m5 := Layout(busses[..], local, cfg.State());
    local := MapEntries(cfg, busses, Local, Region(h.prefBase, prefHigh));
    MapWalkFits(m5.(local := Region(h.prefBase, prefHigh)), cfg.wmask, Local);
    MapBusses(cfg, busses);
  }

  /** The second attempt of pci_bios_map_devices, from MigrateRoot to the mapping of the 64-bit entries. */
  method MapHigh(cfg: ConfigSpace, busses: array<BusRegions>, space: AddressSpace, reservedEnd: u64, ramOver4G: u64)
    returns (ok: bool)
    requires busses.Length > 0 && ListsFit(busses[..])
    modifies cfg, busses, space
    ensures var r := MapHighSpec(Layout(old(busses[..]), NoLocal, old(cfg.State())), cfg.wmask, old(space.Values()), reservedEnd, ramOver4G);
      busses[..] == r.m.busses && cfg.State() == r.m.s && space.Values() == r.g && ok == r.ok
  {
    ghost var bs2 := busses[..];
    KeepLowFits(bs2);
    var memHigh, prefHigh := MigrateRoot(busses);
    ghost var bs3 := busses[..];
    var ret := InitRootMem(busses, space.memStart, space.memEnd);
    ghost var p2 := RootMem(bs3[0].mem.list, bs3[0].pref.list, space.memStart, space.memEnd);
    SetBaseFits(bs3, 0, Mem, p2.memBase);
    SetBaseFits(SetBase(bs3, 0, Mem, p2.memBase), 0, PrefMem, p2.prefBase);
    if ret != 0 {
      return false;
    }
    var h := HighWindows(memHigh, prefHigh, reservedEnd, ramOver4G);
    space.mem64Start := h.memBase;
    space.mem64End := h.end;
    MapHighRegions(cfg, busses, memHigh, prefHigh, h);
    ok := true;
  }

  /**
   * pci_bios_map_devices. A panic of the firmware is `ok == false`, with
   * the busses and configuration space as the panic finds them.
   */
  method MapDevices(cfg: ConfigSpace, busses: array<BusRegions>, space: AddressSpace, reservedEnd: u64, ramOver4G: u64)
    returns (ok: bool)
    requires busses.Length > 0 && ListsFit(busses[..])
    modifies cfg, busses, space
    ensures var r := MapDevicesSpec(Layout(old(busses[..]), NoLocal, old(cfg.State())), cfg.wmask, old(space.Values()), reservedEnd, ramOver4G);
      busses[..] == r.m.busses && cfg.State() == r.m.s && space.Values() == r.g && ok == r.ok
  {
    ghost var bs := busses[..];
    var ret := InitRootIo(busses, space.ioLowEnd);
    if ret != 0 {
      return false;
    }
    SetBaseFits(bs, 0, Io, busses[0].io.base);
    ghost var bs1 := busses[..];
    ret := InitRootMem(busses, space.memStart, space.memEnd);
    ghost var p := RootMem(bs1[0].mem.list, bs1[0].pref.list, space.memStart, space.memEnd);
    SetBaseFits(bs1, 0, Mem, p.memBase);
    SetBaseFits(SetBase(bs1, 0, Mem, p.memBase), 0, PrefMem, p.prefBase);
    if ret != 0 {
      ok := MapHigh(cfg, busses, space, reservedEnd, ramOver4G);
    } else {
      space.mem64Start := 0;
      MapBusses(cfg, busses);
      ok := true;
    }
  }
}
