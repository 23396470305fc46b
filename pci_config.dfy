/**
 * PCI configuration space access (src/hw/pci.c).
 *
 * Configuration space is a map from (bdf, byte offset) to register bytes.
 * A key that is absent is a register that does not exist: it reads as 0xff
 * and writes to it are dropped, which is what the bus does for a function
 * that is not there. Each present byte has a write mask (the bits the
 * hardware lets software change); an absent mask means all bits writable.
 *
 * Every access is first turned into what the firmware puts on the wire:
 * either an ECAM memory address (mmconfig + (bdf << 12) + addr) or a
 * command word for port 0xcf8 plus a data port 0xcfc..0xcff. The register
 * an access reaches is then decoded from that wire form, so the contracts
 * below state the round trip "encode the access, decode what the hardware
 * sees" rather than assuming it.
 */
module PciConfig {
  import opened Bits

  /** A bus/device/function number (u16 in the firmware). */
  type Bdf = x: int | 0 <= x < 0x1_0000
  /** A register offset inside one function's 4 KiB configuration space. */
  type Offset = x: int | 0 <= x < 0x1000
  /** A register byte location: (bdf, byte offset). */
  type Key = (int, int)
  type Regs = map<Key, bv8>

  const PORT_PCI_CMD: int := 0xcf8
  const PORT_PCI_DATA: int := 0xcfc

  // Type-0/type-1 header registers (PCI Local Bus Specification 3.0, section 6.1).
  const PCI_VENDOR_ID: int := 0x00
  const PCI_DEVICE_ID: int := 0x02
  const PCI_COMMAND: int := 0x04
  const PCI_STATUS: int := 0x06
  const PCI_CLASS_REVISION: int := 0x08
  const PCI_CLASS_DEVICE: int := 0x0a
  const PCI_HEADER_TYPE: int := 0x0e
  const PCI_CAPABILITY_LIST: int := 0x34
  const PCI_CAP_LIST_ID: int := 0
  const PCI_CAP_LIST_NEXT: int := 1
  const PCI_STATUS_CAP_LIST: bv16 := 0x10
  const PCI_COMMAND_IO: bv16 := 0x1
  const PCI_COMMAND_MEMORY: bv16 := 0x2
  const PCI_COMMAND_MASTER: bv16 := 0x4
  const PCI_HEADER_TYPE_NORMAL: bv8 := 0
  const PCI_HEADER_TYPE_BRIDGE: bv8 := 1
  const PCI_HEADER_TYPE_CARDBUS: bv8 := 2

  // Type-1 (bridge) header registers (PCI-to-PCI Bridge Architecture Specification 1.2, chapter 3).
  const PCI_PRIMARY_BUS: int := 0x18
  const PCI_SECONDARY_BUS: int := 0x19
  const PCI_SUBORDINATE_BUS: int := 0x1a

  /** (bdf >> 8) & 0xff, (bdf >> 3) & 0x1f and bdf & 7 on a C int. */
  function BdfToBus(bdf: int): int { (bdf / 256) % 256 }
  function BdfToDev(bdf: int): int { (bdf / 8) % 32 }
  function BdfToFn(bdf: int): int { bdf % 8 }

  datatype Width = Byte | Word | Dword

  function Size(w: Width): int {
    match w
    case Byte => 1
    case Word => 2
    case Dword => 4
  }

  // ---------------------------------------------------------------------
  // Wire encodings
  // ---------------------------------------------------------------------

  /**
   * ioconfig_cmd: 0x80000000 | (bdf << 8) | (addr & 0xfc). The enable bit,
   * the bdf (bits 8..23) and the dword index (bits 2..7) do not overlap, so
   * the OR is written here as a sum.
   */
  function IoConfigCmd(bdf: Bdf, addr: Offset): u32 {
    0x8000_0000 + bdf * 0x100 + addr % 0x100 / 4 * 4
  }

  /** mmconfig_addr: a 32-bit pointer, so the sum wraps modulo 2^32. */
  function MmconfigAddr(mmconfig: u32, bdf: Bdf, addr: Offset): u32 {
    (mmconfig + bdf * 0x1000 + addr) % U32
  }

  /** The byte lane within the dword: addr & 2 for a word, addr & 3 for a byte. */
  function Lane(addr: Offset, w: Width): int {
    match w
    case Dword => 0
    case Word => addr % 4 / 2 * 2
    case Byte => addr % 4
  }

  /** The data port of a legacy access: 0xcfc plus the byte lane. */
  function DataPort(addr: Offset, w: Width): int {
    PORT_PCI_DATA + Lane(addr, w)
  }

  /** What an access puts on the wire. */
  datatype Path = Ecam(address: int) | Legacy(cmd: int, port: int)

  /**
   * The path the accessors take: the memory-mapped window whenever
   * mmconfig is non-zero, the 0xcf8/0xcfc port pair otherwise.
   */
  function PathOf(mmconfig: u32, bdf: Bdf, addr: Offset, w: Width): (p: Path)
    ensures p.Ecam? <==> mmconfig != 0
    ensures p.Ecam? ==> p.address == MmconfigAddr(mmconfig, bdf, addr)
    ensures p.Legacy? ==> p.cmd == IoConfigCmd(bdf, addr) && p.port == DataPort(addr, w)
  {
    if mmconfig != 0 then Ecam(MmconfigAddr(mmconfig, bdf, addr))
    else Legacy(IoConfigCmd(bdf, addr), DataPort(addr, w))
  }

  /**
   * The register byte the hardware selects for a wire access: for ECAM the
   * offset from the window base split into 4 KiB function spaces, for the
   * port pair bits 8..23 of the command (the bdf), bits 2..7 (the dword) and
   * the data port's byte lane.
   */
  function Decode(mmconfig: u32, p: Path): Key {
    match p
    case Ecam(a) => ((a - mmconfig) / 0x1000, (a - mmconfig) % 0x1000)
    case Legacy(cmd, port) => ((cmd / 0x100) % 0x1_0000, cmd % 0x100 / 4 * 4 + (port - PORT_PCI_DATA))
  }

  /** The byte offset a legacy access reaches: the port pair cannot address beyond 0xff. */
  function LegacyOffset(addr: Offset, w: Width): int {
    addr % 0x100 / 4 * 4 + Lane(addr, w)
  }

  /** The ECAM window holds (bdf, addr) without wrapping past 4 GiB. */
  predicate InWindow(mmconfig: u32, bdf: Bdf, addr: Offset) {
    mmconfig != 0 && mmconfig + bdf * 0x1000 + addr < U32
  }

  /**
   * The register an access reaches: the legacy path reaches the dword
   * (addr & 0xfc) plus the byte lane, the ECAM path reaches (bdf, addr)
   * itself, and an ECAM address that wraps past 4 GiB lands 2^20 function
   * spaces below the first one, where no configuration register answers.
   */
  function Location(mmconfig: u32, bdf: Bdf, addr: Offset, w: Width): Key {
    if mmconfig == 0 then (bdf, LegacyOffset(addr, w))
    else if InWindow(mmconfig, bdf, addr) then (bdf, addr)
    else (bdf - 0x10_0000, addr)
  }

  /** Location is what the hardware decodes from the wire access the accessors emit, on either path. */
  lemma LocationDecodes(mmconfig: u32, bdf: Bdf, addr: Offset, w: Width)
    ensures Decode(mmconfig, PathOf(mmconfig, bdf, addr, w)) == Location(mmconfig, bdf, addr, w)
  {
    if mmconfig == 0 {
      LegacyDecode(bdf, addr, w);
    } else {
      EcamDecode(mmconfig, bdf, addr, w);
    }
  }

  lemma LegacyDecode(bdf: Bdf, addr: Offset, w: Width)
    ensures Decode(0, PathOf(0, bdf, addr, w)) == (bdf, LegacyOffset(addr, w))
  {
    var r := addr % 0x100 / 4 * 4;
    var cmd := IoConfigCmd(bdf, addr);
    assert 0 <= r < 0x100 && r % 4 == 0;
    DivModUnique(cmd, 0x100, 0x80_0000 + bdf, r);
    DivModUnique(0x80_0000 + bdf, 0x1_0000, 0x80, bdf);
    DivModUnique(r, 4, r / 4, 0);
  }

  lemma EcamDecode(mmconfig: u32, bdf: Bdf, addr: Offset, w: Width)
    requires mmconfig != 0
    ensures Decode(mmconfig, PathOf(mmconfig, bdf, addr, w)) == Location(mmconfig, bdf, addr, w)
  {
    var sum := mmconfig + bdf * 0x1000 + addr;
    var a := MmconfigAddr(mmconfig, bdf, addr);
    if sum < U32 {
      assert a == sum;
      DivModUnique(a - mmconfig, 0x1000, bdf, addr);
    } else {
      assert a == sum - U32;
      DivModUnique(a - mmconfig, 0x1000, bdf - 0x10_0000, addr);
    }
  }

  /**
   * For a dword-aligned register in the first 256 bytes both paths reach
   * (bdf, addr) at every width: the port pair and the window agree.
   */
  lemma PathsAgree(mmconfig: u32, bdf: Bdf, addr: Offset, w: Width)
    requires addr % 4 == 0 && addr < 0x100
    requires mmconfig != 0 ==> InWindow(mmconfig, bdf, addr)
    ensures Location(mmconfig, bdf, addr, w) == (bdf, addr)
    ensures Location(0, bdf, addr, w) == Location(mmconfig, bdf, addr, w)
  {
    DivModUnique(addr, 4, addr / 4, 0);
  }

  /**
   * Whatever the path, an access in the first 256 bytes reaches register
   * offset addr (of some function): neither path moves a byte to another
   * offset, even when the ECAM address wraps.
   */
  lemma LocationOffset(mmconfig: u32, bdf: Bdf, addr: Offset, w: Width)
    requires addr < 0x100 && (w == Byte || (w == Word && addr % 2 == 0))
    ensures Location(mmconfig, bdf, addr, w).1 == addr
  {
    if mmconfig == 0 {
      DivModUnique(addr, 4, addr / 4, addr % 4);
      DivModUnique(addr % 4, 2, addr % 4 / 2, 0 + addr % 2);
    }
  }

  // ---------------------------------------------------------------------
  // Register file
  // ---------------------------------------------------------------------

  /** A byte as the bus returns it: 0xff where no register answers. */
  function Get(m: Regs, k: Key): bv8 { if k in m then m[k] else 0xff }

  /** The write mask of a byte (all bits writable unless the hardware says otherwise). */
  function Mask(w: Regs, k: Key): bv8 { if k in w then w[k] else 0xff }

  /** The bits a write really changes: none where no register answers. */
  function EffMask(m: Regs, w: Regs, k: Key): bv8 { if k in m then Mask(w, k) else 0 }

  function Reg16(m: Regs, k: Key): bv16 {
    Join16(Get(m, k), Get(m, (k.0, k.1 + 1)))
  }

  function Reg32(m: Regs, k: Key): bv32 {
    Join32(Get(m, k), Get(m, (k.0, k.1 + 1)), Get(m, (k.0, k.1 + 2)), Get(m, (k.0, k.1 + 3)))
  }

  /** The effective write mask of the dword at k. */
  function EffMask32(m: Regs, w: Regs, k: Key): bv32 {
    Join32(EffMask(m, w, k), EffMask(m, w, (k.0, k.1 + 1)), EffMask(m, w, (k.0, k.1 + 2)), EffMask(m, w, (k.0, k.1 + 3)))
  }

  /** A write of the low n bytes of v at k: each present byte is merged through its mask. */
  function Store(m: Regs, w: Regs, k: Key, n: int, v: bv32): (r: Regs)
    ensures r.Keys == m.Keys
    ensures forall j :: j in m && !(j.0 == k.0 && k.1 <= j.1 < k.1 + n) ==> r[j] == m[j]
  {
    map j | j in m :: if j.0 == k.0 && k.1 <= j.1 < k.1 + n then Merge(m[j], ByteOf(v, j.1 - k.1), Mask(w, j)) else m[j]
  }

  lemma StoreGet(m: Regs, w: Regs, k: Key, n: int, v: bv32, i: int)
    requires 0 <= i < n
    ensures Get(Store(m, w, k, n, v), (k.0, k.1 + i)) == Merge(Get(m, (k.0, k.1 + i)), ByteOf(v, i), EffMask(m, w, (k.0, k.1 + i)))
  {
    var j := (k.0, k.1 + i);
    if j !in m {
      assert Merge(0xff, ByteOf(v, i), 0) == 0xff;
    }
  }

  /** Reading a dword right after writing x to it: the writable bits show x, the others are unchanged. */
  lemma StoreReadback32(m: Regs, w: Regs, k: Key, x: bv32)
    ensures Reg32(Store(m, w, k, 4, x), k) == Merge32(Reg32(m, k), x, EffMask32(m, w, k))
  {
    var s := Store(m, w, k, 4, x);
    var k1, k2, k3 := (k.0, k.1 + 1), (k.0, k.1 + 2), (k.0, k.1 + 3);
    assert Get(s, k) == Merge(Get(m, k), ByteOf(x, 0), EffMask(m, w, k)) by {
      StoreGet(m, w, k, 4, x, 0);
      assert (k.0, k.1 + 0) == k;
    }
    assert Get(s, k1) == Merge(Get(m, k1), ByteOf(x, 1), EffMask(m, w, k1)) by { StoreGet(m, w, k, 4, x, 1); }
    assert Get(s, k2) == Merge(Get(m, k2), ByteOf(x, 2), EffMask(m, w, k2)) by { StoreGet(m, w, k, 4, x, 2); }
    assert Get(s, k3) == Merge(Get(m, k3), ByteOf(x, 3), EffMask(m, w, k3)) by { StoreGet(m, w, k, 4, x, 3); }
    JoinMerge(Get(m, k), Get(m, k1), Get(m, k2), Get(m, k3), x,
              EffMask(m, w, k), EffMask(m, w, k1), EffMask(m, w, k2), EffMask(m, w, k3));
  }

  /** Reading a byte right after writing x to it. */
  lemma StoreReadback8(m: Regs, w: Regs, k: Key, x: bv8)
    ensures Get(Store(m, w, k, 1, x as bv32), k) == Merge(Get(m, k), x, EffMask(m, w, k))
  {
    StoreGet(m, w, k, 1, x as bv32, 0);
    assert (k.0, k.1 + 0) == k;
    assert ByteOf(x as bv32, 0) == x;
  }

  /** The bytes of a dword read are the register bytes. */
  lemma Reg32Bytes(m: Regs, k: Key, i: int)
    requires 0 <= i < 4
    ensures ByteOf(Reg32(m, k), i) == Get(m, (k.0, k.1 + i))
  {
    Join32Bytes(Get(m, k), Get(m, (k.0, k.1 + 1)), Get(m, (k.0, k.1 + 2)), Get(m, (k.0, k.1 + 3)));
    assert (k.0, k.1 + 0) == k;
  }

  /** Writing back the dword read before another write restores configuration space exactly. */
  lemma StoreRestore32(m: Regs, w: Regs, k: Key, x: bv32)
    ensures Store(Store(m, w, k, 4, x), w, k, 4, Reg32(m, k)) == m
  {
    var m2 := Store(Store(m, w, k, 4, x), w, k, 4, Reg32(m, k));
    forall j | j in m ensures m2[j] == m[j] {
      StoreRestoreAt(m, w, k, x, j);
    }
    assert m2.Keys == m.Keys;
  }

  /** The restoring write gives each register byte its old value back. */
  lemma StoreRestoreAt(m: Regs, w: Regs, k: Key, x: bv32, j: Key)
    requires j in m
    ensures Store(Store(m, w, k, 4, x), w, k, 4, Reg32(m, k))[j] == m[j]
  {
    var m1 := Store(m, w, k, 4, x);
    if j.0 == k.0 && k.1 <= j.1 < k.1 + 4 {
      var i := j.1 - k.1;
      assert (k.0, k.1 + i) == j;
      Reg32Bytes(m, k, i);
      assert m1[j] == Merge(m[j], ByteOf(x, i), Mask(w, j));
      MergeRestore(m[j], ByteOf(x, i), Mask(w, j));
    }
  }

  /** Writing the byte read before another write restores configuration space exactly. */
  lemma StoreRestore8(m: Regs, w: Regs, k: Key, x: bv8)
    ensures Store(Store(m, w, k, 1, x as bv32), w, k, 1, Get(m, k) as bv32) == m
  {
    var m1 := Store(m, w, k, 1, x as bv32);
    var m2 := Store(m1, w, k, 1, Get(m, k) as bv32);
    forall j | j in m ensures m2[j] == m[j] {
      if j.0 == k.0 && k.1 <= j.1 < k.1 + 1 {
        assert j == k;
        assert ByteOf(Get(m, k) as bv32, 0) == m[k];
        MergeRestore(m[j], ByteOf(x as bv32, 0), Mask(w, j));
      }
    }
    assert m2.Keys == m.Keys;
  }

  // ---------------------------------------------------------------------
  // Reads (pci_config_readb/w/l)
  // ---------------------------------------------------------------------

  /** Configuration space as software sees it: the register file and the ECAM base. */
  datatype Space = Space(regs: Regs, mmconfig: u32)

  function ReadL(s: Space, bdf: Bdf, addr: Offset): (r: bv32)
    ensures s.mmconfig == 0 ==> r == Reg32(s.regs, (bdf, LegacyOffset(addr, Dword)))
    ensures InWindow(s.mmconfig, bdf, addr) ==> r == Reg32(s.regs, (bdf, addr))
  {
    Reg32(s.regs, Location(s.mmconfig, bdf, addr, Dword))
  }

  function ReadW(s: Space, bdf: Bdf, addr: Offset): (r: bv16)
    ensures s.mmconfig == 0 ==> r == Reg16(s.regs, (bdf, LegacyOffset(addr, Word)))
    ensures InWindow(s.mmconfig, bdf, addr) ==> r == Reg16(s.regs, (bdf, addr))
  {
    Reg16(s.regs, Location(s.mmconfig, bdf, addr, Word))
  }

  function ReadB(s: Space, bdf: Bdf, addr: Offset): (r: bv8)
    ensures s.mmconfig == 0 ==> r == Get(s.regs, (bdf, LegacyOffset(addr, Byte)))
    ensures InWindow(s.mmconfig, bdf, addr) ==> r == Get(s.regs, (bdf, addr))
  {
    Get(s.regs, Location(s.mmconfig, bdf, addr, Byte))
  }

  // ---------------------------------------------------------------------
  // Capability list walk (pci_find_capability)
  // ---------------------------------------------------------------------

  /** The id byte and the next pointer of the capability at `cap`. */
  function CapId(s: Space, bdf: Bdf, cap: bv8): bv8 { ReadB(s, bdf, cap as int + PCI_CAP_LIST_ID) }
  function CapNext(s: Space, bdf: Bdf, cap: bv8): bv8 { ReadB(s, bdf, cap as int + PCI_CAP_LIST_NEXT) }

  /** Where the walk starts: the header's pointer, or the successor of `cap`. */
  function CapStart(s: Space, bdf: Bdf, cap: bv8): bv8 {
    if cap == 0 then ReadB(s, bdf, PCI_CAPABILITY_LIST) else CapNext(s, bdf, cap)
  }

  /** Follows at most `fuel` list nodes from `cap`, returning the first whose id is capId. */
  function CapWalk(s: Space, bdf: Bdf, capId: bv8, cap: bv8, fuel: nat): (r: bv8)
    ensures r == 0 || CapId(s, bdf, r) == capId
    decreases fuel
  {
    if cap == 0 || fuel == 0 then 0
    else if CapId(s, bdf, cap) == capId then cap
    else CapWalk(s, bdf, capId, CapNext(s, bdf, cap), fuel - 1)
  }

  /** pci_find_capability: 0 unless the status register advertises a list. */
  function FindCap(s: Space, bdf: Bdf, capId: bv8, cap: bv8): (r: bv8)
    ensures r == 0 || CapId(s, bdf, r) == capId
    ensures ReadW(s, bdf, PCI_STATUS) & PCI_STATUS_CAP_LIST == 0 ==> r == 0
  {
    if ReadW(s, bdf, PCI_STATUS) & PCI_STATUS_CAP_LIST == 0 then 0
    else CapWalk(s, bdf, capId, CapStart(s, bdf, cap), 256)
  }

  /** The nodes of the list from `cap`, stopping at a null pointer or after `fuel` nodes. */
  function CapChain(s: Space, bdf: Bdf, cap: bv8, fuel: nat): (c: seq<bv8>)
    ensures |c| <= fuel
    ensures forall i :: 0 <= i < |c| ==> c[i] != 0
    decreases fuel
  {
    if cap == 0 || fuel == 0 then []
    else [cap] + CapChain(s, bdf, CapNext(s, bdf, cap), fuel - 1)
  }

  /** The walk finds nothing exactly when no node of the chain carries capId. */
  lemma {:induction false} CapWalkNone(s: Space, bdf: Bdf, capId: bv8, cap: bv8, fuel: nat)
    ensures var c := CapChain(s, bdf, cap, fuel);
      CapWalk(s, bdf, capId, cap, fuel) == 0 <==> forall i :: 0 <= i < |c| ==> CapId(s, bdf, c[i]) != capId
    decreases fuel
  {
    if cap != 0 && fuel != 0 {
      var c := CapChain(s, bdf, cap, fuel);
      var next := CapNext(s, bdf, cap);
      var c' := CapChain(s, bdf, next, fuel - 1);
      assert c == [cap] + c';
      assert c[0] == cap;
      if CapId(s, bdf, cap) != capId {
        CapWalkNone(s, bdf, capId, next, fuel - 1);
        assert CapWalk(s, bdf, capId, cap, fuel) == CapWalk(s, bdf, capId, next, fuel - 1);
        assert (forall i :: 0 <= i < |c| ==> CapId(s, bdf, c[i]) != capId)
           <==> (forall i :: 0 <= i < |c'| ==> CapId(s, bdf, c'[i]) != capId) by {
          assert forall i :: 0 < i < |c| ==> c[i] == c'[i - 1];
          assert forall i :: 0 <= i < |c'| ==> c'[i] == c[i + 1];
        }
      } else {
        assert CapId(s, bdf, c[0]) == capId;
      }
    }
  }

  /**
   * A node the walk returns is the first node of the chain carrying capId;
   * a list that loops back on itself is cut off after `fuel` nodes.
   */
  lemma {:induction false} CapWalkFirst(s: Space, bdf: Bdf, capId: bv8, cap: bv8, fuel: nat) returns (j: nat)
    requires CapWalk(s, bdf, capId, cap, fuel) != 0
    ensures var c := CapChain(s, bdf, cap, fuel);
      j < |c| && c[j] == CapWalk(s, bdf, capId, cap, fuel) &&
      forall i :: 0 <= i < j ==> CapId(s, bdf, c[i]) != capId
    decreases fuel
  {
    if CapId(s, bdf, cap) == capId {
      j := 0;
    } else {
      var c := CapChain(s, bdf, cap, fuel);
      var c' := CapChain(s, bdf, CapNext(s, bdf, cap), fuel - 1);
      assert c == [cap] + c';
      var j' := CapWalkFirst(s, bdf, capId, CapNext(s, bdf, cap), fuel - 1);
      j := j' + 1;
      assert forall i :: 0 < i < |c| ==> c[i] == c'[i - 1];
    }
  }

  // ---------------------------------------------------------------------
  // Device enumeration (pci_next and the foreachbdf loop)
  // ---------------------------------------------------------------------

  /** A function answers when its vendor id is neither 0x0000 nor 0xffff. */
  predicate Present(s: Space, bdf: Bdf) {
    var v := ReadW(s, bdf, PCI_VENDOR_ID);
    v != 0x0000 && v != 0xffff
  }

  /** Bit 7 of the header type: the device implements functions 1..7. */
  predicate MultiFunction(s: Space, bdf: Bdf) {
    ReadB(s, bdf, PCI_HEADER_TYPE) & 0x80 != 0
  }

  lemma SlotGap(c: int, d: int)
    requires c % 8 == 0 && d % 8 == 0 && c < d
    ensures c + 8 <= d
  {
    DivModUnique(c, 8, c / 8, 0);
    DivModUnique(d, 8, d / 8, 0);
  }

  lemma BusWindow(c: int, bus: int)
    requires 0 <= bus < 256 && bus * 256 <= c < bus * 256 + 512
    ensures BdfToBus(c) == bus <==> c < bus * 256 + 256
  {
    if c < bus * 256 + 256 {
      DivModUnique(c, 256, bus, c - bus * 256);
    } else {
      DivModUnique(c, 256, bus + 1, c - bus * 256 - 256);
    }
  }

  /**
   * The functions foreachbdf reaches: one that answers and is function 0,
   * or lies in a slot whose function 0 answers and is multi-function.
   */
  predicate Visited(s: Space, d: Bdf) {
    Present(s, d) && (BdfToFn(d) == 0 || (Present(s, d - BdfToFn(d)) && MultiFunction(s, d - BdfToFn(d))))
  }

  /**
   * The search loop of pci_next from candidate c: +8 past a function 0, +1
   * otherwise. It stops at the first function that answers, except that it
   * passes over a function whose slot's function 0 it examined and found absent;
   * it lands on a function other than 0 only by walking up c's own slot.
   */
  function Scan(s: Space, c: int, bus: int): (r: int)
    requires 0 <= bus < 256 && bus * 256 <= c <= bus * 256 + 263
    ensures r == -1 || (c <= r < bus * 256 + 256 && BdfToBus(r) == bus && Present(s, r))
    decreases bus * 256 + 264 - c
  {
    BusWindow(c, bus);
    if BdfToBus(c) != bus then -1
    else if Present(s, c) then c
    else Scan(s, if BdfToFn(c) == 0 then c + 8 else c + 1, bus)
  }

  /**
   * What Scan passes over: every function that answers below its result lies
   * in a slot from c on whose function 0 is absent, and it lands on a function
   * other than 0 only inside c's own slot.
   */
  lemma {:induction false} ScanGap(s: Space, c: int, bus: int)
    requires 0 <= bus < 256 && bus * 256 <= c <= bus * 256 + 263
    ensures var r := Scan(s, c, bus);
      forall d :: c <= d < (if r == -1 then bus * 256 + 256 else r) && Present(s, d) ==>
        BdfToFn(d) != 0 && c <= d - BdfToFn(d) && !Present(s, d - BdfToFn(d))
    ensures var r := Scan(s, c, bus);
      r != -1 && BdfToFn(r) != 0 ==> BdfToFn(c) != 0 && r - BdfToFn(r) == c - BdfToFn(c)
    decreases bus * 256 + 264 - c
  {
    BusWindow(c, bus);
    if BdfToBus(c) == bus && !Present(s, c) {
      SlotStep(c);
      ScanGap(s, if BdfToFn(c) == 0 then c + 8 else c + 1, bus);
    }
  }

  /** The slot arithmetic of one Scan step. */
  lemma SlotStep(c: int)
    ensures BdfToFn(c) == 0 ==> forall d :: c < d < c + 8 ==> BdfToFn(d) == d - c && BdfToFn(c + 8) == 0
    ensures BdfToFn(c) != 0 ==> (BdfToFn(c + 1) == 0 || (BdfToFn(c + 1) == BdfToFn(c) + 1 && c + 1 - BdfToFn(c + 1) == c - BdfToFn(c)))
  {
    if BdfToFn(c) == 0 {
      forall d | c < d < c + 8 ensures BdfToFn(d) == d - c {
        DivModUnique(d, 8, c / 8, d - c);
      }
      DivModUnique(c + 8, 8, c / 8 + 1, 0);
    } else if BdfToFn(c) < 7 {
      DivModUnique(c + 1, 8, c / 8, c % 8 + 1);
    } else {
      DivModUnique(c + 1, 8, c / 8 + 1, 0);
    }
  }

  /**
   * pci_next: the next present function after bdf on `bus`, or -1. After a
   * function 0 that is not multi-function the search skips to the next slot.
   */
  function NextBdf(s: Space, bdf: int, bus: int): (r: int)
    requires 0 <= bus < 256 && bus * 256 - 1 <= bdf < bus * 256 + 256
    ensures r == -1 || (bdf < r < bus * 256 + 256 && BdfToBus(r) == bus && Present(s, r))
  {
    if BdfToFn(bdf) == 0 && !MultiFunction(s, bdf) then Scan(s, bdf + 8, bus)
    else Scan(s, bdf + 1, bus)
  }

  /**
   * What pci_next passes over: every function that answers before its result
   * is no function 0, and either sits in bdf's own slot behind a function 0
   * that is not multi-function, or in a later slot whose function 0 is absent.
   * A result other than a function 0 lies in bdf's own slot, reached only past
   * a function other than 0 or a multi-function function 0.
   */
  lemma NextGap(s: Space, bdf: int, bus: int)
    requires 0 <= bus < 256 && bus * 256 - 1 <= bdf < bus * 256 + 256
    ensures var r := NextBdf(s, bdf, bus);
      forall d :: bdf < d < (if r == -1 then bus * 256 + 256 else r) && Present(s, d) ==>
        BdfToFn(d) != 0 &&
        ((d - BdfToFn(d) == bdf && !MultiFunction(s, bdf)) || (bdf < d - BdfToFn(d) && !Present(s, d - BdfToFn(d))))
    ensures var r := NextBdf(s, bdf, bus);
      r != -1 && BdfToFn(r) != 0 ==>
        r - BdfToFn(r) == bdf - BdfToFn(bdf) && (BdfToFn(bdf) != 0 || MultiFunction(s, bdf))
  {
    SlotStep(bdf);
    ScanGap(s, if BdfToFn(bdf) == 0 && !MultiFunction(s, bdf) then bdf + 8 else bdf + 1, bus);
  }

  /** One turn of the search loop. */
  lemma ScanUnfold(s: Space, c: int, bus: int)
    requires 0 <= bus < 256 && bus * 256 <= c <= bus * 256 + 263
    ensures BdfToBus(c) != bus ==> Scan(s, c, bus) == -1
    ensures BdfToBus(c) == bus && Present(s, c) ==> Scan(s, c, bus) == c
    ensures BdfToBus(c) == bus && !Present(s, c) ==>
      Scan(s, c, bus) == Scan(s, if BdfToFn(c) == 0 then c + 8 else c + 1, bus)
  {
  }

  /** The first candidate of pci_next. */
  lemma NextUnfold(s: Space, bdf: int, bus: int)
    requires 0 <= bus < 256 && bus * 256 - 1 <= bdf < bus * 256 + 256
    ensures NextBdf(s, bdf, bus) == Scan(s, if BdfToFn(bdf) == 0 && !MultiFunction(s, bdf) then bdf + 8 else bdf + 1, bus)
  {
  }

  /** After a multi-function function 0, or any other function, pci_next tries the very next one. */
  lemma NextStepsOne(s: Space, bdf: int, bus: int)
    requires 0 <= bus < 256 && bus * 256 - 1 <= bdf && bdf + 1 < bus * 256 + 256
    requires BdfToFn(bdf) != 0 || MultiFunction(s, bdf)
    requires Present(s, bdf + 1)
    ensures NextBdf(s, bdf, bus) == bdf + 1
  {
    BusWindow(bdf + 1, bus);
  }

  /** Scan never passes over a slot whose function 0 answers. */
  lemma {:induction false} ScanSkipsNoSlot(s: Space, c: int, bus: int, d: int)
    requires 0 <= bus < 256 && bus * 256 <= c <= bus * 256 + 263
    requires c <= d < bus * 256 + 256 && d % 8 == 0 && (c % 8 == 0 || d > c)
    requires Scan(s, c, bus) == -1 || d < Scan(s, c, bus)
    ensures !Present(s, d)
    decreases bus * 256 + 264 - c
  {
    BusWindow(c, bus);
    if d == c {
    } else {
      assert BdfToBus(c) == bus && !Present(s, c);
      var c' := if BdfToFn(c) == 0 then c + 8 else c + 1;
      if BdfToFn(c) == 0 {
        SlotGap(c, d);
      }
      ScanSkipsNoSlot(s, c', bus, d);
    }
  }

  /**
   * No present function 0 lies strictly between bdf and the next function
   * pci_next returns (or the end of the bus when it returns -1).
   */
  lemma NextSkipsNoSlot(s: Space, bdf: int, bus: int, d: int)
    requires 0 <= bus < 256 && bus * 256 - 1 <= bdf < bus * 256 + 256
    requires bdf < d < bus * 256 + 256 && d % 8 == 0
    requires NextBdf(s, bdf, bus) == -1 || d < NextBdf(s, bdf, bus)
    ensures !Present(s, d)
  {
    if BdfToFn(bdf) == 0 && !MultiFunction(s, bdf) {
      SlotGap(bdf, d);
      DivModUnique(bdf + 8, 8, bdf / 8 + 1, 0);
      ScanSkipsNoSlot(s, bdf + 8, bus, d);
    } else {
      assert d == bdf + 1 || d > bdf + 1;
      ScanSkipsNoSlot(s, bdf + 1, bus, d);
    }
  }

  /** The functions foreachbdf visits on `bus`, starting after `bdf`. */
  function EnumFrom(s: Space, bus: int, bdf: int): (fs: seq<int>)
    requires 0 <= bus < 256 && bus * 256 - 1 <= bdf < bus * 256 + 256
    ensures forall i :: 0 <= i < |fs| ==> bdf < fs[i] < bus * 256 + 256 && BdfToBus(fs[i]) == bus && Present(s, fs[i])
    ensures forall i, j :: 0 <= i < j < |fs| ==> fs[i] < fs[j]
    decreases bus * 256 + 256 - bdf
  {
    var n := NextBdf(s, bdf, bus);
    if n < 0 then [] else [n] + EnumFrom(s, bus, n)
  }

  /** foreachbdf(bdf, bus): the functions it visits on the bus, in ascending order. */
  function BusFunctions(s: Space, bus: int): (fs: seq<int>)
    requires 0 <= bus < 256
    ensures forall i :: 0 <= i < |fs| ==> BdfToBus(fs[i]) == bus && 0 <= fs[i] < 0x1_0000 && Present(s, fs[i])
    ensures forall i, j :: 0 <= i < j < |fs| ==> fs[i] < fs[j]
  {
    EnumFrom(s, bus, bus * 256 - 1)
  }

  /** Where the gap after bdf ends: the function pci_next returns, or the end of the bus. */
  function NextEnd(s: Space, bdf: int, bus: int): int
    requires 0 <= bus < 256 && bus * 256 - 1 <= bdf < bus * 256 + 256
  {
    var n := NextBdf(s, bdf, bus);
    if n == -1 then bus * 256 + 256 else n
  }

  /** What pci_next returns after a visited function (or the start) is the next visited function. */
  lemma NextVisits(s: Space, bdf: int, bus: int)
    requires 0 <= bus < 256 && bus * 256 - 1 <= bdf < bus * 256 + 256
    requires bdf == bus * 256 - 1 || Visited(s, bdf)
    ensures NextBdf(s, bdf, bus) != -1 ==> Visited(s, NextBdf(s, bdf, bus))
    ensures forall d :: bdf < d < NextEnd(s, bdf, bus) ==> !Visited(s, d)
  {
    var n := NextBdf(s, bdf, bus);
    NextGap(s, bdf, bus);
    if bdf == bus * 256 - 1 {
      DivModUnique(bdf, 8, bus * 32 - 1, 7);
    }
    forall d | bdf < d < NextEnd(s, bdf, bus) ensures !Visited(s, d) {
      if Present(s, d) {
        assert BdfToFn(d) != 0;
      }
    }
  }

  /** The functions enumerated after a visited one are exactly the visited functions above it. */
  lemma {:induction false} EnumFromExact(s: Space, bus: int, bdf: int)
    requires 0 <= bus < 256 && bus * 256 - 1 <= bdf < bus * 256 + 256
    requires bdf == bus * 256 - 1 || Visited(s, bdf)
    ensures forall d :: d in EnumFrom(s, bus, bdf) <==> bdf < d < bus * 256 + 256 && Visited(s, d)
    decreases bus * 256 + 256 - bdf
  {
    var n := NextBdf(s, bdf, bus);
    NextVisits(s, bdf, bus);
    if n >= 0 {
      EnumFromExact(s, bus, n);
      assert EnumFrom(s, bus, bdf) == [n] + EnumFrom(s, bus, n);
    }
  }

  /**
   * foreachbdf visits exactly the functions of the bus that answer and are
   * function 0 or sit in a slot whose function 0 is multi-function.
   */
  lemma BusFunctionsExact(s: Space, bus: int)
    requires 0 <= bus < 256
    ensures forall d :: d in BusFunctions(s, bus) <==> bus * 256 <= d < bus * 256 + 256 && Visited(s, d)
  {
    EnumFromExact(s, bus, bus * 256 - 1);
  }

  /** pci_probe_host: the host bridge must echo the enable bit written to 0xcf8. */
  function ProbeHost(readback: bv32): (r: int)
    ensures r == 0 <==> readback == 0x8000_0000
    ensures r == 0 || r == -1
  {
    if readback != 0x8000_0000 then -1 else 0
  }

  // ---------------------------------------------------------------------
  // The configuration-space object (the static mmconfig plus the hardware)
  // ---------------------------------------------------------------------

  class ConfigSpace {
    var regs: Regs
    /** The hardware's write masks; they never change. */
    const wmask: Regs
    /** The static `mmconfig` of pci.c; 0 means "use the port pair". */
    var mmconfig: u32

    constructor (regs0: Regs, wmask0: Regs)
      ensures regs == regs0 && wmask == wmask0 && mmconfig == 0
    {
      regs := regs0;
      wmask := wmask0;
      mmconfig := 0;
    }

    function State(): Space
      reads this
    {
      Space(regs, mmconfig)
    }

    /** pci_config_writel */
    method WriteL(bdf: Bdf, addr: Offset, val: bv32)
      modifies this
      ensures mmconfig == old(mmconfig)
      ensures regs == Store(old(regs), wmask, Location(mmconfig, bdf, addr, Dword), 4, val)
    {
      var p := PathOf(mmconfig, bdf, addr, Dword);
      LocationDecodes(mmconfig, bdf, addr, Dword);
      regs := Store(regs, wmask, Decode(mmconfig, p), 4, val);
    }

    /** pci_config_writew */
    method WriteW(bdf: Bdf, addr: Offset, val: bv16)
      modifies this
      ensures mmconfig == old(mmconfig)
      ensures regs == Store(old(regs), wmask, Location(mmconfig, bdf, addr, Word), 2, val as bv32)
    {
      var p := PathOf(mmconfig, bdf, addr, Word);
      LocationDecodes(mmconfig, bdf, addr, Word);
      regs := Store(regs, wmask, Decode(mmconfig, p), 2, val as bv32);
    }

    /** pci_config_writeb */
    method WriteB(bdf: Bdf, addr: Offset, val: bv8)
      modifies this
      ensures mmconfig == old(mmconfig)
      ensures regs == Store(old(regs), wmask, Location(mmconfig, bdf, addr, Byte), 1, val as bv32)
    {
      var p := PathOf(mmconfig, bdf, addr, Byte);
      LocationDecodes(mmconfig, bdf, addr, Byte);
      regs := Store(regs, wmask, Decode(mmconfig, p), 1, val as bv32);
    }

    /** pci_config_maskw: clear the bits of `off`, set the bits of `on`, in one word. */
    method MaskW(bdf: Bdf, addr: Offset, off: bv16, on: bv16)
      modifies this
      ensures mmconfig == old(mmconfig)
      ensures regs == Store(old(regs), wmask, Location(mmconfig, bdf, addr, Word), 2,
                            ((ReadW(old(State()), bdf, addr) & !off) | on) as bv32)
    {
      var v := ReadW(State(), bdf, addr);
      v := (v & !off) | on;
      WriteW(bdf, addr, v);
    }

    /** pci_enable_mmconfig: only a window below 4 GiB is taken. */
    method EnableMmconfig(addr: u64)
      modifies this
      ensures regs == old(regs)
      ensures mmconfig == if addr >= U32 then old(mmconfig) else addr
    {
      if addr >= U32 {
        return;
      }
      mmconfig := addr;
    }

    /** pci_find_capability */
    method FindCapability(bdf: Bdf, capId: bv8, cap: bv8) returns (r: bv8)
      ensures r == FindCap(State(), bdf, capId, cap)
    {
      var s := State();
      var status := ReadW(s, bdf, PCI_STATUS);
      if status & PCI_STATUS_CAP_LIST == 0 {
        return 0;
      }
      var c := CapStart(s, bdf, cap);
      var i := 0;
      while c != 0 && i <= 0xff
        invariant 0 <= i <= 256
        invariant CapWalk(s, bdf, capId, c, 256 - i) == FindCap(s, bdf, capId, cap)
        decreases 256 - i
      {
        if ReadB(s, bdf, c as int + PCI_CAP_LIST_ID) == capId {
          return c;
        }
        c := ReadB(s, bdf, c as int + PCI_CAP_LIST_NEXT);
        i := i + 1;
      }
      return 0;
    }

    /** pci_next */
    method Next(bdf: int, bus: int) returns (r: int)
      requires 0 <= bus < 256 && bus * 256 - 1 <= bdf < bus * 256 + 256
      ensures r == NextBdf(State(), bdf, bus)
    {
      var s := State();
      NextUnfold(s, bdf, bus);
      var c;
      if BdfToFn(bdf) == 0 && ReadB(s, bdf, PCI_HEADER_TYPE) & 0x80 == 0 {
        c := bdf + 8;
      } else {
        c := bdf + 1;
      }
      while true
        invariant bus * 256 <= c <= bus * 256 + 263
        invariant Scan(s, c, bus) == NextBdf(s, bdf, bus)
        decreases bus * 256 + 264 - c
      {
        BusWindow(c, bus);
        ScanUnfold(s, c, bus);
        if BdfToBus(c) != bus {
          return -1;
        }
        var v := ReadW(s, c, PCI_VENDOR_ID);
        if v != 0x0000 && v != 0xffff {
          return c;
        }
        if BdfToFn(c) == 0 {
          c := c + 8;
        } else {
          c := c + 1;
        }
      }
    }
  }
}
