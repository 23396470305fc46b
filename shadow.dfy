/**
 * BIOS shadow RAM control through the PAM (Programmable Attribute Map)
 * registers of the i440FX and Q35 host bridges (src/fw/shadow.c).
 *
 * The PAM registers are seven bytes of the host bridge's configuration
 * space starting at `pam0`: byte 0 governs 0xf0000-0xfffff in its high
 * nibble, byte 1+i governs the 32 KiB segment 0xc0000 + i*32K, the low
 * nibble for its lower 16 KiB and the high nibble for its upper 16 KiB. In
 * each nibble bit 0 enables reads from RAM and bit 1 writes to RAM. The
 * firmware reads the dword-aligned 8-byte window holding them into a
 * union, edits bytes and writes both dwords back.
 *
 * dev-piix.h, dev-q35.h and hw/pci_ids.h are not part of this model; the
 * constants below are the values those headers give.
 */
module Shadow {
  import opened Bits
  import opened Wrappers
  import opened PciConfig
  import opened PciProbe
  import Post

  const PCI_VENDOR_ID_INTEL: bv16 := 0x8086
  const PCI_DEVICE_ID_INTEL_82441: bv16 := 0x1237
  const PCI_DEVICE_ID_INTEL_Q35_MCH: bv16 := 0x29c0
  const I440FX_PAM0: int := 0x59
  const Q35_HOST_BRIDGE_PAM0: int := 0x90
  const BUILD_ROM_START: int := 0xc0000

  /** Attribute nibble bits: RAM read enable and RAM write enable. */
  const PAM_RE: bv8 := 1
  const PAM_WE: bv8 := 2

  // ---------------------------------------------------------------------
  // The pamdata union
  // ---------------------------------------------------------------------

  /**
   * A PAM0 offset the union can hold: the seven PAM bytes from `pam0 & 3`
   * must fit in data8[8], and the second dword must lie in config space.
   */
  predicate PamFits(pam0: int) {
    0 <= pam0 < 0xff8 && pam0 % 4 <= 1
  }

  /** ALIGN_DOWN(pam0, 4): the config offset of data32[0]. */
  function PamBase(pam0: int): (r: Offset)
    requires PamFits(pam0)
    ensures r % 4 == 0 && r <= pam0 < r + 4 && r + 8 <= 0x1000
  {
    pam0 - pam0 % 4
  }

  /** pamdata.data8 over data32[0], data32[1] (little-endian). */
  function PamBytes(w0: bv32, w1: bv32): (b: seq<bv8>)
    ensures |b| == 8
    ensures forall i :: 0 <= i < 4 ==> b[i] == ByteOf(w0, i) && b[i + 4] == ByteOf(w1, i)
  {
    [ByteOf(w0, 0), ByteOf(w0, 1), ByteOf(w0, 2), ByteOf(w0, 3),
     ByteOf(w1, 0), ByteOf(w1, 1), ByteOf(w1, 2), ByteOf(w1, 3)]
  }

  /** pamdata.data32[j] over data8. */
  function PamWord(b: seq<bv8>, j: int): bv32
    requires |b| == 8 && (j == 0 || j == 1)
  {
    Join32(b[4 * j], b[4 * j + 1], b[4 * j + 2], b[4 * j + 3])
  }

  /** The two views of the union agree: words to bytes and back. */
  lemma PamWordsRoundTrip(w0: bv32, w1: bv32)
    ensures PamWord(PamBytes(w0, w1), 0) == w0 && PamWord(PamBytes(w0, w1), 1) == w1
  {
    BytesJoin32(w0);
    BytesJoin32(w1);
  }

  /** The two views of the union agree: bytes to words and back. */
  lemma PamBytesRoundTrip(b: seq<bv8>)
    requires |b| == 8
    ensures PamBytes(PamWord(b, 0), PamWord(b, 1)) == b
  {
    Join32Bytes(b[0], b[1], b[2], b[3]);
    Join32Bytes(b[4], b[5], b[6], b[7]);
  }

  /** The window as the two pci_config_readl calls find it. */
  function PamRead(s: Space, bdf: Bdf, pam0: int): (b: seq<bv8>)
    requires PamFits(pam0)
    ensures |b| == 8
  {
    PamBytes(ReadL(s, bdf, PamBase(pam0)), ReadL(s, bdf, PamBase(pam0) + 4))
  }

  /** The registers after the two pci_config_writel calls store window b. */
  function PamWrite(regs: Regs, wmask: Regs, mmconfig: u32, bdf: Bdf, pam0: int, b: seq<bv8>): Regs
    requires PamFits(pam0) && |b| == 8
  {
    var m1 := Store(regs, wmask, Location(mmconfig, bdf, PamBase(pam0), Dword), 4, PamWord(b, 0));
    Store(m1, wmask, Location(mmconfig, bdf, PamBase(pam0) + 4, Dword), 4, PamWord(b, 1))
  }

  /** Two consecutive aligned dwords stay four bytes apart once reduced to a legacy register offset. */
  lemma LegacyApart(x: int)
    requires 0 <= x && x % 4 == 0
    ensures var a, b := x % 0x100 / 4 * 4, (x + 4) % 0x100 / 4 * 4;
      a + 4 <= b || b + 4 <= a
  {
    var a := x % 0x100;
    assert a % 4 == 0;
    assert a / 4 * 4 == a;
    if a < 0xfc {
      assert (x + 4) % 0x100 == a + 4;
    } else {
      assert (x + 4) % 0x100 == 0;
    }
  }

  /** The two dwords of the window are reached at keys whose four-byte spans do not overlap. */
  lemma PamDwordsApart(mmconfig: u32, bdf: Bdf, pam0: int)
    requires PamFits(pam0)
    ensures var k0, k1 := Location(mmconfig, bdf, PamBase(pam0), Dword), Location(mmconfig, bdf, PamBase(pam0) + 4, Dword);
      k0.0 != k1.0 || k0.1 + 4 <= k1.1 || k1.1 + 4 <= k0.1
  {
    var base := PamBase(pam0);
    if mmconfig == 0 {
      LegacyApart(base);
      assert Location(mmconfig, bdf, base, Dword) == (bdf, base % 0x100 / 4 * 4);
      assert Location(mmconfig, bdf, base + 4, Dword) == (bdf, (base + 4) % 0x100 / 4 * 4);
    } else if InWindow(mmconfig, bdf, base + 4) {
      assert InWindow(mmconfig, bdf, base);
    }
  }

  /**
   * Reading the window right after storing it gives back the stored bytes
   * when every bit of its two dwords is implemented and writable: the two
   * dwords never overlap, on either access path.
   */
  lemma PamWriteRead(regs: Regs, wmask: Regs, mmconfig: u32, bdf: Bdf, pam0: int, b: seq<bv8>)
    requires PamFits(pam0) && |b| == 8
    requires EffMask32(regs, wmask, Location(mmconfig, bdf, PamBase(pam0), Dword)) == 0xffff_ffff
    requires EffMask32(regs, wmask, Location(mmconfig, bdf, PamBase(pam0) + 4, Dword)) == 0xffff_ffff
    ensures PamRead(Space(PamWrite(regs, wmask, mmconfig, bdf, pam0, b), mmconfig), bdf, pam0) == b
  {
    var k0 := Location(mmconfig, bdf, PamBase(pam0), Dword);
    var k1 := Location(mmconfig, bdf, PamBase(pam0) + 4, Dword);
    var w0, w1 := PamWord(b, 0), PamWord(b, 1);
    var m1 := Store(regs, wmask, k0, 4, w0);
    var m2 := Store(m1, wmask, k1, 4, w1);
    PamDwordsApart(mmconfig, bdf, pam0);
    assert Reg32(m1, k0) == w0 by {
      StoreReadback32(regs, wmask, k0, w0);
      MergeFull32(Reg32(regs, k0), w0);
    }
    assert Reg32(m2, k1) == w1 by {
      assert EffMask32(m1, wmask, k1) == EffMask32(regs, wmask, k1);
      StoreReadback32(m1, wmask, k1, w1);
      MergeFull32(Reg32(m1, k1), w1);
    }
    assert Reg32(m2, k0) == w0;
    assert PamRead(Space(m2, mmconfig), bdf, pam0) == PamBytes(w0, w1);
    PamBytesRoundTrip(b);
  }

  // ---------------------------------------------------------------------
  // Attribute decoding
  // ---------------------------------------------------------------------

  /** The attribute nibble of 0xf0000-0xfffff: the high nibble of pam[0]. */
  function BiosAttr(b: seq<bv8>, off: int): bv8
    requires |b| == 8 && 0 <= off <= 1
  {
    b[off] >> 4
  }

  /** The attribute nibble of the 16 KiB block at 0xc0000 + h*16K (h < 12). */
  function BlockAttr(b: seq<bv8>, off: int, h: int): bv8
    requires |b| == 8 && 0 <= off <= 1 && 0 <= h < 12
  {
    var v := b[off + 1 + h / 2];
    if h % 2 == 0 then v & 0xf else v >> 4
  }

  lemma NibbleConstants()
    ensures (0x33 as bv8) & 0xf == PAM_RE | PAM_WE && (0x33 as bv8) >> 4 == PAM_RE | PAM_WE
    ensures (0x11 as bv8) & 0xf == PAM_RE && (0x11 as bv8) >> 4 == PAM_RE
    ensures (0x31 as bv8) & 0xf == PAM_RE && (0x31 as bv8) >> 4 == PAM_RE | PAM_WE
    ensures (0x30 as bv8) >> 4 == PAM_RE | PAM_WE && (0x10 as bv8) >> 4 == PAM_RE
    ensures (0x30 as bv8) & 0x10 != 0 && (0x10 as bv8) & 0x10 != 0
  {}

  // ---------------------------------------------------------------------
  // Making the BIOS area writable
  // ---------------------------------------------------------------------

  /** The window after __make_bios_writable_intel's edits. */
  function Writable(b: seq<bv8>, off: int): (r: seq<bv8>)
    requires |b| == 8 && 0 <= off <= 1
    ensures |r| == 8
    ensures forall k :: 0 <= k < 8 && !(off <= k <= off + 6) ==> r[k] == b[k]
  {
    seq(8, k requires 0 <= k < 8 => if k == off then 0x30 else if off < k <= off + 6 then 0x33 else b[k])
  }

  /**
   * Afterwards every 16 KiB block of 0xc0000-0xeffff and the BIOS segment
   * read and write RAM, and pam[0] has bit 0x10 set, so a second call finds
   * RAM present and copies nothing.
   */
  lemma WritableOpensAll(b: seq<bv8>, off: int, h: int)
    requires |b| == 8 && 0 <= off <= 1 && 0 <= h < 12
    ensures BlockAttr(Writable(b, off), off, h) == PAM_RE | PAM_WE
    ensures BiosAttr(Writable(b, off), off) == PAM_RE | PAM_WE
    ensures Writable(b, off)[off] & 0x10 != 0
  {
    NibbleConstants();
  }

  /** Making writable twice is making writable once. */
  lemma WritableIdempotent(b: seq<bv8>, off: int)
    requires |b| == 8 && 0 <= off <= 1
    ensures Writable(Writable(b, off), off) == Writable(b, off)
  {}

  /** The two pci_config_readl calls filling the union. */
  method LoadPam(cs: ConfigSpace, bdf: Bdf, pam0: int) returns (data: array<bv8>)
    requires PamFits(pam0)
    ensures fresh(data) && data[..] == PamRead(cs.State(), bdf, pam0)
  {
    var base := PamBase(pam0);
    var w0 := ReadL(cs.State(), bdf, base);
    var w1 := ReadL(cs.State(), bdf, base + 4);
    var b0 := PamBytes(w0, w1);
    data := new bv8[8](k requires 0 <= k < 8 => b0[k]);
    assert data[..] == b0;
  }

  /** The two pci_config_writel calls storing the union back. */
  method StorePam(cs: ConfigSpace, bdf: Bdf, pam0: int, data: array<bv8>)
    requires PamFits(pam0) && data.Length == 8
    modifies cs
    ensures cs.mmconfig == old(cs.mmconfig)
    ensures cs.regs == PamWrite(old(cs.regs), cs.wmask, cs.mmconfig, bdf, pam0, old(data[..]))
  {
    var b := data[..];
    var base := PamBase(pam0);
    var lo := PamWord(b, 0);
    var hi := PamWord(b, 1);
    cs.WriteL(bdf, base, lo);
    cs.WriteL(bdf, base + 4, hi);
  }

  /** The edits of __make_bios_writable_intel; the result is the old pam[0] & 0x10. */
  method EditWritable(data: array<bv8>, off: int) returns (ramPresent: bv8)
    requires data.Length == 8 && 0 <= off <= 1
    modifies data
    ensures data[..] == Writable(old(data[..]), off)
    ensures ramPresent == old(data[off]) & 0x10
  {
    ghost var b0 := data[..];
    var i := 0;
    while i < 6
      invariant 0 <= i <= 6
      invariant forall j :: 0 <= j < 8 ==> data[j] == if off < j <= off + i then 0x33 else b0[j]
    {
      data[i + 1 + off] := 0x33;
      i := i + 1;
    }
    ramPresent := data[off] & 0x10;
    data[off] := 0x30;
    assert data[..] == Writable(b0, off);
  }

  /**
   * __make_bios_writable_intel: pam[1..6] := 0x33, pam[0] := 0x30, both
   * dwords written back. `copyBios` reports the memcpy of the BIOS image
   * from its flash alias, done when the old pam[0] lacked bit 0x10.
   */
  method WritableIntelBody(cs: ConfigSpace, bdf: Bdf, pam0: int) returns (copyBios: bool)
    requires PamFits(pam0)
    modifies cs
    ensures cs.mmconfig == old(cs.mmconfig)
    ensures cs.regs == PamWrite(old(cs.regs), cs.wmask, cs.mmconfig, bdf, pam0,
                                Writable(PamRead(old(cs.State()), bdf, pam0), pam0 % 4))
    ensures copyBios <==> PamRead(old(cs.State()), bdf, pam0)[pam0 % 4] & 0x10 == 0
  {
    var data := LoadPam(cs, bdf, pam0);
    var ramPresent := EditWritable(data, pam0 % 4);
    StorePam(cs, bdf, pam0, data);
    copyBios := ramPresent == 0;
  }

  /**
   * make_bios_writable_intel: when pam[0] lacks bit 0x10 the BIOS code is not
   * in RAM, so the body runs from the flash alias 0xfff00000 higher; either
   * way it has the same effect on the PAM registers.
   */
  method WritableIntel(cs: ConfigSpace, bdf: Bdf, pam0: int) returns (copyBios: bool)
    requires PamFits(pam0)
    modifies cs
    ensures cs.mmconfig == old(cs.mmconfig)
    ensures cs.regs == PamWrite(old(cs.regs), cs.wmask, cs.mmconfig, bdf, pam0,
                                Writable(PamRead(old(cs.State()), bdf, pam0), pam0 % 4))
    ensures copyBios <==> PamRead(old(cs.State()), bdf, pam0)[pam0 % 4] & 0x10 == 0
  {
    var reg := ReadB(cs.State(), bdf, pam0);
    if reg & 0x10 == 0 {
      copyBios := WritableIntelBody(cs, bdf, pam0);
      return;
    }
    copyBios := WritableIntelBody(cs, bdf, pam0);
  }

  // ---------------------------------------------------------------------
  // Making the BIOS area read-only
  // ---------------------------------------------------------------------

  /** A 16 KiB block at x is locked read-only: ROMs reach x and the ROM area extends past it. */
  predicate Lockable(x: int, romlast: int, rommax: int) {
    romlast >= x && rommax >= x + 0x4000
  }

  /** The segment loop of make_bios_readonly_intel from segment i on. */
  function LockFrom(b: seq<bv8>, off: int, i: int, romlast: int, rommax: int): (r: seq<bv8>)
    requires |b| == 8 && 0 <= off <= 1 && 0 <= i <= 6
    ensures |r| == 8
    decreases 6 - i
  {
    if i == 6 then b
    else
      var mem := BUILD_ROM_START + i * 0x8000;
      if romlast < mem + 0x4000 || rommax < mem + 0x8000 then
        if romlast >= mem && rommax >= mem + 0x4000 then b[off + i + 1 := 0x31] else b
      else
        LockFrom(b[off + i + 1 := 0x11], off, i + 1, romlast, rommax)
  }

  /** The window after make_bios_readonly_intel's edits. */
  function Readonly(b: seq<bv8>, off: int, romlast: int, rommax: int): (r: seq<bv8>)
    requires |b| == 8 && 0 <= off <= 1
    ensures |r| == 8
  {
    LockFrom(b, off, 0, romlast, rommax)[off := 0x10]
  }

  /** Blocks from 0xc0000 + 2i*16K on: what LockFrom makes of each. */
  lemma {:induction false} LockFromBlock(b: seq<bv8>, off: int, i: int, romlast: int, rommax: int, h: int)
    requires |b| == 8 && 0 <= off <= 1 && 0 <= i <= 6 && 0 <= h < 12
    requires i > 0 ==> Lockable(BUILD_ROM_START + (2 * i - 1) * 0x4000, romlast, rommax)
    ensures var x := BUILD_ROM_START + h * 0x4000;
      var r := BlockAttr(LockFrom(b, off, i, romlast, rommax), off, h);
      (h >= 2 * i && Lockable(x, romlast, rommax) ==> r == PAM_RE) &&
      ((h >= 2 * i && !Lockable(x, romlast, rommax) && h % 2 == 1 && Lockable(x - 0x4000, romlast, rommax))
         ==> r == PAM_RE | PAM_WE) &&
      ((h >= 2 * i && !Lockable(x, romlast, rommax) && !(h % 2 == 1 && Lockable(x - 0x4000, romlast, rommax)))
         ==> r == BlockAttr(b, off, h)) &&
      (h < 2 * i ==> r == BlockAttr(b, off, h))
    decreases 6 - i
  {
    NibbleConstants();
    if i < 6 {
      var mem := BUILD_ROM_START + i * 0x8000;
      if !(romlast < mem + 0x4000 || rommax < mem + 0x8000) {
        LockFromBlock(b[off + i + 1 := 0x11], off, i + 1, romlast, rommax, h);
      }
    }
  }

  /**
   * After make_bios_readonly_intel: the BIOS segment is read-only, and a
   * 16 KiB ROM block is read-only exactly when ROMs reach its start and the
   * ROM area covers all of it. The upper half of the segment where the loop
   * stops becomes read-write when only its lower half is locked; every other
   * block keeps its attribute.
   */
  lemma ReadonlyBlocks(b: seq<bv8>, off: int, romlast: int, rommax: int, h: int)
    requires |b| == 8 && 0 <= off <= 1 && 0 <= h < 12
    ensures BiosAttr(Readonly(b, off, romlast, rommax), off) == PAM_RE
    ensures Lockable(BUILD_ROM_START + h * 0x4000, romlast, rommax) ==>
      BlockAttr(Readonly(b, off, romlast, rommax), off, h) == PAM_RE
    ensures !Lockable(BUILD_ROM_START + h * 0x4000, romlast, rommax) && h % 2 == 1 &&
            Lockable(BUILD_ROM_START + (h - 1) * 0x4000, romlast, rommax) ==>
      BlockAttr(Readonly(b, off, romlast, rommax), off, h) == PAM_RE | PAM_WE
    ensures !Lockable(BUILD_ROM_START + h * 0x4000, romlast, rommax) &&
            !(h % 2 == 1 && Lockable(BUILD_ROM_START + (h - 1) * 0x4000, romlast, rommax)) ==>
      BlockAttr(Readonly(b, off, romlast, rommax), off, h) == BlockAttr(b, off, h)
  {
    NibbleConstants();
    LockFromBlock(b, off, 0, romlast, rommax, h);
  }

  /** Making writable undoes making read-only completely. */
  lemma WritableAfterReadonly(b: seq<bv8>, off: int, romlast: int, rommax: int)
    requires |b| == 8 && 0 <= off <= 1
    ensures Writable(Readonly(b, off, romlast, rommax), off) == Writable(b, off)
  {
    var r := Readonly(b, off, romlast, rommax);
    assert forall k :: 0 <= k < 8 && !(off <= k <= off + 6) ==> r[k] == b[k] by {
      LockFromFrame(b, off, 0, romlast, rommax);
    }
  }

  /** The segment loop edits only pam[1..6]. */
  lemma {:induction false} LockFromFrame(b: seq<bv8>, off: int, i: int, romlast: int, rommax: int)
    requires |b| == 8 && 0 <= off <= 1 && 0 <= i <= 6
    ensures forall k :: 0 <= k < 8 && !(off + 1 <= k <= off + 6) ==> LockFrom(b, off, i, romlast, rommax)[k] == b[k]
    decreases 6 - i
  {
    if i < 6 {
      var mem := BUILD_ROM_START + i * 0x8000;
      if !(romlast < mem + 0x4000 || rommax < mem + 0x8000) {
        LockFromFrame(b[off + i + 1 := 0x11], off, i + 1, romlast, rommax);
      }
    }
  }

  /** The segment loop of make_bios_readonly_intel and the final pam[0] := 0x10. */
  method EditReadonly(data: array<bv8>, off: int, romlast: u32, rommax: u32)
    requires data.Length == 8 && 0 <= off <= 1
    modifies data
    ensures data[..] == Readonly(old(data[..]), off, romlast, rommax)
  {
    ghost var b0 := data[..];
    var i := 0;
    while i < 6
      invariant 0 <= i <= 6
      invariant LockFrom(data[..], off, i, romlast, rommax) == LockFrom(b0, off, 0, romlast, rommax)
    {
      var mem := BUILD_ROM_START + i * 32 * 1024;
      if romlast < mem + 16 * 1024 || rommax < mem + 32 * 1024 {
        if romlast >= mem && rommax >= mem + 16 * 1024 {
          data[i + 1 + off] := 0x31;
        }
        break;
      }
      data[i + 1 + off] := 0x11;
      i := i + 1;
    }
    data[off] := 0x10;
  }

  /** make_bios_readonly_intel, after the cache write-back (not modelled). */
  method ReadonlyIntel(cs: ConfigSpace, bdf: Bdf, pam0: int, romlast: u32, rommax: u32)
    requires PamFits(pam0)
    modifies cs
    ensures cs.mmconfig == old(cs.mmconfig)
    ensures cs.regs == PamWrite(old(cs.regs), cs.wmask, cs.mmconfig, bdf, pam0,
                                Readonly(PamRead(old(cs.State()), bdf, pam0), pam0 % 4, romlast, rommax))
  {
    var data := LoadPam(cs, bdf, pam0);
    EditReadonly(data, pam0 % 4, romlast, rommax);
    StorePam(cs, bdf, pam0, data);
  }

  // ---------------------------------------------------------------------
  // Host bridge selection (make_bios_writable, make_bios_readonly)
  // ---------------------------------------------------------------------

  /** The PAM0 offset of a host bridge known by its vendor/device words, if it is one. */
  function ShadowPam(vendev: bv32): (r: Option<int>)
    ensures r.Some? ==> PamFits(r.value)
  {
    var vendor := Lo16(vendev);
    var device := Hi16(vendev);
    if vendor == PCI_VENDOR_ID_INTEL && device == PCI_DEVICE_ID_INTEL_82441 then Some(I440FX_PAM0)
    else if vendor == PCI_VENDOR_ID_INTEL && device == PCI_DEVICE_ID_INTEL_Q35_MCH then Some(Q35_HOST_BRIDGE_PAM0)
    else None
  }

  /** The first function among fs that is a supported host bridge. */
  function FindShadow(s: Space, fs: seq<int>): (r: Option<int>)
    requires forall i :: 0 <= i < |fs| ==> 0 <= fs[i] < 0x1_0000
    ensures r.Some? ==> 0 <= r.value < 0x1_0000 && ShadowPam(ReadL(s, r.value, PCI_VENDOR_ID)).Some?
  {
    if fs == [] then None
    else if ShadowPam(ReadL(s, fs[0], PCI_VENDOR_ID)).Some? then Some(fs[0])
    else FindShadow(s, fs[1..])
  }

  /** FindShadow picks the first host bridge of fs, and finds none only when fs has none. */
  lemma {:induction false} FindShadowFirst(s: Space, fs: seq<int>)
    requires forall i :: 0 <= i < |fs| ==> 0 <= fs[i] < 0x1_0000
    ensures FindShadow(s, fs).Some? ==> exists i :: 0 <= i < |fs| && fs[i] == FindShadow(s, fs).value &&
                                                   (forall k :: 0 <= k < i ==> ShadowPam(ReadL(s, fs[k], PCI_VENDOR_ID)).None?)
    ensures FindShadow(s, fs).None? ==> forall i :: 0 <= i < |fs| ==> ShadowPam(ReadL(s, fs[i], PCI_VENDOR_ID)).None?
  {
    if fs != [] && ShadowPam(ReadL(s, fs[0], PCI_VENDOR_ID)).None? {
      FindShadowFirst(s, fs[1..]);
      if FindShadow(s, fs).Some? {
        var i :| 0 <= i < |fs[1..]| && fs[1..][i] == FindShadow(s, fs).value &&
                 (forall k :: 0 <= k < i ==> ShadowPam(ReadL(s, fs[1..][k], PCI_VENDOR_ID)).None?);
        assert fs[i + 1] == FindShadow(s, fs).value;
      }
    } else if fs != [] {
      assert fs[0] == FindShadow(s, fs).value;
    }
  }

  /** The host bridge make_bios_writable settles on, with its PAM0 offset. */
  function ShadowTarget(s: Space): (r: Option<(Bdf, int)>)
    ensures r.Some? ==> PamFits(r.value.1)
  {
    match FindShadow(s, BusFunctions(s, 0))
    case None => None
    case Some(bdf) => Some((bdf, ShadowPam(ReadL(s, bdf, PCI_VENDOR_ID)).value))
  }

  /** The registers once the PAM of host bridge t is opened. */
  function OpenedRegs(regs: Regs, wmask: Regs, s: Space, t: (Bdf, int)): Regs
    requires PamFits(t.1)
  {
    PamWrite(regs, wmask, s.mmconfig, t.0, t.1, Writable(PamRead(s, t.0, t.1), t.1 % 4))
  }

  /** pam[0] & 0x10 of host bridge t: RAM already backs the BIOS segment. */
  predicate RamPresent(s: Space, t: (Bdf, int))
    requires PamFits(t.1)
  {
    PamRead(s, t.0, t.1)[t.1 % 4] & 0x10 != 0
  }

  /**
   * The foreachbdf(bdf, 0) search of make_bios_writable: the first function
   * whose vendor/device words name an i440FX or Q35 host bridge, with that
   * chip's PAM0 offset; -1 when there is none.
   */
  method FindShadowBridge(cs: ConfigSpace) returns (bdf: int, pam0: int)
    ensures ShadowTarget(cs.State()).None? ==> bdf == -1
    ensures ShadowTarget(cs.State()).Some? ==> (bdf, pam0) == ShadowTarget(cs.State()).value
  {
    var s := cs.State();
    ghost var goal := FindShadow(s, BusFunctions(s, 0));
    bdf := cs.Next(-1, 0);
    assert Rest(s, 0, bdf) == BusFunctions(s, 0);
    while bdf >= 0
      invariant bdf == -1 || 0 <= bdf < 256
      invariant FindShadow(s, Rest(s, 0, bdf)) == goal
      decreases if bdf < 0 then 0 else 257 - bdf
    {
      assert Rest(s, 0, bdf) == [bdf] + Rest(s, 0, NextBdf(s, bdf, 0));
      var vendev := ReadL(s, bdf, PCI_VENDOR_ID);
      var vendor := Lo16(vendev);
      var device := Hi16(vendev);
      if vendor == PCI_VENDOR_ID_INTEL && device == PCI_DEVICE_ID_INTEL_82441 {
        return bdf, I440FX_PAM0;
      }
      if vendor == PCI_VENDOR_ID_INTEL && device == PCI_DEVICE_ID_INTEL_Q35_MCH {
        return bdf, Q35_HOST_BRIDGE_PAM0;
      }
      bdf := cs.Next(bdf, 0);
    }
    pam0 := 0;
  }

  /** ShadowBDF: the host bridge make_bios_writable found, -1 before. */
  class ShadowState {
    var shadowBdf: int

    ghost predicate Valid()
      reads this
    {
      shadowBdf == -1 || 0 <= shadowBdf < 0x1_0000
    }

    constructor ()
      ensures Valid() && shadowBdf == -1
    {
      shadowBdf := -1;
    }

    /**
     * make_bios_writable: on QEMU (and not Xen), the first function on bus
     * 0 that is an i440FX or Q35 host bridge gets its PAM opened with that
     * chip's PAM0 offset, code_mutable_preinit runs, and the function is
     * recorded; if there is none nothing changes.
     */
    method MakeBiosWritable(cs: ConfigSpace, post: Post.PostFlags, qemu: bool, xen: bool) returns (copyBios: bool)
      requires Valid()
      modifies this, cs, post
      ensures Valid() && cs.mmconfig == old(cs.mmconfig)
      ensures !qemu || xen || ShadowTarget(old(cs.State())).None? ==>
        shadowBdf == old(shadowBdf) && cs.regs == old(cs.regs) && !copyBios &&
        post.haveRunPost == old(post.haveRunPost) && post.cmos == old(post.cmos)
      ensures qemu && !xen && ShadowTarget(old(cs.State())).Some? ==>
        shadowBdf == ShadowTarget(old(cs.State())).value.0 &&
        cs.regs == OpenedRegs(old(cs.regs), cs.wmask, old(cs.State()), ShadowTarget(old(cs.State())).value) &&
        (copyBios <==> !RamPresent(old(cs.State()), ShadowTarget(old(cs.State())).value)) &&
        (post.haveRunPost, post.cmos) == Post.AfterPreinit(old(post.haveRunPost), old(post.cmos))
    {
      copyBios := false;
      if !qemu || xen {
        return;
      }
      var bdf, pam0 := FindShadowBridge(cs);
      if bdf < 0 {
        return;
      }
      copyBios := WritableIntel(cs, bdf, pam0);
      post.CodeMutablePreinit();
      shadowBdf := bdf;
    }

    /**
     * make_bios_readonly: nothing without QEMU, on Xen, or before a host
     * bridge was found; otherwise the recorded function's device id (read
     * afresh) picks the i440FX PAM0 offset for the 82441 and the Q35 one for
     * anything else.
     */
    method MakeBiosReadonly(cs: ConfigSpace, qemu: bool, xen: bool, romlast: u32, rommax: u32)
      requires Valid()
      modifies cs
      ensures cs.mmconfig == old(cs.mmconfig)
      ensures !qemu || xen || shadowBdf < 0 ==> cs.regs == old(cs.regs)
      ensures qemu && !xen && shadowBdf >= 0 ==>
        var pam0 := if ReadW(old(cs.State()), shadowBdf, PCI_DEVICE_ID) == PCI_DEVICE_ID_INTEL_82441
                    then I440FX_PAM0 else Q35_HOST_BRIDGE_PAM0;
        cs.regs == PamWrite(old(cs.regs), cs.wmask, cs.mmconfig, shadowBdf, pam0,
                            Readonly(PamRead(old(cs.State()), shadowBdf, pam0), pam0 % 4, romlast, rommax))
    {
      if !qemu || xen {
        return;
      }
      if shadowBdf < 0 {
        return;
      }
      var device := ReadW(cs.State(), shadowBdf, PCI_DEVICE_ID);
      if device == PCI_DEVICE_ID_INTEL_82441 {
        ReadonlyIntel(cs, shadowBdf, I440FX_PAM0, romlast, rommax);
      } else {
        ReadonlyIntel(cs, shadowBdf, Q35_HOST_BRIDGE_PAM0, romlast, rommax);
      }
    }
  }
}
