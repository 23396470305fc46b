/**
 * Parts of POST in src/post.c that compute something: the interrupt vector
 * table fill (ivt_init), relocation patching (updateRelocs, reloc_preinit),
 * the run-once flag (code_mutable_preinit) and the base-memory size in the
 * BIOS data area (bda_init).
 *
 * config.h and hw/rtc.h are not part of this model; the constants taken from
 * them below are the PC/AT values (master PIC at vector 0x08, slave PIC at
 * 0x70, CMOS shutdown-status register 0x0f).
 */
module Post {
  import opened Bits
  import opened Wrappers

  // ---------------------------------------------------------------------
  // Interrupt vector table (ivt_init)
  // ---------------------------------------------------------------------

  const BIOS_HWIRQ0_VECTOR: int := 0x08
  const BIOS_HWIRQ8_VECTOR: int := 0x70

  /** The 16-bit entry points ivt_init installs (entry_iret_official, entry_hwpic1, entry_02, ...). */
  datatype EntryPoint =
    | EntryIretOfficial | EntryHwpic1 | EntryHwpic2
    | Entry02 | Entry05 | Entry10 | Entry11 | Entry12 | Entry13Official | Entry14
    | Entry15Official | Entry16 | Entry17 | Entry18 | Entry19Official | Entry1aOfficial | Entry40

  /** An IVT entry: FUNC16 of an entry point, or an explicit SEGOFF. */
  datatype Vector = Handler(entry: EntryPoint) | SegOff(seg: u16, off: u16)

  /** The software handlers ivt_init installs by vector number. */
  function SoftHandler(i: int): Option<EntryPoint> {
    if i == 0x02 then Some(Entry02)
    else if i == 0x05 then Some(Entry05)
    else if i == 0x10 then Some(Entry10)
    else if i == 0x11 then Some(Entry11)
    else if i == 0x12 then Some(Entry12)
    else if i == 0x13 then Some(Entry13Official)
    else if i == 0x14 then Some(Entry14)
    else if i == 0x15 then Some(Entry15Official)
    else if i == 0x16 then Some(Entry16)
    else if i == 0x17 then Some(Entry17)
    else if i == 0x18 then Some(Entry18)
    else if i == 0x19 then Some(Entry19Official)
    else if i == 0x1a then Some(Entry1aOfficial)
    else if i == 0x40 then Some(Entry40)
    else None
  }

  /** Vectors 0x60-0x66 (reserved for user interrupts) and 0x79 end as 0:0. */
  predicate Cleared(i: int) { 0x60 <= i <= 0x66 || i == 0x79 }

  predicate HwPic1(i: int) { BIOS_HWIRQ0_VECTOR <= i < BIOS_HWIRQ0_VECTOR + 8 }
  predicate HwPic2(i: int) { BIOS_HWIRQ8_VECTOR <= i < BIOS_HWIRQ8_VECTOR + 8 }

  /** The final content of vector i after ivt_init, the later writes taking precedence. */
  function IvtEntry(i: int): Vector {
    if Cleared(i) then SegOff(0, 0)
    else if SoftHandler(i).Some? then Handler(SoftHandler(i).value)
    else if HwPic1(i) then Handler(EntryHwpic1)
    else if HwPic2(i) then Handler(EntryHwpic2)
    else Handler(EntryIretOfficial)
  }

  /** The layers of ivt_init do not collide: each vector is set by at most one of the later layers. */
  lemma IvtLayersDisjoint(i: int)
    ensures !(HwPic1(i) && HwPic2(i))
    ensures SoftHandler(i).Some? ==> !HwPic1(i) && !HwPic2(i) && !Cleared(i)
    ensures Cleared(i) ==> !HwPic1(i) && !HwPic2(i)
  {}

  /** Every hardware IRQ vector reaches its PIC's handler; the default reaches every other unlisted vector. */
  lemma IvtRouting(i: int)
    requires 0 <= i < 256
    ensures HwPic1(i) ==> IvtEntry(i) == Handler(EntryHwpic1)
    ensures HwPic2(i) ==> IvtEntry(i) == Handler(EntryHwpic2)
    ensures !HwPic1(i) && !HwPic2(i) && !Cleared(i) && SoftHandler(i).None? ==> IvtEntry(i) == Handler(EntryIretOfficial)
  {}

  class InterruptTable {
    /** The 256 vectors at address 0. */
    const vectors: array<Vector>

    constructor ()
      ensures vectors.Length == 256 && fresh(vectors)
    {
      vectors := new Vector[256](_ => SegOff(0, 0));
    }

    /** The software-handler writes of ivt_init below vector 0x14; every other vector keeps its value. */
    method SetSoftwareLow()
      requires vectors.Length == 256
      modifies vectors
      ensures forall k :: 0 <= k < 256 ==>
        vectors[k] == if k < 0x14 && SoftHandler(k).Some? then Handler(SoftHandler(k).value) else old(vectors[k])
    {
      vectors[0x02] := Handler(Entry02);
      vectors[0x05] := Handler(Entry05);
      vectors[0x10] := Handler(Entry10);
      vectors[0x11] := Handler(Entry11);
      vectors[0x12] := Handler(Entry12);
      vectors[0x13] := Handler(Entry13Official);
    }

    /** The remaining software-handler writes of ivt_init, from vector 0x14 up. */
    method SetSoftwareHigh()
      requires vectors.Length == 256
      modifies vectors
      ensures forall k :: 0 <= k < 256 ==>
        vectors[k] == if k >= 0x14 && SoftHandler(k).Some? then Handler(SoftHandler(k).value) else old(vectors[k])
    {
      vectors[0x14] := Handler(Entry14);
      vectors[0x15] := Handler(Entry15Official);
      vectors[0x16] := Handler(Entry16);
      vectors[0x17] := Handler(Entry17);
      vectors[0x18] := Handler(Entry18);
      vectors[0x19] := Handler(Entry19Official);
      vectors[0x1a] := Handler(Entry1aOfficial);
      vectors[0x40] := Handler(Entry40);
    }

    /** ivt_init */
    method Init()
      requires vectors.Length == 256
      modifies vectors
      ensures forall i :: 0 <= i < 256 ==> vectors[i] == IvtEntry(i)
    {
      var i := 0;
      while i < 256
        invariant 0 <= i <= 256
        invariant forall k :: 0 <= k < i ==> vectors[k] == Handler(EntryIretOfficial)
      {
        vectors[i] := Handler(EntryIretOfficial);
        i := i + 1;
      }
      i := BIOS_HWIRQ0_VECTOR;
      while i < BIOS_HWIRQ0_VECTOR + 8
        invariant BIOS_HWIRQ0_VECTOR <= i <= BIOS_HWIRQ0_VECTOR + 8
        invariant forall k :: 0 <= k < 256 ==>
          vectors[k] == if BIOS_HWIRQ0_VECTOR <= k < i then Handler(EntryHwpic1) else Handler(EntryIretOfficial)
      {
        vectors[i] := Handler(EntryHwpic1);
        i := i + 1;
      }
      i := BIOS_HWIRQ8_VECTOR;
      while i < BIOS_HWIRQ8_VECTOR + 8
        invariant BIOS_HWIRQ8_VECTOR <= i <= BIOS_HWIRQ8_VECTOR + 8
        invariant forall k :: 0 <= k < 256 ==>
          vectors[k] == if HwPic1(k) then Handler(EntryHwpic1)
                        else if BIOS_HWIRQ8_VECTOR <= k < i then Handler(EntryHwpic2)
                        else Handler(EntryIretOfficial)
      {
        vectors[i] := Handler(EntryHwpic2);
        i := i + 1;
      }
      SetSoftwareLow();
      SetSoftwareHigh();
      i := 0x60;
      while i <= 0x66
        invariant 0x60 <= i <= 0x67
        invariant forall k :: 0 <= k < 256 ==>
          vectors[k] == if 0x60 <= k < i then SegOff(0, 0)
                        else if SoftHandler(k).Some? then Handler(SoftHandler(k).value)
                        else if HwPic1(k) then Handler(EntryHwpic1)
                        else if HwPic2(k) then Handler(EntryHwpic2)
                        else Handler(EntryIretOfficial)
      {
        vectors[i] := SegOff(0, 0);
        i := i + 1;
      }
      vectors[0x79] := SegOff(0, 0);
    }
  }

  // ---------------------------------------------------------------------
  // Relocation (updateRelocs, reloc_preinit)
  // ---------------------------------------------------------------------

  /** x split into its low byte and the rest. */
  lemma ByteSplit(x: int)
    requires 0 <= x
    ensures x == x % 0x100 + 0x100 * (x / 0x100) && 0 <= x % 0x100 < 0x100
  {}

  /** The little-endian u32 at byte address a. */
  function Load32(m: seq<u8>, a: int): u32
    requires 0 <= a && a + 4 <= |m|
  {
    m[a] as int + 0x100 * (m[a + 1] as int + 0x100 * (m[a + 2] as int + 0x100 * m[a + 3] as int))
  }

  /** Memory with the u32 at byte address a replaced by v. */
  function Store32(m: seq<u8>, a: int, v: u32): (r: seq<u8>)
    requires 0 <= a && a + 4 <= |m|
    ensures |r| == |m|
    ensures forall k :: 0 <= k < |m| && !(a <= k < a + 4) ==> r[k] == m[k]
  {
    m[a := v % 0x100][a + 1 := v / 0x100 % 0x100][a + 2 := v / 0x1_0000 % 0x100][a + 3 := v / 0x100_0000]
  }

  /** A stored word reads back. */
  lemma LoadStore(m: seq<u8>, a: int, v: u32)
    requires 0 <= a && a + 4 <= |m|
    ensures Load32(Store32(m, a, v), a) == v
  {
    var r := Store32(m, a, v);
    ByteSplit(v);
    ByteSplit(v / 0x100);
    ByteSplit(v / 0x1_0000);
    assert v / 0x100 / 0x100 == v / 0x1_0000 && v / 0x1_0000 / 0x100 == v / 0x100_0000;
    assert r[a] == v % 0x100 && r[a + 1] == v / 0x100 % 0x100 && r[a + 2] == v / 0x1_0000 % 0x100 && r[a + 3] == v / 0x100_0000;
  }

  /** Every relocation lands inside memory. */
  predicate RelocsFit(size: int, dest: int, relocs: seq<u32>) {
    forall j :: 0 <= j < |relocs| ==> 0 <= dest + relocs[j] && dest + relocs[j] + 4 <= size
  }

  /** The u32 `*p += delta`. */
  function AddMod(x: u32, delta: u32): u32 { (x + delta) % U32 }

  /** Memory after updateRelocs has processed `relocs` in order. */
  function ApplyRelocs(m: seq<u8>, dest: int, relocs: seq<u32>, delta: u32): (r: seq<u8>)
    requires RelocsFit(|m|, dest, relocs)
    ensures |r| == |m|
    decreases |relocs|
  {
    if relocs == [] then m
    else
      var prev := ApplyRelocs(m, dest, relocs[..|relocs| - 1], delta);
      var a := dest + relocs[|relocs| - 1];
      Store32(prev, a, AddMod(Load32(prev, a), delta))
  }

  /** Byte k lies in the word some relocation patches. */
  predicate Covered(dest: int, relocs: seq<u32>, k: int) {
    exists j :: 0 <= j < |relocs| && dest + relocs[j] <= k < dest + relocs[j] + 4
  }

  /** Relocation j patches no byte of the word relocation i patches. */
  predicate Apart(relocs: seq<u32>, i: int, j: int)
    requires 0 <= i < |relocs| && 0 <= j < |relocs|
  {
    relocs[i] as int + 4 <= relocs[j] || relocs[j] as int + 4 <= relocs[i]
  }

  /** No two relocated words share a byte. */
  predicate Disjoint(relocs: seq<u32>) {
    forall i, j :: 0 <= i < |relocs| && 0 <= j < |relocs| && i != j ==> Apart(relocs, i, j)
  }

  /** A prefix of relocations that fit also fits. */
  lemma FitPrefix(size: int, dest: int, relocs: seq<u32>, n: int)
    requires RelocsFit(size, dest, relocs) && 0 <= n <= |relocs|
    ensures RelocsFit(size, dest, relocs[..n])
  {}

  /** The last relocation is applied on top of the others. */
  lemma ApplyRelocsLast(m: seq<u8>, dest: int, relocs: seq<u32>, delta: u32)
    requires relocs != [] && RelocsFit(|m|, dest, relocs) && RelocsFit(|m|, dest, relocs[..|relocs| - 1])
    ensures ApplyRelocs(m, dest, relocs, delta) ==
      Store32(ApplyRelocs(m, dest, relocs[..|relocs| - 1], delta), dest + relocs[|relocs| - 1],
              AddMod(Load32(ApplyRelocs(m, dest, relocs[..|relocs| - 1], delta), dest + relocs[|relocs| - 1]), delta))
  {}

  /** One more relocation on top of the first i. */
  lemma RelocStep(m0: seq<u8>, dest: int, relocs: seq<u32>, i: int, delta: u32, prev: seq<u8>)
    requires RelocsFit(|m0|, dest, relocs) && 0 <= i < |relocs| && RelocsFit(|m0|, dest, relocs[..i])
    requires prev == ApplyRelocs(m0, dest, relocs[..i], delta)
    ensures RelocsFit(|m0|, dest, relocs[..i + 1])
    ensures ApplyRelocs(m0, dest, relocs[..i + 1], delta)
            == Store32(prev, dest + relocs[i], AddMod(Load32(prev, dest + relocs[i]), delta))
  {
    FitPrefix(|m0|, dest, relocs, i + 1);
    assert relocs[..i + 1][..i] == relocs[..i];
    ApplyRelocsLast(m0, dest, relocs[..i + 1], delta);
  }

  /** Two memories that agree on four bytes load the same word there. */
  lemma LoadSame(m1: seq<u8>, m2: seq<u8>, a: int)
    requires 0 <= a && a + 4 <= |m1| && a + 4 <= |m2|
    requires m1[a] == m2[a] && m1[a + 1] == m2[a + 1] && m1[a + 2] == m2[a + 2] && m1[a + 3] == m2[a + 3]
    ensures Load32(m1, a) == Load32(m2, a)
  {}

  /** A byte no relocation covers keeps its value. */
  lemma {:induction false} ApplyRelocsFrame(m: seq<u8>, dest: int, relocs: seq<u32>, delta: u32, k: int)
    requires RelocsFit(|m|, dest, relocs) && 0 <= k < |m| && !Covered(dest, relocs, k)
    ensures ApplyRelocs(m, dest, relocs, delta)[k] == m[k]
    decreases |relocs|
  {
    if relocs != [] {
      var init := relocs[..|relocs| - 1];
      FitPrefix(|m|, dest, relocs, |relocs| - 1);
      ApplyRelocsLast(m, dest, relocs, delta);
      ApplyRelocsFrame(m, dest, init, delta, k);
    }
  }

  /** The last relocation's word, untouched by the others, grows by delta. */
  lemma ApplyRelocsWordLast(m: seq<u8>, dest: int, relocs: seq<u32>, delta: u32)
    requires RelocsFit(|m|, dest, relocs) && Disjoint(relocs) && relocs != []
    ensures Load32(ApplyRelocs(m, dest, relocs, delta), dest + relocs[|relocs| - 1]) ==
            AddMod(Load32(m, dest + relocs[|relocs| - 1]), delta)
  {
    var n := |relocs| - 1;
    var init := relocs[..n];
    FitPrefix(|m|, dest, relocs, n);
    ApplyRelocsLast(m, dest, relocs, delta);
    var prev := ApplyRelocs(m, dest, init, delta);
    var a := dest + relocs[n];
    forall t | a <= t < a + 4
      ensures prev[t] == m[t]
    {
      assert !Covered(dest, init, t) by {
        forall i | 0 <= i < |init|
          ensures !(dest + init[i] <= t < dest + init[i] + 4)
        {
          assert Apart(relocs, i, n);
        }
      }
      ApplyRelocsFrame(m, dest, init, delta, t);
    }
    LoadSame(prev, m, a);
    LoadStore(prev, a, AddMod(Load32(prev, a), delta));
  }

  /** The last relocation leaves the word of every earlier one as it was. */
  lemma ApplyRelocsWordKept(m: seq<u8>, dest: int, relocs: seq<u32>, delta: u32, j: int)
    requires RelocsFit(|m|, dest, relocs) && Disjoint(relocs) && 0 <= j < |relocs| - 1
    requires RelocsFit(|m|, dest, relocs[..|relocs| - 1])
    ensures Load32(ApplyRelocs(m, dest, relocs, delta), dest + relocs[j]) ==
            Load32(ApplyRelocs(m, dest, relocs[..|relocs| - 1], delta), dest + relocs[j])
  {
    var n := |relocs| - 1;
    ApplyRelocsLast(m, dest, relocs, delta);
    var prev := ApplyRelocs(m, dest, relocs[..n], delta);
    var a := dest + relocs[n];
    var r := Store32(prev, a, AddMod(Load32(prev, a), delta));
    var b := dest + relocs[j];
    assert Apart(relocs, j, n);
    LoadSame(r, prev, b);
  }

  /** With non-overlapping relocations, each relocated word grows by delta modulo 2^32. */
  lemma {:induction false} ApplyRelocsWord(m: seq<u8>, dest: int, relocs: seq<u32>, delta: u32, j: int)
    requires RelocsFit(|m|, dest, relocs) && Disjoint(relocs) && 0 <= j < |relocs|
    ensures Load32(ApplyRelocs(m, dest, relocs, delta), dest + relocs[j]) == AddMod(Load32(m, dest + relocs[j]), delta)
    decreases |relocs|
  {
    var n := |relocs| - 1;
    if j == n {
      ApplyRelocsWordLast(m, dest, relocs, delta);
    } else {
      var init := relocs[..n];
      assert Disjoint(init) by {
        forall i, i' | 0 <= i < |init| && 0 <= i' < |init| && i != i'
          ensures Apart(init, i, i')
        {
          assert Apart(relocs, i, i');
        }
      }
      FitPrefix(|m|, dest, relocs, n);
      ApplyRelocsWordKept(m, dest, relocs, delta, j);
      ApplyRelocsWord(m, dest, init, delta, j);
    }
  }

  /** Four byte writes that together store one little-endian word. */
  method Write32(mem: array<u8>, a: int, v: u32)
    requires 0 <= a && a + 4 <= mem.Length
    modifies mem
    ensures mem[..] == Store32(old(mem[..]), a, v)
  {
    mem[a] := v % 0x100;
    mem[a + 1] := v / 0x100 % 0x100;
    mem[a + 2] := v / 0x1_0000 % 0x100;
    mem[a + 3] := v / 0x100_0000;
  }

  /** updateRelocs: `*(u32*)(dest + *reloc) += delta` for each reloc in [rstart, rend). */
  method UpdateRelocs(mem: array<u8>, dest: int, relocs: seq<u32>, delta: u32)
    requires RelocsFit(mem.Length, dest, relocs)
    modifies mem
    ensures mem[..] == ApplyRelocs(old(mem[..]), dest, relocs, delta)
  {
    ghost var m0 := mem[..];
    var i := 0;
    while i < |relocs|
      invariant 0 <= i <= |relocs|
      invariant RelocsFit(|m0|, dest, relocs[..i])
      invariant |m0| == mem.Length
      invariant mem[..] == ApplyRelocs(m0, dest, relocs[..i], delta)
    {
      var cur := mem[..];
      RelocStep(m0, dest, relocs, i, delta, cur);
      var a := dest + relocs[i];
      var v := AddMod(Load32(cur, a), delta);
      Write32(mem, a, v);
      i := i + 1;
    }
    assert relocs[..i] == relocs;
  }

  /** delta = codedest - codesrc, as the u32 the relocation words receive. */
  function RelocDelta(codedest: u32, codesrc: u32): (delta: u32)
    ensures (codesrc + delta) % U32 == codedest
  {
    (codedest - codesrc) % U32
  }

  /**
   * The address reloc_preinit calls: a function inside the init code
   * [codesrc, initEnd) moves with the code to codedest, any other stays.
   * Pointer arithmetic is modulo 2^32.
   */
  function RelocatedEntry(f: u32, codesrc: u32, initEnd: u32, codedest: u32): (r: u32)
    ensures codesrc <= f < initEnd ==> r == (codedest + (f - codesrc)) % U32
    ensures !(codesrc <= f < initEnd) ==> r == f
  {
    if codesrc <= f < initEnd then (f + (codedest - codesrc)) % U32 else f
  }

  /** A function in the init code keeps its offset from the start of the code. */
  lemma RelocatedOffset(f: u32, codesrc: u32, initEnd: u32, codedest: u32)
    requires codesrc <= f < initEnd && codedest + (initEnd - codesrc) <= U32
    ensures codedest <= RelocatedEntry(f, codesrc, initEnd, codedest) < codedest + (initEnd - codesrc)
    ensures RelocatedEntry(f, codesrc, initEnd, codedest) - codedest == f - codesrc
  {}

  /** Memory after the three updateRelocs calls of reloc_preinit. */
  function Relocated(m: seq<u8>, codedest: u32, flatStart: int,
                     absRelocs: seq<u32>, relRelocs: seq<u32>, initRelocs: seq<u32>, delta: u32): (r: seq<u8>)
    requires RelocsFit(|m|, codedest, absRelocs) && RelocsFit(|m|, codedest, relRelocs) && RelocsFit(|m|, flatStart, initRelocs)
    ensures |r| == |m|
  {
    var m1 := ApplyRelocs(m, codedest, absRelocs, delta);
    var m2 := ApplyRelocs(m1, codedest, relRelocs, (U32 - delta) % U32);
    ApplyRelocs(m2, flatStart, initRelocs, delta)
  }

  /** The three updateRelocs calls of reloc_preinit. */
  method PatchRelocs(mem: array<u8>, codedest: u32, flatStart: int,
                     absRelocs: seq<u32>, relRelocs: seq<u32>, initRelocs: seq<u32>, delta: u32)
    requires RelocsFit(mem.Length, codedest, absRelocs) && RelocsFit(mem.Length, codedest, relRelocs)
    requires RelocsFit(mem.Length, flatStart, initRelocs)
    modifies mem
    ensures mem[..] == Relocated(old(mem[..]), codedest, flatStart, absRelocs, relRelocs, initRelocs, delta)
  {
    UpdateRelocs(mem, codedest, absRelocs, delta);
    UpdateRelocs(mem, codedest, relRelocs, (U32 - delta) % U32);
    UpdateRelocs(mem, flatStart, initRelocs, delta);
  }

  /** The outcome of reloc_preinit: the address of the function finally called, or the panic. */
  datatype Reloc = Called(entry: u32) | NoSpace

  /**
   * reloc_preinit. The init code is relocated to `codedest` (None when
   * memalign_tmp fails, which panics): absolute and init relocations get
   * +delta, relative relocations -delta, and the entry point moves if it
   * lies in the init code. Without CONFIG_RELOCATE_INIT the function is
   * called in place and memory is untouched. The memcpy of the code is not
   * modelled; the relocation words are patched in `mem`.
   */
  method RelocPreinit(mem: array<u8>, relocateInit: bool, f: u32, codesrc: u32, initEnd: u32,
                      codedest: Option<u32>, flatStart: int,
                      absRelocs: seq<u32>, relRelocs: seq<u32>, initRelocs: seq<u32>) returns (r: Reloc)
    requires relocateInit && codedest.Some? ==>
      RelocsFit(mem.Length, codedest.value, absRelocs) && RelocsFit(mem.Length, codedest.value, relRelocs) &&
      RelocsFit(mem.Length, flatStart, initRelocs)
    modifies mem
    ensures !relocateInit ==> r == Called(f) && mem[..] == old(mem[..])
    ensures relocateInit && codedest.None? ==> r == NoSpace && mem[..] == old(mem[..])
    ensures relocateInit && codedest.Some? ==>
      r == Called(RelocatedEntry(f, codesrc, initEnd, codedest.value)) &&
      mem[..] == Relocated(old(mem[..]), codedest.value, flatStart, absRelocs, relRelocs, initRelocs,
                           RelocDelta(codedest.value, codesrc))
  {
    if !relocateInit {
      return Called(f);
    }
    if codedest.None? {
      return NoSpace;
    }
    var dest := codedest.value;
    var delta := RelocDelta(dest, codesrc);
    PatchRelocs(mem, dest, flatStart, absRelocs, relRelocs, initRelocs, delta);
    var func := f;
    if codesrc <= f < initEnd {
      func := (f + (dest - codesrc)) % U32;
    }
    return Called(func);
  }

  // ---------------------------------------------------------------------
  // Run-once POST flag (code_mutable_preinit)
  // ---------------------------------------------------------------------

  const CMOS_RESET_CODE: int := 0x0f

  /** HaveRunPost and the CMOS registers rtc_write reaches. */
  class PostFlags {
    var haveRunPost: bool
    var cmos: map<int, bv8>

    constructor (cmos0: map<int, bv8>)
      ensures !haveRunPost && cmos == cmos0
    {
      haveRunPost := false;
      cmos := cmos0;
    }

    /**
     * code_mutable_preinit: the first call clears the CMOS reset code and
     * sets HaveRunPost; every later call changes nothing.
     */
    method CodeMutablePreinit()
      modifies this
      ensures old(haveRunPost) ==> haveRunPost && cmos == old(cmos)
      ensures !old(haveRunPost) ==> haveRunPost && cmos == old(cmos)[CMOS_RESET_CODE := 0]
    {
      if haveRunPost {
        return;
      }
      cmos := cmos[CMOS_RESET_CODE := 0];
      haveRunPost := true;
    }
  }

  /** The state code_mutable_preinit leaves, as a function of the state it finds. */
  function AfterPreinit(haveRunPost: bool, cmos: map<int, bv8>): (r: (bool, map<int, bv8>))
    ensures r.0
    ensures haveRunPost ==> r.1 == cmos
    ensures !haveRunPost ==> r.1 == cmos[CMOS_RESET_CODE := 0]
  {
    if haveRunPost then (true, cmos) else (true, cmos[CMOS_RESET_CODE := 0])
  }

  /** code_mutable_preinit is idempotent. */
  lemma PreinitIdempotent(haveRunPost: bool, cmos: map<int, bv8>)
    ensures AfterPreinit(AfterPreinit(haveRunPost, cmos).0, AfterPreinit(haveRunPost, cmos).1) == AfterPreinit(haveRunPost, cmos)
  {}

  // ---------------------------------------------------------------------
  // Base memory size (bda_init)
  // ---------------------------------------------------------------------

  /**
   * The EBDA segment: EBDA_SEGMENT_START with CONFIG_MALLOC_UPPERMEMORY, else
   * the segment `ebdaSize` KiB below final_varlow_start rounded down to 1 KiB.
   */
  function EbdaSeg(mallocUpper: bool, segmentStart: u16, ebdaSize: nat, varlowStart: u32): (r: int)
    requires !mallocUpper ==> ebdaSize * 1024 <= AlignDown(varlowStart, 1024) < U16 * 16
    ensures 0 <= r < U16
    ensures !mallocUpper ==> r % 64 == 0
  {
    if mallocUpper then segmentStart
    else
      var p := AlignDown(varlowStart, 1024) - ebdaSize * 1024;
      MulMod(AlignDown(varlowStart, 1024) / 1024 - ebdaSize, 1024);
      p / 16
  }

  /** mem_size_kb: the KiB of base memory below the EBDA. */
  function MemSizeKb(ebdaSeg: u16): (r: int)
    ensures r * 1024 <= ebdaSeg * 16 < (r + 1) * 1024
    ensures ebdaSeg % 64 == 0 ==> r * 1024 == ebdaSeg * 16
  {
    ebdaSeg / (1024 / 16)
  }
}
