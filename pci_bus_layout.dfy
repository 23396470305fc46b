/**
 * The bus numbers pci_bios_init_bus_rec and pci_bios_init_bus leave in the
 * primary, secondary and subordinate registers of each PCI-to-PCI bridge
 * (src/fw/pciinit.c), set against a depth-first layout computed over the
 * configuration space as it was found.
 *
 * The registers follow the layout when the three bus registers of every
 * bridge answer and are fully writable, no bridge has a bus reservation
 * capability, and the 8-bit counter never has to pass 255.
 */
module PciBusLayout {
  import opened Bits
  import opened PciConfig
  import opened PciBus

  /** A bridge's primary, secondary and subordinate bus numbers. */
  datatype BusNumbers = BusNumbers(primary: int, secondary: int, subordinate: int)

  // ---------------------------------------------------------------------
  // The intended numbering
  // ---------------------------------------------------------------------

  /**
   * The numbering the walk of `bus` is meant to produce from counter c, as a
   * depth-first count with unbounded bus numbers over a fixed configuration
   * space: each bridge foreachbdf finds on `bus`, in bdf order, takes `bus`
   * as primary and the next number as secondary; its subtree is numbered
   * from there, and the last number the subtree used is its subordinate.
   * The result is the last number used and each bridge's numbers.
   */
  function Layout(s: Space, bus: int, c: nat, fuel: nat): (r: (nat, map<int, BusNumbers>))
    requires 0 <= bus < 256
    ensures r.0 >= c
    decreases fuel, 2, 0
  {
    LayoutFrom(s, bus, NextBdf(s, bus * 256 - 1, bus), c, fuel)
  }

  /** The layout of the functions of `bus` from cursor n on. */
  function LayoutFrom(s: Space, bus: int, n: int, c: nat, fuel: nat): (r: (nat, map<int, BusNumbers>))
    requires 0 <= bus < 256 && Cursor(bus, n)
    ensures r.0 >= c
    decreases fuel, 1, CursorMeasure(bus, n)
  {
    if n < 0 then (c, map[])
    else
      var one := LayoutOne(s, bus, n, c, fuel);
      var rest := LayoutFrom(s, bus, NextBdf(s, n, bus), one.0, fuel);
      (rest.0, one.1 + rest.1)
  }

  /**
   * The layout of function bdf of `bus`: nothing unless it is a bridge; a
   * bridge's subtree is followed while fuel lasts and bus numbers remain.
   */
  function LayoutOne(s: Space, bus: int, bdf: Bdf, c: nat, fuel: nat): (r: (nat, map<int, BusNumbers>))
    ensures r.0 >= c
    ensures IsBridge(s, bdf) ==> r.0 > c
    decreases fuel, 0, 2
  {
    if !IsBridge(s, bdf) then (c, map[])
    else
      var sub := SubLayout(s, c, fuel);
      (sub.0, sub.1[bdf := BusNumbers(bus, c + 1, sub.0)])
  }

  /** The layout of the bus behind a bridge found with the counter at c: bus c + 1, numbered from c + 1. */
  function SubLayout(s: Space, c: nat, fuel: nat): (r: (nat, map<int, BusNumbers>))
    ensures r.0 >= c + 1
    decreases fuel, 0, 1
  {
    if fuel == 0 || c + 1 > 255 then (c + 1, map[]) else Layout(s, c + 1, c + 1, fuel - 1)
  }

  /** A function of `bus` from cursor n on, or any function of buses lo+1 .. hi. */
  predicate Touched(d: int, bus: int, n: int, lo: int, hi: int) {
    (n >= 0 && n <= d < bus * 256 + 256) || lo * 256 + 256 <= d < hi * 256 + 256
  }

  /** Numbers handed out after lo and up to hi, the primary below the secondary, the secondary at most the subordinate. */
  predicate InRange(e: BusNumbers, lo: int, hi: int) {
    e.primary < e.secondary && lo < e.secondary <= e.subordinate <= hi
  }

  /** A layout of functions of `bus` from cursor n on and of buses lo+1 .. hi, with numbers in lo+1 .. hi. */
  ghost predicate Laid(m: map<int, BusNumbers>, bus: int, n: int, lo: int, hi: int) {
    forall d :: d in m ==> 0 <= d < 0x1_0000 && Touched(d, bus, n, lo, hi) && InRange(m[d], lo, hi)
  }

  /** The layout of one bridge bdf: itself and functions of buses lo+1 .. hi, with numbers in lo+1 .. hi. */
  ghost predicate LaidOne(m: map<int, BusNumbers>, bdf: int, lo: int, hi: int) {
    forall d :: d in m ==> 0 <= d < 0x1_0000 && (d == bdf || Touched(d, 0, -1, lo, hi)) && InRange(m[d], lo, hi)
  }

  /**
   * Numbering `bus` from c lays out bridges of `bus` and of buses c+1 up to
   * the last number used, and only gives out numbers in that range.
   */
  lemma {:induction false} LayoutKeys(s: Space, bus: int, c: nat, fuel: nat)
    requires 0 <= bus < 256 && bus <= c
    ensures Laid(Layout(s, bus, c, fuel).1, bus, bus * 256, c, Layout(s, bus, c, fuel).0)
    decreases fuel, 2, 0
  {
    var n := NextBdf(s, bus * 256 - 1, bus);
    var r := LayoutFrom(s, bus, n, c, fuel);
    LayoutFromKeys(s, bus, n, c, fuel);
    LaidWiden(r.1, bus, n, bus * 256, c, r.0);
  }

  lemma {:induction false} LayoutFromKeys(s: Space, bus: int, n: int, c: nat, fuel: nat)
    requires 0 <= bus < 256 && bus <= c && Cursor(bus, n)
    ensures Laid(LayoutFrom(s, bus, n, c, fuel).1, bus, n, c, LayoutFrom(s, bus, n, c, fuel).0)
    decreases fuel, 1, CursorMeasure(bus, n)
  {
    if n >= 0 {
      var one := LayoutOne(s, bus, n, c, fuel);
      var next := NextBdf(s, n, bus);
      var rest := LayoutFrom(s, bus, next, one.0, fuel);
      LayoutOneKeys(s, bus, n, c, fuel);
      LayoutFromKeys(s, bus, next, one.0, fuel);
      LaidJoin(one.1, rest.1, bus, n, next, c, one.0, rest.0);
    }
  }

  lemma {:induction false} LayoutOneKeys(s: Space, bus: int, bdf: Bdf, c: nat, fuel: nat)
    requires bus * 256 <= bdf < bus * 256 + 256 && bus <= c
    ensures LaidOne(LayoutOne(s, bus, bdf, c, fuel).1, bdf, c, LayoutOne(s, bus, bdf, c, fuel).0)
    decreases fuel, 0, 2
  {
    if IsBridge(s, bdf) {
      var sub := SubLayout(s, c, fuel);
      SubLayoutKeys(s, c, fuel);
      LaidSub(sub.1, bdf, BusNumbers(bus, c + 1, sub.0), c, sub.0);
    } else {
      assert LayoutOne(s, bus, bdf, c, fuel).1 == map[];
    }
  }

  lemma {:induction false} SubLayoutKeys(s: Space, c: nat, fuel: nat)
    ensures Laid(SubLayout(s, c, fuel).1, c + 1, (c + 1) * 256, c + 1, SubLayout(s, c, fuel).0)
    decreases fuel, 0, 1
  {
    if fuel > 0 && c + 1 <= 255 {
      LayoutKeys(s, c + 1, c + 1, fuel - 1);
    }
  }

  lemma LaidWiden(m: map<int, BusNumbers>, bus: int, n: int, n': int, lo: int, hi: int)
    requires Laid(m, bus, n, lo, hi) && (n < 0 || 0 <= n' <= n)
    ensures Laid(m, bus, n', lo, hi)
  {}

  /** A bridge's layout followed by the layout of the rest of its bus. */
  lemma LaidJoin(m1: map<int, BusNumbers>, m2: map<int, BusNumbers>, bus: int, n: int, next: int, c: int, c1: int, c2: int)
    requires bus * 256 <= n < bus * 256 + 256 && bus <= c <= c1 <= c2 && (next < 0 || next > n)
    requires LaidOne(m1, n, c, c1) && Laid(m2, bus, next, c1, c2)
    ensures Laid(m1 + m2, bus, n, c, c2)
  {}

  /** A bridge numbered after c, over the layout of its subtree. */
  lemma LaidSub(sub: map<int, BusNumbers>, bdf: int, e: BusNumbers, c: int, h: int)
    requires 0 <= bdf < c * 256 + 256 && bdf < 0x1_0000 && InRange(e, c, h) && e.secondary == c + 1
    requires Laid(sub, c + 1, (c + 1) * 256, c + 1, h)
    ensures LaidOne(sub[bdf := e], bdf, c, h)
  {}

  /** foreachbdf's functions from cursor n on: n and those pci_next enumerates after it. */
  function Chain(s: Space, bus: int, n: int): seq<int>
    requires 0 <= bus < 256 && Cursor(bus, n)
  {
    if n < 0 then [] else [n] + EnumFrom(s, bus, n)
  }

  /** On `bus` itself, m lays out exactly the bridges among fs, each with primary `bus`. */
  ghost predicate Covers(s: Space, m: map<int, BusNumbers>, bus: int, fs: seq<int>) {
    (forall d: Bdf :: bus * 256 <= d < bus * 256 + 256 ==> (d in m <==> d in fs && IsBridge(s, d))) &&
    (forall d :: d in m && bus * 256 <= d < bus * 256 + 256 ==> m[d].primary == bus)
  }

  lemma CoversJoin(s: Space, m1: map<int, BusNumbers>, m2: map<int, BusNumbers>, bus: int, n: Bdf, fs: seq<int>, c: int, c1: int)
    requires bus * 256 <= n < bus * 256 + 256 && bus <= c
    requires LaidOne(m1, n, c, c1) && (n in m1 <==> IsBridge(s, n)) && (n in m1 ==> m1[n].primary == bus)
    requires Covers(s, m2, bus, fs)
    ensures Covers(s, m1 + m2, bus, [n] + fs)
  {}

  /**
   * The bridges the layout of `bus` numbers on `bus` itself are exactly the
   * bridges foreachbdf visits there, each with `bus` as its primary.
   */
  lemma LayoutCovers(s: Space, bus: int, c: nat, fuel: nat)
    requires 0 <= bus < 256 && bus <= c
    ensures var m := Layout(s, bus, c, fuel).1;
      forall d: Bdf :: BdfToBus(d) == bus ==> (d in m <==> Visited(s, d) && IsBridge(s, d))
    ensures var m := Layout(s, bus, c, fuel).1;
      forall d :: d in m && BdfToBus(d) == bus ==> m[d].primary == bus
  {
    var n := NextBdf(s, bus * 256 - 1, bus);
    var m := LayoutFrom(s, bus, n, c, fuel).1;
    LayoutFromCovers(s, bus, n, c, fuel);
    LayoutKeys(s, bus, c, fuel);
    BusFunctionsExact(s, bus);
    assert BusFunctions(s, bus) == Chain(s, bus, n);
    CoversVisited(s, m, bus);
  }

  /** Covers over foreachbdf's whole bus, restated with Visited. */
  lemma CoversVisited(s: Space, m: map<int, BusNumbers>, bus: int)
    requires 0 <= bus < 256
    requires Covers(s, m, bus, BusFunctions(s, bus)) && forall d :: d in m ==> 0 <= d < 0x1_0000
    requires forall d :: d in BusFunctions(s, bus) <==> bus * 256 <= d < bus * 256 + 256 && Visited(s, d)
    ensures forall d: Bdf :: BdfToBus(d) == bus ==> (d in m <==> Visited(s, d) && IsBridge(s, d))
    ensures forall d :: d in m && BdfToBus(d) == bus ==> m[d].primary == bus
  {
    forall d: Bdf | BdfToBus(d) == bus
      ensures bus * 256 <= d < bus * 256 + 256
    {
      BusRange(d, bus);
    }
    forall d | d in m && BdfToBus(d) == bus
      ensures m[d].primary == bus
    {
      BusRange(d, bus);
    }
  }

  lemma {:induction false} LayoutFromCovers(s: Space, bus: int, n: int, c: nat, fuel: nat)
    requires 0 <= bus < 256 && bus <= c && Cursor(bus, n)
    ensures Covers(s, LayoutFrom(s, bus, n, c, fuel).1, bus, Chain(s, bus, n))
    decreases CursorMeasure(bus, n)
  {
    if n >= 0 {
      var one := LayoutOne(s, bus, n, c, fuel);
      var next := NextBdf(s, n, bus);
      var rest := LayoutFrom(s, bus, next, one.0, fuel);
      LayoutOneKeys(s, bus, n, c, fuel);
      LayoutFromCovers(s, bus, next, one.0, fuel);
      assert Chain(s, bus, n) == [n] + Chain(s, bus, next);
      CoversJoin(s, one.1, rest.1, bus, n, Chain(s, bus, next), c, one.0);
    }
  }

  /** A function of bus `bus` lies in that bus's 256 bdfs. */
  lemma BusRange(d: Bdf, bus: int)
    requires BdfToBus(d) == bus
    ensures bus * 256 <= d < bus * 256 + 256
  {
    DivModUnique(d / 256, 256, 0, d / 256);
  }

  // ---------------------------------------------------------------------
  // What a byte write changes
  // ---------------------------------------------------------------------

  /** The bus numbers the registers of function bdf read. */
  function RegsOf(s: Space, bdf: Bdf): BusNumbers {
    BusNumbers(ReadB(s, bdf, PCI_PRIMARY_BUS) as int, ReadB(s, bdf, PCI_SECONDARY_BUS) as int, ReadB(s, bdf, PCI_SUBORDINATE_BUS) as int)
  }

  /** The byte an access to (bdf, ofs) reaches answers, and all its bits are writable. */
  predicate Writable(s: Space, wmask: Regs, bdf: Bdf, ofs: Offset) {
    var k := Location(s.mmconfig, bdf, ofs, Byte);
    k in s.regs && Mask(wmask, k) == 0xff
  }

  predicate BusRegsAt(s: Space, wmask: Regs, bdf: Bdf) {
    Writable(s, wmask, bdf, PCI_PRIMARY_BUS) && Writable(s, wmask, bdf, PCI_SECONDARY_BUS) && Writable(s, wmask, bdf, PCI_SUBORDINATE_BUS)
  }

  /** The three bus number registers of every bridge answer and are fully writable. */
  ghost predicate BusRegsWritable(s: Space, wmask: Regs) {
    forall d: Bdf :: IsBridge(s, d) ==> BusRegsAt(s, wmask, d)
  }

  /** The same registers exist, reached the same way. */
  predicate SameShape(s: Space, t: Space) {
    t.regs.Keys == s.regs.Keys && t.mmconfig == s.mmconfig
  }

  /** No bus number register other than function bdf's reads differently. */
  ghost predicate Only(s: Space, t: Space, bdf: int) {
    forall d: Bdf :: d != bdf ==> RegsOf(t, d) == RegsOf(s, d)
  }

  /** No bus number register outside Touched(bus, n, lo, hi) reads differently. */
  ghost predicate Frame(s: Space, t: Space, bus: int, n: int, lo: int, hi: int) {
    forall d: Bdf :: !Touched(d, bus, n, lo, hi) ==> RegsOf(t, d) == RegsOf(s, d)
  }

  /** Every bridge m names reads back the numbers m gives it. */
  ghost predicate Records(s: Space, m: map<int, BusNumbers>) {
    forall d :: d in m ==> 0 <= d < 0x1_0000 && RegsOf(s, d) == m[d]
  }

  /** A byte write changes no other byte in the first 256 of any function, whichever path the ECAM address takes. */
  lemma PutByteElsewhere(s: Space, wmask: Regs, bdf: Bdf, ofs: Offset, v: bv8, d: Bdf, o: Offset)
    requires ofs < 0x100 && o < 0x100 && (d != bdf || o != ofs)
    ensures ReadB(PutByte(s, wmask, bdf, ofs, v), d, o) == ReadB(s, d, o)
  {
    LocationOffset(s.mmconfig, bdf, ofs, Byte);
    LocationOffset(s.mmconfig, d, o, Byte);
  }

  /** A fully writable byte reads back what was written. */
  lemma PutByteOwn(s: Space, wmask: Regs, bdf: Bdf, ofs: Offset, v: bv8)
    requires Writable(s, wmask, bdf, ofs)
    ensures ReadB(PutByte(s, wmask, bdf, ofs, v), bdf, ofs) == v
  {
    var k := Location(s.mmconfig, bdf, ofs, Byte);
    assert Merge(s.regs[k], v, 0xff) == v;
  }

  /** A write to one bus number register of a function sets that number and leaves every other bus number register. */
  lemma PutBusReg(s: Space, wmask: Regs, bdf: Bdf, ofs: Offset, v: bv8)
    requires ofs == PCI_PRIMARY_BUS || ofs == PCI_SECONDARY_BUS || ofs == PCI_SUBORDINATE_BUS
    requires Writable(s, wmask, bdf, ofs)
    ensures var t := PutByte(s, wmask, bdf, ofs, v);
      SameShape(s, t) && Only(s, t, bdf) &&
      RegsOf(t, bdf) == if ofs == PCI_PRIMARY_BUS then RegsOf(s, bdf).(primary := v as int)
                        else if ofs == PCI_SECONDARY_BUS then RegsOf(s, bdf).(secondary := v as int)
                        else RegsOf(s, bdf).(subordinate := v as int)
  {
    PutByteOwn(s, wmask, bdf, ofs, v);
    PutByteFrame(s, wmask, bdf, ofs, v);
  }

  /** A write at or above 0x10 in the first 256 bytes of bdf changes no other function's bus numbers. */
  lemma PutByteFrame(s: Space, wmask: Regs, bdf: Bdf, ofs: Offset, v: bv8)
    requires 0x10 <= ofs < 0x100
    ensures var t := PutByte(s, wmask, bdf, ofs, v);
      SameShape(s, t) && Only(s, t, bdf) &&
      (ofs != PCI_PRIMARY_BUS ==> RegsOf(t, bdf).primary == RegsOf(s, bdf).primary) &&
      (ofs != PCI_SECONDARY_BUS ==> RegsOf(t, bdf).secondary == RegsOf(s, bdf).secondary) &&
      (ofs != PCI_SUBORDINATE_BUS ==> RegsOf(t, bdf).subordinate == RegsOf(s, bdf).subordinate)
  {
    forall d: Bdf | d != bdf
      ensures RegsOf(PutByte(s, wmask, bdf, ofs, v), d) == RegsOf(s, d)
    {
      PutByteElsewhere(s, wmask, bdf, ofs, v, d, PCI_PRIMARY_BUS);
      PutByteElsewhere(s, wmask, bdf, ofs, v, d, PCI_SECONDARY_BUS);
      PutByteElsewhere(s, wmask, bdf, ofs, v, d, PCI_SUBORDINATE_BUS);
    }
    if ofs != PCI_PRIMARY_BUS {
      PutByteElsewhere(s, wmask, bdf, ofs, v, bdf, PCI_PRIMARY_BUS);
    }
    if ofs != PCI_SECONDARY_BUS {
      PutByteElsewhere(s, wmask, bdf, ofs, v, bdf, PCI_SECONDARY_BUS);
    }
    if ofs != PCI_SUBORDINATE_BUS {
      PutByteElsewhere(s, wmask, bdf, ofs, v, bdf, PCI_SUBORDINATE_BUS);
    }
  }

  lemma OnlyTrans(s: Space, t: Space, u: Space, bdf: int)
    requires Only(s, t, bdf) && Only(t, u, bdf)
    ensures Only(s, u, bdf)
  {}

  /** A bridge whose registers answer and accept every bit keeps doing so while only bus numbers are written. */
  lemma WritableAt(s0: Space, t: Space, wmask: Regs, bdf: Bdf)
    requires BusRegsWritable(s0, wmask) && IsBridge(s0, bdf) && SameShape(s0, t)
    ensures BusRegsAt(t, wmask, bdf)
  {}

  // ---------------------------------------------------------------------
  // One bridge
  // ---------------------------------------------------------------------

  /** The first foreachbdf body changes the bus numbers of bdf alone. */
  lemma ClearOneFrame(s: Space, wmask: Regs, bdf: Bdf)
    ensures SameShape(s, ClearOne(s, wmask, bdf)) && Only(s, ClearOne(s, wmask, bdf), bdf)
  {
    if IsBridge(s, bdf) {
      var s1 := PutByte(s, wmask, bdf, PCI_SECONDARY_BUS, 255);
      PutByteFrame(s, wmask, bdf, PCI_SECONDARY_BUS, 255);
      PutByteFrame(s1, wmask, bdf, PCI_SUBORDINATE_BUS, 0);
      OnlyTrans(s, s1, ClearOne(s, wmask, bdf), bdf);
    }
  }

  /** The first foreachbdf loop, from cursor n, changes the bus numbers of functions of `bus` from n on alone. */
  lemma {:induction false} ClearAtFrame(s: Space, wmask: Regs, bus: int, n: int)
    requires 0 <= bus < 256 && Cursor(bus, n)
    ensures SameShape(s, ClearAt(s, wmask, bus, n)) && Frame(s, ClearAt(s, wmask, bus, n), bus, n, 0, 0)
    decreases CursorMeasure(bus, n)
  {
    if n >= 0 {
      var s' := ClearOne(s, wmask, n);
      var next := NextBdf(s', n, bus);
      ClearOneFrame(s, wmask, n);
      ClearAtFrame(s', wmask, bus, next);
      OnlyThenFrame(s, s', ClearAt(s', wmask, bus, next), bus, n, next);
    }
  }

  lemma OnlyThenFrame(s: Space, t: Space, u: Space, bus: int, n: int, next: int)
    requires bus * 256 <= n < bus * 256 + 256 && (next < 0 || next > n)
    requires Only(s, t, n) && Frame(t, u, bus, next, 0, 0)
    ensures Frame(s, u, bus, n, 0, 0)
  {}

  /** The primary and secondary updates set both numbers of a writable bridge and nothing else. */
  lemma RenumberRegs(s: Space, wmask: Regs, bus: int, bdf: Bdf, secbus: u8)
    requires 0 <= bus < 256 && BusRegsAt(s, wmask, bdf)
    ensures var t := Renumber(s, wmask, bus, bdf, secbus);
      SameShape(s, t) && Only(s, t, bdf) && RegsOf(t, bdf) == RegsOf(s, bdf).(primary := bus, secondary := secbus)
  {
    var s1 := if ReadB(s, bdf, PCI_PRIMARY_BUS) as int != bus
              then PutByte(s, wmask, bdf, PCI_PRIMARY_BUS, bus as bv8) else s;
    ByteRound(bus);
    ByteRound(secbus);
    if ReadB(s, bdf, PCI_PRIMARY_BUS) as int != bus {
      PutBusReg(s, wmask, bdf, PCI_PRIMARY_BUS, bus as bv8);
    }
    assert SameShape(s, s1) && Only(s, s1, bdf) && RegsOf(s1, bdf) == RegsOf(s, bdf).(primary := bus);
    var t := Renumber(s, wmask, bus, bdf, secbus);
    if ReadB(s1, bdf, PCI_SECONDARY_BUS) as int != secbus {
      PutBusReg(s1, wmask, bdf, PCI_SECONDARY_BUS, secbus as bv8);
    }
    assert SameShape(s1, t) && Only(s1, t, bdf) && RegsOf(t, bdf) == RegsOf(s1, bdf).(secondary := secbus);
    OnlyTrans(s, s1, t, bdf);
  }

  /** A bridge opened with the counter at c reads primary `bus`, secondary c + 1 and subordinate 255. */
  lemma OpenRegs(st: NumState, wmask: Regs, bus: int, bdf: Bdf)
    requires 0 <= bus < 256 && st.counter < 255 && BusRegsAt(st.s, wmask, bdf)
    ensures Open(st, wmask, bus, bdf).counter == st.counter + 1
    ensures var t := Open(st, wmask, bus, bdf).s;
      SameShape(st.s, t) && Only(st.s, t, bdf) && RegsOf(t, bdf) == BusNumbers(bus, st.counter + 1, 255)
  {
    var s2 := Renumber(st.s, wmask, bus, bdf, Secondary(st));
    RenumberRegs(st.s, wmask, bus, bdf, Secondary(st));
    PutBusReg(s2, wmask, bdf, PCI_SUBORDINATE_BUS, 255);
    OnlyTrans(st.s, s2, Open(st, wmask, bus, bdf).s, bdf);
  }

  /** Without a reservation the close writes the counter the subtree left into the subordinate register and keeps it. */
  lemma FinishRegs(st: NumState, st4: NumState, wmask: Regs, rescap: map<int, bv8>, bus: int, bdf: Bdf)
    requires 0 <= bus < 256 && ReserveCap(rescap, bdf) == 0 && BusRegsAt(st4.s, wmask, bdf)
    ensures var r := Finish(st, st4, wmask, rescap, bus, bdf);
      r.counter == st4.counter && SameShape(st4.s, r.s) && Only(st4.s, r.s, bdf) &&
      RegsOf(r.s, bdf) == RegsOf(st4.s, bdf).(subordinate := st4.counter)
  {
    var subbus := ReadB(Renumber(st.s, wmask, bus, bdf, Secondary(st)), bdf, PCI_SUBORDINATE_BUS) as int;
    var sub := Close(st4, rescap, bdf, subbus, Secondary(st));
    assert sub == st4.counter;
    assert Finish(st, st4, wmask, rescap, bus, bdf) == NumState(PutByte(st4.s, wmask, bdf, PCI_SUBORDINATE_BUS, sub as bv8), sub);
    ByteRound(sub);
    PutBusReg(st4.s, wmask, bdf, PCI_SUBORDINATE_BUS, sub as bv8);
  }

  // ---------------------------------------------------------------------
  // The walk against the layout
  // ---------------------------------------------------------------------

  /**
   * The conditions under which the registers follow the layout of s0: the
   * walk so far changed no id register and created no register, every
   * bridge's bus number registers are fully writable and none reserves buses.
   */
  ghost predicate Plain(s0: Space, s: Space, wmask: Regs, rescap: map<int, bv8>) {
    SameIds(s0, s) && SameShape(s0, s) && BusRegsWritable(s0, wmask) && NoReserveCaps(rescap)
  }

  /**
   * The walk from s ended in r as the layout ref says: the counter is the
   * last number used, every bridge laid out reads its numbers, and nothing
   * outside the walked part of `bus` from cursor n and the buses numbered
   * after c changed.
   */
  ghost predicate Follows(s0: Space, s: Space, r: NumState, bus: int, n: int, c: int, ref: (nat, map<int, BusNumbers>)) {
    SameShape(s0, r.s) && r.counter == ref.0 && Frame(s, r.s, bus, n, c, ref.0) && Records(r.s, ref.1)
  }

  /**
   * pci_bios_init_bus_rec(bus, &counter) with the counter at or above bus
   * leaves every bridge the layout names with the numbers it gives, and the
   * counter at the last number used.
   */
  lemma {:induction false} InitBusRegs(st: NumState, s0: Space, wmask: Regs, rescap: map<int, bv8>, bus: int, fuel: nat)
    requires 0 <= bus <= st.counter && Plain(s0, st.s, wmask, rescap)
    requires Layout(s0, bus, st.counter, fuel).0 <= 255
    ensures Follows(s0, st.s, InitBus(st, wmask, rescap, bus, fuel), bus, bus * 256, st.counter, Layout(s0, bus, st.counter, fuel))
    decreases fuel, 2, 0
  {
    var n0 := NextBdf(st.s, bus * 256 - 1, bus);
    var s1 := ClearAt(st.s, wmask, bus, n0);
    ClearPhase(st.s, s0, wmask, rescap, bus);
    var n1 := NextBdf(s1, bus * 256 - 1, bus);
    assert InitBus(st, wmask, rescap, bus, fuel) == WalkAt(NumState(s1, st.counter), wmask, rescap, bus, n1, fuel);
    assert Layout(s0, bus, st.counter, fuel) == LayoutFrom(s0, bus, n1, st.counter, fuel);
    var r := WalkAt(NumState(s1, st.counter), wmask, rescap, bus, n1, fuel);
    WalkRegs(NumState(s1, st.counter), s0, wmask, rescap, bus, n1, fuel);
    InitJoin(st.s, s1, r.s, bus, n0, n1, st.counter, Layout(s0, bus, st.counter, fuel).0);
  }

  /** The first foreachbdf loop of pci_bios_init_bus_rec keeps the walk plain and the cursor where it was. */
  lemma ClearPhase(s: Space, s0: Space, wmask: Regs, rescap: map<int, bv8>, bus: int)
    requires 0 <= bus < 256 && Plain(s0, s, wmask, rescap)
    ensures var s1 := ClearAt(s, wmask, bus, NextBdf(s, bus * 256 - 1, bus));
      Plain(s0, s1, wmask, rescap) && Frame(s, s1, bus, NextBdf(s, bus * 256 - 1, bus), 0, 0) &&
      NextBdf(s1, bus * 256 - 1, bus) == NextBdf(s0, bus * 256 - 1, bus)
  {
    var n0 := NextBdf(s, bus * 256 - 1, bus);
    var s1 := ClearAt(s, wmask, bus, n0);
    ClearAtIds(s, wmask, bus, n0);
    ClearAtFrame(s, wmask, bus, n0);
    SameIdsTrans(s0, s, s1);
    NextSame(s0, s1, bus * 256 - 1, bus);
  }

  lemma {:induction false} WalkRegs(st: NumState, s0: Space, wmask: Regs, rescap: map<int, bv8>, bus: int, n: int, fuel: nat)
    requires 0 <= bus <= st.counter && Cursor(bus, n) && Plain(s0, st.s, wmask, rescap)
    requires LayoutFrom(s0, bus, n, st.counter, fuel).0 <= 255
    ensures Follows(s0, st.s, WalkAt(st, wmask, rescap, bus, n, fuel), bus, n, st.counter, LayoutFrom(s0, bus, n, st.counter, fuel))
    decreases fuel, 1, CursorMeasure(bus, n)
  {
    if n >= 0 {
      var st' := BridgeStep(st, wmask, rescap, bus, n, fuel);
      var one := LayoutOne(s0, bus, n, st.counter, fuel);
      StepNumbers(st, s0, wmask, rescap, bus, n, fuel, st');
      StepRegs(st, s0, wmask, rescap, bus, n, fuel, st');
      NextSame(s0, st'.s, n, bus);
      var next := NextBdf(st'.s, n, bus);
      var rest := LayoutFrom(s0, bus, next, one.0, fuel);
      WalkRegs(st', s0, wmask, rescap, bus, next, fuel);
      LayoutOneKeys(s0, bus, n, st.counter, fuel);
      WalkJoin(st.s, st'.s, WalkAt(st', wmask, rescap, bus, next, fuel).s, one.1, rest.1, bus, n, next, st.counter, one.0, rest.0);
    }
  }

  lemma {:induction false} StepRegs(st: NumState, s0: Space, wmask: Regs, rescap: map<int, bv8>, bus: int, bdf: Bdf, fuel: nat, r: NumState)
    requires bus * 256 <= bdf < bus * 256 + 256 && bus <= st.counter && Plain(s0, st.s, wmask, rescap)
    requires LayoutOne(s0, bus, bdf, st.counter, fuel).0 <= 255
    requires r == BridgeStep(st, wmask, rescap, bus, bdf, fuel)
    ensures Follows(s0, st.s, r, bus, bdf, st.counter, LayoutOne(s0, bus, bdf, st.counter, fuel))
    decreases fuel, 0, 3
  {
    SameIdsAt(s0, st.s, bdf);
    if IsBridge(st.s, bdf) {
      var st3 := Open(st, wmask, bus, bdf);
      var st4 := Subtree(st3, wmask, rescap, fuel);
      assert r == Finish(st, st4, wmask, rescap, bus, bdf);
      BridgeRegs(st, st3, st4, s0, wmask, rescap, bus, bdf, fuel, r);
      BridgeLayout(s0, bus, bdf, st.counter, fuel);
    } else {
      NotBridgeRegs(st, s0, wmask, rescap, bus, bdf, fuel, r);
    }
  }

  /** The layout of a bridge: its subtree's, with the bridge itself added. */
  lemma BridgeLayout(s: Space, bus: int, bdf: Bdf, c: nat, fuel: nat)
    requires bus * 256 <= bdf < bus * 256 + 256 && IsBridge(s, bdf)
    ensures var sub := SubLayout(s, c, fuel);
      LayoutOne(s, bus, bdf, c, fuel) == (sub.0, sub.1[bdf := BusNumbers(bus, c + 1, sub.0)])
  {}

  /** A function that is no bridge is passed over and laid out as nothing. */
  lemma NotBridgeRegs(st: NumState, s0: Space, wmask: Regs, rescap: map<int, bv8>, bus: int, bdf: Bdf, fuel: nat, r: NumState)
    requires bus * 256 <= bdf < bus * 256 + 256 && bus <= st.counter && SameShape(s0, st.s)
    requires !IsBridge(st.s, bdf) && !IsBridge(s0, bdf)
    requires r == BridgeStep(st, wmask, rescap, bus, bdf, fuel)
    ensures Follows(s0, st.s, r, bus, bdf, st.counter, LayoutOne(s0, bus, bdf, st.counter, fuel))
  {
    assert r == st;
    assert LayoutOne(s0, bus, bdf, st.counter, fuel) == (st.counter, map[]);
  }

  /** A bridge's step: opened, its subtree numbered, closed. */
  lemma {:induction false} BridgeRegs(st: NumState, st3: NumState, st4: NumState, s0: Space, wmask: Regs, rescap: map<int, bv8>,
                                      bus: int, bdf: Bdf, fuel: nat, r: NumState)
    requires bus * 256 <= bdf < bus * 256 + 256 && bus <= st.counter && Plain(s0, st.s, wmask, rescap) && IsBridge(s0, bdf)
    requires SubLayout(s0, st.counter, fuel).0 <= 255
    requires st3 == Open(st, wmask, bus, bdf) && st4 == Subtree(st3, wmask, rescap, fuel)
    requires r == Finish(st, st4, wmask, rescap, bus, bdf)
    ensures var sub := SubLayout(s0, st.counter, fuel);
      Follows(s0, st.s, r, bus, bdf, st.counter, (sub.0, sub.1[bdf := BusNumbers(bus, st.counter + 1, sub.0)]))
    decreases fuel, 0, 2
  {
    var c := st.counter;
    var sub := SubLayout(s0, c, fuel);
    WritableAt(s0, st.s, wmask, bdf);
    OpenRegs(st, wmask, bus, bdf);
    assert st3.counter == c + 1;
    SameIdsTrans(s0, st.s, st3.s);
    assert Plain(s0, st3.s, wmask, rescap);
    SubtreeRegs(st3, s0, wmask, rescap, fuel);
    SubLayoutKeys(s0, c, fuel);
    WritableAt(s0, st4.s, wmask, bdf);
    assert ReserveCap(rescap, bdf) == 0;
    FinishRegs(st, st4, wmask, rescap, bus, bdf);
    StepJoin(st.s, st3.s, st4.s, r.s, sub.1, bus, bdf, c, sub.0);
  }

  /** The subtree behind a bridge opened with the counter at c - 1, numbered from c = st.counter. */
  lemma {:induction false} SubtreeRegs(st: NumState, s0: Space, wmask: Regs, rescap: map<int, bv8>, fuel: nat)
    requires 1 <= st.counter && Plain(s0, st.s, wmask, rescap)
    requires SubLayout(s0, st.counter - 1, fuel).0 <= 255
    ensures Follows(s0, st.s, Subtree(st, wmask, rescap, fuel), st.counter, st.counter * 256, st.counter, SubLayout(s0, st.counter - 1, fuel))
    decreases fuel, 0, 1
  {
    if fuel > 0 {
      var f: nat := fuel - 1;
      NestedRegs(st, s0, wmask, rescap, f, Subtree(st, wmask, rescap, fuel), SubLayout(s0, st.counter - 1, fuel));
    } else {
      assert Subtree(st, wmask, rescap, fuel) == st;
      assert SubLayout(s0, st.counter - 1, fuel) == (st.counter, map[]);
    }
  }

  /** InitBusRegs for the bus behind a bridge, its results named. */
  lemma {:induction false} NestedRegs(st: NumState, s0: Space, wmask: Regs, rescap: map<int, bv8>, fuel: nat, r: NumState, ref: (nat, map<int, BusNumbers>))
    requires Plain(s0, st.s, wmask, rescap)
    requires r == InitBus(st, wmask, rescap, st.counter, fuel) && ref == Layout(s0, st.counter, st.counter, fuel) && ref.0 <= 255
    ensures Follows(s0, st.s, r, st.counter, st.counter * 256, st.counter, ref)
    decreases fuel, 3, 0
  {
    InitBusRegs(st, s0, wmask, rescap, st.counter, fuel);
  }

  /** The first loop followed by the second. */
  lemma InitJoin(s: Space, s1: Space, u: Space, bus: int, n0: int, n1: int, c: int, h: int)
    requires (n0 < 0 || n0 >= bus * 256) && (n1 < 0 || n1 >= bus * 256)
    requires Frame(s, s1, bus, n0, 0, 0) && Frame(s1, u, bus, n1, c, h)
    ensures Frame(s, u, bus, bus * 256, c, h)
  {}

  /** One bridge's step followed by the rest of its bus. */
  lemma WalkJoin(s: Space, t: Space, u: Space, m1: map<int, BusNumbers>, m2: map<int, BusNumbers>, bus: int, n: int, next: int, c: int, c1: int, c2: int)
    requires bus * 256 <= n < bus * 256 + 256 && bus <= c <= c1 <= c2 && (next < 0 || next > n)
    requires Frame(s, t, bus, n, c, c1) && Records(t, m1) && LaidOne(m1, n, c, c1)
    requires Frame(t, u, bus, next, c1, c2) && Records(u, m2)
    ensures Frame(s, u, bus, n, c, c2) && Records(u, m1 + m2)
  {}

  /** A bridge opened, its subtree numbered behind it, and the bridge closed. */
  lemma StepJoin(s: Space, t3: Space, t4: Space, u: Space, sub: map<int, BusNumbers>, bus: int, bdf: Bdf, c: int, h: int)
    requires bus * 256 <= bdf < bus * 256 + 256 && bus <= c && c + 1 <= h
    requires Only(s, t3, bdf) && RegsOf(t3, bdf) == BusNumbers(bus, c + 1, 255)
    requires Frame(t3, t4, c + 1, (c + 1) * 256, c + 1, h) && Records(t4, sub) && Laid(sub, c + 1, (c + 1) * 256, c + 1, h)
    requires Only(t4, u, bdf) && RegsOf(u, bdf) == RegsOf(t4, bdf).(subordinate := h)
    ensures Frame(s, u, bus, bdf, c, h) && Records(u, sub[bdf := BusNumbers(bus, c + 1, h)])
  {
    assert !Touched(bdf, c + 1, (c + 1) * 256, c + 1, h);
  }

  // ---------------------------------------------------------------------
  // pci_bios_init_bus
  // ---------------------------------------------------------------------

  /** The layouts of the extra root buses: each numbered from the bus after the last number used, while numbers remain. */
  function LayoutRoots(s: Space, c: nat, fuel: nat, rounds: nat): (r: (nat, map<int, BusNumbers>))
    ensures r.0 >= c
    decreases rounds
  {
    if rounds == 0 || c >= 255 then (c, map[])
    else
      var one := Layout(s, c + 1, c + 1, fuel);
      var rest := LayoutRoots(s, one.0, fuel, rounds - 1);
      (rest.0, one.1 + rest.1)
  }

  /** The layout of the host bus from 0, then of the extra root buses when there are any. */
  function LayoutAll(s: Space, extraroots: u8, fuel: nat, rounds: nat): (r: (nat, map<int, BusNumbers>)) {
    var host := Layout(s, 0, 0, fuel);
    if extraroots == 0 then host
    else
      var more := LayoutRoots(s, host.0, fuel, rounds);
      (more.0, host.1 + more.1)
  }

  lemma {:induction false} ExtraRootsRegs(st: NumState, s0: Space, wmask: Regs, rescap: map<int, bv8>, fuel: nat, rounds: nat,
                                          fin: NumState, ref: (nat, map<int, BusNumbers>))
    requires Plain(s0, st.s, wmask, rescap)
    requires fin == ExtraRoots(st, wmask, rescap, fuel, rounds).0 && ref == LayoutRoots(s0, st.counter, fuel, rounds) && ref.0 <= 255
    ensures Follows(s0, st.s, fin, 0, -1, st.counter, ref)
    decreases rounds
  {
    if rounds > 0 && st.counter < 0xff {
      var k: nat := rounds - 1;
      var c := st.counter + 1;
      var st2 := InitBus(NumState(st.s, c), wmask, rescap, c, fuel);
      var one := Layout(s0, c, c, fuel);
      var rest := LayoutRoots(s0, one.0, fuel, k);
      LayoutRootsStep(s0, st.counter, fuel, rounds, k);
      RootRegs(st, s0, wmask, rescap, fuel, st2, one);
      ExtraRootsStep(st, wmask, rescap, fuel, rounds, k);
      ExtraRootsRegs(st2, s0, wmask, rescap, fuel, k, fin, rest);
      RootsJoin(s0, st.s, st2.s, fin, one.1, rest.1, c, one.0, rest.0);
      assert ref == (rest.0, one.1 + rest.1);
    } else {
      assert fin == st;
      assert ref == (st.counter, map[]);
    }
  }

  lemma LayoutRootsStep(s: Space, c: nat, fuel: nat, rounds: nat, k: nat)
    requires rounds == k + 1 && c < 255
    ensures var one := Layout(s, c + 1, c + 1, fuel); var rest := LayoutRoots(s, one.0, fuel, k);
      LayoutRoots(s, c, fuel, rounds) == (rest.0, one.1 + rest.1)
  {}

  /** One extra root bus numbered from the counter plus one, its results named. */
  lemma RootRegs(st: NumState, s0: Space, wmask: Regs, rescap: map<int, bv8>, fuel: nat, st2: NumState, one: (nat, map<int, BusNumbers>))
    requires Plain(s0, st.s, wmask, rescap) && st.counter < 0xff
    requires st2 == InitBus(NumState(st.s, st.counter + 1), wmask, rescap, st.counter + 1, fuel)
    requires one == Layout(s0, st.counter + 1, st.counter + 1, fuel) && one.0 <= 255
    ensures Plain(s0, st2.s, wmask, rescap) && st2.counter == one.0
    ensures Frame(st.s, st2.s, st.counter + 1, (st.counter + 1) * 256, st.counter + 1, one.0) && Records(st2.s, one.1)
    ensures Laid(one.1, st.counter + 1, (st.counter + 1) * 256, st.counter + 1, one.0)
  {
    var st1 := NumState(st.s, st.counter + 1);
    NestedRegs(st1, s0, wmask, rescap, fuel, st2, one);
    InitBusNumbers(st1, s0, wmask, rescap, st1.counter, fuel);
    LayoutKeys(s0, st1.counter, st1.counter, fuel);
  }

  /** One extra root bus followed by the ones after it. */
  lemma RootsJoin(s0: Space, s: Space, t: Space, u: NumState, m1: map<int, BusNumbers>, m2: map<int, BusNumbers>, c: int, h1: nat, h2: nat)
    requires 1 <= c <= h1 <= h2
    requires Frame(s, t, c, c * 256, c, h1) && Records(t, m1) && Laid(m1, c, c * 256, c, h1)
    requires Follows(s0, t, u, 0, -1, h1, (h2, m2))
    ensures Follows(s0, s, u, 0, -1, c - 1, (h2, m1 + m2))
  {}

  /**
   * pci_bios_init_bus leaves every bridge of the host bus's tree, and of the
   * extra root buses' trees when there are any, with the numbers the layout
   * gives, the counter at the last number used.
   */
  lemma InitAllRegs(s: Space, wmask: Regs, rescap: map<int, bv8>, extraroots: u8, fuel: nat, rounds: nat)
    requires BusRegsWritable(s, wmask) && NoReserveCaps(rescap)
    requires LayoutAll(s, extraroots, fuel, rounds).0 <= 255
    ensures InitAll(s, wmask, rescap, extraroots, fuel, rounds).counter == LayoutAll(s, extraroots, fuel, rounds).0
    ensures Records(InitAll(s, wmask, rescap, extraroots, fuel, rounds).s, LayoutAll(s, extraroots, fuel, rounds).1)
  {
    var st0 := NumState(s, 0);
    var host := InitBus(st0, wmask, rescap, 0, fuel);
    var lay := Layout(s, 0, 0, fuel);
    InitBusRegs(st0, s, wmask, rescap, 0, fuel);
    if extraroots != 0 {
      InitBusNumbers(st0, s, wmask, rescap, 0, fuel);
      ExtraRootsRegs(host, s, wmask, rescap, fuel, rounds, ExtraRoots(host, wmask, rescap, fuel, rounds).0, LayoutRoots(s, lay.0, fuel, rounds));
      LayoutKeys(s, 0, 0, fuel);
      var more := LayoutRoots(s, lay.0, fuel, rounds);
      HostJoin(host.s, ExtraRoots(host, wmask, rescap, fuel, rounds).0.s, lay.1, more.1, lay.0, more.0);
    }
  }

  /** The host bus's tree followed by the extra roots. */
  lemma HostJoin(t: Space, u: Space, m1: map<int, BusNumbers>, m2: map<int, BusNumbers>, h1: int, h2: int)
    requires 0 <= h1
    requires Records(t, m1) && Laid(m1, 0, 0, 0, h1) && Frame(t, u, 0, -1, h1, h2) && Records(u, m2)
    ensures Records(u, m1 + m2)
  {}

  /**
   * The registers of every bridge foreachbdf visits on `bus` after
   * pci_bios_init_bus_rec: primary `bus`, and the secondary and subordinate
   * the layout gives it.
   */
  lemma InitBusBridges(s: Space, wmask: Regs, rescap: map<int, bv8>, bus: int, counter: u8, fuel: nat)
    requires 0 <= bus <= counter && BusRegsWritable(s, wmask) && NoReserveCaps(rescap)
    requires Layout(s, bus, counter, fuel).0 <= 255
    ensures var r := InitBus(NumState(s, counter), wmask, rescap, bus, fuel); var m := Layout(s, bus, counter, fuel).1;
      forall d: Bdf :: BdfToBus(d) == bus && Visited(s, d) && IsBridge(s, d) ==>
        d in m && RegsOf(r.s, d) == m[d] && RegsOf(r.s, d).primary == bus
  {
    var r := InitBus(NumState(s, counter), wmask, rescap, bus, fuel);
    var m := Layout(s, bus, counter, fuel).1;
    InitBusRegs(NumState(s, counter), s, wmask, rescap, bus, fuel);
    LayoutCovers(s, bus, counter, fuel);
    RecordsOnBus(s, r.s, m, bus);
  }

  lemma RecordsOnBus(s: Space, t: Space, m: map<int, BusNumbers>, bus: int)
    requires Records(t, m)
    requires forall d: Bdf :: BdfToBus(d) == bus ==> (d in m <==> Visited(s, d) && IsBridge(s, d))
    requires forall d :: d in m && BdfToBus(d) == bus ==> m[d].primary == bus
    ensures forall d: Bdf :: BdfToBus(d) == bus && Visited(s, d) && IsBridge(s, d) ==>
      d in m && RegsOf(t, d) == m[d] && RegsOf(t, d).primary == bus
  {}
}
