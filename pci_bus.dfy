/**
 * Bus numbering of src/fw/pciinit.c (pci_bios_init_bus_rec and
 * pci_bios_init_bus): a depth-first walk that gives every PCI-to-PCI
 * bridge its primary, secondary and subordinate bus numbers, driven by the
 * 8-bit counter *pci_bus.
 *
 * Configuration space is keyed by bdf, so the functions found on a bus do
 * not depend on the bridge registers written here; the walk re-enumerates
 * the live configuration space all the same, as the C loops do.
 *
 * The counter is a u8 and wraps, so the recursion need not end: the model
 * carries `fuel`, the number of bridge levels it follows. The result of
 * pci_find_resource_reserve_capability (which is not part of this model)
 * is an input, `rescap`: the offset of each bridge's reservation capability,
 * 0 when it has none.
 */
module PciBus {
  import opened Wrappers
  import opened Bits
  import opened PciConfig

  const PCI_CLASS_BRIDGE_PCI: bv16 := 0x0604
  /** Offset of the bus reservation in QEMU's resource reserve capability. */
  const RES_RESERVE_BUS_RES: int := 4

  /** Configuration space and the counter *pci_bus. */
  datatype NumState = NumState(s: Space, counter: u8)

  /**
   * pci_config_writeb as a function of configuration space: the byte the
   * access reaches is merged through its write mask (a one-byte Store).
   */
  function PutByte(s: Space, wmask: Regs, bdf: Bdf, ofs: Offset, v: bv8): Space {
    var k := Location(s.mmconfig, bdf, ofs, Byte);
    if k in s.regs then s.(regs := s.regs[k := Merge(s.regs[k], v, Mask(wmask, k))]) else s
  }

  lemma PutByteStore(s: Space, wmask: Regs, bdf: Bdf, ofs: Offset, v: bv8)
    ensures PutByte(s, wmask, bdf, ofs, v) == s.(regs := Store(s.regs, wmask, Location(s.mmconfig, bdf, ofs, Byte), 1, v as bv32))
  {
    StoreOneByte(s.regs, wmask, Location(s.mmconfig, bdf, ofs, Byte), v);
  }

  /** A one-byte Store merges the byte at its key, if that register exists, and nothing else. */
  lemma StoreOneByte(m: Regs, w: Regs, k: Key, v: bv8)
    ensures Store(m, w, k, 1, v as bv32) == if k in m then m[k := Merge(m[k], v, Mask(w, k))] else m
  {
    LowByte(v);
    var r := Store(m, w, k, 1, v as bv32);
    var u := if k in m then m[k := Merge(m[k], v, Mask(w, k))] else m;
    forall j | j in r
      ensures r[j] == u[j]
    {
      if j.0 == k.0 && k.1 <= j.1 < k.1 + 1 {
        assert j == k;
      }
    }
    assert r.Keys == u.Keys;
  }

  /** Widening a byte and taking its low byte gives it back. */
  lemma LowByte(v: bv8)
    ensures ByteOf(v as bv32, 0) == v
  {
  }

  predicate IsBridge(s: Space, bdf: Bdf) {
    ReadW(s, bdf, PCI_CLASS_DEVICE) == PCI_CLASS_BRIDGE_PCI
  }

  /** The reservation capability offset of a bridge (0: none). */
  function ReserveCap(rescap: map<int, bv8>, bdf: Bdf): bv8 {
    if bdf in rescap then rescap[bdf] else 0
  }

  /** The bus reservation a bridge asks for: none without a capability or when the dword reads all ones. */
  function Reservation(s: Space, rescap: map<int, bv8>, bdf: Bdf): (r: Option<u8>)
    ensures ReserveCap(rescap, bdf) == 0 ==> r.None?
  {
    var cap := ReserveCap(rescap, bdf);
    if cap == 0 then None
    else
      var tmp := ReadL(s, bdf, cap as int + RES_RESERVE_BUS_RES);
      if tmp == 0xffff_ffff then None else Some(tmp as int % 256)
  }

  /** The C test for a reservation that overflows the u8 bus number: the 8-bit sum wraps below an operand. */
  predicate Overflows(res: u8, secbus: u8) {
    (res + secbus) % 256 < secbus || (res + secbus) % 256 < res
  }

  /** The 8-bit test catches exactly the sums past 255. */
  lemma OverflowsCarry(res: u8, secbus: u8)
    ensures Overflows(res, secbus) ==> res + secbus > 255
    ensures res + secbus > 255 ==> Overflows(res, secbus)
  {}

  /**
   * The subordinate bus of a bridge whose subtree reached bus `reached`:
   * what the `subbus != *pci_bus` branch computes into res_bus. The
   * comparison is on the promoted ints, the store back into the u8 wraps.
   */
  function Subordinate(reached: u8, secbus: u8, res: Option<u8>): (r: u8)
    ensures res.None? ==> r == reached
  {
    match res
    case None => reached
    case Some(raw) =>
      var b := if Overflows(raw, secbus) then 0 else raw;
      if secbus + b > reached then (secbus + b) % 256 else b
  }

  /** A reservation that fits and reaches beyond the subtree sets the subordinate to secbus + reservation. */
  lemma SubordinateReserves(reached: u8, secbus: u8, raw: u8)
    requires raw + secbus <= 255 && secbus + raw > reached
    ensures Subordinate(reached, secbus, Some(raw)) == secbus + raw
  {
    OverflowsCarry(raw, secbus);
  }

  /** An overflowing reservation counts as 0: the subordinate is secbus if that is past the subtree, else 0. */
  lemma SubordinateOverflow(reached: u8, secbus: u8, raw: u8)
    requires raw + secbus > 255
    ensures Subordinate(reached, secbus, Some(raw)) == if secbus > reached then secbus else 0
  {
    OverflowsCarry(raw, secbus);
  }

  /**
   * The quirk of the C code: a reservation that fits but does not reach past
   * the subtree leaves res_bus as the raw reservation count, not as the
   * highest bus reached.
   */
  lemma SubordinateRawCount(reached: u8, secbus: u8, raw: u8)
    requires secbus + raw <= reached
    ensures Subordinate(reached, secbus, Some(raw)) == raw
  {
    OverflowsCarry(raw, secbus);
  }

  /** So the subordinate can fall below the buses the subtree was given: 1 while buses 2 and 3 sit behind the bridge. */
  lemma SubordinateBelowSubtree()
    ensures Subordinate(3, 1, Some(1)) == 1
  {
    SubordinateRawCount(3, 1, 1);
  }

  // ---------------------------------------------------------------------
  // The walk, as functions of configuration space
  // ---------------------------------------------------------------------

  /** A foreachbdf cursor on `bus`: -1 or a function of the bus. */
  predicate Cursor(bus: int, n: int) {
    n == -1 || bus * 256 <= n < bus * 256 + 256
  }

  function CursorMeasure(bus: int, n: int): nat
    requires Cursor(bus, n)
  {
    if n < 0 then 0 else bus * 256 + 256 - n
  }

  /** The first foreachbdf body: a bridge is closed off by secondary 255, subordinate 0. */
  function ClearOne(s: Space, wmask: Regs, bdf: Bdf): Space {
    if IsBridge(s, bdf) then
      PutByte(PutByte(s, wmask, bdf, PCI_SECONDARY_BUS, 255), wmask, bdf, PCI_SUBORDINATE_BUS, 0)
    else s
  }

  /** The first foreachbdf loop from function n on. */
  function ClearAt(s: Space, wmask: Regs, bus: int, n: int): Space
    requires 0 <= bus < 256 && Cursor(bus, n)
    decreases CursorMeasure(bus, n)
  {
    if n < 0 then s
    else
      var s' := ClearOne(s, wmask, n);
      ClearAt(s', wmask, bus, NextBdf(s', n, bus))
  }

  /** pci_bios_init_bus_rec(bus, &counter), following at most `fuel` bridge levels below `bus`. */
  function InitBus(st: NumState, wmask: Regs, rescap: map<int, bv8>, bus: int, fuel: nat): NumState
    requires 0 <= bus < 256
    decreases fuel, 2, 0
  {
    var s1 := ClearAt(st.s, wmask, bus, NextBdf(st.s, bus * 256 - 1, bus));
    WalkAt(NumState(s1, st.counter), wmask, rescap, bus, NextBdf(s1, bus * 256 - 1, bus), fuel)
  }

  /** The second foreachbdf loop from function n on. */
  function WalkAt(st: NumState, wmask: Regs, rescap: map<int, bv8>, bus: int, n: int, fuel: nat): NumState
    requires 0 <= bus < 256 && Cursor(bus, n)
    decreases fuel, 1, CursorMeasure(bus, n)
  {
    if n < 0 then st
    else
      var st' := BridgeStep(st, wmask, rescap, bus, n, fuel);
      WalkAt(st', wmask, rescap, bus, NextBdf(st'.s, n, bus), fuel)
  }

  /**
   * The second foreachbdf body for function bdf of `bus`. Bridges get the
   * current bus as primary, the next counter value as secondary and 255 as
   * subordinate while their subtree is numbered; then the subordinate takes
   * the counter the subtree left (or the reservation), and so does the
   * counter.
   */
  function BridgeStep(st: NumState, wmask: Regs, rescap: map<int, bv8>, bus: int, bdf: Bdf, fuel: nat): NumState
    requires 0 <= bus < 256
    decreases fuel, 0, 2
  {
    if !IsBridge(st.s, bdf) then st
    else Finish(st, Subtree(Open(st, wmask, bus, bdf), wmask, rescap, fuel), wmask, rescap, bus, bdf)
  }

  /** The recursive call for the bus behind a bridge (st.counter is its secondary), made while fuel lasts. */
  function Subtree(st: NumState, wmask: Regs, rescap: map<int, bv8>, fuel: nat): NumState
    decreases fuel, 0, 1
  {
    if fuel > 0 then InitBus(st, wmask, rescap, st.counter, fuel - 1) else st
  }

  /** The secondary bus a bridge found with the counter at st.counter receives. */
  function Secondary(st: NumState): u8 {
    (st.counter + 1) % 256
  }

  /**
   * A bridge opened for numbering its subtree: primary and secondary set,
   * subordinate 255, the counter at the secondary. No id register changes.
   */
  function Open(st: NumState, wmask: Regs, bus: int, bdf: Bdf): (r: NumState)
    requires 0 <= bus < 256
    ensures r.counter == Secondary(st)
    ensures SameIds(st.s, r.s)
  {
    var s2 := Renumber(st.s, wmask, bus, bdf, Secondary(st));
    RenumberIds(st.s, wmask, bus, bdf, Secondary(st));
    PutByteIds(s2, wmask, bdf, PCI_SUBORDINATE_BUS, 255);
    SameIdsTrans(st.s, s2, PutByte(s2, wmask, bdf, PCI_SUBORDINATE_BUS, 255));
    NumState(PutByte(s2, wmask, bdf, PCI_SUBORDINATE_BUS, 255), Secondary(st))
  }

  /**
   * The bridge closed after its subtree, numbered into st4: the subordinate
   * (as Close decides) is written and becomes the counter. Without a
   * reservation capability the counter is the one the subtree left.
   */
  function Finish(st: NumState, st4: NumState, wmask: Regs, rescap: map<int, bv8>, bus: int, bdf: Bdf): (r: NumState)
    requires 0 <= bus < 256
    ensures SameIds(st4.s, r.s)
    ensures ReserveCap(rescap, bdf) == 0 ==> r.counter == st4.counter
  {
    var subbus := ReadB(Renumber(st.s, wmask, bus, bdf, Secondary(st)), bdf, PCI_SUBORDINATE_BUS) as int;
    var sub := Close(st4, rescap, bdf, subbus, Secondary(st));
    PutByteIds(st4.s, wmask, bdf, PCI_SUBORDINATE_BUS, sub as bv8);
    NumState(PutByte(st4.s, wmask, bdf, PCI_SUBORDINATE_BUS, sub as bv8), sub)
  }

  /** The primary bus register forced to `bus` and the secondary to `secbus`, each written only when it differs. */
  function Renumber(s: Space, wmask: Regs, bus: int, bdf: Bdf, secbus: u8): Space
    requires 0 <= bus < 256
  {
    var s1 := if ReadB(s, bdf, PCI_PRIMARY_BUS) as int != bus
              then PutByte(s, wmask, bdf, PCI_PRIMARY_BUS, bus as bv8) else s;
    if ReadB(s1, bdf, PCI_SECONDARY_BUS) as int != secbus then PutByte(s1, wmask, bdf, PCI_SECONDARY_BUS, secbus as bv8) else s1
  }

  /**
   * The subordinate bus once the subtree is numbered: the old value when the
   * counter already equals it (the C code then leaves both alone), else
   * res_bus.
   */
  function Close(st: NumState, rescap: map<int, bv8>, bdf: Bdf, subbus: u8, secbus: u8): (sub: u8)
    ensures ReserveCap(rescap, bdf) == 0 ==> sub == st.counter
  {
    if subbus != st.counter then Subordinate(st.counter, secbus, Reservation(st.s, rescap, bdf)) else subbus
  }

  /** The extra-roots loop of pci_bios_init_bus, for at most `rounds` turns; the second component is the turns left. */
  function ExtraRoots(st: NumState, wmask: Regs, rescap: map<int, bv8>, fuel: nat, rounds: nat): (r: (NumState, nat))
    ensures r.1 <= rounds
    ensures r.1 > 0 ==> r.0.counter == 0xff
    decreases rounds
  {
    if rounds == 0 || st.counter == 0xff then (st, rounds)
    else
      var c := st.counter + 1;
      ExtraRoots(InitBus(NumState(st.s, c), wmask, rescap, c, fuel), wmask, rescap, fuel, rounds - 1)
  }

  lemma ExtraRootsStep(st: NumState, wmask: Regs, rescap: map<int, bv8>, fuel: nat, rounds: nat, k: nat)
    requires rounds == k + 1 && st.counter < 0xff
    ensures ExtraRoots(st, wmask, rescap, fuel, rounds)
         == ExtraRoots(InitBus(NumState(st.s, st.counter + 1), wmask, rescap, st.counter + 1, fuel), wmask, rescap, fuel, k)
  {}

  /** pci_bios_init_bus: number from the host bus with the counter at 0, then each extra root bus. */
  function InitAll(s: Space, wmask: Regs, rescap: map<int, bv8>, extraroots: u8, fuel: nat, rounds: nat): NumState {
    var st := InitBus(NumState(s, 0), wmask, rescap, 0, fuel);
    if extraroots == 0 then st else ExtraRoots(st, wmask, rescap, fuel, rounds).0
  }

  // ---------------------------------------------------------------------
  // What the first loop writes
  // ---------------------------------------------------------------------

  /** After the first loop's body a bridge reads secondary 255 and subordinate 0 in every writable bit. */
  lemma ClearOneRegs(s: Space, wmask: Regs, bdf: Bdf)
    requires IsBridge(s, bdf)
    ensures var k := Location(s.mmconfig, bdf, PCI_SECONDARY_BUS, Byte);
      ReadB(ClearOne(s, wmask, bdf), bdf, PCI_SECONDARY_BUS) == Merge(Get(s.regs, k), 255, EffMask(s.regs, wmask, k))
    ensures var k := Location(s.mmconfig, bdf, PCI_SUBORDINATE_BUS, Byte);
      ReadB(ClearOne(s, wmask, bdf), bdf, PCI_SUBORDINATE_BUS) == Merge(Get(s.regs, k), 0, EffMask(s.regs, wmask, k))
  {
    var k1 := Location(s.mmconfig, bdf, PCI_SECONDARY_BUS, Byte);
    var k2 := Location(s.mmconfig, bdf, PCI_SUBORDINATE_BUS, Byte);
    LocationOffset(s.mmconfig, bdf, PCI_SECONDARY_BUS, Byte);
    LocationOffset(s.mmconfig, bdf, PCI_SUBORDINATE_BUS, Byte);
    var s1 := PutByte(s, wmask, bdf, PCI_SECONDARY_BUS, 255);
    PutByteRead(s, wmask, bdf, PCI_SECONDARY_BUS, 255);
    PutByteRead(s1, wmask, bdf, PCI_SUBORDINATE_BUS, 0);
    assert Get(s1.regs, k2) == Get(s.regs, k2);
    assert EffMask(s1.regs, wmask, k2) == EffMask(s.regs, wmask, k2);
  }

  /** The byte a write reaches reads back merged through its effective mask. */
  lemma PutByteRead(s: Space, wmask: Regs, bdf: Bdf, ofs: Offset, v: bv8)
    ensures var k := Location(s.mmconfig, bdf, ofs, Byte);
      Get(PutByte(s, wmask, bdf, ofs, v).regs, k) == Merge(Get(s.regs, k), v, EffMask(s.regs, wmask, k))
  {
    var k := Location(s.mmconfig, bdf, ofs, Byte);
    if k !in s.regs {
      assert Merge(0xff, v, 0) == 0xff;
    }
  }

  // ---------------------------------------------------------------------
  // The walk leaves the functions found on each bus alone
  // ---------------------------------------------------------------------

  /** What enumeration and the bridge test read of each function: vendor id, class and header type. */
  function Ids(s: Space): map<int, (bv16, bv16, bv8)> {
    map bdf: int | 0 <= bdf < 0x1_0000 :: (ReadW(s, bdf, PCI_VENDOR_ID), ReadW(s, bdf, PCI_CLASS_DEVICE), ReadB(s, bdf, PCI_HEADER_TYPE))
  }

  /** Two configuration spaces that agree on those registers. */
  predicate SameIds(s: Space, t: Space) {
    Ids(s) == Ids(t)
  }

  lemma SameIdsAt(s: Space, t: Space, bdf: Bdf)
    requires SameIds(s, t)
    ensures ReadW(s, bdf, PCI_VENDOR_ID) == ReadW(t, bdf, PCI_VENDOR_ID)
    ensures ReadW(s, bdf, PCI_CLASS_DEVICE) == ReadW(t, bdf, PCI_CLASS_DEVICE)
    ensures ReadB(s, bdf, PCI_HEADER_TYPE) == ReadB(t, bdf, PCI_HEADER_TYPE)
  {
    assert Ids(s)[bdf] == Ids(t)[bdf];
  }

  /** A byte written at or above 0x10 (the bus number registers) changes none of the id registers. */
  lemma PutByteIds(s: Space, wmask: Regs, bdf: Bdf, ofs: Offset, v: bv8)
    requires 0x10 <= ofs < 0x100
    ensures SameIds(s, PutByte(s, wmask, bdf, ofs, v))
  {
    var t := PutByte(s, wmask, bdf, ofs, v);
    LocationOffset(s.mmconfig, bdf, ofs, Byte);
    LowAgree(s, t);
  }

  /** Spaces that agree on every byte below offset 0x10 agree on the id registers. */
  lemma LowAgree(s: Space, t: Space)
    requires s.mmconfig == t.mmconfig
    requires forall k: Key :: 0 <= k.1 < 0x10 ==> Get(s.regs, k) == Get(t.regs, k)
    ensures SameIds(s, t)
  {
    forall x: Bdf
      ensures Ids(s)[x] == Ids(t)[x]
    {
      LocationOffset(s.mmconfig, x, PCI_VENDOR_ID, Word);
      LocationOffset(s.mmconfig, x, PCI_CLASS_DEVICE, Word);
      LocationOffset(s.mmconfig, x, PCI_HEADER_TYPE, Byte);
    }
  }

  lemma SameIdsTrans(s: Space, t: Space, u: Space)
    requires SameIds(s, t) && SameIds(t, u)
    ensures SameIds(s, u)
  {}

  lemma {:induction false} ScanSame(s: Space, t: Space, c: int, bus: int)
    requires SameIds(s, t)
    requires 0 <= bus < 256 && bus * 256 <= c <= bus * 256 + 263
    ensures Scan(s, c, bus) == Scan(t, c, bus)
    decreases bus * 256 + 264 - c
  {
    BusWindow(c, bus);
    if BdfToBus(c) == bus {
      SameIdsAt(s, t, c);
    }
    if BdfToBus(c) == bus && !Present(s, c) {
      ScanSame(s, t, if BdfToFn(c) == 0 then c + 8 else c + 1, bus);
    }
  }

  /** pci_next only reads what SameIds compares. */
  lemma NextSame(s: Space, t: Space, bdf: int, bus: int)
    requires SameIds(s, t)
    requires 0 <= bus < 256 && bus * 256 - 1 <= bdf < bus * 256 + 256
    ensures NextBdf(s, bdf, bus) == NextBdf(t, bdf, bus)
  {
    if bdf >= 0 {
      SameIdsAt(s, t, bdf);
    }
    if BdfToFn(bdf) == 0 && !MultiFunction(s, bdf) {
      ScanSame(s, t, bdf + 8, bus);
    } else {
      ScanSame(s, t, bdf + 1, bus);
    }
  }

  lemma ClearOneIds(s: Space, wmask: Regs, bdf: Bdf)
    ensures SameIds(s, ClearOne(s, wmask, bdf))
  {
    if IsBridge(s, bdf) {
      var s1 := PutByte(s, wmask, bdf, PCI_SECONDARY_BUS, 255);
      PutByteIds(s, wmask, bdf, PCI_SECONDARY_BUS, 255);
      PutByteIds(s1, wmask, bdf, PCI_SUBORDINATE_BUS, 0);
    }
  }

  lemma {:induction false} ClearAtIds(s: Space, wmask: Regs, bus: int, n: int)
    requires 0 <= bus < 256 && Cursor(bus, n)
    ensures SameIds(s, ClearAt(s, wmask, bus, n))
    decreases CursorMeasure(bus, n)
  {
    if n >= 0 {
      var s' := ClearOne(s, wmask, n);
      ClearOneIds(s, wmask, n);
      ClearAtIds(s', wmask, bus, NextBdf(s', n, bus));
    }
  }

  // ---------------------------------------------------------------------
  // Depth-first numbering without reservations
  // ---------------------------------------------------------------------

  /** No bridge carries a bus reservation capability. */
  predicate NoReserveCaps(rescap: map<int, bv8>) {
    forall b :: b in rescap ==> rescap[b] == 0
  }

  /**
   * The counter after numbering `bus` as a plain depth-first count over a
   * fixed configuration space s: each bridge found in bdf order takes the
   * next bus number and its subtree is numbered from there.
   */
  function Numbering(s: Space, bus: int, c: u8, fuel: nat): u8
    requires 0 <= bus < 256
    decreases fuel, 2, 0
  {
    NumberFrom(s, bus, NextBdf(s, bus * 256 - 1, bus), c, fuel)
  }

  function NumberFrom(s: Space, bus: int, n: int, c: u8, fuel: nat): u8
    requires 0 <= bus < 256 && Cursor(bus, n)
    decreases fuel, 1, CursorMeasure(bus, n)
  {
    if n < 0 then c else NumberFrom(s, bus, NextBdf(s, n, bus), NumberOne(s, n, c, fuel), fuel)
  }

  function NumberOne(s: Space, bdf: Bdf, c: u8, fuel: nat): u8
    decreases fuel, 0, 0
  {
    if !IsBridge(s, bdf) then c
    else if fuel == 0 then (c + 1) % 256
    else Numbering(s, (c + 1) % 256, (c + 1) % 256, fuel - 1)
  }

  lemma NumberOneBridge(s: Space, bdf: Bdf, c: u8, fuel: nat)
    requires IsBridge(s, bdf)
    ensures NumberOne(s, bdf, c, fuel) == if fuel == 0 then (c + 1) % 256 else Numbering(s, (c + 1) % 256, (c + 1) % 256, fuel - 1)
  {}

  /**
   * Without reservation capabilities pci_bios_init_bus_rec leaves the
   * counter at the depth-first count of the bridges below `bus` (secondary
   * numbers are handed out consecutively in that order), and it changes
   * none of the registers enumeration reads.
   */
  lemma {:induction false} InitBusNumbers(st: NumState, s0: Space, wmask: Regs, rescap: map<int, bv8>, bus: int, fuel: nat)
    requires 0 <= bus < 256 && SameIds(s0, st.s)
    ensures SameIds(s0, InitBus(st, wmask, rescap, bus, fuel).s)
    ensures NoReserveCaps(rescap) ==> InitBus(st, wmask, rescap, bus, fuel).counter == Numbering(s0, bus, st.counter, fuel)
    decreases fuel, 2, 0
  {
    var n0 := NextBdf(st.s, bus * 256 - 1, bus);
    var s1 := ClearAt(st.s, wmask, bus, n0);
    ClearAtIds(st.s, wmask, bus, n0);
    NextSame(s0, s1, bus * 256 - 1, bus);
    WalkNumbers(NumState(s1, st.counter), s0, wmask, rescap, bus, NextBdf(s1, bus * 256 - 1, bus), fuel);
  }

  lemma {:induction false} WalkNumbers(st: NumState, s0: Space, wmask: Regs, rescap: map<int, bv8>, bus: int, n: int, fuel: nat)
    requires 0 <= bus < 256 && Cursor(bus, n) && SameIds(s0, st.s)
    ensures SameIds(s0, WalkAt(st, wmask, rescap, bus, n, fuel).s)
    ensures NoReserveCaps(rescap) ==> WalkAt(st, wmask, rescap, bus, n, fuel).counter == NumberFrom(s0, bus, n, st.counter, fuel)
    decreases fuel, 1, CursorMeasure(bus, n)
  {
    if n >= 0 {
      var st' := BridgeStep(st, wmask, rescap, bus, n, fuel);
      StepNumbers(st, s0, wmask, rescap, bus, n, fuel, st');
      NextSame(s0, st'.s, n, bus);
      WalkNumbers(st', s0, wmask, rescap, bus, NextBdf(st'.s, n, bus), fuel);
    }
  }

  lemma RenumberIds(s: Space, wmask: Regs, bus: int, bdf: Bdf, secbus: u8)
    requires 0 <= bus < 256
    ensures SameIds(s, Renumber(s, wmask, bus, bdf, secbus))
  {
    var s1 := if ReadB(s, bdf, PCI_PRIMARY_BUS) as int != bus
              then PutByte(s, wmask, bdf, PCI_PRIMARY_BUS, bus as bv8) else s;
    PutByteIds(s, wmask, bdf, PCI_PRIMARY_BUS, bus as bv8);
    PutByteIds(s1, wmask, bdf, PCI_SECONDARY_BUS, secbus as bv8);
  }

  /** The subtree behind a bridge, numbered from st.counter or skipped when no fuel is left. */
  lemma {:induction false} SubtreeNumbers(st: NumState, s0: Space, wmask: Regs, rescap: map<int, bv8>, fuel: nat, r: NumState)
    requires 0 <= st.counter < 256 && SameIds(s0, st.s)
    requires r == Subtree(st, wmask, rescap, fuel)
    ensures SameIds(s0, r.s)
    ensures NoReserveCaps(rescap) ==> r.counter == if fuel == 0 then st.counter else Numbering(s0, st.counter, st.counter, fuel - 1)
    decreases fuel, 0, 1
  {
    if fuel > 0 {
      InitBusNumbers(st, s0, wmask, rescap, st.counter, fuel - 1);
    }
  }

  lemma {:induction false} StepNumbers(st: NumState, s0: Space, wmask: Regs, rescap: map<int, bv8>, bus: int, bdf: Bdf, fuel: nat, r: NumState)
    requires 0 <= bus < 256 && SameIds(s0, st.s)
    requires r == BridgeStep(st, wmask, rescap, bus, bdf, fuel)
    ensures SameIds(s0, r.s)
    ensures NoReserveCaps(rescap) ==> r.counter == NumberOne(s0, bdf, st.counter, fuel)
    decreases fuel, 0, 2
  {
    SameIdsAt(s0, st.s, bdf);
    if IsBridge(st.s, bdf) {
      var st3 := Open(st, wmask, bus, bdf);
      SameIdsTrans(s0, st.s, st3.s);
      var st4 := Subtree(st3, wmask, rescap, fuel);
      SubtreeNumbers(st3, s0, wmask, rescap, fuel, st4);
      CloseNumbers(st, st4, s0, wmask, rescap, bus, bdf, fuel, r);
    }
  }

  /** The close of a bridge whose subtree was numbered as Numbering says. */
  lemma CloseNumbers(st: NumState, st4: NumState, s0: Space, wmask: Regs, rescap: map<int, bv8>, bus: int, bdf: Bdf, fuel: nat, r: NumState)
    requires 0 <= bus < 256 && IsBridge(s0, bdf) && SameIds(s0, st4.s)
    requires NoReserveCaps(rescap) ==> st4.counter == if fuel == 0 then Secondary(st) else Numbering(s0, Secondary(st), Secondary(st), fuel - 1)
    requires r == Finish(st, st4, wmask, rescap, bus, bdf)
    ensures SameIds(s0, r.s)
    ensures NoReserveCaps(rescap) ==> r.counter == NumberOne(s0, bdf, st.counter, fuel)
  {
    SameIdsTrans(s0, st4.s, r.s);
    if NoReserveCaps(rescap) {
      assert ReserveCap(rescap, bdf) == 0;
      NumberOneBridge(s0, bdf, st.counter, fuel);
    }
  }

  // ---------------------------------------------------------------------
  // The C functions on the configuration-space object
  // ---------------------------------------------------------------------

  method WriteByte(cfg: ConfigSpace, bdf: Bdf, ofs: Offset, v: bv8)
    modifies cfg
    ensures cfg.State() == PutByte(old(cfg.State()), cfg.wmask, bdf, ofs, v)
  {
    PutByteStore(cfg.State(), cfg.wmask, bdf, ofs, v);
    cfg.WriteB(bdf, ofs, v);
  }

  /** The first foreachbdf body. */
  method ClearBridge(cfg: ConfigSpace, bdf: Bdf)
    modifies cfg
    ensures cfg.State() == ClearOne(old(cfg.State()), cfg.wmask, bdf)
  {
    var cls := ReadW(cfg.State(), bdf, PCI_CLASS_DEVICE);
    if cls == PCI_CLASS_BRIDGE_PCI {
      WriteByte(cfg, bdf, PCI_SECONDARY_BUS, 255);
      WriteByte(cfg, bdf, PCI_SUBORDINATE_BUS, 0);
    }
  }

  /** The first foreachbdf loop of pci_bios_init_bus_rec. */
  method ClearBus(cfg: ConfigSpace, bus: int)
    requires 0 <= bus < 256
    modifies cfg
    ensures cfg.State() == ClearAt(old(cfg.State()), cfg.wmask, bus, NextBdf(old(cfg.State()), bus * 256 - 1, bus))
  {
    ghost var s0 := cfg.State();
    var bdf := cfg.Next(bus * 256 - 1, bus);
    while bdf >= 0
      invariant Cursor(bus, bdf)
      invariant ClearAt(cfg.State(), cfg.wmask, bus, bdf) == ClearAt(s0, cfg.wmask, bus, NextBdf(s0, bus * 256 - 1, bus))
      decreases CursorMeasure(bus, bdf)
    {
      ClearBridge(cfg, bdf);
      bdf := cfg.Next(bdf, bus);
    }
  }

  /** pci_bios_init_bus_rec */
  method InitBusRec(cfg: ConfigSpace, rescap: map<int, bv8>, bus: int, counter: u8, fuel: nat) returns (c: u8)
    requires 0 <= bus < 256
    modifies cfg
    ensures NumState(cfg.State(), c) == InitBus(NumState(old(cfg.State()), counter), cfg.wmask, rescap, bus, fuel)
    decreases fuel, 2
  {
    ClearBus(cfg, bus);
    c := WalkBus(cfg, rescap, bus, counter, fuel);
  }

  /** The second foreachbdf loop of pci_bios_init_bus_rec. */
  method WalkBus(cfg: ConfigSpace, rescap: map<int, bv8>, bus: int, counter: u8, fuel: nat) returns (c: u8)
    requires 0 <= bus < 256
    modifies cfg
    ensures NumState(cfg.State(), c)
         == WalkAt(NumState(old(cfg.State()), counter), cfg.wmask, rescap, bus, NextBdf(old(cfg.State()), bus * 256 - 1, bus), fuel)
    decreases fuel, 1
  {
    ghost var s1 := cfg.State();
    c := counter;
    var bdf := cfg.Next(bus * 256 - 1, bus);
    while bdf >= 0
      invariant Cursor(bus, bdf)
      invariant WalkAt(NumState(cfg.State(), c), cfg.wmask, rescap, bus, bdf, fuel)
             == WalkAt(NumState(s1, counter), cfg.wmask, rescap, bus, NextBdf(s1, bus * 256 - 1, bus), fuel)
      decreases CursorMeasure(bus, bdf)
    {
      c := NumberBridge(cfg, rescap, bus, bdf, c, fuel);
      bdf := cfg.Next(bdf, bus);
    }
  }

  /** The second foreachbdf body of pci_bios_init_bus_rec. */
  method NumberBridge(cfg: ConfigSpace, rescap: map<int, bv8>, bus: int, bdf: Bdf, counter: u8, fuel: nat) returns (c: u8)
    requires 0 <= bus < 256
    modifies cfg
    ensures NumState(cfg.State(), c) == BridgeStep(NumState(old(cfg.State()), counter), cfg.wmask, rescap, bus, bdf, fuel)
    decreases fuel, 0
  {
    ghost var st := NumState(cfg.State(), counter);
    var cls := ReadW(cfg.State(), bdf, PCI_CLASS_DEVICE);
    if cls != PCI_CLASS_BRIDGE_PCI {
      return counter;
    }
    var secbus := (counter + 1) % 256;
    var subbus := OpenBridge(cfg, bus, bdf, counter);
    ghost var st3 := NumState(cfg.State(), secbus);
    c := secbus;
    if fuel > 0 {
      c := InitBusRec(cfg, rescap, secbus, c, fuel - 1);
    }
    ghost var st4 := NumState(cfg.State(), c);
    assert st4 == Subtree(st3, cfg.wmask, rescap, fuel);
    c := CloseBridge(cfg, rescap, bdf, subbus, secbus, c);
    assert NumState(cfg.State(), c) == Finish(st, st4, cfg.wmask, rescap, bus, bdf);
  }

  /** The second foreachbdf body of a bridge up to the recursive call; the subordinate register as read before the 255 is written. */
  method OpenBridge(cfg: ConfigSpace, bus: int, bdf: Bdf, counter: u8) returns (subbus: u8)
    requires 0 <= bus < 256
    modifies cfg
    ensures NumState(cfg.State(), (counter + 1) % 256) == Open(NumState(old(cfg.State()), counter), cfg.wmask, bus, bdf)
    ensures subbus == ReadB(Renumber(old(cfg.State()), cfg.wmask, bus, bdf, (counter + 1) % 256), bdf, PCI_SUBORDINATE_BUS) as int
  {
    SetBusNumbers(cfg, bus, bdf, (counter + 1) % 256);
    subbus := ReadB(cfg.State(), bdf, PCI_SUBORDINATE_BUS) as int;
    WriteByte(cfg, bdf, PCI_SUBORDINATE_BUS, 255);
  }

  /** The second foreachbdf body of a bridge after the recursive call left the counter at `counter`. */
  method CloseBridge(cfg: ConfigSpace, rescap: map<int, bv8>, bdf: Bdf, subbus: u8, secbus: u8, counter: u8) returns (c: u8)
    modifies cfg
    ensures c == Close(NumState(old(cfg.State()), counter), rescap, bdf, subbus, secbus)
    ensures cfg.State() == PutByte(old(cfg.State()), cfg.wmask, bdf, PCI_SUBORDINATE_BUS, c as bv8)
  {
    c := subbus;
    if subbus != counter {
      c := ResBus(cfg, rescap, bdf, secbus, counter);
    }
    WriteByte(cfg, bdf, PCI_SUBORDINATE_BUS, c as bv8);
  }

  /** The primary and secondary bus updates of the second foreachbdf body. */
  method SetBusNumbers(cfg: ConfigSpace, bus: int, bdf: Bdf, secbus: u8)
    requires 0 <= bus < 256
    modifies cfg
    ensures cfg.State() == Renumber(old(cfg.State()), cfg.wmask, bus, bdf, secbus)
  {
    var pribus := ReadB(cfg.State(), bdf, PCI_PRIMARY_BUS);
    if pribus as int != bus {
      WriteByte(cfg, bdf, PCI_PRIMARY_BUS, bus as bv8);
    }
    var sec := ReadB(cfg.State(), bdf, PCI_SECONDARY_BUS);
    if secbus != sec as int {
      WriteByte(cfg, bdf, PCI_SECONDARY_BUS, secbus as bv8);
    }
  }

  /** res_bus: the counter, or what the bridge's bus reservation makes of it. */
  method ResBus(cfg: ConfigSpace, rescap: map<int, bv8>, bdf: Bdf, secbus: u8, counter: u8) returns (resBus: u8)
    ensures resBus == Subordinate(counter, secbus, Reservation(cfg.State(), rescap, bdf))
  {
    resBus := counter;
    var cap := ReserveCap(rescap, bdf);
    if cap != 0 {
      var tmp := ReadL(cfg.State(), bdf, cap as int + RES_RESERVE_BUS_RES);
      if tmp != 0xffff_ffff {
        resBus := tmp as int % 256;
        if (resBus + secbus) % 256 < secbus || (resBus + secbus) % 256 < resBus {
          resBus := 0;
        }
        if secbus + resBus > counter {
          resBus := (secbus + resBus) % 256;
        }
      }
    }
  }

  /** pci_bios_init_bus, with the extra-pci-roots setting as a parameter and at most `rounds` extra roots. */
  method InitBusAll(cfg: ConfigSpace, rescap: map<int, bv8>, extraroots: u8, fuel: nat, rounds: nat) returns (pciBus: u8)
    modifies cfg
    ensures NumState(cfg.State(), pciBus) == InitAll(old(cfg.State()), cfg.wmask, rescap, extraroots, fuel, rounds)
  {
    pciBus := InitBusRec(cfg, rescap, 0, 0, fuel);
    if extraroots != 0 {
      pciBus := ExtraRootsLoop(cfg, rescap, pciBus, fuel, rounds);
    }
  }

  /** The extra-roots loop of pci_bios_init_bus, from the counter the host bus left. */
  method ExtraRootsLoop(cfg: ConfigSpace, rescap: map<int, bv8>, counter: u8, fuel: nat, rounds: nat) returns (pciBus: u8)
    modifies cfg
    ensures NumState(cfg.State(), pciBus) == ExtraRoots(NumState(old(cfg.State()), counter), cfg.wmask, rescap, fuel, rounds).0
  {
    ghost var target := ExtraRoots(NumState(cfg.State(), counter), cfg.wmask, rescap, fuel, rounds);
    pciBus := counter;
    var left := rounds;
    while pciBus < 0xff && left > 0
      invariant ExtraRoots(NumState(cfg.State(), pciBus), cfg.wmask, rescap, fuel, left) == target
      decreases left
    {
      ghost var before := NumState(cfg.State(), pciBus);
      ExtraRootsStep(before, cfg.wmask, rescap, fuel, left, left - 1);
      pciBus := pciBus + 1;
      pciBus := InitBusRec(cfg, rescap, pciBus, pciBus, fuel);
      left := left - 1;
    }
  }
}
