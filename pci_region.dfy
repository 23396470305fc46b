/**
 * The resource ledger of src/fw/pciinit.c: for each bus and region type a
 * list of requests (struct pci_region_entry) kept sorted by falling
 * alignment and then falling size, with its sum (a u64 that wraps), its
 * alignment (the head's) and the move of 64-bit requests to the high window.
 *
 * The hlist of a region becomes a sequence in list order.
 */
module PciRegion {
  import opened Bits
  import opened PciDevice

  /** enum pci_region_type */
  datatype RegionType = Io | Mem | PrefMem

  const PCI_CLASS_SERIAL_USB: bv16 := 0x0c03

  /**
   * struct pci_region_entry: the device, its BAR index (-1 for a bridge
   * window), the size and alignment, whether the BAR or window is 64-bit,
   * and the region type.
   */
  datatype Entry = Entry(dev: Device, bar: int, size: u64, align: u64, is64: bool, rtype: RegionType)

  /** struct pci_region: the next free address, and the requests. */
  datatype Region = Region(base: u64, list: seq<Entry>)

  // ---------------------------------------------------------------------
  // Sorted insertion (pci_region_create_entry)
  // ---------------------------------------------------------------------

  /** The insertion loop's break test: `pos` ranks below `e` (smaller align, or equal align and smaller size). */
  predicate RanksBelow(pos: Entry, e: Entry) {
    pos.align < e.align || (pos.align == e.align && pos.size < e.size)
  }

  /** No entry ranks below a later one: falling align, then falling size. */
  predicate Sorted(l: seq<Entry>) {
    forall i, j :: 0 <= i < j < |l| ==> !RanksBelow(l[i], l[j])
  }

  /** Where pci_region_create_entry links e in, scanning from i: the first entry ranking below e. */
  function InsertPos(l: seq<Entry>, e: Entry, i: nat): (k: nat)
    requires i <= |l|
    ensures i <= k <= |l|
    ensures k < |l| ==> RanksBelow(l[k], e)
    ensures forall j :: i <= j < k ==> !RanksBelow(l[j], e)
    decreases |l| - i
  {
    if i == |l| || RanksBelow(l[i], e) then i else InsertPos(l, e, i + 1)
  }

  /** The list after pci_region_create_entry(e). */
  function Insert(l: seq<Entry>, e: Entry): seq<Entry> {
    var k := InsertPos(l, e, 0);
    l[..k] + [e] + l[k..]
  }

  /** Ranking is a total preorder on (align, size). */
  lemma RanksTransitive(a: Entry, b: Entry, c: Entry)
    ensures !RanksBelow(a, b) && !RanksBelow(b, c) ==> !RanksBelow(a, c)
    ensures RanksBelow(a, b) ==> !RanksBelow(b, a)
  {}

  /**
   * Inserting into a sorted list keeps it sorted; the new entry lands after
   * every entry that does not rank below it (so after those with the same
   * align and size) and before every entry that does.
   */
  lemma InsertSorted(l: seq<Entry>, e: Entry)
    requires Sorted(l)
    ensures Sorted(Insert(l, e))
    ensures var k := InsertPos(l, e, 0);
      Insert(l, e)[k] == e &&
      (forall j :: 0 <= j < k ==> !RanksBelow(l[j], e)) &&
      (forall j :: k <= j < |l| ==> RanksBelow(l[j], e))
  {
    var k := InsertPos(l, e, 0);
    var r := Insert(l, e);
    assert |r| == |l| + 1;
    forall j | k <= j < |l|
      ensures RanksBelow(l[j], e)
    {
      RanksTransitive(e, l[k], l[j]);
    }
    forall i, j | 0 <= i < j < |r|
      ensures !RanksBelow(r[i], r[j])
    {
      if j < k {
        assert r[i] == l[i] && r[j] == l[j];
      } else if j == k {
        assert r[i] == l[i] && r[j] == e;
      } else if i < k {
        assert r[i] == l[i] && r[j] == l[j - 1];
      } else if i == k {
        assert r[i] == e && r[j] == l[j - 1];
        RanksTransitive(l[j - 1], e, l[j - 1]);
      } else {
        assert r[i] == l[i - 1] && r[j] == l[j - 1];
      }
    }
  }

  /** Insertion adds exactly the new entry. */
  lemma InsertContents(l: seq<Entry>, e: Entry)
    ensures multiset(Insert(l, e)) == multiset(l) + multiset{e}
    ensures |Insert(l, e)| == |l| + 1
  {
    var k := InsertPos(l, e, 0);
    assert l == l[..k] + l[k..];
  }

  // ---------------------------------------------------------------------
  // pci_region_align, pci_region_sum
  // ---------------------------------------------------------------------

  /** pci_region_align: the head's align, 1 for an empty list. */
  function Align(l: seq<Entry>): u64 {
    if |l| == 0 then 1 else l[0].align
  }

  /** On a sorted list the head's align is the largest, and belongs to an entry. */
  lemma AlignIsMax(l: seq<Entry>)
    requires Sorted(l)
    ensures forall e :: e in l ==> e.align <= Align(l)
    ensures |l| > 0 ==> exists e :: e in l && e.align == Align(l)
    ensures |l| == 0 ==> Align(l) == 1
  {
    if |l| > 0 {
      assert l[0] in l;
    }
    forall e | e in l
      ensures e.align <= Align(l)
    {
      var j :| 0 <= j < |l| && l[j] == e;
      if j > 0 {
        assert !RanksBelow(l[0], l[j]);
      }
    }
  }

  /** The sizes added up exactly. */
  function SumSizes(l: seq<Entry>): (s: nat)
    ensures |l| > 0 ==> s >= l[0].size
  {
    if |l| == 0 then 0 else l[0].size + SumSizes(l[1..])
  }

  lemma {:induction false} SumSizesAppend(a: seq<Entry>, b: seq<Entry>)
    ensures SumSizes(a + b) == SumSizes(a) + SumSizes(b)
    decreases |a|
  {
    if |a| == 0 {
      assert a + b == b;
    } else {
      assert (a + b)[1..] == a[1..] + b;
      SumSizesAppend(a[1..], b);
    }
  }

  /** Every size counts towards the sum. */
  lemma {:induction false} SumSizesBound(l: seq<Entry>, i: nat)
    requires i < |l|
    ensures l[i].size <= SumSizes(l)
    decreases i
  {
    if i > 0 {
      SumSizesBound(l[1..], i - 1);
    }
  }

  /** pci_region_sum: the u64 sum, modulo 2^64. */
  function RegionSum(l: seq<Entry>): (s: u64)
    ensures SumSizes(l) < U64 ==> s == SumSizes(l)
  {
    SumSizes(l) % U64
  }

  /**
   * The loop of pci_region_sum: u64 additions in list order wrap the same
   * way as the exact sum reduced once.
   */
  method Sum(l: seq<Entry>) returns (sum: u64)
    ensures sum == RegionSum(l)
  {
    sum := 0;
    var i := 0;
    while i < |l|
      invariant 0 <= i <= |l|
      invariant sum == SumSizes(l[..i]) % U64
    {
      assert l[..i + 1] == l[..i] + [l[i]];
      SumSizesAppend(l[..i], [l[i]]);
      ModAdd(SumSizes(l[..i]), l[i].size, U64);
      sum := (sum + l[i].size) % U64;
      i := i + 1;
    }
    assert l[..i] == l;
  }

  /** Insertion adds the new size to the exact sum. */
  lemma InsertSum(l: seq<Entry>, e: Entry)
    ensures SumSizes(Insert(l, e)) == SumSizes(l) + e.size
  {
    var k := InsertPos(l, e, 0);
    assert l == l[..k] + l[k..];
    SumSizesAppend(l[..k] + [e], l[k..]);
    SumSizesAppend(l[..k], [e]);
    SumSizesAppend(l[..k], l[k..]);
  }

  /**
   * The insertion loop of pci_region_create_entry: walk while the entry at
   * the cursor does not rank below the new one, then link it in there.
   */
  method InsertEntry(l: seq<Entry>, e: Entry) returns (r: seq<Entry>)
    ensures r == Insert(l, e)
  {
    var k := 0;
    while k < |l| && !RanksBelow(l[k], e)
      invariant 0 <= k <= |l|
      invariant InsertPos(l, e, k) == InsertPos(l, e, 0)
    {
      k := k + 1;
    }
    r := l[..k] + [e] + l[k..];
  }

  // ---------------------------------------------------------------------
  // pci_region_migrate_64bit_entries
  // ---------------------------------------------------------------------

  /** The requests moved above 4 GiB: 64-bit, and not a USB controller's. */
  predicate Moves(e: Entry) {
    e.is64 && e.dev.classCode != PCI_CLASS_SERIAL_USB
  }

  /** The entries of l that move, in order. */
  function Moved(l: seq<Entry>): (r: seq<Entry>)
    ensures forall e :: e in r ==> e in l && Moves(e)
  {
    if |l| == 0 then [] else (if Moves(l[0]) then [l[0]] else []) + Moved(l[1..])
  }

  /** The entries of l that stay, in order. */
  function Stayed(l: seq<Entry>): (r: seq<Entry>)
    ensures forall e :: e in r ==> e in l && !Moves(e)
  {
    if |l| == 0 then [] else (if Moves(l[0]) then [] else [l[0]]) + Stayed(l[1..])
  }

  lemma {:induction false} MovedAppend(a: seq<Entry>, b: seq<Entry>)
    ensures Moved(a + b) == Moved(a) + Moved(b)
    decreases |a|
  {
    if |a| == 0 {
      assert a + b == b;
    } else {
      assert (a + b)[0] == a[0] && (a + b)[1..] == a[1..] + b;
      MovedAppend(a[1..], b);
    }
  }

  lemma {:induction false} StayedAppend(a: seq<Entry>, b: seq<Entry>)
    ensures Stayed(a + b) == Stayed(a) + Stayed(b)
    decreases |a|
  {
    if |a| == 0 {
      assert a + b == b;
    } else {
      assert (a + b)[0] == a[0] && (a + b)[1..] == a[1..] + b;
      StayedAppend(a[1..], b);
    }
  }

  /** The split loses and duplicates nothing. */
  lemma SplitContents(l: seq<Entry>)
    ensures multiset(Moved(l)) + multiset(Stayed(l)) == multiset(l)
    ensures |Moved(l)| + |Stayed(l)| == |l|
    ensures SumSizes(Moved(l)) + SumSizes(Stayed(l)) == SumSizes(l)
  {
    SplitMultiset(l);
    assert |multiset(Moved(l))| + |multiset(Stayed(l))| == |multiset(l)|;
    SplitSizes(l);
  }

  lemma {:induction false} SplitMultiset(l: seq<Entry>)
    ensures multiset(Moved(l)) + multiset(Stayed(l)) == multiset(l)
    decreases |l|
  {
    if |l| > 0 {
      var t := l[1..];
      SplitMultiset(t);
      if Moves(l[0]) {
        assert Moved(l) == [l[0]] + Moved(t) && Stayed(l) == Stayed(t);
        ConsMultiset(l, Moved(t), Stayed(t));
      } else {
        assert Stayed(l) == [l[0]] + Stayed(t) && Moved(l) == Moved(t);
        ConsMultiset(l, Stayed(t), Moved(t));
      }
    }
  }

  /** Putting the head of l in front of one half of a split of its tail splits l. */
  lemma ConsMultiset(l: seq<Entry>, a: seq<Entry>, b: seq<Entry>)
    requires |l| > 0 && multiset(a) + multiset(b) == multiset(l[1..])
    ensures multiset([l[0]] + a) + multiset(b) == multiset(l)
    ensures multiset(b) + multiset([l[0]] + a) == multiset(l)
  {
    assert l == [l[0]] + l[1..];
    assert multiset([l[0]] + a) == multiset{l[0]} + multiset(a);
  }

  lemma {:induction false} SplitSizes(l: seq<Entry>)
    ensures SumSizes(Moved(l)) + SumSizes(Stayed(l)) == SumSizes(l)
    decreases |l|
  {
    if |l| > 0 {
      var t := l[1..];
      SplitSizes(t);
      if Moves(l[0]) {
        assert Moved(l) == [l[0]] + Moved(t) && Stayed(l) == Stayed(t);
        SumSizesAppend([l[0]], Moved(t));
      } else {
        assert Stayed(l) == [l[0]] + Stayed(t) && Moved(l) == Moved(t);
        SumSizesAppend([l[0]], Stayed(t));
      }
    }
  }

  /** An order-keeping subsequence of a sorted list is sorted: both halves of the split are. */
  lemma {:induction false} SplitSorted(l: seq<Entry>)
    requires Sorted(l)
    ensures Sorted(Moved(l)) && Sorted(Stayed(l))
    decreases |l|
  {
    if |l| > 0 {
      assert Sorted(l[1..]) by {
        forall i, j | 0 <= i < j < |l| - 1 ensures !RanksBelow(l[1..][i], l[1..][j]) {
          assert l[1..][i] == l[i + 1] && l[1..][j] == l[j + 1];
        }
      }
      SplitSorted(l[1..]);
      HeadFirst(l[0], l[1..], Moved(l[1..]));
      HeadFirst(l[0], l[1..], Stayed(l[1..]));
    }
  }

  /** A head that no entry of t ranks above stays sorted in front of a sorted sub-list s of t. */
  lemma HeadFirst(h: Entry, t: seq<Entry>, s: seq<Entry>)
    requires forall j :: 0 <= j < |t| ==> !RanksBelow(h, t[j])
    requires forall e :: e in s ==> e in t
    requires Sorted(s)
    ensures Sorted([h] + s)
  {
    var r := [h] + s;
    forall i, j | 0 <= i < j < |r| ensures !RanksBelow(r[i], r[j]) {
      if i == 0 {
        assert r[j] == s[j - 1] && r[j] in t;
      } else {
        assert r[i] == s[i - 1] && r[j] == s[j - 1];
      }
    }
  }

  /**
   * pci_region_migrate_64bit_entries: the moving entries are unlinked from
   * `from` and linked in order in front of what `to` held.
   */
  method Migrate(from: seq<Entry>, to: seq<Entry>) returns (from': seq<Entry>, to': seq<Entry>)
    ensures from' == Stayed(from)
    ensures to' == Moved(from) + to
  {
    from' := [];
    var moved: seq<Entry> := [];
    var i := 0;
    while i < |from|
      invariant 0 <= i <= |from|
      invariant from' == Stayed(from[..i]) && moved == Moved(from[..i])
    {
      assert from[..i + 1] == from[..i] + [from[i]];
      MovedAppend(from[..i], [from[i]]);
      StayedAppend(from[..i], [from[i]]);
      var e := from[i];
      if !e.is64 || e.dev.classCode == PCI_CLASS_SERIAL_USB {
        from' := from' + [e];
      } else {
        moved := moved + [e];
      }
      i := i + 1;
    }
    assert from[..i] == from;
    to' := moved + to;
  }
}
