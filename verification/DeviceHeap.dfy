/** One value in the device heap: what a coalesced write leaves in memory, and what a read finds there. */
module DeviceHeap {
  import opened Words
  import opened BankLayout
  import opened ValueBanks

  lemma {:induction false} GatherSize(l: Layout, m: Memory, base: nat, units: nat)
    requires ValidLayout(l) && Holds(l, m, base, units)
    ensures |Gather(l, m, base, units)| == Offset(l.unit, units)
  {
    if units > 0 {
      GatherStep(l, m, base, units);
      GatherSize(l, m, base, units - 1);
    }
  }

  lemma EnoughUnits(unit: nat, len: nat)
    requires unit > 0
    ensures len <= Offset(unit, ChunkCount(unit, len))
  {
    ChunkCountIsCeiling(unit, len);
    OffsetIsProduct(unit, ChunkCount(unit, len));
  }

  /** The first `len` bytes of the value whose first unit is `base`. */
  ghost function ReadValue(l: Layout, m: Memory, base: nat, len: nat): (s: seq<byte>)
    requires ValidLayout(l) && Holds(l, m, base, ChunkCount(l.unit, len))
    ensures |s| == len
  {
    GatherSize(l, m, base, ChunkCount(l.unit, len));
    EnoughUnits(l.unit, len);
    Gather(l, m, base, ChunkCount(l.unit, len))[..len]
  }

  /** The heap unit whose page address `a` of bank `b` lies in. */
  function UnitAt(l: Layout, b: nat, a: nat): nat
    requires l.banks > 0 && l.page > 0 && a >= l.base
  {
    (a - l.base) / l.page * l.banks + b
  }

  /** Byte `j` of the page that holds the value's unit `u`: the value, then zeros. */
  function PageByte(l: Layout, value: seq<byte>, u: nat, j: nat): byte {
    if j < l.unit && Offset(l.unit, u) + j < |value| then value[Offset(l.unit, u) + j] else 0
  }

  lemma PageByteIsImage(l: Layout, value: seq<byte>, u: nat, j: nat)
    requires ValidLayout(l) && Offset(l.unit, u) <= |value| && j < l.page
    ensures PageImage(l, value, u)[j] == PageByte(l, value, u, j)
  {
  }

  /** One byte of the memory after the value is written. */
  ghost function StoredByte(l: Layout, m: Memory, base: nat, value: seq<byte>, b: nat, a: nat): byte
    requires ValidLayout(l) && b < |m| && a < |m[b]|
  {
    if InValue(l, base, ChunkCount(l.unit, |value|), b, a)
    then PageByte(l, value, UnitAt(l, b, a) - base, (a - l.base) % l.page)
    else m[b][a]
  }

  /** The memory with the value written over its own pages, and nothing else changed. */
  ghost function StoreValue(l: Layout, m: Memory, base: nat, value: seq<byte>): (r: Memory)
    requires ValidLayout(l)
    ensures |r| == |m| && forall b | 0 <= b < |m| :: |r[b]| == |m[b]|
  {
    seq(|m|, b requires 0 <= b < |m| =>
      seq(|m[b]|, a requires 0 <= a < |m[b]| => StoredByte(l, m, base, value, b, a)))
  }

  lemma StoreKeepsPages(l: Layout, m: Memory, base: nat, value: seq<byte>, first: nat, units: nat)
    requires ValidLayout(l) && Holds(l, m, first, units)
    ensures Holds(l, StoreValue(l, m, base, value), first, units)
  {
    forall i | first <= i < first + units ensures Fits(l, StoreValue(l, m, base, value), i) { assert Fits(l, m, i); }
  }

  /** Address `j` into the page of unit `i` belongs to that unit. */
  lemma AddressOfUnit(l: Layout, i: nat, j: nat)
    requires ValidLayout(l) && j < l.page
    ensures UnitAt(l, Bank(l, i), Addr(l, i) + j) == i && (Addr(l, i) + j - l.base) % l.page == j
  {
    var row := i / l.banks;
    OffsetIsProduct(l.page, row);
    ModUnique(l.page, row, j, Addr(l, i) + j - l.base);
    assert i == row * l.banks + i % l.banks;
  }

  /** Every address of a unit's page is read back from that unit. */
  lemma UnitOfAddress(l: Layout, b: nat, a: nat)
    requires ValidLayout(l) && b < l.banks && a >= l.base
    ensures var i := UnitAt(l, b, a); Bank(l, i) == b && a == Addr(l, i) + (a - l.base) % l.page
  {
    var row := (a - l.base) / l.page;
    ModUnique(l.banks, row, b, UnitAt(l, b, a));
    OffsetIsProduct(l.page, row);
    assert a - l.base == row * l.page + (a - l.base) % l.page;
  }

  lemma StoreWritesPage(l: Layout, m: Memory, base: nat, value: seq<byte>, u: nat)
    requires ValidLayout(l) && Holds(l, m, base, ChunkCount(l.unit, |value|)) && u < ChunkCount(l.unit, |value|)
    ensures PageWritten(l, StoreValue(l, m, base, value), base, value, u)
  {
    var r, i := StoreValue(l, m, base, value), base + u;
    assert Fits(l, m, i);
    UnitStarts(l.unit, |value|, u);
    var b, at := Bank(l, i), Addr(l, i);
    forall j | 0 <= j < l.page ensures r[b][at..at + l.page][j] == PageImage(l, value, u)[j] {
      AddressOfUnit(l, i, j);
      PageByteIsImage(l, value, u, j);
      assert r[b][at + j] == StoredByte(l, m, base, value, b, at + j);
    }
  }

  /** What is written reads back byte for byte. */
  lemma StoredReads(l: Layout, m: Memory, base: nat, value: seq<byte>)
    requires ValidLayout(l) && Holds(l, m, base, ChunkCount(l.unit, |value|))
    ensures Holds(l, StoreValue(l, m, base, value), base, ChunkCount(l.unit, |value|))
    ensures ReadValue(l, StoreValue(l, m, base, value), base, |value|) == value
  {
    var units := ChunkCount(l.unit, |value|);
    StoreKeepsPages(l, m, base, value, base, units);
    forall u: nat | u < units ensures PageWritten(l, StoreValue(l, m, base, value), base, value, u) {
      StoreWritesPage(l, m, base, value, u);
    }
    WrittenGathers(l, StoreValue(l, m, base, value), base, value, units);
    EnoughUnits(l.unit, |value|);
  }

  /** The bank-by-bank write leaves exactly that memory: its contract admits no other. */
  lemma WrittenIsStored(l: Layout, m: Memory, base: nat, value: seq<byte>, m': Memory)
    requires ValidLayout(l) && Holds(l, m, base, ChunkCount(l.unit, |value|))
    requires Written(l, m', base, value, l.banks) && OnlyValueChanged(l, base, ChunkCount(l.unit, |value|), m, m')
    ensures m' == StoreValue(l, m, base, value)
  {
    var r := StoreValue(l, m, base, value);
    forall b: nat, a: nat | b < |m| && a < |m[b]| ensures m'[b][a] == r[b][a] {
      WrittenByte(l, m, base, value, m', b, a);
    }
    forall b | 0 <= b < |m| ensures m'[b] == r[b] { }
  }

  lemma WrittenByte(l: Layout, m: Memory, base: nat, value: seq<byte>, m': Memory, b: nat, a: nat)
    requires ValidLayout(l) && Holds(l, m, base, ChunkCount(l.unit, |value|)) && b < |m| && a < |m[b]|
    requires Written(l, m', base, value, l.banks) && OnlyValueChanged(l, base, ChunkCount(l.unit, |value|), m, m')
    ensures m'[b][a] == StoredByte(l, m, base, value, b, a)
  {
    var units := ChunkCount(l.unit, |value|);
    if InValue(l, base, units, b, a) {
      UnitOfAddress(l, b, a);
      var i, j := UnitAt(l, b, a), (a - l.base) % l.page;
      var u := i - base;
      assert BankOf(l, base, u) < l.banks;
      assert PageWritten(l, m', base, value, u);
      PageByteIsImage(l, value, u, j);
      assert m'[b][Addr(l, i)..Addr(l, i) + l.page][j] == m'[b][a];
    }
  }

  /** The supply's write of a value to the device heap. */
  method WriteHeap(d: Dram, l: Layout, base: nat, value: seq<byte>)
    requires ValidLayout(l) && Holds(l, d.banks, base, ChunkCount(l.unit, |value|))
    modifies d
    ensures d.banks == StoreValue(l, old(d.banks), base, value)
  {
    WriteBanks(d, l, base, value);
    WrittenIsStored(l, old(d.banks), base, value, d.banks);
  }

  /** The receive's read of a value of `len` bytes, into a buffer of whole units. */
  method ReadHeap(d: Dram, l: Layout, base: nat, len: nat, into: array<byte>)
    requires ValidLayout(l) && Holds(l, d.banks, base, ChunkCount(l.unit, len))
    requires Offset(l.unit, ChunkCount(l.unit, len)) <= into.Length
    modifies into
    ensures len <= into.Length && into[..len] == ReadValue(l, d.banks, base, len)
  {
    ReadAll(d, l, base, ChunkCount(l.unit, len), into);
    EnoughUnits(l.unit, len);
    GatherSize(l, d.banks, base, ChunkCount(l.unit, len));
  }
}
