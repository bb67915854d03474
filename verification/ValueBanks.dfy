/** Where a value's units live in the interleaved device heap. */
module BankLayout {
  import opened Words

  /** `page` is the aligned page size, `base` the heap's address in every bank. */
  datatype Layout = Layout(unit: nat, banks: nat, page: nat, base: nat)

  ghost predicate ValidLayout(l: Layout) {
    l.unit > 0 && l.banks > 0 && l.page >= l.unit
  }

  /** Unit `i` of the heap: units go round the banks, one page each. */
  function Bank(l: Layout, i: nat): (b: nat)
    requires l.banks > 0
    ensures b < l.banks
  {
    i % l.banks
  }

  /** The bank of the value's unit `v`, for a value whose first unit is `base`. */
  function BankOf(l: Layout, base: nat, v: nat): (b: nat)
    requires l.banks > 0
    ensures b < l.banks
  {
    Bank(l, base + v)
  }

  function Addr(l: Layout, i: nat): nat
    requires l.banks > 0
  {
    l.base + Offset(l.page, i / l.banks)
  }

  type Memory = seq<seq<byte>>

  /** The memory has the whole page of unit `i`. */
  predicate Fits(l: Layout, m: Memory, i: nat)
    requires l.banks > 0
  {
    Bank(l, i) < |m| && Addr(l, i) + l.page <= |m[Bank(l, i)]|
  }

  /** The heap holds whole pages for units `first .. first + units`. */
  ghost predicate Holds(l: Layout, m: Memory, first: nat, units: nat)
    requires ValidLayout(l)
  {
    |m| == l.banks && forall i | first <= i < first + units :: Fits(l, m, i)
  }

  /** The simple layout: unit `i` read on its own. */
  ghost function Unit(l: Layout, m: Memory, i: nat): (s: seq<byte>)
    requires ValidLayout(l) && Fits(l, m, i)
    ensures |s| == l.unit
  {
    m[Bank(l, i)][Addr(l, i)..Addr(l, i) + l.unit]
  }

  /** The value-local unit a bank's first page holds. */
  function First(l: Layout, base: nat, bank: nat): nat
    requires l.banks > 0 && bank < l.banks
  {
    (bank + l.banks - base % l.banks) % l.banks
  }

  /** Pages a bank holds of a value of `units` units. */
  function Pages(l: Layout, first: nat, units: nat): nat
    requires l.banks > 0
  {
    if first < units then 1 + (units - 1 - first) / l.banks else 0
  }

  /** Pages of scratch that are enough for any bank. */
  function MaxPages(l: Layout, units: nat): nat
    requires l.banks > 0
  {
    (units + l.banks - 1) / l.banks
  }

  lemma ModUnique(n: nat, q: nat, r: nat, x: nat)
    requires n > 0 && r < n && x == q * n + r
    ensures x % n == r && x / n == q
  {
    var p, t := x / n, x % n;
    assert p * n + t == x;
    if p < q { MulMono(p + 1, q, n); }
    if q < p { MulMono(q + 1, p, n); }
  }

  lemma StepRows(n: nat, i: nat, p: nat)
    requires n > 0
    ensures (i + Offset(n, p)) % n == i % n && (i + Offset(n, p)) / n == i / n + p
  {
    var q, r := i / n, i % n;
    assert i == q * n + r;
    OffsetIsProduct(n, p);
    assert (q + p) * n == q * n + p * n;
    ModUnique(n, q + p, r, i + Offset(n, p));
  }

  /** How far round the banks `bank` is from a unit in bank `r`. */
  lemma Rotate(n: nat, r: nat, bank: nat)
    requires r < n && bank < n
    ensures (bank + n - r) % n == if bank >= r then bank - r else bank + n - r
  {
    if bank >= r { ModUnique(n, 1, bank - r, bank + n - r); } else { ModUnique(n, 0, bank + n - r, bank + n - r); }
  }

  /** `d` units after a unit in bank `r` of row `q`. */
  lemma Advance(n: nat, base: nat, d: nat)
    requires n > 0 && d < n
    ensures (base + d) % n == if base % n + d < n then base % n + d else base % n + d - n
  {
    var q, r := base / n, base % n;
    assert base == q * n + r;
    assert (q + 1) * n == q * n + n;
    if r + d < n { ModUnique(n, q, r + d, base + d); } else { ModUnique(n, q + 1, r + d - n, base + d); }
  }

  /** A bank's first unit is the least one that lands in it. */
  lemma FirstLands(l: Layout, base: nat, bank: nat)
    requires l.banks > 0 && bank < l.banks
    ensures First(l, base, bank) < l.banks && Bank(l, base + First(l, base, bank)) == bank
  {
    Rotate(l.banks, base % l.banks, bank);
    Advance(l.banks, base, First(l, base, bank));
  }

  lemma AddrOfRow(l: Layout, i: nat, row: nat)
    requires l.banks > 0 && i / l.banks == row
    ensures Addr(l, i) == l.base + Offset(l.page, row)
  {
  }

  /** The `p`-th page of a bank, counted from its first. */
  lemma PageLands(l: Layout, i: nat, p: nat)
    requires l.banks > 0
    ensures Bank(l, i + Offset(l.banks, p)) == Bank(l, i)
            && Addr(l, i + Offset(l.banks, p)) == Addr(l, i) + Offset(l.page, p)
  {
    var row := i / l.banks;
    StepRows(l.banks, i, p);
    AddrOfRow(l, i, row);
    AddrOfRow(l, i + Offset(l.banks, p), row + p);
    OffsetAdd(l.page, row, p);
  }

  lemma PagesBound(l: Layout, first: nat, units: nat)
    requires l.banks > 0 && first < units
    ensures first + Offset(l.banks, Pages(l, first, units) - 1) < units
    ensures units <= first + Offset(l.banks, Pages(l, first, units))
    ensures Pages(l, first, units) <= MaxPages(l, units)
  {
    var n := l.banks;
    var d := units - 1 - first;
    var q := d / n;
    assert q * n + d % n == d;
    assert (q + 1) * n == q * n + n;
    OffsetIsProduct(n, q);
    var x := units + n - 1;
    assert x / n * n + x % n == x;
    if x / n < q + 1 { MulMono(x / n + 1, q + 1, n); }
  }

  /** The first unit of a bank is the only residue that lands there. */
  lemma FirstIsResidue(l: Layout, base: nat, r: nat)
    requires l.banks > 0 && r < l.banks
    ensures First(l, base, Bank(l, base + r)) == r
  {
    Advance(l.banks, base, r);
    Rotate(l.banks, base % l.banks, Bank(l, base + r));
  }

  /** The value-local unit on page `p` of a bank, counted from the value's first page there. */
  function UnitOn(l: Layout, base: nat, bank: nat, p: nat): nat
    requires l.banks > 0 && bank < l.banks
  {
    First(l, base, bank) + Offset(l.banks, p)
  }

  lemma OnItsPage(l: Layout, base: nat, units: nat, u: nat)
    requires l.banks > 0 && u < units
    ensures First(l, base, Bank(l, base + u)) == u % l.banks
    ensures UnitOn(l, base, Bank(l, base + u), u / l.banks) == u && u / l.banks < Pages(l, u % l.banks, units)
  {
    var n := l.banks;
    var q, r := u / n, u % n;
    assert u == q * n + r;
    FirstIsResidue(l, base, r);
    PageLands(l, base + r, q);
    PagesBound(l, r, units);
    OffsetIsProduct(n, q);
    if q >= Pages(l, r, units) { OffsetMono(n, Pages(l, r, units), q); }
  }

  lemma OnNoOther(l: Layout, base: nat, bank: nat, p: nat)
    requires l.banks > 0 && bank < l.banks
    ensures var u := UnitOn(l, base, bank, p); bank == Bank(l, base + u) && p == u / l.banks
  {
    FirstLands(l, base, bank);
    PageLands(l, base + First(l, base, bank), p);
    OffsetIsProduct(l.banks, p);
    ModUnique(l.banks, p, First(l, base, bank), UnitOn(l, base, bank, p));
  }

  /** Coalescing covers every unit exactly once: one page of one bank holds unit `u`, and that page is read. */
  lemma CoversOnce(l: Layout, base: nat, units: nat, u: nat)
    requires l.banks > 0 && u < units
    ensures var bank := Bank(l, base + u);
            u / l.banks < Pages(l, First(l, base, bank), units) && UnitOn(l, base, bank, u / l.banks) == u
    ensures forall bank: nat, p: nat | bank < l.banks && UnitOn(l, base, bank, p) == u ::
              bank == Bank(l, base + u) && p == u / l.banks
  {
    OnItsPage(l, base, units, u);
    forall bank: nat, p: nat | bank < l.banks && UnitOn(l, base, bank, p) == u
      ensures bank == Bank(l, base + u) && p == u / l.banks
    {
      OnNoOther(l, base, bank, p);
    }
  }

  // ----- the value as one run of bytes -----

  /** The value's units in logical order. */
  ghost function Gather(l: Layout, m: Memory, first: nat, units: nat): (s: seq<byte>)
    requires ValidLayout(l) && Holds(l, m, first, units)
  {
    if units == 0 then [] else Gather(l, m, first, units - 1) + Unit(l, m, first + units - 1)
  }
}

/** The coalesced reads and writes of a value, and the read that guards against a changing source. */
module ValueBanks {
  import opened Words
  import opened BankLayout

  /** Device memory behind `ReadFromDeviceDRAMChannel` and `WriteToDeviceDRAMChannel`. */
  class Dram {
    var banks: Memory

    constructor (banks: Memory)
      ensures this.banks == banks
    {
      this.banks := banks;
    }

    method Read(bank: nat, addr: nat, n: nat) returns (s: seq<byte>)
      requires bank < |banks| && addr + n <= |banks[bank]|
      ensures s == banks[bank][addr..addr + n]
    {
      s := banks[bank][addr..addr + n];
    }

    method Write(bank: nat, addr: nat, s: seq<byte>)
      requires bank < |banks| && addr + |s| <= |banks[bank]|
      modifies this
      ensures banks == old(banks)[bank := Splice(old(banks)[bank], addr, s)]
    {
      banks := banks[bank := Splice(banks[bank], addr, s)];
    }
  }

  /** `m` with `s` written at `at`. */
  function Splice(m: seq<byte>, at: nat, s: seq<byte>): (r: seq<byte>)
    requires at + |s| <= |m|
    ensures |r| == |m|
  {
    m[..at] + s + m[at + |s|..]
  }

  /** `memcpy` into a buffer. */
  method CopyInto(into: array<byte>, at: nat, s: seq<byte>)
    requires at + |s| <= into.Length
    modifies into
    ensures into[..] == Splice(old(into[..]), at, s)
  {
    ghost var m := into[..];
    for i := 0 to |s|
      invariant into[..] == Splice(m, at, s[..i])
    {
      into[at + i] := s[i];
    }
    assert s[..|s|] == s;
  }

  // ----- unit slots of a destination buffer -----

  ghost predicate HoldsAt(buffer: seq<byte>, at: nat, s: seq<byte>) {
    at + |s| <= |buffer| && buffer[at..at + |s|] == s
  }

  /** Slot `u` of the buffer holds its unit. */
  ghost predicate Filled(l: Layout, m: Memory, base: nat, buffer: seq<byte>, u: nat)
    requires ValidLayout(l)
  {
    Fits(l, m, base + u) && HoldsAt(buffer, Offset(l.unit, u), Unit(l, m, base + u))
  }

  lemma SlotsApart(size: nat, u: nat, v: nat)
    requires u < v
    ensures Offset(size, u) + size <= Offset(size, v)
  {
    OffsetMono(size, u + 1, v);
  }

  lemma SpliceOutside(m: seq<byte>, at: nat, s: seq<byte>, lo: nat, hi: nat)
    requires at + |s| <= |m| && lo <= hi <= |m| && (hi <= at || at + |s| <= lo)
    ensures Splice(m, at, s)[lo..hi] == m[lo..hi]
  {
  }

  /** Filling one slot keeps the others. */
  lemma FillOne(l: Layout, m: Memory, base: nat, buffer: seq<byte>, u: nat, v: nat)
    requires ValidLayout(l) && Fits(l, m, base + u) && Offset(l.unit, u) + l.unit <= |buffer|
    requires u == v || Filled(l, m, base, buffer, v)
    ensures Filled(l, m, base, Splice(buffer, Offset(l.unit, u), Unit(l, m, base + u)), v)
  {
    if u < v { SlotsApart(l.unit, u, v); }
    if v < u { SlotsApart(l.unit, v, u); }
    SpliceSlot(buffer, Offset(l.unit, u), Unit(l, m, base + u), Offset(l.unit, v), Unit(l, m, base + v));
  }

  /** A splice shows itself in its own slot, and leaves a slot apart from it alone. */
  lemma SpliceSlot(m: seq<byte>, at: nat, s: seq<byte>, lo: nat, t: seq<byte>)
    requires at + |s| <= |m| && |t| == |s|
    requires if lo == at then t == s else HoldsAt(m, lo, t) && (lo + |s| <= at || at + |s| <= lo)
    ensures HoldsAt(Splice(m, at, s), lo, t)
  {
  }

  /** With every slot filled the buffer starts with the value's units in order. */
  lemma {:induction false} AllFilled(l: Layout, m: Memory, base: nat, units: nat, buffer: seq<byte>)
    requires ValidLayout(l) && Holds(l, m, base, units) && Offset(l.unit, units) <= |buffer|
    requires forall u | 0 <= u < units :: Filled(l, m, base, buffer, u)
    ensures Gather(l, m, base, units) == buffer[..Offset(l.unit, units)]
  {
    if units > 0 {
      var lo := Offset(l.unit, units - 1);
      AllFilled(l, m, base, units - 1, buffer);
      assert Filled(l, m, base, buffer, units - 1);
      assert buffer[..lo + l.unit] == buffer[..lo] + buffer[lo..lo + l.unit];
    }
  }

  // ----- reads -----

  /** One read per unit. */
  method ReadPerUnit(d: Dram, l: Layout, base: nat, units: nat, into: array<byte>)
    requires ValidLayout(l) && Holds(l, d.banks, base, units) && Offset(l.unit, units) <= into.Length
    modifies into
    ensures into[..] == Gather(l, d.banks, base, units) + old(into[Offset(l.unit, units)..])
  {
    for u := 0 to units
      invariant forall v | 0 <= v < u :: Filled(l, d.banks, base, into[..], v)
      invariant into[Offset(l.unit, units)..] == old(into[Offset(l.unit, units)..])
    {
      assert Fits(l, d.banks, base + u);
      var page := d.Read(Bank(l, base + u), Addr(l, base + u), l.unit);
      PlaceUnit(d, l, base, units, u, page, into);
    }
    AllFilled(l, d.banks, base, units, into[..]);
  }

  /** Puts one unit into its slot. */
  method PlaceUnit(d: Dram, l: Layout, base: nat, units: nat, u: nat, page: seq<byte>, into: array<byte>)
    requires ValidLayout(l) && Fits(l, d.banks, base + u) && u < units && Offset(l.unit, units) <= into.Length
    requires page == Unit(l, d.banks, base + u)
    modifies into
    ensures forall v: nat | v == u || Filled(l, d.banks, base, old(into[..]), v) ::
              Filled(l, d.banks, base, into[..], v)
    ensures into[Offset(l.unit, units)..] == old(into[Offset(l.unit, units)..])
  {
    SlotsApart(l.unit, u, units);
    ghost var before := into[..];
    CopyInto(into, Offset(l.unit, u), page);
    forall v: nat | v == u || Filled(l, d.banks, base, before, v) ensures Filled(l, d.banks, base, into[..], v) {
      FillOne(l, d.banks, base, before, u, v);
    }
    SpliceOutside(before, Offset(l.unit, u), page, Offset(l.unit, units), |before|);
  }

  /** The pages of one bank, read at once, are the bank's units. */
  lemma PageIsUnit(l: Layout, m: Memory, base: nat, units: nat, bank: nat, p: nat)
    requires ValidLayout(l) && Holds(l, m, base, units) && bank < l.banks
    requires p < Pages(l, First(l, base, bank), units)
    ensures var first := First(l, base, bank); var u := UnitOn(l, base, bank, p);
            && first < units && u < units && Bank(l, base + u) == bank
            && Addr(l, base + u) == Addr(l, base + first) + Offset(l.page, p) && Fits(l, m, base + u)
  {
    var first := First(l, base, bank);
    PagesBound(l, first, units);
    OffsetMono(l.banks, p, Pages(l, first, units) - 1);
    FirstLands(l, base, bank);
    PageLands(l, base + first, p);
    assert Fits(l, m, base + UnitOn(l, base, bank, p));
  }

  /** A run of whole pages cut at page `p` is what a read of that page alone gives. */
  lemma CutPage(m: seq<byte>, addr: nat, n: nat, size: nat, p: nat, unit: nat)
    requires p < n && unit <= size && addr + Offset(size, n) <= |m|
    ensures Offset(size, p) + unit <= Offset(size, n)
    ensures m[addr..addr + Offset(size, n)][Offset(size, p)..Offset(size, p) + unit] ==
              m[addr + Offset(size, p)..addr + Offset(size, p) + unit]
  {
    SlotsApart(size, p, n);
    SliceOfSlice(m, addr, Offset(size, n), Offset(size, p), Offset(size, p) + unit);
  }

  lemma SliceOfSlice(m: seq<byte>, at: nat, len: nat, lo: nat, hi: nat)
    requires lo <= hi <= len && at + len <= |m|
    ensures m[at..at + len][lo..hi] == m[at + lo..at + hi]
  {
    var run, cut := m[at..at + len], m[at + lo..at + hi];
    assert |run[lo..hi]| == |cut|;
    forall i | 0 <= i < |cut| ensures run[lo..hi][i] == cut[i] {
      assert run[lo + i] == m[at + lo + i];
    }
  }

  ghost predicate KeepsFilled(l: Layout, m: Memory, base: nat, before: seq<byte>, after: seq<byte>)
    requires ValidLayout(l)
  {
    forall v: nat | Filled(l, m, base, before, v) :: Filled(l, m, base, after, v)
  }

  /** The units in the banks from `lo` up to `hi` are in their slots. */
  ghost predicate BanksFilled(l: Layout, m: Memory, base: nat, units: nat, buffer: seq<byte>, lo: nat, hi: nat)
    requires ValidLayout(l)
  {
    forall v: nat | v < units && lo <= BankOf(l, base, v) < hi :: Filled(l, m, base, buffer, v)
  }

  /** A bank whose first unit is past the end holds none of the value. */
  lemma NoPageHere(l: Layout, base: nat, units: nat, bank: nat)
    requires l.banks > 0 && bank < l.banks && First(l, base, bank) >= units
    ensures forall v: nat | v < units :: BankOf(l, base, v) != bank
  {
    forall v: nat | v < units ensures BankOf(l, base, v) != bank {
      OnItsPage(l, base, units, v);
      assert v == v / l.banks * l.banks + v % l.banks;
    }
  }

  lemma NoUnitHere(l: Layout, m: Memory, base: nat, units: nat, bank: nat, buffer: seq<byte>)
    requires ValidLayout(l) && bank < l.banks && First(l, base, bank) >= units
    ensures BanksFilled(l, m, base, units, buffer, bank, bank + 1)
  {
    NoPageHere(l, base, units, bank);
  }

  lemma PagesFillBank(l: Layout, m: Memory, base: nat, units: nat, bank: nat, buffer: seq<byte>)
    requires ValidLayout(l) && bank < l.banks
    requires forall p: nat | p < Pages(l, First(l, base, bank), units) ::
               Filled(l, m, base, buffer, UnitOn(l, base, bank, p))
    ensures BanksFilled(l, m, base, units, buffer, bank, bank + 1)
  {
    forall v: nat | v < units && BankOf(l, base, v) == bank ensures Filled(l, m, base, buffer, v) {
      var p := HomePage(l, base, units, v);
      assert Filled(l, m, base, buffer, UnitOn(l, base, bank, p));
    }
  }

  /** The page of its bank that holds unit `v`. */
  lemma HomePage(l: Layout, base: nat, units: nat, v: nat) returns (p: nat)
    requires l.banks > 0 && v < units
    ensures p < Pages(l, First(l, base, BankOf(l, base, v)), units) && UnitOn(l, base, BankOf(l, base, v), p) == v
  {
    OnItsPage(l, base, units, v);
    p := v / l.banks;
  }

  /** Page `p` of the scratch buffer starts with the unit it holds. */
  ghost predicate PageHeld(l: Layout, m: Memory, base: nat, bank: nat, scratch: seq<byte>, p: nat)
    requires ValidLayout(l) && bank < l.banks
  {
    var u := UnitOn(l, base, bank, p);
    Fits(l, m, base + u) && Offset(l.page, p) + l.unit <= |scratch|
    && scratch[Offset(l.page, p)..Offset(l.page, p) + l.unit] == Unit(l, m, base + u)
  }

  lemma RunHolds(l: Layout, m: Memory, base: nat, units: nat, bank: nat, scratch: seq<byte>, p: nat)
    requires ValidLayout(l) && Holds(l, m, base, units) && bank < l.banks
    requires p < Pages(l, First(l, base, bank), units)
    requires var addr := Addr(l, base + First(l, base, bank)); var n := Pages(l, First(l, base, bank), units);
             && addr + Offset(l.page, n) <= |m[bank]| && Offset(l.page, n) <= |scratch|
             && scratch[..Offset(l.page, n)] == m[bank][addr..addr + Offset(l.page, n)]
    ensures PageHeld(l, m, base, bank, scratch, p)
  {
    var addr, n := Addr(l, base + First(l, base, bank)), Pages(l, First(l, base, bank), units);
    PageIsUnit(l, m, base, units, bank, p);
    CutPage(m[bank], addr, n, l.page, p, l.unit);
    CutPage(scratch, 0, n, l.page, p, l.unit);
  }

  /** One read of all of a bank's pages. */
  method FetchBank(d: Dram, l: Layout, base: nat, units: nat, bank: nat, scratch: array<byte>)
    requires ValidLayout(l) && Holds(l, d.banks, base, units) && bank < l.banks && First(l, base, bank) < units
    requires Offset(l.page, MaxPages(l, units)) <= scratch.Length
    modifies scratch
    ensures forall p: nat | p < Pages(l, First(l, base, bank), units) ::
              PageHeld(l, d.banks, base, bank, scratch[..], p)
  {
    var first := First(l, base, bank);
    var n := Pages(l, first, units);
    var addr := Addr(l, base + first);
    PagesBound(l, first, units);
    OffsetMono(l.page, n, MaxPages(l, units));
    PageIsUnit(l, d.banks, base, units, bank, n - 1);
    var run := d.Read(bank, addr, Offset(l.page, n));
    CopyInto(scratch, 0, run);
    assert scratch[..Offset(l.page, n)] == run;
    forall p: nat | p < n ensures PageHeld(l, d.banks, base, bank, scratch[..], p) {
      RunHolds(l, d.banks, base, units, bank, scratch[..], p);
    }
  }

  method ScatterPage(d: Dram, l: Layout, base: nat, units: nat, bank: nat, p: nat, scratch: array<byte>,
                     into: array<byte>)
    requires ValidLayout(l) && Holds(l, d.banks, base, units) && Offset(l.unit, units) <= into.Length
    requires bank < l.banks && scratch != into && p < Pages(l, First(l, base, bank), units)
    requires PageHeld(l, d.banks, base, bank, scratch[..], p)
    modifies into
    ensures Filled(l, d.banks, base, into[..], UnitOn(l, base, bank, p))
    ensures KeepsFilled(l, d.banks, base, old(into[..]), into[..])
    ensures into[Offset(l.unit, units)..] == old(into[Offset(l.unit, units)..])
  {
    PageIsUnit(l, d.banks, base, units, bank, p);
    var page := scratch[Offset(l.page, p)..Offset(l.page, p) + l.unit];
    PlaceUnit(d, l, base, units, UnitOn(l, base, bank, p), page, into);
  }

  /** Scatters a fetched bank's pages to their slots. */
  method ScatterBank(d: Dram, l: Layout, base: nat, units: nat, bank: nat, scratch: array<byte>, into: array<byte>)
    requires ValidLayout(l) && Holds(l, d.banks, base, units) && Offset(l.unit, units) <= into.Length
    requires bank < l.banks && scratch != into
    requires forall p: nat | p < Pages(l, First(l, base, bank), units) ::
               PageHeld(l, d.banks, base, bank, scratch[..], p)
    modifies into
    ensures BanksFilled(l, d.banks, base, units, into[..], bank, bank + 1)
    ensures KeepsFilled(l, d.banks, base, old(into[..]), into[..])
    ensures into[Offset(l.unit, units)..] == old(into[Offset(l.unit, units)..])
  {
    var n := Pages(l, First(l, base, bank), units);
    for p := 0 to n
      invariant KeepsFilled(l, d.banks, base, old(into[..]), into[..])
      invariant forall q: nat | q < p :: Filled(l, d.banks, base, into[..], UnitOn(l, base, bank, q))
      invariant into[Offset(l.unit, units)..] == old(into[Offset(l.unit, units)..])
    {
      ScatterPage(d, l, base, units, bank, p, scratch, into);
    }
    PagesFillBank(l, d.banks, base, units, bank, into[..]);
  }

  /** One read per occupied bank. */
  method ReadBulk(d: Dram, l: Layout, base: nat, units: nat, into: array<byte>)
    requires ValidLayout(l) && Holds(l, d.banks, base, units) && Offset(l.unit, units) <= into.Length
    modifies into
    ensures into[..] == Gather(l, d.banks, base, units) + old(into[Offset(l.unit, units)..])
  {
    var scratch := new byte[Offset(l.page, MaxPages(l, units))];
    for bank := 0 to l.banks
      invariant BanksFilled(l, d.banks, base, units, into[..], 0, bank)
      invariant into[Offset(l.unit, units)..] == old(into[Offset(l.unit, units)..])
    {
      if First(l, base, bank) < units {
        FetchBank(d, l, base, units, bank, scratch);
        ScatterBank(d, l, base, units, bank, scratch, into);
      } else {
        NoUnitHere(l, d.banks, base, units, bank, into[..]);
      }
    }
    AllFilled(l, d.banks, base, units, into[..]);
  }

  /** `read_all`: the two strategies agree on every byte of the destination. */
  method ReadAll(d: Dram, l: Layout, base: nat, units: nat, into: array<byte>)
    requires ValidLayout(l) && Holds(l, d.banks, base, units) && Offset(l.unit, units) <= into.Length
    modifies into
    ensures into[..] == Gather(l, d.banks, base, units) + old(into[Offset(l.unit, units)..])
  {
    if units > l.banks {
      ReadBulk(d, l, base, units, into);
    } else {
      ReadPerUnit(d, l, base, units, into);
    }
  }

  // ----- writes -----

  function Zeros(n: nat): (s: seq<byte>)
    ensures |s| == n
  {
    seq(n, _ => 0)
  }

  /** The value's bytes in its unit `u`. */
  function UnitBytes(l: Layout, value: seq<byte>, u: nat): (s: seq<byte>)
    requires Offset(l.unit, u) <= |value|
    ensures |s| <= l.unit
  {
    var off := Offset(l.unit, u);
    value[off..off + Min(l.unit, |value| - off)]
  }

  /** What page `u` of a value must hold: its bytes, then zeros to the end of the page. */
  function PageImage(l: Layout, value: seq<byte>, u: nat): (s: seq<byte>)
    requires l.page >= l.unit && Offset(l.unit, u) <= |value|
    ensures |s| == l.page
  {
    var head := UnitBytes(l, value, u);
    head + Zeros(l.page - |head|)
  }

  ghost predicate PageWritten(l: Layout, m: Memory, base: nat, value: seq<byte>, u: nat)
    requires ValidLayout(l)
  {
    && Fits(l, m, base + u) && Offset(l.unit, u) <= |value|
    && m[Bank(l, base + u)][Addr(l, base + u)..Addr(l, base + u) + l.page] == PageImage(l, value, u)
  }

  /** Address `a` of bank `b` lies in one of the value's own pages. */
  ghost predicate InValue(l: Layout, base: nat, units: nat, b: nat, a: nat)
    requires ValidLayout(l)
  {
    a >= l.base && base <= (a - l.base) / l.page * l.banks + b < base + units
  }

  /** Nothing outside the value's own pages differs. */
  ghost predicate OnlyValueChanged(l: Layout, base: nat, units: nat, m: Memory, m': Memory)
    requires ValidLayout(l)
  {
    && |m'| == |m| && (forall b | 0 <= b < |m| :: |m'[b]| == |m[b]|)
    && forall b: nat, a: nat | b < |m| && a < |m[b]| && !InValue(l, base, units, b, a) :: m'[b][a] == m[b][a]
  }

  method FillZero(into: array<byte>, lo: nat, hi: nat)
    requires lo <= hi <= into.Length
    modifies into
    ensures into[..] == Splice(old(into[..]), lo, Zeros(hi - lo))
  {
    ghost var m := into[..];
    for i := lo to hi
      invariant into[..] == Splice(m, lo, Zeros(i - lo))
    {
      into[i] := 0;
    }
  }

  /** Lays one page out in the scratch buffer: the bytes, then the zero fill. */
  method StagePage(head: seq<byte>, size: nat, at: nat, scratch: array<byte>)
    requires |head| <= size && at + size <= scratch.Length
    modifies scratch
    ensures scratch[..] == Splice(old(scratch[..]), at, head + Zeros(size - |head|))
  {
    ghost var m := scratch[..];
    CopyInto(scratch, at, head);
    FillZero(scratch, at + |head|, at + size);
    SpliceTwice(m, at, head, Zeros(size - |head|));
  }

  lemma SpliceTwice(m: seq<byte>, at: nat, s: seq<byte>, t: seq<byte>)
    requires at + |s| + |t| <= |m|
    ensures Splice(Splice(m, at, s), at + |s|, t) == Splice(m, at, s + t)
  {
  }

  /** Page `p` of the scratch buffer is laid out. */
  ghost predicate PageStaged(l: Layout, value: seq<byte>, base: nat, bank: nat, scratch: seq<byte>, p: nat)
    requires ValidLayout(l) && bank < l.banks
  {
    var u := UnitOn(l, base, bank, p);
    Offset(l.unit, u) <= |value| && HoldsAt(scratch, Offset(l.page, p), PageImage(l, value, u))
  }

  lemma StageOne(l: Layout, value: seq<byte>, base: nat, bank: nat, scratch: seq<byte>, p: nat, q: nat)
    requires ValidLayout(l) && bank < l.banks && Offset(l.unit, UnitOn(l, base, bank, p)) <= |value|
    requires Offset(l.page, p) + l.page <= |scratch| && q <= p
    requires q < p ==> PageStaged(l, value, base, bank, scratch, q)
    ensures PageStaged(l, value, base, bank, Splice(scratch, Offset(l.page, p),
              PageImage(l, value, UnitOn(l, base, bank, p))), q)
  {
    if q < p { SlotsApart(l.page, q, p); }
    SpliceSlot(scratch, Offset(l.page, p), PageImage(l, value, UnitOn(l, base, bank, p)),
               Offset(l.page, q), PageImage(l, value, UnitOn(l, base, bank, q)));
  }

  /** Collects a bank's pages, every `banks`-th unit of the value. */
  method GatherBank(l: Layout, value: seq<byte>, base: nat, bank: nat, scratch: array<byte>) returns (pages: nat)
    requires ValidLayout(l) && bank < l.banks
    requires Offset(l.page, MaxPages(l, ChunkCount(l.unit, |value|))) <= scratch.Length
    requires First(l, base, bank) < ChunkCount(l.unit, |value|)
    modifies scratch
    ensures pages == Pages(l, First(l, base, bank), ChunkCount(l.unit, |value|))
    ensures Offset(l.page, pages) <= scratch.Length
    ensures forall p: nat | p < pages :: PageStaged(l, value, base, bank, scratch[..], p)
  {
    var units := ChunkCount(l.unit, |value|);
    var u := First(l, base, bank);
    ghost var n := Pages(l, u, units);
    PagesBound(l, u, units);
    OffsetMono(l.page, n, MaxPages(l, units));
    pages := 0;
    PageOfUnit(l, base, bank, units, 0);
    while u < units
      invariant u == UnitOn(l, base, bank, pages) && pages <= n && (u < units <==> pages < n)
      invariant forall p: nat | p < pages :: PageStaged(l, value, base, bank, scratch[..], p)
      decreases n - pages
    {
      UnitStarts(l.unit, |value|, u);
      SlotsApart(l.page, pages, n);
      StageNext(l, value, base, bank, pages, scratch);
      PageOfUnit(l, base, bank, units, pages);
      PageOfUnit(l, base, bank, units, pages + 1);
      u := u + l.banks;
      pages := pages + 1;
    }
  }

  /** The body of the gather loop: one more page laid out, the earlier ones kept. */
  method StageNext(l: Layout, value: seq<byte>, base: nat, bank: nat, p: nat, scratch: array<byte>)
    requires ValidLayout(l) && bank < l.banks && Offset(l.unit, UnitOn(l, base, bank, p)) <= |value|
    requires Offset(l.page, p) + l.page <= scratch.Length
    requires forall q: nat | q < p :: PageStaged(l, value, base, bank, scratch[..], q)
    modifies scratch
    ensures forall q: nat | q <= p :: PageStaged(l, value, base, bank, scratch[..], q)
  {
    ghost var before := scratch[..];
    StagePage(UnitBytes(l, value, UnitOn(l, base, bank, p)), l.page, Offset(l.page, p), scratch);
    forall q: nat | q <= p ensures PageStaged(l, value, base, bank, scratch[..], q) {
      StageOne(l, value, base, bank, before, p, q);
    }
  }

  /** The walk is inside the value exactly while pages remain. */
  lemma PageOfUnit(l: Layout, base: nat, bank: nat, units: nat, p: nat)
    requires l.banks > 0 && bank < l.banks && First(l, base, bank) < units
    ensures UnitOn(l, base, bank, p) < units <==> p < Pages(l, First(l, base, bank), units)
    ensures UnitOn(l, base, bank, p + 1) == UnitOn(l, base, bank, p) + l.banks
  {
    var n := Pages(l, First(l, base, bank), units);
    PagesBound(l, First(l, base, bank), units);
    if p < n { OffsetMono(l.banks, p, n - 1); } else { OffsetMono(l.banks, n, p); }
  }

  lemma UnitStarts(unit: nat, bytes: nat, u: nat)
    requires unit > 0 && u < ChunkCount(unit, bytes)
    ensures Offset(unit, u) < bytes
  {
    OffsetIsProduct(unit, u);
    ChunkCountIsCeiling(unit, bytes);
    MulMono(u, ChunkCount(unit, bytes) - 1, unit);
  }

  /** Where a bank's run of pages starts, and that it fits. */
  lemma RunFits(l: Layout, m: Memory, base: nat, units: nat, bank: nat)
    requires ValidLayout(l) && Holds(l, m, base, units) && bank < l.banks && First(l, base, bank) < units
    ensures var first := First(l, base, bank);
            bank < |m| && Addr(l, base + first) + Offset(l.page, Pages(l, first, units)) <= |m[bank]|
  {
    var first := First(l, base, bank);
    var n := Pages(l, first, units);
    PagesBound(l, first, units);
    PageIsUnit(l, m, base, units, bank, n - 1);
  }

  /** Every address of a bank's run is in one of the value's pages. */
  lemma RunIsInValue(l: Layout, base: nat, units: nat, bank: nat, a: nat)
    requires ValidLayout(l) && bank < l.banks && First(l, base, bank) < units
    requires var addr := Addr(l, base + First(l, base, bank));
             addr <= a < addr + Offset(l.page, Pages(l, First(l, base, bank), units))
    ensures InValue(l, base, units, bank, a)
  {
    var first := First(l, base, bank);
    var i, n := base + first, Pages(l, First(l, base, bank), units);
    FirstLands(l, base, bank);
    RowOfAddress(l, i, n, a);
    RowUnit(l.banks, i, (a - l.base) / l.page, n);
    PagesBound(l, first, units);
  }

  lemma RowOfAddress(l: Layout, i: nat, n: nat, a: nat)
    requires ValidLayout(l) && Addr(l, i) <= a < Addr(l, i) + Offset(l.page, n)
    ensures i / l.banks <= (a - l.base) / l.page < i / l.banks + n
  {
    OffsetIsProduct(l.page, i / l.banks);
    OffsetIsProduct(l.page, n);
    DivBounds(a - l.base, i / l.banks, n, l.page);
  }

  /** Going down rows of `banks` units stays in the same column. */
  lemma RowUnit(banks: nat, i: nat, row: nat, n: nat)
    requires banks > 0 && i / banks <= row < i / banks + n
    ensures i <= row * banks + i % banks <= i + Offset(banks, n - 1)
  {
    var q := i / banks;
    OffsetIsProduct(banks, n - 1);
    assert i == q * banks + i % banks;
    MulMono(q, row, banks);
    MulMono(row, q + n - 1, banks);
    assert (q + n - 1) * banks == q * banks + (n - 1) * banks;
  }

  /** The memory after one bank's coalesced write. */
  ghost predicate BankStored(l: Layout, m: Memory, base: nat, value: seq<byte>, bank: nat, run: seq<byte>)
    requires ValidLayout(l) && bank < l.banks
  {
    var units := ChunkCount(l.unit, |value|);
    var n := Pages(l, First(l, base, bank), units);
    && Holds(l, m, base, units) && First(l, base, bank) < units && |run| == Offset(l.page, n)
    && forall p: nat | p < n :: PageStaged(l, value, base, bank, run, p)
  }

  lemma StoredChangesOnlyValue(l: Layout, m: Memory, base: nat, value: seq<byte>, bank: nat, run: seq<byte>)
    requires ValidLayout(l) && bank < l.banks && BankStored(l, m, base, value, bank, run)
    ensures var addr := Addr(l, base + First(l, base, bank));
            && bank < |m| && addr + |run| <= |m[bank]|
            && OnlyValueChanged(l, base, ChunkCount(l.unit, |value|), m, m[bank := Splice(m[bank], addr, run)])
  {
    var units := ChunkCount(l.unit, |value|);
    var addr := Addr(l, base + First(l, base, bank));
    RunFits(l, m, base, units, bank);
    var m' := m[bank := Splice(m[bank], addr, run)];
    forall b: nat, a: nat | b < |m| && a < |m[b]| && !InValue(l, base, units, b, a) ensures m'[b][a] == m[b][a] {
      if b == bank && addr <= a < addr + |run| { RunIsInValue(l, base, units, bank, a); }
    }
  }

  lemma StoredWritesPage(l: Layout, m: Memory, base: nat, value: seq<byte>, bank: nat, run: seq<byte>, v: nat)
    requires ValidLayout(l) && bank < l.banks && BankStored(l, m, base, value, bank, run)
    requires v < ChunkCount(l.unit, |value|) && (BankOf(l, base, v) == bank || PageWritten(l, m, base, value, v))
    ensures var addr := Addr(l, base + First(l, base, bank));
            && bank < |m| && addr + |run| <= |m[bank]|
            && PageWritten(l, m[bank := Splice(m[bank], addr, run)], base, value, v)
  {
    var units := ChunkCount(l.unit, |value|);
    var first := First(l, base, bank);
    var addr := Addr(l, base + first);
    RunFits(l, m, base, units, bank);
    if BankOf(l, base, v) == bank {
      var p := HomePage(l, base, units, v);
      PageIsUnit(l, m, base, units, bank, p);
      UnitStarts(l.unit, |value|, v);
      assert PageStaged(l, value, base, bank, run, p);
      var lo := Offset(l.page, p);
      SpliceWithin(m[bank], addr, run, lo, lo + l.page);
    }
  }

  lemma SpliceWithin(m: seq<byte>, at: nat, s: seq<byte>, lo: nat, hi: nat)
    requires at + |s| <= |m| && lo <= hi <= |s|
    ensures Splice(m, at, s)[at + lo..at + hi] == s[lo..hi]
  {
  }

  ghost predicate Written(l: Layout, m: Memory, base: nat, value: seq<byte>, banks: nat)
    requires ValidLayout(l)
  {
    forall v: nat | v < ChunkCount(l.unit, |value|) && BankOf(l, base, v) < banks :: PageWritten(l, m, base, value, v)
  }

  lemma ChangesKeepHeap(l: Layout, base: nat, units: nat, m: Memory, m': Memory)
    requires ValidLayout(l) && Holds(l, m, base, units) && OnlyValueChanged(l, base, units, m, m')
    ensures Holds(l, m', base, units)
  {
    forall i | base <= i < base + units ensures Fits(l, m', i) { assert Fits(l, m, i); }
  }

  /** One write per occupied bank. */
  method WriteBanks(d: Dram, l: Layout, base: nat, value: seq<byte>)
    requires ValidLayout(l) && Holds(l, d.banks, base, ChunkCount(l.unit, |value|))
    modifies d
    ensures Written(l, d.banks, base, value, l.banks)
    ensures OnlyValueChanged(l, base, ChunkCount(l.unit, |value|), old(d.banks), d.banks)
  {
    var units := ChunkCount(l.unit, |value|);
    var scratch := new byte[Offset(l.page, MaxPages(l, units))];
    for bank := 0 to l.banks
      invariant Holds(l, d.banks, base, units) && OnlyValueChanged(l, base, units, old(d.banks), d.banks)
      invariant Written(l, d.banks, base, value, bank)
    {
      ghost var m := d.banks;
      if First(l, base, bank) < units {
        WriteBank(d, l, base, value, bank, scratch);
      } else {
        NoPageHere(l, base, units, bank);
      }
    }
  }

  method WriteBank(d: Dram, l: Layout, base: nat, value: seq<byte>, bank: nat, scratch: array<byte>)
    requires ValidLayout(l) && Holds(l, d.banks, base, ChunkCount(l.unit, |value|))
    requires Offset(l.page, MaxPages(l, ChunkCount(l.unit, |value|))) <= scratch.Length
    requires bank < l.banks && First(l, base, bank) < ChunkCount(l.unit, |value|)
    requires Written(l, d.banks, base, value, bank)
    modifies d, scratch
    ensures Holds(l, d.banks, base, ChunkCount(l.unit, |value|)) && Written(l, d.banks, base, value, bank + 1)
    ensures OnlyValueChanged(l, base, ChunkCount(l.unit, |value|), old(d.banks), d.banks)
  {
    ghost var m, units := d.banks, ChunkCount(l.unit, |value|);
    var pages := GatherBank(l, value, base, bank, scratch);
    var run := scratch[..Offset(l.page, pages)];
    forall p: nat | p < pages ensures PageStaged(l, value, base, bank, run, p) {
      assert PageStaged(l, value, base, bank, scratch[..], p);
      CutPage(scratch[..], 0, pages, l.page, p, l.page);
    }
    RunFits(l, m, base, units, bank);
    d.Write(bank, Addr(l, base + First(l, base, bank)), run);
    StoredChangesOnlyValue(l, m, base, value, bank, run);
    ChangesKeepHeap(l, base, units, m, d.banks);
    forall v: nat | v < units && BankOf(l, base, v) < bank + 1 ensures PageWritten(l, d.banks, base, value, v) {
      StoredWritesPage(l, m, base, value, bank, run, v);
    }
  }

  // ----- round trip -----

  lemma GatherStep(l: Layout, m: Memory, base: nat, k: nat)
    requires ValidLayout(l) && k > 0 && Holds(l, m, base, k)
    ensures Fits(l, m, base + k - 1) && Gather(l, m, base, k) == Gather(l, m, base, k - 1) + Unit(l, m, base + k - 1)
  {
  }

  lemma {:induction false} WrittenGathers(l: Layout, m: Memory, base: nat, value: seq<byte>, k: nat)
    requires ValidLayout(l) && k <= ChunkCount(l.unit, |value|) && Holds(l, m, base, k)
    requires forall v: nat | v < k :: PageWritten(l, m, base, value, v)
    ensures var n := Min(Offset(l.unit, k), |value|);
            |Gather(l, m, base, k)| == Offset(l.unit, k) && Gather(l, m, base, k)[..n] == value[..n]
  {
    if k > 0 {
      WrittenGathers(l, m, base, value, k - 1);
      UnitStarts(l.unit, |value|, k - 1);
      WrittenUnitGathers(l, m, base, value, k);
    }
  }

  /** One more page, after whole ones. */
  lemma WrittenUnitGathers(l: Layout, m: Memory, base: nat, value: seq<byte>, k: nat)
    requires ValidLayout(l) && k > 0 && Holds(l, m, base, k) && PageWritten(l, m, base, value, k - 1)
    requires Offset(l.unit, k - 1) < |value|
    requires Gather(l, m, base, k - 1) == value[..Offset(l.unit, k - 1)]
    ensures var n := Min(Offset(l.unit, k), |value|);
            |Gather(l, m, base, k)| == Offset(l.unit, k) && Gather(l, m, base, k)[..n] == value[..n]
  {
    GatherStep(l, m, base, k);
    CutUnit(l, m, base + k - 1);
    LastUnitReads(value, Gather(l, m, base, k - 1), PageImage(l, value, k - 1), Offset(l.unit, k - 1), l.unit);
  }

  lemma CutUnit(l: Layout, m: Memory, i: nat)
    requires ValidLayout(l) && Fits(l, m, i)
    ensures Unit(l, m, i) == m[Bank(l, i)][Addr(l, i)..Addr(l, i) + l.page][..l.unit]
  {
  }

  lemma LastUnitReads(value: seq<byte>, front: seq<byte>, page: seq<byte>, off: nat, unit: nat)
    requires |front| == off < |value| && front == value[..off] && unit <= |page|
    requires var n := Min(unit, |value| - off); page[..n] == value[off..off + n]
    ensures var n := Min(off + unit, |value|); n <= |front + page[..unit]| && (front + page[..unit])[..n] == value[..n]
  {
    var n := Min(unit, |value| - off);
    assert (front + page[..unit])[..off + n] == front + page[..n];
    assert value[..off + n] == value[..off] + value[off..off + n];
  }

  /** A value written bank by bank reads back byte for byte, by either read strategy, and nothing else moved. */
  method WriteThenRead(d: Dram, l: Layout, base: nat, value: seq<byte>, into: array<byte>)
    requires ValidLayout(l) && Holds(l, d.banks, base, ChunkCount(l.unit, |value|))
    requires Offset(l.unit, ChunkCount(l.unit, |value|)) <= into.Length
    modifies d, into
    ensures |value| <= into.Length && into[..|value|] == value
    ensures OnlyValueChanged(l, base, ChunkCount(l.unit, |value|), old(d.banks), d.banks)
  {
    var units := ChunkCount(l.unit, |value|);
    ChunkCountIsCeiling(l.unit, |value|);
    OffsetIsProduct(l.unit, units);
    WriteBanks(d, l, base, value);
    ChangesKeepHeap(l, base, units, old(d.banks), d.banks);
    forall v: nat | v < units ensures PageWritten(l, d.banks, base, value, v) {
      assert BankOf(l, base, v) < l.banks;
    }
    WrittenGathers(l, d.banks, base, value, units);
    ReadAll(d, l, base, units, into);
  }

  // ----- the double-read guard -----

  /** `kValueReadMaxMismatches`. */
  const MAX_MISMATCHES: nat := 101

  /** `memcmp` of the first `n` bytes finds no difference. */
  predicate Same(s: seq<byte>, t: seq<byte>, n: nat)
    requires n <= |s| && n <= |t|
  {
    s[..n] == t[..n]
  }

  ghost predicate Agree(pass: nat -> seq<byte>, n: nat, k: nat)
    requires k >= 1 && n <= |pass(k)| && n <= |pass(k - 1)|
  {
    Same(pass(k - 1), pass(k), n)
  }

  method CopyFront(dst: array<byte>, s: seq<byte>)
    requires |s| <= dst.Length
    modifies dst
    ensures dst[..|s|] == s && dst[|s|..] == old(dst[|s|..])
  {
    CopyInto(dst, 0, s);
  }

  /**
    Reads until two passes running agree on the value's bytes. Pass `i` returns `pass(i)`, whatever device memory
    does meanwhile; `passes` is how many were made.
  */
  method GuardedRead(pass: nat -> seq<byte>, size: nat, totalLen: nat, dst: array<byte>) returns (passes: nat)
    requires forall i :: |pass(i)| == size
    requires totalLen <= size <= dst.Length
    modifies dst
    ensures 2 <= passes <= MAX_MISMATCHES + 1
    ensures Same(dst[..size], pass(passes - 1), totalLen) && dst[size..] == old(dst[size..])
    ensures forall k | 1 <= k < passes - 1 :: !Agree(pass, totalLen, k)
    ensures Agree(pass, totalLen, passes - 1) || passes == MAX_MISMATCHES + 1
    ensures Agree(pass, totalLen, 1) ==> passes == 2 && dst[..size] == pass(0)
  {
    CopyFront(dst, pass(0));
    passes := 1;
    while true
      invariant 1 <= passes <= MAX_MISMATCHES
      invariant dst[..size] == pass(passes - 1) && dst[size..] == old(dst[size..])
      invariant forall k | 1 <= k < passes :: !Agree(pass, totalLen, k)
      decreases MAX_MISMATCHES - passes
    {
      var other := pass(passes);
      passes := passes + 1;
      if Same(dst[..size], other, totalLen) {
        break;
      }
      CopyFront(dst, other);
      if passes > MAX_MISMATCHES {
        break;
      }
    }
  }
}
