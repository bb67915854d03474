/** The free list of the host-value pool: an ordered interval map from unit offset to unit count. */
module FreeExtents {
  import opened Words

  datatype Extent = Extent(start: nat, len: nat)

  /** The ordered map `pool_free_`, as its entries in iteration order. */
  type FreeList = seq<Extent>

  function End(e: Extent): nat {
    e.start + e.len
  }

  /**
    The representation promise: extents are nonempty, inside the pool, ordered, disjoint and never adjacent.
    `lo` is the least unit the first extent may start at.
  */
  ghost predicate CanonicalFrom(f: FreeList, lo: nat, total: nat) {
    f == [] || (f[0].len > 0 && lo <= f[0].start && End(f[0]) <= total
                && CanonicalFrom(f[1..], End(f[0]) + 1, total))
  }

  ghost predicate Canonical(f: FreeList, total: nat) {
    CanonicalFrom(f, 0, total)
  }

  /** The bitmap the free list stands for. */
  ghost predicate FreeUnit(f: FreeList, u: int) {
    f != [] && (f[0].start <= u < End(f[0]) || FreeUnit(f[1..], u))
  }

  ghost predicate FreeRun(f: FreeList, u: int, n: nat) {
    forall v | u <= v < u + n :: FreeUnit(f, v)
  }

  ghost predicate NoFreeUnit(f: FreeList, u: int, n: nat) {
    forall v | u <= v < u + n :: !FreeUnit(f, v)
  }

  ghost predicate SameUnits(f: FreeList, g: FreeList) {
    forall u :: FreeUnit(f, u) == FreeUnit(g, u)
  }

  function Whole(total: nat): FreeList {
    if total == 0 then [] else [Extent(0, total)]
  }

  // ----- pool_alloc -----

  /** What remains of the extent an allocation of `units` is carved from. */
  function Leftover(e: Extent, units: nat): FreeList
    requires units <= e.len
  {
    if e.len > units then [Extent(e.start + units, e.len - units)] else []
  }

  /** First fit, walking the extents in order. */
  function FirstFit(f: FreeList, units: nat): (Option<nat>, FreeList) {
    if f == [] then (None, [])
    else if f[0].len >= units then (Some(f[0].start), Leftover(f[0], units) + f[1..])
    else
      var (r, rest) := FirstFit(f[1..], units);
      (r, [f[0]] + rest)
  }

  function Alloc(f: FreeList, units: nat): (Option<nat>, FreeList) {
    if units == 0 then (None, f) else FirstFit(f, units)
  }

  // ----- pool_release -----

  datatype ReleaseOutcome = Released | OutsidePool | OverlapsNext | OverlapsPrevious

  /** Index of the first extent starting at or after `unit`, or `|f|`. */
  function LowerBound(f: FreeList, unit: nat): (k: nat)
    ensures k <= |f|
    ensures forall i | 0 <= i < k :: f[i].start < unit
    ensures k < |f| ==> f[k].start >= unit
  {
    if f == [] || f[0].start >= unit then 0 else 1 + LowerBound(f[1..], unit)
  }

  /** Puts `[unit, unit + len)` between `below` and `above`, merging it with the end of `below` when they touch. */
  function Attach(below: FreeList, unit: nat, len: nat, above: FreeList): (ReleaseOutcome, FreeList) {
    if below == [] then (Released, [Extent(unit, len)] + above)
    else
      var front, last := below[..|below| - 1], below[|below| - 1];
      if End(last) > unit then (OverlapsPrevious, below + above)
      else if End(last) == unit then (Released, front + [Extent(last.start, last.len + len)] + above)
      else (Released, below + [Extent(unit, len)] + above)
  }

  /** The entry that starts exactly at `end`, taken off the front of `above`: its length and what is left. */
  function Absorb(above: FreeList, end: nat): (nat, FreeList) {
    if above != [] && above[0].start == end then (above[0].len, above[1..]) else (0, above)
  }

  predicate Fits(total: u32, unit: u32, units: u32) {
    AddWord(unit, units) <= total && AddWord(unit, units) >= unit
  }

  /** The statements of `pool_release` in order, with the list each exit leaves behind. */
  function Release(f: FreeList, total: u32, unit: u32, units: u32): (ReleaseOutcome, FreeList) {
    if units == 0 then (Released, f)
    else if !Fits(total, unit, units) then (OutsidePool, f)
    else
      var k := LowerBound(f, unit);
      if k < |f| && f[k].start < unit + units then (OverlapsNext, f)
      else
        var (extra, rest) := Absorb(f[k..], unit + units);
        Attach(f[..k], unit, units + extra, rest)
  }

  // ----- algebra of the two views -----

  lemma {:induction false} UnitsConcat(f: FreeList, g: FreeList, u: int)
    ensures FreeUnit(f + g, u) == (FreeUnit(f, u) || FreeUnit(g, u))
  {
    if f == [] {
      assert f + g == g;
    } else {
      assert (f + g)[1..] == f[1..] + g;
      UnitsConcat(f[1..], g, u);
    }
  }

  /** The least start the extent after `f` may have. */
  ghost function Floor(f: FreeList, lo: nat): nat {
    if f == [] then lo else End(f[|f| - 1]) + 1
  }

  lemma {:induction false} CanonicalConcat(f: FreeList, g: FreeList, lo: nat, total: nat)
    ensures CanonicalFrom(f + g, lo, total) == (CanonicalFrom(f, lo, total) && CanonicalFrom(g, Floor(f, lo), total))
  {
    if f == [] {
      assert f + g == g;
    } else {
      assert (f + g)[1..] == f[1..] + g;
      CanonicalConcat(f[1..], g, End(f[0]) + 1, total);
      assert Floor(f[1..], End(f[0]) + 1) == Floor(f, lo);
    }
  }

  lemma {:induction false} UnitsInBounds(f: FreeList, lo: nat, total: nat, u: int)
    requires CanonicalFrom(f, lo, total) && FreeUnit(f, u)
    ensures lo <= u < total && u + 1 < Floor(f, lo)
  {
    if !(f[0].start <= u < End(f[0])) {
      UnitsInBounds(f[1..], End(f[0]) + 1, total, u);
    } else if |f| > 1 {
      LastEndsLater(f, lo, total);
    }
  }

  lemma {:induction false} LastEndsLater(f: FreeList, lo: nat, total: nat)
    requires CanonicalFrom(f, lo, total) && f != []
    ensures End(f[0]) <= End(f[|f| - 1]) <= total
  {
    if |f| > 1 {
      LastEndsLater(f[1..], End(f[0]) + 1, total);
    }
  }

  lemma {:induction false} RaiseFloor(f: FreeList, lo: nat, lo': nat, total: nat)
    requires CanonicalFrom(f, lo, total) && (f == [] || lo' <= f[0].start)
    ensures CanonicalFrom(f, lo', total)
  {
  }

  /** The walk passes over extents that are too short and stops at the first that is not. */
  lemma {:induction false} SkipShort(f: FreeList, i: nat, units: nat)
    requires i <= |f| && (forall j | 0 <= j < i :: f[j].len < units) && (i < |f| ==> f[i].len >= units)
    ensures i == |f| ==> FirstFit(f, units) == (None, f)
    ensures i < |f| ==> FirstFit(f, units) == (Some(f[i].start), f[..i] + Leftover(f[i], units) + f[i + 1..])
  {
    if i > 0 {
      var tail := f[1..];
      SkipShort(tail, i - 1, units);
      if i < |f| {
        var rest := tail[..i - 1] + Leftover(f[i], units) + tail[i..];
        assert [f[0]] + rest == f[..i] + Leftover(f[i], units) + f[i + 1..];
      } else {
        assert [f[0]] + tail == f;
      }
    } else if f != [] {
      assert f[..0] + Leftover(f[0], units) == Leftover(f[0], units);
    }
  }

  // ----- pool_alloc on the bitmap -----

  lemma {:induction false} FirstFitUnits(f: FreeList, lo: nat, total: nat, units: nat)
    requires CanonicalFrom(f, lo, total) && units > 0
    ensures var (r, g) := FirstFit(f, units);
            && CanonicalFrom(g, lo, total)
            && (r.None? ==> g == f)
            && (r.Some? ==> FreeRun(f, r.value, units) && lo <= r.value && r.value + units <= total)
            && (r.Some? ==> forall u :: FreeUnit(g, u) == (FreeUnit(f, u) && !(r.value <= u < r.value + units)))
  {
    if f != [] {
      var tail := f[1..];
      if f[0].len >= units {
        var left := Leftover(f[0], units);
        CanonicalConcat(left, tail, lo, total);
        forall u ensures FreeUnit(left + tail, u) == (FreeUnit(f, u) && !(f[0].start <= u < f[0].start + units)) {
          UnitsConcat(left, tail, u);
          if FreeUnit(tail, u) { UnitsInBounds(tail, End(f[0]) + 1, total, u); }
        }
      } else {
        FirstFitUnits(tail, End(f[0]) + 1, total, units);
        var (r, rest) := FirstFit(tail, units);
        assert ([f[0]] + rest)[1..] == rest;
        assert r.None? ==> [f[0]] + rest == f;
      }
    }
  }

  /** Because extents are maximal, no run of `units` starts before the first extent that long. */
  lemma {:induction false} FirstFitLeast(f: FreeList, lo: nat, total: nat, units: nat, v: int)
    requires CanonicalFrom(f, lo, total) && units > 0 && FreeRun(f, v, units)
    ensures FirstFit(f, units).0.Some? && FirstFit(f, units).0.value <= v
  {
    assert FreeUnit(f, v);
    UnitsInBounds(f, lo, total, v);
    var tail := f[1..];
    if f[0].len >= units {
      if FreeUnit(tail, v) { UnitsInBounds(tail, End(f[0]) + 1, total, v); }
    } else {
      if FreeUnit(tail, v) { UnitsInBounds(tail, End(f[0]) + 1, total, v); }
      if v <= End(f[0]) {
        assert v <= End(f[0]) < v + units;
        assert FreeUnit(f, End(f[0]));
        UnitsInBounds(tail, End(f[0]) + 1, total, End(f[0]));
      }
      assert FreeRun(tail, v, units) by {
        forall w | v <= w < v + units ensures FreeUnit(tail, w) { assert FreeUnit(f, w); }
      }
      FirstFitLeast(tail, End(f[0]) + 1, total, units, v);
    }
  }

  /** `pool_alloc` on the bitmap: the least run of `units` free units, and a refusal only when there is none. */
  lemma AllocFindsLeastRun(f: FreeList, total: nat, units: nat)
    requires Canonical(f, total) && units > 0
    ensures var (r, _) := Alloc(f, units);
            && (r.Some? ==> FreeRun(f, r.value, units) && r.value + units <= total)
            && (r.Some? ==> forall v: int | FreeRun(f, v, units) :: r.value <= v)
            && (r.None? <==> forall v: int :: !FreeRun(f, v, units))
  {
    FirstFitUnits(f, 0, total, units);
    forall v: int | FreeRun(f, v, units)
      ensures FirstFit(f, units).0.Some? && FirstFit(f, units).0.value <= v
    {
      FirstFitLeast(f, 0, total, units, v);
    }
  }

  /** What is left after an allocation: exactly the run is gone, and the list stays canonical. */
  lemma AllocRemovesTheRun(f: FreeList, total: nat, units: nat)
    requires Canonical(f, total) && units > 0
    ensures var (r, g) := Alloc(f, units);
            && Canonical(g, total)
            && (r.None? ==> g == f)
            && (r.Some? ==> forall u :: FreeUnit(g, u) == (FreeUnit(f, u) && !(r.value <= u < r.value + units)))
  {
    FirstFitUnits(f, 0, total, units);
  }

  // ----- pool_release on the bitmap -----

  lemma LastUnits(f: FreeList, u: int)
    requires f != []
    ensures var front, last := f[..|f| - 1], f[|f| - 1];
            && f == front + [last]
            && FreeUnit(f, u) == (FreeUnit(front, u) || last.start <= u < End(last))
  {
    var front, last := f[..|f| - 1], f[|f| - 1];
    assert f == front + [last];
    UnitsConcat(front, [last], u);
  }

  lemma ThreeUnits(a: FreeList, e: Extent, b: FreeList, u: int)
    ensures FreeUnit(a + [e] + b, u) == (FreeUnit(a, u) || e.start <= u < End(e) || FreeUnit(b, u))
  {
    UnitsConcat(a + [e], b, u);
    UnitsConcat(a, [e], u);
  }

  lemma ThreeCanonical(a: FreeList, e: Extent, b: FreeList, total: nat)
    requires Canonical(a, total) && CanonicalFrom(b, End(e) + 1, total)
    requires e.len > 0 && End(e) <= total && Floor(a, 0) <= e.start
    ensures Canonical(a + [e] + b, total)
  {
    CanonicalConcat(a, [e], 0, total);
    CanonicalConcat(a + [e], b, 0, total);
  }

  lemma SplitCanonical(f: FreeList, k: nat, total: nat)
    requires Canonical(f, total) && k <= |f|
    ensures f == f[..k] + f[k..] && Canonical(f[..k], total) && CanonicalFrom(f[k..], Floor(f[..k], 0), total)
  {
    assert f == f[..k] + f[k..];
    CanonicalConcat(f[..k], f[k..], 0, total);
  }

  /** `Attach` accepts exactly when `below` ends at or before `unit`, and then adds exactly the run. */
  lemma AttachAddsTheRun(below: FreeList, unit: nat, len: nat, above: FreeList, total: nat)
    requires Canonical(below, total) && len > 0 && unit + len <= total
    requires CanonicalFrom(above, unit + len + 1, total)
    ensures var (o, g) := Attach(below, unit, len, above);
            && (o.Released? <==> Floor(below, 0) <= unit + 1)
            && (o.Released? ==> Canonical(g, total))
            && (o.Released? ==> forall u ::
                  FreeUnit(g, u) == (FreeUnit(below, u) || unit <= u < unit + len || FreeUnit(above, u)))
  {
    var (o, g) := Attach(below, unit, len, above);
    if below != [] && o.Released? {
      var front, last := below[..|below| - 1], below[|below| - 1];
      SplitCanonical(below, |below| - 1, total);
      if End(last) == unit {
        ThreeCanonical(front, Extent(last.start, last.len + len), above, total);
      } else {
        ThreeCanonical(below, Extent(unit, len), above, total);
      }
      forall u ensures FreeUnit(g, u) == (FreeUnit(below, u) || unit <= u < unit + len || FreeUnit(above, u)) {
        LastUnits(below, u);
        ThreeUnits(front, Extent(last.start, last.len + len), above, u);
        ThreeUnits(below, Extent(unit, len), above, u);
      }
    } else if below == [] {
      ThreeCanonical([], Extent(unit, len), above, total);
      assert g == [] + [Extent(unit, len)] + above;
      forall u ensures FreeUnit(g, u) == (FreeUnit(below, u) || unit <= u < unit + len || FreeUnit(above, u)) {
        ThreeUnits([], Extent(unit, len), above, u);
      }
    }
  }

  lemma AbsorbUnits(above: FreeList, unit: nat, end: nat, total: nat)
    requires CanonicalFrom(above, end, total) && unit < end <= total
    ensures var (extra, rest) := Absorb(above, end);
            && CanonicalFrom(rest, end + extra + 1, total) && end + extra <= total
            && forall u :: (unit <= u < end + extra || FreeUnit(rest, u)) == (unit <= u < end || FreeUnit(above, u))
  {
  }

  /** In range, `pool_release` accepts exactly when neither neighbour of the run reaches into it. */
  lemma ReleaseInRange(f: FreeList, total: u32, unit: u32, units: u32, k: nat)
    requires Canonical(f, total) && units > 0 && unit + units <= total && k == LowerBound(f, unit)
    requires k < |f| ==> unit + units <= f[k].start
    ensures var (o, g) := Release(f, total, unit, units);
            && (o.Released? <==> Floor(f[..k], 0) <= unit + 1)
            && (o.Released? ==> Canonical(g, total))
            && (o.Released? ==> forall u :: FreeUnit(g, u) == (FreeUnit(f, u) || unit <= u < unit + units))
  {
    var below, above := f[..k], f[k..];
    SplitCanonical(f, k, total);
    RaiseFloor(above, Floor(below, 0), unit + units, total);
    AbsorbUnits(above, unit, unit + units, total);
    var (extra, rest) := Absorb(above, unit + units);
    AttachAddsTheRun(below, unit, units + extra, rest, total);
    forall u ensures FreeUnit(f, u) == (FreeUnit(below, u) || FreeUnit(above, u)) {
      UnitsConcat(below, above, u);
    }
  }

  /** The neighbours decide: no unit of the run is free exactly when both keep out of it. */
  lemma NeighboursDecide(f: FreeList, total: nat, unit: nat, units: nat)
    requires Canonical(f, total) && units > 0
    ensures var k := LowerBound(f, unit);
            NoFreeUnit(f, unit, units) <==>
            (Floor(f[..k], 0) <= unit + 1 && (k < |f| ==> unit + units <= f[k].start))
  {
    var k := LowerBound(f, unit);
    var below, above := f[..k], f[k..];
    SplitCanonical(f, k, total);
    if k < |f| && f[k].start < unit + units {
      UnitsConcat(below, above, f[k].start);
    } else if k > 0 && End(f[k - 1]) > unit {
      UnitsConcat(below, above, unit);
      LastUnits(below, unit);
    } else {
      forall u | unit <= u < unit + units ensures !FreeUnit(f, u) {
        UnitsConcat(below, above, u);
        if FreeUnit(below, u) { UnitsInBounds(below, 0, total, u); }
        if FreeUnit(above, u) {
          RaiseFloor(above, Floor(below, 0), above[0].start, total);
          UnitsInBounds(above, above[0].start, total, u);
        }
      }
    }
  }

  /**
    `pool_release` on the bitmap: it accepts exactly the in-range runs with no free unit, adds exactly that
    run, and keeps the list canonical.
  */
  lemma ReleaseAddsTheRun(f: FreeList, total: u32, unit: u32, units: u32)
    requires Canonical(f, total) && units > 0
    ensures var (o, g) := Release(f, total, unit, units);
            && (o.Released? <==> unit + units <= total && NoFreeUnit(f, unit, units))
            && (o.Released? ==> Canonical(g, total))
            && (o.Released? ==> forall u :: FreeUnit(g, u) == (FreeUnit(f, u) || unit <= u < unit + units))
  {
    if unit + units <= total {
      NeighboursDecide(f, total, unit, units);
      var k := LowerBound(f, unit);
      if k < |f| ==> unit + units <= f[k].start {
        ReleaseInRange(f, total, unit, units, k);
      }
    }
  }

  lemma AttachRefused(below: FreeList, unit: nat, len: nat, above: FreeList)
    requires !Attach(below, unit, len, above).0.Released?
    ensures Attach(below, unit, len, above) == (OverlapsPrevious, below + above)
  {
  }

  /** The free extent right after the run, which `pool_release` erases before it looks at the previous one. */
  predicate ErasesNext(f: FreeList, total: u32, unit: u32, units: u32) {
    var k := LowerBound(f, unit);
    k < |f| && f[k].start == unit + units && Fits(total, unit, units)
  }

  /**
    A refused release leaves the list alone, except that an overlap with the previous extent is found only
    after an adjacent next extent has been erased: then, and only then, that extent is lost.
  */
  lemma RefusedReleaseMayLoseNext(f: FreeList, total: u32, unit: u32, units: u32)
    requires units > 0 && !Release(f, total, unit, units).0.Released?
    ensures var (o, g) := Release(f, total, unit, units);
            var k := LowerBound(f, unit);
            && (ErasesNext(f, total, unit, units) ==> o == OverlapsPrevious && g == f[..k] + f[k + 1..] && g != f)
            && (!ErasesNext(f, total, unit, units) ==> g == f)
  {
    var k := LowerBound(f, unit);
    if Fits(total, unit, units) && (k < |f| ==> unit + units <= f[k].start) {
      var (extra, rest) := Absorb(f[k..], unit + units);
      AttachRefused(f[..k], unit, units + extra, rest);
      if ErasesNext(f, total, unit, units) {
        assert rest == f[k + 1..];
        assert |f[..k] + f[k + 1..]| == |f| - 1;
      } else {
        assert f[..k] + f[k..] == f;
      }
    }
  }

  /** Refusing to release units 1 and 2 of this list loses units 3 and 4. */
  lemma RefusedReleaseWitness()
    ensures Canonical([Extent(0, 2), Extent(3, 2)], 8)
    ensures Release([Extent(0, 2), Extent(3, 2)], 8, 1, 2) == (OverlapsPrevious, [Extent(0, 2)])
  {
    var f := [Extent(0, 2), Extent(3, 2)];
    assert f[1..] == [Extent(3, 2)];
    assert LowerBound(f, 1) == 1;
    RefusedReleaseMayLoseNext(f, 8, 1, 2);
    assert f[..1] + f[2..] == [Extent(0, 2)];
  }

  // ----- canonicity -----

  lemma FirstUnits(f: FreeList, total: nat, lo: nat, u: int)
    requires CanonicalFrom(f, lo, total) && f != []
    ensures FreeUnit(f[1..], u) == (FreeUnit(f, u) && u > End(f[0]))
    ensures FreeUnit(f, u) ==> f[0].start <= u
    ensures !FreeUnit(f, End(f[0])) && FreeUnit(f, f[0].start)
  {
    if FreeUnit(f[1..], u) { UnitsInBounds(f[1..], End(f[0]) + 1, total, u); }
    if FreeUnit(f[1..], End(f[0])) { UnitsInBounds(f[1..], End(f[0]) + 1, total, End(f[0])); }
  }

  lemma FirstExtent(f: FreeList, g: FreeList, total: nat, lo: nat)
    requires CanonicalFrom(f, lo, total) && CanonicalFrom(g, lo, total) && SameUnits(f, g) && f != [] && g != []
    ensures f[0] == g[0]
  {
    FirstUnits(f, total, lo, g[0].start);
    FirstUnits(g, total, lo, f[0].start);
    assert FreeUnit(f, g[0].start) && FreeUnit(g, f[0].start);
    assert FreeUnit(f, End(g[0])) == FreeUnit(g, End(g[0]));
    assert FreeUnit(f, End(f[0])) == FreeUnit(g, End(f[0]));
  }

  /** A canonical list is determined by its set of free units. */
  lemma {:induction false} CanonicalIsUnique(f: FreeList, g: FreeList, lo: nat, total: nat)
    requires CanonicalFrom(f, lo, total) && CanonicalFrom(g, lo, total) && SameUnits(f, g)
    ensures f == g
  {
    if f == [] || g == [] {
      if f != [] { FirstUnits(f, total, lo, 0); }
      if g != [] { FirstUnits(g, total, lo, 0); }
    } else {
      FirstExtent(f, g, total, lo);
      forall u ensures FreeUnit(f[1..], u) == FreeUnit(g[1..], u) {
        FirstUnits(f, total, lo, u);
        FirstUnits(g, total, lo, u);
      }
      CanonicalIsUnique(f[1..], g[1..], End(f[0]) + 1, total);
      assert f == [f[0]] + f[1..] && g == [g[0]] + g[1..];
    }
  }

  /** Releasing what was just allocated restores the identical free list. */
  lemma AllocThenReleaseRestores(f: FreeList, total: u32, units: u32)
    requires Canonical(f, total) && units > 0 && Alloc(f, units).0.Some?
    ensures var (r, g) := Alloc(f, units);
            r.value + units <= total && Release(g, total, r.value, units) == (Released, f)
  {
    var (r, g) := Alloc(f, units);
    AllocFindsLeastRun(f, total, units);
    AllocRemovesTheRun(f, total, units);
    ReleaseAddsTheRun(g, total, r.value, units);
    CanonicalIsUnique(Release(g, total, r.value, units).1, f, 0, total);
  }

  // ----- releasing everything, in any order -----

  ghost predicate InPool(total: nat, out: seq<Extent>) {
    forall i | 0 <= i < |out| :: out[i].len > 0 && End(out[i]) <= total
  }

  ghost function ReleaseAll(f: FreeList, total: u32, out: seq<Extent>): FreeList
    requires InPool(total, out)
    decreases |out|
  {
    if out == [] then f
    else ReleaseAll(Release(f, total, out[0].start, out[0].len).1, total, out[1..])
  }

  /** No two extents of `out` share a unit. */
  ghost predicate Apart(out: seq<Extent>) {
    out != [] ==> NoFreeUnit(out[1..], out[0].start, out[0].len) && Apart(out[1..])
  }

  lemma WholeUnits(total: nat)
    ensures Canonical(Whole(total), total)
    ensures forall u :: FreeUnit(Whole(total), u) == (0 <= u < total)
  {
    assert total > 0 ==> Whole(total)[1..] == [];
  }

  /** Whatever order the outstanding extents come back in, the pool ends as one extent. */
  lemma {:induction false} ReleaseAllRestoresWhole(f: FreeList, total: u32, out: seq<Extent>)
    requires Canonical(f, total) && InPool(total, out) && Apart(out)
    requires forall u | 0 <= u < total :: FreeUnit(f, u) == !FreeUnit(out, u)
    ensures ReleaseAll(f, total, out) == Whole(total)
    decreases |out|
  {
    if out == [] {
      WholeUnits(total);
      forall u ensures FreeUnit(f, u) == FreeUnit(Whole(total), u) {
        if FreeUnit(f, u) { UnitsInBounds(f, 0, total, u); }
      }
      CanonicalIsUnique(f, Whole(total), 0, total);
    } else {
      var e := out[0];
      var g := Release(f, total, e.start, e.len).1;
      assert NoFreeUnit(f, e.start, e.len) by {
        forall u | e.start <= u < End(e) ensures !FreeUnit(f, u) { assert FreeUnit(out, u); }
      }
      ReleaseAddsTheRun(f, total, e.start, e.len);
      ReleaseAllRestoresWhole(g, total, out[1..]);
    }
  }

  // ----- unit accounting -----

  /** The free-unit sum that `close` computes. */
  function Total(f: FreeList): nat {
    if f == [] then 0 else f[0].len + Total(f[1..])
  }

  lemma {:induction false} TotalConcat(f: FreeList, g: FreeList)
    ensures Total(f + g) == Total(f) + Total(g)
  {
    if f == [] {
      assert f + g == g;
    } else {
      assert (f + g)[1..] == f[1..] + g;
      TotalConcat(f[1..], g);
    }
  }

  lemma {:induction false} TotalFits(f: FreeList, lo: nat, total: nat)
    requires CanonicalFrom(f, lo, total)
    ensures Total(f) == 0 || Total(f) <= total - lo
  {
    if f != [] { TotalFits(f[1..], End(f[0]) + 1, total); }
  }

  /** A free list holding every unit is the single whole extent. */
  lemma FullTotalIsWhole(f: FreeList, total: nat)
    requires Canonical(f, total) && Total(f) == total
    ensures f == Whole(total)
  {
    if f != [] {
      TotalFits(f[1..], End(f[0]) + 1, total);
      assert f[1..] == [];
      assert f == [f[0]];
    }
  }

  lemma {:induction false} FirstFitTotal(f: FreeList, units: nat)
    ensures var (r, g) := FirstFit(f, units); Total(g) + (if r.Some? then units else 0) == Total(f)
  {
    if f != [] {
      if f[0].len >= units {
        TotalConcat(Leftover(f[0], units), f[1..]);
      } else {
        FirstFitTotal(f[1..], units);
        TotalConcat([f[0]], FirstFit(f[1..], units).1);
      }
    }
  }

  /** An allocation takes exactly `units` out of the free-unit sum. */
  lemma AllocTotal(f: FreeList, units: nat)
    ensures var (r, g) := Alloc(f, units); Total(g) + (if r.Some? then units else 0) == Total(f)
  {
    if units > 0 { FirstFitTotal(f, units); }
  }

  lemma AttachTotal(below: FreeList, unit: nat, len: nat, above: FreeList)
    requires Attach(below, unit, len, above).0.Released?
    ensures Total(Attach(below, unit, len, above).1) == Total(below) + len + Total(above)
  {
    if below == [] {
      TotalConcat([Extent(unit, len)], above);
    } else {
      var front, last := below[..|below| - 1], below[|below| - 1];
      assert below == front + [last];
      TotalConcat(front, [last]);
      var merged, alone := [Extent(last.start, last.len + len)], [Extent(unit, len)];
      TotalConcat(front, merged);
      TotalConcat(front + merged, above);
      TotalConcat(below, alone);
      TotalConcat(below + alone, above);
    }
  }

  /** An accepted release puts exactly `units` back. */
  lemma ReleaseTotal(f: FreeList, total: u32, unit: u32, units: u32)
    requires Release(f, total, unit, units).0.Released?
    ensures Total(Release(f, total, unit, units).1) == Total(f) + units
  {
    if units != 0 {
      var k := LowerBound(f, unit);
      var below, above := f[..k], f[k..];
      assert f == below + above;
      TotalConcat(below, above);
      var (extra, rest) := Absorb(above, unit + units);
      AttachTotal(below, unit, units + extra, rest);
    }
  }
}

/** `pool_alloc` and `pool_release` in place, on the fields they mutate. */
module HostPool {
  import opened Words
  import opened FreeExtents

  class Pool {
    /** `pool_host_ptr_ != nullptr`. */
    var mapped: bool
    var total: u32
    var free: FreeList

    ghost predicate Valid() reads this {
      Canonical(free, total)
    }

    constructor (units: u32)
      ensures Valid() && mapped == (units > 0) && total == units && free == Whole(units)
    {
      mapped := units > 0;
      total := units;
      free := if units > 0 then [Extent(0, units)] else [];
      new;
      WholeUnits(units);
    }

    method PoolAlloc(units: u32) returns (r: Option<nat>)
      requires Valid()
      modifies this`free
      ensures Valid()
      ensures (r, free) == if mapped then Alloc(old(free), units) else (None, old(free))
    {
      if !mapped || units == 0 {
        return None;
      }
      var i := 0;
      while i < |free| && free[i].len < units
        invariant 0 <= i <= |free|
        invariant forall j | 0 <= j < i :: free[j].len < units
      {
        i := i + 1;
      }
      AllocRemovesTheRun(free, total, units);
      SkipShort(free, i, units);
      if i == |free| {
        return None;
      }
      var unit := free[i].start;
      var leftover := free[i].len - units;
      free := free[..i] + free[i + 1..];
      if leftover > 0 {
        free := free[..i] + [Extent(unit + units, leftover)] + free[i..];
      }
      assert free == old(free)[..i] + Leftover(old(free)[i], units) + old(free)[i + 1..];
      return Some(unit);
    }

    method PoolRelease(unit: u32, units: u32) returns (o: ReleaseOutcome)
      requires Valid()
      modifies this`free
      ensures (o, free) == Release(old(free), total, unit, units)
      ensures o.Released? ==> Valid()
    {
      if units == 0 {
        return Released;
      }
      ReleaseAddsTheRun(free, total, unit, units);
      if !Fits(total, unit, units) {
        return OutsidePool;
      }
      var next := 0;
      while next < |free| && free[next].start < unit
        invariant 0 <= next <= |free|
        invariant forall j | 0 <= j < next :: free[j].start < unit
      {
        next := next + 1;
      }
      assert next == LowerBound(free, unit);
      var len := units;
      if next < |free| && free[next].start < unit + units {
        return OverlapsNext;
      }
      ghost var (extra, above) := Absorb(free[next..], unit + units);
      if next < |free| && free[next].start == unit + units {
        len := len + free[next].len;
        free := free[..next] + free[next + 1..];
      }
      assert free[..next] == old(free)[..next] && free[next..] == above;
      o := AttachBefore(next, unit, len);
    }

    /** The tail of `pool_release`: `next` is the entry after the run, and every overlap with it is ruled out. */
    method AttachBefore(next: nat, unit: nat, len: nat) returns (o: ReleaseOutcome)
      requires next <= |free|
      modifies this`free
      ensures (o, free) == Attach(old(free)[..next], unit, len, old(free)[next..])
    {
      ghost var below, above := free[..next], free[next..];
      assert free == below + above;
      if next > 0 {
        var prev := free[next - 1];
        if prev.start + prev.len > unit {
          return OverlapsPrevious;
        }
        if prev.start + prev.len == unit {
          free := free[next - 1 := Extent(prev.start, prev.len + len)];
          assert free == below[..next - 1] + [Extent(prev.start, prev.len + len)] + above;
          return Released;
        }
      }
      free := free[..next] + [Extent(unit, len)] + free[next..];
      assert next == 0 ==> free == [Extent(unit, len)] + above;
      return Released;
    }
  }
}
