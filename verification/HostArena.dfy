/** The endpoint-shared host arena, and how one worker group lays out its slice of it. */
module HostArena {
  import opened Words
  import BankLayout
  import TierSpec

  const SYSTEM_PAGE: nat := 4096
  const HUGE_PAGE: nat := 0x4000_0000
  const PROMOTE_COMPLETION_BYTES: nat := 64
  const GET_COMPLETION_BYTES: nat := 64
  const GET_INGRESS_BYTES: nat := 448
  const POOL_META_BYTES: nat := 32
  const MAX_WORKER_GROUPS: nat := 8
  /** The largest configurable value: 2^19 units. */
  const MAX_VALUE_CAP: nat := 524288 * UNIT_BYTES

  datatype Failure = ControlTooLarge | LayoutMismatch | SliceOutsideArena | CrossesFourGiB

  datatype Result<T> = Ok(value: T) | Failed(why: Failure)

  /** `huge` tells the one-hugepage arena from the compact staging-only fallback. */
  datatype Arena = Arena(sliceBytes: nat, controlBytes: nat, groups: nat, mappingBytes: nat, huge: bool)

  /** What one shard asks for. `nocLow` is the low word of the mapping's NoC address, if the device can use it. */
  datatype Shard = Shard(maxValue: nat, maxKeys: nat, groups: nat, group: nat, nocBase: Option<nat>,
      poolCap: Option<nat>)

  ghost predicate ValidShard(s: Shard) {
    0 < s.maxValue <= MAX_VALUE_CAP && 0 < s.groups <= MAX_WORKER_GROUPS
  }

  /** Offsets within the slice. */
  datatype Layout = Layout(
    sliceOffset: nat, sliceBytes: nat, stageBytes: nat, completion: nat, getCompletion: nat, getIngress: nat,
    poolMeta: nat, poolOff: nat, poolUnits: nat, noc: bool)

  // ----- the arithmetic -----

  function PageAlignDown(bytes: nat): nat {
    bytes / SYSTEM_PAGE * SYSTEM_PAGE
  }

  function PageAlignUp(bytes: nat): nat {
    (bytes + SYSTEM_PAGE - 1) / SYSTEM_PAGE * SYSTEM_PAGE
  }

  function StageBytes(maxValue: nat): nat {
    ChunkCount(UNIT_BYTES, maxValue) * UNIT_BYTES
  }

  function PoolMetaOffset(maxValue: nat): nat {
    StageBytes(maxValue) + PROMOTE_COMPLETION_BYTES + GET_COMPLETION_BYTES + GET_INGRESS_BYTES
  }

  function ControlBytes(s: Shard): nat {
    PoolMetaOffset(s.maxValue) + s.maxKeys * POOL_META_BYTES
  }

  function ConfiguredSlice(groups: nat): nat
    requires groups > 0
  {
    PageAlignDown(HUGE_PAGE / groups)
  }

  lemma AlignBounds(bytes: nat)
    ensures PageAlignDown(bytes) <= bytes < PageAlignDown(bytes) + SYSTEM_PAGE
    ensures bytes <= PageAlignUp(bytes) < bytes + SYSTEM_PAGE
  {
  }

  /** No 32-bit addition of the layout wraps: the staging window is at most 2^19 units. */
  lemma OffsetsFitWords(maxValue: nat)
    requires 0 < maxValue <= MAX_VALUE_CAP
    ensures maxValue <= StageBytes(maxValue) <= MAX_VALUE_CAP && PoolMetaOffset(maxValue) < WORD_RANGE
  {
    ChunkCountIsCeiling(UNIT_BYTES, maxValue);
  }

  /** Eight configured slices fill the hugepage, and one more never fits. */
  lemma ConfiguredSlicesFit(groups: nat, group: nat)
    requires 0 < groups <= MAX_WORKER_GROUPS
    ensures ConfiguredSlice(groups) * group + ConfiguredSlice(groups) <= HUGE_PAGE <==> group < groups
  {
    var slice := ConfiguredSlice(groups);
    assert slice == [262144, 131072, 87381, 65536, 52428, 43690, 37449, 32768][groups - 1] * SYSTEM_PAGE;
    if group < groups { MulMono(group, groups - 1, slice); } else { MulMono(groups, group, slice); }
    assert slice * (groups - 1) + slice <= HUGE_PAGE < slice * groups + slice;
  }

  // ----- create_host_arena -----

  /** `mapped` is whether the 1 GiB hugepage can be had. */
  function CreateHostArena(slice: nat, control: nat, groups: nat, mapped: bool): Arena {
    if slice >= control && mapped then Arena(slice, control, groups, HUGE_PAGE, true)
    else Arena(PageAlignUp(control), control, groups, PageAlignUp(control) * groups, false)
  }

  /**
    The one-hugepage arena wherever a slice of it holds the control region and it can be mapped, divided evenly by
    pages; otherwise just the control regions, page by page.
  */
  ghost predicate FreshArena(a: Arena, groups: nat, control: nat, mapped: bool)
    requires groups > 0
  {
    && a.groups == groups && a.controlBytes == control && control <= a.sliceBytes && a.sliceBytes % SYSTEM_PAGE == 0
    && (a.huge <==> mapped && control <= ConfiguredSlice(groups))
    && if a.huge
       then a.mappingBytes == HUGE_PAGE && a.sliceBytes * groups <= HUGE_PAGE < (a.sliceBytes + SYSTEM_PAGE) * groups
       else a.mappingBytes == a.sliceBytes * groups && a.sliceBytes < control + SYSTEM_PAGE
  }

  lemma CreateIsFresh(groups: nat, control: nat, mapped: bool)
    requires 0 < groups <= MAX_WORKER_GROUPS
    ensures FreshArena(CreateHostArena(ConfiguredSlice(groups), control, groups, mapped), groups, control, mapped)
  {
    AlignBounds(control);
    assert ConfiguredSlice(groups) ==
           [262144, 131072, 87381, 65536, 52428, 43690, 37449, 32768][groups - 1] * SYSTEM_PAGE;
  }

  /** An arena as this endpoint's first shard made it. */
  ghost predicate Made(a: Arena) {
    && 0 < a.groups <= MAX_WORKER_GROUPS
    && exists mapped :: a == CreateHostArena(ConfiguredSlice(a.groups), a.controlBytes, a.groups, mapped)
  }

  lemma SlicesFill(slice: nat, groups: nat, group: nat)
    requires slice > 0
    ensures slice * group + slice <= slice * groups <==> group < groups
  {
    assert slice * (group + 1) == slice * group + slice;
    if group < groups { MulMono(group + 1, groups, slice); } else { MulMono(groups, group, slice); }
  }

  /** The bounds check on a worker group's slice rejects exactly the groups the arena was not made for. */
  lemma SliceCheckIsGroupCheck(a: Arena, group: nat)
    requires Made(a) && a.controlBytes > 0
    ensures a.sliceBytes * group + a.sliceBytes <= a.mappingBytes <==> group < a.groups
  {
    if a.huge {
      ConfiguredSlicesFit(a.groups, group);
    } else {
      AlignBounds(a.controlBytes);
      SlicesFill(a.sliceBytes, a.groups, group);
    }
  }

  /** Slices of different worker groups never share a byte. */
  lemma SlicesAreDisjoint(a: Arena, g: nat, h: nat)
    requires g < h
    ensures a.sliceBytes * g + a.sliceBytes <= a.sliceBytes * h
  {
    MulMono(g + 1, h, a.sliceBytes);
    assert a.sliceBytes * (g + 1) == a.sliceBytes * g + a.sliceBytes;
  }

  // ----- reserve_stage_buffer -----

  function PoolUnits(a: Arena, s: Shard): nat {
    if a.sliceBytes < ControlBytes(s) then 0
    else
      var free := a.sliceBytes - ControlBytes(s);
      (if s.poolCap.Some? then Min(free, s.poolCap.value) else free) / UNIT_BYTES
  }

  function LayoutIn(a: Arena, s: Shard): Layout {
    var stage := StageBytes(s.maxValue);
    var units := if s.nocBase.Some? then PoolUnits(a, s) else 0;
    Layout(a.sliceBytes * s.group, a.sliceBytes, stage, stage, stage + PROMOTE_COMPLETION_BYTES,
           stage + PROMOTE_COMPLETION_BYTES + GET_COMPLETION_BYTES, PoolMetaOffset(s.maxValue),
           if units > 0 then ControlBytes(s) else 0, units, s.nocBase.Some?)
  }

  /** The low 32 bits of the slice's NoC address. */
  function NocLow(a: Arena, s: Shard): nat
    requires s.nocBase.Some?
  {
    (s.nocBase.value + a.sliceBytes * s.group) % WORD_RANGE
  }

  ghost predicate Reserved(a: Arena, s: Shard, l: Layout) {
    && ValidShard(s) && Made(a) && a.groups == s.groups && a.controlBytes == ControlBytes(s) < WORD_RANGE
    && s.group < s.groups && l == LayoutIn(a, s)
  }

  /**
    The endpoint's arena registry. It holds a weak pointer: the first shard makes the arena, later ones must agree
    with it, and it goes with the last shard that holds it, so that the next one may choose another layout.
  */
  class EndpointArena {
    var arena: Option<Arena>          // what locking the weak pointer gives
    var holders: nat                  // shared pointers to it
    ghost var held: multiset<Shard>   // the shards that hold them

    ghost predicate Valid()
      reads this
    {
      && holders == |held| && (arena.Some? <==> holders > 0)
      && (arena.Some? ==> Made(arena.value) && arena.value.controlBytes > 0)
      && forall s | s in held :: Reserved(arena.value, s, LayoutIn(arena.value, s))
    }

    constructor ()
      ensures Valid() && arena == None && held == multiset{}
    {
      arena := None;
      holders := 0;
      held := multiset{};
    }

    /** Finds the endpoint's arena, or makes it; false is the layout mismatch. */
    method AcquireArena(groups: nat, control: nat, mapped: bool) returns (ok: bool)
      requires Valid() && 0 < groups <= MAX_WORKER_GROUPS && control > 0
      modifies this`arena
      ensures arena.Some? && Made(arena.value) && arena.value.controlBytes > 0
      ensures old(arena.Some?) ==> arena == old(arena)
      ensures ok == (arena.value.groups == groups && arena.value.controlBytes == control)
      ensures old(arena.None?) ==> ok && FreshArena(arena.value, groups, control, mapped)
    {
      if arena.Some? {
        return arena.value.groups == groups && arena.value.controlBytes == control;
      }
      arena := Some(CreateHostArena(PageAlignDown(HUGE_PAGE / groups), control, groups, mapped));
      CreateIsFresh(groups, control, mapped);
      assert arena.value == CreateHostArena(ConfiguredSlice(arena.value.groups), control, arena.value.groups, mapped);
      return true;
    }

    /** A shard lets its arena go; with the last one the weak pointer expires. */
    method Release(s: Shard)
      requires Valid() && s in held
      modifies this
      ensures Valid() && held == old(held) - multiset{s}
      ensures arena == if held == multiset{} then None else old(arena)
    {
      held := held - multiset{s};
      holders := holders - 1;
      if holders == 0 {
        arena := None;
      }
    }

    /** Shards that hold the arena at the same time never share a byte of it. */
    lemma HeldSlicesAreDisjoint(s: Shard, t: Shard)
      requires Valid() && s in held && t in held && s.group < t.group
      ensures var k, l := LayoutIn(arena.value, s), LayoutIn(arena.value, t);
              k.sliceOffset + k.sliceBytes <= l.sliceOffset && l.sliceOffset + l.sliceBytes <= arena.value.mappingBytes
    {
      SlicesAreDisjoint(arena.value, s.group, t.group);
      SliceCheckIsGroupCheck(arena.value, t.group);
    }

    /** The bounds check on a worker group's slice. */
    method SliceFits(a: Arena, group: nat) returns (fits: bool)
      requires Made(a) && a.controlBytes > 0
      ensures fits <==> group < a.groups
    {
      SliceCheckIsGroupCheck(a, group);
      fits := a.sliceBytes * group + a.sliceBytes <= a.mappingBytes;
    }

    /** Lays a shard's slice out, once the endpoint's arena is known to fit it. */
    method LayOutSlice(a: Arena, s: Shard) returns (r: Result<Layout>)
      requires ValidShard(s) && Made(a) && a.groups == s.groups && a.controlBytes == ControlBytes(s) < WORD_RANGE
      ensures r == if s.group >= s.groups then Failed(SliceOutsideArena)
                   else if s.nocBase.Some? && NocLow(a, s) + a.sliceBytes > WORD_RANGE then Failed(CrossesFourGiB)
                   else Ok(LayoutIn(a, s))
    {
      var offset := a.sliceBytes * s.group;
      var fits := SliceFits(a, s.group);
      if !fits {
        return Failed(SliceOutsideArena);
      }
      var stage := ChunkCount(UNIT_BYTES, s.maxValue) * UNIT_BYTES;
      var getCompletion := stage + PROMOTE_COMPLETION_BYTES;
      var getIngress := getCompletion + GET_COMPLETION_BYTES;
      var poolMeta := getIngress + GET_INGRESS_BYTES;
      if s.nocBase.None? {
        return Ok(Layout(offset, a.sliceBytes, stage, stage, getCompletion, getIngress, poolMeta, 0, 0, false));
      }
      if NocLow(a, s) + a.sliceBytes > WORD_RANGE {
        return Failed(CrossesFourGiB);
      }
      SliceHoldsControl(a);
      var poolBytes := a.sliceBytes - a.controlBytes;
      if s.poolCap.Some? {
        poolBytes := Min(poolBytes, s.poolCap.value);
      }
      var units := poolBytes / UNIT_BYTES;
      return Ok(Layout(offset, a.sliceBytes, stage, stage, getCompletion, getIngress, poolMeta,
                       if units > 0 then a.controlBytes else 0, units, true));
    }

    /** The arena a shard finds: the live one, or the one it makes. */
    ghost function Found(s: Shard, mapped: bool): Arena
      reads this
      requires s.groups > 0
    {
      if arena.Some? then arena.value
      else CreateHostArena(ConfiguredSlice(s.groups), ControlBytes(s), s.groups, mapped)
    }

    /** There is no live arena, or it was laid out as the shard asks. */
    ghost predicate Agrees(s: Shard)
      reads this
    {
      arena.Some? ==> arena.value.groups == s.groups && arena.value.controlBytes == ControlBytes(s)
    }

    /** A shard that is refused lets the arena go again. */
    method ReserveStageBuffer(s: Shard, mapped: bool) returns (r: Result<Layout>)
      requires Valid() && ValidShard(s)
      modifies this
      ensures Valid() && (old(arena.Some?) || !r.Ok? ==> arena == old(arena))
      ensures held == if r.Ok? then old(held) + multiset{s} else old(held)
      ensures r == Failed(ControlTooLarge) <==> ControlBytes(s) >= WORD_RANGE
      ensures r == Failed(LayoutMismatch) <==>
                ControlBytes(s) < WORD_RANGE && old(arena.Some?)
                && (old(arena.value.groups) != s.groups || old(arena.value.controlBytes) != ControlBytes(s))
      ensures r == Failed(SliceOutsideArena) <==> ControlBytes(s) < WORD_RANGE && old(Agrees(s)) && s.group >= s.groups
      ensures r == Failed(CrossesFourGiB) <==>
                ControlBytes(s) < WORD_RANGE && old(Agrees(s)) && s.group < s.groups && s.nocBase.Some?
                && NocLow(old(Found(s, mapped)), s) + old(Found(s, mapped)).sliceBytes > WORD_RANGE
      ensures r.Ok? ==> arena.Some? && Reserved(arena.value, s, r.value)
      ensures r.Ok? && s.nocBase.Some? ==> NocLow(arena.value, s) + arena.value.sliceBytes <= WORD_RANGE
    {
      OffsetsFitWords(s.maxValue);
      var control := ControlBytes(s);
      if control >= WORD_RANGE {
        return Failed(ControlTooLarge);
      }
      var same := AcquireArena(s.groups, control, mapped);
      if !same {
        return Failed(LayoutMismatch);
      }
      r := LayOutSlice(arena.value, s);
      if r.Ok? {
        held := held + multiset{s};
        holders := holders + 1;
      } else if holders == 0 {
        arena := None;
      }
    }
  }

  // ----- what a reserved layout guarantees -----

  /** The pool is as large as the slice, and the cap if there is one, allow; without a NoC mapping there is none. */
  lemma PoolFillsSlice(a: Arena, s: Shard, l: Layout)
    requires Reserved(a, s, l)
    ensures s.nocBase.None? ==> l.poolUnits == 0
    ensures s.nocBase.Some? ==>
              var room := l.sliceBytes - ControlBytes(s);
              var allowed := if s.poolCap.Some? && s.poolCap.value < room then s.poolCap.value else room;
              room >= 0 && l.poolUnits * UNIT_BYTES <= allowed < (l.poolUnits + 1) * UNIT_BYTES
    ensures l.stageBytes % UNIT_BYTES == 0 && l.stageBytes - UNIT_BYTES < s.maxValue <= l.stageBytes
    ensures l.noc == s.nocBase.Some? && l.sliceOffset == l.sliceBytes * s.group
  {
    SliceHoldsControl(a);
    ChunkCountIsCeiling(UNIT_BYTES, s.maxValue);
    RegionsAreDisjoint(a, s, l);
  }

  /** Staging, two completion lines, ingress slots, metadata and pool follow one another in the slice. */
  lemma RegionsAreDisjoint(a: Arena, s: Shard, l: Layout)
    requires Reserved(a, s, l)
    ensures s.maxValue <= l.stageBytes == l.completion
    ensures l.completion + PROMOTE_COMPLETION_BYTES == l.getCompletion
    ensures l.getCompletion + GET_COMPLETION_BYTES == l.getIngress && l.getIngress + GET_INGRESS_BYTES == l.poolMeta
    ensures l.poolMeta + s.maxKeys * POOL_META_BYTES == ControlBytes(s) <= l.sliceBytes
    ensures l.poolUnits > 0 ==> l.poolOff == ControlBytes(s) && l.poolOff + l.poolUnits * UNIT_BYTES <= l.sliceBytes
    ensures l.sliceOffset + l.sliceBytes <= a.mappingBytes
  {
    OffsetsFitWords(s.maxValue);
    AlignBounds(a.controlBytes);
    SliceCheckIsGroupCheck(a, s.group);
    SliceHoldsControl(a);
    assert PoolUnits(a, s) * UNIT_BYTES <= a.sliceBytes - ControlBytes(s);
  }

  lemma SliceHoldsControl(a: Arena)
    requires Made(a)
    ensures a.controlBytes <= a.sliceBytes && (!a.huge ==> a.sliceBytes < a.controlBytes + SYSTEM_PAGE)
    ensures a.huge ==> a.sliceBytes <= HUGE_PAGE
  {
    AlignBounds(a.controlBytes);
    if a.huge { ConfiguredSlicesFit(a.groups, 0); }
  }

  /** The compact arena's page slack is less than one unit, so without the hugepage there is never a pool. */
  lemma CompactArenaHasNoPool(a: Arena, s: Shard, l: Layout)
    requires Reserved(a, s, l) && !a.huge
    ensures l.poolUnits == 0
  {
    SliceHoldsControl(a);
  }

  /** No pool extent is read at offset 0, the staging code, and no 32-bit device address of the slice wraps. */
  lemma PoolOffsetsAreNotStaging(a: Arena, s: Shard, l: Layout, unit: nat)
    requires Reserved(a, s, l) && unit < l.poolUnits
    requires s.nocBase.Some? && NocLow(a, s) + l.sliceBytes <= WORD_RANGE
    ensures var off := l.poolOff + unit * UNIT_BYTES;
            off >= l.stageBytes > 0 && off + UNIT_BYTES <= l.sliceBytes && NocLow(a, s) + off + UNIT_BYTES <= WORD_RANGE
  {
    RegionsAreDisjoint(a, s, l);
    MulMono(unit + 1, l.poolUnits, UNIT_BYTES);
    assert (unit + 1) * UNIT_BYTES == unit * UNIT_BYTES + UNIT_BYTES;
  }

  /** A reserved layout is one the tier can run on. */
  lemma LayoutServesTier(a: Arena, s: Shard, l: Layout, driver: TierSpec.Driver, blockChunks: nat, maxKeyLen: nat,
                         heapBytes: nat, heap: BankLayout.Layout)
    requires Reserved(a, s, l) && blockChunks > 0 && BankLayout.ValidLayout(heap) && heap.unit == UNIT_BYTES
    ensures TierSpec.ValidConfig(TierSpec.Config(driver, l.noc, UNIT_BYTES, blockChunks, l.stageBytes,
              if l.poolUnits > 0 then l.poolOff else l.stageBytes, l.poolUnits, s.maxKeys, s.maxValue, maxKeyLen,
              heapBytes, heap))
  {
    RegionsAreDisjoint(a, s, l);
    OffsetsFitWords(s.maxValue);
    SliceHoldsControl(a);
    if !a.huge { CompactArenaHasNoPool(a, s, l); }
  }
}
