/** Host backing values, and what each locked section of the runtime does to the pool and its metadata. */
module TierSpec {
  import opened Words
  import opened BankLayout
  import opened FreeExtents
  import opened PoolMetadata

  /** Who owns the policy: the manager through the host-request interface, or the runtime's own worker. */
  datatype Driver = External | Internal

  /** The layout of one worker-group slice, and the limits of the deployment. */
  datatype Config = Config(
    driver: Driver,
    noc: bool,             // stage_noc_ok_
    unit: nat,             // bytes in a value unit
    blockChunks: nat,      // chunks per published staging block
    stageBytes: nat,       // staging window, at offset 0 of the slice
    poolOff: nat,          // pool_read_off_
    total: u32,            // pool_units_total_
    maxKeys: nat,
    maxValue: nat,
    maxKeyLen: nat,
    heapBytes: nat,        // device value heap
    heap: Layout)          // its banks and pages

  ghost predicate ValidConfig(c: Config) {
    && c.unit > 0 && c.blockChunks > 0 && ValidLayout(c.heap) && c.heap.unit == c.unit
    && 0 < c.maxValue <= c.stageBytes <= c.poolOff
    && c.poolOff + c.total * c.unit < WORD_RANGE
    && (c.total > 0 ==> c.noc)
  }

  function SliceBytes(c: Config): nat {
    c.poolOff + c.total * c.unit
  }

  /** An extent taken from the pool for one slot, with the metadata published for it. */
  datatype Reservation = Reservation(unit: nat, units: nat, readOff: nat, generation: u32)

  /** One authoritative backing value: an extent of the mapped pool, or a byte vector. */
  datatype HostValue = Mapped(at: Reservation, len: nat) | Heap(bytes: seq<byte>)

  function Length(v: HostValue): nat {
    match v case Mapped(_, len) => len case Heap(b) => |b|
  }

  function Units(v: HostValue): nat {
    match v case Mapped(r, _) => r.units case Heap(_) => 0
  }

  /** The offset a supply hands the device; 0 selects the staging window. */
  function ReadOffset(v: HostValue): nat {
    match v case Mapped(r, _) => r.readOff case Heap(_) => 0
  }

  datatype Store = Store(free: FreeList, meta: seq<Meta>, generations: seq<u32>, inUse: nat)

  function StoreAtStart(c: Config): Store {
    Store(Whole(c.total), seq(c.maxKeys, _ => BLANK), seq(c.maxKeys, _ => 0), 0)
  }

  ghost predicate Shaped(c: Config, st: Store) {
    |st.meta| == c.maxKeys && |st.generations| == c.maxKeys && Canonical(st.free, c.total)
  }

  /** A reservation as `Reserve` hands it out. */
  ghost predicate Placed(c: Config, r: Reservation, len: nat)
    requires c.unit > 0
  {
    && len > 0 && r.units == ChunkCount(c.unit, len)
    && r.unit + r.units <= c.total
    && r.readOff == c.poolOff + r.unit * c.unit
    && r.generation != 0
  }

  /** Takes pool space for `len` bytes and publishes the slot's metadata; no space means the staging window. */
  function Reserve(c: Config, st: Store, slot: nat, len: nat): (Store, Option<Reservation>)
    requires c.unit > 0 && slot < |st.meta| && slot < |st.generations|
  {
    var units := ChunkCount(c.unit, len);
    var (r, free) := Alloc(st.free, units);
    if r.None? then (st.(free := free), None)
    else
      var readOff := Word(c.poolOff + r.value * c.unit);
      var g := NextGeneration(st.generations[slot]);
      var m := Published(g, readOff, Word(len));
      (st.(free := free, generations := st.generations[slot := g], meta := st.meta[slot := m]),
       Some(Reservation(r.value, units, readOff, g)))
  }

  lemma ReserveFits(c: Config, st: Store, units: nat)
    requires ValidConfig(c) && Shaped(c, st) && units > 0 && Alloc(st.free, units).0.Some?
    ensures var r := Alloc(st.free, units).0.value;
            r + units <= c.total && c.poolOff + r * c.unit < WORD_RANGE
  {
    AllocFindsLeastRun(st.free, c.total, units);
    MulMono(Alloc(st.free, units).0.value, c.total, c.unit);
  }

  /** Gives an extent back to the free list. */
  function GiveBack(c: Config, free: FreeList, r: Reservation): FreeList {
    if r.unit < WORD_RANGE && r.units < WORD_RANGE then Release(free, c.total, r.unit, r.units).1 else free
  }

  /** Drops a slot's backing: an external lease blanks only its own generation, the worker blanks the slot. */
  function Retire(c: Config, st: Store, slot: nat, v: HostValue): Store
    requires slot < |st.meta|
  {
    match c.driver
    case External =>
      if v.Heap? then st
      else st.(free := GiveBack(c, st.free, v.at), inUse := if st.inUse >= v.at.units then st.inUse - v.at.units else 0,
               meta := st.meta[slot := InvalidateIf(st.meta[slot], v.at.generation)])
    case Internal =>
      st.(free := if v.Heap? then st.free else GiveBack(c, st.free, v.at), meta := st.meta[slot := BLANK])
  }

  /** Undoes a reservation no value was published for. */
  function Abandon(c: Config, st: Store, slot: nat, r: Option<Reservation>): Store
    requires slot < |st.meta|
  {
    if r.None? then st else st.(free := GiveBack(c, st.free, r.value), meta := st.meta[slot := BLANK])
  }

  /** Publishing an external lease starts charging its units. */
  function Track(st: Store, v: HostValue): Store {
    if v.Mapped? then st.(inUse := st.inUse + v.at.units) else st
  }

  /** Nowhere in the pool are `units` contiguous units free. */
  ghost predicate NoRoom(f: FreeList, units: nat) {
    forall u: int :: !FreeRun(f, u, units)
  }

  /** `r` is the least run that is long enough; exactly its units are taken, and the slot is published over it. */
  ghost predicate TakesLeastRun(c: Config, st: Store, st': Store, slot: nat, len: nat, r: Reservation)
    requires c.unit > 0 && slot < |st.meta| && slot < |st.generations|
  {
    && Placed(c, r, len) && len < WORD_RANGE && r.readOff < WORD_RANGE
    && FreeRun(st.free, r.unit, r.units) && (forall u: int | FreeRun(st.free, u, r.units) :: r.unit <= u)
    && (forall u :: FreeUnit(st'.free, u) == (FreeUnit(st.free, u) && !(r.unit <= u < r.unit + r.units)))
    && r.generation == NextGeneration(st.generations[slot])
    && st'.generations == st.generations[slot := r.generation]
    && st'.meta == st.meta[slot := Published(r.generation, r.readOff, len)]
  }

  /** A value gets an extent exactly if the pool has room for it; otherwise nothing changes. */
  ghost predicate ReservesIfRoom(c: Config, st: Store, st': Store, slot: nat, len: nat, r: Option<Reservation>)
    requires c.unit > 0 && slot < |st.meta| && slot < |st.generations|
  {
    && Shaped(c, st') && st'.inUse == st.inUse
    && (r.None? <==> NoRoom(st.free, ChunkCount(c.unit, len)))
    && if r.None? then st' == st else TakesLeastRun(c, st, st', slot, len, r.value)
  }

  lemma ReserveShape(c: Config, st: Store, slot: nat, len: nat)
    requires ValidConfig(c) && Shaped(c, st) && slot < c.maxKeys && 0 < len <= c.maxValue
    ensures var (st', r) := Reserve(c, st, slot, len);
            && ReservesIfRoom(c, st, st', slot, len, r)
            && Total(st'.free) + (if r.Some? then r.value.units else 0) == Total(st.free)
  {
    var units := ChunkCount(c.unit, len);
    AllocRemovesTheRun(st.free, c.total, units);
    AllocFindsLeastRun(st.free, c.total, units);
    AllocTotal(st.free, units);
    if Alloc(st.free, units).0.Some? { ReserveFits(c, st, units); }
  }

  /**
    An external value released late, after its slot was published again, leaves the newer metadata alone unless the
    number of publications since is a multiple of 2^32 - 1; other slots are never touched.
  */
  lemma LateReleaseSparesNewer(c: Config, st: Store, slot: nat, v: HostValue, mine: nat, newest: nat)
    requires c.driver.External? && slot < |st.meta| && v.Mapped? && 0 < mine <= newest
    requires v.at.generation == Generation(mine)
    requires st.meta[slot] == Published(Generation(newest), st.meta[slot].readOff, st.meta[slot].totalLen)
    ensures Retire(c, st, slot, v).meta ==
            if (newest - mine) % GENERATIONS == 0 then st.meta[slot := BLANK] else st.meta
    ensures Retire(c, st, slot, v).generations == st.generations
  {
    LateDropSparesNewer(mine, newest, st.meta[slot].readOff, st.meta[slot].totalLen);
  }

  /** Giving back an extent none of whose units is free is accepted, and adds exactly its units. */
  lemma GiveBackAdds(c: Config, free: FreeList, r: Reservation)
    requires Canonical(free, c.total) && r.units > 0 && r.unit + r.units <= c.total
    requires NoFreeUnit(free, r.unit, r.units)
    ensures var g := GiveBack(c, free, r);
            && Canonical(g, c.total) && Total(g) == Total(free) + r.units
            && forall u :: FreeUnit(g, u) == (FreeUnit(free, u) || r.unit <= u < r.unit + r.units)
  {
    ReleaseAddsTheRun(free, c.total, r.unit, r.units);
    ReleaseTotal(free, c.total, r.unit, r.units);
  }
}

/** The same locked sections as the runtime executes them, field by field. */
module HostTier {
  import opened Words
  import opened FreeExtents
  import opened PoolMetadata
  import opened TierSpec
  import HostPool

  /** A mapped value handed to the manager. A null owner means the extent was already given back. */
  class HostLease {
    var owner: RuntimeCore?
    const slot: nat
    const at: Reservation
    const len: nat

    constructor (owner: RuntimeCore, slot: nat, at: Reservation, len: nat)
      ensures this.owner == owner && this.slot == slot && this.at == at && this.len == len
    {
      this.owner := owner;
      this.slot := slot;
      this.at := at;
      this.len := len;
    }
  }

  class RuntimeCore {
    ghost const c: Config
    const unit: nat
    const poolOff: nat
    const pool: HostPool.Pool
    const table: MetaTable
    var hostValues: map<nat, HostValue>
    var leases: set<HostLease>
    var unitsInUse: nat

    ghost predicate Valid()
      reads this, pool, table.meta, table.generations
    {
      && ValidConfig(c) && unit == c.unit && poolOff == c.poolOff
      && pool.total == c.total && pool.mapped == (c.total > 0) && pool.Valid()
      && table.mapped && table.Valid() && table.meta.Length == c.maxKeys
    }

    ghost function St(): Store
      reads this, pool, table.meta, table.generations
    {
      Store(pool.free, table.meta[..], table.generations[..], unitsInUse)
    }

    /** The extent is in the pool and none of it is free, as for every value the runtime holds. */
    ghost predicate Outstanding(r: Reservation)
      reads this, pool
    {
      r.units > 0 && r.unit + r.units <= c.total && NoFreeUnit(pool.free, r.unit, r.units)
    }

    constructor (ghost c: Config, unit: nat, poolOff: nat, total: u32, maxKeys: nat)
      requires ValidConfig(c) && c.unit == unit && c.poolOff == poolOff && c.total == total && c.maxKeys == maxKeys
      ensures Valid() && this.c == c && fresh(pool) && fresh(table.meta) && fresh(table.generations)
      ensures hostValues == map[] && leases == {}
      ensures St() == StoreAtStart(c)
    {
      this.c := c;
      this.unit := unit;
      this.poolOff := poolOff;
      pool := new HostPool.Pool(total);
      table := new MetaTable(maxKeys, true);
      hostValues := map[];
      leases := {};
      unitsInUse := 0;
    }

    /** The reservation both write-through paths make under the lock. */
    method ReserveExtent(slot: nat, len: nat) returns (r: Option<Reservation>)
      requires Valid() && slot < c.maxKeys && 0 < len <= c.maxValue
      modifies pool`free, table.meta, table.generations
      ensures Valid() && (St(), r) == Reserve(c, old(St()), slot, len)
      ensures ReservesIfRoom(c, old(St()), St(), slot, len, r)
    {
      ReserveShape(c, St(), slot, len);
      ghost var st := St();
      ChunkCountBounds(unit, len);
      var units := ChunkCount(unit, len);
      AllocRemovesTheRun(st.free, c.total, units);
      if c.total == 0 { assert st.free == []; }
      var taken := pool.PoolAlloc(units);
      assert (taken, pool.free) == Alloc(st.free, units);
      if taken.None? {
        return None;
      }
      ReserveFits(c, st, units);
      var readOff := poolOff + taken.value * unit;
      var generation, stores := table.PublishPoolMeta(slot, readOff, len);
      return Some(Reservation(taken.value, units, readOff, generation.value));
    }

    /** `drop_host_value`. */
    method DropHostValue(slot: nat)
      requires Valid() && c.driver == Internal && slot < c.maxKeys
      modifies this`hostValues, pool`free, table.meta
      ensures hostValues == old(hostValues) - {slot}
      ensures St() == if slot in old(hostValues) then Retire(c, old(St()), slot, old(hostValues)[slot]) else old(St())
    {
      if slot !in hostValues {
        return;
      }
      var v := hostValues[slot];
      var ok, stores := table.InvalidatePoolMeta(slot);
      hostValues := hostValues - {slot};
      if v.Mapped? && v.at.unit < WORD_RANGE && v.at.units < WORD_RANGE {
        var o := pool.PoolRelease(v.at.unit, v.at.units);
      }
    }

    /** `reserve_device_push_destination`: the old value goes and the new extent comes under one lock. */
    method ReserveDevicePushDestination(slot: nat, len: nat) returns (r: Option<Reservation>)
      requires Valid() && c.driver == Internal && slot < c.maxKeys && 0 < len <= c.maxValue
      requires slot in hostValues && hostValues[slot].Mapped? ==> Outstanding(hostValues[slot].at)
      modifies this`hostValues, pool`free, table.meta, table.generations
      ensures Valid() && hostValues == old(hostValues) - {slot}
      ensures var st := if slot in old(hostValues) then Retire(c, old(St()), slot, old(hostValues)[slot])
                else old(St());
              (St(), r) == Reserve(c, st, slot, len) && ReservesIfRoom(c, st, St(), slot, len, r)
    {
      if slot in hostValues && hostValues[slot].Mapped? {
        GiveBackAdds(c, pool.free, hostValues[slot].at);
      }
      DropHostValue(slot);
      r := ReserveExtent(slot, len);
    }

    /** `publish_device_pushed_value`: the reserved extent, or a copy of the staging window. */
    method PublishDevicePushedValue(slot: nat, len: nat, r: Option<Reservation>, stage: array<byte>)
      requires Valid() && c.driver == Internal && len <= stage.Length
      modifies this`hostValues
      ensures hostValues == old(hostValues)[slot := if r.Some? then Mapped(r.value, len) else Heap(stage[..len])]
      ensures St() == old(St())
    {
      hostValues := hostValues[slot := if r.Some? then Mapped(r.value, len) else Heap(stage[..len])];
    }

    /** The rollback of a cancelled push, or of a lease that could not be allocated. */
    method ReleaseReserved(slot: nat, r: Option<Reservation>)
      requires Valid() && slot < c.maxKeys
      modifies pool`free, table.meta
      ensures St() == Abandon(c, old(St()), slot, r)
    {
      if r.None? {
        return;
      }
      var ok, stores := table.InvalidatePoolMeta(slot);
      if r.value.unit < WORD_RANGE && r.value.units < WORD_RANGE {
        var o := pool.PoolRelease(r.value.unit, r.value.units);
      }
    }

    /** Wraps a landed extent in a lease; `allocates` is whether the lease object can be allocated. */
    method PublishLease(slot: nat, r: Reservation, len: nat, allocates: bool) returns (lease: HostLease?)
      requires Valid() && c.driver == External && slot < c.maxKeys
      modifies this`leases, this`unitsInUse, pool`free, table.meta
      ensures allocates ==>
                && lease != null && fresh(lease) && lease.owner == this && leases == old(leases) + {lease}
                && lease.slot == slot && lease.at == r && lease.len == len
                && St() == Track(old(St()), Mapped(r, len))
      ensures !allocates ==> lease == null && leases == old(leases) && St() == Abandon(c, old(St()), slot, Some(r))
    {
      if !allocates {
        ReleaseReserved(slot, Some(r));
        return null;
      }
      lease := new HostLease(this, slot, r, len);
      leases := leases + {lease};
      unitsInUse := unitsInUse + r.units;
    }

    /** The destructor of a lease. A lease released before, or detached, leaves the pool alone. */
    method ReleaseExternalHostLease(lease: HostLease)
      requires Valid() && c.driver == External && lease.slot < c.maxKeys
      modifies lease`owner, this`leases, this`unitsInUse, pool`free, table.meta
      ensures lease.owner != this && leases == old(leases) - (if old(lease.owner) == this then {lease} else {})
      ensures var after := Retire(c, old(St()), lease.slot, Mapped(lease.at, lease.len));
              St() == if old(lease.owner) != this then old(St())
                      else if lease in old(leases) then after
                      else after.(inUse := old(unitsInUse))
      ensures old(table.meta[lease.slot].begin) != lease.at.generation ==> table.meta[..] == old(table.meta[..])
    {
      if lease.owner != this {
        return;
      }
      lease.owner := null;
      if lease in leases {
        leases := leases - {lease};
        unitsInUse := if unitsInUse >= lease.at.units then unitsInUse - lease.at.units else 0;
      }
      var ok := table.InvalidatePoolMetaIfGeneration(lease.slot, lease.at.generation);
      if lease.at.unit < WORD_RANGE && lease.at.units < WORD_RANGE {
        var o := pool.PoolRelease(lease.at.unit, lease.at.units);
      }
    }

    /** Cuts every outstanding lease loose before the pool goes away. */
    method DetachExternalHostLeases()
      modifies this`leases, this`unitsInUse, leases`owner
      ensures leases == {} && unitsInUse == 0
      ensures forall l | l in old(leases) :: l.owner == null
      ensures pool.free == old(pool.free) && table.meta[..] == old(table.meta[..])
    {
      var rest := leases;
      while rest != {}
        invariant rest <= leases == old(leases)
        invariant forall l | l in leases - rest :: l.owner == null
        decreases rest
      {
        var l :| l in rest;
        l.owner := null;
        rest := rest - {l};
      }
      leases := {};
      unitsInUse := 0;
    }
  }

  /** Chunks published once block `i` of a stream is staged. */
  function Staged(chunks: nat, block: nat, i: nat): nat {
    Min(Offset(block, i + 1), chunks)
  }

  /** Post `i` shows whole blocks, and every byte a reader could then reach was already the value's. */
  ghost predicate Streamed(unit: nat, block: nat, src: seq<byte>, published: seq<nat>, seen: seq<seq<byte>>)
    requires unit > 0
  {
    |published| == |seen| && forall i | 0 <= i < |published| ::
      var shown := Min(Offset(unit, published[i]), |src|);
      published[i] == Staged(ChunkCount(unit, |src|), block, i) && shown <= |seen[i]|
          && seen[i][..shown] == src[..shown]
  }

  lemma StreamedOneMore(unit: nat, block: nat, src: seq<byte>, published: seq<nat>, seen: seq<seq<byte>>, p: nat,
                        stage: seq<byte>)
    requires unit > 0 && Streamed(unit, block, src, published, seen)
    requires p == Staged(ChunkCount(unit, |src|), block, |published|)
    requires var shown := Min(Offset(unit, p), |src|); shown <= |stage| && stage[..shown] == src[..shown]
    ensures Streamed(unit, block, src, published + [p], seen + [stage])
  {
  }

  /** `base` chunks are staged and posted: everything before byte `end` of the stage is the value's. */
  ghost predicate Midway(unit: nat, block: nat, src: seq<byte>, before: seq<byte>, stage: seq<byte>,
                         published: seq<nat>, seen: seq<seq<byte>>, base: nat, end: nat)
    requires unit > 0
  {
    var chunks := ChunkCount(unit, |src|);
    && |src| <= |stage| == |before|
    && base == Min(Offset(block, |published|), chunks) && end == Min(Offset(unit, base), |src|)
    && Streamed(unit, block, src, published, seen)
    && stage == src[..end] + before[end..]
    && (base > 0 ==> published != [] && published[|published| - 1] == base)
  }

  lemma AllStaged(unit: nat, block: nat, src: seq<byte>, before: seq<byte>, stage: seq<byte>,
                  published: seq<nat>, seen: seq<seq<byte>>, end: nat)
    requires unit > 0 && Midway(unit, block, src, before, stage, published, seen, ChunkCount(unit, |src|), end)
    ensures stage == src + before[|src|..]
    ensures src != [] ==> published != [] && published[|published| - 1] == ChunkCount(unit, |src|)
  {
    ChunkCountIsCeiling(unit, |src|);
    OffsetIsProduct(unit, ChunkCount(unit, |src|));
    assert src[..|src|] == src;
  }

  /** One block of the copy loop: its bytes are staged, and only then is the new progress posted. */
  method StreamBlock(unit: nat, block: nat, src: seq<byte>, stage: array<byte>, base: nat, end: nat,
                     published: seq<nat>, ghost seen: seq<seq<byte>>, ghost before: seq<byte>)
    returns (next: nat, staged: nat, posted: seq<nat>, ghost shown: seq<seq<byte>>)
    requires unit > 0 && block > 0 && base < ChunkCount(unit, |src|)
    requires Midway(unit, block, src, before, stage[..], published, seen, base, end)
    modifies stage
    ensures base < next <= ChunkCount(unit, |src|)
    ensures Midway(unit, block, src, before, stage[..], posted, shown, next, staged)
  {
    next := base + Min(block, ChunkCount(unit, |src|) - base);
    OffsetMono(unit, base, next);
    staged := StageBlock(unit, src, stage, next, end, before);
    StreamedOneMore(unit, block, src, published, seen, next, stage[..]);
    posted, shown := published + [next], seen + [stage[..]];
  }

  /** The copy loop of a streamed supply: `published` are the progress values in the order posted. */
  method StreamBlocks(unit: nat, block: nat, src: seq<byte>, stage: array<byte>)
    returns (published: seq<nat>, ghost seen: seq<seq<byte>>)
    requires unit > 0 && block > 0 && |src| <= stage.Length
    modifies stage
    ensures stage[..] == src + old(stage[..])[|src|..]
    ensures Streamed(unit, block, src, published, seen)
    ensures src != [] ==> published != [] && published[|published| - 1] == ChunkCount(unit, |src|)
  {
    var chunks := ChunkCount(unit, |src|);
    published, seen := [], [];
    ghost var before := stage[..];
    var base, end := 0, 0;
    assert stage[..] == src[..0] + before[0..];
    while base < chunks
      invariant base <= chunks && Midway(unit, block, src, before, stage[..], published, seen, base, end)
      decreases chunks - base
    {
      base, end, published, seen := StreamBlock(unit, block, src, stage, base, end, published, seen, before);
    }
    AllStaged(unit, block, src, before, stage[..], published, seen, end);
  }

  /** Copies up to chunk `chunk`. */
  method StageBlock(unit: nat, src: seq<byte>, stage: array<byte>, chunk: nat, end: nat, ghost before: seq<byte>)
    returns (next: nat)
    requires end <= Min(Offset(unit, chunk), |src|) && |src| <= |before| == stage.Length
    requires stage[..] == src[..end] + before[end..]
    modifies stage
    ensures next == Min(Offset(unit, chunk), |src|)
    ensures stage[..] == src[..next] + before[next..] && stage[..next] == src[..next]
  {
    next := Min(Offset(unit, chunk), |src|);
    CopyRange(stage, src, end, next);
    Joins(stage[..], src, before, end, next);
  }

  lemma Joins(after: seq<byte>, src: seq<byte>, before: seq<byte>, lo: nat, hi: nat)
    requires lo <= hi <= |src| <= |before|
    requires var m := src[..lo] + before[lo..]; after == m[..lo] + src[lo..hi] + m[hi..]
    ensures after == src[..hi] + before[hi..] && after[..hi] == src[..hi]
  {
  }

  /** `memcpy` of one block. */
  method CopyRange(stage: array<byte>, src: seq<byte>, lo: nat, hi: nat)
    requires lo <= hi <= |src| <= stage.Length
    modifies stage
    ensures stage[..] == old(stage[..lo]) + src[lo..hi] + old(stage[hi..])
  {
    for i := lo to hi
      invariant stage[..] == old(stage[..lo]) + src[lo..i] + old(stage[i..])
    {
      stage[i] := src[i];
    }
  }
}
