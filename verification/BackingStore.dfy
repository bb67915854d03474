/** Who owns every unit of the host-value pool, and what the metadata says about it. */
module BackingStore {
  import opened Words
  import opened FreeExtents
  import opened PoolMetadata
  import opened TierSpec

  datatype Owner = NoOwner | ValueOf(slot: nat) | Transfer

  /** An extent on its way in: reserved for a slot, and already wrapped in a lease or not. */
  datatype Transit = Transit(slot: nat, r: Reservation, len: nat, leased: bool)

  type Values = map<nat, HostValue>

  ghost predicate Owned(own: seq<Owner>, r: Reservation, o: Owner) {
    forall u | r.unit <= u < r.unit + r.units && u < |own| :: own[u] == o
  }

  ghost function Assign(own: seq<Owner>, r: Reservation, o: Owner): (g: seq<Owner>)
    ensures |g| == |own| && Owned(g, r, o)
  {
    seq(|own|, u requires 0 <= u < |own| => if r.unit <= u < r.unit + r.units then o else own[u])
  }

  /** Units charged to stored values. */
  ghost function SumUnits(values: Values): nat
    decreases |values|
  {
    if values == map[] then 0
    else
      var k :| k in values;
      Units(values[k]) + SumUnits(values - {k})
  }

  ghost function TransitUnits(t: Option<Transit>): nat {
    if t.Some? then t.value.r.units else 0
  }

  /** The free list is exactly the units nobody owns, and every extent held is owned by its holder. */
  ghost predicate Partition(c: Config, values: Values, free: FreeList, t: Option<Transit>, own: seq<Owner>)
    requires c.unit > 0
  {
    && |own| == c.total && Canonical(free, c.total)
    && (forall u | 0 <= u < |own| :: FreeUnit(free, u) == own[u].NoOwner?)
    && (forall k | k in values && values[k].Mapped? ::
          Placed(c, values[k].at, values[k].len) && Owned(own, values[k].at, ValueOf(k)))
    && (t.Some? ==> Placed(c, t.value.r, t.value.len) && Owned(own, t.value.r, Transfer))
  }

  /** No unit is lost, and the manager is charged for exactly the extents it holds leases on. */
  ghost predicate Conserved(c: Config, values: Values, store: Store, t: Option<Transit>) {
    && Total(store.free) + SumUnits(values) + TransitUnits(t) == c.total
    && (c.driver.External? ==>
          store.inUse == SumUnits(values) + (if t.Some? && t.value.leased then t.value.r.units else 0))
  }

  /** What the metadata of slot `k` must read: the extent in transit, else the stored one, else blank. */
  function MetaOf(values: Values, t: Option<Transit>, k: nat): Meta {
    if t.Some? && t.value.slot == k then Published(t.value.r.generation, Word(t.value.r.readOff), Word(t.value.len))
    else if k in values && values[k].Mapped? then
      Published(values[k].at.generation, Word(values[k].at.readOff), Word(values[k].len))
    else BLANK
  }

  /** Valid metadata always names an extent its slot still owns. */
  ghost predicate MetaExact(c: Config, values: Values, store: Store, t: Option<Transit>) {
    && |store.meta| == c.maxKeys && |store.generations| == c.maxKeys
    && forall k | 0 <= k < c.maxKeys :: store.meta[k] == MetaOf(values, t, k)
  }

  ghost predicate StoreInv(c: Config, values: Values, store: Store, t: Option<Transit>, own: seq<Owner>)
    requires c.unit > 0
  {
    && Partition(c, values, store.free, t, own)
    && Conserved(c, values, store, t)
    && MetaExact(c, values, store, t)
    && (forall k | k in values :: k < c.maxKeys)
    && (t.Some? ==> t.value.slot !in values && t.value.slot < c.maxKeys)
  }

  // ----- sums over the value map -----

  lemma {:induction false} SumWithout(values: Values, k: nat)
    requires k in values
    ensures SumUnits(values) == Units(values[k]) + SumUnits(values - {k})
    decreases |values|
  {
    var j :| j in values && SumUnits(values) == Units(values[j]) + SumUnits(values - {j});
    if j != k {
      SumWithout(values - {j}, k);
      SumWithout(values - {k}, j);
      assert values - {j} - {k} == values - {k} - {j};
    }
  }

  lemma SumWith(values: Values, k: nat, v: HostValue)
    requires k !in values
    ensures SumUnits(values[k := v]) == SumUnits(values) + Units(v)
  {
    SumWithout(values[k := v], k);
    assert values[k := v] - {k} == values;
  }

  // ----- what each locked section keeps -----

  /** Reassigning an extent leaves alone whatever another owner holds. */
  lemma AssignElsewhere(own: seq<Owner>, r: Reservation, was: Owner, o: Owner, held: Reservation, holder: Owner)
    requires Owned(own, r, was) && Owned(own, held, holder) && was != holder
    ensures Owned(Assign(own, r, o), held, holder)
  {
    var own' := Assign(own, r, o);
    forall u | held.unit <= u < held.unit + held.units && u < |own'| ensures own'[u] == holder {
      assert own[u] == holder;
    }
  }

  lemma AssignKeepsValues(c: Config, values: Values, own: seq<Owner>, r: Reservation, was: Owner, o: Owner)
    requires Owned(own, r, was) && !was.ValueOf?
    requires forall k | k in values && values[k].Mapped? :: Owned(own, values[k].at, ValueOf(k))
    ensures forall k | k in values && values[k].Mapped? :: Owned(Assign(own, r, o), values[k].at, ValueOf(k))
  {
    forall k | k in values && values[k].Mapped? ensures Owned(Assign(own, r, o), values[k].at, ValueOf(k)) {
      AssignElsewhere(own, r, was, o, values[k].at, ValueOf(k));
    }
  }

  lemma StoreInit(c: Config)
    requires ValidConfig(c)
    ensures StoreInv(c, map[], StoreAtStart(c), None, seq(c.total, _ => NoOwner))
  {
    WholeUnits(c.total);
    assert Total(Whole(c.total)) == c.total;
  }

  /** Reserving for a slot with no value moves an unowned extent into transit. */
  lemma ReserveKeeps(c: Config, values: Values, store: Store, own: seq<Owner>, slot: nat, len: nat)
    requires ValidConfig(c) && StoreInv(c, values, store, None, own)
    requires slot !in values && slot < c.maxKeys && 0 < len <= c.maxValue
    ensures var (store', r) := Reserve(c, store, slot, len);
            if r.None? then store' == store
            else StoreInv(c, values, store', Some(Transit(slot, r.value, len, false)), Assign(own, r.value, Transfer))
  {
    ReserveShape(c, store, slot, len);
    var (store', r) := Reserve(c, store, slot, len);
    if r.Some? {
      forall u | r.value.unit <= u < r.value.unit + r.value.units ensures own[u].NoOwner? {
        assert FreeUnit(store.free, u);
      }
      AssignKeepsValues(c, values, own, r.value, NoOwner, Transfer);
    }
  }

  /** The extent `r` can be given back: it is in range and none of its units is free. */
  lemma OwnedIsNotFree(c: Config, values: Values, free: FreeList, t: Option<Transit>, own: seq<Owner>,
                       r: Reservation, len: nat, o: Owner)
    requires c.unit > 0 && Partition(c, values, free, t, own) && Placed(c, r, len) && Owned(own, r, o) && !o.NoOwner?
    ensures r.units > 0 && NoFreeUnit(free, r.unit, r.units)
  {
    forall u | r.unit <= u < r.unit + r.units ensures !FreeUnit(free, u) { assert own[u] == o; }
    ChunkCountIsCeiling(c.unit, len);
  }

  /** Abandoning a reservation gives its extent back and blanks the slot. */
  lemma AbandonKeeps(c: Config, values: Values, store: Store, own: seq<Owner>, t: Transit)
    requires ValidConfig(c) && StoreInv(c, values, store, Some(t), own) && !t.leased
    ensures StoreInv(c, values, Abandon(c, store, t.slot, Some(t.r)), None, Assign(own, t.r, NoOwner))
  {
    OwnedIsNotFree(c, values, store.free, Some(t), own, t.r, t.len, Transfer);
    GiveBackAdds(c, store.free, t.r);
    AssignKeepsValues(c, values, own, t.r, Transfer, NoOwner);
  }

  lemma RetireHeapKeeps(c: Config, values: Values, store: Store, t: Option<Transit>, own: seq<Owner>, slot: nat)
    requires ValidConfig(c) && StoreInv(c, values, store, t, own) && slot in values && values[slot].Heap?
    ensures StoreInv(c, values - {slot}, Retire(c, store, slot, values[slot]), t, own)
  {
    SumWithout(values, slot);
  }

  lemma RetirePartitions(c: Config, values: Values, free: FreeList, t: Option<Transit>, own: seq<Owner>, slot: nat)
    requires ValidConfig(c) && Partition(c, values, free, t, own) && slot in values && values[slot].Mapped?
    ensures var at := values[slot].at;
            Partition(c, values - {slot}, GiveBack(c, free, at), t, Assign(own, at, NoOwner))
            && Total(GiveBack(c, free, at)) == Total(free) + at.units
  {
    var v := values[slot];
    OwnedIsNotFree(c, values, free, t, own, v.at, v.len, ValueOf(slot));
    GiveBackAdds(c, free, v.at);
    forall k | k in values - {slot} && values[k].Mapped?
        ensures Owned(Assign(own, v.at, NoOwner), values[k].at, ValueOf(k)) {
      AssignElsewhere(own, v.at, ValueOf(slot), NoOwner, values[k].at, ValueOf(k));
    }
    if t.Some? { AssignElsewhere(own, v.at, ValueOf(slot), NoOwner, t.value.r, Transfer); }
  }

  lemma RetireMappedKeeps(c: Config, values: Values, store: Store, t: Option<Transit>, own: seq<Owner>, slot: nat)
    requires ValidConfig(c) && StoreInv(c, values, store, t, own) && slot in values && values[slot].Mapped?
    ensures StoreInv(c, values - {slot}, Retire(c, store, slot, values[slot]), t, Assign(own, values[slot].at, NoOwner))
  {
    RetirePartitions(c, values, store.free, t, own, slot);
    SumWithout(values, slot);
  }

  /** Wrapping the extent in a lease charges it. */
  lemma LeaseKeeps(c: Config, values: Values, store: Store, own: seq<Owner>, t: Transit)
    requires ValidConfig(c) && StoreInv(c, values, store, Some(t), own) && !t.leased
    ensures StoreInv(c, values, Track(store, Mapped(t.r, t.len)), Some(t.(leased := true)), own)
  {
  }

  lemma InsertPartitions(c: Config, values: Values, free: FreeList, own: seq<Owner>, t: Transit)
    requires c.unit > 0 && Partition(c, values, free, Some(t), own) && t.slot !in values
    ensures Partition(c, values[t.slot := Mapped(t.r, t.len)], free, None, Assign(own, t.r, ValueOf(t.slot)))
  {
    AssignKeepsValues(c, values, own, t.r, Transfer, ValueOf(t.slot));
  }

  /** Storing the value hands the extent from the transfer to the slot. */
  lemma InsertKeeps(c: Config, values: Values, store: Store, own: seq<Owner>, t: Transit)
    requires ValidConfig(c) && StoreInv(c, values, store, Some(t), own) && (t.leased || c.driver.Internal?)
    ensures StoreInv(c, values[t.slot := Mapped(t.r, t.len)], store, None, Assign(own, t.r, ValueOf(t.slot)))
  {
    SumWith(values, t.slot, Mapped(t.r, t.len));
    InsertPartitions(c, values, store.free, own, t);
  }

  lemma InsertHeapKeeps(c: Config, values: Values, store: Store, own: seq<Owner>, slot: nat, bytes: seq<byte>)
    requires ValidConfig(c) && StoreInv(c, values, store, None, own) && slot !in values && slot < c.maxKeys
    ensures StoreInv(c, values[slot := Heap(bytes)], store, None, own)
  {
    SumWith(values, slot, Heap(bytes));
  }

  /** With nothing stored and nothing in transit, the pool is one extent again and nothing is charged. */
  lemma EmptyStoreIsWhole(c: Config, store: Store, own: seq<Owner>)
    requires ValidConfig(c) && StoreInv(c, map[], store, None, own)
    ensures Total(store.free) == c.total && (c.driver.External? ==> store.inUse == 0)
    ensures forall k | 0 <= k < c.maxKeys :: store.meta[k] == BLANK
  {
  }
}
