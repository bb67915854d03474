/** What every run of the move channel guarantees, for either driver and any mix of pool hits and misses. */
module MoveChannelResults {
  import opened Words
  import opened FreeExtents
  import opened PoolMetadata
  import opened TierSpec
  import opened MoveChannel
  import opened MoveChannelControl
  import opened BackingStore
  import opened MoveChannelData
  import opened MoveChannelDevice
  import opened MoveChannelHost
  import opened BankLayout

  /** Some run from an initial state ends here. */
  ghost predicate Reachable(c: Config, s: State)
    requires c.unit > 0
  {
    ValidConfig(c) && exists s0, acts :: Initial(c, s0) && Runs(c, s0, acts) && After(c, s0, acts) == s
  }

  ghost predicate Sound(c: Config, s: State)
    requires c.unit > 0
  {
    ValidConfig(c) && exists own :: Inv(c, s, own)
  }

  lemma InitialIsSound(c: Config, n: u32, arena: seq<byte>)
    requires ValidConfig(c) && |arena| == SliceBytes(c)
    ensures Sound(c, StartAt(c, n, arena))
  {
    var own := seq(c.total, _ => NoOwner);
    ControlInit(c, n, arena);
    StoreInit(c);
    assert Inv(c, StartAt(c, n, arena), own);
  }

  lemma DeviceStepKeepsInv(c: Config, s: State, a: Action, own: seq<Owner>)
    requires c.unit > 0 && DeviceMoves(c, s, a, own)
    ensures Inv(c, Do(c, s, a), own)
  {
    DeviceKeepsData(c, s, a, own);
    ControlStep(c, s, a);
  }

  lemma HostStepKeepsInv(c: Config, s: State, a: Action, own: seq<Owner>)
    requires c.unit > 0 && HostMoves(c, s, a, own)
    ensures Inv(c, Do(c, s, a), NextOwn(c, s.host, a, own))
  {
    ChecksHold(c, s, a, own);
    HostKeepsData(c, s, a, own);
    ControlStep(c, s, a);
  }

  /** One step of either side, from any state a run can reach. */
  lemma StepKeepsInv(c: Config, s: State, a: Action)
    requires c.unit > 0 && Sound(c, s) && Enabled(c, s, a)
    ensures Sound(c, Do(c, s, a))
  {
    var own :| Inv(c, s, own);
    if DeviceAction(a) {
      DeviceStepKeepsInv(c, s, a, own);
    } else {
      HostStepKeepsInv(c, s, a, own);
    }
  }

  lemma {:induction false} RunKeepsInv(c: Config, s: State, acts: seq<Action>)
    requires c.unit > 0 && Sound(c, s) && Runs(c, s, acts)
    ensures Sound(c, After(c, s, acts))
    decreases |acts|
  {
    if acts != [] {
      StepKeepsInv(c, s, acts[0]);
      RunKeepsInv(c, Do(c, s, acts[0]), acts[1..]);
    }
  }

  lemma ReachableIsSound(c: Config, s: State)
    requires c.unit > 0 && Reachable(c, s)
    ensures Sound(c, s)
  {
    var s0, acts :| Initial(c, s0) && Runs(c, s0, acts) && After(c, s0, acts) == s;
    var n: u32, m: seq<byte> :| |m| == SliceBytes(c) && s0 == StartAt(c, n, m);
    InitialIsSound(c, n, m);
    RunKeepsInv(c, s0, acts);
  }

  // ----- the plain map the tier refines -----

  /** A plain map under the same requests. */
  function Apply(m: map<nat, seq<byte>>, r: Request, value: seq<byte>): map<nat, seq<byte>> {
    match r.kind
    case WriteThrough => m[r.slot := value]
    case RemoveBacking => m - {r.slot}
    case _ => m
  }

  /** The plain map after the requests of a run. */
  function Written(m: map<nat, seq<byte>>, acts: seq<Action>): map<nat, seq<byte>>
    decreases |acts|
  {
    if acts == [] then m
    else Written(if acts[0].WriteSlot? then Apply(m, acts[0].request, acts[0].value) else m, acts[1..])
  }

  function Bytes(dir: map<nat, Entry>): map<nat, seq<byte>> {
    map k | k in dir :: dir[k].bytes
  }

  /** The directory, with the request in flight applied. */
  function Ahead(d: Device): map<nat, seq<byte>> {
    if d.pc.Quiet? then Bytes(d.dir) else Apply(Bytes(d.dir), d.request, d.value)
  }

  lemma HostLeavesDevice(c: Config, s: State, a: Action)
    requires c.unit > 0 && Ready(c, s, a) && !DeviceAction(a)
    ensures Ahead(HostStep(c, s, a).dev) == Ahead(s.dev)
  {
  }

  lemma AheadStep(c: Config, s: State, a: Action)
    requires c.unit > 0 && Ready(c, s, a)
    ensures Ahead(Do(c, s, a).dev) == if a.WriteSlot? then Apply(Ahead(s.dev), a.request, a.value) else Ahead(s.dev)
  {
    if DeviceAction(a) {
      DeviceAhead(c, s, a);
    } else {
      HostLeavesDevice(c, s, a);
    }
  }

  lemma DeviceAhead(c: Config, s: State, a: Action)
    requires c.unit > 0 && Ready(c, s, a) && DeviceAction(a)
    ensures Ahead(DeviceStep(c, s, a).dev) ==
            if a.WriteSlot? then Apply(Ahead(s.dev), a.request, a.value) else Ahead(s.dev)
  {
    if a.Drain? {
      DrainCatchesUp(s.dev);
    }
  }

  /** Committing the drained request to the directory is what the plain map did when it was posted. */
  lemma DrainCatchesUp(d: Device)
    requires d.pc.Draining?
    ensures Bytes(DrainStep(d).dir) == Apply(Bytes(d.dir), d.request, d.value)
  {
  }

  lemma {:induction false} AheadIsWritten(c: Config, s: State, acts: seq<Action>)
    requires c.unit > 0 && Runs(c, s, acts)
    ensures Ahead(After(c, s, acts).dev) == Written(Ahead(s.dev), acts)
    decreases |acts|
  {
    if acts != [] {
      AheadStep(c, s, acts[0]);
      AheadIsWritten(c, Do(c, s, acts[0]), acts[1..]);
    }
  }

  /** A supply has handed over the whole value. */
  predicate Delivered(d: Device) {
    (d.pc.Consumed? || d.pc.Draining?) && (d.request.kind.PromoteToDevice? || d.request.kind.ServeGet?)
  }

  /** Every supply delivers exactly the bytes of its slot's latest write through. */
  lemma SuppliesLatestWrite(c: Config, s: State, acts: seq<Action>)
    requires ValidConfig(c) && Initial(c, s) && Runs(c, s, acts) && Delivered(After(c, s, acts).dev)
    ensures var d := After(c, s, acts).dev;
            d.request.slot in Written(map[], acts) && d.got == Written(map[], acts)[d.request.slot]
  {
    var n: u32, m: seq<byte> :| |m| == SliceBytes(c) && s == StartAt(c, n, m);
    InitialIsSound(c, n, m);
    RunKeepsInv(c, s, acts);
    AheadIsWritten(c, s, acts);
    var t := After(c, s, acts);
    assert Ahead(s.dev) == map[];
    assert Ahead(t.dev) == Bytes(t.dev.dir);
    var own :| Inv(c, t, own);
    assert t.dev.got == Due(t.dev);
  }

  /** With the device idle and the worker running, the stored values are the written map, byte for byte. */
  lemma StoredIsWritten(c: Config, s: State, acts: seq<Action>)
    requires ValidConfig(c) && Initial(c, s) && Runs(c, s, acts)
    requires After(c, s, acts).dev.pc.Quiet? && !After(c, s, acts).host.pc.Stopped?
    ensures var t := After(c, s, acts); Bytes(Image(t.arena, t.host.values)) == Written(map[], acts)
  {
    var n: u32, m: seq<byte> :| |m| == SliceBytes(c) && s == StartAt(c, n, m);
    InitialIsSound(c, n, m);
    RunKeepsInv(c, s, acts);
    AheadIsWritten(c, s, acts);
    assert Ahead(s.dev) == map[];
  }

  /** No phase, sequence, layout or representation check of the host ever fires. */
  lemma NoCheckFires(c: Config, s: State, acts: seq<Action>)
    requires ValidConfig(c) && Initial(c, s) && Runs(c, s, acts)
    ensures !After(c, s, acts).host.pc.CheckFailed?
  {
    var n: u32, m: seq<byte> :| |m| == SliceBytes(c) && s == StartAt(c, n, m);
    InitialIsSound(c, n, m);
    RunKeepsInv(c, s, acts);
  }

  // ----- what holds in every reachable state -----

  /** At most one request is in flight; completions follow posts one for one, across counter wrap. */
  lemma CompletesOnceInOrder(c: Config, s: State)
    requires c.unit > 0 && Reachable(c, s)
    ensures s.done <= s.posted && |s.posted| - |s.done| <= 1
    ensures s.link.moveSem == s.link.moveProcessed ==> s.done == s.posted
    ensures !s.host.pc.Stopped? && s.link.moveSem != s.link.moveProcessed ==>
              |s.posted| == |s.done| + 1 && s.posted[|s.done|] == s.dev.request
  {
    ReachableIsSound(c, s);
  }

  /** The host's waits end exactly when the device has done its part: an old completion never ends a later wait. */
  lemma WaitsAreExact(c: Config, s: State)
    requires c.unit > 0 && Reachable(c, s)
    ensures s.host.pc.AwaitPush? ==> (s.link.evictDone == s.host.evictIssued <==> s.dev.pc.Draining?)
    ensures s.host.pc.AwaitDone? ==> (s.link.promoteDone == s.host.commitIssued <==> s.dev.pc.Draining?)
    ensures s.host.pc.AwaitDone? && c.noc ==>
              (s.link.hostDone == s.host.commitIssued <==> s.dev.pc.Consumed? || s.dev.pc.Draining?)
  {
    ReachableIsSound(c, s);
  }

  /** Until the device has drained it, a posted commit names the request it answers: what the kernel will commit. */
  lemma PostedCommitIsRequested(c: Config, s: State)
    requires c.unit > 0 && Reachable(c, s)
    requires s.dev.pc.Reading? || (s.dev.pc.AwaitCommit? && s.link.commitSem != s.dev.commitSeen)
    ensures var k, r := s.link.commit, s.dev.request;
            k.slot == r.slot && k.off == r.off && k.len == r.len && k.keyLen == r.keyLen
    ensures !Inbound(s.dev.request) && s.link.commit.slot in s.dev.dir
    ensures s.link.commit.len == |s.dev.dir[s.link.commit.slot].bytes|
  {
    ReachableIsSound(c, s);
  }

  /** The pool could give unit `u` to the write through in hand: it is free, or the slot's old value gives it up. */
  ghost predicate Available(h: Host, u: int) {
    || FreeUnit(h.store.free, u)
    || (h.request.slot in h.values && h.values[h.request.slot].Mapped?
        && h.values[h.request.slot].at.unit <= u < h.values[h.request.slot].at.unit + h.values[h.request.slot].at.units)
  }

  ghost predicate AvailableRun(h: Host, u: int, n: nat) {
    forall v | u <= v < u + n :: Available(h, v)
  }

  /** What each wait of the host ends on: for a supply, the completion line in host memory or the word on the device. */
  lemma WaitsEndOn(c: Config, s: State)
    requires c.unit > 0 && Reachable(c, s) && !s.host.cancelled
    ensures s.host.pc.Polling? ==> (Enabled(c, s, Poll) <==> s.link.moveSem != s.link.moveProcessed)
    ensures s.host.pc.AwaitPush? ==> (Enabled(c, s, SeePush) <==> s.dev.pc.Draining?)
    ensures s.host.pc.AwaitDone? ==>
              (Enabled(c, s, SeeDone) <==> s.dev.pc.Draining? || (c.noc && s.dev.pc.Consumed?))
  {
    WaitsAreExact(c, s);
    ReachableIsSound(c, s);
    SoundIsControlled(c, s);
    WaitsReady(c, s);
  }

  lemma WaitsReady(c: Config, s: State)
    requires c.unit > 0 && Control(c, s) && !s.host.cancelled
    ensures s.host.pc.Polling? ==> (Enabled(c, s, Poll) <==> s.link.moveSem != s.link.moveProcessed)
    ensures s.host.pc.AwaitPush? ==> (Enabled(c, s, SeePush) <==> s.link.evictDone == s.host.evictIssued)
    ensures s.host.pc.AwaitDone? ==>
              (Enabled(c, s, SeeDone) <==>
                 s.link.promoteDone == s.host.commitIssued || (c.noc && s.link.hostDone == s.host.commitIssued))
  {
  }

  /** A write through gets pool space exactly if the pool, without the slot's old value, has a long enough run. */
  lemma PoolIsUsedIfRoom(c: Config, s: State)
    requires c.unit > 0 && Reachable(c, s) && Enabled(c, s, TakeSpace)
    ensures var t := Do(c, s, TakeSpace).host;
            t.pc.Reserved? && (t.pc.r.None? <==> forall u: int :: !AvailableRun(s.host, u, Chunks(c, s.host)))
  {
    ReachableIsSound(c, s);
    var own :| Inv(c, s, own);
    ChecksHold(c, s, TakeSpace, own);
    var h := s.host;
    var g := if c.driver.Internal? then RetireSlot(c, h, h.request.slot) else h;
    DropIsAvailable(c, s, own);
    ReserveShape(c, g.store, h.request.slot, h.request.len);
    RunsAreAvailable(g.store.free, h, Chunks(c, h));
  }

  lemma RunsAreAvailable(free: FreeList, h: Host, n: nat)
    requires forall u :: FreeUnit(free, u) <==> Available(h, u)
    ensures forall u: int :: FreeRun(free, u, n) <==> AvailableRun(h, u, n)
  {
    forall u: int ensures FreeRun(free, u, n) <==> AvailableRun(h, u, n) {
      if FreeRun(free, u, n) {
        forall v | u <= v < u + n ensures Available(h, v) { assert FreeUnit(free, v); }
      }
      if AvailableRun(h, u, n) {
        forall v | u <= v < u + n ensures FreeUnit(free, v) { assert Available(h, v); }
      }
    }
  }

  /** A streamed value is published a whole block at a time, a mapped one at once. */
  lemma PostsWholeBlocks(c: Config, s: State)
    requires c.unit > 0 && Reachable(c, s) && Enabled(c, s, PublishBlock)
    ensures var p, n := s.link.progress, ChunkCount(c.unit, s.dev.request.len);
            p < n && Do(c, s, PublishBlock).link.progress ==
                     if Source(s.host).Heap? && p + c.blockChunks < n then p + c.blockChunks else n
  {
    ReachableIsSound(c, s);
    SoundIsControlled(c, s);
    PostsBlock(c, s);
    PublishIsStep(c, s);
  }

  lemma SoundIsControlled(c: Config, s: State)
    requires c.unit > 0 && Sound(c, s)
    ensures Control(c, s)
  {
  }

  lemma PublishIsStep(c: Config, s: State)
    requires c.unit > 0 && Ready(c, s, PublishBlock)
    ensures Do(c, s, PublishBlock) == PublishBlockStep(c, s)
  {
  }

  lemma PostsBlock(c: Config, s: State)
    requires c.unit > 0 && s.host.pc.Streaming? && Control(c, s)
    ensures var p, n := s.link.progress, ChunkCount(c.unit, s.dev.request.len);
            p < n && PublishBlockStep(c, s).link.progress ==
                     if Source(s.host).Heap? && p + c.blockChunks < n then p + c.blockChunks else n
  {
  }

  /** What is free once the old value is dropped. */
  lemma DropIsAvailable(c: Config, s: State, own: seq<Owner>)
    requires c.unit > 0 && Inv(c, s, own) && Ready(c, s, TakeSpace)
    ensures var g := if c.driver.Internal? then RetireSlot(c, s.host, s.host.request.slot) else s.host;
            Shaped(c, g.store) && forall u :: FreeUnit(g.store.free, u) <==> Available(s.host, u)
  {
    var h := s.host;
    var slot := h.request.slot;
    if c.driver.Internal? && slot in h.values && h.values[slot].Mapped? {
      var v := h.values[slot];
      OwnedIsNotFree(c, h.values, h.store.free, InTransit(h), own, v.at, v.len, ValueOf(slot));
      GiveBackAdds(c, h.store.free, v.at);
    }
  }

  /** Published progress never runs ahead of the staged bytes, for a reader of any speed, and ends at the last chunk. */
  lemma StreamingIsSafe(c: Config, s: State)
    requires c.unit > 0 && Reachable(c, s) && c.noc
    requires s.dev.request.kind.ServeGet? && (s.dev.pc.Reading? || s.dev.pc.AwaitCommit?)
    requires s.link.commitSem == s.host.commitIssued && (s.dev.pc.AwaitCommit? ==> s.link.commitSem != s.dev.commitSeen)
    ensures var shown := Min(s.link.progress * c.unit, s.dev.request.len);
            s.dev.request.slot in s.dev.dir && shown <= |s.dev.dir[s.dev.request.slot].bytes|
            && Window(s.arena, s.link.commit.readOff, shown) == s.dev.dir[s.dev.request.slot].bytes[..shown]
    ensures s.host.pc.AwaitDone? ==> s.link.progress == ChunkCount(c.unit, s.dev.request.len)
  {
    ReachableIsSound(c, s);
  }

  /** No push, whatever its slot, changes a stored value. */
  lemma PushesSpareValues(c: Config, s: State)
    requires c.unit > 0 && Reachable(c, s) && Enabled(c, s, PushByte)
    ensures Image(Do(c, s, PushByte).arena, s.host.values) == Image(s.arena, s.host.values)
  {
    ReachableIsSound(c, s);
    var own :| Inv(c, s, own);
    PushKeepsImage(c, s, own);
  }

  /**
    Free, stored and in-transit units always make up the pool, and the manager is charged for its leases exactly.
    In transit are the extent of the write through under way and, in a stopped worker, the one it left behind.
  */
  lemma UnitsAreConserved(c: Config, s: State)
    requires c.unit > 0 && Reachable(c, s)
    ensures Total(s.host.store.free) + SumUnits(s.host.values) + TransitUnits(InTransit(s.host)) == c.total
    ensures c.driver.External? ==>
              s.host.store.inUse == SumUnits(s.host.values)
                  + (if s.host.pc.Received? then TransitUnits(InTransit(s.host)) else 0)
  {
    ReachableIsSound(c, s);
  }

  /** What the close counts before it clears the values: free units, and the units of every value still stored. */
  ghost function Accounted(h: Host): nat {
    Total(h.store.free) + SumUnits(h.values)
  }

  /**
    The close-time accounting of a stopped worker comes out exactly if no reservation was left behind, whatever values
    are still stored; otherwise it is short by that reservation.
  */
  lemma LeakIsOrphan(c: Config, s: State)
    requires c.unit > 0 && Reachable(c, s) && s.host.pc.Stopped?
    ensures Accounted(s.host) == c.total <==> s.host.pc.orphan.None?
    ensures s.host.pc.orphan.Some? ==> Accounted(s.host) + s.host.pc.orphan.value.units == c.total
  {
    UnitsAreConserved(c, s);
    ReachableIsSound(c, s);
    if s.host.pc.orphan.Some? {
      ChunkCountIsCeiling(c.unit, s.host.request.len);
    }
  }

  /** A cancelled wait always ends the worker, and what it had reserved goes back to the pool. */
  lemma CancelGivesBack(c: Config, s: State)
    requires c.unit > 0 && Reachable(c, s) && s.host.cancelled
    requires s.host.pc.Polling? || s.host.pc.AwaitPush? || s.host.pc.AwaitDone?
    ensures Enabled(c, s, Stop)
    ensures var t := Do(c, s, Stop).host;
            t.pc == Stopped(None) && t.values == s.host.values && Accounted(t) == c.total
  {
    ReachableIsSound(c, s);
    StopIsReady(c, s);
    StepKeepsInv(c, s, Stop);
    StopsClean(c, s);
    NothingLeftBehind(c, Do(c, s, Stop));
  }

  lemma StopIsReady(c: Config, s: State)
    requires c.unit > 0 && s.host.cancelled
    requires s.host.pc.Polling? || s.host.pc.AwaitPush? || s.host.pc.AwaitDone?
    ensures Enabled(c, s, Stop)
  {
  }

  lemma StopsClean(c: Config, s: State)
    requires c.unit > 0 && Ready(c, s, Stop)
    ensures Do(c, s, Stop).host.pc == Stopped(None) && Do(c, s, Stop).host.values == s.host.values
  {
  }

  lemma NothingLeftBehind(c: Config, s: State)
    requires c.unit > 0 && Sound(c, s) && InTransit(s.host).None?
    ensures Accounted(s.host) == c.total
  {
  }

  /**
    Once a stopped host holds no values nothing is charged, and the pool is one free extent again exactly if no
    reservation was left behind; then no metadata is left either.
  */
  lemma EmptiedPoolIsWhole(c: Config, s: State)
    requires c.unit > 0 && Reachable(c, s) && s.host.pc.Stopped? && s.host.values == map[]
    ensures s.host.store.free == Whole(c.total) <==> s.host.pc.orphan.None?
    ensures c.driver.External? ==> s.host.store.inUse == 0
    ensures s.host.pc.orphan.None? ==> forall k | 0 <= k < |s.host.store.meta| :: s.host.store.meta[k] == BLANK
  {
    LeakIsOrphan(c, s);
    ReachableIsSound(c, s);
    var own :| Inv(c, s, own);
    if s.host.pc.orphan.None? {
      EmptyStoreIsWhole(c, s.host.store, own);
      FullTotalIsWhole(s.host.store.free, c.total);
    } else {
      assert Total(Whole(c.total)) == c.total;
    }
  }

  /** A reservation is left behind only by a device access that throws in the middle of a transfer. */
  lemma {:induction false} OrphanNeedsBrokenAccess(c: Config, s: State, acts: seq<Action>)
    requires c.unit > 0 && Runs(c, s, acts) && (s.host.pc.Stopped? ==> s.host.pc.orphan.None?)
    requires forall i | 0 <= i < |acts| :: !acts[i].IoFails?
    ensures After(c, s, acts).host.pc.Stopped? ==> After(c, s, acts).host.pc.orphan.None?
    decreases |acts|
  {
    if acts != [] {
      NoOrphanStep(c, s, acts[0]);
      OrphanNeedsBrokenAccess(c, Do(c, s, acts[0]), acts[1..]);
    }
  }

  lemma NoOrphanStep(c: Config, s: State, a: Action)
    requires c.unit > 0 && Ready(c, s, a) && !a.IoFails? && (s.host.pc.Stopped? ==> s.host.pc.orphan.None?)
    ensures Do(c, s, a).host.pc.Stopped? ==> Do(c, s, a).host.pc.orphan.None?
  {
    if DeviceAction(a) {
      assert Do(c, s, a).host == s.host;
    } else if SupplyAction(a) {
      SupplyNeverStops(c, s, a);
    }
  }

  lemma SupplyNeverStops(c: Config, s: State, a: Action)
    requires c.unit > 0 && Ready(c, s, a) && SupplyAction(a)
    ensures !HostStep(c, s, a).host.pc.Stopped?
  {
  }

  lemma RunsFrom(c: Config, s: State, a: Action, rest: seq<Action>, t: State)
    requires c.unit > 0 && Enabled(c, s, a) && Runs(c, Do(c, s, a), rest) && After(c, Do(c, s, a), rest) == t
    ensures Runs(c, s, [a] + rest) && After(c, s, [a] + rest) == t
  {
    assert ([a] + rest)[1..] == rest;
  }

  lemma TakesFirst(c: Config, s: State)
    requires ValidConfig(c) && c.driver.External? && c.noc && c.total > 0 && c.unit == 1 && c.maxKeys == 1
    requires s.host.pc.Erased? && s.host.request == Request(WriteThrough, 0, 0, 1, 0)
    requires s.host.values == map[] && s.host.store == StoreAtStart(c)
    ensures Enabled(c, s, TakeSpace)
    ensures var t := Do(c, s, TakeSpace).host; t.pc.Reserved? && t.pc.r.Some? && t.values == map[]
  {
    assert s.host.store.free == [Extent(0, c.total)];
    assert Alloc([Extent(0, c.total)], 1).0 == Some(0);
  }

  /** From a decoded write through with the whole pool free, the first device access after the reservation throws. */
  lemma OrphanTail(c: Config, s: State) returns (acts: seq<Action>)
    requires ValidConfig(c) && c.driver.External? && c.noc && c.total > 0 && c.unit == 1 && c.maxKeys == 1
    requires s.host.pc.Decoded? && s.host.request == Request(WriteThrough, 0, 0, 1, 0)
    requires s.host.values == map[] && s.host.store == StoreAtStart(c)
    ensures Runs(c, s, acts)
    ensures var t := After(c, s, acts).host; t.pc.Stopped? && t.pc.orphan.Some? && t.values == map[]
  {
    var s4 := Do(c, s, Erase);
    TakesFirst(c, s4);
    var s5 := Do(c, s4, TakeSpace);
    var s6 := Do(c, s5, IoFails);
    RunsFrom(c, s5, IoFails, [], s6);
    RunsFrom(c, s4, TakeSpace, [IoFails] + [], s6);
    acts := [TakeSpace] + ([IoFails] + []);
    RunsFrom(c, s, Erase, acts, s6);
    acts := [Erase] + acts;
  }

  /** A run that loses a reservation: one write through, and one device access that throws. */
  lemma OrphanWitness() returns (c: Config, s: State, acts: seq<Action>)
    ensures ValidConfig(c) && Initial(c, s) && Runs(c, s, acts)
    ensures var t := After(c, s, acts).host; t.pc.Stopped? && t.pc.orphan.Some? && t.values == map[]
  {
    c := Config(External, true, 1, 1, 4, 4, 2, 1, 2, 4, 8, Layout(1, 1, 1, 0));
    var m := seq<byte>(6, _ => 0);
    s := StartAt(c, 0, m);
    var r := Request(WriteThrough, 0, 0, 1, 0);
    var s1 := Do(c, s, WriteSlot(r, [7], []));
    var s2 := Do(c, s1, PostMove);
    var s3 := Do(c, s2, Poll);
    acts := OrphanTail(c, s3);
    var t := After(c, s3, acts);
    RunsFrom(c, s2, Poll, acts, t);
    RunsFrom(c, s1, PostMove, [Poll] + acts, t);
    acts := [PostMove] + ([Poll] + acts);
    RunsFrom(c, s, WriteSlot(r, [7], []), acts, t);
    acts := [WriteSlot(r, [7], [])] + acts;
    assert |m| == SliceBytes(c) && s == StartAt(c, 0, m);
  }

  lemma PlacedFits(c: Config, r: Reservation, len: nat)
    requires ValidConfig(c) && Placed(c, r, len)
    ensures Word(r.readOff) == r.readOff && Word(len) == len
  {
    ByteUnit(c, r, len, r.readOff + len - 1);
  }

  /** The metadata names extent `r`, and not one of its units is free. */
  ghost predicate Names(s: State, k: nat, r: Reservation, len: nat) {
    && k < |s.host.store.meta| && r.readOff < WORD_RANGE && len < WORD_RANGE
    && s.host.store.meta[k] == Published(r.generation, r.readOff, len)
    && NoFreeUnit(s.host.store.free, r.unit, r.units)
  }

  /** A slot's valid metadata names the extent its stored value, or its own reservation, still owns. */
  lemma NoDanglingMetadata(c: Config, s: State, k: nat)
    requires c.unit > 0 && Reachable(c, s) && k < |s.host.store.meta| && s.host.store.meta[k] != BLANK
    ensures var t := InTransit(s.host); var values := s.host.values;
            if t.Some? && t.value.slot == k then Names(s, k, t.value.r, t.value.len)
            else k in values && values[k].Mapped? && Names(s, k, values[k].at, values[k].len)
  {
    ReachableIsSound(c, s);
    var own :| Inv(c, s, own);
    var t, values, free := InTransit(s.host), s.host.values, s.host.store.free;
    assert s.host.store.meta[k] == MetaOf(values, t, k);
    if t.Some? && t.value.slot == k {
      PlacedFits(c, t.value.r, t.value.len);
      OwnedIsNotFree(c, values, free, t, own, t.value.r, t.value.len, Transfer);
    } else {
      PlacedFits(c, values[k].at, values[k].len);
      OwnedIsNotFree(c, values, free, t, own, values[k].at, values[k].len, ValueOf(k));
    }
  }

  /** The device is neither writing slot `k` through nor removing it. */
  predicate Undisturbed(d: Device, k: nat) {
    d.pc.Quiet? || d.request.slot != k || !Inbound(d.request)
  }

  /** A worker that broke off in the middle of a write through of slot `k` left its extent and metadata behind. */
  predicate BrokenOff(h: Host, k: nat) {
    h.pc.Stopped? && h.pc.orphan.Some? && h.request.slot == k
  }

  /** Whatever request is in flight, slot `k`'s own stored value is what the directory records of it. */
  lemma StoredIsRecorded(c: Config, s: State, k: nat)
    requires c.unit > 0 && Control(c, s) && Requests(c, s) && Agreement(s)
    requires Undisturbed(s.dev, k) && k in s.dev.dir && k in s.host.values
    ensures EntryOf(s.arena, s.host.values[k]) == s.dev.dir[k]
  {
    assert k in Image(s.arena, s.host.values);
    assert k in Wanted(s) && Wanted(s)[k] == s.dev.dir[k];
  }

  /** Metadata that carries the directory's generation is that of the slot's stored value. */
  lemma CarriesStored(c: Config, s: State, k: nat)
    requires c.unit > 0 && Reachable(c, s) && Undisturbed(s.dev, k) && !BrokenOff(s.host, k)
    requires k < |s.host.store.meta| && s.host.store.meta[k] != BLANK
    ensures k in s.host.values && s.host.values[k].Mapped?
    ensures var m, v := s.host.store.meta[k], s.host.values[k];
            m.readOff == v.at.readOff && m.totalLen == v.len && v.at.readOff != 0
  {
    NoDanglingMetadata(c, s, k);
    ReachableIsSound(c, s);
    RequestInTransit(c, s);
    NotInTransit(s, k);
    StoredIsPlaced(c, s, k);
    PlacedFits(c, s.host.values[k].at, s.host.values[k].len);
  }

  lemma StoredIsPlaced(c: Config, s: State, k: nat)
    requires c.unit > 0 && Sound(c, s) && k in s.host.values && s.host.values[k].Mapped?
    ensures Placed(c, s.host.values[k].at, s.host.values[k].len)
    ensures s.host.values[k].at.readOff != 0
  {
  }

  lemma RequestInTransit(c: Config, s: State)
    requires c.unit > 0 && Sound(c, s)
    ensures s.host.pc.Stopped? || s.host.pc.Polling? || s.host.request == s.dev.request
    ensures s.host.pc.Received? || Held(s.host.pc).Some? ==> !s.dev.pc.Quiet? && Inbound(s.dev.request)
  {
  }

  /** The extent in transit belongs to the request in flight, or to the write through that broke off. */
  lemma NotInTransit(s: State, k: nat)
    requires s.host.pc.Stopped? || s.host.pc.Polling? || s.host.request == s.dev.request
    requires s.host.pc.Received? || Held(s.host.pc).Some? ==> !s.dev.pc.Quiet? && Inbound(s.dev.request)
    requires Undisturbed(s.dev, k) && !BrokenOff(s.host, k)
    ensures InTransit(s.host).Some? ==> InTransit(s.host).value.slot != k
  {
  }

  /**
    The device may read a slot's extent without asking the host whenever it finds the generation its directory
    recorded: while a promote or any request for another slot is in flight, and after the worker has stopped.
  */
  lemma DirectReadIsCurrent(c: Config, s: State, k: nat)
    requires c.unit > 0 && Reachable(c, s) && Undisturbed(s.dev, k) && !BrokenOff(s.host, k)
    requires k < |s.host.store.meta| && k in s.dev.dir && Carries(s.host.store.meta[k], s.dev.dir[k].generation)
    ensures var m := s.host.store.meta[k];
            m.readOff != 0 && m.totalLen == |s.dev.dir[k].bytes|
                && Window(s.arena, m.readOff, m.totalLen) == s.dev.dir[k].bytes
  {
    CarriesStored(c, s, k);
    ReachableIsSound(c, s);
    StoredIsRecorded(c, s, k);
  }
}
