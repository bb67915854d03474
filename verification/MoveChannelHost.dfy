/** No step of the host breaks the data invariant, and none of its checks fires. */
module MoveChannelHost {
  import opened Words
  import opened FreeExtents
  import opened PoolMetadata
  import opened TierSpec
  import opened MoveChannel
  import opened MoveChannelControl
  import opened BackingStore
  import opened MoveChannelData
  import opened MoveChannelDevice

  ghost function FreeSlot(values: Values, slot: nat, own: seq<Owner>): seq<Owner> {
    if slot in values && values[slot].Mapped? then Assign(own, values[slot].at, NoOwner) else own
  }

  /** Who owns the pool's units after a host step. */
  ghost function NextOwn(c: Config, h: Host, a: Action, own: seq<Owner>): seq<Owner>
    requires c.unit > 0
  {
    var t := InTransit(h);
    match a
    case Erase => FreeSlot(h.values, h.request.slot, own)
    case TakeSpace =>
      var g := if c.driver.Internal? then FreeSlot(h.values, h.request.slot, own) else own;
      var p := TakeSpaceStep(c, h).pc;
      if p.Reserved? && p.r.Some? then Assign(g, p.r.value, Transfer) else g
    case Publish(leaseFails) =>
      if t.None? || (!leaseFails && c.driver.External?) then own
      else Assign(own, t.value.r, if leaseFails then NoOwner else ValueOf(h.request.slot))
    case Insert => if t.None? then own else Assign(own, t.value.r, ValueOf(h.request.slot))
    case Stop => if t.None? then own else Assign(own, t.value.r, NoOwner)
    case DropValue(slot) => FreeSlot(h.values, slot, own)
    case _ => own
  }

  ghost predicate HostMoves(c: Config, s: State, a: Action, own: seq<Owner>)
    requires c.unit > 0
  {
    Inv(c, s, own) && Enabled(c, s, a) && !DeviceAction(a)
  }

  /** A supply finds the slot's value, and its bytes are the ones due. */
  lemma SourceIsDue(c: Config, s: State)
    requires c.unit > 0 && Control(c, s) && Requests(c, s) && Agreement(s)
    requires !s.host.pc.Stopped? && !s.host.pc.Polling? && !Inbound(s.host.request)
    ensures s.host.request == s.dev.request && s.host.request.slot in s.host.values
    ensures s.host.request.slot in s.dev.dir && ValueBytes(s.arena, Source(s.host)) == Due(s.dev)
    ensures |Due(s.dev)| == s.host.request.len <= c.maxValue
  {
    var slot := s.host.request.slot;
    assert slot in Wanted(s);
    assert slot in Image(s.arena, s.host.values);
  }

  lemma BeginChecks(c: Config, s: State, own: seq<Owner>)
    requires c.unit > 0 && HostMoves(c, s, Begin, own)
    ensures !BeginStep(c, s.host).pc.CheckFailed?
  {
    SourceIsDue(c, s);
  }

  lemma SupplyChecks(c: Config, s: State, a: Action)
    requires c.unit > 0 && Ready(c, s, a) && SupplyAction(a) && !a.Begin?
    ensures !HostStep(c, s, a).host.pc.CheckFailed?
  {
  }

  lemma OtherChecks(c: Config, s: State, a: Action)
    requires c.unit > 0 && Control(c, s) && Requests(c, s) && Inflow(s) && Ready(c, s, a) && !DeviceAction(a)
    requires !SupplyAction(a) && |s.host.store.meta| == |s.host.store.generations| == c.maxKeys
    ensures !HostStep(c, s, a).host.pc.CheckFailed?
  {
  }

  /** None of the host's checks fires while the device keeps its contract. */
  lemma ChecksHold(c: Config, s: State, a: Action, own: seq<Owner>)
    requires c.unit > 0 && HostMoves(c, s, a, own)
    ensures !HostStep(c, s, a).host.pc.CheckFailed?
  {
    if a.Begin? { BeginChecks(c, s, own); }
    else if SupplyAction(a) { SupplyChecks(c, s, a); }
    else { OtherChecks(c, s, a); }
  }

  // ----- stored values and extents -----

  lemma RetireKeepsStored(c: Config, h: Host, t: Option<Transit>, own: seq<Owner>, slot: nat)
    requires ValidConfig(c) && StoreInv(c, h.values, h.store, t, own)
    ensures var g := RetireSlot(c, h, slot);
            StoreInv(c, g.values, g.store, t, FreeSlot(h.values, slot, own)) && slot !in g.values
  {
    if slot in h.values {
      if h.values[slot].Heap? { RetireHeapKeeps(c, h.values, h.store, t, own, slot); }
      else { RetireMappedKeeps(c, h.values, h.store, t, own, slot); }
    }
  }

  lemma TakeSpaceKeepsStored(c: Config, s: State, own: seq<Owner>)
    requires c.unit > 0 && HostMoves(c, s, TakeSpace, own)
    ensures Stored(c, TakeSpaceStep(c, s.host), NextOwn(c, s.host, TakeSpace, own))
  {
    var h := s.host;
    var slot := h.request.slot;
    RetireKeepsStored(c, h, None, own, slot);
    var g := if c.driver.Internal? then RetireSlot(c, h, slot) else h;
    var own' := if c.driver.Internal? then FreeSlot(h.values, slot, own) else own;
    ReserveKeeps(c, g.values, g.store, own', slot, h.request.len);
  }

  lemma PublishKeepsStored(c: Config, s: State, leaseFails: bool, own: seq<Owner>)
    requires c.unit > 0 && HostMoves(c, s, Publish(leaseFails), own)
    ensures Stored(c, PublishStep(c, s, leaseFails), NextOwn(c, s.host, Publish(leaseFails), own))
  {
    var h := s.host;
    var t := InTransit(h);
    if leaseFails {
      AbandonKeeps(c, h.values, h.store, own, t.value);
    } else if c.driver.External? {
      if t.Some? { LeaseKeeps(c, h.values, h.store, own, t.value); }
    } else {
      if t.Some? { InsertKeeps(c, h.values, h.store, own, t.value); }
      else { InsertHeapKeeps(c, h.values, h.store, own, h.request.slot, LandedValue(s).bytes); }
    }
  }

  lemma InsertKeepsStored(c: Config, s: State, own: seq<Owner>)
    requires c.unit > 0 && HostMoves(c, s, Insert, own)
    ensures Stored(c, InsertStep(s.host), NextOwn(c, s.host, Insert, own))
  {
    var h := s.host;
    ChecksHold(c, s, Insert, own);
    if h.pc.v.Mapped? { InsertKeeps(c, h.values, h.store, own, InTransit(h).value); }
    else { InsertHeapKeeps(c, h.values, h.store, own, h.request.slot, h.pc.v.bytes); }
  }

  lemma StopKeepsStored(c: Config, s: State, own: seq<Owner>)
    requires c.unit > 0 && HostMoves(c, s, Stop, own)
    ensures Stored(c, StopStep(c, s.host), NextOwn(c, s.host, Stop, own))
  {
    var h := s.host;
    if InTransit(h).Some? { AbandonKeeps(c, h.values, h.store, own, InTransit(h).value); }
  }

  /** A transfer that breaks off leaves its reservation with nobody to give it back. */
  lemma IoFailsKeepsStored(c: Config, s: State, own: seq<Owner>)
    requires c.unit > 0 && HostMoves(c, s, IoFails, own)
    ensures Stored(c, HostStep(c, s, IoFails).host, own)
  {
    assert InTransit(HostStep(c, s, IoFails).host) == InTransit(s.host);
  }

  lemma ReadDeviceKeepsStored(c: Config, s: State, own: seq<Owner>)
    requires c.unit > 0 && HostMoves(c, s, ReadDevice, own)
    ensures Stored(c, HostStep(c, s, ReadDevice).host, own)
  {
    var h := s.host;
    if c.driver.Internal? { InsertHeapKeeps(c, h.values, h.store, own, h.request.slot, s.dev.value); }
  }

  lemma StoreActionStored(c: Config, s: State, a: Action, own: seq<Owner>)
    requires c.unit > 0 && HostMoves(c, s, a, own) && StoreAction(a)
    ensures Stored(c, HostStep(c, s, a).host, NextOwn(c, s.host, a, own))
  {
    var h := s.host;
    match a
    case Erase => RetireKeepsStored(c, h, None, own, h.request.slot);
    case TakeSpace => TakeSpaceKeepsStored(c, s, own);
    case Publish(leaseFails) => PublishKeepsStored(c, s, leaseFails, own);
    case Insert => InsertKeepsStored(c, s, own);
    case Stop => StopKeepsStored(c, s, own);
    case IoFails => IoFailsKeepsStored(c, s, own);
    case DropValue(slot) => RetireKeepsStored(c, h, InTransit(h), own, slot);
    case ReadDevice => ReadDeviceKeepsStored(c, s, own);
  }

  /** Two hosts that hold the same values, pool and extent in transit. */
  predicate SameHoldings(h: Host, g: Host) {
    && g.values == h.values && g.store == h.store && InTransit(g) == InTransit(h)
    && Emptied(g.pc) == Emptied(h.pc) && (Emptied(g.pc) ==> g.request == h.request) && g.pc.Stopped? == h.pc.Stopped?
  }

  lemma BeginFrame(c: Config, s: State)
    requires c.unit > 0 && Ready(c, s, Begin)
    ensures SameHoldings(s.host, BeginStep(c, s.host))
  {
  }

  lemma StagingFrame(c: Config, s: State, a: Action)
    requires c.unit > 0 && Ready(c, s, a) && StagingAction(a)
    ensures SameHoldings(s.host, HostStep(c, s, a).host)
  {
  }

  lemma PostingFrame(c: Config, s: State, a: Action)
    requires c.unit > 0 && Ready(c, s, a) && PostingAction(a)
    ensures SameHoldings(s.host, HostStep(c, s, a).host)
  {
  }

  lemma SupplyFrame(c: Config, s: State, a: Action)
    requires c.unit > 0 && Ready(c, s, a) && SupplyAction(a)
    ensures SameHoldings(s.host, HostStep(c, s, a).host)
  {
    if a.Begin? { BeginFrame(c, s); }
    else if StagingAction(a) { StagingFrame(c, s, a); }
    else if PostingAction(a) { PostingFrame(c, s, a); }
  }

  lemma OtherActionFrame(c: Config, s: State, a: Action)
    requires c.unit > 0 && Ready(c, s, a) && !DeviceAction(a) && !StoreAction(a)
    ensures SameHoldings(s.host, HostStep(c, s, a).host)
  {
    if SupplyAction(a) { SupplyFrame(c, s, a); }
  }

  lemma HostStored(c: Config, s: State, a: Action, own: seq<Owner>)
    requires c.unit > 0 && HostMoves(c, s, a, own)
    ensures Stored(c, HostStep(c, s, a).host, NextOwn(c, s.host, a, own))
  {
    if StoreAction(a) {
      StoreActionStored(c, s, a, own);
    } else {
      OtherActionFrame(c, s, a);
    }
  }

  // ----- agreement with the directory -----

  lemma ImageWithout(arena: seq<byte>, values: Values, slot: nat)
    ensures Image(arena, values - {slot}) == Image(arena, values) - {slot}
  {
  }

  lemma ImageWith(arena: seq<byte>, values: Values, slot: nat, v: HostValue)
    ensures Image(arena, values[slot := v]) == Image(arena, values)[slot := EntryOf(arena, v)]
  {
  }

  lemma RetireImage(c: Config, arena: seq<byte>, h: Host, own: seq<Owner>, slot: nat)
    requires c.unit > 0 && Stored(c, h, own)
    ensures Image(arena, RetireSlot(c, h, slot).values) == Image(arena, h.values) - {slot}
  {
    ImageWithout(arena, h.values, slot);
    if slot !in h.values { assert slot !in Image(arena, h.values); }
  }

  lemma EraseAgrees(c: Config, s: State, own: seq<Owner>)
    requires c.unit > 0 && HostMoves(c, s, Erase, own)
    ensures Agreement(HostStep(c, s, Erase))
  {
    RetireImage(c, s.arena, s.host, own, s.host.request.slot);
    var t := HostStep(c, s, Erase);
    assert Wanted(t) == Wanted(s) - {s.host.request.slot};
  }

  lemma TakeSpaceAgrees(c: Config, s: State, own: seq<Owner>)
    requires c.unit > 0 && HostMoves(c, s, TakeSpace, own)
    ensures Agreement(HostStep(c, s, TakeSpace))
  {
    RetireImage(c, s.arena, s.host, own, s.host.request.slot);
    ChecksHold(c, s, TakeSpace, own);
    var t := HostStep(c, s, TakeSpace);
    assert t.host.pc.Reserved?;
    assert Wanted(t) == if c.driver.Internal? then Wanted(s) - {s.host.request.slot} else Wanted(s);
  }

  /** A value that has arrived is stored as the entry the directory will hold once the request drains. */
  lemma ArrivedIsWanted(s: State)
    requires s.host.pc.Landed? && Arrived(s, s.host.pc.r)
    ensures EntryOf(s.arena, LandedValue(s)) == Entry(s.dev.value, s.dev.pc.generation)
  {
  }

  /** Storing the slot's new value, as the entry that was written through. */
  lemma StoringAgrees(s: State, t: State, v: HostValue)
    requires Agreement(s) && !s.host.pc.Stopped? && Emptied(s.host.pc) && t.host.pc.Served?
    requires s.dev.request.kind.WriteThrough? && s.dev.pc.Draining? && s.link.moveSem != s.link.moveProcessed
    requires t.dev == s.dev && t.arena == s.arena && t.host.values == s.host.values[s.dev.request.slot := v]
    requires EntryOf(s.arena, v) == Entry(s.dev.value, s.dev.pc.generation)
    ensures Agreement(t)
  {
    var slot := s.dev.request.slot;
    ImageWith(s.arena, s.host.values, slot, v);
    assert Wanted(s) == s.dev.dir - {slot};
    assert Wanted(t) == Wanted(s)[slot := EntryOf(s.arena, v)];
  }

  lemma PublishAgrees(c: Config, s: State, leaseFails: bool, own: seq<Owner>)
    requires c.unit > 0 && HostMoves(c, s, Publish(leaseFails), own)
    ensures Agreement(HostStep(c, s, Publish(leaseFails)))
  {
    if c.driver.Internal? {
      ArrivedIsWanted(s);
      StoringAgrees(s, HostStep(c, s, Publish(leaseFails)), LandedValue(s));
    }
  }

  lemma InsertAgrees(c: Config, s: State, own: seq<Owner>)
    requires c.unit > 0 && HostMoves(c, s, Insert, own)
    ensures Agreement(HostStep(c, s, Insert))
  {
    ChecksHold(c, s, Insert, own);
    StoringAgrees(s, HostStep(c, s, Insert), s.host.pc.v);
  }

  lemma ReadDeviceAgrees(c: Config, s: State, own: seq<Owner>)
    requires c.unit > 0 && HostMoves(c, s, ReadDevice, own)
    ensures Agreement(HostStep(c, s, ReadDevice))
  {
    if c.driver.Internal? {
      StoringAgrees(s, HostStep(c, s, ReadDevice), Heap(s.dev.value));
    }
  }

  /** Stopping keeps what is stored; a write through still in flight is not stored. */
  lemma StopAgrees(c: Config, s: State, own: seq<Owner>)
    requires c.unit > 0 && HostMoves(c, s, Stop, own)
    ensures Agreement(HostStep(c, s, Stop))
  {
    var t := HostStep(c, s, Stop);
    if !Inbound(s.dev.request) || s.dev.pc.Quiet? {
      assert Wanted(t) == Wanted(s);
    }
  }

  lemma IoFailsAgrees(c: Config, s: State, own: seq<Owner>)
    requires c.unit > 0 && HostMoves(c, s, IoFails, own)
    ensures Agreement(HostStep(c, s, IoFails))
  {
  }

  lemma DropAgrees(c: Config, s: State, slot: nat, own: seq<Owner>)
    requires c.unit > 0 && HostMoves(c, s, DropValue(slot), own)
    ensures Agreement(HostStep(c, s, DropValue(slot)))
  {
    RetireImage(c, s.arena, s.host, own, slot);
    assert HostStep(c, s, DropValue(slot)) == s.(host := RetireSlot(c, s.host, slot));
  }

  lemma SupplyWants(c: Config, s: State, a: Action)
    requires c.unit > 0 && Control(c, s) && Ready(c, s, a) && SupplyAction(a)
    requires !HostStep(c, s, a).host.pc.CheckFailed?
    ensures Wanted(HostStep(c, s, a)) == Wanted(s)
  {
    if StagingAction(a) { StagingWants(c, s, a); }
    else if PostingAction(a) { PostingWants(c, s, a); }
  }

  lemma StagingWants(c: Config, s: State, a: Action)
    requires c.unit > 0 && Ready(c, s, a) && StagingAction(a)
    ensures Wanted(HostStep(c, s, a)) == Wanted(s)
  {
  }

  lemma PostingWants(c: Config, s: State, a: Action)
    requires c.unit > 0 && Ready(c, s, a) && PostingAction(a)
    ensures Wanted(HostStep(c, s, a)) == Wanted(s)
  {
  }

  lemma HostWants(c: Config, s: State, a: Action)
    requires c.unit > 0 && Control(c, s) && Ready(c, s, a) && !DeviceAction(a) && !StoreAction(a)
    requires !HostStep(c, s, a).host.pc.CheckFailed?
    ensures Wanted(HostStep(c, s, a)) == Wanted(s)
  {
    if SupplyAction(a) { SupplyWants(c, s, a); }
  }

  /** Staging writes land below the pool. */
  lemma StagingKeepsImage(c: Config, s: State, a: Action, own: seq<Owner>)
    requires c.unit > 0 && HostMoves(c, s, a, own) && (a.CopyByte? || a.StreamByte?)
    ensures Image(HostStep(c, s, a).arena, s.host.values) == Image(s.arena, s.host.values)
  {
    SourceIsDue(c, s);
    var at := s.host.pc.at;
    if at < s.host.request.len {
      PutKeepsImage(c, s, own, at, At(ValueBytes(s.arena, Source(s.host)), at));
    }
  }

  lemma OtherActionAgrees(c: Config, s: State, a: Action, own: seq<Owner>)
    requires c.unit > 0 && HostMoves(c, s, a, own) && !StoreAction(a)
    ensures Agreement(HostStep(c, s, a))
  {
    ChecksHold(c, s, a, own);
    OtherActionFrame(c, s, a);
    HostWants(c, s, a);
    OtherActionImage(c, s, a, own);
    AgreementFrame(s, HostStep(c, s, a));
  }

  lemma OtherActionImage(c: Config, s: State, a: Action, own: seq<Owner>)
    requires c.unit > 0 && HostMoves(c, s, a, own) && !StoreAction(a)
    ensures Image(HostStep(c, s, a).arena, s.host.values) == Image(s.arena, s.host.values)
  {
    if a.CopyByte? || a.StreamByte? { StagingKeepsImage(c, s, a, own); }
  }

  lemma HostAgrees(c: Config, s: State, a: Action, own: seq<Owner>)
    requires c.unit > 0 && HostMoves(c, s, a, own)
    ensures Agreement(HostStep(c, s, a))
  {
    if StoreAction(a) {
      match a
      case Erase => EraseAgrees(c, s, own);
      case TakeSpace => TakeSpaceAgrees(c, s, own);
      case Publish(leaseFails) => PublishAgrees(c, s, leaseFails, own);
      case Insert => InsertAgrees(c, s, own);
      case Stop => StopAgrees(c, s, own);
      case IoFails => IoFailsAgrees(c, s, own);
      case DropValue(slot) => DropAgrees(c, s, slot, own);
      case ReadDevice => ReadDeviceAgrees(c, s, own);
    } else {
      OtherActionAgrees(c, s, a, own);
    }
  }

  // ----- pushes and arrivals -----

  lemma ClearAfter(c: Config, own: seq<Owner>, r: Reservation, o: Owner, off: nat, len: nat)
    requires c.unit > 0 && Clear(c, own, off, len) && !o.ValueOf?
    ensures Clear(c, Assign(own, r, o), off, len)
  {
    var own' := Assign(own, r, o);
    assert forall u :: LiveUnit(own', u) ==> LiveUnit(own, u);
    forall i: nat | off <= i < off + len ensures !LiveByte(c, own', i) {
      assert !LiveByte(c, own, i);
    }
  }

  /** Only storing a value makes units live, and then the device is not pushing. */
  lemma HostKeepsClear(c: Config, s: State, a: Action, own: seq<Owner>, off: nat, len: nat)
    requires c.unit > 0 && HostMoves(c, s, a, own) && Clear(c, own, off, len)
    requires !a.Insert? && (a.Publish? ==> a.leaseFails || c.driver.External?)
    ensures Clear(c, NextOwn(c, s.host, a, own), off, len)
  {
    var h := s.host;
    match a
    case Erase => if h.request.slot in h.values && h.values[h.request.slot].Mapped? {
      ClearAfter(c, own, h.values[h.request.slot].at, NoOwner, off, len);
    }
    case DropValue(slot) => if h.values[slot].Mapped? { ClearAfter(c, own, h.values[slot].at, NoOwner, off, len); }
    case TakeSpace =>
      var slot := h.request.slot;
      if c.driver.Internal? && slot in h.values && h.values[slot].Mapped? {
        ClearAfter(c, own, h.values[slot].at, NoOwner, off, len);
      }
      var g := if c.driver.Internal? then FreeSlot(h.values, slot, own) else own;
      var p := TakeSpaceStep(c, h).pc;
      if p.Reserved? && p.r.Some? { ClearAfter(c, g, p.r.value, Transfer, off, len); }
    case Publish(_) =>
      if InTransit(h).Some? && a.leaseFails { ClearAfter(c, own, InTransit(h).value.r, NoOwner, off, len); }
    case Stop => if InTransit(h).Some? { ClearAfter(c, own, InTransit(h).value.r, NoOwner, off, len); }
    case _ =>
  }

  /** Acknowledging a push exposes only the reservation, or the staging window. */
  lemma AckIsClear(c: Config, s: State, own: seq<Owner>)
    requires c.unit > 0 && HostMoves(c, s, PostAck, own)
    ensures Clear(c, own, s.link.ackOff, s.dev.request.len)
  {
    match s.host.pc.r
    case Some(r) => TransitIsClear(c, own, r, s.host.request.len);
    case None => StagingIsClear(c, own, s.host.request.len);
  }

  /** Where the device may already push, no step of the host makes a unit live. */
  lemma TargetStaysClear(c: Config, s: State, a: Action, own: seq<Owner>, off: nat)
    requires c.unit > 0 && HostMoves(c, s, a, own) && (s.dev.pc.Pushing? || s.dev.pc.AwaitAck?)
    requires Clear(c, own, off, s.dev.request.len)
    ensures Clear(c, NextOwn(c, s.host, a, own), off, s.dev.request.len)
  {
    HostKeepsClear(c, s, a, own, off, s.dev.request.len);
  }

  /** While the device may push, the host stages nothing and posts no other acknowledgement. */
  lemma HostWaits(c: Config, s: State, a: Action)
    requires c.unit > 0 && Ready(c, s, a) && !DeviceAction(a) && !a.PostAck? && (s.host.pc.Stopped? || Coupled(c, s))
    requires s.dev.pc.Pushing? || (s.dev.pc.AwaitAck? && s.link.ackSem != s.dev.ackSeen)
    ensures var t := HostStep(c, s, a); t.arena == s.arena && t.link == s.link && t.dev == s.dev
  {
  }

  lemma PushFrame(c: Config, s: State, t: State, own: seq<Owner>, own': seq<Owner>)
    requires c.unit > 0 && PushSafe(c, s, own) && t.arena == s.arena && t.link == s.link && t.dev == s.dev
    requires s.dev.pc.Pushing? ==> Clear(c, own', s.dev.pc.dst, s.dev.request.len)
    requires s.dev.pc.AwaitAck? && s.link.ackSem != s.dev.ackSeen ==> Clear(c, own', s.link.ackOff, s.dev.request.len)
    ensures PushSafe(c, t, own')
  {
  }

  lemma AckPushes(c: Config, s: State, own: seq<Owner>)
    requires c.unit > 0 && HostMoves(c, s, PostAck, own)
    ensures PushSafe(c, HostStep(c, s, PostAck), own)
  {
    AckIsClear(c, s, own);
  }

  /** Nothing to push yet, and nothing acknowledged. */
  lemma IdlePushes(c: Config, s: State, a: Action, own: seq<Owner>)
    requires c.unit > 0 && Ready(c, s, a) && !DeviceAction(a) && !a.PostAck?
    requires !s.dev.pc.Pushing? && (s.dev.pc.AwaitAck? ==> s.link.ackSem == s.dev.ackSeen)
    ensures PushSafe(c, HostStep(c, s, a), own)
  {
  }

  lemma HostPushes(c: Config, s: State, a: Action, own: seq<Owner>)
    requires c.unit > 0 && HostMoves(c, s, a, own)
    ensures PushSafe(c, HostStep(c, s, a), NextOwn(c, s.host, a, own))
  {
    var d := s.dev;
    if a.PostAck? {
      AckPushes(c, s, own);
    } else if d.pc.Pushing? || (d.pc.AwaitAck? && s.link.ackSem != d.ackSeen) {
      HostWaits(c, s, a);
      TargetStaysClear(c, s, a, own, if d.pc.Pushing? then d.pc.dst else s.link.ackOff);
      PushFrame(c, s, HostStep(c, s, a), own, NextOwn(c, s.host, a, own));
    } else {
      IdlePushes(c, s, a, NextOwn(c, s.host, a, own));
    }
  }

  /** Without host mapping the value written through is read from the device heap. */
  lemma HeapIsValue(c: Config, s: State)
    requires c.unit > 0 && Control(c, s) && Requests(c, s) && Ready(c, s, ReadDevice)
    ensures HeapValue(c, s.dev.heap, s.host.request) == s.dev.value
    ensures s.dev.pc.Draining? && s.dev.pc.generation == 0
  {
  }

  lemma PublishInflow(c: Config, s: State, a: Action)
    requires c.unit > 0 && Control(c, s) && Inflow(s) && Ready(c, s, a) && a.Publish?
    ensures Inflow(HostStep(c, s, a))
  {
    ArrivedIsWanted(s);
  }

  lemma ReceivingInflow(c: Config, s: State, a: Action)
    requires c.unit > 0 && Control(c, s) && Fitting(c, s.dev) && Inflow(s) && Ready(c, s, a)
    requires a.SeePush? || a.Publish? || a.Cancel? || a.Insert? || a.Stop?
    ensures Inflow(HostStep(c, s, a))
  {
    if a.Publish? { PublishInflow(c, s, a); }
  }

  /** Nothing is on its way in during a supply. */
  lemma SupplyInflow(c: Config, s: State, a: Action)
    requires c.unit > 0 && Ready(c, s, a) && SupplyAction(a)
    ensures Inflow(HostStep(c, s, a))
  {
    if a.Begin? { BeginFrame(c, s); }
  }

  lemma HostInflow(c: Config, s: State, a: Action)
    requires c.unit > 0 && Control(c, s) && Requests(c, s) && Inflow(s) && Ready(c, s, a) && !DeviceAction(a)
    requires !HostStep(c, s, a).host.pc.CheckFailed?
    ensures Inflow(HostStep(c, s, a))
  {
    if a.SeePush? || a.Publish? || a.Cancel? || a.Insert? || a.Stop? {
      ReceivingInflow(c, s, a);
    } else if a.ReadDevice? {
      HeapIsValue(c, s);
    } else if SupplyAction(a) {
      SupplyInflow(c, s, a);
    }
  }

  // ----- supplies -----

  lemma HostRequests(c: Config, s: State, a: Action)
    requires c.unit > 0 && Requests(c, s) && Ready(c, s, a) && !DeviceAction(a) && !a.WriteBlock?
    ensures Requests(c, HostStep(c, s, a))
  {
    assert HostStep(c, s, a).dev == s.dev;
  }

  lemma SupplySettled(c: Config, s: State, a: Action)
    requires c.unit > 0 && Settled(s) && Ready(c, s, a) && SupplyAction(a) && (a.PostCommit? ==> Coupled(c, s))
    ensures Settled(HostStep(c, s, a))
  {
  }

  lemma HostSettled(c: Config, s: State, a: Action)
    requires c.unit > 0 && Settled(s) && Ready(c, s, a) && !DeviceAction(a)
    requires a.PostAck? || a.PostCommit? || a.Finish? ==> Coupled(c, s)
    ensures Settled(HostStep(c, s, a))
  {
    if SupplyAction(a) {
      SupplySettled(c, s, a);
    } else if !a.PostAck? && !a.Finish? {
      var l := HostStep(c, s, a).link;
      assert l.ackSem == s.link.ackSem && l.commitSem == s.link.commitSem && l.moveProcessed == s.link.moveProcessed;
    }
  }

  /** What a supply step starts from: the source found, its bytes due, everything staged so far a prefix. */
  ghost predicate Supplies(c: Config, s: State, a: Action)
    requires c.unit > 0
  {
    && ValidConfig(c) && Control(c, s) && Requests(c, s) && Outflow(c, s) && Enabled(c, s, a) && SupplyAction(a)
    && !Inbound(s.host.request) && s.host.request == s.dev.request
    && ValueBytes(s.arena, Source(s.host)) == Due(s.dev) && |Due(s.dev)| == s.host.request.len <= c.maxValue
  }

  lemma MovesSupply(c: Config, s: State, a: Action, own: seq<Owner>)
    requires c.unit > 0 && HostMoves(c, s, a, own) && SupplyAction(a)
    ensures Supplies(c, s, a)
  {
    SourceIsDue(c, s);
  }

  /** Staging one more byte of the source lengthens the staged prefix by one. */
  lemma StagesDue(arena: seq<byte>, due: seq<byte>, at: nat)
    requires at < |due| && at < |arena| && Window(arena, 0, at) == due[..at]
    ensures Window(Put(arena, at, At(due, at)), 0, at + 1) == due[..at + 1]
  {
    PutExtends(arena, 0, at, due[at]);
    assert due[..at + 1] == due[..at] + [due[at]];
  }

  lemma CopyOutflow(c: Config, s: State)
    requires c.unit > 0 && Supplies(c, s, CopyByte)
    ensures Outflow(c, HostStep(c, s, CopyByte))
  {
    if s.host.pc.at < s.host.request.len {
      CopiesOneMore(c, s);
    } else {
      CopiedIsInPlace(c, s);
    }
  }

  lemma CopiesOneMore(c: Config, s: State)
    requires c.unit > 0 && Supplies(c, s, CopyByte) && s.host.pc.at < s.host.request.len
    ensures Outflow(c, HostStep(c, s, CopyByte))
  {
    var at, due, t := s.host.pc.at, Due(s.dev), HostStep(c, s, CopyByte);
    StagesDue(s.arena, due, at);
    assert due[..Min(at, |due|)] == due[..at] && due[..Min(at + 1, |due|)] == due[..at + 1];
    assert t.dev == s.dev && t.host == s.host.(pc := Copying(at + 1)) && t.arena == Put(s.arena, at, At(due, at));
  }

  /** The whole value is in the staging window. */
  lemma CopiedIsInPlace(c: Config, s: State)
    requires c.unit > 0 && Supplies(c, s, CopyByte) && s.host.pc.at >= s.host.request.len
    ensures Outflow(c, HostStep(c, s, CopyByte))
  {
    var at, due := s.host.pc.at, Due(s.dev);
    assert at == |due| && due[..at] == due;
    assert Window(s.arena, 0, |due|) == due;
  }

  lemma StreamOutflow(c: Config, s: State)
    requires c.unit > 0 && Supplies(c, s, StreamByte)
    ensures Outflow(c, HostStep(c, s, StreamByte))
  {
    var at, due := s.host.pc.at, Due(s.dev);
    StagesDue(s.arena, due, at);
    assert due[..Min(at, |due|)] == due[..at] && due[..Min(at + 1, |due|)] == due[..at + 1];
  }

  lemma PublishOutflow(c: Config, s: State)
    requires c.unit > 0 && Supplies(c, s, PublishBlock)
    ensures Outflow(c, HostStep(c, s, PublishBlock))
  {
  }

  lemma PostOutflow(c: Config, s: State, a: Action)
    requires c.unit > 0 && Supplies(c, s, a) && (a.Begin? || a.ClearProgress? || a.WriteCommit? || a.PostCommit?)
    ensures Outflow(c, HostStep(c, s, a))
  {
    if a.Begin? { BeginOutflow(c, s); }
    if a.PostCommit? { assert Window(s.arena, 0, 0) == Due(s.dev)[..0]; }
  }

  lemma BeginOutflow(c: Config, s: State)
    requires c.unit > 0 && Supplies(c, s, Begin)
    ensures Outflow(c, HostStep(c, s, Begin))
  {
    assert Window(s.arena, 0, 0) == Due(s.dev)[..0];
  }

  /** The whole value is written to the device heap, and reads back as it was. */
  lemma BlockIsDue(c: Config, s: State)
    requires c.unit > 0 && Supplies(c, s, WriteBlock)
    ensures var heap := HostStep(c, s, WriteBlock).dev.heap;
            HeapHolds(c, heap, s.dev.request) && HeapValue(c, heap, s.dev.request) == Due(s.dev)
  {
    HeapRoundTrip(c, s.dev.heap, s.dev.request, Due(s.dev));
  }

  lemma BlockRequests(c: Config, s: State)
    requires c.unit > 0 && Supplies(c, s, WriteBlock)
    ensures Requests(c, HostStep(c, s, WriteBlock))
  {
    BlockIsDue(c, s);
  }

  lemma BlockOutflow(c: Config, s: State)
    requires c.unit > 0 && Supplies(c, s, WriteBlock)
    ensures Outflow(c, HostStep(c, s, WriteBlock))
  {
    BlockIsDue(c, s);
  }

  /** Outside a supply nothing is on its way out. */
  lemma OtherOutflow(c: Config, s: State, a: Action)
    requires c.unit > 0 && Ready(c, s, a) && !DeviceAction(a) && !SupplyAction(a) && Outflow(c, s)
    ensures Outflow(c, HostStep(c, s, a))
  {
  }

  lemma HostOutflow(c: Config, s: State, a: Action, own: seq<Owner>)
    requires c.unit > 0 && HostMoves(c, s, a, own)
    ensures Outflow(c, HostStep(c, s, a))
  {
    if SupplyAction(a) {
      MovesSupply(c, s, a, own);
      if a.CopyByte? { CopyOutflow(c, s); }
      else if a.StreamByte? { StreamOutflow(c, s); }
      else if a.PublishBlock? { PublishOutflow(c, s); }
      else if a.WriteBlock? { BlockOutflow(c, s); }
      else if a.SeeDone? {}
      else { PostOutflow(c, s, a); }
    } else {
      OtherOutflow(c, s, a);
    }
  }

  /** Streaming another byte never disturbs the bytes already published. */
  lemma StreamReads(c: Config, s: State)
    requires c.unit > 0 && Supplies(c, s, StreamByte) && ReadSafe(c, s)
    ensures ReadSafe(c, HostStep(c, s, StreamByte))
  {
    var at, due := s.host.pc.at, Due(s.dev);
    WindowPut(s.arena, at, At(due, at), 0, Shown(c, s));
  }

  /** Publishing a block shows only bytes that are in place. */
  lemma PublishReads(c: Config, s: State)
    requires c.unit > 0 && Supplies(c, s, PublishBlock) && ReadSafe(c, s)
    ensures ReadSafe(c, HostStep(c, s, PublishBlock))
  {
    var t := HostStep(c, s, PublishBlock);
    var due, src := Due(s.dev), Source(s.host);
    var n := Shown(c, t);
    if src.Heap? {
      assert n <= s.host.pc.at;
      WindowPrefix(s.arena, 0, s.host.pc.at, n);
      assert due[..s.host.pc.at][..n] == due[..n];
    } else {
      WindowPrefix(s.arena, ReadOffset(src), |due|, n);
    }
    assert Window(t.arena, ReadOffset(src), n) == due[..n];
  }

  lemma PostReads(c: Config, s: State)
    requires c.unit > 0 && Supplies(c, s, PostCommit) && ReadSafe(c, s)
    ensures ReadSafe(c, HostStep(c, s, PostCommit))
  {
    assert Window(s.arena, s.link.commit.readOff, 0) == Due(s.dev)[..0];
  }

  /** Before the commit is posted the device reads nothing. */
  lemma PreparingReads(c: Config, s: State, a: Action)
    requires c.unit > 0 && Coupled(c, s) && Ready(c, s, a) && SupplyAction(a) && ReadSafe(c, s)
    requires !a.StreamByte? && !a.PublishBlock? && !a.PostCommit?
    ensures ReadSafe(c, HostStep(c, s, a))
  {
  }

  /** The remaining steps leave alone everything a reading device looks at. */
  lemma OtherReads(c: Config, s: State, a: Action)
    requires c.unit > 0 && (s.host.pc.Stopped? || Coupled(c, s)) && Ready(c, s, a) && !DeviceAction(a) && ReadSafe(c, s)
    requires !a.StreamByte? && !a.PublishBlock? && !a.PostCommit?
    ensures ReadSafe(c, HostStep(c, s, a))
  {
    if SupplyAction(a) { PreparingReads(c, s, a); }
  }

  lemma HostReads(c: Config, s: State, a: Action, own: seq<Owner>)
    requires c.unit > 0 && HostMoves(c, s, a, own)
    ensures ReadSafe(c, HostStep(c, s, a))
  {
    if SupplyAction(a) { MovesSupply(c, s, a, own); }
    if a.StreamByte? { StreamReads(c, s); }
    else if a.PublishBlock? { PublishReads(c, s); }
    else if a.PostCommit? { PostReads(c, s); }
    else { OtherReads(c, s, a); }
  }

  lemma HostKeepsData(c: Config, s: State, a: Action, own: seq<Owner>)
    requires c.unit > 0 && HostMoves(c, s, a, own)
    ensures Data(c, HostStep(c, s, a), NextOwn(c, s.host, a, own))
  {
    ChecksHold(c, s, a, own);
    if a.WriteBlock? {
      MovesSupply(c, s, a, own);
      BlockRequests(c, s);
    } else {
      HostRequests(c, s, a);
    }
    HostSettled(c, s, a);
    HostStored(c, s, a, own);
    HostAgrees(c, s, a, own);
    HostPushes(c, s, a, own);
    HostInflow(c, s, a);
    HostOutflow(c, s, a, own);
    HostReads(c, s, a, own);
  }
}
