/**
  `ServerRuntimeCore`: the device resources of one server, which either runs its own workload or is a shard of one
  that all servers of the endpoint share. Methods return false where the source throws.
*/
module ServerCore {
  import opened Words
  import opened SharedWorkload
  import opened SharedService
  import opened AbandonedShards

  type Key(==, !new)

  /** `active_slots`, and this server's entries in the process-lifetime list of quarantined teardowns. */
  class CoreRegistry {
    var keys: set<Key>
    var held: seq<Key>

    constructor ()
      ensures keys == {} && held == []
    {
      keys := {};
      held := [];
    }
  }

  datatype CoreState = Constructing | Ready | Closing | Quarantined | Closed

  /** How a launch can end: refused before anything was sent, or however the enqueue ends. */
  datatype Launching = Refused | Enqueues(enqueue: Enqueue)

  ghost function Sum(units: seq<nat>): nat {
    if units == [] then 0 else units[0] + Sum(units[1..])
  }

  /** The saturating decrement of `external_pool_units_in_use_`. */
  function Less(total: nat, units: nat): nat {
    if total >= units then total - units else 0
  }

  /** A shard's record in the common service shows where its core is. */
  ghost predicate Matches(state: CoreState, stage: Stage) {
    match state
    case Constructing => stage.Prepared?
    case Ready => stage.Running?
    case Closing => stage.Closing? || stage.Ended?
    case Quarantined => stage.Held?
    case Closed => stage.Gone?
  }

  class Core {
    const key: Key
    const registry: CoreRegistry
    const service: MuxService?      // static_intermesh_mux_service_, null for a server with its own workload
    const index: nat                // which shard this is
    var state: CoreState
    var holder: bool                // failed_teardown_holder_ != nullptr
    var workload: bool              // workload_ != nullptr
    var started: bool               // server_launch_may_have_started_
    var leases: seq<nat>            // units of every outstanding lease
    var unitsInUse: nat
    ghost var ownBuffers: Buffers   // without a service: where the device buffers are
    ghost var enqueued: bool        // without a service: the device may have received the workload
    ghost var finished: bool        // without a service: Finish returned after the last enqueue

    ghost predicate Shared() {
      service != null
    }

    /** Where the core's device buffers are. */
    ghost function Place(): Buffers
      reads this, service
      requires service != null ==> index < |service.shards|
    {
      if service == null then ownBuffers else service.shards[index].buffers
    }

    /** The device may be executing the workload that uses this core's buffers. */
    ghost predicate Executing()
      reads this, service
    {
      if service == null then enqueued && !finished else service.running
    }

    /** The workload was told to stop, and this core need not hold on to its buffers. */
    ghost predicate Terminated()
      reads this, service
      requires service != null ==> index < |service.shards|
    {
      state.Closing? && if service == null then !enqueued || finished else service.shards[index].stage.Ended?
    }

    /** No shard of a common workload has been destroyed too early. */
    ghost predicate Orderly()
      reads service
    {
      service != null ==> service.orderly
    }

    /** The device's memory is kept while it may be in use; in an orderly run, always. */
    ghost predicate Safe()
      reads this, service
      requires service != null ==> index < |service.shards|
    {
      Executing() ==> Place().Owned? || Place().Kept? || (Place().Retired? && service != null && service.alive)
    }

    /** The launch will return normally. */
    predicate Starts(how: Launching)
      reads this, service
    {
      how.Enqueues? && if service == null then how.enqueue.Sent? else LaunchReturns(service.Fields(), how.enqueue)
    }

    /** Telling the kernel to stop will return normally. */
    predicate Stops(how: Finishing)
      reads this, service
      requires service != null ==> index < |service.shards|
    {
      if service == null then !workload || how.Finishes? else TerminateReturns(service.Fields(), index, how)
    }

    ghost predicate OwnValid()
      reads this
    {
      && (ownBuffers.Freed? ==> !enqueued || finished)
      && (state.Constructing? ==> !started && workload && !finished)
      && (state.Ready? || state.Closing? ==> workload || finished)
      && (!started ==> !enqueued)
      && (state.Constructing? || state.Ready? || state.Closing? ==> ownBuffers.Owned?)
      && (state.Quarantined? ==> ownBuffers.Kept?)
      && (state.Closed? ==> ownBuffers.Freed?)
    }

    ghost predicate ShardValid()
      reads this, service
      requires service != null
    {
      && service.Valid() && index < |service.shards|
      && Matches(state, service.shards[index].stage)
      && !workload && !enqueued && !finished
      && (state.Constructing? && started ==> service.launched)
    }

    ghost predicate Valid()
      reads this, registry, service
    {
      && (if service == null then OwnValid() else ShardValid())
      && (state.Constructing? || state.Ready? || state.Closing? ==> holder && key !in registry.held)
      && (state.Quarantined? ==> !holder && multiset(registry.held)[key] == 1)
      && (state.Closed? ==> !holder && key !in registry.held && leases == [])
      && (key in registry.keys <==> !state.Closed?)
      && (state.Constructing? ==> leases == [])
      && unitsInUse == Sum(leases)
    }

    /** Where the buffers are follows from the state, and only a shard leaves them with somebody else. */
    lemma PlaceFollowsState()
      requires Valid()
      ensures state.Constructing? || state.Ready? || state.Closing? ==> Place().Owned?
      ensures state.Quarantined? ==> Place().Kept?
      ensures state.Closed? ==> Place().Freed? || (Place().Retired? && Shared())
    {
      if service != null {
        assert Filed(service.View().shards[index]);
      }
    }

    lemma OrderlyIsSafe()
      requires Valid() && Orderly()
      ensures Safe()
    {
      if service != null {
        InvIsSafe(service.View());
        assert service.View().shards[index] == service.shards[index];
      }
    }

    /** A prepared core with its own workload: registered, nothing sent. */
    constructor (registry: CoreRegistry, key: Key)
      requires key !in registry.keys && key !in registry.held
      modifies registry
      ensures Valid() && state.Constructing? && this.registry == registry && this.key == key && service == null
      ensures registry.keys == old(registry.keys) + {key} && registry.held == old(registry.held)
      ensures !enqueued && !finished
    {
      this.key, this.registry, this.service, index := key, registry, null, 0;
      state, holder, workload, started := Constructing, true, true, false;
      leases, unitsInUse := [], 0;
      ownBuffers, enqueued, finished := Owned, false, false;
      new;
      registry.keys := registry.keys + {key};
    }

    /** A prepared shard, whose kernels are part of the common program. */
    constructor Shard(registry: CoreRegistry, key: Key, service: MuxService, index: nat)
      requires key !in registry.keys && key !in registry.held
      requires service.Valid() && index < |service.shards| && service.shards[index].stage.Prepared?
      modifies registry
      ensures Valid() && state.Constructing? && this.registry == registry && this.key == key
      ensures this.service == service && this.index == index
      ensures registry.keys == old(registry.keys) + {key} && registry.held == old(registry.held)
    {
      this.key, this.registry, this.service, this.index := key, registry, service, index;
      state, holder, workload, started := Constructing, true, false, false;
      leases, unitsInUse := [], 0;
      ownBuffers, enqueued, finished := Owned, false, false;
      new;
      registry.keys := registry.keys + {key};
    }

    /** Other servers' registrations and quarantined teardowns are left alone. */
    twostate predicate OthersKept()
      reads this, registry
    {
      registry.keys - {key} == old(registry.keys) - {key}
      && (registry.held == old(registry.held) || registry.held == old(registry.held) + [key])
    }

    /** What the device executes is not touched by releasing or quarantining. */
    twostate predicate DeviceUntouched()
      reads this, service
    {
      enqueued == old(enqueued) && finished == old(finished)
      && (service != null ==> service.running == old(service.running) && service.finishes == old(service.finishes))
    }

    /** `quarantine_failed_teardown`. */
    method QuarantineFailedTeardown()
      requires key in registry.keys && (holder ==> key !in registry.held)
      requires service != null && holder ==>
                 service.Valid() && index < |service.shards| && !service.shards[index].stage.Gone?
      requires service != null && holder && !service.shards[index].stage.Held? ==> service.alive
      modifies this`holder, this`ownBuffers, this`workload, registry`held, service
      ensures !holder && OthersKept() && DeviceUntouched()
      ensures registry.held == if old(holder) then old(registry.held) + [key] else old(registry.held)
      ensures service == null ==> ownBuffers == if old(holder) then Kept else old(ownBuffers)
      ensures workload == (old(workload) && !old(holder))
      ensures service != null && !old(holder) ==> unchanged(service)
      ensures service != null && old(holder) ==>
                service.Valid() && |service.shards| == |old(service.shards)| && service.shards[index].stage.Held?
                && service.launched == old(service.launched)
    {
      if !holder {
        return;
      }
      holder := false;
      workload := false;
      ownBuffers := Kept;
      registry.held := registry.held + [key];
      if service != null && !service.shards[index].stage.Held? {
        service.Hold(index);
      }
    }

    /** The common launch failed, and the service has quarantined every shard on its list. */
    method FollowIntoQuarantine()
      requires service != null && service.Valid() && index < |service.shards| && service.shards[index].stage.Held?
      requires !workload && !enqueued && !finished && holder && key !in registry.held && key in registry.keys
      requires unitsInUse == Sum(leases)
      modifies this`holder, this`ownBuffers, this`workload, this`state, registry`held
      ensures Valid() && OthersKept() && leases == old(leases) && registry.keys == old(registry.keys)
      ensures state.Quarantined? && registry.held == old(registry.held) + [key]
    {
      holder := false;
      ownBuffers := Kept;
      registry.held := registry.held + [key];
      state := Quarantined;
    }

    /** `launch_external_runtime`. A launch that fails after its start flag was set can never be retried. */
    method LaunchExternal(how: Launching) returns (ok: bool)
      requires Valid()
      modifies this, registry, service
      ensures Valid() && OthersKept() && leases == old(leases)
      ensures ok <==> old(state.Constructing?) && old(Starts(how))
      ensures ok ==> state.Ready? && registry.held == old(registry.held)
      ensures ok && service == null ==> workload
      ensures ok && service == null ==> how.enqueue.Sent? && enqueued && !finished
      ensures service == null ==>
                (enqueued <==> old(enqueued) || (old(state.Constructing?) && how.Enqueues? && Reaches(how.enqueue)))
      ensures ok && service != null && old(CommonLaunch(service.View())) ==> how.enqueue.Sent? && service.running
      ensures !ok ==> state == old(state) || (old(state.Constructing?) && state.Quarantined?)
      ensures !ok && old(state.Constructing?) && !how.Refused? ==>
                (state.Quarantined? <==> (service != null ==> old(CommonLaunch(service.View()))))
      ensures how.Refused? || !old(state.Constructing?) ==> state == old(state)
      ensures old(state.Constructing?) && how.Enqueues? && service != null ==>
                service.Took(Action.Launch(index, how.enqueue))
    {
      if !state.Constructing? || how.Refused? {
        return false;
      }
      if service != null {
        ok := LaunchShard(how.enqueue);
        return;
      }
      started := true;
      enqueued := Reaches(how.enqueue);
      if !how.enqueue.Sent? {
        QuarantineFailedTeardown();
        state := Quarantined;
        return false;
      }
      state := Ready;
      return true;
    }

    /**
      A shard's launch: before the set is complete it only starts the host side; the first one after that enqueues
      for everybody; the rest find the workload launched.
    */
    method LaunchShard(how: Enqueue) returns (ok: bool)
      requires Valid() && service != null && state.Constructing?
      modifies this, registry, service
      ensures Valid() && OthersKept() && leases == old(leases)
      ensures ok <==> state.Ready?
      ensures ok <==> old(LaunchReturns(service.View(), how))
      ensures !ok ==> if old(CommonLaunch(service.View())) then state.Quarantined? else state.Constructing?
      ensures ok ==> registry.held == old(registry.held)
      ensures ok && old(CommonLaunch(service.View())) ==> how.Sent? && service.running
      ensures service.Took(Action.Launch(index, how))
    {
      LaunchShows(service.View(), index, how);
      if service.LaunchesForAll() {
        started := true;
      }
      ok := service.LaunchServerKernel(index, how);
      if ok {
        state := Ready;
      } else if started {
        FollowIntoQuarantine();
      }
    }

    /** `terminate_external_runtime`. Closing is entered before the kernel is told, so a failure can be retried. */
    method TerminateExternal(how: Finishing) returns (ok: bool)
      requires Valid() && (service != null ==> !service.shards[index].stage.Ended?)
      modifies this, service
      ensures Valid() && leases == old(leases)
      ensures registry.keys == old(registry.keys) && registry.held == old(registry.held)
      ensures state == if old(state.Ready?) then CoreState.Closing else old(state)
      ensures ok <==>
                old(state.Closed?) || old(state.Quarantined?)
                || ((old(state.Ready?) || old(state.Closing?)) && old(Stops(how)))
      ensures state.Closing? && (ok || service != null) ==> (ok <==> Terminated())
      ensures ok && state.Closing? && service == null ==> finished && !workload
      ensures !ok ==> workload == old(workload)
      ensures service == null ==>
                (finished <==> old(finished) || (old(workload) && (old(state.Ready?) || old(state.Closing?))
                                                 && (how.Finishes? || how.ThrowsAfterFinish?)))
      ensures ok && state.Closing? && service != null ==>
                (service.running <==> old(service.launched) && !old(OthersSignalled(service.shards, index)))
      ensures (old(state.Ready?) || old(state.Closing?)) && service != null ==>
                service.Took(Action.Terminate(index, how))
    {
      if state.Closed? || state.Quarantined? {
        return true;
      }
      if !state.Ready? && !state.Closing? {
        return false;
      }
      state := CoreState.Closing;
      if service != null {
        TerminateShows(service.View(), index, how);
        ok := service.TerminateServerKernel(index, how);
        return;
      }
      if !workload {
        return true;
      }
      match how
      case SignalFails => return false;
      case FinishFails => return false;
      case ThrowsAfterFinish =>
        finished := true;
        return false;
      case Finishes =>
        finished := true;
        workload := false;
        return true;
    }

    /** `preserve_static_intermesh_kernel_resources`, and giving up the reference to the service. */
    method PreserveForService()
      requires service != null && service.Valid() && index < |service.shards|
      requires service.shards[index].stage.Prepared? || service.shards[index].stage.Ended?
      modifies service
      ensures service.Valid() && index < |service.shards| && service.shards[index].stage.Gone?
      ensures service.running == old(service.running) && service.finishes == old(service.finishes)
      ensures service.running <==> old(service.launched)
      ensures service.shards[index].buffers.Retired? <==> old(service.workload) && service.alive
      ensures service.Took(Action.Release(index, true))
    {
      assert HoldsService(service.shards[index]);
      ReleaseShows(service.View(), index);
      service.LetGo(index);
    }

    /**
      `release_external_runtime_resources`: false is a failed state, lease or unit check. The key is given up although
      the device may still be executing exactly if the common workload is launched.
    */
    method ReleaseExternal() returns (ok: bool)
      requires Valid() && (state.Closing? ==> Terminated())
      modifies this, registry`keys, service
      ensures Valid() && OthersKept() && DeviceUntouched() && registry.held == old(registry.held)
      ensures ok <==> old(state.Closed?) || ((old(state.Constructing?) || old(state.Closing?)) && old(leases) == [])
      ensures ok ==> state.Closed? && key !in registry.keys
      ensures ok && !old(state.Closed?) ==> (Executing() <==> Shared() && old(service.launched))
      ensures ok && !old(state.Closed?) ==> (Place().Retired? <==> Shared() && old(service.workload) && service.alive)
      ensures !ok ==> state == old(state) && leases == old(leases) && Place() == old(Place())
      ensures !ok && service != null ==> unchanged(service)
      ensures ok && !old(state.Closed?) && service != null ==> service.Took(Action.Release(index, true))
    {
      if !state.Constructing? && !state.Closing? && !state.Closed? {
        return false;
      }
      if state.Closed? {
        return true;
      }
      if leases != [] || unitsInUse != 0 {
        return false;
      }
      if service != null {
        PreserveForService();
      }
      workload := false;
      ownBuffers := Freed;
      holder := false;
      registry.keys := registry.keys - {key};
      state := Closed;
      return true;
    }

    /** `quarantine_external_runtime`: leases are cut loose and everything else is kept for good. */
    method QuarantineExternal()
      requires Valid() && !state.Closed?
      modifies this, registry`held, service
      ensures Valid() && OthersKept() && DeviceUntouched() && state.Quarantined? && leases == []
      ensures registry.keys == old(registry.keys)
      ensures registry.held == if old(state.Quarantined?) then old(registry.held) else old(registry.held) + [key]
    {
      leases := [];
      unitsInUse := 0;
      if service != null {
        assert !service.shards[index].stage.Gone? && HoldsService(service.shards[index]);
      }
      QuarantineFailedTeardown();
      state := Quarantined;
    }

    /** The core's destructor. */
    method Destroy()
      requires Valid()
      modifies this, registry, service
      ensures Valid() && OthersKept() && DeviceUntouched() && (state.Closed? || state.Quarantined?)
      ensures state.Closed? <==> old(state.Constructing?) || old(state.Closed?)
      ensures old(state.Closed?) || old(state.Quarantined?) ==> registry.held == old(registry.held)
    {
      if state.Constructing? {
        var ok := ReleaseExternal();
      } else if state.Ready? || state.Closing? {
        QuarantineExternal();
      }
    }

    /** Another shard steps; the common launch sets every shard's start flag. */
    method ServiceMoves(a: Action) returns (losesAll: bool)
      requires Valid() && service != null && service.CanTake(a) && Subject(service.Fields(), a) != index
      modifies this`started, service
      ensures service.Valid() && index < |service.shards|
      ensures service.shards[index].stage ==
              if losesAll && !old(service.shards[index].stage.Gone?) then Held else old(service.shards[index].stage)
      ensures state.Constructing? && started && !losesAll ==> service.launched
      ensures losesAll <==> old(CommonLaunchFails(service.Fields(), a))
      ensures service.Took(a)
    {
      OthersLeave(service.View(), a, index);
      losesAll := CommonLaunchFails(service.Fields(), a);
      if a.Launch? && service.LaunchesForAll() {
        started := true;
      }
      service.Act(a);
    }

    /**
      Another shard's step, if it can take it. The common launch marks every shard as possibly started, and if it
      fails, quarantines every shard with it.
    */
    method OthersAct(a: Action)
      requires Valid()
      modifies this, registry, service
      ensures Valid() && OthersKept() && leases == old(leases) && registry.keys == old(registry.keys)
      ensures state == old(state) || (state.Quarantined? && !old(state.Closed?))
      ensures service == null ==> state == old(state) && workload == old(workload) && DeviceUntouched()
      ensures registry.held == if state == old(state) then old(registry.held) else old(registry.held) + [key]
      ensures service != null && state == old(state) ==> service.shards[index].stage == old(service.shards[index].stage)
      ensures service != null ==>
                if old(service.CanTake(a) && Subject(service.Fields(), a) != index) then service.Took(a)
                    else unchanged(service)
    {
      if service == null || !service.CanTake(a) || Subject(service.Fields(), a) == index {
        return;
      }
      var losesAll := ServiceMoves(a);
      if losesAll && !state.Quarantined? && !state.Closed? {
        FollowIntoQuarantine();
      }
    }

    /** Any number of steps by other shards. */
    method OthersActAll(acts: seq<Action>)
      requires Valid()
      modifies this, registry, service
      ensures Valid() && OthersKept() && leases == old(leases) && registry.keys == old(registry.keys)
      ensures state == old(state) || (state.Quarantined? && !old(state.Closed?))
      ensures service == null ==> state == old(state) && workload == old(workload) && DeviceUntouched()
      ensures registry.held == if state == old(state) then old(registry.held) else old(registry.held) + [key]
      ensures service != null && state == old(state) ==> service.shards[index].stage == old(service.shards[index].stage)
      ensures service != null ==> service.View() == OthersRun(old(service.View()), index, acts)
    {
      for i := 0 to |acts|
        invariant service != null ==> service.View() == OthersRun(old(service.View()), index, acts[..i])
        invariant Valid() && OthersKept() && leases == old(leases) && registry.keys == old(registry.keys)
        invariant state == old(state) || (state.Quarantined? && !old(state.Closed?))
        invariant service == null ==> state == old(state) && workload == old(workload) && DeviceUntouched()
        invariant registry.held == if state == old(state) then old(registry.held) else old(registry.held) + [key]
        invariant service != null && state == old(state) ==>
                    service.shards[index].stage == old(service.shards[index].stage)
      {
        assert acts[..i + 1][..i] == acts[..i];
        OthersAct(acts[i]);
      }
      assert acts[..|acts|] == acts;
    }

    /** A write through landed in a mapped extent: one more lease is out. */
    method TrackLease(units: nat)
      requires Valid() && !state.Constructing? && !state.Closed?
      modifies this`leases, this`unitsInUse
      ensures Valid() && leases == [units] + old(leases)
    {
      leases := [units] + leases;
      unitsInUse := unitsInUse + units;
    }

    /** The manager drops every value it holds: each lease gives its units back. */
    method DropAllLeases()
      requires Valid()
      modifies this`leases, this`unitsInUse
      ensures Valid() && leases == [] && unitsInUse == 0
    {
      while leases != []
        invariant unitsInUse == Sum(leases)
        invariant state.Closed? || state.Constructing? ==> leases == []
        decreases |leases|
      {
        unitsInUse := Less(unitsInUse, leases[0]);
        leases := leases[1..];
      }
    }
  }

  method FirstJoins() returns (service: MuxService)
    ensures fresh(service) && service.Valid() && service.orderly && service.count == 2
    ensures service.View() == JoinStep(Fresh(2), true)
            && service.shards == [SharedWorkload.Shard(Prepared, false, Owned)]
    ensures service.members == {0} && !service.prepared
  {
    service := new MuxService(2);
    var joined, index := service.Join(true);
    assert service.members == {0} && |service.members| == 1;
  }

  /** A core joins a workload for two shards, and the other shard joins after it. */
  method PreparesPair(registry: CoreRegistry, key: Key) returns (core: Core)
    requires key !in registry.keys && key !in registry.held
    modifies registry
    ensures fresh(core) && core.Valid() && core.key == key && core.registry == registry
    ensures core.service != null && fresh(core.service) && core.index == 0 && core.leases == []
    ensures core.state.Constructing? && core.service.View() == JoinedPair() && core.service.orderly
  {
    var service := FirstJoins();
    core := new Core.Shard(registry, key, service, 0);
    core.OthersAct(Join(true));
    assert service.members == {0, 1} && |service.members| == 2;
    assert service.shards == JoinedPair().shards;
  }

  method LaunchesPair(registry: CoreRegistry, key: Key) returns (core: Core)
    requires key !in registry.keys && key !in registry.held
    modifies registry
    ensures fresh(core) && core.Valid() && core.key == key && core.registry == registry
    ensures core.service != null && fresh(core.service) && core.index == 0 && core.leases == []
    ensures core.state.Ready? && core.service.View() == LaunchedPair() && core.service.orderly
  {
    core := PreparesPair(registry, key);
    assert |JoinedPair().members| == 2 && CommonLaunch(JoinedPair());
    assert LaunchStep(JoinedPair(), 0, Sent) == LaunchedPair();
    var up := core.LaunchExternal(Enqueues(Sent));
  }

  /** The first of two launched shards is told to stop, and returns although the second is still up. */
  method TerminatesFirst(registry: CoreRegistry, key: Key) returns (core: Core)
    requires key !in registry.keys && key !in registry.held
    modifies registry
    ensures fresh(core) && core.Valid() && core.key == key && core.registry == registry && core.leases == []
    ensures core.service != null && fresh(core.service) && core.service.orderly && core.index == 0
    ensures core.state.Closing? && core.Terminated() && core.service.launched && core.service.workload
    ensures |core.service.shards| == 2 && core.service.shards[1] == LaunchedPair().shards[1]
  {
    core := LaunchesPair(registry, key);
    var told := core.TerminateExternal(Finishes);
    assert core.service.View() == TerminateStep(LaunchedPair(), 0, Finishes);
  }

  /**
    The first of two launched shards closes normally while the second has not been told to stop: its key is free and
    its core closed, and the device goes on executing on buffers that the service keeps.
  */
  method ClosesBeforeTheOther(registry: CoreRegistry, key: Key) returns (core: Core)
    requires key !in registry.keys && key !in registry.held
    modifies registry
    ensures core.Valid() && core.state.Closed? && core.key == key && core.registry == registry && key !in registry.keys
    ensures core.Shared() && core.Orderly() && core.Executing() && core.Place().Retired?
  {
    core := TerminatesFirst(registry, key);
    assert HoldsService(core.service.shards[1]);
    var released := core.ReleaseExternal();
    assert HoldsService(core.service.shards[1]);
  }
}
