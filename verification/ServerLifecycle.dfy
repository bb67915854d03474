/**
  The two state machines above a server's core: the manager's `Server::Impl`, and the `ServerDeviceRuntime` it owns.
  Methods return false where the source throws.
*/
module ServerLifecycle {
  import opened Words
  import opened SharedService
  import opened ServerCore
  import SW = SharedWorkload

  datatype RuntimeState = Prepared | Running | Terminating | Terminated | Abandoned

  /** `ServerDeviceRuntime`; `Terminating` is its Closing, `Abandoned` its Quarantined. */
  class DeviceRuntime {
    const core: Core
    var state: RuntimeState

    ghost predicate Valid()
      reads this, core, core.registry, core.service
    {
      && core.Valid()
      && (state.Prepared? ==> core.state.Constructing? || core.state.Quarantined?)
      && (state.Running? ==> core.state.Ready? || core.state.Quarantined?)
      && (state.Terminating? ==>
            (core.state.Closing? && (core.service != null ==> !core.Terminated())) || core.state.Quarantined?)
      && (state.Terminated? ==>
            (core.state.Closing? && core.Terminated() && (core.service == null ==> core.finished))
                || core.state.Quarantined?)
      && (state.Abandoned? ==> core.state.Quarantined?)
    }

    /** Telling the kernel to stop will return normally. */
    predicate Stops(how: SW.Finishing)
      reads this, core, core.service
      requires core.service != null ==> core.index < |core.service.shards|
    {
      || state.Terminated? || state.Abandoned?
      || (!state.Prepared? && (core.state.Quarantined? || core.state.Closed? || core.Stops(how)))
    }

    constructor (core: Core)
      requires core.Valid() && core.state.Constructing?
      ensures Valid() && this.core == core && state.Prepared?
    {
      this.core := core;
      state := Prepared;
    }

    method Launch(how: Launching) returns (ok: bool)
      requires Valid()
      modifies this, core, core.registry, core.service
      ensures Valid() && core.OthersKept() && core.leases == old(core.leases)
      ensures ok <==> old(state.Prepared?) && old(core.state.Constructing?) && old(core.Starts(how))
      ensures ok ==> state.Running? && core.state.Ready? && core.registry.held == old(core.registry.held)
      ensures ok && core.service == null ==> core.Executing() && core.workload
      ensures !ok && old(state.Prepared?) && old(core.state.Constructing?) && core.service == null ==>
                (state.Abandoned? <==> how.Enqueues?)
      ensures !ok && old(state.Prepared?) && old(core.state.Constructing?) ==>
                if core.state.Constructing? then state.Prepared? else state.Abandoned?
      ensures how.Refused? ==> !ok && core.state == old(core.state)
    {
      if !state.Prepared? {
        return false;
      }
      ok := core.LaunchExternal(how);
      if !ok {
        if core.state.Quarantined? {
          state := Abandoned;
        }
        return false;
      }
      state := Running;
    }

    /**
      A shard that terminates normally need not be the last one: the workload goes on exactly while another has yet
      to signal.
    */
    method Terminate(how: SW.Finishing) returns (ok: bool)
      requires Valid()
      modifies this, core, core.service
      ensures Valid() && core.leases == old(core.leases)
      ensures core.registry.keys == old(core.registry.keys) && core.registry.held == old(core.registry.held)
      ensures ok <==> old(Stops(how))
      ensures ok ==> state == if old(state.Abandoned?) then Abandoned else Terminated
      ensures !ok ==> state == if old(state.Prepared?) then Prepared else Terminating
      ensures core.state ==
              if old(core.state.Ready?) && !old(state.Prepared?) then CoreState.Closing else old(core.state)
      ensures !ok ==> core.workload == old(core.workload)
      ensures core.service != null && (old(state.Running?) || old(state.Terminating?))
              && !old(core.state.Quarantined?) ==>
                core.service.View() == SW.TerminateStep(old(core.service.View()), core.index, how)
      ensures old(state.Prepared?) <==> state.Prepared?
      ensures core.state.Quarantined? <==> old(core.state.Quarantined?)
      ensures ok && core.service == null && core.state.Closing? ==> core.finished
      ensures ok && core.service != null && core.state.Closing? && !old(state.Terminated?) ==>
                (core.Executing() <==>
                 old(core.service.launched) && !old(OthersSignalled(core.service.shards, core.index)))
    {
      if state.Terminated? || state.Abandoned? {
        return true;
      }
      if state.Prepared? {
        return false;
      }
      state := Terminating;
      ok := core.TerminateExternal(how);
      if ok {
        state := Terminated;
      }
    }

    /** The destructor: whatever happened before, the core's resources end released or quarantined. */
    method Destroy()
      requires Valid()
      modifies this, core, core.registry, core.service
      ensures core.Valid() && core.OthersKept() && core.DeviceUntouched()
              && (core.state.Closed? || core.state.Quarantined?)
      ensures core.state.Closed? <==>
                old(core.leases) == [] && ((old(state.Prepared?) && old(core.state.Constructing?))
                                           || (old(state.Terminated?) && old(core.state.Closing?)))
      ensures core.registry.held ==
              if core.state.Closed? || old(core.state.Quarantined?) then old(core.registry.held)
              else old(core.registry.held) + [core.key]
      ensures core.state.Closed? ==> (core.Executing() <==> core.Shared() && old(core.service.launched))
    {
      if state.Prepared? || state.Terminated? {
        var ok := core.ReleaseExternal();
        if !ok {
          core.QuarantineExternal();
          state := Abandoned;
        }
      } else if state.Running? || state.Terminating? {
        core.QuarantineExternal();
        state := Abandoned;
      }
      core.Destroy();
    }
  }

  datatype ImplState = Starting | Serving | Draining | Shut | Lost

  /** How draining in-flight puts ends: the worker may fail meanwhile. */
  datatype Drain = Drained | DrainFails | WorkerFailsThenThrows | WorkerFailsThenDrains

  /** How construction ends; `Unbuilt` throws while the kernels are prepared. */
  datatype Build = NoRuntime | Unbuilt | NoThread | Built(launch: Launching)

  /**
    What a client, the worker and the other shards may do between construction and destruction, in any order. In a
    close, `others` take their steps between stopping the kernel and giving up the resources.
  */
  datatype Call =
    | CloseCall(drain: Drain, how: SW.Finishing, others: seq<SW.Action>)
    | WorkerFails
    | StoreValue(units: nat)
    | Others(act: SW.Action)

  /** Nothing that goes wrong, and no close. */
  predicate Quiet(call: Call) {
    call.StoreValue? || call.Others?
  }

  predicate WorkerFailsIn(drain: Drain) {
    drain.WorkerFailsThenThrows? || drain.WorkerFailsThenDrains?
  }

  /** A serving server's first close, or failing that the second, releases it. */
  predicate EndsReleased(first: Call, second: Call)
    requires first.CloseCall? && second.CloseCall?
  {
    !WorkerFailsIn(first.drain)
    && if first.drain.Drained? then first.how.Finishes? || second.how.Finishes?
       else second.drain.Drained? && second.how.Finishes?
  }

  /** Shard `i` is still prepared, and its launch will return normally. */
  predicate LaunchesAfter(s: SW.Service, i: nat, how: Launching) {
    i < |s.shards| && s.shards[i].stage.Prepared? && how.Enqueues? && LaunchReturns(s, how.enqueue)
  }

  /** `active_servers`. */
  class ServerDirectory {
    var active: set<Key>

    constructor ()
      ensures active == {}
    {
      active := {};
    }
  }

  /**
    `Server::Impl`. `Starting`, `Serving`, `Draining`, `Shut` and `Lost` are its Constructing, Ready, Closing,
    Closed and Quarantined.
  */
  class ServerImpl {
    const key: Key
    const registry: CoreRegistry
    const directory: ServerDirectory
    const service: MuxService?       // the endpoint's common workload, if its servers share one
    var state: ImplState
    var runtime: DeviceRuntime?
    ghost var core: Core?            // the core below, remembered after the runtime is gone
    var registered: bool
    var workerFailed: bool
    var workerStop: bool

    /** Every object below, for frames. */
    ghost function Repr(): set<object>
      reads this
    {
      {this, registry, directory} + (if runtime == null then {} else {runtime}) + (if core == null then {} else {core})
      + (if service == null then {} else {service})
    }

    ghost predicate Valid()
      reads this, Repr()
    {
      Wired() && (state.Draining? ==> !runtime.state.Terminated?)
    }

    /** Everything but that a terminated runtime is let go before anybody else looks. */
    ghost predicate Wired()
      reads this, Repr()
    {
      && (registered ==> key in directory.active)
      && (service != null ==> service.Valid())
      && (core != null ==> core.key == key && core.registry == registry && core.service == service && core.Valid())
      && (runtime != null ==> core != null && runtime.core == core && runtime.Valid())
      && (state.Serving? || state.Draining? ==> runtime != null && registered)
      && (state.Serving? ==> runtime.state.Running?)
      && (state.Draining? ==> !runtime.state.Prepared?)
      && (state.Shut? || state.Lost? ==> runtime == null && !registered && core != null && workerStop)
      && (runtime == null && core != null ==> core.state.Closed? || core.state.Quarantined?)
    }

    /** The first part of the constructor: the submesh worker group is claimed. */
    constructor (registry: CoreRegistry, directory: ServerDirectory, service: MuxService?, key: Key)
      requires key !in directory.active && (service != null ==> service.Valid())
      modifies directory
      ensures Valid() && state.Starting? && registered && runtime == null && core == null && !workerFailed
      ensures this.registry == registry && this.directory == directory && this.service == service && this.key == key
      ensures directory.active == old(directory.active) + {key}
    {
      this.key, this.registry, this.directory, this.service := key, registry, directory, service;
      state, runtime, core, registered, workerFailed, workerStop := Starting, null, null, true, false, false;
      new;
      directory.active := directory.active + {key};
    }

    method Unregister()
      modifies this`registered, directory
      ensures !registered
      ensures directory.active == if old(registered) then old(directory.active) - {key} else old(directory.active)
    {
      if !registered {
        return;
      }
      directory.active := directory.active - {key};
      registered := false;
    }

    /** Destroying the runtime, wherever it got to. */
    method ResetRuntime()
      requires Wired() && runtime != null
      modifies this`runtime, runtime, core, registry, service
      ensures runtime == null && core == old(core) && core.Valid() && core.OthersKept() && core.DeviceUntouched()
      ensures core.state.Closed? || core.state.Quarantined?
      ensures core.state.Closed? <==>
                old(core.leases) == [] && ((old(runtime.state.Prepared?) && old(core.state.Constructing?))
                                           || (old(runtime.state.Terminated?) && old(core.state.Closing?)))
      ensures registry.held ==
              if core.state.Closed? || old(core.state.Quarantined?) then old(registry.held)
                  else old(registry.held) + [key]
      ensures core.state.Closed? ==> (core.Executing() <==> service != null && old(service.launched))
    {
      runtime.Destroy();
      runtime := null;
    }

    /** Steps of other shards; the common launch may take this server's core into quarantine with it. */
    method OthersAct(acts: seq<SW.Action>)
      requires Wired() && core != null
      modifies core, registry, service
      ensures Wired() && HeldOnce()
      ensures service != null ==> service.View() == OthersRun(old(service.View()), core.index, acts)
      ensures core != null ==> core.leases == old(core.leases)
      ensures core != null ==> core.state == old(core.state) || (core.state.Quarantined? && !old(core.state.Closed?))
      ensures core != null && service == null ==>
                core.state == old(core.state) && core.workload == old(core.workload) && core.DeviceUntouched()
    {
      if runtime != null {
        runtime.core.OthersActAll(acts);
      } else if service != null {
        AfterEffects(acts);
      }
    }

    /** The other shards go on after this one has been released or quarantined. */
    method AfterEffects(acts: seq<SW.Action>)
      requires Wired() && runtime == null && service != null && core != null
      modifies core, registry, service
      ensures Wired() && HeldOnce() && core.leases == old(core.leases) && core.state == old(core.state)
      ensures service.View() == OthersRun(old(service.View()), core.index, acts)
    {
      for i := 0 to |acts|
        invariant Wired() && HeldOnce() && core.leases == old(core.leases) && core.state == old(core.state)
        invariant service.View() == OthersRun(old(service.View()), core.index, acts[..i])
      {
        assert acts[..i + 1][..i] == acts[..i];
        Elsewhere(acts[i]);
      }
      assert acts[..|acts|] == acts;
    }

    /** Nothing another shard does concerns a core that has been released or quarantined. */
    method Elsewhere(a: SW.Action)
      requires Wired() && runtime == null && service != null && core != null
      modifies service
      ensures Wired() && service.View() == OthersStep(old(service.View()), core.index, a)
    {
      if service.CanTake(a) {
        OthersLeave(service.View(), a, core.index);
        service.Act(a);
      }
    }

    /** Preparing a core. Without one, the server's claim on its worker group is all there is to give up. */
    method Prepare(build: Build) returns (prepared: Core?)
      requires Valid() && state.Starting? && runtime == null && core == null
      requires service != null ==> service.alive
      requires key !in registry.held || key in registry.keys
      modifies registry, service
      ensures Valid() && registry.held == old(registry.held) && registry.keys - {key} == old(registry.keys) - {key}
      ensures prepared != null <==>
                !build.NoRuntime? && !build.Unbuilt? && key !in old(registry.keys)
                && (service != null ==> old(SW.Enabled(service.View(), SW.Join(true))))
      ensures prepared != null && service != null ==> service.View() == SW.JoinStep(old(service.View()), true)
      ensures prepared != null ==>
                fresh(prepared) && (service != null ==> prepared.index == |old(service.shards)|)
                && prepared.Valid() && prepared.state.Constructing? && prepared.key == key
                && prepared.registry == registry && prepared.service == service
    {
      if build.NoRuntime? || key in registry.keys {
        return null;
      }
      if service == null {
        if build.Unbuilt? {
          return null;
        }
        prepared := new Core(registry, key);
        return;
      }
      var joined, index := service.Join(!build.Unbuilt?);
      if !joined {
        return null;
      }
      prepared := new Core.Shard(registry, key, service, index);
    }

    /** The rest of the constructor. On false the server does not exist, and its claim is given up. */
    method Start(build: Build, others: seq<SW.Action>) returns (ok: bool)
      requires Valid() && state.Starting? && registered && runtime == null && core == null
      requires service != null ==> service.alive
      requires key !in registry.held || key in registry.keys
      modifies this, directory, registry, service
      ensures Valid() && (core != null ==> fresh(core)) && (runtime != null ==> fresh(runtime))
      ensures ok ==> state.Serving? && registered && core.leases == [] && core.state.Ready?
      ensures ok ==> directory.active == old(directory.active)
      ensures !ok ==> !registered && runtime == null && (core != null ==> core.state.Closed? || core.state.Quarantined?)
      ensures !ok ==> directory.active == old(directory.active) - {key}
      ensures ok && service == null ==> core.Executing() && core.workload
      ensures workerFailed == old(workerFailed)
      ensures service == null ==> (ok <==> key !in old(registry.keys) && build == Built(Enqueues(SW.Sent)))
      ensures service != null ==>
                (ok <==> key !in old(registry.keys) && build.Built? && build.launch.Enqueues?
                         && old(SW.Enabled(service.View(), SW.Join(true)))
                         && var i, s := |old(service.shards)|, SW.JoinStep(old(service.View()), true);
                            LaunchesAfter(OthersRun(s, i, others), i, build.launch))
      ensures !ok && core != null && service == null ==>
                (core.state.Quarantined? <==> build.Built? && build.launch.Enqueues?)
      ensures registry.held == if core != null && core.state.Quarantined? then old(registry.held) + [key]
                else old(registry.held)
      ensures registry.keys - {key} == old(registry.keys) - {key}
    {
      var prepared := Prepare(build);
      if prepared == null {
        Unregister();
        return false;
      }
      ok := Run(prepared, build, others);
      if !ok {
        ResetRuntime();
        Unregister();
        return;
      }
      state := Serving;
    }

    /** The prepared core gets its runtime; the worker thread is created, and only then the kernel is launched. */
    method Run(prepared: Core, build: Build, others: seq<SW.Action>) returns (ok: bool)
      requires Valid() && state.Starting? && registered && runtime == null && core == null
      requires prepared.Valid() && prepared.state.Constructing? && prepared.key == key
      requires prepared.registry == registry && prepared.service == service
      modifies this`core, this`runtime, prepared, registry, service
      ensures Valid() && core == prepared && runtime != null && fresh(runtime) && core.leases == []
      ensures if ok then runtime.state.Running? && core.state.Ready?
              else (runtime.state.Prepared? && core.state.Constructing?) || core.state.Quarantined?
      ensures ok && service == null ==> core.Executing() && core.workload
      ensures service == null ==> (ok <==> build.Built? && old(prepared.Starts(build.launch)))
      ensures service != null ==>
                (ok <==> build.Built? && build.launch.Enqueues?
                         && LaunchesAfter(OthersRun(old(service.View()), core.index, others), core.index, build.launch))
      ensures !ok && service == null ==> (core.state.Quarantined? <==> build.Built? && build.launch.Enqueues?)
      ensures registry.held == if core.state.Quarantined? then old(registry.held) + [key] else old(registry.held)
      ensures registry.keys - {key} == old(registry.keys) - {key}
    {
      core := prepared;
      runtime := new DeviceRuntime(prepared);
      prepared.OthersActAll(others);
      if !build.Built? {
        return false;
      }
      ok := runtime.Launch(build.launch);
    }

    /** The worker stores a value in a mapped extent. */
    method StoreMapped(units: nat)
      requires Valid() && state.Serving?
      modifies core
      ensures Valid() && core.leases == [units] + old(core.leases) && core.DeviceUntouched()
      ensures core.state == old(core.state) && core.workload == old(core.workload)
    {
      runtime.core.TrackLease(units);
    }

    /** `clear_host_values`: every lease the manager holds is destroyed. */
    method ClearHostValues()
      requires Wired() && runtime != null
      modifies core
      ensures Wired() && core.leases == [] && core.state == old(core.state) && core.DeviceUntouched()
    {
      runtime.core.DropAllLeases();
    }

    /** The quarantine list grows by this server's entry exactly when the core below becomes quarantined. */
    twostate predicate HeldOnce()
      reads this, core, registry
    {
      && core == old(core)
      && (core == null ==> registry.held == old(registry.held))
      && (core != null ==>
            registry.held ==
            if core.state.Quarantined? && !old(core.state.Quarantined?) then old(registry.held) + [key]
                else old(registry.held))
      && (core != null && old(core.state.Quarantined?) ==> core.state.Quarantined?)
      && registry.keys - {key} == old(registry.keys) - {key}
    }

    /** The worker group's claim is given up exactly when the server stops being registered. */
    twostate predicate ClaimKept()
      reads this, directory
    {
      directory.active == if registered == old(registered) then old(directory.active) else old(directory.active) - {key}
    }

    /** Closing now would release the core: the drain returns, the worker has not failed, and the kernel is stopped. */
    ghost predicate Closes(drain: Drain, how: SW.Finishing)
      requires Wired() && runtime != null
      reads this, Repr()
    {
      Drains(drain) && !FailsBy(drain) && core.Stops(how)
    }

    /** `force_quarantine`. */
    method ForceQuarantine()
      requires Valid()
      modifies this, runtime, core, registry, directory, service
      ensures Valid() && HeldOnce() && ClaimKept() && (runtime == old(runtime) || runtime == null)
      ensures workerFailed == old(workerFailed)
      ensures old(state.Serving?) || old(state.Draining?) ==> state.Lost? && core.state.Quarantined?
      ensures old(state.Shut?) || old(state.Lost?) ==> state == old(state)
    {
      if state.Shut? || state.Lost? {
        return;
      }
      workerStop := true;
      if runtime != null {
        ClearHostValues();
        ResetRuntime();
        state := Lost;
      }
      Unregister();
    }

    /** `close`. False is a throw; Serving or Draining states can be closed again. */
    method Close(drain: Drain, how: SW.Finishing, others: seq<SW.Action>) returns (ok: bool)
      requires Valid()
      modifies this, runtime, core, registry, directory, service
      ensures Valid() && HeldOnce() && ClaimKept() && (runtime == old(runtime) || runtime == null)
      ensures ok <==>
                old(state.Shut?) || old(state.Lost?)
                || ((old(state.Serving?) || old(state.Draining?))
                    && old(Drains(drain)) && !old(FailsBy(drain)) && old(runtime.Stops(how)))
      ensures state == if old(state.Starting?) || old(state.Shut?) || old(state.Lost?) then old(state)
                       else if !old(Drains(drain)) && !old(FailsBy(drain)) then Serving
                       else if !old(Drains(drain)) then Draining
                       else if old(FailsBy(drain)) then Lost
                       else if ok then Shut else Draining
      ensures old(state.Serving?) || old(state.Draining?) ==> workerFailed == old(FailsBy(drain))
      ensures state.Shut? && !old(state.Shut?) ==> core.state.Closed? || core.state.Quarantined?
      ensures state.Lost? && !old(state.Lost?) ==> core.state.Quarantined?
      ensures state.Serving? && old(state.Serving?) ==>
                core.state == old(core.state) && runtime == old(runtime) && runtime.state == old(runtime.state)
      ensures state.Draining? && !old(core.state.Quarantined?) ==>
                (core.state.Ready? || core.state.Closing?) && core.workload == old(core.workload)
      ensures state.Serving? ==> core.workload == old(core.workload)
      ensures (old(state.Serving?) || old(state.Draining?)) && !old(core.state.Quarantined?)
              && (service == null || others == []) ==>
                (state.Shut? && core.state.Closed? && key !in registry.keys <==> old(Closes(drain, how)))
      ensures old(state.Shut?) || old(state.Lost?) ==> core.state == old(core.state)
      ensures state.Shut? && !old(state.Shut?) && service == null && !old(core.state.Quarantined?) ==>
                core.state.Closed? && core.finished
    {
      if state.Shut? || state.Lost? {
        return true;
      }
      if state.Starting? {
        return false;
      }
      if state.Serving? {
        var drained := DrainPuts(drain);
        if !drained {
          return false;
        }
      }
      ok := CloseDrained(how, others);
    }

    /** With the puts drained, a failed worker ends in quarantine, and otherwise the server is shut down. */
    method CloseDrained(how: SW.Finishing, others: seq<SW.Action>) returns (ok: bool)
      requires Valid() && state.Draining?
      modifies this, runtime, core, registry, directory, service
      ensures Valid() && HeldOnce() && ClaimKept() && (runtime == old(runtime) || runtime == null)
      ensures workerFailed == old(workerFailed) && (ok <==> !workerFailed && old(runtime.Stops(how)))
      ensures state == if workerFailed then Lost else if ok then Shut else Draining
      ensures state.Shut? ==> core.state.Closed? || core.state.Quarantined?
      ensures state.Lost? ==> core.state.Quarantined?
      ensures state.Draining? && !old(core.state.Quarantined?) ==>
                (core.state.Ready? || core.state.Closing?) && core.workload == old(core.workload)
      ensures !old(core.state.Quarantined?) && (service == null || others == []) ==>
                (state.Shut? && core.state.Closed? && key !in registry.keys <==> ok)
      ensures state.Shut? && service == null && !old(core.state.Quarantined?) ==> core.state.Closed? && core.finished
    {
      if workerFailed {
        ForceQuarantine();
        return false;
      }
      ok := ShutDown(how, others);
    }

    /** The puts in flight are drained, or need not be. */
    predicate Drains(drain: Drain)
      reads this
    {
      state.Draining? || workerFailed || drain.Drained? || drain.WorkerFailsThenDrains?
    }

    /** The worker has failed by the time the drain ends. */
    predicate FailsBy(drain: Drain)
      reads this
    {
      workerFailed || (state.Serving? && (drain.WorkerFailsThenThrows? || drain.WorkerFailsThenDrains?))
    }

    /** Entering Draining; a failed drain goes back to Serving unless the worker has failed. */
    method DrainPuts(drain: Drain) returns (ok: bool)
      requires Valid() && state.Serving?
      modifies this`state, this`workerFailed
      ensures Valid() && (ok <==> old(Drains(drain))) && (workerFailed <==> old(FailsBy(drain)))
      ensures state == if !ok && !workerFailed then Serving else Draining
    {
      state := Draining;
      if workerFailed {
        return true;
      }
      if drain.WorkerFailsThenThrows? || drain.WorkerFailsThenDrains? {
        workerFailed := true;
      }
      if drain.DrainFails? || drain.WorkerFailsThenThrows? {
        if !workerFailed {
          state := Serving;
        }
        return false;
      }
      return true;
    }

    /**
      The kernel is stopped first; only then are the worker, the values and the resources let go. A shard's key is
      free while the device may still be executing exactly if another shard of the launched set has yet to signal.
    */
    method ShutDown(how: SW.Finishing, others: seq<SW.Action>) returns (ok: bool)
      requires Valid() && state.Draining?
      modifies this, runtime, core, registry, directory, service
      ensures Valid() && HeldOnce() && ClaimKept() && (runtime == old(runtime) || runtime == null)
      ensures ok <==> old(runtime.Stops(how))
      ensures (if ok then state.Shut? else state.Draining?) && workerFailed == old(workerFailed)
      ensures !ok ==> core.state.Quarantined? == old(core.state.Quarantined?) && core.workload == old(core.workload)
      ensures ok ==> core.state.Closed? || core.state.Quarantined?
      ensures ok && service == null && !old(core.state.Quarantined?) ==> core.state.Closed? && core.finished
      ensures ok && service != null && !old(core.state.Quarantined?) ==>
                var s := OthersRun(SW.TerminateStep(old(service.View()), core.index, how), core.index, others);
                core.index < |s.shards| && (core.state.Closed? <==> s.shards[core.index].stage.Ended?)
                && (core.state.Closed? ==> (core.Executing() <==> s.launched))
      ensures ok && service != null && others == [] ==> (core.state.Closed? <==> !old(core.state.Quarantined?))
      ensures ok && service != null && others == [] && core.state.Closed? ==>
                (core.Executing() <==> old(service.launched) && !old(OthersSignalled(service.shards, core.index)))
    {
      ok := runtime.Terminate(how);
      if !ok {
        return;
      }
      LetGo(others);
      state := Shut;
      Unregister();
    }

    /** The kernel has been told to stop: the worker, the values and the device runtime go. */
    method LetGo(others: seq<SW.Action>)
      requires Wired() && runtime != null && (runtime.state.Terminated? || runtime.state.Abandoned?)
      modifies this`runtime, this`workerStop, runtime, core, registry, service
      ensures runtime == null && core.Valid() && HeldOnce() && (core.state.Closed? || core.state.Quarantined?)
      ensures service == null ==>
                (core.state.Closed? <==> !old(core.state.Quarantined?)) && core.finished == old(core.finished)
      ensures service != null && !old(core.state.Quarantined?) ==>
                var s := OthersRun(old(service.View()), core.index, others);
                core.index < |s.shards| && (core.state.Closed? <==> s.shards[core.index].stage.Ended?)
                && (core.state.Closed? ==> (core.Executing() <==> s.launched)) && service.running == s.running
      ensures (key in registry.keys <==> core.state.Quarantined?) && workerStop
    {
      OthersAct(others);
      workerStop := true;
      ClearHostValues();
      ResetRuntime();
    }

    /** The server serves on as it did. */
    twostate predicate ServesOn()
      reads this, core
    {
      && state == old(state) && workerFailed == old(workerFailed) && core == old(core)
      && (core != null ==> core.state == old(core.state) && core.workload == old(core.workload))
    }

    /** One call by a client, one event on the worker thread, or one step of another shard. */
    method Handle(call: Call)
      requires Valid() && !state.Starting?
      modifies this, runtime, core, registry, directory, service
      ensures Valid() && HeldOnce() && ClaimKept() && !state.Starting? && (runtime == old(runtime) || runtime == null)
      ensures service == null && Quiet(call) ==> ServesOn()
    {
      match call
      case CloseCall(drain, how, others) => var ok := Close(drain, how, others);
      case WorkerFails => workerFailed := true;
      case StoreValue(units) =>
        if state.Serving? && !workerFailed {
          StoreMapped(units);
        }
      case Others(act) => OthersAct([act]);
    }

    /** Any sequence of calls and events. */
    method Serve(calls: seq<Call>)
      requires Valid() && !state.Starting?
      modifies this, runtime, core, registry, directory, service
      ensures Valid() && HeldOnce() && ClaimKept() && !state.Starting? && (runtime == old(runtime) || runtime == null)
      ensures service == null && (forall i | 0 <= i < |calls| :: Quiet(calls[i])) ==> ServesOn()
    {
      for i := 0 to |calls|
        invariant Valid() && HeldOnce() && ClaimKept() && !state.Starting?
        invariant runtime == old(runtime) || runtime == null
        invariant service == null && (forall j | 0 <= j < |calls| :: Quiet(calls[j])) ==> ServesOn()
      {
        Handle(calls[i]);
      }
    }

    /** The destructor's second attempt: a close that throws again ends in quarantine. */
    method CloseOrQuarantine(drain: Drain, how: SW.Finishing, others: seq<SW.Action>)
      requires Valid() && !state.Starting?
      modifies this, runtime, core, registry, directory, service
      ensures Valid() && HeldOnce() && ClaimKept() && (state.Shut? || state.Lost?)
      ensures old(state.Shut?) || old(state.Lost?) ==> core.state == old(core.state)
      ensures (old(state.Serving?) || old(state.Draining?)) && !old(core.state.Quarantined?) && service == null ==>
                (core.state.Closed? <==> old(Closes(drain, how))) && (core.state.Closed? <==> key !in registry.keys)
    {
      var ok := Close(drain, how, others);
      if !ok {
        ForceQuarantine();
      }
    }

    /** The first close, or the second from where the first leaves off, releases the core. */
    ghost predicate ClosesAtLast(first: Call, second: Call)
      requires Wired() && runtime != null && first.CloseCall? && second.CloseCall?
      reads this, Repr()
    {
      !FailsBy(first.drain)
      && if Drains(first.drain) then core.Stops(first.how) || core.Stops(second.how)
         else Closes(second.drain, second.how)
    }

    /** The destructor: close, and close again if that throws. */
    method Destroy(first: Call, second: Call)
      requires Valid() && !state.Starting? && first.CloseCall? && second.CloseCall?
      modifies this, runtime, core, registry, directory, service
      ensures Valid() && HeldOnce() && ClaimKept() && (state.Shut? || state.Lost?)
      ensures old(state.Shut?) || old(state.Lost?) ==> core.state == old(core.state)
      ensures (old(state.Serving?) || old(state.Draining?)) && !old(core.state.Quarantined?) && service == null ==>
                (core.state.Closed? <==> old(ClosesAtLast(first, second)))
                && (core.state.Closed? <==> key !in registry.keys)
    {
      var ok := Close(first.drain, first.how, first.others);
      if !ok {
        CloseOrQuarantine(second.drain, second.how, second.others);
      }
    }

    /** The rest of the constructor, any calls, and the destructor. */
    method Live(build: Build, others: seq<SW.Action>, calls: seq<Call>, first: Call, second: Call)
      returns (started: bool)
      requires Valid() && state.Starting? && registered && runtime == null && core == null
      requires service != null ==> service.alive
      requires key !in registry.held || key in registry.keys
      requires first.CloseCall? && second.CloseCall?
      modifies this, directory, registry, service
      ensures Valid() && runtime == null && !registered && directory.active == old(directory.active) - {key}
      ensures core == null ==> !started
      ensures core != null ==> fresh(core) && (core.state.Closed? || core.state.Quarantined?)
      ensures registry.held == if core != null && core.state.Quarantined? then old(registry.held) + [key]
                else old(registry.held)
      ensures registry.keys - {key} == old(registry.keys) - {key}
      ensures service == null ==> (started <==> key !in old(registry.keys) && build == Built(Enqueues(SW.Sent)))
      ensures service == null && started && !old(workerFailed) && (forall i | 0 <= i < |calls| :: Quiet(calls[i])) ==>
                (core.state.Closed? <==> EndsReleased(first, second)) && (core.state.Closed? <==> key !in registry.keys)
    {
      started := Start(build, others);
      if started {
        Serve(calls);
        Destroy(first, second);
      }
    }
  }

  /**
    A server's resources at the end: its key is given up, and either nothing runs on its memory any more or the
    common service keeps it; or everything is kept for good, once.
  */
  twostate predicate Settled(new core: Core, registry: CoreRegistry, key: Key)
    requires core.Valid()
    reads core, registry, core.registry, core.service
  {
    || (core.state.Closed? && key !in registry.keys && registry.held == old(registry.held)
        && (core.Orderly() ==>
              !core.Executing() || (core.Shared() && core.Place().Retired? && core.service.alive
                  && core.service.workload)))
    || (core.state.Quarantined? && core.Place().Kept? && key in registry.keys
        && registry.held == old(registry.held) + [key])
  }

  /**
    One server from construction to destruction, with its own workload or as a shard of a common one, over every
    order of calls, every interleaving with the other shards' steps, and every mix of launch, drain, terminate and
    worker failures.
  */
  method Lifetime(registry: CoreRegistry, directory: ServerDirectory, service: MuxService?, key: Key, build: Build,
                  others: seq<SW.Action>, calls: seq<Call>, first: Call, second: Call)
    returns (started: bool, ghost core: Core?)
    requires key !in directory.active && (key in registry.held ==> key in registry.keys)
    requires service != null ==> service.Valid() && service.alive
    requires first.CloseCall? && second.CloseCall?
    modifies registry, directory, service
    ensures key !in directory.active && registry.keys - {key} == old(registry.keys) - {key}
    ensures core == null ==> !started && registry.held == old(registry.held)
    ensures core != null ==>
              fresh(core) && core.Valid() && core.service == service && core.key == key && Settled(core, registry, key)
    ensures service == null ==> (started <==> key !in old(registry.keys) && build == Built(Enqueues(SW.Sent)))
    ensures service == null && started && (forall i | 0 <= i < |calls| :: Quiet(calls[i])) ==>
              (core.state.Closed? <==> EndsReleased(first, second)) && (core.state.Closed? <==> key !in registry.keys)
  {
    var s := new ServerImpl(registry, directory, service, key);
    started := s.Live(build, others, calls, first, second);
    core := s.core;
    if core != null {
      core.PlaceFollowsState();
      if core.Orderly() {
        core.OrderlyIsSafe();
      }
    }
  }
}
