/**
  The object every shard of an endpoint points to, and what its fields say in any run at all, whether or not a shard
  was destroyed too early.
*/
module SharedService {
  import opened Words
  import opened SharedWorkload

  // ----- the books of any run -----

  /** Where a shard's buffers are follows from its stage, and nobody has signalled before closing. */
  ghost predicate Filed(x: Shard) {
    match x.stage
    case Prepared => !x.signalled && x.buffers.Owned?
    case Running => !x.signalled && x.buffers.Owned?
    case Held => x.buffers.Kept?
    case Gone => x.buffers.Retired? || x.buffers.Freed?
    case _ => x.buffers.Owned?
  }

  ghost predicate Detached(x: Shard) {
    x.stage.Held? || x.stage.Gone?
  }

  ghost predicate AllFiled(shards: seq<Shard>) {
    forall i | 0 <= i < |shards| :: Filed(shards[i])
  }

  ghost predicate NoneRetired(shards: seq<Shard>) {
    forall i | 0 <= i < |shards| :: !shards[i].buffers.Retired?
  }

  /**
    The service lives while it is referenced, and before its first shard; buffers are retired into it only while it
    lives and has a workload.
  */
  ghost predicate Keeping(alive: bool, workload: bool, shards: seq<Shard>) {
    && (alive <==> Referenced(shards) || shards == [])
    && (workload ==> alive)
    && (workload || NoneRetired(shards))
  }

  ghost predicate Books(s: Service) {
    Tallied(s) && Keeping(s.alive, s.workload, s.shards)
  }

  /** The counts, the flags and the server list agree with where the shards are. */
  ghost predicate Tallied(s: Service) {
    && s.count > 0 && s.terminated == Signals(s.shards)
    && (!s.failed ==>
          s.members == Range(|s.shards|) && |s.shards| <= s.count && (s.prepared <==> |s.shards| == s.count))
    && (s.launched ==> s.running && s.prepared && !s.failed && (s.alive ==> s.workload))
    && (s.running && !s.launched ==> s.prepared && forall i | 0 <= i < |s.shards| :: Detached(s.shards[i]))
    && AllFiled(s.shards)
  }

  lemma FreshBooks(count: nat)
    requires count > 0
    ensures Books(Fresh(count)) && Inv(Fresh(count))
  {
    FreshIsInv(count);
  }

  lemma StillReferenced(shards: seq<Shard>, i: nat, x: Shard)
    requires i < |shards| && HoldsService(shards[i])
    ensures Referenced(shards) && (HoldsService(x) ==> Referenced(shards[i := x]))
  {
    assert HoldsService(x) ==> HoldsService(shards[i := x][i]);
  }

  /** Freeing what was retired moves nobody. */
  lemma FreedKeeps(shards: seq<Shard>)
    ensures NoneRetired(FreeRetired(shards)) && (Referenced(FreeRetired(shards)) <==> Referenced(shards))
  {
    var freed := FreeRetired(shards);
    if Referenced(shards) {
      var i :| 0 <= i < |shards| && HoldsService(shards[i]);
      assert HoldsService(freed[i]);
    }
    if Referenced(freed) {
      var i :| 0 <= i < |freed| && HoldsService(freed[i]);
      assert HoldsService(shards[i]);
    }
  }

  lemma HeldReferenced(shards: seq<Shard>)
    ensures Referenced(HoldAll(shards)) <==> Referenced(shards)
    ensures NoneRetired(shards) ==> NoneRetired(HoldAll(shards))
  {
    var held := HoldAll(shards);
    if Referenced(shards) {
      var i :| 0 <= i < |shards| && HoldsService(shards[i]);
      assert HoldsService(held[i]);
    }
    if Referenced(held) {
      var i :| 0 <= i < |held| && HoldsService(held[i]);
      assert HoldsService(shards[i]);
    }
  }

  lemma FiledUpdate(shards: seq<Shard>, i: nat, x: Shard)
    requires AllFiled(shards) && i < |shards| && Filed(x)
    ensures AllFiled(shards[i := x]) && AllFiled(FreeRetired(shards[i := x]))
  {
    var next := shards[i := x];
    forall j | 0 <= j < |next| ensures Filed(next[j]) && Filed(FreeRetired(next)[j]) {
      assert Filed(shards[j]);
    }
  }

  lemma FiledAppend(shards: seq<Shard>, x: Shard)
    requires AllFiled(shards) && Filed(x)
    ensures AllFiled(shards + [x]) && AllFiled(FreeRetired(shards + [x]))
  {
    var next := shards + [x];
    forall j | 0 <= j < |next| ensures Filed(next[j]) && Filed(FreeRetired(next)[j]) {
      assert j < |shards| ==> Filed(shards[j]);
    }
  }

  lemma BooksJoin(s: Service, builds: bool)
    requires Books(s) && Enabled(s, Join(builds))
    ensures Tallied(JoinStep(s, builds))
  {
    var x := if builds then Shard(Prepared, false, Owned) else Shard(Gone, false, Freed);
    SignalsAppend(s.shards, x);
    SameSignals(FreeRetired(s.shards + [x]), s.shards + [x]);
    FiledAppend(s.shards, x);
    JoinedMembers(s);
    assert !s.running;
  }

  lemma BooksLaunch(s: Service, i: nat, how: Enqueue)
    requires Books(s) && Enabled(s, Launch(i, how))
    ensures Tallied(LaunchStep(s, i, how))
  {
    var up := s.shards[i := s.shards[i].(stage := Running)];
    SignalsUpdate(s.shards, i, up[i]);
    SameSignals(HoldAll(s.shards), s.shards);
    StillReferenced(s.shards, i, up[i]);
    RangeSize(|s.shards|);
    assert !Detached(s.shards[i]);
    assert Filed(s.shards[i]);
    FiledUpdate(s.shards, i, up[i]);
    forall j | 0 <= j < |up| ensures Filed(HoldAll(s.shards)[j]) && Detached(HoldAll(s.shards)[j]) {
      assert Filed(s.shards[j]);
    }
  }

  lemma BooksTerminate(s: Service, i: nat, end: Finishing)
    requires Books(s) && Enabled(s, Terminate(i, end))
    ensures Tallied(TerminateStep(s, i, end))
  {
    var x := s.shards[i];
    assert !Detached(x) && Filed(x);
    StillReferenced(s.shards, i, x);
    if s.launched {
      BooksTell(s, i, end);
    } else {
      SignalsUpdate(s.shards, i, x.(stage := Ended));
      FiledUpdate(s.shards, i, x.(stage := Ended));
      assert !s.running;
    }
  }

  lemma BooksTell(s: Service, i: nat, end: Finishing)
    requires Books(s) && Enabled(s, Terminate(i, end)) && s.launched
    ensures Tallied(TerminateStep(s, i, end))
  {
    var x := s.shards[i];
    var told, ended := x.(stage := Closing, signalled := true), x.(stage := Ended, signalled := true);
    var silent := x.(stage := Closing);
    assert Filed(x);
    SignalsUpdate(s.shards, i, told);
    if !x.signalled && end.SignalFails? {
      SignalsUpdate(s.shards, i, silent);
      FiledUpdate(s.shards, i, silent);
    } else if Signals(s.shards[i := told]) == s.count && s.workload {
      BooksFinish(s, i, end);
    } else {
      SignalsUpdate(s.shards, i, ended);
      FiledUpdate(s.shards, i, ended);
      assert s.shards[i := told][i := ended] == s.shards[i := ended];
    }
  }

  lemma BooksFinish(s: Service, i: nat, end: Finishing)
    requires Books(s) && Enabled(s, Terminate(i, end)) && s.launched && s.workload
    requires s.shards[i].signalled || !end.SignalFails?
    requires Signals(s.shards[i := s.shards[i].(stage := Closing, signalled := true)]) == s.count
    ensures Tallied(TerminateStep(s, i, end))
  {
    var x := s.shards[i];
    var told, ended := x.(stage := Closing, signalled := true), x.(stage := Ended, signalled := true);
    SignalsUpdate(s.shards, i, told);
    assert Filed(x);
    FiledUpdate(s.shards, i, told);
    var freed := FreeRetired(s.shards[i := told]);
    SameSignals(freed, s.shards[i := told]);
    SignalsUpdate(freed, i, ended);
    FiledUpdate(freed, i, ended);
  }

  lemma BooksRelease(s: Service, i: nat, clean: bool)
    requires Books(s) && Enabled(s, Release(i, clean))
    ensures Tallied(ReleaseStep(s, i, clean))
  {
    var x := s.shards[i];
    var left := if !clean then x.(stage := Held, buffers := Kept)
                else x.(stage := Gone, buffers := if s.workload then Retired else Freed);
    SignalsUpdate(s.shards, i, left);
    SameSignals(FreeRetired(s.shards[i := left]), s.shards[i := left]);
    FiledUpdate(s.shards, i, left);
    assert !Detached(x) && HoldsService(x);
  }

  lemma BooksQuarantine(s: Service, i: nat)
    requires Books(s) && Enabled(s, Quarantine(i))
    ensures Tallied(Do(s, Quarantine(i)))
  {
    SignalsUpdate(s.shards, i, s.shards[i].(stage := Held, buffers := Kept));
    FiledUpdate(s.shards, i, s.shards[i].(stage := Held, buffers := Kept));
    assert !Detached(s.shards[i]);
    assert HoldsService(s.shards[i]);
  }

  // ----- who keeps the service, and what it keeps -----

  lemma KeepingMoved(alive: bool, workload: bool, shards: seq<Shard>, i: nat, x: Shard)
    requires Keeping(alive, workload, shards) && i < |shards| && HoldsService(shards[i])
    requires HoldsService(x) && !x.buffers.Retired?
    ensures Keeping(alive, workload, shards[i := x])
  {
    StillReferenced(shards, i, x);
  }

  lemma KeepingJoin(s: Service, builds: bool)
    requires Books(s) && Enabled(s, Join(builds))
    ensures var t := JoinStep(s, builds); Keeping(t.alive, t.workload, t.shards)
  {
    var x := if builds then Shard(Prepared, false, Owned) else Shard(Gone, false, Freed);
    var shards := s.shards + [x];
    FreedKeeps(shards);
    assert builds ==> HoldsService(shards[|s.shards|]);
    if Referenced(s.shards) {
      var j :| 0 <= j < |s.shards| && HoldsService(s.shards[j]);
      assert HoldsService(shards[j]);
    }
  }

  lemma KeepingLaunch(s: Service, i: nat, how: Enqueue)
    requires Books(s) && Enabled(s, Launch(i, how))
    ensures var t := LaunchStep(s, i, how); Keeping(t.alive, t.workload, t.shards)
  {
    var x := s.shards[i];
    assert Filed(x);
    KeepingMoved(s.alive, s.workload, s.shards, i, x.(stage := Running));
    HeldReferenced(s.shards);
  }

  lemma KeepingTerminate(s: Service, i: nat, end: Finishing)
    requires Books(s) && Enabled(s, Terminate(i, end))
    ensures var t := TerminateStep(s, i, end); Keeping(t.alive, t.workload, t.shards)
  {
    var x := s.shards[i];
    var told, ended := x.(stage := Closing, signalled := true), x.(stage := Ended, signalled := true);
    assert Filed(x) && HoldsService(x);
    KeepingMoved(s.alive, s.workload, s.shards, i, x.(stage := Ended));
    KeepingMoved(s.alive, s.workload, s.shards, i, x.(stage := Closing));
    KeepingMoved(s.alive, s.workload, s.shards, i, told);
    KeepingMoved(s.alive, s.workload, s.shards, i, ended);
    assert s.shards[i := told][i := ended] == s.shards[i := ended];
    FinishKeeping(s, i);
  }

  lemma FinishKeeping(s: Service, i: nat)
    requires Books(s) && s.alive && i < |s.shards| && HoldsService(s.shards[i]) && s.shards[i].buffers.Owned?
    ensures var told := s.shards[i := s.shards[i].(stage := Closing, signalled := true)];
            Keeping(s.alive, false, FreeRetired(told))
            && Keeping(s.alive, false, FreeRetired(told)[i := s.shards[i].(stage := Ended, signalled := true)])
  {
    var x := s.shards[i];
    var told := s.shards[i := x.(stage := Closing, signalled := true)];
    KeepingMoved(s.alive, s.workload, s.shards, i, told[i]);
    FreedKeeps(told);
    var freed := FreeRetired(told);
    assert HoldsService(freed[i]) && freed != [];
    KeepingMoved(s.alive, false, freed, i, x.(stage := Ended, signalled := true));
  }

  lemma KeepingRelease(s: Service, i: nat, clean: bool)
    requires Books(s) && Enabled(s, Release(i, clean))
    ensures var t := ReleaseStep(s, i, clean); Keeping(t.alive, t.workload, t.shards)
  {
    var x := s.shards[i];
    KeepingMoved(s.alive, s.workload, s.shards, i, x.(stage := Held, buffers := Kept));
    FreedKeeps(s.shards[i := x.(stage := Gone, buffers := if s.workload then Retired else Freed)]);
  }

  lemma KeepingStep(s: Service, a: Action)
    requires Books(s) && Enabled(s, a)
    ensures var t := Do(s, a); Keeping(t.alive, t.workload, t.shards)
  {
    match a
    case Join(builds) => KeepingJoin(s, builds);
    case Launch(i, how) => KeepingLaunch(s, i, how);
    case Terminate(i, end) => KeepingTerminate(s, i, end);
    case Release(i, clean) => KeepingRelease(s, i, clean);
    case Quarantine(i) => KeepingMoved(s.alive, s.workload, s.shards, i, s.shards[i].(stage := Held, buffers := Kept));
  }

  /** What the fields say survives every step, too early or not. */
  lemma BooksStep(s: Service, a: Action)
    requires Books(s) && Enabled(s, a)
    ensures Books(Do(s, a))
  {
    KeepingStep(s, a);
    match a
    case Join(builds) => BooksJoin(s, builds);
    case Launch(i, how) => BooksLaunch(s, i, how);
    case Terminate(i, end) => BooksTerminate(s, i, end);
    case Release(i, clean) => BooksRelease(s, i, clean);
    case Quarantine(i) => BooksQuarantine(s, i);
  }

  // ----- what a step shows to the shard that takes it, and to the others -----

  /** The shard a step is about; a joining shard takes the next place. */
  function Subject(s: Service, a: Action): nat {
    match a
    case Join(_) => |s.shards|
    case Launch(i, _) => i
    case Terminate(i, _) => i
    case Release(i, _) => i
    case Quarantine(i) => i
  }

  /** A step another shard takes if it can. */
  ghost function OthersStep(s: Service, i: nat, a: Action): Service {
    if Enabled(s, a) && Subject(s, a) != i then Do(s, a) else s
  }

  /** The service after shards other than `i` have taken those of the steps that they could, in order. */
  ghost function OthersRun(s: Service, i: nat, acts: seq<Action>): Service
    decreases |acts|
  {
    if acts == [] then s
    else OthersStep(OthersRun(s, i, acts[..|acts| - 1]), i, acts[|acts| - 1])
  }

  /** The launch that enqueues failed, and every shard on the server list was quarantined with it. */
  predicate CommonLaunchFails(s: Service, a: Action) {
    a.Launch? && CommonLaunch(s) && !a.how.Sent?
  }

  /** Another shard's step leaves this one where it is, unless it is the common launch and fails. */
  ghost predicate LeavesAlone(s: Service, a: Action, i: nat)
    requires Enabled(s, a) && i < |s.shards|
  {
    var t := Do(s, a);
    && i < |t.shards| && t.shards[i].signalled == s.shards[i].signalled
    && t.shards[i].stage == (if CommonLaunchFails(s, a) && !s.shards[i].stage.Gone? then Held else s.shards[i].stage)
    && (s.shards[i].stage.Prepared? && s.launched ==> t.launched)
    && (t.launched && !s.launched ==> a.Launch? && CommonLaunch(s))
  }

  lemma OthersLeave(s: Service, a: Action, i: nat)
    requires Books(s) && Enabled(s, a) && i < |s.shards| && Subject(s, a) != i
    ensures LeavesAlone(s, a, i)
  {
    match a
    case Launch(k, how) => LaunchLeaves(s, k, how, i);
    case Terminate(k, end) => TerminateLeaves(s, k, end, i);
    case Release(k, clean) => ReleaseLeaves(s, k, clean, i);
    case _ =>
  }

  lemma ReleaseLeaves(s: Service, k: nat, clean: bool, i: nat)
    requires Books(s) && Enabled(s, Release(k, clean)) && i < |s.shards| && k != i
    ensures LeavesAlone(s, Release(k, clean), i)
  {
  }

  lemma LaunchLeaves(s: Service, k: nat, how: Enqueue, i: nat)
    requires Books(s) && Enabled(s, Launch(k, how)) && i < |s.shards| && k != i
    ensures LeavesAlone(s, Launch(k, how), i)
  {
  }

  lemma TerminateLeaves(s: Service, k: nat, end: Finishing, i: nat)
    requires Books(s) && Enabled(s, Terminate(k, end)) && i < |s.shards| && k != i
    ensures LeavesAlone(s, Terminate(k, end), i)
  {
    var told := s.shards[k := s.shards[k].(stage := Closing, signalled := true)];
    SignalsUpdate(s.shards, k, told[k]);
    SignalsFull(told);
    assert Filed(s.shards[i]) && told[i] == s.shards[i];
    RangeSize(|s.shards|);
  }

  /** When a shard's launch returns normally: before the set is complete, as the common launch, or after it. */
  predicate LaunchReturns(s: Service, how: Enqueue) {
    if CommonLaunch(s) then how.Sent? else !s.prepared || s.launched
  }

  /** What was enqueued reaches the device, unless the request was lost before it got there. */
  predicate Reaches(how: Enqueue) {
    how.LostInEnqueue? ==> how.reached
  }

  /** A launch puts its shard up, is refused, or loses everybody. */
  lemma LaunchShows(s: Service, i: nat, how: Enqueue)
    requires Books(s) && Enabled(s, Launch(i, how))
    ensures var t := LaunchStep(s, i, how);
            |t.shards| == |s.shards|
            && t.shards[i].stage == (if CommonLaunch(s) && !how.Sent? then Held
                                     else if LaunchReturns(s, how) then Running else Prepared)
    ensures var t := LaunchStep(s, i, how);
            && (t.launched <==> s.launched || (CommonLaunch(s) && !how.LostInEnqueue?))
            && (t.running <==> s.running || (CommonLaunch(s) && Reaches(how)))
            && t.workload == s.workload && t.finishes == s.finishes
    ensures forall j | 0 <= j < |s.shards| && j != i ::
              LaunchStep(s, i, how).shards[j] ==
                if CommonLaunch(s) && !how.Sent? && !s.shards[j].stage.Gone?
                then s.shards[j].(stage := Held, buffers := Kept) else s.shards[j]
    ensures !CommonLaunch(s) && LaunchStep(s, i, how).shards[i].stage.Prepared? ==> !s.launched
  {
    RangeSize(|s.shards|);
    assert !Detached(s.shards[i]);
  }

  /** Every other shard has been told to stop. */
  predicate OthersSignalled(shards: seq<Shard>, i: nat) {
    forall j | 0 <= j < |shards| && j != i :: shards[j].signalled
  }

  /** The shard's own signal is written, now or before. */
  predicate Tells(s: Service, i: nat, end: Finishing)
    requires i < |s.shards|
  {
    s.launched && (s.shards[i].signalled || !end.SignalFails?)
  }

  /** With the last signal the device is waited for, and the wait returns. */
  predicate FinishReturns(s: Service, i: nat, end: Finishing)
    requires i < |s.shards|
  {
    Tells(s, i, end) && OthersSignalled(s.shards, i) && (end.Finishes? || end.ThrowsAfterFinish?)
  }

  /** When a termination returns normally. */
  predicate TerminateReturns(s: Service, i: nat, end: Finishing)
    requires i < |s.shards|
  {
    !s.launched || (Tells(s, i, end) && (OthersSignalled(s.shards, i) ==> end.Finishes?))
  }

  /** The signal that `i` writes completes the count exactly if it is the last one. */
  lemma LastSignalCounts(s: Service, i: nat)
    requires Books(s) && i < |s.shards| && s.launched
    ensures Signals(s.shards[i := s.shards[i].(stage := Closing, signalled := true)]) == s.count <==>
              OthersSignalled(s.shards, i)
  {
    var told := s.shards[i := s.shards[i].(stage := Closing, signalled := true)];
    SignalsFull(told);
    RangeSize(|s.shards|);
    if OthersSignalled(s.shards, i) {
      forall j | 0 <= j < |told| ensures told[j].signalled { assert j != i ==> s.shards[j].signalled; }
    }
    if forall j | 0 <= j < |told| :: told[j].signalled {
      forall j | 0 <= j < |s.shards| && j != i ensures s.shards[j].signalled { assert told[j].signalled; }
    }
  }

  /** A shard that terminates normally leaves the workload running exactly if another one has yet to signal. */
  lemma TerminateShows(s: Service, i: nat, end: Finishing)
    requires Books(s) && Enabled(s, Terminate(i, end))
    ensures var t := TerminateStep(s, i, end);
            |t.shards| == |s.shards|
            && t.shards[i].stage == if TerminateReturns(s, i, end) then Ended else Closing
    ensures var t := TerminateStep(s, i, end);
            t.shards[i].stage.Ended? ==> (t.running <==> s.launched && !OthersSignalled(s.shards, i))
    ensures var t := TerminateStep(s, i, end);
            if s.launched then t.members == s.members && t.failed == s.failed
            else t.failed && t.members == s.members - {i}
  {
    var x := s.shards[i];
    assert !Detached(x);
    if s.launched {
      SignalsUpdate(s.shards, i, x.(stage := Closing, signalled := true));
      LastSignalCounts(s, i);
    }
  }

  /** A finish that returned lets go of everything retired: the buffers of every destroyed shard, and nothing else. */
  ghost predicate LetsGo(s: Service, t: Service, i: nat) {
    && |t.shards| == |s.shards| && !t.running && !t.launched && !t.workload
    && forall j | 0 <= j < |s.shards| && j != i ::
         t.shards[j] == if s.shards[j].stage.Gone? then s.shards[j].(buffers := Freed) else s.shards[j]
  }

  /** A termination that does not finish leaves the workload and every other shard as they were. */
  ghost predicate LeavesRunning(s: Service, t: Service, i: nat) {
    && |t.shards| == |s.shards| && t.running == s.running && t.launched == s.launched && t.workload == s.workload
    && forall j | 0 <= j < |s.shards| && j != i :: t.shards[j] == s.shards[j]
  }

  lemma FinishShows(s: Service, i: nat, end: Finishing)
    requires Books(s) && Enabled(s, Terminate(i, end))
    ensures var t := TerminateStep(s, i, end);
            if FinishReturns(s, i, end) then t.finishes == s.finishes + 1 && LetsGo(s, t, i)
            else t.finishes == s.finishes && LeavesRunning(s, t, i)
  {
    var x := s.shards[i];
    assert !Detached(x);
    if s.launched {
      SignalsUpdate(s.shards, i, x.(stage := Closing, signalled := true));
      LastSignalCounts(s, i);
    }
    if FinishReturns(s, i, end) {
      var t := TerminateStep(s, i, end);
      forall j | 0 <= j < |s.shards| && j != i
        ensures t.shards[j] == if s.shards[j].stage.Gone? then s.shards[j].(buffers := Freed) else s.shards[j] {
        assert Filed(s.shards[j]);
      }
    }
  }

  /** Giving up a shard's buffers neither starts nor ends the workload; the service keeps them while it has one. */
  lemma ReleaseShows(s: Service, i: nat)
    requires Books(s) && Enabled(s, Release(i, true))
    ensures var t := ReleaseStep(s, i, true);
            |t.shards| == |s.shards| && t.shards[i].stage.Gone? && t.running == s.running && t.launched == s.launched
    ensures var t := ReleaseStep(s, i, true);
            t.shards[i].buffers == if s.workload && t.alive then Retired else Freed
    ensures s.running <==> s.launched
  {
    assert !Detached(s.shards[i]);
  }

  // ----- the object -----

  class MuxService {
    const count: nat
    var shards: seq<Shard>       // each shard's record, in the order of joining
    var members: set<nat>        // servers
    var workload: bool           // workload != nullptr
    var prepared: bool
    var failed: bool             // preparation_failed
    var launched: bool
    var terminated: nat          // terminated_servers
    ghost var running: bool      // the device may be executing the workload
    ghost var finishes: nat
    var alive: bool              // some shared_ptr still points here
    ghost var orderly: bool      // no shard has been destroyed too early

    ghost function View(): Service
      reads this
    {
      Service(count, shards, members, workload, prepared, failed, launched, terminated, running, finishes, alive)
    }

    ghost predicate Valid()
      reads this
    {
      Books(View()) && (orderly ==> Inv(View()))
    }

    /** The host's part of the state. */
    function Fields(): Service
      reads this
    {
      Service(count, shards, members, workload, prepared, failed, launched, terminated, false, 0, alive)
    }

    predicate CanTake(a: Action)
      reads this
      ensures CanTake(a) <==> Enabled(View(), a)
    {
      Enabled(Fields(), a)
    }

    predicate LaunchesForAll()
      reads this
      ensures LaunchesForAll() <==> CommonLaunch(View())
    {
      CommonLaunch(Fields())
    }

    /** One step was taken, whether or not it was too early. */
    twostate predicate Took(a: Action)
      reads this
    {
      Enabled(old(View()), a) && View() == Do(old(View()), a) && (orderly <==> old(orderly) && Orderly(old(View()), a))
    }

    twostate lemma TookKeeps(a: Action)
      requires old(Valid()) && Took(a)
      ensures Valid()
    {
      BooksStep(old(View()), a);
      if orderly {
        StepKeepsInv(old(View()), a);
      }
    }

    constructor (count: nat)
      requires count > 0
      ensures Valid() && View() == Fresh(count) && orderly
    {
      this.count := count;
      shards, members := [], {};
      workload, prepared, failed, launched := false, false, false, false;
      terminated, running, finishes, alive, orderly := 0, false, 0, true, true;
      new;
      FreshBooks(count);
    }

    predicate Referenced()
      reads this
    {
      SharedWorkload.Referenced(shards)
    }

    /** The last reference may have gone. */
    method DropIfLast()
      modifies this`shards, this`workload, this`alive
      ensures View() == DropIfUnreferenced(old(View()))
    {
      if !Referenced() {
        workload := false;
        shards := FreeRetired(shards);
        alive := false;
      }
    }

    /** `prepare_server_kernel`: refused once the set is complete or spoilt. */
    method Join(builds: bool) returns (joined: bool, index: nat)
      requires Valid() && alive
      modifies this
      ensures Valid() && index == |old(shards)|
      ensures joined <==> builds && Enabled(old(View()), SharedWorkload.Join(builds))
      ensures if Enabled(old(View()), SharedWorkload.Join(builds)) then Took(SharedWorkload.Join(builds))
              else View() == old(View()) && orderly == old(orderly)
    {
      index := |shards|;
      if failed || prepared || launched {
        return false, index;
      }
      if builds {
        Enlist();
      } else {
        failed := true;
        shards := shards + [Shard(Gone, false, Freed)];
        DropIfLast();
      }
      TookKeeps(SharedWorkload.Join(builds));
      return builds, index;
    }

    /** The shard's kernels are part of the program; with the last shard's it is compiled. */
    method Enlist()
      modifies this`shards, this`members, this`workload, this`prepared
      ensures View() == JoinStep(old(View()), true)
    {
      members := members + {|shards|};
      shards := shards + [Shard(Prepared, false, Owned)];
      if |members| >= count {
        workload := true;
        prepared := true;
      }
    }

    /** `launch_server_kernel`. */
    method LaunchServerKernel(i: nat, how: Enqueue) returns (ok: bool)
      requires Valid() && Enabled(View(), Launch(i, how))
      modifies this
      ensures Valid() && Took(Launch(i, how))
      ensures ok <==> shards[i].stage.Running?
      ensures ok <==> LaunchReturns(old(View()), how)
      ensures running <==> old(running) || (old(CommonLaunch(View())) && Reaches(how))
    {
      LaunchShows(View(), i, how);
      ok := true;
      if !prepared {
        shards := shards[i := shards[i].(stage := Running)];
      } else if failed || |members| != count {
        ok := false;
      } else if launched {
        shards := shards[i := shards[i].(stage := Running)];
      } else if !workload {
        ok := false;
      } else {
        ok := Enqueue(i, how);
      }
      TookKeeps(Launch(i, how));
    }

    /** The launch for everybody; if its outcome is unknown, every shard on the server list is quarantined. */
    method Enqueue(i: nat, how: SharedWorkload.Enqueue) returns (ok: bool)
      requires i < |shards| && CommonLaunch(View())
      modifies this`shards, this`launched, this`running
      ensures ok <==> how.Sent?
      ensures View() == LaunchStep(old(View()), i, how)
    {
      match how {
        case Sent =>
          launched, running := true, true;
          shards := shards[i := shards[i].(stage := Running)];
        case ThrowsAfterEnqueue =>
          launched, running := true, true;
          shards := HoldAll(shards);
        case LostInEnqueue(reached) =>
          running := reached;
          shards := HoldAll(shards);
      }
      return how.Sent?;
    }

    /** `terminate_server_kernel`: the last signal also waits for the device, and then lets the retired buffers go. */
    method TerminateServerKernel(i: nat, end: Finishing) returns (ok: bool)
      requires Valid() && Enabled(View(), Terminate(i, end))
      modifies this
      ensures Valid() && Took(Terminate(i, end))
      ensures ok <==> shards[i].stage.Ended?
      ensures ok <==> TerminateReturns(old(View()), i, end)
      ensures if FinishReturns(old(View()), i, end) then finishes == old(finishes) + 1 && LetsGo(old(View()), View(), i)
              else finishes == old(finishes) && LeavesRunning(old(View()), View(), i)
    {
      TerminateShows(View(), i, end);
      FinishShows(View(), i, end);
      if !launched {
        failed := true;
        members := members - {i};
        shards := shards[i := shards[i].(stage := Ended)];
        ok := true;
      } else if !shards[i].signalled && end.SignalFails? {
        shards := shards[i := shards[i].(stage := Closing)];
        ok := false;
      } else {
        assert Filed(shards[i]);
        ok := SignalAndFinish(i, end);
      }
      TookKeeps(Terminate(i, end));
    }

    /** The signal has been written; if it was the last one, the device is waited for. */
    method SignalAndFinish(i: nat, end: Finishing) returns (ok: bool)
      requires i < |shards| && launched && (shards[i].signalled || !end.SignalFails?) && shards[i].buffers.Owned?
      modifies this
      ensures View() == TerminateStep(old(View()), i, end) && orderly == old(orderly)
      ensures |shards| == |old(shards)| && (ok <==> shards[i].stage.Ended?)
    {
      CountSignal(i);
      assert shards[i] == old(shards[i]).(stage := Closing, signalled := true);
      ok := true;
      if terminated == count && workload {
        ok := FinishAll(end);
      }
      if ok {
        shards := shards[i := shards[i].(stage := Ended)];
      }
    }

    /** The shard's kernels have been told to stop; it is counted the first time. */
    method CountSignal(i: nat)
      requires i < |shards|
      modifies this`shards, this`terminated
      ensures terminated == old(terminated) + (if old(shards[i].signalled) then 0 else 1)
      ensures shards == old(shards[i := shards[i].(stage := Closing, signalled := true)])
    {
      if !shards[i].signalled {
        terminated := terminated + 1;
      }
      shards := shards[i := shards[i].(stage := Closing, signalled := true)];
    }

    /** Waiting for the device, and releasing what was kept for it. */
    method FinishAll(end: Finishing) returns (ok: bool)
      modifies this`workload, this`shards, this`launched, this`running, this`finishes
      ensures ok <==> end.Finishes?
      ensures View() == if end.Finishes? || end.ThrowsAfterFinish? then Finished(old(View())) else old(View())
    {
      if end.Finishes? || end.ThrowsAfterFinish? {
        running, finishes := false, finishes + 1;
        workload := false;
        shards := FreeRetired(shards);
        launched := false;
      }
      ok := end.Finishes?;
    }

    /** The destructor of a prepared or terminated shard: its buffers are retired while there is a workload. */
    method LetGo(i: nat)
      requires Valid() && Enabled(View(), Release(i, true))
      modifies this
      ensures Valid() && Took(Release(i, true))
    {
      orderly := orderly && Orderly(View(), Release(i, true));
      shards := shards[i := shards[i].(stage := Gone, buffers := if workload then Retired else Freed)];
      assert View() == At(old(View()), i, shards[i]);
      DropIfLast();
      TookKeeps(Release(i, true));
    }

    /** A shard that cannot be released is kept for good, and keeps the service. */
    method Hold(i: nat)
      requires Valid() && Enabled(View(), Holding(i))
      modifies this
      ensures Valid() && Took(old(Holding(i)))
    {
      orderly := orderly && Orderly(View(), Holding(i));
      shards := shards[i := shards[i].(stage := Held, buffers := Kept)];
      assert View() == At(old(View()), i, shards[i]);
      TookKeeps(old(Holding(i)));
    }

    /** The step that quarantines shard `i`. */
    ghost function Holding(i: nat): Action
      reads this
    {
      if i < |shards| && (shards[i].stage.Prepared? || shards[i].stage.Ended?) then Release(i, false) else Quarantine(i)
    }

    /** Whatever another shard does. */
    method Act(a: Action)
      requires Valid() && Enabled(View(), a)
      modifies this
      ensures Valid() && Took(a)
    {
      match a
      case Join(builds) =>
        var joined, index := Join(builds);
      case Launch(i, how) =>
        var ok := LaunchServerKernel(i, how);
      case Terminate(i, end) =>
        var ok := TerminateServerKernel(i, end);
      case Release(i, clean) =>
        if clean { LetGo(i); } else { Hold(i); }
      case Quarantine(i) =>
        Hold(i);
    }
  }
}
