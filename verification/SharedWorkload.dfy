/**
  The workload that all shards of one endpoint share: compiled by the last shard to join, enqueued once for all of
  them, and finished by the last one to terminate. Each step runs under the service's mutex.
*/
module SharedWorkload {
  import opened Words

  /** A shard's lifecycle; `Ended` has terminated, `Gone` is destroyed, `Held` is quarantined. */
  datatype Stage = Prepared | Running | Closing | Ended | Gone | Held

  /** Who keeps the shard's device buffers: itself, the service, the quarantine list, or nobody. */
  datatype Buffers = Owned | Retired | Kept | Freed

  datatype Shard = Shard(stage: Stage, signalled: bool, buffers: Buffers)

  /**
    `members` is the server list; `running` says that the device may be executing the workload, and `finishes`
    counts the completed `Finish` calls. `alive` ends when the last shard drops its reference.
  */
  datatype Service = Service(
    count: nat, shards: seq<Shard>, members: set<nat>, workload: bool, prepared: bool, failed: bool, launched: bool,
    terminated: nat, running: bool, finishes: nat, alive: bool)

  datatype Enqueue = LostInEnqueue(reached: bool) | ThrowsAfterEnqueue | Sent

  datatype Finishing = SignalFails | FinishFails | ThrowsAfterFinish | Finishes

  datatype Action =
    | Join(builds: bool)
    | Launch(i: nat, how: Enqueue)
    | Terminate(i: nat, end: Finishing)
    | Release(i: nat, clean: bool)
    | Quarantine(i: nat)

  function Fresh(count: nat): Service {
    Service(count, [], {}, false, false, false, false, 0, false, 0, true)
  }

  predicate HoldsService(x: Shard) {
    !x.stage.Gone?
  }

  /** Some shard still references the service. */
  predicate Referenced(shards: seq<Shard>) {
    exists i :: 0 <= i < |shards| && HoldsService(shards[i])
  }

  function FreeRetired(shards: seq<Shard>): (r: seq<Shard>)
    ensures |r| == |shards|
    ensures forall i | 0 <= i < |r| :: r[i] == if shards[i].buffers.Retired? then shards[i].(buffers := Freed)
              else shards[i]
  {
    if shards == [] then []
    else [if shards[0].buffers.Retired? then shards[0].(buffers := Freed) else shards[0]] + FreeRetired(shards[1..])
  }

  /** Every shard on the server list is quarantined at once. */
  function HoldAll(shards: seq<Shard>): (r: seq<Shard>)
    ensures |r| == |shards|
    ensures forall i | 0 <= i < |r| :: r[i] == if shards[i].stage.Gone? then shards[i]
              else shards[i].(stage := Held, buffers := Kept)
  {
    if shards == [] then []
    else
      [if shards[0].stage.Gone? then shards[0] else shards[0].(stage := Held, buffers := Kept)] + HoldAll(shards[1..])
  }

  /** Dropping the last reference destroys the workload and everything retired into the service. */
  function DropIfUnreferenced(s: Service): Service {
    if Referenced(s.shards) then s else s.(workload := false, shards := FreeRetired(s.shards), alive := false)
  }

  predicate Enabled(s: Service, a: Action) {
    s.alive &&
    match a
    case Join(_) => !s.failed && !s.prepared && !s.launched
    case Launch(i, _) => i < |s.shards| && s.shards[i].stage.Prepared?
    case Terminate(i, _) => i < |s.shards| && (s.shards[i].stage.Running? || s.shards[i].stage.Closing?)
    case Release(i, _) => i < |s.shards| && (s.shards[i].stage.Prepared? || s.shards[i].stage.Ended?)
    case Quarantine(i) => i < |s.shards| && (s.shards[i].stage.Running? || s.shards[i].stage.Closing?)
  }

  /**
    A shard adds its kernels to the common program, and the last one compiles it. If that fails, the shard is not on
    the server list and the program cannot be launched any more.
  */
  function JoinStep(s: Service, builds: bool): Service {
    var i := |s.shards|;
    var joined := s.(shards := s.shards + [Shard(Prepared, false, Owned)], members := s.members + {i});
    if !builds then DropIfUnreferenced(s.(shards := s.shards + [Shard(Gone, false, Freed)], failed := true))
    else if |joined.members| < s.count then joined
    else joined.(workload := true, prepared := true)
  }

  /** The next launch is the one that enqueues the workload for every shard on the server list. */
  predicate CommonLaunch(s: Service) {
    s.prepared && !s.failed && |s.members| == s.count && !s.launched && s.workload
  }

  /** A launch before the set is complete, or after the common one, only starts the shard's host side. */
  function LaunchStep(s: Service, i: nat, how: Enqueue): Service
    requires i < |s.shards|
  {
    var up := s.(shards := s.shards[i := s.shards[i].(stage := Running)]);
    if !s.prepared then up
    else if s.failed || |s.members| != s.count then s
    else if s.launched then up
    else if !s.workload then s
    else match how
      case Sent => up.(launched := true, running := true)
      case ThrowsAfterEnqueue => s.(launched := true, running := true, shards := HoldAll(s.shards))
      case LostInEnqueue(reached) => s.(running := reached, shards := HoldAll(s.shards))
  }

  /** `Finish` returned: the workload and the retired buffers go. */
  function Finished(s: Service): Service {
    s.(workload := false, shards := FreeRetired(s.shards), launched := false, running := false,
        finishes := s.finishes + 1)
  }

  function At(s: Service, i: nat, x: Shard): Service
    requires i < |s.shards|
  {
    s.(shards := s.shards[i := x])
  }

  function TerminateStep(s: Service, i: nat, end: Finishing): Service
    requires i < |s.shards|
  {
    var x := s.shards[i];
    if !s.launched then At(s, i, x.(stage := Ended)).(failed := true, members := s.members - {i})
    else if !x.signalled && end.SignalFails? then At(s, i, x.(stage := Closing))
    else
      var told := At(s, i, x.(stage := Closing, signalled := true));
      var t := if x.signalled then told else told.(terminated := s.terminated + 1);
      if t.terminated == t.count && t.workload then
        match end
        case Finishes => At(Finished(t), i, x.(stage := Ended, signalled := true))
        case ThrowsAfterFinish => Finished(t)
        case _ => t
      else At(t, i, x.(stage := Ended, signalled := true))
  }

  /** The destructor of a prepared or terminated shard; a failed lease check quarantines it instead. */
  function ReleaseStep(s: Service, i: nat, clean: bool): Service
    requires i < |s.shards|
  {
    var x := s.shards[i];
    if !clean then At(s, i, x.(stage := Held, buffers := Kept))
    else DropIfUnreferenced(At(s, i, x.(stage := Gone, buffers := if s.workload then Retired else Freed)))
  }

  function Do(s: Service, a: Action): Service
    requires Enabled(s, a)
  {
    match a
    case Join(builds) => JoinStep(s, builds)
    case Launch(i, how) => LaunchStep(s, i, how)
    case Terminate(i, end) => TerminateStep(s, i, end)
    case Release(i, clean) => ReleaseStep(s, i, clean)
    case Quarantine(i) => At(s, i, s.shards[i].(stage := Held, buffers := Kept))
  }

  // ----- what must never happen -----

  /** While the device may be running the workload, the workload and every shard's buffers are kept. */
  ghost predicate Safe(s: Service) {
    s.running ==> s.alive && s.workload && forall i | 0 <= i < |s.shards| :: !s.shards[i].buffers.Freed?
  }

  /** The common launch writes to every shard on the server list, so none of them may have been destroyed. */
  ghost predicate TouchesDestroyed(s: Service, a: Action) {
    a.Launch? && CommonLaunch(s)
    && exists i :: 0 <= i < |s.shards| && i in s.members && (s.shards[i].stage.Gone? || s.shards[i].stage.Held?)
  }

  /** No other shard still holds the service. */
  ghost predicate Alone(s: Service, i: nat) {
    forall j | 0 <= j < |s.shards| && j != i :: s.shards[j].stage.Gone?
  }

  /** Some shard can still make the common launch: the set is incomplete, or another shard has yet to launch. */
  ghost predicate CanStillLaunch(s: Service, i: nat) {
    !s.prepared || exists k :: 0 <= k < |s.shards| && k != i && s.shards[k].stage.Prepared?
  }

  /** No shard is quarantined, so nothing keeps the service once the others have closed. */
  ghost predicate NobodyHeld(s: Service) {
    forall j | 0 <= j < |s.shards| :: !s.shards[j].stage.Held?
  }

  /**
    Destroying a shard too early, which the destructors do not check. Before the common launch it is too early if
    somebody can still launch, unless the service goes with the shard; while the launched workload runs, a shard
    that has not launched itself is destroyed too early if nobody is quarantined.
  */
  ghost predicate TooEarly(s: Service, a: Action)
    requires Enabled(s, a)
  {
    !s.failed && s.finishes == 0 &&
    match a
    case Release(i, clean) =>
      if s.launched then clean && s.shards[i].stage.Prepared? && NobodyHeld(s)
      else !(clean && Alone(s, i)) && CanStillLaunch(s, i)
    case Quarantine(i) => !s.launched && CanStillLaunch(s, i)
    case _ => false
  }

  ghost predicate Orderly(s: Service, a: Action)
    requires Enabled(s, a)
  {
    !TooEarly(s, a)
  }

  // ----- counting signals -----

  function Signals(shards: seq<Shard>): nat {
    if shards == [] then 0 else (if shards[0].signalled then 1 else 0) + Signals(shards[1..])
  }

  lemma {:induction false} SignalsUpdate(shards: seq<Shard>, i: nat, x: Shard)
    requires i < |shards|
    ensures Signals(shards[i := x]) == Signals(shards) - (if shards[i].signalled then 1 else 0)
              + (if x.signalled then 1 else 0)
  {
    if i > 0 {
      SignalsUpdate(shards[1..], i - 1, x);
      assert shards[i := x][1..] == shards[1..][i - 1 := x];
    }
  }

  lemma {:induction false} SignalsAppend(shards: seq<Shard>, x: Shard)
    ensures Signals(shards + [x]) == Signals(shards) + (if x.signalled then 1 else 0)
  {
    if shards != [] {
      SignalsAppend(shards[1..], x);
      assert (shards + [x])[1..] == shards[1..] + [x];
    }
  }

  lemma {:induction false} SameSignals(a: seq<Shard>, b: seq<Shard>)
    requires |a| == |b| && forall i | 0 <= i < |a| :: a[i].signalled == b[i].signalled
    ensures Signals(a) == Signals(b)
  {
    if a != [] { SameSignals(a[1..], b[1..]); }
  }

  /** The count is full exactly when every shard has signalled. */
  lemma {:induction false} SignalsFull(shards: seq<Shard>)
    ensures Signals(shards) <= |shards|
    ensures Signals(shards) == |shards| <==> forall i | 0 <= i < |shards| :: shards[i].signalled
  {
    if shards != [] {
      SignalsFull(shards[1..]);
      if forall i | 0 <= i < |shards| :: shards[i].signalled {
        forall i | 0 <= i < |shards[1..]| ensures shards[1..][i].signalled { assert shards[i + 1].signalled; }
      }
      if Signals(shards) == |shards| {
        forall i | 0 <= i < |shards| ensures shards[i].signalled { if i > 0 { assert shards[1..][i - 1].signalled; } }
      }
    }
  }

  // ----- the invariant of orderly runs -----

  /** Before the common launch nobody has been destroyed, and nobody has signalled. */
  ghost predicate Gathering(s: Service) {
    && s.members == Range(|s.shards|) && !s.launched && !s.running && s.finishes == 0
    && (s.prepared <==> s.workload) && (if s.prepared then |s.shards| == s.count else |s.shards| < s.count)
    && forall i | 0 <= i < |s.shards| ::
         (s.shards[i].stage.Prepared? || s.shards[i].stage.Running?) && !s.shards[i].signalled
             && s.shards[i].buffers.Owned?
  }

  /**
    A shard of a running workload: whoever is still using it keeps its buffers. A shard that is gone has signalled,
    unless a quarantined one keeps the service for good.
  */
  predicate Retained(x: Shard, held: bool) {
    match x.stage
    case Gone => (x.signalled || held) && x.buffers.Retired?
    case Held => x.buffers.Kept?
    case Ended => x.signalled && x.buffers.Owned?
    case Closing => x.buffers.Owned?
    case _ => !x.signalled && x.buffers.Owned?
  }

  predicate SomeHeld(shards: seq<Shard>) {
    exists i :: 0 <= i < |shards| && shards[i].stage.Held?
  }

  predicate Lingers(x: Shard) {
    x.stage.Closing? || x.stage.Held?
  }

  /** The workload may be running: everything is retained, and the last shard to signal is still there. */
  ghost predicate Executing(s: Service) {
    && s.running && s.workload && s.prepared && !s.failed && s.finishes == 0 && |s.shards| == s.count
    && s.members == Range(|s.shards|)
    && (forall i | 0 <= i < |s.shards| :: Retained(s.shards[i], SomeHeld(s.shards)))
    && (s.terminated == s.count || !s.launched ==> exists i :: 0 <= i < |s.shards| && Lingers(s.shards[i]))
    && (!s.launched ==> forall i | 0 <= i < |s.shards| :: s.shards[i].stage.Held?)
  }

  /** Nothing is running and nothing can be enqueued any more. */
  ghost predicate Spent(s: Service) {
    && !s.launched && !s.running && s.finishes <= 1
    && (s.failed || !s.alive || (s.prepared && forall i | 0 <= i < |s.shards| :: !s.shards[i].stage.Prepared?))
  }

  ghost predicate Inv(s: Service) {
    s.count > 0 && s.terminated == Signals(s.shards)
    && ((s.alive && !s.failed && Gathering(s)) || (s.alive && Executing(s)) || Spent(s))
  }

  lemma ExecutingIsReferenced(s: Service)
    requires Executing(s) && s.count > 0 && s.terminated == Signals(s.shards)
    ensures Referenced(s.shards)
  {
    SignalsFull(s.shards);
    if SomeHeld(s.shards) {
      var i :| 0 <= i < |s.shards| && s.shards[i].stage.Held?;
      assert HoldsService(s.shards[i]);
    } else if s.terminated == s.count || !s.launched {
      var i :| 0 <= i < |s.shards| && Lingers(s.shards[i]);
      assert HoldsService(s.shards[i]);
    } else {
      var i :| 0 <= i < |s.shards| && !s.shards[i].signalled;
      assert Retained(s.shards[i], false) && HoldsService(s.shards[i]);
    }
  }

  lemma InvIsSafe(s: Service)
    requires Inv(s)
    ensures Safe(s) && s.finishes <= 1
  {
    if s.running {
      assert Executing(s);
      forall i | 0 <= i < |s.shards| ensures !s.shards[i].buffers.Freed? {
        assert Retained(s.shards[i], SomeHeld(s.shards));
      }
    }
  }

  lemma FreshIsInv(count: nat)
    requires count > 0
    ensures Inv(Fresh(count))
  {
    assert Fresh(count).members == Range(0);
  }

  lemma JoinKeeps(s: Service, builds: bool)
    requires Inv(s) && Enabled(s, Join(builds))
    ensures Inv(JoinStep(s, builds))
  {
    assert Gathering(s) || Spent(s);
    SignalsAppend(s.shards, Shard(Prepared, false, Owned));
    JoinedMembers(s);
    if !builds {
      BuildFails(s);
    } else if Gathering(s) {
      assert Gathering(JoinStep(s, builds));
    }
  }

  lemma JoinedMembers(s: Service)
    ensures s.members == Range(|s.shards|) ==> s.members + {|s.shards|} == Range(|s.shards| + 1)
    ensures |Range(|s.shards| + 1)| == |s.shards| + 1
  {
    RangeSize(|s.shards| + 1);
    if s.members == Range(|s.shards|) {
      assert s.members + {|s.shards|} == Range(|s.shards| + 1);
    }
  }

  /** A shard's preparation throws: nobody can launch any more. */
  lemma BuildFails(s: Service)
    requires Inv(s) && Enabled(s, Join(false))
    ensures Inv(JoinStep(s, false))
  {
    var gone := s.shards + [Shard(Gone, false, Freed)];
    SignalsAppend(s.shards, Shard(Gone, false, Freed));
    SameSignals(FreeRetired(gone), gone);
    assert !s.running && s.finishes <= 1;
  }

  lemma LaunchKeeps(s: Service, i: nat, how: Enqueue)
    requires Inv(s) && Enabled(s, Launch(i, how))
    ensures Inv(LaunchStep(s, i, how)) && !TouchesDestroyed(s, Launch(i, how))
  {
    RangeSize(|s.shards|);
    SignalsUpdate(s.shards, i, s.shards[i].(stage := Running));
    if s.alive && !s.failed && Gathering(s) {
      if s.prepared { EnqueueKeeps(s, i, how); } else { EarlyLaunchKeeps(s, i, how); }
    } else if Executing(s) {
      assert s.launched;
      ExecutingUpdate(s, i, s.shards[i].(stage := Running));
    } else {
      assert Spent(s);
    }
  }

  /** Replacing a shard that does not linger by one that is still retained. */
  lemma ExecutingUpdate(s: Service, i: nat, x: Shard)
    requires Executing(s) && i < |s.shards| && (Lingers(s.shards[i]) ==> Lingers(x))
    requires Retained(x, SomeHeld(s.shards) || x.stage.Held?) && (s.shards[i].stage.Held? ==> x.stage.Held?)
    ensures Executing(At(s, i, x))
  {
    var t := At(s, i, x);
    if SomeHeld(s.shards) {
      var k :| 0 <= k < |s.shards| && s.shards[k].stage.Held?;
      assert t.shards[k].stage.Held?;
    }
    assert x.stage.Held? ==> t.shards[i].stage.Held?;
    forall j | 0 <= j < |t.shards| ensures Retained(t.shards[j], SomeHeld(t.shards)) {
      assert Retained(s.shards[j], SomeHeld(s.shards));
    }
    if s.terminated == s.count || !s.launched {
      var k :| 0 <= k < |s.shards| && Lingers(s.shards[k]);
      assert Lingers(t.shards[k]);
    }
  }

  /** A launch before the set is complete only starts the shard's host side. */
  lemma EarlyLaunchKeeps(s: Service, i: nat, how: Enqueue)
    requires Inv(s) && Enabled(s, Launch(i, how)) && Gathering(s) && !s.failed && !s.prepared
    ensures Inv(LaunchStep(s, i, how))
  {
    SignalsUpdate(s.shards, i, s.shards[i].(stage := Running));
    assert Gathering(LaunchStep(s, i, how));
  }

  /** The enqueue itself: everybody is still there, and a failure quarantines everybody. */
  lemma EnqueueKeeps(s: Service, i: nat, how: Enqueue)
    requires s.count > 0 && s.terminated == Signals(s.shards) && s.alive && !s.failed && Gathering(s) && s.prepared
    requires i < |s.shards| && s.shards[i].stage.Prepared?
    ensures Inv(LaunchStep(s, i, how))
  {
    RangeSize(|s.shards|);
    var up := s.shards[i := s.shards[i].(stage := Running)];
    SignalsUpdate(s.shards, i, s.shards[i].(stage := Running));
    SignalsFull(up);
    assert !up[i].signalled;
    var held := HoldAll(s.shards);
    SameSignals(held, s.shards);
    assert Lingers(held[i]);
    forall j | 0 <= j < |held| ensures Retained(held[j], true) && held[j].stage.Held? {
      assert s.shards[j].stage.Prepared? || s.shards[j].stage.Running?;
    }
  }

  lemma TerminateKeeps(s: Service, i: nat, end: Finishing)
    requires Inv(s) && Enabled(s, Terminate(i, end))
    ensures Inv(TerminateStep(s, i, end))
  {
    var x := s.shards[i];
    SignalsUpdate(s.shards, i, x.(stage := Ended));
    if s.launched {
      TellKeeps(s, i, end);
    }
  }

  /** Signalling, and finishing with the last signal. */
  lemma TellKeeps(s: Service, i: nat, end: Finishing)
    requires Inv(s) && Enabled(s, Terminate(i, end)) && Executing(s) && s.launched
    ensures Inv(TerminateStep(s, i, end))
  {
    var x := s.shards[i];
    var told := s.shards[i := x.(stage := Closing, signalled := true)];
    SignalsUpdate(s.shards, i, told[i]);
    assert Retained(x, SomeHeld(s.shards));
    if !x.signalled && end.SignalFails? {
      SignalsUpdate(s.shards, i, x.(stage := Closing));
      ExecutingUpdate(s, i, x.(stage := Closing));
    } else if Signals(told) == s.count {
      FinishKeeps(s, i, told, end);
    } else {
      EndKeeps(s, i, told, end);
    }
  }

  /** A signal that is not the last one: the shard has ended, and others are still to signal. */
  lemma EndKeeps(s: Service, i: nat, told: seq<Shard>, end: Finishing)
    requires Inv(s) && Enabled(s, Terminate(i, end)) && Executing(s) && s.launched
    requires told == s.shards[i := s.shards[i].(stage := Closing, signalled := true)] && Signals(told) != s.count
    requires s.shards[i].signalled || !end.SignalFails?
    ensures Inv(TerminateStep(s, i, end))
  {
    var x := s.shards[i];
    var ended := x.(stage := Ended, signalled := true);
    SignalsUpdate(s.shards, i, told[i]);
    SignalsUpdate(s.shards, i, ended);
    var t := TerminateStep(s, i, end);
    assert t.shards == s.shards[i := ended];
    if SomeHeld(s.shards) {
      var k :| 0 <= k < |s.shards| && s.shards[k].stage.Held?;
      assert t.shards[k].stage.Held?;
    }
    forall j | 0 <= j < |t.shards| ensures Retained(t.shards[j], SomeHeld(t.shards)) {
      assert Retained(s.shards[j], SomeHeld(s.shards));
    }
    assert Executing(t);
  }

  /** After the last signal: a `Finish` that fails leaves its shard closing, one that returns spends the service. */
  lemma FinishKeeps(s: Service, i: nat, told: seq<Shard>, end: Finishing)
    requires Inv(s) && Enabled(s, Terminate(i, end)) && Executing(s) && s.launched
    requires told == s.shards[i := s.shards[i].(stage := Closing, signalled := true)] && Signals(told) == s.count
    requires s.shards[i].signalled || !end.SignalFails?
    ensures Inv(TerminateStep(s, i, end))
  {
    var x := s.shards[i];
    SignalsUpdate(s.shards, i, x.(stage := Closing, signalled := true));
    SignalsFull(told);
    var freed := FreeRetired(told);
    SameSignals(freed, told);
    SignalsUpdate(freed, i, x.(stage := Ended, signalled := true));
    forall j | 0 <= j < |told| ensures !told[j].stage.Prepared? {
      assert Retained(s.shards[j], SomeHeld(s.shards)) && told[j].signalled;
    }
    ExecutingUpdate(s, i, x.(stage := Closing, signalled := true));
    assert Lingers(told[i]);
  }

  lemma ReleaseKeeps(s: Service, i: nat, clean: bool)
    requires Inv(s) && Enabled(s, Release(i, clean)) && Orderly(s, Release(i, clean))
    ensures Inv(ReleaseStep(s, i, clean))
  {
    var x := s.shards[i];
    var gone := s.shards[i := x.(stage := Gone, buffers := if s.workload then Retired else Freed)];
    SignalsUpdate(s.shards, i, x.(stage := Held, buffers := Kept));
    SignalsUpdate(s.shards, i, gone[i]);
    SameSignals(FreeRetired(gone), gone);
    if Executing(s) {
      ExecutingLoses(s, i, clean);
    } else if Gathering(s) && !s.failed && s.alive {
      GatheringLoses(s, i, clean);
    }
  }

  /** A shard destroyed while the workload runs: it has signalled, or a quarantined shard keeps the service. */
  lemma ExecutingLoses(s: Service, i: nat, clean: bool)
    requires Inv(s) && Executing(s) && Enabled(s, Release(i, clean)) && Orderly(s, Release(i, clean))
    ensures Executing(ReleaseStep(s, i, clean)) && ReleaseStep(s, i, clean).alive
  {
    var x := s.shards[i];
    assert Retained(x, SomeHeld(s.shards));
    if clean {
      var gone := x.(stage := Gone, buffers := Retired);
      SignalsUpdate(s.shards, i, gone);
      ExecutingUpdate(s, i, gone);
      ExecutingIsReferenced(At(s, i, gone));
    } else {
      ExecutingUpdate(s, i, x.(stage := Held, buffers := Kept));
    }
  }

  /** A shard destroyed before the common launch, when it goes with the service or nobody is left to launch. */
  lemma GatheringLoses(s: Service, i: nat, clean: bool)
    requires Inv(s) && Gathering(s) && !s.failed && Enabled(s, Release(i, clean)) && Orderly(s, Release(i, clean))
    ensures Spent(ReleaseStep(s, i, clean))
  {
    var t := ReleaseStep(s, i, clean);
    if clean && Alone(s, i) {
      var gone := s.shards[i := s.shards[i].(stage := Gone, buffers := if s.workload then Retired else Freed)];
      forall j | 0 <= j < |gone| ensures !HoldsService(gone[j]) { }
    } else {
      forall j | 0 <= j < |t.shards| ensures !t.shards[j].stage.Prepared? { }
    }
  }

  lemma QuarantineKeeps(s: Service, i: nat)
    requires Inv(s) && Enabled(s, Quarantine(i)) && Orderly(s, Quarantine(i))
    ensures Inv(Do(s, Quarantine(i)))
  {
    var x := s.shards[i].(stage := Held, buffers := Kept);
    SignalsUpdate(s.shards, i, x);
    if Executing(s) {
      ExecutingUpdate(s, i, x);
    }
  }

  lemma StepKeepsInv(s: Service, a: Action)
    requires Inv(s) && Enabled(s, a) && Orderly(s, a)
    ensures Inv(Do(s, a)) && !TouchesDestroyed(s, a)
  {
    match a
    case Join(builds) => JoinKeeps(s, builds);
    case Launch(i, how) => LaunchKeeps(s, i, how);
    case Terminate(i, end) => TerminateKeeps(s, i, end);
    case Release(i, clean) => ReleaseKeeps(s, i, clean);
    case Quarantine(i) => QuarantineKeeps(s, i);
  }

  // ----- runs -----

  ghost predicate Runs(s: Service, acts: seq<Action>)
    decreases |acts|
  {
    acts == [] || (Enabled(s, acts[0]) && Runs(Do(s, acts[0]), acts[1..]))
  }

  ghost function After(s: Service, acts: seq<Action>): Service
    requires Runs(s, acts)
    decreases |acts|
  {
    if acts == [] then s else After(Do(s, acts[0]), acts[1..])
  }

  ghost predicate AllOrderly(s: Service, acts: seq<Action>)
    requires Runs(s, acts)
    decreases |acts|
  {
    acts == [] || (Orderly(s, acts[0]) && AllOrderly(Do(s, acts[0]), acts[1..]))
  }

  ghost predicate NoneTouched(s: Service, acts: seq<Action>)
    requires Runs(s, acts)
    decreases |acts|
  {
    acts == [] || (!TouchesDestroyed(s, acts[0]) && NoneTouched(Do(s, acts[0]), acts[1..]))
  }

  lemma {:induction false} OrderlyRunKeepsInv(s: Service, acts: seq<Action>)
    requires Inv(s) && Runs(s, acts) && AllOrderly(s, acts)
    ensures Inv(After(s, acts)) && NoneTouched(s, acts)
    decreases |acts|
  {
    if acts != [] {
      StepKeepsInv(s, acts[0]);
      OrderlyRunKeepsInv(Do(s, acts[0]), acts[1..]);
    }
  }

  /**
    Over every orderly run, whatever fails and however often termination is retried: the workload finishes at most
    once, each shard is counted once, and until then the workload and every shard's buffers are kept.
  */
  lemma OrderlyRunsAreSafe(count: nat, acts: seq<Action>)
    requires count > 0 && Runs(Fresh(count), acts) && AllOrderly(Fresh(count), acts)
    ensures var t := After(Fresh(count), acts);
            Safe(t) && t.finishes <= 1 && t.terminated == Signals(t.shards) && t.terminated <= |t.shards|
    ensures NoneTouched(Fresh(count), acts)
  {
    FreshIsInv(count);
    OrderlyRunKeepsInv(Fresh(count), acts);
    InvIsSafe(After(Fresh(count), acts));
    SignalsFull(After(Fresh(count), acts).shards);
  }
}
