/**
  Shards destroyed too early. A shard that is destroyed or quarantined while another can still make the common launch
  is written to after it is gone; one destroyed unlaunched while the workload runs is never counted as terminated.
*/
module AbandonedShards {
  import opened Words
  import opened SharedWorkload

  // ----- a shard that never signals -----

  /** The launched workload waits for shard `i`, which was quarantined or destroyed without signalling. */
  ghost predicate Stuck(s: Service, i: nat) {
    && s.launched && s.running && s.prepared && s.terminated == Signals(s.shards)
    && i < |s.shards| == s.count && !s.shards[i].signalled && (s.shards[i].stage.Held? || s.shards[i].stage.Gone?)
  }

  /** The service's own bookkeeping: it lives, and keeps everything, exactly while somebody references it. */
  ghost predicate Keeps(s: Service) {
    && (s.alive <==> Referenced(s.shards))
    && (if s.alive then s.workload && forall i | 0 <= i < |s.shards| :: !s.shards[i].buffers.Freed? else !s.workload)
  }

  lemma DropKeeps(s: Service)
    requires s.alive && s.workload && forall i | 0 <= i < |s.shards| :: !s.shards[i].buffers.Freed?
    ensures Keeps(DropIfUnreferenced(s)) && Signals(DropIfUnreferenced(s).shards) == Signals(s.shards)
  {
    var freed := FreeRetired(s.shards);
    SameSignals(freed, s.shards);
    if !Referenced(s.shards) {
      forall i | 0 <= i < |freed| ensures !HoldsService(freed[i]) {
        assert !HoldsService(s.shards[i]);
      }
    }
  }

  lemma ReferenceMoves(shards: seq<Shard>, j: nat, x: Shard)
    requires Referenced(shards) && j < |shards| && HoldsService(x)
    ensures Referenced(shards[j := x])
  {
    assert HoldsService(shards[j := x][j]);
  }

  /** No step at all, orderly or not, finishes a stuck workload. */
  lemma StuckStep(s: Service, a: Action, i: nat)
    requires Stuck(s, i) && Keeps(s) && Enabled(s, a)
    ensures Stuck(Do(s, a), i) && Keeps(Do(s, a)) && Do(s, a).finishes == s.finishes
    ensures s.shards[i].stage.Held? ==> Do(s, a).shards[i].stage.Held?
  {
    match a
    case Launch(j, _) =>
      SignalsUpdate(s.shards, j, s.shards[j].(stage := Running));
      ReferenceMoves(s.shards, j, s.shards[j].(stage := Running));
    case Terminate(j, end) => StuckTerminate(s, j, end, i);
    case Release(j, clean) => StuckRelease(s, j, clean, i);
    case Quarantine(j) =>
      SignalsUpdate(s.shards, j, s.shards[j].(stage := Held, buffers := Kept));
      ReferenceMoves(s.shards, j, s.shards[j].(stage := Held, buffers := Kept));
    case Join(_) =>
  }

  lemma StuckRelease(s: Service, j: nat, clean: bool, i: nat)
    requires Stuck(s, i) && Keeps(s) && Enabled(s, Release(j, clean))
    ensures var t := ReleaseStep(s, j, clean);
            Stuck(t, i) && Keeps(t) && t.finishes == s.finishes && (s.shards[i].stage.Held? ==> t.shards[i].stage.Held?)
  {
    var gone := s.shards[j].(stage := Gone, buffers := Retired);
    var held := s.shards[j].(stage := Held, buffers := Kept);
    SignalsUpdate(s.shards, j, gone);
    SignalsUpdate(s.shards, j, held);
    ReferenceMoves(s.shards, j, held);
    DropKeeps(At(s, j, gone));
  }

  lemma StuckTerminate(s: Service, j: nat, end: Finishing, i: nat)
    requires Stuck(s, i) && Keeps(s) && Enabled(s, Terminate(j, end))
    ensures var t := TerminateStep(s, j, end);
            Stuck(t, i) && Keeps(t) && t.finishes == s.finishes && t.shards[i] == s.shards[i]
  {
    var x := s.shards[j];
    var closing, told, ended :=
      x.(stage := Closing), x.(stage := Closing, signalled := true), x.(stage := Ended, signalled := true);
    SignalsUpdate(s.shards, j, closing);
    SignalsUpdate(s.shards, j, told);
    SignalsUpdate(s.shards, j, ended);
    SignalsFull(s.shards[j := told]);
    assert !s.shards[j := told][i].signalled;
    assert s.shards[j := told][j := ended] == s.shards[j := ended];
    ReferenceMoves(s.shards, j, closing);
    ReferenceMoves(s.shards, j, told);
    ReferenceMoves(s.shards, j, ended);
  }

  lemma {:induction false} StuckRuns(s: Service, acts: seq<Action>, i: nat)
    requires Stuck(s, i) && Keeps(s) && Runs(s, acts)
    ensures var t := After(s, acts);
            Stuck(t, i) && Keeps(t) && t.finishes == s.finishes && (s.shards[i].stage.Held? ==> t.shards[i].stage.Held?)
    decreases |acts|
  {
    if acts != [] {
      StuckStep(s, acts[0], i);
      StuckRuns(Do(s, acts[0]), acts[1..], i);
    }
  }

  /** An orderly run ends here. */
  ghost predicate Attained(s: Service) {
    exists count: nat, acts :: count > 0 && Runs(Fresh(count), acts) && AllOrderly(Fresh(count), acts)
        && After(Fresh(count), acts) == s
  }

  lemma AttainedIsInv(s: Service)
    requires Attained(s)
    ensures Inv(s) && (s.launched ==> Executing(s) && s.alive)
  {
    var count: nat, acts :| count > 0 && Runs(Fresh(count), acts) && AllOrderly(Fresh(count), acts)
        && After(Fresh(count), acts) == s;
    FreshIsInv(count);
    OrderlyRunKeepsInv(Fresh(count), acts);
  }

  /** A shard quarantined instead of terminated keeps everything of every shard, whatever the others do. */
  lemma QuarantineRetainsEverything(s: Service, i: nat, acts: seq<Action>)
    requires Attained(s) && s.launched && i < |s.shards|
    requires s.shards[i].stage.Held? && !s.shards[i].signalled && Runs(s, acts)
    ensures var t := After(s, acts); t.running && t.finishes == s.finishes && t.alive && Safe(t)
  {
    AttainedIsInv(s);
    ExecutingIsReferenced(s);
    InvIsSafe(s);
    StuckRuns(s, acts, i);
    var t := After(s, acts);
    assert HoldsService(t.shards[i]);
  }

  /**
    A shard destroyed in its prepared state while the common workload runs: the workload is never finished, and the
    device's memory is kept exactly as long as some other shard still references the service.
  */
  lemma AbandonedShardBlocksFinish(s: Service, i: nat, acts: seq<Action>)
    requires Attained(s) && s.launched && i < |s.shards| && s.shards[i].stage.Prepared?
    requires Runs(ReleaseStep(s, i, true), acts)
    ensures var t := After(ReleaseStep(s, i, true), acts);
            t.running && t.finishes == s.finishes && (Safe(t) <==> Referenced(t.shards))
  {
    AttainedIsInv(s);
    InvIsSafe(s);
    var gone := s.shards[i].(stage := Gone, buffers := Retired);
    assert Retained(s.shards[i], SomeHeld(s.shards));
    SignalsUpdate(s.shards, i, gone);
    DropKeeps(At(s, i, gone));
    var r := ReleaseStep(s, i, true);
    assert Stuck(r, i);
    StuckRuns(r, acts, i);
  }

  lemma {:induction false} RunsOn(s: Service, first: seq<Action>, then_: seq<Action>)
    requires Runs(s, first) && Runs(After(s, first), then_)
    ensures Runs(s, first + then_) && After(s, first + then_) == After(After(s, first), then_)
    decreases |first|
  {
    if first == [] {
      assert first + then_ == then_;
    } else {
      RunsOn(Do(s, first[0]), first[1..], then_);
      assert (first + then_)[1..] == first[1..] + then_;
    }
  }

  /** Two shards joined, which completes the set. */
  function JoinedPair(): Service {
    Service(2, [Shard(Prepared, false, Owned), Shard(Prepared, false, Owned)], {0, 1},
            true, true, false, false, 0, false, 0, true)
  }

  /** The first has launched for both. */
  function LaunchedPair(): Service {
    Service(2, [Shard(Running, false, Owned), Shard(Prepared, false, Owned)], {0, 1},
            true, true, false, true, 0, true, 0, true)
  }

  lemma PairLaunches()
    ensures var acts := [Join(true), Join(true), Launch(0, Sent)];
            Runs(Fresh(2), acts) && After(Fresh(2), acts) == LaunchedPair()
  {
    var acts := [Join(true), Join(true), Launch(0, Sent)];
    var s1 := Do(Fresh(2), Join(true));
    var s2 := Do(s1, Join(true));
    assert s1.members == {0} && s2.members == {0, 1} && |s2.members| == 2;
    assert s2.shards == [Shard(Prepared, false, Owned), Shard(Prepared, false, Owned)];
    assert Do(s2, Launch(0, Sent)) == LaunchedPair();
    assert acts[1..] == [Join(true), Launch(0, Sent)] && acts[1..][1..] == [Launch(0, Sent)];
    assert Runs(s2, [Launch(0, Sent)]) && Runs(s1, acts[1..]);
  }

  lemma PairIsAbandoned()
    ensures var acts := [Release(1, true), Terminate(0, Finishes), Release(0, true)];
            Runs(LaunchedPair(), acts) && !Safe(After(LaunchedPair(), acts))
  {
    var acts := [Release(1, true), Terminate(0, Finishes), Release(0, true)];
    var s3 := LaunchedPair();
    var gone := Shard(Gone, false, Retired);
    assert HoldsService(At(s3, 1, gone).shards[0]);
    var s4 := Do(s3, Release(1, true));
    assert s4.shards == [Shard(Running, false, Owned), gone];
    var s5 := Do(s4, Terminate(0, Finishes));
    assert s5.shards == [Shard(Ended, true, Owned), gone];
    assert !Do(s5, Release(0, true)).alive;
    assert acts[1..] == [Terminate(0, Finishes), Release(0, true)] && acts[1..][1..] == [Release(0, true)];
    assert Runs(s5, [Release(0, true)]) && Runs(s4, acts[1..]);
  }

  /** Two shards, the second destroyed before its own launch: the first then frees a workload that is still running. */
  lemma AbandonedShardWitness()
    ensures var acts := [Join(true), Join(true), Launch(0, Sent), Release(1, true), Terminate(0, Finishes),
              Release(0, true)];
            Runs(Fresh(2), acts) && !Safe(After(Fresh(2), acts))
  {
    PairLaunches();
    PairIsAbandoned();
    var first := [Join(true), Join(true), Launch(0, Sent)];
    var then_ := [Release(1, true), Terminate(0, Finishes), Release(0, true)];
    RunsOn(Fresh(2), first, then_);
    assert first + then_ == [Join(true), Join(true), Launch(0, Sent), Release(1, true), Terminate(0, Finishes),
             Release(0, true)];
  }

  // ----- a step is too early exactly when it can end badly -----

  /** A run that frees what the device may be using, or writes to a destroyed shard. */
  ghost predicate GoesWrong(s: Service, acts: seq<Action>)
    requires Runs(s, acts)
  {
    !Safe(After(s, acts)) || !NoneTouched(s, acts)
  }

  lemma Prepend(s: Service, a: Action, acts: seq<Action>)
    requires Enabled(s, a) && Orderly(s, a) && Runs(Do(s, a), acts) && AllOrderly(Do(s, a), acts)
    ensures Runs(s, [a] + acts) && AllOrderly(s, [a] + acts) && After(s, [a] + acts) == After(Do(s, a), acts)
    ensures NoneTouched(s, [a] + acts) <==> !TouchesDestroyed(s, a) && NoneTouched(Do(s, a), acts)
  {
    assert ([a] + acts)[1..] == acts;
  }

  lemma TouchNow(s: Service, i: nat, k: nat) returns (acts: seq<Action>)
    requires s.alive && s.prepared && s.workload && !s.failed && !s.launched && |s.members| == s.count
    requires i < |s.shards| && i in s.members && (s.shards[i].stage.Gone? || s.shards[i].stage.Held?)
    requires k < |s.shards| && s.shards[k].stage.Prepared?
    ensures Runs(s, acts) && AllOrderly(s, acts) && !NoneTouched(s, acts)
  {
    acts := [Launch(k, Sent)];
    assert TouchesDestroyed(s, acts[0]);
    assert Runs(Do(s, acts[0]), acts[1..]);
  }

  /** One more shard joins, and compiles the workload if it completes the set. */
  lemma JoinsNext(s: Service)
    requires s.alive && !s.failed && !s.prepared && !s.launched && |s.shards| < s.count
    requires s.members == Range(|s.shards|)
    ensures var t := JoinStep(s, true);
            t.alive && !t.failed && !t.launched && t.count == s.count && t.members == Range(|s.shards| + 1)
            && t.shards == s.shards + [Shard(Prepared, false, Owned)] && |t.members| == |t.shards|
            && (t.prepared <==> |t.shards| == s.count) && (t.prepared ==> t.workload)
  {
    RangeSize(|s.shards| + 1);
    assert s.members + {|s.shards|} == Range(|s.shards| + 1);
  }

  /** A destroyed shard still on the server list of an incomplete set: the rest join, and the last one launches. */
  lemma {:induction false} WillTouch(s: Service, i: nat) returns (acts: seq<Action>)
    requires s.alive && !s.failed && !s.prepared && !s.launched && i < |s.shards| < s.count
    requires s.members == Range(|s.shards|) && (s.shards[i].stage.Gone? || s.shards[i].stage.Held?)
    ensures Runs(s, acts) && AllOrderly(s, acts) && !NoneTouched(s, acts)
    decreases s.count - |s.shards|
  {
    JoinsNext(s);
    var t := Do(s, Join(true));
    if t.prepared {
      acts := TouchNow(t, i, |s.shards|);
    } else {
      acts := WillTouch(t, i);
    }
    Prepend(s, Join(true), acts);
    acts := [Join(true)] + acts;
  }

  /** Steps a shard still has to take before it lets the service go. */
  function Left(x: Shard): nat {
    match x.stage
    case Prepared => 3
    case Running => 2
    case Closing => 2
    case Ended => 1
    case _ => 0
  }

  function AllLeft(shards: seq<Shard>): nat {
    if shards == [] then 0 else Left(shards[0]) + AllLeft(shards[1..])
  }

  lemma {:induction false} LeftUpdate(shards: seq<Shard>, i: nat, x: Shard)
    requires i < |shards|
    ensures AllLeft(shards[i := x]) == AllLeft(shards) - Left(shards[i]) + Left(x)
  {
    if i > 0 {
      LeftUpdate(shards[1..], i - 1, x);
      assert shards[i := x][1..] == shards[1..][i - 1 := x];
    }
  }

  lemma {:induction false} SameLeft(a: seq<Shard>, b: seq<Shard>)
    requires |a| == |b| && forall i | 0 <= i < |a| :: a[i].stage == b[i].stage
    ensures AllLeft(a) == AllLeft(b)
  {
    if a != [] { SameLeft(a[1..], b[1..]); }
  }

  /** The next thing a shard does on its way to being destroyed. */
  function NextStep(s: Service, k: nat): Action
    requires k < |s.shards|
  {
    if s.shards[k].stage.Prepared? then Launch(k, Sent)
    else if s.shards[k].stage.Ended? then Release(k, true)
    else Terminate(k, Finishes)
  }

  /** The shard after its next step. */
  function Moved(x: Shard): Shard {
    if x.stage.Prepared? then x.(stage := Running)
    else if x.stage.Ended? then x.(stage := Gone, buffers := Retired)
    else x.(stage := Ended, signalled := true)
  }

  /** While the common workload waits for shard `i`, each other shard can go its way to the end. */
  lemma NextStepMoves(s: Service, i: nat, k: nat)
    requires Stuck(s, i) && s.shards[i].stage.Gone? && Keeps(s) && NobodyHeld(s) && s.alive && !s.failed
    requires |s.members| == s.count && k < |s.shards| && HoldsService(s.shards[k])
    ensures Enabled(s, NextStep(s, k)) && Orderly(s, NextStep(s, k))
    ensures var t := Do(s, NextStep(s, k)); !t.failed && t.members == s.members && t.count == s.count
    ensures var moved := s.shards[k := Moved(s.shards[k])];
            Do(s, NextStep(s, k)).shards == moved || Do(s, NextStep(s, k)).shards == FreeRetired(moved)
  {
    var x := s.shards[k];
    if x.stage.Running? || x.stage.Closing? {
      var told := s.shards[k := x.(stage := Closing, signalled := true)];
      SignalsUpdate(s.shards, k, told[k]);
      SignalsFull(told);
      assert !told[i].signalled && told[k := Moved(x)] == s.shards[k := Moved(x)];
    }
  }

  lemma NextStepProgresses(s: Service, i: nat, k: nat)
    requires Stuck(s, i) && s.shards[i].stage.Gone? && Keeps(s) && NobodyHeld(s) && s.alive && !s.failed
    requires |s.members| == s.count && k < |s.shards| && HoldsService(s.shards[k])
    ensures Enabled(s, NextStep(s, k)) && Orderly(s, NextStep(s, k))
    ensures var t := Do(s, NextStep(s, k)); AllLeft(t.shards) < AllLeft(s.shards) && NobodyHeld(t)
    ensures var t := Do(s, NextStep(s, k)); |t.shards| == |s.shards| && t.shards[i].stage.Gone?
    ensures var t := Do(s, NextStep(s, k)); !t.failed && t.members == s.members && t.count == s.count
  {
    NextStepMoves(s, i, k);
    var moved := s.shards[k := Moved(s.shards[k])];
    LeftUpdate(s.shards, k, Moved(s.shards[k]));
    SameLeft(FreeRetired(moved), moved);
    forall j | 0 <= j < |moved| ensures !moved[j].stage.Held? && !FreeRetired(moved)[j].stage.Held? { }
  }

  /** Once nobody is quarantined and one shard will never signal, the others can close and free a running workload. */
  lemma {:induction false} WillFree(s: Service, i: nat) returns (acts: seq<Action>)
    requires Stuck(s, i) && s.shards[i].stage.Gone? && Keeps(s) && NobodyHeld(s) && !s.failed && |s.members| == s.count
    ensures Runs(s, acts) && AllOrderly(s, acts) && !Safe(After(s, acts))
    decreases AllLeft(s.shards)
  {
    if !s.alive {
      return [];
    }
    var k :| 0 <= k < |s.shards| && HoldsService(s.shards[k]);
    var a := NextStep(s, k);
    NextStepProgresses(s, i, k);
    StuckStep(s, a, i);
    acts := WillFree(Do(s, a), i);
    Prepend(s, a, acts);
    acts := [a] + acts;
  }

  /** Before the common launch: the destroyed shard stays on the server list that the launch goes through. */
  lemma EarlyLossTouches(s: Service, a: Action) returns (acts: seq<Action>)
    requires Inv(s) && Enabled(s, a) && TooEarly(s, a) && !s.launched
    ensures Runs(Do(s, a), acts) && AllOrderly(Do(s, a), acts) && !NoneTouched(Do(s, a), acts)
  {
    var i := a.i;
    var t := Do(s, a);
    RangeSize(|s.shards|);
    assert Gathering(s);
    if s.prepared {
      var k :| 0 <= k < |s.shards| && k != i && s.shards[k].stage.Prepared?;
      assert HoldsService(t.shards[k]);
      acts := TouchNow(t, i, k);
    } else {
      if a.Release? && a.clean {
        var j :| 0 <= j < |s.shards| && j != i && !s.shards[j].stage.Gone?;
        assert HoldsService(t.shards[j]);
      }
      acts := WillTouch(t, i);
    }
  }

  /** While the workload runs: nothing but a quarantined shard would have kept it. */
  lemma LateLossFrees(s: Service, a: Action) returns (acts: seq<Action>)
    requires Inv(s) && Enabled(s, a) && TooEarly(s, a) && s.launched
    ensures Runs(Do(s, a), acts) && AllOrderly(Do(s, a), acts) && !Safe(After(Do(s, a), acts))
  {
    var i := a.i;
    assert Executing(s) && Retained(s.shards[i], SomeHeld(s.shards));
    InvIsSafe(s);
    var gone := s.shards[i].(stage := Gone, buffers := Retired);
    SignalsUpdate(s.shards, i, gone);
    DropKeeps(At(s, i, gone));
    RangeSize(|s.shards|);
    acts := WillFree(Do(s, a), i);
  }

  /**
    From any state an orderly run reaches, a step is too early exactly when something can go wrong afterwards without
    any further step being too early: the device's memory is freed under it, or a destroyed shard is written to.
  */
  lemma TooEarlyIsExact(s: Service, a: Action)
    requires Attained(s) && Enabled(s, a)
    ensures TooEarly(s, a) <==>
              exists acts :: Runs(Do(s, a), acts) && AllOrderly(Do(s, a), acts) && GoesWrong(Do(s, a), acts)
  {
    AttainedIsInv(s);
    if TooEarly(s, a) {
      var acts;
      if s.launched { acts := LateLossFrees(s, a); } else { acts := EarlyLossTouches(s, a); }
      assert GoesWrong(Do(s, a), acts);
    } else {
      StepKeepsInv(s, a);
      forall acts | Runs(Do(s, a), acts) && AllOrderly(Do(s, a), acts) ensures !GoesWrong(Do(s, a), acts) {
        OrderlyRunKeepsInv(Do(s, a), acts);
        InvIsSafe(After(Do(s, a), acts));
      }
    }
  }

  // ----- the two ways to go wrong before the common launch -----

  /** Two of three shards joined, and the first is destroyed when its worker thread cannot be created. */
  function FirstLost(): Service {
    Service(3, [Shard(Gone, false, Freed), Shard(Prepared, false, Owned)], {0, 1},
            false, false, false, false, 0, false, 0, true)
  }

  lemma FirstIsLost()
    ensures var acts := [Join(true), Join(true), Release(0, true)];
            Runs(Fresh(3), acts) && After(Fresh(3), acts) == FirstLost()
  {
    var s1 := Do(Fresh(3), Join(true));
    var s2 := Do(s1, Join(true));
    assert s1.members == {0} && s2.members == {0, 1} && |s2.members| == 2;
    assert s2.shards == [Shard(Prepared, false, Owned), Shard(Prepared, false, Owned)];
    assert HoldsService(At(s2, 0, Shard(Gone, false, Freed)).shards[1]);
    assert Do(s2, Release(0, true)) == FirstLost();
    assert Runs(s2, [Release(0, true)]) && Runs(s1, [Join(true), Release(0, true)]);
  }

  lemma LostIsLaunched()
    ensures var acts := [Join(true), Launch(1, Sent)];
            Runs(FirstLost(), acts) && !Safe(After(FirstLost(), acts))
  {
    var s4 := Do(FirstLost(), Join(true));
    assert {0, 1} + {2} == {0, 1, 2} && |{0, 1, 2}| == 3;
    assert s4.shards == FirstLost().shards + [Shard(Prepared, false, Owned)] && s4.prepared;
    var s5 := Do(s4, Launch(1, Sent));
    assert s5.running && s5.shards[0].buffers.Freed?;
    assert Runs(s4, [Launch(1, Sent)]);
  }

  /** The lost shard stays on the server list: the launch of the completed set runs on its freed buffers. */
  lemma LostBeforeLaunchWitness()
    ensures var acts := [Join(true), Join(true), Release(0, true), Join(true), Launch(1, Sent)];
            Runs(Fresh(3), acts) && !Safe(After(Fresh(3), acts))
  {
    FirstIsLost();
    LostIsLaunched();
    var first, then_ := [Join(true), Join(true), Release(0, true)], [Join(true), Launch(1, Sent)];
    RunsOn(Fresh(3), first, then_);
    assert first + then_ == [Join(true), Join(true), Release(0, true), Join(true), Launch(1, Sent)];
  }

  /** Two shards; the first starts early and is quarantined, and the launch of the completed set writes to it. */
  lemma HeldBeforeLaunchWitness()
    ensures var acts := [Join(true), Launch(0, Sent), Quarantine(0), Join(true)];
            Runs(Fresh(2), acts) && Enabled(After(Fresh(2), acts), Launch(1, Sent))
            && TouchesDestroyed(After(Fresh(2), acts), Launch(1, Sent))
  {
    var held := Shard(Held, false, Kept);
    var s1 := Do(Fresh(2), Join(true));
    assert s1.members == {0} && s1.shards == [Shard(Prepared, false, Owned)];
    var s2 := Do(s1, Launch(0, Sent));
    assert s2.shards == [Shard(Running, false, Owned)];
    var s3 := Do(s2, Quarantine(0));
    assert s3.shards == [held] && s3.members + {1} == {0, 1} && |{0, 1}| == 2;
    var s4 := Do(s3, Join(true));
    assert s4.shards == [held, Shard(Prepared, false, Owned)];
    assert Runs(s4, []) && Runs(s3, [Join(true)]) && Runs(s2, [Quarantine(0), Join(true)]);
    assert Runs(s1, [Launch(0, Sent), Quarantine(0), Join(true)]);
    assert s4.shards[0].stage.Held? && 0 in s4.members;
  }
}
