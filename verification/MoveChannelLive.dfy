/** Host and device are never both blocked: every request in flight completes, within a bound, unless cancelled. */
module MoveChannelLive {
  import opened Words
  import opened TierSpec
  import opened MoveChannel
  import opened MoveChannelControl
  import opened MoveChannelData
  import opened MoveChannelHost
  import opened MoveChannelResults

  /** What the outside world decides on: a new request, a cancellation, a broken access, a value dropped at the end. */
  predicate Outside(a: Action) {
    a.WriteSlot? || a.Cancel? || a.IoFails? || a.DropValue?
  }

  /** Steps the host still has for a request of length `n` in `m` chunks, at most. */
  function HostWork(h: HostPc, inFlight: bool, n: nat, m: nat): nat {
    match h
    case Polling => if inFlight then 11 + 2 * n + m else 1
    case Decoded => 10 + 2 * n + m
    case Copying(at) => 8 + n + m + (if at <= n then n - at else 0)
    case WritingDram => 7 + n + m
    case ZeroProgress => 7 + n + m
    case PostingSlot => 6 + n + m
    case PostingSem => 5 + n + m
    case Streaming(base, at) => 4 + (if at <= n then n - at else 0) + (if base <= m then m - base else 0)
    case AwaitDone => 3
    case Erased => 8
    case Reserved(_) => 7
    case AckWritten(_) => 6
    case AwaitPush(_) => 5
    case Landed(_) => 4
    case Received(_) => 3
    case Served => 2
    case Stopped(_) => 0
    case CheckFailed => 0
  }

  /** Steps the device still has, counting the host's for a request it has yet to post. */
  function DeviceWork(d: DevicePc, n: nat, m: nat): nat {
    match d
    case Quiet => 0
    case SlotWritten => 16 + 3 * n + m
    case AwaitAck => n + 3
    case Pushing(_, _, at) => 2 + (if at <= n then n - at else 0)
    case AwaitCommit => n + 4
    case Reading(_, at) => 3 + (if at <= n then n - at else 0)
    case Consumed => 2
    case Draining(_) => 1
  }

  /** An upper bound on the steps left before the channel is idle again. */
  function Work(c: Config, s: State): nat
    requires c.unit > 0
  {
    var n := s.dev.request.len;
    var m := ChunkCount(c.unit, n);
    HostWork(s.host.pc, InFlight(s), n, m) + DeviceWork(s.dev.pc, n, m)
  }

  lemma DeviceWorks(c: Config, s: State, a: Action)
    requires c.unit > 0 && Control(c, s) && Requests(c, s) && Enabled(c, s, a) && DeviceAction(a) && !Outside(a)
    ensures Work(c, DeviceStep(c, s, a)) < Work(c, s)
  {
  }

  lemma PublishWorks(c: Config, s: State)
    requires ValidConfig(c) && s.host.pc.Streaming? && s.host.request == s.dev.request
    requires s.host.pc.base < Chunks(c, s.host)
    ensures Work(c, PublishBlockStep(c, s)) < Work(c, s)
  {
  }

  lemma BeginWorks(c: Config, s: State)
    requires ValidConfig(c) && Ready(c, s, Begin)
    ensures Work(c, HostStep(c, s, Begin)) < Work(c, s)
  {
  }

  lemma StagingWorks(c: Config, s: State, a: Action)
    requires ValidConfig(c) && Ready(c, s, a) && StagingAction(a) && s.host.request == s.dev.request
    requires a.StreamByte? ==> s.host.pc.at < BlockEnd(c, s.host)
    ensures Work(c, HostStep(c, s, a)) < Work(c, s)
  {
  }

  lemma PostingWorks(c: Config, s: State, a: Action)
    requires ValidConfig(c) && Ready(c, s, a) && PostingAction(a) && s.host.request == s.dev.request
    ensures Work(c, HostStep(c, s, a)) < Work(c, s)
  {
  }

  lemma SupplyWorks(c: Config, s: State, a: Action)
    requires ValidConfig(c) && Ready(c, s, a) && SupplyAction(a) && !a.PublishBlock? && s.host.request == s.dev.request
    requires a.StreamByte? ==> s.host.pc.at < BlockEnd(c, s.host)
    ensures Work(c, HostStep(c, s, a)) < Work(c, s)
  {
    if a.Begin? { BeginWorks(c, s); }
    else if StagingAction(a) { StagingWorks(c, s, a); }
    else if PostingAction(a) { PostingWorks(c, s, a); }
  }

  lemma SpaceWorks(c: Config, s: State, a: Action)
    requires ValidConfig(c) && Ready(c, s, a) && (a.Erase? || a.TakeSpace?)
    ensures Work(c, HostStep(c, s, a)) < Work(c, s)
  {
  }

  lemma DeliverWorks(c: Config, s: State, a: Action)
    requires ValidConfig(c) && Ready(c, s, a) && (a.Publish? || a.ReadDevice? || a.Insert?)
    ensures Work(c, HostStep(c, s, a)) < Work(c, s)
  {
  }

  lemma StoreWorks(c: Config, s: State, a: Action)
    requires ValidConfig(c) && Ready(c, s, a) && StoreAction(a) && !Outside(a)
    ensures Work(c, HostStep(c, s, a)) < Work(c, s)
  {
    if a.Erase? || a.TakeSpace? { SpaceWorks(c, s, a); }
    else if a.Stop? { BreakEnds(c, s, a); }
    else { DeliverWorks(c, s, a); }
  }

  lemma OtherWorks(c: Config, s: State, a: Action)
    requires ValidConfig(c) && Control(c, s) && Enabled(c, s, a)
    requires !DeviceAction(a) && !Outside(a) && !SupplyAction(a) && !StoreAction(a)
    ensures Work(c, HostStep(c, s, a)) < Work(c, s)
  {
  }

  /** Every step that is not the outside world's uses up some of the work left. */
  lemma WorkDrops(c: Config, s: State, a: Action)
    requires c.unit > 0 && Sound(c, s) && Enabled(c, s, a) && !Outside(a)
    ensures Work(c, Do(c, s, a)) < Work(c, s)
  {
    if DeviceAction(a) {
      DeviceWorks(c, s, a);
    } else if a.PublishBlock? {
      PublishWorks(c, s);
    } else if SupplyAction(a) {
      SupplyWorks(c, s, a);
    } else if StoreAction(a) {
      StoreWorks(c, s, a);
    } else {
      OtherWorks(c, s, a);
    }
  }

  lemma {:induction false} BoundedFrom(c: Config, s: State, acts: seq<Action>)
    requires c.unit > 0 && Sound(c, s) && Runs(c, s, acts) && forall i | 0 <= i < |acts| :: !Outside(acts[i])
    ensures |acts| <= Work(c, s)
    decreases |acts|
  {
    if acts != [] {
      WorkDrops(c, s, acts[0]);
      StepKeepsInv(c, s, acts[0]);
      BoundedFrom(c, Do(c, s, acts[0]), acts[1..]);
    }
  }

  /** However the two sides interleave, a run without outside steps is no longer than the work it starts with. */
  lemma RunsAreBounded(c: Config, s: State, acts: seq<Action>)
    requires c.unit > 0 && Reachable(c, s) && Runs(c, s, acts) && forall i | 0 <= i < |acts| :: !Outside(acts[i])
    ensures |acts| <= Work(c, s)
  {
    ReachableIsSound(c, s);
    BoundedFrom(c, s, acts);
  }

  /** The host's next step where the device is not the one to move. */
  function HostMove(c: Config, s: State): Action
    requires c.unit > 0
  {
    var h := s.host;
    match h.pc
    case Polling => Poll
    case Decoded =>
      if !Inbound(h.request) then Begin
      else if h.request.kind.RemoveBacking? || c.driver.External? || !c.noc then Erase
      else TakeSpace
    case Erased => if c.noc then TakeSpace else ReadDevice
    case Reserved(_) => WriteAck
    case AckWritten(_) => PostAck
    case AwaitPush(_) => SeePush
    case Landed(_) => Publish(false)
    case Received(_) => Insert
    case Copying(_) => CopyByte
    case WritingDram => WriteBlock
    case ZeroProgress => ClearProgress
    case PostingSlot => WriteCommit
    case PostingSem => PostCommit
    case Streaming(_, at) => if Source(h).Heap? && at < BlockEnd(c, h) then StreamByte else PublishBlock
    case AwaitDone => SeeDone
    case _ => Finish
  }

  /** A step some side can take while a request is on its way. */
  function Move(c: Config, s: State): Action
    requires c.unit > 0
  {
    var d := s.dev;
    match d.pc
    case SlotWritten => PostMove
    case AwaitAck => if s.link.ackSem != d.ackSeen then SeeAck else HostMove(c, s)
    case Pushing(_, _, at) => if at < |d.value| then PushByte else PushEnd
    case AwaitCommit => if s.link.commitSem != d.commitSeen then SeeCommit else HostMove(c, s)
    case Reading(_, at) =>
      if at == d.request.len then (if c.noc then TellHost else ReadEnd)
      else if c.noc && d.request.kind.ServeGet? && at / c.unit >= s.link.progress then HostMove(c, s)
      else ReadByte
    case Consumed => ReadEnd
    case Draining(_) => if s.link.moveProcessed == s.link.moveSem then Drain else HostMove(c, s)
    case Quiet => HostMove(c, s)
  }

  lemma ChunkBelow(unit: nat, n: nat, at: nat)
    requires unit > 0 && at < n
    ensures at / unit < ChunkCount(unit, n)
  {
    ChunkCountIsCeiling(unit, n);
    var q := at / unit;
    assert q * unit + at % unit == at;
    if q >= ChunkCount(unit, n) { MulMono(ChunkCount(unit, n), q, unit); }
  }

  lemma WaitsForHost(c: Config, s: State)
    requires c.unit > 0 && !s.dev.pc.Quiet? && Move(c, s) == HostMove(c, s)
    ensures s.dev.pc.AwaitAck? || s.dev.pc.AwaitCommit? || s.dev.pc.Reading? || s.dev.pc.Draining?
  {
  }

  /** Where the device waits for the host, the host can move. */
  lemma HostMoveIsEnabled(c: Config, s: State)
    requires c.unit > 0 && Sound(c, s) && !s.dev.pc.Quiet? && !s.host.pc.Stopped? && !s.host.cancelled
    requires Move(c, s) == HostMove(c, s)
    ensures Enabled(c, s, HostMove(c, s)) && !Outside(HostMove(c, s))
  {
    WaitsForHost(c, s);
    if s.dev.pc.AwaitCommit? || s.dev.pc.Reading? { SupplyMoveIsEnabled(c, s); }
    else if s.dev.pc.AwaitAck? { AckMoveIsEnabled(c, s); }
    else { DrainMoveIsEnabled(c, s); }
  }

  lemma DrainMoveIsEnabled(c: Config, s: State)
    requires c.unit > 0 && Control(c, s) && !s.host.pc.Stopped? && !s.host.cancelled
    requires s.dev.pc.Draining? && Move(c, s) == HostMove(c, s)
    ensures Enabled(c, s, HostMove(c, s)) && !Outside(HostMove(c, s))
  {
  }

  lemma AckMoveIsEnabled(c: Config, s: State)
    requires c.unit > 0 && Control(c, s) && !s.host.pc.Stopped? && !s.host.cancelled
    requires s.dev.pc.AwaitAck? && Move(c, s) == HostMove(c, s)
    ensures Enabled(c, s, HostMove(c, s)) && !Outside(HostMove(c, s))
  {
  }

  lemma SupplyMoveIsEnabled(c: Config, s: State)
    requires c.unit > 0 && Sound(c, s) && !s.host.pc.Stopped? && !s.host.cancelled
    requires (s.dev.pc.AwaitCommit? || s.dev.pc.Reading?) && Move(c, s) == HostMove(c, s)
    ensures Enabled(c, s, HostMove(c, s)) && !Outside(HostMove(c, s))
  {
    var d := s.dev;
    if d.pc.Reading? && d.pc.at < d.request.len { ChunkBelow(c.unit, d.request.len, d.pc.at); }
  }

  lemma MoveIsEnabled(c: Config, s: State)
    requires c.unit > 0 && Sound(c, s) && !s.dev.pc.Quiet? && !s.host.pc.Stopped? && !s.host.cancelled
    ensures Enabled(c, s, Move(c, s)) && !Outside(Move(c, s))
  {
    var d := s.dev;
    if d.pc.Reading? && d.pc.at < d.request.len { ChunkBelow(c.unit, d.request.len, d.pc.at); }
    if Move(c, s) == HostMove(c, s) { HostMoveIsEnabled(c, s); }
  }

  /** While a request is on its way and nobody has cancelled, some side can move. */
  lemma NeverBothBlocked(c: Config, s: State)
    requires c.unit > 0 && Reachable(c, s) && !s.dev.pc.Quiet? && !s.host.pc.Stopped? && !s.host.cancelled
    ensures exists a :: Enabled(c, s, a) && !Outside(a)
  {
    ReachableIsSound(c, s);
    MoveIsEnabled(c, s);
  }

  /** A run of inside steps from `s` that ends with the device idle. */
  ghost predicate Completes(c: Config, s: State, acts: seq<Action>)
    requires c.unit > 0
  {
    Runs(c, s, acts) && (forall i | 0 <= i < |acts| :: !Outside(acts[i])) && After(c, s, acts).dev.pc.Quiet?
  }

  lemma SupplyRunsOn(c: Config, s: State, a: Action)
    requires c.unit > 0 && Ready(c, s, a) && SupplyAction(a) && !s.host.cancelled
    ensures !HostStep(c, s, a).host.pc.Stopped? && !HostStep(c, s, a).host.cancelled
  {
    SupplyNeverStops(c, s, a);
  }

  /** Only a cancellation, a failed lease or a stop ends the host's run. */
  lemma RunsOn(c: Config, s: State, a: Action)
    requires c.unit > 0 && Ready(c, s, a) && !s.host.pc.Stopped? && !s.host.cancelled && !a.Cancel? && !a.IoFails?
    requires a != Publish(true)
    ensures !Do(c, s, a).host.pc.Stopped? && !Do(c, s, a).host.cancelled
  {
    if SupplyAction(a) { SupplyRunsOn(c, s, a); }
  }

  lemma MovesOn(c: Config, s: State)
    requires c.unit > 0 && Sound(c, s) && !s.dev.pc.Quiet? && !s.host.pc.Stopped? && !s.host.cancelled
    ensures Enabled(c, s, Move(c, s)) && !Outside(Move(c, s))
    ensures var t := Do(c, s, Move(c, s));
            Sound(c, t) && Work(c, t) < Work(c, s) && !t.host.pc.Stopped? && !t.host.cancelled
  {
    MoveIsEnabled(c, s);
    WorkDrops(c, s, Move(c, s));
    StepKeepsInv(c, s, Move(c, s));
    RunsOn(c, s, Move(c, s));
  }

  lemma CompletesAfter(c: Config, s: State, a: Action, rest: seq<Action>)
    requires c.unit > 0 && Enabled(c, s, a) && !Outside(a) && Completes(c, Do(c, s, a), rest)
    ensures Completes(c, s, [a] + rest)
  {
    assert ([a] + rest)[1..] == rest;
  }

  lemma {:induction false} CompletesFrom(c: Config, s: State)
    requires c.unit > 0 && Sound(c, s) && !s.host.pc.Stopped? && !s.host.cancelled
    ensures exists acts :: Completes(c, s, acts)
    decreases Work(c, s)
  {
    if s.dev.pc.Quiet? {
      assert Completes(c, s, []);
    } else {
      MovesOn(c, s);
      var t := Do(c, s, Move(c, s));
      CompletesFrom(c, t);
      var rest :| Completes(c, t, rest);
      CompletesAfter(c, s, Move(c, s), rest);
    }
  }

  /** From every reachable state the request in flight can be completed by the two sides alone. */
  lemma RequestCompletes(c: Config, s: State)
    requires c.unit > 0 && Reachable(c, s) && !s.host.pc.Stopped? && !s.host.cancelled
    ensures exists acts :: Completes(c, s, acts)
  {
    ReachableIsSound(c, s);
    CompletesFrom(c, s);
  }
}
