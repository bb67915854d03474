/** The control invariant of the move channel: who waits for whom, and where every counter stands. */
module MoveChannelControl {
  import opened Words
  import opened TierSpec
  import opened MoveChannel

  /** How far one nested handshake has got. */
  datatype Handshake = Even | Issued | Posted | Taken | Told

  /** Host pcs of a supply before the commit request is posted. */
  predicate Preparing(p: HostPc) {
    p.Copying? || p.WritingDram? || p.ZeroProgress? || p.PostingSlot? || p.PostingSem?
  }

  function EvictShake(s: State): Handshake {
    if s.dev.pc.Pushing? then Taken
    else if s.host.pc.AckWritten? then Issued
    else if s.host.pc.AwaitPush? && s.dev.pc.AwaitAck? then Posted
    else Even
  }

  function CommitShake(s: State): Handshake {
    if s.dev.pc.Reading? then Taken
    else if s.dev.pc.Consumed? then Told
    else if !s.dev.pc.AwaitCommit? then Even
    else if Preparing(s.host.pc) then Issued
    else if s.host.pc.Streaming? || s.host.pc.AwaitDone? then Posted
    else Even
  }

  predicate EvictCounters(s: State) {
    var issued, sem, seen, done := s.host.evictIssued, s.link.ackSem, s.dev.ackSeen, s.link.evictDone;
    match EvictShake(s)
    case Even => issued == sem == seen == done
    case Issued => issued == Next(sem) && sem == seen == done
    case Posted => issued == sem == Next(seen) && seen == done
    case _ => issued == sem == seen == Next(done)
  }

  predicate CommitCounters(c: Config, s: State) {
    var issued, sem, seen, done, told :=
      s.host.commitIssued, s.link.commitSem, s.dev.commitSeen, s.link.promoteDone, s.link.hostDone;
    match CommitShake(s)
    case Even => issued == sem == seen == done && (c.noc ==> told == done)
    case Issued => issued == Next(sem) && sem == seen == done && (c.noc ==> told == done)
    case Posted => issued == sem == Next(seen) && seen == done && (c.noc ==> told == done)
    case Taken => issued == sem == seen == Next(done) && (c.noc ==> told == done)
    case Told => issued == sem == seen == Next(done) && told == issued
  }

  /** Whether a posted request is still to be completed by the host. */
  predicate InFlight(s: State) {
    s.link.moveSem != s.host.seen
  }

  /** The host may be at `h` while the device is at `d`, for a request of this kind. */
  predicate Paired(c: Config, k: Kind, inFlight: bool, h: HostPc, d: DevicePc) {
    match d
    case Quiet => !inFlight && h.Polling?
    case SlotWritten => !inFlight && h.Polling?
    case AwaitAck =>
      k.WriteThrough? && c.noc && inFlight
      && (h.Polling? || h.Decoded? || (h.Erased? && c.driver.External?) || h.Reserved? || h.AckWritten? || h.AwaitPush?)
    case Pushing(_, _, _) => k.WriteThrough? && c.noc && inFlight && h.AwaitPush?
    case AwaitCommit =>
      (k.PromoteToDevice? || k.ServeGet?) && inFlight
      && (h.Polling? || h.Decoded? || Preparing(h) || h.Streaming? || h.AwaitDone?)
    case Reading(_, _) => (k.PromoteToDevice? || k.ServeGet?) && inFlight && (h.Streaming? || h.AwaitDone?)
    case Consumed =>
      (k.PromoteToDevice? || k.ServeGet?) && c.noc
      && (if inFlight then h.AwaitDone? || h.Served? else h.Polling?)
    case Draining(_) =>
      if !inFlight then h.Polling?
      else match k
        case WriteThrough =>
          h.Served? || (h.Received? && c.driver.External?)
          || (if c.noc then h.AwaitPush? || h.Landed? else h.Polling? || h.Decoded? || h.Erased?)
        case RemoveBacking => h.Polling? || h.Decoded? || h.Served?
        case _ => h.AwaitDone? || h.Served?
  }

  /** What the manager's completion checks look at. */
  predicate PhaseControl(s: State) {
    var h := s.host;
    && h.active == !h.pc.Polling?
    && (h.pc.Served? ==> h.phase.Complete? || (h.phase.Pending? && h.request.kind.RemoveBacking?))
    && (h.pc.Decoded? ==> h.phase.Pending?)
    && (h.pc.Received? ==> h.phase.Complete?)
  }

  /** At most one request beyond the last completed one, and both sides mean the same request. */
  predicate Sequenced(s: State) {
    var h, l, d := s.host, s.link, s.dev;
    && l.moveProcessed == h.seen
    && (l.moveSem == h.seen || l.moveSem == Next(h.seen))
    && (!d.pc.Quiet? ==> l.slot == d.request)
    && (!h.pc.Polling? ==> h.request == d.request && h.sequence == l.moveSem)
  }

  predicate Coupled(c: Config, s: State) {
    && Sequenced(s)
    && Paired(c, s.dev.request.kind, InFlight(s), s.host.pc, s.dev.pc)
    && EvictCounters(s) && CommitCounters(c, s) && PhaseControl(s)
  }

  /** Streaming keeps progress at the current block, and a reader never gets past it. */
  ghost predicate StreamControl(c: Config, s: State)
    requires c.unit > 0
  {
    var h, l, d := s.host, s.link, s.dev;
    && (h.pc.Streaming? ==> h.request.kind.ServeGet? && c.noc && l.progress == h.pc.base < Chunks(c, h))
    && (h.pc.AwaitDone? && h.request.kind.ServeGet? && c.noc ==> l.progress == Chunks(c, h))
    && ((h.pc.PostingSlot? || h.pc.PostingSem?) && h.request.kind.ServeGet? && c.noc ==> l.progress == 0)
    && (h.pc.Copying? ==> h.request.kind.PromoteToDevice? && c.noc)
    && (h.pc.WritingDram? ==> !c.noc)
    && (d.pc.Reading? ==> d.pc.at <= d.request.len)
    && (d.pc.Reading? && h.pc.Streaming? ==> d.pc.at <= l.progress * c.unit)
  }

  /** While blocks are still to come, the reader is short of the end. */
  predicate StreamShort(c: Config, s: State) {
    var h, d := s.host, s.dev;
    && (h.pc.Streaming? ==> h.request.kind.ServeGet? && c.noc)
    && (d.pc.Reading? && h.pc.Streaming? ==> d.pc.at < d.request.len)
  }

  lemma StreamingIsShort(c: Config, s: State)
    requires c.unit > 0 && StreamControl(c, s) && Sequenced(s)
    ensures StreamShort(c, s)
  {
    if s.dev.pc.Reading? && s.host.pc.Streaming? {
      ChunkCountIsCeiling(c.unit, s.host.request.len);
      MulMono(s.link.progress, Chunks(c, s.host) - 1, c.unit);
    }
  }

  ghost predicate Live(c: Config, s: State)
    requires c.unit > 0
  {
    Coupled(c, s) && StreamControl(c, s)
  }

  /** The request logs: completions follow posts, in order, at most one behind. */
  ghost predicate Logged(s: State) {
    var d := s.dev;
    && s.done <= s.posted && |s.posted| <= |s.done| + 1
    && (s.host.pc.Stopped? || (|s.posted| == |s.done| + 1 <==> InFlight(s)))
    && (|s.posted| > |s.done| ==> s.posted[|s.done|] == d.request && !d.pc.Quiet? && !d.pc.SlotWritten?)
    && (d.pc.Quiet? || d.pc.SlotWritten? ==> s.link.moveSem == s.link.moveProcessed)
    && (s.link.moveSem == s.link.moveProcessed ==> |s.posted| == |s.done|)
  }

  ghost predicate Control(c: Config, s: State)
    requires c.unit > 0
  {
    && !s.host.pc.CheckFailed?
    && (s.host.pc.Stopped? || Live(c, s))
    && Logged(s)
    && (!s.dev.pc.Quiet? ==> WellFormed(c, s.dev.request))
  }

  lemma ControlInit(c: Config, n: u32, arena: seq<byte>)
    requires c.unit > 0
    ensures Control(c, StartAt(c, n, arena))
  {
  }

  ghost predicate Steps(c: Config, s: State, a: Action) {
    && Ready(c, s, a) && Coupled(c, s) && StreamShort(c, s)
    && !s.host.pc.CheckFailed? && !s.host.pc.Stopped?
  }

  lemma DevicePairs(c: Config, s: State, a: Action)
    requires c.unit > 0 && Steps(c, s, a) && DeviceAction(a)
    ensures var t := DeviceStep(c, s, a);
            Sequenced(t) && Paired(c, t.dev.request.kind, InFlight(t), t.host.pc, t.dev.pc) && PhaseControl(t)
  {
  }

  lemma DeviceEvicts(c: Config, s: State, a: Action)
    requires c.unit > 0 && Steps(c, s, a) && DeviceAction(a)
    ensures EvictCounters(DeviceStep(c, s, a))
  {
  }

  lemma DeviceCommits(c: Config, s: State, a: Action)
    requires c.unit > 0 && Steps(c, s, a) && DeviceAction(a)
    ensures CommitCounters(c, DeviceStep(c, s, a))
  {
  }

  lemma DeviceStreams(c: Config, s: State, a: Action)
    requires c.unit > 0 && Steps(c, s, a) && DeviceAction(a) && Permitted(c, s, a) && StreamControl(c, s)
    ensures StreamControl(c, DeviceStep(c, s, a))
  {
    if a.ReadByte? && c.noc && s.dev.request.kind.ServeGet? {
      var at := s.dev.pc.at;
      assert at == at / c.unit * c.unit + at % c.unit;
      MulMono(at / c.unit + 1, s.link.progress, c.unit);
    }
  }

  predicate Ended(s: State) {
    s.host.pc.Stopped? || s.host.pc.CheckFailed?
  }

  lemma SpaceCouples(c: Config, s: State, a: Action)
    requires c.unit > 0 && Steps(c, s, a) && (a.Erase? || a.TakeSpace?)
    ensures Ended(HostStep(c, s, a)) || Coupled(c, HostStep(c, s, a))
  {
  }

  lemma DeliverCouples(c: Config, s: State, a: Action)
    requires c.unit > 0 && Steps(c, s, a) && (a.Publish? || a.ReadDevice? || a.Insert?)
    ensures Ended(HostStep(c, s, a)) || Coupled(c, HostStep(c, s, a))
  {
  }

  lemma BreakEnds(c: Config, s: State, a: Action)
    requires c.unit > 0 && Ready(c, s, a) && BreakAction(a)
    ensures HostStep(c, s, a).host.pc.Stopped?
  {
  }

  lemma StoreCouples(c: Config, s: State, a: Action)
    requires c.unit > 0 && Steps(c, s, a) && StoreAction(a)
    ensures Ended(HostStep(c, s, a)) || Coupled(c, HostStep(c, s, a))
  {
    if BreakAction(a) { BreakEnds(c, s, a); }
    else if a.Erase? || a.TakeSpace? { SpaceCouples(c, s, a); }
    else { DeliverCouples(c, s, a); }
  }

  lemma StagingCouples(c: Config, s: State, a: Action)
    requires c.unit > 0 && Steps(c, s, a) && StagingAction(a)
    ensures Coupled(c, HostStep(c, s, a))
  {
  }

  lemma PostingCouples(c: Config, s: State, a: Action)
    requires c.unit > 0 && Steps(c, s, a) && PostingAction(a)
    ensures Coupled(c, HostStep(c, s, a))
  {
  }

  lemma BeginCouples(c: Config, s: State)
    requires c.unit > 0 && Steps(c, s, Begin)
    ensures Ended(HostStep(c, s, Begin)) || Coupled(c, HostStep(c, s, Begin))
  {
  }

  lemma SupplyCouples(c: Config, s: State, a: Action)
    requires c.unit > 0 && Steps(c, s, a) && SupplyAction(a)
    ensures Ended(HostStep(c, s, a)) || Coupled(c, HostStep(c, s, a))
  {
    if StagingAction(a) { StagingCouples(c, s, a); }
    else if PostingAction(a) { PostingCouples(c, s, a); }
    else if a.Begin? { BeginCouples(c, s); }
  }

  lemma OtherCouples(c: Config, s: State, a: Action)
    requires c.unit > 0 && Steps(c, s, a) && !DeviceAction(a) && !StoreAction(a) && !SupplyAction(a)
    ensures Ended(HostStep(c, s, a)) || Coupled(c, HostStep(c, s, a))
  {
  }

  lemma HostCouples(c: Config, s: State, a: Action)
    requires c.unit > 0 && Steps(c, s, a) && !DeviceAction(a)
    ensures Ended(HostStep(c, s, a)) || Coupled(c, HostStep(c, s, a))
  {
    if StoreAction(a) { StoreCouples(c, s, a); }
    else if SupplyAction(a) { SupplyCouples(c, s, a); }
    else { OtherCouples(c, s, a); }
  }

  lemma PublishStreams(c: Config, s: State)
    requires c.unit > 0 && s.host.pc.Streaming? && StreamControl(c, s)
    ensures StreamControl(c, PublishBlockStep(c, s))
  {
    MulMono(s.link.progress, PublishBlockStep(c, s).link.progress, c.unit);
  }

  lemma SupplyStreams(c: Config, s: State, a: Action)
    requires c.unit > 0 && Steps(c, s, a) && SupplyAction(a) && StreamControl(c, s) && !a.PublishBlock?
    requires s.host.request.kind.ServeGet? ==> Chunks(c, s.host) > 0
    ensures var t := HostStep(c, s, a);
            Ended(t) || StreamControl(c, t)
  {
  }

  /** Outside a supply nothing is staged or streamed. */
  lemma QuietStreams(c: Config, s: State, a: Action)
    requires c.unit > 0 && Steps(c, s, a) && !DeviceAction(a) && !SupplyAction(a) && StreamControl(c, s)
    ensures var t := HostStep(c, s, a);
            Ended(t) || StreamControl(c, t)
  {
  }

  lemma HostStreams(c: Config, s: State, a: Action)
    requires c.unit > 0 && Steps(c, s, a) && !DeviceAction(a) && StreamControl(c, s) && !a.PublishBlock?
    requires s.host.request.kind.ServeGet? ==> Chunks(c, s.host) > 0 || s.host.pc.Polling?
    ensures var t := HostStep(c, s, a);
            Ended(t) || StreamControl(c, t)
  {
    if SupplyAction(a) {
      SupplyStreams(c, s, a);
    } else {
      QuietStreams(c, s, a);
    }
  }

  lemma LiveStep(c: Config, s: State, a: Action)
    requires c.unit > 0 && Live(c, s) && !s.host.pc.CheckFailed? && !s.host.pc.Stopped?
    requires Enabled(c, s, a) && (!s.dev.pc.Quiet? ==> WellFormed(c, s.dev.request))
    ensures var t := Do(c, s, a); Ended(t) || Live(c, t)
  {
    StreamingIsShort(c, s);
    if DeviceAction(a) {
      DevicePairs(c, s, a);
      DeviceEvicts(c, s, a);
      DeviceCommits(c, s, a);
      DeviceStreams(c, s, a);
    } else {
      HostCouples(c, s, a);
      if a.PublishBlock? {
        PublishStreams(c, s);
      } else {
        if s.host.request.kind.ServeGet? && !s.host.pc.Polling? { ChunkCountIsCeiling(c.unit, s.host.request.len); }
        HostStreams(c, s, a);
      }
    }
  }

  /** A stopped host never completes a request. */
  lemma StoppedStays(c: Config, s: State, a: Action)
    requires c.unit > 0 && s.host.pc.Stopped? && Ready(c, s, a)
    ensures Do(c, s, a).host.pc.Stopped?
  {
    assert DeviceAction(a) || a.Cancel? || a.DropValue?;
  }

  lemma DeviceLogs(c: Config, s: State, a: Action)
    requires c.unit > 0 && Ready(c, s, a) && DeviceAction(a) && Logged(s)
    requires !s.host.pc.Stopped? ==> Coupled(c, s)
    ensures Logged(DeviceStep(c, s, a))
  {
  }

  lemma SupplyLogs(c: Config, s: State, a: Action)
    requires c.unit > 0 && Ready(c, s, a) && SupplyAction(a) && Logged(s)
    requires !s.host.pc.Stopped? ==> Coupled(c, s)
    ensures Logged(HostStep(c, s, a))
  {
    SupplyLeavesLogs(c, s, a);
  }

  lemma SupplyLeavesLogs(c: Config, s: State, a: Action)
    requires c.unit > 0 && Ready(c, s, a) && SupplyAction(a)
    ensures var t := HostStep(c, s, a);
            && t.posted == s.posted && t.done == s.done && t.dev.pc == s.dev.pc && t.dev.request == s.dev.request
            && t.link.moveSem == s.link.moveSem && t.link.moveProcessed == s.link.moveProcessed
            && t.host.seen == s.host.seen && !t.host.pc.Stopped? && !s.host.pc.Stopped?
  {
    if a.Begin? { BeginLeavesLogs(c, s); }
  }

  lemma BeginLeavesLogs(c: Config, s: State)
    requires c.unit > 0 && Ready(c, s, Begin)
    ensures HostStep(c, s, Begin) == s.(host := BeginStep(c, s.host))
    ensures BeginStep(c, s.host).seen == s.host.seen && !BeginStep(c, s.host).pc.Stopped?
  {
  }

  lemma StoreLogs(c: Config, s: State, a: Action)
    requires c.unit > 0 && Ready(c, s, a) && StoreAction(a) && Logged(s)
    requires !s.host.pc.Stopped? ==> Coupled(c, s)
    ensures Logged(HostStep(c, s, a))
  {
  }

  lemma HostLogs(c: Config, s: State, a: Action)
    requires c.unit > 0 && Ready(c, s, a) && !DeviceAction(a) && Logged(s)
    requires !s.host.pc.Stopped? ==> Coupled(c, s)
    requires !HostStep(c, s, a).host.pc.CheckFailed?
    ensures Logged(HostStep(c, s, a))
  {
    if SupplyAction(a) {
      SupplyLogs(c, s, a);
    } else if StoreAction(a) {
      StoreLogs(c, s, a);
    }
  }

  /** Every step of either side keeps the control invariant, unless one of the host's own checks fires. */
  lemma ControlStep(c: Config, s: State, a: Action)
    requires c.unit > 0 && Control(c, s) && Enabled(c, s, a)
    requires !Do(c, s, a).host.pc.CheckFailed?
    ensures Control(c, Do(c, s, a))
  {
    if DeviceAction(a) { DeviceLogs(c, s, a); } else { HostLogs(c, s, a); }
    if s.host.pc.Stopped? {
      StoppedStays(c, s, a);
    } else {
      LiveStep(c, s, a);
    }
  }
}
