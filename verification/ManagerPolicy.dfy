/** The manager's policy: slot to value, one host request at a time. */
module ManagerPolicy {
  import opened Words
  import opened TierSpec
  import opened MoveChannel

  /** What a receive hands the manager; a well-behaved one fills exactly one of the two. */
  datatype Received = Received(lease: Option<HostValue>, bytes: seq<byte>)

  datatype Handled = Completed | CompletionFailed | TransferFailed | InvalidRepresentation | NotOwned | LengthMismatch

  /** The values afterwards, how it ended, and the value a supply was given. */
  datatype Attempt = Attempt(values: map<nat, HostValue>, outcome: Handled, source: Option<HostValue>)

  predicate OneRepresentation(v: Received) {
    v.lease.Some? != (v.bytes != [])
  }

  function Backing(v: Received): HostValue {
    if v.lease.Some? then v.lease.value else Heap(v.bytes)
  }

  /**
    The policy. `got` is what receiving the value returns, or nothing if it throws; `supplies` and `completes` are
    whether supplying a value and completing the request succeed. A write through that fails has already dropped the
    slot's old value.
  */
  function Handle(values: map<nat, HostValue>, r: Request, got: Option<Received>, supplies: bool,
                  completes: bool): Attempt {
    var end := if completes then Completed else CompletionFailed;
    match r.kind
    case WriteThrough =>
      if got.None? then Attempt(values - {r.slot}, TransferFailed, None)
      else if !OneRepresentation(got.value) then Attempt(values - {r.slot}, InvalidRepresentation, None)
      else Attempt(values[r.slot := Backing(got.value)], end, None)
    case RemoveBacking => Attempt(values - {r.slot}, end, None)
    case _ =>
      if r.slot !in values then Attempt(values, NotOwned, None)
      else if Length(values[r.slot]) != r.len then Attempt(values, LengthMismatch, None)
      else Attempt(values, if supplies then end else TransferFailed, Some(values[r.slot]))
  }

  class Manager {
    var values: map<nat, HostValue>
    var movesCompleted: nat

    constructor ()
      ensures values == map[] && movesCompleted == 0
    {
      values := map[];
      movesCompleted := 0;
    }

    /** `handle_host_request`: the slot is erased before its new value is received. */
    method HandleHostRequest(r: Request, got: Option<Received>, supplies: bool, completes: bool)
      returns (h: Handled, source: Option<HostValue>)
      modifies this
      ensures Attempt(values, h, source) == Handle(old(values), r, got, supplies, completes)
      ensures movesCompleted == old(movesCompleted) + (if h == Completed then 1 else 0)
      ensures r.kind.WriteThrough? ==>
                && h == (if got.None? then TransferFailed
                         else if !OneRepresentation(got.value) then InvalidRepresentation
                         else if completes then Completed else CompletionFailed)
                && values == (if got.Some? && OneRepresentation(got.value)
                              then old(values)[r.slot := Backing(got.value)] else old(values) - {r.slot})
      ensures r.kind.RemoveBacking? ==>
                h == (if completes then Completed else CompletionFailed) && values == old(values) - {r.slot}
      ensures !Inbound(r) ==>
                && values == old(values)
                && (h == NotOwned <==> r.slot !in values)
                && (h == LengthMismatch <==> r.slot in values && Length(values[r.slot]) != r.len)
                && (h == TransferFailed <==> source.Some? && !supplies)
                && (h == Completed <==> source.Some? && supplies && completes)
                && source == (if h == NotOwned || h == LengthMismatch then None else Some(values[r.slot]))
    {
      source := None;
      match r.kind {
        case WriteThrough =>
          values := values - {r.slot};
          if got.None? {
            return TransferFailed, source;
          }
          if got.value.lease.Some? == (got.value.bytes != []) {
            return InvalidRepresentation, source;
          }
          values := values[r.slot := Backing(got.value)];
        case RemoveBacking =>
          values := values - {r.slot};
        case _ =>
          if r.slot !in values {
            return NotOwned, source;
          }
          if Length(values[r.slot]) != r.len {
            return LengthMismatch, source;
          }
          source := Some(values[r.slot]);
          if !supplies {
            return TransferFailed, source;
          }
      }
      if !completes {
        return CompletionFailed, source;
      }
      movesCompleted := movesCompleted + 1;
      return Completed, source;
    }
  }

  // ----- the channel's manager-driven host does what the policy does -----

  /** The host is done with its request: it can complete it, or it has stopped. */
  predicate Over(p: HostPc) {
    p.Served? || p.Stopped? || p.CheckFailed?
  }

  /** How the host's end of a request reads as an outcome of the policy. */
  predicate Agrees(h: Host, a: Attempt) {
    && h.values == a.values
    && (a.source.Some? ==> a.source.value == Source(h))
    && match h.pc
       case Served => a.outcome.Completed?
       case Stopped(_) => a.outcome.TransferFailed?
       case _ => !a.outcome.Completed? && !a.outcome.CompletionFailed?
  }

  /** Where the values stand while the host works on a request that found them as `before`. */
  ghost predicate Follows(before: map<nat, HostValue>, h: Host) {
    var r := h.request;
    && r.slot < |h.store.meta|
    && match h.pc
       case Polling => true
       case Decoded => h.values == before
       case Erased => r.kind.WriteThrough? && h.values == before - {r.slot}
       case Reserved(_) => r.kind.WriteThrough? && h.values == before - {r.slot}
       case AckWritten(_) => r.kind.WriteThrough? && h.values == before - {r.slot}
       case AwaitPush(_) => r.kind.WriteThrough? && h.values == before - {r.slot}
       case Landed(_) => r.kind.WriteThrough? && h.values == before - {r.slot}
       case Received(_) => r.kind.WriteThrough? && h.values == before - {r.slot}
       case Served => HandledAs(before, h)
       case Stopped(_) => HandledAs(before, h)
       case CheckFailed => HandledAs(before, h)
       case _ => !Inbound(r) && h.values == before && r.slot in before && Length(before[r.slot]) == r.len
  }

  /** Some receive and some supply make the policy end the same way. */
  ghost predicate HandledAs(before: map<nat, HostValue>, h: Host) {
    exists got, supplies :: Agrees(h, Handle(before, h.request, got, supplies, true))
  }

  lemma DoneAs(before: map<nat, HostValue>, h: Host, got: Option<Received>, supplies: bool)
    requires Agrees(h, Handle(before, h.request, got, supplies, true))
    ensures HandledAs(before, h)
  {
  }

  lemma InsertFollows(before: map<nat, HostValue>, h: Host)
    requires h.pc.Received? && Follows(before, h)
    ensures Follows(before, InsertStep(h))
  {
    var v, slot := h.pc.v, h.request.slot;
    assert (before - {slot})[slot := v] == before[slot := v];
    var got := if v.Mapped? then Received.Received(Some(v), []) else Received.Received(None, v.bytes);
    DoneAs(before, InsertStep(h), Some(got), true);
  }

  /** The host stays with its request and at what the policy would have made of it. */
  ghost predicate Keeps(c: Config, s: State, a: Action, before: map<nat, HostValue>)
    requires c.unit > 0 && Ready(c, s, a)
  {
    var t := Do(c, s, a).host;
    Follows(before, t) && t.request == s.host.request && !t.pc.Polling?
  }

  ghost predicate Working(c: Config, s: State, a: Action, before: map<nat, HostValue>)
    requires c.unit > 0
  {
    c.driver.External? && Enabled(c, s, a) && Follows(before, s.host) && !Over(s.host.pc) && !s.host.pc.Polling?
  }

  lemma ReceiveFollows(c: Config, s: State, a: Action, before: map<nat, HostValue>)
    requires c.unit > 0 && Working(c, s, a, before) && (a.Erase? || a.TakeSpace? || a.ReadDevice?)
    ensures Keeps(c, s, a, before)
  {
    var t := Do(c, s, a).host;
    if Over(t.pc) {
      DoneAs(before, t, None, false);
    }
  }

  lemma PublishFollows(c: Config, s: State, a: Action, before: map<nat, HostValue>)
    requires c.unit > 0 && Working(c, s, a, before) && a.Publish?
    ensures Keeps(c, s, a, before)
  {
    var t := Do(c, s, a).host;
    if Over(t.pc) {
      DoneAs(before, t, None, false);
    }
  }

  /** A stop or a broken access ends a transfer, in either direction. */
  lemma BreakFollows(c: Config, s: State, a: Action, before: map<nat, HostValue>)
    requires c.unit > 0 && Working(c, s, a, before) && (a.Stop? || a.IoFails? || a.DropValue?)
    ensures Keeps(c, s, a, before)
  {
    DoneAs(before, Do(c, s, a).host, None, false);
  }

  lemma StoreFollows(c: Config, s: State, a: Action, before: map<nat, HostValue>)
    requires c.unit > 0 && Working(c, s, a, before) && StoreAction(a)
    ensures Keeps(c, s, a, before)
  {
    if a.Insert? {
      InsertFollows(before, s.host);
    } else if a.Publish? {
      PublishFollows(c, s, a, before);
    } else if a.Stop? || a.IoFails? || a.DropValue? {
      BreakFollows(c, s, a, before);
    } else {
      ReceiveFollows(c, s, a, before);
    }
  }

  /**
    A supply starts exactly when the policy finds the slot's value with the length asked for, and it can be handed
    over: a mapped value needs the mapping, and a copy has to fit the staging window.
  */
  lemma MachineSuppliesWhatPolicyFinds(c: Config, h: Host)
    requires !Inbound(h.request)
    ensures var a := Handle(h.values, h.request, None, true, true);
            && (a.source.Some? ==> a.source.value == Source(h))
            && (BeginStep(c, h).pc.CheckFailed? <==>
                  || a.source.None? || (!c.noc && Source(h).Mapped?)
                  || (c.noc && Source(h).Heap? && h.request.len > c.stageBytes))
  {
  }

  lemma BeginFollows(c: Config, s: State, before: map<nat, HostValue>)
    requires c.unit > 0 && Working(c, s, Begin, before)
    ensures Keeps(c, s, Begin, before)
  {
    var t := Do(c, s, Begin).host;
    if Over(t.pc) {
      DoneAs(before, t, None, false);
    }
  }

  lemma StagingFollows(c: Config, s: State, a: Action, before: map<nat, HostValue>)
    requires c.unit > 0 && Working(c, s, a, before) && StagingAction(a)
    ensures Keeps(c, s, a, before)
  {
  }

  lemma PostingFollows(c: Config, s: State, a: Action, before: map<nat, HostValue>)
    requires c.unit > 0 && Working(c, s, a, before) && PostingAction(a)
    ensures Keeps(c, s, a, before)
  {
  }

  lemma SupplyFollows(c: Config, s: State, a: Action, before: map<nat, HostValue>)
    requires c.unit > 0 && Working(c, s, a, before) && SupplyAction(a)
    ensures Keeps(c, s, a, before)
  {
    if a.Begin? {
      BeginFollows(c, s, before);
    } else if a.SeeDone? {
      DoneAs(before, Do(c, s, a).host, None, true);
    } else if StagingAction(a) {
      StagingFollows(c, s, a, before);
    } else if PostingAction(a) {
      PostingFollows(c, s, a, before);
    }
  }

  lemma PolicyStep(c: Config, s: State, a: Action, before: map<nat, HostValue>)
    requires c.unit > 0 && Working(c, s, a, before)
    ensures Keeps(c, s, a, before)
  {
    if StoreAction(a) {
      StoreFollows(c, s, a, before);
    } else if SupplyAction(a) {
      SupplyFollows(c, s, a, before);
    }
  }

  /** A run that lasts exactly until the host is done with the request in hand, whatever the device does meanwhile. */
  ghost predicate Serves(c: Config, s: State, acts: seq<Action>)
    requires c.unit > 0
    decreases |acts|
  {
    if Over(s.host.pc) then acts == []
    else acts != [] && Enabled(c, s, acts[0]) && Serves(c, Do(c, s, acts[0]), acts[1..])
  }

  lemma {:induction false} ServesRuns(c: Config, s: State, acts: seq<Action>)
    requires c.unit > 0 && Serves(c, s, acts)
    ensures Runs(c, s, acts)
    decreases |acts|
  {
    if acts != [] {
      ServesRuns(c, Do(c, s, acts[0]), acts[1..]);
    }
  }

  lemma {:induction false} FollowsToTheEnd(c: Config, s: State, acts: seq<Action>, before: map<nat, HostValue>)
    requires c.unit > 0 && c.driver.External? && Runs(c, s, acts) && Serves(c, s, acts)
    requires Follows(before, s.host) && !s.host.pc.Polling?
    ensures var t := After(c, s, acts).host;
            Over(t.pc) && t.request == s.host.request && HandledAs(before, t)
    decreases |acts|
  {
    if acts != [] {
      PolicyStep(c, s, acts[0], before);
      FollowsToTheEnd(c, Do(c, s, acts[0]), acts[1..], before);
    }
  }

  /**
    The manager-driven host of the channel handles a request as the policy does: from the request just polled until it
    is served, stopped or refused, over every interleaving with the device, the stored values and the way it ends are
    those of `Handle` for what was received and whether the supply succeeded.
  */
  lemma MachineFollowsPolicy(c: Config, s: State, acts: seq<Action>)
    requires c.unit > 0 && c.driver.External? && s.host.pc.Decoded? && s.host.request.slot < |s.host.store.meta|
    requires Serves(c, s, acts)
    ensures Runs(c, s, acts)
    ensures var t := After(c, s, acts).host;
            exists got, supplies :: Agrees(t, Handle(s.host.values, s.host.request, got, supplies, true))
  {
    ServesRuns(c, s, acts);
    FollowsToTheEnd(c, s, acts, s.host.values);
  }
}
