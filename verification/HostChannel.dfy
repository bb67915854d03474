/** The manager's side of the move channel as the runtime keeps it: the request in hand and the counters. */
module HostChannel {
  import opened Words
  import opened TierSpec
  import opened MoveChannel
  import BankLayout
  import ServerCore

  datatype PollResult = Idle | Got | Rejected

  class ExternalRequests {
    const c: Config
    var active: bool
    var phase: Phase
    var sequence: u32
    var request: Request
    var seen: u32
    var evictIssued: u32
    var commitIssued: u32
    var cancelled: bool

    ghost predicate Valid() {
      c.unit > 0 && c.driver.External?
    }

    /** This object as the host of the channel machine, at `pc` and holding `values` and `store`. */
    ghost function AsHost(pc: HostPc, values: map<nat, HostValue>, store: Store): Host
      reads this
    {
      Host(pc, values, store, active, phase, sequence, request, seen, commitIssued, evictIssued, cancelled)
    }

    constructor (c: Config, counter: u32)
      requires c.unit > 0 && c.driver.External?
      ensures Valid() && this.c == c
      ensures AsHost(Polling, map[], StoreAtStart(c)) == StartAt(c, counter, []).host
    {
      this.c := c;
      active := false;
      phase := Pending;
      sequence := counter;
      request := NO_REQUEST;
      seen := counter;
      evictIssued := counter;
      commitIssued := counter;
      cancelled := false;
    }

    /**
      The layout checks of a decoded request, in the order the poll makes them. A removal carries nothing, only a
      promote carries a key, and every value lies in whole units of the device heap, unless it was never allocated.
    */
    method CheckLayout(r: Request) returns (ok: bool)
      requires Valid()
      ensures ok == WellFormed(c, r)
      ensures ok <==>
                && r.slot < c.maxKeys && r.keyLen <= c.maxKeyLen && (r.keyLen > 0 <==> r.kind.PromoteToDevice?)
                && if r.kind.RemoveBacking? then r.off == 0 && r.len == 0
                   else 0 < r.len <= c.maxValue && (InHeap(r) || (r.kind.ServeGet? && r.off == 0))
    {
      RangeIsPages(r);
      if r.slot >= c.maxKeys || r.keyLen > c.maxKeyLen {
        return false;
      }
      if r.kind.RemoveBacking? {
        return r.off == 0 && r.len == 0 && r.keyLen == 0;
      }
      if r.len == 0 || r.len > c.maxValue {
        return false;
      }
      var keyShapeValid := if r.kind.PromoteToDevice? then r.keyLen > 0 else r.keyLen == 0;
      if !keyShapeValid {
        return false;
      }
      var valueEnd := r.off + ChunkCount(c.unit, r.len) * c.unit;
      var mayBeUnallocated := r.kind.ServeGet? && r.off == 0;
      return mayBeUnallocated || (r.off % c.unit == 0 && valueEnd <= c.heapBytes);
    }

    /** The request's pages are whole units of the device heap. */
    ghost predicate InHeap(r: Request)
      requires Valid()
    {
      exists unit: nat :: r.off == unit * c.unit && (unit + ChunkCount(c.unit, r.len)) * c.unit <= c.heapBytes
    }

    /** Alignment and the bound on the last byte say just that. */
    lemma RangeIsPages(r: Request)
      requires Valid()
      ensures r.off % c.unit == 0 && r.off + ChunkCount(c.unit, r.len) * c.unit <= c.heapBytes <==> InHeap(r)
    {
      var n := ChunkCount(c.unit, r.len);
      if r.off % c.unit == 0 {
        var q := r.off / c.unit;
        assert r.off == q * c.unit;
        assert (q + n) * c.unit == q * c.unit + n * c.unit;
      }
      if unit: nat :| r.off == unit * c.unit && (unit + n) * c.unit <= c.heapBytes {
        assert (unit + n) * c.unit == unit * c.unit + n * c.unit;
        BankLayout.ModUnique(c.unit, unit, 0, r.off);
      }
    }

    /**
      `poll_external_host_request`, on the semaphore and slot one scoped read returned. It needs a core that is running
      or closing, and sees nothing while its workload is not running.
    */
    method Poll(lifecycle: ServerCore.CoreState, running: bool, moveSem: u32, decoded: Request, ghost s: State)
      returns (r: PollResult)
      requires Valid() && s.link.moveSem == moveSem && s.link.slot == decoded
      requires s.host == AsHost(Polling, s.host.values, s.host.store)
      modifies this
      ensures r.Rejected? <==> !(lifecycle.Ready? || lifecycle.Closing?) || old(active)
                               || (running && Ready(c, s, MoveChannel.Poll) && PollStep(c, s).pc.CheckFailed?)
      ensures r.Idle? ==> !running || !Ready(c, s, MoveChannel.Poll)
      ensures r.Got? ==> running && Ready(c, s, MoveChannel.Poll)
      ensures r.Rejected? <==>
                !(lifecycle.Ready? || lifecycle.Closing?) || old(active)
                || (running && !cancelled && moveSem != old(seen)
                    && (moveSem != Next(old(seen)) || !WellFormed(c, decoded)))
      ensures r.Idle? <==>
                (lifecycle.Ready? || lifecycle.Closing?) && !old(active)
                && (!running || cancelled || moveSem == old(seen))
      ensures r.Got? ==> active && request == decoded && sequence == moveSem == Next(old(seen)) && phase.Pending?
      ensures seen == old(seen) && cancelled == old(cancelled)
      ensures r.Got? ==> AsHost(Decoded, s.host.values, s.host.store) == PollStep(c, s)
      ensures !r.Got? ==> AsHost(Polling, s.host.values, s.host.store) == s.host
    {
      if !(lifecycle.Ready? || lifecycle.Closing?) || active {
        return Rejected;
      }
      if cancelled || !running || moveSem == seen {
        return Idle;
      }
      if moveSem != Next(seen) {
        return Rejected;
      }
      var ok := CheckLayout(decoded);
      if !ok {
        return Rejected;
      }
      active, phase, sequence, request := true, Pending, moveSem, decoded;
      return Got;
    }

    /** `validate_external_request`: the request handed back must be the one in hand. */
    predicate Matches(r: Request, number: u32)
      reads this
    {
      active && number == sequence && r.slot == request.slot && r.len == request.len && r.off == request.off
      && r.kind == request.kind
    }

    /** `complete_external_host_request`; `processed` is the word written to `move_processed`. */
    method Complete(r: Request, number: u32, ghost s: State) returns (ok: bool, processed: u32)
      requires Valid() && s.host == AsHost(Served, s.host.values, s.host.store)
      modifies this
      ensures ok == (old(Matches(r, number)) && !FinishStep(c, s).host.pc.CheckFailed?)
      ensures ok ==> AsHost(Polling, s.host.values, s.host.store) == FinishStep(c, s).host
      ensures ok ==> processed == FinishStep(c, s).link.moveProcessed
      ensures ok <==> old(active) && number == old(sequence) && r.(keyLen := 0) == old(request).(keyLen := 0)
                      && (old(phase).Complete? || (old(phase).Pending? && r.kind.RemoveBacking?))
      ensures ok ==> processed == seen == number && !active
      ensures !ok ==> AsHost(Served, s.host.values, s.host.store) == s.host
    {
      if !Matches(r, number) {
        return false, seen;
      }
      var removeWithoutTransfer := r.kind.RemoveBacking? && phase.Pending?;
      if !removeWithoutTransfer && !phase.Complete? {
        return false, seen;
      }
      processed := number;
      seen := number;
      active := false;
      return true, processed;
    }
  }
}
