/** No step of the device breaks the data invariant. */
module MoveChannelDevice {
  import opened Words
  import opened FreeExtents
  import opened PoolMetadata
  import opened TierSpec
  import opened MoveChannel
  import opened MoveChannelControl
  import opened BackingStore
  import opened MoveChannelData

  /** A write to a byte no stored value owns leaves every stored value as it was. */
  lemma PutKeepsImage(c: Config, s: State, own: seq<Owner>, i: nat, b: byte)
    requires ValidConfig(c) && Stored(c, s.host, own) && !LiveByte(c, own, i)
    ensures Image(Put(s.arena, i, b), s.host.values) == Image(s.arena, s.host.values)
  {
    var values := s.host.values;
    forall k | k in values && values[k].Mapped?
      ensures ValueBytes(Put(s.arena, i, b), values[k]) == ValueBytes(s.arena, values[k]) {
      var v := values[k];
      if v.at.readOff <= i < v.at.readOff + v.len {
        ByteUnit(c, v.at, v.len, i);
      }
      WindowPut(s.arena, i, b, v.at.readOff, v.len);
    }
  }

  ghost predicate DeviceMoves(c: Config, s: State, a: Action, own: seq<Owner>)
    requires c.unit > 0
  {
    Inv(c, s, own) && Enabled(c, s, a) && DeviceAction(a)
  }

  lemma DeviceRequests(c: Config, s: State, a: Action, own: seq<Owner>)
    requires c.unit > 0 && DeviceMoves(c, s, a, own)
    ensures var t := DeviceStep(c, s, a); Settled(t) && Requests(c, t) && Stored(c, t.host, own)
  {
    if a.Drain? { DrainRequests(c, s, own); }
  }

  lemma DrainRequests(c: Config, s: State, own: seq<Owner>)
    requires c.unit > 0 && DeviceMoves(c, s, Drain, own)
    ensures var t := DeviceStep(c, s, Drain); Settled(t) && Requests(c, t) && Stored(c, t.host, own)
  {
  }

  lemma DevicePushes(c: Config, s: State, a: Action, own: seq<Owner>)
    requires c.unit > 0 && DeviceMoves(c, s, a, own)
    ensures PushSafe(c, DeviceStep(c, s, a), own)
  {
    if a.PushByte? {
      var d := s.dev;
      PutExtends(s.arena, d.pc.dst, d.pc.at, d.value[d.pc.at]);
      assert d.value[..d.pc.at + 1] == d.value[..d.pc.at] + [d.value[d.pc.at]];
    } else if a.SeeAck? {
      assert Window(s.arena, s.link.ackOff, 0) == s.dev.value[..0];
    }
  }

  /** A device step never changes what the host must hold: committing a request only catches up with it. */
  lemma DeviceWants(c: Config, s: State, a: Action)
    requires c.unit > 0 && Control(c, s) && Settled(s) && Fitting(c, s.dev) && Enabled(c, s, a) && DeviceAction(a)
    ensures Wanted(DeviceStep(c, s, a)) == Wanted(s)
  {
  }

  lemma AgreementFrame(s: State, t: State)
    requires Agreement(s) && Wanted(t) == Wanted(s) && t.host.pc.Stopped? == s.host.pc.Stopped?
    requires Image(t.arena, t.host.values) == Image(s.arena, s.host.values)
    ensures Agreement(t)
  {
  }

  /** A push for one slot never changes a stored value. */
  lemma PushKeepsImage(c: Config, s: State, own: seq<Owner>)
    requires c.unit > 0 && DeviceMoves(c, s, PushByte, own)
    ensures var t := DeviceStep(c, s, PushByte); Image(t.arena, t.host.values) == Image(s.arena, s.host.values)
  {
    var d := s.dev;
    PutKeepsImage(c, s, own, d.pc.dst + d.pc.at, d.value[d.pc.at]);
  }

  lemma DeviceLeavesArena(c: Config, s: State, a: Action)
    requires c.unit > 0 && Ready(c, s, a) && DeviceAction(a) && !a.PushByte?
    ensures DeviceStep(c, s, a).arena == s.arena && DeviceStep(c, s, a).host == s.host
  {
  }

  lemma DeviceAgrees(c: Config, s: State, a: Action, own: seq<Owner>)
    requires c.unit > 0 && DeviceMoves(c, s, a, own)
    ensures Agreement(DeviceStep(c, s, a))
  {
    DeviceWants(c, s, a);
    if a.PushByte? {
      PushKeepsImage(c, s, own);
    } else {
      DeviceLeavesArena(c, s, a);
    }
    AgreementFrame(s, DeviceStep(c, s, a));
  }

  lemma DeviceInflow(c: Config, s: State, a: Action, own: seq<Owner>)
    requires c.unit > 0 && DeviceMoves(c, s, a, own)
    ensures Inflow(DeviceStep(c, s, a))
  {
    if a.PushEnd? {
      assert s.dev.value[..|s.dev.value|] == s.dev.value;
    }
  }

  lemma DeviceOutflow(c: Config, s: State, a: Action)
    requires c.unit > 0 && Control(c, s) && Requests(c, s) && Outflow(c, s) && Enabled(c, s, a) && DeviceAction(a)
    ensures Outflow(c, DeviceStep(c, s, a))
  {
  }

  /** The next byte the device reads is the next byte due. */
  lemma ReadsDue(c: Config, s: State, at: nat, src: nat)
    requires c.unit > 0 && Exposed(c, s, src) && at < s.dev.request.len == |Due(s.dev)|
    requires c.noc && s.dev.request.kind.ServeGet? ==> at / c.unit < s.link.progress
    ensures (if c.noc then At(s.arena, src + at) else At(HeapValue(c, s.dev.heap, s.dev.request), at)) == Due(s.dev)[at]
  {
    if c.noc && s.dev.request.kind.ServeGet? {
      assert at == at / c.unit * c.unit + at % c.unit;
      MulMono(at / c.unit + 1, s.link.progress, c.unit);
      assert Due(s.dev)[..Shown(c, s)][at] == Due(s.dev)[at];
      assert Window(s.arena, src, Shown(c, s))[at] == At(s.arena, src + at);
    } else if c.noc {
      assert Window(s.arena, src, s.dev.request.len)[at] == At(s.arena, src + at);
    }
  }

  lemma DeviceReads(c: Config, s: State, a: Action)
    requires c.unit > 0 && Control(c, s) && Settled(s) && Requests(c, s) && ReadSafe(c, s)
    requires Enabled(c, s, a) && DeviceAction(a)
    ensures ReadSafe(c, DeviceStep(c, s, a))
  {
    var due := Due(s.dev);
    if a.ReadByte? {
      var at := s.dev.pc.at;
      ReadsDue(c, s, at, s.dev.pc.src);
      assert due[..at + 1] == due[..at] + [due[at]];
    } else if a.TellHost? || a.ReadEnd? {
      assert due[..|due|] == due;
    }
  }

  lemma DeviceKeepsData(c: Config, s: State, a: Action, own: seq<Owner>)
    requires c.unit > 0 && DeviceMoves(c, s, a, own)
    ensures Data(c, DeviceStep(c, s, a), own)
  {
    DeviceRequests(c, s, a, own);
    DevicePushes(c, s, a, own);
    DeviceAgrees(c, s, a, own);
    DeviceInflow(c, s, a, own);
    DeviceOutflow(c, s, a);
    DeviceReads(c, s, a);
  }
}
