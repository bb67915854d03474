/** The data invariant of the move channel: what every stored byte, extent and directory entry must be. */
module MoveChannelData {
  import opened Words
  import opened FreeExtents
  import opened PoolMetadata
  import opened TierSpec
  import opened MoveChannel
  import opened MoveChannelControl
  import opened BackingStore

  // ----- memory -----

  lemma WindowPut(m: seq<byte>, i: nat, b: byte, off: nat, len: nat)
    requires i < off || i >= off + len
    ensures Window(Put(m, i, b), off, len) == Window(m, off, len)
  {
    var w, v := Window(Put(m, i, b), off, len), Window(m, off, len);
    forall j | 0 <= j < len ensures w[j] == v[j] {
      assert w[j] == At(Put(m, i, b), off + j);
      assert v[j] == At(m, off + j);
      assert off + j != i;
    }
  }

  lemma WindowPrefix(m: seq<byte>, off: nat, len: nat, k: nat)
    requires k <= len
    ensures Window(m, off, len)[..k] == Window(m, off, k)
  {
  }

  lemma PutExtends(m: seq<byte>, off: nat, n: nat, b: byte)
    requires off + n < |m|
    ensures Window(Put(m, off + n, b), off, n + 1) == Window(m, off, n) + [b]
  {
    WindowPut(m, off + n, b, off, n);
    ReadExtends(Put(m, off + n, b), off, n);
  }

  lemma ReadExtends(m: seq<byte>, off: nat, n: nat)
    ensures Window(m, off, n + 1) == Window(m, off, n) + [At(m, off + n)]
  {
  }

  // ----- ownership of bytes -----

  ghost predicate LiveUnit(own: seq<Owner>, u: int) {
    0 <= u < |own| && own[u].ValueOf?
  }

  /** The byte belongs to a stored value's extent. */
  ghost predicate LiveByte(c: Config, own: seq<Owner>, i: nat)
    requires c.unit > 0
  {
    c.poolOff <= i && LiveUnit(own, (i - c.poolOff) / c.unit)
  }

  /** No stored value has a byte in the range. */
  ghost predicate Clear(c: Config, own: seq<Owner>, off: nat, len: nat)
    requires c.unit > 0
  {
    off + len <= SliceBytes(c) && forall i: nat | off <= i < off + len :: !LiveByte(c, own, i)
  }

  /** Every byte of a placed value lies in one of its extent's units. */
  lemma ByteUnit(c: Config, r: Reservation, len: nat, i: nat)
    requires ValidConfig(c) && Placed(c, r, len) && r.readOff <= i < r.readOff + len
    ensures c.poolOff <= i < SliceBytes(c)
    ensures r.unit <= (i - c.poolOff) / c.unit < r.unit + r.units
  {
    ChunkCountIsCeiling(c.unit, len);
    DivBounds(i - c.poolOff, r.unit, r.units, c.unit);
    MulMono(r.unit + r.units, c.total, c.unit);
  }

  /** The extent in transit holds no stored value's byte. */
  lemma TransitIsClear(c: Config, own: seq<Owner>, r: Reservation, len: nat)
    requires ValidConfig(c) && |own| == c.total && Placed(c, r, len) && Owned(own, r, Transfer)
    ensures Clear(c, own, r.readOff, len)
  {
    forall i: nat | r.readOff <= i < r.readOff + len ensures !LiveByte(c, own, i) && i < SliceBytes(c) {
      ByteUnit(c, r, len, i);
    }
    ByteUnit(c, r, len, r.readOff + len - 1);
  }

  lemma StagingIsClear(c: Config, own: seq<Owner>, len: nat)
    requires ValidConfig(c) && len <= c.stageBytes
    ensures Clear(c, own, 0, len)
  {
  }

  // ----- the abstraction -----

  function EntryOf(arena: seq<byte>, v: HostValue): Entry {
    Entry(ValueBytes(arena, v), if v.Mapped? then v.at.generation else 0)
  }

  /** The stored values as plain bytes. */
  function Image(arena: seq<byte>, values: Values): map<nat, Entry> {
    map k | k in values :: EntryOf(arena, values[k])
  }

  /** The host has dropped the slot's old value and has not stored the new one. */
  predicate Emptied(p: HostPc) {
    p.Erased? || p.Reserved? || p.AckWritten? || p.AwaitPush? || p.Landed? || p.Received?
  }

  /** What the host must be holding: the directory, updated as far as the request in flight has got. */
  function Wanted(s: State): map<nat, Entry> {
    var d := s.dev;
    if d.pc.Quiet? || d.pc.SlotWritten? || !Inbound(d.request) then d.dir
    else if d.pc.Draining? && (s.link.moveSem == s.link.moveProcessed || s.host.pc.Served?) then DrainStep(d).dir
    else if Emptied(s.host.pc) then d.dir - {d.request.slot}
    else d.dir
  }

  /** The stored values are exactly what is wanted; a stopped host may already have dropped some. */
  ghost predicate Agreement(s: State) {
    var image, w := Image(s.arena, s.host.values), Wanted(s);
    (forall k | k in image :: k in w && image[k] == w[k]) && (!s.host.pc.Stopped? ==> image == w)
  }

  // ----- the invariant, group by group -----

  /** Away from the two ack waits the device has seen every acknowledgement, stopped host or not. */
  predicate Settled(s: State) {
    && (!s.dev.pc.AwaitAck? ==> s.link.ackSem == s.dev.ackSeen)
    && (s.dev.pc.AwaitAck? || s.dev.pc.Pushing? ==> s.link.moveSem != s.link.moveProcessed)
    && (!s.dev.pc.AwaitCommit? ==> s.link.commitSem == s.dev.commitSeen)
  }

  /** Pushes belong to writes through, reads to supplies. */
  predicate Fitting(c: Config, d: Device) {
    match d.pc
    case AwaitAck => c.noc && d.request.kind.WriteThrough?
    case Pushing(_, _, _) => c.noc && d.request.kind.WriteThrough?
    case Draining(generation) => !c.noc ==> generation == 0
    case AwaitCommit => !Inbound(d.request)
    case Reading(_, _) => !Inbound(d.request)
    case Consumed => !Inbound(d.request)
    case _ => true
  }

  ghost predicate Requests(c: Config, s: State)
    requires c.unit > 0
  {
    && Fitting(c, s.dev)
    && |s.arena| == SliceBytes(c)
    && (forall k | k in s.dev.dir :: 0 < |s.dev.dir[k].bytes| <= c.maxValue)
    && (!s.dev.pc.Quiet? ==> Contract(c, s.dev, s.dev.request, s.dev.value, s.dev.heap))
  }

  function InTransit(h: Host): Option<Transit> {
    if h.pc.Received? then
      if h.pc.v.Mapped? then Some(Transit(h.request.slot, h.pc.v.at, h.pc.v.len, true)) else None
    else if h.pc.Stopped? then
      if h.pc.orphan.Some? then Some(Transit(h.request.slot, h.pc.orphan.value, h.request.len, false)) else None
    else if Held(h.pc).Some? then Some(Transit(h.request.slot, Held(h.pc).value, h.request.len, false))
    else None
  }

  ghost predicate Stored(c: Config, h: Host, own: seq<Owner>)
    requires c.unit > 0
  {
    StoreInv(c, h.values, h.store, InTransit(h), own) && (Emptied(h.pc) ==> h.request.slot !in h.values)
  }

  function OffsetOf(r: Option<Reservation>): nat {
    if r.Some? then r.value.readOff else 0
  }

  function GenerationOf(r: Option<Reservation>): u32 {
    if r.Some? then r.value.generation else 0
  }

  /** Wherever the device may push, no stored value can be hit; what it has pushed is its value. */
  ghost predicate PushSafe(c: Config, s: State, own: seq<Owner>)
    requires c.unit > 0
  {
    var d := s.dev;
    && (d.pc.AwaitAck? && s.link.ackSem != d.ackSeen ==> Clear(c, own, s.link.ackOff, d.request.len))
    && (d.pc.Pushing? ==>
          && Clear(c, own, d.pc.dst, d.request.len) && d.pc.at <= |d.value|
          && Window(s.arena, d.pc.dst, d.pc.at) == d.value[..d.pc.at])
  }

  /** The value has arrived where reservation `r` says, under the generation published for it. */
  ghost predicate Arrived(s: State, r: Option<Reservation>) {
    && s.dev.pc.Draining? && s.dev.pc.generation == GenerationOf(r)
    && Window(s.arena, OffsetOf(r), s.host.request.len) == s.dev.value
  }

  ghost predicate Inflow(s: State) {
    var h, l, d := s.host, s.link, s.dev;
    match h.pc
    case AckWritten(r) => l.ackOff == OffsetOf(r) && l.ackGeneration == GenerationOf(r)
    case AwaitPush(r) =>
      && (d.pc.AwaitAck? ==> l.ackOff == OffsetOf(r) && l.ackGeneration == GenerationOf(r))
      && (d.pc.Pushing? ==> d.pc.dst == OffsetOf(r) && d.pc.generation == GenerationOf(r))
      && (d.pc.Draining? ==> Arrived(s, r))
    case Landed(r) => Arrived(s, r)
    case Received(v) => d.pc.Draining? && EntryOf(s.arena, v) == Entry(d.value, d.pc.generation)
    case _ => true
  }

  /** The bytes a supply must deliver. */
  function Due(d: Device): seq<byte> {
    if d.request.slot in d.dir then d.dir[d.request.slot].bytes else []
  }

  predicate Supplying(d: Device) {
    !d.pc.Quiet? && !d.pc.SlotWritten? && !Inbound(d.request)
  }

  /** The bytes published so far, at most the whole value. */
  function Shown(c: Config, s: State): nat {
    Min(s.link.progress * c.unit, s.dev.request.len)
  }

  /** What the host has staged is a prefix of the value, long enough for what it has published. */
  ghost predicate Outflow(c: Config, s: State)
    requires c.unit > 0
  {
    var h, d := s.host, s.dev;
    match h.pc
    case Copying(at) =>
      Source(h).Heap? && at <= h.request.len && Window(s.arena, 0, at) == Due(d)[..Min(at, |Due(d)|)]
    case ZeroProgress => c.noc && h.request.kind.ServeGet?
    case PostingSlot => InPlace(c, s)
    case PostingSem => InPlace(c, s) && s.link.commit == CommitOf(h) && Addressed(s)
    case Streaming(base, at) =>
      && s.link.commit == CommitOf(h) && Addressed(s)
      && (Source(h).Heap? ==>
            Shown(c, s) <= at <= h.request.len && Window(s.arena, 0, at) == Due(d)[..Min(at, |Due(d)|)])
    case _ => true
  }

  /** Before the commit is posted, whatever is not streamed is already in place. */
  ghost predicate InPlace(c: Config, s: State) {
    if !c.noc then HeapValue(c, s.dev.heap, s.dev.request) == Due(s.dev)
    else s.host.request.kind.PromoteToDevice? ==>
      Window(s.arena, ReadOffset(Source(s.host)), s.host.request.len) == Due(s.dev)
  }

  /** The device can read at `src` only bytes of the value it asked for. */
  ghost predicate Exposed(c: Config, s: State, src: nat) {
    if !c.noc then HeapValue(c, s.dev.heap, s.dev.request) == Due(s.dev)
    else if s.dev.request.kind.ServeGet? then
      Window(s.arena, src, Shown(c, s)) == Due(s.dev)[..Min(Shown(c, s), |Due(s.dev)|)]
    else Window(s.arena, src, s.dev.request.len) == Due(s.dev)
  }

  /** The commit request names the slot, the destination, the length and the key length the device asked for. */
  predicate Addressed(s: State) {
    var k, r := s.link.commit, s.dev.request;
    k.slot == r.slot && k.off == r.off && k.len == r.len && k.keyLen == r.keyLen
  }

  ghost predicate ReadSafe(c: Config, s: State) {
    var d := s.dev;
    Supplying(d) ==>
      match d.pc
      case AwaitCommit => s.link.commitSem != d.commitSeen ==> Addressed(s) && Exposed(c, s, s.link.commit.readOff)
      case Reading(src, at) =>
        Addressed(s) && at <= |Due(d)| && src == s.link.commit.readOff && Exposed(c, s, src) && d.got == Due(d)[..at]
      case Consumed => d.got == Due(d)
      case Draining(_) => d.got == Due(d)
      case _ => true
  }

  ghost predicate Data(c: Config, s: State, own: seq<Owner>)
    requires c.unit > 0
  {
    && Settled(s) && Requests(c, s) && Stored(c, s.host, own) && Agreement(s)
    && PushSafe(c, s, own) && Inflow(s) && Outflow(c, s) && ReadSafe(c, s)
  }

  ghost predicate Inv(c: Config, s: State, own: seq<Owner>)
    requires c.unit > 0
  {
    ValidConfig(c) && Control(c, s) && Data(c, s, own)
  }
}
