/**
  The single-slot move channel between the device kernel and the host tiering worker, one atomic step at a
  time. The host is either driver of the protocol; the device is any party that keeps the documented contract.
*/
module MoveChannel {
  import opened Words
  import opened PoolMetadata
  import opened TierSpec
  import opened BankLayout
  import opened DeviceHeap

  datatype Kind = WriteThrough | RemoveBacking | PromoteToDevice | ServeGet

  datatype Request = Request(kind: Kind, slot: nat, off: nat, len: nat, keyLen: nat)

  const NO_REQUEST := Request(RemoveBacking, 0, 0, 0, 0)

  datatype Commit = Commit(slot: nat, off: nat, len: nat, keyLen: nat, readOff: nat)

  /** The words the two sides share in device memory, and the completion word in the host slice. */
  datatype Link = Link(
    moveSem: u32, slot: Request, moveProcessed: u32,
    ackSem: u32, ackOff: nat, ackGeneration: u32, evictDone: u32,
    commitSem: u32, commit: Commit, progress: nat, promoteDone: u32,
    hostDone: u32)

  datatype Phase = Pending | InProgress | Complete

  /** Where the worker is between two steps. A stopped worker may have left a reservation behind. */
  datatype HostPc =
    | Polling
    | Decoded
    | Erased
    | Reserved(r: Option<Reservation>)
    | AckWritten(r: Option<Reservation>)
    | AwaitPush(r: Option<Reservation>)
    | Landed(r: Option<Reservation>)
    | Received(v: HostValue)
    | Copying(at: nat)
    | WritingDram
    | ZeroProgress
    | PostingSlot
    | PostingSem
    | Streaming(base: nat, at: nat)
    | AwaitDone
    | Served
    | Stopped(orphan: Option<Reservation>)
    | CheckFailed

  datatype Host = Host(
    pc: HostPc, values: map<nat, HostValue>, store: Store,
    active: bool, phase: Phase, sequence: u32, request: Request,
    seen: u32, commitIssued: u32, evictIssued: u32, cancelled: bool)

  datatype DevicePc =
    | Quiet
    | SlotWritten
    | AwaitAck
    | Pushing(dst: nat, generation: u32, at: nat)
    | AwaitCommit
    | Reading(src: nat, at: nat)
    | Consumed
    | Draining(generation: u32)

  /** What the directory records of a committed slot: the bytes written through, and their generation. */
  datatype Entry = Entry(bytes: seq<byte>, generation: u32)

  datatype Device = Device(
    pc: DevicePc, request: Request, value: seq<byte>, got: seq<byte>,
    ackSeen: u32, commitSeen: u32, dir: map<nat, Entry>, heap: Memory)

  /** `posted` and `done` log the requests posted and completed, oldest first. */
  datatype State = State(host: Host, link: Link, dev: Device, arena: seq<byte>, posted: seq<Request>,
      done: seq<Request>)

  datatype Action =
    // device
    | WriteSlot(request: Request, value: seq<byte>, heap: Memory) | PostMove | SeeAck | PushByte | PushEnd
    | SeeCommit | ReadByte | TellHost | ReadEnd | Drain
    // host, value in
    | Poll | Erase | TakeSpace | WriteAck | PostAck | SeePush | Publish(leaseFails: bool) | ReadDevice | Insert
    // host, value out
    | Begin | CopyByte | WriteBlock | ClearProgress | WriteCommit | PostCommit | StreamByte | PublishBlock | SeeDone
    // host, completion and shutdown
    | Finish | Cancel | Stop | IoFails | DropValue(slot: nat)

  // ----- memory -----

  function At(m: seq<byte>, i: nat): byte {
    if i < |m| then m[i] else 0
  }

  function Put(m: seq<byte>, i: nat, b: byte): seq<byte> {
    if i < |m| then m[i := b] else m
  }

  function Window(m: seq<byte>, off: nat, len: nat): seq<byte> {
    seq<byte>(len, i requires 0 <= i < len => At(m, off + i))
  }

  /** The bytes a backing value stands for. */
  function ValueBytes(arena: seq<byte>, v: HostValue): seq<byte> {
    match v case Mapped(r, len) => Window(arena, r.readOff, len) case Heap(b) => b
  }

  // ----- device contract -----

  /** The checks the poll applies to a decoded request. */
  predicate WellFormed(c: Config, r: Request)
    requires c.unit > 0
  {
    && r.slot < c.maxKeys && r.keyLen <= c.maxKeyLen
    && (if r.kind.RemoveBacking? then r.off == 0 && r.len == 0 && r.keyLen == 0
        else
          && 0 < r.len <= c.maxValue
          && (if r.kind.PromoteToDevice? then r.keyLen > 0 else r.keyLen == 0)
          && ((r.kind.ServeGet? && r.off == 0)
              || (r.off % c.unit == 0 && r.off + ChunkCount(c.unit, r.len) * c.unit <= c.heapBytes)))
  }

  /** The heap has every page of the value the request names. */
  ghost predicate HeapHolds(c: Config, m: Memory, r: Request) {
    ValidLayout(c.heap) && Holds(c.heap, m, r.off / c.heap.unit, ChunkCount(c.heap.unit, r.len))
  }

  /** The bytes at the request's offset of the device heap, gathered from its banks. */
  ghost function HeapValue(c: Config, m: Memory, r: Request): seq<byte> {
    if HeapHolds(c, m, r) then ReadValue(c.heap, m, r.off / c.heap.unit, r.len) else []
  }

  /** The heap after a value is written at the request's offset, page by page. */
  ghost function HeapWith(c: Config, m: Memory, r: Request, value: seq<byte>): Memory {
    if ValidLayout(c.heap) then StoreValue(c.heap, m, r.off / c.heap.unit, value) else m
  }

  lemma HeapRoundTrip(c: Config, m: Memory, r: Request, value: seq<byte>)
    requires HeapHolds(c, m, r) && |value| == r.len
    ensures HeapHolds(c, HeapWith(c, m, r, value), r) && HeapValue(c, HeapWith(c, m, r, value), r) == value
  {
    StoredReads(c.heap, m, r.off / c.heap.unit, value);
  }

  /**
    The device writes through any value, and asks back only for what its directory holds. Without host mapping the
    value it writes through is in its heap at the offset it names, and a supply's destination is there.
  */
  ghost predicate Contract(c: Config, d: Device, r: Request, value: seq<byte>, heap: Memory)
    requires c.unit > 0
  {
    && WellFormed(c, r)
    && (!c.noc && !r.kind.RemoveBacking? ==> HeapHolds(c, heap, r))
    && (!c.noc && r.kind.WriteThrough? ==> HeapValue(c, heap, r) == value)
    && (r.kind.WriteThrough? ==> |value| == r.len)
    && (r.kind.PromoteToDevice? || r.kind.ServeGet? ==> r.slot in d.dir && |d.dir[r.slot].bytes| == r.len)
  }

  function Inbound(r: Request): bool {
    r.kind.WriteThrough? || r.kind.RemoveBacking?
  }

  /** The reservation a write through is waiting on. */
  function Held(p: HostPc): Option<Reservation> {
    if p.Reserved? || p.AckWritten? || p.AwaitPush? || p.Landed? then p.r else None
  }

  /** Between two device accesses of a transfer, where an access that throws ends the worker without any rollback. */
  predicate Transferring(c: Config, p: HostPc) {
    || p.Reserved? || p.AckWritten? || p.AwaitPush? || (p.Erased? && !c.noc)
    || p.WritingDram? || p.ZeroProgress? || p.PostingSlot? || p.PostingSem? || p.Streaming? || p.AwaitDone?
  }

  // ----- enabling conditions -----

  /** The side that takes the step is at the right place, and the counters it waits on have moved. */
  predicate Ready(c: Config, s: State, a: Action) {
    var h, l, d := s.host, s.link, s.dev;
    match a
    case WriteSlot(_, _, _) => d.pc.Quiet? && l.moveSem == l.moveProcessed
    case PostMove => d.pc.SlotWritten?
    case SeeAck => d.pc.AwaitAck? && l.ackSem != d.ackSeen
    case PushByte => d.pc.Pushing? && d.pc.at < |d.value|
    case PushEnd => d.pc.Pushing? && d.pc.at == |d.value|
    case SeeCommit => d.pc.AwaitCommit? && l.commitSem != d.commitSeen
    case ReadByte => d.pc.Reading? && d.pc.at < d.request.len
    case TellHost => d.pc.Reading? && d.pc.at == d.request.len && c.noc
    case ReadEnd => d.pc.Consumed? || (d.pc.Reading? && d.pc.at == d.request.len && !c.noc)
    case Drain => d.pc.Draining? && l.moveProcessed == l.moveSem
    case Poll => h.pc.Polling? && !h.cancelled && l.moveSem != h.seen
    case Erase =>
      h.pc.Decoded? && (h.request.kind.RemoveBacking?
                        || (h.request.kind.WriteThrough? && (c.driver.External? || !c.noc)))
    case TakeSpace =>
      c.noc && ((c.driver.External? && h.pc.Erased?)
                || (c.driver.Internal? && h.pc.Decoded? && h.request.kind.WriteThrough?))
    case WriteAck => h.pc.Reserved?
    case PostAck => h.pc.AckWritten?
    case SeePush => h.pc.AwaitPush? && !h.cancelled && l.evictDone == h.evictIssued
    case Publish(leaseFails) => h.pc.Landed? && (leaseFails ==> c.driver.External? && h.pc.r.Some?)
    case ReadDevice => h.pc.Erased? && !c.noc
    case Insert => h.pc.Received?
    case Begin => h.pc.Decoded? && !Inbound(h.request)
    case CopyByte => h.pc.Copying?
    case WriteBlock => h.pc.WritingDram?
    case ClearProgress => h.pc.ZeroProgress?
    case WriteCommit => h.pc.PostingSlot?
    case PostCommit => h.pc.PostingSem?
    case StreamByte => h.pc.Streaming?
    case PublishBlock => h.pc.Streaming?
    case SeeDone =>
      h.pc.AwaitDone? && !h.cancelled
      && ((c.noc && l.hostDone == h.commitIssued) || l.promoteDone == h.commitIssued)
    case Finish => h.pc.Served?
    case Cancel => !h.cancelled
    case Stop => h.cancelled && (h.pc.Polling? || h.pc.AwaitPush? || h.pc.AwaitDone?)
    case IoFails => Transferring(c, h.pc)
    case DropValue(slot) => c.driver.External? && h.pc.Stopped? && slot in h.values
  }

  /** The device keeps its contract, and staging blocks are copied before they are published. */
  ghost predicate Permitted(c: Config, s: State, a: Action)
    requires c.unit > 0 && Ready(c, s, a)
  {
    match a
    case WriteSlot(r, v, heap) => Contract(c, s.dev, r, v, heap)
    case ReadByte => c.noc && s.dev.request.kind.ServeGet? ==> s.dev.pc.at / c.unit < s.link.progress
    case StreamByte => Source(s.host).Heap? && s.host.pc.at < BlockEnd(c, s.host)
    case PublishBlock => Source(s.host).Heap? ==> s.host.pc.at >= BlockEnd(c, s.host)
    case _ => true
  }

  ghost predicate Enabled(c: Config, s: State, a: Action)
    requires c.unit > 0
  {
    Ready(c, s, a) && Permitted(c, s, a)
  }

  /** The backing value a supply reads from. */
  function Source(h: Host): HostValue {
    if h.request.slot in h.values then h.values[h.request.slot] else Heap([])
  }

  function Chunks(c: Config, h: Host): nat
    requires c.unit > 0
  {
    ChunkCount(c.unit, h.request.len)
  }

  /** Chunks published once the current staging block is. */
  function BlockChunks(c: Config, h: Host): nat
    requires c.unit > 0 && h.pc.Streaming?
  {
    if h.pc.base < Chunks(c, h) then h.pc.base + Min(c.blockChunks, Chunks(c, h) - h.pc.base) else h.pc.base
  }

  /** The byte the current staging block ends at. */
  function BlockEnd(c: Config, h: Host): nat
    requires c.unit > 0 && h.pc.Streaming?
  {
    Min(BlockChunks(c, h) * c.unit, h.request.len)
  }

  // ----- host steps -----

  function RetireSlot(c: Config, h: Host, slot: nat): Host {
    if slot in h.values && slot < |h.store.meta|
    then h.(values := h.values - {slot}, store := Retire(c, h.store, slot, h.values[slot]))
    else h
  }

  function PollStep(c: Config, s: State): Host
    requires c.unit > 0
  {
    var h, l := s.host, s.link;
    var checked := !h.active && l.moveSem == Next(h.seen) && WellFormed(c, l.slot);
    if c.driver.External? && !checked then h.(pc := CheckFailed)
    else h.(pc := Decoded, active := true, phase := Pending, sequence := l.moveSem, request := l.slot)
  }

  function EraseStep(c: Config, h: Host): Host {
    var g := RetireSlot(c, h, h.request.slot);
    g.(pc := if h.request.kind.RemoveBacking? then Served else Erased)
  }

  function TakeSpaceStep(c: Config, h: Host): Host
    requires c.unit > 0
  {
    if h.request.slot >= |h.store.meta| || h.request.slot >= |h.store.generations| then h.(pc := CheckFailed)
    else
      // The worker drops the old value and reserves under one lock; the manager erased it beforehand.
      var g := if c.driver.Internal? then RetireSlot(c, h, h.request.slot) else h;
      var (store, r) := Reserve(c, g.store, h.request.slot, h.request.len);
      g.(pc := Reserved(r), store := store, phase := InProgress)
  }

  /** The value a landed push leaves behind: the reserved extent, or a copy of the staging window. */
  function LandedValue(s: State): HostValue
    requires s.host.pc.Landed?
  {
    match s.host.pc.r
    case Some(r) => Mapped(r, s.host.request.len)
    case None => Heap(Window(s.arena, 0, s.host.request.len))
  }

  /** Hands a value over: the worker stores it, the manager holds it until it has checked it. */
  function Deliver(c: Config, h: Host, v: HostValue): Host {
    if c.driver.External?
    then h.(pc := Received(v), store := Track(h.store, v), phase := Complete)
    else h.(pc := Served, values := h.values[h.request.slot := v], phase := Complete)
  }

  function PublishStep(c: Config, s: State, leaseFails: bool): Host
    requires s.host.pc.Landed?
  {
    var h := s.host;
    if leaseFails && h.request.slot < |h.store.meta|
    then h.(pc := Stopped(None), store := Abandon(c, h.store, h.request.slot, h.pc.r))
    else Deliver(c, h, LandedValue(s))
  }

  function InsertStep(h: Host): Host
    requires h.pc.Received?
  {
    // Exactly one representation: a mapped lease, or nonempty bytes.
    if h.pc.v.Heap? && h.pc.v.bytes == [] then h.(pc := CheckFailed)
    else h.(pc := Served, values := h.values[h.request.slot := h.pc.v])
  }

  function BeginStep(c: Config, h: Host): Host {
    var v := Source(h);
    var staged := c.noc && v.Heap?;
    if h.request.slot !in h.values || Length(v) != h.request.len then h.(pc := CheckFailed)
    else if (!c.noc && v.Mapped?) || (staged && h.request.len > c.stageBytes) then h.(pc := CheckFailed)
    else
      h.(commitIssued := Next(h.commitIssued), phase := InProgress,
         pc := if !c.noc then WritingDram
               else if h.request.kind.ServeGet? then ZeroProgress
               else if staged then Copying(0)
               else PostingSlot)
  }

  function CommitOf(h: Host): Commit {
    Commit(h.request.slot, h.request.off, h.request.len, h.request.keyLen, ReadOffset(Source(h)))
  }

  function PublishBlockStep(c: Config, s: State): State
    requires c.unit > 0 && s.host.pc.Streaming?
  {
    var h := s.host;
    if Source(h).Mapped? then
      s.(link := s.link.(progress := Chunks(c, h)), host := h.(pc := AwaitDone))
    else
      var staged := BlockChunks(c, h);
      s.(link := s.link.(progress := staged),
         host := h.(pc := if staged >= Chunks(c, h) then AwaitDone else Streaming(staged, h.pc.at)))
  }

  function FinishStep(c: Config, s: State): State {
    var h := s.host;
    var legal := h.active && ((h.request.kind.RemoveBacking? && h.phase.Pending?) || h.phase.Complete?);
    if c.driver.External? && !legal then s.(host := h.(pc := CheckFailed))
    else
      var done := if c.driver.External? then h.sequence else Next(h.seen);
      s.(host := h.(pc := Polling, seen := done, active := false),
         link := s.link.(moveProcessed := done), done := s.done + [h.request])
  }

  function StopStep(c: Config, h: Host): Host {
    if h.pc.AwaitPush? && h.request.slot < |h.store.meta|
    then h.(pc := Stopped(None), store := Abandon(c, h.store, h.request.slot, h.pc.r))
    else h.(pc := Stopped(None))
  }

  // ----- device steps -----

  function PostStep(c: Config, s: State): State {
    var d := s.dev;
    s.(link := s.link.(moveSem := Next(s.link.moveSem)), posted := s.posted + [d.request],
       dev := d.(pc := if d.request.kind.WriteThrough? && c.noc then AwaitAck
                       else if Inbound(d.request) then Draining(0) else AwaitCommit))
  }

  /** Once the channel has drained, the directory holds what was written through and forgets what was removed. */
  function DrainStep(d: Device): Device
    requires d.pc.Draining?
  {
    var dir :=
      if d.request.kind.WriteThrough? then d.dir[d.request.slot := Entry(d.value, d.pc.generation)]
      else if d.request.kind.RemoveBacking? then d.dir - {d.request.slot}
      else d.dir;
    d.(pc := Quiet, dir := dir)
  }

  // ----- the step relation -----

  predicate DeviceAction(a: Action) {
    a.WriteSlot? || a.PostMove? || a.SeeAck? || a.PushByte? || a.PushEnd? || a.SeeCommit? || a.ReadByte?
    || a.TellHost? || a.ReadEnd? || a.Drain?
  }

  /** Steps that change the stored values, the pool or the metadata. */
  predicate StoreAction(a: Action) {
    a.Erase? || a.TakeSpace? || a.Publish? || a.ReadDevice? || a.Insert? || a.Stop? || a.IoFails? || a.DropValue?
  }

  /** Steps of a supply, between decoding it and its completion. */
  predicate SupplyAction(a: Action) {
    a.Begin? || a.CopyByte? || a.WriteBlock? || a.ClearProgress? || a.WriteCommit? || a.PostCommit?
    || a.StreamByte? || a.PublishBlock? || a.SeeDone?
  }

  /** Supply steps that move the value's bytes. */
  predicate StagingAction(a: Action) {
    a.CopyByte? || a.StreamByte? || a.WriteBlock?
  }

  /** Supply steps that post the commit request. */
  predicate PostingAction(a: Action) {
    a.ClearProgress? || a.WriteCommit? || a.PostCommit?
  }

  /** Store steps that end the worker's run, or follow it. */
  predicate BreakAction(a: Action) {
    a.Stop? || a.IoFails? || a.DropValue?
  }

  ghost function DeviceStep(c: Config, s: State, a: Action): State
    requires c.unit > 0 && Ready(c, s, a) && DeviceAction(a)
  {
    var l, d := s.link, s.dev;
    match a
    case WriteSlot(r, v, heap) =>
      s.(link := l.(slot := r), dev := d.(pc := SlotWritten, request := r, value := v, heap := heap))
    case PostMove => PostStep(c, s)
    case SeeAck => s.(dev := d.(ackSeen := l.ackSem, pc := Pushing(l.ackOff, l.ackGeneration, 0)))
    case PushByte =>
      s.(arena := Put(s.arena, d.pc.dst + d.pc.at, d.value[d.pc.at]),
         dev := d.(pc := Pushing(d.pc.dst, d.pc.generation, d.pc.at + 1)))
    case PushEnd => s.(link := l.(evictDone := Next(l.evictDone)), dev := d.(pc := Draining(d.pc.generation)))
    case SeeCommit => s.(dev := d.(commitSeen := l.commitSem, got := [], pc := Reading(l.commit.readOff, 0)))
    case ReadByte =>
      var b := if c.noc then At(s.arena, d.pc.src + d.pc.at) else At(HeapValue(c, d.heap, d.request), d.pc.at);
      s.(dev := d.(got := d.got + [b], pc := Reading(d.pc.src, d.pc.at + 1)))
    case TellHost => s.(link := l.(hostDone := d.commitSeen), dev := d.(pc := Consumed))
    case ReadEnd => s.(link := l.(promoteDone := Next(l.promoteDone)), dev := d.(pc := Draining(0)))
    case Drain => s.(dev := DrainStep(d))
  }

  ghost function HostStep(c: Config, s: State, a: Action): State
    requires c.unit > 0 && Ready(c, s, a) && !DeviceAction(a)
  {
    var h, l := s.host, s.link;
    match a
    case Poll => s.(host := PollStep(c, s))
    case Erase => s.(host := EraseStep(c, h))
    case TakeSpace => s.(host := TakeSpaceStep(c, h))
    case WriteAck =>
      var (off, g) := match h.pc.r case Some(r) => (r.readOff, r.generation) case None => (0, 0);
      s.(link := l.(ackOff := off, ackGeneration := g),
         host := h.(pc := AckWritten(h.pc.r), evictIssued := Next(h.evictIssued)))
    case PostAck => s.(link := l.(ackSem := h.evictIssued), host := h.(pc := AwaitPush(h.pc.r)))
    case SeePush => s.(host := h.(pc := Landed(h.pc.r)))
    case Publish(leaseFails) => s.(host := PublishStep(c, s, leaseFails))
    case ReadDevice => s.(host := Deliver(c, h, Heap(HeapValue(c, s.dev.heap, h.request))))
    case Insert => s.(host := InsertStep(h))
    case Begin => s.(host := BeginStep(c, h))
    case CopyByte =>
      if h.pc.at < h.request.len
      then s.(arena := Put(s.arena, h.pc.at, At(ValueBytes(s.arena, Source(h)), h.pc.at)),
              host := h.(pc := Copying(h.pc.at + 1)))
      else s.(host := h.(pc := PostingSlot))
    case WriteBlock =>
      s.(dev := s.dev.(heap := HeapWith(c, s.dev.heap, h.request, ValueBytes(s.arena, Source(h)))),
         host := h.(pc := PostingSlot))
    case ClearProgress => s.(link := l.(progress := 0), host := h.(pc := PostingSlot))
    case WriteCommit => s.(link := l.(commit := CommitOf(h)), host := h.(pc := PostingSem))
    case PostCommit =>
      s.(link := l.(commitSem := h.commitIssued),
         host := h.(pc := if c.noc && h.request.kind.ServeGet? then Streaming(0, 0) else AwaitDone))
    case StreamByte =>
      s.(arena := Put(s.arena, h.pc.at, At(ValueBytes(s.arena, Source(h)), h.pc.at)),
         host := h.(pc := Streaming(h.pc.base, h.pc.at + 1)))
    case PublishBlock => PublishBlockStep(c, s)
    case SeeDone => s.(host := h.(pc := Served, phase := Complete))
    case Finish => FinishStep(c, s)
    case Cancel => s.(host := h.(cancelled := true))
    case Stop => s.(host := StopStep(c, h))
    case IoFails => s.(host := h.(pc := Stopped(Held(h.pc))))
    case DropValue(slot) => s.(host := RetireSlot(c, h, slot))
  }

  ghost function Do(c: Config, s: State, a: Action): State
    requires c.unit > 0 && Ready(c, s, a)
  {
    if DeviceAction(a) then DeviceStep(c, s, a) else HostStep(c, s, a)
  }

  /** All counters start at the configured baseline; nothing is stored and the whole pool is free. */
  ghost predicate Initial(c: Config, s: State) {
    exists n: u32, m: seq<byte> :: |m| == SliceBytes(c) && s == StartAt(c, n, m)
  }

  ghost function StartAt(c: Config, n: u32, arena: seq<byte>): State {
    State(Host(Polling, map[], StoreAtStart(c), false, Pending, n, NO_REQUEST, n, n, n, false),
          Link(n, NO_REQUEST, n, n, 0, 0, n, n, Commit(0, 0, 0, 0, 0), 0, n, n),
          Device(Quiet, NO_REQUEST, [], [], n, n, map[], []), arena, [], [])
  }

  ghost predicate Runs(c: Config, s: State, acts: seq<Action>)
    requires c.unit > 0
    decreases |acts|
  {
    acts == [] || (Enabled(c, s, acts[0]) && Runs(c, Do(c, s, acts[0]), acts[1..]))
  }

  ghost function After(c: Config, s: State, acts: seq<Action>): State
    requires c.unit > 0 && Runs(c, s, acts)
    decreases |acts|
  {
    if acts == [] then s else After(c, Do(c, s, acts[0]), acts[1..])
  }
}
