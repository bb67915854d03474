/** Per-slot, generation-stamped metadata of mapped host values, and the generation arithmetic behind it. */
module PoolMetadata {
  import opened Words

  /** The four words of one slot, in memory order. */
  datatype Meta = Meta(begin: u32, readOff: u32, totalLen: u32, end: u32)

  const BLANK := Meta(0, 0, 0, 0)

  /** Generations cycle through the nonzero words. */
  const GENERATIONS: nat := 0xFFFF_FFFF

  function NextGeneration(g: u32): (r: u32)
    ensures r != 0
  {
    if Next(g) == 0 then Next(Next(g)) else Next(g)
  }

  function Published(generation: u32, readOff: u32, totalLen: u32): Meta {
    Meta(generation, readOff, totalLen, generation)
  }

  /** The test a conditional invalidation, and the device, apply. */
  predicate Carries(m: Meta, generation: u32) {
    generation != 0 && m.begin == generation && m.end == generation
  }

  function InvalidateIf(m: Meta, generation: u32): Meta {
    if Carries(m, generation) then BLANK else m
  }

  /** The generation the `n`-th publication of a slot carries; 0 before the first. */
  ghost function Generation(n: nat): u32 {
    if n == 0 then 0 else 1 + (n - 1) % GENERATIONS
  }

  lemma GenerationStep(n: nat)
    ensures NextGeneration(Generation(n)) == Generation(n + 1)
  {
    if n > 0 {
      var q, r := (n - 1) / GENERATIONS, (n - 1) % GENERATIONS;
      assert n - 1 == q * GENERATIONS + r;
      if r == GENERATIONS - 1 {
        assert n == (q + 1) * GENERATIONS;
      } else {
        assert n == q * GENERATIONS + (r + 1);
      }
    }
  }

  /** Two publications share a generation exactly when a whole cycle, 2^32 - 1 publications, separates them. */
  lemma GenerationsCollide(a: nat, b: nat)
    requires 0 < a <= b
    ensures Generation(a) == Generation(b) <==> (b - a) % GENERATIONS == 0
  {
    var x, y := a - 1, b - 1;
    assert x == x / GENERATIONS * GENERATIONS + x % GENERATIONS;
    assert y == y / GENERATIONS * GENERATIONS + y % GENERATIONS;
    assert b - a == (y / GENERATIONS - x / GENERATIONS) * GENERATIONS + (y % GENERATIONS - x % GENERATIONS);
  }

  /**
    A lease dropped late, after the slot was published again, leaves the newer publication alone unless the
    number of publications since is a multiple of 2^32 - 1; on such a multiple it blanks it.
  */
  lemma LateDropSparesNewer(mine: nat, newest: nat, readOff: u32, totalLen: u32)
    requires 0 < mine <= newest
    ensures var m := Published(Generation(newest), readOff, totalLen);
            && ((newest - mine) % GENERATIONS != 0 ==> InvalidateIf(m, Generation(mine)) == m)
            && ((newest - mine) % GENERATIONS == 0 ==> InvalidateIf(m, Generation(mine)) == BLANK)
    ensures 0 < newest - mine < GENERATIONS ==> (newest - mine) % GENERATIONS != 0
  {
    GenerationsCollide(mine, newest);
  }

  /** The slot's words after each store of a publication, in program order. */
  function PublishStores(w: Meta, generation: u32, readOff: u32, totalLen: u32): seq<Meta> {
    [w.(begin := 0),
     w.(begin := 0, readOff := readOff),
     w.(begin := 0, readOff := readOff, totalLen := totalLen),
     Meta(0, readOff, totalLen, generation),
     Published(generation, readOff, totalLen)]
  }

  /** The slot's words after each store of an invalidation. */
  function InvalidateStores(w: Meta): seq<Meta> {
    [w.(begin := 0), w.(begin := 0, end := 0), w.(begin := 0, end := 0, readOff := 0), BLANK]
  }

  /** The metadata region and the generation counters, written word by word. */
  class MetaTable {
    /** `pool_meta_host_ptr_ != nullptr`. */
    const mapped: bool
    const meta: array<Meta>
    const generations: array<u32>

    ghost predicate Valid() {
      meta.Length == generations.Length
    }

    constructor (maxKeys: nat, mapped: bool)
      ensures Valid() && fresh(meta) && fresh(generations)
      ensures this.mapped == mapped && meta.Length == maxKeys
      ensures forall i | 0 <= i < maxKeys :: meta[i] == BLANK && generations[i] == 0
    {
      this.mapped := mapped;
      meta := new Meta[maxKeys](_ => BLANK);
      generations := new u32[maxKeys](_ => 0);
    }

    /** False stands for the failed `slot < max_keys` check. `stores` shows the slot after each store. */
    method InvalidatePoolMeta(slot: nat) returns (ok: bool, ghost stores: seq<Meta>)
      requires Valid()
      modifies meta
      ensures ok == (!mapped || slot < meta.Length)
      ensures meta[..] == if mapped && ok then old(meta[..])[slot := BLANK] else old(meta[..])
      ensures stores == if mapped && ok then InvalidateStores(old(meta[slot])) else []
    {
      if !mapped {
        return true, [];
      }
      if slot >= meta.Length {
        return false, [];
      }
      meta[slot] := meta[slot].(begin := 0);
      stores := [meta[slot]];
      meta[slot] := meta[slot].(end := 0);
      stores := stores + [meta[slot]];
      meta[slot] := meta[slot].(readOff := 0);
      stores := stores + [meta[slot]];
      meta[slot] := meta[slot].(totalLen := 0);
      stores := stores + [meta[slot]];
      return true, stores;
    }

    method InvalidatePoolMetaIfGeneration(slot: nat, generation: u32) returns (ok: bool)
      requires Valid()
      modifies meta
      ensures ok == (!mapped || generation == 0 || slot < meta.Length)
      ensures meta[..] ==
              if mapped && slot < meta.Length
              then old(meta[..])[slot := InvalidateIf(old(meta[slot]), generation)] else old(meta[..])
    {
      if !mapped || generation == 0 {
        assert slot < meta.Length && generation == 0 ==>
                 meta[..][slot := InvalidateIf(meta[slot], generation)] == meta[..];
        return true;
      }
      if slot >= meta.Length {
        return false;
      }
      if meta[slot].begin != generation || meta[slot].end != generation {
        assert meta[..] == meta[..][slot := meta[slot]];
        return true;
      }
      var done, stores := InvalidatePoolMeta(slot);
      return done;
    }

    /**
      None stands for a failed check: no mapping, or a slot out of range. `stores` shows the slot after each store of
      its four words.
    */
    method PublishPoolMeta(slot: nat, readOff: u32, totalLen: u32)
      returns (generation: Option<u32>, ghost stores: seq<Meta>)
      requires Valid()
      modifies meta, generations
      ensures generation.Some? == (mapped && slot < meta.Length)
      ensures generation.None? ==> meta[..] == old(meta[..]) && generations[..] == old(generations[..])
      ensures generation.Some? ==>
                && generation.value == NextGeneration(old(generations[slot]))
                && generations[..] == old(generations[..])[slot := generation.value]
                && meta[..] == old(meta[..])[slot := Published(generation.value, readOff, totalLen)]
                && stores == PublishStores(old(meta[slot]), generation.value, readOff, totalLen)
    {
      if !mapped || slot >= meta.Length {
        return None, [];
      }
      generations[slot] := Next(generations[slot]);
      var g := generations[slot];
      if g == 0 {
        generations[slot] := Next(generations[slot]);
        g := generations[slot];
      }
      meta[slot] := meta[slot].(begin := 0);
      stores := [meta[slot]];
      meta[slot] := meta[slot].(readOff := readOff);
      stores := stores + [meta[slot]];
      meta[slot] := meta[slot].(totalLen := totalLen);
      stores := stores + [meta[slot]];
      meta[slot] := meta[slot].(end := g);
      stores := stores + [meta[slot]];
      meta[slot] := meta[slot].(begin := g);
      stores := stores + [meta[slot]];
      return Some(g), stores;
    }
  }
}

/**
  One slot's metadata words under concurrency: the host writes word by word, in program order, while a reader
  samples word by word. Stores reach the reader in the order issued.
*/
module MetadataRace {
  import opened Words
  import opened PoolMetadata

  /** How many stores of the operation under way have been issued; starting one issues `begin = 0`. */
  datatype Writer = Idle | Publishing(stores: nat) | Invalidating(stores: nat)

  /** `Downward` samples End, the fields, then Begin; `Upward` takes the words in memory order. */
  datatype Order = Downward | Upward

  /**
    The reader's samples. `mark` is the publication that the End word sampled first belongs to, kept only to
    state what was read.
  */
  datatype Reader = Reader(sampled: nat, first: u32, readOff: u32, totalLen: u32, last: u32, mark: nat)

  datatype Fields = Fields(readOff: u32, totalLen: u32)

  /** `log` lists the fields of every publication begun, oldest first. */
  datatype Race = Race(order: Order, words: Meta, generation: u32, writer: Writer, log: seq<Fields>, reader: Reader)

  datatype Act = Publish(fields: Fields) | Invalidate | Store | Sample

  function Start(order: Order): Race {
    Race(order, BLANK, 0, Idle, [], Reader(0, 0, 0, 0, 0, 0))
  }

  predicate Enabled(s: Race, a: Act) {
    match a
    case Publish(_) => s.writer.Idle?
    case Invalidate => s.writer.Idle?
    case Store => !s.writer.Idle?
    case Sample => s.reader.sampled < 4
  }

  function AfterStore(s: Race): Race
    requires !s.writer.Idle?
  {
    match s.writer
    case Publishing(n) =>
      var f := if s.log == [] then Fields(0, 0) else s.log[|s.log| - 1];
      if n <= 1 then s.(words := s.words.(readOff := f.readOff), writer := Publishing(2))
      else if n == 2 then s.(words := s.words.(totalLen := f.totalLen), writer := Publishing(3))
      else if n == 3 then s.(words := s.words.(end := s.generation), writer := Publishing(4))
      else s.(words := s.words.(begin := s.generation), writer := Idle)
    case Invalidating(n) =>
      if n <= 1 then s.(words := s.words.(end := 0), writer := Invalidating(2))
      else if n == 2 then s.(words := s.words.(readOff := 0), writer := Invalidating(3))
      else s.(words := s.words.(totalLen := 0), writer := Idle)
  }

  /** The publication the End word in memory belongs to, if any. */
  function EndOwner(s: Race): nat {
    if s.writer.Publishing? && s.writer.stores <= 3 && s.log != [] then |s.log| - 1 else |s.log|
  }

  function AfterSample(s: Race): Race {
    var r, w := s.reader, s.words;
    var outer := if s.order.Downward? then w.end else w.begin;
    var inner := if s.order.Downward? then w.begin else w.end;
    s.(reader :=
       if r.sampled == 0 then r.(sampled := 1, first := outer, mark := EndOwner(s))
       else if r.sampled == 1 then r.(sampled := 2, readOff := w.readOff)
       else if r.sampled == 2 then r.(sampled := 3, totalLen := w.totalLen)
       else r.(sampled := 4, last := inner))
  }

  function Do(s: Race, a: Act): Race
    requires Enabled(s, a)
  {
    match a
    case Publish(f) =>
      s.(log := s.log + [f], generation := NextGeneration(s.generation),
         words := s.words.(begin := 0), writer := Publishing(1))
    case Invalidate => s.(words := s.words.(begin := 0), writer := Invalidating(1))
    case Store => AfterStore(s)
    case Sample => AfterSample(s)
  }

  ghost predicate Runs(s: Race, acts: seq<Act>)
    decreases |acts|
  {
    acts == [] || (Enabled(s, acts[0]) && Runs(Do(s, acts[0]), acts[1..]))
  }

  ghost function After(s: Race, acts: seq<Act>): Race
    requires Runs(s, acts)
    decreases |acts|
  {
    if acts == [] then s else After(Do(s, acts[0]), acts[1..])
  }

  /** The words in memory after each of the first `n` steps of a run. */
  ghost function WordsAlong(s: Race, acts: seq<Act>): seq<Meta>
    requires Runs(s, acts)
    decreases |acts|
  {
    if acts == [] then [] else [Do(s, acts[0]).words] + WordsAlong(Do(s, acts[0]), acts[1..])
  }

  /** The runtime's publication makes the stores of the race's writer, in the same order. */
  lemma PublicationIsTheRace(s: Race, f: Fields)
    requires s.writer.Idle?
    ensures var acts := [Publish(f), Store, Store, Store, Store];
            Runs(s, acts) && After(s, acts).writer.Idle?
            && WordsAlong(s, acts) == PublishStores(s.words, NextGeneration(s.generation), f.readOff, f.totalLen)
  {
    var acts := [Publish(f), Store, Store, Store, Store];
    var s1 := Do(s, Publish(f));
    var s2 := Do(s1, Store);
    var s3 := Do(s2, Store);
    var s4 := Do(s3, Store);
    assert acts[1..] == [Store, Store, Store, Store] && acts[1..][1..] == [Store, Store, Store];
    assert acts[1..][1..][1..] == [Store, Store] && acts[1..][1..][1..][1..] == [Store];
    assert Runs(s4, [Store]) && WordsAlong(s4, [Store]) == [Do(s4, Store).words];
    assert Runs(s3, [Store, Store]) && WordsAlong(s3, [Store, Store]) == [s4.words, Do(s4, Store).words];
    assert Runs(s2, [Store, Store, Store]);
    assert Runs(s1, [Store, Store, Store, Store]);
  }

  /** So does its invalidation. */
  lemma InvalidationIsTheRace(s: Race)
    requires s.writer.Idle?
    ensures var acts := [Invalidate, Store, Store, Store];
            Runs(s, acts) && After(s, acts).writer.Idle? && WordsAlong(s, acts) == InvalidateStores(s.words)
  {
    var acts := [Invalidate, Store, Store, Store];
    var s1 := Do(s, Invalidate);
    var s2 := Do(s1, Store);
    var s3 := Do(s2, Store);
    assert acts[1..] == [Store, Store, Store] && acts[1..][1..] == [Store, Store];
    assert acts[1..][1..][1..] == [Store];
    assert Runs(s3, [Store]) && WordsAlong(s3, [Store]) == [Do(s3, Store).words];
    assert Runs(s2, [Store, Store]);
    assert Runs(s1, [Store, Store, Store]);
  }

  /** The device's acceptance test once all four words are in. */
  predicate Accepts(s: Race) {
    s.reader.sampled == 4 && s.reader.first == s.reader.last != 0
  }

  /** The fields accepted are those of one publication. */
  ghost predicate ReadWhole(s: Race) {
    exists k | 0 <= k < |s.log| :: s.reader.readOff == s.log[k].readOff && s.reader.totalLen == s.log[k].totalLen
  }

  // ----- invariant -----

  predicate Holds(w: Meta, f: Fields) {
    w.readOff == f.readOff && w.totalLen == f.totalLen
  }

  ghost predicate WriterInv(s: Race) {
    var n := |s.log|;
    var w := s.words;
    && s.generation == Generation(n)
    && match s.writer
       case Idle =>
         (w.begin == 0 && w.end == 0) || (n > 0 && w.begin == w.end == Generation(n) && Holds(w, s.log[n - 1]))
       case Publishing(i) =>
         && 1 <= i <= 4 && n > 0 && w.begin == 0
         && (i <= 3 ==> w.end == 0 || (n > 1 && w.end == Generation(n - 1)))
         && (i >= 2 ==> w.readOff == s.log[n - 1].readOff)
         && (i >= 3 ==> w.totalLen == s.log[n - 1].totalLen)
         && (i == 4 ==> w.end == Generation(n))
       case Invalidating(i) =>
         && 1 <= i <= 3 && w.begin == 0
         && (i >= 2 ==> w.end == 0)
         && (i == 1 ==> w.end == 0 || (n > 0 && w.end == Generation(n)))
  }

  /** Publication `k` is the latest, complete up to its End word, and not being withdrawn. */
  ghost predicate Standing(s: Race, k: nat) {
    && 0 < k == |s.log|
    && s.words.end == Generation(k)
    && (s.writer.Idle? || s.writer == Publishing(4))
  }

  ghost predicate ReaderInv(s: Race) {
    var r := s.reader;
    s.order.Downward? && r.sampled > 0 && r.first != 0 ==>
      && 0 < r.mark <= EndOwner(s) && r.first == Generation(r.mark)
      && (Standing(s, r.mark) && r.sampled >= 2 ==> r.readOff == s.log[r.mark - 1].readOff)
      && (Standing(s, r.mark) && r.sampled >= 3 ==> r.totalLen == s.log[r.mark - 1].totalLen)
      && (r.sampled == 4 && r.last == r.first ==>
            exists n :: r.mark <= n <= |s.log| && r.last == Generation(n) && (n == r.mark ==> Whole(s)))
  }

  /** Both fields sampled are those of publication `mark`. */
  ghost predicate Whole(s: Race) {
    0 < s.reader.mark <= |s.log| && Fields(s.reader.readOff, s.reader.totalLen) == s.log[s.reader.mark - 1]
  }

  lemma WriterStep(s: Race, a: Act)
    requires WriterInv(s) && Enabled(s, a)
    ensures WriterInv(Do(s, a))
  {
    GenerationStep(|s.log|);
  }

  lemma ReaderStep(s: Race, a: Act)
    requires WriterInv(s) && ReaderInv(s) && Enabled(s, a)
    ensures ReaderInv(Do(s, a))
  {
    var t := Do(s, a);
    var r := t.reader;
    if t.order.Downward? && r.sampled > 0 && r.first != 0 {
      if a.Sample? {
        if r.sampled == 4 && r.last == r.first {
          assert r.last == Generation(|s.log|);
        }
      } else if r.sampled == 4 && r.last == r.first {
        var n :| r.mark <= n <= |s.log| && r.last == Generation(n) && (n == r.mark ==> Whole(s));
        assert n == r.mark ==> Whole(t);
      }
    }
  }

  lemma {:induction false} InvAlong(s: Race, acts: seq<Act>)
    requires WriterInv(s) && ReaderInv(s) && Runs(s, acts)
    ensures WriterInv(After(s, acts)) && ReaderInv(After(s, acts)) && After(s, acts).order == s.order
    decreases |acts|
  {
    if acts != [] {
      WriterStep(s, acts[0]);
      ReaderStep(s, acts[0]);
      InvAlong(Do(s, acts[0]), acts[1..]);
    }
  }

  /**
    Under any interleaving of publications and invalidations, a reader that samples End, the fields and then
    Begin, and sees one nonzero generation in both, holds the fields of the single publication it marked,
    provided fewer than 2^32 - 1 publications began after that one.
  */
  lemma TearFree(acts: seq<Act>)
    requires Runs(Start(Downward), acts)
    requires var s := After(Start(Downward), acts); Accepts(s) && |s.log| - s.reader.mark < GENERATIONS
    ensures Whole(After(Start(Downward), acts))
  {
    InvAlong(Start(Downward), acts);
    var s := After(Start(Downward), acts);
    var r := s.reader;
    var n :| r.mark <= n <= |s.log| && r.last == Generation(n) && (n == r.mark ==> Whole(s));
    GenerationsCollide(r.mark, n);
  }

  // ----- the bound and the sampling order are both needed -----

  lemma {:induction false} Extend(s: Race, acts: seq<Act>, a: Act)
    requires Runs(s, acts) && Enabled(After(s, acts), a)
    ensures Runs(s, acts + [a]) && After(s, acts + [a]) == Do(After(s, acts), a)
    decreases |acts|
  {
    if acts == [] {
      assert [a][1..] == [];
    } else {
      assert (acts + [a])[1..] == acts[1..] + [a];
      Extend(Do(s, acts[0]), acts[1..], a);
    }
  }

  /** One undisturbed publication. */
  lemma Republish(s: Race, acts: seq<Act>, f: Fields) returns (more: seq<Act>)
    requires Runs(s, acts) && After(s, acts).writer.Idle?
    ensures Runs(s, more)
    ensures var before := After(s, acts);
            var g := NextGeneration(before.generation);
            After(s, more) == before.(log := before.log + [f], generation := g,
                                      words := Published(g, f.readOff, f.totalLen))
  {
    more := acts + [Publish(f)];
    Extend(s, acts, Publish(f));
    for i := 1 to 5
      invariant Runs(s, more)
      invariant var before := After(s, acts);
                var g := NextGeneration(before.generation);
                After(s, more) == before.(
                  log := before.log + [f], generation := g, writer := if i == 5 then Idle else Publishing(i),
                  words := Meta(if i == 5 then g else 0, if i >= 2 then f.readOff else before.words.readOff,
                                if i >= 3 then f.totalLen else before.words.totalLen,
                                if i >= 4 then g else before.words.end))
    {
      Extend(s, more, Store);
      more := more + [Store];
    }
  }

  lemma RepublishMany(s: Race, acts: seq<Act>, f: Fields, count: nat) returns (more: seq<Act>)
    requires Runs(s, acts) && After(s, acts).writer.Idle? && WriterInv(After(s, acts)) && count > 0
    ensures Runs(s, more) && After(s, more).writer.Idle?
    ensures var before, after := After(s, acts), After(s, more);
            && after.reader == before.reader && after.order == before.order
            && |after.log| == |before.log| + count && before.log <= after.log
            && (forall k | |before.log| <= k < |after.log| :: after.log[k] == f)
            && after.words == Published(Generation(|after.log|), f.readOff, f.totalLen)
  {
    more := Republish(s, acts, f);
    GenerationStep(|After(s, acts).log|);
    for i := 1 to count
      invariant Runs(s, more) && After(s, more).writer.Idle?
      invariant var before, after := After(s, acts), After(s, more);
                && after.reader == before.reader && after.order == before.order
                && |after.log| == |before.log| + i && before.log <= after.log
                && (forall k | |before.log| <= k < |after.log| :: after.log[k] == f)
                && after.generation == Generation(|after.log|)
                && after.words == Published(after.generation, f.readOff, f.totalLen)
    {
      GenerationStep(|After(s, more).log|);
      more := Republish(s, more, f);
    }
  }

  /** The bound of `TearFree` is tight: after exactly 2^32 - 1 later publications a torn read is accepted. */
  lemma TornAfterFullCycle() returns (acts: seq<Act>)
    ensures Runs(Start(Downward), acts)
    ensures var s := After(Start(Downward), acts);
            Accepts(s) && |s.log| - s.reader.mark == GENERATIONS && !ReadWhole(s)
  {
    var z := Start(Downward);
    acts := Republish(z, [], Fields(1, 1));
    GenerationStep(0);
    Extend(z, acts, Sample);
    acts := acts + [Sample];
    Extend(z, acts, Sample);
    acts := acts + [Sample];
    var s := After(z, acts);
    assert s.reader == Reader(2, Generation(1), 1, 0, 0, 1);
    acts := RepublishMany(z, acts, Fields(2, 2), GENERATIONS);
    GenerationsCollide(1, 1 + GENERATIONS);
    Extend(z, acts, Sample);
    acts := acts + [Sample];
    Extend(z, acts, Sample);
    acts := acts + [Sample];
  }

  /** The order matters: taking the words in memory order accepts a torn read across a single publication. */
  lemma TornUpward() returns (acts: seq<Act>)
    ensures Runs(Start(Upward), acts)
    ensures var s := After(Start(Upward), acts); Accepts(s) && |s.log| == 2 && !ReadWhole(s)
  {
    var z := Start(Upward);
    acts := Republish(z, [], Fields(1, 1));
    GenerationStep(0);
    var rest := [Sample, Publish(Fields(2, 2)), Store, Sample, Sample, Sample];
    for i := 0 to 6
      invariant Runs(z, acts)
      invariant var s := After(z, acts);
                && s.order.Upward? && s.log == (if i < 2 then [Fields(1, 1)] else [Fields(1, 1), Fields(2, 2)])
                && s.words.end == Generation(1) && s.words.totalLen == 1
                && (i == 0 ==> s.words == Published(Generation(1), 1, 1))
                && s.words.readOff == (if i < 3 then 1 else 2)
                && s.writer == (if i < 2 then Idle else if i == 2 then Publishing(1) else Publishing(2))
                && s.reader.sampled == (if i == 0 then 0 else if i < 4 then 1 else i - 2)
                && (i >= 1 ==> s.reader.first == Generation(1))
                && (i >= 4 ==> s.reader.readOff == 2)
                && (i >= 5 ==> s.reader.totalLen == 1)
                && (i >= 6 ==> s.reader.last == Generation(1))
    {
      Extend(z, acts, rest[i]);
      acts := acts + [rest[i]];
    }
  }
}
