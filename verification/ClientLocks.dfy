/** Locking of clients: which mutexes each operation takes, in which order, and that no wait cycle can form. */
module LockOrder {
  import opened Words

  /** A client's lifecycle mutex, by the client's address, or the client registry mutex. */
  datatype Mutex = Lifecycle(client: nat) | Registry

  /** Lifecycle mutexes are ordered by address; the registry comes after all of them. */
  predicate Below(a: Mutex, b: Mutex) {
    a.Lifecycle? && (b.Registry? || a.client < b.client)
  }

  datatype Step = Acquire(m: Mutex) | Release(m: Mutex)

  /** `Close` reaches the registry only if it gets as far as releasing the host resources. */
  datatype Operation =
    | GetParallel(clients: seq<nat>)
    | Single(client: nat)
    | Close(client: nat, releases: bool)
    | Construct

  // ----- std::sort of the client addresses -----

  function Insert(x: nat, s: seq<nat>): (r: seq<nat>)
    ensures multiset(r) == multiset(s) + multiset{x}
  {
    if s == [] || x <= s[0] then [x] + s
    else
      assert s == [s[0]] + s[1..];
      [s[0]] + Insert(x, s[1..])
  }

  function Sort(s: seq<nat>): (r: seq<nat>)
    ensures multiset(r) == multiset(s)
  {
    if s == [] then []
    else
      assert s == [s[0]] + s[1..];
      Insert(s[0], Sort(s[1..]))
  }

  predicate Ascending(s: seq<nat>) {
    forall i | 0 < i < |s| :: s[i - 1] <= s[i]
  }

  predicate StrictlyAscending(s: seq<nat>) {
    forall i | 0 < i < |s| :: s[i - 1] < s[i]
  }

  lemma {:induction false} InsertAscends(x: nat, s: seq<nat>)
    requires Ascending(s)
    ensures Ascending(Insert(x, s)) && Insert(x, s)[0] == if s == [] || x <= s[0] then x else s[0]
  {
    if s != [] && x > s[0] {
      forall i | 0 < i < |s[1..]| ensures s[1..][i - 1] <= s[1..][i] { assert s[i] <= s[i + 1]; }
      InsertAscends(x, s[1..]);
      var r := Insert(x, s[1..]);
      assert |s| > 1 ==> s[0] <= s[1];
      forall i | 0 < i < |r| + 1 ensures ([s[0]] + r)[i - 1] <= ([s[0]] + r)[i] {
        if i > 1 { assert r[i - 2] <= r[i - 1]; }
      }
    }
  }

  lemma {:induction false} SortAscends(s: seq<nat>)
    ensures Ascending(Sort(s))
  {
    if s != [] {
      SortAscends(s[1..]);
      InsertAscends(s[0], Sort(s[1..]));
    }
  }

  // ----- the steps each operation takes -----

  function Acquires(clients: seq<nat>): seq<Step> {
    if clients == [] then [] else [Acquire(Lifecycle(clients[0]))] + Acquires(clients[1..])
  }

  function Releases(clients: seq<nat>): seq<Step> {
    if clients == [] then [] else [Release(Lifecycle(clients[0]))] + Releases(clients[1..])
  }

  function Steps(op: Operation): seq<Step> {
    match op
    case GetParallel(clients) =>
      if StrictlyAscending(Sort(clients)) then Acquires(Sort(clients)) + Releases(Sort(clients)) else []
    case Single(c) => [Acquire(Lifecycle(c)), Release(Lifecycle(c))]
    case Close(c, releases) =>
      [Acquire(Lifecycle(c))] + (if releases then [Acquire(Registry), Release(Registry)] else [])
          + [Release(Lifecycle(c))]
    case Construct => [Acquire(Registry), Release(Registry)]
  }

  /** Every acquisition still to come is above everything held at that point, and nothing is held at the end. */
  ghost predicate Disciplined(held: set<Mutex>, todo: seq<Step>)
    decreases |todo|
  {
    if todo == [] then held == {}
    else match todo[0]
      case Acquire(m) => (forall h | h in held :: Below(h, m)) && Disciplined(held + {m}, todo[1..])
      case Release(m) => m in held && Disciplined(held - {m}, todo[1..])
  }

  ghost function Locks(clients: seq<nat>): set<Mutex> {
    set i | 0 <= i < |clients| :: Lifecycle(clients[i])
  }

  lemma {:induction false} ReleasesAreDisciplined(clients: seq<nat>)
    requires StrictlyAscending(clients)
    ensures Disciplined(Locks(clients), Releases(clients))
  {
    if clients != [] {
      TailAscends(clients);
      AboveFirst(clients);
      assert Locks(clients) - {Lifecycle(clients[0])} == Locks(clients[1..]) by {
        forall m | m in Locks(clients) - {Lifecycle(clients[0])} ensures m in Locks(clients[1..]) {
          var i :| 0 <= i < |clients| && m == Lifecycle(clients[i]);
          assert clients[1..][i - 1] == clients[i];
        }
        forall m | m in Locks(clients[1..]) ensures m in Locks(clients) - {Lifecycle(clients[0])} {
          var i :| 0 <= i < |clients[1..]| && m == Lifecycle(clients[1..][i]);
          assert clients[i + 1] == clients[1..][i];
        }
      }
      ReleasesAreDisciplined(clients[1..]);
    }
  }

  lemma TailAscends(clients: seq<nat>)
    requires clients != [] && StrictlyAscending(clients)
    ensures StrictlyAscending(clients[1..])
  {
    forall i | 0 < i < |clients[1..]| ensures clients[1..][i - 1] < clients[1..][i] {
      assert clients[i] < clients[i + 1];
    }
  }

  lemma {:induction false} AboveFirst(clients: seq<nat>)
    requires clients != [] && StrictlyAscending(clients)
    ensures forall i | 0 < i < |clients| :: clients[0] < clients[i]
  {
    if |clients| > 1 {
      assert clients[0] < clients[1];
      TailAscends(clients);
      AboveFirst(clients[1..]);
      forall i | 0 < i < |clients| ensures clients[0] < clients[i] {
        if i > 1 { assert clients[1..][i - 1] == clients[i]; }
      }
    }
  }

  /** Taking the rest of a sorted list while holding only smaller ones. */
  lemma {:induction false} AcquiresAreDisciplined(before: seq<nat>, rest: seq<nat>, then_: seq<Step>)
    requires StrictlyAscending(before + rest) && Disciplined(Locks(before + rest), then_)
    ensures Disciplined(Locks(before), Acquires(rest) + then_)
    decreases |rest|
  {
    if rest == [] {
      assert before + rest == before && Acquires(rest) + then_ == then_;
    } else {
      var c := rest[0];
      assert before + [c] + rest[1..] == before + rest;
      assert Acquires(rest) + then_ == [Acquire(Lifecycle(c))] + (Acquires(rest[1..]) + then_);
      AcquiresAreDisciplined(before + [c], rest[1..], then_);
      forall h | h in Locks(before) ensures Below(h, Lifecycle(c)) {
        var i :| 0 <= i < |before| && h == Lifecycle(before[i]);
        LessLater(before + rest, i, |before|);
      }
      assert Locks(before + [c]) == Locks(before) + {Lifecycle(c)} by {
        forall m | m in Locks(before) + {Lifecycle(c)} ensures m in Locks(before + [c]) {
          if m == Lifecycle(c) { assert (before + [c])[|before|] == c; }
          else {
            var i :| 0 <= i < |before| && m == Lifecycle(before[i]);
            assert (before + [c])[i] == before[i];
          }
        }
      }
    }
  }

  lemma {:induction false} LessLater(s: seq<nat>, i: nat, j: nat)
    requires StrictlyAscending(s) && i < j < |s|
    ensures s[i] < s[j]
    decreases j
  {
    if i + 1 < j { LessLater(s, i, j - 1); }
    assert s[j - 1] < s[j];
  }

  /** Sorting and looking for equal neighbours finds out exactly whether the clients are distinct. */
  lemma DistinctIffStrict(ids: seq<nat>)
    ensures StrictlyAscending(Sort(ids)) <==> Distinct(ids)
  {
    var order := Sort(ids);
    SortAscends(ids);
    if StrictlyAscending(order) {
      forall n ensures multiset(ids)[n] <= 1 { StrictOnce(order, n); }
      OnceIsDistinct(ids);
    } else {
      var k :| 0 < k < |order| && order[k - 1] >= order[k];
      assert order[k - 1] == order[k];
      TwiceIsTwo(order, k - 1, k);
      if forall i, j | 0 <= i < j < |ids| :: ids[i] != ids[j] {
        DistinctIsOnce(ids, order[k]);
      }
    }
  }

  lemma {:induction false} StrictOnce(s: seq<nat>, n: nat)
    requires StrictlyAscending(s)
    ensures multiset(s)[n] <= 1
  {
    if s != [] {
      TailAscends(s);
      AboveFirst(s);
      StrictOnce(s[1..], n);
      assert s == [s[0]] + s[1..];
      if s[0] == n { assert n !in s[1..]; }
    }
  }

  lemma {:induction false} OnceIsDistinct(s: seq<nat>)
    requires forall n :: multiset(s)[n] <= 1
    ensures forall i, j | 0 <= i < j < |s| :: s[i] != s[j]
  {
    forall i, j | 0 <= i < j < |s| ensures s[i] != s[j] {
      if s[i] == s[j] { TwiceIsTwo(s, i, j); }
    }
  }

  lemma TwiceIsTwo(s: seq<nat>, i: nat, j: nat)
    requires i < j < |s| && s[i] == s[j]
    ensures multiset(s)[s[i]] >= 2
  {
    assert s == s[..j] + s[j..];
    assert s[i] in s[..j] && s[j..][0] == s[i];
    assert multiset(s) == multiset(s[..j]) + multiset(s[j..]);
    assert s[i] in multiset(s[..j]) && s[i] in multiset(s[j..]);
  }

  lemma {:induction false} DistinctIsOnce(s: seq<nat>, n: nat)
    requires forall i, j | 0 <= i < j < |s| :: s[i] != s[j]
    ensures multiset(s)[n] <= 1
  {
    if s != [] {
      forall i, j | 0 <= i < j < |s[1..]| ensures s[1..][i] != s[1..][j] { assert s[i + 1] != s[j + 1]; }
      DistinctIsOnce(s[1..], n);
      assert s == [s[0]] + s[1..];
      forall k | 0 <= k < |s[1..]| ensures s[1..][k] != s[0] { assert s[0] != s[k + 1]; }
    }
  }

  // ----- what each operation holds while it works -----

  ghost predicate Distinct(clients: seq<nat>) {
    forall i, j | 0 <= i < j < |clients| :: clients[i] != clients[j]
  }

  /**
    The mutexes an operation must hold over its work: those of all its clients, and the registry where it is edited.
    A `get_parallel` that names a client twice is refused before it locks anything.
  */
  ghost function Guarded(op: Operation): set<Mutex> {
    match op
    case GetParallel(clients) => if Distinct(clients) then Locks(clients) else {}
    case Single(c) => {Lifecycle(c)}
    case Close(c, releases) => if releases then {Lifecycle(c), Registry} else {Lifecycle(c)}
    case Construct => {Registry}
  }

  /** The mutexes of steps `lo` to `hi`. */
  ghost function Touched(steps: seq<Step>, lo: nat, hi: nat): set<Mutex>
    requires lo <= hi <= |steps|
  {
    set i | lo <= i < hi :: steps[i].m
  }

  /** First every guarded mutex is acquired, once, and only then is any released, each once. */
  ghost predicate TakesThenReleases(steps: seq<Step>, guarded: set<Mutex>) {
    var n := |guarded|;
    && |steps| == 2 * n
    && (forall i | 0 <= i < n :: steps[i].Acquire?) && (forall i | n <= i < 2 * n :: steps[i].Release?)
    && Touched(steps, 0, n) == guarded && Touched(steps, n, 2 * n) == guarded
  }

  lemma {:induction false} StepsAt(clients: seq<nat>)
    ensures |Acquires(clients)| == |Releases(clients)| == |clients|
    ensures forall i | 0 <= i < |clients| :: Acquires(clients)[i] == Acquire(Lifecycle(clients[i]))
    ensures forall i | 0 <= i < |clients| :: Releases(clients)[i] == Release(Lifecycle(clients[i]))
  {
    if clients != [] {
      StepsAt(clients[1..]);
    }
  }

  lemma {:induction false} LocksSize(clients: seq<nat>)
    requires StrictlyAscending(clients)
    ensures |Locks(clients)| == |clients|
  {
    if clients != [] {
      TailAscends(clients);
      AboveFirst(clients);
      LocksSize(clients[1..]);
      LocksSplit(clients);
      assert Lifecycle(clients[0]) !in Locks(clients[1..]);
    }
  }

  lemma LocksSplit(clients: seq<nat>)
    requires clients != []
    ensures Locks(clients) == Locks(clients[1..]) + {Lifecycle(clients[0])}
  {
    forall m | m in Locks(clients) ensures m in Locks(clients[1..]) + {Lifecycle(clients[0])} {
      var i :| 0 <= i < |clients| && m == Lifecycle(clients[i]);
      assert i > 0 ==> clients[1..][i - 1] == clients[i];
    }
    forall m | m in Locks(clients[1..]) ensures m in Locks(clients) {
      var i :| 0 <= i < |clients[1..]| && m == Lifecycle(clients[1..][i]);
      assert clients[i + 1] == clients[1..][i];
    }
  }

  lemma SameLocks(a: seq<nat>, b: seq<nat>)
    requires multiset(a) == multiset(b)
    ensures Locks(a) <= Locks(b)
  {
    forall m | m in Locks(a) ensures m in Locks(b) {
      var i :| 0 <= i < |a| && m == Lifecycle(a[i]);
      assert a[i] in multiset(b);
      var j :| 0 <= j < |b| && b[j] == a[i];
    }
  }

  lemma TouchedLocks(steps: seq<Step>, lo: nat, order: seq<nat>)
    requires lo + |order| <= |steps| && forall i | 0 <= i < |order| :: steps[lo + i].m == Lifecycle(order[i])
    ensures Touched(steps, lo, lo + |order|) == Locks(order)
  {
    forall m | m in Locks(order) ensures m in Touched(steps, lo, lo + |order|) {
      var i :| 0 <= i < |order| && m == Lifecycle(order[i]);
      assert steps[lo + i].m == m;
    }
    forall m | m in Touched(steps, lo, lo + |order|) ensures m in Locks(order) {
      var j :| lo <= j < lo + |order| && steps[j].m == m;
      assert steps[lo + (j - lo)].m == Lifecycle(order[j - lo]);
    }
  }

  lemma SortedTakes(order: seq<nat>)
    requires StrictlyAscending(order)
    ensures TakesThenReleases(Acquires(order) + Releases(order), Locks(order))
  {
    LocksSize(order);
    StepsAt(order);
    var n, s := |order|, Acquires(order) + Releases(order);
    forall i | 0 <= i < n ensures s[i] == Acquire(Lifecycle(order[i])) && s[n + i] == Release(Lifecycle(order[i])) { }
    forall i | n <= i < 2 * n ensures s[i].Release? { assert s[i] == Releases(order)[i - n]; }
    TouchedLocks(s, 0, order);
    TouchedLocks(s, n, order);
  }

  lemma ParallelTakes(clients: seq<nat>)
    ensures TakesThenReleases(Steps(GetParallel(clients)), Guarded(GetParallel(clients)))
  {
    var order := Sort(clients);
    DistinctIffStrict(clients);
    if Distinct(clients) {
      SortedTakes(order);
      SameLocks(order, clients);
      SameLocks(clients, order);
      assert Locks(order) == Locks(clients);
      assert Steps(GetParallel(clients)) == Acquires(order) + Releases(order);
    } else {
      assert Steps(GetParallel(clients)) == [];
    }
  }

  lemma FewTake(op: Operation)
    requires !op.GetParallel?
    ensures TakesThenReleases(Steps(op), Guarded(op))
  {
    var s, g := Steps(op), Guarded(op);
    var n := |s| / 2;
    assert |g| == n;
    forall m ensures m in g <==> m in Touched(s, 0, n) { assert m in g ==> s[0].m == m || (n == 2 && s[1].m == m); }
    forall m ensures m in g <==> m in Touched(s, n, 2 * n) {
      assert m in g ==> s[n].m == m || (n == 2 && s[3].m == m);
    }
  }

  /** Every operation holds exactly the mutexes that guard its work, all of them at once. */
  lemma OperationsTakeTheirMutexes(op: Operation)
    ensures TakesThenReleases(Steps(op), Guarded(op))
  {
    if op.GetParallel? { ParallelTakes(op.clients); } else { FewTake(op); }
  }

  /** What is held after the first `k` steps. */
  ghost function HeldAfter(steps: seq<Step>, k: nat): set<Mutex>
    requires k <= |steps|
  {
    if k == 0 then {}
    else match steps[k - 1]
      case Acquire(m) => HeldAfter(steps, k - 1) + {m}
      case Release(m) => HeldAfter(steps, k - 1) - {m}
  }

  lemma {:induction false} HeldIsTouched(steps: seq<Step>, k: nat)
    requires k <= |steps| && forall i | 0 <= i < k :: steps[i].Acquire?
    ensures HeldAfter(steps, k) == Touched(steps, 0, k)
  {
    if k > 0 {
      HeldIsTouched(steps, k - 1);
      assert Touched(steps, 0, k) == Touched(steps, 0, k - 1) + {steps[k - 1].m};
    }
  }

  /** Between its last acquire and its first release an operation holds what guards it. */
  lemma HeldAtWork(op: Operation)
    ensures |Guarded(op)| <= |Steps(op)| && HeldAfter(Steps(op), |Guarded(op)|) == Guarded(op)
  {
    OperationsTakeTheirMutexes(op);
    HeldIsTouched(Steps(op), |Guarded(op)|);
  }

  lemma GetParallelIsDisciplined(clients: seq<nat>)
    ensures Disciplined({}, Steps(GetParallel(clients)))
  {
    var order := Sort(clients);
    if StrictlyAscending(order) {
      ReleasesAreDisciplined(order);
      assert [] + order == order && Locks([]) == {};
      AcquiresAreDisciplined([], order, Releases(order));
    }
  }

  lemma SingleIsDisciplined(c: nat)
    ensures Disciplined({}, Steps(Single(c)))
  {
    var m := Lifecycle(c);
    assert [Acquire(m), Release(m)][1..] == [Release(m)];
    assert {} + {m} - {m} == {};
  }

  lemma CloseIsDisciplined(c: nat, releases: bool)
    ensures Disciplined({}, Steps(Close(c, releases)))
  {
    var m := Lifecycle(c);
    assert {} + {m} == {m} && {m} - {m} == {};
    assert Disciplined({m}, [Release(m)]);
    if releases {
      assert [Release(Registry), Release(m)][1..] == [Release(m)] && {m} + {Registry} - {Registry} == {m};
      assert Disciplined({m} + {Registry}, [Release(Registry), Release(m)]);
      assert [Acquire(Registry), Release(Registry), Release(m)][1..] == [Release(Registry), Release(m)];
      assert Disciplined({m}, [Acquire(Registry), Release(Registry), Release(m)]);
      assert Steps(Close(c, releases))[1..] == [Acquire(Registry), Release(Registry), Release(m)];
    } else {
      assert Steps(Close(c, releases))[1..] == [Release(m)];
    }
  }

  lemma ConstructIsDisciplined()
    ensures Disciplined({}, Steps(Construct))
  {
    assert Steps(Construct)[1..] == [Release(Registry)];
    assert {} + {Registry} - {Registry} == {};
  }

  /** Whatever clients it is given, every operation takes its mutexes in ascending order and gives them all back. */
  lemma OperationsAreDisciplined(op: Operation)
    ensures Disciplined({}, Steps(op))
  {
    match op
    case GetParallel(clients) => GetParallelIsDisciplined(clients);
    case Single(c) => SingleIsDisciplined(c);
    case Close(c, releases) => CloseIsDisciplined(c, releases);
    case Construct => ConstructIsDisciplined();
  }
}

/** Any number of threads running those operations against each other. */
module LockRuns {
  import opened Words
  import opened LockOrder

  /** `op` is what the thread last began. */
  datatype Thread = Thread(held: set<Mutex>, todo: seq<Step>, op: Option<Operation>)

  type State = seq<Thread>

  datatype Action = Begin(t: nat, op: Operation) | Advance(t: nat)

  predicate Free(s: State, m: Mutex) {
    forall t | 0 <= t < |s| :: m !in s[t].held
  }

  predicate Enabled(s: State, a: Action) {
    match a
    case Begin(t, _) => t < |s| && s[t].todo == []
    case Advance(t) => t < |s| && s[t].todo != [] && (s[t].todo[0].Acquire? ==> Free(s, s[t].todo[0].m))
  }

  function Do(s: State, a: Action): State
    requires Enabled(s, a)
  {
    match a
    case Begin(t, op) => s[t := s[t].(todo := Steps(op), op := Some(op))]
    case Advance(t) =>
      var x := s[t];
      var held := if x.todo[0].Acquire? then x.held + {x.todo[0].m} else x.held - {x.todo[0].m};
      s[t := x.(held := held, todo := x.todo[1..])]
  }

  /** Every thread keeps the order, and no mutex has two owners. */
  ghost predicate Inv(s: State) {
    && (forall t | 0 <= t < |s| :: Disciplined(s[t].held, s[t].todo))
    && (forall t, u | 0 <= t < u < |s| :: s[t].held !! s[u].held)
  }

  lemma StepKeepsInv(s: State, a: Action)
    requires Inv(s) && Enabled(s, a)
    ensures Inv(Do(s, a))
  {
    if a.Begin? {
      OperationsAreDisciplined(a.op);
      assert Disciplined(s[a.t].held, s[a.t].todo);
    } else {
      assert Disciplined(s[a.t].held, s[a.t].todo);
    }
  }

  predicate Waiting(s: State, t: nat) {
    t < |s| && s[t].todo != [] && s[t].todo[0].Acquire?
  }

  function Wanted(s: State, t: nat): Mutex
    requires Waiting(s, t)
  {
    s[t].todo[0].m
  }

  /** `t` waits for a mutex that `u` holds. */
  ghost predicate WaitsFor(s: State, t: nat, u: nat) {
    Waiting(s, t) && u < |s| && Wanted(s, t) in s[u].held
  }

  /** A thread that waits wants something above everything that it holds. */
  lemma WaitingIsUpward(s: State, t: nat, u: nat)
    requires Inv(s) && WaitsFor(s, t, u) && Waiting(s, u)
    ensures Below(Wanted(s, t), Wanted(s, u))
  {
    assert Disciplined(s[u].held, s[u].todo);
  }

  lemma {:induction false} ChainIsUpward(s: State, waiting: seq<nat>)
    requires Inv(s) && |waiting| > 1
    requires forall i | 0 <= i < |waiting| - 1 :: WaitsFor(s, waiting[i], waiting[i + 1])
    requires Waiting(s, waiting[|waiting| - 1])
    ensures Waiting(s, waiting[0]) && Below(Wanted(s, waiting[0]), Wanted(s, waiting[|waiting| - 1]))
  {
    assert WaitsFor(s, waiting[0], waiting[1]);
    if |waiting| == 2 {
      WaitingIsUpward(s, waiting[0], waiting[1]);
    } else {
      assert WaitsFor(s, waiting[1], waiting[2]);
      WaitingIsUpward(s, waiting[0], waiting[1]);
      var rest := waiting[1..];
      forall i | 0 <= i < |rest| - 1 ensures WaitsFor(s, rest[i], rest[i + 1]) {
        assert WaitsFor(s, waiting[i + 1], waiting[i + 2]);
      }
      ChainIsUpward(s, rest);
    }
  }

  /** No threads, however many, ever wait for each other in a circle. */
  lemma NoWaitCycle(s: State, waiting: seq<nat>)
    requires Inv(s) && waiting != []
    requires forall i | 0 <= i < |waiting| - 1 :: WaitsFor(s, waiting[i], waiting[i + 1])
    ensures !WaitsFor(s, waiting[|waiting| - 1], waiting[0])
  {
    var last := waiting[|waiting| - 1];
    if WaitsFor(s, last, waiting[0]) {
      var circle := waiting + [waiting[0]];
      forall i | 0 <= i < |circle| - 1 ensures WaitsFor(s, circle[i], circle[i + 1]) {
        if i < |waiting| - 1 { assert WaitsFor(s, waiting[i], waiting[i + 1]); }
      }
      assert |waiting| > 1 ==> WaitsFor(s, waiting[0], waiting[1]);
      ChainIsUpward(s, circle);
    }
  }

  /** Among the threads that wait, one wants a mutex no other waiter's is above. */
  lemma {:induction false} Topmost(s: State, n: nat) returns (t: nat)
    requires n <= |s| && exists u :: 0 <= u < n && s[u].todo != []
    requires forall u | 0 <= u < n && s[u].todo != [] :: s[u].todo[0].Acquire?
    ensures t < n && s[t].todo != []
    ensures forall u | 0 <= u < n && s[u].todo != [] :: !Below(Wanted(s, t), Wanted(s, u))
  {
    if exists u :: 0 <= u < n - 1 && s[u].todo != [] {
      t := Topmost(s, n - 1);
      if s[n - 1].todo != [] && Below(Wanted(s, t), Wanted(s, n - 1)) { t := n - 1; }
    } else {
      t := n - 1;
    }
  }

  /** Some thread can always take its next step, so the operations never block each other for good. */
  lemma SomeoneMoves(s: State)
    requires Inv(s) && exists t :: 0 <= t < |s| && s[t].todo != []
    ensures exists t: nat :: Enabled(s, Advance(t))
  {
    if exists t :: 0 <= t < |s| && s[t].todo != [] && s[t].todo[0].Release? {
      var t: nat :| t < |s| && s[t].todo != [] && s[t].todo[0].Release?;
      assert Enabled(s, Advance(t));
    } else {
      var t := Topmost(s, |s|);
      if !Free(s, Wanted(s, t)) {
        var u :| 0 <= u < |s| && Wanted(s, t) in s[u].held;
        assert Disciplined(s[u].held, s[u].todo);
        assert WaitsFor(s, t, u);
        WaitingIsUpward(s, t, u);
      }
      assert Enabled(s, Advance(t));
    }
  }

  // ----- runs -----

  ghost predicate Runs(s: State, acts: seq<Action>)
    decreases |acts|
  {
    acts == [] || (Enabled(s, acts[0]) && Runs(Do(s, acts[0]), acts[1..]))
  }

  ghost function After(s: State, acts: seq<Action>): State
    requires Runs(s, acts)
    decreases |acts|
  {
    if acts == [] then s else After(Do(s, acts[0]), acts[1..])
  }

  function Idle(threads: nat): State {
    seq(threads, _ => Thread({}, [], None))
  }

  lemma {:induction false} RunKeepsInv(s: State, acts: seq<Action>)
    requires Inv(s) && Runs(s, acts)
    ensures Inv(After(s, acts))
    decreases |acts|
  {
    if acts != [] {
      StepKeepsInv(s, acts[0]);
      RunKeepsInv(Do(s, acts[0]), acts[1..]);
    }
  }

  // ----- mutual exclusion -----

  /** A thread is somewhere in the steps of its operation, and holds what those before have left it with. */
  ghost predicate OnItsWay(x: Thread) {
    if x.op.None? then x.todo == [] && x.held == {} else Along(Steps(x.op.value), x)
  }

  ghost predicate Along(steps: seq<Step>, x: Thread) {
    |x.todo| <= |steps| && x.todo == steps[|steps| - |x.todo|..] && x.held == HeldAfter(steps, |steps| - |x.todo|)
  }

  ghost predicate AllOnTheirWay(s: State) {
    forall t | 0 <= t < |s| :: OnItsWay(s[t])
  }

  lemma StepStaysOnItsWay(s: State, a: Action)
    requires Inv(s) && AllOnTheirWay(s) && Enabled(s, a)
    ensures AllOnTheirWay(Do(s, a))
  {
    assert OnItsWay(s[a.t]) && Disciplined(s[a.t].held, s[a.t].todo);
    var x := Do(s, a)[a.t];
    if a.Advance? { GoesOn(Steps(x.op.value), s[a.t], x); } else { SetsOut(Steps(x.op.value), x); }
    OthersStay(s, a.t, x);
  }

  lemma OthersStay(s: State, t: nat, x: Thread)
    requires AllOnTheirWay(s) && t < |s| && OnItsWay(x)
    ensures AllOnTheirWay(s[t := x])
  {
  }

  lemma SetsOut(steps: seq<Step>, x: Thread)
    requires x.todo == steps && x.held == {}
    ensures Along(steps, x)
  {
    assert steps[0..] == steps;
  }

  lemma GoesOn(steps: seq<Step>, x: Thread, y: Thread)
    requires x.todo != [] && y.todo == x.todo[1..]
    requires Along(steps, x)
    requires y.held == if x.todo[0].Acquire? then x.held + {x.todo[0].m} else x.held - {x.todo[0].m}
    ensures Along(steps, y)
  {
    var k := |steps| - |x.todo|;
    assert steps[k..][0] == steps[k] && steps[k..][1..] == steps[k + 1..];
  }

  lemma {:induction false} RunStaysOnItsWay(s: State, acts: seq<Action>)
    requires Inv(s) && AllOnTheirWay(s) && Runs(s, acts)
    ensures Inv(After(s, acts)) && AllOnTheirWay(After(s, acts))
    decreases |acts|
  {
    if acts != [] {
      StepKeepsInv(s, acts[0]);
      StepStaysOnItsWay(s, acts[0]);
      RunStaysOnItsWay(Do(s, acts[0]), acts[1..]);
    }
  }

  /** The thread has taken everything its operation takes, and released nothing yet: this is when it does its work. */
  ghost predicate Working(s: State, t: nat) {
    t < |s| && s[t].op.Some? && |s[t].todo| == |Guarded(s[t].op.value)|
  }

  /**
    In every run, a thread at its work holds exactly the mutexes of its clients, and of the registry where it edits
    it, and no other thread holds one of them.
  */
  lemma WorkIsGuarded(threads: nat, acts: seq<Action>, t: nat)
    requires Runs(Idle(threads), acts) && Working(After(Idle(threads), acts), t)
    ensures var s := After(Idle(threads), acts);
            && s[t].held == Guarded(s[t].op.value)
            && forall u | 0 <= u < |s| && u != t :: s[u].held !! Guarded(s[t].op.value)
  {
    RunStaysOnItsWay(Idle(threads), acts);
    var s := After(Idle(threads), acts);
    HoldsAtWork(s[t]);
    Excludes(s, t);
  }

  lemma HoldsAtWork(x: Thread)
    requires OnItsWay(x) && x.op.Some? && |x.todo| == |Guarded(x.op.value)|
    ensures x.held == Guarded(x.op.value)
  {
    OperationsTakeTheirMutexes(x.op.value);
    HeldAtWork(x.op.value);
  }

  lemma Excludes(s: State, t: nat)
    requires Inv(s) && t < |s|
    ensures forall u | 0 <= u < |s| && u != t :: s[u].held !! s[t].held
  {
    forall u | 0 <= u < |s| && u != t ensures s[u].held !! s[t].held {
      if u < t { assert s[u].held !! s[t].held; } else { assert s[t].held !! s[u].held; }
    }
  }

  // ----- progress -----

  /** Steps still to be taken by anybody. */
  ghost function StepsLeft(s: State): nat {
    if s == [] then 0 else |s[0].todo| + StepsLeft(s[1..])
  }

  lemma {:induction false} FewerStepsLeft(s: State, t: nat, x: Thread)
    requires t < |s| && |x.todo| < |s[t].todo|
    ensures StepsLeft(s[t := x]) < StepsLeft(s)
  {
    if t > 0 {
      assert s[t := x][1..] == s[1..][t - 1 := x];
      FewerStepsLeft(s[1..], t - 1, x);
    }
  }

  ghost predicate AllDone(s: State) {
    forall t | 0 <= t < |s| :: s[t].todo == [] && s[t].held == {}
  }

  lemma {:induction false} Finishes(s: State) returns (acts: seq<Action>)
    requires Inv(s)
    ensures Runs(s, acts) && AllDone(After(s, acts))
    decreases StepsLeft(s)
  {
    if exists t :: 0 <= t < |s| && s[t].todo != [] {
      SomeoneMoves(s);
      var t: nat :| Enabled(s, Advance(t));
      StepKeepsInv(s, Advance(t));
      FewerStepsLeft(s, t, Do(s, Advance(t))[t]);
      assert Do(s, Advance(t)) == s[t := Do(s, Advance(t))[t]];
      var rest := Finishes(Do(s, Advance(t)));
      acts := [Advance(t)] + rest;
      assert acts[1..] == rest;
    } else {
      acts := [];
      forall t | 0 <= t < |s| ensures s[t].held == {} { assert Disciplined(s[t].held, s[t].todo); }
    }
  }

  /** From wherever a run has come, the operations begun can all be finished, and then no mutex is held. */
  lemma EverybodyFinishes(threads: nat, before: seq<Action>) returns (acts: seq<Action>)
    requires Runs(Idle(threads), before)
    ensures Runs(After(Idle(threads), before), acts) && AllDone(After(After(Idle(threads), before), acts))
  {
    RunKeepsInv(Idle(threads), before);
    acts := Finishes(After(Idle(threads), before));
  }

  lemma NotAboveItself(held: set<Mutex>, todo: seq<Step>)
    requires Disciplined(held, todo) && todo != [] && todo[0].Acquire?
    ensures todo[0].m !in held
  {
  }

  /** With every other thread idle, `t` takes everything that guards its operation. */
  lemma {:induction false} TakesAll(s: State, t: nat) returns (acts: seq<Action>)
    requires Inv(s) && AllOnTheirWay(s) && t < |s| && s[t].op.Some? && |s[t].todo| >= |Guarded(s[t].op.value)|
    requires forall u | 0 <= u < |s| && u != t :: s[u].held == {}
    ensures Runs(s, acts) && Working(After(s, acts), t) && After(s, acts)[t].op == s[t].op
    decreases |s[t].todo|
  {
    var op := s[t].op.value;
    var n := |Guarded(op)|;
    if |s[t].todo| == n {
      acts := [];
    } else {
      OperationsTakeTheirMutexes(op);
      assert OnItsWay(s[t]) && Disciplined(s[t].held, s[t].todo);
      var k := |Steps(op)| - |s[t].todo|;
      assert s[t].todo[0] == Steps(op)[k];
      NotAboveItself(s[t].held, s[t].todo);
      StepKeepsInv(s, Advance(t));
      StepStaysOnItsWay(s, Advance(t));
      var rest := TakesAll(Do(s, Advance(t)), t);
      acts := [Advance(t)] + rest;
      assert acts[1..] == rest;
    }
  }

  /** Where nothing is going on, any operation on any clients can be begun and gets to its work. */
  lemma ReachesItsWork(s: State, t: nat, op: Operation) returns (acts: seq<Action>)
    requires Inv(s) && AllOnTheirWay(s) && AllDone(s) && t < |s|
    ensures Runs(s, acts) && Working(After(s, acts), t) && After(s, acts)[t].op == Some(op)
  {
    var b := Do(s, Begin(t, op));
    StepKeepsInv(s, Begin(t, op));
    StepStaysOnItsWay(s, Begin(t, op));
    OperationsTakeTheirMutexes(op);
    var rest := TakesAll(b, t);
    acts := [Begin(t, op)] + rest;
    assert acts[1..] == rest;
  }

  /** From wherever a run has come, once everybody is done any thread can begin any operation and gets to its work. */
  lemma AnyOperationWorks(threads: nat, before: seq<Action>, t: nat, op: Operation) returns (acts: seq<Action>)
    requires Runs(Idle(threads), before) && AllDone(After(Idle(threads), before))
    requires t < |After(Idle(threads), before)|
    ensures var s := After(Idle(threads), before);
            Runs(s, acts) && Working(After(s, acts), t) && After(s, acts)[t].op == Some(op)
  {
    RunStaysOnItsWay(Idle(threads), before);
    acts := ReachesItsWork(After(Idle(threads), before), t, op);
  }

  /** Over every run of any operations on any clients: no wait cycle, and someone can always move. */
  lemma NeverDeadlocks(threads: nat, acts: seq<Action>, waiting: seq<nat>)
    requires Runs(Idle(threads), acts)
    ensures var s := After(Idle(threads), acts);
            && ((exists t :: 0 <= t < |s| && s[t].todo != []) ==> exists t: nat :: Enabled(s, Advance(t)))
            && (waiting != [] && (forall i | 0 <= i < |waiting| - 1 :: WaitsFor(s, waiting[i], waiting[i + 1])) ==>
                  !WaitsFor(s, waiting[|waiting| - 1], waiting[0]))
  {
    RunKeepsInv(Idle(threads), acts);
    var s := After(Idle(threads), acts);
    if exists t :: 0 <= t < |s| && s[t].todo != [] { SomeoneMoves(s); }
    if waiting != [] && forall i | 0 <= i < |waiting| - 1 :: WaitsFor(s, waiting[i], waiting[i + 1]) {
      NoWaitCycle(s, waiting);
    }
  }
}

/** `get_parallel`, and how it leaves the clients it was given. */
module ParallelGet {
  import opened Words
  import opened LockOrder

  datatype Lifecycle = Constructing | Established | Quarantined | Closed

  class Client {
    /** The client's address, which the lock order compares. */
    const id: nat
    var state: Lifecycle
    var operations: bool              // operations_ != nullptr
    var operationsQuarantined: bool   // what the backend reports
    var published: nat                // quarantine publications

    constructor (id: nat)
      ensures this.id == id && state.Constructing? && published == 0
    {
      this.id := id;
      state := Constructing;
      operations := false;
      operationsQuarantined := false;
      published := 0;
    }

    /** `sync_operations_quarantine`: a quarantined backend quarantines the client, once. */
    method SyncOperationsQuarantine()
      modifies this`state, this`published
      ensures var moves := operations && operationsQuarantined && !old(state.Quarantined?);
              && state == (if moves then Quarantined else old(state))
              && published == old(published) + (if moves then 1 else 0)
    {
      if !operations || !operationsQuarantined || state.Quarantined? {
        return;
      }
      state := Quarantined;
      published := published + 1;
    }
  }

  /** Addresses identify clients. */
  ghost predicate ByAddress(clients: seq<Client?>) {
    forall i, j | 0 <= i < j < |clients| && clients[i] != null && clients[j] != null ::
      clients[i].id == clients[j].id <==> clients[i] == clients[j]
  }

  function Ids(clients: seq<Client>): seq<nat> {
    seq(|clients|, i requires 0 <= i < |clients| => clients[i].id)
  }

  /** `std::sort` on the addresses. */
  method SortAddresses(ids: seq<nat>) returns (order: seq<nat>)
    ensures order == Sort(ids)
  {
    order := [];
    var i := |ids|;
    while i > 0
      invariant 0 <= i <= |ids| && order == Sort(ids[i..])
    {
      i := i - 1;
      assert ids[i..][1..] == ids[i + 1..];
      order := Insert(ids[i], order);
    }
    assert ids[0..] == ids;
  }

  /** `std::adjacent_find`, on a sorted sequence. */
  method HasAdjacentEqual(order: seq<nat>) returns (found: bool)
    requires Ascending(order)
    ensures found == !StrictlyAscending(order)
  {
    var i := 1;
    while i < |order|
      invariant i >= 1 && forall j | 0 < j < i && j < |order| :: order[j - 1] < order[j]
    {
      if order[i - 1] == order[i] {
        return true;
      }
      i := i + 1;
    }
    return false;
  }

  datatype Outcome = Rejected | Unestablished | Failed | Found(answers: seq<bool>)

  /** The argument checks: nonempty, one key each, no null, no client twice. */
  ghost predicate Acceptable(clients: seq<Client?>, keys: seq<string>) {
    && clients != [] && |clients| == |keys| && null !in clients
    && forall i, j | 0 <= i < j < |clients| :: clients[i] != clients[j]
  }

  predicate Usable(c: Client)
    reads c
  {
    c.state.Established? && c.operations
  }

  /** `c` after its quarantine state was synchronised, if `synced`. */
  twostate predicate Left(c: Client, synced: bool)
    reads c
  {
    && c.state == (if synced && c.operationsQuarantined then Quarantined else old(c.state))
    && c.published == old(c.published) + (if synced && c.operationsQuarantined then 1 else 0)
  }

  /** Null checks in caller order. */
  method NonNull(clients: seq<Client?>) returns (live: seq<Client>, ok: bool)
    ensures ok <==> null !in clients
    ensures ok ==> live == clients
  {
    live := [];
    for i := 0 to |clients|
      invariant |live| == i && forall j | 0 <= j < i :: live[j] == clients[j]
    {
      var c := clients[i];
      if c == null {
        return [], false;
      }
      live := live + [c];
    }
    return live, true;
  }

  /** Synchronises every client, in caller order. */
  method SyncAll(clients: seq<Client>)
    requires forall i, j | 0 <= i < j < |clients| :: clients[i] != clients[j]
    requires forall i | 0 <= i < |clients| :: Usable(clients[i])
    modifies set c | c in clients
    ensures forall i | 0 <= i < |clients| :: Left(clients[i], true)
  {
    for i := 0 to |clients|
      invariant forall j | 0 <= j < |clients| :: Left(clients[j], j < i)
      invariant forall j | i <= j < |clients| :: Usable(clients[j])
      invariant forall j | 0 <= j < |clients| ::
                  clients[j].operationsQuarantined == old(clients[j].operationsQuarantined)
    {
      clients[i].SyncOperationsQuarantine();
    }
  }

  /** The checks before any mutex is taken, and the order the mutexes are then taken in. */
  method LockOrderOf(clients: seq<Client?>, keys: seq<string>) returns (ok: bool, live: seq<Client>, order: seq<nat>)
    requires ByAddress(clients)
    ensures ok <==> Acceptable(clients, keys)
    ensures ok ==> live == clients && order == Sort(Ids(live)) && StrictlyAscending(order)
  {
    if clients == [] || |clients| != |keys| {
      return false, [], [];
    }
    live, ok := NonNull(clients);
    if !ok {
      return false, [], [];
    }
    var ids := Ids(live);
    order := SortAddresses(ids);
    SortAscends(ids);
    DistinctIffStrict(ids);
    var twice := HasAdjacentEqual(order);
    if twice {
      ghost var i, j :| 0 <= i < j < |ids| && ids[i] == ids[j];
      assert clients[i] == clients[j];
      return false, [], [];
    }
    forall i, j | 0 <= i < j < |clients| ensures clients[i] != clients[j] { assert ids[i] != ids[j]; }
    return true, live, order;
  }

  /** One `unique_lock` per client, in the given order. */
  method LockAll(order: seq<nat>) returns (steps: seq<Step>)
    ensures steps == Acquires(order)
  {
    steps := [];
    StepsAt(order);
    for i := 0 to |order|
      invariant steps == Acquires(order)[..i]
    {
      steps := steps + [Acquire(Mutex.Lifecycle(order[i]))];
    }
  }

  /** The locks are destroyed in the order of their vector. */
  method UnlockAll(order: seq<nat>) returns (steps: seq<Step>)
    ensures steps == Releases(order)
  {
    steps := [];
    StepsAt(order);
    for i := 0 to |order|
      invariant steps == Releases(order)[..i]
    {
      steps := steps + [Release(Mutex.Lifecycle(order[i]))];
    }
  }

  method AllUsable(clients: seq<Client>) returns (ok: bool)
    ensures ok <==> forall i | 0 <= i < |clients| :: Usable(clients[i])
  {
    for i := 0 to |clients|
      invariant forall j | 0 <= j < i :: Usable(clients[j])
    {
      if !Usable(clients[i]) {
        return false;
      }
    }
    return true;
  }

  /** One answer per client, in the caller's order. */
  method FetchAll(clients: seq<Client>, keys: seq<string>, fetch: (nat, string) -> bool) returns (answers: seq<bool>)
    requires |keys| == |clients|
    ensures |answers| == |clients| && forall i | 0 <= i < |clients| :: answers[i] == fetch(clients[i].id, keys[i])
  {
    answers := [];
    for i := 0 to |clients|
      invariant |answers| == i && forall j | 0 <= j < i :: answers[j] == fetch(clients[j].id, keys[j])
    {
      answers := answers + [fetch(clients[i].id, keys[i])];
    }
  }

  /**
    `get_parallel`. `fetch` is what the backend answers for one client and key, and `fails` whether it throws.
    `order` is the order the lifecycle mutexes are taken in, and `steps` logs each mutex taken and given back; answers
    come back in the caller's order.
  */
  method GetParallel(clients: seq<Client?>, keys: seq<string>, fetch: (nat, string) -> bool, fails: bool)
    returns (r: Outcome, order: seq<nat>, steps: seq<Step>)
    requires ByAddress(clients)
    modifies set c: Client | c in clients
    ensures r == Rejected ==> steps == []
    ensures r != Rejected ==>
              null !in clients && Distinct(Ids(clients)) && steps == Steps(Operation.GetParallel(Ids(clients)))
    ensures r == Rejected <==> !Acceptable(clients, keys)
    ensures r != Rejected ==> null !in clients && order == Sort(Ids(clients)) && StrictlyAscending(order)
    ensures r == Unestablished <==>
              Acceptable(clients, keys) && !forall i | 0 <= i < |clients| :: old(Usable(clients[i]))
    ensures r == Failed <==> fails && r != Rejected && r != Unestablished
    ensures r.Found? ==> |r.answers| == |clients| && forall i | 0 <= i < |clients| ::
              r.answers[i] == fetch(clients[i].id, keys[i])
    ensures forall i | 0 <= i < |clients| && clients[i] != null :: Left(clients[i], r.Found? || r == Failed)
  {
    var ok, live, locks := LockOrderOf(clients, keys);
    order := locks;
    if !ok {
      return Rejected, order, [];
    }
    DistinctIffStrict(Ids(live));
    var locked := LockAll(order);
    var released := UnlockAll(order);
    var usable := AllUsable(live);
    if !usable {
      return Unestablished, order, locked + released;
    }
    if fails {
      SyncAll(live);
      return Failed, order, locked + released;
    }
    var answers := FetchAll(live, keys, fetch);
    SyncAll(live);
    return Found(answers), order, locked + released;
  }
}
