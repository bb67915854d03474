/**
  The process-lifetime list of quarantined holders: any number of threads push onto it with a compare-and-swap
  loop, while others take the whole list with one exchange, free what is safe and push the rest back.
*/
module QuarantineList {
  import opened Words

  type Ptr = Option<nat>

  /** A draining thread: idle, at `cur` of its private chain, or pushing `node` back with `rest` still to visit. */
  datatype Drainer = Idle | Walking(cur: Ptr) | Repushing(node: nat, rest: Ptr)

  /**
    Holders are addresses. `next` is the link field of every holder, written only by the thread that has the holder
    in hand. `pushing` are the holders inside a push loop, `published` those whose push has succeeded, `safe` those
    marked safe. The address of a freed holder may be used again.
  */
  datatype State = State(
    head: Ptr, next: map<nat, Ptr>, pushing: set<nat>, published: set<nat>, freed: set<nat>, safe: set<nat>,
    drainers: seq<Drainer>)

  datatype Action =
    | BeginPush(node: nat, safe: bool)
    | TryPush(node: nat, spurious: bool)
    | Exchange(d: nat)
    | Visit(d: nat)
    | TryRepush(d: nat, spurious: bool)
    | Leave(d: nat)

  function Start(threads: nat): State {
    State(None, map[], {}, {}, {}, {}, seq(threads, _ => Idle))
  }

  /** Follows a link; a holder without one is a dangling pointer. */
  function Link(s: State, n: nat): Ptr {
    if n in s.next then s.next[n] else None
  }

  predicate Enabled(s: State, a: Action) {
    match a
    case BeginPush(n, _) => n !in s.pushing && (n in s.published ==> n in s.freed)
    case TryPush(n, _) => n in s.pushing
    case Exchange(d) => d < |s.drainers| && s.drainers[d].Idle?
    case Visit(d) => d < |s.drainers| && s.drainers[d].Walking? && s.drainers[d].cur.Some?
    case TryRepush(d, _) => d < |s.drainers| && s.drainers[d].Repushing?
    case Leave(d) => d < |s.drainers| && s.drainers[d] == Walking(None)
  }

  /** One compare-and-swap: it can fail spuriously, and a failure reloads the head into the link. */
  function Swap(s: State, n: nat, spurious: bool): (bool, State) {
    if !spurious && s.head == Link(s, n) then (true, s.(head := Some(n)))
    else (false, s.(next := s.next[n := s.head]))
  }

  function Do(s: State, a: Action): State
    requires Enabled(s, a)
  {
    match a
    case BeginPush(n, safe) =>
      s.(next := s.next[n := s.head], pushing := s.pushing + {n}, published := s.published - {n},
         freed := s.freed - {n},
         safe := if safe then s.safe + {n} else s.safe - {n})
    case TryPush(n, spurious) =>
      var (done, t) := Swap(s, n, spurious);
      if done then t.(pushing := t.pushing - {n}, published := t.published + {n}) else t
    case Exchange(d) => s.(head := None, drainers := s.drainers[d := Walking(s.head)])
    case Visit(d) =>
      var n := s.drainers[d].cur.value;
      if n in s.safe then s.(freed := s.freed + {n}, drainers := s.drainers[d := Walking(Link(s, n))])
      else s.(next := s.next[n := s.head], drainers := s.drainers[d := Repushing(n, Link(s, n))])
    case TryRepush(d, spurious) =>
      var (done, t) := Swap(s, s.drainers[d].node, spurious);
      if done then t.(drainers := t.drainers[d := Walking(s.drainers[d].rest)]) else t
    case Leave(d) => s.(drainers := s.drainers[d := Idle])
  }

  // ----- chains -----

  /** The holders reached from `p` are exactly `xs`, in order. */
  predicate Chain(next: map<nat, Ptr>, p: Ptr, xs: seq<nat>)
    decreases |xs|
  {
    if xs == [] then p.None? else p == Some(xs[0]) && xs[0] in next && Chain(next, next[xs[0]], xs[1..])
  }

  lemma {:induction false} ChainFrame(next: map<nat, Ptr>, p: Ptr, xs: seq<nat>, n: nat, q: Ptr)
    requires Chain(next, p, xs) && n !in xs
    ensures Chain(next[n := q], p, xs)
    decreases |xs|
  {
    if xs != [] { ChainFrame(next, next[xs[0]], xs[1..], n, q); }
  }

  /** What a draining thread has still to visit. */
  function Rest(d: Drainer): Ptr {
    match d case Idle => None case Walking(p) => p case Repushing(_, p) => p
  }

  // ----- where a holder is -----

  /** How often `n` occurs in a chain. */
  function Count(xs: seq<nat>, n: nat): nat {
    if xs == [] then 0 else (if xs[0] == n then 1 else 0) + Count(xs[1..], n)
  }

  lemma {:induction false} CountZero(xs: seq<nat>, n: nat)
    requires Count(xs, n) == 0
    ensures n !in xs
  {
    if xs != [] { CountZero(xs[1..], n); }
  }

  function Hand(d: Drainer, n: nat): nat {
    if d.Repushing? && d.node == n then 1 else 0
  }

  /** How often `n` occurs in the threads' hands and private chains. */
  function Taken(drainers: seq<Drainer>, chains: seq<seq<nat>>, n: nat): nat
    requires |drainers| == |chains|
  {
    if drainers == [] then 0 else Hand(drainers[0], n) + Count(chains[0], n) + Taken(drainers[1..], chains[1..], n)
  }

  lemma {:induction false} TakenUpdate(drainers: seq<Drainer>, chains: seq<seq<nat>>, d: nat, x: Drainer,
                                       xs: seq<nat>, n: nat)
    requires |drainers| == |chains| && d < |drainers|
    ensures Taken(drainers[d := x], chains[d := xs], n) + Hand(drainers[d], n) + Count(chains[d], n)
         == Taken(drainers, chains, n) + Hand(x, n) + Count(xs, n)
  {
    var ds, cs := drainers[d := x], chains[d := xs];
    if d == 0 {
      assert ds[1..] == drainers[1..] && cs[1..] == chains[1..];
    } else {
      TakenUpdate(drainers[1..], chains[1..], d - 1, x, xs, n);
      assert ds[1..] == drainers[1..][d - 1 := x] && cs[1..] == chains[1..][d - 1 := xs];
    }
  }

  /** What one thread holds in hand and another has in its chain are counted apart. */
  lemma {:induction false} TakenHas(drainers: seq<Drainer>, chains: seq<seq<nat>>, d: nat, e: nat, n: nat)
    requires |drainers| == |chains| && d < |drainers| && e < |drainers|
    ensures Hand(drainers[d], n) + Count(chains[e], n) <= Taken(drainers, chains, n)
  {
    if d == 0 && e == 0 {
    } else if d == 0 {
      TakenHas(drainers[1..], chains[1..], e - 1, e - 1, n);
    } else if e == 0 {
      TakenHas(drainers[1..], chains[1..], d - 1, d - 1, n);
    } else {
      TakenHas(drainers[1..], chains[1..], d - 1, e - 1, n);
    }
  }

  function Places(s: State, shared: seq<nat>, chains: seq<seq<nat>>, n: nat): nat
    requires |chains| == |s.drainers|
  {
    Count(shared, n) + Taken(s.drainers, chains, n)
  }

  predicate Live(s: State, n: nat) {
    n in s.published && n !in s.freed
  }

  /** Every published holder not yet freed is in exactly one place, once; no other holder is anywhere. */
  ghost predicate Placed(s: State, shared: seq<nat>, chains: seq<seq<nat>>)
    requires |chains| == |s.drainers|
  {
    forall n: nat :: Places(s, shared, chains, n) == if Live(s, n) then 1 else 0
  }

  /** The shared list and every private chain follow the links. */
  ghost predicate Linked(s: State, shared: seq<nat>, chains: seq<seq<nat>>)
    requires |chains| == |s.drainers|
  {
    Chain(s.next, s.head, shared) && forall d | 0 <= d < |chains| :: Chain(s.next, Rest(s.drainers[d]), chains[d])
  }

  ghost predicate Accounted(s: State, shared: seq<nat>, chains: seq<seq<nat>>) {
    && |chains| == |s.drainers| && Linked(s, shared, chains) && Placed(s, shared, chains)
    && s.pushing !! s.published && s.freed <= s.published && s.freed <= s.safe
    && (forall n | n in s.pushing :: n in s.next)
    && (forall d | 0 <= d < |s.drainers| && s.drainers[d].Repushing? :: s.drainers[d].node in s.next)
  }

  ghost predicate Inv(s: State) {
    exists shared, chains :: Accounted(s, shared, chains)
  }

  // ----- steps -----

  lemma StartIsInv(threads: nat)
    ensures Inv(Start(threads))
  {
    var s := Start(threads);
    var chains := seq(threads, _ => []);
    forall n: nat ensures Places(s, [], chains, n) == 0 {
      TakenIdle(s.drainers, chains, n);
    }
    assert Accounted(s, [], chains);
  }

  lemma {:induction false} TakenIdle(drainers: seq<Drainer>, chains: seq<seq<nat>>, n: nat)
    requires |drainers| == |chains| && forall d | 0 <= d < |drainers| :: drainers[d].Idle? && chains[d] == []
    ensures Taken(drainers, chains, n) == 0
  {
    if drainers != [] { TakenIdle(drainers[1..], chains[1..], n); }
  }

  /** A holder in nobody's chain can have its link rewritten without moving anything. */
  lemma LinkFrame(s: State, shared: seq<nat>, chains: seq<seq<nat>>, n: nat, q: Ptr)
    requires |chains| == |s.drainers| && Linked(s, shared, chains)
    requires n !in shared && forall d | 0 <= d < |chains| :: n !in chains[d]
    ensures Linked(s.(next := s.next[n := q]), shared, chains)
  {
    ChainFrame(s.next, s.head, shared, n, q);
    forall d | 0 <= d < |chains| ensures Chain(s.next[n := q], Rest(s.drainers[d]), chains[d]) {
      ChainFrame(s.next, Rest(s.drainers[d]), chains[d], n, q);
    }
  }

  /** A holder counted nowhere is in no chain. */
  lemma Absent(s: State, shared: seq<nat>, chains: seq<seq<nat>>, n: nat)
    requires |chains| == |s.drainers| && Places(s, shared, chains, n) == 0
    ensures n !in shared && forall d | 0 <= d < |chains| :: n !in chains[d]
  {
    CountZero(shared, n);
    forall d | 0 <= d < |chains| ensures n !in chains[d] {
      TakenHas(s.drainers, chains, d, d, n);
      CountZero(chains[d], n);
    }
  }

  /** A live holder in a thread's hand is in no chain. */
  lemma InHand(s: State, shared: seq<nat>, chains: seq<seq<nat>>, d: nat)
    requires |chains| == |s.drainers| && Placed(s, shared, chains) && d < |s.drainers| && s.drainers[d].Repushing?
    ensures var n := s.drainers[d].node; Live(s, n) && n !in shared && forall e | 0 <= e < |chains| :: n !in chains[e]
  {
    var n := s.drainers[d].node;
    assert Places(s, shared, chains, n) <= 1;
    TakenHas(s.drainers, chains, d, d, n);
    CountZero(shared, n);
    forall e | 0 <= e < |chains| ensures n !in chains[e] {
      TakenHas(s.drainers, chains, d, e, n);
      CountZero(chains[e], n);
    }
  }

  lemma BeginPushKeeps(s: State, n: nat, safe: bool, shared: seq<nat>, chains: seq<seq<nat>>)
    requires Accounted(s, shared, chains) && Enabled(s, BeginPush(n, safe))
    ensures Accounted(Do(s, BeginPush(n, safe)), shared, chains)
  {
    var t := Do(s, BeginPush(n, safe));
    assert Places(s, shared, chains, n) == 0;
    Absent(s, shared, chains, n);
    LinkFrame(s, shared, chains, n, s.head);
    forall m: nat ensures Places(t, shared, chains, m) == if Live(t, m) then 1 else 0 {
      assert Places(t, shared, chains, m) == Places(s, shared, chains, m);
    }
  }

  /** Putting a holder in front of the shared list. */
  lemma Prepend(s: State, shared: seq<nat>, chains: seq<seq<nat>>, n: nat)
    requires |chains| == |s.drainers| && Linked(s, shared, chains) && n in s.next && s.next[n] == s.head
    ensures Linked(s.(head := Some(n)), [n] + shared, chains)
    ensures forall m :: Count([n] + shared, m) == Count(shared, m) + if m == n then 1 else 0
  {
    assert ([n] + shared)[1..] == shared;
  }

  lemma TryPushKeeps(s: State, n: nat, spurious: bool, shared: seq<nat>, chains: seq<seq<nat>>)
    requires Accounted(s, shared, chains) && Enabled(s, TryPush(n, spurious))
    ensures Inv(Do(s, TryPush(n, spurious)))
  {
    var t := Do(s, TryPush(n, spurious));
    assert Places(s, shared, chains, n) == 0;
    Absent(s, shared, chains, n);
    if Swap(s, n, spurious).0 {
      Prepend(s, shared, chains, n);
      forall m: nat ensures Places(t, [n] + shared, chains, m) == if Live(t, m) then 1 else 0 {
        assert Places(s, shared, chains, m) == if Live(s, m) then 1 else 0;
      }
      assert Accounted(t, [n] + shared, chains);
    } else {
      LinkFrame(s, shared, chains, n, s.head);
      forall m: nat ensures Places(t, shared, chains, m) == if Live(t, m) then 1 else 0 {
        assert Places(t, shared, chains, m) == Places(s, shared, chains, m);
      }
      assert Accounted(t, shared, chains);
    }
  }

  lemma ExchangeKeeps(s: State, d: nat, shared: seq<nat>, chains: seq<seq<nat>>)
    requires Accounted(s, shared, chains) && Enabled(s, Exchange(d))
    ensures Inv(Do(s, Exchange(d)))
  {
    var t := Do(s, Exchange(d));
    assert Chain(s.next, Rest(s.drainers[d]), chains[d]);
    forall m: nat ensures Places(t, [], chains[d := shared], m) == if Live(t, m) then 1 else 0 {
      TakenUpdate(s.drainers, chains, d, Walking(s.head), shared, m);
      assert Places(s, shared, chains, m) == if Live(s, m) then 1 else 0;
    }
    assert Accounted(t, [], chains[d := shared]);
  }

  /** The first holder of a private chain is live, and stepping over it takes just it out of the chain. */
  lemma StepOver(s: State, d: nat, shared: seq<nat>, chains: seq<seq<nat>>)
    requires Accounted(s, shared, chains) && Enabled(s, Visit(d))
    ensures var n, xs := s.drainers[d].cur.value, chains[d];
            && xs != [] && xs[0] == n && n in s.next && Chain(s.next, s.next[n], xs[1..]) && Live(s, n)
  {
    var n := s.drainers[d].cur.value;
    assert Chain(s.next, Rest(s.drainers[d]), chains[d]);
    TakenHas(s.drainers, chains, d, d, n);
    assert Places(s, shared, chains, n) > 0;
  }

  lemma VisitSafeKeeps(s: State, d: nat, shared: seq<nat>, chains: seq<seq<nat>>)
    requires Accounted(s, shared, chains) && Enabled(s, Visit(d)) && s.drainers[d].cur.value in s.safe
    ensures Inv(Do(s, Visit(d)))
  {
    var t := Do(s, Visit(d));
    var n, xs := s.drainers[d].cur.value, chains[d];
    StepOver(s, d, shared, chains);
    forall m: nat ensures Places(t, shared, chains[d := xs[1..]], m) == if Live(t, m) then 1 else 0 {
      TakenUpdate(s.drainers, chains, d, t.drainers[d], xs[1..], m);
      assert Places(s, shared, chains, m) == if Live(s, m) then 1 else 0;
    }
    assert Accounted(t, shared, chains[d := xs[1..]]);
  }

  lemma VisitUnsafeKeeps(s: State, d: nat, shared: seq<nat>, chains: seq<seq<nat>>)
    requires Accounted(s, shared, chains) && Enabled(s, Visit(d)) && s.drainers[d].cur.value !in s.safe
    ensures Inv(Do(s, Visit(d)))
  {
    var t := Do(s, Visit(d));
    var n, cs := s.drainers[d].cur.value, chains[d := chains[d][1..]];
    StepOver(s, d, shared, chains);
    forall m: nat ensures Places(t, shared, cs, m) == if Live(t, m) then 1 else 0 {
      TakenUpdate(s.drainers, chains, d, t.drainers[d], chains[d][1..], m);
      assert Places(s, shared, chains, m) == if Live(s, m) then 1 else 0;
    }
    var mid := s.(drainers := t.drainers);
    assert Linked(mid, shared, cs);
    InHand(t, shared, cs, d);
    LinkFrame(mid, shared, cs, n, s.head);
    assert Accounted(t, shared, cs);
  }

  lemma RepushPlaces(s: State, d: nat, shared: seq<nat>, chains: seq<seq<nat>>)
    requires Accounted(s, shared, chains) && Enabled(s, TryRepush(d, false)) && s.head == Link(s, s.drainers[d].node)
    ensures Inv(Do(s, TryRepush(d, false)))
  {
    var t := Do(s, TryRepush(d, false));
    var n := s.drainers[d].node;
    Prepend(s, shared, chains, n);
    assert chains[d := chains[d]] == chains;
    forall m: nat ensures Places(t, [n] + shared, chains, m) == if Live(t, m) then 1 else 0 {
      TakenUpdate(s.drainers, chains, d, t.drainers[d], chains[d], m);
      assert Places(s, shared, chains, m) == if Live(s, m) then 1 else 0;
    }
    assert Accounted(t, [n] + shared, chains);
  }

  lemma TryRepushKeeps(s: State, d: nat, spurious: bool, shared: seq<nat>, chains: seq<seq<nat>>)
    requires Accounted(s, shared, chains) && Enabled(s, TryRepush(d, spurious))
    ensures Inv(Do(s, TryRepush(d, spurious)))
  {
    var t := Do(s, TryRepush(d, spurious));
    var n := s.drainers[d].node;
    InHand(s, shared, chains, d);
    if Swap(s, n, spurious).0 {
      RepushPlaces(s, d, shared, chains);
    } else {
      LinkFrame(s, shared, chains, n, s.head);
      forall m: nat ensures Places(t, shared, chains, m) == if Live(t, m) then 1 else 0 {
        assert Places(t, shared, chains, m) == Places(s, shared, chains, m);
      }
      assert Accounted(t, shared, chains);
    }
  }

  lemma LeaveKeeps(s: State, d: nat, shared: seq<nat>, chains: seq<seq<nat>>)
    requires Accounted(s, shared, chains) && Enabled(s, Leave(d))
    ensures Accounted(Do(s, Leave(d)), shared, chains)
  {
    var t := Do(s, Leave(d));
    assert chains[d := chains[d]] == chains;
    forall m: nat ensures Places(t, shared, chains, m) == if Live(t, m) then 1 else 0 {
      TakenUpdate(s.drainers, chains, d, Idle, chains[d], m);
      assert Places(s, shared, chains, m) == if Live(s, m) then 1 else 0;
    }
  }

  lemma StepKeepsInv(s: State, a: Action)
    requires Inv(s) && Enabled(s, a)
    ensures Inv(Do(s, a))
  {
    var shared, chains :| Accounted(s, shared, chains);
    match a
    case BeginPush(n, safe) => BeginPushKeeps(s, n, safe, shared, chains);
    case TryPush(n, spurious) => TryPushKeeps(s, n, spurious, shared, chains);
    case Exchange(d) => ExchangeKeeps(s, d, shared, chains);
    case Visit(d) =>
      if s.drainers[d].cur.value in s.safe { VisitSafeKeeps(s, d, shared, chains); }
      else { VisitUnsafeKeeps(s, d, shared, chains); }
    case TryRepush(d, spurious) => TryRepushKeeps(s, d, spurious, shared, chains);
    case Leave(d) => LeaveKeeps(s, d, shared, chains);
  }

  // ----- runs -----

  ghost predicate Runs(s: State, acts: seq<Action>)
    decreases |acts|
  {
    acts == [] || (Enabled(s, acts[0]) && Runs(Do(s, acts[0]), acts[1..]))
  }

  ghost function After(s: State, acts: seq<Action>): State
    requires Runs(s, acts)
    decreases |acts|
  {
    if acts == [] then s else After(Do(s, acts[0]), acts[1..])
  }

  lemma {:induction false} RunKeepsInv(s: State, acts: seq<Action>)
    requires Inv(s) && Runs(s, acts)
    ensures Inv(After(s, acts))
    decreases |acts|
  {
    if acts != [] {
      StepKeepsInv(s, acts[0]);
      RunKeepsInv(Do(s, acts[0]), acts[1..]);
    }
  }

  /** Every holder is freed only if it was marked safe; until then it is reachable, from one place, once. */
  ghost predicate NoneLost(s: State) {
    && s.freed <= s.safe
    && exists shared, chains :: Accounted(s, shared, chains)
  }

  lemma {:induction false} CountOnce(xs: seq<nat>)
    requires forall n :: Count(xs, n) <= 1
    ensures forall i, j | 0 <= i < j < |xs| :: xs[i] != xs[j]
  {
    if xs != [] {
      forall n ensures Count(xs[1..], n) <= 1 { assert Count(xs, n) <= 1; }
      CountOnce(xs[1..]);
      forall i, j | 0 <= i < j < |xs| ensures xs[i] != xs[j] {
        if i == 0 {
          assert Count(xs, xs[0]) <= 1;
          CountZero(xs[1..], xs[0]);
          assert xs[j] == xs[1..][j - 1];
        } else {
          assert xs[i] == xs[1..][i - 1] && xs[j] == xs[1..][j - 1];
        }
      }
    }
  }

  lemma {:induction false} CountIn(xs: seq<nat>, n: nat)
    ensures Count(xs, n) > 0 <==> n in xs
  {
    if xs != [] { CountIn(xs[1..], n); }
  }

  /** With no thread draining, the list from the head holds exactly the published holders not yet freed, each once. */
  lemma IdleListIsExact(threads: nat, acts: seq<Action>)
    returns (list: seq<nat>)
    requires Runs(Start(threads), acts)
    requires forall d | 0 <= d < |After(Start(threads), acts).drainers| :: After(Start(threads), acts).drainers[d].Idle?
    ensures var s := After(Start(threads), acts);
            && Chain(s.next, s.head, list) && (forall n: nat :: n in list <==> Live(s, n))
            && (forall i, j | 0 <= i < j < |list| :: list[i] != list[j]) && s.freed <= s.safe
  {
    StartIsInv(threads);
    RunKeepsInv(Start(threads), acts);
    var s := After(Start(threads), acts);
    var shared, chains :| Accounted(s, shared, chains);
    forall d | 0 <= d < |chains| ensures chains[d] == [] { assert Chain(s.next, Rest(s.drainers[d]), chains[d]); }
    forall n: nat ensures Count(shared, n) == if Live(s, n) then 1 else 0 {
      TakenIdle(s.drainers, chains, n);
      assert Places(s, shared, chains, n) == if Live(s, n) then 1 else 0;
    }
    forall n: nat ensures n in shared <==> Live(s, n) { CountIn(shared, n); }
    CountOnce(shared);
    list := shared;
  }

  /** Under any interleaving of pushes and drains nothing is lost, duplicated, or freed without being safe. */
  lemma NothingLostOrDuplicated(threads: nat, acts: seq<Action>)
    requires Runs(Start(threads), acts)
    ensures NoneLost(After(Start(threads), acts))
  {
    StartIsInv(threads);
    RunKeepsInv(Start(threads), acts);
  }

  // ----- what a drain frees -----

  lemma {:induction false} ChainUnique(next: map<nat, Ptr>, p: Ptr, xs: seq<nat>, ys: seq<nat>)
    requires Chain(next, p, xs) && Chain(next, p, ys)
    ensures xs == ys
    decreases |xs|
  {
    if xs != [] && ys != [] { ChainUnique(next, next[xs[0]], xs[1..], ys[1..]); }
  }

  /** No thread is about to put a safe holder back. */
  predicate HandsUnsafe(s: State) {
    forall d | 0 <= d < |s.drainers| && s.drainers[d].Repushing? :: s.drainers[d].node !in s.safe
  }

  lemma HandsStep(s: State, a: Action)
    requires Inv(s) && HandsUnsafe(s) && Enabled(s, a)
    ensures HandsUnsafe(Do(s, a))
  {
    if a.BeginPush? {
      var shared, chains :| Accounted(s, shared, chains);
      forall d | 0 <= d < |s.drainers| && s.drainers[d].Repushing? ensures s.drainers[d].node != a.node {
        InHand(s, shared, chains, d);
      }
    }
  }

  lemma {:induction false} HandsAlong(s: State, acts: seq<Action>)
    requires Inv(s) && HandsUnsafe(s) && Runs(s, acts)
    ensures HandsUnsafe(After(s, acts))
    decreases |acts|
  {
    if acts != [] {
      StepKeepsInv(s, acts[0]);
      HandsStep(s, acts[0]);
      HandsAlong(Do(s, acts[0]), acts[1..]);
    }
  }

  /** Under any interleaving, what a drain puts back on the list was never marked safe. */
  lemma SafeIsNeverPutBack(threads: nat, acts: seq<Action>)
    requires Runs(Start(threads), acts)
    ensures HandsUnsafe(After(Start(threads), acts))
  {
    StartIsInv(threads);
    HandsAlong(Start(threads), acts);
  }

  /** Thread `d` drains, and nobody else does anything. */
  predicate DrainsAlone(acts: seq<Action>, d: nat) {
    forall i | 0 <= i < |acts| ::
      match acts[i]
      case Visit(e) => e == d
      case TryRepush(e, _) => e == d
      case Leave(e) => e == d
      case _ => false
  }

  /** The shared list holds only unsafe holders. */
  ghost predicate ListUnsafe(s: State) {
    forall xs, n | Chain(s.next, s.head, xs) && n in xs :: n !in s.safe
  }

  lemma ListIs(s: State, xs: seq<nat>)
    requires Chain(s.next, s.head, xs) && forall n | n in xs :: n !in s.safe
    ensures ListUnsafe(s)
  {
    forall ys, n | Chain(s.next, s.head, ys) && n in ys ensures n !in s.safe {
      ChainUnique(s.next, s.head, xs, ys);
    }
  }

  lemma DrainStep(s: State, a: Action, d: nat)
    requires Inv(s) && HandsUnsafe(s) && ListUnsafe(s) && Enabled(s, a) && DrainsAlone([a], d)
    ensures ListUnsafe(Do(s, a)) && Do(s, a).safe == s.safe && Do(s, a).published == s.published
    ensures forall e | 0 <= e < |s.drainers| && e != d :: Do(s, a).drainers[e] == s.drainers[e]
    ensures |Do(s, a).drainers| == |s.drainers|
  {
    assert [a][0] == a;
    var t := Do(s, a);
    var shared, chains :| Accounted(s, shared, chains);
    match a
    case Visit(_) =>
      StepOver(s, d, shared, chains);
      var n := s.drainers[d].cur.value;
      if n !in s.safe {
        VisitLeavesList(s, d, shared, chains);
        ChainFrame(s.next, s.head, shared, n, s.head);
      }
      ListIs(t, shared);
    case TryRepush(_, spurious) =>
      var n := s.drainers[d].node;
      InHand(s, shared, chains, d);
      if Swap(s, n, spurious).0 {
        assert ([n] + shared)[1..] == shared;
        ListIs(t, [n] + shared);
      } else {
        ChainFrame(s.next, s.head, shared, n, s.head);
        ListIs(t, shared);
      }
    case Leave(_) => ListIs(t, shared);
  }

  /** A holder a thread is visiting is not on the shared list. */
  lemma VisitLeavesList(s: State, d: nat, shared: seq<nat>, chains: seq<seq<nat>>)
    requires Accounted(s, shared, chains) && Enabled(s, Visit(d))
    ensures s.drainers[d].cur.value !in shared
  {
    var n := s.drainers[d].cur.value;
    StepOver(s, d, shared, chains);
    CountIn(chains[d], n);
    CountIn(shared, n);
    TakenHas(s.drainers, chains, d, d, n);
    assert Places(s, shared, chains, n) <= 1;
  }

  lemma {:induction false} DrainAlong(s: State, acts: seq<Action>, d: nat)
    requires Inv(s) && HandsUnsafe(s) && ListUnsafe(s) && Runs(s, acts) && DrainsAlone(acts, d)
    ensures var t := After(s, acts);
            && Inv(t) && ListUnsafe(t) && t.safe == s.safe && t.published == s.published
            && |t.drainers| == |s.drainers|
            && forall e | 0 <= e < |s.drainers| && e != d :: t.drainers[e] == s.drainers[e]
    decreases |acts|
  {
    if acts != [] {
      assert DrainsAlone([acts[0]], d) by { assert [acts[0]][0] == acts[0]; }
      StepKeepsInv(s, acts[0]);
      HandsStep(s, acts[0]);
      DrainStep(s, acts[0], d);
      assert DrainsAlone(acts[1..], d) by {
        forall i | 0 <= i < |acts[1..]| ensures acts[1..][i] == acts[i + 1] { }
      }
      DrainAlong(Do(s, acts[0]), acts[1..], d);
    }
  }

  // ----- the loops end -----

  lemma RunsFrom(s: State, a: Action, rest: seq<Action>, t: State)
    requires Enabled(s, a) && Runs(Do(s, a), rest) && After(Do(s, a), rest) == t
    ensures Runs(s, [a] + rest) && After(s, [a] + rest) == t
  {
    assert ([a] + rest)[1..] == rest;
  }

  /** A push that lost its compare-and-swap gets through with the next one if nobody comes in between. */
  lemma PushGetsThrough(threads: nat, before: seq<Action>, n: nat, spurious: bool) returns (acts: seq<Action>)
    requires Runs(Start(threads), before) && n in After(Start(threads), before).pushing
    ensures acts == [TryPush(n, spurious)] || acts == [TryPush(n, spurious), TryPush(n, false)]
    ensures var s := After(Start(threads), before);
            Runs(s, acts) && Live(After(s, acts), n) && After(s, acts).head == Some(n)
            && Link(After(s, acts), n) == s.head && After(s, acts).pushing == s.pushing - {n}
  {
    StartIsInv(threads);
    RunKeepsInv(Start(threads), before);
    var s := After(Start(threads), before);
    var t := Do(s, TryPush(n, spurious));
    if n in t.pushing {
      var u := Do(t, TryPush(n, false));
      RunsFrom(t, TryPush(n, false), [], u);
      RunsFrom(s, TryPush(n, spurious), [TryPush(n, false)] + [], u);
      acts := [TryPush(n, spurious)] + ([TryPush(n, false)] + []);
    } else {
      RunsFrom(s, TryPush(n, spurious), [], t);
      acts := [TryPush(n, spurious)] + [];
    }
  }

  /** A holder that is not on its way to the list, on it, or in a drain can always be pushed, safe or not. */
  lemma CanBePushed(s: State, n: nat, safe: bool)
    requires n !in s.pushing && !Live(s, n)
    ensures Enabled(s, BeginPush(n, safe))
    ensures var t := Do(s, BeginPush(n, safe));
            && n in t.pushing && Link(t, n) == s.head && t.head == s.head && t.safe - {n} == s.safe - {n}
            && (n in t.safe <==> safe)
  {
  }

  /** Past an unsafe holder: the push back succeeds, and the rest of the private chain is as it was. */
  lemma PutsBack(s: State, d: nat, xs: seq<nat>)
    requires Inv(s) && Enabled(s, Visit(d)) && s.drainers[d].cur.value !in s.safe
    requires Chain(s.next, s.drainers[d].cur, xs)
    ensures var t := Do(s, Visit(d));
            Enabled(t, TryRepush(d, false)) && xs != []
            && var u := Do(t, TryRepush(d, false));
               Inv(u) && u.drainers[d].Walking? && Chain(u.next, u.drainers[d].cur, xs[1..])
  {
    var n := s.drainers[d].cur.value;
    var t := Do(s, Visit(d));
    StepKeepsInv(s, Visit(d));
    StepKeepsInv(t, TryRepush(d, false));
    var shared, chains :| Accounted(t, shared, chains);
    InHand(t, shared, chains, d);
    var ys := chains[d];
    assert Chain(t.next, Rest(t.drainers[d]), ys);
    ChainFrame(t.next, Rest(t.drainers[d]), ys, n, s.next[n]);
    assert t.next[n := s.next[n]] == s.next;
    ChainUnique(s.next, s.next[n], xs[1..], ys);
  }

  lemma {:induction false} WalkEnds(s: State, d: nat, xs: seq<nat>) returns (acts: seq<Action>)
    requires Inv(s) && d < |s.drainers| && s.drainers[d].Walking? && Chain(s.next, s.drainers[d].cur, xs)
    ensures Runs(s, acts) && DrainsAlone(acts, d)
    ensures |After(s, acts).drainers| == |s.drainers| && After(s, acts).drainers[d].Idle?
    decreases |xs|
  {
    if xs == [] {
      acts := [Leave(d)] + [];
      RunsFrom(s, Leave(d), [], Do(s, Leave(d)));
    } else {
      var t := Do(s, Visit(d));
      if xs[0] in s.safe {
        StepKeepsInv(s, Visit(d));
        acts := WalkEnds(t, d, xs[1..]);
      } else {
        PutsBack(s, d, xs);
        var u := Do(t, TryRepush(d, false));
        acts := WalkEnds(u, d, xs[1..]);
        RunsFrom(t, TryRepush(d, false), acts, After(u, acts));
        acts := [TryRepush(d, false)] + acts;
      }
      RunsFrom(s, Visit(d), acts, After(t, acts));
      acts := [Visit(d)] + acts;
    }
  }

  /** From wherever a run has come, a drain that nobody disturbs comes to its end. */
  lemma DrainEnds(threads: nat, before: seq<Action>, d: nat) returns (acts: seq<Action>)
    requires Runs(Start(threads), before) && Enabled(After(Start(threads), before), Exchange(d))
    ensures var e := Do(After(Start(threads), before), Exchange(d));
            && Runs(e, acts) && DrainsAlone(acts, d) && |After(e, acts).drainers| == |e.drainers|
            && After(e, acts).drainers[d].Idle?
  {
    StartIsInv(threads);
    RunKeepsInv(Start(threads), before);
    var s := After(Start(threads), before);
    StepKeepsInv(s, Exchange(d));
    var shared, chains :| Accounted(s, shared, chains);
    acts := WalkEnds(Do(s, Exchange(d)), d, shared);
  }

  /** With every thread idle, a live holder is on the list. */
  lemma LiveIsListed(s: State, shared: seq<nat>, chains: seq<seq<nat>>, n: nat)
    requires Accounted(s, shared, chains) && Live(s, n)
    requires forall d | 0 <= d < |s.drainers| :: s.drainers[d].Idle?
    ensures n in shared
  {
    forall d | 0 <= d < |chains| ensures chains[d] == [] { assert Chain(s.next, Rest(s.drainers[d]), chains[d]); }
    TakenIdle(s.drainers, chains, n);
    assert Places(s, shared, chains, n) == 1;
    CountIn(shared, n);
  }

  /**
    A drain that takes the list while nobody else is about, and runs to its end, frees exactly the safe holders and
    leaves every other one on the list.
  */
  lemma DrainFreesExactlySafe(threads: nat, before: seq<Action>, d: nat, acts: seq<Action>)
    requires Runs(Start(threads), before)
    requires var s := After(Start(threads), before);
             && (forall e | 0 <= e < |s.drainers| :: s.drainers[e].Idle?) && Enabled(s, Exchange(d))
             && Runs(Do(s, Exchange(d)), acts) && DrainsAlone(acts, d)
             && |After(Do(s, Exchange(d)), acts).drainers| == |s.drainers|
             && After(Do(s, Exchange(d)), acts).drainers[d].Idle?
    ensures var s := After(Start(threads), before);
            var t := After(Do(s, Exchange(d)), acts);
            forall n: nat ::
              (Live(t, n) <==> Live(s, n) && n !in s.safe) && (Live(s, n) && n in s.safe ==> n in t.freed)
  {
    StartIsInv(threads);
    RunKeepsInv(Start(threads), before);
    HandsAlong(Start(threads), before);
    var s := After(Start(threads), before);
    var e := Do(s, Exchange(d));
    StepKeepsInv(s, Exchange(d));
    HandsStep(s, Exchange(d));
    ListIs(e, []);
    DrainAlong(e, acts, d);
    var t := After(e, acts);
    var shared, chains :| Accounted(t, shared, chains);
    forall n: nat
      ensures (Live(t, n) <==> Live(s, n) && n !in s.safe) && (Live(s, n) && n in s.safe ==> n in t.freed) {
      if Live(t, n) { LiveIsListed(t, shared, chains, n); }
    }
    FreedGrows(e, acts, d);
  }

  /** A drain un-frees nobody. */
  lemma {:induction false} FreedGrows(s: State, acts: seq<Action>, d: nat)
    requires Runs(s, acts) && DrainsAlone(acts, d)
    ensures s.freed <= After(s, acts).freed
    decreases |acts|
  {
    if acts != [] {
      assert acts[0].Visit? || acts[0].TryRepush? || acts[0].Leave?;
      assert DrainsAlone(acts[1..], d) by {
        forall i | 0 <= i < |acts[1..]| ensures acts[1..][i] == acts[i + 1] { }
      }
      FreedGrows(Do(s, acts[0]), acts[1..], d);
    }
  }
}
