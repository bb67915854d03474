/** Peer enumeration: one fabric connection per first-hop direction, and the device's table of peers. */
module PeerTable {
  import opened Words

  const MAX_ENTRIES: nat := 32
  const MAX_CONNECTIONS: nat := 5
  const EMPTY: nat := 0xFFFF_FFFF

  /** A chip of the mesh as seen from the server. `links` are the link planes that can carry traffic to it. */
  datatype Peer = Peer(self: bool, reachable: bool, chip: nat, direction: Option<nat>, links: seq<nat>, route: nat)

  datatype Entry = Entry(chip: nat, conn: nat, route: nat)

  /** `conns` gives a direction its connection, `links` the planes still valid for all peers behind it. */
  datatype Plan = Plan(conns: map<nat, nat>, links: seq<seq<nat>>, entries: seq<Entry>, skipped: seq<nat>)

  const NO_PEERS := Plan(map[], [], [], [])

  predicate Registered(p: Peer) {
    !p.self && p.reachable && p.chip < MAX_ENTRIES
  }

  /** The planes of `s` that are also in `t`, in order. */
  function Common(s: seq<nat>, t: seq<nat>): (r: seq<nat>)
    ensures forall x :: x in r <==> x in s && x in t
    ensures r != [] ==> exists k :: 0 <= k < |s| && r[0] == s[k] && forall j | 0 <= j < k :: s[j] !in t
  {
    if s == [] then []
    else
      assert s == [s[0]] + s[1..];
      (if s[0] in t then [s[0]] else []) + Common(s[1..], t)
  }

  /** One more peer; None where the source refuses to launch. */
  function Add(t: Plan, p: Peer): Option<Plan>
    requires forall d | d in t.conns :: t.conns[d] < |t.links|
  {
    if p.self || !p.reachable then Some(t)
    else if p.chip >= MAX_ENTRIES then Some(t.(skipped := t.skipped + [p.chip]))
    else if p.direction.None? || p.links == [] then None
    else
      var d := p.direction.value;
      if d !in t.conns then
        Some(Plan(t.conns[d := |t.links|], t.links + [p.links], t.entries + [Entry(p.chip, |t.links|, p.route)],
            t.skipped))
      else
        var c := t.conns[d];
        var common := Common(t.links[c], p.links);
        if common == [] then None
        else Some(t.(links := t.links[c := common], entries := t.entries + [Entry(p.chip, c, p.route)]))
  }

  /** Plane `x` can carry traffic to every registered peer behind direction `d`. */
  ghost predicate Shared(peers: seq<Peer>, d: nat, x: nat) {
    forall i | 0 <= i < |peers| && Registered(peers[i]) && peers[i].direction == Some(d) :: x in peers[i].links
  }

  ghost predicate Used(peers: seq<Peer>, d: nat) {
    exists i :: 0 <= i < |peers| && Registered(peers[i]) && peers[i].direction == Some(d)
  }

  /** The entries of the registered peers, in enumeration order. */
  function EntriesOf(peers: seq<Peer>, conns: map<nat, nat>): seq<Entry> {
    if peers == [] then []
    else
      var front, p := peers[..|peers| - 1], peers[|peers| - 1];
      EntriesOf(front, conns) +
      (if Registered(p) && p.direction.Some? && p.direction.value in conns
       then [Entry(p.chip, conns[p.direction.value], p.route)] else [])
  }

  /** One connection per direction that is used. */
  ghost predicate Wired(peers: seq<Peer>, t: Plan) {
    && (forall d: nat :: d in t.conns <==> Used(peers, d))
    && (forall d | d in t.conns :: t.conns[d] < |t.links|)
    && (forall d, e | d in t.conns && e in t.conns && d != e :: t.conns[d] != t.conns[e])
    && |t.conns| == |t.links|
  }

  /** A connection keeps exactly the planes shared by every peer behind its direction, and at least one. */
  ghost predicate Exact(peers: seq<Peer>, t: Plan) {
    forall d | d in t.conns :: t.conns[d] < |t.links| && t.links[t.conns[d]] != []
                               && forall x: nat :: x in t.links[t.conns[d]] <==> Shared(peers, d, x)
  }

  ghost predicate Planned(peers: seq<Peer>, t: Plan) {
    Wired(peers, t) && Exact(peers, t) && t.entries == EntriesOf(peers, t.conns)
  }

  /** Some registered peer has no route, or some direction has no plane that serves all its peers. */
  ghost predicate Unserviceable(peers: seq<Peer>) {
    || (exists i :: 0 <= i < |peers| && Registered(peers[i]) && (peers[i].direction.None? || peers[i].links == []))
    || (exists d :: Used(peers, d) && forall x :: !Shared(peers, d, x))
  }

  lemma UsedStep(peers: seq<Peer>, p: Peer, d: nat)
    ensures Used(peers + [p], d) <==> Used(peers, d) || (Registered(p) && p.direction == Some(d))
  {
    var all := peers + [p];
    if Used(peers, d) {
      var i :| 0 <= i < |peers| && Registered(peers[i]) && peers[i].direction == Some(d);
      assert all[i] == peers[i];
    }
    if Registered(p) && p.direction == Some(d) { assert all[|peers|] == p; }
  }

  lemma SharedStep(peers: seq<Peer>, p: Peer, d: nat, x: nat)
    ensures Shared(peers + [p], d, x) <==>
              Shared(peers, d, x) && (Registered(p) && p.direction == Some(d) ==> x in p.links)
  {
    var all := peers + [p];
    if Shared(all, d, x) {
      assert all[|peers|] == p;
      forall i | 0 <= i < |peers| && Registered(peers[i]) && peers[i].direction == Some(d) ensures x in peers[i].links {
        assert all[i] == peers[i];
      }
    }
  }

  lemma {:induction false} EntriesExtend(peers: seq<Peer>, conns: map<nat, nat>, d: nat, c: nat)
    requires d !in conns && !Used(peers, d)
    ensures EntriesOf(peers, conns[d := c]) == EntriesOf(peers, conns)
  {
    if peers != [] {
      var front, p := peers[..|peers| - 1], peers[|peers| - 1];
      assert front + [p] == peers;
      UsedStep(front, p, d);
      EntriesExtend(front, conns, d, c);
    }
  }

  lemma AddOpens(peers: seq<Peer>, t: Plan, p: Peer)
    requires Planned(peers, t) && Registered(p) && p.direction.Some? && p.links != [] && p.direction.value !in t.conns
    ensures Planned(peers + [p], Add(t, p).value)
  {
    OpensWired(peers, t, p);
    OpensExact(peers, t, p);
    EntriesExtend(peers, t.conns, p.direction.value, |t.links|);
    assert (peers + [p])[..|peers + [p]| - 1] == peers;
  }

  lemma OpensWired(peers: seq<Peer>, t: Plan, p: Peer)
    requires Wired(peers, t) && Registered(p) && p.direction.Some? && p.links != [] && p.direction.value !in t.conns
    ensures Wired(peers + [p], Add(t, p).value)
  {
    var all, d, u := peers + [p], p.direction.value, Add(t, p).value;
    forall e: nat ensures Used(all, e) <==> Used(peers, e) || e == d { UsedStep(peers, p, e); }
    assert u.conns.Keys == t.conns.Keys + {d};
    assert |u.conns| == |t.conns| + 1;
  }

  lemma OpensExact(peers: seq<Peer>, t: Plan, p: Peer)
    requires Planned(peers, t) && Registered(p) && p.direction.Some? && p.links != [] && p.direction.value !in t.conns
    ensures Exact(peers + [p], Add(t, p).value)
  {
    var all, d, u := peers + [p], p.direction.value, Add(t, p).value;
    forall e | e in u.conns ensures u.conns[e] < |u.links| && u.links[u.conns[e]] != []
      && forall x: nat :: x in u.links[u.conns[e]] <==> Shared(all, e, x)
    {
      forall x: nat ensures x in u.links[u.conns[e]] <==> Shared(all, e, x) { SharedStep(peers, p, e, x); }
    }
  }

  lemma AddJoins(peers: seq<Peer>, t: Plan, p: Peer)
    requires Planned(peers, t) && Registered(p) && p.direction.Some? && p.links != [] && p.direction.value in t.conns
    ensures var r := Add(t, p); if r.Some? then Planned(peers + [p], r.value) else Unserviceable(peers + [p])
  {
    var all, d := peers + [p], p.direction.value;
    forall e: nat ensures Used(all, e) <==> Used(peers, e) || e == d { UsedStep(peers, p, e); }
    forall e: nat, x: nat ensures Shared(all, e, x) <==> Shared(peers, e, x) && (e == d ==> x in p.links) {
      SharedStep(peers, p, e, x);
    }
    assert all[..|all| - 1] == peers;
    var common := Common(t.links[t.conns[d]], p.links);
    if common == [] {
      forall x: nat ensures !Shared(all, d, x) { assert x !in common; }
    } else {
      var u := Add(t, p).value;
      assert u.conns == t.conns && u.links[t.conns[d]] == common;
    }
  }

  /** A chip that is not registered changes nothing. */
  lemma AddSkips(peers: seq<Peer>, t: Plan, p: Peer)
    requires Planned(peers, t) && !Registered(p)
    ensures Add(t, p).Some? && Planned(peers + [p], Add(t, p).value)
  {
    var all := peers + [p];
    forall d: nat ensures Used(all, d) <==> Used(peers, d) { UsedStep(peers, p, d); }
    forall d: nat, x: nat ensures Shared(all, d, x) <==> Shared(peers, d, x) { SharedStep(peers, p, d, x); }
    assert all[..|all| - 1] == peers;
  }

  /** Adding a peer keeps the plan exact, or fails because the peers so far cannot be served. */
  lemma AddKeeps(peers: seq<Peer>, t: Plan, p: Peer)
    requires Planned(peers, t)
    ensures var r := Add(t, p); if r.Some? then Planned(peers + [p], r.value) else Unserviceable(peers + [p])
  {
    if !Registered(p) {
      AddSkips(peers, t, p);
    } else if p.direction.None? || p.links == [] {
      assert (peers + [p])[|peers|] == p;
    } else if p.direction.value in t.conns {
      AddJoins(peers, t, p);
    } else {
      AddOpens(peers, t, p);
    }
  }

  lemma UnserviceableStays(peers: seq<Peer>, more: seq<Peer>)
    requires Unserviceable(peers)
    ensures Unserviceable(peers + more)
  {
    var all := peers + more;
    if exists i :: 0 <= i < |peers| && Registered(peers[i]) && (peers[i].direction.None? || peers[i].links == []) {
      var i :| 0 <= i < |peers| && Registered(peers[i]) && (peers[i].direction.None? || peers[i].links == []);
      assert all[i] == peers[i];
    } else {
      var d: nat :| Used(peers, d) && forall x: nat :: !Shared(peers, d, x);
      var i :| 0 <= i < |peers| && Registered(peers[i]) && peers[i].direction == Some(d);
      assert all[i] == peers[i];
      forall x: nat ensures !Shared(all, d, x) {
        if Shared(all, d, x) {
          forall j | 0 <= j < |peers| && Registered(peers[j]) && peers[j].direction == Some(d)
              ensures x in peers[j].links {
            assert all[j] == peers[j];
          }
          assert Shared(peers, d, x);
        }
      }
      assert Used(all, d);
    }
  }

  ghost predicate Routed(peers: seq<Peer>) {
    forall i | 0 <= i < |peers| && Registered(peers[i]) :: peers[i].direction.Some? && peers[i].links != []
  }

  lemma PlannedIsServiceable(peers: seq<Peer>, t: Plan)
    requires Planned(peers, t) && Routed(peers)
    ensures !Unserviceable(peers)
  {
    forall d: nat | Used(peers, d) ensures exists x: nat :: Shared(peers, d, x) {
      var x := t.links[t.conns[d]][0];
      assert x in t.links[t.conns[d]];
      assert Shared(peers, d, x);
    }
  }

  /** Connections needed never exceed the number of directions a chip has. */
  lemma ConnectionsBound(peers: seq<Peer>, t: Plan, directions: nat)
    requires Planned(peers, t)
    requires forall i | 0 <= i < |peers| && peers[i].direction.Some? :: peers[i].direction.value < directions
    ensures |t.links| <= directions
  {
    RangeSize(directions);
    forall d | d in t.conns.Keys ensures d in Range(directions) { assert Used(peers, d); }
    SubsetSize(t.conns.Keys, Range(directions));
  }

  lemma {:induction false} SubsetSize(a: set<nat>, b: set<nat>)
    requires a <= b
    ensures |a| <= |b|
  {
    if a != {} {
      var x :| x in a;
      SubsetSize(a - {x}, b - {x});
    }
  }

  /** One turn of the loop over `peers`, after the first `i`. */
  lemma TurnKeeps(peers: seq<Peer>, i: nat, t: Plan)
    requires i < |peers| && Planned(peers[..i], t) && Routed(peers[..i])
    ensures var r := Add(t, peers[i]);
            if r.Some? then Planned(peers[..i + 1], r.value) && Routed(peers[..i + 1]) else Unserviceable(peers)
  {
    assert peers[..i + 1] == peers[..i] + [peers[i]];
    AddKeeps(peers[..i], t, peers[i]);
    if Add(t, peers[i]).None? {
      UnserviceableStays(peers[..i + 1], peers[i + 1..]);
      assert peers == peers[..i + 1] + peers[i + 1..];
    }
  }

  /** The vectors the peer loop of `prepare_server_kernel` edits. */
  class Enumeration {
    var conns: map<nat, nat>
    var links: seq<seq<nat>>
    var entries: seq<Entry>
    var skipped: seq<nat>

    function AsPlan(): Plan
      reads this
    {
      Plan(conns, links, entries, skipped)
    }

    constructor ()
      ensures AsPlan() == NO_PEERS
    {
      conns := map[];
      links := [];
      entries := [];
      skipped := [];
    }

    /** One turn of the loop; false where it refuses to launch. */
    method AddPeer(p: Peer) returns (ok: bool)
      requires forall d | d in conns :: conns[d] < |links|
      modifies this
      ensures ok == Add(old(AsPlan()), p).Some?
      ensures ok ==> AsPlan() == Add(old(AsPlan()), p).value
      ensures skipped == old(skipped) + (if !p.self && p.reachable && p.chip >= MAX_ENTRIES then [p.chip] else [])
    {
      if p.self || !p.reachable {
        return true;
      }
      if p.chip >= MAX_ENTRIES {
        skipped := skipped + [p.chip];
        return true;
      }
      if p.direction.None? || p.links == [] {
        return false;
      }
      var d := p.direction.value;
      var conn := |links|;
      if d !in conns {
        conns := conns[d := conn];
        links := links + [p.links];
      } else {
        conn := conns[d];
        links := links[conn := Common(links[conn], p.links)];
        if links[conn] == [] {
          return false;
        }
      }
      entries := entries + [Entry(p.chip, conn, p.route)];
      return true;
    }

    /** All peers, and the connection check after them: a plan comes out exactly when every peer can be served. */
    method Enumerate(peers: seq<Peer>) returns (ok: bool)
      requires AsPlan() == NO_PEERS
      modifies this
      ensures ok ==> Planned(peers, AsPlan()) && |links| <= MAX_CONNECTIONS && !Unserviceable(peers)
      ensures !ok ==> Unserviceable(peers) || (Planned(peers, AsPlan()) && |links| > MAX_CONNECTIONS)
    {
      for i := 0 to |peers|
        invariant Planned(peers[..i], AsPlan()) && Routed(peers[..i])
      {
        TurnKeeps(peers, i, AsPlan());
        var added := AddPeer(peers[i]);
        if !added {
          return false;
        }
      }
      assert peers[..|peers|] == peers;
      PlannedIsServiceable(peers, AsPlan());
      return |links| <= MAX_CONNECTIONS;
    }
  }

  // ----- the device table -----

  datatype Slot = Slot(conn: nat, route: nat)

  /** The last entry for a chip wins; a chip without one keeps the empty sentinel. */
  function Lookup(entries: seq<Entry>, chip: nat): Slot {
    if entries == [] then Slot(EMPTY, 0)
    else
      var e := entries[|entries| - 1];
      if e.chip == chip then Slot(e.conn, e.route) else Lookup(entries[..|entries| - 1], chip)
  }

  method BuildTable(entries: seq<Entry>) returns (table: array<Slot>)
    requires forall e | e in entries :: e.chip < MAX_ENTRIES
    ensures fresh(table) && table.Length == MAX_ENTRIES
    ensures forall chip | 0 <= chip < MAX_ENTRIES :: table[chip] == Lookup(entries, chip)
  {
    table := new Slot[MAX_ENTRIES](_ => Slot(EMPTY, 0));
    for i := 0 to |entries|
      invariant forall chip | 0 <= chip < MAX_ENTRIES :: table[chip] == Lookup(entries[..i], chip)
    {
      var e := entries[i];
      assert entries[..i + 1][..i] == entries[..i] && entries[..i + 1][i] == e;
      table[e.chip] := Slot(e.conn, e.route);
    }
    assert entries[..|entries|] == entries;
  }

  /**
    A table slot is empty exactly for a chip that was not registered; otherwise it has the connection and route of the
    peer enumerated last for that chip, and the connection serves it.
  */
  lemma {:induction false} TableServes(peers: seq<Peer>, t: Plan, chip: nat)
    requires Planned(peers, t)
    ensures var slot := Lookup(t.entries, chip);
            if exists i :: 0 <= i < |peers| && Registered(peers[i]) && peers[i].direction.Some?
                           && peers[i].chip == chip then
              && slot.conn < |t.links| && t.links[slot.conn] != []
              && exists i :: 0 <= i < |peers| && LastBehind(peers, t.conns, chip, i)
                             && slot == Slot(t.conns[peers[i].direction.value], peers[i].route)
                             && Shared(peers, peers[i].direction.value, t.links[slot.conn][0])
            else slot == Slot(EMPTY, 0)
  {
    LookupOf(peers, t.conns, chip);
    if exists i :: 0 <= i < |peers| && Registered(peers[i]) && peers[i].direction.Some? && peers[i].chip == chip {
      var k :| 0 <= k < |peers| && Registered(peers[k]) && peers[k].direction.Some? && peers[k].chip == chip;
      assert Used(peers, peers[k].direction.value);
      var i :| 0 <= i < |peers| && LastBehind(peers, t.conns, chip, i)
        && Lookup(t.entries, chip) == Slot(t.conns[peers[i].direction.value], peers[i].route);
      var links := t.links[t.conns[peers[i].direction.value]];
      assert links[0] in links;
    } else {
      forall i | 0 <= i < |peers| ensures !Behind(peers[i], t.conns, chip) { }
    }
  }

  predicate Behind(p: Peer, conns: map<nat, nat>, chip: nat) {
    Registered(p) && p.chip == chip && p.direction.Some? && p.direction.value in conns
  }

  /** Of the peers that are the chip, the one enumerated last. */
  ghost predicate LastBehind(peers: seq<Peer>, conns: map<nat, nat>, chip: nat, i: nat)
    requires i < |peers|
  {
    Behind(peers[i], conns, chip) && forall j | i < j < |peers| :: !Behind(peers[j], conns, chip)
  }

  lemma {:induction false} LookupOf(peers: seq<Peer>, conns: map<nat, nat>, chip: nat)
    ensures var slot := Lookup(EntriesOf(peers, conns), chip);
            if exists i :: 0 <= i < |peers| && Behind(peers[i], conns, chip) then
              exists i :: 0 <= i < |peers| && LastBehind(peers, conns, chip, i)
                          && slot == Slot(conns[peers[i].direction.value], peers[i].route)
            else slot == Slot(EMPTY, 0)
  {
    if peers != [] {
      var front, p := peers[..|peers| - 1], peers[|peers| - 1];
      LookupOf(front, conns, chip);
      forall i | 0 <= i < |front| ensures front[i] == peers[i] { }
      var es := EntriesOf(front, conns);
      if Registered(p) && p.direction.Some? && p.direction.value in conns {
        var e := Entry(p.chip, conns[p.direction.value], p.route);
        assert (es + [e])[..|es + [e]| - 1] == es;
        if p.chip == chip { assert LastBehind(peers, conns, chip, |peers| - 1); }
      } else {
        assert EntriesOf(peers, conns) == es;
      }
      if !Behind(p, conns, chip) {
        if i :| 0 <= i < |front| && Behind(front[i], conns, chip) {
          assert Behind(peers[i], conns, chip);
          var k :| 0 <= k < |front| && LastBehind(front, conns, chip, k)
            && Lookup(es, chip) == Slot(conns[front[k].direction.value], front[k].route);
          assert LastBehind(peers, conns, chip, k);
        }
      }
    }
  }
}
