/**
 The topology registry: nodes, shards placed on them, functions owned by shards, and routes
 between shards, with counters and lists that repeat what the primary fields say.
 */
module Registry {

  const MAX_SHARDS: nat := 256
  const MAX_NODES: nat := 64
  const MAX_FUNCTIONS: nat := 1024
  const MAX_ROUTES: nat := 2048
  const STOPPED: int := 0
  const MIGRATING: int := 3

  /** A host name as a 256-byte field holds it. */
  function Clip(s: string): (r: string)
    ensures |r| <= 255 && (|s| <= 255 ==> r == s)
  {
    if |s| <= 255 then s else s[..255]
  }

  datatype Node = Node(host: string, shards: int)

  /** `funcs` is the used part of the shard's function list. */
  datatype Shard = Shard(node: int, state: int, host: string, pipePort: int, funcs: seq<int>)

  datatype Function = Function(name: string, owner: int)

  datatype Route = Route(src: int, dst: int, kind: int, host: string, port: int, active: bool)

  datatype Topology = Topology(nodes: seq<Node>, shards: seq<Shard>, functions: seq<Function>, routes: seq<Route>)

  predicate IsNode(t: Topology, n: int) {
    0 <= n < |t.nodes|
  }

  predicate IsShard(t: Topology, s: int) {
    0 <= s < |t.shards|
  }

  // ---------- the operations ----------

  function AddNode(t: Topology, host: string): Topology {
    if |t.nodes| >= MAX_NODES then t else t.(nodes := t.nodes + [Node(Clip(host), 0)])
  }

  function AddShard(t: Topology): Topology {
    if |t.shards| >= MAX_SHARDS then t else t.(shards := t.shards + [Shard(-1, STOPPED, "", 0, [])])
  }

  function Bump(nodes: seq<Node>, n: int, d: int): (r: seq<Node>)
    ensures |r| == |nodes|
  {
    if 0 <= n < |nodes| then nodes[n := nodes[n].(shards := nodes[n].shards + d)] else nodes
  }

  function Place(t: Topology, s: int, n: int): Topology {
    if !IsShard(t, s) || !IsNode(t, n) then t
    else
      var x := t.shards[s];
      t.(nodes := Bump(Bump(t.nodes, x.node, -1), n, 1),
         shards := t.shards[s := x.(node := n, host := Clip(t.nodes[n].host))])
  }

  function Listed(t: Topology, s: int, f: int): seq<Shard> {
    if IsShard(t, s) && |t.shards[s].funcs| < MAX_FUNCTIONS
    then t.shards[s := t.shards[s].(funcs := t.shards[s].funcs + [f])]
    else t.shards
  }

  function AddFunction(t: Topology, name: string, s: int): Topology {
    if |t.functions| >= MAX_FUNCTIONS then t
    else t.(functions := t.functions + [Function(name, s)], shards := Listed(t, s, |t.functions|))
  }

  /** The first position of `f` in a list, or its length. */
  function Position(funcs: seq<int>, f: int): (i: nat)
    ensures i <= |funcs| && (i < |funcs| ==> funcs[i] == f) && (forall k :: 0 <= k < i ==> funcs[k] != f)
    decreases |funcs|
  {
    if funcs == [] || funcs[0] == f then 0
    else
      assert forall k :: 1 <= k < |funcs| ==> funcs[1..][k - 1] == funcs[k];
      1 + Position(funcs[1..], f)
  }

  /** The last entry takes the place of the first `f`. */
  function SwapRemove(funcs: seq<int>, f: int): seq<int> {
    var i := Position(funcs, f);
    if i == |funcs| then funcs else funcs[i := funcs[|funcs| - 1]][..|funcs| - 1]
  }

  function Unlisted(t: Topology, s: int, f: int): seq<Shard> {
    if IsShard(t, s) then t.shards[s := t.shards[s].(funcs := SwapRemove(t.shards[s].funcs, f))] else t.shards
  }

  function MoveFunction(t: Topology, f: int, s: int): Topology {
    if !(0 <= f < |t.functions|) then t
    else
      var t1 := t.(shards := Unlisted(t, t.functions[f].owner, f),
                   functions := t.functions[f := t.functions[f].(owner := s)]);
      t1.(shards := Listed(t1, s, f))
  }

  function AddRoute(t: Topology, r: Route): Topology {
    if |t.routes| >= MAX_ROUTES then t
    else t.(routes := t.routes + [r.(host := Clip(r.host), active := false)])
  }

  function Disconnected(r: Route, s: int): Route {
    if r.src == s || r.dst == s then r.(active := false) else r
  }

  function Resolved(r: Route, s: int, shards: seq<Shard>): Route {
    if r.src == s && 0 <= r.dst < |shards| && shards[r.dst].host != ""
    then r.(host := Clip(shards[r.dst].host), port := shards[r.dst].pipePort)
    else r
  }

  function Inbound(r: Route, s: int, host: string): Route {
    if r.dst == s then r.(host := Clip(host)) else r
  }

  /** What migrating does to one route, given the shards after placement. */
  function Rerouted(r: Route, s: int, shards: seq<Shard>): Route
    requires 0 <= s < |shards|
  {
    Inbound(Resolved(Disconnected(r, s), s, shards), s, shards[s].host)
  }

  function MarkedMigrating(t: Topology, s: int): Topology
    requires IsShard(t, s)
  {
    t.(shards := t.shards[s := t.shards[s].(state := MIGRATING)])
  }

  function Migrate(t: Topology, s: int, n: int): Topology {
    if !IsShard(t, s) then t
    else
      var t1 := Place(MarkedMigrating(t, s), s, n);
      t1.(routes := seq(|t.routes|, i requires 0 <= i < |t.routes| => Rerouted(t.routes[i], s, t1.shards)))
  }

  // ---------- what every operation keeps ----------

  /** The number of shards placed on a node. */
  function CountOn(shards: seq<Shard>, n: int): nat {
    if shards == [] then 0 else CountOn(shards[..|shards| - 1], n) + if shards[|shards| - 1].node == n then 1 else 0
  }

  ghost predicate CountsAgree(t: Topology) {
    && (forall n :: 0 <= n < |t.nodes| ==> t.nodes[n].shards == CountOn(t.shards, n))
    && (forall s :: 0 <= s < |t.shards| ==> -1 <= t.shards[s].node < |t.nodes|)
    && (forall n :: 0 <= n < |t.nodes| ==> |t.nodes[n].host| <= 255)
  }

  predicate Distinct(funcs: seq<int>) {
    forall i, k :: 0 <= i < k < |funcs| ==> funcs[i] != funcs[k]
  }

  /** A shard's list holds functions that it owns, each once. */
  ghost predicate ListOk(t: Topology, stray: set<int>, s: int)
    requires IsShard(t, s)
  {
    && Distinct(t.shards[s].funcs)
    && forall f :: f in t.shards[s].funcs ==> 0 <= f < |t.functions| && t.functions[f].owner == s && f !in stray
  }

  /** A function that is not stray stands in its owner's list. */
  ghost predicate OwnerOk(t: Topology, stray: set<int>, f: int)
    requires 0 <= f < |t.functions|
  {
    f !in stray ==> IsShard(t, t.functions[f].owner) && f in t.shards[t.functions[f].owner].funcs
  }

  /** Ownership and lists agree; `stray` are the functions whose owner was no shard when it
      was set. */
  ghost predicate ListsAgree(t: Topology, stray: set<int>) {
    && |t.functions| <= MAX_FUNCTIONS
    && (forall s {:trigger ListOk(t, stray, s)} :: 0 <= s < |t.shards| ==> ListOk(t, stray, s))
    && (forall f {:trigger OwnerOk(t, stray, f)} :: 0 <= f < |t.functions| ==> OwnerOk(t, stray, f))
    && (forall f :: f in stray ==> 0 <= f < |t.functions|)
  }

  ghost predicate Inv(t: Topology, stray: set<int>) {
    CountsAgree(t) && ListsAgree(t, stray)
  }

  // ---------- counting ----------

  lemma {:induction false} CountUpdate(shards: seq<Shard>, i: nat, x: Shard, n: int)
    requires i < |shards|
    ensures CountOn(shards[i := x], n) ==
      CountOn(shards, n) - (if shards[i].node == n then 1 else 0) + (if x.node == n then 1 else 0)
  {
    var last := |shards| - 1;
    if i == last {
      assert shards[i := x][..last] == shards[..last];
    } else {
      CountUpdate(shards[..last], i, x, n);
      assert shards[i := x][..last] == shards[..last][i := x];
    }
  }

  lemma CountAppend(shards: seq<Shard>, x: Shard, n: int)
    ensures CountOn(shards + [x], n) == CountOn(shards, n) + if x.node == n then 1 else 0
  {
    assert (shards + [x])[..|shards|] == shards;
  }

  lemma {:induction false} CountNone(shards: seq<Shard>, n: int)
    requires forall s :: 0 <= s < |shards| ==> shards[s].node < n
    ensures CountOn(shards, n) == 0
  {
    if shards != [] { CountNone(shards[..|shards| - 1], n); }
  }

  lemma AddNodeCounts(t: Topology, host: string)
    requires CountsAgree(t)
    ensures CountsAgree(AddNode(t, host))
  {
    CountNone(t.shards, |t.nodes|);
  }

  lemma AddShardCounts(t: Topology)
    requires CountsAgree(t)
    ensures CountsAgree(AddShard(t))
  {
    forall n | 0 <= n < |t.nodes|
      ensures t.nodes[n].shards == CountOn(AddShard(t).shards, n)
    {
      CountAppend(t.shards, Shard(-1, STOPPED, "", 0, []), n);
    }
  }

  /** Placing a shard takes one off the old node and puts one on the new, which may be the same. */
  lemma PlaceCounts(t: Topology, s: int, n: int)
    requires CountsAgree(t)
    ensures CountsAgree(Place(t, s, n))
  {
    if IsShard(t, s) && IsNode(t, n) {
      var t' := Place(t, s, n);
      forall m | 0 <= m < |t'.nodes|
        ensures t'.nodes[m].shards == CountOn(t'.shards, m)
      {
        CountUpdate(t.shards, s, t'.shards[s], m);
      }
    }
  }

  /** Shards that stay where they are leave the counts alone. */
  lemma {:induction false} SameCounts(a: seq<Shard>, b: seq<Shard>, n: int)
    requires |a| == |b| && forall s :: 0 <= s < |a| ==> a[s].node == b[s].node
    ensures CountOn(a, n) == CountOn(b, n)
  {
    if a != [] { SameCounts(a[..|a| - 1], b[..|b| - 1], n); }
  }

  lemma SameCountsAgree(t: Topology, t': Topology)
    requires CountsAgree(t) && t'.nodes == t.nodes && |t'.shards| == |t.shards|
    requires forall s :: 0 <= s < |t.shards| ==> t'.shards[s].node == t.shards[s].node
    ensures CountsAgree(t')
  {
    forall n | 0 <= n < |t.nodes|
      ensures t'.nodes[n].shards == CountOn(t'.shards, n)
    {
      SameCounts(t.shards, t'.shards, n);
    }
  }

  // ---------- lists ----------

  /** Distinct numbers below a bound are no more than the bound. */
  lemma {:induction false} FewBelow(funcs: seq<int>, n: nat)
    requires Distinct(funcs) && forall f :: f in funcs ==> 0 <= f < n
    ensures |funcs| <= n
    decreases n
  {
    if funcs != [] {
      assert funcs[0] in funcs;
      var rest := SwapRemove(funcs, n - 1);
      SwapRemoveIs(funcs, n - 1);
      FewBelow(rest, n - 1);
    }
  }

  /** Removal by swapping takes out exactly the entry, and keeps the others, each once. */
  lemma SwapRemoveIs(funcs: seq<int>, f: int)
    requires Distinct(funcs)
    ensures Distinct(SwapRemove(funcs, f)) && f !in SwapRemove(funcs, f)
    ensures forall g :: g != f ==> (g in SwapRemove(funcs, f) <==> g in funcs)
    ensures |SwapRemove(funcs, f)| == |funcs| - if f in funcs then 1 else 0
  {
    var i := Position(funcs, f);
    var r := SwapRemove(funcs, f);
    if i < |funcs| {
      var last := |funcs| - 1;
      forall g | g in funcs && g != f
        ensures g in r
      {
        var k :| 0 <= k < |funcs| && funcs[k] == g;
        if k < last { assert r[k] == g; } else { assert r[i] == g; }
      }
    }
  }

  /** A list never fills up: the guard that would drop an entry is never taken. */
  lemma ListHasRoom(t: Topology, stray: set<int>, s: int, f: int)
    requires ListsAgree(t, stray) && IsShard(t, s) && f !in t.shards[s].funcs
    requires 0 <= f < |t.functions| || |t.functions| < MAX_FUNCTIONS
    ensures |t.shards[s].funcs| < MAX_FUNCTIONS
  {
    assert ListOk(t, stray, s);
    var funcs := t.shards[s].funcs;
    if 0 <= f < |t.functions| {
      assert Distinct(funcs + [f]);
      FewBelow(funcs + [f], |t.functions|);
    } else {
      FewBelow(funcs, |t.functions|);
    }
  }

  /** Lists and owners as before; new shards have empty lists. */
  lemma SameLists(t: Topology, t': Topology, stray: set<int>)
    requires ListsAgree(t, stray) && t'.functions == t.functions && |t.shards| <= |t'.shards|
    requires forall s :: 0 <= s < |t.shards| ==> t'.shards[s].funcs == t.shards[s].funcs
    requires forall s :: |t.shards| <= s < |t'.shards| ==> t'.shards[s].funcs == []
    ensures ListsAgree(t', stray)
  {
    forall s | 0 <= s < |t'.shards|
      ensures ListOk(t', stray, s)
    {
      if s < |t.shards| { assert ListOk(t, stray, s); }
    }
    forall f | 0 <= f < |t.functions|
      ensures OwnerOk(t', stray, f)
    {
      assert OwnerOk(t, stray, f);
    }
  }

  /** A new entry at the end of its owner's list. */
  lemma ListedAgrees(t: Topology, stray: set<int>, s: int, f: int)
    requires ListsAgree(t, stray) && IsShard(t, s) && 0 <= f < |t.functions| && t.functions[f].owner == s && f in stray
    ensures ListsAgree(t.(shards := Listed(t, s, f)), stray - {f})
  {
    assert ListOk(t, stray, s);
    ListHasRoom(t, stray, s, f);
    var t' := t.(shards := Listed(t, s, f));
    forall q | 0 <= q < |t'.shards|
      ensures ListOk(t', stray - {f}, q)
    {
      assert ListOk(t, stray, q);
    }
    forall g | 0 <= g < |t.functions|
      ensures OwnerOk(t', stray - {f}, g)
    {
      assert OwnerOk(t, stray, g);
      if g == f { assert t'.shards[s].funcs[|t.shards[s].funcs|] == f; }
    }
  }

  /** A new function, not yet in any list. */
  lemma NewFunctionAgrees(t: Topology, stray: set<int>, name: string, s: int)
    requires ListsAgree(t, stray) && |t.functions| < MAX_FUNCTIONS
    ensures ListsAgree(t.(functions := t.functions + [Function(name, s)]), stray + {|t.functions|})
  {
    var t', stray' := t.(functions := t.functions + [Function(name, s)]), stray + {|t.functions|};
    forall q | 0 <= q < |t.shards|
      ensures ListOk(t', stray', q)
    {
      assert ListOk(t, stray, q);
    }
    forall g | 0 <= g < |t'.functions|
      ensures OwnerOk(t', stray', g)
    {
      if g < |t.functions| { assert OwnerOk(t, stray, g); }
    }
  }

  lemma AddFunctionLists(t: Topology, stray: set<int>, name: string, s: int)
    requires ListsAgree(t, stray) && |t.functions| < MAX_FUNCTIONS
    ensures var id := |t.functions|;
      ListsAgree(AddFunction(t, name, s), if IsShard(t, s) then stray else stray + {id})
  {
    var id := |t.functions|;
    var t1 := t.(functions := t.functions + [Function(name, s)]);
    NewFunctionAgrees(t, stray, name, s);
    if IsShard(t, s) {
      ListedAgrees(t1, stray + {id}, s, id);
      assert stray + {id} - {id} == stray;
      assert AddFunction(t, name, s) == t1.(shards := Listed(t1, s, id));
    } else {
      assert AddFunction(t, name, s) == t1;
    }
  }

  /** A function is taken out of its owner's list, wherever it stands, and given a new owner. */
  lemma UnlistedAgrees(t: Topology, stray: set<int>, f: int, owner: int)
    requires ListsAgree(t, stray) && 0 <= f < |t.functions|
    ensures ListsAgree(t.(shards := Unlisted(t, t.functions[f].owner, f),
                          functions := t.functions[f := t.functions[f].(owner := owner)]), stray + {f})
  {
    var o := t.functions[f].owner;
    var t' := t.(shards := Unlisted(t, o, f), functions := t.functions[f := t.functions[f].(owner := owner)]);
    forall q | 0 <= q < |t.shards|
      ensures ListOk(t', stray + {f}, q)
    {
      assert ListOk(t, stray, q);
      if q == o { SwapRemoveIs(t.shards[o].funcs, f); }
    }
    forall g | 0 <= g < |t.functions|
      ensures OwnerOk(t', stray + {f}, g)
    {
      assert OwnerOk(t, stray, g);
      if g != f && IsShard(t, o) {
        assert ListOk(t, stray, o);
        SwapRemoveIs(t.shards[o].funcs, f);
      }
    }
  }

  lemma MoveFunctionLists(t: Topology, stray: set<int>, f: int, s: int)
    requires ListsAgree(t, stray) && 0 <= f < |t.functions|
    ensures ListsAgree(MoveFunction(t, f, s), if IsShard(t, s) then stray - {f} else stray + {f})
  {
    var t1 := t.(shards := Unlisted(t, t.functions[f].owner, f),
                 functions := t.functions[f := t.functions[f].(owner := s)]);
    UnlistedAgrees(t, stray, f, s);
    assert MoveFunction(t, f, s) == t1.(shards := Listed(t1, s, f));
    if IsShard(t, s) {
      ListedAgrees(t1, stray + {f}, s, f);
      assert stray + {f} - {f} == stray - {f};
    }
  }

  // ---------- runs ----------

  datatype Event =
    | NewNode(host: string)
    | NewShard
    | PlaceShard(s: int, n: int)
    | SetShard(s: int, state: int, host: string, pipePort: int)
    | NewFunction(name: string, s: int)
    | Move(f: int, s: int)
    | NewRoute(r: Route)
    | MigrateShard(s: int, n: int)

  /** What a caller may set on a shard directly. */
  function SetFields(t: Topology, s: int, state: int, host: string, pipePort: int): Topology {
    if IsShard(t, s)
    then t.(shards := t.shards[s := t.shards[s].(state := state, host := host, pipePort := pipePort)])
    else t
  }

  function Step(t: Topology, e: Event): Topology {
    match e
    case NewNode(host) => AddNode(t, host)
    case NewShard => AddShard(t)
    case PlaceShard(s, n) => Place(t, s, n)
    case SetShard(s, state, host, port) => SetFields(t, s, state, host, port)
    case NewFunction(name, s) => AddFunction(t, name, s)
    case Move(f, s) => MoveFunction(t, f, s)
    case NewRoute(r) => AddRoute(t, r)
    case MigrateShard(s, n) => Migrate(t, s, n)
  }

  /** The stray functions after a step: those last given an owner that was no shard. */
  function StrayAfter(t: Topology, stray: set<int>, e: Event): set<int> {
    match e
    case NewFunction(_, s) =>
      if |t.functions| < MAX_FUNCTIONS && !IsShard(t, s) then stray + {|t.functions|} else stray
    case Move(f, s) =>
      if !(0 <= f < |t.functions|) then stray else if IsShard(t, s) then stray - {f} else stray + {f}
    case _ => stray
  }

  lemma PlaceKeeps(t: Topology, stray: set<int>, s: int, n: int)
    requires Inv(t, stray)
    ensures Inv(Place(t, s, n), stray)
  {
    PlaceCounts(t, s, n);
    SameLists(t, Place(t, s, n), stray);
  }

  lemma SetFieldsKeeps(t: Topology, stray: set<int>, s: int, state: int, host: string, pipePort: int)
    requires Inv(t, stray)
    ensures Inv(SetFields(t, s, state, host, pipePort), stray)
  {
    SameCountsAgree(t, SetFields(t, s, state, host, pipePort));
    SameLists(t, SetFields(t, s, state, host, pipePort), stray);
  }

  lemma MigrateKeeps(t: Topology, stray: set<int>, s: int, n: int)
    requires Inv(t, stray)
    ensures Inv(Migrate(t, s, n), stray)
  {
    if IsShard(t, s) {
      var t0 := MarkedMigrating(t, s);
      SameCountsAgree(t, t0);
      SameLists(t, t0, stray);
      PlaceKeeps(t0, stray, s, n);
      SameCountsAgree(Place(t0, s, n), Migrate(t, s, n));
      SameLists(Place(t0, s, n), Migrate(t, s, n), stray);
    }
  }

  /** Every operation keeps counters and lists in agreement with the primary fields. */
  lemma StepKeeps(t: Topology, stray: set<int>, e: Event)
    requires Inv(t, stray)
    ensures Inv(Step(t, e), StrayAfter(t, stray, e))
  {
    match e
    case NewNode(host) => AddNodeCounts(t, host); SameLists(t, AddNode(t, host), stray);
    case NewShard => AddShardCounts(t); SameLists(t, AddShard(t), stray);
    case PlaceShard(s, n) => PlaceKeeps(t, stray, s, n);
    case SetShard(s, state, host, port) => SetFieldsKeeps(t, stray, s, state, host, port);
    case NewFunction(name, s) => FunctionKeeps(t, stray, name, s);
    case Move(f, s) => MoveKeeps(t, stray, f, s);
    case NewRoute(r) => SameCountsAgree(t, AddRoute(t, r)); SameLists(t, AddRoute(t, r), stray);
    case MigrateShard(s, n) => MigrateKeeps(t, stray, s, n);
  }

  lemma FunctionKeeps(t: Topology, stray: set<int>, name: string, s: int)
    requires Inv(t, stray)
    ensures Inv(AddFunction(t, name, s), StrayAfter(t, stray, NewFunction(name, s)))
  {
    SameCountsAgree(t, AddFunction(t, name, s));
    if |t.functions| < MAX_FUNCTIONS { AddFunctionLists(t, stray, name, s); }
  }

  lemma MoveKeeps(t: Topology, stray: set<int>, f: int, s: int)
    requires Inv(t, stray)
    ensures Inv(MoveFunction(t, f, s), StrayAfter(t, stray, Move(f, s)))
  {
    SameCountsAgree(t, MoveFunction(t, f, s));
    if 0 <= f < |t.functions| { MoveFunctionLists(t, stray, f, s); }
  }

  /** The topology and the stray functions after a run from the empty registry. */
  function Run(events: seq<Event>): (Topology, set<int>) {
    if events == [] then (Topology([], [], [], []), {})
    else
      var (t, stray) := Run(events[..|events| - 1]);
      (Step(t, events[|events| - 1]), StrayAfter(t, stray, events[|events| - 1]))
  }

  lemma {:induction false} ReachableInv(events: seq<Event>)
    ensures Inv(Run(events).0, Run(events).1)
  {
    if events != [] {
      ReachableInv(events[..|events| - 1]);
      var (t, stray) := Run(events[..|events| - 1]);
      StepKeeps(t, stray, events[|events| - 1]);
    }
  }

  /** In every reachable state each node's counter is the number of shards placed on it. */
  lemma CountersExact(events: seq<Event>)
    ensures var t := Run(events).0; forall n :: 0 <= n < |t.nodes| ==> t.nodes[n].shards == CountOn(t.shards, n)
  {
    ReachableInv(events);
  }

  /** In every reachable state a function whose owner was a shard when it was set stands in
      its owner's list. */
  lemma OwnerLists(events: seq<Event>, f: int)
    requires 0 <= f < |Run(events).0.functions| && f !in Run(events).1
    ensures var t := Run(events).0;
      IsShard(t, t.functions[f].owner) && f in t.shards[t.functions[f].owner].funcs
  {
    ReachableInv(events);
    assert OwnerOk(Run(events).0, Run(events).1, f);
  }

  /** And whatever stands in a list is a function, not a stray one, that is owned by the
      list's shard and stands there once. */
  lemma ListedExactlyOnce(events: seq<Event>, s: int, i: int)
    requires IsShard(Run(events).0, s) && 0 <= i < |Run(events).0.shards[s].funcs|
    ensures var (t, stray) := Run(events); var funcs := t.shards[s].funcs;
      && 0 <= funcs[i] < |t.functions| && funcs[i] !in stray && t.functions[funcs[i]].owner == s
      && forall k :: 0 <= k < |funcs| && k != i ==> funcs[k] != funcs[i]
  {
    ReachableInv(events);
    EntryListed(Run(events).0, Run(events).1, s, i);
  }

  lemma EntryListed(t: Topology, stray: set<int>, s: int, i: int)
    requires Inv(t, stray) && IsShard(t, s) && 0 <= i < |t.shards[s].funcs|
    ensures var funcs := t.shards[s].funcs;
      && 0 <= funcs[i] < |t.functions| && funcs[i] !in stray && t.functions[funcs[i]].owner == s
      && forall k :: 0 <= k < |funcs| && k != i ==> funcs[k] != funcs[i]
  {
    assert ListOk(t, stray, s);
    assert t.shards[s].funcs[i] in t.shards[s].funcs;
  }

  // ---------- migration ----------

  /** What migrating shard `s` to node `n` does to route `i`: every route of the shard is
      inactive, inbound routes carry the new node's host, outbound ones the host and port of
      their destination if that has a host, and all other routes are untouched. */
  ghost predicate FollowsShard(t: Topology, t': Topology, s: int, n: int, i: int)
    requires IsShard(t, s) && IsNode(t, n) && 0 <= i < |t.routes| == |t'.routes|
  {
    var r, r' := t.routes[i], t'.routes[i];
    && (r'.src, r'.dst, r'.kind) == (r.src, r.dst, r.kind)
    && (r.src == s || r.dst == s ==> !r'.active)
    && (r.dst == s ==> r'.host == t.nodes[n].host)
    && (r.src == s && r.dst != s && IsShard(t, r.dst) && t.shards[r.dst].host != "" ==>
          r'.host == Clip(t.shards[r.dst].host) && r'.port == t.shards[r.dst].pipePort)
    && (r.src == s && r.dst != s && (!IsShard(t, r.dst) || t.shards[r.dst].host == "") ==>
          r'.host == r.host && r'.port == r.port)
    && (r.src != s && r.dst != s ==> r' == r)
  }

  /** Where migration leaves the shard and its routes. */
  ghost predicate Migrated(t: Topology, t': Topology, s: int, n: int)
    requires IsShard(t, s) && IsNode(t, n)
  {
    && IsShard(t', s) && |t'.routes| == |t.routes|
    && t'.shards[s].node == n && t'.shards[s].host == t.nodes[n].host && t'.shards[s].state == MIGRATING
    && forall i :: 0 <= i < |t.routes| ==> FollowsShard(t, t', s, n, i)
  }

  lemma MigrationReroutes(t: Topology, stray: set<int>, s: int, n: int)
    requires Inv(t, stray) && IsShard(t, s) && IsNode(t, n)
    ensures Migrated(t, Migrate(t, s, n), s, n)
  {
    forall i | 0 <= i < |t.routes|
      ensures FollowsShard(t, Migrate(t, s, n), s, n, i)
    {
      RouteFollows(t, stray, s, n, i);
    }
  }

  lemma RouteFollows(t: Topology, stray: set<int>, s: int, n: int, i: int)
    requires Inv(t, stray) && IsShard(t, s) && IsNode(t, n) && 0 <= i < |t.routes|
    ensures |Migrate(t, s, n).routes| == |t.routes| && FollowsShard(t, Migrate(t, s, n), s, n, i)
  {
    assert |t.nodes[n].host| <= 255;
  }

  /** Migrating to a node that does not exist still takes the shard's routes down, and
      leaves it where it was. */
  lemma MigrationToNowhere(t: Topology, s: int, n: int, i: int)
    requires IsShard(t, s) && !IsNode(t, n) && 0 <= i < |t.routes|
    ensures var t' := Migrate(t, s, n);
      && t'.nodes == t.nodes && t'.shards == t.shards[s := t.shards[s].(state := MIGRATING)]
      && (t.routes[i].src == s || t.routes[i].dst == s ==> !t'.routes[i].active)
      && (t.routes[i].dst == s ==> t'.routes[i].host == Clip(t.shards[s].host))
  {
  }
}
