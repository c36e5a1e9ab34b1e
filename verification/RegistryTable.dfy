/** The registry as the source keeps it: tables that its operations update in place. */
module RegistryTable {
  import opened Registry

  /** The first `i` routes are rerouted, the others as they were. */
  ghost predicate ReroutedTo(now: seq<Route>, was: seq<Route>, want: seq<Route>, i: nat) {
    && |now| == |was| == |want| && i <= |was|
    && (forall k :: 0 <= k < i ==> now[k] == want[k])
    && (forall k :: i <= k < |was| ==> now[k] == was[k])
  }

  ghost function DisconnectAll(routes: seq<Route>, s: int): (r: seq<Route>)
    ensures |r| == |routes| && forall i :: 0 <= i < |routes| ==> r[i] == Disconnected(routes[i], s)
  {
    seq(|routes|, i requires 0 <= i < |routes| => Disconnected(routes[i], s))
  }

  ghost function ResolveAll(routes: seq<Route>, s: int, shards: seq<Shard>): (r: seq<Route>)
    ensures |r| == |routes| && forall i :: 0 <= i < |routes| ==> r[i] == Resolved(routes[i], s, shards)
  {
    seq(|routes|, i requires 0 <= i < |routes| => Resolved(routes[i], s, shards))
  }

  ghost function RefreshAll(routes: seq<Route>, s: int, host: string): (r: seq<Route>)
    ensures |r| == |routes| && forall i :: 0 <= i < |routes| ==> r[i] == Inbound(routes[i], s, host)
  {
    seq(|routes|, i requires 0 <= i < |routes| => Inbound(routes[i], s, host))
  }

  /** The three passes over the routes, one after another, are one pass of the migration. */
  lemma PassesCompose(t: Topology, s: int, n: int)
    requires IsShard(t, s)
    ensures var t1 := Place(MarkedMigrating(t, s).(routes := DisconnectAll(t.routes, s)), s, n);
      && IsShard(t1, s)
      && t1.(routes := RefreshAll(ResolveAll(t1.routes, s, t1.shards), s, t1.shards[s].host)) == Migrate(t, s, n)
  {
  }

  predicate Touches(r: Route, s: int) {
    r.src == s || r.dst == s
  }

  /** How many of the first `i` routes start or end at a shard. */
  function TouchCount(routes: seq<Route>, s: int, i: nat): nat
    requires i <= |routes|
  {
    if i == 0 then 0 else TouchCount(routes, s, i - 1) + if Touches(routes[i - 1], s) then 1 else 0
  }

  predicate Resolvable(r: Route, s: int, shards: seq<Shard>) {
    r.src == s && 0 <= r.dst < |shards| && shards[r.dst].host != ""
  }

  /** How many of the first `i` routes can be resolved. */
  function ResolveCount(routes: seq<Route>, s: int, shards: seq<Shard>, i: nat): nat
    requires i <= |routes|
  {
    if i == 0 then 0 else ResolveCount(routes, s, shards, i - 1) + if Resolvable(routes[i - 1], s, shards) then 1 else 0
  }

  class Table {
    var nodes: seq<Node>
    var shards: seq<Shard>
    var functions: seq<Function>
    var routes: seq<Route>
    ghost var stray: set<int>

    ghost function View(): Topology
      reads this
    {
      Topology(nodes, shards, functions, routes)
    }

    ghost predicate Valid()
      reads this
    {
      Inv(View(), stray)
    }

    /** `ldx_registry_init`. */
    constructor ()
      ensures Valid() && View() == Topology([], [], [], []) && stray == {}
    {
      nodes, shards, functions, routes, stray := [], [], [], [], {};
    }

    method AddNode(host: string) returns (id: int)
      requires Valid()
      modifies this
      ensures Valid() && View() == Registry.AddNode(old(View()), host) && stray == old(stray)
      ensures id == if |old(nodes)| >= MAX_NODES then -1 else |old(nodes)|
    {
      StepKeeps(View(), stray, NewNode(host));
      if |nodes| >= MAX_NODES { return -1; }
      id := |nodes|;
      nodes := nodes + [Node(Clip(host), 0)];
    }

    method AddShard() returns (id: int)
      requires Valid()
      modifies this
      ensures Valid() && View() == Registry.AddShard(old(View())) && stray == old(stray)
      ensures id == if |old(shards)| >= MAX_SHARDS then -1 else |old(shards)|
    {
      StepKeeps(View(), stray, NewShard);
      if |shards| >= MAX_SHARDS { return -1; }
      id := |shards|;
      shards := shards + [Shard(-1, STOPPED, "", 0, [])];
    }

    method PlaceShard(s: int, n: int) returns (rc: int)
      requires Valid()
      modifies this
      ensures Valid() && View() == Place(old(View()), s, n) && stray == old(stray)
      ensures rc == if 0 <= s < |old(shards)| && 0 <= n < |old(nodes)| then 0 else -1
    {
      PlaceKeeps(View(), stray, s, n);
      if !(0 <= s < |shards| && 0 <= n < |nodes|) { return -1; }
      var x := shards[s];
      if 0 <= x.node < |nodes| {
        nodes := nodes[x.node := nodes[x.node].(shards := nodes[x.node].shards - 1)];
      }
      shards := shards[s := x.(node := n, host := Clip(nodes[n].host))];
      nodes := nodes[n := nodes[n].(shards := nodes[n].shards + 1)];
      rc := 0;
    }

    /** Puts a function at the end of a shard's list. */
    method Enlist(s: int, f: int)
      modifies this`shards
      ensures shards == Listed(old(View()), s, f)
    {
      if 0 <= s < |shards| && |shards[s].funcs| < MAX_FUNCTIONS {
        shards := shards[s := shards[s].(funcs := shards[s].funcs + [f])];
      }
    }

    method AddFunction(name: string, s: int) returns (id: int)
      requires Valid()
      modifies this
      ensures Valid() && View() == Registry.AddFunction(old(View()), name, s)
      ensures id == if |old(functions)| >= MAX_FUNCTIONS then -1 else |old(functions)|
      ensures stray == StrayAfter(old(View()), old(stray), NewFunction(name, s))
      ensures id >= 0 && 0 <= s < |shards| ==> shards[s].funcs == old(shards)[s].funcs + [id]
    {
      FunctionKeeps(View(), stray, name, s);
      if 0 <= s < |shards| && |functions| < MAX_FUNCTIONS {
        assert ListOk(View(), stray, s);
        ListHasRoom(View(), stray, s, |functions|);
      }
      stray := StrayAfter(View(), stray, NewFunction(name, s));
      if |functions| >= MAX_FUNCTIONS { return -1; }
      id := |functions|;
      Enlist(s, id);
      functions := functions + [Function(name, s)];
    }

    /** The search of `move_function` through a shard's list, and the swap. */
    method Delist(s: int, f: int)
      modifies this`shards
      ensures shards == Unlisted(old(View()), s, f)
    {
      if !(0 <= s < |shards|) { return; }
      var funcs := shards[s].funcs;
      var i := 0;
      while i < |funcs| && funcs[i] != f
        invariant 0 <= i <= |funcs| && forall k :: 0 <= k < i ==> funcs[k] != f
      {
        i := i + 1;
      }
      assert i == Position(funcs, f);
      if i < |funcs| {
        funcs := funcs[i := funcs[|funcs| - 1]][..|funcs| - 1];
      }
      shards := shards[s := shards[s].(funcs := funcs)];
    }

    method MoveFunction(f: int, s: int) returns (rc: int)
      requires Valid()
      modifies this
      ensures Valid() && View() == Registry.MoveFunction(old(View()), f, s)
      ensures rc == if 0 <= f < |old(functions)| then 0 else -1
      ensures stray == StrayAfter(old(View()), old(stray), Move(f, s))
    {
      MoveKeeps(View(), stray, f, s);
      stray := StrayAfter(View(), stray, Move(f, s));
      if !(0 <= f < |functions|) { return -1; }
      Delist(functions[f].owner, f);
      functions := functions[f := functions[f].(owner := s)];
      Enlist(s, f);
      rc := 0;
    }

    /** `ldx_registry_disconnect_routes`. */
    method DisconnectRoutes(s: int) returns (count: nat)
      modifies this`routes
      ensures routes == DisconnectAll(old(routes), s) && count == TouchCount(old(routes), s, |old(routes)|)
    {
      ghost var was, want := routes, DisconnectAll(routes, s);
      count := 0;
      var i := 0;
      while i < |routes|
        invariant 0 <= i && ReroutedTo(routes, was, want, i) && count == TouchCount(was, s, i)
      {
        if routes[i].src == s || routes[i].dst == s {
          routes := routes[i := routes[i].(active := false)];
          count := count + 1;
        }
        i := i + 1;
      }
      assert routes == want;
    }

    /** `ldx_registry_resolve_routes`. */
    method ResolveRoutes(s: int) returns (resolved: nat)
      modifies this`routes
      ensures routes == ResolveAll(old(routes), s, shards)
      ensures resolved == ResolveCount(old(routes), s, shards, |old(routes)|)
    {
      ghost var was, want := routes, ResolveAll(routes, s, shards);
      resolved := 0;
      var i := 0;
      while i < |routes|
        invariant 0 <= i && ReroutedTo(routes, was, want, i) && resolved == ResolveCount(was, s, shards, i)
      {
        var r := routes[i];
        if r.src == s && r.dst >= 0 {
          if r.dst < |shards| && shards[r.dst].host != "" {
            routes := routes[i := r.(host := Clip(shards[r.dst].host), port := shards[r.dst].pipePort)];
            resolved := resolved + 1;
          }
        }
        i := i + 1;
      }
      assert routes == want;
    }

    /** The last loop of `ldx_registry_migrate_shard`. */
    method RefreshInbound(s: int, host: string)
      modifies this`routes
      ensures routes == RefreshAll(old(routes), s, host)
    {
      ghost var was, want := routes, RefreshAll(routes, s, host);
      var i := 0;
      while i < |routes|
        invariant 0 <= i && ReroutedTo(routes, was, want, i)
      {
        if routes[i].dst == s { routes := routes[i := routes[i].(host := Clip(host))]; }
        i := i + 1;
      }
      assert routes == want;
    }

    /** The first half of a migration: the shard is marked and its routes are taken down. */
    method TakeDown(s: int)
      requires Valid() && IsShard(View(), s)
      modifies this
      ensures Valid() && stray == old(stray)
      ensures View() == MarkedMigrating(old(View()), s).(routes := DisconnectAll(old(routes), s))
    {
      ghost var t := View();
      SetFieldsKeeps(t, stray, s, MIGRATING, shards[s].host, shards[s].pipePort);
      shards := shards[s := shards[s].(state := MIGRATING)];
      assert View() == MarkedMigrating(t, s) == SetFields(t, s, MIGRATING, t.shards[s].host, t.shards[s].pipePort);
      var c := DisconnectRoutes(s);
      SameCountsAgree(MarkedMigrating(t, s), View());
      SameLists(MarkedMigrating(t, s), View(), stray);
    }

    /** `ldx_registry_migrate_shard`. */
    method MigrateShard(s: int, n: int) returns (rc: int)
      requires Valid()
      modifies this
      ensures Valid() && View() == Migrate(old(View()), s, n) && stray == old(stray)
      ensures rc == if 0 <= s < |old(shards)| then 0 else -1
      ensures IsShard(old(View()), s) && IsNode(old(View()), n) ==> Migrated(old(View()), View(), s, n)
    {
      ghost var t := View();
      MigrateKeeps(t, stray, s, n);
      if !(0 <= s < |shards|) { return -1; }
      TakeDown(s);
      rc := PlaceShard(s, n);
      var c := ResolveRoutes(s);
      RefreshInbound(s, shards[s].host);
      PassesCompose(t, s, n);
      if IsNode(t, n) { MigrationReroutes(t, stray, s, n); }
      rc := 0;
    }
  }
}
