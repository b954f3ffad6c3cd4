/**
 `DependencyGraph` as the source runs it: in-degree counters, the priority queue, and the depth-first cycle search.
 */
module DependencyGraph {
  import opened ByteStrings
  import opened DependencyOrder

  /** The providers of the services a plugin asks for, itself left out, once per service. */
  function PluginDeps(providers: map<Bytes, Bytes>, plugin: Bytes, services: seq<Bytes>): seq<Bytes> {
    if services == [] then []
    else
      var rest := PluginDeps(providers, plugin, services[1..]);
      if services[0] in providers && providers[services[0]] != plugin then [providers[services[0]]] + rest else rest
  }

  lemma {:induction false} PluginDepsAppend(providers: map<Bytes, Bytes>, plugin: Bytes, services: seq<Bytes>,
      last: Bytes)
    ensures PluginDeps(providers, plugin, services + [last])
         == PluginDeps(providers, plugin, services) + if last in providers && providers[last] != plugin
           then [providers[last]] else []
  {
    if services == [] {
      assert services + [last] == [last];
    } else {
      PluginDepsAppend(providers, plugin, services[1..], last);
      assert (services + [last])[1..] == services[1..] + [last];
    }
  }

  // ---- Counters --------------------------------------------------------------------------------------

  /** The counters after the nodes outside `todo` had their turn at emitting `u`. */
  predicate Counting(g: Graph, done: seq<Bytes>, u: Bytes, todo: set<Bytes>, degrees: map<Bytes, int>) {
    && degrees.Keys == Nodes(g)
    && forall n | n in degrees :: degrees[n] == Degree(g, if n in todo then done else done + [u], n)
  }

  predicate Counted(g: Graph, done: seq<Bytes>, degrees: map<Bytes, int>) {
    degrees.Keys == Nodes(g) && forall n | n in degrees :: degrees[n] == Degree(g, done, n)
  }

  /** The queue after the nodes outside `todo` had their turn at emitting `u`. */
  ghost predicate Queued(g: Graph, done: seq<Bytes>, u: Bytes, todo: set<Bytes>, queue: set<Bytes>) {
    forall n :: n in queue <==> n in ReadySet(g, if n in todo then done else done + [u]) && n != u
  }

  lemma {:induction false} DegreeStart(g: Graph, n: Bytes)
    ensures Degree(g, [], n) == |Deps(g, n)|
  {
    assert Seen(g, [], n) == {};
  }

  /** The counter of a dependent meets zero when it becomes ready, and only then. */
  lemma TurnCounts(g: Graph, done: seq<Bytes>, u: Bytes, node: Bytes)
    requires u in Nodes(g) && u !in done && node in g
    ensures u in g[node] ==> Degree(g, done + [u], node) == Degree(g, done, node) - 1 && node !in ReadySet(g, done)
    ensures u !in g[node] ==> Degree(g, done + [u], node) == Degree(g, done, node)
    ensures node != u && (u !in g[node] || Degree(g, done + [u], node) != 0) ==>
      (node in ReadySet(g, done + [u]) <==> node in ReadySet(g, done))
    ensures u in g[node] && node != u && Degree(g, done + [u], node) == 0 && node !in done ==>
      node in ReadySet(g, done + [u])
  {
    hide Degree, Nodes;
    DegreeEmit(g, done, u, node);
    DegreeZero(g, done, node);
    DegreeZero(g, done + [u], node);
    assert node in Nodes(g) by { NodeOfGraph(g, node); }
  }

  lemma NodeOfGraph(g: Graph, node: Bytes)
    requires node in g
    ensures node in Nodes(g)
  {
  }

  /** Emitted nodes keep a zero counter, so their turn changes nothing. */
  lemma EmittedStays(g: Graph, p: Priorities, done: seq<Bytes>, u: Bytes, node: Bytes)
    requires Greedy(g, p, done + [u]) && node in done + [u]
    ensures u !in Deps(g, node)
  {
    hide Greedy, NoDuplicates, Nodes, ReadySet;
    UFacts(g, p, done, u);
    GreedyFacts(g, p, done + [u]);
    var order := done + [u];
    var i :| 0 <= i < |order| && order[i] == node;
    assert order[..i] == done[..i];
    assert forall d | d in Deps(g, node) :: d in order[..i];
  }

  /** One turn of the inner loop. */
  function TurnDegrees(g: Graph, u: Bytes, node: Bytes, degrees: map<Bytes, int>): map<Bytes, int>
    requires node in g && node in degrees
  {
    if u in g[node] then degrees[node := degrees[node] - 1] else degrees
  }

  function TurnQueue(g: Graph, u: Bytes, node: Bytes, degrees: map<Bytes, int>, queue: set<Bytes>): set<Bytes>
    requires node in g && node in degrees
  {
    if u in g[node] && degrees[node] == 1 then queue + {node} else queue
  }

  lemma TurnKeeps(g: Graph, p: Priorities, done: seq<Bytes>, u: Bytes, todo: set<Bytes>, node: Bytes,
      degrees: map<Bytes, int>, queue: set<Bytes>)
    requires Greedy(g, p, done + [u]) && node in todo && todo <= g.Keys
    requires Counting(g, done, u, todo, degrees) && Queued(g, done, u, todo, queue)
    ensures node in degrees && Counting(g, done, u, todo - {node}, TurnDegrees(g, u, node, degrees))
    ensures Queued(g, done, u, todo - {node}, TurnQueue(g, u, node, degrees, queue))
    ensures u in g[node] && degrees[node] == 1 ==> node !in queue
  {
    hide Degree, Nodes, Greedy, ReadySet;
    NodeOfGraph(g, node);
    UFacts(g, p, done, u);
    TurnCounts(g, done, u, node);
    if node in done + [u] { EmittedStays(g, p, done, u, node); }
    TurnReady(g, done, u, node);
  }

  lemma TurnReady(g: Graph, done: seq<Bytes>, u: Bytes, node: Bytes)
    ensures node in done + [u] ==> node !in ReadySet(g, done + [u])
    ensures node in done ==> node !in ReadySet(g, done)
  {
    hide Degree, Nodes;
  }

  class DependencyGraph {
    var graph: Graph
    var providers: map<Bytes, Bytes>
    var priorities: Priorities

    constructor ()
      ensures graph == map[] && providers == map[] && priorities == map[]
    {
      graph, providers, priorities := map[], map[], map[];
    }

    method RegisterService(service: Bytes, plugin: Bytes)
      modifies this
      ensures providers == old(providers)[service := plugin] && graph == old(graph) && priorities == old(priorities)
    {
      providers := providers[service := plugin];
    }

    method AddPlugin(plugin: Bytes, services: seq<Bytes>)
      modifies this
      ensures graph == old(graph)[plugin := PluginDeps(old(providers), plugin, services)]
      ensures providers == old(providers) && priorities == old(priorities)
    {
      var deps, i := [], 0;
      while i < |services|
        invariant 0 <= i <= |services| && deps == PluginDeps(providers, plugin, services[..i])
        invariant graph == old(graph) && providers == old(providers) && priorities == old(priorities)
      {
        PluginDepsAppend(providers, plugin, services[..i], services[i]);
        assert services[..i + 1] == services[..i] + [services[i]];
        if services[i] in providers && providers[services[i]] != plugin {
          deps := deps + [providers[services[i]]];
        }
        i := i + 1;
      }
      assert services[..i] == services;
      graph := graph[plugin := deps];
    }

    method SetPriority(plugin: Bytes, priority: int)
      modifies this
      ensures priorities == old(priorities)[plugin := priority] && graph == old(graph) && providers == old(providers)
    {
      priorities := priorities[plugin := priority];
    }

    /** The counters before anything is emitted, whatever order the hash map is walked in. */
    method InDegrees() returns (degrees: map<Bytes, int>)
      ensures Counted(graph, [], degrees)
    {
      degrees := map[];
      var todo := graph.Keys;
      while todo != {}
        invariant todo <= graph.Keys
        invariant forall n ::
          n in degrees <==> (n in graph && n !in todo) || exists m | m in graph && m !in todo :: n in graph[m]
        invariant forall n | n in degrees :: degrees[n] == if n in graph && n !in todo then |graph[n]| else 0
        decreases |todo|
      {
        var node :| node in todo;
        todo := todo - {node};
        degrees := degrees[node := |graph[node]|];
        ghost var seen := degrees;
        var i := 0;
        while i < |graph[node]|
          invariant 0 <= i <= |graph[node]|
          invariant forall n :: n in degrees <==> n in seen || n in graph[node][..i]
          invariant forall n | n in degrees :: degrees[n] == if n in seen then seen[n] else 0
        {
          var dep := graph[node][i];
          if dep !in degrees {
            degrees := degrees[dep := 0];
          }
          assert graph[node][..i + 1] == graph[node][..i] + [dep];
          i := i + 1;
        }
        assert graph[node][..i] == graph[node];
      }
      forall n ensures n in degrees <==> n in Nodes(graph) {}
      forall n | n in degrees ensures degrees[n] == Degree(graph, [], n) { DegreeStart(graph, n); }
    }

    /** One emitted node: every dependent's counter goes down once, and those that meet zero join the queue. */
    method Emitted(u: Bytes, ghost done: seq<Bytes>, before: map<Bytes, int>, waiting: set<Bytes>)
      returns (degrees: map<Bytes, int>, queue: set<Bytes>)
      requires Greedy(graph, priorities, done + [u])
      requires Counted(graph, done, before) && waiting == ReadySet(graph, done) - {u}
      ensures Counted(graph, done + [u], degrees) && queue == ReadySet(graph, done + [u])
    {
      hide Nodes, Greedy, Degree, Counting, Queued;
      degrees, queue := before, waiting;
      var todo := graph.Keys;
      FirstTurn(graph, done, u, before, waiting);
      while todo != {}
        invariant todo <= graph.Keys
        invariant Counting(graph, done, u, todo, degrees) && Queued(graph, done, u, todo, queue)
        decreases |todo|
      {
        var node :| node in todo;
        TurnKeeps(graph, priorities, done, u, todo, node, degrees, queue);
        if u in graph[node] {
          degrees := degrees[node := degrees[node] - 1];
          if degrees[node] == 0 {
            queue := queue + {node};
          }
        }
        todo := todo - {node};
      }
      LastTurn(graph, done, u, degrees, queue);
    }

    method TopologicalOrder() returns (order: seq<Bytes>)
      ensures order == Topological(graph, priorities)
    {
      hide Degree, Nodes, Greedy, IsTop;
      var degrees := InDegrees();
      order := [];
      var queue := set n | n in degrees && degrees[n] == 0;
      assert queue == ReadySet(graph, []);
      GreedyStart(graph, priorities);
      while queue != {}
        invariant Greedy(graph, priorities, order) && Counted(graph, order, degrees) && queue == ReadySet(graph, order)
        invariant Emit(graph, priorities, order) == Emit(graph, priorities, [])
        decreases |Nodes(graph) - Elements(order)|
      {
        var u := Top(priorities, queue);
        GreedyAppend(graph, priorities, order);
        EmitShrinks(graph, priorities, order);
        degrees, queue := Emitted(u, order, degrees, queue - {u});
        order := order + [u];
      }
      SameCount(degrees, Nodes(graph));
      if |order| != |degrees| {
        order := [];
      }
    }

    method ReverseTopologicalOrder() returns (order: seq<Bytes>)
      ensures |order| == |Topological(graph, priorities)|
      ensures forall i | 0 <= i < |order| :: order[i] == Topological(graph, priorities)[|order| - 1 - i]
    {
      var forward := TopologicalOrder();
      order := seq(|forward|, i requires 0 <= i < |forward| => forward[|forward| - 1 - i]);
    }

    method HasCycleFrom(plugin: Bytes) returns (found: bool)
      ensures found <==> CycleFrom(graph, plugin)
    {
      var search := new CycleSearch(graph);
      found := search.Dfs(plugin, Nodes(graph) + {plugin});
    }
  }

  lemma SameCount(degrees: map<Bytes, int>, nodes: set<Bytes>)
    requires degrees.Keys == nodes
    ensures |degrees| == |nodes|
  {
  }

  lemma UFacts(g: Graph, p: Priorities, done: seq<Bytes>, u: Bytes)
    requires Greedy(g, p, done + [u])
    ensures u in ReadySet(g, done) && u in Nodes(g) && u !in done
  {
    hide Degree, Nodes;
    assert (done + [u])[..|done|] == done && (done + [u])[|done|] == u;
  }

  lemma FirstTurn(g: Graph, done: seq<Bytes>, u: Bytes, degrees: map<Bytes, int>, waiting: set<Bytes>)
    requires Counted(g, done, degrees) && waiting == ReadySet(g, done) - {u}
    ensures Counting(g, done, u, g.Keys, degrees) && Queued(g, done, u, g.Keys, waiting)
  {
    hide Nodes, Degree;
    forall n | n !in g
      ensures Degree(g, done + [u], n) == 0 && Degree(g, done, n) == 0
    {
      Leaf(g, done, n);
      Leaf(g, done + [u], n);
    }
  }

  /** Nodes without dependencies of their own have nothing to count. */
  lemma Leaf(g: Graph, done: seq<Bytes>, n: Bytes)
    requires n !in g
    ensures Degree(g, done, n) == 0
  {
    assert Seen(g, done, n) == {};
  }

  lemma LastTurn(g: Graph, done: seq<Bytes>, u: Bytes, degrees: map<Bytes, int>, queue: set<Bytes>)
    requires Counting(g, done, u, {}, degrees) && Queued(g, done, u, {}, queue)
    ensures Counted(g, done + [u], degrees) && queue == ReadySet(g, done + [u])
  {
    hide Nodes, Degree;
  }

  // ---- Depth-first search ---------------------------------------------------------------------------------

  ghost predicate Reaches(g: Graph, a: Bytes, b: Bytes) {
    exists path :: IsPath(g, path) && |path| >= 2 && path[0] == a && path[|path| - 1] == b
  }

  lemma PathSnoc(g: Graph, path: seq<Bytes>, n: Bytes)
    requires IsPath(g, path) && n in Deps(g, path[|path| - 1])
    ensures IsPath(g, path + [n])
  {
    var longer := path + [n];
    forall i | 0 <= i < |longer| - 1 ensures longer[i + 1] in Deps(g, longer[i]) {
      if i < |path| - 1 { assert longer[i + 1] == path[i + 1]; }
    }
  }

  lemma StepReaches(g: Graph, a: Bytes, b: Bytes)
    requires b in Deps(g, a)
    ensures Reaches(g, a, b)
  {
    var path := [a, b];
    assert IsPath(g, path);
  }

  lemma ReachesOn(g: Graph, a: Bytes, b: Bytes, c: Bytes)
    requires Reaches(g, a, b) && c in Deps(g, b)
    ensures Reaches(g, a, c)
  {
    hide IsPath;
    var path :| IsPath(g, path) && |path| >= 2 && path[0] == a && path[|path| - 1] == b;
    PathSnoc(g, path, c);
    var longer := path + [c];
    assert longer[0] == a && longer[|longer| - 1] == c;
  }

  lemma SelfReaches(g: Graph, n: Bytes)
    requires Reaches(g, n, n)
    ensures CycleFrom(g, n)
  {
    hide IsPath;
    var path :| IsPath(g, path) && |path| >= 2 && path[0] == n && path[|path| - 1] == n;
    assert Repeats(path);
  }

  lemma CycleBefore(g: Graph, n: Bytes, d: Bytes)
    requires d in Deps(g, n) && CycleFrom(g, d)
    ensures CycleFrom(g, n)
  {
    var path :| IsPath(g, path) && path[0] == d && Repeats(path);
    PathCons(g, n, path);
    var longer := [n] + path;
    var i, j :| 0 <= i < j < |path| && path[i] == path[j];
    assert longer[i + 1] == longer[j + 1];
    assert Repeats(longer);
  }

  lemma PathTail(g: Graph, path: seq<Bytes>)
    requires IsPath(g, path) && |path| >= 2
    ensures IsPath(g, path[1..]) && path[1] in Deps(g, path[0])
  {
    var rest := path[1..];
    forall i | 0 <= i < |rest| - 1
      ensures rest[i + 1] in Deps(g, rest[i])
    {
      assert rest[i + 1] == path[i + 2] && rest[i] == path[i + 1];
    }
  }

  lemma PathHead(g: Graph, path: seq<Bytes>, n: nat)
    requires IsPath(g, path) && 0 < n <= |path|
    ensures IsPath(g, path[..n])
  {
  }

  /** A cycle reachable from a node is reachable from one of its dependencies. */
  lemma CycleAfter(g: Graph, n: Bytes)
    requires CycleFrom(g, n)
    ensures exists d | d in Deps(g, n) :: CycleFrom(g, d)
  {
    hide IsPath;
    var path := Cyclic(g, n);
    var i, j :| 0 <= i < j < |path| && path[i] == path[j];
    PathTail(g, path);
    var d, rest := path[1], path[1..];
    if i > 0 {
      assert rest[i - 1] == rest[j - 1];
      assert Repeats(rest);
      assert CycleFrom(g, d);
    } else {
      PathHead(g, rest, j);
      var loop := rest[..j];
      assert loop[|loop| - 1] == n;
      PathSnoc(g, loop, d);
      assert (loop + [d])[0] == (loop + [d])[j] == d;
      assert Repeats(loop + [d]);
      assert CycleFrom(g, d);
    }
  }

  lemma Cyclic(g: Graph, n: Bytes) returns (path: seq<Bytes>)
    requires CycleFrom(g, n)
    ensures |path| >= 2 && IsPath(g, path) && path[0] == n && Repeats(path)
  {
    path :| IsPath(g, path) && path[0] == n && Repeats(path);
  }

  /** `has_cycle_from` with its two sets: the current path and the nodes known to be free of cycles. */
  class CycleSearch {
    const graph: Graph
    var visiting: set<Bytes>
    var visited: set<Bytes>

    constructor (graph: Graph)
      ensures this.graph == graph && visiting == {} && visited == {}
    {
      this.graph, visiting, visited := graph, {}, {};
    }

    method Dfs(node: Bytes, ghost universe: set<Bytes>) returns (found: bool)
      requires Nodes(graph) <= universe && node in universe && visiting <= universe
      requires forall v | v in visiting :: Reaches(graph, v, node)
      requires forall v | v in visited :: !CycleFrom(graph, v)
      modifies this
      ensures found <==> CycleFrom(graph, node)
      ensures !found ==> visiting == old(visiting) && forall v | v in visited :: !CycleFrom(graph, v)
      decreases |universe - visiting|
    {
      hide CycleFrom, Reaches, Nodes;
      if node in visiting {
        SelfReaches(graph, node);
        return true;
      }
      if node in visited {
        return false;
      }
      visiting := visiting + {node};
      assert |universe - visiting| < |universe - old(visiting)| by {
        assert node in universe - old(visiting) && node !in universe - visiting;
        SubsetSize(universe - visiting, universe - old(visiting));
      }
      if node in graph {
        var i := 0;
        while i < |graph[node]|
          invariant 0 <= i <= |graph[node]| && visiting == old(visiting) + {node}
          invariant forall v | v in visited :: !CycleFrom(graph, v)
          invariant forall d | d in graph[node][..i] :: !CycleFrom(graph, d)
        {
          var dep := graph[node][i];
          DepIsNode(graph, node, dep);
          forall v | v in visiting ensures Reaches(graph, v, dep) {
            if v == node { StepReaches(graph, node, dep); } else { ReachesOn(graph, v, node, dep); }
          }
          var inner := Dfs(dep, universe);
          if inner {
            CycleBefore(graph, node, dep);
            return true;
          }
          assert graph[node][..i + 1] == graph[node][..i] + [dep];
          i := i + 1;
        }
        assert graph[node][..i] == graph[node];
      }
      visiting := visiting - {node};
      NoCycleHere(graph, node);
      visited := visited + {node};
      return false;
    }
  }

  lemma DepIsNode(g: Graph, n: Bytes, d: Bytes)
    requires n in g && d in g[n]
    ensures d in Nodes(g)
  {
  }

  lemma NoCycleHere(g: Graph, n: Bytes)
    requires forall d | d in Deps(g, n) :: !CycleFrom(g, d)
    ensures !CycleFrom(g, n)
  {
    hide CycleFrom;
    if CycleFrom(g, n) { CycleAfter(g, n); }
  }

  // ---- Where duplicates come from -------------------------------------------------------------------------

  /** Two services of one provider: an acyclic graph of two plugins, and no order at all. */
  lemma TwoServicesOneProvider(a: Bytes, b: Bytes, s: Bytes, t: Bytes, p: Priorities)
    requires a != b && s != t
    ensures var providers := map[s := a, t := a];
      var g := map[a := PluginDeps(providers, a, []), b := PluginDeps(providers, b, [s, t])];
      g == map[a := [], b := [a, a]] && !HasCycle(g) && Topological(g, p) == []
  {
    hide HasCycle, Topological;
    var providers := map[s := a, t := a];
    assert [s, t][1..] == [t] && [t][1..] == [];
    assert PluginDeps(providers, b, [t]) == [a];
    assert PluginDeps(providers, b, [s, t]) == [a] + [a] == [a, a];
    assert PluginDeps(providers, a, []) == [];
    var g: Graph := map[a := [], b := [a, a]];
    assert g[b][0] == g[b][1] && !NoDuplicates(g[b]);
    assert ListsTwice(g);
    assert a in Nodes(g);
    EmptyExactly(g, p);
    TwoNodesNoCycle(a, b);
    assert map[a := PluginDeps(providers, a, []), b := PluginDeps(providers, b, [s, t])] == g;
  }

  lemma TwoNodesNoCycle(a: Bytes, b: Bytes)
    requires a != b
    ensures !HasCycle(map[a := [], b := [a, a]])
  {
    hide CycleFrom;
    var g := map[a := [], b := [a, a]];
    NoCycleHere(g, a);
    NoCycleHere(g, b);
    forall n | n in Nodes(g) ensures !CycleFrom(g, n) { assert n == a || n == b; }
  }
}
