/** Plugin dependency graphs: what Kahn's algorithm with a priority queue emits, and when it emits nothing. */
module DependencyOrder {
  import opened ByteStrings

  type Graph = map<Bytes, seq<Bytes>>
  type Priorities = map<Bytes, int>

  function Deps(g: Graph, n: Bytes): seq<Bytes> { if n in g then g[n] else [] }

  function Nodes(g: Graph): set<Bytes> { g.Keys + set n, d | n in g && d in g[n] :: d }

  function Elements(s: seq<Bytes>): set<Bytes> { set x | x in s }

  predicate NoDuplicates(s: seq<Bytes>) { forall i, j | 0 <= i < j < |s| :: s[i] != s[j] }

  // ---- Order of the queue -----------------------------------------------------------------------

  function Priority(p: Priorities, n: Bytes): int { if n in p then p[n] else 0 }

  /** `a` leaves the queue before `b`. */
  predicate Before(p: Priorities, a: Bytes, b: Bytes) {
    Priority(p, a) < Priority(p, b) || (Priority(p, a) == Priority(p, b) && Less(a, b))
  }

  predicate IsTop(p: Priorities, a: Bytes, nodes: set<Bytes>) {
    a in nodes && forall b | b in nodes && b != a :: Before(p, a, b)
  }

  lemma BeforeOrders(p: Priorities, a: Bytes, b: Bytes, c: Bytes)
    ensures a == b || Before(p, a, b) || Before(p, b, a)
    ensures !(Before(p, a, b) && Before(p, b, a))
    ensures Before(p, a, b) && Before(p, b, c) ==> Before(p, a, c)
  {
    LessTrichotomy(a, b);
    if Less(a, b) && Less(b, c) { LessTransitive(a, b, c); }
  }

  lemma {:induction false} TopExists(p: Priorities, nodes: set<Bytes>)
    requires nodes != {}
    ensures exists a :: IsTop(p, a, nodes)
  {
    hide Before;
    var x :| x in nodes;
    var rest := nodes - {x};
    if rest == {} {
      assert forall b | b in nodes :: b == x || b in rest;
      assert IsTop(p, x, nodes);
    } else {
      TopExists(p, rest);
      var k :| IsTop(p, k, rest);
      BeforeOrders(p, x, k, k);
      if Before(p, k, x) {
        assert IsTop(p, k, nodes);
      } else {
        forall b | b in nodes && b != x ensures Before(p, x, b) {
          if b != k { BeforeOrders(p, x, k, b); }
        }
        assert IsTop(p, x, nodes);
      }
    }
  }

  function Top(p: Priorities, nodes: set<Bytes>): (a: Bytes)
    requires nodes != {}
    ensures IsTop(p, a, nodes)
  {
    TopExists(p, nodes);
    assert forall a, b | IsTop(p, a, nodes) && IsTop(p, b, nodes) :: a == b by {
      forall a, b | IsTop(p, a, nodes) && IsTop(p, b, nodes) ensures a == b { BeforeOrders(p, a, b, b); }
    }
    var a :| IsTop(p, a, nodes);
    a
  }

  // ---- Degrees ------------------------------------------------------------------------------------

  function Seen(g: Graph, done: seq<Bytes>, n: Bytes): set<Bytes> { set d | d in Deps(g, n) && d in done }

  /** The counter the algorithm keeps: listed dependencies minus providers emitted. */
  function Degree(g: Graph, done: seq<Bytes>, n: Bytes): int { |Deps(g, n)| - |Seen(g, done, n)| }

  function ReadySet(g: Graph, done: seq<Bytes>): set<Bytes> {
    set n | n in Nodes(g) && n !in done && Degree(g, done, n) == 0
  }

  lemma {:induction false} DistinctSize(s: seq<Bytes>)
    ensures |Elements(s)| <= |s|
    ensures |Elements(s)| == |s| <==> NoDuplicates(s)
  {
    if s != [] {
      var rest := s[1..];
      DistinctSize(rest);
      if s[0] in rest {
        assert Elements(s) == Elements(rest);
        var i :| 0 <= i < |rest| && rest[i] == s[0];
        assert s[i + 1] == s[0];
      } else {
        assert Elements(s) == Elements(rest) + {s[0]};
        assert NoDuplicates(s) <==> NoDuplicates(rest) by { DistinctCons(s); }
      }
    }
  }

  lemma DistinctCons(s: seq<Bytes>)
    requires s != [] && s[0] !in s[1..]
    ensures NoDuplicates(s) <==> NoDuplicates(s[1..])
  {
    var rest := s[1..];
    if NoDuplicates(rest) {
      forall i, j | 0 <= i < j < |s| ensures s[i] != s[j] {
        assert s[j] == rest[j - 1];
        if i > 0 { assert s[i] == rest[i - 1]; }
      }
    }
    if NoDuplicates(s) {
      forall i, j | 0 <= i < j < |rest|
        ensures rest[i] != rest[j]
      {
        assert rest[i] == s[i + 1] && rest[j] == s[j + 1];
      }
    }
  }

  lemma SubsetSize(a: set<Bytes>, b: set<Bytes>)
    requires a <= b
    ensures |a| <= |b| && (|a| == |b| ==> a == b)
  {
    assert b == a + (b - a);
  }

  /** The counter is never negative and reaches zero exactly when the list has no duplicate and all of it is emitted. */
  lemma DegreeZero(g: Graph, done: seq<Bytes>, n: Bytes)
    ensures Degree(g, done, n) >= 0
    ensures Degree(g, done, n) == 0 <==> NoDuplicates(Deps(g, n)) && forall d | d in Deps(g, n) :: d in done
  {
    hide NoDuplicates;
    var deps := Deps(g, n);
    DistinctSize(deps);
    SubsetSize(Seen(g, done, n), Elements(deps));
    if forall d | d in deps :: d in done { assert Seen(g, done, n) == Elements(deps); }
    if Degree(g, done, n) == 0 {
      forall d | d in deps ensures d in done { assert d in Elements(deps); }
    }
  }

  /** Emitting `u` lowers the counter of its dependents by one, however often they list it. */
  lemma DegreeEmit(g: Graph, done: seq<Bytes>, u: Bytes, n: Bytes)
    requires u !in done
    ensures Degree(g, done + [u], n) == Degree(g, done, n) - if u in Deps(g, n) then 1 else 0
  {
    var before, after := Seen(g, done, n), Seen(g, done + [u], n);
    if u in Deps(g, n) { assert after == before + {u}; } else { assert after == before; }
  }

  // ---- What is emitted ------------------------------------------------------------------------------

  function Emit(g: Graph, p: Priorities, done: seq<Bytes>): seq<Bytes>
    decreases |Nodes(g) - Elements(done)|
  {
    var ready := ReadySet(g, done);
    if ready == {} then done
    else
      var u := Top(p, ready);
      assert Nodes(g) - Elements(done + [u]) < Nodes(g) - Elements(done) by { assert u in Nodes(g) - Elements(done); }
      SubsetSize(Nodes(g) - Elements(done + [u]), Nodes(g) - Elements(done));
      Emit(g, p, done + [u])
  }

  function Topological(g: Graph, p: Priorities): seq<Bytes> {
    var order := Emit(g, p, []);
    if |order| == |Nodes(g)| then order else []
  }

  /** Each element was the top of the nodes then ready. */
  predicate Greedy(g: Graph, p: Priorities, order: seq<Bytes>) {
    forall i | 0 <= i < |order| :: ReadySet(g, order[..i]) != {} && order[i] == Top(p, ReadySet(g, order[..i]))
  }

  lemma GreedyAppend(g: Graph, p: Priorities, done: seq<Bytes>)
    requires Greedy(g, p, done) && ReadySet(g, done) != {}
    ensures Greedy(g, p, done + [Top(p, ReadySet(g, done))])
  {
    hide ReadySet, IsTop;
    var next := done + [Top(p, ReadySet(g, done))];
    forall i | 0 <= i < |next| ensures ReadySet(g, next[..i]) != {} && next[i] == Top(p, ReadySet(g, next[..i])) {
      if i < |done| { assert next[..i] == done[..i]; } else { assert next[..i] == done; }
    }
  }

  lemma {:induction false} EmitIsGreedy(g: Graph, p: Priorities, done: seq<Bytes>)
    requires Greedy(g, p, done)
    ensures Greedy(g, p, Emit(g, p, done)) && ReadySet(g, Emit(g, p, done)) == {} && done <= Emit(g, p, done)
    decreases |Nodes(g) - Elements(done)|
  {
    hide ReadySet, IsTop, Greedy;
    if ReadySet(g, done) != {} {
      GreedyAppend(g, p, done);
      EmitShrinks(g, p, done);
      EmitIsGreedy(g, p, done + [Top(p, ReadySet(g, done))]);
    }
  }

  lemma EmitShrinks(g: Graph, p: Priorities, done: seq<Bytes>)
    requires ReadySet(g, done) != {}
    ensures |Nodes(g) - Elements(done + [Top(p, ReadySet(g, done))])| < |Nodes(g) - Elements(done)|
  {
    var u := Top(p, ReadySet(g, done));
    assert u in Nodes(g) - Elements(done) && u !in Nodes(g) - Elements(done + [u]);
    SubsetSize(Nodes(g) - Elements(done + [u]), Nodes(g) - Elements(done));
  }

  /** Every dependency stands before its dependent. */
  predicate DepsFirst(g: Graph, order: seq<Bytes>) {
    forall i, d | 0 <= i < |order| && d in Deps(g, order[i]) :: d in order[..i]
  }

  lemma GreedyFacts(g: Graph, p: Priorities, order: seq<Bytes>)
    requires Greedy(g, p, order)
    ensures NoDuplicates(order) && DepsFirst(g, order) && Elements(order) <= Nodes(g)
    ensures forall n | n in order :: NoDuplicates(Deps(g, n))
  {
    hide Degree, Nodes, NoDuplicates;
    forall i | 0 <= i < |order|
      ensures order[i] !in order[..i] && order[i] in Nodes(g) && NoDuplicates(Deps(g, order[i]))
      ensures forall d | d in Deps(g, order[i]) :: d in order[..i]
    {
      assert order[i] in ReadySet(g, order[..i]);
      DegreeZero(g, order[..i], order[i]);
    }
    FreshEach(order);
  }

  lemma FreshEach(order: seq<Bytes>)
    requires forall i | 0 <= i < |order| :: order[i] !in order[..i]
    ensures NoDuplicates(order)
  {
    forall i, j | 0 <= i < j < |order| ensures order[i] != order[j] { assert order[i] == order[..j][i]; }
  }

  /** A non-empty order lists every node once, dependencies first, always the least ready node next. */
  lemma OrderIsTopological(g: Graph, p: Priorities)
    requires Topological(g, p) != []
    ensures var order := Topological(g, p);
      Elements(order) == Nodes(g) && NoDuplicates(order) && DepsFirst(g, order) && Greedy(g, p, order)
  {
    hide Greedy, DepsFirst, NoDuplicates, Emit, ReadySet, Nodes;
    GreedyStart(g, p);
    EmitIsGreedy(g, p, []);
    var order := Emit(g, p, []);
    GreedyFacts(g, p, order);
    DistinctSize(order);
    SubsetSize(Elements(order), Nodes(g));
  }

  /**
   Among the plugins whose dependencies have all come, the one with the lowest number, and then the first name, is
   next.
   */
  lemma LowestFirst(g: Graph, p: Priorities, i: nat, other: Bytes)
    requires i < |Topological(g, p)| && other in Nodes(g) && other !in Topological(g, p)[..i]
    requires forall d | d in Deps(g, other) :: d in Topological(g, p)[..i]
    ensures var next := Topological(g, p)[i];
      || next == other || Priority(p, next) < Priority(p, other)
      || (Priority(p, next) == Priority(p, other) && Less(next, other))
  {
    hide Emit, Nodes, Degree, NoDuplicates, Elements, DepsFirst;
    OrderIsTopological(g, p);
    var order := Topological(g, p);
    InOrder(order, other);
    GreedyFacts(g, p, order);
    DegreeZero(g, order[..i], other);
    assert other in ReadySet(g, order[..i]);
  }

  lemma InOrder(order: seq<Bytes>, n: Bytes)
    requires n in Elements(order)
    ensures n in order
  {
  }

  lemma GreedyStart(g: Graph, p: Priorities)
    ensures Greedy(g, p, [])
  {
  }

  // ---- Cycles -----------------------------------------------------------------------------------------

  predicate IsPath(g: Graph, path: seq<Bytes>) {
    path != [] && forall i | 0 <= i < |path| - 1 :: path[i + 1] in Deps(g, path[i])
  }

  predicate Repeats(path: seq<Bytes>) { !NoDuplicates(path) }

  /** A cycle can be reached from `n`: some path from it meets a node twice. */
  ghost predicate CycleFrom(g: Graph, n: Bytes) {
    exists path :: IsPath(g, path) && path[0] == n && Repeats(path)
  }

  lemma {:induction false} PathStays(g: Graph, path: seq<Bytes>, i: nat)
    requires IsPath(g, path) && path[0] in Nodes(g) && i < |path|
    ensures path[i] in Nodes(g)
  {
    if i > 0 {
      PathStays(g, path, i - 1);
      assert path[i] in Deps(g, path[i - 1]);
    }
  }

  predicate FirstAt(order: seq<Bytes>, x: Bytes, i: nat) { i < |order| && order[i] == x }

  lemma StepDescends(g: Graph, order: seq<Bytes>, path: seq<Bytes>, i: nat, a: nat) returns (b: nat)
    requires IsPath(g, path) && DepsFirst(g, order) && i + 1 < |path| && FirstAt(order, path[i], a)
    ensures b < a && FirstAt(order, path[i + 1], b)
  {
    assert path[i + 1] in Deps(g, order[a]);
    assert path[i + 1] in order[..a];
    b :| 0 <= b < a && order[..a][b] == path[i + 1];
  }

  /** Along a path, positions in a dependency-first order go down. */
  lemma {:induction false} PathDescends(g: Graph, order: seq<Bytes>, path: seq<Bytes>, i: nat, j: nat,
      a: nat) returns (b: nat)
    requires IsPath(g, path) && DepsFirst(g, order) && i < j < |path| && FirstAt(order, path[i], a)
    ensures b < a && FirstAt(order, path[j], b)
    decreases j
  {
    hide IsPath, DepsFirst;
    if i + 1 == j {
      b := StepDescends(g, order, path, i, a);
    } else {
      var c := PathDescends(g, order, path, i, j - 1, a);
      b := StepDescends(g, order, path, j - 1, c);
    }
  }

  /** A complete dependency-first order leaves no room for a cycle. */
  lemma OrderedHasNoCycle(g: Graph, order: seq<Bytes>, n: Bytes)
    requires Elements(order) == Nodes(g) && DepsFirst(g, order) && NoDuplicates(order) && n in Nodes(g)
    ensures !CycleFrom(g, n)
  {
    hide DepsFirst, Nodes;
    forall path | IsPath(g, path) && path[0] == n ensures !Repeats(path) {
      forall i, j | 0 <= i < j < |path| ensures path[i] != path[j] {
        PathStays(g, path, i);
        assert path[i] in Elements(order);
        var a :| 0 <= a < |order| && order[a] == path[i];
        var b := PathDescends(g, order, path, i, j, a);
        assert order[b] != order[a];
      }
    }
  }

  predicate DependsWithin(g: Graph, m: Bytes, stuck: set<Bytes>) { exists d | d in Deps(g, m) :: d in stuck }

  lemma Pick(g: Graph, m: Bytes, stuck: set<Bytes>) returns (d: Bytes)
    requires DependsWithin(g, m, stuck)
    ensures d in Deps(g, m) && d in stuck
  {
    d :| d in Deps(g, m) && d in stuck;
  }

  lemma PathCons(g: Graph, n: Bytes, rest: seq<Bytes>)
    requires rest != [] && IsPath(g, rest) && rest[0] in Deps(g, n)
    ensures IsPath(g, [n] + rest)
  {
    var path := [n] + rest;
    forall i | 0 <= i < |path| - 1 ensures path[i + 1] in Deps(g, path[i]) {
      assert path[i + 1] == rest[i];
      if i > 0 { assert path[i] == rest[i - 1]; }
    }
  }

  /** A set in which every node has a dependency holds paths of every length. */
  lemma {:induction false} LongPath(g: Graph, stuck: set<Bytes>, n: Bytes, length: nat) returns (path: seq<Bytes>)
    requires n in stuck && forall m | m in stuck :: DependsWithin(g, m, stuck)
    ensures |path| == length + 1 && path[0] == n && IsPath(g, path) && Elements(path) <= stuck
    decreases length
  {
    hide IsPath, DependsWithin;
    if length == 0 {
      path := [n];
      PathSingle(g, n);
    } else {
      var d := Pick(g, n, stuck);
      var rest := LongPath(g, stuck, d, length - 1);
      PathCons(g, n, rest);
      path := [n] + rest;
      assert Elements(path) == {n} + Elements(rest);
    }
  }

  lemma PathSingle(g: Graph, n: Bytes)
    ensures IsPath(g, [n])
  {
  }

  /** A path longer than the set it stays in repeats a node. */
  lemma Pigeonhole(path: seq<Bytes>, nodes: set<Bytes>)
    requires |path| > |nodes| && Elements(path) <= nodes
    ensures Repeats(path)
  {
    hide NoDuplicates;
    DistinctSize(path);
    SubsetSize(Elements(path), nodes);
  }

  lemma StuckHasCycle(g: Graph, stuck: set<Bytes>, n: Bytes)
    requires n in stuck && forall m | m in stuck :: DependsWithin(g, m, stuck)
    ensures CycleFrom(g, n)
  {
    hide IsPath, Repeats, DependsWithin;
    var path := LongPath(g, stuck, n, |stuck|);
    Pigeonhole(path, stuck);
  }

  predicate ListsTwice(g: Graph) { exists n | n in g :: !NoDuplicates(g[n]) }

  ghost predicate HasCycle(g: Graph) { exists n :: n in Nodes(g) && CycleFrom(g, n) }

  /** On a graph with nodes the order is empty exactly when some node lists a dependency twice or there is a cycle. */
  lemma EmptyExactly(g: Graph, p: Priorities)
    requires Nodes(g) != {}
    ensures Topological(g, p) == [] <==> ListsTwice(g) || HasCycle(g)
  {
    hide Nodes, Emit, CycleFrom, ListsTwice;
    if Topological(g, p) == [] {
      if !ListsTwice(g) { StuckOrder(g, p); }
    } else {
      CompleteOrder(g, p);
    }
  }

  lemma CompleteOrder(g: Graph, p: Priorities)
    requires Topological(g, p) != []
    ensures !ListsTwice(g) && !HasCycle(g)
  {
    hide Greedy, DepsFirst, Emit, CycleFrom, NoDuplicates, ReadySet;
    OrderIsTopological(g, p);
    var order := Topological(g, p);
    GreedyFacts(g, p, order);
    forall n | n in g ensures NoDuplicates(g[n]) {
      assert n in Elements(order);
      assert NoDuplicates(Deps(g, n));
    }
    forall n | n in Nodes(g) ensures !CycleFrom(g, n) { OrderedHasNoCycle(g, order, n); }
  }

  lemma StuckOrder(g: Graph, p: Priorities)
    requires Nodes(g) != {} && Topological(g, p) == [] && !ListsTwice(g)
    ensures HasCycle(g)
  {
    hide Greedy, DepsFirst, NoDuplicates, CycleFrom, Emit, ReadySet, Nodes, DependsWithin, ListsTwice;
    GreedyStart(g, p);
    EmitIsGreedy(g, p, []);
    var order := Emit(g, p, []);
    GreedyFacts(g, p, order);
    DistinctSize(order);
    var stuck := Nodes(g) - Elements(order);
    assert |order| != |Nodes(g)|;
    assert stuck != {} by { if stuck == {} { NoneLeft(Elements(order), Nodes(g)); } }
    var n :| n in stuck;
    forall m | m in stuck ensures DependsWithin(g, m, stuck) { StuckDep(g, order, m); }
    StuckHasCycle(g, stuck, n);
  }

  lemma NoneLeft(a: set<Bytes>, b: set<Bytes>)
    requires a <= b && b - a == {}
    ensures a == b
  {
    forall x | x in b ensures x in a { assert x !in b - a; }
  }

  lemma StuckDep(g: Graph, order: seq<Bytes>, m: Bytes)
    requires ReadySet(g, order) == {} && m in Nodes(g) && m !in order && !ListsTwice(g)
    ensures DependsWithin(g, m, Nodes(g) - Elements(order))
  {
    hide Degree;
    DegreeZero(g, order, m);
    assert m !in ReadySet(g, order);
    assert NoDuplicates(Deps(g, m));
    var d :| d in Deps(g, m) && d !in order;
    assert d in Nodes(g);
  }
}
