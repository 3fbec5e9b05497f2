/** The dependency rules of the workspace: a worklist search for a forbidden package, on graphs that may have cycles. */
module Reachability {
  import opened Options

  datatype Dependency = Dependency(name: string, path: Option<string>)

  /** The dependencies of each workspace package, by name. */
  type Packages = map<string, seq<Dependency>>

  type Graph = map<string, seq<string>>

  // ----- the graph -----

  /** The names of the path dependencies that are workspace packages. */
  function Local(packages: Packages, dependencies: seq<Dependency>): seq<string> {
    if dependencies == [] then []
    else
      var d := dependencies[0];
      (if d.path.Some? && d.name in packages then [d.name] else []) + Local(packages, dependencies[1..])
  }

  function WorkspaceGraph(packages: Packages): Graph {
    map name | name in packages :: Local(packages, packages[name])
  }

  predicate Edge(graph: Graph, a: string, b: string) { a in graph && b in graph[a] }

  predicate Walk(graph: Graph, path: seq<string>) {
    |path| >= 2 && forall k | 0 <= k < |path| - 1 :: Edge(graph, path[k], path[k + 1])
  }

  /** Reachable by one or more edges. */
  ghost predicate Reachable(graph: Graph, root: string, node: string) {
    exists path :: Walk(graph, path) && path[0] == root && path[|path| - 1] == node
  }

  /** A forbidden package can be reached. */
  ghost predicate Violated(graph: Graph, root: string, forbidden: string -> bool) {
    exists node :: Reachable(graph, root, node) && forbidden(node)
  }

  lemma OneEdge(graph: Graph, root: string, node: string)
    requires Edge(graph, root, node)
    ensures Reachable(graph, root, node)
  {
    assert Walk(graph, [root, node]);
  }

  lemma Extended(graph: Graph, root: string, via: string, node: string)
    requires Reachable(graph, root, via) && Edge(graph, via, node)
    ensures Reachable(graph, root, node)
  {
    var path :| Walk(graph, path) && path[0] == root && path[|path| - 1] == via;
    var longer := path + [node];
    forall k | 0 <= k < |longer| - 1 ensures Edge(graph, longer[k], longer[k + 1]) {
      if k < |path| - 1 { assert Edge(graph, path[k], path[k + 1]); }
    }
    assert Walk(graph, longer);
  }

  /** A set closed under edges that holds the root's successors holds everything reachable. */
  lemma {:induction false} WalkStays(graph: Graph, closed: set<string>, path: seq<string>)
    requires Walk(graph, path) && path[1] in closed
    requires forall a, b | a in closed && Edge(graph, a, b) :: b in closed
    ensures path[|path| - 1] in closed
    decreases |path|
  {
    if |path| <= 2 {
    } else {
      var tail := path[1..];
      assert Edge(graph, path[1], path[2]);
      forall k | 0 <= k < |tail| - 1 ensures Edge(graph, tail[k], tail[k + 1]) {
        assert Edge(graph, path[k + 1], path[k + 2]);
      }
      WalkStays(graph, closed, tail);
    }
  }

  // ----- the search -----

  function Targets(graph: Graph): set<string> { set a, b | a in graph && b in graph[a] :: b }

  /** What the search may still find lies ahead of `pending`. */
  ghost predicate Frontier(graph: Graph, root: string, visited: set<string>, pending: seq<string>) {
    && (forall b | Edge(graph, root, b) :: b in visited || b in pending)
    && (forall a, b | a in visited && Edge(graph, a, b) :: b in visited || b in pending)
  }

  ghost predicate Sound(graph: Graph, root: string, visited: set<string>, pending: seq<string>) {
    && (forall b | b in visited || b in pending :: Reachable(graph, root, b))
    && visited <= Targets(graph)
  }

  lemma ReachableIsTarget(graph: Graph, root: string, node: string)
    requires Reachable(graph, root, node)
    ensures node in Targets(graph)
  {
    var path :| Walk(graph, path) && path[0] == root && path[|path| - 1] == node;
    assert Edge(graph, path[|path| - 2], path[|path| - 2 + 1]);
  }

  function Successors(graph: Graph, a: string): seq<string> { if a in graph then graph[a] else [] }

  lemma PoppedAgain(graph: Graph, root: string, visited: set<string>, rest: seq<string>, candidate: string)
    requires Frontier(graph, root, visited, rest + [candidate]) && Sound(graph, root, visited, rest + [candidate])
    requires candidate in visited
    ensures Frontier(graph, root, visited, rest) && Sound(graph, root, visited, rest)
  {
    forall b | b in visited || b in rest ensures Reachable(graph, root, b) {
        assert b in visited || b in rest + [candidate]; }
  }

  lemma PoppedNew(graph: Graph, root: string, visited: set<string>, rest: seq<string>, candidate: string)
    requires Frontier(graph, root, visited, rest + [candidate]) && Sound(graph, root, visited, rest + [candidate])
    ensures var next := rest + Successors(graph, candidate);
      Frontier(graph, root, visited + {candidate}, next) && Sound(graph, root, visited + {candidate}, next)
    ensures candidate in Targets(graph) && Reachable(graph, root, candidate)
  {
    assert candidate in rest + [candidate];
    ReachableIsTarget(graph, root, candidate);
    var next := rest + Successors(graph, candidate);
    forall b | b in visited + {candidate} || b in next ensures Reachable(graph, root, b) {
      if b in Successors(graph, candidate) {
        Extended(graph, root, candidate, b);
      } else {
        assert b in visited || b in rest + [candidate];
      }
    }
  }

  /** Both invariants survive dropping a visited candidate, and visiting a new one. */
  lemma Popped(graph: Graph, root: string, visited: set<string>, pending: seq<string>)
    requires pending != [] && Frontier(graph, root, visited, pending) && Sound(graph, root, visited, pending)
    ensures var candidate, rest := pending[|pending| - 1], pending[..|pending| - 1];
      && Reachable(graph, root, candidate)
      && (candidate in visited ==> Frontier(graph, root, visited, rest) && Sound(graph, root, visited, rest))
      && (candidate !in visited ==>
            var next := rest + Successors(graph, candidate);
            && Frontier(graph, root, visited + {candidate}, next)
            && Sound(graph, root, visited + {candidate}, next)
            && |Targets(graph) - (visited + {candidate})| < |Targets(graph) - visited|)
  {
    var candidate, rest := pending[|pending| - 1], pending[..|pending| - 1];
    assert pending == rest + [candidate];
    PoppedNew(graph, root, visited, rest, candidate);
    if candidate in visited {
      PoppedAgain(graph, root, visited, rest, candidate);
    } else {
      Fewer(Targets(graph), visited, candidate);
    }
  }

  lemma Fewer(all: set<string>, visited: set<string>, candidate: string)
    requires candidate in all && candidate !in visited
    ensures |all - (visited + {candidate})| < |all - visited|
  {
    assert all - visited == (all - (visited + {candidate})) + {candidate};
  }

  /** Finds a forbidden package exactly when one is reachable, whatever cycles the graph has. */
  method RejectReachable(root: string, graph: Graph, forbidden: string -> bool) returns (offender: Option<string>)
    ensures offender.None? <==> !Violated(graph, root, forbidden)
    ensures offender.Some? ==> Reachable(graph, root, offender.value) && forbidden(offender.value)
  {
    var pending := if root in graph then graph[root] else [];
    var visited: set<string> := {};
    forall b | b in pending ensures Reachable(graph, root, b) { OneEdge(graph, root, b); }
    while pending != []
      invariant Frontier(graph, root, visited, pending)
      invariant Sound(graph, root, visited, pending)
      invariant forall b | b in visited :: !forbidden(b)
      decreases |Targets(graph) - visited|, |pending|
    {
      var candidate := pending[|pending| - 1];
      Popped(graph, root, visited, pending);
      pending := pending[..|pending| - 1];
      if candidate in visited { continue; }
      visited := visited + {candidate};
      if forbidden(candidate) { return Some(candidate); }
      if candidate in graph { pending := pending + graph[candidate]; }
    }
    Exhausted(graph, root, visited);
    return None;
  }

  lemma Exhausted(graph: Graph, root: string, visited: set<string>)
    requires Frontier(graph, root, visited, [])
    ensures forall node | Reachable(graph, root, node) :: node in visited
  {
    forall node | Reachable(graph, root, node) ensures node in visited {
      var path :| Walk(graph, path) && path[0] == root && path[|path| - 1] == node;
      assert Edge(graph, path[0], path[0 + 1]);
      WalkStays(graph, visited, path);
    }
  }

  // ----- more edges, more violations -----

  ghost predicate Extends(graph: Graph, larger: Graph) {
    forall a, b | Edge(graph, a, b) :: Edge(larger, a, b)
  }

  lemma Monotone(graph: Graph, larger: Graph, root: string, forbidden: string -> bool)
    requires Extends(graph, larger) && Violated(graph, root, forbidden)
    ensures Violated(larger, root, forbidden)
  {
    var node :| Reachable(graph, root, node) && forbidden(node);
    var path :| Walk(graph, path) && path[0] == root && path[|path| - 1] == node;
    assert Walk(larger, path);
    assert Reachable(larger, root, node);
  }

  // ----- the workspace graph -----

  lemma {:induction false} LocalExact(packages: Packages, dependencies: seq<Dependency>, name: string)
    ensures name in Local(packages, dependencies) <==>
      name in packages && exists d | d in dependencies :: d.name == name && d.path.Some?
  {
    if dependencies == [] {
    } else {
      LocalExact(packages, dependencies[1..], name);
      assert forall d | d in dependencies :: d == dependencies[0] || d in dependencies[1..];
    }
  }

  /** Registry dependencies and packages outside the workspace are never followed. */
  lemma WorkspaceOnly(packages: Packages, root: string, node: string)
    requires Reachable(WorkspaceGraph(packages), root, node)
    ensures node in packages
  {
    var graph := WorkspaceGraph(packages);
    var path :| Walk(graph, path) && path[0] == root && path[|path| - 1] == node;
    var last := path[|path| - 2];
    assert Edge(graph, last, path[|path| - 2 + 1]);
    LocalExact(packages, packages[last], node);
  }

  /** Every package keeps its dependencies, and some may gain more. */
  ghost predicate Gains(packages: Packages, larger: Packages) {
    forall name | name in packages :: name in larger && forall d | d in packages[name] :: d in larger[name]
  }

  /** Adding packages or dependencies never repairs a violated rule. */
  lemma DependenciesOnlyAdd(packages: Packages, larger: Packages, root: string, forbidden: string -> bool)
    requires Gains(packages, larger) && Violated(WorkspaceGraph(packages), root, forbidden)
    ensures Violated(WorkspaceGraph(larger), root, forbidden)
  {
    var g, h := WorkspaceGraph(packages), WorkspaceGraph(larger);
    forall a, b | Edge(g, a, b) ensures Edge(h, a, b) {
      LocalExact(packages, packages[a], b);
      LocalExact(larger, larger[a], b);
    }
    Monotone(g, h, root, forbidden);
  }
}
