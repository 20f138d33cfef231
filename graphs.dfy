// The part of networkx the grid world relies on: an undirected graph and an
// unweighted shortest-path query. The search is written out as a breadth-first
// search that expands the graph one distance level at a time.

module Graphs {
  import opened Utils

  /** A graph as a node set and an edge set; an undirected edge is kept in
      both orientations. */
  datatype Graph<T> = Graph(nodes: set<T>, edges: set<(T, T)>)

  /** Every edge joins two nodes of the graph. */
  ghost predicate WellFormed<T>(g: Graph<T>) {
    forall e | e in g.edges :: e.0 in g.nodes && e.1 in g.nodes
  }

  /** A non-empty sequence of nodes each joined to the next by an edge. */
  ghost predicate Walk<T>(g: Graph<T>, p: seq<T>) {
    |p| > 0 && forall i | 0 <= i < |p| - 1 :: (p[i], p[i + 1]) in g.edges
  }

  /** A walk that starts at s and ends at t. */
  ghost predicate WalkFrom<T>(g: Graph<T>, p: seq<T>, s: T, t: T) {
    Walk(g, p) && p[0] == s && p[|p| - 1] == t
  }

  lemma WalkPrefix<T>(g: Graph<T>, q: seq<T>, k: nat)
    requires Walk(g, q) && 1 <= k <= |q|
    ensures Walk(g, q[..k])
  {
    forall i | 0 <= i < k - 1
      ensures (q[..k][i], q[..k][i + 1]) in g.edges
    {
      assert q[..k][i] == q[i] && q[..k][i + 1] == q[i + 1];
    }
  }

  lemma WalkExtend<T>(g: Graph<T>, p: seq<T>, v: T)
    requires Walk(g, p) && (p[|p| - 1], v) in g.edges
    ensures Walk(g, p + [v])
  {
    var q := p + [v];
    forall i | 0 <= i < |q| - 1
      ensures (q[i], q[i + 1]) in g.edges
    {
      if i < |p| - 1 {
        assert q[i] == p[i] && q[i + 1] == p[i + 1];
      }
    }
  }

  /** A walk that starts inside a node set closed under edges never leaves it. */
  lemma {:induction false} ClosedWalk<T>(g: Graph<T>, R: set<T>, q: seq<T>)
    requires Walk(g, q) && q[0] in R
    requires forall u, v | u in R && (u, v) in g.edges :: v in R
    ensures q[|q| - 1] in R
    decreases |q|
  {
    if |q| > 1 {
      WalkPrefix(g, q, |q| - 1);
      ClosedWalk(g, R, q[..|q| - 1]);
      assert (q[|q| - 2], q[|q| - 1]) in g.edges;
    }
  }

  /** v has no edge to another node. */
  ghost predicate Isolated<T(!new)>(g: Graph<T>, v: T) {
    forall n | (v, n) in g.edges :: n == v
  }

  /** A node has no neighbour exactly when every walk from it stays on it,
      that is, when the paths networkx finds from it reach it alone. */
  lemma IsolatedAlone<T(!new)>(g: Graph<T>, v: T)
    ensures Isolated(g, v) <==> forall p, t | WalkFrom(g, p, v, t) :: t == v
  {
    if Isolated(g, v) {
      forall p, t | WalkFrom(g, p, v, t)
        ensures t == v
      {
        ClosedWalk(g, {v}, p);
      }
    } else {
      var n :| (v, n) in g.edges && n != v;
      assert WalkFrom(g, [v, n], v, n);
    }
  }

  /** Every node of route carries a walk from s with at most n nodes. */
  ghost predicate Routed<T>(g: Graph<T>, s: T, route: map<T, seq<T>>, n: nat) {
    forall v | v in route :: WalkFrom(g, route[v], s, v) && |route[v]| <= n
  }

  /** Every walk from s with at most n nodes ends at a node of route. */
  ghost predicate Covers<T(!new)>(g: Graph<T>, s: T, route: map<T, seq<T>>, n: nat) {
    forall q | Walk(g, q) && q[0] == s && |q| <= n :: q[|q| - 1] in route
  }

  /** No walk from s reaches a node of route with fewer nodes than its route. */
  ghost predicate Shortest<T(!new)>(g: Graph<T>, s: T, route: map<T, seq<T>>) {
    forall q | Walk(g, q) && q[0] == s && q[|q| - 1] in route :: |route[q[|q| - 1]]| <= |q|
  }

  /** One level of the search: adding every unvisited neighbour of the
      frontier, each with a walk of d + 2 nodes, keeps the routes shortest and
      covers every walk one node longer. */
  lemma Expand<T(!new)>(g: Graph<T>, s: T, route: map<T, seq<T>>, frontier: set<T>,
                  next: map<T, seq<T>>, d: nat)
    requires Routed(g, s, route, d + 1) && Covers(g, s, route, d + 1) && Shortest(g, s, route)
    requires frontier <= route.Keys
    requires forall v | v in route && v !in frontier :: |route[v]| <= d
    requires next.Keys !! route.Keys
    requires forall v | v in next :: WalkFrom(g, next[v], s, v) && |next[v]| == d + 2
    requires forall u, v | u in frontier && (u, v) in g.edges :: v in route || v in next
    ensures Routed(g, s, route + next, d + 2)
    ensures Covers(g, s, route + next, d + 2)
    ensures Shortest(g, s, route + next)
  {
    var after := route + next;
    forall q | Walk(g, q) && q[0] == s && |q| <= d + 2
      ensures q[|q| - 1] in after
    {
      if |q| == d + 2 {
        WalkPrefix(g, q, d + 1);
        assert q[..d + 1][d] == q[d];
        var w := q[d];
        assert w in route;
        assert (w, q[d + 1]) in g.edges;
        if w !in frontier {
          WalkExtend(g, route[w], q[d + 1]);
        }
      }
    }
    forall q | Walk(g, q) && q[0] == s && q[|q| - 1] in after
      ensures |after[q[|q| - 1]]| <= |q|
    {
      var v := q[|q| - 1];
      if v in next {
        assert v !in route;
      }
    }
  }

  /** The next level of the search: every unvisited neighbour of the
      frontier, each with the route of one of its frontier neighbours
      extended by one node. */
  method NextLevel<T(==)>(g: Graph<T>, s: T, route: map<T, seq<T>>, frontier: set<T>, ghost d: nat)
    returns (next: map<T, seq<T>>)
    requires WellFormed(g)
    requires frontier <= route.Keys
    requires forall v | v in frontier :: WalkFrom(g, route[v], s, v) && |route[v]| == d + 1
    ensures next.Keys <= g.nodes && next.Keys !! route.Keys
    ensures forall v | v in next :: WalkFrom(g, next[v], s, v) && |next[v]| == d + 2
    ensures forall u, v | u in frontier && (u, v) in g.edges :: v in route || v in next
  {
    next := map[];
    var todo := frontier;
    while todo != {}
      invariant todo <= frontier
      invariant next.Keys <= g.nodes && next.Keys !! route.Keys
      invariant forall v | v in next :: WalkFrom(g, next[v], s, v) && |next[v]| == d + 2
      invariant forall u, v | u in frontier - todo && (u, v) in g.edges :: v in route || v in next
      decreases |todo|
    {
      var u :| u in todo;
      var reached := set e | e in g.edges && e.0 == u && e.1 !in route :: e.1;
      forall v | v in reached
        ensures WalkFrom(g, route[u] + [v], s, v)
      {
        WalkExtend(g, route[u], v);
      }
      forall v | (u, v) in g.edges && v !in route
        ensures v in reached
      {
        var e := (u, v);
        assert e in g.edges && e.0 == u && e.1 !in route;
      }
      next := next + map v | v in reached :: route[u] + [v];
      todo := todo - {u};
    }
  }

  /** When the search stops without reaching t, the visited nodes are closed
      under edges, so no walk from s reaches t. */
  lemma Unreachable<T(!new)>(g: Graph<T>, s: T, t: T, route: map<T, seq<T>>, d: nat)
    requires s in route && t !in route
    requires Routed(g, s, route, d) && Covers(g, s, route, d + 1)
    ensures forall q :: !WalkFrom(g, q, s, t)
  {
    forall u, v | u in route && (u, v) in g.edges
      ensures v in route
    {
      WalkExtend(g, route[u], v);
    }
    forall q | WalkFrom(g, q, s, t)
      ensures false
    {
      ClosedWalk(g, route.Keys, q);
    }
  }

  /** The loop invariant of the search at level d: routes are walks from s of
      at most d + 1 nodes, they are shortest, they cover every node within
      d + 1 nodes of s, and the frontier holds the nodes at distance d. */
  ghost predicate Searching<T(!new)>(g: Graph<T>, s: T, route: map<T, seq<T>>, frontier: set<T>, d: nat) {
    && route.Keys <= g.nodes && s in route
    && Routed(g, s, route, d + 1) && Covers(g, s, route, d + 1) && Shortest(g, s, route)
    && frontier <= route.Keys
    && (forall v | v in frontier :: |route[v]| == d + 1)
    && (forall v | v in route && v !in frontier :: |route[v]| <= d)
  }

  /** Moving to the next level keeps the invariant and either visits a new
      node or empties the frontier. */
  lemma Advance<T(!new)>(g: Graph<T>, s: T, route: map<T, seq<T>>, frontier: set<T>,
                         next: map<T, seq<T>>, d: nat)
    requires Searching(g, s, route, frontier, d)
    requires next.Keys <= g.nodes && next.Keys !! route.Keys
    requires forall v | v in next :: WalkFrom(g, next[v], s, v) && |next[v]| == d + 2
    requires forall u, v | u in frontier && (u, v) in g.edges :: v in route || v in next
    ensures Searching(g, s, route + next, next.Keys, d + 1)
    ensures next == map[] ==> route + next == route
    ensures next != map[] ==> |g.nodes - (route + next).Keys| < |g.nodes - route.Keys|
  {
    Expand(g, s, route, frontier, next, d);
    if next != map[] {
      var v :| v in next;
      assert v in g.nodes - route.Keys;
      assert g.nodes - (route + next).Keys < g.nodes - route.Keys;
    }
  }

  /** nx.shortest_path(g, s, t): a walk from s to t with as few nodes as any
      other, None when t cannot be reached, and an error when s or t is not a
      node. */
  method ShortestPath<T(==,!new)>(g: Graph<T>, s: T, t: T) returns (r: Result<Option<seq<T>>>)
    requires WellFormed(g)
    ensures r.Err? <==> s !in g.nodes || t !in g.nodes
    ensures r.Err? ==> r.error == NodeNotFound
    ensures r.Ok? && r.value.Some? ==>
      WalkFrom(g, r.value.value, s, t) &&
      forall q | WalkFrom(g, q, s, t) :: |r.value.value| <= |q|
    ensures r.Ok? && r.value.None? ==> forall q :: !WalkFrom(g, q, s, t)
  {
    if s !in g.nodes || t !in g.nodes {
      return Err(NodeNotFound);
    }
    // route[v] is a shortest walk from s to v; frontier holds the nodes whose
    // distance is exactly the current level d.
    var route: map<T, seq<T>> := map[s := [s]];
    var frontier: set<T> := {s};
    ghost var d: nat := 0;
    while frontier != {} && t !in route
      invariant Searching(g, s, route, frontier, d)
      decreases |g.nodes - route.Keys|, |frontier|
    {
      var next := NextLevel(g, s, route, frontier, d);
      Advance(g, s, route, frontier, next, d);
      route, frontier, d := route + next, next.Keys, d + 1;
    }
    if t in route {
      assert Routed(g, s, route, d + 1) && Shortest(g, s, route);
      return Ok(Some(route[t]));
    }
    Unreachable(g, s, t, route, d);
    return Ok(None);
  }
}
