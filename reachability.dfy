// make_reachability_graph: the graph the agent plans on. The source visits the
// cells column by column and, for each of DOWN, UP, LEFT and RIGHT, adds an
// edge when the action is valid and the neighbour is ALREADY a node. Only the
// neighbours above and to the left have been visited by then, so an edge
// between two adjacent cells exists exactly when the upper or left one of the
// two is an open square; the state of the lower or right cell, Blocked or not,
// plays no part.

module Reachability {
  import opened Utils
  import opened Elements
  import opened Grids
  import opened Graphs

  /** add_edge on an undirected graph */
  function AddEdge(g: Graph<Vec>, a: Vec, b: Vec): Graph<Vec> {
    Graph(g.nodes, g.edges + {(a, b), (b, a)})
  }

  /** One pass of the inner loop. */
  function TryMove(w: Grid, g: Graph<Vec>, l: Vec, action: Vec): Result<Graph<Vec>> {
    match w.IsValidAction(l, action)
    case Err(e) => Err(e)
    case Ok(valid) =>
      var next := w.GetNewLocation(l, action);
      Ok(if valid && next in g.nodes then AddEdge(g, l, next) else g)
  }

  /** A pass of the inner loop after the earlier ones, unless they raised. */
  function Then(r: Result<Graph<Vec>>, w: Grid, l: Vec, action: Vec): Result<Graph<Vec>> {
    match r
    case Err(e) => Err(e)
    case Ok(g) => TryMove(w, g, l, action)
  }

  /** The inner loop after the given actions. */
  function TryMoves(w: Grid, g: Graph<Vec>, l: Vec, actions: seq<Vec>): Result<Graph<Vec>>
    decreases |actions|
  {
    if actions == [] then Ok(g)
    else Then(TryMoves(w, g, l, actions[..|actions| - 1]), w, l, actions[|actions| - 1])
  }

  lemma TryMovesUnrolled(w: Grid, g: Graph<Vec>, l: Vec)
    ensures TryMoves(w, g, l, MOVES) ==
      Then(Then(Then(TryMove(w, g, l, DOWN), w, l, UP), w, l, LEFT), w, l, RIGHT)
  {
    assert [DOWN][..0] == [];
    assert TryMoves(w, g, l, [DOWN]) == TryMove(w, g, l, DOWN);
    assert [DOWN, UP][..1] == [DOWN];
    assert TryMoves(w, g, l, [DOWN, UP]) == Then(TryMove(w, g, l, DOWN), w, l, UP);
    assert [DOWN, UP, LEFT][..2] == [DOWN, UP];
    assert TryMoves(w, g, l, [DOWN, UP, LEFT]) == Then(Then(TryMove(w, g, l, DOWN), w, l, UP), w, l, LEFT);
    assert MOVES[..3] == [DOWN, UP, LEFT];
  }

  /** TryMoves unrolled by one action. */
  lemma TryMovesNext(w: Grid, g: Graph<Vec>, l: Vec, actions: seq<Vec>, j: nat)
    requires j < |actions|
    ensures TryMoves(w, g, l, actions[..j + 1]) == Then(TryMoves(w, g, l, actions[..j]), w, l, actions[j])
  {
    assert actions[..j + 1][..j] == actions[..j];
  }

  /** The outer loop after the given locations. */
  function Build(w: Grid, locs: seq<Vec>): Result<Graph<Vec>>
    decreases |locs|
  {
    if locs == [] then Ok(Graph({}, {}))
    else match Build(w, locs[..|locs| - 1])
      case Err(e) => Err(e)
      case Ok(g) =>
        var l := locs[|locs| - 1];
        TryMoves(w, Graph(g.nodes + {l}, g.edges), l, MOVES)
  }

  /** Build unrolled by one location, for a prefix that did not raise. */
  lemma BuildNext(w: Grid, locs: seq<Vec>, i: nat, g: Graph<Vec>)
    requires i < |locs| && Build(w, locs[..i]) == Ok(g)
    ensures Build(w, locs[..i + 1]) == TryMoves(w, Graph(g.nodes + {locs[i]}, g.edges), locs[i], MOVES)
  {
    assert locs[..i + 1][..i] == locs[..i];
  }

  /** The graph make_reachability_graph leaves in reachability_graph, or the
      error it raises. */
  function ReachabilityGraph(w: Grid): Result<Graph<Vec>> {
    Build(w, w.AllLocations())
  }

  /** The edge relation stated on the grid: two cells one step apart, the
      upper or left of which is an open square. */
  ghost predicate Joined(w: Grid, a: Vec, b: Vec) {
    && w.Contains(a) && w.Contains(b)
    && (|| ((b == a.Plus(UP) || b == a.Plus(LEFT)) && w.Open(b))
        || ((a == b.Plus(UP) || a == b.Plus(LEFT)) && w.Open(a)))
  }

  /** The open cells of the grid. */
  ghost function OpenCells(w: Grid): set<Vec> {
    set n | n in w.AllLocations() && w.Open(n)
  }

  /** Joined, with the open cells given as a set. */
  ghost predicate Joins(w: Grid, open: set<Vec>, a: Vec, b: Vec) {
    && w.Contains(a) && w.Contains(b)
    && (|| ((b == a.Plus(UP) || b == a.Plus(LEFT)) && b in open)
        || ((a == b.Plus(UP) || a == b.Plus(LEFT)) && a in open))
  }

  /** Joins over the open cells is Joined. */
  lemma JoinsOpen(w: Grid, a: Vec, b: Vec)
    ensures Joins(w, OpenCells(w), a, b) <==> Joined(w, a, b)
  {
    if w.Contains(a) && w.Contains(b) {
      assert a in w.AllLocations() && b in w.AllLocations();
    }
  }

  /** The edges to l's neighbour one step along a, when that neighbour is an
      open cell of the grid that is already a node. */
  ghost function EdgesTo(w: Grid, open: set<Vec>, nodes: set<Vec>, l: Vec, a: Vec): set<(Vec, Vec)> {
    var n := l.Plus(a);
    if w.Contains(n) && n in nodes && n in open then {(l, n), (n, l)} else {}
  }

  /** The effect of one inner-loop pass from an in-bounds cell. */
  lemma TryMoveEffect(w: Grid, g: Graph<Vec>, l: Vec, a: Vec)
    requires w.Contains(l) && IsUnitStep(a)
    requires TryMove(w, g, l, a).Ok?
    ensures TryMove(w, g, l, a).value == Graph(g.nodes, g.edges + EdgesTo(w, OpenCells(w), g.nodes, l, a))
  {
    var n := l.Plus(a);
    var next := w.GetNewLocation(l, a);
    assert a != STAY;
    if !w.Contains(n) {
      assert next == l;
      assert TryMove(w, g, l, a) == Ok(g);
      assert EdgesTo(w, OpenCells(w), g.nodes, l, a) == {};
    } else {
      assert next == n && n != l;
      assert n in w.AllLocations();
      assert n in OpenCells(w) <==> w.Open(n);
      assert w.IsValidAction(l, a) == Ok(w.Open(n));
    }
  }

  /** Visiting cell l after every cell before it adds exactly the edges to its
      open upper and left neighbours. */
  lemma VisitEffect(w: Grid, g: Graph<Vec>, l: Vec)
    requires w.Contains(l) && l in g.nodes
    requires forall n | n in g.nodes && n != l :: XMajorBefore(n, l)
    requires forall n | w.Contains(n) && XMajorBefore(n, l) :: n in g.nodes
    requires TryMoves(w, g, l, MOVES).Ok?
    ensures TryMoves(w, g, l, MOVES).value ==
      Graph(g.nodes, g.edges + EdgesTo(w, OpenCells(w), g.nodes, l, UP) + EdgesTo(w, OpenCells(w), g.nodes, l, LEFT))
  {
    TryMovesUnrolled(w, g, l);
    TryMoveEffect(w, g, l, DOWN);
    var g1 := TryMove(w, g, l, DOWN).value;
    TryMoveEffect(w, g1, l, UP);
    var g2 := TryMove(w, g1, l, UP).value;
    TryMoveEffect(w, g2, l, LEFT);
    var g3 := TryMove(w, g2, l, LEFT).value;
    TryMoveEffect(w, g3, l, RIGHT);
    assert !XMajorBefore(l.Plus(DOWN), l) && !XMajorBefore(l.Plus(RIGHT), l);
    assert EdgesTo(w, OpenCells(w), g.nodes, l, DOWN) == {};
    assert EdgesTo(w, OpenCells(w), g.nodes, l, RIGHT) == {};
  }

  /** Adding the edges from l to its open upper and left neighbours among
      the cells before it extends Joined from those cells to them and l. */
  lemma JoinedStep(w: Grid, open: set<Vec>, nodes: set<Vec>, edges: set<(Vec, Vec)>, l: Vec)
    requires w.Contains(l) && l !in nodes
    requires forall n | n in nodes :: w.Contains(n) && XMajorBefore(n, l)
    requires forall n | w.Contains(n) && XMajorBefore(n, l) :: n in nodes
    requires forall a, b :: (a, b) in edges <==> a in nodes && b in nodes && Joins(w, open, a, b)
    ensures var nodes' := nodes + {l};
      var edges' := edges + EdgesTo(w, open, nodes', l, UP) + EdgesTo(w, open, nodes', l, LEFT);
      forall a, b :: (a, b) in edges' <==> a in nodes' && b in nodes' && Joins(w, open, a, b)
  {
    var nodes' := nodes + {l};
    var edges' := edges + EdgesTo(w, open, nodes', l, UP) + EdgesTo(w, open, nodes', l, LEFT);
    forall a, b | a in nodes' && b in nodes' && Joins(w, open, a, b)
      ensures (a, b) in edges'
    {
      if a == l && b != l {
        assert XMajorBefore(b, l);
      } else if b == l && a != l {
        assert XMajorBefore(a, l);
      }
    }
  }

  /** The cells before the k-th one of get_all_locations are exactly the
      cells of the grid that come before it in column order. */
  lemma PrefixOrder(w: Grid, k: nat)
    requires 0 < k <= |w.AllLocations()|
    ensures var locs := w.AllLocations();
      forall n :: n in locs[..k - 1] <==> w.Contains(n) && XMajorBefore(n, locs[k - 1])
  {
    var locs := w.AllLocations();
    var l := locs[k - 1];
    w.AllLocationsSorted();
    forall n | n in locs[..k - 1]
      ensures w.Contains(n) && XMajorBefore(n, l)
    {
      var j :| 0 <= j < k - 1 && locs[..k - 1][j] == n;
      assert locs[j] == n;
    }
    forall n | w.Contains(n) && XMajorBefore(n, l)
      ensures n in locs[..k - 1]
    {
      assert n in locs;
      var j :| 0 <= j < |locs| && locs[j] == n;
      assert j < k - 1;
      assert locs[..k - 1][j] == n;
    }
  }

  /** Visiting one more cell, given the nodes visited before it in column
      order and the Joins edges among them, adds the cell and its Joins
      edges to those nodes. */
  lemma BuildStep(w: Grid, g: Graph<Vec>, l: Vec)
    requires w.Contains(l) && l !in g.nodes
    requires forall n :: n in g.nodes <==> w.Contains(n) && XMajorBefore(n, l)
    requires forall a, b :: (a, b) in g.edges <==> a in g.nodes && b in g.nodes && Joins(w, OpenCells(w), a, b)
    requires TryMoves(w, Graph(g.nodes + {l}, g.edges), l, MOVES).Ok?
    ensures var g' := TryMoves(w, Graph(g.nodes + {l}, g.edges), l, MOVES).value;
      && g'.nodes == g.nodes + {l}
      && forall a, b :: (a, b) in g'.edges <==> a in g'.nodes && b in g'.nodes && Joins(w, OpenCells(w), a, b)
  {
    VisitEffect(w, Graph(g.nodes + {l}, g.edges), l);
    JoinedStep(w, OpenCells(w), g.nodes, g.edges, l);
  }

  /** After the cells of pre, unless it raised, the nodes are those cells and
      the edges are the Joins pairs among them. */
  ghost predicate Built(w: Grid, pre: seq<Vec>) {
    Build(w, pre).Ok? ==>
      && (forall n :: n in Build(w, pre).value.nodes <==> n in pre)
      && (forall a, b :: (a, b) in Build(w, pre).value.edges <==>
            a in Build(w, pre).value.nodes && b in Build(w, pre).value.nodes && Joins(w, OpenCells(w), a, b))
  }

  /** Build unrolled once: the last cell is visited on the graph of the
      cells before it. */
  lemma BuildLast(w: Grid, pre: seq<Vec>)
    requires pre != [] && Build(w, pre).Ok?
    ensures var init := pre[..|pre| - 1]; var l := pre[|pre| - 1];
      && Build(w, init).Ok?
      && Build(w, pre) == TryMoves(w, Graph(Build(w, init).value.nodes + {l}, Build(w, init).value.edges), l, MOVES)
  {
  }

  /** Membership in a prefix one longer. */
  lemma PrefixMembers(s: seq<Vec>, k: nat)
    requires 0 < k <= |s|
    ensures forall n :: n in s[..k] <==> n in s[..k - 1] || n == s[k - 1]
  {
    forall n ensures n in s[..k] <==> n in s[..k - 1] || n == s[k - 1] {
      if n in s[..k] {
        var j :| 0 <= j < k && s[..k][j] == n;
        if j < k - 1 {
          assert s[..k - 1][j] == n;
        }
      }
    }
  }

  /** Visiting cell l after the cells of init, on a graph that is Built for
      init, gives a graph that is Built for pre, the cells of init and l. */
  lemma StepBuilt(w: Grid, init: seq<Vec>, pre: seq<Vec>, g: Graph<Vec>, l: Vec)
    requires w.Contains(l)
    requires forall n :: n in pre <==> n in init || n == l
    requires forall n :: n in init <==> w.Contains(n) && XMajorBefore(n, l)
    requires forall n :: n in g.nodes <==> n in init
    requires forall a, b :: (a, b) in g.edges <==> a in g.nodes && b in g.nodes && Joins(w, OpenCells(w), a, b)
    requires TryMoves(w, Graph(g.nodes + {l}, g.edges), l, MOVES).Ok?
    ensures var g' := TryMoves(w, Graph(g.nodes + {l}, g.edges), l, MOVES).value;
      && (forall n :: n in g'.nodes <==> n in pre)
      && forall a, b :: (a, b) in g'.edges <==> a in g'.nodes && b in g'.nodes && Joins(w, OpenCells(w), a, b)
  {
    assert l !in g.nodes;
    BuildStep(w, g, l);
  }

  /** Visiting the k-th cell of get_all_locations keeps Built. */
  lemma PrefixStep(w: Grid, k: nat)
    requires 0 < k <= |w.AllLocations()|
    requires Built(w, w.AllLocations()[..k - 1])
    ensures Built(w, w.AllLocations()[..k])
  {
    var locs := w.AllLocations();
    var pre := locs[..k];
    if Build(w, pre).Ok? {
      var init := locs[..k - 1];
      var l := locs[k - 1];
      assert pre[..k - 1] == init && pre[k - 1] == l;
      BuildLast(w, pre);
      PrefixOrder(w, k);
      PrefixMembers(locs, k);
      StepBuilt(w, init, pre, Build(w, init).value, l);
    }
  }

  /** After the first k cells of get_all_locations, the graph is Built. */
  lemma {:induction false} BuildPrefix(w: Grid, k: nat)
    requires k <= |w.AllLocations()|
    ensures Built(w, w.AllLocations()[..k])
  {
    if k > 0 {
      BuildPrefix(w, k - 1);
      PrefixStep(w, k);
    } else {
      assert w.AllLocations()[..0] == [];
    }
  }

  /** The graph make_reachability_graph builds: its nodes are exactly the
      cells of the grid, and two cells are joined exactly when they are one
      step apart and the upper or left of the two is an open square. */
  lemma ReachabilityEdges(w: Grid)
    requires ReachabilityGraph(w).Ok?
    ensures var g := ReachabilityGraph(w).value;
      && (forall n :: n in g.nodes <==> w.Contains(n))
      && (forall a, b :: (a, b) in g.edges <==> Joined(w, a, b))
      && WellFormed(g)
  {
    var locs := w.AllLocations();
    BuildPrefix(w, |locs|);
    assert locs[..|locs|] == locs;
    var g := ReachabilityGraph(w).value;
    forall a, b
      ensures (a, b) in g.edges <==> Joined(w, a, b)
    {
      JoinsOpen(w, a, b);
    }
  }

  /** The graph is built without raising whenever every cell holds a square. */
  lemma {:induction false} BuildSucceeds(w: Grid, locs: seq<Vec>)
    requires forall l | l in locs :: w.Contains(l)
    requires forall l | w.Contains(l) :: w.GridsquareAt(l).Some?
    ensures Build(w, locs).Ok?
    decreases |locs|
  {
    if locs != [] {
      BuildSucceeds(w, locs[..|locs| - 1]);
      var g := Build(w, locs[..|locs| - 1]).value;
      var l := locs[|locs| - 1];
      assert l in locs;
      assert w.Contains(l);
      TryMovesRaise(w, Graph(g.nodes + {l}, g.edges), l, MOVES);
    }
  }

  /** When make_reachability_graph raises, it is because some cell of the
      grid holds no square. */
  lemma {:induction false} BuildFails(w: Grid, locs: seq<Vec>)
    requires forall l | l in locs :: w.Contains(l)
    requires Build(w, locs).Err?
    ensures Build(w, locs).error.NoSquare?
    ensures w.Contains(Build(w, locs).error.at) && w.GridsquareAt(Build(w, locs).error.at).None?
    decreases |locs|
  {
    var l := locs[|locs| - 1];
    assert l in locs;
    assert w.Contains(l);
    if Build(w, locs[..|locs| - 1]).Err? {
      BuildFails(w, locs[..|locs| - 1]);
    } else {
      var g := Build(w, locs[..|locs| - 1]).value;
      TryMovesRaise(w, Graph(g.nodes + {l}, g.edges), l, MOVES);
    }
  }

  /** From a cell of the grid, the inner loop raises only on a cell of the
      grid without a square, and not at all when every cell has one. */
  lemma {:induction false} TryMovesRaise(w: Grid, g: Graph<Vec>, l: Vec, actions: seq<Vec>)
    requires w.Contains(l)
    ensures TryMoves(w, g, l, actions).Err? ==>
      && TryMoves(w, g, l, actions).error.NoSquare?
      && w.Contains(TryMoves(w, g, l, actions).error.at)
      && w.GridsquareAt(TryMoves(w, g, l, actions).error.at).None?
    ensures (forall c | w.Contains(c) :: w.GridsquareAt(c).Some?) ==> TryMoves(w, g, l, actions).Ok?
    decreases |actions|
  {
    if actions != [] {
      var init := actions[..|actions| - 1];
      TryMovesRaise(w, g, l, init);
      assert w.Contains(w.GetNewLocation(l, actions[|actions| - 1]));
    }
  }

  /** make_reachability_graph raises only when some cell holds no
      square, and never when every cell holds one. */
  lemma ReachabilityGraphOk(w: Grid)
    ensures (forall l | w.Contains(l) :: w.GridsquareAt(l).Some?) ==> ReachabilityGraph(w).Ok?
    ensures ReachabilityGraph(w).Err? ==>
      ReachabilityGraph(w).error.NoSquare? &&
      w.Contains(ReachabilityGraph(w).error.at) &&
      w.GridsquareAt(ReachabilityGraph(w).error.at).None?
  {
    if forall l | w.Contains(l) :: w.GridsquareAt(l).Some? {
      BuildSucceeds(w, w.AllLocations());
    }
    if ReachabilityGraph(w).Err? {
      BuildFails(w, w.AllLocations());
    }
  }

  /** Once is_valid_action raises, the remaining actions are not tried. */
  lemma {:induction false} TryMovesStop(w: Grid, g: Graph<Vec>, l: Vec, actions: seq<Vec>, j: nat)
    requires j <= |actions| && TryMoves(w, g, l, actions[..j]).Err?
    ensures TryMoves(w, g, l, actions) == TryMoves(w, g, l, actions[..j])
    decreases |actions| - j
  {
    if j < |actions| {
      assert actions[..j + 1][..j] == actions[..j];
      TryMovesStop(w, g, l, actions, j + 1);
    } else {
      assert actions[..j] == actions;
    }
  }

  /** Once a cell raises, the remaining cells are not visited. */
  lemma {:induction false} BuildStop(w: Grid, locs: seq<Vec>, i: nat)
    requires i <= |locs| && Build(w, locs[..i]).Err?
    ensures Build(w, locs) == Build(w, locs[..i])
    decreases |locs| - i
  {
    if i < |locs| {
      assert locs[..i + 1][..i] == locs[..i];
      BuildStop(w, locs, i + 1);
    } else {
      assert locs[..i] == locs;
    }
  }

  /** One pass of the inner loop ignores which doors are open. */
  lemma ThenIgnoresDoors(w: int, h: int, a: seq<Element>, b: seq<Element>, r: Result<Graph<Vec>>, l: Vec, action: Vec)
    requires SameLayout(a, b)
    ensures Then(r, Grid(w, h, a), l, action) == Then(r, Grid(w, h, b), l, action)
  {
    ValidityIgnoresDoors(w, h, a, b, l, action);
  }

  /** The inner loop ignores which doors are open. */
  lemma {:induction false} TryMovesIgnoreDoors(w: int, h: int, a: seq<Element>, b: seq<Element>, g: Graph<Vec>,
                                               l: Vec, actions: seq<Vec>)
    requires SameLayout(a, b)
    ensures TryMoves(Grid(w, h, a), g, l, actions) == TryMoves(Grid(w, h, b), g, l, actions)
    decreases |actions|
  {
    if actions != [] {
      TryMovesIgnoreDoors(w, h, a, b, g, l, actions[..|actions| - 1]);
      ThenIgnoresDoors(w, h, a, b, TryMoves(Grid(w, h, a), g, l, actions[..|actions| - 1]), l, actions[|actions| - 1]);
    }
  }

  /** Opening or closing doors does not change the reachability graph, nor
      whether building it raises: the doors play no part in planning. */
  lemma {:induction false} BuildIgnoresDoors(w: int, h: int, a: seq<Element>, b: seq<Element>, locs: seq<Vec>)
    requires SameLayout(a, b)
    ensures Build(Grid(w, h, a), locs) == Build(Grid(w, h, b), locs)
    decreases |locs|
  {
    if locs != [] {
      BuildIgnoresDoors(w, h, a, b, locs[..|locs| - 1]);
      match Build(Grid(w, h, a), locs[..|locs| - 1])
      case Err(_) =>
      case Ok(g) =>
        var l := locs[|locs| - 1];
        TryMovesIgnoreDoors(w, h, a, b, Graph(g.nodes + {l}, g.edges), l, MOVES);
    }
  }

  /** Joined cells are one unit step apart, in either order. */
  lemma JoinedIsStep(w: Grid, a: Vec, b: Vec)
    requires Joined(w, a, b)
    ensures Joined(w, b, a)
    ensures IsUnitStep(b.Minus(a))
  {
  }
}
