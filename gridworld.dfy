// The GridWorld object: its size, time limit and door probability, the list of
// its elements, and the reachability graph it rebuilds before every
// shortest-path query. read_world and make_reachability_graph update the
// object's fields in loops; each is proved against the fold that specifies it
// (GridParse.ReadLines, Reachability.ReachabilityGraph).

module GridWorlds {
  import opened Utils
  import opened Elements
  import opened Grids
  import opened Graphs
  import opened Reachability
  import opened GridParse

  class GridWorld {
    var width: int
    var height: int
    const timeLimit: int
    const probDoor: real
    var objects: seq<Element>
    var reachabilityGraph: Graph<Vec>

    /** An empty world of size 0 x 0. */
    constructor (probDoor: real, timeLimit: int)
      ensures width == 0 && height == 0 && objects == []
      ensures this.probDoor == probDoor && this.timeLimit == timeLimit
      ensures reachabilityGraph == Graph({}, {})
    {
      width := 0;
      height := 0;
      this.timeLimit := timeLimit;
      this.probDoor := probDoor;
      objects := [];
      reachabilityGraph := Graph({}, {});
    }

    /** copy.deepcopy of a world: the elements are values, so a copy of the
        list is a deep copy. */
    constructor Copy(other: GridWorld)
      ensures width == other.width && height == other.height && objects == other.objects
      ensures timeLimit == other.timeLimit && probDoor == other.probDoor
      ensures reachabilityGraph == other.reachabilityGraph
    {
      width := other.width;
      height := other.height;
      timeLimit := other.timeLimit;
      probDoor := other.probDoor;
      objects := other.objects;
      reachabilityGraph := other.reachabilityGraph;
    }

    /** The queries' view of the world. */
    function Grid(): Grid
      reads this`width, this`height, this`objects
    {
      Grids.Grid(width, height, objects)
    }

    /** read_world over the lines of a grid file: the elements of the file
        are appended to the objects (those before an exception included), and
        the size is set only when no exception is raised. */
    method ReadWorld(lines: seq<string>) returns (r: Result<()>)
      modifies this`width, this`height, this`objects
      ensures var rd := ReadLines(probDoor, lines);
        && objects == old(objects) + rd.added
        && (rd.failed.None? ==> r.Ok? && width == rd.x / 2 + 1 && height == rd.y)
        && (rd.failed.Some? ==> r == Err(rd.failed.value) && width == old(width) && height == old(height))
    {
      var x := 0;
      var y := 0;
      var phase := 1;
      var doors: seq<bool> := [];
      var doorCount: nat := 0;
      var newobj: Option<Element> := None;
      ghost var added: seq<Element> := [];
      var i := 0;
      while i < |lines|
        invariant 0 <= i <= |lines|
        invariant objects == old(objects) + added
        invariant width == old(width) && height == old(height)
        invariant ReadLines(probDoor, lines[..i]) == Reader(phase, doors, doorCount, x, y, added, newobj, None)
      {
        var err; ghost var appended;
        err, phase, doors, doorCount, x, y, newobj, appended :=
          ReadOneLine(lines[i], phase, doors, doorCount, x, y, newobj, added, lines, i);
        added := added + appended;
        if err.Some? {
          ReadLinesStop(probDoor, lines, i + 1);
          return Err(err.value);
        }
        i := i + 1;
      }
      assert lines[..i] == lines;
      width := x / 2 + 1;
      height := y;
      return Ok(());
    }

    /** The body of the line loop of read_world, from its locals, which
        `before` holds; it appends to the objects and returns the locals,
        and the error if it raises. */
    method ReadOneLine(raw: string, phase: int, doors: seq<bool>, doorCount: nat, x: int, y: int,
                       newobj: Option<Element>, ghost added: seq<Element>, ghost lines: seq<string>, ghost i: nat)
      returns (err: Option<Error>, phase': int, doors': seq<bool>, doorCount': nat, x': int, y': int,
               newobj': Option<Element>, ghost appended: seq<Element>)
      requires i < |lines| && raw == lines[i]
      requires ReadLines(probDoor, lines[..i]) == Reader(phase, doors, doorCount, x, y, added, newobj, None)
      modifies this`objects
      ensures objects == old(objects) + appended
      ensures ReadLines(probDoor, lines[..i + 1]) ==
        Reader(phase', doors', doorCount', x', y', added + appended, newobj', err)
    {
      ReadLinesNext(probDoor, lines, i);
      ghost var before := Reader(phase, doors, doorCount, x, y, added, newobj, None);
      err, phase', doors', doorCount', x', y', newobj', appended := None, phase, doors, doorCount, x, y, newobj, [];
      var line := StripNewlines(raw);
      if line == "" {
        phase' := phase + 1;
      } else if phase == 1 {
        match DoorLine(line)
        case Err(e) =>
          err := Some(e);
        case Ok(open) =>
          doors' := doors + [open];
      } else if phase == 2 {
        err, doorCount', x', newobj', appended := ReadRow(line, y, doors, doorCount, x, newobj, before);
        if err.None? {
          y' := y + 1;
        }
      }
    }

    /** The character loop of read_world over one grid line, from the
        locals of read_world, which `before` holds; it appends to the objects
        and returns the locals it changes, and the error if it raises. */
    method ReadRow(line: string, y: int, doors: seq<bool>, doorCount: nat, x: int,
                   newobj: Option<Element>, ghost before: Reader)
      returns (err: Option<Error>, doorCount': nat, x': int, newobj': Option<Element>,
               ghost appended: seq<Element>)
      requires before.failed.None? && before.y == y && before.doors == doors
      requires before.doorCount == doorCount && before.x == x && before.last == newobj
      modifies this`objects
      ensures objects == old(objects) + appended
      ensures ReadCells(before, probDoor, line) ==
        Reader(before.phase, doors, doorCount', x', y, before.added + appended, newobj', err)
    {
      err, doorCount', x', newobj', appended := None, doorCount, x, newobj, [];
      ghost var cur := before;
      var j := 0;
      while j < |line| && err.None?
        invariant 0 <= j <= |line|
        invariant objects == old(objects) + appended
        invariant ReadCells(before, probDoor, line[..j]) == cur
        invariant cur.phase == before.phase && cur.doors == doors && cur.doorCount == doorCount' && cur.x == x'
        invariant cur.y == y && cur.added == before.added + appended && cur.last == newobj' && cur.failed == err
      {
        ghost var app;
        ReadCellsNext(before, probDoor, line, j);
        err, doorCount', x', newobj', app, cur := ReadOneCell(line[j], j, y, doors, doorCount', newobj', cur);
        appended := appended + app;
        j := j + 1;
      }
      if err.Some? {
        ReadCellsStop(before, probDoor, line, j);
      } else {
        assert line[..j] == line;
      }
    }

    /** The body of the character loop of read_world for the character c at
        column x of a grid line, from the locals of read_world, which `cur`
        holds. */
    method ReadOneCell(c: char, x: nat, y: int, doors: seq<bool>, doorCount: nat,
                       newobj: Option<Element>, ghost cur: Reader)
      returns (err: Option<Error>, doorCount': nat, x': int, newobj': Option<Element>,
               ghost appended: seq<Element>, ghost next: Reader)
      requires cur.failed.None? && cur.y == y && cur.doors == doors
      requires cur.doorCount == doorCount && cur.last == newobj
      modifies this`objects
      ensures objects == old(objects) + appended
      ensures next == ReadCell(cur, probDoor, x, c)
      ensures next == Reader(cur.phase, doors, doorCount', x', y, cur.added + appended, newobj', err)
    {
      err, doorCount', x', newobj', appended := None, doorCount, x, newobj, [];
      if c == '.' {
      } else if c == DOOR_REP {
        if doorCount >= |doors| {
          next := ReadCell(cur, probDoor, x, c);
          return Some(MissingDoorProps), doorCount', x', newobj', appended, next;
        }
        var d := Door(Vec(x / 2 + 1, y), probDoor, doors[doorCount], doors[doorCount]);
        doorCount' := doorCount + 1;
        newobj' := Some(d);
        objects, appended := objects + [d], [d];
      } else if IsSquareRep(c) {
        var s := Square(KindOfRep(c), Vec(x / 2, y));
        newobj' := Some(s);
        objects, appended := objects + [s], [s];
      } else if newobj.None? {
        next := ReadCell(cur, probDoor, x, c);
        return Some(NoObjectYet), doorCount', x', newobj', appended, next;
      } else {
        objects, appended := objects + [newobj.value], [newobj.value];
      }
      next := ReadCell(cur, probDoor, x, c);
    }

    /** make_reachability_graph: the graph field ends up as the graph that
        Reachability.ReachabilityGraph describes, or the method raises the
        error that it records. */
    method MakeReachabilityGraph() returns (r: Result<()>)
      modifies this`reachabilityGraph
      ensures r.Ok? <==> ReachabilityGraph(Grid()).Ok?
      ensures r.Ok? ==> reachabilityGraph == ReachabilityGraph(Grid()).value
      ensures r.Err? ==> r.error == ReachabilityGraph(Grid()).error
    {
      ghost var w := Grid();
      var locs := Grid().AllLocations();
      reachabilityGraph := Graph({}, {});
      var i := 0;
      while i < |locs|
        invariant 0 <= i <= |locs|
        invariant Grid() == w
        invariant Build(w, locs[..i]) == Ok(reachabilityGraph)
      {
        var l := locs[i];
        BuildNext(w, locs, i, reachabilityGraph);
        reachabilityGraph := Graph(reachabilityGraph.nodes + {l}, reachabilityGraph.edges);
        var err := VisitCell(l);
        if err.Some? {
          BuildStop(w, locs, i + 1);
          return Err(err.value);
        }
        i := i + 1;
      }
      assert locs[..i] == locs;
      return Ok(());
    }

    /** The inner loop of make_reachability_graph at cell l: for each of the
        four moves, an edge to the cell it leads to when the move is valid
        and that cell is already a node. */
    method VisitCell(l: Vec) returns (err: Option<Error>)
      modifies this`reachabilityGraph
      ensures err.None? ==> TryMoves(Grid(), old(reachabilityGraph), l, MOVES) == Ok(reachabilityGraph)
      ensures err.Some? ==> TryMoves(Grid(), old(reachabilityGraph), l, MOVES) == Err(err.value)
    {
      ghost var g0 := reachabilityGraph;
      var actions := [DOWN, UP, LEFT, RIGHT];
      assert actions == MOVES;
      var j := 0;
      while j < |actions|
        invariant 0 <= j <= |actions|
        invariant TryMoves(Grid(), g0, l, actions[..j]) == Ok(reachabilityGraph)
      {
        TryMovesNext(Grid(), g0, l, actions, j);
        var action := actions[j];
        var valid := Grid().IsValidAction(l, action);
        if valid.Err? {
          TryMovesStop(Grid(), g0, l, actions, j + 1);
          return Some(valid.error);
        }
        if valid.value {
          var newLocation := Grid().GetNewLocation(l, action);
          if newLocation in reachabilityGraph.nodes {
            reachabilityGraph := AddEdge(reachabilityGraph, l, newLocation);
          }
        }
        j := j + 1;
      }
      assert actions[..j] == actions;
      return None;
    }

    /** get_shortest_path: rebuilds the graph, then returns a walk of
        adjacent cells from s to t as short as any other, None when t cannot
        be reached, and the error of networkx when s or t is not a cell. */
    method GetShortestPath(s: Vec, t: Vec) returns (r: Result<Option<seq<Vec>>>)
      modifies this`reachabilityGraph
      ensures ReachabilityGraph(Grid()).Err? ==> r == Err(ReachabilityGraph(Grid()).error)
      ensures ReachabilityGraph(Grid()).Ok? ==>
        && reachabilityGraph == ReachabilityGraph(Grid()).value
        && (r.Err? <==> !Grid().Contains(s) || !Grid().Contains(t))
        && (r.Err? ==> r.error == NodeNotFound)
      ensures r.Ok? && r.value.Some? ==>
        var p := r.value.value;
        && WalkFrom(reachabilityGraph, p, s, t)
        && (forall i | 0 <= i < |p| - 1 :: IsUnitStep(p[i + 1].Minus(p[i])))
        && (forall q | WalkFrom(reachabilityGraph, q, s, t) :: |p| <= |q|)
      ensures r.Ok? && r.value.None? ==> forall q :: !WalkFrom(reachabilityGraph, q, s, t)
    {
      var built := MakeReachabilityGraph();
      if built.Err? {
        return Err(built.error);
      }
      ReachabilityEdges(Grid());
      r := ShortestPath(reachabilityGraph, s, t);
      if r.Ok? && r.value.Some? {
        var p := r.value.value;
        forall i | 0 <= i < |p| - 1
          ensures IsUnitStep(p[i + 1].Minus(p[i]))
        {
          JoinedIsStep(Grid(), p[i], p[i + 1]);
        }
      }
    }

    /** get_shortest_path with no target, as plan_path calls it on a grid
        without a goal: networkx then returns the dict of shortest paths
        from s, and the result says whether s is its only key. */
    method GetPathsFrom(s: Vec) returns (r: Result<bool>)
      modifies this`reachabilityGraph
      ensures ReachabilityGraph(Grid()).Err? ==> r == Err(ReachabilityGraph(Grid()).error)
      ensures ReachabilityGraph(Grid()).Ok? ==>
        && reachabilityGraph == ReachabilityGraph(Grid()).value
        && (r.Err? <==> !Grid().Contains(s))
        && (r.Err? ==> r.error == NodeNotFound)
      ensures r.Ok? ==>
        && (r.value <==> Isolated(reachabilityGraph, s))
        && (r.value <==> forall p, t | WalkFrom(reachabilityGraph, p, s, t) :: t == s)
    {
      var built := MakeReachabilityGraph();
      if built.Err? {
        return Err(built.error);
      }
      assert s in reachabilityGraph.nodes <==> Grid().Contains(s) by {
        ReachabilityEdges(Grid());
      }
      if s !in reachabilityGraph.nodes {
        return Err(NodeNotFound);
      }
      var g := reachabilityGraph;
      var others := set e | e in g.edges && e.0 == s && e.1 != s;
      if !Isolated(g, s) {
        var n :| (s, n) in g.edges && n != s;
        assert (s, n) in others;
      }
      if others != {} {
        var e :| e in others;
        assert e == (s, e.1);
      }
      IsolatedAlone(g, s);
      return Ok(others == {});
    }

    /** get_gridsquares_between: the number of steps of a shortest walk. */
    method GetGridsquaresBetween(s: Vec, t: Vec) returns (r: Result<Option<nat>>)
      modifies this`reachabilityGraph
      ensures ReachabilityGraph(Grid()).Err? ==> r == Err(ReachabilityGraph(Grid()).error)
      ensures ReachabilityGraph(Grid()).Ok? ==>
        && reachabilityGraph == ReachabilityGraph(Grid()).value
        && (r.Err? <==> !Grid().Contains(s) || !Grid().Contains(t))
        && (r.Err? ==> r.error == NodeNotFound)
      ensures r.Ok? && r.value.Some? ==>
        && (exists q | WalkFrom(reachabilityGraph, q, s, t) :: |q| == r.value.value + 1)
        && (forall q | WalkFrom(reachabilityGraph, q, s, t) :: r.value.value + 1 <= |q|)
      ensures r.Ok? && r.value.None? ==> forall q :: !WalkFrom(reachabilityGraph, q, s, t)
    {
      var path := GetShortestPath(s, t);
      match path
      case Err(e) => return Err(e);
      case Ok(None) => return Ok(None);
      case Ok(Some(p)) =>
        ghost var g := reachabilityGraph;
        assert |p| >= 1 && WalkFrom(g, p, s, t);
        assert exists q | WalkFrom(g, q, s, t) :: |q| == |p|;
        assert forall q | WalkFrom(g, q, s, t) :: |p| <= |q|;
        return Ok(Some(|p| - 1));
    }
  }
}
