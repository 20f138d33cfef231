// The step engine. EnvironmentRules states, as functions of values, what one
// step of the engine does: the actions a planned path turns into, the effect
// of executing the head action, the door update after a move and the door
// reset. Environments holds the Environment object, whose methods update the
// world, the agent and the random stream in place and are proved against
// those functions.

module EnvironmentRules {
  import opened Utils
  import opened Elements
  import opened Grids
  import opened Graphs
  import opened Reachability

  /** The actions of plan_path: one per consecutive pair of locations. */
  function Steps(p: seq<Vec>): (r: seq<Vec>)
    ensures |r| == if p == [] then 0 else |p| - 1
    decreases |p|
  {
    if |p| <= 1 then []
    else Steps(p[..|p| - 1]) + [ActionFromLocation(p[|p| - 2], p[|p| - 1])]
  }

  /** Where the actions lead from l when each of them is taken in full. */
  function Follow(l: Vec, actions: seq<Vec>): Vec
    decreases |actions|
  {
    if actions == [] then l
    else Follow(l, actions[..|actions| - 1]).Plus(actions[|actions| - 1])
  }

  lemma FollowAppend(l: Vec, actions: seq<Vec>, a: Vec)
    ensures Follow(l, actions + [a]) == Follow(l, actions).Plus(a)
  {
    assert (actions + [a])[..|actions|] == actions;
  }

  /** Taking the planned actions from the first location of a path leads to
      its last location. */
  lemma {:induction false} StepsFollowPath(p: seq<Vec>)
    requires p != []
    ensures Follow(p[0], Steps(p)) == p[|p| - 1]
    decreases |p|
  {
    if |p| > 1 {
      var q := p[..|p| - 1];
      var a := ActionFromLocation(p[|p| - 2], p[|p| - 1]);
      assert Steps(p) == Steps(q) + [a];
      StepsFollowPath(q);
      assert q[0] == p[0] && q[|q| - 1] == p[|p| - 2];
      FollowAppend(p[0], Steps(q), a);
    }
  }

  /** Each planned action is the difference of two consecutive locations. */
  lemma {:induction false} StepsAreDifferences(p: seq<Vec>, i: nat)
    requires i + 1 < |p|
    ensures Steps(p)[i] == p[i + 1].Minus(p[i])
    decreases |p|
  {
    if i + 2 < |p| {
      StepsAreDifferences(p[..|p| - 1], i);
    }
  }

  /** The actions planned along a walk of the reachability graph are all
      unit steps. */
  lemma PlannedUnitSteps(w: Grid, p: seq<Vec>)
    requires ReachabilityGraph(w).Ok?
    requires Walk(ReachabilityGraph(w).value, p)
    ensures forall i | 0 <= i < |Steps(p)| :: IsUnitStep(Steps(p)[i])
  {
    ReachabilityEdges(w);
    forall i | 0 <= i < |Steps(p)|
      ensures IsUnitStep(Steps(p)[i])
    {
      StepsAreDifferences(p, i);
      JoinedIsStep(w, p[i], p[i + 1]);
    }
  }

  /** A shortest walk from a location to itself is that location alone, so
      nothing is planned when the agent already stands on the goal; a
      shortest walk between two different locations plans some action. */
  lemma ShortestWalkToSelf(g: Graph<Vec>, p: seq<Vec>, s: Vec, t: Vec)
    requires WalkFrom(g, p, s, t)
    requires forall q | WalkFrom(g, q, s, t) :: |p| <= |q|
    ensures Steps(p) == [] <==> s == t
  {
    if s == t {
      assert WalkFrom(g, [s], s, t);
    }
  }

  /** A closed door on the cell right of l. */
  predicate ClosedDoorRightOf(w: Grid, l: Vec) {
    w.DoorRightOf(l).Some? && !w.DoorRightOf(l).value.isOpen
  }

  /** execute after the stall check, from location l with the action queue
      path: the new location and the new queue, or the error raised. */
  function ExecuteStep(w: Grid, l: Vec, path: seq<Vec>): Result<(Vec, seq<Vec>)> {
    if path == [] then Err(EmptyPath)
    else match w.IsValidAction(l, path[0])
      case Err(e) => Err(e)
      case Ok(valid) =>
        if !valid || ClosedDoorRightOf(w, l) then Ok((l, path))
        else Ok((w.GetNewLocation(l, path[0]), path[1..]))
  }

  /** Popping the head of a queue and pushing it back restores the queue. */
  lemma PushBack(path: seq<Vec>)
    requires path != []
    ensures [path[0]] + path[1..] == path
  {
  }

  /** The queue never grows: it keeps its actions or loses its head. */
  lemma ExecuteShrinks(w: Grid, l: Vec, path: seq<Vec>)
    requires ExecuteStep(w, l, path).Ok?
    ensures var q := ExecuteStep(w, l, path).value.1;
      path != [] && (q == path || q == path[1..]) && |q| <= |path|
  {
  }

  /** The agent stays put with its queue intact exactly when the head action
      is invalid or a closed door lies right of the agent, whichever way the
      action points. */
  lemma ExecuteBlocked(w: Grid, l: Vec, path: seq<Vec>)
    requires path != [] && w.IsValidAction(l, path[0]).Ok?
    ensures ExecuteStep(w, l, path) == Ok((l, path)) <==>
      w.IsValidAction(l, path[0]) == Ok(false) || ClosedDoorRightOf(w, l)
  {
    if ExecuteStep(w, l, path) == Ok((l, path)) {
      assert |path[1..]| < |path|;
    }
  }

  /** A move that goes through lands on a square that is not Blocked; a unit
      step taken from a cell of the grid lands on the neighbouring cell,
      never on a clamped one. */
  lemma ExecuteMoves(w: Grid, l: Vec, path: seq<Vec>)
    requires ExecuteStep(w, l, path).Ok? && ExecuteStep(w, l, path).value.1 != path
    ensures var l' := ExecuteStep(w, l, path).value.0;
      && ExecuteStep(w, l, path).value.1 == path[1..]
      && !ClosedDoorRightOf(w, l)
      && w.GridsquareAt(l').Some? && w.GridsquareAt(l').value.kind != Blocked
      && (w.Contains(l) && IsUnitStep(path[0]) ==> l' == l.Plus(path[0]) && w.Contains(l'))
  {
  }

  /** The door update replays the log of changes when trials are being
      generated and during the recorded runtime; otherwise it samples. */
  predicate Replays(generating: bool, t: int, runtime: int) {
    generating || t <= runtime
  }

  /** The log lists location l among the door changes of timestep t. */
  predicate Listed(changes: map<int, seq<Vec>>, t: int, l: Vec) {
    t in changes && l in changes[t]
  }

  /** The number of doors in a list, which get_doors returns. */
  function CountDoors(objs: seq<Element>): (n: nat)
    ensures n <= |objs|
  {
    |Filter(objs, IsDoor)|
  }

  lemma CountDoorsNext(objs: seq<Element>, i: nat)
    requires i < |objs|
    ensures CountDoors(objs[..i + 1]) == CountDoors(objs[..i]) + (if objs[i].Door? then 1 else 0)
  {
    assert objs[..i + 1] == objs[..i] + [objs[i]];
    FilterAppend(objs[..i], objs[i], IsDoor);
  }

  /** The door (or square) at position i after the update of timestep t:
      a door flips when it is listed for t, in replay, or when the draw it
      takes fires for its probability, otherwise. The doors take the draws
      from `from` on, in list order. */
  function UpdateDoor(objs: seq<Element>, i: nat, replay: bool, changes: map<int, seq<Vec>>, t: int,
                      draws: nat -> real, from: nat): Element
    requires i < |objs|
  {
    var e := objs[i];
    if !e.Door? then e
    else
      var flips := if replay then Listed(changes, t, e.location)
                   else Fires(e.prob, draws(from + CountDoors(objs[..i])));
      if flips then e.(isOpen := !e.isOpen) else e
  }

  /** The list of elements after the door update of timestep t. */
  function UpdateDoors(objs: seq<Element>, replay: bool, changes: map<int, seq<Vec>>, t: int,
                       draws: nat -> real, from: nat): (r: seq<Element>)
    ensures |r| == |objs|
  {
    seq(|objs|, i requires 0 <= i < |objs| => UpdateDoor(objs, i, replay, changes, t, draws, from))
  }

  /** A door update only negates is_open, so the layout stays. */
  lemma UpdateKeepsLayout(objs: seq<Element>, replay: bool, changes: map<int, seq<Vec>>, t: int,
                          draws: nat -> real, from: nat)
    ensures SameLayout(objs, UpdateDoors(objs, replay, changes, t, draws, from))
  {
  }

  /** A door update moves neither the goal nor any square. */
  lemma UpdateKeepsGoal(w: int, h: int, objs: seq<Element>, replay: bool, changes: map<int, seq<Vec>>, t: int,
                        draws: nat -> real, from: nat)
    ensures var after := UpdateDoors(objs, replay, changes, t, draws, from);
      && SameLayout(objs, after)
      && Grid(w, h, objs).GoalLocation() == Grid(w, h, after).GoalLocation()
  {
    UpdateKeepsLayout(objs, replay, changes, t, draws, from);
    EndsIgnoreDoors(w, h, objs, UpdateDoors(objs, replay, changes, t, draws, from), "");
  }

  /** In replay a door flips exactly when the log lists its location. */
  lemma ReplayFlipsListed(objs: seq<Element>, changes: map<int, seq<Vec>>, t: int,
                          draws: nat -> real, from: nat, i: nat)
    requires i < |objs| && objs[i].Door?
    ensures UpdateDoors(objs, true, changes, t, draws, from)[i].isOpen != objs[i].isOpen <==>
      Listed(changes, t, objs[i].location)
  {
  }

  /** When sampling, a door of probability at most 0 never flips and one of
      probability at least 1 always does. */
  lemma SampledExtremes(objs: seq<Element>, changes: map<int, seq<Vec>>, t: int,
                        draws: nat -> real, from: nat, i: nat)
    requires i < |objs| && objs[i].Door?
    requires forall k: nat :: 0.0 <= draws(k) < 1.0
    ensures objs[i].prob <= 0.0 ==> UpdateDoors(objs, false, changes, t, draws, from)[i] == objs[i]
    ensures objs[i].prob >= 1.0 ==> UpdateDoors(objs, false, changes, t, draws, from)[i].isOpen != objs[i].isOpen
  {
    FiresBounds(objs[i].prob, draws(from + CountDoors(objs[..i])));
  }

  /** When sampling, each door takes a draw of its own: the draws of two
      different doors differ, and all lie in [from, from + number of doors). */
  lemma {:induction false} DrawsDistinct(objs: seq<Element>, i: nat, j: nat)
    requires i < j < |objs| && objs[i].Door?
    ensures CountDoors(objs[..i]) < CountDoors(objs[..j])
    ensures objs[j].Door? ==> CountDoors(objs[..j]) < CountDoors(objs)
  {
    CountDoorsNext(objs, i);
    CountMonotone(objs, i + 1, j);
    if objs[j].Door? {
      CountDoorsNext(objs, j);
      CountMonotone(objs, j + 1, |objs|);
      assert objs[..|objs|] == objs;
    }
  }

  /** The count of doors grows along a list. */
  lemma {:induction false} CountMonotone(objs: seq<Element>, i: nat, j: nat)
    requires i <= j <= |objs|
    ensures CountDoors(objs[..i]) <= CountDoors(objs[..j])
    decreases j - i
  {
    if i < j {
      CountDoorsNext(objs, j - 1);
      CountMonotone(objs, i, j - 1);
    }
  }

  /** The element after reset: a door returns to its original state. */
  function Restore(e: Element): (r: Element)
    ensures r.Door? ==> r.isOpen == r.isOpenOriginal
    ensures Shape(r) == Shape(e)
  {
    if e.Door? then e.(isOpen := e.isOpenOriginal) else e
  }

  /** The list of elements after reset. */
  function Restored(objs: seq<Element>): (r: seq<Element>)
    ensures |r| == |objs|
  {
    seq(|objs|, i requires 0 <= i < |objs| => Restore(objs[i]))
  }

  /** Reset undoes every door update: lists with the same layout are
      restored to the same list, which has that layout too, and restoring
      twice changes nothing more. */
  lemma RestoreUndoesUpdates(a: seq<Element>, b: seq<Element>)
    requires SameLayout(a, b)
    ensures Restored(a) == Restored(b)
    ensures SameLayout(a, Restored(a))
    ensures Restored(Restored(a)) == Restored(a)
  {
    forall i | 0 <= i < |a|
      ensures Restore(a[i]) == Restore(b[i])
    {
      LayoutAt(a, b, i);
    }
  }

  /** Whether the agent stalls, given the draw the stall check takes. */
  predicate Stalls(generating: bool, probStall: real, u: real) {
    !generating && Fires(probStall, u)
  }

  /** What plan_path returns for an agent at `from` on grid w when the
      shortest-path search picks `walk`: the actions along the walk, or the
      error raised on the way (no goal, a cell without a square, an end
      that is not a cell, or no walk at all). */
  ghost function Plan(w: Grid, from: Vec, walk: seq<Vec>): Result<seq<Vec>> {
    match w.GoalLocation()
    case None =>
      // shortest_path with no target gives the dict of paths from `from`:
      // with `from` alone in it the loop is empty, otherwise [0] raises
      (match ReachabilityGraph(w)
       case Err(e) => Err(e)
       case Ok(g) =>
         if !w.Contains(from) then Err(NodeNotFound)
         else if Isolated(g, from) then Ok([])
         else Err(NoGoal))
    case Some(goal) =>
      match ReachabilityGraph(w)
      case Err(e) => Err(e)
      case Ok(g) =>
        if !w.Contains(from) || !w.Contains(goal) then Err(NodeNotFound)
        else if forall q :: !WalkFrom(g, q, from, goal) then Err(NoPath)
        else Ok(Steps(walk))
  }

  /** Whenever plan_path succeeds, the walk it follows is a walk of the
      reachability graph to the goal that no other walk beats. */
  ghost predicate ShortestChoice(w: Grid, from: Vec, walk: seq<Vec>) {
    Plan(w, from, walk).Ok? && w.GoalLocation().Some? ==>
      && WalkFrom(ReachabilityGraph(w).value, walk, from, w.GoalLocation().value)
      && forall q | WalkFrom(ReachabilityGraph(w).value, q, from, w.GoalLocation().value) :: |walk| <= |q|
  }

  datatype Outcome = Won | Lost

  /** What run reads and never changes: the size of the grid, whether trials
      are being generated, the agent's stall probability, the random stream,
      the log of door changes and the recorded runtime. */
  datatype Setting = Setting(width: int, height: int, generating: bool, probStall: real,
                             draws: nat -> real, changes: map<int, seq<Vec>>, runtime: int)

  /** The state run carries from one timestep to the next: the elements,
      the agent's location, the action queue and the number of draws taken. */
  datatype Moment = Moment(objects: seq<Element>, location: Vec, queue: seq<Vec>, drawn: nat)

  function GridAt(s: Setting, m: Moment): Grid {
    Grid(s.width, s.height, m.objects)
  }

  /** Timestep t of run once the queue is known: execute, with its stall
      draw, then the door update on the grid as it was before the move. */
  function Act(s: Setting, t: int, m: Moment, queue: seq<Vec>): Result<Moment> {
    var from := m.drawn + (if s.generating then 0 else 1);
    var moved := if Stalls(s.generating, s.probStall, s.draws(m.drawn)) then Ok((m.location, queue))
                 else ExecuteStep(GridAt(s, m), m.location, queue);
    match moved
    case Err(e) => Err(e)
    case Ok(step) =>
      var replay := Replays(s.generating, t, s.runtime);
      Ok(Moment(UpdateDoors(m.objects, replay, s.changes, t, s.draws, from), step.0, step.1,
                from + (if replay then 0 else CountDoors(m.objects))))
  }

  /** Timestep t of run, the body of its loop up to the goal check: an
      empty queue is replaced by plan_path's actions along `walk`, then the
      agent acts. */
  ghost function Timestep(s: Setting, t: int, m: Moment, walk: seq<Vec>): Result<Moment> {
    var queue := if m.queue != [] then Ok(m.queue) else Plan(GridAt(s, m), m.location, walk);
    match queue
    case Err(e) => Err(e)
    case Ok(q) => Act(s, t, m, q)
  }

  /** A timestep whose queue is known goes on as Act says. */
  lemma TimestepActs(s: Setting, t: int, m: Moment, walk: seq<Vec>, q: seq<Vec>)
    requires if m.queue != [] then q == m.queue else Plan(GridAt(s, m), m.location, walk) == Ok(q)
    ensures Timestep(s, t, m, walk) == Act(s, t, m, q)
  {
  }

  /** The state after Act when the agent ends at l with queue q'. */
  lemma ActMoves(s: Setting, t: int, m: Moment, q: seq<Vec>, l: Vec, q': seq<Vec>)
    requires if Stalls(s.generating, s.probStall, s.draws(m.drawn)) then l == m.location && q' == q
             else ExecuteStep(GridAt(s, m), m.location, q) == Ok((l, q'))
    ensures var from := m.drawn + (if s.generating then 0 else 1);
      var replay := Replays(s.generating, t, s.runtime);
      Act(s, t, m, q) ==
        Ok(Moment(UpdateDoors(m.objects, replay, s.changes, t, s.draws, from), l, q',
                  from + (if replay then 0 else CountDoors(m.objects))))
  {
  }

  /** Act raises what the move raises. */
  lemma ActFails(s: Setting, t: int, m: Moment, q: seq<Vec>, e: Error)
    requires !Stalls(s.generating, s.probStall, s.draws(m.drawn)) && ExecuteStep(GridAt(s, m), m.location, q) == Err(e)
    ensures Act(s, t, m, q) == Err(e)
  {
  }

  /** The walk of a timestep is one the search may pick. */
  ghost predicate Picked(s: Setting, m: Moment, walk: seq<Vec>) {
    m.queue == [] ==> ShortestChoice(GridAt(s, m), m.location, walk)
  }

  /** The agent stands on the goal. */
  predicate AtGoal(s: Setting, m: Moment) {
    GridAt(s, m).GoalLocation() == Some(m.location)
  }

  /** states[i] is the state after i timesteps, timestep i + 1 taken as
      Timestep says along the walk walks[i] the search picked. */
  ghost predicate Chained(s: Setting, states: seq<Moment>, walks: seq<seq<Vec>>) {
    && |states| >= 1 && |walks| >= |states| - 1
    && forall i {:trigger Timestep(s, i + 1, states[i], walks[i])} | 0 <= i < |states| - 1 ::
         Timestep(s, i + 1, states[i], walks[i]) == Ok(states[i + 1]) && Picked(s, states[i], walks[i])
  }

  /** The agent is on the goal after none of the first n timesteps. */
  predicate GoalAvoided(s: Setting, states: seq<Moment>, n: int) {
    forall i {:trigger AtGoal(s, states[i])} | 1 <= i <= n && i < |states| :: !AtGoal(s, states[i])
  }

  /** run with the time limit `limit` from states[0]: the timesteps are
      chained; a run stops after the first timestep that ends on the goal,
      which it reports won, or after the last timestep, which it reports
      lost; a run that raises does so in the timestep after the last state. */
  ghost predicate IsRun(s: Setting, limit: int, states: seq<Moment>, walks: seq<seq<Vec>>,
                        r: Result<(int, Outcome)>) {
    && Chained(s, states, walks)
    && match r
       case Err(e) =>
         && |states| <= limit && |walks| >= |states|
         && Timestep(s, |states|, states[|states| - 1], walks[|states| - 1]) == Err(e)
         && Picked(s, states[|states| - 1], walks[|states| - 1])
         && GoalAvoided(s, states, |states| - 1)
       case Ok(result) =>
         var k := result.0;
         && k == |states| - 1
         && GoalAvoided(s, states, k - 1)
         && (limit <= 0 ==> k == 0 && result.1 == Lost)
         && (limit >= 1 ==>
               && 1 <= k <= limit
               && (result.1 == Won <==> AtGoal(s, states[k]))
               && (result.1 == Lost ==> k == limit))
  }

  /** Taking one more timestep extends a chain of states. */
  lemma ChainExtend(s: Setting, states: seq<Moment>, walks: seq<seq<Vec>>, m: Moment, walk: seq<Vec>)
    requires Chained(s, states, walks) && |walks| == |states| - 1
    requires Timestep(s, |states|, states[|states| - 1], walk) == Ok(m) && Picked(s, states[|states| - 1], walk)
    ensures Chained(s, states + [m], walks + [walk])
  {
    var states', walks' := states + [m], walks + [walk];
    forall i | 0 <= i < |states'| - 1
      ensures Timestep(s, i + 1, states'[i], walks'[i]) == Ok(states'[i + 1]) && Picked(s, states'[i], walks'[i])
    {
      if i < |states| - 1 {
        assert states'[i] == states[i] && states'[i + 1] == states[i + 1] && walks'[i] == walks[i];
        assert Timestep(s, i + 1, states[i], walks[i]) == Ok(states[i + 1]);
      } else {
        assert states'[i] == states[|states| - 1] && states'[i + 1] == m && walks'[i] == walk;
      }
    }
  }

  /** A run that raises at the timestep after the last state. */
  lemma RunRaises(s: Setting, limit: int, states: seq<Moment>, walks: seq<seq<Vec>>, walk: seq<Vec>, e: Error)
    requires Chained(s, states, walks) && |walks| == |states| - 1 && |states| <= limit
    requires Timestep(s, |states|, states[|states| - 1], walk) == Err(e) && Picked(s, states[|states| - 1], walk)
    requires GoalAvoided(s, states, |states| - 1)
    ensures IsRun(s, limit, states, walks + [walk], Err(e))
  {
    var walks' := walks + [walk];
    forall i | 0 <= i < |states| - 1
      ensures Timestep(s, i + 1, states[i], walks'[i]) == Ok(states[i + 1]) && Picked(s, states[i], walks'[i])
    {
      assert walks'[i] == walks[i];
    }
  }

  /** A run that stops on the goal after its last timestep. */
  lemma RunWon(s: Setting, limit: int, states: seq<Moment>, walks: seq<seq<Vec>>)
    requires Chained(s, states, walks) && 2 <= |states| <= limit + 1
    requires GoalAvoided(s, states, |states| - 2) && AtGoal(s, states[|states| - 1])
    ensures IsRun(s, limit, states, walks, Ok((|states| - 1, Won)))
  {
  }

  /** A run that uses up its time limit without reaching the goal. */
  lemma RunLost(s: Setting, limit: int, states: seq<Moment>, walks: seq<seq<Vec>>)
    requires Chained(s, states, walks) && |states| - 1 == (if limit <= 0 then 0 else limit)
    requires GoalAvoided(s, states, |states| - 1)
    ensures IsRun(s, limit, states, walks, Ok((|states| - 1, Lost)))
  {
  }

  /** The number of runs reported won. */
  function Wins(results: seq<(int, Outcome)>): (k: nat)
    ensures k <= |results|
    decreases |results|
  {
    if results == [] then 0
    else Wins(results[..|results| - 1]) + (if results[|results| - 1].1 == Won then 1 else 0)
  }

  /** The rate simulate_all reports: the percentage of successes, truncated
      towards zero. */
  function Rate(successes: nat, n: int): (r: int)
    requires n != 0
    requires n < 0 ==> successes == 0
    ensures n > 0 ==> r * n <= 100 * successes < (r + 1) * n
    ensures n < 0 ==> r == 0
  {
    if n > 0 then 100 * successes / n else 0
  }

  /** The rate is a percentage, 100 exactly when every run succeeded and 0
      exactly when fewer than one run in a hundred did. */
  lemma RateBounds(successes: nat, n: int)
    requires 0 < n && successes <= n
    ensures 0 <= Rate(successes, n) <= 100
    ensures Rate(successes, n) == 100 <==> successes == n
    ensures Rate(successes, n) == 0 <==> 100 * successes < n
  {
    var r := Rate(successes, n);
    MulCancelLt(0, r + 1, n);
    MulCancelLe(r, 100, n);
    if r == 100 {
      MulCancelLe(n, successes, 100);
    }
    if successes == n {
      MulCancelLt(100, r + 1, n);
    }
    if 100 * successes < n {
      MulCancelLt(r, 1, n);
    }
  }

  /** More successes never lower the rate. */
  lemma RateMonotone(k1: nat, k2: nat, n: int)
    requires 0 < n && k1 <= k2
    ensures Rate(k1, n) <= Rate(k2, n)
  {
    MulCancelLt(Rate(k1, n), Rate(k2, n) + 1, n);
  }

  lemma MulCancelLt(a: int, b: int, n: int)
    requires n > 0 && a * n < b * n
    ensures a < b
  {
  }

  lemma MulCancelLe(a: int, b: int, n: int)
    requires n > 0 && a * n <= b * n
    ensures a <= b
  {
  }
}

module Environments {
  import opened Utils
  import opened Elements
  import opened Grids
  import opened Graphs
  import opened Reachability
  import opened GridWorlds
  import opened Agents
  import opened EnvironmentRules

  /** The loop of plan_path: the action between each pair of consecutive
      locations, in order. */
  method ActionsAlong(locations: seq<Vec>) returns (path: seq<Vec>)
    ensures path == Steps(locations)
  {
    path := [];
    if locations == [] {
      return;
    }
    var i := 1;
    while i < |locations|
      invariant 1 <= i <= |locations|
      invariant path == Steps(locations[..i])
    {
      assert locations[..i + 1][..i] == locations[..i];
      path := path + [ActionFromLocation(locations[i - 1], locations[i])];
      i := i + 1;
    }
    assert locations[..i] == locations;
  }

  /** e holds the same world, agent, random stream and outcome as other,
      whatever its generating_trials flag. */
  ghost predicate CopyOf(e: Environment, other: Environment)
    reads e, e.world, e.agent, other, other.world, other.agent
  {
    && e.world.width == other.world.width && e.world.height == other.world.height
    && e.world.objects == other.world.objects && e.world.reachabilityGraph == other.world.reachabilityGraph
    && e.world.timeLimit == other.world.timeLimit && e.world.probDoor == other.world.probDoor
    && e.agent.path == other.agent.path && e.agent.probStall == other.agent.probStall
    && e.agent.location == other.agent.location && e.agent.reachedGoal == other.agent.reachedGoal
    && e.rng == other.rng && e.outcome == other.outcome
  }

  class Environment {
    const world: GridWorld
    const agent: Agent
    /** The global random stream that bernoulli draws from. */
    const rng: RandomSource
    var generatingTrials: bool
    /** Set by run; absent before the first run. */
    var outcome: Option<Outcome>

    /** Places the agent on the start square of its path. Without
        generating_trials the source reads world.name, which no grid world
        has, so it raises there; this constructor takes the other branch. */
    constructor (world: GridWorld, agent: Agent, rng: RandomSource, generatingTrials: bool)
      requires generatingTrials
      modifies agent`location
      ensures this.world == world && this.agent == agent && this.rng == rng
      ensures this.generatingTrials == generatingTrials && outcome == None
      ensures agent.location == world.Grid().StartLocation(agent.path)
    {
      this.world := world;
      this.agent := agent;
      this.rng := rng;
      this.generatingTrials := generatingTrials;
      outcome := None;
      new;
      agent.location := world.Grid().StartLocation(agent.path);
    }

    /** copy.deepcopy of an environment: a new world and a new agent with the
        same contents. The random stream is the module-level generator, which
        a copy shares. */
    constructor Copy(other: Environment)
      ensures fresh(world) && fresh(agent)
      ensures CopyOf(this, other) && generatingTrials == other.generatingTrials
    {
      world := new GridWorld.Copy(other.world);
      agent := new Agent.Copy(other.agent);
      rng := other.rng;
      generatingTrials := other.generatingTrials;
      outcome := other.outcome;
    }

    /** reached_goal: the agent stands where the first goal square lies. */
    function ReachedGoal(): (r: bool)
      reads world`width, world`height, world`objects, agent`location
      ensures r ==> exists e | e in world.objects :: e.Square? && e.kind == Goal && e.location == agent.location
      ensures (forall e | e in world.objects :: !(e.Square? && e.kind == Goal)) ==> !r
    {
      world.Grid().GoalLocation() == Some(agent.location)
    }

    /** reached_goal holds exactly when the agent stands where the first
        goal square of the grid lies. */
    lemma ReachedGoalIsFirst()
      ensures ReachedGoal() <==> exists i :: FirstGoal(world.objects, i) && world.objects[i].location == agent.location
    {
      world.Grid().GoalLocationIsFirst(agent.location);
    }

    /** plan_path: the actions along a shortest walk of the reachability
        graph from the agent to the goal. A grid without a goal, a graph
        that cannot be built, an agent or goal outside the graph and an
        unreachable goal raise. */
    method PlanPath() returns (r: Result<seq<Vec>>, ghost walk: seq<Vec>)
      modifies world`reachabilityGraph
      ensures ReachabilityGraph(world.Grid()).Err? ==> r == Err(ReachabilityGraph(world.Grid()).error)
      ensures world.Grid().GoalLocation().None? && ReachabilityGraph(world.Grid()).Ok? ==>
        && world.reachabilityGraph == ReachabilityGraph(world.Grid()).value
        && (!world.Grid().Contains(agent.location) ==> r == Err(NodeNotFound))
        && (world.Grid().Contains(agent.location) ==>
              (r == Ok([]) <==> Isolated(world.reachabilityGraph, agent.location))
              && (r.Err? ==> r.error == NoGoal))
      ensures world.Grid().GoalLocation().Some? && ReachabilityGraph(world.Grid()).Ok? ==>
        var goal := world.Grid().GoalLocation().value;
        && world.reachabilityGraph == ReachabilityGraph(world.Grid()).value
        && (!world.Grid().Contains(agent.location) || !world.Grid().Contains(goal) ==> r == Err(NodeNotFound))
        && (world.Grid().Contains(agent.location) && world.Grid().Contains(goal) ==>
              (r == Err(NoPath) <==> forall q :: !WalkFrom(world.reachabilityGraph, q, agent.location, goal)))
      ensures r.Ok? && world.Grid().GoalLocation().Some? ==>
        && WalkFrom(world.reachabilityGraph, walk, agent.location, world.Grid().GoalLocation().value)
        && (forall q | WalkFrom(world.reachabilityGraph, q, agent.location, world.Grid().GoalLocation().value) ::
              |walk| <= |q|)
        && r.value == Steps(walk)
      ensures r == Plan(world.Grid(), agent.location, walk) && ShortestChoice(world.Grid(), agent.location, walk)
    {
      walk := [];
      var goal := world.Grid().GoalLocation();
      if goal.None? {
        var lone := world.GetPathsFrom(agent.location);
        if lone.Err? {
          return Err(lone.error), walk;
        }
        return (if lone.value then Ok([]) else Err(NoGoal)), walk;
      }
      var found := world.GetShortestPath(agent.location, goal.value);
      if found.Err? {
        return Err(found.error), walk;
      }
      if found.value.None? {
        return Err(NoPath), walk;
      }
      var locations := found.value.value;
      walk := locations;
      var path := ActionsAlong(locations);
      return Ok(path), walk;
    }

    /** execute: unless trials are being generated, first draw whether the
        agent stalls; a stalled agent keeps its place and its queue.
        Otherwise the head action is taken as ExecuteStep describes, and the
        new queue is returned. */
    method Execute(path: seq<Vec>) returns (r: Result<seq<Vec>>)
      modifies agent`location, rng
      ensures rng.drawn == old(rng.drawn) + (if generatingTrials then 0 else 1)
      ensures Stalls(generatingTrials, agent.probStall, rng.draws(old(rng.drawn))) ==>
        r == Ok(path) && agent.location == old(agent.location)
      ensures !Stalls(generatingTrials, agent.probStall, rng.draws(old(rng.drawn))) ==>
        match ExecuteStep(world.Grid(), old(agent.location), path)
        case Err(e) => r == Err(e) && agent.location == old(agent.location)
        case Ok(step) => r == Ok(step.1) && agent.location == step.0
    {
      var w := world.Grid();
      if !generatingTrials {
        var stall := Bernoulli(agent.probStall, rng);
        if stall {
          return Ok(path);
        }
      }
      assert world.Grid() == w && agent.location == old(agent.location);
      if path == [] {
        return Err(EmptyPath);
      }
      var action := path[0];
      var rest := path[1..];
      var possibleDoor := w.DoorRightOf(agent.location);
      var valid := w.IsValidAction(agent.location, action);
      if valid.Err? {
        assert ExecuteStep(w, agent.location, path) == Err(valid.error);
        return Err(valid.error);
      }
      if !valid.value || (possibleDoor.Some? && !possibleDoor.value.isOpen) {
        PushBack(path);
        assert ExecuteStep(w, agent.location, path) == Ok((agent.location, path));
        return Ok([action] + rest);
      }
      var newLocation := w.GetNewLocation(agent.location, action);
      assert ExecuteStep(w, agent.location, path) == Ok((newLocation, rest));
      agent.MoveTo(newLocation);
      return Ok(rest);
    }

    /** The door loop of run at timestep t: every door is updated as
        UpdateDoors describes, and a draw is taken per door exactly when the
        update samples. */
    method ChangeDoors(t: int, doorChanges: map<int, seq<Vec>>, originalRuntime: int)
      modifies world`objects, rng
      ensures var replay := Replays(generatingTrials, t, originalRuntime);
        && world.objects == UpdateDoors(old(world.objects), replay, doorChanges, t, rng.draws, old(rng.drawn))
        && rng.drawn == old(rng.drawn) + (if replay then 0 else CountDoors(old(world.objects)))
    {
      ghost var objs := world.objects;
      ghost var replay := Replays(generatingTrials, t, originalRuntime);
      var i := 0;
      while i < |world.objects|
        invariant 0 <= i <= |world.objects| == |objs|
        invariant rng.drawn == old(rng.drawn) + (if replay then 0 else CountDoors(objs[..i]))
        invariant forall k | 0 <= k < i ::
          world.objects[k] == UpdateDoor(objs, k, replay, doorChanges, t, rng.draws, old(rng.drawn))
        invariant forall k | i <= k < |objs| :: world.objects[k] == objs[k]
      {
        CountDoorsNext(objs, i);
        var d := world.objects[i];
        if d.Door? {
          var changeDoor;
          if generatingTrials || t <= originalRuntime {
            changeDoor := t in doorChanges && d.location in doorChanges[t];
          } else {
            changeDoor := Bernoulli(d.prob, rng);
          }
          if changeDoor {
            world.objects := world.objects[i := d.(isOpen := !d.isOpen)];
          }
        }
        i := i + 1;
      }
      assert objs[..i] == objs;
    }

    /** The start of run's loop body: a queue that is not empty is kept, an
        empty one is replaced by plan_path's actions. */
    method Replan(path: seq<Vec>) returns (r: Result<seq<Vec>>, ghost walk: seq<Vec>)
      modifies world`reachabilityGraph
      ensures path != [] ==> r == Ok(path) && world.reachabilityGraph == old(world.reachabilityGraph)
      ensures path == [] && world.Grid().GoalLocation().None? && r.Ok? ==> r.value == []
      ensures path == [] ==>
        && r == Plan(world.Grid(), agent.location, walk)
        && ShortestChoice(world.Grid(), agent.location, walk)
        && (r.Ok? ==> world.reachabilityGraph == ReachabilityGraph(world.Grid()).value)
    {
      walk := [];
      if path != [] {
        return Ok(path), walk;
      }
      r, walk := PlanPath();
    }

    /** What run reads and never changes, for a run with the given door log
        and recorded runtime. */
    ghost function Rules(doorChanges: map<int, seq<Vec>>, originalRuntime: int): Setting
      reads world`width, world`height, this`generatingTrials
    {
      Setting(world.width, world.height, generatingTrials, agent.probStall, rng.draws, doorChanges, originalRuntime)
    }

    /** The body of run's loop after planning, at timestep t: execute the
        head of the queue, then update the doors after the move. `before`
        is the state the engine is in. */
    method Move(queue: seq<Vec>, t: int, doorChanges: map<int, seq<Vec>>, originalRuntime: int,
                ghost s: Setting, ghost before: Moment)
      returns (r: Result<seq<Vec>>)
      requires s == Rules(doorChanges, originalRuntime)
      requires before.objects == world.objects && before.location == agent.location && before.drawn == rng.drawn
      modifies world`objects, agent`location, rng
      ensures Act(s, t, before, queue) ==
        if r.Ok? then Ok(Moment(world.objects, agent.location, r.value, rng.drawn)) else Err(r.error)
      ensures SameLayout(old(world.objects), world.objects)
      ensures world.Grid().GoalLocation() == old(world.Grid().GoalLocation())
    {
      ghost var stall := Stalls(s.generating, s.probStall, s.draws(before.drawn));
      ghost var grid := world.Grid();
      assert grid == GridAt(s, before);
      r := Execute(queue);
      if r.Err? {
        assert Act(s, t, before, queue) == Err(r.error) by {
          assert !stall && ExecuteStep(GridAt(s, before), before.location, queue) == Err(r.error);
          ActFails(s, t, before, queue, r.error);
        }
        return;
      }
      ghost var from := rng.drawn;
      ghost var loc := agent.location;
      ghost var replay := Replays(s.generating, t, s.runtime);
      ghost var after := UpdateDoors(before.objects, replay, s.changes, t, s.draws, from);
      ghost var next := Moment(after, loc, r.value, from + (if replay then 0 else CountDoors(before.objects)));
      assert Act(s, t, before, queue) == Ok(next) by {
        assert from == before.drawn + (if s.generating then 0 else 1);
        assert if stall then loc == before.location && r.value == queue
               else ExecuteStep(grid, before.location, queue) == Ok((loc, r.value));
        ActMoves(s, t, before, queue, loc, r.value);
      }
      assert world.objects == before.objects;
      ChangeDoors(t, doorChanges, originalRuntime);
      assert world.objects == after && agent.location == loc;
      assert rng.drawn == next.drawn;
      UpdateKeepsGoal(world.width, world.height, before.objects, replay, doorChanges, t, rng.draws, from);
    }

    /** The body of run's loop up to the goal check, at timestep t: replan
        when the queue is empty, execute the head action, then update the
        doors after the move. The new state, or the error raised, is what
        Timestep says for the state `before` and the walk the search picked. */
    method Step(path: seq<Vec>, t: int, doorChanges: map<int, seq<Vec>>, originalRuntime: int,
                ghost s: Setting, ghost before: Moment)
      returns (r: Result<seq<Vec>>, ghost walk: seq<Vec>)
      requires s == Rules(doorChanges, originalRuntime)
      requires before == Moment(world.objects, agent.location, path, rng.drawn)
      modifies world`objects, world`reachabilityGraph, agent`location, rng
      ensures Picked(s, before, walk)
      ensures Timestep(s, t, before, walk) ==
        if r.Ok? then Ok(Moment(world.objects, agent.location, r.value, rng.drawn)) else Err(r.error)
      ensures SameLayout(old(world.objects), world.objects)
      ensures world.Grid().GoalLocation() == old(world.Grid().GoalLocation())
    {
      var queue;
      queue, walk := Replan(path);
      assert GridAt(s, before) == world.Grid();
      if queue.Err? {
        return Err(queue.error), walk;
      }
      TimestepActs(s, t, before, walk, queue.value);
      r := Move(queue.value, t, doorChanges, originalRuntime, s, before);
    }

    /** One pass of run's loop, at timestep t = |states|: the chain of
        states grows by the state after the timestep, which is on the goal
        exactly when `won`; or the run raises in this timestep. */
    method Tick(path: seq<Vec>, t: int, doorChanges: map<int, seq<Vec>>, originalRuntime: int,
                ghost s: Setting, ghost states: seq<Moment>, ghost walks: seq<seq<Vec>>)
      returns (r: Result<seq<Vec>>, won: bool, ghost walk: seq<Vec>)
      requires s == Rules(doorChanges, originalRuntime)
      requires 1 <= t <= world.timeLimit && |states| == t && |walks| == t - 1
      requires Chained(s, states, walks) && GoalAvoided(s, states, t - 1)
      requires states[t - 1] == Moment(world.objects, agent.location, path, rng.drawn)
      modifies world`objects, world`reachabilityGraph, agent`location, rng
      ensures r.Err? ==> IsRun(s, world.timeLimit, states, walks + [walk], Err(r.error))
      ensures r.Ok? ==>
        var states' := states + [Moment(world.objects, agent.location, r.value, rng.drawn)];
        && won == ReachedGoal()
        && (won ==> IsRun(s, world.timeLimit, states', walks + [walk], Ok((t, Won))))
        && (!won ==> Chained(s, states', walks + [walk]) && GoalAvoided(s, states', t))
      ensures SameLayout(old(world.objects), world.objects)
      ensures world.Grid().GoalLocation() == old(world.Grid().GoalLocation())
    {
      r, walk := Step(path, t, doorChanges, originalRuntime, s, states[t - 1]);
      if r.Err? {
        RunRaises(s, world.timeLimit, states, walks, walk, r.error);
        return r, false, walk;
      }
      ghost var next := Moment(world.objects, agent.location, r.value, rng.drawn);
      ChainExtend(s, states, walks, next, walk);
      assert GridAt(s, next) == world.Grid();
      won := ReachedGoal();
      if won {
        RunWon(s, world.timeLimit, states + [next], walks + [walk]);
      }
    }

    /** run's loop: at most time_limit timesteps, stopping as soon as the
        agent stands on the goal after the door update. Returns the last
        timestep and the outcome. `states` holds the state before the first
        timestep and after each one, `walks` the walk the search picked at
        each. */
    method Timesteps(path0: seq<Vec>, doorChanges: map<int, seq<Vec>>, originalRuntime: int, ghost s: Setting)
      returns (r: Result<(int, Outcome)>, ghost states: seq<Moment>, ghost walks: seq<seq<Vec>>)
      requires s == Rules(doorChanges, originalRuntime)
      modifies world`objects, world`reachabilityGraph, agent`location, rng
      ensures states != [] && states[0] == Moment(old(world.objects), old(agent.location), path0, old(rng.drawn))
      ensures IsRun(s, world.timeLimit, states, walks, r)
      ensures r.Ok? ==>
        && world.objects == states[|states| - 1].objects && agent.location == states[|states| - 1].location
        && rng.drawn == states[|states| - 1].drawn
      ensures SameLayout(old(world.objects), world.objects)
    {
      var path := path0;
      states := [Moment(world.objects, agent.location, path, rng.drawn)];
      walks := [];
      var timestep := 0;
      var t := 1;
      while t <= world.timeLimit
        invariant 1 <= t && (world.timeLimit >= 1 ==> t <= world.timeLimit + 1)
        invariant world.timeLimit <= 0 ==> t == 1
        invariant timestep == t - 1 && |states| == t && |walks| == t - 1
        invariant states[0] == Moment(old(world.objects), old(agent.location), path0, old(rng.drawn))
        invariant Chained(s, states, walks) && GoalAvoided(s, states, t - 1)
        invariant states[t - 1] == Moment(world.objects, agent.location, path, rng.drawn)
        invariant SameLayout(old(world.objects), world.objects)
      {
        timestep := t;
        var stepped, won; ghost var walk;
        stepped, won, walk := Tick(path, timestep, doorChanges, originalRuntime, s, states, walks);
        if stepped.Err? {
          return Err(stepped.error), states, walks + [walk];
        }
        path := stepped.value;
        states := states + [Moment(world.objects, agent.location, path, rng.drawn)];
        walks := walks + [walk];
        if won {
          return Ok((timestep, Won)), states, walks;
        }
        t := t + 1;
      }
      RunLost(s, world.timeLimit, states, walks);
      return Ok((timestep, Lost)), states, walks;
    }

    /** run: outcome is "lost" until the loop stops on the goal. */
    method Run(path0: seq<Vec>, doorChanges: map<int, seq<Vec>>, originalRuntime: int, ghost s: Setting)
      returns (r: Result<(int, Outcome)>, ghost states: seq<Moment>, ghost walks: seq<seq<Vec>>)
      requires s == Rules(doorChanges, originalRuntime)
      modifies world`objects, world`reachabilityGraph, agent`location, rng, this`outcome
      ensures states != [] && states[0] == Moment(old(world.objects), old(agent.location), path0, old(rng.drawn))
      ensures IsRun(s, world.timeLimit, states, walks, r)
      ensures r.Ok? ==>
        && outcome == Some(r.value.1)
        && world.objects == states[|states| - 1].objects && agent.location == states[|states| - 1].location
        && rng.drawn == states[|states| - 1].drawn
      ensures world.timeLimit <= 0 ==>
        && r == Ok((0, Lost)) && outcome == Some(Lost) && states == [states[0]]
        && world.objects == old(world.objects) && agent.location == old(agent.location)
        && rng.drawn == old(rng.drawn)
      ensures SameLayout(old(world.objects), world.objects)
      ensures r.Ok? && world.timeLimit >= 1 ==> (r.value.1 == Won <==> ReachedGoal())
    {
      outcome := Some(Lost);
      r, states, walks := Timesteps(path0, doorChanges, originalRuntime, s);
      if r.Ok? {
        assert GridAt(s, states[|states| - 1]) == world.Grid();
        if r.value.1 == Won {
          outcome := Some(Won);
        }
      }
    }

    /** reset: every door returns to its original state, the agent to the
        start of its current path, and reached_goal is set to False. */
    method Reset()
      modifies world`objects, agent`location, agent`reachedGoal
      ensures world.objects == Restored(old(world.objects))
      ensures agent.location == world.Grid().StartLocation(agent.path)
      ensures agent.reachedGoal == Some(false)
    {
      ghost var objs := world.objects;
      var i := 0;
      while i < |world.objects|
        invariant 0 <= i <= |world.objects| == |objs|
        invariant forall k | 0 <= k < i :: world.objects[k] == Restore(objs[k])
        invariant forall k | i <= k < |objs| :: world.objects[k] == objs[k]
      {
        var d := world.objects[i];
        if d.Door? {
          world.objects := world.objects[i := d.(isOpen := d.isOpenOriginal)];
        }
        i := i + 1;
      }
      agent.location := world.Grid().StartLocation(agent.path);
      agent.reachedGoal := Some(false);
    }
  }
}
