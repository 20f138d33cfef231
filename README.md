# Gridworld simulation engine, in Dafny

This project models the simulation engine of the gridworld experiment
behind the counterfactual and hypothetical decision study. An agent walks
a small grid towards a goal square. Doors in the walls between cells open
and close as the run goes on. The engine has four parts, and each has its
own module here:

- **The grid world** (`gridworld.py`). The world is read from a text file
  of door lines and grid rows. It answers queries about squares, doors,
  starts, the goal and valid actions. It builds the reachability graph and
  asks for a shortest path through it.
  - `GridParse` is the reading of the file, as a fold over its lines.
  - `Grids` holds the queries, as functions of a `Grid` value.
  - `Graphs` stands in for networkx: an undirected graph and a
    breadth-first shortest-path search.
  - `Reachability` describes the graph that `make_reachability_graph`
    builds.
  - `GridWorlds.GridWorld` is the class whose methods run those loops
    against its fields.
- **The agent** (`agent.py`): `Agents.Agent`.
- **The environment** (`environment.py`).
  - `EnvironmentRules` holds one timestep as pure functions. That covers
    planning, executing the head action of the queue, the door update
    (replayed or sampled), reset and the success rate.
  - `Environments.Environment` is the class that runs trials in place.
- **The Monte-Carlo models** (`models.py`): `Models.Model`. A model takes a
  deep copy of an environment and switches the agent to the other path. It
  then resets and reruns the copy, counting the runs that are won.

The global random generator is a `Utils.RandomSource`. It holds a fixed
stream of draws in [0, 1) and counts how many have been taken. Every
contract that involves chance names the exact draw it consumes. A Python
exception is an `Err` of `Utils.Error`, one constructor per failing
operation.

### Behaviour worth knowing

- `execute` (environment.py:49-50) blocks the move whenever a closed door
  lies on the cell to the right of the agent's current cell, whichever way
  the action points.
- `make_reachability_graph` (gridworld.py:165-174) visits the cells column
  by column and adds an edge only toward a neighbour that is already a
  node, so a cell is joined, when it is visited, to its neighbours above
  and to its left that are not Blocked (`is_valid_action` checks only the
  destination of the step). Cells `a` and `b` are therefore joined exactly
  when one lies directly above or left of the other and that upper or left
  cell is not Blocked (`Reachability.Joined`). A Blocked cell is never
  joined to the cell below it or to its right. It is joined to a
  neighbour above or to its left that is not Blocked, so a shortest walk
  may pass through Blocked cells.
- On a grid without a goal, `plan_path` (environment.py:31-37) asks for the
  shortest paths from the agent to every node. After the graph is rebuilt
  (which may raise), networkx raises when the agent's cell is not a node.
  Otherwise it returns a dict keyed by cells: when the agent's cell has no
  neighbour the dict has one entry and the plan is empty, and otherwise
  `[0]` on the dict raises (`NoGoal`).

## Model

| member | source | states |
|---|---|---|
| Utils.StrToColor | code/python/experiment/utils.py:23-24 | "red" maps to light red, and every other string maps to light blue |
| Utils.OppColor | code/python/experiment/utils.py:27-28 | the result is "red" or "blue"; it is "red" exactly for "blue"; on the two path colours it differs from the input |
| Utils.OppColorInvolution | code/python/experiment/utils.py:27-28 | flipping twice restores "red" and "blue"; any other string becomes "red" |
| Utils.MovesAreUnitSteps | code/python/experiment/utils.py:31 | DOWN, UP, LEFT and RIGHT are exactly the vectors of Manhattan length 1 |
| Utils.ActionFromLocation | code/python/experiment/utils.py:34-35 | the action leads from the first location to the second, and it is the only one that does |
| Utils.FiresBounds | code/python/experiment/utils.py:38-41 | with a draw in [0, 1), a probability of at most 0 never fires and one of at least 1 always does |
| Utils.RandomSource.constructor | code/python/experiment/utils.py:5 | the stream starts at its first draw, and every draw lies in [0, 1) |
| Utils.RandomSource.Rand | code/python/experiment/utils.py:39 | returns the next draw of the stream and advances the cursor by one |
| Utils.Bernoulli | code/python/experiment/utils.py:38-41 | takes exactly one draw, and fires exactly when that draw is below p |
| Elements.KindOfRep | code/python/experiment/gridworld.py:25-33 | ' ' is Floor, 'g' is Goal, 'X' is Blocked, and 'r' and 'b' are Start squares of the red and blue colours |
| Grids.FirstIsEarliest | code/python/experiment/gridworld.py:136-138 | `[0]` of a filtered list is the earliest element that satisfies the filter |
| Grids.Grid.Inbounds | code/python/experiment/gridworld.py:122-124 | a cell of the grid is left unchanged; on a non-empty grid the result is a cell of the grid |
| Grids.Grid.InboundsNearest | code/python/experiment/gridworld.py:122-124 | in each coordinate, clamping lands no farther from the input than any cell of the grid |
| Grids.Grid.GetNewLocation | code/python/experiment/gridworld.py:131-132 | a move that stays on the grid lands on location plus action; on a non-empty grid the result is always a cell |
| Grids.Grid.GridsquareAt | code/python/experiment/gridworld.py:102-110 | the result is a listed square (never a door) at that location |
| Grids.Grid.GridsquareAtSpec | code/python/experiment/gridworld.py:102-110 | nothing is found exactly when no square is listed there; a Floor is returned only when every square listed there is Floor |
| Grids.SquareAtIsFiltered | code/python/experiment/gridworld.py:102-110 | the one-pass scan picks the same square as the source's two filters and their `[0]` |
| Grids.Grid.Doors | code/python/experiment/gridworld.py:148-149 | holds exactly the doors among the objects |
| Grids.Grid.DoorRightOf | code/python/experiment/gridworld.py:113-119 | the result is a door at the clamped cell right of l; none is found exactly when l.x >= width or no door lies at that cell |
| Grids.Grid.StartLocation | code/python/experiment/gridworld.py:135-139 | with no start square of the path's colour the result is (0, 0); otherwise it is the location of such a square, the earliest one as StartLocationIsFirst states |
| Grids.Grid.StartLocationIsFirst | code/python/experiment/gridworld.py:135-139 | the start location is that of the earliest start square of the path's colour in the list, which `starts[0]` picks |
| Grids.Grid.GoalLocation | code/python/experiment/gridworld.py:142-145 | none exactly when no Goal square is listed; otherwise the location of a Goal square |
| Grids.EarliestExists | code/python/experiment/gridworld.py:143-144 | when some element passes the filter, an earliest one exists, which `[0]` picks |
| Grids.Grid.GoalLocationIsFirst | code/python/experiment/gridworld.py:142-145 | the goal location is l exactly when the earliest Goal square of the list lies at l |
| Grids.Grid.IsValidAction | code/python/experiment/gridworld.py:152-162 | false when a move other than STAY is swallowed by the clamp; otherwise an error exactly when no square lies at the destination, and true exactly when the square there is not Blocked |
| Grids.Grid.AllLocations | code/python/experiment/gridworld.py:127-128 | lists exactly the cells of the grid |
| Grids.Grid.AllLocationsSorted | code/python/experiment/gridworld.py:127-128 | the cells come column by column, then row by row, each once |
| Grids.EndsIgnoreDoors | code/python/experiment/gridworld.py:135-145 | opening or closing doors changes neither the goal nor any start location |
| Grids.ValidityIgnoresDoors | code/python/experiment/gridworld.py:152-162 | opening or closing doors does not change whether an action is valid |
| Graphs.ShortestPath | code/python/experiment/gridworld.py:184-189 | a node that is not in the graph is an error; otherwise the result is a walk from s to t no longer than any other, or none exactly when no walk exists |
| Graphs.IsolatedAlone | code/python/experiment/environment.py:33-34 | a node has no neighbour exactly when every walk from it ends on it, so the dict of paths from it has a single entry |
| Reachability.ReachabilityEdges | code/python/experiment/gridworld.py:165-174 | the graph's nodes are exactly the grid's cells; its edges are exactly the Joined pairs, in both orientations |
| Reachability.ReachabilityGraphOk | code/python/experiment/gridworld.py:158-174 | building succeeds when every cell has a square; a failure names a cell of the grid without a square |
| Reachability.JoinedIsStep | code/python/experiment/gridworld.py:170-174 | the relation is symmetric, and joined cells are one unit step apart |
| Reachability.BuildIgnoresDoors | code/python/experiment/gridworld.py:165-174 | opening or closing doors does not change the graph or the error |
| GridParse.StripNewlines | code/python/experiment/gridworld.py:70 | the result has no newline at either end, and a line without newlines is unchanged |
| GridParse.StripNewlinesTrims | code/python/experiment/gridworld.py:70 | `strip('\n')` removes newlines only at the two ends: the result is the slice of the line between a run of leading and a run of trailing newlines |
| GridParse.FirstField | code/python/experiment/gridworld.py:76 | the result is the prefix of the line up to its first space |
| GridParse.StripSpacesTrims | code/python/experiment/gridworld.py:78 | the white space `int()` ignores is removed only at the two ends: the result is the slice between leading and trailing white space |
| GridParse.ParseIntMeaning | code/python/experiment/gridworld.py:78 | `int()` of a field gives v exactly when the field is an optional sign and decimal digits denoting v, with white space around it; any other field raises |
| GridParse.DoorLineMeaning | code/python/experiment/gridworld.py:76-78 | a door line starts its door open exactly when its first field is a literal denoting 1, and raises exactly when that field is no integer literal at all |
| GridParse.ReadCellsCounts | code/python/experiment/gridworld.py:82-91 | a grid row that raises nothing uses one door line per '\|' and appends one element per character other than '.'; x ends at the last column |
| GridParse.ReadCellsPlacement | code/python/experiment/gridworld.py:82-91 | the element for column x is a door at cell (x//2 + 1, y) with the next door line's state, a square of cell (x//2, y) of the character's kind, or a repeat of the previous element |
| GridParse.ReadLinesSummary | code/python/experiment/gridworld.py:62-94 | a file that raises nothing gives one door state per door-phase line, one row per grid-phase line, and elements counted by those rows, and every door has prob_door and starts in its original state |
| GridWorlds.GridWorld.constructor | code/python/experiment/gridworld.py:54-59 | an empty 0 x 0 world with the given door probability and time limit |
| GridWorlds.GridWorld.Copy | code/python/experiment/models.py:8 | a new world with the same size, elements, graph, time limit and door probability |
| GridWorlds.GridWorld.ReadWorld | code/python/experiment/gridworld.py:62-94 | appends what the file describes, including the elements read before an exception; sets width = x//2 + 1 and height = y only when nothing is raised |
| GridWorlds.GridWorld.ReadRow | code/python/experiment/gridworld.py:82-91 | the character loop of one grid row appends exactly what ReadCells describes |
| GridWorlds.GridWorld.ReadOneCell | code/python/experiment/gridworld.py:83-90 | one character of a grid row appends what ReadCell describes and leaves the reader state ReadCell returns |
| GridWorlds.GridWorld.MakeReachabilityGraph | code/python/experiment/gridworld.py:165-174 | the graph field becomes the graph that ReachabilityGraph describes, or the method fails with its error |
| GridWorlds.GridWorld.VisitCell | code/python/experiment/gridworld.py:169-174 | the inner loop over the four moves of one cell leaves the graph TryMoves computes, or fails with the error TryMoves raises |
| GridWorlds.GridWorld.GetShortestPath | code/python/experiment/gridworld.py:184-189 | rebuilds the graph; the result is a shortest walk of unit steps from s to t, none exactly when t cannot be reached, or NodeNotFound exactly when s or t is not a cell |
| GridWorlds.GridWorld.GetPathsFrom | code/python/experiment/gridworld.py:184-187 | with no target: rebuilds the graph; NodeNotFound exactly when s is not a cell; otherwise true exactly when s has no neighbour, that is exactly when every walk from s stays on s |
| GridWorlds.GridWorld.GetGridsquaresBetween | code/python/experiment/gridworld.py:177-182 | rebuilds the graph; NodeNotFound exactly when s or t is not a cell; otherwise the number of steps of a shortest walk, or none when no walk exists |
| Agents.Agent.constructor | code/python/experiment/agent.py:2-5 | stores the path and stall probability, and places the agent at (0, 0) |
| Agents.Agent.Copy | code/python/experiment/models.py:8 | a new agent with the same fields |
| Agents.Agent.MoveTo | code/python/experiment/agent.py:10-11 | only the location changes, to the new one |
| EnvironmentRules.StepsFollowPath | code/python/experiment/environment.py:29-37 | taking the planned actions from the first location of the path leads to its last location |
| EnvironmentRules.StepsAreDifferences | code/python/experiment/environment.py:34-36 | the i-th action is the difference of locations i + 1 and i |
| EnvironmentRules.PlannedUnitSteps | code/python/experiment/environment.py:29-37 | every action planned along a walk of the reachability graph is a unit step |
| EnvironmentRules.ShortestWalkToSelf | code/python/experiment/environment.py:29-37 | a shortest walk plans no action exactly when the agent already stands on the goal |
| EnvironmentRules.ExecuteShrinks | code/python/experiment/environment.py:48-54 | executing needs a non-empty queue; the queue then stays as it was or loses its head |
| EnvironmentRules.ExecuteBlocked | code/python/experiment/environment.py:48-54 | the agent keeps its place and queue exactly when the action is invalid or a closed door lies right of its cell |
| EnvironmentRules.ExecuteMoves | code/python/experiment/environment.py:48-54 | a move that goes through pops the head, has no closed door right of the agent, lands on a square that is not Blocked, and goes one unit step within the grid |
| EnvironmentRules.UpdateKeepsLayout | code/python/experiment/environment.py:93-104 | the door update changes nothing but is_open |
| EnvironmentRules.UpdateKeepsGoal | code/python/experiment/environment.py:93-104 | the door update keeps the layout and the goal location |
| EnvironmentRules.ReplayFlipsListed | code/python/experiment/environment.py:94-96 | in replay a door flips exactly when the log lists its location for that timestep |
| EnvironmentRules.SampledExtremes | code/python/experiment/environment.py:97-100 | when sampling, a door of probability 0 never flips and one of probability 1 always does |
| EnvironmentRules.DrawsDistinct | code/python/experiment/environment.py:93-100 | when sampling, two different doors take two different draws, all among the next CountDoors draws |
| EnvironmentRules.Restore | code/python/experiment/environment.py:134-135 | a door returns to its original state, and nothing else changes |
| EnvironmentRules.RestoreUndoesUpdates | code/python/experiment/environment.py:131-137 | reset gives the same list whatever doors were toggled before; it keeps the layout, and a second reset changes nothing |
| EnvironmentRules.TimestepActs | code/python/experiment/environment.py:85-89 | a timestep acts on the queue it was given, or on plan_path's actions when that queue is empty |
| EnvironmentRules.ActMoves | code/python/experiment/environment.py:89-104 | after a move (or a stall) the doors are updated from the draws after the stall draw, and the draw count grows by one per door exactly when sampling |
| EnvironmentRules.ActFails | code/python/experiment/environment.py:48-50 | a move that raises makes the whole timestep raise the same error |
| EnvironmentRules.ChainExtend | code/python/experiment/environment.py:82-113 | a timestep that goes through extends a chain of states by the state it leaves |
| EnvironmentRules.RunRaises | code/python/experiment/environment.py:82-104 | a timestep that raises ends the run with that error |
| EnvironmentRules.RunWon | code/python/experiment/environment.py:110-113 | the first timestep that ends on the goal ends the run as won at that timestep |
| EnvironmentRules.RunLost | code/python/experiment/environment.py:79-82 | a run that never reaches the goal ends as lost at the time limit, or at timestep 0 when the limit is at most 0 |
| EnvironmentRules.Rate | code/python/experiment/models.py:38 | the rate r satisfies r * n <= 100 * successes < (r + 1) * n; it is 0 when n < 0 |
| EnvironmentRules.RateBounds | code/python/experiment/models.py:38 | the rate lies between 0 and 100; it is 100 exactly when every run succeeded, and 0 exactly when fewer than one run in a hundred did |
| EnvironmentRules.RateMonotone | code/python/experiment/models.py:38 | more successes never lower the rate |
| Environments.ActionsAlong | code/python/experiment/environment.py:32-37 | the loop yields exactly the actions between consecutive locations |
| Environments.Environment.constructor | code/python/experiment/environment.py:12-21 | places the agent on the start square of its path |
| Environments.Environment.Copy | code/python/experiment/models.py:8 | a new world and a new agent with the same contents; the global random stream is shared |
| Environments.Environment.ReachedGoal | code/python/experiment/environment.py:24-26 | true only where a Goal square lies; always false on a grid without a goal |
| Environments.Environment.ReachedGoalIsFirst | code/python/experiment/environment.py:24-26 | reached_goal is true exactly when the agent stands on the earliest Goal square of the list |
| Environments.Environment.PlanPath | code/python/experiment/environment.py:29-37 | the result is Plan's for the walk the search picks: the graph's error; NodeNotFound when the agent or goal is not a cell; with a goal, NoPath exactly when it cannot be reached and otherwise the actions along a walk to it no longer than any other; without a goal, an empty plan exactly when the agent's cell has no neighbour and NoGoal otherwise |
| Environments.Environment.Execute | code/python/experiment/environment.py:40-54 | takes one draw unless trials are being generated; a stalled agent keeps its place and queue; otherwise the result is ExecuteStep's |
| Environments.Environment.ChangeDoors | code/python/experiment/environment.py:93-104 | every door is updated as UpdateDoors says, and one draw per door is taken exactly when sampling |
| Environments.Environment.Replan | code/python/experiment/environment.py:85-87 | a non-empty queue is kept with the graph untouched; an empty one gets plan_path's result, Plan's for a walk that is shortest whenever planning succeeds with a goal |
| Environments.Environment.Step | code/python/experiment/environment.py:85-104 | the new agent location, queue, doors and draw count, or the error raised, are exactly what Timestep gives for the state before and the walk picked; keeps the layout and the goal |
| Environments.Environment.Move | code/python/experiment/environment.py:89-104 | the new agent location, queue, doors and draw count, or the error raised, are exactly what Act gives for the state before; keeps the layout and the goal |
| Environments.Environment.Tick | code/python/experiment/environment.py:85-113 | one more timestep extends the chain of states; the flag is true exactly when the agent is on the goal, which ends the run as won; an error ends it as raised |
| Environments.Environment.Timesteps | code/python/experiment/environment.py:79-113 | the states start from the engine's state and form a run as IsRun says: chained by Timestep, won at the first timestep on the goal, lost at the time limit, or the error of the timestep that raised; the engine ends in the last state |
| Environments.Environment.Run | code/python/experiment/environment.py:57-118 | the trace is a run as IsRun says and the engine ends in its last state; outcome is the reported one; a time limit of at most 0 gives (0, lost) and changes nothing; with a positive limit the run is won exactly when the agent ends on the goal |
| Environments.Environment.Reset | code/python/experiment/environment.py:131-137 | every door returns to its original state, the agent to the start of its path, and reached_goal becomes False |
| Models.Model.constructor | code/python/experiment/models.py:7-12 | a fresh copy of the environment that samples doors, with the given type, runtime and log |
| Models.Model.Counterfactual | code/python/experiment/models.py:46-48 | the type is "counterfactual", whatever type is passed |
| Models.Model.Hypothetical | code/python/experiment/models.py:52-54 | the type is "hypothetical", with runtime 0 and an empty log |
| Models.HypotheticalSamples | code/python/experiment/models.py:52-54 | a hypothetical model never replays from timestep 1 on, so the log it is given does not matter |
| Models.Model.SimulateOnce | code/python/experiment/models.py:15-19 | the run starts from the reset state and is a run as IsRun says; the result is true exactly when that run was won, which with a positive time limit is exactly when the agent ends on the goal |
| Models.Model.SimulateNext | code/python/experiment/models.py:31-36 | one more simulation, started from the reset state with the draws the earlier ones left, extends the list of runs by a run as IsRun says |
| Models.Model.SimulateAll | code/python/experiment/models.py:22-42 | switches the agent to the other path; n = 0 raises, n < 0 gives 0; otherwise n runs, each from the reset state, and the result is Rate of the number won, between 0 and 100, and 100 exactly when every run was won |
| Models.SimulationAt | code/python/experiment/models.py:31-36 | the i-th recorded simulation is a run as IsRun says, started from the reset state with the draws the earlier ones left |
| Models.SimulationsExtend | code/python/experiment/models.py:31-36 | a run from the reset state with the draws left so far extends the record of simulations |
| Models.WinsExtend | code/python/experiment/models.py:36 | one more result adds one to the number of wins exactly when it was won |

## Left out

- Reading files and printing: `read_world` takes the lines of the file, not its name. `print`, `__str__`, `print_status` and all verbose output are not modelled.
- Rendering (`Game`, `visualize`, `finish_game`, screenshots, `make_gif`) and the trial I/O helpers (`read_trials`, `make_dir`) are not modelled: they only draw or write files.
- Floating point: probabilities and draws are reals. `EnvironmentRules.Rate` is the exact truncation of 100 * successes / n, without the rounding of `num_successes / num_simulations * 100`.
- Graphs.ShortestPath: networkx's own search and tie-breaking are not modelled. The search promises some shortest walk, not the one networkx returns.
- GridParse.ParseInt: only ASCII decimal literals. Underscores, non-ASCII digits and non-ASCII white space are rejected where Python's `int()` accepts them.
- Environments.Environment.constructor: requires generating_trials. Without it the source reads `world.name`, which no grid world has. The `trial_dir` string is not modelled.
- Environments.Environment.PlanPath: without a goal, the `KeyError` that `[0]` raises on the dict of paths is the error NoGoal; the dict itself is not built.
- Doors are values inside the list of objects. A door listed twice (a character after a door that repeats the previous element) is two independent copies here. In the source it is one object that the door update toggles twice.
- Agents.Agent: `reached_goal` is an Option. It is absent until the first reset, where the source has no such attribute yet.
- State after an exception: the model returns the error at the point the source raises. It describes the fields the source had changed by then only where the contracts say so.
- The door log's keys are `str(timestep)` in the source. They are integers here.
- The global `numpy.random` generator is a fixed stream of draws. Seeding is not modelled, and every draw is assumed to lie in [0, 1).
