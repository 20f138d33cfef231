// The Monte-Carlo runner behind the counterfactual and hypothetical
// judgements: a model works on its own copy of the engine, switches the agent
// to the other path, and reports how often a reset run reaches the goal.

module Models {
  import opened Utils
  import opened Elements
  import opened Grids
  import opened GridWorlds
  import opened Agents
  import opened EnvironmentRules
  import opened Environments

  class Model {
    const env: Environment
    const modelType: string
    const originalRuntime: int
    const doorChanges: map<int, seq<Vec>>

    /** Model.__init__: a deep copy of the engine, switched to sampling the
        doors; the engine passed in is not changed. */
    constructor (env0: Environment, modelType: string, originalRuntime: int, doorChanges: map<int, seq<Vec>>)
      ensures fresh(env) && fresh(env.world) && fresh(env.agent)
      ensures CopyOf(env, env0) && !env.generatingTrials
      ensures this.modelType == modelType && this.originalRuntime == originalRuntime
      ensures this.doorChanges == doorChanges
    {
      var copy := new Environment.Copy(env0);
      copy.generatingTrials := false;
      env := copy;
      this.modelType := modelType;
      this.originalRuntime := originalRuntime;
      this.doorChanges := doorChanges;
    }

    /** CounterfactualModel: replays the recorded door changes up to the
        recorded runtime. The model_type argument is ignored. */
    constructor Counterfactual(env0: Environment, modelType: string, originalRuntime: int,
                               doorChanges: map<int, seq<Vec>>)
      ensures fresh(env) && fresh(env.world) && fresh(env.agent)
      ensures CopyOf(env, env0) && !env.generatingTrials
      ensures this.modelType == "counterfactual" && this.originalRuntime == originalRuntime
      ensures this.doorChanges == doorChanges
    {
      var copy := new Environment.Copy(env0);
      copy.generatingTrials := false;
      env := copy;
      this.modelType := "counterfactual";
      this.originalRuntime := originalRuntime;
      this.doorChanges := doorChanges;
    }

    /** HypotheticalModel: no recorded runtime and no recorded changes, so
        every door update samples. The model_type argument is ignored. */
    constructor Hypothetical(env0: Environment, modelType: string)
      ensures fresh(env) && fresh(env.world) && fresh(env.agent)
      ensures CopyOf(env, env0) && !env.generatingTrials
      ensures this.modelType == "hypothetical" && originalRuntime == 0 && doorChanges == map[]
    {
      var copy := new Environment.Copy(env0);
      copy.generatingTrials := false;
      env := copy;
      this.modelType := "hypothetical";
      originalRuntime := 0;
      doorChanges := map[];
    }

    /** simulate_once: reset the engine, run it with no path and the stored
        door log and runtime, and report whether it was won. The run starts
        from the reset state and is a run as IsRun describes. */
    method SimulateOnce(ghost s: Setting)
      returns (r: Result<bool>, ghost states: seq<Moment>, ghost walks: seq<seq<Vec>>, ghost run: Result<(int, Outcome)>)
      requires s == env.Rules(doorChanges, originalRuntime)
      modifies env.world`objects, env.world`reachabilityGraph, env.agent`location, env.agent`reachedGoal
      modifies env.rng, env`outcome
      ensures states != [] && states[0] == ResetState(env.world.width, env.world.height, old(env.world.objects), env.agent.path, old(env.rng.drawn))
      ensures IsRun(s, env.world.timeLimit, states, walks, run)
      ensures r == if run.Ok? then Ok(run.value.1 == Won) else Err(run.error)
      ensures run.Ok? ==>
        && env.world.objects == states[|states| - 1].objects
        && env.rng.drawn == states[|states| - 1].drawn
      ensures SameLayout(old(env.world.objects), env.world.objects)
      ensures env.agent.reachedGoal == Some(false)
      ensures env.world.timeLimit <= 0 ==> r == Ok(false)
      ensures r.Ok? ==> (r.value <==> env.outcome == Some(Won))
      ensures r.Ok? && env.world.timeLimit >= 1 ==> (r.value <==> env.ReachedGoal())
    {
      env.Reset();
      RestoreUndoesUpdates(old(env.world.objects), old(env.world.objects));
      var result;
      result, states, walks := env.Run([], doorChanges, originalRuntime, s);
      run := result;
      if result.Err? {
        return Err(result.error), states, walks, run;
      }
      return Ok(result.value.1 == Won), states, walks, run;
    }

    /** One pass of simulate_all's loop: one more simulation, from the reset
        state `first` with the draws the simulations before it left. */
    method SimulateNext(ghost s: Setting, ghost first: Moment, ghost runs: seq<seq<Moment>>,
                        ghost plans: seq<seq<seq<Vec>>>, ghost results: seq<(int, Outcome)>)
      returns (once: Result<bool>, ghost states: seq<Moment>, ghost walks: seq<seq<Vec>>,
               ghost run: Result<(int, Outcome)>)
      requires s == env.Rules(doorChanges, originalRuntime)
      requires Simulations(s, env.world.timeLimit, first, runs, plans, results)
      requires env.rng.drawn == DrawnAfter(first, runs)
      requires ResetState(env.world.width, env.world.height, env.world.objects, env.agent.path, env.rng.drawn) ==
        first.(drawn := env.rng.drawn)
      modifies env.world`objects, env.world`reachabilityGraph, env.agent`location, env.agent`reachedGoal
      modifies env.rng, env`outcome
      ensures once.Ok? ==>
        && run.Ok? && (once.value <==> run.value.1 == Won)
        && Simulations(s, env.world.timeLimit, first, runs + [states], plans + [walks], results + [run.value])
        && env.rng.drawn == DrawnAfter(first, runs + [states])
        && ResetState(env.world.width, env.world.height, env.world.objects, env.agent.path, env.rng.drawn) ==
           first.(drawn := env.rng.drawn)
      ensures SameLayout(old(env.world.objects), env.world.objects)
    {
      once, states, walks, run := SimulateOnce(s);
      if once.Err? {
        return;
      }
      assert run.Ok? && states[0] == first.(drawn := DrawnAfter(first, runs));
      SimulationsExtend(s, env.world.timeLimit, first, runs, plans, results, states, walks, run);
      RestoreUndoesUpdates(old(env.world.objects), env.world.objects);
    }

    /** simulate_all: switch the agent to the other path, run n simulations
        and report the truncated percentage of wins. With n == 0 the
        division raises; with n < 0 no simulation runs and the rate is 0.
        runs[i] is the i-th simulation and results[i] what it reported. */
    method SimulateAll(n: int, ghost s: Setting)
      returns (r: Result<int>, ghost runs: seq<seq<Moment>>, ghost plans: seq<seq<seq<Vec>>>,
               ghost results: seq<(int, Outcome)>)
      requires s == env.Rules(doorChanges, originalRuntime)
      modifies env.agent`path, env.world`objects, env.world`reachabilityGraph, env.agent`location
      modifies env.agent`reachedGoal, env.rng, env`outcome
      ensures env.agent.path == OppColor(old(env.agent.path))
      ensures SameLayout(old(env.world.objects), env.world.objects)
      ensures n == 0 ==> r == Err(ZeroSimulations)
      ensures n < 0 ==> r == Ok(0)
      ensures r.Ok? && n > 0 ==>
        && Simulations(s, env.world.timeLimit,
                       ResetState(env.world.width, env.world.height, old(env.world.objects), env.agent.path, old(env.rng.drawn)), runs, plans, results)
        && |results| == n
        && r.value == Rate(Wins(results), n)
        && 0 <= r.value <= 100
        && (r.value == 100 <==> Wins(results) == n)
    {
      env.agent.path := OppColor(env.agent.path);
      ghost var first := ResetState(env.world.width, env.world.height, env.world.objects, env.agent.path, env.rng.drawn);
      runs, plans, results := [], [], [];
      var numSuccesses := 0;
      var i := 0;
      while i < n
        invariant 0 <= i && (n >= 0 ==> i <= n) && (n < 0 ==> i == 0)
        invariant env.agent.path == OppColor(old(env.agent.path))
        invariant SameLayout(old(env.world.objects), env.world.objects)
        invariant Simulations(s, env.world.timeLimit, first, runs, plans, results)
        invariant |results| == i && numSuccesses == Wins(results)
        invariant env.rng.drawn == DrawnAfter(first, runs)
        invariant ResetState(env.world.width, env.world.height, env.world.objects, env.agent.path, env.rng.drawn) ==
          first.(drawn := env.rng.drawn)
      {
        var once; ghost var states; ghost var walks; ghost var run;
        once, states, walks, run := SimulateNext(s, first, runs, plans, results);
        if once.Err? {
          return Err(once.error), runs, plans, results;
        }
        WinsExtend(results, run.value);
        runs, plans, results := runs + [states], plans + [walks], results + [run.value];
        if once.value {
          numSuccesses := numSuccesses + 1;
        }
        i := i + 1;
      }
      if n == 0 {
        return Err(ZeroSimulations), runs, plans, results;
      }
      if n > 0 {
        RateBounds(numSuccesses, n);
      }
      return Ok(Rate(numSuccesses, n)), runs, plans, results;
    }
  }

  /** The draws taken once the simulations `runs` are over, when the first
      started after first.drawn. */
  function DrawnAfter(first: Moment, runs: seq<seq<Moment>>): nat {
    if runs == [] || runs[|runs| - 1] == [] then first.drawn
    else runs[|runs| - 1][|runs[|runs| - 1]| - 1].drawn
  }

  /** One more simulation, a run from the reset state started with the
      draws the simulations before it left, extends the record; the draws
      are then those its last state took. */
  lemma SimulationsExtend(s: Setting, limit: int, first: Moment, runs: seq<seq<Moment>>,
                          plans: seq<seq<seq<Vec>>>, results: seq<(int, Outcome)>,
                          states: seq<Moment>, walks: seq<seq<Vec>>, run: Result<(int, Outcome)>)
    requires Simulations(s, limit, first, runs, plans, results)
    requires states != [] && run.Ok? && IsRun(s, limit, states, walks, run)
    requires states[0] == first.(drawn := DrawnAfter(first, runs))
    ensures Simulations(s, limit, first, runs + [states], plans + [walks], results + [run.value])
    ensures DrawnAfter(first, runs + [states]) == states[|states| - 1].drawn
  {
    var runs', plans', results' := runs + [states], plans + [walks], results + [run.value];
    var k := |runs|;
    assert runs'[..k] == runs && plans'[..k] == plans && results'[..k] == results;
    assert runs'[k] == states && plans'[k] == walks && Ok(results'[k]) == run;
  }

  /** runs[i] is the i-th simulation, taken along the walks plans[i] and
      reported as results[i]: a run as IsRun describes from the reset state
      `first`, except that it starts with the draws the previous simulation
      left. */
  ghost predicate Simulations(s: Setting, limit: int, first: Moment, runs: seq<seq<Moment>>,
                              plans: seq<seq<seq<Vec>>>, results: seq<(int, Outcome)>)
    decreases |runs|
  {
    && |runs| == |plans| == |results|
    && (runs != [] ==>
          var k := |runs| - 1;
          && Simulations(s, limit, first, runs[..k], plans[..k], results[..k])
          && runs[k] != [] && IsRun(s, limit, runs[k], plans[k], Ok(results[k]))
          && runs[k][0] == first.(drawn := DrawnAfter(first, runs[..k])))
  }

  /** The i-th simulation is a run as IsRun describes from the reset state,
      started with the draws the simulations before it left. */
  lemma {:induction false} SimulationAt(s: Setting, limit: int, first: Moment, runs: seq<seq<Moment>>,
                                        plans: seq<seq<seq<Vec>>>, results: seq<(int, Outcome)>, i: int)
    requires Simulations(s, limit, first, runs, plans, results) && 0 <= i < |runs|
    ensures runs[i] != [] && IsRun(s, limit, runs[i], plans[i], Ok(results[i]))
    ensures runs[i][0] == first.(drawn := DrawnAfter(first, runs[..i]))
    decreases |runs|
  {
    var k := |runs| - 1;
    if i < k {
      SimulationAt(s, limit, first, runs[..k], plans[..k], results[..k], i);
      assert runs[..k][i] == runs[i] && plans[..k][i] == plans[i] && results[..k][i] == results[i];
      assert runs[..k][..i] == runs[..i];
    }
  }

  /** The state a simulation starts from on a width by height grid whose
      elements were objs, when the agent follows the path colour: doors
      restored, the agent on its start square, no queue, and `drawn` draws
      taken. */
  function ResetState(width: int, height: int, objs: seq<Element>, color: string, drawn: nat): Moment {
    Moment(Restored(objs), Grid(width, height, Restored(objs)).StartLocation(color), [], drawn)
  }

  /** One more result adds one win when it was won. */
  lemma WinsExtend(results: seq<(int, Outcome)>, result: (int, Outcome))
    ensures Wins(results + [result]) == Wins(results) + (if result.1 == Won then 1 else 0)
  {
    assert (results + [result])[..|results|] == results;
  }

  /** Without a recorded runtime a model never replays: from timestep 1 on
      every door update samples. */
  lemma HypotheticalSamples(t: int, changes: map<int, seq<Vec>>, objs: seq<Element>, draws: nat -> real, from: nat)
    requires t >= 1
    ensures !Replays(false, t, 0)
    ensures UpdateDoors(objs, Replays(false, t, 0), changes, t, draws, from) ==
      UpdateDoors(objs, false, map[], t, draws, from)
  {
  }
}
