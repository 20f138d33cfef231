// The agent: the colour of the path it takes, its chance of stalling on a
// step, and where it stands.

module Agents {
  import opened Utils

  class Agent {
    var path: string
    const probStall: real
    var location: Vec
    /** Set only by the environment's reset; absent on a fresh agent. */
    var reachedGoal: Option<bool>

    constructor (path: string, probStall: real)
      ensures this.path == path && this.probStall == probStall
      ensures location == Vec(0, 0) && reachedGoal == None
    {
      this.path := path;
      this.probStall := probStall;
      location := Vec(0, 0);
      reachedGoal := None;
    }

    /** copy.deepcopy of an agent. */
    constructor Copy(other: Agent)
      ensures path == other.path && probStall == other.probStall
      ensures location == other.location && reachedGoal == other.reachedGoal
    {
      path := other.path;
      probStall := other.probStall;
      location := other.location;
      reachedGoal := other.reachedGoal;
    }

    /** move_to: only the location changes. */
    method MoveTo(newLocation: Vec)
      modifies this`location
      ensures location == newLocation
    {
      location := newLocation;
    }
  }
}
