// Helpers shared by the simulation engine: integer vectors used both as grid
// locations and as actions, the two path colours, the conversion between a
// pair of locations and the action joining them, and the Bernoulli coin.

module Utils {

  datatype Option<T> = None | Some(value: T)

  datatype Result<T> = Ok(value: T) | Err(error: Error)

  /** The exceptions the engine can raise, one per failing Python operation. */
  datatype Error =
    | BadDoorLine       // int(l[0]) on a door-property line that is not an integer
    | MissingDoorProps  // doors[door_count] with fewer property lines than doors
    | NoObjectYet       // newobj appended before it was ever assigned
    | NoSquare(at: Vec) // .name on the None that get_gridsquare_at returned
    | NodeNotFound      // networkx: source or target is not a node of the graph
    | NoGoal            // plan_path without a Goal: [0] on the dict of paths from the agent
    | NoPath            // len(None) when the goal cannot be reached
    | EmptyPath         // pop(0) on an empty action list
    | ZeroSimulations   // num_successes / 0

  /** An integer pair: a location (x, y) or an action (dx, dy). */
  datatype Vec = Vec(x: int, y: int) {
    function Plus(d: Vec): Vec { Vec(x + d.x, y + d.y) }
    function Minus(d: Vec): Vec { Vec(x - d.x, y - d.y) }
  }

  const DOWN := Vec(0, 1)
  const UP := Vec(0, -1)
  const LEFT := Vec(-1, 0)
  const RIGHT := Vec(1, 0)
  const STAY := Vec(0, 0)

  /** The four moving actions in the order the reachability graph tries them. */
  const MOVES := [DOWN, UP, LEFT, RIGHT]

  /** One of the four unit steps. */
  predicate IsUnitStep(d: Vec) {
    d == DOWN || d == UP || d == LEFT || d == RIGHT
  }

  lemma MovesAreUnitSteps(d: Vec)
    ensures d in MOVES <==> IsUnitStep(d)
    ensures IsUnitStep(d) <==> (if d.x < 0 then -d.x else d.x) + (if d.y < 0 then -d.y else d.y) == 1
  {
  }

  /** The start-square colours; only their equality matters to the engine. */
  datatype Color = LightRed | LightBlue

  /** str_to_color: "red" is light red, every other string light blue. */
  function StrToColor(color: string): (c: Color)
    ensures c == LightRed <==> color == "red"
  {
    if color == "red" then LightRed else LightBlue
  }

  /** opp_color: "blue" becomes "red", every other string "blue". */
  function OppColor(color: string): (r: string)
    ensures r == "red" || r == "blue"
    ensures r == "red" <==> color == "blue"
    ensures color == "red" || color == "blue" ==> r != color
  {
    if color == "blue" then "red" else "blue"
  }

  /** On the two path colours opp_color is an involution; on any other
      string two flips give "red", not the original. */
  lemma OppColorInvolution(color: string)
    ensures color == "red" || color == "blue" ==> OppColor(OppColor(color)) == color
    ensures color != "red" && color != "blue" ==> OppColor(OppColor(color)) == "red"
  {
  }

  /** get_action_from_location: the action that leads from one location to
      the other. */
  function ActionFromLocation(from: Vec, to: Vec): (a: Vec)
    ensures from.Plus(a) == to
    ensures forall d: Vec :: from.Plus(d) == to ==> d == a
  {
    to.Minus(from)
  }

  /** The decision bernoulli(p) takes once rand() has drawn u. */
  predicate Fires(p: real, u: real) {
    u < p
  }

  /** rand() draws from [0, 1): a probability of at most 0 never fires, one
      of at least 1 always does. */
  lemma FiresBounds(p: real, u: real)
    requires 0.0 <= u < 1.0
    ensures p <= 0.0 ==> !Fires(p, u)
    ensures p >= 1.0 ==> Fires(p, u)
  {
  }

  /** The global random stream: an infinite sequence of draws in [0, 1) and
      the number already consumed. */
  class RandomSource {
    const draws: nat -> real
    var drawn: nat

    ghost predicate Valid() {
      forall i: nat :: 0.0 <= draws(i) < 1.0
    }

    constructor (draws: nat -> real)
      requires forall i: nat :: 0.0 <= draws(i) < 1.0
      ensures Valid() && this.draws == draws && drawn == 0
    {
      this.draws := draws;
      drawn := 0;
    }

    /** rand(): the next draw of the stream. */
    method Rand() returns (u: real)
      modifies this
      ensures u == draws(old(drawn)) && drawn == old(drawn) + 1
    {
      u := draws(drawn);
      drawn := drawn + 1;
    }
  }

  /** bernoulli(p): draw once and fire when the draw is below p. */
  method Bernoulli(p: real, rng: RandomSource) returns (b: bool)
    modifies rng
    ensures rng.drawn == old(rng.drawn) + 1
    ensures b == Fires(p, rng.draws(old(rng.drawn)))
  {
    var u := rng.Rand();
    b := u < p;
  }
}
