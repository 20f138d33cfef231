// The queries a grid world answers about its cells: clamping to the grid, the
// effect of a move, the square and the door at a location, the start and goal
// squares, and whether an action is valid. They only read the grid, so they are
// functions of a Grid value: the width, the height and the list of elements.

module Grids {
  import opened Utils
  import opened Elements

  /** list(filter(p, s)) */
  function Filter<T(!new)>(s: seq<T>, p: T -> bool): (r: seq<T>)
    ensures forall e :: e in r <==> e in s && p(e)
    ensures |r| <= |s|
  {
    if s == [] then [] else (if p(s[0]) then [s[0]] else []) + Filter(s[1..], p)
  }

  /** The first element of s that satisfies p, if any. */
  function First<T(!new)>(s: seq<T>, p: T -> bool): (r: Option<T>)
    ensures r.Some? ==> r.value in s && p(r.value)
    ensures r.None? <==> forall e | e in s :: !p(e)
  {
    var f := Filter(s, p);
    if |f| > 0 then Some(f[0]) else None
  }

  /** First picks the earliest element that satisfies p. */
  lemma {:induction false} FirstIsEarliest<T(!new)>(s: seq<T>, p: T -> bool, i: nat)
    requires i < |s| && p(s[i])
    requires forall j | 0 <= j < i :: !p(s[j])
    ensures First(s, p) == Some(s[i])
  {
    if i > 0 {
      assert !p(s[0]);
      FirstIsEarliest(s[1..], p, i - 1);
      assert Filter(s, p) == Filter(s[1..], p);
    }
  }

  /** s[i] is the earliest element of s that satisfies p. */
  ghost predicate Earliest<T>(s: seq<T>, p: T -> bool, i: int) {
    0 <= i < |s| && p(s[i]) && forall j | 0 <= j < i :: !p(s[j])
  }

  /** Some element of s satisfies p exactly when an earliest one does. */
  lemma {:induction false} EarliestExists<T(!new)>(s: seq<T>, p: T -> bool)
    requires exists e | e in s :: p(e)
    ensures exists i :: Earliest(s, p, i)
  {
    if p(s[0]) {
      assert Earliest(s, p, 0);
    } else {
      var e :| e in s && p(e);
      assert e in s[1..];
      EarliestExists(s[1..], p);
      var i :| Earliest(s[1..], p, i);
      assert forall j | 0 <= j < i + 1 :: !p(s[j]) by {
        forall j | 0 <= j < i + 1
          ensures !p(s[j])
        {
          if j > 0 {
            assert s[j] == s[1..][j - 1];
          }
        }
      }
      assert p(s[i + 1]);
      assert Earliest(s, p, i + 1);
    }
  }

  /** A goal square. */
  predicate IsGoalSquare(e: Element) {
    e.Square? && e.kind == Goal
  }

  /** objs[i] is the earliest goal square of the list. */
  predicate FirstGoal(objs: seq<Element>, i: int) {
    0 <= i < |objs| && IsGoalSquare(objs[i]) && forall k | 0 <= k < i :: !IsGoalSquare(objs[k])
  }

  /** Filtering a list extended by one element. */
  lemma {:induction false} FilterAppend<T(!new)>(s: seq<T>, x: T, p: T -> bool)
    ensures Filter(s + [x], p) == Filter(s, p) + (if p(x) then [x] else [])
  {
    if s != [] {
      assert (s + [x])[1..] == s[1..] + [x];
      FilterAppend(s[1..], x, p);
    }
  }

  function Min(a: int, b: int): int { if a <= b then a else b }
  function Max(a: int, b: int): int { if a >= b then a else b }
  function Abs(a: int): int { if a < 0 then -a else a }

  datatype Grid = Grid(width: int, height: int, objects: seq<Element>) {

    predicate Contains(l: Vec) {
      0 <= l.x < width && 0 <= l.y < height
    }

    /** inbounds: clamp both coordinates into the grid. On a non-empty grid
        the result is the grid point nearest to l in each coordinate. */
    function Inbounds(l: Vec): (r: Vec)
      ensures Contains(l) ==> r == l
      ensures width >= 1 && height >= 1 ==> Contains(r)
    {
      Vec(Min(Max(l.x, 0), width - 1), Min(Max(l.y, 0), height - 1))
    }

    /** On a non-empty grid, clamping yields the cell nearest to l in each
        coordinate. */
    lemma InboundsNearest(l: Vec, p: Vec)
      requires Contains(p)
      ensures Abs(Inbounds(l).x - l.x) <= Abs(p.x - l.x)
      ensures Abs(Inbounds(l).y - l.y) <= Abs(p.y - l.y)
    {
    }

    /** get_new_location: the clamped result of applying an action. */
    function GetNewLocation(l: Vec, action: Vec): (r: Vec)
      ensures Contains(l.Plus(action)) ==> r == l.Plus(action)
      ensures width >= 1 && height >= 1 ==> Contains(r)
    {
      Inbounds(l.Plus(action))
    }

    /** get_gridsquare_at: doors do not count; a square other than Floor
        wins over a Floor square, and the first one listed wins among equals. */
    function GridsquareAt(l: Vec): (r: Option<Element>)
      ensures r.Some? ==> r.value in objects && r.value.Square? && r.value.location == l
    {
      SquareAt(objects, l)
    }

    /** A square at l is found exactly when one is listed, and a Floor square
        only when no other kind of square is listed at l. */
    lemma GridsquareAtSpec(l: Vec)
      ensures GridsquareAt(l).None? <==> forall e | e in objects :: !(e.Square? && e.location == l)
      ensures GridsquareAt(l).Some? && GridsquareAt(l).value.kind == Floor ==>
        forall e | e in objects && e.Square? && e.location == l :: e.kind == Floor
    {
      SquareAtSpec(objects, l);
    }

    /** get_doors */
    function Doors(): (r: seq<Element>)
      ensures forall e :: e in r <==> e in objects && e.Door?
    {
      Filter(objects, IsDoor)
    }

    /** get_door_right_of: the first door at the clamped cell one step to the
        right of l. On the right edge that cell is l itself. */
    function DoorRightOf(l: Vec): (r: Option<Element>)
      ensures r.Some? ==> r.value in objects && r.value.Door? && r.value.location == GetNewLocation(l, RIGHT)
      ensures r.None? <==>
        l.x >= width || forall e | e in objects && e.Door? :: e.location != GetNewLocation(l, RIGHT)
    {
      if l.x < width then
        var right := GetNewLocation(l, RIGHT);
        First(Doors(), (d: Element) => d.location == right)
      else None
    }

    /** get_start_location: where the first start square of the colour the
        path name stands for lies, (0, 0) when there is none. */
    function StartLocation(color: string): (r: Vec)
      ensures (forall e | e in objects :: !IsStartOf(e, color)) ==> r == Vec(0, 0)
      ensures (exists e | e in objects :: IsStartOf(e, color)) ==>
        exists e | e in objects :: IsStartOf(e, color) && e.location == r
    {
      match First(objects, (o: Element) => IsStartOf(o, color))
      case Some(e) => e.location
      case None => Vec(0, 0)
    }

    /** get_start_location names the location of the earliest start square
        of the colour, starts[0] in the source. */
    lemma StartLocationIsFirst(color: string, i: int)
      requires FirstStart(objects, color, i)
      ensures StartLocation(color) == objects[i].location
    {
      FirstIsEarliest(objects, (o: Element) => IsStartOf(o, color), i);
    }

    /** get_goal_location: where the first goal square lies, if any. */
    function GoalLocation(): (r: Option<Vec>)
      ensures r.None? <==> forall e | e in objects :: !(e.Square? && e.kind == Goal)
      ensures r.Some? ==> exists e | e in objects :: e.Square? && e.kind == Goal && e.location == r.value
    {
      match First(objects, IsGoalSquare)
      case Some(e) => Some(e.location)
      case None => None
    }

    /** get_goal_location names the location of the earliest goal square,
        goals[0] in the source. */
    lemma GoalLocationIsFirst(l: Vec)
      ensures GoalLocation() == Some(l) <==> exists i :: FirstGoal(objects, i) && objects[i].location == l
    {
      if GoalLocation() == Some(l) {
        EarliestExists(objects, IsGoalSquare);
        var i :| Earliest(objects, IsGoalSquare, i);
        FirstIsEarliest(objects, IsGoalSquare, i);
        assert FirstGoal(objects, i);
      }
      if exists i :: FirstGoal(objects, i) && objects[i].location == l {
        var i :| FirstGoal(objects, i) && objects[i].location == l;
        FirstIsEarliest(objects, IsGoalSquare, i);
      }
    }

    /** is_valid_action: a move that the clamp swallows is invalid, and so is
        one onto a Blocked square; doors are not consulted. Reading the name
        of a missing square raises. */
    function IsValidAction(l: Vec, action: Vec): (r: Result<bool>)
      ensures action != STAY && GetNewLocation(l, action) == l ==> r == Ok(false)
      ensures r == Ok(true) ==>
        GridsquareAt(GetNewLocation(l, action)).Some? &&
        GridsquareAt(GetNewLocation(l, action)).value.kind != Blocked
      ensures r.Err? ==> r.error == NoSquare(GetNewLocation(l, action)) && GridsquareAt(r.error.at).None?
      ensures r.Err? <==>
        !(action != STAY && GetNewLocation(l, action) == l) && GridsquareAt(GetNewLocation(l, action)).None?
      ensures r == Ok(true) <==>
        && !(action != STAY && GetNewLocation(l, action) == l)
        && GridsquareAt(GetNewLocation(l, action)).Some?
        && GridsquareAt(GetNewLocation(l, action)).value.kind != Blocked
    {
      var next := GetNewLocation(l, action);
      if action != STAY && l == next then Ok(false)
      else match GridsquareAt(next)
        case None => Err(NoSquare(next))
        case Some(square) => Ok(square.kind != Blocked)
    }

    /** get_all_locations: the cells of the grid, column by column. */
    function AllLocations(): (r: seq<Vec>)
      ensures forall l :: l in r <==> Contains(l)
    {
      Locations(width, height)
    }

    /** get_all_locations lists the cells in strictly increasing column
        order, so each cell appears once. */
    lemma AllLocationsSorted()
      ensures forall i, j | 0 <= i < j < |AllLocations()| :: XMajorBefore(AllLocations()[i], AllLocations()[j])
    {
    }

    /** A cell with a square that is not Blocked. */
    predicate Open(l: Vec) {
      GridsquareAt(l).Some? && GridsquareAt(l).value.kind != Blocked
    }
  }

  /** The scan get_gridsquare_at performs, one element at a time: the first
      square at l other than Floor, else the first Floor square at l. */
  function SquareAt(objs: seq<Element>, l: Vec): (r: Option<Element>)
    ensures r.Some? ==> r.value in objs && r.value.Square? && r.value.location == l
  {
    if objs == [] then None
    else
      var rest := SquareAt(objs[1..], l);
      var o := objs[0];
      if o.Square? && o.location == l && (o.kind != Floor || rest.None? || rest.value.kind == Floor)
      then Some(o) else rest
  }

  lemma {:induction false} SquareAtSpec(objs: seq<Element>, l: Vec)
    ensures SquareAt(objs, l).None? <==> forall e | e in objs :: !(e.Square? && e.location == l)
    ensures SquareAt(objs, l).Some? && SquareAt(objs, l).value.kind == Floor ==>
      forall e | e in objs && e.Square? && e.location == l :: e.kind == Floor
  {
    if objs != [] {
      SquareAtSpec(objs[1..], l);
      assert forall e | e in objs :: e == objs[0] || e in objs[1..];
    }
  }

  /** get_gridsquare_at as the source writes it: filter the squares at l,
      filter those that are not Floor, and take the first of either. */
  function FilteredSquareAt(objs: seq<Element>, l: Vec): Option<Element> {
    var squares := Filter(objs, (o: Element) => o.Square? && o.location == l);
    var notFloors := Filter(squares, (o: Element) => !(o.Square? && o.kind == Floor));
    if |notFloors| > 0 then Some(notFloors[0])
    else if |squares| > 0 then Some(squares[0])
    else None
  }

  /** The scan and the two filters pick the same square. */
  lemma {:induction false} SquareAtIsFiltered(objs: seq<Element>, l: Vec)
    ensures SquareAt(objs, l) == FilteredSquareAt(objs, l)
  {
    if objs != [] {
      SquareAtIsFiltered(objs[1..], l);
      var o := objs[0];
      var p := (o: Element) => o.Square? && o.location == l;
      var q := (o: Element) => !(o.Square? && o.kind == Floor);
      var rest := Filter(objs[1..], p);
      if p(o) {
        assert Filter(objs, p) == [o] + rest;
        assert ([o] + rest)[1..] == rest;
        assert Filter([o] + rest, q) == (if q(o) then [o] else []) + Filter(rest, q);
      } else {
        assert Filter(objs, p) == rest;
      }
    }
  }

  /** Two lists that agree on which positions p accepts, and on the elements
      there, filter to the same list. */
  lemma {:induction false} FilterAgrees<T(!new)>(a: seq<T>, b: seq<T>, p: T -> bool)
    requires |a| == |b|
    requires forall i | 0 <= i < |a| :: p(a[i]) == p(b[i]) && (p(a[i]) ==> a[i] == b[i])
    ensures Filter(a, p) == Filter(b, p)
  {
    if a != [] {
      FilterAgrees(a[1..], b[1..], p);
    }
  }

  /** The squares of two lists with the same layout are the same. */
  lemma {:induction false} SquareAtIgnoresDoors(a: seq<Element>, b: seq<Element>, l: Vec)
    requires SameLayout(a, b)
    ensures SquareAt(a, l) == SquareAt(b, l)
  {
    if a != [] {
      LayoutAt(a, b, 0);
      LayoutTail(a, b);
      SquareAtIgnoresDoors(a[1..], b[1..], l);
    }
  }

  /** Positions holding a square hold the same square in both lists. */
  lemma SquaresAgree(a: seq<Element>, b: seq<Element>)
    requires SameLayout(a, b)
    ensures forall i | 0 <= i < |a| :: (a[i].Square? || b[i].Square?) ==> a[i] == b[i]
  {
    forall i | 0 <= i < |a|
      ensures (a[i].Square? || b[i].Square?) ==> a[i] == b[i]
    {
      LayoutAt(a, b, i);
    }
  }

  /** Opening or closing doors moves neither the goal nor the starts. */
  lemma EndsIgnoreDoors(w: int, h: int, a: seq<Element>, b: seq<Element>, color: string)
    requires SameLayout(a, b)
    ensures Grid(w, h, a).GoalLocation() == Grid(w, h, b).GoalLocation()
    ensures Grid(w, h, a).StartLocation(color) == Grid(w, h, b).StartLocation(color)
  {
    SquaresAgree(a, b);
    FilterAgrees(a, b, IsGoalSquare);
    FilterAgrees(a, b, (o: Element) => IsStartOf(o, color));
  }

  /** Opening or closing doors changes neither the square at a cell nor the
      validity of an action. */
  lemma ValidityIgnoresDoors(w: int, h: int, a: seq<Element>, b: seq<Element>, l: Vec, action: Vec)
    requires SameLayout(a, b)
    ensures Grid(w, h, a).IsValidAction(l, action) == Grid(w, h, b).IsValidAction(l, action)
  {
    SquareAtIgnoresDoors(a, b, Grid(w, h, a).GetNewLocation(l, action));
  }

  /** A start square of the colour the path name stands for. */
  predicate IsStartOf(e: Element, color: string) {
    e.Square? && e.kind.Start? && e.kind.color == StrToColor(color)
  }

  /** objs[i] is the earliest start square of the colour. */
  predicate FirstStart(objs: seq<Element>, color: string, i: int) {
    0 <= i < |objs| && IsStartOf(objs[i], color) && forall k | 0 <= k < i :: !IsStartOf(objs[k], color)
  }

  /** The order of get_all_locations: by column, then by row. */
  predicate XMajorBefore(a: Vec, b: Vec) {
    a.x < b.x || (a.x == b.x && a.y < b.y)
  }

  function Column(x: int, h: int): (r: seq<Vec>)
    ensures forall l :: l in r <==> l.x == x && 0 <= l.y < h
    ensures forall i, j | 0 <= i < j < |r| :: XMajorBefore(r[i], r[j])
    decreases h
  {
    if h <= 0 then [] else Column(x, h - 1) + [Vec(x, h - 1)]
  }

  function Locations(w: int, h: int): (r: seq<Vec>)
    ensures forall l :: l in r <==> 0 <= l.x < w && 0 <= l.y < h
    ensures forall i, j | 0 <= i < j < |r| :: XMajorBefore(r[i], r[j])
    decreases w
  {
    if w <= 0 then [] else Locations(w - 1, h) + Column(w - 1, h)
  }
}
