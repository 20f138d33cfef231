// The cells of a grid world and the doors between them: the GridElement and
// Door records and the characters of a grid file that stand for them.

module Elements {
  import opened Utils

  /** The kind of a square. Start squares carry the colour of the path that
      begins there. */
  datatype Kind = Floor | Start(color: Color) | Goal | Blocked

  /** A grid element: a square of some kind, or a door. A door's location is
      the cell to the right of the wall it sits in; `isOpen` is the only field
      that changes while a trial runs, and `isOpenOriginal` is what reset
      restores it to. */
  datatype Element =
    | Square(kind: Kind, location: Vec)
    | Door(location: Vec, prob: real, isOpen: bool, isOpenOriginal: bool)

  /** isinstance(o, Door) */
  predicate IsDoor(e: Element) {
    e.Door?
  }

  /** The characters of a grid file that stand for a square. */
  predicate IsSquareRep(c: char) {
    c == ' ' || c == 'r' || c == 'b' || c == 'g' || c == 'X'
  }

  /** The character a door is written with. */
  const DOOR_REP: char := '|'

  /** rep_to_name with the colour the constructor attaches to a start square:
      'r' starts the red path, 'b' the blue one. */
  function KindOfRep(c: char): (k: Kind)
    requires IsSquareRep(c)
    ensures k.Start? <==> c == 'r' || c == 'b'
    ensures k.Start? ==> (k.color == LightRed <==> c == 'r')
    ensures k == Floor <==> c == ' '
    ensures k == Goal <==> c == 'g'
    ensures k == Blocked <==> c == 'X'
  {
    if c == ' ' then Floor
    else if c == 'r' then Start(LightRed)
    else if c == 'b' then Start(LightBlue)
    else if c == 'g' then Goal
    else Blocked
  }

  /** The element with every door shut: what stays fixed while doors toggle. */
  function Shape(e: Element): Element {
    if e.Door? then e.(isOpen := false) else e
  }

  /** Two object lists that differ at most in which doors are open. */
  predicate SameLayout(a: seq<Element>, b: seq<Element>) {
    Layout(a) == Layout(b)
  }

  /** The shapes of the elements of a list, in order. */
  function Layout(objs: seq<Element>): (r: seq<Element>)
    ensures |r| == |objs|
  {
    seq(|objs|, i requires 0 <= i < |objs| => Shape(objs[i]))
  }

  /** Two lists with the same layout have the same length and agree in
      shape position by position. */
  lemma LayoutAt(a: seq<Element>, b: seq<Element>, i: int)
    requires SameLayout(a, b) && 0 <= i < |a|
    ensures |a| == |b| && Shape(a[i]) == Shape(b[i])
  {
    assert Layout(a)[i] == Layout(b)[i];
  }

  lemma LayoutTail(a: seq<Element>, b: seq<Element>)
    requires SameLayout(a, b) && a != []
    ensures SameLayout(a[1..], b[1..])
  {
    assert Layout(a[1..]) == Layout(a)[1..];
    assert Layout(b[1..]) == Layout(b)[1..];
  }
}
