// read_world as a parser over the lines of a grid file. A grid file has three
// parts separated by blank lines: one line per door whose first field says
// whether the door starts open, then the grid itself, then anything (ignored).
// In a grid line the characters at even columns are cells and those at odd
// columns are walls: a '|' at column x is a door in front of the cell x//2 + 1,
// '.' is nothing, and a square character at column x is a square of cell x//2.
//
// The parser is a fold over the lines (ReadLines) and, inside a grid line,
// over its characters (ReadCells), each step a function of the state read_world
// carries in its local variables. A Python exception stops the fold: the state
// records it and keeps the elements appended before it.

module GridParse {
  import opened Utils
  import opened Elements

  /** The local state of read_world. `added` is what has been appended to
      the world's objects; `last` is the variable newobj. */
  datatype Reader = Reader(
    phase: int,
    doors: seq<bool>,
    doorCount: nat,
    x: int,
    y: int,
    added: seq<Element>,
    last: Option<Element>,
    failed: Option<Error>)

  /** The state before the first line. */
  const START := Reader(1, [], 0, 0, 0, [], None, None)

  /** line.strip('\n') */
  function StripNewlines(s: string): (r: string)
    ensures |r| <= |s|
    ensures r != [] ==> r[0] != '\n' && r[|r| - 1] != '\n'
    ensures (forall i | 0 <= i < |s| :: s[i] != '\n') ==> r == s
    decreases |s|
  {
    if s == [] then s
    else if s[0] == '\n' then StripNewlines(s[1..])
    else if s[|s| - 1] == '\n' then StripNewlines(s[..|s| - 1])
    else s
  }

  /** The ASCII characters Python's int() skips around a number. */
  predicate IsSpace(c: char) {
    c == ' ' || c == '\t' || c == '\n' || c == '\r' || c == '\U{000B}' || c == '\U{000C}'
    || c == '\U{001C}' || c == '\U{001D}' || c == '\U{001E}' || c == '\U{001F}'
  }

  function StripSpaces(s: string): (r: string)
    ensures |r| <= |s|
    ensures r != [] ==> !IsSpace(r[0]) && !IsSpace(r[|r| - 1])
    decreases |s|
  {
    if s == [] then s
    else if IsSpace(s[0]) then StripSpaces(s[1..])
    else if IsSpace(s[|s| - 1]) then StripSpaces(s[..|s| - 1])
    else s
  }

  predicate IsDigit(c: char) { '0' <= c <= '9' }

  /** The value of a string of decimal digits. */
  function DigitsValue(s: string): (v: nat)
    requires forall i | 0 <= i < |s| :: IsDigit(s[i])
    decreases |s|
  {
    if s == [] then 0
    else assert IsDigit(s[|s| - 1]); 10 * DigitsValue(s[..|s| - 1]) + (s[|s| - 1] as int - '0' as int)
  }

  /** int(s) for an ASCII decimal literal: surrounding white space, an
      optional sign and at least one digit; None where int() raises. */
  function ParseInt(s: string): (r: Option<int>)
    ensures r.Some? ==> StripSpaces(s) != []
  {
    var t := StripSpaces(s);
    var sign := if t != [] && t[0] == '-' then -1 else 1;
    var digits := if t != [] && (t[0] == '-' || t[0] == '+') then t[1..] else t;
    if AllDigits(digits)
    then Some(sign * DigitsValue(digits))
    else None
  }

  /** line.split(' ')[0]: the text before the first space. */
  function FirstField(line: string): (r: string)
    ensures r <= line && ' ' !in r
    ensures |r| < |line| ==> line[|r|] == ' '
  {
    if line == [] || line[0] == ' ' then [] else [line[0]] + FirstField(line[1..])
  }

  /** A door-property line: whether the door starts open, or the ValueError
      int() raises. */
  function DoorLine(line: string): (r: Result<bool>)
    ensures r.Err? <==> ParseInt(FirstField(line)).None?
    ensures r.Ok? ==> (r.value <==> ParseInt(FirstField(line)) == Some(1))
  {
    match ParseInt(FirstField(line))
    case None => Err(BadDoorLine)
    case Some(v) => Ok(v == 1)
  }

  /** The first i and the last |s| - j characters of s are all newlines. */
  predicate NewlinesAround(s: string, i: int, j: int) {
    && 0 <= i <= j <= |s|
    && (forall k | 0 <= k < i :: s[k] == '\n')
    && (forall k | j <= k < |s| :: s[k] == '\n')
  }

  /** The first i and the last |s| - j characters of s are all white space. */
  predicate SpacesAround(s: string, i: int, j: int) {
    && 0 <= i <= j <= |s|
    && (forall k | 0 <= k < i :: IsSpace(s[k]))
    && (forall k | j <= k < |s| :: IsSpace(s[k]))
  }

  /** A leading newline widens the margin before the slice by one. */
  lemma NewlinesAroundFront(s: string, i: int, j: int)
    requires s != [] && s[0] == '\n' && NewlinesAround(s[1..], i, j)
    ensures NewlinesAround(s, i + 1, j + 1) && s[1..][i..j] == s[i + 1..j + 1]
  {
  }

  /** A trailing newline widens the margin after the slice by one. */
  lemma NewlinesAroundBack(s: string, i: int, j: int)
    requires s != [] && s[|s| - 1] == '\n' && NewlinesAround(s[..|s| - 1], i, j)
    ensures NewlinesAround(s, i, j) && s[..|s| - 1][i..j] == s[i..j]
  {
  }

  /** line.strip('\n') removes newlines from both ends and nothing else:
      what it keeps is a slice of the line with only newlines around it,
      and (by the contract of StripNewlines) neither end of that slice is a
      newline, which makes the slice the longest such one. */
  lemma {:induction false} StripNewlinesTrims(s: string)
    ensures exists i, j | 0 <= i <= j <= |s| :: NewlinesAround(s, i, j) && StripNewlines(s) == s[i..j]
    decreases |s|
  {
    if s == [] {
      assert NewlinesAround(s, 0, 0) && StripNewlines(s) == s[0..0];
    } else if s[0] == '\n' {
      StripNewlinesTrims(s[1..]);
      var i, j :| 0 <= i <= j <= |s[1..]| && NewlinesAround(s[1..], i, j) && StripNewlines(s[1..]) == s[1..][i..j];
      NewlinesAroundFront(s, i, j);
      assert StripNewlines(s) == s[i + 1..j + 1];
    } else if s[|s| - 1] == '\n' {
      StripNewlinesTrims(s[..|s| - 1]);
      var i, j :| 0 <= i <= j <= |s[..|s| - 1]| && NewlinesAround(s[..|s| - 1], i, j) &&
        StripNewlines(s[..|s| - 1]) == s[..|s| - 1][i..j];
      NewlinesAroundBack(s, i, j);
      assert StripNewlines(s) == s[i..j];
    } else {
      assert NewlinesAround(s, 0, |s|) && StripNewlines(s) == s[0..|s|];
    }
  }

  predicate AllDigits(s: string) {
    s != [] && forall i | 0 <= i < |s| :: IsDigit(s[i])
  }

  /** A decimal integer literal as int() accepts it once the white space
      around it is gone: an optional sign and at least one digit, denoting
      v. */
  predicate Literal(t: string, v: int) {
    || (AllDigits(t) && v == DigitsValue(t))
    || (t != [] && t[0] == '+' && AllDigits(t[1..]) && v == DigitsValue(t[1..]))
    || (t != [] && t[0] == '-' && AllDigits(t[1..]) && v == -(DigitsValue(t[1..]) as int))
  }

  /** Stripping white space from a string that is white space around a core
      whose ends are not white space yields that core. */
  lemma {:induction false} StripSpacesOf(s: string, i: nat, j: nat)
    requires i < j <= |s| && SpacesAround(s, i, j)
    requires !IsSpace(s[i]) && !IsSpace(s[j - 1])
    ensures StripSpaces(s) == s[i..j]
    decreases |s|
  {
    if i > 0 {
      var t := s[1..];
      assert t[i - 1..j - 1] == s[i..j];
      assert SpacesAround(t, i - 1, j - 1);
      StripSpacesOf(t, i - 1, j - 1);
    } else if j < |s| {
      var t := s[..|s| - 1];
      assert t[i..j] == s[i..j];
      assert SpacesAround(t, i, j);
      StripSpacesOf(t, i, j);
    } else {
      assert s[i..j] == s;
    }
  }

  /** Leading white space widens the margin before the slice by one. */
  lemma SpacesAroundFront(s: string, i: int, j: int)
    requires s != [] && IsSpace(s[0]) && SpacesAround(s[1..], i, j)
    ensures SpacesAround(s, i + 1, j + 1) && s[1..][i..j] == s[i + 1..j + 1]
  {
  }

  /** Trailing white space widens the margin after the slice by one. */
  lemma SpacesAroundBack(s: string, i: int, j: int)
    requires s != [] && IsSpace(s[|s| - 1]) && SpacesAround(s[..|s| - 1], i, j)
    ensures SpacesAround(s, i, j) && s[..|s| - 1][i..j] == s[i..j]
  {
  }

  /** What StripSpaces keeps is a slice of s with only white space around it. */
  lemma {:induction false} StripSpacesTrims(s: string)
    ensures exists i, j | 0 <= i <= j <= |s| :: SpacesAround(s, i, j) && StripSpaces(s) == s[i..j]
    decreases |s|
  {
    if s == [] {
      assert SpacesAround(s, 0, 0) && StripSpaces(s) == s[0..0];
    } else if IsSpace(s[0]) {
      StripSpacesTrims(s[1..]);
      var i, j :| 0 <= i <= j <= |s[1..]| && SpacesAround(s[1..], i, j) && StripSpaces(s[1..]) == s[1..][i..j];
      SpacesAroundFront(s, i, j);
      assert StripSpaces(s) == s[i + 1..j + 1];
    } else if IsSpace(s[|s| - 1]) {
      StripSpacesTrims(s[..|s| - 1]);
      var i, j :| 0 <= i <= j <= |s[..|s| - 1]| && SpacesAround(s[..|s| - 1], i, j) &&
        StripSpaces(s[..|s| - 1]) == s[..|s| - 1][i..j];
      SpacesAroundBack(s, i, j);
      assert StripSpaces(s) == s[i..j];
    } else {
      assert SpacesAround(s, 0, |s|) && StripSpaces(s) == s[0..|s|];
    }
  }

  /** What int(s) accepts is a literal with white space around it. */
  lemma ParseIntSound(s: string)
    requires ParseInt(s).Some?
    ensures exists i, j | 0 <= i <= j <= |s| :: SpacesAround(s, i, j) && Literal(s[i..j], ParseInt(s).value)
  {
    StripSpacesTrims(s);
    var i, j :| 0 <= i <= j <= |s| && SpacesAround(s, i, j) && StripSpaces(s) == s[i..j];
    var t := s[i..j];
    if t[0] == '-' || t[0] == '+' {
      assert AllDigits(t[1..]);
    } else {
      assert AllDigits(t);
    }
    assert Literal(t, ParseInt(s).value);
  }

  /** A literal with white space around it is accepted, with its value. */
  lemma ParseIntComplete(s: string, i: nat, j: nat, v: int)
    requires i <= j <= |s| && SpacesAround(s, i, j) && Literal(s[i..j], v)
    ensures ParseInt(s) == Some(v)
  {
    var t := s[i..j];
    assert t != [] && !IsSpace(t[0]) && !IsSpace(t[|t| - 1]) by {
      if t[0] == '+' || t[0] == '-' {
        assert IsDigit(t[1..][|t| - 2]);
      } else {
        assert IsDigit(t[0]) && IsDigit(t[|t| - 1]);
      }
    }
    StripSpacesOf(s, i, j);
  }

  /** int(s) succeeds exactly on a decimal literal with white space around
      it, and then yields the literal's value. */
  lemma ParseIntMeaning(s: string)
    ensures ParseInt(s).Some? ==>
      exists i, j | 0 <= i <= j <= |s| :: SpacesAround(s, i, j) && Literal(s[i..j], ParseInt(s).value)
    ensures forall i, j, v | 0 <= i <= j <= |s| && SpacesAround(s, i, j) && Literal(s[i..j], v) ::
      ParseInt(s) == Some(v)
  {
    if ParseInt(s).Some? {
      ParseIntSound(s);
    }
    forall i, j, v | 0 <= i <= j <= |s| && SpacesAround(s, i, j) && Literal(s[i..j], v)
      ensures ParseInt(s) == Some(v)
    {
      ParseIntComplete(s, i, j, v);
    }
  }

  /** f is an integer literal denoting v, with white space around it. */
  ghost predicate DenotesLiteral(f: string, v: int) {
    exists i, j | 0 <= i <= j <= |f| :: SpacesAround(f, i, j) && Literal(f[i..j], v)
  }

  /** No slice of f between white-space margins is an integer literal. */
  ghost predicate NoLiteral(f: string) {
    forall i, j, v | 0 <= i <= j <= |f| :: !(SpacesAround(f, i, j) && Literal(f[i..j], v))
  }

  /** A first field parses to 1 exactly when it is a literal denoting 1. */
  lemma ParsesToOne(f: string)
    ensures ParseInt(f) == Some(1) <==> DenotesLiteral(f, 1)
  {
    if ParseInt(f) == Some(1) {
      ParseIntSound(f);
    } else {
      forall i, j | 0 <= i <= j <= |f|
        ensures !(SpacesAround(f, i, j) && Literal(f[i..j], 1))
      {
        if SpacesAround(f, i, j) && Literal(f[i..j], 1) {
          ParseIntComplete(f, i, j, 1);
        }
      }
    }
  }

  /** A first field fails to parse exactly when it is no literal at all. */
  lemma ParseFails(f: string)
    ensures ParseInt(f).None? <==> NoLiteral(f)
  {
    if ParseInt(f).Some? {
      ParseIntSound(f);
    } else {
      forall i, j, v | 0 <= i <= j <= |f|
        ensures !(SpacesAround(f, i, j) && Literal(f[i..j], v))
      {
        if SpacesAround(f, i, j) && Literal(f[i..j], v) {
          ParseIntComplete(f, i, j, v);
        }
      }
    }
  }

  /** A door line says the door starts open exactly when its first field is
      a literal denoting 1, and raises exactly when the first field is no
      literal at all. */
  lemma DoorLineMeaning(line: string)
    ensures DoorLine(line) == Ok(true) <==> DenotesLiteral(FirstField(line), 1)
    ensures DoorLine(line).Err? <==> NoLiteral(FirstField(line))
  {
    ParsesToOne(FirstField(line));
    ParseFails(FirstField(line));
  }

  /** The body of the character loop at column x of the current grid line. */
  function ReadCell(r: Reader, probDoor: real, x: nat, c: char): Reader {
    if r.failed.Some? then r
    else if c == '.' then r.(x := x)
    else if c == DOOR_REP then
      if r.doorCount < |r.doors| then
        var open := r.doors[r.doorCount];
        var d := Door(Vec(x / 2 + 1, r.y), probDoor, open, open);
        r.(x := x, doorCount := r.doorCount + 1, added := r.added + [d], last := Some(d))
      else r.(x := x, failed := Some(MissingDoorProps))
    else if IsSquareRep(c) then
      var s := Square(KindOfRep(c), Vec(x / 2, r.y));
      r.(x := x, added := r.added + [s], last := Some(s))
    else match r.last
      case Some(o) => r.(x := x, added := r.added + [o])
      case None => r.(x := x, failed := Some(NoObjectYet))
  }

  /** The character loop over a prefix of a grid line. */
  function ReadCells(r: Reader, probDoor: real, row: string): Reader
    decreases |row|
  {
    if row == [] then r
    else ReadCell(ReadCells(r, probDoor, row[..|row| - 1]), probDoor, |row| - 1, row[|row| - 1])
  }

  /** The body of the line loop. */
  function ReadLine(r: Reader, probDoor: real, raw: string): Reader {
    var line := StripNewlines(raw);
    if r.failed.Some? then r
    else if line == "" then r.(phase := r.phase + 1)
    else if r.phase == 1 then
      match DoorLine(line)
      case Ok(open) => r.(doors := r.doors + [open])
      case Err(e) => r.(failed := Some(e))
    else if r.phase == 2 then
      var r' := ReadCells(r, probDoor, line);
      if r'.failed.Some? then r' else r'.(y := r'.y + 1)
    else r
  }

  /** ReadCells unrolled by one character. */
  lemma ReadCellsNext(r: Reader, probDoor: real, row: string, j: nat)
    requires j < |row|
    ensures ReadCells(r, probDoor, row[..j + 1]) == ReadCell(ReadCells(r, probDoor, row[..j]), probDoor, j, row[j])
  {
    assert row[..j + 1][..j] == row[..j];
  }

  /** The line loop over a prefix of the file. */
  function ReadLines(probDoor: real, lines: seq<string>): Reader
    decreases |lines|
  {
    if lines == [] then START
    else ReadLine(ReadLines(probDoor, lines[..|lines| - 1]), probDoor, lines[|lines| - 1])
  }

  /** ReadLines unrolled by one line. */
  lemma ReadLinesNext(probDoor: real, lines: seq<string>, i: nat)
    requires i < |lines|
    ensures ReadLines(probDoor, lines[..i + 1]) == ReadLine(ReadLines(probDoor, lines[..i]), probDoor, lines[i])
  {
    assert lines[..i + 1][..i] == lines[..i];
  }

  // ---------------------------------------------------------------------
  // The file described without the fold: its blank lines, its door lines
  // and its grid rows, and what each character of a grid row stands for.

  predicate Blank(raw: string) {
    StripNewlines(raw) == ""
  }

  /** 1 + the number of blank lines. */
  function PhaseAfter(lines: seq<string>): (n: int)
    ensures n >= 1
    decreases |lines|
  {
    if lines == [] then 1
    else PhaseAfter(lines[..|lines| - 1]) + (if Blank(lines[|lines| - 1]) then 1 else 0)
  }

  /** The lines before the first blank line, stripped. */
  function DoorLines(lines: seq<string>): seq<string>
    decreases |lines|
  {
    if lines == [] then []
    else
      var init := lines[..|lines| - 1];
      DoorLines(init) + (if PhaseAfter(init) == 1 && !Blank(lines[|lines| - 1])
                         then [StripNewlines(lines[|lines| - 1])] else [])
  }

  /** The non-blank lines between the first and the second blank line,
      stripped. */
  function GridRows(lines: seq<string>): seq<string>
    decreases |lines|
  {
    if lines == [] then []
    else
      var init := lines[..|lines| - 1];
      GridRows(init) + (if PhaseAfter(init) == 2 && !Blank(lines[|lines| - 1])
                        then [StripNewlines(lines[|lines| - 1])] else [])
  }

  /** The number of occurrences of c in s. */
  function Count(c: char, s: string): nat
    decreases |s|
  {
    if s == [] then 0 else Count(c, s[..|s| - 1]) + (if s[|s| - 1] == c then 1 else 0)
  }

  /** The number of characters of s other than '.'. */
  function Kept(s: string): nat
    decreases |s|
  {
    if s == [] then 0 else Kept(s[..|s| - 1]) + (if s[|s| - 1] != '.' then 1 else 0)
  }

  function SumDoors(rows: seq<string>): nat
    decreases |rows|
  {
    if rows == [] then 0 else SumDoors(rows[..|rows| - 1]) + Count(DOOR_REP, rows[|rows| - 1])
  }

  function SumKept(rows: seq<string>): nat
    decreases |rows|
  {
    if rows == [] then 0 else SumKept(rows[..|rows| - 1]) + Kept(rows[|rows| - 1])
  }

  /** newobj is the element appended last, if any. */
  ghost predicate LastIsNewest(r: Reader) {
    r.last == (if r.added == [] then None else Some(r.added[|r.added| - 1]))
  }

  /** Every door read so far has prob_door as its probability and starts in
      the state reset restores, and every element lies on a row already
      read. */
  ghost predicate WellPlaced(r: Reader, probDoor: real) {
    0 <= r.y &&
    forall e | e in r.added ::
      && 0 <= e.location.y <= r.y
      && (e.Door? ==> e.prob == probDoor && e.isOpen == e.isOpenOriginal)
  }

  /** Once read_world has raised, nothing more happens. */
  lemma {:induction false} ReadCellsFailed(r: Reader, probDoor: real, row: string)
    requires r.failed.Some?
    ensures ReadCells(r, probDoor, row) == r
    decreases |row|
  {
    if row != [] {
      ReadCellsFailed(r, probDoor, row[..|row| - 1]);
    }
  }

  /** A grid line read without raising leaves the phase, the door
      properties and the row unchanged, places one door per '|' and one
      element per character other than '.', and leaves x at the last
      column. */
  lemma {:induction false} ReadCellsCounts(r: Reader, probDoor: real, row: string)
    requires r.failed.None? && r.doorCount <= |r.doors| && LastIsNewest(r) && WellPlaced(r, probDoor)
    requires ReadCells(r, probDoor, row).failed.None?
    ensures var r' := ReadCells(r, probDoor, row);
      && r'.phase == r.phase && r'.doors == r.doors && r'.y == r.y
      && r'.doorCount == r.doorCount + Count(DOOR_REP, row) <= |r.doors|
      && |r'.added| == |r.added| + Kept(row) && r'.added[..|r.added|] == r.added
      && r'.x == (if row == [] then r.x else |row| - 1)
      && LastIsNewest(r') && WellPlaced(r', probDoor)
    decreases |row|
  {
    if row != [] {
      ReadCellsCounts(r, probDoor, row[..|row| - 1]);
      CellCounts(r, probDoor, row, ReadCells(r, probDoor, row[..|row| - 1]));
    }
  }

  /** The step of ReadCellsCounts: the last character of the row, read from
      the reader the characters before it left. */
  lemma CellCounts(r: Reader, probDoor: real, row: string, before: Reader)
    requires row != []
    requires before.failed.None? && LastIsNewest(before) && WellPlaced(before, probDoor)
    requires before.phase == r.phase && before.doors == r.doors && before.y == r.y
    requires before.doorCount == r.doorCount + Count(DOOR_REP, row[..|row| - 1]) <= |r.doors|
    requires |before.added| == |r.added| + Kept(row[..|row| - 1]) && before.added[..|r.added|] == r.added
    requires ReadCell(before, probDoor, |row| - 1, row[|row| - 1]).failed.None?
    ensures var r' := ReadCell(before, probDoor, |row| - 1, row[|row| - 1]);
      && r'.phase == r.phase && r'.doors == r.doors && r'.y == r.y
      && r'.doorCount == r.doorCount + Count(DOOR_REP, row) <= |r.doors|
      && |r'.added| == |r.added| + Kept(row) && r'.added[..|r.added|] == r.added
      && r'.x == |row| - 1
      && LastIsNewest(r') && WellPlaced(r', probDoor)
  {
    var r' := ReadCell(before, probDoor, |row| - 1, row[|row| - 1]);
    ReadCellKeeps(before, probDoor, |row| - 1, row[|row| - 1]);
    assert r'.added[..|r.added|] == before.added[..|r.added|];
  }

  /** One character keeps the invariants of the character loop. */
  lemma ReadCellKeeps(r: Reader, probDoor: real, x: nat, c: char)
    requires r.failed.None? && LastIsNewest(r) && WellPlaced(r, probDoor)
    requires ReadCell(r, probDoor, x, c).failed.None?
    ensures var r' := ReadCell(r, probDoor, x, c);
      && LastIsNewest(r') && WellPlaced(r', probDoor)
      && r'.added == r.added + (if c == '.' then [] else [r'.added[|r'.added| - 1]])
  {
    var r' := ReadCell(r, probDoor, x, c);
    if c != '.' && c != DOOR_REP && !IsSquareRep(c) {
      assert r.last.value in r.added;
    }
    forall e | e in r'.added
      ensures 0 <= e.location.y <= r'.y
      ensures e.Door? ==> e.prob == probDoor && e.isOpen == e.isOpenOriginal
    {
      if e !in r.added {
        assert e == r'.added[|r'.added| - 1];
      }
    }
  }

  /** The element placed for the character at column i of a grid line, in
      the list `added` of the elements appended by the end of the line: a
      '|' is a door one cell to the right of column i // 2 that takes the
      next unused door properties, a square character is that square at
      column i // 2, and any other character other than '.' repeats the
      element placed before it. */
  ghost predicate PlacedAt(r: Reader, probDoor: real, row: string, added: seq<Element>, i: nat)
    requires i < |row|
  {
    var k := |r.added| + Kept(row[..i]);
    && k < |added|
    && (row[i] == DOOR_REP ==>
          var n := r.doorCount + Count(DOOR_REP, row[..i]);
          n < |r.doors| && added[k] == Door(Vec(i / 2 + 1, r.y), probDoor, r.doors[n], r.doors[n]))
    && (IsSquareRep(row[i]) ==> added[k] == Square(KindOfRep(row[i]), Vec(i / 2, r.y)))
    && (row[i] != DOOR_REP && !IsSquareRep(row[i]) ==> k > 0 && added[k] == added[k - 1])
  }

  /** The last character of a grid line is placed as PlacedAt says. */
  lemma PlacedLast(r: Reader, probDoor: real, row: string)
    requires r.failed.None? && r.doorCount <= |r.doors| && LastIsNewest(r) && WellPlaced(r, probDoor)
    requires ReadCells(r, probDoor, row).failed.None?
    requires row != [] && row[|row| - 1] != '.'
    ensures PlacedAt(r, probDoor, row, ReadCells(r, probDoor, row).added, |row| - 1)
  {
    var x := |row| - 1;
    var before := ReadCells(r, probDoor, row[..x]);
    ReadCellsCounts(r, probDoor, row[..x]);
    ReadCellsNext(r, probDoor, row, x);
    assert row[..x + 1] == row;
    PlacedByCell(r, probDoor, row, before);
  }

  /** The character read last, from the reader left by the ones before it. */
  lemma PlacedByCell(r: Reader, probDoor: real, row: string, before: Reader)
    requires row != [] && row[|row| - 1] != '.'
    requires before.failed.None? && LastIsNewest(before) && before.y == r.y && before.doors == r.doors
    requires |before.added| == |r.added| + Kept(row[..|row| - 1])
    requires before.doorCount == r.doorCount + Count(DOOR_REP, row[..|row| - 1])
    requires ReadCell(before, probDoor, |row| - 1, row[|row| - 1]).failed.None?
    ensures PlacedAt(r, probDoor, row, ReadCell(before, probDoor, |row| - 1, row[|row| - 1]).added, |row| - 1)
  {
    var x := |row| - 1;
    var after := ReadCell(before, probDoor, x, row[x]);
    if row[x] == DOOR_REP {
      var open := r.doors[before.doorCount];
      assert after.added == before.added + [Door(Vec(x / 2 + 1, r.y), probDoor, open, open)];
    } else if IsSquareRep(row[x]) {
      assert after.added == before.added + [Square(KindOfRep(row[x]), Vec(x / 2, r.y))];
    } else {
      assert after.added == before.added + [before.added[|before.added| - 1]];
    }
  }

  /** Later characters do not move what earlier ones placed. */
  lemma PlacedExtend(r: Reader, probDoor: real, row: string, added: seq<Element>, added': seq<Element>, i: nat)
    requires row != [] && i < |row| - 1
    requires PlacedAt(r, probDoor, row[..|row| - 1], added, i)
    requires |added| <= |added'| && added'[..|added|] == added
    ensures PlacedAt(r, probDoor, row, added', i)
  {
    var init := row[..|row| - 1];
    assert init[..i] == row[..i] && init[i] == row[i];
    var k := |r.added| + Kept(row[..i]);
    assert added'[k] == added[k];
    if k > 0 {
      assert added'[k - 1] == added[k - 1];
    }
  }

  /** Every character of a grid line read without raising, other than '.',
      is placed as PlacedAt says. */
  lemma {:induction false} ReadCellsPlacement(r: Reader, probDoor: real, row: string, i: nat)
    requires r.failed.None? && r.doorCount <= |r.doors| && LastIsNewest(r) && WellPlaced(r, probDoor)
    requires ReadCells(r, probDoor, row).failed.None?
    requires i < |row| && row[i] != '.'
    ensures PlacedAt(r, probDoor, row, ReadCells(r, probDoor, row).added, i)
    decreases |row|
  {
    if i == |row| - 1 {
      PlacedLast(r, probDoor, row);
    } else {
      var init := row[..|row| - 1];
      var before := ReadCells(r, probDoor, init);
      assert init[i] == row[i];
      ReadCellsPlacement(r, probDoor, init, i);
      ReadCellsCounts(r, probDoor, init);
      ReadCellKeeps(before, probDoor, |row| - 1, row[|row| - 1]);
      var after := ReadCells(r, probDoor, row).added;
      assert after[..|before.added|] == before.added;
      PlacedExtend(r, probDoor, row, before.added, after, i);
    }
  }

  /** What the lines read so far amount to, when read_world has not raised:
      the phase counts the blank lines, the door properties are those of the
      door lines in order, one row per grid line, one door per '|' and one
      element per character other than '.' in the grid lines, and x is the
      last column of the last grid line. */
  ghost predicate Summarizes(r: Reader, probDoor: real, lines: seq<string>) {
    && r.failed.None?
    && r.phase == PhaseAfter(lines)
    && |r.doors| == |DoorLines(lines)|
    && (forall k | 0 <= k < |r.doors| :: DoorLine(DoorLines(lines)[k]) == Ok(r.doors[k]))
    && r.y == |GridRows(lines)|
    && r.doorCount == SumDoors(GridRows(lines)) <= |r.doors|
    && |r.added| == SumKept(GridRows(lines))
    && r.x == (if GridRows(lines) == [] then 0 else |GridRows(lines)[|GridRows(lines)| - 1]| - 1)
    && LastIsNewest(r) && WellPlaced(r, probDoor)
  }

  /** The reference descriptions unrolled by one line. */
  lemma Unroll(lines: seq<string>, raw: string)
    ensures var all := lines + [raw];
      && all[..|lines|] == lines && all[|lines|] == raw
      && PhaseAfter(all) == PhaseAfter(lines) + (if Blank(raw) then 1 else 0)
      && DoorLines(all) == DoorLines(lines) + (if PhaseAfter(lines) == 1 && !Blank(raw) then [StripNewlines(raw)] else [])
      && GridRows(all) == GridRows(lines) + (if PhaseAfter(lines) == 2 && !Blank(raw) then [StripNewlines(raw)] else [])
  {
    var all := lines + [raw];
    assert all[..|lines|] == lines;
  }

  /** Moving on to the next row keeps every element placed on or above it. */
  lemma NextRowKeeps(r: Reader, probDoor: real)
    requires LastIsNewest(r) && WellPlaced(r, probDoor)
    ensures LastIsNewest(r.(y := r.y + 1)) && WellPlaced(r.(y := r.y + 1), probDoor)
  {
  }

  /** A grid line keeps the summary. */
  lemma GridLineStep(r: Reader, probDoor: real, lines: seq<string>, raw: string)
    requires Summarizes(r, probDoor, lines) && r.phase == 2 && !Blank(raw)
    requires ReadLine(r, probDoor, raw).failed.None?
    ensures Summarizes(ReadLine(r, probDoor, raw), probDoor, lines + [raw])
  {
    var line := StripNewlines(raw);
    var r1 := ReadCells(r, probDoor, line);
    ReadCellsCounts(r, probDoor, line);
    Unroll(lines, raw);
    var rows := GridRows(lines + [raw]);
    assert rows == GridRows(lines) + [line];
    assert rows[..|rows| - 1] == GridRows(lines) && rows[|rows| - 1] == line;
    assert SumDoors(rows) == SumDoors(GridRows(lines)) + Count(DOOR_REP, line);
    assert SumKept(rows) == SumKept(GridRows(lines)) + Kept(line);
    assert ReadLine(r, probDoor, raw) == r1.(y := r1.y + 1);
    NextRowKeeps(r1, probDoor);
    assert DoorLines(lines + [raw]) == DoorLines(lines) && r1.doors == r.doors;
  }

  /** A door line keeps the summary. */
  lemma DoorLineStep(r: Reader, probDoor: real, lines: seq<string>, raw: string)
    requires Summarizes(r, probDoor, lines) && r.phase == 1 && !Blank(raw)
    requires ReadLine(r, probDoor, raw).failed.None?
    ensures Summarizes(ReadLine(r, probDoor, raw), probDoor, lines + [raw])
  {
    Unroll(lines, raw);
    assert GridRows(lines + [raw]) == GridRows(lines);
    var ds := DoorLines(lines + [raw]);
    var r' := ReadLine(r, probDoor, raw);
    forall k | 0 <= k < |ds|
      ensures DoorLine(ds[k]) == Ok(r'.doors[k])
    {
      if k < |ds| - 1 {
        assert ds[k] == DoorLines(lines)[k];
      }
    }
  }

  /** A blank line or a line after the grid keeps the summary. */
  lemma OtherLineStep(r: Reader, probDoor: real, lines: seq<string>, raw: string)
    requires Summarizes(r, probDoor, lines) && (Blank(raw) || r.phase > 2)
    ensures Summarizes(ReadLine(r, probDoor, raw), probDoor, lines + [raw])
  {
    Unroll(lines, raw);
    assert GridRows(lines + [raw]) == GridRows(lines);
    assert DoorLines(lines + [raw]) == DoorLines(lines);
  }

  /** Reading the lines without raising leaves a state that Summarizes
      them. */
  lemma {:induction false} ReadLinesSummary(probDoor: real, lines: seq<string>)
    requires ReadLines(probDoor, lines).failed.None?
    ensures Summarizes(ReadLines(probDoor, lines), probDoor, lines)
    decreases |lines|
  {
    if lines != [] {
      var init := lines[..|lines| - 1];
      var raw := lines[|lines| - 1];
      assert lines == init + [raw];
      var r0 := ReadLines(probDoor, init);
      assert r0.failed.None?;
      ReadLinesSummary(probDoor, init);
      if Blank(raw) || r0.phase > 2 {
        OtherLineStep(r0, probDoor, init, raw);
      } else if r0.phase == 2 {
        GridLineStep(r0, probDoor, init, raw);
      } else {
        DoorLineStep(r0, probDoor, init, raw);
      }
    }
  }

  /** Once a grid line raises, the rest of the line is not read. */
  lemma {:induction false} ReadCellsStop(r: Reader, probDoor: real, row: string, j: nat)
    requires j <= |row| && ReadCells(r, probDoor, row[..j]).failed.Some?
    ensures ReadCells(r, probDoor, row) == ReadCells(r, probDoor, row[..j])
    decreases |row| - j
  {
    if j < |row| {
      assert row[..j + 1][..j] == row[..j];
      ReadCellsStop(r, probDoor, row, j + 1);
    } else {
      assert row[..j] == row;
    }
  }

  /** Once a line raises, the rest of the file is not read. */
  lemma {:induction false} ReadLinesStop(probDoor: real, lines: seq<string>, i: nat)
    requires i <= |lines| && ReadLines(probDoor, lines[..i]).failed.Some?
    ensures ReadLines(probDoor, lines) == ReadLines(probDoor, lines[..i])
    decreases |lines| - i
  {
    if i < |lines| {
      assert lines[..i + 1][..i] == lines[..i];
      ReadLinesStop(probDoor, lines, i + 1);
    } else {
      assert lines[..i] == lines;
    }
  }
}
