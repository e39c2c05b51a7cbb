/** The maze walk of day 19 (`day-19/src/main.rs`): starting at the `|`
    in the top row and heading down, the walk goes straight on until it
    reaches a `+` or leaves the path, collecting every letter it passes and
    counting its steps; at a `+` it turns towards the side where the path
    goes on.

    Positions are `usize`s, so moving or peeking to the left of column 0
    or above row 0 panics; the model gives `None` or `Panicked` there.  The
    walk need not end (a path can close on itself), so `run_maze` is
    modelled for at most `fuel` straight runs.
 */
module Day19 {
  import opened Wrappers
  import opened Text

  datatype Direction = Up | Down | Left | Right

  /** `Position`: a column and a row. */
  datatype Position = Position(x: nat, y: nat)

  /** The maze: one row of characters per input line. */
  type Maze = seq<string>

  predicate Vertical(d: Direction) {
    d == Up || d == Down
  }

  predicate Inside(maze: Maze, p: Position) {
    p.y < |maze| && p.x < |maze[p.y]|
  }

  /** `get_tile`: the character at `p`, a space outside the maze. */
  function GetTile(maze: Maze, p: Position): (c: char)
    ensures Inside(maze, p) ==> c == maze[p.y][p.x]
    ensures !Inside(maze, p) ==> c == ' '
  {
    if Inside(maze, p) then maze[p.y][p.x] else ' '
  }

  /** The position one cell on in direction `d`; `None` for the `usize`
      underflow of a step off the top or the left edge. */
  function Next(p: Position, d: Direction): (r: Option<Position>)
    ensures r.None? <==> (d == Up && p.y == 0) || (d == Left && p.x == 0)
    ensures r.Some? && Vertical(d) ==> r.value.x == p.x && r.value.y == (if d == Up then p.y - 1 else p.y + 1)
    ensures r.Some? && !Vertical(d) ==> r.value.y == p.y && r.value.x == (if d == Left then p.x - 1 else p.x + 1)
  {
    match d
    case Up => if p.y == 0 then None else Some(Position(p.x, p.y - 1))
    case Down => Some(Position(p.x, p.y + 1))
    case Left => if p.x == 0 then None else Some(Position(p.x - 1, p.y))
    case Right => Some(Position(p.x + 1, p.y))
  }

  /** A tile a straight run stops on. */
  predicate Stops(c: char) {
    c == ' ' || c == '+'
  }

  /** A tile that is collected: neither path nor corner nor space. */
  predicate IsLetter(c: char) {
    c != '|' && c != '-' && !Stops(c)
  }

  /** The walker's state that `travel` updates through `&mut`: where it is,
      the letters found so far and the steps taken so far. */
  datatype Walker = Walker(position: Position, letters: string, steps: nat)

  /** How far a straight run from `p` can still go before it is bound to
      leave the maze or reach an edge. */
  function Room(maze: Maze, p: Position, d: Direction): nat {
    match d
    case Up => p.y
    case Left => p.x
    case Down => if p.y < |maze| then |maze| - p.y else 0
    case Right => if Inside(maze, p) then |maze[p.y]| - p.x else 0
  }

  /** `travel`: step by step in direction `d`, counting each step and
      collecting letters, until a space or a `+`; `true` when it stopped on
      a `+`.  `None` is the panic of a step off the top or the left edge. */
  function Travel(maze: Maze, w: Walker, d: Direction): Option<(Walker, bool)>
    decreases Room(maze, w.position, d)
  {
    var next := Next(w.position, d);
    if next.None? then None
    else
      var p := next.value;
      var c := GetTile(maze, p);
      if Stops(c) then Some((Walker(p, w.letters, w.steps + 1), c == '+'))
      else
        var letters := if IsLetter(c) then w.letters + [c] else w.letters;
        Travel(maze, Walker(p, letters, w.steps + 1), d)
  }

  // ---------------------------------------------------------------- straight runs

  /** The position `k` cells on in direction `d`, if no step leaves the
      top or the left edge. */
  function Ahead(p: Position, d: Direction, k: nat): Option<Position>
    decreases k
  {
    if k == 0 then Some(p)
    else
      var q := Next(p, d);
      if q.None? then None else Ahead(q.value, d, k - 1)
  }

  /** Whether the tiles 1 to `n` cells on are all on the path without
      being a corner. */
  predicate Clear(maze: Maze, p: Position, d: Direction, n: nat)
    decreases n
  {
    n == 0 ||
    (var q := Next(p, d); q.Some? && !Stops(GetTile(maze, q.value)) && Clear(maze, q.value, d, n - 1))
  }

  /** The letters on the tiles 1 to `n` cells on, in the order passed. */
  function LettersAhead(maze: Maze, p: Position, d: Direction, n: nat): string
    decreases n
  {
    if n == 0 then []
    else
      var q := Next(p, d);
      if q.None? then []
      else
        var c := GetTile(maze, q.value);
        (if IsLetter(c) then [c] else []) + LettersAhead(maze, q.value, d, n - 1)
  }

  /** A straight run from `w` in direction `d` that ends as `w'`: it took
      `k >= 1` steps, the `k - 1` tiles it passed are on the path, it
      stopped on the tile `k` cells on, which is a space or a `+`, tells
      whether it was a `+`, and added the letters it passed in order. */
  predicate RunShape(maze: Maze, w: Walker, d: Direction, w': Walker, corner: bool) {
    var k := w'.steps - w.steps;
    w'.steps > w.steps &&
    Clear(maze, w.position, d, k - 1) &&
    Ahead(w.position, d, k) == Some(w'.position) &&
    Stops(GetTile(maze, w'.position)) &&
    (corner <==> GetTile(maze, w'.position) == '+') &&
    w'.letters == w.letters + LettersAhead(maze, w.position, d, k - 1)
  }

  /** Every straight run that does not panic has that shape. */
  lemma {:induction false} TravelShape(maze: Maze, w: Walker, d: Direction)
    requires Travel(maze, w, d).Some?
    ensures RunShape(maze, w, d, Travel(maze, w, d).value.0, Travel(maze, w, d).value.1)
    decreases Room(maze, w.position, d)
  {
    var p := Next(w.position, d).value;
    var c := GetTile(maze, p);
    if !Stops(c) {
      var letters := if IsLetter(c) then w.letters + [c] else w.letters;
      var w1 := Walker(p, letters, w.steps + 1);
      TravelShape(maze, w1, d);
      RunShapeStep(maze, w, d, Travel(maze, w, d).value.0, Travel(maze, w, d).value.1);
    } else {
      assert Ahead(p, d, 0) == Some(p);
    }
  }

  /** One step on the path in front of a run of that shape. */
  lemma RunShapeStep(maze: Maze, w: Walker, d: Direction, w': Walker, corner: bool)
    requires Next(w.position, d).Some? && !Stops(GetTile(maze, Next(w.position, d).value))
    requires var p := Next(w.position, d).value;
      var c := GetTile(maze, p);
      RunShape(maze, Walker(p, if IsLetter(c) then w.letters + [c] else w.letters, w.steps + 1), d, w', corner)
    ensures RunShape(maze, w, d, w', corner)
  {
    var p := Next(w.position, d).value;
    var c := GetTile(maze, p);
    var k := w'.steps - w.steps;
    assert LettersAhead(maze, w.position, d, k - 1) == (if IsLetter(c) then [c] else []) + LettersAhead(maze, p, d, k - 2);
  }

  /** The converse: a run whose first `k - 1` tiles are on the path and
      whose tile `k` cells on is a space or a `+` stops there. */
  lemma {:induction false} TravelTo(maze: Maze, w: Walker, d: Direction, k: nat, q: Position)
    requires k >= 1 && Clear(maze, w.position, d, k - 1) && Ahead(w.position, d, k) == Some(q)
    requires Stops(GetTile(maze, q))
    ensures Travel(maze, w, d) ==
      Some((Walker(q, w.letters + LettersAhead(maze, w.position, d, k - 1), w.steps + k), GetTile(maze, q) == '+'))
    decreases k
  {
    var p := Next(w.position, d).value;
    var c := GetTile(maze, p);
    if k > 1 {
      var letters := if IsLetter(c) then w.letters + [c] else w.letters;
      TravelTo(maze, Walker(p, letters, w.steps + 1), d, k - 1, q);
      assert letters + LettersAhead(maze, p, d, k - 2) == w.letters + LettersAhead(maze, w.position, d, k - 1);
    } else {
      assert Ahead(p, d, 0) == Some(p);
      assert LettersAhead(maze, w.position, d, 0) == [];
      assert w.letters + [] == w.letters;
    }
  }

  // ---------------------------------------------------------------- the walk

  /** The turn at a `+`: a vertical walk turns left when the tile to its
      left is not a space, else right; a horizontal walk turns up when the
      tile above is not a space, else down.  `None` is the panic of the
      peek to the left of column 0 or above row 0. */
  function Turn(maze: Maze, p: Position, d: Direction): (r: Option<Direction>)
    ensures r.None? <==> (Vertical(d) && p.x == 0) || (!Vertical(d) && p.y == 0)
    ensures r.Some? ==> Vertical(r.value) != Vertical(d)
    ensures r.Some? && Vertical(d) ==> (r.value == Left <==> GetTile(maze, Position(p.x - 1, p.y)) != ' ')
    ensures r.Some? && !Vertical(d) ==> (r.value == Up <==> GetTile(maze, Position(p.x, p.y - 1)) != ' ')
  {
    if Vertical(d) then
      if p.x == 0 then None
      else if GetTile(maze, Position(p.x - 1, p.y)) != ' ' then Some(Left) else Some(Right)
    else
      if p.y == 0 then None
      else if GetTile(maze, Position(p.x, p.y - 1)) != ' ' then Some(Up) else Some(Down)
  }

  /** What `run_maze` returns, or its panic, or that `fuel` straight runs
      were not enough. */
  datatype Outcome = Done(letters: string, steps: nat) | Panicked | OutOfFuel

  /** The `while` loop of `run_maze`, at most `fuel` runs: a run that stops
      on a space ends the walk, one that stops on a `+` turns. */
  function Walk(maze: Maze, w: Walker, d: Direction, fuel: nat): Outcome
    decreases fuel
  {
    if fuel == 0 then OutOfFuel
    else
      var run := Travel(maze, w, d);
      if run.None? then Panicked
      else if !run.value.1 then Done(run.value.0.letters, run.value.0.steps)
      else
        var turn := Turn(maze, run.value.0.position, d);
        if turn.None? then Panicked else Walk(maze, run.value.0, turn.value, fuel - 1)
  }

  /** The index of the first `c` in `row`. */
  function FirstIndex(row: string, c: char): (r: Option<nat>)
    ensures r.None? <==> c !in row
    ensures r.Some? ==> r.value < |row| && row[r.value] == c && c !in row[..r.value]
  {
    if row == [] then None
    else if row[0] == c then Some(0)
    else
      var i := FirstIndex(row[1..], c);
      if i.None? then None
      else
        assert row[..i.value + 1] == [row[0]] + row[1..][..i.value];
        Some(i.value + 1)
  }

  /** `run_maze`: the lines of the input are the maze, the walk starts at
      the first `|` of the top row heading down, with no letters and no
      steps.  An empty input or a top row without `|` panics. */
  function RunMazeSpec(input: string, fuel: nat): Outcome {
    var maze := Lines(input);
    if maze == [] then Panicked
    else
      var start := FirstIndex(maze[0], '|');
      if start.None? then Panicked
      else Walk(maze, Walker(Position(start.value, 0), [], 0), Down, fuel)
  }

  /** A finished walk ends on a space, holds the letters of before and
      only letters after them, and took at least one step more. */
  lemma {:induction false} WalkDone(maze: Maze, w: Walker, d: Direction, fuel: nat)
    requires Walk(maze, w, d, fuel).Done?
    ensures var r := Walk(maze, w, d, fuel);
      r.steps > w.steps && |r.letters| >= |w.letters| && r.letters[..|w.letters|] == w.letters &&
      forall i :: |w.letters| <= i < |r.letters| ==> IsLetter(r.letters[i])
    decreases fuel
  {
    var run := Travel(maze, w, d);
    var w' := run.value.0;
    TravelShape(maze, w, d);
    LettersAheadAreLetters(maze, w.position, d, w'.steps - w.steps - 1);
    if run.value.1 {
      var turn := Turn(maze, w'.position, d).value;
      WalkDone(maze, w', turn, fuel - 1);
      var r := Walk(maze, w', turn, fuel - 1);
      assert r.letters[..|w'.letters|][..|w.letters|] == r.letters[..|w.letters|];
      forall i | |w.letters| <= i < |r.letters|
        ensures IsLetter(r.letters[i])
      {
        if i < |w'.letters| {
          assert r.letters[i] == w'.letters[i];
        }
      }
    }
  }

  /** The letters found ahead are letters. */
  lemma {:induction false} LettersAheadAreLetters(maze: Maze, p: Position, d: Direction, n: nat)
    ensures forall i :: 0 <= i < |LettersAhead(maze, p, d, n)| ==> IsLetter(LettersAhead(maze, p, d, n)[i])
    decreases n
  {
    if n > 0 {
      var q := Next(p, d);
      if q.Some? {
        LettersAheadAreLetters(maze, q.value, d, n - 1);
      }
    }
  }

  /** More fuel does not change a walk that ended without running out. */
  lemma {:induction false} WalkMoreFuel(maze: Maze, w: Walker, d: Direction, fuel: nat, more: nat)
    requires Walk(maze, w, d, fuel) != OutOfFuel && fuel <= more
    ensures Walk(maze, w, d, more) == Walk(maze, w, d, fuel)
    decreases fuel
  {
    var run := Travel(maze, w, d);
    if run.Some? && run.value.1 {
      var turn := Turn(maze, run.value.0.position, d);
      if turn.Some? {
        WalkMoreFuel(maze, run.value.0, turn.value, fuel - 1, more - 1);
      }
    }
  }

  // ---------------------------------------------------------------- methods

  /** `travel`: the position, the steps and the found letters updated one
      step at a time. */
  method TravelInPlace(maze: Maze, w0: Walker, direction: Direction) returns (r: Option<(Walker, bool)>)
    ensures r == Travel(maze, w0, direction)
  {
    var position := w0.position;
    var foundLetters := w0.letters;
    var stepsTaken := w0.steps;
    while true
      invariant Travel(maze, w0, direction) == Travel(maze, Walker(position, foundLetters, stepsTaken), direction)
      decreases Room(maze, position, direction)
    {
      match direction {
        case Up =>
          if position.y == 0 {
            return None;
          }
          position := Position(position.x, position.y - 1);
        case Down =>
          position := Position(position.x, position.y + 1);
        case Left =>
          if position.x == 0 {
            return None;
          }
          position := Position(position.x - 1, position.y);
        case Right =>
          position := Position(position.x + 1, position.y);
      }
      stepsTaken := stepsTaken + 1;
      var currentLetter := GetTile(maze, position);
      if currentLetter == ' ' || currentLetter == '+' {
        return Some((Walker(position, foundLetters, stepsTaken), currentLetter == '+'));
      } else if currentLetter != '|' && currentLetter != '-' {
        foundLetters := foundLetters + [currentLetter];
      }
    }
  }

  /** `run_maze`, for at most `fuel` straight runs. */
  method RunMaze(input: string, fuel: nat) returns (r: Outcome)
    ensures r == RunMazeSpec(input, fuel)
  {
    var maze := Lines(input);
    if |maze| == 0 {
      return Panicked;
    }
    var start := FirstIndex(maze[0], '|');
    if start.None? {
      return Panicked;
    }
    var walker := Walker(Position(start.value, 0), [], 0);
    var direction := Down;
    var runs := 0;
    while runs < fuel
      invariant runs <= fuel
      invariant RunMazeSpec(input, fuel) == Walk(maze, walker, direction, fuel - runs)
    {
      var run := TravelInPlace(maze, walker, direction);
      if run.None? {
        return Panicked;
      }
      walker := run.value.0;
      if !run.value.1 {
        return Done(walker.letters, walker.steps);
      }
      var position := walker.position;
      if direction == Down || direction == Up {
        if position.x == 0 {
          return Panicked;
        }
        if GetTile(maze, Position(position.x - 1, position.y)) != ' ' {
          direction := Left;
        } else {
          direction := Right;
        }
      } else {
        if position.y == 0 {
          return Panicked;
        }
        if GetTile(maze, Position(position.x, position.y - 1)) != ' ' {
          direction := Up;
        } else {
          direction := Down;
        }
      }
      runs := runs + 1;
    }
    r := OutOfFuel;
  }

  // ---------------------------------------------------------------- sample

  /** The sample maze of the puzzle, row by row. */
  const SampleMaze: Maze := [
    "     |",
    "     |  +--+",
    "     A  |  C",
    " F---|----E|--+",
    "     |  |  |  D",
    "     +B-+  +--+"
  ]

  /** One step onto a tile on the path: the run goes on from there. */
  lemma TravelOn(maze: Maze, w: Walker, d: Direction, p: Position)
    requires Next(w.position, d) == Some(p) && !Stops(GetTile(maze, p))
    ensures Travel(maze, w, d) ==
      Travel(maze, Walker(p, if IsLetter(GetTile(maze, p)) then w.letters + [GetTile(maze, p)] else w.letters, w.steps + 1), d)
  {
  }

  /** One step onto a space or a `+`: the run stops there. */
  lemma TravelStop(maze: Maze, w: Walker, d: Direction, p: Position)
    requires Next(w.position, d) == Some(p) && Stops(GetTile(maze, p))
    ensures Travel(maze, w, d) == Some((Walker(p, w.letters, w.steps + 1), GetTile(maze, p) == '+'))
  {
  }

  lemma SampleRun1()
    ensures Travel(SampleMaze, Walker(Position(5, 0), [], 0), Down) ==
      Some((Walker(Position(5, 5), "A", 5), true))
  {
    TravelOn(SampleMaze, Walker(Position(5, 0), [], 0), Down, Position(5, 1));
    TravelOn(SampleMaze, Walker(Position(5, 1), [], 1), Down, Position(5, 2));
    assert "" + ['A'] == "A";
    TravelOn(SampleMaze, Walker(Position(5, 2), "A", 2), Down, Position(5, 3));
    TravelOn(SampleMaze, Walker(Position(5, 3), "A", 3), Down, Position(5, 4));
    TravelStop(SampleMaze, Walker(Position(5, 4), "A", 4), Down, Position(5, 5));
  }

  lemma SampleRun2()
    ensures Travel(SampleMaze, Walker(Position(5, 5), "A", 5), Right) ==
      Some((Walker(Position(8, 5), "AB", 8), true))
  {
    TravelOn(SampleMaze, Walker(Position(5, 5), "A", 5), Right, Position(6, 5));
    assert "A" + ['B'] == "AB";
    TravelOn(SampleMaze, Walker(Position(6, 5), "AB", 6), Right, Position(7, 5));
    TravelStop(SampleMaze, Walker(Position(7, 5), "AB", 7), Right, Position(8, 5));
  }

  lemma SampleRun3()
    ensures Travel(SampleMaze, Walker(Position(8, 5), "AB", 8), Up) ==
      Some((Walker(Position(8, 1), "AB", 12), true))
  {
    TravelOn(SampleMaze, Walker(Position(8, 5), "AB", 8), Up, Position(8, 4));
    TravelOn(SampleMaze, Walker(Position(8, 4), "AB", 9), Up, Position(8, 3));
    TravelOn(SampleMaze, Walker(Position(8, 3), "AB", 10), Up, Position(8, 2));
    TravelStop(SampleMaze, Walker(Position(8, 2), "AB", 11), Up, Position(8, 1));
  }

  lemma SampleRun4()
    ensures Travel(SampleMaze, Walker(Position(8, 1), "AB", 12), Right) ==
      Some((Walker(Position(11, 1), "AB", 15), true))
  {
    TravelOn(SampleMaze, Walker(Position(8, 1), "AB", 12), Right, Position(9, 1));
    TravelOn(SampleMaze, Walker(Position(9, 1), "AB", 13), Right, Position(10, 1));
    TravelStop(SampleMaze, Walker(Position(10, 1), "AB", 14), Right, Position(11, 1));
  }

  lemma SampleRun5()
    ensures Travel(SampleMaze, Walker(Position(11, 1), "AB", 15), Down) ==
      Some((Walker(Position(11, 5), "ABC", 19), true))
  {
    TravelOn(SampleMaze, Walker(Position(11, 1), "AB", 15), Down, Position(11, 2));
    assert "AB" + ['C'] == "ABC";
    TravelOn(SampleMaze, Walker(Position(11, 2), "ABC", 16), Down, Position(11, 3));
    TravelOn(SampleMaze, Walker(Position(11, 3), "ABC", 17), Down, Position(11, 4));
    TravelStop(SampleMaze, Walker(Position(11, 4), "ABC", 18), Down, Position(11, 5));
  }

  lemma SampleRun6()
    ensures Travel(SampleMaze, Walker(Position(11, 5), "ABC", 19), Right) ==
      Some((Walker(Position(14, 5), "ABC", 22), true))
  {
    TravelOn(SampleMaze, Walker(Position(11, 5), "ABC", 19), Right, Position(12, 5));
    TravelOn(SampleMaze, Walker(Position(12, 5), "ABC", 20), Right, Position(13, 5));
    TravelStop(SampleMaze, Walker(Position(13, 5), "ABC", 21), Right, Position(14, 5));
  }

  lemma SampleRun7()
    ensures Travel(SampleMaze, Walker(Position(14, 5), "ABC", 22), Up) ==
      Some((Walker(Position(14, 3), "ABCD", 24), true))
  {
    TravelOn(SampleMaze, Walker(Position(14, 5), "ABC", 22), Up, Position(14, 4));
    assert "ABC" + ['D'] == "ABCD";
    TravelStop(SampleMaze, Walker(Position(14, 4), "ABCD", 23), Up, Position(14, 3));
  }

  lemma SampleRun8()
    ensures Travel(SampleMaze, Walker(Position(14, 3), "ABCD", 24), Left) ==
      Some((Walker(Position(0, 3), "ABCDEF", 38), false))
  {
    TravelOn(SampleMaze, Walker(Position(14, 3), "ABCD", 24), Left, Position(13, 3));
    TravelOn(SampleMaze, Walker(Position(13, 3), "ABCD", 25), Left, Position(12, 3));
    TravelOn(SampleMaze, Walker(Position(12, 3), "ABCD", 26), Left, Position(11, 3));
    TravelOn(SampleMaze, Walker(Position(11, 3), "ABCD", 27), Left, Position(10, 3));
    assert "ABCD" + ['E'] == "ABCDE";
    TravelOn(SampleMaze, Walker(Position(10, 3), "ABCDE", 28), Left, Position(9, 3));
    TravelOn(SampleMaze, Walker(Position(9, 3), "ABCDE", 29), Left, Position(8, 3));
    TravelOn(SampleMaze, Walker(Position(8, 3), "ABCDE", 30), Left, Position(7, 3));
    TravelOn(SampleMaze, Walker(Position(7, 3), "ABCDE", 31), Left, Position(6, 3));
    TravelOn(SampleMaze, Walker(Position(6, 3), "ABCDE", 32), Left, Position(5, 3));
    TravelOn(SampleMaze, Walker(Position(5, 3), "ABCDE", 33), Left, Position(4, 3));
    TravelOn(SampleMaze, Walker(Position(4, 3), "ABCDE", 34), Left, Position(3, 3));
    TravelOn(SampleMaze, Walker(Position(3, 3), "ABCDE", 35), Left, Position(2, 3));
    TravelOn(SampleMaze, Walker(Position(2, 3), "ABCDE", 36), Left, Position(1, 3));
    assert "ABCDE" + ['F'] == "ABCDEF";
    TravelStop(SampleMaze, Walker(Position(1, 3), "ABCDEF", 37), Left, Position(0, 3));
  }


  /** A run that stops on a `+` and the turn there: the walk goes on
      from the corner in the new direction. */
  lemma WalkOn(maze: Maze, w: Walker, d: Direction, w': Walker, d': Direction, fuel: nat)
    requires Travel(maze, w, d) == Some((w', true)) && Turn(maze, w'.position, d) == Some(d')
    ensures Walk(maze, w, d, fuel + 1) == Walk(maze, w', d', fuel)
  {
  }

  /** A run that stops on a space ends the walk. */
  lemma WalkEnd(maze: Maze, w: Walker, d: Direction, w': Walker, fuel: nat)
    requires Travel(maze, w, d) == Some((w', false))
    ensures Walk(maze, w, d, fuel + 1) == Done(w'.letters, w'.steps)
  {
  }

  /** The turns of the sample walk. */
  lemma SampleTurns()
    ensures Turn(SampleMaze, Position(5, 5), Down) == Some(Right)
    ensures Turn(SampleMaze, Position(8, 5), Right) == Some(Up)
    ensures Turn(SampleMaze, Position(8, 1), Up) == Some(Right)
    ensures Turn(SampleMaze, Position(11, 1), Right) == Some(Down)
    ensures Turn(SampleMaze, Position(11, 5), Down) == Some(Right)
    ensures Turn(SampleMaze, Position(14, 5), Right) == Some(Up)
    ensures Turn(SampleMaze, Position(14, 3), Up) == Some(Left)
  {
  }

  /** The sample walk collects `ABCDEF` in 38 steps, in eight straight
      runs. */
  lemma SampleWalk(fuel: nat)
    requires fuel >= 8
    ensures Walk(SampleMaze, Walker(Position(5, 0), [], 0), Down, fuel) == Done("ABCDEF", 38)
  {
    SampleTurns();
    SampleRun1();
    WalkOn(SampleMaze, Walker(Position(5, 0), [], 0), Down, Walker(Position(5, 5), "A", 5), Right, fuel - 1);
    SampleWalkFrom1(fuel - 1);
  }

  /** The sample walk from its second run on. */
  lemma SampleWalkFrom1(fuel: nat)
    requires fuel >= 7
    ensures Walk(SampleMaze, Walker(Position(5, 5), "A", 5), Right, fuel) == Done("ABCDEF", 38)
  {
    SampleTurns();
    SampleRun2();
    SampleRun3();
    WalkOn(SampleMaze, Walker(Position(5, 5), "A", 5), Right, Walker(Position(8, 5), "AB", 8), Up, fuel - 1);
    WalkOn(SampleMaze, Walker(Position(8, 5), "AB", 8), Up, Walker(Position(8, 1), "AB", 12), Right, fuel - 2);
    SampleWalkFrom3(fuel - 2);
  }

  /** The sample walk from its fourth run on. */
  lemma SampleWalkFrom3(fuel: nat)
    requires fuel >= 5
    ensures Walk(SampleMaze, Walker(Position(8, 1), "AB", 12), Right, fuel) == Done("ABCDEF", 38)
  {
    SampleTurns();
    SampleRun4();
    SampleRun5();
    SampleRun6();
    WalkOn(SampleMaze, Walker(Position(8, 1), "AB", 12), Right, Walker(Position(11, 1), "AB", 15), Down, fuel - 1);
    WalkOn(SampleMaze, Walker(Position(11, 1), "AB", 15), Down, Walker(Position(11, 5), "ABC", 19), Right, fuel - 2);
    WalkOn(SampleMaze, Walker(Position(11, 5), "ABC", 19), Right, Walker(Position(14, 5), "ABC", 22), Up, fuel - 3);
    SampleWalkFrom6(fuel - 3);
  }

  /** The sample walk from its seventh run on. */
  lemma SampleWalkFrom6(fuel: nat)
    requires fuel >= 2
    ensures Walk(SampleMaze, Walker(Position(14, 5), "ABC", 22), Up, fuel) == Done("ABCDEF", 38)
  {
    SampleTurns();
    SampleRun7();
    SampleRun8();
    WalkOn(SampleMaze, Walker(Position(14, 5), "ABC", 22), Up, Walker(Position(14, 3), "ABCD", 24), Left, fuel - 1);
    WalkEnd(SampleMaze, Walker(Position(14, 3), "ABCD", 24), Left, Walker(Position(0, 3), "ABCDEF", 38), fuel - 2);
  }

  /** The sample input: the rows of the maze on separate lines, with no
      line feed after the last. */
  const SampleInput: string := Join(SampleMaze, '\n')

  lemma SampleRowsClean()
    ensures forall i :: 0 <= i < |SampleMaze| ==> '\n' !in SampleMaze[i] && StripCr(SampleMaze[i]) == SampleMaze[i]
  {
  }

  lemma SampleLines()
    ensures Lines(SampleInput) == SampleMaze
  {
    SampleRowsClean();
    LinesJoin(SampleMaze);
  }

  /** `run_maze` on the sample input finds `ABCDEF` in 38 steps. */
  lemma SampleRunMaze(fuel: nat)
    requires fuel >= 8
    ensures RunMazeSpec(SampleInput, fuel) == Done("ABCDEF", 38)
  {
    SampleLines();
    assert FirstIndex(SampleMaze[0], '|') == Some(5);
    SampleWalk(fuel);
  }
}
