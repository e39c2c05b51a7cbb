/** The hex grid walk of day 11 (`day-11/src/main.rs`).  A hex is written
    in two coordinates: `n` and `s` move along `y`, `se` and `nw` along `x`,
    and `ne` and `sw` along both at once.  `distance` folds the moves of the
    comma-separated input into the final position and the largest distance
    from the origin seen on the way.

    The source measures a position's distance as `max(|x|, |y|)`.  In these
    coordinates the third axis of the hex grid is `x - y`, and the number of
    moves needed is `max(|x|, |y|, |x - y|)`: the two agree when `x` and `y`
    do not have opposite signs, and the source's formula is short otherwise
    (`nw,n` ends at `(-1, 1)`, two moves away, which it reports as 1).  The
    model keeps both: `DistanceAsWritten` with the source's formula and
    `Distance` with the hex distance, proved to be the least number of
    moves.  Coordinates are unbounded (no `i32` overflow).
 */
module Day11 {
  import opened Wrappers
  import opened Text

  /** A hex, `(x, y)`. */
  datatype Hex = Hex(x: int, y: int)

  const Origin := Hex(0, 0)

  /** The six moves. */
  datatype Move = N | S | NE | SW | NW | SE

  /** The `match mov` of the fold: one of the six names, anything else
      the `Unknown movement` panic. */
  function ParseMove(s: string): Option<Move> {
    if s == "n" then Some(N)
    else if s == "s" then Some(S)
    else if s == "ne" then Some(NE)
    else if s == "sw" then Some(SW)
    else if s == "nw" then Some(NW)
    else if s == "se" then Some(SE)
    else None
  }

  /** The name of a move. */
  function ShowMove(m: Move): string {
    match m
    case N => "n"
    case S => "s"
    case NE => "ne"
    case SW => "sw"
    case NW => "nw"
    case SE => "se"
  }

  /** Each move is read back from its name, and only the six names are
      read as moves. */
  lemma ParseMoveShow(m: Move, s: string)
    ensures ParseMove(ShowMove(m)) == Some(m)
    ensures ParseMove(s).Some? ==> ShowMove(ParseMove(s).value) == s
  {
  }

  /** The new position of each arm of the `match`. */
  function Step(p: Hex, m: Move): (q: Hex)
    ensures m == N ==> q == Hex(p.x, p.y + 1)
    ensures m == S ==> q == Hex(p.x, p.y - 1)
    ensures m == NE ==> q == Hex(p.x + 1, p.y + 1)
    ensures m == SW ==> q == Hex(p.x - 1, p.y - 1)
    ensures m == NW ==> q == Hex(p.x - 1, p.y)
    ensures m == SE ==> q == Hex(p.x + 1, p.y)
  {
    match m
    case N => Hex(p.x, p.y + 1)
    case S => Hex(p.x, p.y - 1)
    case NE => Hex(p.x + 1, p.y + 1)
    case SW => Hex(p.x - 1, p.y - 1)
    case NW => Hex(p.x - 1, p.y)
    case SE => Hex(p.x + 1, p.y)
  }

  /** The position after the moves, from the origin. */
  function End(moves: seq<Move>): Hex {
    if moves == [] then Origin else Step(End(moves[..|moves| - 1]), moves[|moves| - 1])
  }

  /** The sum of two positions. */
  function Plus(p: Hex, q: Hex): Hex {
    Hex(p.x + q.x, p.y + q.y)
  }

  /** Moving along `a` and then along `b` adds the two displacements. */
  lemma {:induction false} EndAppend(a: seq<Move>, b: seq<Move>)
    ensures End(a + b) == Plus(End(a), End(b))
    decreases |b|
  {
    if b == [] {
      assert a + b == a;
    } else {
      var front, last := b[..|b| - 1], b[|b| - 1];
      assert a + b == (a + front) + [last];
      EndSnoc(a + front, last);
      EndSnoc(front, last);
      EndAppend(a, front);
      StepPlus(End(a), End(front), last);
    }
  }

  /** A move after a displacement is the displacement plus the move. */
  lemma StepPlus(p: Hex, q: Hex, m: Move)
    ensures Step(Plus(p, q), m) == Plus(p, Step(q, m))
  {
  }

  /** The final position does not depend on the order of the moves: two
      blocks of moves in either order end at the same hex. */
  lemma EndOrder(a: seq<Move>, b: seq<Move>)
    ensures End(a + b) == End(b + a)
  {
    EndAppend(a, b);
    EndAppend(b, a);
  }

  // ---------------------------------------------------------------- norms

  function Abs(n: int): nat { if n < 0 then -n else n }

  function Max(a: int, b: int): int { if a < b then b else a }

  /** The source's distance, `x.abs().max(y.abs())`. */
  function ChebyshevNorm(p: Hex): nat {
    Max(Abs(p.x), Abs(p.y))
  }

  /** The hex distance from the origin: the largest of the three axes. */
  function HexNorm(p: Hex): nat {
    Max(Max(Abs(p.x), Abs(p.y)), Abs(p.x - p.y))
  }

  /** The two distances agree unless the coordinates have opposite signs,
      and the source's is never larger. */
  lemma NormsAgree(p: Hex)
    ensures ChebyshevNorm(p) <= HexNorm(p)
    ensures (p.x >= 0) == (p.y >= 0) || p.x == 0 || p.y == 0 ==> ChebyshevNorm(p) == HexNorm(p)
  {
  }

  /** One move changes the hex distance by at most 1. */
  lemma StepNorm(p: Hex, m: Move)
    ensures HexNorm(Step(p, m)) <= HexNorm(p) + 1
  {
  }

  /** No sequence of moves gets further than its length. */
  lemma {:induction false} NormAtMostMoves(moves: seq<Move>)
    ensures HexNorm(End(moves)) <= |moves|
  {
    if moves != [] {
      NormAtMostMoves(moves[..|moves| - 1]);
      StepNorm(End(moves[..|moves| - 1]), moves[|moves| - 1]);
    }
  }

  /** The move that brings `p` one step nearer the origin. */
  function Toward(p: Hex): Move
    requires p != Origin
  {
    if p.x > 0 && p.y > 0 then NE
    else if p.x < 0 && p.y < 0 then SW
    else if p.x > 0 then SE
    else if p.x < 0 then NW
    else if p.y > 0 then N
    else S
  }

  /** A shortest path from the origin to `p`: `HexNorm(p)` moves that end
      at `p`. */
  function ShortestPath(p: Hex): (r: seq<Move>)
    ensures |r| == HexNorm(p) && End(r) == p
    decreases HexNorm(p)
  {
    if p == Origin then []
    else
      var m := Toward(p);
      var q := Step(p, Opposite(m));
      TowardNearer(p);
      var r := ShortestPath(q) + [m];
      assert r[..|r| - 1] == ShortestPath(q);
      r
  }

  /** Stepping back from `p` along `Toward(p)` is one nearer the origin,
      and `Toward(p)` leads from there to `p`. */
  lemma TowardNearer(p: Hex)
    requires p != Origin
    ensures var q := Step(p, Opposite(Toward(p)));
      HexNorm(q) == HexNorm(p) - 1 && Step(q, Toward(p)) == p
  {
  }

  /** The move back. */
  function Opposite(m: Move): Move {
    match m
    case N => S
    case S => N
    case NE => SW
    case SW => NE
    case NW => SE
    case SE => NW
  }

  /** The hex distance is the least number of moves that reach a
      position: a path that long exists, and none is shorter. */
  lemma HexNormFewest(p: Hex, moves: seq<Move>)
    ensures |ShortestPath(p)| == HexNorm(p) && End(ShortestPath(p)) == p
    ensures End(moves) == p ==> |moves| >= HexNorm(p)
  {
    NormAtMostMoves(moves);
  }

  // ---------------------------------------------------------------- distance

  /** The fold of `distance` with a distance `norm`: the largest distance
      of the positions after each move, and the final position. */
  function Walk(moves: seq<Move>, norm: Hex -> nat): (int, Hex) {
    if moves == [] then (0, Origin)
    else
      var (best, current) := Walk(moves[..|moves| - 1], norm);
      var next := Step(current, moves[|moves| - 1]);
      (Max(best, norm(next)), next)
  }

  /** The fold ends at the final position, and its maximum is the largest
      distance of a position after some move (0 for no moves): at least
      each of them, and reached by one of them. */
  lemma {:induction false} WalkSpec(moves: seq<Move>, norm: Hex -> nat)
    ensures Walk(moves, norm).1 == End(moves)
    ensures forall i :: 1 <= i <= |moves| ==> norm(End(moves[..i])) <= Walk(moves, norm).0
    ensures moves == [] ==> Walk(moves, norm).0 == 0
    ensures moves != [] ==> exists i :: 1 <= i <= |moves| && Walk(moves, norm).0 == norm(End(moves[..i]))
  {
    if moves != [] {
      var front := moves[..|moves| - 1];
      WalkSpec(front, norm);
      assert moves[..|moves|] == moves;
      forall i | 1 <= i <= |front|
        ensures moves[..i] == front[..i]
      {
      }
      if front != [] && Walk(moves, norm).0 != norm(End(moves)) {
        var i :| 1 <= i <= |front| && Walk(front, norm).0 == norm(End(front[..i]));
        assert moves[..i] == front[..i];
      }
    }
  }

  /** Every name is one of the six moves. */
  predicate AllKnown(words: seq<string>) {
    forall i :: 0 <= i < |words| ==> ParseMove(words[i]).Some?
  }

  /** The moves of the input, or `None` at the first unknown one. */
  function ParseMoves(words: seq<string>): (r: Option<seq<Move>>)
    ensures r.Some? ==> |r.value| == |words| && forall i :: 0 <= i < |words| ==> ParseMove(words[i]) == Some(r.value[i])
    ensures r.None? <==> !AllKnown(words)
  {
    if words == [] then Some([])
    else
      var first := ParseMove(words[0]);
      var rest := ParseMoves(words[1..]);
      if first.None? then None
      else if rest.None? then
        var i :| 0 <= i < |words[1..]| && ParseMove(words[1..][i]).None?;
        assert ParseMove(words[i + 1]).None?;
        None
      else Some([first.value] + rest.value)
  }

  /** Names each read as the matching move are read as those moves. */
  lemma {:induction false} ParseMovesOf(words: seq<string>, moves: seq<Move>)
    requires |words| == |moves| && forall i :: 0 <= i < |words| ==> ParseMove(words[i]) == Some(moves[i])
    ensures ParseMoves(words) == Some(moves)
  {
    if words != [] {
      ParseMovesOf(words[1..], moves[1..]);
      assert [moves[0]] + moves[1..] == moves;
    }
  }

  /** `distance` with a given measure: `(distance_now, max_distance)` of
      the trimmed input split at commas, or `None` for an unknown move. */
  function DistanceWith(input: string, norm: Hex -> nat): Option<(int, int)> {
    var moves := ParseMoves(Split(Trim(input), ','));
    if moves.None? then None
    else
      var (best, position) := Walk(moves.value, norm);
      Some((norm(position), best))
  }

  /** `distance` as written, with `max(|x|, |y|)`. */
  function DistanceAsWritten(input: string): Option<(int, int)> {
    DistanceWith(input, ChebyshevNorm)
  }

  /** `distance` with the hex distance. */
  function Distance(input: string): Option<(int, int)> {
    DistanceWith(input, HexNorm)
  }

  /** `distance_now` is the distance of the final position and
      `max_distance` is at least that; with the hex distance,
      `distance_now` is the least number of moves that reach the final
      position.  An unknown move panics. */
  lemma DistanceSpec(input: string, norm: Hex -> nat)
    ensures DistanceWith(input, norm).None? <==> !AllKnown(Split(Trim(input), ','))
    ensures var r := DistanceWith(input, norm); r.Some? ==>
      var moves := ParseMoves(Split(Trim(input), ',')).value;
      r.value.0 == norm(End(moves)) && r.value.0 <= r.value.1
    ensures var r := Distance(input); r.Some? ==>
      var moves := ParseMoves(Split(Trim(input), ',')).value;
      forall path :: End(path) == End(moves) ==> r.value.0 <= |path|
  {
    var words := Split(Trim(input), ',');
    if ParseMoves(words).Some? {
      var moves := ParseMoves(words).value;
      WalkSpec(moves, norm);
      WalkSpec(moves, HexNorm);
      assert moves[..|moves|] == moves;
      forall path | End(path) == End(moves)
        ensures HexNorm(End(moves)) <= |path|
      {
        NormAtMostMoves(path);
      }
    }
  }

  /** An empty input is one empty name, an unknown move. */
  lemma EmptyPanics(norm: Hex -> nat)
    ensures DistanceWith("", norm) == None
  {
    assert Trim("") == "";
  }

  // ---------------------------------------------------------------- samples

  /** A lower-case letter is not whitespace. */
  lemma LetterNotBlank(c: char)
    requires 'a' <= c <= 'z'
    ensures !IsWhitespace(c)
  {
  }

  /** Each name is a non-empty run of lower-case letters. */
  lemma ShowMoveLetters(m: Move)
    ensures ShowMove(m) != [] && ',' !in ShowMove(m)
    ensures forall j :: 0 <= j < |ShowMove(m)| ==> 'a' <= ShowMove(m)[j] <= 'z'
  {
  }

  /** Joined strings start with the first one's first character and end
      with the last one's last character. */
  lemma {:induction false} JoinEnds(words: seq<string>, sep: char)
    requires |words| >= 1 && forall i :: 0 <= i < |words| ==> words[i] != []
    ensures var s := Join(words, sep);
      s != [] && s[0] == words[0][0] && s[|s| - 1] == words[|words| - 1][|words[|words| - 1]| - 1]
  {
    if |words| > 1 {
      JoinEnds(words[1..], sep);
    }
  }

  /** The names of moves joined by commas read as those moves. */
  lemma NamesRead(input: string, words: seq<string>, moves: seq<Move>)
    requires |moves| >= 1 && |words| == |moves|
    requires forall i :: 0 <= i < |moves| ==> words[i] == ShowMove(moves[i])
    requires input == Join(words, ',')
    ensures ParseMoves(Split(Trim(input), ',')) == Some(moves)
  {
    forall i | 0 <= i < |words|
      ensures words[i] != [] && ',' !in words[i] && ParseMove(words[i]) == Some(moves[i])
    {
      ShowMoveLetters(moves[i]);
      ParseMoveShow(moves[i], words[i]);
    }
    NamesTrimmed(input, words, moves);
    SplitJoin(words, ',');
    ParseMovesOf(words, moves);
  }

  /** The names of moves joined by commas have nothing to trim. */
  lemma NamesTrimmed(input: string, words: seq<string>, moves: seq<Move>)
    requires |moves| >= 1 && |words| == |moves|
    requires forall i :: 0 <= i < |moves| ==> words[i] == ShowMove(moves[i]) && words[i] != []
    requires input == Join(words, ',')
    ensures Trim(input) == input
  {
    JoinEnds(words, ',');
    var first, last := words[0], words[|words| - 1];
    ShowMoveLetters(moves[0]);
    ShowMoveLetters(moves[|moves| - 1]);
    assert input[0] == first[0];
    assert input[|input| - 1] == last[|last| - 1];
    LetterNotBlank(input[0]);
    LetterNotBlank(input[|input| - 1]);
    TrimSpec(input);
  }

  /** Both distances of a walk that ends at `p`. */
  lemma DistancesAt(input: string, moves: seq<Move>)
    ensures ParseMoves(Split(Trim(input), ',')) == Some(moves) ==>
      Distance(input).Some? && Distance(input).value.0 == HexNorm(End(moves)) &&
      DistanceAsWritten(input).Some? && DistanceAsWritten(input).value.0 == ChebyshevNorm(End(moves))
  {
    WalkSpec(moves, HexNorm);
    WalkSpec(moves, ChebyshevNorm);
  }

  /** The end of one move, and of a move after others. */
  lemma EndSnoc(moves: seq<Move>, m: Move)
    ensures End(moves + [m]) == Step(End(moves), m)
  {
    assert (moves + [m])[..|moves|] == moves;
  }

  const Sample1 := "ne" + ",ne" + ",ne"
  const Sample2 := "ne" + ",ne" + ",sw" + ",sw"
  const Sample3 := "ne" + ",ne" + ",s" + ",s"
  const Sample4 := "se" + ",sw" + ",se" + ",sw" + ",sw"
  const Sample5 := "nw" + ",n"

  /** The moves of `Sample1`. */
  lemma Sample1Read()
    ensures ParseMoves(Split(Trim(Sample1), ',')) == Some([NE, NE, NE])
  {
    var words := ["ne", "ne", "ne"];
    assert Join(words[1..], ',') == "ne,ne";
    NamesRead(Sample1, words, [NE, NE, NE]);
  }

  /** The moves of `Sample2`. */
  lemma Sample2Read()
    ensures ParseMoves(Split(Trim(Sample2), ',')) == Some([NE, NE, SW, SW])
  {
    var words := ["ne", "ne", "sw", "sw"];
    assert Join(words[2..], ',') == "sw,sw";
    assert Join(words[1..], ',') == "ne,sw,sw";
    NamesRead(Sample2, words, [NE, NE, SW, SW]);
  }

  /** The moves of `Sample3`. */
  lemma Sample3Read()
    ensures ParseMoves(Split(Trim(Sample3), ',')) == Some([NE, NE, S, S])
  {
    var words := ["ne", "ne", "s", "s"];
    assert Join(words[2..], ',') == "s,s";
    assert Join(words[1..], ',') == "ne,s,s";
    NamesRead(Sample3, words, [NE, NE, S, S]);
  }

  /** The moves of `Sample4`. */
  lemma Sample4Read()
    ensures ParseMoves(Split(Trim(Sample4), ',')) == Some([SE, SW, SE, SW, SW])
  {
    var words := ["se", "sw", "se", "sw", "sw"];
    assert Join(words[3..], ',') == "sw,sw";
    assert Join(words[2..], ',') == "se,sw,sw";
    assert Join(words[1..], ',') == "sw,se,sw,sw";
    NamesRead(Sample4, words, [SE, SW, SE, SW, SW]);
  }

  /** Where the moves of `Sample1` end. */
  lemma Sample1End()
    ensures End([NE, NE, NE]) == Hex(3, 3)
  {
    EndSnoc([], NE);
    EndSnoc([NE], NE);
    assert [NE] + [NE] == [NE, NE];
    EndSnoc([NE, NE], NE);
    assert [NE, NE] + [NE] == [NE, NE, NE];
  }

  /** Where the moves of `Sample2` end. */
  lemma Sample2End()
    ensures End([NE, NE, SW, SW]) == Origin
  {
    EndSnoc([], NE);
    EndSnoc([NE], NE);
    assert [NE] + [NE] == [NE, NE];
    EndSnoc([NE, NE], SW);
    assert [NE, NE] + [SW] == [NE, NE, SW];
    EndSnoc([NE, NE, SW], SW);
    assert [NE, NE, SW] + [SW] == [NE, NE, SW, SW];
  }

  /** Where the moves of `Sample3` end. */
  lemma Sample3End()
    ensures End([NE, NE, S, S]) == Hex(2, 0)
  {
    EndSnoc([], NE);
    EndSnoc([NE], NE);
    assert [NE] + [NE] == [NE, NE];
    EndSnoc([NE, NE], S);
    assert [NE, NE] + [S] == [NE, NE, S];
    EndSnoc([NE, NE, S], S);
    assert [NE, NE, S] + [S] == [NE, NE, S, S];
  }

  /** Where the moves of `Sample4` end. */
  lemma Sample4End()
    ensures End([SE, SW, SE, SW, SW]) == Hex(-1, -3)
  {
    EndSnoc([], SE);
    EndSnoc([SE], SW);
    assert [SE] + [SW] == [SE, SW];
    EndSnoc([SE, SW], SE);
    assert [SE, SW] + [SE] == [SE, SW, SE];
    EndSnoc([SE, SW, SE], SW);
    assert [SE, SW, SE] + [SW] == [SE, SW, SE, SW];
    EndSnoc([SE, SW, SE, SW], SW);
    assert [SE, SW, SE, SW] + [SW] == [SE, SW, SE, SW, SW];
  }

  /** Where the moves of `Sample5` end. */
  lemma Sample5End()
    ensures End([NW, N]) == Hex(-1, 1)
  {
    EndSnoc([], NW);
    EndSnoc([NW], N);
    assert [NW] + [N] == [NW, N];
  }

  /** `ne,ne,ne` is 3 away. */
  lemma SampleDistance1()
    ensures Distance(Sample1).Some? && Distance(Sample1).value.0 == 3
    ensures DistanceAsWritten(Sample1).Some? && DistanceAsWritten(Sample1).value.0 == 3
  {
    Sample1Read();
    Sample1End();
    DistancesAt(Sample1, [NE, NE, NE]);
  }

  /** `ne,ne,sw,sw` is back at the origin. */
  lemma SampleDistance2()
    ensures Distance(Sample2).Some? && Distance(Sample2).value.0 == 0
    ensures DistanceAsWritten(Sample2).Some? && DistanceAsWritten(Sample2).value.0 == 0
  {
    Sample2Read();
    Sample2End();
    DistancesAt(Sample2, [NE, NE, SW, SW]);
  }

  /** `ne,ne,s,s` is 2 away. */
  lemma SampleDistance3()
    ensures Distance(Sample3).Some? && Distance(Sample3).value.0 == 2
    ensures DistanceAsWritten(Sample3).Some? && DistanceAsWritten(Sample3).value.0 == 2
  {
    Sample3Read();
    Sample3End();
    DistancesAt(Sample3, [NE, NE, S, S]);
  }

  /** `se,sw,se,sw,sw` is 3 away. */
  lemma SampleDistance4()
    ensures Distance(Sample4).Some? && Distance(Sample4).value.0 == 3
    ensures DistanceAsWritten(Sample4).Some? && DistanceAsWritten(Sample4).value.0 == 3
  {
    Sample4Read();
    Sample4End();
    DistancesAt(Sample4, [SE, SW, SE, SW, SW]);
  }

  /** `nw,n` ends at `(-1, 1)`: the source reports 1, but no single move
      reaches that hex; the hex distance is 2. */
  lemma AsWrittenTooShort(path: seq<Move>)
    ensures DistanceAsWritten(Sample5).Some? && DistanceAsWritten(Sample5).value.0 == 1
    ensures Distance(Sample5).Some? && Distance(Sample5).value.0 == 2
    ensures End(path) == Hex(-1, 1) ==> |path| >= 2
  {
    NamesRead(Sample5, ["nw", "n"], [NW, N]);
    Sample5End();
    DistancesAt(Sample5, [NW, N]);
    NormAtMostMoves(path);
  }
}
