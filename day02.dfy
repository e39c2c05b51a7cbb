/** The spreadsheet checksums of day 2 (`day-02/src/part1.rs` and
    `day-02/src/part2.rs`).  Each row is a line of whitespace-separated
    `u32`s; part 1 scores a row by its largest value minus its smallest,
    part 2 by the quotient of the first pair in which one value evenly
    divides the other.  The checksum adds up the rows' scores until an
    empty line.

    A cell that is not a `u32`, a row with no cells (part 1), a row with
    no dividing pair or a division by zero (part 2) panic: `None` here.
    Reading the lines from standard input is left out (the model is given
    them, newline removed, the end of input acting as the empty line that
    stops the loop), and so is the `u32` overflow of the running total.
 */
module Day02 {
  import opened Wrappers
  import opened Text

  /** The cells of a row: its words read as `u32`s, or `None` when one is
      not a number. */
  function Cells(row: string): Option<seq<int>> {
    ParseAll(Words(row), ParseU32)
  }

  /** The cells are the row's words read one by one, each a `u32`, and
      they are missing exactly when some word is not a `u32`. */
  lemma CellsSpec(row: string)
    ensures Cells(row).Some? ==> |Cells(row).value| == |Words(row)|
    ensures Cells(row).Some? ==> forall i :: 0 <= i < |Words(row)| ==>
      ParseU32(Words(row)[i]) == Some(Cells(row).value[i]) && 0 <= Cells(row).value[i] <= U32_MAX
    ensures Cells(row).None? <==> exists i :: 0 <= i < |Words(row)| && ParseU32(Words(row)[i]).None?
  {
    var words := Words(row);
    var cells := Cells(row);
    if cells.None? {
      var i :| 0 <= i < |words| && ParseU32(words[i]).None?;
      assert 0 <= i < |Words(row)| && ParseU32(Words(row)[i]).None?;
    } else {
      forall i | 0 <= i < |words|
        ensures ParseU32(words[i]) == Some(cells.value[i]) && 0 <= cells.value[i] <= U32_MAX
      {
        assert ParseU32(words[i]) == Some(cells.value[i]);
      }
    }
  }

  // ------------------------------------------------------------- part 1

  function Min(a: int, b: int): int { if a <= b then a else b }
  function Max(a: int, b: int): int { if a >= b then a else b }

  /** The smallest value of a non-empty list, from the front. */
  function Smallest(xs: seq<int>): int
    requires xs != []
  {
    if |xs| == 1 then xs[0] else Min(Smallest(xs[..|xs| - 1]), xs[|xs| - 1])
  }

  /** The largest value of a non-empty list, from the front. */
  function Largest(xs: seq<int>): int
    requires xs != []
  {
    if |xs| == 1 then xs[0] else Max(Largest(xs[..|xs| - 1]), xs[|xs| - 1])
  }

  /** The smallest value is one of the list's values and no value is
      below it. */
  lemma {:induction false} SmallestSpec(xs: seq<int>)
    requires xs != []
    ensures exists i :: 0 <= i < |xs| && xs[i] == Smallest(xs)
    ensures forall i :: 0 <= i < |xs| ==> Smallest(xs) <= xs[i]
  {
    if |xs| > 1 {
      var front := xs[..|xs| - 1];
      SmallestSpec(front);
      assert forall i :: 0 <= i < |front| ==> xs[i] == front[i];
      var k :| 0 <= k < |front| && front[k] == Smallest(front);
      var w := if Smallest(xs) == xs[k] then k else |xs| - 1;
      assert xs[w] == Smallest(xs);
      assert Smallest(xs) == Min(Smallest(front), xs[|xs| - 1]);
    } else {
      assert xs[0] == Smallest(xs);
    }
  }

  /** The largest value is one of the list's values and no value is
      above it. */
  lemma {:induction false} LargestSpec(xs: seq<int>)
    requires xs != []
    ensures exists i :: 0 <= i < |xs| && xs[i] == Largest(xs)
    ensures forall i :: 0 <= i < |xs| ==> xs[i] <= Largest(xs)
  {
    if |xs| > 1 {
      var front := xs[..|xs| - 1];
      LargestSpec(front);
      assert forall i :: 0 <= i < |front| ==> xs[i] == front[i];
      var k :| 0 <= k < |front| && front[k] == Largest(front);
      var w := if Largest(xs) == xs[k] then k else |xs| - 1;
      assert xs[w] == Largest(xs);
      assert Largest(xs) == Max(Largest(front), xs[|xs| - 1]);
    } else {
      assert xs[0] == Largest(xs);
    }
  }

  /** The largest value of a list minus its smallest, `None` for an empty
      list. */
  function Range(xs: seq<int>): Option<int> {
    if xs == [] then None else Some(Largest(xs) - Smallest(xs))
  }

  /** Part 1's score of a row: the range of its cells, or `None` for an
      unreadable cell or a row with no cells. */
  function Spread(row: string): Option<int> {
    var cells := Cells(row);
    if cells.None? then None else Range(cells.value)
  }

  /** `checksum_row` of part 1: `min` starts at `u32::MAX` and `max` at 0,
      each cell read in turn lowers or raises them, and both still at their
      start values means the row had no data. */
  method SpreadRow(row: string) returns (r: Option<int>)
    ensures r == Spread(row)
  {
    var words := Words(row);
    var min := U32_MAX;
    var max := 0;
    ghost var values: seq<int> := [];
    for i := 0 to |words|
      invariant ParseAll(words[..i], ParseU32) == Some(values)
      invariant values == [] ==> min == U32_MAX && max == 0
      invariant values != [] ==> min < U32_MAX || max > 0
      invariant values != [] ==> min == Smallest(values) && max == Largest(values)
    {
      var cell := ParseU32(words[i]);
      if cell.None? {
        ParseAllBad(words, i, ParseU32);
        SpreadOf(row);
        return None;
      }
      var value := cell.value;
      ParseAllSnoc(words, i, ParseU32, values, value);
      StepExtremes(values, value);
      min := Min(min, value);
      max := Max(max, value);
      values := values + [value];
    }
    assert words[..|words|] == words;
    SpreadOf(row);
    if min == U32_MAX && max == 0 {
      return None;
    }
    r := Some(max - min);
  }

  /** The spread of a row from its cells. */
  lemma SpreadOf(row: string)
    ensures Cells(row).None? ==> Spread(row) == None
    ensures Cells(row).Some? ==> Spread(row) == Range(Cells(row).value)
  {
  }

  /** One more cell: the extremes of the longer list. */
  lemma StepExtremes(values: seq<int>, x: int)
    ensures Smallest(values + [x]) == if values == [] then x else Min(Smallest(values), x)
    ensures Largest(values + [x]) == if values == [] then x else Max(Largest(values), x)
  {
    assert (values + [x])[..|values|] == values;
  }

  /** Part 1 panics exactly on a row with no words or with a word that is
      not a `u32`. */
  lemma SpreadPanics(row: string)
    ensures Spread(row).None? <==>
      Words(row) == [] || exists i :: 0 <= i < |Words(row)| && ParseU32(Words(row)[i]).None?
  {
    CellsSpec(row);
  }

  /** Part 1's score never underflows: it is the difference of two cells of
      the row, the largest and the smallest. */
  lemma SpreadBounds(row: string)
    requires Spread(row).Some?
    ensures var xs := Cells(row).value;
      Largest(xs) in xs && Smallest(xs) in xs && Spread(row).value == Largest(xs) - Smallest(xs) >= 0 &&
      forall k :: 0 <= k < |xs| ==> Smallest(xs) <= xs[k] <= Largest(xs)
  {
    SpreadOf(row);
    var xs := Cells(row).value;
    LargestSpec(xs);
    SmallestSpec(xs);
  }

  // ------------------------------------------------------------- part 2

  /** What one pair `(first, second)` decides: `first % second` is tested
      first (so dividing by a zero `second` panics), then `second % first`. */
  datatype Verdict = Divides(quotient: int) | DivideByZero | Neither

  function Judge(first: int, second: int): (v: Verdict)
    ensures v.Divides? ==> v.quotient * second == first || v.quotient * first == second
    ensures v == DivideByZero <==> second == 0
    ensures first == second && first > 0 ==> v == Divides(1)
  {
    if second == 0 then DivideByZero
    else if first % second == 0 then
      Exact(first, second);
      Divides(first / second)
    else
      assert first != 0 by { Exact(0, second); }
      if second % first == 0 then
        Exact(second, first);
        Divides(second / first)
      else Neither
  }

  /** A remainder of zero leaves the quotient exact. */
  lemma Exact(x: int, n: int)
    requires n != 0
    ensures x % n == 0 <==> x / n * n == x
  {
  }

  /** With positive values a verdict names a quotient of at least one that
      takes the smaller value to the larger, and only a pair where one
      value divides the other gets one. */
  lemma JudgePositive(first: int, second: int)
    requires first > 0 && second > 0
    ensures Judge(first, second) != DivideByZero
    ensures Judge(first, second).Divides? <==> first % second == 0 || second % first == 0
    ensures Judge(first, second).Divides? ==>
      Judge(first, second).quotient >= 1 &&
      Judge(first, second).quotient * Min(first, second) == Max(first, second)
  {
    var v := Judge(first, second);
    if v.Divides? {
      if first % second == 0 {
        assert v.quotient * second == first;
      } else {
        assert v.quotient * first == second;
      }
    }
  }

  /** Pair `(c, d)` comes before pair `(a, b)` in the scan: rows of `i`
      first, then `j`. */
  predicate Earlier(c: nat, d: nat, a: nat, b: nat) {
    c < a || (c == a && d < b)
  }

  /** The scan from pair `(i, j)` on: the verdict of the first pair that
      is not `Neither`, or `None` (the "no divisible data" panic) when
      there is none. */
  function ScanFrom(xs: seq<int>, i: nat, j: nat): Option<int>
    requires i < j <= |xs|
    decreases |xs| - i, |xs| - j
  {
    if j == |xs| then
      if i + 2 < |xs| then ScanFrom(xs, i + 1, i + 2) else None
    else
      match Judge(xs[i], xs[j])
      case Divides(q) => Some(q)
      case DivideByZero => None
      case Neither => ScanFrom(xs, i, j + 1)
  }

  /** The scan of a row's values from the first pair. */
  function Scan(xs: seq<int>): Option<int> {
    if |xs| < 2 then None else ScanFrom(xs, 0, 1)
  }

  /** Part 2's score of a row. */
  function Quotient(row: string): Option<int> {
    var cells := Cells(row);
    if cells.None? then None else Scan(cells.value)
  }

  /** `checksum_row` of part 2: all cells are read first, then the pairs
      `i < j` are tried in order and the first quotient found returned. */
  method QuotientRow(row: string) returns (r: Option<int>)
    ensures r == Quotient(row)
  {
    var cells := Cells(row);
    if cells.None? {
      return None;
    }
    r := ScanEntries(cells.value);
  }

  method ScanEntries(entries: seq<int>) returns (r: Option<int>)
    ensures r == Scan(entries)
  {
    for i := 0 to |entries|
      invariant i + 1 < |entries| ==> Scan(entries) == ScanFrom(entries, i, i + 1)
      invariant i + 1 >= |entries| ==> Scan(entries) == None
    {
      for j := i + 1 to |entries|
        invariant Scan(entries) == ScanFrom(entries, i, j)
      {
        var first := entries[i];
        var second := entries[j];
        if second == 0 {
          return None;
        }
        if first % second == 0 {
          return Some(first / second);
        }
        assert first != 0 by { Exact(0, second); }
        if second % first == 0 {
          return Some(second / first);
        }
      }
    }
    return None;
  }

  /** The first pair from `(i, j)` on whose verdict is not `Neither`
      divides, with quotient `q`: it is `(a, b)`. */
  ghost predicate FirstDivides(xs: seq<int>, i: nat, j: nat, a: nat, b: nat, q: int) {
    a < b < |xs| && !Earlier(a, b, i, j) && Judge(xs[a], xs[b]) == Divides(q) &&
    forall c: nat, d: nat :: c < d < |xs| && !Earlier(c, d, i, j) && Earlier(c, d, a, b) ==>
      Judge(xs[c], xs[d]) == Neither
  }

  /** Some pair from `(i, j)` on is the first there that is not `Neither`,
      and it divides with quotient `q`. */
  ghost predicate DividesFirst(xs: seq<int>, i: nat, j: nat, q: int) {
    exists a: nat, b: nat :: FirstDivides(xs, i, j, a, b, q)
  }

  /** The scan from `(i, j)` returns `q` exactly when the first pair from
      there whose verdict is not `Neither` divides with quotient `q`. */
  lemma {:induction false} ScanFromSpec(xs: seq<int>, i: nat, j: nat, q: int)
    requires i < j <= |xs|
    ensures ScanFrom(xs, i, j) == Some(q) <==> DividesFirst(xs, i, j, q)
    decreases |xs| - i, |xs| - j
  {
    if j == |xs| {
      if i + 2 < |xs| {
        ScanFromSpec(xs, i + 1, i + 2, q);
        RowEnd(xs, i, q);
      } else {
        NoPairsLeft(xs, i, j, q);
      }
    } else {
      match Judge(xs[i], xs[j])
      case Divides(p) =>
        assert FirstDivides(xs, i, j, i, j, p);
        if DividesFirst(xs, i, j, q) {
          var a, b :| FirstDivides(xs, i, j, a, b, q);
          FirstAtStart(xs, i, j, a, b, q);
        }
      case DivideByZero =>
        if DividesFirst(xs, i, j, q) {
          var a, b :| FirstDivides(xs, i, j, a, b, q);
          FirstAtStart(xs, i, j, a, b, q);
        }
      case Neither =>
        ScanFromSpec(xs, i, j + 1, q);
        SkipNeither(xs, i, j, q);
    }
  }

  /** When the pair `(i, j)` itself is not `Neither`, the first pair from
      there is `(i, j)`. */
  lemma FirstAtStart(xs: seq<int>, i: nat, j: nat, a: nat, b: nat, q: int)
    requires i < j < |xs|
    ensures Judge(xs[i], xs[j]) != Neither && FirstDivides(xs, i, j, a, b, q) ==> a == i && b == j
  {
    if Judge(xs[i], xs[j]) != Neither && FirstDivides(xs, i, j, a, b, q) {
      assert !Earlier(i, j, i, j);
    }
  }

  /** Past the last pair of row `i` the scan goes on at `(i + 1, i + 2)`. */
  lemma RowEnd(xs: seq<int>, i: nat, q: int)
    requires i + 2 < |xs|
    ensures DividesFirst(xs, i, |xs|, q) <==> DividesFirst(xs, i + 1, i + 2, q)
  {
    var n, i1, i2 := |xs|, i + 1, i + 2;
    if DividesFirst(xs, i, n, q) {
      var a, b :| FirstDivides(xs, i, n, a, b, q);
      assert FirstDivides(xs, i1, i2, a, b, q);
    }
    if DividesFirst(xs, i1, i2, q) {
      var a, b :| FirstDivides(xs, i1, i2, a, b, q);
      assert FirstDivides(xs, i, n, a, b, q);
    }
  }

  /** No pair is left from `(i, |xs|)` when `i + 2 >= |xs|`. */
  lemma NoPairsLeft(xs: seq<int>, i: nat, j: nat, q: int)
    requires i < j == |xs| && i + 2 >= |xs|
    ensures !DividesFirst(xs, i, j, q)
  {
  }

  /** A `Neither` pair at the start can be skipped. */
  lemma SkipNeither(xs: seq<int>, i: nat, j: nat, q: int)
    requires i < j < |xs| && Judge(xs[i], xs[j]) == Neither
    ensures DividesFirst(xs, i, j, q) <==> DividesFirst(xs, i, j + 1, q)
  {
    var j1 := j + 1;
    if DividesFirst(xs, i, j, q) {
      var a, b :| FirstDivides(xs, i, j, a, b, q);
      assert FirstDivides(xs, i, j1, a, b, q);
    }
    if DividesFirst(xs, i, j1, q) {
      var a, b :| FirstDivides(xs, i, j1, a, b, q);
      assert FirstDivides(xs, i, j, a, b, q);
    }
  }

  // ------------------------------------------------------------ the sheet

  /** The lines read as rows: those before the first empty line. */
  function Rows(lines: seq<string>): (rows: seq<string>)
    ensures rows <= lines
    ensures forall k :: 0 <= k < |rows| ==> rows[k] != []
    ensures |rows| < |lines| ==> lines[|rows|] == []
  {
    if lines == [] || lines[0] == [] then [] else [lines[0]] + Rows(lines[1..])
  }

  /** The score of each row. */
  function Scores(score: string -> Option<int>, rows: seq<string>): (r: seq<Option<int>>)
    ensures |r| == |rows|
  {
    seq(|rows|, k requires 0 <= k < |rows| => score(rows[k]))
  }

  /** The score of row `k`. */
  lemma ScoresAt(score: string -> Option<int>, rows: seq<string>, k: nat, row: string)
    requires k < |rows| && rows[k] == row
    ensures Scores(score, rows)[k] == score(row)
  {
  }

  /** The sum of two scores, `None` once either panics. */
  function Plus(a: Option<int>, b: Option<int>): Option<int> {
    if a.None? || b.None? then None else Some(a.value + b.value)
  }

  /** `checksum += checksum_row(input)` over the scores from the first. */
  function Sum(scores: seq<Option<int>>): Option<int> {
    if scores == [] then Some(0) else Plus(Sum(scores[..|scores| - 1]), scores[|scores| - 1])
  }

  /** `main`: the scores of the rows up to the first empty line (or the
      end of input), added up; `None` when a row panics.  Part 1 scores
      with `Spread`, part 2 with `Quotient`. */
  function Checksum(score: string -> Option<int>, lines: seq<string>): Option<int> {
    Sum(Scores(score, Rows(lines)))
  }

  /** `main` of part 1: read a line, stop at an empty one, otherwise add
      the row's spread to `checksum`. */
  method SpreadChecksum(lines: seq<string>) returns (r: Option<int>)
    ensures r == Checksum(Spread, lines)
  {
    ghost var rows := Rows(lines);
    ghost var scores: seq<Option<int>> := [];
    var checksum := 0;
    var i := 0;
    while i < |lines| && lines[i] != []
      invariant i <= |rows| && |scores| == i && ScoredAs(Spread, rows, scores)
      invariant Sum(scores).Some? && Sum(scores).value == checksum
    {
      var row := lines[i];
      assert i < |rows| && rows[i] == row;
      var s := SpreadRow(row);
      ScoredNext(Spread, rows, scores, s);
      SumNext(scores, checksum, s);
      scores := scores + [s];
      if s.None? {
        ChecksumPrefix(Spread, lines, scores);
        return None;
      }
      checksum := checksum + s.value;
      i := i + 1;
    }
    ChecksumPrefix(Spread, lines, scores);
    r := Some(checksum);
  }

  /** `main` of part 2: the same loop adding the rows' quotients. */
  method QuotientChecksum(lines: seq<string>) returns (r: Option<int>)
    ensures r == Checksum(Quotient, lines)
  {
    ghost var rows := Rows(lines);
    ghost var scores: seq<Option<int>> := [];
    var checksum := 0;
    var i := 0;
    while i < |lines| && lines[i] != []
      invariant i <= |rows| && |scores| == i && ScoredAs(Quotient, rows, scores)
      invariant Sum(scores).Some? && Sum(scores).value == checksum
    {
      var row := lines[i];
      assert i < |rows| && rows[i] == row;
      var s := QuotientRow(row);
      ScoredNext(Quotient, rows, scores, s);
      SumNext(scores, checksum, s);
      scores := scores + [s];
      if s.None? {
        ChecksumPrefix(Quotient, lines, scores);
        return None;
      }
      checksum := checksum + s.value;
      i := i + 1;
    }
    ChecksumPrefix(Quotient, lines, scores);
    r := Some(checksum);
  }

  /** `scores` are the scores of the first rows. */
  ghost predicate ScoredAs(score: string -> Option<int>, rows: seq<string>, scores: seq<Option<int>>) {
    |scores| <= |rows| &&
    forall k {:trigger score(rows[k])} :: 0 <= k < |scores| ==> scores[k] == score(rows[k])
  }

  /** The next row's score. */
  lemma ScoredNext(score: string -> Option<int>, rows: seq<string>, scores: seq<Option<int>>, s: Option<int>)
    requires ScoredAs(score, rows, scores) && |scores| < |rows| && s == score(rows[|scores|])
    ensures ScoredAs(score, rows, scores + [s])
  {
  }

  /** One more score: the sum panics with it or adds it. */
  lemma SumNext(scores: seq<Option<int>>, sum: int, s: Option<int>)
    requires Sum(scores) == Some(sum)
    ensures s.None? ==> Sum(scores + [s]).None?
    ensures s.Some? ==> Sum(scores + [s]) == Some(sum + s.value)
  {
    assert (scores + [s])[..|scores|] == scores;
  }

  /** The scores of the first rows decide the checksum: all of them when
      they are all the rows, and a panic when the last of them panics. */
  lemma ChecksumPrefix(score: string -> Option<int>, lines: seq<string>, scores: seq<Option<int>>)
    requires ScoredAs(score, Rows(lines), scores)
    ensures |scores| == |Rows(lines)| ==> Checksum(score, lines) == Sum(scores)
    ensures scores != [] && scores[|scores| - 1].None? ==> Checksum(score, lines).None?
  {
    var rows := Rows(lines);
    var all := Scores(score, rows);
    if |scores| == |rows| {
      forall k | 0 <= k < |rows|
        ensures all[k] == scores[k]
      {
        ScoresAt(score, rows, k, rows[k]);
      }
      assert all == scores;
    }
    if scores != [] && scores[|scores| - 1].None? {
      var k := |scores| - 1;
      ScoresAt(score, rows, k, rows[k]);
      SumNone(all, k);
    }
  }

  /** The sum panics exactly when one of the scores does. */
  lemma {:induction false} SumPanics(scores: seq<Option<int>>)
    ensures Sum(scores).None? <==> exists k :: 0 <= k < |scores| && scores[k].None?
  {
    if scores != [] {
      var front := scores[..|scores| - 1];
      SumPanics(front);
      if exists k :: 0 <= k < |front| && front[k].None? {
        var k :| 0 <= k < |front| && front[k].None?;
        assert scores[k].None?;
      }
      if exists k :: 0 <= k < |scores| && scores[k].None? {
        var k :| 0 <= k < |scores| && scores[k].None?;
        if k < |front| {
          assert front[k].None?;
        }
      }
    }
  }

  /** A score that panics makes the sum panic. */
  lemma SumNone(scores: seq<Option<int>>, k: nat)
    requires k < |scores| && scores[k].None?
    ensures Sum(scores).None?
  {
    SumPanics(scores);
  }

  /** Without panics the sum is the total of the scores. */
  lemma {:induction false} SumAppend(a: seq<Option<int>>, b: seq<Option<int>>)
    ensures Sum(a + b) == Plus(Sum(a), Sum(b))
    decreases |b|
  {
    if b == [] {
      assert a + b == a;
      if Sum(a).Some? {
        assert Plus(Sum(a), Some(0)) == Sum(a);
      }
    } else {
      var front := b[..|b| - 1];
      assert (a + b)[..|a + b| - 1] == a + front;
      SumAppend(a, front);
    }
  }

  /** Nothing after the first empty line is read. */
  lemma ChecksumStops(score: string -> Option<int>, rows: seq<string>, rest: seq<string>)
    requires forall k :: 0 <= k < |rows| ==> rows[k] != []
    ensures Rows(rows + [[]] + rest) == rows
    ensures Checksum(score, rows + [[]] + rest) == Checksum(score, rows)
  {
    RowsStop(rows, rest);
    RowsAll(rows);
  }

  lemma {:induction false} RowsStop(rows: seq<string>, rest: seq<string>)
    requires forall k :: 0 <= k < |rows| ==> rows[k] != []
    ensures Rows(rows + [[]] + rest) == rows
  {
    if rows != [] {
      assert (rows + [[]] + rest)[1..] == rows[1..] + [[]] + rest;
      RowsStop(rows[1..], rest);
    }
  }

  lemma {:induction false} RowsAll(rows: seq<string>)
    requires forall k :: 0 <= k < |rows| ==> rows[k] != []
    ensures Rows(rows) == rows
  {
    if rows != [] {
      RowsAll(rows[1..]);
    }
  }

  /** The checksum panics exactly when a row before the first empty line
      does. */
  lemma ChecksumPanics(score: string -> Option<int>, lines: seq<string>)
    ensures Checksum(score, lines).None? <==>
      exists k :: 0 <= k < |Rows(lines)| && score(lines[k]).None?
  {
    var rows := Rows(lines);
    var scores := Scores(score, rows);
    SumPanics(scores);
    forall k | 0 <= k < |rows|
      ensures scores[k] == score(lines[k])
    {
      ScoresAt(score, rows, k, lines[k]);
    }
  }

  // ------------------------------------------------------------ samples

  /** A row written as words joined by spaces, each a `u32`, has those
      words' values as cells. */
  lemma RowOf(words: seq<string>, values: seq<int>)
    requires |words| >= 1 && |values| == |words|
    requires forall i :: 0 <= i < |words| ==> IsWord(words[i]) && ParseU32(words[i]) == Some(values[i])
    ensures Cells(Join(words, ' ')) == Some(values)
  {
    WordsJoin(words, ' ');
    ParseAllOf(words, values, ParseU32);
  }

  /** A one-digit word is a word and reads as that digit. */
  lemma DigitWord(c: char)
    requires IsDigit(c)
    ensures IsWord([c]) && ParseU32([c]) == Some(c as int - '0' as int)
  {
    assert DigitsValue([c]) == DigitsValue([c][..0]) * 10 + (c as int - '0' as int);
  }

  /** A row of four one-digit words. */
  lemma FourDigits(a: char, b: char, c: char, d: char)
    requires IsDigit(a) && IsDigit(b) && IsDigit(c) && IsDigit(d)
    ensures Cells([a, ' ', b, ' ', c, ' ', d]) ==
      Some([a as int - '0' as int, b as int - '0' as int, c as int - '0' as int, d as int - '0' as int])
  {
    DigitWord(a);
    DigitWord(b);
    DigitWord(c);
    DigitWord(d);
    var words := [[a], [b], [c], [d]];
    assert Join(words[2..], ' ') == [c, ' ', d];
    assert Join(words, ' ') == [a, ' ', b, ' ', c, ' ', d];
    RowOf(words, [a as int - '0' as int, b as int - '0' as int, c as int - '0' as int, d as int - '0' as int]);
  }

  /** A row of three one-digit words. */
  lemma ThreeDigits(a: char, b: char, c: char)
    requires IsDigit(a) && IsDigit(b) && IsDigit(c)
    ensures Cells([a, ' ', b, ' ', c]) ==
      Some([a as int - '0' as int, b as int - '0' as int, c as int - '0' as int])
  {
    DigitWord(a);
    DigitWord(b);
    DigitWord(c);
    var words := [[a], [b], [c]];
    assert Join(words[1..], ' ') == [b, ' ', c];
    assert Join(words, ' ') == [a, ' ', b, ' ', c];
    RowOf(words, [a as int - '0' as int, b as int - '0' as int, c as int - '0' as int]);
  }

  /** The first sample row of part 1: 9 - 1. */
  lemma SpreadSample1()
    ensures Spread("5 1 9 5") == Some(8)
  {
    FourDigits('5', '1', '9', '5');
    assert Cells("5 1 9 5") == Some([5, 1, 9, 5]);
    RangeSample1();
    SpreadOf("5 1 9 5");
  }

  /** The range of the cells `5 1 9 5`. */
  lemma RangeSample1()
    ensures Range([5, 1, 9, 5]) == Some(8)
  {
    StepExtremes([], 5);
    StepExtremes([5], 1);
    StepExtremes([5, 1], 9);
    StepExtremes([5, 1, 9], 5);
    assert [5, 1, 9] + [5] == [5, 1, 9, 5];
  }

  /** The second sample row of part 1: 7 - 3. */
  lemma SpreadSample2()
    ensures Spread("7 5 3") == Some(4)
  {
    ThreeDigits('7', '5', '3');
    assert Cells("7 5 3") == Some([7, 5, 3]);
    RangeSample2();
    SpreadOf("7 5 3");
  }

  /** The range of the cells `7 5 3`. */
  lemma RangeSample2()
    ensures Range([7, 5, 3]) == Some(4)
  {
    StepExtremes([], 7);
    StepExtremes([7], 5);
    StepExtremes([7, 5], 3);
    assert [7, 5] + [3] == [7, 5, 3];
  }

  /** The third sample row of part 1: 8 - 2. */
  lemma SpreadSample3()
    ensures Spread("2 4 6 8") == Some(6)
  {
    FourDigits('2', '4', '6', '8');
    assert Cells("2 4 6 8") == Some([2, 4, 6, 8]);
    RangeSample3();
    SpreadOf("2 4 6 8");
  }

  /** The range of the cells `2 4 6 8`. */
  lemma RangeSample3()
    ensures Range([2, 4, 6, 8]) == Some(6)
  {
    StepExtremes([], 2);
    StepExtremes([2], 4);
    StepExtremes([2, 4], 6);
    StepExtremes([2, 4, 6], 8);
    assert [2, 4, 6] + [8] == [2, 4, 6, 8];
  }

  /** A sheet of three rows, none empty, scores as the three rows do. */
  lemma SheetOfThree(score: string -> Option<int>, a: string, b: string, c: string, x: int, y: int, z: int)
    requires a != [] && b != [] && c != []
    requires score(a) == Some(x) && score(b) == Some(y) && score(c) == Some(z)
    ensures Checksum(score, [a, b, c]) == Some(x + y + z)
  {
    var lines := [a, b, c];
    RowsAll(lines);
    var scores := Scores(score, lines);
    ScoresAt(score, lines, 0, a);
    ScoresAt(score, lines, 1, b);
    ScoresAt(score, lines, 2, c);
    assert scores == [Some(x), Some(y), Some(z)];
    SumNext([], 0, Some(x));
    SumNext([Some(x)], x, Some(y));
    SumNext([Some(x), Some(y)], x + y, Some(z));
    assert [Some(x)] == [] + [Some(x)];
    assert [Some(x), Some(y)] == [Some(x)] + [Some(y)];
    assert scores == [Some(x), Some(y)] + [Some(z)];
  }

  /** The sample sheet of part 1 has checksum 18. */
  lemma SpreadSampleSheet()
    ensures Checksum(Spread, ["5 1 9 5", "7 5 3", "2 4 6 8"]) == Some(18)
  {
    SpreadSample1();
    SpreadSample2();
    SpreadSample3();
    SheetOfThree(Spread, "5 1 9 5", "7 5 3", "2 4 6 8", 8, 4, 6);
  }

  /** The first sample row of part 2: 8 / 2, after five pairs that
      do not divide. */
  lemma QuotientSample1()
    ensures Quotient("5 9 2 8") == Some(4)
  {
    var cells := [5, 9, 2, 8];
    FourDigits('5', '9', '2', '8');
    assert Cells("5 9 2 8") == Some(cells);
    assert ScanFrom(cells, 2, 3) == Some(4);
    assert ScanFrom(cells, 1, 2) == ScanFrom(cells, 2, 3);
    assert ScanFrom(cells, 0, 1) == ScanFrom(cells, 1, 2);
  }

  /** The second sample row of part 2: 9 / 3. */
  lemma QuotientSample2()
    ensures Quotient("9 4 7 3") == Some(3)
  {
    var cells := [9, 4, 7, 3];
    FourDigits('9', '4', '7', '3');
    assert Cells("9 4 7 3") == Some(cells);
    assert ScanFrom(cells, 0, 3) == Some(3);
    assert ScanFrom(cells, 0, 1) == ScanFrom(cells, 0, 3);
  }

  /** The third sample row of part 2: 6 / 3. */
  lemma QuotientSample3()
    ensures Quotient("3 8 6 5") == Some(2)
  {
    var cells := [3, 8, 6, 5];
    FourDigits('3', '8', '6', '5');
    assert Cells("3 8 6 5") == Some(cells);
    assert ScanFrom(cells, 0, 2) == Some(2);
    assert ScanFrom(cells, 0, 1) == ScanFrom(cells, 0, 2);
  }

  /** The sample sheet of part 2 has checksum 9. */
  lemma QuotientSampleSheet()
    ensures Checksum(Quotient, ["5 9 2 8", "9 4 7 3", "3 8 6 5"]) == Some(9)
  {
    QuotientSample1();
    QuotientSample2();
    QuotientSample3();
    SheetOfThree(Quotient, "5 9 2 8", "9 4 7 3", "3 8 6 5", 4, 3, 2);
  }

  /** A zero cell is divisible by whatever follows it: the quotient is 0. */
  lemma ZeroFirst()
    ensures Scan([0, 5]) == Some(0)
  {
    assert Judge(0, 5) == Divides(0);
  }

  /** A zero cell that follows panics: `first % 0` is a division by zero. */
  lemma ZeroSecond()
    ensures Scan([5, 0]) == None
  {
    assert Judge(5, 0) == DivideByZero;
  }
}
