/** The square grids of on (`#`) and off (`.`) cells of day 21
    (`day-21/src/grid.rs`): flipping, transposing, the eight variations, the
    split into 2 x 2 or 3 x 3 tiles and the merge back, and the text form
    `#./.#` read by `from_str` and written by `Debug`.

    `symmetric`, `variations`, `split`, `merge`, `from_str` and `fmt` build
    their results step by step in the source and are methods here, each
    proved equal to a function (`Transpose`, `VariationsOf`, `SplitSpec`,
    `MergeSpec`, `ParseGrid`, `DebugString`) about which the round trips are
    proved.
 */
module Day21Grid {
  import opened Wrappers
  import opened Text
  import opened Counting

  datatype Grid = Grid(cells: seq<seq<bool>>)

  /** `size`: the number of rows. */
  function Size(g: Grid): nat { |g.cells| }

  predicate IsSquare(g: Grid) {
    forall r :: 0 <= r < |g.cells| ==> |g.cells[r]| == |g.cells|
  }

  /** Every row has at least as many cells as the grid has rows, so the
      cells that `symmetric` and `split` index exist. */
  predicate Wide(g: Grid) {
    forall r :: 0 <= r < |g.cells| ==> |g.cells[r]| >= |g.cells|
  }

  /** `Grid::default()`: the glider `.#./..#/###`. */
  const DefaultGrid: Grid := Grid([[false, true, false], [false, false, true], [true, true, true]])

  // ---------------------------------------------------------------- counting

  /** `number_of_on`: the number of on cells. */
  function NumberOfOn(g: Grid): (n: nat)
    ensures n == |Cells(g.cells, |g.cells|)|
  {
    SumCountsCells(g.cells, |g.cells|);
    SumCounts(g.cells, |g.cells|)
  }

  // ---------------------------------------------------------------- flip

  /** `Vec::reverse`. */
  function Reversed<T>(s: seq<T>): (r: seq<T>)
    ensures |r| == |s|
    ensures forall i :: 0 <= i < |s| ==> r[i] == s[|s| - 1 - i]
  {
    if s == [] then [] else [s[|s| - 1]] + Reversed(s[..|s| - 1])
  }

  /** `flip`: the rows in reverse order. */
  function Flip(g: Grid): (r: Grid)
    ensures |r.cells| == |g.cells|
    ensures Wide(g) ==> Wide(r)
    ensures IsSquare(g) ==> IsSquare(r)
  {
    Grid(Reversed(g.cells))
  }

  /** Flipping twice gives the grid back. */
  lemma FlipFlip(g: Grid)
    ensures Flip(Flip(g)) == g
  {
    assert Flip(Flip(g)).cells == g.cells;
  }

  // ---------------------------------------------------------------- transpose

  /** What `symmetric` computes: cell `(i, j)` of the leading square is cell
      `(j, i)` of the grid, and cells further right are kept. */
  function Transpose(g: Grid): (r: Grid)
    requires Wide(g)
    ensures |r.cells| == |g.cells| && Wide(r)
    ensures forall i :: 0 <= i < |g.cells| ==> |r.cells[i]| == |g.cells[i]|
  {
    var n := |g.cells|;
    Grid(seq(n, i requires 0 <= i < n =>
      seq(|g.cells[i]|, j requires 0 <= j < |g.cells[i]| => if j < n then g.cells[j][i] else g.cells[i][j])))
  }

  /** On a square grid, `symmetric` is the transpose. */
  lemma TransposeSquare(g: Grid)
    requires IsSquare(g)
    ensures IsSquare(Transpose(g))
    ensures forall i, j {:trigger Transpose(g).cells[i][j]} :: 0 <= i < |g.cells| && 0 <= j < |g.cells| ==> Transpose(g).cells[i][j] == g.cells[j][i]
  {
  }

  /** Transposing a square grid twice gives it back. */
  lemma TransposeTranspose(g: Grid)
    requires IsSquare(g)
    ensures Transpose(Transpose(g)) == g
  {
    TransposeSquare(g);
    TransposeSquare(Transpose(g));
    var t := Transpose(Transpose(g));
    assert forall i :: 0 <= i < |g.cells| ==> t.cells[i] == g.cells[i];
  }

  /** `symmetric`: the cells are copied, then `cells[col][row]` is
      overwritten for every `row` and `col` below the size. */
  method Symmetric(g: Grid) returns (r: Grid)
    requires Wide(g)
    ensures r == Transpose(g)
  {
    var n := |g.cells|;
    var cells := g.cells;
    for row := 0 to n
      invariant |cells| == n
      invariant forall i :: 0 <= i < n ==> |cells[i]| == |g.cells[i]|
      invariant forall i, j {:trigger cells[i][j]} :: 0 <= i < n && 0 <= j < |g.cells[i]| ==>
        cells[i][j] == if j < row then g.cells[j][i] else g.cells[i][j]
    {
      for col := 0 to n
        invariant |cells| == n
        invariant forall i :: 0 <= i < n ==> |cells[i]| == |g.cells[i]|
        invariant forall i, j {:trigger cells[i][j]} :: 0 <= i < n && 0 <= j < |g.cells[i]| ==>
          cells[i][j] == if j < row || (j == row && i < col) then g.cells[j][i] else g.cells[i][j]
      {
        cells := cells[col := cells[col][row := g.cells[row][col]]];
      }
    }
    assert forall i :: 0 <= i < n ==> cells[i] == Transpose(g).cells[i];
    r := Grid(cells);
  }

  // ---------------------------------------------------------------- variations

  /** A quarter turn: `flip` after `symmetric`. */
  function Rotate(g: Grid): (r: Grid)
    requires Wide(g)
    ensures |r.cells| == |g.cells| && Wide(r)
  {
    Flip(Transpose(g))
  }

  /** `h` is `g` turned a quarter anticlockwise: a square of the same size
      whose cell `(i, j)` is cell `(j, n - 1 - i)` of `g`. */
  predicate QuarterTurnOf(h: Grid, g: Grid) {
    && IsSquare(g) && IsSquare(h) && |h.cells| == |g.cells|
    && forall i, j {:trigger h.cells[i][j]} :: 0 <= i < |g.cells| && 0 <= j < |g.cells| ==>
      h.cells[i][j] == g.cells[j][|g.cells| - 1 - i]
  }

  /** On a square grid `Rotate` turns the grid a quarter anticlockwise. */
  lemma RotateSquare(g: Grid)
    requires IsSquare(g)
    ensures QuarterTurnOf(Rotate(g), g)
  {
    TransposeSquare(g);
  }

  /** `h` is `g` turned half way round: a square of the same size whose
      cell `(i, j)` is cell `(n - 1 - i, n - 1 - j)` of `g`. */
  predicate HalfTurnOf(h: Grid, g: Grid) {
    && IsSquare(g) && IsSquare(h) && |h.cells| == |g.cells|
    && forall i, j {:trigger h.cells[i][j]} :: 0 <= i < |g.cells| && 0 <= j < |g.cells| ==>
      h.cells[i][j] == g.cells[|g.cells| - 1 - i][|g.cells| - 1 - j]
  }

  /** Two quarter turns of a square grid are a half turn. */
  lemma RotateTwice(g: Grid)
    requires IsSquare(g)
    ensures HalfTurnOf(Rotate(Rotate(g)), g)
  {
    RotateSquare(g);
    RotateSquare(Rotate(g));
    QuarterTurnTwice(g, Rotate(g), Rotate(Rotate(g)));
  }

  lemma QuarterTurnTwice(g: Grid, h: Grid, k: Grid)
    requires QuarterTurnOf(h, g) && QuarterTurnOf(k, h)
    ensures HalfTurnOf(k, g)
  {
    var n := |g.cells|;
    forall i, j | 0 <= i < n && 0 <= j < n
      ensures k.cells[i][j] == g.cells[n - 1 - i][n - 1 - j]
    {
      assert k.cells[i][j] == h.cells[j][n - 1 - i];
    }
  }

  /** Two half turns of a square grid give it back. */
  lemma HalfTurnTwice(g: Grid, h: Grid, k: Grid)
    requires HalfTurnOf(h, g) && HalfTurnOf(k, h)
    ensures k == g
  {
    var n := |g.cells|;
    forall i | 0 <= i < n
      ensures k.cells[i] == g.cells[i]
    {
      assert forall j :: 0 <= j < n ==> k.cells[i][j] == h.cells[n - 1 - i][n - 1 - j];
    }
    assert k.cells == g.cells;
  }

  lemma HalfTurnsTwo(g: Grid)
    requires IsSquare(g)
    ensures Rotate(Rotate(Rotate(Rotate(g)))) == g
  {
    RotateTwice(g);
    var h := Rotate(Rotate(g));
    RotateTwice(h);
    HalfTurnTwice(g, h, Rotate(Rotate(h)));
  }

  /** `k` quarter turns. */
  function Turn(g: Grid, k: nat): (r: Grid)
    requires Wide(g)
    ensures |r.cells| == |g.cells| && Wide(r)
    decreases k
  {
    if k == 0 then g else Turn(Rotate(g), k - 1)
  }

  /** Four quarter turns give the grid back. */
  lemma RotateFour(g: Grid)
    requires IsSquare(g)
    ensures Turn(g, 4) == g
  {
    HalfTurnsTwo(g);
  }

  /** The `k` rounds of `variations` that start from `g`: each pushes the
      transpose and then the quarter turn, which the next round starts from. */
  function VariationsFrom(g: Grid, k: nat): (r: seq<Grid>)
    requires Wide(g)
    ensures |r| == 2 * k
    decreases k
  {
    if k == 0 then [] else [Transpose(g), Rotate(g)] + VariationsFrom(Rotate(g), k - 1)
  }

  /** The number of rounds of `variations`.  A function rather than a
      literal, so that the verifier unfolds `VariationsFrom` only on demand. */
  function VariationRounds(): nat { 4 }

  /** What `variations` computes: eight grids, two per round. */
  function VariationsOf(g: Grid): seq<Grid>
    requires Wide(g)
  {
    VariationsFrom(g, VariationRounds())
  }

  /** One round of `variations` moves two grids from the rounds still to
      come to the grids pushed so far. */
  lemma VariationsStep(vs: seq<Grid>, g: Grid, k: nat)
    requires Wide(g) && k > 0
    ensures vs + VariationsFrom(g, k) == vs + [Transpose(g)] + [Rotate(g)] + VariationsFrom(Rotate(g), k - 1)
  {
    PushTwo(vs, Transpose(g), Rotate(g), VariationsFrom(Rotate(g), k - 1));
  }

  lemma PushTwo<T>(vs: seq<T>, a: T, b: T, rest: seq<T>)
    ensures vs + ([a, b] + rest) == vs + [a] + [b] + rest
  {
  }

  /** `variations` pushes two grids in each of its four rounds. */
  method Variations(g: Grid) returns (vs: seq<Grid>)
    requires Wide(g)
    ensures vs == VariationsOf(g)
  {
    var last := g;
    vs := [];
    for k := 0 to 4
      invariant Wide(last)
      invariant vs + VariationsFrom(last, 4 - k) == VariationsOf(g)
    {
      ghost var start := last;
      ghost var before := vs;
      last := Symmetric(last);
      vs := vs + [last];
      last := Flip(last);
      vs := vs + [last];
      VariationsStep(before, start, 4 - k);
    }
  }

  /** The last grid of `k` rounds is `k` quarter turns away. */
  lemma {:induction false} VariationsFromLast(g: Grid, k: nat)
    requires Wide(g) && k > 0
    ensures VariationsFrom(g, k)[2 * k - 1] == Turn(g, k)
    decreases k
  {
    if k > 1 {
      VariationsFromLast(Rotate(g), k - 1);
    }
  }

  /** Every grid in `k` rounds from a square grid is square of the same size. */
  lemma {:induction false} VariationsFromSquare(g: Grid, k: nat)
    requires IsSquare(g)
    ensures forall v :: v in VariationsFrom(g, k) ==> IsSquare(v) && |v.cells| == |g.cells|
    decreases k
  {
    if k > 0 {
      RotateSquare(g);
      TransposeSquare(g);
      VariationsFromSquare(Rotate(g), k - 1);
    }
  }

  /** Square grids have eight variations, all square of the same size, and
      the last is the grid itself, so a rule always matches its own input. */
  lemma VariationsSquare(g: Grid)
    requires IsSquare(g)
    ensures |VariationsOf(g)| == 8
    ensures forall v :: v in VariationsOf(g) ==> IsSquare(v) && |v.cells| == |g.cells|
    ensures VariationsOf(g)[7] == g
  {
    VariationsFromSquare(g, 4);
    VariationsFromLast(g, 4);
    RotateFour(g);
  }

  // ---------------------------------------------------------------- split

  /** The tile side `split` uses: 2 for an even size, 3 otherwise. */
  function Step(g: Grid): nat { if |g.cells| % 2 == 0 then 2 else 3 }

  /** `split` reads only cells that exist: the grid is `Wide` and its size
      a multiple of the tile side. */
  predicate CanSplit(g: Grid) { Wide(g) && |g.cells| % Step(g) == 0 }

  lemma TileBound(i: nat, k: nat, step: nat)
    requires i < k
    ensures i * step + step <= k * step
  {
    var d: nat := k - (i + 1);
    assert k * step == i * step + step + d * step;
  }

  lemma DivExact(n: nat, step: nat)
    requires step > 0 && n % step == 0
    ensures (n / step) * step == n
  {
  }

  /** The `step` x `step` tile whose top-left cell is `(row0, col0)`. */
  function Tile(g: Grid, row0: nat, col0: nat, step: nat): (t: Grid)
    requires Wide(g) && row0 + step <= |g.cells| && col0 + step <= |g.cells|
    ensures IsSquare(t) && |t.cells| == step
  {
    Grid(seq(step, r requires 0 <= r < step =>
      seq(step, c requires 0 <= c < step => g.cells[row0 + r][col0 + c])))
  }

  /** Tile `(i, j)` of the split. */
  function TileAt(g: Grid, i: nat, j: nat): (t: Grid)
    requires CanSplit(g) && i < |g.cells| / Step(g) && j < |g.cells| / Step(g)
    ensures IsSquare(t) && |t.cells| == Step(g)
  {
    var step := Step(g);
    var k := |g.cells| / step;
    DivExact(|g.cells|, step);
    TileBound(i, k, step);
    TileBound(j, k, step);
    Tile(g, i * step, j * step, step)
  }

  /** What `split` computes: row `i` of the result holds tiles `(i, 0)`,
      `(i, 1)`, ... from left to right. */
  function SplitSpec(g: Grid): (r: seq<seq<Grid>>)
    requires CanSplit(g)
    ensures |r| == |g.cells| / Step(g)
    ensures forall i :: 0 <= i < |r| ==> |r[i]| == |r|
  {
    var k := |g.cells| / Step(g);
    seq(k, i requires 0 <= i < k => seq(k, j requires 0 <= j < k => TileAt(g, i, j)))
  }

  /** The cells of one tile, row by row, as `split`'s two innermost loops
      collect them. */
  method TileCells(g: Grid, row0: nat, col0: nat, step: nat) returns (cells: seq<seq<bool>>)
    requires Wide(g) && row0 + step <= |g.cells| && col0 + step <= |g.cells|
    ensures cells == Tile(g, row0, col0, step).cells
  {
    cells := [];
    for row := row0 to row0 + step
      invariant |cells| == row - row0
      invariant forall r :: 0 <= r < row - row0 ==> cells[r] == Tile(g, row0, col0, step).cells[r]
    {
      var newRow := [];
      for col := col0 to col0 + step
        invariant newRow == g.cells[row][col0..col]
      {
        newRow := newRow + [g.cells[row][col]];
      }
      cells := cells + [newRow];
    }
  }

  /** One row of tiles, as `split`'s inner `while` builds it. */
  method TileRow(g: Grid, rowStart: nat, ghost i: nat) returns (grids: seq<Grid>)
    requires CanSplit(g) && i < |g.cells| / Step(g) && rowStart == i * Step(g)
    ensures grids == SplitSpec(g)[i]
  {
    var n := |g.cells|;
    var step := if n % 2 == 0 then 2 else 3;
    var k := n / step;
    DivExact(n, step);
    TileBound(i, k, step);
    grids := [];
    var colStart := 0;
    ghost var j := 0;
    while colStart < n
      invariant j <= k && colStart == j * step
      invariant grids == SplitSpec(g)[i][..j]
      decreases n - colStart
    {
      TileBound(j, k, step);
      var cells := TileCells(g, rowStart, colStart, step);
      grids := grids + [Grid(cells)];
      colStart := colStart + step;
      j := j + 1;
    }
  }

  /** `split`: the grid cut into tiles of side `Step(g)`. */
  method Split(g: Grid) returns (gridOfGrids: seq<seq<Grid>>)
    requires CanSplit(g)
    ensures gridOfGrids == SplitSpec(g)
  {
    var n := |g.cells|;
    var step: nat := if n % 2 == 0 then 2 else 3;
    var k := n / step;
    DivExact(n, step);
    gridOfGrids := [];
    var rowStart := 0;
    ghost var i := 0;
    while rowStart < n
      invariant i <= k && rowStart == i * step
      invariant gridOfGrids == SplitSpec(g)[..i]
      decreases n - rowStart
    {
      var grids := TileRow(g, rowStart, i);
      gridOfGrids := gridOfGrids + [grids];
      rowStart := rowStart + step;
      i := i + 1;
    }
  }

  // ---------------------------------------------------------------- merge

  /** The pieces concatenated in order, as repeated `extend`s build them. */
  function Flatten<T>(ss: seq<seq<T>>): seq<T> {
    if ss == [] then [] else Flatten(ss[..|ss| - 1]) + ss[|ss| - 1]
  }

  /** Concatenating the consecutive width-`w` slices of `s` gives `s`. */
  lemma {:induction false} FlattenChunks<T>(ss: seq<seq<T>>, s: seq<T>, w: nat)
    requires |s| == |ss| * w
    requires forall b :: 0 <= b < |ss| ==> b * w + w <= |s| && ss[b] == s[b * w..b * w + w]
    ensures Flatten(ss) == s
  {
    if ss != [] {
      var m := |ss| - 1;
      assert |s| == m * w + w;
      var front := s[..m * w];
      forall b | 0 <= b < m
        ensures b * w + w <= |front| && ss[..m][b] == front[b * w..b * w + w]
      {
        TileBound(b, m, w);
      }
      FlattenChunks(ss[..m], front, w);
      assert s == front + s[m * w..m * w + w];
    }
  }

  /** The tile side `merge` assumes: the size of the last tile of the last row. */
  function MergeSize(grids: seq<seq<Grid>>): nat
    requires grids != [] && grids[|grids| - 1] != []
  {
    var last := grids[|grids| - 1];
    |last[|last| - 1].cells|
  }

  /** `merge` reads row `r` of every tile for `r` below `MergeSize`, and
      the two `unwrap`s need a last row with a last tile. */
  predicate CanMerge(grids: seq<seq<Grid>>) {
    grids != [] && grids[|grids| - 1] != [] &&
    forall a, b :: 0 <= a < |grids| && 0 <= b < |grids[a]| ==> |grids[a][b].cells| >= MergeSize(grids)
  }

  /** Row `r` of a row of tiles: row `r` of each tile, left to right. */
  function MergedRow(gridRow: seq<Grid>, r: nat): seq<bool>
    requires forall b :: 0 <= b < |gridRow| ==> r < |gridRow[b].cells|
  {
    Flatten(seq(|gridRow|, b requires 0 <= b < |gridRow| => gridRow[b].cells[r]))
  }

  /** The rows that a row of tiles contributes to the merged grid. */
  function MergedRows(grids: seq<seq<Grid>>, a: nat): seq<seq<bool>>
    requires CanMerge(grids) && a < |grids|
  {
    seq(MergeSize(grids), r requires 0 <= r < MergeSize(grids) => MergedRow(grids[a], r))
  }

  /** What `merge` computes. */
  function MergeSpec(grids: seq<seq<Grid>>): Grid
    requires CanMerge(grids)
  {
    Grid(Flatten(seq(|grids|, a requires 0 <= a < |grids| => MergedRows(grids, a))))
  }

  /** `merge`'s innermost loop. */
  method MergeRow(gridRow: seq<Grid>, r: nat) returns (mergedRow: seq<bool>)
    requires forall b :: 0 <= b < |gridRow| ==> r < |gridRow[b].cells|
    ensures mergedRow == MergedRow(gridRow, r)
  {
    mergedRow := [];
    for b := 0 to |gridRow|
      invariant mergedRow == Flatten(seq(b, b' requires 0 <= b' < b => gridRow[b'].cells[r]))
    {
      ghost var pieces := seq(b + 1, b' requires 0 <= b' < b + 1 => gridRow[b'].cells[r]);
      assert pieces[..b] == seq(b, b' requires 0 <= b' < b => gridRow[b'].cells[r]);
      mergedRow := mergedRow + gridRow[b].cells[r];
    }
    assert seq(|gridRow|, b' requires 0 <= b' < |gridRow| => gridRow[b'].cells[r])
      == seq(|gridRow|, b requires 0 <= b < |gridRow| => gridRow[b].cells[r]);
  }

  /** `merge`: the rows of every tile row, one grid row per tile row. */
  method Merge(grids: seq<seq<Grid>>) returns (g: Grid)
    requires CanMerge(grids)
    ensures g == MergeSpec(grids)
  {
    var cells: seq<seq<bool>> := [];
    var last := grids[|grids| - 1];
    var size := |last[|last| - 1].cells|;
    for a := 0 to |grids|
      invariant cells == Flatten(seq(a, a' requires 0 <= a' < a => MergedRows(grids, a')))
    {
      ghost var before := cells;
      for r := 0 to size
        invariant cells == before + MergedRows(grids, a)[..r]
      {
        var mergedRow := MergeRow(grids[a], r);
        TakeSnoc(MergedRows(grids, a), r);
        cells := cells + [mergedRow];
      }
      ghost var blocks := seq(a + 1, a' requires 0 <= a' < a + 1 => MergedRows(grids, a'));
      assert blocks[..a] == seq(a, a' requires 0 <= a' < a => MergedRows(grids, a'));
    }
    g := Grid(cells);
  }

  /** The split of a square grid can be merged, with the split's tile side. */
  lemma SplitMergeable(g: Grid)
    requires IsSquare(g) && CanSplit(g) && g.cells != []
    ensures CanMerge(SplitSpec(g)) && MergeSize(SplitSpec(g)) == Step(g)
  {
    DivExact(|g.cells|, Step(g));
  }

  /** Tile row `a` of the split contributes rows `a * step` to
      `a * step + step - 1` of the grid. */
  lemma MergedRowsOfSplit(g: Grid, a: nat)
    requires IsSquare(g) && CanSplit(g) && a < |g.cells| / Step(g)
    ensures CanMerge(SplitSpec(g))
    ensures a * Step(g) + Step(g) <= |g.cells|
    ensures MergedRows(SplitSpec(g), a) == g.cells[a * Step(g)..a * Step(g) + Step(g)]
  {
    var step := Step(g);
    DivExact(|g.cells|, step);
    TileBound(a, |g.cells| / step, step);
    SplitMergeable(g);
    forall r | 0 <= r < step
      ensures MergedRows(SplitSpec(g), a)[r] == g.cells[a * step + r]
    {
      MergedRowOfSplit(g, a, r);
    }
  }

  /** Merging the split of a square grid gives the grid back. */
  lemma MergeSplit(g: Grid)
    requires IsSquare(g) && CanSplit(g) && g.cells != []
    ensures CanMerge(SplitSpec(g)) && MergeSpec(SplitSpec(g)) == g
  {
    var step := Step(g);
    var k := |g.cells| / step;
    DivExact(|g.cells|, step);
    var tiles := SplitSpec(g);
    SplitMergeable(g);
    var blocks := seq(k, a requires 0 <= a < k => MergedRows(tiles, a));
    forall a | 0 <= a < k
      ensures a * step + step <= |g.cells| && blocks[a] == g.cells[a * step..a * step + step]
    {
      MergedRowsOfSplit(g, a);
    }
    FlattenChunks(blocks, g.cells, step);
  }

  /** Row `r` of tile row `a` of the split is row `a * step + r` of the grid. */
  lemma MergedRowOfSplit(g: Grid, a: nat, r: nat)
    requires IsSquare(g) && CanSplit(g) && a < |g.cells| / Step(g) && r < Step(g)
    ensures forall b :: 0 <= b < |SplitSpec(g)[a]| ==> r < |SplitSpec(g)[a][b].cells|
    ensures a * Step(g) + r < |g.cells|
    ensures MergedRow(SplitSpec(g)[a], r) == g.cells[a * Step(g) + r]
  {
    var n := |g.cells|;
    var step := Step(g);
    var k := n / step;
    DivExact(n, step);
    TileBound(a, k, step);
    var row := a * step + r;
    var gridRow := SplitSpec(g)[a];
    var pieces := seq(k, b requires 0 <= b < k => gridRow[b].cells[r]);
    forall b | 0 <= b < k
      ensures b * step + step <= |g.cells[row]| && pieces[b] == g.cells[row][b * step..b * step + step]
    {
      TileBound(b, k, step);
    }
    FlattenChunks(pieces, g.cells[row], step);
  }

  // ---------------------------------------------------------------- text

  /** The two `Err` messages of `from_str`. */
  datatype GridError = UnknownCell(cell: char) | RowLength(cells: nat, rows: nat)

  function CellChar(b: bool): char { if b then '#' else '.' }

  /** The cells of one row, `#` on and `.` off; the first other character is
      an error. */
  function ParseRow(row: string): (r: Result<seq<bool>, GridError>)
    ensures r.Ok? <==> forall i :: 0 <= i < |row| ==> row[i] == '#' || row[i] == '.'
    ensures r.Ok? ==> |r.value| == |row| && forall i :: 0 <= i < |row| ==> r.value[i] == (row[i] == '#')
    ensures r.Err? ==> r.error.UnknownCell? && r.error.cell in row && r.error.cell != '#' && r.error.cell != '.'
  {
    if row == [] then Ok([])
    else if row[0] != '#' && row[0] != '.' then Err(UnknownCell(row[0]))
    else
      var rest := ParseRow(row[1..]);
      if rest.Err? then Err(rest.error) else Ok([row[0] == '#'] + rest.value)
  }

  /** Every row parsed in order; the first bad cell is the error. */
  function ParseRows(rows: seq<string>): (r: Result<seq<seq<bool>>, GridError>)
    ensures r.Ok? <==> forall i :: 0 <= i < |rows| ==> ParseRow(rows[i]).Ok?
    ensures r.Ok? ==> |r.value| == |rows| && forall i :: 0 <= i < |rows| ==> Ok(r.value[i]) == ParseRow(rows[i])
  {
    if rows == [] then Ok([])
    else
      var first := ParseRow(rows[0]);
      if first.Err? then Err(first.error)
      else
        var rest := ParseRows(rows[1..]);
        if rest.Err? then Err(rest.error) else Ok([first.value] + rest.value)
  }

  /** The index of the first row whose length is not the number of rows. */
  function FirstBadRow(cells: seq<seq<bool>>, from: nat): (r: Option<nat>)
    requires from <= |cells|
    ensures r.None? <==> forall i :: from <= i < |cells| ==> |cells[i]| == |cells|
    ensures r.Some? ==> from <= r.value < |cells| && |cells[r.value]| != |cells|
    ensures r.Some? ==> forall i :: from <= i < r.value ==> |cells[i]| == |cells|
    decreases |cells| - from
  {
    if from == |cells| then None
    else if |cells[from]| != |cells| then Some(from)
    else FirstBadRow(cells, from + 1)
  }

  /** What `from_str` computes: the trimmed text split on `/`, every row
      parsed, then every row's length checked against the number of rows. */
  function FromStrSpec(s: string): (r: Result<Grid, GridError>)
    ensures r.Ok? ==> IsSquare(r.value) && r.value.cells != []
  {
    var rows := Text.Split(Trim(s), '/');
    var cells := ParseRows(rows);
    if cells.Err? then Err(cells.error)
    else
      var bad := FirstBadRow(cells.value, 0);
      if bad.Some? then Err(RowLength(|cells.value[bad.value]|, |cells.value|))
      else Ok(Grid(cells.value))
  }

  /** Rows of `#` and `.`, each as long as there are rows. */
  predicate SquareText(rows: seq<string>) {
    (forall i :: 0 <= i < |rows| ==> |rows[i]| == |rows|)
    && forall i, j :: 0 <= i < |rows| && 0 <= j < |rows[i]| ==> rows[i][j] == '#' || rows[i][j] == '.'
  }

  lemma RowsAccepted(rows: seq<string>)
    ensures (ParseRows(rows).Ok? && FirstBadRow(ParseRows(rows).value, 0).None?) <==> SquareText(rows)
  {
    var cells := ParseRows(rows);
    if cells.Ok? {
      forall i | 0 <= i < |rows| ensures |cells.value[i]| == |rows[i]| {
        assert Ok(cells.value[i]) == ParseRow(rows[i]);
      }
    } else {
      var i :| 0 <= i < |rows| && ParseRow(rows[i]).Err?;
      var c :| 0 <= c < |rows[i]| && rows[i][c] != '#' && rows[i][c] != '.';
    }
  }

  /** `from_str` accepts exactly the texts whose `/`-separated rows are made
      of `#` and `.` and are as long as there are rows. */
  lemma FromStrAccepts(s: string)
    ensures FromStrSpec(s).Ok? <==> SquareText(Text.Split(Trim(s), '/'))
  {
    RowsAccepted(Text.Split(Trim(s), '/'));
  }

  /** `from_str`: the rows are read cell by cell and pushed, then checked. */
  method FromStr(s: string) returns (r: Result<Grid, GridError>)
    ensures r == FromStrSpec(s)
  {
    var rows := Text.Split(Trim(s), '/');
    var cells: seq<seq<bool>> := [];
    for k := 0 to |rows|
      invariant ParseRows(rows[..k]) == Ok(cells)
    {
      var rowCells := ReadRow(rows[k]);
      if rowCells.Err? {
        ParseRowsPrefix(rows, k);
        return Err(rowCells.error);
      }
      ParseRowsSnoc(rows[..k], rows[k]);
      TakeSnoc(rows, k);
      cells := cells + [rowCells.value];
    }
    TakeAll(rows);
    var bad := CheckRows(cells);
    if bad.Some? {
      return Err(RowLength(|cells[bad.value]|, |cells|));
    }
    r := Ok(Grid(cells));
  }

  /** The loop of `from_str` over the cells of one row. */
  method ReadRow(row: string) returns (r: Result<seq<bool>, GridError>)
    ensures r == ParseRow(row)
  {
    var rowCells: seq<bool> := [];
    for i := 0 to |row|
      invariant ParseRow(row[..i]) == Ok(rowCells)
    {
      if row[i] != '#' && row[i] != '.' {
        ParseRowPrefix(row, i);
        return Err(UnknownCell(row[i]));
      }
      ParseRowSnoc(row[..i], row[i]);
      assert row[..i + 1] == row[..i] + [row[i]];
      rowCells := rowCells + [row[i] == '#'];
    }
    assert row[..|row|] == row;
    r := Ok(rowCells);
  }

  /** The loop of `from_str` that checks every row's length. */
  method CheckRows(cells: seq<seq<bool>>) returns (bad: Option<nat>)
    ensures bad == FirstBadRow(cells, 0)
  {
    for k := 0 to |cells|
      invariant FirstBadRow(cells, 0) == FirstBadRow(cells, k)
    {
      if |cells[k]| != |cells| {
        return Some(k);
      }
    }
    return None;
  }

  lemma ParseRowSnoc(row: string, c: char)
    requires ParseRow(row).Ok? && (c == '#' || c == '.')
    ensures ParseRow(row + [c]) == Ok(ParseRow(row).value + [c == '#'])
  {
    var r := ParseRow(row + [c]);
    assert r.Ok?;
    assert r.value == ParseRow(row).value + [c == '#'];
  }

  /** The first bad cell of a row is the error of the row. */
  lemma {:induction false} ParseRowPrefix(row: string, i: nat)
    requires i < |row| && ParseRow(row[..i]).Ok? && row[i] != '#' && row[i] != '.'
    ensures ParseRow(row) == Err(UnknownCell(row[i]))
    decreases i
  {
    if i > 0 {
      assert row[..i][1..] == row[1..][..i - 1];
      ParseRowPrefix(row[1..], i - 1);
    }
  }

  lemma ParseRowsSnoc(rows: seq<string>, row: string)
    requires ParseRows(rows).Ok? && ParseRow(row).Ok?
    ensures ParseRows(rows + [row]) == Ok(ParseRows(rows).value + [ParseRow(row).value])
  {
    var all := rows + [row];
    assert forall i :: 0 <= i < |all| ==> ParseRow(all[i]).Ok?;
    var r := ParseRows(all);
    var expected := ParseRows(rows).value + [ParseRow(row).value];
    forall i | 0 <= i < |all| ensures r.value[i] == expected[i] {
      assert Ok(r.value[i]) == ParseRow(all[i]);
      if i < |rows| {
        assert Ok(ParseRows(rows).value[i]) == ParseRow(rows[i]);
      }
    }
    assert r.value == expected;
  }

  /** A bad row after good ones is the error of all the rows. */
  lemma {:induction false} ParseRowsPrefix(rows: seq<string>, k: nat)
    requires k < |rows| && ParseRows(rows[..k]).Ok? && ParseRow(rows[k]).Err?
    ensures ParseRows(rows) == Err(ParseRow(rows[k]).error)
    decreases k
  {
    if k > 0 {
      assert rows[..k][1..] == rows[1..][..k - 1];
      assert ParseRow(rows[0]).Ok? by { assert rows[..k][0] == rows[0]; }
      ParseRowsPrefix(rows[1..], k - 1);
    }
  }

  /** A row written with `#` and `.`. */
  function RowString(row: seq<bool>): (r: string)
    ensures |r| == |row| && forall i :: 0 <= i < |row| ==> r[i] == CellChar(row[i])
  {
    seq(|row|, i requires 0 <= i < |row| => CellChar(row[i]))
  }

  /** Every row written with `#` and `.`. */
  function RowStrings(cells: seq<seq<bool>>): (r: seq<string>)
    ensures |r| == |cells| && forall i :: 0 <= i < |cells| ==> r[i] == RowString(cells[i])
  {
    if cells == [] then [] else RowStrings(cells[..|cells| - 1]) + [RowString(cells[|cells| - 1])]
  }

  /** What `Debug` writes: the rows joined by `/`. */
  function DebugString(g: Grid): string {
    if g.cells == [] then [] else Join(RowStrings(g.cells), '/')
  }

  /** `Debug::fmt`: a `/` before every row but the first, then its cells. */
  method DebugFmt(g: Grid) returns (out: string)
    ensures out == DebugString(g)
  {
    out := [];
    var firstRow := true;
    for k := 0 to |g.cells|
      invariant firstRow <==> k == 0
      invariant k > 0 ==> out == DebugString(Grid(g.cells[..k]))
      invariant k == 0 ==> out == []
    {
      if firstRow {
        firstRow := false;
      } else {
        out := out + ['/'];
      }
      out := WriteRow(out, g.cells[k]);
      DebugStringSnoc(g.cells[..k], g.cells[k]);
      TakeSnoc(g.cells, k);
    }
    TakeAll(g.cells);
  }

  /** The loop of `Debug::fmt` over the cells of one row. */
  method WriteRow(out0: string, row: seq<bool>) returns (out: string)
    ensures out == out0 + RowString(row)
  {
    out := out0;
    for i := 0 to |row|
      invariant out == out0 + RowString(row[..i])
    {
      assert RowString(row[..i + 1]) == RowString(row[..i]) + [CellChar(row[i])];
      out := out + [CellChar(row[i])];
    }
    assert row[..|row|] == row;
  }

  lemma JoinSnoc(parts: seq<string>, p: string, sep: char)
    requires |parts| >= 1
    ensures Join(parts + [p], sep) == Join(parts, sep) + [sep] + p
    decreases |parts|
  {
    if |parts| > 1 {
      JoinSnoc(parts[1..], p, sep);
      assert (parts + [p])[1..] == parts[1..] + [p];
    }
  }

  lemma DebugStringSnoc(cells: seq<seq<bool>>, row: seq<bool>)
    ensures DebugString(Grid(cells + [row])) ==
      if cells == [] then RowString(row) else DebugString(Grid(cells)) + ['/'] + RowString(row)
  {
    var all := cells + [row];
    assert all[..|all| - 1] == cells;
    assert RowStrings(all) == RowStrings(cells) + [RowString(row)];
    if cells != [] {
      JoinSnoc(RowStrings(cells), RowString(row), '/');
    }
  }

  lemma ParseRowString(row: seq<bool>)
    ensures ParseRow(RowString(row)) == Ok(row)
  {
    var r := ParseRow(RowString(row));
    assert r.Ok?;
    assert r.value == row;
  }

  /** Reading back what `Debug` writes gives the grid, for every non-empty
      square grid. */
  lemma FromStrDebug(g: Grid)
    requires IsSquare(g) && g.cells != []
    ensures FromStrSpec(DebugString(g)) == Ok(g)
  {
    DebugStringTrimmed(g);
    SplitJoin(RowStrings(g.cells), '/');
    ParseRowsStrings(g.cells);
  }

  /** `Debug`'s text of a non-empty square grid has no surrounding whitespace. */
  lemma DebugStringTrimmed(g: Grid)
    requires IsSquare(g) && g.cells != []
    ensures Trim(DebugString(g)) == DebugString(g)
    ensures forall r :: 0 <= r < |g.cells| ==> '/' !in RowStrings(g.cells)[r]
  {
    var parts := RowStrings(g.cells);
    JoinChars(parts, '/');
    assert |parts[0]| == |g.cells|;
    JoinLength(parts, '/');
    TrimSpec(DebugString(g));
  }

  lemma {:induction false} JoinLength(parts: seq<string>, sep: char)
    requires |parts| >= 1
    ensures |Join(parts, sep)| >= |parts[0]|
    decreases |parts|
  {
    if |parts| > 1 {
      JoinLength(parts[1..], sep);
    }
  }

  lemma ParseRowsStrings(cells: seq<seq<bool>>)
    ensures ParseRows(RowStrings(cells)) == Ok(cells)
  {
    var parts := RowStrings(cells);
    forall r | 0 <= r < |parts| ensures ParseRow(parts[r]) == Ok(cells[r]) {
      ParseRowString(cells[r]);
    }
    var rs := ParseRows(parts);
    assert rs.value == cells;
  }

  /** The text of rows of `#` and `.` joined by a separator starts and ends
      with one of those three characters, none of them whitespace. */
  lemma {:induction false} JoinChars(parts: seq<string>, sep: char)
    requires |parts| >= 1 && !IsWhitespace(sep)
    requires forall i, j :: 0 <= i < |parts| && 0 <= j < |parts[i]| ==> parts[i][j] == '#' || parts[i][j] == '.'
    ensures forall j :: 0 <= j < |Join(parts, sep)| ==> !IsWhitespace(Join(parts, sep)[j])
    decreases |parts|
  {
    if |parts| > 1 {
      JoinChars(parts[1..], sep);
    }
  }

  /** `"##./.#./#.."` reads as the grid with rows `##.`, `.#.`, `#..`. */
  lemma SampleFromStr()
    ensures FromStrSpec("##./.#./#..") == Ok(Grid([[true, true, false], [false, true, false], [true, false, false]]))
  {
    var g := Grid([[true, true, false], [false, true, false], [true, false, false]]);
    SampleText(g);
    FromStrDebug(g);
  }

  /** That grid has 4 cells on. */
  lemma SampleNumberOfOn()
    ensures NumberOfOn(Grid([[true, true, false], [false, true, false], [true, false, false]])) == 4
  {
    var cells := [[true, true, false], [false, true, false], [true, false, false]];
    assert CountTrue([true]) == 1 && CountTrue([false]) == 0;
    assert CountTrue([true, true]) == 2 && CountTrue([false, true]) == 1 && CountTrue([true, false]) == 1;
    assert CountTrue(cells[0]) == 2 by { assert cells[0][..2] == [true, true]; }
    assert CountTrue(cells[1]) == 1 by { assert cells[1][..2] == [false, true]; }
    assert CountTrue(cells[2]) == 1 by { assert cells[2][..2] == [true, false]; }
    assert SumCounts(cells, 3) == 4;
  }

  lemma SampleText(g: Grid)
    requires g == Grid([[true, true, false], [false, true, false], [true, false, false]])
    ensures DebugString(g) == "##./.#./#.."
  {
    assert RowString(g.cells[0]) == "##.";
    assert RowString(g.cells[1]) == ".#.";
    assert RowString(g.cells[2]) == "#..";
    var parts := RowStrings(g.cells);
    assert parts == ["##.", ".#.", "#.."];
    assert Join(["#.."], '/') == "#..";
    assert Join([".#.", "#.."], '/') == ".#./#..";
  }

  // ---------------------------------------------------------------- the tests of grid.rs

  /** The text of a grid of two, three or four rows. */
  lemma DebugTwo(a: seq<bool>, b: seq<bool>)
    ensures DebugString(Grid([a, b])) == RowString(a) + "/" + RowString(b)
  {
    var parts := [RowString(a), RowString(b)];
    assert RowStrings([a, b]) == parts;
    assert Join(parts[1..], '/') == parts[1];
    assert Join(parts, '/') == parts[0] + "/" + parts[1];
  }

  lemma DebugThree(a: seq<bool>, b: seq<bool>, c: seq<bool>)
    ensures DebugString(Grid([a, b, c])) == RowString(a) + "/" + RowString(b) + "/" + RowString(c)
  {
    var parts := [RowString(a), RowString(b), RowString(c)];
    assert RowStrings([a, b, c]) == parts;
    assert Join(parts[1..][1..], '/') == parts[2];
    assert Join(parts[1..], '/') == parts[1] + "/" + parts[2];
    assert Join(parts, '/') == parts[0] + "/" + (parts[1] + "/" + parts[2]);
  }

  lemma DebugFour(a: seq<bool>, b: seq<bool>, c: seq<bool>, d: seq<bool>)
    ensures DebugString(Grid([a, b, c, d])) ==
      RowString(a) + "/" + RowString(b) + "/" + RowString(c) + "/" + RowString(d)
  {
    var parts := [RowString(a), RowString(b), RowString(c), RowString(d)];
    assert RowStrings([a, b, c, d]) == parts;
    assert Join(parts[1..][1..][1..], '/') == parts[3];
    assert Join(parts[1..][1..], '/') == parts[2] + "/" + parts[3];
    assert Join(parts[1..], '/') == parts[1] + "/" + (parts[2] + "/" + parts[3]);
    assert Join(parts, '/') == parts[0] + "/" + (parts[1] + "/" + (parts[2] + "/" + parts[3]));
  }

  /** The row texts of two, three and four cells the tests use. */
  lemma RowTexts2()
    ensures RowString([true, true]) == "##" && RowString([false, true]) == ".#"
    ensures RowString([true, false]) == "#." && RowString([false, false]) == ".."
  {
  }

  lemma RowTexts3()
    ensures RowString([true, false, true]) == "#.#" && RowString([false, false, true]) == "..#"
    ensures RowString([true, false, false]) == "#.." && RowString([false, false, false]) == "..."
    ensures RowString([true, true, false]) == "##." && RowString([false, true, true]) == ".##"
  {
  }

  lemma RowTexts4()
    ensures RowString([false, true, false, true]) == ".#.#" && RowString([true, false, false, true]) == "#..#"
    ensures RowString([true, true, false, true]) == "##.#" && RowString([true, false, false, false]) == "#..."
  {
  }

  /** A grid of two rows of two reads back from its text. */
  lemma ReadTwo(a: seq<bool>, b: seq<bool>, text: string)
    requires |a| == 2 && |b| == 2
    requires text == RowString(a) + "/" + RowString(b)
    ensures FromStrSpec(text) == Ok(Grid([a, b]))
  {
    DebugTwo(a, b);
    FromStrDebug(Grid([a, b]));
  }

  /** A grid of three rows of three reads back from its text. */
  lemma ReadThree(a: seq<bool>, b: seq<bool>, c: seq<bool>, text: string)
    requires |a| == 3 && |b| == 3 && |c| == 3
    requires text == RowString(a) + "/" + RowString(b) + "/" + RowString(c)
    ensures FromStrSpec(text) == Ok(Grid([a, b, c]))
  {
    DebugThree(a, b, c);
    FromStrDebug(Grid([a, b, c]));
  }

  /** A grid of four rows of four reads back from its text. */
  lemma ReadFour(a: seq<bool>, b: seq<bool>, c: seq<bool>, d: seq<bool>, text: string)
    requires |a| == 4 && |b| == 4 && |c| == 4 && |d| == 4
    requires text == RowString(a) + "/" + RowString(b) + "/" + RowString(c) + "/" + RowString(d)
    ensures FromStrSpec(text) == Ok(Grid([a, b, c, d]))
  {
    DebugFour(a, b, c, d);
    FromStrDebug(Grid([a, b, c, d]));
  }

  /** `test_size`: the default grid has size 3, and `"##/.#"` reads as a
      grid of size 2. */
  lemma SampleSize()
    ensures Size(DefaultGrid) == 3
    ensures FromStrSpec("##/.#") == Ok(Grid([[true, true], [false, true]]))
    ensures Size(Grid([[true, true], [false, true]])) == 2
  {
    RowTexts2();
    ReadTwo([true, true], [false, true], "##/.#");
  }

  /** The grid `#.#/..#/#..` that `test_flip`, `test_symmetric`,
      `test_rotate` and `test_variation` start from, and its eight
      variations in the order `variations` pushes them. */
  const Start: Grid := Grid([[true, false, true], [false, false, true], [true, false, false]])
  const Var1: Grid := Grid([[true, false, true], [false, false, false], [true, true, false]])
  const Var2: Grid := Grid([[true, true, false], [false, false, false], [true, false, true]])
  const Var3: Grid := Grid([[true, false, true], [true, false, false], [false, false, true]])
  const Var4: Grid := Grid([[false, false, true], [true, false, false], [true, false, true]])
  const Var5: Grid := Grid([[false, true, true], [false, false, false], [true, false, true]])
  const Var6: Grid := Grid([[true, false, true], [false, false, false], [false, true, true]])
  const Var7: Grid := Grid([[true, false, false], [false, false, true], [true, false, true]])

  /** The transpose and the flip of a grid of three rows of three. */
  lemma TransposeThree(m: Grid)
    requires IsSquare(m) && |m.cells| == 3
    ensures var c := m.cells;
      Transpose(m) == Grid([[c[0][0], c[1][0], c[2][0]], [c[0][1], c[1][1], c[2][1]], [c[0][2], c[1][2], c[2][2]]])
  {
    var c := m.cells;
    var t := Transpose(m);
    TransposeSquare(m);
    assert t.cells[0] == [c[0][0], c[1][0], c[2][0]];
    assert t.cells[1] == [c[0][1], c[1][1], c[2][1]];
    assert t.cells[2] == [c[0][2], c[1][2], c[2][2]];
  }

  lemma FlipThree(a: seq<bool>, b: seq<bool>, c: seq<bool>)
    ensures Flip(Grid([a, b, c])) == Grid([c, b, a])
  {
  }

  /** `#.#/..#/#..` reads as `Start`. */
  lemma ReadStart()
    ensures FromStrSpec("#.#/..#/#..") == Ok(Start)
  {
    RowTexts3();
    ReadThree([true, false, true], [false, false, true], [true, false, false], "#.#/..#/#..");
  }

  /** The texts of the grids `test_flip`, `test_symmetric` and
      `test_rotate` expect. */
  lemma ReadVar7()
    ensures FromStrSpec("#../..#/#.#") == Ok(Var7)
  {
    RowTexts3();
    ReadThree([true, false, false], [false, false, true], [true, false, true], "#../..#/#.#");
  }

  lemma ReadVar1()
    ensures FromStrSpec("#.#/.../##.") == Ok(Var1)
  {
    RowTexts3();
    ReadThree([true, false, true], [false, false, false], [true, true, false], "#.#/.../##.");
  }

  lemma ReadVar2()
    ensures FromStrSpec("##./.../#.#") == Ok(Var2)
  {
    RowTexts3();
    ReadThree([true, true, false], [false, false, false], [true, false, true], "##./.../#.#");
  }

  /** `test_flip`: flipping `#.#/..#/#..` gives the grid `#../..#/#.#`
      reads as. */
  lemma SampleFlip()
    ensures FromStrSpec("#.#/..#/#..") == Ok(Start)
    ensures FromStrSpec("#../..#/#.#") == Ok(Var7)
    ensures Flip(Start) == Var7
  {
    ReadStart();
    ReadVar7();
    FlipThree(Start.cells[0], Start.cells[1], Start.cells[2]);
  }

  /** `test_symmetric`: `symmetric` of `#.#/..#/#..` gives the grid
      `#.#/.../##.` reads as. */
  lemma SampleSymmetric()
    ensures FromStrSpec("#.#/..#/#..") == Ok(Start)
    ensures FromStrSpec("#.#/.../##.") == Ok(Var1)
    ensures Transpose(Start) == Var1
  {
    ReadStart();
    ReadVar1();
    StartTurns();
  }

  /** `test_rotate`: a quarter turn of `#.#/..#/#..` (a transpose, then a
      flip) gives the grid `##./.../#.#` reads as. */
  lemma SampleRotate()
    ensures FromStrSpec("#.#/..#/#..") == Ok(Start)
    ensures FromStrSpec("##./.../#.#") == Ok(Var2)
    ensures Rotate(Start) == Var2
  {
    ReadStart();
    ReadVar2();
    StartTurns();
  }

  /** Each round of `variations` from `Start`: the transpose, then its flip. */
  lemma StartTurns()
    ensures Transpose(Start) == Var1 && Rotate(Start) == Var2
    ensures Transpose(Var2) == Var3 && Rotate(Var2) == Var4
    ensures Transpose(Var4) == Var5 && Rotate(Var4) == Var6
    ensures Transpose(Var6) == Var7 && Rotate(Var6) == Start
  {
    TransposeThree(Start);
    TransposeThree(Var2);
    TransposeThree(Var4);
    TransposeThree(Var6);
    FlipThree(Var1.cells[0], Var1.cells[1], Var1.cells[2]);
    FlipThree(Var3.cells[0], Var3.cells[1], Var3.cells[2]);
    FlipThree(Var5.cells[0], Var5.cells[1], Var5.cells[2]);
    FlipThree(Var7.cells[0], Var7.cells[1], Var7.cells[2]);
  }

  /** One round of `variations`, given what it pushes and what the later
      rounds push. */
  lemma VariationsCons(g: Grid, k: nat, t: Grid, next: Grid, rest: seq<Grid>)
    requires Wide(g) && k > 0 && Transpose(g) == t && Rotate(g) == next
    requires VariationsFrom(next, k - 1) == rest
    ensures VariationsFrom(g, k) == [t, next] + rest
  {
  }

  /** The last two rounds of `variations`, given what each pushes.  The
      number of rounds is a parameter: with a literal the verifier unfolds
      `VariationsFrom` too eagerly. */
  lemma VariationsLastTwo(g0: Grid, g1: Grid, g2: Grid, t0: Grid, t1: Grid, k: nat)
    requires k == 2
    requires Wide(g0) && Transpose(g0) == t0 && Rotate(g0) == g1
    requires Wide(g1) && Transpose(g1) == t1 && Rotate(g1) == g2
    ensures VariationsFrom(g0, k) == [t0, g1, t1, g2]
  {
    VariationsTwo(g0, g1, g2, t0, t1, [], k);
    PushFour(t0, g1, t1, g2, []);
  }

  /** Two rounds of `variations`, given what they push and what the later
      rounds push. */
  lemma VariationsTwo(g0: Grid, g1: Grid, g2: Grid, t0: Grid, t1: Grid, rest: seq<Grid>, k: nat)
    requires k >= 2
    requires Wide(g0) && Transpose(g0) == t0 && Rotate(g0) == g1
    requires Wide(g1) && Transpose(g1) == t1 && Rotate(g1) == g2
    requires VariationsFrom(g2, k - 2) == rest
    ensures VariationsFrom(g0, k) == [t0, g1] + ([t1, g2] + rest)
  {
    VariationsCons(g1, k - 1, t1, g2, rest);
    VariationsCons(g0, k, t0, g1, [t1, g2] + rest);
  }

  lemma PushFour<T>(a: T, b: T, c: T, d: T, rest: seq<T>)
    ensures [a, b] + ([c, d] + rest) == [a, b, c, d] + rest
  {
  }

  /** The last two rounds of `variations` from `Start`. */
  lemma StartVariationsLate()
    ensures VariationsFrom(Var4, VariationRounds() - 2) == [Var5, Var6, Var7, Start]
  {
    StartTurns();
    VariationsLastTwo(Var4, Var6, Start, Var5, Var7, VariationRounds() - 2);
  }

  lemma JoinFourFour<T>(a: T, b: T, c: T, d: T, e: T, f: T, g: T, h: T)
    ensures [a, b, c, d] + [e, f, g, h] == [a, b, c, d, e, f, g, h]
  {
  }

  /** The eight variations of `Start`. */
  lemma StartVariations()
    ensures VariationsOf(Start) == [Var1, Var2, Var3, Var4, Var5, Var6, Var7, Start]
  {
    StartTurns();
    StartVariationsLate();
    VariationsTwo(Start, Var2, Var4, Var1, Var3, [Var5, Var6, Var7, Start], VariationRounds());
    PushFour(Var1, Var2, Var3, Var4, [Var5, Var6, Var7, Start]);
    JoinFourFour(Var1, Var2, Var3, Var4, Var5, Var6, Var7, Start);
  }

  /** `Vec::dedup`: every element equal to the one before it dropped. */
  function Dedup<T(==)>(s: seq<T>): (r: seq<T>)
    ensures |r| <= |s|
  {
    if |s| <= 1 then s
    else if s[0] == s[1] then Dedup(s[1..])
    else [s[0]] + Dedup(s[1..])
  }

  /** `dedup` leaves a list unchanged exactly when no element equals the
      one after it. */
  lemma {:induction false} DedupUnchanged<T>(s: seq<T>)
    ensures Dedup(s) == s <==> forall i :: 0 <= i < |s| - 1 ==> s[i] != s[i + 1]
    decreases |s|
  {
    if |s| > 1 {
      DedupUnchanged(s[1..]);
      if s[0] == s[1] {
        assert |Dedup(s)| < |s|;
      } else {
        assert s == [s[0]] + s[1..];
        forall i | 1 <= i < |s| - 1
          ensures s[i] == s[1..][i - 1] && s[i + 1] == s[1..][i]
        {
        }
      }
    }
  }

  /** Neighbouring variations of `Start` differ, each in a cell of the top row. */
  lemma StartNeighbours()
    ensures Var1 != Var2 && Var2 != Var3 && Var3 != Var4 && Var4 != Var5
    ensures Var5 != Var6 && Var6 != Var7 && Var7 != Start
  {
    assert Var1.cells[0][1] != Var2.cells[0][1] && Var2.cells[0][1] != Var3.cells[0][1];
    assert Var3.cells[0][0] != Var4.cells[0][0] && Var4.cells[0][1] != Var5.cells[0][1];
    assert Var5.cells[0][0] != Var6.cells[0][0] && Var6.cells[0][2] != Var7.cells[0][2];
    assert Var7.cells[0][2] != Start.cells[0][2];
  }

  /** `dedup` keeps eight values each unlike the next. */
  lemma DedupApartEight<T>(a: T, b: T, c: T, d: T, e: T, f: T, g: T, h: T)
    requires a != b && b != c && c != d && d != e && e != f && f != g && g != h
    ensures Dedup([a, b, c, d, e, f, g, h]) == [a, b, c, d, e, f, g, h]
  {
    var s := [a, b, c, d, e, f, g, h];
    assert forall i :: 0 <= i < |s| - 1 ==> s[i] != s[i + 1];
    DedupUnchanged(s);
  }

  /** `test_variation`: `#.#/..#/#..` has 8 variations, `dedup` removes
      none of them, and the last is the grid itself. */
  lemma SampleVariations()
    ensures |VariationsOf(Start)| == 8
    ensures Dedup(VariationsOf(Start)) == VariationsOf(Start)
    ensures VariationsOf(Start)[7] == Start
  {
    StartVariations();
    StartNeighbours();
    DedupApartEight(Var1, Var2, Var3, Var4, Var5, Var6, Var7, Start);
  }

  /** The grids of `test_split`. */
  const Square3: Grid := Grid([[false, false, true], [true, false, true], [false, false, false]])
  const Square4: Grid := Grid([[false, true, false, true], [true, false, false, true], [true, true, false, true], [true, false, false, false]])
  const Tile00: Grid := Grid([[false, true], [true, false]])
  const Tile01: Grid := Grid([[false, true], [false, true]])
  const Tile10: Grid := Grid([[true, true], [true, false]])
  const Tile11: Grid := Grid([[false, true], [false, false]])

  /** A grid of three rows of three is its own single tile. */
  lemma SplitThree(g: Grid)
    requires IsSquare(g) && |g.cells| == 3
    ensures CanSplit(g) && SplitSpec(g) == [[g]]
  {
    assert Step(g) == 3 && |g.cells| / 3 == 1;
    var t := Tile(g, 0, 0, 3);
    forall r | 0 <= r < 3
      ensures t.cells[r] == g.cells[r]
    {
      assert forall c :: 0 <= c < 3 ==> t.cells[r][c] == g.cells[r][c];
    }
    assert t == g;
    assert TileAt(g, 0, 0) == t;
    var sp := SplitSpec(g);
    assert |sp| == 1 && sp[0] == [TileAt(g, 0, 0)];
  }

  /** A grid of four rows of four splits into its four corners. */
  lemma SplitFour(a: seq<bool>, b: seq<bool>, c: seq<bool>, d: seq<bool>)
    requires |a| == 4 && |b| == 4 && |c| == 4 && |d| == 4
    ensures CanSplit(Grid([a, b, c, d]))
    ensures SplitSpec(Grid([a, b, c, d])) ==
      [[Grid([a[..2], b[..2]]), Grid([a[2..], b[2..]])],
       [Grid([c[..2], d[..2]]), Grid([c[2..], d[2..]])]]
  {
    var g := Grid([a, b, c, d]);
    SplitTwoByTwo(g);
    TileTwo(g, 0, 0);
    TileTwo(g, 0, 2);
    TileTwo(g, 2, 0);
    TileTwo(g, 2, 2);
    assert a[0..2] == a[..2] && b[0..2] == b[..2] && c[0..2] == c[..2] && d[0..2] == d[..2];
    assert a[2..4] == a[2..] && b[2..4] == b[2..] && c[2..4] == c[2..] && d[2..4] == d[2..];
  }

  /** A grid of four rows of four splits into the tiles at its corners. */
  lemma SplitTwoByTwo(g: Grid)
    requires IsSquare(g) && |g.cells| == 4
    ensures CanSplit(g)
    ensures SplitSpec(g) == [[Tile(g, 0, 0, 2), Tile(g, 0, 2, 2)], [Tile(g, 2, 0, 2), Tile(g, 2, 2, 2)]]
  {
    assert Step(g) == 2 && |g.cells| / 2 == 2;
    assert TileAt(g, 0, 0) == Tile(g, 0, 0, 2) && TileAt(g, 0, 1) == Tile(g, 0, 2, 2);
    assert TileAt(g, 1, 0) == Tile(g, 2, 0, 2) && TileAt(g, 1, 1) == Tile(g, 2, 2, 2);
    var sp := SplitSpec(g);
    assert |sp| == 2;
    assert sp[0] == [TileAt(g, 0, 0), TileAt(g, 0, 1)];
    assert sp[1] == [TileAt(g, 1, 0), TileAt(g, 1, 1)];
  }

  /** A 2 × 2 tile is two slices of two rows. */
  lemma TileTwo(g: Grid, row0: nat, col0: nat)
    requires Wide(g) && row0 + 2 <= |g.cells| && col0 + 2 <= |g.cells|
    ensures Tile(g, row0, col0, 2) == Grid([g.cells[row0][col0..col0 + 2], g.cells[row0 + 1][col0..col0 + 2]])
  {
    var t := Tile(g, row0, col0, 2);
    assert t.cells[0] == g.cells[row0][col0..col0 + 2];
    assert t.cells[1] == g.cells[row0 + 1][col0..col0 + 2];
  }

  /** The texts of `test_split` read as its grids. */
  lemma ReadSquare3()
    ensures FromStrSpec("..#/#.#/...") == Ok(Square3)
  {
    RowTexts3();
    ReadThree([false, false, true], [true, false, true], [false, false, false], "..#/#.#/...");
  }

  lemma ReadSquare4()
    ensures FromStrSpec(".#.#/#..#/##.#/#...") == Ok(Square4)
  {
    RowTexts4();
    ReadFour([false, true, false, true], [true, false, false, true], [true, true, false, true], [true, false, false, false],
      ".#.#/#..#/##.#/#...");
  }

  lemma ReadTile00()
    ensures FromStrSpec(".#/#.") == Ok(Tile00)
  {
    RowTexts2();
    ReadTwo([false, true], [true, false], ".#/#.");
  }

  lemma ReadTile01()
    ensures FromStrSpec(".#/.#") == Ok(Tile01)
  {
    RowTexts2();
    ReadTwo([false, true], [false, true], ".#/.#");
  }

  lemma ReadTile10()
    ensures FromStrSpec("##/#.") == Ok(Tile10)
  {
    RowTexts2();
    ReadTwo([true, true], [true, false], "##/#.");
  }

  lemma ReadTile11()
    ensures FromStrSpec(".#/..") == Ok(Tile11)
  {
    RowTexts2();
    ReadTwo([false, true], [false, false], ".#/..");
  }

  lemma ReadTiles()
    ensures FromStrSpec(".#/#.") == Ok(Tile00) && FromStrSpec(".#/.#") == Ok(Tile01)
    ensures FromStrSpec("##/#.") == Ok(Tile10) && FromStrSpec(".#/..") == Ok(Tile11)
  {
    ReadTile00();
    ReadTile01();
    ReadTile10();
    ReadTile11();
  }

  /** `test_split`: the 3 × 3 grid splits into itself, and the 4 × 4 grid
      into the four 2 × 2 grids the test reads. */
  lemma SampleSplit()
    ensures CanSplit(Square3) && SplitSpec(Square3) == [[Square3]]
    ensures CanSplit(Square4) && SplitSpec(Square4) == [[Tile00, Tile01], [Tile10, Tile11]]
  {
    SplitThree(Square3);
    var c := Square4.cells;
    SplitFour(c[0], c[1], c[2], c[3]);
    assert c[0][..2] == [false, true] && c[0][2..] == [false, true];
    assert c[1][..2] == [true, false] && c[1][2..] == [false, true];
    assert c[2][..2] == [true, true] && c[2][2..] == [false, true];
    assert c[3][..2] == [true, false] && c[3][2..] == [false, false];
  }

  /** `test_merge`: merging the split of the 4 × 4 grid gives it back. */
  lemma SampleMerge()
    ensures CanSplit(Square4) && CanMerge(SplitSpec(Square4)) && MergeSpec(SplitSpec(Square4)) == Square4
  {
    MergeSplit(Square4);
  }
}
