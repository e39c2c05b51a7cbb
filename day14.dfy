/** Day 14 (`day-14/src/main.rs`): a 128 x 128 disk grid whose row `k` holds
    the 128 bits of the knot hash of `"<input>-<k>"`, the number of used
    squares, and the number of regions of used squares, counted by clearing
    each region with a recursive four-neighbour flood fill.

    A grid cell `(x, y)` is row `x`, column `y`, as in `grid[x][y]`.  Regions
    are defined without paths: a set of cells is `Closed` in a set `t` when it
    holds every cell of `t` adjacent to one of its cells, and `q` is connected
    to `p` in `t` when every closed set holding `p` holds `q`.
 */
module Day14 {
  import opened Wrappers
  import opened Text
  import KnotHash
  import opened Counting

  const Size: nat := 128

  // ---------------------------------------------------------------- rows

  /** The key hashed for one row: `format!("{}-{}", input, row_no)`. */
  function RowKey(input: string, rowNo: nat): string {
    input + "-" + NatToString(rowNo)
  }

  /** The value of a lowercase hex digit, `to_digit(16)`. */
  function HexValue(c: char): (d: nat)
    requires KnotHash.IsLowerHex(c)
    ensures d < 16
    ensures ToDigit(c, 16) == Some(d)
  {
    ToDigit(c, 16).value
  }

  /** The four bits of a hex digit, most significant first: cell `b` is set
      when `number & (8 >> b)` is non-zero. */
  function Nibble(d: nat): (r: seq<bool>)
    requires d < 16
    ensures |r| == 4
  {
    [d / 8 % 2 == 1, d / 4 % 2 == 1, d / 2 % 2 == 1, d % 2 == 1]
  }

  /** The four cells give the digit back: 8 for the first down to 1 for the last. */
  lemma NibbleValue(d: nat)
    requires d < 16
    ensures 8 * B(Nibble(d)[0]) + 4 * B(Nibble(d)[1]) + 2 * B(Nibble(d)[2]) + B(Nibble(d)[3]) == d
  {
  }

  /** The bits of every digit of a hex string, in order. */
  function RowBits(h: string): (r: seq<bool>)
    requires forall i :: 0 <= i < |h| ==> KnotHash.IsLowerHex(h[i])
    ensures |r| == 4 * |h|
  {
    if h == [] then []
    else RowBits(h[..|h| - 1]) + Nibble(HexValue(h[|h| - 1]))
  }

  /** Digit `k` of the hash fills cells `4k .. 4k + 3`, most significant bit first. */
  lemma {:induction false} RowBitsCell(h: string, k: nat, b: nat)
    requires forall i :: 0 <= i < |h| ==> KnotHash.IsLowerHex(h[i])
    requires k < |h| && b < 4
    ensures RowBits(h)[4 * k + b] == Nibble(HexValue(h[k]))[b]
  {
    var n := |h| - 1;
    if k < n {
      RowBitsCell(h[..n], k, b);
      assert h[..n][k] == h[k];
    }
  }

  /** Row `rowNo` of the grid, as a function. */
  function RowSpec(input: string, rowNo: nat): (r: seq<bool>)
    ensures |r| == Size
  {
    RowBits(KnotHash.Hash(RowKey(input, rowNo)))
  }

  /** `create_row`: the cells of a `[false; 128]` array are set digit by
      digit of the hash. */
  method CreateRow(input: string, rowNo: nat) returns (r: seq<bool>)
    ensures r == RowSpec(input, rowNo)
  {
    var hash := KnotHash.Hash(RowKey(input, rowNo));
    r := FillRow(hash);
  }

  /** The loop of `create_row` over the digits of the hash. */
  method FillRow(hash: string) returns (r: seq<bool>)
    requires |hash| == 32 && forall i :: 0 <= i < |hash| ==> KnotHash.IsLowerHex(hash[i])
    ensures r == RowBits(hash)
  {
    var row := new bool[Size](i => false);
    var counter := 0;
    var k := 0;
    while k < |hash|
      invariant 0 <= k <= |hash| && counter == 4 * k
      invariant row[..counter] == RowBits(hash[..k])
      invariant forall i :: counter <= i < Size ==> !row[i]
    {
      var number := HexValue(hash[k]);
      SetNibble(row, counter, number);
      RowBitsSnoc(hash, k);
      counter := counter + 4;
      k := k + 1;
    }
    TakeAll(hash);
    r := row[..];
  }

  /** One more digit adds its four bits. */
  lemma RowBitsSnoc(h: string, k: nat)
    requires forall i :: 0 <= i < |h| ==> KnotHash.IsLowerHex(h[i])
    requires k < |h|
    ensures RowBits(h[..k + 1]) == RowBits(h[..k]) + Nibble(HexValue(h[k]))
  {
    assert h[..k + 1][..k] == h[..k];
  }

  /** The body of the `for_each` closure: the cells of the set bits of
      `number` become true, from `counter` on. */
  method SetNibble(row: array<bool>, counter: nat, number: nat)
    requires number < 16 && counter + 4 <= row.Length
    requires forall i :: counter <= i < row.Length ==> !row[i]
    modifies row
    ensures row[..counter + 4] == old(row[..counter]) + Nibble(number)
    ensures forall i :: counter + 4 <= i < row.Length ==> !row[i]
  {
    if number / 8 % 2 == 1 { row[counter] := true; }
    if number / 4 % 2 == 1 { row[counter + 1] := true; }
    if number / 2 % 2 == 1 { row[counter + 2] := true; }
    if number % 2 == 1 { row[counter + 3] := true; }
  }

  // ---------------------------------------------------------------- squares used

  /** The rows of the grid, `create_grid` as a function. */
  function GridSpec(input: string): (g: seq<seq<bool>>)
    ensures |g| == Size
    ensures forall x :: 0 <= x < Size ==> |g[x]| == Size
  {
    seq(Size, x requires 0 <= x < Size => RowSpec(input, x))
  }

  /** `number_of_squares_used`: the number of set cells of the grid, which
      fits the `u32` result. */
  function NumberOfSquaresUsed(input: string): (n: nat)
    ensures n == |Cells(GridSpec(input), Size)|
    ensures n <= Size * Size
  {
    var g := GridSpec(input);
    SumCountsCells(g, Size);
    SumCountsBound(g, Size);
    SumCounts(g, Size)
  }

  lemma {:induction false} SumCountsBound(g: seq<seq<bool>>, n: nat)
    requires n <= |g|
    requires forall x :: 0 <= x < |g| ==> |g[x]| == Size
    ensures SumCounts(g, n) <= n * Size
  {
    if n > 0 {
      SumCountsBound(g, n - 1);
    }
  }

  // ---------------------------------------------------------------- regions

  type Cell = (int, int)

  /** Two cells that share an edge. */
  predicate Adjacent(a: Cell, b: Cell) {
    (a.0 == b.0 && (a.1 == b.1 + 1 || b.1 == a.1 + 1))
    || (a.1 == b.1 && (a.0 == b.0 + 1 || b.0 == a.0 + 1))
  }

  /** `s` holds every cell of `t` next to one of its own cells. */
  ghost predicate Closed(s: set<Cell>, t: set<Cell>) {
    forall a, b :: a in s && b in t && Adjacent(a, b) ==> b in s
  }

  /** Every cell of `cs` lies in the region of `p` among the cells `t`. */
  ghost predicate WithinRegion(cs: set<Cell>, t: set<Cell>, p: Cell) {
    forall s {:trigger Closed(s, t)} :: p in s && Closed(s, t) ==> cs <= s
  }

  /** No cell of `cs` has a neighbour in `t`. */
  ghost predicate NeighboursClear(cs: set<Cell>, t: set<Cell>) {
    forall a, b :: a in cs && Adjacent(a, b) ==> b !in t
  }

  /** A closed set stays closed among fewer cells. */
  lemma ClosedMono(s: set<Cell>, t: set<Cell>, u: set<Cell>)
    requires Closed(s, t) && u <= t
    ensures Closed(s, u)
  {
  }

  predicate IsGrid(grid: array2<bool>) {
    grid.Length0 == Size && grid.Length1 == Size
  }

  /** The set cells of the grid. */
  function TrueSet(grid: array2<bool>): (t: set<Cell>)
    requires IsGrid(grid)
    reads grid
    ensures forall x, y :: (x, y) in t <==> 0 <= x < Size && 0 <= y < Size && grid[x, y]
  {
    set x, y | 0 <= x < Size && 0 <= y < Size && grid[x, y] :: (x, y)
  }

  /** What a call of `clear_neighbours` at `p` has done when it returns,
      starting from the set cells `t0` and leaving `cur`: it only cleared
      cells, left no set neighbour next to `p` or to a cell it cleared, and
      cleared only cells of the region of `p` among `t0`. */
  ghost predicate FillDone(t0: set<Cell>, p: Cell, cur: set<Cell>) {
    cur <= t0
    && NeighboursClear(t0 - cur + {p}, cur)
    && WithinRegion(t0 - cur, t0, p)
  }

  /** How far a call of `clear_neighbours` at `p` has got: it has cleared only
      cells of the region of `p` among the set cells `t0` it started with, and
      the cells that its finished recursive calls cleared have no set
      neighbours left in `cur`. */
  ghost predicate Progress(t0: set<Cell>, p: Cell, cur: set<Cell>) {
    cur <= t0 - {p}
    && NeighboursClear(t0 - {p} - cur, cur)
    && WithinRegion(t0 - {p} - cur, t0, p)
  }

  /** A finished recursive call at the set neighbour `n` keeps the progress. */
  lemma ProgressStep(t0: set<Cell>, p: Cell, n: Cell, pre: set<Cell>, post: set<Cell>)
    requires Progress(t0, p, pre)
    requires n in pre && Adjacent(p, n)
    requires n !in post
    requires FillDone(pre, n, post)
    ensures Progress(t0, p, post)
  {
    var q := t0 - {p};
    assert q - post == (q - pre) + (pre - post);
    forall s | p in s && Closed(s, t0)
      ensures q - post <= s
    {
      ClosedMono(s, t0, pre);
      assert n in s;
    }
  }

  lemma ProgressStart(t0: set<Cell>, p: Cell)
    ensures Progress(t0, p, t0 - {p})
  {
    assert t0 - {p} - (t0 - {p}) == {};
  }

  /** Once the four neighbours of `p` are clear, the call is done. */
  lemma ProgressDone(t0: set<Cell>, p: Cell, cur: set<Cell>)
    requires Progress(t0, p, cur)
    requires (p.0 - 1, p.1) !in cur && (p.0 + 1, p.1) !in cur
    requires (p.0, p.1 - 1) !in cur && (p.0, p.1 + 1) !in cur
    ensures FillDone(t0, p, cur)
  {
    assert t0 - cur + {p} == (t0 - {p} - cur) + {p};
    forall s | p in s && Closed(s, t0)
      ensures t0 - cur <= s
    {
      assert t0 - cur <= (t0 - {p} - cur) + {p};
    }
  }

  /** `clear_neighbours`: clears `(x, y)` and, recursively, every set cell
      next to a cell it clears.  It terminates because every recursive call
      starts with fewer set cells, or with as many and its own cell set. */
  method ClearNeighbours(grid: array2<bool>, x: int, y: int)
    requires IsGrid(grid) && 0 <= x < Size && 0 <= y < Size
    modifies grid
    ensures !grid[x, y]
    ensures FillDone(old(TrueSet(grid)), (x, y), TrueSet(grid))
    decreases TrueSet(grid), if grid[x, y] then 1 else 3
  {
    ghost var t0 := TrueSet(grid);
    ghost var p := (x, y);
    grid[x, y] := false;
    assert TrueSet(grid) == t0 - {p};
    ProgressStart(t0, p);
    if x > 0 {
      ClearIfSet(grid, x - 1, y, t0, p);
    }
    ghost var c1 := TrueSet(grid);
    if x < Size - 1 {
      ClearIfSet(grid, x + 1, y, t0, p);
    }
    ghost var c2 := TrueSet(grid);
    if y > 0 {
      ClearIfSet(grid, x, y - 1, t0, p);
    }
    ghost var c3 := TrueSet(grid);
    if y < Size - 1 {
      ClearIfSet(grid, x, y + 1, t0, p);
    }
    ghost var c4 := TrueSet(grid);
    assert (x - 1, y) !in c4 && (x + 1, y) !in c4 by {
      assert c4 <= c3 <= c2 <= c1;
    }
    ProgressDone(t0, p, c4);
  }

  /** One neighbour check of `clear_neighbours` (`if grid[nx][ny] { ... }`),
      made by the call at `p` that started from the set cells `t0`. */
  method ClearIfSet(grid: array2<bool>, nx: int, ny: int, ghost t0: set<Cell>, ghost p: Cell)
    requires IsGrid(grid) && 0 <= nx < Size && 0 <= ny < Size
    requires Adjacent(p, (nx, ny)) && Progress(t0, p, TrueSet(grid))
    modifies grid
    ensures TrueSet(grid) <= old(TrueSet(grid))
    ensures (nx, ny) !in TrueSet(grid)
    ensures Progress(t0, p, TrueSet(grid))
    decreases TrueSet(grid), 2
  {
    if grid[nx, ny] {
      ghost var pre := TrueSet(grid);
      ClearNeighbours(grid, nx, ny);
      ProgressStep(t0, p, (nx, ny), pre, TrueSet(grid));
    }
  }

  // ---------------------------------------------------------------- counting

  /** `create_grid`: row `x` of the grid is `create_row(input, x)`. */
  method CreateGrid(input: string) returns (grid: array2<bool>)
    ensures fresh(grid) && IsGrid(grid)
    ensures TrueSet(grid) == Cells(GridSpec(input), Size)
  {
    ghost var g := GridSpec(input);
    grid := new bool[Size, Size]((x, y) => false);
    for rowNo := 0 to Size
      invariant forall x, y :: 0 <= x < rowNo && 0 <= y < Size ==> grid[x, y] == g[x][y]
    {
      var row := CreateRow(input, rowNo);
      GridSpecRow(input, rowNo);
      SetRow(grid, rowNo, row);
    }
    TrueSetCells(grid, g);
  }

  /** Row `x` of the grid is the row function. */
  lemma GridSpecRow(input: string, x: nat)
    requires x < Size
    ensures GridSpec(input)[x] == RowSpec(input, x)
  {
  }

  /** `grid[row_no] = row`. */
  method SetRow(grid: array2<bool>, rowNo: nat, row: seq<bool>)
    requires IsGrid(grid) && rowNo < Size && |row| == Size
    modifies grid
    ensures forall x, y :: 0 <= x < Size && 0 <= y < Size ==>
      grid[x, y] == if x == rowNo then row[y] else old(grid[x, y])
  {
    forall y | 0 <= y < Size {
      grid[rowNo, y] := row[y];
    }
  }

  lemma TrueSetCells(grid: array2<bool>, g: seq<seq<bool>>)
    requires IsGrid(grid) && |g| == Size
    requires forall x :: 0 <= x < Size ==> |g[x]| == Size
    requires forall x, y :: 0 <= x < Size && 0 <= y < Size ==> grid[x, y] == g[x][y]
    ensures TrueSet(grid) == Cells(g, Size)
  {
    var t := TrueSet(grid);
    forall c | c in Cells(g, Size)
      ensures c in t
    {
      var x, y :| 0 <= x < Size && 0 <= y < |g[x]| && g[x][y] && c == (x, y);
    }
  }

  lemma NoPairs(s: set<Cell>)
    requires forall x: int, y: int :: (x, y) !in s
    ensures s == {}
  {
    forall c: Cell ensures c !in s {
      var x: int, y: int := c.0, c.1;
      assert (x, y) !in s;
      assert c == (x, y);
    }
  }

  /** `r` is the region of `p` among the cells `g`: it holds `p`, it is
      closed under adjacency within `g`, and it lies inside every set that
      holds `p` and is so closed. */
  ghost predicate Component(g: set<Cell>, r: set<Cell>, p: Cell) {
    p in r && r <= g && Closed(r, g) && WithinRegion(r, g, p)
  }

  ghost function Union(rs: seq<set<Cell>>): set<Cell> {
    if rs == [] then {} else Union(rs[..|rs| - 1]) + rs[|rs| - 1]
  }

  /** The cells `done` are split into the disjoint `regions` of the cells
      `g`, region `i` being the region of `seeds[i]`. */
  ghost predicate Partition(g: set<Cell>, seeds: seq<Cell>, regions: seq<set<Cell>>, done: set<Cell>) {
    |seeds| == |regions|
    && (forall i :: 0 <= i < |regions| ==> Component(g, regions[i], seeds[i]))
    && (forall i, j :: 0 <= i < j < |regions| ==> regions[i] !! regions[j])
    && Union(regions) == done
  }

  /** The set cells `g` fall into exactly the `regions`. */
  ghost predicate Regions(g: set<Cell>, seeds: seq<Cell>, regions: seq<set<Cell>>) {
    Partition(g, seeds, regions, g)
  }

  /** The state of the scan of `number_of_regions` over the set cells `g`:
      the cells `cur` are still set, and the cleared ones make up whole
      regions, one for each cell at which the scan counted. */
  ghost predicate Scan(g: set<Cell>, seeds: seq<Cell>, regions: seq<set<Cell>>, cur: set<Cell>) {
    cur <= g
    && Closed(g - cur, g)
    && Partition(g, seeds, regions, g - cur)
  }

  lemma ClosedStep(g: set<Cell>, pre: set<Cell>, p: Cell, post: set<Cell>)
    requires pre <= g && Closed(g - pre, g)
    requires FillDone(pre, p, post)
    ensures Closed(g - post, g)
  {
    forall a, b | a in g - post && b in g && Adjacent(a, b)
      ensures b in g - post
    {
      if a in g - pre {
        assert b in g - pre;
      } else {
        assert a in pre - post + {p};
      }
    }
  }

  /** The cells a call at the set cell `p` clears are the region of `p`. */
  lemma ClearedComponent(g: set<Cell>, pre: set<Cell>, p: Cell, post: set<Cell>)
    requires pre <= g && Closed(g - pre, g)
    requires p in pre && p !in post
    requires FillDone(pre, p, post)
    ensures Component(g, pre - post, p)
  {
    var r := pre - post;
    forall a, b | a in r && b in g && Adjacent(a, b)
      ensures b in r
    {
      assert a in pre - post + {p};
      assert Adjacent(b, a);
    }
    forall s | p in s && Closed(s, g)
      ensures r <= s
    {
      ClosedMono(s, g, pre);
    }
  }

  /** Clearing from a set cell `p` adds the region of `p`. */
  lemma RegionStep(g: set<Cell>, seeds: seq<Cell>, regions: seq<set<Cell>>, pre: set<Cell>, p: Cell, post: set<Cell>)
    requires Scan(g, seeds, regions, pre)
    requires p in pre && p !in post
    requires FillDone(pre, p, post)
    ensures Scan(g, seeds + [p], regions + [pre - post], post)
  {
    ClosedStep(g, pre, p, post);
    ClearedComponent(g, pre, p, post);
    var rs := regions + [pre - post];
    assert rs[..|regions|] == regions;
    assert Union(rs) == g - post;
    assert forall i :: 0 <= i < |regions| ==> regions[i] <= g - pre by {
      forall i | 0 <= i < |regions| ensures regions[i] <= g - pre {
        UnionHolds(regions, i);
      }
    }
  }

  lemma {:induction false} UnionHolds(rs: seq<set<Cell>>, i: nat)
    requires i < |rs|
    ensures rs[i] <= Union(rs)
  {
    if i < |rs| - 1 {
      UnionHolds(rs[..|rs| - 1], i);
    }
  }

  /** `number_of_regions`: scanning the grid row by row, every cell still set
      starts a new region, which `clear_neighbours` then clears.  The count
      is the number of regions of set cells of the grid. */
  method NumberOfRegions(input: string) returns (count: nat)
    ensures exists seeds, regions :: |regions| == count && Regions(Cells(GridSpec(input), Size), seeds, regions)
  {
    var grid := CreateGrid(input);
    ghost var g := TrueSet(grid);
    ghost var seeds: seq<Cell> := [];
    ghost var regions: seq<set<Cell>> := [];
    ghost var cur := g;
    count := 0;
    assert g - g == {};
    for x := 0 to Size
      invariant IsGrid(grid) && cur == TrueSet(grid)
      invariant count == |regions| && Scan(g, seeds, regions, cur)
      invariant forall i, j :: (i, j) in cur ==> i >= x
    {
      for y := 0 to Size
        invariant cur == TrueSet(grid)
        invariant count == |regions| && Scan(g, seeds, regions, cur)
        invariant forall i, j :: (i, j) in cur ==> i > x || (i == x && j >= y)
      {
        ghost var pre := cur;
        if grid[x, y] {
          count := count + 1;
          ClearNeighbours(grid, x, y);
          RegionStep(g, seeds, regions, cur, (x, y), TrueSet(grid));
          seeds := seeds + [(x, y)];
          regions := regions + [pre - TrueSet(grid)];
          cur := TrueSet(grid);
        }
        ScanPast(pre, cur, x, y);
      }
    }
    NoPairs(cur);
    ScanDone(g, seeds, regions, cur);
    assert |regions| == count && Regions(g, seeds, regions);
  }

  /** The scan has passed `(x, y)`: no set cell is left before the cell after it. */
  lemma ScanPast(pre: set<Cell>, post: set<Cell>, x: int, y: int)
    requires forall i, j :: (i, j) in pre ==> i > x || (i == x && j >= y)
    requires post <= pre && (x, y) !in post
    ensures forall i, j :: (i, j) in post ==> i > x || (i == x && j >= y + 1)
  {
  }

  lemma ScanDone(g: set<Cell>, seeds: seq<Cell>, regions: seq<set<Cell>>, cur: set<Cell>)
    requires Scan(g, seeds, regions, cur) && cur == {}
    ensures Regions(g, seeds, regions)
  {
    assert g - cur == g;
  }
}
