/** Counting the set cells of rows of booleans, as the puzzle programs do
    with a `fold` or a `filter(..).count()`, and the set of those cells. */
module Counting {

  function B(b: bool): nat { if b then 1 else 0 }

  /** The number of set cells of a row, counted left to right. */
  function CountTrue(row: seq<bool>): (n: nat)
    ensures n <= |row|
  {
    if row == [] then 0 else CountTrue(row[..|row| - 1]) + B(row[|row| - 1])
  }

  /** The set cells of row `x`, as grid cells. */
  function RowCells(row: seq<bool>, x: int): set<(int, int)> {
    set j | 0 <= j < |row| && row[j] :: (x, j)
  }

  lemma RowCellsSnoc(row: seq<bool>, x: int)
    requires row != []
    ensures RowCells(row, x) == RowCells(row[..|row| - 1], x) + (if row[|row| - 1] then {(x, |row| - 1)} else {})
    ensures (x, |row| - 1) !in RowCells(row[..|row| - 1], x)
  {
    var n := |row| - 1;
    forall c | c in RowCells(row, x)
      ensures c in RowCells(row[..n], x) + (if row[n] then {(x, n)} else {})
    {
      var j :| 0 <= j < |row| && row[j] && c == (x, j);
      if j < n {
        assert row[..n][j];
      }
    }
  }

  lemma {:induction false} CountTrueCells(row: seq<bool>, x: int)
    ensures CountTrue(row) == |RowCells(row, x)|
  {
    if row != [] {
      CountTrueCells(row[..|row| - 1], x);
      RowCellsSnoc(row, x);
    }
  }

  /** The set cells of the first `n` rows. */
  function Cells(g: seq<seq<bool>>, n: nat): set<(int, int)>
    requires n <= |g|
  {
    set x, y | 0 <= x < n && 0 <= y < |g[x]| && g[x][y] :: (x, y)
  }

  /** The sum of the row counts of the first `n` rows. */
  function SumCounts(g: seq<seq<bool>>, n: nat): (r: nat)
    requires n <= |g|
  {
    if n == 0 then 0 else SumCounts(g, n - 1) + CountTrue(g[n - 1])
  }

  lemma {:induction false} SumCountsCells(g: seq<seq<bool>>, n: nat)
    requires n <= |g|
    ensures SumCounts(g, n) == |Cells(g, n)|
  {
    if n > 0 {
      SumCountsCells(g, n - 1);
      CountTrueCells(g[n - 1], n - 1);
      assert Cells(g, n) == Cells(g, n - 1) + RowCells(g[n - 1], n - 1);
      assert Cells(g, n - 1) !! RowCells(g[n - 1], n - 1);
    }
  }

}
