/** The art program of day 21 (`day-21/src/main.rs`): `iterate` splits the
    grid into tiles, replaces every tile by the output of its rule, and
    merges the tiles back, as many times as asked.

    A round can panic: `split` indexes past the grid when the size is odd
    and not a multiple of 3, and `merge` unwraps the last tile of an empty
    split and indexes past a tile shorter than the last one.  A round that
    panics gives `None`.
 */
module Day21 {
  import opened Wrappers
  import opened Day21Grid
  import opened Day21Patterns
  import opened Repetition

  /** Every tile replaced by the output of its rule, as the two `map`s do. */
  function ApplyTiles(p: Patterns, tiles: seq<seq<Grid>>): (r: seq<seq<Grid>>)
    ensures |r| == |tiles|
    ensures forall a :: 0 <= a < |r| ==> |r[a]| == |tiles[a]|
    ensures forall a, b :: 0 <= a < |r| && 0 <= b < |r[a]| ==> r[a][b] == Apply(p, tiles[a][b])
  {
    seq(|tiles|, a requires 0 <= a < |tiles| =>
      seq(|tiles[a]|, b requires 0 <= b < |tiles[a]| => Apply(p, tiles[a][b])))
  }

  /** One round of `iterate`: split, apply, merge; `None` where it panics. */
  function Enhance(g: Grid, p: Patterns): (r: Option<Grid>)
    ensures r.Some? ==> CanSplit(g) && CanMerge(ApplyTiles(p, SplitSpec(g)))
  {
    if !CanSplit(g) then None
    else
      var tiles := ApplyTiles(p, SplitSpec(g));
      if !CanMerge(tiles) then None else Some(MergeSpec(tiles))
  }

  /** `no` rounds of `iterate`. */
  function IterateSpec(g: Grid, no: nat, p: Patterns): Option<Grid> {
    Repeat(h => Enhance(h, p), g, no)
  }

  /** `iterate`: the grid replaced round after round. */
  method Iterate(grid0: Grid, no: nat, p: Patterns) returns (r: Option<Grid>)
    ensures r == IterateSpec(grid0, no, p)
  {
    var grid := grid0;
    for i := 0 to no
      invariant IterateSpec(grid0, i, p) == Some(grid)
    {
      var next := Round(grid, p);
      RepeatStep(h => Enhance(h, p), grid0, i, no, grid, next);
      if next.None? {
        return None;
      }
      grid := next.value;
    }
    r := Some(grid);
  }

  /** The body of `iterate`'s loop: the grid split, every tile replaced,
      the tiles merged. */
  method Round(grid: Grid, p: Patterns) returns (r: Option<Grid>)
    ensures r == Enhance(grid, p)
  {
    if !CanSplit(grid) {
      return None;
    }
    var tiles := Split(grid);
    var applied := ApplyTiles(p, tiles);
    if !CanMerge(applied) {
      return None;
    }
    var merged := Merge(applied);
    r := Some(merged);
  }

  /** Running `a` rounds and then `b` more is running `a + b` rounds, as
      `main` does for the second part (5 rounds, then 13 more). */
  lemma IterateAdd(g: Grid, a: nat, b: nat, p: Patterns)
    ensures IterateSpec(g, a + b, p) ==
      if IterateSpec(g, a, p).None? then None else IterateSpec(IterateSpec(g, a, p).value, b, p)
  {
    RepeatAdd(h => Enhance(h, p), g, a, b);
  }

  /** A round in which no tile has a rule leaves a square grid as it is:
      merging the split gives the grid back. */
  lemma EnhanceNoRules(g: Grid, p: Patterns)
    requires IsSquare(g) && CanSplit(g) && g.cells != []
    requires forall a, b :: 0 <= a < |SplitSpec(g)| && 0 <= b < |SplitSpec(g)[a]| ==>
      SplitSpec(g)[a][b] !in p.rules
    ensures Enhance(g, p) == Some(g)
  {
    var tiles := SplitSpec(g);
    var applied := ApplyTiles(p, tiles);
    forall a | 0 <= a < |tiles|
      ensures applied[a] == tiles[a]
    {
      assert forall b :: 0 <= b < |tiles[a]| ==> applied[a][b] == tiles[a][b];
    }
    assert applied == tiles;
    MergeSplit(g);
  }

  /** With no rules every round leaves a square grid that can be split as
      it is. */
  lemma IterateDefault(g: Grid, no: nat)
    requires IsSquare(g) && CanSplit(g) && g.cells != []
    ensures IterateSpec(g, no, Default()) == Some(g)
  {
    EnhanceNoRules(g, Default());
    RepeatFixed(h => Enhance(h, Default()), g, no);
  }

  // ---------------------------------------------------------------- growth

  /** Concatenating pieces of width `w` gives `|ss| * w` elements. */
  lemma {:induction false} FlattenLength<T>(ss: seq<seq<T>>, w: nat)
    requires forall i :: 0 <= i < |ss| ==> |ss[i]| == w
    ensures |Flatten(ss)| == |ss| * w
  {
    if ss != [] {
      var init := ss[..|ss| - 1];
      assert forall i :: 0 <= i < |init| ==> init[i] == ss[i];
      FlattenLength(init, w);
      assert |Flatten(ss)| == |Flatten(init)| + |ss[|ss| - 1]|;
    }
  }

  /** Every element of a concatenation comes from one of the pieces. */
  lemma {:induction false} FlattenMember<T>(ss: seq<seq<T>>, x: T)
    requires x in Flatten(ss)
    ensures exists i :: 0 <= i < |ss| && x in ss[i]
  {
    var n := |ss| - 1;
    if x !in ss[n] {
      FlattenMember(ss[..n], x);
      var i :| 0 <= i < n && x in ss[..n][i];
      assert ss[i] == ss[..n][i];
    }
  }

  /** A `k` x `k` grid of square tiles of side `m` is a tile grid `merge`
      accepts. */
  predicate UniformTiles(grids: seq<seq<Grid>>, m: nat) {
    grids != [] && m > 0 &&
    (forall a :: 0 <= a < |grids| ==> |grids[a]| == |grids|) &&
    (forall a, b :: 0 <= a < |grids| && 0 <= b < |grids[a]| ==>
      IsSquare(grids[a][b]) && |grids[a][b].cells| == m)
  }

  /** Merging `k` x `k` square tiles of side `m` gives a square grid of side
      `k * m`. */
  lemma MergeUniform(grids: seq<seq<Grid>>, m: nat)
    requires UniformTiles(grids, m)
    ensures CanMerge(grids) && MergeSize(grids) == m
    ensures IsSquare(MergeSpec(grids)) && |MergeSpec(grids).cells| == |grids| * m
  {
    var k := |grids|;
    var blocks := seq(k, a requires 0 <= a < k => MergedRows(grids, a));
    forall a, r | 0 <= a < k && 0 <= r < m
      ensures |MergedRow(grids[a], r)| == k * m
    {
      var pieces := seq(k, b requires 0 <= b < k => grids[a][b].cells[r]);
      FlattenLength(pieces, m);
    }
    FlattenLength(blocks, m);
    var cells := MergeSpec(grids).cells;
    assert cells == Flatten(blocks);
    forall x | 0 <= x < |cells|
      ensures |cells[x]| == k * m
    {
      FlattenMember(blocks, cells[x]);
      var a :| 0 <= a < k && cells[x] in blocks[a];
      var r :| 0 <= r < m && blocks[a][r] == cells[x];
    }
  }

  /** A round in which every tile has a rule whose output is one cell wider
      than the tile turns a square grid of side `n` into one of side
      `n / step * (step + 1)`: 3 becomes 4, 4 becomes 6, 6 becomes 9. */
  lemma EnhanceGrows(g: Grid, p: Patterns)
    requires IsSquare(g) && CanSplit(g) && g.cells != []
    requires forall a, b :: 0 <= a < |SplitSpec(g)| && 0 <= b < |SplitSpec(g)[a]| ==>
      SplitSpec(g)[a][b] in p.rules && IsSquare(p.rules[SplitSpec(g)[a][b]]) &&
      |p.rules[SplitSpec(g)[a][b]].cells| == Step(g) + 1
    ensures Enhance(g, p).Some?
    ensures IsSquare(Enhance(g, p).value)
    ensures |Enhance(g, p).value.cells| == |g.cells| / Step(g) * (Step(g) + 1)
  {
    DivExact(|g.cells|, Step(g));
    var tiles := ApplyTiles(p, SplitSpec(g));
    assert UniformTiles(tiles, Step(g) + 1);
    MergeUniform(tiles, Step(g) + 1);
  }
}
