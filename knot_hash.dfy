/** The knot hash of `utils/src/knot_hash.rs`.

    A ring of numbers is knotted by reversing wrapping windows of it, one
    window per input length, with a cursor `position` and a `skip` size that
    persist across rounds.  The 64-round sparse hash of 256 numbers is then
    folded by XOR, 16 numbers at a time, into 16 bytes printed as 32 hex
    digits.

    The ring operations are specified by functions on sequences (`SwapAll`,
    `Step`, `Steps`, `Rounds`); `SparseHash` works in place on an array and
    is proved equal to them.
 */
module KnotHash {
  import opened Wrappers
  import opened Text

  /** Rust's `lo .. hi` collected into a vector. */
  function Range(lo: nat, hi: nat): (r: seq<int>)
    ensures |r| == if hi >= lo then hi - lo else 0
    ensures forall i :: 0 <= i < |r| ==> r[i] == lo + i
  {
    seq(if hi >= lo then hi - lo else 0, i => lo + i)
  }

  // ---------------------------------------------------------------- swaps

  /** `Vec::swap`. */
  function SwapAt(s: seq<int>, i: nat, j: nat): (r: seq<int>)
    requires i < |s| && j < |s|
    ensures |r| == |s|
  {
    s[i := s[j]][j := s[i]]
  }

  lemma SwapAtPermutes(s: seq<int>, i: nat, j: nat)
    requires i < |s| && j < |s|
    ensures multiset(SwapAt(s, i, j)) == multiset(s)
  {
  }

  lemma SwapAtIndex(s: seq<int>, i: nat, j: nat)
    requires i < |s| && j < |s|
    ensures SwapAt(s, i, j)[i] == s[j] && SwapAt(s, i, j)[j] == s[i]
    ensures forall k :: 0 <= k < |s| && k != i && k != j ==> SwapAt(s, i, j)[k] == s[k]
  {
  }

  /** Index pairs that all lie inside a sequence of length `n`. */
  predicate PairsInside(pairs: seq<(nat, nat)>, n: nat) {
    forall j :: 0 <= j < |pairs| ==> pairs[j].0 < n && pairs[j].1 < n
  }

  /** The swaps of `pairs`, made in order. */
  function SwapAll(s: seq<int>, pairs: seq<(nat, nat)>): (r: seq<int>)
    requires PairsInside(pairs, |s|)
    ensures |r| == |s|
  {
    if pairs == [] then s
    else
      var last := pairs[|pairs| - 1];
      SwapAt(SwapAll(s, pairs[..|pairs| - 1]), last.0, last.1)
  }

  lemma {:induction false} SwapAllPermutes(s: seq<int>, pairs: seq<(nat, nat)>)
    requires PairsInside(pairs, |s|)
    ensures multiset(SwapAll(s, pairs)) == multiset(s)
  {
    if pairs != [] {
      var last := pairs[|pairs| - 1];
      SwapAllPermutes(s, pairs[..|pairs| - 1]);
      SwapAtPermutes(SwapAll(s, pairs[..|pairs| - 1]), last.0, last.1);
    }
  }

  // ---------------------------------------------------------------- the ring

  /** The index `offset` cells after `pos` in a ring of `n` cells. */
  function At(pos: nat, offset: nat, n: nat): (r: nat)
    requires n > 0
    ensures r < n
  {
    (pos + offset) % n
  }

  /** The swaps that reverse the window of `len` cells at `pos`: cell `j`
      with cell `len - 1 - j`, for `j < len / 2`. */
  function WindowSwaps(pos: nat, len: nat, n: nat): (r: seq<(nat, nat)>)
    requires n > 0
    ensures |r| == len / 2
    ensures forall j :: 0 <= j < |r| ==> r[j] == (At(pos, j, n), At(pos, len - 1 - j, n))
    ensures PairsInside(r, n)
  {
    seq(len / 2, j requires 0 <= j < len / 2 => (At(pos, j, n), At(pos, len - 1 - j, n)))
  }

  /** The ring together with the cursor that the loops carry. */
  datatype Knot = Knot(list: seq<int>, position: nat, skip: nat)

  /** One input length: reverse the window, then advance by length plus skip. */
  function Step(c: Knot, len: nat): (r: Knot)
    requires |c.list| > 0
    ensures |r.list| == |c.list|
  {
    var n := |c.list|;
    Knot(SwapAll(c.list, WindowSwaps(c.position, len, n)), At(c.position, len + c.skip, n), c.skip + 1)
  }

  /** All the lengths of one round, in order. */
  function Steps(c: Knot, lengths: seq<nat>): (r: Knot)
    requires |c.list| > 0 || lengths == []
    ensures |r.list| == |c.list|
  {
    if lengths == [] then c
    else Step(Steps(c, lengths[..|lengths| - 1]), lengths[|lengths| - 1])
  }

  /** `rounds` rounds over the same lengths, the cursor carried over. */
  function Rounds(c: Knot, lengths: seq<nat>, rounds: nat): (r: Knot)
    requires |c.list| > 0 || lengths == [] || rounds == 0
    ensures |r.list| == |c.list|
  {
    if rounds == 0 || lengths == [] then c
    else Steps(Rounds(c, lengths, rounds - 1), lengths)
  }

  /** The code divides by the ring length as soon as it processes a length,
      so an empty range is only allowed when there is nothing to process. */
  predicate CanHash(lo: nat, hi: nat, rounds: nat, lengths: seq<nat>) {
    hi > lo || rounds == 0 || lengths == []
  }

  /** The sparse hash of the range `lo .. hi`. */
  function SparseSpec(lo: nat, hi: nat, rounds: nat, lengths: seq<nat>): seq<int>
    requires CanHash(lo, hi, rounds, lengths)
  {
    Rounds(Knot(Range(lo, hi), 0, 0), lengths, rounds).list
  }

  /** One more round runs the lengths once more from where the last ended. */
  lemma RoundsNext(c: Knot, lengths: seq<nat>, rounds: nat)
    requires |c.list| > 0 && lengths != []
    ensures Rounds(c, lengths, rounds + 1) == Steps(Rounds(c, lengths, rounds), lengths)
  {
  }

  /** `sparse_hash`: the swaps are made in place on the vector. */
  method SparseHash(lo: nat, hi: nat, rounds: nat, lengths: seq<nat>) returns (r: seq<int>)
    requires CanHash(lo, hi, rounds, lengths)
    ensures r == SparseSpec(lo, hi, rounds, lengths)
    ensures |r| == |Range(lo, hi)|
    ensures multiset(r) == multiset(Range(lo, hi))
    ensures rounds == 0 ==> r == Range(lo, hi)
  {
    var n := if hi >= lo then hi - lo else 0;
    var list := new int[n](i requires 0 <= i < n => lo + i);
    assert list[..] == Range(lo, hi);
    if lengths == [] || rounds == 0 {
      return list[..];
    }
    RunRounds(list, rounds, lengths);
    r := list[..];
    SparseSpecPermutes(lo, hi, rounds, lengths);
  }

  /** The loop of `sparse_hash` over the rounds, the cursor carried from one
      round to the next. */
  method RunRounds(list: array<int>, rounds: nat, lengths: seq<nat>)
    requires list.Length > 0 && lengths != []
    modifies list
    ensures list[..] == Rounds(Knot(old(list[..]), 0, 0), lengths, rounds).list
  {
    ghost var start := Knot(list[..], 0, 0);
    var position: nat := 0;
    var skip: nat := 0;
    for round := 0 to rounds
      invariant Knot(list[..], position, skip) == Rounds(start, lengths, round)
    {
      position, skip := Round(list, position, skip, lengths);
      RoundsNext(start, lengths, round);
    }
  }

  /** One pass over the lengths, in place. */
  method Round(list: array<int>, position: nat, skip: nat, lengths: seq<nat>)
      returns (position': nat, skip': nat)
    requires list.Length > 0
    modifies list
    ensures Knot(list[..], position', skip') == Steps(Knot(old(list[..]), position, skip), lengths)
  {
    var n := list.Length;
    ghost var before := Knot(list[..], position, skip);
    position', skip' := position, skip;
    var k := 0;
    while k < |lengths|
      invariant 0 <= k <= |lengths|
      invariant Knot(list[..], position', skip') == Steps(before, lengths[..k])
    {
      var len := lengths[k];
      Reverse(list, position', len);
      position' := (position' + len + skip') % n;
      skip' := skip' + 1;
      assert lengths[..k + 1][..k] == lengths[..k];
      k := k + 1;
    }
    assert lengths[..|lengths|] == lengths;
  }

  /** The swap loop of one length, in place. */
  method Reverse(list: array<int>, position: nat, len: nat)
    requires list.Length > 0
    modifies list
    ensures list[..] == SwapAll(old(list[..]), WindowSwaps(position, len, list.Length))
  {
    var n := list.Length;
    ghost var pairs := WindowSwaps(position, len, n);
    var j := 0;
    while j < len / 2
      invariant 0 <= j <= len / 2
      invariant list[..] == SwapAll(old(list[..]), pairs[..j])
    {
      var p, q := (position + j) % n, (position + len - j - 1) % n;
      assert pairs[..j + 1][..j] == pairs[..j];
      list[p], list[q] := list[q], list[p];
      j := j + 1;
    }
    assert pairs[..len / 2] == pairs;
  }

  // ---------------------------------------------------------------- permutation

  lemma {:induction false} StepsPermute(c: Knot, lengths: seq<nat>)
    requires |c.list| > 0 || lengths == []
    ensures multiset(Steps(c, lengths).list) == multiset(c.list)
  {
    if lengths != [] {
      var prev := Steps(c, lengths[..|lengths| - 1]);
      var len := lengths[|lengths| - 1];
      StepsPermute(c, lengths[..|lengths| - 1]);
      SwapAllPermutes(prev.list, WindowSwaps(prev.position, len, |prev.list|));
    }
  }

  lemma {:induction false} RoundsPermute(c: Knot, lengths: seq<nat>, rounds: nat)
    requires |c.list| > 0 || lengths == [] || rounds == 0
    ensures multiset(Rounds(c, lengths, rounds).list) == multiset(c.list)
  {
    if rounds > 0 && lengths != [] {
      var prev := Rounds(c, lengths, rounds - 1);
      RoundsPermute(c, lengths, rounds - 1);
      StepsPermute(prev, lengths);
    }
  }

  /** Only swaps are applied, so the sparse hash is a permutation of the range. */
  lemma SparseSpecPermutes(lo: nat, hi: nat, rounds: nat, lengths: seq<nat>)
    requires CanHash(lo, hi, rounds, lengths)
    ensures multiset(SparseSpec(lo, hi, rounds, lengths)) == multiset(Range(lo, hi))
  {
    RoundsPermute(Knot(Range(lo, hi), 0, 0), lengths, rounds);
  }

  // ---------------------------------------------------------------- the window

  lemma AtSmall(pos: nat, i: nat, n: nat)
    requires pos < n && i < n
    ensures At(pos, i, n) == if pos + i < n then pos + i else pos + i - n
  {
    var x := pos + i;
    if x >= n {
      var d := x / n;
      assert x == n * d + x % n;
      assert d == 1;
    }
  }

  /** Two offsets below the ring length land on the same cell only if equal. */
  lemma ModInjective(pos: nat, i: nat, k: nat, n: nat)
    requires pos < n && i < n && k < n
    requires At(pos, i, n) == At(pos, k, n)
    ensures i == k
  {
    AtSmall(pos, i, n);
    AtSmall(pos, k, n);
  }

  /** `x` is one of the `len` cells of the window that starts at `pos`. */
  predicate InWindow(x: nat, pos: nat, len: nat, n: nat)
    requires n > 0
  {
    exists i :: 0 <= i < len && x == At(pos, i, n)
  }

  /** The first and last `k` cells of the window of `len` at `pos` hold
      their mirror images from `s`; the cells between are as in `s`. */
  predicate Mirrored(r: seq<int>, s: seq<int>, pos: nat, len: nat, k: nat)
    requires |r| == |s| > 0
  {
    forall i :: 0 <= i < len ==> MirrorCell(r, s, pos, len, k, i)
  }

  /** Offset `i` of the window, after `k` of its swaps. */
  predicate MirrorCell(r: seq<int>, s: seq<int>, pos: nat, len: nat, k: nat, i: nat)
    requires |r| == |s| > 0 && i < len
  {
    r[At(pos, i, |s|)]
      == if i < k || i >= len - k then s[At(pos, len - 1 - i, |s|)] else s[At(pos, i, |s|)]
  }

  /** Every cell outside the window is as in `s`. */
  predicate Unmoved(r: seq<int>, s: seq<int>, pos: nat, len: nat)
    requires |r| == |s| > 0
  {
    forall x :: 0 <= x < |s| && !InWindow(x, pos, len, |s|) ==> r[x] == s[x]
  }

  /** The cell at offset `i` after swap `k - 1` of the window. */
  lemma MirroredCell(prev: seq<int>, s: seq<int>, pos: nat, len: nat, k: nat, i: nat)
    requires |prev| == |s| && pos < |s| && 0 < len <= |s|
    requires 0 < k <= len / 2 && i < len
    requires Mirrored(prev, s, pos, len, k - 1)
    ensures MirrorCell(SwapAt(prev, At(pos, k - 1, |s|), At(pos, len - k, |s|)), s, pos, len, k, i)
  {
    var n := |s|;
    var p, q := At(pos, k - 1, n), At(pos, len - k, n);
    var r := SwapAt(prev, p, q);
    SwapAtIndex(prev, p, q);
    var x := At(pos, i, n);
    if i == k - 1 {
      assert r[x] == prev[q];
      assert MirrorCell(prev, s, pos, len, k - 1, len - k);
      assert len - 1 - i == len - k;
    } else if i == len - k {
      assert r[x] == prev[p];
      assert MirrorCell(prev, s, pos, len, k - 1, k - 1);
      assert len - 1 - i == k - 1;
    } else {
      if x == p { ModInjective(pos, i, k - 1, n); }
      if x == q { ModInjective(pos, i, len - k, n); }
      assert r[x] == prev[x];
      assert MirrorCell(prev, s, pos, len, k - 1, i);
    }
  }

  /** Swap `k - 1` of the window extends the mirrored part by one cell at each end. */
  lemma MirroredStep(prev: seq<int>, s: seq<int>, pos: nat, len: nat, k: nat)
    requires |prev| == |s| && pos < |s| && 0 < len <= |s|
    requires 0 < k <= len / 2
    requires Mirrored(prev, s, pos, len, k - 1)
    ensures Mirrored(SwapAt(prev, At(pos, k - 1, |s|), At(pos, len - k, |s|)), s, pos, len, k)
  {
    var r := SwapAt(prev, At(pos, k - 1, |s|), At(pos, len - k, |s|));
    forall i | 0 <= i < len ensures MirrorCell(r, s, pos, len, k, i) {
      MirroredCell(prev, s, pos, len, k, i);
    }
  }

  lemma UnmovedStep(prev: seq<int>, s: seq<int>, pos: nat, len: nat, k: nat)
    requires |prev| == |s| && 0 < len <= |s|
    requires 0 < k <= len / 2
    requires Unmoved(prev, s, pos, len)
    ensures Unmoved(SwapAt(prev, At(pos, k - 1, |s|), At(pos, len - k, |s|)), s, pos, len)
  {
    var n := |s|;
    var p, q := At(pos, k - 1, n), At(pos, len - k, n);
    SwapAtIndex(prev, p, q);
    forall x | 0 <= x < n && !InWindow(x, pos, len, n)
      ensures SwapAt(prev, p, q)[x] == s[x]
    {
      assert x != p && x != q;
    }
  }

  /** After the first `k` swaps of a window that fits the ring, the first
      and last `k` cells of the window hold their mirror images and every
      other cell is unchanged. */
  lemma {:induction false} SwapsWindow(s: seq<int>, pos: nat, len: nat, k: nat)
    requires pos < |s| && 0 < len <= |s|
    requires k <= len / 2
    ensures Mirrored(SwapAll(s, WindowSwaps(pos, len, |s|)[..k]), s, pos, len, k)
    ensures Unmoved(SwapAll(s, WindowSwaps(pos, len, |s|)[..k]), s, pos, len)
  {
    var n := |s|;
    var pairs := WindowSwaps(pos, len, n);
    if k > 0 {
      SwapsWindow(s, pos, len, k - 1);
      var prev := SwapAll(s, pairs[..k - 1]);
      assert pairs[..k][..k - 1] == pairs[..k - 1];
      assert SwapAll(s, pairs[..k]) == SwapAt(prev, At(pos, k - 1, n), At(pos, len - k, n));
      MirroredStep(prev, s, pos, len, k);
      UnmovedStep(prev, s, pos, len, k);
    }
  }

  /** One step reverses the elements at `(position + i) % n`, `i < len`,
      and leaves every other cell as it was, when the length fits the ring. */
  lemma StepReverses(c: Knot, len: nat)
    requires c.position < |c.list| && len <= |c.list|
    ensures forall i {:trigger Step(c, len).list[At(c.position, i, |c.list|)]} :: 0 <= i < len ==>
      Step(c, len).list[At(c.position, i, |c.list|)] == c.list[At(c.position, len - 1 - i, |c.list|)]
    ensures forall x :: 0 <= x < |c.list| && !InWindow(x, c.position, len, |c.list|) ==>
      Step(c, len).list[x] == c.list[x]
  {
    if len > 0 {
      var pairs := WindowSwaps(c.position, len, |c.list|);
      SwapsWindow(c.list, c.position, len, len / 2);
      assert pairs[..len / 2] == pairs;
      var r := Step(c, len).list;
      assert Mirrored(r, c.list, c.position, len, len / 2);
      assert Unmoved(r, c.list, c.position, len);
      forall i | 0 <= i < len
        ensures r[At(c.position, i, |c.list|)] == c.list[At(c.position, len - 1 - i, |c.list|)]
      {
        assert MirrorCell(r, c.list, c.position, len, len / 2, i);
        if !(i < len / 2 || i >= len - len / 2) {
          assert len - 1 - i == i;
        }
      }
    }
  }

  /** Lengths 0 and 1 make no swap. */
  lemma StepShortLength(c: Knot, len: nat)
    requires |c.list| > 0 && len <= 1
    ensures Step(c, len).list == c.list
  {
  }

  // ---------------------------------------------------------------- the cursor

  lemma {:induction false} StepsCursor(c: Knot, lengths: seq<nat>)
    requires c.position < |c.list|
    ensures Steps(c, lengths).position < |c.list|
    ensures Steps(c, lengths).skip == c.skip + |lengths|
  {
    if lengths != [] {
      StepsCursor(c, lengths[..|lengths| - 1]);
    }
  }

  /** The position stays inside the ring and the skip grows by exactly one per
      length, never reset between rounds. */
  lemma {:induction false} RoundsCursor(c: Knot, lengths: seq<nat>, rounds: nat)
    requires c.position < |c.list|
    ensures Rounds(c, lengths, rounds).position < |c.list|
    ensures Rounds(c, lengths, rounds).skip == c.skip + rounds * |lengths|
  {
    if rounds > 0 && lengths != [] {
      var prev := Rounds(c, lengths, rounds - 1);
      RoundsCursor(c, lengths, rounds - 1);
      StepsCursor(prev, lengths);
      assert (rounds - 1) * |lengths| + |lengths| == rounds * |lengths|;
    }
  }

  // ---------------------------------------------------------------- the dense hash

  /** `parse_as_chars`: the code of every character, then the fixed suffix. */
  function ParseAsChars(input: string): (r: seq<nat>)
    ensures |r| == |input| + 5
    ensures forall i :: 0 <= i < |input| ==> r[i] == input[i] as nat
    ensures r[|input|..] == [17, 31, 73, 47, 23]
  {
    seq(|input|, i requires 0 <= i < |input| => input[i] as nat) + [17, 31, 73, 47, 23]
  }

  /** Different inputs give different length lists. */
  lemma ParseAsCharsInjective(a: string, b: string)
    requires ParseAsChars(a) == ParseAsChars(b)
    ensures a == b
  {
    assert |a| == |b|;
    forall i | 0 <= i < |a| ensures a[i] == b[i] {
      assert ParseAsChars(a)[i] == ParseAsChars(b)[i];
      assert a[i] as int == b[i] as int;
    }
  }

  function Pow2(k: nat): (r: nat)
    ensures r >= 1
  {
    if k == 0 then 1 else 2 * Pow2(k - 1)
  }

  /** `^` on unsigned integers, bit by bit from the lowest. */
  function Xor(a: nat, b: nat): nat
    decreases a + b
  {
    if a == 0 then b
    else if b == 0 then a
    else 2 * Xor(a / 2, b / 2) + (if a % 2 == b % 2 then 0 else 1)
  }

  /** XOR of two `k`-bit numbers has `k` bits. */
  lemma {:induction false} XorBelow(a: nat, b: nat, k: nat)
    requires a < Pow2(k) && b < Pow2(k)
    ensures Xor(a, b) < Pow2(k)
    decreases k
  {
    if a != 0 && b != 0 {
      XorBelow(a / 2, b / 2, k - 1);
    }
  }

  /** `fold(0, |sum, i| sum ^ i)`. */
  function XorFold(chunk: seq<nat>): nat {
    if chunk == [] then 0 else Xor(XorFold(chunk[..|chunk| - 1]), chunk[|chunk| - 1])
  }

  /** Folding bytes gives a byte. */
  lemma {:induction false} XorFoldByte(chunk: seq<nat>)
    requires forall i :: 0 <= i < |chunk| ==> chunk[i] < 256
    ensures XorFold(chunk) < 256
  {
    if chunk != [] {
      XorFoldByte(chunk[..|chunk| - 1]);
      assert Pow2(8) == 256;
      XorBelow(XorFold(chunk[..|chunk| - 1]), chunk[|chunk| - 1], 8);
    }
  }

  /** `chunks(16)`: consecutive pieces of 16, the last one possibly shorter. */
  function Chunks16(s: seq<nat>): (r: seq<seq<nat>>)
    ensures |s| % 16 == 0 ==> |r| == |s| / 16
    ensures forall j :: 0 <= j < |r| ==> 0 < |r[j]| <= 16
    decreases |s|
  {
    if s == [] then []
    else if |s| <= 16 then [s]
    else [s[..16]] + Chunks16(s[16..])
  }

  /** When the length is a multiple of 16, chunk `j` is `s[16 j .. 16 j + 16]`. */
  lemma {:induction false} Chunks16Exact(s: seq<nat>)
    requires |s| % 16 == 0
    ensures forall j :: 0 <= j < |s| / 16 ==> Chunks16(s)[j] == s[16 * j..16 * j + 16]
    decreases |s|
  {
    if |s| > 16 {
      Chunks16Exact(s[16..]);
      var r := Chunks16(s);
      forall j | 0 <= j < |s| / 16 ensures r[j] == s[16 * j..16 * j + 16] {
        if j > 0 {
          assert r[j] == Chunks16(s[16..])[j - 1];
          assert s[16..][16 * (j - 1)..16 * (j - 1) + 16] == s[16 * j..16 * j + 16];
        }
      }
    }
  }

  lemma {:induction false} Chunks16Bytes(s: seq<nat>)
    requires forall i :: 0 <= i < |s| ==> s[i] < 256
    ensures forall j, i :: 0 <= j < |Chunks16(s)| && 0 <= i < |Chunks16(s)[j]| ==> Chunks16(s)[j][i] < 256
    decreases |s|
  {
    if |s| > 16 {
      Chunks16Bytes(s[16..]);
      var r := Chunks16(s);
      assert r == [s[..16]] + Chunks16(s[16..]);
    }
  }

  predicate IsLowerHex(c: char) {
    IsDigit(c) || 'a' <= c <= 'f'
  }

  function HexDigit(d: nat): (c: char)
    requires d < 16
    ensures IsLowerHex(c)
    ensures ToDigit(c, 16) == Some(d)
  {
    "0123456789abcdef"[d]
  }

  /** `format!("{:02x}", v)` for `v < 256`: always two lowercase digits. */
  function Hex2(v: nat): (r: string)
    requires v < 256
    ensures |r| == 2 && IsLowerHex(r[0]) && IsLowerHex(r[1])
  {
    [HexDigit(v / 16), HexDigit(v % 16)]
  }

  /** Reading the two digits back with `to_digit(16)` gives the byte. */
  lemma Hex2RoundTrip(v: nat)
    requires v < 256
    ensures ToDigit(Hex2(v)[0], 16).Some? && ToDigit(Hex2(v)[1], 16).Some?
    ensures ToDigit(Hex2(v)[0], 16).value * 16 + ToDigit(Hex2(v)[1], 16).value == v
  {
  }

  /** Each chunk of bytes folded by XOR and printed as two hex digits. */
  function HexOfChunks(chunks: seq<seq<nat>>): (r: string)
    requires forall j, i :: 0 <= j < |chunks| && 0 <= i < |chunks[j]| ==> chunks[j][i] < 256
    ensures |r| == 2 * |chunks|
    ensures forall i :: 0 <= i < |r| ==> IsLowerHex(r[i])
  {
    if chunks == [] then []
    else
      XorFoldByte(chunks[0]);
      Hex2(XorFold(chunks[0])) + HexOfChunks(chunks[1..])
  }

  /** Every number of a sparse hash of `0 .. 256` is a byte. */
  lemma SparseBytes(rounds: nat, lengths: seq<nat>)
    ensures var sparse := SparseSpec(0, 256, rounds, lengths);
      |sparse| == 256 && forall i :: 0 <= i < |sparse| ==> 0 <= sparse[i] < 256
  {
    var sparse := SparseSpec(0, 256, rounds, lengths);
    SparseSpecPermutes(0, 256, rounds, lengths);
    forall i | 0 <= i < |sparse| ensures 0 <= sparse[i] < 256 {
      assert sparse[i] in multiset(Range(0, 256));
      assert sparse[i] in Range(0, 256);
    }
  }

  /** The numbers of a sparse hash of bytes, as naturals. */
  function Bytes(sparse: seq<int>): (r: seq<nat>)
    requires forall i :: 0 <= i < |sparse| ==> 0 <= sparse[i] < 256
    ensures |r| == |sparse|
    ensures forall i :: 0 <= i < |r| ==> r[i] == sparse[i] && r[i] < 256
  {
    seq(|sparse|, i requires 0 <= i < |sparse| => sparse[i] as nat)
  }

  /** The dense hash of a 64-round sparse hash over the given lengths. */
  function DenseHex(lengths: seq<nat>): (r: string)
    ensures |r| == 32
    ensures forall i :: 0 <= i < |r| ==> IsLowerHex(r[i])
  {
    var sparse := SparseSpec(0, 256, 64, lengths);
    SparseBytes(64, lengths);
    Chunks16Bytes(Bytes(sparse));
    HexOfChunks(Chunks16(Bytes(sparse)))
  }

  /** `hash`: 64 rounds over the character codes and the suffix, then the
      XOR fold of the 16 chunks of 16, printed as 32 lowercase hex digits. */
  function Hash(input: string): (r: string)
    ensures |r| == 32
    ensures forall i :: 0 <= i < |r| ==> IsLowerHex(r[i])
  {
    DenseHex(ParseAsChars(input))
  }
}
