/** Day 10 (`day-10/src/main.rs`): the program's own copy of the knot hash.

    `compute_sparse_hash` repeats the loop of `KnotHash.SparseHash`; here the
    vector is a sequence value replaced swap by swap, and the method is
    proved to compute the same function, `KnotHash.SparseSpec`, so the two
    copies agree on every range, round count and length list.
 */
module Day10 {
  import opened Wrappers
  import opened Text
  import KnotHash

  /** `compute_sparse_hash`. */
  method ComputeSparseHash(lo: nat, hi: nat, rounds: nat, lengths: seq<nat>) returns (r: seq<int>)
    requires KnotHash.CanHash(lo, hi, rounds, lengths)
    ensures r == KnotHash.SparseSpec(lo, hi, rounds, lengths)
  {
    var hashList := KnotHash.Range(lo, hi);
    var len := |hashList|;
    var position: nat := 0;
    var skipSize: nat := 0;
    ghost var start := KnotHash.Knot(hashList, 0, 0);
    var round := 0;
    while round < rounds
      invariant 0 <= round <= rounds
      invariant |hashList| == len
      invariant KnotHash.Knot(hashList, position, skipSize) == KnotHash.Rounds(start, lengths, round)
    {
      assert len > 0 || lengths == [];
      hashList, position, skipSize := RoundOfLengths(hashList, position, skipSize, lengths);
      round := round + 1;
    }
    r := hashList;
  }

  /** The loop over the lengths in the body of the rounds loop. */
  method RoundOfLengths(hashList: seq<int>, position: nat, skipSize: nat, lengths: seq<nat>)
      returns (hashList': seq<int>, position': nat, skipSize': nat)
    requires |hashList| > 0 || lengths == []
    ensures KnotHash.Knot(hashList', position', skipSize') == KnotHash.Steps(KnotHash.Knot(hashList, position, skipSize), lengths)
  {
    var len := |hashList|;
    ghost var before := KnotHash.Knot(hashList, position, skipSize);
    hashList', position', skipSize' := hashList, position, skipSize;
    var k := 0;
    while k < |lengths|
      invariant 0 <= k <= |lengths|
      invariant KnotHash.Knot(hashList', position', skipSize') == KnotHash.Steps(before, lengths[..k])
    {
      var subListSize := lengths[k];
      hashList' := ReverseSubList(hashList', position', subListSize);
      position' := (position' + subListSize + skipSize') % len;
      skipSize' := skipSize' + 1;
      assert lengths[..k + 1][..k] == lengths[..k];
      k := k + 1;
    }
    assert lengths[..|lengths|] == lengths;
  }

  /** The swap loop of one length, on the vector as a value. */
  method ReverseSubList(list: seq<int>, position: nat, subListSize: nat) returns (r: seq<int>)
    requires |list| > 0
    ensures r == KnotHash.SwapAll(list, KnotHash.WindowSwaps(position, subListSize, |list|))
  {
    var len := |list|;
    ghost var pairs := KnotHash.WindowSwaps(position, subListSize, len);
    r := list;
    var j := 0;
    while j < subListSize / 2
      invariant 0 <= j <= subListSize / 2
      invariant r == KnotHash.SwapAll(list, pairs[..j])
    {
      var p, q := (position + j) % len, (position + subListSize - j - 1) % len;
      assert pairs[..j + 1][..j] == pairs[..j];
      r := r[p := r[q]][q := r[p]];
      j := j + 1;
    }
    assert pairs[..subListSize / 2] == pairs;
  }

  /** Every field parsed as `usize`; `None` where an `unwrap` panics. */
  function ParseFields(fields: seq<string>): (r: Option<seq<nat>>)
    ensures r.Some? ==> |r.value| == |fields|
  {
    if fields == [] then Some([])
    else
      var last := ParseUsize(fields[|fields| - 1]);
      var init := ParseFields(fields[..|fields| - 1]);
      if last.None? || init.None? then None
      else Some(init.value + [last.value])
  }

  /** The fields parse exactly when each of them does, and then to the
      number of each field, in order. */
  lemma {:induction false} ParseFieldsSpec(fields: seq<string>)
    ensures ParseFields(fields).Some? <==> forall i :: 0 <= i < |fields| ==> ParseUsize(fields[i]).Some?
    ensures ParseFields(fields).Some? ==>
      forall i :: 0 <= i < |fields| ==> ParseUsize(fields[i]) == Some(ParseFields(fields).value[i])
  {
    if fields != [] {
      var n := |fields| - 1;
      var init := fields[..n];
      ParseFieldsSpec(init);
      var r := ParseFields(fields);
      if r.Some? {
        forall i | 0 <= i < |fields| ensures ParseUsize(fields[i]) == Some(r.value[i]) {
          if i < n {
            assert fields[i] == init[i];
          }
        }
      } else if ParseUsize(fields[n]).Some? {
        var i :| 0 <= i < n && ParseUsize(init[i]).None?;
        assert fields[i] == init[i];
      }
    }
  }

  /** `parse_as_numbers`: split on commas, every field a `usize`. */
  function ParseAsNumbers(input: string): (r: Option<seq<nat>>)
  {
    ParseFields(Split(input, ','))
  }

  /** Printing numbers joined by commas and parsing them gives them back. */
  lemma ParseAsNumbersOfJoin(ns: seq<nat>)
    requires |ns| >= 1
    requires forall i :: 0 <= i < |ns| ==> ns[i] <= U64_MAX
    ensures ParseAsNumbers(Join(seq(|ns|, i requires 0 <= i < |ns| => NatToString(ns[i])), ',')) == Some(ns)
  {
    var fields := seq(|ns|, i requires 0 <= i < |ns| => NatToString(ns[i]));
    forall i | 0 <= i < |fields| ensures ',' !in fields[i] && ParseUsize(fields[i]) == Some(ns[i]) {
      NatToStringNoSep(ns[i], ',');
      ParseUsizeNatToString(ns[i]);
    }
    SplitJoin(fields, ',');
    ParseFieldsSpec(fields);
    var r := ParseFields(fields);
    assert r.Some?;
    assert r.value == ns;
  }

  /** `check_sum`: the product of the first two numbers after one round.  It
      panics when the lengths do not parse, and when the range holds fewer
      than two numbers: indexing element 1 (or, for an empty range, the
      `% len` of a length) fails. */
  method CheckSum(lo: nat, hi: nat, input: string) returns (r: Option<int>)
    ensures r.Some? <==> ParseAsNumbers(input).Some? && hi >= lo + 2
    ensures r.Some? ==>
      var list := KnotHash.SparseSpec(lo, hi, 1, ParseAsNumbers(input).value);
      r.value == list[0] * list[1]
  {
    var numbers := ParseAsNumbers(input);
    if numbers.None? || hi < lo + 2 {
      return None;
    }
    var hashList := ComputeSparseHash(lo, hi, 1, numbers.value);
    KnotHash.SparseSpecPermutes(lo, hi, 1, numbers.value);
    assert |hashList| == hi - lo by {
      assert |multiset(hashList)| == |multiset(KnotHash.Range(lo, hi))|;
    }
    r := Some(hashList[0] * hashList[1]);
  }

  /** `knot_hash`, built on this program's own sparse hash: the same digest
      as `KnotHash.Hash`. */
  method KnotHashDigest(input: string) returns (r: string)
    ensures r == KnotHash.Hash(input)
    ensures |r| == 32
  {
    var lengths := KnotHash.ParseAsChars(input);
    var sparse := ComputeSparseHash(0, 256, 64, lengths);
    KnotHash.SparseBytes(64, lengths);
    KnotHash.Chunks16Bytes(KnotHash.Bytes(sparse));
    r := KnotHash.HexOfChunks(KnotHash.Chunks16(KnotHash.Bytes(sparse)));
  }

  lemma SplitSample()
    ensures Split("3,4,1,5", ',') == ["3", "4", "1", "5"]
  {
    var fields := ["3", "4", "1", "5"];
    SplitJoin(fields, ',');
    assert Join(["1", "5"], ',') == "1,5";
    assert Join(["4", "1", "5"], ',') == "4,1,5";
    assert Join(fields, ',') == "3,4,1,5";
  }

  lemma ParseDigitsSample()
    ensures ParseUsize("3") == Some(3) && ParseUsize("4") == Some(4)
    ensures ParseUsize("1") == Some(1) && ParseUsize("5") == Some(5)
  {
    assert DigitsValue("3") == 3 by { assert "3"[..0] == []; }
    assert DigitsValue("4") == 4 by { assert "4"[..0] == []; }
    assert DigitsValue("1") == 1 by { assert "1"[..0] == []; }
    assert DigitsValue("5") == 5 by { assert "5"[..0] == []; }
  }

  lemma ParseFieldsSample()
    ensures ParseFields(["3", "4", "1", "5"]) == Some([3, 4, 1, 5])
  {
    ParseDigitsSample();
    var fields := ["3", "4", "1", "5"];
    var expected := [3, 4, 1, 5];
    assert forall i :: 0 <= i < 4 ==> ParseUsize(fields[i]) == Some(expected[i]);
    ParseFieldsSpec(fields);
    var r := ParseFields(fields);
    assert r.value == expected;
  }

  lemma ParseSample()
    ensures ParseAsNumbers("3,4,1,5") == Some([3, 4, 1, 5])
  {
    SplitSample();
    ParseFieldsSample();
  }

  lemma SampleStep1()
    ensures KnotHash.Step(KnotHash.Knot([0, 1, 2, 3, 4], 0, 0), 3) == KnotHash.Knot([2, 1, 0, 3, 4], 3, 1)
  {
    var w := KnotHash.WindowSwaps(0, 3, 5);
    assert w == [(0, 2)];
    assert w[..0] == [];
    assert KnotHash.SwapAll([0, 1, 2, 3, 4], w) == [2, 1, 0, 3, 4];
  }

  lemma SampleStep2()
    ensures KnotHash.Step(KnotHash.Knot([2, 1, 0, 3, 4], 3, 1), 4) == KnotHash.Knot([4, 3, 0, 1, 2], 3, 2)
  {
    var w := KnotHash.WindowSwaps(3, 4, 5);
    assert w == [(3, 1), (4, 0)];
    assert w[..1] == [(3, 1)];
    assert KnotHash.SwapAll([2, 1, 0, 3, 4], w[..1]) == [2, 3, 0, 1, 4];
    assert KnotHash.SwapAll([2, 1, 0, 3, 4], w) == [4, 3, 0, 1, 2];
  }

  lemma SampleStep3()
    ensures KnotHash.Step(KnotHash.Knot([4, 3, 0, 1, 2], 3, 2), 1) == KnotHash.Knot([4, 3, 0, 1, 2], 1, 3)
  {
    assert KnotHash.WindowSwaps(3, 1, 5) == [];
  }

  lemma SampleStep4()
    ensures KnotHash.Step(KnotHash.Knot([4, 3, 0, 1, 2], 1, 3), 5) == KnotHash.Knot([3, 4, 2, 1, 0], 4, 4)
  {
    var w := KnotHash.WindowSwaps(1, 5, 5);
    assert w == [(1, 0), (2, 4)];
    assert w[..1] == [(1, 0)];
    assert KnotHash.SwapAll([4, 3, 0, 1, 2], w[..1]) == [3, 4, 0, 1, 2];
    assert KnotHash.SwapAll([4, 3, 0, 1, 2], w) == [3, 4, 2, 1, 0];
  }

  /** One more length of the sample round, on top of the steps before it. */
  lemma StepsSnoc(c: KnotHash.Knot, ls: seq<nat>, len: nat)
    requires |c.list| > 0
    ensures KnotHash.Steps(c, ls + [len]) == KnotHash.Step(KnotHash.Steps(c, ls), len)
  {
    assert (ls + [len])[..|ls|] == ls;
  }

  /** Four lengths are four steps, one after the other. */
  lemma StepsFour(c: KnotHash.Knot, ls: seq<nat>)
    requires |c.list| > 0 && |ls| == 4
    ensures KnotHash.Steps(c, ls) ==
      KnotHash.Step(KnotHash.Step(KnotHash.Step(KnotHash.Step(c, ls[0]), ls[1]), ls[2]), ls[3])
  {
    assert KnotHash.Steps(c, ls[..0]) == c;
    StepsSnoc(c, ls[..0], ls[0]);
    TakeSnoc(ls, 0);
    StepsSnoc(c, ls[..1], ls[1]);
    TakeSnoc(ls, 1);
    StepsSnoc(c, ls[..2], ls[2]);
    TakeSnoc(ls, 2);
    StepsSnoc(c, ls[..3], ls[3]);
    TakeSnoc(ls, 3);
    TakeAll(ls);
  }

  /** The four steps of the sample round, one after the other. */
  lemma SamplePrefixes(c: KnotHash.Knot)
    requires c == KnotHash.Knot([0, 1, 2, 3, 4], 0, 0)
    ensures KnotHash.Steps(c, [3, 4, 1, 5]) == KnotHash.Knot([3, 4, 2, 1, 0], 4, 4)
  {
    StepsFour(c, [3, 4, 1, 5]);
    SampleStep1();
    SampleStep2();
    SampleStep3();
    SampleStep4();
  }

  /** The sample of the puzzle: lengths 3, 4, 1, 5 over `0 .. 5` knot the
      ring into 3 4 2 1 0, so the check sum is 12. */
  lemma CheckSumSample()
    ensures KnotHash.SparseSpec(0, 5, 1, [3, 4, 1, 5]) == [3, 4, 2, 1, 0]
  {
    var r := KnotHash.Range(0, 5);
    assert r == [0, 1, 2, 3, 4];
    var c := KnotHash.Knot(r, 0, 0);
    SamplePrefixes(c);
    assert KnotHash.Rounds(c, [3, 4, 1, 5], 0) == c;
  }

  /** `check_sum(0 .. 5, "3,4,1,5")` is 12: the text reads as the lengths
      and the product of the first two values of their sparse hash is 12,
      which is what `CheckSum` returns. */
  lemma CheckSumOfSampleText()
    ensures ParseAsNumbers("3,4,1,5").Some? &&
      var list := KnotHash.SparseSpec(0, 5, 1, ParseAsNumbers("3,4,1,5").value);
      list[0] * list[1] == 12
  {
    ParseSample();
    CheckSumSample();
  }
}
