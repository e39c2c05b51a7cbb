/** The memory banks of day 6 (`day-06/src/main.rs`).  Each cycle takes
    the blocks of the fullest bank (the first one on a tie), empties it and
    deals its blocks one at a time to the following banks, wrapping round;
    `how_many_cycles` counts the cycles until a configuration repeats, or
    the length of the loop it then runs in.

    The banks are an array changed in place and the configurations seen
    are a map from configuration to the cycle it was seen at, as in the
    source.  The run repeats eventually (there are finitely many
    configurations of a fixed number of blocks), but the model bounds it
    by `fuel` cycles and says when the bound was reached.  Block counts are
    unbounded: the `u32` overflow of the source is not modelled.
 */
module Day06 {
  import opened Wrappers
  import opened Text
  import opened Repetition
  import Arith

  // ---------------------------------------------------------------- max_by_index

  /** `m` is the first index holding the largest value; 0 for no banks. */
  predicate IsMaxIndex(banks: seq<nat>, m: nat) {
    (banks == [] && m == 0) ||
    (m < |banks| &&
     (forall i :: 0 <= i < |banks| ==> banks[i] <= banks[m]) &&
     (forall i :: 0 <= i < m ==> banks[i] < banks[m]))
  }

  /** At most one index is the first holding the largest value. */
  lemma MaxIndexUnique(banks: seq<nat>, m: nat, m': nat)
    requires IsMaxIndex(banks, m) && IsMaxIndex(banks, m')
    ensures m == m'
  {
    if banks != [] {
      assert banks[m] == banks[m'];
    }
  }

  /** `max_by_index`: the first index holding the largest value, found by
      a scan that keeps the index of a value larger than all before it
      (so 0 when every value is 0). */
  method MaxByIndex(banks: array<nat>) returns (r: nat)
    ensures IsMaxIndex(banks[..], r)
  {
    var maxValue: nat := 0;
    var maxIndex: nat := 0;
    for index := 0 to banks.Length
      invariant index == 0 ==> maxIndex == 0 && maxValue == 0
      invariant index > 0 ==> maxIndex < index && maxValue == banks[maxIndex]
      invariant forall i :: 0 <= i < index ==> banks[i] <= maxValue
      invariant forall i :: 0 <= i < maxIndex ==> banks[i] < maxValue
    {
      if banks[index] > maxValue {
        maxValue := banks[index];
        maxIndex := index;
      }
    }
    r := maxIndex;
  }

  /** The first index holding the largest value. */
  function FirstMax(banks: seq<nat>): (m: nat)
    ensures IsMaxIndex(banks, m)
  {
    if |banks| <= 1 then 0
    else
      var m := FirstMax(banks[..|banks| - 1]);
      assert forall i :: 0 <= i < |banks| - 1 ==> banks[..|banks| - 1][i] == banks[i];
      if banks[|banks| - 1] > banks[m] then |banks| - 1 else m
  }

  /** `[0, 3, 1, 2, 3]`: the first 3 is at index 1. */
  lemma SampleMaxByIndex(m: nat)
    ensures IsMaxIndex([0, 3, 1, 2, 3], m) <==> m == 1
  {
    if IsMaxIndex([0, 3, 1, 2, 3], m) {
      MaxIndexUnique([0, 3, 1, 2, 3], m, 1);
    }
  }

  // ---------------------------------------------------------------- one cycle

  /** The banks after `n` blocks are dealt one at a time from index
      `start` on, wrapping round. */
  function Deal(banks: seq<nat>, start: nat, n: nat): (r: seq<nat>)
    requires start < |banks|
    ensures |r| == |banks|
  {
    if n == 0 then banks
    else
      var before := Deal(banks, start, n - 1);
      var i := (start + n - 1) % |banks|;
      before[i := before[i] + 1]
  }

  /** The blocks bank `j` of `L` receives when `n` are dealt from bank
      `start`: `n / L` rounds, and one more when it is among the first
      `n % L` banks from `start` on. */
  function Received(L: nat, start: nat, n: nat, j: nat): nat
    requires L > 0
  {
    n / L + if (j - start) % L < n % L then 1 else 0
  }

  /** Dealing `n` blocks from `start` adds to each bank what it
      receives. */
  lemma {:induction false} DealCount(banks: seq<nat>, start: nat, n: nat, j: nat)
    requires start < |banks| && j < |banks|
    ensures Deal(banks, start, n)[j] == banks[j] + Received(|banks|, start, n, j)
  {
    var L := |banks|;
    if n == 0 {
      assert n / L == 0 && n % L == 0;
    } else {
      DealCount(banks, start, n - 1, j);
      CountStep(L, start, j, n - 1);
    }
  }

  /** One more block from `start`, the `k + 1`-th, goes to bank `j`
      exactly when `j` is `k` banks on from `start`; the counts of
      `DealCount` grow accordingly. */
  lemma CountStep(L: nat, start: nat, j: nat, k: nat)
    requires 0 < L && j < L
    ensures Received(L, start, k, j) + (if j == (start + k) % L then 1 else 0) == Received(L, start, k + 1, j)
  {
    var q, r, d := k / L, k % L, (j - start) % L;
    AtOffset(L, start, j, k);
    if r + 1 < L {
      Arith.ModUnique(k + 1, L, q, r + 1);
    } else {
      Arith.ModUnique(k + 1, L, q + 1, 0);
    }
  }

  /** Bank `j` is `k` banks on from `start` exactly when `j - start` and
      `k` leave the same remainder. */
  lemma AtOffset(L: nat, start: nat, j: nat, k: nat)
    requires 0 < L && j < L
    ensures j == (start + k) % L <==> (j - start) % L == k % L
  {
    var q, r := k / L, k % L;
    if j == (start + k) % L {
      var t := (start + k) / L;
      assert j - start == L * (q - t) + r;
      Arith.ModUnique(j - start, L, q - t, r);
    }
    if (j - start) % L == r {
      var t := (j - start) / L;
      assert start + k == L * (q - t) + j;
      Arith.ModUnique(start + k, L, q - t, j);
    }
  }

  /** The sum of the banks. */
  function Total(banks: seq<nat>): nat {
    if banks == [] then 0 else banks[0] + Total(banks[1..])
  }

  /** Changing one bank changes the sum by the difference. */
  lemma {:induction false} TotalUpdate(banks: seq<nat>, i: nat, v: nat)
    requires i < |banks|
    ensures Total(banks[i := v]) == Total(banks) - banks[i] + v
  {
    if i > 0 {
      assert banks[i := v][1..] == banks[1..][i - 1 := v];
      TotalUpdate(banks[1..], i - 1, v);
    }
  }

  /** Dealing `n` blocks adds `n` to the sum. */
  lemma {:induction false} DealTotal(banks: seq<nat>, start: nat, n: nat)
    requires start < |banks|
    ensures Total(Deal(banks, start, n)) == Total(banks) + n
  {
    if n > 0 {
      DealTotal(banks, start, n - 1);
      var before := Deal(banks, start, n - 1);
      var i := (start + n - 1) % |banks|;
      TotalUpdate(before, i, before[i] + 1);
    }
  }

  /** One cycle: the fullest bank is emptied and its blocks are dealt from
      the bank after it.  (With no banks there is no fullest bank;
      `how_many_cycles` panics before the first cycle.) */
  function Redistribute(banks: seq<nat>): (r: seq<nat>)
    ensures |r| == |banks|
  {
    if banks == [] then banks
    else
      var m := FirstMax(banks);
      Deal(banks[m := 0], (m + 1) % |banks|, banks[m])
  }

  /** A cycle keeps the number of banks and the number of blocks. */
  lemma RedistributeTotal(banks: seq<nat>)
    ensures |Redistribute(banks)| == |banks| && Total(Redistribute(banks)) == Total(banks)
  {
    if banks != [] {
      var m := FirstMax(banks);
      TotalUpdate(banks, m, 0);
      DealTotal(banks[m := 0], (m + 1) % |banks|, banks[m]);
    }
  }

  /** What a cycle leaves in each bank: with `L` banks and `n` blocks in
      the fullest bank `m`, every bank gets `n / L`, and the `n % L` banks
      after `m` one more; bank `m` starts again from 0. */
  lemma RedistributeCount(banks: seq<nat>, m: nat, j: nat)
    requires j < |banks| && IsMaxIndex(banks, m)
    ensures Redistribute(banks)[j] == (if j == m then 0 else banks[j]) + Received(|banks|, (m + 1) % |banks|, banks[m], j)
  {
    MaxIndexUnique(banks, m, FirstMax(banks));
    DealCount(banks[m := 0], (m + 1) % |banks|, banks[m], j);
  }

  // ---------------------------------------------------------------- the run

  /** Every configuration of a run, the one after `k` cycles, has as many
      banks and blocks as the first. */
  lemma {:induction false} CyclesTotal(banks: seq<nat>, k: nat)
    ensures var after := Iterate(Redistribute, banks, k); |after| == |banks| && Total(after) == Total(banks)
  {
    if k > 0 {
      CyclesTotal(banks, k - 1);
      RedistributeTotal(Iterate(Redistribute, banks, k - 1));
    }
  }

  /** The banks of the input: whitespace-separated `u32`s, or `None` (the
      `Invalid` panic) when a word is not one. */
  function ParseBanks(input: string): (r: Option<seq<nat>>)
    ensures r.Some? ==> ParseAll(Words(input), ParseU32).Some? && r.value == ParseAll(Words(input), ParseU32).value
    ensures r.None? <==> ParseAll(Words(input), ParseU32).None?
  {
    var values := ParseAll(Words(input), ParseU32);
    if values.None? then None
    else
      assert forall i :: 0 <= i < |values.value| ==> ParseU32(Words(input)[i]) == Some(values.value[i]);
      Some(seq(|values.value|, i requires 0 <= i < |values.value| => values.value[i] as nat))
  }

  /** How a run ends: its answer, the panic on input it cannot read (or
      no banks), or the cycle bound reached first. */
  datatype Outcome = Done(value: nat) | Panicked | OutOfFuel

  /** `how_many_cycles`: the number of cycles until a configuration comes
      back, or with `returnCycleSize` the number of cycles in the loop it
      comes back to.  The configurations seen are kept in a map from
      configuration to the cycle it was seen at.  Input that is not a list
      of `u32`s panics, and so does an empty list (`banks[max_index]` with
      no banks); after `fuel` cycles without a repeat the run stops. */
  method HowManyCycles(input: string, returnCycleSize: bool, fuel: nat) returns (r: Outcome)
    ensures ParseBanks(input).None? || ParseBanks(input) == Some([]) <==> r == Panicked
    ensures r.Done? ==>
      ParseBanks(input).Some? &&
      exists c: nat, j: nat :: c <= fuel && FirstRepeat(Redistribute, ParseBanks(input).value, c, j) &&
        r.value == if returnCycleSize then c - j else c
    ensures r.OutOfFuel? ==>
      ParseBanks(input).Some? && AllDifferent(Redistribute, ParseBanks(input).value, fuel + 1)
  {
    var parsed := ParseBanks(input);
    if parsed.None? || parsed.value == [] {
      return Panicked;
    }
    var start := parsed.value;
    var banks := new nat[|start|](i requires 0 <= i < |start| => start[i]);
    var statesSeen: map<seq<nat>, nat> := map[];
    var counter: nat := 0;
    while banks[..] !in statesSeen
      invariant banks.Length == |start| && counter <= fuel
      invariant banks[..] == Iterate(Redistribute, start, counter)
      invariant Seen(Redistribute, start, statesSeen, counter)
      decreases fuel - counter
    {
      if counter == fuel {
        SeenDifferent(Redistribute, start, statesSeen, counter);
        return OutOfFuel;
      }
      SeenNext(Redistribute, start, statesSeen, counter);
      statesSeen := statesSeen[banks[..] := counter];
      counter := counter + 1;
      Cycle(banks);
    }
    SeenDifferent(Redistribute, start, statesSeen, counter);
    var j := statesSeen[banks[..]];
    r := Done(if returnCycleSize then counter - j else counter);
  }

  /** One cycle on the banks in place: the loop body of `how_many_cycles`
      after the bookkeeping, dealing through an index that wraps round as
      the `cycle().skip(max_index + 1)` iterator does. */
  method Cycle(banks: array<nat>)
    requires banks.Length > 0
    modifies banks
    ensures banks[..] == Redistribute(old(banks[..]))
  {
    ghost var before := banks[..];
    var maxIndex := MaxByIndex(banks);
    MaxIndexUnique(before, maxIndex, FirstMax(before));
    var leftToSplit := banks[maxIndex];
    banks[maxIndex] := 0;
    DealOut(banks, (maxIndex + 1) % banks.Length, leftToSplit);
  }

  /** The inner loop of a cycle: `n` blocks dealt one at a time from bank
      `first` on, through an index that wraps round. */
  method DealOut(banks: array<nat>, first: nat, n: nat)
    requires first < banks.Length
    modifies banks
    ensures banks[..] == Deal(old(banks[..]), first, n)
  {
    ghost var emptied := banks[..];
    var index := first;
    var leftToSplit := n;
    Arith.ModUnique(first, banks.Length, 0, first);
    while leftToSplit > 0
      invariant 0 <= leftToSplit <= n
      invariant banks[..] == Deal(emptied, first, n - leftToSplit)
      invariant index == (first + n - leftToSplit) % banks.Length
    {
      ghost var dealt := n - leftToSplit;
      banks[index] := banks[index] + 1;
      leftToSplit := leftToSplit - 1;
      NextIndex(first + dealt, banks.Length);
      index := (index + 1) % banks.Length;
    }
  }

  /** The index after `k % L` is `(k + 1) % L`. */
  lemma NextIndex(k: nat, L: nat)
    requires L > 0
    ensures (k % L + 1) % L == (k + 1) % L
  {
    Arith.ModNext(k, L);
    if k % L + 1 == L {
      Arith.ModUnique(L, L, 1, 0);
    } else {
      Arith.ModUnique(k % L + 1, L, 0, k % L + 1);
    }
  }

  // ---------------------------------------------------------------- sample

  const SampleInput := "0 2 7 0"
  const SampleBanks: seq<nat> := [0, 2, 7, 0]

  /** The sample reads as four banks. */
  lemma SampleRead()
    ensures ParseBanks(SampleInput) == Some(SampleBanks)
  {
    SampleWords();
    SampleValues();
  }

  /** The sample's words. */
  lemma SampleWords()
    ensures Words(SampleInput) == ["0", "2", "7", "0"]
  {
    var words := ["0", "2", "7", "0"];
    assert Join(words[2..], ' ') == "7 0";
    assert Join(words, ' ') == SampleInput;
    WordsJoin(words, ' ');
  }

  /** The sample's words read as `u32`s. */
  lemma SampleValues()
    ensures ParseAll(["0", "2", "7", "0"], ParseU32) == Some([0, 2, 7, 0])
  {
    assert DigitsValue("2") == 2 && DigitsValue("7") == 7;
    ParseAllOf(["0", "2", "7", "0"], [0, 2, 7, 0], ParseU32);
  }

  /** The sample's configurations after 0 to 5 cycles. */
  const SampleStates: seq<seq<nat>> :=
    [[0, 2, 7, 0], [2, 4, 1, 2], [3, 1, 2, 3], [0, 2, 3, 4], [1, 3, 4, 1], [2, 4, 1, 2]]

  /** The fullest bank of each of the sample's configurations. */
  const SampleFullest: seq<nat> := [2, 1, 0, 3, 2]

  /** Each cycle of the sample. */
  lemma SampleStep(k: nat)
    requires k < 5
    ensures Redistribute(SampleStates[k]) == SampleStates[k + 1]
  {
    var banks, next := SampleStates[k], SampleStates[k + 1];
    assert IsMaxIndex(banks, SampleFullest[k]);
    SampleCycle(banks, SampleFullest[k], next);
  }

  /** The sample's configuration after `k` cycles. */
  lemma {:induction false} SampleState(k: nat)
    requires k <= 5
    ensures Iterate(Redistribute, SampleBanks, k) == SampleStates[k]
  {
    if k > 0 {
      SampleState(k - 1);
      SampleStep(k - 1);
    }
  }

  /** A cycle on four banks, by the counts of `RedistributeCount`. */
  lemma SampleCycle(banks: seq<nat>, m: nat, next: seq<nat>)
    requires |banks| == 4 && |next| == 4 && IsMaxIndex(banks, m)
    requires forall j :: 0 <= j < 4 ==>
      next[j] == (if j == m then 0 else banks[j]) + Received(4, (m + 1) % 4, banks[m], j)
    ensures Redistribute(banks) == next
  {
    forall j | 0 <= j < 4
      ensures Redistribute(banks)[j] == next[j]
    {
      RedistributeCount(banks, m, j);
    }
  }

  /** On `0 2 7 0` the configuration after cycle 5 is the one after cycle
      1, and none came back before: 5 cycles, in a loop of 4. */
  lemma SampleCycles()
    ensures FirstRepeat(Redistribute, SampleBanks, 5, 1)
  {
    SampleState(5);
    SampleState(1);
    forall k1, k2 | 0 <= k1 < k2 < 5
      ensures Iterate(Redistribute, SampleBanks, k1) != Iterate(Redistribute, SampleBanks, k2)
    {
      SampleState(k1);
      SampleState(k2);
      SampleThird(k1);
      SampleThird(k2);
    }
  }

  /** The first five configurations of the sample differ in their third
      bank: 7, then 1, 2, 3 and 4. */
  lemma SampleThird(k: nat)
    requires k < 5
    ensures |SampleStates[k]| == 4 && SampleStates[k][2] == if k == 0 then 7 else k
  {
    if k == 0 {
    } else if k == 1 {
    } else if k == 2 {
    } else if k == 3 {
    } else {
    }
  }

  /** `how_many_cycles("0 2 7 0", ..)`: the input reads as the sample's
      banks, whose first repeat is after 5 cycles, of the configuration
      after 1 (a loop of 4), and which has repeated within any bound of at
      least 5 cycles. */
  lemma SampleAnswers(c: nat, j: nat, fuel: nat)
    ensures ParseBanks(SampleInput) == Some(SampleBanks)
    ensures FirstRepeat(Redistribute, SampleBanks, c, j) <==> c == 5 && j == 1
    ensures fuel >= 5 ==> !AllDifferent(Redistribute, SampleBanks, fuel + 1)
  {
    SampleRead();
    SampleCycles();
    if FirstRepeat(Redistribute, SampleBanks, c, j) {
      FirstRepeatUnique(Redistribute, SampleBanks, c, j, 5, 1);
    }
    if fuel >= 5 {
      assert Iterate(Redistribute, SampleBanks, 1) == Iterate(Redistribute, SampleBanks, 5);
    }
  }
}
