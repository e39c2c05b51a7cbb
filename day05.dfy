/** Day 5 (`day-05/src/main.rs`): a list of jump offsets.  From the first
    offset, each step jumps by the current offset and then changes that
    offset by a modifier, until the jump leaves the list; the answer is the
    number of steps.

    The list is an array changed in place.  A run may never leave the
    list, so the model bounds it by `fuel` steps and says when the bound
    was reached.  Offsets are unbounded: the `i32` overflow of the source
    is not modelled.
 */
module Day05 {
  import opened Wrappers
  import opened Text

  /** `increment`: one more. */
  function Increment(offset: int): int {
    offset + 1
  }

  /** `increment_or_decrement`: one less from 3 up, one more below. */
  function IncrementOrDecrement(offset: int): int {
    if offset >= 3 then offset - 1 else offset + 1
  }

  /** Both modifiers move an offset by exactly one; under
      `increment_or_decrement` an offset of 2 or 3 stays 2 or 3, and none
      that is at most 3 goes above 3. */
  lemma Modifiers(offset: int)
    ensures Increment(offset) == offset + 1
    ensures IncrementOrDecrement(offset) == offset - 1 || IncrementOrDecrement(offset) == offset + 1
    ensures offset <= 3 ==> IncrementOrDecrement(offset) <= 3
    ensures 2 <= offset <= 3 ==> 2 <= IncrementOrDecrement(offset) <= 3
  {
  }

  /** What a run ends with: the number of steps, the panic on an input
      that is not a list of `i32`s, or the step bound reached. */
  datatype Outcome = Done(steps: nat) | Panicked | OutOfFuel

  /** `n` more steps, when the rest of the run ends. */
  function Plus(n: nat, rest: Option<nat>): Option<nat> {
    if rest.None? then None else Some(n + rest.value)
  }

  /** The number of steps from `list` at `ptr` until a jump leaves the list
      (at most `fuel` steps; `None` past that): outside the list there is
      no step; inside, the step jumps by the old offset, replaces it with
      `modifier(offset)` and stops when the target is below 0. */
  function Jumps(list: seq<int>, ptr: nat, modifier: int -> int, fuel: nat): (r: Option<nat>)
    decreases fuel
  {
    if ptr >= |list| then Some(0)
    else if fuel == 0 then None
    else
      var newPtr := ptr + list[ptr];
      if newPtr < 0 then Some(1)
      else Plus(1, Jumps(list[ptr := modifier(list[ptr])], newPtr, modifier, fuel - 1))
  }

  /** `no_of_jumps`: the input read as whitespace-separated `i32`s, then the
      run from the first offset. */
  function NoOfJumpsSpec(input: string, modifier: int -> int, fuel: nat): Outcome {
    var values := ParseAll(Words(input), ParseI32);
    if values.None? then Panicked
    else
      var steps := Jumps(values.value, 0, modifier, fuel);
      if steps.None? then OutOfFuel else Done(steps.value)
  }

  /** `no_of_jumps`. */
  method NoOfJumps(input: string, modifier: int -> int, fuel: nat) returns (r: Outcome)
    ensures r == NoOfJumpsSpec(input, modifier, fuel)
  {
    var values := ParseAll(Words(input), ParseI32);
    if values.None? {
      return Panicked;
    }
    var steps := RunJumps(values.value, modifier, fuel);
    r := if steps.None? then OutOfFuel else Done(steps.value);
  }

  /** The loop of `no_of_jumps`, on an array of offsets changed in place. */
  method RunJumps(values: seq<int>, modifier: int -> int, fuel: nat) returns (r: Option<nat>)
    ensures r == Jumps(values, 0, modifier, fuel)
  {
    var list := NewArray(values);
    var ptr: nat := 0;
    var steps: nat := 0;
    var left := fuel;
    while ptr < list.Length
      invariant steps + left == fuel
      invariant Jumps(values, 0, modifier, fuel) == Plus(steps, Jumps(list[..], ptr, modifier, left))
      decreases left
    {
      if left == 0 {
        return None;
      }
      ghost var before := list[..];
      steps := steps + 1;
      var newPtr := ptr + list[ptr];
      list[ptr] := modifier(list[ptr]);
      assert list[..] == before[ptr := modifier(before[ptr])];
      if newPtr < 0 {
        return Some(steps);
      }
      JumpsStep(before, ptr, modifier, left, steps - 1);
      ptr := newPtr;
      left := left - 1;
    }
    return Some(steps);
  }

  /** `collect()` into a fresh vector. */
  method NewArray(values: seq<int>) returns (a: array<int>)
    ensures fresh(a) && a[..] == values
  {
    a := new int[|values|](i requires 0 <= i < |values| => values[i]);
  }

  /** One step inside the list to a target not below 0, after `done`
      steps. */
  lemma JumpsStep(list: seq<int>, ptr: nat, modifier: int -> int, fuel: nat, done: nat)
    requires ptr < |list| && fuel > 0 && ptr + list[ptr] >= 0
    ensures Plus(done, Jumps(list, ptr, modifier, fuel)) ==
      Plus(done + 1, Jumps(list[ptr := modifier(list[ptr])], ptr + list[ptr], modifier, fuel - 1))
  {
  }

  // ---------------------------------------------------------------- properties

  /** A run that ends within `fuel` steps ends the same way with more; it
      takes at most `fuel` steps, and at least one when it starts inside
      the list. */
  lemma {:induction false} JumpsMoreFuel(list: seq<int>, ptr: nat, modifier: int -> int, fuel: nat, more: nat)
    requires Jumps(list, ptr, modifier, fuel).Some? && more >= fuel
    ensures Jumps(list, ptr, modifier, more) == Jumps(list, ptr, modifier, fuel)
    ensures Jumps(list, ptr, modifier, fuel).value <= fuel
    ensures ptr < |list| <==> Jumps(list, ptr, modifier, fuel).value >= 1
    decreases fuel
  {
    if ptr < |list| && ptr + list[ptr] >= 0 {
      JumpsMoreFuel(list[ptr := modifier(list[ptr])], ptr + list[ptr], modifier, fuel - 1, more - 1);
    }
  }

  // ---------------------------------------------------------------- samples

  /** The offsets of the example. */
  const SampleOffsets: seq<int> := [0, 3, 0, 1, -3]

  /** The example's text, one offset per line. */
  const SampleInput: string := "0\n3\n0\n1\n-3"

  /** The example's words. */
  const SampleWords: seq<string> := ["0", "3", "0", "1", "-3"]

  /** The example's text is read as its offsets. */
  lemma SampleRead()
    ensures ParseAll(Words(SampleInput), ParseI32) == Some(SampleOffsets)
  {
    SampleSplit();
    SampleParse();
  }

  /** The example's text splits into its words. */
  lemma SampleSplit()
    ensures Words(SampleInput) == SampleWords
  {
    assert Join(SampleWords, '\n') == SampleInput;
    WordsJoin(SampleWords, '\n');
  }

  /** The example's words are its offsets. */
  lemma SampleParse()
    ensures ParseAll(SampleWords, ParseI32) == Some(SampleOffsets)
  {
    assert ParseI32("0") == Some(0) && ParseI32("3") == Some(3) && ParseI32("1") == Some(1);
    assert DigitsValue("3") == 3;
    assert ParseI32("-3") == Some(-3);
    ParseAllOf(SampleWords, SampleOffsets, ParseI32);
  }

  /** With `increment` the example leaves the list after 5 steps. */
  lemma SampleIncrementRun(fuel: nat)
    requires fuel >= 5
    ensures Jumps(SampleOffsets, 0, Increment, fuel) == Some(5)
  {
    assert Jumps([2, 5, 0, 1, -2], 5, Increment, fuel - 5) == Some(0);
    assert [2, 4, 0, 1, -2][1 := Increment([2, 4, 0, 1, -2][1])] == [2, 5, 0, 1, -2];
    assert Jumps([2, 4, 0, 1, -2], 1, Increment, fuel - 4) == Some(1);
    assert [2, 4, 0, 1, -3][4 := Increment([2, 4, 0, 1, -3][4])] == [2, 4, 0, 1, -2];
    assert Jumps([2, 4, 0, 1, -3], 4, Increment, fuel - 3) == Some(2);
    assert [2, 3, 0, 1, -3][1 := Increment([2, 3, 0, 1, -3][1])] == [2, 4, 0, 1, -3];
    assert Jumps([2, 3, 0, 1, -3], 1, Increment, fuel - 2) == Some(3);
    assert [1, 3, 0, 1, -3][0 := Increment([1, 3, 0, 1, -3][0])] == [2, 3, 0, 1, -3];
    assert Jumps([1, 3, 0, 1, -3], 0, Increment, fuel - 1) == Some(4);
    assert [0, 3, 0, 1, -3][0 := Increment([0, 3, 0, 1, -3][0])] == [1, 3, 0, 1, -3];
    assert Jumps([0, 3, 0, 1, -3], 0, Increment, fuel - 0) == Some(5);
  }

  /** `no_of_jumps` on the example's text with `increment`. */
  lemma SampleIncrement(fuel: nat)
    requires fuel >= 5
    ensures NoOfJumpsSpec(SampleInput, Increment, fuel) == Done(5)
  {
    SampleRead();
    SampleIncrementRun(fuel);
  }

  /** With `increment_or_decrement` the example leaves the list after 10 steps. */
  lemma SampleIncrementOrDecrementRun(fuel: nat)
    requires fuel >= 10
    ensures Jumps(SampleOffsets, 0, IncrementOrDecrement, fuel) == Some(10)
  {
    SampleIncrementOrDecrementLast(fuel - 5);
    assert [2, 2, 0, 1, -2][1 := IncrementOrDecrement([2, 2, 0, 1, -2][1])] == [2, 3, 0, 1, -2];
    assert Jumps([2, 2, 0, 1, -2], 1, IncrementOrDecrement, fuel - 4) == Some(6);
    assert [2, 2, 0, 1, -3][4 := IncrementOrDecrement([2, 2, 0, 1, -3][4])] == [2, 2, 0, 1, -2];
    assert Jumps([2, 2, 0, 1, -3], 4, IncrementOrDecrement, fuel - 3) == Some(7);
    assert [2, 3, 0, 1, -3][1 := IncrementOrDecrement([2, 3, 0, 1, -3][1])] == [2, 2, 0, 1, -3];
    assert Jumps([2, 3, 0, 1, -3], 1, IncrementOrDecrement, fuel - 2) == Some(8);
    assert [1, 3, 0, 1, -3][0 := IncrementOrDecrement([1, 3, 0, 1, -3][0])] == [2, 3, 0, 1, -3];
    assert Jumps([1, 3, 0, 1, -3], 0, IncrementOrDecrement, fuel - 1) == Some(9);
    assert [0, 3, 0, 1, -3][0 := IncrementOrDecrement([0, 3, 0, 1, -3][0])] == [1, 3, 0, 1, -3];
    assert Jumps([0, 3, 0, 1, -3], 0, IncrementOrDecrement, fuel - 0) == Some(10);
  }

  /** The last five steps of the example with `increment_or_decrement`. */
  lemma SampleIncrementOrDecrementLast(fuel: nat)
    requires fuel >= 5
    ensures Jumps([2, 3, 0, 1, -2], 3, IncrementOrDecrement, fuel) == Some(5)
  {
    assert Jumps([2, 3, 2, 3, -1], 5, IncrementOrDecrement, fuel - 5) == Some(0);
    assert [2, 3, 2, 2, -1][3 := IncrementOrDecrement([2, 3, 2, 2, -1][3])] == [2, 3, 2, 3, -1];
    assert Jumps([2, 3, 2, 2, -1], 3, IncrementOrDecrement, fuel - 4) == Some(1);
    assert [2, 3, 1, 2, -1][2 := IncrementOrDecrement([2, 3, 1, 2, -1][2])] == [2, 3, 2, 2, -1];
    assert Jumps([2, 3, 1, 2, -1], 2, IncrementOrDecrement, fuel - 3) == Some(2);
    assert [2, 3, 0, 2, -1][2 := IncrementOrDecrement([2, 3, 0, 2, -1][2])] == [2, 3, 1, 2, -1];
    assert Jumps([2, 3, 0, 2, -1], 2, IncrementOrDecrement, fuel - 2) == Some(3);
    assert [2, 3, 0, 2, -2][4 := IncrementOrDecrement([2, 3, 0, 2, -2][4])] == [2, 3, 0, 2, -1];
    assert Jumps([2, 3, 0, 2, -2], 4, IncrementOrDecrement, fuel - 1) == Some(4);
    assert [2, 3, 0, 1, -2][3 := IncrementOrDecrement([2, 3, 0, 1, -2][3])] == [2, 3, 0, 2, -2];
  }

  /** `no_of_jumps` on the example's text with `increment_or_decrement`. */
  lemma SampleIncrementOrDecrement(fuel: nat)
    requires fuel >= 10
    ensures NoOfJumpsSpec(SampleInput, IncrementOrDecrement, fuel) == Done(10)
  {
    SampleRead();
    SampleIncrementOrDecrementRun(fuel);
  }
}
