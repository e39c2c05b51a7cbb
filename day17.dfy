/** The spinlock of day 17 (`day-17/src/main.rs`).  A circular buffer
    starts as `[0]`; for each value `1, 2, ...` the current position steps
    forward `step` times round the buffer and the value is inserted just
    after it, becoming the new current position.  `next_value` performs
    `limit` inserts in a growing vector and returns the value that follows
    the last one inserted; `first_value` follows only the position and
    remembers the last value inserted at index 1, the value after 0.

    Sizes are unbounded here: the `usize` overflow of `position + step` or
    of `limit + 1` is not modelled.
 */
module Day17 {
  import Arith

  /** The buffer after some inserts, with the index of the last value
      inserted. */
  datatype Spinlock = Spinlock(buffer: seq<nat>, position: nat)

  /** `Vec::insert`: `value` placed at `index`, the later elements moving
      one to the right. */
  function Insert(buffer: seq<nat>, index: nat, value: nat): (r: seq<nat>)
    requires index <= |buffer|
    ensures |r| == |buffer| + 1 && r[index] == value
    ensures forall i :: 0 <= i < index ==> r[i] == buffer[i]
    ensures forall i :: index < i <= |buffer| ==> r[i] == buffer[i - 1]
  {
    buffer[..index] + [value] + buffer[index..]
  }

  /** The insert index of the next value: `step` places on from `position`
      round a buffer of `len` values, plus one. */
  function NextPosition(position: nat, step: nat, len: nat): (p: nat)
    requires len > 0
    ensures 1 <= p <= len
  {
    (position + step) % len + 1
  }

  /** The spinlock after inserting `1 ..= n`. */
  function Spin(step: nat, n: nat): (s: Spinlock)
    ensures |s.buffer| == n + 1 && s.position <= n
    ensures n > 0 ==> s.position > 0
  {
    if n == 0 then Spinlock([0], 0)
    else
      var s := Spin(step, n - 1);
      var p := NextPosition(s.position, step, |s.buffer|);
      Spinlock(Insert(s.buffer, p, n), p)
  }

  /** The value that follows index `k` round the buffer. */
  function After(buffer: seq<nat>, k: nat): nat
    requires k < |buffer|
  {
    buffer[(k + 1) % |buffer|]
  }

  /** Part 1: the value after the last one inserted, once `limit` values
      are in. */
  function Next(step: nat, limit: nat): nat {
    var s := Spin(step, limit);
    After(s.buffer, s.position)
  }

  // ------------------------------------------------------------ next_value

  /** `next_value`: the inserts performed one by one in a growing buffer. */
  method NextValue(step: nat, limit: nat) returns (r: nat)
    ensures r == Next(step, limit)
  {
    var buffer: seq<nat> := [0];
    var position := 0;
    for value := 1 to limit + 1
      invariant Spinlock(buffer, position) == Spin(step, value - 1)
    {
      position := NextPosition(position, step, |buffer|);
      buffer := buffer[..position] + [value] + buffer[position..];
    }
    r := buffer[(position + 1) % |buffer|];
  }

  // ------------------------------------------------------------ the buffer

  /** Every value of the buffer is distinct from every other. */
  predicate Distinct(buffer: seq<nat>) {
    forall i, j :: 0 <= i < j < |buffer| ==> buffer[i] != buffer[j]
  }

  /** Inserting a value that is not yet there keeps the values distinct. */
  lemma InsertDistinct(buffer: seq<nat>, index: nat, value: nat)
    requires index <= |buffer| && Distinct(buffer) && value !in buffer
    ensures Distinct(Insert(buffer, index, value))
  {
    var r := Insert(buffer, index, value);
    forall i, j | 0 <= i < j < |r|
      ensures r[i] != r[j]
    {
      if i == index {
        assert r[j] == buffer[j - 1];
      } else if j == index {
        assert r[i] == buffer[i];
      } else {
        var i' := if i < index then i else i - 1;
        var j' := if j < index then j else j - 1;
        assert r[i] == buffer[i'] && r[j] == buffer[j'] && i' < j';
      }
    }
  }

  /** Inserting keeps every value that was there. */
  lemma InsertKeeps(buffer: seq<nat>, index: nat, value: nat, v: nat)
    requires index <= |buffer| && v in buffer
    ensures v in Insert(buffer, index, value)
  {
    var k :| 0 <= k < |buffer| && buffer[k] == v;
    var r := Insert(buffer, index, value);
    if k < index {
      assert r[k] == v;
    } else {
      assert r[k + 1] == v;
    }
  }

  /** After `n` inserts the buffer holds each of `0 ..= n` exactly once:
      nothing else, all of them, none twice. */
  lemma {:induction false} SpinValues(step: nat, n: nat)
    ensures forall i :: 0 <= i < |Spin(step, n).buffer| ==> Spin(step, n).buffer[i] <= n
    ensures forall v :: 0 <= v <= n ==> v in Spin(step, n).buffer
    ensures Distinct(Spin(step, n).buffer)
  {
    if n > 0 {
      SpinValues(step, n - 1);
      var s := Spin(step, n - 1);
      var p := NextPosition(s.position, step, |s.buffer|);
      var b := Insert(s.buffer, p, n);
      assert Spin(step, n).buffer == b;
      forall i | 0 <= i < |b|
        ensures b[i] <= n
      {
        if i > p {
          assert b[i] == s.buffer[i - 1];
        }
      }
      forall v | 0 <= v <= n
        ensures v in b
      {
        if v < n {
          InsertKeeps(s.buffer, p, n, v);
        } else {
          assert b[p] == n;
        }
      }
      InsertDistinct(s.buffer, p, n);
    }
  }

  /** 0 stays at the front: every insert index is at least 1. */
  lemma {:induction false} SpinZeroFirst(step: nat, n: nat)
    ensures Spin(step, n).buffer[0] == 0
  {
    if n > 0 {
      SpinZeroFirst(step, n - 1);
    }
  }

  /** The current position holds the last value inserted. */
  lemma SpinLast(step: nat, n: nat)
    ensures Spin(step, n).buffer[Spin(step, n).position] == n
  {
  }

  /** Part 1's answer is the value that follows `limit` round the buffer,
      wherever `limit` is found. */
  lemma NextFollowsLimit(step: nat, limit: nat, k: nat)
    requires k <= limit
    ensures Spin(step, limit).buffer[k] == limit ==> Next(step, limit) == After(Spin(step, limit).buffer, k)
  {
    var s := Spin(step, limit);
    if s.buffer[k] == limit {
      SpinValues(step, limit);
      SpinLast(step, limit);
      DistinctIndex(s.buffer, k, s.position);
    }
  }

  /** In a buffer of distinct values, a value sits at one index only. */
  lemma DistinctIndex(buffer: seq<nat>, i: nat, j: nat)
    requires i < |buffer| && j < |buffer| && Distinct(buffer) && buffer[i] == buffer[j]
    ensures i == j
  {
  }

  // ------------------------------------------------------------ first_value

  /** The value after 0 when 0 is at the front: index 1, or 0 itself
      while it is alone. */
  function AfterZero(buffer: seq<nat>): nat
    requires buffer != []
  {
    if |buffer| == 1 then buffer[0] else buffer[1]
  }

  /** `AfterZero` is the value that follows 0 round the buffer. */
  lemma AfterZeroFollows(step: nat, n: nat)
    ensures AfterZero(Spin(step, n).buffer) == After(Spin(step, n).buffer, 0)
    ensures Spin(step, n).buffer[0] == 0
  {
    var len := |Spin(step, n).buffer|;
    if len == 1 {
      Arith.ModUnique(1, len, 1, 0);
    } else {
      Arith.ModUnique(1, len, 0, 1);
    }
    SpinZeroFirst(step, n);
  }

  /** One more insert changes the value after 0 exactly when it lands at
      index 1; every later index leaves index 1 alone. */
  lemma AfterZeroStep(step: nat, n: nat)
    requires n > 0
    ensures AfterZero(Spin(step, n).buffer) ==
      if Spin(step, n).position == 1 then n else AfterZero(Spin(step, n - 1).buffer)
  {
    if n > 1 && Spin(step, n).position > 1 {
      assert Spin(step, n).buffer[1] == Spin(step, n - 1).buffer[1];
    }
  }

  /** `first_value`: only the position is followed, the buffer length
      being the value about to be inserted, and the last value inserted at
      index 1 is remembered.  It is the value after 0 in `next_value`'s
      buffer after `limit - 1` inserts. */
  method FirstValue(step: nat, limit: nat) returns (r: nat)
    ensures limit == 0 ==> r == 0
    ensures limit > 0 ==> r == AfterZero(Spin(step, limit - 1).buffer)
  {
    var position := 0;
    r := 0;
    var value := 1;
    while value < limit
      invariant 1 <= value && (value <= limit || value == 1)
      invariant position == Spin(step, value - 1).position
      invariant r == AfterZero(Spin(step, value - 1).buffer)
    {
      position := NextPosition(position, step, value);
      AfterZeroStep(step, value);
      if position == 1 {
        r := value;
      }
      value := value + 1;
    }
  }

  /** `first_value` is documented as the value after 0 once `limit` values
      are in, but its range `1 .. limit` stops one insert short.  With a
      limit of 1 it answers 0, while after one insert the value after 0 is
      1, whatever the step. */
  lemma FirstValueOneShort(step: nat)
    ensures AfterZero(Spin(step, 0).buffer) == 0
    ensures After(Spin(step, 1).buffer, 0) == 1
  {
    AfterZeroFollows(step, 1);
  }

  /** `first_value` with the range `1 ..= limit`: the value that follows 0
      round the buffer once `limit` values are in. */
  method FirstValueFixed(step: nat, limit: nat) returns (r: nat)
    ensures r == After(Spin(step, limit).buffer, 0)
  {
    var position := 0;
    r := 0;
    var value := 1;
    while value <= limit
      invariant 1 <= value <= limit + 1
      invariant position == Spin(step, value - 1).position
      invariant r == AfterZero(Spin(step, value - 1).buffer)
    {
      position := NextPosition(position, step, value);
      AfterZeroStep(step, value);
      if position == 1 {
        r := value;
      }
      value := value + 1;
    }
    AfterZeroFollows(step, limit);
  }

  // ------------------------------------------------------------ samples

  /** With a step of 3, three inserts give `0 2 (3) 1`: part 1's answer
      for a limit of 3 is 1, and the value after 0 is 2. */
  lemma SampleThree()
    ensures Spin(3, 3) == Spinlock([0, 2, 3, 1], 2)
    ensures Next(3, 3) == 1 && AfterZero(Spin(3, 3).buffer) == 2
  {
    assert Spin(3, 1) == Spinlock([0, 1], 1);
    assert Spin(3, 2) == Spinlock([0, 2, 1], 1);
  }
}
