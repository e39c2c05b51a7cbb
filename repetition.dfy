/** Applying a step that may fail over and over: `n` times (`Repeat`) or
    once per element of a sequence (`Fold`).  The first `None` is final,
    as a `panic` ends the loop it happens in.
 */
module Repetition {
  import opened Wrappers
  import opened Arith

  /** `no` applications of `f`, one after the other; `None` once one of
      them gives `None`. */
  function Repeat<T>(f: T -> Option<T>, x: T, no: nat): Option<T> {
    if no == 0 then Some(x)
    else
      var y := Repeat(f, x, no - 1);
      if y.None? then None else f(y.value)
  }

  /** Applying `f` `a` times and then `b` more times is applying it `a + b`
      times. */
  lemma {:induction false} RepeatAdd<T>(f: T -> Option<T>, x: T, a: nat, b: nat)
    ensures Repeat(f, x, a + b) ==
      if Repeat(f, x, a).None? then None else Repeat(f, Repeat(f, x, a).value, b)
  {
    if b > 0 {
      RepeatAdd(f, x, a, b - 1);
    }
  }

  /** One more application after `i` of them: a `None` is final, a value
      is the result of `i + 1` applications. */
  lemma RepeatStep<T>(f: T -> Option<T>, x: T, i: nat, no: nat, y: T, next: Option<T>)
    requires i < no && Repeat(f, x, i) == Some(y) && next == f(y)
    ensures next.None? ==> Repeat(f, x, no) == None
    ensures next.Some? ==> Repeat(f, x, i + 1) == next
  {
    RepeatAdd(f, x, i + 1, no - i - 1);
  }

  /** A fixed point of `f` stays as it is however often `f` is applied. */
  lemma {:induction false} RepeatFixed<T>(f: T -> Option<T>, x: T, no: nat)
    requires f(x) == Some(x)
    ensures Repeat(f, x, no) == Some(x)
  {
    if no > 0 {
      RepeatFixed(f, x, no - 1);
    }
  }

  /** Once the result after `a` applications comes back after `a + c`, the
      results repeat with period `c`. */
  lemma {:induction false} RepeatPeriodic<T>(f: T -> Option<T>, x: T, a: nat, c: nat, m: nat)
    requires c > 0 && Repeat(f, x, a) == Repeat(f, x, a + c)
    ensures Repeat(f, x, a + m) == Repeat(f, x, a + m % c)
    decreases m
  {
    if m >= c {
      var k := m - c;
      RepeatSame(f, x, a, a + c, k);
      assert a + c + k == a + m;
      RepeatPeriodic(f, x, a, c, k);
      ModSub(m, c);
      assert k % c == m % c;
    } else {
      ModUnique(m, c, 0, m);
    }
  }

  /** Two counts that give the same result still do after `k` more
      applications. */
  lemma RepeatSame<T>(f: T -> Option<T>, x: T, i: nat, j: nat, k: nat)
    requires Repeat(f, x, i) == Repeat(f, x, j)
    ensures Repeat(f, x, i + k) == Repeat(f, x, j + k)
  {
    RepeatAdd(f, x, i, k);
    RepeatAdd(f, x, j, k);
  }

  /** A result that comes back after `b` applications, first seen after
      `a`: `limit` applications give the result of `a + (limit - b) % (b - a)`. */
  lemma RepeatShortcut<T>(f: T -> Option<T>, x: T, a: nat, b: nat, limit: nat, c: nat, rem: nat)
    requires a < b <= limit && c == b - a && rem == (limit - b) % c
    requires Repeat(f, x, a) == Repeat(f, x, b)
    ensures Repeat(f, x, limit) == Repeat(f, x, a + rem)
  {
    var m := limit - a;
    ModSub(m, c);
    RepeatPeriodic(f, x, a, c, m);
  }

  /** `f` applied with each element of `ts` in turn. */
  function Fold<S, T>(f: (S, T) -> Option<S>, x: S, ts: seq<T>): Option<S> {
    if ts == [] then Some(x)
    else
      var y := Fold(f, x, ts[..|ts| - 1]);
      if y.None? then None else f(y.value, ts[|ts| - 1])
  }

  /** Folding over `a + b` is folding over `a` and then over `b`. */
  lemma {:induction false} FoldAppend<S, T>(f: (S, T) -> Option<S>, x: S, a: seq<T>, b: seq<T>)
    ensures Fold(f, x, a + b) ==
      if Fold(f, x, a).None? then None else Fold(f, Fold(f, x, a).value, b)
    decreases |b|
  {
    if b != [] {
      var b' := b[..|b| - 1];
      assert (a + b)[..|a + b| - 1] == a + b';
      FoldAppend(f, x, a, b');
    } else {
      assert a + b == a;
    }
  }

  /** The element at `i` after the first `i`: a `None` is final, a value is
      the fold over the first `i + 1`. */
  lemma FoldStep<S, T>(f: (S, T) -> Option<S>, x: S, ts: seq<T>, i: nat, y: S, next: Option<S>)
    requires i < |ts| && Fold(f, x, ts[..i]) == Some(y) && next == f(y, ts[i])
    ensures next.None? ==> Fold(f, x, ts) == None
    ensures next.Some? ==> Fold(f, x, ts[..i + 1]) == next
  {
    assert ts[..i + 1][..i] == ts[..i];
    if next.None? {
      assert ts == ts[..i + 1] + ts[i + 1..];
      FoldAppend(f, x, ts[..i + 1], ts[i + 1..]);
    }
  }

  /** `f` applied `k` times, for a step that cannot fail. */
  function Iterate<T>(f: T -> T, x: T, k: nat): T {
    if k == 0 then x else f(Iterate(f, x, k - 1))
  }

  /** The first `c` states, after 0 to `c - 1` steps, are all different. */
  predicate AllDifferent<T(==)>(f: T -> T, x: T, c: nat) {
    forall k1, k2 :: 0 <= k1 < k2 < c ==> Iterate(f, x, k1) != Iterate(f, x, k2)
  }

  /** After `c` steps the state after `j` comes back, and no state had come
      back before. */
  predicate FirstRepeat<T(==)>(f: T -> T, x: T, c: nat, j: nat) {
    j < c && Iterate(f, x, c) == Iterate(f, x, j) && AllDifferent(f, x, c)
  }

  /** Any repeat, of the state after `j` after `c` steps, is no earlier
      than the first. */
  lemma NoEarlierRepeat<T>(f: T -> T, x: T, c': nat, j': nat, c: nat, j: nat)
    requires FirstRepeat(f, x, c', j') && j < c && Iterate(f, x, c) == Iterate(f, x, j)
    ensures c' <= c && (c == c' ==> j == j')
  {
    if c < c' {
      assert false;
    }
  }

  /** There is one first repeat. */
  lemma FirstRepeatUnique<T>(f: T -> T, x: T, c: nat, j: nat, c': nat, j': nat)
    requires FirstRepeat(f, x, c, j) && FirstRepeat(f, x, c', j')
    ensures c == c' && j == j'
  {
    NoEarlierRepeat(f, x, c', j', c, j);
    NoEarlierRepeat(f, x, c, j, c', j');
  }

  /** Once a state comes back the run loops: every later state is the
      one `c - j` steps before it. */
  lemma {:induction false} IteratePeriodic<T>(f: T -> T, x: T, c: nat, j: nat, k: nat)
    requires Iterate(f, x, c) == Iterate(f, x, j)
    ensures Iterate(f, x, c + k) == Iterate(f, x, j + k)
  {
    if k > 0 {
      IteratePeriodic(f, x, c, j, k - 1);
    }
  }

  /** `seen` maps each of the first `c` states to the number of steps it
      was reached after, and holds nothing else. */
  ghost predicate Seen<T>(f: T -> T, x: T, seen: map<T, nat>, c: nat) {
    seen.Keys == (set k | 0 <= k < c :: Iterate(f, x, k)) &&
    forall k :: 0 <= k < c ==> seen[Iterate(f, x, k)] == k
  }

  /** Recording a state not seen before keeps `Seen`. */
  lemma SeenNext<T>(f: T -> T, x: T, seen: map<T, nat>, c: nat)
    requires Seen(f, x, seen, c) && Iterate(f, x, c) !in seen
    ensures Seen(f, x, seen[Iterate(f, x, c) := c], c + 1)
  {
    var seen' := seen[Iterate(f, x, c) := c];
    forall k | 0 <= k < c
      ensures seen'[Iterate(f, x, k)] == k
    {
      assert Iterate(f, x, k) in seen;
    }
  }

  /** A map that `Seen` describes shows the first `c` states all
      different; a state it holds is a repeat, of the state after the
      number of steps it maps to; and with the next state not in it, the
      first `c + 1` states are all different. */
  lemma SeenDifferent<T>(f: T -> T, x: T, seen: map<T, nat>, c: nat)
    requires Seen(f, x, seen, c)
    ensures AllDifferent(f, x, c)
    ensures Iterate(f, x, c) in seen ==> FirstRepeat(f, x, c, seen[Iterate(f, x, c)])
    ensures Iterate(f, x, c) !in seen ==> AllDifferent(f, x, c + 1)
  {
    forall k1, k2 | 0 <= k1 < k2 < c
      ensures Iterate(f, x, k1) != Iterate(f, x, k2)
    {
      assert Iterate(f, x, k1) in seen;
    }
    if Iterate(f, x, c) in seen {
      var k :| 0 <= k < c && Iterate(f, x, k) == Iterate(f, x, c);
    } else {
      forall k1, k2 | 0 <= k1 < k2 < c + 1
        ensures Iterate(f, x, k1) != Iterate(f, x, k2)
      {
        assert Iterate(f, x, k1) in seen;
      }
    }
  }
}
