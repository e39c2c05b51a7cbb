/** The dueling generators of day 15 (`day-15/src/main.rs`): each
    generator multiplies its previous value by its factor modulo
    2147483647, and offers only values that are a multiple of its
    `multiple_of`; the judge counts the pairs whose lowest 16 bits agree.

    `next` repeats its step until a value is a multiple, a loop nothing
    bounds; the model gives it at most `fuel` steps and answers `None` when
    they run out.
 */
module Day15 {
  import opened Wrappers
  import opened Text
  import opened Arith

  /** The modulus of every step: 2^31 - 1. */
  const Modulus: nat := 2147483647

  /** One step of a generator: the `u64` product reduced modulo 2^31 - 1. */
  function Gen(previous: nat, factor: nat): (r: nat)
    ensures r < Modulus
  {
    previous * factor % Modulus
  }

  /** `n` steps of a generator. */
  function Advance(previous: nat, factor: nat, n: nat): nat
    decreases n
  {
    if n == 0 then previous else Advance(Gen(previous, factor), factor, n - 1)
  }

  /** What `next` returns: the first value, within `fuel` steps, that is a
      multiple of `multipleOf`. */
  function NextSpec(previous: nat, factor: nat, multipleOf: nat, fuel: nat): (r: Option<nat>)
    requires multipleOf > 0
    ensures r.Some? ==> r.value < Modulus && r.value % multipleOf == 0
    decreases fuel
  {
    if fuel == 0 then None
    else
      var v := Gen(previous, factor);
      if v % multipleOf == 0 then Some(v) else NextSpec(v, factor, multipleOf, fuel - 1)
  }

  /** `next` returns the value of the first step, within `fuel`, that is a
      multiple of `multipleOf`. */
  lemma {:induction false} NextSpecFirst(previous: nat, factor: nat, multipleOf: nat, fuel: nat, k: nat)
    requires multipleOf > 0 && 1 <= k <= fuel
    requires Advance(previous, factor, k) % multipleOf == 0
    requires forall j :: 1 <= j < k ==> Advance(previous, factor, j) % multipleOf != 0
    ensures NextSpec(previous, factor, multipleOf, fuel) == Some(Advance(previous, factor, k))
    decreases k
  {
    var v := Gen(previous, factor);
    if k > 1 {
      assert Advance(previous, factor, 1) == v;
      forall j | 1 <= j < k - 1
        ensures Advance(v, factor, j) % multipleOf != 0
      {
        assert Advance(previous, factor, j + 1) == Advance(v, factor, j);
      }
      NextSpecFirst(v, factor, multipleOf, fuel - 1, k - 1);
    }
  }

  /** `next` finds nothing when none of the `fuel` steps gives a multiple. */
  lemma {:induction false} NextSpecNone(previous: nat, factor: nat, multipleOf: nat, fuel: nat)
    requires multipleOf > 0
    requires forall j :: 1 <= j <= fuel ==> Advance(previous, factor, j) % multipleOf != 0
    ensures NextSpec(previous, factor, multipleOf, fuel) == None
    decreases fuel
  {
    if fuel > 0 {
      var v := Gen(previous, factor);
      assert Advance(previous, factor, 1) == v;
      forall j | 1 <= j <= fuel - 1
        ensures Advance(v, factor, j) % multipleOf != 0
      {
        assert Advance(previous, factor, j + 1) == Advance(v, factor, j);
      }
      NextSpecNone(v, factor, multipleOf, fuel - 1);
    }
  }

  /** With no filter (`multiple_of == 1`) `next` is one step. */
  lemma NextUnfiltered(previous: nat, factor: nat, fuel: nat)
    requires fuel > 0
    ensures NextSpec(previous, factor, 1, fuel) == Some(Gen(previous, factor))
  {
  }

  /** More steps do not change a value already found. */
  lemma {:induction false} NextMoreFuel(previous: nat, factor: nat, multipleOf: nat, fuel: nat, more: nat)
    requires multipleOf > 0 && fuel <= more
    ensures NextSpec(previous, factor, multipleOf, fuel).Some? ==>
      NextSpec(previous, factor, multipleOf, more) == NextSpec(previous, factor, multipleOf, fuel)
    decreases fuel
  {
    var v := Gen(previous, factor);
    if NextSpec(previous, factor, multipleOf, fuel).Some? && v % multipleOf != 0 {
      NextMoreFuel(v, factor, multipleOf, fuel - 1, more - 1);
    }
  }

  /** The state `next` leaves behind: the value found, or the value after
      all `fuel` steps. */
  function AfterNext(previous: nat, factor: nat, multipleOf: nat, fuel: nat): nat
    requires multipleOf > 0
  {
    var r := NextSpec(previous, factor, multipleOf, fuel);
    if r.Some? then r.value else Advance(previous, factor, fuel)
  }

  /** The product of a value below 2^32 and a factor below 2^32 fits in a
      `u64`. */
  lemma ProductFits(previous: nat, factor: nat)
    requires previous <= U32_MAX && factor <= U32_MAX
    ensures previous * factor <= U64_MAX
  {
    assert previous * factor <= U32_MAX * factor;
    assert U32_MAX * factor <= U32_MAX * U32_MAX;
  }

  /** `Generator`: its factor, its previous value and the multiple its values
      must be. */
  class Generator {
    var factor: nat
    var previous: nat
    var multipleOf: nat

    /** The state every generator keeps: a factor and previous value that
        fit the `u64` product, and a multiple that `%` accepts. */
    predicate Valid()
      reads this
    {
      previous <= U32_MAX && factor <= U32_MAX && multipleOf > 0
    }

    /** `Generator::new`: the seed becomes the previous value. */
    constructor (factor: nat, seed: nat, multipleOf: nat)
      requires factor <= U32_MAX && seed <= U32_MAX && multipleOf > 0
      ensures Valid()
      ensures this.factor == factor && previous == seed && this.multipleOf == multipleOf
    {
      this.factor := factor;
      previous := seed;
      this.multipleOf := multipleOf;
    }

    /** `new_a`: factor 16807, values a multiple of 4 when asked. */
    static method NewA(seed: nat, useMultiple: bool) returns (g: Generator)
      requires seed <= U32_MAX
      ensures fresh(g) && g.Valid()
      ensures g.factor == 16807 && g.previous == seed && g.multipleOf == (if useMultiple then 4 else 1)
    {
      g := new Generator(16807, seed, if useMultiple then 4 else 1);
    }

    /** `new_b`: factor 48271, values a multiple of 8 when asked. */
    static method NewB(seed: nat, useMultiple: bool) returns (g: Generator)
      requires seed <= U32_MAX
      ensures fresh(g) && g.Valid()
      ensures g.factor == 48271 && g.previous == seed && g.multipleOf == (if useMultiple then 8 else 1)
    {
      g := new Generator(48271, seed, if useMultiple then 8 else 1);
    }

    /** `next`: steps until the value is a multiple of `multipleOf`, and
        returns it. */
    method Next(fuel: nat) returns (r: Option<nat>)
      requires Valid()
      modifies this
      ensures Valid() && factor == old(factor) && multipleOf == old(multipleOf)
      ensures r == NextSpec(old(previous), factor, multipleOf, fuel)
      ensures previous == AfterNext(old(previous), factor, multipleOf, fuel)
    {
      var steps := 0;
      while steps < fuel
        invariant Valid() && factor == old(factor) && multipleOf == old(multipleOf)
        invariant steps <= fuel
        invariant previous == Advance(old(previous), factor, steps)
        invariant NextSpec(old(previous), factor, multipleOf, fuel) ==
          NextSpec(previous, factor, multipleOf, fuel - steps)
        invariant AfterNext(old(previous), factor, multipleOf, fuel) ==
          AfterNext(previous, factor, multipleOf, fuel - steps)
      {
        ProductFits(previous, factor);
        AdvanceSnoc(old(previous), factor, steps);
        previous := previous * factor % Modulus;
        steps := steps + 1;
        if previous % multipleOf == 0 {
          return Some(previous);
        }
      }
      r := None;
    }
  }

  /** One more step after `n` steps. */
  lemma {:induction false} AdvanceSnoc(previous: nat, factor: nat, n: nat)
    ensures Advance(previous, factor, n + 1) == Gen(Advance(previous, factor, n), factor)
    decreases n
  {
    if n > 0 {
      AdvanceSnoc(Gen(previous, factor), factor, n - 1);
    }
  }

  /** The lowest 16 bits of a value (`a & mask` with `mask = 2^16 - 1`),
      which is the remainder modulo 2^16. */
  function Lower16(a: nat): nat {
    a % 65536
  }

  /** The first `n` values of a generator, each within `fuel` steps. */
  function Outputs(previous: nat, factor: nat, multipleOf: nat, fuel: nat, n: nat): (r: Option<seq<nat>>)
    requires multipleOf > 0
    ensures r.Some? ==> |r.value| == n
    decreases n
  {
    if n == 0 then Some([])
    else
      var v := NextSpec(previous, factor, multipleOf, fuel);
      if v.None? then None
      else
        var rest := Outputs(v.value, factor, multipleOf, fuel, n - 1);
        if rest.None? then None else Some([v.value] + rest.value)
  }

  /** The number of positions where the lowest 16 bits of the two
      sequences agree. */
  function Matches(xs: seq<nat>, ys: seq<nat>): (r: nat)
    requires |xs| == |ys|
    ensures r <= |xs|
  {
    if xs == [] then 0
    else
      var n := |xs| - 1;
      Matches(xs[..n], ys[..n]) + (if Lower16(xs[n]) == Lower16(ys[n]) then 1 else 0)
  }

  /** The judge's count over the values of both generators; `None` when
      either generator runs out of fuel. */
  function Judge(xs: Option<seq<nat>>, ys: Option<seq<nat>>): (r: Option<nat>)
    ensures r.Some? <==> xs.Some? && ys.Some? && |xs.value| == |ys.value|
    ensures r.Some? ==> r.value <= |xs.value|
  {
    if xs.None? || ys.None? || |xs.value| != |ys.value| then None else Some(Matches(xs.value, ys.value))
  }

  /** `c` added to a count, `None` staying `None`. */
  function Plus(c: nat, rest: Option<nat>): Option<nat> {
    if rest.None? then None else Some(c + rest.value)
  }

  /** The count of the judge, pair by pair from the front, as the zipped
      iterator produces them: the next value of A, then that of B. */
  function Duel(a: nat, fa: nat, ma: nat, b: nat, fb: nat, mb: nat, fuel: nat, n: nat): (r: Option<nat>)
    requires ma > 0 && mb > 0
    ensures r.Some? ==> r.value <= n
    decreases n
  {
    if n == 0 then Some(0)
    else
      var x := NextSpec(a, fa, ma, fuel);
      if x.None? then None
      else
        var y := NextSpec(b, fb, mb, fuel);
        if y.None? then None
        else Plus(if Lower16(x.value) == Lower16(y.value) then 1 else 0,
                  Duel(x.value, fa, ma, y.value, fb, mb, fuel, n - 1))
  }

  /** Counting pair by pair is counting over the two sequences of values. */
  lemma {:induction false} DuelJudge(a: nat, fa: nat, ma: nat, b: nat, fb: nat, mb: nat, fuel: nat, n: nat)
    requires ma > 0 && mb > 0
    ensures Duel(a, fa, ma, b, fb, mb, fuel, n) == Judge(Outputs(a, fa, ma, fuel, n), Outputs(b, fb, mb, fuel, n))
    decreases n
  {
    if n > 0 {
      var x := NextSpec(a, fa, ma, fuel);
      var y := NextSpec(b, fb, mb, fuel);
      if x.Some? && y.Some? {
        DuelJudge(x.value, fa, ma, y.value, fb, mb, fuel, n - 1);
        var xs := Outputs(x.value, fa, ma, fuel, n - 1);
        var ys := Outputs(y.value, fb, mb, fuel, n - 1);
        if xs.Some? && ys.Some? {
          MatchesCons(x.value, y.value, xs.value, ys.value);
        }
      }
    }
  }

  /** Counting from the front: the first pair, then the rest. */
  lemma {:induction false} MatchesCons(x: nat, y: nat, xs: seq<nat>, ys: seq<nat>)
    requires |xs| == |ys|
    ensures Matches([x] + xs, [y] + ys) == (if Lower16(x) == Lower16(y) then 1 else 0) + Matches(xs, ys)
    decreases |xs|
  {
    if xs != [] {
      var n := |xs| - 1;
      MatchesCons(x, y, xs[..n], ys[..n]);
      assert ([x] + xs)[..n + 1] == [x] + xs[..n];
      assert ([y] + ys)[..n + 1] == [y] + ys[..n];
    } else {
      assert ([x] + xs)[..0] == [];
    }
  }

  /** `matching_lower_16`: the first `range` pairs of values, counted where
      their lowest 16 bits agree. */
  method MatchingLower16(range: nat, a: Generator, b: Generator, fuel: nat) returns (r: Option<nat>)
    requires a.Valid() && b.Valid() && a != b
    modifies a, b
    ensures a.Valid() && b.Valid()
    ensures a.factor == old(a.factor) && a.multipleOf == old(a.multipleOf)
    ensures b.factor == old(b.factor) && b.multipleOf == old(b.multipleOf)
    ensures r == Duel(old(a.previous), a.factor, a.multipleOf, old(b.previous), b.factor, b.multipleOf, fuel, range)
  {
    var count := 0;
    ghost var fa, ma, fb, mb := a.factor, a.multipleOf, b.factor, b.multipleOf;
    ghost var total := Duel(a.previous, fa, ma, b.previous, fb, mb, fuel, range);
    for i := 0 to range
      invariant a.Valid() && b.Valid()
      invariant a.factor == fa && a.multipleOf == ma && b.factor == fb && b.multipleOf == mb
      invariant total == Plus(count, Duel(a.previous, fa, ma, b.previous, fb, mb, fuel, range - i))
    {
      var pair := NextPair(a, b, fuel);
      if pair.None? {
        return None;
      }
      var (x, y) := pair.value;
      if Lower16(x) == Lower16(y) {
        count := count + 1;
      }
    }
    r := Some(count);
  }

  /** One item of `a.zip(b)`: the next value of `a`, then, if there is one,
      the next value of `b`. */
  method NextPair(a: Generator, b: Generator, fuel: nat) returns (r: Option<(nat, nat)>)
    requires a.Valid() && b.Valid() && a != b
    modifies a, b
    ensures a.Valid() && b.Valid()
    ensures a.factor == old(a.factor) && a.multipleOf == old(a.multipleOf)
    ensures b.factor == old(b.factor) && b.multipleOf == old(b.multipleOf)
    ensures r.None? <==>
      NextSpec(old(a.previous), a.factor, a.multipleOf, fuel).None? ||
      NextSpec(old(b.previous), b.factor, b.multipleOf, fuel).None?
    ensures r.Some? ==>
      Some(r.value.0) == NextSpec(old(a.previous), a.factor, a.multipleOf, fuel) && a.previous == r.value.0 &&
      Some(r.value.1) == NextSpec(old(b.previous), b.factor, b.multipleOf, fuel) && b.previous == r.value.1
  {
    var x := a.Next(fuel);
    if x.None? {
      return None;
    }
    var y := b.Next(fuel);
    if y.None? {
      return None;
    }
    r := Some((x.value, y.value));
  }

  /** Without a filter the outputs are the successive steps. */
  lemma {:induction false} OutputsUnfiltered(previous: nat, factor: nat, fuel: nat, n: nat)
    requires fuel > 0
    ensures Outputs(previous, factor, 1, fuel, n).Some?
    ensures |Outputs(previous, factor, 1, fuel, n).value| == n
    ensures forall i :: 0 <= i < n ==> Outputs(previous, factor, 1, fuel, n).value[i] == Advance(previous, factor, i + 1)
    decreases n
  {
    if n > 0 {
      var v := Gen(previous, factor);
      NextUnfiltered(previous, factor, fuel);
      OutputsUnfiltered(v, factor, fuel, n - 1);
      forall i | 0 <= i < n
        ensures Outputs(previous, factor, 1, fuel, n).value[i] == Advance(previous, factor, i + 1)
      {
        if i > 0 {
          assert Advance(previous, factor, i + 1) == Advance(v, factor, i);
        }
      }
    }
  }

  // ---------------------------------------------------------------- samples

  /** A step whose product is known: `previous * factor == q * Modulus + v`. */
  lemma StepBy(seed: nat, factor: nat, k: nat, previous: nat, q: nat, v: nat)
    requires Advance(seed, factor, k) == previous
    requires previous * factor == q * Modulus + v && v < Modulus
    ensures Advance(seed, factor, k + 1) == v
  {
    AdvanceSnoc(seed, factor, k);
    ModUnique(previous * factor, Modulus, q, v);
  }

  /** The first five steps of generator A from seed 65. */
  lemma SampleStepsA()
    ensures Advance(65, 16807, 1) == 1092455
    ensures Advance(65, 16807, 2) == 1181022009
    ensures Advance(65, 16807, 3) == 245556042
    ensures Advance(65, 16807, 4) == 1744312007
    ensures Advance(65, 16807, 5) == 1352636452
  {
    assert Advance(65, 16807, 0) == 65;
    StepBy(65, 16807, 0, 65, 0, 1092455);
    StepBy(65, 16807, 1, 1092455, 8, 1181022009);
    StepBy(65, 16807, 2, 1181022009, 9243, 245556042);
    StepBy(65, 16807, 3, 245556042, 1921, 1744312007);
    StepBy(65, 16807, 4, 1744312007, 13651, 1352636452);
  }

  /** The first five steps of generator B from seed 8921. */
  lemma SampleStepsB()
    ensures Advance(8921, 48271, 1) == 430625591
    ensures Advance(8921, 48271, 2) == 1233683848
    ensures Advance(8921, 48271, 3) == 1431495498
    ensures Advance(8921, 48271, 4) == 137874439
    ensures Advance(8921, 48271, 5) == 285222916
  {
    assert Advance(8921, 48271, 0) == 8921;
    StepBy(8921, 48271, 0, 8921, 0, 430625591);
    StepBy(8921, 48271, 1, 430625591, 9679, 1233683848);
    StepBy(8921, 48271, 2, 1233683848, 27730, 1431495498);
    StepBy(8921, 48271, 3, 1431495498, 32177, 137874439);
    StepBy(8921, 48271, 4, 137874439, 3099, 285222916);
  }

  /** The first values of a generator without a filter are its first
      steps. */
  lemma FiveOutputs(seed: nat, factor: nat, fuel: nat)
    requires fuel > 0
    ensures Outputs(seed, factor, 1, fuel, 5) == Some([Advance(seed, factor, 1), Advance(seed, factor, 2),
      Advance(seed, factor, 3), Advance(seed, factor, 4), Advance(seed, factor, 5)])
  {
    OutputsUnfiltered(seed, factor, fuel, 5);
    var o := Outputs(seed, factor, 1, fuel, 5).value;
    assert o == [Advance(seed, factor, 1), Advance(seed, factor, 2), Advance(seed, factor, 3),
      Advance(seed, factor, 4), Advance(seed, factor, 5)];
  }

  /** The first values of both sample generators without a filter. */
  lemma SampleUnfiltered(fuel: nat)
    requires fuel > 0
    ensures Outputs(65, 16807, 1, fuel, 5) == Some([1092455, 1181022009, 245556042, 1744312007, 1352636452])
    ensures Outputs(8921, 48271, 1, fuel, 5) == Some([430625591, 1233683848, 1431495498, 137874439, 285222916])
  {
    SampleStepsA();
    SampleStepsB();
    FiveOutputs(65, 16807, fuel);
    FiveOutputs(8921, 48271, fuel);
  }

  /** One draw of `next` whose product is known: `previous * factor == q *
      Modulus + v` and `v == d * multipleOf + r`. The draw returns `v` when it
      is a multiple and goes on drawing from `v` otherwise. */
  lemma NextBy(previous: nat, factor: nat, multipleOf: nat, fuel: nat, q: nat, v: nat, d: nat, r: nat)
    requires fuel > 0 && r < multipleOf
    requires previous * factor == q * Modulus + v && v < Modulus && v == d * multipleOf + r
    ensures r == 0 ==> NextSpec(previous, factor, multipleOf, fuel) == Some(v)
    ensures r != 0 ==> NextSpec(previous, factor, multipleOf, fuel) == NextSpec(v, factor, multipleOf, fuel - 1)
  {
    ModUnique(previous * factor, Modulus, q, v);
    ModUnique(v, multipleOf, d, r);
  }

  /** Generator A's first filtered value, draw by draw. */
  lemma FilteredA1(fuel: nat)
    requires fuel >= 5
    ensures NextSpec(65, 16807, 4, fuel) == Some(1352636452)
  {
    NextBy(65, 16807, 4, fuel, 0, 1092455, 273113, 3);
    NextBy(1092455, 16807, 4, fuel - 1, 8, 1181022009, 295255502, 1);
    NextBy(1181022009, 16807, 4, fuel - 2, 9243, 245556042, 61389010, 2);
    NextBy(245556042, 16807, 4, fuel - 3, 1921, 1744312007, 436078001, 3);
    NextBy(1744312007, 16807, 4, fuel - 4, 13651, 1352636452, 338159113, 0);
  }

  /** Draws 1 to 5 towards generator A's second filtered value. */
  lemma FilteredA2Part1(fuel: nat)
    requires fuel >= 5
    ensures NextSpec(1352636452, 16807, 4, fuel) == NextSpec(1621432265, 16807, 4, fuel - 5)
  {
    NextBy(1352636452, 16807, 4, fuel, 10586, 498961622, 124740405, 2);
    NextBy(498961622, 16807, 4, fuel - 1, 3905, 124339419, 31084854, 3);
    NextBy(124339419, 16807, 4, fuel - 2, 973, 271026602, 67756650, 2);
    NextBy(271026602, 16807, 4, fuel - 3, 2121, 331284527, 82821131, 3);
    NextBy(331284527, 16807, 4, fuel - 4, 2592, 1621432265, 405358066, 1);
  }

  /** Draws 6 to 6 towards generator A's second filtered value. */
  lemma FilteredA2Part2(fuel: nat)
    requires fuel >= 1
    ensures NextSpec(1621432265, 16807, 4, fuel) == Some(1992081072)
  {
    NextBy(1621432265, 16807, 4, fuel, 12689, 1992081072, 498020268, 0);
  }

  /** Generator A's second filtered value. */
  lemma FilteredA2(fuel: nat)
    requires fuel >= 6
    ensures NextSpec(1352636452, 16807, 4, fuel) == Some(1992081072)
  {
    FilteredA2Part1(fuel);
    FilteredA2Part2(fuel - 5);
  }

  /** Generator A's third filtered value, draw by draw. */
  lemma FilteredA3(fuel: nat)
    requires fuel >= 3
    ensures NextSpec(1992081072, 16807, 4, fuel) == Some(530830436)
  {
    NextBy(1992081072, 16807, 4, fuel, 15590, 1636520374, 409130093, 2);
    NextBy(1636520374, 16807, 4, fuel - 1, 12808, 27375042, 6843760, 2);
    NextBy(27375042, 16807, 4, fuel - 2, 214, 530830436, 132707609, 0);
  }

  /** Generator A's fourth filtered value, draw by draw. */
  lemma FilteredA4(fuel: nat)
    requires fuel >= 5
    ensures NextSpec(530830436, 16807, 4, fuel) == Some(1980017072)
  {
    NextBy(530830436, 16807, 4, fuel, 4154, 1020068214, 255017053, 2);
    NextBy(1020068214, 16807, 4, fuel - 1, 7983, 924518697, 231129674, 1);
    NextBy(924518697, 16807, 4, fuel - 2, 7235, 1341554434, 335388608, 2);
    NextBy(1341554434, 16807, 4, fuel - 3, 10499, 1074562385, 268640596, 1);
    NextBy(1074562385, 16807, 4, fuel - 4, 8409, 1980017072, 495004268, 0);
  }

  /** Generator A's fifth filtered value, draw by draw. */
  lemma FilteredA5(fuel: nat)
    requires fuel >= 1
    ensures NextSpec(1980017072, 16807, 4, fuel) == Some(740335192)
  {
    NextBy(1980017072, 16807, 4, fuel, 15496, 740335192, 185083798, 0);
  }

  /** Generator B's first filtered value, draw by draw. */
  lemma FilteredB1(fuel: nat)
    requires fuel >= 2
    ensures NextSpec(8921, 48271, 8, fuel) == Some(1233683848)
  {
    NextBy(8921, 48271, 8, fuel, 0, 430625591, 53828198, 7);
    NextBy(430625591, 48271, 8, fuel - 1, 9679, 1233683848, 154210481, 0);
  }

  /** Draws 1 to 5 towards generator B's second filtered value. */
  lemma FilteredB2Part1(fuel: nat)
    requires fuel >= 5
    ensures NextSpec(1233683848, 48271, 8, fuel) == NextSpec(213303963, 48271, 8, fuel - 5)
  {
    NextBy(1233683848, 48271, 8, fuel, 27730, 1431495498, 178936937, 2);
    NextBy(1431495498, 48271, 8, fuel - 1, 32177, 137874439, 17234304, 7);
    NextBy(137874439, 48271, 8, fuel - 2, 3099, 285222916, 35652864, 4);
    NextBy(285222916, 48271, 8, fuel - 3, 6411, 477717319, 59714664, 7);
    NextBy(477717319, 48271, 8, fuel - 4, 10738, 213303963, 26662995, 3);
  }

  /** Draws 6 to 10 towards generator B's second filtered value. */
  lemma FilteredB2Part2(fuel: nat)
    requires fuel >= 5
    ensures NextSpec(213303963, 48271, 8, fuel) == NextSpec(512283294, 48271, 8, fuel - 5)
  {
    NextBy(213303963, 48271, 8, fuel, 4794, 1358994255, 169874281, 7);
    NextBy(1358994255, 48271, 8, fuel - 1, 30547, 828718196, 103589774, 4);
    NextBy(828718196, 48271, 8, fuel - 2, 18627, 1878146447, 234768305, 7);
    NextBy(1878146447, 48271, 8, fuel - 3, 42216, 1837501385, 229687673, 1);
    NextBy(1837501385, 48271, 8, fuel - 4, 41303, 512283294, 64035411, 6);
  }

  /** Draws 11 to 15 towards generator B's second filtered value. */
  lemma FilteredB2Part3(fuel: nat)
    requires fuel >= 5
    ensures NextSpec(512283294, 48271, 8, fuel) == NextSpec(968600909, 48271, 8, fuel - 5)
  {
    NextBy(512283294, 48271, 8, fuel, 11515, 152689469, 19086183, 5);
    NextBy(152689469, 48271, 8, fuel - 1, 3432, 309481595, 38685199, 3);
    NextBy(309481595, 48271, 8, fuel - 2, 6956, 1089823713, 136227964, 1);
    NextBy(1089823713, 48271, 8, fuel - 3, 24496, 2121033311, 265129163, 7);
    NextBy(2121033311, 48271, 8, fuel - 4, 47676, 968600909, 121075113, 5);
  }

  /** Draws 16 to 20 towards generator B's second filtered value. */
  lemma FilteredB2Part4(fuel: nat)
    requires fuel >= 5
    ensures NextSpec(968600909, 48271, 8, fuel) == NextSpec(1716768785, 48271, 8, fuel - 5)
  {
    NextBy(968600909, 48271, 8, fuel, 21772, 320515855, 40064481, 7);
    NextBy(320515855, 48271, 8, fuel - 1, 7204, 1148643717, 143580464, 5);
    NextBy(1148643717, 48271, 8, fuel - 2, 25819, 300581414, 37572676, 6);
    NextBy(300581414, 48271, 8, fuel - 3, 6756, 965916062, 120739507, 6);
    NextBy(965916062, 48271, 8, fuel - 4, 21711, 1716768785, 214596098, 1);
  }

  /** Draws 21 to 22 towards generator B's second filtered value. */
  lemma FilteredB2Part5(fuel: nat)
    requires fuel >= 2
    ensures NextSpec(1716768785, 48271, 8, fuel) == Some(862516352)
  {
    NextBy(1716768785, 48271, 8, fuel, 38589, 899566652, 112445831, 4);
    NextBy(899566652, 48271, 8, fuel - 1, 20220, 862516352, 107814544, 0);
  }

  /** Generator B's second filtered value. */
  lemma FilteredB2(fuel: nat)
    requires fuel >= 22
    ensures NextSpec(1233683848, 48271, 8, fuel) == Some(862516352)
  {
    FilteredB2Part1(fuel);
    FilteredB2Part2(fuel - 5);
    FilteredB2Part3(fuel - 10);
    FilteredB2Part4(fuel - 15);
    FilteredB2Part5(fuel - 20);
  }

  /** Draws 1 to 5 towards generator B's third filtered value. */
  lemma FilteredB3Part1(fuel: nat)
    requires fuel >= 5
    ensures NextSpec(862516352, 48271, 8, fuel) == NextSpec(2062378292, 48271, 8, fuel - 5)
  {
    NextBy(862516352, 48271, 8, fuel, 19387, 1261363003, 157670375, 3);
    NextBy(1261363003, 48271, 8, fuel - 1, 28352, 1797158069, 224644758, 5);
    NextBy(1797158069, 48271, 8, fuel - 2, 40396, 867744487, 108468060, 7);
    NextBy(867744487, 48271, 8, fuel - 3, 19505, 225597242, 28199655, 2);
    NextBy(225597242, 48271, 8, fuel - 4, 5070, 2062378292, 257797286, 4);
  }

  /** Draws 6 to 10 towards generator B's third filtered value. */
  lemma FilteredB3Part2(fuel: nat)
    requires fuel >= 5
    ensures NextSpec(2062378292, 48271, 8, fuel) == NextSpec(772251903, 48271, 8, fuel - 5)
  {
    NextBy(2062378292, 48271, 8, fuel, 46358, 15625506, 1953188, 2);
    NextBy(15625506, 48271, 8, fuel - 1, 351, 492040029, 61505003, 5);
    NextBy(492040029, 48271, 8, fuel - 2, 11060, 95104039, 11888004, 7);
    NextBy(95104039, 48271, 8, fuel - 3, 2137, 1594512930, 199314116, 2);
    NextBy(1594512930, 48271, 8, fuel - 4, 35841, 772251903, 96531487, 7);
  }

  /** Draws 11 to 15 towards generator B's third filtered value. */
  lemma FilteredB3Part3(fuel: nat)
    requires fuel >= 5
    ensures NextSpec(772251903, 48271, 8, fuel) == NextSpec(1859035119, 48271, 8, fuel - 5)
  {
    NextBy(772251903, 48271, 8, fuel, 17358, 1350465087, 168808135, 7);
    NextBy(1350465087, 48271, 8, fuel - 1, 30355, 1434109892, 179263736, 4);
    NextBy(1434109892, 48271, 8, fuel - 2, 32235, 1783235687, 222904460, 7);
    NextBy(1783235687, 48271, 8, fuel - 3, 40083, 982824476, 122853059, 4);
    NextBy(982824476, 48271, 8, fuel - 4, 22091, 1859035119, 232379389, 7);
  }

  /** Draws 16 to 20 towards generator B's third filtered value. */
  lemma FilteredB3Part4(fuel: nat)
    requires fuel >= 5
    ensures NextSpec(1859035119, 48271, 8, fuel) == NextSpec(1283504858, 48271, 8, fuel - 5)
  {
    NextBy(1859035119, 48271, 8, fuel, 41787, 585072060, 73134007, 4);
    NextBy(585072060, 48271, 8, fuel - 1, 13151, 455966563, 56995820, 3);
    NextBy(455966563, 48271, 8, fuel - 2, 10249, 402064470, 50258058, 6);
    NextBy(402064470, 48271, 8, fuel - 3, 9037, 1244313431, 155539178, 7);
    NextBy(1244313431, 48271, 8, fuel - 4, 27969, 1283504858, 160438107, 2);
  }

  /** Draws 21 to 21 towards generator B's third filtered value. */
  lemma FilteredB3Part5(fuel: nat)
    requires fuel >= 1
    ensures NextSpec(1283504858, 48271, 8, fuel) == Some(1159784568)
  {
    NextBy(1283504858, 48271, 8, fuel, 28850, 1159784568, 144973071, 0);
  }

  /** Generator B's third filtered value. */
  lemma FilteredB3(fuel: nat)
    requires fuel >= 21
    ensures NextSpec(862516352, 48271, 8, fuel) == Some(1159784568)
  {
    FilteredB3Part1(fuel);
    FilteredB3Part2(fuel - 5);
    FilteredB3Part3(fuel - 10);
    FilteredB3Part4(fuel - 15);
    FilteredB3Part5(fuel - 20);
  }

  /** Draws 1 to 5 towards generator B's fourth filtered value. */
  lemma FilteredB4Part1(fuel: nat)
    requires fuel >= 5
    ensures NextSpec(1159784568, 48271, 8, fuel) == NextSpec(1399909293, 48271, 8, fuel - 5)
  {
    NextBy(1159784568, 48271, 8, fuel, 26069, 1209688285, 151211035, 5);
    NextBy(1209688285, 48271, 8, fuel - 1, 27191, 635359658, 79419957, 2);
    NextBy(635359658, 48271, 8, fuel - 2, 14281, 1232088511, 154011063, 7);
    NextBy(1232088511, 48271, 8, fuel - 3, 27694, 1732394463, 216549307, 7);
    NextBy(1732394463, 48271, 8, fuel - 4, 38940, 1399909293, 174988661, 5);
  }

  /** Draws 6 to 10 towards generator B's fourth filtered value. */
  lemma FilteredB4Part2(fuel: nat)
    requires fuel >= 5
    ensures NextSpec(1399909293, 48271, 8, fuel) == NextSpec(857924259, 48271, 8, fuel - 5)
  {
    NextBy(1399909293, 48271, 8, fuel, 31467, 153562254, 19195281, 6);
    NextBy(153562254, 48271, 8, fuel - 1, 3451, 1637497037, 204687129, 5);
    NextBy(1637497037, 48271, 8, fuel - 2, 36807, 1188877898, 148609737, 2);
    NextBy(1188877898, 48271, 8, fuel - 3, 26723, 1119515577, 139939447, 1);
    NextBy(1119515577, 48271, 8, fuel - 4, 25164, 857924259, 107240532, 3);
  }

  /** Draws 11 to 15 towards generator B's fourth filtered value. */
  lemma FilteredB4Part3(fuel: nat)
    requires fuel >= 5
    ensures NextSpec(857924259, 48271, 8, fuel) == NextSpec(766748953, 48271, 8, fuel - 5)
  {
    NextBy(857924259, 48271, 8, fuel, 19284, 787257441, 98407180, 1);
    NextBy(787257441, 48271, 8, fuel - 1, 17695, 1980800846, 247600105, 6);
    NextBy(1980800846, 48271, 8, fuel - 2, 44524, 675738238, 84467279, 6);
    NextBy(675738238, 48271, 8, fuel - 3, 15189, 431372215, 53921526, 7);
    NextBy(431372215, 48271, 8, fuel - 4, 9696, 766748953, 95843619, 1);
  }

  /** Draws 16 to 20 towards generator B's fourth filtered value. */
  lemma FilteredB4Part4(fuel: nat)
    requires fuel >= 5
    ensures NextSpec(766748953, 48271, 8, fuel) == NextSpec(76294486, 48271, 8, fuel - 5)
  {
    NextBy(766748953, 48271, 8, fuel, 17234, 2005537865, 250692233, 1);
    NextBy(2005537865, 48271, 8, fuel - 1, 45080, 755474655, 94434331, 7);
    NextBy(755474655, 48271, 8, fuel - 2, 16981, 1097261798, 137157724, 6);
    NextBy(1097261798, 48271, 8, fuel - 3, 24664, 387581650, 48447706, 2);
    NextBy(387581650, 48271, 8, fuel - 4, 8712, 76294486, 9536810, 6);
  }

  /** Draws 21 to 25 towards generator B's fourth filtered value. */
  lemma FilteredB4Part5(fuel: nat)
    requires fuel >= 5
    ensures NextSpec(76294486, 48271, 8, fuel) == Some(1616057672)
  {
    NextBy(76294486, 48271, 8, fuel, 1714, 2024162748, 253020343, 4);
    NextBy(2024162748, 48271, 8, fuel - 1, 45499, 1553855, 194231, 7);
    NextBy(1553855, 48271, 8, fuel - 2, 34, 1991690707, 248961338, 3);
    NextBy(1991690707, 48271, 8, fuel - 3, 44769, 206725054, 25840631, 6);
    NextBy(206725054, 48271, 8, fuel - 4, 4646, 1616057672, 202007209, 0);
  }

  /** Generator B's fourth filtered value. */
  lemma FilteredB4(fuel: nat)
    requires fuel >= 25
    ensures NextSpec(1159784568, 48271, 8, fuel) == Some(1616057672)
  {
    FilteredB4Part1(fuel);
    FilteredB4Part2(fuel - 5);
    FilteredB4Part3(fuel - 10);
    FilteredB4Part4(fuel - 15);
    FilteredB4Part5(fuel - 20);
  }

  /** Draws 1 to 5 towards generator B's fifth filtered value. */
  lemma FilteredB5Part1(fuel: nat)
    requires fuel >= 5
    ensures NextSpec(1616057672, 48271, 8, fuel) == NextSpec(695840566, 48271, 8, fuel - 5)
  {
    NextBy(1616057672, 48271, 8, fuel, 36325, 1376407837, 172050979, 5);
    NextBy(1376407837, 48271, 8, fuel - 1, 30938, 1733628941, 216703617, 5);
    NextBy(1733628941, 48271, 8, fuel - 2, 38968, 859854715, 107481839, 3);
    NextBy(859854715, 48271, 8, fuel - 3, 19327, 1630502196, 203812774, 4);
    NextBy(1630502196, 48271, 8, fuel - 4, 36650, 695840566, 86980070, 6);
  }

  /** Draws 6 to 10 towards generator B's fifth filtered value. */
  lemma FilteredB5Part2(fuel: nat)
    requires fuel >= 5
    ensures NextSpec(695840566, 48271, 8, fuel) == NextSpec(1119728785, 48271, 8, fuel - 5)
  {
    NextBy(695840566, 48271, 8, fuel, 15641, 128238659, 16029832, 3);
    NextBy(128238659, 48271, 8, fuel - 1, 2882, 1160437935, 145054741, 7);
    NextBy(1160437935, 48271, 8, fuel - 2, 26084, 536112037, 67014004, 5);
    NextBy(536112037, 48271, 8, fuel - 3, 12050, 1486191677, 185773959, 5);
    NextBy(1486191677, 48271, 8, fuel - 4, 33406, 1119728785, 139966098, 1);
  }

  /** Draws 11 to 11 towards generator B's fifth filtered value. */
  lemma FilteredB5Part3(fuel: nat)
    requires fuel >= 1
    ensures NextSpec(1119728785, 48271, 8, fuel) == Some(412269392)
  {
    NextBy(1119728785, 48271, 8, fuel, 25169, 412269392, 51533674, 0);
  }

  /** Generator B's fifth filtered value. */
  lemma FilteredB5(fuel: nat)
    requires fuel >= 11
    ensures NextSpec(1616057672, 48271, 8, fuel) == Some(412269392)
  {
    FilteredB5Part1(fuel);
    FilteredB5Part2(fuel - 5);
    FilteredB5Part3(fuel - 10);
  }

  /** The value `next` starts from to give the `i`-th of `vs`. */
  function Before(previous: nat, vs: seq<nat>, i: nat): nat
    requires i < |vs|
  {
    if i == 0 then previous else vs[i - 1]
  }

  /** Values that `next` gives one after the other are the outputs. */
  lemma {:induction false} OutputsOf(previous: nat, factor: nat, multipleOf: nat, fuel: nat, vs: seq<nat>)
    requires multipleOf > 0
    ensures (forall i :: 0 <= i < |vs| ==> NextSpec(Before(previous, vs, i), factor, multipleOf, fuel) == Some(vs[i])) ==>
      Outputs(previous, factor, multipleOf, fuel, |vs|) == Some(vs)
    decreases |vs|
  {
    if vs != [] && forall i :: 0 <= i < |vs| ==> NextSpec(Before(previous, vs, i), factor, multipleOf, fuel) == Some(vs[i]) {
      var rest := vs[1..];
      assert NextSpec(previous, factor, multipleOf, fuel) == Some(vs[0]) by {
        assert Before(previous, vs, 0) == previous;
      }
      forall i | 0 <= i < |rest|
        ensures NextSpec(Before(vs[0], rest, i), factor, multipleOf, fuel) == Some(rest[i])
      {
        assert Before(vs[0], rest, i) == Before(previous, vs, i + 1);
        assert NextSpec(Before(previous, vs, i + 1), factor, multipleOf, fuel) == Some(vs[i + 1]);
      }
      OutputsOf(vs[0], factor, multipleOf, fuel, rest);
      OutputsStep(previous, factor, multipleOf, fuel, vs[0], rest);
      assert vs == [vs[0]] + rest;
    }
  }

  /** One value that `next` gives, then the outputs from it. */
  lemma OutputsStep(previous: nat, factor: nat, multipleOf: nat, fuel: nat, v: nat, rest: seq<nat>)
    requires multipleOf > 0
    ensures (NextSpec(previous, factor, multipleOf, fuel) == Some(v) &&
             Outputs(v, factor, multipleOf, fuel, |rest|) == Some(rest)) ==>
      Outputs(previous, factor, multipleOf, fuel, |rest| + 1) == Some([v] + rest)
  {
  }

  /** With its filter, the first five values of sample generator A: its
      steps 5, 11, 14, 19 and 20. */
  lemma SampleFilteredA(fuel: nat)
    requires fuel >= 6
    ensures Outputs(65, 16807, 4, fuel, 5) == Some([1352636452, 1992081072, 530830436, 1980017072, 740335192])
  {
    var vs := [1352636452, 1992081072, 530830436, 1980017072, 740335192];
    forall i | 0 <= i < |vs|
      ensures NextSpec(Before(65, vs, i), 16807, 4, fuel) == Some(vs[i])
    {
      if i == 0 { FilteredA1(fuel); }
      else if i == 1 { FilteredA2(fuel); }
      else if i == 2 { FilteredA3(fuel); }
      else if i == 3 { FilteredA4(fuel); }
      else { FilteredA5(fuel); }
    }
    OutputsOf(65, 16807, 4, fuel, vs);
  }

  /** With its filter, the first five values of sample generator B: its
      steps 2, 24, 45, 70 and 81; the wait from step 45 to step 70 takes 25
      draws. */
  lemma SampleFilteredB(fuel: nat)
    requires fuel >= 25
    ensures Outputs(8921, 48271, 8, fuel, 5) == Some([1233683848, 862516352, 1159784568, 1616057672, 412269392])
  {
    var vs := [1233683848, 862516352, 1159784568, 1616057672, 412269392];
    forall i | 0 <= i < |vs|
      ensures NextSpec(Before(8921, vs, i), 48271, 8, fuel) == Some(vs[i])
    {
      if i == 0 { FilteredB1(fuel); }
      else if i == 1 { FilteredB2(fuel); }
      else if i == 2 { FilteredB3(fuel); }
      else if i == 3 { FilteredB4(fuel); }
      else { FilteredB5(fuel); }
    }
    OutputsOf(8921, 48271, 8, fuel, vs);
  }

  /** With the filters, the first five values of both sample generators. */
  lemma SampleFiltered(fuel: nat)
    requires fuel >= 25
    ensures Outputs(65, 16807, 4, fuel, 5) == Some([1352636452, 1992081072, 530830436, 1980017072, 740335192])
    ensures Outputs(8921, 48271, 8, fuel, 5) == Some([1233683848, 862516352, 1159784568, 1616057672, 412269392])
  {
    SampleFilteredA(fuel);
    SampleFilteredB(fuel);
  }

  /** The lowest 16 bits of `x`, given its quotient by 2^16. */
  lemma LowerOf(x: nat, q: nat, r: nat)
    requires x == 65536 * q + r && r < 65536
    ensures Lower16(x) == r
  {
    ModUnique(x, 65536, q, r);
  }

  /** The count over five pairs, pair by pair. */
  lemma MatchesFive(x0: nat, x1: nat, x2: nat, x3: nat, x4: nat, y0: nat, y1: nat, y2: nat, y3: nat, y4: nat)
    ensures Matches([x0, x1, x2, x3, x4], [y0, y1, y2, y3, y4]) ==
      (if Lower16(x0) == Lower16(y0) then 1 else 0) + (if Lower16(x1) == Lower16(y1) then 1 else 0) +
      (if Lower16(x2) == Lower16(y2) then 1 else 0) + (if Lower16(x3) == Lower16(y3) then 1 else 0) +
      (if Lower16(x4) == Lower16(y4) then 1 else 0)
  {
    assert [x0, x1, x2, x3, x4] == [x0] + [x1, x2, x3, x4];
    assert [y0, y1, y2, y3, y4] == [y0] + [y1, y2, y3, y4];
    assert [x1, x2, x3, x4] == [x1] + [x2, x3, x4];
    assert [y1, y2, y3, y4] == [y1] + [y2, y3, y4];
    assert [x2, x3, x4] == [x2] + [x3, x4];
    assert [y2, y3, y4] == [y2] + [y3, y4];
    assert [x3, x4] == [x3] + [x4];
    assert [y3, y4] == [y3] + [y4];
    assert [x4] == [x4] + [];
    assert [y4] == [y4] + [];
    MatchesCons(x0, y0, [x1, x2, x3, x4], [y1, y2, y3, y4]);
    MatchesCons(x1, y1, [x2, x3, x4], [y2, y3, y4]);
    MatchesCons(x2, y2, [x3, x4], [y3, y4]);
    MatchesCons(x3, y3, [x4], [y4]);
    MatchesCons(x4, y4, [], []);
  }

  /** Of the first five sample pairs only the third agrees in its lowest 16
      bits. */
  lemma SampleJudge(fuel: nat)
    requires fuel > 0
    ensures Duel(65, 16807, 1, 8921, 48271, 1, fuel, 5) == Some(1)
  {
    SampleUnfiltered(fuel);
    DuelJudge(65, 16807, 1, 8921, 48271, 1, fuel, 5);
    var xs := [1092455, 1181022009, 245556042, 1744312007, 1352636452];
    var ys := [430625591, 1233683848, 1431495498, 137874439, 285222916];
    MatchesFive(1092455, 1181022009, 245556042, 1744312007, 1352636452,
                430625591, 1233683848, 1431495498, 137874439, 285222916);
    LowerOf(1092455, 16, 43879);
    LowerOf(430625591, 6570, 54071);
    LowerOf(1181022009, 18020, 63289);
    LowerOf(1233683848, 18824, 34184);
    LowerOf(245556042, 3746, 58186);
    LowerOf(1431495498, 21842, 58186);
    LowerOf(1744312007, 26616, 5831);
    LowerOf(137874439, 2103, 52231);
    LowerOf(1352636452, 20639, 38948);
    LowerOf(285222916, 4352, 10244);
    assert Matches(xs, ys) == 1;
    assert Judge(Some(xs), Some(ys)) == Some(1);
  }
}
