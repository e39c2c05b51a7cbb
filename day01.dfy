/** The captcha of day 1 (`day-01/src/part1.rs` and `day-01/src/part2.rs`):
    the sum of the digits of a circular list that match the digit at a
    fixed distance ahead — the next one in part 1, the one half-way round
    in part 2.  A matching character that is not a digit panics.

    Both parts compare the input with a rotation of itself: part 1 folds
    over the characters with the previous one in a variable seeded with
    the last character, part 2 zips the input with its second half
    followed by its first.  Reading the line from standard input and
    dropping its newline are left out: the model starts from the line.
    Sums are unbounded (no `u32` overflow).
 */
module Day01 {
  import opened Wrappers
  import opened Text
  import opened Arith

  /** What a pair of characters adds: nothing when they differ, the digit
      when they match, and `None` (the panic) for a matching non-digit. */
  function Contribution(c: char, d: char): (r: Option<nat>)
    ensures r.None? <==> c == d && !IsDigit(c)
    ensures r.Some? && c == d ==> r.value == c as int - '0' as int
    ensures c != d ==> r == Some(0)
  {
    if c == d then ToDigit(c, 10) else Some(0)
  }

  /** The contributions of the pairs of `zip(a, b)`, as long as the shorter
      of the two. */
  function Pairs(a: string, b: string): (r: seq<Option<nat>>)
    ensures |r| == if |a| <= |b| then |a| else |b|
    ensures forall i :: 0 <= i < |r| ==> r[i] == Contribution(a[i], b[i])
  {
    var n := if |a| <= |b| then |a| else |b|;
    seq(n, i requires 0 <= i < n => Contribution(a[i], b[i]))
  }

  /** Two sums, or `None` when either panicked. */
  function Plus(x: Option<nat>, y: Option<nat>): Option<nat> {
    if x.None? || y.None? then None else Some(x.value + y.value)
  }

  /** The fold `sum + int` over the contributions, from the first: `None`
      once one of them panics. */
  function Total(cs: seq<Option<nat>>): Option<nat> {
    if cs == [] then Some(0) else Plus(Total(cs[..|cs| - 1]), cs[|cs| - 1])
  }

  /** One more step of the fold. */
  lemma TotalSnoc(cs: seq<Option<nat>>, i: nat, sum: nat, x: nat)
    requires i < |cs| && Total(cs[..i]) == Some(sum) && cs[i] == Some(x)
    ensures Total(cs[..i + 1]) == Some(sum + x)
  {
    assert cs[..i + 1][..i] == cs[..i];
  }

  /** The fold panics exactly when some contribution does. */
  lemma {:induction false} TotalNone(cs: seq<Option<nat>>)
    ensures Total(cs).None? <==> exists i :: 0 <= i < |cs| && cs[i].None?
  {
    if cs != [] {
      var front := cs[..|cs| - 1];
      TotalNone(front);
      if exists i :: 0 <= i < |front| && front[i].None? {
        var i :| 0 <= i < |front| && front[i].None?;
        assert cs[i].None?;
      }
      if exists i :: 0 <= i < |cs| && cs[i].None? {
        var i :| 0 <= i < |cs| && cs[i].None?;
        if i < |front| {
          assert front[i].None?;
        }
      }
    }
  }

  /** The sum of two runs of contributions is the sum of their sums. */
  lemma {:induction false} TotalAppend(x: seq<Option<nat>>, y: seq<Option<nat>>)
    ensures Total(x + y) == Plus(Total(x), Total(y))
    decreases |y|
  {
    if y == [] {
      assert x + y == x;
    } else {
      var front := y[..|y| - 1];
      assert (x + y)[..|x + y| - 1] == x + front;
      TotalAppend(x, front);
    }
  }

  /** The character `j` places on from the start of the circular list,
      for `j` less than twice round. */
  function Around(s: string, j: nat): char
    requires j < 2 * |s|
  {
    if j < |s| then s[j] else s[j - |s|]
  }

  /** The list rotated by `k`: its characters from `k` on, then the first
      `k`. */
  function Rotate(s: string, k: nat): (r: string)
    requires k <= |s|
    ensures |r| == |s|
    ensures forall i :: 0 <= i < |s| ==> r[i] == Around(s, i + k)
  {
    s[k..] + s[..k]
  }

  /** Some character equal to the one `k` places round is not a digit. */
  predicate MatchingNonDigit(s: string, k: nat)
    requires k <= |s|
  {
    exists i :: 0 <= i < |s| && s[i] == Around(s, i + k) && !IsDigit(s[i])
  }

  /** Summing the list against its rotation by `k` panics exactly when a
      character equal to the one `k` places round is not a digit. */
  lemma RotationPanics(s: string, k: nat)
    requires k <= |s|
    ensures Total(Pairs(s, Rotate(s, k))).None? <==> MatchingNonDigit(s, k)
  {
    var cs := Pairs(s, Rotate(s, k));
    TotalNone(cs);
    if exists i :: 0 <= i < |s| && s[i] == Around(s, i + k) && !IsDigit(s[i]) {
      var i :| 0 <= i < |s| && s[i] == Around(s, i + k) && !IsDigit(s[i]);
      assert cs[i].None?;
    }
  }

  // ---------------------------------------------------------------- part 1

  /** Part 1's answer: 0 for an input of at most one byte, otherwise the
      contributions of each character paired with the one before it,
      the first with the last. */
  function NextDigitSum(input: string): Option<nat> {
    if ByteLen(input) <= 1 then Some(0)
    else Total(Pairs(input, Rotate(input, |input| - 1)))
  }

  /** The fold of part 1: `last_character` starts as the last character
      and holds the previous one as the fold moves on; each character
      equal to it adds its digit. */
  method NextDigitCaptcha(input: string) returns (r: Option<nat>)
    ensures r == NextDigitSum(input)
  {
    if ByteLen(input) <= 1 {
      return Some(0);
    }
    var n := |input|;
    ghost var previous := Rotate(input, n - 1);
    ghost var cs := Pairs(input, previous);
    var lastCharacter := input[n - 1];
    var sum: nat := 0;
    for i := 0 to n
      invariant i < n ==> lastCharacter == previous[i]
      invariant Total(cs[..i]).Some? && Total(cs[..i]).value == sum
    {
      var c := input[i];
      var same := c == lastCharacter;
      lastCharacter := c;
      assert cs[i] == Contribution(c, previous[i]);
      if same {
        var digit := ToDigit(c, 10);
        if digit.None? {
          TotalNone(cs);
          return None;
        }
        TotalSnoc(cs, i, sum, digit.value);
        sum := sum + digit.value;
      } else {
        TotalSnoc(cs, i, sum, 0);
      }
    }
    assert cs[..n] == cs;
    r := Some(sum);
  }

  /** A matching pair adds the same whichever way round it is taken. */
  lemma ContributionSymmetric(c: char, d: char)
    ensures Contribution(c, d) == Contribution(d, c)
  {
  }

  /** Rotating by all but one puts each character after the one before
      it, the first after the last. */
  lemma RotateBack(s: string, i: nat)
    requires i < |s|
    ensures Rotate(s, |s| - 1)[i] == if i == 0 then s[|s| - 1] else s[i - 1]
  {
  }

  /** Rotating by one puts each character after the next, the last after
      the first. */
  lemma RotateAhead(s: string, i: nat)
    requires i < |s|
    ensures Rotate(s, 1)[i] == if i == |s| - 1 then s[0] else s[i + 1]
  {
  }

  /** Pairing each character with the one before it sums the same as
      pairing it with the next one, the last with the first: each
      matching pair is counted once either way. */
  lemma NextDigitSumNext(input: string)
    requires |input| >= 1
    ensures Total(Pairs(input, Rotate(input, |input| - 1))) == Total(Pairs(input, Rotate(input, 1)))
  {
    var n := |input|;
    var q := Pairs(input, Rotate(input, 1));
    PairsBackAhead(input);
    TotalRotate(q);
  }

  /** Each character paired with the one before it gives the contributions
      of each paired with the next one, moved round by one place. */
  lemma PairsBackAhead(input: string)
    requires |input| >= 1
    ensures var q := Pairs(input, Rotate(input, 1));
      Pairs(input, Rotate(input, |input| - 1)) == [q[|input| - 1]] + q[..|input| - 1]
  {
    var n := |input|;
    var p := Pairs(input, Rotate(input, n - 1));
    var q := Pairs(input, Rotate(input, 1));
    forall i | 1 <= i < n
      ensures p[i] == q[i - 1]
    {
      PairBackAhead(input, i);
    }
    PairBackAhead(input, 0);
    MovedRound(p, q);
  }

  /** A sequence that holds the last of `q` and then each of the others is
      `q` with its last element moved to the front. */
  lemma MovedRound(p: seq<Option<nat>>, q: seq<Option<nat>>)
    requires |p| == |q| > 0 && p[0] == q[|q| - 1]
    requires forall i :: 1 <= i < |p| ==> p[i] == q[i - 1]
    ensures p == [q[|q| - 1]] + q[..|q| - 1]
  {
  }

  /** One place of `PairsBackAhead`. */
  lemma PairBackAhead(input: string, i: nat)
    requires i < |input|
    ensures var q := Pairs(input, Rotate(input, 1));
      Pairs(input, Rotate(input, |input| - 1))[i] == if i == 0 then q[|input| - 1] else q[i - 1]
  {
    var n := |input|;
    RotateBack(input, i);
    if i == 0 {
      RotateAhead(input, n - 1);
      ContributionSymmetric(input[0], input[n - 1]);
    } else {
      RotateAhead(input, i - 1);
      ContributionSymmetric(input[i], input[i - 1]);
    }
  }

  /** Moving the last contribution to the front does not change the sum. */
  lemma TotalRotate(q: seq<Option<nat>>)
    requires q != []
    ensures Total([q[|q| - 1]] + q[..|q| - 1]) == Total(q)
  {
    var last := [q[|q| - 1]];
    var front := q[..|q| - 1];
    assert front + last == q;
    TotalAppend(last, front);
    TotalAppend(front, last);
  }

  /** An input of at most one byte has no neighbours: the answer is 0. */
  lemma NextDigitShort(input: string)
    requires ByteLen(input) <= 1
    ensures NextDigitSum(input) == Some(0)
  {
  }

  /** Part 1 panics exactly when a character equal to the one before it
      (the first: to the last) is not a digit. */
  lemma NextDigitPanics(input: string)
    requires ByteLen(input) > 1
    ensures NextDigitSum(input).None? <==> MatchingNonDigit(input, |input| - 1)
  {
    RotationPanics(input, |input| - 1);
  }

  // ---------------------------------------------------------------- part 2

  /** Why part 2 gives no answer: an odd length is rejected, a matching
      non-digit panics. */
  datatype Failure = OddLength | NotADigit

  /** `chars().take(k)`. */
  function Take(s: string, k: nat): string {
    if k <= |s| then s[..k] else s
  }

  /** `chars().skip(k)`. */
  function Skip(s: string, k: nat): string {
    if k <= |s| then s[k..] else []
  }

  /** Part 2: an input whose length in bytes is odd is rejected, an empty
      one gives 0; otherwise, with `half` half the length in bytes, the
      input is zipped with the characters after the first `half` (at most
      `half` of them) followed by the first `half`. */
  function HalfwaySum(input: string): Result<nat, Failure> {
    if ByteLen(input) % 2 != 0 then Err(OddLength)
    else if ByteLen(input) <= 1 then Ok(0)
    else
      var half := ByteLen(input) / 2;
      var firstHalf := Take(input, half);
      var secondHalf := Take(Skip(input, half), half) + firstHalf;
      var answer := Total(Pairs(input, secondHalf));
      if answer.None? then Err(NotADigit) else Ok(answer.value)
  }

  /** How far round part 2 looks: half the length in bytes, or all the
      characters when there are fewer than that. */
  function HalfOffset(input: string): (k: nat)
    ensures k <= |input|
  {
    var half := ByteLen(input) / 2;
    if half <= |input| then half else |input|
  }

  /** The halves of part 2 make the input rotated by `HalfOffset`: each
      character is compared with the one that many places round. */
  lemma HalfwayRotation(input: string)
    requires ByteLen(input) % 2 == 0
    ensures var half := ByteLen(input) / 2;
      Take(Skip(input, half), half) + Take(input, half) == Rotate(input, HalfOffset(input))
  {
    var half := ByteLen(input) / 2;
    if half <= |input| {
      assert Skip(input, half) == input[half..];
      assert Take(input[half..], half) == input[half..] by {
        assert |input[half..]| <= half;
      }
    } else {
      assert Skip(input, half) == [];
      assert Take(input, half) == input;
    }
  }

  /** For ASCII input, where every character is one byte, that is half
      the characters, and their number is even. */
  lemma HalfOffsetAscii(input: string)
    requires ByteLen(input) % 2 == 0 && IsAscii(input)
    ensures HalfOffset(input) == |input| / 2 && |input| % 2 == 0
  {
    ByteLenAscii(input);
  }

  /** An odd length in bytes is rejected, and an empty input gives 0. */
  lemma HalfwayShape(input: string)
    ensures ByteLen(input) % 2 != 0 <==> HalfwaySum(input) == Err(OddLength)
    ensures input == [] ==> HalfwaySum(input) == Ok(0)
  {
  }

  /** Otherwise part 2 is the sum over the input paired with its rotation
      by `HalfOffset`. */
  lemma HalfwayTotal(input: string)
    requires ByteLen(input) % 2 == 0 && input != []
    ensures var answer := Total(Pairs(input, Rotate(input, HalfOffset(input))));
      HalfwaySum(input) == if answer.None? then Err(NotADigit) else Ok(answer.value)
    ensures HalfwaySum(input) == Err(NotADigit) <==>
      Total(Pairs(input, Rotate(input, HalfOffset(input)))).None?
  {
    HalfwayRotation(input);
  }

  /** Part 2 panics exactly when a character equal to the one it is
      compared with is not a digit. */
  lemma HalfwayPanics(input: string)
    requires ByteLen(input) % 2 == 0 && input != []
    ensures HalfwaySum(input) == Err(NotADigit) <==> MatchingNonDigit(input, HalfOffset(input))
  {
    HalfwayTotal(input);
    RotationPanics(input, HalfOffset(input));
  }

  /** Half-way round, the matches pair up: the sum over the whole list is
      twice the sum over its first half against its second. */
  lemma HalfwayTwice(s: string, h: nat)
    requires |s| == 2 * h
    ensures var half := Total(Pairs(s[..h], s[h..]));
      Total(Pairs(s, Rotate(s, h))) == if half.None? then None else Some(2 * half.value)
  {
    var a, b := s[..h], s[h..];
    assert s == a + b;
    assert Rotate(s, h) == b + a;
    SwappedHalves(a, b);
  }

  /** The list `a + b` against `b + a` sums `a` against `b` twice. */
  lemma SwappedHalves(a: string, b: string)
    requires |a| == |b|
    ensures var half := Total(Pairs(a, b));
      Total(Pairs(a + b, b + a)) == if half.None? then None else Some(2 * half.value)
  {
    PairsAppend(a, b, b, a);
    PairsSwap(a, b);
    TotalAppend(Pairs(a, b), Pairs(a, b));
  }

  /** Pairing is symmetric. */
  lemma PairsSwap(a: string, b: string)
    requires |a| == |b|
    ensures Pairs(b, a) == Pairs(a, b)
  {
    forall i | 0 <= i < |a|
      ensures Pairs(b, a)[i] == Pairs(a, b)[i]
    {
      ContributionSymmetric(a[i], b[i]);
    }
  }

  // --------------------------------------------------------------- samples

  /** Sums of two, four and six contributions that do not panic. */
  lemma TotalTwo(a: nat, b: nat)
    ensures Total([Some(a), Some(b)]) == Some(a + b)
  {
    assert [Some(a)][..0] == [];
    assert Total([Some(a)]) == Some(a);
    assert [Some(a), Some(b)][..1] == [Some(a)];
  }

  lemma TotalFour(a: nat, b: nat, c: nat, d: nat)
    ensures Total([Some(a), Some(b), Some(c), Some(d)]) == Some(a + b + c + d)
  {
    TotalTwo(a, b);
    TotalTwo(c, d);
    TotalAppend([Some(a), Some(b)], [Some(c), Some(d)]);
    assert [Some(a), Some(b)] + [Some(c), Some(d)] == [Some(a), Some(b), Some(c), Some(d)];
  }

  lemma TotalSix(a: nat, b: nat, c: nat, d: nat, e: nat, f: nat)
    ensures Total([Some(a), Some(b), Some(c), Some(d), Some(e), Some(f)]) == Some(a + b + c + d + e + f)
  {
    TotalFour(a, b, c, d);
    TotalTwo(e, f);
    TotalAppend([Some(a), Some(b), Some(c), Some(d)], [Some(e), Some(f)]);
    assert [Some(a), Some(b), Some(c), Some(d)] + [Some(e), Some(f)]
      == [Some(a), Some(b), Some(c), Some(d), Some(e), Some(f)];
  }

  /** Part 1 on an input of at least two characters is its sum. */
  lemma NextDigitFrom(input: string, x: nat)
    requires |input| >= 2 && Total(Pairs(input, Rotate(input, |input| - 1))) == Some(x)
    ensures NextDigitSum(input) == Some(x)
  {
  }

  /** An ASCII input of even length passes part 2's length check and is
      compared half-way round. */
  lemma AsciiHalf(s: string)
    requires IsAscii(s) && |s| % 2 == 0
    ensures ByteLen(s) % 2 == 0 && HalfOffset(s) == |s| / 2
  {
    ByteLenAscii(s);
  }

  /** Part 2 on a non-empty ASCII input of even length is its sum against
      the rotation by half its length. */
  lemma HalfwayFrom(input: string, k: nat)
    requires IsAscii(input) && |input| == 2 * k && k > 0
    ensures var answer := Total(Pairs(input, Rotate(input, k)));
      HalfwaySum(input) == if answer.None? then Err(NotADigit) else Ok(answer.value)
  {
    ModUnique(|input|, 2, k, 0);
    AsciiHalf(input);
    HalfwayTotal(input);
  }

  /** Zipping two joined lists pairs each part with its counterpart. */
  lemma PairsAppend(a1: string, a2: string, b1: string, b2: string)
    requires |a1| == |b1| && |a2| == |b2|
    ensures Pairs(a1 + a2, b1 + b2) == Pairs(a1, b1) + Pairs(a2, b2)
  {
  }

  /** The sum of a list of eight characters against another, four at a
      time. */
  lemma TotalHalves(a1: string, a2: string, b1: string, b2: string, x1: nat, x2: nat)
    requires |a1| == |b1| && |a2| == |b2|
    requires Total(Pairs(a1, b1)) == Some(x1) && Total(Pairs(a2, b2)) == Some(x2)
    ensures Total(Pairs(a1 + a2, b1 + b2)) == Some(x1 + x2)
  {
    PairsAppend(a1, a2, b1, b2);
    TotalAppend(Pairs(a1, b1), Pairs(a2, b2));
  }

  /** The eight-digit examples, "91212129" and "12131415", written as
      two runs of four. */
  const NextDigitLong := "9121" + "2129"
  const HalfwayLong := "1213" + "1415"

  /** The examples of part 1. */
  lemma NextDigitSamples()
    ensures NextDigitSum("1122") == Some(3)
    ensures NextDigitSum("1111") == Some(4)
    ensures NextDigitSum("1234") == Some(0)
    ensures NextDigitSum(NextDigitLong) == Some(9)
  {
    NextDigitTotal1();
    NextDigitTotal2();
    NextDigitTotal3();
    NextDigitTotal4();
    NextDigitFrom("1122", 3);
    NextDigitFrom("1111", 4);
    NextDigitFrom("1234", 0);
    NextDigitFrom(NextDigitLong, 9);
  }

  lemma NextDigitRotation1()
    ensures Rotate("1122", 3) == "2112"
  {
  }

  lemma NextDigitPairs1()
    ensures Pairs("1122", Rotate("1122", 3)) == [Some(0), Some(1), Some(0), Some(2)]
  {
    NextDigitRotation1();
  }

  lemma NextDigitTotal1()
    ensures Total(Pairs("1122", Rotate("1122", 3))) == Some(3)
  {
    NextDigitPairs1();
    TotalFour(0, 1, 0, 2);
  }

  lemma NextDigitRotation2()
    ensures Rotate("1111", 3) == "1111"
  {
  }

  lemma NextDigitPairs2()
    ensures Pairs("1111", Rotate("1111", 3)) == [Some(1), Some(1), Some(1), Some(1)]
  {
    NextDigitRotation2();
  }

  lemma NextDigitTotal2()
    ensures Total(Pairs("1111", Rotate("1111", 3))) == Some(4)
  {
    NextDigitPairs2();
    TotalFour(1, 1, 1, 1);
  }

  lemma NextDigitRotation3()
    ensures Rotate("1234", 3) == "4123"
  {
  }

  lemma NextDigitPairs3()
    ensures Pairs("1234", Rotate("1234", 3)) == [Some(0), Some(0), Some(0), Some(0)]
  {
    NextDigitRotation3();
  }

  lemma NextDigitTotal3()
    ensures Total(Pairs("1234", Rotate("1234", 3))) == Some(0)
  {
    NextDigitPairs3();
    TotalFour(0, 0, 0, 0);
  }

  lemma NextDigitTotal4()
    ensures Total(Pairs(NextDigitLong, Rotate(NextDigitLong, 7))) == Some(9)
  {
    assert Rotate(NextDigitLong, 7) == "9912" + "1212";
    assert Pairs("9121", "9912") == [Some(9), Some(0), Some(0), Some(0)];
    TotalFour(9, 0, 0, 0);
    assert Pairs("2129", "1212") == [Some(0), Some(0), Some(0), Some(0)];
    TotalFour(0, 0, 0, 0);
    TotalHalves("9121", "2129", "9912", "1212", 9, 0);
  }

  /** The examples of part 2. */
  lemma HalfwaySample1()
    ensures HalfwaySum("1212") == Ok(6)
  {
    HalfwayAscii();
    HalfwayTotal1();
    HalfwayFrom("1212", 2);
  }

  lemma HalfwaySample2()
    ensures HalfwaySum("1221") == Ok(0)
  {
    HalfwayAscii();
    HalfwayTotal2();
    HalfwayFrom("1221", 2);
  }

  lemma HalfwaySample3()
    ensures HalfwaySum("123425") == Ok(4)
  {
    HalfwayAscii();
    HalfwayTotal3();
    HalfwayFrom("123425", 3);
  }

  lemma HalfwaySample4()
    ensures HalfwaySum("123123") == Ok(12)
  {
    HalfwayAscii();
    HalfwayTotal4();
    HalfwayFrom("123123", 3);
  }

  lemma HalfwaySample5()
    ensures HalfwaySum(HalfwayLong) == Ok(4)
  {
    HalfwayAscii();
    HalfwayTotal5();
    HalfwayFrom(HalfwayLong, 4);
  }

  lemma HalfwayAscii()
    ensures IsAscii("1212") && IsAscii("1221") && IsAscii("123425") && IsAscii("123123")
    ensures IsAscii(HalfwayLong) && |HalfwayLong| == 8
  {
  }

  lemma HalfwayRotation1()
    ensures Rotate("1212", 2) == "1212"
  {
  }

  lemma HalfwayPairs1()
    ensures Pairs("1212", Rotate("1212", 2)) == [Some(1), Some(2), Some(1), Some(2)]
  {
    HalfwayRotation1();
  }

  lemma HalfwayTotal1()
    ensures Total(Pairs("1212", Rotate("1212", 2))) == Some(6)
  {
    HalfwayPairs1();
    TotalFour(1, 2, 1, 2);
  }

  lemma HalfwayRotation2()
    ensures Rotate("1221", 2) == "2112"
  {
  }

  lemma HalfwayPairs2()
    ensures Pairs("1221", Rotate("1221", 2)) == [Some(0), Some(0), Some(0), Some(0)]
  {
    HalfwayRotation2();
  }

  lemma HalfwayTotal2()
    ensures Total(Pairs("1221", Rotate("1221", 2))) == Some(0)
  {
    HalfwayPairs2();
    TotalFour(0, 0, 0, 0);
  }

  lemma HalfwayRotation3()
    ensures Rotate("123425", 3) == "425123"
  {
  }

  lemma HalfwayPairs3()
    ensures Pairs("123425", Rotate("123425", 3)) == [Some(0), Some(2), Some(0), Some(0), Some(2), Some(0)]
  {
    HalfwayRotation3();
  }

  lemma HalfwayTotal3()
    ensures Total(Pairs("123425", Rotate("123425", 3))) == Some(4)
  {
    HalfwayPairs3();
    TotalSix(0, 2, 0, 0, 2, 0);
  }

  lemma HalfwayRotation4()
    ensures Rotate("123123", 3) == "123123"
  {
  }

  lemma HalfwayPairs4()
    ensures Pairs("123123", Rotate("123123", 3)) == [Some(1), Some(2), Some(3), Some(1), Some(2), Some(3)]
  {
    HalfwayRotation4();
  }

  lemma HalfwayTotal4()
    ensures Total(Pairs("123123", Rotate("123123", 3))) == Some(12)
  {
    HalfwayPairs4();
    TotalSix(1, 2, 3, 1, 2, 3);
  }

  lemma HalfwayTotal5()
    ensures Total(Pairs(HalfwayLong, Rotate(HalfwayLong, 4))) == Some(4)
  {
    assert Rotate(HalfwayLong, 4) == "1415" + "1213";
    assert Pairs("1213", "1415") == [Some(1), Some(0), Some(1), Some(0)];
    TotalFour(1, 0, 1, 0);
    assert Pairs("1415", "1213") == [Some(1), Some(0), Some(1), Some(0)];
    TotalFour(1, 0, 1, 0);
    TotalHalves("1213", "1415", "1415", "1213", 2, 2);
  }
}
