/** Day 9 (`day-09/src/main.rs`): a stream of nested groups `{...}`
    holding garbage `<...>`, in which `!` cancels the next character.
    `read_group` reads one group recursively from a shared character
    iterator; here the iterator is the index of the next character, which
    each call takes and gives back.

    The model states the recursive reader against a flat scan that keeps
    only the current depth: every group opened scores its depth, and every
    character inside garbage that is neither cancelled, a `!`, nor the
    closing `>` is counted.  Counts are unbounded: the `u32` overflow of
    the source is not modelled.
 */
module Day09 {
  import opened Wrappers

  /** The index after a `!` at `i` and the character it cancels, if any. */
  function Skip(s: string, i: nat): (j: nat)
    requires i < |s|
    ensures i < j <= |s| && j <= i + 2
  {
    if i + 2 <= |s| then i + 2 else |s|
  }

  /** The flat scan of `s` from index `i` with `depth` groups open and the
      garbage flag: the sum of the depths of the groups opened, and the
      number of garbage characters, up to the end of the input or the
      closing of the outermost group. */
  function Scan(s: string, i: nat, depth: nat, garbage: bool): (r: (nat, nat))
    decreases |s| - i
  {
    if i >= |s| || depth == 0 then (0, 0)
    else
      var c := s[i];
      if c == '!' then Scan(s, Skip(s, i), depth, garbage)
      else if c == '>' && garbage then Scan(s, i + 1, depth, false)
      else if c == '<' && !garbage then Scan(s, i + 1, depth, true)
      else if c == '{' && !garbage then
        var rest := Scan(s, i + 1, depth + 1, false);
        (depth + 1 + rest.0, rest.1)
      else if c == '}' && !garbage then Scan(s, i + 1, depth - 1, false)
      else if garbage then
        var rest := Scan(s, i + 1, depth, garbage);
        (rest.0, rest.1 + 1)
      else Scan(s, i + 1, depth, garbage)
  }

  /** `total_score`: `None` (the panic) unless the input starts with `{`;
      otherwise the outermost group's score and the garbage count. */
  function Totals(input: string): (r: Option<(nat, nat)>)
    ensures r.None? <==> input == [] || input[0] != '{'
    ensures r.Some? ==> r.value.0 >= 1
  {
    if input == [] || input[0] != '{' then None
    else
      var rest := Scan(input, 1, 1, false);
      Some((1 + rest.0, rest.1))
  }

  /** `read_group`: reads the group whose `{` is just before index `i`,
      at depth `parent + 1`, and returns its score (its depth plus its
      nested groups' scores), the index after its `}` (or the end), and the
      garbage count raised by the garbage inside it.  What the scan finds
      from `i` is what this group scores and counts, then what the scan
      one level out finds from where it stopped. */
  method ReadGroup(s: string, i: nat, parent: nat, garbageCount: nat) returns (score: nat, j: nat, garbage: nat)
    requires i <= |s|
    ensures i <= j <= |s|
    ensures score >= parent + 1 && garbage >= garbageCount
    ensures Scan(s, i, parent + 1, false).0 == score - (parent + 1) + Scan(s, j, parent, false).0
    ensures Scan(s, i, parent + 1, false).1 == garbage - garbageCount + Scan(s, j, parent, false).1
    decreases |s| - i
  {
    var depth := parent + 1;
    score := depth;
    garbage := garbageCount;
    var inGarbage := false;
    j := i;
    while j < |s|
      invariant i <= j <= |s| && score >= depth && garbage >= garbageCount
      invariant Scan(s, i, depth, false).0 == score - depth + Scan(s, j, depth, inGarbage).0
      invariant Scan(s, i, depth, false).1 == garbage - garbageCount + Scan(s, j, depth, inGarbage).1
      decreases |s| - j
    {
      var c := s[j];
      j := j + 1;
      if c == '!' {
        if j < |s| {
          j := j + 1;
        }
      } else if c == '>' && inGarbage {
        inGarbage := false;
      } else if c == '<' && !inGarbage {
        inGarbage := true;
      } else if c == '{' && !inGarbage {
        var inner, next, counted := ReadGroup(s, j, depth, garbage);
        score := score + inner;
        garbage := counted;
        j := next;
      } else if c == '}' && !inGarbage {
        return;
      } else if inGarbage {
        garbage := garbage + 1;
      }
    }
  }

  /** `total_score`. */
  method TotalScore(input: string) returns (r: Option<(nat, nat)>)
    ensures r == Totals(input)
  {
    if input == [] || input[0] != '{' {
      return None;
    }
    var score, _, garbage := ReadGroup(input, 1, 0, 0);
    r := Some((score, garbage));
  }

  // ---------------------------------------------------------------- properties

  /** The garbage counted from `i` is at most the characters left. */
  lemma {:induction false} GarbageBound(s: string, i: nat, depth: nat, garbage: bool)
    requires i <= |s|
    ensures Scan(s, i, depth, garbage).1 <= |s| - i
    decreases |s| - i
  {
    if i < |s| && depth > 0 {
      var c := s[i];
      if c == '!' {
        GarbageBound(s, Skip(s, i), depth, garbage);
      } else if c == '{' && !garbage {
        GarbageBound(s, i + 1, depth + 1, false);
      } else if c == '}' && !garbage {
        GarbageBound(s, i + 1, depth - 1, false);
      } else if (c == '>' && garbage) || (c == '<' && !garbage) {
        GarbageBound(s, i + 1, depth, !garbage);
      } else {
        GarbageBound(s, i + 1, depth, garbage);
      }
    }
  }

  /** Inside garbage, a run of characters other than `!` and `>` is counted
      whole, whatever it holds (`<`, `{` and `}` included), and leaves the
      score alone. */
  lemma {:induction false} GarbageRun(s: string, i: nat, k: nat, depth: nat)
    requires i + k <= |s| && depth > 0
    requires forall m :: i <= m < i + k ==> s[m] != '!' && s[m] != '>'
    ensures Scan(s, i, depth, true) == (Scan(s, i + k, depth, true).0, Scan(s, i + k, depth, true).1 + k)
    decreases k
  {
    if k > 0 {
      GarbageRun(s, i + 1, k - 1, depth);
    }
  }

  /** A single group holding only the garbage `t`, where `t` has no `!` and
      no `>`, scores 1 and counts every character of `t`. */
  lemma GarbageOnly(t: string)
    requires '!' !in t && '>' !in t
    ensures Totals("{<" + t + ">}") == Some((1, |t|))
  {
    var s := "{<" + t + ">}";
    forall m | 2 <= m < 2 + |t|
      ensures s[m] != '!' && s[m] != '>'
    {
      assert s[m] == t[m - 2];
    }
    GarbageRun(s, 2, |t|, 1);
    assert s[2 + |t|] == '>' && s[3 + |t|] == '}';
    assert Scan(s, 2 + |t|, 1, true) == Scan(s, 3 + |t|, 1, false) == Scan(s, 4 + |t|, 0, false) == (0, 0);
  }

  /** Outside garbage and with no `<` left, nothing more is counted as
      garbage. */
  lemma {:induction false} NoGarbage(s: string, i: nat, depth: nat)
    requires forall m :: i <= m < |s| ==> s[m] != '<'
    ensures Scan(s, i, depth, false).1 == 0
    decreases |s| - i
  {
    if i < |s| && depth > 0 {
      var c := s[i];
      if c == '!' {
        NoGarbage(s, Skip(s, i), depth);
      } else if c == '{' {
        NoGarbage(s, i + 1, depth + 1);
      } else if c == '}' {
        NoGarbage(s, i + 1, depth - 1);
      } else {
        NoGarbage(s, i + 1, depth);
      }
    }
  }

  // ---------------------------------------------------------------- samples

  // The tests of both parts.  Each input is spelled one character at a
  // time, which is the same as giving the text.

  /** `{}`: the empty group scores 1. */
  lemma ScoreEmpty(s: string)
    requires |s| == 2 && s[0] == '{' && s[1] == '}'
    ensures Totals(s) == Some((1, 0))
  {
    assert Scan(s, 2, 0, false) == (0, 0);
    assert Scan(s, 1, 1, false) == (0, 0);
  }

  /** `{{{}}}`: three nested groups score 1 + 2 + 3. */
  lemma ScoreNested(s: string)
    requires |s| == 6 && s[0] == '{' && s[1] == '{' && s[2] == '{' && s[3] == '}' && s[4] == '}'
    requires s[5] == '}'
    ensures Totals(s) == Some((6, 0))
  {
    assert Scan(s, 6, 0, false) == (0, 0);
    assert Scan(s, 5, 1, false) == (0, 0);
    assert Scan(s, 4, 2, false) == (0, 0);
    assert Scan(s, 3, 3, false) == (0, 0);
    assert Scan(s, 2, 2, false) == (3, 0);
    assert Scan(s, 1, 1, false) == (5, 0);
  }

  /** `{{},{}}`: two groups inside one score 1 + 2 + 2. */
  lemma ScoreSiblings(s: string)
    requires |s| == 7 && s[0] == '{' && s[1] == '{' && s[2] == '}' && s[3] == ',' && s[4] == '{'
    requires s[5] == '}' && s[6] == '}'
    ensures Totals(s) == Some((5, 0))
  {
    assert Scan(s, 7, 0, false) == (0, 0);
    assert Scan(s, 6, 1, false) == (0, 0);
    assert Scan(s, 5, 2, false) == (0, 0);
    assert Scan(s, 4, 1, false) == (2, 0);
    assert Scan(s, 3, 1, false) == (2, 0);
    assert Scan(s, 2, 2, false) == (2, 0);
    assert Scan(s, 1, 1, false) == (4, 0);
  }

  /** `{{{},{},{{}}}}`: its groups score 16. */
  lemma ScoreMixed(s: string)
    requires |s| == 14 && s[0] == '{' && s[1] == '{' && s[2] == '{' && s[3] == '}' && s[4] == ','
    requires s[5] == '{' && s[6] == '}' && s[7] == ',' && s[8] == '{' && s[9] == '{' && s[10] == '}'
    requires s[11] == '}' && s[12] == '}' && s[13] == '}'
    ensures Totals(s) == Some((16, 0))
  {
    assert Scan(s, 14, 0, false) == (0, 0);
    assert Scan(s, 13, 1, false) == (0, 0);
    assert Scan(s, 12, 2, false) == (0, 0);
    assert Scan(s, 11, 3, false) == (0, 0);
    assert Scan(s, 10, 4, false) == (0, 0);
    assert Scan(s, 9, 3, false) == (4, 0);
    assert Scan(s, 8, 2, false) == (7, 0);
    assert Scan(s, 7, 2, false) == (7, 0);
    assert Scan(s, 6, 3, false) == (7, 0);
    assert Scan(s, 5, 2, false) == (10, 0);
    assert Scan(s, 4, 2, false) == (10, 0);
    assert Scan(s, 3, 3, false) == (10, 0);
    assert Scan(s, 2, 2, false) == (13, 0);
    assert Scan(s, 1, 1, false) == (15, 0);
  }

  /** `{<a>,<a>,<a>,<a>}`: garbage is no group: one group, scoring 1. */
  lemma ScoreGarbageOnly(s: string)
    requires |s| == 17 && s[0] == '{' && s[1] == '<' && s[2] == 'a' && s[3] == '>' && s[4] == ','
    requires s[5] == '<' && s[6] == 'a' && s[7] == '>' && s[8] == ',' && s[9] == '<' && s[10] == 'a'
    requires s[11] == '>' && s[12] == ',' && s[13] == '<' && s[14] == 'a' && s[15] == '>'
    requires s[16] == '}'
    ensures Totals(s) == Some((1, 4))
  {
    assert Scan(s, 17, 0, false) == (0, 0);
    assert Scan(s, 16, 1, false) == (0, 0);
    assert Scan(s, 15, 1, true) == (0, 0);
    assert Scan(s, 14, 1, true) == (0, 1);
    assert Scan(s, 13, 1, false) == (0, 1);
    assert Scan(s, 12, 1, false) == (0, 1);
    assert Scan(s, 11, 1, true) == (0, 1);
    assert Scan(s, 10, 1, true) == (0, 2);
    assert Scan(s, 9, 1, false) == (0, 2);
    assert Scan(s, 8, 1, false) == (0, 2);
    assert Scan(s, 7, 1, true) == (0, 2);
    assert Scan(s, 6, 1, true) == (0, 3);
    assert Scan(s, 5, 1, false) == (0, 3);
    assert Scan(s, 4, 1, false) == (0, 3);
    assert Scan(s, 3, 1, true) == (0, 3);
    assert Scan(s, 2, 1, true) == (0, 4);
    assert Scan(s, 1, 1, false) == (0, 4);
  }

  /** `{{<ab>},{<ab>},{<ab>},{<ab>}}`: four groups holding garbage inside one score 9. */
  lemma ScoreGarbageGroups(s: string)
    requires |s| == 29 && s[0] == '{' && s[1] == '{' && s[2] == '<' && s[3] == 'a' && s[4] == 'b'
    requires s[5] == '>' && s[6] == '}' && s[7] == ',' && s[8] == '{' && s[9] == '<' && s[10] == 'a'
    requires s[11] == 'b' && s[12] == '>' && s[13] == '}' && s[14] == ',' && s[15] == '{'
    requires s[16] == '<' && s[17] == 'a' && s[18] == 'b' && s[19] == '>' && s[20] == '}'
    requires s[21] == ',' && s[22] == '{' && s[23] == '<' && s[24] == 'a' && s[25] == 'b'
    requires s[26] == '>' && s[27] == '}' && s[28] == '}'
    ensures Totals(s) == Some((9, 8))
  {
    assert Scan(s, 29, 0, false) == (0, 0);
    assert Scan(s, 28, 1, false) == (0, 0);
    assert Scan(s, 27, 2, false) == (0, 0);
    assert Scan(s, 26, 2, true) == (0, 0);
    assert Scan(s, 25, 2, true) == (0, 1);
    assert Scan(s, 24, 2, true) == (0, 2);
    assert Scan(s, 23, 2, false) == (0, 2);
    assert Scan(s, 22, 1, false) == (2, 2);
    assert Scan(s, 21, 1, false) == (2, 2);
    assert Scan(s, 20, 2, false) == (2, 2);
    assert Scan(s, 19, 2, true) == (2, 2);
    assert Scan(s, 18, 2, true) == (2, 3);
    assert Scan(s, 17, 2, true) == (2, 4);
    assert Scan(s, 16, 2, false) == (2, 4);
    assert Scan(s, 15, 1, false) == (4, 4);
    assert Scan(s, 14, 1, false) == (4, 4);
    assert Scan(s, 13, 2, false) == (4, 4);
    assert Scan(s, 12, 2, true) == (4, 4);
    assert Scan(s, 11, 2, true) == (4, 5);
    assert Scan(s, 10, 2, true) == (4, 6);
    assert Scan(s, 9, 2, false) == (4, 6);
    assert Scan(s, 8, 1, false) == (6, 6);
    assert Scan(s, 7, 1, false) == (6, 6);
    assert Scan(s, 6, 2, false) == (6, 6);
    assert Scan(s, 5, 2, true) == (6, 6);
    assert Scan(s, 4, 2, true) == (6, 7);
    assert Scan(s, 3, 2, true) == (6, 8);
    assert Scan(s, 2, 2, false) == (6, 8);
    assert Scan(s, 1, 1, false) == (8, 8);
  }

  /** `{{<!!>},{<!!>},{<!!>},{<!!>}}`: a cancelled `!` leaves the garbage closable: 9. */
  lemma ScoreCancelled(s: string)
    requires |s| == 29 && s[0] == '{' && s[1] == '{' && s[2] == '<' && s[3] == '!' && s[4] == '!'
    requires s[5] == '>' && s[6] == '}' && s[7] == ',' && s[8] == '{' && s[9] == '<' && s[10] == '!'
    requires s[11] == '!' && s[12] == '>' && s[13] == '}' && s[14] == ',' && s[15] == '{'
    requires s[16] == '<' && s[17] == '!' && s[18] == '!' && s[19] == '>' && s[20] == '}'
    requires s[21] == ',' && s[22] == '{' && s[23] == '<' && s[24] == '!' && s[25] == '!'
    requires s[26] == '>' && s[27] == '}' && s[28] == '}'
    ensures Totals(s) == Some((9, 0))
  {
    assert Scan(s, 29, 0, false) == (0, 0);
    assert Scan(s, 28, 1, false) == (0, 0);
    assert Scan(s, 27, 2, false) == (0, 0);
    assert Scan(s, 26, 2, true) == (0, 0);
    assert Scan(s, 24, 2, true) == (0, 0);
    assert Scan(s, 23, 2, false) == (0, 0);
    assert Scan(s, 22, 1, false) == (2, 0);
    assert Scan(s, 21, 1, false) == (2, 0);
    assert Scan(s, 20, 2, false) == (2, 0);
    assert Scan(s, 19, 2, true) == (2, 0);
    assert Scan(s, 17, 2, true) == (2, 0);
    assert Scan(s, 16, 2, false) == (2, 0);
    assert Scan(s, 15, 1, false) == (4, 0);
    assert Scan(s, 14, 1, false) == (4, 0);
    assert Scan(s, 13, 2, false) == (4, 0);
    assert Scan(s, 12, 2, true) == (4, 0);
    assert Scan(s, 10, 2, true) == (4, 0);
    assert Scan(s, 9, 2, false) == (4, 0);
    assert Scan(s, 8, 1, false) == (6, 0);
    assert Scan(s, 7, 1, false) == (6, 0);
    assert Scan(s, 6, 2, false) == (6, 0);
    assert Scan(s, 5, 2, true) == (6, 0);
    assert Scan(s, 3, 2, true) == (6, 0);
    assert Scan(s, 2, 2, false) == (6, 0);
    assert Scan(s, 1, 1, false) == (8, 0);
  }

  /** `{{<a!>},{<a!>},{<a!>},{<ab>}}`: a cancelled `>` leaves the garbage open, hiding three groups: 3. */
  lemma ScoreCancelledClose(s: string)
    requires |s| == 29 && s[0] == '{' && s[1] == '{' && s[2] == '<' && s[3] == 'a' && s[4] == '!'
    requires s[5] == '>' && s[6] == '}' && s[7] == ',' && s[8] == '{' && s[9] == '<' && s[10] == 'a'
    requires s[11] == '!' && s[12] == '>' && s[13] == '}' && s[14] == ',' && s[15] == '{'
    requires s[16] == '<' && s[17] == 'a' && s[18] == '!' && s[19] == '>' && s[20] == '}'
    requires s[21] == ',' && s[22] == '{' && s[23] == '<' && s[24] == 'a' && s[25] == 'b'
    requires s[26] == '>' && s[27] == '}' && s[28] == '}'
    ensures Totals(s) == Some((3, 17))
  {
    assert Scan(s, 29, 0, false) == (0, 0);
    assert Scan(s, 28, 1, false) == (0, 0);
    assert Scan(s, 27, 2, false) == (0, 0);
    assert Scan(s, 26, 2, true) == (0, 0);
    assert Scan(s, 25, 2, true) == (0, 1);
    assert Scan(s, 24, 2, true) == (0, 2);
    assert Scan(s, 23, 2, true) == (0, 3);
    assert Scan(s, 22, 2, true) == (0, 4);
    assert Scan(s, 21, 2, true) == (0, 5);
    assert Scan(s, 20, 2, true) == (0, 6);
    assert Scan(s, 18, 2, true) == (0, 6);
    assert Scan(s, 17, 2, true) == (0, 7);
    assert Scan(s, 16, 2, true) == (0, 8);
    assert Scan(s, 15, 2, true) == (0, 9);
    assert Scan(s, 14, 2, true) == (0, 10);
    assert Scan(s, 13, 2, true) == (0, 11);
    assert Scan(s, 11, 2, true) == (0, 11);
    assert Scan(s, 10, 2, true) == (0, 12);
    assert Scan(s, 9, 2, true) == (0, 13);
    assert Scan(s, 8, 2, true) == (0, 14);
    assert Scan(s, 7, 2, true) == (0, 15);
    assert Scan(s, 6, 2, true) == (0, 16);
    assert Scan(s, 4, 2, true) == (0, 16);
    assert Scan(s, 3, 2, true) == (0, 17);
    assert Scan(s, 2, 2, false) == (0, 17);
    assert Scan(s, 1, 1, false) == (2, 17);
  }

  /** `{<>}`: empty garbage counts 0. */
  lemma GarbageEmpty(s: string)
    requires |s| == 4 && s[0] == '{' && s[1] == '<' && s[2] == '>' && s[3] == '}'
    ensures Totals(s) == Some((1, 0))
  {
    assert Scan(s, 4, 0, false) == (0, 0);
    assert Scan(s, 3, 1, false) == (0, 0);
    assert Scan(s, 2, 1, true) == (0, 0);
    assert Scan(s, 1, 1, false) == (0, 0);
  }

  /** `{<random characters>}`: 17 characters of garbage. */
  lemma GarbageRandom(s: string)
    requires |s| == 21 && s[0] == '{' && s[1] == '<' && s[2] == 'r' && s[3] == 'a' && s[4] == 'n'
    requires s[5] == 'd' && s[6] == 'o' && s[7] == 'm' && s[8] == ' ' && s[9] == 'c' && s[10] == 'h'
    requires s[11] == 'a' && s[12] == 'r' && s[13] == 'a' && s[14] == 'c' && s[15] == 't'
    requires s[16] == 'e' && s[17] == 'r' && s[18] == 's' && s[19] == '>' && s[20] == '}'
    ensures Totals(s) == Some((1, 17))
  {
    assert Scan(s, 21, 0, false) == (0, 0);
    assert Scan(s, 20, 1, false) == (0, 0);
    assert Scan(s, 19, 1, true) == (0, 0);
    assert Scan(s, 18, 1, true) == (0, 1);
    assert Scan(s, 17, 1, true) == (0, 2);
    assert Scan(s, 16, 1, true) == (0, 3);
    assert Scan(s, 15, 1, true) == (0, 4);
    assert Scan(s, 14, 1, true) == (0, 5);
    assert Scan(s, 13, 1, true) == (0, 6);
    assert Scan(s, 12, 1, true) == (0, 7);
    assert Scan(s, 11, 1, true) == (0, 8);
    assert Scan(s, 10, 1, true) == (0, 9);
    assert Scan(s, 9, 1, true) == (0, 10);
    assert Scan(s, 8, 1, true) == (0, 11);
    assert Scan(s, 7, 1, true) == (0, 12);
    assert Scan(s, 6, 1, true) == (0, 13);
    assert Scan(s, 5, 1, true) == (0, 14);
    assert Scan(s, 4, 1, true) == (0, 15);
    assert Scan(s, 3, 1, true) == (0, 16);
    assert Scan(s, 2, 1, true) == (0, 17);
    assert Scan(s, 1, 1, false) == (0, 17);
  }

  /** `{<<<<>}`: `<` inside garbage is counted: 3. */
  lemma GarbageOpens(s: string)
    requires |s| == 7 && s[0] == '{' && s[1] == '<' && s[2] == '<' && s[3] == '<' && s[4] == '<'
    requires s[5] == '>' && s[6] == '}'
    ensures Totals(s) == Some((1, 3))
  {
    assert Scan(s, 7, 0, false) == (0, 0);
    assert Scan(s, 6, 1, false) == (0, 0);
    assert Scan(s, 5, 1, true) == (0, 0);
    assert Scan(s, 4, 1, true) == (0, 1);
    assert Scan(s, 3, 1, true) == (0, 2);
    assert Scan(s, 2, 1, true) == (0, 3);
    assert Scan(s, 1, 1, false) == (0, 3);
  }

  /** `{<{!>}>}`: a cancelled `>` is not counted: 2. */
  lemma GarbageCancelledClose(s: string)
    requires |s| == 8 && s[0] == '{' && s[1] == '<' && s[2] == '{' && s[3] == '!' && s[4] == '>'
    requires s[5] == '}' && s[6] == '>' && s[7] == '}'
    ensures Totals(s) == Some((1, 2))
  {
    assert Scan(s, 8, 0, false) == (0, 0);
    assert Scan(s, 7, 1, false) == (0, 0);
    assert Scan(s, 6, 1, true) == (0, 0);
    assert Scan(s, 5, 1, true) == (0, 1);
    assert Scan(s, 3, 1, true) == (0, 1);
    assert Scan(s, 2, 1, true) == (0, 2);
    assert Scan(s, 1, 1, false) == (0, 2);
  }

  /** `{<!!>}`: a cancelled `!` is not counted: 0. */
  lemma GarbageCancelledBang(s: string)
    requires |s| == 6 && s[0] == '{' && s[1] == '<' && s[2] == '!' && s[3] == '!' && s[4] == '>'
    requires s[5] == '}'
    ensures Totals(s) == Some((1, 0))
  {
    assert Scan(s, 6, 0, false) == (0, 0);
    assert Scan(s, 5, 1, false) == (0, 0);
    assert Scan(s, 4, 1, true) == (0, 0);
    assert Scan(s, 2, 1, true) == (0, 0);
    assert Scan(s, 1, 1, false) == (0, 0);
  }

  /** `{<!!!>>}`: `!!` then `!>` are all cancelled: 0. */
  lemma GarbageCancelledBoth(s: string)
    requires |s| == 8 && s[0] == '{' && s[1] == '<' && s[2] == '!' && s[3] == '!' && s[4] == '!'
    requires s[5] == '>' && s[6] == '>' && s[7] == '}'
    ensures Totals(s) == Some((1, 0))
  {
    assert Scan(s, 8, 0, false) == (0, 0);
    assert Scan(s, 7, 1, false) == (0, 0);
    assert Scan(s, 6, 1, true) == (0, 0);
    assert Scan(s, 4, 1, true) == (0, 0);
    assert Scan(s, 2, 1, true) == (0, 0);
    assert Scan(s, 1, 1, false) == (0, 0);
  }

  /** `{<{o"i!a,<{i<a>}`: quotes, `{` and `<` inside garbage are counted: 10. */
  lemma GarbageMixed(s: string)
    requires |s| == 16 && s[0] == '{' && s[1] == '<' && s[2] == '{' && s[3] == 'o' && s[4] == '"'
    requires s[5] == 'i' && s[6] == '!' && s[7] == 'a' && s[8] == ',' && s[9] == '<' && s[10] == '{'
    requires s[11] == 'i' && s[12] == '<' && s[13] == 'a' && s[14] == '>' && s[15] == '}'
    ensures Totals(s) == Some((1, 10))
  {
    assert Scan(s, 16, 0, false) == (0, 0);
    assert Scan(s, 15, 1, false) == (0, 0);
    assert Scan(s, 14, 1, true) == (0, 0);
    assert Scan(s, 13, 1, true) == (0, 1);
    assert Scan(s, 12, 1, true) == (0, 2);
    assert Scan(s, 11, 1, true) == (0, 3);
    assert Scan(s, 10, 1, true) == (0, 4);
    assert Scan(s, 9, 1, true) == (0, 5);
    assert Scan(s, 8, 1, true) == (0, 6);
    assert Scan(s, 6, 1, true) == (0, 6);
    assert Scan(s, 5, 1, true) == (0, 7);
    assert Scan(s, 4, 1, true) == (0, 8);
    assert Scan(s, 3, 1, true) == (0, 9);
    assert Scan(s, 2, 1, true) == (0, 10);
    assert Scan(s, 1, 1, false) == (0, 10);
  }
}
