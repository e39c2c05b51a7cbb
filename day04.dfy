/** The passphrase checks of day 4 (`day-04/src/main.rs`): a passphrase is
    valid when no word repeats (part 1), or when no word is an anagram of
    another (part 2); the answer is the number of valid lines.

    Both checks walk the words of the line, keeping the words (or their
    sorted letters) seen so far in a set and stopping at the first one seen
    before.
 */
module Day04 {
  import opened Text

  // ---------------------------------------------------------------- counting

  /** The number of lines the check accepts. */
  function CountValid(lines: seq<string>, valid: string -> bool): (n: nat)
    ensures n <= |lines|
  {
    if lines == [] then 0 else (if valid(lines[0]) then 1 else 0) + CountValid(lines[1..], valid)
  }

  /** `no_of_valid`: one for each line the check accepts. */
  function NoOfValid(input: string, valid: string -> bool): (n: nat)
    ensures n <= |Lines(input)|
  {
    CountValid(Lines(input), valid)
  }

  /** Every line is counted exactly when every line is valid, and none
      is exactly when no line is. */
  lemma {:induction false} CountValidBounds(lines: seq<string>, valid: string -> bool)
    ensures CountValid(lines, valid) == |lines| <==> forall i :: 0 <= i < |lines| ==> valid(lines[i])
    ensures CountValid(lines, valid) == 0 <==> forall i :: 0 <= i < |lines| ==> !valid(lines[i])
  {
    if lines != [] {
      CountValidBounds(lines[1..], valid);
      assert forall i :: 1 <= i < |lines| ==> lines[1..][i - 1] == lines[i];
    }
  }

  /** Counting two blocks of lines adds their counts. */
  lemma {:induction false} CountValidAppend(a: seq<string>, b: seq<string>, valid: string -> bool)
    ensures CountValid(a + b, valid) == CountValid(a, valid) + CountValid(b, valid)
  {
    if a != [] {
      CountValidAppend(a[1..], b, valid);
      assert (a + b)[1..] == a[1..] + b;
    } else {
      assert a + b == b;
    }
  }

  // ---------------------------------------------------------------- part 1

  /** No two words of the list are the same. */
  predicate Distinct(words: seq<string>) {
    forall i, j :: 0 <= i < j < |words| ==> words[i] != words[j]
  }

  /** `has_no_duplicates`: the words are pairwise distinct. */
  method HasNoDuplicates(password: string) returns (r: bool)
    ensures r <==> Distinct(Words(password))
  {
    var words := Words(password);
    var seen: set<string> := {};
    for i := 0 to |words|
      invariant forall w :: w in seen <==> w in words[..i]
      invariant Distinct(words[..i])
    {
      if words[i] in seen {
        assert words[i] in words[..i];
        var k :| 0 <= k < i && words[..i][k] == words[i];
        assert words[k] == words[i];
        return false;
      }
      seen := seen + {words[i]};
      assert words[..i + 1] == words[..i] + [words[i]];
    }
    assert words[..|words|] == words;
    return true;
  }

  // ---------------------------------------------------------------- part 2

  /** The characters of `s` are in ascending order. */
  predicate Sorted(s: string) {
    forall i, j :: 0 <= i < j < |s| ==> s[i] <= s[j]
  }

  /** The number of times `c` occurs in `s`. */
  function Occurrences(s: string, c: char): nat {
    if s == [] then 0 else (if s[0] == c then 1 else 0) + Occurrences(s[1..], c)
  }

  /** A character that occurs in `s` is at some index of `s`. */
  lemma {:induction false} OccursAt(s: string, c: char)
    requires Occurrences(s, c) > 0
    ensures exists j :: 0 <= j < |s| && s[j] == c
  {
    if s[0] != c {
      OccursAt(s[1..], c);
      var j :| 0 <= j < |s[1..]| && s[1..][j] == c;
      assert s[j + 1] == c;
    }
  }

  /** `c` in its place in the sorted `s`. */
  function Insert(c: char, s: string): (r: string)
    requires Sorted(s)
    ensures |r| == |s| + 1
    ensures forall i :: 0 <= i < |r| ==> r[i] == c || r[i] in s
    ensures Sorted(r)
    ensures forall x :: Occurrences(r, x) == Occurrences(s, x) + (if x == c then 1 else 0)
  {
    if s == [] || c <= s[0] then
      InsertFront(c, s);
      [c] + s
    else
      var rest := Insert(c, s[1..]);
      InsertBehind(c, s, rest);
      [s[0]] + rest
  }

  /** `c` goes in front of a sorted `s` whose first character is not
      smaller. */
  lemma InsertFront(c: char, s: string)
    requires Sorted(s) && (s == [] || c <= s[0])
    ensures Sorted([c] + s)
    ensures forall x :: Occurrences([c] + s, x) == Occurrences(s, x) + (if x == c then 1 else 0)
  {
    assert ([c] + s)[1..] == s;
  }

  /** `c` goes behind a smaller first character of `s`, into the rest. */
  lemma InsertBehind(c: char, s: string, rest: string)
    requires Sorted(s) && s != [] && s[0] < c
    requires forall i :: 0 <= i < |rest| ==> rest[i] == c || rest[i] in s[1..]
    requires Sorted(rest)
    requires forall x :: Occurrences(rest, x) == Occurrences(s[1..], x) + (if x == c then 1 else 0)
    ensures forall i :: 0 <= i < |[s[0]] + rest| ==> ([s[0]] + rest)[i] == c || ([s[0]] + rest)[i] in s
    ensures Sorted([s[0]] + rest)
    ensures forall x :: Occurrences([s[0]] + rest, x) == Occurrences(s, x) + (if x == c then 1 else 0)
  {
    var r := [s[0]] + rest;
    assert r[1..] == rest;
    forall i | 0 <= i < |rest|
      ensures s[0] <= rest[i] && (rest[i] == c || rest[i] in s)
    {
      if rest[i] != c {
        var k :| 0 <= k < |s[1..]| && s[1..][k] == rest[i];
        assert s[k + 1] == rest[i];
      }
    }
    forall i | 0 <= i < |r|
      ensures r[i] == c || r[i] in s
    {
      if i > 0 {
        assert r[i] == rest[i - 1];
      }
    }
  }

  /** `chars.sort()`: the characters of the word in ascending order. */
  function SortChars(w: string): (r: string)
    ensures Sorted(r)
    ensures forall x :: Occurrences(r, x) == Occurrences(w, x)
  {
    if w == [] then [] else Insert(w[0], SortChars(w[1..]))
  }

  /** One word is an anagram of the other: the same characters, each as
      often. */
  predicate Anagram(a: string, b: string) {
    forall c :: Occurrences(a, c) == Occurrences(b, c)
  }

  /** The first character of a sorted string is its least. */
  lemma SortedFirst(a: string, c: char)
    requires Sorted(a) && Occurrences(a, c) > 0
    ensures a[0] <= c
  {
    OccursAt(a, c);
  }

  /** Two sorted strings that are anagrams are the same string. */
  lemma {:induction false} SortedUnique(a: string, b: string)
    requires Sorted(a) && Sorted(b) && Anagram(a, b)
    ensures a == b
    decreases |a|
  {
    if a != [] {
      assert Occurrences(a, a[0]) > 0;
      assert b != [];
      assert Occurrences(b, b[0]) > 0;
      SortedFirst(a, b[0]);
      SortedFirst(b, a[0]);
      assert a[0] == b[0];
      assert Anagram(a[1..], b[1..]) by {
        forall x ensures Occurrences(a[1..], x) == Occurrences(b[1..], x) {
          assert Occurrences(a, x) == Occurrences(b, x);
        }
      }
      SortedUnique(a[1..], b[1..]);
      assert a == [a[0]] + a[1..] && b == [b[0]] + b[1..];
    }
  }

  /** The sorted characters of two words agree exactly when the words are
      anagrams. */
  lemma SortCharsAnagram(a: string, b: string)
    ensures SortChars(a) == SortChars(b) <==> Anagram(a, b)
  {
    if Anagram(a, b) {
      SortedUnique(SortChars(a), SortChars(b));
    }
  }

  /** No word of the list is an anagram of another. */
  predicate NoAnagrams(words: seq<string>) {
    forall i, j :: 0 <= i < j < |words| ==> !Anagram(words[i], words[j])
  }

  /** The sorted characters of each word. */
  function Keys(words: seq<string>): (r: seq<string>)
    ensures |r| == |words|
    ensures forall k :: 0 <= k < |r| ==> r[k] == SortChars(words[k])
  {
    seq(|words|, k requires 0 <= k < |words| => SortChars(words[k]))
  }

  /** The sorted forms are distinct exactly when no word is an anagram of
      another. */
  lemma KeysDistinct(words: seq<string>)
    ensures Distinct(Keys(words)) <==> NoAnagrams(words)
  {
    forall i, j | 0 <= i < j < |words|
      ensures Keys(words)[i] == Keys(words)[j] <==> Anagram(words[i], words[j])
    {
      SortCharsAnagram(words[i], words[j]);
    }
  }

  /** `has_no_anagrams`: the sorted forms of the words are pairwise
      distinct, that is, no word is an anagram of another. */
  method HasNoAnagrams(password: string) returns (r: bool)
    ensures r <==> NoAnagrams(Words(password))
  {
    var words := Words(password);
    ghost var keys := Keys(words);
    var seen: set<string> := {};
    r := true;
    for i := 0 to |words|
      invariant forall w :: w in seen <==> w in keys[..i]
      invariant Distinct(keys[..i])
    {
      var key := SortChars(words[i]);
      if key in seen {
        assert key in keys[..i];
        ghost var k :| 0 <= k < i && keys[..i][k] == key;
        assert keys[k] == keys[i];
        r := false;
        break;
      }
      seen := seen + {key};
      assert keys[..i + 1] == keys[..i] + [key];
    }
    if r {
      assert keys[..|words|] == keys;
    }
    KeysDistinct(words);
  }

  /** A passphrase with no anagrams has no repeated word either. */
  lemma NoAnagramsDistinct(words: seq<string>)
    requires NoAnagrams(words)
    ensures Distinct(words)
  {
    forall i, j | 0 <= i < j < |words|
      ensures words[i] != words[j]
    {
      assert !Anagram(words[i], words[j]);
    }
  }

  /** A passphrase without words passes both checks. */
  lemma EmptyValid(password: string)
    requires forall i :: 0 <= i < |password| ==> IsWhitespace(password[i])
    ensures Distinct(Words(password)) && NoAnagrams(Words(password))
    decreases |password|
  {
    if password != [] {
      EmptyValid(password[1..]);
    }
  }

  // ---------------------------------------------------------------- samples

  /** The check of the counting sample: the line `aa bb` only. */
  predicate IsAaBb(line: string) {
    line == "aa bb"
  }

  const CounterLines: seq<string> := ["aa", "aa bb aa", "aa bb", "aa bb"]
  const CounterInput: string := "aa\naa bb aa\naa bb\naa bb\n"

  /** The sample input is its four lines, each ended by a line feed. */
  lemma CounterInputJoined()
    ensures CounterInput == Join(CounterLines + [[]], '\n')
  {
    var lines := CounterLines + [[]];
    assert Join(lines[4..], '\n') == "";
    assert Join(lines[3..], '\n') == "aa bb\n";
    assert Join(lines[2..], '\n') == "aa bb\naa bb\n";
    assert Join(lines[1..], '\n') == "aa bb aa\naa bb\naa bb\n";
  }

  /** The sample input holds four lines. */
  lemma CounterInputLines()
    ensures Lines(CounterInput) == CounterLines
  {
    CounterInputJoined();
    LinesJoinEnded(CounterLines);
  }

  /** Two of the four sample lines are `aa bb`. */
  lemma SampleCounter()
    ensures NoOfValid(CounterInput, IsAaBb) == 2
  {
    CounterInputLines();
    assert CountValid(CounterLines[3..], IsAaBb) == 1;
    assert CounterLines[2..][1..] == CounterLines[3..];
    assert CountValid(CounterLines[2..], IsAaBb) == 2;
    assert CounterLines[1..][1..] == CounterLines[2..];
    assert CountValid(CounterLines[1..], IsAaBb) == 2;
  }

  /** A non-empty run of lower-case letters. */
  predicate Lowercase(w: string) {
    w != [] && forall j :: 0 <= j < |w| ==> 'a' <= w[j] <= 'z'
  }

  /** The words of a line of lower-case words joined by single spaces. */
  lemma WordsOfLine(line: string, words: seq<string>)
    requires |words| >= 1 && forall i :: 0 <= i < |words| ==> Lowercase(words[i])
    requires line == Join(words, ' ')
    ensures Words(line) == words
  {
    forall i | 0 <= i < |words|
      ensures IsWord(words[i])
    {
      assert Lowercase(words[i]);
    }
    WordsJoin(words, ' ');
  }

  const Dup1: string := "aa bb cc dd ee"
  const Dup2: string := "aa bb cc dd aa"
  const Dup3: string := "aa bb cc dd aaa"

  const DupWords1: seq<string> := ["aa", "bb", "cc", "dd", "ee"]
  const DupWords3: seq<string> := ["aa", "bb", "cc", "dd", "aaa"]

  /** The first sample is its words joined by spaces. */
  lemma Dup1Joined()
    ensures Dup1 == Join(DupWords1, ' ')
    ensures forall i :: 0 <= i < |DupWords1| ==> Lowercase(DupWords1[i])
  {
    assert Join(DupWords1[3..], ' ') == "dd ee";
    assert Join(DupWords1[1..], ' ') == "bb cc dd ee";
  }

  /** The third sample is its words joined by spaces. */
  lemma Dup3Joined()
    ensures Dup3 == Join(DupWords3, ' ')
    ensures forall i :: 0 <= i < |DupWords3| ==> Lowercase(DupWords3[i])
  {
    assert Join(DupWords3[3..], ' ') == "dd aaa";
    assert Join(DupWords3[1..], ' ') == "bb cc dd aaa";
  }

  /** The words of the first and third samples. */
  lemma DupWords()
    ensures Words(Dup1) == DupWords1 && Words(Dup3) == DupWords3
  {
    Dup1Joined();
    Dup3Joined();
    WordsOfLine(Dup1, DupWords1);
    WordsOfLine(Dup3, DupWords3);
  }

  /** The words of the first and third samples are pairwise different. */
  lemma DupDistinct()
    ensures Distinct(DupWords1) && Distinct(DupWords3)
  {
  }

  /** `aa bb cc dd ee` has no repeated word. */
  lemma SampleDistinct1()
    ensures Distinct(Words(Dup1))
  {
    DupWords();
    DupDistinct();
  }

  /** `aa bb cc dd aa` repeats `aa`. */
  lemma SampleDistinct2()
    ensures !Distinct(Words(Dup2))
  {
    var words := ["aa", "bb", "cc", "dd", "aa"];
    WordsOfLine(Dup2, words);
    assert words[0] == words[4];
  }

  /** `aa` and `aaa` are different words. */
  lemma SampleDistinct3()
    ensures Distinct(Words(Dup3))
  {
    DupWords();
    DupDistinct();
  }

  const Ana1: string := "abcde fghij"
  const Ana2: string := "abcde xyz ecdab"
  const Ana3: string := "a ab abc abd abf abj"
  const Ana4: string := "iiii oiii ooii oooi oooo"
  const Ana5: string := "oiii ioii iioi iiio"

  /** Words in which some character occurs a different number of times
      are not anagrams. */
  lemma NotAnagram(a: string, b: string, c: char)
    requires Occurrences(a, c) != Occurrences(b, c)
    ensures !Anagram(a, b)
  {
  }

  /** A line of words joined by spaces has no anagrams when its words
      have none. */
  lemma NoAnagramsOfLine(line: string, words: seq<string>)
    requires |words| >= 1 && forall i :: 0 <= i < |words| ==> Lowercase(words[i])
    requires line == Join(words, ' ')
    ensures NoAnagrams(Words(line)) == NoAnagrams(words)
  {
    WordsOfLine(line, words);
  }

  /** Two words that differ in how often `c` occurs. */
  lemma NoAnagramsPair(a: string, b: string, c: char)
    requires Occurrences(a, c) != Occurrences(b, c)
    ensures NoAnagrams([a, b])
  {
    NotAnagram(a, b, c);
  }

  const Words1: seq<string> := ["abcde", "fghij"]

  /** `a` occurs in the first word only. */
  lemma Words1NoAnagrams()
    ensures NoAnagrams(Words1)
  {
    NoAnagramsPair("abcde", "fghij", 'a');
  }

  /** `abcde fghij` has no anagrams. */
  lemma SampleAnagrams1()
    ensures NoAnagrams(Words(Ana1))
  {
    NoAnagramsOfLine(Ana1, Words1);
    Words1NoAnagrams();
  }

  /** The occurrences of `x` in a string with one more character in
      front. */
  lemma OccurrencesCons(c: char, s: string, x: char)
    ensures Occurrences([c] + s, x) == (if c == x then 1 else 0) + Occurrences(s, x)
  {
    assert ([c] + s)[1..] == s;
  }

  /** The occurrences of `x` among five characters. */
  lemma OccurrencesFive(a: char, b: char, c: char, d: char, e: char, x: char)
    ensures Occurrences([a, b, c, d, e], x) ==
      (if a == x then 1 else 0) + (if b == x then 1 else 0) + (if c == x then 1 else 0) +
      (if d == x then 1 else 0) + (if e == x then 1 else 0)
  {
    OccurrencesCons(e, [], x);
    OccurrencesCons(d, [e], x);
    OccurrencesCons(c, [d, e], x);
    OccurrencesCons(b, [c, d, e], x);
    OccurrencesCons(a, [b, c, d, e], x);
    assert [a] + [b, c, d, e] == [a, b, c, d, e];
    assert [b] + [c, d, e] == [b, c, d, e];
    assert [c] + [d, e] == [c, d, e];
    assert [d] + [e] == [d, e];
    assert [e] + [] == [e];
  }

  /** Five characters in another order. */
  lemma Reordered(a: char, b: char, c: char, d: char, e: char)
    ensures Anagram([a, b, c, d, e], [e, c, d, a, b])
  {
    forall x ensures Occurrences([a, b, c, d, e], x) == Occurrences([e, c, d, a, b], x) {
      OccurrencesFive(a, b, c, d, e, x);
      OccurrencesFive(e, c, d, a, b, x);
    }
  }

  /** `ecdab` is an anagram of `abcde`. */
  lemma SampleAnagrams2()
    ensures !NoAnagrams(Words(Ana2))
  {
    var words := ["abcde", "xyz", "ecdab"];
    NoAnagramsOfLine(Ana2, words);
    Reordered('a', 'b', 'c', 'd', 'e');
    assert Anagram(words[0], words[2]);
  }

  const Words3: seq<string> := ["a", "ab", "abc", "abd", "abf", "abj"]

  /** Each word of the third sample holds a character, its last, that no
      earlier word holds. */
  lemma Words3NoAnagrams()
    ensures NoAnagrams(Words3)
  {
    forall i, j | 0 <= i < j < |Words3|
      ensures !Anagram(Words3[i], Words3[j])
    {
      if j == 1 { NotAnagram(Words3[i], Words3[j], 'b'); }
      else if j == 2 { Words3Fresh2(i); }
      else if j == 3 { Words3Fresh3(i); }
      else if j == 4 { Words3Fresh4(i); }
      else { Words3Fresh5(i); }
    }
  }

  lemma Words3Fresh2(i: nat)
    requires i < 2
    ensures !Anagram(Words3[i], Words3[2])
  {
    NotAnagram(Words3[i], Words3[2], 'c');
  }

  lemma Words3Fresh3(i: nat)
    requires i < 3
    ensures !Anagram(Words3[i], Words3[3])
  {
    NotAnagram(Words3[i], Words3[3], 'd');
  }

  lemma Words3Fresh4(i: nat)
    requires i < 4
    ensures !Anagram(Words3[i], Words3[4])
  {
    NotAnagram(Words3[i], Words3[4], 'f');
  }

  lemma Words3Fresh5(i: nat)
    requires i < 5
    ensures !Anagram(Words3[i], Words3[5])
  {
    NotAnagram(Words3[i], Words3[5], 'j');
  }

  /** The third sample is its words joined by spaces. */
  lemma Ana3Joined()
    ensures Ana3 == Join(Words3, ' ')
    ensures forall i :: 0 <= i < |Words3| ==> Lowercase(Words3[i])
  {
    assert Join(Words3[4..], ' ') == "abf abj";
    assert Join(Words3[2..], ' ') == "abc abd abf abj";
  }

  /** `a ab abc abd abf abj` has no anagrams. */
  lemma SampleAnagrams3()
    ensures NoAnagrams(Words(Ana3))
  {
    Ana3Joined();
    NoAnagramsOfLine(Ana3, Words3);
    Words3NoAnagrams();
  }

  const Words4: seq<string> := ["iiii", "oiii", "ooii", "oooi", "oooo"]

  /** Each word of the fourth sample has a different number of `o`s. */
  lemma Words4NoAnagrams()
    ensures NoAnagrams(Words4)
  {
    assert Occurrences(Words4[0], 'o') == 0 && Occurrences(Words4[1], 'o') == 1;
    assert Occurrences(Words4[2], 'o') == 2 && Occurrences(Words4[3], 'o') == 3;
    assert Occurrences(Words4[4], 'o') == 4;
    forall i, j | 0 <= i < j < |Words4|
      ensures !Anagram(Words4[i], Words4[j])
    {
      NotAnagram(Words4[i], Words4[j], 'o');
    }
  }

  /** `iiii oiii ooii oooi oooo` has no anagrams. */
  lemma SampleAnagrams4()
    ensures NoAnagrams(Words(Ana4))
  {
    NoAnagramsOfLine(Ana4, Words4);
    Words4NoAnagrams();
  }

  /** One character moved to the front. */
  lemma MovedToFront(a: char, b: char)
    ensures Anagram([a, b, b, b], [b, a, b, b])
  {
  }

  /** `ioii` is an anagram of `oiii`. */
  lemma SampleAnagrams5()
    ensures !NoAnagrams(Words(Ana5))
  {
    var words := ["oiii", "ioii", "iioi", "iiio"];
    NoAnagramsOfLine(Ana5, words);
    MovedToFront('o', 'i');
    assert Anagram(words[0], words[1]);
  }
}
