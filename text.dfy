/** The pieces of Rust's `str` API that the puzzle programs use to read their
    input: `trim`, `split`, `split_whitespace`, `lines`, byte length, and the
    `parse` of integers and the `to_digit` of characters.

    Strings are sequences of Unicode scalar values, as Rust's `chars()` yields
    them; `str::len` counts UTF-8 bytes, which `ByteLen` models.
 */
module Text {
  import opened Wrappers

  /** Rust's `char::is_whitespace`: the Unicode White_Space property. */
  predicate IsWhitespace(c: char) {
    ('\t' <= c <= '\r') || c == ' ' || c == '\U{85}' || c == '\U{A0}' || c == '\U{1680}'
    || ('\U{2000}' <= c <= '\U{200A}') || c == '\U{2028}' || c == '\U{2029}'
    || c == '\U{202F}' || c == '\U{205F}' || c == '\U{3000}'
  }

  /** Number of bytes of `c` in UTF-8. */
  function Utf8Len(c: char): (n: nat)
    ensures 1 <= n <= 4
    ensures n == 1 <==> c as int < 0x80
  {
    if c as int < 0x80 then 1
    else if c as int < 0x800 then 2
    else if c as int < 0x1_0000 then 3
    else 4
  }

  /** Rust's `str::len`: the length in UTF-8 bytes. */
  function ByteLen(s: string): (n: nat)
    ensures n >= |s|
    ensures n == 0 <==> s == []
  {
    if s == [] then 0 else ByteLen(s[..|s| - 1]) + Utf8Len(s[|s| - 1])
  }

  predicate IsAscii(s: string) {
    forall i :: 0 <= i < |s| ==> s[i] as int < 0x80
  }

  lemma {:induction false} ByteLenAscii(s: string)
    requires IsAscii(s)
    ensures ByteLen(s) == |s|
  {
    if s != [] {
      ByteLenAscii(s[..|s| - 1]);
    }
  }

  // ---------------------------------------------------------------- trim

  function TrimStart(s: string): (r: string)
    ensures |r| <= |s|
  {
    if s != [] && IsWhitespace(s[0]) then TrimStart(s[1..]) else s
  }

  /** `TrimStart` drops exactly the leading whitespace. */
  lemma {:induction false} TrimStartSpec(s: string)
    ensures TrimStart(s) == s[|s| - |TrimStart(s)|..]
    ensures TrimStart(s) == [] || !IsWhitespace(TrimStart(s)[0])
    ensures forall i :: 0 <= i < |s| - |TrimStart(s)| ==> IsWhitespace(s[i])
  {
    if s != [] && IsWhitespace(s[0]) {
      TrimStartSpec(s[1..]);
    }
  }

  function TrimEnd(s: string): (r: string)
    ensures |r| <= |s|
  {
    if s != [] && IsWhitespace(s[|s| - 1]) then TrimEnd(s[..|s| - 1]) else s
  }

  /** `TrimEnd` drops exactly the trailing whitespace. */
  lemma {:induction false} TrimEndSpec(s: string)
    ensures TrimEnd(s) == s[..|TrimEnd(s)|]
    ensures TrimEnd(s) == [] || !IsWhitespace(TrimEnd(s)[|TrimEnd(s)| - 1])
    ensures forall i :: |TrimEnd(s)| <= i < |s| ==> IsWhitespace(s[i])
  {
    if s != [] && IsWhitespace(s[|s| - 1]) {
      TrimEndSpec(s[..|s| - 1]);
    }
  }

  /** Rust's `str::trim`. */
  function Trim(s: string): (r: string)
    ensures |r| <= |s|
  {
    TrimEnd(TrimStart(s))
  }

  /** Whitespace in front of a text that starts with a non-whitespace
      character is all `TrimStart` removes. */
  lemma {:induction false} TrimStartPadded(a: string, u: string)
    requires forall i :: 0 <= i < |a| ==> IsWhitespace(a[i])
    requires u == [] || !IsWhitespace(u[0])
    ensures TrimStart(a + u) == u
    decreases |a|
  {
    if a == [] {
      assert a + u == u;
    } else {
      TrimStartPadded(a[1..], u);
      assert (a + u)[1..] == a[1..] + u;
    }
  }

  /** Whitespace after a text that ends with a non-whitespace character
      is all `TrimEnd` removes. */
  lemma {:induction false} TrimEndPadded(t: string, b: string)
    requires forall i :: 0 <= i < |b| ==> IsWhitespace(b[i])
    requires t == [] || !IsWhitespace(t[|t| - 1])
    ensures TrimEnd(t + b) == t
    decreases |b|
  {
    if b == [] {
      assert t + b == t;
    } else {
      TrimEndPadded(t, b[..|b| - 1]);
      assert (t + b)[..|t + b| - 1] == t + b[..|b| - 1];
    }
  }

  /** `Trim` of a text padded by whitespace on both sides is the text. */
  lemma TrimPadded(a: string, t: string, b: string)
    requires forall i :: 0 <= i < |a| ==> IsWhitespace(a[i])
    requires forall i :: 0 <= i < |b| ==> IsWhitespace(b[i])
    requires t != [] && !IsWhitespace(t[0]) && !IsWhitespace(t[|t| - 1])
    ensures Trim(a + t + b) == t
  {
    assert a + t + b == a + (t + b);
    TrimStartPadded(a, t + b);
    TrimEndPadded(t, b);
  }

  /** `Trim` leaves no whitespace at either end, and leaves a text without
      whitespace at its ends as it is. */
  lemma TrimSpec(s: string)
    ensures Trim(s) == [] || (!IsWhitespace(Trim(s)[0]) && !IsWhitespace(Trim(s)[|Trim(s)| - 1]))
    ensures (s == [] || (!IsWhitespace(s[0]) && !IsWhitespace(s[|s| - 1]))) ==> Trim(s) == s
  {
    var t := TrimStart(s);
    TrimStartSpec(s);
    TrimEndSpec(t);
    var r := TrimEnd(t);
    if r != [] {
      assert r[0] == t[0];
    }
  }

  // ---------------------------------------------------------------- split

  /** Rust's `str::split` on one character: `n` separators give `n + 1` pieces. */
  function Split(s: string, sep: char): (r: seq<string>)
    ensures |r| >= 1
    ensures forall i :: 0 <= i < |r| ==> sep !in r[i]
    ensures |r| == 1 <==> sep !in s
  {
    if s == [] then [[]]
    else
      var rest := Split(s[1..], sep);
      if s[0] == sep then [[]] + rest
      else [[s[0]] + rest[0]] + rest[1..]
  }

  /** The inverse of `Split`: the pieces joined by the separator. */
  function Join(parts: seq<string>, sep: char): string
    requires |parts| >= 1
  {
    if |parts| == 1 then parts[0] else parts[0] + [sep] + Join(parts[1..], sep)
  }

  /** A leading separator ends an empty first piece. */
  lemma SplitSep(s: string, sep: char)
    ensures Split([sep] + s, sep) == [[]] + Split(s, sep)
  {
    assert ([sep] + s)[1..] == s;
  }

  /** A leading character other than the separator opens the first piece. */
  lemma SplitCons(c: char, s: string, sep: char)
    requires c != sep
    ensures Split([c] + s, sep) == [[c] + Split(s, sep)[0]] + Split(s, sep)[1..]
  {
    assert ([c] + s)[1..] == s;
  }

  /** A piece without the separator, then the separator, in front of a
      text adds that piece in front of the text's pieces. */
  lemma {:induction false} SplitOfJoinHead(p: string, t: string, sep: char)
    requires sep !in p
    ensures Split(p + [sep] + t, sep) == [p] + Split(t, sep)
    decreases |p|
  {
    if p == [] {
      assert p + [sep] + t == [sep] + t;
      SplitSep(t, sep);
    } else {
      SplitOfJoinHead(p[1..], t, sep);
      SplitOfJoinHeadStep(p, t, sep);
    }
  }

  /** The step of `SplitOfJoinHead`: one more character in front. */
  lemma SplitOfJoinHeadStep(p: string, t: string, sep: char)
    requires p != [] && sep !in p
    requires Split(p[1..] + [sep] + t, sep) == [p[1..]] + Split(t, sep)
    ensures Split(p + [sep] + t, sep) == [p] + Split(t, sep)
  {
    var x := p[1..] + [sep] + t;
    var rest := Split(x, sep);
    assert rest[0] == p[1..] && rest[1..] == Split(t, sep);
    assert p + [sep] + t == [p[0]] + x;
    SplitCons(p[0], x, sep);
    assert [p[0]] + p[1..] == p;
  }

  lemma {:induction false} SplitNoSep(p: string, sep: char)
    requires sep !in p
    ensures Split(p, sep) == [p]
    decreases |p|
  {
    if p != [] {
      SplitNoSep(p[1..], sep);
      assert [p[0]] + p[1..] == p;
    }
  }

  /** Splitting the joined pieces gives the pieces back. */
  lemma {:induction false} SplitJoin(parts: seq<string>, sep: char)
    requires |parts| >= 1
    requires forall i :: 0 <= i < |parts| ==> sep !in parts[i]
    ensures Split(Join(parts, sep), sep) == parts
  {
    if |parts| == 1 {
      SplitNoSep(parts[0], sep);
    } else {
      SplitJoin(parts[1..], sep);
      SplitOfJoinHead(parts[0], Join(parts[1..], sep), sep);
      assert [parts[0]] + parts[1..] == parts;
    }
  }

  /** Rust's `str::split` on a non-empty string pattern, matched left to right. */
  function SplitStr(s: string, sep: string): (r: seq<string>)
    requires |sep| > 0
    ensures |r| >= 1
    decreases |s|
  {
    if |s| < |sep| then [s]
    else if s[..|sep|] == sep then [[]] + SplitStr(s[|sep|..], sep)
    else
      var rest := SplitStr(s[1..], sep);
      [[s[0]] + rest[0]] + rest[1..]
  }

  /** A text in which the separator's first character does not occur is
      one piece. */
  lemma {:induction false} SplitStrNone(s: string, sep: string)
    requires |sep| > 0 && sep[0] !in s
    ensures SplitStr(s, sep) == [s]
    decreases |s|
  {
    if |s| >= |sep| {
      assert s[..|sep|][0] == s[0];
      SplitStrNone(s[1..], sep);
      assert [s[0]] + s[1..] == s;
    }
  }

  /** A piece in which the separator's first character does not occur,
      then the separator, in front of a text adds that piece in front of
      the text's pieces. */
  lemma {:induction false} SplitStrHead(a: string, b: string, sep: string)
    requires |sep| > 0 && sep[0] !in a
    ensures SplitStr(a + sep + b, sep) == [a] + SplitStr(b, sep)
    decreases |a|
  {
    var s := a + sep + b;
    if a == [] {
      assert s == sep + b && s[..|sep|] == sep && s[|sep|..] == b;
    } else {
      assert s[..|sep|][0] == a[0];
      assert s[1..] == a[1..] + sep + b;
      SplitStrHead(a[1..], b, sep);
      assert [a[0]] + a[1..] == a;
    }
  }

  /** Length of the run of non-whitespace characters that starts `s`. */
  function WordLen(s: string): (n: nat)
    ensures n <= |s|
    ensures forall i :: 0 <= i < n ==> !IsWhitespace(s[i])
    ensures n == |s| || IsWhitespace(s[n])
  {
    if s == [] || IsWhitespace(s[0]) then 0 else 1 + WordLen(s[1..])
  }

  /** A non-empty run of non-whitespace characters. */
  predicate IsWord(w: string) {
    w != [] && forall j :: 0 <= j < |w| ==> !IsWhitespace(w[j])
  }

  /** Rust's `str::split_whitespace`: the maximal runs of non-whitespace. */
  function Words(s: string): (r: seq<string>)
    ensures forall i :: 0 <= i < |r| ==> IsWord(r[i])
    decreases |s|
  {
    if s == [] then []
    else if IsWhitespace(s[0]) then Words(s[1..])
    else
      var n := WordLen(s);
      var w := s[..n];
      assert IsWord(w);
      [w] + Words(s[n..])
  }

  /** A run of non-whitespace followed by whitespace or nothing is one
      word long. */
  lemma {:induction false} WordLenOf(w: string, t: string)
    requires forall j :: 0 <= j < |w| ==> !IsWhitespace(w[j])
    requires t == [] || IsWhitespace(t[0])
    ensures WordLen(w + t) == |w|
    decreases |w|
  {
    if w != [] {
      WordLenOf(w[1..], t);
      assert (w + t)[1..] == w[1..] + t;
    } else {
      assert w + t == t;
    }
  }

  /** A word, then whitespace, in front of a text adds that word in front
      of the text's words. */
  lemma WordsHead(w: string, sep: char, t: string)
    requires IsWord(w) && IsWhitespace(sep)
    ensures Words(w + [sep] + t) == [w] + Words(t)
  {
    var s := w + [sep] + t;
    WordLenOf(w, [sep] + t);
    assert s == w + ([sep] + t);
    assert s[..|w|] == w && s[|w|..] == [sep] + t;
    assert ([sep] + t)[1..] == t;
  }

  /** A word alone is its only word. */
  lemma WordsOfWord(w: string)
    requires IsWord(w)
    ensures Words(w) == [w]
  {
    WordLenOf(w, []);
    assert w + [] == w;
    assert w[|w|..] == [];
  }

  /** Words joined by whitespace split back into those words. */
  lemma {:induction false} WordsJoin(parts: seq<string>, sep: char)
    requires |parts| >= 1 && IsWhitespace(sep)
    requires forall i :: 0 <= i < |parts| ==> IsWord(parts[i])
    ensures Words(Join(parts, sep)) == parts
  {
    if |parts| == 1 {
      WordsOfWord(parts[0]);
    } else {
      WordsJoin(parts[1..], sep);
      WordsHead(parts[0], sep, Join(parts[1..], sep));
      assert [parts[0]] + parts[1..] == parts;
    }
  }

  /** The text before the first `sep` and the text after it. */
  function SplitOnce(s: string, sep: char): (r: Option<(string, string)>)
    ensures r.None? <==> sep !in s
    ensures r.Some? ==> s == r.value.0 + [sep] + r.value.1 && sep !in r.value.0
  {
    if s == [] then None
    else if s[0] == sep then Some(([], s[1..]))
    else
      var rest := SplitOnce(s[1..], sep);
      if rest.None? then None
      else
        assert s == [s[0]] + s[1..];
        Some(([s[0]] + rest.value.0, rest.value.1))
  }

  /** A text without `sep`, then `sep`, then anything: the split is at
      that `sep`. */
  lemma {:induction false} SplitOnceOf(a: string, b: string, sep: char)
    requires sep !in a
    ensures SplitOnce(a + [sep] + b, sep) == Some((a, b))
    decreases |a|
  {
    var s := a + [sep] + b;
    if a == [] {
      assert s == [sep] + b && s[1..] == b;
    } else {
      assert s[0] == a[0] && s[1..] == a[1..] + [sep] + b;
      SplitOnceOf(a[1..], b, sep);
      assert [a[0]] + a[1..] == a;
    }
  }

  function StripCr(s: string): string {
    if s != [] && s[|s| - 1] == '\r' then s[..|s| - 1] else s
  }

  /** Rust's `str::lines`: pieces between line feeds, a final empty piece
      dropped, and one trailing carriage return stripped from each line. */
  function Lines(s: string): (r: seq<string>)
    ensures s == [] ==> r == []
    ensures forall i :: 0 <= i < |r| ==> '\n' !in r[i]
  {
    var pieces := Split(s, '\n');
    var kept := if pieces[|pieces| - 1] == [] then pieces[..|pieces| - 1] else pieces;
    seq(|kept|, i requires 0 <= i < |kept| => StripCr(kept[i]))
  }

  /** Lines joined by line feeds, none of them ending in a carriage return
      and the last one not empty, are read back as those lines. */
  lemma LinesJoin(parts: seq<string>)
    requires |parts| >= 1 && parts[|parts| - 1] != []
    requires forall i :: 0 <= i < |parts| ==> '\n' !in parts[i] && StripCr(parts[i]) == parts[i]
    ensures Lines(Join(parts, '\n')) == parts
  {
    SplitJoin(parts, '\n');
    LinesOfPieces(Join(parts, '\n'), parts);
  }

  /** The same lines, each ended by a line feed: the empty piece after the
      last line feed is dropped. */
  lemma LinesJoinEnded(parts: seq<string>)
    requires |parts| >= 1
    requires forall i :: 0 <= i < |parts| ==> '\n' !in parts[i] && StripCr(parts[i]) == parts[i]
    ensures Lines(Join(parts + [[]], '\n')) == parts
  {
    var all := parts + [[]];
    assert forall i :: 0 <= i < |all| ==> '\n' !in all[i];
    SplitJoin(all, '\n');
    var kept := Split(Join(all, '\n'), '\n');
    assert kept[..|kept| - 1] == parts;
  }

  lemma LinesOfPieces(s: string, parts: seq<string>)
    requires Split(s, '\n') == parts && parts[|parts| - 1] != []
    requires forall i :: 0 <= i < |parts| ==> StripCr(parts[i]) == parts[i]
    ensures Lines(s) == parts
  {
    assert |Lines(s)| == |parts|;
  }

  // ---------------------------------------------------------------- numbers

  predicate IsDigit(c: char) { '0' <= c <= '9' }

  predicate AllDigits(s: string) {
    forall i :: 0 <= i < |s| ==> IsDigit(s[i])
  }

  /** The value of a string of decimal digits. */
  function DigitsValue(s: string): nat
    requires AllDigits(s)
  {
    if s == [] then 0 else DigitsValue(s[..|s| - 1]) * 10 + (s[|s| - 1] as int - '0' as int)
  }

  /** Rust's integer `from_str` for a type whose values are `lo ..= hi`: an
      optional `+` (or `-` for a signed type), then at least one decimal digit,
      and the value in range.  `None` is Rust's `ParseIntError`. */
  function ParseInt(s: string, signed: bool, lo: int, hi: int): (r: Option<int>)
    ensures r.Some? ==> lo <= r.value <= hi
    ensures r.Some? ==> s != [] && (IsDigit(s[0]) || s[0] == '+' || (signed && s[0] == '-'))
  {
    if s == [] then None
    else
      var neg := signed && s[0] == '-';
      var digits := if s[0] == '+' || neg then s[1..] else s;
      if digits == [] || !AllDigits(digits) then None
      else
        var v := if neg then -(DigitsValue(digits) as int) else DigitsValue(digits);
        if lo <= v <= hi then Some(v) else None
  }

  const U32_MAX: int := 0xFFFF_FFFF
  const U64_MAX: int := 0xFFFF_FFFF_FFFF_FFFF
  const I32_MIN: int := -0x8000_0000
  const I32_MAX: int := 0x7FFF_FFFF
  const I64_MIN: int := -0x8000_0000_0000_0000
  const I64_MAX: int := 0x7FFF_FFFF_FFFF_FFFF

  /** `s.parse::<u32>()`. */
  function ParseU32(s: string): Option<int> { ParseInt(s, false, 0, U32_MAX) }

  /** `s.parse::<usize>()` on a 64-bit target. */
  function ParseUsize(s: string): Option<int> { ParseInt(s, false, 0, U64_MAX) }

  /** `s.parse::<i32>()`. */
  function ParseI32(s: string): Option<int> { ParseInt(s, true, I32_MIN, I32_MAX) }

  /** `s.parse::<i64>()`. */
  function ParseI64(s: string): Option<int> { ParseInt(s, true, I64_MIN, I64_MAX) }

  /** `map(|w| w.parse().expect(..)).collect()`: every word read by
      `parse`, or `None` (the panic) when some word is not a number. */
  function ParseAll(words: seq<string>, parse: string -> Option<int>): (r: Option<seq<int>>)
    ensures r.Some? ==> |r.value| == |words|
    ensures r.Some? ==> forall i {:trigger parse(words[i])} :: 0 <= i < |words| ==> parse(words[i]) == Some(r.value[i])
    ensures r.None? ==> exists i :: 0 <= i < |words| && parse(words[i]).None?
  {
    if words == [] then Some([])
    else
      var first := parse(words[0]);
      if first.None? then None
      else
        var rest := ParseAll(words[1..], parse);
        if rest.None? then
          var i :| 0 <= i < |words[1..]| && parse(words[1..][i]).None?;
          assert parse(words[i + 1]).None?;
          None
        else Some([first.value] + rest.value)
  }

  /** Words each read as the matching value are read as those values. */
  lemma {:induction false} ParseAllOf(words: seq<string>, xs: seq<int>, parse: string -> Option<int>)
    requires |words| == |xs| && forall i :: 0 <= i < |words| ==> parse(words[i]) == Some(xs[i])
    ensures ParseAll(words, parse) == Some(xs)
  {
    if words != [] {
      ParseAllOf(words[1..], xs[1..], parse);
      assert [xs[0]] + xs[1..] == xs;
    }
  }

  /** One word that is not a number makes the whole reading fail. */
  lemma ParseAllBad(words: seq<string>, i: nat, parse: string -> Option<int>)
    requires i < |words| && parse(words[i]).None?
    ensures ParseAll(words, parse).None?
  {
  }

  /** Reading one more word of a prefix extends its values by that word's. */
  lemma ParseAllSnoc(words: seq<string>, i: nat, parse: string -> Option<int>, xs: seq<int>, x: int)
    requires i < |words| && ParseAll(words[..i], parse) == Some(xs) && parse(words[i]) == Some(x)
    ensures ParseAll(words[..i + 1], parse) == Some(xs + [x])
  {
    var longer := words[..i + 1];
    assert forall k :: 0 <= k < i ==> longer[k] == words[..i][k];
    ParseAllOf(longer, xs + [x], parse);
  }

  /** One decimal digit, `d < 10`. */
  function DigitChar(d: nat): (c: char)
    requires d < 10
    ensures IsDigit(c)
  {
    ['0', '1', '2', '3', '4', '5', '6', '7', '8', '9'][d]
  }

  /** `format!("{}", n)` for an unsigned integer: no leading zeros. */
  function NatToString(n: nat): (s: string)
    ensures s != [] && AllDigits(s)
    ensures DigitsValue(s) == n
  {
    if n < 10 then [DigitChar(n)] else
      var s := NatToString(n / 10) + [DigitChar(n % 10)];
      assert s[..|s| - 1] == NatToString(n / 10);
      s
  }

  /** Printing a number and parsing it back as `usize` gives the number. */
  lemma ParseUsizeNatToString(n: nat)
    requires n <= U64_MAX
    ensures ParseUsize(NatToString(n)) == Some(n)
  {
    var s := NatToString(n);
    assert IsDigit(s[0]);
  }

  /** Printing a number and parsing it back as `u32` gives the number. */
  lemma ParseU32NatToString(n: nat)
    requires n <= U32_MAX
    ensures ParseU32(NatToString(n)) == Some(n)
  {
    var s := NatToString(n);
    assert IsDigit(s[0]);
  }

  /** `format!("{}", n)` for a signed integer: a `-` before the digits of a
      negative number. */
  function IntToString(n: int): (s: string)
    ensures s != [] && (IsDigit(s[0]) || s[0] == '-') && IsDigit(s[|s| - 1])
    ensures forall i :: 0 < i < |s| ==> IsDigit(s[i])
  {
    if n < 0 then "-" + NatToString(-n) else NatToString(n)
  }

  /** Printing a signed number and parsing it back gives the number. */
  lemma ParseIntToString(n: int, lo: int, hi: int)
    requires lo <= n <= hi
    ensures ParseInt(IntToString(n), true, lo, hi) == Some(n)
  {
    var s := IntToString(n);
    if n < 0 {
      assert s[1..] == NatToString(-n);
    } else {
      assert IsDigit(s[0]);
    }
  }

  lemma NatToStringNoSep(n: nat, sep: char)
    requires !IsDigit(sep)
    ensures sep !in NatToString(n)
  {
  }

  /** `char::to_digit(radix)` for radix 10 or 16. */
  function ToDigit(c: char, radix: nat): (r: Option<nat>)
    requires radix == 10 || radix == 16
    ensures r.Some? ==> r.value < radix
    ensures radix == 10 ==> (r.Some? <==> IsDigit(c))
  {
    if IsDigit(c) then Some(c as int - '0' as int)
    else if radix == 16 && 'a' <= c <= 'f' then Some(c as int - 'a' as int + 10)
    else if radix == 16 && 'A' <= c <= 'F' then Some(c as int - 'A' as int + 10)
    else None
  }
}
