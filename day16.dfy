/** The permutation dance of day 16 (`day-16/src/main.rs`): sixteen
    programs in a line, moved by spins, exchanges of positions and
    exchanges of partners, the whole dance repeated `limit` times.

    `run_instructions` remembers every order it has seen in a map from the
    order to the round it was seen in, and at the first repeat jumps to the
    order the remaining rounds would end in.  The map `insert` overwrites
    the round of the repeated order, so when the remaining rounds are a
    whole number of cycles the lookup finds nothing and panics; the model
    keeps that (`RunInstructions`, `RunSpec`) and proves the evidently
    intended shortcut (`RunFixed`) equal to dancing `limit` times.
 */
module Day16 {
  import opened Wrappers
  import opened Text
  import opened Repetition
  import opened Arith

  datatype Instruction = Spin(n: nat) | Exchange(i: nat, j: nat) | Partner(x: char, y: char)

  // ---------------------------------------------------------------- parse

  /** `usize::from_str`. */
  function ParseIndex(s: string): (r: Option<nat>)
    ensures r.Some? <==> ParseUsize(s).Some?
    ensures r.Some? ==> ParseUsize(s) == Some(r.value as int)
  {
    var n := ParseUsize(s);
    if n.None? then None else Some(n.value)
  }

  /** `char::from_str`: exactly one character. */
  function ParseChar(s: string): (r: Option<char>)
    ensures r.Some? <==> |s| == 1
    ensures r.Some? ==> s == [r.value]
  {
    if |s| == 1 then Some(s[0]) else None
  }

  /** `get_parts_of_instruction`: the text after the letter split on `/`,
      the first two pieces parsed; a missing piece or a piece that does not
      parse panics, and pieces after the second are never read. */
  function GetParts<T>(instruction: string, parse: string -> Option<T>): (r: Option<(T, T)>)
    requires instruction != []
    ensures var parts := Split(instruction[1..], '/');
      r.Some? <==> |parts| >= 2 && parse(parts[0]).Some? && parse(parts[1]).Some?
    ensures var parts := Split(instruction[1..], '/');
      r.Some? ==> parse(parts[0]) == Some(r.value.0) && parse(parts[1]) == Some(r.value.1)
  {
    var parts := Split(instruction[1..], '/');
    if |parts| < 2 then None
    else
      var a := parse(parts[0]);
      var b := parse(parts[1]);
      if a.None? || b.None? then None else Some((a.value, b.value))
  }

  /** One instruction of `parse`, chosen by its first letter.  `Err` holds
      the instruction text: its `unwrap` or the unknown letter panics (an
      empty instruction panics on the slice `[0..1]`). */
  function ParseInstruction(instruction: string): (r: Result<Instruction, string>)
    ensures r.Err? ==> r.error == instruction
    ensures instruction == [] || instruction[0] !in "sxp" ==> r.Err?
    ensures r.Ok? && r.value.Spin? ==>
      instruction[0] == 's' && ParseIndex(instruction[1..]) == Some(r.value.n)
    ensures r.Ok? && r.value.Exchange? ==>
      instruction[0] == 'x' && GetParts(instruction, ParseIndex) == Some((r.value.i, r.value.j))
    ensures r.Ok? && r.value.Partner? ==>
      instruction[0] == 'p' && GetParts(instruction, ParseChar) == Some((r.value.x, r.value.y))
  {
    if instruction == [] then Err(instruction)
    else if instruction[0] == 's' then
      var n := ParseIndex(instruction[1..]);
      if n.None? then Err(instruction) else Ok(Spin(n.value))
    else if instruction[0] == 'x' then
      var parts := GetParts(instruction, ParseIndex);
      if parts.None? then Err(instruction) else Ok(Exchange(parts.value.0, parts.value.1))
    else if instruction[0] == 'p' then
      var parts := GetParts(instruction, ParseChar);
      if parts.None? then Err(instruction) else Ok(Partner(parts.value.0, parts.value.1))
    else Err(instruction)
  }

  /** The comma-separated pieces of the trimmed input. */
  function Pieces(input: string): seq<string> {
    Split(Trim(input), ',')
  }

  /** The result of every piece, in order. */
  function ParseEach(pieces: seq<string>): (r: seq<Result<Instruction, string>>)
    ensures |r| == |pieces| && forall i :: 0 <= i < |pieces| ==> r[i] == ParseInstruction(pieces[i])
  {
    seq(|pieces|, i requires 0 <= i < |pieces| => ParseInstruction(pieces[i]))
  }

  /** `parse`: every piece of the trimmed input is an instruction; `Err` is
      the first piece that panics. */
  function Parse(input: string): Result<seq<Instruction>, string> {
    Collect(ParseEach(Pieces(input)))
  }

  /** One instruction per piece, each the parse of its piece, and a single
      bad piece makes the whole parse fail. */
  lemma ParsePieces(input: string)
    ensures Parse(input).Ok? <==> forall i :: 0 <= i < |Pieces(input)| ==> ParseInstruction(Pieces(input)[i]).Ok?
    ensures Parse(input).Ok? ==> |Parse(input).value| == |Pieces(input)|
    ensures Parse(input).Ok? ==> forall i :: 0 <= i < |Pieces(input)| ==>
      ParseInstruction(Pieces(input)[i]) == Ok(Parse(input).value[i])
  {
  }

  /** How the puzzle writes an instruction. */
  function Show(i: Instruction): string {
    match i
    case Spin(n) => "s" + NatToString(n)
    case Exchange(a, b) => "x" + NatToString(a) + "/" + NatToString(b)
    case Partner(a, b) => "p" + [a] + "/" + [b]
  }

  /** An instruction whose operands `usize` and `char` can hold parses back
      from its written form. */
  predicate Writable(i: Instruction) {
    match i
    case Spin(n) => n <= U64_MAX
    case Exchange(a, b) => a <= U64_MAX && b <= U64_MAX
    case Partner(a, b) => a != '/' && b != '/'
  }

  lemma ParseShow(i: Instruction)
    requires Writable(i)
    ensures ParseInstruction(Show(i)) == Ok(i)
  {
    match i
    case Spin(n) => ParseShowSpin(n);
    case Exchange(a, b) => ParseShowExchange(a, b);
    case Partner(a, b) => ParseShowPartner(a, b);
  }

  lemma ParseShowSpin(n: nat)
    requires n <= U64_MAX
    ensures ParseInstruction(Show(Spin(n))) == Ok(Spin(n))
  {
    assert Show(Spin(n))[1..] == NatToString(n);
    ParseUsizeNatToString(n);
  }

  lemma ParseShowExchange(a: nat, b: nat)
    requires a <= U64_MAX && b <= U64_MAX
    ensures ParseInstruction(Show(Exchange(a, b))) == Ok(Exchange(a, b))
  {
    var s := Show(Exchange(a, b));
    var sa, sb := NatToString(a), NatToString(b);
    assert s[1..] == sa + ['/'] + sb;
    NatToStringNoSep(a, '/');
    NatToStringNoSep(b, '/');
    SplitOfJoinHead(sa, sb, '/');
    SplitNoSep(sb, '/');
    assert Split(s[1..], '/') == [sa, sb];
    ParseUsizeNatToString(a);
    ParseUsizeNatToString(b);
  }

  lemma ParseShowPartner(a: char, b: char)
    requires a != '/' && b != '/'
    ensures ParseInstruction(Show(Partner(a, b))) == Ok(Partner(a, b))
  {
    var s := Show(Partner(a, b));
    assert s[1..] == [a] + ['/'] + [b];
    SplitOfJoinHead([a], [b], '/');
    SplitNoSep([b], '/');
    assert Split(s[1..], '/') == [[a], [b]];
  }

  // ---------------------------------------------------------------- moves

  /** The line rotated right by `k`: the last `k` programs, in order, in
      front of the others. */
  function Rotated(p: seq<char>, k: nat): (r: seq<char>)
    requires k <= |p|
    ensures |r| == |p|
  {
    p[|p| - k..] + p[..|p| - k]
  }

  /** The two positions exchanged (`Vec::swap`). */
  function Swap(p: seq<char>, i: nat, j: nat): (r: seq<char>)
    requires i < |p| && j < |p|
    ensures |r| == |p| && r[i] == p[j] && r[j] == p[i]
    ensures forall k :: 0 <= k < |p| && k != i && k != j ==> r[k] == p[k]
  {
    p[i := p[j]][j := p[i]]
  }

  /** `iter().position`: the first position holding `c`. */
  function Position(p: seq<char>, c: char): (r: Option<nat>)
    ensures r.None? <==> c !in p
    ensures r.Some? ==> r.value < |p| && p[r.value] == c && c !in p[..r.value]
  {
    if p == [] then None
    else if p[0] == c then Some(0)
    else
      var t := Position(p[1..], c);
      if t.None? then None
      else
        assert p[..t.value + 1] == [p[0]] + p[1..][..t.value];
        Some(t.value + 1)
  }

  /** One dance move; `None` where it panics: a spin of an empty line, a
      position past the end, a partner not in the line. */
  function Move(p: seq<char>, m: Instruction): (r: Option<seq<char>>)
    ensures r.Some? ==> |r.value| == |p|
  {
    match m
    case Spin(n) =>
      if p == [] then (if n == 0 then Some(p) else None)
      else Some(Rotated(p, n % |p|))
    case Exchange(a, b) =>
      if a < |p| && b < |p| then Some(Swap(p, a, b)) else None
    case Partner(a, b) =>
      var i := Position(p, a);
      var j := Position(p, b);
      if i.None? || j.None? then None else Some(Swap(p, i.value, j.value))
  }

  /** A spin moves the last `n` programs to the front, in order, when `n`
      is at most the length of the line; a longer spin goes round again. */
  lemma SpinMovesLast(p: seq<char>, n: nat)
    requires 0 < n <= |p|
    ensures Move(p, Spin(n)).Some?
    ensures Move(p, Spin(n)).value[..n] == p[|p| - n..]
    ensures Move(p, Spin(n)).value[n..] == p[..|p| - n]
  {
    if n == |p| {
      assert n % |p| == 0;
      assert p[|p| - n..] == p;
    } else {
      assert n % |p| == n;
    }
  }

  /** In a line of distinct programs a partner move exchanges the two
      named programs and keeps the others in place. */
  lemma PartnerSwapsNames(p: seq<char>, a: char, b: char)
    requires a in p && b in p
    requires forall x, y :: 0 <= x < y < |p| ==> p[x] != p[y]
    ensures Move(p, Partner(a, b)).Some?
    ensures forall k :: 0 <= k < |p| ==>
      Move(p, Partner(a, b)).value[k] == (if p[k] == a then b else if p[k] == b then a else p[k])
    ensures multiset(Move(p, Partner(a, b)).value) == multiset(p)
  {
    var i := Position(p, a).value;
    var j := Position(p, b).value;
    SwapMultiset(p, i, j);
  }

  lemma SwapMultiset(p: seq<char>, i: nat, j: nat)
    requires i < |p| && j < |p|
    ensures multiset(Swap(p, i, j)) == multiset(p)
  {
  }

  /** Every move only reorders the programs. */
  lemma MovePermutes(p: seq<char>, m: Instruction)
    requires Move(p, m).Some?
    ensures multiset(Move(p, m).value) == multiset(p)
  {
    match m
    case Spin(n) =>
      if p != [] {
        var k := n % |p|;
        assert p == p[..|p| - k] + p[|p| - k..];
      }
    case Exchange(a, b) =>
      SwapMultiset(p, a, b);
    case Partner(a, b) =>
      SwapMultiset(p, Position(p, a).value, Position(p, b).value);
  }

  /** One round: every instruction in order. */
  function Dance(p: seq<char>, instructions: seq<Instruction>): Option<seq<char>> {
    Fold(Move, p, instructions)
  }

  /** A whole dance only reorders the programs. */
  lemma {:induction false} DancePermutes(p: seq<char>, instructions: seq<Instruction>)
    requires Dance(p, instructions).Some?
    ensures multiset(Dance(p, instructions).value) == multiset(p)
    decreases |instructions|
  {
    if instructions != [] {
      var init := instructions[..|instructions| - 1];
      DancePermutes(p, init);
      MovePermutes(Dance(p, init).value, instructions[|instructions| - 1]);
    }
  }

  /** `limit` rounds of the dance. */
  function Rounds(p: seq<char>, instructions: seq<Instruction>, limit: nat): Option<seq<char>> {
    Repeat(DanceWith(instructions), p, limit)
  }

  /** The dance as a step of `Repeat`. */
  function DanceWith(instructions: seq<Instruction>): seq<char> -> Option<seq<char>> {
    q => Dance(q, instructions)
  }

  // ------------------------------------------------------- the dance loop

  /** The first index of `x` in `s`. */
  function IndexOf(s: seq<seq<char>>, x: seq<char>): (i: nat)
    requires x in s
    ensures i < |s| && s[i] == x && x !in s[..i]
  {
    if s[0] == x then 0
    else
      var i := IndexOf(s[1..], x);
      assert s[..i + 1] == [s[0]] + s[1..][..i];
      i + 1
  }

  /** The loop of `run_instructions`, as written, from round `|history|`
      on: `p` is the current order and `history[j]` the order after round
      `j`.  At the first repeat it looks up the round `target`; the repeated
      order no longer holds its first round in the map, so a `target` equal
      to that round finds nothing and panics. */
  function Search(instructions: seq<Instruction>, limit: nat, p: seq<char>, history: seq<seq<char>>): Option<seq<char>>
    decreases limit - |history|
  {
    if |history| >= limit then Some(p)
    else
      var q := Dance(p, instructions);
      if q.None? then None
      else if q.value in history then Shortcut(history, q.value, limit)
      else Search(instructions, limit, q.value, history + [q.value])
  }

  /** The shortcut as written, when the order after round `|history|` was
      seen before. */
  function Shortcut(history: seq<seq<char>>, order: seq<char>, limit: nat): Option<seq<char>>
    requires order in history && |history| < limit
  {
    var cycleBeginning := IndexOf(history, order);
    var loopNo := |history|;
    var remaining := (limit - loopNo - 1) % (loopNo - cycleBeginning);
    if remaining == 0 then None else Some(history[cycleBeginning + remaining])
  }

  /** `run_instructions` as written. */
  function RunSpec(programs: string, instructions: seq<Instruction>, limit: nat): Option<string> {
    Search(instructions, limit, Trim(programs), [])
  }

  /** The shortcut as evidently intended: the order after round `target`,
      which is the repeated order itself when `target` is where the cycle
      begins. */
  function SearchFixed(instructions: seq<Instruction>, limit: nat, p: seq<char>, history: seq<seq<char>>): Option<seq<char>>
    decreases limit - |history|
  {
    if |history| >= limit then Some(p)
    else
      var q := Dance(p, instructions);
      if q.None? then None
      else if q.value in history then ShortcutFixed(history, q.value, limit)
      else SearchFixed(instructions, limit, q.value, history + [q.value])
  }

  function ShortcutFixed(history: seq<seq<char>>, order: seq<char>, limit: nat): Option<seq<char>>
    requires order in history && |history| < limit
  {
    var cycleBeginning := IndexOf(history, order);
    var loopNo := |history|;
    var remaining := (limit - loopNo - 1) % (loopNo - cycleBeginning);
    Some(history[cycleBeginning + remaining])
  }

  function RunFixed(programs: string, instructions: seq<Instruction>, limit: nat): Option<string> {
    SearchFixed(instructions, limit, Trim(programs), [])
  }

  /** The corrected shortcut ends in the order `limit` rounds of the dance
      give. */
  lemma RunFixedCorrect(programs: string, instructions: seq<Instruction>, limit: nat)
    ensures RunFixed(programs, instructions, limit) == Rounds(Trim(programs), instructions, limit)
  {
    SearchFixedCorrect(instructions, limit, Trim(programs), Trim(programs), []);
  }

  /** `history[j]` is the order after `j + 1` rounds from `p0`. */
  predicate Recorded(p0: seq<char>, instructions: seq<Instruction>, history: seq<seq<char>>) {
    forall j :: 0 <= j < |history| ==> Rounds(p0, instructions, j + 1) == Some(history[j])
  }

  lemma {:induction false} SearchFixedCorrect(instructions: seq<Instruction>, limit: nat, p0: seq<char>,
                                                p: seq<char>, history: seq<seq<char>>)
    requires |history| <= limit
    requires Rounds(p0, instructions, |history|) == Some(p)
    requires Recorded(p0, instructions, history)
    ensures SearchFixed(instructions, limit, p, history) == Rounds(p0, instructions, limit)
    decreases limit - |history|
  {
    var loopNo := |history|;
    if loopNo < limit {
      var q := Dance(p, instructions);
      assert Rounds(p0, instructions, loopNo + 1) == q;
      if q.None? {
        RepeatAdd(DanceWith(instructions), p0, loopNo + 1, limit - loopNo - 1);
      } else if q.value in history {
        CycleCase(instructions, limit, p0, q.value, history);
      } else {
        RecordedSnoc(p0, instructions, history, q.value);
        SearchFixedCorrect(instructions, limit, p0, q.value, history + [q.value]);
      }
    }
  }

  lemma RecordedSnoc(p0: seq<char>, instructions: seq<Instruction>, history: seq<seq<char>>, q: seq<char>)
    requires Recorded(p0, instructions, history)
    requires Rounds(p0, instructions, |history| + 1) == Some(q)
    ensures Recorded(p0, instructions, history + [q])
  {
  }

  /** The order after round `|history|` was seen after round `cb`: the
      shortcut lands on the order `limit` rounds give. */
  lemma CycleCase(instructions: seq<Instruction>, limit: nat, p0: seq<char>, q: seq<char>, history: seq<seq<char>>)
    requires |history| < limit && q in history
    requires Rounds(p0, instructions, |history| + 1) == Some(q)
    requires Recorded(p0, instructions, history)
    ensures ShortcutFixed(history, q, limit) == Rounds(p0, instructions, limit)
  {
    var cb := IndexOf(history, q);
    CycleJump(instructions, limit, p0, history, cb, (limit - |history| - 1) % (|history| - cb));
  }

  lemma CycleJump(instructions: seq<Instruction>, limit: nat, p0: seq<char>, history: seq<seq<char>>, cb: nat, rem: nat)
    requires cb < |history| < limit && rem == (limit - |history| - 1) % (|history| - cb)
    requires Rounds(p0, instructions, |history| + 1) == Some(history[cb])
    requires Recorded(p0, instructions, history)
    ensures cb + rem < |history| && Rounds(p0, instructions, limit) == Some(history[cb + rem])
  {
    RecordedAt(p0, instructions, history, cb);
    RecordedAt(p0, instructions, history, cb + rem);
    RoundsShortcut(instructions, p0, cb + 1, |history| + 1, limit, |history| - cb, rem);
  }

  lemma RecordedAt(p0: seq<char>, instructions: seq<Instruction>, history: seq<seq<char>>, j: nat)
    requires Recorded(p0, instructions, history) && j < |history|
    ensures Rounds(p0, instructions, j + 1) == Some(history[j])
  {
  }

  /** An order that comes back after `b` rounds, first seen after `a`:
      `limit` rounds end where `a + (limit - b) % (b - a)` rounds do. */
  lemma RoundsShortcut(instructions: seq<Instruction>, p0: seq<char>, a: nat, b: nat, limit: nat, c: nat, rem: nat)
    requires a < b <= limit && c == b - a && rem == (limit - b) % c
    requires Rounds(p0, instructions, a) == Rounds(p0, instructions, b)
    ensures Rounds(p0, instructions, limit) == Rounds(p0, instructions, a + rem)
  {
    RepeatShortcut(DanceWith(instructions), p0, a, b, limit, c, rem);
  }

  /** The shortcut as written panics where the remaining rounds are a whole
      number of cycles: with no instructions every round repeats the first
      order, and two rounds find nothing to return. */
  lemma CyclePanics()
    ensures RunSpec("abc", [], 2) == None
    ensures Rounds("abc", [], 2) == Some("abc")
  {
    assert Trim("abc") == "abc" by { TrimSpec("abc"); }
    assert Dance("abc", []) == Some("abc");
    assert Search([], 2, "abc", ["abc"]) == None;
  }

  // ---------------------------------------------------- the imperative code

  /** `Spin(number)`: `number` times the last program popped and inserted
      at the front. */
  method SpinInPlace(programs0: seq<char>, number: nat) returns (r: Option<seq<char>>)
    ensures r == Move(programs0, Spin(number))
  {
    if programs0 == [] {
      return if number == 0 then Some(programs0) else None;
    }
    var programs := programs0;
    ghost var turn := 0;
    for k := 0 to number
      invariant turn == k % |programs0| && programs == Rotated(programs0, turn)
    {
      var c := programs[|programs| - 1];
      programs := programs[..|programs| - 1];
      programs := [c] + programs;
      RotatedStep(programs0, turn);
      ModNext(k, |programs0|);
      turn := if turn + 1 == |programs0| then 0 else turn + 1;
    }
    r := Some(programs);
  }

  /** One more pop and insert rotates one further. */
  lemma RotatedStep(p: seq<char>, j: nat)
    requires j < |p|
    ensures [Rotated(p, j)[|p| - 1]] + Rotated(p, j)[..|p| - 1] ==
      Rotated(p, if j + 1 == |p| then 0 else j + 1)
  {
    var n := |p|;
    var a, b := p[n - j..], p[..n - j];
    var q := a + b;
    assert q[n - 1] == b[n - j - 1] == p[n - j - 1];
    assert q[..n - 1] == a + b[..n - j - 1];
    if j + 1 < n {
      assert p[n - j - 1..] == [p[n - j - 1]] + a;
    } else {
      assert a == p[1..] && b == [p[0]];
      assert p == [p[0]] + p[1..];
    }
  }

  /** The body of the instruction loop: one move applied to the line. */
  method ApplyMove(programs: seq<char>, m: Instruction) returns (r: Option<seq<char>>)
    ensures r == Move(programs, m)
  {
    match m {
      case Spin(number) =>
        r := SpinInPlace(programs, number);
      case Exchange(a, b) =>
        if !(a < |programs| && b < |programs|) {
          return None;
        }
        r := Some(Swap(programs, a, b));
      case Partner(a, b) =>
        var i := Position(programs, a);
        var j := Position(programs, b);
        if i.None? || j.None? {
          return None;
        }
        r := Some(Swap(programs, i.value, j.value));
    }
  }

  /** One round: the instructions applied in order. */
  method DanceInPlace(programs0: seq<char>, instructions: seq<Instruction>) returns (r: Option<seq<char>>)
    ensures r == Dance(programs0, instructions)
  {
    var programs := programs0;
    for i := 0 to |instructions|
      invariant Dance(programs0, instructions[..i]) == Some(programs)
    {
      var next := ApplyMove(programs, instructions[i]);
      FoldStep(Move, programs0, instructions, i, programs, next);
      if next.None? {
        return None;
      }
      programs := next.value;
    }
    assert instructions[..|instructions|] == instructions;
    r := Some(programs);
  }

  /** `known.iter().find(|&(_, &v)| v == target)`: some key with that value. */
  method FindKey(known: map<string, nat>, target: nat) returns (found: Option<string>)
    ensures found.Some? ==> found.value in known && known[found.value] == target
    ensures found.None? ==> forall k :: k in known ==> known[k] != target
  {
    var keys := known.Keys;
    while keys != {}
      invariant keys <= known.Keys
      invariant forall k :: k in known && k !in keys ==> known[k] != target
      decreases |keys|
    {
      var k :| k in keys;
      if known[k] == target {
        return Some(k);
      }
      keys := keys - {k};
    }
    return None;
  }

  /** `run_instructions`: the dance repeated `limit` times, with the map
      of known orders and the cycle shortcut as written. */
  method RunInstructions(programs0: string, instructions: seq<Instruction>, limit: nat) returns (r: Option<string>)
    ensures r == RunSpec(programs0, instructions, limit)
  {
    var programs := Trim(programs0);
    var known: map<string, nat> := map[];
    ghost var history: seq<seq<char>> := [];
    for loopNo := 0 to limit
      invariant |history| == loopNo
      invariant RunSpec(programs0, instructions, limit) == Search(instructions, limit, programs, history)
      invariant Remembers(known, history)
    {
      var next := DanceInPlace(programs, instructions);
      if next.None? {
        return None;
      }
      programs := next.value;
      var order := programs;
      if order in known {
        CycleBeginning(history, known, order);
        r := LookUpShortcut(known, history, order, loopNo, limit);
        return;
      }
      RemembersSnoc(known, history, order);
      known := known[order := loopNo];
      history := history + [order];
    }
    r := Some(programs);
  }

  /** Every order seen is a key, and the order after round `j` maps to `j`. */
  ghost predicate Remembers(known: map<string, nat>, history: seq<seq<char>>) {
    (forall k :: k in known <==> k in history) &&
    (forall j :: 0 <= j < |history| ==> history[j] in known && known[history[j]] == j)
  }

  lemma RemembersSnoc(known: map<string, nat>, history: seq<seq<char>>, order: seq<char>)
    requires Remembers(known, history) && order !in known
    ensures Remembers(known[order := |history|], history + [order])
  {
  }

  /** The round the map holds for an order seen before is the round the
      order was first seen in. */
  lemma CycleBeginning(history: seq<seq<char>>, known: map<string, nat>, order: seq<char>)
    requires order in known && Remembers(known, history)
    ensures known[order] < |history| && IndexOf(history, order) == known[order]
  {
    var j :| 0 <= j < |history| && history[j] == order;
    var i := IndexOf(history, order);
  }

  /** The `Some(cycle_beginning)` arm: the map updated with the current
      round, and the order looked up by its round. */
  method LookUpShortcut(known0: map<string, nat>, ghost history: seq<seq<char>>, order: string,
                        loopNo: nat, limit: nat) returns (r: Option<string>)
    requires Remembers(known0, history) && order in known0 && loopNo == |history| < limit
    requires IndexOf(history, order) == known0[order]
    ensures r == Shortcut(history, order, limit)
  {
    var cycleBeginning := known0[order];
    var known := known0[order := loopNo];
    var cycleLen := loopNo - cycleBeginning;
    var remaining := (limit - loopNo - 1) % cycleLen;
    var targetIndex := cycleBeginning + remaining;
    var found := FindKey(known, targetIndex);
    KnownLookup(history, known, order, cycleBeginning, targetIndex);
    if found.None? {
      return None;
    }
    return Some(found.value);
  }

  /** After the overwrite, the only key with value `target` is the order
      after round `target`, unless `target` is where the cycle begins. */
  lemma KnownLookup(history: seq<seq<char>>, known: map<string, nat>, order: seq<char>, cb: nat, target: nat)
    requires cb < |history| && history[cb] == order && cb <= target < |history|
    requires forall k :: k in known <==> k in history
    requires known[order] == |history|
    requires forall j :: 0 <= j < |history| && j != cb ==> history[j] in known && known[history[j]] == j
    ensures target == cb ==> forall k :: k in known ==> known[k] != target
    ensures target != cb ==> forall k :: k in known && known[k] == target ==> k == history[target]
    ensures target != cb ==> history[target] in known && known[history[target]] == target
  {
    forall k | k in known && known[k] == target
      ensures target != cb && k == history[target]
    {
      var j :| 0 <= j < |history| && history[j] == k;
      assert j != cb;
    }
  }

  // ---------------------------------------------------------------- samples

  /** The sample dance `s1,x3/4,pe/b`. */
  const Sample: seq<Instruction> := [Spin(1), Exchange(3, 4), Partner('e', 'b')]

  lemma ParseSample()
    ensures Parse("s1,x3/4,pe/b") == Ok(Sample)
  {
    SamplePieces();
    ShowSample();
    ParseShow(Spin(1));
    ParseShow(Exchange(3, 4));
    ParseShow(Partner('e', 'b'));
    ParseThree("s1,x3/4,pe/b", "s1", "x3/4", "pe/b", Sample);
  }

  /** Three pieces that parse give the three instructions. */
  lemma ParseThree(s: string, a: string, b: string, c: string, ins: seq<Instruction>)
    requires Pieces(s) == [a, b, c] && |ins| == 3
    requires ParseInstruction(a) == Ok(ins[0])
    requires ParseInstruction(b) == Ok(ins[1])
    requires ParseInstruction(c) == Ok(ins[2])
    ensures Parse(s) == Ok(ins)
  {
    var p := Pieces(s);
    forall i | 0 <= i < |p|
      ensures ParseInstruction(p[i]) == Ok(ins[i])
    {
      if i == 0 {
        assert p[i] == a;
      } else if i == 1 {
        assert p[i] == b;
      } else {
        assert p[i] == c;
      }
    }
    ParsePieces(s);
    var r := Parse(s);
    assert r.Ok? && |r.value| == |ins|;
    assert forall i :: 0 <= i < |p| ==> r.value[i] == ins[i];
    assert r.value == ins;
  }

  lemma ShowSample()
    ensures Show(Spin(1)) == "s1"
    ensures Show(Exchange(3, 4)) == "x3/4"
    ensures Show(Partner('e', 'b')) == "pe/b"
  {
  }

  lemma SamplePieces()
    ensures Pieces("s1,x3/4,pe/b") == ["s1", "x3/4", "pe/b"]
  {
    var s := "s1,x3/4,pe/b";
    TrimSpec(s);
    PiecesThree(s, "s1", "x3/4", "pe/b");
  }

  /** Three pieces joined by commas split back into the three. */
  lemma PiecesThree(s: string, a: string, b: string, c: string)
    requires ',' !in a && ',' !in b && ',' !in c
    requires s == a + [','] + b + [','] + c && Trim(s) == s
    ensures Pieces(s) == [a, b, c]
  {
    assert s == a + [','] + (b + [','] + c);
    SplitOfJoinHead(a, b + [','] + c, ',');
    SplitOfJoinHead(b, c, ',');
    SplitNoSep(c, ',');
  }

  /** A dance of three moves is the three moves in order. */
  lemma DanceThree(p: seq<char>, ms: seq<Instruction>)
    requires |ms| == 3
    ensures Dance(p, ms) ==
      var a := Move(p, ms[0]);
      var b := if a.None? then None else Move(a.value, ms[1]);
      if b.None? then None else Move(b.value, ms[2])
  {
    assert ms[..1][..0] == [];
    assert Fold(Move, p, ms[..1][..0]) == Some(p);
    assert Fold(Move, p, ms[..1]) == Move(p, ms[..1][0]);
    assert ms[..2][..1] == ms[..1];
    assert Fold(Move, p, ms[..2]) ==
      if Fold(Move, p, ms[..1]).None? then None else Move(Fold(Move, p, ms[..1]).value, ms[..2][1]);
    assert ms[..|ms| - 1] == ms[..2];
  }

  /** The first position of a character that does not occur before it. */
  lemma {:induction false} PositionAt(p: seq<char>, c: char, i: nat)
    requires i < |p| && p[i] == c && c !in p[..i]
    ensures Position(p, c) == Some(i)
  {
    if i > 0 {
      assert p[1..][..i - 1] == p[1..i];
      PositionAt(p[1..], c, i - 1);
    }
  }

  /** The sample round: spin one, swap the last two, swap `e` and `b`. */
  lemma SampleRound(p: seq<char>, a: seq<char>, b: seq<char>, q: seq<char>, i: nat, j: nat)
    requires |p| == 5 && a == Rotated(p, 1) && b == Swap(a, 3, 4)
    requires i < 5 && b[i] == 'e' && 'e' !in b[..i]
    requires j < 5 && b[j] == 'b' && 'b' !in b[..j]
    requires q == Swap(b, i, j)
    ensures Dance(p, Sample) == Some(q)
  {
    DanceThree(p, Sample);
    assert 1 % |p| == 1;
    PositionAt(b, 'e', i);
    PositionAt(b, 'b', j);
  }

  lemma SampleRound1()
    ensures Dance("abcde", Sample) == Some("baedc")
  {
    SampleRound("abcde", "eabcd", "eabdc", "baedc", 0, 2);
  }

  lemma SampleRound2()
    ensures Dance("baedc", Sample) == Some("ceadb")
  {
    SampleRound("baedc", "cbaed", "cbade", "ceadb", 4, 1);
  }

  lemma SampleRound3()
    ensures Dance("ceadb", Sample) == Some("ecbda")
  {
    SampleRound("ceadb", "bcead", "bceda", "ecbda", 2, 0);
  }

  lemma SampleRound4()
    ensures Dance("ecbda", Sample) == Some("abcde")
  {
    SampleRound("ecbda", "aecbd", "aecdb", "abcde", 1, 4);
  }

  /** A round that gives an order not seen before goes on with it. */
  lemma SearchNew(instructions: seq<Instruction>, limit: nat, p: seq<char>, history: seq<seq<char>>, q: seq<char>)
    requires |history| < limit && Dance(p, instructions) == Some(q) && q !in history
    ensures Search(instructions, limit, p, history) == Search(instructions, limit, q, history + [q])
  {
  }

  /** One and two rounds of the sample. */
  lemma RunSampleShort()
    ensures RunSpec("abcde", Sample, 1) == Some("baedc")
    ensures RunSpec("abcde", Sample, 2) == Some("ceadb")
  {
    TrimSpec("abcde");
    SampleRound1();
    SampleRound2();
    SearchTwo(Sample, "abcde", "baedc", "ceadb");
  }

  lemma SearchTwo(ins: seq<Instruction>, p: seq<char>, q1: seq<char>, q2: seq<char>)
    requires Dance(p, ins) == Some(q1) && Dance(q1, ins) == Some(q2) && q1 != q2
    ensures Search(ins, 1, p, []) == Some(q1)
    ensures Search(ins, 2, p, []) == Some(q2)
  {
    SearchNew(ins, 1, p, [], q1);
    SearchNew(ins, 2, p, [], q1);
    assert [] + [q1] == [q1];
    SearchNew(ins, 2, q1, [q1], q2);
  }

  /** Four different orders in a cycle: at the fifth round the shortcut
      is taken. */
  lemma SearchFour(ins: seq<Instruction>, limit: nat, p: seq<char>, h0: seq<char>, h1: seq<char>,
                    h2: seq<char>, h3: seq<char>)
    requires limit > 4
    requires Dance(p, ins) == Some(h0) && Dance(h0, ins) == Some(h1) && Dance(h1, ins) == Some(h2)
    requires Dance(h2, ins) == Some(h3) && Dance(h3, ins) == Some(h0)
    requires h0 != h1 && h0 != h2 && h0 != h3 && h1 != h2 && h1 != h3 && h2 != h3
    ensures Search(ins, limit, p, []) == Shortcut([h0, h1, h2, h3], h0, limit)
  {
    SearchNew(ins, limit, p, [], h0);
    assert [] + [h0] == [h0];
    SearchNew(ins, limit, h0, [h0], h1);
    assert [h0] + [h1] == [h0, h1];
    SearchNew(ins, limit, h1, [h0, h1], h2);
    assert [h0, h1] + [h2] == [h0, h1, h2];
    SearchNew(ins, limit, h2, [h0, h1, h2], h3);
    assert [h0, h1, h2] + [h3] == [h0, h1, h2, h3];
    SearchRepeat(ins, limit, h3, [h0, h1, h2, h3], h0);
  }

  /** A round that gives an order seen before takes the shortcut. */
  lemma SearchRepeat(instructions: seq<Instruction>, limit: nat, p: seq<char>, history: seq<seq<char>>, q: seq<char>)
    requires |history| < limit && Dance(p, instructions) == Some(q) && q in history
    ensures Search(instructions, limit, p, history) == Shortcut(history, q, limit)
  {
  }

  /** 1234 rounds by the shortcut: the fifth round repeats the first, and
      the remaining 1229 rounds are 307 cycles of four and one round more. */
  lemma RunSampleCycle()
    ensures RunSpec("abcde", Sample, 1234) == Some("ceadb")
  {
    TrimSpec("abcde");
    SampleRound1();
    SampleRound2();
    SampleRound3();
    SampleRound4();
    SearchFour(Sample, 1234, "abcde", "baedc", "ceadb", "ecbda", "abcde");
    ShortcutSample();
  }

  lemma ShortcutSample()
    ensures Shortcut(["baedc", "ceadb", "ecbda", "abcde"], "baedc", 1234) == Some("ceadb")
  {
    assert IndexOf(["baedc", "ceadb", "ecbda", "abcde"], "baedc") == 0;
    assert (1234 - 4 - 1) % (4 - 0) == 1;
  }

  /** A dance of one move is that move. */
  lemma DanceOne(p: seq<char>, m: Instruction)
    ensures Dance(p, [m]) == Move(p, m)
  {
    assert [m][..0] == [];
    assert Fold(Move, p, [m][..0]) == Some(p);
  }

  /** Spinning `abcde` by 3 gives `cdeab`. */
  lemma SpinSample()
    ensures RunSpec("abcde", [Spin(3)], 1) == Some("cdeab")
  {
    TrimSpec("abcde");
    DanceOne("abcde", Spin(3));
    assert 3 % 5 == 3;
    assert Rotated("abcde", 3) == "cdeab";
    SearchNew([Spin(3)], 1, "abcde", [], "cdeab");
  }
}
