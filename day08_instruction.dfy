/** The instructions of day 8 (`day-08/src/instruction.rs`): `register
    inc|dec value if condition`, executed against the register file and
    the map of the highest value each register has held.

    The text form is read by a regular expression in the source; the model
    reads the grammar it describes by hand.  Values are unbounded: the
    `i32` overflow of an addition is not modelled.
 */
module Day08Instruction {
  import opened Wrappers
  import opened Text
  import opened Day08Comparison

  /** `Operation`. */
  datatype Operation = Inc | Dec

  /** `Operation::from_str`: `inc` or `dec` exactly; anything else is `Err`
      with the text. */
  function ParseOperation(s: string): (r: Result<Operation, string>)
    ensures r == Ok(Inc) <==> s == "inc"
    ensures r == Ok(Dec) <==> s == "dec"
    ensures r.Err? <==> s != "inc" && s != "dec"
    ensures r.Err? ==> r.error == s
  {
    if s == "inc" then Ok(Inc)
    else if s == "dec" then Ok(Dec)
    else Err(s)
  }

  /** `Instruction`. */
  datatype Instruction = Instruction(register: string, op: Operation, value: int, condition: Comparison)

  /** Why a line is not read: `Unmatched` is the `Err(())` when the text
      does not match `^([a-z]+) ([^\s]+) (-?[0-9]+) if (.*)$`; the others
      are the panics of the `expect`s on the operation, the value and the
      condition. */
  datatype InstructionError =
    | Unmatched
    | BadOperation(op: string)
    | BadValue(value: string)
    | BadCondition(error: ComparisonError)

  /** `(-?[0-9]+) if (.*)$` over `t`: the value and the condition, which
      holds no line feed (`.` does not match one). */
  function ValueCaptures(t: string): (r: Option<(string, string)>)
    ensures r.Some? ==> t == r.value.0 + " if " + r.value.1 && IsNumber(r.value.0) && '\n' !in r.value.1
  {
    var split := SplitOnce(t, ' ');
    if split.None? then None
    else
      var (value, rest) := split.value;
      var condition := IfTail(rest);
      if IsNumber(value) && condition.Some? then
        assert t == value + [' '] + ("if " + condition.value);
        Some((value, condition.value))
      else None
  }

  /** `if (.*)$` over `t`: the condition. */
  function IfTail(t: string): (r: Option<string>)
    ensures r.Some? ==> t == "if " + r.value && '\n' !in r.value
    ensures r.None? <==> |t| < 3 || t[..3] != "if " || '\n' in t[3..]
  {
    if |t| >= 3 && t[..3] == "if " && '\n' !in t[3..] then
      assert t == t[..3] + t[3..];
      Some(t[3..])
    else None
  }

  /** The four captures of `^([a-z]+) ([^\s]+) (-?[0-9]+) if (.*)$` over
      `t`. */
  function Captures(t: string): (r: Option<(string, string, string, string)>)
    ensures r.Some? ==> t == r.value.0 + " " + r.value.1 + " " + r.value.2 + " if " + r.value.3
    ensures r.Some? ==> IsName(r.value.0) && IsToken(r.value.1) && IsNumber(r.value.2) && '\n' !in r.value.3
  {
    var first := SplitOnce(t, ' ');
    if first.None? then None
    else
      var (register, rest) := first.value;
      var second := SplitOnce(rest, ' ');
      if second.None? then None
      else
        var (op, rest') := second.value;
        var third := ValueCaptures(rest');
        if third.None? || !IsName(register) || !IsToken(op) then None
        else
          var (value, condition) := third.value;
          JoinFour(t, register, rest, op, rest', value, condition);
          Some((register, op, value, condition))
  }

  /** The pieces split off one after another put back together. */
  lemma JoinFour(t: string, register: string, rest: string, op: string, rest': string, value: string, condition: string)
    requires t == register + [' '] + rest && rest == op + [' '] + rest' && rest' == value + " if " + condition
    ensures t == register + " " + op + " " + value + " if " + condition
  {
  }

  /** `Instruction::from_str`: the trimmed line matched, then the
      operation, the value and the condition parsed, in that order. */
  function FromStr(s: string): (r: Result<Instruction, InstructionError>)
    ensures Captures(Trim(s)).None? <==> r == Err(InstructionError.Unmatched)
    ensures r.Ok? ==> IsName(r.value.register) && I32_MIN <= r.value.value <= I32_MAX
  {
    var cap := Captures(Trim(s));
    if cap.None? then Err(InstructionError.Unmatched)
    else
      var (register, op, value, condition) := cap.value;
      var o := ParseOperation(op);
      var v := ParseI32(value);
      var c := Day08Comparison.FromStr(condition);
      if o.Err? then Err(BadOperation(op))
      else if v.None? then Err(InstructionError.BadValue(value))
      else if c.Err? then Err(BadCondition(c.error))
      else Ok(Instruction(register, o.value, v.value, c.value))
  }

  /** The captures of `register op value if condition` are the four parts. */
  lemma CapturesOf(register: string, op: string, value: string, condition: string)
    requires IsName(register) && IsToken(op) && IsNumber(value) && '\n' !in condition
    ensures Captures(register + " " + op + " " + value + " if " + condition) == Some((register, op, value, condition))
  {
    NoSpace(register);
    NoSpace(op);
    NoSpace(value);
    var rest' := value + " if " + condition;
    var rest := op + [' '] + rest';
    SplitFour(register, op, value, condition, rest, rest');
    SplitOnceOf(register, rest, ' ');
    SplitOnceOf(op, rest', ' ');
    ValueCapturesOf(value, condition);
  }

  /** The text is the register, a space and the rest. */
  lemma SplitFour(register: string, op: string, value: string, condition: string, rest: string, rest': string)
    requires rest' == value + " if " + condition && rest == op + [' '] + rest'
    ensures register + " " + op + " " + value + " if " + condition == register + [' '] + rest
  {
  }

  /** The value captures of `value if condition` are the two parts. */
  lemma ValueCapturesOf(value: string, condition: string)
    requires IsNumber(value) && ' ' !in value && '\n' !in condition
    ensures ValueCaptures(value + " if " + condition) == Some((value, condition))
  {
    var rest := "if " + condition;
    assert value + " if " + condition == value + [' '] + rest;
    SplitOnceOf(value, rest, ' ');
    assert rest[..3] == "if " && rest[3..] == condition;
    assert IfTail(rest) == Some(condition);
  }

  /** Names, tokens and numbers hold no space. */
  lemma NoSpace(s: string)
    requires IsName(s) || IsToken(s) || IsNumber(s)
    ensures ' ' !in s
  {
    forall i | 0 <= i < |s|
      ensures s[i] != ' '
    {
      if IsNumber(s) && s[0] == '-' && i > 0 {
        assert s[1..][i - 1] == s[i];
      }
    }
  }

  /** A line whose trimmed form matches, with parts that parse, is read as
      that instruction. */
  lemma FromStrOfCaptures(s: string, register: string, op: string, value: string, condition: string, ins: Instruction)
    ensures (Captures(Trim(s)) == Some((register, op, value, condition)) && ParseOperation(op) == Ok(ins.op) &&
      ParseI32(value) == Some(ins.value) && Day08Comparison.FromStr(condition) == Ok(ins.condition) &&
      ins.register == register) ==> FromStr(s) == Ok(ins)
  {
  }

  /** The text of an operation. */
  function ShowOperation(op: Operation): string {
    if op == Inc then "inc" else "dec"
  }

  /** An operation printed is a token and reads back as itself. */
  lemma OperationRoundTrip(op: Operation)
    ensures IsToken(ShowOperation(op)) && ParseOperation(ShowOperation(op)) == Ok(op)
  {
    assert IsToken("inc") && IsToken("dec");
  }

  /** A line `register op value if condition` with nothing to trim, whose
      parts are a name, an operation, an `i32` and a condition, is read as
      that instruction. */
  lemma FromStrOf(ins: Instruction, condition: string, text: string)
    requires IsName(ins.register) && I32_MIN <= ins.value <= I32_MAX
    requires '\n' !in condition
    requires text == ins.register + " " + ShowOperation(ins.op) + " " + IntToString(ins.value) + " if " + condition
    requires Trim(text) == text
    ensures Day08Comparison.FromStr(condition) == Ok(ins.condition) ==> FromStr(text) == Ok(ins)
  {
    var op := ShowOperation(ins.op);
    var value := IntToString(ins.value);
    NumberOf(ins.value);
    OperationRoundTrip(ins.op);
    CapturesOf(ins.register, op, value, condition);
    ParseIntToString(ins.value, I32_MIN, I32_MAX);
    FromStrOfCaptures(text, ins.register, op, value, condition, ins);
  }

  /** `Debug`-like text of an instruction: `register op value if
      condition`. */
  function Show(ins: Instruction): string {
    ins.register + " " + ShowOperation(ins.op) + " " + IntToString(ins.value) + " if " + Day08Comparison.Show(ins.condition)
  }

  /** Printing an instruction whose registers are names and whose values
      are `i32`s and reading it back gives the instruction. */
  lemma FromStrShow(ins: Instruction)
    requires IsName(ins.register) && I32_MIN <= ins.value <= I32_MAX
    requires IsName(ins.condition.register) && I32_MIN <= ins.condition.value <= I32_MAX
    ensures FromStr(Show(ins)) == Ok(ins)
  {
    var condition := Day08Comparison.Show(ins.condition);
    Day08Comparison.FromStrShow(ins.condition);
    ShowNoLineFeed(ins.condition);
    ShowTrimmed(ins);
    FromStrOf(ins, condition, Show(ins));
  }

  /** A printed condition holds no line feed. */
  lemma ShowNoLineFeed(c: Comparison)
    requires IsName(c.register)
    ensures '\n' !in Day08Comparison.Show(c)
  {
    var v := IntToString(c.value);
    forall i | 0 <= i < |v|
      ensures v[i] != '\n'
    {
    }
    forall i | 0 <= i < |c.register|
      ensures c.register[i] != '\n'
    {
    }
    assert '\n' !in ShowOperator(c.op);
  }

  /** A printed instruction has nothing to trim: it starts with a letter
      and ends with a digit. */
  lemma ShowTrimmed(ins: Instruction)
    requires IsName(ins.register)
    ensures Trim(Show(ins)) == Show(ins)
  {
    var text := Show(ins);
    var condition := Day08Comparison.Show(ins.condition);
    var v := IntToString(ins.condition.value);
    assert condition[|condition| - 1] == v[|v| - 1];
    assert text[0] == ins.register[0];
    assert text[|text| - 1] == condition[|condition| - 1];
    TrimSpec(text);
  }

  /** The lines of the tests. */
  const DecLine: string := "b dec 30 if cat < 1"
  const IncLine: string := "x inc -30 if dog > -30"

  /** `"b dec 30 if cat < 1"` from the tests. */
  lemma SampleDec()
    ensures FromStr(DecLine) == Ok(Instruction("b", Dec, 30, Comparison("cat", Lt, 1)))
  {
    SampleDecShown();
    FromStrShow(Instruction("b", Dec, 30, Comparison("cat", Lt, 1)));
  }

  /** `"b dec 30 if cat < 1"` is the printed instruction. */
  lemma SampleDecShown()
    ensures Show(Instruction("b", Dec, 30, Comparison("cat", Lt, 1))) == DecLine
  {
    assert IntToString(30) == "30" && IntToString(1) == "1";
  }

  /** `"x inc -30 if dog > -30"` from the tests. */
  lemma SampleInc()
    ensures FromStr(IncLine) == Ok(Instruction("x", Inc, -30, Comparison("dog", Gt, -30)))
  {
    SampleIncShown();
    FromStrShow(Instruction("x", Inc, -30, Comparison("dog", Gt, -30)));
  }

  /** `"x inc -30 if dog > -30"` is the printed instruction. */
  lemma SampleIncShown()
    ensures Show(Instruction("x", Inc, -30, Comparison("dog", Gt, -30))) == IncLine
  {
    assert IntToString(-30) == "-30";
  }

  // ---------------------------------------------------------------- execute

  /** `new_value.max(*value)`. */
  function Max(a: int, b: int): int {
    if a >= b then a else b
  }

  /** `execute` on the register file and the map of highest values: when
      the condition holds, the register (0 when absent) goes up or down by
      the value and its highest value becomes the larger of the old highest
      and the new value, or the new value when it had none. */
  function Step(ins: Instruction, registers: Registers, maxValues: Registers): (Registers, Registers) {
    if !Check(ins.condition, registers) then (registers, maxValues)
    else
      var register := Get(registers, ins.register);
      var newValue := match ins.op case Inc => register + ins.value case Dec => register - ins.value;
      var newMax := if ins.register in maxValues then Max(newValue, maxValues[ins.register]) else newValue;
      (registers[ins.register := newValue], maxValues[ins.register := newMax])
  }

  /** The highest values are known for exactly the registers that were
      written, and none is below the register's value. */
  predicate Consistent(registers: Registers, maxValues: Registers) {
    registers.Keys == maxValues.Keys &&
    forall k :: k in registers ==> maxValues[k] >= registers[k]
  }

  /** A false condition changes nothing; a true one writes the register
      and its highest value and nothing else; and consistency is kept,
      with no highest value going down. */
  lemma StepSpec(ins: Instruction, registers: Registers, maxValues: Registers)
    ensures var (r, m) := Step(ins, registers, maxValues);
      (!Check(ins.condition, registers) ==> r == registers && m == maxValues) &&
      (Check(ins.condition, registers) ==>
        r[ins.register] == (if ins.op == Inc then Get(registers, ins.register) + ins.value
                            else Get(registers, ins.register) - ins.value) &&
        m[ins.register] == (if ins.register in maxValues then Max(r[ins.register], maxValues[ins.register])
                            else r[ins.register])) &&
      (forall k :: k != ins.register ==> (k in r <==> k in registers) && (k in m <==> k in maxValues)) &&
      (forall k :: k != ins.register && k in registers ==> r[k] == registers[k]) &&
      (forall k :: k != ins.register && k in maxValues ==> m[k] == maxValues[k]) &&
      (Consistent(registers, maxValues) ==> Consistent(r, m)) &&
      (forall k :: k in maxValues ==> k in m && m[k] >= maxValues[k])
  {
  }

  /** The program run one instruction after another, as the `for_each`
      over the lines does. */
  function Run(program: seq<Instruction>, registers: Registers, maxValues: Registers): (Registers, Registers)
    decreases |program|
  {
    if program == [] then (registers, maxValues)
    else
      var (r, m) := Run(program[..|program| - 1], registers, maxValues);
      Step(program[|program| - 1], r, m)
  }

  /** The register file after the first `i` instructions. */
  function After(program: seq<Instruction>, registers: Registers, maxValues: Registers, i: nat): Registers
    requires i <= |program|
  {
    Run(program[..i], registers, maxValues).0
  }

  /** Every value a register held on the way is at most its highest value
      at the end. */
  lemma {:induction false} HighestBound(program: seq<Instruction>, registers: Registers, maxValues: Registers)
    requires Consistent(registers, maxValues)
    ensures Consistent(Run(program, registers, maxValues).0, Run(program, registers, maxValues).1)
    ensures forall i, k :: 0 <= i <= |program| && k in After(program, registers, maxValues, i) ==>
      k in Run(program, registers, maxValues).1 &&
      Run(program, registers, maxValues).1[k] >= After(program, registers, maxValues, i)[k]
    decreases |program|
  {
    if program != [] {
      var n := |program| - 1;
      var front := program[..n];
      HighestBound(front, registers, maxValues);
      var (r, m) := Run(front, registers, maxValues);
      StepSpec(program[n], r, m);
      var final := Run(program, registers, maxValues).1;
      assert program[..n + 1] == program;
      forall i, k | 0 <= i <= |program| && k in After(program, registers, maxValues, i)
        ensures k in final && final[k] >= After(program, registers, maxValues, i)[k]
      {
        if i <= n {
          assert program[..i] == front[..i];
          assert After(program, registers, maxValues, i) == After(front, registers, maxValues, i);
        }
      }
    }
  }

  /** Starting with the highest values equal to the registers (both empty,
      say), each highest value at the end is a value the register held
      after some prefix of the program. */
  lemma {:induction false} HighestAttained(program: seq<Instruction>, registers: Registers)
    ensures forall k :: k in Run(program, registers, registers).1 ==>
      exists i :: (0 <= i <= |program| && k in After(program, registers, registers, i) &&
        After(program, registers, registers, i)[k] == Run(program, registers, registers).1[k])
    decreases |program|
  {
    if program == [] {
      assert program[..0] == program;
      forall k | k in Run(program, registers, registers).1
        ensures k in After(program, registers, registers, 0) &&
          After(program, registers, registers, 0)[k] == Run(program, registers, registers).1[k]
      {
      }
    } else {
      var n := |program| - 1;
      var front := program[..n];
      HighestAttained(front, registers);
      var (r, m) := Run(front, registers, registers);
      StepSpec(program[n], r, m);
      var final := Run(program, registers, registers).1;
      assert program[..n + 1] == program;
      assert After(program, registers, registers, n + 1) == Run(program, registers, registers).0;
      forall k | k in final
        ensures exists i :: (0 <= i <= |program| && k in After(program, registers, registers, i) &&
          After(program, registers, registers, i)[k] == final[k])
      {
        if k in m && final[k] == m[k] {
          var i :| 0 <= i <= n && k in After(front, registers, registers, i) &&
            After(front, registers, registers, i)[k] == m[k];
          assert program[..i] == front[..i];
          assert After(program, registers, registers, i) == After(front, registers, registers, i);
        } else {
          assert After(program, registers, registers, n + 1)[k] == final[k];
        }
      }
    }
  }

  /** The register file and the highest values, which `execute` updates in
      place through `&mut`. */
  class RegisterFile {
    var registers: Registers
    var maxValues: Registers

    /** Both maps start empty (`HashMap::new()`). */
    constructor()
      ensures registers == map[] && maxValues == map[]
    {
      registers := map[];
      maxValues := map[];
    }

    predicate Valid()
      reads this
    {
      Consistent(registers, maxValues)
    }

    /** `Instruction::execute`. */
    method Execute(ins: Instruction)
      modifies this
      ensures (registers, maxValues) == Step(ins, old(registers), old(maxValues))
      ensures old(Valid()) ==> Valid()
    {
      StepSpec(ins, registers, maxValues);
      if Check(ins.condition, registers) {
        var register := Get(registers, ins.register);
        var newValue := match ins.op case Inc => register + ins.value case Dec => register - ins.value;
        var newMax := if ins.register in maxValues then Max(newValue, maxValues[ins.register]) else newValue;
        registers := registers[ins.register := newValue];
        maxValues := maxValues[ins.register := newMax];
      }
    }

    /** Each instruction of the program executed in turn. */
    method ExecuteAll(program: seq<Instruction>)
      modifies this
      ensures (registers, maxValues) == Run(program, old(registers), old(maxValues))
    {
      ghost var r0, m0 := registers, maxValues;
      for i := 0 to |program|
        invariant (registers, maxValues) == Run(program[..i], r0, m0)
      {
        assert program[..i + 1][..i] == program[..i];
        Execute(program[i]);
      }
      assert program[..|program|] == program;
    }
  }

  // ---------------------------------------------------------------- the program's loop

  /** Every line read as an instruction, in order. */
  function ParseEach(lines: seq<string>): (r: seq<Result<Instruction, InstructionError>>)
    ensures |r| == |lines| && forall i :: 0 <= i < |lines| ==> r[i] == FromStr(lines[i])
  {
    seq(|lines|, i requires 0 <= i < |lines| => FromStr(lines[i]))
  }

  /** The loop of `main` (and of `test_example`) over the lines of the
      input: each line is read with `unwrap` and executed against the two
      maps, which start empty.  `Err` is the panic on the first line that
      does not read. */
  function RunLines(input: string): (r: Result<(Registers, Registers), InstructionError>)
    ensures r.Ok? <==> forall i :: 0 <= i < |Lines(input)| ==> FromStr(Lines(input)[i]).Ok?
    ensures r.Ok? ==> Consistent(r.value.0, r.value.1)
  {
    var program := Collect(ParseEach(Lines(input)));
    if program.Err? then Err(program.error)
    else
      HighestBound(program.value, map[], map[]);
      Ok(Run(program.value, map[], map[]))
  }

  /** Lines that each read as an instruction run as the program of those
      instructions. */
  lemma RunLinesOf(input: string, program: seq<Instruction>)
    requires |Lines(input)| == |program|
    requires forall i :: 0 <= i < |program| ==> FromStr(Lines(input)[i]) == Ok(program[i])
    ensures RunLines(input) == Ok(Run(program, map[], map[]))
  {
    var rs := ParseEach(Lines(input));
    assert forall i :: 0 <= i < |rs| ==> rs[i] == Ok(program[i]);
    CollectAllOk(rs, program);
    assert Collect(rs) == Ok(program);
  }

  // ---------------------------------------------------------------- samples

  /** `v` is the largest of the values of `m`. */
  predicate IsLargest(m: Registers, v: int) {
    v in m.Values && forall k :: k in m ==> m[k] <= v
  }

  /** The sample program. */
  const SampleProgram: seq<Instruction> := [
    Instruction("b", Inc, 5, Comparison("a", Gt, 1)),
    Instruction("a", Inc, 1, Comparison("b", Lt, 5)),
    Instruction("c", Dec, -10, Comparison("a", Gte, 1)),
    Instruction("c", Inc, -20, Comparison("c", Eq, 10))
  ]

  /** The sample program leaves `a` at 1 and `c` at -10; `c` was 10 on the
      way. */
  lemma SampleRun()
    ensures Run(SampleProgram, map[], map[]) == (map["a" := 1, "c" := -10], map["a" := 1, "c" := 10])
  {
    var p := SampleProgram;
    var none: Registers := map[];
    var s1 := (none, none);
    var s2 := (map["a" := 1], map["a" := 1]);
    var s3 := (map["a" := 1, "c" := 10], map["a" := 1, "c" := 10]);
    var s4 := (map["a" := 1, "c" := -10], map["a" := 1, "c" := 10]);
    assert p[..1][..0] == [] && p[..2][..1] == p[..1] && p[..3][..2] == p[..2] && p[..4][..3] == p[..3] && p[..4] == p;
    assert Step(p[0], none, none) == s1;
    assert Run(p[..1], none, none) == s1;
    assert Step(p[1], s1.0, s1.1) == s2;
    assert Run(p[..2], none, none) == s2;
    assert Step(p[2], s2.0, s2.1) == s3;
    assert Run(p[..3], none, none) == s3;
    assert Check(p[3].condition, s3.0) && Get(s3.0, "c") == 10;
    assert s3.0["c" := -10] == s4.0 && s3.1["c" := Max(-10, 10)] == s4.1;
    assert Step(p[3], s3.0, s3.1) == s4;
    assert Run(p[..4], none, none) == s4;
  }

  /** The largest register at the end of the sample is 1, and the highest
      value ever held is 10. */
  lemma SampleLargest()
    ensures IsLargest(Run(SampleProgram, map[], map[]).0, 1)
    ensures IsLargest(Run(SampleProgram, map[], map[]).1, 10)
  {
    SampleRun();
    var r: Registers := map["a" := 1, "c" := -10];
    var m: Registers := map["a" := 1, "c" := 10];
    assert r["a"] == 1 && m["c"] == 10;
  }

  // The text of `test_example`: four lines, the later three indented.
  const ExampleLine1: string := "b inc 5 if a > 1"
  const ExampleLine2: string := "a inc 1 if b < 5"
  const ExampleLine3: string := "c dec -10 if a >= 1"
  const ExampleLine4: string := "c inc -20 if c == 10"
  const ExamplePad: string := "        "
  const ExampleLines: seq<string> :=
    [ExampleLine1, ExamplePad + ExampleLine2, ExamplePad + ExampleLine3, ExamplePad + ExampleLine4]
  const ExampleInput: string := Join(ExampleLines, '\n')

  /** The four lines are the sample program's instructions printed. */
  lemma ExampleShown1()
    ensures Show(Instruction("b", Inc, 5, Comparison("a", Gt, 1))) == ExampleLine1
  {
    assert IntToString(5) == "5" && IntToString(1) == "1";
  }

  lemma ExampleShown2()
    ensures Show(Instruction("a", Inc, 1, Comparison("b", Lt, 5))) == ExampleLine2
  {
    assert IntToString(1) == "1" && IntToString(5) == "5";
  }

  lemma ExampleShown3()
    ensures Show(Instruction("c", Dec, -10, Comparison("a", Gte, 1))) == ExampleLine3
  {
    assert IntToString(-10) == "-10" && IntToString(1) == "1";
  }

  lemma ExampleShown4()
    ensures Show(Instruction("c", Inc, -20, Comparison("c", Eq, 10))) == ExampleLine4
  {
    assert IntToString(-20) == "-20" && IntToString(10) == "10";
  }

  /** Texts that trim to the same text read the same. */
  lemma FromStrTrim(a: string, b: string)
    requires Trim(a) == Trim(b)
    ensures FromStr(a) == FromStr(b)
  {
  }

  /** A printed instruction, indented, reads back as itself. */
  lemma FromStrPadded(pad: string, ins: Instruction)
    requires forall i :: 0 <= i < |pad| ==> IsWhitespace(pad[i])
    requires IsName(ins.register) && I32_MIN <= ins.value <= I32_MAX
    requires IsName(ins.condition.register) && I32_MIN <= ins.condition.value <= I32_MAX
    ensures FromStr(pad + Show(ins)) == Ok(ins)
  {
    var text := Show(ins);
    FromStrShow(ins);
    ShowTrimmed(ins);
    TrimSpec(text);
    assert |text| >= |ins.register| > 0;
    TrimPadded(pad, text, []);
    assert pad + text + [] == pad + text;
    FromStrTrim(pad + text, text);
  }

  lemma ExampleRead1()
    ensures FromStr(ExampleLine1) == Ok(Instruction("b", Inc, 5, Comparison("a", Gt, 1)))
  {
    ExampleShown1();
    FromStrShow(Instruction("b", Inc, 5, Comparison("a", Gt, 1)));
  }

  lemma ExampleRead2()
    ensures FromStr(ExamplePad + ExampleLine2) == Ok(Instruction("a", Inc, 1, Comparison("b", Lt, 5)))
  {
    ExampleShown2();
    FromStrPadded(ExamplePad, Instruction("a", Inc, 1, Comparison("b", Lt, 5)));
  }

  lemma ExampleRead3()
    ensures FromStr(ExamplePad + ExampleLine3) == Ok(Instruction("c", Dec, -10, Comparison("a", Gte, 1)))
  {
    ExampleShown3();
    FromStrPadded(ExamplePad, Instruction("c", Dec, -10, Comparison("a", Gte, 1)));
  }

  lemma ExampleRead4()
    ensures FromStr(ExamplePad + ExampleLine4) == Ok(Instruction("c", Inc, -20, Comparison("c", Eq, 10)))
  {
    ExampleShown4();
    FromStrPadded(ExamplePad, Instruction("c", Inc, -20, Comparison("c", Eq, 10)));
  }

  /** Four lines that each read as an instruction collect into those four
      instructions. */
  lemma ParseFour(ls: seq<string>, program: seq<Instruction>)
    requires |ls| == 4 && |program| == 4
    ensures FromStr(ls[0]) == Ok(program[0]) && FromStr(ls[1]) == Ok(program[1]) &&
            FromStr(ls[2]) == Ok(program[2]) && FromStr(ls[3]) == Ok(program[3]) ==>
      Collect(ParseEach(ls)) == Ok(program)
  {
    if FromStr(ls[0]) == Ok(program[0]) && FromStr(ls[1]) == Ok(program[1]) &&
       FromStr(ls[2]) == Ok(program[2]) && FromStr(ls[3]) == Ok(program[3])
    {
      var rs := ParseEach(ls);
      assert rs[0] == Ok(program[0]) && rs[1] == Ok(program[1]) && rs[2] == Ok(program[2]) && rs[3] == Ok(program[3]);
      CollectFour(rs, program);
    }
  }

  /** `lines()` splits the sample text into its four lines. */
  lemma ExampleSplit()
    ensures Lines(ExampleInput) == ExampleLines
  {
    forall i | 0 <= i < |ExampleLines|
      ensures '\n' !in ExampleLines[i] && StripCr(ExampleLines[i]) == ExampleLines[i]
    {
    }
    LinesJoin(ExampleLines);
  }

  /** `test_example`: the loop over the text's lines ends with the largest
      register at 1 and the largest value ever held at 10. */
  lemma SampleExample()
    ensures RunLines(ExampleInput) == Ok((map["a" := 1, "c" := -10], map["a" := 1, "c" := 10]))
    ensures IsLargest(RunLines(ExampleInput).value.0, 1) && IsLargest(RunLines(ExampleInput).value.1, 10)
  {
    ExampleSplit();
    ExampleRead1();
    ExampleRead2();
    ExampleRead3();
    ExampleRead4();
    ParseFour(ExampleLines, SampleProgram);
    SampleRun();
    SampleLargest();
  }
}
