/** The instruction set of day 18 (`day-18/src/instructions.rs`): register
    names, values that are a register or a literal, the seven instructions
    and their text form `op x [y]`, and the register file, a map in which an
    absent register reads as 0.
 */
module Day18Instructions {
  import opened Wrappers
  import opened Text

  /** `Registers`: a `HashMap<char, i64>`. */
  type Registers = map<char, int>

  /** `get_register`: the stored value, or 0 for a register never written. */
  function GetRegister(register: char, registers: Registers): (v: int)
    ensures register in registers ==> v == registers[register]
    ensures register !in registers ==> v == 0
  {
    if register in registers then registers[register] else 0
  }

  /** The `Err` strings of the parsers, one constructor per message. */
  datatype ParseError =
    | NotOneCharacter(input: string)
    | TooFewParts(line: string)
    | NotThreeParts(line: string)
    | UnknownOpCode(op: string)

  /** `parse_register_name`: the trimmed input must be exactly one byte long
      (`str::len` counts UTF-8 bytes), and that character is the name. */
  function ParseRegisterName(input: string): (r: Result<char, ParseError>)
    ensures r.Ok? <==> ByteLen(Trim(input)) == 1
    ensures r.Ok? ==> Trim(input) == [r.value] && r.value as int < 0x80
    ensures r.Err? ==> r.error == NotOneCharacter(input)
  {
    var t := Trim(input);
    if ByteLen(t) != 1 then Err(NotOneCharacter(input))
    else
      assert t == [t[0]] by { ByteLenOne(t); }
      Ok(t[0])
  }

  /** A string of one UTF-8 byte is one ASCII character. */
  lemma ByteLenOne(s: string)
    requires ByteLen(s) == 1
    ensures |s| == 1 && s[0] as int < 0x80
  {
    assert ByteLen(s[..|s| - 1]) == 0;
  }

  /** Any ASCII character that is not whitespace names a register, however
      much whitespace surrounds it. */
  lemma RegisterNameOfChar(c: char)
    requires c as int < 0x80 && !IsWhitespace(c)
    ensures ParseRegisterName([c]) == Ok(c)
  {
    TrimSpec([c]);
    ByteLenAscii([c]);
  }

  /** `Value`: a register to read or a literal (`Value::Value`). */
  datatype Value = Register(name: char) | Number(n: int)

  /** `Value::from_str`: an `i64` first, a register name otherwise. */
  function ValueFromStr(s: string): (r: Result<Value, ParseError>)
    ensures ParseI64(Trim(s)).Some? ==> r == Ok(Number(ParseI64(Trim(s)).value))
    ensures ParseI64(Trim(s)).None? && r.Ok? ==> r.value.Register? && Trim(s) == [r.value.name]
    ensures r.Ok? <==> ParseI64(Trim(s)).Some? || ByteLen(Trim(s)) == 1
    ensures r.Ok? && r.value.Number? ==> I64_MIN <= r.value.n <= I64_MAX
  {
    var n := ParseI64(Trim(s));
    if n.Some? then Ok(Number(n.value))
    else
      var name := ParseRegisterName(s);
      if name.Err? then Err(name.error) else Ok(Register(name.value))
  }

  /** A letter is a register, not a number. */
  lemma ValueOfLetter(c: char)
    requires 'a' <= c <= 'z'
    ensures ValueFromStr([c]) == Ok(Register(c))
  {
    TrimSpec([c]);
    assert ParseI64([c]).None?;
    RegisterNameOfChar(c);
  }

  /** `Value::get`: a register reads the register file, a literal is itself. */
  function Get(v: Value, registers: Registers): (r: int)
    ensures v.Register? ==> r == GetRegister(v.name, registers)
    ensures v.Number? ==> r == v.n
  {
    match v
    case Register(name) => GetRegister(name, registers)
    case Number(n) => n
  }

  /** The supported instructions. */
  datatype Instruction =
    | Send(x: Value)
    | Receive(reg: char)
    | Set(reg: char, v: Value)
    | Add(reg: char, v: Value)
    | Multiply(reg: char, v: Value)
    | Modulus(reg: char, v: Value)
    | Jump(x: Value, y: Value)

  /** The seven op codes. */
  datatype Op = Snd | Rcv | SetOp | AddOp | MulOp | ModOp | Jgz

  /** How each op code is written. */
  function OpName(op: Op): string {
    match op
    case Snd => "snd"
    case Rcv => "rcv"
    case SetOp => "set"
    case AddOp => "add"
    case MulOp => "mul"
    case ModOp => "mod"
    case Jgz => "jgz"
  }

  /** The op code of a word, if it is one. */
  function ParseOp(w: string): (r: Option<Op>)
    ensures r.Some? ==> OpName(r.value) == w
    ensures r.None? ==> forall op :: OpName(op) != w
  {
    match w
    case "snd" => Some(Snd)
    case "rcv" => Some(Rcv)
    case "set" => Some(SetOp)
    case "add" => Some(AddOp)
    case "mul" => Some(MulOp)
    case "mod" => Some(ModOp)
    case "jgz" => Some(Jgz)
    case _ => None
  }

  /** The op code of an instruction. */
  function OpOf(i: Instruction): Op {
    match i
    case Send(_) => Snd
    case Receive(_) => Rcv
    case Set(_, _) => SetOp
    case Add(_, _) => AddOp
    case Multiply(_, _) => MulOp
    case Modulus(_, _) => ModOp
    case Jump(_, _) => Jgz
  }

  /** `parse_register_value_pair`: a register name, then a value, combined
      by the constructor of `op`. */
  function ParseRegisterValuePair(op: Op, r: string, v: string): (res: Result<Instruction, ParseError>)
    requires op in {SetOp, AddOp, MulOp, ModOp}
    ensures res.Ok? ==> OpOf(res.value) == op
    ensures res.Ok? <==> ParseRegisterName(r).Ok? && ValueFromStr(v).Ok?
  {
    var name := ParseRegisterName(r);
    if name.Err? then Err(name.error)
    else
      var value := ValueFromStr(v);
      if value.Err? then Err(value.error)
      else
        match op
        case SetOp => Ok(Set(name.value, value.value))
        case AddOp => Ok(Add(name.value, value.value))
        case MulOp => Ok(Multiply(name.value, value.value))
        case ModOp => Ok(Modulus(name.value, value.value))
  }

  /** `Instruction::from_str`: the words of the trimmed line; `snd` and `rcv`
      read only the second word, every other op code needs exactly three. */
  function InstructionFromStr(s: string): (r: Result<Instruction, ParseError>)
    ensures |Words(Trim(s))| < 2 ==> r == Err(TooFewParts(s))
    ensures r.Ok? ==> |Words(Trim(s))| >= 2 && OpName(OpOf(r.value)) == Words(Trim(s))[0]
    ensures r.Ok? && !(r.value.Send? || r.value.Receive?) ==> |Words(Trim(s))| == 3
    ensures |Words(Trim(s))| >= 2 && ParseOp(Words(Trim(s))[0]).None? ==> r.Err?
  {
    FromWords(Words(Trim(s)), s)
  }

  /** `from_str` once the line is split into its words `parts`. */
  function FromWords(parts: seq<string>, s: string): (r: Result<Instruction, ParseError>)
    ensures |parts| < 2 ==> r == Err(TooFewParts(s))
    ensures r.Ok? ==> |parts| >= 2 && ParseOp(parts[0]) == Some(OpOf(r.value))
    ensures r.Ok? && !(r.value.Send? || r.value.Receive?) ==> |parts| == 3
    ensures |parts| >= 2 && ParseOp(parts[0]).None? ==> r.Err?
  {
    if |parts| < 2 then Err(TooFewParts(s))
    else
      var op := ParseOp(parts[0]);
      if op == Some(Snd) then
        var v := ValueFromStr(parts[1]);
        if v.Err? then Err(v.error) else Ok(Send(v.value))
      else if op == Some(Rcv) then
        var name := ParseRegisterName(parts[1]);
        if name.Err? then Err(name.error) else Ok(Receive(name.value))
      else if |parts| != 3 then Err(NotThreeParts(s))
      else if op.None? then Err(UnknownOpCode(parts[0]))
      else if op.value == Jgz then
        var x := ValueFromStr(parts[1]);
        if x.Err? then Err(x.error)
        else
          var y := ValueFromStr(parts[2]);
          if y.Err? then Err(y.error) else Ok(Jump(x.value, y.value))
      else ParseRegisterValuePair(op.value, parts[1], parts[2])
  }

  /** The result of every line, in order. */
  function ParseEach(lines: seq<string>): (r: seq<Result<Instruction, ParseError>>)
    ensures |r| == |lines| && forall i :: 0 <= i < |lines| ==> r[i] == InstructionFromStr(lines[i])
  {
    seq(|lines|, i requires 0 <= i < |lines| => InstructionFromStr(lines[i]))
  }

  /** `parse`: every line of the trimmed text is an instruction; `Err` is
      the panic of the `unwrap` on the first line that does not parse. */
  function Parse(s: string): Result<seq<Instruction>, ParseError> {
    Collect(ParseEach(Lines(Trim(s))))
  }

  /** The program has one instruction per line, each the parse of its line,
      and a single bad line makes the whole parse fail. */
  lemma ParseLines(s: string)
    ensures Parse(s).Ok? ==> |Parse(s).value| == |Lines(Trim(s))|
    ensures Parse(s).Ok? ==> forall i :: 0 <= i < |Lines(Trim(s))| ==>
      InstructionFromStr(Lines(Trim(s))[i]) == Ok(Parse(s).value[i])
    ensures Parse(s).Ok? <==> forall i :: 0 <= i < |Lines(Trim(s))| ==> InstructionFromStr(Lines(Trim(s))[i]).Ok?
  {
  }
}
