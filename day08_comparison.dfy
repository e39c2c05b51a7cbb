/** The conditions of day 8 (`day-08/src/comparison.rs`): a register, one
    of six comparison operators and an `i32`, checked against the register
    file, in which an absent register reads as 0.

    The text form `register op value` is read by a regular expression in
    the source; the model reads the grammar it describes by hand.
 */
module Day08Comparison {
  import opened Wrappers
  import opened Text

  /** `ComparisionOperator`. */
  datatype Operator = Eq | Neq | Gt | Gte | Lt | Lte

  /** The register file: a `HashMap<String, i32>`. */
  type Registers = map<string, int>

  /** `Comparision`: `register op value`. */
  datatype Comparison = Comparison(register: string, op: Operator, value: int)

  /** `Debug` of an operator: its symbol. */
  function ShowOperator(op: Operator): string {
    match op
    case Eq => "=="
    case Neq => "!="
    case Gt => ">"
    case Gte => ">="
    case Lt => "<"
    case Lte => "<="
  }

  /** `ComparisionOperator::from_str`: one of the six symbols exactly;
      anything else is `Err` with the text. */
  function ParseOperator(s: string): (r: Result<Operator, string>)
    ensures r.Err? ==> r.error == s
  {
    if s == "==" then Ok(Eq)
    else if s == "!=" then Ok(Neq)
    else if s == ">" then Ok(Gt)
    else if s == ">=" then Ok(Gte)
    else if s == "<" then Ok(Lt)
    else if s == "<=" then Ok(Lte)
    else Err(s)
  }

  /** Printing an operator and reading it back gives the operator, and the
      only texts read as operators are the printed ones. */
  lemma OperatorRoundTrip(op: Operator, s: string)
    ensures ParseOperator(ShowOperator(op)) == Ok(op)
    ensures ParseOperator(s).Ok? ==> ShowOperator(ParseOperator(s).value) == s
  {
  }

  /** `get(..).unwrap_or(&0)`: the stored value, 0 for an absent register. */
  function Get(registers: Registers, name: string): (v: int)
    ensures name in registers ==> v == registers[name]
    ensures name !in registers ==> v == 0
  {
    if name in registers then registers[name] else 0
  }

  /** `check`: the register's value compared with `value` by the
      operator. */
  function Check(c: Comparison, registers: Registers): bool {
    var register := Get(registers, c.register);
    match c.op
    case Eq => register == c.value
    case Neq => register != c.value
    case Lt => register < c.value
    case Lte => register <= c.value
    case Gt => register > c.value
    case Gte => register >= c.value
  }

  /** `!=` holds exactly when `==` does not, `>` exactly when `<=` does
      not, and `<` exactly when `>=` does not. */
  lemma CheckNegations(register: string, value: int, registers: Registers)
    ensures Check(Comparison(register, Neq, value), registers) == !Check(Comparison(register, Eq, value), registers)
    ensures Check(Comparison(register, Gt, value), registers) == !Check(Comparison(register, Lte, value), registers)
    ensures Check(Comparison(register, Lt, value), registers) == !Check(Comparison(register, Gte, value), registers)
  {
  }

  /** A register that was never written compares as 0. */
  lemma CheckAbsent(c: Comparison, registers: Registers)
    requires c.register !in registers
    ensures Check(c, registers) == Check(c, registers[c.register := 0])
  {
  }

  // ---------------------------------------------------------------- text

  /** `[a-z]+`. */
  predicate IsName(s: string) {
    s != [] && forall i :: 0 <= i < |s| ==> 'a' <= s[i] <= 'z'
  }

  /** `[^\s]+`. */
  predicate IsToken(s: string) {
    s != [] && forall i :: 0 <= i < |s| ==> !IsWhitespace(s[i])
  }

  /** `-?[0-9]+`. */
  predicate IsNumber(s: string) {
    var digits := if s != [] && s[0] == '-' then s[1..] else s;
    digits != [] && AllDigits(digits)
  }

  /** Why a condition is not read: `Unmatched` is the `Err` when the text
      does not match `^([a-z]+) ([^\s]+) (-?[0-9]+)$`; the other two are the
      panics of the `expect`s on the operator and on the value. */
  datatype ComparisonError = Unmatched(text: string) | BadOperator(op: string) | BadValue(value: string)

  /** The three captures of `^([a-z]+) ([^\s]+) (-?[0-9]+)$` over `t`. */
  function Captures(t: string): (r: Option<(string, string, string)>)
    ensures r.Some? ==> t == r.value.0 + " " + r.value.1 + " " + r.value.2
    ensures r.Some? ==> IsName(r.value.0) && IsToken(r.value.1) && IsNumber(r.value.2)
  {
    var first := SplitOnce(t, ' ');
    if first.None? then None
    else
      var (register, rest) := first.value;
      var second := SplitOnce(rest, ' ');
      if second.None? then None
      else
        var (op, value) := second.value;
        if IsName(register) && IsToken(op) && IsNumber(value) then Some((register, op, value)) else None
  }

  /** `Comparision::from_str`: the trimmed text matched, then the operator
      and the value parsed. */
  function FromStr(s: string): (r: Result<Comparison, ComparisonError>)
    ensures r.Ok? ==> IsName(r.value.register) && I32_MIN <= r.value.value <= I32_MAX
    ensures Captures(Trim(s)).None? <==> r == Err(Unmatched(s))
  {
    var cap := Captures(Trim(s));
    if cap.None? then Err(Unmatched(s))
    else
      var (register, op, value) := cap.value;
      var o := ParseOperator(op);
      var v := ParseI32(value);
      if o.Err? then Err(BadOperator(op))
      else if v.None? then Err(BadValue(value))
      else Ok(Comparison(register, o.value, v.value))
  }

  /** `Debug` of a comparison: `register op value`. */
  function Show(c: Comparison): string {
    c.register + " " + ShowOperator(c.op) + " " + IntToString(c.value)
  }

  /** The captures of `register op value` are the three parts. */
  lemma CapturesOf(register: string, op: string, value: string)
    requires IsName(register) && IsToken(op) && IsNumber(value)
    ensures Captures(register + " " + op + " " + value) == Some((register, op, value))
  {
    forall i | 0 <= i < |register|
      ensures register[i] != ' '
    {
    }
    forall i | 0 <= i < |op|
      ensures op[i] != ' '
    {
      assert !IsWhitespace(op[i]);
    }
    assert register + " " + op + " " + value == register + [' '] + (op + [' '] + value);
    SplitOnceOf(register, op + [' '] + value, ' ');
    SplitOnceOf(op, value, ' ');
  }

  /** A printed `i32` is a number. */
  lemma NumberOf(n: int)
    ensures IsNumber(IntToString(n))
  {
    var s := IntToString(n);
    if n < 0 {
      assert s[1..] == NatToString(-n);
    } else {
      assert s[0] != '-';
    }
  }

  /** A text `register op value` whose parts are a name, an operator and an
      `i32`, with nothing to trim, is read as that comparison. */
  lemma FromStrOf(register: string, op: Operator, value: int, text: string)
    requires IsName(register) && I32_MIN <= value <= I32_MAX
    requires text == register + " " + ShowOperator(op) + " " + IntToString(value)
    ensures FromStr(text) == Ok(Comparison(register, op, value))
  {
    NumberOf(value);
    assert IsToken(ShowOperator(op));
    CapturesOf(register, ShowOperator(op), IntToString(value));
    TrimmedOf(register, ShowOperator(op), value, text);
    ParseIntToString(value, I32_MIN, I32_MAX);
    OperatorRoundTrip(op, []);
    FromStrOfCaptures(text, register, ShowOperator(op), IntToString(value), Comparison(register, op, value));
  }

  /** Such a text has nothing to trim. */
  lemma TrimmedOf(register: string, op: string, value: int, text: string)
    requires register != [] && text == register + " " + op + " " + IntToString(value)
    requires !IsWhitespace(register[0])
    ensures Trim(text) == text
  {
    var v := IntToString(value);
    assert text[0] == register[0];
    assert text[|text| - 1] == v[|v| - 1];
    TrimSpec(text);
  }

  /** A text whose trimmed form matches, with an operator and an `i32`
      that parse, is read as that comparison. */
  lemma FromStrOfCaptures(s: string, register: string, op: string, value: string, c: Comparison)
    ensures (Captures(Trim(s)) == Some((register, op, value)) && ParseOperator(op) == Ok(c.op) &&
      ParseI32(value) == Some(c.value) && c.register == register) ==> FromStr(s) == Ok(c)
  {
  }

  /** Printing a comparison whose register is a name and whose value is an
      `i32` and reading it back gives the comparison. */
  lemma FromStrShow(c: Comparison)
    requires IsName(c.register) && I32_MIN <= c.value <= I32_MAX
    ensures FromStr(Show(c)) == Ok(c)
  {
    FromStrOf(c.register, c.op, c.value, Show(c));
  }

  /** `"abc <= -32"` is `abc`, `<=`, -32. */
  lemma SampleLessEq()
    ensures FromStr("abc <= -32") == Ok(Comparison("abc", Lte, -32))
  {
    assert IntToString(-32) == "-32";
    assert "abc <= -32" == "abc" + " " + ShowOperator(Lte) + " " + IntToString(-32);
    FromStrOf("abc", Lte, -32, "abc <= -32");
  }

  /** `"fdsf == 123"` is `fdsf`, `==`, 123. */
  lemma SampleEq()
    ensures FromStr("fdsf == 123") == Ok(Comparison("fdsf", Eq, 123))
  {
    assert IntToString(123) == "123";
    assert "fdsf == 123" == "fdsf" + " " + ShowOperator(Eq) + " " + IntToString(123);
    FromStrOf("fdsf", Eq, 123, "fdsf == 123");
  }
}
