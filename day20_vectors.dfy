/** The vectors of day 20 (`day-20/src/vectors/mod.rs`): three `i32`
    components, the Manhattan distance from the origin, component-wise
    addition, the order `derive(Ord)` gives (x first, then y, then z) and
    the text form `<x,y,z>`.
 */
module Day20Vectors {
  import opened Wrappers
  import opened Text

  /** `V3`; `V3::new(x, y, z)` is the constructor. */
  datatype V3 = V3(x: int, y: int, z: int)

  const Zero: V3 := V3(0, 0, 0)

  function Abs(n: int): (r: nat)
    ensures r == n || r == -n
  {
    if n < 0 then -n else n
  }

  /** `manhattan`: the distance from the origin along the axes. */
  function Manhattan(v: V3): (r: int)
    ensures r >= 0
    ensures r == 0 <==> v == Zero
    ensures r >= Abs(v.x) && r >= Abs(v.y) && r >= Abs(v.z)
  {
    Abs(v.x) + Abs(v.y) + Abs(v.z)
  }

  /** `add_assign`: the vector after `rhs` is added to it, component by
      component; `rhs` itself is only read. */
  function Add(v: V3, rhs: V3): V3 {
    V3(v.x + rhs.x, v.y + rhs.y, v.z + rhs.z)
  }

  /** The vector that undoes an addition. */
  function Negate(v: V3): V3 {
    V3(-v.x, -v.y, -v.z)
  }

  /** Adding is commutative and associative, `Zero` adds nothing, and adding
      the negation undoes an addition. */
  lemma AddLaws(a: V3, b: V3, c: V3)
    ensures Add(a, b) == Add(b, a)
    ensures Add(Add(a, b), c) == Add(a, Add(b, c))
    ensures Add(a, Zero) == a
    ensures Add(Add(a, b), Negate(b)) == a
  {
  }

  lemma AbsTriangle(a: int, b: int)
    ensures Abs(a + b) <= Abs(a) + Abs(b)
  {
  }

  /** The distance of a sum is at most the sum of the distances. */
  lemma ManhattanTriangle(a: V3, b: V3)
    ensures Manhattan(Add(a, b)) <= Manhattan(a) + Manhattan(b)
  {
    AbsTriangle(a.x, b.x);
    AbsTriangle(a.y, b.y);
    AbsTriangle(a.z, b.z);
  }

  /** The order `derive(PartialOrd, Ord)` gives: lexicographic on x, y, z. */
  predicate LessEq(a: V3, b: V3) {
    a.x < b.x || (a.x == b.x && (a.y < b.y || (a.y == b.y && a.z <= b.z)))
  }

  /** `LessEq` is a total order. */
  lemma LessEqOrder(a: V3, b: V3, c: V3)
    ensures LessEq(a, a)
    ensures LessEq(a, b) || LessEq(b, a)
    ensures LessEq(a, b) && LessEq(b, a) ==> a == b
    ensures LessEq(a, b) && LessEq(b, c) ==> LessEq(a, c)
  {
  }

  /** The `Err` strings of `from_str`: one constructor per message format.
      `BadComponent` stands for every "Unable to parse component of vector"
      message; the `ParseIntError` text it carries (empty, invalid digit or
      out of range) is not kept. */
  datatype VectorError =
    | NoOpening(text: string)
    | NoClosing(text: string)
    | NotThreeParts(count: nat, text: string)
    | BadComponent

  /** The component at `part`, trimmed and parsed as `i32`. */
  function Component(part: string): Option<int> {
    ParseI32(Trim(part))
  }

  /** `V3::from_str`: the trimmed text inside `<` and `>`, split on `,` into
      exactly three components; the first that does not parse is the
      error. */
  function FromStr(s: string): (r: Result<V3, VectorError>)
    ensures Trim(s) == [] || Trim(s)[0] != '<' ==> r == Err(NoOpening(Trim(s)))
    ensures Trim(s) != [] && Trim(s)[0] == '<' && Trim(s)[|Trim(s)| - 1] != '>' ==> r == Err(NoClosing(Trim(s)))
    ensures r.Ok? ==> |Trim(s)| >= 2 && Trim(s)[0] == '<' && Trim(s)[|Trim(s)| - 1] == '>'
    ensures r.Ok? ==> |Inner(Trim(s))| == 3
    ensures r.Ok? ==>
      Component(Inner(Trim(s))[0]) == Some(r.value.x) &&
      Component(Inner(Trim(s))[1]) == Some(r.value.y) &&
      Component(Inner(Trim(s))[2]) == Some(r.value.z)
    ensures r.Ok? ==> I32_MIN <= r.value.x <= I32_MAX && I32_MIN <= r.value.y <= I32_MAX && I32_MIN <= r.value.z <= I32_MAX
  {
    Bracketed(Trim(s))
  }

  /** The reading of the trimmed text `t`. */
  function Bracketed(t: string): Result<V3, VectorError> {
    if t == [] || t[0] != '<' then Err(NoOpening(t))
    else if t[|t| - 1] != '>' then Err(NoClosing(t))
    else
      var parts := Inner(t);
      if |parts| != 3 then Err(NotThreeParts(|parts|, t))
      else
        var x := Component(parts[0]);
        var y := Component(parts[1]);
        var z := Component(parts[2]);
        if x.None? || y.None? || z.None? then Err(BadComponent)
        else Ok(V3(x.value, y.value, z.value))
  }

  /** The pieces between the brackets of `<...>`. */
  function Inner(t: string): seq<string>
    requires |t| >= 2
  {
    Split(t[1..|t| - 1], ',')
  }

  /** The text form `<x,y,z>`. */
  function Show(v: V3): string {
    "<" + IntToString(v.x) + "," + IntToString(v.y) + "," + IntToString(v.z) + ">"
  }

  /** The pieces between the brackets of `<px,py,pz>` are the three
      texts. */
  lemma InnerOf(px: string, py: string, pz: string)
    requires ',' !in px && ',' !in py && ',' !in pz
    ensures Inner("<" + px + "," + py + "," + pz + ">") == [px, py, pz]
  {
    var t := "<" + px + "," + py + "," + pz + ">";
    assert t[1..|t| - 1] == px + [','] + (py + [','] + pz);
    SplitOfJoinHead(px, py + [','] + pz, ',');
    SplitOfJoinHead(py, pz, ',');
    SplitNoSep(pz, ',');
  }

  /** A text `<px,py,pz>` with nothing to trim is read as the three
      components. */
  lemma FromStrOf(px: string, py: string, pz: string, v: V3)
    requires ',' !in px && ',' !in py && ',' !in pz
    requires Component(px) == Some(v.x) && Component(py) == Some(v.y) && Component(pz) == Some(v.z)
    ensures FromStr("<" + px + "," + py + "," + pz + ">") == Ok(v)
  {
    var t := "<" + px + "," + py + "," + pz + ">";
    assert t[0] == '<' && t[|t| - 1] == '>';
    BracketsTrimmed(t);
    InnerOf(px, py, pz);
    FromStrInner(t, v);
  }

  /** A text between `<` and `>` has nothing to trim. */
  lemma BracketsTrimmed(t: string)
    requires |t| >= 2 && t[0] == '<' && t[|t| - 1] == '>'
    ensures Trim(t) == t
  {
    TrimSpec(t);
  }

  /** A bracketed text with three pieces inside that parse is read as
      those components. */
  lemma FromStrInner(t: string, v: V3)
    requires |t| >= 2 && t[0] == '<' && t[|t| - 1] == '>' && Trim(t) == t
    requires |Inner(t)| == 3
    ensures (Component(Inner(t)[0]) == Some(v.x) && Component(Inner(t)[1]) == Some(v.y) &&
      Component(Inner(t)[2]) == Some(v.z)) ==> FromStr(t) == Ok(v)
  {
    if Component(Inner(t)[0]) == Some(v.x) && Component(Inner(t)[1]) == Some(v.y) && Component(Inner(t)[2]) == Some(v.z) {
      assert Bracketed(t) == Ok(v);
    }
  }

  /** A vector whose components are `i32`s is read back from its text. */
  lemma FromStrShow(v: V3)
    requires I32_MIN <= v.x <= I32_MAX && I32_MIN <= v.y <= I32_MAX && I32_MIN <= v.z <= I32_MAX
    ensures FromStr(Show(v)) == Ok(v)
  {
    ComponentOf(v.x);
    ComponentOf(v.y);
    ComponentOf(v.z);
    FromStrOf(IntToString(v.x), IntToString(v.y), IntToString(v.z), v);
  }

  /** A printed `i32` is read back as that component. */
  lemma ComponentOf(n: int)
    requires I32_MIN <= n <= I32_MAX
    ensures ',' !in IntToString(n)
    ensures Component(IntToString(n)) == Some(n)
  {
    var s := IntToString(n);
    TrimSpec(s);
    assert !IsWhitespace(s[0]) && !IsWhitespace(s[|s| - 1]);
    ParseIntToString(n, I32_MIN, I32_MAX);
  }

  lemma SampleComponents()
    ensures Component(" 4") == Some(4)
    ensures Component("3") == Some(3)
    ensures Component("-1") == Some(-1)
  {
    assert IntToString(4) == "4" && IntToString(3) == "3" && IntToString(-1) == "-1";
    ComponentOf(3);
    ComponentOf(-1);
    ComponentOf(4);
    assert TrimStart(" 4") == TrimStart("4");
  }

  /** `"< 4,3,-1>"` is the vector (4, 3, -1). */
  lemma SampleVector()
    ensures FromStr("< 4,3,-1>") == Ok(V3(4, 3, -1))
  {
    assert "< 4,3,-1>" == "<" + " 4" + "," + "3" + "," + "-1" + ">";
    SampleComponents();
    FromStrOf(" 4", "3", "-1", V3(4, 3, -1));
  }
}
