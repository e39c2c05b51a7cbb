/** The particles of day 20 (`day-20/src/particle.rs`): a position, a
    velocity and an acceleration; a step adds the acceleration to the
    velocity and then the new velocity to the position.

    `from_str` matches the trimmed line against the anchored pattern
    `p=<…>,\s*v=<…>,\s*a=<…>` whose vectors are `<\s*-?\d+,\s*-?\d+,\s*-?\d+>`,
    and reads the three captured vectors.  No two neighbouring parts of the
    pattern can match the same character (`\s`, `-`, digits, `,`, `<`, `>`
    and the letters are disjoint), so the pattern matches in exactly one way
    and the scanner below, which takes each part as far as it goes, finds
    that match.
 */
module Day20Particle {
  import opened Wrappers
  import opened Text
  import opened Day20Vectors

  /** `Particle`. */
  datatype Particle = Particle(position: V3, velocity: V3, acceleration: V3)

  /** `step`: the velocity gains the acceleration, then the position gains
      the new velocity. */
  function Step(p: Particle): (r: Particle)
    ensures r.acceleration == p.acceleration
    ensures r.velocity == Add(p.velocity, p.acceleration)
    ensures r.position == Add(Add(p.position, p.velocity), p.acceleration)
  {
    var velocity := Add(p.velocity, p.acceleration);
    AddLaws(p.position, p.velocity, p.acceleration);
    Particle(Add(p.position, velocity), velocity, p.acceleration)
  }

  /** `n` steps. */
  function Steps(p: Particle, n: nat): Particle
    decreases n
  {
    if n == 0 then p else Steps(Step(p), n - 1)
  }

  /** Without acceleration a particle moves by its velocity each step. */
  lemma {:induction false} StepsUniform(p: Particle, n: nat)
    requires p.acceleration == Zero
    ensures Steps(p, n).velocity == p.velocity && Steps(p, n).acceleration == Zero
    ensures Steps(p, n).position ==
      V3(p.position.x + n * p.velocity.x, p.position.y + n * p.velocity.y, p.position.z + n * p.velocity.z)
    decreases n
  {
    if n > 0 {
      var q := Step(p);
      var v := p.velocity;
      assert q == Particle(Add(p.position, v), v, Zero);
      StepsUniform(q, n - 1);
      assert (n - 1) * v.x + v.x == n * v.x;
      assert (n - 1) * v.y + v.y == n * v.y;
      assert (n - 1) * v.z + v.z == n * v.z;
    }
  }

  // ---------------------------------------------------------------- pattern

  /** The number of decimal digits (`\d`) that start `s`. */
  function DigitRun(s: string): (n: nat)
    ensures n <= |s|
    ensures forall i :: 0 <= i < n ==> IsDigit(s[i])
    ensures n < |s| ==> !IsDigit(s[n])
  {
    if s != [] && IsDigit(s[0]) then 1 + DigitRun(s[1..]) else 0
  }

  /** What follows the character `c` at the start of `s`. */
  function Expect(s: string, c: char): (r: Option<string>)
    ensures r.Some? <==> s != [] && s[0] == c
    ensures r.Some? ==> r.value == s[1..]
  {
    if s != [] && s[0] == c then Some(s[1..]) else None
  }

  /** What follows `-?\d+` at the start of `s`. */
  function AfterNumber(s: string): (r: Option<string>)
    ensures r.Some? ==> |r.value| < |s|
  {
    var t := if s != [] && s[0] == '-' then s[1..] else s;
    var n := DigitRun(t);
    if n == 0 then None else Some(t[n..])
  }

  /** What follows `\s*-?\d+` then the character `c`. */
  function AfterComponent(s: string, c: char): (r: Option<string>)
    ensures r.Some? ==> |r.value| < |s|
  {
    var n := AfterNumber(TrimStart(s));
    if n.None? then None else Expect(n.value, c)
  }

  /** What follows a vector `<\s*-?\d+,\s*-?\d+,\s*-?\d+>` at the start of
      `s`. */
  function AfterVector(s: string): (r: Option<string>)
    ensures r.Some? ==> |r.value| < |s|
  {
    var s0 := Expect(s, '<');
    if s0.None? then None
    else
      var s1 := AfterComponent(s0.value, ',');
      if s1.None? then None
      else
        var s2 := AfterComponent(s1.value, ',');
        if s2.None? then None
        else AfterComponent(s2.value, '>')
  }

  /** A vector at the start of `s`: the text it covers, and what follows. */
  function Vector(s: string): (r: Option<(string, string)>)
    ensures r.Some? ==> s == r.value.0 + r.value.1
  {
    var rest := AfterVector(s);
    if rest.None? then None
    else
      assert s == s[..|s| - |rest.value|] + rest.value by {
        AfterVectorSuffix(s);
      }
      Some((s[..|s| - |rest.value|], rest.value))
  }

  /** `AfterVector` returns a suffix. */
  lemma AfterVectorSuffix(s: string)
    ensures AfterVector(s).Some? ==> AfterVector(s).value == s[|s| - |AfterVector(s).value|..]
  {
    if AfterVector(s).None? {
      return;
    }
    var s0 := Expect(s, '<').value;
    var s1 := AfterComponent(s0, ',').value;
    var s2 := AfterComponent(s1, ',').value;
    AfterComponentSuffix(s0, ',');
    AfterComponentSuffix(s1, ',');
    AfterComponentSuffix(s2, '>');
  }

  lemma AfterComponentSuffix(s: string, c: char)
    requires AfterComponent(s, c).Some?
    ensures AfterComponent(s, c).value == s[|s| - |AfterComponent(s, c).value|..]
  {
    var t := TrimStart(s);
    TrimStartSuffix(s);
    var m := AfterNumber(t).value;
    AfterNumberSuffix(t);
    SuffixOfSuffix(s, t, m);
    SuffixOfSuffix(s, m, m[1..]);
  }

  lemma TrimStartSuffix(s: string)
    ensures TrimStart(s) == s[|s| - |TrimStart(s)|..]
  {
    TrimStartSpec(s);
  }

  /** `AfterNumber` returns a suffix. */
  lemma AfterNumberSuffix(s: string)
    requires AfterNumber(s).Some?
    ensures AfterNumber(s).value == s[|s| - |AfterNumber(s).value|..]
  {
    var t := if s != [] && s[0] == '-' then s[1..] else s;
    SuffixOfSuffix(s, t, t[DigitRun(t)..]);
  }

  /** A suffix of a suffix is a suffix. */
  lemma SuffixOfSuffix(s: string, t: string, u: string)
    requires |t| <= |s| && t == s[|s| - |t|..]
    requires |u| <= |t| && u == t[|t| - |u|..]
    ensures u == s[|s| - |u|..]
  {
  }

  /** The three captured vectors of the pattern over the trimmed line, when
      it matches. */
  function Captures(line: string): Option<(string, string, string)> {
    var p := Expect(line, 'p');
    var p := if p.None? then None else Expect(p.value, '=');
    if p.None? then None
    else
      var pv := Vector(p.value);
      if pv.None? then None
      else
        var rest := Fields(pv.value.1);
        if rest.None? then None else Some((pv.value.0, rest.value.0, rest.value.1))
  }

  /** The captured velocity and acceleration after the position, when the
      rest of the line matches. */
  function Fields(s: string): Option<(string, string)> {
    var v := Field(s, 'v');
    if v.None? then None
    else
      var vv := Vector(v.value);
      if vv.None? then None
      else
        var a := Field(vv.value.1, 'a');
        if a.None? then None
        else
          var av := Vector(a.value);
          if av.None? || av.value.1 != [] then None
          else Some((vv.value.0, av.value.0))
  }

  /** What follows `,\s*` and the field name `name=`. */
  function Field(s: string, name: char): Option<string> {
    var c := Expect(s, ',');
    if c.None? then None
    else
      var n := Expect(TrimStart(c.value), name);
      if n.None? then None else Expect(n.value, '=')
  }

  /** The `Err` strings of `from_str`: no match, or the error of the first
      vector that does not parse. */
  datatype ParticleError = NotDetected(line: string) | InVector(error: VectorError)

  /** `Particle::from_str`. */
  function FromStr(s: string): (r: Result<Particle, ParticleError>)
    ensures Captures(Trim(s)).None? ==> r == Err(NotDetected(s))
    ensures Captures(Trim(s)).Some? ==> r.Err? ==> r.error.InVector?
    ensures Captures(Trim(s)).Some? ==>
      var (cp, cv, ca) := Captures(Trim(s)).value;
      && (Day20Vectors.FromStr(cp).Err? ==> r == Err(InVector(Day20Vectors.FromStr(cp).error)))
      && (Day20Vectors.FromStr(cp).Ok? && Day20Vectors.FromStr(cv).Err? ==> r == Err(InVector(Day20Vectors.FromStr(cv).error)))
      && (Day20Vectors.FromStr(cp).Ok? && Day20Vectors.FromStr(cv).Ok? && Day20Vectors.FromStr(ca).Err? ==>
          r == Err(InVector(Day20Vectors.FromStr(ca).error)))
      && (r.Ok? <==> Day20Vectors.FromStr(cp).Ok? && Day20Vectors.FromStr(cv).Ok? && Day20Vectors.FromStr(ca).Ok?)
      && (r.Ok? ==> r.value == Particle(Day20Vectors.FromStr(cp).value, Day20Vectors.FromStr(cv).value,
                                         Day20Vectors.FromStr(ca).value))
  {
    var caps := Captures(Trim(s));
    if caps.None? then Err(NotDetected(s))
    else
      var (cp, cv, ca) := caps.value;
      var position := Day20Vectors.FromStr(cp);
      var velocity := Day20Vectors.FromStr(cv);
      var acceleration := Day20Vectors.FromStr(ca);
      if position.Err? then Err(InVector(position.error))
      else if velocity.Err? then Err(InVector(velocity.error))
      else if acceleration.Err? then Err(InVector(acceleration.error))
      else Ok(Particle(position.value, velocity.value, acceleration.value))
  }

  // ---------------------------------------------------------------- text form

  /** A text of whitespace only (`\s*`). */
  predicate Blank(w: string) {
    forall i :: 0 <= i < |w| ==> IsWhitespace(w[i])
  }

  /** A number followed by the character `c`. */
  function ComponentText(n: int, c: char): string {
    IntToString(n) + [c]
  }

  /** A vector written `<` `w` `x,y,z>`, with the whitespace `w` after the
      opening bracket. */
  function VectorText(w: string, v: V3): string {
    "<" + (w + ComponentText(v.x, ',')) + ComponentText(v.y, ',') + ComponentText(v.z, '>')
  }

  /** The separator `,` `gap` `name=` before a field. */
  function FieldText(gap: string, name: char): string {
    "," + gap + [name, '=']
  }

  /** A particle written `p=<…>,` `gap` `v=<…>,` `gap` `a=<…>`, with the
      whitespace `wp`, `wv` and `wa` inside its vectors. */
  function ParticleText(p: Particle, wp: string, wv: string, wa: string, gap: string): string {
    "p=" + VectorText(wp, p.position) + FieldText(gap, 'v') + VectorText(wv, p.velocity) + FieldText(gap, 'a') +
    VectorText(wa, p.acceleration)
  }

  /** The text form `p=<x,y,z>, v=<x,y,z>, a=<x,y,z>`. */
  function Show(p: Particle): string {
    ParticleText(p, "", "", "", " ")
  }

  /** Whether every component of the particle is an `i32`. */
  predicate Fits(p: Particle) {
    && I32_MIN <= p.position.x <= I32_MAX && I32_MIN <= p.position.y <= I32_MAX && I32_MIN <= p.position.z <= I32_MAX
    && I32_MIN <= p.velocity.x <= I32_MAX && I32_MIN <= p.velocity.y <= I32_MAX && I32_MIN <= p.velocity.z <= I32_MAX
    && I32_MIN <= p.acceleration.x <= I32_MAX && I32_MIN <= p.acceleration.y <= I32_MAX
    && I32_MIN <= p.acceleration.z <= I32_MAX
  }

  lemma {:induction false} DigitRunOf(d: string, r: string)
    requires AllDigits(d) && (r == [] || !IsDigit(r[0]))
    ensures DigitRun(d + r) == |d|
    decreases |d|
  {
    if d != [] {
      assert (d + r)[1..] == d[1..] + r;
      DigitRunOf(d[1..], r);
    }
  }

  /** Whitespace in front of a text that does not start with whitespace is
      what `TrimStart` removes. */
  lemma {:induction false} TrimStartBlank(w: string, s: string)
    requires Blank(w) && s != [] && !IsWhitespace(s[0])
    ensures TrimStart(w + s) == s
    decreases |w|
  {
    if w != [] {
      assert (w + s)[1..] == w[1..] + s;
      TrimStartBlank(w[1..], s);
    } else {
      assert w + s == s;
    }
  }

  lemma Assoc<T>(a: seq<T>, b: seq<T>, c: seq<T>)
    ensures (a + b) + c == a + (b + c)
  {
  }

  /** A printed number is read as `-?\d+`. */
  lemma AfterNumberOf(n: int, r: string)
    requires r == [] || !IsDigit(r[0])
    ensures AfterNumber(IntToString(n) + r) == Some(r)
  {
    var d := NatToString(if n < 0 then -n else n);
    if n < 0 {
      Assoc("-", d, r);
      assert ("-" + (d + r))[1..] == d + r;
    }
    DigitRunOf(d, r);
    assert (d + r)[|d|..] == r;
  }

  /** A printed number and `c` are read as a component ending with `c`. */
  lemma AfterComponentOf(n: int, c: char, r: string)
    requires !IsDigit(c)
    ensures AfterComponent(ComponentText(n, c) + r, c) == Some(r)
  {
    var s := IntToString(n);
    Assoc(s, [c], r);
    TrimStartBlank([], s + ([c] + r));
    assert [] + (s + ([c] + r)) == s + ([c] + r);
    AfterNumberOf(n, [c] + r);
  }

  /** Whitespace, a printed number and `c` are read as a component ending
      with `c`. */
  lemma AfterBlankComponentOf(w: string, n: int, c: char, r: string)
    requires Blank(w) && !IsDigit(c)
    ensures AfterComponent(w + ComponentText(n, c) + r, c) == Some(r)
  {
    var s := IntToString(n);
    Assoc(w, ComponentText(n, c), r);
    Assoc(s, [c], r);
    TrimStartBlank(w, s + ([c] + r));
    AfterNumberOf(n, [c] + r);
  }

  /** A written vector is scanned up to what follows it. */
  lemma AfterVectorOf(w: string, v: V3, r: string)
    requires Blank(w)
    ensures AfterVector(VectorText(w, v) + r) == Some(r)
  {
    var a, b, c := w + ComponentText(v.x, ','), ComponentText(v.y, ','), ComponentText(v.z, '>');
    var s := VectorText(w, v) + r;
    assert s == "<" + a + b + c + r;
    VectorTail(a, b, c, r);
    assert Expect(s, '<') == Some(a + (b + (c + r)));
    AfterBlankComponentOf(w, v.x, ',', b + (c + r));
    assert AfterComponent(a + (b + (c + r)), ',') == Some(b + (c + r));
    AfterComponentOf(v.y, ',', c + r);
    AfterComponentOf(v.z, '>', r);
  }

  lemma VectorTail(a: string, b: string, c: string, r: string)
    ensures ("<" + a + b + c + r)[1..] == a + (b + (c + r))
  {
    Assoc("<" + a + b, c, r);
    Assoc("<" + a, b, c + r);
    Assoc("<", a, b + (c + r));
    Assoc(a, b, c + r);
  }

  /** A written vector is read as a vector. */
  lemma VectorOf(w: string, v: V3, r: string)
    requires Blank(w)
    ensures Vector(VectorText(w, v) + r) == Some((VectorText(w, v), r))
  {
    var s := VectorText(w, v) + r;
    AfterVectorOf(w, v, r);
    assert s[..|s| - |r|] == VectorText(w, v);
  }

  /** A vector written with whitespace after its bracket is read as that
      vector. */
  lemma VectorTextValue(w: string, v: V3)
    requires Blank(w)
    requires I32_MIN <= v.x <= I32_MAX && I32_MIN <= v.y <= I32_MAX && I32_MIN <= v.z <= I32_MAX
    ensures Day20Vectors.FromStr(VectorText(w, v)) == Ok(v)
  {
    var sx, sy, sz := IntToString(v.x), IntToString(v.y), IntToString(v.z);
    ComponentOf(v.x);
    ComponentOf(v.y);
    ComponentOf(v.z);
    TrimStartBlank(w, sx);
    TrimSpec(sx);
    assert Component(w + sx) == Some(v.x);
    assert ',' !in w;
    FromStrOf(w + sx, sy, sz, v);
    VectorTextAs(w, sx, sy, sz, v);
  }

  lemma VectorTextAs(w: string, sx: string, sy: string, sz: string, v: V3)
    requires sx == IntToString(v.x) && sy == IntToString(v.y) && sz == IntToString(v.z)
    ensures VectorText(w, v) == "<" + (w + sx) + "," + sy + "," + sz + ">"
  {
    Assoc(w, sx, ",");
    Assoc("<" + (w + sx) + "," + sy, ",", sz + ">");
    Assoc("<" + (w + sx) + "," + sy + ",", sz, ">");
  }

  /** The separator before a field is read as that field's start. */
  lemma FieldOf(gap: string, name: char, r: string)
    requires Blank(gap) && !IsWhitespace(name)
    ensures Field(FieldText(gap, name) + r, name) == Some(r)
  {
    var s := FieldText(gap, name) + r;
    Assoc("," + gap, [name, '='], r);
    Assoc(",", gap, [name, '='] + r);
    assert s[1..] == gap + ([name, '='] + r);
    TrimStartBlank(gap, [name, '='] + r);
    assert ([name, '='] + r)[1..][1..] == r;
  }

  lemma Right6(a: string, b: string, c: string, d: string, e: string, f: string)
    ensures a + b + c + d + e + f == a + (b + (c + (d + (e + f))))
  {
    Assoc(a + b + c + d, e, f);
    Assoc(a + b + c, d, e + f);
    Assoc(a + b, c, d + (e + f));
    Assoc(a, b, c + (d + (e + f)));
  }

  /** The written velocity and acceleration are matched and captured. */
  lemma FieldsOf(gap: string, wv: string, v: V3, wa: string, a: V3)
    requires Blank(gap) && Blank(wv) && Blank(wa)
    ensures Fields(FieldText(gap, 'v') + (VectorText(wv, v) + (FieldText(gap, 'a') + VectorText(wa, a)))) ==
      Some((VectorText(wv, v), VectorText(wa, a)))
  {
    var vv, va := VectorText(wv, v), VectorText(wa, a);
    var fa := FieldText(gap, 'a');
    FieldOf(gap, 'v', vv + (fa + va));
    VectorOf(wv, v, fa + va);
    FieldOf(gap, 'a', va);
    assert va + [] == va;
    VectorOf(wa, a, []);
  }

  /** A written particle is matched, and its three vectors are captured. */
  lemma CapturesOf(p: Particle, wp: string, wv: string, wa: string, gap: string)
    requires Blank(wp) && Blank(wv) && Blank(wa) && Blank(gap)
    ensures Captures(ParticleText(p, wp, wv, wa, gap)) ==
      Some((VectorText(wp, p.position), VectorText(wv, p.velocity), VectorText(wa, p.acceleration)))
  {
    var vp, vv, va := VectorText(wp, p.position), VectorText(wv, p.velocity), VectorText(wa, p.acceleration);
    var fv, fa := FieldText(gap, 'v'), FieldText(gap, 'a');
    var s := ParticleText(p, wp, wv, wa, gap);
    var rest := fv + (vv + (fa + va));
    Right6("p=", vp, fv, vv, fa, va);
    assert s == "p=" + (vp + rest);
    assert s[0] == 'p' && s[1] == '=';
    assert Expect(s, 'p') == Some(s[1..]);
    assert Expect(s[1..], '=') == Some(vp + rest);
    VectorOf(wp, p.position, rest);
    FieldsOf(gap, wv, p.velocity, wa, p.acceleration);
  }

  /** A written particle whose components are `i32`s is read back. */
  lemma FromStrText(p: Particle, wp: string, wv: string, wa: string, gap: string)
    requires Blank(wp) && Blank(wv) && Blank(wa) && Blank(gap) && Fits(p)
    ensures FromStr(ParticleText(p, wp, wv, wa, gap)) == Ok(p)
  {
    var s := ParticleText(p, wp, wv, wa, gap);
    TextTrimmed(p, wp, wv, wa, gap);
    CapturesOf(p, wp, wv, wa, gap);
    VectorTextValue(wp, p.position);
    VectorTextValue(wv, p.velocity);
    VectorTextValue(wa, p.acceleration);
    FromStrOfCaptures(s, VectorText(wp, p.position), VectorText(wv, p.velocity), VectorText(wa, p.acceleration), p);
  }

  /** A written particle has nothing to trim. */
  lemma TextTrimmed(p: Particle, wp: string, wv: string, wa: string, gap: string)
    ensures Trim(ParticleText(p, wp, wv, wa, gap)) == ParticleText(p, wp, wv, wa, gap)
  {
    var s := ParticleText(p, wp, wv, wa, gap);
    var va := VectorText(wa, p.acceleration);
    assert s[0] == 'p';
    assert s[|s| - 1] == va[|va| - 1] == '>';
    TrimSpec(s);
  }

  /** A line whose trimmed text matches, with three vectors that parse, is
      read as the particle of those vectors. */
  lemma FromStrOfCaptures(t: string, cp: string, cv: string, ca: string, p: Particle)
    ensures (Captures(Trim(t)) == Some((cp, cv, ca)) &&
      Day20Vectors.FromStr(cp) == Ok(p.position) && Day20Vectors.FromStr(cv) == Ok(p.velocity) &&
      Day20Vectors.FromStr(ca) == Ok(p.acceleration)) ==> FromStr(t) == Ok(p)
  {
  }

  /** A written particle is read back with whitespace in front of it too. */
  lemma FromStrIndented(pad: string, p: Particle, wp: string, wv: string, wa: string, gap: string)
    requires Blank(pad) && Blank(wp) && Blank(wv) && Blank(wa) && Blank(gap) && Fits(p)
    ensures FromStr(pad + ParticleText(p, wp, wv, wa, gap)) == Ok(p)
  {
    var s := ParticleText(p, wp, wv, wa, gap);
    var t := pad + s;
    var va := VectorText(wa, p.acceleration);
    TextTrimmed(p, wp, wv, wa, gap);
    TrimStartBlank(pad, s);
    assert Trim(t) == s;
    CapturesOf(p, wp, wv, wa, gap);
    VectorTextValue(wp, p.position);
    VectorTextValue(wv, p.velocity);
    VectorTextValue(wa, p.acceleration);
    FromStrOfCaptures(t, VectorText(wp, p.position), VectorText(wv, p.velocity), va, p);
  }

  /** `from_str` reads back the text form of every particle whose
      components are `i32`s. */
  lemma FromStrShow(p: Particle)
    requires Fits(p)
    ensures FromStr(Show(p)) == Ok(p)
  {
    FromStrText(p, "", "", "", " ");
  }
}
