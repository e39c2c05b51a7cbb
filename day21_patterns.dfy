/** The enhancement rules of day 21 (`day-21/src/Patterns.rs`): a map from
    every variation of a rule's input grid to the rule's output grid, read
    from lines `input => output`, and the lookup `apply` that leaves a grid
    without a rule unchanged.
 */
module Day21Patterns {
  import opened Wrappers
  import opened Text
  import opened Day21Grid

  datatype Patterns = Patterns(rules: map<Grid, Grid>)

  /** `apply`: the output of the rule for `g`, or `g` itself. */
  function Apply(p: Patterns, g: Grid): (r: Grid)
    ensures g in p.rules ==> r == p.rules[g]
    ensures g !in p.rules ==> r == g
  {
    if g in p.rules then p.rules[g] else g
  }

  /** `Patterns::default()`: no rules, so every grid is left as it is. */
  function Default(): (p: Patterns)
    ensures |p.rules| == 0
    ensures forall g :: Apply(p, g) == g
  {
    Patterns(map[])
  }

  /** The two failures of `from_str`: a grid of a line that does not parse
      (the `unwrap` panics) and a line without exactly two parts (`Err`). */
  datatype PatternsError = GridPanic(error: GridError) | InvalidParts(line: string)

  /** A rule read from one line. */
  datatype Rule = Rule(input: Grid, output: Grid)

  /** Every part parsed as a grid, in order; the first that fails gives the
      error (the `unwrap` that panics). */
  function ParseGrids(parts: seq<string>): (r: Result<seq<Grid>, GridError>)
    ensures r.Ok? ==> |r.value| == |parts|
    ensures r.Ok? ==> forall i :: 0 <= i < |r.value| ==> IsSquare(r.value[i]) && r.value[i].cells != []
  {
    if parts == [] then Ok([])
    else
      var first := Day21Grid.FromStrSpec(parts[0]);
      if first.Err? then Err(first.error)
      else
        var rest := ParseGrids(parts[1..]);
        if rest.Err? then Err(rest.error) else Ok([first.value] + rest.value)
  }

  /** One line `input => output`: the trimmed line split on `" => "`, every
      part parsed as a grid, and then exactly two parts required. */
  function ParseLine(line: string): (r: Result<Rule, PatternsError>)
    ensures r.Ok? ==> IsSquare(r.value.input) && r.value.input.cells != []
    ensures r.Ok? ==> IsSquare(r.value.output) && r.value.output.cells != []
    ensures |SplitStr(Trim(line), " => ")| != 2 ==> r.Err?
  {
    var parts := SplitStr(Trim(line), " => ");
    var grids := ParseGrids(parts);
    if grids.Err? then Err(GridPanic(grids.error))
    else if |grids.value| != 2 then Err(InvalidParts(line))
    else
      Ok(Rule(grids.value[0], grids.value[1]))
  }

  /** The result of every line, in order. */
  function ParseEach(lines: seq<string>): (r: seq<Result<Rule, PatternsError>>)
    ensures |r| == |lines| && forall i :: 0 <= i < |lines| ==> r[i] == ParseLine(lines[i])
  {
    seq(|lines|, i requires 0 <= i < |lines| => ParseLine(lines[i]))
  }

  /** Every line parsed, in order; the first failing line gives the error. */
  function ParseLines(lines: seq<string>): Result<seq<Rule>, PatternsError>
  {
    Collect(ParseEach(lines))
  }

  /** `insert` of every key of `ks`, in order, all with the same value. */
  function InsertAll<K(==), V>(m: map<K, V>, ks: seq<K>, v: V): map<K, V>
  {
    if ks == [] then m else InsertAll(m, ks[..|ks| - 1], v)[ks[|ks| - 1] := v]
  }

  /** After `InsertAll` a key is present when it was before or is one of the
      inserted keys, and an inserted key holds the new value. */
  lemma {:induction false} InsertAllAt<K, V>(m: map<K, V>, ks: seq<K>, v: V, k: K)
    ensures k in InsertAll(m, ks, v) <==> k in m || k in ks
    ensures k in InsertAll(m, ks, v) ==> InsertAll(m, ks, v)[k] == if k in ks then v else m[k]
  {
    if ks != [] {
      var n := |ks| - 1;
      InsertAllAt(m, ks[..n], v, k);
      assert k in ks <==> k in ks[..n] || k == ks[n] by {
        assert ks == ks[..n] + [ks[n]];
      }
    }
  }

  /** The map left by inserting the keys of list `i` with value `i`, for
      every `i` in order. */
  function BuildMap<K(==), V>(keyLists: seq<seq<K>>, values: seq<V>): map<K, V>
    requires |keyLists| == |values|
  {
    if keyLists == [] then map[]
    else
      var n := |keyLists| - 1;
      InsertAll(BuildMap(keyLists[..n], values[..n]), keyLists[n], values[n])
  }

  /** Inserting one more list extends the map built from the earlier ones. */
  lemma BuildMapSnoc<K, V>(keyLists: seq<seq<K>>, values: seq<V>, ks: seq<K>, v: V)
    requires |keyLists| == |values|
    ensures BuildMap(keyLists + [ks], values + [v]) == InsertAll(BuildMap(keyLists, values), ks, v)
  {
    assert (keyLists + [ks])[..|keyLists|] == keyLists;
    assert (values + [v])[..|values|] == values;
  }

  /** The index of the last list that holds `k`, or -1. */
  function LastListWith<K(==)>(keyLists: seq<seq<K>>, k: K): (i: int)
    ensures -1 <= i < |keyLists|
    ensures i >= 0 ==> k in keyLists[i]
    ensures forall j :: i < j < |keyLists| ==> k !in keyLists[j]
  {
    if keyLists == [] then -1
    else if k in keyLists[|keyLists| - 1] then |keyLists| - 1
    else LastListWith(keyLists[..|keyLists| - 1], k)
  }

  /** A key is in the map exactly when some list holds it, and its value
      is the one of the LAST list that holds it. */
  lemma {:induction false} BuildMapMaps<K, V>(keyLists: seq<seq<K>>, values: seq<V>, k: K)
    requires |keyLists| == |values|
    ensures k in BuildMap(keyLists, values) <==> LastListWith(keyLists, k) >= 0
    ensures k in BuildMap(keyLists, values) ==> BuildMap(keyLists, values)[k] == values[LastListWith(keyLists, k)]
  {
    if keyLists != [] {
      var n := |keyLists| - 1;
      BuildMapMaps(keyLists[..n], values[..n], k);
      InsertAllAt(BuildMap(keyLists[..n], values[..n]), keyLists[n], values[n], k);
    }
  }

  /** The variations of a grid, as `variations` computes them.  Every grid
      that parses is square, so the second branch, where `variations` would
      index past a row, is never taken for a rule. */
  function Variants(g: Grid): seq<Grid> {
    if Wide(g) then VariationsOf(g) else []
  }

  /** The keys each rule inserts: the variations `vary` gives its input. */
  function KeysWith(rules: seq<Rule>, vary: Grid -> seq<Grid>): (r: seq<seq<Grid>>)
    ensures |r| == |rules| && forall i :: 0 <= i < |rules| ==> r[i] == vary(rules[i].input)
  {
    seq(|rules|, i requires 0 <= i < |rules| => vary(rules[i].input))
  }

  function Outputs(rules: seq<Rule>): (r: seq<Grid>)
    ensures |r| == |rules| && forall i :: 0 <= i < |rules| ==> r[i] == rules[i].output
  {
    seq(|rules|, i requires 0 <= i < |rules| => rules[i].output)
  }

  /** The map of the rules, line after line: every grid `vary` gives for a
      rule's input is inserted with the rule's output. */
  function BuildWith(rules: seq<Rule>, vary: Grid -> seq<Grid>): map<Grid, Grid> {
    BuildMap(KeysWith(rules, vary), Outputs(rules))
  }

  /** The map `from_str` builds from its rules. */
  function Build(rules: seq<Rule>): map<Grid, Grid> {
    BuildWith(rules, Variants)
  }

  /** The index of the last rule that has `k` among the grids `vary` gives
      for its input, or -1 when no rule has. */
  function LastRuleFor(rules: seq<Rule>, vary: Grid -> seq<Grid>, k: Grid): (i: int)
    ensures -1 <= i < |rules|
    ensures i >= 0 ==> k in vary(rules[i].input)
    ensures forall j :: i < j < |rules| ==> k !in vary(rules[j].input)
  {
    LastListWith(KeysWith(rules, vary), k)
  }

  /** A grid is a key exactly when it is a variation of some rule's input,
      and it maps to the output of the LAST rule that has it as a variation:
      a later line overrides an earlier one. */
  lemma BuildMaps(rules: seq<Rule>, vary: Grid -> seq<Grid>, k: Grid)
    ensures k in BuildWith(rules, vary) <==> LastRuleFor(rules, vary, k) >= 0
    ensures k in BuildWith(rules, vary) <==> exists i :: 0 <= i < |rules| && k in vary(rules[i].input)
    ensures LastRuleFor(rules, vary, k) >= 0 ==> BuildWith(rules, vary)[k] == rules[LastRuleFor(rules, vary, k)].output
  {
    BuildMapMaps(KeysWith(rules, vary), Outputs(rules), k);
  }

  /** Every rule's input maps to its output, unless a later rule has it as a
      variation: a grid matches a rule written in any orientation. */
  lemma BuildHasInputs(rules: seq<Rule>, i: nat)
    requires i < |rules| && IsSquare(rules[i].input)
    requires forall j :: i < j < |rules| ==> rules[i].input !in Variants(rules[j].input)
    ensures rules[i].input in Build(rules) && Build(rules)[rules[i].input] == rules[i].output
  {
    var g := rules[i].input;
    SelfVariant(g);
    BuildMaps(rules, Variants, g);
    var last := LastRuleFor(rules, Variants, g);
    assert last >= i by {
      if last < i { assert false; }
    }
    assert last <= i by {
      if last > i { assert false; }
    }
  }

  /** A square grid is among its own variations (the fourth quarter turn). */
  lemma SelfVariant(g: Grid)
    requires IsSquare(g)
    ensures g in Variants(g)
  {
    VariationsSquare(g);
    assert VariationsOf(g)[7] == g;
  }

  /** On a square grid the method `variations` computes `Variants`. */
  lemma SquareVariants(g: Grid)
    requires IsSquare(g)
    ensures Wide(g) && Variants(g) == VariationsOf(g)
  {
  }

  /** Inserting one more rule extends the map of the earlier ones. */
  lemma BuildSnoc(rules: seq<Rule>, vary: Grid -> seq<Grid>, rule: Rule)
    ensures BuildWith(rules + [rule], vary) == InsertAll(BuildWith(rules, vary), vary(rule.input), rule.output)
  {
    assert KeysWith(rules + [rule], vary) == KeysWith(rules, vary) + [vary(rule.input)];
    assert Outputs(rules + [rule]) == Outputs(rules) + [rule.output];
    BuildMapSnoc(KeysWith(rules, vary), Outputs(rules), vary(rule.input), rule.output);
  }

  /** What `from_str` computes from the lines of its (trimmed) text. */
  function FromLines(lines: seq<string>): (r: Result<Patterns, PatternsError>)
  {
    var rules := ParseLines(lines);
    if rules.Err? then Err(rules.error)
    else
      Ok(Patterns(Build(rules.value)))
  }

  /** What `from_str` computes. */
  function FromStrSpec(s: string): (r: Result<Patterns, PatternsError>)
  {
    FromLines(Lines(Trim(s)))
  }

  /** A line that does not split into exactly two parts makes `from_str` fail. */
  lemma FromStrBadLine(s: string, i: nat)
    requires i < |Lines(Trim(s))| && |SplitStr(Trim(Lines(Trim(s))[i]), " => ")| != 2
    ensures FromStrSpec(s).Err?
  {
    var lines := Lines(Trim(s));
    assert ParseEach(lines)[i].Err?;
  }

  /** The loop of `from_str` that inserts every variation with the same
      output. */
  method InsertEach<K, V>(m0: map<K, V>, ks: seq<K>, v: V) returns (m: map<K, V>)
    ensures m == InsertAll(m0, ks, v)
  {
    m := m0;
    for i := 0 to |ks|
      invariant m == InsertAll(m0, ks[..i], v)
    {
      assert ks[..i + 1][..i] == ks[..i];
      m := m[ks[i] := v];
    }
    assert ks[..|ks|] == ks;
  }

  /** The body of `from_str` for a line that parsed: every variation of the
      input inserted with the output. */
  method InsertRule(m0: map<Grid, Grid>, rule: Rule) returns (m: map<Grid, Grid>)
    requires IsSquare(rule.input)
    ensures m == InsertAll(m0, Variants(rule.input), rule.output)
  {
    SquareVariants(rule.input);
    var vs := Variations(rule.input);
    m := InsertEach(m0, vs, rule.output);
  }

  /** `from_str`: the lines of the trimmed text, each parsed and every
      variation of its input inserted with its output, in place into the
      map. */
  method FromStr(s: string) returns (r: Result<Patterns, PatternsError>)
    ensures r == FromStrSpec(s)
  {
    r := InsertLines(Lines(Trim(s)));
  }

  /** The loop of `from_str` over the lines. */
  method InsertLines(lines: seq<string>) returns (r: Result<Patterns, PatternsError>)
    ensures r == FromLines(lines)
  {
    var m: map<Grid, Grid> := map[];
    ghost var rules: seq<Rule> := [];
    for k := 0 to |lines|
      invariant Collect(ParseEach(lines)[..k]) == Ok(rules)
      invariant m == Build(rules)
    {
      var err;
      err, m, rules := InsertLine(lines, k, m, rules);
      if err.Some? {
        return Err(err.value);
      }
    }
    FromLinesAll(lines, rules);
    r := Ok(Patterns(m));
  }

  /** One pass of the loop of `from_str`: line `k` parsed, and either its
      error returned or every variation of its input inserted. */
  method InsertLine(lines: seq<string>, k: nat, m0: map<Grid, Grid>, ghost rules0: seq<Rule>)
    returns (err: Option<PatternsError>, m: map<Grid, Grid>, ghost rules: seq<Rule>)
    requires k < |lines| && Collect(ParseEach(lines)[..k]) == Ok(rules0) && m0 == Build(rules0)
    ensures err.Some? ==> FromLines(lines) == Err(err.value)
    ensures err.None? ==> Collect(ParseEach(lines)[..k + 1]) == Ok(rules) && m == Build(rules)
  {
    var rule := ParseLine(lines[k]);
    FromStrStep(lines, k, rules0);
    if rule.Err? {
      return Some(rule.error), m0, rules0;
    }
    m := InsertRule(m0, rule.value);
    rules := rules0 + [rule.value];
    err := None;
  }

  /** When every line parsed, the map is built from all the rules. */
  lemma FromLinesAll(lines: seq<string>, rules: seq<Rule>)
    requires Collect(ParseEach(lines)[..|lines|]) == Ok(rules)
    ensures FromLines(lines) == Ok(Patterns(Build(rules)))
  {
    assert ParseEach(lines)[..|lines|] == ParseEach(lines);
  }

  /** One line of `from_str`: a line that fails ends the parse with its
      error; one that parses adds its rule and its variations. */
  lemma FromStrStep(lines: seq<string>, k: nat, rules: seq<Rule>)
    requires k < |lines| && Collect(ParseEach(lines)[..k]) == Ok(rules)
    ensures ParseLine(lines[k]).Err? ==> FromLines(lines) == Err(ParseLine(lines[k]).error)
    ensures ParseLine(lines[k]).Ok? ==>
      var rule := ParseLine(lines[k]).value;
      && Collect(ParseEach(lines)[..k + 1]) == Ok(rules + [rule])
      && Build(rules + [rule]) == InsertAll(Build(rules), Variants(rule.input), rule.output)
  {
    if ParseLine(lines[k]).Err? {
      CollectNextErr(ParseEach(lines), k);
    } else {
      CollectNextOk(ParseEach(lines), k);
      BuildSnoc(rules, Variants, ParseLine(lines[k]).value);
    }
  }
}
