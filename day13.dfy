/** The firewall of day 13 (`day-13/src/main.rs`): layers `index: depth`,
    each with a scanner that sweeps down and back up its `depth` cells, so
    it is at the top every `2 * depth - 2` picoseconds.  A packet that
    leaves after `delay` picoseconds reaches layer `index` at time
    `index + delay` and is caught when the scanner is at the top.

    The source's values are `u32`; the model's are unbounded, so the
    overflow panics of `u32` arithmetic are not modelled.
 */
module Day13 {
  import opened Wrappers
  import opened Text
  import Arith

  /** A layer `(index, depth)`. */
  datatype Layer = Layer(index: nat, depth: nat)

  /** `Firewall`: the layers in the order of the input. */
  type Firewall = seq<Layer>

  // ---------------------------------------------------------------- input

  /** `part.trim().parse()` of one side of a line. */
  function ParseField(part: string): Option<int> {
    ParseU32(Trim(part))
  }

  /** One line of `make_firewall`: split at `": "`, each part a `u32`,
      exactly two parts, and a depth above 1; `None` is one of the panics
      (`expect`, `assert_eq!`, `assert!`). */
  function ParseLayer(line: string): (r: Option<Layer>)
    ensures r.Some? ==> r.value.depth > 1 && r.value.index <= U32_MAX && r.value.depth <= U32_MAX
  {
    var parts := ParseAll(SplitStr(line, ": "), ParseField);
    if parts.None? || |parts.value| != 2 then None
    else if parts.value[1] <= 1 then None
    else
      var fields := SplitStr(line, ": ");
      assert ParseField(fields[0]) == Some(parts.value[0]) && ParseField(fields[1]) == Some(parts.value[1]);
      Some(Layer(parts.value[0], parts.value[1]))
  }

  /** The lines read in order, or `None` at the first that panics. */
  function ParseLayers(lines: seq<string>): (r: Option<Firewall>)
    ensures r.Some? ==> |r.value| == |lines| && forall i :: 0 <= i < |lines| ==> ParseLayer(lines[i]) == Some(r.value[i])
    ensures r.None? ==> exists i :: 0 <= i < |lines| && ParseLayer(lines[i]).None?
  {
    if lines == [] then Some([])
    else
      var first := ParseLayer(lines[0]);
      var rest := ParseLayers(lines[1..]);
      if first.None? then None
      else if rest.None? then
        var i :| 0 <= i < |lines[1..]| && ParseLayer(lines[1..][i]).None?;
        assert ParseLayer(lines[i + 1]).None?;
        None
      else Some([first.value] + rest.value)
  }

  /** `make_firewall`: the lines of the trimmed input, each a layer. */
  function MakeFirewall(input: string): (r: Option<Firewall>)
    ensures r.Some? ==> Valid(r.value)
  {
    ParseLayers(Lines(Trim(input)))
  }

  /** Every depth is above 1, as `make_firewall` asserts. */
  predicate Valid(firewall: Firewall) {
    forall i :: 0 <= i < |firewall| ==> firewall[i].depth > 1
  }

  /** The text of a layer, `index: depth`. */
  function Show(layer: Layer): string {
    NatToString(layer.index) + ": " + NatToString(layer.depth)
  }

  /** Two texts without a colon, joined by `": "`, split into those
      two. */
  lemma TwoParts(a: string, b: string)
    requires ':' !in a && ':' !in b
    ensures SplitStr(a + ": " + b, ": ") == [a, b]
  {
    SplitStrHead(a, b, ": ");
    SplitStrNone(b, ": ");
  }

  /** A number after indentation holds no colon. */
  lemma NoColon(pad: string, n: nat)
    requires forall i :: 0 <= i < |pad| ==> IsWhitespace(pad[i])
    ensures ':' !in pad + NatToString(n)
  {
    var s := NatToString(n);
    forall k | 0 <= k < |pad + s| ensures (pad + s)[k] != ':' {
      if k < |pad| { assert (pad + s)[k] == pad[k]; } else { assert (pad + s)[k] == s[k - |pad|]; }
    }
  }

  /** A number after indentation reads as the number. */
  lemma FieldOf(pad: string, n: nat)
    requires forall i :: 0 <= i < |pad| ==> IsWhitespace(pad[i])
    requires n <= U32_MAX
    ensures ParseField(pad + NatToString(n)) == Some(n)
  {
    var s := NatToString(n);
    TrimPadded(pad, s, []);
    assert pad + s + [] == pad + s;
    ParseU32NatToString(n);
  }

  /** Two texts without a colon that read as numbers, joined by `": "`,
      read as those two numbers. */
  lemma FieldsOfParts(a: string, b: string, x: int, y: int)
    requires ':' !in a && ':' !in b
    requires ParseField(a) == Some(x) && ParseField(b) == Some(y)
    ensures ParseAll(SplitStr(a + ": " + b, ": "), ParseField) == Some([x, y])
  {
    TwoParts(a, b);
    ParseAllOf([a, b], [x, y], ParseField);
  }

  /** `index: depth` after any indentation reads as its two numbers. */
  lemma FieldsOf(pad: string, index: nat, depth: nat)
    requires forall i :: 0 <= i < |pad| ==> IsWhitespace(pad[i])
    requires index <= U32_MAX && depth <= U32_MAX
    ensures ParseAll(SplitStr(pad + NatToString(index) + ": " + NatToString(depth), ": "), ParseField)
      == Some([index, depth])
  {
    NoColon(pad, index);
    NoColon([], depth);
    FieldOf(pad, index);
    FieldOf([], depth);
    assert [] + NatToString(depth) == NatToString(depth);
    FieldsOfParts(pad + NatToString(index), NatToString(depth), index, depth);
  }

  /** A layer printed after any indentation reads back as the layer. */
  lemma ParseLayerShow(layer: Layer, pad: string)
    requires layer.depth > 1 && layer.index <= U32_MAX && layer.depth <= U32_MAX
    requires forall i :: 0 <= i < |pad| ==> IsWhitespace(pad[i])
    ensures ParseLayer(pad + Show(layer)) == Some(layer)
  {
    assert pad + Show(layer) == pad + NatToString(layer.index) + ": " + NatToString(layer.depth);
    FieldsOf(pad, layer.index, layer.depth);
  }

  /** A line with depth 0 or 1 panics. */
  lemma ShallowPanics(index: nat, depth: nat)
    requires index <= U32_MAX && depth <= 1
    ensures ParseLayer(NatToString(index) + ": " + NatToString(depth)) == None
  {
    assert [] + NatToString(index) == NatToString(index);
    FieldsOf([], index, depth);
  }

  /** A line without `": "` is one part, and panics. */
  lemma OnePartPanics(line: string)
    requires ':' !in line
    ensures ParseLayer(line) == None
  {
    SplitStrNone(line, ": ");
  }

  // ---------------------------------------------------------------- trip

  /** The scanner of a layer is at the top when the packet arrives: the
      arrival time is a multiple of the cycle length `2 * depth - 2`. */
  predicate Caught(layer: Layer, delay: nat)
    requires layer.depth > 1
  {
    (layer.index + delay) % (layer.depth * 2 - 2) == 0
  }

  /** `trip_severity`: the fold over the layers, left to right, of the
      flag "caught somewhere" and the sum of `index * depth` over the
      layers that catch. */
  function TripSeverity(firewall: Firewall, delay: nat): (bool, nat)
    requires Valid(firewall)
  {
    if firewall == [] then (false, 0)
    else
      var (caught, accum) := TripSeverity(firewall[..|firewall| - 1], delay);
      var layer := firewall[|firewall| - 1];
      if Caught(layer, delay) then (true, accum + layer.index * layer.depth) else (caught, accum)
  }

  /** Some layer catches the packet. */
  predicate Catches(firewall: Firewall, delay: nat)
    requires Valid(firewall)
  {
    exists i :: 0 <= i < |firewall| && Caught(firewall[i], delay)
  }

  /** The severity of the layers that catch, summed from the front. */
  function Severity(firewall: Firewall, delay: nat): nat
    requires Valid(firewall)
  {
    if firewall == [] then 0
    else
      (if Caught(firewall[0], delay) then firewall[0].index * firewall[0].depth else 0)
      + Severity(firewall[1..], delay)
  }

  /** Summing the severity of the layers in front and of one more layer. */
  lemma {:induction false} SeveritySnoc(firewall: Firewall, delay: nat)
    requires Valid(firewall) && firewall != []
    ensures var last := firewall[|firewall| - 1];
      Severity(firewall, delay) == Severity(firewall[..|firewall| - 1], delay)
        + (if Caught(last, delay) then last.index * last.depth else 0)
  {
    if |firewall| > 1 {
      SeveritySnoc(firewall[1..], delay);
      assert firewall[1..][..|firewall| - 2] == firewall[..|firewall| - 1][1..];
    }
  }

  /** `trip_severity` is the flag "some layer catches" and the severity of
      the layers that catch. */
  lemma {:induction false} TripSeverityIs(firewall: Firewall, delay: nat)
    requires Valid(firewall)
    ensures TripSeverity(firewall, delay) == (Catches(firewall, delay), Severity(firewall, delay))
  {
    if firewall != [] {
      var front := firewall[..|firewall| - 1];
      TripSeverityIs(front, delay);
      SeveritySnoc(firewall, delay);
      if Catches(front, delay) {
        var i :| 0 <= i < |front| && Caught(front[i], delay);
        assert firewall[i] == front[i];
      }
      if Catches(firewall, delay) && !Caught(firewall[|firewall| - 1], delay) {
        var i :| 0 <= i < |firewall| && Caught(firewall[i], delay);
        assert front[i] == firewall[i];
      }
    }
  }

  /** The scanner returns to the top every cycle: a layer that catches at
      `delay` catches one cycle later too. */
  lemma CaughtPeriodic(layer: Layer, delay: nat)
    requires layer.depth > 1
    ensures Caught(layer, delay) == Caught(layer, delay + (layer.depth * 2 - 2))
  {
    var c := layer.depth * 2 - 2;
    var t := layer.index + delay;
    assert (t + c) % c == t % c by {
      Arith.ModUnique(t + c, c, t / c + 1, t % c);
    }
  }

  /** Being caught at layer 0 costs nothing: the flag can be set while the
      severity stays 0. */
  lemma CaughtAtNoCost(depth: nat)
    requires depth > 1
    ensures TripSeverity([Layer(0, depth)], 0) == (true, 0)
  {
    assert [Layer(0, depth)][..0] == [];
  }

  /** `workout_firewall_delay`: the least delay at which no layer catches.
      The source's loop need not end (two layers `0: 2` and `1: 2` catch at
      every delay, see `AlwaysCaught`), so the model tries the delays below
      `fuel` and returns `None` when all of them are caught. */
  method WorkoutFirewallDelay(firewall: Firewall, fuel: nat) returns (r: Option<nat>)
    requires Valid(firewall)
    ensures r.Some? ==> r.value < fuel && !Catches(firewall, r.value)
    ensures r.Some? ==> forall d :: 0 <= d < r.value ==> Catches(firewall, d)
    ensures r.None? ==> forall d :: 0 <= d < fuel ==> Catches(firewall, d)
  {
    var delay := 0;
    while delay < fuel && TripSeverity(firewall, delay).0
      invariant delay <= fuel
      invariant forall d :: 0 <= d < delay ==> Catches(firewall, d)
    {
      TripSeverityIs(firewall, delay);
      delay := delay + 1;
    }
    if delay < fuel {
      TripSeverityIs(firewall, delay);
      r := Some(delay);
    } else {
      r := None;
    }
  }

  /** Two layers of depth 2 at 0 and 1 catch at every delay, so the search
      of the source never stops on them. */
  lemma AlwaysCaught(delay: nat)
    ensures Catches([Layer(0, 2), Layer(1, 2)], delay)
  {
    var f := [Layer(0, 2), Layer(1, 2)];
    if delay % 2 == 0 {
      assert Caught(f[0], delay);
    } else {
      assert (1 + delay) % 2 == 0;
      assert Caught(f[1], delay);
    }
  }

  // ---------------------------------------------------------------- sample

  const Pad: string := "            "
  const SampleInput: string := "\n" + Pad + "0: 3\n" + Pad + "1: 2\n" + Pad + "4: 4\n" + Pad + "6: 4\n        "
  const SampleFirewall: Firewall := [Layer(0, 3), Layer(1, 2), Layer(4, 4), Layer(6, 4)]
  const SampleLines: seq<string> := ["0: 3", Pad + "1: 2", Pad + "4: 4", Pad + "6: 4"]

  /** The sample is its lines between indentation. */
  lemma SampleInputPadded()
    ensures SampleInput == ("\n" + Pad) + Join(SampleLines, '\n') + "\n        "
  {
    var l := SampleLines;
    assert l[3..] == [Pad + "6: 4"];
    assert Join(l[3..], '\n') == Pad + "6: 4";
    assert Join(l[2..], '\n') == Pad + "4: 4" + "\n" + (Pad + "6: 4");
    assert Join(l[1..], '\n') == Pad + "1: 2" + "\n" + (Pad + "4: 4" + "\n" + (Pad + "6: 4"));
    assert Join(l, '\n') == "0: 3" + "\n" + (Pad + "1: 2" + "\n" + (Pad + "4: 4" + "\n" + (Pad + "6: 4")));
  }

  /** The trimmed sample holds four lines. */
  lemma SampleInputLines()
    ensures Lines(Trim(SampleInput)) == SampleLines
  {
    SampleInputPadded();
    var body := Join(SampleLines, '\n');
    assert body[0] == '0';
    JoinLast(SampleLines, '\n');
    TrimPadded("\n" + Pad, body, "\n        ");
    LinesJoin(SampleLines);
  }

  /** The last character of joined pieces is that of the last piece. */
  lemma {:induction false} JoinLast(parts: seq<string>, sep: char)
    requires |parts| >= 1 && parts[|parts| - 1] != []
    ensures var s := Join(parts, sep); s != [] && s[|s| - 1] == parts[|parts| - 1][|parts[|parts| - 1]| - 1]
  {
    if |parts| > 1 {
      JoinLast(parts[1..], sep);
    }
  }

  /** The sample lines are its layers printed, all but the first
      indented. */
  lemma SampleLinesShown()
    ensures SampleLines == [Show(SampleFirewall[0]), Pad + Show(SampleFirewall[1]),
                            Pad + Show(SampleFirewall[2]), Pad + Show(SampleFirewall[3])]
  {
    assert NatToString(0) == "0" && NatToString(1) == "1" && NatToString(2) == "2";
    assert NatToString(3) == "3" && NatToString(4) == "4" && NatToString(6) == "6";
    assert Show(SampleFirewall[0]) == "0: 3";
    assert Show(SampleFirewall[1]) == "1: 2";
    assert Show(SampleFirewall[2]) == "4: 4";
    assert Show(SampleFirewall[3]) == "6: 4";
  }

  /** The indentation is blank. */
  lemma PadBlank()
    ensures forall i :: 0 <= i < |Pad| ==> IsWhitespace(Pad[i])
  {
  }

  /** Each sample line reads as its layer. */
  lemma SampleLayerRead(i: nat)
    requires i < 4
    ensures ParseLayer(SampleLines[i]) == Some(SampleFirewall[i])
  {
    var f := SampleFirewall;
    SampleLinesShown();
    if i == 0 {
      ParseLayerShow(f[0], []);
      assert [] + Show(f[0]) == Show(f[0]);
    } else {
      PadBlank();
      ParseLayerShow(f[i], Pad);
    }
  }

  /** The sample reads as four layers. */
  lemma SampleFirewallRead()
    ensures MakeFirewall(SampleInput) == Some(SampleFirewall)
  {
    SampleInputLines();
    forall i | 0 <= i < 4
      ensures ParseLayer(SampleLines[i]) == Some(SampleFirewall[i])
    {
      SampleLayerRead(i);
    }
    ParseLayersOf(SampleLines, SampleFirewall);
  }

  /** Lines each read as the matching layer are read as those layers. */
  lemma {:induction false} ParseLayersOf(lines: seq<string>, layers: Firewall)
    requires |lines| == |layers| && forall i :: 0 <= i < |lines| ==> ParseLayer(lines[i]) == Some(layers[i])
    ensures ParseLayers(lines) == Some(layers)
  {
    if lines != [] {
      ParseLayersOf(lines[1..], layers[1..]);
      assert [layers[0]] + layers[1..] == layers;
    }
  }

  /** Leaving at once, the packet is caught at layers 0 and 6, for a
      severity of 0 * 3 + 6 * 4 = 24. */
  lemma SampleSeverity()
    ensures TripSeverity(SampleFirewall, 0) == (true, 24)
  {
    var f := SampleFirewall;
    assert f[..3][..2][..1] == [f[0]] && f[..3][..2] == [f[0], f[1]] && f[..3] == [f[0], f[1], f[2]];
    assert [f[0]][..0] == [];
    assert TripSeverity(f[..3][..2][..1], 0) == (true, 0);
    assert TripSeverity(f[..3][..2], 0) == (true, 0);
    assert TripSeverity(f[..3], 0) == (true, 0);
  }

  /** Every delay below 10 is caught, and 10 is not: the least safe delay
      of the sample is 10. */
  lemma SampleDelay()
    ensures forall d :: 0 <= d < 10 ==> Catches(SampleFirewall, d)
    ensures !Catches(SampleFirewall, 10)
  {
    var f := SampleFirewall;
    forall d | 0 <= d < 10
      ensures Catches(f, d)
    {
      if d % 2 == 1 {
        assert (1 + d) % 2 == 0;
        assert Caught(f[1], d);
      } else if d % 4 == 0 {
        assert Caught(f[0], d);
      } else if d == 2 {
        assert Caught(f[2], d);
      } else {
        assert d == 6 && Caught(f[3], d);
      }
    }
    forall i | 0 <= i < 4
      ensures !Caught(f[i], 10)
    {
    }
  }
}
