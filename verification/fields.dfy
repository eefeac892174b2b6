/**
 * The rail fields tegrastats prints and the fixed patterns the scripts match
 * them with. Each matcher works on the text from one start position on and
 * hands back the reading it captured together with the text after the match,
 * so a pattern made of several fields is matched field by field.
 */
module Fields {
  import opened Wrappers
  import opened Text

  /** A captured reading and the text that follows the matched part. */
  datatype Capture = Capture(value: nat, rest: string)

  /** `(\d+)` followed by the literal `sep` at the start of `u`: the number and the text after `sep`. */
  function NumberThen(u: string, sep: string): (r: Option<Capture>)
    ensures r.Some? ==> |r.value.rest| < |u|
  {
    var n := DigitRun(u);
    if n == 0 || !StartsWith(u[n..], sep) then None
    else Some(Capture(DecimalValue(u[..n]), u[n + |sep|..]))
  }

  /** `\d+` at the start of `u`, not captured: the text after the digits. */
  function SkipDigits(u: string): (r: Option<string>)
    ensures r.Some? ==> |r.value| < |u|
  {
    var n := DigitRun(u);
    if n == 0 then None else Some(u[n..])
  }

  /** `NAME (\d+)/\d+` at the start of `t`. */
  function SlashField(t: string, name: string): (r: Option<Capture>)
    ensures r.Some? ==> |r.value.rest| < |t|
  {
    if !StartsWith(t, name + " ") then None
    else
      match NumberThen(t[|name| + 1..], "/")
      case None => None
      case Some(c) =>
        match SkipDigits(c.rest)
        case None => None
        case Some(rest) => Some(Capture(c.value, rest))
  }

  /** `L1 (\d+)/\d+ L2 (\d+)/\d+ ...` at the start of `t`: one reading per name, in name order. */
  function SlashFields(t: string, names: seq<string>): (r: Option<seq<nat>>)
    ensures r.Some? ==> |r.value| == |names|
    decreases |names|
  {
    if names == [] then Some([])
    else
      match SlashField(t, names[0])
      case None => None
      case Some(c) =>
        if |names| == 1 then Some([c.value])
        else if !StartsWith(c.rest, " ") then None
        else
          match SlashFields(c.rest[1..], names[1..])
          case None => None
          case Some(vs) => Some([c.value] + vs)
  }

  /** `NAME (\d+)mW/` at the start of `t`. */
  function MilliwattField(t: string, name: string): (r: Option<Capture>)
    ensures r.Some? ==> |r.value.rest| < |t|
  {
    if !StartsWith(t, name + " ") then None else NumberThen(t[|name| + 1..], "mW/")
  }

  /** The text tegrastats prints for one rail in the slash format: `NAME now/average`. */
  function SlashText(name: string, now: nat, average: nat): string {
    name + " " + Decimal(now) + "/" + Decimal(average)
  }

  /** Several rails in the slash format, separated by single spaces. */
  function SlashLine(names: seq<string>, nows: seq<nat>, averages: seq<nat>): string
    requires |nows| == |names| == |averages|
    decreases |names|
  {
    if names == [] then ""
    else if |names| == 1 then SlashText(names[0], nows[0], averages[0])
    else SlashText(names[0], nows[0], averages[0]) + " " + SlashLine(names[1..], nows[1..], averages[1..])
  }

  /** The text tegrastats prints for one rail in the milliwatt format: `NAME nowmW/averagemW`. */
  function MilliwattText(name: string, now: nat, average: nat): string {
    name + " " + Decimal(now) + "mW/" + Decimal(average) + "mW"
  }

  /** Several rails in the milliwatt format, separated by single spaces. */
  function MilliwattLine(names: seq<string>, nows: seq<nat>, averages: seq<nat>): string
    requires |nows| == |names| == |averages|
    decreases |names|
  {
    if names == [] then ""
    else if |names| == 1 then MilliwattText(names[0], nows[0], averages[0])
    else MilliwattText(names[0], nows[0], averages[0]) + " " + MilliwattLine(names[1..], nows[1..], averages[1..])
  }

  lemma AfterName(name: string, x: string)
    ensures StartsWith(name + " " + x, name + " ")
    ensures (name + " " + x)[|name| + 1..] == x
  {
    assert (name + " " + x)[..|name| + 1] == name + " ";
  }

  lemma NumberThenOf(now: nat, sep: string, x: string)
    requires sep != [] && !IsDigit(sep[0])
    ensures NumberThen(Decimal(now) + sep + x, sep) == Some(Capture(now, x))
  {
    var d := Decimal(now);
    var u := d + sep + x;
    assert u == d + (sep + x);
    assert DigitRun(u) == |d| && u[..|d|] == d && u[|d|..] == sep + x by {
      DigitRunOf(d, sep + x);
    }
    assert StartsWith(sep + x, sep) && (sep + x)[|sep|..] == x by {
      assert (sep + x)[..|sep|] == sep;
    }
    assert u[|d| + |sep|..] == x by {
      assert u[|d| + |sep|..] == u[|d|..][|sep|..];
    }
  }

  lemma NumberAloneOf(now: nat, x: string)
    requires x == [] || !IsDigit(x[0])
    ensures NumberThen(Decimal(now) + x, "") == Some(Capture(now, x))
  {
    DigitRunOf(Decimal(now), x);
    var u := Decimal(now) + x;
    assert StartsWith(u[|Decimal(now)|..], "");
  }

  lemma SkipDigitsOf(average: nat, x: string)
    ensures SkipDigits(Decimal(average) + x).Some?
    ensures x == [] || !IsDigit(x[0]) ==> SkipDigits(Decimal(average) + x) == Some(x)
  {
    DigitRunAtLeast(Decimal(average), x);
    if x == [] || !IsDigit(x[0]) {
      DigitRunOf(Decimal(average), x);
    }
  }

  /** One slash field reads back its current value, whatever follows, and leaves exactly what follows a non-digit. */
  lemma SlashFieldOf(name: string, now: nat, average: nat, x: string)
    ensures SlashField(SlashText(name, now, average) + x, name).Some?
    ensures SlashField(SlashText(name, now, average) + x, name).value.value == now
    ensures x == [] || !IsDigit(x[0]) ==> SlashField(SlashText(name, now, average) + x, name).value.rest == x
  {
    var w := Decimal(average) + x;
    var t := SlashText(name, now, average) + x;
    assert t == name + " " + (Decimal(now) + "/" + w) by {
      RegroupField(name + " ", Decimal(now), "/", Decimal(average), x);
    }
    assert StartsWith(t, name + " ") && t[|name| + 1..] == Decimal(now) + "/" + w by {
      AfterName(name, Decimal(now) + "/" + w);
    }
    assert NumberThen(t[|name| + 1..], "/") == Some(Capture(now, w)) by {
      NumberThenOf(now, "/", w);
    }
    SkipDigitsOf(average, x);
  }

  /** How a run of at least two slash fields is matched: the first field, a space, then the others. */
  lemma SlashFieldsStep(t: string, names: seq<string>, c: Capture, vs: seq<nat>)
    requires |names| > 1
    requires SlashField(t, names[0]) == Some(c)
    requires StartsWith(c.rest, " ") && SlashFields(c.rest[1..], names[1..]) == Some(vs)
    ensures SlashFields(t, names) == Some([c.value] + vs)
  {
  }

  lemma SlashLineSplit(names: seq<string>, nows: seq<nat>, averages: seq<nat>, x: string)
    requires |nows| == |names| == |averages| && |names| > 1
    ensures SlashLine(names, nows, averages) + x
      == SlashText(names[0], nows[0], averages[0]) + (" " + (SlashLine(names[1..], nows[1..], averages[1..]) + x))
  {
  }

  lemma MilliwattLineSplit(names: seq<string>, nows: seq<nat>, averages: seq<nat>, x: string)
    requires |nows| == |names| == |averages| && |names| > 1
    ensures MilliwattLine(names, nows, averages) + x
      == names[0] + " " + Decimal(nows[0]) + "mW/"
        + (Decimal(averages[0]) + "mW" + (" " + (MilliwattLine(names[1..], nows[1..], averages[1..]) + x)))
  {
    var m := MilliwattLine(names[1..], nows[1..], averages[1..]);
    assert MilliwattLine(names, nows, averages) == MilliwattText(names[0], nows[0], averages[0]) + " " + m;
    Regroup(names[0] + " " + Decimal(nows[0]) + "mW/", Decimal(averages[0]), "mW", " ", m, x);
  }

  lemma Regroup(p: string, a: string, b: string, c: string, d: string, e: string)
    ensures p + a + b + c + d + e == p + (a + b + (c + (d + e)))
  {
  }

  lemma RegroupField(p: string, a: string, b: string, c: string, d: string)
    ensures p + a + b + c + d == p + (a + b + (c + d))
  {
  }

  lemma RegroupTail(p: string, a: string, b: string, c: string)
    ensures p + a + b + c == p + (a + (b + c))
  {
  }

  lemma SlashFieldsOfOne(names: seq<string>, nows: seq<nat>, averages: seq<nat>, x: string)
    requires |nows| == |names| == |averages| == 1
    ensures SlashFields(SlashLine(names, nows, averages) + x, names) == Some(nows)
  {
    SlashFieldOf(names[0], nows[0], averages[0], x);
    assert SlashLine(names, nows, averages) == SlashText(names[0], nows[0], averages[0]);
    assert nows == [nows[0]];
  }

  /** A run of slash fields reads back every current value, whatever follows the last one. */
  lemma {:induction false} SlashFieldsOf(names: seq<string>, nows: seq<nat>, averages: seq<nat>, x: string)
    requires |nows| == |names| == |averages|
    ensures SlashFields(SlashLine(names, nows, averages) + x, names) == Some(nows)
    decreases |names|
  {
    if |names| == 1 {
      SlashFieldsOfOne(names, nows, averages, x);
    } else if |names| > 1 {
      var more := SlashLine(names[1..], nows[1..], averages[1..]) + x;
      var first := SlashText(names[0], nows[0], averages[0]);
      assert SlashFields(first + (" " + more), [names[0]] + names[1..]) == Some([nows[0]] + nows[1..]) by {
        SlashFieldsOf(names[1..], nows[1..], averages[1..], x);
        SlashFieldsCons(names[0], nows[0], averages[0], names[1..], more, nows[1..]);
      }
      assert SlashLine(names, nows, averages) + x == first + (" " + more) by {
        SlashLineSplit(names, nows, averages, x);
      }
      HeadTail(names);
      HeadTail(nows);
    }
  }

  lemma HeadTail<T>(s: seq<T>)
    requires s != []
    ensures [s[0]] + s[1..] == s
  {
  }

  /** A slash field, a space, and a run of further fields read back the field's value before theirs. */
  lemma SlashFieldsCons(name: string, now: nat, average: nat, names: seq<string>, more: string, vs: seq<nat>)
    requires names != [] && SlashFields(more, names) == Some(vs)
    ensures SlashFields(SlashText(name, now, average) + (" " + more), [name] + names) == Some([now] + vs)
  {
    var after := " " + more;
    SlashFieldOf(name, now, average, after);
    var c := SlashField(SlashText(name, now, average) + after, name).value;
    assert StartsWith(after, " ") && after[1..] == more;
    assert ([name] + names)[1..] == names;
    SlashFieldsStep(SlashText(name, now, average) + after, [name] + names, c, vs);
  }

  /** A milliwatt field reads back its current value and leaves what follows `mW/`. */
  lemma MilliwattFieldOf(name: string, now: nat, x: string)
    ensures MilliwattField(name + " " + Decimal(now) + "mW/" + x, name) == Some(Capture(now, x))
  {
    assert name + " " + Decimal(now) + "mW/" + x == name + " " + (Decimal(now) + "mW/" + x);
    AfterName(name, Decimal(now) + "mW/" + x);
    NumberThenOf(now, "mW/", x);
  }
}
