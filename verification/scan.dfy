/**
 * The regular expressions the scripts search tegrastats lines with, the way
 * Python's `re` engine applies them (`re.search`, `re.findall(...)[0]`): the
 * leftmost start position at which the whole pattern matches decides, and a
 * greedy `.*` gives back one character at a time, so it settles on the last
 * position from which the rest still matches. Also the two read loops'
 * bookkeeping: keeping the readings of the matching lines, and stopping at
 * the first empty line.
 */
module Scan {
  import opened Wrappers
  import opened Text
  import opened Fields

  /** The four pattern shapes the scripts use. */
  datatype Pattern =
    | SlashRun(names: seq<string>)       // `N1 (\d+)/\d+ N2 (\d+)/\d+ ...`
    | MilliwattChain(names: seq<string>) // `N1 (\d+)mW/.* N2 (\d+)mW/.* ... Nk (\d+)mW/.*`
    | Reading(name: string)              // `NAME (\d+)`
    | MilliwattPair(name: string)        // `NAME (\d+)mW/\d+mW`

  /** The number of capture groups, i.e. readings a match yields. */
  function Width(p: Pattern): nat {
    match p
    case SlashRun(names) => |names|
    case MilliwattChain(names) => |names|
    case Reading(_) => 1
    case MilliwattPair(_) => 1
  }

  /** The length of the first line of `t`: the stretch a `.` may cover, since it never matches a newline. */
  function LineLength(t: string): (n: nat)
    ensures n <= |t|
    ensures forall j :: 0 <= j < n ==> t[j] != '\n'
    ensures n == |t| || t[n] == '\n'
  {
    if t == [] || t[0] == '\n' then 0 else 1 + LineLength(t[1..])
  }

  /** `N1 (\d+)mW/.* N2 (\d+)mW/ ...` at the start of `t`, with the readings of `names`. */
  function Chain(t: string, names: seq<string>): (r: Option<seq<nat>>)
    requires names != []
    ensures r.Some? ==> |r.value| == |names|
    decreases |names|, 0, 0
  {
    match MilliwattField(t, names[0])
    case None => None
    case Some(c) =>
      match ChainRest(c.rest, names[1..])
      case None => None
      case Some(vs) => Some([c.value] + vs)
  }

  /**
   * `.* N1 (\d+)mW/.* N2 (\d+)mW/ ...` at the start of `t`: the `.*` runs as far
   * as it can and backs off one character at a time until the rest matches.
   */
  function ChainRest(t: string, names: seq<string>): (r: Option<seq<nat>>)
    ensures r.Some? ==> |r.value| == |names|
    decreases |names|, 1, 0
  {
    if names == [] then Some([]) else ChainFrom(t, names, LineLength(t))
  }

  /** One attempt of the backtracking `.*`: it covers `t[..k]`, and ` N1 (\d+)mW/...` follows. */
  function ChainAt(t: string, names: seq<string>, k: nat): (r: Option<seq<nat>>)
    requires names != []
    ensures r.Some? ==> |r.value| == |names|
    decreases |names|, 0, 1
  {
    if k < |t| && t[k] == ' ' then Chain(t[k + 1..], names) else None
  }

  /** The attempts at `k`, `k - 1`, ..., `0`, in that order: the first that succeeds is the match. */
  function ChainFrom(t: string, names: seq<string>, k: nat): (r: Option<seq<nat>>)
    requires names != []
    ensures r.Some? ==> |r.value| == |names|
    decreases |names|, 0, k + 2
  {
    if ChainAt(t, names, k).Some? then ChainAt(t, names, k)
    else if k == 0 then None
    else ChainFrom(t, names, k - 1)
  }

  /** The pattern `p` anchored at the start of `t`: its readings, or None. */
  function MatchAt(p: Pattern, t: string): (r: Option<seq<nat>>)
    ensures r.Some? ==> |r.value| == Width(p)
  {
    match p
    case SlashRun(names) => SlashFields(t, names)
    case MilliwattChain(names) => if names == [] then Some([]) else Chain(t, names)
    case Reading(name) =>
      if !StartsWith(t, name + " ") then None
      else (
        match NumberThen(t[|name| + 1..], "")
        case None => None
        case Some(c) => Some([c.value]))
    case MilliwattPair(name) =>
      match MilliwattField(t, name)
      case None => None
      case Some(c) =>
        match SkipDigits(c.rest)
        case None => None
        case Some(after) => if StartsWith(after, "mW") then Some([c.value]) else None
  }

  /** `NAME (\d+)` reads back the number after the name, when a non-digit (or nothing) follows it. */
  lemma ReadingOf(name: string, now: nat, x: string)
    requires x == [] || !IsDigit(x[0])
    ensures MatchAt(Reading(name), name + " " + Decimal(now) + x) == Some([now])
  {
    var t := name + " " + Decimal(now) + x;
    assert t == name + " " + (Decimal(now) + x);
    AfterName(name, Decimal(now) + x);
    NumberAloneOf(now, x);
    assert NumberThen(t[|name| + 1..], "") == Some(Capture(now, x));
  }

  /** `NAME (\d+)mW/\d+mW` reads back the current value of a field in tegrastats' milliwatt form, whatever follows. */
  lemma MilliwattPairOf(name: string, now: nat, average: nat, x: string)
    ensures MatchAt(MilliwattPair(name), MilliwattText(name, now, average) + x) == Some([now])
  {
    var rest := Decimal(average) + ("mW" + x);
    var t := MilliwattText(name, now, average) + x;
    assert MilliwattField(t, name) == Some(Capture(now, rest)) by {
      RegroupTail(name + " " + Decimal(now) + "mW/", Decimal(average), "mW", x);
      MilliwattFieldOf(name, now, rest);
    }
    assert SkipDigits(rest) == Some("mW" + x) by {
      SkipDigitsOf(average, "mW" + x);
    }
    assert StartsWith("mW" + x, "mW");
  }

  /** The engine trying start positions `k`, `k + 1`, ..., `|line|` in turn. */
  function SearchFrom(p: Pattern, line: string, k: nat): (r: Option<seq<nat>>)
    ensures r.Some? ==> |r.value| == Width(p)
    decreases |line| + 1 - k
  {
    if k > |line| then None
    else if MatchAt(p, line[k..]).Some? then MatchAt(p, line[k..])
    else SearchFrom(p, line, k + 1)
  }

  /** `re.search(p, line)`, or the first element of `re.findall(p, line)`: the readings of the leftmost match. */
  function Search(p: Pattern, line: string): (r: Option<seq<nat>>)
    ensures r.Some? ==> |r.value| == Width(p)
  {
    SearchFrom(p, line, 0)
  }

  /** Started at `k`, the engine returns the match at the first position from `k` on where the pattern matches. */
  lemma {:induction false} SearchFromFirst(p: Pattern, line: string, k: nat, j: nat)
    requires k <= j <= |line| && MatchAt(p, line[j..]).Some?
    requires forall i :: k <= i < j ==> MatchAt(p, line[i..]).None?
    ensures SearchFrom(p, line, k) == MatchAt(p, line[j..])
    decreases j - k
  {
    if k < j {
      assert MatchAt(p, line[k..]).None?;
      SearchFromFirst(p, line, k + 1, j);
    }
  }

  /** Started at `k`, the engine fails when the pattern matches at no position from `k` on. */
  lemma {:induction false} SearchFromNone(p: Pattern, line: string, k: nat)
    requires forall i :: k <= i <= |line| ==> MatchAt(p, line[i..]).None?
    ensures SearchFrom(p, line, k).None?
    decreases |line| + 1 - k
  {
    if k <= |line| {
      SearchFromNone(p, line, k + 1);
    }
  }

  /** Started at `k`, the engine finds something when the pattern matches at `j`, or anywhere from `k` on. */
  lemma {:induction false} SearchFromFinds(p: Pattern, line: string, k: nat, j: nat)
    requires k <= j <= |line| && MatchAt(p, line[j..]).Some?
    ensures SearchFrom(p, line, k).Some?
    decreases j - k
  {
    if k < j && MatchAt(p, line[k..]).None? {
      SearchFromFinds(p, line, k + 1, j);
    }
  }

  /** Whatever the engine returns is the pattern's match at some position from `k` on. */
  lemma {:induction false} SearchFromSome(p: Pattern, line: string, k: nat)
    requires SearchFrom(p, line, k).Some?
    ensures exists j :: k <= j <= |line| && MatchAt(p, line[j..]) == SearchFrom(p, line, k)
    decreases |line| + 1 - k
  {
    if MatchAt(p, line[k..]).None? {
      SearchFromSome(p, line, k + 1);
    }
  }

  /** When `j` is the first position at which the pattern matches, the search returns that match. */
  lemma SearchFindsFirstMatch(p: Pattern, line: string, j: nat)
    requires j <= |line| && MatchAt(p, line[j..]).Some?
    requires forall i :: 0 <= i < j ==> MatchAt(p, line[i..]).None?
    ensures Search(p, line) == MatchAt(p, line[j..])
  {
    SearchFromFirst(p, line, 0, j);
  }

  /** A search comes back empty exactly when the pattern matches at no position of the line. */
  lemma SearchFailsOnlyWithoutMatch(p: Pattern, line: string)
    ensures Search(p, line).None? <==> forall i :: 0 <= i <= |line| ==> MatchAt(p, line[i..]).None?
  {
    if forall i :: 0 <= i <= |line| ==> MatchAt(p, line[i..]).None? {
      SearchFromNone(p, line, 0);
    } else {
      var j :| 0 <= j <= |line| && MatchAt(p, line[j..]).Some?;
      SearchFromFinds(p, line, 0, j);
    }
  }

  /** Whatever a search returns is the pattern's match at some position of the line. */
  lemma SearchResultIsAMatch(p: Pattern, line: string)
    requires Search(p, line).Some?
    ensures exists j :: 0 <= j <= |line| && MatchAt(p, line[j..]) == Search(p, line)
  {
    SearchFromSome(p, line, 0);
  }

  /** The backtracking `.*` settles on the longest stretch `t[..k]`, `k <= h`, after which the rest matches. */
  lemma {:induction false} ChainFromLongest(t: string, names: seq<string>, h: nat, k: nat)
    requires names != [] && k <= h && ChainAt(t, names, k).Some?
    requires forall j :: k < j <= h ==> ChainAt(t, names, j).None?
    ensures ChainFrom(t, names, h) == ChainAt(t, names, k)
    decreases h - k
  {
    if k < h {
      ChainFromLongest(t, names, h - 1, k);
    }
  }

  /** The backtracking `.*` succeeds as soon as one stretch `t[..k]`, `k <= h`, is followed by a match of the rest. */
  lemma {:induction false} ChainFromFinds(t: string, names: seq<string>, h: nat, k: nat)
    requires names != [] && k <= h && ChainAt(t, names, k).Some?
    ensures ChainFrom(t, names, h).Some?
    decreases h - k
  {
    if k < h && ChainAt(t, names, h).None? {
      ChainFromFinds(t, names, h - 1, k);
    }
  }

  /** A stretch without a newline lies within the first line. */
  lemma {:induction false} LineLengthAtLeast(t: string, k: nat)
    requires k <= |t| && forall j :: 0 <= j < k ==> t[j] != '\n'
    ensures k <= LineLength(t)
    decreases k
  {
    if k > 0 {
      assert t[0] != '\n';
      LineLengthAtLeast(t[1..], k - 1);
    }
  }

  /**
   * Rails printed in the milliwatt format, in the order of the pattern, are
   * matched whatever follows them, and the first reading is the first rail's
   * current value. When the text that follows repeats a later rail's field,
   * the greedy `.*` reads that rail from the last occurrence instead
   * (`ChainFromLongest`); `ChainReadsMilliwattLine` pins every reading when it
   * does not.
   */
  lemma {:induction false} ChainMatchesMilliwattLine(names: seq<string>, nows: seq<nat>, averages: seq<nat>, x: string)
    requires |nows| == |names| == |averages| && names != []
    ensures Chain(MilliwattLine(names, nows, averages) + x, names).Some?
    ensures Chain(MilliwattLine(names, nows, averages) + x, names).value[0] == nows[0]
    decreases |names|
  {
    if |names| == 1 {
      ChainReadsOneField(names, nows, averages, x);
    } else {
      var more := MilliwattLine(names[1..], nows[1..], averages[1..]) + x;
      var rest := Decimal(averages[0]) + "mW" + (" " + more);
      ChainMatchesMilliwattLine(names[1..], nows[1..], averages[1..], x);
      FirstMilliwattField(names, nows, averages, x);
      RestAfterAverageMatches(averages[0], more, names[1..]);
      ChainJoin(MilliwattLine(names, nows, averages) + x, names, nows[0], rest);
    }
  }

  /** After a field's average and a space, a match of the later rails is one the backtracking `.*` finds. */
  lemma RestAfterAverageMatches(average: nat, more: string, names: seq<string>)
    requires names != [] && Chain(more, names).Some?
    ensures ChainRest(Decimal(average) + "mW" + (" " + more), names).Some?
  {
    var field := Decimal(average) + "mW";
    var rest := field + (" " + more);
    AverageThenSpace(average, more, field, rest);
    assert ChainAt(rest, names, |field|).Some?;
    ChainFromFinds(rest, names, LineLength(rest), |field|);
  }

  /** The first field, then a match of the `.*` and the later rails: a match of the whole chain. */
  lemma ChainJoin(t: string, names: seq<string>, now: nat, rest: string)
    requires |names| > 1 && MilliwattField(t, names[0]) == Some(Capture(now, rest))
    requires ChainRest(rest, names[1..]).Some?
    ensures Chain(t, names) == Some([now] + ChainRest(rest, names[1..]).value)
  {
  }

  /** After a field's `mW/`: its average, `mW`, a space, and the next field, all on one line. */
  lemma AverageThenSpace(average: nat, more: string, field: string, rest: string)
    requires field == Decimal(average) + "mW" && rest == field + (" " + more)
    ensures |field| < |rest| && rest[|field|] == ' ' && rest[|field| + 1..] == more && |field| <= LineLength(rest)
  {
    forall j | 0 <= j < |field| ensures rest[j] != '\n' {
      assert rest[j] == field[j];
      if j < |Decimal(average)| {
        assert IsDigit(Decimal(average)[j]);
      }
    }
    LineLengthAtLeast(rest, |field|);
  }

  /** The backtracking `.*` fails when no stretch `t[..k]`, `k <= h`, is followed by a match of the rest. */
  lemma {:induction false} ChainFromNone(t: string, names: seq<string>, h: nat)
    requires names != []
    requires forall k :: 0 <= k <= h ==> ChainAt(t, names, k).None?
    ensures ChainFrom(t, names, h).None?
    decreases h
  {
    if h > 0 {
      ChainFromNone(t, names, h - 1);
    }
  }

  /** `s` holds no space, so no field of the chain can begin inside it. */
  predicate NoSpace(s: string) {
    forall k :: 0 <= k < |s| ==> s[k] != ' '
  }

  /**
   * No field `name ...` begins right after a space of `s`: after every space,
   * `s` itself shows a character that differs from `name + " "`.
   */
  predicate NoFieldAfterSpace(s: string, name: string) {
    forall k :: 0 <= k < |s| && s[k] == ' ' ==>
      exists m :: 0 <= m <= |name| && k + 1 + m < |s| && s[k + 1 + m] != (name + " ")[m]
  }

  /** `a` and `b` differ at a position both have, so neither is a prefix of the other. */
  predicate DifferWithin(a: string, b: string) {
    exists m :: 0 <= m < |a| && m < |b| && a[m] != b[m]
  }

  /**
   * Rail names as tegrastats prints them: no spaces, no leading digit, and no
   * name a prefix of another, so no field can be mistaken for a later rail's.
   */
  predicate DistinctRailNames(names: seq<string>) {
    && (forall j :: 0 <= j < |names| ==> NoSpace(names[j]) && names[j] != [] && !IsDigit(names[j][0]))
    && (forall i, j :: 0 <= i < j < |names| ==> DifferWithin(names[j], names[i]))
  }

  lemma NoFieldAfterSpaceAt(s: string, name: string, k: nat)
    requires NoFieldAfterSpace(s, name) && k < |s| && s[k] == ' '
    ensures !StartsWith(s[k + 1..], name + " ")
  {
    var m :| 0 <= m <= |name| && k + 1 + m < |s| && s[k + 1 + m] != (name + " ")[m];
    var t := s[k + 1..];
    assert t[m] != (name + " ")[m];
    if |name + " "| <= |t| {
      assert t[..|name + " "|][m] == t[m];
    }
  }

  lemma NoFieldAfterSpaceConcat(a: string, b: string, name: string)
    requires NoFieldAfterSpace(a, name) && NoFieldAfterSpace(b, name)
    ensures NoFieldAfterSpace(a + b, name)
  {
    var s := a + b;
    forall k | 0 <= k < |s| && s[k] == ' '
      ensures exists m :: 0 <= m <= |name| && k + 1 + m < |s| && s[k + 1 + m] != (name + " ")[m]
    {
      if k < |a| {
        assert a[k] == ' ';
        var m :| 0 <= m <= |name| && k + 1 + m < |a| && a[k + 1 + m] != (name + " ")[m];
        assert s[k + 1 + m] == a[k + 1 + m];
      } else {
        assert b[k - |a|] == ' ';
        var m :| 0 <= m <= |name| && k - |a| + 1 + m < |b| && b[k - |a| + 1 + m] != (name + " ")[m];
        assert s[k + 1 + m] == b[k - |a| + 1 + m];
      }
    }
  }

  lemma NoSpaceConcat(a: string, b: string)
    requires NoSpace(a) && NoSpace(b)
    ensures NoSpace(a + b)
  {
    forall k | 0 <= k < |a + b| ensures (a + b)[k] != ' ' {
      if k < |a| {
        assert (a + b)[k] == a[k];
      } else {
        assert (a + b)[k] == b[k - |a|];
      }
    }
  }

  lemma DecimalHasNoSpace(n: nat)
    ensures NoSpace(Decimal(n)) && IsDigit(Decimal(n)[0])
  {
    var d := Decimal(n);
    forall k | 0 <= k < |d| ensures d[k] != ' ' {
      assert IsDigit(d[k]);
    }
  }

  /** Inside one printed field the only space is followed by a digit, which no rail name starts with. */
  lemma NoFieldInsideText(n: string, now: nat, average: nat, name: string)
    requires NoSpace(n) && name != [] && !IsDigit(name[0])
    ensures NoFieldAfterSpace(MilliwattText(n, now, average), name)
  {
    var d := Decimal(now);
    DecimalHasNoSpace(now);
    DecimalHasNoSpace(average);
    var head := n + " " + d;
    var tail := "mW/" + Decimal(average) + "mW";
    NoSpaceConcat("mW/", Decimal(average));
    NoSpaceConcat("mW/" + Decimal(average), "mW");
    assert MilliwattText(n, now, average) == head + tail;
    forall k | 0 <= k < |head| && k != |n| ensures head[k] != ' ' {
      if k < |n| {
        assert head[k] == n[k];
      } else {
        assert head[k] == d[k - |n| - 1];
      }
    }
    forall k | 0 <= k < |head| && head[k] == ' '
      ensures exists m :: 0 <= m <= |name| && k + 1 + m < |head| && head[k + 1 + m] != (name + " ")[m]
    {
      assert k == |n|;
      assert head[k + 1] == d[0];
      assert (name + " ")[0] == name[0];
    }
    NoFieldAfterSpaceConcat(head, tail, name);
  }

  /** A space in front of text that opens with something other than `name` does not start a `name` field. */
  lemma NoFieldAfterLeadingSpace(s: string, name: string)
    requires NoFieldAfterSpace(s, name) && DifferWithin(s, name)
    ensures NoFieldAfterSpace(" " + s, name)
  {
    var t := " " + s;
    var m0 :| 0 <= m0 < |s| && m0 < |name| && s[m0] != name[m0];
    forall k | 0 <= k < |t| && t[k] == ' '
      ensures exists m :: 0 <= m <= |name| && k + 1 + m < |t| && t[k + 1 + m] != (name + " ")[m]
    {
      if k == 0 {
        assert t[1 + m0] == s[m0] && (name + " ")[m0] == name[m0];
      } else {
        assert s[k - 1] == ' ';
        var m :| 0 <= m <= |name| && k - 1 + 1 + m < |s| && s[k - 1 + 1 + m] != (name + " ")[m];
        assert t[k + 1 + m] == s[k + m];
      }
    }
  }

  lemma TextOpensWithName(n: string, now: nat, average: nat, m: nat)
    requires m < |n|
    ensures m < |MilliwattText(n, now, average)| && MilliwattText(n, now, average)[m] == n[m]
  {
    var a := n + " ";
    var b := a + Decimal(now);
    var c := b + "mW/";
    var d := c + Decimal(average);
    assert MilliwattText(n, now, average) == d + "mW";
    assert a[m] == n[m];
    assert b[m] == a[m];
    assert c[m] == b[m];
    assert d[m] == c[m];
    assert (d + "mW")[m] == d[m];
  }

  lemma LineOpensWithName(names: seq<string>, nows: seq<nat>, averages: seq<nat>, x: string, m: nat)
    requires |nows| == |names| == |averages| && names != [] && m < |names[0]|
    ensures m < |MilliwattLine(names, nows, averages) + x|
    ensures (MilliwattLine(names, nows, averages) + x)[m] == names[0][m]
  {
    var first := MilliwattText(names[0], nows[0], averages[0]);
    TextOpensWithName(names[0], nows[0], averages[0], m);
    if |names| == 1 {
      assert MilliwattLine(names, nows, averages) == first;
      assert (first + x)[m] == first[m];
    } else {
      var more := MilliwattLine(names[1..], nows[1..], averages[1..]);
      assert MilliwattLine(names, nows, averages) == first + " " + more;
      assert (first + " ")[m] == first[m];
      assert (first + " " + more)[m] == (first + " ")[m];
      assert (first + " " + more + x)[m] == (first + " " + more)[m];
    }
  }

  /** The rails after the first open with the second rail's name, which differs from `name` early on. */
  lemma LaterLineDiffers(names: seq<string>, nows: seq<nat>, averages: seq<nat>, x: string, name: string)
    requires |nows| == |names| == |averages| && |names| > 1
    requires DifferWithin(names[1], name)
    ensures DifferWithin(MilliwattLine(names[1..], nows[1..], averages[1..]) + x, name)
  {
    var m :| 0 <= m < |names[1]| && m < |name| && names[1][m] != name[m];
    LineOpensWithName(names[1..], nows[1..], averages[1..], x, m);
  }

  /** A line of fields for rails other than `name`, and a tail without spaces, holds no `name` field after a space. */
  lemma {:induction false} NoFieldInLine(names: seq<string>, nows: seq<nat>, averages: seq<nat>, x: string, name: string)
    requires |nows| == |names| == |averages|
    requires forall j :: 0 <= j < |names| ==> NoSpace(names[j])
    requires forall j :: 1 <= j < |names| ==> DifferWithin(names[j], name)
    requires name != [] && !IsDigit(name[0]) && NoSpace(x)
    ensures NoFieldAfterSpace(MilliwattLine(names, nows, averages) + x, name)
    decreases |names|
  {
    if names == [] {
      assert MilliwattLine(names, nows, averages) + x == x;
    } else if |names| == 1 {
      NoFieldInsideText(names[0], nows[0], averages[0], name);
      NoFieldAfterSpaceConcat(MilliwattText(names[0], nows[0], averages[0]), x, name);
    } else {
      var first := MilliwattText(names[0], nows[0], averages[0]);
      var more := MilliwattLine(names[1..], nows[1..], averages[1..]) + x;
      assert MilliwattLine(names, nows, averages) + x == first + (" " + more);
      NoFieldInsideText(names[0], nows[0], averages[0], name);
      NoFieldInLine(names[1..], nows[1..], averages[1..], x, name);
      LaterLineDiffers(names, nows, averages, x, name);
      NoFieldAfterLeadingSpace(more, name);
      NoFieldAfterSpaceConcat(first, " " + more, name);
    }
  }

  /** When no later space of `t` opens a field of the next rail, the backtracking `.*` stops at the space `k`. */
  lemma ChainFromOnlyAt(t: string, names: seq<string>, k: nat, h: nat)
    requires names != [] && k <= h && ChainAt(t, names, k).Some?
    requires k < |t| && NoFieldAfterSpace(t[k + 1..], names[0])
    ensures ChainFrom(t, names, h) == ChainAt(t, names, k)
  {
    forall j | k < j <= h ensures ChainAt(t, names, j).None? {
      NoChainAtLaterSpace(t, names, k, j);
    }
    ChainFromLongest(t, names, h, k);
  }

  /** Past `k`, no attempt of the `.*` can stop in front of the next rail's field. */
  lemma NoChainAtLaterSpace(t: string, names: seq<string>, k: nat, j: nat)
    requires names != [] && k < j && k < |t| && NoFieldAfterSpace(t[k + 1..], names[0])
    ensures ChainAt(t, names, j).None?
  {
    if j < |t| && t[j] == ' ' {
      var s := t[k + 1..];
      assert s[j - k - 1] == ' ';
      NoFieldAfterSpaceAt(s, names[0], j - k - 1);
      assert s[j - k - 1 + 1..] == t[j + 1..];
    }
  }

  lemma ChainReadsOneField(names: seq<string>, nows: seq<nat>, averages: seq<nat>, x: string)
    requires |nows| == |names| == |averages| == 1
    ensures Chain(MilliwattLine(names, nows, averages) + x, names) == Some(nows)
  {
    var field := Decimal(averages[0]) + "mW";
    assert MilliwattLine(names, nows, averages) + x == names[0] + " " + Decimal(nows[0]) + "mW/" + (field + x);
    MilliwattFieldOf(names[0], nows[0], field + x);
    assert names[1..] == [];
    assert ChainRest(field + x, names[1..]) == Some([]);
    assert [nows[0]] + [] == nows;
  }

  /** An attempt of the `.*` that stops at a space goes on with the rest of the chain on the text after that space. */
  lemma ChainAtSpace(t: string, k: nat, more: string, names: seq<string>)
    requires names != [] && k < |t| && t[k] == ' ' && t[k + 1..] == more
    ensures ChainAt(t, names, k) == Chain(more, names)
  {
  }

  /** After a field's average, the `.*` ends at the space before the next field when no later space opens one. */
  lemma ChainRestAfterAverage(average: nat, more: string, field: string, rest: string, names: seq<string>, vs: seq<nat>)
    requires names != [] && field == Decimal(average) + "mW" && rest == field + (" " + more)
    requires Chain(more, names) == Some(vs) && NoFieldAfterSpace(more, names[0])
    ensures ChainRest(rest, names) == Some(vs)
  {
    assert |field| < |rest| && |field| <= LineLength(rest) && rest[|field|] == ' ' && rest[|field| + 1..] == more by {
      AverageThenSpace(average, more, field, rest);
    }
    ChainAtSpace(rest, |field|, more, names);
    ChainFromOnlyAt(rest, names, |field|, LineLength(rest));
  }

  lemma NoFieldInLaterRails(names: seq<string>, nows: seq<nat>, averages: seq<nat>, x: string)
    requires |nows| == |names| == |averages| && |names| > 1
    requires DistinctRailNames(names) && NoSpace(x)
    ensures NoFieldAfterSpace(MilliwattLine(names[1..], nows[1..], averages[1..]) + x, names[1])
  {
    assert forall j :: 1 <= j < |names[1..]| ==> DifferWithin(names[1..][j], names[1]) by {
      assert forall j :: 1 <= j < |names[1..]| ==> names[1..][j] == names[j + 1];
    }
    NoFieldInLine(names[1..], nows[1..], averages[1..], x, names[1]);
  }

  lemma FirstMilliwattField(names: seq<string>, nows: seq<nat>, averages: seq<nat>, x: string)
    requires |nows| == |names| == |averages| && |names| > 1
    ensures MilliwattField(MilliwattLine(names, nows, averages) + x, names[0])
      == Some(Capture(nows[0], Decimal(averages[0]) + "mW" + (" " + (MilliwattLine(names[1..], nows[1..], averages[1..]) + x))))
  {
    var rest := Decimal(averages[0]) + "mW" + (" " + (MilliwattLine(names[1..], nows[1..], averages[1..]) + x));
    MilliwattLineSplit(names, nows, averages, x);
    MilliwattFieldOf(names[0], nows[0], rest);
  }

  lemma ChainReadsStep(names: seq<string>, nows: seq<nat>, averages: seq<nat>, x: string, more: string)
    requires |nows| == |names| == |averages| && |names| > 1
    requires DistinctRailNames(names) && NoSpace(x)
    requires more == MilliwattLine(names[1..], nows[1..], averages[1..]) + x
    requires Chain(more, names[1..]) == Some(nows[1..])
    ensures Chain(MilliwattLine(names, nows, averages) + x, names) == Some(nows)
  {
    var field := Decimal(averages[0]) + "mW";
    var rest := field + (" " + more);
    var t := MilliwattLine(names, nows, averages) + x;
    assert ChainRest(rest, names[1..]) == Some(nows[1..]) by {
      NoFieldInLaterRails(names, nows, averages, x);
      assert names[1..][0] == names[1];
      ChainRestAfterAverage(averages[0], more, field, rest, names[1..], nows[1..]);
    }
    assert MilliwattField(t, names[0]) == Some(Capture(nows[0], rest)) by {
      FirstMilliwattField(names, nows, averages, x);
    }
    ChainJoin(t, names, nows[0], rest);
    HeadTail(nows);
  }

  lemma DistinctRailNamesTail(names: seq<string>)
    requires DistinctRailNames(names) && names != []
    ensures DistinctRailNames(names[1..])
  {
    assert forall i, j :: 0 <= i < j < |names[1..]| ==> names[1..][j] == names[j + 1] && names[1..][i] == names[i + 1];
  }

  /**
   * Rails with distinct names printed in the milliwatt format, in the order of
   * the pattern and followed by text without spaces, are matched with every
   * reading the current value of its own rail: each greedy `.*` backs off to
   * the space before the next rail's field, since no later space opens one.
   */
  lemma {:induction false} ChainReadsMilliwattLine(names: seq<string>, nows: seq<nat>, averages: seq<nat>, x: string)
    requires |nows| == |names| == |averages| && names != []
    requires DistinctRailNames(names) && NoSpace(x)
    ensures Chain(MilliwattLine(names, nows, averages) + x, names) == Some(nows)
    decreases |names|
  {
    if |names| == 1 {
      ChainReadsOneField(names, nows, averages, x);
    } else {
      DistinctRailNamesTail(names);
      ChainReadsMilliwattLine(names[1..], nows[1..], averages[1..], x);
      ChainReadsStep(names, nows, averages, x, MilliwattLine(names[1..], nows[1..], averages[1..]) + x);
    }
  }

  /** The readings of the lines the pattern matches somewhere, in read order. */
  function Samples(p: Pattern, lines: seq<string>): (r: seq<seq<nat>>)
    ensures |r| <= |lines|
    decreases |lines|
  {
    if lines == [] then []
    else
      var init := Samples(p, lines[..|lines| - 1]);
      match Search(p, lines[|lines| - 1])
      case Some(v) => init + [v]
      case None => init
  }

  /** One more line adds its readings at the end when the pattern matches it, and nothing otherwise. */
  lemma SamplesSnoc(p: Pattern, lines: seq<string>, line: string)
    ensures Search(p, line).None? ==> Samples(p, lines + [line]) == Samples(p, lines)
    ensures Search(p, line).Some? ==> Samples(p, lines + [line]) == Samples(p, lines) + [Search(p, line).value]
  {
    assert (lines + [line])[..|lines|] == lines;
  }

  lemma SnocSplit(a: seq<string>, b: seq<string>)
    requires b != []
    ensures a + b == (a + b[..|b| - 1]) + [b[|b| - 1]]
    ensures b == b[..|b| - 1] + [b[|b| - 1]]
  {
  }

  /** The samples of two runs of lines read one after the other are the samples of each, in order. */
  lemma {:induction false} SamplesConcat(p: Pattern, a: seq<string>, b: seq<string>)
    ensures Samples(p, a + b) == Samples(p, a) + Samples(p, b)
    decreases |b|
  {
    if b == [] {
      assert a + b == a;
    } else {
      var n := |b| - 1;
      var init, last := b[..n], b[n];
      SnocSplit(a, b);
      SamplesConcat(p, a, init);
      SamplesSnoc(p, a + init, last);
      SamplesSnoc(p, init, last);
      if Search(p, last).Some? {
        calc {
          Samples(p, a + b);
          Samples(p, a + init) + [Search(p, last).value];
          Samples(p, a) + Samples(p, init) + [Search(p, last).value];
          Samples(p, a) + (Samples(p, init) + [Search(p, last).value]);
          Samples(p, a) + Samples(p, b);
        }
      }
    }
  }

  /** Every sample is the search result of some line, so it carries one reading per capture group. */
  lemma {:induction false} SamplesFrom(p: Pattern, lines: seq<string>, i: nat)
    requires i < |Samples(p, lines)|
    ensures exists k :: 0 <= k < |lines| && Search(p, lines[k]) == Some(Samples(p, lines)[i])
    ensures |Samples(p, lines)[i]| == Width(p)
    decreases |lines|
  {
    var init := Samples(p, lines[..|lines| - 1]);
    if i < |init| {
      SamplesFrom(p, lines[..|lines| - 1], i);
      var k :| 0 <= k < |lines| - 1 && Search(p, lines[..|lines| - 1][k]) == Some(init[i]);
      assert lines[..|lines| - 1][k] == lines[k];
    } else {
      assert Search(p, lines[|lines| - 1]) == Some(Samples(p, lines)[i]);
    }
  }

  /** The lines a read loop hands on when it stops at the first empty line. */
  function TakeUntilEmpty(lines: seq<string>): (r: seq<string>)
    ensures |r| <= |lines|
    decreases |lines|
  {
    if lines == [] || |lines[0]| == 0 then [] else [lines[0]] + TakeUntilEmpty(lines[1..])
  }

  /** The lines handed on are the reads before the first empty one: all non-empty, and stopped by an empty read or the end. */
  lemma {:induction false} TakeUntilEmptyIsFirstRun(lines: seq<string>)
    ensures TakeUntilEmpty(lines) == lines[..|TakeUntilEmpty(lines)|]
    ensures forall k :: 0 <= k < |TakeUntilEmpty(lines)| ==> |lines[k]| > 0
    ensures |TakeUntilEmpty(lines)| == |lines| || |lines[|TakeUntilEmpty(lines)|]| == 0
    decreases |lines|
  {
    if lines != [] && |lines[0]| > 0 {
      var r := TakeUntilEmpty(lines[1..]);
      TakeUntilEmptyIsFirstRun(lines[1..]);
      assert TakeUntilEmpty(lines) == [lines[0]] + r;
      assert lines[..1 + |r|] == [lines[0]] + lines[1..][..|r|];
      forall k | 0 < k < 1 + |r| ensures |lines[k]| > 0 {
        assert lines[k] == lines[1..][k - 1];
      }
    }
  }

  /** A loop that has seen only non-empty lines goes on past one more non-empty line. */
  lemma {:induction false} TakeUntilEmptySnoc(lines: seq<string>, line: string)
    requires TakeUntilEmpty(lines) == lines && |line| > 0
    ensures TakeUntilEmpty(lines + [line]) == lines + [line]
    decreases |lines|
  {
    if lines != [] {
      assert (lines + [line])[1..] == lines[1..] + [line];
      TakeUntilEmptySnoc(lines[1..], line);
    }
  }

  /** An empty line at `j` ends the loop there: whatever follows it plays no part. */
  lemma {:induction false} TakeUntilEmptyStops(lines: seq<string>, j: nat)
    requires j < |lines| && |lines[j]| == 0
    ensures TakeUntilEmpty(lines) == TakeUntilEmpty(lines[..j])
    ensures |TakeUntilEmpty(lines)| <= j
    decreases j
  {
    if j > 0 && |lines[0]| > 0 {
      TakeUntilEmptyStops(lines[1..], j - 1);
      assert lines[..j][1..] == lines[1..][..j - 1];
    }
  }

  /** The lines `readline().strip()` hands to the pattern: every read stripped, up to the first that strips to "". */
  function StrippedSession(stream: seq<string>): (r: seq<string>)
    ensures |r| <= |stream|
  {
    TakeUntilEmpty(StripAll(stream))
  }

  /** The lines a bare `readline()` hands to the pattern: every read, up to the first empty one (the end of the stream). */
  function RawSession(stream: seq<string>): (r: seq<string>)
    ensures |r| <= |stream|
  {
    TakeUntilEmpty(stream)
  }

  /**
   * With stripping, a read that is blank once stripped (a whitespace-only line
   * as well as the end of the stream) ends the session: no later read is processed.
   */
  lemma BlankReadEndsStrippedSession(stream: seq<string>, j: nat)
    requires j < |stream| && AllSpace(stream[j])
    ensures StrippedSession(stream) == StrippedSession(stream[..j])
    ensures |StrippedSession(stream)| <= j
  {
    StripEmptyIff(stream[j]);
    StripAllAt(stream, j);
    TakeUntilEmptyStops(StripAll(stream), j);
    StripAllPrefix(stream, j);
  }

  /**
   * Without stripping, a non-empty read such as the blank line "\n" keeps the
   * session going: it is handed to the pattern, and so is what follows it.
   */
  lemma {:induction false} NonEmptyReadContinuesRawSession(before: seq<string>, line: string, after: seq<string>)
    requires RawSession(before) == before && |line| > 0
    ensures RawSession(before + [line] + after) == before + [line] + RawSession(after)
    decreases |before|
  {
    if before == [] {
      assert ([] + [line] + after)[1..] == after;
    } else {
      assert (before + [line] + after)[1..] == before[1..] + [line] + after;
      NonEmptyReadContinuesRawSession(before[1..], line, after);
    }
  }
  /**
   * A non-empty line the pattern does not match (such as a blank line, read as
   * "\n") neither ends a loop that stops only at "" nor adds a sample.
   */
  lemma UnmatchedReadContinuesRawSession(p: Pattern, before: seq<string>, line: string, after: seq<string>)
    requires RawSession(before) == before && |line| > 0 && Search(p, line).None?
    ensures RawSession(before + [line] + after) == before + [line] + RawSession(after)
    ensures Samples(p, RawSession(before + [line] + after)) == Samples(p, before) + Samples(p, RawSession(after))
  {
    NonEmptyReadContinuesRawSession(before, line, after);
    SamplesSnoc(p, before, line);
    SamplesConcat(p, before + [line], RawSession(after));
  }

}
