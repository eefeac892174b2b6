/**
 * Character-level helpers shared by the tegrastats line extractors:
 * ASCII digit runs and their decimal value (what `(\d+)` followed by `int()`
 * yields), literal prefixes, and Python's `str.strip()`.
 */
module Text {

  predicate IsDigit(c: char) {
    '0' <= c <= '9'
  }

  predicate AllDigits(s: string) {
    forall k :: 0 <= k < |s| ==> IsDigit(s[k])
  }

  function DigitValue(c: char): (d: nat)
    requires IsDigit(c)
    ensures d < 10
  {
    (c as int) - ('0' as int)
  }

  function DigitChar(d: nat): (c: char)
    requires d < 10
    ensures IsDigit(c) && DigitValue(c) == d
  {
    (('0' as int) + d) as char
  }

  /** The value Python's `int()` gives a string of ASCII digits (leading zeros allowed). */
  function DecimalValue(ds: string): nat
    requires AllDigits(ds)
    decreases |ds|
  {
    if ds == [] then 0 else DecimalValue(ds[..|ds| - 1]) * 10 + DigitValue(ds[|ds| - 1])
  }

  /** The shortest decimal spelling of `n`, as tegrastats prints a reading. */
  function Decimal(n: nat): (r: string)
    ensures |r| >= 1 && AllDigits(r)
    ensures DecimalValue(r) == n
    decreases n
  {
    if n < 10 then [DigitChar(n)]
    else
      var r := Decimal(n / 10) + [DigitChar(n % 10)];
      assert r[..|r| - 1] == Decimal(n / 10);
      r
  }

  /** Length of the run of digits that opens `t`: what a greedy `\d+` consumes. */
  function DigitRun(t: string): (n: nat)
    ensures n <= |t|
    ensures AllDigits(t[..n])
    ensures n == |t| || !IsDigit(t[n])
    decreases |t|
  {
    if t != [] && IsDigit(t[0]) then
      var n := 1 + DigitRun(t[1..]);
      assert t[..n] == [t[0]] + t[1..][..n - 1];
      n
    else 0
  }

  /** A digit string followed by a non-digit (or by nothing) is exactly the run a greedy `\d+` takes. */
  lemma {:induction false} DigitRunOf(ds: string, tail: string)
    requires AllDigits(ds)
    requires tail == [] || !IsDigit(tail[0])
    ensures DigitRun(ds + tail) == |ds|
    ensures (ds + tail)[..|ds|] == ds && (ds + tail)[|ds|..] == tail
    decreases |ds|
  {
    if ds != [] {
      assert (ds + tail)[1..] == ds[1..] + tail;
      DigitRunOf(ds[1..], tail);
    }
  }

  /** A digit string followed by anything still opens a run of at least its own length. */
  lemma {:induction false} DigitRunAtLeast(ds: string, tail: string)
    requires AllDigits(ds)
    ensures DigitRun(ds + tail) >= |ds|
    decreases |ds|
  {
    if ds != [] {
      assert (ds + tail)[1..] == ds[1..] + tail;
      DigitRunAtLeast(ds[1..], tail);
    }
  }

  predicate StartsWith(t: string, p: string) {
    |p| <= |t| && t[..|p|] == p
  }

  /** Text that differs from the prefix at some position both have does not start with it. */
  lemma CharDiffersAt(t: string, p: string, m: nat)
    requires m < |t| && m < |p| && t[m] != p[m]
    ensures !StartsWith(t, p)
  {
    if |p| <= |t| {
      assert t[..|p|][m] == t[m];
    }
  }

  /** Python's `sub in s` for strings: a text holds its own prefixes, and nothing longer than itself. */
  predicate Contains(s: string, sub: string)
    ensures StartsWith(s, sub) ==> Contains(s, sub)
    ensures Contains(s, sub) ==> |sub| <= |s|
  {
    assert StartsWith(s, sub) ==> StartsWith(s[0..], sub);
    exists k :: 0 <= k <= |s| && StartsWith(s[k..], sub)
  }

  /** Python's `str.isspace()` for one character: the blank, tab, newline and carriage return among others, never a digit. */
  predicate IsSpace(c: char)
    ensures c == ' ' || c == '\t' || c == '\n' || c == '\r' ==> IsSpace(c)
    ensures IsDigit(c) ==> !IsSpace(c)
  {
    || c == ' '
    || '\t' <= c <= '\r'
    || '\U{1C}' <= c <= '\U{1F}'
    || c == '\U{85}' || c == '\U{A0}' || c == '\U{1680}'
    || '\U{2000}' <= c <= '\U{200A}'
    || c == '\U{2028}' || c == '\U{2029}' || c == '\U{202F}' || c == '\U{205F}' || c == '\U{3000}'
  }

  predicate AllSpace(s: string) {
    forall k :: 0 <= k < |s| ==> IsSpace(s[k])
  }

  function TrimStart(s: string): (r: string)
    ensures |r| <= |s| && r == s[|s| - |r|..]
    ensures r == [] || !IsSpace(r[0])
    decreases |s|
  {
    if s != [] && IsSpace(s[0]) then TrimStart(s[1..]) else s
  }

  /** What TrimStart drops is whitespace only. */
  lemma {:induction false} TrimStartDropsSpace(s: string)
    ensures AllSpace(s[..|s| - |TrimStart(s)|])
    decreases |s|
  {
    if s != [] && IsSpace(s[0]) {
      TrimStartDropsSpace(s[1..]);
      var r := TrimStart(s);
      assert s[..|s| - |r|] == [s[0]] + s[1..][..|s| - 1 - |r|];
    }
  }

  function TrimEnd(s: string): (r: string)
    ensures |r| <= |s| && r == s[..|r|]
    ensures r == [] || !IsSpace(r[|r| - 1])
    decreases |s|
  {
    if s != [] && IsSpace(s[|s| - 1]) then TrimEnd(s[..|s| - 1]) else s
  }

  /** What TrimEnd drops is whitespace only. */
  lemma {:induction false} TrimEndDropsSpace(s: string)
    ensures AllSpace(s[|TrimEnd(s)|..])
    decreases |s|
  {
    if s != [] && IsSpace(s[|s| - 1]) {
      TrimEndDropsSpace(s[..|s| - 1]);
      var r := TrimEnd(s);
      assert s[|r|..] == s[..|s| - 1][|r|..] + [s[|s| - 1]];
    }
  }

  /** Python's `str.strip()`: drops leading and trailing whitespace. */
  function Strip(s: string): (r: string)
    ensures |r| <= |s|
    ensures r == [] || (!IsSpace(r[0]) && !IsSpace(r[|r| - 1]))
  {
    var t := TrimStart(s);
    var r := TrimEnd(t);
    assert r != [] ==> r[0] == t[0];
    r
  }

  /** The stripped line is a slice of the line with only white space on either side of it. */
  lemma StripIsSlice(s: string)
    ensures exists i, j :: 0 <= i <= j <= |s| && Strip(s) == s[i..j] && AllSpace(s[..i]) && AllSpace(s[j..])
  {
    var t := TrimStart(s);
    var r := Strip(s);
    var i := |s| - |t|;
    var j := i + |r|;
    TrimStartDropsSpace(s);
    TrimEndDropsSpace(t);
    assert r == TrimEnd(t) && t == s[i..] && r == t[..|r|];
    assert s[i..j] == r;
    assert s[j..] == t[|r|..];
  }

  /** A stripped line is empty exactly when the raw line is whitespace only (or empty). */
  lemma StripEmptyIff(s: string)
    ensures Strip(s) == [] <==> AllSpace(s)
  {
    var t := TrimStart(s);
    TrimStartDropsSpace(s);
    TrimEndDropsSpace(t);
    assert forall k :: 0 <= k < |t| ==> t[k] == s[|s| - |t| + k];
    if Strip(s) == [] {
      assert AllSpace(t[0..]) && t[0..] == t;
      assert t == [];
      forall k | 0 <= k < |s| ensures IsSpace(s[k]) {
        assert s[k] == s[..|s| - |t|][k];
      }
    }
  }

  /** Every read line stripped, as `readline().strip()` gives it. */
  function StripAll(lines: seq<string>): (r: seq<string>)
    ensures |r| == |lines|
    decreases |lines|
  {
    if lines == [] then [] else StripAll(lines[..|lines| - 1]) + [Strip(lines[|lines| - 1])]
  }

  /** The `j`th stripped line is the `j`th read, stripped. */
  lemma {:induction false} StripAllAt(lines: seq<string>, j: nat)
    requires j < |lines|
    ensures StripAll(lines)[j] == Strip(lines[j])
    decreases |lines|
  {
    if j < |lines| - 1 {
      StripAllAt(lines[..|lines| - 1], j);
    }
  }

  /** Stripping one more read adds that read, stripped, at the end. */
  lemma StripAllStep(lines: seq<string>, i: nat)
    requires i < |lines|
    ensures StripAll(lines[..i + 1]) == StripAll(lines[..i]) + [Strip(lines[i])]
  {
    assert lines[..i + 1][..i] == lines[..i];
  }

  /** Stripping the first `j` reads gives the first `j` stripped lines. */
  lemma {:induction false} StripAllPrefix(lines: seq<string>, j: nat)
    requires j <= |lines|
    ensures StripAll(lines)[..j] == StripAll(lines[..j])
    decreases |lines|
  {
    if j < |lines| {
      StripAllPrefix(lines[..|lines| - 1], j);
      assert lines[..|lines| - 1][..j] == lines[..j];
    } else {
      assert lines[..j] == lines;
    }
  }
}
