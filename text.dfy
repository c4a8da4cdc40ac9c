/**
 * String helpers shared by both models: Python's `str(int)` and `str.zfill`,
 * `sep.join`, splitting on one character, newline-terminated lines,
 * the text before the first newline (what `.*` can span in a Python regex)
 * and POSIX `os.path.join` of two components.
 */
module Text {
  import opened Common

  predicate IsDigit(c: char) { '0' <= c <= '9' }

  predicate AllDigits(s: string) { forall i :: 0 <= i < |s| ==> IsDigit(s[i]) }

  predicate StartsWith(s: string, prefix: string) { |prefix| <= |s| && s[..|prefix|] == prefix }

  predicate EndsWith(s: string, suffix: string) { |suffix| <= |s| && s[|s| - |suffix|..] == suffix }

  function DigitChar(d: nat): (c: char)
    requires d < 10
    ensures IsDigit(c) && c as int - '0' as int == d
  {
    (48 + d) as char
  }

  /** The number a string of decimal digits denotes. */
  function DigitsValue(s: string): nat
    requires AllDigits(s)
  {
    if s == [] then 0 else DigitsValue(s[..|s| - 1]) * 10 + (s[|s| - 1] as int - '0' as int)
  }

  function Pow10(k: nat): (p: nat)
    ensures p >= 1
  {
    if k == 0 then 1 else 10 * Pow10(k - 1)
  }

  /** Python `str(n)` for a non-negative integer. */
  function NatToStr(n: nat): (r: string)
    ensures 1 <= |r| && AllDigits(r) && DigitsValue(r) == n
  {
    if n < 10 then [DigitChar(n)]
    else
      var r := NatToStr(n / 10) + [DigitChar(n % 10)];
      assert r[..|r| - 1] == NatToStr(n / 10);
      r
  }

  /** Python `str(n)` for any integer. */
  function IntToStr(n: int): (r: string)
    ensures n >= 0 ==> r == NatToStr(n)
    ensures n < 0 ==> r == "-" + NatToStr(-n)
  {
    if n < 0 then "-" + NatToStr(-n) else NatToStr(n)
  }

  function Zeros(k: nat): (r: string)
    ensures |r| == k && forall i :: 0 <= i < k ==> r[i] == '0'
  {
    if k == 0 then "" else Zeros(k - 1) + "0"
  }

  /** Python `s.zfill(width)`: pad with '0' on the left, after a leading sign. */
  function ZFill(s: string, width: nat): (r: string)
    ensures |r| == if |s| >= width then |s| else width
  {
    if |s| >= width then s
    else if |s| > 0 && (s[0] == '+' || s[0] == '-') then [s[0]] + Zeros(width - |s|) + s[1..]
    else Zeros(width - |s|) + s
  }

  lemma {:induction false} NatToStrLength(n: nat, w: nat)
    requires 1 <= w && n < Pow10(w)
    ensures |NatToStr(n)| <= w
  {
    if n >= 10 {
      assert w >= 2;
      assert n / 10 < Pow10(w - 1);
      NatToStrLength(n / 10, w - 1);
    }
  }

  lemma {:induction false} LeadingZerosValue(k: nat, s: string)
    requires AllDigits(s)
    ensures AllDigits(Zeros(k) + s) && DigitsValue(Zeros(k) + s) == DigitsValue(s)
    decreases |s|
  {
    var z := Zeros(k) + s;
    if s == [] {
      assert z == Zeros(k);
      ZerosValue(k);
    } else {
      var t := s[..|s| - 1];
      LeadingZerosValue(k, t);
      assert z[..|z| - 1] == Zeros(k) + t;
    }
  }

  lemma {:induction false} ZerosValue(k: nat)
    ensures AllDigits(Zeros(k)) && DigitsValue(Zeros(k)) == 0
  {
    if k > 0 {
      ZerosValue(k - 1);
      assert Zeros(k)[..k - 1] == Zeros(k - 1);
    }
  }

  /** Zero-padding a number below 10^w to w places gives exactly w digits that still denote it. */
  lemma PaddedDigits(n: nat, w: nat)
    requires 1 <= w && n < Pow10(w)
    ensures |ZFill(NatToStr(n), w)| == w
    ensures AllDigits(ZFill(NatToStr(n), w)) && DigitsValue(ZFill(NatToStr(n), w)) == n
  {
    var s := NatToStr(n);
    NatToStrLength(n, w);
    if |s| < w {
      assert s[0] != '+' && s[0] != '-' by { assert IsDigit(s[0]); }
      assert ZFill(s, w) == Zeros(w - |s|) + s;
      LeadingZerosValue(w - |s|, s);
    } else {
      assert ZFill(s, w) == s;
    }
  }

  lemma EndsWithAppend(a: string, b: string, suffix: string)
    requires EndsWith(b, suffix)
    ensures EndsWith(a + b, suffix)
  {
    assert (a + b)[|a + b| - |suffix|..] == b[|b| - |suffix|..];
  }

  /** Python `sep.join(xs)`. */
  function Join(sep: string, xs: seq<string>): string
  {
    if |xs| == 0 then "" else if |xs| == 1 then xs[0] else xs[0] + sep + Join(sep, xs[1..])
  }

  /** The concatenation of a sequence of strings (`''.join(xs)`). */
  function Concat(xs: seq<string>): string
  {
    if xs == [] then "" else xs[0] + Concat(xs[1..])
  }

  lemma ConcatCons(x: string, xs: seq<string>)
    ensures Concat([x] + xs) == x + Concat(xs)
  {
    assert ([x] + xs)[1..] == xs;
  }

  /** The position of the first occurrence of c in s, if any. */
  function IndexOf(c: char, s: string): (r: Option<nat>)
    ensures r.None? ==> c !in s
    ensures r.Some? ==> r.value < |s| && s[r.value] == c && c !in s[..r.value]
  {
    if s == [] then None
    else if s[0] == c then Some(0)
    else
      var r := IndexOf(c, s[1..]);
      if r.None? then None
      else
        assert s[..r.value + 1] == [s[0]] + s[1..][..r.value];
        Some(r.value + 1)
  }

  lemma IndexOfSeparator(c: char, a: string, b: string)
    requires c !in a
    ensures IndexOf(c, a + [c] + b) == Some(|a|)
  {
    var s := a + [c] + b;
    assert s[|a|] == c;
    assert s[..|a|] == a;
  }

  /** Python `s.split(c)` for a one-character separator. */
  function Split(c: char, s: string): (r: seq<string>)
    ensures |r| >= 1
    decreases |s|
  {
    var i := IndexOf(c, s);
    if i.None? then [s] else [s[..i.value]] + Split(c, s[i.value + 1..])
  }

  /** Splitting a join on its separator gives back the parts, when no part holds the separator. */
  lemma {:induction false} SplitJoin(c: char, xs: seq<string>)
    requires |xs| >= 1
    requires forall i :: 0 <= i < |xs| ==> c !in xs[i]
    ensures Split(c, Join([c], xs)) == xs
  {
    if |xs| > 1 {
      var rest := Join([c], xs[1..]);
      var s := xs[0] + [c] + rest;
      assert Join([c], xs) == s;
      IndexOfSeparator(c, xs[0], rest);
      assert s[..|xs[0]|] == xs[0];
      assert s[|xs[0]| + 1..] == rest;
      SplitJoin(c, xs[1..]);
      assert xs == [xs[0]] + xs[1..];
    }
  }

  /** The text before the first newline: what a Python `.*` can span from the start. */
  function FirstLine(s: string): string
  {
    var i := IndexOf('\n', s);
    if i.None? then s else s[..i.value]
  }

  /** The first line holds no newline, starts the text, and ends at its end or at a newline. */
  lemma FirstLineSpec(s: string)
    ensures var r := FirstLine(s);
      '\n' !in r && StartsWith(s, r) && (|r| == |s| || s[|r|] == '\n')
  {
  }

  lemma FirstLineWhole(s: string)
    requires '\n' !in s
    ensures FirstLine(s) == s
  {
  }

  /** The lines of a newline-terminated text, as a reader of a list file sees them. */
  function Lines(s: string): seq<string>
    decreases |s|
  {
    if s == [] then []
    else
      var i := IndexOf('\n', s);
      if i.None? then [s] else [s[..i.value]] + Lines(s[i.value + 1..])
  }

  /** A line without a newline, ended by one, is the first line read. */
  lemma LinesFront(line: string, rest: string)
    requires '\n' !in line
    ensures Lines(line + "\n" + rest) == [line] + Lines(rest)
  {
    var s := line + "\n" + rest;
    assert s == line + ['\n'] + rest;
    IndexOfSeparator('\n', line, rest);
    assert s[..|line|] == line;
    assert s[|line| + 1..] == rest;
  }

  /** POSIX `os.path.join(a, b)`. */
  function PathJoin(a: string, b: string): (r: string)
    ensures StartsWith(b, "/") ==> r == b
    ensures !StartsWith(b, "/") && a != "" && !EndsWith(a, "/") ==> r == a + "/" + b
  {
    if StartsWith(b, "/") then b
    else if a == "" || EndsWith(a, "/") then a + b
    else a + "/" + b
  }
}
