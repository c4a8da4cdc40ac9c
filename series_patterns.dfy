/**
 * The fixed regular expressions of the by-lead series driver, each written
 * out as a string predicate or function. A Python `.` matches any character
 * but '\n', and `re.match` anchors at the start only, so a leading `.*`
 * ranges over the text before the first newline and a greedy `.*X` settles
 * on the last place X can match.
 */
module SeriesPatterns {
  import opened Common
  import opened Text

  /** pat occurs in s starting at position i. */
  predicate OccursAt(pat: string, s: string, i: int)
  {
    0 <= i && i + |pat| <= |s| && s[i..i + |pat|] == pat
  }

  predicate IsAlnum(c: char)
  {
    '0' <= c <= '9' || 'a' <= c <= 'z' || 'A' <= c <= 'Z'
  }

  // ---------------------------------------------------------------------
  // `.*FCST_TILE_F([0-9]{3}).*` and `.*ANLY_TILE_F([0-9]{3}).*`

  datatype TileKind = Fcst | Anly

  function TileMarker(k: TileKind): (m: string)
    ensures |m| == 11
  {
    match k
    case Fcst => "FCST_TILE_F"
    case Anly => "ANLY_TILE_F"
  }

  /** The marker followed by three digits starts at position i of line. */
  predicate HourAt(m: string, line: string, i: int)
  {
    OccursAt(m, line, i) && i + |m| + 3 <= |line| && AllDigits(line[i + |m|..i + |m| + 3])
  }

  /** The last position below n where the marker and three digits start. */
  function LastHourPos(m: string, line: string, n: nat): (r: Option<nat>)
    requires n <= |line|
    ensures r.None? ==> forall j :: 0 <= j < n ==> !HourAt(m, line, j)
    ensures r.Some? ==> r.value < n && HourAt(m, line, r.value)
                        && forall j :: r.value < j < n ==> !HourAt(m, line, j)
  {
    if n == 0 then None
    else if HourAt(m, line, n - 1) then Some(n - 1)
    else LastHourPos(m, line, n - 1)
  }

  /** group(1) of the tile-hour pattern for kind k: None when the pattern does not match. */
  function TileHour(k: TileKind, s: string): (r: Option<string>)
    ensures r.Some? ==> |r.value| == 3 && AllDigits(r.value)
  {
    var line := FirstLine(s);
    var m := TileMarker(k);
    match LastHourPos(m, line, |line|)
    case None => None
    case Some(i) => Some(line[i + |m|..i + |m| + 3])
  }

  /** The pattern matches exactly when the first line holds the marker followed by three
      digits, and the hour it yields is the one after the last such marker. */
  lemma TileHourLast(k: TileKind, s: string)
    ensures var r := TileHour(k, s);
      (r.None? <==> forall j :: 0 <= j < |FirstLine(s)| ==> !HourAt(TileMarker(k), FirstLine(s), j))
      && (r.Some? ==>
            exists i :: 0 <= i < |FirstLine(s)| && HourAt(TileMarker(k), FirstLine(s), i)
              && r.value == FirstLine(s)[i + 11..i + 14]
              && forall j :: i < j < |FirstLine(s)| ==> !HourAt(TileMarker(k), FirstLine(s), j))
  {
    var line := FirstLine(s);
    var p := LastHourPos(TileMarker(k), line, |line|);
    if p.Some? {
      assert HourAt(TileMarker(k), line, p.value);
    }
  }

  /** No marker starts inside the marker-and-hour block at positions 1 through 13. */
  lemma MarkerNotInside(k: TileKind, h: string, post: string, j: int)
    requires |h| == 3 && AllDigits(h)
    requires 0 < j < 14
    ensures !OccursAt(TileMarker(k), TileMarker(k) + h + post, j)
  {
    var m := TileMarker(k);
    var s := m + h + post;
    if j + 11 <= |s| {
      if k.Fcst? && j == 10 {
        assert IsDigit(h[0]);
        assert s[j..j + 11][1] == h[0] != m[1];
      } else {
        if j < 11 {
          assert s[j] == m[j];
          assert forall d :: 0 < d < 11 && !(k.Fcst? && d == 10) ==> m[d] != m[0];
        } else {
          assert s[j] == h[j - 11];
          assert IsDigit(h[j - 11]);
        }
        assert s[j..j + 11][0] == s[j] != m[0];
      }
    }
  }

  /** Past the marker-and-hour block, a marker with three digits starts exactly where one
      starts in the suffix. */
  lemma HourInSuffix(m: string, h: string, post: string, j: int)
    requires |m| == 11 && |h| == 3 && j >= 14
    ensures HourAt(m, m + h + post, j) <==> HourAt(m, post, j - 14)
  {
    var s := m + h + post;
    if j + 14 <= |s| {
      assert s[j..j + 11] == post[j - 14..j - 3];
      assert s[j + 11..j + 14] == post[j - 3..j];
    }
  }

  /** A tile name `<prefix><marker><hhh><suffix>` on one line, whose suffix
      holds no later marker followed by three digits, yields hhh as its hour. */
  lemma TileHourOfName(k: TileKind, pre: string, h: string, post: string)
    requires |h| == 3 && AllDigits(h)
    requires '\n' !in pre && '\n' !in post
    requires forall j :: 0 <= j < |post| ==> !HourAt(TileMarker(k), post, j)
    ensures TileHour(k, pre + TileMarker(k) + h + post) == Some(h)
  {
    var m := TileMarker(k);
    var s := pre + m + h + post;
    assert '\n' !in s by {
      forall i | 0 <= i < |s| ensures s[i] != '\n' {
        if i < |pre| { assert s[i] == pre[i]; }
        else if i < |pre| + 11 { assert s[i] == m[i - |pre|]; }
        else if i < |pre| + 14 { assert s[i] == h[i - |pre| - 11]; assert IsDigit(h[i - |pre| - 11]); }
        else { assert s[i] == post[i - |pre| - 14]; }
      }
    }
    var line := FirstLine(s);
    FirstLineWhole(s);
    var i := |pre|;
    assert s[i..i + 11] == m;
    assert s[i + 11..i + 14] == h;
    assert HourAt(m, line, i);
    forall j | i < j < |line| ensures !HourAt(m, line, j) {
      var tail := m + h + post;
      assert s == pre + tail;
      if j + 11 <= |s| {
        assert s[j..j + 11] == tail[j - i..j - i + 11];
      }
      if j - i < 14 {
        MarkerNotInside(k, h, post, j - i);
      } else {
        HourInSuffix(m, h, post, j - i);
        if j + 14 <= |s| {
          assert s[j + 11..j + 14] == tail[j - i + 11..j - i + 14];
        }
      }
    }
    TileHourLast(k, s);
    var r := TileHour(k, s);
    var w :| 0 <= w < |line| && HourAt(m, line, w) && r.value == line[w + 11..w + 14]
             && forall j :: w < j < |line| ==> !HourAt(m, line, j);
    assert w == i;
  }

  // ---------------------------------------------------------------------
  // `(.*)/(.*)` applied to a variable name

  /** The last position of c in s, if any. */
  function LastIndexOf(c: char, s: string): (r: Option<nat>)
    ensures r.None? ==> c !in s
    ensures r.Some? ==> r.value < |s| && s[r.value] == c && c !in s[r.value + 1..]
  {
    if s == [] then None
    else if s[|s| - 1] == c then Some(|s| - 1)
    else
      var r := LastIndexOf(c, s[..|s| - 1]);
      if r.None? then None
      else
        assert s[r.value + 1..] == s[..|s| - 1][r.value + 1..] + [s[|s| - 1]];
        Some(r.value)
  }

  /** The two groups of `(.*)/(.*)`: the first line split at its last '/'. */
  function SplitVar(v: string): Option<(string, string)>
  {
    var line := FirstLine(v);
    match LastIndexOf('/', line)
    case None => None
    case Some(i) => Some((line[..i], line[i + 1..]))
  }

  /** A variable fails to split exactly when its first line holds no '/'. */
  lemma SplitVarNone(v: string)
    ensures SplitVar(v).None? <==> '/' !in FirstLine(v)
  {
  }

  /** The groups rejoined with '/' give the first line back, and the level holds no '/'. */
  lemma SplitVarParts(v: string)
    requires SplitVar(v).Some?
    ensures var (name, level) := SplitVar(v).value;
      name + "/" + level == FirstLine(v) && '/' !in level
  {
    var line := FirstLine(v);
    var i := LastIndexOf('/', line).value;
    assert line == line[..i] + "/" + line[i + 1..];
  }

  lemma {:induction false} LastIndexOfAt(c: char, a: string, b: string)
    requires c !in b
    ensures LastIndexOf(c, a + [c] + b) == Some(|a|)
    decreases |b|
  {
    var s := a + [c] + b;
    if b != [] {
      assert s[|s| - 1] == b[|b| - 1];
      assert s[..|s| - 1] == a + [c] + b[..|b| - 1];
      LastIndexOfAt(c, a, b[..|b| - 1]);
    }
  }

  /** A name/level string on one line splits back into its name and its level. */
  lemma SplitVarJoin(name: string, level: string)
    requires '\n' !in name && '\n' !in level && '/' !in level
    ensures SplitVar(name + "/" + level) == Some((name, level))
  {
    var v := name + "/" + level;
    assert '\n' !in v by {
      forall i | 0 <= i < |v| ensures v[i] != '\n' {
        if i < |name| { assert v[i] == name[i]; }
        else if i > |name| { assert v[i] == level[i - |name| - 1]; }
      }
    }
    FirstLineWhole(v);
    LastIndexOfAt('/', name, level);
    assert v[..|name|] == name && v[|name| + 1..] == level;
  }

  // ---------------------------------------------------------------------
  // `.*series_F[0-9]{3}_<var>_[0-9a-zA-Z]+.*nc`

  /** `series_F`, three digits, `_`, the variable, `_` and one alphanumeric start at i. */
  predicate VarHeadAt(v: string, s: string, i: int)
  {
    OccursAt("series_F", s, i) && i + |v| + 14 <= |s|
    && AllDigits(s[i + 8..i + 11]) && s[i + 11] == '_'
    && OccursAt(v, s, i + 12) && s[i + 12 + |v|] == '_' && IsAlnum(s[i + 13 + |v|])
  }

  /** `.*nc` from position p: an "nc" with no newline before it. */
  function NcFrom(s: string, p: nat): (r: bool)
    ensures r <==> exists k :: p <= k && OccursAt("nc", s, k) && '\n' !in s[p..k]
    decreases |s| - p
  {
    if p + 2 > |s| then false
    else if s[p..p + 2] == "nc" then
      assert OccursAt("nc", s, p) && s[p..p] == [];
      true
    else if s[p] == '\n' then
      assert forall k :: p < k <= |s| ==> s[p..k][0] == '\n';
      false
    else
      var r := NcFrom(s, p + 1);
      assert forall k :: p + 1 <= k <= |s| ==> s[p..k] == [s[p]] + s[p + 1..k];
      r
  }

  /** The variable pattern matches from the start of s, with v taken literally. */
  ghost predicate VarNcSpec(v: string, s: string)
  {
    exists i :: 0 <= i <= |s| && '\n' !in s[..i] && VarHeadAt(v, s, i) && NcFrom(s, i + |v| + 14)
  }

  /** The scan behind VarNcMatch: some start at or after p, with no newline between. */
  function VarNcScan(v: string, s: string, p: nat): (r: bool)
    requires p <= |s|
    ensures r <==> exists i :: p <= i <= |s| && '\n' !in s[p..i] && VarHeadAt(v, s, i) && NcFrom(s, i + |v| + 14)
    decreases |s| - p
  {
    if VarHeadAt(v, s, p) && NcFrom(s, p + |v| + 14) then
      assert s[p..p] == [];
      true
    else if p == |s| || s[p] == '\n' then
      assert forall i :: p < i <= |s| ==> s[p..i][0] == '\n';
      false
    else
      var r := VarNcScan(v, s, p + 1);
      assert forall i :: p + 1 <= i <= |s| ==> s[p..i] == [s[p]] + s[p + 1..i];
      r
  }

  /** re.match of the get_var_ncfiles pattern. */
  function VarNcMatch(v: string, s: string): bool
  {
    VarNcScan(v, s, 0)
  }

  /** The scan finds a match exactly when the pattern matches from the start of s. */
  lemma VarNcMatchSpec(v: string, s: string)
    ensures VarNcMatch(v, s) <==> VarNcSpec(v, s)
  {
    assert forall i :: 0 <= i <= |s| ==> s[0..i] == s[..i];
  }

  /** A netCDF name built the way series_analysis names its outputs matches its variable. */
  lemma VarNcNamed(v: string, pre: string, hhh: string, level: string, rest: string)
    requires '\n' !in pre && '\n' !in level && '\n' !in rest
    requires |hhh| == 3 && AllDigits(hhh) && |level| >= 1 && IsAlnum(level[0])
    ensures VarNcMatch(v, pre + "series_F" + hhh + "_" + v + "_" + level + rest + ".nc")
  {
    var s := pre + "series_F" + hhh + "_" + v + "_" + level + rest + ".nc";
    var i := |pre|;
    assert s[..i] == pre;
    assert s[i..i + 8] == "series_F";
    assert s[i + 8..i + 11] == hhh;
    assert s[i + 11] == '_';
    assert s[i + 12..i + 12 + |v|] == v;
    assert s[i + 12 + |v|] == '_';
    assert s[i + 13 + |v|] == level[0];
    assert VarHeadAt(v, s, i);
    var p := i + |v| + 14;
    var k := |s| - 2;
    assert OccursAt("nc", s, k);
    assert s[p..k] == level[1..] + rest + ".";
    assert '\n' !in level[1..] + rest + "." by {
      forall t | 0 <= t < |level[1..] + rest + "."| ensures (level[1..] + rest + ".")[t] != '\n' {
        if t < |level| - 1 { assert (level[1..] + rest + ".")[t] == level[t + 1]; }
        else if t < |level| - 1 + |rest| { assert (level[1..] + rest + ".")[t] == rest[t - |level| + 1]; }
      }
    }
    assert NcFrom(s, p);
    VarNcMatchSpec(v, s);
  }

  // ---------------------------------------------------------------------
  // `re.sub('(\.nc)$', ...)` and `re.sub('(\.ps)$', ...)`

  /** `re.sub('(<suffix>)$', repl, s)` for a suffix with no newline: `$` also
      matches just before one final newline, and at most one place can match. */
  function ReplaceSuffix(s: string, suffix: string, repl: string): string
  {
    if EndsWith(s, suffix) then s[..|s| - |suffix|] + repl
    else if EndsWith(s, suffix + "\n") then s[..|s| - |suffix| - 1] + repl + "\n"
    else s
  }

  /** The postscript name for one statistic. */
  function PsName(nc: string, stat: string): string
  {
    ReplaceSuffix(nc, ".nc", "_" + stat + ".ps")
  }

  /** The PNG name derived from a postscript name. */
  function PngName(ps: string): string
  {
    ReplaceSuffix(ps, ".ps", ".png")
  }

  /** `<stem>.nc` becomes `<stem>_<stat>.ps` and then `<stem>_<stat>.png`. */
  lemma PlotNames(stem: string, stat: string)
    ensures PsName(stem + ".nc", stat) == stem + "_" + stat + ".ps"
    ensures PngName(PsName(stem + ".nc", stat)) == stem + "_" + stat + ".png"
  {
    var nc := stem + ".nc";
    assert nc[|nc| - 3..] == ".nc" && nc[..|nc| - 3] == stem;
    var ps := stem + "_" + stat + ".ps";
    assert ps[|ps| - 3..] == ".ps" && ps[..|ps| - 3] == stem + "_" + stat;
  }

  /** The same with a trailing newline, which `$` steps over. */
  lemma PlotNamesNewline(stem: string, stat: string)
    ensures PsName(stem + ".nc\n", stat) == stem + "_" + stat + ".ps\n"
    ensures PngName(PsName(stem + ".nc\n", stat)) == stem + "_" + stat + ".png\n"
  {
    var nc := stem + ".nc\n";
    assert nc[|nc| - 4..] == ".nc\n" && nc[..|nc| - 4] == stem;
    assert !EndsWith(nc, ".nc") by { assert nc[|nc| - 1] == '\n'; }
    var ps := stem + "_" + stat + ".ps\n";
    assert ps[|ps| - 4..] == ".ps\n" && ps[..|ps| - 4] == stem + "_" + stat;
    assert !EndsWith(ps, ".ps") by { assert ps[|ps| - 1] == '\n'; }
  }

  /** A name with neither suffix, before or after one final newline, is left as it is. */
  lemma PlotNamesUnchanged(s: string, stat: string)
    requires !EndsWith(s, ".nc") && !EndsWith(s, ".nc\n")
    requires !EndsWith(s, ".ps") && !EndsWith(s, ".ps\n")
    ensures PsName(s, stat) == s && PngName(PsName(s, stat)) == s
  {
  }

  // ---------------------------------------------------------------------
  // `re.sub(r'FCST', 'ANLY', s)`

  /** Every non-overlapping FCST, left to right, replaced by ANLY. */
  function ReplaceFcst(s: string): (r: string)
    ensures |r| == |s|
  {
    if |s| < 4 then s
    else if s[..4] == "FCST" then "ANLY" + ReplaceFcst(s[4..])
    else [s[0]] + ReplaceFcst(s[1..])
  }

  /** The result starts with the A of an ANLY, or with the input's first character
      followed by the replacement of the rest. */
  lemma HeadStep(t: string)
    requires |t| > 0
    ensures ReplaceFcst(t)[0] == 'A' || (ReplaceFcst(t)[0] == t[0] && ReplaceFcst(t)[1..] == ReplaceFcst(t[1..]))
  {
    if |t| < 4 {
      assert ReplaceFcst(t[1..]) == t[1..];
    }
  }

  /** The text holds no A, the only letter of ANLY that can start a replacement. */
  predicate NoA(p: string)
  {
    p == [] || (p[0] != 'A' && NoA(p[1..]))
  }

  /** A result that starts with a text holding no A starts the same as the input. */
  lemma {:induction false} PrefixKept(t: string, p: string)
    requires NoA(p) && |p| <= |t|
    ensures StartsWith(ReplaceFcst(t), p) ==> StartsWith(t, p)
    decreases |p|
  {
    if p != [] && StartsWith(ReplaceFcst(t), p) {
      var r := ReplaceFcst(t);
      HeadStep(t);
      assert r[0] == p[0];
      assert r[1..][..|p| - 1] == p[1..];
      PrefixKept(t[1..], p[1..]);
      assert t[..|p|] == [t[0]] + t[1..][..|p| - 1];
    }
  }

  /** An input that does not start with FCST gives a result that does not either. */
  lemma FrontNotFcst(s: string)
    requires |s| >= 4 && s[..4] != "FCST"
    ensures ReplaceFcst(s)[..4] != "FCST"
  {
    assert NoA("FCST");
    PrefixKept(s, "FCST");
  }

  /** No FCST is left anywhere in the result. */
  lemma {:induction false} NoFcstLeft(s: string)
    ensures forall i :: !OccursAt("FCST", ReplaceFcst(s), i)
    decreases |s|
  {
    if |s| >= 4 {
      var r := ReplaceFcst(s);
      if s[..4] == "FCST" {
        NoFcstLeft(s[4..]);
        var t := ReplaceFcst(s[4..]);
        assert r == "ANLY" + t;
        forall i | 0 <= i && i + 4 <= |r| ensures !OccursAt("FCST", r, i) {
          if i < 4 {
            assert r[i] == "ANLY"[i] != 'F';
            assert r[i..i + 4][0] == r[i];
          } else {
            assert r[i..i + 4] == t[i - 4..i];
            assert !OccursAt("FCST", t, i - 4);
          }
        }
      } else {
        NoFcstLeft(s[1..]);
        var u := s[1..];
        assert r[1..] == ReplaceFcst(u);
        forall i | 0 <= i && i + 4 <= |r| ensures !OccursAt("FCST", r, i) {
          if i == 0 {
            FrontNotFcst(s);
            assert r[0..4] == r[..4];
          } else {
            assert r[i..i + 4] == ReplaceFcst(u)[i - 1..i + 3];
            assert !OccursAt("FCST", ReplaceFcst(u), i - 1);
          }
        }
      }
    }
  }

  /** The name is left as it is exactly when it holds no FCST. */
  lemma {:induction false} ReplaceFcstIdentity(s: string)
    ensures ReplaceFcst(s) == s <==> forall i :: !OccursAt("FCST", s, i)
    decreases |s|
  {
    NoFcstLeft(s);
    if (forall i :: !OccursAt("FCST", s, i)) && |s| >= 4 {
      assert !OccursAt("FCST", s, 0);
      forall i | 0 <= i && i + 4 <= |s[1..]| ensures !OccursAt("FCST", s[1..], i) {
        assert s[i + 1..i + 5] == s[1..][i..i + 4];
        assert !OccursAt("FCST", s, i + 1);
      }
      ReplaceFcstIdentity(s[1..]);
    }
  }

  lemma NoFcstTail(pre: string)
    requires pre != [] && forall i :: !OccursAt("FCST", pre, i)
    ensures forall i :: !OccursAt("FCST", pre[1..], i)
  {
    forall i | 0 <= i && i + 4 <= |pre[1..]| ensures !OccursAt("FCST", pre[1..], i) {
      assert pre[i + 1..i + 5] == pre[1..][i..i + 4];
      assert !OccursAt("FCST", pre, i + 1);
    }
  }

  /** A non-empty text without FCST, followed by FCST, does not start with FCST. */
  lemma NotFcstBefore(pre: string, post: string)
    requires pre != [] && forall i :: !OccursAt("FCST", pre, i)
    ensures (pre + "FCST" + post)[..4] != "FCST"
  {
    var s := pre + "FCST" + post;
    if |pre| >= 4 {
      assert s[..4] == pre[..4];
      assert !OccursAt("FCST", pre, 0);
    } else {
      assert s[3] == "FCST"[3 - |pre|];
      assert s[..4][3] == s[3];
    }
  }

  /** The first FCST is replaced and the text before it is kept. */
  lemma {:induction false} ReplaceFcstFront(pre: string, post: string)
    requires forall i :: !OccursAt("FCST", pre, i)
    ensures ReplaceFcst(pre + "FCST" + post) == pre + "ANLY" + ReplaceFcst(post)
    decreases |pre|
  {
    var s := pre + "FCST" + post;
    if pre == [] {
      assert s[..4] == "FCST" && s[4..] == post;
    } else {
      NotFcstBefore(pre, post);
      NoFcstTail(pre);
      assert s[1..] == pre[1..] + "FCST" + post;
      ReplaceFcstFront(pre[1..], post);
      assert pre == [pre[0]] + pre[1..];
    }
  }
}
