/**
 * The by-lead series driver: the forecast-hour loop, the tile filters, the
 * newline-delimited tile manifests appended per forecast hour, the
 * series_analysis command strings and the environment they set, the
 * netCDF filter by variable and the FCST-to-ANLY tile pairing.
 *
 * The directory walk is an input sequence of (root, filename) pairs; the
 * configured tile regexes are collaborators that give match.group() when
 * they match. A sys.exit() or an uncaught exception ends the run with a Stop.
 */
module SeriesByLead {
  import opened Common
  import opened Text
  import opened SeriesPatterns

  /** Why a run ends early. */
  datatype Stop =
    | ZeroStep                      // range() with a step of 0 raises ValueError
    | NoStormMatch(tile: string)    // retrieve_fhr_tiles exits on a tile failing type_regex
    | NoSlash(variable: string)     // `(.*)/(.*)` does not match, so match.group raises

  // ---------------------------------------------------------------------
  // The forecast-hour loop

  /** Python `range(a, b, k)` for k != 0: starts at a, steps by k, and stops at the
      first value that is not before b. */
  function RangeFrom(a: int, b: int, k: int): (r: seq<int>)
    requires k != 0
    ensures r == [] <==> (k > 0 && a >= b) || (k < 0 && a <= b)
    ensures r != [] ==> r[0] == a
    ensures forall i :: 0 < i < |r| ==> r[i] == r[i - 1] + k
    decreases if k > 0 then b - a else a - b
  {
    if (k > 0 && a >= b) || (k < 0 && a <= b) then []
    else [a] + RangeFrom(a + k, b, k)
  }

  /** Every value is before the stop, and one more step from the last would not be. */
  lemma RangeBounds(a: int, b: int, k: int)
    requires k != 0
    ensures var r := RangeFrom(a, b, k);
      (k > 0 ==> (forall i :: 0 <= i < |r| ==> r[i] < b) && (r != [] ==> r[|r| - 1] + k >= b))
      && (k < 0 ==> (forall i :: 0 <= i < |r| ==> r[i] > b) && (r != [] ==> r[|r| - 1] + k <= b))
  {
    var r := RangeFrom(a, b, k);
    forall i | 0 <= i < |r| ensures (k > 0 ==> r[i] < b) && (k < 0 ==> r[i] > b) {
      RangeBefore(a, b, k, i);
    }
    if r != [] {
      RangeLast(a, b, k);
    }
  }

  lemma {:induction false} RangeBefore(a: int, b: int, k: int, i: int)
    requires k != 0 && 0 <= i < |RangeFrom(a, b, k)|
    ensures k > 0 ==> RangeFrom(a, b, k)[i] < b
    ensures k < 0 ==> RangeFrom(a, b, k)[i] > b
    decreases i
  {
    if i > 0 {
      RangeBefore(a + k, b, k, i - 1);
    }
  }

  lemma {:induction false} RangeLast(a: int, b: int, k: int)
    requires k != 0 && RangeFrom(a, b, k) != []
    ensures var r := RangeFrom(a, b, k);
      (k > 0 ==> r[|r| - 1] + k >= b) && (k < 0 ==> r[|r| - 1] + k <= b)
    decreases if k > 0 then b - a else a - b
  {
    var r := RangeFrom(a, b, k);
    var t := RangeFrom(a + k, b, k);
    assert r == [a] + t;
    if t != [] {
      RangeLast(a + k, b, k);
      assert r[|r| - 1] == t[|t| - 1];
    }
  }

  /** `range(fhr_beg, fhr_end + 1, fhr_inc)`. */
  function FhrRange(fhrBeg: int, fhrEnd: int, fhrInc: int): (r: Result<seq<int>, Stop>)
    ensures r.Err? <==> fhrInc == 0
    ensures r.Err? ==> r.error == ZeroStep
  {
    if fhrInc == 0 then Err(ZeroStep) else Ok(RangeFrom(fhrBeg, fhrEnd + 1, fhrInc))
  }

  /** The i-th hour visited is fhr_beg + i * fhr_inc. */
  lemma {:induction false} RangeClosedForm(a: int, b: int, k: int, i: int)
    requires k != 0 && 0 <= i < |RangeFrom(a, b, k)|
    ensures RangeFrom(a, b, k)[i] == a + i * k
  {
    if i > 0 {
      RangeClosedForm(a, b, k, i - 1);
      assert (i - 1) * k + k == i * k;
    }
  }

  /** With a positive step the loop visits fhr_beg first (when it is not past fhr_end),
      then every fhr_inc, never past fhr_end, and stops at the last one not past it. */
  lemma FhrRangeVisits(fhrBeg: int, fhrEnd: int, fhrInc: int)
    requires fhrInc > 0
    ensures var r := FhrRange(fhrBeg, fhrEnd, fhrInc).value;
      (r == [] <==> fhrBeg > fhrEnd)
      && (r != [] ==> r[0] == fhrBeg && fhrEnd - fhrInc < r[|r| - 1] <= fhrEnd)
      && (forall i :: 0 <= i < |r| ==> fhrBeg <= r[i] <= fhrEnd)
      && (forall i :: 0 < i < |r| ==> r[i] == r[i - 1] + fhrInc)
  {
    var r := FhrRange(fhrBeg, fhrEnd, fhrInc).value;
    RangeBounds(fhrBeg, fhrEnd + 1, fhrInc);
    forall i | 0 <= i < |r| ensures fhrBeg <= r[i] {
      RangeClosedForm(fhrBeg, fhrEnd + 1, fhrInc, i);
      assert i * fhrInc >= 0;
    }
  }

  /** `str(fhr).zfill(3)`. */
  function CurFhr(fhr: int): (r: string)
    ensures |r| >= 3
  {
    ZFill(IntToStr(fhr), 3)
  }

  /** An hour from 0 to 999 is named by exactly three digits denoting it. */
  lemma CurFhrDigits(fhr: int)
    requires 0 <= fhr <= 999
    ensures |CurFhr(fhr)| == 3 && AllDigits(CurFhr(fhr)) && DigitsValue(CurFhr(fhr)) == fhr
  {
    assert Pow10(3) == 1000;
    PaddedDigits(fhr, 3);
  }

  /** Different hours from 0 to 999 get different names, so no manifest is shared. */
  lemma CurFhrInjective(a: int, b: int)
    requires 0 <= a <= 999 && 0 <= b <= 999 && CurFhr(a) == CurFhr(b)
    ensures a == b
  {
    CurFhrDigits(a);
    CurFhrDigits(b);
  }

  /** `<out_dir_base>/series_F<fhr>`. */
  function OutDir(outDirBase: string, curFhr: string): string
  {
    outDirBase + "/" + "series_F" + curFhr
  }

  function FcstManifest(outDir: string, curFhr: string): string
  {
    outDir + "/FCST_FILE_F" + curFhr
  }

  function AnlyManifest(outDir: string, curFhr: string): string
  {
    outDir + "/ANLY_FILE_F" + curFhr
  }

  /** The two manifests of one forecast hour are different files. */
  lemma ManifestsDistinct(outDir: string, curFhr: string)
    ensures FcstManifest(outDir, curFhr) != AnlyManifest(outDir, curFhr)
  {
    assert FcstManifest(outDir, curFhr)[|outDir| + 1] == 'F';
    assert AnlyManifest(outDir, curFhr)[|outDir| + 1] == 'A';
  }

  // ---------------------------------------------------------------------
  // get_files

  /** One (root, filename) pair of the directory walk. */
  datatype WalkEntry = WalkEntry(root: string, filename: string)

  /** The file passes filename_regex and the tile hour of the matched text is cur_fhr. */
  predicate Selected(e: WalkEntry, kind: TileKind, tileRegex: string -> Option<string>, curFhr: string)
  {
    tileRegex(e.filename).Some? && TileHour(kind, tileRegex(e.filename).value) == Some(curFhr)
  }

  /** get_files: the joined paths of the selected files, in walk order. */
  function TileFiles(walk: seq<WalkEntry>, kind: TileKind, tileRegex: string -> Option<string>, curFhr: string)
    : seq<string>
  {
    if walk == [] then []
    else
      (if Selected(walk[0], kind, tileRegex, curFhr) then [PathJoin(walk[0].root, walk[0].filename)] else [])
      + TileFiles(walk[1..], kind, tileRegex, curFhr)
  }

  method GetFiles(walk: seq<WalkEntry>, kind: TileKind, tileRegex: string -> Option<string>, curFhr: string)
    returns (filePaths: seq<string>)
    ensures filePaths == TileFiles(walk, kind, tileRegex, curFhr)
  {
    filePaths := [];
    for i := 0 to |walk|
      invariant filePaths == TileFiles(walk[..i], kind, tileRegex, curFhr)
    {
      TileFilesSnoc(walk, i, kind, tileRegex, curFhr);
      // filename_regex matches, and the hour pattern applied to its match gives cur_fhr
      if Selected(walk[i], kind, tileRegex, curFhr) {
        filePaths := filePaths + [PathJoin(walk[i].root, walk[i].filename)];
      }
    }
    assert walk[..|walk|] == walk;
  }

  /** One more walked file adds its path at the end when it is selected. */
  lemma TileFilesSnoc(walk: seq<WalkEntry>, i: nat, kind: TileKind, tileRegex: string -> Option<string>,
                      curFhr: string)
    requires i < |walk|
    ensures TileFiles(walk[..i + 1], kind, tileRegex, curFhr)
         == TileFiles(walk[..i], kind, tileRegex, curFhr)
            + if Selected(walk[i], kind, tileRegex, curFhr) then [PathJoin(walk[i].root, walk[i].filename)] else []
  {
    assert walk[..i + 1] == walk[..i] + [walk[i]];
    TileFilesAppend(walk[..i], [walk[i]], kind, tileRegex, curFhr);
    assert [walk[i]][1..] == [];
  }

  /** A path is returned exactly when some walked file is selected and joins to it. */
  lemma {:induction false} TileFilesMember(walk: seq<WalkEntry>, kind: TileKind,
                                           tileRegex: string -> Option<string>, curFhr: string, p: string)
    ensures p in TileFiles(walk, kind, tileRegex, curFhr) <==>
      exists k :: 0 <= k < |walk| && Selected(walk[k], kind, tileRegex, curFhr)
                  && p == PathJoin(walk[k].root, walk[k].filename)
  {
    if walk != [] {
      TileFilesMember(walk[1..], kind, tileRegex, curFhr, p);
      if p in TileFiles(walk[1..], kind, tileRegex, curFhr) {
        var k :| 0 <= k < |walk[1..]| && Selected(walk[1..][k], kind, tileRegex, curFhr)
                 && p == PathJoin(walk[1..][k].root, walk[1..][k].filename);
        assert walk[k + 1] == walk[1..][k];
      }
      if exists k :: 0 <= k < |walk| && Selected(walk[k], kind, tileRegex, curFhr)
                     && p == PathJoin(walk[k].root, walk[k].filename) {
        var k :| 0 <= k < |walk| && Selected(walk[k], kind, tileRegex, curFhr)
                 && p == PathJoin(walk[k].root, walk[k].filename);
        if k > 0 { assert walk[1..][k - 1] == walk[k]; }
      }
    }
  }

  /** Walk order is kept: filtering a concatenated walk concatenates the results. */
  lemma {:induction false} TileFilesAppend(a: seq<WalkEntry>, b: seq<WalkEntry>, kind: TileKind,
                                           tileRegex: string -> Option<string>, curFhr: string)
    ensures TileFiles(a + b, kind, tileRegex, curFhr)
         == TileFiles(a, kind, tileRegex, curFhr) + TileFiles(b, kind, tileRegex, curFhr)
  {
    if a == [] {
      assert a + b == b;
    } else {
      var head := if Selected(a[0], kind, tileRegex, curFhr) then [PathJoin(a[0].root, a[0].filename)] else [];
      assert (a + b)[0] == a[0] && (a + b)[1..] == a[1..] + b;
      TileFilesAppend(a[1..], b, kind, tileRegex, curFhr);
      AppendAssoc(head, TileFiles(a[1..], kind, tileRegex, curFhr), TileFiles(b, kind, tileRegex, curFhr));
    }
  }

  // ---------------------------------------------------------------------
  // retrieve_fhr_tiles

  /** Each tile followed by a newline, in order. */
  function ManifestText(tiles: seq<string>): string
  {
    if tiles == [] then "" else tiles[0] + "\n" + ManifestText(tiles[1..])
  }

  /** The first string that the pattern does not match, if any. */
  function FirstUnmatched<T>(tiles: seq<string>, typeRegex: string -> Option<T>): (r: Option<nat>)
    ensures r.Some? ==> r.value < |tiles|
  {
    if tiles == [] then None
    else if typeRegex(tiles[0]).None? then Some(0)
    else
      var r := FirstUnmatched(tiles[1..], typeRegex);
      if r.None? then None else Some(r.value + 1)
  }

  /** No string is unmatched, or the one found is unmatched and every string before it matches. */
  lemma {:induction false} FirstUnmatchedSpec<T>(tiles: seq<string>, typeRegex: string -> Option<T>)
    ensures var r := FirstUnmatched(tiles, typeRegex);
      (r.None? ==> forall k :: 0 <= k < |tiles| ==> typeRegex(tiles[k]).Some?)
      && (r.Some? ==> typeRegex(tiles[r.value]).None? && forall k :: 0 <= k < r.value ==> typeRegex(tiles[k]).Some?)
  {
    if tiles != [] && typeRegex(tiles[0]).Some? {
      FirstUnmatchedSpec(tiles[1..], typeRegex);
      forall k | 0 < k < |tiles| ensures tiles[1..][k - 1] == tiles[k] { }
    }
  }

  lemma FirstUnmatchedCons<T>(tiles: seq<string>, typeRegex: string -> Option<T>)
    requires tiles != [] && typeRegex(tiles[0]).Some?
    ensures var r := FirstUnmatched(tiles[1..], typeRegex);
      FirstUnmatched(tiles, typeRegex) == if r.None? then None else Some(r.value + 1)
  {
  }

  lemma FirstUnmatchedTail<T>(tiles: seq<string>, typeRegex: string -> Option<T>)
    requires tiles != [] && FirstUnmatched(tiles, typeRegex).None?
    ensures typeRegex(tiles[0]).Some? && FirstUnmatched(tiles[1..], typeRegex).None?
  {
  }

  /** When every string matches there is no unmatched one. */
  lemma {:induction false} FirstUnmatchedNone<T>(tiles: seq<string>, typeRegex: string -> Option<T>)
    requires forall k :: 0 <= k < |tiles| ==> typeRegex(tiles[k]).Some?
    ensures FirstUnmatched(tiles, typeRegex).None?
  {
    if tiles != [] {
      assert typeRegex(tiles[0]).Some?;
      forall k | 0 <= k < |tiles| - 1 ensures typeRegex(tiles[1..][k]).Some? {
        assert tiles[1..][k] == tiles[k + 1];
      }
      FirstUnmatchedNone(tiles[1..], typeRegex);
    }
  }

  lemma {:induction false} FirstUnmatchedAt<T>(tiles: seq<string>, typeRegex: string -> Option<T>, i: nat)
    requires i < |tiles| && typeRegex(tiles[i]).None?
    requires forall k :: 0 <= k < i ==> typeRegex(tiles[k]).Some?
    ensures FirstUnmatched(tiles, typeRegex) == Some(i)
  {
    if i > 0 {
      assert typeRegex(tiles[0]).Some?;
      forall k | 0 <= k < i - 1 ensures typeRegex(tiles[1..][k]).Some? {
        assert tiles[1..][k] == tiles[k + 1];
      }
      FirstUnmatchedAt(tiles[1..], typeRegex, i - 1);
    }
  }

  /** What retrieve_fhr_tiles yields: the manifest text, or the exit at the first unmatched tile. */
  function TilesOutcome(tiles: seq<string>, typeRegex: string -> Option<string>): Result<string, Stop>
  {
    var bad := FirstUnmatched(tiles, typeRegex);
    if bad.Some? then Err(NoStormMatch(tiles[bad.value])) else Ok(ManifestText(tiles))
  }

  method RetrieveFhrTiles(tileList: seq<string>, typeRegex: string -> Option<string>)
    returns (r: Result<string, Stop>)
    ensures r == TilesOutcome(tileList, typeRegex)
  {
    var fhrTiles := "";
    for i := 0 to |tileList|
      invariant forall k :: 0 <= k < i ==> typeRegex(tileList[k]).Some?
      invariant fhrTiles == ManifestText(tileList[..i])
    {
      ManifestSnoc(tileList, i);
      if typeRegex(tileList[i]).None? {
        FirstUnmatchedAt(tileList, typeRegex, i);
        return Err(NoStormMatch(tileList[i]));
      }
      fhrTiles := fhrTiles + tileList[i];
      fhrTiles := fhrTiles + "\n";
    }
    assert tileList[..|tileList|] == tileList;
    FirstUnmatchedSpec(tileList, typeRegex);
    r := Ok(fhrTiles);
  }

  lemma {:induction false} ManifestAppend(a: seq<string>, b: seq<string>)
    ensures ManifestText(a + b) == ManifestText(a) + ManifestText(b)
  {
    if a == [] {
      assert a + b == b;
    } else {
      assert (a + b)[0] == a[0] && (a + b)[1..] == a[1..] + b;
      ManifestAppend(a[1..], b);
      AppendAssoc(a[0] + "\n", ManifestText(a[1..]), ManifestText(b));
    }
  }

  /** One more tile adds its line at the end. */
  lemma ManifestSnoc(tiles: seq<string>, i: nat)
    requires i < |tiles|
    ensures ManifestText(tiles[..i + 1]) == ManifestText(tiles[..i]) + tiles[i] + "\n"
  {
    assert tiles[..i + 1] == tiles[..i] + [tiles[i]];
    ManifestAppend(tiles[..i], [tiles[i]]);
    assert ManifestText([tiles[i]]) == tiles[i] + "\n";
  }

  /** A reader splitting the manifest into lines gets the tiles back, when no tile holds a newline. */
  lemma {:induction false} ManifestLines(tiles: seq<string>)
    requires forall k :: 0 <= k < |tiles| ==> '\n' !in tiles[k]
    ensures Lines(ManifestText(tiles)) == tiles
  {
    if tiles != [] {
      var rest := ManifestText(tiles[1..]);
      assert ManifestText(tiles) == tiles[0] + "\n" + rest;
      LinesFront(tiles[0], rest);
      forall k | 0 <= k < |tiles| - 1 ensures '\n' !in tiles[1..][k] {
        assert tiles[1..][k] == tiles[k + 1];
      }
      ManifestLines(tiles[1..]);
      assert tiles == [tiles[0]] + tiles[1..];
    }
  }

  // ---------------------------------------------------------------------
  // get_var_ncfiles

  /** The netCDF files that match the variable's pattern, in list order. */
  function VarNcFiles(variable: string, ncList: seq<string>): seq<string>
  {
    if ncList == [] then []
    else (if VarNcMatch(variable, ncList[0]) then [ncList[0]] else []) + VarNcFiles(variable, ncList[1..])
  }

  method GetVarNcFiles(variable: string, ncList: seq<string>) returns (varNcFiles: seq<string>)
    ensures varNcFiles == VarNcFiles(variable, ncList)
  {
    varNcFiles := [];
    for i := 0 to |ncList|
      invariant varNcFiles == VarNcFiles(variable, ncList[..i])
    {
      VarNcFilesSnoc(variable, ncList, i);
      if VarNcMatch(variable, ncList[i]) {
        varNcFiles := varNcFiles + [ncList[i]];
      }
    }
    assert ncList[..|ncList|] == ncList;
  }

  /** One more file is kept at the end when it matches. */
  lemma VarNcFilesSnoc(variable: string, ncList: seq<string>, i: nat)
    requires i < |ncList|
    ensures VarNcFiles(variable, ncList[..i + 1])
         == VarNcFiles(variable, ncList[..i]) + if VarNcMatch(variable, ncList[i]) then [ncList[i]] else []
  {
    assert ncList[..i + 1] == ncList[..i] + [ncList[i]];
    VarNcFilesAppend(variable, ncList[..i], [ncList[i]]);
    assert [ncList[i]][1..] == [];
  }

  /** A file is kept exactly when it is in the list and matches the variable's pattern. */
  lemma {:induction false} VarNcFilesMember(variable: string, ncList: seq<string>, f: string)
    ensures f in VarNcFiles(variable, ncList) <==> f in ncList && VarNcSpec(variable, f)
  {
    VarNcMatchSpec(variable, f);
    if ncList != [] {
      VarNcFilesMember(variable, ncList[1..], f);
      assert ncList == [ncList[0]] + ncList[1..];
    }
  }

  /** List order is kept: filtering a concatenation concatenates the filtered parts. */
  lemma {:induction false} VarNcFilesAppend(variable: string, a: seq<string>, b: seq<string>)
    ensures VarNcFiles(variable, a + b) == VarNcFiles(variable, a) + VarNcFiles(variable, b)
  {
    if a == [] {
      assert a + b == b;
    } else {
      var head := if VarNcMatch(variable, a[0]) then [a[0]] else [];
      assert (a + b)[0] == a[0] && (a + b)[1..] == a[1..] + b;
      VarNcFilesAppend(variable, a[1..], b);
      AppendAssoc(head, VarNcFiles(variable, a[1..]), VarNcFiles(variable, b));
    }
  }

  // ---------------------------------------------------------------------
  // find_matching_tile

  /** The analysis tile paired with a forecast tile, when it is among the analysis tiles. */
  function FindMatchingTile(fcstFile: string, anlyTiles: seq<string>): (r: Option<string>)
    ensures r.Some? <==> ReplaceFcst(fcstFile) in anlyTiles
    ensures r.Some? ==> r.value == ReplaceFcst(fcstFile)
  {
    var anlyFromFcst := ReplaceFcst(fcstFile);
    if anlyFromFcst in anlyTiles then Some(anlyFromFcst) else None
  }

  /** A paired name has the forecast name's length and no FCST left; a name
      with no FCST can only pair with itself. */
  lemma MatchingTileName(fcstFile: string, anlyTiles: seq<string>)
    ensures var r := FindMatchingTile(fcstFile, anlyTiles);
      (r.Some? ==> |r.value| == |fcstFile| && forall i :: !OccursAt("FCST", r.value, i))
      && ((forall i :: !OccursAt("FCST", fcstFile, i)) ==>
            r == if fcstFile in anlyTiles then Some(fcstFile) else None)
  {
    NoFcstLeft(fcstFile);
    ReplaceFcstIdentity(fcstFile);
  }

  /** A tile named `<pre>FCST<post>` with one FCST pairs with `<pre>ANLY<post>`. */
  lemma MatchingTileOneFcst(pre: string, post: string, anlyTiles: seq<string>)
    requires forall i :: !OccursAt("FCST", pre, i)
    requires forall i :: !OccursAt("FCST", post, i)
    ensures FindMatchingTile(pre + "FCST" + post, anlyTiles)
         == if pre + "ANLY" + post in anlyTiles then Some(pre + "ANLY" + post) else None
  {
    ReplaceFcstFront(pre, post);
    ReplaceFcstIdentity(post);
  }

  // ---------------------------------------------------------------------
  // The series_analysis command

  /** `-out <out_dir>/series_F<fhr>_<name>_<level>.nc`. */
  function OutParam(outDir: string, curFhr: string, name: string, level: string): string
  {
    "-out " + OutFile(outDir, curFhr, name, level)
  }

  function OutFile(outDir: string, curFhr: string, name: string, level: string): string
  {
    Concat([outDir, "/series_F", curFhr, "_", name, "_", level, ".nc"])
  }

  /** One series_analysis invocation: the executable and the four parameters the loop assembles. */
  datatype SeriesCall = SeriesCall(exe: string, fcstParam: string, obsParam: string, configParam: string,
                                   outParam: string)

  /** The call the loop assembles: `-fcst <fcst file>`, `-obs <anly file>`, `-config <config file>`, `-out ...`. */
  function SeriesCallFor(exe: string, fcstFile: string, anlyFile: string, configFile: string, outParam: string)
    : SeriesCall
  {
    SeriesCall(exe, "-fcst " + fcstFile, "-obs " + anlyFile, "-config " + configFile, outParam)
  }

  /** series_analysis_cmd: the executable and the parameters joined with a space between. */
  function CommandLine(c: SeriesCall): string
  {
    Concat([c.exe, " ", c.fcstParam, " ", c.obsParam, " ", c.configParam, " ", c.outParam])
  }

  lemma SplitFront(c: char, a: string, rest: string)
    requires c !in a
    ensures Split(c, a + [c] + rest) == [a] + Split(c, rest)
  {
    var s := a + [c] + rest;
    IndexOfSeparator(c, a, rest);
    assert s[..|a|] == a;
    assert s[|a| + 1..] == rest;
  }

  /** A flag and its value, each without a space, split off the front. */
  lemma SplitFlag(flag: string, value: string, rest: string)
    requires ' ' !in flag && ' ' !in value
    ensures Split(' ', (flag + " " + value) + " " + rest) == [flag, value] + Split(' ', rest)
  {
    assert (flag + " " + value) + " " + rest == flag + [' '] + (value + [' '] + rest);
    SplitFront(' ', flag, value + [' '] + rest);
    SplitFront(' ', value, rest);
  }

  /** The command line is the executable, then each parameter, each after one space. */
  lemma CommandLineNested(c: SeriesCall)
    ensures CommandLine(c) == c.exe + " " + (c.fcstParam + " " + (c.obsParam + " " + (c.configParam + " " + c.outParam)))
  {
    var parts := [c.exe, " ", c.fcstParam, " ", c.obsParam, " ", c.configParam, " ", c.outParam];
    assert Concat(parts[8..]) == c.outParam by { assert parts[8..][1..] == []; }
    assert Concat(parts[7..]) == " " + c.outParam by { assert parts[7..][1..] == parts[8..]; }
    assert Concat(parts[6..]) == c.configParam + (" " + c.outParam) by { assert parts[6..][1..] == parts[7..]; }
    assert Concat(parts[5..]) == " " + Concat(parts[6..]) by { assert parts[5..][1..] == parts[6..]; }
    assert Concat(parts[4..]) == c.obsParam + Concat(parts[5..]) by { assert parts[4..][1..] == parts[5..]; }
    assert Concat(parts[3..]) == " " + Concat(parts[4..]) by { assert parts[3..][1..] == parts[4..]; }
    assert Concat(parts[2..]) == c.fcstParam + Concat(parts[3..]) by { assert parts[2..][1..] == parts[3..]; }
    assert Concat(parts[1..]) == " " + Concat(parts[2..]) by { assert parts[1..][1..] == parts[2..]; }
    assert Concat(parts) == c.exe + Concat(parts[1..]);
  }

  /** Split on spaces, the command gives back the executable, each flag and each value,
      when none of the parts holds a space. */
  lemma CommandLineTokens(exe: string, fcstFile: string, anlyFile: string, configFile: string, outFile: string)
    requires ' ' !in exe && ' ' !in fcstFile && ' ' !in anlyFile && ' ' !in configFile && ' ' !in outFile
    ensures Split(' ', CommandLine(SeriesCallFor(exe, fcstFile, anlyFile, configFile, "-out " + outFile)))
         == [exe, "-fcst", fcstFile, "-obs", anlyFile, "-config", configFile, "-out", outFile]
  {
    var c := SeriesCallFor(exe, fcstFile, anlyFile, configFile, "-out " + outFile);
    var r3 := c.configParam + " " + c.outParam;
    var r2 := c.obsParam + " " + r3;
    var r1 := c.fcstParam + " " + r2;
    var t4 := ["-out", outFile];
    var t3 := ["-config", configFile, "-out", outFile];
    var t2 := ["-obs", anlyFile, "-config", configFile, "-out", outFile];
    var t1 := ["-fcst", fcstFile, "-obs", anlyFile, "-config", configFile, "-out", outFile];
    assert t3 == ["-config", configFile] + t4;
    assert t2 == ["-obs", anlyFile] + t3;
    assert t1 == ["-fcst", fcstFile] + t2;
    assert [exe] + t1 == [exe, "-fcst", fcstFile, "-obs", anlyFile, "-config", configFile, "-out", outFile];
    assert Split(' ', c.outParam) == t4 by {
      assert c.outParam == "-out" + [' '] + outFile;
      SplitFront(' ', "-out", outFile);
      SplitWhole(' ', outFile);
    }
    assert Split(' ', r3) == t3 by {
      assert c.configParam == "-config" + " " + configFile;
      SplitFlag("-config", configFile, c.outParam);
    }
    assert Split(' ', r2) == t2 by {
      assert c.obsParam == "-obs" + " " + anlyFile;
      SplitFlag("-obs", anlyFile, r3);
    }
    assert Split(' ', r1) == t1 by {
      assert c.fcstParam == "-fcst" + " " + fcstFile;
      SplitFlag("-fcst", fcstFile, r2);
    }
    assert Split(' ', CommandLine(c)) == [exe] + t1 by {
      CommandLineNested(c);
      assert exe + " " + r1 == exe + [' '] + r1;
      SplitFront(' ', exe, r1);
    }
  }

  lemma SplitWhole(c: char, s: string)
    requires c !in s
    ensures Split(c, s) == [s]
  {
  }

  // ---------------------------------------------------------------------
  // analysis_by_lead_time

  /** The option values the loop reads. */
  datatype LeadConfig = LeadConfig(
    fhrBeg: int,
    fhrEnd: int,
    fhrInc: int,
    outDirBase: string,
    varList: seq<string>,
    seriesAnalysisExe: string,
    configFileLead: string)

  /** FCST_TILE_REGEX and ANLY_TILE_REGEX: match.group() when they match. */
  datatype TileRegexes = TileRegexes(fcst: string -> Option<string>, anly: string -> Option<string>)

  /** What the loop changes: manifest files by path, the environment, and the series_analysis
      calls it assembles (the command line of each is CommandLine). */
  datatype RunState = RunState(manifests: map<string, string>, environ: map<string, string>, commands: seq<SeriesCall>)

  datatype Outcome = Outcome(state: RunState, stop: Option<Stop>)

  /** A file's content, empty when it does not exist yet. */
  function Content(files: map<string, string>, path: string): string
  {
    if path in files then files[path] else ""
  }

  /** open(path, 'a').write(text). */
  function Appended(files: map<string, string>, path: string, text: string): (r: map<string, string>)
    ensures r.Keys == files.Keys + {path}
    ensures Content(r, path) == Content(files, path) + text
    ensures forall q :: q in files && q != path ==> r[q] == files[q]
  {
    files[path := Content(files, path) + text]
  }

  /** The name and level of a variable that splits. */
  function NameLevel(v: string): (string, string)
    requires SplitVar(v).Some?
  {
    SplitVar(v).value
  }

  /** The command the inner loop assembles for one variable that splits. */
  function VarCommand(v: string, cfg: LeadConfig, outDir: string, curFhr: string, fcstFile: string, anlyFile: string)
    : SeriesCall
    requires SplitVar(v).Some?
  {
    SeriesCallFor(cfg.seriesAnalysisExe, fcstFile, anlyFile, cfg.configFileLead,
                  OutParam(outDir, curFhr, NameLevel(v).0, NameLevel(v).1))
  }

  /** One variable that splits: NAME and LEVEL are set and its command is assembled. */
  function VarStep(s: RunState, v: string, cfg: LeadConfig, outDir: string, curFhr: string,
                   fcstFile: string, anlyFile: string): RunState
    requires SplitVar(v).Some?
  {
    s.(environ := s.environ["NAME" := NameLevel(v).0]["LEVEL" := NameLevel(v).1],
       commands := s.commands + [VarCommand(v, cfg, outDir, curFhr, fcstFile, anlyFile)])
  }

  /** The inner loop over VAR_LIST for one forecast hour. */
  function VarsSpec(s: RunState, vars: seq<string>, cfg: LeadConfig, outDir: string, curFhr: string,
                    fcstFile: string, anlyFile: string): Outcome
    decreases |vars|
  {
    if vars == [] then Outcome(s, None)
    else if SplitVar(vars[0]).None? then Outcome(s, Some(NoSlash(vars[0])))
    else VarsSpec(VarStep(s, vars[0], cfg, outDir, curFhr, fcstFile, anlyFile), vars[1..],
                  cfg, outDir, curFhr, fcstFile, anlyFile)
  }

  /** One iteration of the forecast-hour loop. */
  function FhrStep(s: RunState, fhr: int, cfg: LeadConfig, rx: TileRegexes, walk: seq<WalkEntry>): Outcome
  {
    var curFhr := CurFhr(fhr);
    var outDir := OutDir(cfg.outDirBase, curFhr);
    var fcstTiles := TilesOutcome(TileFiles(walk, Fcst, rx.fcst, curFhr), rx.fcst);
    if fcstTiles.Err? then Outcome(s, Some(fcstTiles.error))
    else
      var anlyTiles := TilesOutcome(TileFiles(walk, Anly, rx.anly, curFhr), rx.anly);
      if anlyTiles.Err? then Outcome(s, Some(anlyTiles.error))
      else
        var fcstFile := FcstManifest(outDir, curFhr);
        var anlyFile := AnlyManifest(outDir, curFhr);
        var files := Appended(Appended(s.manifests, fcstFile, fcstTiles.value), anlyFile, anlyTiles.value);
        VarsSpec(s.(manifests := files), cfg.varList, cfg, outDir, curFhr, fcstFile, anlyFile)
  }

  /** The body of the forecast-hour loop, as a step from a state and an hour. */
  function HourStep(cfg: LeadConfig, rx: TileRegexes, walk: seq<WalkEntry>): (RunState, int) -> Outcome
  {
    (t: RunState, fhr: int) => FhrStep(t, fhr, cfg, rx, walk)
  }

  /** The forecast-hour loop over the given hours, ending at the first Stop. */
  function LeadLoop(s: RunState, fhrs: seq<int>, step: (RunState, int) -> Outcome): Outcome
    decreases |fhrs|
  {
    if fhrs == [] then Outcome(s, None)
    else
      var o := step(s, fhrs[0]);
      if o.stop.Some? then o else LeadLoop(o.state, fhrs[1..], step)
  }

  /** The series-analysis part of analysis_by_lead_time. */
  function LeadSpec(s: RunState, cfg: LeadConfig, rx: TileRegexes, walk: seq<WalkEntry>): Outcome
  {
    match FhrRange(cfg.fhrBeg, cfg.fhrEnd, cfg.fhrInc)
    case Err(e) => Outcome(s, Some(e))
    case Ok(fhrs) => LeadLoop(s, fhrs, HourStep(cfg, rx, walk))
  }

  /** The inner loop from position i: it stops there, or takes that variable's step. */
  lemma VarsSpecAt(s: RunState, vars: seq<string>, i: nat, cfg: LeadConfig, outDir: string,
                   curFhr: string, fcstFile: string, anlyFile: string)
    requires i < |vars|
    ensures VarsSpec(s, vars[i..], cfg, outDir, curFhr, fcstFile, anlyFile)
         == if SplitVar(vars[i]).None? then Outcome(s, Some(NoSlash(vars[i])))
            else VarsSpec(VarStep(s, vars[i], cfg, outDir, curFhr, fcstFile, anlyFile), vars[i + 1..],
                          cfg, outDir, curFhr, fcstFile, anlyFile)
  {
    assert vars[i..][0] == vars[i] && vars[i..][1..] == vars[i + 1..];
  }

  /** The inner loop never touches the manifests. */
  lemma {:induction false} VarsSpecManifests(s: RunState, vars: seq<string>, cfg: LeadConfig, outDir: string,
                                             curFhr: string, fcstFile: string, anlyFile: string)
    ensures VarsSpec(s, vars, cfg, outDir, curFhr, fcstFile, anlyFile).state.manifests == s.manifests
    decreases |vars|
  {
    if vars != [] && SplitVar(vars[0]).Some? {
      VarsSpecManifests(VarStep(s, vars[0], cfg, outDir, curFhr, fcstFile, anlyFile), vars[1..],
                        cfg, outDir, curFhr, fcstFile, anlyFile);
    }
  }

  /** The inner loop stops exactly when a variable has no '/', and then at the first such one. */
  lemma {:induction false} VarsSpecStop(s: RunState, vars: seq<string>, cfg: LeadConfig, outDir: string,
                                        curFhr: string, fcstFile: string, anlyFile: string)
    ensures VarsSpec(s, vars, cfg, outDir, curFhr, fcstFile, anlyFile).stop == FirstNoSlash(vars)
    decreases |vars|
  {
    if vars != [] && SplitVar(vars[0]).Some? {
      var s1 := VarStep(s, vars[0], cfg, outDir, curFhr, fcstFile, anlyFile);
      VarsSpecUnfold(s, vars, cfg, outDir, curFhr, fcstFile, anlyFile);
      VarsSpecStop(s1, vars[1..], cfg, outDir, curFhr, fcstFile, anlyFile);
      FirstNoSlashCons(vars);
    }
  }

  /** The Stop the inner loop reports: the first variable without '/', if any. */
  function FirstNoSlash(vars: seq<string>): Option<Stop>
  {
    var bad := FirstUnmatched(vars, SplitVar);
    if bad.Some? then Some(NoSlash(vars[bad.value])) else None
  }

  lemma FirstNoSlashCons(vars: seq<string>)
    requires vars != [] && SplitVar(vars[0]).Some?
    ensures FirstNoSlash(vars) == FirstNoSlash(vars[1..])
  {
    var rest := FirstUnmatched(vars[1..], SplitVar);
    if rest.Some? {
      assert vars[1..][rest.value] == vars[rest.value + 1];
    }
  }

  /** The inner loop keeps the earlier commands in front and adds at most one per variable. */
  lemma {:induction false} VarsSpecPrefix(s: RunState, vars: seq<string>, cfg: LeadConfig, outDir: string,
                                          curFhr: string, fcstFile: string, anlyFile: string)
    ensures var o := VarsSpec(s, vars, cfg, outDir, curFhr, fcstFile, anlyFile);
      |s.commands| <= |o.state.commands| <= |s.commands| + |vars|
      && o.state.commands[..|s.commands|] == s.commands
    decreases |vars|
  {
    if vars != [] && SplitVar(vars[0]).Some? {
      var s1 := VarStep(s, vars[0], cfg, outDir, curFhr, fcstFile, anlyFile);
      VarsSpecPrefix(s1, vars[1..], cfg, outDir, curFhr, fcstFile, anlyFile);
      var o := VarsSpec(s1, vars[1..], cfg, outDir, curFhr, fcstFile, anlyFile);
      assert o.state.commands[..|s.commands|] == o.state.commands[..|s1.commands|][..|s.commands|];
    } else {
      assert s.commands[..|s.commands|] == s.commands;
    }
  }

  /** The commands of the variables that split, in order. */
  function VarCommands(vars: seq<string>, cfg: LeadConfig, outDir: string, curFhr: string,
                       fcstFile: string, anlyFile: string): seq<SeriesCall>
  {
    if vars == [] then []
    else
      (if SplitVar(vars[0]).Some? then [VarCommand(vars[0], cfg, outDir, curFhr, fcstFile, anlyFile)] else [])
      + VarCommands(vars[1..], cfg, outDir, curFhr, fcstFile, anlyFile)
  }

  lemma VarCommandsCons(vars: seq<string>, cfg: LeadConfig, outDir: string, curFhr: string,
                        fcstFile: string, anlyFile: string)
    requires vars != [] && SplitVar(vars[0]).Some?
    ensures VarCommands(vars, cfg, outDir, curFhr, fcstFile, anlyFile)
         == [VarCommand(vars[0], cfg, outDir, curFhr, fcstFile, anlyFile)]
            + VarCommands(vars[1..], cfg, outDir, curFhr, fcstFile, anlyFile)
  {
  }

  /** When every variable splits there is one command per variable. */
  lemma {:induction false} VarCommandsLength(vars: seq<string>, cfg: LeadConfig, outDir: string, curFhr: string,
                                             fcstFile: string, anlyFile: string)
    requires FirstUnmatched(vars, SplitVar).None?
    ensures |VarCommands(vars, cfg, outDir, curFhr, fcstFile, anlyFile)| == |vars|
  {
    if vars != [] {
      FirstUnmatchedTail(vars, SplitVar);
      VarCommandsCons(vars, cfg, outDir, curFhr, fcstFile, anlyFile);
      VarCommandsLength(vars[1..], cfg, outDir, curFhr, fcstFile, anlyFile);
    }
  }

  /** When every variable splits, the k-th command is the k-th variable's. */
  lemma {:induction false} VarCommandAt(vars: seq<string>, k: nat, cfg: LeadConfig, outDir: string, curFhr: string,
                                        fcstFile: string, anlyFile: string)
    requires k < |vars| && FirstUnmatched(vars, SplitVar).None? && SplitVar(vars[k]).Some?
    ensures k < |VarCommands(vars, cfg, outDir, curFhr, fcstFile, anlyFile)|
    ensures VarCommands(vars, cfg, outDir, curFhr, fcstFile, anlyFile)[k]
         == VarCommand(vars[k], cfg, outDir, curFhr, fcstFile, anlyFile)
  {
    FirstUnmatchedTail(vars, SplitVar);
    VarCommandsCons(vars, cfg, outDir, curFhr, fcstFile, anlyFile);
    if k > 0 {
      assert vars[1..][k - 1] == vars[k];
      VarCommandAt(vars[1..], k - 1, cfg, outDir, curFhr, fcstFile, anlyFile);
    }
  }

  /** When every variable splits there is one command per variable, the k-th for the k-th. */
  lemma VarCommandsEach(vars: seq<string>, cfg: LeadConfig, outDir: string, curFhr: string,
                        fcstFile: string, anlyFile: string)
    requires forall k :: 0 <= k < |vars| ==> SplitVar(vars[k]).Some?
    ensures var cs := VarCommands(vars, cfg, outDir, curFhr, fcstFile, anlyFile);
      |cs| == |vars|
      && forall k :: 0 <= k < |vars| ==> cs[k] == VarCommand(vars[k], cfg, outDir, curFhr, fcstFile, anlyFile)
  {
    FirstUnmatchedNone(vars, SplitVar);
    VarCommandsLength(vars, cfg, outDir, curFhr, fcstFile, anlyFile);
    forall k | 0 <= k < |vars|
      ensures VarCommands(vars, cfg, outDir, curFhr, fcstFile, anlyFile)[k]
           == VarCommand(vars[k], cfg, outDir, curFhr, fcstFile, anlyFile)
    {
      VarCommandAt(vars, k, cfg, outDir, curFhr, fcstFile, anlyFile);
    }
  }

  /** Without a Stop the inner loop appends the commands of all the variables. */
  lemma {:induction false} VarsSpecCommands(s: RunState, vars: seq<string>, cfg: LeadConfig, outDir: string,
                                            curFhr: string, fcstFile: string, anlyFile: string)
    ensures var o := VarsSpec(s, vars, cfg, outDir, curFhr, fcstFile, anlyFile);
      o.stop.None? ==> o.state.commands == s.commands + VarCommands(vars, cfg, outDir, curFhr, fcstFile, anlyFile)
    decreases |vars|
  {
    if vars == [] {
      assert s.commands + [] == s.commands;
    } else if SplitVar(vars[0]).Some? {
      var s1 := VarStep(s, vars[0], cfg, outDir, curFhr, fcstFile, anlyFile);
      VarsSpecCommands(s1, vars[1..], cfg, outDir, curFhr, fcstFile, anlyFile);
      VarsSpecUnfold(s, vars, cfg, outDir, curFhr, fcstFile, anlyFile);
      AppendAssoc(s.commands, [VarCommand(vars[0], cfg, outDir, curFhr, fcstFile, anlyFile)],
                  VarCommands(vars[1..], cfg, outDir, curFhr, fcstFile, anlyFile));
    }
  }

  lemma VarsSpecUnfold(s: RunState, vars: seq<string>, cfg: LeadConfig, outDir: string,
                       curFhr: string, fcstFile: string, anlyFile: string)
    requires vars != [] && SplitVar(vars[0]).Some?
    ensures var s1 := VarStep(s, vars[0], cfg, outDir, curFhr, fcstFile, anlyFile);
      var cmd := VarCommand(vars[0], cfg, outDir, curFhr, fcstFile, anlyFile);
      VarsSpec(s, vars, cfg, outDir, curFhr, fcstFile, anlyFile) == VarsSpec(s1, vars[1..], cfg, outDir, curFhr, fcstFile, anlyFile)
      && s1.commands == s.commands + [cmd]
      && VarCommands(vars, cfg, outDir, curFhr, fcstFile, anlyFile) == [cmd] + VarCommands(vars[1..], cfg, outDir, curFhr, fcstFile, anlyFile)
  {
  }

  /** Without a Stop, NAME and LEVEL are left at the last variable's name and level. */
  lemma {:induction false} VarsSpecEnviron(s: RunState, vars: seq<string>, cfg: LeadConfig, outDir: string,
                                           curFhr: string, fcstFile: string, anlyFile: string)
    ensures var o := VarsSpec(s, vars, cfg, outDir, curFhr, fcstFile, anlyFile);
      o.stop.None? && vars != [] ==>
        SplitVar(vars[|vars| - 1]).Some? && "NAME" in o.state.environ && "LEVEL" in o.state.environ
        && o.state.environ["NAME"] == NameLevel(vars[|vars| - 1]).0
        && o.state.environ["LEVEL"] == NameLevel(vars[|vars| - 1]).1
    decreases |vars|
  {
    if vars != [] && SplitVar(vars[0]).Some? {
      var s1 := VarStep(s, vars[0], cfg, outDir, curFhr, fcstFile, anlyFile);
      VarsSpecEnviron(s1, vars[1..], cfg, outDir, curFhr, fcstFile, anlyFile);
      if |vars| > 1 {
        assert vars[1..][|vars[1..]| - 1] == vars[|vars| - 1];
      }
    }
  }

  /** One forecast hour: both tile lists are checked before anything is written; on success
      each manifest gets its tiles appended and nothing else in the files changes. */
  lemma FhrStepManifests(s: RunState, fhr: int, cfg: LeadConfig, rx: TileRegexes, walk: seq<WalkEntry>)
    ensures var curFhr := CurFhr(fhr);
      var outDir := OutDir(cfg.outDirBase, curFhr);
      var fcstList := TileFiles(walk, Fcst, rx.fcst, curFhr);
      var anlyList := TileFiles(walk, Anly, rx.anly, curFhr);
      var o := FhrStep(s, fhr, cfg, rx, walk);
      (TilesOutcome(fcstList, rx.fcst).Err? || TilesOutcome(anlyList, rx.anly).Err? ==> o.state == s && o.stop.Some?)
      && (TilesOutcome(fcstList, rx.fcst).Ok? && TilesOutcome(anlyList, rx.anly).Ok? ==>
            Content(o.state.manifests, FcstManifest(outDir, curFhr))
              == Content(s.manifests, FcstManifest(outDir, curFhr)) + ManifestText(fcstList)
            && Content(o.state.manifests, AnlyManifest(outDir, curFhr))
              == Content(s.manifests, AnlyManifest(outDir, curFhr)) + ManifestText(anlyList)
            && forall q :: q in s.manifests && q != FcstManifest(outDir, curFhr) && q != AnlyManifest(outDir, curFhr)
                 ==> q in o.state.manifests && o.state.manifests[q] == s.manifests[q])
  {
    var curFhr := CurFhr(fhr);
    var outDir := OutDir(cfg.outDirBase, curFhr);
    ManifestsDistinct(outDir, curFhr);
    var fcstTiles := TilesOutcome(TileFiles(walk, Fcst, rx.fcst, curFhr), rx.fcst);
    var anlyTiles := TilesOutcome(TileFiles(walk, Anly, rx.anly, curFhr), rx.anly);
    if fcstTiles.Ok? && anlyTiles.Ok? {
      var files := Appended(Appended(s.manifests, FcstManifest(outDir, curFhr), fcstTiles.value),
                            AnlyManifest(outDir, curFhr), anlyTiles.value);
      VarsSpecManifests(s.(manifests := files), cfg.varList, cfg, outDir, curFhr,
                        FcstManifest(outDir, curFhr), AnlyManifest(outDir, curFhr));
    }
  }

  /** The prefix order on manifests: every file keeps its content as a prefix. */
  predicate AppendOnly(before: map<string, string>, after: map<string, string>)
  {
    forall q :: q in before ==> q in after && StartsWith(after[q], before[q])
  }

  lemma AppendOnlyTrans(a: map<string, string>, b: map<string, string>, c: map<string, string>)
    requires AppendOnly(a, b) && AppendOnly(b, c)
    ensures AppendOnly(a, c)
  {
    forall q | q in a ensures q in c && StartsWith(c[q], a[q]) {
      assert c[q][..|b[q]|] == b[q];
      assert c[q][..|a[q]|] == b[q][..|a[q]|];
    }
  }

  lemma AppendedOnly(files: map<string, string>, path: string, text: string)
    ensures AppendOnly(files, Appended(files, path, text))
  {
    var r := Appended(files, path, text);
    forall q | q in files ensures q in r && StartsWith(r[q], files[q]) {
      if q == path {
        assert r[q][..|files[q]|] == files[q];
      }
    }
  }

  /** The commands of a keep those of b in front. */
  predicate CommandsKept(b: RunState, a: RunState)
  {
    |b.commands| <= |a.commands| && a.commands[..|b.commands|] == b.commands
  }

  /** Every step only appends to the manifests and the commands. */
  ghost predicate StepAppendsOnly(step: (RunState, int) -> Outcome)
  {
    forall t: RunState, fhr: int {:trigger step(t, fhr)} ::
      AppendOnly(t.manifests, step(t, fhr).state.manifests) && CommandsKept(t, step(t, fhr).state)
  }

  /** Every step that does not stop adds m commands. */
  ghost predicate StepAddsCommands(step: (RunState, int) -> Outcome, m: nat)
  {
    forall t: RunState, fhr: int {:trigger step(t, fhr)} ::
      step(t, fhr).stop.None? ==> |step(t, fhr).state.commands| == |t.commands| + m
  }

  lemma AppendsOnlyAt(step: (RunState, int) -> Outcome, t: RunState, fhr: int)
    requires StepAppendsOnly(step)
    ensures AppendOnly(t.manifests, step(t, fhr).state.manifests) && CommandsKept(t, step(t, fhr).state)
  {
  }

  lemma AddsCommandsAt(step: (RunState, int) -> Outcome, m: nat, t: RunState, fhr: int)
    requires StepAddsCommands(step, m)
    ensures step(t, fhr).stop.None? ==> |step(t, fhr).state.commands| == |t.commands| + m
  {
  }

  /** A loop of steps that only append only appends. */
  lemma {:induction false} LeadLoopAppendOnly(s: RunState, fhrs: seq<int>, step: (RunState, int) -> Outcome)
    requires StepAppendsOnly(step)
    ensures var o := LeadLoop(s, fhrs, step);
      AppendOnly(s.manifests, o.state.manifests) && CommandsKept(s, o.state)
    decreases |fhrs|
  {
    if fhrs != [] {
      var o1 := step(s, fhrs[0]);
      AppendsOnlyAt(step, s, fhrs[0]);
      if o1.stop.None? {
        LeadLoopAppendOnly(o1.state, fhrs[1..], step);
        var o := LeadLoop(o1.state, fhrs[1..], step);
        AppendOnlyTrans(s.manifests, o1.state.manifests, o.state.manifests);
        assert o.state.commands[..|s.commands|] == o.state.commands[..|o1.state.commands|][..|s.commands|];
      }
    } else {
      AppendOnlyRefl(s.manifests);
      assert s.commands[..|s.commands|] == s.commands;
    }
  }

  /** Without a Stop, a loop of steps adding m commands each adds m per hour. */
  lemma {:induction false} LeadLoopCommandCount(s: RunState, fhrs: seq<int>, step: (RunState, int) -> Outcome, m: nat)
    requires StepAddsCommands(step, m)
    ensures var o := LeadLoop(s, fhrs, step);
      o.stop.None? ==> |o.state.commands| == |s.commands| + |fhrs| * m
    decreases |fhrs|
  {
    if fhrs != [] {
      var o1 := step(s, fhrs[0]);
      AddsCommandsAt(step, m, s, fhrs[0]);
      if o1.stop.None? {
        LeadLoopCommandCount(o1.state, fhrs[1..], step, m);
        var o := LeadLoop(o1.state, fhrs[1..], step);
        if o.stop.None? {
          CountStep(|s.commands|, |o1.state.commands|, |o.state.commands|, |fhrs|, m);
        }
      }
    }
  }

  lemma CountStep(a: int, b: int, c: int, n: int, m: int)
    requires b == a + m && c == b + (n - 1) * m
    ensures c == a + n * m
  {
  }

  /** The forecast-hour step only appends, and without a Stop adds one command per variable. */
  lemma HourStepProperties(cfg: LeadConfig, rx: TileRegexes, walk: seq<WalkEntry>)
    ensures StepAppendsOnly(HourStep(cfg, rx, walk))
    ensures StepAddsCommands(HourStep(cfg, rx, walk), |cfg.varList|)
  {
    forall t: RunState, fhr: int
      ensures AppendOnly(t.manifests, HourStep(cfg, rx, walk)(t, fhr).state.manifests)
      ensures CommandsKept(t, HourStep(cfg, rx, walk)(t, fhr).state)
      ensures HourStep(cfg, rx, walk)(t, fhr).stop.None? ==>
                |HourStep(cfg, rx, walk)(t, fhr).state.commands| == |t.commands| + |cfg.varList|
    {
      FhrStepAppendOnly(t, fhr, cfg, rx, walk);
    }
  }

  /** The whole of the series-analysis part only appends to the manifests and the commands;
      when it runs to the end, with a positive step, it has assembled one command per
      variable for every forecast hour from fhr_beg to fhr_end. */
  lemma LeadSpecAppendOnly(s: RunState, cfg: LeadConfig, rx: TileRegexes, walk: seq<WalkEntry>)
    ensures var o := LeadSpec(s, cfg, rx, walk);
      AppendOnly(s.manifests, o.state.manifests) && CommandsKept(s, o.state)
      && (o.stop.None? && cfg.fhrInc > 0 ==>
            |o.state.commands| == |s.commands| + |FhrRange(cfg.fhrBeg, cfg.fhrEnd, cfg.fhrInc).value| * |cfg.varList|)
  {
    HourStepProperties(cfg, rx, walk);
    var r := FhrRange(cfg.fhrBeg, cfg.fhrEnd, cfg.fhrInc);
    if r.Ok? {
      LeadLoopAppendOnly(s, r.value, HourStep(cfg, rx, walk));
      LeadLoopCommandCount(s, r.value, HourStep(cfg, rx, walk), |cfg.varList|);
    } else {
      AppendOnlyRefl(s.manifests);
      assert s.commands[..|s.commands|] == s.commands;
    }
  }

  lemma AppendOnlyRefl(files: map<string, string>)
    ensures AppendOnly(files, files)
  {
    forall q | q in files ensures StartsWith(files[q], files[q]) {
      assert files[q][..|files[q]|] == files[q];
    }
  }

  /** One forecast hour only appends, and without a Stop adds one command per variable. */
  lemma FhrStepAppendOnly(s: RunState, fhr: int, cfg: LeadConfig, rx: TileRegexes, walk: seq<WalkEntry>)
    ensures var o := FhrStep(s, fhr, cfg, rx, walk);
      AppendOnly(s.manifests, o.state.manifests) && CommandsKept(s, o.state)
      && (o.stop.None? ==> |o.state.commands| == |s.commands| + |cfg.varList|)
  {
    var curFhr := CurFhr(fhr);
    var outDir := OutDir(cfg.outDirBase, curFhr);
    var fcstFile, anlyFile := FcstManifest(outDir, curFhr), AnlyManifest(outDir, curFhr);
    var fcstTiles := TilesOutcome(TileFiles(walk, Fcst, rx.fcst, curFhr), rx.fcst);
    var anlyTiles := TilesOutcome(TileFiles(walk, Anly, rx.anly, curFhr), rx.anly);
    if fcstTiles.Ok? && anlyTiles.Ok? {
      var f1 := Appended(s.manifests, fcstFile, fcstTiles.value);
      var files := Appended(f1, anlyFile, anlyTiles.value);
      AppendedOnly(s.manifests, fcstFile, fcstTiles.value);
      AppendedOnly(f1, anlyFile, anlyTiles.value);
      AppendOnlyTrans(s.manifests, f1, files);
      var s1 := s.(manifests := files);
      var vars := cfg.varList;
      VarsSpecManifests(s1, vars, cfg, outDir, curFhr, fcstFile, anlyFile);
      VarsSpecPrefix(s1, vars, cfg, outDir, curFhr, fcstFile, anlyFile);
      VarsSpecStop(s1, vars, cfg, outDir, curFhr, fcstFile, anlyFile);
      VarsSpecCommands(s1, vars, cfg, outDir, curFhr, fcstFile, anlyFile);
      if FirstUnmatched(vars, SplitVar).None? {
        VarCommandsLength(vars, cfg, outDir, curFhr, fcstFile, anlyFile);
      }
    } else {
      AppendOnlyRefl(s.manifests);
      assert s.commands[..|s.commands|] == s.commands;
    }
  }

  class SeriesRun {
    var manifests: map<string, string>
    var environ: map<string, string>
    var commands: seq<SeriesCall>

    /** files is the file system after cleanup_lead_ascii has removed earlier runs' manifests. */
    constructor (files: map<string, string>, env: map<string, string>)
      ensures manifests == files && environ == env && commands == []
    {
      manifests, environ, commands := files, env, [];
    }

    function State(): RunState
      reads this
    {
      RunState(manifests, environ, commands)
    }

    /** Opens the manifest in append mode and writes the tiles text. */
    method AppendManifest(path: string, text: string)
      modifies this`manifests
      ensures manifests == Appended(old(manifests), path, text)
    {
      var current := if path in manifests then manifests[path] else "";
      manifests := manifests[path := current + text];
    }

    /** One forecast hour of analysis_by_lead_time. */
    method ProcessFhr(fhr: int, cfg: LeadConfig, rx: TileRegexes, walk: seq<WalkEntry>) returns (stop: Option<Stop>)
      modifies this
      ensures Outcome(State(), stop) == FhrStep(old(State()), fhr, cfg, rx, walk)
    {
      var curFhr := CurFhr(fhr);
      var outDir := OutDir(cfg.outDirBase, curFhr);
      var fcstTilesList := GetFiles(walk, Fcst, rx.fcst, curFhr);
      var fcstTiles := RetrieveFhrTiles(fcstTilesList, rx.fcst);
      if fcstTiles.Err? {
        return Some(fcstTiles.error);
      }
      var asciiFcstFile := FcstManifest(outDir, curFhr);
      var anlyTilesList := GetFiles(walk, Anly, rx.anly, curFhr);
      var anlyTiles := RetrieveFhrTiles(anlyTilesList, rx.anly);
      if anlyTiles.Err? {
        return Some(anlyTiles.error);
      }
      var asciiAnlyFile := AnlyManifest(outDir, curFhr);
      AppendManifest(asciiFcstFile, fcstTiles.value);
      AppendManifest(asciiAnlyFile, anlyTiles.value);
      stop := ProcessVars(cfg.varList, cfg, outDir, curFhr, asciiFcstFile, asciiAnlyFile);
    }

    /** The loop over VAR_LIST for one forecast hour. */
    method ProcessVars(vars: seq<string>, cfg: LeadConfig, outDir: string, curFhr: string,
                       fcstFile: string, anlyFile: string) returns (stop: Option<Stop>)
      modifies this
      ensures Outcome(State(), stop) == VarsSpec(old(State()), vars, cfg, outDir, curFhr, fcstFile, anlyFile)
    {
      for i := 0 to |vars|
        invariant VarsSpec(old(State()), vars, cfg, outDir, curFhr, fcstFile, anlyFile)
               == VarsSpec(State(), vars[i..], cfg, outDir, curFhr, fcstFile, anlyFile)
      {
        VarsSpecAt(State(), vars, i, cfg, outDir, curFhr, fcstFile, anlyFile);
        var m := SplitVar(vars[i]);
        if m.None? {
          return Some(NoSlash(vars[i]));
        }
        var name, level := m.value.0, m.value.1;
        environ := environ["NAME" := name];
        environ := environ["LEVEL" := level];
        var outParam := OutParam(outDir, curFhr, name, level);
        var cmd := SeriesCallFor(cfg.seriesAnalysisExe, fcstFile, anlyFile, cfg.configFileLead, outParam);
        commands := commands + [cmd];
      }
      assert vars[|vars|..] == [];
      stop := None;
    }

    /** analysis_by_lead_time up to the end of the forecast-hour loop. */
    method AnalysisByLeadTime(cfg: LeadConfig, rx: TileRegexes, walk: seq<WalkEntry>) returns (stop: Option<Stop>)
      modifies this
      ensures Outcome(State(), stop) == LeadSpec(old(State()), cfg, rx, walk)
    {
      var range := FhrRange(cfg.fhrBeg, cfg.fhrEnd, cfg.fhrInc);
      if range.Err? {
        return Some(range.error);
      }
      var fhrs := range.value;
      for i := 0 to |fhrs|
        invariant LeadLoop(old(State()), fhrs, HourStep(cfg, rx, walk))
               == LeadLoop(State(), fhrs[i..], HourStep(cfg, rx, walk))
      {
        assert fhrs[i..][1..] == fhrs[i + 1..];
        stop := ProcessFhr(fhrs[i], cfg, rx, walk);
        if stop.Some? {
          return;
        }
      }
      assert fhrs[|fhrs|..] == [];
      stop := None;
    }
  }
}
