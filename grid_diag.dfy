/**
 * The grid_diag wrapper: per-runtime selection of input files from the
 * ALL_FILES catalog, the list-file name, the DATA_FIELD, REGRID_DICT and
 * VERIF_MASK strings, the command line, and the skip chain that decides
 * whether a runtime is built.
 *
 * The parent RuntimeFreqWrapper and the utilities whose bodies are not part
 * of this model arrive as the function-valued fields of a Parent value.
 */
module GridDiag {
  import opened Common
  import opened Text
  import opened Times

  /** One entry of ALL_FILES: a runtime's time information and the files found for it. */
  datatype FileDict = FileDict(timeInfo: TimeInfo, input: seq<string>)

  /** The keys of one parse_var_list entry that set_data_field reads. */
  datatype FieldSpec = FieldSpec(fcstName: string, fcstLevel: string, fcstExtra: string)

  /** The c_dict entries this wrapper reads or writes; None is a key that is not set. */
  datatype CDict = CDict(
    verbosity: string,
    configFile: string,
    inputTemplates: seq<string>,
    inputTemplate: Option<string>,
    customLoopList: seq<string>,
    allFiles: seq<FileDict>,
    dataFileType: Option<string>,
    regridMethod: Option<string>,
    regridWidth: Option<string>,
    regridVldThresh: Option<string>,
    regridShape: Option<string>,
    regridToGrid: Option<string>,
    desc: Option<string>,
    verificationMaskTemplate: string,
    verificationMask: Option<string>,
    dataField: Option<string>)

  /** Collaborators of the parent class and of the utilities, by signature only. */
  datatype Parent = Parent(
    compareTimeInfo: (TimeInfo, TimeInfo) -> bool,
    findData: (TimeInfo, string) -> Option<seq<string>>,
    writeListFile: (string, seq<string>) -> string,
    findAndCheckOutputFile: TimeInfo -> (bool, string),
    parseVarList: TimeInfo -> seq<FieldSpec>,
    getFieldInfo: (string, string, string) -> Option<seq<string>>,
    getVerificationMask: (TimeInfo, string) -> string,
    doStringSub: (string, TimeInfo) -> string,
    secondsFromLead: (Lead, Axis<Timestamp>) -> Option<int>)

  /** `c_dict.get(key, '')`. */
  function Get(o: Option<string>): (r: string)
    ensures o.None? ==> r == ""
    ensures o.Some? ==> r == o.value
  {
    if o.Some? then o.value else ""
  }

  // ---------------------------------------------------------------------
  // create_c_dict: configuration values wrapped as MET config items

  /** MISSING_DATA_VALUE of the utilities. */
  const MissingDataValue: int := -9999

  /** The configuration values create_c_dict reads, as the config getters return them.
      A float is carried by its Python repr text. */
  datatype RawConfig = RawConfig(
    verbosity: Option<string>,
    configFile: string,
    inputTemplates: seq<string>,
    inputDataType: string,
    regridMethod: string,
    regridWidth: Option<int>,
    regridVldThresh: Option<string>,
    regridShape: string,
    regridToGrid: string,
    description: string,
    verificationMaskTemplate: string)

  /** What create_c_dict leaves behind: the c_dict, whether isOK survived,
      and whether the missing-config-file error was logged. */
  datatype Setup = Setup(cDict: CDict, isOK: bool, configFileError: bool)

  /** `c_dict[key] = item` when the value was given; otherwise the entry stays as it was. */
  function SetIf(given: bool, item: string, prior: Option<string>): (r: Option<string>)
    ensures given ==> r == Some(item)
    ensures !given ==> r == prior
  {
    if given then Some(item) else prior
  }

  predicate WidthUnset(w: Option<int>) { w.None? || w.value == MissingDataValue }

  /** repr of a float equal to MISSING_DATA_VALUE. */
  predicate VldThreshUnset(v: Option<string>) { v.None? || v.value == "-9999.0" }

  /** str() of the configured width; only read when it is set. */
  function WidthText(w: Option<int>): string
  {
    if w.Some? then IntToStr(w.value) else ""
  }

  /** create_c_dict over the parent's c_dict (base). Each item is assigned only when its
      value is given; an item whose value is empty or unset keeps the parent's entry. */
  function CreateCDict(base: CDict, raw: RawConfig, formatRegridToGrid: string -> string,
                       removeQuotes: string -> string): (s: Setup)
    ensures s.configFileError <==> raw.configFile == ""
    ensures s.isOK <==> raw.regridWidth.Some? && raw.regridVldThresh.Some?
    ensures s.cDict.verbosity == if raw.verbosity.Some? then raw.verbosity.value else base.verbosity
    ensures raw.inputDataType == "" ==> s.cDict.dataFileType == base.dataFileType
    ensures raw.inputDataType != "" ==> s.cDict.dataFileType == Some("file_type = " + raw.inputDataType + ";")
    ensures raw.regridMethod == "" ==> s.cDict.regridMethod == base.regridMethod
    ensures raw.regridMethod != "" ==> s.cDict.regridMethod == Some("method = " + raw.regridMethod + ";")
    ensures WidthUnset(raw.regridWidth) ==> s.cDict.regridWidth == base.regridWidth
    ensures !WidthUnset(raw.regridWidth) ==>
              s.cDict.regridWidth == Some("width = " + IntToStr(raw.regridWidth.value) + ";")
    ensures VldThreshUnset(raw.regridVldThresh) ==> s.cDict.regridVldThresh == base.regridVldThresh
    ensures !VldThreshUnset(raw.regridVldThresh) ==>
              s.cDict.regridVldThresh == Some("vld_thresh = " + raw.regridVldThresh.value + ";")
    ensures raw.regridShape == "" ==> s.cDict.regridShape == base.regridShape
    ensures raw.regridShape != "" ==> s.cDict.regridShape == Some("shape = " + raw.regridShape + ";")
    ensures raw.regridToGrid == "" ==> s.cDict.regridToGrid == base.regridToGrid
    ensures raw.regridToGrid != "" ==>
              s.cDict.regridToGrid == Some("to_grid = " + formatRegridToGrid(raw.regridToGrid) + ";")
    ensures raw.description == "" ==> s.cDict.desc == base.desc
    ensures raw.description != "" ==>
              s.cDict.desc == Some("desc = \"" + removeQuotes(raw.description) + "\";")
    ensures s.cDict.configFile == raw.configFile && s.cDict.inputTemplates == raw.inputTemplates
    ensures s.cDict.verificationMaskTemplate == raw.verificationMaskTemplate
    ensures s.cDict.inputTemplate == base.inputTemplate && s.cDict.customLoopList == base.customLoopList
            && s.cDict.allFiles == base.allFiles && s.cDict.verificationMask == base.verificationMask
            && s.cDict.dataField == base.dataField
  {
    var c := CDict(
      verbosity := if raw.verbosity.Some? then raw.verbosity.value else base.verbosity,
      configFile := raw.configFile,
      inputTemplates := raw.inputTemplates,
      inputTemplate := base.inputTemplate,
      customLoopList := base.customLoopList,
      allFiles := base.allFiles,
      dataFileType := SetIf(raw.inputDataType != "", "file_type = " + raw.inputDataType + ";", base.dataFileType),
      regridMethod := SetIf(raw.regridMethod != "", "method = " + raw.regridMethod + ";", base.regridMethod),
      regridWidth := SetIf(!WidthUnset(raw.regridWidth), "width = " + WidthText(raw.regridWidth) + ";",
                           base.regridWidth),
      regridVldThresh := SetIf(!VldThreshUnset(raw.regridVldThresh), "vld_thresh = " + Get(raw.regridVldThresh) + ";",
                               base.regridVldThresh),
      regridShape := SetIf(raw.regridShape != "", "shape = " + raw.regridShape + ";", base.regridShape),
      regridToGrid := SetIf(raw.regridToGrid != "", "to_grid = " + formatRegridToGrid(raw.regridToGrid) + ";",
                            base.regridToGrid),
      desc := SetIf(raw.description != "", "desc = \"" + removeQuotes(raw.description) + "\";", base.desc),
      verificationMaskTemplate := raw.verificationMaskTemplate,
      verificationMask := base.verificationMask,
      dataField := base.dataField);
    Setup(c, raw.regridWidth.Some? && raw.regridVldThresh.Some?, raw.configFile == "")
  }

  // ---------------------------------------------------------------------
  // set_environment_variables: the REGRID_DICT and VERIF_MASK strings

  /** The regrid items in the order the dictionary lists them. */
  function RegridItems(c: CDict): seq<string>
  {
    [Get(c.regridToGrid), Get(c.regridMethod), Get(c.regridWidth), Get(c.regridVldThresh), Get(c.regridShape)]
  }

  function NonEmpty(xs: seq<string>): (r: seq<string>)
    ensures forall i :: 0 <= i < |r| ==> r[i] != ""
  {
    if xs == [] then [] else (if xs[0] == "" then [] else [xs[0]]) + NonEmpty(xs[1..])
  }

  /** The regrid dictionary, defined from the items that are set:
      empty when none is, otherwise their concatenation inside `regrid = {...}`. */
  function RegridDict(c: CDict): string
  {
    var set_ := NonEmpty(RegridItems(c));
    if set_ == [] then "" else "regrid = {" + Concat(set_) + "}"
  }

  /** VERIF_MASK: `poly = <mask>;` when a mask is set and non-empty. */
  function VerifMask(c: CDict): (r: string)
    ensures r == "" <==> Get(c.verificationMask) == ""
    ensures r != "" ==> r == "poly = " + Get(c.verificationMask) + ";"
  {
    var mask := Get(c.verificationMask);
    if mask != "" then "poly = " + mask + ";" else ""
  }

  /** The environment after set_environment_variables' add_env_var calls. */
  function EnvAfter(env: map<string, string>, c: CDict): map<string, string>
  {
    env["DATA_FILE_TYPE" := Get(c.dataFileType)]
       ["DATA_FIELD" := Get(c.dataField)]
       ["REGRID_DICT" := RegridDict(c)]
       ["DESC" := Get(c.desc)]
       ["VERIF_MASK" := VerifMask(c)]
  }

  lemma {:induction false} NonEmptyEmpty(xs: seq<string>)
    ensures NonEmpty(xs) == [] <==> forall i :: 0 <= i < |xs| ==> xs[i] == ""
  {
    if xs != [] {
      NonEmptyEmpty(xs[1..]);
      if xs[0] == "" {
        forall i | 0 < i < |xs| ensures xs[i] == xs[1..][i - 1] { }
      }
    }
  }

  lemma {:induction false} ConcatNonEmpty(xs: seq<string>)
    ensures Concat(NonEmpty(xs)) == Concat(xs)
  {
    if xs != [] {
      ConcatNonEmpty(xs[1..]);
      ConcatAppend(if xs[0] == "" then [] else [xs[0]], NonEmpty(xs[1..]));
    }
  }

  lemma {:induction false} ConcatAppend(a: seq<string>, b: seq<string>)
    ensures Concat(a + b) == Concat(a) + Concat(b)
  {
    if a != [] {
      assert (a + b)[1..] == a[1..] + b;
      ConcatAppend(a[1..], b);
    } else {
      assert a + b == b;
    }
  }

  /** REGRID_DICT is empty exactly when none of the five regrid items is set,
      and otherwise lists them in the order TO_GRID, METHOD, WIDTH, VLD_THRESH, SHAPE. */
  lemma RegridDictLayout(c: CDict)
    ensures RegridDict(c) == "" <==>
      Get(c.regridToGrid) == "" && Get(c.regridMethod) == "" && Get(c.regridWidth) == ""
      && Get(c.regridVldThresh) == "" && Get(c.regridShape) == ""
    ensures RegridDict(c) != "" ==>
      RegridDict(c) == "regrid = {" + Get(c.regridToGrid) + Get(c.regridMethod) + Get(c.regridWidth)
                       + Get(c.regridVldThresh) + Get(c.regridShape) + "}"
  {
    var xs := RegridItems(c);
    NonEmptyEmpty(xs);
    ConcatNonEmpty(xs);
    ConcatFive(xs[0], xs[1], xs[2], xs[3], xs[4]);
    Regroup("regrid = {", xs[0], xs[1], xs[2], xs[3], xs[4]);
    if NonEmpty(xs) == [] {
      assert xs[0] == "" && xs[1] == "" && xs[2] == "" && xs[3] == "" && xs[4] == "";
    } else {
      var i :| 0 <= i < |xs| && xs[i] != "";
    }
  }

  /** RegridDictLayout with the test set_environment_variables makes. */
  lemma RegridDictSet(c: CDict)
    ensures var set_ := Get(c.regridMethod) != "" || Get(c.regridWidth) != "" || Get(c.regridVldThresh) != ""
                        || Get(c.regridShape) != "" || Get(c.regridToGrid) != "";
      RegridDict(c) == if !set_ then "" else
        "regrid = {" + Get(c.regridToGrid) + Get(c.regridMethod) + Get(c.regridWidth)
        + Get(c.regridVldThresh) + Get(c.regridShape) + "}"
  {
    RegridDictLayout(c);
  }

  lemma Regroup(p: string, a: string, b: string, c: string, d: string, e: string)
    ensures p + (a + (b + (c + (d + e)))) == p + a + b + c + d + e
  {
    AppendAssoc(p, a, b + (c + (d + e)));
    AppendAssoc(p + a, b, c + (d + e));
    AppendAssoc(p + a + b, c, d + e);
    AppendAssoc(p + a + b + c, d, e);
  }

  lemma ConcatFive(a: string, b: string, c: string, d: string, e: string)
    ensures Concat([a, b, c, d, e]) == a + (b + (c + (d + e)))
  {
    assert [a, b, c, d, e] == [a] + ([b] + ([c] + ([d] + ([e] + []))));
    ConcatCons(e, []);
    ConcatCons(d, [e] + []);
    ConcatCons(c, [d] + ([e] + []));
    ConcatCons(b, [c] + ([d] + ([e] + [])));
    ConcatCons(a, [b] + ([c] + ([d] + ([e] + []))));
  }

  /** Composing create_c_dict with set_environment_variables: no regrid dictionary is
      passed exactly when no regrid option was configured and the parent's c_dict holds
      no non-empty regrid entry either. */
  lemma ConfiguredRegridDict(base: CDict, raw: RawConfig, formatRegridToGrid: string -> string,
                             removeQuotes: string -> string)
    ensures var c := CreateCDict(base, raw, formatRegridToGrid, removeQuotes).cDict;
      RegridDict(c) == "" <==>
        raw.regridToGrid == "" && Get(base.regridToGrid) == ""
        && raw.regridMethod == "" && Get(base.regridMethod) == ""
        && WidthUnset(raw.regridWidth) && Get(base.regridWidth) == ""
        && VldThreshUnset(raw.regridVldThresh) && Get(base.regridVldThresh) == ""
        && raw.regridShape == "" && Get(base.regridShape) == ""
  {
    var c := CreateCDict(base, raw, formatRegridToGrid, removeQuotes).cDict;
    RegridDictLayout(c);
  }

  // ---------------------------------------------------------------------
  // get_list_file_name

  /** The name of one axis in the list-file name: ALL for '*', else %Y%m%d%H%M%S. */
  function AxisText(a: Axis<Timestamp>): (r: string)
    ensures a.Wildcard? ==> r == "ALL"
    ensures a.Concrete? ==> |r| == 14 && AllDigits(r)
  {
    match a
    case Wildcard => "ALL"
    case Concrete(t) => StampText(t)
  }

  /** The lead in the list-file name: ALL for '*', else the f-string rendering
      of ti_get_seconds_from_lead(lead, valid) (None renders as "None"). */
  function LeadText(ti: TimeInfo, secondsFromLead: (Lead, Axis<Timestamp>) -> Option<int>): string
  {
    match ti.lead
    case Wildcard => "ALL"
    case Concrete(l) =>
      var secs := secondsFromLead(l, ti.valid);
      if secs.Some? then IntToStr(secs.value) else "None"
  }

  const ListFilePrefix: string := "grid_diag_files_init_"

  /** get_list_file_name: grid_diag_files_init_<init>_valid_<valid>_lead_<lead>.txt. */
  function ListFileName(ti: TimeInfo, secondsFromLead: (Lead, Axis<Timestamp>) -> Option<int>): string
  {
    ListFilePrefix + (AxisText(ti.init) + ("_valid_" + (AxisText(ti.valid)
      + ("_lead_" + (LeadText(ti, secondsFromLead) + ".txt")))))
  }

  /** Every list-file name starts with the fixed prefix and ends in .txt. */
  lemma ListFileNameShape(ti: TimeInfo, secondsFromLead: (Lead, Axis<Timestamp>) -> Option<int>)
    ensures var name := ListFileName(ti, secondsFromLead);
      StartsWith(name, ListFilePrefix) && EndsWith(name, ".txt")
  {
    var lead := LeadText(ti, secondsFromLead);
    var r2 := "_lead_" + (lead + ".txt");
    var r1 := AxisText(ti.valid) + r2;
    var r0 := AxisText(ti.init) + ("_valid_" + r1);
    var name := ListFilePrefix + r0;
    assert name[..|ListFilePrefix|] == ListFilePrefix;
    EndsWithAppend(lead, ".txt", ".txt");
    EndsWithAppend("_lead_", lead + ".txt", ".txt");
    EndsWithAppend(AxisText(ti.valid), r2, ".txt");
    EndsWithAppend("_valid_", r1, ".txt");
    EndsWithAppend(AxisText(ti.init), "_valid_" + r1, ".txt");
    EndsWithAppend(ListFilePrefix, r0, ".txt");
  }

  /** The parts a list-file name is made of. */
  datatype ListKey = ListKey(init: Axis<Timestamp>, valid: Axis<Timestamp>, lead: string)

  /** Reads one axis rendering off the front of s. */
  function ReadAxis(s: string): Option<(Axis<Timestamp>, string)>
  {
    if StartsWith(s, "ALL") then Some((Wildcard, s[3..]))
    else if |s| >= 14 then
      match ParseStamp(s[..14])
      case Some(t) => Some((Concrete(t), s[14..]))
      case None => None
    else None
  }

  /** Reads a list-file name back into its init and valid axes and its lead text. */
  function ParseListFileName(name: string): Option<ListKey>
  {
    if !StartsWith(name, ListFilePrefix) then None else ParseAxes(name[|ListFilePrefix|..])
  }

  /** What follows the prefix: the init axis, `_valid_`, then the rest. */
  function ParseAxes(s: string): Option<ListKey>
  {
    match ReadAxis(s)
    case None => None
    case Some((init, r1)) => if !StartsWith(r1, "_valid_") then None else ParseValid(init, r1[7..])
  }

  /** What follows `_valid_`: the valid axis, then the lead part. */
  function ParseValid(init: Axis<Timestamp>, s: string): Option<ListKey>
  {
    match ReadAxis(s)
    case None => None
    case Some((valid, r2)) => ParseLead(init, valid, r2)
  }

  /** `_lead_<text>.txt`. */
  function ParseLead(init: Axis<Timestamp>, valid: Axis<Timestamp>, s: string): Option<ListKey>
  {
    if |s| >= 10 && StartsWith(s, "_lead_") && EndsWith(s, ".txt")
    then Some(ListKey(init, valid, s[6..|s| - 4]))
    else None
  }

  /** An axis rendering is read back off the front of whatever follows it. */
  lemma ReadAxisFront(a: Axis<Timestamp>, rest: string)
    ensures ReadAxis(AxisText(a) + rest) == Some((a, rest))
  {
    if a.Concrete? {
      ReadStampFront(a.value, rest);
    } else {
      var s := AxisText(a) + rest;
      assert s[..3] == "ALL";
      assert s[3..] == rest;
    }
  }

  lemma ReadStampFront(t: Timestamp, rest: string)
    ensures ReadAxis(StampText(t) + rest) == Some((Concrete(t), rest))
  {
    var s := StampText(t) + rest;
    assert s[..14] == StampText(t);
    assert s[14..] == rest;
    StampRoundTrip(t);
    assert !StartsWith(s, "ALL") by {
      assert IsDigit(s[0]);
      assert s[..3][0] == s[0] && "ALL"[0] == 'A';
    }
  }

  /** The list-file name determines the runtime's init and valid axes and its lead text. */
  lemma ListFileNameRoundTrip(ti: TimeInfo, secondsFromLead: (Lead, Axis<Timestamp>) -> Option<int>)
    ensures ParseListFileName(ListFileName(ti, secondsFromLead))
         == Some(ListKey(ti.init, ti.valid, LeadText(ti, secondsFromLead)))
  {
    var lead := LeadText(ti, secondsFromLead);
    var r2 := "_lead_" + (lead + ".txt");
    var r1 := "_valid_" + (AxisText(ti.valid) + r2);
    var afterPrefix := AxisText(ti.init) + r1;
    var name := ListFilePrefix + afterPrefix;
    assert name == ListFileName(ti, secondsFromLead);
    assert name[|ListFilePrefix|..] == afterPrefix;
    AxesRoundTrip(ti.init, ti.valid, lead);
  }

  lemma AxesRoundTrip(init: Axis<Timestamp>, valid: Axis<Timestamp>, lead: string)
    ensures ParseAxes(AxisText(init) + ("_valid_" + (AxisText(valid) + ("_lead_" + (lead + ".txt")))))
         == Some(ListKey(init, valid, lead))
  {
    var r2 := "_lead_" + (lead + ".txt");
    var r1 := "_valid_" + (AxisText(valid) + r2);
    ReadAxisFront(init, r1);
    assert r1[..7] == "_valid_";
    assert r1[7..] == AxisText(valid) + r2;
    ValidRoundTrip(init, valid, lead);
  }

  lemma ValidRoundTrip(init: Axis<Timestamp>, valid: Axis<Timestamp>, lead: string)
    ensures ParseValid(init, AxisText(valid) + ("_lead_" + (lead + ".txt"))) == Some(ListKey(init, valid, lead))
  {
    var r2 := "_lead_" + (lead + ".txt");
    ReadAxisFront(valid, r2);
    assert r2[..6] == "_lead_";
    assert r2[|r2| - 4..] == ".txt";
    assert r2[6..|r2| - 4] == lead;
  }

  /** Two runtimes share a list file only if their init and valid axes agree. */
  lemma ListFileNameInjective(a: TimeInfo, b: TimeInfo, secondsFromLead: (Lead, Axis<Timestamp>) -> Option<int>)
    requires ListFileName(a, secondsFromLead) == ListFileName(b, secondsFromLead)
    ensures a.init == b.init && a.valid == b.valid
    ensures LeadText(a, secondsFromLead) == LeadText(b, secondsFromLead)
  {
    ListFileNameRoundTrip(a, secondsFromLead);
    ListFileNameRoundTrip(b, secondsFromLead);
  }

  // ---------------------------------------------------------------------
  // find_input_files and subset_input_files

  /** The files one find_data call contributes: none when it found nothing. */
  function Found(o: Option<seq<string>>): seq<string>
  {
    if o.None? then [] else o.value
  }

  /** find_input_files: every template's find_data result, in template order. */
  function TemplateFiles(templates: seq<string>, ti: TimeInfo,
                         findData: (TimeInfo, string) -> Option<seq<string>>): seq<string>
  {
    if templates == [] then [] else Found(findData(ti, templates[0])) + TemplateFiles(templates[1..], ti, findData)
  }

  lemma {:induction false} TemplateFilesAppend(a: seq<string>, b: seq<string>, ti: TimeInfo,
                                               findData: (TimeInfo, string) -> Option<seq<string>>)
    ensures TemplateFiles(a + b, ti, findData) == TemplateFiles(a, ti, findData) + TemplateFiles(b, ti, findData)
  {
    if a != [] {
      assert (a + b)[0] == a[0] && (a + b)[1..] == a[1..] + b;
      TemplateFilesAppend(a[1..], b, ti, findData);
      AppendAssoc(Found(findData(ti, a[0])), TemplateFiles(a[1..], ti, findData), TemplateFiles(b, ti, findData));
    } else {
      assert a + b == b;
    }
  }

  /** One more template adds its find_data result at the end. */
  lemma TemplateFilesSnoc(templates: seq<string>, i: nat, ti: TimeInfo,
                          findData: (TimeInfo, string) -> Option<seq<string>>)
    requires i < |templates|
    ensures TemplateFiles(templates[..i + 1], ti, findData)
         == TemplateFiles(templates[..i], ti, findData) + Found(findData(ti, templates[i]))
  {
    assert templates[..i + 1] == templates[..i] + [templates[i]];
    TemplateFilesAppend(templates[..i], [templates[i]], ti, findData);
    assert Found(findData(ti, templates[i])) + [] == Found(findData(ti, templates[i]));
  }

  /** A file is in the result exactly when some template's find_data found it. */
  lemma {:induction false} TemplateFilesMember(templates: seq<string>, ti: TimeInfo,
                                               findData: (TimeInfo, string) -> Option<seq<string>>, f: string)
    ensures f in TemplateFiles(templates, ti, findData) <==>
            exists k :: 0 <= k < |templates| && f in Found(findData(ti, templates[k]))
  {
    if templates != [] {
      TemplateFilesMember(templates[1..], ti, findData, f);
      if f in TemplateFiles(templates[1..], ti, findData) {
        var k :| 0 <= k < |templates[1..]| && f in Found(findData(ti, templates[1..][k]));
        assert templates[k + 1] == templates[1..][k];
      }
      if exists k :: 0 <= k < |templates| && f in Found(findData(ti, templates[k])) {
        var k :| 0 <= k < |templates| && f in Found(findData(ti, templates[k]));
        if k > 0 { assert templates[1..][k - 1] == templates[k]; }
      }
    }
  }

  /** The catalog entry's files if its time info matches the runtime, else none. */
  function EntryFiles(e: FileDict, ti: TimeInfo, compareTimeInfo: (TimeInfo, TimeInfo) -> bool): seq<string>
  {
    if compareTimeInfo(ti, e.timeInfo) then e.input else []
  }

  /** The `input` lists of the matching ALL_FILES entries, concatenated in catalog order. */
  function MatchingInputs(allFiles: seq<FileDict>, ti: TimeInfo,
                          compareTimeInfo: (TimeInfo, TimeInfo) -> bool): seq<string>
  {
    if allFiles == [] then []
    else EntryFiles(allFiles[0], ti, compareTimeInfo) + MatchingInputs(allFiles[1..], ti, compareTimeInfo)
  }

  /** Catalog order is kept: subsetting a concatenated catalog concatenates the subsets. */
  lemma {:induction false} MatchingInputsAppend(a: seq<FileDict>, b: seq<FileDict>, ti: TimeInfo,
                                                compareTimeInfo: (TimeInfo, TimeInfo) -> bool)
    ensures MatchingInputs(a + b, ti, compareTimeInfo)
         == MatchingInputs(a, ti, compareTimeInfo) + MatchingInputs(b, ti, compareTimeInfo)
  {
    if a != [] {
      assert (a + b)[0] == a[0] && (a + b)[1..] == a[1..] + b;
      MatchingInputsAppend(a[1..], b, ti, compareTimeInfo);
      AppendAssoc(EntryFiles(a[0], ti, compareTimeInfo), MatchingInputs(a[1..], ti, compareTimeInfo),
                  MatchingInputs(b, ti, compareTimeInfo));
    } else {
      assert a + b == b;
    }
  }

  /** One more catalog entry adds its files, if it matches, at the end. */
  lemma MatchingInputsSnoc(allFiles: seq<FileDict>, i: nat, ti: TimeInfo,
                           compareTimeInfo: (TimeInfo, TimeInfo) -> bool)
    requires i < |allFiles|
    ensures MatchingInputs(allFiles[..i + 1], ti, compareTimeInfo)
         == MatchingInputs(allFiles[..i], ti, compareTimeInfo) + EntryFiles(allFiles[i], ti, compareTimeInfo)
  {
    assert allFiles[..i + 1] == allFiles[..i] + [allFiles[i]];
    MatchingInputsAppend(allFiles[..i], [allFiles[i]], ti, compareTimeInfo);
    assert EntryFiles(allFiles[i], ti, compareTimeInfo) + [] == EntryFiles(allFiles[i], ti, compareTimeInfo);
  }

  /** A file is selected exactly when some matching entry lists it. */
  lemma {:induction false} MatchingInputsMember(allFiles: seq<FileDict>, ti: TimeInfo,
                                                compareTimeInfo: (TimeInfo, TimeInfo) -> bool, f: string)
    ensures f in MatchingInputs(allFiles, ti, compareTimeInfo) <==>
      exists k :: 0 <= k < |allFiles| && compareTimeInfo(ti, allFiles[k].timeInfo) && f in allFiles[k].input
  {
    if allFiles != [] {
      MatchingInputsMember(allFiles[1..], ti, compareTimeInfo, f);
      if f in MatchingInputs(allFiles[1..], ti, compareTimeInfo) {
        var k :| 0 <= k < |allFiles[1..]| && compareTimeInfo(ti, allFiles[1..][k].timeInfo)
                 && f in allFiles[1..][k].input;
        assert allFiles[k + 1] == allFiles[1..][k];
      }
      if exists k :: 0 <= k < |allFiles| && compareTimeInfo(ti, allFiles[k].timeInfo) && f in allFiles[k].input {
        var k :| 0 <= k < |allFiles| && compareTimeInfo(ti, allFiles[k].timeInfo) && f in allFiles[k].input;
        if k > 0 { assert allFiles[1..][k - 1] == allFiles[k]; }
      }
    }
  }

  /** Nothing is selected exactly when every matching entry has an empty input list. */
  lemma {:induction false} MatchingInputsEmpty(allFiles: seq<FileDict>, ti: TimeInfo,
                                               compareTimeInfo: (TimeInfo, TimeInfo) -> bool)
    ensures MatchingInputs(allFiles, ti, compareTimeInfo) == [] <==>
      forall k :: 0 <= k < |allFiles| && compareTimeInfo(ti, allFiles[k].timeInfo) ==> allFiles[k].input == []
  {
    if allFiles != [] {
      MatchingInputsEmpty(allFiles[1..], ti, compareTimeInfo);
      if MatchingInputs(allFiles, ti, compareTimeInfo) == [] {
        forall k | 0 <= k < |allFiles| && compareTimeInfo(ti, allFiles[k].timeInfo)
          ensures allFiles[k].input == []
        {
          if k > 0 { assert allFiles[1..][k - 1] == allFiles[k]; }
        }
      } else if EntryFiles(allFiles[0], ti, compareTimeInfo) == [] {
        var k :| 0 <= k < |allFiles[1..]| && compareTimeInfo(ti, allFiles[1..][k].timeInfo)
                 && allFiles[1..][k].input != [];
        assert allFiles[k + 1] == allFiles[1..][k];
      }
    }
  }

  /** subset_input_files: no list file when nothing matches, else the path
      write_list_file returns for the runtime's list-file name and the selected files. */
  function SubsetResult(allFiles: seq<FileDict>, ti: TimeInfo, p: Parent): (r: Option<string>)
    ensures r.None? <==> MatchingInputs(allFiles, ti, p.compareTimeInfo) == []
    ensures r.Some? ==>
      r.value == p.writeListFile(ListFileName(ti, p.secondsFromLead), MatchingInputs(allFiles, ti, p.compareTimeInfo))
  {
    var files := MatchingInputs(allFiles, ti, p.compareTimeInfo);
    if files == [] then None else Some(p.writeListFile(ListFileName(ti, p.secondsFromLead), files))
  }

  // ---------------------------------------------------------------------
  // set_data_field

  /** The get_field_info results of all fields, concatenated; None as soon as one is None. */
  function CollectFields(fields: seq<FieldSpec>, getFieldInfo: (string, string, string) -> Option<seq<string>>)
    : Option<seq<string>>
  {
    if fields == [] then Some([])
    else
      var info := getFieldInfo(fields[0].fcstName, fields[0].fcstLevel, fields[0].fcstExtra);
      if info.None? then None
      else
        var rest := CollectFields(fields[1..], getFieldInfo);
        if rest.None? then None else Some(info.value + rest.value)
  }

  /** Collecting a concatenation collects both parts; it fails when either part fails. */
  lemma {:induction false} CollectFieldsAppend(a: seq<FieldSpec>, b: seq<FieldSpec>,
                                               getFieldInfo: (string, string, string) -> Option<seq<string>>)
    ensures var ca, cb := CollectFields(a, getFieldInfo), CollectFields(b, getFieldInfo);
      CollectFields(a + b, getFieldInfo) == if ca.None? || cb.None? then None else Some(ca.value + cb.value)
  {
    if a == [] {
      assert a + b == b;
      if CollectFields(b, getFieldInfo).Some? {
        assert [] + CollectFields(b, getFieldInfo).value == CollectFields(b, getFieldInfo).value;
      }
    } else {
      assert (a + b)[1..] == a[1..] + b;
      CollectFieldsAppend(a[1..], b, getFieldInfo);
      var info := getFieldInfo(a[0].fcstName, a[0].fcstLevel, a[0].fcstExtra);
      var ra, cb := CollectFields(a[1..], getFieldInfo), CollectFields(b, getFieldInfo);
      if info.Some? && ra.Some? && cb.Some? {
        assert info.value + (ra.value + cb.value) == (info.value + ra.value) + cb.value;
      }
    }
  }

  /** One more field adds its info at the end, or makes the collection fail. */
  lemma CollectFieldsSnoc(fields: seq<FieldSpec>, i: nat,
                          getFieldInfo: (string, string, string) -> Option<seq<string>>)
    requires i < |fields|
    ensures var c, info := CollectFields(fields[..i], getFieldInfo),
                           getFieldInfo(fields[i].fcstName, fields[i].fcstLevel, fields[i].fcstExtra);
      CollectFields(fields[..i + 1], getFieldInfo) == if c.None? || info.None? then None else Some(c.value + info.value)
  {
    assert fields[..i + 1] == fields[..i] + [fields[i]];
    CollectFieldsAppend(fields[..i], [fields[i]], getFieldInfo);
    assert [fields[i]][1..] == [];
    var info := getFieldInfo(fields[i].fcstName, fields[i].fcstLevel, fields[i].fcstExtra);
    if info.Some? {
      assert info.value + [] == info.value;
    }
  }

  /** Once a prefix fails to collect, the whole list does. */
  lemma CollectFieldsPrefixNone(fields: seq<FieldSpec>, i: nat,
                                getFieldInfo: (string, string, string) -> Option<seq<string>>)
    requires i <= |fields| && CollectFields(fields[..i], getFieldInfo).None?
    ensures CollectFields(fields, getFieldInfo).None?
  {
    assert fields == fields[..i] + fields[i..];
    CollectFieldsAppend(fields[..i], fields[i..], getFieldInfo);
  }

  /** DATA_FIELD as set_data_field computes it: None when it returns False. */
  function DataField(fields: seq<FieldSpec>, getFieldInfo: (string, string, string) -> Option<seq<string>>)
    : Option<string>
  {
    if fields == [] then None
    else
      var all := CollectFields(fields, getFieldInfo);
      if all.None? then None else Some(Join(",", all.value))
  }

  predicate InfoMissing(f: FieldSpec, getFieldInfo: (string, string, string) -> Option<seq<string>>)
  {
    getFieldInfo(f.fcstName, f.fcstLevel, f.fcstExtra).None?
  }

  /** The field infos fail to collect exactly when one of them is None. */
  lemma {:induction false} CollectFieldsNone(fields: seq<FieldSpec>,
                                             getFieldInfo: (string, string, string) -> Option<seq<string>>)
    ensures CollectFields(fields, getFieldInfo).None? <==>
            exists k :: 0 <= k < |fields| && InfoMissing(fields[k], getFieldInfo)
  {
    if fields != [] {
      CollectFieldsNone(fields[1..], getFieldInfo);
      if exists k :: 0 <= k < |fields[1..]| && InfoMissing(fields[1..][k], getFieldInfo) {
        var k :| 0 <= k < |fields[1..]| && InfoMissing(fields[1..][k], getFieldInfo);
        assert fields[k + 1] == fields[1..][k];
      }
      if exists k :: 0 <= k < |fields| && InfoMissing(fields[k], getFieldInfo) {
        var k :| 0 <= k < |fields| && InfoMissing(fields[k], getFieldInfo);
        if k > 0 { assert fields[1..][k - 1] == fields[k]; }
      }
    }
  }

  /** set_data_field fails exactly when the field list is empty or some field has no info;
      otherwise DATA_FIELD is the comma-join of every field's info, in order. */
  lemma DataFieldOutcome(fields: seq<FieldSpec>, getFieldInfo: (string, string, string) -> Option<seq<string>>)
    ensures DataField(fields, getFieldInfo).None? <==>
            fields == [] || exists k :: 0 <= k < |fields| && InfoMissing(fields[k], getFieldInfo)
    ensures DataField(fields, getFieldInfo).Some? ==>
            CollectFields(fields, getFieldInfo).Some? &&
            DataField(fields, getFieldInfo).value == Join(",", CollectFields(fields, getFieldInfo).value)
  {
    CollectFieldsNone(fields, getFieldInfo);
  }

  // ---------------------------------------------------------------------
  // get_command

  /** One ` -data <file>` per input file, in order. */
  function DataFlags(infiles: seq<string>): string
  {
    if infiles == [] then "" else " -data " + infiles[0] + DataFlags(infiles[1..])
  }

  lemma {:induction false} DataFlagsAppend(a: seq<string>, b: seq<string>)
    ensures DataFlags(a + b) == DataFlags(a) + DataFlags(b)
  {
    if a != [] {
      assert (a + b)[0] == a[0] && (a + b)[1..] == a[1..] + b;
      DataFlagsAppend(a[1..], b);
      AppendAssoc(" -data " + a[0], DataFlags(a[1..]), DataFlags(b));
    } else {
      assert a + b == b;
    }
  }

  /** One more input file adds its -data flag at the end. */
  lemma DataFlagsSnoc(cmd: string, infiles: seq<string>, i: nat)
    requires i < |infiles|
    ensures cmd + DataFlags(infiles[..i + 1]) == cmd + DataFlags(infiles[..i]) + " -data " + infiles[i]
  {
    assert infiles[..i + 1] == infiles[..i] + [infiles[i]];
    DataFlagsAppend(infiles[..i], [infiles[i]]);
    assert DataFlags([infiles[i]]) == " -data " + infiles[i];
  }

  /** The grid_diag command line for the given state. */
  function CommandOf(appPath: string, infiles: seq<string>, args: seq<string>, outputPath: string,
                     verbosity: string): string
  {
    appPath + DataFlags(infiles) + " " + Join(" ", args) + " -out " + outputPath + " -v " + verbosity
  }

  /** With at least one input, the flags are ` -data ` before the inputs joined by ` -data `. */
  lemma {:induction false} DataFlagsJoin(infiles: seq<string>)
    requires infiles != []
    ensures DataFlags(infiles) == " -data " + Join(" -data ", infiles)
  {
    var rest := infiles[1..];
    if rest == [] {
      assert DataFlags(infiles) == " -data " + infiles[0] + DataFlags(rest);
    } else {
      DataFlagsJoin(rest);
      var head := " -data " + infiles[0];
      assert DataFlags(infiles) == head + (" -data " + Join(" -data ", rest));
      AppendAssoc(head, " -data ", Join(" -data ", rest));
      AppendAssoc(" -data ", infiles[0] + " -data ", Join(" -data ", rest));
      AppendAssoc(" -data ", infiles[0], " -data ");
    }
  }

  /** The command starts with the app path and ends with the verbosity flag. */
  lemma CommandLayout(appPath: string, infiles: seq<string>, args: seq<string>, outputPath: string,
                      verbosity: string)
    ensures var cmd := CommandOf(appPath, infiles, args, outputPath, verbosity);
      StartsWith(cmd, appPath) && EndsWith(cmd, " -v " + verbosity)
  {
    var tail := DataFlags(infiles) + " " + Join(" ", args) + " -out " + outputPath;
    var cmd := CommandOf(appPath, infiles, args, outputPath, verbosity);
    assert cmd == appPath + tail + (" -v " + verbosity);
    assert cmd[..|appPath|] == appPath;
    assert cmd[|cmd| - |" -v " + verbosity|..] == " -v " + verbosity;
  }

  /** The `-config` argument: the config file after string substitution. */
  function ConfigArg(c: CDict, ti: TimeInfo, p: Parent): string
  {
    "-config " + p.doStringSub(c.configFile, ti)
  }

  // ---------------------------------------------------------------------
  // The wrapper's state and the per-runtime protocol

  /** What build() was handed: the command get_command yields and the environment. */
  datatype Invocation = Invocation(command: string, env: map<string, string>)

  datatype WrapperState = WrapperState(
    infiles: seq<string>,
    args: seq<string>,
    cDict: CDict,
    env: map<string, string>,
    outputPath: string,
    builds: seq<Invocation>)

  function StateCommand(appPath: string, s: WrapperState): string
  {
    CommandOf(appPath, s.infiles, s.args, s.outputPath, s.cDict.verbosity)
  }

  /** The list file subset_input_files yields, when it is a usable (non-empty) path. */
  function ListFileFor(s: WrapperState, ti: TimeInfo, p: Parent): Option<string>
  {
    var lf := SubsetResult(s.cDict.allFiles, ti, p);
    if lf.Some? && lf.value != "" then lf else None
  }

  /** The three steps of run_at_time_custom all succeed. */
  predicate Reached(s: WrapperState, ti: TimeInfo, p: Parent)
  {
    ListFileFor(s, ti, p).Some?
    && p.findAndCheckOutputFile(ti).0
    && DataField(p.parseVarList(ti), p.getFieldInfo).Some?
  }

  /** run_at_time_custom as a function of the state before it. */
  function CustomSpec(appPath: string, s: WrapperState, ti: TimeInfo, p: Parent): WrapperState
  {
    var cleared := s.(infiles := [], args := []);
    var listFile := ListFileFor(cleared, ti, p);
    if listFile.None? then cleared
    else
      var withList := cleared.(infiles := cleared.infiles + [listFile.value]);
      var found := p.findAndCheckOutputFile(ti);
      var withOut := withList.(outputPath := found.1);
      if !found.0 then withOut
      else
        var df := DataField(p.parseVarList(ti), p.getFieldInfo);
        if df.None? then withOut
        else
          var c1 := withOut.cDict.(dataField := df);
          var c2 := c1.(verificationMask := Some(p.getVerificationMask(ti, c1.verificationMaskTemplate)));
          var withArgs := withOut.(cDict := c2, args := withOut.args + [ConfigArg(c2, ti, p)]);
          var withEnv := withArgs.(env := EnvAfter(withArgs.env, c2));
          withEnv.(builds := withEnv.builds + [Invocation(StateCommand(appPath, withEnv), withEnv.env)])
  }

  /** The skip chain: build() is reached exactly when all three steps succeed, and then
      the only input is the list file and the only argument is the -config one. */
  lemma CustomSkipChain(appPath: string, s: WrapperState, ti: TimeInfo, p: Parent)
    ensures var r := CustomSpec(appPath, s, ti, p);
      (Reached(s, ti, p) <==> |r.builds| == |s.builds| + 1)
      && (!Reached(s, ti, p) ==> r.builds == s.builds && r.args == [])
      && r.infiles == (if ListFileFor(s, ti, p).Some? then [ListFileFor(s, ti, p).value] else [])
      && r.cDict.allFiles == s.cDict.allFiles && r.cDict.customLoopList == s.cDict.customLoopList
  {
  }

  /** What a built runtime hands to build(). */
  lemma CustomBuilt(appPath: string, s: WrapperState, ti: TimeInfo, p: Parent)
    requires Reached(s, ti, p)
    ensures var r := CustomSpec(appPath, s, ti, p);
      r.builds[..|s.builds|] == s.builds
      && r.infiles == [ListFileFor(s, ti, p).value]
      && r.args == [ConfigArg(r.cDict, ti, p)]
      && r.cDict.dataField == DataField(p.parseVarList(ti), p.getFieldInfo)
      && r.outputPath == p.findAndCheckOutputFile(ti).1
      && r.env == EnvAfter(s.env, r.cDict)
      && r.builds[|s.builds|] == Invocation(StateCommand(appPath, r), r.env)
  {
  }

  /** The keys set_environment_variables adds. */
  const EnvKeys: set<string> := {"DATA_FILE_TYPE", "DATA_FIELD", "REGRID_DICT", "DESC", "VERIF_MASK"}

  /** The environment a built runtime hands to build(): the file type, the joined field
      infos, the regrid dictionary and the description as configured, and VERIF_MASK
      empty exactly when get_verification_mask returned an empty mask for this runtime,
      otherwise `poly = <mask>;`. Earlier variables of other names are kept. */
  lemma CustomEnv(appPath: string, s: WrapperState, ti: TimeInfo, p: Parent)
    requires Reached(s, ti, p)
    ensures var r := CustomSpec(appPath, s, ti, p);
      var mask := p.getVerificationMask(ti, s.cDict.verificationMaskTemplate);
      r.env.Keys == s.env.Keys + EnvKeys
      && r.env["DATA_FILE_TYPE"] == Get(s.cDict.dataFileType)
      && r.env["DATA_FIELD"] == DataField(p.parseVarList(ti), p.getFieldInfo).value
      && r.env["REGRID_DICT"] == RegridDict(s.cDict)
      && r.env["DESC"] == Get(s.cDict.desc)
      && (r.env["VERIF_MASK"] == "" <==> mask == "")
      && (mask != "" ==> r.env["VERIF_MASK"] == "poly = " + mask + ";")
      && (forall key :: key in s.env && key !in EnvKeys ==> r.env[key] == s.env[key])
  {
    var r := CustomSpec(appPath, s, ti, p);
    CustomBuilt(appPath, s, ti, p);
    assert RegridItems(r.cDict) == RegridItems(s.cDict);
  }

  /** run_at_time_once: run_at_time_custom once per custom string, in list order,
      with the custom entry of the time information set to it. */
  function OnceSpec(appPath: string, s: WrapperState, ti: TimeInfo, p: Parent, customs: seq<string>): WrapperState
    decreases |customs|
  {
    if customs == [] then s
    else OnceSpec(appPath, CustomSpec(appPath, s, ti.(custom := customs[0]), p), ti, p, customs[1..])
  }

  lemma {:induction false} OnceAppend(appPath: string, s: WrapperState, ti: TimeInfo, p: Parent,
                                      a: seq<string>, b: seq<string>)
    ensures OnceSpec(appPath, s, ti, p, a + b) == OnceSpec(appPath, OnceSpec(appPath, s, ti, p, a), ti, p, b)
    decreases |a|
  {
    if a != [] {
      assert (a + b)[1..] == a[1..] + b;
      OnceAppend(appPath, CustomSpec(appPath, s, ti.(custom := a[0]), p), ti, p, a[1..], b);
    } else {
      assert a + b == b;
    }
  }

  /** b is a at most k elements longer and starts with a. */
  predicate Extends(a: seq<Invocation>, b: seq<Invocation>, k: nat)
  {
    |a| <= |b| <= |a| + k && b[..|a|] == a
  }

  lemma ExtendsTrans(a: seq<Invocation>, b: seq<Invocation>, c: seq<Invocation>, j: nat, k: nat)
    requires Extends(a, b, j) && Extends(b, c, k)
    ensures Extends(a, c, j + k)
  {
    assert c[..|a|] == c[..|b|][..|a|];
  }

  /** One runtime adds at most one build and keeps the earlier ones. */
  lemma CustomKeeps(appPath: string, s: WrapperState, ti: TimeInfo, p: Parent)
    ensures Extends(s.builds, CustomSpec(appPath, s, ti, p).builds, 1)
  {
    CustomSkipChain(appPath, s, ti, p);
    if Reached(s, ti, p) {
      CustomBuilt(appPath, s, ti, p);
    }
  }

  /** Each custom string builds at most once, and earlier builds are kept. */
  lemma {:induction false} OnceBuilds(appPath: string, s: WrapperState, ti: TimeInfo, p: Parent, customs: seq<string>)
    ensures var r := OnceSpec(appPath, s, ti, p, customs);
      |s.builds| <= |r.builds| <= |s.builds| + |customs| && r.builds[..|s.builds|] == s.builds
    decreases |customs|
  {
    if customs != [] {
      var s1 := CustomSpec(appPath, s, ti.(custom := customs[0]), p);
      CustomKeeps(appPath, s, ti.(custom := customs[0]), p);
      OnceBuilds(appPath, s1, ti, p, customs[1..]);
      var r := OnceSpec(appPath, s1, ti, p, customs[1..]);
      ExtendsTrans(s.builds, s1.builds, r.builds, 1, |customs| - 1);
    }
  }

  class GridDiagWrapper {
    const appPath: string
    var infiles: seq<string>
    var args: seq<string>
    var cDict: CDict
    var env: map<string, string>
    var outputPath: string
    var builds: seq<Invocation>

    /** __init__: the app path, and the c_dict that create_c_dict builds over the
        parent's defaults (base) from the configuration values. */
    constructor (metBinDir: string, base: CDict, raw: RawConfig, formatRegridToGrid: string -> string,
                 removeQuotes: string -> string)
      ensures appPath == PathJoin(metBinDir, "grid_diag")
      ensures cDict == CreateCDict(base, raw, formatRegridToGrid, removeQuotes).cDict
      ensures infiles == [] && args == [] && env == map[] && outputPath == "" && builds == []
    {
      appPath := PathJoin(metBinDir, "grid_diag");
      cDict := CreateCDict(base, raw, formatRegridToGrid, removeQuotes).cDict;
      infiles, args, env, outputPath, builds := [], [], map[], "", [];
    }

    function State(): WrapperState
      reads this
    {
      WrapperState(infiles, args, cDict, env, outputPath, builds)
    }

    /** get_command: app path, one -data per input in order, the arguments joined
        by spaces, -out with the output path, -v with the verbosity. */
    method GetCommand() returns (cmd: string)
      ensures cmd == CommandOf(appPath, infiles, args, outputPath, cDict.verbosity)
    {
      cmd := appPath;
      for i := 0 to |infiles|
        invariant cmd == appPath + DataFlags(infiles[..i])
      {
        DataFlagsSnoc(appPath, infiles, i);
        cmd := cmd + " -data " + infiles[i];
      }
      assert infiles[..|infiles|] == infiles;
      cmd := cmd + " " + Join(" ", args);
      cmd := cmd + " -out " + outputPath;
      cmd := cmd + " -v " + cDict.verbosity;
    }

    /** find_input_files: loops over INPUT_TEMPLATES, leaving INPUT_TEMPLATE set to the last one. */
    method FindInputFiles(ti: TimeInfo, p: Parent) returns (files: seq<string>)
      modifies this`cDict
      ensures files == TemplateFiles(old(cDict).inputTemplates, ti, p.findData)
      ensures cDict == if old(cDict).inputTemplates == [] then old(cDict)
                       else old(cDict).(inputTemplate := Some(Last(old(cDict).inputTemplates)))
    {
      var templates := cDict.inputTemplates;
      files := [];
      for i := 0 to |templates|
        invariant files == TemplateFiles(templates[..i], ti, p.findData)
        invariant cDict == if i == 0 then old(cDict) else old(cDict).(inputTemplate := Some(templates[i - 1]))
      {
        TemplateFilesSnoc(templates, i, ti, p.findData);
        cDict := cDict.(inputTemplate := Some(templates[i]));
        var inputFiles := p.findData(ti, templates[i]);
        if inputFiles.None? || inputFiles.value == [] {
          continue;
        }
        files := files + inputFiles.value;
      }
      assert templates[..|templates|] == templates;
    }

    /** get_files_from_time: find_input_files always yields a list, so the result is never None. */
    method GetFilesFromTime(ti: TimeInfo, p: Parent) returns (r: Option<FileDict>)
      modifies this`cDict
      ensures r == Some(FileDict(ti, TemplateFiles(old(cDict).inputTemplates, ti, p.findData)))
    {
      var inputFiles := FindInputFiles(ti, p);
      r := Some(FileDict(ti, inputFiles));
    }

    /** subset_input_files. */
    method SubsetInputFiles(ti: TimeInfo, p: Parent) returns (r: Option<string>)
      ensures r == SubsetResult(cDict.allFiles, ti, p)
    {
      var catalog := cDict.allFiles;
      var allInputFiles: seq<string> := [];
      for i := 0 to |catalog|
        invariant allInputFiles == MatchingInputs(catalog[..i], ti, p.compareTimeInfo)
      {
        MatchingInputsSnoc(catalog, i, ti, p.compareTimeInfo);
        if !p.compareTimeInfo(ti, catalog[i].timeInfo) {
          continue;
        }
        allInputFiles := allInputFiles + catalog[i].input;
      }
      assert catalog[..|catalog|] == catalog;
      if allInputFiles == [] {
        return None;
      }
      var listFileName := ListFileName(ti, p.secondsFromLead);
      r := Some(p.writeListFile(listFileName, allInputFiles));
    }

    /** set_data_field: DATA_FIELD is assigned only on success. */
    method SetDataField(ti: TimeInfo, p: Parent) returns (ok: bool)
      modifies this`cDict
      ensures ok <==> DataField(p.parseVarList(ti), p.getFieldInfo).Some?
      ensures cDict == if ok then old(cDict).(dataField := DataField(p.parseVarList(ti), p.getFieldInfo))
                       else old(cDict)
    {
      var fieldList := p.parseVarList(ti);
      if fieldList == [] {
        return false;
      }
      var allFields: seq<string> := [];
      for i := 0 to |fieldList|
        invariant CollectFields(fieldList[..i], p.getFieldInfo) == Some(allFields)
        invariant cDict == old(cDict)
      {
        CollectFieldsSnoc(fieldList, i, p.getFieldInfo);
        var field := fieldList[i];
        var info := p.getFieldInfo(field.fcstName, field.fcstLevel, field.fcstExtra);
        if info.None? {
          CollectFieldsPrefixNone(fieldList, i + 1, p.getFieldInfo);
          return false;
        }
        allFields := allFields + info.value;
      }
      assert fieldList[..|fieldList|] == fieldList;
      cDict := cDict.(dataField := Some(Join(",", allFields)));
      ok := true;
    }

    /** find_and_check_output_file: records the output path get_output_path reads. */
    method FindAndCheckOutputFile(ti: TimeInfo, p: Parent) returns (ok: bool)
      modifies this`outputPath
      ensures ok == p.findAndCheckOutputFile(ti).0 && outputPath == p.findAndCheckOutputFile(ti).1
    {
      var found := p.findAndCheckOutputFile(ti);
      outputPath := found.1;
      ok := found.0;
    }

    /** get_verification_mask: sets VERIFICATION_MASK from its template. */
    method GetVerificationMask(ti: TimeInfo, p: Parent)
      modifies this`cDict
      ensures cDict == old(cDict).(verificationMask :=
                Some(p.getVerificationMask(ti, old(cDict).verificationMaskTemplate)))
    {
      cDict := cDict.(verificationMask := Some(p.getVerificationMask(ti, cDict.verificationMaskTemplate)));
    }

    /** set_command_line_arguments: appends exactly one -config argument. */
    method SetCommandLineArguments(ti: TimeInfo, p: Parent)
      modifies this`args
      ensures args == old(args) + [ConfigArg(cDict, ti, p)]
    {
      var configFile := p.doStringSub(cDict.configFile, ti);
      args := args + ["-config " + configFile];
    }

    /** set_environment_variables: the regrid dictionary is assembled item by item. */
    method SetEnvironmentVariables()
      modifies this`env
      ensures env == EnvAfter(old(env), cDict)
    {
      env := env["DATA_FILE_TYPE" := Get(cDict.dataFileType)];
      env := env["DATA_FIELD" := Get(cDict.dataField)];
      RegridDictSet(cDict);
      var regridDictString := "";
      if Get(cDict.regridMethod) != "" || Get(cDict.regridWidth) != "" || Get(cDict.regridVldThresh) != ""
         || Get(cDict.regridShape) != "" || Get(cDict.regridToGrid) != "" {
        regridDictString := "regrid = {";
        regridDictString := regridDictString + Get(cDict.regridToGrid);
        regridDictString := regridDictString + Get(cDict.regridMethod);
        regridDictString := regridDictString + Get(cDict.regridWidth);
        regridDictString := regridDictString + Get(cDict.regridVldThresh);
        regridDictString := regridDictString + Get(cDict.regridShape);
        regridDictString := regridDictString + "}";
      }
      env := env["REGRID_DICT" := regridDictString];
      env := env["DESC" := Get(cDict.desc)];
      var verifMask := Get(cDict.verificationMask);
      if verifMask != "" {
        verifMask := "poly = " + verifMask + ";";
      }
      env := env["VERIF_MASK" := verifMask];
    }

    /** clear: drops the previous runtime's inputs and arguments. */
    method Clear()
      modifies this`infiles, this`args
      ensures infiles == [] && args == []
    {
      infiles, args := [], [];
    }

    /** build: hands the command and the environment over for running. */
    method Build()
      modifies this`builds
      ensures builds == old(builds) + [Invocation(StateCommand(appPath, State()), env)]
    {
      var cmd := GetCommand();
      builds := builds + [Invocation(cmd, env)];
    }

    /** run_at_time_custom: each step may end the runtime early; only then is build() skipped. */
    method RunAtTimeCustom(ti: TimeInfo, p: Parent)
      modifies this
      ensures State() == CustomSpec(appPath, old(State()), ti, p)
    {
      Clear();
      var inputListFile := SubsetInputFiles(ti, p);
      if inputListFile.None? || inputListFile.value == "" {
        return;
      }
      infiles := infiles + [inputListFile.value];
      var found := FindAndCheckOutputFile(ti, p);
      if !found {
        return;
      }
      var fieldsSet := SetDataField(ti, p);
      if !fieldsSet {
        return;
      }
      GetVerificationMask(ti, p);
      SetCommandLineArguments(ti, p);
      SetEnvironmentVariables();
      Build();
    }

    /** run_at_time_once: the caller's time information keeps the last custom string. */
    method RunAtTimeOnce(ti: TimeInfo, p: Parent) returns (tiAfter: TimeInfo)
      modifies this
      ensures State() == OnceSpec(appPath, old(State()), ti, p, old(cDict).customLoopList)
      ensures tiAfter == if old(cDict).customLoopList == [] then ti
                         else ti.(custom := Last(old(cDict).customLoopList))
    {
      var customs := cDict.customLoopList;
      tiAfter := ti;
      for i := 0 to |customs|
        invariant OnceSpec(appPath, old(State()), ti, p, customs) == OnceSpec(appPath, State(), ti, p, customs[i..])
        invariant tiAfter == if i == 0 then ti else ti.(custom := customs[i - 1])
      {
        assert customs[i..][1..] == customs[i + 1..];
        tiAfter := tiAfter.(custom := customs[i]);
        RunAtTimeCustom(tiAfter, p);
      }
      assert customs[|customs|..] == [];
    }
  }

  function Last(xs: seq<string>): string
    requires xs != []
  {
    xs[|xs| - 1]
  }
}
