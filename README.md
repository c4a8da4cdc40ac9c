# grid_diag wrapper and by-lead series driver, in Dafny

This project models two pieces of METplus that select files by time and assemble commands. It proves properties of both.

- **`GridDiagWrapper`** (`metplus/wrappers/grid_diag_wrapper.py`) is the per-runtime build protocol of the `grid_diag` tool. Dafny class `GridDiag.GridDiagWrapper` holds its state: input files, arguments, a `c_dict` record of optional strings, the environment, the output path and a log of `build()` calls. The model covers:
  - the conditional config items of `create_c_dict`;
  - the `REGRID_DICT` and `VERIF_MASK` strings;
  - the list-file name, with `ALL` for a wildcard axis;
  - per-template file concatenation and subsetting of the `ALL_FILES` catalog;
  - the `DATA_FIELD` string;
  - the command line;
  - the skip chain of `run_at_time_custom` and the custom-string loop of `run_at_time_once`.

  Each method is proved against a function of the state before it (`CustomSpec`, `OnceSpec`, `TemplateFiles`, …). The properties are lemmas about those functions.
- **The by-lead series driver** (`ush/series_by_lead.py`). The model covers:
  - the forecast-hour range and its zero-padded three-digit names;
  - the tile filter over a directory walk (`get_files`);
  - the newline-terminated tile manifest (`retrieve_fhr_tiles`), appended to `<out_dir>/FCST_FILE_F<fhr>` and `<out_dir>/ANLY_FILE_F<fhr>`;
  - the `NAME`/`LEVEL` environment and the series_analysis command of every variable;
  - the netCDF filter by variable (`get_var_ncfiles`);
  - the FCST→ANLY tile pairing (`find_matching_tile`);
  - the `.nc`→`_<stat>.ps`→`.png` renames.

  Class `SeriesByLead.SeriesRun` holds the manifest files (path → content), the environment and the series_analysis calls assembled so far. Its methods are proved against `FhrStep`, `VarsSpec` and `LeadSpec`.

Files:
- `common.dfy`: Option and Result.
- `text.dfy`: Python's `str(int)`, `zfill`, `join` and one-character `split`; lines; the text a `.*` can span; `os.path.join`.
- `times.dfy`: timestamps, wildcard axes, and `strftime('%Y%m%d%H%M%S')` with its parse-back.
- `series_patterns.dfy`: the driver's fixed regular expressions, each as an explicit string predicate or function.
- `grid_diag.dfy`: the grid_diag wrapper.
- `series_by_lead.dfy`: the driver.

Collaborators whose bodies are not part of this model are parameters. For the wrapper they are the fields of `GridDiag.Parent`: `compare_time_info`, `find_data`, `write_list_file`, `find_and_check_output_file`, `util.parse_var_list`, `get_field_info`, `get_verification_mask`, `do_string_sub` and `ti_get_seconds_from_lead`, together with `format_regrid_to_grid` and `util.remove_quotes`, which are parameters of `GridDiag.CreateCDict` and of the wrapper's constructor. For the driver they are the configured tile regexes, each of which yields `match.group()` when it matches. The directory walk is an input sequence of `(root, filename)` pairs.

## Model

| member | source | states |
|---|---|---|
| GridDiag.CreateCDict | metplus/wrappers/grid_diag_wrapper.py:35-93 | (1) flags: the config-file error is logged iff GRID_DIAG_CONFIG_FILE is empty, and the width and vld_thresh checks keep isOK iff both values are given. (2) items: DATA_FILE_TYPE, REGRID_METHOD, REGRID_WIDTH, REGRID_VLD_THRESH, REGRID_SHAPE, REGRID_TO_GRID and DESC are set to their exact `key = value;` text when the value is given (non-empty; width and vld_thresh: not MISSING_DATA_VALUE), and otherwise keep the parent c_dict's entry. (3) the rest: VERBOSITY, CONFIG_FILE, INPUT_TEMPLATES and VERIFICATION_MASK_TEMPLATE are the configured values, and the entries create_c_dict does not touch are kept |
| GridDiag.RegridDictLayout | metplus/wrappers/grid_diag_wrapper.py:107-124 | REGRID_DICT is empty iff none of TO_GRID, METHOD, WIDTH, VLD_THRESH, SHAPE is set; otherwise it is `regrid = {` + those five, in that order, + `}` |
| GridDiag.ConfiguredRegridDict | metplus/wrappers/grid_diag_wrapper.py:57-82 | after create_c_dict, no regrid dictionary is passed iff no regrid option was configured and the parent c_dict holds no non-empty regrid entry |
| GridDiag.CustomEnv | metplus/wrappers/grid_diag_wrapper.py:101-133 | a built runtime's environment holds DATA_FILE_TYPE, DATA_FIELD, REGRID_DICT and DESC as configured; VERIF_MASK is empty iff get_verification_mask returned an empty mask for this runtime, otherwise `poly = <mask>;`; other variables are kept |
| GridDiag.GridDiagWrapper.SetEnvironmentVariables | metplus/wrappers/grid_diag_wrapper.py:95-134 | the item-by-item string building sets DATA_FILE_TYPE, DATA_FIELD, REGRID_DICT, DESC and VERIF_MASK to the values above |
| GridDiag.AxisText | metplus/wrappers/grid_diag_wrapper.py:312-320 | a wildcard axis renders as `ALL`, a concrete one as exactly 14 digits |
| GridDiag.ListFileNameShape | metplus/wrappers/grid_diag_wrapper.py:328 | every list-file name starts with `grid_diag_files_init_` and ends with `.txt` |
| GridDiag.ReadAxisFront | metplus/wrappers/grid_diag_wrapper.py:312-320 | an axis rendering is read back, exactly, off the front of any text after it |
| GridDiag.ListFileNameRoundTrip | metplus/wrappers/grid_diag_wrapper.py:312-328 | parsing the list-file name recovers init, valid and the lead text, so each axis is rendered independently |
| GridDiag.ListFileNameInjective | metplus/wrappers/grid_diag_wrapper.py:312-328 | two runtimes share a list file only if their init, valid and lead renderings agree |
| Times.StampRoundTrip | metplus/wrappers/grid_diag_wrapper.py:315 | parsing the `%Y%m%d%H%M%S` rendering of a timestamp gives the timestamp back |
| Times.StampTextInjective | metplus/wrappers/grid_diag_wrapper.py:315-320 | different timestamps render differently |
| GridDiag.TemplateFilesMember | metplus/wrappers/grid_diag_wrapper.py:236-245 | a file is returned iff some template's find_data result holds it; empty and None results add nothing |
| GridDiag.TemplateFilesAppend | metplus/wrappers/grid_diag_wrapper.py:237-243 | the per-template results are concatenated in template order |
| GridDiag.GridDiagWrapper.FindInputFiles | metplus/wrappers/grid_diag_wrapper.py:230-245 | the loop returns the concatenation over all templates, never None, and leaves INPUT_TEMPLATE at the last template |
| GridDiag.GridDiagWrapper.GetFilesFromTime | metplus/wrappers/grid_diag_wrapper.py:257-275 | the result is always a file dictionary of the time info and the found files; the None branch is dead |
| GridDiag.MatchingInputsMember | metplus/wrappers/grid_diag_wrapper.py:285-292 | a file is selected iff it is in the input of a catalog entry whose time info matches |
| GridDiag.MatchingInputsAppend | metplus/wrappers/grid_diag_wrapper.py:286-292 | the selection keeps catalog order: selecting from a concatenation concatenates the selections |
| GridDiag.MatchingInputsEmpty | metplus/wrappers/grid_diag_wrapper.py:285-296 | nothing is selected iff every matching entry has an empty input |
| GridDiag.SubsetResult | metplus/wrappers/grid_diag_wrapper.py:294-300 | no list file iff nothing is selected; otherwise the path write_list_file returns for this runtime's list-file name and the selection |
| GridDiag.GridDiagWrapper.SubsetInputFiles | metplus/wrappers/grid_diag_wrapper.py:277-300 | the loop's result is SubsetResult of the catalog |
| GridDiag.CollectFieldsNone | metplus/wrappers/grid_diag_wrapper.py:216-222 | collecting the field infos fails iff some field's get_field_info is None |
| GridDiag.CollectFieldsAppend | metplus/wrappers/grid_diag_wrapper.py:216-224 | field infos are gathered in field order, and a failure anywhere fails the whole collection |
| GridDiag.DataFieldOutcome | metplus/wrappers/grid_diag_wrapper.py:207-228 | set_data_field fails iff the field list is empty or some field has no info; otherwise DATA_FIELD is the comma-join of all infos in order |
| GridDiag.GridDiagWrapper.SetDataField | metplus/wrappers/grid_diag_wrapper.py:198-228 | returns True iff DataField is defined; then DATA_FIELD is set to it and nothing else changes; on False the c_dict is untouched |
| GridDiag.DataFlagsJoin | metplus/wrappers/grid_diag_wrapper.py:142-143 | with at least one input, the flags are ` -data ` followed by the inputs joined with ` -data `: one flag per input, in order |
| GridDiag.DataFlagsAppend | metplus/wrappers/grid_diag_wrapper.py:142-143 | the flags of a concatenation of input lists are the concatenation of their flags |
| GridDiag.CommandLayout | metplus/wrappers/grid_diag_wrapper.py:138-154 | the command starts with the app path and ends with ` -v <VERBOSITY>` |
| GridDiag.GridDiagWrapper.GetCommand | metplus/wrappers/grid_diag_wrapper.py:138-154 | the `+=` loop yields app path, the -data flags, a space and the space-joined args, ` -out <path>`, ` -v <verbosity>` |
| GridDiag.GridDiagWrapper.SetCommandLineArguments | metplus/wrappers/grid_diag_wrapper.py:247-255 | appends exactly one `-config <substituted config file>` |
| GridDiag.GridDiagWrapper.constructor | metplus/wrappers/grid_diag_wrapper.py:27-33 | app_path is MET_BIN_DIR joined with `grid_diag`, c_dict is what create_c_dict builds from the configuration, and the rest of the state starts empty |
| GridDiag.CustomSkipChain | metplus/wrappers/grid_diag_wrapper.py:168-196 | build() is reached iff a usable list file is produced, find_and_check_output_file succeeds and set_data_field succeeds; otherwise no build and no args; infiles holds only that list file; the catalog and custom list are untouched |
| GridDiag.CustomBuilt | metplus/wrappers/grid_diag_wrapper.py:176-196 | when built: infiles is just the list file, args is just the `-config` argument, DATA_FIELD, the output path and the environment are set, and the one new build is the command of that state |
| GridDiag.CustomKeeps | metplus/wrappers/grid_diag_wrapper.py:168-196 | one runtime adds at most one build and keeps the earlier ones |
| GridDiag.GridDiagWrapper.RunAtTimeCustom | metplus/wrappers/grid_diag_wrapper.py:168-196 | the step-by-step method leaves exactly CustomSpec of the state before it |
| GridDiag.OnceAppend | metplus/wrappers/grid_diag_wrapper.py:161-166 | running two custom lists one after the other equals running their concatenation |
| GridDiag.OnceBuilds | metplus/wrappers/grid_diag_wrapper.py:161-166 | each custom string builds at most once, and earlier builds are kept as a prefix |
| GridDiag.GridDiagWrapper.RunAtTimeOnce | metplus/wrappers/grid_diag_wrapper.py:156-166 | runs run_at_time_custom once per CUSTOM_LOOP_LIST entry, in order, with `custom` set to it; the time info is left with the last entry |
| SeriesByLead.RangeFrom | ush/series_by_lead.py:89 | `range(a, b, k)` is empty iff the start is already past the stop; it starts at a and steps by k |
| SeriesByLead.RangeBounds | ush/series_by_lead.py:89 | every value is before the stop, and one more step from the last would not be |
| SeriesByLead.RangeClosedForm | ush/series_by_lead.py:89 | the i-th value is a + i·k |
| SeriesByLead.FhrRange | ush/series_by_lead.py:89 | a zero fhr_inc raises, and only a zero one does |
| SeriesByLead.FhrRangeVisits | ush/series_by_lead.py:89 | with a positive step the loop visits fhr_beg, then every fhr_inc, never past fhr_end, ending at the last hour not past it |
| SeriesByLead.CurFhrDigits | ush/series_by_lead.py:90 | for 0 ≤ fhr ≤ 999, cur_fhr is exactly three digits whose value is fhr |
| SeriesByLead.CurFhrInjective | ush/series_by_lead.py:90 | different hours in 0..999 get different names |
| Text.PaddedDigits | ush/series_by_lead.py:90 | zero-filling `str(n)` to w places, for n < 10^w, gives w digits that denote n |
| SeriesByLead.ManifestsDistinct | ush/series_by_lead.py:103-112 | the forecast and analysis manifests of an hour are different files |
| SeriesPatterns.TileHourLast | ush/series_by_lead.py:535-538 | the hour is None iff no `<TYPE>_TILE_Fddd` occurs on the first line; otherwise it is the digits of the last occurrence |
| SeriesPatterns.TileHourOfName | ush/series_by_lead.py:535-541 | a one-line name with the marker and three digits, and no later marker followed by three digits, yields exactly those digits |
| SeriesByLead.GetFiles | ush/series_by_lead.py:502-548 | the walk loop returns TileFiles of the walk |
| SeriesByLead.TileFilesMember | ush/series_by_lead.py:527-545 | a path is returned iff it is the join of root and name of a walked file that passes filename_regex and whose tile hour is cur_fhr |
| SeriesByLead.TileFilesAppend | ush/series_by_lead.py:527-545 | the selection keeps walk order |
| SeriesByLead.FirstUnmatchedSpec | ush/series_by_lead.py:448-454 | the first tile failing type_regex is found: all before it match and it does not; None iff all match |
| SeriesByLead.RetrieveFhrTiles | ush/series_by_lead.py:431-470 | the loop exits at the first unmatched tile, and otherwise returns each tile followed by a newline, in order |
| SeriesByLead.ManifestAppend | ush/series_by_lead.py:466-467 | the manifest of concatenated tile lists is the concatenation of their manifests |
| SeriesByLead.ManifestLines | ush/series_by_lead.py:444-467 | reading the manifest back line by line gives exactly the tiles, when no tile holds a newline |
| SeriesByLead.Appended | ush/series_by_lead.py:115-125 | append mode: the file's content is its previous content (empty if new) followed by the text; other files are unchanged |
| SeriesByLead.AppendedOnly | ush/series_by_lead.py:115-125 | an append keeps every file's previous content as a prefix |
| SeriesByLead.SeriesRun.AppendManifest | ush/series_by_lead.py:116-117 | the write leaves exactly Appended of the files before it |
| SeriesByLead.FhrStepManifests | ush/series_by_lead.py:99-125 | an exit while retrieving tiles leaves every file unchanged; otherwise both manifests grow by their tile texts and no other file changes |
| SeriesPatterns.SplitVarNone | ush/series_by_lead.py:140-142 | `(.*)/(.*)` fails iff the first line of the variable has no `/` |
| SeriesPatterns.SplitVarParts | ush/series_by_lead.py:140-142 | the greedy split is at the last `/` of the first line: name + `/` + level is that line and the level has no `/` |
| SeriesPatterns.SplitVarJoin | ush/series_by_lead.py:140-142 | a name and a slash-free level joined by `/` split back into the two |
| SeriesByLead.VarsSpecStop | ush/series_by_lead.py:136-142 | the variable loop stops exactly at the first variable without a `/` |
| SeriesByLead.VarsSpecManifests | ush/series_by_lead.py:136-153 | the variable loop writes no file |
| SeriesByLead.VarsSpecPrefix | ush/series_by_lead.py:136-153 | the variable loop adds at most one command per variable and keeps the earlier ones |
| SeriesByLead.VarsSpecCommands | ush/series_by_lead.py:136-153 | when no variable stops the loop, the commands added are VarCommands of the list |
| SeriesByLead.VarCommandsEach | ush/series_by_lead.py:136-153 | when all variables split, there is one command per variable, the k-th for the k-th variable |
| SeriesByLead.VarsSpecEnviron | ush/series_by_lead.py:140-144 | after a completed loop, NAME and LEVEL hold the last variable's name and level |
| SeriesByLead.CommandLineNested | ush/series_by_lead.py:151-152 | the command is exe, fcst, obs, config and out params with one space between each |
| SeriesByLead.CommandLineTokens | ush/series_by_lead.py:128-152 | split on spaces, the command gives exe, `-fcst`, file, `-obs`, file, `-config`, file, `-out`, file, when no part holds a space |
| SeriesByLead.SeriesRun.ProcessVars | ush/series_by_lead.py:136-153 | the inner loop leaves exactly VarsSpec of the state before it |
| SeriesByLead.SeriesRun.ProcessFhr | ush/series_by_lead.py:89-153 | one forecast-hour iteration leaves exactly FhrStep of the state before it |
| SeriesByLead.FhrStepAppendOnly | ush/series_by_lead.py:89-153 | one hour only appends to files, keeps earlier commands, and when it does not stop adds one command per variable |
| SeriesByLead.HourStepProperties | ush/series_by_lead.py:89-153 | the hour step, as a function of state and hour, only appends and adds one command per variable |
| SeriesByLead.LeadLoopAppendOnly | ush/series_by_lead.py:89 | a loop of steps that only append only appends, whatever the hours |
| SeriesByLead.LeadLoopCommandCount | ush/series_by_lead.py:89 | a completed loop of steps that add m commands each adds hours × m commands |
| SeriesByLead.LeadSpecAppendOnly | ush/series_by_lead.py:89-153 | the whole run never truncates a manifest or drops a command; a completed run with a positive step assembles hours × variables commands |
| SeriesByLead.SeriesRun.AnalysisByLeadTime | ush/series_by_lead.py:89-153 | the forecast-hour loop leaves exactly LeadSpec of the state before it |
| SeriesPatterns.VarNcMatchSpec | ush/series_by_lead.py:342-346 | the scanner for `.*series_F[0-9]{3}_<var>_[0-9a-zA-Z]+.*nc` accepts exactly the names with such a match on their first line |
| SeriesPatterns.VarNcNamed | ush/series_by_lead.py:342-346 | a name built as `…series_F<hhh>_<var>_<level>….nc` matches its variable |
| SeriesByLead.GetVarNcFiles | ush/series_by_lead.py:324-350 | the loop returns VarNcFiles of the list |
| SeriesByLead.VarNcFilesMember | ush/series_by_lead.py:344-348 | a name is kept iff it is in the list and matches the variable's pattern |
| SeriesByLead.VarNcFilesAppend | ush/series_by_lead.py:344-348 | the filter keeps list order |
| SeriesByLead.FindMatchingTile | ush/series_by_lead.py:473-498 | the pairing is defined iff the FCST→ANLY name is among the analysis tiles, and is then that name |
| SeriesPatterns.NoFcstLeft | ush/series_by_lead.py:493 | after the substitution no FCST is left |
| SeriesPatterns.ReplaceFcstIdentity | ush/series_by_lead.py:493 | the substitution changes nothing iff the name holds no FCST |
| SeriesPatterns.ReplaceFcstFront | ush/series_by_lead.py:493 | the first FCST becomes ANLY, and the rest is substituted in turn |
| SeriesByLead.MatchingTileName | ush/series_by_lead.py:493-498 | a paired name has the forecast name's length and no FCST; a name with no FCST pairs only with itself |
| SeriesByLead.MatchingTileOneFcst | ush/series_by_lead.py:493-498 | `<pre>FCST<post>` with one FCST pairs with `<pre>ANLY<post>` when that tile exists |
| SeriesPatterns.PlotNames | ush/series_by_lead.py:201-208 | `<stem>.nc` becomes `<stem>_<stat>.ps`, and that becomes `<stem>_<stat>.png` |
| SeriesPatterns.PlotNamesNewline | ush/series_by_lead.py:204-208 | `$` also matches before a final newline, so `<stem>.nc\n` is renamed the same way with the newline kept |
| SeriesPatterns.PlotNamesUnchanged | ush/series_by_lead.py:204-208 | a name without the `.nc` and `.ps` suffixes is left unchanged by both renames |

## Left out

- `get_min_max` and the plotting tail of `analysis_by_lead_time` (ush/series_by_lead.py:157-231, except the two renames): floating-point values scraped from `ncdump` output and shell commands. Only the `.ps`/`.png` names are modelled.
- Filesystem and process side effects: `cleanup_lead_ascii`, `cleanup_min_max_tempfiles`, `retrieve_nc_files`, `util.mkdir_p`, `util.check_for_tiles`, `os.remove`, logging. `os.system` is commented out in the source, so a command is only assembled. The model records it as a `SeriesCall` value, and `CommandLine` gives its text.
- `sys.exit()` and the exceptions the loop can raise (a zero step in `range`; `match.group` on a variable with no `/`): each ends the run with a `Stop` value.
- The `IOError` branch of the manifest writes: every write succeeds in this model.
- The tile and directory arguments (`tile_dir`, `proj_dir`): the walk is an input. The same walk is given to both `get_files` calls of one hour, and to every hour.
- The swapped `cur_fhr`/`out_dir` arguments of `retrieve_fhr_tiles`: as passed, they only feed a path the function never uses, so the parameters are dropped.
- The regular-expression engine: every fixed pattern is an explicit predicate. In `get_var_ncfiles` the variable name is treated as literal text. Regex metacharacters in a variable name are not modelled. Replacement strings are treated as literal text, so backslashes in a statistic name are not modelled.
- `re.match` in `retrieve_fhr_tiles` and `get_files` uses the configured regexes. Each regex is a collaborator that gives the matched text or nothing.
- The float `GRID_DIAG_REGRID_VLD_THRESH` is carried as its `repr` text. It is unset when that text is `-9999.0`.
- MISSING_DATA_VALUE is taken as -9999. `met_util` is not part of this model.
- The parent `RuntimeFreqWrapper`. Its `create_c_dict`, `set_environment_variables` and `get_files_from_time` are not part of this model.
- `add_env_var` is modelled as a map update.
- `clear()` is modelled as emptying `infiles` and `args`.
- `build()` is modelled as recording the command and the environment.
- `get_output_path()` is modelled as reading the path that `find_and_check_output_file` stored.
- The c_dict entries that nothing here reads (`ALLOW_MULTIPLE_FILES`, `INPUT_DIR`, `OUTPUT_DIR`, `OUTPUT_TEMPLATE`) are not fields of `CDict`.
- `ti_get_seconds_from_lead` is a parameter. Its `None` result renders as `None` in the list-file name, as a Python f-string would.
- `strftime('%Y')` is taken as four zero-padded digits.
- SeriesByLead.FhrRangeVisits: only positive steps are stated. A negative `fhr_inc` runs the range downwards, as `RangeFrom` and `RangeBounds` state, but no closed statement about the hours visited is made for it.
- `cleanup_lead_ascii` (ush/series_by_lead.py:84) runs before the forecast-hour loop and is meant to remove the FCST and ANLY manifests of earlier runs. It is not modelled, so the starting `manifests` map of `SeriesByLead.SeriesRun` (its constructor's `files`) stands for what remains after that cleanup. The manifests are opened in append mode (ush/series_by_lead.py:116, 122), and each forecast hour appends once to its own two manifests (`SeriesByLead.Appended`, `SeriesByLead.FhrStepManifests`).
- GridDiag.CreateCDict: the `log_error` call on an empty GRID_DIAG_CONFIG_FILE (metplus/wrappers/grid_diag_wrapper.py:42-43) belongs to the parent class, which is not part of this model. It is reported only as `configFileError`, and whatever it does to `isOK` is not modelled, so `isOK` here reflects only the width and vld_thresh checks.
