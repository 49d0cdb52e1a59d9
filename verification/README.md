# ngcloud in Dafny

ngcloud builds HTML reports for next-generation-sequencing pipelines. Each
stage of a report reads the raw results the pipeline left on disk and fills a
`result_info` mapping that Jinja2 templates then render. The companion package
ngparser reads a job folder with the same conventions. This project models the
pure, sequential parts of both packages and of the example pipelines shipped
with them:

- **The FastQC reader of the Tuxedo QC stage.** It turns a `fastqc_data.txt`
  into an ordered map from module description to status. It also collects the
  rows of the "Overrepresented sequences" module. The outer and inner loops
  share one file iterator, so the inner loop hides the lines it consumes from
  the outer loop. The reader is modelled as a recursion over the lines not yet
  yielded (`TuxedoQc`). FastQC's file layout is rendered by `FastqcFormat`,
  which is the reader's partner: reading a rendered file gives every module's
  status and every row back.
- **The QC stages' `parse` methods.** The Tuxedo stage (`TuxedoStages`) builds
  the navigation table plus one summary per sample, keyed by the sample's full
  name. The example `NewQCStage` (`NewQc`) keeps only module statuses.
- **Samples and jobs.**
  - ngcloud's `Sample` validates `pair_end` and `stranded` and generates
    `full_name`. Its `JobInfo` reads id, type and sample list from
    already-parsed YAML metadata (`NgcloudInfo`).
  - ngparser's versions check bool-or-None. They take the job's id and type
    from a folder name matching `^job_(\d+)_(\w+)$` (`NgparserInfo`,
    `NgparserUtil`).
- **ngcloud's utilities** (`NgcloudUtil`): the bool-or-None validator,
  `strify_path`, and `discover_file_by_patterns`, with `Path.glob` as an
  abstract function.
- **ngparser's `StageResult`** and its `all_samples` generator
  (`NgparserParser`).
- **The mapping-rate extractor** of `examples/my_first_pipe` (`MyPipe`).
- **The template and static search-path lists** (`SearchPaths`). Stage and
  report classes declare these lists. Python lists are heap objects, so the
  difference between a `[:]` copy (next_tuxedo, newqc) and a shared list
  extended in place (gatk) is modelled with a small class.

The supporting modules model the Python behaviour the source relies on:

- `Results`: exceptions as `Result`/`Outcome` values.
- `PyValues`: dynamically typed values, truthiness, and `==` across bool and int.
- `Text`: `str` methods.
- `Paths`: `pathlib.PurePosixPath` parsing and printing.
- `OrderedDicts`: `collections.OrderedDict`.
- `PyOps`: iteration, subscripting, `next(iter(d.items()))` and `**kwargs` binding.

The loops that read the Overrepresented section and the parse methods that
use it take a flag. `false` gives the code as written; `true` gives the
corrected section loop described under Findings.

## Model

| member | source | states |
|---|---|---|
| TuxedoQc.HeaderBody | ngcloud/pipe/tuxedo.py:129 | `line.rstrip()[2:]` is what remains of the right-stripped line after its ">>" prefix |
| TuxedoQc.SplitHeader | ngcloud/pipe/tuxedo.py:129 | a header unpacks exactly when its body holds a tab; it splits at the LAST tab, so the status holds no tab and the description may; the stripped line is ">>" + description + tab + status; with no tab the unpack raises ValueError |
| TuxedoQc.ToOverSeq | ngcloud/pipe/tuxedo.py:134-137 | a row becomes an OverSeq exactly when its stripped text has four tab fields, which joined give the text back; any other field count raises TypeError naming that count |
| TuxedoQc.RowOf | ngcloud/pipe/tuxedo.py:134-137 | a "#Seq" line contributes nothing; any other line contributes exactly its own OverSeq, or fails with ToOverSeq's error |
| TuxedoQc.Section | ngcloud/pipe/tuxedo.py:132-139 | the inner loop as written consumes at least the first line and the closing line, and hands back a suffix of the lines to the outer loop |
| TuxedoQc.SectionCorrected | ngcloud/pipe/tuxedo.py:132-139 | the corrected inner loop consumes at least the closing line and hands back a suffix of the lines |
| TuxedoQc.ScanPasses | ngcloud/pipe/tuxedo.py:125-128 | a line that is not a module header (">>END_MODULE" included) changes neither qc_info nor over_seq |
| TuxedoQc.ScanPlainHeader | ngcloud/pipe/tuxedo.py:128-130 | an ordinary module header stores its status under its description, OrderedDict-style, and the loop moves to the next line |
| TuxedoQc.ScanOverrepresentedHeader | ngcloud/pipe/tuxedo.py:129-139 | at the "Overrepresented sequences" header the status is stored and the outer loop resumes exactly where the inner loop stopped, with the inner loop's rows |
| TuxedoQc.ScanSectionFails | ngcloud/pipe/tuxedo.py:131-139 | an exception in the inner loop propagates out of read_fastqc_data |
| TuxedoQc.SectionClosed | ngcloud/pipe/tuxedo.py:132-139 | a section closed at line e yields the rows of the lines before e, in order, the first line included whatever it is; the outer loop resumes just after the ">>END_MODULE" line |
| TuxedoQc.SectionUnclosed | ngcloud/pipe/tuxedo.py:132-139 | a section without a closing line fails with its first invalid row, or with StopIteration when the file runs out |
| TuxedoQc.EmptySectionFails | ngcloud/pipe/tuxedo.py:132-137 | a header directly followed by ">>END_MODULE" fails with a one-field OverSeq TypeError |
| TuxedoQc.ClosingLineIsNoRow | ngcloud/pipe/tuxedo.py:134-136 | the closing line, converted as a row, has one field |
| TuxedoQc.HeaderInsideSectionIsRow | ngcloud/pipe/tuxedo.py:125-138 | a ">>" line inside the section is read as a row and never reaches the outer loop, because both loops share one iterator |
| TuxedoQc.EmptySectionCloses | ngcloud/pipe/tuxedo.py:132-139 | the corrected inner loop closes a module with no rows and returns the remaining lines |
| TuxedoQc.SectionAgrees | ngcloud/pipe/tuxedo.py:132-139 | the corrected and as-written inner loops agree whenever the line after the header is not ">>END_MODULE" |
| TuxedoQc.Scan | ngcloud/pipe/tuxedo.py:125-139 | a successful reading keeps the statuses it started with as a prefix of its keys, in order, and keeps the keys distinct |
| TuxedoQc.ScanWithoutHeaders | ngcloud/pipe/tuxedo.py:125-128 | lines none of which is a module header leave qc_info and over_seq as they were |
| TuxedoQc.ReadFastqcData | ngcloud/pipe/tuxedo.py:118-140 | a successful reading lists each module description once |
| TuxedoQc.ReadFastqcDataCorrected | ngcloud/pipe/tuxedo.py:118-140 | the corrected reader also lists each module description once |
| FastqcFormat.ReadRenderedCorrected | ngcloud/pipe/tuxedo.py:118-140 | reading any well-formed FastQC file with the corrected loop gives each module's status keyed by description in file order, and every overrepresented row in order |
| FastqcFormat.ReadRenderedAsWritten | ngcloud/pipe/tuxedo.py:118-140 | the reader as written gives the same result on files whose Overrepresented module has rows |
| FastqcFormat.EmptyOverrepresentedModule | ngcloud/pipe/tuxedo.py:131-139 | a file whose Overrepresented module is empty makes the reader as written fail; the corrected reader records the status and no rows |
| TuxedoStages.BaseParse | ngcloud/pipe/tuxedo.py:67-73 | stage_mapping has four entries, named summary, qc, tophat and cufflinks in that order, and qc links to qc.html |
| TuxedoStages.ReadSampleData | ngcloud/pipe/tuxedo.py:122-123 | a sample whose fastqc_data.txt is missing fails when the file is opened |
| TuxedoStages.ParseQcStage | ngcloud/pipe/tuxedo.py:142-154 | parse succeeds exactly when every sample's file reads, and otherwise fails with the first sample's error; qc_info and over_seq have one entry per full name, each holding that sample's reading; the mapping and the three FastQC tables are published unchanged |
| TuxedoStages.TablesPartitionModules | ngcloud/pipe/tuxedo.py:97-116 | no module is both in FASTQC_NOFILE and FASTQC_FILENAME; "Overrepresented sequences" has no plot; the glyph table covers pass, warn and fail |
| NewQc.SimpleFailsAtFirstMalformed | examples/new_qc_stage/newqc.py:51-56 | the simple reader fails exactly when some header has no tab, and then with the first such header |
| NewQc.ScanSimpleKeepsKeys | examples/new_qc_stage/newqc.py:51-56 | a successful loop keeps the keys it started with as a prefix, in order, and keeps them distinct |
| NewQc.ReadFastqcDataSimple | examples/new_qc_stage/newqc.py:47-60 | a successful reading lists each module description once |
| NewQc.ScanSimpleAppend | examples/new_qc_stage/newqc.py:51-56 | reading a + b reads a, then continues on b from that state |
| NewQc.SimpleStatusIsLast | examples/new_qc_stage/newqc.py:48-56 | each description maps to the status of its LAST header, and the keys are the descriptions in order of FIRST appearance |
| NewQc.AgreesWithTuxedoReader | examples/new_qc_stage/newqc.py:47-60 | on files without an Overrepresented header, the simple reader records exactly what the Tuxedo reader does |
| NewQc.NonHeadersIgnored | examples/new_qc_stage/newqc.py:51-54 | lines not starting with ">>", overrepresented rows among them, change nothing |
| NewQc.ReadSampleSimple | examples/new_qc_stage/newqc.py:49-50 | a sample whose file is missing fails when the file is opened |
| NewQc.ParseNewQcStage | examples/new_qc_stage/newqc.py:62-74 | parse succeeds exactly when every sample reads; qc_info has one entry per full name holding its reading; stage_mapping is the single qc/newqc.html link; the three tables are published unchanged |
| MyPipe.NoOverallKeepsRate | examples/my_first_pipe/mypipe.py:21-24 | with no "Overall" line the rate keeps its value |
| MyPipe.LastOverallWins | examples/my_first_pipe/mypipe.py:21-24 | the last line starting with "Overall" decides the rate |
| MyPipe.MappedRateSpec | examples/my_first_pipe/mypipe.py:19-24 | mapped_rate is "(Unknown)" when no line starts with "Overall", and otherwise the value of the last such line |
| MyPipe.RateOf | examples/my_first_pipe/mypipe.py:24 | the value is the text after the last ": " of the stripped line, holds no ": ", and is the whole stripped line exactly when that holds no ": " |
| MyPipe.ScanSummary | examples/my_first_pipe/mypipe.py:22-24 | the loop ends with the starting rate or with the value some "Overall" line gives |
| MyPipe.MappedRate | examples/my_first_pipe/mypipe.py:19-24 | mapped_rate is "(Unknown)" or the rate of some line starting with "Overall" |
| MyPipe.IndentedLinesIgnored | examples/my_first_pipe/mypipe.py:23 | lines with leading whitespace never match, so a summary of indented lines leaves the rate unknown |
| MyPipe.ParseMyStage | examples/my_first_pipe/mypipe.py:15-26 | a summary that cannot be opened raises; otherwise parse writes only mapped_rate, equal to the rate read |
| MyPipe.PlaceholderOverwritten | examples/my_first_pipe/mypipe.py:16-26 | the "50%" placeholder never survives: the published rate is "(Unknown)" or the value of the last "Overall" line |
| NgcloudUtil.ValBoolOrNone | ngcloud/util.py:123-136 | a failure is a ValueError naming the parameter |
| NgcloudUtil.ValBoolOrNoneAccepts | ngcloud/util.py:133 | exactly True, False and None pass |
| NgcloudUtil.ValBoolOrNoneRejectsInts | ngcloud/util.py:133-136 | integers fail, although Python's == equates 0 with False |
| NgcloudUtil.StrifyPath | ngcloud/util.py:101-120 | a str is returned unchanged, a Path always converts, and anything else raises ValueError |
| NgcloudUtil.StrifyPathRoundTrip | ngcloud/util.py:113-114 | the POSIX string of a Path parses back to that Path |
| NgcloudUtil.StrifyPathExample | ngcloud/util.py:107-108 | Path('ngcloud') / 'hi.py' becomes "ngcloud/hi.py" |
| NgcloudUtil.GlobOne | ngcloud/util.py:89 | `path_like.glob(pattern)` raises AttributeError for a path_like that is not a Path, ValueError for a falsy pattern and, as pathlib 3.12 does, TypeError for any pattern that is not a str, a Path included; otherwise the str pattern is globbed |
| NgcloudUtil.GlobEach | ngcloud/util.py:86-90 | the loop succeeds exactly when every pattern's glob does, and then gives all matches, pattern by pattern, in order; otherwise it raises the first failing pattern's exception |
| NgcloudUtil.DiscoverFileByPatterns | ngcloud/util.py:86-99 | a non-iterable argument raises TypeError; a successful loop's matches are returned; an exception other than TypeError (AttributeError, ValueError) escapes unchanged; a TypeError is re-raised for anything but a str, so a list of Path patterns raises TypeError; a str path_like with any pattern raises AttributeError |
| NgcloudUtil.PathPatternRejected | ngcloud/util.py:89-99 | a list whose first pattern is a Path, under a Path root, raises TypeError("Unexpect file_patterns") |
| NgcloudUtil.DocstringExampleRaises | ngcloud/util.py:74 | the docstring's call with the str "report" raises AttributeError whatever the file system holds |
| NgcloudUtil.DiscoverListConcatenates | ngcloud/util.py:86-90 | under a Path, a list of non-empty str patterns yields the concatenation of each pattern's matches, in pattern order |
| NgcloudUtil.StrPatternsAreCharacters | ngcloud/util.py:86-93 | a str argument is globbed one character at a time, as the list of its characters would be, whenever glob raises no TypeError |
| NgcloudUtil.SingleCharacterPattern | ngcloud/util.py:55-90 | the default pattern "*" is globbed whole |
| NgcloudUtil.DiscoverIntended | ngcloud/util.py:55-99 | the corrected discovery agrees with the code on a Path and a non-str argument, and globs a non-empty str pattern whole under the Path a str path_like names |
| NgcloudUtil.StrIsOnePattern | ngcloud/util.py:91-93 | in the corrected discovery a str is globbed as the one-element list holding it |
| NgcloudUtil.DoubleStarSplit | ngcloud/util.py:74-93 | with a glob that echoes its pattern, "**" is globbed as "*" twice as written, and whole when corrected |
| NgcloudUtil.DocstringExampleIntended | ngcloud/util.py:74-77 | the corrected discovery of the docstring's call globs "**/_*.html" whole under Path('report') |
| NgparserUtil.ValBoolOrNone | ngparser/util.py:37-50 | exactly True, False and None pass; a failure is a ValueError naming the parameter |
| NgparserUtil.OutcomeIgnoresName | ngparser/util.py:47-50 | whether a value passes does not depend on the parameter name, which only appears in the message |
| NgcloudInfo.ValPairEnd | ngcloud/info.py:77-82 | a rejected pair_end raises ValueError showing the value |
| NgcloudInfo.ValPairEndAccepts | ngcloud/info.py:79 | the accepted values are 'R1', 'R2', False, None and, through ==, the integer 0 |
| NgcloudInfo.GenFullName | ngcloud/info.py:71-75 | 'R1' and 'R2' are appended after an underscore; any other accepted pair_end leaves the bare name |
| NgcloudInfo.NewSample | ngcloud/info.py:51-61 | a Sample is built exactly when both checks pass, pair_end checked first; each failure raises its own error; the fields hold the arguments and the generated full name |
| NgcloudInfo.FullNameExample | ngcloud/info.py:27-41 | sample 5566's first read has full name '5566_R1' |
| NgcloudInfo.PairedReadsDistinct | ngcloud/info.py:27-41 | the two reads of a pair share a name but have distinct full names |
| NgcloudInfo.FullNameOfUnpaired | ngcloud/info.py:71-75 | the full name equals the name exactly when pair_end is falsy |
| NgcloudInfo.SampleFromEntry | ngcloud/info.py:121-127 | an entry gives a Sample exactly when it is a non-empty mapping whose first value binds as keyword options that Sample accepts; the Sample is the one `Sample(name, **info)` builds, full name included; a non-mapping or empty entry raises as `next(iter(sample.items()))` does |
| NgcloudInfo.ParseSampleList | ngcloud/info.py:118-129 | succeeds exactly when sample_list is present and iterable and every entry gives a Sample; then one Sample per entry, in order; otherwise the first failing entry's exception, or the lookup's or iteration's |
| NgcloudInfo.NewJobInfo | ngcloud/info.py:100-111 | succeeds exactly when job_id, job_type and the sample list all read; id and type are the metadata's values and sample_list is the parsed list; a missing key raises KeyError for the first one missing; a failing sample list raises its own exception |
| NgparserInfo.DigitRun | ngparser/info.py:67 | the length of the maximal run of leading ASCII digits |
| NgparserInfo.MatchFolderName | ngparser/info.py:66-68 | every match gives a non-empty digit id and a non-empty word-character type, and the name is job_ID_TYPE, possibly followed by one newline |
| NgparserInfo.MatchBody | ngparser/info.py:67 | without the `$`, a match gives valid groups whose folder name is exactly the text matched |
| NgparserInfo.MatchFolderNameComplete | ngparser/info.py:66-68 | every such name matches, with or without a final newline, and yields back its id and type |
| NgparserInfo.FolderNameInjective | ngparser/info.py:67 | distinct (id, type) pairs give distinct folder names, because the split after the digit run is unique |
| NgparserInfo.ParseJobFolderName | ngparser/info.py:84-90 | succeeds exactly when the folder's name matches and the folder is a directory, returning the match's groups |
| NgparserInfo.NewSample | ngparser/info.py:34-42 | a Sample is built exactly when pair_end and stranded are each bool or None, pair_end checked first |
| NgparserInfo.SampleFromEntry | ngparser/info.py:95-98 | an entry gives a Sample exactly when it is a non-empty mapping whose first value binds as keyword options that Sample accepts; the Sample is the one `Sample(name, **info)` builds |
| NgparserInfo.ParseSampleList | ngparser/info.py:92-100 | succeeds exactly when sample_list is present and iterable and every entry gives a Sample; then one Sample per entry, in order; otherwise the first failing exception |
| NgparserInfo.NewJobInfo | ngparser/info.py:70-78 | succeeds exactly when the folder is accepted and the sample list reads; a bad folder fails before the metadata is consulted; id and type come from the folder name and sample_list is the parsed list |
| NgparserParser.NewStageResult | ngparser/_parser.py:9-15 | a Path root is stored as given and a str root as `Path(s)`; anything else raises TypeError; the sample_list argument is ignored and the stored list is empty |
| NgparserParser.StrAndPathRootsAgree | ngparser/_parser.py:12-15 | giving the root as a Path's string form stores that same Path |
| NgparserParser.StrRootNormalised | ngparser/_parser.py:12-13 | the str root "a//./b" is stored as Path('a/b') |
| NgparserParser.NamesAsWrittenAppend | ngparser/_parser.py:17-23 | names follow the sample list's order |
| NgparserParser.NamesAsWritten | ngparser/_parser.py:17-23 | the number of names is 2 per paired sample plus 1 per unpaired sample |
| NgparserParser.NamesIntended | ngparser/_parser.py:17-23 | the corrected generator yields as many names as the one as written |
| NgparserParser.NamesIntendedAppend | ngparser/_parser.py:17-23 | the corrected generator's names follow the sample list's order |
| NgparserParser.PairedSampleNames | ngparser/_parser.py:19-21 | a paired sample yields name_R1 then name_R2, in both generators |
| NgparserParser.UnpairedSampleYieldsLiteral | ngparser/_parser.py:22-23 | an unpaired sample yields the unformatted "%s", unlike the intended generator |
| NgparserParser.IntendedSampleNames | ngparser/_parser.py:17-23 | the corrected generator yields name_R1 and name_R2 for a paired sample and the bare name for an unpaired one |
| NgparserParser.AsWrittenDiffersOnlyByLiteral | ngparser/_parser.py:17-23 | the two generators agree name by name except where the one as written yields "%s" |
| NgparserParser.FreshStageResultYieldsNothing | ngparser/_parser.py:10-11 | a freshly constructed StageResult yields no names |
| OrderedDicts.Put | ngcloud/pipe/tuxedo.py:130 | `qc_info[desc] = status` sets that key, leaves the other keys unchanged, keeps an existing key in place and appends a new key |
| OrderedDicts.PutNew | ngcloud/pipe/tuxedo.py:130 | inserting a new key appends the pair |
| OrderedDicts.PutKeepsDistinct | ngcloud/pipe/tuxedo.py:130 | assigning a key keeps the keys distinct |
| Text.RSplitLast | ngcloud/pipe/tuxedo.py:129 | `rsplit('\t', 1)` unpacks exactly when a tab is present; the two parts around the LAST tab rebuild the string |
| Text.Split | ngcloud/pipe/tuxedo.py:136 | `split('\t')` gives fields without the separator that join back to the string |
| Text.SplitJoin | ngcloud/pipe/tuxedo.py:136 | splitting undoes joining fields that hold no separator |
| Text.RStrip | ngcloud/pipe/tuxedo.py:129 | `rstrip()` removes exactly the trailing whitespace |
| Text.LastSegmentSpec | examples/my_first_pipe/mypipe.py:24 | `split(sep)[-1]` is the separator-free tail after the last separator, or the whole string when there is none |
| Paths.PathOfAsPosix | ngcloud/util.py:113-114 | parsing a well-formed Path's POSIX form gives that Path back |
| Paths.AsPosix | ngcloud/util.py:113 | the POSIX form of a path is never empty and starts with the anchor; a relative path's never starts with "/" |
| Paths.PathOf | ngparser/_parser.py:13 | `Path(s)` is well formed |
| Paths.Name | ngparser/info.py:85 | `path.name` is the last component, or "" for none |
| PyOps.Iterate | ngcloud/util.py:88 | a list yields its items, a str its characters, a dict its keys; anything else is not iterable |
| PyOps.Subscript | ngcloud/info.py:106-107 | `raw[key]` is the key's value, KeyError for a missing key, TypeError for a non-mapping |
| PyOps.FirstItem | ngcloud/info.py:122 | `next(iter(d.items()))` is the first pair; an empty mapping raises StopIteration |
| PyOps.BindKeywords | ngcloud/info.py:127 | `Sample(name, **info)` binds each keyword to its value or None, and an unknown key raises TypeError |
| Results.MapUntilError | ngcloud/info.py:121-129 | the loop appends one result per entry in order and stops at the first exception |
| SearchPaths.LoadNextTuxedo | examples/next_tuxedo/next_tuxedo.py:9-18 | TophatStage's list is Path('template') followed by the parent's list; static_roots is the parent's list followed by '../../template_dev/tuxedo'; the stage classes are Index, QC and the local Tophat; both parent lists are unchanged |
| SearchPaths.LoadNewQcFindPaths | examples/new_qc_stage/newqc.py:13-17 | NewQCStage's list is Path('report', 'templates') followed by QCStage's list, which is unchanged |
| SearchPaths.LoadGatk | examples/gatk/gatk.py:13-41 | QCStage's list is GATKBaseStage's own list object; after the append every stage class GATKReport lists sees three entries ending with the tuxedo templates; tuxedo's list is unchanged |

## Left out

- File system: `open`, `abspath`, `expanduser`, `is_dir`, copying, and
  `Path.glob` matching. File contents are given as lines (`seq<string>`) or
  as an absent file. Whether a path is a directory is a parameter. `glob` is
  an abstract function. The file-copying helpers of ngcloud/util.py are not
  part of this model.
- YAML loading: metadata enters as an already-parsed value. Mapping keys are
  strings; floats and non-string keys are not modelled.
- Jinja2 rendering and template loading; the `Stage`/`Report` base classes,
  whose code is not part of this model; `embed_result_*` copying; the
  `QCOnly` report and every `main`/CLI entry point.
- The path constants of ngcloud/pipe/__init__.py and `Path(__file__).parent`
  are the `Roots` parameters of `SearchPaths`. ngcloud/pipe/tuxedo.py:6
  imports `_get_builtin_report_root`, which that `__init__.py` does not
  define, so `builtinReportRoot` is a parameter with no definition behind it.
- `GATKReport.template_config` (examples/gatk/gatk.py:35-45) only assigns two
  literal lists; they are the constants `GATK_STAGE_CLASSES` and
  `GatkStaticRoots` of `SearchPaths`.
- GlobOne: pattern handling follows pathlib of Python 3.12, which rejects a
  falsy pattern with ValueError and any non-str pattern with TypeError. Other
  versions differ on non-str patterns, and the model does not cover them.
  Python 3.5 to 3.11 index the pattern as a string: a non-empty dict raises
  KeyError(0), and a list holding "/" raises AttributeError. Both escape the
  `except TypeError` instead of reaching the fallback. Python 3.4 raises
  IndexError for a falsy pattern. Python 3.13 and later accept a Path
  pattern.
- PyValue.PyDict is a list of pairs and may hold a key twice, which a Python
  dict cannot. The model does not rule such inputs out: lookup takes the
  first pair with the key, and iteration yields the keys as listed, repeats
  included.
- `..` and symlink resolution of `abspath`; log messages; `__str__`/`__repr__`.
- Regular expressions use ASCII `\d` and `\w`, not Unicode.
- NgparserInfo.ParseJobFolderName: the folder error is not given its Python
  class. The message's `{:s}` format of a Path raises before the intended
  ValueError is built, so the model only records that it fails.
- The search-path methods of `SearchPaths` state their results with heap
  contracts (`fresh`, `old`). Stage and report classes are modelled as the
  lists they declare, not as Python classes.

## Findings

| source | as written | input that shows it | evidently intended | confidence | as-written member | corrected member |
|---|---|---|---|---|---|---|
| ngcloud/pipe/tuxedo.py:132-139 | the line after the "Overrepresented sequences" header is converted to an OverSeq before any end check | the header followed directly by ">>END_MODULE", which FastQC writes when no sequence is overrepresented: `OverSeq` receives one field and raises TypeError | an empty module closes with no rows | not executed; high | TuxedoQc.EmptySectionFails | TuxedoQc.EmptySectionCloses |
| ngparser/_parser.py:22-23 | `yield "%s"` is never formatted | an unpaired sample named "A" yields "%s" | yields "A" | not executed; high | NgparserParser.UnpairedSampleYieldsLiteral | NgparserParser.IntendedSampleNames |
| ngcloud/util.py:86-93 | a str argument is iterated character by character, so the str fallback is never reached | the pattern "**/_*.html" from the docstring is globbed as "*", "*", "/", ... | the str is one glob pattern | not executed; high | NgcloudUtil.DoubleStarSplit | NgcloudUtil.StrIsOnePattern |
| ngcloud/util.py:74-89 | `path_like.glob` is called on the argument as given, though the docstring passes a str | the docstring's `discover_file_by_patterns("report", "**/_*.html")`: a str has no `glob`, so AttributeError escapes | a str path_like names the folder `Path(s)` | not executed; medium | NgcloudUtil.DocstringExampleRaises | NgcloudUtil.DiscoverIntended |

For the first finding, `TuxedoQc.SectionCorrected` is the corrected section
loop. `FastqcFormat.ReadRenderedCorrected` proves that the reader built on it
reads every well-formed FastQC file, empty modules included.
`FastqcFormat.EmptyOverrepresentedModule` shows the whole-file failure as
written. For the second finding, `NgparserParser.NamesIntended` is the
corrected generator, and `NgparserParser.AsWrittenDiffersOnlyByLiteral`
shows that the two differ only where "%s" is yielded. For the third and
fourth, `NgcloudUtil.DiscoverIntended` is the corrected discovery;
`NgcloudUtil.DocstringExampleIntended` shows it on the docstring's call.
