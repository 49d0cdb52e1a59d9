/** ngparser/info.py: the parser package's samples and job description.
    Here the job's id and type come from the job folder's name, which must
    match `^job_(\d+)_(\w+)$`. Whether the path is a directory and what the
    metadata file holds are inputs. */
module NgparserInfo {
  import opened Options
  import opened PyValues
  import opened Results
  import opened Paths
  import opened PyOps
  import opened Text
  import NgparserUtil

  /** `\d` and `\w` over ASCII. */
  predicate IsDigit(c: char) {
    '0' <= c <= '9'
  }

  predicate IsWordChar(c: char) {
    IsDigit(c) || 'a' <= c <= 'z' || 'A' <= c <= 'Z' || c == '_'
  }

  predicate AllDigits(s: string) {
    forall i :: 0 <= i < |s| ==> IsDigit(s[i])
  }

  predicate AllWordChars(s: string) {
    forall i :: 0 <= i < |s| ==> IsWordChar(s[i])
  }

  /** The named groups of a successful match. */
  datatype FolderInfo = FolderInfo(id: string, jobType: string)

  /** What the two groups can hold: `\d+` and `\w+`. */
  predicate ValidInfo(info: FolderInfo) {
    |info.id| > 0 && AllDigits(info.id) && |info.jobType| > 0 && AllWordChars(info.jobType)
  }

  /** The folder name a job with this id and type carries. */
  function FolderName(info: FolderInfo): string {
    "job_" + info.id + "_" + info.jobType
  }

  /** The length of the longest all-digit prefix of `s`. */
  function DigitRun(s: string): (k: nat)
    ensures k <= |s|
    ensures forall i :: 0 <= i < k ==> IsDigit(s[i])
    ensures k < |s| ==> !IsDigit(s[k])
  {
    if |s| == 0 || !IsDigit(s[0]) then 0 else 1 + DigitRun(s[1..])
  }

  /** `_read_folder_name(name)`, the compiled pattern's `match`. Python's
      `$` also matches just before a final newline, so every match is a
      well-formed folder name, possibly followed by one newline. */
  function MatchFolderName(name: string): (r: Option<FolderInfo>)
    ensures r.Some? ==> ValidInfo(r.value)
    ensures r.Some? ==> name == FolderName(r.value) || name == FolderName(r.value) + "\n"
  {
    if EndsWith(name, "\n") then
      assert name == name[..|name| - 1] + "\n";
      MatchBody(name[..|name| - 1])
    else MatchBody(name)
  }

  /** The pattern without its `$`: `\d+` must stop at the first
      non-digit, which must be the `_`, and `\w+` must reach the end. A
      match names the only id and type whose folder name is `body`. */
  function MatchBody(body: string): (r: Option<FolderInfo>)
    ensures r.Some? ==> ValidInfo(r.value) && body == FolderName(r.value)
  {
    if !StartsWith(body, "job_") then None
    else
      var rest := body[4..];
      var k := DigitRun(rest);
      if k == 0 || k >= |rest| || rest[k] != '_' then None
      else
        var jobType := rest[k + 1..];
        if |jobType| == 0 || !AllWordChars(jobType) then None
        else
          assert body == "job_" + rest;
          assert rest == rest[..k] + "_" + rest[k + 1..];
          Some(FolderInfo(rest[..k], jobType))
  }

  /** Every well-formed folder name matches, with or without a final
      newline, and yields back its id and type: the split after the digit
      run is the only one possible. */
  lemma MatchFolderNameComplete(info: FolderInfo)
    requires ValidInfo(info)
    ensures MatchFolderName(FolderName(info)) == Some(info)
    ensures MatchFolderName(FolderName(info) + "\n") == Some(info)
  {
    var name := FolderName(info);
    assert name[|name| - 1] == info.jobType[|info.jobType| - 1];
    assert !EndsWith(name, "\n");
    FolderNameParts(info);
    var nl := name + "\n";
    assert EndsWith(nl, "\n");
    assert nl[..|nl| - 1] == name;
  }

  lemma FolderNameParts(info: FolderInfo)
    requires ValidInfo(info)
    ensures StartsWith(FolderName(info), "job_")
    ensures DigitRun(FolderName(info)[4..]) == |info.id|
    ensures FolderName(info)[4..][|info.id|] == '_'
    ensures FolderName(info)[4..][..|info.id|] == info.id
    ensures FolderName(info)[4..][|info.id| + 1..] == info.jobType
  {
    var body := FolderName(info);
    assert body == "job_" + (info.id + "_" + info.jobType);
    assert body[..4] == "job_";
    var rest := body[4..];
    assert rest == info.id + "_" + info.jobType;
    DigitRunOfPrefix(info.id, "_" + info.jobType);
    assert rest[..|info.id|] == info.id;
    assert rest[|info.id|] == '_';
    assert rest[|info.id| + 1..] == info.jobType;
  }

  lemma {:induction false} DigitRunOfPrefix(digits: string, tail: string)
    requires AllDigits(digits)
    requires |tail| > 0 && !IsDigit(tail[0])
    ensures DigitRun(digits + tail) == |digits|
    decreases |digits|
  {
    if |digits| > 0 {
      assert (digits + tail)[1..] == digits[1..] + tail;
      DigitRunOfPrefix(digits[1..], tail);
    } else {
      assert digits + tail == tail;
    }
  }

  /** Distinct jobs have distinct folder names. */
  lemma FolderNameInjective(a: FolderInfo, b: FolderInfo)
    requires ValidInfo(a) && ValidInfo(b)
    requires FolderName(a) == FolderName(b)
    ensures a == b
  {
    MatchFolderNameComplete(a);
    MatchFolderNameComplete(b);
  }

  /** `JobInfo._parse_job_folder_name()`: the root's last component must
      match and the root must be a directory. The failure is modelled only
      as a failure: the `{:s}` format of a Path in the message raises before
      the intended ValueError is built. */
  function ParseJobFolderName(rootPath: Path, isDir: bool): (r: Result<FolderInfo>)
    ensures r.Ok? <==> MatchFolderName(Name(rootPath)).Some? && isDir
    ensures r.Ok? ==> r.value == MatchFolderName(Name(rootPath)).value && ValidInfo(r.value)
    ensures r.Err? ==> r.error == UnreadableFolder(Name(rootPath))
  {
    match MatchFolderName(Name(rootPath))
    case Some(info) =>
      if isDir then Ok(info)
      else Err(UnreadableFolder(Name(rootPath)))
    case None => Err(UnreadableFolder(Name(rootPath)))
  }

  /** A constructed parser `Sample`: no full name is generated. */
  datatype Sample = Sample(name: string, pairEnd: PyValue, stranded: PyValue)

  /** `Sample(name, pair_end, stranded)`: both must be a bool or None,
      pair_end checked first. */
  function NewSample(name: string, pairEnd: PyValue, stranded: PyValue): (r: Result<Sample>)
    ensures r.Ok? <==> (pairEnd.PyBool? || pairEnd == PyNone) && (stranded.PyBool? || stranded == PyNone)
    ensures !(pairEnd.PyBool? || pairEnd == PyNone) ==> r == Err(NotBoolOrNone("pair_end"))
    ensures (pairEnd.PyBool? || pairEnd == PyNone) && r.Err? ==> r == Err(NotBoolOrNone("stranded"))
    ensures r.Ok? ==> r.value == Sample(name, pairEnd, stranded)
  {
    if NgparserUtil.ValBoolOrNone(pairEnd, "pair_end").Fail? then Err(NotBoolOrNone("pair_end"))
    else if NgparserUtil.ValBoolOrNone(stranded, "stranded").Fail? then Err(NotBoolOrNone("stranded"))
    else Ok(Sample(name, pairEnd, stranded))
  }

  /** The keyword parameters of `Sample.__init__` after `name`. */
  const SAMPLE_KEYWORDS: seq<string> := ["pair_end", "stranded"]

  /** One raw entry: its first key names the sample, its value gives the
      keyword arguments. */
  function SampleFromEntry(entry: PyValue): (r: Result<Sample>)
    ensures r.Ok? <==>
      && FirstItem(entry).Ok?
      && var item := FirstItem(entry).value;
         && BindKeywords(item.1, SAMPLE_KEYWORDS).Ok?
         && var args := BindKeywords(item.1, SAMPLE_KEYWORDS).value;
            NewSample(item.0, args[0], args[1]).Ok?
    ensures FirstItem(entry).Err? ==> r == Err(FirstItem(entry).error)
    ensures r.Ok? ==> entry.PyDict? && |entry.entries| > 0 && r.value.name == entry.entries[0].0
    ensures r.Ok? ==> BindKeywords(entry.entries[0].1, SAMPLE_KEYWORDS) == Ok([r.value.pairEnd, r.value.stranded])
    ensures r.Ok? ==> NewSample(r.value.name, r.value.pairEnd, r.value.stranded) == Ok(r.value)
  {
    match FirstItem(entry)
    case Err(e) => Err(e)
    case Ok(item) =>
      match BindKeywords(item.1, SAMPLE_KEYWORDS)
      case Err(e) => Err(e)
      case Ok(args) =>
        assert args == [args[0], args[1]];
        NewSample(item.0, args[0], args[1])
  }

  /** `JobInfo._parse_sample_list()`: one Sample per raw entry, in order,
      stopping at the first entry that raises. */
  function ParseSampleList(raw: PyValue): (r: Result<seq<Sample>>)
    ensures IterateKey(raw, "sample_list").Err? ==> r == Err(IterateKey(raw, "sample_list").error)
    ensures r.Ok? <==>
      && IterateKey(raw, "sample_list").Ok?
      && var entries := IterateKey(raw, "sample_list").value;
         forall i :: 0 <= i < |entries| ==> SampleFromEntry(entries[i]).Ok?
    ensures r.Ok? ==>
      var entries := IterateKey(raw, "sample_list").value;
      |r.value| == |entries| && forall i :: 0 <= i < |entries| ==> SampleFromEntry(entries[i]) == Ok(r.value[i])
    ensures r.Err? && IterateKey(raw, "sample_list").Ok? ==>
      var entries := IterateKey(raw, "sample_list").value;
      exists k :: 0 <= k < |entries| && SampleFromEntry(entries[k]) == Err(r.error)
                  && forall i :: 0 <= i < k ==> SampleFromEntry(entries[i]).Ok?
  {
    match IterateKey(raw, "sample_list")
    case Err(e) => Err(e)
    case Ok(entries) => MapUntilError(entries, SampleFromEntry)
  }

  datatype JobInfo = JobInfo(rootPath: Path, id: string, jobType: string, sampleList: seq<Sample>)

  /** `JobInfo(root_path)` given the resolved absolute root path, whether it
      is a directory, and the parsed metadata. The folder name is checked
      before the metadata is consulted. */
  method NewJobInfo(rootPath: Path, isDir: bool, raw: PyValue) returns (r: Result<JobInfo>)
    ensures ParseJobFolderName(rootPath, isDir).Err? ==> r == Err(UnreadableFolder(Name(rootPath)))
    ensures r.Ok? ==> MatchFolderName(Name(rootPath)) == Some(FolderInfo(r.value.id, r.value.jobType))
    ensures r.Ok? ==> isDir && r.value.rootPath == rootPath
    ensures r.Ok? <==> ParseJobFolderName(rootPath, isDir).Ok? && ParseSampleList(raw).Ok?
    ensures r.Ok? ==> r.value.sampleList == ParseSampleList(raw).value
    ensures ParseJobFolderName(rootPath, isDir).Ok? && ParseSampleList(raw).Err? ==> r == Err(ParseSampleList(raw).error)
  {
    var info :- ParseJobFolderName(rootPath, isDir);
    var samples :- ParseSampleList(raw);
    return Ok(JobInfo(rootPath, info.id, info.jobType, samples));
  }
}
