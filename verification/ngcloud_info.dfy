/** ngcloud/info.py: samples with a generated full name, and the job
    description read from already-parsed `job_info.yaml` metadata. Reading
    and parsing the YAML file is not part of this model: its result is an
    input. */
module NgcloudInfo {
  import opened PyValues
  import opened Results
  import opened Paths
  import opened PyOps
  import NgcloudUtil

  /** A constructed `Sample`: the validated arguments and `full_name`. */
  datatype Sample = Sample(name: string, pairEnd: PyValue, stranded: PyValue, fullName: string)

  /** The list `_val_pair_end` tests membership in. */
  const PAIR_END_CHOICES: seq<PyValue> := [PyStr("R1"), PyStr("R2"), PyBool(false), PyNone]

  /** `Sample._val_pair_end(pair_end)`: `pair_end not in ['R1', 'R2', False, None]`
      raises ValueError. */
  function ValPairEnd(pairEnd: PyValue): (r: Outcome)
    ensures r.Fail? ==> r.error == UnexpectedPairEnd(pairEnd) && r.error.Class() == ValueErr
  {
    if PyIn(pairEnd, PAIR_END_CHOICES) then Pass else Fail(UnexpectedPairEnd(pairEnd))
  }

  /** Because `in` compares with `==` and `0 == False` in Python, the
      accepted values are the four listed ones and also the integer 0. */
  lemma ValPairEndAccepts(pairEnd: PyValue)
    ensures ValPairEnd(pairEnd).Pass? <==>
      pairEnd in {PyStr("R1"), PyStr("R2"), PyBool(false), PyNone, PyInt(0)}
  {
    if pairEnd in {PyStr("R1"), PyStr("R2"), PyBool(false), PyNone, PyInt(0)} {
      if pairEnd == PyInt(0) {
        assert PyEq(pairEnd, PAIR_END_CHOICES[2]);
      } else if pairEnd == PyStr("R1") {
        assert PyEq(pairEnd, PAIR_END_CHOICES[0]);
      } else if pairEnd == PyStr("R2") {
        assert PyEq(pairEnd, PAIR_END_CHOICES[1]);
      } else if pairEnd == PyBool(false) {
        assert PyEq(pairEnd, PAIR_END_CHOICES[2]);
      } else {
        assert PyEq(pairEnd, PAIR_END_CHOICES[3]);
      }
    }
    if pairEnd.PyBool? {
      assert pairEnd == PyBool(pairEnd.b);
    }
  }

  /** `Sample._gen_full_name()`: `name_pairEnd` when pair_end is truthy,
      otherwise the bare name. Only called on validated samples, where a
      truthy pair_end is 'R1' or 'R2'. */
  function GenFullName(name: string, pairEnd: PyValue): (r: string)
    requires ValPairEnd(pairEnd).Pass?
    ensures pairEnd == PyStr("R1") ==> r == name + "_R1"
    ensures pairEnd == PyStr("R2") ==> r == name + "_R2"
    ensures pairEnd != PyStr("R1") && pairEnd != PyStr("R2") ==> r == name
  {
    ValPairEndAccepts(pairEnd);
    if Truthy(pairEnd) then name + "_" + pairEnd.s else name
  }

  /** `Sample(name, pair_end, stranded)`: both checks run before anything
      is stored, pair_end first, so bad input yields no Sample. */
  function NewSample(name: string, pairEnd: PyValue, stranded: PyValue): (r: Result<Sample>)
    ensures r.Ok? <==> ValPairEnd(pairEnd).Pass? && (stranded.PyBool? || stranded == PyNone)
    ensures ValPairEnd(pairEnd).Fail? ==> r == Err(UnexpectedPairEnd(pairEnd))
    ensures ValPairEnd(pairEnd).Pass? && r.Err? ==> r == Err(NotBoolOrNone("stranded"))
    ensures r.Ok? ==> r.value.name == name && r.value.pairEnd == pairEnd && r.value.stranded == stranded
    ensures r.Ok? ==> r.value.fullName == GenFullName(name, pairEnd)
  {
    NgcloudUtil.ValBoolOrNoneAccepts(stranded, "stranded");
    if ValPairEnd(pairEnd).Fail? then Err(ValPairEnd(pairEnd).error)
    else if NgcloudUtil.ValBoolOrNone(stranded, "stranded").Fail? then Err(NotBoolOrNone("stranded"))
    else Ok(Sample(name, pairEnd, stranded, GenFullName(name, pairEnd)))
  }

  /** The docstring's example: sample 5566's first read is '5566_R1'. */
  lemma FullNameExample()
    ensures NewSample("5566", PyStr("R1"), PyNone) == Ok(Sample("5566", PyStr("R1"), PyNone, "5566_R1"))
  {
    ValPairEndAccepts(PyStr("R1"));
    assert GenFullName("5566", PyStr("R1")) == "5566" + "_R1";
    assert "5566" + "_R1" == "5566_R1";
  }

  /** The two reads of a pair share their name and have distinct full names. */
  lemma PairedReadsDistinct(name: string, stranded: PyValue)
    requires stranded.PyBool? || stranded == PyNone
    ensures NewSample(name, PyStr("R1"), stranded).Ok? && NewSample(name, PyStr("R2"), stranded).Ok?
    ensures NewSample(name, PyStr("R1"), stranded).value.name == NewSample(name, PyStr("R2"), stranded).value.name
    ensures NewSample(name, PyStr("R1"), stranded).value.fullName != NewSample(name, PyStr("R2"), stranded).value.fullName
  {
    ValPairEndAccepts(PyStr("R1"));
    ValPairEndAccepts(PyStr("R2"));
    var a := name + "_R1";
    var b := name + "_R2";
    assert a[|a| - 1] != b[|b| - 1];
  }

  /** An unpaired sample's full name is its name; a paired one's full name
      is longer, so it never collides with an unpaired sample of the same name. */
  lemma FullNameOfUnpaired(name: string, pairEnd: PyValue)
    requires ValPairEnd(pairEnd).Pass?
    ensures GenFullName(name, pairEnd) == name <==> !Truthy(pairEnd)
  {
    ValPairEndAccepts(pairEnd);
  }

  /** The keyword parameters of `Sample.__init__` after `name`. */
  const SAMPLE_KEYWORDS: seq<string> := ["pair_end", "stranded"]

  /** One raw entry of `sample_list`: a mapping whose first key is the
      sample name and whose value supplies the keyword arguments. */
  function SampleFromEntry(entry: PyValue): (r: Result<Sample>)
    ensures r.Ok? <==>
      && FirstItem(entry).Ok?
      && var item := FirstItem(entry).value;
         && BindKeywords(item.1, SAMPLE_KEYWORDS).Ok?
         && var args := BindKeywords(item.1, SAMPLE_KEYWORDS).value;
            NewSample(item.0, args[0], args[1]).Ok?
    ensures FirstItem(entry).Err? ==> r == Err(FirstItem(entry).error)
    ensures r.Ok? ==> entry.PyDict? && |entry.entries| > 0 && r.value.name == entry.entries[0].0
    ensures r.Ok? ==> BindKeywords(entry.entries[0].1, SAMPLE_KEYWORDS) == Ok([r.value.pairEnd, r.value.stranded])
    ensures r.Ok? ==> NewSample(r.value.name, r.value.pairEnd, r.value.stranded) == Ok(r.value)
  {
    match FirstItem(entry)
    case Err(e) => Err(e)
    case Ok(item) =>
      match BindKeywords(item.1, SAMPLE_KEYWORDS)
      case Err(e) => Err(e)
      case Ok(args) =>
        assert args == [args[0], args[1]];
        NewSample(item.0, args[0], args[1])
  }

  /** `JobInfo._parse_sample_list()`: one Sample per raw entry, in order,
      stopping at the first entry that raises. */
  function ParseSampleList(raw: PyValue): (r: Result<seq<Sample>>)
    ensures IterateKey(raw, "sample_list").Err? ==> r == Err(IterateKey(raw, "sample_list").error)
    ensures r.Ok? <==>
      && IterateKey(raw, "sample_list").Ok?
      && var entries := IterateKey(raw, "sample_list").value;
         forall i :: 0 <= i < |entries| ==> SampleFromEntry(entries[i]).Ok?
    ensures r.Ok? ==>
      var entries := IterateKey(raw, "sample_list").value;
      |r.value| == |entries| && forall i :: 0 <= i < |entries| ==> SampleFromEntry(entries[i]) == Ok(r.value[i])
    ensures r.Err? && IterateKey(raw, "sample_list").Ok? ==>
      var entries := IterateKey(raw, "sample_list").value;
      exists k :: 0 <= k < |entries| && SampleFromEntry(entries[k]) == Err(r.error)
                  && forall i :: 0 <= i < k ==> SampleFromEntry(entries[i]).Ok?
  {
    match IterateKey(raw, "sample_list")
    case Err(e) => Err(e)
    case Ok(entries) => MapUntilError(entries, SampleFromEntry)
  }

  datatype JobInfo = JobInfo(rootPath: Path, id: PyValue, jobType: PyValue, sampleList: seq<Sample>)

  /** `JobInfo(root_path)` given the resolved absolute root path and the
      parsed metadata: `id` and `type` come from the keys `job_id` and
      `job_type` (a missing key raises KeyError), then the sample list. */
  method NewJobInfo(rootPath: Path, raw: PyValue) returns (r: Result<JobInfo>)
    ensures r.Ok? ==> Subscript(raw, "job_id") == Ok(r.value.id) && Subscript(raw, "job_type") == Ok(r.value.jobType)
    ensures r.Ok? ==> r.value.rootPath == rootPath
    ensures raw.PyDict? && Lookup(raw.entries, "job_id").None? ==> r == Err(KeyError("job_id"))
    ensures raw.PyDict? && Lookup(raw.entries, "job_id").Some? && Lookup(raw.entries, "job_type").None?
            ==> r == Err(KeyError("job_type"))
    ensures !raw.PyDict? ==> r == Err(NotSubscriptable)
    ensures r.Ok? <==> Subscript(raw, "job_id").Ok? && Subscript(raw, "job_type").Ok? && ParseSampleList(raw).Ok?
    ensures r.Ok? ==> r.value.sampleList == ParseSampleList(raw).value
    ensures Subscript(raw, "job_id").Ok? && Subscript(raw, "job_type").Ok? && ParseSampleList(raw).Err?
            ==> r == Err(ParseSampleList(raw).error)
  {
    var id :- Subscript(raw, "job_id");
    var jobType :- Subscript(raw, "job_type");
    var samples :- ParseSampleList(raw);
    return Ok(JobInfo(rootPath, id, jobType, samples));
  }
}
