/** ngcloud/pipe/tuxedo.py, the stages' `parse` methods: the navigation
    table every Tuxedo stage publishes, and the QC stage's per-sample FastQC
    summaries. Each sample's `fastqc_data.txt` is given by its lines, keyed
    by the sample's full name (the folder it lives in). */
module TuxedoStages {
  import opened Results
  import opened OrderedDicts
  import opened TuxedoQc
  import NgcloudInfo

  /** One `(name, page, title)` entry of `stage_mapping`. */
  datatype StageLink = StageLink(name: string, page: string, title: string)

  /** The navigation table `TuxedoBaseStage.parse` publishes. */
  const TUXEDO_STAGE_MAPPING: seq<StageLink> := [
    StageLink("summary", "index.html", "Summary"),
    StageLink("qc", "qc.html", "Quality Control"),
    StageLink("tophat", "tophat.html", "Alignment"),
    StageLink("cufflinks", "cufflinks.html", "Expression Quantification")
  ]

  /** `QCStage.FASTQC_FILENAME`: the plot file of each module that has one. */
  const FASTQC_FILENAME: map<string, string> := map[
    "Per base sequence quality" := "per_base_quality.png",
    "Per sequence quality scores" := "per_sequence_quality.png",
    "Per base sequence content" := "per_base_sequence_content.png",
    "Per base GC content" := "per_base_gc_content.png",
    "Per sequence GC content" := "per_sequence_gc_content.png",
    "Per base N content" := "per_base_n_content.png",
    "Sequence Length Distribution" := "sequence_length_distribution.png",
    "Sequence Duplication Levels" := "duplication_levels.png"
  ]

  /** `QCStage.FASTQC_NOFILE`: the modules without a plot. */
  const FASTQC_NOFILE: seq<string> := ["Basic Statistics", OVERREPRESENTED, "Kmer Content"]

  /** `QCStage.FASTQC_GLYPH`: the icon for each module status. */
  const FASTQC_GLYPH: map<string, string> := map[
    "pass" := "glyphicon-ok",
    "warn" := "glyphicon-exclamation-sign",
    "fail" := "glyphicon-remove"
  ]

  /** What a stage's `parse` leaves in `result_info`. The QC entries are
      empty for stages that publish only the navigation table. */
  datatype ResultInfo = ResultInfo(
    stageMapping: seq<StageLink>,
    qcInfo: map<string, ODict<string>>,
    overSeq: map<string, seq<OverSeq>>,
    fastqcFilename: map<string, string>,
    fastqcNofile: seq<string>,
    fastqcGlyph: map<string, string>)

  /** `TuxedoBaseStage.parse`, which IndexStage and TophatStage inherit.
      It only installs the class-level mapping, so its contract re-reads
      that literal; the per-sample work is in `ParseQcStage`. */
  function BaseParse(): (r: ResultInfo)
    ensures |r.stageMapping| == 4
    ensures forall i :: 0 <= i < 4 ==> r.stageMapping[i].name == ["summary", "qc", "tophat", "cufflinks"][i]
    ensures r.stageMapping[1] == StageLink("qc", "qc.html", "Quality Control")
    ensures r.qcInfo == map[] && r.overSeq == map[]
  {
    ResultInfo(TUXEDO_STAGE_MAPPING, map[], map[], map[], [], map[])
  }

  /** `self.read_fastqc_data(sample)` for the sample with this full name:
      opening a file that is not there fails. */
  function ReadSampleData(files: map<string, seq<string>>, fullName: string, corrected: bool): (r: Result<FastqcData>)
    ensures fullName !in files ==> r == Err(MissingFile(fullName))
    ensures fullName in files ==> r == Scan(files[fullName], NO_DATA, corrected)
  {
    if fullName in files then Scan(files[fullName], NO_DATA, corrected)
    else Err(MissingFile(fullName))
  }

  /** `QCStage.parse`: the navigation table, then one summary per sample
      keyed by its full name, in sample order; two samples with the same
      full name read the same file, so the later entry equals the earlier.
      The three FastQC tables are published unchanged. */
  method ParseQcStage(samples: seq<NgcloudInfo.Sample>, files: map<string, seq<string>>, corrected: bool)
    returns (r: Result<ResultInfo>)
    ensures r.Ok? <==> forall i :: 0 <= i < |samples| ==> ReadSampleData(files, samples[i].fullName, corrected).Ok?
    ensures r.Err? ==> exists k :: 0 <= k < |samples| && ReadSampleData(files, samples[k].fullName, corrected) == Err(r.error)
                                   && forall i :: 0 <= i < k ==> ReadSampleData(files, samples[i].fullName, corrected).Ok?
    ensures r.Ok? ==> r.value.stageMapping == TUXEDO_STAGE_MAPPING
    ensures r.Ok? ==> r.value.fastqcFilename == FASTQC_FILENAME && r.value.fastqcNofile == FASTQC_NOFILE
                      && r.value.fastqcGlyph == FASTQC_GLYPH
    ensures r.Ok? ==> r.value.qcInfo.Keys == r.value.overSeq.Keys
                      && forall name :: name in r.value.qcInfo <==> exists i :: 0 <= i < |samples| && samples[i].fullName == name
    ensures r.Ok? ==> forall i :: 0 <= i < |samples| ==>
                        && r.value.qcInfo[samples[i].fullName] == ReadSampleData(files, samples[i].fullName, corrected).value.qcInfo
                        && r.value.overSeq[samples[i].fullName] == ReadSampleData(files, samples[i].fullName, corrected).value.overSeq
  {
    var base := BaseParse();
    var qcInfo: map<string, ODict<string>> := map[];
    var overSeq: map<string, seq<OverSeq>> := map[];
    var i := 0;
    while i < |samples|
      invariant 0 <= i <= |samples|
      invariant qcInfo.Keys == overSeq.Keys
      invariant forall name :: name in qcInfo <==> exists j :: 0 <= j < i && samples[j].fullName == name
      invariant forall j :: 0 <= j < i ==> ReadSampleData(files, samples[j].fullName, corrected).Ok?
      invariant forall j :: 0 <= j < i ==>
                  && qcInfo[samples[j].fullName] == ReadSampleData(files, samples[j].fullName, corrected).value.qcInfo
                  && overSeq[samples[j].fullName] == ReadSampleData(files, samples[j].fullName, corrected).value.overSeq
    {
      var name := samples[i].fullName;
      var data := ReadSampleData(files, name, corrected);
      if data.Err? {
        return Err(data.error);
      }
      qcInfo := qcInfo[name := data.value.qcInfo];
      overSeq := overSeq[name := data.value.overSeq];
      i := i + 1;
    }
    return Ok(base.(qcInfo := qcInfo, overSeq := overSeq, fastqcFilename := FASTQC_FILENAME,
                    fastqcNofile := FASTQC_NOFILE, fastqcGlyph := FASTQC_GLYPH));
  }

  /** The plot-file table and the no-plot list are consistent: no module
      is in both, the Overrepresented module has no plot, and the glyph
      table covers the three statuses. */
  lemma TablesPartitionModules()
    ensures forall d :: d in FASTQC_NOFILE ==> d !in FASTQC_FILENAME
    ensures OVERREPRESENTED in FASTQC_NOFILE
    ensures FASTQC_GLYPH.Keys == {"pass", "warn", "fail"}
  {
  }
}
