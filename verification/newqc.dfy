/** examples/new_qc_stage/newqc.py: a QC stage that keeps only the module
    statuses. Its reader records every module header and skips every other
    line, the overrepresented-sequence rows included. */
module NewQc {
  import opened Options
  import opened Results
  import opened Text
  import opened OrderedDicts
  import opened TuxedoQc
  import opened TuxedoStages
  import NgcloudInfo

  /** The `for line in qc_data` loop of `NewQCStage.read_fastqc_data`. */
  function ScanSimple(ls: seq<string>, info: ODict<string>): Result<ODict<string>>
    decreases |ls|
  {
    if |ls| == 0 then Ok(info)
    else if IsModuleHeader(ls[0]) then
      var header :- SplitHeader(ls[0]);
      ScanSimple(ls[1..], Put(info, header.0, header.1))
    else ScanSimple(ls[1..], info)
  }

  /** The loop keeps the keys it started with, in order, and keeps them
      distinct. */
  lemma {:induction false} ScanSimpleKeepsKeys(ls: seq<string>, info: ODict<string>)
    ensures ScanSimple(ls, info).Ok? ==> Keys(info) <= Keys(ScanSimple(ls, info).value)
    ensures ScanSimple(ls, info).Ok? && DistinctKeys(info) ==> DistinctKeys(ScanSimple(ls, info).value)
    decreases |ls|
  {
    if |ls| > 0 {
      if IsModuleHeader(ls[0]) && SplitHeader(ls[0]).Ok? {
        var header := SplitHeader(ls[0]).value;
        PutKeepsDistinct(info, header.0, header.1);
        ScanSimpleKeepsKeys(ls[1..], Put(info, header.0, header.1));
      } else if !IsModuleHeader(ls[0]) {
        ScanSimpleKeepsKeys(ls[1..], info);
      }
    }
  }

  /** `NewQCStage.read_fastqc_data(sample)` over the file's lines. */
  function ReadFastqcDataSimple(lines: seq<string>): (r: Result<ODict<string>>)
    ensures r.Ok? ==> DistinctKeys(r.value)
  {
    ScanSimpleKeepsKeys(lines, []);
    ScanSimple(lines, [])
  }

  // ---------------------------------------------------------------------
  // What the reader computes, stated line by line.

  /** The line records a status: a module header with a tab. */
  predicate Records(line: string) {
    IsModuleHeader(line) && SplitHeader(line).Ok?
  }

  /** The description a recording line carries. */
  function DescOf(line: string): string
    requires Records(line)
  {
    SplitHeader(line).value.0
  }

  /** A module header that lacks the tab the unpack needs. */
  predicate Malformed(line: string) {
    IsModuleHeader(line) && SplitHeader(line).Err?
  }

  /** The status the LAST header with description `k` gives, found by
      searching from the end of the file. */
  function LastStatus(lines: seq<string>, k: string): Option<string> {
    if |lines| == 0 then None
    else
      var line := lines[|lines| - 1];
      if Records(line) && DescOf(line) == k then Some(SplitHeader(line).value.1)
      else LastStatus(lines[..|lines| - 1], k)
  }

  /** The descriptions of the header lines, in file order, each kept where
      it FIRST appears. */
  function FirstAppearances(lines: seq<string>): seq<string> {
    if |lines| == 0 then []
    else
      var before := FirstAppearances(lines[..|lines| - 1]);
      var line := lines[|lines| - 1];
      if Records(line) && DescOf(line) !in before then before + [DescOf(line)] else before
  }

  /** The reader fails exactly when some module header has no tab, and then
      with the first such header. */
  lemma {:induction false} SimpleFailsAtFirstMalformed(lines: seq<string>, info: ODict<string>)
    ensures ScanSimple(lines, info).Err? <==> exists i :: 0 <= i < |lines| && Malformed(lines[i])
    ensures ScanSimple(lines, info).Err? ==>
              exists i :: 0 <= i < |lines| && Malformed(lines[i])
                          && ScanSimple(lines, info).error == HeaderWithoutTab(lines[i])
                          && forall j :: 0 <= j < i ==> !Malformed(lines[j])
    decreases |lines|
  {
    if |lines| > 0 && !Malformed(lines[0]) {
      var next := ScanSimpleStep(lines, info);
      SimpleFailsAtFirstMalformed(lines[1..], next);
      assert forall i :: 1 <= i < |lines| ==> lines[i] == lines[1..][i - 1];
      if ScanSimple(lines, info).Err? {
        var i :| 0 <= i < |lines[1..]| && Malformed(lines[1..][i])
                 && ScanSimple(lines[1..], next).error == HeaderWithoutTab(lines[1..][i])
                 && forall j :: 0 <= j < i ==> !Malformed(lines[1..][j]);
        assert Malformed(lines[i + 1]);
      }
    }
  }

  /** Past a line that is not a malformed header, the reader carries on
      with the statuses that line leaves. */
  lemma ScanSimpleStep(lines: seq<string>, info: ODict<string>) returns (next: ODict<string>)
    requires |lines| > 0 && !Malformed(lines[0])
    ensures ScanSimple(lines, info) == ScanSimple(lines[1..], next)
  {
    next := if IsModuleHeader(lines[0]) then Put(info, SplitHeader(lines[0]).value.0, SplitHeader(lines[0]).value.1) else info;
  }

  /** Reading `a + b` reads `a`, then carries on through `b`. */
  lemma {:induction false} ScanSimpleAppend(a: seq<string>, b: seq<string>, info: ODict<string>)
    ensures ScanSimple(a + b, info) == (match ScanSimple(a, info)
                                        case Ok(mid) => ScanSimple(b, mid)
                                        case Err(e) => Err(e))
    decreases |a|
  {
    if |a| == 0 {
      assert a + b == b;
    } else {
      assert (a + b)[0] == a[0];
      assert (a + b)[1..] == a[1..] + b;
      if IsModuleHeader(a[0]) && SplitHeader(a[0]).Ok? {
        ScanSimpleAppend(a[1..], b, Put(info, SplitHeader(a[0]).value.0, SplitHeader(a[0]).value.1));
      } else if !IsModuleHeader(a[0]) {
        ScanSimpleAppend(a[1..], b, info);
      }
    }
  }

  /** Every description maps to the status of its LAST header, the ones
      that never appear keep what they had, and the keys are ordered by
      FIRST appearance: a repeated description is overwritten in place. */
  lemma {:induction false} SimpleStatusIsLast(lines: seq<string>)
    requires ReadFastqcDataSimple(lines).Ok?
    ensures forall k :: Get(ReadFastqcDataSimple(lines).value, k) == LastStatus(lines, k)
    ensures Keys(ReadFastqcDataSimple(lines).value) == FirstAppearances(lines)
    decreases |lines|
  {
    if |lines| > 0 {
      var init := lines[..|lines| - 1];
      var last := lines[|lines| - 1];
      assert lines == init + [last];
      ScanSimpleAppend(init, [last], []);
      SimpleStatusIsLast(init);
      var mid := ReadFastqcDataSimple(init).value;
      assert ([last])[1..] == [];
      if Records(last) {
        assert ScanSimple([last], mid) == Ok(Put(mid, DescOf(last), SplitHeader(last).value.1));
      } else {
        assert ScanSimple([last], mid) == Ok(mid);
      }
    }
  }

  /** Without an "Overrepresented sequences" header, the Tuxedo reader
      records exactly what this one does and collects no rows. */
  lemma {:induction false} AgreesWithTuxedoReader(lines: seq<string>, info: ODict<string>, rows: seq<OverSeq>, corrected: bool)
    requires forall i :: 0 <= i < |lines| && Records(lines[i]) ==> DescOf(lines[i]) != OVERREPRESENTED
    ensures Scan(lines, FastqcData(info, rows), corrected)
            == (match ScanSimple(lines, info)
                case Ok(d) => Ok(FastqcData(d, rows))
                case Err(e) => Err(e))
    decreases |lines|
  {
    if |lines| > 0 {
      assert forall i :: 1 <= i < |lines| ==> lines[i] == lines[1..][i - 1];
      if IsModuleHeader(lines[0]) && SplitHeader(lines[0]).Ok? {
        var h := SplitHeader(lines[0]).value;
        assert Records(lines[0]);
        AgreesWithTuxedoReader(lines[1..], Put(info, h.0, h.1), rows, corrected);
      } else if !IsModuleHeader(lines[0]) {
        AgreesWithTuxedoReader(lines[1..], info, rows, corrected);
      }
    }
  }

  /** Lines that do not start with ">>", overrepresented-sequence rows
      among them, change nothing. */
  lemma {:induction false} NonHeadersIgnored(skipped: seq<string>, rest: seq<string>, info: ODict<string>)
    requires forall i :: 0 <= i < |skipped| ==> !StartsWith(skipped[i], MODULE_START)
    ensures ScanSimple(skipped + rest, info) == ScanSimple(rest, info)
    decreases |skipped|
  {
    if |skipped| > 0 {
      assert (skipped + rest)[1..] == skipped[1..] + rest;
      NonHeadersIgnored(skipped[1..], rest, info);
    } else {
      assert skipped + rest == rest;
    }
  }

  // ---------------------------------------------------------------------
  // The stage.

  /** `NewQCStage.embed_result_persample`: one spec copying the FastQC
      plots of each sample. */
  datatype EmbedSpec = EmbedSpec(src: string, patterns: seq<string>, dest: string)

  const NEWQC_EMBED_JOINT: seq<EmbedSpec> := []
  const NEWQC_EMBED_PERSAMPLE: seq<EmbedSpec> := [EmbedSpec(".", ["Images/*.png"], "qc_sample/pics")]

  const NEWQC_STAGE_MAPPING: seq<StageLink> := [StageLink("qc", "newqc.html", "Quality Control")]

  /** What `NewQCStage.parse` leaves in `result_info`: no parent `parse` is
      run, so there are no overrepresented rows and only one stage link. */
  datatype NewQcInfo = NewQcInfo(
    stageMapping: seq<StageLink>,
    qcInfo: map<string, ODict<string>>,
    fastqcFilename: map<string, string>,
    fastqcNofile: seq<string>,
    fastqcGlyph: map<string, string>)

  function ReadSampleSimple(files: map<string, seq<string>>, fullName: string): (r: Result<ODict<string>>)
    ensures fullName !in files ==> r == Err(MissingFile(fullName))
  {
    if fullName in files then ReadFastqcDataSimple(files[fullName]) else Err(MissingFile(fullName))
  }

  /** `NewQCStage.parse`: one status map per sample keyed by its full
      name, the single-entry navigation table, the three tables unchanged. */
  method ParseNewQcStage(samples: seq<NgcloudInfo.Sample>, files: map<string, seq<string>>)
    returns (r: Result<NewQcInfo>)
    ensures r.Ok? <==> forall i :: 0 <= i < |samples| ==> ReadSampleSimple(files, samples[i].fullName).Ok?
    ensures r.Err? ==> exists k :: 0 <= k < |samples| && ReadSampleSimple(files, samples[k].fullName) == Err(r.error)
                                   && forall i :: 0 <= i < k ==> ReadSampleSimple(files, samples[i].fullName).Ok?
    ensures r.Ok? ==> r.value.stageMapping == NEWQC_STAGE_MAPPING && |r.value.stageMapping| == 1
    ensures r.Ok? ==> r.value.fastqcFilename == FASTQC_FILENAME && r.value.fastqcNofile == FASTQC_NOFILE
                      && r.value.fastqcGlyph == FASTQC_GLYPH
    ensures r.Ok? ==> forall name :: name in r.value.qcInfo <==> exists i :: 0 <= i < |samples| && samples[i].fullName == name
    ensures r.Ok? ==> forall i :: 0 <= i < |samples| ==>
                        r.value.qcInfo[samples[i].fullName] == ReadSampleSimple(files, samples[i].fullName).value
  {
    var qcInfo: map<string, ODict<string>> := map[];
    var i := 0;
    while i < |samples|
      invariant 0 <= i <= |samples|
      invariant forall name :: name in qcInfo <==> exists j :: 0 <= j < i && samples[j].fullName == name
      invariant forall j :: 0 <= j < i ==> ReadSampleSimple(files, samples[j].fullName).Ok?
      invariant forall j :: 0 <= j < i ==> qcInfo[samples[j].fullName] == ReadSampleSimple(files, samples[j].fullName).value
    {
      var name := samples[i].fullName;
      var data := ReadSampleSimple(files, name);
      if data.Err? {
        return Err(data.error);
      }
      qcInfo := qcInfo[name := data.value];
      i := i + 1;
    }
    return Ok(NewQcInfo(NEWQC_STAGE_MAPPING, qcInfo, FASTQC_FILENAME, FASTQC_NOFILE, FASTQC_GLYPH));
  }
}
