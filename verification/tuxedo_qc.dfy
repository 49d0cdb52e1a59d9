/** ngcloud/pipe/tuxedo.py, the QC stage: reading FastQC's
    `fastqc_data.txt` line by line into an ordered description-to-status
    map and the rows of the "Overrepresented sequences" module. The file's
    lines are an input; opening it is not modelled. */
module TuxedoQc {
  import opened Options
  import opened Results
  import opened Text
  import opened OrderedDicts

  const MODULE_START := ">>"
  const END_MODULE := ">>END_MODULE"
  const OVERREPRESENTED := "Overrepresented sequences"
  const SEQ_HEADER := "#Seq"

  /** `OverSeq`: the four tab-separated fields of one overrepresented-sequence row. */
  datatype OverSeq = OverSeq(sequence: string, count: string, percentage: string, possibleSource: string)

  /** What `read_fastqc_data` returns: `qc_info` and `over_seq`. */
  datatype FastqcData = FastqcData(qcInfo: ODict<string>, overSeq: seq<OverSeq>)

  /** A line the outer loop treats as a module header. */
  predicate IsModuleHeader(line: string) {
    StartsWith(line, MODULE_START) && !StartsWith(line, END_MODULE)
  }

  /** `line.rstrip()[2:]` for a line that starts with ">>". */
  function HeaderBody(line: string): (body: string)
    requires StartsWith(line, MODULE_START)
    ensures MODULE_START + body == RStrip(line)
  {
    var stripped := RStrip(line);
    assert line[1] == '>' && !IsSpace(line[1]);
    assert |stripped| >= 2;
    assert stripped[..2] == line[..2];
    stripped[2..]
  }

  /** `qc_desc, qc_status = line.rstrip()[2:].rsplit('\t', 1)`: split at the
      last tab, so the description may itself hold tabs; no tab at all
      makes the two-value unpack fail. */
  function SplitHeader(line: string): (r: Result<(string, string)>)
    requires StartsWith(line, MODULE_START)
    ensures r.Ok? <==> '\t' in HeaderBody(line)
    ensures r.Ok? ==> RStrip(line) == MODULE_START + r.value.0 + "\t" + r.value.1 && '\t' !in r.value.1
    ensures r.Err? ==> r.error == HeaderWithoutTab(line) && r.error.Class() == ValueErr
  {
    match RSplitLast(HeaderBody(line), '\t')
    case None => Err(HeaderWithoutTab(line))
    case Some(parts) => Ok(parts)
  }

  /** `OverSeq(*line.rstrip().split('\t'))`: exactly four fields or TypeError. */
  function ToOverSeq(line: string): (r: Result<OverSeq>)
    ensures r.Ok? <==> |Split(RStrip(line), '\t')| == 4
    ensures r.Ok? ==> Join([r.value.sequence, r.value.count, r.value.percentage, r.value.possibleSource], '\t') == RStrip(line)
    ensures r.Err? ==> r.error == OverSeqArity(|Split(RStrip(line), '\t')|) && r.error.Class() == TypeErr
  {
    var fields := Split(RStrip(line), '\t');
    if |fields| == 4 then
      assert fields == [fields[0], fields[1], fields[2], fields[3]];
      Ok(OverSeq(fields[0], fields[1], fields[2], fields[3]))
    else Err(OverSeqArity(|fields|))
  }

  /** What one line inside the section contributes: nothing for a "#Seq"
      column header, otherwise its row. */
  function RowOf(line: string): (r: Result<seq<OverSeq>>)
    ensures StartsWith(line, SEQ_HEADER) ==> r == Ok([])
    ensures !StartsWith(line, SEQ_HEADER) ==> r.Ok? == ToOverSeq(line).Ok?
    ensures !StartsWith(line, SEQ_HEADER) && ToOverSeq(line).Ok? ==> r == Ok([ToOverSeq(line).value])
    ensures !StartsWith(line, SEQ_HEADER) && ToOverSeq(line).Err? ==> r == Err(ToOverSeq(line).error)
    ensures r.Ok? ==> |r.value| <= 1
  {
    if StartsWith(line, SEQ_HEADER) then Ok([])
    else
      var o :- ToOverSeq(line);
      Ok([o])
  }

  /** The inner loop after `next_line = next(qc_data)`: `ls[0]` is the line
      already fetched and is converted before any end check; each later line
      is fetched, checked for ">>END_MODULE", and converted. Returns the rows
      so far and the lines the shared iterator has not yet yielded; running
      out of lines is StopIteration. */
  function Section(ls: seq<string>, acc: seq<OverSeq>): (r: Result<(seq<OverSeq>, seq<string>)>)
    requires |ls| > 0
    ensures r.Ok? ==> |r.value.1| + 2 <= |ls| && r.value.1 == ls[|ls| - |r.value.1|..]
    decreases |ls|
  {
    var row :- RowOf(ls[0]);
    if |ls| == 1 then Err(StopIteration)
    else if StartsWith(ls[1], END_MODULE) then Ok((acc + row, ls[2..]))
    else Section(ls[1..], acc + row)
  }

  /** The inner loop as it was evidently meant to run: each line, the
      first included, is checked for ">>END_MODULE" before it is converted,
      so a module with no rows closes cleanly. */
  function SectionCorrected(ls: seq<string>, acc: seq<OverSeq>): (r: Result<(seq<OverSeq>, seq<string>)>)
    ensures r.Ok? ==> |r.value.1| < |ls| && r.value.1 == ls[|ls| - |r.value.1|..]
    decreases |ls|
  {
    if |ls| == 0 then Err(StopIteration)
    else if StartsWith(ls[0], END_MODULE) then Ok((acc, ls[1..]))
    else
      var row :- RowOf(ls[0]);
      SectionCorrected(ls[1..], acc + row)
  }

  /** The outer `for line in qc_data` loop over the lines not yet yielded,
      with the inner loop as written (`corrected` false) or as intended. */
  function Scan(ls: seq<string>, acc: FastqcData, corrected: bool): (r: Result<FastqcData>)
    ensures r.Ok? ==> Keys(acc.qcInfo) <= Keys(r.value.qcInfo)
    ensures r.Ok? && DistinctKeys(acc.qcInfo) ==> DistinctKeys(r.value.qcInfo)
    decreases |ls|
  {
    if |ls| == 0 then Ok(acc)
    else if IsModuleHeader(ls[0]) then
      var header :- SplitHeader(ls[0]);
      var info := Put(acc.qcInfo, header.0, header.1);
      PutKeepsDistinct(acc.qcInfo, header.0, header.1);
      if header.0 == OVERREPRESENTED then
        var section :-
          if corrected then SectionCorrected(ls[1..], acc.overSeq)
          else if |ls| == 1 then Err(StopIteration)
          else Section(ls[1..], acc.overSeq);
        Scan(section.1, FastqcData(info, section.0), corrected)
      else Scan(ls[1..], acc.(qcInfo := info), corrected)
    else Scan(ls[1..], acc, corrected)
  }

  const NO_DATA := FastqcData([], [])

  /** `QCStage.read_fastqc_data(sample)` over the lines of the sample's
      `fastqc_data.txt`, exactly as written. */
  function ReadFastqcData(lines: seq<string>): (r: Result<FastqcData>)
    ensures r.Ok? ==> DistinctKeys(r.value.qcInfo)
  {
    Scan(lines, NO_DATA, false)
  }

  /** The same reader with the inner loop corrected. */
  function ReadFastqcDataCorrected(lines: seq<string>): (r: Result<FastqcData>)
    ensures r.Ok? ==> DistinctKeys(r.value.qcInfo)
  {
    Scan(lines, NO_DATA, true)
  }

  /** One step of the outer loop at a line that is not a module header. */
  lemma ScanPasses(ls: seq<string>, acc: FastqcData, corrected: bool)
    requires |ls| > 0 && !IsModuleHeader(ls[0])
    ensures Scan(ls, acc, corrected) == Scan(ls[1..], acc, corrected)
  {
  }

  /** A file without module headers records nothing. */
  lemma {:induction false} ScanWithoutHeaders(ls: seq<string>, acc: FastqcData, corrected: bool)
    requires forall i :: 0 <= i < |ls| ==> !IsModuleHeader(ls[i])
    ensures Scan(ls, acc, corrected) == Ok(acc)
    decreases |ls|
  {
    if |ls| > 0 {
      assert forall i :: 0 <= i < |ls| - 1 ==> ls[1..][i] == ls[i + 1];
      ScanWithoutHeaders(ls[1..], acc, corrected);
    }
  }

  /** One step of the outer loop at the header of an ordinary module. */
  lemma ScanPlainHeader(ls: seq<string>, acc: FastqcData, corrected: bool, desc: string, status: string)
    requires |ls| > 0 && IsModuleHeader(ls[0])
    requires SplitHeader(ls[0]) == Ok((desc, status)) && desc != OVERREPRESENTED
    ensures Scan(ls, acc, corrected) == Scan(ls[1..], acc.(qcInfo := Put(acc.qcInfo, desc, status)), corrected)
  {
  }

  /** One step of the outer loop at the "Overrepresented sequences" header:
      the inner loop's rows replace the list, and the outer loop resumes
      where the inner one stopped. */
  lemma ScanOverrepresentedHeader(ls: seq<string>, acc: FastqcData, corrected: bool, status: string,
                                  rows: seq<OverSeq>, rest: seq<string>)
    requires |ls| > 0 && IsModuleHeader(ls[0])
    requires SplitHeader(ls[0]) == Ok((OVERREPRESENTED, status))
    requires corrected ==> SectionCorrected(ls[1..], acc.overSeq) == Ok((rows, rest))
    requires !corrected ==> |ls| > 1 && Section(ls[1..], acc.overSeq) == Ok((rows, rest))
    ensures Scan(ls, acc, corrected) == Scan(rest, FastqcData(Put(acc.qcInfo, OVERREPRESENTED, status), rows), corrected)
  {
  }

  /** The outer loop fails when the inner loop at the "Overrepresented
      sequences" header fails. */
  lemma ScanSectionFails(ls: seq<string>, acc: FastqcData, status: string, e: Error)
    requires |ls| > 1 && IsModuleHeader(ls[0])
    requires SplitHeader(ls[0]) == Ok((OVERREPRESENTED, status))
    requires Section(ls[1..], acc.overSeq) == Err(e)
    ensures Scan(ls, acc, false) == Err(e)
  {
  }

  // ---------------------------------------------------------------------
  // The section reader, stated without the shared iterator.

  /** The rows a run of section lines yields, read line by line in order,
      failing at the first line that is not a valid row. */
  function KeptRows(lines: seq<string>): Result<seq<OverSeq>> {
    if |lines| == 0 then Ok([])
    else
      var first :- RowOf(lines[0]);
      var rest :- KeptRows(lines[1..]);
      Ok(first + rest)
  }

  /** `e` is the first line after `ls[0]` that closes the module. */
  predicate ClosedAt(ls: seq<string>, e: int) {
    && 1 <= e < |ls|
    && StartsWith(ls[e], END_MODULE)
    && forall k :: 1 <= k < e ==> !StartsWith(ls[k], END_MODULE)
  }

  /** A closed section yields exactly the rows of the lines before its
      ">>END_MODULE" (including the first line, whatever it is), and the
      outer loop resumes just after that closing line. */
  lemma {:induction false} SectionClosed(ls: seq<string>, acc: seq<OverSeq>, e: int)
    requires ClosedAt(ls, e)
    ensures Section(ls, acc) == (match KeptRows(ls[..e])
                                 case Ok(rows) => Ok((acc + rows, ls[e + 1..]))
                                 case Err(x) => Err(x))
    decreases |ls|
  {
    var head := ls[..e];
    assert head[0] == ls[0];
    var row := RowOf(ls[0]);
    if row.Ok? {
      if e == 1 {
        assert head[1..] == [];
        assert KeptRows(head[1..]) == Ok([]);
        assert row.value + [] == row.value;
      } else {
        assert !StartsWith(ls[1], END_MODULE);
        assert ClosedAt(ls[1..], e - 1);
        SectionClosed(ls[1..], acc + row.value, e - 1);
        assert ls[1..][..e - 1] == head[1..];
        assert ls[1..][e - 1 + 1..] == ls[e + 1..];
        match KeptRows(head[1..]) {
          case Ok(rows) =>
            assert acc + row.value + rows == acc + (row.value + rows);
          case Err(x) =>
        }
      }
    }
  }

  /** A section with no closing line fails: with the first invalid row if
      there is one, otherwise when the iterator runs out. */
  lemma {:induction false} SectionUnclosed(ls: seq<string>, acc: seq<OverSeq>)
    requires |ls| > 0
    requires forall k :: 1 <= k < |ls| ==> !StartsWith(ls[k], END_MODULE)
    ensures Section(ls, acc) == (match KeptRows(ls)
                                 case Ok(_) => Err(StopIteration)
                                 case Err(x) => Err(x))
    decreases |ls|
  {
    if RowOf(ls[0]).Ok? && |ls| > 1 {
      SectionUnclosed(ls[1..], acc + RowOf(ls[0]).value);
    }
  }

  /** A header immediately followed by ">>END_MODULE" fails: the closing
      line is converted as a row before any end check, and it has one field. */
  lemma EmptySectionFails(closing: string, rest: seq<string>, acc: seq<OverSeq>)
    requires StartsWith(closing, END_MODULE) && '\t' !in closing
    ensures Section([closing] + rest, acc) == Err(OverSeqArity(1))
  {
    ClosingLineIsNoRow(closing);
    assert ([closing] + rest)[0] == closing;
  }

  /** The closing line, converted as a row, has a single field. */
  lemma ClosingLineIsNoRow(closing: string)
    requires StartsWith(closing, END_MODULE) && '\t' !in closing
    ensures RowOf(closing) == Err(OverSeqArity(1))
  {
    var stripped := RStrip(closing);
    assert '\t' !in stripped by {
      forall i | 0 <= i < |stripped| ensures stripped[i] != '\t' {
        assert stripped[i] == closing[i];
      }
    }
    SplitNoSeparator(stripped, '\t');
    assert closing[0] == '>';
    assert !StartsWith(closing, SEQ_HEADER);
  }

  /** A ">>"-prefixed line inside the section is read as a row, never as a
      module header: the inner loop consumed it from the shared iterator. */
  lemma HeaderInsideSectionIsRow(inner: string, rest: seq<string>)
    requires IsModuleHeader(inner) && !StartsWith(inner, SEQ_HEADER)
    requires |rest| > 0 && StartsWith(rest[0], END_MODULE)
    requires ToOverSeq(inner).Ok?
    ensures Section([inner] + rest, []) == Ok(([ToOverSeq(inner).value], rest[1..]))
  {
    var ls := [inner] + rest;
    assert ls[0] == inner && ls[1] == rest[0];
    assert ls[2..] == rest[1..];
    assert RowOf(inner) == Ok([ToOverSeq(inner).value]);
    assert [] + [ToOverSeq(inner).value] == [ToOverSeq(inner).value];
  }

  /** The corrected inner loop closes a module with no rows and hands the
      following lines back to the outer loop. */
  lemma EmptySectionCloses(closing: string, rest: seq<string>, acc: seq<OverSeq>)
    requires StartsWith(closing, END_MODULE)
    ensures SectionCorrected([closing] + rest, acc) == Ok((acc, rest))
  {
    assert ([closing] + rest)[1..] == rest;
  }

  /** Whenever the line after the header does not close the module, the
      corrected inner loop behaves exactly as the one written. */
  lemma {:induction false} SectionAgrees(ls: seq<string>, acc: seq<OverSeq>)
    requires |ls| > 0 && !StartsWith(ls[0], END_MODULE)
    ensures SectionCorrected(ls, acc) == Section(ls, acc)
    decreases |ls|
  {
    if RowOf(ls[0]).Ok? && |ls| > 1 && !StartsWith(ls[1], END_MODULE) {
      SectionAgrees(ls[1..], acc + RowOf(ls[0]).value);
    } else if RowOf(ls[0]).Ok? && |ls| > 1 {
      assert ls[1..][1..] == ls[2..];
    }
  }
}
