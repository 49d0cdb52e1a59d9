/** The layout of FastQC's `fastqc_data.txt`, as the QC stage expects it: a
    version line, then modules, each a `>>description<TAB>status` header,
    its body, and a `>>END_MODULE` line. The "Overrepresented sequences"
    module's body is a "#Sequence..." column header followed by one
    tab-separated row per sequence, or nothing at all when no sequence is
    overrepresented. Rendering is the partner of the reader: reading what
    is rendered gives back every module's status and every row. Rendered
    lines carry no trailing newline, unlike the lines a Python file yields;
    the reader only right-strips lines or tests their prefixes, so both
    read alike. */
module FastqcFormat {
  import opened Options
  import opened Results
  import opened Text
  import opened OrderedDicts
  import opened TuxedoQc

  const COLUMN_HEADER := "#Sequence\tCount\tPercentage\tPossible Source"

  datatype Module =
    | Plain(desc: string, status: string, body: seq<string>)
    | Overrepresented(status: string, rows: seq<OverSeq>)
  {
    function Desc(): string {
      if Plain? then desc else OVERREPRESENTED
    }

    function Rows(): seq<OverSeq> {
      if Plain? then [] else rows
    }
  }

  function HeaderLine(desc: string, status: string): string {
    MODULE_START + desc + "\t" + status
  }

  function Fields(o: OverSeq): seq<string> {
    [o.sequence, o.count, o.percentage, o.possibleSource]
  }

  function RowLine(o: OverSeq): string {
    Join(Fields(o), '\t')
  }

  function RowLines(rows: seq<OverSeq>): (r: seq<string>)
    ensures |r| == |rows|
    ensures forall i :: 0 <= i < |rows| ==> r[i] == RowLine(rows[i])
  {
    if |rows| == 0 then [] else [RowLine(rows[0])] + RowLines(rows[1..])
  }

  function ModuleLines(m: Module): seq<string> {
    match m
    case Plain(desc, status, body) => [HeaderLine(desc, status)] + body + [END_MODULE]
    case Overrepresented(status, rows) =>
      [HeaderLine(OVERREPRESENTED, status)]
      + (if |rows| == 0 then [] else [COLUMN_HEADER] + RowLines(rows))
      + [END_MODULE]
  }

  function ModulesLines(ms: seq<Module>): seq<string> {
    if |ms| == 0 then [] else ModuleLines(ms[0]) + ModulesLines(ms[1..])
  }

  /** A whole `fastqc_data.txt`. */
  function FileLines(version: string, ms: seq<Module>): seq<string> {
    ["##FastQC\t" + version] + ModulesLines(ms)
  }

  // ---------------------------------------------------------------------
  // Which renderings the reader can take back.

  /** Not emptied or shortened by `rstrip()`. */
  predicate EndsClean(s: string) {
    |s| > 0 && !IsSpace(s[|s| - 1])
  }

  /** A status `rsplit('\t', 1)` recovers whole. */
  predicate ValidStatus(status: string) {
    '\t' !in status && EndsClean(status)
  }

  /** A row that survives `rstrip().split('\t')` and is not mistaken for
      the column header or the closing line. */
  predicate ValidRow(o: OverSeq) {
    && (forall i :: 0 <= i < 4 ==> '\t' !in Fields(o)[i])
    && EndsClean(o.possibleSource)
    && !StartsWith(RowLine(o), SEQ_HEADER)
    && !StartsWith(RowLine(o), END_MODULE)
  }

  predicate ValidModule(m: Module) {
    match m
    case Plain(desc, status, body) =>
      && desc != OVERREPRESENTED
      && ValidStatus(status)
      && !StartsWith(HeaderLine(desc, status), END_MODULE)
      && forall i :: 0 <= i < |body| ==> !StartsWith(body[i], MODULE_START)
    case Overrepresented(status, rows) =>
      && ValidStatus(status)
      && forall i :: 0 <= i < |rows| ==> ValidRow(rows[i])
  }

  predicate ValidModules(ms: seq<Module>) {
    && (forall i :: 0 <= i < |ms| ==> ValidModule(ms[i]))
    && forall i, j :: 0 <= i < j < |ms| ==> ms[i].Desc() != ms[j].Desc()
  }

  /** Every module's description and status, in file order. */
  function StatusEntries(ms: seq<Module>): (r: ODict<string>)
    ensures Keys(r) == seq(|ms|, i requires 0 <= i < |ms| => ms[i].Desc())
  {
    if |ms| == 0 then [] else [(ms[0].Desc(), ms[0].status)] + StatusEntries(ms[1..])
  }

  function AllRows(ms: seq<Module>): seq<OverSeq> {
    if |ms| == 0 then [] else ms[0].Rows() + AllRows(ms[1..])
  }

  // ---------------------------------------------------------------------
  // The round trip.

  /** Reading a rendered file with the corrected reader gives every module's
      status, keyed by description in file order, and every overrepresented
      sequence row in order. */
  lemma ReadRenderedCorrected(version: string, ms: seq<Module>)
    requires ValidModules(ms)
    ensures ReadFastqcDataCorrected(FileLines(version, ms)) == Ok(FastqcData(StatusEntries(ms), AllRows(ms)))
  {
    ReadRendered(version, ms, true);
  }

  /** The reader as written gives the same, provided no "Overrepresented
      sequences" module is empty. */
  lemma ReadRenderedAsWritten(version: string, ms: seq<Module>)
    requires ValidModules(ms)
    requires forall i :: 0 <= i < |ms| && ms[i].Overrepresented? ==> |ms[i].rows| > 0
    ensures ReadFastqcData(FileLines(version, ms)) == Ok(FastqcData(StatusEntries(ms), AllRows(ms)))
  {
    ReadRendered(version, ms, false);
  }

  /** An empty "Overrepresented sequences" module, as FastQC writes it when
      no sequence is overrepresented, makes the reader as written fail while
      the corrected reader records its status and no rows. */
  lemma EmptyOverrepresentedModule(version: string, status: string)
    requires ValidStatus(status)
    ensures ReadFastqcData(FileLines(version, [Overrepresented(status, [])])) == Err(OverSeqArity(1))
    ensures ReadFastqcDataCorrected(FileLines(version, [Overrepresented(status, [])]))
            == Ok(FastqcData([(OVERREPRESENTED, status)], []))
  {
    var m := Overrepresented(status, []);
    ReadRenderedCorrected(version, [m]);
    assert StatusEntries([m]) == [(OVERREPRESENTED, status)] by {
      assert StatusEntries([m][1..]) == [];
    }
    assert AllRows([m]) == [] by {
      assert AllRows([m][1..]) == [];
    }
    EmptyModuleLines(version, status);
    EmptyModuleFails(version, status);
  }

  lemma EmptyModuleLines(version: string, status: string)
    ensures FileLines(version, [Overrepresented(status, [])])
            == ["##FastQC\t" + version, HeaderLine(OVERREPRESENTED, status), END_MODULE]
  {
    var m := Overrepresented(status, []);
    assert ModulesLines([m][1..]) == [];
  }

  lemma EmptyModuleFails(version: string, status: string)
    requires ValidStatus(status)
    ensures ReadFastqcData(["##FastQC\t" + version, HeaderLine(OVERREPRESENTED, status), END_MODULE]) == Err(OverSeqArity(1))
  {
    var ls := ["##FastQC\t" + version, HeaderLine(OVERREPRESENTED, status), END_MODULE];
    assert ls[0][1] == '#';
    ScanPasses(ls, NO_DATA, false);
    assert ls[1..] == [HeaderLine(OVERREPRESENTED, status), END_MODULE];
    assert ls[1..][1..] == [END_MODULE] + [];
    OverrepresentedHeader(status);
    EndModuleCloses();
    assert '\t' !in END_MODULE;
    EmptySectionFails(END_MODULE, [], []);
    ScanSectionFails(ls[1..], NO_DATA, status, OverSeqArity(1));
  }

  lemma {:induction false} ReadRendered(version: string, ms: seq<Module>, corrected: bool)
    requires ValidModules(ms)
    requires corrected || forall i :: 0 <= i < |ms| && ms[i].Overrepresented? ==> |ms[i].rows| > 0
    ensures Scan(FileLines(version, ms), NO_DATA, corrected) == Ok(FastqcData(StatusEntries(ms), AllRows(ms)))
  {
    VersionLinePassed(version, ms, corrected);
    ScanModules(ms, NO_DATA, corrected);
    assert [] + StatusEntries(ms) == StatusEntries(ms);
    assert [] + AllRows(ms) == AllRows(ms);
  }

  /** The leading version line is not a module header. */
  lemma VersionLinePassed(version: string, ms: seq<Module>, corrected: bool)
    ensures Scan(FileLines(version, ms), NO_DATA, corrected) == Scan(ModulesLines(ms), NO_DATA, corrected)
  {
    var ls := FileLines(version, ms);
    assert ls[0][1] == '#';
    ScanPasses(ls, NO_DATA, corrected);
    assert ls[1..] == ModulesLines(ms);
  }

  lemma {:induction false} ScanModules(ms: seq<Module>, acc: FastqcData, corrected: bool)
    requires ValidModules(ms)
    requires corrected || forall i :: 0 <= i < |ms| && ms[i].Overrepresented? ==> |ms[i].rows| > 0
    requires forall i :: 0 <= i < |ms| ==> ms[i].Desc() !in Keys(acc.qcInfo)
    ensures Scan(ModulesLines(ms), acc, corrected)
            == Ok(FastqcData(acc.qcInfo + StatusEntries(ms), acc.overSeq + AllRows(ms)))
    decreases |ms|
  {
    if |ms| == 0 {
      assert acc.qcInfo + [] == acc.qcInfo;
      assert acc.overSeq + [] == acc.overSeq;
    } else {
      ScanModule(ms[0], ModulesLines(ms[1..]), acc, corrected);
      var next := AfterModule(ms, acc);
      ScanModules(ms[1..], next, corrected);
      ModulesAppend(ms, acc, next);
    }
  }

  lemma ModulesAppend(ms: seq<Module>, acc: FastqcData, next: FastqcData)
    requires |ms| > 0
    requires next == FastqcData(acc.qcInfo + [(ms[0].Desc(), ms[0].status)], acc.overSeq + ms[0].Rows())
    ensures ModulesLines(ms) == ModuleLines(ms[0]) + ModulesLines(ms[1..])
    ensures next.qcInfo + StatusEntries(ms[1..]) == acc.qcInfo + StatusEntries(ms)
    ensures next.overSeq + AllRows(ms[1..]) == acc.overSeq + AllRows(ms)
  {
    EntriesAppend(ms, acc.qcInfo);
    RowsAppend(ms, acc.overSeq);
  }

  lemma EntriesAppend(ms: seq<Module>, info: ODict<string>)
    requires |ms| > 0
    ensures info + [(ms[0].Desc(), ms[0].status)] + StatusEntries(ms[1..]) == info + StatusEntries(ms)
  {
    assert StatusEntries(ms) == [(ms[0].Desc(), ms[0].status)] + StatusEntries(ms[1..]);
  }

  lemma RowsAppend(ms: seq<Module>, rows: seq<OverSeq>)
    requires |ms| > 0
    ensures rows + ms[0].Rows() + AllRows(ms[1..]) == rows + AllRows(ms)
  {
  }

  /** The reader's state after the first module: its status appended under
      a fresh key, its rows appended; the remaining modules still qualify. */
  lemma AfterModule(ms: seq<Module>, acc: FastqcData) returns (next: FastqcData)
    requires |ms| > 0 && ValidModules(ms)
    requires forall i :: 0 <= i < |ms| ==> ms[i].Desc() !in Keys(acc.qcInfo)
    ensures Put(acc.qcInfo, ms[0].Desc(), ms[0].status) == acc.qcInfo + [(ms[0].Desc(), ms[0].status)]
    ensures next == FastqcData(acc.qcInfo + [(ms[0].Desc(), ms[0].status)], acc.overSeq + ms[0].Rows())
    ensures ValidModules(ms[1..])
    ensures forall i :: 0 <= i < |ms[1..]| ==> ms[1..][i].Desc() !in Keys(next.qcInfo)
  {
    var m := ms[0];
    PutNew(acc.qcInfo, m.Desc(), m.status);
    next := FastqcData(acc.qcInfo + [(m.Desc(), m.status)], acc.overSeq + m.Rows());
    assert Keys(next.qcInfo) == Keys(acc.qcInfo) + [m.Desc()];
    forall i | 0 <= i < |ms[1..]| ensures ms[1..][i].Desc() !in Keys(next.qcInfo) {
      assert ms[1..][i] == ms[i + 1];
      assert ms[0].Desc() != ms[i + 1].Desc();
    }
    forall i, j | 0 <= i < j < |ms[1..]| ensures ms[1..][i].Desc() != ms[1..][j].Desc() {
      assert ms[1..][i] == ms[i + 1] && ms[1..][j] == ms[j + 1];
    }
  }

  /** One rendered module, followed by anything, moves the reader past the
      module with its status recorded and its rows appended. */
  lemma ScanModule(m: Module, tail: seq<string>, acc: FastqcData, corrected: bool)
    requires ValidModule(m)
    requires corrected || (m.Overrepresented? ==> |m.rows| > 0)
    ensures Scan(ModuleLines(m) + tail, acc, corrected)
            == Scan(tail, FastqcData(Put(acc.qcInfo, m.Desc(), m.status), acc.overSeq + m.Rows()), corrected)
  {
    match m
    case Plain(desc, status, body) =>
      ScanPlainModule(desc, status, body, tail, acc, corrected);
      assert acc.overSeq + [] == acc.overSeq;
    case Overrepresented(status, rows) =>
      ScanOverrepresentedModule(status, rows, tail, acc, corrected);
  }

  lemma ScanPlainModule(desc: string, status: string, body: seq<string>, tail: seq<string>,
                        acc: FastqcData, corrected: bool)
    requires ValidModule(Plain(desc, status, body))
    ensures Scan(ModuleLines(Plain(desc, status, body)) + tail, acc, corrected)
            == Scan(tail, acc.(qcInfo := Put(acc.qcInfo, desc, status)), corrected)
  {
    PlainHeaderStep(desc, status, body, tail, acc, corrected);
    assert ModuleLines(Plain(desc, status, body)) + tail == [HeaderLine(desc, status)] + body + [END_MODULE] + tail;
    BodyPassed(HeaderLine(desc, status), body, tail, acc.(qcInfo := Put(acc.qcInfo, desc, status)), corrected);
  }

  lemma PlainHeaderStep(desc: string, status: string, body: seq<string>, tail: seq<string>,
                        acc: FastqcData, corrected: bool)
    requires ValidModule(Plain(desc, status, body))
    ensures Scan(ModuleLines(Plain(desc, status, body)) + tail, acc, corrected)
            == Scan((ModuleLines(Plain(desc, status, body)) + tail)[1..], acc.(qcInfo := Put(acc.qcInfo, desc, status)), corrected)
  {
    var ls := ModuleLines(Plain(desc, status, body)) + tail;
    HeaderSplits(desc, status);
    assert ls[0] == HeaderLine(desc, status);
    ScanPlainHeader(ls, acc, corrected, desc, status);
  }

  /** After an ordinary module's header, its body and closing line are passed over. */
  lemma BodyPassed(header: string, body: seq<string>, tail: seq<string>, acc: FastqcData, corrected: bool)
    requires forall i :: 0 <= i < |body| ==> !StartsWith(body[i], MODULE_START)
    ensures Scan(([header] + body + [END_MODULE] + tail)[1..], acc, corrected) == Scan(tail, acc, corrected)
  {
    var ls := [header] + body + [END_MODULE] + tail;
    var closing := [END_MODULE] + tail;
    assert ls[1..] == body + closing;
    SkipBody(body, closing, acc, corrected);
    assert !IsModuleHeader(closing[0]);
    ScanPasses(closing, acc, corrected);
    assert closing[1..] == tail;
  }

  lemma ScanOverrepresentedModule(status: string, rows: seq<OverSeq>, tail: seq<string>,
                                  acc: FastqcData, corrected: bool)
    requires ValidModule(Overrepresented(status, rows))
    requires corrected || |rows| > 0
    ensures Scan(ModuleLines(Overrepresented(status, rows)) + tail, acc, corrected)
            == Scan(tail, FastqcData(Put(acc.qcInfo, OVERREPRESENTED, status), acc.overSeq + rows), corrected)
  {
    var ls := ModuleLines(Overrepresented(status, rows)) + tail;
    OverrepresentedHeader(status);
    assert ls[0] == HeaderLine(OVERREPRESENTED, status);
    SectionOfRendered(status, rows, tail, acc.overSeq, corrected);
    ScanOverrepresentedHeader(ls, acc, corrected, status, acc.overSeq + rows, tail);
  }

  /** The inner loop reads a rendered "Overrepresented sequences" body back. */
  lemma SectionOfRendered(status: string, rows: seq<OverSeq>, tail: seq<string>, acc: seq<OverSeq>, corrected: bool)
    requires ValidModule(Overrepresented(status, rows))
    requires corrected || |rows| > 0
    ensures corrected ==> SectionCorrected((ModuleLines(Overrepresented(status, rows)) + tail)[1..], acc) == Ok((acc + rows, tail))
    ensures !corrected ==> |ModuleLines(Overrepresented(status, rows)) + tail| > 1
                           && Section((ModuleLines(Overrepresented(status, rows)) + tail)[1..], acc) == Ok((acc + rows, tail))
  {
    if |rows| == 0 {
      assert rows == [] && acc + rows == acc;
      EmptyRenderedSection(status, tail, acc);
    } else {
      FullRenderedSection(status, rows, tail, acc);
    }
  }

  lemma EmptyRenderedSection(status: string, tail: seq<string>, acc: seq<OverSeq>)
    ensures SectionCorrected((ModuleLines(Overrepresented(status, [])) + tail)[1..], acc) == Ok((acc, tail))
  {
    var ls := ModuleLines(Overrepresented(status, [])) + tail;
    assert ls[1..] == [END_MODULE] + tail;
    EmptySectionCloses(END_MODULE, tail, acc);
  }

  lemma FullRenderedSection(status: string, rows: seq<OverSeq>, tail: seq<string>, acc: seq<OverSeq>)
    requires |rows| > 0 && forall i :: 0 <= i < |rows| ==> ValidRow(rows[i])
    ensures |ModuleLines(Overrepresented(status, rows)) + tail| > 1
    ensures Section((ModuleLines(Overrepresented(status, rows)) + tail)[1..], acc) == Ok((acc + rows, tail))
    ensures SectionCorrected((ModuleLines(Overrepresented(status, rows)) + tail)[1..], acc) == Ok((acc + rows, tail))
  {
    var ls := ModuleLines(Overrepresented(status, rows)) + tail;
    var sec := [COLUMN_HEADER] + RowLines(rows) + [END_MODULE] + tail;
    assert ls[1..] == sec;
    RenderedSection(rows, tail, acc);
    ColumnHeaderLine();
    SectionAgrees(sec, acc);
  }

  /** The column header is skipped by the inner loop and never closes it. */
  lemma ColumnHeaderLine()
    ensures StartsWith(COLUMN_HEADER, SEQ_HEADER)
    ensures !StartsWith(COLUMN_HEADER, END_MODULE)
  {
    assert COLUMN_HEADER[..4] == "#Seq" by {
      assert COLUMN_HEADER[0] == '#' && COLUMN_HEADER[1] == 'S';
      assert COLUMN_HEADER[2] == 'e' && COLUMN_HEADER[3] == 'q';
    }
    assert COLUMN_HEADER[0] != END_MODULE[0];
  }

  /** The rendered rows of a non-empty section come back in order. */
  lemma RenderedSection(rows: seq<OverSeq>, tail: seq<string>, acc: seq<OverSeq>)
    requires |rows| > 0 && forall i :: 0 <= i < |rows| ==> ValidRow(rows[i])
    ensures Section([COLUMN_HEADER] + RowLines(rows) + [END_MODULE] + tail, acc) == Ok((acc + rows, tail))
  {
    var sec := [COLUMN_HEADER] + RowLines(rows) + [END_MODULE] + tail;
    var e := 1 + |rows|;
    RenderedSectionCloses(rows, tail);
    SectionClosed(sec, acc, e);
    ColumnHeaderLine();
    KeptRowLines(rows);
    KeptAfterColumnHeader(RowLines(rows));
    assert [] + rows == rows;
  }

  lemma RenderedSectionCloses(rows: seq<OverSeq>, tail: seq<string>)
    requires forall i :: 0 <= i < |rows| ==> ValidRow(rows[i])
    ensures ClosedAt([COLUMN_HEADER] + RowLines(rows) + [END_MODULE] + tail, 1 + |rows|)
    ensures ([COLUMN_HEADER] + RowLines(rows) + [END_MODULE] + tail)[..1 + |rows|] == [COLUMN_HEADER] + RowLines(rows)
    ensures ([COLUMN_HEADER] + RowLines(rows) + [END_MODULE] + tail)[1 + |rows| + 1..] == tail
  {
    ClosedAfterLines(COLUMN_HEADER, RowLines(rows), tail);
  }

  /** Lines none of which closes the module, then a closing line. */
  lemma ClosedAfterLines(first: string, mid: seq<string>, tail: seq<string>)
    requires forall k :: 0 <= k < |mid| ==> !StartsWith(mid[k], END_MODULE)
    ensures ClosedAt([first] + mid + [END_MODULE] + tail, 1 + |mid|)
    ensures ([first] + mid + [END_MODULE] + tail)[..1 + |mid|] == [first] + mid
    ensures ([first] + mid + [END_MODULE] + tail)[1 + |mid| + 1..] == tail
  {
    var sec := [first] + mid + [END_MODULE] + tail;
    var e := 1 + |mid|;
    assert sec[e] == END_MODULE;
    EndModuleCloses();
    forall k | 1 <= k < e ensures !StartsWith(sec[k], END_MODULE) {
      assert sec[k] == mid[k - 1];
    }
  }

  lemma EndModuleCloses()
    ensures StartsWith(END_MODULE, END_MODULE)
  {
  }

  lemma KeptAfterColumnHeader(lines: seq<string>)
    requires StartsWith(COLUMN_HEADER, SEQ_HEADER)
    ensures KeptRows([COLUMN_HEADER] + lines) == (match KeptRows(lines) case Ok(rs) => Ok(rs) case Err(x) => Err(x))
  {
    assert ([COLUMN_HEADER] + lines)[1..] == lines;
    assert RowOf(COLUMN_HEADER) == Ok([]);
    match KeptRows(lines) {
      case Ok(rs) => assert [] + rs == rs;
      case Err(x) =>
    }
  }

  lemma {:induction false} KeptRowLines(rows: seq<OverSeq>)
    requires forall i :: 0 <= i < |rows| ==> ValidRow(rows[i])
    ensures KeptRows(RowLines(rows)) == Ok(rows)
    decreases |rows|
  {
    if |rows| > 0 {
      RowLineReads(rows[0]);
      KeptRowLines(rows[1..]);
      assert RowLines(rows)[1..] == RowLines(rows[1..]);
      assert [rows[0]] + rows[1..] == rows;
    }
  }

  /** One rendered row reads back as itself. */
  lemma RowLineReads(o: OverSeq)
    requires ValidRow(o)
    ensures RowOf(RowLine(o)) == Ok([o])
  {
    var fs := Fields(o);
    var line := RowLine(o);
    JoinEndsWithLast(fs, '\t');
    assert line[|line| - 1] == o.possibleSource[|o.possibleSource| - 1];
    CleanRStrip(line);
    SplitJoin(fs, '\t');
  }

  /** A header line splits back into its description and status. */
  lemma HeaderSplits(desc: string, status: string)
    requires ValidStatus(status) && !StartsWith(HeaderLine(desc, status), END_MODULE)
    ensures IsModuleHeader(HeaderLine(desc, status))
    ensures SplitHeader(HeaderLine(desc, status)) == Ok((desc, status))
  {
    var h := HeaderLine(desc, status);
    assert h[..2] == MODULE_START;
    assert h[|h| - 1] == status[|status| - 1];
    CleanRStrip(h);
    assert HeaderBody(h) == desc + "\t" + status;
    RSplitLastUnique(desc, '\t', status);
  }

  lemma OverrepresentedHeader(status: string)
    requires ValidStatus(status)
    ensures IsModuleHeader(HeaderLine(OVERREPRESENTED, status))
    ensures SplitHeader(HeaderLine(OVERREPRESENTED, status)) == Ok((OVERREPRESENTED, status))
  {
    var h := HeaderLine(OVERREPRESENTED, status);
    assert h[2] == 'O' && END_MODULE[2] == 'E';
    HeaderSplits(OVERREPRESENTED, status);
  }

  /** Lines that do not start with ">>" are passed over. */
  lemma {:induction false} SkipBody(body: seq<string>, rest: seq<string>, acc: FastqcData, corrected: bool)
    requires forall i :: 0 <= i < |body| ==> !StartsWith(body[i], MODULE_START)
    ensures Scan(body + rest, acc, corrected) == Scan(rest, acc, corrected)
    decreases |body|
  {
    if |body| > 0 {
      assert (body + rest)[0] == body[0];
      assert (body + rest)[1..] == body[1..] + rest;
      SkipBody(body[1..], rest, acc, corrected);
    } else {
      assert body + rest == rest;
    }
  }

  /** `rstrip()` leaves a string that does not end in whitespace alone. */
  lemma CleanRStrip(s: string)
    requires EndsClean(s)
    ensures RStrip(s) == s
  {
  }

  /** `rsplit(c, 1)` splits at the last separator, so a right part without
      the separator is recovered whole. */
  lemma RSplitLastUnique(left: string, c: char, right: string)
    requires c !in right
    ensures RSplitLast(left + [c] + right, c) == Some((left, right))
  {
    var r := RSplitLast(left + [c] + right, c);
    LastSeparator(r.value.0, r.value.1, left, right, c);
  }

  /** Two splits of one string at a separator that neither right part holds
      are the same split. */
  lemma LastSeparator(a: string, b: string, left: string, right: string, c: char)
    requires a + [c] + b == left + [c] + right
    requires c !in b && c !in right
    ensures a == left && b == right
  {
    var s := left + [c] + right;
    ShorterRightHoldsSeparator(a, b, left, right, c);
    ShorterRightHoldsSeparator(left, right, a, b, c);
    assert b == s[|s| - |b|..];
    assert right == s[|s| - |right|..];
    assert a == s[..|a|];
    assert left == s[..|left|];
  }

  lemma ShorterRightHoldsSeparator(a: string, b: string, left: string, right: string, c: char)
    requires a + [c] + b == left + [c] + right
    ensures |b| < |right| ==> c in right
  {
    if |b| < |right| {
      var s := left + [c] + right;
      assert s[|a|] == c;
      assert right[|right| - |b| - 1] == s[|a|];
    }
  }

  /** A join ends with its last field. */
  lemma {:induction false} JoinEndsWithLast(fields: seq<string>, c: char)
    requires |fields| > 0
    ensures EndsWith(Join(fields, c), fields[|fields| - 1])
    decreases |fields|
  {
    if |fields| > 1 {
      JoinEndsWithLast(fields[1..], c);
      var j := Join(fields, c);
      var t := Join(fields[1..], c);
      assert j == fields[0] + [c] + t;
      assert j[|j| - |t|..] == t;
    }
  }
}
