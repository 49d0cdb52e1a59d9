/** examples/my_first_pipe/mypipe.py: `MyStage.parse` reads the stage's
    `summary.txt` and publishes the mapping rate found on its last line
    that starts with "Overall". The file's lines are an input, or None when
    the file cannot be opened. */
module MyPipe {
  import opened Options
  import opened Results
  import opened Text

  const UNKNOWN := "(Unknown)"
  const PLACEHOLDER := "50%"
  const OVERALL := "Overall"
  const SEPARATOR := ": "

  /** `line.startswith("Overall")`, applied to the raw line. */
  predicate IsOverall(line: string) {
    StartsWith(line, OVERALL)
  }

  /** `line.strip().split(': ')[-1]`: the text after the last ": " of the
      stripped line, or the whole stripped line when it holds no ": ". */
  function RateOf(line: string): (r: string)
    ensures SegmentOk(Strip(line), SEPARATOR, r)
  {
    LastSegmentSpec(Strip(line), SEPARATOR);
    LastSegment(Strip(line), SEPARATOR)
  }

  /** The `for line in summary` loop, `rate` holding `mapped_rate` and
      `extract` the value a matching line gives (RateOf): the result is
      the starting rate or the value of some "Overall" line. */
  function ScanSummary(lines: seq<string>, rate: string, extract: string -> string): (r: string)
    ensures r == rate || exists i :: 0 <= i < |lines| && IsOverall(lines[i]) && r == extract(lines[i])
    decreases |lines|
  {
    if |lines| == 0 then rate
    else
      assert forall i :: 0 <= i < |lines| - 1 ==> lines[1..][i] == lines[i + 1];
      ScanSummary(lines[1..], if IsOverall(lines[0]) then extract(lines[0]) else rate, extract)
  }

  /** `result_info['mapped_rate']` after the loop: "(Unknown)" or the rate
      of some "Overall" line. */
  function MappedRate(lines: seq<string>): (r: string)
    ensures r == UNKNOWN || exists i :: 0 <= i < |lines| && IsOverall(lines[i]) && r == RateOf(lines[i])
  {
    ScanSummary(lines, UNKNOWN, RateOf)
  }

  /** `i` is the last line that starts with "Overall". */
  predicate LastOverallAt(lines: seq<string>, i: int) {
    0 <= i < |lines| && IsOverall(lines[i]) && forall j :: i < j < |lines| ==> !IsOverall(lines[j])
  }

  /** With no "Overall" line the rate is left as it was. */
  lemma {:induction false} NoOverallKeepsRate(lines: seq<string>, rate: string, extract: string -> string)
    requires forall j :: 0 <= j < |lines| ==> !IsOverall(lines[j])
    ensures ScanSummary(lines, rate, extract) == rate
    decreases |lines|
  {
    if |lines| > 0 {
      assert forall j :: 0 <= j < |lines[1..]| ==> lines[1..][j] == lines[j + 1];
      NoOverallKeepsRate(lines[1..], rate, extract);
    }
  }

  /** The last "Overall" line decides the rate. */
  lemma {:induction false} LastOverallWins(lines: seq<string>, rate: string, extract: string -> string, i: int)
    requires LastOverallAt(lines, i)
    ensures ScanSummary(lines, rate, extract) == extract(lines[i])
    decreases |lines|
  {
    var next := if IsOverall(lines[0]) then extract(lines[0]) else rate;
    if i > 0 {
      assert LastOverallAt(lines[1..], i - 1) by {
        assert forall j :: 0 <= j < |lines[1..]| ==> lines[1..][j] == lines[j + 1];
      }
      LastOverallWins(lines[1..], next, extract, i - 1);
    } else {
      assert forall j :: 0 <= j < |lines[1..]| ==> !IsOverall(lines[1..][j]) by {
        assert forall j :: 0 <= j < |lines[1..]| ==> lines[1..][j] == lines[j + 1];
      }
      NoOverallKeepsRate(lines[1..], next, extract);
    }
  }

  /** `mapped_rate` is "(Unknown)" exactly when no line starts with
      "Overall", and otherwise comes from the last line that does. */
  lemma MappedRateSpec(lines: seq<string>)
    ensures (forall j :: 0 <= j < |lines| ==> !IsOverall(lines[j])) ==> MappedRate(lines) == UNKNOWN
    ensures forall i :: LastOverallAt(lines, i) ==> MappedRate(lines) == RateOf(lines[i])
  {
    if forall j :: 0 <= j < |lines| ==> !IsOverall(lines[j]) {
      NoOverallKeepsRate(lines, UNKNOWN, RateOf);
    }
    forall i | LastOverallAt(lines, i) ensures MappedRate(lines) == RateOf(lines[i]) {
      LastOverallWins(lines, UNKNOWN, RateOf, i);
    }
  }

  /** A line indented before "Overall" never matches, so a summary whose
      lines are all indented leaves the rate unknown. */
  lemma IndentedLinesIgnored(lines: seq<string>)
    requires forall j :: 0 <= j < |lines| ==> |lines[j]| > 0 && IsSpace(lines[j][0])
    ensures MappedRate(lines) == UNKNOWN
  {
    forall j | 0 <= j < |lines| ensures !IsOverall(lines[j]) {
      assert lines[j][0] != OVERALL[0];
    }
    NoOverallKeepsRate(lines, UNKNOWN, RateOf);
  }

  /** `MyStage.parse`: `result_info['mapped_rate']` is first the
      placeholder "50%", then overwritten with the rate read from the
      summary; a summary that cannot be opened raises. */
  function ParseMyStage(summary: Option<seq<string>>): (r: Result<map<string, string>>)
    ensures summary.None? ==> r == Err(MissingFile("my_stage/summary.txt"))
    ensures summary.Some? ==> r.Ok? && r.value.Keys == {"mapped_rate"}
                              && r.value["mapped_rate"] == MappedRate(summary.value)
  {
    var info := map["mapped_rate" := PLACEHOLDER];
    match summary
    case None => Err(MissingFile("my_stage/summary.txt"))
    case Some(lines) => Ok(info["mapped_rate" := MappedRate(lines)])
  }

  /** The placeholder never survives a successful parse: the published
      rate is either "(Unknown)" or text read from a line. */
  lemma PlaceholderOverwritten(lines: seq<string>)
    ensures ParseMyStage(Some(lines)).value["mapped_rate"] == UNKNOWN
            || exists i :: LastOverallAt(lines, i) && ParseMyStage(Some(lines)).value["mapped_rate"] == RateOf(lines[i])
  {
    MappedRateSpec(lines);
    if exists j :: 0 <= j < |lines| && IsOverall(lines[j]) {
      var i := LastOverall(lines);
    }
  }

  /** The index of the last "Overall" line, when there is one. */
  lemma {:induction false} LastOverall(lines: seq<string>) returns (i: int)
    requires exists j :: 0 <= j < |lines| && IsOverall(lines[j])
    ensures LastOverallAt(lines, i)
    decreases |lines|
  {
    var n := |lines| - 1;
    if IsOverall(lines[n]) {
      i := n;
    } else {
      var j :| 0 <= j < |lines| && IsOverall(lines[j]);
      assert lines[..n][j] == lines[j];
      i := LastOverall(lines[..n]);
      assert forall k :: i < k < n ==> lines[k] == lines[..n][k];
    }
  }
}
