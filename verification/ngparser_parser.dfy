/** ngparser/_parser.py: a stage's result folder and the names of the
    samples it holds. */
module NgparserParser {
  import opened PyValues
  import opened Results
  import opened Paths
  import opened Text

  /** `NGSSample(name, pair_end)`: stored as given. */
  datatype NgsSample = NgsSample(name: string, pairEnd: PyValue)

  datatype StageResult = StageResult(rootPath: Path, sampleList: seq<NgsSample>)

  /** `StageResult(root_path, sample_list)`: the root is kept as a Path
      (a str is converted), and the given sample list is ignored: the
      instance always starts with an empty one. */
  function NewStageResult(rootPath: PyValue, sampleList: seq<NgsSample>): (r: Result<StageResult>)
    ensures r.Ok? <==> rootPath.PyPath? || rootPath.PyStr?
    ensures r.Ok? ==> r.value.sampleList == []
    ensures rootPath.PyPath? ==> r == Ok(StageResult(rootPath.p, []))
    ensures rootPath.PyStr? ==> r == Ok(StageResult(PathOf(rootPath.s), [])) && WellFormed(r.value.rootPath)
    ensures r.Err? ==> r.error.Class() == TypeErr
  {
    match rootPath
    case PyPath(p) => Ok(StageResult(p, []))
    case PyStr(s) => Ok(StageResult(PathOf(s), []))
    case _ => Err(NotPathConvertible)
  }

  /** A root given as the string form of a Path is the same root as that Path. */
  lemma StrAndPathRootsAgree(p: Path, samples: seq<NgsSample>)
    requires WellFormed(p)
    ensures NewStageResult(PyStr(AsPosix(p)), samples) == NewStageResult(PyPath(p), samples)
  {
    PathOfAsPosix(p);
  }

  /** A str root is normalised as pathlib does: repeated slashes and "."
      components disappear. */
  lemma StrRootNormalised()
    ensures NewStageResult(PyStr("a//./b"), []) == Ok(StageResult(Path("", ["a", "b"]), []))
  {
    SplitExample();
    ComponentsExample();
    assert RootOf("a//./b") == "" by {
      assert !StartsWith("a//./b", "/");
    }
    assert PathOf("a//./b") == Path("", ["a", "b"]);
  }

  lemma ComponentsExample()
    ensures Components(["a", "", ".", "b"]) == ["a", "b"]
  {
    var fs: seq<string> := ["a", "", ".", "b"];
    assert fs[1..][1..][1..] == ["b"];
    assert Components(["b"]) == ["b"];
    assert Components(fs[1..][1..]) == ["b"];
    assert Components(fs[1..]) == ["b"];
  }

  lemma SplitExample()
    ensures Split("a//./b", '/') == ["a", "", ".", "b"]
  {
    assert Split("b", '/') == ["b"] by {
      assert "b"[1..] == "" && ['b'] + "" == "b";
    }
    assert Split("/./b", '/') == ["", ".", "b"] by {
      assert "/./b"[1..] == "./b" && "./b"[1..] == "/b" && "/b"[1..] == "b";
      assert Split("./b", '/') == [".", "b"] by {
        assert ['.'] + "" == ".";
      }
    }
    assert "a//./b"[1..] == "//./b" && "//./b"[1..] == "/./b" && ['a'] + "" == "a";
  }

  /** `StageResult.all_samples()` as written, over the result's sample
      list: a paired sample yields `name_R1` then `name_R2`; an unpaired
      one yields the unformatted literal "%s". Either way the count is two
      names per paired sample and one per unpaired sample. */
  function NamesAsWritten(samples: seq<NgsSample>): (r: seq<string>)
    ensures PairedCount(samples) <= |samples|
    ensures |r| == 2 * PairedCount(samples) + (|samples| - PairedCount(samples))
  {
    if |samples| == 0 then []
    else
      (if Truthy(samples[0].pairEnd) then [samples[0].name + "_R1", samples[0].name + "_R2"] else ["%s"])
      + NamesAsWritten(samples[1..])
  }

  /** The evidently intended generator: an unpaired sample yields its name. */
  function NamesIntended(samples: seq<NgsSample>): (r: seq<string>)
    ensures |r| == |NamesAsWritten(samples)|
  {
    if |samples| == 0 then []
    else
      (if Truthy(samples[0].pairEnd) then [samples[0].name + "_R1", samples[0].name + "_R2"] else [samples[0].name])
      + NamesIntended(samples[1..])
  }

  function PairedCount(samples: seq<NgsSample>): nat {
    if |samples| == 0 then 0 else (if Truthy(samples[0].pairEnd) then 1 else 0) + PairedCount(samples[1..])
  }

  /** Yielding distributes over concatenation of sample lists: the output
      follows the sample list's order. */
  lemma {:induction false} NamesAsWrittenAppend(a: seq<NgsSample>, b: seq<NgsSample>)
    ensures NamesAsWritten(a + b) == NamesAsWritten(a) + NamesAsWritten(b)
  {
    if |a| > 0 {
      assert (a + b)[1..] == a[1..] + b;
      NamesAsWrittenAppend(a[1..], b);
    } else {
      assert a + b == b;
    }
  }

  /** The same for the intended generator. */
  lemma {:induction false} NamesIntendedAppend(a: seq<NgsSample>, b: seq<NgsSample>)
    ensures NamesIntended(a + b) == NamesIntended(a) + NamesIntended(b)
  {
    if |a| > 0 {
      assert (a + b)[1..] == a[1..] + b;
      NamesIntendedAppend(a[1..], b);
    } else {
      assert a + b == b;
    }
  }

  /** A paired sample contributes exactly its two read names, R1 first. */
  lemma PairedSampleNames(s: NgsSample)
    requires Truthy(s.pairEnd)
    ensures NamesAsWritten([s]) == [s.name + "_R1", s.name + "_R2"]
    ensures NamesIntended([s]) == NamesAsWritten([s])
  {
    assert [s][1..] == [];
  }

  /** The intended generator yields, for each sample, its two read names
      when it is paired and its own name otherwise; with NamesIntendedAppend
      this fixes the whole output. */
  lemma IntendedSampleNames(s: NgsSample)
    ensures Truthy(s.pairEnd) ==> NamesIntended([s]) == [s.name + "_R1", s.name + "_R2"]
    ensures !Truthy(s.pairEnd) ==> NamesIntended([s]) == [s.name]
  {
    assert [s][1..] == [];
  }

  /** The as-written generator disagrees with the intended one on every
      unpaired sample whose name is not literally "%s". */
  lemma UnpairedSampleYieldsLiteral(s: NgsSample)
    requires !Truthy(s.pairEnd) && s.name != "%s"
    ensures NamesAsWritten([s]) == ["%s"]
    ensures NamesIntended([s]) == [s.name]
    ensures NamesAsWritten([s]) != NamesIntended([s])
  {
    assert [s][1..] == [];
  }

  /** The two generators agree name by name except where the as-written
      one yields the literal "%s". */
  lemma {:induction false} AsWrittenDiffersOnlyByLiteral(samples: seq<NgsSample>)
    ensures forall j :: 0 <= j < |NamesIntended(samples)| ==>
              NamesAsWritten(samples)[j] == NamesIntended(samples)[j] || NamesAsWritten(samples)[j] == "%s"
  {
    if |samples| > 0 {
      AsWrittenDiffersOnlyByLiteral(samples[1..]);
      var w := NamesAsWritten(samples);
      var n := NamesIntended(samples);
      var k := if Truthy(samples[0].pairEnd) then 2 else 1;
      forall j | 0 <= j < |n| ensures w[j] == n[j] || w[j] == "%s" {
        if j >= k {
          assert w[j] == NamesAsWritten(samples[1..])[j - k];
          assert n[j] == NamesIntended(samples[1..])[j - k];
        }
      }
    }
  }

  /** A freshly constructed StageResult yields no names at all. */
  lemma FreshStageResultYieldsNothing(rootPath: PyValue, sampleList: seq<NgsSample>)
    requires NewStageResult(rootPath, sampleList).Ok?
    ensures NamesAsWritten(NewStageResult(rootPath, sampleList).value.sampleList) == []
  {
  }
}
