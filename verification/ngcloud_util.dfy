/** ngcloud/util.py: argument validation, path normalisation and
    pattern-driven file discovery. File copying, `open`, `abspath` and
    `expanduser` touch the file system and are not part of this model. */
module NgcloudUtil {
  import opened PyValues
  import opened Results
  import opened Paths
  import opened PyOps

  /** `_val_bool_or_none(arg, name)`: passes for True, False and None only
      (`isinstance(arg, bool)`, so the integers 0 and 1 fail); a failure is
      a ValueError whose message names `name`. */
  function ValBoolOrNone(arg: PyValue, name: string): (r: Outcome)
    ensures r.Fail? ==> r.error == NotBoolOrNone(name) && r.error.Class() == ValueErr
  {
    if !IsBool(arg) && arg != PyNone then Fail(NotBoolOrNone(name)) else Pass
  }

  /** The accepted values are exactly True, False and None. */
  lemma ValBoolOrNoneAccepts(arg: PyValue, name: string)
    ensures ValBoolOrNone(arg, name).Pass? <==> arg in {PyBool(true), PyBool(false), PyNone}
  {
    if arg.PyBool? {
      assert arg == PyBool(arg.b);
    }
  }

  /** Integers are refused even where Python's `==` equates them with bools. */
  lemma ValBoolOrNoneRejectsInts(n: int, name: string)
    ensures ValBoolOrNone(PyInt(n), name) == Fail(NotBoolOrNone(name))
    ensures n == 0 ==> PyEq(PyInt(n), PyBool(false))
  {
  }

  /** `strify_path(path_like)`: the POSIX form of a Path, a str unchanged,
      and a ValueError for any other type. */
  function StrifyPath(v: PyValue): (r: Result<string>)
    ensures v.PyStr? ==> r == Ok(v.s)
    ensures !(v.PyStr? || v.PyPath?) ==> r == Err(UnknownPathLike) && r.error.Class() == ValueErr
    ensures v.PyPath? ==> r.Ok?
  {
    match v
    case PyPath(p) => Ok(AsPosix(p))
    case PyStr(s) => Ok(s)
    case _ => Err(UnknownPathLike)
  }

  /** A Path's string form parses back to the same Path. */
  lemma StrifyPathRoundTrip(p: Path)
    requires WellFormed(p)
    ensures StrifyPath(PyPath(p)).Ok? && PathOf(StrifyPath(PyPath(p)).value) == p
  {
    PathOfAsPosix(p);
  }

  /** The documented example: `Path('ngcloud') / 'hi.py'` becomes "ngcloud/hi.py". */
  lemma StrifyPathExample()
    ensures StrifyPath(PyPath(Child(Path("", ["ngcloud"]), "hi.py"))) == Ok("ngcloud/hi.py")
  {
    var p := Child(Path("", ["ngcloud"]), "hi.py");
    assert p.parts == ["ngcloud", "hi.py"];
    assert p.parts[1..] == ["hi.py"];
    assert Text.Join(p.parts, '/') == "ngcloud" + "/" + "hi.py";
    assert AsPosix(p) == "" + ("ngcloud" + "/" + "hi.py");
    assert "" + ("ngcloud" + "/" + "hi.py") == "ngcloud/hi.py";
  }

  /** `path_like.glob(pattern)`, left abstract: the matches of one pattern
      under one directory, or the error glob raises. */
  /** `Path.glob` on a str pattern that passed pathlib's own checks; it
      may raise (an absolute pattern, say), which the Result records. */
  type Glob = (Path, string) -> Result<seq<Path>>

  /** `path_like.glob(pattern)` for one pattern, in the order Python
      raises: a `path_like` that is not a Path has no `glob` attribute
      (AttributeError); pathlib rejects a falsy pattern (ValueError); a
      pattern that is not a str, a Path included, fails with TypeError
      when pathlib 3.12 splits it as a path string. */
  function GlobOne(root: PyValue, pattern: PyValue, glob: Glob): (r: Result<seq<Path>>)
    ensures !root.PyPath? ==> r == Err(NoGlobMethod)
    ensures root.PyPath? && !Truthy(pattern) ==> r == Err(UnacceptablePattern)
    ensures root.PyPath? && Truthy(pattern) && pattern.PyStr? ==> r == glob(root.p, pattern.s)
    ensures root.PyPath? && Truthy(pattern) && !pattern.PyStr? ==> r == Err(BadPatterns)
  {
    if !root.PyPath? then Err(NoGlobMethod)
    else if !Truthy(pattern) then Err(UnacceptablePattern)
    else match pattern
      case PyStr(s) => glob(root.p, s)
      case _ => Err(BadPatterns)
  }

  /** The concatenation of per-pattern match lists, in pattern order: the
      independent statement of what the loop builds. */
  function Flatten(xss: seq<seq<Path>>): seq<Path> {
    if |xss| == 0 then [] else xss[0] + Flatten(xss[1..])
  }

  /** `for pattern in patterns: found.extend(path_like.glob(pattern))`:
      the matches of every pattern, in order, or the first pattern's
      exception. */
  function GlobEach(root: PyValue, patterns: seq<PyValue>, glob: Glob): (r: Result<seq<Path>>)
    ensures r.Ok? <==> forall i :: 0 <= i < |patterns| ==> GlobOne(root, patterns[i], glob).Ok?
    ensures r.Ok? ==> r.value == Flatten(seq(|patterns|, i requires 0 <= i < |patterns| => GlobOne(root, patterns[i], glob).value))
    ensures r.Err? ==> exists k :: 0 <= k < |patterns| && GlobOne(root, patterns[k], glob) == Err(r.error)
                                   && forall i :: 0 <= i < k ==> GlobOne(root, patterns[i], glob).Ok?
    ensures |patterns| > 0 && !root.PyPath? ==> r == Err(NoGlobMethod)
  {
    match MapUntilError(patterns, p => GlobOne(root, p, glob))
    case Err(e) => Err(e)
    case Ok(xss) =>
      assert xss == seq(|patterns|, i requires 0 <= i < |patterns| => GlobOne(root, patterns[i], glob).value);
      Ok(Flatten(xss))
  }

  /** `discover_file_by_patterns(path_like, file_patterns)`: every pattern
      the argument yields when iterated is globbed in turn. A str is itself
      iterable, so it is globbed one character at a time; the str fallback
      is reached only when that loop raises TypeError; anything that is not
      iterable raises TypeError. AttributeError and ValueError escape the
      `except TypeError`. */
  function DiscoverFileByPatterns(root: PyValue, filePatterns: PyValue, glob: Glob): (r: Result<seq<Path>>)
    ensures !(filePatterns.PyList? || filePatterns.PyStr? || filePatterns.PyDict?) ==> r == Err(BadPatterns)
    ensures r.Err? && r.error.Class() == TypeErr && !filePatterns.PyStr? ==> r == Err(BadPatterns)
    ensures Iterate(filePatterns).Ok? && GlobEach(root, Iterate(filePatterns).value, glob).Ok?
            ==> r == GlobEach(root, Iterate(filePatterns).value, glob)
    ensures Iterate(filePatterns).Ok? && GlobEach(root, Iterate(filePatterns).value, glob).Err?
            && GlobEach(root, Iterate(filePatterns).value, glob).error.Class() != TypeErr
            ==> r == GlobEach(root, Iterate(filePatterns).value, glob)
    ensures !root.PyPath? && Iterate(filePatterns).Ok? && |Iterate(filePatterns).value| > 0 ==> r == Err(NoGlobMethod)
  {
    var attempt :=
      match Iterate(filePatterns)
      case Err(e) => Err(e)
      case Ok(items) => GlobEach(root, items, glob);
    if attempt.Err? && attempt.error.Class() == TypeErr then
      if filePatterns.PyStr? then GlobOne(root, filePatterns, glob) else Err(BadPatterns)
    else attempt
  }

  /** The docstring's first example passes the str "report" as
      `path_like`: the first pattern character's `path_like.glob` lookup
      raises AttributeError, which the `except TypeError` does not catch. */
  lemma DocstringExampleRaises(glob: Glob)
    ensures DiscoverFileByPatterns(PyStr("report"), PyStr("**/_*.html"), glob) == Err(NoGlobMethod)
  {
    assert |Iterate(PyStr("**/_*.html")).value| == 10;
  }

  /** A list whose first pattern is a Path: pathlib raises TypeError on
      it, and since the argument is not a str the function re-raises
      TypeError("Unexpect file_patterns"). */
  lemma PathPatternRejected(root: Path, q: Path, rest: seq<PyValue>, glob: Glob)
    ensures DiscoverFileByPatterns(PyPath(root), PyList([PyPath(q)] + rest), glob) == Err(BadPatterns)
  {
  }

  /** The same call as intended: the str "report" is the folder
      `Path('report')`, and the pattern is globbed whole. */
  lemma DocstringExampleIntended()
    ensures DiscoverIntended(PyStr("report"), PyStr("**/_*.html"), EchoGlob) == Ok([Path("", ["**/_*.html"])])
  {
  }

  /** A glob that never raises. */
  ghost predicate TotalGlob(glob: Glob) {
    forall root, pattern :: glob(root, pattern).Ok?
  }

  /** With a glob that never raises, a list of non-empty str patterns under
      a Path yields the concatenation of each pattern's matches, in pattern
      order. */
  lemma DiscoverListConcatenates(root: Path, patterns: seq<string>, glob: Glob)
    requires TotalGlob(glob)
    requires forall i :: 0 <= i < |patterns| ==> |patterns[i]| > 0
    ensures DiscoverFileByPatterns(PyPath(root), PyList(seq(|patterns|, i requires 0 <= i < |patterns| => PyStr(patterns[i]))), glob)
            == Ok(Flatten(seq(|patterns|, i requires 0 <= i < |patterns| => glob(root, patterns[i]).value)))
  {
    var items := seq(|patterns|, i requires 0 <= i < |patterns| => PyStr(patterns[i]));
    assert Iterate(PyList(items)) == Ok(items);
    GlobEachStrs(root, patterns, glob);
  }

  lemma GlobEachStrs(root: Path, patterns: seq<string>, glob: Glob)
    requires TotalGlob(glob)
    requires forall i :: 0 <= i < |patterns| ==> |patterns[i]| > 0
    ensures GlobEach(PyPath(root), seq(|patterns|, i requires 0 <= i < |patterns| => PyStr(patterns[i])), glob)
            == Ok(Flatten(seq(|patterns|, i requires 0 <= i < |patterns| => glob(root, patterns[i]).value)))
  {
    var items := seq(|patterns|, i requires 0 <= i < |patterns| => PyStr(patterns[i]));
    forall i | 0 <= i < |patterns|
      ensures GlobOne(PyPath(root), items[i], glob) == glob(root, patterns[i])
    {
      assert Truthy(items[i]);
    }
    assert seq(|items|, i requires 0 <= i < |items| => GlobOne(PyPath(root), items[i], glob).value)
        == seq(|patterns|, i requires 0 <= i < |patterns| => glob(root, patterns[i]).value);
  }

  /** A glob that may raise, but never TypeError: pathlib's own errors on
      a str pattern are ValueError and NotImplementedError. */
  ghost predicate RaisesNoTypeError(glob: Glob) {
    forall root, pattern :: glob(root, pattern).Err? ==> glob(root, pattern).error.Class() != TypeErr
  }

  /** A str argument is globbed character by character, exactly as the
      list of its one-character strings would be. */
  lemma StrPatternsAreCharacters(root: PyValue, s: string, glob: Glob)
    requires RaisesNoTypeError(glob)
    ensures DiscoverFileByPatterns(root, PyStr(s), glob)
            == DiscoverFileByPatterns(root, PyList(seq(|s|, i requires 0 <= i < |s| => PyStr([s[i]]))), glob)
  {
    var chars := seq(|s|, i requires 0 <= i < |s| => PyStr([s[i]]));
    assert Iterate(PyStr(s)) == Ok(chars);
    assert Iterate(PyList(chars)) == Ok(chars);
    var g := GlobEach(root, chars, glob);
    if g.Err? {
      var k :| 0 <= k < |chars| && GlobOne(root, chars[k], glob) == Err(g.error);
      if root.PyPath? {
        assert Truthy(chars[k]);
        assert GlobOne(root, chars[k], glob) == glob(root.p, [s[k]]);
      }
      assert g.error.Class() != TypeErr;
    }
  }

  /** A str argument is globbed whole only when it is a single character:
      the default pattern "*" behaves as documented. */
  lemma SingleCharacterPattern(root: Path, glob: Glob)
    ensures DiscoverFileByPatterns(PyPath(root), PyStr("*"), glob) == glob(root, "*")
  {
    var items := [PyStr("*")];
    var it := Iterate(PyStr("*"));
    assert |it.value| == 1 && it.value[0] == PyStr(["*"[0]]);
    assert ["*"[0]] == "*";
    assert it.value == items;
    GlobSingle(PyPath(root), PyStr("*"), glob);
  }

  lemma GlobSingle(root: PyValue, pattern: PyValue, glob: Glob)
    ensures GlobOne(root, pattern, glob).Ok? ==> GlobEach(root, [pattern], glob) == GlobOne(root, pattern, glob)
    ensures GlobOne(root, pattern, glob).Err? ==> GlobEach(root, [pattern], glob) == GlobOne(root, pattern, glob)
  {
    var one := GlobOne(root, pattern, glob);
    if one.Ok? {
      assert Flatten([one.value]) == one.value + Flatten([]);
      assert one.value + [] == one.value;
    }
  }

  /** The `path_like` the docstring evidently allows: a str names the
      same folder as the Path parsed from it. */
  function IntendedRoot(root: PyValue): (r: PyValue)
    ensures root.PyStr? ==> r == PyPath(PathOf(root.s))
    ensures !root.PyStr? ==> r == root
  {
    if root.PyStr? then PyPath(PathOf(root.s)) else root
  }

  /** The evident intent of the code and its docstring: a str `path_like`
      is taken as a Path, a str pattern is one whole pattern, and any other
      pattern argument is treated as written. */
  function DiscoverIntended(root: PyValue, filePatterns: PyValue, glob: Glob): (r: Result<seq<Path>>)
    ensures !root.PyStr? && !filePatterns.PyStr? ==> r == DiscoverFileByPatterns(root, filePatterns, glob)
    ensures (root.PyStr? || root.PyPath?) && filePatterns.PyStr? && |filePatterns.s| > 0
            ==> r == glob(IntendedRoot(root).p, filePatterns.s)
  {
    if filePatterns.PyStr? then GlobOne(IntendedRoot(root), filePatterns, glob)
    else DiscoverFileByPatterns(IntendedRoot(root), filePatterns, glob)
  }

  /** Under the intended reading a str pattern is globbed exactly as the
      one-element list holding it. */
  lemma StrIsOnePattern(root: PyValue, s: string, glob: Glob)
    requires RaisesNoTypeError(glob)
    ensures DiscoverIntended(root, PyStr(s), glob) == DiscoverFileByPatterns(IntendedRoot(root), PyList([PyStr(s)]), glob)
  {
    assert Iterate(PyList([PyStr(s)])) == Ok([PyStr(s)]);
    GlobSingle(IntendedRoot(root), PyStr(s), glob);
  }

  /** A glob that returns the pattern itself as its one match, so that the
      patterns actually globbed can be read off the result. */
  function EchoGlob(root: Path, pattern: string): Result<seq<Path>> {
    Ok([Path("", [pattern])])
  }

  // The pattern "**", with which the docstring's example pattern starts,
  // is globbed as "*" twice when written, and whole when intended.
  lemma DoubleStarSplit(root: Path)
    ensures DiscoverFileByPatterns(PyPath(root), PyStr("**"), EchoGlob) == Ok([Path("", ["*"]), Path("", ["*"])])
    ensures DiscoverIntended(PyPath(root), PyStr("**"), EchoGlob) == Ok([Path("", ["**"])])
  {
    var items := [PyStr("*"), PyStr("*")];
    var it := Iterate(PyStr("**")).value;
    assert |it| == 2 && it[0] == PyStr(["**"[0]]) && it[1] == PyStr(["**"[1]]);
    assert ["**"[0]] == "*" && ["**"[1]] == "*";
    assert it == items;
    var one := [Path("", ["*"])];
    assert GlobOne(PyPath(root), PyStr("*"), EchoGlob) == Ok(one);
    assert GlobOne(PyPath(root), items[0], EchoGlob) == Ok(one) && GlobOne(PyPath(root), items[1], EchoGlob) == Ok(one);
    var xss := seq(|items|, i requires 0 <= i < |items| => GlobOne(PyPath(root), items[i], EchoGlob).value);
    assert xss == [one, one];
    assert [one, one][1..] == [one] && [one][1..] == [];
    assert Flatten([one]) == one + [];
    assert Flatten([one, one]) == one + one;
    assert GlobEach(PyPath(root), items, EchoGlob) == Ok(one + one);
    assert one + one == [Path("", ["*"]), Path("", ["*"])];
  }
}
