/** A pure POSIX path, as `pathlib.PurePosixPath` represents one: an anchor
    ("", "/" or "//") and the list of its non-empty components. */
module Paths {
  import opened Text

  datatype Path = Path(root: string, parts: seq<string>)

  /** A component as pathlib stores it: non-empty, no slash, not ".". */
  predicate IsComponent(c: string) {
    |c| > 0 && '/' !in c && c != "."
  }

  predicate WellFormed(p: Path) {
    && (p.root == "" || p.root == "/" || p.root == "//")
    && forall i :: 0 <= i < |p.parts| ==> IsComponent(p.parts[i])
  }

  /** The anchor pathlib reads off a string: exactly two leading slashes
      are kept as "//", one or three or more collapse to "/". */
  function RootOf(s: string): string {
    if StartsWith(s, "//") && !StartsWith(s, "///") then "//"
    else if StartsWith(s, "/") then "/"
    else ""
  }

  /** The fields of a slash split that pathlib keeps as components: empty
      fields (from repeated slashes) and "." are dropped. */
  function Components(fields: seq<string>): (r: seq<string>)
    ensures forall i :: 0 <= i < |r| ==> r[i] in fields
    ensures |r| <= |fields|
  {
    if |fields| == 0 then []
    else if fields[0] == "" || fields[0] == "." then Components(fields[1..])
    else [fields[0]] + Components(fields[1..])
  }

  /** `Path(s)` for a str `s`. */
  function PathOf(s: string): (p: Path)
    ensures WellFormed(p)
  {
    var fields := Split(s, '/');
    var parts := Components(fields);
    assert forall i :: 0 <= i < |parts| ==> IsComponent(parts[i]) by {
      forall i | 0 <= i < |parts| ensures IsComponent(parts[i]) {
        ComponentsAreComponents(fields, i);
      }
    }
    Path(RootOf(s), parts)
  }

  lemma {:induction false} ComponentsAreComponents(fields: seq<string>, i: int)
    requires forall j :: 0 <= j < |fields| ==> '/' !in fields[j]
    requires 0 <= i < |Components(fields)|
    ensures IsComponent(Components(fields)[i])
    decreases |fields|
  {
    if fields[0] == "" || fields[0] == "." {
      ComponentsAreComponents(fields[1..], i);
    } else if i > 0 {
      ComponentsAreComponents(fields[1..], i - 1);
    }
  }

  /** `p.as_posix()`, which is also `str(p)`: "." for the empty relative
      path, otherwise the anchor followed by the components joined by "/".
      The text is never empty, starts with the anchor, and a relative
      path's text never starts with a slash (so it parses back relative). */
  function AsPosix(p: Path): (r: string)
    ensures WellFormed(p) ==> |r| > 0
    ensures |p.root| <= |r| && r[..|p.root|] == p.root
    ensures WellFormed(p) && p.root == "" ==> r[0] != '/'
  {
    if p.root == "" && |p.parts| == 0 then "."
    else if |p.parts| > 0 && IsComponent(p.parts[0]) then
      JoinStartsWithComponent(p.parts);
      p.root + Join(p.parts, '/')
    else p.root + Join(p.parts, '/')
  }

  /** `p.name`: the last component, or "" when there is none. */
  function Name(p: Path): (r: string)
    ensures |p.parts| > 0 ==> r == p.parts[|p.parts| - 1]
    ensures |p.parts| == 0 ==> r == ""
  {
    if |p.parts| == 0 then "" else p.parts[|p.parts| - 1]
  }

  /** `p / name` for a single component. */
  function Child(p: Path, name: string): (r: Path)
    ensures r.root == p.root
    ensures Name(r) == name
  {
    Path(p.root, p.parts + [name])
  }

  /** Parsing the POSIX form of a well-formed path gives the path back,
      so `Path(str(p)) == p`. */
  lemma {:induction false} PathOfAsPosix(p: Path)
    requires WellFormed(p)
    ensures PathOf(AsPosix(p)) == p
  {
    if p.root == "" && |p.parts| == 0 {
      assert AsPosix(p) == ".";
      assert Split(".", '/') == ["."];
      assert RootOf(".") == "";
    } else if |p.parts| == 0 {
      BareAnchor(p.root);
    } else {
      AnchoredComponents(p.root, p.parts);
    }
  }

  lemma BareAnchor(root: string)
    requires root == "/" || root == "//"
    ensures PathOf(root + Join([], '/')) == Path(root, [])
  {
    assert root + Join([], '/') == root + "";
    SlashesSplit(root, "");
    assert Split("", '/') == [""];
    assert root + "" == root;
  }

  lemma AnchoredComponents(root: string, parts: seq<string>)
    requires root == "" || root == "/" || root == "//"
    requires |parts| > 0 && forall i :: 0 <= i < |parts| ==> IsComponent(parts[i])
    ensures PathOf(root + Join(parts, '/')) == Path(root, parts)
  {
    var j := Join(parts, '/');
    JoinStartsWithComponent(parts);
    SplitJoin(parts, '/');
    SlashesSplit(root, j);
    ComponentsKeepsComponents(parts);
    RootOfAnchored(root, j);
  }

  lemma RootOfAnchored(root: string, rest: string)
    requires root == "" || root == "/" || root == "//"
    requires |rest| > 0 && rest[0] != '/'
    ensures RootOf(root + rest) == root
  {
    var s := root + rest;
    assert s[|root|] == rest[0];
  }

  /** A join of components starts with the first component's first character. */
  lemma JoinStartsWithComponent(parts: seq<string>)
    requires |parts| > 0 && IsComponent(parts[0])
    ensures |Join(parts, '/')| > 0 && Join(parts, '/')[0] == parts[0][0]
    ensures Join(parts, '/')[0] != '/'
  {
    if |parts| > 1 {
      assert Join(parts, '/') == parts[0] + ['/'] + Join(parts[1..], '/');
    }
  }

  /** Splitting an anchor followed by `rest` yields one empty field per
      slash, and pathlib drops those. */
  lemma SlashesSplit(root: string, rest: string)
    requires root == "" || root == "/" || root == "//"
    ensures Components(Split(root + rest, '/')) == Components(Split(rest, '/'))
  {
    if root == "/" {
      LeadingSlash(rest);
    } else if root == "//" {
      assert root + rest == "/" + ("/" + rest);
      LeadingSlash("/" + rest);
      LeadingSlash(rest);
    } else {
      assert root + rest == rest;
    }
  }

  lemma LeadingSlash(rest: string)
    ensures Components(Split("/" + rest, '/')) == Components(Split(rest, '/'))
  {
    var s := "/" + rest;
    assert s[0] == '/' && s[1..] == rest;
    assert Split(s, '/') == [""] + Split(rest, '/');
    assert ([""] + Split(rest, '/'))[1..] == Split(rest, '/');
  }

  /** Components leaves a list of genuine components unchanged. */
  lemma {:induction false} ComponentsKeepsComponents(parts: seq<string>)
    requires forall i :: 0 <= i < |parts| ==> IsComponent(parts[i])
    ensures Components(parts) == parts
  {
    if |parts| > 0 {
      ComponentsKeepsComponents(parts[1..]);
    }
  }
}
