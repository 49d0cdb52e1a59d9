/** The Python `str` methods the modelled code relies on: `startswith`,
    `strip`/`rstrip`, `split` on one character, `rsplit(c, 1)`, `join` and
    `split(sep)[-1]`. */
module Text {
  import opened Options

  predicate StartsWith(s: string, prefix: string) {
    |prefix| <= |s| && s[..|prefix|] == prefix
  }

  predicate EndsWith(s: string, suffix: string) {
    |suffix| <= |s| && s[|s| - |suffix|..] == suffix
  }

  /** `sep` occurs in `s` starting at index `i`. */
  predicate OccursAt(s: string, sep: string, i: int) {
    0 <= i && i + |sep| <= |s| && s[i..i + |sep|] == sep
  }

  /** `sep in s`. */
  predicate Contains(s: string, sep: string) {
    exists i | 0 <= i <= |s| :: OccursAt(s, sep, i)
  }

  /** `c.isspace()`: every character Python 3 counts as whitespace. */
  predicate IsSpace(c: char) {
    || c == ' ' || '\t' <= c <= '\r' || '\U{1C}' <= c <= '\U{1F}'
    || c == '\U{85}' || c == '\U{A0}' || c == '\U{1680}'
    || '\U{2000}' <= c <= '\U{200A}' || c == '\U{2028}' || c == '\U{2029}'
    || c == '\U{202F}' || c == '\U{205F}' || c == '\U{3000}'
  }

  /** `s.rstrip()`: the longest prefix of `s` that does not end in whitespace. */
  function RStrip(s: string): (r: string)
    ensures |r| <= |s| && r == s[..|r|]
    ensures |r| == 0 || !IsSpace(r[|r| - 1])
    ensures forall i :: |r| <= i < |s| ==> IsSpace(s[i])
    decreases |s|
  {
    if |s| > 0 && IsSpace(s[|s| - 1]) then RStrip(s[..|s| - 1]) else s
  }

  /** `s.lstrip()`: the longest suffix of `s` that does not start with whitespace. */
  function LStrip(s: string): (r: string)
    ensures |r| <= |s| && r == s[|s| - |r|..]
    ensures |r| == 0 || !IsSpace(r[0])
    ensures forall i :: 0 <= i < |s| - |r| ==> IsSpace(s[i])
    decreases |s|
  {
    if |s| > 0 && IsSpace(s[0]) then LStrip(s[1..]) else s
  }

  /** `s.strip()`. */
  function Strip(s: string): string {
    LStrip(RStrip(s))
  }

  /** `c.join(fields)`. */
  function Join(fields: seq<string>, c: char): string {
    if |fields| == 0 then ""
    else if |fields| == 1 then fields[0]
    else fields[0] + [c] + Join(fields[1..], c)
  }

  /** `s.split(c)` for a one-character separator: at least one field, no
      field holds the separator, and joining the fields gives `s` back. */
  function Split(s: string, c: char): (r: seq<string>)
    ensures |r| >= 1
    ensures forall i :: 0 <= i < |r| ==> c !in r[i]
    ensures Join(r, c) == s
    decreases |s|
  {
    if |s| == 0 then [""]
    else if s[0] == c then [""] + Split(s[1..], c)
    else
      var rest := Split(s[1..], c);
      [[s[0]] + rest[0]] + rest[1..]
  }

  /** `s.rsplit(c, 1)` seen as a two-value unpack: None when the unpack
      would fail (no separator), otherwise the text before and after the
      LAST separator. */
  function RSplitLast(s: string, c: char): (r: Option<(string, string)>)
    ensures r.None? <==> c !in s
    ensures r.Some? ==> r.value.0 + [c] + r.value.1 == s && c !in r.value.1
    decreases |s|
  {
    if |s| == 0 then None
    else if s[|s| - 1] == c then Some((s[..|s| - 1], ""))
    else
      match RSplitLast(s[..|s| - 1], c)
      case None => None
      case Some(parts) => Some((parts.0, parts.1 + [s[|s| - 1]]))
  }

  /** `s.split(sep)[-1]`: the text after the last occurrence of `sep`, or
      `s` itself when `sep` does not occur (see LastSegmentSpec). */
  function LastSegment(s: string, sep: string): (r: string)
    requires |sep| > 0
    ensures |r| <= |s| && r == s[|s| - |r|..]
    decreases |s|
  {
    if |s| < |sep| then s
    else if s[..|sep|] == sep then
      var t := LastSegment(s[|sep|..], sep);
      assert s[|sep|..][|s[|sep|..]| - |t|..] == s[|s| - |t|..];
      t
    else
      var t := LastSegment(s[1..], sep);
      assert s[1..][|s[1..]| - |t|..] == s[|s| - |t|..];
      if t == s[1..] then s else t
  }

  /** The segment after the last separator holds no separator, differs
      from `s` exactly when `s` holds one, and is then preceded by one. */
  lemma {:induction false} LastSegmentSpec(s: string, sep: string)
    requires |sep| > 0
    ensures SegmentOk(s, sep, LastSegment(s, sep))
    decreases |s|
  {
    if |s| < |sep| {
      NoRoomNoOccurrence(s, sep);
    } else if s[..|sep|] == sep {
      LastSegmentSpec(s[|sep|..], sep);
      SegmentAfterLeadingSep(s, sep, LastSegment(s[|sep|..], sep));
    } else {
      LastSegmentSpec(s[1..], sep);
      SegmentAfterOtherChar(s, sep, LastSegment(s[1..], sep));
    }
  }

  /** What `split(sep)[-1]` promises about a suffix `r` of `s`. */
  predicate SegmentOk(s: string, sep: string, r: string) {
    && |r| <= |s|
    && !Contains(r, sep)
    && (Contains(s, sep) <==> r != s)
    && (r != s ==> EndsWith(s[..|s| - |r|], sep))
  }

  lemma SegmentAfterLeadingSep(s: string, sep: string, t: string)
    requires 0 < |sep| <= |s| && s[..|sep|] == sep
    requires |t| <= |s[|sep|..]| && t == s[|sep|..][|s[|sep|..]| - |t|..]
    requires SegmentOk(s[|sep|..], sep, t)
    ensures SegmentOk(s, sep, t)
  {
    var u := s[|sep|..];
    assert OccursAt(s, sep, 0);
    assert t != s;
    assert s[..|s| - |t|] == sep + u[..|u| - |t|];
  }

  lemma SegmentAfterOtherChar(s: string, sep: string, t: string)
    requires 0 < |sep| <= |s| && s[..|sep|] != sep
    requires |t| <= |s[1..]| && t == s[1..][|s[1..]| - |t|..]
    requires SegmentOk(s[1..], sep, t)
    ensures SegmentOk(s, sep, if t == s[1..] then s else t)
  {
    var u := s[1..];
    ContainsStep(s, sep);
    if t != u {
      assert s[..|s| - |t|] == [s[0]] + u[..|u| - |t|];
      assert |t| < |s|;
    }
  }

  lemma NoRoomNoOccurrence(s: string, sep: string)
    requires |s| < |sep|
    ensures !Contains(s, sep)
  {
  }

  /** An occurrence of `sep` in `s` either starts at 0 or lies in `s[1..]`. */
  lemma ContainsStep(s: string, sep: string)
    requires |s| > 0
    ensures Contains(s, sep) <==> StartsWith(s, sep) || Contains(s[1..], sep)
  {
    var t := s[1..];
    if Contains(s, sep) {
      var i :| 0 <= i <= |s| && OccursAt(s, sep, i);
      if i > 0 {
        assert t[i - 1..i - 1 + |sep|] == s[i..i + |sep|];
        assert OccursAt(t, sep, i - 1);
      }
    }
    if Contains(t, sep) {
      var i :| 0 <= i <= |t| && OccursAt(t, sep, i);
      assert i + 1 + |sep| <= |s|;
      assert s[i + 1..i + 1 + |sep|] == t[i..i + |sep|];
      assert OccursAt(s, sep, i + 1);
    }
    if StartsWith(s, sep) {
      assert OccursAt(s, sep, 0);
    }
  }

  /** Splitting on `c` undoes joining with `c` when no field holds `c`. */
  lemma {:induction false} SplitJoin(fields: seq<string>, c: char)
    requires |fields| >= 1
    requires forall i :: 0 <= i < |fields| ==> c !in fields[i]
    ensures Split(Join(fields, c), c) == fields
    decreases |fields|, |fields[0]|
  {
    var s := Join(fields, c);
    if |fields| == 1 {
      SplitNoSeparator(fields[0], c);
    } else if |fields[0]| == 0 {
      assert s == [c] + Join(fields[1..], c);
      assert s[1..] == Join(fields[1..], c);
      SplitJoin(fields[1..], c);
      assert fields == [""] + fields[1..];
    } else {
      var tail := [fields[0][1..]] + fields[1..];
      assert Join(tail, c) == fields[0][1..] + [c] + Join(fields[1..], c);
      assert s == [fields[0][0]] + Join(tail, c);
      assert s[1..] == Join(tail, c);
      SplitJoin(tail, c);
      assert [fields[0][0]] + fields[0][1..] == fields[0];
      assert fields == [fields[0]] + tail[1..];
    }
  }

  /** A string without the separator splits into itself alone. */
  lemma {:induction false} SplitNoSeparator(s: string, c: char)
    requires c !in s
    ensures Split(s, c) == [s]
    decreases |s|
  {
    if |s| > 0 {
      assert c !in s[1..];
      SplitNoSeparator(s[1..], c);
      assert [s[0]] + s[1..] == s;
    }
  }
}
