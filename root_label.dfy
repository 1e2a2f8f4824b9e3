/**
 * The root label of a run (`find_re_folder`): the first directory-name
 * component of the selected path that starts with "Re", or the default
 * label "Inventory" when there is none. Both '/' and '\' separate
 * components; splitting follows Python's `str.split("/")`, so empty
 * components (a leading '/', a doubled separator) are kept.
 */
module RootLabel {

  const DEFAULT_LABEL: string := "Inventory"

  predicate IsSeparator(c: char) {
    c == '/' || c == '\\'
  }

  /** `path.replace("\\", "/")`: every backslash becomes a slash, nothing else changes. */
  function NormaliseSeparators(path: string): (r: string)
    ensures |r| == |path|
    ensures '\\' !in r
    ensures forall i :: 0 <= i < |path| ==> (r[i] == '/' <==> IsSeparator(path[i]))
    ensures forall i :: 0 <= i < |path| && !IsSeparator(path[i]) ==> r[i] == path[i]
  {
    seq(|path|, i requires 0 <= i < |path| => if path[i] == '\\' then '/' else path[i])
  }

  /** `s.split("/")`: the pieces between slashes, at least one, none holding a slash. */
  function Split(s: string): (parts: seq<string>)
    ensures |parts| >= 1
    ensures forall k :: 0 <= k < |parts| ==> '/' !in parts[k]
  {
    if s == [] then [""]
    else
      var rest := Split(s[1..]);
      if s[0] == '/' then [""] + rest
      else [[s[0]] + rest[0]] + rest[1..]
  }

  /** `"/".join(parts)`, the inverse of Split. */
  function Join(parts: seq<string>): string
    requires |parts| >= 1
  {
    if |parts| == 1 then parts[0] else parts[0] + "/" + Join(parts[1..])
  }

  /** Splitting loses nothing: joining the pieces with '/' gives the text back. */
  lemma {:induction false} JoinSplit(s: string)
    ensures Join(Split(s)) == s
  {
    if s != [] {
      var rest := Split(s[1..]);
      JoinSplit(s[1..]);
      if s[0] == '/' {
        assert Split(s) == [""] + rest;
        assert Join(Split(s)) == "" + "/" + Join(rest);
      } else if |rest| == 1 {
        assert Split(s) == [[s[0]] + rest[0]];
      } else {
        var parts := Split(s);
        assert parts == [[s[0]] + rest[0]] + rest[1..];
        assert parts[1..] == rest[1..];
        assert Join(rest) == rest[0] + "/" + Join(rest[1..]);
      }
    }
  }

  /** A text without a slash is a single piece. */
  lemma {:induction false} SplitWithoutSlash(a: string)
    requires '/' !in a
    ensures Split(a) == [a]
  {
    if a != [] {
      SplitWithoutSlash(a[1..]);
      assert [a[0]] + a[1..] == a;
    }
  }

  /** A leading piece followed by a slash splits off as the first component. */
  lemma {:induction false} SplitAfterPiece(a: string, b: string)
    requires '/' !in a
    ensures Split(a + "/" + b) == [a] + Split(b)
  {
    if a == [] {
      assert a + "/" + b == ['/'] + b;
      assert (['/'] + b)[1..] == b;
    } else {
      SplitAfterPiece(a[1..], b);
      assert (a + "/" + b)[0] == a[0];
      assert (a + "/" + b)[1..] == a[1..] + "/" + b;
      assert [a[0]] + a[1..] == a;
    }
  }

  /** Joining pieces that hold no slash and splitting again gives the pieces back. */
  lemma {:induction false} SplitJoin(parts: seq<string>)
    requires |parts| >= 1
    requires forall k :: 0 <= k < |parts| ==> '/' !in parts[k]
    ensures Split(Join(parts)) == parts
  {
    if |parts| == 1 {
      SplitWithoutSlash(parts[0]);
    } else {
      SplitJoin(parts[1..]);
      SplitAfterPiece(parts[0], Join(parts[1..]));
    }
  }

  /** The directory-name components of a selected path. */
  function Components(path: string): (parts: seq<string>)
    ensures |parts| >= 1
    ensures forall k :: 0 <= k < |parts| ==> '/' !in parts[k] && '\\' !in parts[k]
  {
    var norm := NormaliseSeparators(path);
    var parts := Split(norm);
    JoinSplit(norm);
    forall k | 0 <= k < |parts|
      ensures '\\' !in parts[k]
    {
      JoinedPartsAreInfixes(parts, k);
    }
    parts
  }

  /** Every character of a piece occurs in the joined text. */
  lemma {:induction false} JoinedPartsAreInfixes(parts: seq<string>, k: nat)
    requires |parts| >= 1 && k < |parts|
    ensures forall c :: c in parts[k] ==> c in Join(parts)
  {
    if k > 0 {
      JoinedPartsAreInfixes(parts[1..], k - 1);
      assert Join(parts) == parts[0] + "/" + Join(parts[1..]);
    } else if |parts| > 1 {
      assert Join(parts) == parts[0] + "/" + Join(parts[1..]);
    }
  }

  /** `part.startswith("Re")`, case-sensitive. */
  predicate StartsWithRe(part: string) {
    |part| >= 2 && part[0] == 'R' && part[1] == 'e'
  }

  /** The loop of `find_re_folder`: the first component starting with "Re", else the default. */
  function FirstRe(parts: seq<string>): (name: string)
    ensures name == DEFAULT_LABEL || StartsWithRe(name)
    ensures StartsWithRe(name) ==> name in parts
  {
    if parts == [] then DEFAULT_LABEL
    else if StartsWithRe(parts[0]) then parts[0]
    else FirstRe(parts[1..])
  }

  /** `find_re_folder(path)`. Never empty, so `main`'s abort on an empty label cannot happen. */
  function FindReFolder(path: string): (name: string)
    ensures |name| > 0
  {
    FirstRe(Components(path))
  }

  /** Reference definition: the position of the first component starting with "Re" (|parts| if none). */
  function FirstReIndex(parts: seq<string>): (k: nat)
    ensures k <= |parts|
    ensures forall j :: 0 <= j < k ==> !StartsWithRe(parts[j])
    ensures k < |parts| ==> StartsWithRe(parts[k])
  {
    if parts == [] then 0
    else if StartsWithRe(parts[0]) then 0
    else 1 + FirstReIndex(parts[1..])
  }

  /** The search returns the component at the first matching position, in path order. */
  lemma {:induction false} FirstReIsFirstMatch(parts: seq<string>)
    ensures var k := FirstReIndex(parts);
      FirstRe(parts) == if k < |parts| then parts[k] else DEFAULT_LABEL
  {
    if parts != [] && !StartsWithRe(parts[0]) {
      FirstReIsFirstMatch(parts[1..]);
    }
  }

  /** The label is the default exactly when no component of the path starts with "Re". */
  lemma DefaultLabelIff(path: string)
    ensures FindReFolder(path) == DEFAULT_LABEL <==>
      forall k :: 0 <= k < |Components(path)| ==> !StartsWithRe(Components(path)[k])
  {
    var parts := Components(path);
    FirstReIsFirstMatch(parts);
    assert !StartsWithRe(DEFAULT_LABEL);
  }

  /** '\' and '/' are interchangeable: paths that differ only in which separator they use get the same label. */
  lemma SeparatorsInterchangeable(p: string, q: string)
    requires |p| == |q|
    requires forall i :: 0 <= i < |p| ==> p[i] == q[i] || (IsSeparator(p[i]) && IsSeparator(q[i]))
    ensures FindReFolder(p) == FindReFolder(q)
  {
    assert NormaliseSeparators(p) == NormaliseSeparators(q);
  }

  lemma {:induction false} JoinWithoutBackslash(parts: seq<string>)
    requires |parts| >= 1
    requires forall k :: 0 <= k < |parts| ==> '\\' !in parts[k]
    ensures '\\' !in Join(parts)
  {
    if |parts| > 1 {
      JoinWithoutBackslash(parts[1..]);
    }
  }

  /** A path written as components joined by '/' is searched component by component. */
  lemma LabelOfJoinedPath(parts: seq<string>)
    requires |parts| >= 1
    requires forall k :: 0 <= k < |parts| ==> '/' !in parts[k] && '\\' !in parts[k]
    ensures FindReFolder(Join(parts)) == FirstRe(parts)
  {
    JoinWithoutBackslash(parts);
    assert NormaliseSeparators(Join(parts)) == Join(parts);
    SplitJoin(parts);
  }

  /** A path with a matching component below a non-matching one. */
  lemma ExampleLabel()
    ensures FindReFolder("C:/Rechnung/2024") == "Rechnung"
  {
    var path := "C:/Rechnung/2024";
    var parts := ["C:", "Rechnung", "2024"];
    assert Join(parts[2..]) == "2024";
    assert Join(parts[1..]) == "Rechnung" + "/" + Join(parts[2..]);
    assert Join(parts) == path;
    LabelOfJoinedPath(parts);
    assert FirstRe(parts) == FirstRe(parts[1..]);
  }
}
