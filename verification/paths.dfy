/** Small optional-value wrapper used across the model. */
module Options {
  datatype Option<+T> = None | Some(value: T)
}

/**
 * The string operations the router relies on, stated for the separator '/':
 * strings.Trim(s, "/"), strings.Split(s, "/"), strings.Join(parts, "/"),
 * strings.Index, strings.Replace(s, old, "", 1) and ASCII strings.ToUpper,
 * together with slicePath, which splits a path into its segments.
 */
module Paths {

  /** Removes every leading '/' (the left half of strings.Trim(s, "/")). */
  function TrimLeft(s: string): (r: string)
    ensures |r| <= |s|
    ensures forall i :: 0 <= i < |s| - |r| ==> s[i] == '/'
    ensures r == [] || r[0] != '/'
    decreases |s|
  {
    if |s| > 0 && s[0] == '/' then TrimLeft(s[1..]) else s
  }

  /** Removes every trailing '/' (the right half of strings.Trim(s, "/")). */
  function TrimRight(s: string): (r: string)
    ensures |r| <= |s|
    ensures forall i :: |r| <= i < |s| ==> s[i] == '/'
    ensures r == [] || r[|r| - 1] != '/'
    decreases |s|
  {
    if |s| > 0 && s[|s| - 1] == '/' then TrimRight(s[..|s| - 1]) else s
  }

  /** What TrimLeft keeps is a suffix of its input. */
  lemma {:induction false} TrimLeftSuffix(s: string)
    ensures TrimLeft(s) == s[|s| - |TrimLeft(s)|..]
    decreases |s|
  {
    if |s| > 0 && s[0] == '/' {
      TrimLeftSuffix(s[1..]);
    }
  }

  /** What TrimRight keeps is a prefix of its input. */
  lemma {:induction false} TrimRightPrefix(s: string)
    ensures TrimRight(s) == s[..|TrimRight(s)|]
    decreases |s|
  {
    if |s| > 0 && s[|s| - 1] == '/' {
      TrimRightPrefix(s[..|s| - 1]);
    }
  }

  /** strings.Trim(s, "/"): the text between the leading and the trailing run of slashes. */
  function Trim(s: string): (r: string)
    ensures |r| <= |s|
    ensures r == [] || (r[0] != '/' && r[|r| - 1] != '/')
  {
    TrimRightPrefix(TrimLeft(s));
    TrimRight(TrimLeft(s))
  }

  /**
   * strings.Join(parts, "/"): the first piece starts the result, and the result
   * is longer than it exactly when more pieces follow.
   */
  function Join(parts: seq<string>): (s: string)
    ensures |parts| > 0 ==> parts[0] <= s
    ensures |parts| > 0 ==> (|parts| > 1 <==> |parts[0]| < |s|)
    decreases |parts|
  {
    if |parts| == 0 then ""
    else if |parts| == 1 then parts[0]
    else parts[0] + "/" + Join(parts[1..])
  }

  /**
   * strings.Split(s, "/"): the pieces between the separators. Always at least one
   * piece (the empty string splits into [""]), no piece holds a '/', and joining
   * the pieces gives back s.
   */
  function Split(s: string): (parts: seq<string>)
    ensures |parts| >= 1
    ensures forall i :: 0 <= i < |parts| ==> '/' !in parts[i]
    ensures Join(parts) == s
    decreases |s|
  {
    if |s| == 0 then [""]
    else
      var rest := Split(s[1..]);
      if s[0] == '/' then
        assert Join([""] + rest) == "" + "/" + Join(rest) by {
          assert ([""] + rest)[1..] == rest;
        }
        [""] + rest
      else
        var parts := [[s[0]] + rest[0]] + rest[1..];
        assert parts[1..] == rest[1..];
        assert Join(parts) == s by {
          if |rest| > 1 {
            assert Join(rest) == rest[0] + "/" + Join(rest[1..]);
            assert [s[0]] + (rest[0] + "/" + Join(rest[1..])) == s;
          }
        }
        parts
  }

  /** slicePath: the segments of a path, slashes at either end ignored. */
  function SlicePath(path: string): (segs: seq<string>)
    ensures |segs| >= 1
    ensures forall i :: 0 <= i < |segs| ==> '/' !in segs[i]
    ensures Join(segs) == Trim(path)
  {
    Split(Trim(path))
  }

  /** sub occurs in s at position j. */
  predicate OccursAt(s: string, sub: string, j: int)
  {
    0 <= j && j + |sub| <= |s| && s[j..j + |sub|] == sub
  }

  /**
   * strings.Index(s, sub): the first position at which sub occurs in s, or -1.
   * The empty string occurs at position 0.
   */
  function IndexOf(s: string, sub: string): (i: int)
    ensures -1 <= i <= |s|
    ensures i >= 0 ==> OccursAt(s, sub, i) && forall j :: 0 <= j < i ==> !OccursAt(s, sub, j)
    ensures i == -1 ==> forall j :: 0 <= j <= |s| ==> !OccursAt(s, sub, j)
    ensures (i == 0) == (sub <= s)
  {
    assert OccursAt(s, sub, 0) == (sub <= s);
    IndexFrom(s, sub, 0)
  }

  function IndexFrom(s: string, sub: string, k: nat): (i: int)
    requires k <= |s|
    requires forall j :: 0 <= j < k ==> !OccursAt(s, sub, j)
    ensures -1 <= i <= |s|
    ensures i >= 0 ==> k <= i && OccursAt(s, sub, i) && forall j :: 0 <= j < i ==> !OccursAt(s, sub, j)
    ensures i == -1 ==> forall j :: 0 <= j <= |s| ==> !OccursAt(s, sub, j)
    decreases |s| - k
  {
    if OccursAt(s, sub, k) then k
    else if k == |s| then -1
    else IndexFrom(s, sub, k + 1)
  }

  /** strings.Replace(s, sub, "", 1): deletes the first occurrence of sub, if any. */
  function RemoveFirst(s: string, sub: string): (r: string)
    ensures IndexOf(s, sub) < 0 ==> r == s
    ensures IndexOf(s, sub) >= 0 ==>
      |r| == |s| - |sub| && s == r[..IndexOf(s, sub)] + sub + r[IndexOf(s, sub)..]
  {
    var i := IndexOf(s, sub);
    if i < 0 then s else s[..i] + s[i + |sub|..]
  }

  /** The upper-case form of an ASCII letter; every other character is kept. */
  function UpperChar(c: char): char
  {
    if 'a' <= c <= 'z' then (c as int - 'a' as int + 'A' as int) as char else c
  }

  /** strings.ToUpper restricted to ASCII case mapping. */
  function ToUpper(s: string): (r: string)
    ensures |r| == |s|
    ensures forall i :: 0 <= i < |s| ==> r[i] == UpperChar(s[i])
    decreases |s|
  {
    if |s| == 0 then "" else [UpperChar(s[0])] + ToUpper(s[1..])
  }

  // ---------------------------------------------------------------------------
  // Lemmas
  // ---------------------------------------------------------------------------

  /** Joining two non-empty lists of pieces puts one separator between them. */
  lemma {:induction false} JoinAppend(a: seq<string>, b: seq<string>)
    requires |a| >= 1 && |b| >= 1
    ensures Join(a + b) == Join(a) + "/" + Join(b)
    decreases |a|
  {
    if |a| == 1 {
      assert (a + b)[1..] == b;
    } else {
      assert (a + b)[1..] == a[1..] + b;
      JoinAppend(a[1..], b);
    }
  }

  /** Joining a list cut at position k, 0 < k < |parts|, puts one separator at the cut. */
  lemma JoinAt(parts: seq<string>, k: nat)
    requires 0 < k < |parts|
    ensures Join(parts) == Join(parts[..k]) + "/" + Join(parts[k..])
  {
    assert parts[..k] + parts[k..] == parts;
    JoinAppend(parts[..k], parts[k..]);
  }

  /** Splitting a joined list of slash-free pieces gives back the pieces. */
  lemma {:induction false} SplitJoin(parts: seq<string>)
    requires |parts| >= 1
    requires forall i :: 0 <= i < |parts| ==> '/' !in parts[i]
    ensures Split(Join(parts)) == parts
    decreases |parts|, |parts[0]|
  {
    var p := parts[0];
    if |p| == 0 {
      if |parts| > 1 {
        SplitJoin(parts[1..]);
        SplitJoinEmptyHead(parts);
      }
    } else {
      var parts' := [p[1..]] + parts[1..];
      assert parts'[1..] == parts[1..];
      assert forall i :: 0 <= i < |parts'| ==> '/' !in parts'[i] by {
        forall i | 0 <= i < |parts'| ensures '/' !in parts'[i] {
          if i == 0 {
            assert forall c :: c in p[1..] ==> c in p;
          }
        }
      }
      SplitJoin(parts');
      SplitJoinHeadChar(parts, parts');
    }
  }

  /** The step of SplitJoin for an empty first piece: the join starts with the separator. */
  lemma SplitJoinEmptyHead(parts: seq<string>)
    requires |parts| > 1 && parts[0] == ""
    requires Split(Join(parts[1..])) == parts[1..]
    ensures Split(Join(parts)) == parts
  {
    assert Join(parts) == "/" + Join(parts[1..]);
    assert ("/" + Join(parts[1..]))[1..] == Join(parts[1..]);
    assert [""] + parts[1..] == parts;
  }

  /** The step of SplitJoin for a first piece that is not empty: its first character starts the join. */
  lemma SplitJoinHeadChar(parts: seq<string>, parts': seq<string>)
    requires |parts| >= 1 && |parts[0]| > 0 && parts[0][0] != '/'
    requires parts' == [parts[0][1..]] + parts[1..]
    requires Split(Join(parts')) == parts'
    ensures Split(Join(parts)) == parts
  {
    var p := parts[0];
    assert parts'[1..] == parts[1..];
    assert Join(parts) == [p[0]] + Join(parts') by {
      if |parts| > 1 {
        assert p == [p[0]] + p[1..];
      }
    }
    assert Join(parts)[1..] == Join(parts');
    assert p == [p[0]] + p[1..];
    assert [[p[0]] + parts'[0]] + parts'[1..] == parts;
  }

  /** A trailing slash never changes the trimmed text. */
  lemma TrimAppendSlash(p: string)
    ensures Trim(p + "/") == Trim(p)
  {
    var l := TrimLeft(p);
    if l == [] {
      TrimLeftAllSlashes(p + "/");
      assert TrimLeft(p + "/") == [];
    } else {
      TrimLeftAppend(p, "/");
      assert TrimLeft(p + "/") == l + "/";
      TrimRightSlash(l);
    }
  }

  lemma TrimRightSlash(l: string)
    ensures TrimRight(l + "/") == TrimRight(l)
  {
    assert (l + "/")[..|l + "/"| - 1] == l;
  }

  /** A leading slash never changes the trimmed text. */
  lemma TrimPrependSlash(p: string)
    ensures Trim("/" + p) == Trim(p)
  {
    assert ("/" + p)[1..] == p;
  }

  lemma {:induction false} TrimLeftAllSlashes(s: string)
    requires forall i :: 0 <= i < |s| - 1 ==> s[i] == '/'
    requires |s| > 0 && s[|s| - 1] == '/'
    ensures TrimLeft(s) == []
  {
    TrimLeftSuffix(s);
  }

  lemma {:induction false} TrimLeftAppend(p: string, t: string)
    requires TrimLeft(p) != []
    ensures TrimLeft(p + t) == TrimLeft(p) + t
    decreases |p|
  {
    if p[0] == '/' {
      assert (p + t)[1..] == p[1..] + t;
      TrimLeftAppend(p[1..], t);
    }
  }

  /**
   * Leading and trailing slashes never produce segments: "foo/bar", "/foo/bar"
   * and "/foo/bar/" slice alike, and a path made only of slashes slices to [""].
   */
  lemma SlicePathIgnoresOuterSlashes(p: string)
    ensures SlicePath("/" + p) == SlicePath(p)
    ensures SlicePath(p + "/") == SlicePath(p)
  {
    TrimPrependSlash(p);
    TrimAppendSlash(p);
  }

  /** The first and the last segment are empty only when the path is all slashes. */
  lemma {:induction false} SlicePathOuterSegments(p: string)
    ensures var segs := SlicePath(p);
      (Trim(p) == [] <==> segs == [""]) &&
      (Trim(p) != [] ==> segs[0] != "" && segs[|segs| - 1] != "")
  {
    var t := Trim(p);
    var segs := Split(t);
    if t == [] {
    } else {
      TrimRightPrefix(TrimLeft(p));
      assert t[0] != '/';
      SplitFirstNonEmpty(t);
      SplitLastNonEmpty(t, segs);
    }
  }

  lemma SplitFirstNonEmpty(t: string)
    requires t != [] && t[0] != '/'
    ensures Split(t)[0] != ""
  {
  }

  lemma {:induction false} SplitLastNonEmpty(t: string, segs: seq<string>)
    requires t != [] && t[|t| - 1] != '/' && segs == Split(t)
    ensures segs[|segs| - 1] != ""
  {
    var last := segs[|segs| - 1];
    if |segs| > 1 {
      var init := segs[..|segs| - 1];
      JoinAppend(init, [last]);
      assert init + [last] == segs;
      assert t == Join(init) + "/" + last;
      assert t[|t| - 1] == (if last == "" then '/' else last[|last| - 1]);
    }
  }

  /** Paths that trim alike slice alike. */
  lemma SlicePathOfTrim(p1: string, p2: string)
    requires Trim(p1) == Trim(p2)
    ensures SlicePath(p1) == SlicePath(p2)
  {
  }

  /** Text without slashes at its ends trims to itself, also behind one leading slash. */
  lemma TrimPlain(x: string)
    requires x != [] && x[0] != '/' && x[|x| - 1] != '/'
    ensures Trim(x) == x
    ensures Trim("/" + x) == x
  {
    TrimPrependSlash(x);
  }

  /** Concrete slices from the router's own unit tests. */
  lemma SlicePathExamples()
    ensures SlicePath("foo/bar") == ["foo", "bar"]
    ensures SlicePath("/foo/bar") == ["foo", "bar"]
    ensures SlicePath("/foo/bar/") == ["foo", "bar"]
    ensures SlicePath("/") == [""]
  {
    SlicePathFooBar();
    SlicePathLeadingFooBar();
    SlicePathTrailingFooBar();
    SlicePathRoot();
  }

  lemma SlicePathLeadingFooBar()
    ensures SlicePath("/foo/bar") == ["foo", "bar"]
  {
    SlicePathFooBar();
    var p := "foo/bar";
    SlicePathIgnoresOuterSlashes(p);
    assert "/" + p == "/foo/bar";
  }

  lemma SlicePathTrailingFooBar()
    ensures SlicePath("/foo/bar/") == ["foo", "bar"]
  {
    SlicePathLeadingFooBar();
    var q := "/foo/bar";
    SlicePathIgnoresOuterSlashes(q);
    assert q + "/" == "/foo/bar/";
  }

  lemma SlicePathFooBar()
    ensures SlicePath("foo/bar") == ["foo", "bar"]
  {
    assert Trim("foo/bar") == "foo/bar";
    assert Join(["foo", "bar"]) == "foo/bar";
    SplitJoin(["foo", "bar"]);
  }

  lemma SlicePathRoot()
    ensures SlicePath("/") == [""]
  {
    assert TrimLeft("/") == "";
  }

  /** Deleting a prefix occurrence removes exactly that prefix. */
  lemma RemoveFirstPrefix(s: string, sub: string)
    requires sub <= s
    ensures RemoveFirst(s, sub) == s[|sub|..]
  {
  }

  /** Upper-casing is idempotent. */
  lemma ToUpperIdempotent(s: string)
    ensures ToUpper(ToUpper(s)) == ToUpper(s)
  {
  }
}
