/**
 * The path matcher: given the router's base path, a route key (pattern and
 * method), the effective request method and a request path (already stripped
 * of the router's base path), decide match or no match and extract the
 * parameters. Three modes: literal, trailing-wildcard `*` and `:name` segments.
 */
module Matcher {
  import opened Paths

  /** A route key: the pattern as registered and the method ("" for Handle). */
  datatype Route = Route(path: string, httpMethod: string)

  /** The outcome of matching one route against one request. */
  datatype MatchResult = NoMatch | Match(params: map<string, string>)

  /** The key under which a wildcard pattern stores the rest of the path. */
  const WildcardKey: string := "*"

  /** A pattern segment of the form `:name`. */
  predicate IsParamSegment(seg: string)
  {
    |seg| > 0 && seg[0] == ':'
  }

  /**
   * The pattern a route is matched with: the first occurrence of the router's
   * base path is deleted from the registered pattern and a leading '/' is put
   * back when the remainder lacks one.
   */
  function EffectivePattern(basePath: string, routePath: string): (p: string)
    ensures |p| > 0 && p[0] == '/'
    ensures Trim(p) == Trim(RemoveFirst(routePath, basePath))
  {
    var rp := RemoveFirst(routePath, basePath);
    if IndexOf(rp, "/") != 0 then
      assert ("/" + rp)[1..] == rp;
      "/" + rp
    else rp
  }

  /** A character of a piece is a character of the joined pieces. */
  lemma {:induction false} JoinKeepsChars(parts: seq<string>, i: nat, c: char)
    requires i < |parts| && c in parts[i]
    ensures c in Join(parts)
    decreases |parts|
  {
    if i > 0 {
      JoinKeepsChars(parts[1..], i - 1, c);
      assert Join(parts) == parts[0] + "/" + Join(parts[1..]);
    }
  }

  /** A pattern without ':' has no `:name` segment. */
  lemma NoColonNoParams(p: string)
    requires ':' !in p
    ensures forall i :: 0 <= i < |SlicePath(p)| ==> !IsParamSegment(SlicePath(p)[i])
  {
    var segs := SlicePath(p);
    TrimLeftSuffix(p);
    TrimRightPrefix(TrimLeft(p));
    assert ':' !in TrimLeft(p);
    forall i | 0 <= i < |segs| ensures !IsParamSegment(segs[i]) {
      if IsParamSegment(segs[i]) {
        JoinKeepsChars(segs, i, ':');
      }
    }
  }

  /**
   * Literal mode: the pattern holds neither '*' nor ':'. None of its segments
   * is a `:name` segment.
   */
  predicate IsLiteral(p: string)
    ensures IsLiteral(p) ==> forall i :: 0 <= i < |SlicePath(p)| ==> !IsParamSegment(SlicePath(p)[i])
  {
    if ':' !in p then NoColonNoParams(p); '*' !in p else false
  }

  /** Wildcard mode: the pattern holds a '*' anywhere; it is then never literal. */
  predicate IsWildcard(p: string)
    ensures IsWildcard(p) ==> !IsLiteral(p)
  {
    '*' in p
  }

  /**
   * Named mode: the pattern holds a ':' but no '*'. Every pattern is in exactly
   * one of the three modes.
   */
  predicate IsNamed(p: string)
    ensures IsNamed(p) <==> !IsLiteral(p) && !IsWildcard(p)
  {
    '*' !in p && ':' in p
  }

  /**
   * The matcher reads the first character of every pattern segment in named
   * mode, so such a pattern must not have empty segments ("/a//:b" would crash).
   */
  predicate PatternDefined(p: string)
  {
    !IsNamed(p) || forall seg :: seg in SlicePath(p) ==> seg != ""
  }

  /** Every literal segment of the pattern equals the path segment at its index. */
  predicate SegmentsAgree(pat: seq<string>, parts: seq<string>)
    requires |pat| == |parts|
  {
    forall i :: 0 <= i < |pat| && !IsParamSegment(pat[i]) ==> parts[i] == pat[i]
  }

  /**
   * The parameters captured by the first n segments: each `:name` segment binds
   * `name` to the path segment at its index; a later segment of the same name
   * overwrites an earlier one.
   */
  function Capture(pat: seq<string>, parts: seq<string>, n: nat): (m: map<string, string>)
    requires n <= |pat| == |parts|
    ensures n > 0 && IsParamSegment(pat[n - 1]) ==> pat[n - 1][1..] in m && m[pat[n - 1][1..]] == parts[n - 1]
    ensures (forall i :: 0 <= i < n ==> !IsParamSegment(pat[i])) ==> m == map[]
    decreases n
  {
    if n == 0 then map[]
    else
      var m := Capture(pat, parts, n - 1);
      if IsParamSegment(pat[n - 1]) then m[pat[n - 1][1..] := parts[n - 1]] else m
  }

  /**
   * The matcher's decision, mode by mode: a match needs the method to agree
   * unless it is ignored; a literal match binds nothing, a wildcard match binds
   * only `*`, and a named match needs as many path segments as pattern segments.
   */
  function MatchSpec(basePath: string, route: Route, httpMethod: string, path: string, ignoreMethod: bool): (r: MatchResult)
    requires PatternDefined(EffectivePattern(basePath, route.path))
    ensures r.Match? ==> ignoreMethod || route.httpMethod == httpMethod
    ensures var rp := EffectivePattern(basePath, route.path);
      r.Match? ==>
        (IsLiteral(rp) ==> r.params == map[] && Trim(rp) == Trim(path)) &&
        (IsWildcard(rp) ==> r.params.Keys == {WildcardKey}) &&
        (IsNamed(rp) ==> |SlicePath(path)| == |SlicePath(rp)|)
  {
    MatchOn(EffectivePattern(basePath, route.path), route.httpMethod, httpMethod, ignoreMethod, Trim(path), SlicePath(path))
  }

  /** MatchSpec once the effective pattern is known and the path is given by its trimmed form and its segments. */
  function MatchOn(rp: string, routeMethod: string, httpMethod: string, ignoreMethod: bool,
                   trimmed: string, pathParts: seq<string>): (r: MatchResult)
    requires PatternDefined(rp)
    ensures r.Match? ==> ignoreMethod || routeMethod == httpMethod
    ensures r.Match? && IsLiteral(rp) ==> r.params == map[] && Trim(rp) == trimmed
    ensures r.Match? && IsWildcard(rp) ==> |pathParts| >= |SlicePath(rp)| && r.params.Keys == {WildcardKey}
    ensures r.Match? && IsNamed(rp) ==>
      |pathParts| == |SlicePath(rp)| && SegmentsAgree(SlicePath(rp), pathParts)
  {
    if !ignoreMethod && routeMethod != httpMethod then NoMatch
    else if IsLiteral(rp) then
      if Trim(rp) == trimmed then Match(map[]) else NoMatch
    else
      var patternParts := SlicePath(rp);
      if IsWildcard(rp) then
        if |pathParts| < |patternParts| then NoMatch
        else Match(map[WildcardKey := Join(pathParts[|patternParts| - 1..])])
      else if |pathParts| != |patternParts| then NoMatch
      else if !SegmentsAgree(patternParts, pathParts) then NoMatch
      else Match(Capture(patternParts, pathParts, |patternParts|))
  }

  /**
   * matches: the pattern is the route's path with the router's base path
   * removed, then MatchPattern decides.
   */
  method Matches(basePath: string, route: Route, httpMethod: string, path: string, ignoreMethod: bool)
    returns (ok: bool, params: map<string, string>)
    requires PatternDefined(EffectivePattern(basePath, route.path))
    ensures ok == MatchSpec(basePath, route, httpMethod, path, ignoreMethod).Match?
    ensures ok ==> params == MatchSpec(basePath, route, httpMethod, path, ignoreMethod).params
    ensures !ok ==> params == map[]
  {
    var routePath := EffectivePattern(basePath, route.path);
    ok, params := MatchPattern(routePath, route.httpMethod, httpMethod, path, ignoreMethod);
  }

  /**
   * The rest of matches: the method gate, then the mode. The named mode is
   * carried out by MatchSegments.
   */
  method MatchPattern(routePath: string, routeMethod: string, httpMethod: string, path: string, ignoreMethod: bool)
    returns (ok: bool, params: map<string, string>)
    requires PatternDefined(routePath)
    ensures ok == MatchOn(routePath, routeMethod, httpMethod, ignoreMethod, Trim(path), SlicePath(path)).Match?
    ensures ok ==> params == MatchOn(routePath, routeMethod, httpMethod, ignoreMethod, Trim(path), SlicePath(path)).params
    ensures !ok ==> params == map[]
  {
    if !ignoreMethod && routeMethod != httpMethod {
      return false, map[];
    }
    var wildcard := '*' in routePath;
    if !wildcard && ':' !in routePath {
      assert IsLiteral(routePath);
      return Trim(routePath) == Trim(path), map[];
    }

    var pathParts, patternParts := SlicePath(path), SlicePath(routePath);

    if wildcard {
      if |pathParts| < |patternParts| {
        return false, map[];
      }
      assert IsWildcard(routePath) && !IsLiteral(routePath);
      return true, map[WildcardKey := Join(pathParts[|patternParts| - 1..])];
    }
    ok, params := MatchSegments(patternParts, pathParts);
  }

  /**
   * The named mode of matches: equal segment counts, then a loop that rejects
   * the first disagreeing literal segment, then a loop that collects the
   * `:name` captures.
   */
  method MatchSegments(patternParts: seq<string>, pathParts: seq<string>)
    returns (ok: bool, params: map<string, string>)
    requires forall seg :: seg in patternParts ==> seg != ""
    ensures ok == (|pathParts| == |patternParts| && SegmentsAgree(patternParts, pathParts))
    ensures ok ==> params == Capture(patternParts, pathParts, |patternParts|)
    ensures !ok ==> params == map[]
  {
    var patternPartCount, pathPartCount := |patternParts|, |pathParts|;
    if pathPartCount != patternPartCount {
      return false, map[];
    }

    // check parts
    var i := 0;
    while i < patternPartCount
      invariant 0 <= i <= patternPartCount
      invariant forall j :: 0 <= j < i && !IsParamSegment(patternParts[j]) ==> pathParts[j] == patternParts[j]
    {
      var pathPart, patternPart := pathParts[i], patternParts[i];
      assert patternPart in patternParts;
      if patternPart[0] == ':' {
        i := i + 1;
        continue;
      }
      if pathPart != patternPart {
        return false, map[];
      }
      i := i + 1;
    }

    // extract pattern params
    params := map[];
    i := 0;
    while i < patternPartCount
      invariant 0 <= i <= patternPartCount
      invariant params == Capture(patternParts, pathParts, i)
    {
      var part := patternParts[i];
      assert part in patternParts;
      if part[0] == ':' {
        params := params[part[1..] := pathParts[i]];
      }
      i := i + 1;
    }
    return true, params;
  }

  // ---------------------------------------------------------------------------
  // Properties of the matcher
  // ---------------------------------------------------------------------------

  /**
   * The method gate: a method-sensitive route never matches another method, and
   * a method-agnostic route (registered with Handle) gives the same answer for
   * every method.
   */
  lemma MethodGate(basePath: string, route: Route, path: string, m1: string, m2: string)
    requires PatternDefined(EffectivePattern(basePath, route.path))
    ensures route.httpMethod != m1 ==> MatchSpec(basePath, route, m1, path, false) == NoMatch
    ensures MatchSpec(basePath, route, m1, path, true) == MatchSpec(basePath, route, m2, path, true)
  {
  }

  /**
   * Literal mode: the route matches exactly when the trimmed pattern equals the
   * trimmed path, and then binds no parameters.
   */
  lemma LiteralMatch(basePath: string, route: Route, httpMethod: string, path: string, ignoreMethod: bool)
    requires IsLiteral(EffectivePattern(basePath, route.path))
    requires ignoreMethod || route.httpMethod == httpMethod
    ensures var r := MatchSpec(basePath, route, httpMethod, path, ignoreMethod);
      (r.Match? <==> Trim(EffectivePattern(basePath, route.path)) == Trim(path)) &&
      (r.Match? ==> r.params == map[])
  {
  }

  /** The outcome depends on the request path only through its segments (and, in literal mode, its trimmed form). */
  lemma MatchDependsOnSegments(basePath: string, route: Route, httpMethod: string, p1: string, p2: string, ignoreMethod: bool)
    requires PatternDefined(EffectivePattern(basePath, route.path))
    requires SlicePath(p1) == SlicePath(p2)
    requires IsLiteral(EffectivePattern(basePath, route.path)) ==> Trim(p1) == Trim(p2)
    ensures MatchSpec(basePath, route, httpMethod, p1, ignoreMethod) == MatchSpec(basePath, route, httpMethod, p2, ignoreMethod)
  {
    var rp := EffectivePattern(basePath, route.path);
    var parts := SlicePath(p1);
    assert MatchSpec(basePath, route, httpMethod, p1, ignoreMethod) == MatchOn(rp, route.httpMethod, httpMethod, ignoreMethod, Trim(p1), parts);
    assert MatchSpec(basePath, route, httpMethod, p2, ignoreMethod) == MatchOn(rp, route.httpMethod, httpMethod, ignoreMethod, Trim(p2), parts);
  }

  /** The outcome depends on the request path only through its trimmed form. */
  lemma MatchDependsOnTrim(basePath: string, route: Route, httpMethod: string, p1: string, p2: string, ignoreMethod: bool)
    requires PatternDefined(EffectivePattern(basePath, route.path))
    requires Trim(p1) == Trim(p2)
    ensures MatchSpec(basePath, route, httpMethod, p1, ignoreMethod) == MatchSpec(basePath, route, httpMethod, p2, ignoreMethod)
  {
    SlicePathOfTrim(p1, p2);
    MatchDependsOnSegments(basePath, route, httpMethod, p1, p2, ignoreMethod);
  }

  /** A trailing or a leading slash on the request path never changes the outcome. */
  lemma OuterSlashIrrelevant(basePath: string, route: Route, httpMethod: string, path: string, ignoreMethod: bool)
    requires PatternDefined(EffectivePattern(basePath, route.path))
    ensures MatchSpec(basePath, route, httpMethod, path + "/", ignoreMethod) == MatchSpec(basePath, route, httpMethod, path, ignoreMethod)
    ensures MatchSpec(basePath, route, httpMethod, "/" + path, ignoreMethod) == MatchSpec(basePath, route, httpMethod, path, ignoreMethod)
  {
    TrimAppendSlash(path);
    MatchDependsOnTrim(basePath, route, httpMethod, path + "/", path, ignoreMethod);
    TrimPrependSlash(path);
    MatchDependsOnTrim(basePath, route, httpMethod, "/" + path, path, ignoreMethod);
  }

  /**
   * Wildcard mode: the route fails exactly when the path has fewer segments than
   * the pattern; on success the only parameter is `*`, bound to the path's
   * segments from the wildcard's position on, joined by '/'.
   */
  lemma WildcardMatch(basePath: string, route: Route, httpMethod: string, path: string, ignoreMethod: bool)
    requires IsWildcard(EffectivePattern(basePath, route.path))
    requires ignoreMethod || route.httpMethod == httpMethod
    ensures var k := |SlicePath(EffectivePattern(basePath, route.path))|;
      var parts := SlicePath(path);
      var r := MatchSpec(basePath, route, httpMethod, path, ignoreMethod);
      (r.NoMatch? <==> |parts| < k) &&
      (r.Match? ==> r.params.Keys == {WildcardKey} && r.params[WildcardKey] == Join(parts[k - 1..]))
  {
    var rp := EffectivePattern(basePath, route.path);
    assert MatchSpec(basePath, route, httpMethod, path, ignoreMethod) == MatchOn(rp, route.httpMethod, httpMethod, ignoreMethod, Trim(path), SlicePath(path));
  }

  /**
   * Nothing of the path is lost in wildcard mode: the path's segments are the
   * k - 1 segments before the wildcard's position joined with the captured rest.
   */
  lemma JoinTail(parts: seq<string>, k: nat)
    requires 1 <= k <= |parts|
    ensures k == 1 ==> Join(parts) == Join(parts[k - 1..])
    ensures k > 1 ==> Join(parts) == Join(parts[..k - 1]) + "/" + Join(parts[k - 1..])
  {
    if k == 1 {
      assert parts[k - 1..] == parts;
    } else {
      JoinAt(parts, k - 1);
    }
  }

  /**
   * Wildcard mode does not compare the segments before the wildcard: two paths
   * with as many segments and the same tail give the same outcome.
   */
  lemma WildcardIgnoresLeadingSegments(basePath: string, route: Route, httpMethod: string, p1: string, p2: string, ignoreMethod: bool)
    requires IsWildcard(EffectivePattern(basePath, route.path))
    requires var k := |SlicePath(EffectivePattern(basePath, route.path))|;
      |SlicePath(p1)| == |SlicePath(p2)| >= k && SlicePath(p1)[k - 1..] == SlicePath(p2)[k - 1..]
    ensures MatchSpec(basePath, route, httpMethod, p1, ignoreMethod) == MatchSpec(basePath, route, httpMethod, p2, ignoreMethod)
  {
  }

  /** Index i is the last of the first n pattern segments that names parameter k. */
  predicate LastNamedAt(pat: seq<string>, n: nat, k: string, i: nat)
    requires n <= |pat|
  {
    i < n && IsParamSegment(pat[i]) && pat[i][1..] == k &&
    forall j :: i < j < n && IsParamSegment(pat[j]) ==> pat[j][1..] != k
  }

  /**
   * What Capture binds: every `:name` segment's name is a key, every key comes
   * from a `:name` segment, and its value is the path segment at the last index
   * carrying that name.
   */
  lemma {:induction false} CaptureBindings(pat: seq<string>, parts: seq<string>, n: nat)
    requires n <= |pat| == |parts|
    ensures forall i :: 0 <= i < n && IsParamSegment(pat[i]) ==> pat[i][1..] in Capture(pat, parts, n)
    ensures forall k :: k in Capture(pat, parts, n) ==>
      exists i: nat :: LastNamedAt(pat, n, k, i) && Capture(pat, parts, n)[k] == parts[i]
    decreases n
  {
    if n > 0 {
      CaptureBindings(pat, parts, n - 1);
      var m := Capture(pat, parts, n - 1);
      var m' := Capture(pat, parts, n);
      forall k | k in m'
        ensures exists i: nat :: LastNamedAt(pat, n, k, i) && m'[k] == parts[i]
      {
        if IsParamSegment(pat[n - 1]) && pat[n - 1][1..] == k {
          assert LastNamedAt(pat, n, k, n - 1) && m'[k] == parts[n - 1];
        } else {
          assert k in m && m'[k] == m[k];
          var i: nat :| LastNamedAt(pat, n - 1, k, i) && m[k] == parts[i];
          assert LastNamedAt(pat, n, k, i);
        }
      }
    }
  }

  /**
   * Named mode: the route matches exactly when the path has as many segments as
   * the pattern and every literal pattern segment equals its path segment; the
   * parameters are then exactly the `:name` segments' names, each bound to a path
   * segment at a position carrying that name.
   */
  lemma NamedMatch(basePath: string, route: Route, httpMethod: string, path: string, ignoreMethod: bool)
    requires IsNamed(EffectivePattern(basePath, route.path))
    requires PatternDefined(EffectivePattern(basePath, route.path))
    requires ignoreMethod || route.httpMethod == httpMethod
    ensures var pat := SlicePath(EffectivePattern(basePath, route.path));
      var parts := SlicePath(path);
      var r := MatchSpec(basePath, route, httpMethod, path, ignoreMethod);
      (r.Match? <==> |parts| == |pat| && SegmentsAgree(pat, parts)) &&
      (r.Match? ==>
        (forall i :: 0 <= i < |pat| && IsParamSegment(pat[i]) ==> pat[i][1..] in r.params) &&
        (forall k :: k in r.params ==>
          exists i :: 0 <= i < |pat| && IsParamSegment(pat[i]) && pat[i][1..] == k && r.params[k] == parts[i]))
  {
    var pat := SlicePath(EffectivePattern(basePath, route.path));
    var parts := SlicePath(path);
    if |parts| == |pat| {
      CaptureBindings(pat, parts, |pat|);
    }
  }

  /** With distinct parameter names, each name is bound to the segment at its own index. */
  lemma {:induction false} CaptureDistinct(pat: seq<string>, parts: seq<string>, i: nat)
    requires |pat| == |parts| && i < |pat| && IsParamSegment(pat[i])
    requires forall j :: i < j < |pat| && IsParamSegment(pat[j]) ==> pat[j][1..] != pat[i][1..]
    ensures pat[i][1..] in Capture(pat, parts, |pat|)
    ensures Capture(pat, parts, |pat|)[pat[i][1..]] == parts[i]
  {
    CaptureKeep(pat, parts, i, |pat|);
  }

  lemma {:induction false} CaptureKeep(pat: seq<string>, parts: seq<string>, i: nat, n: nat)
    requires i < n <= |pat| == |parts| && IsParamSegment(pat[i])
    requires forall j :: i < j < n && IsParamSegment(pat[j]) ==> pat[j][1..] != pat[i][1..]
    ensures pat[i][1..] in Capture(pat, parts, n)
    ensures Capture(pat, parts, n)[pat[i][1..]] == parts[i]
    decreases n
  {
    if n - 1 > i {
      CaptureKeep(pat, parts, i, n - 1);
    }
  }
}

/** Concrete cases of the matcher taken from the router's unit tests. */
module MatcherExamples {
  import opened Paths
  import opened Matcher

  /** The segments of "/" + x, for x slash-free at both ends. */
  lemma SliceOf(x: string, segs: seq<string>)
    requires x != [] && x[0] != '/' && x[|x| - 1] != '/'
    requires |segs| >= 1 && (forall i :: 0 <= i < |segs| ==> '/' !in segs[i])
    requires x == Join(segs)
    ensures SlicePath("/" + x) == segs
  {
    TrimPlain(x);
    SplitJoin(segs);
  }

  /** MatchSpec in wildcard mode once the pattern and the path are known by their segments. */
  lemma EvaluateWildcard(basePath: string, route: Route, httpMethod: string, path: string,
                         rp: string, pat: seq<string>, parts: seq<string>)
    requires rp == EffectivePattern(basePath, route.path) && PatternDefined(rp)
    requires IsWildcard(rp) && route.httpMethod == httpMethod
    requires SlicePath(rp) == pat && SlicePath(path) == parts
    ensures MatchSpec(basePath, route, httpMethod, path, false) ==
      (if |parts| < |pat| then NoMatch else Match(map[WildcardKey := Join(parts[|pat| - 1..])]))
  {
  }

  /** MatchSpec in named mode once the pattern and the path are known by their segments. */
  lemma EvaluateNamed(basePath: string, route: Route, httpMethod: string, path: string,
                      rp: string, pat: seq<string>, parts: seq<string>)
    requires rp == EffectivePattern(basePath, route.path) && PatternDefined(rp)
    requires IsNamed(rp) && route.httpMethod == httpMethod
    requires SlicePath(rp) == pat && SlicePath(path) == parts
    ensures MatchSpec(basePath, route, httpMethod, path, false) ==
      (if |parts| != |pat| || !SegmentsAgree(pat, parts) then NoMatch
       else Match(Capture(pat, parts, |pat|)))
  {
  }

  lemma RootUsersWildcard()
    ensures EffectivePattern("/", "/users/*") == "/users/*"
    ensures SlicePath("/users/*") == ["users", "*"]
  {
    assert RemoveFirst("/users/*", "/") == "users/*";
    assert Join(["users", "*"]) == "users/*";
    SliceOf("users/*", ["users", "*"]);
  }

  lemma UsersSlice()
    ensures SlicePath("/users") == ["users"]
  {
    SliceOf("users", ["users"]);
  }

  lemma UsersABSlice()
    ensures SlicePath("/users/a/b") == ["users", "a", "b"]
  {
    UsersABJoin();
    SliceOf("users/a/b", ["users", "a", "b"]);
  }

  lemma UsersABJoin()
    ensures Join(["users", "a", "b"]) == "users/a/b"
  {
    var s: seq<string> := ["users", "a", "b"];
    assert s[1..] == ["a", "b"];
    assert Join(s[1..]) == "a/b";
  }

  /** The wildcard route on `/users` (pattern "/users/" then "*") rejects `/users` and captures `a/b` from `/users/a/b`. */
  lemma WildcardExamples()
    ensures PatternDefined(EffectivePattern("/", "/users/*"))
    ensures MatchSpec("/", Route("/users/*", "GET"), "GET", "/users", false) == NoMatch
    ensures MatchSpec("/", Route("/users/*", "GET"), "GET", "/users/a/b", false) == Match(map["*" := "a/b"])
  {
    RootUsersWildcard();
    UsersSlice();
    UsersABSlice();
    var route := Route("/users/*", "GET");
    EvaluateWildcard("/", route, "GET", "/users", "/users/*", ["users", "*"], ["users"]);
    EvaluateWildcard("/", route, "GET", "/users/a/b", "/users/*", ["users", "*"], ["users", "a", "b"]);
    TailJoin();
  }

  lemma TailJoin()
    ensures Join(["users", "a", "b"][1..]) == "a/b"
  {
    assert ["users", "a", "b"][1..] == ["a", "b"];
  }

  /** On the root router a pattern with one leading slash is matched as registered. */
  lemma RootPattern(p: string)
    requires |p| >= 2 && p[0] == '/' && p[1] != '/'
    ensures EffectivePattern("/", p) == p
  {
    RemoveFirstPrefix(p, "/");
    assert !("/" <= p[1..]);
    assert "/" + p[1..] == p;
  }

  lemma Join3(a: string, b: string, c: string)
    ensures Join([a, b, c]) == a + "/" + b + "/" + c
  {
    assert [a, b, c][1..] == [b, c];
    assert [b, c][1..] == [c];
    assert Join([b, c]) == b + "/" + c;
  }

  /** A path of three plain segments slices into exactly those segments. */
  lemma Slice3(a: string, b: string, c: string)
    requires a != [] && c != [] && '/' !in a && '/' !in b && '/' !in c
    ensures SlicePath("/" + a + "/" + b + "/" + c) == [a, b, c]
  {
    Join3(a, b, c);
    var x := a + "/" + b + "/" + c;
    assert x[0] == a[0] && x[|x| - 1] == c[|c| - 1];
    assert "/" + x == "/" + a + "/" + b + "/" + c;
    SliceOf(x, [a, b, c]);
  }

  /** A path of two plain segments slices into exactly those segments. */
  lemma Slice2(a: string, b: string)
    requires a != [] && b != [] && '/' !in a && '/' !in b
    ensures SlicePath("/" + a + "/" + b) == [a, b]
  {
    var x := a + "/" + b;
    assert Join([a, b]) == x by {
      assert [a, b][1..] == [b];
    }
    assert x[0] == a[0] && x[|x| - 1] == b[|b| - 1];
    assert "/" + x == "/" + a + "/" + b;
    SliceOf(x, [a, b]);
  }

  /** The pattern segments [a, ":" + name, c] with plain a and c. */
  predicate NamedMiddle(a: string, name: string, c: string)
  {
    a != [] && c != [] && a[0] != ':' && c[0] != ':' &&
    '/' !in a && '/' !in name && '/' !in c &&
    '*' !in a && '*' !in name && '*' !in c
  }

  lemma NamedMiddleMode(a: string, name: string, c: string)
    requires NamedMiddle(a, name, c)
    ensures IsNamed("/" + a + "/:" + name + "/" + c)
  {
    var p := "/" + a + "/:" + name + "/" + c;
    assert p[|a| + 2] == ':';
    assert p == ("/" + a + "/:") + name + ("/" + c);
    assert '*' !in "/" + a + "/:";
    assert '*' !in "/" + c;
  }

  lemma NamedMiddleSlice(a: string, name: string, c: string)
    requires NamedMiddle(a, name, c)
    ensures SlicePath("/" + a + "/:" + name + "/" + c) == [a, ":" + name, c]
  {
    assert "/" + a + "/:" + name + "/" + c == "/" + a + "/" + (":" + name) + "/" + c;
    Slice3(a, ":" + name, c);
  }

  lemma NamedMiddlePattern(a: string, name: string, c: string)
    requires NamedMiddle(a, name, c)
    ensures EffectivePattern("/", "/" + a + "/:" + name + "/" + c) == "/" + a + "/:" + name + "/" + c
  {
    var p := "/" + a + "/:" + name + "/" + c;
    assert p[1] == a[0];
    RootPattern(p);
  }

  lemma NamedMiddleDefined(a: string, name: string, c: string)
    requires NamedMiddle(a, name, c)
    ensures PatternDefined("/" + a + "/:" + name + "/" + c)
  {
    NamedMiddleSlice(a, name, c);
    var segs := [a, ":" + name, c];
    assert forall seg :: seg in segs ==> seg != "";
  }

  /** How the segments [a, ":" + name, c] compare with a path's segments and what they capture. */
  lemma NamedMiddleSegments(a: string, name: string, c: string, v: string, d: string)
    requires NamedMiddle(a, name, c) && d != c
    ensures SegmentsAgree([a, ":" + name, c], [a, v, c])
    ensures !SegmentsAgree([a, ":" + name, c], [a, v, d])
    ensures Capture([a, ":" + name, c], [a, v, c], 3) == map[name := v]
  {
    var pat := [a, ":" + name, c];
    assert !IsParamSegment(pat[0]) && !IsParamSegment(pat[2]);
    assert IsParamSegment(pat[1]) && pat[1][1..] == name;
    assert [a, v, d][2] != pat[2];
  }

  /**
   * The route "/a/:name/c" (the shape of "/projects/:id/approve") accepts
   * "/a/v/c" with name bound to v, also with a trailing slash and, when the
   * route ignores the method, under any method; it rejects "/a/v" (too few
   * segments), "/a/v/d" for d other than c (a literal segment differs) and a
   * request under another method.
   */
  lemma NamedMiddleMatch(a: string, name: string, c: string, v: string, d: string, m: string, other: string)
    requires NamedMiddle(a, name, c)
    requires v != [] && d != [] && '/' !in v && '/' !in d && d != c && other != m
    ensures PatternDefined(EffectivePattern("/", "/" + a + "/:" + name + "/" + c))
    ensures var route := Route("/" + a + "/:" + name + "/" + c, m);
      MatchSpec("/", route, m, "/" + a + "/" + v + "/" + c, false) == Match(map[name := v]) &&
      MatchSpec("/", route, m, "/" + a + "/" + v + "/" + c + "/", false) == Match(map[name := v]) &&
      MatchSpec("/", route, other, "/" + a + "/" + v + "/" + c, true) == Match(map[name := v]) &&
      MatchSpec("/", route, other, "/" + a + "/" + v + "/" + c, false) == NoMatch &&
      MatchSpec("/", route, m, "/" + a + "/" + v, false) == NoMatch &&
      MatchSpec("/", route, m, "/" + a + "/" + v + "/" + d, false) == NoMatch
  {
    var p := "/" + a + "/:" + name + "/" + c;
    var route := Route(p, m);
    var pat := [a, ":" + name, c];
    NamedMiddlePattern(a, name, c);
    NamedMiddleDefined(a, name, c);
    NamedMiddleMode(a, name, c);
    NamedMiddleSlice(a, name, c);
    NamedMiddleSegments(a, name, c, v, d);
    var ok := "/" + a + "/" + v + "/" + c;
    Slice3(a, v, c);
    Slice2(a, v);
    Slice3(a, v, d);
    EvaluateNamed("/", route, m, ok, p, pat, [a, v, c]);
    EvaluateNamed("/", route, m, "/" + a + "/" + v, p, pat, [a, v]);
    EvaluateNamed("/", route, m, "/" + a + "/" + v + "/" + d, p, pat, [a, v, d]);
    OuterSlashIrrelevant("/", route, m, ok, false);
    MethodGate("/", route, ok, other, m);
  }

  lemma SubRouterPattern()
    ensures EffectivePattern("/foo", "/foo/users") == "/users"
  {
    RemoveFirstPrefix("/foo/users", "/foo");
    assert "/foo/users"[4..] == "/users";
    assert "/" <= "/users";
    assert IndexOf("/users", "/") == 0;
  }

  lemma UsersLiteral()
    ensures IsLiteral("/users")
  {
    assert "/users" == "/" + "users";
  }

  /** A sub-router with base "/foo" matches its route "/foo/users" against the stripped path "/users". */
  lemma SubRouterExample()
    ensures PatternDefined(EffectivePattern("/foo", "/foo/users"))
    ensures MatchSpec("/foo", Route("/foo/users", "GET"), "GET", "/users", false) == Match(map[])
  {
    SubRouterPattern();
    UsersLiteral();
  }
}
