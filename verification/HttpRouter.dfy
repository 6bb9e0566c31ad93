/** The router: splitting a path into segments, matching them against a pattern with parameters, and
    choosing a route. */
module HttpRouter {
  import opened Segments
  import opened Text

  // ------------------------------------------------------------------ splitting a path

  function PathSegments(path: string): seq<string> { Split(Before(path, '?')) }

  // The scan of splitPath_: skip slashes, then cut at the next one.
  method SplitPath(path: string) returns (segments: seq<string>)
    ensures segments == PathSegments(path)
  {
    hide Split, IndexFrom;
    var qpos := IndexFrom(path, '?', 0);
    var stripped := if qpos == |path| then path else path[..qpos];
    assert stripped == Before(path, '?');
    segments := [];
    var start := 0;
    assert stripped[0..] == stripped;
    while start < |stripped|
      invariant 0 <= start <= |stripped|
      invariant segments + Split(stripped[start..]) == Split(stripped)
    {
      start := SkipSlashes(stripped, start);
      if start >= |stripped| {
        break;
      }
      var end := IndexFrom(stripped, SLASH, start);
      SplitAt(stripped, start);
      if end == |stripped| {
        segments := segments + [stripped[start..]];
        start := |stripped|;
        break;
      }
      segments := segments + [stripped[start..end]];
      start := end + 1;
    }
    assert stripped[start..] == [];
    SplitNothing();
  }

  method SkipSlashes(s: string, from: nat) returns (start: nat)
    requires from < |s|
    ensures from <= start <= |s| && Split(s[start..]) == Split(s[from..])
    ensures start < |s| ==> s[start] != SLASH
  {
    hide Split;
    start := from;
    while start < |s| && s[start] == SLASH
      invariant from <= start <= |s| && Split(s[start..]) == Split(s[from..])
    {
      assert s[start..] == [SLASH] + s[start + 1..];
      SplitSlash(s[start + 1..]);
      start := start + 1;
    }
  }

  lemma SplitAt(s: string, i: nat)
    requires i < |s| && s[i] != SLASH
    ensures var k := IndexFrom(s, SLASH, i);
      Split(s[i..]) == if k == |s| then [s[i..]] else [s[i..k]] + Split(s[k + 1..])
  {
    hide Split, IndexFrom;
    var rest := s[i..];
    var k := IndexFrom(s, SLASH, i);
    assert rest[..k - i] == s[i..k] && rest[0] == s[i];
    IndexIs(rest, SLASH, k - i);
    SplitStep(rest);
    if k < |s| {
      assert rest[k - i + 1..] == s[k + 1..];
    }
  }

  // Splitting inverts any layout of plain segments, with any query after it.
  lemma SegmentsOfLayout(lead: nat, segs: seq<string>, gaps: seq<nat>, query: string)
    requires AllPlain(segs) && Spaced(segs, gaps) && (query == [] || query[0] == '?')
    requires forall i | 0 <= i < |segs| :: '?' !in segs[i]
    ensures PathSegments(Layout(lead, segs, gaps) + query) == segs
  {
    hide Split, Layout, Before;
    NoQuery(lead, segs, gaps);
    BeforeIs(Layout(lead, segs, gaps), '?', query);
    SplitOfLayout(lead, segs, gaps);
  }

  lemma {:induction false} SlashesOnly(n: nat)
    ensures '?' !in Slashes(n)
  {
    if n > 0 {
      SlashesOnly(n - 1);
    }
  }

  lemma {:induction false} NoQuery(lead: nat, segs: seq<string>, gaps: seq<nat>)
    requires |gaps| == |segs| && forall i | 0 <= i < |segs| :: '?' !in segs[i]
    ensures '?' !in Layout(lead, segs, gaps)
    decreases |segs|
  {
    SlashesOnly(lead);
    if segs != [] {
      NoQuery(gaps[0], segs[1..], gaps[1..]);
      assert Layout(gaps[0], segs[1..], gaps[1..]) == Slashes(gaps[0]) + Spread(segs[1..], gaps[1..]);
    }
  }

  // ------------------------------------------------------------------ matching

  type Params = map<string, string>

  predicate IsParam(seg: string) { seg != [] && seg[0] == ':' }

  function Name(seg: string): string
    requires IsParam(seg)
  {
    seg[1..]
  }

  predicate Matches(pattern: seq<string>, url: seq<string>) {
    |pattern| == |url| && forall i | 0 <= i < |pattern| :: IsParam(pattern[i]) || pattern[i] == url[i]
  }

  // The value of each parameter; the last one of a name wins.
  function Bind(pattern: seq<string>, url: seq<string>): Params
    requires |pattern| == |url|
  {
    var n := |pattern|;
    if n == 0 then map[]
    else
      var params := Bind(pattern[..n - 1], url[..n - 1]);
      if IsParam(pattern[n - 1]) then params[Name(pattern[n - 1]) := url[n - 1]] else params
  }

  method MatchSegments(pattern: seq<string>, url: seq<string>) returns (params: Option<Params>)
    ensures params == if Matches(pattern, url) then Some(Bind(pattern, url)) else None
  {
    if |pattern| != |url| {
      return None;
    }
    var bound: Params := map[];
    for i := 0 to |pattern|
      invariant Matches(pattern[..i], url[..i]) && bound == Bind(pattern[..i], url[..i])
    {
      var pSeg, uSeg := pattern[i], url[i];
      assert pattern[..i + 1][..i] == pattern[..i] && url[..i + 1][..i] == url[..i];
      if IsParam(pSeg) {
        bound := bound[Name(pSeg) := uSeg];
      } else if pSeg != uSeg {
        return None;
      }
    }
    assert pattern[..|pattern|] == pattern && url[..|url|] == url;
    return Some(bound);
  }

  ghost predicate Names(pattern: seq<string>, name: string) {
    exists i :: 0 <= i < |pattern| && IsParam(pattern[i]) && Name(pattern[i]) == name
  }

  // The pattern with its parameters replaced.
  ghost predicate Substitutes(pattern: seq<string>, params: Params, url: seq<string>) {
    && |pattern| == |url|
    && forall i | 0 <= i < |pattern| ::
         if IsParam(pattern[i]) then Name(pattern[i]) in params && params[Name(pattern[i])] == url[i]
         else pattern[i] == url[i]
  }

  // Parameters of one name stand for one text.
  predicate Consistent(pattern: seq<string>, url: seq<string>)
    requires |pattern| == |url|
  {
    forall i, j | 0 <= i < |pattern| && 0 <= j < |pattern| && IsParam(pattern[i]) && IsParam(pattern[j]) ::
      Name(pattern[i]) == Name(pattern[j]) ==> url[i] == url[j]
  }

  predicate Distinct(pattern: seq<string>) {
    forall i, j | 0 <= i < j < |pattern| && IsParam(pattern[i]) && IsParam(pattern[j]) ::
      Name(pattern[i]) != Name(pattern[j])
  }

  // What Bind binds: every name of the pattern, to the text at one of its places.
  lemma {:induction false} BindIs(pattern: seq<string>, url: seq<string>, name: string)
    requires |pattern| == |url|
    ensures var params := Bind(pattern, url);
      && (name in params <==> Names(pattern, name))
      && (name in params ==> exists i :: 0 <= i < |pattern| && IsParam(pattern[i]) && Name(pattern[i]) == name
                                         && params[name] == url[i])
    decreases |pattern|
  {
    var n := |pattern|;
    if n > 0 {
      BindIs(pattern[..n - 1], url[..n - 1], name);
      assert forall i | 0 <= i < n - 1 :: pattern[..n - 1][i] == pattern[i];
      if IsParam(pattern[n - 1]) && Name(pattern[n - 1]) == name {
        assert Bind(pattern, url)[name] == url[n - 1];
      } else if name in Bind(pattern, url) {
        var i :| 0 <= i < n - 1 && IsParam(pattern[..n - 1][i]) && Name(pattern[..n - 1][i]) == name
                 && Bind(pattern[..n - 1], url[..n - 1])[name] == url[..n - 1][i];
        assert IsParam(pattern[i]) && Name(pattern[i]) == name && Bind(pattern, url)[name] == url[i];
      }
    }
  }

  // In terms of the text: a segment of the pattern fits if it begins with a colon or is equal, and what follows a
  // colon is bound.
  lemma MatchMeans(pattern: seq<string>, url: seq<string>)
    ensures Matches(pattern, url) <==>
              |pattern| == |url| && forall i | 0 <= i < |pattern| :: ":" <= pattern[i] || pattern[i] == url[i]
    ensures |pattern| == |url| ==> forall name :: name in Bind(pattern, url) <==> ":" + name in pattern
  {
    hide Bind;
    forall i | 0 <= i < |pattern| ensures IsParam(pattern[i]) <==> ":" <= pattern[i] {
    }
    if |pattern| == |url| {
      forall name ensures name in Bind(pattern, url) <==> ":" + name in pattern {
        BindIs(pattern, url, name);
        NamesMeans(pattern, name);
      }
    }
  }

  predicate LastOf(pattern: seq<string>, seg: string, i: nat) {
    i < |pattern| && pattern[i] == seg && forall j | i < j < |pattern| :: pattern[j] != seg
  }

  lemma NamesMeans(pattern: seq<string>, name: string)
    ensures Names(pattern, name) <==> ":" + name in pattern
  {
    if i :| 0 <= i < |pattern| && IsParam(pattern[i]) && Name(pattern[i]) == name {
      assert pattern[i] == ":" + name;
    }
    if ":" + name in pattern {
      var i :| 0 <= i < |pattern| && pattern[i] == ":" + name;
      assert IsParam(pattern[i]) && Name(pattern[i]) == name;
    }
  }

  // A name stands for the segment at its last place.
  lemma {:induction false} LastWins(pattern: seq<string>, url: seq<string>, name: string, i: nat)
    requires |pattern| == |url| && LastOf(pattern, ":" + name, i)
    ensures name in Bind(pattern, url) && Bind(pattern, url)[name] == url[i]
    decreases |pattern|
  {
    var n := |pattern| - 1;
    if i < n {
      assert pattern[n] != ":" + name;
      assert IsParam(pattern[n]) ==> pattern[n] == ":" + Name(pattern[n]);
      LastWins(pattern[..n], url[..n], name, i);
    } else {
      assert Name(pattern[n]) == name;
    }
  }

  // A successful match rebuilds the url from its parameters exactly when they are consistent.
  lemma MatchRebuilds(pattern: seq<string>, url: seq<string>)
    requires Matches(pattern, url)
    ensures Substitutes(pattern, Bind(pattern, url), url) <==> Consistent(pattern, url)
  {
    hide Bind;
    forall i | 0 <= i < |pattern| && IsParam(pattern[i])
      ensures Name(pattern[i]) in Bind(pattern, url)
      ensures Consistent(pattern, url) ==> Bind(pattern, url)[Name(pattern[i])] == url[i]
    {
      assert Names(pattern, Name(pattern[i]));
      BindIs(pattern, url, Name(pattern[i]));
    }
  }

  // The parameters returned are the only ones that could rebuild the url.
  lemma OnlyThese(pattern: seq<string>, params: Params, url: seq<string>)
    requires Substitutes(pattern, params, url)
    ensures Matches(pattern, url) && Consistent(pattern, url)
    ensures forall name | name in Bind(pattern, url) :: name in params && params[name] == Bind(pattern, url)[name]
    ensures (forall name | name in params :: Names(pattern, name)) ==> params == Bind(pattern, url)
  {
    hide Bind;
    forall name ensures name in Bind(pattern, url) <==> Names(pattern, name)
      ensures name in Bind(pattern, url) ==> name in params && params[name] == Bind(pattern, url)[name]
    {
      BindIs(pattern, url, name);
    }
  }

  // For distinct parameter names: the match succeeds exactly when some parameters rebuild the url, and
  // then it returns them.
  lemma MatchIsSubstitution(pattern: seq<string>, url: seq<string>)
    requires Distinct(pattern)
    ensures Matches(pattern, url) <==> exists params :: Substitutes(pattern, params, url)
    ensures Matches(pattern, url) ==> Substitutes(pattern, Bind(pattern, url), url)
  {
    hide Bind;
    if Matches(pattern, url) {
      MatchRebuilds(pattern, url);
      assert Substitutes(pattern, Bind(pattern, url), url);
    }
    forall params | Substitutes(pattern, params, url) ensures Matches(pattern, url) {
      OnlyThese(pattern, params, url);
    }
  }

  // For any pattern, some parameters rebuild the url exactly when it matches consistently.
  lemma RebuildableWhen(pattern: seq<string>, url: seq<string>)
    ensures (exists params :: Substitutes(pattern, params, url)) <==>
            Matches(pattern, url) && Consistent(pattern, url)
  {
    hide Bind;
    if Matches(pattern, url) && Consistent(pattern, url) {
      MatchRebuilds(pattern, url);
      assert Substitutes(pattern, Bind(pattern, url), url);
    }
    forall params | Substitutes(pattern, params, url) ensures Matches(pattern, url) && Consistent(pattern, url) {
      OnlyThese(pattern, params, url);
    }
  }

  // With a name used twice a match may succeed that nothing rebuilds.
  lemma RepeatedName()
    ensures var pattern, url := [":a", ":a"], ["x", "y"];
      Matches(pattern, url) && !exists params :: Substitutes(pattern, params, url)
  {
    var pattern, url := [":a", ":a"], ["x", "y"];
    RebuildableWhen(pattern, url);
    assert Name(pattern[0]) == Name(pattern[1]) == "a";
  }

  // A url laid out from a pattern and its parameters gives exactly those parameters back.
  lemma RouteRoundTrip(pattern: seq<string>, params: Params, segs: seq<string>, lead: nat, gaps: seq<nat>,
                       query: string)
    requires Substitutes(pattern, params, segs) && forall name | name in params :: Names(pattern, name)
    requires AllPlain(segs) && Spaced(segs, gaps) && (query == [] || query[0] == '?')
    requires forall i | 0 <= i < |segs| :: '?' !in segs[i]
    ensures var url := PathSegments(Layout(lead, segs, gaps) + query);
      Matches(pattern, url) && Bind(pattern, url) == params
  {
    hide Bind, PathSegments, Layout;
    SegmentsOfLayout(lead, segs, gaps, query);
    OnlyThese(pattern, params, segs);
  }

  // ------------------------------------------------------------------ dispatch

  datatype Route = Route(method_: string, pattern: string, isPrefix: bool)

  datatype Decision = Handled(route: nat, pathParams: Params) | NotFound

  // An empty method allows all; otherwise case does not matter.
  predicate MethodAllowed(route: Route, method_: string) {
    route.method_ == "" || SameButCase(route.method_, method_)
  }

  predicate ExactHit(route: Route, method_: string, url: string) {
    !route.isPrefix && MethodAllowed(route, method_) && Matches(PathSegments(route.pattern), PathSegments(url))
  }

  predicate PrefixHit(route: Route, method_: string, url: string) {
    route.isPrefix && MethodAllowed(route, method_) && route.pattern <= url
  }

  // std::string::find reports 0 exactly for a prefix.
  lemma FoundAtStart(url: string, pattern: string)
    ensures Find(url, pattern) == Some(0) <==> pattern <= url
  {
    assert At(url, pattern, 0) <==> pattern <= url;
  }

  method Dispatch(routes: seq<Route>, method_: string, url: string, pathParams: Params) returns (d: Decision)
    ensures match d
      case Handled(r, params) =>
        && r < |routes|
        && if ExactHit(routes[r], method_, url) then
             && (forall i | 0 <= i < r :: !ExactHit(routes[i], method_, url))
             && params == pathParams + Bind(PathSegments(routes[r].pattern), PathSegments(url))
           else
             && PrefixHit(routes[r], method_, url) && params == pathParams
             && (forall i | 0 <= i < |routes| :: !ExactHit(routes[i], method_, url))
             && (forall i | 0 <= i < r :: !PrefixHit(routes[i], method_, url))
      case NotFound =>
        forall i | 0 <= i < |routes| :: !ExactHit(routes[i], method_, url) && !PrefixHit(routes[i], method_, url)
  {
    hide PathSegments, Matches, Bind, ToLower, SameButCase, Find;
    var urlSegs := SplitPath(url);
    for i := 0 to |routes|
      invariant forall j | 0 <= j < i :: !ExactHit(routes[j], method_, url)
    {
      var entry := routes[i];
      ToLowerCompares(entry.method_, method_);
      if entry.isPrefix {
        continue;
      }
      if entry.method_ != "" && ToLower(entry.method_) != ToLower(method_) {
        continue;
      }
      var patternSegs := SplitPath(entry.pattern);
      var params := MatchSegments(patternSegs, urlSegs);
      if params.Some? {
        return Handled(i, pathParams + params.value);
      }
    }
    for i := 0 to |routes|
      invariant forall j | 0 <= j < i :: !PrefixHit(routes[j], method_, url)
    {
      var entry := routes[i];
      ToLowerCompares(entry.method_, method_);
      if !entry.isPrefix {
        continue;
      }
      if entry.method_ != "" && ToLower(entry.method_) != ToLower(method_) {
        continue;
      }
      FoundAtStart(url, entry.pattern);
      if Find(url, entry.pattern) == Some(0) {
        return Handled(i, pathParams);
      }
    }
    return NotFound;
  }
}
