/** Splitting text at a separator, as the router, the directory index and the SQL handler do it. */
module Segments {

  const SLASH := '/'

  // std::string::find of one character from offset i, with |s| for npos.
  function IndexFrom(s: string, c: char, i: nat): (k: nat)
    requires i <= |s|
    ensures i <= k <= |s| && c !in s[i..k] && (k < |s| ==> s[k] == c)
    decreases |s| - i
  {
    if i == |s| || s[i] == c then i
    else
      var k := IndexFrom(s, c, i + 1);
      assert s[i..k] == [s[i]] + s[i + 1..k];
      k
  }

  // The text before the first c.
  function Before(s: string, c: char): string { s[..IndexFrom(s, c, 0)] }

  lemma IndexIs(s: string, c: char, k: nat)
    requires k <= |s| && c !in s[..k] && (k < |s| ==> s[k] == c)
    ensures IndexFrom(s, c, 0) == k
  {
    var j := IndexFrom(s, c, 0);
    assert forall i | 0 <= i < k :: s[..k][i] == s[i];
    assert forall i | 0 <= i < j :: s[0..j][i] == s[i];
  }

  lemma BeforeIs(s: string, c: char, rest: string)
    requires c !in s && (rest == [] || rest[0] == c)
    ensures Before(s + rest, c) == s
  {
    assert (s + rest)[..|s|] == s;
    IndexIs(s + rest, c, |s|);
  }

  // ------------------------------------------------------------------ path segments

  // The non-empty pieces of s between slashes.
  function Split(s: string): (segs: seq<string>)
    decreases |s|
  {
    if s == [] then []
    else
      var k := IndexFrom(s, SLASH, 0);
      if k == |s| then [s] else (if k == 0 then [] else [s[..k]]) + Split(s[k + 1..])
  }

  predicate Plain(seg: string) { seg != [] && SLASH !in seg }

  predicate AllPlain(segs: seq<string>) { forall i | 0 <= i < |segs| :: Plain(segs[i]) }

  // gaps[i] slashes after segment i; only the last gap may be empty.
  predicate Spaced(segs: seq<string>, gaps: seq<nat>) {
    |gaps| == |segs| && forall i | 0 <= i < |segs| - 1 :: gaps[i] > 0
  }

  function Slashes(n: nat): string { if n == 0 then [] else [SLASH] + Slashes(n - 1) }

  function Spread(segs: seq<string>, gaps: seq<nat>): string
    requires |gaps| == |segs|
  {
    if segs == [] then [] else segs[0] + (Slashes(gaps[0]) + Spread(segs[1..], gaps[1..]))
  }

  // The segments between slashes: `lead` of them first, then gaps[i] after segment i.
  function Layout(lead: nat, segs: seq<string>, gaps: seq<nat>): string
    requires |gaps| == |segs|
  {
    Slashes(lead) + Spread(segs, gaps)
  }

  lemma SplitNothing()
    ensures Split([]) == []
  {
  }

  lemma {:induction false} SplitStep(s: string)
    requires s != []
    ensures var k := IndexFrom(s, SLASH, 0);
      Split(s) == if k == |s| then [s] else (if k == 0 then [] else [s[..k]]) + Split(s[k + 1..])
  {
  }

  lemma SplitSlash(s: string)
    ensures Split([SLASH] + s) == Split(s)
  {
    var t := [SLASH] + s;
    IndexIs(t, SLASH, 0);
    assert t[1..] == s;
  }

  lemma {:induction false} SplitSlashes(n: nat, s: string)
    ensures Split(Slashes(n) + s) == Split(s)
  {
    hide Split;
    if n == 0 {
      assert Slashes(n) + s == s;
    } else {
      SplitSlashes(n - 1, s);
      SplitSlash(Slashes(n - 1) + s);
      assert Slashes(n) + s == [SLASH] + (Slashes(n - 1) + s);
    }
  }

  lemma SplitSegment(a: string, rest: string)
    requires Plain(a) && (rest == [] || rest[0] == SLASH)
    ensures Split(a + rest) == [a] + Split(rest)
  {
    var s := a + rest;
    assert s[..|a|] == a;
    IndexIs(s, SLASH, |a|);
    SplitStep(s);
    hide Split, IndexFrom;
    if rest == [] {
      assert s == a;
      assert Split(rest) == [] by { SplitNothing(); }
    } else {
      assert s[|a| + 1..] == rest[1..];
      SplitSlash(rest[1..]);
      assert rest == [SLASH] + rest[1..];
    }
  }

  lemma {:induction false} SplitOfSpread(segs: seq<string>, gaps: seq<nat>)
    requires AllPlain(segs) && Spaced(segs, gaps)
    ensures Split(Spread(segs, gaps)) == segs
  {
    if segs == [] {
      SplitNothing();
    } else {
      var rest := Spread(segs[1..], gaps[1..]);
      assert Spread(segs, gaps) == segs[0] + (Slashes(gaps[0]) + rest);
      assert gaps[0] == 0 ==> segs[1..] == [] && rest == [];
      hide Split, Spread, Plain;
      SplitOfSpread(segs[1..], gaps[1..]);
      SplitSlashes(gaps[0], rest);
      SplitSegment(segs[0], Slashes(gaps[0]) + rest);
      assert segs == [segs[0]] + segs[1..];
    }
  }

  // Splitting inverts joining, however many slashes separate, lead or trail.
  lemma SplitOfLayout(lead: nat, segs: seq<string>, gaps: seq<nat>)
    requires AllPlain(segs) && Spaced(segs, gaps)
    ensures Split(Layout(lead, segs, gaps)) == segs
  {
    SplitOfSpread(segs, gaps);
    SplitSlashes(lead, Spread(segs, gaps));
  }

  ghost predicate LaidOut(s: string, lead: nat, segs: seq<string>, gaps: seq<nat>) {
    AllPlain(segs) && Spaced(segs, gaps) && Layout(lead, segs, gaps) == s
  }

  // Every string is such a layout of its segments: the splitting loses nothing but the slashes.
  lemma {:induction false} LayoutOfSplit(s: string) returns (lead: nat, gaps: seq<nat>)
    ensures LaidOut(s, lead, Split(s), gaps)
    decreases |s|
  {
    hide Split, LaidOut, IndexFrom;
    if s == [] {
      LaidOutNothing();
      return 0, [];
    }
    var k := IndexFrom(s, SLASH, 0);
    SplitStep(s);
    PlainHead(s);
    hide Plain;
    if k == |s| {
      assert s[..k] == s;
      LaidOutAlone(s);
      return 0, [0];
    }
    var rest := s[k + 1..];
    lead, gaps := LayoutOfSplit(rest);
    if k == 0 {
      LaidOutSlash(rest, lead, Split(rest), gaps);
      assert s == [SLASH] + rest && Split(s) == Split(rest);
      lead := lead + 1;
    } else {
      LaidOutSegment(s[..k], rest, lead, Split(rest), gaps);
      assert s == s[..k] + ([SLASH] + rest);
      lead, gaps := 0, [lead + 1] + gaps;
    }
  }

  lemma PlainHead(s: string)
    ensures var k := IndexFrom(s, SLASH, 0); k > 0 ==> Plain(s[..k])
  {
    var k := IndexFrom(s, SLASH, 0);
    assert s[0..k] == s[..k];
  }

  lemma LaidOutNothing()
    ensures LaidOut([], 0, Split([]), [])
  {
  }

  lemma LaidOutAlone(s: string)
    requires Plain(s)
    ensures LaidOut(s, 0, [s], [0])
  {
    assert Spread([s], [0]) == s + (Slashes(0) + Spread([], []));
  }

  lemma LaidOutSlash(s: string, lead: nat, segs: seq<string>, gaps: seq<nat>)
    requires LaidOut(s, lead, segs, gaps)
    ensures LaidOut([SLASH] + s, lead + 1, segs, gaps)
  {
    hide Spread;
    assert [SLASH] + (Slashes(lead) + Spread(segs, gaps)) == ([SLASH] + Slashes(lead)) + Spread(segs, gaps);
  }

  lemma LaidOutSegment(seg: string, s: string, lead: nat, segs: seq<string>, gaps: seq<nat>)
    requires Plain(seg) && LaidOut(s, lead, segs, gaps)
    ensures LaidOut(seg + ([SLASH] + s), 0, [seg] + segs, [lead + 1] + gaps)
  {
    LaidOutSlash(s, lead, segs, gaps);
    var wider := [lead + 1] + gaps;
    assert wider[1..] == gaps && ([seg] + segs)[1..] == segs;
    assert Spread([seg] + segs, wider) == seg + (Slashes(lead + 1) + Spread(segs, gaps));
    hide Spread, Plain;
    assert Slashes(0) + (seg + ([SLASH] + s)) == seg + ([SLASH] + s);
  }

  // ------------------------------------------------------------------ the canonical form

  function Join(segs: seq<string>): string {
    if segs == [] then [] else if |segs| == 1 then segs[0] else segs[0] + [SLASH] + Join(segs[1..])
  }

  // No leading, trailing or doubled slash.
  predicate Tidy(s: string) {
    (s != [] ==> s[0] != SLASH && s[|s| - 1] != SLASH)
    && forall i, j | 0 <= i < |s| && 0 <= j < |s| && j == i + 1 :: s[i] != SLASH || s[j] != SLASH
  }

  lemma {:induction false} JoinIsTidy(segs: seq<string>)
    requires AllPlain(segs)
    ensures Tidy(Join(segs)) && (segs != [] ==> Join(segs) != [])
  {
    if |segs| == 1 {
    } else if segs != [] {
      JoinIsTidy(segs[1..]);
      assert Plain(segs[0]);
    }
  }

  // A path is the join of its segments exactly when it is tidy.
  lemma {:induction false} JoinOfSplit(s: string)
    ensures Join(Split(s)) == s <==> Tidy(s)
    decreases |s|
  {
    hide Split, IndexFrom, Tidy;
    var lead, gaps := LayoutOfSplit(s);
    JoinIsTidy(Split(s));
    if Tidy(s) && s != [] {
      var k := IndexFrom(s, SLASH, 0);
      SplitStep(s);
      if k < |s| {
        TidyRest(s, k);
        var rest := s[k + 1..];
        JoinOfSplit(rest);
        SomeSegment(rest);
        assert Split(s)[1..] == Split(rest);
        assert s == s[..k] + [SLASH] + rest;
      }
    } else {
      assert s == [] ==> Tidy(s) by { EmptyIsTidy(); }
    }
  }

  lemma EmptyIsTidy()
    ensures Tidy([]) && Join(Split([])) == []
  {
  }

  lemma TidyRest(s: string, k: nat)
    requires Tidy(s) && k < |s| && s[k] == SLASH
    ensures 0 < k < |s| - 1 && s[k + 1] != SLASH && Tidy(s[k + 1..])
  {
    var rest := s[k + 1..];
    assert s[|s| - 1] != SLASH && s[0] != SLASH;
    assert rest[|rest| - 1] == s[|s| - 1];
  }

  lemma SomeSegment(s: string)
    requires s != [] && s[0] != SLASH
    ensures Split(s) != []
  {
    SplitStep(s);
  }
}
