/** The links of a directory index: how an entry's path becomes an href, and how the request a browser
    makes from that href is turned back into a path. */
module DirectoryLinks {
  import opened Segments
  import opened StringUtils

  // ------------------------------------------------------------------ HTML escaping

  function EscapeChar(c: char): string {
    if c == '&' then "&amp;"
    else if c == '<' then "&lt;"
    else if c == '>' then "&gt;"
    else if c == '"' then "&quot;"
    else if c == '\'' then "&#39;"
    else [c]
  }

  function Escape(s: string): string {
    if s == [] then [] else EscapeChar(s[0]) + Escape(s[1..])
  }

  // How a reader of HTML takes the five character references back.
  function Unescape(s: string): string
    decreases |s|
  {
    if s == [] then []
    else if "&amp;" <= s then "&" + Unescape(s[5..])
    else if "&lt;" <= s then "<" + Unescape(s[4..])
    else if "&gt;" <= s then ">" + Unescape(s[4..])
    else if "&quot;" <= s then "\"" + Unescape(s[6..])
    else if "&#39;" <= s then "'" + Unescape(s[5..])
    else [s[0]] + Unescape(s[1..])
  }

  method HtmlEscape(input: string) returns (out: string)
    ensures out == Escape(input)
  {
    hide Escape, EscapeChar;
    out := [];
    assert input[0..] == input;
    for i := 0 to |input|
      invariant out + Escape(input[i..]) == Escape(input)
    {
      EscapeFrom(input, i);
      out := AppendEscaped(out, input[i]);
    }
    assert input[|input|..] == [];
    EscapeNothing();
  }

  // The switch over the five special characters.
  method AppendEscaped(out: string, c: char) returns (longer: string)
    ensures longer == out + EscapeChar(c)
  {
    match c {
      case '&' => longer := out + "&amp;";
      case '<' => longer := out + "&lt;";
      case '>' => longer := out + "&gt;";
      case '"' => longer := out + "&quot;";
      case '\'' => longer := out + "&#39;";
      case _ => longer := out + [c];
    }
  }

  lemma EscapeNothing()
    ensures Escape([]) == []
  {
  }

  lemma EscapeFrom(s: string, i: nat)
    requires i < |s|
    ensures Escape(s[i..]) == EscapeChar(s[i]) + Escape(s[i + 1..])
  {
    hide EscapeChar;
    assert s[i..][1..] == s[i + 1..];
  }

  lemma NoPrefix(p: string, s: string, i: nat)
    requires i < |p| && i < |s| && p[i] != s[i]
    ensures !(p <= s)
  {
  }

  lemma UnescapeChar(c: char, rest: string)
    ensures Unescape(EscapeChar(c) + rest) == [c] + Unescape(rest)
  {
    var e := EscapeChar(c);
    var s := e + rest;
    assert forall i | 0 <= i < |e| :: s[i] == e[i];
    assert s[|e|..] == rest;
    if c in "&<>\"'" {
      if c != '&' { NoPrefix("&amp;", s, 1); }
      if c in ">\"'" { NoPrefix("&lt;", s, 1); }
      if c in "\"'" { NoPrefix("&gt;", s, 1); }
      if c == '\'' { NoPrefix("&quot;", s, 1); }
    } else {
      NoPrefix("&amp;", s, 0);
      NoPrefix("&lt;", s, 0);
      NoPrefix("&gt;", s, 0);
      NoPrefix("&quot;", s, 0);
      NoPrefix("&#39;", s, 0);
    }
  }

  // Reading the escaped text gives the text back.
  lemma {:induction false} UnescapeInvertsEscape(s: string)
    ensures Unescape(Escape(s)) == s
  {
    if s != [] {
      hide Unescape, EscapeChar;
      UnescapeChar(s[0], Escape(s[1..]));
      UnescapeInvertsEscape(s[1..]);
    }
  }

  // Escaped text holds none of the characters that end a text or an attribute.
  lemma {:induction false} EscapedIsInert(s: string)
    ensures forall c | c in Escape(s) :: c !in "<>\"'"
  {
    if s != [] {
      EscapedIsInert(s[1..]);
      assert Escape(s) == EscapeChar(s[0]) + Escape(s[1..]);
    }
  }

  // ------------------------------------------------------------------ the request path

  // Without query and fragment, and with a leading slash.
  function Normalize(url: string): string {
    var path := Before(Before(url, '?'), '#');
    if path == [] then "/" else if path[0] != SLASH then [SLASH] + path else path
  }

  method NormalizeUrlPath(url: string) returns (path: string)
    ensures path == Normalize(url)
  {
    path := url;
    var q := IndexFrom(path, '?', 0);
    if q < |path| {
      path := path[..q];
    }
    assert path == Before(url, '?');
    var h := IndexFrom(path, '#', 0);
    if h < |path| {
      path := path[..h];
    }
    assert path == Before(Before(url, '?'), '#');
    if path == [] {
      path := "/";
    }
    if path[0] != SLASH {
      path := [SLASH] + path;
    }
  }

  // A normalized path starts with a slash and has neither query nor fragment; such a path is left as
  // it is, and no other.
  lemma NormalizeFixes(url: string)
    ensures Normalize(url) == url <==> url != [] && url[0] == SLASH && '?' !in url && '#' !in url
    ensures Normalize(Normalize(url)) == Normalize(url)
  {
    NormalForm(url);
    var path := Normalize(url);
    Whole(path);
    if '?' !in url && '#' !in url {
      Whole(url);
    }
  }

  // What becomes of any url: the query or fragment goes, and a slash stands in front.
  lemma NormalizeMeans(path: string, tail: string)
    requires '?' !in path && '#' !in path && (tail == "" || tail[0] == '?' || tail[0] == '#')
    ensures Normalize(path + tail) == if path == "" then "/" else if path[0] == '/' then path else "/" + path
  {
    if tail != "" && tail[0] == '#' {
      var k := IndexFrom(tail, '?', 0);
      assert tail[0..k] == tail[..k] && k > 0;
      var cut := path + tail[..k];
      assert path + tail == cut + tail[k..];
      BeforeIs(cut, '?', tail[k..]);
      BeforeIs(path, '#', tail[..k]);
    } else {
      BeforeIs(path, '?', tail);
      Whole(path);
      BeforeIs(path, '#', []);
      assert path + [] == path;
    }
  }

  lemma NormalForm(url: string)
    ensures var path := Normalize(url); path != [] && path[0] == SLASH && '?' !in path && '#' !in path
  {
    var b := Before(url, '?');
    assert url[0..|b|] == b;
    var path := Before(b, '#');
    assert b[0..|path|] == path;
    assert forall c | c in path :: c in b;
  }

  lemma Whole(path: string)
    requires '?' !in path && '#' !in path
    ensures Before(Before(path, '?'), '#') == path
  {
    BeforeIs(path, '?', []);
    BeforeIs(path, '#', []);
    assert path + [] == path;
  }

  // ------------------------------------------------------------------ an entry's link

  function Encoded(segs: seq<string>): seq<string> { seq(|segs|, i requires 0 <= i < |segs| => Encode(segs[i])) }

  function Href(relative: string, isDirectory: bool): string {
    "/" + Join(Encoded(Split(relative))) + if isDirectory then "/" else ""
  }

  lemma EncodeIsPlain(seg: string)
    requires Plain(seg)
    ensures Plain(Encode(seg))
  {
    EncodedAlphabet(seg);
  }

  lemma {:induction false} JoinAppend(segs: seq<string>, seg: string)
    ensures Join(segs + [seg]) == if segs == [] then seg else Join(segs) + [SLASH] + seg
  {
    if |segs| == 0 {
      assert segs + [seg] == [seg];
    } else {
      JoinAppend(segs[1..], seg);
      assert (segs + [seg])[1..] == segs[1..] + [seg];
      if |segs| > 1 {
        assert segs[0] + [SLASH] + (Join(segs[1..]) + [SLASH] + seg) == Join(segs) + [SLASH] + seg;
      }
    }
  }

  lemma SplitFrom(s: string, i: nat)
    requires i < |s|
    ensures var k := IndexFrom(s, SLASH, i);
      Split(s[i..]) == (if k == i then [] else [s[i..k]]) + if k == |s| then [] else Split(s[k + 1..])
  {
    hide Split, IndexFrom;
    var rest := s[i..];
    var k := IndexFrom(s, SLASH, i);
    assert rest[..k - i] == s[i..k];
    IndexIs(rest, SLASH, k - i);
    SplitStep(rest);
    if k == |s| {
      assert rest == s[i..k];
    } else {
      assert rest[k - i + 1..] == s[k + 1..];
    }
  }

  lemma EncodedAppend(segs: seq<string>, seg: string)
    ensures Encoded(segs + [seg]) == Encoded(segs) + [Encode(seg)]
  {
    hide Encode;
    var longer := Encoded(segs + [seg]);
    forall i | 0 <= i < |longer| ensures longer[i] == (Encoded(segs) + [Encode(seg)])[i] {
    }
  }

  // The loop over the pieces of the relative path; empty pieces are skipped.
  method EntryLink(relative: string, isDirectory: bool) returns (href: string)
    ensures href == Href(relative, isDirectory)
  {
    hide Split, Encode, IndexFrom, Join;
    var encoded: string := [];
    ghost var segs: seq<string> := [];
    var start := 0;
    assert relative[0..] == relative;
    JoinNothing();
    while start < |relative|
      invariant 0 <= start <= |relative|
      invariant Split(relative) == segs + Split(relative[start..])
      invariant encoded == Join(Encoded(segs)) && AllPlain(segs) && (encoded == [] <==> segs == [])
    {
      var end := IndexFrom(relative, SLASH, start);
      var seg := relative[start..end];
      SplitFrom(relative, start);
      start := if end < |relative| then end + 1 else end;
      ghost var rest := Split(relative[start..]);
      if end == |relative| {
        assert relative[start..] == [];
        SplitNothing();
      }
      if seg != [] {
        encoded := AppendSegment(encoded, segs, seg);
        assert segs + ([seg] + rest) == (segs + [seg]) + rest;
        segs := segs + [seg];
      }
    }
    assert relative[start..] == [];
    SplitNothing();
    assert Split(relative) == segs + [] == segs;
    href := "/" + encoded;
    if isDirectory {
      href := href + "/";
    }
  }

  lemma JoinNothing()
    ensures Join([]) == [] && Encoded([]) == []
  {
  }

  method AppendSegment(encoded: string, ghost segs: seq<string>, seg: string) returns (longer: string)
    requires encoded == Join(Encoded(segs)) && (encoded == [] <==> segs == []) && Plain(seg)
    ensures longer == Join(Encoded(segs + [seg])) && longer != []
  {
    hide Encode, Join;
    longer := encoded;
    if longer != [] {
      longer := longer + [SLASH];
    }
    var piece := UrlEncodePathComponent(seg);
    longer := longer + piece;
    EncodedAppend(segs, seg);
    JoinAppend(Encoded(segs), piece);
    EncodeIsPlain(seg);
  }

  // ------------------------------------------------------------------ the chain

  // What the server makes of the request a browser sends for an escaped href.
  function Requested(escapedHref: string): string { Decode(Normalize(Unescape(escapedHref))) }

  lemma {:induction false} DecodeJoin(segs: seq<string>, rest: string)
    requires forall i | 0 <= i < |segs| :: IsBytes(segs[i])
    ensures Decode(Join(Encoded(segs)) + rest) == Join(segs) + Decode(rest)
  {
    hide Decode, Encode, IsBytes;
    if segs == [] {
      assert Join(Encoded(segs)) + rest == rest;
    } else if |segs| == 1 {
      DecodeEncoded(segs[0], rest);
    } else {
      var tail := Join(Encoded(segs[1..])) + rest;
      assert Encoded(segs)[1..] == Encoded(segs[1..]);
      assert Join(Encoded(segs)) + rest == Encode(segs[0]) + ([SLASH] + tail);
      DecodeEncoded(segs[0], [SLASH] + tail);
      DecodeSlash(tail);
      DecodeJoin(segs[1..], rest);
    }
  }

  lemma DecodeSlash(rest: string)
    ensures Decode([SLASH] + rest) == [SLASH] + Decode(rest)
  {
    assert ([SLASH] + rest)[1..] == rest;
  }

  lemma {:induction false} JoinAlphabet(segs: seq<string>)
    requires forall i | 0 <= i < |segs| :: '?' !in segs[i] && '#' !in segs[i]
    ensures '?' !in Join(segs) && '#' !in Join(segs)
  {
    if |segs| > 1 {
      JoinAlphabet(segs[1..]);
    }
  }

  lemma HrefIsNormal(relative: string, isDirectory: bool)
    ensures Normalize(Href(relative, isDirectory)) == Href(relative, isDirectory)
  {
    hide Split, Encode, Normalize;
    var segs := Encoded(Split(relative));
    forall i | 0 <= i < |segs| ensures '?' !in segs[i] && '#' !in segs[i] {
      EncodedAlphabet(Split(relative)[i]);
    }
    JoinAlphabet(segs);
    hide Join;
    NormalizeFixes(Href(relative, isDirectory));
  }

  lemma SegmentsAreBytes(s: string)
    requires IsBytes(s)
    ensures forall i | 0 <= i < |Split(s)| :: IsBytes(Split(s)[i])
    decreases |s|
  {
    if s != [] {
      var k := IndexFrom(s, SLASH, 0);
      SplitStep(s);
      hide Split, IndexFrom;
      if k < |s| {
        SegmentsAreBytes(s[k + 1..]);
      }
    }
  }

  // The link of an entry leads back to that entry: a slash, its segments, and a slash for a directory.
  lemma LinkLeadsBack(relative: string, isDirectory: bool)
    requires IsBytes(relative)
    ensures Requested(Escape(Href(relative, isDirectory))) ==
              "/" + Join(Split(relative)) + if isDirectory then "/" else ""
  {
    hide Decode, Encode, Split, Escape, Unescape, Normalize, Join, IsBytes;
    UnescapeInvertsEscape(Href(relative, isDirectory));
    HrefIsNormal(relative, isDirectory);
    SegmentsAreBytes(relative);
    var tail := if isDirectory then "/" else "";
    DecodeJoin(Split(relative), tail);
    var joined := Join(Encoded(Split(relative))) + tail;
    assert Href(relative, isDirectory) == [SLASH] + joined;
    DecodeSlash(joined);
    assert Decode(tail) == tail by { DecodeSlash([]); NothingCoded(); assert [SLASH] + [] == "/"; }
  }

  // It leads to the path itself exactly when that has no leading, trailing or doubled slash.
  lemma LinkIsExact(relative: string, isDirectory: bool)
    requires IsBytes(relative)
    ensures (Requested(Escape(Href(relative, isDirectory))) == "/" + relative + if isDirectory then "/" else "") <==>
            Tidy(relative)
  {
    hide Split, Join, Requested, Escape, Href, Tidy;
    LinkLeadsBack(relative, isDirectory);
    JoinOfSplit(relative);
    var tail := if isDirectory then "/" else "";
    var a, b := "/" + Join(Split(relative)) + tail, "/" + relative + tail;
    assert a[1..|a| - |tail|] == Join(Split(relative)) && b[1..|b| - |tail|] == relative;
  }
}
