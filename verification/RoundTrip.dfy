/** The request parser and the printing of requests are exact inverses. */
module RoundTrip {
  import opened Text
  import opened HttpSyntax
  import opened Framing

  datatype Request = Request(verb: string, url: string, version: string, headers: Headers, body: string)

  function RequestLine(r: Request): string { r.verb + " " + r.url + " " + r.version }

  function HeaderLine(h: (string, string)): string { h.0 + ": " + h.1 }

  function HeaderLines(headers: Headers): string {
    if headers == [] then "" else HeaderLine(headers[0]) + CRLF + HeaderLines(headers[1..])
  }

  function Print(r: Request): string {
    RequestLine(r) + CRLF + HeaderLines(r.headers) + CRLF + r.body
  }

  // The fields of a parser that has read r.
  function Read(r: Request): Parser {
    Parser(ParseDone, r.verb, r.url, r.version, r.headers, r.body, false)
  }

  function AsRequest(p: Parser): Request { Request(p.verb, p.url, p.version, p.headers, p.body) }

  ghost predicate LineOk(r: Request) {
    && r.verb != "" && r.url != "" && r.version != "" && ' ' !in r.verb && ' ' !in r.url
    && !Occurs(RequestLine(r), CRLF)
  }

  ghost predicate HeaderOk(h: (string, string)) {
    !Occurs(h.0, ": ") && !Occurs(HeaderLine(h), CRLF)
  }

  ghost predicate HeadersOk(headers: Headers) {
    forall i | 0 <= i < |headers| :: HeaderOk(headers[i])
  }

  // The first Content-Length, in whatever case and if there is one, names the length n.
  ghost predicate Announces(headers: Headers, n: nat) {
    exists i: nat :: FirstNamed(headers, "Content-Length", i) && NamesLength(headers[i].1, n)
  }

  ghost predicate SaysNothing(headers: Headers) { forall i: nat :: !FirstNamed(headers, "Content-Length", i) }

  // What is announced is the length of the body, of a megabyte at most; without an announcement there is none.
  ghost predicate Framed(headers: Headers, body: string) {
    (SaysNothing(headers) && body == "") || (Announces(headers, |body|) && |body| <= 1048576)
  }

  // How the parser finds that out.
  lemma AnnouncedLength(headers: Headers, n: nat)
    ensures FindHeader(headers, "Content-Length").None? <==> SaysNothing(headers)
    ensures Announces(headers, n) <==>
              match FindHeader(headers, "Content-Length") case None => false case Some(v) => ParseLength(v) == Some(n)
  {
    hide FindHeader, ParseLength, NamesLength;
    FindHeaderMeans(headers, "Content-Length");
    if i: nat :| FirstNamed(headers, "Content-Length", i) {
      ParseLengthMeans(headers[i].1, n);
    }
  }

  ghost predicate WellFormed(r: Request) {
    LineOk(r) && HeadersOk(r.headers) && Framed(r.headers, r.body)
  }

  // ------------------------------------------------------------------ printing, then parsing

  // The two spaces of a printed request line are where parseLine_ looks for them.
  lemma FindsSpaces(verb: string, url: string, version: string, sp: string)
    requires |sp| == 1 && sp[0] !in verb && sp[0] !in url
    ensures var line := verb + sp + url + sp + version;
            Find(line, sp) == Some(|verb|) && FindFrom(line, sp, |verb| + 1) == Some(|verb| + 1 + |url|)
  {
    hide Find, FindFrom;
    var tail := url + sp + version;
    GroupTail(verb, url, version, sp);
    FindByte(verb, sp, tail);
    FindByte(url, sp, version);
    FindFromRest(verb + sp, tail, sp);
  }

  lemma GroupTail(verb: string, url: string, version: string, sp: string)
    ensures verb + sp + url + sp + version == verb + sp + (url + sp + version)
  {
  }

  lemma SplitsAtSpaces(r: Request)
    requires LineOk(r)
    ensures var line := RequestLine(r); var second := |r.verb| + 1 + |r.url|;
            && second < |line|
            && Find(line, " ") == Some(|r.verb|) && FindFrom(line, " ", |r.verb| + 1) == Some(second)
            && line[..|r.verb|] == r.verb && line[|r.verb| + 1..second] == r.url && line[second + 1..] == r.version
  {
    FindsSpaces(r.verb, r.url, r.version, " ");
  }

  lemma ParsesLineAt(p: Parser, d: string, line: string, t: string, first: nat, second: nat)
    requires Find(d, CRLF) == Some(|line|) && d[..|line|] == line && d[|line| + 2..] == t
    requires Find(line, " ") == Some(first) && FindFrom(line, " ", first + 1) == Some(second)
    requires line[..first] != "" && line[first + 1..second] != "" && line[second + 1..] != ""
    ensures ParseLine(p, d)
         == Outcome(Ok, p.(verb := line[..first], url := line[first + 1..second], version := line[second + 1..],
                           state := ReqLine), t)
  {
  }

  lemma ParsesLine(p: Parser, r: Request, t: string)
    requires LineOk(r)
    ensures ParseLine(p, RequestLine(r) + CRLF + t)
         == Outcome(Ok, p.(verb := r.verb, url := r.url, version := r.version, state := ReqLine), t)
  {
    var line := RequestLine(r);
    assert !Occurs(line, CRLF);
    FindDelimiter(line, CRLF, t);
    SplitsAtSpaces(r);
    assert r.verb != "" && r.url != "" && r.version != "";
    hide ParseLine, RequestLine, Find, FindFrom, Occurs, LineOk;
    assert (line + CRLF + t)[..|line|] == line && (line + CRLF + t)[|line| + 2..] == t;
    ParsesLineAt(p, line + CRLF + t, line, t, |r.verb|, |r.verb| + 1 + |r.url|);
  }

  lemma {:induction false} ParsesHeaders(p: Parser, headers: Headers, t: string)
    requires HeadersOk(headers)
    ensures HeaderLoop(p, HeaderLines(headers) + CRLF + t) == Outcome(Ok, p.(headers := p.headers + headers), t)
    decreases |headers|
  {
    var d := HeaderLines(headers) + CRLF + t;
    if headers == [] {
      assert d == "" + CRLF + t;
      assert !Occurs("", CRLF);
      FindDelimiter("", CRLF, t);
      assert p.headers + [] == p.headers;
    } else {
      var h := headers[0];
      var line := HeaderLine(h);
      var more := HeaderLines(headers[1..]) + CRLF + t;
      assert HeaderOk(h);
      assert d == line + CRLF + more;
      FindDelimiter(line, CRLF, more);
      assert line == h.0 + ": " + h.1;
      FindDelimiter(h.0, ": ", h.1);
      var p1 := AddHeader(p, line, |h.0|);
      assert line[..|h.0|] == h.0 && line[|h.0| + 2..] == h.1;
      assert p1.headers + headers[1..] == p.headers + headers;
      assert HeadersOk(headers[1..]);
      ParsesHeaders(p1, headers[1..], t);
    }
  }

  lemma OccursBehind(a: string, s: string, pat: string)
    requires Occurs(s, pat)
    ensures Occurs(a + s, pat)
  {
    var k: nat :| At(s, pat, k);
    AtShift(a, s, pat, k);
    assert At(a + s, pat, |a| + k);
  }

  lemma GateAtEnd(line: string, t: string)
    ensures Occurs(line + CRLF + CRLF + t, CRLFCRLF)
  {
    var d := line + CRLF + CRLF + t;
    assert d[|line|..|line| + 4] == CRLFCRLF;
    assert At(d, CRLFCRLF, |line|);
  }

  // A header block ends in CRLFCRLF; without headers only later bytes can open the gate.
  lemma {:induction false} BlockOpensGate(headers: Headers, t: string)
    requires headers != []
    ensures Occurs(HeaderLines(headers) + CRLF + t, CRLFCRLF)
    decreases |headers|
  {
    var line, rest := HeaderLine(headers[0]), HeaderLines(headers[1..]);
    assert HeaderLines(headers) == line + CRLF + rest;
    hide HeaderLine, HeaderLines, Occurs;
    if |headers| == 1 {
      GateAtEnd(line, t);
      assert rest == "" by { NoLines(); assert headers[1..] == []; }
      assert HeaderLines(headers) + CRLF + t == line + CRLF + CRLF + t;
    } else {
      BlockOpensGate(headers[1..], t);
      OccursBehind(line + CRLF, rest + CRLF + t, CRLFCRLF);
      assert HeaderLines(headers) + CRLF + t == line + CRLF + (rest + CRLF + t);
    }
  }

  lemma NoLines()
    ensures HeaderLines([]) == ""
  {
  }

  // The gate in front of the header loop, for the bytes that follow a request line.
  ghost predicate GateOpens(r: Request, rest: string) {
    r.headers == [] ==> Occurs(CRLF + r.body + rest, CRLFCRLF)
  }

  lemma PrintParses(r: Request, rest: string)
    requires WellFormed(r) && GateOpens(r, rest)
    ensures Parse(FRESH, Print(r) + rest) == Outcome(Ok, Read(r), rest)
  {
    var t := HeaderLines(r.headers) + CRLF + (r.body + rest);
    PrintSplits(r, rest);
    ParsesLine(FRESH, r, t);
    if r.headers == [] {
      assert t == CRLF + r.body + rest;
    } else {
      BlockOpensGate(r.headers, r.body + rest);
    }
    var p1 := ParseLine(FRESH, Print(r) + rest).parser.(state := ReqHeaders);
    ParsesHeaders(p1, r.headers, r.body + rest);
    assert p1.headers + r.headers == r.headers;
    assert (r.body + rest)[..|r.body|] == r.body;
    assert (r.body + rest)[|r.body|..] == rest;
    AnnouncedLength(r.headers, |r.body|);
  }

  // ------------------------------------------------------------------ parsing, then printing

  lemma PrefixFree(d: string, pat: string, k: nat)
    requires Find(d, pat) == Some(k) && pat != ""
    ensures !Occurs(d[..k], pat)
  {
    forall j: nat ensures !At(d[..k], pat, j) {
      if j + |pat| <= k {
        assert d[..k][j..j + |pat|] == d[j..j + |pat|];
        assert !At(d, pat, j);
      }
    }
  }

  lemma SpacesSplit(line: string, first: nat, second: nat)
    requires Find(line, " ") == Some(first) && FindFrom(line, " ", first + 1) == Some(second)
    ensures ' ' !in line[..first] && ' ' !in line[first + 1..second]
    ensures line == line[..first] + " " + line[first + 1..second] + " " + line[second + 1..]
  {
    assert [' '] == " ";
    assert line[first..first + 1] == " " && line[second..second + 1] == " ";
    PrefixFree(line, " ", first);
    ByteOccurs(line[..first], ' ');
    forall j | first + 1 <= j < second ensures line[j] != ' ' {
      assert !At(line, " ", j);
      assert line[j..j + 1] == [line[j]];
    }
  }

  // A line cut out at a delimiter, and what is left behind it.
  lemma CutAt(d: string, pat: string, k: nat)
    requires Find(d, pat) == Some(k) && pat != ""
    ensures !Occurs(d[..k], pat) && d == d[..k] + pat + d[k + |pat|..]
  {
    PrefixFree(d, pat, k);
    assert d == d[..k] + d[k..k + |pat|] + d[k + |pat|..];
  }

  lemma LinePrints(p: Parser, d: string)
    requires ParseLine(p, d).code == Ok
    ensures var o := ParseLine(p, d);
            LineOk(AsRequest(o.parser)) && d == RequestLine(AsRequest(o.parser)) + CRLF + o.rest
    ensures var o := ParseLine(p, d);
            o.parser == p.(state := ReqLine, verb := o.parser.verb, url := o.parser.url, version := o.parser.version)
  {
    var lineEnd := Find(d, CRLF).value;
    var line := d[..lineEnd];
    CutAt(d, CRLF, lineEnd);
    var first := Find(line, " ").value;
    var second := FindFrom(line, " ", first + 1).value;
    SpacesSplit(line, first, second);
    var o := ParseLine(p, d);
    assert RequestLine(AsRequest(o.parser)) == line;
  }

  // hs was recorded by a header loop that went from p to p'.
  predicate Recorded(p: Parser, p': Parser, hs: Headers) {
    p' == p.(headers := p.headers + hs)
  }

  lemma JoinLines(h: (string, string), more: Headers, t: string)
    ensures HeaderLines([h] + more) + CRLF + t == HeaderLine(h) + CRLF + (HeaderLines(more) + CRLF + t)
  {
    assert ([h] + more)[1..] == more;
  }

  lemma {:induction false} HeadersPrint(p: Parser, d: string) returns (hs: Headers)
    requires HeaderLoop(p, d).code == Ok
    ensures Recorded(p, HeaderLoop(p, d).parser, hs) && HeadersOk(hs)
    ensures d == HeaderLines(hs) + CRLF + HeaderLoop(p, d).rest
    decreases |d|
  {
    var index := Find(d, CRLF).value;
    CutAt(d, CRLF, index);
    if index == 0 {
      hs := [];
      assert p.headers + hs == p.headers;
      assert d == "" + CRLF + d[2..];
    } else {
      var sub := d[..index];
      var colon := Find(sub, ": ").value;
      CutAt(sub, ": ", colon);
      var h := (sub[..colon], sub[colon + 2..]);
      var more := HeadersPrint(AddHeader(p, sub, colon), d[index + 2..]);
      hs := [h] + more;
      JoinLines(h, more, HeaderLoop(p, d).rest);
      assert p.headers + [h] + more == p.headers + hs;
      assert HeaderLine(h) == sub;
    }
  }

  lemma BodyPrints(p: Parser, d: string)
    requires ParseBody(p, d).code == Ok
    ensures var o := ParseBody(p, d);
            && o.parser == p.(state := ParseDone, tooLarge := false, body := o.parser.body)
            && Framed(p.headers, o.parser.body) && d == o.parser.body + o.rest
  {
    AnnouncedLength(p.headers, |ParseBody(p, d).parser.body|);
  }

  lemma HeadPrints(p: Parser, d: string)
    requires p.headers == [] && FromHead(p, d).code == Ok
    ensures var o := FromHead(p, d);
            && o.parser == p.(state := ParseDone, tooLarge := false, headers := o.parser.headers, body := o.parser.body)
            && HeadersOk(o.parser.headers) && Framed(o.parser.headers, o.parser.body)
            && d == HeaderLines(o.parser.headers) + CRLF + (o.parser.body + o.rest)
            && Occurs(d, CRLFCRLF)
  {
    var h := ParseHead(p, d);
    var hs := HeadersPrint(p.(state := ReqHeaders), d);
    assert p.headers + hs == hs;
    BodyPrints(h.parser.(state := ReqBody), h.rest);
  }

  lemma ParsePrints(d: string)
    requires Parse(FRESH, d).code == Ok
    ensures var o := Parse(FRESH, d); var r := AsRequest(o.parser);
            && o.parser == Read(r) && WellFormed(r) && GateOpens(r, o.rest) && d == Print(r) + o.rest
  {
    var o := Parse(FRESH, d);
    var l := ParseLine(FRESH, d);
    LinePrints(FRESH, d);
    HeadPrints(l.parser.(state := ReqHeaders), l.rest);
    var r := AsRequest(o.parser);
    assert RequestLine(r) == RequestLine(AsRequest(l.parser));
    PrintSplits(r, o.rest);
    if r.headers == [] {
      assert l.rest == CRLF + r.body + o.rest;
    }
  }

  lemma PrintSplits(r: Request, rest: string)
    ensures Print(r) + rest == RequestLine(r) + CRLF + (HeaderLines(r.headers) + CRLF + (r.body + rest))
  {
  }

  // ------------------------------------------------------------------ both directions

  // The parser accepts exactly the printed forms of well-formed requests, and recovers from each
  // the very request and the very bytes behind it.  A request without headers is recognised only
  // once a CRLFCRLF shows up from its blank line on.
  lemma ParserIsExact(d: string, r: Request, rest: string)
    ensures Parse(FRESH, d) == Outcome(Ok, Read(r), rest)
        <==> WellFormed(r) && GateOpens(r, rest) && d == Print(r) + rest
  {
    if WellFormed(r) && GateOpens(r, rest) && d == Print(r) + rest {
      PrintParses(r, rest);
    }
    if Parse(FRESH, d) == Outcome(Ok, Read(r), rest) {
      ParsePrints(d);
    }
  }

  // Where printing and parsing part: a complete request without headers keeps the parser waiting.
  lemma HeaderlessRequestWaits()
    ensures WellFormed(Request("GET", "/", "HTTP/1.1", [], ""))
    ensures Print(Request("GET", "/", "HTTP/1.1", [], "")) == "GET / HTTP/1.1\r\n\r\n"
    ensures Parse(FRESH, Print(Request("GET", "/", "HTTP/1.1", [], ""))).code == Again
  {
    var r := Request("GET", "/", "HTTP/1.1", [], "");
    var line := RequestLine(r);
    assert line == "GET / HTTP/1.1";
    forall k: nat ensures !At(line, CRLF, k) {
      if k + 2 <= |line| {
        assert line[k..k + 2][0] == line[k] != '\r';
      }
    }
    assert Print(r) == line + CRLF + CRLF;
    ParsesLine(FRESH, r, CRLF);
    assert SaysNothing([]);
  }

  function PrintAll(rs: seq<Request>): string {
    if rs == [] then "" else Print(rs[0]) + PrintAll(rs[1..])
  }

  function ReadAll(rs: seq<Request>): seq<Parser> {
    if rs == [] then [] else [Read(rs[0])] + ReadAll(rs[1..])
  }

  // n calls of the parser, each starting where the one before stopped.
  function ParseMany(n: nat, d: string): (seq<Parser>, string) {
    if n == 0 then ([], d)
    else
      var o := Parse(FRESH, d);
      var (ps, rest) := ParseMany(n - 1, o.rest);
      ([o.parser] + ps, rest)
  }

  // Concatenated requests come back one by one, in order, with the bytes behind them untouched.
  lemma {:induction false} ManyRoundTrip(rs: seq<Request>, rest: string)
    requires forall i | 0 <= i < |rs| :: WellFormed(rs[i]) && rs[i].headers != []
    ensures ParseMany(|rs|, PrintAll(rs) + rest) == (ReadAll(rs), rest)
  {
    if rs != [] {
      assert PrintAll(rs) + rest == Print(rs[0]) + (PrintAll(rs[1..]) + rest);
      PrintParses(rs[0], PrintAll(rs[1..]) + rest);
      ManyRoundTrip(rs[1..], rest);
    } else {
      assert PrintAll(rs) + rest == rest;
    }
  }

  // ------------------------------------------------------------------ decimal lengths

  // std::to_string of a length.
  function ToDecimal(n: nat): string {
    if n < 10 then [('0' as int + n) as char] else ToDecimal(n / 10) + [('0' as int + n % 10) as char]
  }

  lemma {:induction false} DecimalInverse(n: nat)
    ensures Decimal(ToDecimal(n)) == n && ToDecimal(n) != ""
    ensures forall c | c in ToDecimal(n) :: IsDigit(c)
  {
    var s := ToDecimal(n);
    if n >= 10 {
      DecimalInverse(n / 10);
      assert s[..|s| - 1] == ToDecimal(n / 10);
    } else {
      assert s[..|s| - 1] == "";
    }
  }

  // The numeral of n, without a zero in front.
  lemma {:induction false} ToDecimalMeans(n: nat)
    ensures Digits(ToDecimal(n)) && Numeral(ToDecimal(n)) == n
    ensures ToDecimal(n)[0] == '0' ==> n == 0 && |ToDecimal(n)| == 1
  {
    if n >= 10 {
      ToDecimalMeans(n / 10);
      NumeralAppend(ToDecimal(n / 10), ('0' as int + n % 10) as char);
    } else {
      assert ToDecimal(n)[1..] == "";
    }
  }

  lemma LengthRoundTrip(n: nat)
    requires n <= SIZE_MAX
    ensures ParseLength(ToDecimal(n)) == Some(n)
  {
    DecimalInverse(n);
    var s := ToDecimal(n);
    assert s[0] in s && s[|s| - 1] in s;
    assert TrimLeft(s) == s;
    assert TrimRight(s) == s;
  }
}
