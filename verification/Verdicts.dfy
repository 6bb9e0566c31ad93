/** What the parser says of every byte string: a request (RoundTrip), more bytes wanted, too large, or malformed. */
module Verdicts {
  import opened Text
  import opened HttpSyntax
  import opened Framing
  import opened RoundTrip
  import opened Fragmentation

  // d starts with the request line of r; t follows it.
  ghost predicate Starts(d: string, r: Request, t: string) {
    LineOk(r) && d == RequestLine(r) + CRLF + t
  }

  // t is the whole header block of hs, behind the gate; body follows it.
  ghost predicate Block(t: string, hs: Headers, body: string) {
    HeadersOk(hs) && t == HeaderLines(hs) + CRLF + body && Occurs(t, CRLFCRLF)
  }

  ghost predicate TooLong(t: string, hs: Headers, body: string, n: nat) {
    Block(t, hs, body) && Announces(hs, n) && n > 1048576
  }

  ghost predicate TooShort(t: string, hs: Headers, body: string, n: nat) {
    Block(t, hs, body) && Announces(hs, n) && |body| < n <= 1048576
  }

  // More bytes are wanted: for the line, for the header block, or for the body announced.
  ghost predicate Unfinished(d: string) {
    || !Occurs(d, CRLF)
    || exists r, t :: Starts(d, r, t) && (!Occurs(t, CRLFCRLF) || exists hs, body, n :: TooShort(t, hs, body, n))
  }

  // The body announced is longer than a megabyte.
  ghost predicate TooLarge(d: string) {
    exists r, t, hs, body, n :: Starts(d, r, t) && TooLong(t, hs, body, n)
  }

  ghost predicate SaysTooLarge(o: Outcome) { o.code == Invalid && o.parser.state.ReqBodyFailed? && o.parser.tooLarge }

  // ------------------------------------------------------------------ the header block and the body

  lemma BlockParses(p: Parser, t: string, hs: Headers, body: string)
    requires p.headers == [] && Block(t, hs, body)
    ensures FromHead(p, t) == ParseBody(p.(headers := hs, state := ReqBody), body)
  {
    ParsesHeaders(p.(state := ReqHeaders), hs, body);
    assert p.headers + hs == hs;
  }

  lemma BodyVerdict(p: Parser, body: string)
    ensures var o := ParseBody(p, body);
      && (o.code == Again <==> exists n: nat :: Announces(p.headers, n) && |body| < n <= 1048576)
      && (SaysTooLarge(o) <==> exists n: nat :: Announces(p.headers, n) && n > 1048576)
  {
    hide Announces, SaysNothing, FindHeader, ParseLength;
    forall n: nat ensures Announces(p.headers, n) <==>
        match FindHeader(p.headers, "Content-Length") case None => false case Some(v) => ParseLength(v) == Some(n)
    {
      AnnouncedLength(p.headers, n);
    }
    match FindHeader(p.headers, "Content-Length")
    case None =>
    case Some(v) =>
      if ParseLength(v).Some? {
        var n := ParseLength(v).value;
        assert Announces(p.headers, n);
      }
  }

  lemma HeadVerdict(p: Parser, t: string)
    requires p.headers == []
    ensures var o := FromHead(p, t);
      && (o.code == Again <==> !Occurs(t, CRLFCRLF) || exists hs, body, n :: TooShort(t, hs, body, n))
      && (SaysTooLarge(o) <==> exists hs, body, n :: TooLong(t, hs, body, n))
  {
    hide FromHead, ParseBody, HeaderLines, HeadersOk, Announces;
    forall hs, body | Block(t, hs, body) ensures FromHead(p, t) == ParseBody(p.(headers := hs, state := ReqBody), body)
    {
      BlockParses(p, t, hs, body);
    }
    BlockOrNot(p, t);
    if hs, body :| Block(t, hs, body) {
      var o := FromHead(p, t);
      BodyVerdict(p.(headers := hs, state := ReqBody), body);
      if o.code == Again {
        var n: nat :| Announces(hs, n) && |body| < n <= 1048576;
        assert TooShort(t, hs, body, n);
      }
      if SaysTooLarge(o) {
        var n: nat :| Announces(hs, n) && n > 1048576;
        assert TooLong(t, hs, body, n);
      }
      forall hs2, body2, n | TooShort(t, hs2, body2, n) ensures o.code == Again {
        BodyVerdict(p.(headers := hs2, state := ReqBody), body2);
      }
      forall hs2, body2, n | TooLong(t, hs2, body2, n) ensures SaysTooLarge(o) {
        BodyVerdict(p.(headers := hs2, state := ReqBody), body2);
      }
    }
  }

  // Without a whole header block the verdict comes before the body.
  lemma BlockOrNot(p: Parser, t: string)
    requires p.headers == []
    ensures (exists hs, body :: Block(t, hs, body)) || !SaysTooLarge(FromHead(p, t))
    ensures (exists hs, body :: Block(t, hs, body)) || (FromHead(p, t).code == Again <==> !Occurs(t, CRLFCRLF))
    ensures !Occurs(t, CRLFCRLF) ==> FromHead(p, t).code == Again
  {
    var q := p.(state := ReqHeaders);
    if Occurs(t, CRLFCRLF) {
      HeaderLoopNeverWaits(q, t);
      if HeaderLoop(q, t).code == Ok {
        var hs := HeadersPrint(q, t);
        assert Block(t, hs, HeaderLoop(q, t).rest);
      } else {
        FailsInHeaders(q, t);
      }
    }
  }

  lemma {:induction false} FailsInHeaders(p: Parser, d: string)
    requires HeaderLoop(p, d).code == Invalid
    ensures HeaderLoop(p, d).parser.state.ReqHeadersFailed?
    decreases |d|
  {
    var index := Find(d, CRLF).value;
    if Find(d[..index], ": ").Some? {
      FailsInHeaders(AddHeader(p, d[..index], Find(d[..index], ": ").value), d[index + 2..]);
    }
  }

  // ------------------------------------------------------------------ the whole

  lemma StartsOnce(d: string, r: Request, t: string)
    requires Starts(d, r, t)
    ensures ParseLine(FRESH, d) ==
              Outcome(Ok, FRESH.(verb := r.verb, url := r.url, version := r.version, state := ReqLine), t)
    ensures Occurs(d, CRLF)
  {
    ParsesLine(FRESH, r, t);
    FindDelimiter(RequestLine(r), CRLF, t);
  }

  lemma LineOrNot(d: string)
    ensures var l := ParseLine(FRESH, d);
      && (l.code == Again <==> !Occurs(d, CRLF)) && !SaysTooLarge(l)
      && (l.code == Ok ==> Starts(d, AsRequest(l.parser), l.rest) && l.parser.headers == [])
  {
    if ParseLine(FRESH, d).code == Ok {
      LinePrints(FRESH, d);
    }
  }

  // The parser waits exactly for an unfinished request, and says that one is too large exactly if it announces
  // more than a megabyte.  Whatever else is not a request (ParserIsExact) is malformed.
  lemma VerdictIsExact(d: string)
    ensures Parse(FRESH, d).code == Again <==> Unfinished(d)
    ensures SaysTooLarge(Parse(FRESH, d)) <==> TooLarge(d)
  {
    hide ParseLine, FromHead, Announces, LineOk, Block, RequestLine;
    var l := ParseLine(FRESH, d);
    LineOrNot(d);
    forall r, t | Starts(d, r, t) ensures l.code == Ok && l.rest == t && Occurs(d, CRLF) {
      StartsOnce(d, r, t);
    }
    if l.code == Ok {
      HeadVerdict(l.parser.(state := ReqHeaders), l.rest);
      assert Starts(d, AsRequest(l.parser), l.rest);
    }
  }

  // A request whose length header is spelled in any case comes back with its body.
  lemma AnyCaseFrames(r: Request, i: nat, rest: string)
    requires LineOk(r) && HeadersOk(r.headers) && |r.body| <= 1048576
    requires FirstNamed(r.headers, "Content-Length", i) && r.headers[i].1 == ToDecimal(|r.body|)
    ensures Parse(FRESH, Print(r) + rest) == Outcome(Ok, Read(r), rest)
  {
    PlainNumeral(|r.body|);
    hide LineOk, HeadersOk, Parse, Print, FirstNamed, NamesLength, ToDecimal;
    assert Announces(r.headers, |r.body|);
    hide Announces;
    PrintParses(r, rest);
  }

  lemma PlainNumeral(n: nat)
    requires n <= 1048576
    ensures NamesLength(ToDecimal(n), n)
  {
    ToDecimalMeans(n);
    hide ToDecimal, Numeral;
    var s := ToDecimal(n);
    assert s == "" + s + "" && Padded(s, "", s, "");
  }
}
