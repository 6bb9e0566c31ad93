/** The two ends of a connection's streams: which requests the handler gets for the bytes that came
    in, and what a reader makes of the bytes that went out. */
module ConnectionStreams {
  import opened Text
  import opened BufferModule
  import opened HttpSyntax
  import opened Fragmentation
  import opened RoundTrip
  import opened Connection
  import opened ConnectionRuns

  // ------------------------------------------------------------------ in

  // The in-flight object and the read buffer stand for the bytes read since the last request.
  predicate StandsFor(input: Input, tail: string) {
    match input.inFlight
    case None => input.readBuf == tail
    case Some(p) => Parse(FRESH, tail) == Outcome(Again, p, input.readBuf)
  }

  ghost predicate InInv(c: Conn) {
    c.inLog.failed || (
      && c.inLog.received == PrintAll(c.inLog.handled) + c.inLog.tail
      && StandsFor(c.input, c.inLog.tail)
      && forall i | 0 <= i < |c.inLog.handled| :: WellFormed(c.inLog.handled[i]))
  }

  lemma {:induction false} PrintAllAppend(rs: seq<Request>, r: Request)
    ensures PrintAll(rs + [r]) == PrintAll(rs) + Print(r)
  {
    if rs == [] {
      assert [r][1..] == [];
      assert rs + [r] == [r];
    } else {
      assert (rs + [r])[1..] == rs[1..] + [r];
      PrintAllAppend(rs[1..], r);
    }
  }

  // Parsing through the in-flight object is parsing everything since the last request.
  lemma ParsesWholeTail(input: Input, tail: string, data: string)
    requires StandsFor(input, tail) && data != ""
    ensures ParseRequest(input.inFlight, input.readBuf + data).0 == Parse(FRESH, tail + data)
  {
    match input.inFlight
    case None =>
    case Some(p) => ResumeIsRestart(FRESH, tail, data);
  }

  // What a decision does to the input side.
  lemma DecidedIn(c: Conn, o: Outcome, timedOut: bool, answer: Option<HandlerResult>)
    ensures var c' := Decided(c, o, timedOut, answer);
      && c'.input.readBuf == c.input.readBuf
      && match o.code
         case Again => c'.input.inFlight == c.input.inFlight && c'.inLog == c.inLog
         case Invalid => c'.inLog == c.inLog.(failed := true)
         case Ok =>
           && c'.input.inFlight == None
           && c'.inLog == c.inLog.(handled := c.inLog.handled + [AsRequest(o.parser)], tail := c.input.readBuf)
  {
    hide ReplyBytes, ShouldKeepAlive, Taken, AsRequest;
  }

  lemma ReadKeepsIn(c: Conn, input: ReadResult, timedOut: bool, answer: Option<HandlerResult>)
    requires InInv(c)
    ensures InInv(HandleRead(c, input, timedOut, answer))
  {
    hide Parse, Print, WellFormed, Decided, AsRequest, PrintAll;
    if input.Bytes? && input.data != "" {
      var c0 := c.(input := c.input.(readBuf := c.input.readBuf + input.data));
      DecidedIn(TakenIn(c0, input.data), ParseRequest(c.input.inFlight, c0.input.readBuf).0, timedOut, answer);
    }
    if input.Bytes? && input.data != "" && !c.inLog.failed {
      var tail := c.inLog.tail + input.data;
      ParsesWholeTail(c.input, c.inLog.tail, input.data);
      assert c.inLog.received + input.data == PrintAll(c.inLog.handled) + tail;
      var o := Parse(FRESH, tail);
      if o.code == Ok {
        ParsePrints(tail);
        var r := AsRequest(o.parser);
        PrintAllAppend(c.inLog.handled, r);
        assert PrintAll(c.inLog.handled) + (Print(r) + o.rest) == PrintAll(c.inLog.handled + [r]) + o.rest;
      }
    }
  }

  lemma StepKeepsIn(s: RunState, step: Step)
    requires InInv(s.conn) && Enabled(s, step)
    ensures InInv(Do(s, step).conn)
  {
    hide ReplyBytes, Parse, HandleRead;
    match step
    case Active(read, write) =>
      if read.DoRead? {
        ReadKeepsIn(s.conn, read.input, read.timedOut, read.answer);
      }
    case _ =>
  }

  // In every run, whatever the client sends and however it is cut into reads: until a request is
  // malformed, the bytes read are exactly the printed forms of the requests given to the handler,
  // in order, followed by the bytes of one that is still incomplete or not yet looked at.
  lemma {:induction false} RequestsAreTheInput(states: seq<RunState>, steps: seq<Step>, ka: bool, maxRequests: nat,
                                              i: nat)
    requires Run(states, steps, ka, maxRequests) && i < |states|
    ensures InInv(states[i].conn)
  {
    if i > 0 {
      RequestsAreTheInput(states, steps, ka, maxRequests, i - 1);
      StepKeepsIn(states[i - 1], steps[i - 1]);
    }
  }

  // ------------------------------------------------------------------ out

  // A response, read as the message it is: its status line has the shape of a request line.
  function AsMessage(r: Reply): Request {
    Request("HTTP/1.1", IntToString(r.content.status), r.content.reason,
            [("Content-Type", r.content.contentType), ("Content-Length", ToDecimal(|r.content.body|)),
             ("Connection", if r.keepAlive then "keep-alive" else "close"), ("Server", "CPPReactor")],
            r.content.body)
  }

  // What a handler must not put into a status line or a header for the response to be readable.
  ghost predicate Clean(r: Reply) {
    r.content.reason != "" && !Occurs(r.content.reason, CRLF) && !Occurs(r.content.contentType, CRLF)
  }

  lemma FourHeaderLines(a: (string, string), b: (string, string), c: (string, string), d: (string, string))
    ensures HeaderLines([a, b, c, d])
         == (HeaderLine(a) + CRLF) + (HeaderLine(b) + CRLF) + (HeaderLine(c) + CRLF) + (HeaderLine(d) + CRLF)
  {
    assert [a, b, c, d][1..] == [b, c, d] && [b, c, d][1..] == [c, d] && [c, d][1..] == [d] && [d][1..] == [];
    assert HeaderLines([d]) == HeaderLine(d) + CRLF;
    assert HeaderLines([c, d]) == HeaderLine(c) + CRLF + HeaderLines([d]);
    assert HeaderLines([b, c, d]) == HeaderLine(b) + CRLF + HeaderLines([c, d]);
    Regroup(HeaderLine(a) + CRLF, HeaderLine(b) + CRLF, HeaderLine(c) + CRLF, HeaderLine(d) + CRLF);
  }

  lemma Regroup(a: string, b: string, c: string, d: string)
    ensures a + (b + (c + d)) == a + b + c + d
  {
  }

  lemma HeadIsLines(line: string, a: string, b: string, c: string, d: string, body: string)
    ensures line + a + b + c + d + CRLF + body == line + (a + b + c + d) + CRLF + body
  {
  }

  lemma StatusPrints(r: Reply)
    ensures RequestLine(AsMessage(r)) + CRLF == StatusLine(r)
  {
    hide IntToString;
  }

  lemma TypePrints(r: Reply)
    ensures HeaderLine(AsMessage(r).headers[0]) + CRLF == TypeLine(r)
  {
    hide IntToString, ToDecimal;
  }

  lemma LengthPrints(r: Reply)
    ensures HeaderLine(AsMessage(r).headers[1]) + CRLF == LengthLine(r)
  {
    hide IntToString, ToDecimal;
  }

  lemma ConnectionPrints(r: Reply)
    ensures HeaderLine(AsMessage(r).headers[2]) + CRLF == ConnectionLine(r)
  {
    hide IntToString, ToDecimal;
  }

  lemma ServerPrints(r: Reply)
    ensures HeaderLine(AsMessage(r).headers[3]) + CRLF == ServerLine()
  {
    hide IntToString, ToDecimal;
  }

  lemma FourHeaders(r: Reply)
    ensures var m := AsMessage(r);
      && |m.headers| == 4 && m.headers == [m.headers[0], m.headers[1], m.headers[2], m.headers[3]]
      && m.body == r.content.body
  {
    hide IntToString, ToDecimal;
  }

  lemma BytesArePrint(r: Reply)
    ensures ReplyBytes(r) == Print(AsMessage(r))
  {
    hide AsMessage, HeaderLines, HeaderLine, RequestLine, StatusLine, TypeLine, LengthLine, ConnectionLine, ServerLine;
    var m := AsMessage(r);
    FourHeaders(r);
    var h := m.headers;
    FourHeaderLines(h[0], h[1], h[2], h[3]);
    StatusPrints(r);
    TypePrints(r);
    LengthPrints(r);
    ConnectionPrints(r);
    ServerPrints(r);
    HeadIsLines(StatusLine(r), TypeLine(r), LengthLine(r), ConnectionLine(r), ServerLine(), m.body);
  }

  lemma AtFirst(s: string, pat: string, k: nat)
    requires pat != ""
    ensures At(s, pat, k) ==> s[k] == pat[0]
  {
    if k + |pat| <= |s| {
      assert s[k..k + |pat|][0] == s[k];
    }
  }

  lemma NoCrlfAfter(a: string, s: string)
    requires '\r' !in a && !Occurs(s, CRLF)
    ensures !Occurs(a + s, CRLF)
  {
    forall k: nat ensures !At(a + s, CRLF, k) {
      AtFirst(a + s, CRLF, k);
      if k >= |a| {
        AtShift(a, s, CRLF, k - |a|);
        assert !At(s, CRLF, k - |a|);
      }
    }
  }

  lemma IntDigits(n: int)
    ensures IntToString(n) != "" && forall c | c in IntToString(n) :: IsDigit(c) || c == '-'
  {
    if n < 0 {
      DecimalInverse(-n);
    } else {
      DecimalInverse(n);
    }
  }

  lemma NoSuffixCrlf(s: string)
    requires '\r' !in s
    ensures !Occurs(s, CRLF)
  {
    assert !Occurs("", CRLF);
    NoCrlfAfter(s, "");
    assert s + "" == s;
  }

  lemma NoColonSpace(key: string)
    requires ':' !in key
    ensures !Occurs(key, ": ")
  {
    forall k: nat ensures !At(key, ": ", k) {
      AtFirst(key, ": ", k);
    }
  }

  lemma HeaderIsOk(key: string, value: string)
    requires ':' !in key && '\r' !in key && !Occurs(value, CRLF)
    ensures HeaderOk((key, value))
  {
    NoColonSpace(key);
    NoCrlfAfter(key + ": ", value);
  }

  lemma StatusLineOk(r: Reply)
    requires Clean(r)
    ensures LineOk(AsMessage(r))
  {
    var m := AsMessage(r);
    IntDigits(r.content.status);
    var front := m.verb + " " + m.url + " ";
    NoCrlfAfter(front, m.version);
    assert RequestLine(m) == front + m.version;
  }

  lemma MessageWellFormed(r: Reply)
    requires Clean(r) && |r.content.body| <= MAX_BODY_BYTES
    ensures WellFormed(AsMessage(r))
  {
    hide LineOk, HeaderOk, ParseLength, ToDecimal, FindHeader;
    var m := AsMessage(r);
    StatusLineOk(r);
    DecimalInverse(|r.content.body|);
    HeaderIsOk("Content-Type", r.content.contentType);
    NoSuffixCrlf(ToDecimal(|r.content.body|));
    HeaderIsOk("Content-Length", ToDecimal(|r.content.body|));
    NoSuffixCrlf(m.headers[2].1);
    HeaderIsOk("Connection", m.headers[2].1);
    NoSuffixCrlf("CPPReactor");
    HeaderIsOk("Server", "CPPReactor");
    LengthHeader(r);
    LengthRoundTrip(|r.content.body|);
    AnnouncedLength(m.headers, |r.content.body|);
  }

  // The bytes of a response are a printed message whose Content-Length is the decimal length of its body.
  lemma LengthHeader(r: Reply)
    ensures var m := AsMessage(r);
      && ReplyBytes(r) == Print(m) && m.body == r.content.body
      && FindHeader(m.headers, "Content-Length") == Some(ToDecimal(|m.body|))
  {
    BytesArePrint(r);
    hide ReplyBytes, Print, ToDecimal, IntToString;
    var h := AsMessage(r).headers;
    assert |ToLower(h[0].0)| == 12 && |ToLower("Content-Length")| == 14;
    assert h[1..][0] == h[1];
  }

  function Messages(replies: seq<Reply>): seq<Request> {
    if replies == [] then [] else Messages(replies[..|replies| - 1]) + [AsMessage(replies[|replies| - 1])]
  }

  lemma NothingPrinted()
    ensures PrintAll([]) == ""
  {
  }

  lemma {:induction false} FlatIsPrintAll(replies: seq<Reply>)
    ensures Flat(replies) == PrintAll(Messages(replies)) && |Messages(replies)| == |replies|
    ensures forall i | 0 <= i < |replies| :: Messages(replies)[i] == AsMessage(replies[i])
  {
    hide ReplyBytes, Print, PrintAll, AsMessage;
    if replies != [] {
      var last := replies[|replies| - 1];
      FlatIsPrintAll(replies[..|replies| - 1]);
      BytesArePrint(last);
      PrintAllAppend(Messages(replies[..|replies| - 1]), AsMessage(last));
    } else {
      NothingPrinted();
    }
  }

  // Whatever follows them, the responses written back to back read back one by one, in order, each
  // with its own body: every Content-Length is right.
  lemma RepliesReadBack(replies: seq<Reply>, rest: string)
    requires forall i | 0 <= i < |replies| :: Clean(replies[i]) && |replies[i].content.body| <= MAX_BODY_BYTES
    ensures ParseMany(|replies|, Flat(replies) + rest) == (ReadAll(Messages(replies)), rest)
    ensures |Messages(replies)| == |replies|
    ensures forall i | 0 <= i < |replies| :: Messages(replies)[i].body == replies[i].content.body
  {
    FlatIsPrintAll(replies);
    forall i | 0 <= i < |replies| ensures WellFormed(Messages(replies)[i]) {
      MessageWellFormed(replies[i]);
    }
    ManyRoundTrip(Messages(replies), rest);
  }
}
