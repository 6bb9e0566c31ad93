/** Resuming the parser is the same as having waited for all the bytes. */
module Fragmentation {
  import opened Text
  import opened HttpSyntax

  // ------------------------------------------------------------------ the header block

  // What the CRLFCRLF gate leaves in front of the header loop, line after line.
  ghost predicate Gated(d: string) {
    Occurs(d, CRLFCRLF) || At(d, CRLF, 0)
  }

  lemma GateFindsLine(d: string)
    requires Gated(d)
    ensures Occurs(d, CRLF)
  {
    if Occurs(d, CRLFCRLF) {
      var q: nat :| At(d, CRLFCRLF, q);
      assert d[q..q + 2] == d[q..q + 4][..2];
      assert At(d, CRLF, q);
    }
  }

  lemma GateSurvivesLine(d: string, index: nat)
    requires Gated(d) && Find(d, CRLF) == Some(index) && index > 0
    ensures Gated(d[index + 2..])
  {
    assert !At(d, CRLF, 0);
    var q: nat :| At(d, CRLFCRLF, q);
    assert d[q..q + 4][1] == d[q + 1] && d[q..q + 4][2] == d[q + 2];
    assert d[q..q + 2] == d[q..q + 4][..2];
    assert At(d, CRLF, q);
    assert d[index..index + 2][0] == d[index];
    assert index != q - 1;
    var rest := d[index + 2..];
    if index < q {
      assert rest[q - index - 2..q - index + 2] == d[q..q + 4];
      assert At(rest, CRLFCRLF, q - index - 2);
    } else {
      assert rest[0..2] == d[q..q + 4][2..];
      assert At(rest, CRLF, 0);
    }
  }

  // Behind the gate the header loop never runs out of bytes.
  lemma {:induction false} HeaderLoopNeverWaits(p: Parser, d: string)
    requires Gated(d)
    ensures HeaderLoop(p, d).code != Again
    decreases |d|
  {
    GateFindsLine(d);
    var index := Find(d, CRLF).value;
    if index > 0 {
      GateSurvivesLine(d, index);
      var sub := d[..index];
      if Find(sub, ": ").Some? {
        var colon := Find(sub, ": ").value;
        HeaderLoopNeverWaits(AddHeader(p, sub, colon), d[index + 2..]);
      }
    }
  }

  // All or nothing: a wait in parseHead_ has consumed nothing and recorded no header.
  lemma HeadAllOrNothing(p: Parser, d: string)
    requires ParseHead(p, d).code == Again
    ensures ParseHead(p, d) == Outcome(Again, p.(state := ReqHeaders), d)
    ensures Find(d, CRLFCRLF).None?
  {
    if Find(d, CRLFCRLF).Some? {
      HeaderLoopNeverWaits(p.(state := ReqHeaders), d);
    }
  }

  lemma {:induction false} HeaderLoopExtends(p: Parser, x: string, y: string)
    requires HeaderLoop(p, x).code != Again
    ensures HeaderLoop(p, x + y) == HeaderLoop(p, x).(rest := HeaderLoop(p, x).rest + y)
    decreases |x|
  {
    FindExtends(x, y, CRLF);
    var index := Find(x, CRLF).value;
    assert (x + y)[..index] == x[..index];
    assert (x + y)[index + 2..] == x[index + 2..] + y;
    if index > 0 {
      var sub := x[..index];
      if Find(sub, ": ").Some? {
        var colon := Find(sub, ": ").value;
        HeaderLoopExtends(AddHeader(p, sub, colon), x[index + 2..], y);
      }
    }
  }

  // ------------------------------------------------------------------ more bytes

  lemma LineExtends(p: Parser, x: string, y: string)
    requires ParseLine(p, x).code != Again
    ensures ParseLine(p, x + y) == ParseLine(p, x).(rest := ParseLine(p, x).rest + y)
  {
    FindExtends(x, y, CRLF);
    var lineEnd := Find(x, CRLF).value;
    assert (x + y)[..lineEnd] == x[..lineEnd];
    assert (x + y)[lineEnd + 2..] == x[lineEnd + 2..] + y;
  }

  lemma HeadExtends(p: Parser, x: string, y: string)
    requires ParseHead(p, x).code != Again
    ensures ParseHead(p, x + y) == ParseHead(p, x).(rest := ParseHead(p, x).rest + y)
  {
    FindExtends(x, y, CRLFCRLF);
    HeaderLoopExtends(p.(state := ReqHeaders), x, y);
  }

  lemma BodyExtends(p: Parser, x: string, y: string)
    requires ParseBody(p, x).code != Again
    ensures ParseBody(p, x + y) == ParseBody(p, x).(rest := ParseBody(p, x).rest + y)
  {
    match FindHeader(p.headers, "Content-Length")
    case None =>
    case Some(value) =>
      match ParseLength(value)
      case None =>
      case Some(length) =>
        if length <= |x| {
          assert (x + y)[..length] == x[..length];
          assert (x + y)[length..] == x[length..] + y;
        }
  }

  // Appending bytes never changes a decision: it only lengthens what is left over.
  lemma DecisionExtends(p: Parser, x: string, y: string)
    requires Parse(p, x).code != Again
    ensures Parse(p, x + y) == Parse(p, x).(rest := Parse(p, x).rest + y)
  {
    match p.state
    case Idle => FromLineExtends(p, x, y);
    case ReqLine => FromLineExtends(p, x, y);
    case ReqHeaders => FromHeadExtends(p, x, y);
    case ReqBody => BodyExtends(p, x, y);
    case _ =>
  }

  lemma FromHeadExtends(p: Parser, x: string, y: string)
    requires FromHead(p, x).code != Again
    ensures FromHead(p, x + y) == FromHead(p, x).(rest := FromHead(p, x).rest + y)
  {
    HeadExtends(p, x, y);
    var o := ParseHead(p, x);
    if o.code == Ok {
      BodyExtends(o.parser.(state := ReqBody), o.rest, y);
    }
  }

  lemma FromLineExtends(p: Parser, x: string, y: string)
    requires FromLine(p, x).code != Again
    ensures FromLine(p, x + y) == FromLine(p, x).(rest := FromLine(p, x).rest + y)
  {
    LineExtends(p, x, y);
    var o := ParseLine(p, x);
    if o.code == Ok {
      FromHeadExtends(o.parser.(state := ReqHeaders), o.rest, y);
    }
  }

  // A parser that waited, given more bytes, ends exactly where one that saw them all would.
  lemma ResumeIsRestart(p: Parser, x: string, y: string)
    requires Parse(p, x).code == Again
    ensures Parse(Parse(p, x).parser, Parse(p, x).rest + y) == Parse(p, x + y)
  {
    match p.state
    case Idle => ResumeLine(p, x, y);
    case ReqLine => ResumeLine(p, x, y);
    case ReqHeaders => ResumeHead(p, x, y);
    case ReqBody =>
    case _ =>
  }

  lemma ResumeBody(p: Parser, x: string, y: string)
    requires ParseBody(p, x).code == Again
    ensures Parse(ParseBody(p, x).parser, ParseBody(p, x).rest + y) == ParseBody(p, x + y)
  {
  }

  lemma ResumeHead(p: Parser, x: string, y: string)
    requires FromHead(p, x).code == Again
    ensures Parse(FromHead(p, x).parser, FromHead(p, x).rest + y) == FromHead(p, x + y)
  {
    var o := ParseHead(p, x);
    if o.code == Again {
      HeadAllOrNothing(p, x);
      assert ParseHead(p.(state := ReqHeaders), x + y) == ParseHead(p, x + y);
    } else {
      HeadExtends(p, x, y);
      ResumeBody(o.parser.(state := ReqBody), o.rest, y);
    }
  }

  lemma ResumeLine(p: Parser, x: string, y: string)
    requires FromLine(p, x).code == Again
    ensures Parse(FromLine(p, x).parser, FromLine(p, x).rest + y) == FromLine(p, x + y)
  {
    var o := ParseLine(p, x);
    if o.code == Ok {
      LineExtends(p, x, y);
      ResumeHead(o.parser.(state := ReqHeaders), o.rest, y);
    } else {
      assert ParseLine(p.(state := ReqLine), x + y) == ParseLine(p, x + y);
    }
  }

  // ------------------------------------------------------------------ any split into reads

  function Current(inFlight: Option<Parser>): Parser {
    if inFlight.Some? then inFlight.value else FRESH
  }

  // Chunks are read and parsed one by one, through the in-flight object, until one decides;
  // later chunks then only lengthen what is left in the buffer.
  function FeedAll(inFlight: Option<Parser>, buffered: string, chunks: seq<string>): Outcome
    decreases |chunks|
  {
    if chunks == [] then Outcome(Again, Current(inFlight), buffered)
    else
      var (o, next) := ParseRequest(inFlight, buffered + chunks[0]);
      if o.code != Again then o.(rest := o.rest + Concat(chunks[1..]))
      else FeedAll(next, o.rest, chunks[1..])
  }

  // Parsing the same bytes again would change nothing.
  predicate Settled(p: Parser, buffered: string) {
    Parse(p, buffered) == Outcome(Again, p, buffered) || (p == FRESH && buffered == "")
  }

  lemma {:induction false} FeedAllIsParse(inFlight: Option<Parser>, buffered: string, chunks: seq<string>)
    requires Settled(Current(inFlight), buffered)
    requires buffered + Concat(chunks) != ""
    ensures FeedAll(inFlight, buffered, chunks) == Parse(Current(inFlight), buffered + Concat(chunks))
    decreases |chunks|
  {
    var p := Current(inFlight);
    if chunks == [] {
      assert buffered + Concat(chunks) == buffered;
    } else {
      var d := buffered + chunks[0];
      var more := Concat(chunks[1..]);
      assert buffered + Concat(chunks) == d + more;
      var (o, next) := ParseRequest(inFlight, d);
      if d == "" {
        FeedAllIsParse(inFlight, buffered, chunks[1..]);
      } else if o.code != Again {
        DecisionExtends(p, d, more);
      } else {
        ResumeIsRestart(p, d, more);
        ResumeIsRestart(p, d, "");
        assert o.rest + "" == o.rest && d + "" == d;
        if o.rest + more != "" {
          FeedAllIsParse(next, o.rest, chunks[1..]);
        } else {
          EmptyChunksWait(next, chunks[1..]);
          assert d + more == d;
        }
      }
    }
  }

  lemma {:induction false} EmptyChunksWait(inFlight: Option<Parser>, chunks: seq<string>)
    requires Concat(chunks) == ""
    ensures FeedAll(inFlight, "", chunks) == Outcome(Again, Current(inFlight), "")
  {
    if chunks != [] {
      assert "" + chunks[0] == "";
      EmptyChunksWait(inFlight, chunks[1..]);
    }
  }

  // Fragmentation independence: every split of a byte stream into reads makes the same first
  // decision, with the same request fields and the same bytes left over, as one parse of the
  // whole; and if that parse waits, every split leaves the same parser waiting on the same bytes.
  lemma FragmentationIndependence(chunks: seq<string>)
    ensures FeedAll(None, "", chunks) == ParseRequest(None, Concat(chunks)).0
  {
    hide Parse, FeedAll;
    assert "" + Concat(chunks) == Concat(chunks);
    assert Settled(Current(None), "");
    if Concat(chunks) == "" {
      EmptyChunksWait(None, chunks);
    } else {
      FeedAllIsParse(None, "", chunks);
    }
  }
}
