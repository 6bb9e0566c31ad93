/** The parser object itself: fields updated in place while a shared buffer is consumed.
    Each method computes the function of the same name in HttpSyntax. */
module HttpRequestModule {
  import opened Text
  import opened BufferModule
  import opened HttpSyntax
  import opened Framing

  class HttpRequest {
    var curState: State
    var verb: string
    var url: string
    var version: string
    var headers: Headers
    var body: string
    var bodyTooLarge: bool

    ghost function Fields(): Parser
      reads this
    {
      Parser(curState, verb, url, version, headers, body, bodyTooLarge)
    }

    constructor ()
      ensures Fields() == FRESH
    {
      curState := Idle;
      verb, url, version := "", "", "";
      headers, body, bodyTooLarge := [], "", false;
    }

    // An outcome of one of the functions, with `this` holding the fields and `data` the rest.
    ghost predicate Holds(o: Outcome, code: StatusCode, data: Buffer)
      reads this, data
    {
      o.code == code && o.parser == Fields() && o.rest == data.Contents
    }

    method ParseLine(data: Buffer) returns (code: StatusCode)
      requires data.Valid()
      modifies this, data`readIndex, data`writeIndex, data`Contents
      ensures data.Valid() && Holds(HttpSyntax.ParseLine(old(Fields()), old(data.Contents)), code, data)
    {
      hide SplitLine;
      curState := ReqLine;
      var lineEnd := data.FindIn(CRLF);
      if lineEnd.None? {
        return Again;
      }
      var requestLine := data.GetStringView(lineEnd.value);
      var ok := SplitRequestLine(requestLine);
      if !ok {
        return Invalid;
      }
      RetrieveLine(data, lineEnd.value);
      return Ok;
    }

    method SplitRequestLine(requestLine: string) returns (ok: bool)
      modifies this`verb, this`url, this`version, this`curState
      ensures (ok, Fields()) == SplitLine(old(Fields()), requestLine)
    {
      var firstSpace := Find(requestLine, " ");
      if firstSpace.None? {
        curState := ReqLineFailed;
        return false;
      }
      var secondSpace := FindFrom(requestLine, " ", firstSpace.value + 1);
      if secondSpace.None? {
        curState := ReqLineFailed;
        return false;
      }
      verb := requestLine[..firstSpace.value];
      url := requestLine[firstSpace.value + 1..secondSpace.value];
      version := requestLine[secondSpace.value + 1..];
      if verb == "" || url == "" || version == "" {
        curState := ReqLineFailed;
        return false;
      }
      return true;
    }

    // data_->retrieve(index + 2), where CRLF stands at index.
    method RetrieveLine(data: Buffer, index: nat)
      requires data.Valid() && At(data.Contents, CRLF, index)
      modifies data`readIndex, data`writeIndex, data`Contents
      ensures data.Valid() && data.Contents == old(data.Contents)[index + 2..]
    {
      data.Retrieve(index + 2);
    }

    // One round of the header loop, for a line that is not the blank one.
    method ParseHeaderLine(data: Buffer, index: nat) returns (ok: bool)
      requires data.Valid() && Find(data.Contents, CRLF) == Some(index) && index > 0
      modifies this, data`readIndex, data`writeIndex, data`Contents
      ensures data.Valid() && |data.Contents| < |old(data.Contents)|
      ensures HeaderLoop(old(Fields()), old(data.Contents))
           == if ok then HeaderLoop(Fields(), data.Contents) else Outcome(Invalid, Fields(), data.Contents)
    {
      hide HeaderLoop;
      HeaderLoopRound(Fields(), data.Contents, index);
      var sub := data.GetStringView(index);
      RetrieveLine(data, index);
      var colon := Find(sub, ": ");
      if colon.None? {
        curState := ReqHeadersFailed;
        return false;
      }
      var key := sub[..colon.value];
      var value := sub[colon.value + 2..];
      headers := headers + [(key, value)];
      return true;
    }

    method ParseHead(data: Buffer) returns (code: StatusCode)
      requires data.Valid()
      modifies this, data`readIndex, data`writeIndex, data`Contents
      ensures data.Valid() && Holds(HttpSyntax.ParseHead(old(Fields()), old(data.Contents)), code, data)
    {
      curState := ReqHeaders;
      var gate := data.FindIn(CRLFCRLF);
      if gate.None? {
        return Again;
      }
      ghost var goal := HeaderLoop(Fields(), data.Contents);
      while true
        invariant data.Valid() && HeaderLoop(Fields(), data.Contents) == goal
        decreases |data.Contents|
      {
        var index := data.FindIn(CRLF);
        if index.None? {
          return Again;
        }
        if index.value == 0 {
          RetrieveLine(data, 0);
          break;
        }
        var ok := ParseHeaderLine(data, index.value);
        if !ok {
          return Invalid;
        }
      }
      return Ok;
    }

    method FindHeaderValue(key: string) returns (r: Option<string>)
      ensures r == FindHeader(headers, key)
      ensures r.None? <==> forall i: nat :: !FirstNamed(headers, key, i)
      ensures forall i: nat | FirstNamed(headers, key, i) :: r == Some(headers[i].1)
    {
      FindHeaderMeans(headers, key);
      hide FirstNamed;
      var target := ToLower(key);
      var i := 0;
      while i < |headers|
        invariant 0 <= i <= |headers|
        invariant FindHeader(headers[i..], key) == FindHeader(headers, key)
      {
        assert headers[i..][0] == headers[i] && headers[i..][1..] == headers[i + 1..];
        if ToLower(headers[i].0) == target {
          return Some(headers[i].1);
        }
        i := i + 1;
      }
      return None;
    }

    method ParseBody(data: Buffer) returns (code: StatusCode)
      requires data.Valid()
      modifies this, data`readIndex, data`writeIndex, data`Contents
      ensures data.Valid() && Holds(HttpSyntax.ParseBody(old(Fields()), old(data.Contents)), code, data)
    {
      curState := ReqBody;
      bodyTooLarge := false;
      var contentLength := FindHeaderValue("Content-Length");
      if contentLength.None? {
        body := "";
        curState := ParseDone;
        return Ok;
      }
      var length := ParseLength(contentLength.value);
      if length.None? {
        curState := ReqBodyFailed;
        return Invalid;
      }
      if length.value > MAX_BODY_BYTES {
        bodyTooLarge := true;
        curState := ReqBodyFailed;
        return Invalid;
      }
      if data.ReadableBytes() < length.value {
        return Again;
      }
      ghost var before := data.Contents;
      body := data.RetrieveAsString(length.value);
      assert before[..length.value] == body && before[length.value..] == data.Contents;
      curState := ParseDone;
      return Ok;
    }

    method Parse(data: Buffer) returns (code: StatusCode)
      requires data.Valid()
      modifies this, data`readIndex, data`writeIndex, data`Contents
      ensures data.Valid() && Holds(HttpSyntax.Parse(old(Fields()), old(data.Contents)), code, data)
    {
      hide HttpSyntax.ParseLine, HttpSyntax.FromHead, HttpSyntax.ParseBody;
      if curState == ParseDone {
        return Ok;
      }
      if curState == Idle || curState == ReqLine {
        code := ParseLine(data);
        if code != Ok {
          return code;
        }
        curState := ReqHeaders;
      }
      code := ParseAfterLine(data);
    }

    // The later stages, from the one reached.
    method ParseAfterLine(data: Buffer) returns (code: StatusCode)
      requires data.Valid() && curState != ParseDone && curState != Idle && curState != ReqLine
      modifies this, data`readIndex, data`writeIndex, data`Contents
      ensures data.Valid() && Holds(HttpSyntax.Parse(old(Fields()), old(data.Contents)), code, data)
    {
      hide HttpSyntax.FromLine, HttpSyntax.ParseHead, HttpSyntax.ParseBody;
      if curState == ReqHeaders {
        code := ParseHead(data);
        if code != Ok {
          return code;
        }
        curState := ReqBody;
      }
      if curState == ReqBody {
        code := ParseBody(data);
        return code;
      }
      return Invalid;
    }
  }

  // What a nullable in-flight object stands for.
  ghost function InFlight(r: HttpRequest?): Option<Parser>
    reads r
  {
    if r == null then None else Some(r.Fields())
  }

  // parseRequest: `holder` is the caller's in-flight pointer; a finished request leaves it.
  method ParseRequest(data: Buffer, holder: HttpRequest?)
    returns (code: StatusCode, request: HttpRequest?, holder': HttpRequest?, tooLarge: bool)
    requires data.Valid()
    modifies data`readIndex, data`writeIndex, data`Contents, holder
    ensures data.Valid()
    ensures var (o, next) := HttpSyntax.ParseRequest(old(InFlight(holder)), old(data.Contents));
            && code == o.code && data.Contents == o.rest && InFlight(holder') == next
            && (code == Ok <==> request != null) && (request != null ==> request.Fields() == o.parser)
            && (tooLarge <==> code == Invalid && o.parser.state.ReqBodyFailed? && o.parser.tooLarge)
    ensures holder' != null ==> holder' == holder || fresh(holder')
    ensures request != null ==> request == holder || fresh(request)
  {
    if data.ReadableBytes() == 0 {
      return Again, null, holder, false;
    }
    var res: HttpRequest;
    if holder == null {
      res := new HttpRequest();
    } else {
      res := holder;
    }
    code := res.Parse(data);
    if code != Ok {
      return code, null, res, code == Invalid && res.curState.ReqBodyFailed? && res.bodyTooLarge;
    }
    return Ok, res, null, false;
  }
}
