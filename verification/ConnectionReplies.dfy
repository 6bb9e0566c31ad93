/** What a connection writes, against what the handlers said.  The ledger is kept from the outside: from the
    bytes that arrive, the handlers' answers and the completions, in terms of its own; never from the fields in
    which the connection keeps its input or prepares a response, nor with the functions that do so. */
module ConnectionReplies {
  import opened Text
  import opened BufferModule
  import opened HttpSyntax
  import opened Framing
  import opened RoundTrip
  import opened ConnStates
  import opened Connection
  import opened ConnectionRuns
  import opened ConnectionStreams

  // Whether connections may be kept alive; the responses the client is to get so far, in order; while a request
  // waits for its completion, whether that response will keep the connection alive; whether an unfinished
  // request is being waited for; and the bytes that came in since the last request.
  datatype Ledger = Ledger(enabled: bool, replies: seq<Reply>, awaiting: Option<bool>, waiting: bool, tail: string)

  function NothingDue(enabled: bool): Ledger { Ledger(enabled, [], None, false, "") }

  // ------------------------------------------------------------------ persistence

  // The first Connection header holds this word, in any case.
  ghost predicate Holds(headers: Headers, word: string) {
    exists i: nat :: FirstNamed(headers, "connection", i) && InAnyCase(headers[i].1, word)
  }

  ghost predicate InAnyCase(s: string, word: string) { exists k: nat :: StandsIn(s, word, k) }

  predicate StandsIn(s: string, word: string, k: nat) { k + |word| <= |s| && SameButCase(s[k..k + |word|], word) }

  // RFC 9112 section 9.3, as far as the code follows it.
  ghost predicate Persistent(version: string, headers: Headers) {
    if SameButCase(version, "HTTP/1.0") then Holds(headers, "keep-alive") else !Holds(headers, "close")
  }

  lemma FoundInAnyCase(s: string, word: string)
    requires ToLower(word) == word
    ensures Contains(ToLower(s), word) <==> InAnyCase(s, word)
  {
    hide SameButCase;
    forall k: nat ensures At(ToLower(s), word, k) <==> StandsIn(s, word, k) {
      if k + |word| <= |s| {
        var part := s[k..k + |word|];
        assert ToLower(s)[k..k + |word|] == ToLower(part);
        ToLowerCompares(part, word);
      }
    }
  }

  lemma NothingInNothing(word: string)
    requires word != ""
    ensures !Contains("", word) && !InAnyCase("", word)
  {
  }

  lemma HoldsMeans(headers: Headers, word: string)
    requires ToLower(word) == word != ""
    ensures Contains(match FindHeader(headers, "connection") case None => "" case Some(v) => ToLower(v), word)
            <==> Holds(headers, word)
  {
    hide ToLower, FindHeader, Contains, InAnyCase, SameButCase;
    FindHeaderMeans(headers, "connection");
    NothingInNothing(word);
    if i: nat :| FirstNamed(headers, "connection", i) {
      FoundInAnyCase(headers[i].1, word);
    }
  }

  lemma ShouldKeepAliveMeans(version: string, headers: Headers)
    ensures ShouldKeepAlive(version, headers) <==> Persistent(version, headers)
  {
    assert ToLower("keep-alive") == "keep-alive" && ToLower("close") == "close" && ToLower("HTTP/1.0") == "http/1.0";
    hide ToLower, FindHeader, Contains, Holds;
    HoldsMeans(headers, "keep-alive");
    HoldsMeans(headers, "close");
    ToLowerCompares(version, "HTTP/1.0");
  }

  // ------------------------------------------------------------------ the ledger

  function Add(d: Ledger, r: Reply): Ledger { d.(replies := d.replies + [r]) }

  function Plainly(status: int, reason: string, alive: bool): Reply {
    Reply(Pending(status, reason, "", "text/plain; charset=utf-8"), alive)
  }

  // The response for a handler's answer or a completion: its own body, and its other fields where they are
  // filled in.
  function Answering(r: HandlerResult, alive: bool): Reply {
    Reply(Pending(if r.statusCode < 100 || r.statusCode > 599 then 200 else r.statusCode,
                  if r.reasonPhrase == "" then "OK" else r.reasonPhrase,
                  r.body,
                  if r.contentType == "" then "text/plain; charset=utf-8" else r.contentType),
          alive)
  }

  // What a decision of the parser, and the handler's answer to the request if there is one, add.
  ghost function Decide(d: Ledger, o: Outcome, timedOut: bool, answer: Option<HandlerResult>): Ledger {
    match o.code
    case Again =>
      if d.waiting && timedOut then Add(d, Plainly(408, "Request Timeout", false)) else d.(waiting := true)
    case Invalid =>
      if o.parser.state.ReqBodyFailed? && o.parser.tooLarge then
        Add(d.(waiting := false), Plainly(413, "Payload Too Large", false))
      else Add(d.(waiting := false), Plainly(400, "Bad Request", false))
    case Ok =>
      var alive := d.enabled && Persistent(o.parser.version, o.parser.headers);
      var d1 := d.(waiting := false, tail := o.rest);
      match answer
      case None => Add(d1, Plainly(200, "OK", alive))
      case Some(r) =>
        if r.async then d1.(awaiting := Some(alive)) else Add(d1, Answering(r, alive && !r.closeConnection))
  }

  // A completion for the request that waits.
  function Complete(d: Ledger, r: HandlerResult): Ledger {
    match d.awaiting
    case None => d
    case Some(alive) => Add(d, Answering(r, alive)).(awaiting := None)
  }

  // Bytes came in.
  ghost function Arrive(d: Ledger, data: string, timedOut: bool, answer: Option<HandlerResult>): Ledger {
    Decide(d.(tail := d.tail + data), Parse(FRESH, d.tail + data), timedOut, answer)
  }

  ghost function Note(d: Ledger, s: RunState, step: Step): Ledger {
    match step
    case Active(DoRead(Bytes(data), timedOut, answer), _) =>
      if data == "" then d else Arrive(d, data, timedOut, answer)
    case Completion(r) => if s.conn.link.state == Connected then Complete(d, r) else d
    case _ => d
  }

  // The ledger when i steps have been taken.
  ghost function Due(states: seq<RunState>, steps: seq<Step>, ka: bool, i: nat): Ledger
    requires i <= |steps| <= |states|
  {
    if i == 0 then NothingDue(ka) else Note(Due(states, steps, ka, i - 1), states[i - 1], steps[i - 1])
  }

  // ------------------------------------------------------------------ the connection keeps to it

  ghost predicate Follows(c: Conn, d: Ledger) {
    && c.outLog.replies == d.replies && c.config.keepAliveEnabled == d.enabled
    && (c.output.asyncPending <==> d.awaiting.Some?)
    && (c.output.asyncPending ==> c.output.keepAlive == d.awaiting.value && c.output.pending == OK_PENDING)
    && (!c.output.asyncPending && !c.link.writeEnabled ==> !c.output.keepAlive && c.output.pending == OK_PENDING)
    && c.input.parseWaiting == d.waiting
    && (if c.inLog.failed then c.link.writeEnabled && !c.output.asyncPending && !c.output.keepAlive
        else c.inLog.tail == d.tail)
  }

  lemma TakenAnswers(r: HandlerResult, alive: bool)
    ensures Reply(Taken(OK_PENDING, r), alive) == Answering(r, alive)
  {
  }

  lemma DecisionFollows(c: Conn, d: Ledger, o: Outcome, timedOut: bool, answer: Option<HandlerResult>)
    requires Follows(c, d) && !c.link.writeEnabled && !c.output.asyncPending && c.input.readBuf == o.rest
    ensures Follows(Decided(c, o, timedOut, answer), Decide(d, o, timedOut, answer))
  {
    hide ReplyBytes, AsRequest;
    match o.code
    case Ok => AnswerFollows(c, d, o, timedOut, answer);
    case _ => NoRequestFollows(c, d, o, timedOut, answer);
  }

  lemma NoRequestFollows(c: Conn, d: Ledger, o: Outcome, timedOut: bool, answer: Option<HandlerResult>)
    requires Follows(c, d) && !c.link.writeEnabled && !c.output.asyncPending && o.code != Ok
    ensures Follows(Decided(c, o, timedOut, answer), Decide(d, o, timedOut, answer))
  {
    hide ReplyBytes;
  }

  lemma AnswerFollows(c: Conn, d: Ledger, o: Outcome, timedOut: bool, answer: Option<HandlerResult>)
    requires Follows(c, d) && !c.link.writeEnabled && !c.output.asyncPending
    requires c.input.readBuf == o.rest && o.code == Ok
    ensures Follows(Decided(c, o, timedOut, answer), Decide(d, o, timedOut, answer))
  {
    hide ReplyBytes, ShouldKeepAlive, AsRequest, Taken, Persistent, Answering;
    ShouldKeepAliveMeans(o.parser.version, o.parser.headers);
    if answer.Some? {
      var alive := d.enabled && Persistent(o.parser.version, o.parser.headers) && !answer.value.closeConnection;
      TakenAnswers(answer.value, alive);
    }
  }

  lemma ReadFollows(c: Conn, d: Ledger, data: string, timedOut: bool, answer: Option<HandlerResult>)
    requires Follows(c, d) && InInv(c) && !c.link.writeEnabled && !c.output.asyncPending && data != ""
    ensures Follows(HandleRead(c, Bytes(data), timedOut, answer), Arrive(d, data, timedOut, answer))
  {
    hide ReplyBytes, Parse, Decided, Decide, Print, WellFormed, PrintAll;
    var (o, next) := ParseRequest(c.input.inFlight, c.input.readBuf + data);
    ParsesWholeTail(c.input, c.inLog.tail, data);
    var c1 := c.(input := Input(o.rest, next, c.input.parseWaiting),
                 inLog := c.inLog.(received := c.inLog.received + data, tail := c.inLog.tail + data));
    DecisionFollows(c1, d.(tail := d.tail + data), o, timedOut, answer);
    assert HandleRead(c, Bytes(data), timedOut, answer) == Decided(c1, o, timedOut, answer);
  }

  lemma WriteFollows(c: Conn, d: Ledger, result: WriteResult)
    requires Follows(c, d) && c.link.writeEnabled && !c.output.asyncPending && c.link.hasChannel
    requires result.Wrote? ==> result.count <= |Offered(c.output)|
    ensures Follows(HandleWrite(c, result), d)
  {
    hide ReplyBytes;
  }

  lemma CompletionFollows(c: Conn, d: Ledger, r: HandlerResult)
    requires Follows(c, d) && c.output.asyncPending && (c.link.state == Connected ==> c.link.hasChannel)
    ensures Follows(SendAsync(c, r), if c.link.state == Connected then Complete(d, r) else d)
  {
    hide ReplyBytes, Taken, Answering;
    if d.awaiting.Some? {
      TakenAnswers(r, d.awaiting.value);
    }
  }

  lemma StepFollows(s: RunState, d: Ledger, step: Step)
    requires Follows(s.conn, d) && StreamInv(s) && LinkInv(s) && InInv(s.conn) && Enabled(s, step)
    requires ClientWaits(s, step) && CompletionExpected(s, step)
    ensures Follows(Do(s, step).conn, Note(d, s, step))
  {
    hide ReplyBytes, Flat, HandleRead, HandleWrite, SendAsync, Arrive, Complete;
    match step
    case Active(read, write) =>
      if BytesArrive(step) {
        ReadFollows(s.conn, d, read.input.data, read.timedOut, read.answer);
      } else if read.DoRead? {
        NothingArrived(s.conn, d, read.input, read.timedOut, read.answer);
      }
    case WritePart(result) =>
      if s.conn.link.hasChannel {
        WriteFollows(s.conn, d, result);
      }
    case Completion(r) => CompletionFollows(s.conn, d, r);
    case _ =>
  }

  lemma NothingArrived(c: Conn, d: Ledger, input: ReadResult, timedOut: bool, answer: Option<HandlerResult>)
    requires Follows(c, d) && (input.Bytes? ==> input.data == "")
    ensures Follows(HandleRead(c, input, timedOut, answer), d)
  {
    hide ReplyBytes, Parse, Decided;
  }

  lemma StartFollows(ka: bool, maxRequests: nat)
    ensures Follows(Start(ka, maxRequests).conn, NothingDue(ka))
  {
  }

  lemma {:induction false} RunFollows(states: seq<RunState>, steps: seq<Step>, ka: bool, maxRequests: nat, i: nat)
    requires Run(states, steps, ka, maxRequests) && i < |states| && Patient(states, steps)
    ensures Follows(states[i].conn, Due(states, steps, ka, i))
  {
    hide Do, Enabled, StreamInv, LinkInv, InInv, Follows, ClientWaits, CompletionExpected, Start, Note;
    StartFollows(ka, maxRequests);
    if i > 0 {
      RunFollows(states, steps, ka, maxRequests, i - 1);
      RunKeepsStream(states, steps, ka, maxRequests, i - 1);
      RunKeepsCap(states, steps, ka, maxRequests, i - 1);
      RequestsAreTheInput(states, steps, ka, maxRequests, i - 1);
      assert ClientWaits(states[i - 1], steps[i - 1]);
      StepFollows(states[i - 1], Due(states, steps, ka, i - 1), steps[i - 1]);
    }
  }

  // Exact output stream: for a client that waits for each response, under any fragmentation of its requests,
  // any partial writes and any EAGAINs, the bytes written are a prefix of the serialized answers of the
  // handlers, the completions and the error responses, in order, and all of them when nothing is owed;
  // and there is one for every request handled and every error, save an outstanding asynchronous one.
  lemma ExactOutputStream(states: seq<RunState>, steps: seq<Step>, ka: bool, maxRequests: nat, i: nat)
    requires Run(states, steps, ka, maxRequests) && i < |states| && Patient(states, steps)
    ensures var c, d := states[i].conn, Due(states, steps, ka, i);
            && c.outLog.sent <= Flat(d.replies)
            && (!c.link.writeEnabled || c.outLog.finished ==> c.outLog.sent == Flat(d.replies))
            && |d.replies| + (if d.awaiting.Some? then 1 else 0) == |c.inLog.handled| + c.outLog.errors
  {
    hide ReplyBytes, Flat, Due;
    RunKeepsStream(states, steps, ka, maxRequests, i);
    RunFollows(states, steps, ka, maxRequests, i);
    var c := states[i].conn;
    assert Flat(c.outLog.replies) == c.outLog.sent + (c.output.writeBuf + Unserialized(c));
  }
}
