/** Runs of one connection: the batches of its loop, the accepting thread's idle close, and
    completions posted by other threads, in any order. */
module ConnectionRuns {
  import opened Text
  import opened BufferModule
  import opened HttpSyntax
  import opened RoundTrip
  import opened ConnStates
  import opened Connection

  // Where the loop stands with this connection's slot.  A dispatch reports a slot at most once,
  // and run() calls processTaskQ after every dispatch.
  datatype Turn =
    | Unreported
    | WriteDue      // inside active(): the write callback comes next
    | Reported

  datatype RunState = RunState(conn: Conn, turn: Turn)

  datatype ReadEvent = NoRead | DoRead(input: ReadResult, timedOut: bool, answer: Option<HandlerResult>)

  datatype Step =
    | Active(read: ReadEvent, write: bool)   // poll reported the slot: the read part of active()
    | WritePart(result: WriteResult)         // its write part
    | ErrorEvent
    | EndOfBatch                             // run() calls processTaskQ
    | NestedDelete                           // a nested processTaskQ reached a queued DELETE
    | IdleClose
    | Completion(content: HandlerResult)      // a posted sendAsyncResponse

  function Start(keepAliveEnabled: bool, maxRequests: nat): RunState {
    RunState(Opened(keepAliveEnabled, maxRequests), Unreported)
  }

  predicate Enabled(s: RunState, step: Step) {
    match step
    case Active(read, write) => s.turn.Unreported? && s.conn.link.hasChannel && (write ==> s.conn.link.writeEnabled)
    case WritePart(result) =>
      s.turn.WriteDue? && (s.conn.link.hasChannel && result.Wrote? ==> result.count <= |Offered(s.conn.output)|)
    case ErrorEvent => s.turn.Unreported? && s.conn.link.hasChannel
    case EndOfBatch => !s.turn.WriteDue?
    case NestedDelete => s.conn.link.deleteQueued
    case IdleClose => s.conn.config.keepAliveEnabled && s.conn.link.state == Connected
    case Completion(_) => true
  }

  function Do(s: RunState, step: Step): RunState
    requires Enabled(s, step)
  {
    match step
    case Active(read, write) =>
      var c := match read
               case NoRead => s.conn
               case DoRead(input, timedOut, answer) => HandleRead(s.conn, input, timedOut, answer);
      RunState(c, if write then WriteDue else Reported)
    case WritePart(result) =>
      RunState(if s.conn.link.hasChannel then HandleWrite(s.conn, result) else s.conn, Reported)
    case ErrorEvent => RunState(Destroyed(s.conn), Reported)
    case EndOfBatch => RunState(if s.conn.link.deleteQueued then Destroyed(s.conn) else s.conn, Unreported)
    case NestedDelete => s.(conn := Destroyed(s.conn))
    case IdleClose => s.(conn := HandleClose(s.conn))
    case Completion(r) => s.(conn := SendAsync(s.conn, r))
  }

  ghost predicate Run(states: seq<RunState>, steps: seq<Step>, keepAliveEnabled: bool, maxRequests: nat) {
    && |states| == |steps| + 1 && states[0] == Start(keepAliveEnabled, maxRequests)
    && forall i | 0 <= i < |steps| :: Enabled(states[i], steps[i]) && states[i + 1] == Do(states[i], steps[i])
  }

  predicate BytesArrive(step: Step) {
    step.Active? && step.read.DoRead? && step.read.input.Bytes? && step.read.input.data != ""
  }

  // The client sends nothing while a response is owed to it.
  predicate ClientWaits(s: RunState, step: Step) {
    BytesArrive(step) ==> !s.conn.link.writeEnabled && !s.conn.output.asyncPending
  }

  // A completion answers a request that waits for one.  For a client that waits this need not be asked for:
  // see AsyncReplies.
  predicate CompletionExpected(s: RunState, step: Step) {
    step.Completion? ==> s.conn.output.asyncPending
  }

  // A run with a client that waits for each response.
  ghost predicate Patient(states: seq<RunState>, steps: seq<Step>) {
    |states| >= |steps|
    && forall k | 0 <= k < |steps| :: ClientWaits(states[k], steps[k]) && CompletionExpected(states[k], steps[k])
  }

  // ------------------------------------------------------------------ closing and the keep-alive cap

  ghost predicate LinkInv(s: RunState) {
    var k := s.conn.link;
    && (k.state == Connected || k.state == Disconnecting || k.state == Disconnected)
    && (k.state == Connected ==> k.hasChannel)
    && (k.state == Disconnecting ==> k.deleteQueued)
    && (k.state == Disconnected ==> !k.hasChannel)
  }

  ghost predicate CapInv(s: RunState, maxRequests: nat) {
    var c := s.conn;
    && LinkInv(s) && c.config.maxRequests == Limit(maxRequests)
    && (if c.outLog.finished then
          c.outLog.drains <= c.config.maxRequests
          && (!c.link.hasChannel || (c.link.deleteQueued && s.turn.Reported?))
        else c.outLog.drains == c.output.served < c.config.maxRequests)
  }

  lemma DestroyedKeepsCap(s: RunState, maxRequests: nat, turn: Turn)
    requires CapInv(s, maxRequests)
    ensures CapInv(RunState(Destroyed(s.conn), turn), maxRequests)
  {
  }

  lemma WriteKeepsCap(s: RunState, result: WriteResult, maxRequests: nat)
    requires CapInv(s, maxRequests) && Enabled(s, WritePart(result)) && s.conn.link.hasChannel
    ensures CapInv(RunState(HandleWrite(s.conn, result), Reported), maxRequests)
  {
    hide ReplyBytes;
  }

  // What a read leaves alone.
  predicate OutputKept(c: Conn, c': Conn) {
    && c'.config == c.config && c'.output.served == c.output.served
    && c'.outLog.drains == c.outLog.drains && c'.outLog.sent == c.outLog.sent
    && c'.outLog.finished == c.outLog.finished
    && (c'.link == CloseLink(c.link) || c'.link == c.link || c'.link == WriteOn(c.link))
  }

  lemma DecisionKeepsOutput(c: Conn, o: Outcome, timedOut: bool, answer: Option<HandlerResult>)
    ensures OutputKept(c, Decided(c, o, timedOut, answer))
  {
    hide ReplyBytes, ShouldKeepAlive, AsRequest, Taken;
  }

  lemma ReadKeepsOutput(c: Conn, input: ReadResult, timedOut: bool, answer: Option<HandlerResult>)
    ensures OutputKept(c, HandleRead(c, input, timedOut, answer))
  {
    hide ReplyBytes, Parse, Decided;
    if input.Bytes? && input.data != "" {
      var (o, next) := ParseRequest(c.input.inFlight, c.input.readBuf + input.data);
      var c1 := c.(input := Input(o.rest, next, c.input.parseWaiting),
                   inLog := c.inLog.(received := c.inLog.received + input.data, tail := c.inLog.tail + input.data));
      DecisionKeepsOutput(c1, o, timedOut, answer);
      assert HandleRead(c, input, timedOut, answer) == Decided(c1, o, timedOut, answer);
    }
  }

  lemma StepKeepsCap(s: RunState, step: Step, maxRequests: nat)
    requires CapInv(s, maxRequests) && Enabled(s, step)
    ensures CapInv(Do(s, step), maxRequests)
    ensures s.conn.outLog.finished ==>
              && Do(s, step).conn.outLog.finished && Do(s, step).conn.outLog.sent == s.conn.outLog.sent
              && Do(s, step).conn.outLog.drains == s.conn.outLog.drains
  {
    hide ReplyBytes, HandleRead, HandleWrite;
    match step
    case Active(read, write) =>
      if read.DoRead? {
        ReadKeepsOutput(s.conn, read.input, read.timedOut, read.answer);
      }
    case WritePart(result) =>
      if s.conn.link.hasChannel {
        WriteKeepsCap(s, result, maxRequests);
      }
    case ErrorEvent => DestroyedKeepsCap(s, maxRequests, Reported);
    case EndOfBatch => DestroyedKeepsCap(s, maxRequests, Unreported);
    case NestedDelete => DestroyedKeepsCap(s, maxRequests, s.turn);
    case _ =>
  }

  lemma {:induction false} RunKeepsCap(states: seq<RunState>, steps: seq<Step>, ka: bool, maxRequests: nat, i: nat)
    requires Run(states, steps, ka, maxRequests) && i < |states|
    ensures CapInv(states[i], maxRequests)
  {
    if i > 0 {
      hide Do, Enabled, CapInv;
      RunKeepsCap(states, steps, ka, maxRequests, i - 1);
      StepKeepsCap(states[i - 1], steps[i - 1], maxRequests);
    }
  }

  // Keep-alive cap: over any run, however the client behaves, the write buffer runs empty at most
  // maxKeepAliveRequests_ times; once it does so for the last time (a response that was not
  // keep-alive, or the cap), no further byte is ever written.
  lemma {:induction false} KeepAliveCap(states: seq<RunState>, steps: seq<Step>, ka: bool, maxRequests: nat,
                                       i: nat, j: nat)
    requires Run(states, steps, ka, maxRequests) && i <= j < |states|
    ensures states[j].conn.outLog.drains <= if maxRequests == 0 then 1 else maxRequests
    ensures states[i].conn.outLog.finished ==>
              states[j].conn.outLog.finished && states[j].conn.outLog.sent == states[i].conn.outLog.sent
  {
    hide Do, Enabled;
    RunKeepsCap(states, steps, ka, maxRequests, j);
    if i < j {
      KeepAliveCap(states, steps, ka, maxRequests, i, j - 1);
      RunKeepsCap(states, steps, ka, maxRequests, j - 1);
      StepKeepsCap(states[j - 1], steps[j - 1], maxRequests);
    }
  }

  // ------------------------------------------------------------------ the output stream

  function Flat(replies: seq<Reply>): string {
    if replies == [] then "" else Flat(replies[..|replies| - 1]) + ReplyBytes(replies[|replies| - 1])
  }

  lemma FlatAppend(replies: seq<Reply>, r: Reply)
    ensures Flat(replies + [r]) == Flat(replies) + ReplyBytes(r)
  {
    assert (replies + [r])[..|replies|] == replies;
  }

  // The response that is decided but not yet in the write buffer.
  function Unserialized(c: Conn): string {
    if c.link.writeEnabled && c.output.writeBuf == "" && !c.outLog.finished then ReplyBytes(PendingReply(c.output))
    else ""
  }

  ghost predicate StreamInv(s: RunState) {
    var c := s.conn;
    && c.outLog.sent + c.output.writeBuf + Unserialized(c) == Flat(c.outLog.replies)
    && (!c.link.writeEnabled ==> c.output.writeBuf == "" && !c.outLog.finished)
    && (c.outLog.finished ==> c.output.writeBuf == "")
    && (c.output.asyncPending ==> !c.link.writeEnabled)
    && (s.turn.WriteDue? ==> c.link.writeEnabled && (c.link.hasChannel ==> !c.outLog.finished))
    && |c.outLog.replies| + (if c.output.asyncPending then 1 else 0) == |c.inLog.handled| + c.outLog.errors
  }

  lemma ReplyIsNotEmpty(r: Reply)
    ensures ReplyBytes(r) != ""
  {
    assert |ReplyHead(r)| >= |CRLF|;
  }

  lemma LinkKeepsStream(s: RunState, link: Link, turn: Turn)
    requires StreamInv(s)
    requires link.writeEnabled == s.conn.link.writeEnabled && (link.hasChannel ==> s.conn.link.hasChannel)
    requires turn == s.turn || !turn.WriteDue?
    ensures StreamInv(RunState(s.conn.(link := link), turn))
  {
  }

  // A response is decided while none is owed.
  lemma OweKeepsStream(c: Conn, turn: Turn, out: Output, r: Reply, inLog: InLog)
    requires StreamInv(RunState(c, turn)) && !c.link.writeEnabled && !turn.WriteDue?
    requires out.writeBuf == "" && !out.asyncPending && r == PendingReply(out)
    requires |inLog.handled| + c.outLog.errors == |c.outLog.replies| + 1
    ensures forall input: Input ::
      StreamInv(RunState(c.(link := WriteOn(c.link), input := input, output := out, inLog := inLog,
                            outLog := Owe(c.outLog, r)), turn))
  {
    hide ReplyBytes;
    FlatAppend(c.outLog.replies, r);
  }

  lemma ErrorKeepsStream(c: Conn, turn: Turn, status: int, reason: string)
    requires StreamInv(RunState(c, turn)) && !c.link.writeEnabled && !c.output.asyncPending
    ensures StreamInv(RunState(QueueSimple(c, status, reason), turn))
    ensures QueueSimple(c, status, reason).outLog.finished == c.outLog.finished
  {
    hide ReplyBytes;
    var r := ErrorReply(status, reason, c.output.keepAlive);
    ReplyIsNotEmpty(r);
    FlatAppend(c.outLog.replies, r);
    assert "" + ReplyBytes(r) == ReplyBytes(r);
  }

  lemma AnswerKeepsStream(c: Conn, p: Parser, turn: Turn, answer: Option<HandlerResult>)
    requires StreamInv(RunState(c, turn)) && !c.link.writeEnabled && !c.output.asyncPending && !turn.WriteDue?
    ensures StreamInv(RunState(Answered(Accepted(c, p), answer), turn))
    ensures Answered(Accepted(c, p), answer).outLog.finished == c.outLog.finished
  {
    hide ReplyBytes, ShouldKeepAlive;
    var c1 := Accepted(c, p);
    var c2 := Answered(c1, answer);
    if answer.Some? && answer.value.async {
    } else {
      OweKeepsStream(c, turn, c2.output, PendingReply(c2.output), c1.inLog);
      assert c2 == c.(link := WriteOn(c.link), input := c2.input, output := c2.output, inLog := c1.inLog,
                      outLog := Owe(c.outLog, PendingReply(c2.output)));
    }
  }

  lemma ReadKeepsStream(c: Conn, turn: Turn, input: ReadResult, timedOut: bool, answer: Option<HandlerResult>)
    requires StreamInv(RunState(c, turn)) && !turn.WriteDue?
    requires input.Bytes? && input.data != "" ==> !c.link.writeEnabled && !c.output.asyncPending
    ensures StreamInv(RunState(HandleRead(c, input, timedOut, answer), turn))
    ensures c.link.writeEnabled ==> HandleRead(c, input, timedOut, answer).link.writeEnabled
    ensures HandleRead(c, input, timedOut, answer).outLog.finished == c.outLog.finished
  {
    hide ReplyBytes, Parse, Malformed, Accepted, Answered, QueueSimple;
    if input.Bytes? && input.data != "" {
      var buf := c.input.readBuf + input.data;
      var (o, next) := ParseRequest(c.input.inFlight, buf);
      var c1 := c.(input := Input(o.rest, next, c.input.parseWaiting),
                   inLog := c.inLog.(received := c.inLog.received + input.data, tail := c.inLog.tail + input.data));
      DecisionKeepsStream(c1, turn, o, timedOut, answer);
      assert HandleRead(c, input, timedOut, answer) == Decided(c1, o, timedOut, answer);
    } else {
      LinkKeepsStream(RunState(c, turn), CloseLink(c.link), turn);
    }
  }

  lemma DecisionKeepsStream(c: Conn, turn: Turn, o: Outcome, timedOut: bool, answer: Option<HandlerResult>)
    requires StreamInv(RunState(c, turn)) && !c.link.writeEnabled && !c.output.asyncPending && !turn.WriteDue?
    ensures StreamInv(RunState(Decided(c, o, timedOut, answer), turn))
    ensures Decided(c, o, timedOut, answer).outLog.finished == c.outLog.finished
  {
    hide ReplyBytes, QueueSimple, Answered, Accepted, Flat;
    var c1 := c.(input := c.input.(parseWaiting := false));
    match o.code
    case Again =>
      ErrorKeepsStream(c, turn, 408, "Request Timeout");
    case Invalid =>
      var c2 := c1.(input := c1.input.(inFlight := None), output := c1.output.(keepAlive := false),
                    inLog := c1.inLog.(failed := true));
      ErrorKeepsStream(c2, turn, 413, "Payload Too Large");
      ErrorKeepsStream(c2, turn, 400, "Bad Request");
    case Ok => AnswerKeepsStream(c1, o.parser, turn, answer);
  }

  lemma WriteKeepsStream(s: RunState, result: WriteResult)
    requires StreamInv(s) && LinkInv(s) && Enabled(s, WritePart(result)) && s.conn.link.hasChannel
    ensures StreamInv(RunState(HandleWrite(s.conn, result), Reported))
  {
    hide ReplyBytes, Flat;
    var c := s.conn;
    ReplyIsNotEmpty(PendingReply(c.output));
    var c1 := c.(output := c.output.(writeBuf := Offered(c.output)));
    assert c1.outLog.sent + c1.output.writeBuf == Flat(c.outLog.replies);
    SentKeepsStream(c1, result);
    hide Sent;
    AfterWriteKeepsStream(Sent(c1, result));
  }

  // The response is in the buffer: what was sent and what is left make up what is owed.
  ghost predicate Serialized(c: Conn) {
    && c.outLog.sent + c.output.writeBuf == Flat(c.outLog.replies)
    && c.link.hasChannel && c.link.writeEnabled && !c.outLog.finished && !c.output.asyncPending
    && |c.outLog.replies| == |c.inLog.handled| + c.outLog.errors
  }

  lemma SentKeepsStream(c: Conn, result: WriteResult)
    requires Serialized(c) && (result.Wrote? ==> result.count <= |c.output.writeBuf|)
    ensures Serialized(Sent(c, result)) && Sent(c, result).link == c.link
    ensures result.WriteFailed? ==> Sent(c, result) == c
  {
    hide Flat;
    if result.Wrote? {
      assert c.output.writeBuf == c.output.writeBuf[..result.count] + c.output.writeBuf[result.count..];
    }
  }

  lemma AfterWriteKeepsStream(c: Conn)
    requires Serialized(c)
    ensures c.output.writeBuf != "" ==> StreamInv(RunState(HandleClose(c), Reported))
    ensures StreamInv(RunState(AfterWrite(c), Reported))
  {
    hide Flat, ReplyBytes;
    var sent, left := c.outLog.sent, c.output.writeBuf;
    assert sent + left + "" == sent + left;
    var c' := AfterWrite(c);
    assert c'.outLog.sent == sent && c'.output.writeBuf == left && Unserialized(c') == "";
  }

  lemma CompletionKeepsStream(s: RunState, r: HandlerResult)
    requires StreamInv(s) && LinkInv(s) && s.conn.output.asyncPending
    ensures StreamInv(s.(conn := SendAsync(s.conn, r)))
  {
    hide ReplyBytes;
    var c := s.conn;
    if c.link.state == Connected {
      var c2 := SendAsync(c, r);
      OweKeepsStream(c, s.turn, c2.output, PendingReply(c2.output), c.inLog);
      assert c2 == c.(link := WriteOn(c.link), input := c.input, output := c2.output, inLog := c.inLog,
                      outLog := Owe(c.outLog, PendingReply(c2.output)));
    }
  }

  lemma StepKeepsStream(s: RunState, step: Step, maxRequests: nat)
    requires StreamInv(s) && CapInv(s, maxRequests) && Enabled(s, step)
    requires ClientWaits(s, step) && CompletionExpected(s, step)
    ensures StreamInv(Do(s, step))
  {
    hide ReplyBytes, HandleRead, HandleWrite, SendAsync, Flat;
    match step
    case Active(read, write) =>
      if read.DoRead? {
        ReadKeepsStream(s.conn, s.turn, read.input, read.timedOut, read.answer);
      }
    case WritePart(result) =>
      if s.conn.link.hasChannel {
        WriteKeepsStream(s, result);
      }
    case ErrorEvent => LinkKeepsStream(s, Destroyed(s.conn).link, Reported);
    case EndOfBatch => LinkKeepsStream(s, Destroyed(s.conn).link, Unreported);
    case NestedDelete => LinkKeepsStream(s, Destroyed(s.conn).link, s.turn);
    case IdleClose => LinkKeepsStream(s, CloseLink(s.conn.link), s.turn);
    case Completion(r) => CompletionKeepsStream(s, r);
  }

  lemma StartKeepsStream(ka: bool, maxRequests: nat)
    ensures StreamInv(Start(ka, maxRequests))
  {
  }

  // For a client that waits: what was written, what is in the buffer and what is still to be put there
  // make up the responses decided on.
  lemma {:induction false} RunKeepsStream(states: seq<RunState>, steps: seq<Step>, ka: bool, maxRequests: nat, i: nat)
    requires Run(states, steps, ka, maxRequests) && i < |states| && Patient(states, steps)
    ensures StreamInv(states[i])
  {
    hide Do, Enabled, CapInv, StreamInv, ClientWaits, CompletionExpected, Start;
    StartKeepsStream(ka, maxRequests);
    if i > 0 {
      RunKeepsStream(states, steps, ka, maxRequests, i - 1);
      RunKeepsCap(states, steps, ka, maxRequests, i - 1);
      assert ClientWaits(states[i - 1], steps[i - 1]);
      StepKeepsStream(states[i - 1], steps[i - 1], maxRequests);
    }
  }
}
