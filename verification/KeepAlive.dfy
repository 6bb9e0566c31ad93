/** When a connection ends: which drain of the write buffer is its last, and what the end of the input does. */
module KeepAlive {
  import opened Text
  import opened BufferModule
  import opened HttpSyntax
  import opened Framing
  import opened RoundTrip
  import opened ConnStates
  import opened Connection
  import opened ConnectionRuns
  import opened ConnectionStreams
  import opened ConnectionReplies

  // The responses written out so far; the next one, if any, is being written.
  ghost predicate DrainInv(c: Conn) {
    var n, replies := c.outLog.drains, c.outLog.replies;
    if c.outLog.finished then
      && n == |replies| && n > 0 && (!replies[n - 1].keepAlive || n == c.config.maxRequests)
      && (forall k | 0 <= k < n - 1 :: replies[k].keepAlive)
    else
      && n + (if c.link.writeEnabled then 1 else 0) == |replies|
      && (forall k | 0 <= k < n :: replies[k].keepAlive)
      && (c.link.writeEnabled ==> replies[n].keepAlive == c.output.keepAlive)
  }

  lemma DecisionKeepsDrains(c: Conn, o: Outcome, timedOut: bool, answer: Option<HandlerResult>)
    requires DrainInv(c) && !c.link.writeEnabled && !c.outLog.finished
    ensures DrainInv(Decided(c, o, timedOut, answer))
  {
    hide ReplyBytes, ShouldKeepAlive, AsRequest, Taken;
  }

  lemma ReadKeepsDrains(c: Conn, input: ReadResult, timedOut: bool, answer: Option<HandlerResult>)
    requires DrainInv(c)
    requires input.Bytes? && input.data != "" ==> !c.link.writeEnabled && !c.outLog.finished
    ensures DrainInv(HandleRead(c, input, timedOut, answer))
  {
    hide ReplyBytes, Parse, Decided;
    if input.Bytes? && input.data != "" {
      var (o, next) := ParseRequest(c.input.inFlight, c.input.readBuf + input.data);
      var c1 := c.(input := Input(o.rest, next, c.input.parseWaiting),
                   inLog := c.inLog.(received := c.inLog.received + input.data, tail := c.inLog.tail + input.data));
      DecisionKeepsDrains(c1, o, timedOut, answer);
      assert HandleRead(c, input, timedOut, answer) == Decided(c1, o, timedOut, answer);
    }
  }

  lemma WriteKeepsDrains(s: RunState, result: WriteResult, maxRequests: nat)
    requires DrainInv(s.conn) && StreamInv(s) && CapInv(s, maxRequests) && Enabled(s, WritePart(result))
    requires s.conn.link.hasChannel
    ensures DrainInv(HandleWrite(s.conn, result))
  {
    hide ReplyBytes, Flat;
  }

  lemma StepKeepsDrains(s: RunState, step: Step, maxRequests: nat)
    requires DrainInv(s.conn) && StreamInv(s) && CapInv(s, maxRequests) && Enabled(s, step)
    requires ClientWaits(s, step) && CompletionExpected(s, step)
    ensures DrainInv(Do(s, step).conn)
  {
    assert !s.conn.link.writeEnabled ==> !s.conn.outLog.finished;
    assert s.conn.output.asyncPending ==> !s.conn.link.writeEnabled;
    hide StreamInv, CapInv, ReplyBytes, HandleRead, HandleWrite;
    match step
    case Active(read, write) =>
      if read.DoRead? {
        ReadKeepsDrains(s.conn, read.input, read.timedOut, read.answer);
      }
    case WritePart(result) =>
      if s.conn.link.hasChannel {
        WriteKeepsDrains(s, result, maxRequests);
      }
    case Completion(r) => CompletionKeepsDrains(s.conn, r);
    case _ =>
  }

  lemma CompletionKeepsDrains(c: Conn, r: HandlerResult)
    requires DrainInv(c) && !c.link.writeEnabled && !c.outLog.finished
    requires c.link.state == Connected ==> c.link.hasChannel
    ensures DrainInv(SendAsync(c, r))
  {
    hide Taken;
  }

  lemma {:induction false} RunKeepsDrains(states: seq<RunState>, steps: seq<Step>, ka: bool, maxRequests: nat, i: nat)
    requires Run(states, steps, ka, maxRequests) && i < |states| && Patient(states, steps)
    ensures DrainInv(states[i].conn)
  {
    hide Do, Enabled, StreamInv, CapInv, ClientWaits, CompletionExpected, DrainInv;
    if i == 0 {
      StartKeepsDrains(ka, maxRequests);
    } else {
      RunKeepsDrains(states, steps, ka, maxRequests, i - 1);
      RunKeepsStream(states, steps, ka, maxRequests, i - 1);
      RunKeepsCap(states, steps, ka, maxRequests, i - 1);
      assert ClientWaits(states[i - 1], steps[i - 1]);
      StepKeepsDrains(states[i - 1], steps[i - 1], maxRequests);
    }
  }

  lemma StartKeepsDrains(ka: bool, maxRequests: nat)
    ensures DrainInv(Start(ka, maxRequests).conn)
  {
  }

  // For a client that waits: a connection has sent its last response exactly if that was not to keep it alive,
  // or was the last one allowed.
  lemma LastResponse(states: seq<RunState>, steps: seq<Step>, ka: bool, maxRequests: nat, i: nat)
    requires Run(states, steps, ka, maxRequests) && i < |states| && Patient(states, steps)
    ensures var c, d := states[i].conn, Due(states, steps, ka, i);
      var n := c.outLog.drains;
      && n <= |d.replies|
      && (c.outLog.finished <==>
            n > 0 && (!d.replies[n - 1].keepAlive || n == if maxRequests == 0 then 1 else maxRequests))
      && forall k | 0 <= k < n - 1 :: d.replies[k].keepAlive
  {
    hide StreamInv, Do, Enabled;
    RunKeepsDrains(states, steps, ka, maxRequests, i);
    RunKeepsCap(states, steps, ka, maxRequests, i);
    RunFollows(states, steps, ka, maxRequests, i);
  }

  // ------------------------------------------------------------------ closing

  // What closing does to the link: from a live state it moves on, once, and asks for one DELETE if there is a
  // Channel to delete.
  lemma ClosingMeans(k: Link)
    ensures var k' := CloseLink(k);
      && k'.hasChannel == k.hasChannel && k'.writeEnabled == k.writeEnabled
      && (if k.state == Disconnecting || k.state == Disconnected then k' == k
          else if k.hasChannel then k'.state == Disconnecting && k'.deleteQueued
          else k'.state == Disconnected && k'.deleteQueued == k.deleteQueued)
      && CloseLink(k') == k'
  {
  }

  // What the loop and the accepting thread may do to a connection at any moment it allows, and what that is.
  lemma OutsideSteps(s: RunState)
    ensures s.turn.Unreported? && s.conn.link.hasChannel ==>
              && Enabled(s, ErrorEvent) && Ended(s.conn, Do(s, ErrorEvent).conn)
              && forall read, write :: Enabled(s, Active(read, write)) <==> (write ==> s.conn.link.writeEnabled)
    ensures s.conn.link.deleteQueued ==> Enabled(s, NestedDelete) && Ended(s.conn, Do(s, NestedDelete).conn)
    ensures !s.turn.WriteDue? ==>
              && Enabled(s, EndOfBatch) && Do(s, EndOfBatch).turn == Unreported
              && (if s.conn.link.deleteQueued then Ended(s.conn, Do(s, EndOfBatch).conn)
                  else Do(s, EndOfBatch).conn == s.conn)
    ensures s.conn.config.keepAliveEnabled && s.conn.link.state == Connected ==>
              && Enabled(s, IdleClose) && var k := Do(s, IdleClose).conn.link;
                 k.state != Connected && (k.hasChannel ==> k.deleteQueued)
    ensures forall r :: Enabled(s, Completion(r))
  {
  }

  // The Channel is gone, and nothing else has changed.
  predicate Ended(c: Conn, c': Conn) {
    c'.link.state == Disconnected && !c'.link.hasChannel && !c'.link.deleteQueued && c' == c.(link := c'.link)
  }

  // The end of the input, and any error but EAGAIN, closes the connection and does nothing else; EAGAIN does
  // nothing at all.
  lemma EndOfInput(c: Conn, input: ReadResult, timedOut: bool, answer: Option<HandlerResult>)
    requires input.Bytes? ==> input.data == ""
    ensures var c' := HandleRead(c, input, timedOut, answer);
      if input.ReadFailed? && input.again then c' == c
      else c' == c.(link := c'.link) && (c'.link.state == Disconnecting || c'.link.state == Disconnected)
           && (c.link.state == Connected && c.link.hasChannel ==> c'.link.deleteQueued)
  {
  }

  // So does a failed write; the bytes that are left stay unsent.
  lemma FailedWrite(c: Conn, again: bool)
    ensures var c' := HandleWrite(c, WriteFailed(again));
      && c'.outLog.sent == c.outLog.sent && c'.outLog.replies == c.outLog.replies
      && (if again then c'.link == c.link
          else (c'.link.state == Disconnecting || c'.link.state == Disconnected)
               && (c.link.state == Connected && c.link.hasChannel ==> c'.link.deleteQueued))
  {
    ReplyIsNotEmpty(PendingReply(c.output));
    hide ReplyBytes;
  }

  // ------------------------------------------------------------------ what the client reads

  // For a client that waits, once nothing is owed: the bytes written read back as the responses due, one by one
  // and in order, each with its status and the very body of its answer or completion.
  lemma AnswersReadBack(states: seq<RunState>, steps: seq<Step>, ka: bool, maxRequests: nat, i: nat)
    requires Run(states, steps, ka, maxRequests) && i < |states| && Patient(states, steps)
    requires !states[i].conn.link.writeEnabled || states[i].conn.outLog.finished
    requires forall r | r in Due(states, steps, ka, i).replies :: Clean(r) && |r.content.body| <= 1048576
    ensures var d := Due(states, steps, ka, i);
      var ms := Messages(d.replies);
      && ParseMany(|d.replies|, states[i].conn.outLog.sent) == (ReadAll(ms), "")
      && |ms| == |d.replies|
      && forall k | 0 <= k < |ms| ::
           ms[k].body == d.replies[k].content.body && NamesStatus(ms[k].url, d.replies[k].content.status)
  {
    hide Flat, Due, Clean, ParseMany, ReadAll, Messages;
    var d := Due(states, steps, ka, i);
    ExactOutputStream(states, steps, ka, maxRequests, i);
    assert Flat(d.replies) + "" == Flat(d.replies);
    RepliesReadBack(d.replies, "");
    FlatIsPrintAll(d.replies);
    forall k | 0 <= k < |d.replies| ensures NamesStatus(Messages(d.replies)[k].url, d.replies[k].content.status) {
      StatusText(d.replies[k].content.status);
    }
  }

  // The text is the decimal numeral of the status, with no zero in front.
  predicate NamesStatus(text: string, status: int) {
    if status < 0 then text != "" && text[0] == '-' && Digits(text[1..]) && Numeral(text[1..]) == -status
    else Digits(text) && Numeral(text) == status && (text[0] == '0' ==> status == 0)
  }

  lemma StatusText(status: int)
    ensures NamesStatus(IntToString(status), status)
  {
    ToDecimalMeans(if status < 0 then -status else status);
    hide ToDecimal;
    assert status < 0 ==> IntToString(status)[1..] == ToDecimal(-status);
  }
}
