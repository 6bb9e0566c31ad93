/** The connection object: its handlers update their fields, two buffers and the in-flight parser
    in place.  Each computes the function of the same name in Connection. */
module TcpConnectionModule {
  import opened Text
  import opened BufferModule
  import opened HttpSyntax
  import opened HttpRequestModule
  import opened RoundTrip
  import opened ConnStates
  import opened Connection

  class TcpConnection {
    const fd: int
    var haveCloseCallback: bool
    var state: ConnState
    var hasChannel: bool            // channel_ != nullptr
    var writeEnabled: bool          // the write bit of *channel_
    var deleteQueued: bool          // a DELETE for fd_ waits in the loop's queue
    const readBuffer: Buffer
    const writeBuffer: Buffer
    var inFlightRequest: HttpRequest?
    var parseWaiting: bool
    var asyncPending: bool
    const keepAliveEnabled: bool
    var keepAliveRequest: bool
    const maxKeepAliveRequests: nat
    var servedRequests: nat
    var pendingStatusCode: int
    var pendingReasonPhrase: string
    var pendingBody: string
    var pendingContentType: string
    ghost var inLog: InLog
    ghost var outLog: OutLog

    ghost predicate Valid()
      reads readBuffer, writeBuffer, readBuffer.buffer, writeBuffer.buffer
    {
      && readBuffer.Valid() && writeBuffer.Valid()
      && readBuffer != writeBuffer && readBuffer.buffer != writeBuffer.buffer
    }

    ghost function LinkPart(): Link
      reads `state, `hasChannel, `writeEnabled, `deleteQueued
    {
      Link(state, hasChannel, writeEnabled, deleteQueued)
    }

    ghost function InputPart(): Input
      reads `inFlightRequest, `parseWaiting, readBuffer`Contents, inFlightRequest
    {
      Input(readBuffer.Contents, InFlight(inFlightRequest), parseWaiting)
    }

    ghost function PendingPart(): Pending
      reads `pendingStatusCode, `pendingReasonPhrase, `pendingBody, `pendingContentType
    {
      Pending(pendingStatusCode, pendingReasonPhrase, pendingBody, pendingContentType)
    }

    ghost function OutputPart(): Output
      reads `pendingStatusCode, `pendingReasonPhrase, `pendingBody, `pendingContentType
      reads `keepAliveRequest, `asyncPending, `servedRequests, writeBuffer`Contents
    {
      Output(writeBuffer.Contents, PendingPart(), keepAliveRequest, asyncPending, servedRequests)
    }

    ghost function Fields(): Conn
      reads this, readBuffer, writeBuffer, inFlightRequest
    {
      Conn(LinkPart(), InputPart(), OutputPart(), Config(keepAliveEnabled, maxKeepAliveRequests), inLog, outLog)
    }

    constructor (fd: int, keepAliveEnabled: bool, maxRequests: nat)
      ensures Valid() && Fields() == Opened(keepAliveEnabled, maxRequests)
      ensures this.fd == fd && this.keepAliveEnabled == keepAliveEnabled && !haveCloseCallback
    {
      this.fd := fd;
      haveCloseCallback := false;
      state, hasChannel, writeEnabled, deleteQueued := Connected, true, false, false;
      inFlightRequest := null;
      parseWaiting, asyncPending, keepAliveRequest := false, false, false;
      this.keepAliveEnabled := keepAliveEnabled;
      maxKeepAliveRequests := if maxRequests == 0 then 1 else maxRequests;
      servedRequests := 0;
      pendingStatusCode, pendingReasonPhrase, pendingBody, pendingContentType := 200, "OK", "", DEFAULT_TYPE;
      inLog, outLog := InLog("", [], "", false), OutLog([], 0, "", 0, false);
      readBuffer := new Buffer();
      writeBuffer := new Buffer();
    }

    method HandleClose()
      modifies this`state, this`deleteQueued
      ensures LinkPart() == CloseLink(old(LinkPart()))
    {
      if state == Disconnected || state == Disconnecting {
        return;
      }
      state := Disconnecting;
      if hasChannel {
        deleteQueued := true;
      } else {
        state := Disconnected;
      }
    }

    method AppendSimpleResponse(status: int, reason: string, body: string, contentType: string)
      requires Valid()
      modifies writeBuffer, writeBuffer.buffer
      ensures Valid() && (writeBuffer.buffer == old(writeBuffer.buffer) || fresh(writeBuffer.buffer))
      ensures writeBuffer.Contents == old(writeBuffer.Contents)
                                      + ReplyBytes(Reply(Pending(status, reason, body, contentType), keepAliveRequest))
    {
      var line := ("HTTP/1.1 " + IntToString(status) + " " + reason + CRLF)
                  + ("Content-Type: " + contentType + CRLF)
                  + ("Content-Length: " + ToDecimal(|body|) + CRLF)
                  + ("Connection: " + (if keepAliveRequest then "keep-alive" else "close") + CRLF)
                  + ("Server: CPPReactor" + CRLF)
                  + CRLF;
      assert line == ReplyHead(Reply(Pending(status, reason, body, contentType), keepAliveRequest));
      AppendBoth(line, body);
    }

    method AppendBoth(line: string, body: string)
      requires Valid()
      modifies writeBuffer, writeBuffer.buffer
      ensures Valid() && (writeBuffer.buffer == old(writeBuffer.buffer) || fresh(writeBuffer.buffer))
      ensures writeBuffer.Contents == old(writeBuffer.Contents) + (line + body)
    {
      ghost var before := writeBuffer.Contents;
      writeBuffer.Append(line);
      if body != "" {
        writeBuffer.Append(body);
      }
      assert before + line + body == before + (line + body);
    }

    method QueueSimpleResponse(status: int, reason: string)
      requires Valid() && hasChannel
      modifies this`writeEnabled, this`outLog, writeBuffer, writeBuffer.buffer
      ensures Valid() && (writeBuffer.buffer == old(writeBuffer.buffer) || fresh(writeBuffer.buffer))
      ensures LinkPart() == WriteOn(old(LinkPart()))
      ensures writeBuffer.Contents == old(writeBuffer.Contents)
                                      + ReplyBytes(ErrorReply(status, reason, keepAliveRequest))
      ensures outLog == OweError(old(outLog), ErrorReply(status, reason, keepAliveRequest))
    {
      hide ReplyBytes;
      AppendSimpleResponse(status, reason, "", DEFAULT_TYPE);
      if hasChannel {
        writeEnabled := true;
      }
      outLog := OweError(outLog, ErrorReply(status, reason, keepAliveRequest));
    }

    // The tail of handleRead and of sendAsyncResponse: writeEventEnable(true), then MODIFY.
    method RequestWrite()
      requires hasChannel
      modifies this`writeEnabled, this`outLog
      ensures LinkPart() == WriteOn(old(LinkPart()))
      ensures outLog == Owe(old(outLog), PendingReply(OutputPart()))
    {
      writeEnabled := true;
      outLog := Owe(outLog, PendingReply(OutputPart()));
    }

    method TakeResult(r: HandlerResult)
      modifies this`pendingStatusCode, this`pendingReasonPhrase, this`pendingBody, this`pendingContentType
      ensures PendingPart() == Taken(old(PendingPart()), r)
    {
      if 100 <= r.statusCode <= 599 {
        pendingStatusCode := r.statusCode;
      }
      if r.reasonPhrase != "" {
        pendingReasonPhrase := r.reasonPhrase;
      }
      pendingBody := r.body;
      if r.contentType != "" {
        pendingContentType := r.contentType;
      }
    }

    method ResetPending()
      modifies this`pendingStatusCode, this`pendingReasonPhrase, this`pendingBody, this`pendingContentType
      ensures PendingPart() == OK_PENDING
    {
      pendingStatusCode, pendingReasonPhrase, pendingBody, pendingContentType := 200, "OK", "", DEFAULT_TYPE;
    }

    method OnMalformed(tooLarge: bool)
      requires Valid() && hasChannel
      modifies this`inFlightRequest, this`keepAliveRequest, this`inLog, this`writeEnabled, this`outLog
      modifies writeBuffer, writeBuffer.buffer
      ensures Valid() && Fields() == Malformed(old(Fields()), tooLarge)
    {
      hide ReplyBytes, PendingPart, LinkPart;
      GiveUp();
      hide InputPart;
      if tooLarge {
        QueueSimpleResponse(413, "Payload Too Large");
      } else {
        QueueSimpleResponse(400, "Bad Request");
      }
    }

    method GiveUp()
      modifies this`inFlightRequest, this`keepAliveRequest, this`inLog
      ensures InputPart() == old(InputPart()).(inFlight := None) && !keepAliveRequest
      ensures OutputPart() == old(OutputPart()).(keepAlive := false) && inLog == old(inLog).(failed := true)
    {
      inFlightRequest := null;
      keepAliveRequest := false;
      inLog := inLog.(failed := true);
    }

    method OnRequest(request: HttpRequest)
      modifies this`inFlightRequest, this`keepAliveRequest, this`inLog
      modifies this`pendingStatusCode, this`pendingReasonPhrase, this`pendingBody, this`pendingContentType
      ensures Fields() == Accepted(old(Fields()), request.Fields())
    {
      hide ShouldKeepAlive, AsRequest, LinkPart;
      inFlightRequest := null;
      keepAliveRequest := keepAliveEnabled && ShouldKeepAlive(request.version, request.headers);
      inLog := inLog.(handled := inLog.handled + [AsRequest(request.Fields())], tail := readBuffer.Contents);
      ResetPending();
    }

    method OnAnswer(answer: Option<HandlerResult>)
      requires hasChannel
      modifies this`keepAliveRequest, this`asyncPending, this`writeEnabled, this`outLog
      modifies this`pendingStatusCode, this`pendingReasonPhrase, this`pendingBody, this`pendingContentType
      ensures Fields() == Answered(old(Fields()), answer)
    {
      hide InputPart;
      if answer.Some? {
        var result := answer.value;
        if result.async {
          asyncPending := true;
          return;
        }
        TakeResult(result);
        if result.closeConnection {
          keepAliveRequest := false;
        }
      }
      RequestWrite();
    }

    method HandleRead(input: ReadResult, timedOut: bool, answer: Option<HandlerResult>)
      requires Valid() && hasChannel
      requires input.Bytes? ==> |input.data| <= readBuffer.ReadvCapacity()
      modifies this, readBuffer, writeBuffer, readBuffer.buffer, writeBuffer.buffer, inFlightRequest
      ensures Valid() && Fields() == Connection.HandleRead(old(Fields()), input, timedOut, answer)
    {
      hide Received;
      var n := readBuffer.ReadFd(input);
      if n > 0 {
        OnBytes(input.data, timedOut, answer);
      } else if n == 0 {
        assert readBuffer.Contents == old(readBuffer.Contents);
        HandleClose();
      } else if !input.again {
        HandleClose();
      }
    }

    // handleRead once n > 0 bytes are in the read buffer.
    method OnBytes(ghost data: string, timedOut: bool, answer: Option<HandlerResult>)
      requires Valid() && hasChannel && readBuffer.Contents != ""
      modifies this, readBuffer, writeBuffer, writeBuffer.buffer, inFlightRequest
      ensures Valid() && Fields() == Received(old(Fields()), data, timedOut, answer)
    {
      hide HttpSyntax.Parse, Decided, LinkPart, OutputPart, InputPart, TakenIn;
      var code, request, tooLarge, o := TakeIn(data);
      OnDecision(code, request, tooLarge, timedOut, answer, o);
    }

    method TakeIn(ghost data: string)
      returns (code: StatusCode, request: HttpRequest?, tooLarge: bool, ghost o: Outcome)
      requires Valid() && readBuffer.Contents != ""
      modifies this`inLog, this`inFlightRequest, inFlightRequest
      modifies readBuffer`readIndex, readBuffer`writeIndex, readBuffer`Contents
      ensures Valid() && Fields() == TakenIn(old(Fields()), data)
      ensures o == HttpSyntax.ParseRequest(old(InputPart()).inFlight, old(InputPart()).readBuf).0
      ensures code == o.code && (code == Ok <==> request != null) && (request != null ==> request.Fields() == o.parser)
      ensures tooLarge <==> code == Invalid && o.parser.state.ReqBodyFailed? && o.parser.tooLarge
    {
      hide HttpSyntax.Parse, LinkPart, OutputPart;
      o := HttpSyntax.ParseRequest(InFlight(inFlightRequest), readBuffer.Contents).0;
      inLog := inLog.(received := inLog.received + data, tail := inLog.tail + data);
      var holder;
      code, request, holder, tooLarge := HttpRequestModule.ParseRequest(readBuffer, inFlightRequest);
      inFlightRequest := holder;
    }

    method OnDecision(code: StatusCode, request: HttpRequest?, tooLarge: bool, timedOut: bool,
                      answer: Option<HandlerResult>, ghost o: Outcome)
      requires Valid() && hasChannel
      requires code == o.code && (code == Ok <==> request != null) && (request != null ==> request.Fields() == o.parser)
      requires tooLarge <==> code == Invalid && o.parser.state.ReqBodyFailed? && o.parser.tooLarge
      modifies this, writeBuffer, writeBuffer.buffer
      ensures Valid() && Fields() == Decided(old(Fields()), o, timedOut, answer)
    {
      hide ReplyBytes, Malformed, Accepted, Answered, PendingPart;
      if code == Again {
        if !parseWaiting {
          parseWaiting := true;
        } else if timedOut {
          QueueSimpleResponse(408, "Request Timeout");
        }
        return;
      }
      parseWaiting := false;
      if code != Ok || request == null {
        OnMalformed(tooLarge);
        return;
      }
      OnRequest(request);
      OnAnswer(answer);
    }

    method OnDrained()
      modifies this`keepAliveRequest, this`servedRequests, this`outLog, this`state, this`deleteQueued, this`writeEnabled
      modifies this`pendingStatusCode, this`pendingReasonPhrase, this`pendingBody, this`pendingContentType
      ensures Fields() == Drained(old(Fields()))
    {
      hide InputPart, LinkPart, PendingPart;
      if keepAliveRequest {
        ForgetRequest();
        if servedRequests >= maxKeepAliveRequests {
          Finish();
          return;
        }
        StopWriting();
        return;
      }
      hide OutputPart;
      Finish();
    }

    // The answered request is done with.
    method ForgetRequest()
      modifies this`keepAliveRequest, this`servedRequests
      modifies this`pendingStatusCode, this`pendingReasonPhrase, this`pendingBody, this`pendingContentType
      ensures OutputPart() == old(OutputPart()).(keepAlive := false, pending := OK_PENDING,
                                                 served := old(servedRequests) + 1)
      ensures servedRequests == old(servedRequests) + 1
    {
      keepAliveRequest := false;
      servedRequests := servedRequests + 1;
      ResetPending();
    }

    method StopWriting()
      modifies this`writeEnabled
      ensures var k := old(LinkPart()); LinkPart() == if k.hasChannel then k.(writeEnabled := false) else k
    {
      if hasChannel {
        writeEnabled := false;
      }
    }

    method Finish()
      modifies this`outLog, this`state, this`deleteQueued
      ensures LinkPart() == CloseLink(old(LinkPart())) && outLog == old(outLog).(finished := true)
    {
      outLog := outLog.(finished := true);
      HandleClose();
    }

    method HandleWrite(answer: WriteResult)
      requires Valid() && hasChannel
      requires answer.Wrote? ==> answer.count <= |Offered(OutputPart())|
      modifies this, writeBuffer, writeBuffer.buffer
      ensures Valid() && Fields() == Connection.HandleWrite(old(Fields()), answer)
    {
      hide ReplyBytes, Written;
      if writeBuffer.ReadableBytes() == 0 {
        AppendSimpleResponse(pendingStatusCode, pendingReasonPhrase, pendingBody, pendingContentType);
      }
      assert writeBuffer.Contents == Offered(old(OutputPart()));
      assert Fields() == old(Fields()).(output := old(OutputPart()).(writeBuf := Offered(old(OutputPart()))));
      OnWritable(answer);
    }

    // handleWrite once the write buffer holds what is offered.
    method OnWritable(answer: WriteResult)
      requires Valid() && hasChannel
      requires answer.Wrote? ==> answer.count <= |writeBuffer.Contents|
      modifies this, writeBuffer`readIndex, writeBuffer`writeIndex, writeBuffer`Contents
      ensures Valid() && Fields() == Written(old(Fields()), answer)
    {
      hide Drained, Sent, InputPart, PendingPart;
      var n := WriteSome(answer);
      if n < 0 && !answer.again {
        HandleClose();
        return;
      }
      if writeBuffer.ReadableBytes() == 0 {
        outLog := outLog.(drains := outLog.drains + 1);
        OnDrained();
      }
    }

    // write() on the descriptor, and what it took leaves the buffer.
    method WriteSome(answer: WriteResult) returns (n: int)
      requires Valid()
      requires answer.Wrote? ==> answer.count <= |writeBuffer.Contents|
      modifies this`outLog, writeBuffer`readIndex, writeBuffer`writeIndex, writeBuffer`Contents
      ensures Valid() && Fields() == Sent(old(Fields()), answer)
      ensures if answer.WriteFailed? then n < 0 && Fields() == old(Fields()) else n >= 0
    {
      if answer.Wrote? {
        outLog := outLog.(sent := outLog.sent + writeBuffer.Contents[..answer.count]);
      }
      n := writeBuffer.WriteFd(answer);
    }

    method SendAsyncResponse(result: HandlerResult)
      modifies this
      ensures Fields() == SendAsync(old(Fields()), result)
    {
      hide InputPart, PendingPart;
      if state != Connected {
        return;
      }
      TakeResult(result);
      asyncPending := false;
      if hasChannel {
        RequestWrite();
      }
    }

    method SetCloseCallback()
      modifies this`haveCloseCallback
      ensures haveCloseCallback
    {
      haveCloseCallback := true;
    }

    // The close callback, if there is one, is told the descriptor.
    method OnChannelDestroyed() returns (report: Option<int>)
      modifies this`hasChannel, this`state, this`deleteQueued
      ensures Fields() == Destroyed(old(Fields()))
      ensures report == if haveCloseCallback then Some(fd) else None
    {
      hasChannel := false;
      state := Disconnected;
      deleteQueued := false;
      return if haveCloseCallback then Some(fd) else None;
    }
  }
}
