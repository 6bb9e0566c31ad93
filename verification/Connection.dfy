/** What a TcpConnection does, as functions of its fields.
    The loop it belongs to appears through what the connection asks of it: the write bit of its
    Channel's mask and whether a DELETE for its descriptor is queued. */
module Connection {
  import opened Text
  import opened BufferModule
  import opened HttpSyntax
  import opened RoundTrip
  import opened ConnStates

  datatype HandlerResult = HandlerResult(
    statusCode: int, reasonPhrase: string, body: string, contentType: string, closeConnection: bool, async: bool)

  // state_, whether channel_ is set, the write bit of its mask, and whether a DELETE is queued.
  datatype Link = Link(state: ConnState, hasChannel: bool, writeEnabled: bool, deleteQueued: bool)

  datatype Input = Input(readBuf: string, inFlight: Option<Parser>, parseWaiting: bool)

  // The response being prepared.
  datatype Pending = Pending(status: int, reason: string, body: string, contentType: string)

  datatype Output = Output(writeBuf: string, pending: Pending, keepAlive: bool, asyncPending: bool, served: nat)

  datatype Config = Config(keepAliveEnabled: bool, maxRequests: nat)

  // One response, before it is put into bytes.
  datatype Reply = Reply(content: Pending, keepAlive: bool)

  // What came in so far: every byte read, the requests given to the handler, the bytes read since
  // the last of them, and whether a request was malformed.  No branch reads it.
  datatype InLog = InLog(received: string, handled: seq<Request>, tail: string, failed: bool)

  // What went out so far: the responses owed, how many of them are 400, 408 or 413, every byte
  // written, how often the write buffer ran empty, and whether that was the last time.
  datatype OutLog = OutLog(replies: seq<Reply>, errors: nat, sent: string, drains: nat, finished: bool)

  datatype Conn = Conn(link: Link, input: Input, output: Output, config: Config, inLog: InLog, outLog: OutLog)

  const DEFAULT_TYPE := "text/plain; charset=utf-8"
  const OK_PENDING := Pending(200, "OK", "", DEFAULT_TYPE)

  // setKeepAlivePolicy turns a limit of 0 into 1.
  function Limit(maxRequests: nat): nat { if maxRequests == 0 then 1 else maxRequests }

  // A connection after init(): registered and connected.
  function Opened(keepAliveEnabled: bool, maxRequests: nat): Conn {
    Conn(Link(Connected, true, false, false), Input("", None, false), Output("", OK_PENDING, false, false, 0),
         Config(keepAliveEnabled, Limit(maxRequests)), InLog("", [], "", false), OutLog([], 0, "", 0, false))
  }

  // ------------------------------------------------------------------ responses

  // std::to_string of an int.
  function IntToString(n: int): string {
    if n < 0 then "-" + ToDecimal(-n) else ToDecimal(n)
  }

  // The lines appendSimpleResponse_ puts together.
  function StatusLine(r: Reply): string {
    "HTTP/1.1 " + IntToString(r.content.status) + " " + r.content.reason + CRLF
  }

  function TypeLine(r: Reply): string { "Content-Type: " + r.content.contentType + CRLF }

  function LengthLine(r: Reply): string { "Content-Length: " + ToDecimal(|r.content.body|) + CRLF }

  function ConnectionLine(r: Reply): string { "Connection: " + (if r.keepAlive then "keep-alive" else "close") + CRLF }

  function ServerLine(): string { "Server: CPPReactor" + CRLF }

  function ReplyHead(r: Reply): string {
    StatusLine(r) + TypeLine(r) + LengthLine(r) + ConnectionLine(r) + ServerLine() + CRLF
  }

  function ReplyBytes(r: Reply): string { ReplyHead(r) + r.content.body }

  function PendingReply(out: Output): Reply { Reply(out.pending, out.keepAlive) }

  predicate Contains(s: string, pat: string) { Find(s, pat).Some? }

  function ShouldKeepAlive(version: string, headers: Headers): bool {
    var connection := match FindHeader(headers, "connection") case None => "" case Some(v) => ToLower(v);
    if ToLower(version) == "http/1.0" then Contains(connection, "keep-alive") else !Contains(connection, "close")
  }

  // ------------------------------------------------------------------ parts of the handlers

  function CloseLink(k: Link): Link {
    if k.state == Disconnected || k.state == Disconnecting then k
    else if k.hasChannel then k.(state := Disconnecting, deleteQueued := true)
    else k.(state := Disconnected)
  }

  function WriteOn(k: Link): Link { k.(writeEnabled := true) }

  function Owe(log: OutLog, r: Reply): OutLog { log.(replies := log.replies + [r]) }

  function OweError(log: OutLog, r: Reply): OutLog { log.(replies := log.replies + [r], errors := log.errors + 1) }

  function ErrorReply(status: int, reason: string, keepAlive: bool): Reply {
    Reply(Pending(status, reason, "", DEFAULT_TYPE), keepAlive)
  }

  // The fields of a handler's answer that are filled in replace the pending ones.
  function Taken(p: Pending, r: HandlerResult): Pending {
    Pending(if 100 <= r.statusCode <= 599 then r.statusCode else p.status,
            if r.reasonPhrase != "" then r.reasonPhrase else p.reason,
            r.body,
            if r.contentType != "" then r.contentType else p.contentType)
  }

  // ------------------------------------------------------------------ handlers

  function HandleClose(c: Conn): Conn { c.(link := CloseLink(c.link)) }

  // queueSimpleResponse_: the reply goes into the write buffer at once.
  function QueueSimple(c: Conn, status: int, reason: string): Conn {
    var r := ErrorReply(status, reason, c.output.keepAlive);
    c.(link := WriteOn(c.link), output := c.output.(writeBuf := c.output.writeBuf + ReplyBytes(r)),
       outLog := OweError(c.outLog, r))
  }

  // parseRequest answered 400 or 413.
  function Malformed(c: Conn, tooLarge: bool): Conn {
    var c1 := c.(input := c.input.(inFlight := None), output := c.output.(keepAlive := false),
                 inLog := c.inLog.(failed := true));
    if tooLarge then QueueSimple(c1, 413, "Payload Too Large") else QueueSimple(c1, 400, "Bad Request")
  }

  // parseRequest returned a request: note it, and start from the default response.
  function Accepted(c: Conn, p: Parser): Conn {
    c.(input := c.input.(inFlight := None),
       inLog := c.inLog.(handled := c.inLog.handled + [AsRequest(p)], tail := c.input.readBuf),
       output := c.output.(pending := OK_PENDING,
                           keepAlive := c.config.keepAliveEnabled && ShouldKeepAlive(p.version, p.headers)))
  }

  // `answer` is what the handler makes of the request, None if there is no handler.
  function Answered(c: Conn, answer: Option<HandlerResult>): Conn {
    if answer.Some? && answer.value.async then c.(output := c.output.(asyncPending := true))
    else
      var out := match answer
                 case None => c.output
                 case Some(r) => c.output.(pending := Taken(c.output.pending, r),
                                           keepAlive := c.output.keepAlive && !r.closeConnection);
      c.(output := out, link := WriteOn(c.link), outLog := Owe(c.outLog, PendingReply(out)))
  }

  // What parseRequest said, once its leftovers are in place.  `timedOut` is isParseWaitTimeout_.
  function Decided(c: Conn, o: Outcome, timedOut: bool, answer: Option<HandlerResult>): Conn {
    match o.code
    case Again =>
      if c.input.parseWaiting && timedOut then QueueSimple(c, 408, "Request Timeout")
      else c.(input := c.input.(parseWaiting := true))
    case Invalid =>
      Malformed(c.(input := c.input.(parseWaiting := false)), o.parser.state.ReqBodyFailed? && o.parser.tooLarge)
    case Ok => Answered(Accepted(c.(input := c.input.(parseWaiting := false)), o.parser), answer)
  }

  // parseRequest on the read buffer, at whose end the bytes of `data` stand.
  function TakenIn(c: Conn, data: string): Conn {
    var (o, next) := ParseRequest(c.input.inFlight, c.input.readBuf);
    c.(input := c.input.(readBuf := o.rest, inFlight := next),
       inLog := c.inLog.(received := c.inLog.received + data, tail := c.inLog.tail + data))
  }

  // handleRead once the n > 0 bytes of `data` stand at the end of the read buffer.
  function Received(c: Conn, data: string, timedOut: bool, answer: Option<HandlerResult>): Conn {
    Decided(TakenIn(c, data), ParseRequest(c.input.inFlight, c.input.readBuf).0, timedOut, answer)
  }

  function HandleRead(c: Conn, input: ReadResult, timedOut: bool, answer: Option<HandlerResult>): Conn {
    match input
    case Bytes(data) => if data == "" then HandleClose(c)
      else Received(c.(input := c.input.(readBuf := c.input.readBuf + data)), data, timedOut, answer)
    case ReadFailed(again) => if again then c else HandleClose(c)
  }

  // The bytes handleWrite offers to write().
  function Offered(out: Output): string {
    if out.writeBuf == "" then ReplyBytes(PendingReply(out)) else out.writeBuf
  }

  // The write buffer has run empty.
  function Drained(c: Conn): Conn {
    if c.output.keepAlive then
      var served := c.output.served + 1;
      var out := c.output.(keepAlive := false, served := served, pending := OK_PENDING);
      if served >= c.config.maxRequests then
        c.(output := out, link := CloseLink(c.link), outLog := c.outLog.(finished := true))
      else
        c.(output := out, link := if c.link.hasChannel then c.link.(writeEnabled := false) else c.link)
    else c.(link := CloseLink(c.link), outLog := c.outLog.(finished := true))
  }

  // The end of handleWrite: is anything left to send?
  function AfterWrite(c: Conn): Conn {
    if c.output.writeBuf == "" then Drained(c.(outLog := c.outLog.(drains := c.outLog.drains + 1))) else c
  }

  // write() took what it took.
  function Sent(c: Conn, answer: WriteResult): Conn
    requires answer.Wrote? ==> answer.count <= |c.output.writeBuf|
  {
    match answer
    case WriteFailed(_) => c
    case Wrote(n) => c.(output := c.output.(writeBuf := c.output.writeBuf[n..]),
                        outLog := c.outLog.(sent := c.outLog.sent + c.output.writeBuf[..n]))
  }

  // handleWrite once the write buffer holds what is offered.
  function Written(c: Conn, answer: WriteResult): Conn
    requires answer.Wrote? ==> answer.count <= |c.output.writeBuf|
  {
    if answer.WriteFailed? && !answer.again then HandleClose(c) else AfterWrite(Sent(c, answer))
  }

  function HandleWrite(c: Conn, answer: WriteResult): Conn
    requires answer.Wrote? ==> answer.count <= |Offered(c.output)|
  {
    Written(c.(output := c.output.(writeBuf := Offered(c.output))), answer)
  }

  function SendAsync(c: Conn, r: HandlerResult): Conn {
    if c.link.state != Connected then c
    else
      var out := c.output.(pending := Taken(c.output.pending, r), asyncPending := false);
      if c.link.hasChannel then
        c.(output := out, link := WriteOn(c.link), outLog := Owe(c.outLog, PendingReply(out)))
      else c.(output := out)
  }

  // onChannelDestroyed_.
  function Destroyed(c: Conn): Conn {
    c.(link := c.link.(hasChannel := false, state := Disconnected, deleteQueued := false))
  }
}
