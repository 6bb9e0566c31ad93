/** What HttpRequest does, as a function of the parser's fields and the buffered bytes. */
module HttpSyntax {
  import opened Text

  const MAX_BODY_BYTES: nat := 1024 * 1024
  const SIZE_MAX: nat := 0xFFFF_FFFF_FFFF_FFFF

  datatype State =
    | Idle | ReqLine | ReqLineFailed | ReqHeaders | ReqHeadersFailed | ReqBody | ReqBodyFailed | ParseDone

  datatype StatusCode = Ok | Again | Invalid

  type Headers = seq<(string, string)>

  // The fields of an HttpRequest object.
  datatype Parser = Parser(
    state: State, verb: string, url: string, version: string, headers: Headers, body: string, tooLarge: bool)

  const FRESH := Parser(Idle, "", "", "", [], "", false)

  // One call: its status code, the fields after it and the bytes it left in the buffer.
  datatype Outcome = Outcome(code: StatusCode, parser: Parser, rest: string)

  // The request line between its two spaces: is it one, and the fields after the attempt.
  function SplitLine(p: Parser, line: string): (bool, Parser) {
    match Find(line, " ")
    case None => (false, p.(state := ReqLineFailed))
    case Some(first) =>
      match FindFrom(line, " ", first + 1)
      case None => (false, p.(state := ReqLineFailed))
      case Some(second) =>
        var p1 := p.(verb := line[..first], url := line[first + 1..second], version := line[second + 1..]);
        if p1.verb == "" || p1.url == "" || p1.version == "" then (false, p1.(state := ReqLineFailed))
        else (true, p1)
  }

  function ParseLine(p: Parser, d: string): Outcome {
    match Find(d, CRLF)
    case None => Outcome(Again, p.(state := ReqLine), d)
    case Some(lineEnd) =>
      var (ok, p1) := SplitLine(p.(state := ReqLine), d[..lineEnd]);
      if ok then Outcome(Ok, p1, d[lineEnd + 2..]) else Outcome(Invalid, p1, d)
  }

  function AddHeader(p: Parser, line: string, colon: nat): Parser
    requires colon + 2 <= |line|
  {
    p.(headers := p.headers + [(line[..colon], line[colon + 2..])])
  }

  // The header loop of parseHead_, which consumes line by line.
  function HeaderLoop(p: Parser, d: string): Outcome
    decreases |d|
  {
    match Find(d, CRLF)
    case None => Outcome(Again, p, d)
    case Some(index) =>
      if index == 0 then Outcome(Ok, p, d[2..])
      else
        var sub := d[..index];
        match Find(sub, ": ")
        case None => Outcome(Invalid, p.(state := ReqHeadersFailed), d[index + 2..])
        case Some(colon) =>
          HeaderLoop(AddHeader(p, sub, colon), d[index + 2..])
  }

  // One round of the loop.
  lemma HeaderLoopRound(p: Parser, d: string, index: nat)
    requires Find(d, CRLF) == Some(index) && index > 0
    ensures HeaderLoop(p, d)
         == match Find(d[..index], ": ")
            case None => Outcome(Invalid, p.(state := ReqHeadersFailed), d[index + 2..])
            case Some(colon) => HeaderLoop(AddHeader(p, d[..index], colon), d[index + 2..])
  {
  }

  function ParseHead(p: Parser, d: string): Outcome {
    var p1 := p.(state := ReqHeaders);
    if Find(d, CRLFCRLF).None? then Outcome(Again, p1, d) else HeaderLoop(p1, d)
  }

  // The first header of that name, whatever its case.
  function FindHeader(headers: Headers, key: string): Option<string> {
    if headers == [] then None
    else if ToLower(headers[0].0) == ToLower(key) then Some(headers[0].1)
    else FindHeader(headers[1..], key)
  }

  predicate IsBlank(c: char) { c == ' ' || c == '\t' }

  function TrimLeft(s: string): string {
    if s != "" && IsBlank(s[0]) then TrimLeft(s[1..]) else s
  }

  function TrimRight(s: string): string {
    if s != "" && IsBlank(s[|s| - 1]) then TrimRight(s[..|s| - 1]) else s
  }

  predicate IsDigit(c: char) { '0' <= c <= '9' }

  function DigitValue(c: char): nat {
    if IsDigit(c) then c as int - '0' as int else 0
  }

  function Decimal(s: string): nat {
    if s == "" then 0 else 10 * Decimal(s[..|s| - 1]) + DigitValue(s[|s| - 1])
  }

  // std::from_chars on the trimmed value: digits only, to the end, within 64 bits.
  function ParseLength(value: string): Option<nat> {
    var trimmed := TrimRight(TrimLeft(value));
    if trimmed == "" || exists c | c in trimmed :: !IsDigit(c) then None
    else if Decimal(trimmed) > SIZE_MAX then None
    else Some(Decimal(trimmed))
  }

  function ParseBody(p: Parser, d: string): Outcome {
    var p1 := p.(state := ReqBody, tooLarge := false);
    match FindHeader(p.headers, "Content-Length")
    case None => Outcome(Ok, p1.(body := "", state := ParseDone), d)
    case Some(value) =>
      match ParseLength(value)
      case None => Outcome(Invalid, p1.(state := ReqBodyFailed), d)
      case Some(length) =>
        if length > MAX_BODY_BYTES then Outcome(Invalid, p1.(tooLarge := true, state := ReqBodyFailed), d)
        else if |d| < length then Outcome(Again, p1, d)
        else Outcome(Ok, p1.(body := d[..length], state := ParseDone), d[length..])
  }

  // The three stages of parse_, each entered only when the one before it is complete.
  function FromHead(p: Parser, d: string): Outcome {
    var o := ParseHead(p, d);
    if o.code != Ok then o else ParseBody(o.parser.(state := ReqBody), o.rest)
  }

  function FromLine(p: Parser, d: string): Outcome {
    var o := ParseLine(p, d);
    if o.code != Ok then o else FromHead(o.parser.(state := ReqHeaders), o.rest)
  }

  function Parse(p: Parser, d: string): Outcome {
    match p.state
    case ParseDone => Outcome(Ok, p, d)
    case Idle => FromLine(p, d)
    case ReqLine => FromLine(p, d)
    case ReqHeaders => FromHead(p, d)
    case ReqBody => ParseBody(p, d)
    case _ => Outcome(Invalid, p, d)
  }

  // parseRequest: an empty buffer waits without touching the in-flight object, whose absence
  // stands for a new one.
  function ParseRequest(inFlight: Option<Parser>, d: string): (Outcome, Option<Parser>) {
    var p := if inFlight.Some? then inFlight.value else FRESH;
    if d == "" then (Outcome(Again, p, d), inFlight)
    else
      var o := Parse(p, d);
      (o, if o.code == Ok then None else Some(o.parser))
  }
}
