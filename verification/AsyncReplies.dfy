/** A connection and the SQL handler together, from the request to the response: a request may become a job,
    the job posts one completion to the connection's loop, and the loop calls sendAsyncResponse with it.
    The loop runs each posted callback once (EventLoop); here, each completion is delivered at most once.

    The client waits for each response.  That a completion only ever comes while one is expected is not
    asked for: it follows. */
module AsyncReplies {
  import opened Text
  import opened BufferModule
  import opened HttpSyntax
  import opened RoundTrip
  import opened Connection
  import opened ConnectionRuns
  import opened ConnectionStreams
  import opened ConnectionReplies
  import opened ConnStates
  import opened SqlParam
  import E = Executor
  import H = SqlHandlerModule

  datatype Joint = Joint(
    run: RunState,
    due: Ledger,
    sql: H.System,
    mine: seq<E.JobId>,          // the jobs this connection's requests became
    delivered: seq<E.JobId>)     // those whose completion has reached sendAsyncResponse

  // Whom the router gives a request to.
  datatype Target = ToSql(r: H.Request) | ToOther(answer: Option<HandlerResult>)

  datatype Move =
    | Read(data: string, timedOut: bool, target: Target, write: bool)    // bytes arrive
    | Conn(step: Step)                                                   // the connection's other steps
    | Sql(m: H.Move)                                                     // other connections, the executor
    | Deliver(k: nat)                                                    // the loop runs posted completion k

  const JSON := "application/json; charset=utf-8"

  // What SqlHandler::handle returns.
  function ResultOf(answer: H.Answer): (r: HandlerResult)
    ensures r.async <==> answer.Async?
  {
    match answer
    case MethodNotAllowed => HandlerResult(405, "", "{\"error\":\"Method not allowed\"}", JSON, false, false)
    case MissingSql => HandlerResult(400, "", "{\"error\":\"Missing 'sql' query parameter\"}", JSON, false, false)
    case NotReadOnly =>
      HandlerResult(403, "", "{\"error\":\"Only read-only statements are allowed\"}", JSON, false, false)
    case Unavailable => HandlerResult(503, "", "{\"error\":\"SQL executor unavailable\"}", JSON, false, false)
    case Async => HandlerResult(200, "", "", JSON, false, true)
  }

  function AsyncResult(r: H.Response): HandlerResult { HandlerResult(r.statusCode, "", r.body, JSON, false, false) }

  predicate Parsed(j: Joint, data: string) {
    ParseRequest(j.run.conn.input.inFlight, j.run.conn.input.readBuf + data).0.code == Ok
  }

  function AnswerFor(j: Joint, target: Target): Option<HandlerResult> {
    match target
    case ToSql(r) => Some(ResultOf(H.AnswerTo(j.sql.readOnly, r, j.sql.executor)))
    case ToOther(answer) => answer
  }

  // The step of the connection that a move takes, if any.
  function RunStep(j: Joint, m: Move): Option<Step> {
    match m
    case Read(data, timedOut, target, write) =>
      Some(Active(DoRead(Bytes(data), timedOut, if Parsed(j, data) then AnswerFor(j, target) else None), write))
    case Conn(step) => Some(step)
    case Sql(_) => None
    case Deliver(k) => if k < |j.sql.posted| then Some(Completion(AsyncResult(j.sql.posted[k].response))) else None
  }

  predicate CanMove(j: Joint, m: Move) {
    match m
    case Read(data, timedOut, target, write) =>
      && data != "" && (target.ToOther? && target.answer.Some? ==> !target.answer.value.async)
      && Enabled(j.run, RunStep(j, m).value) && ClientWaits(j.run, RunStep(j, m).value)
    case Conn(step) => !BytesArrive(step) && !step.Completion? && Enabled(j.run, step)
    case Sql(move) => H.CanMove(j.sql, move)
    case Deliver(k) =>
      && k < |j.sql.posted| && j.sql.posted[k].job in j.mine && j.sql.posted[k].job !in j.delivered
  }

  ghost function Move1(j: Joint, m: Move): Joint
    requires CanMove(j, m)
  {
    var j1 := match RunStep(j, m)
      case None => j
      case Some(step) => j.(run := Do(j.run, step), due := Note(j.due, j.run, step));
    match m
    case Read(data, _, ToSql(r), _) =>
      if !Parsed(j, data) then j1
      else
        j1.(sql := H.After(j.sql, H.HandleRequest(r)),
            mine := if H.AnswerTo(j.sql.readOnly, r, j.sql.executor).Async? then j.mine + [j.sql.handled] else j.mine)
    case Sql(move) => j1.(sql := H.After(j.sql, move))
    case Deliver(k) => j1.(delivered := j.delivered + [j.sql.posted[k].job])
    case _ => j1
  }

  ghost predicate Begin(j: Joint, ka: bool, maxRequests: nat) {
    && j.run == Start(ka, maxRequests) && j.due == NothingDue(ka) && H.Initial(j.sql)
    && j.mine == [] && j.delivered == []
  }

  ghost predicate History(states: seq<Joint>, moves: seq<Move>, ka: bool, maxRequests: nat) {
    && |states| == |moves| + 1 && Begin(states[0], ka, maxRequests)
    && forall k | 0 <= k < |moves| :: CanMove(states[k], moves[k]) && states[k + 1] == Move1(states[k], moves[k])
  }

  // ------------------------------------------------------------------ the invariant

  predicate Distinct(ids: seq<E.JobId>) { forall i, j | 0 <= i < j < |ids| :: ids[i] != ids[j] }

  ghost predicate RunInv(j: Joint, maxRequests: nat) {
    StreamInv(j.run) && CapInv(j.run, maxRequests) && InInv(j.run.conn) && Follows(j.run.conn, j.due)
  }

  type Ids = seq<E.JobId>

  // At most the last of this connection's jobs is undelivered, and then a completion is expected.
  ghost predicate OneAtMost(mine: Ids, delivered: Ids, handled: nat, accepted: Ids, expected: bool) {
    && Distinct(mine) && Distinct(delivered)
    && (forall id | id in mine :: id < handled && id in accepted)
    && (forall id | id in delivered :: id in mine)
    && (forall i | 0 <= i < |mine| && mine[i] !in delivered :: i == |mine| - 1 && expected)
  }

  lemma OneMoreMine(mine: Ids, delivered: Ids, handled: nat, accepted: Ids)
    requires OneAtMost(mine, delivered, handled, accepted, false)
    ensures OneAtMost(mine + [handled], delivered, handled + 1, accepted + [handled], true)
  {
  }

  lemma OthersMove(mine: Ids, delivered: Ids, handled: nat, accepted: Ids, expected: bool,
                   handled': nat, accepted': Ids, expected': bool)
    requires OneAtMost(mine, delivered, handled, accepted, expected)
    requires handled <= handled' && accepted <= accepted' && (expected ==> expected')
    ensures OneAtMost(mine, delivered, handled', accepted', expected')
  {
  }

  lemma LastDelivered(mine: Ids, delivered: Ids, handled: nat, accepted: Ids, expected: bool, expected': bool)
    requires OneAtMost(mine, delivered, handled, accepted, expected)
    requires mine != [] && mine[|mine| - 1] !in delivered
    ensures OneAtMost(mine, delivered + [mine[|mine| - 1]], handled, accepted, expected')
  {
  }

  ghost predicate JobsInv(j: Joint) {
    OneAtMost(j.mine, j.delivered, j.sql.handled, j.sql.executor.accepted, j.run.conn.output.asyncPending)
  }

  ghost predicate JointInv(j: Joint, maxRequests: nat) {
    RunInv(j, maxRequests) && H.SystemInv(j.sql) && JobsInv(j)
  }

  // A deliverable completion is the one the connection waits for.
  lemma OnlyExpected(j: Joint, k: nat)
    requires JobsInv(j) && CanMove(j, Deliver(k))
    ensures j.run.conn.output.asyncPending && |j.mine| > 0 && j.sql.posted[k].job == j.mine[|j.mine| - 1]
  {
    var i :| 0 <= i < |j.mine| && j.mine[i] == j.sql.posted[k].job;
  }

  lemma MoveKeepsRun(j: Joint, m: Move, maxRequests: nat)
    requires JointInv(j, maxRequests) && CanMove(j, m)
    ensures RunInv(Move1(j, m), maxRequests)
  {
    if m.Deliver? {
      OnlyExpected(j, m.k);
    }
    AlwaysTaken(j, m);
    hide StreamInv, LinkInv, InInv, Follows, Do, Enabled, Note, RunStep, CanMove, H.SystemInv, JobsInv, ClientWaits,
      CompletionExpected;
    if RunStep(j, m).Some? {
      var step := RunStep(j, m).value;
      assert LinkInv(j.run);
      StepKeepsStream(j.run, step, maxRequests);
      StepKeepsCap(j.run, step, maxRequests);
      StepKeepsIn(j.run, step);
      StepFollows(j.run, j.due, step);
    }
  }

  lemma AlwaysTaken(j: Joint, m: Move)
    requires CanMove(j, m) && (m.Deliver? ==> j.run.conn.output.asyncPending)
    ensures match RunStep(j, m)
      case None => Move1(j, m).run == j.run && Move1(j, m).due == j.due
      case Some(step) =>
        && Enabled(j.run, step) && ClientWaits(j.run, step) && CompletionExpected(j.run, step)
        && Move1(j, m).run == Do(j.run, step) && Move1(j, m).due == Note(j.due, j.run, step)
  {
    hide Do, Note, H.After, H.AnswerTo, Parsed, ResultOf;
  }

  // What a step does to the flag that a completion is expected.
  lemma Expectation(s: RunState, step: Step)
    requires Enabled(s, step)
    ensures !BytesArrive(step) && !step.Completion? ==>
              Do(s, step).conn.output.asyncPending == s.conn.output.asyncPending
    ensures BytesArrive(step) ==>
              var o := ParseRequest(s.conn.input.inFlight, s.conn.input.readBuf + step.read.input.data).0;
              Do(s, step).conn.output.asyncPending ==
                (s.conn.output.asyncPending || (o.code == Ok && step.read.answer.Some? && step.read.answer.value.async))
  {
    hide ReplyBytes, Parse, Flat, ShouldKeepAlive, AsRequest, Taken;
  }

  // Whether a completion is expected after bytes arrived from a client that waits.
  lemma ReadExpects(j: Joint, m: Move)
    requires m.Read? && CanMove(j, m)
    ensures var answer := AnswerFor(j, m.target);
      && !j.run.conn.output.asyncPending && Move1(j, m).delivered == j.delivered
      && Move1(j, m).run.conn.output.asyncPending == (Parsed(j, m.data) && answer.Some? && answer.value.async)
  {
    var step := RunStep(j, m).value;
    Expectation(j.run, step);
    hide Do, Note, AnswerFor, Parse, ResultOf;
  }

  lemma ReadKeepsJobs(j: Joint, m: Move)
    requires JobsInv(j) && m.Read? && CanMove(j, m)
    ensures JobsInv(Move1(j, m))
  {
    hide OneAtMost, Do, Note, Parsed, Move1, CanMove, AnswerFor, ResultOf, H.After, H.AnswerTo;
    var j' := Move1(j, m);
    ReadExpects(j, m);
    if Parsed(j, m.data) && m.target.ToSql? {
      SqlReadKeepsJobs(j, m);
    } else {
      ReadElsewhere(j, m);
    }
  }

  lemma SqlReadKeepsJobs(j: Joint, m: Move)
    requires JobsInv(j) && m.Read? && CanMove(j, m) && Parsed(j, m.data) && m.target.ToSql?
    ensures JobsInv(Move1(j, m))
  {
    hide OneAtMost, Do, Note, Parsed, Move1, CanMove, AnswerFor, ResultOf, H.After, H.AnswerTo;
    var j' := Move1(j, m);
    ReadExpects(j, m);
    ReadToSql(j, m);
    Handled(j.sql, m.target.r);
    var async := H.AnswerTo(j.sql.readOnly, m.target.r, j.sql.executor).Async?;
    var n, accepted := j.sql.handled, j.sql.executor.accepted;
    assert j'.sql.handled == n + 1 && j'.delivered == j.delivered && j'.run.conn.output.asyncPending == async;
    if async {
      OneMoreMine(j.mine, j.delivered, n, accepted);
      assert j'.mine == j.mine + [n] && j'.sql.executor.accepted == accepted + [n];
    } else {
      assert j'.mine == j.mine && j'.sql.executor.accepted == accepted;
      OthersMove(j.mine, j.delivered, n, accepted, false, n + 1, accepted, false);
    }
  }

  lemma ReadToSql(j: Joint, m: Move)
    requires m.Read? && CanMove(j, m) && Parsed(j, m.data) && m.target.ToSql?
    ensures var answer := H.AnswerTo(j.sql.readOnly, m.target.r, j.sql.executor);
      && Move1(j, m).sql == H.After(j.sql, H.HandleRequest(m.target.r))
      && Move1(j, m).mine == (if answer.Async? then j.mine + [j.sql.handled] else j.mine)
      && AnswerFor(j, m.target) == Some(ResultOf(answer))
  {
    hide Do, Note, Parsed, H.After, H.AnswerTo, ResultOf;
  }

  lemma ReadElsewhere(j: Joint, m: Move)
    requires m.Read? && CanMove(j, m) && (!Parsed(j, m.data) || m.target.ToOther?)
    ensures Move1(j, m).sql == j.sql && Move1(j, m).mine == j.mine
    ensures Parsed(j, m.data) ==> var answer := AnswerFor(j, m.target); answer.Some? ==> !answer.value.async
  {
    hide Do, Note, Parsed;
  }

  lemma MoveKeepsJobs(j: Joint, m: Move)
    requires JobsInv(j) && CanMove(j, m)
    ensures JobsInv(Move1(j, m))
  {
    var j' := Move1(j, m);
    match m {
      case Read(_, _, _, _) =>
        ReadKeepsJobs(j, m);
      case Conn(step) =>
        Expectation(j.run, step);
        hide Do, Note;
      case Sql(move) =>
        hide OneAtMost, H.After, H.CanMove;
        Accepts(j.sql, move);
        OthersMove(j.mine, j.delivered, j.sql.handled, j.sql.executor.accepted, j.run.conn.output.asyncPending,
                   j'.sql.handled, j'.sql.executor.accepted, j'.run.conn.output.asyncPending);
      case Deliver(k) =>
        OnlyExpected(j, k);
        hide Do, Note, OneAtMost;
        LastDelivered(j.mine, j.delivered, j.sql.handled, j.sql.executor.accepted, j.run.conn.output.asyncPending,
                      j'.run.conn.output.asyncPending);
    }
  }

  // The request's number is new, and accepted exactly if the answer is asynchronous.
  lemma Handled(s: H.System, r: H.Request)
    ensures var s' := H.After(s, H.HandleRequest(r));
      && s'.handled == s.handled + 1
      && s'.executor.accepted == if H.AnswerTo(s.readOnly, r, s.executor).Async? then s.executor.accepted + [s.handled]
                                 else s.executor.accepted
  {
    H.Logs(s.executor, E.Submit(s.handled));
  }

  lemma Accepts(s: H.System, m: H.Move)
    requires H.CanMove(s, m)
    ensures s.executor.accepted <= H.After(s, m).executor.accepted && s.handled <= H.After(s, m).handled
  {
    match m
    case HandleRequest(r) => Handled(s, r);
    case FinishJob(_) => H.Logs(s.executor, E.Finish);
    case ExecutorMove(step) => H.Logs(s.executor, step);
  }

  lemma MoveKeepsSql(j: Joint, m: Move)
    requires H.SystemInv(j.sql) && CanMove(j, m)
    ensures H.SystemInv(Move1(j, m).sql)
  {
    hide Do, Note, Parsed, H.SystemInv, H.After;
    match m
    case Read(_, _, ToSql(r), _) => H.MoveKeepsInv(j.sql, H.HandleRequest(r));
    case Sql(move) => H.MoveKeepsInv(j.sql, move);
    case _ =>
  }

  lemma {:induction false} HistoryKeepsInv(states: seq<Joint>, moves: seq<Move>, ka: bool, maxRequests: nat, i: nat)
    requires History(states, moves, ka, maxRequests) && i < |states|
    ensures JointInv(states[i], maxRequests)
  {
    hide RunInv, JobsInv, H.SystemInv, CanMove, Move1;
    if i == 0 {
      BeginKeepsInv(states[0], ka, maxRequests);
    } else {
      HistoryKeepsInv(states, moves, ka, maxRequests, i - 1);
      MoveKeepsRun(states[i - 1], moves[i - 1], maxRequests);
      MoveKeepsJobs(states[i - 1], moves[i - 1]);
      MoveKeepsSql(states[i - 1], moves[i - 1]);
    }
  }

  lemma BeginKeepsInv(j: Joint, ka: bool, maxRequests: nat)
    requires Begin(j, ka, maxRequests)
    ensures JointInv(j, maxRequests)
  {
  }

  // ------------------------------------------------------------------ theorems

  // For a client that waits, a completion comes only while the connection expects one.
  lemma CompletionsAreExpected(states: seq<Joint>, moves: seq<Move>, ka: bool, maxRequests: nat, i: nat)
    requires History(states, moves, ka, maxRequests) && i < |moves| && moves[i].Deliver?
    ensures CompletionExpected(states[i].run, RunStep(states[i], moves[i]).value)
    ensures states[i].run.conn.output.asyncPending
  {
    hide RunInv, H.SystemInv, Move1;
    HistoryKeepsInv(states, moves, ka, maxRequests, i);
    OnlyExpected(states[i], moves[i].k);
  }

  // Every asynchronous request of the connection has had its one sendAsyncResponse, or its one completion
  // waits in the loop's queue, or its job is still running or queued: exactly one of these, once.
  lemma OneCompletionEach(states: seq<Joint>, moves: seq<Move>, ka: bool, maxRequests: nat, i: nat, id: E.JobId)
    requires History(states, moves, ka, maxRequests) && i < |states| && id in states[i].mine
    ensures var j := states[i];
      var pending := E.Current(j.sql.executor.worker) + j.sql.executor.queue;
      && multiset(H.Jobs(j.sql.posted))[id] + multiset(pending)[id] == 1
      && multiset(j.delivered)[id] <= multiset(H.Jobs(j.sql.posted))[id]
  {
    hide RunInv, Move1, CanMove;
    HistoryKeepsInv(states, moves, ka, maxRequests, i);
    DeliveredIsPosted(states, moves, ka, maxRequests, i);
    var j := states[i];
    var pending := E.Current(j.sql.executor.worker) + j.sql.executor.queue;
    var accepted := j.sql.executor.accepted;
    assert accepted == H.Jobs(j.sql.posted) + pending;
    CountedOnce(j.sql.refused, accepted, j.sql.handled, id);
    OnceEach(j.delivered, id);
    if id in j.delivered {
      assert id in H.Jobs(j.sql.posted);
    }
  }

  lemma CountedOnce(refused: seq<E.JobId>, accepted: seq<E.JobId>, n: nat, id: E.JobId)
    requires H.EachOnce(refused, accepted, n) && id in accepted && id < n
    ensures multiset(accepted)[id] == 1
  {
    assert multiset(refused)[id] + multiset(accepted)[id] == 1;
  }

  lemma {:induction false} OnceEach(ids: seq<E.JobId>, id: E.JobId)
    requires Distinct(ids)
    ensures multiset(ids)[id] == if id in ids then 1 else 0
  {
    if ids != [] {
      OnceEach(ids[1..], id);
      assert ids == [ids[0]] + ids[1..];
    }
  }

  lemma {:induction false} DeliveredIsPosted(states: seq<Joint>, moves: seq<Move>, ka: bool, maxRequests: nat, i: nat)
    requires History(states, moves, ka, maxRequests) && i < |states|
    ensures forall id | id in states[i].delivered :: id in H.Jobs(states[i].sql.posted)
  {
    hide Do, Note, Parsed, Enabled;
    if i > 0 {
      DeliveredIsPosted(states, moves, ka, maxRequests, i - 1);
      var j, m := states[i - 1], moves[i - 1];
      PostedGrows(j, m);
      if m.Deliver? {
        JobAt(j.sql.posted, m.k);
      }
    }
  }

  lemma PostedGrows(j: Joint, m: Move)
    requires CanMove(j, m)
    ensures forall id | id in H.Jobs(j.sql.posted) :: id in H.Jobs(Move1(j, m).sql.posted)
  {
    hide Do, Note, Parsed, Enabled, E.Do;
    if m.Sql? && m.m.FinishJob? {
      H.JobsAppend(j.sql.posted, H.Completion(j.sql.executor.worker.job, m.m.response));
    }
  }

  lemma {:induction false} JobAt(posted: seq<H.Completion>, k: nat)
    requires k < |posted|
    ensures posted[k].job in H.Jobs(posted)
  {
    if k < |posted| - 1 {
      JobAt(posted[..|posted| - 1], k);
    }
  }

  // Exact output stream, with asynchronous answers coming through the SQL handler: nothing but the client's
  // own patience is asked for.
  lemma ExactOutput(states: seq<Joint>, moves: seq<Move>, ka: bool, maxRequests: nat, i: nat)
    requires History(states, moves, ka, maxRequests) && i < |states|
    ensures var c, d := states[i].run.conn, states[i].due;
      && c.outLog.sent <= Flat(d.replies)
      && (!c.link.writeEnabled || c.outLog.finished ==> c.outLog.sent == Flat(d.replies))
      && |d.replies| + (if d.awaiting.Some? then 1 else 0) == |c.inLog.handled| + c.outLog.errors
  {
    hide ReplyBytes, Flat, H.SystemInv, JobsInv;
    HistoryKeepsInv(states, moves, ka, maxRequests, i);
    var c := states[i].run.conn;
    assert Flat(c.outLog.replies) == c.outLog.sent + (c.output.writeBuf + Unserialized(c));
  }

  // The parser's decision on the bytes that arrived is that of the bytes since the last request.
  lemma DecidesOnTail(j: Joint, m: Move, maxRequests: nat)
    requires RunInv(j, maxRequests) && m.Read? && CanMove(j, m)
    ensures Parsed(j, m.data) <==> Parse(FRESH, j.due.tail + m.data).code == Ok
  {
    assert Follows(j.run.conn, j.due) && InInv(j.run.conn) && ClientWaits(j.run, RunStep(j, m).value);
    hide Parse, PrintAll, WellFormed, StreamInv, CapInv;
    ParsesWholeTail(j.run.conn.input, j.run.conn.inLog.tail, m.data);
  }

  lemma RefusalNoted(j: Joint, m: Move)
    requires m.Read? && m.target.ToSql? && CanMove(j, m) && Parsed(j, m.data)
    requires Parse(FRESH, j.due.tail + m.data).code == Ok
    ensures var d', answer := Move1(j, m).due, H.AnswerTo(j.sql.readOnly, m.target.r, j.sql.executor);
      if answer.Async? then d'.replies == j.due.replies && d'.awaiting.Some?
      else
        && d'.awaiting == j.due.awaiting
        && exists alive :: d'.replies == j.due.replies + [Answering(ResultOf(answer), alive)]
  {
    hide Do, Persistent, Parse, Parsed, H.AnswerTo, Answering, ResultOf, H.After;
    var answer := H.AnswerTo(j.sql.readOnly, m.target.r, j.sql.executor);
    var o := Parse(FRESH, j.due.tail + m.data);
    assert AnswerFor(j, m.target) == Some(ResultOf(answer));
    var alive := j.due.enabled && Persistent(o.parser.version, o.parser.headers) && !ResultOf(answer).closeConnection;
    assert !answer.Async? ==> Move1(j, m).due.replies == j.due.replies + [Answering(ResultOf(answer), alive)];
  }

  // What a request to the SQL handler brings the client, in terms of the request: a refusal at once, or a
  // response to come.
  lemma SqlRefusals(states: seq<Joint>, moves: seq<Move>, ka: bool, maxRequests: nat, i: nat)
    requires History(states, moves, ka, maxRequests) && i < |moves|
    requires moves[i].Read? && moves[i].target.ToSql?
    requires Parse(FRESH, states[i].due.tail + moves[i].data).code == Ok
    ensures states[i + 1].sql.handled == states[i].sql.handled + 1
    ensures var j, j', d, d', r := states[i], states[i + 1], states[i].due, states[i + 1].due, moves[i].target.r;
      if r.get && SqlOf(r.url) != "" && (j.sql.readOnly ==> r.isReadOnly) && !j.sql.executor.stopping then
        && d'.replies == d.replies && d'.awaiting.Some? && j'.mine == j.mine + [j.sql.handled]
        && j'.sql.executor.accepted == j.sql.executor.accepted + [j.sql.handled]
      else
        && |d'.replies| == |d.replies| + 1 && d'.replies[..|d.replies|] == d.replies && d'.awaiting == d.awaiting
        && j'.mine == j.mine && j'.sql.refused == j.sql.refused + [j.sql.handled]
        && d'.replies[|d.replies|].content.status ==
             if !r.get then 405 else if SqlOf(r.url) == "" then 400
             else if j.sql.readOnly && !r.isReadOnly then 403 else 503
  {
    hide Parse, H.SystemInv, JobsInv, SqlOf, RunInv, Parsed, CanMove, Move1;
    HistoryKeepsInv(states, moves, ka, maxRequests, i);
    var j, m := states[i], moves[i];
    assert CanMove(j, m) && states[i + 1] == Move1(j, m);
    DecidesOnTail(j, m, maxRequests);
    RefusalNoted(j, m);
    ReadToSql(j, m);
    H.Logs(j.sql.executor, E.Submit(j.sql.handled));
    hide E.Do;
  }

  // A request to another handler brings the client that handler's answer, and the SQL handler nothing.
  lemma OtherAnswers(states: seq<Joint>, moves: seq<Move>, ka: bool, maxRequests: nat, i: nat)
    requires History(states, moves, ka, maxRequests) && i < |moves|
    requires moves[i].Read? && moves[i].target.ToOther? && moves[i].target.answer.Some?
    requires Parse(FRESH, states[i].due.tail + moves[i].data).code == Ok
    ensures states[i + 1].sql == states[i].sql && states[i + 1].mine == states[i].mine
    ensures var d, d', r := states[i].due, states[i + 1].due, moves[i].target.answer.value;
      && |d'.replies| == |d.replies| + 1 && d'.replies[..|d.replies|] == d.replies && d'.awaiting == d.awaiting
      && d'.replies[|d.replies|].content.body == r.body
      && (100 <= r.statusCode <= 599 ==> d'.replies[|d.replies|].content.status == r.statusCode)
  {
    hide Parse, H.SystemInv, JobsInv, RunInv, Parsed, CanMove, Do;
    HistoryKeepsInv(states, moves, ka, maxRequests, i);
    var j, m := states[i], moves[i];
    assert CanMove(j, m) && states[i + 1] == Move1(j, m);
    DecidesOnTail(j, m, maxRequests);
    OtherNoted(j, m);
  }

  lemma OtherNoted(j: Joint, m: Move)
    requires m.Read? && m.target.ToOther? && m.target.answer.Some? && CanMove(j, m) && Parsed(j, m.data)
    requires Parse(FRESH, j.due.tail + m.data).code == Ok
    ensures Move1(j, m).due.awaiting == j.due.awaiting && Move1(j, m).sql == j.sql && Move1(j, m).mine == j.mine
    ensures exists alive :: Move1(j, m).due.replies == j.due.replies + [Answering(m.target.answer.value, alive)]
  {
    hide Do, Persistent, Parse, Parsed, Answering;
    var o, r := Parse(FRESH, j.due.tail + m.data), m.target.answer.value;
    var alive := j.due.enabled && Persistent(o.parser.version, o.parser.headers) && !r.closeConnection;
    assert Move1(j, m).due.replies == j.due.replies + [Answering(r, alive)];
  }

  // Every completion delivered brings the client exactly its own status and rows.
  lemma DeliveredContent(states: seq<Joint>, moves: seq<Move>, ka: bool, maxRequests: nat, i: nat)
    requires History(states, moves, ka, maxRequests) && i < |moves| && moves[i].Deliver?
    requires states[i].run.conn.link.state == Connected
    ensures moves[i].k < |states[i].sql.posted|
    ensures var d, d', c := states[i].due, states[i + 1].due, states[i].sql.posted[moves[i].k].response;
      && |d'.replies| == |d.replies| + 1 && d'.replies[..|d.replies|] == d.replies && d'.awaiting.None?
      && d'.replies[|d.replies|].content.body == c.body
      && states[i + 1].delivered == states[i].delivered + [states[i].sql.posted[moves[i].k].job]
      && (100 <= c.statusCode <= 599 ==> d'.replies[|d.replies|].content.status == c.statusCode)
  {
    HistoryKeepsInv(states, moves, ka, maxRequests, i);
    var j, m := states[i], moves[i];
    assert CanMove(j, m) && states[i + 1] == Move1(j, m);
    OnlyExpected(j, m.k);
    hide Do, StreamInv, CapInv, InInv, H.SystemInv, JobsInv;
  }

  // Once nothing is owed, the client reads exactly the responses due, each with its own body.
  lemma ClientReads(states: seq<Joint>, moves: seq<Move>, ka: bool, maxRequests: nat, i: nat)
    requires History(states, moves, ka, maxRequests) && i < |states|
    requires !states[i].run.conn.link.writeEnabled || states[i].run.conn.outLog.finished
    requires forall r | r in states[i].due.replies :: Clean(r) && |r.content.body| <= 1048576
    ensures var d := states[i].due;
      && ParseMany(|d.replies|, states[i].run.conn.outLog.sent) == (ReadAll(Messages(d.replies)), "")
      && |Messages(d.replies)| == |d.replies|
      && forall k | 0 <= k < |d.replies| :: Messages(d.replies)[k].body == d.replies[k].content.body
  {
    hide Flat, Clean, ParseMany, ReadAll, Messages, History;
    var d := states[i].due;
    ExactOutput(states, moves, ka, maxRequests, i);
    assert Flat(d.replies) + "" == Flat(d.replies);
    RepliesReadBack(d.replies, "");
  }
}
