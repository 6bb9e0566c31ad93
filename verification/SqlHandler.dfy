/** Answering SQL requests.  A request is answered at once, or handed to the executor as a job whose
    completion is posted back to the connection's loop.

    Whether a statement counts as read-only is part of the request.  Job numbers are the numbers of the
    requests. */
module SqlHandlerModule {
  import opened Executor
  import opened SqlExecutorModule
  import opened SqlParam
  import opened ThreadLocalSqlConn

  datatype Request = Request(get: bool, url: string, isReadOnly: bool)

  datatype Answer =
    | MethodNotAllowed | MissingSql | NotReadOnly | Unavailable       // 405, 400, 403, 503
    | Async                                                           // answered later

  datatype Response = Response(statusCode: nat, body: string)

  datatype Completion = Completion(job: JobId, response: Response)

  // The job's body: one try around the use of the connection and the post of its result, and two catches.
  // Whatever the driver does, exactly one completion is posted; it is a 200 exactly if the query ran and
  // brought rows.
  method RunJob(job: JobId, tls: ThreadLocalSingleConn, now: nat, later: nat, d: Driver)
    returns (posted: seq<Completion>, ghost calls: seq<Call>)
    requires tls.Valid() && tls.ClockAt(now) && now <= later
    modifies tls
    ensures tls.Valid() && tls.ClockAt(later)
    ensures |posted| == 1 && posted[0].job == job
    ensures posted[0].response.statusCode == 200 || posted[0].response.statusCode == 500
    ensures posted[0].response.statusCode == 200 <==> Query in calls && Succeeds(d.query)
    ensures posted[0].response.statusCode == 200 ==> posted[0].response.body == d.query.result.value
    ensures Query in calls && d.query.Returned? && d.query.result.Bad? ==>
              posted[0].response.body == d.query.result.message
    ensures Query in calls && d.query.Threw? ==> posted[0].response.body == Told(d.query.e)
    ensures Query !in calls ==>
              exists e :: tls.Throws(old(tls.NeedsMaking(now)), d, e) && posted[0].response.body == Told(e)
    ensures Query in calls <==> (old(tls.NeedsMaking(now)) ==> tls.Makes(d)) && tls.PingPasses(d)
    ensures Query in calls && tls.cfg.pingBeforeUse ==> Succeeds(d.ping)
  {
    posted := [];
    var outcome;
    outcome, calls := tls.WithConnection(now, later, d);
    match outcome {
      case Returned(Good(rows)) => posted := posted + [Completion(job, Response(200, rows))];
      case Returned(Bad(message)) => posted := posted + [Completion(job, Response(500, message))];
      case Threw(StdException(message)) => posted := posted + [PostSqlError(job, message)];
      case Threw(OtherException) => posted := posted + [PostSqlError(job, "unknown SQL execution error")];
    }
  }

  // What the client is told of an exception.
  ghost function Told(e: Exception): string {
    match e
    case StdException(message) => message
    case OtherException => "unknown SQL execution error"
  }

  function PostSqlError(job: JobId, message: string): Completion { Completion(job, Response(500, message)) }

  // What is decided before anything is submitted.
  function Check(readOnly: bool, r: Request): Answer {
    if !r.get then MethodNotAllowed
    else if SqlOf(r.url) == [] then MissingSql
    else if readOnly && !r.isReadOnly then NotReadOnly
    else Async
  }

  // submit() refuses only while the executor is stopping; then the request is answered at once.
  function AnswerTo(readOnly: bool, r: Request, e: Executor.State): Answer {
    if Check(readOnly, r).Async? && e.stopping then Unavailable else Check(readOnly, r)
  }

  class SqlHandler {
    const executor: SqlExecutor
    const readOnly: bool

    constructor (executor: SqlExecutor, readOnly: bool)
      ensures this.executor == executor && this.readOnly == readOnly
    {
      this.executor := executor;
      this.readOnly := readOnly;
    }

    method Handle(r: Request, id: JobId) returns (answer: Answer)
      requires executor.Valid()
      modifies executor
      ensures executor.Valid() && answer == AnswerTo(readOnly, r, old(executor.Fields()))
      ensures answer == if !r.get then MethodNotAllowed
                        else if SqlOf(r.url) == "" then MissingSql
                        else if readOnly && !r.isReadOnly then NotReadOnly
                        else if old(executor.stopping) then Unavailable
                        else Async
      ensures executor.Fields() ==
                if r.get && SqlOf(r.url) != "" && (readOnly ==> r.isReadOnly) then
                  Do(old(executor.Fields()), Submit(id))
                else old(executor.Fields())
      ensures answer.Async? <==> executor.accepted == old(executor.accepted) + [id]
    {
      assert |executor.accepted + [id]| == |executor.accepted| + 1;
      if !r.get {
        return MethodNotAllowed;
      }
      var sql := ExtractSqlParam(r.url);
      if sql == [] {
        return MissingSql;
      }
      if readOnly && !r.isReadOnly {
        return NotReadOnly;
      }
      answer := Async;
      var submitted := executor.Submit(id);
      if !submitted {
        answer := Unavailable;
      }
    }
  }

  // ------------------------------------------------------------------ the whole exchange

  datatype System = System(
    readOnly: bool,
    executor: Executor.State,
    handled: nat,                     // requests handled so far, numbered from 0
    refused: seq<JobId>,              // those answered at once
    posted: seq<Completion>)

  datatype Move =
    | HandleRequest(r: Request)
    | FinishJob(response: Response)   // RunJob: one completion, whatever it says
    | ExecutorMove(step: Step)        // any other move of the executor's threads

  ghost predicate Initial(s: System) { Init(s.executor) && s.handled == 0 && s.refused == [] && s.posted == [] }

  predicate CanMove(s: System, m: Move) {
    match m
    case HandleRequest(_) => true
    case FinishJob(_) => Enabled(s.executor, Finish)
    case ExecutorMove(step) => !step.Submit? && !step.Finish? && Enabled(s.executor, step)
  }

  function After(s: System, m: Move): System
    requires CanMove(s, m)
  {
    match m
    case HandleRequest(r) =>
      if AnswerTo(s.readOnly, r, s.executor).Async? then
        s.(executor := Do(s.executor, Submit(s.handled)), handled := s.handled + 1)
      else
        s.(refused := s.refused + [s.handled], handled := s.handled + 1)
    case FinishJob(response) =>
      s.(executor := Do(s.executor, Finish),
         posted := s.posted + [Completion(s.executor.worker.job, response)])
    case ExecutorMove(step) => s.(executor := Do(s.executor, step))
  }

  // The worker's turn at a job, with whatever the driver does: it is the move FinishJob, which posts what
  // RunJob posted.
  method WorkerTurn(s: System, tls: ThreadLocalSingleConn, now: nat, later: nat, d: Driver)
    returns (posted: seq<Completion>, ghost m: Move, ghost calls: seq<Call>)
    requires Enabled(s.executor, Finish) && tls.Valid() && tls.ClockAt(now) && now <= later
    modifies tls
    ensures tls.Valid() && tls.ClockAt(later) && m.FinishJob? && CanMove(s, m)
    ensures After(s, m).posted == s.posted + posted
    ensures m.response.statusCode == 200 <==> Query in calls && Succeeds(d.query)
  {
    posted, calls := RunJob(s.executor.worker.job, tls, now, later, d);
    m := FinishJob(posted[0].response);
  }

  ghost predicate Exchange(states: seq<System>, moves: seq<Move>) {
    && |states| == |moves| + 1 && Initial(states[0])
    && forall k | 0 <= k < |moves| :: CanMove(states[k], moves[k]) && states[k + 1] == After(states[k], moves[k])
  }

  function Jobs(posted: seq<Completion>): seq<JobId> {
    if posted == [] then [] else Jobs(posted[..|posted| - 1]) + [posted[|posted| - 1].job]
  }

  // Of the first n numbers each once, and no other.
  ghost predicate EachOnce(a: seq<JobId>, b: seq<JobId>, n: nat) {
    forall id: nat :: multiset(a)[id] + multiset(b)[id] == if id < n then 1 else 0
  }

  lemma OneMore(a: seq<JobId>, b: seq<JobId>, n: nat)
    requires EachOnce(a, b, n)
    ensures EachOnce(a + [n], b, n + 1) && EachOnce(a, b + [n], n + 1)
  {
  }

  ghost predicate SystemInv(s: System) {
    && Inv(s.executor) && Jobs(s.posted) == s.executor.done
    && EachOnce(s.refused, s.executor.accepted, s.handled)
  }

  lemma JobsAppend(posted: seq<Completion>, c: Completion)
    ensures Jobs(posted + [c]) == Jobs(posted) + [c.job]
  {
    assert (posted + [c])[..|posted|] == posted;
  }

  // What the executor's moves do to its two logs.
  lemma Logs(e: Executor.State, step: Step)
    requires Enabled(e, step)
    ensures var e' := Do(e, step);
      && (e'.accepted == if step.Submit? && !e.stopping then e.accepted + [step.job] else e.accepted)
      && (e'.done == if step.Finish? then e.done + [e.worker.job] else e.done)
  {
  }

  lemma MoveKeepsInv(s: System, m: Move)
    requires SystemInv(s) && CanMove(s, m)
    ensures SystemInv(After(s, m))
  {
    hide Inv, Do, Check, EachOnce, Jobs;
    match m {
      case HandleRequest(r) =>
        StepKeepsInv(s.executor, Submit(s.handled));
        Logs(s.executor, Submit(s.handled));
        OneMore(s.refused, s.executor.accepted, s.handled);
      case FinishJob(response) =>
        StepKeepsInv(s.executor, Finish);
        Logs(s.executor, Finish);
        JobsAppend(s.posted, Completion(s.executor.worker.job, response));
      case ExecutorMove(step) =>
        StepKeepsInv(s.executor, step);
        Logs(s.executor, step);
    }
  }

  lemma {:induction false} ExchangeKeepsInv(states: seq<System>, moves: seq<Move>, k: nat)
    requires Exchange(states, moves) && k < |states|
    ensures SystemInv(states[k])
  {
    if k > 0 {
      ExchangeKeepsInv(states, moves, k - 1);
      MoveKeepsInv(states[k - 1], moves[k - 1]);
    }
  }

  // Every request handled so far is answered at once or is a job; a job has posted exactly one
  // completion, or is running, or is queued.  Nothing is answered twice, nothing is forgotten.
  lemma AnsweredExactlyOnce(states: seq<System>, moves: seq<Move>, k: nat, id: JobId)
    requires Exchange(states, moves) && k < |states|
    ensures var s := states[k];
      var pending := Current(s.executor.worker) + s.executor.queue;
      multiset(s.refused)[id] + multiset(Jobs(s.posted))[id] + multiset(pending)[id] == if id < s.handled then 1 else 0
  {
    ExchangeKeepsInv(states, moves, k);
    var s := states[k];
    var pending := Current(s.executor.worker) + s.executor.queue;
    assert s.executor.accepted == Jobs(s.posted) + pending;
  }

  // Completions are posted in the order the jobs were accepted; once stop() has joined its worker
  // every accepted request has been completed.
  lemma CompletedWhenStopped(states: seq<System>, moves: seq<Move>, k: nat)
    requires Exchange(states, moves) && k < |states|
    ensures Jobs(states[k].posted) <= states[k].executor.accepted
    ensures k < |moves| && moves[k] == ExecutorMove(Join) ==> Jobs(states[k].posted) == states[k].executor.accepted
  {
    ExchangeKeepsInv(states, moves, k);
  }
}
