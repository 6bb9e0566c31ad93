/** The SQL executor: a job queue, one worker thread, and an owner that starts and stops it.

    One `Step` is one thread's move between two points where it may be interrupted: taking the lock,
    an atomic flag, a notification, a join.  Waiting on the condition variable is modelled with its
    sleep: a sleeping worker moves only when notified or spuriously woken. */
module Executor {

  type JobId = nat

  // The owner's place in start() or stop().
  datatype Owner = Idle | Opening | Spawning | Halting | Notifying | Joining

  datatype Worker = NoThread | Ready | Asleep | Busy(job: JobId) | Ended

  datatype State = State(
    running: bool,
    stopping: bool,
    queue: seq<JobId>,
    worker: Worker,
    owner: Owner,
    accepted: seq<JobId>,       // every job submit() took, in order
    done: seq<JobId>,           // every job that ran to its end, in order
    started: bool)              // whether start() ever ran

  datatype Step =
    | StartCall                 // running_.exchange(true)
    | Open                      // stopping_ = false
    | Spawn
    | StopCall                  // running_.exchange(false)
    | Halt                      // stopping_ = true
    | Notify
    | Join
    | Submit(job: JobId)
    | Look                      // the worker takes the lock and evaluates its wait condition
    | SpuriousWake
    | Finish                    // the job returned or threw

  predicate Init(e: State) {
    e == State(false, false, [], NoThread, Idle, [], [], false)
  }

  predicate Enabled(e: State, step: Step) {
    match step
    case StartCall => e.owner == Idle
    case Open => e.owner == Opening
    case Spawn => e.owner == Spawning
    case StopCall => e.owner == Idle
    case Halt => e.owner == Halting
    case Notify => e.owner == Notifying
    case Join => e.owner == Joining && e.worker == Ended
    case Submit(_) => true
    case Look => e.worker == Ready
    case SpuriousWake => e.worker == Asleep
    case Finish => e.worker.Busy?
  }

  function Notified(w: Worker): Worker { if w == Asleep then Ready else w }

  function Do(e: State, step: Step): State
    requires Enabled(e, step)
  {
    match step
    case StartCall => if e.running then e else e.(running := true, owner := Opening, started := true)
    case Open => e.(stopping := false, owner := Spawning)
    case Spawn => e.(worker := Ready, owner := Idle)
    case StopCall => if !e.running then e else e.(running := false, owner := Halting)
    case Halt => e.(stopping := true, owner := Notifying)
    case Notify => e.(worker := Notified(e.worker), owner := Joining)
    case Join => e.(worker := NoThread, owner := Idle)
    case Submit(job) =>
      if e.stopping then e
      else e.(queue := e.queue + [job], worker := Notified(e.worker), accepted := e.accepted + [job])
    case Look =>
      if e.queue != [] then e.(worker := Busy(e.queue[0]), queue := e.queue[1..])
      else if e.stopping then e.(worker := Ended)
      else e.(worker := Asleep)
    case SpuriousWake => e.(worker := Ready)
    case Finish => e.(done := e.done + [e.worker.job], worker := Ready)
  }

  ghost predicate Run(states: seq<State>, steps: seq<Step>) {
    && |states| == |steps| + 1 && Init(states[0])
    && forall k | 0 <= k < |steps| :: Enabled(states[k], steps[k]) && states[k + 1] == Do(states[k], steps[k])
  }

  // ------------------------------------------------------------------ the invariant

  function Current(w: Worker): seq<JobId> { if w.Busy? then [w.job] else [] }

  // Every accepted job has run, is running or is queued; once each, in the order of submission.
  predicate Conserved(e: State) {
    e.accepted == e.done + Current(e.worker) + e.queue
  }

  // Which thread exists, and which flags are set, at each place of the owner.
  predicate OwnerInv(e: State) {
    match e.owner
    case Idle =>
      && (e.running <==> e.worker != NoThread) && !(e.running && e.stopping)
      && e.started == (e.running || e.stopping)
    case Opening => e.running && e.worker == NoThread && e.started
    case Spawning => e.running && e.worker == NoThread && e.started && !e.stopping
    case Halting => !e.running && e.worker != NoThread && e.started && !e.stopping
    case Notifying => !e.running && e.worker != NoThread && e.started && e.stopping
    case Joining => !e.running && e.worker != NoThread && e.started && e.stopping
  }

  predicate Inv(e: State) {
    && Conserved(e) && OwnerInv(e)
    && (e.worker == Ended ==> e.stopping && e.owner in {Notifying, Joining})
    && (e.worker == Ended || (e.worker == NoThread && e.stopping) ==> e.queue == [])
    && (e.worker == Asleep ==> (e.queue == [] && !e.stopping) || e.owner == Notifying)
    && (e.worker == Asleep ==> e.queue == [])
  }

  lemma StepKeepsInv(e: State, step: Step)
    requires Inv(e) && Enabled(e, step)
    ensures Inv(Do(e, step))
  {
    if step.Look? && e.queue != [] {
      assert e.queue == [e.queue[0]] + e.queue[1..];
    }
  }

  lemma {:induction false} RunKeepsInv(states: seq<State>, steps: seq<Step>, k: nat)
    requires Run(states, steps) && k < |states|
    ensures Inv(states[k])
  {
    if k > 0 {
      RunKeepsInv(states, steps, k - 1);
      StepKeepsInv(states[k - 1], steps[k - 1]);
    }
  }

  // ------------------------------------------------------------------ theorems

  // In every run the jobs that ran are a prefix of the jobs accepted: each exactly once, in order.
  lemma RunsInOrder(states: seq<State>, steps: seq<Step>, k: nat)
    requires Run(states, steps) && k < |states|
    ensures states[k].accepted == states[k].done + Current(states[k].worker) + states[k].queue
    ensures states[k].done <= states[k].accepted
  {
    RunKeepsInv(states, steps, k);
  }

  // stop() returns from its join only when every accepted job has run.
  lemma StopDrains(states: seq<State>, steps: seq<Step>, k: nat)
    requires Run(states, steps) && k < |steps| && steps[k].Join?
    ensures states[k + 1].done == states[k + 1].accepted
  {
    RunKeepsInv(states, steps, k);
  }

  // At rest and not running, everything accepted has run exactly when the executor was ever started
  // or nothing was submitted: jobs are taken, but not run, before the first start().
  lemma RestingMeansDone(states: seq<State>, steps: seq<Step>, k: nat)
    requires Run(states, steps) && k < |states|
    requires states[k].owner == Idle && !states[k].running
    ensures states[k].done == states[k].accepted <==> states[k].started || states[k].accepted == []
  {
    RunKeepsInv(states, steps, k);
    if !states[k].started {
      NeverStarted(states, steps, k);
    }
  }

  lemma {:induction false} NeverStarted(states: seq<State>, steps: seq<Step>, k: nat)
    requires Run(states, steps) && k < |states| && !states[k].started
    ensures states[k].done == [] && states[k].worker == NoThread
  {
    if k > 0 {
      NeverStarted(states, steps, k - 1);
      RunKeepsInv(states, steps, k - 1);
    }
  }

  // A submission is refused exactly from the moment stop() has set its flag until the next start() clears
  // it; at any other time the job is accepted.
  lemma {:induction false} RefusedExactlyAfterStop(states: seq<State>, steps: seq<Step>, k: nat)
    requires Run(states, steps) && k < |states|
    ensures states[k].stopping <==> StoppedAt(steps, k)
    ensures forall job :: Do(states[k], Submit(job)).accepted ==
              if StoppedAt(steps, k) then states[k].accepted else states[k].accepted + [job]
  {
    if k > 0 {
      RefusedExactlyAfterStop(states, steps, k - 1);
      StoppedNext(steps, k - 1, k);
    }
  }

  ghost predicate StoppedAt(steps: seq<Step>, k: nat)
    requires k <= |steps|
  {
    exists j: nat :: StoppedBy(steps, j, k)
  }

  // The j-th step set the flag, and none since has cleared it.
  ghost predicate StoppedBy(steps: seq<Step>, j: nat, k: nat)
    requires k <= |steps|
  {
    j < k && steps[j].Halt? && forall i | j < i < k :: !steps[i].Open?
  }

  lemma StoppedNext(steps: seq<Step>, h: nat, k: nat)
    requires k == h + 1 <= |steps|
    ensures StoppedAt(steps, k) <==> steps[h].Halt? || (StoppedAt(steps, h) && !steps[h].Open?)
  {
    if j: nat :| StoppedBy(steps, j, k) {
      assert j < h ==> StoppedBy(steps, j, h) && !steps[h].Open?;
    }
    if j: nat :| StoppedBy(steps, j, h) {
      assert !steps[h].Open? ==> StoppedBy(steps, j, k);
    }
    assert steps[h].Halt? ==> StoppedBy(steps, h, k);
  }

  // A job taken before the first start() waits, and nothing has run it.
  lemma JobBeforeStart(job: JobId) returns (states: seq<State>, steps: seq<Step>)
    ensures Run(states, steps) && |steps| == 1
    ensures var e := states[1];
      e.owner == Idle && !e.running && !e.started && e.accepted == [job] && e.queue == [job] && e.done == []
  {
    var start := State(false, false, [], NoThread, Idle, [], [], false);
    steps := [Submit(job)];
    states := [start, Do(start, Submit(job))];
  }

  // A sleeping worker has nothing to do, or the notification is on its way.
  lemma NoLostNotification(states: seq<State>, steps: seq<Step>, k: nat)
    requires Run(states, steps) && k < |states| && states[k].worker == Asleep
    ensures states[k].queue == [] && (states[k].stopping ==> states[k].owner == Notifying)
  {
    RunKeepsInv(states, steps, k);
  }

  // start() never assigns a thread over one that is still joinable.
  lemma ThreadSlotIsFree(states: seq<State>, steps: seq<Step>, k: nat)
    requires Run(states, steps) && k < |steps| && steps[k].Spawn?
    ensures states[k].worker == NoThread
  {
    RunKeepsInv(states, steps, k);
  }

  // How many moves the worker has left once no job can be added.
  function Remaining(e: State): nat {
    2 * |e.queue| + match e.worker case Busy(_) => 2 case Ready => 1 case _ => 0
  }

  // stop() cannot hang in its join: until the worker has ended it can move, each move brings the end
  // nearer, and nobody else can put it off.
  lemma JoinComesToAnEnd(states: seq<State>, steps: seq<Step>, k: nat)
    requires Run(states, steps) && k < |steps| && states[k].owner == Joining
    ensures states[k].worker != Ended ==> Enabled(states[k], Look) || Enabled(states[k], Finish)
    ensures steps[k].Look? || steps[k].Finish? ==> Remaining(states[k + 1]) < Remaining(states[k])
    ensures steps[k].Join? || Remaining(states[k + 1]) <= Remaining(states[k])
  {
    RunKeepsInv(states, steps, k);
  }
}
