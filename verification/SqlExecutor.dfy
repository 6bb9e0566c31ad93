/** The executor object.  Its methods change their fields in place, a critical section at a time; between
    two of them the other threads may have done anything they can.  Each section is the step of the
    same name in Executor. */
module SqlExecutorModule {
  import opened Executor

  class SqlExecutor {
    var running: bool
    var stopping: bool
    var jobQueue: seq<JobId>
    var worker: Worker            // where the worker thread stands
    var owner: Owner              // where the thread that starts and stops it stands
    ghost var accepted: seq<JobId>
    ghost var done: seq<JobId>
    ghost var started: bool

    ghost function Fields(): State
      reads this
    {
      State(running, stopping, jobQueue, worker, owner, accepted, done, started)
    }

    ghost predicate Valid()
      reads this
    {
      Inv(Fields())
    }

    constructor ()
      ensures Init(Fields()) && Valid()
    {
      running, stopping, jobQueue, worker := false, false, [], NoThread;
      owner, accepted, done, started := Idle, [], [], false;
    }

    method Submit(job: JobId) returns (ok: bool)
      requires Valid()
      modifies this`jobQueue, this`worker, this`accepted
      ensures Valid() && Fields() == Do(old(Fields()), Step.Submit(job)) && ok == !stopping
    {
      StepKeepsInv(Fields(), Step.Submit(job));
      if stopping {
        return false;
      }
      jobQueue := jobQueue + [job];
      accepted := accepted + [job];
      worker := Notified(worker);
      return true;
    }

    // The worker's wait and the end of its loop body's critical section.
    method LookForJob()
      requires Valid() && worker == Ready
      modifies this`jobQueue, this`worker
      ensures Valid() && Fields() == Do(old(Fields()), Look)
    {
      StepKeepsInv(Fields(), Look);
      if !(stopping || jobQueue != []) {
        worker := Asleep;
      } else if stopping && jobQueue == [] {
        worker := Ended;
      } else {
        worker := Busy(jobQueue[0]);
        jobQueue := jobQueue[1..];
      }
    }

    // The job returned or threw: either way the loop goes on.
    method FinishJob()
      requires Valid() && worker.Busy?
      modifies this`done, this`worker
      ensures Valid() && Fields() == Do(old(Fields()), Finish)
    {
      StepKeepsInv(Fields(), Finish);
      done := done + [worker.job];
      worker := Ready;
    }

    // What other threads leave alone, and what they may only extend.
    twostate predicate OwnerKept()
      reads this
    {
      && running == old(running) && stopping == old(stopping) && owner == old(owner) && started == old(started)
      && old(accepted) <= accepted && old(done) <= done && (worker == NoThread <==> old(worker) == NoThread)
    }

    // While the owner is between two of its sections: submissions and the worker.
    method Others()
      requires Valid()
      modifies this`jobQueue, this`worker, this`accepted, this`done
      ensures Valid() && OwnerKept()
    {
      var n: nat := *;
      while n > 0
        invariant Valid() && OwnerKept()
      {
        if {
          case worker == Ready =>
            LookForJob();
          case worker.Busy? =>
            FinishJob();
          case worker == Asleep =>
            StepKeepsInv(Fields(), SpuriousWake);
            worker := Ready;
          case true =>
            var job: JobId := *;
            var _ := Submit(job);
        }
        n := n - 1;
      }
    }

    method Start()
      requires Valid() && owner == Idle
      modifies this
      ensures Valid() && owner == Idle && running && !stopping && worker != NoThread
      ensures old(accepted) <= accepted && old(done) <= done
    {
      if running {
        return;
      }
      StepKeepsInv(Fields(), StartCall);
      running, owner, started := true, Opening, true;
      Others();
      StepKeepsInv(Fields(), Open);
      stopping, owner := false, Spawning;
      Others();
      StepKeepsInv(Fields(), Spawn);
      worker, owner := Ready, Idle;
    }

    // When stop() has stopped a running executor, every job ever accepted has run, once, in order.
    method Stop()
      requires Valid() && owner == Idle
      modifies this
      ensures Valid() && owner == Idle && !running && worker == NoThread
      ensures old(running) ==> stopping && jobQueue == [] && done == accepted
      ensures old(accepted) <= accepted && old(done) <= done
    {
      if !running {
        return;
      }
      AskToStop();
      AwaitWorker();
      StepKeepsInv(Fields(), Join);
      worker, owner := NoThread, Idle;
    }

    // Up to the notification.
    method AskToStop()
      requires Valid() && owner == Idle && running
      modifies this
      ensures Valid() && owner == Joining && !running && stopping
      ensures old(accepted) <= accepted && old(done) <= done
    {
      hide Inv;
      StepKeepsInv(Fields(), StopCall);
      running, owner := false, Halting;
      Others();
      StepKeepsInv(Fields(), Halt);
      stopping, owner := true, Notifying;
      Others();
      StepKeepsInv(Fields(), Notify);
      worker, owner := Notified(worker), Joining;
    }

    // join(): the worker drains the queue and ends.  Submissions are refused by now.
    method AwaitWorker()
      requires Valid() && owner == Joining
      modifies this`jobQueue, this`worker, this`done
      ensures Valid() && OwnerKept() && worker == Ended && accepted == old(accepted)
    {
      while worker != Ended
        invariant Valid() && OwnerKept() && accepted == old(accepted)
        decreases Remaining(Fields())
      {
        if worker == Ready {
          LookForJob();
        } else {
          FinishJob();
        }
      }
    }

    // run_(), for at most `rounds` turns of its loop; the owner and the submitters act in between.  A
    // sleeping worker waits for one of them to notify it.
    method Run(rounds: nat) returns (ended: bool)
      requires Valid() && worker == Ready
      modifies this
      ensures Valid() && old(accepted) <= accepted && old(done) <= done
      ensures ended ==> worker == Ended && stopping && jobQueue == [] && done == accepted
    {
      var n := rounds;
      while n > 0
        invariant Valid() && (worker == Ready || worker == Asleep)
        invariant old(accepted) <= accepted && old(done) <= done
      {
        if worker == Ready {
          LookForJob();
        }
        if worker == Ended {
          return true;
        }
        if worker.Busy? {
          RestOfProgram();
          FinishJob();
        }
        RestOfProgram();
        n := n - 1;
      }
      return false;
    }

    // While the worker is between two of its sections: submissions and the owner.
    method RestOfProgram()
      requires Valid() && worker != NoThread && worker != Ended
      modifies this
      ensures Valid() && old(accepted) <= accepted && done == old(done)
      ensures worker == old(worker) || (old(worker) == Asleep && worker == Ready)
    {
      var n: nat := *;
      while n > 0
        invariant Valid() && old(accepted) <= accepted && done == old(done)
        invariant worker == old(worker) || (old(worker) == Asleep && worker == Ready)
      {
        if {
          case owner == Idle && running =>
            StepKeepsInv(Fields(), StopCall);
            running, owner := false, Halting;
          case owner == Halting =>
            StepKeepsInv(Fields(), Halt);
            stopping, owner := true, Notifying;
          case owner == Notifying =>
            StepKeepsInv(Fields(), Notify);
            worker, owner := Notified(worker), Joining;
          case true =>
            var job: JobId := *;
            var _ := Submit(job);
        }
        n := n - 1;
      }
    }
  }
}
