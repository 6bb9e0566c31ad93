/** Waking a sleeping loop.  Other threads queue work under the lock and only then write one byte into
    the loop's socket pair; the loop empties the socket while it dispatches and swaps its two queues
    out, under the lock, afterwards.

    One `Step` is one thread's move between two points where it may be interrupted.  The write may be
    refused when the socket is full, poll may return at any time (another descriptor, its timeout, a
    signal), and the drain takes up to 256 bytes a read. */
module Wakeup {

  type Item = nat

  // Between a producer's push (or its store to isQuit_) and its write.
  datatype Producer = Idle | Pushed(item: Item) | Quitting

  // Where the loop thread is.
  datatype Phase = Blocked | Dispatching | BeforeTasks | BeforeCallbacks | RunningCallbacks | Checking | Exited

  datatype Loop = Loop(
    phase: Phase,
    tasks: set<Item>,               // queued by other threads, by queue
    callbacks: set<Item>,
    ownTasks: nat,                  // queued by the loop's own handlers
    ownCallbacks: nat,
    bytes: nat,                     // unread in the socket pair
    isQuit: bool,
    producers: map<nat, Producer>,
    next: Item,
    rounds: nat)                    // how often poll has returned

  const READ_CHUNK: nat := 256

  datatype Step =
    | PushTask(p: nat)
    | PushCallback(p: nat)
    | AskToQuit(p: nat)
    | WriteByte(p: nat, refused: bool)
    | PollReturns
    | Drain
    | OwnDelete                     // a handler's DELETE: queued only
    | OwnPost                       // a handler's post(): queued only
    | NestedSwapTasks               // a handler's ADD or MODIFY runs processTaskQ at once
    | NestedSwapCallbacks
    | EndDispatch
    | SwapTasks
    | SwapCallbacks
    | EndCallbacks
    | CheckQuit

  predicate Init(l: Loop) {
    && l.phase == Checking && l.tasks == {} && l.callbacks == {} && l.bytes == 0 && !l.isQuit
    && l.ownTasks == 0 && l.ownCallbacks == 0
    && forall p | p in l.producers :: l.producers[p] == Idle
  }

  // Handlers of the loop's own thread may be running.
  predicate InHandler(l: Loop) { l.phase == Dispatching || l.phase == RunningCallbacks }

  ghost predicate Enabled(l: Loop, step: Step) {
    match step
    case PushTask(p) => p in l.producers && l.producers[p] == Idle
    case PushCallback(p) => p in l.producers && l.producers[p] == Idle
    case AskToQuit(p) => p in l.producers && l.producers[p] == Idle
    case WriteByte(p, refused) => p in l.producers && l.producers[p] != Idle && (refused ==> l.bytes > 0)
    case PollReturns => l.phase == Blocked
    case Drain => l.phase == Dispatching
    case OwnDelete => InHandler(l)
    case OwnPost => InHandler(l)
    case NestedSwapTasks => InHandler(l)
    case NestedSwapCallbacks => InHandler(l)
    case EndDispatch => l.phase == Dispatching
    case SwapTasks => l.phase == BeforeTasks
    case SwapCallbacks => l.phase == BeforeCallbacks
    case EndCallbacks => l.phase == RunningCallbacks
    case CheckQuit => l.phase == Checking
  }

  function Do(l: Loop, step: Step): Loop {
    match step
    case PushTask(p) =>
      l.(tasks := l.tasks + {l.next}, producers := l.producers[p := Pushed(l.next)], next := l.next + 1)
    case PushCallback(p) =>
      l.(callbacks := l.callbacks + {l.next}, producers := l.producers[p := Pushed(l.next)], next := l.next + 1)
    case AskToQuit(p) => l.(isQuit := true, producers := l.producers[p := Quitting])
    case WriteByte(p, refused) =>
      l.(bytes := if refused then l.bytes else l.bytes + 1, producers := l.producers[p := Idle])
    case PollReturns => l.(phase := Dispatching, rounds := l.rounds + 1)
    case Drain => l.(bytes := if l.bytes < READ_CHUNK then 0 else l.bytes - READ_CHUNK)
    case OwnDelete => l.(ownTasks := l.ownTasks + 1)
    case OwnPost => l.(ownCallbacks := l.ownCallbacks + 1)
    case NestedSwapTasks => l.(tasks := {}, ownTasks := 0)
    case NestedSwapCallbacks => l.(callbacks := {}, ownCallbacks := 0)
    case EndDispatch => l.(phase := BeforeTasks)
    case SwapTasks => l.(phase := BeforeCallbacks, tasks := {}, ownTasks := 0)
    case SwapCallbacks => l.(phase := RunningCallbacks, callbacks := {}, ownCallbacks := 0)
    case EndCallbacks => l.(phase := Checking)
    case CheckQuit => l.(phase := if l.isQuit then Exited else Blocked)
  }

  ghost predicate Run(states: seq<Loop>, steps: seq<Step>) {
    && |states| == |steps| + 1 && Init(states[0])
    && forall k | 0 <= k < |steps| :: Enabled(states[k], steps[k]) && states[k + 1] == Do(states[k], steps[k])
  }

  // ------------------------------------------------------------------ the invariant

  // Some producer stands between queueing `item` and writing its byte.
  ghost predicate StillWriting(l: Loop, item: Item) {
    exists p | p in l.producers :: l.producers[p] == Pushed(item)
  }

  ghost predicate StillQuitting(l: Loop) { exists p | p in l.producers :: l.producers[p] == Quitting }

  // The loop will swap taskQ_ out, or end, before it blocks again.
  predicate WillSwapTasks(l: Loop) { l.phase in {Dispatching, BeforeTasks, Exited} }

  predicate WillSwapCallbacks(l: Loop) { l.phase in {Dispatching, BeforeTasks, BeforeCallbacks, Exited} }

  ghost predicate Inv(l: Loop) {
    && (forall i | i in l.tasks :: i < l.next && (StillWriting(l, i) || l.bytes > 0 || WillSwapTasks(l)))
    && (forall i | i in l.callbacks :: i < l.next && (StillWriting(l, i) || l.bytes > 0 || WillSwapCallbacks(l)))
    && (l.isQuit ==> StillQuitting(l) || l.bytes > 0 || l.phase != Blocked)
  }

  lemma OthersKeepWriting(l: Loop, step: Step, item: Item)
    requires Enabled(l, step) && StillWriting(l, item)
    ensures StillWriting(Do(l, step), item) || (step.WriteByte? && Do(l, step).bytes > 0)
  {
    var p :| p in l.producers && l.producers[p] == Pushed(item);
    assert Do(l, step).producers[p] == Pushed(item) || (step.WriteByte? && step.p == p);
  }

  lemma OthersKeepQuitting(l: Loop, step: Step)
    requires Enabled(l, step) && StillQuitting(l)
    ensures StillQuitting(Do(l, step)) || (step.WriteByte? && Do(l, step).bytes > 0)
  {
    var p :| p in l.producers && l.producers[p] == Quitting;
    assert Do(l, step).producers[p] == Quitting || (step.WriteByte? && step.p == p);
  }

  lemma NewItem(l: Loop, step: Step, i: Item)
    requires Inv(l) && Enabled(l, step) && (i in Do(l, step).tasks || i in Do(l, step).callbacks)
    ensures i < Do(l, step).next
    ensures i in l.tasks || i in l.callbacks || StillWriting(Do(l, step), i)
  {
    if i == l.next && (step.PushTask? || step.PushCallback?) {
      assert Do(l, step).producers[step.p] == Pushed(i);
    }
  }

  lemma NewQuit(l: Loop, step: Step)
    requires Enabled(l, step) && Do(l, step).isQuit
    ensures l.isQuit || StillQuitting(Do(l, step))
  {
    if step.AskToQuit? {
      assert Do(l, step).producers[step.p] == Quitting;
    }
  }

  lemma StepKeepsInv(l: Loop, step: Step)
    requires Inv(l) && Enabled(l, step)
    ensures Inv(Do(l, step))
  {
    var l' := Do(l, step);
    forall i | i in l'.tasks || i in l'.callbacks
      ensures i < l'.next && (i in l.tasks || i in l.callbacks || StillWriting(l', i))
      ensures StillWriting(l, i) ==> StillWriting(l', i) || l'.bytes > 0
    {
      if StillWriting(l, i) {
        OthersKeepWriting(l, step, i);
      }
      NewItem(l, step, i);
    }
    if StillQuitting(l) {
      OthersKeepQuitting(l, step);
    }
    if l'.isQuit {
      NewQuit(l, step);
    }
    hide StillWriting, StillQuitting;
  }

  lemma {:induction false} RunKeepsInv(states: seq<Loop>, steps: seq<Step>, k: nat)
    requires Run(states, steps) && k < |states|
    ensures Inv(states[k])
  {
    if k > 0 {
      RunKeepsInv(states, steps, k - 1);
      StepKeepsInv(states[k - 1], steps[k - 1]);
    }
  }

  // ------------------------------------------------------------------ theorems

  // Whenever the loop sleeps while work of another thread is queued, a byte is there to wake it, or
  // the producer of that very item is about to write one.
  lemma NoLostWakeUp(states: seq<Loop>, steps: seq<Step>, k: nat, item: Item)
    requires Run(states, steps) && k < |states| && states[k].phase == Blocked
    requires item in states[k].tasks || item in states[k].callbacks
    ensures states[k].bytes > 0 || StillWriting(states[k], item)
  {
    RunKeepsInv(states, steps, k);
  }

  // The same for a request to quit.
  lemma NoLostQuit(states: seq<Loop>, steps: seq<Step>, k: nat)
    requires Run(states, steps) && k < |states| && states[k].phase == Blocked && states[k].isQuit
    ensures states[k].bytes > 0 || StillQuitting(states[k])
  {
    RunKeepsInv(states, steps, k);
  }

  // How far the loop is with an item that was queued when it had polled `rounds` times.
  ghost predicate TakenInTime(l: Loop, rounds: nat, item: Item) {
    && item < l.next && l.rounds >= rounds
    && (item in l.tasks ==> l.rounds == rounds || (l.rounds == rounds + 1 && WillSwapTasks(l)))
    && (item in l.callbacks ==> l.rounds == rounds || (l.rounds == rounds + 1 && WillSwapCallbacks(l)))
  }

  lemma StepInTime(l: Loop, step: Step, rounds: nat, item: Item)
    requires Enabled(l, step) && TakenInTime(l, rounds, item)
    ensures TakenInTime(Do(l, step), rounds, item)
  {
  }

  lemma {:induction false} StaysInTime(states: seq<Loop>, steps: seq<Step>, j: nat, k: nat, item: Item)
    requires Run(states, steps) && j <= k < |states|
    requires TakenInTime(states[j], states[j].rounds, item)
    ensures TakenInTime(states[k], states[j].rounds, item)
    decreases k
  {
    if j < k {
      hide Do, Enabled, TakenInTime;
      StaysInTime(states, steps, j, k - 1, item);
      StepInTime(states[k - 1], steps[k - 1], states[j].rounds, item);
    }
  }

  // Once poll has returned, everything queued by then is taken before the loop sleeps again.
  lemma TakenBeforeNextSleep(states: seq<Loop>, steps: seq<Step>, j: nat, k: nat, item: Item)
    requires Run(states, steps) && j < k < |states|
    requires states[k].phase == Blocked && states[k].rounds > states[j].rounds
    requires item in states[j].tasks || item in states[j].callbacks
    ensures item !in states[k].tasks && item !in states[k].callbacks
  {
    RunKeepsInv(states, steps, j);
    StaysInTime(states, steps, j, k, item);
  }

  // ------------------------------------------------------------------ the loop's own work

  datatype Kind = OfTasks | OfCallbacks

  // What a handler does to queue something of its own, and the nested swap that takes it.
  predicate IsPush(step: Step, kind: Kind) { if kind.OfTasks? then step.OwnDelete? else step.OwnPost? }

  predicate IsSwap(step: Step, kind: Kind) {
    if kind.OfTasks? then step.NestedSwapTasks? else step.NestedSwapCallbacks?
  }

  ghost predicate NoneSince(steps: seq<Step>, kind: Kind, j: nat, k: nat)
    requires k <= |steps|
  {
    forall i | j < i < k :: !IsSwap(steps[i], kind)
  }

  // A callback of this round queued something of that kind, and no nested swap has taken it since.
  ghost predicate LeftBy(states: seq<Loop>, steps: seq<Step>, k: nat, kind: Kind, j: nat)
    requires k <= |steps| < |states|
  {
    && j < k && IsPush(steps[j], kind) && states[j].phase == RunningCallbacks && states[j].rounds == states[k].rounds
    && NoneSince(steps, kind, j, k)
  }

  ghost predicate Left(states: seq<Loop>, steps: seq<Step>, k: nat, kind: Kind)
    requires k <= |steps| < |states|
  {
    exists j: nat :: LeftBy(states, steps, k, kind, j)
  }

  lemma NoneSinceNext(steps: seq<Step>, kind: Kind, j: nat, h: nat)
    requires j < h < |steps|
    ensures NoneSince(steps, kind, j, h + 1) <==> NoneSince(steps, kind, j, h) && !IsSwap(steps[h], kind)
  {
  }

  // From h to the next state, in the same round.
  lemma LeftNext(states: seq<Loop>, steps: seq<Step>, h: nat, k: nat, kind: Kind)
    requires k == h + 1 <= |steps| < |states|
    requires states[k].rounds == states[h].rounds
    ensures Left(states, steps, k, kind) <==>
              !IsSwap(steps[h], kind)
              && (Left(states, steps, h, kind) || (IsPush(steps[h], kind) && states[h].phase == RunningCallbacks))
  {
    hide LeftBy;
    if j: nat :| LeftBy(states, steps, k, kind, j) {
      LeftBack(states, steps, h, kind, j);
    }
    if j: nat :| LeftBy(states, steps, h, kind, j) {
      LeftOn(states, steps, h, kind, j);
    }
    LeftNow(states, steps, h, kind);
  }

  lemma LeftBack(states: seq<Loop>, steps: seq<Step>, h: nat, kind: Kind, j: nat)
    requires h < |steps| < |states| && states[h + 1].rounds == states[h].rounds
    requires LeftBy(states, steps, h + 1, kind, j)
    ensures !IsSwap(steps[h], kind)
    ensures j < h ==> LeftBy(states, steps, h, kind, j)
    ensures j >= h ==> IsPush(steps[h], kind) && states[h].phase == RunningCallbacks
  {
    if j < h {
      NoneSinceNext(steps, kind, j, h);
    }
  }

  lemma LeftOn(states: seq<Loop>, steps: seq<Step>, h: nat, kind: Kind, j: nat)
    requires h < |steps| < |states| && states[h + 1].rounds == states[h].rounds
    requires LeftBy(states, steps, h, kind, j)
    ensures !IsSwap(steps[h], kind) ==> LeftBy(states, steps, h + 1, kind, j)
  {
    NoneSinceNext(steps, kind, j, h);
  }

  lemma LeftNow(states: seq<Loop>, steps: seq<Step>, h: nat, kind: Kind)
    requires h < |steps| < |states| && states[h + 1].rounds == states[h].rounds
    ensures IsPush(steps[h], kind) && states[h].phase == RunningCallbacks ==> LeftBy(states, steps, h + 1, kind, h)
  {
  }

  lemma {:induction false} RoundsGrow(states: seq<Loop>, steps: seq<Step>, j: nat, k: nat)
    requires Run(states, steps) && j <= k < |states|
    ensures states[j].rounds <= states[k].rounds
    decreases k
  {
    if j < k {
      RoundsGrow(states, steps, j, k - 1);
    }
  }

  // Early in a round: its callbacks have not run yet.
  predicate Early(l: Loop) { l.phase in {Dispatching, BeforeTasks, BeforeCallbacks} }

  lemma EarlyStep(l: Loop, step: Step)
    requires Enabled(l, step) && Early(Do(l, step))
    ensures Do(l, step).rounds == l.rounds ==> Early(l) && l.phase != RunningCallbacks
    ensures Do(l, step).rounds != l.rounds ==> Do(l, step).rounds > l.rounds
  {
  }

  lemma {:induction false} NoneYet(states: seq<Loop>, steps: seq<Step>, j: nat, k: nat)
    requires Run(states, steps) && j < k < |states| && Early(states[k]) && states[j].rounds == states[k].rounds
    ensures states[j].phase != RunningCallbacks
    decreases k
  {
    hide Do, Enabled, Early;
    EarlyStep(states[k - 1], steps[k - 1]);
    RoundsGrow(states, steps, j, k - 1);
    if j < k - 1 {
      NoneYet(states, steps, j, k - 1);
    }
  }

  lemma NothingLeft(states: seq<Loop>, steps: seq<Step>, k: nat, kind: Kind)
    requires Run(states, steps) && k < |states| && Early(states[k])
    ensures !Left(states, steps, k, kind)
  {
    forall j: nat ensures !LeftBy(states, steps, k, kind, j) {
      if j < k && states[j].rounds == states[k].rounds {
        NoneYet(states, steps, j, k);
      }
    }
  }

  lemma {:induction false} SwappedOut(states: seq<Loop>, steps: seq<Step>, k: nat)
    requires Run(states, steps) && k < |states| && states[k].phase == BeforeCallbacks
    ensures states[k].ownTasks == 0
  {
    if k > 0 {
      assert Enabled(states[k - 1], steps[k - 1]);
      if states[k - 1].phase == BeforeCallbacks {
        SwappedOut(states, steps, k - 1);
      }
    }
  }

  function Own(l: Loop, kind: Kind): nat { if kind.OfTasks? then l.ownTasks else l.ownCallbacks }

  // What a step late in the round does to the loop's own work.
  lemma LateStep(l: Loop, step: Step, kind: Kind)
    requires Enabled(l, step) && !Early(Do(l, step))
    ensures Do(l, step).rounds == l.rounds
    ensures Early(l) ==> l.phase == BeforeCallbacks && !IsSwap(step, kind) && !IsPush(step, kind)
    ensures Early(l) ==> Own(Do(l, step), kind) == if kind.OfTasks? then l.ownTasks else 0
    ensures !Early(l) ==>
              (Own(Do(l, step), kind) > 0 <==>
               !IsSwap(step, kind) && (Own(l, kind) > 0 || (IsPush(step, kind) && l.phase == RunningCallbacks)))
  {
  }

  lemma {:induction false} OwnWorkAsSaid(states: seq<Loop>, steps: seq<Step>, k: nat, kind: Kind)
    requires Run(states, steps) && k < |states| && !Early(states[k])
    ensures Own(states[k], kind) > 0 <==> Left(states, steps, k, kind)
  {
    if k > 0 {
      var l, step := states[k - 1], steps[k - 1];
      assert Enabled(l, step) && states[k] == Do(l, step);
      hide Left, Do, Enabled, IsPush, IsSwap;
      LateStep(l, step, kind);
      LeftNext(states, steps, k - 1, k, kind);
      if Early(l) {
        SwappedOut(states, steps, k - 1);
        NothingLeft(states, steps, k - 1, kind);
      } else {
        OwnWorkAsSaid(states, steps, k - 1, kind);
      }
    }
  }

  // Work the loop's own thread queues carries no byte.  In a sleeping loop a DELETE or a posted callback of
  // its own waits exactly if a callback queued it after the round's swaps and no nested processTaskQ
  // took it.  What a handler queues while dispatching never waits.
  lemma OwnWorkWaitsExactly(states: seq<Loop>, steps: seq<Step>, k: nat)
    requires Run(states, steps) && k < |states| && states[k].phase == Blocked
    ensures states[k].ownTasks > 0 <==>
              exists j: nat :: LeftBy(states, steps, k, OfTasks, j)
    ensures states[k].ownCallbacks > 0 <==>
              exists j: nat :: LeftBy(states, steps, k, OfCallbacks, j)
  {
    OwnWorkAsSaid(states, steps, k, OfTasks);
    OwnWorkAsSaid(states, steps, k, OfCallbacks);
  }

  // And then it may, with nothing to wake the loop before poll's timeout.
  lemma OwnWorkMayWait() returns (states: seq<Loop>, steps: seq<Step>)
    ensures Run(states, steps)
    ensures var l := states[|steps|];
      l.phase == Blocked && l.ownTasks > 0 && l.ownCallbacks > 0 && l.bytes == 0 && l.producers == map[]
  {
    states, steps := ReachCallbacks();
    states, steps := Then(states, steps, OwnDelete);
    states, steps := Then(states, steps, OwnPost);
    states, steps := Then(states, steps, EndCallbacks);
    states, steps := Then(states, steps, CheckQuit);
  }

  lemma ReachCallbacks() returns (states: seq<Loop>, steps: seq<Step>)
    ensures Run(states, steps)
    ensures states[|steps|] == Loop(RunningCallbacks, {}, {}, 0, 0, 0, false, map[], 0, 1)
  {
    states, steps := [Loop(Checking, {}, {}, 0, 0, 0, false, map[], 0, 0)], [];
    states, steps := Then(states, steps, CheckQuit);
    states, steps := Then(states, steps, PollReturns);
    states, steps := Then(states, steps, EndDispatch);
    states, steps := Then(states, steps, SwapTasks);
    states, steps := Then(states, steps, SwapCallbacks);
  }

  lemma Then(states: seq<Loop>, steps: seq<Step>, step: Step) returns (states': seq<Loop>, steps': seq<Step>)
    requires Run(states, steps) && Enabled(states[|steps|], step)
    ensures Run(states', steps') && states'[|steps'|] == Do(states[|steps|], step)
  {
    states', steps' := states + [Do(states[|steps|], step)], steps + [step];
  }
}
