/** The wake-up protocol in terms of what the threads did: which pushes a queue still holds, whose byte is missing,
    and what the bytes in the socket pair are. */
module WakeupHistory {
  import opened Wakeup

  predicate Pushes(step: Step, kind: Kind, p: nat) {
    if kind.OfTasks? then step == PushTask(p) else step == PushCallback(p)
  }

  // The swap of a round, or that of a nested processTaskQ.
  predicate Swaps(step: Step, kind: Kind) {
    if kind.OfTasks? then step.SwapTasks? || step.NestedSwapTasks? else step.SwapCallbacks? || step.NestedSwapCallbacks?
  }

  function Queue(l: Loop, kind: Kind): set<Item> { if kind.OfTasks? then l.tasks else l.callbacks }

  // Step j is producer p's push of `item`.
  ghost predicate PushedAt(states: seq<Loop>, steps: seq<Step>, kind: Kind, p: nat, item: Item, j: nat)
    requires |steps| <= |states|
  {
    j < |steps| && Pushes(steps[j], kind, p) && states[j].next == item
  }

  ghost predicate NoSwapSince(steps: seq<Step>, kind: Kind, j: nat, k: nat)
    requires k <= |steps|
  {
    forall i | j < i < k :: !Swaps(steps[i], kind)
  }

  ghost predicate NoWriteSince(steps: seq<Step>, p: nat, j: nat, k: nat)
    requires k <= |steps|
  {
    forall i | j < i < k :: !(steps[i].WriteByte? && steps[i].p == p)
  }

  // ------------------------------------------------------------------ what the queues hold

  ghost predicate HeldSince(states: seq<Loop>, steps: seq<Step>, kind: Kind, item: Item, p: nat, j: nat, k: nat)
    requires k <= |steps| <= |states|
  {
    j < k && PushedAt(states, steps, kind, p, item, j) && NoSwapSince(steps, kind, j, k)
  }

  lemma NextQueue(l: Loop, step: Step, kind: Kind, item: Item)
    requires Enabled(l, step)
    ensures item in Queue(Do(l, step), kind) <==>
              !Swaps(step, kind) && (item in Queue(l, kind) || ((exists p :: Pushes(step, kind, p)) && l.next == item))
  {
    if step.PushTask? {
      assert Pushes(step, OfTasks, step.p);
    } else if step.PushCallback? {
      assert Pushes(step, OfCallbacks, step.p);
    }
  }

  lemma HeldOn(states: seq<Loop>, steps: seq<Step>, kind: Kind, item: Item, p: nat, j: nat, h: nat)
    requires h < |steps| <= |states|
    ensures j < h ==> (HeldSince(states, steps, kind, item, p, j, h + 1) <==>
                       HeldSince(states, steps, kind, item, p, j, h) && !Swaps(steps[h], kind))
    ensures HeldSince(states, steps, kind, item, p, h, h + 1) <==>
              Pushes(steps[h], kind, p) && states[h].next == item
  {
  }

  // A queue holds exactly what was pushed since its last swap.
  lemma {:induction false} QueueIsPushes(states: seq<Loop>, steps: seq<Step>, kind: Kind, item: Item, k: nat)
    requires Run(states, steps) && k < |states|
    ensures item in Queue(states[k], kind) <==>
              exists p, j :: HeldSince(states, steps, kind, item, p, j, k)
  {
    hide Do, Enabled, Pushes, Swaps, HeldSince, Queue;
    if k == 0 {
      NothingHeld(states, steps, kind, item);
    } else {
      var h := k - 1;
      QueueIsPushes(states, steps, kind, item, h);
      NextQueue(states[h], steps[h], kind, item);
      if p, j :| HeldSince(states, steps, kind, item, p, j, h) {
        HeldOn(states, steps, kind, item, p, j, h);
        EarlierOnly(states, steps, kind, item, p, j, h);
      }
      if p: nat :| Pushes(steps[h], kind, p) {
        HeldOn(states, steps, kind, item, p, h, h);
      }
      if p, j :| HeldSince(states, steps, kind, item, p, j, k) {
        EarlierOnly(states, steps, kind, item, p, j, k);
        HeldOn(states, steps, kind, item, p, j, h);
        NotBoth(steps[h], kind, p);
      }
    }
  }

  lemma EarlierOnly(states: seq<Loop>, steps: seq<Step>, kind: Kind, item: Item, p: nat, j: nat, k: nat)
    requires k <= |steps| <= |states| && HeldSince(states, steps, kind, item, p, j, k)
    ensures j < k
  {
  }

  lemma NotBoth(step: Step, kind: Kind, p: nat)
    ensures Pushes(step, kind, p) ==> !Swaps(step, kind)
  {
  }

  lemma NothingHeld(states: seq<Loop>, steps: seq<Step>, kind: Kind, item: Item)
    requires Run(states, steps)
    ensures item !in Queue(states[0], kind)
    ensures !exists p, j :: HeldSince(states, steps, kind, item, p, j, 0)
  {
  }

  // ------------------------------------------------------------------ whose byte is missing

  ghost predicate OwesByte(states: seq<Loop>, steps: seq<Step>, p: nat, item: Item, j: nat, k: nat)
    requires k <= |steps| <= |states|
  {
    j < k && (exists kind :: PushedAt(states, steps, kind, p, item, j)) && NoWriteSince(steps, p, j, k)
  }

  // A producer stands where its own steps have brought it.
  lemma {:induction false} ProducerIsHistory(states: seq<Loop>, steps: seq<Step>, p: nat, item: Item, k: nat)
    requires Run(states, steps) && k < |states| && p in states[k].producers && states[k].producers[p] == Pushed(item)
    ensures exists j :: OwesByte(states, steps, p, item, j, k)
  {
    if k > 0 {
      var h := k - 1;
      assert Enabled(states[h], steps[h]);
      if p in states[h].producers && states[h].producers[p] == Pushed(item) {
        ProducerIsHistory(states, steps, p, item, h);
        var j :| OwesByte(states, steps, p, item, j, h);
        assert OwesByte(states, steps, p, item, j, k);
      } else {
        assert PushedAt(states, steps, OfTasks, p, item, h) || PushedAt(states, steps, OfCallbacks, p, item, h);
        assert OwesByte(states, steps, p, item, h, k);
      }
    }
  }

  // No lost wake-up, told by the steps alone: if the loop sleeps while something another thread pushed has not been
  // swapped out, a byte is unread, or the thread that pushed it has written none since.
  lemma NoWakeUpIsLost(states: seq<Loop>, steps: seq<Step>, kind: Kind, item: Item, p: nat, j: nat, k: nat)
    requires Run(states, steps) && k < |states| && states[k].phase == Blocked
    requires HeldSince(states, steps, kind, item, p, j, k)
    ensures states[k].bytes > 0 || exists q, i :: OwesByte(states, steps, q, item, i, k)
  {
    QueueIsPushes(states, steps, kind, item, k);
    NoLostWakeUp(states, steps, k, item);
    if states[k].bytes == 0 {
      var q :| q in states[k].producers && states[k].producers[q] == Pushed(item);
      ProducerIsHistory(states, steps, q, item, k);
    }
  }

  ghost predicate AsksSilently(steps: seq<Step>, p: nat, j: nat, k: nat)
    requires k <= |steps|
  {
    j < k && steps[j] == AskToQuit(p) && NoWriteSince(steps, p, j, k)
  }

  lemma {:induction false} QuitterIsHistory(states: seq<Loop>, steps: seq<Step>, p: nat, k: nat)
    requires Run(states, steps) && k < |states| && p in states[k].producers && states[k].producers[p] == Quitting
    ensures exists j :: AsksSilently(steps, p, j, k)
  {
    if k > 0 {
      var h := k - 1;
      assert Enabled(states[h], steps[h]);
      if p in states[h].producers && states[h].producers[p] == Quitting {
        QuitterIsHistory(states, steps, p, h);
        var j :| AsksSilently(steps, p, j, h);
        assert AsksSilently(steps, p, j, k);
      } else {
        assert AsksSilently(steps, p, h, k);
      }
    }
  }

  // The flag is set exactly once somebody has asked to quit.
  lemma {:induction false} QuitIsAsked(states: seq<Loop>, steps: seq<Step>, k: nat)
    requires Run(states, steps) && k < |states|
    ensures states[k].isQuit <==> exists j :: 0 <= j < k && steps[j].AskToQuit?
  {
    if k > 0 {
      QuitIsAsked(states, steps, k - 1);
    }
  }

  // A request to quit is not lost either, and the loop ends at its next look.
  lemma NoQuitIsLost(states: seq<Loop>, steps: seq<Step>, j: nat, k: nat)
    requires Run(states, steps) && j < k < |states| && steps[j].AskToQuit?
    ensures states[k].phase == Blocked ==> states[k].bytes > 0 || exists p, i :: AsksSilently(steps, p, i, k)
    ensures k < |steps| && steps[k].CheckQuit? ==> states[k + 1].phase == Exited
  {
    QuitIsAsked(states, steps, k);
    if states[k].phase == Blocked {
      NoLostQuit(states, steps, k);
      if states[k].bytes == 0 {
        var p :| p in states[k].producers && states[k].producers[p] == Quitting;
        QuitterIsHistory(states, steps, p, k);
      }
    }
  }

  // ------------------------------------------------------------------ the bytes

  // Bytes written in steps j to k, not counting those the full socket refused.
  function BytesWritten(steps: seq<Step>, j: nat, k: nat): nat
    requires j <= k <= |steps|
  {
    if j == k then 0
    else BytesWritten(steps, j, k - 1) + if steps[k - 1].WriteByte? && !steps[k - 1].refused then 1 else 0
  }

  // No byte comes from nowhere, and without a drain none goes.
  lemma {:induction false} BytesAreWritten(states: seq<Loop>, steps: seq<Step>, j: nat, k: nat)
    requires Run(states, steps) && j <= k < |states|
    ensures states[k].bytes <= states[j].bytes + BytesWritten(steps, j, k)
    ensures (forall i | j <= i < k :: !steps[i].Drain?) ==>
              states[k].bytes == states[j].bytes + BytesWritten(steps, j, k)
    decreases k
  {
    if j < k {
      BytesAreWritten(states, steps, j, k - 1);
      NextBytes(states[k - 1], steps[k - 1]);
      hide Do, Enabled;
    }
  }

  lemma NextBytes(l: Loop, step: Step)
    requires Enabled(l, step)
    ensures var b := Do(l, step).bytes;
      && b <= l.bytes + (if step.WriteByte? && !step.refused then 1 else 0)
      && (!step.Drain? ==> b == l.bytes + if step.WriteByte? && !step.refused then 1 else 0)
  {
  }

  // A drain that finds fewer than 256 bytes leaves only what is written after it.
  lemma DrainEmpties(states: seq<Loop>, steps: seq<Step>, j: nat, k: nat)
    requires Run(states, steps) && j < k < |states| && steps[j].Drain? && states[j].bytes < 256
    ensures states[k].bytes <= BytesWritten(steps, j + 1, k)
  {
    BytesAreWritten(states, steps, j + 1, k);
  }
}
