/** What the lifecycle invariant guarantees over every run of the server: every interleaving of
    the accepting thread, idle closes, the loop threads and the kernel's reuse of numbers. */
module LifecycleSafety {
  import opened ConnStates
  import opened Lifecycle
  import opened LifecycleProof

  // A run: states[i] takes steps[i] to states[i + 1], from an initial state.
  ghost predicate Run(states: seq<Server>, steps: seq<Step>) {
    && |states| == |steps| + 1 && Init(states[0])
    && forall i | 0 <= i < |steps| :: Enabled(states[i], steps[i]) && states[i + 1] == Do(states[i], steps[i])
  }

  lemma {:induction false} RunKeepsInv(states: seq<Server>, steps: seq<Step>, i: nat)
    requires Run(states, steps) && i < |states|
    ensures Inv(states[i])
  {
    if i > 0 {
      RunKeepsInv(states, steps, i - 1);
      assert Enabled(states[i - 1], steps[i - 1]);
      StepKeepsInv(states[i - 1], steps[i - 1]);
    }
  }

  // Fd-reuse safety: a DELETE or MODIFY that finds a Channel finds that of the connection it was
  // issued for, and an ADD never finds its number taken.
  lemma FdReuseSafety(states: seq<Server>, steps: seq<Step>, i: nat, l: nat)
    requires Run(states, steps) && i < |steps|
    requires steps[i] == ApplyDelete(l) || steps[i] == ApplyModify(l) || (steps[i].ApplyAdd? && steps[i].l == l)
    ensures l < |states[i].loops| && states[i].loops[l].localQ != []
    ensures var p := states[i].loops[l];
            if steps[i].ApplyAdd? then p.localQ[0].fd !in p.channelMap
            else p.localQ[0].fd in p.channelMap ==> p.channelMap[p.localQ[0].fd] == p.localQ[0].id
  {
    RunKeepsInv(states, steps, i);
    assert Enabled(states[i], steps[i]);
    if steps[i].ApplyAdd? {
      AddMeetsNoChannel(states[i], l);
    } else {
      TaskNamesOwner(states[i], l);
    }
  }

  // A connection leaves conns_ only after its own Channel is destroyed: its channel pointer is
  // cleared, no channelMap_ holds its Channel and no queue still carries it.
  lemma ErasedOnlyAfterDestroyed(states: seq<Server>, steps: seq<Step>, i: nat)
    requires Run(states, steps) && i < |steps| && steps[i].EraseOne?
    ensures states[i].pc.Cleaning? && states[i].pc.todo != []
    ensures var s := states[i]; var r := s.pc.todo[0];
            && r.fd in s.conns && s.conns[r.fd] == r.id
            && r.id in s.info && !s.info[r.id].hasChannel
            && forall l | 0 <= l < |s.loops| ::
                 && (forall fd | fd in s.loops[l].channelMap :: s.loops[l].channelMap[fd] != r.id)
                 && (forall t | t in s.loops[l].localQ + s.loops[l].taskQ && t.Add? :: t.id != r.id)
                 && s.loops[l].dtor != Closed(r.id) && s.loops[l].dtor != Cleared(r.id)
  {
    RunKeepsInv(states, steps, i);
    var s := states[i];
    assert Enabled(s, steps[i]);
    EraseHitsOwner(s);
    var r := s.pc.todo[0];
    forall l | 0 <= l < |s.loops|
      ensures forall fd | fd in s.loops[l].channelMap :: s.loops[l].channelMap[fd] != r.id
      ensures forall t | t in s.loops[l].localQ + s.loops[l].taskQ && t.Add? :: t.id != r.id
      ensures s.loops[l].dtor != Closed(r.id) && s.loops[l].dtor != Cleared(r.id)
    {
      assert LoopInv(s.info, l, s.loops[l]);
      forall t | t in s.loops[l].localQ + s.loops[l].taskQ && t.Add? ensures t.id != r.id {
        assert TaskOk(s.info, l, t);
      }
    }
  }

  // conns_ only loses an entry in EraseOne, and no other step touches an existing one.
  lemma OnlyEraseRemoves(s: Server, step: Step, fd: int)
    requires Enabled(s, step) && fd in s.conns
    requires fd !in Do(s, step).conns || Do(s, step).conns[fd] != s.conns[fd]
    ensures step.EraseOne? && s.pc.todo[0].fd == fd
  {
  }

  // No two live Channels, on any loops, share a descriptor; each belongs to the connection that
  // conns_ lists under that number, and the kernel still holds it open for that connection.
  lemma LiveChannelsAreDistinct(states: seq<Server>, steps: seq<Step>, i: nat, l1: nat, l2: nat, fd: int)
    requires Run(states, steps) && i < |states|
    requires l1 < |states[i].loops| && fd in states[i].loops[l1].channelMap
    requires l2 < |states[i].loops| && fd in states[i].loops[l2].channelMap
    ensures l1 == l2
    ensures fd in states[i].conns && states[i].conns[fd] == states[i].loops[l1].channelMap[fd]
    ensures fd in states[i].kernel && states[i].kernel[fd] == states[i].loops[l1].channelMap[fd]
  {
    RunKeepsInv(states, steps, i);
    var s := states[i];
    assert LoopInv(s.info, l1, s.loops[l1]) && LoopInv(s.info, l2, s.loops[l2]);
  }

  ghost predicate NoLongerOpen(s: Server, id: ConnId) {
    id < s.nextId && forall fd | fd in s.kernel :: s.kernel[fd] != id
  }

  // Only accept() opens descriptors, each under a new identity.
  lemma StaysClosed(s: Server, step: Step, id: ConnId)
    requires Enabled(s, step) && NoLongerOpen(s, id)
    ensures NoLongerOpen(Do(s, step), id)
  {
  }

  lemma {:induction false} ClosedStaysClosed(states: seq<Server>, steps: seq<Step>, i: nat, j: nat, id: ConnId)
    requires Run(states, steps) && i <= j < |states|
    requires NoLongerOpen(states[i], id)
    ensures NoLongerOpen(states[j], id)
  {
    if i < j {
      ClosedStaysClosed(states, steps, i, j - 1, id);
      StaysClosed(states[j - 1], steps[j - 1], id);
    }
  }

  lemma CloseIsFinal(s: Server, step: Step)
    requires Inv(s) && Enabled(s, step) && Closes(s, step).Close?
    ensures NoLongerOpen(Do(s, step), Closes(s, step).owner)
  {
    ClosesOwn(s, step);
    StepKeepsInv(s, step);
    assert KernelInv(s.info, s.nextId, s.kernel);
  }

  // Each accepted descriptor is closed while its own accept() holds it, and never a second time.
  lemma ClosedAtMostOnce(states: seq<Server>, steps: seq<Step>, i: nat, j: nat)
    requires Run(states, steps) && i < j < |steps|
    requires Closes(states[i], steps[i]).Close? && Closes(states[j], steps[j]).Close?
    ensures Closes(states[i], steps[i]).owner != Closes(states[j], steps[j]).owner
    ensures var c := Closes(states[i], steps[i]); c.fd in states[i].kernel && states[i].kernel[c.fd] == c.owner
  {
    RunKeepsInv(states, steps, i);
    RunKeepsInv(states, steps, j);
    ClosesOwn(states[i], steps[i]);
    ClosesOwn(states[j], steps[j]);
    CloseIsFinal(states[i], steps[i]);
    ClosedStaysClosed(states, steps, i + 1, j, Closes(states[i], steps[i]).owner);
  }

  // The active-connections gauge is exact at every top of the accept loop.
  lemma GaugeIsExact(states: seq<Server>, steps: seq<Step>, i: nat)
    requires Run(states, steps) && i < |states| && states[i].pc.Scanning?
    ensures states[i].gauge == |states[i].conns|
  {
    RunKeepsInv(states, steps, i);
  }
}
