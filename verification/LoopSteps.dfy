/** The loop object against the lifecycle protocol: applying its local queue in place is a run of the
    protocol's steps of that loop.  Where the object holds a Channel, the protocol holds the connection that
    owns it. */
module LoopSteps {
  import opened PollDispatcherModule
  import E = EventLoopModule
  import L = Lifecycle
  import LifecycleProof

  type Owner = Channel -> L.ConnId

  function Seen(m: map<int, Channel>, owner: Owner): map<int, L.ConnId> { map fd | fd in m :: owner(m[fd]) }

  predicate SameTask(p: L.Task, t: E.Task, owner: Owner) {
    match t
    case Add(ch) => p == L.Add(ch.fd, owner(ch))
    case Delete(fd) => p.Delete? && p.fd == fd
    case Modify(fd) => p.Modify? && p.fd == fd
  }

  predicate SameTasks(p: seq<L.Task>, q: seq<E.Task>, owner: Owner) {
    |p| == |q| && forall i | 0 <= i < |q| :: SameTask(p[i], q[i], owner)
  }

  // The protocol's loop l is at work: a destructor is under way, or an element is at hand.
  predicate Busy(s: L.Server, l: nat) {
    l < |s.loops| && (!s.loops[l].dtor.NoDestructor? || s.loops[l].localQ != [])
  }

  // What it does then.  The dispatcher has room while fewer than its slots are in use.
  function NextStep(s: L.Server, l: nat): L.Step
    requires Busy(s, l)
  {
    var p := s.loops[l];
    match p.dtor
    case Closed(_) => L.DetachConn(l)
    case Cleared(_) => L.ReportClosed(l)
    case NoDestructor =>
      match p.localQ[0]
      case Add(_, _) => L.ApplyAdd(l, |p.channelMap| < MAX_NODE)
      case Delete(_, _) => L.ApplyDelete(l)
      case Modify(_, _) => L.ApplyModify(l)
  }

  function Rank(s: L.Server, l: nat): nat
    requires l < |s.loops|
  {
    3 * |s.loops[l].localQ| + match s.loops[l].dtor case NoDestructor => 0 case Cleared(_) => 1 case Closed(_) => 2
  }

  // A destructor leaves queues and map alone.
  lemma DestructorKeeps(s: L.Server, l: nat)
    requires Busy(s, l) && !s.loops[l].dtor.NoDestructor? && L.Enabled(s, NextStep(s, l))
    ensures var s' := L.Do(s, NextStep(s, l));
      && |s'.loops| == |s.loops| && s'.loops[l].channelMap == s.loops[l].channelMap
      && s'.loops[l].localQ == s.loops[l].localQ && s'.loops[l].taskQ == s.loops[l].taskQ
      && Rank(s', l) < Rank(s, l)
  {
  }

  lemma TakesFirst(s: L.Server, l: nat)
    requires L.AtTask(s, l) && L.Enabled(s, NextStep(s, l))
    ensures var s' := L.Do(s, NextStep(s, l));
      && |s'.loops| == |s.loops| && s'.loops[l].taskQ == s.loops[l].taskQ
      && s'.loops[l].localQ == s.loops[l].localQ[1..]
  {
  }

  lemma StepMoves(s: L.Server, l: nat)
    requires Busy(s, l) && L.Enabled(s, NextStep(s, l))
    ensures var s' := L.Do(s, NextStep(s, l)); l < |s'.loops| && Rank(s', l) < Rank(s, l)
  {
    hide L.Do, L.Enabled;
    if s.loops[l].dtor.NoDestructor? {
      TakesFirst(s, l);
    } else {
      DestructorKeeps(s, l);
    }
  }

  // The first loop of processTaskQ, in the protocol.
  function Process(s: L.Server, l: nat): L.Server
    requires l < |s.loops|
    decreases Rank(s, l)
  {
    if Busy(s, l) && L.Enabled(s, NextStep(s, l)) then
      StepMoves(s, l);
      Process(L.Do(s, NextStep(s, l)), l)
    else s
  }

  // The swap hands over the same elements.
  lemma SwapAlike(s: L.Server, l: nat, q: seq<E.Task>, owner: Owner)
    requires L.Enabled(s, L.Swap(l)) && SameTasks(s.loops[l].taskQ, q, owner)
    ensures var p := L.Do(s, L.Swap(l)).loops[l];
      SameTasks(p.localQ, q, owner) && p.taskQ == [] && p.channelMap == s.loops[l].channelMap
  {
  }

  // One element does the same to both maps.  The Channel that the map does not take, or no longer holds, is
  // the one that closes its descriptor.
  ghost predicate Alike(s: L.Server, l: nat, t: E.Task, m: map<int, Channel>, owner: Owner)
    requires Busy(s, l) && L.Enabled(s, NextStep(s, l))
  {
    var s', m' := L.Do(s, NextStep(s, l)), E.After(m, E.Done(t));
    && |s'.loops| == |s.loops| && s'.loops[l].channelMap == Seen(m', owner)
    && L.Closes(s, NextStep(s, l)) ==
         if t.Add? && m' == m then L.Close(t.channel.fd, owner(t.channel))
         else if t.Delete? && m' != m then L.Close(t.fd, owner(m[t.fd]))
         else L.NoClose
  }

  lemma TaskAlike(s: L.Server, l: nat, t: E.Task, m: map<int, Channel>, owner: Owner)
    requires L.AtTask(s, l) && L.Enabled(s, NextStep(s, l))
    requires SameTask(s.loops[l].localQ[0], t, owner) && s.loops[l].channelMap == Seen(m, owner)
    ensures Alike(s, l, t, m, owner)
  {
    hide Alike, L.Do, L.Enabled, L.Closes, Seen, E.After;
    match t {
      case Add(_) => AddAlike(s, l, t, m, owner);
      case Delete(_) => DeleteAlike(s, l, t, m, owner);
      case Modify(_) => ModifyAlike(s, l, t, m, owner);
    }
  }

  lemma AddAlike(s: L.Server, l: nat, t: E.Task, m: map<int, Channel>, owner: Owner)
    requires L.AtTask(s, l) && L.Enabled(s, NextStep(s, l)) && t.Add?
    requires SameTask(s.loops[l].localQ[0], t, owner) && s.loops[l].channelMap == Seen(m, owner)
    ensures Alike(s, l, t, m, owner)
  {
    var ch := t.channel;
    assert Seen(m, owner).Keys == m.Keys;
    assert ch.fd !in m ==> m[ch.fd := ch] != m;
  }

  lemma DeleteAlike(s: L.Server, l: nat, t: E.Task, m: map<int, Channel>, owner: Owner)
    requires L.AtTask(s, l) && L.Enabled(s, NextStep(s, l)) && t.Delete?
    requires SameTask(s.loops[l].localQ[0], t, owner) && s.loops[l].channelMap == Seen(m, owner)
    ensures Alike(s, l, t, m, owner)
  {
    assert t.fd !in m ==> m - {t.fd} == m;
    assert t.fd in m ==> t.fd !in m - {t.fd};
  }

  lemma ModifyAlike(s: L.Server, l: nat, t: E.Task, m: map<int, Channel>, owner: Owner)
    requires L.AtTask(s, l) && L.Enabled(s, NextStep(s, l)) && t.Modify?
    requires SameTask(s.loops[l].localQ[0], t, owner) && s.loops[l].channelMap == Seen(m, owner)
    ensures Alike(s, l, t, m, owner)
  {
  }

  // So does an error on a descriptor.
  lemma ErrorAlike(s: L.Server, l: nat, fd: int, m: map<int, Channel>, owner: Owner)
    requires L.Enabled(s, L.ErrorRemove(l, fd)) && s.loops[l].channelMap == Seen(m, owner)
    ensures L.Do(s, L.ErrorRemove(l, fd)).loops[l].channelMap == Seen(E.After(m, E.Failed(fd)), owner)
    ensures fd in m && L.Closes(s, L.ErrorRemove(l, fd)) == L.Close(fd, owner(m[fd]))
  {
  }

  // What the elements make of the map, taken from the front.
  function AfterAll(m: map<int, Channel>, q: seq<E.Task>): map<int, Channel>
    decreases |q|
  {
    if q == [] then m else AfterAll(E.After(m, E.Done(q[0])), q[1..])
  }

  lemma {:induction false} AfterAllIsApplyAll(r: E.Registry, q: seq<E.Task>, masks: E.MaskMap)
    ensures AfterAll(r.channels, q) == E.ApplyAll(r, q, masks).channels
    decreases |q|
  {
    hide E.After;
    if q != [] {
      var n := |q| - 1;
      AfterAllIsApplyAll(r, q[..n], masks);
      AfterAllAppend(r.channels, q[..n], q[n]);
      assert q[..n] + [q[n]] == q;
    }
  }

  lemma {:induction false} AfterAllAppend(m: map<int, Channel>, q: seq<E.Task>, t: E.Task)
    ensures AfterAll(m, q + [t]) == E.After(AfterAll(m, q), E.Done(t))
    decreases |q|
  {
    hide E.After;
    if q == [] {
      assert ([] + [t])[1..] == [];
    } else {
      assert (q + [t])[1..] == q[1..] + [t];
      AfterAllAppend(E.After(m, E.Done(q[0])), q[1..], t);
    }
  }

  // The whole local queue.
  lemma {:induction false} ProcessAlike(s: L.Server, l: nat, q: seq<E.Task>, m: map<int, Channel>, owner: Owner)
    requires L.Inv(s) && l < |s.loops|
    requires SameTasks(s.loops[l].localQ, q, owner) && s.loops[l].channelMap == Seen(m, owner)
    ensures var s' := Process(s, l);
      && L.Inv(s') && |s'.loops| == |s.loops| && !Busy(s', l)
      && s'.loops[l].channelMap == Seen(AfterAll(m, q), owner) && s'.loops[l].taskQ == s.loops[l].taskQ
    decreases Rank(s, l)
  {
    hide L.Inv, L.Do, L.Enabled, E.After, Seen, SameTask;
    if Busy(s, l) {
      LifecycleProof.GuardsNeverBlock(s, l);
      var s1 := L.Do(s, NextStep(s, l));
      LifecycleProof.StepKeepsInv(s, NextStep(s, l));
      StepMoves(s, l);
      if s.loops[l].dtor.NoDestructor? {
        TaskAlike(s, l, q[0], m, owner);
        TakesFirst(s, l);
        ProcessAlike(s1, l, q[1..], E.After(m, E.Done(q[0])), owner);
      } else {
        DestructorKeeps(s, l);
        ProcessAlike(s1, l, q, m, owner);
      }
    }
  }

  // Applying the local queue in place, and the protocol's steps of that loop, end with the same Channels.
  lemma LoopRunsProtocol(s: L.Server, l: nat, q: seq<E.Task>, r: E.Registry, masks: E.MaskMap, owner: Owner)
    requires L.Inv(s) && l < |s.loops|
    requires SameTasks(s.loops[l].localQ, q, owner) && s.loops[l].channelMap == Seen(r.channels, owner)
    ensures var s' := Process(s, l);
      && L.Inv(s') && |s'.loops| == |s.loops| && !Busy(s', l)
      && s'.loops[l].channelMap == Seen(E.ApplyAll(r, q, masks).channels, owner)
  {
    hide L.Inv, Process, Busy, Seen, SameTasks, AfterAll, E.ApplyAll;
    ProcessAlike(s, l, q, r.channels, owner);
    AfterAllIsApplyAll(r, q, masks);
  }
}
