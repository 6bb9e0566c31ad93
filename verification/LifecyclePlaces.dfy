/** No connection is lost on its way through the server: at every moment each one stands exactly where its next
    step will find it, from its insertion to the report of its death, and a connection that is closing has its
    DELETE on the way. */
module LifecyclePlaces {
  import opened ConnStates
  import opened Lifecycle
  import opened LifecycleProof
  import opened LifecycleSafety

  // What loop p still has to apply, in order.
  function Work(p: Loop): seq<Task> { p.localQ + p.taskQ }

  // The first task of a connection is its ADD.
  ghost predicate Ordered(info: Book, q: seq<Task>) {
    && (forall t | t in q :: t.id in info && !info[t.id].stage.InTable?)
    && (forall i, j | 0 <= i < j < |q| && q[j].Add? :: q[i].id != q[j].id)
  }

  // Where connection `id` is found, by how far it has come.
  ghost predicate Found(c: Connection, id: ConnId, pc: AcceptPc, p: Loop) {
    match c.stage
    case InTable => pc == Inserted(id)
    case AddQueued => Add(c.fd, id) in Work(p)
    case Live => c.fd in p.channelMap && p.channelMap[c.fd] == id
    case FdClosed => p.dtor == Closed(id)
    case Detached => p.dtor == Cleared(id)
    case _ => true
  }

  // What its fields say of the way still before it.
  ghost predicate OnItsWay(c: Connection, id: ConnId, pc: AcceptPc, p: Loop) {
    && (c.hasChannel <==> c.stage.AddQueued? || c.stage.Live? || c.stage.FdClosed?)
    && (c.state == Connecting ==> pc == Inserted(id) || pc == Registered(id))
    && (c.state == Disconnecting && !c.stage.FdClosed? ==> c.hasChannel && Delete(c.fd, id) in Work(p))
  }

  ghost predicate Placed(s: Server, id: ConnId)
    requires id in s.info
  {
    var c := s.info[id];
    c.loop < |s.loops| && Found(c, id, s.pc, s.loops[c.loop]) && OnItsWay(c, id, s.pc, s.loops[c.loop])
  }

  ghost predicate PlacesInv(s: Server) {
    && (forall id | id in s.info :: Placed(s, id))
    && (forall l | 0 <= l < |s.loops| :: Ordered(s.info, Work(s.loops[l])))
  }

  lemma StartPlaces(s: Server)
    requires Init(s)
    ensures PlacesInv(s)
  {
  }

  // ------------------------------------------------------------------ the order of the queues

  lemma PushOrdered(info: Book, q: seq<Task>, t: Task)
    requires Ordered(info, q) && t.id in info && !info[t.id].stage.InTable?
    requires t.Add? ==> forall u | u in q :: u.id != t.id
    ensures Ordered(info, q + [t])
  {
  }

  lemma PopOrdered(info: Book, q: seq<Task>)
    requires Ordered(info, q) && q != []
    ensures Ordered(info, q[1..])
    ensures forall t | t in q[1..] && t.Add? :: t.id != q[0].id
  {
    assert forall i | 0 <= i < |q[1..]| :: q[1..][i] == q[i + 1];
  }

  // Stages only move on, and never back into the table.
  ghost predicate OnlyOn(info: Book, info': Book) {
    forall id | id in info :: id in info' && (info[id].stage.InTable? || !info'[id].stage.InTable?)
  }

  lemma StaysOrdered(info: Book, info': Book, q: seq<Task>)
    requires Ordered(info, q) && OnlyOn(info, info')
    ensures Ordered(info', q)
  {
  }

  // Where the queue of loop l after a step comes from.
  ghost predicate WorkFrom(s: Server, s': Server, l: nat)
    requires l < |s.loops| == |s'.loops|
  {
    var q, q' := Work(s.loops[l]), Work(s'.loops[l]);
    || q' == q
    || (q != [] && q' == q[1..])
    || (|q'| == |q| + 1 && q' == q + [q'[|q|]] && q'[|q|].id in s'.info && !s'.info[q'[|q|].id].stage.InTable?
        && (q'[|q|].Add? ==> forall u | u in q :: u.id != q'[|q|].id))
  }

  lemma WorkOrdered(s: Server, s': Server, l: nat)
    requires l < |s.loops| == |s'.loops| && WorkFrom(s, s', l)
    requires Ordered(s.info, Work(s.loops[l])) && OnlyOn(s.info, s'.info)
    ensures Ordered(s'.info, Work(s'.loops[l]))
  {
    hide Ordered, Work, OnlyOn;
    var q, q' := Work(s.loops[l]), Work(s'.loops[l]);
    StaysOrdered(s.info, s'.info, q);
    if q != [] && q' == q[1..] {
      PopOrdered(s'.info, q);
    } else if q' != q {
      PushOrdered(s'.info, q, q'[|q|]);
    }
  }

  // ------------------------------------------------------------------ one connection

  // Whatever concerns connection `id` is as it was.
  lemma StaysPlaced(s: Server, s': Server, id: ConnId)
    requires id in s.info && Placed(s, id) && id in s'.info && s'.info[id] == s.info[id]
    requires |s'.loops| == |s.loops|
    requires s.pc == Inserted(id) || s.pc == Registered(id) ==> s'.pc == s.pc
    requires var c := s.info[id]; var p, p' := s.loops[c.loop], s'.loops[c.loop];
      && (forall t | t in Work(p) && t.id == id :: t in Work(p'))
      && (c.fd in p.channelMap && p.channelMap[c.fd] == id ==> c.fd in p'.channelMap && p'.channelMap[c.fd] == id)
      && (p.dtor == Closed(id) || p.dtor == Cleared(id) ==> p'.dtor == p.dtor)
    ensures Placed(s', id)
  {
  }

  // ------------------------------------------------------------------ the steps

  lemma CloseKeeps(s: Server, id: ConnId, x: ConnId)
    requires PlacesInv(s) && Known(s, id) && x in s.info
    ensures Placed(HandleClose(s, id), x)
  {
    var s' := HandleClose(s, id);
    var c := s.info[id];
    if x != id {
      StaysPlaced(s, s', x);
    } else if s' != s && c.hasChannel {
      var p, p' := s.loops[c.loop], s'.loops[c.loop];
      assert Work(p') == Work(p) + [Delete(c.fd, id)];
    }
  }

  lemma PushKeeps(s: Server, l: nat, t: Task, x: ConnId)
    requires PlacesInv(s) && l < |s.loops| && x in s.info
    ensures Placed(Push(s, l, t), x)
  {
    assert Work(Push(s, l, t).loops[l]) == Work(s.loops[l]) + [t];
    StaysPlaced(s, Push(s, l, t), x);
  }

  lemma PushAddKeeps(s: Server, x: ConnId)
    requires Inv(s) && PlacesInv(s) && Enabled(s, PushAdd) && x in s.info
    ensures Placed(Do(s, PushAdd), x)
  {
    var id, s' := s.pc.id, Do(s, PushAdd);
    var l := s.info[id].loop;
    assert AcceptInv(s);
    hide Inv, AcceptInv, Ordered, Found, OnItsWay;
    assert Placed(s, id);
    assert Work(s'.loops[l]) == Work(s.loops[l]) + [Add(s.info[id].fd, id)];
    if x != id {
      StaysPlaced(s, s', x);
    } else {
      AddedIsPlaced(s);
    }
  }

  lemma AddedIsPlaced(s: Server)
    requires Enabled(s, PushAdd) && Placed(s, s.pc.id) && s.info[s.pc.id].stage.InTable?
    ensures Placed(Do(s, PushAdd), s.pc.id)
  {
    var id, s' := s.pc.id, Do(s, PushAdd);
    var l := s.info[id].loop;
    assert Work(s'.loops[l]) == Work(s.loops[l]) + [Add(s.info[id].fd, id)];
  }

  lemma EraseKeeps(s: Server, x: ConnId)
    requires Inv(s) && PlacesInv(s) && Enabled(s, EraseOne) && x in s.info
    ensures Placed(Do(s, EraseOne), x)
  {
    EraseHitsOwner(s);
    EraseDoes(s);
    hide Inv, Do, Ordered;
    assert Placed(s, x);
    if x != s.pc.todo[0].id {
      StaysPlaced(s, Do(s, EraseOne), x);
    }
  }

  lemma InsertKeeps(s: Server, target: nat, x: ConnId)
    requires Inv(s) && PlacesInv(s) && Enabled(s, InsertConn(target)) && x in Do(s, InsertConn(target)).info
    ensures Placed(Do(s, InsertConn(target)), x)
  {
    hide LoopsInv, TableInv, KernelInv, ReportInv, Ordered;
    if x in s.info {
      StaysPlaced(s, Do(s, InsertConn(target)), x);
    }
  }

  lemma SwapKeeps(s: Server, l: nat, x: ConnId)
    requires PlacesInv(s) && Enabled(s, Swap(l)) && x in s.info
    ensures Placed(Do(s, Swap(l)), x)
  {
    assert Work(Do(s, Swap(l)).loops[l]) == Work(s.loops[l]);
    StaysPlaced(s, Do(s, Swap(l)), x);
  }

  lemma PopsHead(s: Server, l: nat)
    requires l < |s.loops| && s.loops[l].localQ != []
    ensures var s1, t := PopTask(s, l), s.loops[l].localQ[0];
      && Work(s.loops[l]) == [t] + Work(s1.loops[l]) && s1 == s.(loops := s1.loops) && |s1.loops| == |s.loops|
      && s1.loops[l] == s.loops[l].(localQ := s.loops[l].localQ[1..])
      && forall k | 0 <= k < |s.loops| && k != l :: s1.loops[k] == s.loops[k]
  {
  }

  // A task that is taken from the queue and finds nothing to do was nobody's last hope.
  lemma PopKeeps(s: Server, l: nat, x: ConnId)
    requires Inv(s) && PlacesInv(s) && AtTask(s, l) && x in s.info
    requires var t := s.loops[l].localQ[0]; t.Modify? || (t.Delete? && t.fd !in s.loops[l].channelMap)
    ensures Placed(PopTask(s, l), x)
  {
    var p, t := s.loops[l], s.loops[l].localQ[0];
    OneLoop(s.info, s.loops, l);
    PopsHead(s, l);
    assert Work(p)[0] == t && TaskOk(s.info, l, t);
    hide Inv, LoopInv, PopTask, Work;
    assert Placed(s, x) && Ordered(s.info, Work(p));
    if x != t.id {
      hide Found, OnItsWay, Ordered;
      StaysPlaced(s, PopTask(s, l), x);
    } else {
      PopOrdered(s.info, Work(p));
      assert Work(p)[1..] == Work(PopTask(s, l).loops[l]);
    }
  }

  // A Channel of loop l, no longer in its map or its queue, begins to end.
  lemma ClosingKeeps(s: Server, s0: Server, l: nat, fd: int, id: ConnId, x: ConnId)
    requires PlacesInv(s) && l < |s.loops| == |s0.loops| && x in s.info && s0.info == s.info && s0.pc == s.pc
    requires id in s.info && s.info[id].loop == l && s.info[id].hasChannel && s.loops[l].dtor.NoDestructor?
    requires forall k | 0 <= k < |s.loops| && k != l :: s0.loops[k] == s.loops[k]
    requires forall t | t in Work(s.loops[l]) && t.id != id :: t in Work(s0.loops[l])
    requires var m, m0 := s.loops[l].channelMap, s0.loops[l].channelMap;
      forall f | f in m && m[f] != id :: f in m0 && m0[f] == m[f]
    ensures Placed(CloseFd(s0, l, fd, id), x)
  {
    var s' := CloseFd(s0, l, fd, id);
    assert Placed(s, x) && Placed(s, id);
    if x != id {
      assert Work(s'.loops[l]) == Work(s0.loops[l]);
      StaysPlaced(s, s', x);
    }
  }

  lemma ApplyAddKeeps(s: Server, l: nat, registered: bool, x: ConnId)
    requires Inv(s) && PlacesInv(s) && Enabled(s, ApplyAdd(l, registered)) && x in s.info
    ensures Placed(Do(s, ApplyAdd(l, registered)), x)
  {
    AddMeetsNoChannel(s, l);
    hide Inv, PlacesInv, Placed, Do, TaskOk;
    if registered {
      AddDoneKeeps(s, l, x);
    } else {
      AddFailedKeeps(s, l, x);
    }
  }

  lemma AddFailedKeeps(s: Server, l: nat, x: ConnId)
    requires PlacesInv(s) && Enabled(s, ApplyAdd(l, false)) && x in s.info
    requires TaskOk(s.info, l, s.loops[l].localQ[0])
    ensures Placed(Do(s, ApplyAdd(l, false)), x)
  {
    var t, s1 := s.loops[l].localQ[0], PopTask(s, l);
    assert Do(s, ApplyAdd(l, false)) == CloseFd(s1, l, t.fd, t.id);
    PopsHead(s, l);
    hide Ordered, Found, Work, PopTask, CloseFd, Do;
    assert Placed(s, t.id);
    ClosingKeeps(s, s1, l, t.fd, t.id, x);
  }

  lemma AddDoneKeeps(s: Server, l: nat, x: ConnId)
    requires PlacesInv(s) && Enabled(s, ApplyAdd(l, true)) && x in s.info
    requires var t := s.loops[l].localQ[0]; t.fd !in s.loops[l].channelMap && TaskOk(s.info, l, t)
    ensures Placed(Do(s, ApplyAdd(l, true)), x)
  {
    var t, s' := s.loops[l].localQ[0], Do(s, ApplyAdd(l, true));
    assert Work(s.loops[l]) == [t] + Work(s'.loops[l]);
    hide Ordered;
    assert Placed(s, x);
    if x != t.id {
      StaysPlaced(s, s', x);
    }
  }

  // s1 is s, or s without a task of the connection whose Channel is removed.
  lemma RemoveKeeps(s: Server, s1: Server, l: nat, fd: int, x: ConnId)
    requires Inv(s) && PlacesInv(s) && l < |s.loops| && s.loops[l].dtor.NoDestructor? && x in s.info
    requires fd in s.loops[l].channelMap && s1 == s.(loops := s1.loops) && |s1.loops| == |s.loops|
    requires forall k | 0 <= k < |s.loops| && k != l :: s1.loops[k] == s.loops[k]
    requires s1.loops[l].channelMap == s.loops[l].channelMap
    requires forall t | t in Work(s.loops[l]) && t.id != s.loops[l].channelMap[fd] :: t in Work(s1.loops[l])
    ensures s.loops[l].channelMap[fd] in s.info && Placed(RemoveChannel(s1, l, fd), x)
  {
    var p, p1, id := s.loops[l], s1.loops[l], s.loops[l].channelMap[fd];
    OneLoop(s.info, s.loops, l);
    assert MapInv(s.info, l, p.channelMap);
    hide Inv, LoopInv, Ordered, Found;
    assert Placed(s, id);
    var p0 := p1.(channelMap := p.channelMap - {fd});
    assert Work(p0) == Work(p1);
    hide Work;
    ClosingKeeps(s, s1.(loops := s1.loops[l := p0]), l, fd, id, x);
  }

  lemma DetachKeeps(s: Server, l: nat, x: ConnId)
    requires Inv(s) && PlacesInv(s) && Enabled(s, DetachConn(l)) && x in s.info
    ensures Placed(Do(s, DetachConn(l)), x)
  {
    DestructorOf(s, l);
    hide Inv, Ordered, LoopInv, Found, OnItsWay;
    assert Placed(s, x);
    if x != s.loops[l].dtor.id {
      var s' := Do(s, DetachConn(l));
      assert Work(s'.loops[l]) == Work(s.loops[l]);
      StaysPlaced(s, s', x);
    } else {
      DetachedIsPlaced(s, l);
    }
  }

  lemma DetachedIsPlaced(s: Server, l: nat)
    requires Enabled(s, DetachConn(l)) && DtorInv(s.info, l, s.loops[l].dtor)
    ensures Placed(Do(s, DetachConn(l)), s.loops[l].dtor.id)
  {
  }

  lemma ReportKeeps(s: Server, l: nat, x: ConnId)
    requires Inv(s) && PlacesInv(s) && Enabled(s, ReportClosed(l)) && x in s.info
    ensures Placed(Do(s, ReportClosed(l)), x)
  {
    DestructorOf(s, l);
    hide Inv, Ordered, LoopInv, Found, OnItsWay;
    assert Placed(s, x) && Placed(s, s.loops[l].dtor.id);
    if x != s.loops[l].dtor.id {
      var s' := Do(s, ReportClosed(l));
      assert Work(s'.loops[l]) == Work(s.loops[l]);
      StaysPlaced(s, s', x);
    } else {
      ReportedIsPlaced(s, l);
    }
  }

  lemma ReportedIsPlaced(s: Server, l: nat)
    requires Enabled(s, ReportClosed(l)) && DtorInv(s.info, l, s.loops[l].dtor) && Placed(s, s.loops[l].dtor.id)
    ensures Placed(Do(s, ReportClosed(l)), s.loops[l].dtor.id)
  {
  }

  lemma DestructorOf(s: Server, l: nat)
    requires Inv(s) && l < |s.loops|
    ensures DtorInv(s.info, l, s.loops[l].dtor)
  {
    OneLoop(s.info, s.loops, l);
  }

  lemma StepKeepsPlace(s: Server, step: Step, x: ConnId)
    requires Inv(s) && PlacesInv(s) && Enabled(s, step) && x in Do(s, step).info
    ensures Placed(Do(s, step), x)
  {
    hide Inv, PlacesInv, Placed;
    match step
    case IdleClose(fd) => CloseKeeps(s, s.conns[fd], x);
    case EraseOne => EraseKeeps(s, x);
    case InsertConn(target) => InsertKeeps(s, target, x);
    case PushAdd => PushAddKeeps(s, x);
    case MarkConnected => MarkKeeps(s, x);
    case Swap(l) => SwapKeeps(s, l, x);
    case ApplyAdd(l, registered) => ApplyAddKeeps(s, l, registered, x);
    case ApplyDelete(l) => ApplyDeleteKeeps(s, l, x);
    case ApplyModify(l) => PopKeeps(s, l, x);
    case ErrorRemove(l, fd) => RemoveKeeps(s, s, l, fd, x);
    case DetachConn(l) => DetachKeeps(s, l, x);
    case ReportClosed(l) => ReportKeeps(s, l, x);
    case HandlerClose(id) => CloseKeeps(s, id, x);
    case HandlerModify(id) => PushKeeps(s, s.info[id].loop, Modify(s.info[id].fd, id), x);
    case _ => OthersKeep(s, step, x);
  }

  lemma OthersKeep(s: Server, step: Step, x: ConnId)
    requires PlacesInv(s) && Enabled(s, step) && x in s.info
    requires step.TakeReports? || step.FinishCleaning? || step.AcceptNothing? || step.AcceptOk?
    ensures Placed(Do(s, step), x)
  {
    hide Ordered, Work;
    StaysPlaced(s, Do(s, step), x);
  }

  lemma MarkKeeps(s: Server, x: ConnId)
    requires PlacesInv(s) && Enabled(s, MarkConnected) && x in s.info
    ensures Placed(Do(s, MarkConnected), x)
  {
    assert Placed(s, x);
    if x != s.pc.id {
      StaysPlaced(s, Do(s, MarkConnected), x);
    }
  }

  lemma ApplyDeleteKeeps(s: Server, l: nat, x: ConnId)
    requires Inv(s) && PlacesInv(s) && Enabled(s, ApplyDelete(l)) && x in s.info
    ensures Placed(Do(s, ApplyDelete(l)), x)
  {
    TaskNamesOwner(s, l);
    var t := s.loops[l].localQ[0];
    hide Inv, PlacesInv, Placed;
    if t.fd in s.loops[l].channelMap {
      DeleteHitsKeeps(s, l, x);
    } else {
      PopKeeps(s, l, x);
    }
  }

  lemma DeleteHitsKeeps(s: Server, l: nat, x: ConnId)
    requires Inv(s) && PlacesInv(s) && Enabled(s, ApplyDelete(l)) && x in s.info
    requires var t := s.loops[l].localQ[0]; t.fd in s.loops[l].channelMap && s.loops[l].channelMap[t.fd] == t.id
    ensures Placed(Do(s, ApplyDelete(l)), x)
  {
    var t := s.loops[l].localQ[0];
    PopsHead(s, l);
    assert Do(s, ApplyDelete(l)) == RemoveChannel(PopTask(s, l), l, t.fd);
    hide Inv, PlacesInv, Placed, PopTask, Work, RemoveChannel, Do;
    RemoveKeeps(s, PopTask(s, l), l, t.fd, x);
  }

  // Every step takes one task from the front of a queue, adds one at its end, or leaves it.
  ghost predicate Works(s: Server, s': Server, l: nat)
    requires l < |s.loops|
  {
    |s'.loops| == |s.loops| && WorkFrom(s, s', l) && OnlyOn(s.info, s'.info)
  }

  lemma SameWork(s: Server, s': Server, l: nat)
    requires l < |s.loops| == |s'.loops| && OnlyOn(s.info, s'.info) && Work(s'.loops[l]) == Work(s.loops[l])
    ensures Works(s, s', l)
  {
  }

  lemma PushWorks(s: Server, s': Server, here: nat, t: Task, l: nat)
    requires l < |s.loops| && here < |s.loops| && t.id in s'.info && !s'.info[t.id].stage.InTable?
    requires t.Add? ==> forall u | u in Work(s.loops[here]) :: u.id != t.id
    requires s'.loops == Push(s, here, t).loops && OnlyOn(s.info, s'.info)
    ensures Works(s, s', l)
  {
    if l == here {
      assert Work(s'.loops[l]) == Work(s.loops[l]) + [t];
    } else {
      SameWork(s, s', l);
    }
  }

  lemma PopWorks(s: Server, s1: Server, here: nat, l: nat)
    requires l < |s.loops| == |s1.loops| && here < |s.loops| && s.loops[here].localQ != [] && OnlyOn(s.info, s1.info)
    requires forall k | 0 <= k < |s.loops| && k != here :: s1.loops[k] == s.loops[k]
    requires s1.loops[here].localQ == s.loops[here].localQ[1..] && s1.loops[here].taskQ == s.loops[here].taskQ
    ensures Works(s, s1, l)
  {
    if l == here {
      assert Work(s1.loops[l]) == Work(s.loops[l])[1..];
    } else {
      SameWork(s, s1, l);
    }
  }

  lemma CloseWorks(s: Server, id: ConnId, l: nat)
    requires PlacesInv(s) && Known(s, id) && l < |s.loops|
    ensures Works(s, HandleClose(s, id), l)
  {
    var c, s' := s.info[id], HandleClose(s, id);
    assert Placed(s, id);
    hide PlacesInv, Found, Ordered, Work;
    if s'.loops == s.loops {
      SameWork(s, s', l);
    } else {
      PushWorks(s, s', c.loop, Delete(c.fd, id), l);
    }
  }

  lemma PushAddWorks(s: Server, l: nat)
    requires Inv(s) && PlacesInv(s) && Enabled(s, PushAdd) && l < |s.loops|
    ensures Works(s, Do(s, PushAdd), l)
  {
    var id, c := s.pc.id, s.info[s.pc.id];
    assert AcceptInv(s) && c.stage.InTable? && Ordered(s.info, Work(s.loops[c.loop]));
    hide Inv, PlacesInv, Work;
    PushWorks(s, Do(s, PushAdd), c.loop, Add(c.fd, id), l);
  }

  // RemoveChannel and CloseFd touch only the destructor, the map and one stage.
  lemma ApplyWorks(s: Server, step: Step, here: nat, l: nat)
    requires Enabled(s, step) && l < |s.loops|
    requires step == ApplyDelete(here) || step == ApplyModify(here) || (step.ApplyAdd? && step.l == here)
    ensures Works(s, Do(s, step), l)
  {
    var s' := Do(s, step);
    assert s'.loops[here].localQ == s.loops[here].localQ[1..] && s'.loops[here].taskQ == s.loops[here].taskQ;
    assert OnlyOn(s.info, s'.info);
    hide OnlyOn, Work;
    PopWorks(s, s', here, l);
  }

  lemma LoopWorks(s: Server, step: Step, here: nat, l: nat)
    requires Enabled(s, step) && l < |s.loops|
    requires step == Swap(here) || step == DetachConn(here) || step == ReportClosed(here)
             || (step.ErrorRemove? && step.l == here)
    ensures Works(s, Do(s, step), l)
  {
    var s' := Do(s, step);
    assert Work(s'.loops[here]) == Work(s.loops[here]);
    assert OnlyOn(s.info, s'.info);
    hide OnlyOn, Work;
    SameWork(s, s', l);
  }

  lemma AcceptWorks(s: Server, step: Step, l: nat)
    requires AcceptInv(s) && Enabled(s, step) && l < |s.loops|
    requires step.TakeReports? || step.EraseOne? || step.FinishCleaning? || step.AcceptNothing? || step.AcceptOk?
             || step.InsertConn? || step.MarkConnected?
    ensures Works(s, Do(s, step), l)
  {
    var s' := Do(s, step);
    assert s'.loops == s.loops && OnlyOn(s.info, s'.info);
    hide OnlyOn, Work;
    SameWork(s, s', l);
  }

  lemma StepKeepsOrder(s: Server, step: Step, l: nat)
    requires Inv(s) && PlacesInv(s) && Enabled(s, step) && l < |s.loops|
    ensures Works(s, Do(s, step), l) && Ordered(Do(s, step).info, Work(Do(s, step).loops[l]))
  {
    assert step.HandlerModify? ==> Placed(s, step.id);
    assert Ordered(s.info, Work(s.loops[l])) && AcceptInv(s);
    hide Inv, PlacesInv, Found, Work, AcceptInv, Ordered, OnlyOn, WorkFrom;
    match step {
      case IdleClose(fd) => CloseWorks(s, s.conns[fd], l);
      case HandlerClose(id) => CloseWorks(s, id, l);
      case PushAdd => PushAddWorks(s, l);
      case HandlerModify(id) => PushWorks(s, Do(s, step), s.info[id].loop, Modify(s.info[id].fd, id), l);
      case ApplyAdd(here, _) => ApplyWorks(s, step, here, l);
      case ApplyDelete(here) => ApplyWorks(s, step, here, l);
      case ApplyModify(here) => ApplyWorks(s, step, here, l);
      case Swap(here) => LoopWorks(s, step, here, l);
      case ErrorRemove(here, _) => LoopWorks(s, step, here, l);
      case DetachConn(here) => LoopWorks(s, step, here, l);
      case ReportClosed(here) => LoopWorks(s, step, here, l);
      case _ => AcceptWorks(s, step, l);
    }
    WorkOrdered(s, Do(s, step), l);
  }

  lemma SameLoops(s: Server, step: Step)
    requires Enabled(s, step)
    ensures |Do(s, step).loops| == |s.loops|
  {
  }

  lemma StepKeepsPlaces(s: Server, step: Step)
    requires Inv(s) && PlacesInv(s) && Enabled(s, step)
    ensures PlacesInv(Do(s, step))
  {
    var s' := Do(s, step);
    SameLoops(s, step);
    hide Inv, Placed, Ordered, Do, Enabled, Works;
    forall id | id in s'.info ensures Placed(s', id) {
      StepKeepsPlace(s, step, id);
    }
    forall l | 0 <= l < |s'.loops| ensures Ordered(s'.info, Work(s'.loops[l])) {
      StepKeepsOrder(s, step, l);
    }
  }

  lemma {:induction false} RunKeepsPlaces(states: seq<Server>, steps: seq<Step>, i: nat)
    requires Run(states, steps) && i < |states|
    ensures Inv(states[i]) && PlacesInv(states[i])
  {
    hide Inv, PlacesInv, Do, Enabled;
    RunKeepsInv(states, steps, i);
    if i == 0 {
      StartPlaces(states[0]);
    } else {
      RunKeepsPlaces(states, steps, i - 1);
      StepKeepsPlaces(states[i - 1], steps[i - 1]);
    }
  }

  // ------------------------------------------------------------------ theorems

  // Where the accepting thread, a queue, a map, a destructor or a report has hold of a connection.
  datatype Place = Handing | Queued | Mapped | Closing | Leaving | Waiting

  ghost predicate StandsAt(s: Server, fd: int, id: ConnId, place: Place)
    requires id in s.info && s.info[id].loop < |s.loops|
  {
    var p := s.loops[s.info[id].loop];
    match place
    case Handing => s.pc == Inserted(id)
    case Queued => Add(fd, id) in Work(p)
    case Mapped => fd in p.channelMap && p.channelMap[fd] == id
    case Closing => p.dtor == Closed(id)
    case Leaving => p.dtor == Cleared(id)
    case Waiting => Report(fd, id) in Reports(s)
  }

  function PlaceOf(stage: Stage): Place {
    match stage
    case InTable => Handing
    case AddQueued => Queued
    case Live => Mapped
    case FdClosed => Closing
    case Detached => Leaving
    case _ => Waiting
  }

  lemma StandsWhereItIs(s: Server, fd: int)
    requires Inv(s) && PlacesInv(s) && fd in s.conns
    ensures var id := s.conns[fd];
      id in s.info && s.info[id].loop < |s.loops| && StandsAt(s, fd, id, PlaceOf(s.info[id].stage))
  {
    var id := s.conns[fd];
    assert TableInv(s.info, s.nextId, |s.loops|, s.conns) && Placed(s, id);
    if s.info[id].stage.Reported? {
      assert IsReported(Reports(s), id);
    }
  }

  lemma StandsNowhereElse(s: Server, fd: int, place: Place)
    requires Inv(s) && fd in s.conns && s.conns[fd] in s.info && s.info[s.conns[fd]].loop < |s.loops|
    requires StandsAt(s, fd, s.conns[fd], place)
    ensures place == PlaceOf(s.info[s.conns[fd]].stage)
  {
    var id := s.conns[fd];
    var l := s.info[id].loop;
    OneLoop(s.info, s.loops, l);
    if place == Queued {
      assert TaskOk(s.info, l, Add(fd, id));
    }
  }

  // In every run, each connection of the table stands at exactly one of these places: none is ever lost, and
  // none is in two hands.
  lemma NothingIsLost(states: seq<Server>, steps: seq<Step>, i: nat, fd: int)
    requires Run(states, steps) && i < |states| && fd in states[i].conns
    ensures var s, id := states[i], states[i].conns[fd];
      && id in s.info && s.info[id].loop < |s.loops|
      && exists place :: StandsAt(s, fd, id, place) && forall other :: StandsAt(s, fd, id, other) ==> other == place
  {
    RunKeepsPlaces(states, steps, i);
    var s, id := states[i], states[i].conns[fd];
    hide Inv, PlacesInv, StandsAt;
    StandsWhereItIs(s, fd);
    forall other | StandsAt(s, fd, id, other) ensures other == PlaceOf(s.info[id].stage) {
      StandsNowhereElse(s, fd, other);
    }
  }

  // A connection whose destructor has ended stands in the reports until the table loses it.
  lemma DeathIsReported(states: seq<Server>, steps: seq<Step>, j: nat, i: nat, l: nat)
    requires Run(states, steps) && j < i < |states| && steps[j] == ReportClosed(l)
    ensures l < |states[j].loops| && states[j].loops[l].dtor.Cleared?
    ensures var id := states[j].loops[l].dtor.id;
      forall fd | fd in states[i].conns && states[i].conns[fd] == id :: Report(fd, id) in Reports(states[i])
  {
    var id := states[j].loops[l].dtor.id;
    PastIt(states, steps, j, i, l);
    RunKeepsPlaces(states, steps, i);
    var s := states[i];
    forall fd | fd in s.conns && s.conns[fd] == id ensures Report(fd, id) in Reports(s) {
      assert TableInv(s.info, s.nextId, |s.loops|, s.conns);
      StandsWhereItIs(s, fd);
    }
  }

  predicate Over(stage: Stage) { stage.Reported? || stage.Erased? }

  lemma StaysOver(s: Server, step: Step, id: ConnId)
    requires Inv(s) && Enabled(s, step) && id in s.info && Over(s.info[id].stage)
    ensures id in Do(s, step).info && Over(Do(s, step).info[id].stage)
  {
    assert AcceptInv(s);
    hide Inv, Do, AcceptInv, Over;
    match step {
      case ApplyAdd(l, _) => LoopStaysOver(s, step, l, id);
      case ApplyDelete(l) => LoopStaysOver(s, step, l, id);
      case ErrorRemove(l, _) => LoopStaysOver(s, step, l, id);
      case DetachConn(l) => LoopStaysOver(s, step, l, id);
      case _ => OthersStayOver(s, step, id);
    }
  }

  lemma LoopStaysOver(s: Server, step: Step, l: nat, id: ConnId)
    requires Inv(s) && Enabled(s, step) && id in s.info && Over(s.info[id].stage)
    requires (step.ApplyAdd? && step.l == l) || step == ApplyDelete(l) || (step.ErrorRemove? && step.l == l)
             || step == DetachConn(l)
    ensures id in Do(s, step).info && Over(Do(s, step).info[id].stage)
  {
    VictimIsLive(s, l);
    DestructorOf(s, l);
    if step.ApplyAdd? {
      AddMeetsNoChannel(s, l);
    }
    hide Inv, MapInv;
  }

  lemma OthersStayOver(s: Server, step: Step, id: ConnId)
    requires AcceptInv(s) && Enabled(s, step) && id in s.info && Over(s.info[id].stage)
    requires !step.ApplyAdd? && !step.ApplyDelete? && !step.ErrorRemove? && !step.DetachConn?
    ensures id in Do(s, step).info && Over(Do(s, step).info[id].stage)
  {
  }

  lemma VictimIsLive(s: Server, l: nat)
    requires Inv(s) && l < |s.loops|
    ensures MapInv(s.info, l, s.loops[l].channelMap)
    ensures forall fd | fd in s.loops[l].channelMap ::
              s.loops[l].channelMap[fd] in s.info && s.info[s.loops[l].channelMap[fd]].stage.Live?
  {
    OneLoop(s.info, s.loops, l);
  }

  lemma {:induction false} PastIt(states: seq<Server>, steps: seq<Step>, j: nat, i: nat, l: nat)
    requires Run(states, steps) && j < i < |states| && steps[j] == ReportClosed(l)
    ensures l < |states[j].loops| && states[j].loops[l].dtor.Cleared?
    ensures var id := states[j].loops[l].dtor.id; id in states[i].info && Over(states[i].info[id].stage)
    decreases i
  {
    assert Enabled(states[j], steps[j]);
    hide Inv;
    if i > j + 1 {
      hide Do, Enabled;
      PastIt(states, steps, j, i - 1, l);
      RunKeepsInv(states, steps, i - 1);
      StaysOver(states[i - 1], steps[i - 1], states[j].loops[l].dtor.id);
    }
  }

  // A connection that is closing has its DELETE in its loop's queue, with its Channel mapped or its ADD queued
  // before it; or its destructor runs.
  lemma ClosingIsUnderWay(states: seq<Server>, steps: seq<Step>, i: nat, fd: int)
    requires Run(states, steps) && i < |states| && fd in states[i].conns
    requires states[i].conns[fd] in states[i].info && states[i].info[states[i].conns[fd]].state == Disconnecting
    ensures var s, id := states[i], states[i].conns[fd];
      && s.info[id].loop < |s.loops|
      && var p := s.loops[s.info[id].loop];
         || p.dtor == Closed(id)
         || (Delete(fd, id) in Work(p) && fd in p.channelMap && p.channelMap[fd] == id)
         || exists a, d :: 0 <= a < d < |Work(p)| && Work(p)[a] == Add(fd, id) && Work(p)[d] == Delete(fd, id)
  {
    RunKeepsPlaces(states, steps, i);
    var s, id := states[i], states[i].conns[fd];
    assert TableInv(s.info, s.nextId, |s.loops|, s.conns) && Placed(s, id);
    var c := s.info[id];
    var q := Work(s.loops[c.loop]);
    assert Ordered(s.info, q);
    hide Inv, PlacesInv, Placed, TableInv, Work, Run;
    if c.stage.AddQueued? {
      InThisOrder(s.info, q, fd, id);
    }
  }

  lemma InThisOrder(info: Book, q: seq<Task>, fd: int, id: ConnId)
    requires Ordered(info, q) && Add(fd, id) in q && Delete(fd, id) in q
    ensures exists a, d :: 0 <= a < d < |q| && q[a] == Add(fd, id) && q[d] == Delete(fd, id)
  {
    var a :| 0 <= a < |q| && q[a] == Add(fd, id);
    var d :| 0 <= d < |q| && q[d] == Delete(fd, id);
    assert a < d;
  }

  // Outside the accepting thread's own hand-over no connection is still connecting.
  lemma ConnectingIsBrief(states: seq<Server>, steps: seq<Step>, i: nat, id: ConnId)
    requires Run(states, steps) && i < |states| && id in states[i].info && states[i].info[id].state == Connecting
    ensures states[i].pc == Inserted(id) || states[i].pc == Registered(id)
  {
    RunKeepsPlaces(states, steps, i);
    assert Placed(states[i], id);
  }

  // ------------------------------------------------------------------ conservation of the queues

  // What a close asks of loop l: one DELETE, the first time.
  function AskedByClose(s: Server, id: ConnId, l: nat): seq<Task>
    requires id in s.info
  {
    var c := s.info[id];
    if c.loop == l && c.hasChannel && (c.state == Connecting || c.state == Connected) then [Delete(c.fd, id)] else []
  }

  // What a step asks of loop l.
  function Asked(s: Server, step: Step, l: nat): seq<Task>
    requires Enabled(s, step)
  {
    match step
    case IdleClose(fd) => AskedByClose(s, s.conns[fd], l)
    case HandlerClose(id) => AskedByClose(s, id, l)
    case PushAdd => if s.info[s.pc.id].loop == l then [Add(s.info[s.pc.id].fd, s.pc.id)] else []
    case HandlerModify(id) => if s.info[id].loop == l then [Modify(s.info[id].fd, id)] else []
    case _ => []
  }

  // What a step of loop l applies.
  function Applied(s: Server, step: Step, l: nat): seq<Task>
    requires Enabled(s, step)
  {
    if step == ApplyDelete(l) || step == ApplyModify(l) || (step.ApplyAdd? && step.l == l) then [s.loops[l].localQ[0]]
    else []
  }

  lemma QueueStep(s: Server, step: Step, l: nat)
    requires Enabled(s, step) && l < |s.loops|
    ensures l < |Do(s, step).loops|
    ensures Work(s.loops[l]) + Asked(s, step, l) == Applied(s, step, l) + Work(Do(s, step).loops[l])
  {
    match step {
      case IdleClose(fd) => CloseAsks(s, s.conns[fd], l);
      case HandlerClose(id) => CloseAsks(s, id, l);
      case PushAdd => PushAsks(s, s.info[s.pc.id].loop, Add(s.info[s.pc.id].fd, s.pc.id), l);
      case HandlerModify(id) => PushAsks(s, s.info[id].loop, Modify(s.info[id].fd, id), l);
      case ApplyAdd(here, _) => HeadApplied(s, step, here, l);
      case ApplyDelete(here) => HeadApplied(s, step, here, l);
      case ApplyModify(here) => HeadApplied(s, step, here, l);
      case _ => NothingAsked(s, step, l);
    }
    hide Work, Push, HandleClose, RemoveChannel, CloseFd, PopTask, Enabled;
  }

  lemma PushAsks(s: Server, here: nat, t: Task, l: nat)
    requires here < |s.loops| && l < |s.loops|
    ensures Work(Push(s, here, t).loops[l]) == Work(s.loops[l]) + if here == l then [t] else []
  {
  }

  lemma CloseAsks(s: Server, id: ConnId, l: nat)
    requires Known(s, id) && l < |s.loops|
    ensures |HandleClose(s, id).loops| == |s.loops|
    ensures Work(HandleClose(s, id).loops[l]) == Work(s.loops[l]) + AskedByClose(s, id, l)
  {
    var c := s.info[id];
    PushAsks(s.(info := s.info[id := c.(state := Disconnecting)]), c.loop, Delete(c.fd, id), l);
    hide Work;
  }

  lemma HeadApplied(s: Server, step: Step, here: nat, l: nat)
    requires Enabled(s, step) && l < |s.loops|
    requires step == ApplyDelete(here) || step == ApplyModify(here) || (step.ApplyAdd? && step.l == here)
    ensures var s' := Do(s, step);
      && |s'.loops| == |s.loops| && s'.loops[here].localQ == s.loops[here].localQ[1..]
      && Work(s.loops[l]) == Applied(s, step, l) + Work(s'.loops[l])
  {
    PopsHead(s, here);
    var s' := Do(s, step);
    assert s'.loops[here].localQ == s.loops[here].localQ[1..] && s'.loops[here].taskQ == s.loops[here].taskQ;
    assert l != here ==> s'.loops[l] == s.loops[l];
    hide Do, PopTask;
  }

  lemma NothingAsked(s: Server, step: Step, l: nat)
    requires Enabled(s, step) && l < |s.loops| && !step.IdleClose? && !step.HandlerClose? && !step.PushAdd?
    requires !step.HandlerModify? && !step.ApplyAdd? && !step.ApplyDelete? && !step.ApplyModify?
    ensures |Do(s, step).loops| == |s.loops| && Work(Do(s, step).loops[l]) == Work(s.loops[l])
  {
  }

  // Everything asked of loop l in the first i steps, and everything it applied, in order.
  function AskedBy(states: seq<Server>, steps: seq<Step>, l: nat, i: nat): seq<Task>
    requires i <= |steps| <= |states| && forall k | 0 <= k < i :: Enabled(states[k], steps[k])
  {
    if i == 0 then [] else AskedBy(states, steps, l, i - 1) + Asked(states[i - 1], steps[i - 1], l)
  }

  function AppliedBy(states: seq<Server>, steps: seq<Step>, l: nat, i: nat): seq<Task>
    requires i <= |steps| <= |states| && forall k | 0 <= k < i :: Enabled(states[k], steps[k])
  {
    if i == 0 then [] else AppliedBy(states, steps, l, i - 1) + Applied(states[i - 1], steps[i - 1], l)
  }

  // In every run, what was asked of a loop is what it applied and what it still has to apply: each ADD, DELETE
  // and MODIFY once, in order.
  lemma {:induction false} EveryTaskOnce(states: seq<Server>, steps: seq<Step>, l: nat, i: nat)
    requires Run(states, steps) && i < |states| && l < |states[0].loops|
    ensures l < |states[i].loops|
    ensures AskedBy(states, steps, l, i) == AppliedBy(states, steps, l, i) + Work(states[i].loops[l])
  {
    hide Do, Enabled, Asked, Applied, Work;
    if i == 0 {
      NothingYet(states[0], l);
    } else {
      EveryTaskOnce(states, steps, l, i - 1);
      QueueStep(states[i - 1], steps[i - 1], l);
      Regroup(AskedBy(states, steps, l, i - 1), AppliedBy(states, steps, l, i - 1), Work(states[i - 1].loops[l]),
              Asked(states[i - 1], steps[i - 1], l), Applied(states[i - 1], steps[i - 1], l), Work(states[i].loops[l]));
    }
  }

  lemma Regroup(asked: seq<Task>, applied: seq<Task>, work: seq<Task>, more: seq<Task>, head: seq<Task>,
                rest: seq<Task>)
    requires asked == applied + work && work + more == head + rest
    ensures asked + more == (applied + head) + rest
  {
    assert asked + more == applied + (work + more);
  }

  lemma NothingYet(s: Server, l: nat)
    requires Init(s) && l < |s.loops|
    ensures Work(s.loops[l]) == []
  {
  }

  // ------------------------------------------------------------------ numbers

  ghost predicate Numbered(info: Book, pc: AcceptPc) {
    (forall id | id in info :: info[id].fd >= 0) && (pc.Accepted? ==> pc.fd >= 0)
  }

  lemma StepKeepsNumbers(s: Server, step: Step)
    requires Enabled(s, step) && Numbered(s.info, s.pc)
    ensures Numbered(Do(s, step).info, Do(s, step).pc)
  {
    if step.ApplyAdd? || step.ApplyDelete? || step.ApplyModify? || step.ErrorRemove? {
      TasksKeepNumbers(s, step);
      hide Do;
    }
  }

  lemma TasksKeepNumbers(s: Server, step: Step)
    requires Enabled(s, step) && Numbered(s.info, s.pc)
    requires step.ApplyAdd? || step.ApplyDelete? || step.ApplyModify? || step.ErrorRemove?
    ensures Numbered(Do(s, step).info, Do(s, step).pc)
  {
  }

  // No report is ever ignored for its number.
  lemma {:induction false} NumbersAreValid(states: seq<Server>, steps: seq<Step>, i: nat)
    requires Run(states, steps) && i < |states|
    ensures forall id | id in states[i].info :: states[i].info[id].fd >= 0
    ensures states[i].pc.Accepted? ==> states[i].pc.fd >= 0
  {
    hide Do, Enabled;
    if i > 0 {
      NumbersAreValid(states, steps, i - 1);
      StepKeepsNumbers(states[i - 1], steps[i - 1]);
    }
  }

  // ------------------------------------------------------------------ descriptors

  // An open descriptor is that of a connection that has not closed it, or has just been accepted.
  ghost predicate HeldBySomeone(s: Server, fd: int)
    requires fd in s.kernel
  {
    var id := s.kernel[fd];
    s.pc == Accepted(fd, id) || (id in s.info && s.info[id].fd == fd && HoldsFd(s.info[id].stage))
  }

  ghost predicate NoneLeaks(s: Server) { forall fd | fd in s.kernel :: HeldBySomeone(s, fd) }

  // Only accept opens, and only what Closes names is closed.
  lemma KernelStep(s: Server, step: Step)
    requires Inv(s) && Enabled(s, step)
    ensures Do(s, step).kernel ==
              if step.AcceptOk? then s.kernel[step.fd := s.nextId]
              else if Closes(s, step).Close? then s.kernel - {Closes(s, step).fd}
              else s.kernel
  {
    if Closes(s, step).Close? {
      ClosesOwn(s, step);
      hide Inv, Do;
    } else if !step.AcceptOk? {
      NothingCloses(s, step);
      hide Inv, Do, Closes;
    } else {
      hide Inv;
    }
  }

  lemma NothingCloses(s: Server, step: Step)
    requires Enabled(s, step) && Closes(s, step).NoClose? && !step.AcceptOk?
    ensures Do(s, step).kernel == s.kernel
  {
  }

  // Whoever held a descriptor before a step that does not close it holds it after.
  ghost predicate GoesOnHolding(s: Server, s': Server, id: ConnId)
    requires id in s.info
  {
    id in s'.info && s'.info[id].fd == s.info[id].fd && (HoldsFd(s.info[id].stage) ==> HoldsFd(s'.info[id].stage))
  }

  lemma LoopHolds(s: Server, step: Step, l: nat, id: ConnId)
    requires Inv(s) && Enabled(s, step) && id in s.info
    requires (step.ApplyAdd? && step.l == l) || step == ApplyDelete(l) || (step.ErrorRemove? && step.l == l)
    ensures GoesOnHolding(s, Do(s, step), id) || Closes(s, step) == Close(s.info[id].fd, id)
  {
    MapNeverBlocks(s, l);
    OneLoop(s.info, s.loops, l);
    assert MapInv(s.info, l, s.loops[l].channelMap);
    if step.ApplyAdd? {
      AddMeetsNoChannel(s, l);
    }
    hide Inv, LoopInv;
  }

  lemma DestructorHolds(s: Server, step: Step, l: nat, id: ConnId)
    requires Inv(s) && Enabled(s, step) && id in s.info && (step == DetachConn(l) || step == ReportClosed(l))
    ensures GoesOnHolding(s, Do(s, step), id)
  {
    DestructorOf(s, l);
    hide Inv;
  }

  lemma EraseHolds(s: Server, id: ConnId)
    requires Inv(s) && Enabled(s, EraseOne) && id in s.info
    ensures GoesOnHolding(s, Do(s, EraseOne), id)
  {
    EraseHitsOwner(s);
    EraseDoes(s);
    hide Inv, Do;
  }

  lemma OthersHold(s: Server, step: Step, id: ConnId)
    requires AcceptInv(s) && Enabled(s, step) && id in s.info
    requires !step.ApplyAdd? && !step.ApplyDelete? && !step.ErrorRemove? && !step.DetachConn? && !step.ReportClosed?
    requires !step.EraseOne?
    ensures GoesOnHolding(s, Do(s, step), id)
  {
  }

  lemma StepHolds(s: Server, step: Step, id: ConnId)
    requires Inv(s) && Enabled(s, step) && id in s.info
    ensures GoesOnHolding(s, Do(s, step), id) || Closes(s, step) == Close(s.info[id].fd, id)
  {
    assert AcceptInv(s);
    hide Inv, Do, Closes, AcceptInv, GoesOnHolding;
    match step {
      case ApplyAdd(l, _) => LoopHolds(s, step, l, id);
      case ApplyDelete(l) => LoopHolds(s, step, l, id);
      case ErrorRemove(l, _) => LoopHolds(s, step, l, id);
      case DetachConn(l) => DestructorHolds(s, step, l, id);
      case ReportClosed(l) => DestructorHolds(s, step, l, id);
      case EraseOne => EraseHolds(s, id);
      case _ => OthersHold(s, step, id);
    }
  }

  // What becomes of the descriptor just accepted.
  lemma JustAccepted(s: Server, step: Step)
    requires Enabled(s, step) && s.pc.Accepted?
    ensures var fd, id, s' := s.pc.fd, s.pc.id, Do(s, step);
      || s'.pc == s.pc
      || Closes(s, step) == Close(fd, id)
      || (id in s'.info && s'.info[id].fd == fd && HoldsFd(s'.info[id].stage))
  {
  }

  lemma StepLeaksNone(s: Server, step: Step)
    requires Inv(s) && NoneLeaks(s) && Enabled(s, step)
    ensures NoneLeaks(Do(s, step))
  {
    var s' := Do(s, step);
    KernelStep(s, step);
    if s.pc.Accepted? {
      JustAccepted(s, step);
    }
    assert step.AcceptOk? ==> s'.pc == Accepted(step.fd, s.nextId) && s.pc == Accepting;
    hide Inv, Do, Closes, Enabled;
    forall fd | fd in s'.kernel ensures HeldBySomeone(s', fd) {
      if fd in s.kernel && s'.kernel[fd] == s.kernel[fd] {
        assert HeldBySomeone(s, fd);
        if s.kernel[fd] in s.info {
          StepHolds(s, step, s.kernel[fd]);
        }
      }
    }
  }

  lemma {:induction false} RunLeaksNone(states: seq<Server>, steps: seq<Step>, i: nat)
    requires Run(states, steps) && i < |states|
    ensures NoneLeaks(states[i])
  {
    hide Inv, Do, Enabled, HeldBySomeone;
    if i > 0 {
      RunLeaksNone(states, steps, i - 1);
      RunKeepsInv(states, steps, i - 1);
      hide NoneLeaks;
      StepLeaksNone(states[i - 1], steps[i - 1]);
    }
  }

  // In every run, the open descriptors are exactly those of the connections that have not closed theirs, and the
  // one just accepted: none leaks.
  lemma NoDescriptorLeaks(states: seq<Server>, steps: seq<Step>, i: nat)
    requires Run(states, steps) && i < |states|
    ensures forall fd | fd in states[i].kernel :: HeldBySomeone(states[i], fd)
    ensures forall id | id in states[i].info && HoldsFd(states[i].info[id].stage) ::
              states[i].info[id].fd in states[i].kernel && states[i].kernel[states[i].info[id].fd] == id
  {
    RunLeaksNone(states, steps, i);
    RunKeepsInv(states, steps, i);
    var s := states[i];
    assert KernelInv(s.info, s.nextId, s.kernel) && NoneLeaks(s);
    hide Run, Inv, HeldBySomeone;
  }
}
