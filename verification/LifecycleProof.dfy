/** Every step of the connection lifecycle keeps the invariant. */
module LifecycleProof {
  import opened ConnStates
  import opened Lifecycle

  // ------------------------------------------------------------------ one loop

  // What loop l relies on about `info` is unchanged.
  ghost predicate SameFor(info: Book, info': Book, l: nat) {
    forall id | id in info ::
      && id in info' && info'[id].fd == info[id].fd && info'[id].loop == info[id].loop
      && (|| info'[id].stage == info[id].stage
          || info[id].loop != l
          || info[id].stage.InTable? || info[id].stage.Reported?)
  }

  lemma LoopFrame(info: Book, info': Book, l: nat, p: Loop)
    requires LoopInv(info, l, p) && SameFor(info, info', l)
    ensures LoopInv(info', l, p)
  {
  }

  lemma OneLoop(info: Book, loops: seq<Loop>, l: nat)
    requires LoopsInv(info, loops) && l < |loops|
    ensures LoopInv(info, l, loops[l])
  {
  }

  // Every loop but `here` keeps its invariant; loop `here` is re-established separately.
  lemma LoopsFrame(info: Book, info': Book, loops: seq<Loop>, here: nat, p: Loop)
    requires LoopsInv(info, loops) && here < |loops|
    requires forall l | 0 <= l < |loops| && l != here :: SameFor(info, info', l)
    requires LoopInv(info', here, p)
    ensures LoopsInv(info', loops[here := p])
  {
    var loops' := loops[here := p];
    forall l | 0 <= l < |loops'| ensures LoopInv(info', l, loops'[l]) {
      if l != here {
        LoopFrame(info, info', l, loops[l]);
      }
    }
  }

  lemma AllLoopsFrame(info: Book, info': Book, loops: seq<Loop>)
    requires LoopsInv(info, loops)
    requires forall l | 0 <= l < |loops| :: SameFor(info, info', l)
    ensures LoopsInv(info', loops)
  {
    forall l | 0 <= l < |loops| ensures LoopInv(info', l, loops[l]) {
      LoopFrame(info, info', l, loops[l]);
    }
  }

  lemma PushKeepsQueue(info: Book, l: nat, q: seq<Task>, m: map<int, ConnId>, t: Task)
    requires QueueInv(info, l, q, m) && TaskOk(info, l, t)
    requires forall i | 0 <= i < |q| && q[i].Add? && q[i].fd == t.fd :: !t.Add? && q[i].id == t.id
    requires t.fd in m ==> m[t.fd] == t.id
    ensures QueueInv(info, l, q + [t], m)
  {
  }

  lemma PushKeepsLoop(info: Book, l: nat, p: Loop, t: Task)
    requires LoopInv(info, l, p) && TaskOk(info, l, t)
    requires forall u | u in p.localQ + p.taskQ && u.Add? && u.fd == t.fd :: !t.Add? && u.id == t.id
    requires t.fd in p.channelMap ==> p.channelMap[t.fd] == t.id
    ensures LoopInv(info, l, p.(taskQ := p.taskQ + [t]))
  {
    PushKeepsQueue(info, l, p.localQ + p.taskQ, p.channelMap, t);
    assert p.localQ + (p.taskQ + [t]) == p.localQ + p.taskQ + [t];
  }

  // The rest of the queue, whatever becomes of its head.
  lemma PopKeepsQueue(info: Book, l: nat, p: Loop)
    requires QueueInv(info, l, p.localQ + p.taskQ, p.channelMap) && p.localQ != []
    ensures QueueInv(info, l, p.localQ[1..] + p.taskQ, p.channelMap)
    ensures p.localQ[1..] + p.taskQ == (p.localQ + p.taskQ)[1..]
  {
    var q := p.localQ + p.taskQ;
    assert p.localQ[1..] + p.taskQ == q[1..];
    forall i, j | 0 <= i < j < |q[1..]| && q[1..][i].Add? && q[1..][i].fd == q[1..][j].fd
      ensures !q[1..][j].Add? && q[1..][i].id == q[1..][j].id
    {
      assert q[1..][i] == q[i + 1] && q[1..][j] == q[j + 1];
    }
  }

  // A DELETE or MODIFY for a connection whose Channel exists names no other connection on its loop.
  lemma PushForOwner(s: Server, id: ConnId, t: Task)
    requires Inv(s) && id in s.info && s.info[id].hasChannel
    requires t == Delete(s.info[id].fd, id) || t == Modify(s.info[id].fd, id)
    ensures s.info[id].loop < |s.loops|
    ensures LoopInv(s.info, s.info[id].loop,
                    s.loops[s.info[id].loop].(taskQ := s.loops[s.info[id].loop].taskQ + [t]))
  {
    var l := s.info[id].loop;
    var p := s.loops[l];
    assert LoopInv(s.info, l, p);
    assert s.conns[s.info[id].fd] == id;
    forall u | u in p.localQ + p.taskQ && u.Add? && u.fd == t.fd ensures u.id == t.id {
      assert TaskOk(s.info, l, u);
    }
    PushKeepsLoop(s.info, l, p, t);
  }

  // ------------------------------------------------------------------ one entry of the book

  lemma TableMoves(info: Book, id: ConnId, c: Connection, nextId: ConnId, n: nat, conns: map<int, ConnId>)
    requires TableInv(info, nextId, n, conns) && id in info
    requires c.fd == info[id].fd && c.loop == info[id].loop && (c.stage.Erased? <==> info[id].stage.Erased?)
    ensures TableInv(info[id := c], nextId, n, conns)
  {
  }

  lemma KernelMoves(info: Book, id: ConnId, c: Connection, nextId: ConnId, kernel: map<int, ConnId>)
    requires KernelInv(info, nextId, kernel) && id in info && c.fd == info[id].fd
    requires HoldsFd(c.stage) ==> HoldsFd(info[id].stage)
    requires c.hasChannel ==> c.stage.AddQueued? || c.stage.Live? || c.stage.FdClosed?
    ensures KernelInv(info[id := c], nextId, kernel)
  {
  }

  lemma KernelCloses(info: Book, id: ConnId, c: Connection, nextId: ConnId, kernel: map<int, ConnId>)
    requires KernelInv(info, nextId, kernel) && id in info && c.fd == info[id].fd
    requires c.fd in kernel && kernel[c.fd] == id && c.stage.FdClosed?
    ensures KernelInv(info[id := c], nextId, kernel - {c.fd})
  {
  }

  lemma ReportMoves(info: Book, id: ConnId, c: Connection, reports: seq<Report>)
    requires ReportInv(info, reports) && id in info && c.fd == info[id].fd
    requires c.stage == info[id].stage || (!info[id].stage.Reported? && !c.stage.Reported?)
    ensures ReportInv(info[id := c], reports)
  {
  }

  lemma ReportAdds(info: Book, id: ConnId, c: Connection, reports: seq<Report>)
    requires ReportInv(info, reports) && id in info && c.fd == info[id].fd
    requires !info[id].stage.Reported? && c.stage.Reported?
    ensures ReportInv(info[id := c], reports + [Report(c.fd, id)])
  {
    var more := reports + [Report(c.fd, id)];
    assert more[|reports|].id == id;
    forall x | x in info && info[x].stage.Reported? ensures IsReported(more, x) {
      assert IsReported(reports, x);
      var i :| 0 <= i < |reports| && reports[i].id == x;
      assert more[i].id == x;
    }
  }

  // ------------------------------------------------------------------ the accepting thread

  // Only the state_ field of one connection changes.
  lemma KeepsSetState(s: Server, id: ConnId, state: ConnState)
    requires Inv(s) && id in s.info
    ensures Inv(s.(info := s.info[id := s.info[id].(state := state)]))
  {
    var c := s.info[id].(state := state);
    assert s.info[id].hasChannel ==>
      s.info[id].stage.AddQueued? || s.info[id].stage.Live? || s.info[id].stage.FdClosed?;
    hide TableInv, KernelInv, ReportInv, LoopsInv;
    TableMoves(s.info, id, c, s.nextId, |s.loops|, s.conns);
    KernelMoves(s.info, id, c, s.nextId, s.kernel);
    ReportMoves(s.info, id, c, Reports(s));
    AllLoopsFrame(s.info, s.info[id := c], s.loops);
    assert Reports(s.(info := s.info[id := c])) == Reports(s);
  }

  lemma KeepsPushForOwner(s: Server, id: ConnId, t: Task)
    requires Inv(s) && id in s.info && s.info[id].hasChannel && s.info[id].loop < |s.loops|
    requires t == Delete(s.info[id].fd, id) || t == Modify(s.info[id].fd, id)
    ensures Inv(Push(s, s.info[id].loop, t))
  {
    var l := s.info[id].loop;
    PushForOwner(s, id, t);
    LoopsFrame(s.info, s.info, s.loops, l, s.loops[l].(taskQ := s.loops[l].taskQ + [t]));
    assert Reports(Push(s, l, t)) == Reports(s);
  }

  lemma KeepsHandleClose(s: Server, id: ConnId)
    requires Inv(s) && Known(s, id)
    ensures Inv(HandleClose(s, id))
  {
    var c := s.info[id];
    if c.state == Disconnecting || c.state == Disconnected {
    } else if c.hasChannel {
      KeepsSetState(s, id, Disconnecting);
      KeepsPushForOwner(s.(info := s.info[id := c.(state := Disconnecting)]), id, Delete(c.fd, id));
    } else {
      KeepsSetState(s, id, Disconnected);
    }
  }

  lemma KeepsTakeReports(s: Server)
    requires Inv(s) && Enabled(s, TakeReports)
    ensures Inv(Do(s, TakeReports))
  {
    assert Reports(Do(s, TakeReports)) == Reports(s);
  }

  lemma EraseHitsOwner(s: Server)
    requires Inv(s) && Enabled(s, EraseOne)
    ensures var r := s.pc.todo[0];
            r.fd in s.conns && s.conns[r.fd] == r.id && r.id in s.info && s.info[r.id].stage.Reported?
  {
    assert Reports(s)[0] == s.pc.todo[0];
  }

  lemma KeepsEraseOne(s: Server)
    requires Inv(s) && Enabled(s, EraseOne)
    ensures Inv(Do(s, EraseOne))
  {
    EraseHitsOwner(s);
    var s' := Do(s, EraseOne);
    var rs := Reports(s);
    EraseDoes(s);
    hide LoopsInv, TableInv, KernelInv, ReportInv, Do, Enabled, Reports;
    TableLoses(s.info, rs[0].id, rs[0].fd, s.nextId, |s.loops|, s.conns);
    KernelLoses(s.info, rs[0].id, s.nextId, s.kernel);
    ReportLoses(s.info, rs);
    AllLoopsFrame(s.info, s'.info, s.loops);
  }

  lemma EraseDoes(s: Server)
    requires Enabled(s, EraseOne) && var r := s.pc.todo[0]; r.fd in s.conns && s.conns[r.fd] == r.id && r.id in s.info
    ensures var s', rs, r := Do(s, EraseOne), Reports(s), s.pc.todo[0];
      && rs != [] && rs[0] == r && Reports(s') == rs[1..] && s'.info == s.info[r.id := s.info[r.id].(stage := Erased)]
      && s'.conns == s.conns - {r.fd} && s'.kernel == s.kernel && s'.loops == s.loops && s'.nextId == s.nextId
      && s'.gauge == s.gauge && s'.pc == Cleaning(s.pc.todo[1..], s.pc.removed + 1)
  {
    assert Reports(Do(s, EraseOne)) == Reports(s)[1..];
  }

  lemma TableLoses(info: Book, id: ConnId, fd: int, nextId: ConnId, n: nat, conns: map<int, ConnId>)
    requires TableInv(info, nextId, n, conns) && fd in conns && conns[fd] == id
    ensures id in info && TableInv(info[id := info[id].(stage := Erased)], nextId, n, conns - {fd})
    ensures |conns - {fd}| == |conns| - 1
  {
    assert (conns - {fd}).Keys == conns.Keys - {fd};
  }

  lemma KernelLoses(info: Book, id: ConnId, nextId: ConnId, kernel: map<int, ConnId>)
    requires KernelInv(info, nextId, kernel) && id in info && info[id].stage.Reported?
    ensures KernelInv(info[id := info[id].(stage := Erased)], nextId, kernel)
  {
  }

  lemma ReportLoses(info: Book, reports: seq<Report>)
    requires ReportInv(info, reports) && reports != []
    ensures reports[0].id in info
    ensures ReportInv(info[reports[0].id := info[reports[0].id].(stage := Erased)], reports[1..])
  {
    var id, rest := reports[0].id, reports[1..];
    assert forall i | 0 <= i < |rest| :: rest[i] == reports[i + 1] && rest[i].id != id;
    forall x | x in info && x != id && info[x].stage.Reported? ensures IsReported(rest, x) {
      assert IsReported(reports, x);
      var i :| 0 <= i < |reports| && reports[i].id == x;
      assert rest[i - 1].id == x;
    }
  }

  lemma KeepsFinishCleaning(s: Server)
    requires Inv(s) && Enabled(s, FinishCleaning)
    ensures Inv(Do(s, FinishCleaning))
  {
    assert Reports(Do(s, FinishCleaning)) == Reports(s);
  }

  lemma KeepsAcceptOk(s: Server, fd: int)
    requires Inv(s) && Enabled(s, AcceptOk(fd))
    ensures Inv(Do(s, AcceptOk(fd)))
  {
  }

  lemma KeepsInsertConn(s: Server, target: nat)
    requires Inv(s) && Enabled(s, InsertConn(target))
    ensures Inv(Do(s, InsertConn(target)))
  {
    hide LoopInv, LoopsInv, TableInv, KernelInv, ReportInv;
    var s', fd, id := Do(s, InsertConn(target)), s.pc.fd, s.pc.id;
    assert Reports(s') == Reports(s);
    if fd in s.conns {
      KernelDrops(s.info, s.nextId, s.kernel, fd);
    } else {
      var c := s'.info[id];
      TableGains(s.info, id, c, s.nextId, |s.loops|, s.conns);
      KernelGains(s.info, id, c, s.nextId, s.kernel);
      ReportGains(s.info, id, c, Reports(s));
      AllLoopsFrame(s.info, s'.info, s.loops);
    }
  }

  lemma TableGains(info: Book, id: ConnId, c: Connection, nextId: ConnId, n: nat, conns: map<int, ConnId>)
    requires TableInv(info, nextId, n, conns) && id !in info && id < nextId && c.fd !in conns
    requires c.loop < n && !c.stage.Erased?
    ensures TableInv(info[id := c], nextId, n, conns[c.fd := id])
  {
  }

  lemma KernelGains(info: Book, id: ConnId, c: Connection, nextId: ConnId, kernel: map<int, ConnId>)
    requires KernelInv(info, nextId, kernel) && id !in info && c.fd in kernel && kernel[c.fd] == id && !c.hasChannel
    ensures KernelInv(info[id := c], nextId, kernel)
  {
  }

  // The descriptor of an accept that never became a connection.
  lemma KernelDrops(info: Book, nextId: ConnId, kernel: map<int, ConnId>, fd: int)
    requires KernelInv(info, nextId, kernel) && fd in kernel && kernel[fd] !in info
    ensures KernelInv(info, nextId, kernel - {fd})
  {
  }

  lemma ReportGains(info: Book, id: ConnId, c: Connection, reports: seq<Report>)
    requires ReportInv(info, reports) && id !in info && !c.stage.Reported?
    ensures ReportInv(info[id := c], reports)
  {
  }

  lemma KeepsPushAdd(s: Server)
    requires Inv(s) && Enabled(s, PushAdd)
    ensures Inv(Do(s, PushAdd))
  {
    var id := s.pc.id;
    var c := s.info[id];
    var l := c.loop;
    var s' := Do(s, PushAdd);
    var t := Add(c.fd, id);
    var p := s.loops[l];
    assert LoopInv(s.info, l, p);
    LoopFrame(s.info, s'.info, l, p);
    assert s.conns[c.fd] == id;
    forall u | u in p.localQ + p.taskQ && u.Add? ensures u.fd != t.fd {
      assert TaskOk(s.info, l, u);
    }
    PushKeepsLoop(s'.info, l, p, t);
    hide LoopInv, QueueInv, MapInv, DtorInv;
    LoopsFrame(s.info, s'.info, s.loops, l, p.(taskQ := p.taskQ + [t]));
    hide LoopsInv, TableInv, KernelInv, ReportInv;
    var c' := s'.info[id];
    TableMoves(s.info, id, c', s.nextId, |s.loops|, s.conns);
    KernelMoves(s.info, id, c', s.nextId, s.kernel);
    ReportMoves(s.info, id, c', Reports(s));
    assert Reports(s') == Reports(s);
  }

  lemma KeepsMarkConnected(s: Server)
    requires Inv(s) && Enabled(s, MarkConnected)
    ensures Inv(Do(s, MarkConnected))
  {
    var id, s' := s.pc.id, Do(s, MarkConnected);
    KeepsSetState(s, id, Connected);
    assert Reports(s') == Reports(s);
    hide TableInv, KernelInv, ReportInv, LoopsInv;
    var s1 := s.(info := s.info[id := s.info[id].(state := Connected)]);
    assert s'.info == s1.info && Reports(s1) == Reports(s);
  }

  // ------------------------------------------------------------------ the loop threads

  lemma KeepsSwap(s: Server, l: nat)
    requires Inv(s) && Enabled(s, Swap(l))
    ensures Inv(Do(s, Swap(l)))
  {
    var p := s.loops[l];
    assert LoopInv(s.info, l, p);
    assert p.localQ + p.taskQ == p.taskQ + [];
    LoopsFrame(s.info, s.info, s.loops, l, p.(localQ := p.taskQ, taskQ := []));
  }

  // ~Channel closes its own connection's descriptor: `p` is loop l without that Channel.
  lemma KeepsCloseFd(s: Server, l: nat, p: Loop, fd: int, id: ConnId)
    requires Inv(s) && l < |s.loops| && id in s.info
    requires s.info[id].fd == fd && s.info[id].loop == l
    requires s.info[id].stage.AddQueued? || s.info[id].stage.Live?
    requires QueueInv(s.info, l, p.localQ + p.taskQ, p.channelMap) && MapInv(s.info, l, p.channelMap)
    requires forall u | u in p.localQ + p.taskQ && u.Add? :: u.id != id
    requires forall f | f in p.channelMap :: p.channelMap[f] != id
    requires fd in s.kernel && s.kernel[fd] == id
    ensures Inv(CloseFd(s.(loops := s.loops[l := p]), l, fd, id))
  {
    var s' := CloseFd(s.(loops := s.loops[l := p]), l, fd, id);
    var p' := p.(dtor := Closed(id));
    forall i | 0 <= i < |p.localQ + p.taskQ| ensures TaskOk(s'.info, l, (p.localQ + p.taskQ)[i]) {
      assert TaskOk(s.info, l, (p.localQ + p.taskQ)[i]);
    }
    assert LoopInv(s'.info, l, p');
    hide LoopInv, QueueInv, MapInv;
    LoopsFrame(s.info, s'.info, s.loops, l, p');
    assert s'.loops == s.loops[l := p'];
    hide LoopsInv, TableInv, KernelInv, ReportInv;
    var c' := s'.info[id];
    TableMoves(s.info, id, c', s.nextId, |s.loops|, s.conns);
    KernelCloses(s.info, id, c', s.nextId, s.kernel);
    ReportMoves(s.info, id, c', Reports(s));
    assert Reports(s') == Reports(s);
  }

  // An ADD at the head of the queue never meets a Channel with the same number.
  lemma AddMeetsNoChannel(s: Server, l: nat)
    requires Inv(s) && AtTask(s, l) && s.loops[l].localQ[0].Add?
    ensures var t := s.loops[l].localQ[0];
            && t.fd !in s.loops[l].channelMap && TaskOk(s.info, l, t)
            && t.fd in s.kernel && s.kernel[t.fd] == t.id
  {
    var p := s.loops[l];
    assert LoopInv(s.info, l, p);
    assert (p.localQ + p.taskQ)[0] == p.localQ[0];
    assert TaskOk(s.info, l, p.localQ[0]);
  }

  lemma KeepsApplyAdd(s: Server, l: nat, registered: bool)
    requires Inv(s) && Enabled(s, ApplyAdd(l, registered))
    ensures Inv(Do(s, ApplyAdd(l, registered)))
  {
    AddMeetsNoChannel(s, l);
    var p := s.loops[l];
    var t := p.localQ[0];
    var q := p.localQ + p.taskQ;
    assert LoopInv(s.info, l, p);
    PopKeepsQueue(s.info, l, p);
    var rest := p.localQ[1..] + p.taskQ;
    forall i | 0 <= i < |rest|
      ensures rest[i].Add? ==> rest[i].id != t.id
      ensures rest[i].fd == t.fd ==> rest[i].id == t.id
    {
      assert q[0] == t && rest[i] == q[i + 1];
      assert TaskOk(s.info, l, q[i + 1]);
    }
    if registered {
      assert HeadAlone(s, l);
      KeepsAddDone(s, l);
    } else {
      forall u | u in rest && u.Add? ensures u.id != t.id {
        var i :| 0 <= i < |rest| && rest[i] == u;
      }
      hide LoopsInv, LoopInv, TableInv, KernelInv, ReportInv, AcceptInv;
      KeepsCloseFd(s, l, p.(localQ := p.localQ[1..]), t.fd, t.id);
    }
  }

  // Loop l once the Channel at the head of its queue is registered.
  function Registered(s: Server, l: nat): Loop
    requires l < |s.loops| && s.loops[l].localQ != []
  {
    var p := s.loops[l];
    p.(localQ := p.localQ[1..], channelMap := p.channelMap[p.localQ[0].fd := p.localQ[0].id])
  }

  ghost predicate HeadAlone(s: Server, l: nat)
    requires l < |s.loops| && s.loops[l].localQ != []
  {
    var p := s.loops[l];
    var t, rest := p.localQ[0], p.localQ[1..] + p.taskQ;
    && QueueInv(s.info, l, rest, p.channelMap) && TaskOk(s.info, l, t)
    && forall i | 0 <= i < |rest| ::
      (rest[i].Add? ==> rest[i].id != t.id) && (rest[i].fd == t.fd ==> rest[i].id == t.id)
  }

  lemma AddedLoop(s: Server, l: nat)
    requires l < |s.loops| && LoopsInv(s.info, s.loops)
    requires s.loops[l].localQ != [] && s.loops[l].localQ[0].Add? && HeadAlone(s, l)
    ensures var t := s.loops[l].localQ[0];
      LoopInv(s.info[t.id := s.info[t.id].(stage := Live)], l, Registered(s, l))
  {
    var p := s.loops[l];
    var t, rest := p.localQ[0], p.localQ[1..] + p.taskQ;
    var info' := s.info[t.id := s.info[t.id].(stage := Live)];
    OneLoop(s.info, s.loops, l);
    forall i | 0 <= i < |rest| ensures TaskOk(info', l, rest[i]) {
      assert TaskOk(s.info, l, rest[i]);
    }
  }

  lemma KeepsAddDone(s: Server, l: nat)
    requires Inv(s) && Enabled(s, ApplyAdd(l, true)) && s.loops[l].localQ[0].fd !in s.loops[l].channelMap
    requires HeadAlone(s, l)
    ensures Inv(Do(s, ApplyAdd(l, true)))
  {
    var p := s.loops[l];
    var t := p.localQ[0];
    var c := s.info[t.id].(stage := Live);
    var s' := Do(s, ApplyAdd(l, true));
    AddedLoop(s, l);
    assert TaskOk(s.info, l, t) && s'.loops == s.loops[l := Registered(s, l)] && s'.info == s.info[t.id := c];
    hide LoopInv, HeadAlone, Registered, LoopsInv, TableInv, KernelInv, ReportInv, Enabled, Do;
    LoopsFrame(s.info, s'.info, s.loops, l, Registered(s, l));
    TableMoves(s.info, t.id, c, s.nextId, |s.loops|, s.conns);
    KernelMoves(s.info, t.id, c, s.nextId, s.kernel);
    ReportMoves(s.info, t.id, c, Reports(s));
    SameBut(s, l);
  }

  // Registering a Channel changes the book and its loop.
  lemma SameBut(s: Server, l: nat)
    requires Enabled(s, ApplyAdd(l, true)) && s.loops[l].localQ[0].fd !in s.loops[l].channelMap
    ensures var s' := Do(s, ApplyAdd(l, true));
      && s'.conns == s.conns && s'.nextId == s.nextId && s'.kernel == s.kernel && s'.pc == s.pc && s'.gauge == s.gauge
      && |s'.loops| == |s.loops| && Reports(s') == Reports(s)
  {
  }

  lemma KeepsRemoveChannel(s: Server, l: nat, fd: int)
    requires Inv(s) && l < |s.loops| && fd in s.loops[l].channelMap && s.loops[l].channelMap[fd] in s.info
    ensures Inv(RemoveChannel(s, l, fd))
  {
    var p := s.loops[l];
    var victim := p.channelMap[fd];
    assert LoopInv(s.info, l, p);
    forall u | u in p.localQ + p.taskQ && u.Add? ensures u.id != victim {
      assert TaskOk(s.info, l, u);
    }
    KeepsCloseFd(s, l, p.(channelMap := p.channelMap - {fd}), fd, victim);
  }

  lemma KeepsPopTask(s: Server, l: nat)
    requires Inv(s) && l < |s.loops| && s.loops[l].localQ != [] && !s.loops[l].localQ[0].Add?
    ensures Inv(PopTask(s, l))
  {
    var p := s.loops[l];
    assert LoopInv(s.info, l, p);
    PopKeepsQueue(s.info, l, p);
    LoopsFrame(s.info, s.info, s.loops, l, p.(localQ := p.localQ[1..]));
  }

  lemma KeepsDetachConn(s: Server, l: nat)
    requires Inv(s) && Enabled(s, DetachConn(l))
    ensures Inv(Do(s, DetachConn(l)))
  {
    var p := s.loops[l];
    var s' := Do(s, DetachConn(l));
    assert LoopInv(s.info, l, p);
    StageMoves(s, l, p.(dtor := Cleared(p.dtor.id)), s'.info, p.dtor.id);
    hide LoopsInv, TableInv, KernelInv, ReportInv;
    var id := p.dtor.id;
    TableMoves(s.info, id, s'.info[id], s.nextId, |s.loops|, s.conns);
    KernelMoves(s.info, id, s'.info[id], s.nextId, s.kernel);
    ReportMoves(s.info, id, s'.info[id], Reports(s));
    assert Reports(s') == Reports(s);
  }

  lemma KeepsReportClosed(s: Server, l: nat)
    requires Inv(s) && Enabled(s, ReportClosed(l))
    ensures Inv(Do(s, ReportClosed(l)))
  {
    hide LoopsInv, QueueInv, MapInv;
    var p := s.loops[l];
    var s' := Do(s, ReportClosed(l));
    OneLoop(s.info, s.loops, l);
    StageMoves(s, l, p.(dtor := NoDestructor), s'.info, p.dtor.id);
    var id := p.dtor.id;
    assert !s.info[id].hasChannel;
    hide TableInv, KernelInv, ReportInv;
    TableMoves(s.info, id, s'.info[id], s.nextId, |s.loops|, s.conns);
    KernelMoves(s.info, id, s'.info[id], s.nextId, s.kernel);
    ReportAdds(s.info, id, s'.info[id], Reports(s));
    assert Reports(s') == Reports(s) + [Report(s.info[id].fd, id)];
  }

  // A destructor advances: only the stage of its own connection moves, past FdClosed.
  lemma StageMoves(s: Server, l: nat, p': Loop, info': Book, id: ConnId)
    requires Inv(s) && l < |s.loops| && id in s.info && s.info[id].loop == l
    requires s.info[id].stage.FdClosed? || s.info[id].stage.Detached?
    requires p'.localQ == s.loops[l].localQ && p'.taskQ == s.loops[l].taskQ && p'.channelMap == s.loops[l].channelMap
    requires info'.Keys == s.info.Keys
    requires forall x | x in s.info :: x != id ==> info'[x] == s.info[x]
    requires info'[id].fd == s.info[id].fd && info'[id].loop == l
    requires DtorInv(info', l, p'.dtor)
    ensures LoopsInv(info', s.loops[l := p'])
  {
    var p := s.loops[l];
    assert LoopInv(s.info, l, p);
    forall i | 0 <= i < |p.localQ + p.taskQ| ensures TaskOk(info', l, (p.localQ + p.taskQ)[i]) {
      assert TaskOk(s.info, l, (p.localQ + p.taskQ)[i]);
    }
    LoopsFrame(s.info, info', s.loops, l, p');
  }

  // ------------------------------------------------------------------ every step

  lemma StepKeepsInv(s: Server, step: Step)
    requires Inv(s) && Enabled(s, step)
    ensures Inv(Do(s, step))
  {
    match step
    case IdleClose(fd) => KeepsHandleClose(s, s.conns[fd]);
    case TakeReports => KeepsTakeReports(s);
    case EraseOne => KeepsEraseOne(s);
    case FinishCleaning => KeepsFinishCleaning(s);
    case AcceptNothing =>
    case AcceptOk(fd) => KeepsAcceptOk(s, fd);
    case InsertConn(target) => KeepsInsertConn(s, target);
    case PushAdd => KeepsPushAdd(s);
    case MarkConnected => KeepsMarkConnected(s);
    case Swap(l) => KeepsSwap(s, l);
    case ApplyAdd(l, registered) => KeepsApplyAdd(s, l, registered);
    case ApplyDelete(l) => KeepsApplyDelete(s, l);
    case ApplyModify(l) => KeepsPopTask(s, l);
    case ErrorRemove(l, fd) => KeepsRemoveChannel(s, l, fd);
    case DetachConn(l) => KeepsDetachConn(s, l);
    case ReportClosed(l) => KeepsReportClosed(s, l);
    case HandlerClose(id) => KeepsHandleClose(s, id);
    case HandlerModify(id) => KeepsPushForOwner(s, id, Modify(s.info[id].fd, id));
  }

  lemma KeepsApplyDelete(s: Server, l: nat)
    requires Inv(s) && Enabled(s, ApplyDelete(l))
    ensures Inv(Do(s, ApplyDelete(l)))
  {
    var t := s.loops[l].localQ[0];
    KeepsPopTask(s, l);
    if t.fd in s.loops[l].channelMap {
      KeepsRemoveChannel(PopTask(s, l), l, t.fd);
    }
  }

  // A DELETE or MODIFY at the head of the queue names its own connection's Channel, or none.
  lemma TaskNamesOwner(s: Server, l: nat)
    requires Inv(s) && AtTask(s, l)
    ensures var t := s.loops[l].localQ[0];
            t.fd in s.loops[l].channelMap ==> s.loops[l].channelMap[t.fd] == t.id
  {
    var p := s.loops[l];
    assert LoopInv(s.info, l, p);
    assert (p.localQ + p.taskQ)[0] == p.localQ[0];
  }

  // close() is always called on a descriptor still held by the accept() it was opened by.
  lemma ClosesOwn(s: Server, step: Step)
    requires Inv(s) && Enabled(s, step) && Closes(s, step).Close?
    ensures Closes(s, step).fd in s.kernel && s.kernel[Closes(s, step).fd] == Closes(s, step).owner
    ensures Closes(s, step).owner < s.nextId
    ensures Do(s, step).kernel == s.kernel - {Closes(s, step).fd}
  {
    match step
    case ApplyAdd(l, _) => AddMeetsNoChannel(s, l);
    case ApplyDelete(l) => assert LoopInv(s.info, l, s.loops[l]);
    case ErrorRemove(l, _) => assert LoopInv(s.info, l, s.loops[l]);
    case _ =>
  }

  // The membership tests in the guards never hold a thread back.
  lemma GuardsNeverBlock(s: Server, l: nat)
    requires Inv(s) && l < |s.loops|
    ensures AtTask(s, l) ==>
              match s.loops[l].localQ[0]
              case Add(_, _) => Enabled(s, ApplyAdd(l, true)) && Enabled(s, ApplyAdd(l, false))
              case Delete(_, _) => Enabled(s, ApplyDelete(l))
              case Modify(_, _) => Enabled(s, ApplyModify(l))
    ensures s.loops[l].dtor.Closed? ==> Enabled(s, DetachConn(l))
    ensures s.loops[l].dtor.Cleared? ==> Enabled(s, ReportClosed(l))
    ensures s.pc.Inserted? ==> Enabled(s, PushAdd)
    ensures s.pc.Registered? ==> Enabled(s, MarkConnected)
    ensures forall id | id in s.info :: Known(s, id) && Enabled(s, HandlerClose(id))
    ensures forall id | id in s.info && s.info[id].hasChannel :: Enabled(s, HandlerModify(id))
    ensures forall fd | fd in s.conns && s.info[s.conns[fd]].state == Connected && s.pc.Scanning? ::
              Enabled(s, IdleClose(fd))
    ensures forall fd | fd >= 0 && fd !in s.kernel && s.pc.Accepting? :: Enabled(s, AcceptOk(fd))
    ensures s.pc.Accepted? ==> Enabled(s, InsertConn(l))
    ensures s.loops[l].dtor.NoDestructor? && s.loops[l].localQ == [] ==>
              Enabled(s, Swap(l)) && forall fd | fd in s.loops[l].channelMap :: Enabled(s, ErrorRemove(l, fd))
  {
    if AtTask(s, l) {
      QueueNeverBlocks(s, l);
    }
    DestructorNeverBlocks(s, l);
    AcceptNeverBlocks(s);
    HandlersNeverBlock(s);
    AcceptingNeverBlocks(s, l);
    if s.loops[l].dtor.NoDestructor? && s.loops[l].localQ == [] {
      LoopNeverBlocks(s, l);
    }
    hide Enabled, Inv, Known;
  }

  lemma QueueNeverBlocks(s: Server, l: nat)
    requires Inv(s) && AtTask(s, l)
    ensures match s.loops[l].localQ[0]
            case Add(_, _) => Enabled(s, ApplyAdd(l, true)) && Enabled(s, ApplyAdd(l, false))
            case Delete(_, _) => Enabled(s, ApplyDelete(l))
            case Modify(_, _) => Enabled(s, ApplyModify(l))
  {
    hide TableInv, ReportInv, KernelInv, AcceptInv;
    OneLoop(s.info, s.loops, l);
    hide LoopsInv;
    assert (s.loops[l].localQ + s.loops[l].taskQ)[0] == s.loops[l].localQ[0];
    assert TaskOk(s.info, l, s.loops[l].localQ[0]);
  }

  lemma DestructorNeverBlocks(s: Server, l: nat)
    requires Inv(s) && l < |s.loops|
    ensures s.loops[l].dtor.Closed? ==> Enabled(s, DetachConn(l))
    ensures s.loops[l].dtor.Cleared? ==> Enabled(s, ReportClosed(l))
  {
    hide TableInv, ReportInv, KernelInv, AcceptInv;
    OneLoop(s.info, s.loops, l);
    hide LoopsInv, QueueInv, MapInv;
  }

  lemma HandlersNeverBlock(s: Server)
    requires Inv(s)
    ensures forall id | id in s.info :: Enabled(s, HandlerClose(id))
    ensures forall id | id in s.info && s.info[id].hasChannel :: Enabled(s, HandlerModify(id))
  {
    assert TableInv(s.info, s.nextId, |s.loops|, s.conns);
    hide Inv;
  }

  lemma AcceptingNeverBlocks(s: Server, l: nat)
    requires Inv(s) && l < |s.loops|
    ensures forall fd | fd in s.conns && s.info[s.conns[fd]].state == Connected && s.pc.Scanning? ::
              Enabled(s, IdleClose(fd))
    ensures forall fd | fd >= 0 && fd !in s.kernel && s.pc.Accepting? :: Enabled(s, AcceptOk(fd))
    ensures s.pc.Accepted? ==> Enabled(s, InsertConn(l))
  {
    assert TableInv(s.info, s.nextId, |s.loops|, s.conns);
    hide Inv;
  }

  lemma LoopNeverBlocks(s: Server, l: nat)
    requires Inv(s) && l < |s.loops| && s.loops[l].dtor.NoDestructor? && s.loops[l].localQ == []
    ensures Enabled(s, Swap(l)) && forall fd | fd in s.loops[l].channelMap :: Enabled(s, ErrorRemove(l, fd))
  {
    MapNeverBlocks(s, l);
    hide Inv;
  }

  lemma MapNeverBlocks(s: Server, l: nat)
    requires Inv(s) && l < |s.loops|
    ensures forall fd | fd in s.loops[l].channelMap :: s.loops[l].channelMap[fd] in s.info
  {
    OneLoop(s.info, s.loops, l);
    assert MapInv(s.info, l, s.loops[l].channelMap);
    hide Inv, LoopInv;
  }

  lemma AcceptNeverBlocks(s: Server)
    requires Inv(s)
    ensures s.pc.Inserted? ==> Enabled(s, PushAdd)
    ensures s.pc.Registered? ==> Enabled(s, MarkConnected)
    ensures forall id | id in s.info :: Known(s, id)
  {
    hide ReportInv, KernelInv, LoopsInv;
  }
}
