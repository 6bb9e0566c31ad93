/** The connection lifecycle protocol: one accepting thread and any number of loop threads
    share descriptor numbers that the kernel reuses as soon as they are closed.

    A `Server` value is one global state; a `Step` is one thread's move between two points
    where it may be interrupted (a lock, a system call, or one store to shared state).
    DELETE and MODIFY tasks carry only a descriptor number in the program.  Here each also
    carries the identity of the connection it was issued for, which no guard ever reads:
    it is what the theorems compare against. */
module Lifecycle {
  import opened ConnStates

  type ConnId = nat

  // How far a connection has come.  Bookkeeping for the proof only: no guard reads it.
  datatype Stage = InTable | AddQueued | Live | FdClosed | Detached | Reported | Erased

  datatype Connection = Connection(fd: int, loop: nat, state: ConnState, hasChannel: bool, stage: Stage)

  datatype Task = Add(fd: int, id: ConnId) | Delete(fd: int, id: ConnId) | Modify(fd: int, id: ConnId)

  // A Channel destructor in progress: close(fd), then detach the connection, then report.
  datatype Destructor = NoDestructor | Closed(id: ConnId) | Cleared(id: ConnId)

  datatype Loop = Loop(taskQ: seq<Task>, localQ: seq<Task>, channelMap: map<int, ConnId>, dtor: Destructor)

  datatype Report = Report(fd: int, id: ConnId)

  datatype AcceptPc =
    | Scanning                                    // top of the accept loop
    | Cleaning(todo: seq<Report>, removed: nat)
    | Accepting
    | Accepted(fd: int, id: ConnId)
    | Inserted(id: ConnId)
    | Registered(id: ConnId)

  datatype Server = Server(
    kernel: map<int, ConnId>,                     // open descriptors, and the accept() that opened each
    nextId: ConnId,
    conns: map<int, ConnId>,
    info: map<ConnId, Connection>,
    loops: seq<Loop>,
    pendingClose: seq<Report>,
    pc: AcceptPc,
    gauge: int)

  datatype Step =
    | IdleClose(fd: int)
    | TakeReports
    | EraseOne
    | FinishCleaning
    | AcceptNothing
    | AcceptOk(fd: int)
    | InsertConn(target: nat)
    | PushAdd
    | MarkConnected
    | Swap(l: nat)
    | ApplyAdd(l: nat, registered: bool)          // registered: the dispatcher had room
    | ApplyDelete(l: nat)
    | ApplyModify(l: nat)
    | ErrorRemove(l: nat, fd: int)
    | DetachConn(l: nat)
    | ReportClosed(l: nat)
    | HandlerClose(id: ConnId)
    | HandlerModify(id: ConnId)

  predicate Init(s: Server) {
    && s.kernel == map[] && s.conns == map[] && s.info == map[] && s.pendingClose == []
    && s.pc == Scanning && s.gauge == 0
    && forall l | 0 <= l < |s.loops| :: s.loops[l] == Loop([], [], map[], NoDestructor)
  }

  // ------------------------------------------------------------------ steps

  function Push(s: Server, l: nat, t: Task): Server
    requires l < |s.loops|
  {
    s.(loops := s.loops[l := s.loops[l].(taskQ := s.loops[l].taskQ + [t])])
  }

  predicate Known(s: Server, id: ConnId) {
    id in s.info && s.info[id].loop < |s.loops|
  }

  // TcpConnection::handleClose, taken as one step.
  function HandleClose(s: Server, id: ConnId): Server
    requires Known(s, id)
  {
    var c := s.info[id];
    if c.state == Disconnecting || c.state == Disconnected then s
    else if c.hasChannel then
      Push(s.(info := s.info[id := c.(state := Disconnecting)]), c.loop, Delete(c.fd, id))
    else s.(info := s.info[id := c.(state := Disconnected)])
  }

  // The first act of ~Channel on loop l: close(fd).
  function CloseFd(s: Server, l: nat, fd: int, id: ConnId): Server
    requires l < |s.loops| && id in s.info
  {
    s.(kernel := s.kernel - {fd},
       loops := s.loops[l := s.loops[l].(dtor := Closed(id))],
       info := s.info[id := s.info[id].(stage := FdClosed)])
  }

  // EventLoop::remove_ on a registered descriptor.
  function RemoveChannel(s: Server, l: nat, fd: int): Server
    requires l < |s.loops| && fd in s.loops[l].channelMap && s.loops[l].channelMap[fd] in s.info
  {
    var victim := s.loops[l].channelMap[fd];
    CloseFd(s.(loops := s.loops[l := s.loops[l].(channelMap := s.loops[l].channelMap - {fd})]), l, fd, victim)
  }

  function PopTask(s: Server, l: nat): Server
    requires l < |s.loops| && s.loops[l].localQ != []
  {
    s.(loops := s.loops[l := s.loops[l].(localQ := s.loops[l].localQ[1..])])
  }

  // Loop l is inside the first loop of processTaskQ with an element at hand and no destructor running.
  predicate AtTask(s: Server, l: nat) {
    l < |s.loops| && s.loops[l].localQ != [] && s.loops[l].dtor.NoDestructor?
  }

  predicate Enabled(s: Server, step: Step) {
    match step
    case IdleClose(fd) =>
      s.pc.Scanning? && fd in s.conns && Known(s, s.conns[fd]) && s.info[s.conns[fd]].state == Connected
    case TakeReports => s.pc.Scanning?
    case EraseOne => s.pc.Cleaning? && s.pc.todo != []
    case FinishCleaning => s.pc.Cleaning? && s.pc.todo == []
    case AcceptNothing => s.pc.Accepting?
    case AcceptOk(fd) => s.pc.Accepting? && fd >= 0 && fd !in s.kernel
    case InsertConn(target) => s.pc.Accepted? && target < |s.loops|
    case PushAdd => s.pc.Inserted? && Known(s, s.pc.id)
    case MarkConnected => s.pc.Registered? && s.pc.id in s.info
    case Swap(l) => l < |s.loops| && s.loops[l].localQ == [] && s.loops[l].dtor.NoDestructor?
    case ApplyAdd(l, _) => AtTask(s, l) && s.loops[l].localQ[0].Add? && s.loops[l].localQ[0].id in s.info
    case ApplyDelete(l) =>
      && AtTask(s, l) && s.loops[l].localQ[0].Delete?
      && (s.loops[l].localQ[0].fd in s.loops[l].channelMap
          ==> s.loops[l].channelMap[s.loops[l].localQ[0].fd] in s.info)
    case ApplyModify(l) => AtTask(s, l) && s.loops[l].localQ[0].Modify?
    case ErrorRemove(l, fd) =>
      && l < |s.loops| && s.loops[l].localQ == [] && s.loops[l].dtor.NoDestructor?
      && fd in s.loops[l].channelMap && s.loops[l].channelMap[fd] in s.info
    case DetachConn(l) => l < |s.loops| && s.loops[l].dtor.Closed? && s.loops[l].dtor.id in s.info
    case ReportClosed(l) => l < |s.loops| && s.loops[l].dtor.Cleared? && s.loops[l].dtor.id in s.info
    case HandlerClose(id) => Known(s, id)
    case HandlerModify(id) => Known(s, id) && s.info[id].hasChannel
  }

  function Do(s: Server, step: Step): Server
    requires Enabled(s, step)
  {
    match step
    case IdleClose(fd) => HandleClose(s, s.conns[fd])
    case TakeReports =>
      if s.pendingClose == [] then s.(pc := Accepting)
      else s.(pc := Cleaning(s.pendingClose, 0), pendingClose := [])
    case EraseOne =>
      var r := s.pc.todo[0];
      if r.fd in s.conns then
        var id := s.conns[r.fd];
        s.(conns := s.conns - {r.fd},
           info := if id in s.info then s.info[id := s.info[id].(stage := Erased)] else s.info,
           pc := Cleaning(s.pc.todo[1..], s.pc.removed + 1))
      else s.(pc := Cleaning(s.pc.todo[1..], s.pc.removed))
    case FinishCleaning => s.(gauge := s.gauge - s.pc.removed, pc := Accepting)
    case AcceptNothing => s.(pc := Scanning)
    case AcceptOk(fd) => s.(kernel := s.kernel[fd := s.nextId], nextId := s.nextId + 1, pc := Accepted(fd, s.nextId))
    case InsertConn(target) =>
      var fd, id := s.pc.fd, s.pc.id;
      if fd in s.conns then s.(kernel := s.kernel - {fd}, pc := Scanning)
      else s.(conns := s.conns[fd := id],
              info := s.info[id := Connection(fd, target, Connecting, false, InTable)],
              pc := Inserted(id))
    case PushAdd =>
      var id := s.pc.id;
      var c := s.info[id];
      Push(s.(info := s.info[id := c.(hasChannel := true, stage := AddQueued)], pc := Registered(id)),
           c.loop, Add(c.fd, id))
    case MarkConnected =>
      s.(info := s.info[s.pc.id := s.info[s.pc.id].(state := Connected)], gauge := s.gauge + 1, pc := Scanning)
    case Swap(l) =>
      s.(loops := s.loops[l := s.loops[l].(localQ := s.loops[l].taskQ, taskQ := [])])
    case ApplyAdd(l, registered) =>
      var t := s.loops[l].localQ[0];
      var s1 := PopTask(s, l);
      if t.fd !in s.loops[l].channelMap && registered then
        s1.(loops := s1.loops[l := s1.loops[l].(channelMap := s1.loops[l].channelMap[t.fd := t.id])],
            info := s1.info[t.id := s1.info[t.id].(stage := Live)])
      else CloseFd(s1, l, t.fd, t.id)
    case ApplyDelete(l) =>
      var t := s.loops[l].localQ[0];
      var s1 := PopTask(s, l);
      if t.fd in s1.loops[l].channelMap then RemoveChannel(s1, l, t.fd) else s1
    case ApplyModify(l) => PopTask(s, l)
    case ErrorRemove(l, fd) => RemoveChannel(s, l, fd)
    case DetachConn(l) =>
      var id := s.loops[l].dtor.id;
      s.(info := s.info[id := s.info[id].(state := Disconnected, hasChannel := false, stage := Detached)],
         loops := s.loops[l := s.loops[l].(dtor := Cleared(id))])
    case ReportClosed(l) =>
      var id := s.loops[l].dtor.id;
      s.(info := s.info[id := s.info[id].(stage := Reported)],
         pendingClose := s.pendingClose + [Report(s.info[id].fd, id)],
         loops := s.loops[l := s.loops[l].(dtor := NoDestructor)])
    case HandlerClose(id) => HandleClose(s, id)
    case HandlerModify(id) => Push(s, s.info[id].loop, Modify(s.info[id].fd, id))
  }

  // The descriptor a step passes to close(), with the accept() on whose behalf it does so.
  datatype CloseCall = NoClose | Close(fd: int, owner: ConnId)

  function Closes(s: Server, step: Step): CloseCall
    requires Enabled(s, step)
  {
    match step
    case InsertConn(_) => if s.pc.fd in s.conns then Close(s.pc.fd, s.pc.id) else NoClose
    case ApplyAdd(l, registered) =>
      var t := s.loops[l].localQ[0];
      if t.fd !in s.loops[l].channelMap && registered then NoClose else Close(t.fd, t.id)
    case ApplyDelete(l) =>
      var t := s.loops[l].localQ[0];
      if t.fd in s.loops[l].channelMap then Close(t.fd, s.loops[l].channelMap[t.fd]) else NoClose
    case ErrorRemove(l, fd) => Close(fd, s.loops[l].channelMap[fd])
    case _ => NoClose
  }

  // ------------------------------------------------------------------ invariant

  type Book = map<ConnId, Connection>

  // conns_ holds exactly the connections that are not yet erased.
  ghost predicate TableInv(info: Book, nextId: ConnId, nloops: nat, conns: map<int, ConnId>) {
    && (forall id | id in info :: id < nextId && info[id].loop < nloops)
    && (forall fd | fd in conns :: conns[fd] in info && info[conns[fd]].fd == fd && !info[conns[fd]].stage.Erased?)
    && (forall id | id in info && !info[id].stage.Erased? :: info[id].fd in conns && conns[info[id].fd] == id)
  }

  predicate HoldsFd(stage: Stage) { stage.InTable? || stage.AddQueued? || stage.Live? }

  // A descriptor stays open from accept() until its own Channel closes it.
  ghost predicate KernelInv(info: Book, nextId: ConnId, kernel: map<int, ConnId>) {
    && (forall fd | fd in kernel :: kernel[fd] < nextId)
    && (forall f, g | f in kernel && g in kernel && kernel[f] == kernel[g] :: f == g)
    && (forall id | id in info && HoldsFd(info[id].stage) :: info[id].fd in kernel && kernel[info[id].fd] == id)
    && (forall id | id in info && info[id].hasChannel ::
          info[id].stage.AddQueued? || info[id].stage.Live? || info[id].stage.FdClosed?)
  }

  ghost predicate TaskOk(info: Book, l: nat, t: Task) {
    && t.id in info && info[t.id].fd == t.fd && info[t.id].loop == l
    && (t.Add? ==> info[t.id].stage.AddQueued?)
  }

  // The order of a loop's queue and its channelMap agree on which connection a number means.
  ghost predicate QueueInv(info: Book, l: nat, q: seq<Task>, channelMap: map<int, ConnId>) {
    && (forall i | 0 <= i < |q| :: TaskOk(info, l, q[i]))
    && (forall i, j | 0 <= i < j < |q| && q[i].Add? && q[i].fd == q[j].fd :: !q[j].Add? && q[i].id == q[j].id)
    && (forall j | 0 <= j < |q| && q[j].fd in channelMap :: q[j].id == channelMap[q[j].fd])
  }

  ghost predicate MapInv(info: Book, l: nat, channelMap: map<int, ConnId>) {
    forall fd | fd in channelMap ::
      && channelMap[fd] in info && info[channelMap[fd]].fd == fd
      && info[channelMap[fd]].loop == l && info[channelMap[fd]].stage.Live?
  }

  ghost predicate DtorInv(info: Book, l: nat, dtor: Destructor) {
    && (dtor.Closed? ==> dtor.id in info && info[dtor.id].loop == l && info[dtor.id].stage.FdClosed?)
    && (dtor.Cleared? ==> dtor.id in info && info[dtor.id].loop == l && info[dtor.id].stage.Detached?)
  }

  ghost predicate LoopInv(info: Book, l: nat, p: Loop) {
    && QueueInv(info, l, p.localQ + p.taskQ, p.channelMap)
    && MapInv(info, l, p.channelMap)
    && DtorInv(info, l, p.dtor)
  }

  function Reports(s: Server): seq<Report> {
    (if s.pc.Cleaning? then s.pc.todo else []) + s.pendingClose
  }

  ghost predicate IsReported(reports: seq<Report>, id: ConnId) {
    exists i :: 0 <= i < |reports| && reports[i].id == id
  }

  // Every destroyed Channel is reported, and once.
  ghost predicate ReportInv(info: Book, reports: seq<Report>) {
    && (forall i | 0 <= i < |reports| ::
          reports[i].id in info && info[reports[i].id].stage.Reported? && info[reports[i].id].fd == reports[i].fd)
    && (forall i, j | 0 <= i < j < |reports| :: reports[i].id != reports[j].id)
    && (forall id | id in info && info[id].stage.Reported? :: IsReported(reports, id))
  }

  ghost predicate AcceptInv(s: Server) {
    match s.pc
    case Scanning => s.gauge == |s.conns|
    case Cleaning(_, removed) => s.gauge - removed == |s.conns|
    case Accepting => s.gauge == |s.conns|
    case Accepted(fd, id) =>
      s.gauge == |s.conns| && id < s.nextId && id !in s.info && fd in s.kernel && s.kernel[fd] == id
    case Inserted(id) =>
      s.gauge + 1 == |s.conns| && id in s.info && s.info[id].stage.InTable? && !s.info[id].hasChannel
    case Registered(id) => s.gauge + 1 == |s.conns| && id in s.info
  }

  ghost predicate LoopsInv(info: Book, loops: seq<Loop>) {
    forall l | 0 <= l < |loops| :: LoopInv(info, l, loops[l])
  }

  ghost predicate Inv(s: Server) {
    && TableInv(s.info, s.nextId, |s.loops|, s.conns)
    && KernelInv(s.info, s.nextId, s.kernel)
    && ReportInv(s.info, Reports(s))
    && AcceptInv(s)
    && LoopsInv(s.info, s.loops)
  }
}
