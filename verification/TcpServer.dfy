/** The server object: the connection table, the list of closed descriptors the loops report, and the
    gauge of active connections.  Lifecycle says how its accept loop interleaves with the loops; here
    its loops update the table in place. */
module TcpServerModule {
  import opened Text
  import opened ConnStates
  import opened Connection
  import opened TcpConnectionModule
  import Lifecycle

  // The table without the given descriptors.
  function Erase<T>(m: map<int, T>, fds: seq<int>): map<int, T> {
    map fd | fd in m && fd !in fds :: m[fd]
  }

  class TcpServer {
    var conns: map<int, TcpConnection>
    var pendingCloseFds: seq<int>
    var activeConnections: int
    const keepAliveEnabled: bool
    ghost var closedFds: seq<int>       // every descriptor the accept loop itself closed

    // Each connection stands under its own descriptor.
    ghost predicate Valid()
      reads `conns
    {
      forall fd | fd in conns :: conns[fd].fd == fd
    }

    // What holds at every top of the accept loop.
    ghost predicate GaugeIsExact()
      reads `conns, `activeConnections
    {
      activeConnections == |conns|
    }

    constructor (keepAliveEnabled: bool)
      ensures Valid() && GaugeIsExact() && conns == map[] && pendingCloseFds == []
    {
      this.keepAliveEnabled := keepAliveEnabled;
      conns, pendingCloseFds, activeConnections, closedFds := map[], [], 0, [];
    }

    method EnqueueClosedConnection(fd: int)
      modifies this`pendingCloseFds
      ensures pendingCloseFds == if fd < 0 then old(pendingCloseFds) else old(pendingCloseFds) + [fd]
    {
      if fd < 0 {
        return;
      }
      pendingCloseFds := pendingCloseFds + [fd];
    }

    // The end of a Channel, on its loop: the connection is told, and it tells the server.
    method ChannelDestroyed(conn: TcpConnection)
      requires conn.haveCloseCallback
      modifies this`pendingCloseFds, conn`hasChannel, conn`state, conn`deleteQueued
      ensures conn.LinkPart() ==
                old(conn.LinkPart()).(hasChannel := false, state := Disconnected, deleteQueued := false)
      ensures pendingCloseFds == old(pendingCloseFds) + if conn.fd < 0 then [] else [conn.fd]
    {
      var report := conn.OnChannelDestroyed();
      EnqueueClosedConnection(report.value);
    }

    // The loops may have reported more by the time the lock is taken.
    method LoopsReport()
      modifies this`pendingCloseFds
      ensures old(pendingCloseFds) <= pendingCloseFds
    {
      var n: nat := *;
      while n > 0
        invariant old(pendingCloseFds) <= pendingCloseFds
      {
        var fd: int := *;
        EnqueueClosedConnection(fd);
        n := n - 1;
      }
    }

    // Connections that have been quiet for too long are closed if they are still connected.
    method CloseIdleConnections(quiet: set<int>)
      requires Valid()
      modifies conns.Values`state, conns.Values`deleteQueued
      ensures forall fd | fd in conns ::
                conns[fd].LinkPart() ==
                  if conns[fd].keepAliveEnabled && old(conns[fd].state) == Connected && fd in quiet then
                    CloseLink(old(conns[fd].LinkPart()))
                  else old(conns[fd].LinkPart())
    {
      hide CloseLink;
      var left := conns.Keys;
      while left != {}
        invariant left <= conns.Keys
        invariant forall fd | fd in left :: conns[fd].LinkPart() == old(conns[fd].LinkPart())
        invariant forall fd | fd in conns && fd !in left ::
                    conns[fd].LinkPart() ==
                      if conns[fd].keepAliveEnabled && old(conns[fd].state) == Connected && fd in quiet then
                        CloseLink(old(conns[fd].LinkPart()))
                      else old(conns[fd].LinkPart())
        decreases |left|
      {
        var fd := Next(left);
        CheckIdle(conns[fd], fd in quiet);
        left := left - {fd};
      }
    }

    static method CheckIdle(conn: TcpConnection, isQuiet: bool)
      modifies conn`state, conn`deleteQueued
      ensures conn.LinkPart() ==
                if conn.keepAliveEnabled && old(conn.state) == Connected && isQuiet then CloseLink(old(conn.LinkPart()))
                else old(conn.LinkPart())
    {
      if conn.keepAliveEnabled && conn.state == Connected && isQuiet {
        conn.HandleClose();
      }
    }

    // The next descriptor of an iteration over the table, in no particular order.
    static method Next(left: set<int>) returns (fd: int)
      requires left != {}
      ensures fd in left
    {
      NothingInside(left);
      fd :| fd in left;
    }

    static lemma NothingInside(s: set<int>)
      ensures (forall x :: x !in s) ==> s == {}
    {
      if forall x :: x !in s {
        assert s == {};
      }
    }

    // The erasing loop: a descriptor not in the table, or reported before, is passed over.
    method EraseClosed(closed: seq<int>) returns (removed: nat)
      modifies this`conns
      ensures conns == Erase(old(conns), closed) && removed == |old(conns)| - |conns|
    {
      removed := 0;
      assert closed[..0] == [] && Erase(conns, []) == conns;
      for i := 0 to |closed|
        invariant conns == Erase(old(conns), closed[..i]) && removed == |old(conns)| - |conns|
      {
        var fd := closed[i];
        assert closed[..i + 1] == closed[..i] + [fd];
        ghost var before := conns;
        if fd in conns {
          conns := conns - {fd};
          removed := removed + 1;
          assert conns.Keys == before.Keys - {fd};
        }
        assert conns == Erase(old(conns), closed[..i + 1]);
      }
      assert closed[..|closed|] == closed;
    }

    method CleanupClosedConnections(quiet: set<int>) returns (ghost closed: seq<int>)
      requires Valid()
      modifies this`conns, this`pendingCloseFds, this`activeConnections
      modifies conns.Values`state, conns.Values`deleteQueued
      ensures Valid() && old(pendingCloseFds) <= closed && pendingCloseFds == []
      ensures conns == Erase(old(conns), closed)
      ensures activeConnections == old(activeConnections) - (|old(conns)| - |conns|)
      ensures forall fd | fd in old(conns) ::
                old(conns)[fd].LinkPart() ==
                  if keepAliveEnabled && old(conns)[fd].keepAliveEnabled && old(conns[fd].state) == Connected
                     && fd in quiet then
                    CloseLink(old(conns[fd].LinkPart()))
                  else old(conns[fd].LinkPart())
    {
      if keepAliveEnabled {
        CloseIdleConnections(quiet);
      }
      LoopsReport();
      closed := pendingCloseFds;
      if pendingCloseFds == [] {
        assert Erase(conns, []) == conns;
        return;
      }
      var localClosedFds := pendingCloseFds;
      pendingCloseFds := [];
      var removed := EraseClosed(localClosedFds);
      activeConnections := activeConnections - removed;
    }

    // A new connection enters the table under its number; if that is still taken, its descriptor is closed.
    method Insert(cfd: int, conn: TcpConnection) returns (inserted: bool)
      requires Valid() && conn.fd == cfd
      modifies this`conns, this`activeConnections, this`closedFds, conn`haveCloseCallback
      ensures Valid() && (inserted <==> cfd !in old(conns))
      ensures conns == if inserted then old(conns)[cfd := conn] else old(conns)
      ensures activeConnections == old(activeConnections) + if inserted then 1 else 0
      ensures closedFds == if inserted then old(closedFds) else old(closedFds) + [cfd]
      ensures inserted ==> conn.haveCloseCallback
    {
      if cfd in conns {
        closedFds := closedFds + [cfd];
        return false;
      }
      conns := conns[cfd := conn];
      conn.SetCloseCallback();
      activeConnections := activeConnections + 1;
      return true;
    }

    // The accept loop, for any number of rounds: each cleans up, then may accept a connection.
    method AcceptConnections(rounds: nat)
      requires Valid() && GaugeIsExact()
      modifies this`conns, this`pendingCloseFds, this`activeConnections, this`closedFds
      modifies conns.Values`state, conns.Values`deleteQueued
      ensures Valid() && GaugeIsExact()
      ensures forall c | c in conns.Values :: c in old(conns).Values || fresh(c)
    {
      var n := rounds;
      while n > 0
        invariant Valid() && GaugeIsExact()
        invariant forall c | c in conns.Values :: c in old(conns).Values || fresh(c)
      {
        AcceptRound();
        n := n - 1;
      }
    }

    method AcceptRound()
      requires Valid() && GaugeIsExact()
      modifies this`conns, this`pendingCloseFds, this`activeConnections, this`closedFds
      modifies conns.Values`state, conns.Values`deleteQueued
      ensures Valid() && GaugeIsExact()
      ensures forall c | c in conns.Values :: c in old(conns).Values || fresh(c)
    {
      var quiet: set<int> := *;
      ghost var closed := CleanupClosedConnections(quiet);
      var cfd: int := *;
      if cfd >= 0 {
        var maxRequests: nat := *;
        var conn := new TcpConnection(cfd, keepAliveEnabled, maxRequests);
        var _ := Insert(cfd, conn);
      }
    }
  }

  // ------------------------------------------------------------------ against the protocol

  function Fds(reports: seq<Lifecycle.Report>): seq<int> {
    seq(|reports|, i requires 0 <= i < |reports| => reports[i].fd)
  }

  // EraseOne, until nothing is left to do.
  function EraseAll(s: Lifecycle.Server): Lifecycle.Server
    requires s.pc.Cleaning?
    decreases |s.pc.todo|
  {
    if s.pc.todo == [] then s else EraseAll(Lifecycle.Do(s, Lifecycle.EraseOne))
  }

  // One erase step.
  lemma EraseStep(s: Lifecycle.Server)
    requires s.pc.Cleaning? && s.pc.todo != []
    ensures var s', fd := Lifecycle.Do(s, Lifecycle.EraseOne), s.pc.todo[0].fd;
      && s'.conns == s.conns - {fd} && s'.pc.Cleaning? && s'.pc.todo == s.pc.todo[1..]
      && s'.pc.removed + |s'.conns| == s.pc.removed + |s.conns|
      && s'.kernel == s.kernel && s'.loops == s.loops && s'.pendingClose == s.pendingClose && s'.gauge == s.gauge
  {
    var fd := s.pc.todo[0].fd;
    assert (s.conns - {fd}).Keys == s.conns.Keys - {fd};
    assert fd !in s.conns ==> s.conns - {fd} == s.conns;
  }

  // The erasing loop is what the protocol's steps add up to.
  lemma {:induction false} EraseAllErases(s: Lifecycle.Server)
    requires s.pc.Cleaning?
    ensures var s' := EraseAll(s);
      && s'.conns == Erase(s.conns, Fds(s.pc.todo))
      && s'.pc.Cleaning? && s'.pc.todo == [] && s'.pc.removed + |s'.conns| == s.pc.removed + |s.conns|
      && s'.kernel == s.kernel && s'.loops == s.loops && s'.pendingClose == s.pendingClose && s'.gauge == s.gauge
    decreases |s.pc.todo|
  {
    var todo := s.pc.todo;
    if todo == [] {
      assert Erase(s.conns, Fds(todo)) == s.conns;
    } else {
      var s1, fd := Lifecycle.Do(s, Lifecycle.EraseOne), todo[0].fd;
      EraseStep(s);
      EraseAllErases(s1);
      assert EraseAll(s) == EraseAll(s1);
      hide Lifecycle.Do, EraseAll, Erase, Fds;
      FdsCons(todo);
      EraseCons(s.conns, fd, Fds(todo[1..]));
    }
  }

  lemma FdsCons(reports: seq<Lifecycle.Report>)
    requires reports != []
    ensures Fds(reports) == [reports[0].fd] + Fds(reports[1..])
  {
  }

  lemma EraseCons<T>(m: map<int, T>, fd: int, fds: seq<int>)
    ensures Erase(m - {fd}, fds) == Erase(m, [fd] + fds)
  {
  }

  // The connection's link, as the protocol sees it.
  function LinkOf(c: Lifecycle.Connection, writeEnabled: bool, deleteQueued: bool): Link {
    Link(c.state, c.hasChannel, writeEnabled, deleteQueued)
  }

  // handleClose is the same in the protocol and in the connection, and the protocol pushes the DELETE that
  // the connection asks for.
  lemma ClosesAlike(s: Lifecycle.Server, id: Lifecycle.ConnId, writeEnabled: bool, deleteQueued: bool)
    requires Lifecycle.Known(s, id)
    ensures var c, s' := s.info[id], Lifecycle.HandleClose(s, id);
      var link := LinkOf(c, writeEnabled, deleteQueued);
      var asks := link.hasChannel && (link.state == Connecting || link.state == Connected);
      && CloseLink(link) == LinkOf(s'.info[id], writeEnabled, deleteQueued || asks)
      && s'.loops[c.loop].taskQ == s.loops[c.loop].taskQ + if asks then [Lifecycle.Delete(c.fd, id)] else []
  {
  }

  // So is the end of a Channel: the connection is told first, and then the server, of the connection's own
  // number.
  lemma DestroysAlike(s: Lifecycle.Server, l: nat, writeEnabled: bool, deleteQueued: bool)
    requires Lifecycle.Enabled(s, Lifecycle.DetachConn(l))
    ensures var id := s.loops[l].dtor.id;
      var s' := Lifecycle.Do(s, Lifecycle.DetachConn(l));
      && LinkOf(s'.info[id], writeEnabled, false) ==
           LinkOf(s.info[id], writeEnabled, deleteQueued).(hasChannel := false, state := Disconnected,
                                                           deleteQueued := false)
      && s'.pendingClose == s.pendingClose
      && Lifecycle.Enabled(s', Lifecycle.ReportClosed(l))
      && var s'' := Lifecycle.Do(s', Lifecycle.ReportClosed(l));
         && Fds(s''.pendingClose) == Fds(s.pendingClose) + [s.info[id].fd]
         && LinkOf(s''.info[id], writeEnabled, false) == LinkOf(s'.info[id], writeEnabled, false)
         && s''.loops[l].dtor == Lifecycle.NoDestructor
  {
  }
}
