/** The worker thread's one database connection: made when first needed, made again when it is broken or too
    old, checked before use.

    The driver is what `Driver` says: each of its calls may return a good or a bad result or throw.  Time is
    milliseconds since the epoch of the steady clock, where a fresh slot's time stamps stand and which every
    reading has passed. */
module ThreadLocalSqlConn {
  import opened Text

  datatype Result<T> = Good(value: T) | Bad(message: string)

  datatype Exception = StdException(message: string) | OtherException

  datatype Outcome<T> = Returned(result: Result<T>) | Threw(e: Exception)

  predicate Succeeds<T>(o: Outcome<T>) { o.Returned? && o.result.Good? }

  // What the driver's calls do during one use.
  datatype Driver = Driver(make: Option<Exception>, connect: Outcome<()>, ping: Outcome<()>, query: Outcome<string>)

  // The calls made, in order.
  datatype Call = Close | Make | Connect | Ping | Query

  datatype Options = Options(pingBeforeUse: bool, maxConnLifetimeMs: nat, maxConnIdleMs: nat)

  // A connection object: live from a successful connect() to close().
  datatype Connection = Connection(live: bool)

  class ThreadLocalSingleConn {
    const cfg: Options
    var conn: Option<Connection>
    var created: nat
    var lastUsed: nat
    var broken: bool
    ghost var failedAt: nat       // when making the connection last failed

    predicate Expired(now: nat)
      reads this
    {
      conn.Some? && ((now as int) - created > cfg.maxConnLifetimeMs || (now as int) - lastUsed > cfg.maxConnIdleMs)
    }

    predicate NeedsMaking(now: nat)
      reads this
    {
      conn.None? || broken || Expired(now)
    }

    // A connection object that is not live will be made again, or it is the first one.
    ghost predicate Valid()
      reads this
    {
      && (conn.None? ==> created == 0 && !broken)
      && (conn.Some? && !conn.value.live ==> broken || Expired(failedAt) || created == 0)
      && (conn.Some? && conn.value.live ==> created > 0)
    }

    ghost predicate ClockAt(now: nat)
      reads this
    {
      0 < now && created <= now && lastUsed <= now && failedAt <= now
    }

    constructor (cfg: Options)
      ensures Valid() && this.cfg == cfg && conn.None? && !broken && created == lastUsed == failedAt == 0
    {
      this.cfg := cfg;
      conn, created, lastUsed, broken, failedAt := None, 0, 0, false, 0;
    }

    // Making the connection succeeds.
    static predicate Makes(d: Driver) { d.make.None? && Succeeds(d.connect) }

    predicate PingPasses(d: Driver) { cfg.pingBeforeUse ==> Succeeds(d.ping) }

    // The ping reports that the connection is gone.
    predicate PingFails(d: Driver) { cfg.pingBeforeUse && d.ping.Returned? && d.ping.result.Bad? }

    // A use gets through exactly if the connection can be made where that is needed and the ping, where one
    // is asked for, passes.  The mark `broken` is set by a ping that reports failure and taken away by
    // making the connection, and by nothing else.
    method EnsureConnected(now: nat, d: Driver) returns (thrown: Option<Exception>, ghost calls: seq<Call>)
      requires Valid() && ClockAt(now)
      modifies this
      ensures Valid() && ClockAt(now)
      ensures thrown.None? <==> (old(NeedsMaking(now)) ==> Makes(d)) && PingPasses(d)
      ensures broken <==>
                if old(NeedsMaking(now)) && !Makes(d) then old(broken)
                else PingFails(d) || (old(broken) && !old(NeedsMaking(now)))
      ensures old(NeedsMaking(now)) <==>
                old(conn.None?) || old(broken) || now > old(created) + cfg.maxConnLifetimeMs
                || now > old(lastUsed) + cfg.maxConnIdleMs
      ensures thrown.Some? ==> Throws(old(NeedsMaking(now)), d, thrown.value)
      ensures thrown.None? ==> conn.Some? && !broken
      ensures thrown.None? && old(NeedsMaking(now)) ==> conn.value.live
      ensures !old(NeedsMaking(now)) ==>
                conn == old(conn) && created == old(created) && lastUsed == old(lastUsed) && failedAt == old(failedAt)
      ensures old(NeedsMaking(now)) && !Makes(d) ==>
                conn == AfterFailure(old(conn), d) && created == old(created) && lastUsed == old(lastUsed)
      ensures calls == CallsOf(old(conn.Some?), old(NeedsMaking(now)), d)
    {
      calls := [];
      if NeedsMaking(now) {
        thrown, calls := MakeConnection(now, d);
        if thrown.Some? {
          return;
        }
      }
      if cfg.pingBeforeUse {
        calls := calls + [Ping];
        match d.ping {
          case Threw(e) => return Some(e), calls;
          case Returned(Bad(message)) =>
            broken := true;
            return Some(StdException("sql ping failed: " + message)), calls;
          case Returned(Good(_)) =>
        }
      }
      return None, calls;
    }

    // What is left of the connection when it could not be made: closed, or new and not connected.
    static function AfterFailure(conn: Option<Connection>, d: Driver): Option<Connection> {
      if conn.None? && d.make.Some? then None else Some(Connection(false))
    }

    // The calls a use makes before its query.
    function CallsOf(hadConn: bool, needsMaking: bool, d: Driver): seq<Call> {
      var making := if needsMaking then (if hadConn then [Close] else []) + MakingCalls(d) else [];
      making + if cfg.pingBeforeUse && (needsMaking ==> Makes(d)) then [Ping] else []
    }

    static function MakingCalls(d: Driver): seq<Call> { if d.make.Some? then [Make] else [Make, Connect] }

    // What a use that does not get through throws.
    ghost predicate Throws(needsMaking: bool, d: Driver, e: Exception) {
      if needsMaking && d.make.Some? then e == d.make.value
      else if needsMaking && !Succeeds(d.connect) then Reports(d.connect, "sql connect failed: ", e)
      else Reports(d.ping, "sql ping failed: ", e)
    }

    // The exception of a call that threw, or one with the message of its bad result.
    static ghost predicate Reports<T>(o: Outcome<T>, what: string, e: Exception) {
      o == Threw(e) || (o.Returned? && o.result.Bad? && e == StdException(what + o.result.message))
    }

    method MakeConnection(now: nat, d: Driver) returns (thrown: Option<Exception>, ghost calls: seq<Call>)
      requires Valid() && ClockAt(now) && NeedsMaking(now)
      modifies this
      ensures Valid() && ClockAt(now)
      ensures thrown.None? <==> Makes(d)
      ensures thrown.None? ==> conn == Some(Connection(true)) && !broken && created == lastUsed == now
      ensures thrown.Some? ==> broken == old(broken) && created == old(created) && lastUsed == old(lastUsed)
      ensures thrown.Some? ==> conn == AfterFailure(old(conn), d) && Throws(true, d, thrown.value)
      ensures calls == (if old(conn.Some?) then [Close] else []) + MakingCalls(d)
    {
      calls := [];
      failedAt := now;
      if conn.Some? {
        conn := Some(Connection(false));
        calls := calls + [Close];
      }
      calls := calls + [Make];
      if d.make.Some? {
        return d.make, calls;
      }
      conn := Some(Connection(false));
      calls := calls + [Connect];
      match d.connect {
        case Threw(e) => return Some(e), calls;
        case Returned(Bad(message)) => return Some(StdException("sql connect failed: " + message)), calls;
        case Returned(Good(_)) =>
      }
      conn := Some(Connection(true));
      created, lastUsed, broken := now, now, false;
      return None, calls;
    }

    // withConnection: the query runs only after all of that, as the last call.  It runs on a live connection
    // unless none could ever be made on this thread and the clock has passed neither limit, so that nothing
    // makes it again.  The clock is read again, `later`, for the time of the last use.
    method WithConnection(now: nat, later: nat, d: Driver) returns (outcome: Outcome<string>, ghost calls: seq<Call>)
      requires Valid() && ClockAt(now) && now <= later
      modifies this
      ensures Valid() && ClockAt(later)
      ensures calls == CallsOf(old(conn.Some?), old(NeedsMaking(now)), d) + if Query in calls then [Query] else []
      ensures Query in calls <==> (old(NeedsMaking(now)) ==> Makes(d)) && PingPasses(d)
      ensures if Query in calls then outcome == d.query && calls[|calls| - 1] == Query
              else outcome.Threw? && Throws(old(NeedsMaking(now)), d, outcome.e)
      ensures Query in calls ==>
                conn.Some? && !broken && lastUsed == later
                && (conn.value.live <==>
                    !(old(conn.Some?) && !old(broken) && old(created) == 0
                      && now <= cfg.maxConnLifetimeMs && now - old(lastUsed) <= cfg.maxConnIdleMs))
      ensures old(NeedsMaking(now)) <==>
                old(conn.None?) || old(broken) || now > old(created) + cfg.maxConnLifetimeMs
                || now > old(lastUsed) + cfg.maxConnIdleMs
      ensures cfg.pingBeforeUse && Query in calls ==> Succeeds(d.ping)
      ensures old(NeedsMaking(now)) && !Makes(d) ==>
                conn == AfterFailure(old(conn), d) && created == old(created) && lastUsed == old(lastUsed)
      ensures !old(NeedsMaking(now)) ==> conn == old(conn)
      ensures broken <==>
                if old(NeedsMaking(now)) && !Makes(d) then old(broken)
                else PingFails(d) || (old(broken) && !old(NeedsMaking(now)))
    {
      var thrown;
      thrown, calls := EnsureConnected(now, d);
      assert Query !in calls;
      if thrown.Some? {
        return Threw(thrown.value), calls;
      }
      lastUsed := later;
      return d.query, calls + [Query];
    }
  }

  // The exception to a live connection is reachable: no ping, a first connect that fails, and a second use
  // before the clock passes the limits.
  method QueryWithoutConnection(cfg: Options, now: nat, failure: string)
    returns (tls: ThreadLocalSingleConn, ghost calls: seq<Call>)
    requires !cfg.pingBeforeUse && 0 < now <= cfg.maxConnLifetimeMs && now <= cfg.maxConnIdleMs
    ensures fresh(tls) && tls.cfg == cfg && calls == [Query] && tls.conn == Some(Connection(false))
  {
    tls := new ThreadLocalSingleConn(cfg);
    var refused := Driver(None, Returned(Bad(failure)), Returned(Good(())), Returned(Good("")));
    var outcome, _ := tls.WithConnection(now, now, refused);
    outcome, calls := tls.WithConnection(now, now, refused);
  }
}
