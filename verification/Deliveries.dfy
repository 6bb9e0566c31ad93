/** The loop that owns a connection against the exchange of AsyncReplies: callback k on the loop is the posting
    of completion k. */
module Deliveries {
  import opened EventLoopModule
  import A = AsyncReplies
  import E = Executor
  import H = SqlHandlerModule

  // A callback that is still to run has not run, and will once.
  lemma RunsOnce(loop: EventLoop, cb: Callback)
    requires loop.CallbacksConserved() && multiset(loop.posted)[cb] <= 1
    requires cb in multiset(loop.callbackQueue) + loop.stacked
    ensures cb !in loop.executed
  {
    assert multiset(loop.posted)[cb] ==
             multiset(loop.executed)[cb] + multiset(loop.callbackQueue)[cb] + loop.stacked[cb];
  }

  lemma {:induction false} JobAt(posted: seq<H.Completion>, k: nat)
    requires k < |posted|
    ensures |H.Jobs(posted)| == |posted| && H.Jobs(posted)[k] == posted[k].job
  {
    var n := |posted| - 1;
    if k < n {
      JobAt(posted[..n], k);
    } else if n > 0 {
      JobAt(posted[..n], 0);
    }
  }

  lemma TwiceCounts<T>(s: seq<T>, i: nat, j: nat)
    requires i < j < |s| && s[i] == s[j]
    ensures multiset(s)[s[i]] >= 2
  {
    assert s == s[..j] + s[j..];
    assert s[i] in s[..j] && s[j] in s[j..];
  }

  // No two completions are for the same job.
  lemma JobsDiffer(s: H.System, i: nat, j: nat)
    requires H.SystemInv(s) && i < j < |s.posted|
    ensures s.posted[i].job != s.posted[j].job
  {
    JobAt(s.posted, i);
    JobAt(s.posted, j);
    var accepted, done := s.executor.accepted, s.executor.done;
    assert done <= accepted && multiset(accepted)[accepted[i]] <= 1;
    if accepted[i] == accepted[j] {
      TwiceCounts(accepted, i, j);
    }
  }

  // Every completion delivered so far was delivered by its callback.
  ghost predicate DeliveredBy(executed: seq<Callback>, j: A.Joint) {
    forall id | id in j.delivered ::
      exists k: nat :: k < |j.sql.posted| && j.sql.posted[k].job == id && Callback(k) in executed
  }

  // When the loop comes to run a posted completion, the exchange allows its delivery: that no completion is
  // delivered twice is the loop's doing.
  lemma LoopDelivers(loop: EventLoop, j: A.Joint, k: nat)
    requires loop.CallbacksConserved() && DeliveredBy(loop.executed, j) && H.SystemInv(j.sql)
    requires k < |j.sql.posted| && j.sql.posted[k].job in j.mine
    requires multiset(loop.posted)[Callback(k)] <= 1
    requires Callback(k) in multiset(loop.callbackQueue) + loop.stacked
    ensures A.CanMove(j, A.Deliver(k))
  {
    hide H.SystemInv;
    var id := j.sql.posted[k].job;
    RunsOnce(loop, Callback(k));
    if id in j.delivered {
      var n: nat :| n < |j.sql.posted| && j.sql.posted[n].job == id && Callback(n) in loop.executed;
      if n < k {
        JobsDiffer(j.sql, n, k);
      } else if k < n {
        JobsDiffer(j.sql, k, n);
      }
    }
  }

  // It stays so with every move, as long as the loop runs the callback of each completion delivered.
  lemma MoveKeepsDelivered(executed: seq<Callback>, j: A.Joint, m: A.Move)
    requires DeliveredBy(executed, j) && A.CanMove(j, m)
    ensures DeliveredBy(executed + if m.Deliver? then [Callback(m.k)] else [], A.Move1(j, m))
  {
    var j' := A.Move1(j, m);
    var executed' := executed + if m.Deliver? then [Callback(m.k)] else [];
    PostedGrows(j, m);
    forall id | id in j'.delivered
      ensures exists k: nat :: k < |j'.sql.posted| && j'.sql.posted[k].job == id && Callback(k) in executed'
    {
      if id in j.delivered {
        var k: nat :| k < |j.sql.posted| && j.sql.posted[k].job == id && Callback(k) in executed;
        assert j'.sql.posted[k].job == id && Callback(k) in executed';
      } else {
        assert j'.sql.posted[m.k].job == id && Callback(m.k) in executed';
      }
    }
  }

  lemma PostedGrows(j: A.Joint, m: A.Move)
    requires A.CanMove(j, m)
    ensures j.sql.posted <= A.Move1(j, m).sql.posted
    ensures A.Move1(j, m).delivered == j.delivered + if m.Deliver? then [j.sql.posted[m.k].job] else []
  {
  }
}
