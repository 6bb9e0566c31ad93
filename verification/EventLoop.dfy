/** One event loop over the poll backend.  Handlers run inside dispatch and may call back into the
    loop, which then changes the very table the dispatch is walking; other threads push tasks and
    callbacks whenever the loop takes its lock.

    Handlers are arbitrary: `Handler` does any number of the things loop-thread code may do, nested
    to any depth up to `depth`, which every theorem leaves open. */
module EventLoopModule {
  import opened PollTable
  import opened PollDispatcherModule

  datatype Task = Add(channel: Channel) | Delete(fd: int) | Modify(fd: int)

  datatype Callback = Callback(id: nat)

  datatype Invocation = Invocation(channel: Channel, event: FDEvent)

  // What code of the loop's thread is entered for.
  datatype Entry = Posted(cb: Callback) | Event(invocation: Invocation)

  // What changed the registered Channels: an applied element of the queue, or an error on a descriptor.
  datatype Change = Done(task: Task) | Failed(fd: int)

  // A call of active(): the slot it was read off, the descriptor and the events.
  datatype Activation = Activation(slot: nat, fd: int, event: Mask)

  // One walk over the slots: the masks of the mapped descriptors at poll, the table poll left, the calls made,
  // and the slots that lost their registration.
  datatype Walk = NoWalk | Walk(masks: Masks, table: Table, calls: seq<Activation>, lost: set<nat>)

  // What active() is to be called with for slot i of a table that poll left.
  function ReadyIn(table: Table, i: nat): Activation
    requires i < |table|
  {
    Activation(i, table[i].fd, FromPoll(table[i].revents))
  }

  // In order and no slot twice; nothing but what poll left for that very slot; and every slot with something
  // to report was served, unless it lost its registration.
  ghost predicate Complete(w: Walk)
    requires w.Walk?
  {
    && Increasing(w.calls) && Genuine(w.calls, w.table)
    && forall i: nat | i < |w.table| && w.table[i].revents != {} :: ReadyIn(w.table, i) in w.calls || i in w.lost
  }

  ghost predicate Increasing(calls: seq<Activation>) {
    forall i, j | 0 <= i < j < |calls| :: calls[i].slot < calls[j].slot
  }

  ghost predicate Genuine(calls: seq<Activation>, table: Table) {
    forall a | a in calls :: a.slot < |table| && a == ReadyIn(table, a.slot) && a.event != {}
  }

  // Every call tells a mapped descriptor what it asked for and what holds, and every mapped descriptor with
  // something to be told is told, unless its slot lost the registration.
  ghost predicate Truthful(w: Walk, answer: seq<set<PollFlag>>)
    requires w.Walk? && |w.table| == |answer|
  {
    && (forall a | a in w.calls ::
          && a.slot < |w.table| && a.fd == w.table[a.slot].fd && a.fd in w.masks
          && Means(a.event, answer[a.slot], w.masks[a.fd]))
    && (forall fd | fd in w.masks :: HasSlot(w.table, fd))
    && (forall j: nat | j < |w.table| && w.table[j].fd in w.masks ::
          Means({}, answer[j], w.masks[w.table[j].fd]) || j in w.lost
          || exists a :: a in w.calls && a.slot == j)
  }

  lemma WalkIsTruthful(w: Walk, table: Table, answer: seq<set<PollFlag>>)
    requires w.Walk? && Agrees(table, w.masks) && Complete(w) && |w.table| == |table| == |answer|
    requires forall j | 0 <= j < |table| :: w.table[j] == table[j].(revents := Reported(table[j], answer[j]))
    ensures Truthful(w, answer)
  {
    forall j: nat | j < |table| && table[j].fd in w.masks
      ensures Means(ReadyIn(w.table, j).event, answer[j], w.masks[table[j].fd])
    {
      SlotMeans(w.table[j], table[j], answer[j], w.masks[table[j].fd]);
    }
    hide Means, Reported, FromPoll, ToPoll;
    assert forall a | a in w.calls :: a == ReadyIn(w.table, a.slot);
    NothingToTell(w.table, answer);
    SameSlots(table, w.table, w.masks);
    forall j: nat | j < |w.table| && w.table[j].fd in w.masks && !Means({}, answer[j], w.masks[w.table[j].fd])
      ensures j in w.lost || exists a :: a in w.calls && a.slot == j
    {
      assert ReadyIn(w.table, j) in w.calls ==> ReadyIn(w.table, j).slot == j;
    }
  }

  lemma SlotMeans(after: PollFd, slot: PollFd, answer: set<PollFlag>, mask: Mask)
    requires after == slot.(revents := Reported(slot, answer)) && slot.fd != FREE && slot.events == ToPoll(mask)
    ensures Means(FromPoll(after.revents), answer, mask)
  {
    TellsWhatItMeans(after.revents, answer, mask);
  }

  lemma NothingToTell(table: Table, answer: seq<set<PollFlag>>)
    ensures forall j: nat | j < |table| && table[j].revents == {} :: ReadyIn(table, j).event == {}
  {
  }

  lemma SameSlots(t: Table, t': Table, masks: Masks)
    requires Agrees(t, masks) && |t| == |t'| && forall i | 0 <= i < |t| :: t[i].fd == t'[i].fd
    ensures forall fd | fd in masks :: HasSlot(t', fd)
  {
    forall fd | fd in masks ensures HasSlot(t', fd) {
      assert HasSlot(t, fd);
      var i :| 0 <= i < |t| && t[i].fd == fd;
      assert t'[i].fd == fd;
    }
  }

  // How a call of poll() ends: with the conditions that hold on each slot, interrupted, or with an error.
  datatype PollEnd = Returned(answer: seq<set<PollFlag>>) | Interrupted | Broken

  // The walk such an end leads to.
  ghost predicate WalkOf(w: Walk, end: PollEnd) {
    match end
    case Returned(answer) =>
      w.Walk? && Complete(w) && |w.table| == |answer| && Truthful(w, answer)
    case _ => w.NoWalk?
  }

  datatype Status = Ok | Again | Invalid | NotFound | Error

  lemma PrefixHolds<T>(a: seq<T>, b: seq<T>)
    requires a <= b
    ensures multiset(a) <= multiset(b)
  {
    assert b == a + b[|a|..];
  }

  // One more of `left` has run since `start`.
  lemma OneMoreRan<T>(taken: multiset<T>, start: seq<T>, before: seq<T>, after: seq<T>, left: seq<T>)
    requires left != [] && start <= before && before + [left[0]] <= after
    requires taken <= multiset(before[|start|..]) + multiset(left)
    ensures taken <= multiset(after[|start|..]) + multiset(left[1..])
  {
    assert after[|start|..] == before[|start|..] + [left[0]] + after[|before| + 1..];
    MultisetHead(left);
  }

  lemma OneTaken<T>(base: multiset<T>, left: seq<T>)
    requires left != []
    ensures base + multiset(left) - multiset{left[0]} == base + multiset(left[1..])
  {
    MultisetHead(left);
  }

  lemma MultisetHead<T>(s: seq<T>)
    requires s != []
    ensures multiset(s) == multiset{s[0]} + multiset(s[1..])
  {
    assert s == [s[0]] + s[1..];
  }

  // ------------------------------------------------------------------ what a Channel task does

  function After(m: map<int, Channel>, c: Change): map<int, Channel> {
    match c
    case Done(Add(ch)) => if ch.fd in m || |m| >= MAX_NODE then m else m[ch.fd := ch]
    case Done(Delete(fd)) => m - {fd}
    case Done(Modify(_)) => m
    case Failed(fd) => m - {fd}
  }

  function Replay(changes: seq<Change>): map<int, Channel> {
    if changes == [] then map[] else After(Replay(changes[..|changes| - 1]), changes[|changes| - 1])
  }

  function TasksIn(changes: seq<Change>): seq<Task> {
    if changes == [] then []
    else
      var c := changes[|changes| - 1];
      TasksIn(changes[..|changes| - 1]) + if c.Done? then [c.task] else []
  }

  lemma ReplayAppend(changes: seq<Change>, c: Change)
    ensures Replay(changes + [c]) == After(Replay(changes), c)
    ensures TasksIn(changes + [c]) == TasksIn(changes) + if c.Done? then [c.task] else []
  {
    assert (changes + [c])[..|changes|] == changes;
  }

  // A change from the k-th on takes `fd` out of the map.
  ghost predicate Removed(changes: seq<Change>, k: nat, fd: int) {
    exists i | k <= i < |changes| :: changes[i] == Done(Delete(fd)) || changes[i] == Failed(fd)
  }

  lemma AfterKeeps(m: map<int, Channel>, c: Change, fd: int)
    requires fd in m && c != Done(Delete(fd)) && c != Failed(fd)
    ensures fd in After(m, c) && After(m, c)[fd] == m[fd]
  {
  }

  // A number that is not removed keeps its Channel.
  lemma {:induction false} NotRemoved(changes: seq<Change>, k: nat, fd: int)
    requires k <= |changes| && fd in Replay(changes[..k]) && !Removed(changes, k, fd)
    ensures fd in Replay(changes) && Replay(changes)[fd] == Replay(changes[..k])[fd]
  {
    hide After;
    if k == |changes| {
      assert changes[..k] == changes;
    } else {
      var n := |changes| - 1;
      assert changes[..n][..k] == changes[..k];
      assert forall i | k <= i < n :: changes[..n][i] == changes[i];
      NotRemoved(changes[..n], k, fd);
      AfterKeeps(Replay(changes[..n]), changes[n], fd);
    }
  }

  // The map together with the pollfd table.
  datatype Registry = Registry(channels: map<int, Channel>, table: Table)

  type MaskMap = map<Channel, Mask>

  function MaskIn(masks: MaskMap, ch: Channel): Mask { if ch in masks then masks[ch] else {} }

  // One element of the queue, when the Channels have these masks.
  function Apply(r: Registry, t: Task, masks: MaskMap): Registry {
    var table := match t
      case Add(ch) =>
        if ch.fd in r.channels || |r.channels| >= MAX_NODE then r.table else AddTo(r.table, ch.fd, MaskIn(masks, ch))
      case Delete(fd) => if fd in r.channels then RemoveFrom(r.table, fd) else r.table
      case Modify(fd) => if fd in r.channels then ModifyIn(r.table, fd, MaskIn(masks, r.channels[fd])) else r.table;
    Registry(After(r.channels, Done(t)), table)
  }

  // The elements of a queue, first to last.
  function ApplyAll(r: Registry, q: seq<Task>, masks: MaskMap): Registry {
    if q == [] then r else Apply(ApplyAll(r, q[..|q| - 1], masks), q[|q| - 1], masks)
  }

  lemma ApplyAllAppend(r: Registry, q: seq<Task>, t: Task, masks: MaskMap)
    ensures ApplyAll(r, q + [t], masks) == Apply(ApplyAll(r, q, masks), t, masks)
  {
    hide Apply;
    assert (q + [t])[..|q|] == q;
  }

  lemma ApplyNone(r: Registry, masks: MaskMap)
    ensures ApplyAll(r, [], masks) == r
  {
  }

  class EventLoop {
    const dispatcher: PollDispatcher
    var channelMap: map<int, Channel>
    var taskQ: seq<Task>
    var callbackQueue: seq<Callback>

    ghost var channels: set<Channel>          // every Channel this loop was ever given
    ghost var pushed: seq<Task>               // every task ever queued, in order
    ghost var applied: seq<Task>              // every task applied, in order
    ghost var changes: seq<Change>            // everything that changed the map, in order
    ghost var posted: seq<Callback>           // every callback ever posted
    ghost var executed: seq<Callback>         // every callback run
    ghost var stacked: multiset<Callback>     // callbacks in the local queues of processTaskQ calls under way
    ghost var registration: seq<nat>          // which registration each slot holds
    ghost var registrations: nat
    ghost var polled: seq<nat>                // the registrations the last poll collected results for
    ghost var collected: seq<PollFd>          // the table that poll left
    ghost var live: set<nat>                  // the slots that still carry results
    ghost var entered: seq<Activation>        // the calls of active() since that poll, in order
    ghost var reported: set<nat>              // the slots that poll reported
    ghost var invoked: seq<Invocation>        // every read or write callback dispatch invoked, in order

    ghost function Masks(): Masks
      reads this`channelMap, channelMap.Values
    {
      MasksOf(channelMap)
    }

    static ghost function MasksOf(m: map<int, Channel>): Masks
      reads m.Values
    {
      map fd | fd in m :: m[fd].events
    }

    ghost predicate MapValid()
      reads `channelMap, `channels
    {
      MapOk(channelMap, channels)
    }

    static ghost predicate MapOk(m: map<int, Channel>, channels: set<Channel>) {
      forall fd | fd in m :: fd >= 0 && m[fd].fd == fd && m[fd] in channels
    }

    ghost predicate TaskValid(t: Task)
      reads `channels
    {
      t.Add? ==> t.channel.fd >= 0 && t.channel in channels
    }

    // The map is what the applied tasks, and the errors between them, make of an empty one.
    ghost predicate History()
      reads `channelMap, `changes, `applied
    {
      channelMap == Replay(changes) && applied == TasksIn(changes)
    }

    ghost function Registered(): Registry
      reads `channelMap, dispatcher.fds
    {
      Registry(channelMap, dispatcher.fds[..])
    }

    ghost function EventsOf(): MaskMap
      reads `channels, channels
    {
      map ch | ch in channels :: ch.events
    }

    // Posted callbacks are executed, queued or in a local queue: none is lost, none runs twice.
    ghost predicate CallbacksConserved()
      reads `posted, `executed, `callbackQueue, `stacked
    {
      multiset(posted) == multiset(executed) + multiset(callbackQueue) + stacked
    }

    // A slot carries results only while it holds the registration poll collected them for, and then they
    // are that descriptor's, as collected.
    ghost predicate SlotsValid()
      reads `registration, `registrations, `polled, `collected, `live, `reported, dispatcher.fds
    {
      && dispatcher.Valid() && |registration| == |polled| == |collected| == MAX_NODE
      && (forall i | 0 <= i < MAX_NODE :: dispatcher.fds[i].revents != {} <==> i in live)
      && (forall i | i in live :: i < MAX_NODE && dispatcher.fds[i].fd != FREE && registration[i] == polled[i])
      && (forall i | i in live :: AsCollected(i))
      && (forall i | 0 <= i < MAX_NODE :: registration[i] <= registrations && polled[i] <= registrations)
      && (forall i | i in reported :: i in live || Lost(i))
    }

    ghost predicate AsCollected(i: nat)
      reads `collected, dispatcher.fds
    {
      && i < |collected| && i < dispatcher.fds.Length
      && dispatcher.fds[i].fd == collected[i].fd && dispatcher.fds[i].revents == collected[i].revents
    }

    // The slot no longer holds the registration of the last poll.
    ghost predicate Lost(i: nat)
      requires |registration| == |polled| == dispatcher.fds.Length == MAX_NODE
      reads `registration, `polled, dispatcher.fds
    {
      i < MAX_NODE && (dispatcher.fds[i].fd == FREE || registration[i] != polled[i])
    }

    ghost predicate Valid()
      reads this, dispatcher.fds
    {
      && MapValid() && (forall t | t in taskQ :: TaskValid(t)) && CallbacksConserved() && SlotsValid() && History()
    }

    ghost function Stale(q: seq<Task>): set<int> { set t | t in q && t.Modify? :: t.fd }

    // The table and the map agree, except that the events of a descriptor may be stale while a
    // MODIFY for it is in q.
    ghost predicate AgreesModulo(q: seq<Task>)
      reads this`channelMap, channelMap.Values, dispatcher.fds
    {
      AgreesBut(dispatcher.fds[..], Masks(), Stale(q))
    }

    ghost predicate Agreement()
      reads this`channelMap, channelMap.Values, dispatcher.fds
    {
      Agrees(dispatcher.fds[..], Masks())
    }

    // Every task ever queued is applied, in `local` or still queued, in the order it was queued.
    ghost predicate Conserved(local: seq<Task>)
      reads this`pushed, this`applied, this`taskQ
    {
      pushed == applied + local + taskQ
    }

    // The loop's own end of the socket pair is its first Channel.  No other thread knows the loop yet, so
    // addTask's processTaskQ finds just this.
    constructor (wakeupFd: nat)
      ensures Steady() && OnlyWakeup(wakeupFd) && fresh(dispatcher) && fresh(dispatcher.fds) && fresh(channels)
    {
      dispatcher := new PollDispatcher();
      channelMap, taskQ, callbackQueue := map[], [], [];
      channels, pushed, applied, changes := {}, [], [], [];
      posted, executed, stacked := [], [], multiset{};
      registration, registrations, polled := seq(MAX_NODE, _ => 0), 0, seq(MAX_NODE, _ => 0);
      collected := seq(MAX_NODE, _ => FREE_SLOT);
      live, entered, reported, invoked := {}, [], {}, [];
      new;
      hide Valid, Steady, Agreement, OnlyWakeup;
      NothingYet();
      var wakeup := new Channel(wakeupFd, {ReadEvent}, true, false);
      FirstChannel(wakeup);
    }

    lemma NothingYet()
      requires dispatcher.Valid() && forall i | 0 <= i < MAX_NODE :: dispatcher.fds[i] == FREE_SLOT
      requires channelMap == map[] && taskQ == [] && changes == [] && applied == []
      requires posted == executed == callbackQueue == [] && stacked == multiset{}
      requires registration == polled == seq(MAX_NODE, _ => 0) && live == {} && reported == {}
      requires |collected| == MAX_NODE
      ensures Valid() && Agreement()
    {
      hide SlotsValid, AgreesBut;
      NoSlots();
      NothingRegistered();
    }

    lemma NoSlots()
      requires dispatcher.Valid() && forall i | 0 <= i < MAX_NODE :: dispatcher.fds[i] == FREE_SLOT
      requires polled == registration && |registration| == |collected| == MAX_NODE && live == {} && reported == {}
      requires forall i | 0 <= i < MAX_NODE :: registration[i] <= registrations
      ensures SlotsValid()
    {
    }

    lemma NothingRegistered()
      requires dispatcher.Valid() && forall i | 0 <= i < MAX_NODE :: dispatcher.fds[i] == FREE_SLOT
      requires channelMap == map[]
      ensures Agreement()
    {
      assert forall i | 0 <= i < MAX_NODE :: dispatcher.fds[..][i] == dispatcher.fds[i];
    }

    // A Channel handed to this loop.
    ghost method Adopt(ch: Channel)
      requires Valid()
      modifies this`channels
      ensures Valid() && channels == old(channels) + {ch}
    {
      hide SlotsValid, CallbacksConserved, History;
      channels := channels + {ch};
    }

    // The wake-up Channel's ADD was queued and applied, and nothing else happened.
    ghost predicate OnlyWakeup(wakeupFd: nat)
      reads this, channelMap.Values
    {
      && channelMap.Keys == {wakeupFd} && channelMap[wakeupFd].events == {ReadEvent}
      && pushed == applied == [Add(channelMap[wakeupFd])] && taskQ == [] && callbackQueue == []
    }

    method FirstChannel(wakeup: Channel)
      requires Valid() && Agreement() && channels == {} && wakeup.fd >= 0 && changes == []
      requires wakeup.events == {ReadEvent}
      requires pushed == applied == taskQ == [] && callbackQueue == [] && channelMap == map[]
      modifies this`channelMap, this`registration, this`registrations, this`live, this`changes, this`applied
      modifies this`channels, this`taskQ, this`pushed, dispatcher, dispatcher.fds
      ensures channels == old(channels) + {wakeup}
      ensures Steady() && OnlyWakeup(wakeup.fd)
    {
      hide Valid, Agreement, EventsOf, ApplyAll, Apply, OnlyWakeup, Steady;
      ghost var empty := Registered();
      Adopt(wakeup);
      PushTask(Add(wakeup));
      var localQ := SwapTasks();
      Emptied(localQ);
      ApplyTasks(localQ);
      ApplyNone(empty, EventsOf());
      ApplyAllAppend(empty, [], Add(wakeup), EventsOf());
      assert localQ == [] + [Add(wakeup)];
      FirstApplied(empty, wakeup, EventsOf());
      IsOnlyWakeup(wakeup);
    }

    static lemma FirstApplied(empty: Registry, ch: Channel, masks: MaskMap)
      requires empty.channels == map[]
      ensures Apply(empty, Add(ch), masks).channels == map[ch.fd := ch]
    {
    }

    lemma IsOnlyWakeup(ch: Channel)
      requires channelMap == map[ch.fd := ch] && ch.fd >= 0 && ch.events == {ReadEvent}
      requires pushed == applied == [Add(ch)] && taskQ == [] && callbackQueue == []
      ensures OnlyWakeup(ch.fd)
    {
    }

    lemma Emptied(localQ: seq<Task>)
      requires Agreement()
      ensures AgreesModulo(localQ)
    {
      hide AgreesBut;
      WeakenStale({}, Stale(localQ));
    }

    lemma Owned(fd: int)
      requires MapValid()
      ensures if fd in channelMap then channelMap[fd].fd == fd && fd >= 0 && channelMap[fd] in channels
              else channelMap - {fd} == channelMap
    {
    }

    // ---------------------------------------------------------------- registration

    method AddChannel(ch: Channel, ghost stale: set<int>) returns (status: Status)
      requires MapValid() && SlotsValid() && AgreesBut(dispatcher.fds[..], Masks(), stale)
      requires ch in channels && ch.fd >= 0
      modifies this`channelMap, this`registration, this`registrations, dispatcher, dispatcher.fds
      ensures MapValid() && SlotsValid() && AgreesBut(dispatcher.fds[..], Masks(), stale)
      ensures status == if ch.fd !in old(channelMap) && |old(channelMap)| < 1024 then Ok else Error
      ensures channelMap == if status == Ok then old(channelMap)[ch.fd := ch] else old(channelMap)
      ensures dispatcher.fds[..] == if status == Ok then AddTo(old(dispatcher.fds[..]), ch.fd, ch.events)
                                    else old(dispatcher.fds[..])
    {
      hide AgreesBut, SlotsValid, MapOk, MasksOf, SlotOf, AddTo;
      if ch.fd in channelMap {
        return Error;
      }
      FullMap(stale);
      MapWith(channelMap, ch, channels);
      AddAgrees(dispatcher.fds[..], Masks(), stale, ch.fd, ch.events);
      channelMap := channelMap[ch.fd := ch];
      var ok := Register(ch);
      if !ok {
        channelMap := channelMap - {ch.fd};
        return Error;
      }
      return Ok;
    }

    static lemma MapWith(m: map<int, Channel>, ch: Channel, channels: set<Channel>)
      requires MapOk(m, channels) && ch in channels && ch.fd >= 0
      ensures MapOk(m[ch.fd := ch], channels) && MasksOf(m).Keys == m.Keys
      ensures MasksOf(m[ch.fd := ch]) == MasksOf(m)[ch.fd := ch.events]
      ensures ch.fd !in m ==> m[ch.fd := ch] - {ch.fd} == m
    {
    }

    lemma FullMap(stale: set<int>)
      requires SlotsValid() && AgreesBut(dispatcher.fds[..], Masks(), stale)
      ensures dispatcher.fds.Length == MAX_NODE
      ensures SlotOf(dispatcher.fds[..], FREE) < MAX_NODE <==> |channelMap| < MAX_NODE
    {
      hide AgreesBut, SlotOf;
      assert dispatcher.Valid();
      RoomIffFree(dispatcher.fds[..], Masks(), stale);
      assert Masks().Keys == channelMap.Keys;
    }

    // dispatcher_->setChannel, then add(): a new registration for the slot it takes.
    method Register(ch: Channel) returns (ok: bool)
      requires SlotsValid()
      modifies this`registration, this`registrations, dispatcher, dispatcher.fds
      ensures SlotsValid()
      ensures dispatcher.fds[..] == AddTo(old(dispatcher.fds[..]), ch.fd, ch.events)
      ensures ok == (SlotOf(old(dispatcher.fds[..]), FREE) < MAX_NODE)
    {
      ghost var table := dispatcher.fds[..];
      ghost var k := SlotOf(table, FREE);
      assert k < MAX_NODE ==> table[k] == dispatcher.fds[k];
      dispatcher.SetChannel(ch);
      ok := dispatcher.Add();
      assert forall i | 0 <= i < MAX_NODE :: dispatcher.fds[i] == dispatcher.fds[..][i];
      if ok {
        registrations := registrations + 1;
        registration := registration[k := registrations];
      }
    }

    method RemoveChannel(fd: int, ghost stale: set<int>) returns (status: Status)
      requires MapValid() && SlotsValid() && AgreesBut(dispatcher.fds[..], Masks(), stale)
      modifies this`channelMap, this`live, dispatcher, dispatcher.fds
      ensures MapValid() && SlotsValid() && AgreesBut(dispatcher.fds[..], Masks(), stale)
      ensures live <= old(live)
      ensures status == (if fd in old(channelMap) then Ok else NotFound)
      ensures channelMap == old(channelMap) - {fd}
      ensures dispatcher.fds[..] == if fd in old(channelMap) then RemoveFrom(old(dispatcher.fds[..]), fd)
                                    else old(dispatcher.fds[..])
    {
      hide AgreesBut, SlotsValid, MapOk, MasksOf, SlotOf, RemoveFrom;
      if fd !in channelMap {
        assert channelMap - {fd} == channelMap;
        return NotFound;
      }
      MapWithout(channelMap, fd, channels);
      TableLength();
      RemoveAgrees(dispatcher.fds[..], Masks(), stale, fd);
      var ok := Unregister(channelMap[fd]);
      if ok {
        channelMap := channelMap - {fd};
        return Ok;
      }
      return NotFound;
    }

    static lemma MapWithout(m: map<int, Channel>, fd: int, channels: set<Channel>)
      requires MapOk(m, channels) && fd in m
      ensures MapOk(m - {fd}, channels) && fd in MasksOf(m) && m[fd].fd == fd >= 0
      ensures MasksOf(m - {fd}) == MasksOf(m) - {fd} && MasksOf(m)[fd] == m[fd].events
    {
    }

    // dispatcher_->setChannel, then remove(): the slot's result goes with it.
    method Unregister(ch: Channel) returns (ok: bool)
      requires SlotsValid() && ch.fd != FREE
      modifies this`live, dispatcher, dispatcher.fds
      ensures SlotsValid() && live <= old(live)
      ensures dispatcher.fds[..] == RemoveFrom(old(dispatcher.fds[..]), ch.fd)
      ensures ok == (SlotOf(old(dispatcher.fds[..]), ch.fd) < MAX_NODE)
    {
      dispatcher.SetChannel(ch);
      live := live - {SlotOf(dispatcher.fds[..], ch.fd)};
      ok := dispatcher.Remove();
      assert forall i | 0 <= i < MAX_NODE :: dispatcher.fds[i] == dispatcher.fds[..][i];
    }

    method ModifyChannel(fd: int, ghost stale: set<int>) returns (status: Status)
      requires MapValid() && SlotsValid() && AgreesBut(dispatcher.fds[..], Masks(), stale)
      modifies dispatcher, dispatcher.fds
      ensures SlotsValid() && AgreesBut(dispatcher.fds[..], Masks(), stale - {fd})
      ensures status == if fd in channelMap then Ok else NotFound
      ensures dispatcher.fds[..] ==
                if fd in channelMap then ModifyIn(old(dispatcher.fds[..]), fd, channelMap[fd].events)
                else old(dispatcher.fds[..])
    {
      hide AgreesBut, SlotsValid, MapOk, MasksOf, SlotOf, ModifyIn;
      if fd !in channelMap {
        Narrow(stale, fd);
        return NotFound;
      }
      MapWithout(channelMap, fd, channels);
      TableLength();
      ModifyAgrees(dispatcher.fds[..], Masks(), stale, fd);
      var ok := Reask(channelMap[fd]);
      return if ok then Ok else NotFound;
    }

    lemma TableLength()
      requires SlotsValid()
      ensures dispatcher.fds.Length == MAX_NODE
    {
    }

    // A number that is not registered is not stale.
    lemma Narrow(stale: set<int>, fd: int)
      requires AgreesBut(dispatcher.fds[..], Masks(), stale) && fd !in channelMap
      ensures AgreesBut(dispatcher.fds[..], Masks(), stale - {fd})
    {
    }

    // dispatcher_->setChannel, then modify().
    method Reask(ch: Channel) returns (ok: bool)
      requires SlotsValid()
      modifies dispatcher, dispatcher.fds
      ensures SlotsValid()
      ensures dispatcher.fds[..] == ModifyIn(old(dispatcher.fds[..]), ch.fd, ch.events)
      ensures ok == (SlotOf(old(dispatcher.fds[..]), ch.fd) < MAX_NODE)
    {
      dispatcher.SetChannel(ch);
      ok := dispatcher.Modify();
      assert forall i | 0 <= i < MAX_NODE :: dispatcher.fds[i] == dispatcher.fds[..][i];
    }

    // ---------------------------------------------------------------- queued work

    // What every entry into the loop's own code keeps.
    ghost predicate Steady()
      reads this, dispatcher.fds, channelMap.Values
    {
      Valid() && Agreement() && Conserved([])
    }

    // What such an entry never takes back.
    twostate predicate Grows()
      reads this
    {
      GrowsBut(multiset{})
    }

    // The same with more callbacks in local queues.
    twostate predicate GrowsBut(more: multiset<Callback>)
      reads this
    {
      Accrues(more) && SamePoll() && invoked == old(invoked) && entered == old(entered)
    }

    // No poll since; results can only be lost.
    twostate predicate SamePoll()
      reads this
    {
      polled == old(polled) && collected == old(collected) && reported == old(reported) && live <= old(live)
    }

    twostate predicate Accrues(more: multiset<Callback>)
      reads this
    {
      LogsGrow() && old(executed) <= executed && stacked == old(stacked) + more
    }

    twostate predicate LogsGrow()
      reads this
    {
      && old(channels) <= channels && fresh(channels - old(channels))
      && old(pushed) <= pushed && old(applied) <= applied && old(changes) <= changes && old(posted) <= posted
    }

    // What a posted callback leaves alone, apart from its own entry in the logs.
    twostate predicate Keeps()
      reads this
    {
      LogsGrow() && SamePoll() && invoked == old(invoked) && entered == old(entered)
    }

    // The lock: other threads may have pushed anything in the meantime.
    method OtherThreads() returns (ghost added: seq<Task>, ghost others: seq<Callback>)
      requires Valid()
      modifies this`taskQ, this`callbackQueue, this`pushed, this`posted, this`channels
      ensures Valid() && Grows()
      ensures taskQ == old(taskQ) + added && pushed == old(pushed) + added
      ensures callbackQueue == old(callbackQueue) + others && posted == old(posted) + others
    {
      hide SlotsValid, MapValid, CallbacksConserved, TaskValid, History;
      var n: nat := *;
      added, others := [], [];
      while n > 0
        invariant Valid() && Grows()
        invariant taskQ == old(taskQ) + added && pushed == old(pushed) + added
        invariant callbackQueue == old(callbackQueue) + others && posted == old(posted) + others
      {
        if * {
          var t := AnyTask();
          PushTask(t);
          added := added + [t];
        } else {
          var cb: Callback := *;
          PushCallback(cb);
          others := others + [cb];
        }
        n := n - 1;
      }
    }

    method PushTask(t: Task)
      requires Valid() && TaskValid(t)
      modifies this`taskQ, this`pushed
      ensures Valid() && taskQ == old(taskQ) + [t] && pushed == old(pushed) + [t]
    {
      taskQ := taskQ + [t];
      pushed := pushed + [t];
    }

    method PushCallback(cb: Callback)
      requires Valid()
      modifies this`callbackQueue, this`posted
      ensures Valid() && callbackQueue == old(callbackQueue) + [cb] && posted == old(posted) + [cb]
    {
      callbackQueue := callbackQueue + [cb];
      posted := posted + [cb];
    }

    // A task some thread may push: a new connection's Channel, or a descriptor number.
    method AnyTask() returns (t: Task)
      requires Valid()
      modifies this`channels
      ensures Valid() && TaskValid(t) && !Refused(t) && old(channels) <= channels && fresh(channels - old(channels))
    {
      hide SlotsValid, CallbacksConserved, History;
      var fd: int :| fd >= 0;
      if * {
        var ch := new Channel(fd, {ReadEvent}, true, true);
        Adopt(ch);
        t := Add(ch);
      } else if * {
        t := Delete(fd);
      } else {
        t := Modify(fd);
      }
    }

    lemma WeakenStale(a: set<int>, b: set<int>)
      requires AgreesBut(dispatcher.fds[..], Masks(), a) && a <= b
      ensures AgreesBut(dispatcher.fds[..], Masks(), b)
    {
    }

    lemma SteadyAllows(q: seq<Task>)
      requires Steady()
      ensures Valid() && Conserved([]) && AgreesModulo(q)
    {
      hide Valid, AgreesBut;
      WeakenStale({}, Stale(q));
    }

    // One turn of processTaskQ's first loop.
    method ApplyTask(t: Task, ghost rest: seq<Task>)
      requires MapValid() && SlotsValid() && TaskValid(t) && AgreesModulo([t] + rest)
      modifies this`channelMap, this`registration, this`registrations, this`live, dispatcher, dispatcher.fds
      ensures live <= old(live)
      ensures MapValid() && SlotsValid() && AgreesModulo(rest)
      ensures Registered() == Apply(old(Registered()), t, EventsOf()) && EventsOf() == old(EventsOf())
    {
      hide AgreesBut, SlotsValid, MapOk, EventsOf, Apply;
      match t {
        case Add(ch) =>
          assert Stale([t] + rest) == Stale(rest);
          ApplyAdd(ch, Stale(rest));
        case Delete(fd) =>
          assert Stale([t] + rest) == Stale(rest);
          ApplyDelete(fd, Stale(rest));
        case Modify(fd) =>
          ApplyModify(fd, Stale([t] + rest));
          WeakenStale(Stale([t] + rest) - {fd}, Stale(rest));
      }
    }

    method ApplyAdd(ch: Channel, ghost stale: set<int>)
      requires MapValid() && SlotsValid() && AgreesBut(dispatcher.fds[..], Masks(), stale)
      requires ch in channels && ch.fd >= 0
      modifies this`channelMap, this`registration, this`registrations, dispatcher, dispatcher.fds
      ensures MapValid() && SlotsValid() && AgreesBut(dispatcher.fds[..], Masks(), stale)
      ensures Registered() == Apply(old(Registered()), Add(ch), EventsOf()) && EventsOf() == old(EventsOf())
    {
      hide AgreesBut, SlotsValid, MapOk, MasksOf, EventsOf, AddTo;
      MaskKnown(ch);
      var _ := AddChannel(ch, stale);
    }

    method ApplyDelete(fd: int, ghost stale: set<int>)
      requires MapValid() && SlotsValid() && AgreesBut(dispatcher.fds[..], Masks(), stale)
      modifies this`channelMap, this`live, dispatcher, dispatcher.fds
      ensures live <= old(live)
      ensures MapValid() && SlotsValid() && AgreesBut(dispatcher.fds[..], Masks(), stale)
      ensures Registered() == Apply(old(Registered()), Delete(fd), EventsOf()) && EventsOf() == old(EventsOf())
    {
      hide AgreesBut, SlotsValid, MapOk, MasksOf, EventsOf, RemoveFrom;
      var _ := RemoveChannel(fd, stale);
    }

    method ApplyModify(fd: int, ghost stale: set<int>)
      requires MapValid() && SlotsValid() && AgreesBut(dispatcher.fds[..], Masks(), stale)
      modifies dispatcher, dispatcher.fds
      ensures SlotsValid() && AgreesBut(dispatcher.fds[..], Masks(), stale - {fd})
      ensures Registered() == Apply(old(Registered()), Modify(fd), EventsOf()) && EventsOf() == old(EventsOf())
    {
      if fd in channelMap {
        KnownChannel(fd);
        MaskKnown(channelMap[fd]);
      }
      hide AgreesBut, SlotsValid, MapOk, MasksOf, EventsOf, ModifyIn;
      var _ := ModifyChannel(fd, stale);
    }

    lemma MaskKnown(ch: Channel)
      requires ch in channels
      ensures MaskIn(EventsOf(), ch) == ch.events
    {
    }

    lemma KnownChannel(fd: int)
      requires MapValid() && fd in channelMap
      ensures channelMap[fd] in channels
    {
    }

    ghost method Note(c: Change)
      requires applied == TasksIn(changes) && channelMap == After(Replay(changes), c)
      modifies this`changes, this`applied
      ensures History() && changes == old(changes) + [c]
      ensures applied == old(applied) + if c.Done? then [c.task] else []
    {
      ReplayAppend(changes, c);
      changes := changes + [c];
      applied := applied + if c.Done? then [c.task] else [];
    }

    // The first loop of processTaskQ: destructors never push tasks, so nothing interrupts it.
    method ApplyTasks(local: seq<Task>)
      requires Valid() && AgreesModulo(local) && Conserved(local) && forall t | t in local :: TaskValid(t)
      modifies this`channelMap, this`registration, this`registrations, this`live, this`changes, this`applied
      modifies dispatcher, dispatcher.fds
      ensures live <= old(live) && old(changes) <= changes
      ensures Steady() && applied == old(applied) + local
      ensures Registered() == ApplyAll(old(Registered()), local, EventsOf())
    {
      hide AgreesBut, SlotsValid, MapValid, CallbacksConserved, TaskValid, History, Apply, ApplyAll, EventsOf;
      var i := 0;
      ApplyNone(Registered(), EventsOf());
      assert local[..0] == [] && local[0..] == local;
      while i < |local|
        invariant 0 <= i <= |local|
        invariant live <= old(live) && old(changes) <= changes && EventsOf() == old(EventsOf())
        invariant Valid() && AgreesModulo(local[i..]) && applied == old(applied) + local[..i]
        invariant Registered() == ApplyAll(old(Registered()), local[..i], EventsOf())
      {
        ApplyNext(local, i);
        ApplyAllAppend(old(Registered()), local[..i], local[i], EventsOf());
        i := i + 1;
      }
      assert local[..i] == local && local[i..] == [] && Stale([]) == {};
    }

    method ApplyNext(local: seq<Task>, i: nat)
      requires i < |local| && Valid() && AgreesModulo(local[i..]) && TaskValid(local[i])
      modifies this`channelMap, this`registration, this`registrations, this`live, this`changes, this`applied
      modifies dispatcher, dispatcher.fds
      ensures Valid() && AgreesModulo(local[i + 1..])
      ensures live <= old(live) && old(changes) <= changes && EventsOf() == old(EventsOf())
      ensures applied == old(applied) + [local[i]] && local[..i + 1] == local[..i] + [local[i]]
      ensures Registered() == Apply(old(Registered()), local[i], EventsOf())
    {
      hide AgreesBut, SlotsValid, MapValid, CallbacksConserved, TaskValid, EventsOf, Replay, TasksIn;
      assert local[i..] == [local[i]] + local[i + 1..];
      assert local[..i + 1] == local[..i] + [local[i]];
      ApplyTask(local[i], local[i + 1..]);
      Note(Done(local[i]));
    }

    method SwapTasks() returns (localQ: seq<Task>)
      requires Valid()
      modifies this`taskQ
      ensures Valid() && localQ == old(taskQ) && taskQ == [] && forall t | t in localQ :: TaskValid(t)
    {
      hide SlotsValid, MapValid, CallbacksConserved, History;
      localQ := taskQ;
      taskQ := [];
    }

    // std::swap(localQ, taskQ_), under the lock.
    method TakeTasks() returns (localQ: seq<Task>)
      requires Valid() && AgreesModulo(taskQ) && Conserved([])
      modifies this`taskQ, this`callbackQueue, this`pushed, this`posted, this`channels
      ensures Valid() && Grows() && AgreesModulo(localQ) && Conserved(localQ)
      ensures taskQ == [] && forall t | t in localQ :: TaskValid(t)
      ensures old(taskQ) <= localQ && old(callbackQueue) <= callbackQueue
    {
      hide AgreesBut, SlotsValid, MapValid, CallbacksConserved, History;
      ghost var added, others := OtherThreads();
      localQ := SwapTasks();
      WeakenStale(Stale(old(taskQ)), Stale(localQ));
    }

    // Everything queued on entry is done on return: the Channel tasks are applied, first to last, and each
    // callback has run.
    method ProcessTaskQ(depth: nat)
      requires Valid() && AgreesModulo(taskQ) && Conserved([])
      modifies this, dispatcher, dispatcher.fds, channels
      ensures Steady() && Grows() && old(pushed) <= applied
      ensures multiset(old(callbackQueue)) <= multiset(executed[|old(executed)|..])
      decreases depth, 3
    {
      hide AgreesBut, SlotsValid, MapValid, CallbacksConserved, History, ApplyAll;
      var localQ := TakeTasks();
      ApplyTasks(localQ);
      label applied:
      RunCallbacks(depth);
      PrefixHolds(old(callbackQueue), old@applied(callbackQueue));
    }

    // localCbs.swap(callbackQueue_), under the lock.
    method TakeCallbacks() returns (localCbs: seq<Callback>)
      requires Steady()
      modifies this`taskQ, this`callbackQueue, this`pushed, this`posted, this`channels, this`stacked
      ensures Steady() && GrowsBut(multiset(localCbs)) && executed == old(executed)
      ensures callbackQueue == [] && old(callbackQueue) <= localCbs
    {
      hide Valid, Agreement;
      ghost var added, others := OtherThreads();
      localCbs := SwapCallbacks();
    }

    method SwapCallbacks() returns (localCbs: seq<Callback>)
      requires Valid()
      modifies this`callbackQueue, this`stacked
      ensures Valid() && localCbs == old(callbackQueue) && callbackQueue == []
      ensures stacked == old(stacked) + multiset(localCbs)
    {
      hide SlotsValid, MapValid, History;
      localCbs := callbackQueue;
      callbackQueue := [];
      stacked := stacked + multiset(localCbs);
    }

    // The callback part of processTaskQ: every callback queued on entry has run on return.
    method RunCallbacks(depth: nat)
      requires Steady()
      modifies this, dispatcher, dispatcher.fds, channels
      ensures Steady() && Grows()
      ensures multiset(old(callbackQueue)) <= multiset(executed[|old(executed)|..])
      decreases depth, 2
    {
      hide Steady;
      ghost var base, start := stacked, executed;
      var localCbs := TakeCallbacks();
      ghost var taken := multiset(localCbs);
      PrefixHolds(old(callbackQueue), localCbs);
      assert start[|start|..] == [];
      while localCbs != []
        invariant Steady() && Keeps() && stacked == base + multiset(localCbs)
        invariant start <= executed && taken <= multiset(executed[|start|..]) + multiset(localCbs)
        decreases |localCbs|
      {
        RunFirst(localCbs, base, start, taken, depth);
        localCbs := localCbs[1..];
      }
    }

    // One callback leaves its local queue and runs.  Below this queue lies `base`; of what was `taken` into
    // it, the rest has run since `start`.
    method RunFirst(localCbs: seq<Callback>, ghost base: multiset<Callback>, ghost start: seq<Callback>,
                    ghost taken: multiset<Callback>, depth: nat)
      requires Steady() && localCbs != [] && stacked == base + multiset(localCbs)
      requires start <= executed && taken <= multiset(executed[|start|..]) + multiset(localCbs)
      modifies this, dispatcher, dispatcher.fds, channels
      ensures Steady() && Keeps() && stacked == base + multiset(localCbs[1..])
      ensures start <= executed && taken <= multiset(executed[|start|..]) + multiset(localCbs[1..])
      decreases depth, 1
    {
      hide Steady;
      OneTaken(base, localCbs);
      Handler(Posted(localCbs[0]), depth);
      OneMoreRan(taken, start, old(executed), executed, localCbs);
    }

    // addTask from the loop's own thread: a negative descriptor is refused; everything else is queued
    // behind what others queued, and all but a DELETE is processed at once.
    method AddTask(t: Task, depth: nat) returns (status: Status, ghost added: seq<Task>)
      requires Valid() && Conserved([]) && (t.Add? ==> TaskValid(t)) && AgreesModulo([t])
      modifies this, dispatcher, dispatcher.fds, channels
      ensures !Refused(t) ==> Steady()
      ensures Grows() && status == if Refused(t) then Invalid else Ok
      ensures !Refused(t) && !t.Delete? ==> old(pushed) + added + [t] <= applied
      ensures !Refused(t) && t.Delete? ==>
                && pushed == old(pushed) + added + [t] && taskQ == old(taskQ) + added + [t]
                && applied == old(applied) && channelMap == old(channelMap) && executed == old(executed)
      ensures Refused(t) ==> unchanged(this)
      decreases depth, 4
    {
      hide AgreesBut, SlotsValid, MapValid, CallbacksConserved, History;
      if !t.Add? && t.fd < 0 {
        return Invalid, [];
      }
      added := Enqueue(t);
      if t.Delete? {
        assert Stale([t]) == {};
        return Ok, added;
      }
      ProcessTaskQ(depth);
      return Ok, added;
    }

    // taskQ_.push, under the lock.
    method Enqueue(t: Task) returns (ghost added: seq<Task>)
      requires Valid() && Conserved([]) && TaskValid(t) && AgreesModulo([t])
      modifies this`taskQ, this`callbackQueue, this`pushed, this`posted, this`channels
      ensures Valid() && Conserved([]) && Grows()
      ensures pushed == old(pushed) + added + [t] && taskQ == old(taskQ) + added + [t]
      ensures AgreesModulo([t]) && AgreesModulo(taskQ)
    {
      hide AgreesBut, SlotsValid, MapValid, CallbacksConserved, History;
      ghost var others;
      added, others := OtherThreads();
      PushTask(t);
      assert t in taskQ;
      WeakenStale(Stale([t]), Stale(taskQ));
    }

    predicate Refused(t: Task) { !t.Add? && t.fd < 0 }

    // post from the loop's own thread: queued behind what others posted.
    method Post(cb: Callback) returns (ghost others: seq<Callback>)
      requires Steady()
      modifies this`callbackQueue, this`posted, this`taskQ, this`pushed, this`channels
      ensures Steady() && Grows()
      ensures posted == old(posted) + others + [cb] && callbackQueue == old(callbackQueue) + others + [cb]
    {
      hide Valid, Agreement;
      ghost var added;
      added, others := OtherThreads();
      PushCallback(cb);
    }

    // writeEventEnable followed by a MODIFY, as handlers do it on a Channel of this loop.  `asked` are the
    // masks with which the MODIFY is queued.
    method SetWriteInterest(fd: int, flag: bool, depth: nat) returns (ghost asked: PollTable.Masks)
      requires Steady() && fd in channelMap
      modifies this, dispatcher, dispatcher.fds, channels
      ensures Steady() && Grows() && Modify(fd) in applied[|old(applied)|..]
      ensures fd in asked && asked == old(Masks())[fd := asked[fd]]
      ensures (WriteEvent in asked[fd] <==> flag)
              && forall e | e != WriteEvent :: e in asked[fd] <==> e in old(Masks())[fd]
      decreases depth, 5
    {
      hide Steady, MasksOf;
      KnownFd(fd);
      ChangeMask(fd, flag);
      asked := Masks();
      ghost var status, added := AddTask(Modify(fd), depth);
      assert applied[|old(pushed) + added|] == Modify(fd);
    }

    method ChangeMask(fd: int, flag: bool)
      requires Steady() && fd in channelMap
      modifies channelMap[fd]
      ensures Valid() && Conserved([]) && AgreesModulo([Modify(fd)]) && fd >= 0 && pushed == applied + taskQ
      ensures fd in Masks() && Masks() == old(Masks())[fd := Masks()[fd]]
      ensures (WriteEvent in Masks()[fd] <==> flag)
              && forall e | e != WriteEvent :: e in Masks()[fd] <==> e in old(Masks())[fd]
    {
      ghost var masks := Masks();
      var ch := channelMap[fd];
      ch.WriteEventEnable(flag);
      assert forall g | g in channelMap && g != fd :: channelMap[g] != ch;
      assert Masks() == masks[fd := ch.events];
      assert AgreesModulo([Modify(fd)]) by {
        assert Modify(fd) in [Modify(fd)];
        assert fd in Stale([Modify(fd)]);
      }
      Owned(fd);
    }

    ghost method Enter(entry: Entry)
      requires Steady() && (entry.Posted? ==> entry.cb in stacked)
      modifies this`stacked, this`executed, this`invoked
      ensures Steady()
      ensures if entry.Posted? then
                stacked == old(stacked) - multiset{entry.cb} && executed == old(executed) + [entry.cb]
                && invoked == old(invoked)
              else
                stacked == old(stacked) && executed == old(executed) && invoked == old(invoked) + [entry.invocation]
    {
      hide AgreesBut, SlotsValid, MapValid, History;
      if entry.Posted? {
        stacked := stacked - multiset{entry.cb};
        executed := executed + [entry.cb];
      } else {
        invoked := invoked + [entry.invocation];
      }
    }

    // Any code the loop calls: it is entered once, and then makes any number of calls into the loop, nested
    // below `depth`.
    method Handler(entry: Entry, depth: nat)
      requires Steady() && (entry.Posted? ==> entry.cb in stacked)
      modifies this, dispatcher, dispatcher.fds, channels
      ensures Steady() && LogsGrow() && SamePoll() && entered == old(entered)
      ensures old(executed) + (if entry.Posted? then [entry.cb] else []) <= executed
      ensures stacked == if entry.Posted? then old(stacked) - multiset{entry.cb} else old(stacked)
      ensures invoked == old(invoked) + if entry.Event? then [entry.invocation] else []
      decreases depth, 0
    {
      hide Steady;
      Enter(entry);
      label entered:
      var n: nat := *;
      while n > 0 && depth > 0
        invariant Steady() && Grows@entered()
      {
        CallTheLoop(depth - 1);
        n := n - 1;
      }
    }

    method CallTheLoop(depth: nat)
      requires Steady()
      modifies this, dispatcher, dispatcher.fds, channels
      ensures Steady() && Grows()
      decreases depth, 12
    {
      hide AgreesBut, SlotsValid, MapValid, CallbacksConserved, History;
      if * {
        var cb: Callback := *;
        var _ := Post(cb);
      } else if * {
        var fd: int := *;
        if fd in channelMap {
          var flag: bool := *;
          var _ := SetWriteInterest(fd, flag, depth);
        }
      } else {
        SteadyAllows([]);
        var t := AnyTask();
        SteadyAllows([t]);
        var _, _ := AddTask(t, depth);
      }
    }

    // ---------------------------------------------------------------- dispatch

    // channel->readFunc() or writeFunc(): allowed only on a Channel the map owns at that moment.
    method InvokeCallback(channel: Channel, event: FDEvent, depth: nat)
      requires Steady() && channel.fd in channelMap && channelMap[channel.fd] == channel
      modifies this, dispatcher, dispatcher.fds, channels
      ensures Steady() && Accrues(multiset{}) && SamePoll() && entered == old(entered)
      ensures invoked == old(invoked) + [Invocation(channel, event)]
      decreases depth, 6
    {
      hide Steady;
      Handler(Event(Invocation(channel, event)), depth);
    }

    ghost method EnterActive(a: Activation)
      requires Steady()
      modifies this`entered
      ensures Steady() && entered == old(entered) + [a]
    {
      entered := entered + [a];
    }

    lemma KnownFd(fd: int)
      requires Steady()
      ensures if fd in channelMap then channelMap[fd].fd == fd && fd >= 0 && channelMap[fd] in channels
              else channelMap - {fd} == channelMap
    {
      hide AgreesBut, SlotsValid, CallbacksConserved, History;
      Owned(fd);
    }

    // remove_ on an error.
    method FailChannel(fd: int) returns (status: Status)
      requires Steady() && fd in channelMap
      modifies this`channelMap, this`live, this`changes, this`applied, dispatcher, dispatcher.fds
      ensures Steady() && Accrues(multiset{}) && SamePoll() && invoked == old(invoked) && entered == old(entered)
      ensures status == Ok && channelMap == old(channelMap) - {fd} && changes == old(changes) + [Failed(fd)]
    {
      hide AgreesBut, SlotsValid, MapValid, CallbacksConserved, Replay, TasksIn;
      status := RemoveChannel(fd, {});
      Note(Failed(fd));
    }

    // What active() is to be called with for slot `i`: what poll collected.
    ghost function Ready(i: nat): Activation
      requires i < |collected|
      reads `collected
    {
      ReadyIn(collected, i)
    }

    // Events for `fd`, read off slot `i`: the slot must still hold the registration they were
    // collected for.  Everything up to changes[..k] came before the write callback was looked up.
    method Active(fd: int, event: Mask, ghost i: nat, depth: nat) returns (status: Status, ghost k: nat)
      requires Steady()
      requires i < MAX_NODE == |collected| && dispatcher.fds[i].fd == fd && registration[i] == polled[i]
      requires Activation(i, fd, event) == Ready(i) && event != {}
      modifies this, dispatcher, dispatcher.fds, channels
      ensures Steady() && Accrues(multiset{}) && SamePoll() && entered == old(entered) + [Activation(i, fd, event)]
      ensures status == if fd < 0 then Invalid else if fd in old(channelMap) then Ok else NotFound
      ensures fd !in old(channelMap) || ErrorEvent in event ==>
                invoked == old(invoked) && channelMap == old(channelMap) - {fd}
      ensures fd in old(channelMap) && ErrorEvent !in event ==>
                Delivered(fd, event, k) && KeepsWriter(fd, event)
      decreases depth, 8
    {
      hide Steady, CallFor, Replay, Removed, KeptFor;
      EnterActive(Activation(i, fd, event));
      KnownFd(fd);
      k := |changes|;
      if fd < 0 {
        return Invalid, k;
      }
      if fd !in channelMap {
        return NotFound, k;
      }
      if ErrorEvent in event {
        status := FailChannel(fd);
        return status, k;
      }
      MapIsReplay();
      k := Deliver(fd, event, depth);
      WriterKept(old(changes), changes, k, fd, event, old(invoked), invoked);
      return Ok, k;
    }

    // The read callback, then the write callback of whichever Channel holds the descriptor by then.
    method Deliver(fd: int, event: Mask, depth: nat) returns (ghost k: nat)
      requires Steady() && fd in channelMap
      modifies this, dispatcher, dispatcher.fds, channels
      ensures Steady() && Accrues(multiset{}) && SamePoll() && entered == old(entered)
      ensures Delivered(fd, event, k)
      decreases depth, 7
    {
      hide Steady, Replay;
      KnownFd(fd);
      MapIsReplay();
      k := |changes|;
      var channel := channelMap[fd];
      if ReadEvent in event && channel.haveReadCallback {
        InvokeCallback(channel, ReadEvent, depth);
        MapIsReplay();
        k := |changes|;
        if fd !in channelMap {
          return;
        }
        channel := channelMap[fd];
        KnownFd(fd);
      }
      label found:
      if WriteEvent in event && channel.haveWriteCallback {
        InvokeCallback(channel, WriteEvent, depth);
        assert changes[..k] == old@found(changes);
      }
    }

    // What `event` makes of the invocations when `fd` is mapped: its Channel's read callback, if asked for; then
    // the write callback of the Channel that holds the number once that has returned, after changes[..k].
    // Nothing changes between that lookup and the return if it finds no write callback.
    twostate predicate Delivered(fd: int, event: Mask, k: nat)
      reads this
    {
      && old(changes) <= changes && |old(changes)| <= k <= |changes|
      && (CallFor(old(channelMap), fd, event, ReadEvent) == [] ==> k == |old(changes)|)
      && (CallFor(Replay(changes[..k]), fd, event, WriteEvent) == [] ==> k == |changes|)
      && invoked == old(invoked) + CallFor(old(channelMap), fd, event, ReadEvent)
                               + CallFor(Replay(changes[..k]), fd, event, WriteEvent)
    }

    // The callback for `what` of the Channel that holds `fd`, if the event asks for it and it has one.
    static function CallFor(holders: map<int, Channel>, fd: int, event: Mask, what: FDEvent): seq<Invocation> {
      if fd in holders && what in event && HasCallback(holders[fd], what) then [Invocation(holders[fd], what)] else []
    }

    static predicate HasCallback(channel: Channel, what: FDEvent) {
      if what == ReadEvent then channel.haveReadCallback else what == WriteEvent && channel.haveWriteCallback
    }

    // A readiness to write is never lost to the read callback: unless `fd` was removed on the way, the
    // Channel that was mapped gets its write callback.
    twostate predicate KeepsWriter(fd: int, event: Mask)
      requires fd in old(channelMap)
      reads this
    {
      && |old(invoked)| <= |invoked|
      && KeptFor(old(channelMap)[fd], fd, event, changes, |old(changes)|, invoked[|old(invoked)|..])
    }

    static ghost predicate KeptFor(channel: Channel, fd: int, event: Mask, changes: seq<Change>, k: nat,
                                   calls: seq<Invocation>) {
      WriteEvent in event && channel.haveWriteCallback && !Removed(changes, k, fd) ==>
        Invocation(channel, WriteEvent) in calls
    }

    // If the number was not removed, its Channel is still the one to call.
    static lemma WriterKept(before: seq<Change>, now: seq<Change>, k: nat, fd: int, event: Mask,
                            had: seq<Invocation>, have: seq<Invocation>)
      requires before <= now && |before| <= k <= |now| && fd in Replay(before)
      requires have == had + CallFor(Replay(before), fd, event, ReadEvent)
                           + CallFor(Replay(now[..k]), fd, event, WriteEvent)
      ensures |had| <= |have| && KeptFor(Replay(before)[fd], fd, event, now, |before|, have[|had|..])
    {
      hide Replay;
      if !Removed(now, |before|, fd) {
        assert now[..k][..|before|] == before;
        NotRemoved(now[..k], |before|, fd);
        assert have[|had|..] == CallFor(Replay(before), fd, event, ReadEvent)
                                + CallFor(Replay(before), fd, event, WriteEvent);
      }
    }

    lemma MapIsReplay()
      requires Steady()
      ensures channelMap == Replay(changes) && changes[..|changes|] == changes
    {
      hide AgreesBut, SlotsValid, CallbacksConserved, MapValid, Replay;
    }

    // Which slots carry results, and of which registrations, from now on.
    ghost method Collected()
      requires dispatcher.Valid() && |registration| == MAX_NODE
      requires forall j | 0 <= j < MAX_NODE && dispatcher.fds[j].revents != {} :: dispatcher.fds[j].fd != FREE
      requires forall j | 0 <= j < MAX_NODE :: registration[j] <= registrations
      modifies this`polled, this`collected, this`live, this`reported, this`entered
      ensures SlotsValid() && polled == registration && collected == dispatcher.fds[..] && entered == []
      ensures forall j | 0 <= j < MAX_NODE :: j in reported <==> dispatcher.fds[j].revents != {}
    {
      polled, collected, entered := registration, dispatcher.fds[..], [];
      live := set j: nat | j < MAX_NODE && dispatcher.fds[j].revents != {};
      reported := live;
    }

    // poll(), then the walk over the slots.  `answer` holds the conditions of each descriptor at poll.
    // Every slot with something to report is handed to active() once, with its own descriptor and what poll
    // reported for it, unless it lost its registration during the walk.  What it is told is what its Channel's
    // mask at poll asked for.
    method Dispatch(failed: bool, interrupted: bool, answer: seq<set<PollFlag>>, depth: nat)
      returns (status: Status)
      requires Steady() && |answer| == MAX_NODE
      modifies this, dispatcher, dispatcher.fds, channels
      ensures Steady() && Accrues(multiset{})
      ensures status == if !failed then Ok else if interrupted then Again else Error
      ensures failed ==> polled == old(polled) && invoked == old(invoked) && entered == old(entered)
      ensures !failed ==> polled == old(registration) && Collects(old(dispatcher.fds[..]), answer)
      ensures !failed ==> |registration| == |polled| == dispatcher.fds.Length == |collected| == MAX_NODE
                          && Complete(ThisWalk(old(Masks()))) && Truthful(ThisWalk(old(Masks())), answer)
      decreases depth, 12
    {
      hide Steady, Walked, Complete, Truthful, ThisWalk, Collects;
      if failed {
        return if interrupted then Again else Error;
      }
      SlotsKnown();
      ghost var masks := AgreeingMasks();
      CollectResults(answer);
      WalkSlots(masks, old(dispatcher.fds[..]), answer, depth);
      return Ok;
    }

    // The walk over what poll left of `table`, whose masks were these.
    method WalkSlots(ghost masks: PollTable.Masks, ghost table: Table, ghost answer: seq<set<PollFlag>>, depth: nat)
      requires Steady() && entered == [] && Agrees(table, masks) && Collects(table, answer)
      requires forall j: nat | j < |collected| && collected[j].revents != {} :: j in reported
      modifies this, dispatcher, dispatcher.fds, channels
      ensures Steady() && Accrues(multiset{}) && SamePoll()
      ensures |registration| == |polled| == dispatcher.fds.Length == |collected| == |answer| == MAX_NODE
      ensures Complete(ThisWalk(masks)) && Truthful(ThisWalk(masks), answer)
      decreases depth, 11
    {
      hide Steady, Walked, Complete, Truthful, ThisWalk, Collects, Agrees;
      WalkStarts();
      var i := 0;
      while i < MAX_NODE
        invariant 0 <= i <= MAX_NODE
        invariant Steady() && Accrues(multiset{}) && SamePoll() && Walked(i, entered, live)
      {
        Turn(i, depth);
        i := i + 1;
      }
      SlotsKnown();
      WalkEnded(masks, table, answer);
    }

    // The walk has come to slot `i` with these calls made.
    ghost predicate Walked(i: nat, calls: seq<Activation>, results: set<nat>)
      reads `collected
    {
      && Increasing(calls) && Genuine(calls, collected) && (forall a | a in calls :: a.slot < i)
      && (forall j | j in results :: j < i && j < |collected| ==> Ready(j) in calls)
    }

    lemma OneFurther(i: nat, calls: seq<Activation>, results: set<nat>)
      requires i < |collected| && Walked(i, calls, results) && (i in results ==> Ready(i).event != {})
      ensures Walked(i + 1, if i in results then calls + [Ready(i)] else calls, results)
    {
    }

    lemma Lose(i: nat, calls: seq<Activation>, results: set<nat>, fewer: set<nat>)
      requires Walked(i, calls, results) && fewer <= results
      ensures Walked(i, calls, fewer)
    {
    }

    lemma WalkStarts()
      requires entered == []
      ensures Walked(0, entered, live)
    {
    }

    ghost method AgreeingMasks() returns (masks: PollTable.Masks)
      requires Steady()
      ensures masks == Masks() && Agrees(dispatcher.fds[..], masks)
    {
      masks := Masks();
    }

    // The walk since the last poll.
    ghost function ThisWalk(masks: PollTable.Masks): (w: Walk)
      requires |registration| == |polled| == dispatcher.fds.Length == MAX_NODE
      reads `collected, `entered, `registration, `polled, dispatcher.fds
      ensures w.Walk? && w.table == collected
    {
      Walk(masks, collected, entered, set j: nat | j < MAX_NODE && Lost(j))
    }

    lemma WalkEnded(masks: PollTable.Masks, table: Table, answer: seq<set<PollFlag>>)
      requires |registration| == |polled| == |collected| == dispatcher.fds.Length == MAX_NODE
      requires Walked(MAX_NODE, entered, live) && forall i | i in reported :: i in live || Lost(i)
      requires forall j: nat | j < |collected| && collected[j].revents != {} :: j in reported
      requires Agrees(table, masks) && Collects(table, answer)
      ensures Complete(ThisWalk(masks)) && |answer| == MAX_NODE && Truthful(ThisWalk(masks), answer)
    {
      WalkIsComplete(masks);
      hide Walked, Complete, Truthful;
      WalkIsTruthful(ThisWalk(masks), table, answer);
    }

    lemma WalkIsComplete(masks: PollTable.Masks)
      requires |registration| == |polled| == |collected| == dispatcher.fds.Length == MAX_NODE
      requires Walked(MAX_NODE, entered, live) && forall i | i in reported :: i in live || Lost(i)
      requires forall j: nat | j < |collected| && collected[j].revents != {} :: j in reported
      ensures Complete(ThisWalk(masks))
    {
      forall i: nat | i < |collected| && collected[i].revents != {}
        ensures ReadyIn(collected, i) in entered || i in ThisWalk(masks).lost
      {
        assert i in reported;
        assert i in live ==> Ready(i) in entered;
      }
    }

    method Turn(i: nat, depth: nat)
      requires Steady() && i < MAX_NODE && Walked(i, entered, live)
      modifies this, dispatcher, dispatcher.fds, channels
      ensures Steady() && Accrues(multiset{}) && SamePoll() && Walked(i + 1, entered, live)
      decreases depth, 10
    {
      hide Steady, Walked, Accrues;
      SlotsKnown();
      ghost var calls, results := entered, live;
      Visit(i, depth);
      OneFurther(i, calls, results);
      Lose(i + 1, entered, results, live);
    }

    // What poll collected from a table.
    ghost predicate Collects(table: Table, answer: seq<set<PollFlag>>)
      reads `collected
    {
      && |collected| == |table| == |answer|
      && forall j | 0 <= j < |table| :: collected[j] == table[j].(revents := Reported(table[j], answer[j]))
    }

    // One turn of the walk: active() is called exactly for a slot that still carries results, with those.
    method Visit(i: nat, depth: nat)
      requires Steady() && i < MAX_NODE == |collected|
      modifies this, dispatcher, dispatcher.fds, channels
      ensures Steady() && Accrues(multiset{}) && SamePoll()
      ensures i in old(live) ==> Ready(i).event != {}
      ensures entered == if i in old(live) then old(entered) + [Ready(i)] else old(entered)
      decreases depth, 9
    {
      hide AgreesBut, CallbacksConserved, MapValid;
      var slot := dispatcher.fds[i];
      if slot.fd == FREE {
        return;
      }
      var ev := FromPoll(slot.revents);
      NothingReported(slot.revents);
      if ev != {} {
        assert AsCollected(i);
        var _, _ := Active(slot.fd, ev, i, depth);
      }
    }

    lemma SlotsKnown()
      requires Steady()
      ensures dispatcher.Valid() && |registration| == |polled| == |collected| == MAX_NODE
      ensures forall i | i in live :: i < MAX_NODE
      ensures forall i | i in reported :: i in live || Lost(i)
    {
      hide AgreesBut, MapValid, CallbacksConserved, History;
    }

    lemma NothingReported(revents: set<PollFlag>)
      ensures FromPoll(revents) == {} <==> revents == {}
    {
      var mask := FromPoll(revents);
      assert POLLIN in revents ==> ReadEvent in mask;
      assert POLLOUT in revents ==> WriteEvent in mask;
      assert POLLERR in revents || POLLHUP in revents || POLLNVAL in revents ==> ErrorEvent in mask;
      forall f: PollFlag ensures f in revents ==> mask != {} {
        assert f.POLLIN? || f.POLLOUT? || f.POLLERR? || f.POLLHUP? || f.POLLNVAL?;
      }
      if forall f: PollFlag :: f !in revents {
        assert revents == {};
      }
    }

    method CollectResults(answer: seq<set<PollFlag>>)
      requires Steady() && |answer| == MAX_NODE
      modifies this`polled, this`collected, this`live, this`reported, this`entered, dispatcher.fds
      ensures Steady() && polled == registration && entered == [] && Collects(old(dispatcher.fds[..]), answer)
      ensures forall j | 0 <= j < MAX_NODE :: j in reported <==> Reported(old(dispatcher.fds[j]), answer[j]) != {}
    {
      ghost var table := dispatcher.fds[..];
      dispatcher.Poll(answer);
      Collected();
      SameDescriptors(table, dispatcher.fds[..], Masks());
    }

    // Only the results changed.
    lemma SameDescriptors(t: Table, t': Table, masks: PollTable.Masks)
      requires Agrees(t, masks) && |t| == |t'|
      requires forall i | 0 <= i < |t| :: t[i].fd == t'[i].fd && t[i].events == t'[i].events
      ensures Agrees(t', masks)
    {
      forall fd | fd in masks ensures HasSlot(t', fd) {
        assert HasSlot(t, fd);
        var i :| 0 <= i < |t| && t[i].fd == fd;
        assert t'[i].fd == fd;
      }
    }

    // The main loop, for any number of rounds: how the poll of each ends, and whether another thread has asked to
    // quit by the test before it.  `walks` are the walks of the rounds made.
    method Run(ownThread: bool, polls: seq<PollEnd>, quits: seq<bool>, depth: nat)
      returns (status: Status, ghost walks: seq<Walk>)
      requires Steady() && |quits| == |polls| && forall p | p in polls && p.Returned? :: |p.answer| == MAX_NODE
      modifies this, dispatcher, dispatcher.fds, channels
      ensures Steady() && Accrues(multiset{})
      ensures |walks| <= |polls| && forall i | 0 <= i < |walks| :: !quits[i] && WalkOf(walks[i], polls[i])
      ensures forall i | 0 <= i < |walks| - 1 :: !polls[i].Broken?
      ensures !ownThread ==> walks == []
      ensures status == if !ownThread || (walks != [] && polls[|walks| - 1].Broken?) then Error else Ok
      ensures status == Ok && |walks| < |polls| ==> quits[|walks|]
      ensures status == Ok && walks != [] ==> old(pushed) <= applied
    {
      hide Steady, WalkOf;
      walks := [];
      if !ownThread {
        return Error, walks;
      }
      var i := 0;
      while i < |polls| && !quits[i]
        invariant Steady() && Accrues(multiset{}) && |walks| == i <= |polls|
        invariant i > 0 ==> old(pushed) <= applied
        invariant forall k | 0 <= k < i :: !quits[k] && WalkOf(walks[k], polls[k]) && !polls[k].Broken?
      {
        ghost var walk;
        status, walk := Round(polls[i], depth);
        walks := walks + [walk];
        i := i + 1;
        if status == Error {
          return Error, walks;
        }
      }
      return Ok, walks;
    }

    // poll and walk, then what is queued.
    method Round(end: PollEnd, depth: nat) returns (status: Status, ghost walk: Walk)
      requires Steady() && (end.Returned? ==> |end.answer| == MAX_NODE)
      modifies this, dispatcher, dispatcher.fds, channels
      ensures Steady() && Accrues(multiset{}) && WalkOf(walk, end)
      ensures status == (match end case Returned(_) => Ok case Interrupted => Again case Broken => Error)
      ensures status != Error ==> old(pushed) <= applied
    {
      hide Steady, Valid, AgreesModulo, WalkOf;
      status, walk := PollAndWalk(end, depth);
      if status == Error {
        return;
      }
      SteadyAllows(taskQ);
      ProcessTaskQ(depth);
    }

    method PollAndWalk(end: PollEnd, depth: nat) returns (status: Status, ghost walk: Walk)
      requires Steady() && (end.Returned? ==> |end.answer| == MAX_NODE)
      modifies this, dispatcher, dispatcher.fds, channels
      ensures Steady() && Accrues(multiset{}) && WalkOf(walk, end)
      ensures status == (match end case Returned(_) => Ok case Interrupted => Again case Broken => Error)
    {
      hide Steady, Complete, Truthful, ThisWalk, Collects;
      ghost var masks := Masks();
      var answer := if end.Returned? then end.answer else seq(MAX_NODE, _ => {});
      status := Dispatch(!end.Returned?, end.Interrupted?, answer, depth);
      walk := if end.Returned? then ThisWalk(masks) else NoWalk;
    }
  }
}
