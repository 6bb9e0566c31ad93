/** The pollfd array of the poll backend, as a value: what its operations do to it, and when it
    agrees with the channels a loop has registered. */
module PollTable {

  datatype FDEvent = TimeoutEvent | ReadEvent | WriteEvent | ErrorEvent
  datatype PollFlag = POLLIN | POLLOUT | POLLERR | POLLHUP | POLLNVAL

  type Mask = set<FDEvent>

  datatype PollFd = PollFd(fd: int, events: set<PollFlag>, revents: set<PollFlag>)

  type Table = seq<PollFd>

  const FREE: int := -1
  const FREE_SLOT := PollFd(FREE, {}, {})

  // The events asked of poll() for a Channel's mask.
  function ToPoll(mask: Mask): set<PollFlag> {
    (if ReadEvent in mask then {POLLIN} else {}) + (if WriteEvent in mask then {POLLOUT} else {})
  }

  // The events reported to active() for what poll() returned.
  function FromPoll(revents: set<PollFlag>): Mask {
    (if POLLIN in revents then {ReadEvent} else {}) + (if POLLOUT in revents then {WriteEvent} else {})
    + (if POLLERR in revents || POLLHUP in revents || POLLNVAL in revents then {ErrorEvent} else {})
  }

  // What poll() is asked for a mask: reading, writing, nothing else.
  lemma AskedFor(mask: Mask)
    ensures POLLIN in ToPoll(mask) <==> ReadEvent in mask
    ensures POLLOUT in ToPoll(mask) <==> WriteEvent in mask
    ensures POLLERR !in ToPoll(mask) && POLLHUP !in ToPoll(mask) && POLLNVAL !in ToPoll(mask)
  {
  }

  // What a descriptor polled with this mask is told of the conditions that hold on it: it can be read, or
  // written, if it asked; and any error.
  predicate Means(event: Mask, answer: set<PollFlag>, mask: Mask) {
    && TimeoutEvent !in event
    && (ReadEvent in event <==> ReadEvent in mask && POLLIN in answer)
    && (WriteEvent in event <==> WriteEvent in mask && POLLOUT in answer)
    && (ErrorEvent in event <==> POLLERR in answer || POLLHUP in answer || POLLNVAL in answer)
  }

  lemma TellsWhatItMeans(revents: set<PollFlag>, answer: set<PollFlag>, mask: Mask)
    requires revents == answer * (ToPoll(mask) + {POLLERR, POLLHUP, POLLNVAL})
    ensures Means(FromPoll(revents), answer, mask)
  {
    AskedFor(mask);
  }

  predicate IsFirstSlot(t: Table, fd: int, k: nat) {
    k < |t| && t[k].fd == fd && forall j | 0 <= j < k :: t[j].fd != fd
  }

  // The first slot holding fd, |t| if there is none.
  function SlotOf(t: Table, fd: int): (k: nat)
    ensures k == |t| || IsFirstSlot(t, fd, k)
    ensures k == |t| ==> forall j | 0 <= j < |t| :: t[j].fd != fd
    decreases |t|
  {
    if t == [] then 0
    else
      var k := SlotOf(t[..|t| - 1], fd);
      if k < |t| - 1 then k else if t[|t| - 1].fd == fd then |t| - 1 else |t|
  }

  function AddTo(t: Table, fd: int, mask: Mask): Table {
    var k := SlotOf(t, FREE);
    if k < |t| then t[k := PollFd(fd, ToPoll(mask), t[k].revents)] else t
  }

  function RemoveFrom(t: Table, fd: int): Table {
    var k := SlotOf(t, fd);
    if k < |t| then t[k := FREE_SLOT] else t
  }

  function ModifyIn(t: Table, fd: int, mask: Mask): Table {
    var k := SlotOf(t, fd);
    if k < |t| then t[k := t[k].(events := ToPoll(mask))] else t
  }

  // ------------------------------------------------------------------ agreement

  type Masks = map<int, Mask>

  ghost predicate EachOnce(t: Table) {
    forall i, j | 0 <= i < j < |t| && t[i].fd != FREE :: t[i].fd != t[j].fd
  }

  // The non-free slots hold exactly the keys of `masks`, each once; the events asked for are those
  // of the mask, except perhaps for the descriptors in `stale`.
  ghost predicate AgreesBut(t: Table, masks: Masks, stale: set<int>) {
    && FREE !in masks && EachOnce(t)
    && (forall i | 0 <= i < |t| && t[i].fd != FREE ::
          t[i].fd in masks && (t[i].fd in stale || t[i].events == ToPoll(masks[t[i].fd])))
    && (forall fd | fd in masks :: HasSlot(t, fd))
  }

  ghost predicate HasSlot(t: Table, fd: int) { exists i :: 0 <= i < |t| && t[i].fd == fd }

  lemma OtherSlotsStay(t: Table, k: nat, slot: PollFd)
    requires k < |t|
    ensures forall fd | HasSlot(t, fd) && t[k].fd != fd :: HasSlot(t[k := slot], fd)
    ensures HasSlot(t[k := slot], slot.fd)
  {
    var t' := t[k := slot];
    assert t'[k].fd == slot.fd;
    forall fd | HasSlot(t, fd) && t[k].fd != fd ensures HasSlot(t', fd) {
      var i :| 0 <= i < |t| && t[i].fd == fd;
      assert t'[i].fd == fd;
    }
  }

  ghost predicate Agrees(t: Table, masks: Masks) { AgreesBut(t, masks, {}) }

  // remove() on a registered descriptor succeeds and takes out that one.
  lemma RemoveAgrees(t: Table, masks: Masks, stale: set<int>, fd: int)
    requires AgreesBut(t, masks, stale) && fd in masks
    ensures SlotOf(t, fd) < |t| && AgreesBut(RemoveFrom(t, fd), masks - {fd}, stale)
  {
    OtherSlotsStay(t, SlotOf(t, fd), FREE_SLOT);
  }

  // modify() on a registered descriptor succeeds and refreshes it.
  lemma ModifyAgrees(t: Table, masks: Masks, stale: set<int>, fd: int)
    requires AgreesBut(t, masks, stale) && fd in masks
    ensures SlotOf(t, fd) < |t| && AgreesBut(ModifyIn(t, fd, masks[fd]), masks, stale - {fd})
  {
    var k := SlotOf(t, fd);
    OtherSlotsStay(t, k, t[k].(events := ToPoll(masks[fd])));
  }

  // add() of a new descriptor registers it if a slot is free and changes nothing otherwise.
  lemma AddAgrees(t: Table, masks: Masks, stale: set<int>, fd: int, mask: Mask)
    requires AgreesBut(t, masks, stale) && fd !in masks && fd != FREE
    ensures if SlotOf(t, FREE) < |t| then AgreesBut(AddTo(t, fd, mask), masks[fd := mask], stale)
            else AddTo(t, fd, mask) == t && forall i | 0 <= i < |t| :: t[i].fd in masks
  {
    var k := SlotOf(t, FREE);
    if k < |t| {
      OtherSlotsStay(t, k, PollFd(fd, ToPoll(mask), t[k].revents));
    }
  }

  // How many slots are in use.
  function Used(t: Table): (n: nat)
    ensures n <= |t|
  {
    if t == [] then 0 else Used(t[..|t| - 1]) + if t[|t| - 1].fd == FREE then 0 else 1
  }

  // The used slots are as many as the descriptors they hold.
  lemma {:induction false} UsedIsKeys(t: Table, fds: set<int>)
    requires EachOnce(t) && FREE !in fds
    requires forall i | 0 <= i < |t| && t[i].fd != FREE :: t[i].fd in fds
    requires forall fd | fd in fds :: HasSlot(t, fd)
    ensures Used(t) == |fds|
  {
    if t == [] {
      assert fds == {} by {
        forall fd ensures fd !in fds {
          assert fd in fds ==> HasSlot(t, fd);
        }
      }
    } else {
      var last := t[|t| - 1].fd;
      var rest := t[..|t| - 1];
      var left := fds - {last};
      assert forall i | 0 <= i < |rest| :: rest[i] == t[i];
      forall fd | fd in left ensures HasSlot(rest, fd) {
        assert HasSlot(t, fd);
        var i :| 0 <= i < |t| && t[i].fd == fd;
        assert rest[i].fd == fd;
      }
      UsedIsKeys(rest, left);
      assert last == FREE ==> left == fds;
      assert last != FREE ==> last in fds;
    }
  }

  lemma {:induction false} FullTable(t: Table)
    ensures Used(t) == |t| <==> forall i | 0 <= i < |t| :: t[i].fd != FREE
  {
    if t != [] {
      FullTable(t[..|t| - 1]);
      assert forall i | 0 <= i < |t| - 1 :: t[..|t| - 1][i] == t[i];
    }
  }

  // A slot is free exactly if fewer descriptors are registered than the table has slots.
  lemma RoomIffFree(t: Table, masks: Masks, stale: set<int>)
    requires AgreesBut(t, masks, stale)
    ensures SlotOf(t, FREE) < |t| <==> |masks| < |t|
  {
    UsedIsKeys(t, masks.Keys);
    FullTable(t);
  }

  // Registering and removing a descriptor leaves the table as it was, but for a cleared result.
  lemma AddThenRemove(t: Table, masks: Masks, fd: int, mask: Mask)
    requires Agrees(t, masks) && fd !in masks && fd != FREE && SlotOf(t, FREE) < |t|
    ensures RemoveFrom(AddTo(t, fd, mask), fd) == t[SlotOf(t, FREE) := FREE_SLOT]
  {
    var k := SlotOf(t, FREE);
    assert AddTo(t, fd, mask)[k].fd == fd;
    forall j | 0 <= j < k ensures AddTo(t, fd, mask)[j].fd != fd {
      assert t[j].fd in masks;
    }
  }
}
