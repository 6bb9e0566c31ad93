/** Channels and the poll backend: masks and a fixed pollfd array, both changed in place. */
module PollDispatcherModule {
  import opened PollTable

  const MAX_NODE: nat := 1024

  // A descriptor with its event mask; its callbacks are run by the loop that owns it.
  class Channel {
    const fd: int
    var events: Mask
    const haveReadCallback: bool
    const haveWriteCallback: bool

    constructor (fd: int, events: Mask, haveReadCallback: bool, haveWriteCallback: bool)
      ensures this.fd == fd && this.events == events
      ensures this.haveReadCallback == haveReadCallback && this.haveWriteCallback == haveWriteCallback
    {
      this.fd := fd;
      this.events := events;
      this.haveReadCallback := haveReadCallback;
      this.haveWriteCallback := haveWriteCallback;
    }

    method WriteEventEnable(flag: bool)
      modifies this
      ensures events == if flag then old(events) + {WriteEvent} else old(events) - {WriteEvent}
    {
      if flag {
        events := events + {WriteEvent};
      } else {
        events := events - {WriteEvent};
      }
    }
  }

  // What poll() reports for a slot, of all the conditions that hold: those asked for and error
  // conditions, and nothing for a slot not in use.
  function Reported(slot: PollFd, answer: set<PollFlag>): set<PollFlag> {
    if slot.fd == FREE then {} else answer * (slot.events + {POLLERR, POLLHUP, POLLNVAL})
  }

  class PollDispatcher {
    const fds: array<PollFd>
    var channel: Channel?

    ghost predicate Valid()
    {
      fds.Length == MAX_NODE
    }

    constructor ()
      ensures Valid() && fresh(fds)
      ensures forall i | 0 <= i < fds.Length :: fds[i] == FREE_SLOT
    {
      fds := new PollFd[MAX_NODE](_ => FREE_SLOT);
      channel := null;
    }

    method SetChannel(ch: Channel)
      modifies this`channel
      ensures channel == ch
    {
      channel := ch;
    }

    method EventsOfMask() returns (events: set<PollFlag>)
      requires channel != null
      ensures events == ToPoll(channel.events)
    {
      events := {};
      if ReadEvent in channel.events {
        events := events + {POLLIN};
      }
      if WriteEvent in channel.events {
        events := events + {POLLOUT};
      }
    }

    // The search loop shared by the three operations.
    method FindSlot(fd: int) returns (i: nat)
      requires Valid()
      ensures i == SlotOf(fds[..], fd) <= fds.Length
    {
      i := 0;
      while i < fds.Length
        invariant 0 <= i <= fds.Length
        invariant forall j | 0 <= j < i :: fds[j].fd != fd
      {
        if fds[i].fd == fd {
          break;
        }
        i := i + 1;
      }
      assert i < fds.Length ==> IsFirstSlot(fds[..], fd, i);
      var k := SlotOf(fds[..], fd);
      assert k < fds.Length ==> fds[..][k] == fds[k];
    }

    method Add() returns (ok: bool)
      requires Valid() && channel != null
      modifies fds
      ensures fds[..] == AddTo(old(fds[..]), channel.fd, channel.events)
      ensures ok == (SlotOf(old(fds[..]), FREE) < MAX_NODE)
    {
      var events := EventsOfMask();
      var i := FindSlot(FREE);
      if i >= fds.Length {
        return false;
      }
      fds[i] := PollFd(channel.fd, events, fds[i].revents);
      return true;
    }

    method Remove() returns (ok: bool)
      requires Valid() && channel != null
      modifies fds
      ensures fds[..] == RemoveFrom(old(fds[..]), channel.fd)
      ensures ok == (SlotOf(old(fds[..]), channel.fd) < MAX_NODE)
    {
      var i := FindSlot(channel.fd);
      if i >= fds.Length {
        return false;
      }
      fds[i] := FREE_SLOT;
      return true;
    }

    method Modify() returns (ok: bool)
      requires Valid() && channel != null
      modifies fds
      ensures fds[..] == ModifyIn(old(fds[..]), channel.fd, channel.events)
      ensures ok == (SlotOf(old(fds[..]), channel.fd) < MAX_NODE)
    {
      var events := EventsOfMask();
      var i := FindSlot(channel.fd);
      if i >= fds.Length {
        return false;
      }
      fds[i] := fds[i].(events := events);
      return true;
    }

    // The poll() call.
    method Poll(answer: seq<set<PollFlag>>)
      requires Valid() && |answer| == MAX_NODE
      modifies fds
      ensures forall i | 0 <= i < fds.Length ::
                && fds[i].fd == old(fds[i].fd) && fds[i].events == old(fds[i].events)
                && fds[i].revents == Reported(fds[i], answer[i])
    {
      var i := 0;
      while i < fds.Length
        invariant 0 <= i <= fds.Length
        invariant forall j | 0 <= j < i ::
                    && fds[j].fd == old(fds[j].fd) && fds[j].events == old(fds[j].events)
                    && fds[j].revents == Reported(fds[j], answer[j])
        invariant forall j | i <= j < fds.Length :: fds[j] == old(fds[j])
      {
        fds[i] := fds[i].(revents := Reported(fds[i], answer[i]));
        i := i + 1;
      }
    }
  }
}
