/**
 The channels and the two pollers as objects. A poller holds the channels by
 descriptor, and each channel holds its index: its place in the array of the one
 poller, its state in the other. What a method requires are the assertions in it;
 PollerModel proves them on every legal run.
 */
module PollerObjects {
  import opened PollerModel
  import opened Options

  class Channel {
    const fd: nat
    var events: nat
    var revents: nat
    var index: int

    constructor (fd: nat)
      ensures this.fd == fd && events == 0 && revents == 0 && index == -1
    {
      this.fd, events, revents, index := fd, 0, 0, -1;
    }
  }

  /** `channels_` with what the channels in it have as their index. */
  ghost function Indices(channels: map<nat, Channel>): map<nat, int>
    reads channels.Values
  {
    map fd | fd in channels :: channels[fd].index
  }

  ghost predicate OwnFd(channels: map<nat, Channel>) {
    forall fd :: fd in channels ==> channels[fd].fd == fd
  }

  class PollPoller {
    var pollfds: seq<PollFd>
    var channels: map<nat, Channel>

    ghost function View(): Poll
      reads this, channels.Values
    {
      Poll(pollfds, Indices(channels))
    }

    ghost predicate Valid()
      reads this
    {
      OwnFd(channels)
    }

    constructor ()
      ensures Valid() && View() == NO_POLL && channels == map[]
    {
      pollfds, channels := [], map[];
    }

    /** A channel that is not registered comes with a negative index. */
    method UpdateChannel(channel: Channel)
      requires Valid() && PollAsserts(View(), Update(channel.fd, channel.events))
      requires if channel.index < 0 then channel.fd !in channels
               else channel.fd in channels && channels[channel.fd] == channel
      modifies this, channel`index
      ensures Valid() && channels == old(channels)[channel.fd := channel]
      ensures View() == PollNext(old(View()), Update(channel.fd, channel.events))
    {
      ghost var p := View();
      if channel.index < 0 {
        pollfds := pollfds + [PollFd(channel.fd, channel.events)];
        channel.index := |pollfds| - 1;
        channels := channels[channel.fd := channel];
        assert Indices(channels) == p.index[channel.fd := |p.pollfds|];
      } else {
        var idx := channel.index;
        var pfd := PollFd(channel.fd, channel.events);
        if channel.events == 0 {
          pfd := pfd.(fd := 0 - channel.fd - 1);
        }
        pollfds := pollfds[idx := pfd];
        assert channels == old(channels);
      }
    }

    method RemoveChannel(channel: Channel)
      requires Valid() && channel.fd in channels && channels[channel.fd] == channel
      requires PollAsserts(View(), Remove(channel.fd))
      modifies this, channels.Values`index
      ensures Valid() && channels == old(channels) - {channel.fd}
      ensures View() == PollNext(old(View()), Remove(channel.fd))
    {
      ghost var p, fd := View(), channel.fd;
      var idx, last := channel.index, |pollfds| - 1;
      channels := channels - {channel.fd};
      if idx == last {
        pollfds := pollfds[..last];
      } else {
        var channelAtEnd := pollfds[last].fd;
        pollfds := pollfds[idx := pollfds[last]][last := pollfds[idx]];
        if channelAtEnd < 0 {
          channelAtEnd := 0 - channelAtEnd - 1;
        }
        channels[channelAtEnd].index := idx;
        pollfds := pollfds[..last];
        assert pollfds == p.pollfds[idx := p.pollfds[last]][..last];
        assert Indices(channels) == (p.index - {fd})[FdOf(p.pollfds[last]) := idx];
      }
    }

    /** The channels of the entries that `poll` marked, `numEvents` in all. */
    method FillActiveChannels(numEvents: nat, revents: seq<nat>) returns (active: seq<Channel>)
      requires Valid() && AllPlaced(View()) && |revents| == |pollfds| && numEvents == |Ready(pollfds, revents)|
      requires forall k :: 0 <= k < |revents| && revents[k] > 0 ==> pollfds[k].fd >= 0
      modifies channels.Values`revents
      ensures |active| == numEvents
      ensures forall n :: 0 <= n < numEvents ==>
                var k := Ready(pollfds, revents)[n];
                && pollfds[k].fd >= 0 && pollfds[k].fd in channels
                && active[n] == channels[pollfds[k].fd] && active[n].revents == revents[k]
    {
      hide Ready, AllPlaced;
      ghost var p := View();
      active := [];
      var left := numEvents;
      var k := 0;
      ghost var ready := Ready(pollfds, revents);
      ReadyNone(pollfds, revents);
      while k < |pollfds| && left > 0
        invariant k <= |pollfds|
        invariant |active| == |Ready(pollfds[..k], revents[..k])| && left == |ready| - |active|
        invariant forall n :: 0 <= n < |active| ==>
                    && ready[n] < k && pollfds[ready[n]].fd >= 0 && pollfds[ready[n]].fd in channels
                    && active[n] == channels[pollfds[ready[n]].fd] && active[n].revents == revents[ready[n]]
      {
        ReadyAt(pollfds, revents, k);
        if revents[k] > 0 {
          left := left - 1;
          OwnChannel(p, k);
          var channel := channels[pollfds[k].fd];
          assert channel.fd == pollfds[k].fd;
          channel.revents := revents[k];
          active := active + [channel];
        }
        k := k + 1;
      }
      assert pollfds[..|pollfds|] == pollfds && revents[..|revents|] == revents;
    }
  }

  /** The positions of the marked entries, in order. */
  ghost function Ready(pollfds: seq<PollFd>, revents: seq<nat>): (r: seq<nat>)
    requires |revents| == |pollfds|
    ensures forall n :: 0 <= n < |r| ==> r[n] < |revents| && revents[r[n]] > 0
  {
    if pollfds == [] then [] else
    var last := |pollfds| - 1;
    Ready(pollfds[..last], revents[..last]) + (if revents[last] > 0 then [last] else [])
  }

  lemma ReadyNone(pollfds: seq<PollFd>, revents: seq<nat>)
    requires |revents| == |pollfds|
    ensures Ready(pollfds[..0], revents[..0]) == []
  {
  }

  lemma {:induction false} ReadyPrefix(pollfds: seq<PollFd>, revents: seq<nat>, k: nat)
    requires |revents| == |pollfds| && k <= |pollfds|
    ensures Ready(pollfds[..k], revents[..k]) <= Ready(pollfds, revents)
    decreases |pollfds|
  {
    if k < |pollfds| {
      var last := |pollfds| - 1;
      ReadyPrefix(pollfds[..last], revents[..last], k);
      assert pollfds[..last][..k] == pollfds[..k] && revents[..last][..k] == revents[..k];
    } else {
      assert pollfds[..k] == pollfds && revents[..k] == revents;
    }
  }

  lemma ReadyAt(pollfds: seq<PollFd>, revents: seq<nat>, k: nat)
    requires |revents| == |pollfds| && k < |pollfds|
    ensures var n, all := |Ready(pollfds[..k], revents[..k])|, Ready(pollfds, revents);
            && |Ready(pollfds[..k + 1], revents[..k + 1])| == n + (if revents[k] > 0 then 1 else 0)
            && (revents[k] > 0 ==> n < |all| && all[n] == k)
  {
    ReadyPrefix(pollfds, revents, k + 1);
    assert pollfds[..k + 1][..k] == pollfds[..k] && revents[..k + 1][..k] == revents[..k];
  }

  ghost predicate AllPlaced(p: Poll) { forall k :: 0 <= k < |p.pollfds| ==> Placed(p, k) }

  /** An entry's channel is registered, and no earlier entry has it. */
  lemma OwnChannel(p: Poll, k: nat)
    requires AllPlaced(p) && k < |p.pollfds| && p.pollfds[k].fd >= 0
    ensures p.pollfds[k].fd in p.index
    ensures forall j :: 0 <= j < k ==> p.pollfds[j].fd != p.pollfds[k].fd
  {
    assert Placed(p, k);
    forall j | 0 <= j < k ensures FdOf(p.pollfds[j]) != FdOf(p.pollfds[k]) { assert Placed(p, j); }
  }

  class EPollPoller {
    var kernel: map<nat, nat>        // the table behind epollfd_
    var channels: map<nat, Channel>

    ghost function View(): EPoll
      reads this, channels.Values
    {
      EPoll(kernel, Indices(channels))
    }

    ghost predicate Valid()
      reads this
    {
      OwnFd(channels)
    }

    constructor ()
      ensures Valid() && View() == NO_EPOLL && channels == map[]
    {
      kernel, channels := map[], map[];
    }

    /** `update`: the call of `epoll_ctl`, which does not fail. */
    method UpdateKernel(ctl: Ctl, fd: nat, events: nat)
      requires Control(kernel, ctl, fd, events).Some?
      modifies this`kernel
      ensures Some(kernel) == Control(old(kernel), ctl, fd, events)
    {
      match ctl {
        case Del => kernel := kernel - {fd};
        case _ => kernel := kernel[fd := events];
      }
    }

    method UpdateChannel(channel: Channel)
      requires Valid() && EPollAsserts(View(), Update(channel.fd, channel.events))
      requires CtlSucceeds(View(), Update(channel.fd, channel.events))
      requires if channel.index == NEW then channel.fd !in channels
               else channel.fd in channels && channels[channel.fd] == channel
      modifies this, channel`index
      ensures Valid() && channels == old(channels)[channel.fd := channel]
      ensures View() == EPollNext(old(View()), Update(channel.fd, channel.events))
    {
      ghost var e, op := View(), Update(channel.fd, channel.events);
      assert channel.fd in channels ==> e.index[channel.fd] == channel.index;
      if channel.index == NEW || channel.index == DELETED {
        if channel.index == NEW {
          channels := channels[channel.fd := channel];
        }
        channel.index := ADDED;
        UpdateKernel(Add, channel.fd, channel.events);
      } else {
        if channel.events == 0 {
          UpdateKernel(Del, channel.fd, channel.events);
          channel.index := DELETED;
        } else {
          UpdateKernel(Mod, channel.fd, channel.events);
        }
      }
      assert Indices(channels) == EPollNext(e, op).index;
    }

    method RemoveChannel(channel: Channel)
      requires Valid() && channel.fd in channels && channels[channel.fd] == channel && channel.events == 0
      requires EPollAsserts(View(), Remove(channel.fd)) && CtlSucceeds(View(), Remove(channel.fd))
      modifies this, channel`index
      ensures Valid() && channels == old(channels) - {channel.fd} && channel.index == NEW
      ensures View() == EPollNext(old(View()), Remove(channel.fd))
    {
      ghost var e := View();
      assert e.index[channel.fd] == channel.index;
      channels := channels - {channel.fd};
      if channel.index == ADDED {
        UpdateKernel(Del, channel.fd, channel.events);
      }
      channel.index := NEW;
      assert Indices(channels) == e.index - {channel.fd};
    }
  }
}
