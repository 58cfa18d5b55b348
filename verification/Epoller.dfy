/**
 Channel.h and Epoller.cpp as objects.  A channel's methods change its mask and go through the
 poller; each is proved to do to the poller's world exactly what ChannelModel.Apply says.
 */
module Epollers {
  import M = ChannelModel

  class Channel {
    const epoller: Epoller
    const fd: int
    var index: M.Index
    var events: bv32
    var revent: bv32

    // A new channel is unregistered; the poller's record of channels is only a ghost.
    constructor (epoller: Epoller, fd: int)
      modifies epoller`channels
      ensures this.epoller == epoller && this.fd == fd
      ensures epoller.channels == old(epoller.channels) + {this}
      ensures epoller.View() == old(epoller.View()).(chans := old(epoller.View()).chans[this := M.Chan(fd, M.New, 0)])
    {
      this.epoller, this.fd, index, events, revent := epoller, fd, M.New, 0, 0;
      new;
      epoller.channels := epoller.channels + {this};
    }

    ghost function View(): M.Chan
      reads this
    {
      M.Chan(fd, index, events)
    }

    method EnableReading()
      requires this in epoller.channels && M.May(epoller.View(), this, M.EnableReading)
      modifies this`events, this`index, epoller
      ensures epoller.View() == M.Apply(old(epoller.View()), this, M.EnableReading)
      ensures epoller.channels == old(epoller.channels)
    {
      SetMask(events | M.EPOLLIN);
      epoller.UpdateChannel(this);
    }

    method DisableReading()
      requires this in epoller.channels && M.May(epoller.View(), this, M.DisableReading)
      modifies this`events, this`index, epoller
      ensures epoller.View() == M.Apply(old(epoller.View()), this, M.DisableReading)
      ensures epoller.channels == old(epoller.channels)
    {
      SetMask(events & !M.EPOLLIN);
      epoller.RemoveChannel(this);
    }

    method EnableWrite()
      requires this in epoller.channels && M.May(epoller.View(), this, M.EnableWrite)
      modifies this`events, this`index, epoller
      ensures epoller.View() == M.Apply(old(epoller.View()), this, M.EnableWrite)
      ensures epoller.channels == old(epoller.channels)
    {
      SetMask(events | M.EPOLLOUT);
      epoller.UpdateChannel(this);
    }

    method DisableWrite()
      requires this in epoller.channels && M.May(epoller.View(), this, M.DisableWrite)
      modifies this`events, this`index, epoller
      ensures epoller.View() == M.Apply(old(epoller.View()), this, M.DisableWrite)
      ensures epoller.channels == old(epoller.channels)
    {
      SetMask(events & !M.EPOLLOUT);
      epoller.UpdateChannel(this);
    }

    method DisableAll()
      requires this in epoller.channels && M.May(epoller.View(), this, M.DisableAll)
      modifies this`events, this`index, epoller
      ensures epoller.View() == M.Apply(old(epoller.View()), this, M.DisableAll)
      ensures epoller.channels == old(epoller.channels)
    {
      SetMask(0);
      epoller.UpdateChannel(this);
    }

    method Remove()
      requires this in epoller.channels && M.May(epoller.View(), this, M.Remove)
      modifies this`events, this`index, epoller
      ensures epoller.View() == M.Apply(old(epoller.View()), this, M.Remove)
      ensures epoller.channels == old(epoller.channels)
    {
      SetMask(events);
      epoller.RemoveChannel(this);
    }

    method SetMask(mask: bv32)
      requires this in epoller.channels
      modifies this`events
      ensures events == mask && epoller.View() == M.SetEvents(old(epoller.View()), this, mask)
    {
      events := mask;
    }
  }

  class Epoller {
    var channelMap: map<int, Channel>
    // what epoll_ctl has been told, and how often it refused
    var kernel: map<int, M.Interest<Channel>>
    var refused: nat
    ghost var channels: set<Channel>

    ghost function View(): M.World<Channel>
      reads this, channels
    {
      M.World(map c | c in channels :: c.View(), channelMap, kernel, refused)
    }

    constructor ()
      ensures View() == M.Fresh(map[]) && channels == {}
    {
      channelMap, kernel, refused, channels := map[], map[], 0, {};
    }

    // epoll_ctl, as the kernel answers it.
    method UpdateEvent(ctl: M.Ctl, channel: Channel)
      requires channel in channels
      modifies this`kernel, this`refused
      ensures View() == M.EpollCtl(old(View()), ctl, channel)
    {
      if ctl.Add? == (channel.fd in kernel) {
        refused := refused + 1;
      } else if ctl.Del? {
        kernel := kernel - {channel.fd};
      } else {
        kernel := kernel[channel.fd := M.Interest(channel.events, channel)];
      }
    }

    method SetIndex(channel: Channel, index: M.Index)
      requires channel in channels
      modifies channel`index
      ensures View() == M.SetIndex(old(View()), channel, index)
    {
      channel.index := index;
    }

    method UpdateChannel(channel: Channel)
      requires channel in channels && M.MayUpdate(View(), channel)
      modifies this`channelMap, this`kernel, this`refused, channel`index
      ensures View() == M.UpdateChannel(old(View()), channel)
    {
      if channel.index != M.Added {
        if channel.index == M.New {
          channelMap := channelMap[channel.fd := channel];
        }
        SetIndex(channel, M.Added);
        UpdateEvent(M.Ctl.Add, channel);
      } else if channel.events == 0 {
        UpdateEvent(M.Del, channel);
        SetIndex(channel, M.Deleted);
      } else {
        UpdateEvent(M.Mod, channel);
      }
    }

    method RemoveChannel(channel: Channel)
      requires channel in channels && M.MayRemove(View(), channel)
      modifies this`channelMap, this`kernel, this`refused, channel`index
      ensures View() == M.RemoveChannel(old(View()), channel)
    {
      channelMap := channelMap - {channel.fd};
      if channel.index == M.Added {
        UpdateEvent(M.Del, channel);
      }
      SetIndex(channel, M.New);
    }

    // fillActiveChannels: hand each reported event to its channel and list the channels in the
    // kernel's order.  The kernel reports a descriptor at most once per call.
    method FillActiveChannels(reported: seq<(Channel, bv32)>, active: seq<Channel>) returns (filled: seq<Channel>)
      requires forall i :: 0 <= i < |reported| ==>
                 reported[i].0 in channels && M.MayReport(View(), reported[i].0, reported[i].1)
      requires forall i, j :: 0 <= i < j < |reported| ==> reported[i].0 != reported[j].0
      modifies (set i | 0 <= i < |reported| :: reported[i].0)`revent
      ensures |filled| == |active| + |reported| && filled[..|active|] == active
      ensures forall i :: 0 <= i < |reported| ==>
                filled[|active| + i] == reported[i].0 && reported[i].0.revent == reported[i].1
      ensures View() == old(View())
    {
      filled := active;
      var i := 0;
      while i < |reported|
        invariant i <= |reported|
        invariant |filled| == |active| + i && filled[..|active|] == active
        invariant forall j :: 0 <= j < i ==>
                    filled[|active| + j] == reported[j].0 && reported[j].0.revent == reported[j].1
      {
        reported[i].0.revent := reported[i].1;
        filled := filled + [reported[i].0];
        i := i + 1;
      }
    }
  }
}
