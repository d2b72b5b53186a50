/** The Channel and Epoll objects. Every method of Epoll is shown to do to the fields of the table and
    of the channels what EpollSpec says, so the properties proved there hold of these objects. */
module Epolls {
  import opened EpollSpec

  const MAXFDS := 100000
  const EVENTNUM := 4096

  datatype Handler = ErrorHandler | ReadHandler | WriteHandler | ConnHandler

  class Channel {
    var fd: nat
    var events: Mask
    var revents: Mask
    var lastEvents: Mask
    var hasErrorHandler: bool
    var hasReadHandler: bool
    var hasWriteHandler: bool

    ghost function View(): Chan
      reads this
    {
      Chan(fd, events, revents, lastEvents)
    }

    constructor (fd: nat)
      ensures this.fd == fd && events == 0 && lastEvents == 0
      ensures !hasErrorHandler && !hasReadHandler && !hasWriteHandler
    {
      this.fd, events, revents, lastEvents := fd, 0, 0, 0;
      hasErrorHandler, hasReadHandler, hasWriteHandler := false, false, false;
    }

    method SetEvents(ev: Mask)
      modifies this`events
      ensures events == ev
    {
      events := ev;
    }

    method SetRevents(ev: Mask)
      modifies this`revents
      ensures revents == ev
    {
      revents := ev;
    }

    /** Whether the interest is what it was at the last call, which this one now is. */
    method IsEqualAndUpdateLastEvents() returns (equal: bool)
      modifies this`lastEvents
      ensures equal == (old(lastEvents) == events) && lastEvents == events
    {
      equal := lastEvents == events;
      lastEvents := events;
    }

    /** The handlers an event leads to, in the order in which they are called. */
    method HandleEvent() returns (calls: seq<Handler>)
      modifies this`events
      ensures events == 0 && calls == Handlers(revents, hasErrorHandler, hasReadHandler, hasWriteHandler)
    {
      events := 0;
      calls := [];
      if revents & EPOLLHUP != 0 && revents & EPOLLIN == 0 {
        return;
      }
      if revents & EPOLLERR != 0 {
        if hasErrorHandler {
          calls := calls + [ErrorHandler];
        }
      }
      if revents & (EPOLLIN | EPOLLPRI | EPOLLRDHUP) != 0 {
        if hasReadHandler {
          calls := calls + [ReadHandler];
        }
      }
      if revents & EPOLLOUT != 0 {
        if hasWriteHandler {
          calls := calls + [WriteHandler];
        }
      }
      calls := calls + [ConnHandler];
    }
  }

  /** What handleEvent calls, as a specification. */
  function Handlers(revents: Mask, error: bool, read: bool, write: bool): seq<Handler> {
    if revents & EPOLLHUP != 0 && revents & EPOLLIN == 0 then [] else
      (if revents & EPOLLERR != 0 && error then [ErrorHandler] else [])
      + (if revents & (EPOLLIN | EPOLLPRI | EPOLLRDHUP) != 0 && read then [ReadHandler] else [])
      + (if revents & EPOLLOUT != 0 && write then [WriteHandler] else [])
      + [ConnHandler]
  }

  /** No handler is called twice, and their order is always error, read, write, connection. */
  lemma HandlersAreOrdered(revents: Mask, error: bool, read: bool, write: bool, i: nat, j: nat)
    requires i < j < |Handlers(revents, error, read, write)|
    ensures Place(Handlers(revents, error, read, write)[i]) < Place(Handlers(revents, error, read, write)[j])
  {}

  function Place(h: Handler): nat {
    match h
    case ErrorHandler => 0
    case ReadHandler => 1
    case WriteHandler => 2
    case ConnHandler => 3
  }

  /** Which handlers an event reaches, each exactly under its own condition: with the order, this
      determines the calls completely. */
  lemma HandlersExactly(revents: Mask, error: bool, read: bool, write: bool)
    ensures var calls := Handlers(revents, error, read, write);
            var ignored := revents & EPOLLHUP != 0 && revents & EPOLLIN == 0;
            && (ConnHandler in calls <==> !ignored)
            && (ErrorHandler in calls <==> !ignored && error && revents & EPOLLERR != 0)
            && (WriteHandler in calls <==> !ignored && write && revents & EPOLLOUT != 0)
            && (ReadHandler in calls <==> !ignored && read && revents & (EPOLLIN | EPOLLPRI | EPOLLRDHUP) != 0)
  {}

  /** A readable wakeup channel always reaches handleRead, whatever else is reported for it. */
  lemma InputReachesReader(revents: Mask, error: bool, write: bool)
    requires revents & EPOLLIN != 0
    ensures ReadHandler in Handlers(revents, error, true, write)
  {}

  /** One answer of epoll_wait: a failure, or a filled part of the buffer (empty on a timeout). */
  datatype WaitResult = WaitFailed | WaitOk(reports: seq<Report>)

  class Epoll {
    var fd2chan: array<Channel?>
    var kernel: map<nat, Reg>

    /** The channels of the program. */
    ghost var chans: set<Channel>

    ghost predicate Valid()
      reads this, fd2chan, chans
    {
      && fd2chan.Length == MAXFDS
      && (forall fd :: 0 <= fd < fd2chan.Length && fd2chan[fd] != null ==> fd2chan[fd] in chans)
      && (forall c :: c in chans ==> c.fd < MAXFDS)
    }

    ghost function Mapping(): map<nat, Channel>
      reads this, fd2chan
    {
      map fd: nat | fd < fd2chan.Length && fd2chan[fd] != null :: fd2chan[fd]
    }

    ghost function Caches(): map<Channel, Chan>
      reads this, chans
    {
      map c | c in chans :: c.View()
    }

    /** The abstract state. */
    ghost function View(): Table<Channel>
      reads this, fd2chan, chans
    {
      Table(Mapping(), Caches(), kernel)
    }

    constructor ()
      ensures Valid() && fresh(fd2chan) && chans == {}
      ensures View() == Table(map[], map[], map[])
    {
      fd2chan := new Channel?[MAXFDS](_ => null);
      kernel := map[];
      chans := {};
      new;
      assert View() == Table(map[], map[], map[]);
    }

    /** The program creates a channel on a descriptor below the limit. */
    method NewChannel(fd: nat) returns (c: Channel)
      requires Valid() && fd < MAXFDS
      modifies this`chans
      ensures Valid() && fresh(c) && chans == old(chans) + {c} && c.fd == fd
      ensures View().fd2chan == old(View()).fd2chan && View().kernel == old(View()).kernel
    {
      c := new Channel(fd);
      chans := chans + {c};
    }

    /** The channel that the constructor of EventLoop makes for the eventfd: edge-triggered on input,
        with a handler that drains it. */
    method NewWakeupChannel(fd: nat) returns (wakeup: Channel)
      requires Valid() && fd < MAXFDS
      modifies this`chans
      ensures Valid() && fresh(wakeup) && chans == old(chans) + {wakeup}
      ensures wakeup.fd == fd && wakeup.events == EPOLLIN | EPOLLET && wakeup.hasReadHandler
      ensures Mapping() == old(Mapping())
    {
      wakeup := NewChannel(fd);
      assert View().fd2chan == Mapping();
      wakeup.SetEvents(EPOLLIN | EPOLLET);
      wakeup.hasReadHandler := true;
    }

    /** And registers with its poller: the table has it from then on exactly if epoll_ctl accepted it. */
    method AddWakeupChannel(fd: nat, ok: bool) returns (wakeup: Channel)
      requires Valid() && fd < MAXFDS
      modifies this`chans, this`kernel, fd2chan
      ensures Valid() && fresh(wakeup) && chans == old(chans) + {wakeup}
      ensures if CanAdd(old(kernel), fd, ok)
              then && Mapping() == old(Mapping())[fd := wakeup]
                   && kernel == old(kernel)[fd := Reg(EPOLLIN | EPOLLET, true)]
              else Mapping() == old(Mapping()) - {fd} && kernel == old(kernel)
    {
      wakeup := NewWakeupChannel(fd);
      ghost var before := View();
      EpollAdd(wakeup, ok);
      AddEffect(before, wakeup, ok, View());
    }

    /** Only channel c has changed. */
    twostate lemma CachesUpdated(c: Channel)
      requires c in chans && chans == old(chans)
      requires forall d :: d in chans && d != c ==> old(allocated(d)) && d.View() == old(d.View())
      ensures Caches() == old(Caches())[c := c.View()]
    {}

    /** Only the entry for fd has changed, if that. */
    twostate lemma EntryUpdated(fd: nat)
      requires fd < fd2chan.Length && fd2chan == old(fd2chan)
      requires forall i :: 0 <= i < fd2chan.Length && i != fd ==> fd2chan[i] == old(fd2chan[i])
      ensures fd2chan[fd] != null ==> Mapping() == old(Mapping())[fd := fd2chan[fd]]
      ensures fd2chan[fd] == null ==> Mapping() == old(Mapping()) - {fd}
      ensures fd2chan[fd] == old(fd2chan[fd]) ==> Mapping() == old(Mapping())
    {}

    method EpollAdd(request: Channel, ok: bool)
      requires Valid() && request in chans
      modifies this`kernel, fd2chan, request`lastEvents
      ensures Valid() && View() == AddOp(old(View()), request, ok)
      ensures request.lastEvents == request.events
      ensures if ok && request.fd !in old(kernel)
              then fd2chan[request.fd] == request && kernel == old(kernel)[request.fd := Reg(request.events, true)]
              else fd2chan[request.fd] == null && kernel == old(kernel)
      ensures forall i :: 0 <= i < fd2chan.Length && i != request.fd ==> fd2chan[i] == old(fd2chan[i])
    {
      var fd := request.fd;
      var event := request.events;
      var equal := request.IsEqualAndUpdateLastEvents();
      fd2chan[fd] := request;
      if CanAdd(kernel, fd, ok) {
        kernel := kernel[fd := Reg(event, true)];
      } else {
        fd2chan[fd] := null;
      }
      CachesUpdated(request);
      EntryUpdated(fd);
    }

    method EpollMod(request: Channel, ok: bool)
      requires Valid() && request in chans
      modifies this`kernel, fd2chan, request`lastEvents
      ensures Valid() && View() == ModOp(old(View()), request, ok)
      ensures request.lastEvents == request.events
      ensures if old(request.lastEvents) == request.events
              then fd2chan[request.fd] == old(fd2chan[request.fd]) && kernel == old(kernel)
              else if ok && request.fd in old(kernel)
              then && fd2chan[request.fd] == old(fd2chan[request.fd])
                   && kernel == old(kernel)[request.fd := Reg(request.events, true)]
              else fd2chan[request.fd] == null && kernel == old(kernel)
      ensures forall i :: 0 <= i < fd2chan.Length && i != request.fd ==> fd2chan[i] == old(fd2chan[i])
    {
      var fd := request.fd;
      var equal := request.IsEqualAndUpdateLastEvents();
      if !equal {
        var event := request.events;
        if CanChange(kernel, fd, ok) {
          kernel := kernel[fd := Reg(event, true)];
        } else {
          fd2chan[fd] := null;
        }
      }
      CachesUpdated(request);
      EntryUpdated(fd);
    }

    method EpollDel(request: Channel, ok: bool)
      requires Valid() && request in chans
      modifies this`kernel, fd2chan
      ensures Valid() && View() == DelOp(old(View()), request, ok)
      ensures fd2chan[request.fd] == null
      ensures kernel == if ok && request.fd in old(kernel) then old(kernel) - {request.fd} else old(kernel)
      ensures forall i :: 0 <= i < fd2chan.Length && i != request.fd ==> fd2chan[i] == old(fd2chan[i])
    {
      var fd := request.fd;
      if CanChange(kernel, fd, ok) {
        kernel := kernel - {fd};
      }
      fd2chan[fd] := null;
      assert Caches() == old(Caches());
      EntryUpdated(fd);
    }

    /** The body of the loop over the buffer. */
    method MarkActive(report: Report) returns (channel: Channel?)
      requires Valid() && report.fd < MAXFDS
      modifies chans
      ensures Valid() && Closed(old(View())) && View() == Mark(old(View()), report)
      ensures channel != null <==> report.fd in Mapping()
      ensures channel != null ==> channel == Mapping()[report.fd]
    {
      channel := fd2chan[report.fd];
      if channel != null {
        channel.SetRevents(report.mask);
        channel.SetEvents(0);
        CachesUpdated(channel);
      } else {
        assert Caches() == old(Caches());
      }
      assert Mapping() == old(Mapping());
    }

    /** And add the channel, if there is one, to those that poll returns. */
    method Collect(report: Report, activeChannels: seq<Channel>) returns (more: seq<Channel>)
      requires Valid() && report.fd < MAXFDS
      modifies chans
      ensures Valid() && Closed(old(View())) && View() == Mark(old(View()), report)
      ensures more == activeChannels + if report.fd in old(Mapping()) then [old(Mapping())[report.fd]] else []
    {
      more := activeChannels;
      ghost var before := Mapping();
      var channel := MarkActive(report);
      assert View().fd2chan == Mapping() == before;
      if channel != null {
        var found: Channel := channel;
        more := activeChannels + [found];
      }
    }

    /** The loop over the filled part of the buffer. */
    method GetEventsRequest(reports: seq<Report>) returns (activeChannels: seq<Channel>)
      requires Valid() && forall r :: r in reports ==> r.fd < MAXFDS
      modifies chans
      ensures Valid() && Closed(old(View())) && View() == MarkAll(old(View()), reports)
      ensures activeChannels == Active(old(Mapping()), reports)
    {
      activeChannels := [];
      ghost var start := View();
      var i := 0;
      while i < |reports|
        invariant 0 <= i <= |reports| && Valid() && Closed(start)
        invariant View() == MarkAll(start, reports[..i])
        invariant activeChannels == Active(start.fd2chan, reports[..i])
      {
        MarkAllSnoc(start, reports, i);
        ActiveSnoc(start.fd2chan, reports, i);
        assert reports[i] in reports;
        activeChannels := Collect(reports[i], activeChannels);
        i := i + 1;
      }
      assert reports[..i] == reports;
    }

    /** poll: wait until some mapped descriptor fires. Failures, timeouts and reports that only concern
        descriptors without a channel are waited out; an empty result stands for a thread that is still
        blocked when the kernel has given all the answers it ever gives. */
    method Poll(waits: seq<WaitResult>) returns (active: seq<Channel>, n: nat)
      requires Valid()
      requires forall w :: w in waits && w.WaitOk? ==>
                 |w.reports| <= EVENTNUM && forall r :: r in w.reports ==> r.fd < MAXFDS
      modifies this`kernel, chans
      ensures Valid() && Closed(old(View())) && n <= |waits|
      ensures View() == DispatchMany(old(View()), waits[..n])
      ensures active == [] ==> n == |waits|
      ensures active != [] ==> n > 0 && waits[n - 1].WaitOk?
                               && active == Active(old(Mapping()), waits[n - 1].reports)
      ensures forall i :: 0 <= i < (if active == [] then n else n - 1) ==>
                waits[i].WaitFailed? || Active(old(Mapping()), waits[i].reports) == []
    {
      n := 0;
      active := [];
      ghost var start := View();
      while n < |waits| && active == []
        invariant 0 <= n <= |waits| && Valid() && Closed(start) && Mapping() == start.fd2chan
        invariant View() == DispatchMany(start, waits[..n])
        invariant active != [] ==> n > 0 && waits[n - 1].WaitOk?
                                   && active == Active(start.fd2chan, waits[n - 1].reports)
        invariant forall i :: 0 <= i < (if active == [] then n else n - 1) ==>
                    waits[i].WaitFailed? || Active(start.fd2chan, waits[i].reports) == []
      {
        assert waits[n] in waits;
        DispatchManySnoc(start, waits, n);
        if waits[n].WaitOk? {
          active := Wait(waits[n].reports);
        }
        n := n + 1;
      }
    }

    /** One successful epoll_wait, which disarms the one-shot registrations it reports, and the loop
        over its buffer. */
    method Wait(reports: seq<Report>) returns (active: seq<Channel>)
      requires Valid() && forall r :: r in reports ==> r.fd < MAXFDS
      modifies this`kernel, chans
      ensures Valid() && Closed(old(View())) && View() == DispatchOp(old(View()), reports)
      ensures active == Active(old(Mapping()), reports)
    {
      ghost var start := View();
      kernel := AfterReport(kernel, reports);
      assert Mapping() == start.fd2chan && Caches() == start.chans;
      MarkAllIgnoresKernel(start, reports, kernel);
      active := GetEventsRequest(reports);
    }
  }

  lemma {:induction false} MarkAllSnoc<C>(s: Table<C>, reports: seq<Report>, i: nat)
    requires Closed(s) && i < |reports|
    ensures MarkAll(s, reports[..i + 1]) == Mark(MarkAll(s, reports[..i]), reports[i])
    decreases i
  {
    assert reports[..i + 1][1..] == reports[1..][..i];
    if i > 0 {
      assert reports[..i][1..] == reports[1..][..i - 1];
      MarkAllSnoc(Mark(s, reports[0]), reports[1..], i - 1);
    } else {
      assert reports[1..][..0] == [] && reports[..0] == [];
    }
  }

  lemma AddEffect<C>(s: Table<C>, c: C, ok: bool, s': Table<C>)
    requires c in s.chans && s' == AddOp(s, c, ok)
    ensures var ch := s.chans[c];
            if CanAdd(s.kernel, ch.fd, ok)
            then s'.fd2chan == s.fd2chan[ch.fd := c] && s'.kernel == s.kernel[ch.fd := Reg(ch.events, true)]
            else s'.fd2chan == s.fd2chan - {ch.fd} && s'.kernel == s.kernel
  {}

  lemma {:induction false} MarkAllIgnoresKernel<C>(s: Table<C>, reports: seq<Report>, kernel: map<nat, Reg>)
    requires Closed(s)
    ensures MarkAll(s.(kernel := kernel), reports) == MarkAll(s, reports).(kernel := kernel)
    decreases reports
  {
    if reports != [] {
      MarkAllIgnoresKernel(Mark(s, reports[0]), reports[1..], kernel);
    }
  }

  /** The effect of several answers on the channels. */
  function DispatchMany<C(==)>(s: Table<C>, waits: seq<WaitResult>): (s': Table<C>)
    requires Closed(s)
    ensures Closed(s') && s'.fd2chan == s.fd2chan
    decreases waits
  {
    if waits == [] then s
    else DispatchMany(if waits[0].WaitOk? then DispatchOp(s, waits[0].reports) else s, waits[1..])
  }

  lemma {:induction false} DispatchManySnoc<C>(s: Table<C>, waits: seq<WaitResult>, n: nat)
    requires Closed(s) && n < |waits|
    ensures DispatchMany(s, waits[..n + 1])
            == if waits[n].WaitOk? then DispatchOp(DispatchMany(s, waits[..n]), waits[n].reports)
               else DispatchMany(s, waits[..n])
    decreases waits
  {
    assert waits[..n + 1][1..] == waits[1..][..n];
    if n > 0 {
      assert waits[..n][1..] == waits[1..][..n - 1];
      DispatchManySnoc(if waits[0].WaitOk? then DispatchOp(s, waits[0].reports) else s, waits[1..], n - 1);
    } else {
      assert waits[..1][1..] == [];
    }
  }

  lemma {:induction false} ManyAgree<C>(s: Table<C>, waits: seq<WaitResult>)
    requires Agrees(s)
    ensures Agrees(DispatchMany(s, waits))
    decreases waits
  {
    if waits != [] {
      if waits[0].WaitOk? {
        DispatchAgrees(s, waits[0].reports);
      }
      ManyAgree(if waits[0].WaitOk? then DispatchOp(s, waits[0].reports) else s, waits[1..]);
    }
  }

  /** When poll returns after answer n, every channel it returns carries the mask that answer reported for
      its descriptor and no interest, whatever the answers before it were. */
  lemma PollMarks<C>(s: Table<C>, waits: seq<WaitResult>, n: nat, i: nat)
    requires Agrees(s) && n < |waits| && waits[n].WaitOk?
    requires Deliverable(DispatchMany(s, waits[..n]).kernel, waits[n].reports)
    requires i < |waits[n].reports| && waits[n].reports[i].fd in s.fd2chan
    ensures var ch := DispatchMany(s, waits[..n + 1]).chans[s.fd2chan[waits[n].reports[i].fd]];
            ch.revents == waits[n].reports[i].mask && ch.events == 0
  {
    ManyAgree(s, waits[..n]);
    DispatchManySnoc(s, waits, n);
    DispatchMarks(DispatchMany(s, waits[..n]), waits[n].reports, i);
  }
}
