/** The EventLoop object itself, method by method, with other threads interfering between any two of
    its atomic steps. Each object carries the protocol state it is in; every atomic statement is
    one protocol event, and the fields are at all times those of a reachable state. So every execution of
    these methods, under every interference, is a run of LoopProtocol. */
module EventLoops {
  import opened Functors
  import opened LoopProtocol
  import opened LoopSafety
  import D = LoopDrain
  import EpollSpec

  type Mask = EpollSpec.Mask

  const WAKEUP_EVENTS: Mask := EpollSpec.EPOLLIN | EpollSpec.EPOLLET

  class EventLoop {
    var looping: bool
    var quitFlag: bool
    var eventHandling: bool
    var callingPendingFunctors: bool
    var pendingFunctors: seq<Functor>

    // the eventfd and the other threads
    var eventfd: nat
    var edge: bool
    var threads: seq<Thread>

    // the interest of the wakeup channel
    var wakeupEvents: Mask

    // where the protocol is, and how it got there
    ghost const origin: State
    ghost var trace: seq<Event>
    ghost var st: State

    /** The trace is a run of the protocol from a fresh loop to where it is. */
    ghost predicate Traced()
      reads this
    {
      Init(origin) && Legal(origin, trace) && Exec(origin, trace) == st
    }

    ghost predicate Valid()
      reads this
    {
      && Traced()
      && quitFlag == st.quit && pendingFunctors == st.pending
      && eventfd == st.counter && edge == st.ready && threads == st.threads
      && looping == !st.pc.Outside?
      && (st.pc.Calling? ==> callingPendingFunctors)
      && (callingPendingFunctors ==> st.pc.Calling? || st.pc.Swapping?)
      && (eventHandling ==> st.pc.Handling?)
      // the interest that poll cleared is back, unless handleRead is still to come
      && (wakeupEvents == WAKEUP_EVENTS || (st.pc.Handling? && Wakeup in st.pc.active))
    }

    /** The loop thread has not moved since state s; others may have. */
    ghost predicate OthersMoved(s: State)
      reads this
    {
      && st.pc == s.pc && st.todo == s.todo && st.owes == s.owes
      && st.started == s.started && st.ran == s.ran && st.quiet == s.quiet && st.wakes == s.wakes
      && s.pending <= st.pending && s.queued <= st.queued && (s.quit ==> st.quit) && (Woken(s) ==> Woken(st))
    }

    constructor (threads: seq<Thread>)
      requires forall i :: 0 <= i < |threads| ==> !threads[i].owes
      ensures Valid() && Init(st) && this.threads == threads
      ensures !looping && pendingFunctors == []
    {
      looping, quitFlag, eventHandling, callingPendingFunctors := false, false, false, false;
      pendingFunctors := [];
      eventfd, edge := 0, false;
      this.threads := threads;
      wakeupEvents := WAKEUP_EVENTS;
      st := State(Outside, [], false, false, [], 0, false, threads, [], [], [], 0, 0, 0);
      origin := State(Outside, [], false, false, [], 0, false, threads, [], [], [], 0, 0, 0);
      trace := [];
    }

    /** One protocol event. */
    ghost method Step(e: Event)
      requires Traced() && Enabled(st, e)
      modifies this`st, this`trace
      ensures Traced() && st == Apply(old(st), e) && trace == old(trace) + [e]
    {
      OneMore(origin, trace, e);
      st := Apply(st, e);
      trace := trace + [e];
    }

    lemma TracedIsReachable()
      requires Traced()
      ensures Reachable(st)
    {}

    // ---------- Other threads ----------

    /** The write of wakeup(): an eventfd that is full refuses it. */
    method WriteEventfd()
      modifies this`eventfd, this`edge
      ensures eventfd == if old(eventfd) == EVENTFD_MAX then old(eventfd) else old(eventfd) + 1
      ensures edge == (old(edge) || old(eventfd) != EVENTFD_MAX)
    {
      if eventfd != EVENTFD_MAX {
        eventfd, edge := eventfd + 1, true;
      }
    }

    /** The second half of a call by thread t: the write. */
    method ThreadWakes(t: nat)
      requires Valid() && t < |threads| && threads[t].owes
      modifies this
      ensures OwnSteps(old(trace), trace)
      ensures Valid() && st == Apply(old(st), ThreadWrite(t))
      ensures callingPendingFunctors == old(callingPendingFunctors) && eventHandling == old(eventHandling)
    {
      WriteEventfd();
      threads := threads[t := threads[t].(owes := false)];
      Step(ThreadWrite(t));
    }

    /** The first half of queueInLoop, runInLoop or quit called by thread t, not the loop thread. */
    method ThreadCalls(t: nat)
      requires Valid() && t < |threads| && !threads[t].owes && threads[t].script != []
      modifies this
      ensures OwnSteps(old(trace), trace)
      ensures Valid() && st == Apply(old(st), ThreadCall(t))
      ensures callingPendingFunctors == old(callingPendingFunctors) && eventHandling == old(eventHandling)
    {
      var call := threads[t].script[0];
      if call.Quit? {
        quitFlag := true;
      } else {
        pendingFunctors := pendingFunctors + [call.f];
      }
      threads := threads[t := Thread(threads[t].script[1..], true)];
      Step(ThreadCall(t));
    }

    /** One atomic step of thread t, if it has one to take. */
    method ThreadStep(t: nat)
      requires Valid()
      modifies this
      ensures OwnSteps(old(trace), trace)
      ensures Valid() && OthersMoved(old(st))
      ensures callingPendingFunctors == old(callingPendingFunctors) && eventHandling == old(eventHandling)
    {
      if t < |threads| && threads[t].owes {
        ThreadWakes(t);
      } else if t < |threads| && threads[t].script != [] {
        ThreadCalls(t);
      }
    }

    /** Any number of steps of any other threads, in any order. */
    method OtherThreads()
      requires Valid()
      modifies this
      ensures OwnSteps(old(trace), trace)
      ensures Valid() && OthersMoved(old(st))
      ensures callingPendingFunctors == old(callingPendingFunctors) && eventHandling == old(eventHandling)
    {
      var n: nat := *;
      while n > 0
        invariant OwnSteps(old(trace), trace)
        invariant Valid() && OthersMoved(old(st))
        invariant callingPendingFunctors == old(callingPendingFunctors) && eventHandling == old(eventHandling)
      {
        var t: nat := *;
        ThreadStep(t);
        n := n - 1;
      }
    }

    // ---------- Calls made by the loop thread ----------

    /** queueInLoop on the loop thread: push under the lock; call wakeup() if functors are being called,
        and only then. */
    method QueueInLoop(cb: Functor)
      requires Valid() && !st.owes && st.todo != [] && st.todo[0] == Queue(cb)
      modifies this
      ensures OwnSteps(old(trace), trace)
      ensures Valid() && !st.owes && st.todo == old(st.todo)[1..] && st.pc == old(st.pc)
      ensures st.started == old(st.started) && st.ran == old(st.ran)
      ensures old(st.pending) + [cb] <= st.pending && old(st.queued) + [cb] <= st.queued
      ensures st.wakes == old(st.wakes) + if old(st.pc).Calling? then 1 else 0
      ensures old(st.pc).Calling? ==> eventfd > 0
      ensures !old(st.pc).Outside? && !old(st.pc).Expiring? ==> st.quiet == old(st.quiet)
      ensures callingPendingFunctors == old(callingPendingFunctors) && eventHandling == old(eventHandling)
    {
      TracedIsReachable();
      ReachableInv(st);
      pendingFunctors := pendingFunctors + [cb];
      Step(Loop);
      OtherThreads();
      if callingPendingFunctors {
        WriteEventfd();
        Step(Loop);
      }
    }

    /** quit() on the loop thread: no wakeup. */
    method QuitFromLoop()
      requires Valid() && !st.owes && st.todo != [] && st.todo[0] == Quit
      modifies this
      ensures OwnSteps(old(trace), trace)
      ensures Valid() && quitFlag && st == SetQuit(old(st)).(todo := old(st.todo)[1..])
      ensures callingPendingFunctors == old(callingPendingFunctors) && eventHandling == old(eventHandling)
    {
      quitFlag := true;
      Step(Loop);
    }

    /** runInLoop on the loop thread: call it here and now. */
    method RunInLoop(cb: Functor)
      requires Valid() && !st.owes && st.todo != [] && st.todo[0] == Run(cb)
      modifies this
      ensures OwnSteps(old(trace), trace)
      ensures Valid() && !st.owes && st.todo == old(st.todo)[1..] && st.pc == old(st.pc)
      ensures st.started == old(st.started) && st.ran == old(st.ran) + RanBy(cb)
      ensures old(st.pending) <= st.pending && old(st.queued) <= st.queued
      ensures !old(st.pc).Outside? && !old(st.pc).Expiring? ==> st.quiet == old(st.quiet)
      ensures callingPendingFunctors == old(callingPendingFunctors) && eventHandling == old(eventHandling)
      decreases cb, 1
    {
      ghost var rest := st.todo[1..];
      Step(Loop);
      Execute(cb.body, rest);
    }

    /** The body of a callback: its calls, one after the other. */
    method Execute(acts: seq<Action>, ghost rest: seq<Action>)
      requires Valid() && !st.owes && st.todo == acts + rest
      modifies this
      ensures OwnSteps(old(trace), trace)
      ensures Valid() && !st.owes && st.todo == rest && st.pc == old(st.pc)
      ensures st.started == old(st.started) && st.ran == old(st.ran) + RanByActs(acts)
      ensures old(st.pending) <= st.pending && old(st.queued) <= st.queued
      ensures !old(st.pc).Outside? && !old(st.pc).Expiring? ==> st.quiet == old(st.quiet)
      ensures callingPendingFunctors == old(callingPendingFunctors) && eventHandling == old(eventHandling)
      decreases acts, 0
    {
      if acts == [] {
        assert st.todo == rest;
        return;
      }
      NextCall(st.ran, acts, rest);
      OtherThreads();
      MakeCall(acts[0]);
      Execute(acts[1..], rest);
    }

    method MakeCall(a: Action)
      requires Valid() && !st.owes && st.todo != [] && st.todo[0] == a
      modifies this
      ensures OwnSteps(old(trace), trace)
      ensures Valid() && !st.owes && st.todo == old(st.todo)[1..] && st.pc == old(st.pc)
      ensures st.started == old(st.started) && st.ran == old(st.ran) + ActRan(a)
      ensures old(st.pending) <= st.pending && old(st.queued) <= st.queued
      ensures !old(st.pc).Outside? && !old(st.pc).Expiring? ==> st.quiet == old(st.quiet)
      ensures callingPendingFunctors == old(callingPendingFunctors) && eventHandling == old(eventHandling)
      decreases a, 2
    {
      match a
      case Queue(f) => QueueInLoop(f);
      case Run(f) => RunInLoop(f);
      case Quit => QuitFromLoop();
    }

    // ---------- The turns of the loop ----------

    /** handleRead on the wakeup channel: one read, which empties the eventfd, and the interest that was
        cleared when the channel was reported is restored. */
    method HandleRead()
      requires Valid() && Idle(st) && st.pc.Handling? && st.pc.active != [] && st.pc.active[0].Wakeup?
      modifies this
      ensures OwnSteps(old(trace), trace)
      ensures Valid() && eventfd == 0 && st == old(st).(pc := Handling(old(st.pc.active)[1..]), counter := 0)
      ensures wakeupEvents == WAKEUP_EVENTS
      ensures callingPendingFunctors == old(callingPendingFunctors) && eventHandling == old(eventHandling)
    {
      eventfd := 0;
      wakeupEvents := WAKEUP_EVENTS;
      Step(Loop);
    }

    /** handleEvent on one active channel. */
    method HandleEvent(channel: Channel, ghost rest: seq<Channel>)
      requires Valid() && Idle(st) && st.pc == Handling([channel] + rest)
      modifies this
      ensures OwnSteps(old(trace), trace)
      ensures Valid() && Idle(st) && st.pc == Handling(rest)
      ensures st.started == old(st.started) && st.quiet == old(st.quiet)
      ensures st.ran == old(st.ran) + RanByHandler(channel)
      ensures old(st.pending) <= st.pending && old(st.queued) <= st.queued
      ensures callingPendingFunctors == old(callingPendingFunctors)
    {
      OtherThreads();
      assert ([channel] + rest)[1..] == rest;
      match channel {
        case Wakeup =>
          wakeupEvents := 0;
          HandleRead();
        case User(script) =>
          Step(Loop);
          assert script + [] == script;
          Execute(script, []);
      }
    }

    /** The loop over the active channels. */
    method HandleActive(active: seq<Channel>)
      requires Valid() && Idle(st) && st.pc == Handling(active)
      modifies this
      ensures OwnSteps(old(trace), trace)
      ensures Valid() && Idle(st) && st.pc == Swapping && !eventHandling
      ensures st.started == old(st.started) && st.quiet == old(st.quiet)
      ensures st.ran == old(st.ran) + RanByHandlers(active)
      ensures old(st.pending) <= st.pending && old(st.queued) <= st.queued
      ensures callingPendingFunctors == old(callingPendingFunctors)
    {
      eventHandling := true;
      var i := 0;
      while i < |active|
        invariant OwnSteps(old(trace), trace)
        invariant 0 <= i <= |active|
        invariant Valid() && Idle(st) && st.pc == Handling(active[i..])
        invariant st.started == old(st.started) && st.quiet == old(st.quiet)
        invariant st.ran + RanByHandlers(active[i..]) == old(st.ran) + RanByHandlers(active)
        invariant old(st.pending) <= st.pending && old(st.queued) <= st.queued
        invariant callingPendingFunctors == old(callingPendingFunctors)
      {
        NextHandler(st.ran, active, i);
        HandleEvent(active[i], active[i + 1..]);
        i := i + 1;
      }
      EndHandling();
    }

    /** eventHandling_ = false. */
    method EndHandling()
      requires Valid() && Idle(st) && st.pc == Handling([])
      modifies this
      ensures OwnSteps(old(trace), trace)
      ensures Valid() && !eventHandling && st == old(st).(pc := Swapping)
      ensures callingPendingFunctors == old(callingPendingFunctors)
    {
      eventHandling := false;
      Step(Loop);
    }

    /** One functor of the batch. */
    method CallFunctor(functor: Functor, ghost rest: seq<Functor>)
      requires Valid() && Idle(st) && st.pc == Calling([functor] + rest)
      modifies this
      ensures OwnSteps(old(trace), trace)
      ensures Valid() && Idle(st) && st.pc == Calling(rest) && st.quiet == old(st.quiet)
      ensures st.started == old(st.started) + [functor] && st.ran == old(st.ran) + RanBy(functor)
      ensures eventHandling == old(eventHandling)
    {
      OtherThreads();
      assert ([functor] + rest)[1..] == rest;
      Step(Loop);
      assert functor.body + [] == functor.body;
      Execute(functor.body, []);
    }

    /** functors.swap(pendingFunctors_) under the lock. */
    method Swap() returns (functors: seq<Functor>)
      requires Valid() && Idle(st) && st.pc == Swapping && callingPendingFunctors
      modifies this
      ensures OwnSteps(old(trace), trace)
      ensures Valid() && Idle(st) && st.pc == Calling(functors) && st.quiet == 0
      ensures functors == old(pendingFunctors) && pendingFunctors == []
      ensures st.started == old(st.started) && st.ran == old(st.ran)
      ensures eventHandling == old(eventHandling)
    {
      functors := pendingFunctors;
      pendingFunctors := [];
      Step(Loop);
    }

    /** The loop over the batch. */
    method CallAll(functors: seq<Functor>)
      requires Valid() && Idle(st) && st.pc == Calling(functors) && st.quiet == 0
      modifies this
      ensures OwnSteps(old(trace), trace)
      ensures Valid() && Idle(st) && st.pc == Calling([]) && st.quiet == 0
      ensures st.started == old(st.started) + functors && st.ran == old(st.ran) + RanAll(functors)
      ensures eventHandling == old(eventHandling)
    {
      var i := 0;
      while i < |functors|
        invariant OwnSteps(old(trace), trace)
        invariant 0 <= i <= |functors|
        invariant Valid() && Idle(st) && st.pc == Calling(functors[i..]) && st.quiet == 0
        invariant st.started == old(st.started) + functors[..i]
        invariant st.ran == old(st.ran) + RanAll(functors[..i])
        invariant eventHandling == old(eventHandling)
      {
        assert functors[i..] == [functors[i]] + functors[i + 1..];
        CallFunctor(functors[i], functors[i + 1..]);
        RanAllSnoc(functors, i);
        i := i + 1;
      }
      assert functors[..i] == functors;
    }

    /** Swap the pending list out under the lock, then call what was in it without the lock, while other
        threads and the functors themselves go on queueing. Everything that was pending on entry is in
        the batch; exactly the batch is called, in order; whatever else was queued stays pending. */
    method DoPendingFunctors() returns (ghost batch: seq<Functor>)
      requires Valid() && Idle(st) && st.pc == Swapping
      modifies this
      ensures OwnSteps(old(trace), trace)
      ensures Valid() && Idle(st) && st.pc == Expiring && !callingPendingFunctors && st.quiet == 0
      ensures old(pendingFunctors) <= batch
      ensures st.started == old(st.started) + batch && st.ran == old(st.ran) + RanAll(batch)
      ensures st.queued == st.started + pendingFunctors
      ensures eventHandling == old(eventHandling)
    {
      callingPendingFunctors := true;
      OtherThreads();
      var functors := Swap();
      batch := functors;
      CallAll(functors);
      EndBatch();
    }

    /** callingPendingFunctors_ = false: what is pending now is what was queued since the swap. */
    method EndBatch()
      requires Valid() && Idle(st) && st.pc == Calling([])
      modifies this
      ensures OwnSteps(old(trace), trace)
      ensures Valid() && !callingPendingFunctors && st == old(st).(pc := Expiring)
      ensures st.queued == st.started + pendingFunctors
      ensures eventHandling == old(eventHandling)
    {
      TracedIsReachable();
      ReachableInv(st);
      callingPendingFunctors := false;
      Step(Loop);
    }

    /** Epoll::poll as the loop sees it: wait until something is reported. The reports come from the
        given list; the wakeup channel is only reported when it is readable and its edge is up, a
        report of nothing is waited out, and when the list is exhausted the thread stays blocked. What it
        returns are the program's channels of one report, all of them and in order, and the wakeup channel
        exactly if it is in that report and fires; every report before that one had nothing to deliver. */
    method Poll(reports: seq<seq<Channel>>, from: nat) returns (active: seq<Channel>, next: nat)
      requires Valid() && Idle(st) && st.pc == Polling && from <= |reports|
      modifies this
      ensures Valid() && Idle(st) && from <= next <= |reports|
      ensures active == [] ==> st.pc == Polling && next == |reports|
      ensures active != [] ==> st.pc == Handling(active) && from < next
      ensures active != [] ==> Users(active) == Users(reports[next - 1])
      ensures Wakeup in active ==> Wakeup in reports[next - 1] && eventfd > 0 && !edge
      ensures from < next && Wakeup in reports[next - 1] && Wakeup !in active ==> !Fires()
      ensures NothingIn(reports, from, if active == [] then next else next - 1, old(Fires()))
      ensures active == [] ==> OwnSteps(old(trace), trace)
      ensures active != [] ==> |trace| > |old(trace)| && OwnSteps(old(trace), trace[..|trace| - 1])
                               && trace[|trace| - 1] == PollReturn(active)
      ensures st.started == old(st.started) && st.quiet == old(st.quiet)
      ensures old(st.pending) <= st.pending && old(st.queued) <= st.queued
      ensures callingPendingFunctors == old(callingPendingFunctors) && eventHandling == old(eventHandling)
    {
      next := from;
      active := [];
      while next < |reports|
        invariant from <= next <= |reports| && active == []
        invariant Valid() && Idle(st) && st.pc == Polling
        invariant OwnSteps(old(trace), trace) && (old(Fires()) ==> Fires())
        invariant NothingIn(reports, from, next, old(Fires()))
        invariant from < next && Wakeup in reports[next - 1] ==> !Fires()
        invariant st.started == old(st.started) && st.quiet == old(st.quiet)
        invariant old(st.pending) <= st.pending && old(st.queued) <= st.queued
        invariant callingPendingFunctors == old(callingPendingFunctors) && eventHandling == old(eventHandling)
      {
        active := Look(reports[next]);
        next := next + 1;
        if active != [] {
          return;
        }
      }
    }

    /** The eventfd is readable, and its edge is up. */
    predicate Fires()
      reads this
    {
      edge && eventfd > 0
    }

    /** One answer of the kernel, after other threads have gone on for a while. */
    method Look(report: seq<Channel>) returns (active: seq<Channel>)
      requires Valid() && Idle(st) && st.pc == Polling
      modifies this
      ensures Valid() && Idle(st)
      ensures active == [] ==> st.pc == Polling && OwnSteps(old(trace), trace) && (old(Fires()) ==> Fires())
      ensures active == [] ==> Users(report) == [] && (Wakeup in report ==> !Fires())
      ensures active != [] ==> st.pc == Handling(active) && Users(active) == Users(report)
      ensures active != [] ==> |trace| > |old(trace)| && OwnSteps(old(trace), trace[..|trace| - 1])
                               && trace[|trace| - 1] == PollReturn(active)
      ensures Wakeup in active ==> Wakeup in report && eventfd > 0 && !edge
      ensures active != [] && Wakeup in report && Wakeup !in active ==> !Fires()
      ensures st.started == old(st.started) && st.quiet == old(st.quiet)
      ensures old(st.pending) <= st.pending && old(st.queued) <= st.queued
      ensures callingPendingFunctors == old(callingPendingFunctors) && eventHandling == old(eventHandling)
    {
      OtherThreads();
      active := Reportable(report, Fires());
      ReportableExactly(report, Fires());
      if active != [] {
        Report(active);
      }
    }

    /** epoll_wait reports: the edge is consumed, and the interest of the wakeup channel cleared. */
    method Report(active: seq<Channel>)
      requires Valid() && Idle(st) && st.pc == Polling && CanReport(st, active)
      modifies this
      ensures Valid() && st == Apply(old(st), PollReturn(active)) && trace == old(trace) + [PollReturn(active)]
      ensures callingPendingFunctors == old(callingPendingFunctors) && eventHandling == old(eventHandling)
    {
      edge := edge && Wakeup !in active;
      wakeupEvents := if Wakeup in active then 0 else wakeupEvents;
      Step(PollReturn(active));
    }

    /** One turn of the loop, from a non-empty report to the next test of quit_. */
    method Turn(active: seq<Channel>)
      requires Valid() && Idle(st) && st.pc == Handling(active)
      modifies this
      ensures OwnSteps(old(trace), trace)
      ensures Valid() && Idle(st) && st.pc == CheckQuit && st.quiet == 0
      ensures !callingPendingFunctors && !eventHandling
      ensures old(st.started) <= st.started
      ensures old(pendingFunctors) <= st.started[|old(st.started)|..]
    {
      HandleActive(active);
      ghost var batch := DoPendingFunctors();
      OtherThreads();
      Step(Loop);
      OtherThreads();
    }

    /** loop(): the reports are those of the kernel, and the method returns when loop() does or when the
        thread is left blocked in poll for good. It leaves only because of a quit; where it blocks,
        functors that wait were queued by a thread whose wakeup is still on its way. */
    method RunLoop(reports: seq<seq<Channel>>) returns (n: nat)
      requires Valid() && Idle(st) && !looping
      modifies this
      ensures Valid() && Idle(st) && n <= |reports| && (looping ==> n == |reports|)
      ensures LoopRun(old(trace), trace)
      ensures Legal(old(st), trace[|old(trace)|..]) && Exec(old(st), trace[|old(trace)|..]) == st
      ensures Reported(trace[|old(trace)|..]) == AllUsers(reports[..n])
      ensures D.NoQuitLeft(old(st)) && (forall c :: c in AllUsers(reports) ==> c.User? && D.NoQuit(c.script)) ==>
                looping
      ensures !looping ==> quitFlag
      ensures looping ==> st.pc == Polling
      ensures looping && |pendingFunctors| > st.quiet ==> Woken(st) || Owing(st)
      ensures looping && quitFlag ==> Woken(st) || Owing(st)
      ensures st.queued == st.started + pendingFunctors
      ensures old(st.quiet) == 0 ==> st.quiet == 0
      ensures !callingPendingFunctors && !eventHandling
    {
      Start();
      n := Turns(reports);
      LoopIsRun(origin, old(trace), trace, reports, n);
      NeverLeft(old(st), trace[|old(trace)|..], reports, n);
    }

    /** The loop of loop(). */
    method Turns(reports: seq<seq<Channel>>) returns (n: nat)
      requires Valid() && Idle(st) && st.pc == CheckQuit && !callingPendingFunctors && !eventHandling
      modifies this
      ensures Valid() && Idle(st) && n <= |reports| && (looping ==> n == |reports|)
      ensures !looping ==> quitFlag
      ensures looping ==> st.pc == Polling
      ensures looping && |pendingFunctors| > st.quiet ==> Woken(st) || Owing(st)
      ensures looping && quitFlag ==> Woken(st) || Owing(st)
      ensures st.queued == st.started + pendingFunctors
      ensures old(st.quiet) == 0 ==> st.quiet == 0
      ensures !callingPendingFunctors && !eventHandling
      ensures StepsAndReports(old(trace), trace)
      ensures Reported(trace) == Reported(old(trace)) + AllUsers(reports[..n])
    {
      OtherThreads();
      OwnReportsNothing(old(trace), trace);
      n := 0;
      assert AllUsers(reports[..0]) == [];
      while !quitFlag
        invariant Valid() && Idle(st) && st.pc == CheckQuit && n <= |reports|
        invariant old(st.quiet) == 0 ==> st.quiet == 0
        invariant !callingPendingFunctors && !eventHandling
        invariant StepsAndReports(old(trace), trace)
        invariant Reported(trace) == Reported(old(trace)) + AllUsers(reports[..n])
        decreases |reports| - n
      {
        ghost var before, from := trace, n;
        var blocked;
        blocked, n := OneTurn(reports, n);
        AllUsersAppend(reports, from, n);
        if blocked {
          BlockedFacts();
          return;
        }
      }
      ghost var before := trace;
      Leave();
      OwnReportsNothing(before, trace);
    }

    /** From a test of quit_ that has found it false to the next one, or to where the thread stays blocked. */
    method OneTurn(reports: seq<seq<Channel>>, from: nat) returns (blocked: bool, n: nat)
      requires Valid() && Idle(st) && st.pc == CheckQuit && !quitFlag && from <= |reports|
      requires !callingPendingFunctors && !eventHandling
      modifies this
      ensures Valid() && Idle(st) && from <= n <= |reports|
      ensures blocked ==> st.pc == Polling && n == |reports|
      ensures !blocked ==> st.pc == CheckQuit && from < n
      ensures old(st.quiet) == 0 ==> st.quiet == 0
      ensures !callingPendingFunctors && !eventHandling
      ensures StepsAndReports(old(trace), trace)
      ensures Reported(trace) == Reported(old(trace)) + AllUsers(reports[from..n])
    {
      Step(Loop);
      OwnReportsNothing(old(trace), trace);
      ghost var start, fires := trace, Fires();
      var active;
      active, n := Poll(reports, from);
      blocked := active == [];
      if blocked {
        OwnReportsNothing(start, trace);
        SilentReports(reports, from, n, fires);
      } else {
        PollReports(reports, from, n, fires, active, start, trace);
        PollSteps(start, trace);
        ghost var before := trace;
        Turn(active);
        OwnReportsNothing(before, trace);
      }
    }

    /** looping_ = false. */
    method Leave()
      requires Valid() && Idle(st) && st.pc == CheckQuit && quitFlag
      modifies this
      ensures OwnSteps(old(trace), trace)
      ensures Valid() && !looping && st == old(st).(pc := Outside)
      ensures st.queued == st.started + pendingFunctors
      ensures callingPendingFunctors == old(callingPendingFunctors) && eventHandling == old(eventHandling)
    {
      TracedIsReachable();
      ReachableInv(st);
      looping := false;
      Step(Loop);
    }

    lemma BlockedFacts()
      requires Valid() && st.pc == Polling
      ensures |pendingFunctors| > st.quiet ==> Woken(st) || Owing(st)
      ensures quitFlag ==> Woken(st) || Owing(st)
      ensures st.queued == st.started + pendingFunctors
    {
      TracedIsReachable();
      ReachableInv(st);
    }

    /** The first statements of loop(), up to the reset of quit_. */
    method Start()
      requires Valid() && Idle(st) && !looping
      modifies this
      ensures Valid() && looping && !quitFlag && st == old(st).(pc := CheckQuit, quit := false)
      ensures trace == old(trace) + [Enter]
      ensures !callingPendingFunctors && !eventHandling
    {
      looping := true;
      quitFlag := false;
      Step(Enter);
    }
  }

  lemma OneMore(s: State, es: seq<Event>, e: Event)
    requires Legal(s, es) && Enabled(Exec(s, es), e)
    ensures Legal(s, es + [e]) && Exec(s, es + [e]) == Apply(Exec(s, es), e)
  {
    assert [e][1..] == [];
    ExecAppend(s, es, [e]);
  }

  /** Between the two traces nothing was reported, loop() was not entered, and no foreign code ran. */
  ghost predicate OwnSteps(before: seq<Event>, after: seq<Event>) {
    before <= after && forall i :: |before| <= i < |after| ==> Own(after[i])
  }

  predicate Own(e: Event) {
    e.Loop? || e.ThreadCall? || e.ThreadWrite?
  }

  /** Nothing but steps of the loop and of other threads, and reports. */
  ghost predicate StepsAndReports(before: seq<Event>, after: seq<Event>) {
    before <= after && forall i :: |before| <= i < |after| ==> Own(after[i]) || after[i].PollReturn?
  }

  /** loop() was entered first, and then there were only such steps and reports. */
  ghost predicate LoopRun(before: seq<Event>, after: seq<Event>) {
    |before| < |after| && StepsAndReports(before + [Enter], after)
  }

  /** The program's own channels of a report, in order. */
  function Users(report: seq<Channel>): seq<Channel> {
    if report == [] then [] else (if report[0].User? then [report[0]] else []) + Users(report[1..])
  }

  lemma {:induction false} UsersAppend(a: seq<Channel>, b: seq<Channel>)
    ensures Users(a + b) == Users(a) + Users(b)
  {
    if a == [] {
      assert a + b == b;
    } else {
      assert (a + b)[1..] == a[1..] + b;
      UsersAppend(a[1..], b);
    }
  }

  /** With UsersAppend, all there is to know about Users. */
  lemma UsersOfOne(c: Channel)
    ensures Users([c]) == if c.Wakeup? then [] else [c]
  {
    assert [c][1..] == [];
  }

  /** The program's own channels of several reports, one after the other. */
  function AllUsers(reports: seq<seq<Channel>>): seq<Channel> {
    if reports == [] then [] else AllUsers(reports[..|reports| - 1]) + Users(reports[|reports| - 1])
  }

  lemma {:induction false} AllUsersAppend(reports: seq<seq<Channel>>, from: nat, n: nat)
    requires from <= n <= |reports|
    ensures AllUsers(reports[..n]) == AllUsers(reports[..from]) + AllUsers(reports[from..n])
    decreases n
  {
    if from < n {
      assert reports[..n][..n - 1] == reports[..n - 1];
      assert reports[from..n][..n - 1 - from] == reports[from..n - 1];
      AllUsersAppend(reports, from, n - 1);
    }
  }

  /** The program's own channels that poll has returned in a run, in order. */
  function Reported(es: seq<Event>): seq<Channel> {
    if es == [] then [] else
      var e := es[|es| - 1];
      Reported(es[..|es| - 1]) + if e.PollReturn? then Users(e.active) else []
  }

  lemma {:induction false} ReportedAppend(a: seq<Event>, b: seq<Event>)
    ensures Reported(a + b) == Reported(a) + Reported(b)
    decreases b
  {
    if b == [] {
      assert a + b == a;
    } else {
      assert (a + b)[..|a + b| - 1] == a + b[..|b| - 1];
      ReportedAppend(a, b[..|b| - 1]);
    }
  }

  lemma {:induction false} OwnReportsNothing(before: seq<Event>, after: seq<Event>)
    requires OwnSteps(before, after)
    ensures Reported(after) == Reported(before)
    decreases |after|
  {
    if |before| < |after| {
      OwnReportsNothing(before, after[..|after| - 1]);
    } else {
      assert before == after;
    }
  }

  /** These reports have nothing to deliver: no channel of the program, and the wakeup channel only where it
      does not fire. */
  ghost predicate NothingIn(reports: seq<seq<Channel>>, from: nat, n: nat, fires: bool)
    requires n <= |reports|
  {
    forall i :: from <= i < n ==> Users(reports[i]) == [] && (Wakeup in reports[i] ==> !fires)
  }

  lemma {:induction false} SilentReports(reports: seq<seq<Channel>>, from: nat, n: nat, fires: bool)
    requires from <= n <= |reports| && NothingIn(reports, from, n, fires)
    ensures AllUsers(reports[from..n]) == []
    decreases n
  {
    if from < n {
      assert reports[from..n][..n - 1 - from] == reports[from..n - 1];
      SilentReports(reports, from, n - 1, fires);
    }
  }

  /** What a call of poll adds to what was reported. */
  lemma PollReports(
    reports: seq<seq<Channel>>, from: nat, n: nat, fires: bool, active: seq<Channel>,
    before: seq<Event>, after: seq<Event>)
    requires from < n <= |reports| && NothingIn(reports, from, n - 1, fires)
    requires |after| > |before| && OwnSteps(before, after[..|after| - 1])
    requires after[|after| - 1] == PollReturn(active) && Users(active) == Users(reports[n - 1])
    ensures Reported(after) == Reported(before) + AllUsers(reports[from..n])
  {
    ReportedLast(before, after, active);
    SilentReports(reports, from, n - 1, fires);
    AllUsersLast(reports, from, n);
    assert AllUsers(reports[from..n]) == Users(active);
  }

  lemma ReportedLast(before: seq<Event>, after: seq<Event>, active: seq<Channel>)
    requires after != [] && OwnSteps(before, after[..|after| - 1]) && after[|after| - 1] == PollReturn(active)
    ensures Reported(after) == Reported(before) + Users(active)
  {
    OwnReportsNothing(before, after[..|after| - 1]);
  }

  lemma AllUsersLast(reports: seq<seq<Channel>>, from: nat, n: nat)
    requires from < n <= |reports|
    ensures AllUsers(reports[from..n]) == AllUsers(reports[from..n - 1]) + Users(reports[n - 1])
  {
    assert reports[from..n][..n - 1 - from] == reports[from..n - 1];
  }

  lemma PollSteps(before: seq<Event>, after: seq<Event>)
    requires |after| > |before| && OwnSteps(before, after[..|after| - 1]) && after[|after| - 1].PollReturn?
    ensures StepsAndReports(before, after)
  {
    var p := after[..|after| - 1];
    assert forall i :: 0 <= i < |p| ==> p[i] == after[i];
  }

  lemma TraceIsRun(s: State, before: seq<Event>, after: seq<Event>)
    requires Legal(s, before) && Legal(s, after) && before <= after
    ensures Legal(Exec(s, before), after[|before|..])
    ensures Exec(Exec(s, before), after[|before|..]) == Exec(s, after)
  {
    assert after == before + after[|before|..];
    ExecAppend(s, before, after[|before|..]);
  }

  lemma LoopIsRun(s: State, before: seq<Event>, after: seq<Event>, reports: seq<seq<Channel>>, n: nat)
    requires Legal(s, before) && Legal(s, after) && StepsAndReports(before + [Enter], after)
    requires n <= |reports| && Reported(after) == Reported(before + [Enter]) + AllUsers(reports[..n])
    ensures var es := after[|before|..];
            && LoopRun(before, after) && LoopRun([], es) && Reported(es) == AllUsers(reports[..n])
            && Legal(Exec(s, before), es) && Exec(Exec(s, before), es) == Exec(s, after)
  {
    var es := after[|before|..];
    assert before <= before + [Enter] <= after;
    assert after == before + es;
    TraceIsRun(s, before, after);
    assert es[0] == Enter && forall i :: 0 < i < |es| ==> es[i] == after[|before| + i];
    LoopReports(before, es, AllUsers(reports[..n]));
  }

  lemma LoopReports(before: seq<Event>, es: seq<Event>, users: seq<Channel>)
    requires Reported(before + es) == Reported(before + [Enter]) + users
    ensures Reported(es) == users
  {
    ReportedAppend(before, es);
    ReportedAppend(before, [Enter]);
    assert Reported([Enter]) == Reported([Enter][..0]) + [];
    var r := Reported(before);
    assert r + Reported(es) == r + users;
    assert Reported(es) == (r + Reported(es))[|r|..] && users == (r + users)[|r|..];
  }

  lemma {:induction false} ReportedIsMild(es: seq<Event>)
    requires forall e :: e in es ==> Own(e) || e.PollReturn?
    requires forall c :: c in Reported(es) ==> c.User? && D.NoQuit(c.script)
    ensures forall e :: e in es ==> D.Mild(e)
  {
    if es != [] {
      var p, e := es[..|es| - 1], es[|es| - 1];
      assert es == p + [e] && e in es;
      assert forall x :: x in p ==> x in es;
      ReportedIsMild(p);
      if e.PollReturn? {
        forall c | c in e.active && c.User? ensures D.NoQuit(c.script) {
          UsersContain(e.active, c);
        }
      }
    }
  }

  lemma {:induction false} UsersContain(report: seq<Channel>, c: Channel)
    ensures c in Users(report) <==> c in report && c.User?
  {
    if report != [] {
      UsersContain(report[1..], c);
    }
  }

  /** Where no quit is left to be called and no report quits, loop() is never left. */
  lemma NeverLeft(s: State, es: seq<Event>, reports: seq<seq<Channel>>, n: nat)
    requires s.pc.Outside? && Idle(s) && Legal(s, es) && LoopRun([], es)
    requires n <= |reports| && Reported(es) == AllUsers(reports[..n])
    ensures D.NoQuitLeft(s) && (forall c :: c in AllUsers(reports) ==> c.User? && D.NoQuit(c.script)) ==>
              !Exec(s, es).pc.Outside?
  {
    if D.NoQuitLeft(s) && (forall c :: c in AllUsers(reports) ==> c.User? && D.NoQuit(c.script)) {
      var rest := es[1..];
      assert es == [Enter] + rest;
      ReportedAppend([Enter], rest);
      assert Reported([Enter]) == [];
      AllUsersAppend(reports, n, |reports|);
      assert reports[..|reports|] == reports;
      assert forall e :: e in rest ==> Own(e) || e.PollReturn?;
      ReportedIsMild(rest);
      D.EarlyQuitIsNeverHonoured(s, rest);
    }
  }

  /** The functors that the handler of an active channel calls directly. */
  function RanByHandler(channel: Channel): seq<nat> {
    if channel.Wakeup? then [] else RanByActs(channel.script)
  }

  function RanByHandlers(active: seq<Channel>): seq<nat> {
    if active == [] then [] else RanByHandler(active[0]) + RanByHandlers(active[1..])
  }

  lemma NextCall(ran: seq<nat>, acts: seq<Action>, rest: seq<Action>)
    requires acts != []
    ensures (acts + rest)[0] == acts[0] && (acts + rest)[1..] == acts[1..] + rest
    ensures ran + RanByActs(acts) == ran + ActRan(acts[0]) + RanByActs(acts[1..])
  {
    assert (acts + rest)[1..] == acts[1..] + rest;
    Regroup(ran, ActRan(acts[0]), RanByActs(acts[1..]));
  }

  lemma Regroup(a: seq<nat>, b: seq<nat>, c: seq<nat>)
    ensures a + (b + c) == a + b + c
  {}

  lemma NextHandler(ran: seq<nat>, active: seq<Channel>, i: nat)
    requires i < |active|
    ensures active[i..] == [active[i]] + active[i + 1..]
    ensures ran + RanByHandlers(active[i..]) == ran + RanByHandler(active[i]) + RanByHandlers(active[i + 1..])
  {
    assert active[i..] == [active[i]] + active[i + 1..];
  }

  lemma RanAllSnoc(fs: seq<Functor>, i: nat)
    requires i < |fs|
    ensures RanAll(fs[..i + 1]) == RanAll(fs[..i]) + RanBy(fs[i])
  {
    RanAllAppend(fs[..i], [fs[i]]);
    assert RanAll([fs[i]]) == RanBy(fs[i]) + RanAll([fs[i]][1..]);
    assert fs[..i + 1] == fs[..i] + [fs[i]];
  }

  /** What epoll_wait makes of a report: each descriptor at most once, the eventfd only if it fires. */
  function Reportable(report: seq<Channel>, woken: bool): (active: seq<Channel>)
    ensures Wakeup in active ==> woken
    ensures forall i, j :: 0 <= i < j < |active| && active[i].Wakeup? ==> !active[j].Wakeup?
    ensures forall c :: c in active ==> c in report
  {
    if report == [] then []
    else if report[0].User? then [report[0]] + Reportable(report[1..], woken)
    else if woken then [Wakeup] + Reportable(report[1..], false)
    else Reportable(report[1..], false)
  }

  /** All of the program's channels get through, in order, and the wakeup channel exactly if it is reported
      and fires. */
  lemma {:induction false} ReportableExactly(report: seq<Channel>, woken: bool)
    ensures Users(Reportable(report, woken)) == Users(report)
    ensures Wakeup in Reportable(report, woken) <==> woken && Wakeup in report
    ensures Reportable(report, woken) == [] ==> Users(report) == []
  {
    if report != [] {
      ReportableExactly(report[1..], woken);
      ReportableExactly(report[1..], false);
    }
  }

  /** Where the wakeup channel fires, or is not in it, a report gets through as it is. */
  lemma {:induction false} ReportableIsReport(report: seq<Channel>, woken: bool)
    requires woken || Wakeup !in report
    requires forall i, j :: 0 <= i < j < |report| && report[i].Wakeup? ==> !report[j].Wakeup?
    ensures Reportable(report, woken) == report
  {
    if report != [] {
      if report[0].Wakeup? {
        assert Wakeup !in report[1..];
        ReportableIsReport(report[1..], false);
      } else {
        ReportableIsReport(report[1..], woken);
      }
    }
  }
}
