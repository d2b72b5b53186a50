/** What every interleaving of the loop with other threads keeps. */
module LoopSafety {
  import opened Functors
  import opened LoopProtocol

  /** The functors of the current batch that have not been called yet. */
  function Batch(s: State): seq<Functor> {
    if s.pc.Calling? then s.pc.batch else []
  }

  /** Some thread is between its push (or store) and its write to the eventfd. */
  ghost predicate Owing(s: State) {
    s.owes || exists t :: 0 <= t < |s.threads| && s.threads[t].owes
  }

  /** The loop is in a state from which it swaps the pending list out before it polls again. */
  predicate SwapAhead(s: State) {
    s.pc.Handling? || s.pc.Swapping?
  }

  ghost predicate Inv(s: State) {
    // the loop thread owes a write, or executes a callback, only where callbacks run
    && (s.pc.CheckQuit? || s.pc.Polling? || s.pc.Swapping? ==> Idle(s))
    && (s.owes ==> s.pc.Calling?)
    && s.counter <= EVENTFD_MAX
    // a non-zero eventfd has an undelivered edge, unless handleRead is about to drain it
    && (s.counter > 0 ==> s.ready || (s.pc.Handling? && Wakeup in s.pc.active))
    && s.quiet <= |s.pending|
    && (!SwapAhead(s) && |s.pending| > s.quiet ==> s.counter > 0 || Owing(s))
    && (s.pc.Polling? && s.quit ==> s.polls == 0 && (s.counter > 0 || Owing(s)))
    && (s.quit ==> s.polls <= 1)
    && s.queued == s.started + Batch(s) + s.pending
  }

  lemma InitInv(s: State)
    requires Init(s)
    ensures Inv(s)
  {}

  // ---------- The invariant is kept by every event ----------

  lemma WriteInv(s: State, t: nat)
    requires Inv(s) && Enabled(s, ThreadWrite(t))
    ensures Inv(Apply(s, ThreadWrite(t)))
  {}

  lemma CallInv(s: State, t: nat)
    requires Inv(s) && Enabled(s, ThreadCall(t))
    ensures Inv(Apply(s, ThreadCall(t)))
  {
    var s' := Apply(s, ThreadCall(t));
    assert s'.threads[t].owes;
    assert s.threads[t].script[0].Quit? || s'.queued == s'.started + Batch(s') + s'.pending;
  }

  lemma OwingKept(s: State, s': State)
    requires s.threads == s'.threads && (s.owes ==> s'.owes)
    ensures Owing(s) ==> Owing(s')
  {}

  lemma ActInv(s: State)
    requires Inv(s) && s.todo != [] && !s.owes
    ensures Inv(Act(s))
  {
    var s' := Act(s);
    OwingKept(s, s');
    if s.todo[0].Queue? {
      assert s'.queued == s'.started + Batch(s') + s'.pending;
    }
  }

  lemma CallingInv(s: State)
    requires Inv(s) && Idle(s) && s.pc.Calling?
    ensures Inv(Advance(s))
  {
    var batch := s.pc.batch;
    OwingKept(s, Advance(s));
    if batch != [] {
      assert s.started + batch == s.started + [batch[0]] + batch[1..];
    }
  }

  lemma AdvanceInv(s: State)
    requires Inv(s) && Idle(s) && !s.pc.Outside? && !s.pc.Polling? && !s.pc.Calling?
    ensures Inv(Advance(s))
  {
    OwingKept(s, Advance(s));
    if s.pc.Swapping? {
      assert s.started + [] + s.pending == s.started + s.pending + [];
    }
  }

  lemma StepInv(s: State, e: Event)
    requires Inv(s) && Enabled(s, e)
    ensures Inv(Apply(s, e))
  {
    match e
    case Loop =>
      if !s.owes {
        if s.todo != [] { ActInv(s); } else if s.pc.Calling? { CallingInv(s); } else { AdvanceInv(s); }
      }
    case ThreadCall(t) => CallInv(s, t);
    case ThreadWrite(t) => WriteInv(s, t);
    case _ => OwingKept(s, Apply(s, e));
  }

  lemma {:induction false} RunInv(s: State, es: seq<Event>)
    requires Inv(s) && Legal(s, es)
    ensures Inv(Exec(s, es))
    decreases es
  {
    if es != [] {
      StepInv(s, es[0]);
      RunInv(Apply(s, es[0]), es[1..]);
    }
  }

  /** s can be reached from a fresh loop by some interleaving. */
  ghost predicate Reachable(s: State) {
    exists s0: State, es: seq<Event> :: Init(s0) && Legal(s0, es) && Exec(s0, es) == s
  }

  lemma ReachableInv(s: State)
    requires Reachable(s)
    ensures Inv(s)
  {
    var s0: State, es: seq<Event> :| Init(s0) && Legal(s0, es) && Exec(s0, es) == s;
    InitInv(s0);
    RunInv(s0, es);
  }

  lemma ReachableExtends(s: State, es: seq<Event>)
    requires Reachable(s) && Legal(s, es)
    ensures Reachable(Exec(s, es))
  {
    var s0: State, a: seq<Event> :| Init(s0) && Legal(s0, a) && Exec(s0, a) == s;
    ExecAppend(s0, a, es);
    assert Legal(s0, a + es) && Exec(s0, a + es) == Exec(s, es);
  }

  lemma StepReaches(s: State, e: Event)
    requires Reachable(s) && Enabled(s, e)
    ensures Reachable(Apply(s, e))
  {
    assert [e][1..] == [] && Legal(Apply(s, e), []);
    assert Legal(s, [e]) && Exec(s, [e]) == Apply(s, e);
    ReachableExtends(s, [e]);
  }

  // ---------- No lost wakeup ----------

  /** If the loop is blocked in poll while a functor waits that was not queued quietly, then the
      eventfd is about to wake it, or the thread that will write the eventfd has not done so yet.
      This holds also when the eventfd is full and the write fails. */
  lemma NoLostWakeup(s: State)
    requires Reachable(s) && s.pc.Polling? && |s.pending| > s.quiet
    ensures Woken(s) || exists t :: 0 <= t < |s.threads| && s.threads[t].owes
    ensures Woken(s) ==> Enabled(s, PollReturn([Wakeup]))
  {
    ReachableInv(s);
  }

  /** No other thread has anything left to do. */
  predicate ThreadsDone(s: State) {
    forall t :: 0 <= t < |s.threads| ==> s.threads[t] == Thread([], false)
  }

  /** The loop is blocked, and only an event on one of the program's own descriptors can unblock it. */
  predicate Dead(s: State) {
    s.pc.Polling? && !Woken(s) && ThreadsDone(s)
  }

  /** A functor is stranded in a blocked loop exactly when it was queued quietly. */
  lemma StrandedExactlyWhenQuiet(s: State)
    requires Reachable(s) && Dead(s)
    ensures |s.pending| == s.quiet && !s.quit
  {
    ReachableInv(s);
  }

  /** Queueing a functor from the expired-timer phase does strand it: the loop then blocks with the
      functor in its list, whatever the functor and whatever happened before. */
  lemma QuietQueueStrands(s: State, f: Functor)
    requires Reachable(s) && s.pc.Expiring? && s.todo == [Queue(f)] && !s.quit
    requires ThreadsDone(s) && s.counter == 0
    ensures Legal(s, [Loop, Loop, Loop])
    ensures Dead(Exec(s, [Loop, Loop, Loop])) && f in Exec(s, [Loop, Loop, Loop]).pending
  {
    ReachableInv(s);
    var s1 := Apply(s, Loop);
    var s2 := Apply(s1, Loop);
    var s3 := Apply(s2, Loop);
    assert s1.pending[|s1.pending| - 1] == f;
    assert Legal(s3, []) && Exec(s3, []) == s3;
    Prepend(s2, Loop, []);
    Prepend(s1, Loop, [Loop]);
    Prepend(s, Loop, [Loop, Loop]);
    assert [Loop] + [] == [Loop] && [Loop] + [Loop] == [Loop, Loop] && [Loop] + [Loop, Loop] == [Loop, Loop, Loop];
  }

  /** So does queueing on the loop thread before loop() is entered, which is what a program does that sets
      up its loop: the loop is entered and blocks with the functor in its list. */
  lemma QueueBeforeLoopStrands(s: State, f: Functor)
    requires Reachable(s) && s.pc.Outside? && Idle(s) && ThreadsDone(s) && s.counter == 0
    ensures var es := [Callback([Queue(f)]), Loop, Enter, Loop];
            Legal(s, es) && Dead(Exec(s, es)) && Exec(s, es).pending == s.pending + [f] && !Exec(s, es).quit
  {
    ReachableInv(s);
    var s1 := Apply(s, Callback([Queue(f)]));
    var s2 := Apply(s1, Loop);
    var s3 := Apply(s2, Enter);
    var s4 := Apply(s3, Loop);
    assert Legal(s4, []) && Exec(s4, []) == s4;
    Prepend(s3, Loop, []);
    Prepend(s2, Enter, [Loop]);
    Prepend(s1, Loop, [Enter, Loop]);
    Prepend(s, Callback([Queue(f)]), [Loop, Enter, Loop]);
    assert [Loop] + [] == [Loop] && [Enter] + [Loop] == [Enter, Loop];
    assert [Loop] + [Enter, Loop] == [Loop, Enter, Loop];
    assert [Callback([Queue(f)])] + [Loop, Enter, Loop] == [Callback([Queue(f)]), Loop, Enter, Loop];
  }

  /** No functor is queued by the loop thread outside handlers and functors. */
  predicate Loud(s: State, es: seq<Event>)
    requires Legal(s, es)
    decreases es
  {
    es == [] ||
    (!(es[0].Loop? && !s.owes && s.todo != [] && s.todo[0].Queue? && (s.pc.Outside? || s.pc.Expiring?))
     && Loud(Apply(s, es[0]), es[1..]))
  }

  /** With that premise nothing is ever stranded. */
  lemma {:induction false} LoudNeverStrands(s: State, es: seq<Event>)
    requires Inv(s) && s.quiet == 0 && Legal(s, es) && Loud(s, es)
    ensures Exec(s, es).quiet == 0
    ensures Exec(s, es).pc.Polling? && Exec(s, es).pending != [] ==> Woken(Exec(s, es)) || Owing(Exec(s, es))
    decreases es
  {
    if es != [] {
      StepInv(s, es[0]);
      LoudNeverStrands(Apply(s, es[0]), es[1..]);
    }
  }

  // ---------- Quit ----------

  /** Once set, quit_ stays set until loop() is entered again. */
  lemma {:induction false} QuitSticks(s: State, es: seq<Event>)
    requires s.quit && Legal(s, es) && Enter !in es
    ensures Exec(s, es).quit
    decreases es
  {
    if es != [] {
      assert forall e :: e in es[1..] ==> e in es;
      QuitSticks(Apply(s, es[0]), es[1..]);
    }
  }

  /** A quit issued by anyone, at any point, and not followed by an entry to loop(): the loop is never
      blocked without a wakeup on its way, and poll has returned at most once since. */
  lemma QuitIsNeverMissed(s: State, es: seq<Event>)
    requires Reachable(s) && s.quit && Legal(s, es) && Enter !in es
    ensures Exec(s, es).quit && Exec(s, es).polls <= 1
    ensures Exec(s, es).pc.Polling? ==> Exec(s, es).polls == 0 && (Woken(Exec(s, es)) || Owing(Exec(s, es)))
  {
    QuitSticks(s, es);
    ReachableExtends(s, es);
    ReachableInv(Exec(s, es));
  }

  /** The loop leaves loop() only because quit_ is set. */
  lemma ExitOnlyByQuit(s: State, e: Event)
    requires Enabled(s, e) && !s.pc.Outside? && Apply(s, e).pc.Outside?
    ensures s.quit && s.pc.CheckQuit? && e.Loop?
  {}

  // ---------- Conservation ----------

  /** Every functor ever queued, in lock order, is exactly: those called so far, then the rest of the
      batch, then the pending list. Nothing is lost, duplicated or reordered. */
  lemma NothingLostOrReordered(s: State)
    requires Reachable(s)
    ensures s.queued == s.started + Batch(s) + s.pending
    ensures s.started <= s.queued
  {
    ReachableInv(s);
  }

  lemma StepGrows(s: State, e: Event)
    requires Enabled(s, e)
    ensures s.queued <= Apply(s, e).queued && s.started <= Apply(s, e).started && s.ran <= Apply(s, e).ran
  {}

  /** What was queued, started and called is never taken back. */
  lemma {:induction false} HistoryGrows(s: State, es: seq<Event>)
    requires Legal(s, es)
    ensures s.queued <= Exec(s, es).queued && s.started <= Exec(s, es).started && s.ran <= Exec(s, es).ran
    decreases es
  {
    if es != [] {
      StepGrows(s, es[0]);
      HistoryGrows(Apply(s, es[0]), es[1..]);
    }
  }
}
