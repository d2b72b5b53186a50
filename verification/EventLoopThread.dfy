/** EventLoopThread: the start handshake between the thread that creates it and the thread that runs
    the loop, and the shutdown by its destructor, composed with the latch of Thread::start and with the
    loop's own protocol. */
module EventLoopThreads {
  import Latch
  import P = LoopProtocol
  import S = LoopSafety
  import D = LoopDrain
  import opened Functors

  /** The creating thread: in startLoop (creating the thread, waiting for its latch, testing loop_ under
      the mutex, asleep on the condition, woken), after it, and in the destructor. */
  datatype Creator =
    | NotStarted | Starting | Testing | Asleep | Woken | Started
    | Quitting | Stored | Joining | Joined | Gone

  /** The loop thread: threadFunc and what Thread runs before it. */
  datatype Looper =
    | Unborn | Born | HasTid | Constructing | Constructed | Published | InLoop | AfterLoop | Finished

  datatype State = State(
    creator: Creator,
    looper: Looper,
    loopPtr: bool,           // loop_ != NULL
    latch: Latch.State,      // the latch of Thread::start; its one waiter is the creator
    p: P.State)              // the loop; its thread 0 is the creator, which calls quit once

  datatype Event =
    | Create | LatchStep(l: Latch.Event) | StartReturns | Test | SpuriousWake
    | SetTid | LatchDown | Construct | Publish | EnterLoop | LoopReturns | ClearPtr
    | DtorTest | DtorStore | DtorWrite | Join
    | LoopEvent(e: P.Event)

  ghost predicate Init(s: State) {
    && s.creator.NotStarted? && s.looper.Unborn? && !s.loopPtr
    && s.latch == Latch.State(1, [Latch.Before])
    && P.Init(s.p) && |s.p.threads| > 0 && s.p.threads[0] == P.Thread([Quit], false)
  }

  /** startLoop has returned: from then on others can know the loop. */
  predicate Known(c: Creator) {
    c.Started? || c.Quitting? || c.Stored? || c.Joining? || c.Joined? || c.Gone?
  }

  /** Steps of the loop and of its other users. Before startLoop has returned no one else has a pointer
      to it: no thread calls it and no descriptor or timer of the program is registered with it. */
  predicate LoopEventOk(s: State, e: P.Event) {
    && P.Enabled(s.p, e)
    && (match e
        case Enter => false
        case ThreadCall(t) => t > 0 && Known(s.creator)
        case ThreadWrite(t) => t > 0
        case Callback(_) => s.looper.InLoop? && s.p.pc.Expiring? && Known(s.creator)
        case PollReturn(active) => s.looper.InLoop? && (Known(s.creator) || active == [P.Wakeup])
        case _ => s.looper.InLoop?)
  }

  predicate Enabled(s: State, e: Event) {
    match e
    case Create => s.creator.NotStarted?
    case LatchStep(l) => s.creator.Starting? && !l.CountDown? && Latch.Enabled(s.latch, l)
    case StartReturns => s.creator.Starting? && s.latch.waiters == [Latch.Returned]
    case Test => s.creator.Testing? || s.creator.Woken?
    case SpuriousWake => s.creator.Asleep?
    case SetTid => s.looper.Born?
    case LatchDown => s.looper.HasTid?
    case Construct => s.looper.Constructing?
    case Publish => s.looper.Constructed?
    case EnterLoop => s.looper.Published?
    case LoopReturns => s.looper.InLoop? && s.p.pc.Outside? && P.Idle(s.p)
    case ClearPtr => s.looper.AfterLoop?
    case DtorTest => s.creator.Started?
    case DtorStore => s.creator.Quitting? && P.Enabled(s.p, P.ThreadCall(0))
    case DtorWrite => s.creator.Stored? && P.Enabled(s.p, P.ThreadWrite(0))
    case Join => s.creator.Joining? && s.looper.Finished?
    case LoopEvent(l) => LoopEventOk(s, l)
  }

  function Apply(s: State, e: Event): State
    requires Enabled(s, e)
    requires e.EnterLoop? ==> P.Enabled(s.p, P.Enter)
  {
    match e
    case Create => s.(creator := Starting, looper := Born)
    case LatchStep(l) => s.(latch := Latch.Apply(s.latch, l))
    case StartReturns => s.(creator := Testing)
    case Test => s.(creator := if s.loopPtr then Started else Asleep)
    case SpuriousWake => s.(creator := Woken)
    case SetTid => s.(looper := HasTid)
    case LatchDown => s.(looper := Constructing, latch := Latch.Apply(s.latch, Latch.CountDown))
    case Construct => s.(looper := Constructed)
    // loop_ = &loop and the notification, in one critical section
    case Publish =>
      s.(looper := Published, loopPtr := true, creator := if s.creator.Asleep? then Woken else s.creator)
    case EnterLoop => s.(looper := InLoop, p := P.Apply(s.p, P.Enter))
    case LoopReturns => s.(looper := AfterLoop)
    case ClearPtr => s.(looper := Finished, loopPtr := false)
    case DtorTest => s.(creator := if s.loopPtr then Quitting else Gone)
    case DtorStore => s.(creator := Stored, p := P.Apply(s.p, P.ThreadCall(0)))
    case DtorWrite => s.(creator := Joining, p := P.Apply(s.p, P.ThreadWrite(0)))
    case Join => s.(creator := Joined)
    case LoopEvent(l) => s.(p := P.Apply(s.p, l))
  }

  // ---------- What every interleaving keeps ----------

  /** How far the loop thread is. */
  function Progress(l: Looper): nat {
    match l
    case Unborn => 0
    case Born => 1
    case HasTid => 2
    case Constructing => 3
    case Constructed => 4
    case Published => 5
    case InLoop => 6
    case AfterLoop => 7
    case Finished => 8
  }

  /** A loop that nobody knows: nothing has been asked of it. */
  predicate Untouched(p: P.State) {
    && !p.quit && p.pending == [] && p.todo == [] && !p.owes
    && (p.pc.Handling? ==> p.pc.active == [] || p.pc.active == [P.Wakeup])
    && (p.pc.Calling? ==> p.pc.batch == [])
    && forall t :: 0 <= t < |p.threads| ==> !p.threads[t].owes
  }

  /** What thread 0 of the loop still has to do, by the state of the creator. */
  predicate CreatorThread(c: Creator, t: P.Thread) {
    if c.Stored? then t == P.Thread([], true)
    else if c.Joining? || c.Joined? then t == P.Thread([], false)
    else t == P.Thread([Quit], false)
  }

  ghost predicate Inv(s: State) {
    && S.Reachable(s.p)
    && |s.p.threads| > 0 && CreatorThread(s.creator, s.p.threads[0])
    && |s.latch.waiters| == 1 && Latch.Inv(s.latch)
    && s.latch.count == (if Progress(s.looper) < 3 then 1 else 0)
    && (s.creator.NotStarted? <==> s.looper.Unborn?)
    // startLoop is past Thread::start only when the thread has its id
    && (!s.creator.NotStarted? && !s.creator.Starting? ==> Progress(s.looper) >= 3)
    && (s.creator.Asleep? ==> !s.loopPtr)
    && (s.loopPtr <==> 5 <= Progress(s.looper) <= 7)
    && (Progress(s.looper) < 6 ==> s.p.pc.Outside? && P.Idle(s.p))
    && (s.looper.InLoop? && s.p.pc.Outside? ==> s.p.quit)
    && (!Known(s.creator) ==> Untouched(s.p) && Progress(s.looper) <= 6)
    && (Known(s.creator) ==> Progress(s.looper) >= 5)
    && (s.creator.Joined? ==> s.looper.Finished?)
    && (Progress(s.looper) >= 7 ==> s.p.quit)
    // a quit that came before loop() was entered has not been erased yet
    && (Progress(s.looper) < 6 && (s.creator.Stored? || s.creator.Joining?) ==> s.p.quit)
  }

  lemma LoopEventKeepsThread0(s: State, e: P.Event)
    requires Inv(s) && LoopEventOk(s, e)
    ensures |P.Apply(s.p, e).threads| == |s.p.threads| && P.Apply(s.p, e).threads[0] == s.p.threads[0]
  {}

  lemma UntouchedKept(s: State, e: P.Event)
    requires Inv(s) && !Known(s.creator) && LoopEventOk(s, e)
    ensures Untouched(P.Apply(s.p, e)) && !P.Apply(s.p, e).pc.Outside?
  {
    assert s.looper.InLoop?;
    S.ReachableInv(s.p);
  }

  lemma LoopEventInv(s: State, e: P.Event)
    requires Inv(s) && LoopEventOk(s, e)
    ensures Inv(Apply(s, LoopEvent(e)))
  {
    S.StepReaches(s.p, e);
    LoopEventKeepsThread0(s, e);
    if !Known(s.creator) {
      UntouchedKept(s, e);
    }
    if !s.p.pc.Outside? && P.Apply(s.p, e).pc.Outside? {
      S.ExitOnlyByQuit(s.p, e);
    }
  }

  /** The steps of the creator in startLoop. */
  lemma StartInv(s: State, e: Event)
    requires Inv(s) && Enabled(s, e)
    requires e.Create? || e.LatchStep? || e.StartReturns? || e.Test? || e.SpuriousWake?
    ensures Inv(Apply(s, e))
  {
    match e
    case LatchStep(l) => Latch.StepInv(s.latch, l);
    case StartReturns => assert s.latch.waiters[0].Returned?;
    case _ =>
  }

  /** The steps of the loop thread outside loop(). */
  lemma LooperInv(s: State, e: Event)
    requires Inv(s) && Enabled(s, e)
    requires e.SetTid? || e.LatchDown? || e.Construct? || e.Publish? || e.LoopReturns? || e.ClearPtr?
    ensures Inv(Apply(s, e))
  {
    if e.LatchDown? {
      Latch.StepInv(s.latch, Latch.CountDown);
    }
  }

  lemma EnterInv(s: State)
    requires Inv(s) && Enabled(s, EnterLoop)
    ensures P.Enabled(s.p, P.Enter) && Inv(Apply(s, EnterLoop))
  {
    S.StepReaches(s.p, P.Enter);
  }

  /** The steps of the destructor. */
  lemma DtorInv(s: State, e: Event)
    requires Inv(s) && Enabled(s, e) && (e.DtorTest? || e.DtorStore? || e.DtorWrite? || e.Join?)
    ensures Inv(Apply(s, e))
  {
    match e
    case DtorStore => S.StepReaches(s.p, P.ThreadCall(0));
    case DtorWrite => S.StepReaches(s.p, P.ThreadWrite(0));
    case _ =>
  }

  lemma StepInv(s: State, e: Event)
    requires Inv(s) && Enabled(s, e)
    ensures e.EnterLoop? ==> P.Enabled(s.p, P.Enter)
    ensures Inv(Apply(s, e))
  {
    match e
    case LoopEvent(l) => LoopEventInv(s, l);
    case EnterLoop => EnterInv(s);
    case Create => StartInv(s, e);
    case LatchStep(_) => StartInv(s, e);
    case StartReturns => StartInv(s, e);
    case Test => StartInv(s, e);
    case SpuriousWake => StartInv(s, e);
    case DtorTest => DtorInv(s, e);
    case DtorStore => DtorInv(s, e);
    case DtorWrite => DtorInv(s, e);
    case Join => DtorInv(s, e);
    case _ => LooperInv(s, e);
  }

  predicate Legal(s: State, es: seq<Event>)
    decreases es
  {
    es == [] ||
    (Enabled(s, es[0]) && (es[0].EnterLoop? ==> P.Enabled(s.p, P.Enter)) && Legal(Apply(s, es[0]), es[1..]))
  }

  function Exec(s: State, es: seq<Event>): State
    requires Legal(s, es)
    decreases es
  {
    if es == [] then s else Exec(Apply(s, es[0]), es[1..])
  }

  lemma {:induction false} RunInv(s: State, es: seq<Event>)
    requires Inv(s) && Legal(s, es)
    ensures Inv(Exec(s, es))
    decreases es
  {
    if es != [] {
      StepInv(s, es[0]);
      RunInv(Apply(s, es[0]), es[1..]);
    }
  }

  lemma InitInv(s: State)
    requires Init(s)
    ensures Inv(s)
  {
    assert P.Legal(s.p, []) && P.Exec(s.p, []) == s.p;
  }

  // ---------- Start ----------

  /** Over every interleaving: startLoop gets past Thread::start only when the new thread has recorded
      its id; it returns only when threadFunc has built its loop and published it; and it is never left
      asleep while loop_ is set. */
  lemma StartIsSafe(s: State, es: seq<Event>)
    requires Init(s) && Legal(s, es)
    ensures var c, l := Exec(s, es).creator, Exec(s, es).looper;
            && (!c.NotStarted? && !c.Starting? ==> !l.Unborn? && !l.Born? && !l.HasTid?)
            && (Known(c) ==> l.Published? || l.InLoop? || l.AfterLoop? || l.Finished?)
            && (c.Asleep? ==> !Exec(s, es).loopPtr)
            && (c.Started? && !l.AfterLoop? && !l.Finished? ==> Exec(s, es).loopPtr)
  {
    InitInv(s);
    RunInv(s, es);
  }

  function LatchRank(w: Latch.Waiter): nat {
    match w
    case Before => 8
    case Woken => 7
    case Asleep => 6
    case Returned => 5
  }

  /** How far startLoop is from returning. */
  function StartRank(s: State): nat
    requires |s.latch.waiters| == 1
  {
    4 * (if Progress(s.looper) < 5 then 5 - Progress(s.looper) else 0)
    + (match s.creator
       case NotStarted => 9
       case Starting => LatchRank(s.latch.waiters[0])
       case Testing => 4
       case Woken => 3
       case Asleep => 2
       case _ => 0)
  }

  /** startLoop cannot stall: until it has returned, one of the two threads can take a step of the
      handshake, and the step brings the return closer. */
  lemma StartCannotStall(s: State) returns (e: Event)
    requires Inv(s) && !Known(s.creator)
    ensures !e.LoopEvent? && !e.EnterLoop? && Enabled(s, e)
    ensures Inv(Apply(s, e)) && StartRank(Apply(s, e)) < StartRank(s)
    ensures Apply(s, e).p == s.p && (Known(Apply(s, e).creator) ==> Apply(s, e).creator.Started?)
    ensures s.looper.InLoop? <==> Apply(s, e).looper.InLoop?
  {
    if Progress(s.looper) < 5 {
      e := [Create, SetTid, LatchDown, Construct, Publish][Progress(s.looper)];
    } else if s.creator.Starting? {
      assert !s.latch.waiters[0].Asleep?;
      assert s.latch.waiters == [s.latch.waiters[0]];
      e := if s.latch.waiters[0].Before? then LatchStep(Latch.Wait(0))
           else if s.latch.waiters[0].Woken? then LatchStep(Latch.Recheck(0))
           else StartReturns;
    } else {
      e := Test;
    }
    StepInv(s, e);
  }

  /** So startLoop can always be brought to its return, without the loop having to take a step. */
  lemma {:induction false} StartCompletes(s: State) returns (es: seq<Event>)
    requires Inv(s) && !Known(s.creator)
    ensures Legal(s, es)
    ensures Exec(s, es).creator.Started? && Exec(s, es).p == s.p
    ensures Exec(s, es).looper == if s.looper.InLoop? then InLoop else Published
    decreases StartRank(s)
  {
    var e := StartCannotStall(s);
    var s1 := Apply(s, e);
    var rest: seq<Event> := [];
    if !s1.creator.Started? {
      rest := StartCompletes(s1);
    }
    es := [e] + rest;
    assert es[1..] == rest;
  }

  // ---------- Shutdown ----------

  /** The destructor's test: it goes on to quit if loop_ is set, and is done if it is not, which means that
      the thread has ended by itself. */
  lemma DtorTestExactly(s: State)
    requires Inv(s) && Enabled(s, DtorTest)
    ensures if s.loopPtr then Apply(s, DtorTest).creator.Quitting?
            else Apply(s, DtorTest).creator.Gone? && s.looper.Finished?
    ensures Apply(s, DtorTest).p == s.p && Apply(s, DtorTest).looper == s.looper
  {}

  /** Then it neither quits nor joins. */
  lemma {:induction false} GoneForGood(s: State, es: seq<Event>)
    requires Inv(s) && s.creator.Gone? && Legal(s, es)
    ensures Exec(s, es).creator.Gone?
    ensures |Exec(s, es).p.threads| > 0 && Exec(s, es).p.threads[0] == P.Thread([Quit], false)
    ensures forall e :: e in es ==> !ByCreator(e)
    decreases es
  {
    if es != [] {
      StepInv(s, es[0]);
      assert es == [es[0]] + es[1..];
      GoneForGood(Apply(s, es[0]), es[1..]);
    }
  }

  /** A quit that falls while the loop is running stays set until it leaves. */
  lemma QuitHolds(s: State, e: Event)
    requires Inv(s) && Enabled(s, e) && s.looper.InLoop? && s.p.quit
    ensures Apply(s, e).p.quit
  {}

  /** An event that the two threads, the other threads and the kernel do not bring about on their own:
      one of the program's descriptors fires, or foreign code runs on the loop thread. */
  predicate FromOutside(e: Event) {
    e.LoopEvent? && (e.e.Callback? || (e.e.PollReturn? && e.e.active != [P.Wakeup]))
  }

  /** Nothing can happen any more on its own. */
  ghost predicate AtRest(s: State) {
    forall e :: Enabled(s, e) ==> FromOutside(e)
  }

  function Brought(e: Event): nat {
    if e.LoopEvent? then D.Brought(e.e) else 0
  }

  function BroughtBy(es: seq<Event>): nat {
    if es == [] then 0 else Brought(es[0]) + BroughtBy(es[1..])
  }

  /** How often poll returns in a run. */
  function Returns(es: seq<Event>): nat {
    if es == [] then 0 else (if es[0].LoopEvent? && es[0].e.PollReturn? then 1 else 0) + Returns(es[1..])
  }

  /** The work of the loop and of its users, and what the two threads have to do after it. */
  function Work(s: State): nat {
    D.Total(s.p) +
    (if s.looper.InLoop? then 3
     else if s.looper.AfterLoop? then 2
     else if s.looper.Finished? && !s.creator.Joined? then 1 else 0)
  }

  /** The destructor waits in its join, with a quit that fell after the loop was entered; or is done. */
  ghost predicate ShuttingDown(s: State) {
    Inv(s) && (s.creator.Joining? || s.creator.Joined?) && Progress(s.looper) >= 6 && s.p.quit
  }

  lemma ShutdownLoopStep(s: State, e: P.Event)
    requires ShuttingDown(s) && LoopEventOk(s, e)
    ensures P.Apply(s.p, e).quit
    ensures D.Total(P.Apply(s.p, e)) + 1 <= D.Total(s.p) + D.Brought(e)
    ensures P.Apply(s.p, e).polls == s.p.polls + if e.PollReturn? then 1 else 0
  {
    S.ReachableInv(s.p);
    D.StepWork(s.p, e);
  }

  lemma ShutdownStep(s: State, e: Event)
    requires ShuttingDown(s) && Enabled(s, e)
    ensures !e.EnterLoop? && ShuttingDown(Apply(s, e)) && Work(Apply(s, e)) + 1 <= Work(s) + Brought(e)
    ensures Apply(s, e).p.polls == s.p.polls + Returns([e])
  {
    StepInv(s, e);
    assert Returns([e]) == (if e.LoopEvent? && e.e.PollReturn? then 1 else 0) + Returns([e][1..]);
    if e.LoopEvent? {
      ShutdownLoopStep(s, e.e);
    }
  }

  lemma {:induction false} ShutdownRun(s: State, es: seq<Event>)
    requires ShuttingDown(s) && Legal(s, es)
    ensures ShuttingDown(Exec(s, es))
    ensures |es| + Work(Exec(s, es)) <= Work(s) + BroughtBy(es)
    ensures Exec(s, es).p.polls == s.p.polls + Returns(es)
    decreases es
  {
    if es != [] {
      var s1 := Apply(s, es[0]);
      ShutdownStep(s, es[0]);
      assert Returns([es[0]]) == (if es[0].LoopEvent? && es[0].e.PollReturn? then 1 else 0) + Returns([es[0]][1..]);
      ShutdownRun(s1, es[1..]);
    }
  }

  /** During the shutdown some step is always possible until the join has returned. */
  lemma ShutdownCannotStall(s: State) returns (e: Event)
    requires ShuttingDown(s) && s.creator.Joining?
    ensures Enabled(s, e) && !FromOutside(e)
  {
    S.ReachableInv(s.p);
    if s.looper.Finished? {
      e := Join;
    } else if s.looper.AfterLoop? {
      e := ClearPtr;
    } else if P.Enabled(s.p, P.Loop) {
      e := LoopEvent(P.Loop);
    } else if s.p.pc.Outside? {
      e := LoopReturns;
    } else if P.Woken(s.p) {
      e := LoopEvent(P.PollReturn([P.Wakeup]));
    } else {
      var t :| 0 <= t < |s.p.threads| && s.p.threads[t].owes;
      e := LoopEvent(P.ThreadWrite(t));
    }
  }

  /** The destructor's join finishes when its quit fell after loop() was entered, whatever else goes on:
      any number of other threads pushing, quitting and writing, descriptors firing, foreign code running,
      in any order. Every run is bounded by the work there is and the work brought in, poll returns at
      most once more, and the system comes to rest only when the join has returned. */
  lemma JoinFinishes(s: State, es: seq<Event>)
    requires ShuttingDown(s) && Legal(s, es)
    ensures |es| + Work(Exec(s, es)) <= Work(s) + BroughtBy(es) && Returns(es) <= 1
    ensures AtRest(Exec(s, es)) ==> Exec(s, es).creator.Joined? && Exec(s, es).looper.Finished?
  {
    ShutdownRun(s, es);
    var s' := Exec(s, es);
    S.ReachableInv(s'.p);
    if s'.creator.Joining? {
      var e := ShutdownCannotStall(s');
    }
  }

  lemma NothingBrought(e: Event)
    requires !FromOutside(e) && (e.LoopEvent? ==> !e.e.Enter?)
    ensures Brought(e) == 0
  {}

  /** And from every such state it can be brought to return without anything from outside. */
  lemma {:induction false} JoinCompletes(s: State) returns (es: seq<Event>)
    requires ShuttingDown(s)
    ensures Legal(s, es) && Exec(s, es).creator.Joined? && forall e :: e in es ==> !FromOutside(e)
    decreases Work(s)
  {
    es := [];
    if s.creator.Joining? {
      var e := ShutdownCannotStall(s);
      ShutdownStep(s, e);
      NothingBrought(e);
      var rest := JoinCompletes(Apply(s, e));
      es := [e] + rest;
      assert es[1..] == rest;
    }
  }

  /** A run that begins with e. */
  lemma Prepend(s: State, e: Event, es: seq<Event>)
    requires Enabled(s, e) && !e.EnterLoop? && Legal(Apply(s, e), es)
    ensures Legal(s, [e] + es) && Exec(s, [e] + es) == Exec(Apply(s, e), es)
  {}

  function Lift(es: seq<P.Event>): seq<Event> {
    if es == [] then [] else [LoopEvent(es[0])] + Lift(es[1..])
  }

  lemma {:induction false} ExecAppend(s: State, a: seq<Event>, b: seq<Event>)
    requires Legal(s, a) && Legal(Exec(s, a), b)
    ensures Legal(s, a + b) && Exec(s, a + b) == Exec(Exec(s, a), b)
    decreases a
  {
    if a == [] {
      assert a + b == b;
    } else {
      assert (a + b)[1..] == a[1..] + b;
      ExecAppend(Apply(s, a[0]), a[1..], b);
    }
  }

  lemma OwnEventOk(s: State, e: P.Event)
    requires s.looper.InLoop? && Known(s.creator) && |s.p.threads| > 0 && s.p.threads[0] == P.Thread([], false)
    requires P.Enabled(s.p, e) && D.OnItsOwn(e)
    ensures LoopEventOk(s, e)
    ensures |P.Apply(s.p, e).threads| > 0 && P.Apply(s.p, e).threads[0] == P.Thread([], false)
  {}

  /** What the loop and its users do on their own is possible in the composed system too, once the creator
      has made its last call. */
  lemma {:induction false} LiftOwn(s: State, es: seq<P.Event>)
    requires s.looper.InLoop? && Known(s.creator) && |s.p.threads| > 0 && s.p.threads[0] == P.Thread([], false)
    requires P.Legal(s.p, es) && forall e :: e in es ==> D.OnItsOwn(e)
    ensures Legal(s, Lift(es)) && Exec(s, Lift(es)) == s.(p := P.Exec(s.p, es))
    decreases es
  {
    if es != [] {
      assert es[0] in es && forall e :: e in es[1..] ==> e in es;
      OwnEventOk(s, es[0]);
      LiftOwn(s.(p := P.Apply(s.p, es[0])), es[1..]);
      assert Lift(es)[1..] == Lift(es[1..]);
    }
  }

  /** What comes in from outside does not quit. */
  predicate Mild(e: Event) {
    e.LoopEvent? ==> D.Mild(e.e)
  }

  /** The destructor has called quit, which is erased, or will be when loop() is entered. */
  ghost predicate Doomed(s: State) {
    && Inv(s) && (s.creator.Stored? || s.creator.Joining?) && D.NoQuitLeft(s.p)
    && (s.looper.Published? || (s.looper.InLoop? && !s.p.quit))
  }

  lemma DoomedStep(s: State, e: Event)
    requires Doomed(s) && Enabled(s, e) && Mild(e)
    ensures (e.EnterLoop? ==> P.Enabled(s.p, P.Enter)) && Doomed(Apply(s, e))
  {
    StepInv(s, e);
    match e
    case LoopEvent(l) => D.StepNoQuitLeft(s.p, l);
    case EnterLoop => D.StepNoQuitLeft(s.p, P.Enter);
    case DtorWrite => D.StepNoQuitLeft(s.p, P.ThreadWrite(0));
    case _ =>
  }

  /** Whatever threads push, whatever descriptors fire, and however many functors are waiting: unless
      quit is called again, the join never returns. */
  lemma {:induction false} DoomedForGood(s: State, es: seq<Event>)
    requires Doomed(s) && Legal(s, es) && forall e :: e in es ==> Mild(e)
    ensures Doomed(Exec(s, es))
    decreases es
  {
    if es != [] {
      assert es[0] in es && forall e :: e in es[1..] ==> e in es;
      DoomedStep(s, es[0]);
      DoomedForGood(Apply(s, es[0]), es[1..]);
    }
  }

  /** Exactly when the destructor's join can return, where no further call of quit is left to be made or
      comes in: when its quit is still set and loop() has been entered already. In that case it does
      return in every run that goes on long enough (JoinFinishes); otherwise in none. */
  lemma JoinReturnsExactly(s: State)
    requires Inv(s) && s.creator.Joining? && D.NoQuitLeft(s.p)
    ensures (exists es :: Legal(s, es) && (forall e :: e in es ==> Mild(e)) && Exec(s, es).creator.Joined?)
            <==> s.p.quit && !s.looper.Published?
  {
    if s.p.quit && !s.looper.Published? {
      var es := JoinCompletes(s);
      forall e | e in es ensures Mild(e) {
        assert !FromOutside(e);
      }
      assert Legal(s, es) && Exec(s, es).creator.Joined?;
    } else {
      forall es | Legal(s, es) && (forall e :: e in es ==> Mild(e)) ensures !Exec(s, es).creator.Joined? {
        DoomedForGood(s, es);
      }
    }
  }

  lemma QuitInTime(s: State) returns (es: seq<Event>)
    requires Inv(s) && s.creator.Stored? && !s.looper.Published? && s.p.quit
    ensures Legal(s, es) && Exec(s, es).creator.Joined? && forall e :: e in es ==> Mild(e)
  {
    DtorMayQuit(s);
    StepInv(s, DtorWrite);
    var rest := JoinCompletes(Apply(s, DtorWrite));
    Prepend(s, DtorWrite, rest);
    es := [DtorWrite] + rest;
    forall e | e in es ensures Mild(e) {
      assert e == DtorWrite || !FromOutside(e);
    }
  }

  /** In terms of the moment at which the destructor calls quit: its join can return if and only if
      loop() has been entered by then. */
  lemma DestructorReturnsExactly(s: State)
    requires Inv(s) && Enabled(s, DtorStore) && D.NoQuitLeft(Apply(s, DtorStore).p)
    ensures (exists es :: Legal(Apply(s, DtorStore), es) && (forall e :: e in es ==> Mild(e))
                          && Exec(Apply(s, DtorStore), es).creator.Joined?)
            <==> !s.looper.Published?
  {
    var s1 := Apply(s, DtorStore);
    StepInv(s, DtorStore);
    if s.looper.Published? {
      forall es | Legal(s1, es) && (forall e :: e in es ==> Mild(e)) ensures !Exec(s1, es).creator.Joined? {
        DoomedForGood(s1, es);
      }
    } else {
      var es := QuitInTime(s1);
      assert Legal(s1, es) && Exec(s1, es).creator.Joined?;
    }
  }

  /** A run that ends there, without anything from outside: other threads finish what they have to do, the
      loop calls everything that is queued and blocks for good, and the destructor waits for it. */
  lemma EarlyShutdownHangs(s: State) returns (es: seq<Event>)
    requires Inv(s) && s.creator.Joining? && s.looper.Published? && D.NoQuitLeft(s.p)
    ensures Legal(s, es)
    ensures var s' := Exec(s, es);
            && Doomed(s') && s'.creator.Joining? && s'.looper.InLoop? && S.Dead(s'.p) && AtRest(s')
  {
    S.ReachableInv(s.p);
    var run := D.EarlyQuitIsErased(s.p);
    var s1 := Apply(s, EnterLoop);
    assert ([P.Enter] + run)[1..] == run;
    LiftOwn(s1, run);
    es := [EnterLoop] + Lift(run);
    assert es[1..] == Lift(run);
    RunInv(s, es);
    assert Exec(s, es) == s1.(p := P.Exec(s.p, [P.Enter] + run));
    LiftIsMild(run);
    DoomedForGood(s, es);
    BlockedAtRest(Exec(s, es));
  }

  lemma LiftIsMild(es: seq<P.Event>)
    requires forall e :: e in es ==> D.OnItsOwn(e)
    ensures forall e :: e in [EnterLoop] + Lift(es) ==> Mild(e)
  {
    if es != [] {
      assert es[0] in es && forall e :: e in es[1..] ==> e in es;
      D.OwnIsMild(es[0]);
      LiftIsMild(es[1..]);
      forall e | e in [EnterLoop] + Lift(es) ensures Mild(e) {
        assert e == EnterLoop || e == LoopEvent(es[0]) || e in [EnterLoop] + Lift(es[1..]);
      }
    }
  }

  lemma BlockedAtRest(s: State)
    requires Doomed(s) && s.creator.Joining? && s.looper.InLoop? && S.Dead(s.p) && D.AtRest(s.p)
    ensures AtRest(s)
  {}

  /** Where it starts is reachable from the very beginning, with any other threads that do not quit: a
      destructor that follows startLoop closely enough is doomed. */
  lemma EarlyShutdownIsReachable(s: State) returns (es: seq<Event>)
    requires Init(s) && forall t :: 0 < t < |s.p.threads| ==> D.NoQuit(s.p.threads[t].script)
    ensures Legal(s, es) && Exec(s, es).creator.Joining? && Exec(s, es).looper.Published?
    ensures Doomed(Exec(s, es))
  {
    InitInv(s);
    var a := StartCompletes(s);
    RunInv(s, a);
    var s1 := Exec(s, a);
    Destruct(s1);
    es := a + [DtorTest, DtorStore, DtorWrite];
    ExecAppend(s, a, [DtorTest, DtorStore, DtorWrite]);
    RunInv(s, es);
    var s' := Exec(s, es);
    forall t | 0 <= t < |s'.p.threads| ensures D.NoQuit(s'.p.threads[t].script) {
      assert t > 0 ==> s'.p.threads[t] == s.p.threads[t];
    }
  }

  /** The creator's call of quit, both halves. */
  lemma QuitCall(p: P.State)
    requires |p.threads| > 0 && p.threads[0] == P.Thread([Quit], false)
    ensures P.Enabled(p, P.ThreadCall(0))
    ensures var p1 := P.Apply(p, P.ThreadCall(0));
            && p1.quit && p1.pending == p.pending && P.Enabled(p1, P.ThreadWrite(0))
            && P.Apply(p1, P.ThreadWrite(0)).threads == p.threads[0 := P.Thread([], false)]
            && P.Apply(p1, P.ThreadWrite(0)).pending == p.pending
  {
    var p1 := P.Apply(p, P.ThreadCall(0));
    assert [Quit][1..] == [];
    assert p1.threads == p.threads[0 := P.Thread([], true)];
    assert p1.threads[0 := P.Thread([], false)] == p.threads[0 := P.Thread([], false)];
  }

  /** The destructor, up to the join. */
  lemma Destruct(s: State)
    requires Inv(s) && s.creator.Started? && s.loopPtr
    ensures Legal(s, [DtorTest, DtorStore, DtorWrite])
    ensures var s' := Exec(s, [DtorTest, DtorStore, DtorWrite]);
            s'.creator.Joining? && s'.looper == s.looper && s'.p.pending == s.p.pending
            && s'.p.threads == s.p.threads[0 := P.Thread([], false)]
  {
    QuitCall(s.p);
    var s2 := Apply(s, DtorTest);
    var s3 := Apply(s2, DtorStore);
    var s4 := Apply(s3, DtorWrite);
    Prepend(s3, DtorWrite, []);
    Prepend(s2, DtorStore, [DtorWrite]);
    Prepend(s, DtorTest, [DtorStore, DtorWrite]);
    assert [DtorTest] + [DtorStore, DtorWrite] == [DtorTest, DtorStore, DtorWrite];
  }

  // ---------- The object ----------

  /** The steps of the creating thread; all others are taken by the loop thread, by other users of the
      loop, by the kernel, or are wakeups. */
  predicate ByCreator(e: Event) {
    match e
    case LatchStep(l) => !l.Spurious?
    case Create => true
    case StartReturns => true
    case Test => true
    case DtorTest => true
    case DtorStore => true
    case DtorWrite => true
    case Join => true
    case _ => false
  }

  /** The creator has not moved, except that it may have been woken. */
  predicate CreatorRests(s: State, s': State)
    requires |s.latch.waiters| == 1 && |s'.latch.waiters| == 1
  {
    && (s'.creator == s.creator || (s.creator.Asleep? && s'.creator.Woken?))
    && (s'.latch.waiters == s.latch.waiters
        || (s.latch.waiters[0].Asleep? && s'.latch.waiters[0].Woken?))
  }

  lemma OthersLeaveCreator(s: State, e: Event)
    requires Inv(s) && Enabled(s, e) && !ByCreator(e) && (e.EnterLoop? ==> P.Enabled(s.p, P.Enter))
    ensures Inv(Apply(s, e)) && CreatorRests(s, Apply(s, e))
    ensures Progress(Apply(s, e).looper) >= Progress(s.looper)
  {
    StepInv(s, e);
  }

  /** The two halves of quit are always possible for the destructor. */
  lemma DtorMayQuit(s: State)
    requires Inv(s)
    ensures s.creator.Quitting? ==> Enabled(s, DtorStore) && Apply(s, DtorStore).creator.Stored?
    ensures s.creator.Stored? ==> Enabled(s, DtorWrite) && Apply(s, DtorWrite).creator.Joining?
  {}

  /** EventLoopThread as its creator sees it: every statement of startLoop and of the destructor is a
      step of the system above, and the rest of the world moves between them. */
  class EventLoopThread {
    var loop: bool        // loop_ != NULL
    var exiting: bool

    /** The system this object is part of. */
    var sys: State

    ghost predicate Valid()
      reads this
    {
      Inv(sys) && loop == sys.loopPtr
    }

    constructor (p: P.State)
      requires P.Init(p) && |p.threads| > 0 && p.threads[0] == P.Thread([Quit], false)
      ensures Valid() && Init(sys) && sys.p == p && !loop && !exiting
    {
      loop, exiting := false, false;
      sys := State(NotStarted, Unborn, false, Latch.State(1, [Latch.Before]), p);
      new;
      InitInv(sys);
    }

    /** One step of the system. */
    method Step(e: Event)
      requires Inv(sys) && Enabled(sys, e) && (e.EnterLoop? ==> P.Enabled(sys.p, P.Enter))
      modifies this`sys, this`loop
      ensures Valid() && sys == Apply(old(sys), e)
    {
      StepInv(sys, e);
      sys := Apply(sys, e);
      loop := sys.loopPtr;
    }

    /** Any number of steps of everyone but the creator. */
    method OtherThreads()
      requires Valid()
      modifies this`sys, this`loop
      ensures Valid() && CreatorRests(old(sys), sys) && Progress(sys.looper) >= Progress(old(sys).looper)
    {
      var n: nat := *;
      while n > 0
        invariant Valid() && CreatorRests(old(sys), sys) && Progress(sys.looper) >= Progress(old(sys).looper)
      {
        var e: Event := *;
        if Enabled(sys, e) && !ByCreator(e) && (!e.EnterLoop? || P.Enabled(sys.p, P.Enter)) {
          OthersLeaveCreator(sys, e);
          Step(e);
        }
        n := n - 1;
      }
    }

    /** thread_.start(): create the thread and wait for its latch, for as long as patience lasts. */
    method StartThread(patience: nat) returns (started: bool)
      requires Valid() && sys.creator.NotStarted? && sys.latch.waiters == [Latch.Before]
      modifies this`sys, this`loop
      ensures Valid() && (started ==> sys.creator.Testing? && Progress(sys.looper) >= 3)
      ensures !started ==> sys.creator.Starting? && (sys.latch.waiters[0].Asleep? ==> sys.latch.count > 0)
    {
      Step(Create);
      OtherThreads();
      Step(LatchStep(Latch.Wait(0)));
      started := AwaitLatch(patience);
      if started {
        assert sys.latch.waiters == [Latch.Returned];
        Step(StartReturns);
      }
    }

    /** The rest of the latch's wait. */
    method AwaitLatch(patience: nat) returns (open: bool)
      requires Valid() && sys.creator.Starting? && !sys.latch.waiters[0].Before?
      modifies this`sys, this`loop
      ensures Valid() && sys.creator.Starting? && open == sys.latch.waiters[0].Returned?
      ensures sys.latch.waiters[0].Asleep? ==> sys.latch.count > 0
    {
      var left := patience;
      while left > 0 && !sys.latch.waiters[0].Returned?
        invariant Valid() && sys.creator.Starting? && !sys.latch.waiters[0].Before?
      {
        OtherThreads();
        if sys.latch.waiters[0].Woken? {
          Step(LatchStep(Latch.Recheck(0)));
        }
        left := left - 1;
      }
      open := sys.latch.waiters[0].Returned?;
    }

    /** startLoop(). It returns only with a loop that threadFunc has built and published and that is
        still there; if patience runs out first, it waits for something that has not happened yet, or
        has been woken to see it. */
    method StartLoop(patience: nat) returns (returned: bool)
      requires Valid() && sys.creator.NotStarted? && sys.latch.waiters == [Latch.Before]
      modifies this`sys, this`loop
      ensures Valid()
      ensures returned ==> sys.creator.Started? && loop && 5 <= Progress(sys.looper) <= 6
      ensures !returned ==> !Known(sys.creator) && (sys.creator.Asleep? ==> !loop)
      ensures !returned && sys.creator.Starting? && sys.latch.waiters[0].Asleep? ==> sys.latch.count > 0
    {
      var started := StartThread(patience);
      if !started {
        return false;
      }
      returned := AwaitLoop(patience);
    }

    /** while (loop_ == NULL) cond_.wait(), under the mutex. */
    method AwaitLoop(patience: nat) returns (returned: bool)
      requires Valid() && sys.creator.Testing?
      modifies this`sys, this`loop
      ensures Valid()
      ensures returned ==> sys.creator.Started? && loop && 5 <= Progress(sys.looper) <= 6
      ensures !returned ==> sys.creator.Woken? || (sys.creator.Asleep? && !loop)
    {
      OtherThreads();
      Step(Test);
      var left := patience;
      while left > 0 && !sys.creator.Started?
        invariant Valid() && (sys.creator.Asleep? || sys.creator.Woken? || sys.creator.Started?)
        invariant sys.creator.Started? ==> loop && 5 <= Progress(sys.looper) <= 6
      {
        OtherThreads();
        if sys.creator.Woken? {
          Step(Test);
        }
        left := left - 1;
      }
      returned := sys.creator.Started?;
    }

    /** loop_->quit(): the store, and then the wakeup. */
    method QuitLoop()
      requires Valid() && sys.creator.Quitting?
      modifies this`sys, this`loop
      ensures Valid() && sys.creator.Joining?
    {
      DtorMayQuit(sys);
      Step(DtorStore);
      OtherThreads();
      DtorMayQuit(sys);
      Step(DtorWrite);
    }

    /** thread_.join(), for as long as patience lasts. */
    method JoinThread(patience: nat) returns (joined: bool)
      requires Valid() && sys.creator.Joining?
      modifies this`sys, this`loop
      ensures Valid()
      ensures joined ==> sys.creator.Joined? && sys.looper.Finished?
      ensures !joined ==> sys.creator.Joining? && !sys.looper.Finished?
    {
      var left := patience;
      while left > 0 && !sys.looper.Finished?
        invariant Valid() && sys.creator.Joining?
      {
        OtherThreads();
        left := left - 1;
      }
      joined := sys.looper.Finished?;
      if joined {
        Step(Join);
      }
    }

    /** The destructor. It joins only a thread that has ended; without a loop it does nothing. */
    method Destroy(patience: nat) returns (done: bool)
      requires Valid() && sys.creator.Started?
      modifies this
      ensures Valid() && exiting
      ensures done ==> sys.creator.Gone? || (sys.creator.Joined? && sys.looper.Finished?)
      ensures sys.creator.Gone? ==> sys.looper.Finished? && sys.p.threads[0] == P.Thread([Quit], false)
      ensures !done ==> sys.creator.Joining? && !sys.looper.Finished?
    {
      exiting := true;
      OtherThreads();
      Step(DtorTest);
      if sys.creator.Gone? {
        return true;
      }
      OtherThreads();
      QuitLoop();
      done := JoinThread(patience);
    }
  }
}
