/** Where the loop and the threads that talk to it get to: every run is bounded by the work there is, and
    at its end the loop has drained, having called every functor of every tree exactly once. */
module LoopDrain {
  import opened Functors
  import opened LoopProtocol
  import opened LoopSafety

  /** Events by which the loop and the kernel use up what is already there: no thread moves, no foreign
      code enters, and the only descriptor that fires is the eventfd. */
  predicate Internal(e: Event) {
    e == Loop || e == DropEdge || e == PollReturn([Wakeup])
  }

  predicate InternalRun(es: seq<Event>) {
    forall i :: 0 <= i < |es| ==> Internal(es[i])
  }

  /** Nothing internal can happen. */
  predicate Stuck(s: State) {
    !Enabled(s, Loop) && !Enabled(s, DropEdge) && !Enabled(s, PollReturn([Wakeup]))
  }

  // ---------- A bound on what is left to do ----------

  function ActiveSize(active: seq<Channel>): nat {
    if active == [] then 0 else
      (if active[0].Wakeup? then 2 else 2 + 100 * SizeOf(active[0].script)) + ActiveSize(active[1..])
  }

  function Phase(pc: Pc): nat {
    match pc
    case Outside => 0
    case Polling => 1
    case CheckQuit => 2
    case Expiring => 3
    case Calling(batch) => 4 + 100 * SizeAll(batch)
    case Swapping => 5
    case Handling(active) => 6 + ActiveSize(active)
  }

  function Rank(s: State): nat {
    100 * SizeOf(s.todo) + 100 * SizeAll(s.pending)
    + (if s.owes then 40 else 0) + (if s.ready then 20 else 0) + Phase(s.pc)
  }

  lemma ActDecreases(s: State)
    requires s.todo != [] && !s.owes
    ensures Rank(Act(s)) < Rank(s)
  {
    match s.todo[0]
    case Queue(f) =>
      SizeAllAppend(s.pending, [f]);
      assert [f][1..] == [];
      assert SizeAll([f]) == Size(f);
      assert SizeOf(s.todo) == 1 + Size(f) + SizeOf(s.todo[1..]);
    case Run(f) =>
      SizeOfAppend(f.body, s.todo[1..]);
      assert ActSize(s.todo[0]) == 1 + Size(f);
      assert SizeOf(s.todo) == 2 + SizeOf(f.body) + SizeOf(s.todo[1..]);
    case Quit =>
  }

  lemma AdvanceDecreases(s: State)
    requires Idle(s) && !s.pc.Outside? && !s.pc.Polling?
    ensures Rank(Advance(s)) < Rank(s)
  {
    match s.pc
    case Calling(batch) =>
      if batch != [] {
        assert Phase(s.pc) == 100 + 100 * SizeOf(batch[0].body) + Phase(Calling(batch[1..]));
      }
    case Handling(active) =>
      if active != [] && active[0].User? {
        assert Phase(s.pc) == 2 + 100 * SizeOf(active[0].script) + Phase(Handling(active[1..]));
      }
    case _ =>
  }

  lemma InternalDecreases(s: State, e: Event)
    requires Inv(s) && Enabled(s, e) && Internal(e)
    ensures Rank(Apply(s, e)) < Rank(s)
  {
    if e == Loop {
      if s.owes {
      } else if s.todo != [] {
        ActDecreases(s);
      } else {
        AdvanceDecreases(s);
      }
    } else if e != DropEdge {
      assert ActiveSize([Wakeup]) == 2;
    }
  }

  /** What other threads still have to do. */
  function ThreadWork(threads: seq<Thread>): nat {
    if threads == [] then 0 else
      100 * SizeOf(threads[0].script) + (if threads[0].owes then 40 else 0) + ThreadWork(threads[1..])
  }

  /** All the work that exists anywhere. */
  function Total(s: State): nat {
    Rank(s) + ThreadWork(s.threads)
  }

  /** The work an event brings in from outside, and the event itself. */
  function Brought(e: Event): nat {
    match e
    case Enter => 3
    case Callback(script) => 1 + 100 * SizeOf(script)
    case PollReturn(active) => if active == [Wakeup] then 0 else 6 + ActiveSize(active)
    case _ => 0
  }

  function BroughtBy(es: seq<Event>): nat {
    if es == [] then 0 else Brought(es[0]) + BroughtBy(es[1..])
  }

  lemma {:induction false} ThreadWorkUpdate(threads: seq<Thread>, t: nat, u: Thread)
    requires t < |threads|
    ensures ThreadWork(threads[t := u]) + ThreadWork([threads[t]]) == ThreadWork(threads) + ThreadWork([u])
  {
    var after := threads[t := u];
    assert forall v: Thread :: [v][1..] == [];
    if t == 0 {
      assert after[1..] == threads[1..];
    } else {
      ThreadWorkUpdate(threads[1..], t - 1, u);
      assert after[1..] == threads[1..][t - 1 := u];
    }
  }

  lemma OneThread(t: Thread)
    ensures ThreadWork([t]) == 100 * SizeOf(t.script) + if t.owes then 40 else 0
  {}

  lemma CallDecreases(s: State, t: nat)
    requires Enabled(s, ThreadCall(t))
    ensures Total(Call(s, t)) < Total(s)
  {
    var before, after := s.threads[t], Thread(s.threads[t].script[1..], true);
    ThreadWorkUpdate(s.threads, t, after);
    OneThread(before);
    OneThread(after);
    var a := before.script[0];
    assert SizeOf(before.script) == ActSize(a) + SizeOf(after.script);
    if !a.Quit? {
      SizeAllAppend(s.pending, [a.f]);
      assert [a.f][1..] == [];
      assert SizeAll([a.f]) == Size(a.f);
    }
  }

  lemma WriteDecreases(s: State, t: nat)
    requires Enabled(s, ThreadWrite(t))
    ensures Total(Apply(s, ThreadWrite(t))) < Total(s)
  {
    var u := s.threads[t].(owes := false);
    ThreadWorkUpdate(s.threads, t, u);
    OneThread(s.threads[t]);
    OneThread(u);
  }

  /** Every event of every party uses up work, except for what it brings in from outside. */
  lemma StepWork(s: State, e: Event)
    requires Inv(s) && Enabled(s, e)
    ensures Total(Apply(s, e)) + 1 <= Total(s) + Brought(e)
  {
    match e
    case ThreadCall(t) => CallDecreases(s, t);
    case ThreadWrite(t) => WriteDecreases(s, t);
    case Enter =>
    case Callback(_) =>
    case _ =>
      if Internal(e) {
        InternalDecreases(s, e);
      }
  }

  /** Every run, under every interleaving, is at most as long as the work there was and the work that
      was brought in, less what is left. */
  lemma {:induction false} RunIsBounded(s: State, es: seq<Event>)
    requires Inv(s) && Legal(s, es)
    ensures |es| + Total(Exec(s, es)) <= Total(s) + BroughtBy(es)
    decreases es
  {
    if es != [] {
      StepWork(s, es[0]);
      StepInv(s, es[0]);
      RunIsBounded(Apply(s, es[0]), es[1..]);
    }
  }

  // ---------- Every functor of every tree is called exactly once ----------

  /** How often functor k has been called. */
  function Calls(ran: seq<nat>, k: nat): nat {
    multiset(ran)[k]
  }

  function ActiveNodes(active: seq<Channel>, k: nat): nat {
    if active == [] then 0 else
      (if active[0].Wakeup? then 0 else NodesOf(active[0].script, k)) + ActiveNodes(active[1..], k)
  }

  function ThreadNodes(threads: seq<Thread>, k: nat): nat {
    if threads == [] then 0 else NodesOf(threads[0].script, k) + ThreadNodes(threads[1..], k)
  }

  function PcNodes(pc: Pc, k: nat): nat {
    match pc
    case Handling(active) => ActiveNodes(active, k)
    case Calling(batch) => NodesAll(batch, k)
    case _ => 0
  }

  /** How often functor k occurs in what exists somewhere and has not been called yet. */
  function Outstanding(s: State, k: nat): nat {
    NodesOf(s.todo, k) + PcNodes(s.pc, k) + NodesAll(s.pending, k) + ThreadNodes(s.threads, k)
  }

  /** What an event brings in from outside. */
  function Fed(e: Event, k: nat): nat {
    match e
    case Callback(script) => NodesOf(script, k)
    case PollReturn(active) => ActiveNodes(active, k)
    case _ => 0
  }

  function FedBy(es: seq<Event>, k: nat): nat {
    if es == [] then 0 else Fed(es[0], k) + FedBy(es[1..], k)
  }

  lemma CallsAppend(ran: seq<nat>, id: nat, k: nat)
    ensures Calls(ran + [id], k) == Calls(ran, k) + if id == k then 1 else 0
  {}

  lemma PushNodes(pending: seq<Functor>, f: Functor, k: nat)
    ensures NodesAll(pending + [f], k) == NodesAll(pending, k) + Nodes(f, k)
  {
    NodesAllAppend(pending, [f], k);
    assert [f][1..] == [];
    assert NodesAll([f], k) == Nodes(f, k);
  }

  /** A thread that makes its next call, or only changes whether it owes a write. */
  lemma {:induction false} ThreadNodesUpdate(threads: seq<Thread>, t: nat, script: seq<Action>, owes: bool, k: nat)
    requires t < |threads|
    ensures ThreadNodes(threads[t := Thread(script, owes)], k) + NodesOf(threads[t].script, k)
            == ThreadNodes(threads, k) + NodesOf(script, k)
  {
    var u := threads[t := Thread(script, owes)];
    if t == 0 {
      assert u[1..] == threads[1..];
    } else {
      ThreadNodesUpdate(threads[1..], t - 1, script, owes, k);
      assert u[1..] == threads[1..][t - 1 := Thread(script, owes)];
    }
  }

  lemma ActConserves(s: State, k: nat)
    requires s.todo != [] && !s.owes
    ensures Calls(Act(s).ran, k) + Outstanding(Act(s), k) == Calls(s.ran, k) + Outstanding(s, k)
  {
    assert NodesOf(s.todo, k) == ActNodes(s.todo[0], k) + NodesOf(s.todo[1..], k);
    match s.todo[0]
    case Queue(f) =>
      PushNodes(s.pending, f, k);
    case Run(f) =>
      CallsAppend(s.ran, f.id, k);
      NodesOfAppend(f.body, s.todo[1..], k);
    case Quit =>
  }

  lemma CallingConserves(s: State, k: nat)
    requires Idle(s) && s.pc.Calling?
    ensures Calls(Advance(s).ran, k) + Outstanding(Advance(s), k) == Calls(s.ran, k) + Outstanding(s, k)
  {
    var batch := s.pc.batch;
    if batch != [] {
      CallsAppend(s.ran, batch[0].id, k);
      assert NodesAll(batch, k) == Nodes(batch[0], k) + NodesAll(batch[1..], k);
    }
  }

  lemma AdvanceConserves(s: State, k: nat)
    requires Idle(s) && !s.pc.Outside? && !s.pc.Polling? && !s.pc.Calling?
    ensures Calls(Advance(s).ran, k) + Outstanding(Advance(s), k) == Calls(s.ran, k) + Outstanding(s, k)
  {
    if s.pc.Handling? && s.pc.active != [] {
      assert PcNodes(s.pc, k) == NodesOf(Advance(s).todo, k) + PcNodes(Advance(s).pc, k);
    }
  }

  lemma CallConserves(s: State, t: nat, k: nat)
    requires Enabled(s, ThreadCall(t))
    ensures Calls(Call(s, t).ran, k) + Outstanding(Call(s, t), k) == Calls(s.ran, k) + Outstanding(s, k)
  {
    var script := s.threads[t].script;
    ThreadNodesUpdate(s.threads, t, script[1..], true, k);
    if !script[0].Quit? {
      PushNodes(s.pending, script[0].f, k);
    }
  }

  lemma StepConserves(s: State, e: Event, k: nat)
    requires Enabled(s, e)
    ensures Calls(Apply(s, e).ran, k) + Outstanding(Apply(s, e), k)
            == Calls(s.ran, k) + Outstanding(s, k) + Fed(e, k)
  {
    match e
    case Loop =>
      if !s.owes {
        if s.todo != [] {
          ActConserves(s, k);
        } else if s.pc.Calling? {
          CallingConserves(s, k);
        } else {
          AdvanceConserves(s, k);
        }
      }
    case ThreadCall(t) => CallConserves(s, t, k);
    case ThreadWrite(t) => ThreadNodesUpdate(s.threads, t, s.threads[t].script, false, k);
    case _ =>
  }

  /** Over every run, called plus outstanding grows by exactly what was brought in. */
  lemma {:induction false} RunConserves(s: State, es: seq<Event>, k: nat)
    requires Legal(s, es)
    ensures Calls(Exec(s, es).ran, k) + Outstanding(Exec(s, es), k)
            == Calls(s.ran, k) + Outstanding(s, k) + FedBy(es, k)
    decreases es
  {
    if es != [] {
      StepConserves(s, es[0], k);
      RunConserves(Apply(s, es[0]), es[1..], k);
    }
  }

  // ---------- The end of a maximal run ----------

  /** Nothing can happen any more unless it is brought in from outside. */
  ghost predicate AtRest(s: State) {
    Stuck(s) && forall t :: 0 <= t < |s.threads| ==> !Enabled(s, ThreadCall(t)) && !Enabled(s, ThreadWrite(t))
  }

  /** At rest all threads are done, and the loop is blocked or outside; with a quit it is outside. */
  lemma RestIsDone(s: State)
    requires Inv(s) && AtRest(s)
    ensures ThreadsDone(s) && Idle(s) && (s.pc.Outside? || s.pc.Polling?) && !Owing(s)
    ensures s.quit ==> s.pc.Outside?
  {
    forall t | 0 <= t < |s.threads| ensures s.threads[t] == Thread([], false) {
      assert !Enabled(s, ThreadCall(t)) && !Enabled(s, ThreadWrite(t));
    }
  }

  lemma {:induction false} DoneThreadsHaveNothing(threads: seq<Thread>, k: nat)
    requires forall t :: 0 <= t < |threads| ==> threads[t] == Thread([], false)
    ensures ThreadNodes(threads, k) == 0
  {
    if threads != [] {
      DoneThreadsHaveNothing(threads[1..], k);
    }
  }

  /** A loop that is not entered again is left only because of a quit, which then stays set. */
  lemma {:induction false} LeftByQuit(s: State, es: seq<Event>)
    requires Legal(s, es) && Enter !in es && (s.pc.Outside? ==> s.quit)
    ensures Exec(s, es).pc.Outside? ==> Exec(s, es).quit
    decreases es
  {
    if es != [] {
      assert es[0] in es && forall e :: e in es[1..] ==> e in es;
      LeftByQuit(Apply(s, es[0]), es[1..]);
    }
  }

  /** From any point inside loop(), with any number of threads still calling and writing in any order,
      and whatever descriptors and foreign callbacks bring in: a run is bounded by the work there is and
      the work brought in; and when nothing can happen any more on its own, either the loop has been
      left because of a quit, or it is blocked with nothing pending but what was queued quietly, and no
      quit outstanding. */
  lemma LoopComesToRest(s: State, es: seq<Event>)
    requires Reachable(s) && !s.pc.Outside? && Legal(s, es) && Enter !in es
    ensures |es| + Total(Exec(s, es)) <= Total(s) + BroughtBy(es)
    ensures AtRest(Exec(s, es)) ==>
              var s' := Exec(s, es);
              && Idle(s') && ThreadsDone(s')
              && if s'.pc.Outside? then s'.quit else Dead(s') && !s'.quit && |s'.pending| == s'.quiet
  {
    ReachableInv(s);
    RunIsBounded(s, es);
    LeftByQuit(s, es);
    ReachableExtends(s, es);
    ReachableInv(Exec(s, es));
    if AtRest(Exec(s, es)) {
      RestIsDone(Exec(s, es));
    }
  }

  // ---------- Without quits and quiet queueing ----------

  /** No call of quit anywhere in the tree. */
  predicate NoQuit(acts: seq<Action>)
    decreases acts, 0
  {
    forall i :: 0 <= i < |acts| ==> ActNoQuit(acts[i])
  }

  predicate ActNoQuit(a: Action)
    decreases a, 2
  {
    !a.Quit? && BodyNoQuit(a.f)
  }

  predicate BodyNoQuit(f: Functor)
    decreases f, 1
  {
    NoQuit(f.body)
  }

  predicate NoQuitAll(fs: seq<Functor>) {
    forall f :: f in fs ==> BodyNoQuit(f)
  }

  predicate NoQuitActive(active: seq<Channel>) {
    forall c :: c in active && c.User? ==> NoQuit(c.script)
  }

  /** No call of quit is left to be made by anything that exists. */
  ghost predicate NoQuitLeft(s: State) {
    && NoQuit(s.todo) && NoQuitAll(s.pending) && NoQuitAll(Batch(s))
    && (s.pc.Handling? ==> NoQuitActive(s.pc.active))
    && forall t :: 0 <= t < |s.threads| ==> NoQuit(s.threads[t].script)
  }

  /** Nobody has called quit, and nothing that exists will. */
  ghost predicate NoQuitAnywhere(s: State) {
    !s.quit && NoQuitLeft(s)
  }

  /** What comes in from outside does not quit. */
  predicate Mild(e: Event) {
    match e
    case Callback(script) => NoQuit(script)
    case PollReturn(active) => NoQuitActive(active)
    case _ => true
  }

  lemma NoQuitAppend(a: seq<Action>, b: seq<Action>)
    requires NoQuit(a) && NoQuit(b)
    ensures NoQuit(a + b)
  {
    forall i | 0 <= i < |a + b| ensures ActNoQuit((a + b)[i]) {
      assert (a + b)[i] == if i < |a| then a[i] else b[i - |a|];
    }
  }

  lemma ActNoQuitLeft(s: State)
    requires NoQuitLeft(s) && s.todo != [] && !s.owes
    ensures NoQuitLeft(Act(s)) && Act(s).quit == s.quit
  {
    var a, rest := s.todo[0], s.todo[1..];
    assert ActNoQuit(a);
    assert forall i :: 0 <= i < |rest| ==> rest[i] == s.todo[i + 1];
    if a.Run? {
      assert BodyNoQuit(a.f);
      NoQuitAppend(a.f.body, rest);
    }
  }

  lemma AdvanceNoQuitLeft(s: State)
    requires NoQuitLeft(s) && Idle(s) && !s.pc.Outside? && !s.pc.Polling?
    ensures NoQuitLeft(Advance(s)) && Advance(s).quit == s.quit
  {
    match s.pc
    case Handling(active) =>
      if active != [] {
        assert active[0] in active && forall c :: c in active[1..] ==> c in active;
      }
    case Calling(batch) =>
      if batch != [] {
        assert batch[0] in batch && forall f :: f in batch[1..] ==> f in batch;
      }
    case _ =>
  }

  lemma CallNoQuitLeft(s: State, t: nat)
    requires NoQuitLeft(s) && Enabled(s, ThreadCall(t))
    ensures NoQuitLeft(Call(s, t)) && Call(s, t).quit == s.quit
  {
    var script := s.threads[t].script;
    assert ActNoQuit(script[0]);
    assert forall i :: 0 <= i < |script[1..]| ==> script[1..][i] == script[i + 1];
  }

  /** Where no quit is left and none comes in, quit_ can only be cleared. */
  lemma StepNoQuitLeft(s: State, e: Event)
    requires NoQuitLeft(s) && Enabled(s, e) && Mild(e)
    ensures NoQuitLeft(Apply(s, e)) && Apply(s, e).quit == (s.quit && !e.Enter?)
  {
    match e
    case Loop =>
      if !s.owes {
        if s.todo != [] { ActNoQuitLeft(s); } else { AdvanceNoQuitLeft(s); }
      }
    case ThreadCall(t) => CallNoQuitLeft(s, t);
    case _ =>
  }

  /** Nothing has been queued quietly, and the foreign code that may be executing will not do so. */
  predicate NothingQuiet(s: State) {
    s.quiet == 0 && (s.pc.Expiring? ==> PushedByActs(s.todo) == [])
  }

  /** What comes in from outside does not quit, nor queue quietly. */
  predicate Harmless(e: Event) {
    Mild(e) && (e.Callback? ==> PushedByActs(e.script) == [])
  }

  ghost predicate Smooth(s: State) {
    !s.pc.Outside? && NoQuitAnywhere(s) && NothingQuiet(s)
  }

  lemma ActStaysQuiet(s: State)
    requires NothingQuiet(s) && !s.pc.Outside? && s.todo != [] && !s.owes
    ensures NothingQuiet(Act(s))
  {
    var a, rest := s.todo[0], s.todo[1..];
    assert PushedByActs(s.todo) == ActPushed(a) + PushedByActs(rest);
    if a.Run? {
      PushedByActsAppend(a.f.body, rest);
      assert ActPushed(a) == PushedByActs(a.f.body);
    }
  }

  lemma StepSmooth(s: State, e: Event)
    requires Inv(s) && Smooth(s) && Enabled(s, e) && Harmless(e)
    ensures Smooth(Apply(s, e))
  {
    StepNoQuitLeft(s, e);
    if e.Loop? && !s.owes && s.todo != [] {
      ActStaysQuiet(s);
    }
  }

  lemma {:induction false} RunSmooth(s: State, es: seq<Event>)
    requires Inv(s) && Smooth(s) && Legal(s, es) && forall e :: e in es ==> Harmless(e)
    ensures Smooth(Exec(s, es)) && Enter !in es
    decreases es
  {
    if es != [] {
      assert es[0] in es && forall e :: e in es[1..] ==> e in es;
      StepInv(s, es[0]);
      StepSmooth(s, es[0]);
      RunSmooth(Apply(s, es[0]), es[1..]);
    }
  }

  /** From any point inside loop() at which nobody has called quit or queued quietly and nothing in
      existence will, with any number of threads in any state: when nothing can happen any more on its
      own, the loop is blocked in poll with an empty list, and each functor has been called exactly as
      often as it occurs in the trees that existed or came in. Every functor of every tree is called
      exactly once. */
  lemma EveryFunctorRunsExactlyOnce(s: State, es: seq<Event>)
    requires Reachable(s) && !s.pc.Outside? && NoQuitAnywhere(s) && NothingQuiet(s)
    requires Legal(s, es) && AtRest(Exec(s, es)) && forall e :: e in es ==> Harmless(e)
    ensures Dead(Exec(s, es)) && Exec(s, es).pending == [] && Exec(s, es).started == Exec(s, es).queued
    ensures forall k: nat :: Calls(Exec(s, es).ran, k) == Calls(s.ran, k) + Outstanding(s, k) + FedBy(es, k)
  {
    ReachableInv(s);
    RunSmooth(s, es);
    LoopComesToRest(s, es);
    var s' := Exec(s, es);
    ReachableExtends(s, es);
    ReachableInv(s');
    forall k: nat ensures Calls(s'.ran, k) == Calls(s.ran, k) + Outstanding(s, k) + FedBy(es, k) {
      RunConserves(s, es, k);
      DoneThreadsHaveNothing(s'.threads, k);
    }
  }

  // ---------- With a quit ----------

  /** How often poll returns in a run. */
  function Returns(es: seq<Event>): nat {
    if es == [] then 0 else (if es[0].PollReturn? then 1 else 0) + Returns(es[1..])
  }

  lemma {:induction false} ReturnsAreCounted(s: State, es: seq<Event>)
    requires s.quit && Legal(s, es) && Enter !in es
    ensures Exec(s, es).polls == s.polls + Returns(es)
    decreases es
  {
    if es != [] {
      assert es[0] in es && forall e :: e in es[1..] ==> e in es;
      ReturnsAreCounted(Apply(s, es[0]), es[1..]);
    }
  }

  /** A quit that loop() has not erased makes the loop leave, whatever other threads do meanwhile: poll
      returns at most once more, the run is bounded, and it comes to rest only outside loop(). */
  lemma QuitLeadsOut(s: State, es: seq<Event>)
    requires Reachable(s) && s.quit && Legal(s, es) && Enter !in es
    ensures |es| + Total(Exec(s, es)) <= Total(s) + BroughtBy(es) && Returns(es) <= 1
    ensures AtRest(Exec(s, es)) ==> Exec(s, es).pc.Outside? && ThreadsDone(Exec(s, es))
  {
    ReachableInv(s);
    RunIsBounded(s, es);
    QuitSticks(s, es);
    ReturnsAreCounted(s, es);
    ReachableExtends(s, es);
    ReachableInv(Exec(s, es));
    if AtRest(Exec(s, es)) {
      RestIsDone(Exec(s, es));
    }
  }

  /** The loop thread, the kernel and the other threads; not what comes in from outside. */
  predicate OnItsOwn(e: Event) {
    Internal(e) || e.ThreadCall? || e.ThreadWrite?
  }

  lemma NothingBrought(e: Event)
    requires OnItsOwn(e)
    ensures Brought(e) == 0
  {
    if e.PollReturn? {
      assert e.active == [Wakeup];
    }
  }

  /** A run can always be continued to the point where nothing can happen any more. */
  lemma {:induction false} RunToRest(s: State) returns (es: seq<Event>)
    requires Inv(s)
    ensures Legal(s, es) && AtRest(Exec(s, es)) && forall e :: e in es ==> OnItsOwn(e)
    decreases Total(s)
  {
    es := [];
    if !AtRest(s) {
      var e :| OnItsOwn(e) && Enabled(s, e);
      NothingBrought(e);
      StepWork(s, e);
      StepInv(s, e);
      var rest := RunToRest(Apply(s, e));
      es := [e] + rest;
      assert es[1..] == rest;
    }
  }

  // ---------- Exactly when a loop is left ----------

  lemma {:induction false} RunNoQuitLeft(s: State, es: seq<Event>)
    requires NoQuitLeft(s) && !s.quit && !s.pc.Outside? && Legal(s, es) && forall e :: e in es ==> Mild(e)
    ensures NoQuitLeft(Exec(s, es)) && !Exec(s, es).quit && !Exec(s, es).pc.Outside?
    decreases es
  {
    if es != [] {
      assert es[0] in es && forall e :: e in es[1..] ==> e in es;
      StepNoQuitLeft(s, es[0]);
      RunNoQuitLeft(Apply(s, es[0]), es[1..]);
    }
  }

  /** Where no quit is left to be called, and none comes in, the loop can be left if and only if quit_ is
      set: with other threads and descriptors going on in whatever way. */
  lemma LeavesExactly(s: State)
    requires Inv(s) && !s.pc.Outside? && NoQuitLeft(s)
    ensures (exists es :: Legal(s, es) && Enter !in es && (forall e :: e in es ==> Mild(e))
                          && Exec(s, es).pc.Outside?)
            <==> s.quit
  {
    if s.quit {
      var es := RunToRest(s);
      RunInv(s, es);
      QuitSticks(s, es);
      RestIsDone(Exec(s, es));
      assert forall e :: e in es ==> OnItsOwn(e) && Mild(e);
      assert Legal(s, es) && Enter !in es && Exec(s, es).pc.Outside?;
    } else {
      forall es | Legal(s, es) && (forall e :: e in es ==> Mild(e)) ensures !Exec(s, es).pc.Outside? {
        RunNoQuitLeft(s, es);
      }
    }
  }

  /** So a quit that comes before loop() is lost for good, however many functors are waiting and whatever
      other threads and descriptors do: unless quit is called again, the loop is never left. */
  lemma EarlyQuitIsNeverHonoured(s: State, es: seq<Event>)
    requires s.pc.Outside? && Idle(s) && NoQuitLeft(s)
    requires Legal(s, [Enter] + es) && forall e :: e in es ==> Mild(e)
    ensures !Exec(s, [Enter] + es).quit && !Exec(s, [Enter] + es).pc.Outside?
  {
    assert ([Enter] + es)[1..] == es;
    StepNoQuitLeft(s, Enter);
    RunNoQuitLeft(Apply(s, Enter), es);
  }

  /** And there is a run without anything from outside at whose end the loop is blocked with quit_ false and
      nothing can wake it, although the quitter's wakeup, like everyone's, was delivered. */
  lemma EarlyQuitIsErased(s: State) returns (es: seq<Event>)
    requires Inv(s) && s.pc.Outside? && Idle(s) && NoQuitLeft(s)
    ensures Legal(s, [Enter] + es) && forall e :: e in es ==> OnItsOwn(e)
    ensures Dead(Exec(s, [Enter] + es)) && AtRest(Exec(s, [Enter] + es)) && !Exec(s, [Enter] + es).quit
  {
    var s1 := Apply(s, Enter);
    StepInv(s, Enter);
    es := RunToRest(s1);
    Prepend(s, Enter, es);
    forall e | e in es ensures Mild(e) {
      OwnIsMild(e);
    }
    EarlyQuitIsNeverHonoured(s, es);
    RunInv(s1, es);
    RestIsDone(Exec(s1, es));
  }

  lemma OwnIsMild(e: Event)
    requires OnItsOwn(e)
    ensures Mild(e)
  {}

  // ---------- Exactly when a functor queued before loop() is called ----------

  /** More than n functors have been called, or are in the batch. */
  predicate Taken(s: State, n: nat) {
    |s.started| + |Batch(s)| > n
  }

  /** More than n have been queued, and the loop is sure to take them: it is about to, or it will be woken. */
  predicate WillTake(s: State, n: nat) {
    Taken(s, n)
    || (|s.queued| > n && (SwapAhead(s) || ((s.pc.CheckQuit? || s.pc.Polling?) && !s.quit && s.counter > 0)))
  }

  /** Or some other thread is sure to wake it. */
  ghost predicate WillBeWoken(s: State, n: nat) {
    WillTake(s, n)
    || (|s.queued| > n && (s.pc.CheckQuit? || s.pc.Polling?) && !s.quit && !ThreadsDone(s))
  }

  /** The loop has not taken them, and nothing wakes it. */
  predicate WontTake(s: State, n: nat) {
    |s.started| <= n && (s.pc.CheckQuit? || s.pc.Polling?) && !s.quit && s.counter == 0 && Idle(s)
  }

  /** No thread calls quit directly; the functors it queues may. */
  predicate ThreadsDontQuit(s: State) {
    forall t :: 0 <= t < |s.threads| ==> Quit !in s.threads[t].script
  }

  lemma TakenIsCalled(s: State, n: nat)
    requires Inv(s) && Stuck(s) && WillTake(s, n)
    ensures |s.started| > n
  {}

  lemma LoopTakes(s: State, n: nat, e: Event)
    requires Inv(s) && WillTake(s, n) && Enabled(s, e) && Internal(e)
    ensures WillTake(Apply(s, e), n)
  {}

  lemma OtherThreadsDontHinder(s: State, n: nat, e: Event)
    requires Inv(s) && WillBeWoken(s, n) && ThreadsDontQuit(s) && Enabled(s, e) && (e.ThreadCall? || e.ThreadWrite?)
    ensures WillBeWoken(Apply(s, e), n) && ThreadsDontQuit(Apply(s, e))
  {
    var t := e.t;
    var s' := Apply(s, e);
    var script := s.threads[t].script;
    assert script != [] ==> script[0] in script;
    assert e.ThreadCall? ==> s'.threads[t].owes;
    forall u | 0 <= u < |s'.threads| ensures Quit !in s'.threads[u].script {
      assert forall a :: a in s'.threads[u].script ==> a in s.threads[u].script;
    }
  }

  lemma StepWillBeWoken(s: State, n: nat, e: Event)
    requires Inv(s) && WillBeWoken(s, n) && ThreadsDontQuit(s) && Enabled(s, e) && OnItsOwn(e)
    ensures WillBeWoken(Apply(s, e), n) && ThreadsDontQuit(Apply(s, e))
  {
    if Internal(e) {
      if WillTake(s, n) {
        LoopTakes(s, n, e);
      }
      assert Apply(s, e).threads == s.threads;
    } else {
      OtherThreadsDontHinder(s, n, e);
    }
  }

  lemma {:induction false} RunTakes(s: State, n: nat, es: seq<Event>)
    requires Inv(s) && WillBeWoken(s, n) && ThreadsDontQuit(s)
    requires Legal(s, es) && forall e :: e in es ==> OnItsOwn(e)
    ensures WillBeWoken(Exec(s, es), n) && Inv(Exec(s, es))
    decreases es
  {
    if es != [] {
      assert es[0] in es && forall e :: e in es[1..] ==> e in es;
      StepInv(s, es[0]);
      StepWillBeWoken(s, n, es[0]);
      RunTakes(Apply(s, es[0]), n, es[1..]);
    }
  }

  lemma {:induction false} InternalRunTakes(s: State, n: nat, es: seq<Event>)
    requires Inv(s) && WillTake(s, n) && Legal(s, es) && InternalRun(es)
    ensures WillTake(Exec(s, es), n) && Inv(Exec(s, es))
    decreases es
  {
    if es != [] {
      StepInv(s, es[0]);
      LoopTakes(s, n, es[0]);
      InternalRunTakes(Apply(s, es[0]), n, es[1..]);
    }
  }

  lemma {:induction false} RunDoesNotTake(s: State, n: nat, es: seq<Event>)
    requires WontTake(s, n) && Legal(s, es)
    requires InternalRun(es) || (ThreadsDone(s) && forall e :: e in es ==> OnItsOwn(e))
    ensures WontTake(Exec(s, es), n)
    decreases es
  {
    if es != [] {
      assert es[0] in es && forall e :: e in es[1..] ==> e in es;
      assert Internal(es[0]);
      RunDoesNotTake(Apply(s, es[0]), n, es[1..]);
    }
  }

  /** From the test of quit_ on, left to itself, the loop calls what was queued after the first n if and
      only if a wakeup is in the eventfd. */
  lemma TakenExactly(s: State, n: nat, es: seq<Event>)
    requires Inv(s) && s.pc.CheckQuit? && !s.quit && |s.started| <= n < |s.queued|
    requires Legal(s, es) && InternalRun(es) && Stuck(Exec(s, es))
    ensures |Exec(s, es).started| > n <==> s.counter > 0
  {
    if s.counter > 0 {
      InternalRunTakes(s, n, es);
      TakenIsCalled(Exec(s, es), n);
    } else {
      RunDoesNotTake(s, n, es);
    }
  }

  /** The state after a functor has been queued on the loop thread before loop(), and loop() entered. */
  function QueuedThenEntered(s: State, f: Functor): State
    requires s.pc.Outside? && Idle(s)
  {
    Apply(Apply(Apply(s, Callback([Queue(f)])), Loop), Enter)
  }

  lemma QueuedFacts(s: State, f: Functor)
    requires Inv(s) && s.pc.Outside? && Idle(s)
    ensures var s3 := QueuedThenEntered(s, f);
            && Inv(s3) && s3.pc.CheckQuit? && !s3.quit && Idle(s3) && s3.counter == s.counter
            && s3.threads == s.threads && s3.started == s.started && |s.started| <= |s.queued|
            && s3.queued == s.queued + [f]
  {
    var s1 := Apply(s, Callback([Queue(f)]));
    var s2 := Apply(s1, Loop);
    StepInv(s, Callback([Queue(f)]));
    StepInv(s1, Loop);
    StepInv(s2, Enter);
  }

  /** A functor that the loop thread queues before loop() gets no wakeup of its own. Left to itself, with
      other threads silent, the loop calls it if and only if a wakeup was already in the eventfd: f is
      number |s.queued| of the queue, and functors are called in the order of the queue. */
  lemma QueuedBeforeLoopExactly(s: State, f: Functor, es: seq<Event>)
    requires Inv(s) && s.pc.Outside? && Idle(s)
    requires Legal(QueuedThenEntered(s, f), es) && InternalRun(es) && Stuck(Exec(QueuedThenEntered(s, f), es))
    ensures |Exec(QueuedThenEntered(s, f), es).started| > |s.queued| <==> s.counter > 0
  {
    QueuedFacts(s, f);
    TakenExactly(QueuedThenEntered(s, f), |s.queued|, es);
  }

  /** The same holds of a functor that foreign code queues in the expired-timer phase. */
  lemma QueuedWhileExpiringExactly(s: State, f: Functor, es: seq<Event>)
    requires Inv(s) && s.pc.Expiring? && s.todo == [Queue(f)] && !s.quit
    requires Legal(Advance(Act(s)), es) && InternalRun(es) && Stuck(Exec(Advance(Act(s)), es))
    ensures |Exec(Advance(Act(s)), es).started| > |s.queued| <==> s.counter > 0
  {
    StepInv(s, Loop);
    StepInv(Act(s), Loop);
    TakenExactly(Advance(Act(s)), |s.queued|, es);
  }

  /** And with other threads going on, none of which calls quit directly: if and only if a wakeup was
      already there, or some thread still had a call or a write to make. */
  lemma QueuedAmongThreadsExactly(s: State, f: Functor, es: seq<Event>)
    requires Inv(s) && s.pc.Outside? && Idle(s) && ThreadsDontQuit(s)
    requires Legal(QueuedThenEntered(s, f), es) && (forall e :: e in es ==> OnItsOwn(e))
    requires AtRest(Exec(QueuedThenEntered(s, f), es))
    ensures |Exec(QueuedThenEntered(s, f), es).started| > |s.queued| <==> s.counter > 0 || !ThreadsDone(s)
  {
    var s3 := QueuedThenEntered(s, f);
    QueuedFacts(s, f);
    if s.counter > 0 || !ThreadsDone(s) {
      RunTakes(s3, |s.queued|, es);
      RestIsDone(Exec(s3, es));
      TakenIsCalled(Exec(s3, es), |s.queued|);
    } else {
      RunDoesNotTake(s3, |s.queued|, es);
    }
  }
}
