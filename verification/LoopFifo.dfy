/** The swapping, batch-running loop refines a plain FIFO queue that pops one functor at a time. */
module LoopFifo {
  import opened Functors
  import opened LoopProtocol
  import opened LoopSafety
  import opened LoopDrain

  /** The plain queue: functors waiting, the callback that is executing, and what was called so far. */
  datatype Fifo = Fifo(queue: seq<Functor>, todo: seq<Action>, ran: seq<nat>)

  datatype FifoEvent =
    | Arrive(f: Functor)           // another thread appends a functor
    | Feed(script: seq<Action>)    // a callback that is not in the queue starts
    | Pop                          // the first functor of the queue starts
    | Do                           // the executing callback makes its next call

  predicate FifoEnabled(q: Fifo, e: FifoEvent) {
    match e
    case Arrive(_) => true
    case Feed(_) => q.todo == []
    case Pop => q.todo == [] && q.queue != []
    case Do => q.todo != []
  }

  function FifoApply(q: Fifo, e: FifoEvent): Fifo
    requires FifoEnabled(q, e)
  {
    match e
    case Arrive(f) => q.(queue := q.queue + [f])
    case Feed(script) => q.(todo := script)
    case Pop => Fifo(q.queue[1..], q.queue[0].body, q.ran + [q.queue[0].id])
    case Do =>
      var rest := q.todo[1..];
      match q.todo[0]
      case Queue(f) => Fifo(q.queue + [f], rest, q.ran)
      case Run(f) => Fifo(q.queue, f.body + rest, q.ran + [f.id])
      case Quit => q.(todo := rest)
  }

  predicate FifoLegal(q: Fifo, es: seq<FifoEvent>)
    decreases es
  {
    es == [] || (FifoEnabled(q, es[0]) && FifoLegal(FifoApply(q, es[0]), es[1..]))
  }

  function FifoExec(q: Fifo, es: seq<FifoEvent>): Fifo
    requires FifoLegal(q, es)
    decreases es
  {
    if es == [] then q else FifoExec(FifoApply(q, es[0]), es[1..])
  }

  /** What the loop looks like as a plain queue: the batch and the pending list are one queue. */
  function Abs(s: State): Fifo {
    Fifo(Batch(s) + s.pending, s.todo, s.ran)
  }

  /** The queue events one loop event stands for: at most one. Taking the lock and swapping the lists,
      like everything about the eventfd and quit_, is invisible. */
  function AbsEvents(s: State, e: Event): seq<FifoEvent>
    requires Enabled(s, e)
  {
    match e
    case Loop =>
      if s.owes then []
      else if s.todo != [] then [Do]
      else if s.pc.Calling? && s.pc.batch != [] then [Pop]
      else if s.pc.Handling? && s.pc.active != [] && s.pc.active[0].User? then [Feed(s.pc.active[0].script)]
      else []
    case Callback(script) => [Feed(script)]
    case ThreadCall(t) =>
      if s.threads[t].script[0].Quit? then [] else [Arrive(s.threads[t].script[0].f)]
    case _ => []
  }

  function AbsRun(s: State, es: seq<Event>): seq<FifoEvent>
    requires Legal(s, es)
    decreases es
  {
    if es == [] then [] else AbsEvents(s, es[0]) + AbsRun(Apply(s, es[0]), es[1..])
  }

  lemma ActRefines(s: State)
    requires s.todo != [] && !s.owes
    ensures FifoApply(Abs(s), Do) == Abs(Act(s))
  {}

  lemma AdvanceRefines(s: State)
    requires Inv(s) && Idle(s) && !s.pc.Outside? && !s.pc.Polling?
    ensures AbsEvents(s, Loop) == [] ==> Abs(Advance(s)) == Abs(s)
    ensures AbsEvents(s, Loop) != [] ==>
              FifoEnabled(Abs(s), AbsEvents(s, Loop)[0])
              && FifoApply(Abs(s), AbsEvents(s, Loop)[0]) == Abs(Advance(s))
  {
    match s.pc
    case Calling(batch) =>
      if batch != [] {
        assert (batch + s.pending)[1..] == batch[1..] + s.pending;
      }
    case Swapping =>
      assert s.pending + [] == [] + s.pending;
    case _ =>
  }

  lemma CallRefines(s: State, t: nat)
    requires Enabled(s, ThreadCall(t))
    ensures var a := s.threads[t].script[0];
            Abs(Call(s, t)) == if a.Quit? then Abs(s) else FifoApply(Abs(s), Arrive(a.f))
  {}

  lemma StepRefines(s: State, e: Event)
    requires Inv(s) && Enabled(s, e)
    ensures FifoLegal(Abs(s), AbsEvents(s, e))
    ensures FifoExec(Abs(s), AbsEvents(s, e)) == Abs(Apply(s, e))
  {
    var a := AbsEvents(s, e);
    match e {
      case Loop =>
        if !s.owes {
          if s.todo != [] { ActRefines(s); } else { AdvanceRefines(s); }
        }
      case ThreadCall(t) => CallRefines(s, t);
      case _ =>
    }
    if a != [] {
      assert a[1..] == [];
      assert FifoEnabled(Abs(s), a[0]) && FifoApply(Abs(s), a[0]) == Abs(Apply(s, e));
    }
  }

  lemma {:induction false} FifoAppend(q: Fifo, a: seq<FifoEvent>, b: seq<FifoEvent>)
    requires FifoLegal(q, a) && FifoLegal(FifoExec(q, a), b)
    ensures FifoLegal(q, a + b) && FifoExec(q, a + b) == FifoExec(FifoExec(q, a), b)
    decreases a
  {
    if a == [] {
      assert a + b == b;
    } else {
      assert (a + b)[1..] == a[1..] + b;
      FifoAppend(FifoApply(q, a[0]), a[1..], b);
    }
  }

  /** Every run of the loop, under every interleaving, is a run of the plain queue that calls the same
      functors in the same order. */
  lemma {:induction false} LoopRefinesFifo(s: State, es: seq<Event>)
    requires Inv(s) && Legal(s, es)
    ensures FifoLegal(Abs(s), AbsRun(s, es))
    ensures FifoExec(Abs(s), AbsRun(s, es)) == Abs(Exec(s, es))
    ensures FifoExec(Abs(s), AbsRun(s, es)).ran == Exec(s, es).ran
    decreases es
  {
    if es != [] {
      StepRefines(s, es[0]);
      StepInv(s, es[0]);
      var s1 := Apply(s, es[0]);
      LoopRefinesFifo(s1, es[1..]);
      FifoAppend(Abs(s), AbsEvents(s, es[0]), AbsRun(s1, es[1..]));
    }
  }

  // ---------- With no one else submitting, the order is fixed ----------

  /** What will have been called when the queue has run dry. */
  function Future(q: Fifo): seq<nat> {
    q.ran + RanByActs(q.todo) + FifoOrder(q.queue + PushedByActs(q.todo))
  }

  lemma PopKeepsFuture(q: Fifo)
    requires FifoEnabled(q, Pop)
    ensures Future(FifoApply(q, Pop)) == Future(q)
  {
    var f := q.queue[0];
    assert q.queue + PushedByActs([]) == q.queue;
    assert Future(q) == q.ran + (RanBy(f) + FifoOrder(q.queue[1..] + PushedBy(f)));
  }

  lemma DoKeepsFuture(q: Fifo)
    requires FifoEnabled(q, Do)
    ensures Future(FifoApply(q, Do)) == Future(q)
  {
    var a, rest := q.todo[0], q.todo[1..];
    assert RanByActs(q.todo) == ActRan(a) + RanByActs(rest);
    assert PushedByActs(q.todo) == ActPushed(a) + PushedByActs(rest);
    match a
    case Queue(f) =>
      assert q.queue + PushedByActs(q.todo) == q.queue + [f] + PushedByActs(rest);
    case Run(f) =>
      RanByActsAppend(f.body, rest);
      PushedByActsAppend(f.body, rest);
      assert RanByActs(q.todo) == [f.id] + RanByActs(f.body + rest);
    case Quit =>
      assert RanByActs(q.todo) == RanByActs(rest);
      assert PushedByActs(q.todo) == PushedByActs(rest);
  }

  /** What the handlers that have not been called yet will do. */
  function Scripts(active: seq<Channel>): seq<Action> {
    if active == [] then [] else (if active[0].Wakeup? then [] else active[0].script) + Scripts(active[1..])
  }

  function Handlers(pc: Pc): seq<Action> {
    if pc.Handling? then Scripts(pc.active) else []
  }

  /** The loop as a plain queue that is executing, one after the other, the current callback and the
      handlers still to come. */
  function Ahead(s: State): Fifo {
    Fifo(Batch(s) + s.pending, s.todo + Handlers(s.pc), s.ran)
  }

  lemma ActAhead(s: State)
    requires s.todo != [] && !s.owes
    ensures FifoEnabled(Ahead(s), Do) && Ahead(Act(s)) == FifoApply(Ahead(s), Do)
  {
    var rest, h := s.todo[1..], Handlers(s.pc);
    assert (s.todo + h)[1..] == rest + h;
    match s.todo[0]
    case Queue(f) => assert Batch(s) + (s.pending + [f]) == Batch(s) + s.pending + [f];
    case Run(f) => assert f.body + rest + h == f.body + (rest + h);
    case Quit =>
  }

  lemma PopAhead(s: State)
    requires Idle(s) && s.pc.Calling? && s.pc.batch != []
    ensures FifoEnabled(Ahead(s), Pop) && Ahead(Advance(s)) == FifoApply(Ahead(s), Pop)
  {
    var batch := s.pc.batch;
    assert (batch + s.pending)[1..] == batch[1..] + s.pending;
    assert batch[0].body + [] == batch[0].body && s.todo + [] == [];
  }

  lemma OtherAhead(s: State)
    requires Inv(s) && Idle(s) && !s.pc.Outside? && !s.pc.Polling? && (s.pc.Calling? ==> s.pc.batch == [])
    ensures Ahead(Advance(s)) == Ahead(s)
  {
    match s.pc
    case Handling(active) =>
      if active != [] && active[0].User? {
        assert [] + (active[0].script + Scripts(active[1..])) == active[0].script + Scripts(active[1..]);
      }
    case Swapping => assert s.pending + [] == [] + s.pending;
    case _ =>
  }

  /** No step the loop takes on its own changes what will have been called in the end. */
  lemma StepKeepsFuture(s: State, e: Event)
    requires Inv(s) && Enabled(s, e) && Internal(e)
    ensures Future(Ahead(Apply(s, e))) == Future(Ahead(s))
  {
    if e == Loop {
      if s.owes {
        assert Ahead(Apply(s, e)) == Ahead(s);
      } else if s.todo != [] {
        ActAhead(s);
        DoKeepsFuture(Ahead(s));
      } else if s.pc.Calling? && s.pc.batch != [] {
        PopAhead(s);
        PopKeepsFuture(Ahead(s));
      } else {
        OtherAhead(s);
      }
    } else {
      assert Scripts([Wakeup]) == Scripts([Wakeup][1..]);
      assert Ahead(Apply(s, e)) == Ahead(s);
    }
  }

  lemma {:induction false} ThreadsRest(s: State, es: seq<Event>)
    requires Legal(s, es) && InternalRun(es)
    ensures Exec(s, es).threads == s.threads
    decreases es
  {
    if es != [] {
      ThreadsRest(Apply(s, es[0]), es[1..]);
    }
  }

  lemma {:induction false} RunKeepsFuture(s: State, es: seq<Event>)
    requires Inv(s) && Legal(s, es) && InternalRun(es)
    ensures Future(Ahead(Exec(s, es))) == Future(Ahead(s))
    decreases es
  {
    if es != [] {
      var s1 := Apply(s, es[0]);
      StepKeepsFuture(s, es[0]);
      StepInv(s, es[0]);
      assert Exec(s, es) == Exec(s1, es[1..]);
      RunKeepsFuture(s1, es[1..]);
    }
  }

  /** Left to itself from any point of its turn at which nobody has called quit or queued quietly and
      nothing in existence will, the loop drains in level order: what is executing and the handlers
      still to come, then the functors that are waiting, then everything those queue, and so on. */
  lemma DrainsInLevelOrder(s: State, es: seq<Event>)
    requires Reachable(s) && ThreadsDone(s) && !s.pc.Outside? && NoQuitAnywhere(s) && NothingQuiet(s)
    requires Legal(s, es) && InternalRun(es) && Stuck(Exec(s, es))
    ensures var now := s.todo + Handlers(s.pc);
            Exec(s, es).ran == s.ran + RanByActs(now) + LevelOrder(Batch(s) + s.pending + PushedByActs(now))
  {
    ReachableInv(s);
    RunKeepsFuture(s, es);
    ThreadsRest(s, es);
    var s' := Exec(s, es);
    forall e | e in es ensures Harmless(e) {
      var i :| 0 <= i < |es| && es[i] == e;
      assert Internal(es[i]);
      assert NoQuitActive([Wakeup]);
    }
    EveryFunctorRunsExactlyOnce(s, es);
    BatchesAreFifo(Batch(s) + s.pending + PushedByActs(s.todo + Handlers(s.pc)));
    NothingAhead(s');
  }

  lemma NothingAhead(s: State)
    requires s.pc.Polling? && s.todo == [] && s.pending == []
    ensures Future(Ahead(s)) == s.ran
  {
    assert Ahead(s) == Fifo([], [], s.ran);
    assert Ahead(s).queue + PushedByActs([]) == [];
  }

  // ---------- Each batch is one level ----------

  /** Up to n steps of the loop thread, none of them past the end of the current batch. */
  function BatchSteps(s: State, n: nat): (s': State)
    requires s.pc.Calling?
    ensures s'.pc.Calling?
    decreases n
  {
    if n == 0 || (Idle(s) && s.pc.batch == []) then s else BatchSteps(LoopStep(s), n - 1)
  }

  /** What the pending list will hold, and what will have been called, when the batch is finished and
      nobody else pushes. */
  function NextBatch(s: State): seq<Functor> {
    s.pending + PushedByActs(s.todo) + PushedAll(Batch(s))
  }

  function RanAfterBatch(s: State): seq<nat> {
    s.ran + RanByActs(s.todo) + RanAll(Batch(s))
  }

  lemma BatchStepKeeps(s: State)
    requires s.pc.Calling? && !(Idle(s) && s.pc.batch == [])
    ensures NextBatch(LoopStep(s)) == NextBatch(s)
    ensures RanAfterBatch(LoopStep(s)) == RanAfterBatch(s)
  {
    if !s.owes && s.todo != [] {
      var a, rest := s.todo[0], s.todo[1..];
      assert PushedByActs(s.todo) == ActPushed(a) + PushedByActs(rest);
      assert RanByActs(s.todo) == ActRan(a) + RanByActs(rest);
      match a
      case Queue(f) =>
        assert s.pending + PushedByActs(s.todo) == s.pending + [f] + PushedByActs(rest);
      case Run(f) =>
        PushedByActsAppend(f.body, rest);
        RanByActsAppend(f.body, rest);
        assert ActPushed(a) == PushedByActs(f.body) && ActRan(a) == [f.id] + RanByActs(f.body);
        assert PushedByActs(f.body + rest) == PushedByActs(s.todo);
        assert s.ran + RanByActs(s.todo) == s.ran + [f.id] + RanByActs(f.body + rest);
      case Quit =>
        assert PushedByActs(s.todo) == PushedByActs(rest);
        assert RanByActs(s.todo) == RanByActs(rest);
    } else if !s.owes {
      var batch := s.pc.batch;
      assert s.pending + PushedByActs([]) + PushedAll(batch)
             == s.pending + PushedBy(batch[0]) + PushedAll(batch[1..]);
      assert s.ran + RanByActs([]) + RanAll(batch)
             == s.ran + [batch[0].id] + RanByActs(batch[0].body) + RanAll(batch[1..]);
    }
  }

  lemma {:induction false} BatchStepsKeep(s: State, n: nat)
    requires Inv(s) && s.pc.Calling?
    ensures NextBatch(BatchSteps(s, n)) == NextBatch(s)
    ensures RanAfterBatch(BatchSteps(s, n)) == RanAfterBatch(s)
    ensures n >= Rank(s) ==> Idle(BatchSteps(s, n)) && BatchSteps(s, n).pc.batch == []
    decreases n
  {
    if n > 0 && !(Idle(s) && s.pc.batch == []) {
      BatchStepKeeps(s);
      InternalDecreases(s, Loop);
      StepInv(s, Loop);
      BatchStepsKeep(LoopStep(s), n - 1);
    }
  }

  /** A batch that runs undisturbed calls its own level and leaves exactly the next level pending. */
  lemma BatchIsOneLevel(s: State, n: nat)
    requires Inv(s) && s.pc.Calling? && Idle(s) && s.pending == [] && n >= Rank(s)
    ensures BatchSteps(s, n).pending == PushedAll(s.pc.batch)
    ensures BatchSteps(s, n).ran == s.ran + RanAll(s.pc.batch)
  {
    BatchStepsKeep(s, n);
    BatchEnds(s);
    BatchEnds(BatchSteps(s, n));
  }

  lemma BatchEnds(s: State)
    requires s.pc.Calling? && s.todo == []
    ensures s.pending == [] ==> NextBatch(s) == PushedAll(s.pc.batch)
    ensures s.pc.batch == [] ==> NextBatch(s) == s.pending && RanAfterBatch(s) == s.ran
    ensures RanAfterBatch(s) == s.ran + RanAll(s.pc.batch)
  {}
}
