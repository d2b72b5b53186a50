/** The event loop and the threads that talk to it, as one labelled transition system.

    Every event is one atomic step of one party: a statement of the loop thread, one half of a call by
    another thread (the push or store under the lock, then, separately, the write to the eventfd), or
    the kernel delivering events. A run is any list of events, so a statement about every run is a
    statement about every interleaving of any number of threads. */
module LoopProtocol {
  import opened Functors

  /** The largest value an eventfd can hold; one more write fails with EAGAIN. */
  const EVENTFD_MAX: nat := 0xffff_ffff_ffff_fffe

  /** An active channel: the wakeup channel, whose handler is handleRead, or one of the program's own,
      whose handlers make the given calls. */
  datatype Channel = Wakeup | User(script: seq<Action>)

  /** Where the loop thread is. Outside: not in loop(), before or after it. */
  datatype Pc =
    | Outside
    | CheckQuit
    | Polling
    | Handling(active: seq<Channel>)
    | Swapping
    | Calling(batch: seq<Functor>)
    | Expiring

  /** Another thread: the calls it still has to make, and whether it has pushed or stored but not yet
      written the eventfd. */
  datatype Thread = Thread(script: seq<Action>, owes: bool)

  datatype State = State(
    pc: Pc,
    todo: seq<Action>,         // what the callback that is executing still has to do
    owes: bool,                // the loop thread itself has pushed but not yet written the eventfd
    quit: bool,                // quit_
    pending: seq<Functor>,     // pendingFunctors_
    counter: nat,              // the eventfd
    ready: bool,               // its edge-triggered notification, not yet delivered
    threads: seq<Thread>,
    // history
    queued: seq<Functor>,      // every functor ever pushed, in lock order
    started: seq<Functor>,     // every functor ever taken from a batch and called
    ran: seq<nat>,             // every functor ever called, from a batch or directly
    quiet: nat,                // how many of pending were pushed by the loop thread where no swap follows
    polls: nat,                // returns from poll since quit_ became true
    wakes: nat)                // calls of wakeup() by the loop thread itself

  datatype Event =
    | Loop                                // the next statement of the loop thread
    | Enter                               // loop() is entered
    | Callback(script: seq<Action>)       // the loop thread runs foreign code outside handlers and functors
    | PollReturn(active: seq<Channel>)    // epoll_wait reports something
    | DropEdge                            // epoll_wait finds the eventfd drained and forgets the edge
    | ThreadCall(t: nat)                  // thread t pushes a functor, or stores quit_
    | ThreadWrite(t: nat)                 // thread t writes the eventfd

  ghost predicate Init(s: State) {
    && s.pc == Outside && s.todo == [] && !s.owes && !s.quit && s.pending == []
    && s.counter == 0 && !s.ready
    && (forall i :: 0 <= i < |s.threads| ==> !s.threads[i].owes)
    && s.queued == [] && s.started == [] && s.ran == [] && s.quiet == 0 && s.polls == 0 && s.wakes == 0
  }

  // ---------- The effects ----------

  /** Push under the lock (net/EventLoop.cpp:91-94). */
  function Push(s: State, f: Functor, quiet: nat): State {
    s.(pending := s.pending + [f], queued := s.queued + [f], quiet := s.quiet + quiet)
  }

  /** quit_ = true (net/EventLoop.cpp:153). */
  function SetQuit(s: State): State {
    s.(quit := true, polls := if s.quit then s.polls else 0)
  }

  /** wakeup(): add one to the eventfd and raise its edge, unless it is full (net/EventLoop.cpp:53-62). */
  function Write(s: State): State {
    if s.counter == EVENTFD_MAX then s else s.(counter := s.counter + 1, ready := true)
  }

  /** The loop thread makes the next call of the callback it is executing. A functor queued by a
      functor is followed by a wakeup (callingPendingFunctors_); one queued anywhere else is not. */
  function Act(s: State): State
    requires s.todo != []
  {
    var rest := s.todo[1..];
    match s.todo[0]
    case Queue(f) =>
      Push(s, f, if s.pc.Outside? || s.pc.Expiring? then 1 else 0).(todo := rest, owes := s.pc.Calling?)
    case Run(f) =>
      s.(todo := f.body + rest, ran := s.ran + [f.id])
    case Quit =>
      SetQuit(s).(todo := rest)
  }

  /** The loop thread, between callbacks. */
  function Advance(s: State): State
    requires !s.pc.Outside? && !s.pc.Polling?
  {
    match s.pc
    case CheckQuit =>
      s.(pc := if s.quit then Outside else Polling)
    case Handling(active) =>
      if active == [] then s.(pc := Swapping)
      else if active[0].Wakeup? then s.(pc := Handling(active[1..]), counter := 0)
      else s.(pc := Handling(active[1..]), todo := active[0].script)
    case Swapping =>
      s.(pc := Calling(s.pending), pending := [], quiet := 0)
    case Calling(batch) =>
      if batch == [] then s.(pc := Expiring)
      else s.(pc := Calling(batch[1..]), todo := batch[0].body,
              started := s.started + [batch[0]], ran := s.ran + [batch[0].id])
    case Expiring =>
      s.(pc := CheckQuit)
  }

  function LoopStep(s: State): State
    requires Busy(s)
  {
    if s.owes then Write(s).(owes := false, wakes := s.wakes + 1)
    else if s.todo != [] then Act(s)
    else Advance(s)
  }

  function Call(s: State, t: nat): State
    requires t < |s.threads| && s.threads[t].script != []
  {
    var a := s.threads[t].script[0];
    var s1 := if a.Quit? then SetQuit(s) else Push(s, a.f, 0);
    s1.(threads := s.threads[t := Thread(s.threads[t].script[1..], true)])
  }

  // ---------- The transition system ----------

  /** The loop thread has a statement of its own to execute. */
  predicate Busy(s: State) {
    s.owes || s.todo != [] || (!s.pc.Outside? && !s.pc.Polling?)
  }

  predicate Idle(s: State) {
    !s.owes && s.todo == []
  }

  /** The wakeup channel is something epoll_wait would report. */
  predicate Woken(s: State) {
    s.ready && s.counter > 0
  }

  /** epoll_wait never reports an empty list, reports a descriptor at most once, and reports the
      eventfd only if its edge is up and it is readable. */
  predicate CanReport(s: State, active: seq<Channel>) {
    && active != []
    && (forall i, j :: 0 <= i < j < |active| && active[i].Wakeup? ==> !active[j].Wakeup?)
    && (Wakeup in active ==> Woken(s))
  }

  predicate Enabled(s: State, e: Event) {
    match e
    case Loop => Busy(s)
    case Enter => s.pc.Outside? && Idle(s)
    case Callback(_) => (s.pc.Outside? || s.pc.Expiring?) && Idle(s)
    case PollReturn(active) => s.pc.Polling? && CanReport(s, active)
    case DropEdge => s.pc.Polling? && s.ready && s.counter == 0
    case ThreadCall(t) => t < |s.threads| && !s.threads[t].owes && s.threads[t].script != []
    case ThreadWrite(t) => t < |s.threads| && s.threads[t].owes
  }

  function Apply(s: State, e: Event): State
    requires Enabled(s, e)
  {
    match e
    case Loop => LoopStep(s)
    case Enter => s.(pc := CheckQuit, quit := false)
    case Callback(script) => s.(todo := script)
    case PollReturn(active) =>
      s.(pc := Handling(active), ready := s.ready && Wakeup !in active,
         polls := if s.quit then s.polls + 1 else s.polls)
    case DropEdge => s.(ready := false)
    case ThreadCall(t) => Call(s, t)
    case ThreadWrite(t) => Write(s).(threads := s.threads[t := s.threads[t].(owes := false)])
  }

  predicate Legal(s: State, es: seq<Event>)
    decreases es
  {
    es == [] || (Enabled(s, es[0]) && Legal(Apply(s, es[0]), es[1..]))
  }

  function Exec(s: State, es: seq<Event>): State
    requires Legal(s, es)
    decreases es
  {
    if es == [] then s else Exec(Apply(s, es[0]), es[1..])
  }

  /** Runs compose. */
  lemma {:induction false} ExecAppend(s: State, a: seq<Event>, b: seq<Event>)
    requires Legal(s, a)
    ensures Legal(s, a + b) <==> Legal(Exec(s, a), b)
    ensures Legal(s, a + b) ==> Exec(s, a + b) == Exec(Exec(s, a), b)
    decreases a
  {
    if a == [] {
      assert a + b == b;
    } else {
      assert (a + b)[1..] == a[1..] + b;
      ExecAppend(Apply(s, a[0]), a[1..], b);
    }
  }

  /** A run that begins with e. */
  lemma Prepend(s: State, e: Event, es: seq<Event>)
    requires Enabled(s, e) && Legal(Apply(s, e), es)
    ensures Legal(s, [e] + es) && Exec(s, [e] + es) == Exec(Apply(s, e), es)
  {}
}
