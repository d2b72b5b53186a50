/** CountDownLatch: a counter, a mutex and a condition variable, with spurious wakeups. Each event is
    one critical section, or one wakeup. */
module Latch {

  /** A thread that may call wait(): not yet, in the condition's wait set, woken and about to take the
      mutex and test again, or returned. */
  datatype Waiter = Before | Asleep | Woken | Returned

  datatype State = State(count: int, waiters: seq<Waiter>)

  datatype Event = Wait(t: nat) | Recheck(t: nat) | Spurious(t: nat) | CountDown

  predicate Enabled(s: State, e: Event) {
    match e
    case Wait(t) => t < |s.waiters| && s.waiters[t].Before?
    case Recheck(t) => t < |s.waiters| && s.waiters[t].Woken?
    case Spurious(t) => t < |s.waiters| && s.waiters[t].Asleep?
    case CountDown => true
  }

  /** The guarded wait: sleep while the count is positive. */
  function Test(s: State, t: nat): State
    requires t < |s.waiters|
  {
    s.(waiters := s.waiters[t := if s.count > 0 then Asleep else Returned])
  }

  function WakeAll(waiters: seq<Waiter>): (woken: seq<Waiter>)
    ensures |woken| == |waiters|
    ensures forall t :: 0 <= t < |waiters| ==> woken[t] == if waiters[t].Asleep? then Woken else waiters[t]
  {
    if waiters == [] then []
    else [if waiters[0].Asleep? then Woken else waiters[0]] + WakeAll(waiters[1..])
  }

  /** Decrement, and broadcast only at the exact transition to zero. */
  function Down(s: State): State {
    State(s.count - 1, if s.count - 1 == 0 then WakeAll(s.waiters) else s.waiters)
  }

  function Apply(s: State, e: Event): State
    requires Enabled(s, e)
  {
    match e
    case Wait(t) => Test(s, t)
    case Recheck(t) => Test(s, t)
    case Spurious(t) => s.(waiters := s.waiters[t := Woken])
    case CountDown => Down(s)
  }

  predicate Legal(s: State, es: seq<Event>)
    decreases es
  {
    es == [] || (Enabled(s, es[0]) && Legal(Apply(s, es[0]), es[1..]))
  }

  function Exec(s: State, es: seq<Event>): State
    requires Legal(s, es)
    decreases es
  {
    if es == [] then s else Exec(Apply(s, es[0]), es[1..])
  }

  ghost predicate Init(s: State) {
    forall t :: 0 <= t < |s.waiters| ==> s.waiters[t].Before?
  }

  /** No one sleeps once the count is not positive, and no one has returned while it is. */
  ghost predicate Inv(s: State) {
    && (s.count <= 0 ==> forall t :: 0 <= t < |s.waiters| ==> !s.waiters[t].Asleep?)
    && (s.count > 0 ==> forall t :: 0 <= t < |s.waiters| ==> !s.waiters[t].Returned?)
  }

  lemma StepInv(s: State, e: Event)
    requires Inv(s) && Enabled(s, e)
    ensures Inv(Apply(s, e))
  {}

  /** A countDown wakes every sleeper if it brings the count to zero, and otherwise nobody; it moves nobody
      else. */
  lemma DownWakesExactly(s: State, t: nat)
    requires Inv(s) && t < |s.waiters|
    ensures var s' := Apply(s, CountDown);
            && s'.count == s.count - 1 && |s'.waiters| == |s.waiters|
            && (s'.waiters[t] != s.waiters[t] <==> s.count == 1 && s.waiters[t].Asleep?)
            && (s.count == 1 && s.waiters[t].Asleep? ==> s'.waiters[t].Woken?)
  {}

  function Downs(es: seq<Event>): nat {
    if es == [] then 0 else (if es[0].CountDown? then 1 else 0) + Downs(es[1..])
  }

  lemma {:induction false} RunInv(s: State, es: seq<Event>)
    requires Inv(s) && Legal(s, es)
    ensures Inv(Exec(s, es)) && Exec(s, es).count == s.count - Downs(es)
    ensures |Exec(s, es).waiters| == |s.waiters|
    decreases es
  {
    if es != [] {
      StepInv(s, es[0]);
      RunInv(Apply(s, es[0]), es[1..]);
    }
  }

  /** Over every interleaving, with spurious wakeups, from any initial count: as long as there have been
      fewer countDowns than that, no wait has returned; once there have been as many, nobody sleeps,
      although only one of them broadcasts. */
  lemma LatchIsSafe(s: State, es: seq<Event>)
    requires Init(s) && Legal(s, es)
    ensures |Exec(s, es).waiters| == |s.waiters|
    ensures Downs(es) < s.count ==> forall t :: 0 <= t < |s.waiters| ==> !Exec(s, es).waiters[t].Returned?
    ensures Downs(es) >= s.count ==> forall t :: 0 <= t < |s.waiters| ==> !Exec(s, es).waiters[t].Asleep?
  {
    RunInv(s, es);
  }

  /** Once the latch is open, every thread that waits, or starts to, returns by its own next step. */
  lemma OpenLatchLetsGo(s: State, es: seq<Event>, t: nat)
    requires Init(s) && Legal(s, es) && Downs(es) >= s.count && t < |s.waiters|
    ensures var s' := Exec(s, es);
            t < |s'.waiters| &&
            (s'.waiters[t].Returned?
             || (Enabled(s', Wait(t)) && Apply(s', Wait(t)).waiters[t].Returned?)
             || (Enabled(s', Recheck(t)) && Apply(s', Recheck(t)).waiters[t].Returned?))
  {
    RunInv(s, es);
  }

  // ---------- The object ----------

  class CountDownLatch {
    var count: int

    /** The threads that may wait, and what they are doing. */
    var waiters: seq<Waiter>

    ghost function View(): State
      reads this
    {
      State(count, waiters)
    }

    ghost predicate Valid()
      reads this
    {
      Inv(View())
    }

    constructor (count: int, threads: nat)
      ensures Valid() && Init(View()) && this.count == count && |waiters| == threads
    {
      this.count := count;
      waiters := seq(threads, _ => Before);
    }

    /** One critical section of wait(), on entry or after a wakeup. */
    method TestOrSleep(t: nat)
      requires Valid() && t < |waiters| && (waiters[t].Before? || waiters[t].Woken?)
      modifies this
      ensures Valid() && View() == Test(old(View()), t)
      ensures count == old(count) && waiters == old(waiters)[t := if count > 0 then Asleep else Returned]
    {
      if count > 0 {
        waiters := waiters[t := Asleep];
      } else {
        waiters := waiters[t := Returned];
      }
    }

    method CountDown()
      requires Valid()
      modifies this
      ensures Valid() && View() == Down(old(View()))
      ensures count == old(count) - 1 && |waiters| == |old(waiters)|
      ensures forall t :: 0 <= t < |waiters| ==>
                waiters[t] == if count == 0 && old(waiters)[t].Asleep? then Woken else old(waiters)[t]
    {
      count := count - 1;
      if count == 0 {
        NotifyAll();
      }
    }

    method NotifyAll()
      modifies this`waiters
      ensures waiters == WakeAll(old(waiters))
    {
      var woken := [];
      var t := 0;
      while t < |waiters|
        invariant 0 <= t <= |waiters|
        invariant |woken| == t
        invariant forall i :: 0 <= i < t ==> woken[i] == if waiters[i].Asleep? then Woken else waiters[i]
      {
        woken := woken + [if waiters[t].Asleep? then Woken else waiters[t]];
        t := t + 1;
      }
      assert woken == WakeAll(waiters);
      waiters := woken;
    }

    /** Other threads: any number of critical sections of other waiters, countDowns, and spurious
        wakeups, also of the given thread. */
    method OtherThreads(me: nat)
      requires Valid() && me < |waiters|
      modifies this
      ensures Valid() && |waiters| == |old(waiters)| && count <= old(count)
      ensures waiters[me] == old(waiters)[me] || (old(waiters)[me].Asleep? && waiters[me].Woken?)
    {
      var n: nat := *;
      while n > 0
        invariant Valid() && |waiters| == |old(waiters)| && count <= old(count)
        invariant waiters[me] == old(waiters)[me] || (old(waiters)[me].Asleep? && waiters[me].Woken?)
      {
        var t: nat, what: bool := *, *;
        if t < |waiters| && t != me && (waiters[t].Before? || waiters[t].Woken?) {
          TestOrSleep(t);
        } else if t < |waiters| && waiters[t].Asleep? && what {
          waiters := waiters[t := Woken];
        } else {
          CountDown();
        }
        n := n - 1;
      }
    }

    /** wait() by thread me, while other threads interfere: it returns only when the count is no longer
        positive. If it has not returned when patience runs out, it sleeps on a count that is positive,
        or has been woken. */
    method Wait(me: nat, patience: nat) returns (done: bool)
      requires Valid() && me < |waiters| && waiters[me].Before?
      modifies this
      ensures Valid() && |waiters| == |old(waiters)|
      ensures done <==> waiters[me].Returned?
      ensures done ==> count <= 0
      ensures !done ==> waiters[me].Woken? || (waiters[me].Asleep? && count > 0)
    {
      OtherThreads(me);
      TestOrSleep(me);
      var left := patience;
      while !waiters[me].Returned? && left > 0
        invariant Valid() && |waiters| == |old(waiters)| && !waiters[me].Before?
      {
        OtherThreads(me);
        if waiters[me].Woken? {
          TestOrSleep(me);
        }
        left := left - 1;
      }
      done := waiters[me].Returned?;
    }
  }
}
