/** The timer queue: a binary min-heap of timers, cancelled lazily by a flag and drained from the top. */
module Timers {
  import opened Clock
  import opened Heap

  class Timer {
    var deleted: bool
    var expiredTime: nat

    constructor (now: Time, timeout: int)
      ensures !deleted && expiredTime == Expiry(now, timeout)
    {
      deleted := false;
      expiredTime := Expiry(now, timeout);
    }

    method SetDeleted()
      modifies this`deleted
      ensures deleted
    {
      deleted := true;
    }

    method IsValid(now: Time) returns (valid: bool)
      modifies this`deleted
      ensures valid == StillValid(now, expiredTime) && deleted == (old(deleted) || !valid)
    {
      if Folded(now) < expiredTime {
        valid := true;
      } else {
        SetDeleted();
        valid := false;
      }
    }

    method Update(now: Time, timeout: int)
      modifies this`expiredTime
      ensures expiredTime == Expiry(now, timeout)
    {
      expiredTime := Expiry(now, timeout);
    }
  }

  // ---------- The heap ----------

  /** The keys of the timers of q, in order. */
  ghost predicate KeyedBy(q: seq<Timer>, keys: seq<nat>)
    reads q`expiredTime
  {
    |keys| == |q| && forall i :: 0 <= i < |q| ==> q[i].expiredTime == keys[i]
  }

  method SiftUp(q: seq<Timer>, k: nat, ghost keys: seq<nat>) returns (h: seq<Timer>, ghost hkeys: seq<nat>)
    requires KeyedBy(q, keys) && k < |q| && HeapButUp(keys, k)
    ensures KeyedBy(h, hkeys) && IsHeap(hkeys) && multiset(h) == multiset(q)
  {
    h, hkeys := q, keys;
    var i := k;
    while i > 0 && h[i].expiredTime < h[(i - 1) / 2].expiredTime
      invariant 0 <= i < |h| && KeyedBy(h, hkeys) && multiset(h) == multiset(q)
      invariant HeapButUp(hkeys, i)
    {
      var p := (i - 1) / 2;
      UpStep(hkeys, p, i);
      SwapPermutes(h, i, p);
      h, hkeys := Swap(h, i, p), Swap(hkeys, i, p);
      i := p;
    }
    UpDone(hkeys, i);
  }

  method SiftDown(q: seq<Timer>, ghost keys: seq<nat>) returns (h: seq<Timer>, ghost hkeys: seq<nat>)
    requires KeyedBy(q, keys) && HeapButDown(keys, 0)
    ensures KeyedBy(h, hkeys) && IsHeap(hkeys) && multiset(h) == multiset(q)
  {
    h, hkeys := q, keys;
    var i := 0;
    while 2 * i + 1 < |h|
      invariant 0 <= i && |h| == |q| && KeyedBy(h, hkeys) && multiset(h) == multiset(q)
      invariant HeapButDown(hkeys, i)
      decreases |h| - i
    {
      var c := 2 * i + 1;
      if c + 1 < |h| && h[c + 1].expiredTime < h[c].expiredTime {
        c := c + 1;
      }
      if h[i].expiredTime <= h[c].expiredTime {
        break;
      }
      DownStep(hkeys, i, c);
      SwapPermutes(h, i, c);
      h, hkeys := Swap(h, i, c), Swap(hkeys, i, c);
      i := c;
    }
    DownDone(hkeys, i);
  }

  lemma DroppedLast(q: seq<Timer>, moved: seq<Timer>)
    requires q != [] && |moved| == |q| && multiset(moved) == multiset(q) && moved[|q| - 1] == q[0]
    ensures multiset(moved[..|q| - 1]) == multiset(q) - multiset{q[0]}
  {
    assert moved == moved[..|q| - 1] + [q[0]];
  }

  /** Move the last timer to the top, drop the last place, and sift down. */
  method RemoveTop(q: seq<Timer>, ghost keys: seq<nat>) returns (h: seq<Timer>, ghost hkeys: seq<nat>)
    requires q != [] && KeyedBy(q, keys) && IsHeap(keys)
    ensures KeyedBy(h, hkeys) && IsHeap(hkeys) && multiset(h) == multiset(q) - multiset{q[0]}
  {
    var n := |q| - 1;
    var moved := Swap(q, 0, n);
    SwapPermutes(q, 0, n);
    PopDisturbs(keys);
    DroppedLast(q, moved);
    h, hkeys := SiftDown(moved[..n], Swap(keys, 0, n)[..n]);
  }

  // ---------- The eager set the lazy queue stands for ----------

  /** One step of a program: set a timer, clear the i-th timer set so far, drain at a given time. */
  datatype TimerOp = Set(now: Time, timeout: int) | Clear(i: nat) | Expire(now: Time)

  /** The timers that are live, by number, with their expiry times; and how many were ever set. */
  datatype EagerSet = EagerSet(live: map<nat, nat>, count: nat)

  function EagerDrain(m: map<nat, nat>, now: Time): map<nat, nat> {
    map i | i in m && StillValid(now, m[i]) :: m[i]
  }

  /** Cancelled and expired timers leave the set at once. */
  function EagerStep(s: EagerSet, op: TimerOp): EagerSet {
    match op
    case Set(now, timeout) => EagerSet(s.live[s.count := Expiry(now, timeout)], s.count + 1)
    case Clear(i) => EagerSet(s.live - {i}, s.count)
    case Expire(now) => EagerSet(EagerDrain(s.live, now), s.count)
  }

  function Eager(ops: seq<TimerOp>): EagerSet {
    if ops == [] then EagerSet(map[], 0) else EagerStep(Eager(ops[..|ops| - 1]), ops[|ops| - 1])
  }

  // ---------- The eager set in terms of the program alone ----------

  /** How many timers a program sets: the one set at position p is number Sets(ops[..p]). */
  function Sets(ops: seq<TimerOp>): nat {
    if ops == [] then 0 else Sets(ops[..|ops| - 1]) + if ops[|ops| - 1].Set? then 1 else 0
  }

  /** The timer set at position p has been neither cleared since, nor drained at a time that had reached
      its expiry. */
  ghost predicate Lives(ops: seq<TimerOp>, p: nat)
    requires p < |ops| && ops[p].Set?
  {
    forall q :: p < q < |ops| ==>
      && ops[q] != Clear(Sets(ops[..p]))
      && (ops[q].Expire? ==> Folded(ops[q].now) < Expiry(ops[p].now, ops[p].timeout))
  }

  lemma {:induction false} EagerCounts(ops: seq<TimerOp>)
    ensures Eager(ops).count == Sets(ops) && forall i :: i in Eager(ops).live ==> i < Sets(ops)
  {
    if ops != [] {
      EagerCounts(ops[..|ops| - 1]);
    }
  }

  lemma {:induction false} SetsGrow(ops: seq<TimerOp>, p: nat)
    requires p < |ops| && ops[p].Set?
    ensures Sets(ops[..p]) < Sets(ops)
    decreases |ops|
  {
    var m := |ops| - 1;
    if p < m {
      assert ops[..m][..p] == ops[..p];
      SetsGrow(ops[..m], p);
    }
  }

  lemma LivesStep(ops: seq<TimerOp>, p: nat)
    requires p < |ops| - 1 && ops[p].Set?
    ensures var m := |ops| - 1;
            Lives(ops, p) <==>
            && Lives(ops[..m], p) && ops[m] != Clear(Sets(ops[..p]))
            && (ops[m].Expire? ==> Folded(ops[m].now) < Expiry(ops[p].now, ops[p].timeout))
  {
    var m := |ops| - 1;
    assert ops[..m][..p] == ops[..p];
    assert forall q :: 0 <= q < m ==> ops[..m][q] == ops[q];
    if Lives(ops[..m], p) {
      assert forall q :: p < q < m ==> ops[..m][q] != Clear(Sets(ops[..p]));
    }
    if Lives(ops, p) {
      forall q | p < q < m
        ensures ops[..m][q] != Clear(Sets(ops[..p]))
        ensures ops[..m][q].Expire? ==> Folded(ops[..m][q].now) < Expiry(ops[p].now, ops[p].timeout)
      {
        assert ops[q] != Clear(Sets(ops[..p]));
      }
    }
  }

  /** A timer is in the eager set exactly when it lives, and with the expiry it was set to. */
  lemma {:induction false} EagerExactly(ops: seq<TimerOp>, p: nat)
    requires p < |ops| && ops[p].Set?
    ensures Sets(ops[..p]) in Eager(ops).live <==> Lives(ops, p)
    ensures Lives(ops, p) ==> Eager(ops).live[Sets(ops[..p])] == Expiry(ops[p].now, ops[p].timeout)
    decreases |ops|
  {
    var m := |ops| - 1;
    EagerCounts(ops[..m]);
    if p < m {
      assert ops[..m][..p] == ops[..p];
      EagerExactly(ops[..m], p);
      SetsGrow(ops[..m], p);
      LivesStep(ops, p);
    }
  }

  class TimerQueue {
    var timerQueue: seq<Timer>

    /** The expiry times of the timers, in the order of the heap. */
    ghost var keys: seq<nat>

    ghost predicate Valid()
      reads this, timerQueue`expiredTime
    {
      KeyedBy(timerQueue, keys) && IsHeap(keys)
    }

    constructor ()
      ensures Valid() && timerQueue == []
    {
      timerQueue, keys := [], [];
    }

    method Push(t: Timer)
      requires Valid()
      modifies this
      ensures Valid() && multiset(timerQueue) == multiset(old(timerQueue)) + multiset{t}
    {
      PushDisturbs(keys, t.expiredTime);
      timerQueue, keys := SiftUp(timerQueue + [t], |timerQueue|, keys + [t.expiredTime]);
    }

    /** The first timer to expire. */
    method Top() returns (t: Timer)
      requires Valid() && timerQueue != []
      ensures t in timerQueue && t == timerQueue[0]
      ensures forall u :: u in timerQueue ==> t.expiredTime <= u.expiredTime
    {
      t := timerQueue[0];
      forall u | u in timerQueue
        ensures t.expiredTime <= u.expiredTime
      {
        var i :| 0 <= i < |timerQueue| && timerQueue[i] == u;
        RootIsLeast(keys, i);
      }
    }

    method Pop()
      requires Valid() && timerQueue != []
      modifies this
      ensures Valid() && multiset(timerQueue) == multiset(old(timerQueue)) - multiset{old(timerQueue)[0]}
      ensures old(timerQueue)[0] in multiset(old(timerQueue))
    {
      timerQueue, keys := RemoveTop(timerQueue, keys);
    }

    method AddTimer(now: Time, timeout: int) returns (t: Timer)
      requires Valid()
      modifies this
      ensures Valid() && fresh(t) && !t.deleted && t.expiredTime == Expiry(now, timeout)
      ensures multiset(timerQueue) == multiset(old(timerQueue)) + multiset{t}
    {
      t := new Timer(now, timeout);
      Push(t);
    }

    /** Timer::update on a timer that is in the queue, in one place: the queue is not told. It remains a
        heap exactly when the new expiry fits. */
    method UpdateQueued(i: nat, now: Time, timeout: int)
      requires Valid() && i < |timerQueue|
      requires forall j :: 0 <= j < |timerQueue| && j != i ==> timerQueue[j] != timerQueue[i]
      modifies this`keys, {timerQueue[i]}`expiredTime
      ensures keys == old(keys)[i := Expiry(now, timeout)] && KeyedBy(timerQueue, keys)
      ensures Valid() <==> (forall p: nat :: Child(p, i) ==> keys[p] <= keys[i])
                           && (forall c: nat :: Child(i, c) && c < |keys| ==> keys[i] <= keys[c])
    {
      timerQueue[i].Update(now, timeout);
      UpdateInPlaceExactly(keys, i, Expiry(now, timeout));
      keys := keys[i := Expiry(now, timeout)];
    }

    /** Drain from the top. The i-th look at the clock reads clock(i); n is the number of looks taken.
        Whatever the clock does: the clock is looked at once for each popped timer that was not
        cancelled already, and that timer had expired at its own look; timers are popped in order of
        expiry; and unless the queue is empty, one more look found the first timer valid, and
        everything left expires after it. */
    method HandleExpiredTimer(clock: nat -> Time) returns (popped: seq<Timer>, n: nat)
      requires Valid()
      modifies this, timerQueue`deleted
      ensures Valid() && multiset(popped) + multiset(timerQueue) == multiset(old(timerQueue))
      ensures forall t :: t in old(timerQueue) <==> t in popped || t in timerQueue
      ensures Sorted(popped, timerQueue)
      ensures PoppedRightly(popped, old(Cancelled()), clock) && forall t :: t in popped ==> t.deleted
      ensures n == Looks(popped, old(Cancelled())) + if timerQueue == [] then 0 else 1
      ensures timerQueue != [] ==> !timerQueue[0].deleted
      ensures timerQueue != [] ==> forall t :: t in timerQueue ==> StillValid(clock(n - 1), t.expiredTime)
      ensures forall t :: t in timerQueue && t !in popped ==> (t.deleted <==> t in old(Cancelled()))
    {
      popped := [];
      n := 0;
      ghost var start, cancelled := timerQueue, Cancelled();
      var done := false;
      while timerQueue != [] && !done
        invariant Progress(popped, start, cancelled, clock)
        invariant n == Looks(popped, cancelled) + if done then 1 else 0
        invariant forall i :: 0 <= i < |timerQueue| ==> timerQueue[i] in start
        invariant done ==> timerQueue != [] && !timerQueue[0].deleted
        invariant done ==> forall t :: t in timerQueue ==> StillValid(clock(n - 1), t.expiredTime)
        decreases |timerQueue|, !done
      {
        popped, n, done := DrainStep(popped, start, cancelled, clock, n);
      }
      Members(popped, timerQueue, start);
    }

    /** A drain that began with the timers of start, the given ones cancelled, has popped so many. */
    ghost predicate Progress(popped: seq<Timer>, start: seq<Timer>, cancelled: set<Timer>, clock: nat -> Time)
      reads this, timerQueue, popped
    {
      && Valid()
      && multiset(popped) + multiset(timerQueue) == multiset(start)
      && Sorted(popped, timerQueue)
      && PoppedRightly(popped, cancelled, clock)
      && (forall t :: t in popped ==> t.deleted)
      && (forall t :: t in timerQueue && t !in popped ==> (t.deleted <==> t in cancelled))
    }

    method DrainStep(popped: seq<Timer>, ghost start: seq<Timer>, ghost cancelled: set<Timer>,
                     clock: nat -> Time, n: nat)
      returns (popped': seq<Timer>, n': nat, done: bool)
      requires timerQueue != [] && Progress(popped, start, cancelled, clock) && n == Looks(popped, cancelled)
      modifies this, timerQueue`deleted
      ensures Progress(popped', start, cancelled, clock)
      ensures n' == Looks(popped', cancelled) + if done then 1 else 0
      ensures done ==> timerQueue == old(timerQueue) && timerQueue != [] && !timerQueue[0].deleted
      ensures done ==> forall t :: t in timerQueue ==> StillValid(clock(n' - 1), t.expiredTime)
      ensures !done ==> |timerQueue| < |old(timerQueue)|
      ensures forall i :: 0 <= i < |timerQueue| ==> timerQueue[i] in old(timerQueue)
    {
      ghost var before := timerQueue;
      var top, drained, looked := DrainTop(clock(n));
      n' := if looked then n + 1 else n;
      done := !drained;
      popped' := popped;
      assert looked <==> !(top in cancelled || top in popped);
      assert forall t :: t in popped ==> t.deleted;
      if drained {
        PopKeepsProgress(popped, before, start, cancelled, clock, looked, top);
        popped' := popped + [top];
      }
    }

    /** Progress is kept by popping the first timer of before, which was cancelled or has expired. */
    lemma PopKeepsProgress(popped: seq<Timer>, before: seq<Timer>, start: seq<Timer>, cancelled: set<Timer>,
                           clock: nat -> Time, looked: bool, top: Timer)
      requires Valid() && multiset(timerQueue) + multiset{top} == multiset(before)
      requires multiset(popped) + multiset(before) == multiset(start)
      requires Sorted(popped, before) && PoppedRightly(popped, cancelled, clock)
      requires top in before && forall u :: u in before ==> top.expiredTime <= u.expiredTime
      requires looked <==> !(top in cancelled || top in popped)
      requires looked ==> !StillValid(clock(Looks(popped, cancelled)), top.expiredTime)
      requires top.deleted && forall t :: t in popped ==> t.deleted
      requires forall t :: t in before && t != top && t !in popped ==> (t.deleted <==> t in cancelled)
      ensures Progress(popped + [top], start, cancelled, clock)
      ensures Looks(popped + [top], cancelled) == Looks(popped, cancelled) + if looked then 1 else 0
    {
      Members([top], timerQueue, before);
      SortedAppend(popped, before, top, timerQueue);
      LooksAppend(popped, cancelled, top);
      PoppedRightlyAppend(popped, cancelled, clock, top);
    }

    /** A drain during which the clock stands still: of the timers that were not cancelled, exactly
        those whose expiry is after that time are left, and exactly the others are popped. */
    method DrainAt(now: Time) returns (popped: seq<Timer>)
      requires Valid()
      modifies this, timerQueue`deleted
      ensures Valid() && Sorted(popped, timerQueue)
      ensures multiset(popped) + multiset(timerQueue) == multiset(old(timerQueue))
      ensures forall t :: t in old(timerQueue) <==> t in popped || t in timerQueue
      ensures forall t :: t in old(timerQueue) && !old(t.deleted) ==>
                (t in timerQueue <==> StillValid(now, t.expiredTime))
                && (t in popped <==> !StillValid(now, t.expiredTime))
                && (!t.deleted <==> StillValid(now, t.expiredTime))
      ensures forall t :: t in old(timerQueue) && old(t.deleted) ==> t.deleted
    {
      ghost var before, cancelled := timerQueue, Cancelled();
      var n;
      popped, n := HandleExpiredTimer(_ => now);
      forall t | t in popped && t !in cancelled ensures !StillValid(now, t.expiredTime) {
        PoppedAtOwnLook(popped, cancelled, _ => now, t);
      }
      assert forall t :: t in timerQueue ==> StillValid(now, t.expiredTime);
    }

    /** The timers of created that are in the queue and not cancelled are those of the eager set m. */
    ghost predicate Represents(created: seq<Timer>, m: map<nat, nat>)
      reads this, timerQueue, created
    {
      && Valid()
      && (forall i, j :: 0 <= i < j < |created| ==> created[i] != created[j])
      && (forall t :: t in timerQueue ==> t in created)
      && (forall i :: i in m ==> i < |created|)
      && (forall i :: 0 <= i < |created| ==> (i in m <==> created[i] in timerQueue && !created[i].deleted))
      && (forall i :: i in m ==> m[i] == created[i].expiredTime)
    }

    method Arm(created: seq<Timer>, ghost m: map<nat, nat>, now: Time, timeout: int) returns (t: Timer)
      requires Represents(created, m)
      modifies this
      ensures fresh(t) && Represents(created + [t], m[|created| := Expiry(now, timeout)])
    {
      ghost var before := timerQueue;
      t := AddTimer(now, timeout);
      assert multiset(before + [t]) == multiset(timerQueue);
      Members(before, [t], timerQueue);
    }

    method Cancel(created: seq<Timer>, ghost m: map<nat, nat>, i: nat)
      requires Represents(created, m) && i < |created|
      modifies {created[i]}`deleted
      ensures Represents(created, m - {i})
    {
      created[i].SetDeleted();
    }

    method Drain(created: seq<Timer>, ghost m: map<nat, nat>, now: Time) returns (popped: seq<Timer>)
      requires Represents(created, m)
      modifies this, timerQueue`deleted
      ensures Represents(created, EagerDrain(m, now)) && PopsExpired(created, m, now, popped)
    {
      ghost var before := timerQueue;
      popped := DrainAt(now);
      assert forall t :: t in timerQueue ==> t in before;
      assert forall t :: t in popped ==> t in before;
    }

    /** One step of a program, on the lazy queue and on the eager set. */
    method Perform(op: TimerOp, created: seq<Timer>, ghost s: EagerSet)
      returns (all: seq<Timer>, popped: seq<Timer>)
      requires Represents(created, s.live) && |created| == s.count
      modifies this, created`deleted
      ensures Represents(all, EagerStep(s, op).live) && |all| == EagerStep(s, op).count
      ensures created <= all && forall t :: t in all ==> t in created || fresh(t)
      ensures op.Set? ==> |all| == |created| + 1 && all[|created|].expiredTime == Expiry(op.now, op.timeout)
      ensures if op.Expire? then PopsExpired(all, s.live, op.now, popped) else popped == []
    {
      all, popped := created, [];
      match op {
        case Set(now, timeout) =>
          var t := Arm(created, s.live, now, timeout);
          all := created + [t];
        case Clear(i) =>
          if i < |created| {
            Cancel(created, s.live, i);
          } else {
            assert s.live - {i} == s.live;
          }
        case Expire(now) =>
          assert forall i :: 0 <= i < |timerQueue| ==> timerQueue[i] in created;
          popped := Drain(created, s.live, now);
      }
    }

    /** The first k operations of a program have been performed, on the lazy queue as on the eager set. */
    ghost predicate Replayed(ops: seq<TimerOp>, k: nat, created: seq<Timer>, pops: seq<seq<Timer>>)
      requires k <= |ops|
      reads this, timerQueue, created
    {
      && Represents(created, Eager(ops[..k]).live) && |created| == Eager(ops[..k]).count && |pops| == k
      && AllPopsRight(created, ops, pops) && AllSetsRight(created, ops, k)
    }

    method PerformNext(ops: seq<TimerOp>, k: nat, created: seq<Timer>, pops: seq<seq<Timer>>)
      returns (all: seq<Timer>, more: seq<seq<Timer>>)
      requires k < |ops| && Replayed(ops, k, created, pops)
      modifies this, created`deleted
      ensures Replayed(ops, k + 1, all, more)
      ensures forall i :: 0 <= i < |all| ==> all[i] in created || fresh(all[i])
    {
      assert ops[..k + 1][..k] == ops[..k];
      var popped;
      all, popped := Perform(ops[k], created, Eager(ops[..k]));
      PopsStayRight(created, all, ops, pops, popped);
      SetsStayRight(created, all, ops, k);
      more := pops + [popped];
    }

    /** Any program of arming, cancelling and draining leaves the lazy queue representing what the
        eager set holds after the same program; and each of its drains, which pops pops[k], has popped in
        order of expiry, and of the timers that were live in the eager set exactly the expired ones. In
        terms of the program alone: the timer set at position p has the expiry it was set to, and is in the
        queue and not cancelled exactly when it was neither cleared nor drained after its expiry. */
    method Replay(ops: seq<TimerOp>) returns (created: seq<Timer>, pops: seq<seq<Timer>>)
      requires Valid() && timerQueue == []
      modifies this
      ensures Represents(created, Eager(ops).live) && |created| == Eager(ops).count && |pops| == |ops|
      ensures AllPopsRight(created, ops, pops) && AllSetsRight(created, ops, |ops|)
      ensures forall p :: 0 <= p < |ops| && ops[p].Set? ==> LivesRightly(created, ops, p)
    {
      created, pops := [], [];
      var k := 0;
      assert ops[..0] == [];
      while k < |ops|
        invariant 0 <= k <= |ops| && fresh(created)
        invariant Replayed(ops, k, created, pops)
      {
        created, pops := PerformNext(ops, k, created, pops);
        k := k + 1;
      }
      assert ops[..k] == ops;
      LiveAtTheEnd(created, ops);
    }

    /** The timer set at position p is in the queue and not cancelled exactly when it lives. */
    ghost predicate LivesRightly(created: seq<Timer>, ops: seq<TimerOp>, p: nat)
      requires p < |ops| && ops[p].Set?
      reads this, created
    {
      && Sets(ops[..p]) < |created|
      && var t := created[Sets(ops[..p])];
         t in timerQueue && !t.deleted <==> Lives(ops, p)
    }

    lemma LiveAtTheEnd(created: seq<Timer>, ops: seq<TimerOp>)
      requires Represents(created, Eager(ops).live) && |created| == Eager(ops).count
      ensures forall p :: 0 <= p < |ops| && ops[p].Set? ==> LivesRightly(created, ops, p)
    {
      EagerCounts(ops);
      forall p | 0 <= p < |ops| && ops[p].Set? ensures LivesRightly(created, ops, p) {
        SetsGrow(ops, p);
        EagerExactly(ops, p);
      }
    }

    /** The timers in the queue that have been cancelled. */
    ghost function Cancelled(): set<Timer>
      reads this, timerQueue
    {
      set t | t in timerQueue && t.deleted
    }

    /** One turn of the drain: look at the first timer, and pop it if it is cancelled or has expired. */
    method DrainTop(now: Time) returns (top: Timer, drained: bool, looked: bool)
      requires Valid() && timerQueue != []
      modifies this, timerQueue`deleted
      ensures Valid() && top in old(timerQueue)
      ensures forall u :: u in old(timerQueue) ==> top.expiredTime <= u.expiredTime
      ensures !drained ==> timerQueue == old(timerQueue) && looked
      ensures !drained ==> forall t :: t in timerQueue ==> StillValid(now, t.expiredTime)
      ensures !drained ==> top == timerQueue[0] && !top.deleted && !old(top.deleted)
      ensures drained ==> (looked <==> !old(top.deleted))
      ensures drained ==> multiset(timerQueue) + multiset{top} == multiset(old(timerQueue)) && top.deleted
      ensures drained && looked ==> !StillValid(now, top.expiredTime)
      ensures drained ==> |timerQueue| + 1 == |old(timerQueue)|
      ensures forall i :: 0 <= i < |timerQueue| ==> timerQueue[i] in old(timerQueue)
      ensures forall t :: t in old(timerQueue) && t != top ==> t.deleted == old(t.deleted)
      ensures forall t :: t in old(timerQueue) && old(t.deleted) ==> t.deleted
    {
      top := Top();
      drained, looked := true, false;
      ghost var whole := timerQueue;
      if !top.deleted {
        looked := true;
        var valid := top.IsValid(now);
        if valid {
          drained := false;
          return;
        }
      }
      Pop();
      assert |multiset(timerQueue)| + 1 == |multiset(whole)|;
      Members([top], timerQueue, whole);
    }
  }

  /** A drain at the given time popped timers of created in order of expiry, and of those that were live in
      the eager set m exactly the expired ones. */
  ghost predicate PopsExpired(created: seq<Timer>, m: map<nat, nat>, now: Time, popped: seq<Timer>)
    reads popped`expiredTime
  {
    && (forall i, j :: 0 <= i < j < |popped| ==> popped[i].expiredTime <= popped[j].expiredTime)
    && (forall t :: t in popped ==> t in created)
    && (forall i :: i in m ==> i < |created| && (created[i] in popped <==> !StillValid(now, m[i])))
  }

  /** What step k of a program pops, if it is a drain. */
  ghost predicate PopsRightly(created: seq<Timer>, ops: seq<TimerOp>, k: nat, popped: seq<Timer>)
    requires k < |ops|
    reads popped`expiredTime
  {
    ops[k].Expire? ==> PopsExpired(created, Eager(ops[..k]).live, ops[k].now, popped)
  }

  /** The timer set at position p of a program has the expiry it was set to. */
  ghost predicate SetRightly(created: seq<Timer>, ops: seq<TimerOp>, p: nat)
    requires p < |ops| && ops[p].Set?
    reads created`expiredTime
  {
    Sets(ops[..p]) < |created| && created[Sets(ops[..p])].expiredTime == Expiry(ops[p].now, ops[p].timeout)
  }

  /** So do all timers set by the first k operations. */
  ghost predicate AllSetsRight(created: seq<Timer>, ops: seq<TimerOp>, k: nat)
    requires k <= |ops|
    reads created`expiredTime
  {
    forall p :: 0 <= p < k && ops[p].Set? ==> SetRightly(created, ops, p)
  }

  /** All drains among the first |pops| operations popped rightly. */
  ghost predicate AllPopsRight(created: seq<Timer>, ops: seq<TimerOp>, pops: seq<seq<Timer>>)
    requires |pops| <= |ops|
    reads created`expiredTime
  {
    forall j :: 0 <= j < |pops| ==>
      (forall i :: 0 <= i < |pops[j]| ==> pops[j][i] in created) && PopsRightly(created, ops, j, pops[j])
  }

  lemma SetsStayRight(created: seq<Timer>, all: seq<Timer>, ops: seq<TimerOp>, k: nat)
    requires k < |ops| && created <= all && |created| == Eager(ops[..k]).count
    requires AllSetsRight(created, ops, k)
    requires ops[k].Set? ==>
               |all| == |created| + 1 && all[|created|].expiredTime == Expiry(ops[k].now, ops[k].timeout)
    ensures AllSetsRight(all, ops, k + 1)
  {
    EagerCounts(ops[..k]);
    forall p | 0 <= p < k + 1 && ops[p].Set? ensures SetRightly(all, ops, p) {
      assert p < k ==> SetRightly(created, ops, p);
    }
  }

  lemma PopsStayRight(
    created: seq<Timer>, all: seq<Timer>, ops: seq<TimerOp>, pops: seq<seq<Timer>>, popped: seq<Timer>)
    requires created <= all && |pops| < |ops| && AllPopsRight(created, ops, pops)
    requires PopsRightly(all, ops, |pops|, popped) && forall t :: t in popped ==> t in all
    ensures AllPopsRight(all, ops, pops + [popped])
  {
    var more := pops + [popped];
    forall j | 0 <= j < |more|
      ensures (forall i :: 0 <= i < |more[j]| ==> more[j][i] in all) && PopsRightly(all, ops, j, more[j])
    {
      if j < |pops| {
        assert more[j] == pops[j] && PopsRightly(created, ops, j, pops[j]);
      }
    }
  }

  /** Popped timers are in order of expiry, and none of those left expires before any of them. */
  ghost predicate Sorted(popped: seq<Timer>, left: seq<Timer>)
    reads popped`expiredTime, left`expiredTime
  {
    && (forall i, j :: 0 <= i < j < |popped| ==> popped[i].expiredTime <= popped[j].expiredTime)
    && (forall t, u :: t in popped && u in left ==> t.expiredTime <= u.expiredTime)
  }

  lemma SortedAppend(popped: seq<Timer>, left: seq<Timer>, top: Timer, left': seq<Timer>)
    requires Sorted(popped, left) && top in left && forall u :: u in left ==> top.expiredTime <= u.expiredTime
    requires forall u :: u in left' ==> u in left
    ensures Sorted(popped + [top], left')
  {}

  /** The last timer of popped had neither been cancelled before the drain nor popped once already, so
      that the clock was looked at for it. */
  ghost predicate LastLooked(popped: seq<Timer>, cancelled: set<Timer>)
    requires popped != []
  {
    var m := |popped| - 1;
    popped[m] !in cancelled && popped[m] !in popped[..m]
  }

  /** How often the clock was looked at to pop these timers. */
  ghost function Looks(popped: seq<Timer>, cancelled: set<Timer>): nat {
    if popped == [] then 0 else
      Looks(popped[..|popped| - 1], cancelled) + if LastLooked(popped, cancelled) then 1 else 0
  }

  /** The i-th popped timer was cancelled, or had expired at its own look at the clock, which comes after
      those for the timers popped before it. */
  ghost predicate PoppedRightly(popped: seq<Timer>, cancelled: set<Timer>, clock: nat -> Time)
    reads popped`expiredTime
  {
    forall i :: 0 <= i < |popped| && LastLooked(popped[..i + 1], cancelled) ==>
      !StillValid(clock(Looks(popped[..i], cancelled)), popped[i].expiredTime)
  }

  /** Changing the key of a queued timer in place, as Timer::update would, keeps heap order exactly when
      the new key still fits between its parent and its children. */
  lemma UpdateInPlaceExactly(keys: seq<nat>, i: nat, key: nat)
    requires IsHeap(keys) && i < |keys|
    ensures IsHeap(keys[i := key]) <==>
            (forall p: nat :: Child(p, i) ==> keys[p] <= key)
            && (forall c: nat :: Child(i, c) && c < |keys| ==> key <= keys[c])
  {}

  /** Looks counts the pops of timers that were neither cancelled before the drain nor popped before. */
  lemma {:induction false} LooksCounts(popped: seq<Timer>, cancelled: set<Timer>)
    ensures Looks(popped, cancelled)
            == |set i | 0 <= i < |popped| && popped[i] !in cancelled && popped[i] !in popped[..i]|
  {
    var all := set i | 0 <= i < |popped| && popped[i] !in cancelled && popped[i] !in popped[..i];
    if popped == [] {
      assert all == {};
    } else {
      var m := |popped| - 1;
      var p := popped[..m];
      LooksCounts(p, cancelled);
      var before := set i | 0 <= i < |p| && p[i] !in cancelled && p[i] !in p[..i];
      forall i | 0 <= i < m ensures i in all <==> i in before {
        assert p[i] == popped[i] && p[..i] == popped[..i];
      }
      assert all == before + if LastLooked(popped, cancelled) then {m} else {};
    }
  }

  lemma LooksAppend(popped: seq<Timer>, cancelled: set<Timer>, top: Timer)
    ensures LastLooked(popped + [top], cancelled) <==> top !in cancelled && top !in popped
    ensures Looks(popped + [top], cancelled)
            == Looks(popped, cancelled) + if top !in cancelled && top !in popped then 1 else 0
  {
    assert (popped + [top])[..|popped|] == popped;
  }

  lemma PoppedRightlyAppend(popped: seq<Timer>, cancelled: set<Timer>, clock: nat -> Time, top: Timer)
    requires PoppedRightly(popped, cancelled, clock)
    requires top in cancelled || top in popped || !StillValid(clock(Looks(popped, cancelled)), top.expiredTime)
    ensures PoppedRightly(popped + [top], cancelled, clock)
  {
    var p := popped + [top];
    forall i | 0 <= i < |p| && LastLooked(p[..i + 1], cancelled)
      ensures !StillValid(clock(Looks(p[..i], cancelled)), p[i].expiredTime)
    {
      if i < |popped| {
        assert p[..i + 1] == popped[..i + 1] && p[..i] == popped[..i];
      } else {
        assert p[..i + 1] == p && p[..i] == popped;
        LooksAppend(popped, cancelled, top);
      }
    }
  }

  /** A popped timer that was not cancelled had expired at some look: that of its first pop. */
  lemma PoppedAtOwnLook(popped: seq<Timer>, cancelled: set<Timer>, clock: nat -> Time, t: Timer)
    requires PoppedRightly(popped, cancelled, clock) && t in popped && t !in cancelled
    ensures exists k: nat :: !StillValid(clock(k), t.expiredTime)
  {
    var i := FirstPop(popped, t);
    assert popped[..i + 1][..i] == popped[..i];
    assert LastLooked(popped[..i + 1], cancelled);
  }

  lemma {:induction false} FirstPop(popped: seq<Timer>, t: Timer) returns (i: nat)
    requires t in popped
    ensures i < |popped| && popped[i] == t && t !in popped[..i]
  {
    var m := |popped| - 1;
    if t in popped[..m] {
      i := FirstPop(popped[..m], t);
      assert popped[..m][..i] == popped[..i];
    } else {
      i := m;
    }
  }

  lemma Members<T>(a: seq<T>, b: seq<T>, c: seq<T>)
    requires multiset(a) + multiset(b) == multiset(c)
    ensures forall t :: t in c <==> t in a || t in b
  {
    forall t ensures t in c <==> t in a || t in b {
      assert t in multiset(a) <==> t in a;
      assert t in multiset(b) <==> t in b;
      assert t in multiset(c) <==> t in c;
    }
  }
}
