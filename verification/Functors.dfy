/** The callables that are handed to an event loop, as finite trees: what a functor does, for the
    purposes of the loop, is the list of calls it makes back into the loop. */
module Functors {

  /** A callable with an identity and the calls its body makes, in order. */
  datatype Functor = Functor(id: nat, body: seq<Action>)

  /** One call made by a callback or by another thread: queueInLoop, runInLoop or quit. */
  datatype Action = Queue(f: Functor) | Run(f: Functor) | Quit

  // ---------- How much work is in a tree ----------

  function Size(f: Functor): nat
    decreases f, 1
  {
    1 + SizeOf(f.body)
  }

  function ActSize(a: Action): nat
    decreases a, 2
  {
    if a.Quit? then 1 else 1 + Size(a.f)
  }

  function SizeOf(acts: seq<Action>): nat
    decreases acts, 0
  {
    if acts == [] then 0 else ActSize(acts[0]) + SizeOf(acts[1..])
  }

  function SizeAll(fs: seq<Functor>): nat {
    if fs == [] then 0 else Size(fs[0]) + SizeAll(fs[1..])
  }

  // ---------- How often functor k occurs in a tree ----------

  function Nodes(f: Functor, k: nat): nat
    decreases f, 1
  {
    (if f.id == k then 1 else 0) + NodesOf(f.body, k)
  }

  function ActNodes(a: Action, k: nat): nat
    decreases a, 2
  {
    if a.Quit? then 0 else Nodes(a.f, k)
  }

  function NodesOf(acts: seq<Action>, k: nat): nat
    decreases acts, 0
  {
    if acts == [] then 0 else ActNodes(acts[0], k) + NodesOf(acts[1..], k)
  }

  function NodesAll(fs: seq<Functor>, k: nat): nat {
    if fs == [] then 0 else Nodes(fs[0], k) + NodesAll(fs[1..], k)
  }

  // ---------- What one call of a functor does, start to end ----------

  /** The functors executed by calling f: f itself and whatever it runs directly. */
  function RanBy(f: Functor): seq<nat>
    decreases f, 1
  {
    [f.id] + RanByActs(f.body)
  }

  function ActRan(a: Action): seq<nat>
    decreases a, 2
  {
    if a.Run? then RanBy(a.f) else []
  }

  function RanByActs(acts: seq<Action>): seq<nat>
    decreases acts, 0
  {
    if acts == [] then [] else ActRan(acts[0]) + RanByActs(acts[1..])
  }

  function RanAll(fs: seq<Functor>): seq<nat> {
    if fs == [] then [] else RanBy(fs[0]) + RanAll(fs[1..])
  }

  /** The functors appended to the pending list by calling f. */
  function PushedBy(f: Functor): seq<Functor>
    decreases f, 1
  {
    PushedByActs(f.body)
  }

  function ActPushed(a: Action): seq<Functor>
    decreases a, 2
  {
    match a
    case Queue(f) => [f]
    case Run(f) => PushedBy(f)
    case Quit => []
  }

  function PushedByActs(acts: seq<Action>): seq<Functor>
    decreases acts, 0
  {
    if acts == [] then [] else ActPushed(acts[0]) + PushedByActs(acts[1..])
  }

  function PushedAll(fs: seq<Functor>): seq<Functor> {
    if fs == [] then [] else PushedBy(fs[0]) + PushedAll(fs[1..])
  }

  // ---------- All of these distribute over concatenation ----------

  lemma {:induction false} SizeOfAppend(a: seq<Action>, b: seq<Action>)
    ensures SizeOf(a + b) == SizeOf(a) + SizeOf(b)
  {
    if a == [] {
      assert a + b == b;
    } else {
      assert (a + b)[1..] == a[1..] + b;
      SizeOfAppend(a[1..], b);
    }
  }

  lemma {:induction false} NodesOfAppend(a: seq<Action>, b: seq<Action>, k: nat)
    ensures NodesOf(a + b, k) == NodesOf(a, k) + NodesOf(b, k)
  {
    if a == [] {
      assert a + b == b;
    } else {
      assert (a + b)[1..] == a[1..] + b;
      NodesOfAppend(a[1..], b, k);
    }
  }

  lemma {:induction false} RanByActsAppend(a: seq<Action>, b: seq<Action>)
    ensures RanByActs(a + b) == RanByActs(a) + RanByActs(b)
  {
    if a == [] {
      assert a + b == b;
    } else {
      assert (a + b)[1..] == a[1..] + b;
      RanByActsAppend(a[1..], b);
    }
  }

  lemma {:induction false} PushedByActsAppend(a: seq<Action>, b: seq<Action>)
    ensures PushedByActs(a + b) == PushedByActs(a) + PushedByActs(b)
  {
    if a == [] {
      assert a + b == b;
    } else {
      assert (a + b)[1..] == a[1..] + b;
      PushedByActsAppend(a[1..], b);
    }
  }

  lemma {:induction false} SizeAllAppend(a: seq<Functor>, b: seq<Functor>)
    ensures SizeAll(a + b) == SizeAll(a) + SizeAll(b)
  {
    if a == [] {
      assert a + b == b;
    } else {
      assert (a + b)[1..] == a[1..] + b;
      SizeAllAppend(a[1..], b);
    }
  }

  lemma {:induction false} NodesAllAppend(a: seq<Functor>, b: seq<Functor>, k: nat)
    ensures NodesAll(a + b, k) == NodesAll(a, k) + NodesAll(b, k)
  {
    if a == [] {
      assert a + b == b;
    } else {
      assert (a + b)[1..] == a[1..] + b;
      NodesAllAppend(a[1..], b, k);
    }
  }

  lemma {:induction false} RanAllAppend(a: seq<Functor>, b: seq<Functor>)
    ensures RanAll(a + b) == RanAll(a) + RanAll(b)
  {
    if a == [] {
      assert a + b == b;
    } else {
      assert (a + b)[1..] == a[1..] + b;
      RanAllAppend(a[1..], b);
    }
  }

  lemma {:induction false} PushedAllAppend(a: seq<Functor>, b: seq<Functor>)
    ensures PushedAll(a + b) == PushedAll(a) + PushedAll(b)
  {
    if a == [] {
      assert a + b == b;
    } else {
      assert (a + b)[1..] == a[1..] + b;
      PushedAllAppend(a[1..], b);
    }
  }

  /** What a callback pushes is strictly smaller than the calls that pushed it. */
  lemma {:induction false} PushedShrinks(acts: seq<Action>)
    ensures SizeAll(PushedByActs(acts)) <= SizeOf(acts)
    decreases acts, 0
  {
    if acts != [] {
      ActPushedShrinks(acts[0]);
      PushedShrinks(acts[1..]);
      SizeAllAppend(ActPushed(acts[0]), PushedByActs(acts[1..]));
    }
  }

  lemma {:induction false} ActPushedShrinks(a: Action)
    ensures SizeAll(ActPushed(a)) < ActSize(a)
    decreases a, 1
  {
    if a.Run? {
      PushedShrinks(a.f.body);
    }
  }

  lemma {:induction false} PushedAllShrinks(fs: seq<Functor>)
    ensures SizeAll(PushedAll(fs)) + |fs| <= SizeAll(fs)
  {
    if fs != [] {
      PushedShrinks(fs[0].body);
      PushedAllShrinks(fs[1..]);
      SizeAllAppend(PushedBy(fs[0]), PushedAll(fs[1..]));
    }
  }

  // ---------- Two orders of execution ----------

  /** A plain FIFO queue: pop one functor, call it, append what it queued, repeat. */
  function FifoOrder(q: seq<Functor>): seq<nat>
    decreases SizeAll(q)
  {
    if q == [] then [] else
      PushedShrinks(q[0].body);
      SizeAllAppend(q[1..], PushedBy(q[0]));
      RanBy(q[0]) + FifoOrder(q[1..] + PushedBy(q[0]))
  }

  /** Whole batches: call every functor of the list, then take what they queued as the next list. */
  function LevelOrder(q: seq<Functor>): seq<nat>
    decreases SizeAll(q)
  {
    if q == [] then [] else
      PushedAllShrinks(q);
      RanAll(q) + LevelOrder(PushedAll(q))
  }

  lemma {:induction false} FifoTail(rest: seq<Functor>, next: seq<Functor>)
    ensures FifoOrder(rest + next) == RanAll(rest) + FifoOrder(next + PushedAll(rest))
    decreases SizeAll(rest)
  {
    if rest == [] {
      assert rest + next == next;
      assert next + PushedAll(rest) == next;
    } else {
      var q := rest + next;
      assert q[1..] + PushedBy(q[0]) == rest[1..] + (next + PushedBy(rest[0]));
      FifoTail(rest[1..], next + PushedBy(rest[0]));
      assert next + PushedBy(rest[0]) + PushedAll(rest[1..]) == next + PushedAll(rest);
    }
  }

  /** Running a swapped-out list as a batch executes the functors in exactly the order in which a
      queue popped one at a time would. */
  lemma {:induction false} BatchesAreFifo(q: seq<Functor>)
    ensures FifoOrder(q) == LevelOrder(q)
    decreases SizeAll(q)
  {
    if q != [] {
      FifoTail(q, []);
      assert q + [] == q;
      assert [] + PushedAll(q) == PushedAll(q);
      PushedAllShrinks(q);
      BatchesAreFifo(PushedAll(q));
    }
  }
}
