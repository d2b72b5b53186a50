/** Binary min-heaps on sequences of keys. */
module Heap {

  /** Position c is a child of position p. */
  predicate Child(p: nat, c: nat) {
    c == 2 * p + 1 || c == 2 * p + 2
  }

  /** No key is smaller than its parent's. */
  ghost predicate IsHeap(a: seq<nat>) {
    forall p: nat, c: nat :: Child(p, c) && c < |a| ==> a[p] <= a[c]
  }

  /** Heap order except between position i and its parent. */
  ghost predicate HeapButUp(a: seq<nat>, i: nat) {
    && (forall p: nat, c: nat :: Child(p, c) && c < |a| && c != i ==> a[p] <= a[c])
    && (forall p: nat, c: nat :: Child(p, i) && Child(i, c) && c < |a| ==> a[p] <= a[c])
  }

  /** Heap order except between position i and its children. */
  ghost predicate HeapButDown(a: seq<nat>, i: nat) {
    && (forall p: nat, c: nat :: Child(p, c) && c < |a| && p != i ==> a[p] <= a[c])
    && (forall p: nat, c: nat :: Child(p, i) && Child(i, c) && c < |a| ==> a[p] <= a[c])
  }

  function Swap<T>(a: seq<T>, i: nat, j: nat): (b: seq<T>)
    requires i < |a| && j < |a|
    ensures |b| == |a| && b[i] == a[j] && b[j] == a[i]
    ensures forall k :: 0 <= k < |a| && k != i && k != j ==> b[k] == a[k]
  {
    a[i := a[j]][j := a[i]]
  }

  lemma SwapPermutes<T>(a: seq<T>, i: nat, j: nat)
    requires i < |a| && j < |a|
    ensures multiset(Swap(a, i, j)) == multiset(a)
  {}

  /** The root of a heap is its least key. */
  lemma {:induction false} RootIsLeast(a: seq<nat>, i: nat)
    requires IsHeap(a) && i < |a|
    ensures a[0] <= a[i]
    decreases i
  {
    if i > 0 {
      var p := (i - 1) / 2;
      assert Child(p, i);
      RootIsLeast(a, p);
    }
  }

  lemma UpStep(a: seq<nat>, p: nat, i: nat)
    requires i < |a| && Child(p, i) && HeapButUp(a, i) && a[i] < a[p]
    ensures HeapButUp(Swap(a, i, p), p)
  {}

  lemma UpDone(a: seq<nat>, i: nat)
    requires i < |a| && HeapButUp(a, i) && (i > 0 ==> a[(i - 1) / 2] <= a[i])
    ensures IsHeap(a)
  {}

  lemma DownStep(a: seq<nat>, i: nat, c: nat)
    requires c < |a| && Child(i, c) && HeapButDown(a, i) && a[c] < a[i]
    requires forall d: nat :: Child(i, d) && d < |a| ==> a[c] <= a[d]
    ensures HeapButDown(Swap(a, i, c), c)
  {}

  lemma DownDone(a: seq<nat>, i: nat)
    requires HeapButDown(a, i) && forall c: nat :: Child(i, c) && c < |a| ==> a[i] <= a[c]
    ensures IsHeap(a)
  {}

  /** Appending a key disturbs the heap only above the new position. */
  lemma PushDisturbs(a: seq<nat>, k: nat)
    requires IsHeap(a)
    ensures HeapButUp(a + [k], |a|)
  {}

  /** Overwriting the root and dropping the last key disturbs the heap only below the root. */
  lemma PopDisturbs(a: seq<nat>)
    requires IsHeap(a) && a != []
    ensures HeapButDown(Swap(a, 0, |a| - 1)[..|a| - 1], 0)
  {}
}
