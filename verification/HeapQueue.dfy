/** The in-memory pending queue (internal/scheduler/policy/queue.go): a binary heap of entries, kept in a
    slice and updated in place, in front of a policy object. Go's container/heap is part of the model,
    because queue.go is only right together with it: `Up` and `Down` are its sift loops.

    Every method is proved against the value-level queue of Pending.dfy. */
module HeapQueue {
  import opened Text
  import opened Ordering
  import opened Wfq
  import Pending

  type Entry = Pending.Entry

  /** The policy interface: three stateless policies, and one that is an object. */
  datatype Policy = Fifo | Priority | Edf | Fair(wfq: WfqPolicy)

  function ObjectsOf(p: Policy): set<object> {
    match p
    case Fair(w) => {w}
    case _ => {}
  }

  ghost function RankingOf(p: Policy): Pending.Ranking
    reads ObjectsOf(p)
  {
    match p
    case Fifo => Pending.Fifo
    case Priority => Pending.Priority
    case Edf => Pending.Edf
    case Fair(w) => Pending.Fair(w.Value())
  }

  // ---------- heap order ----------

  function Parent(k: int): int {
    (k - 1) / 2
  }

  ghost predicate InOrder(h: seq<Entry>, k: int)
    requires 0 < k < |h|
  {
    AtMost(h[Parent(k)].key, h[k].key)
  }

  /** The first n slots are in heap order. */
  ghost predicate IsHeap(h: seq<Entry>, n: nat) {
    n <= |h| && forall k :: 0 < k < n ==> InOrder(h, k)
  }

  /** Heap order, except perhaps between slot j and its parent; j's children are not below that parent. */
  ghost predicate HeapBut(h: seq<Entry>, n: nat, j: nat) {
    && n <= |h|
    && (forall k :: 0 < k < n && k != j ==> InOrder(h, k))
    && (forall k :: 0 < k < n && Parent(k) == j && j > 0 ==> AtMost(h[Parent(j)].key, h[k].key))
  }

  /** Heap order, except perhaps between slot i and its children; they are not below i's parent. */
  ghost predicate HeapAbove(h: seq<Entry>, n: nat, i: nat) {
    && n <= |h|
    && (forall k :: 0 < k < n && Parent(k) != i ==> InOrder(h, k))
    && (forall k :: 0 < k < n && Parent(k) == i && i > 0 ==> AtMost(h[Parent(i)].key, h[k].key))
  }

  /** The root of a heap precedes every entry. */
  lemma {:induction false} RootIsLeast(h: seq<Entry>, n: nat, k: nat)
    requires IsHeap(h, n) && k < n
    ensures AtMost(h[0].key, h[k].key)
    decreases k
  {
    if k == 0 {
      KeyOrderIsTotal(h[0].key, h[0].key);
    } else {
      RootIsLeast(h, n, Parent(k));
      assert InOrder(h, k);
      AtMostIsTransitive(h[0].key, h[Parent(k)].key, h[k].key);
    }
  }

  function Swapped(h: seq<Entry>, i: nat, j: nat): seq<Entry>
    requires i < |h| && j < |h|
  {
    h[i := h[j]][j := h[i]]
  }

  lemma SwapKeepsEntries(h: seq<Entry>, i: nat, j: nat)
    requires i < |h| && j < |h|
    ensures multiset(Swapped(h, i, j)) == multiset(h)
  {
  }

  /** One step of the upward loop: the smaller child takes its parent's place. */
  lemma SwapUp(h: seq<Entry>, n: nat, j: nat)
    requires HeapBut(h, n, j) && 0 < j < n && h[j].key.Less(h[Parent(j)].key)
    ensures HeapBut(Swapped(h, Parent(j), j), n, Parent(j))
  {
    var i := Parent(j);
    var h' := Swapped(h, i, j);
    KeyOrderIsTotal(h[j].key, h[i].key);
    forall k | 0 < k < n && k != i ensures InOrder(h', k) {
      if k != j {
        assert InOrder(h, k);
        if Parent(k) == i {
          AtMostIsTransitive(h[j].key, h[i].key, h[k].key);
        }
      }
    }
    forall k | 0 < k < n && Parent(k) == i && i > 0 ensures AtMost(h'[Parent(i)].key, h'[k].key) {
      assert InOrder(h, i);
      if k != j {
        assert InOrder(h, k);
        AtMostIsTransitive(h[Parent(i)].key, h[i].key, h[k].key);
      }
    }
  }

  /** One step of the downward loop: the lesser child takes its parent's place. */
  lemma SwapDown(h: seq<Entry>, n: nat, i: nat, j: nat)
    requires HeapAbove(h, n, i) && 0 < j < n && Parent(j) == i && h[j].key.Less(h[i].key)
    requires forall k :: 0 < k < n && Parent(k) == i ==> AtMost(h[j].key, h[k].key)
    ensures HeapAbove(Swapped(h, i, j), n, j)
  {
    var h' := Swapped(h, i, j);
    KeyOrderIsTotal(h[j].key, h[i].key);
    forall k | 0 < k < n && Parent(k) != j ensures InOrder(h', k) {
      if Parent(k) != i {
        assert InOrder(h, k);
      }
    }
    forall k | 0 < k < n && Parent(k) == j ensures AtMost(h'[i].key, h'[k].key) {
      assert InOrder(h, k);
    }
  }

  lemma PushedIsHeapBut(h: seq<Entry>, e: Entry)
    requires IsHeap(h, |h|)
    ensures HeapBut(h + [e], |h| + 1, |h|)
  {
    forall k | 0 < k < |h| ensures InOrder(h + [e], k) {
      assert InOrder(h, k);
    }
  }

  lemma RootReplaced(h: seq<Entry>, n: nat)
    requires IsHeap(h, |h|) && |h| == n + 1
    ensures HeapAbove(Swapped(h, 0, n), n, 0)
  {
    forall k | 0 < k < n && Parent(k) != 0 ensures InOrder(Swapped(h, 0, n), k) {
      assert InOrder(h, k);
    }
  }

  lemma FrontIsHeap(h: seq<Entry>, n: nat)
    requires IsHeap(h, n)
    ensures IsHeap(h[..n], n)
  {
    forall k | 0 < k < n ensures InOrder(h[..n], k) {
      assert InOrder(h, k);
    }
  }

  lemma DoneDown(h: seq<Entry>, n: nat, i: nat, j: nat)
    requires HeapAbove(h, n, i) && 0 < j < n && Parent(j) == i && AtMost(h[i].key, h[j].key)
    requires forall k :: 0 < k < n && Parent(k) == i ==> AtMost(h[j].key, h[k].key)
    ensures IsHeap(h, n)
  {
    forall k | 0 < k < n ensures InOrder(h, k) {
      if Parent(k) == i {
        AtMostIsTransitive(h[i].key, h[j].key, h[k].key);
      }
    }
  }

  class Queue {
    const policy: Policy
    /** The heap slice. */
    var h: seq<Entry>
    /** The same entries in the order they were admitted. */
    ghost var admitted: seq<Entry>

    ghost predicate Valid()
      reads this
    {
      IsHeap(h, |h|) && multiset(h) == multiset(admitted)
    }

    ghost function Value(): Pending.Queue
      reads this, ObjectsOf(policy)
    {
      Pending.Queue(RankingOf(policy), admitted)
    }

    constructor NewQueue(p: Policy)
      ensures Valid() && policy == p && Value() == Pending.Queue(RankingOf(p), [])
    {
      policy := p;
      h, admitted := [], [];
    }

    method Swap(i: nat, j: nat)
      requires i < |h| && j < |h|
      modifies this`h
      ensures h == Swapped(old(h), i, j) && multiset(h) == multiset(old(h))
    {
      SwapKeepsEntries(h, i, j);
      h := h[i := h[j]][j := h[i]];
    }

    /** container/heap.up */
    method Up(start: nat)
      requires start < |h| && HeapBut(h, |h|, start)
      modifies this`h
      ensures IsHeap(h, |h|) && multiset(h) == multiset(old(h))
    {
      var j: nat := start;
      while true
        invariant j < |h| && HeapBut(h, |h|, j)
        invariant multiset(h) == multiset(old(h))
        decreases j
      {
        var i := if j == 0 then 0 else (j - 1) / 2; // Go truncates (0 - 1) / 2 to 0
        if i == j || !h[j].key.Less(h[i].key) {
          break;
        }
        SwapUp(h, |h|, j);
        Swap(i, j);
        j := i;
      }
    }

    /** container/heap.down over the first n slots. */
    method Down(start: nat, n: nat)
      requires start < |h| && n <= |h| && HeapAbove(h, n, start)
      modifies this`h
      ensures IsHeap(h, n) && |h| == |old(h)|
      ensures multiset(h) == multiset(old(h)) && h[n..] == old(h[n..])
    {
      var i := start;
      while true
        invariant i < |h| == |old(h)| && HeapAbove(h, n, i)
        invariant multiset(h) == multiset(old(h)) && h[n..] == old(h[n..])
        decreases |h| - i
      {
        var left := 2 * i + 1;
        if left >= n {
          break;
        }
        var j, right := left, left + 1;
        KeyOrderIsTotal(h[left].key, h[left].key);
        if right < n {
          KeyOrderIsTotal(h[left].key, h[right].key);
          KeyOrderIsTotal(h[right].key, h[right].key);
          if h[right].key.Less(h[left].key) {
            j := right;
          }
        }
        assert forall k :: 0 < k < n && Parent(k) == i ==> k == left || k == right;
        if !h[j].key.Less(h[i].key) {
          DoneDown(h, n, i, j);
          break;
        }
        SwapDown(h, n, i, j);
        Swap(i, j);
        i := j;
      }
    }

    /** heap.Push */
    method Push(e: Entry)
      requires IsHeap(h, |h|)
      modifies this`h
      ensures IsHeap(h, |h|) && multiset(h) == multiset(old(h)) + multiset{e}
    {
      PushedIsHeapBut(h, e);
      h := h + [e];
      Up(|h| - 1);
    }

    /** heap.Pop: the root changes places with the last slot, and the rest is sifted. */
    method Pop() returns (e: Entry)
      requires IsHeap(h, |h|) && h != []
      modifies this`h
      ensures e == old(h)[0]
      ensures IsHeap(h, |h|) && multiset(h) == multiset(old(h)) - multiset{e}
    {
      var n := |h| - 1;
      RootReplaced(h, n);
      Swap(0, n);
      Down(0, n);
      e := h[n];
      assert e == h[n..][0];
      FrontIsHeap(h, n);
      assert h == h[..n] + [e];
      h := h[..n];
    }

    method Rank(t: Task) returns (k: Key)
      modifies ObjectsOf(policy)
      ensures k == old(RankingOf(policy)).KeyFor(t) && RankingOf(policy) == old(RankingOf(policy)).Ranked(t)
    {
      match policy
      case Fifo => k := FifoKey(t);
      case Priority => k := PriorityKey(t);
      case Edf => k := EdfKey(t);
      case Fair(w) => k := w.Rank(t);
    }

    method Admit(t: Task) returns (k: Key)
      requires Valid()
      modifies this, ObjectsOf(policy)
      ensures Valid() && Value() == old(Value()).Admit(t)
      ensures k == old(Value()).ranking.KeyFor(t)
    {
      k := Rank(t);
      Push(Pending.Entry(k, t));
      admitted := admitted + [Pending.Entry(k, t)];
    }

    /** Removes an entry that no other entry precedes, and tells the policy. */
    method Next() returns (t: Option<Task>, ghost i: nat)
      requires Valid()
      modifies this, ObjectsOf(policy)
      ensures Valid()
      ensures t.None? <==> old(Value()).entries == []
      ensures t.None? ==> Value() == old(Value())
      ensures t.Some? ==> Pending.IsNext(old(Value()).entries, i) && t.value == old(Value()).entries[i].task
      ensures t.Some? ==> Value() == old(Value()).Take(i)
    {
      i := 0;
      if |h| == 0 {
        assert |multiset(admitted)| == 0;
        return None, 0;
      }
      HeapRootIsNext(h, admitted);
      ghost var root := h[0];
      i :| i < |admitted| && admitted[i] == root && Pending.IsNext(admitted, i);
      var e := Pop();
      Pending.WithoutIsMultisetMinus(admitted, i);
      admitted := Pending.Without(admitted, i);
      match policy {
        case Fair(w) => w.Notify(e.key);
        case _ =>
      }
      t := Some(e.task);
    }

    /** Empties the queue. The tasks come out in key order, whatever the policy, and none is lost. */
    method Drain() returns (out: seq<Task>, ghost log: seq<Entry>)
      requires Valid()
      modifies this, ObjectsOf(policy)
      ensures Valid() && Value().entries == []
      ensures Drained(old(Value()).entries, log, [])
      ensures out == Tasks(log)
    {
      hide Drained, Tasks, IsHeap, Pending.IsNext, RankingOf, Pending.Without;
      out, log := [], [];
      NothingDrained(admitted);
      while true
        invariant Valid()
        invariant out == Tasks(log)
        invariant Drained(old(admitted), log, admitted)
        decreases |admitted|
      {
        ghost var before := admitted;
        var t, i := Next();
        if t.None? {
          return;
        }
        DrainOne(old(admitted), log, before, i);
        OneMoreTask(log, before[i]);
        out, log := out + [t.value], log + [before[i]];
      }
    }

    method PendingCount() returns (n: nat)
      requires Valid()
      ensures n == |Value().entries|
    {
      assert |multiset(h)| == |multiset(admitted)|;
      n := |h|;
    }
  }

  ghost function Tasks(log: seq<Entry>): seq<Task> {
    seq(|log|, n requires 0 <= n < |log| => log[n].task)
  }

  /** Everything in log comes before, or level with, everything after it and everything pending. */
  ghost predicate AllInOrder(log: seq<Entry>, pending: seq<Entry>) {
    && (forall m, n :: 0 <= m < n < |log| ==> AtMost(log[m].key, log[n].key))
    && (forall m, j :: 0 <= m < |log| && 0 <= j < |pending| ==> AtMost(log[m].key, pending[j].key))
  }

  /** What has come out is in key order, nothing still pending precedes any of it, and together they are
      all there was. */
  ghost predicate Drained(all: seq<Entry>, log: seq<Entry>, pending: seq<Entry>) {
    multiset(log) + multiset(pending) == multiset(all) && AllInOrder(log, pending)
  }

  lemma NothingDrained(all: seq<Entry>)
    ensures Drained(all, [], all) && Tasks([]) == []
  {
  }

  lemma OneMoreTask(log: seq<Entry>, e: Entry)
    ensures Tasks(log + [e]) == Tasks(log) + [e.task]
  {
  }

  lemma OrderStays(log: seq<Entry>, pending: seq<Entry>, i: nat, left: seq<Entry>)
    requires AllInOrder(log, pending) && Pending.IsNext(pending, i)
    requires forall j :: 0 <= j < |left| ==> left[j] in pending
    ensures AllInOrder(log + [pending[i]], left)
  {
    hide AtMost;
  }

  lemma DrainOne(all: seq<Entry>, log: seq<Entry>, pending: seq<Entry>, i: nat)
    requires Drained(all, log, pending) && Pending.IsNext(pending, i)
    ensures Drained(all, log + [pending[i]], Pending.Without(pending, i))
    ensures |Pending.Without(pending, i)| < |pending|
  {
    hide AllInOrder, AtMost;
    var left := Pending.Without(pending, i);
    Pending.WithoutIsMultisetMinus(pending, i);
    assert multiset(pending) == multiset(left) + multiset{pending[i]};
    OrderStays(log, pending, i, left);
  }

  lemma HeapRootIsNext(h: seq<Entry>, admitted: seq<Entry>)
    requires IsHeap(h, |h|) && multiset(h) == multiset(admitted) && h != []
    ensures exists i :: 0 <= i < |admitted| && admitted[i] == h[0] && Pending.IsNext(admitted, i)
  {
    assert h[0] in multiset(admitted);
    var i :| 0 <= i < |admitted| && admitted[i] == h[0];
    forall j | 0 <= j < |admitted| ensures AtMost(admitted[i].key, admitted[j].key) {
      assert admitted[j] in multiset(h);
      var k :| 0 <= k < |h| && h[k] == admitted[j];
      RootIsLeast(h, |h|, k);
    }
    assert Pending.IsNext(admitted, i);
  }
}
