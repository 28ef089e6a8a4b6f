/** The pending set as a value: what internal/scheduler/policy/queue.go computes, without the heap.

    Entries are kept in admission order. `Take(i)` removes one of the entries no other entry precedes;
    the heap in HeapQueue.dfy is proved to make such a choice. */
module Pending {
  import opened Text
  import opened Ordering
  import opened Wfq

  /** The state of the scheduling policy in use. Only fair queuing has any. */
  datatype Ranking = Fifo | Priority | Edf | Fair(clock: Clock)
  {
    function KeyFor(t: Task): Key {
      match this
      case Fifo => FifoKey(t)
      case Priority => PriorityKey(t)
      case Edf => EdfKey(t)
      case Fair(c) => Key(c.Finish(t), MemberFor(t))
    }

    function Ranked(t: Task): Ranking {
      match this
      case Fair(c) => Fair(c.Ranked(t))
      case _ => this
    }

    function Notified(k: Key): Ranking {
      match this
      case Fair(c) => Fair(c.Notified(k.score))
      case _ => this
    }
  }

  datatype Entry = Entry(key: Key, task: Task)

  function Without<T>(s: seq<T>, i: nat): seq<T>
    requires i < |s|
  {
    s[..i] + s[i + 1..]
  }

  lemma WithoutIsMultisetMinus<T>(s: seq<T>, i: nat)
    requires i < |s|
    ensures multiset(Without(s, i)) == multiset(s) - multiset{s[i]}
  {
    assert s == s[..i] + [s[i]] + s[i + 1..];
  }

  /** Entry i is dispatched next: no entry's key precedes its key. */
  ghost predicate IsNext(entries: seq<Entry>, i: nat) {
    i < |entries| && forall j :: 0 <= j < |entries| ==> AtMost(entries[i].key, entries[j].key)
  }

  datatype Queue = Queue(ranking: Ranking, entries: seq<Entry>)
  {
    function Admit(t: Task): Queue {
      Queue(ranking.Ranked(t), entries + [Entry(ranking.KeyFor(t), t)])
    }

    function Take(i: nat): Queue
      requires i < |entries|
    {
      Queue(ranking.Notified(entries[i].key), Without(entries, i))
    }
  }

  // ---------- runs ----------

  datatype Step = Admit(task: Task) | Next(index: nat)

  ghost predicate Possible(q: Queue, step: Step) {
    step.Next? ==> IsNext(q.entries, step.index)
  }

  function Do(q: Queue, step: Step): Queue {
    match step
    case Admit(t) => q.Admit(t)
    case Next(i) => if i < |q.entries| then q.Take(i) else q
  }

  ghost predicate IsRun(q: Queue, steps: seq<Step>)
    decreases |steps|
  {
    steps == [] || (Possible(q, steps[0]) && IsRun(Do(q, steps[0]), steps[1..]))
  }

  function After(q: Queue, steps: seq<Step>): Queue
    decreases |steps|
  {
    if steps == [] then q else After(Do(q, steps[0]), steps[1..])
  }

  /** What one step dispatches: at most one entry. */
  function Dispatched(q: Queue, step: Step): seq<Entry> {
    if step.Next? && step.index < |q.entries| then [q.entries[step.index]] else []
  }

  /** What one step admits, with the key it is given: at most one entry. */
  function Admitted(q: Queue, step: Step): seq<Entry> {
    if step.Admit? then [Entry(q.ranking.KeyFor(step.task), step.task)] else []
  }

  function DispatchLog(q: Queue, steps: seq<Step>): seq<Entry>
    decreases |steps|
  {
    if steps == [] then [] else Dispatched(q, steps[0]) + DispatchLog(Do(q, steps[0]), steps[1..])
  }

  function AdmitLog(q: Queue, steps: seq<Step>): seq<Entry>
    decreases |steps|
  {
    if steps == [] then [] else Admitted(q, steps[0]) + AdmitLog(Do(q, steps[0]), steps[1..])
  }

  lemma StepConservesEntries(q: Queue, step: Step)
    ensures multiset(q.entries) + multiset(Admitted(q, step)) ==
            multiset(Dispatched(q, step)) + multiset(Do(q, step).entries)
  {
    if step.Next? && step.index < |q.entries| {
      WithoutIsMultisetMinus(q.entries, step.index);
    }
  }

  /** Nothing is lost, invented or changed: under every policy, what was pending and what was admitted
      is what was dispatched and what is still pending. */
  lemma {:induction false} RunConservesEntries(q: Queue, steps: seq<Step>)
    ensures multiset(q.entries) + multiset(AdmitLog(q, steps)) ==
            multiset(DispatchLog(q, steps)) + multiset(After(q, steps).entries)
    decreases |steps|
  {
    if steps != [] {
      var q' := Do(q, steps[0]);
      StepConservesEntries(q, steps[0]);
      RunConservesEntries(q', steps[1..]);
      Chain(multiset(q.entries), multiset(Admitted(q, steps[0])), multiset(Dispatched(q, steps[0])),
            multiset(q'.entries), multiset(AdmitLog(q', steps[1..])), multiset(DispatchLog(q', steps[1..])),
            multiset(After(q', steps[1..]).entries));
    }
  }

  /** Two balances, one after the other, make one. */
  lemma Chain(before: multiset<Entry>, in1: multiset<Entry>, out1: multiset<Entry>, between: multiset<Entry>,
              in2: multiset<Entry>, out2: multiset<Entry>, after: multiset<Entry>)
    requires before + in1 == out1 + between
    requires between + in2 == out2 + after
    ensures before + (in1 + in2) == (out1 + out2) + after
  {
    assert before + (in1 + in2) == (before + in1) + in2 == out1 + (between + in2);
  }
}
