/** What the stateless policies promise of the pending queue, over every interleaving of Admit and Next
    (internal/scheduler/fifo, priority and edf driven by internal/scheduler/policy/queue.go). FairShare.dfy is about
    the one policy with state. */
module Policies {
  import opened Text
  import opened Ordering
  import opened Pending

  /** Every pending entry has the key its policy gives the task at any time. */
  ghost predicate KeysFit(q: Queue) {
    !q.ranking.Fair? && forall n :: 0 <= n < |q.entries| ==> q.entries[n].key == q.ranking.KeyFor(q.entries[n].task)
  }

  lemma {:induction false} RunKeepsKeys(q: Queue, steps: seq<Step>)
    requires KeysFit(q)
    ensures KeysFit(After(q, steps)) && After(q, steps).ranking == q.ranking
    decreases |steps|
  {
    if steps != [] {
      RunKeepsKeys(Do(q, steps[0]), steps[1..]);
    }
  }

  /** q is what the run has made of an empty queue, and e is pending in it when entry i is dispatched. */
  ghost predicate IsDispatch(ranking: Ranking, before: seq<Step>, q: Queue, i: nat, e: Entry) {
    && IsRun(Queue(ranking, []), before) && q == After(Queue(ranking, []), before)
    && IsNext(q.entries, i) && e in q.entries
  }

  lemma DispatchHasLeastKey(ranking: Ranking, before: seq<Step>, q: Queue, i: nat, e: Entry)
    requires !ranking.Fair? && IsDispatch(ranking, before, q, i, e)
    ensures !ranking.KeyFor(e.task).Less(ranking.KeyFor(q.entries[i].task))
  {
    RunKeepsKeys(Queue(ranking, []), before);
    assert AtMost(q.entries[i].key, e.key);
  }

  /** First in, first out: no pending task was submitted before the one dispatched. */
  lemma FifoServesOldest(before: seq<Step>, q: Queue, i: nat, e: Entry)
    requires IsDispatch(Fifo, before, q, i, e)
    ensures var (t, u) := (q.entries[i].task, e.task);
            t.submittedAt < u.submittedAt || (t.submittedAt == u.submittedAt && !Less(u.id, t.id))
  {
    DispatchHasLeastKey(Fifo, before, q, i, e);
    FifoOrder(e.task, q.entries[i].task);
  }

  /** Strict priority: no pending task has a higher priority than the one dispatched, and none of the same
      priority was submitted before it. */
  lemma PriorityServesHighest(before: seq<Step>, q: Queue, i: nat, e: Entry)
    requires IsDispatch(Priority, before, q, i, e)
    requires -BAND_WIDTH < q.entries[i].task.submittedAt - e.task.submittedAt < BAND_WIDTH
    requires 0 <= q.entries[i].task.priority <= 255 && 0 <= e.task.priority <= 255
    ensures var (t, u) := (q.entries[i].task, e.task);
            && t.priority >= u.priority
            && (t.priority == u.priority ==>
                  t.submittedAt < u.submittedAt || (t.submittedAt == u.submittedAt && !Less(u.id, t.id)))
  {
    DispatchHasLeastKey(Priority, before, q, i, e);
    PriorityOrder(e.task, q.entries[i].task);
  }

  /** Earliest deadline first: no pending task is due before the one dispatched, an undated one goes only when no
      dated one is pending, and none due at the same time was submitted before it. */
  lemma EdfServesMostUrgent(before: seq<Step>, q: Queue, i: nat, e: Entry)
    requires IsDispatch(Edf, before, q, i, e)
    requires MillisInRange(q.entries[i].task.submittedAt) && MillisInRange(e.task.submittedAt)
    requires IsDated(q.entries[i].task) ==> q.entries[i].task.deadline.value < NO_DEADLINE_SCORE
    requires IsDated(e.task) ==> e.task.deadline.value < NO_DEADLINE_SCORE
    ensures var (t, u) := (q.entries[i].task, e.task);
            && (IsDated(u) ==> IsDated(t) && t.deadline.value <= u.deadline.value)
            && (!DueBefore(t, u) ==>
                  t.submittedAt < u.submittedAt || (t.submittedAt == u.submittedAt && !Less(u.id, t.id)))
  {
    DispatchHasLeastKey(Edf, before, q, i, e);
    EdfOrder(e.task, q.entries[i].task);
  }
}
