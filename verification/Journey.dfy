/** The life of a submission over whole runs of the protocol: from the ingress stream through admission,
    dispatch and redelivery to exactly one outcome (internal/scheduler/engine.go:308-417,
    internal/broker/scripts.go:68-337, internal/broker/broker.go:902-930).

    Schedulers may crash in the middle of a batch, be fenced half way, act on stale answers, lose replies and
    reclaim each other's entries; workers may answer late, twice or never. */
module Journey {
  import opened Text
  import opened Ordering
  import opened Wfq
  import opened Store
  import opened Handoff
  import opened Selection
  import opened Protocol
  import opened Leadership

  /** What the program's own loops do (Loops.dfy proves that they do no more): workers and recovery loops
      answer only for entries they were delivered, about the task they were given, judging retries by the
      configured budget; the duplicate pre-check reports only known ids, possibly too few of them; and nobody
      wipes the namespace meanwhile. */
  ghost predicate Honest(s: Sys, step: Step) {
    && Enabled(s, step)
    && match step
       case Reset => false
       case LookUpKnown(loop, answer) => answer <= KnownAmong(s.flow, s.intake.batches[loop].msgs)
       case Complete(msg, entry, result, _) =>
         WasDelivered(s.flow, msg) && s.flow.exec[msg] == entry && ReportsOn(result, entry)
       case Retry(msg, entry, budget, _, _) =>
         WasDelivered(s.flow, msg) && s.flow.exec[msg] == entry && budget == s.book.BudgetOf(entry.task)
       case _ => true
  }

  ghost predicate IsHonestRun(s: Sys, steps: seq<Step>)
    decreases |steps|
  {
    steps == [] || (Honest(s, steps[0]) && IsHonestRun(Next(s, steps[0]), steps[1..]))
  }

  lemma {:induction false} HonestRunIsRun(s: Sys, steps: seq<Step>)
    requires IsHonestRun(s, steps)
    ensures IsRun(s, steps)
    decreases |steps|
  {
    if steps != [] {
      HonestRunIsRun(Next(s, steps[0]), steps[1..]);
    }
  }

  // ---------- answers stay honest ----------

  /** Entries and deliveries stay, and what is known stays known. */
  ghost predicate Grows(f: Flow, g: Flow) {
    f.exec <= g.exec && f.execRead <= g.execRead && forall id :: Known(f, id) ==> Known(g, id)
  }

  lemma {:induction false} DispatchGrows(f: Flow, count: nat, cap: int, now: int, epoch: int)
    ensures Grows(f, DispatchMany(f, count, cap, now, epoch))
    decreases count
  {
    if count > 0 && MayDispatch(f, cap) {
      DispatchGrows(DispatchOne(f, now, epoch), count - 1, cap, now, epoch);
    }
  }

  lemma CompletionGrows(f: Flow, r: Result, now: int, msg: Option<int>)
    ensures Grows(f, CompleteTask(f, r, now, msg))
  {
  }

  lemma RetryGrows(f: Flow, t: Task, budget: int, reason: string, now: int, msg: Option<int>)
    ensures Grows(f, RetryTask(f, t, budget, reason, now, msg))
  {
    hide Acked;
    match RetryOutcomeOf(f, t, budget)
    case AlreadyTerminal =>
    case DeadLettered =>
    case Redelivered =>
  }

  lemma AdmissionGrows(f: Flow, t: Task, key: Key)
    ensures Grows(f, AdmitTask(f, t, key))
  {
  }

  lemma ReadingGrows(f: Flow, count: nat)
    ensures Grows(f, Handoff.ReadExec(f, count)) && Grows(f, f)
  {
  }

  lemma StepGrows(s: Sys, step: Step)
    requires Honest(s, step)
    ensures Grows(s.flow, Next(s, step).flow) && Next(s, step).book.defaultRetries == s.book.defaultRetries
  {
    hide Grows, DispatchMany, AdmitTask, CompleteTask, RetryTask, IsValid;
    ReadingGrows(s.flow, 0);
    match step
    case AdmitNext(loop, score, _) =>
      var b := s.intake.batches[loop];
      AdmissionGrows(s.flow, b.msgs[b.next].1, Key(score, MemberFor(b.msgs[b.next].1)));
    case Dispatch(epoch, count, cap, now) => DispatchGrows(s.flow, count, cap, now, epoch);
    case ReadExec(count) => ReadingGrows(s.flow, count);
    case Complete(msg, _, result, now) => CompletionGrows(s.flow, result, now, Some(msg));
    case Retry(msg, entry, budget, reason, now) => RetryGrows(s.flow, entry.task, budget, reason, now, Some(msg));
    case _ =>
  }

  lemma {:induction false} RunGrows(s: Sys, steps: seq<Step>)
    requires IsHonestRun(s, steps)
    ensures IsRun(s, steps) && Grows(s.flow, After(s, steps).flow)
    ensures After(s, steps).book.defaultRetries == s.book.defaultRetries
    decreases |steps|
  {
    hide Next, Honest;
    HonestRunIsRun(s, steps);
    if steps == [] {
      ReadingGrows(s.flow, 0);
    } else {
      StepGrows(s, steps[0]);
      RunGrows(Next(s, steps[0]), steps[1..]);
    }
  }

  predicate SameBatch(s: Sys, s': Sys, loop: int) {
    loop in s.intake.batches && loop in s'.intake.batches && s'.intake.batches[loop] == s.intake.batches[loop]
  }

  /** What was honest to send stays so, however much others do first: an answer for a delivery, a retry under
      the budget, and the known ids found for a batch nobody else touches. */
  lemma AnswersStayHonest(s: Sys, steps: seq<Step>, step: Step)
    requires IsHonestRun(s, steps) && Honest(s, step)
    ensures IsRun(s, steps)
    ensures step.Complete? || step.Retry? ==> Honest(After(s, steps), step)
    ensures step.LookUpKnown? && SameBatch(s, After(s, steps), step.loop) ==> Honest(After(s, steps), step)
  {
    hide IsHonestRun, IsRun, After;
    RunGrows(s, steps);
    if step.LookUpKnown? {
      KnownAmongGrows(s.flow, After(s, steps).flow, s.intake.batches[step.loop].msgs);
    }
  }

  lemma KnownAmongGrows(f: Flow, g: Flow, msgs: seq<(int, Task)>)
    requires Grows(f, g)
    ensures KnownAmong(f, msgs) <= KnownAmong(g, msgs)
  {
  }

  /** The duplicate pre-check reads payloads and finished ids one after the other, while tasks move from the
      one to the other. It misses no id that was known when it began and reports none that is not known when it
      ends. */
  lemma TwoReadsAreEnough(s: Sys, steps: seq<Step>, id: string)
    requires IsHonestRun(s, steps)
    ensures IsRun(s, steps)
    ensures var (first, second) := (s.flow, After(s, steps).flow);
            && (Known(first, id) ==> id in first.payloads || id in second.done)
            && (id in first.payloads || id in second.done ==> Known(second, id))
  {
    RunGrows(s, steps);
    RunKeepsOutcomes(s, steps);
  }

  // ---------- the intake ----------

  /** The entry at position k is unread, or read and not acknowledged, or its task is known. */
  ghost predicate IsAccountedFor(i: Intake, b: Book, k: int)
    requires 0 <= k < |i.entries|
  {
    k >= i.read || k in i.pel || i.entries[k].id in b.origin
  }

  ghost predicate WasSubmitted(i: Intake, t: Task) {
    exists k :: 0 <= k < i.read && k < |i.entries| && i.entries[k] == t
  }

  /** A batch holds entries that were read; whoever it believes known is known; it acknowledges only what is
      invalid or known. */
  ghost predicate BatchInv(entries: seq<Task>, read: int, b: Book, batch: Batch) {
    && 0 <= batch.next <= |batch.msgs|
    && (forall n :: 0 <= n < |batch.msgs| ==>
          0 <= batch.msgs[n].0 < read && read <= |entries| && batch.msgs[n].1 == entries[batch.msgs[n].0])
    && (batch.known.Some? ==> batch.known.value <= b.origin.Keys)
    && (forall k :: k in batch.acks ==> 0 <= k < |entries| && (!IsValid(entries[k]) || entries[k].id in b.origin))
  }

  ghost predicate IntakeInv(i: Intake, b: Book) {
    && 0 <= i.read <= |i.entries|
    && (forall k :: k in i.pel ==> 0 <= k < i.read)
    && (forall k :: 0 <= k < |i.entries| && IsValid(i.entries[k]) ==> IsAccountedFor(i, b, k))
    && (forall l :: l in i.batches ==> BatchInv(i.entries, i.read, b, i.batches[l]))
    && (forall id :: id in b.origin ==> WasSubmitted(i, b.origin[id]))
  }

  lemma {:induction false} PickedHoldsEntries(entries: seq<Task>, ids: seq<int>)
    requires forall k :: 0 <= k < |ids| ==> 0 <= ids[k] < |entries|
    ensures |Picked(entries, ids)| == |ids|
    ensures forall n :: 0 <= n < |ids| ==> Picked(entries, ids)[n] == (ids[n], entries[ids[n]])
  {
    if ids != [] {
      PickedHoldsEntries(entries, ids[1..]);
      var rest := Picked(entries, ids[1..]);
      forall n | 0 <= n < |ids| ensures Picked(entries, ids)[n] == (ids[n], entries[ids[n]]) {
        assert n > 0 ==> Picked(entries, ids)[n] == rest[n - 1] && ids[1..][n - 1] == ids[n];
      }
    }
  }

  lemma SubmissionKeepsIntake(i: Intake, b: Book, t: Task)
    requires IntakeInv(i, b)
    ensures IntakeInv(i.(entries := i.entries + [t]), b)
  {
    var i' := i.(entries := i.entries + [t]);
    forall l | l in i'.batches ensures BatchInv(i'.entries, i'.read, b, i'.batches[l]) {
      assert BatchInv(i.entries, i.read, b, i.batches[l]);
    }
    forall id | id in b.origin ensures WasSubmitted(i', b.origin[id]) {
      var k :| 0 <= k < i.read && k < |i.entries| && i.entries[k] == b.origin[id];
      assert i'.entries[k] == b.origin[id];
    }
    forall k | 0 <= k < |i'.entries| && IsValid(i'.entries[k]) ensures IsAccountedFor(i', b, k) {
      assert k < |i.entries| ==> IsAccountedFor(i, b, k);
    }
  }

  /** Reading brings the next entries nobody has read, as many as asked for and there are, in order, and each of them
      is pending from then on. */
  lemma ReadingTakesNext(i: Intake, loop: int, epoch: int, count: nat)
    requires 0 <= i.read <= |i.entries|
    ensures var j := Read(i, loop, epoch, count);
            && j.read == (if i.read + count < |i.entries| then i.read + count else |i.entries|)
            && (forall k :: k in j.pel <==> k in i.pel || i.read <= k < j.read)
            && j.entries == i.entries && loop in j.batches
            && var b := j.batches[loop];
            && b.epoch == epoch && b.known.None? && |b.msgs| == j.read - i.read
            && forall n :: 0 <= n < |b.msgs| ==> b.msgs[n] == (i.read + n, i.entries[i.read + n])
  {
    hide Picked;
    PickedHoldsEntries(i.entries, Upwards(i.read, Read(i, loop, epoch, count).read));
  }

  lemma ReadingKeepsIntake(i: Intake, b: Book, loop: int, epoch: int, count: nat)
    requires IntakeInv(i, b)
    ensures IntakeInv(Read(i, loop, epoch, count), b)
  {
    var i' := Read(i, loop, epoch, count);
    PickedHoldsEntries(i.entries, Upwards(i.read, i'.read));
    forall l | l in i'.batches ensures BatchInv(i'.entries, i'.read, b, i'.batches[l]) {
      if l != loop {
        assert BatchInv(i.entries, i.read, b, i.batches[l]);
      }
    }
    forall id | id in b.origin ensures WasSubmitted(i', b.origin[id]) {
      assert WasSubmitted(i, b.origin[id]);
    }
    forall k | 0 <= k < |i'.entries| && IsValid(i'.entries[k]) ensures IsAccountedFor(i', b, k) {
      assert IsAccountedFor(i, b, k);
    }
  }

  /** Putting a batch in place of another changes nothing else. */
  lemma BatchKeepsIntake(i: Intake, b: Book, loop: int, batch: Batch)
    requires IntakeInv(i, b) && BatchInv(i.entries, i.read, b, batch)
    ensures IntakeInv(i.(batches := i.batches[loop := batch]), b)
  {
    var i' := i.(batches := i.batches[loop := batch]);
    hide BatchInv, IsValid;
    forall id | id in b.origin ensures WasSubmitted(i', b.origin[id]) {
      assert WasSubmitted(i, b.origin[id]);
    }
    forall k | 0 <= k < |i'.entries| && IsValid(i'.entries[k]) ensures IsAccountedFor(i', b, k) {
      assert IsAccountedFor(i, b, k);
    }
  }

  /** Acknowledging a batch's finished entries leaves every submission accounted for. */
  lemma AckKeepsIntake(i: Intake, b: Book, loop: int, acks: set<int>)
    requires IntakeInv(i, b)
    requires forall k :: k in acks ==> 0 <= k < |i.entries| && (!IsValid(i.entries[k]) || i.entries[k].id in b.origin)
    ensures IntakeInv(i.(pel := i.pel - acks, batches := i.batches - {loop}), b)
  {
    var i' := i.(pel := i.pel - acks, batches := i.batches - {loop});
    hide BatchInv, IsValid;
    forall id | id in b.origin ensures WasSubmitted(i', b.origin[id]) {
      assert WasSubmitted(i, b.origin[id]);
    }
    forall k | 0 <= k < |i'.entries| && IsValid(i'.entries[k]) ensures IsAccountedFor(i', b, k) {
      assert IsAccountedFor(i, b, k);
    }
  }

  /** An admission of a task that was submitted keeps the intake. */
  lemma EnteringKeepsIntake(i: Intake, b: Book, t: Task)
    requires IntakeInv(i, b) && t.id !in b.origin && WasSubmitted(i, t)
    ensures IntakeInv(i, Entered(b, t))
  {
    forall l | l in i.batches ensures BatchInv(i.entries, i.read, Entered(b, t), i.batches[l]) {
      assert BatchInv(i.entries, i.read, b, i.batches[l]);
    }
    forall k | 0 <= k < |i.entries| && IsValid(i.entries[k]) ensures IsAccountedFor(i, Entered(b, t), k) {
      assert IsAccountedFor(i, b, k);
    }
  }

  /** Of the hand-off invariant, what the steps of others rest on. */
  ghost predicate IsSound(f: Flow, b: Book) {
    && ExecInv(f.exec, f.pending, b)
    && (forall id :: id in b.origin ==> b.origin[id].id == id)
    && (forall id :: Known(f, id) <==> id in b.origin)
  }

  lemma InvIsSound(f: Flow, b: Book, parents: Lineage)
    requires Inv(f, b, parents)
    ensures IsSound(f, b)
  {
    hide PendingInv, ExecInv, LineageInv, NothingLost, CountersInv, OutcomesInv, TalliesInv, RecordsInv;
  }

  lemma LookUpKeepsIntake(s: Sys, loop: int, answer: set<string>)
    requires IntakeInv(s.intake, s.book) && IsSound(s.flow, s.book)
    requires Honest(s, LookUpKnown(loop, answer))
    ensures IntakeInv(Next(s, LookUpKnown(loop, answer)).intake, s.book)
  {
    hide ExecInv, Known;
    var batch := s.intake.batches[loop];
    forall id | id in answer ensures id in s.book.origin {
      assert Known(s.flow, id);
    }
    BatchKeepsIntake(s.intake, s.book, loop, batch.(known := Some(answer)));
  }

  lemma BatchAcksAreDone(entries: seq<Task>, read: int, b: Book, batch: Batch)
    requires BatchInv(entries, read, b, batch)
    ensures forall k :: k in batch.acks ==> 0 <= k < |entries| && (!IsValid(entries[k]) || entries[k].id in b.origin)
  {
  }

  lemma StoppingKeepsBatch(entries: seq<Task>, read: int, b: Book, batch: Batch)
    requires BatchInv(entries, read, b, batch)
    ensures BatchInv(entries, read, b, Stopped(batch))
  {
  }

  lemma SkippingKeepsBatch(entries: seq<Task>, read: int, b: Book, batch: Batch)
    requires BatchInv(entries, read, b, batch) && batch.next < |batch.msgs|
    requires var t := batch.msgs[batch.next].1; !IsValid(t) || t.id in b.origin
    ensures BatchInv(entries, read, b, Skipped(batch))
  {
  }

  lemma BelievedKnown(entries: seq<Task>, read: int, b: Book, batch: Batch)
    requires BatchInv(entries, read, b, batch) && batch.known.Some?
    ensures batch.known.value <= b.origin.Keys
  {
  }

  lemma AdmitNextKeepsFlow(s: Sys, loop: int, batch: Batch, score: real, replyLost: bool, s': Sys)
    requires IntakeInv(s.intake, s.book) && Inv(s.flow, s.book, s.parents)
    requires loop in s.intake.batches && s.intake.batches[loop] == batch
    requires batch.known.Some? && 0 <= batch.next < |batch.msgs|
    requires s' == AdmittedNext(s, loop, batch, score, replyLost)
    ensures IntakeInv(s'.intake, s'.book) && Inv(s'.flow, s'.book, s'.parents)
  {
    hide Inv, IsSound, IntakeInv, IsValid, BatchInv, AdmitTask, AdmitBook;
    var i, t := s.intake, batch.msgs[batch.next].1;
    BatchIsFromIntake(i, s.book, loop);
    BelievedKnown(i.entries, i.read, s.book, batch);
    if t.id in batch.known.value || !IsValid(t) {
      SkippingKeepsBatch(i.entries, i.read, s.book, batch);
      BatchKeepsIntake(i, s.book, loop, Skipped(batch));
    } else if IsFenced(s.election.fence, batch.epoch) {
      StoppingKeepsBatch(i.entries, i.read, s.book, batch);
      BatchKeepsIntake(i, s.book, loop, Stopped(batch));
    } else {
      AdmitKeepsInv(s.flow, s.book, s.parents, t, Key(score, MemberFor(t)));
      InvIsSound(s.flow, s.book, s.parents);
      AdmittingKeepsIntake(s, t);
      BatchIsFromIntake(i, s'.book, loop);
      SkippingKeepsBatch(i.entries, i.read, s'.book, batch);
      StoppingKeepsBatch(i.entries, i.read, s'.book, batch);
      BatchKeepsIntake(i, s'.book, loop, if replyLost then Stopped(batch) else Skipped(batch));
    }
  }

  /** On the hand-off keys the step does what the admit script does, or nothing. */
  lemma AdmitNextFlow(s: Sys, loop: int, batch: Batch, score: real, replyLost: bool)
    requires batch.known.Some? && 0 <= batch.next < |batch.msgs|
    ensures var (f, t) := (AdmittedNext(s, loop, batch, score, replyLost).flow, batch.msgs[batch.next].1);
            f == s.flow || f == AdmitTask(s.flow, t, Key(score, MemberFor(t)))
  {
    hide AdmitTask, AdmitBook, IsValid, IsFenced;
  }

  lemma AdmittingKeepsIntake(s: Sys, t: Task)
    requires IntakeInv(s.intake, s.book) && IsSound(s.flow, s.book) && WasSubmitted(s.intake, t)
    ensures IntakeInv(s.intake, AdmitBook(s.flow, s.book, t)) && t.id in AdmitBook(s.flow, s.book, t).origin
  {
    hide ExecInv, IntakeInv;
    if !Known(s.flow, t.id) {
      EnteringKeepsIntake(s.intake, s.book, t);
    }
  }

  lemma BatchIsFromIntake(i: Intake, b: Book, loop: int)
    requires IntakeInv(i, b) && loop in i.batches
    ensures BatchInv(i.entries, i.read, b, i.batches[loop])
    ensures forall n :: 0 <= n < |i.batches[loop].msgs| ==> WasSubmitted(i, i.batches[loop].msgs[n].1)
  {
  }

  lemma StepKeepsIntake(s: Sys, step: Step)
    requires IntakeInv(s.intake, s.book) && Inv(s.flow, s.book, s.parents) && Honest(s, step)
    ensures IntakeInv(Next(s, step).intake, Next(s, step).book)
  {
    hide Inv, IsSound, IntakeInv, BatchInv;
    InvIsSound(s.flow, s.book, s.parents);
    match step
    case Submit(t) => SubmissionKeepsIntake(s.intake, s.book, t);
    case ReadIngress(loop, epoch, count) => ReadingKeepsIntake(s.intake, s.book, loop, epoch, count);
    case ReclaimIngress(loop, epoch, ids) =>
      ReclaimKeepsIntake(s.intake, s.book, loop, epoch, ids);
    case LookUpKnown(loop, answer) => LookUpKeepsIntake(s, loop, answer);
    case AdmitNext(loop, score, replyLost) =>
      AdmitNextKeepsFlow(s, loop, s.intake.batches[loop], score, replyLost, Next(s, step));
    case GiveUp(loop) =>
      BatchIsFromIntake(s.intake, s.book, loop);
      StoppingKeepsBatch(s.intake.entries, s.intake.read, s.book, s.intake.batches[loop]);
      BatchKeepsIntake(s.intake, s.book, loop, Stopped(s.intake.batches[loop]));
    case AckIngress(loop) =>
      BatchIsFromIntake(s.intake, s.book, loop);
      BatchAcksAreDone(s.intake.entries, s.intake.read, s.book, s.intake.batches[loop]);
      AckKeepsIntake(s.intake, s.book, loop, s.intake.batches[loop].acks);
    case Abandon(loop) =>
      AckKeepsIntake(s.intake, s.book, loop, {});
      assert s.intake.pel - {} == s.intake.pel;
    case _ =>
  }

  lemma ReclaimKeepsIntake(i: Intake, b: Book, loop: int, epoch: int, ids: seq<int>)
    requires IntakeInv(i, b) && forall k :: 0 <= k < |ids| ==> ids[k] in i.pel && 0 <= ids[k] < |i.entries|
    ensures IntakeInv(i.(batches := i.batches[loop := Fetched(epoch, Picked(i.entries, ids))]), b)
  {
    assert forall k :: 0 <= k < |ids| ==> 0 <= ids[k] < i.read <= |i.entries|;
    hide IntakeInv, Picked;
    PickedHoldsEntries(i.entries, ids);
    BatchKeepsIntake(i, b, loop, Fetched(epoch, Picked(i.entries, ids)));
  }

  // ---------- the hand-off ----------

  lemma StepKeepsHandoff(s: Sys, step: Step)
    requires IntakeInv(s.intake, s.book) && Inv(s.flow, s.book, s.parents) && Honest(s, step)
    ensures var s' := Next(s, step); Inv(s'.flow, s'.book, s'.parents)
  {
    hide Inv, IntakeInv;
    match step
    case AdmitNext(loop, score, replyLost) =>
      AdmitNextKeepsFlow(s, loop, s.intake.batches[loop], score, replyLost, Next(s, step));
    case Dispatch(epoch, count, cap, now) => DispatchKeepsInv(s.flow, s.book, s.parents, count, cap, now, epoch);
    case ReadExec(count) => ReadExecKeepsInv(s.flow, s.book, s.parents, count);
    case Complete(msg, entry, result, now) => CompleteKeepsInv(s.flow, s.book, s.parents, msg, result, now);
    case Retry(msg, entry, budget, reason, now) =>
      RetryKeepsInv(s.flow, s.book, s.parents, msg, entry.task, reason, now);
    case _ =>
  }

  // ---------- the history of guarded writes ----------

  /** How often the log admits the id as new. */
  function AdmissionsOf(log: seq<Write>, id: string): nat {
    if log == [] then 0
    else
      var w := log[|log| - 1];
      AdmissionsOf(log[..|log| - 1], id) + if w.Admission? && w.isNew && w.id == id then 1 else 0
  }

  /** The fields of the last policy snapshot written. */
  function LastSnapshot(log: seq<Write>): map<string, Field> {
    if log == [] then map[]
    else
      var w := log[|log| - 1];
      if w.StateFlush? then w.fields else LastSnapshot(log[..|log| - 1])
  }

  ghost predicate HistoryInv(log: seq<Write>, schedState: map<string, Field>, b: Book) {
    && (forall id :: AdmissionsOf(log, id) == if id in b.origin then 1 else 0)
    && schedState == LastSnapshot(log)
  }

  lemma WriteKeepsHistory(log: seq<Write>, schedState: map<string, Field>, b: Book, w: Write,
                          schedState': map<string, Field>, b': Book)
    requires HistoryInv(log, schedState, b)
    requires schedState' == if w.StateFlush? then w.fields else schedState
    requires w.Admission? ==> w.isNew == (w.id !in b.origin) && b'.origin.Keys == b.origin.Keys + {w.id}
    requires !w.Admission? ==> b' == b
    ensures HistoryInv(log + [w], schedState', b')
  {
    assert (log + [w])[..|log|] == log;
    forall id ensures AdmissionsOf(log + [w], id) == if id in b'.origin then 1 else 0 {
      assert AdmissionsOf(log, id) == if id in b.origin then 1 else 0;
    }
  }

  lemma AdmissionKeepsHistory(s: Sys, loop: int, batch: Batch, score: real, replyLost: bool, s': Sys)
    requires HistoryInv(s.election.log, s.schedState, s.book) && IsSound(s.flow, s.book)
    requires batch.known.Some? && 0 <= batch.next < |batch.msgs| && s' == AdmittedNext(s, loop, batch, score, replyLost)
    ensures HistoryInv(s'.election.log, s'.schedState, s'.book)
  {
    hide ExecInv, HistoryInv, IsValid;
    var t := batch.msgs[batch.next].1;
    if s'.election != s.election {
      var w := Admission(batch.epoch, t.id, !Known(s.flow, t.id), score);
      WriteKeepsHistory(s.election.log, s.schedState, s.book, w, s.schedState, s'.book);
    }
  }

  lemma StepKeepsHistory(s: Sys, step: Step)
    requires HistoryInv(s.election.log, s.schedState, s.book) && IsSound(s.flow, s.book) && Honest(s, step)
    ensures var s' := Next(s, step); HistoryInv(s'.election.log, s'.schedState, s'.book)
  {
    hide IsSound, HistoryInv;
    match step
    case AdmitNext(loop, score, replyLost) =>
      AdmissionKeepsHistory(s, loop, s.intake.batches[loop], score, replyLost, Next(s, step));
    case Dispatch(epoch, _, _, _) =>
      WriteKeepsHistory(s.election.log, s.schedState, s.book, DispatchCall(epoch), s.schedState, s.book);
    case Flush(epoch, args) =>
      var w := StateFlush(epoch, FieldsOf(args));
      WriteKeepsHistory(s.election.log, s.schedState, s.book, w, FieldsOf(args), s.book);
    case _ =>
  }

  // ---------- the scores in the pending set ----------

  /** The score under which the log admits the id as new. */
  function ScoreGiven(log: seq<Write>, id: string): real {
    if log == [] then 0.0
    else
      var w := log[|log| - 1];
      if w.Admission? && w.isNew && w.id == id then w.score else ScoreGiven(log[..|log| - 1], id)
  }

  /** Every waiting task stands in the pending set under the score it was admitted with. */
  ghost predicate ScoresInv(log: seq<Write>, pending: map<string, real>, b: Book) {
    forall id :: IsWaiting(pending, b, id) ==> pending[MemberFor(b.origin[id])] == ScoreGiven(log, id)
  }

  lemma ScoresOfMore(log: seq<Write>, w: Write, id: string)
    ensures ScoreGiven(log + [w], id) ==
            if w.Admission? && w.isNew && w.id == id then w.score else ScoreGiven(log, id)
  {
    assert (log + [w])[..|log|] == log;
  }

  /** A write that admits nothing, and a pending set with nothing new in it. */
  lemma WriteKeepsScores(log: seq<Write>, pending: map<string, real>, b: Book, w: Write, pending': map<string, real>)
    requires ScoresInv(log, pending, b) && !(w.Admission? && w.isNew)
    requires forall m :: m in pending' ==> m in pending && pending'[m] == pending[m]
    ensures ScoresInv(log + [w], pending', b)
  {
    forall id | IsWaiting(pending', b, id) ensures pending'[MemberFor(b.origin[id])] == ScoreGiven(log + [w], id) {
      ScoresOfMore(log, w, id);
      assert IsWaiting(pending, b, id);
    }
  }

  lemma AdmissionKeepsScores(log: seq<Write>, pending: map<string, real>, b: Book, t: Task, epoch: int, score: real)
    requires ScoresInv(log, pending, b) && t.id !in b.origin
    requires forall id :: id in b.origin ==> b.origin[id].id == id
    ensures ScoresInv(log + [Admission(epoch, t.id, true, score)], pending[MemberFor(t) := score], Entered(b, t))
  {
    var w, pending', b' := Admission(epoch, t.id, true, score), pending[MemberFor(t) := score], Entered(b, t);
    forall id | IsWaiting(pending', b', id) ensures pending'[MemberFor(b'.origin[id])] == ScoreGiven(log + [w], id) {
      ScoresOfMore(log, w, id);
      if id != t.id {
        MembersDiffer(b.origin[id], t);
        assert IsWaiting(pending, b, id);
      }
    }
  }

  lemma {:induction false} DispatchOnlyTakes(f: Flow, count: nat, cap: int, now: int, epoch: int)
    ensures var pending' := DispatchMany(f, count, cap, now, epoch).pending;
            forall m :: m in pending' ==> m in f.pending && pending'[m] == f.pending[m]
    decreases count
  {
    if count > 0 && MayDispatch(f, cap) {
      DispatchOnlyTakes(DispatchOne(f, now, epoch), count - 1, cap, now, epoch);
    }
  }

  lemma AdmitNextKeepsScores(s: Sys, loop: int, batch: Batch, score: real, replyLost: bool, s': Sys)
    requires ScoresInv(s.election.log, s.flow.pending, s.book) && IsSound(s.flow, s.book)
    requires batch.known.Some? && 0 <= batch.next < |batch.msgs| && s' == AdmittedNext(s, loop, batch, score, replyLost)
    ensures ScoresInv(s'.election.log, s'.flow.pending, s'.book)
  {
    hide ExecInv, ScoresInv, IsValid;
    var t := batch.msgs[batch.next].1;
    if s'.election != s.election {
      if Known(s.flow, t.id) {
        var w := Admission(batch.epoch, t.id, false, score);
        WriteKeepsScores(s.election.log, s.flow.pending, s.book, w, s.flow.pending);
      } else {
        AdmissionKeepsScores(s.election.log, s.flow.pending, s.book, t, batch.epoch, score);
      }
    }
  }

  lemma CompletionKeepsPending(f: Flow, r: Result, now: int, msg: Option<int>)
    ensures CompleteTask(f, r, now, msg).pending == f.pending
  {
  }

  lemma RetryKeepsPending(f: Flow, t: Task, budget: int, reason: string, now: int, msg: Option<int>)
    ensures RetryTask(f, t, budget, reason, now, msg).pending == f.pending
  {
    hide NextAttempt, Acked, RetryOutcomeOf;
    match RetryOutcomeOf(f, t, budget)
    case AlreadyTerminal =>
    case DeadLettered =>
    case Redelivered =>
  }

  lemma StepKeepsScores(s: Sys, step: Step)
    requires ScoresInv(s.election.log, s.flow.pending, s.book) && IsSound(s.flow, s.book) && Honest(s, step)
    ensures var s' := Next(s, step); ScoresInv(s'.election.log, s'.flow.pending, s'.book)
  {
    hide IsSound, ScoresInv, CompleteTask, RetryTask, DispatchMany, Picked, Upwards, IsValid;
    match step
    case AdmitNext(loop, score, replyLost) =>
      AdmitNextKeepsScores(s, loop, s.intake.batches[loop], score, replyLost, Next(s, step));
    case Dispatch(epoch, count, cap, now) =>
      DispatchOnlyTakes(s.flow, count, cap, now, epoch);
      var pending' := DispatchMany(s.flow, count, cap, now, epoch).pending;
      WriteKeepsScores(s.election.log, s.flow.pending, s.book, DispatchCall(epoch), pending');
    case Flush(epoch, args) =>
      WriteKeepsScores(s.election.log, s.flow.pending, s.book, StateFlush(epoch, FieldsOf(args)), s.flow.pending);
    case Complete(msg, _, r, now) => CompletionKeepsPending(s.flow, r, now, Some(msg));
    case Retry(msg, entry, budget, reason, now) =>
      RetryKeepsPending(s.flow, entry.task, budget, reason, now, Some(msg));
    case _ =>
  }

  // ---------- whole runs ----------

  ghost predicate JourneyInv(s: Sys) {
    && IntakeInv(s.intake, s.book)
    && Inv(s.flow, s.book, s.parents)
    && HistoryInv(s.election.log, s.schedState, s.book)
    && ScoresInv(s.election.log, s.flow.pending, s.book)
  }

  lemma StepKeepsJourney(s: Sys, step: Step)
    requires JourneyInv(s) && Honest(s, step)
    ensures Enabled(s, step) && JourneyInv(Next(s, step))
  {
    hide Inv, IsSound, IntakeInv, HistoryInv, ScoresInv, Next;
    InvIsSound(s.flow, s.book, s.parents);
    StepKeepsIntake(s, step);
    StepKeepsHandoff(s, step);
    StepKeepsHistory(s, step);
    StepKeepsScores(s, step);
  }

  lemma {:induction false} RunKeepsJourney(s: Sys, steps: seq<Step>)
    requires JourneyInv(s) && IsHonestRun(s, steps)
    ensures IsRun(s, steps) && JourneyInv(After(s, steps))
    decreases |steps|
  {
    hide IntakeInv, Inv, HistoryInv, ScoresInv, Next;
    if steps != [] {
      StepKeepsJourney(s, steps[0]);
      RunKeepsJourney(Next(s, steps[0]), steps[1..]);
    }
  }

  lemma InitialJourney(defaultRetries: int)
    requires defaultRetries >= 0
    ensures JourneyInv(Initial(defaultRetries))
  {
    EmptyInv(defaultRetries);
  }

  lemma Reached(defaultRetries: int, steps: seq<Step>) returns (s: Sys)
    requires defaultRetries >= 0 && IsHonestRun(Initial(defaultRetries), steps)
    ensures IsRun(Initial(defaultRetries), steps) && s == After(Initial(defaultRetries), steps)
    ensures JourneyInv(s)
  {
    hide JourneyInv;
    InitialJourney(defaultRetries);
    RunKeepsJourney(Initial(defaultRetries), steps);
    s := After(Initial(defaultRetries), steps);
  }

  /** The task with this id is finished, waiting, or in an entry somebody has yet to be given or to answer for. */
  ghost predicate IsSomewhere(s: Sys, id: string) {
    || id in s.flow.done
    || (id in s.flow.payloads &&
        (|| IsWaiting(s.flow.pending, s.book, id)
         || HasOutstanding(s.flow.exec, s.flow.execRead, s.flow.execPel, id)))
  }

  lemma SubmissionIsSomewhere(s: Sys, k: int)
    requires JourneyInv(s) && 0 <= k < |s.intake.entries| && IsValid(s.intake.entries[k])
    ensures k >= s.intake.read || k in s.intake.pel || IsSomewhere(s, s.intake.entries[k].id)
  {
    hide PendingInv, ExecInv, LineageInv, CountersInv, OutcomesInv, TalliesInv, RecordsInv, HistoryInv, IsValid;
    assert IsAccountedFor(s.intake, s.book, k);
    InvIsSound(s.flow, s.book, s.parents);
  }

  /** No submission is ever lost. In every run a valid submission, one with an id, a tenant, a submission time, a
      priority from 0 to 255 and no negative number, is unread, or read and not acknowledged, or known; a known
      task is finished, waiting in the pending set, or in an execution entry that some worker has yet to be given
      or to answer for. */
  lemma NoSubmissionIsLost(defaultRetries: int, steps: seq<Step>, k: int)
    requires defaultRetries >= 0 && IsHonestRun(Initial(defaultRetries), steps)
    ensures IsRun(Initial(defaultRetries), steps)
    ensures var s := After(Initial(defaultRetries), steps);
            0 <= k < |s.intake.entries| ==>
              var t := s.intake.entries[k];
              t.id != "" && t.tenant != "" && t.submittedAt != ZERO_TIME && t.execMillis >= 0 &&
              0 <= t.priority <= 255 && t.maxRetries >= 0 && t.retryCount >= 0 ==>
                k >= s.intake.read || k in s.intake.pel || IsSomewhere(s, t.id)
  {
    hide JourneyInv, IsSomewhere, After, IsHonestRun, IsRun;
    var s := Reached(defaultRetries, steps);
    if 0 <= k < |s.intake.entries| && IsValid(s.intake.entries[k]) {
      SubmissionIsSomewhere(s, k);
    }
  }

  /** No task is admitted twice, whatever stale answers, lost replies and reclaim passes there were: an id is
      written into the pending set once if it is known and never otherwise, and what was admitted under it is
      a valid task that somebody submitted, unchanged. */
  lemma AdmittedOnce(defaultRetries: int, steps: seq<Step>, id: string)
    requires defaultRetries >= 0 && IsHonestRun(Initial(defaultRetries), steps)
    ensures IsRun(Initial(defaultRetries), steps)
    ensures var s := After(Initial(defaultRetries), steps);
            && AdmissionsOf(s.election.log, id) == (if Known(s.flow, id) then 1 else 0)
            && (Known(s.flow, id) ==>
                  && id in s.book.origin && id != ""
                  && var t := s.book.origin[id];
                  && t.id == id && WasSubmitted(s.intake, t)
                  && t.tenant != "" && t.submittedAt != ZERO_TIME && t.execMillis >= 0
                  && 0 <= t.priority <= 255 && t.maxRetries >= 0 && t.retryCount >= 0)
  {
    var s := Reached(defaultRetries, steps);
    hide PendingInv, ExecInv, LineageInv, NothingLost, CountersInv, OutcomesInv, TalliesInv, RecordsInv;
    hide After, IsHonestRun;
    InvIsSound(s.flow, s.book, s.parents);
  }

  // ---------- counting ----------

  /** Unfinished tasks that have been dispatched. */
  ghost function InHand(f: Flow, b: Book): set<string> {
    set id | id in f.payloads && !IsWaiting(f.pending, b, id)
  }

  ghost function IdsIn(members: set<string>): set<string> {
    set m | m in members && TaskIdIn(m).Some? :: TaskIdIn(m).value
  }

  lemma {:induction false} MembersCountIds(f: Flow, b: Book, members: set<string>)
    requires PendingInv(f.payloads, f.pending, f.pendingAge, b) && members <= f.pending.Keys
    ensures |IdsIn(members)| == |members|
    decreases |members|
  {
    if members == {} {
      assert IdsIn(members) == {};
    } else {
      var m :| m in members;
      var id := TaskIdIn(m).value;
      assert IsMemberOf(f.payloads, f.pendingAge, b, m, id);
      MembersCountIds(f, b, members - {m});
      forall x | x in members - {m} ensures TaskIdIn(x).value != id {
        assert IsMemberOf(f.payloads, f.pendingAge, b, x, TaskIdIn(x).value);
      }
      assert IdsIn(members) == IdsIn(members - {m}) + {id};
    }
  }

  lemma IdsInPendingAreWaiting(f: Flow, b: Book)
    requires forall id :: id in b.origin ==> b.origin[id].id == id
    requires PendingInv(f.payloads, f.pending, f.pendingAge, b)
    ensures forall id :: id in IdsIn(f.pending.Keys) <==> id in f.payloads && IsWaiting(f.pending, b, id)
  {
    forall m | m in f.pending
      ensures TaskIdIn(m).Some? && IsMemberOf(f.payloads, f.pendingAge, b, m, TaskIdIn(m).value)
    {
    }
    forall id | id in f.payloads && IsWaiting(f.pending, b, id) ensures id in IdsIn(f.pending.Keys) {
      var m := MemberFor(b.origin[id]);
      MemberRoundTrip(b.origin[id]);
      assert IsMemberOf(f.payloads, f.pendingAge, b, m, TaskIdIn(m).value);
    }
  }

  lemma OriginIsById(payloads: map<string, Task>, done: map<string, int>, b: Book)
    requires IdsInv(payloads, done, b)
    ensures forall id :: id in b.origin ==> b.origin[id].id == id
  {
  }

  lemma Partitioned(whole: set<string>, a: set<string>, b: set<string>)
    requires forall x :: x in whole <==> x in a || x in b
    requires forall x :: !(x in a && x in b)
    ensures |whole| == |a| + |b|
  {
    assert whole == a + b && a * b == {};
  }

  /** The in-flight counter is exact: it counts the unfinished tasks that have been dispatched. */
  lemma InflightIsExact(f: Flow, b: Book, parents: Lineage)
    requires Inv(f, b, parents)
    ensures f.inflight == |InHand(f, b)|
  {
    hide IdsInv, PendingInv, ExecInv, LineageInv, NothingLost, OutcomesInv, TalliesInv, RecordsInv, IsWaiting, IdsIn;
    OriginIsById(f.payloads, f.done, b);
    MembersCountIds(f, b, f.pending.Keys);
    IdsInPendingAreWaiting(f, b);
    Partitioned(f.payloads.Keys, IdsIn(f.pending.Keys), InHand(f, b));
    assert |f.payloads| == |f.payloads.Keys| && |f.pending| == |f.pending.Keys|;
  }

  /** The counters of every reachable state add up: admitted tasks are unfinished or finished, unfinished
      ones pending or in flight, finished ones completed or dead-lettered; the execution stream holds every
      dispatch and every retry. Each finished task has exactly one record among the results and the dead
      letters together, any other task none; and the per-tenant tallies are those of the results. */
  lemma CountersAddUp(defaultRetries: int, steps: seq<Step>)
    requires defaultRetries >= 0 && IsHonestRun(Initial(defaultRetries), steps)
    ensures IsRun(Initial(defaultRetries), steps)
    ensures var s := After(Initial(defaultRetries), steps); var f := s.flow;
            && f.stats.admitted == |f.payloads| + |f.done|
            && |f.payloads| == |f.pending| + |InHand(f, s.book)|
            && f.inflight == |InHand(f, s.book)|
            && |f.done| == f.stats.completed + f.stats.deadLettered
            && |f.exec| == f.stats.dispatched + f.stats.retried
            && f.stats.completed == |f.results| && f.stats.deadLettered == |f.dead|
            && OutcomesInv(f.results, f.dead, f.done)
            && TalliesInv(f.results, f.tenantCount, f.tenantService, f.stats.deadlineMissed)
  {
    var s := Reached(defaultRetries, steps);
    InflightIsExact(s.flow, s.book, s.parents);
    hide IdsInv, PendingInv, ExecInv, LineageInv, NothingLost, OutcomesInv, TalliesInv, RecordsInv, After, IsHonestRun;
  }

  // ---------- outcomes are final ----------

  /** g may follow f: records are only added, what is finished stays finished since when it was. */
  ghost predicate KeepsOutcomes(f: Flow, g: Flow) {
    && f.results <= g.results && f.dead <= g.dead
    && f.done.Keys <= g.done.Keys && (forall id :: id in f.done ==> g.done[id] == f.done[id])
  }

  lemma {:induction false} DispatchKeepsOutcomes(f: Flow, count: nat, cap: int, now: int, epoch: int)
    ensures KeepsOutcomes(f, DispatchMany(f, count, cap, now, epoch))
    decreases count
  {
    if count > 0 && MayDispatch(f, cap) {
      DispatchKeepsOutcomes(DispatchOne(f, now, epoch), count - 1, cap, now, epoch);
    }
  }

  lemma SameOutcomes(f: Flow, g: Flow)
    requires g.results == f.results && g.dead == f.dead && g.done == f.done
    ensures KeepsOutcomes(f, g)
  {
  }

  lemma CompletionKeepsOutcomes(f: Flow, r: Result, now: int, msg: Option<int>)
    ensures KeepsOutcomes(f, CompleteTask(f, r, now, msg))
  {
  }

  lemma RetryKeepsOutcomes(f: Flow, t: Task, budget: int, reason: string, now: int, msg: Option<int>)
    ensures KeepsOutcomes(f, RetryTask(f, t, budget, reason, now, msg))
  {
    hide NextAttempt, Acked;
    match RetryOutcomeOf(f, t, budget)
    case AlreadyTerminal =>
    case DeadLettered =>
    case Redelivered =>
  }

  lemma OtherStepsLeaveOutcomes(s: Sys, step: Step)
    requires Enabled(s, step) && !step.Reset? && !step.Dispatch? && !step.Complete? && !step.Retry?
    ensures KeepsOutcomes(s.flow, Next(s, step).flow)
  {
    hide KeepsOutcomes, Picked, Upwards;
    SameOutcomes(s.flow, Next(s, step).flow);
  }

  lemma StepKeepsOutcomes(s: Sys, step: Step)
    requires Enabled(s, step) && !step.Reset?
    ensures KeepsOutcomes(s.flow, Next(s, step).flow)
  {
    hide DispatchMany, KeepsOutcomes;
    match step
    case Dispatch(epoch, count, cap, now) => 
      SameOutcomes(s.flow, s.flow);
      DispatchKeepsOutcomes(s.flow, count, cap, now, epoch);
    case Complete(msg, _, result, now) => CompletionKeepsOutcomes(s.flow, result, now, Some(msg));
    case Retry(msg, entry, budget, reason, now) =>
      RetryKeepsOutcomes(s.flow, entry.task, budget, reason, now, Some(msg));
    case _ => OtherStepsLeaveOutcomes(s, step);
  }

  lemma OutcomeStays(s: Sys, steps: seq<Step>, id: string)
    requires JourneyInv(s) && IsHonestRun(s, steps) && id in s.flow.done
    ensures IsRun(s, steps)
    ensures var f := After(s, steps).flow;
            && KeepsOutcomes(s.flow, f) && id in f.done
            && ResultsOf(f.results, id) == ResultsOf(s.flow.results, id)
            && DeadLettersOf(f.dead, id) == DeadLettersOf(s.flow.dead, id)
            && ResultsOf(f.results, id) + DeadLettersOf(f.dead, id) == 1
  {
    hide IntakeInv, IdsInv, PendingInv, ExecInv, MarksInv, LineageInv, NothingLost, CountersInv, TalliesInv;
    hide RecordsInv, HistoryInv;
    RunKeepsJourney(s, steps);
    RunKeepsOutcomes(s, steps);
    RecordsOnlyGrow(s.flow, After(s, steps).flow, id);
  }

  /** An outcome, once recorded, is the only one there will ever be: whatever run led to it, later
      duplicates, retries and late completions leave the record in place and add no other. */
  lemma OutcomeIsFinal(defaultRetries: int, before: seq<Step>, s: Sys, later: seq<Step>, id: string)
    requires defaultRetries >= 0
    requires IsHonestRun(Initial(defaultRetries), before) && IsRun(Initial(defaultRetries), before)
    requires s == After(Initial(defaultRetries), before) && IsHonestRun(s, later) && id in s.flow.done
    ensures IsRun(s, later)
    ensures var f := After(s, later).flow;
            && KeepsOutcomes(s.flow, f) && id in f.done
            && ResultsOf(f.results, id) == ResultsOf(s.flow.results, id)
            && DeadLettersOf(f.dead, id) == DeadLettersOf(s.flow.dead, id)
            && ResultsOf(f.results, id) + DeadLettersOf(f.dead, id) == 1
  {
    hide JourneyInv, KeepsOutcomes, IsHonestRun, IsRun, After;
    var s' := Reached(defaultRetries, before);
    OutcomeStays(s, later, id);
  }

  lemma {:induction false} RunKeepsOutcomes(s: Sys, steps: seq<Step>)
    requires IsHonestRun(s, steps) && IsRun(s, steps)
    ensures KeepsOutcomes(s.flow, After(s, steps).flow)
    decreases |steps|
  {
    hide Next;
    if steps != [] {
      StepKeepsOutcomes(s, steps[0]);
      RunKeepsOutcomes(Next(s, steps[0]), steps[1..]);
    }
  }

  lemma RecordsOnlyGrow(f: Flow, g: Flow, id: string)
    requires KeepsOutcomes(f, g)
    ensures ResultsOf(f.results, id) <= ResultsOf(g.results, id)
    ensures DeadLettersOf(f.dead, id) <= DeadLettersOf(g.dead, id)
  {
    ResultsOnlyGrow(f.results, g.results, id);
    DeadLettersOnlyGrow(f.dead, g.dead, id);
  }

  lemma {:induction false} ResultsOnlyGrow(before: seq<Result>, after: seq<Result>, id: string)
    requires before <= after
    ensures ResultsOf(before, id) <= ResultsOf(after, id)
    decreases |after|
  {
    if |before| == |after| {
      assert before == after;
    } else {
      ResultsOnlyGrow(before, after[..|after| - 1], id);
    }
  }

  lemma {:induction false} DeadLettersOnlyGrow(before: seq<DeadLetter>, after: seq<DeadLetter>, id: string)
    requires before <= after
    ensures DeadLettersOf(before, id) <= DeadLettersOf(after, id)
    decreases |after|
  {
    if |before| == |after| {
      assert before == after;
    } else {
      DeadLettersOnlyGrow(before, after[..|after| - 1], id);
    }
  }

  // ---------- the in-flight cap ----------

  ghost predicate CapIs(steps: seq<Step>, cap: int) {
    forall n :: 0 <= n < |steps| && steps[n].Dispatch? ==> steps[n].cap == cap
  }

  lemma CompletionLowersInflight(f: Flow, r: Result, now: int, msg: Option<int>)
    ensures CompleteTask(f, r, now, msg).inflight <= f.inflight
  {
  }

  lemma RetryLowersInflight(f: Flow, t: Task, budget: int, reason: string, now: int, msg: Option<int>)
    ensures RetryTask(f, t, budget, reason, now, msg).inflight <= f.inflight
  {
    hide NextAttempt, Acked;
    match RetryOutcomeOf(f, t, budget)
    case AlreadyTerminal =>
    case DeadLettered =>
    case Redelivered =>
  }

  lemma OnlyDispatchRaisesInflight(s: Sys, step: Step)
    requires Enabled(s, step) && !step.Dispatch? && !step.Reset?
    ensures Next(s, step).flow.inflight <= s.flow.inflight
  {
    hide CompleteTask, RetryTask, Picked, Upwards;
    match step
    case Complete(msg, _, r, now) => CompletionLowersInflight(s.flow, r, now, Some(msg));
    case Retry(msg, entry, budget, reason, now) =>
      RetryLowersInflight(s.flow, entry.task, budget, reason, now, Some(msg));
    case _ =>
  }

  lemma StepKeepsCap(s: Sys, step: Step, cap: int)
    requires Inv(s.flow, s.book, s.parents) && Honest(s, step) && cap > 0 && s.flow.inflight <= cap
    requires step.Dispatch? ==> step.cap == cap
    ensures Next(s, step).flow.inflight <= cap
  {
    hide Inv, Selects, DispatchMany;
    if step.Dispatch? {
      DispatchRespectsCap(s.flow, s.book, s.parents, step.count, step.cap, step.now, step.epoch);
    } else {
      OnlyDispatchRaisesInflight(s, step);
    }
  }

  /** When every leader is configured with the same cap, no reachable state has more tasks in flight. */
  lemma {:induction false} CapHolds(s: Sys, steps: seq<Step>, cap: int)
    requires JourneyInv(s) && IsHonestRun(s, steps) && CapIs(steps, cap) && cap > 0 && s.flow.inflight <= cap
    ensures IsRun(s, steps) && After(s, steps).flow.inflight <= cap
    ensures |InHand(After(s, steps).flow, After(s, steps).book)| <= cap
    decreases |steps|
  {
    hide IntakeInv, Inv, HistoryInv, ScoresInv, Next, InHand;
    if steps == [] {
      InflightIsExact(s.flow, s.book, s.parents);
    } else {
      StepKeepsJourney(s, steps[0]);
      StepKeepsCap(s, steps[0], cap);
      CapHolds(Next(s, steps[0]), steps[1..], cap);
    }
  }

  // ---------- retries ----------

  /** Entry x goes back to a dispatch of its task as it was admitted, one delivery for every retry it counts; a
      redelivery carries the task's budget, the configured one if it came with none; and if the task was submitted
      with no retries behind it, its chain has at most one delivery more than that budget. */
  ghost predicate FitsBudget(exec: seq<ExecEntry>, b: Book, parents: Lineage, x: int)
    requires 0 <= x < |exec| == |parents|
  {
    var t := exec[x].task;
    && t.id in b.origin
    && var o := b.origin[t.id];
    && var budget := if o.maxRetries > 0 then o.maxRetries else b.defaultRetries;
    && exec[Root(parents, x)].task == o
    && t.retryCount == o.retryCount + Depth(parents, x)
    && (parents[x].Some? ==> t.maxRetries == budget && t.attemptId == t.id + "#" + Signed(t.retryCount))
    && (o.retryCount == 0 ==> Depth(parents, x) <= budget)
  }

  /** A dead letter for a task submitted with no retries behind it records one attempt more than its budget. */
  ghost predicate IsSpent(b: Book, r: DeadLetter) {
    && r.task.id in b.origin
    && var o := b.origin[r.task.id];
    o.retryCount == 0 ==> r.attempts == (if o.maxRetries > 0 then o.maxRetries else b.defaultRetries) + 1
  }

  lemma ChainFitsBudget(f: Flow, b: Book, parents: Lineage, x: int)
    requires Inv(f, b, parents) && 0 <= x < |f.exec| == |parents|
    ensures FitsBudget(f.exec, b, parents, x)
  {
    hide Inv, IsValid, Root, Depth, IsWaiting, NextAttempt;
    DeliveredTask(f, b, parents, x);
    ChainsAreBounded(f, b, parents, x);
    if parents[x].Some? {
      RedeliveryCarriesBudget(f, b, parents, x);
    }
  }

  lemma RedeliveryCarriesBudget(f: Flow, b: Book, parents: Lineage, x: int)
    requires Inv(f, b, parents) && 0 <= x < |f.exec| == |parents| && parents[x].Some?
    ensures var t := f.exec[x].task;
            && t.id in b.origin && t.maxRetries == b.BudgetOf(b.origin[t.id])
            && t.attemptId == t.id + "#" + Signed(t.retryCount)
  {
    hide IdsInv, PendingInv, NothingLost, CountersInv, OutcomesInv, TalliesInv, RecordsInv;
    assert IsLinked(f.exec, parents, b, x);
    assert IsAttempt(b, f.exec[parents[x].value].task);
  }

  lemma DeadLetterIsSpent(f: Flow, b: Book, parents: Lineage, n: int)
    requires Inv(f, b, parents) && 0 <= n < |f.dead|
    ensures IsSpent(b, f.dead[n])
  {
    hide PendingInv, ExecInv, LineageInv, NothingLost, CountersInv, OutcomesInv, TalliesInv;
    assert IsExhausted(b, f.dead[n]);
  }

  lemma LineageIsAsLong(f: Flow, b: Book, parents: Lineage)
    requires Inv(f, b, parents)
    ensures |parents| == |f.exec|
  {
    hide IdsInv, PendingInv, ExecInv, NothingLost, CountersInv, OutcomesInv, TalliesInv, RecordsInv;
  }

  /** Redelivery stays within budget: in every run every execution entry and every dead letter fits the
      budget of its task, under the one default budget the run is configured with. */
  lemma RetriesStayInBudget(defaultRetries: int, steps: seq<Step>)
    requires defaultRetries >= 0 && IsHonestRun(Initial(defaultRetries), steps)
    ensures IsRun(Initial(defaultRetries), steps)
    ensures var s := After(Initial(defaultRetries), steps);
            && s.book.defaultRetries == defaultRetries && |s.parents| == |s.flow.exec|
            && (forall x :: 0 <= x < |s.flow.exec| ==> FitsBudget(s.flow.exec, s.book, s.parents, x))
            && (forall n :: 0 <= n < |s.flow.dead| ==> IsSpent(s.book, s.flow.dead[n]))
  {
    hide Inv, IntakeInv, HistoryInv, FitsBudget, IsSpent, After, IsHonestRun;
    var s := Reached(defaultRetries, steps);
    DefaultIsKept(Initial(defaultRetries), steps);
    LineageIsAsLong(s.flow, s.book, s.parents);
    forall x | 0 <= x < |s.flow.exec| ensures FitsBudget(s.flow.exec, s.book, s.parents, x) {
      ChainFitsBudget(s.flow, s.book, s.parents, x);
    }
    forall n | 0 <= n < |s.flow.dead| ensures IsSpent(s.book, s.flow.dead[n]) {
      DeadLetterIsSpent(s.flow, s.book, s.parents, n);
    }
  }

  lemma {:induction false} DefaultIsKept(s: Sys, steps: seq<Step>)
    requires IsHonestRun(s, steps) && IsRun(s, steps)
    ensures After(s, steps).book.defaultRetries == s.book.defaultRetries
    decreases |steps|
  {
    if steps != [] {
      DefaultIsKept(Next(s, steps[0]), steps[1..]);
    }
  }

  // ---------- the saved policy state ----------

  /** Write n is the last snapshot in the log. */
  ghost predicate IsLastSnapshot(log: seq<Write>, n: int) {
    0 <= n < |log| && log[n].StateFlush? && forall k :: n < k < |log| ==> !log[k].StateFlush?
  }

  lemma {:induction false} LastSnapshotIsInLog(log: seq<Write>)
    ensures LastSnapshot(log) == map[] || exists n :: IsLastSnapshot(log, n) && log[n].fields == LastSnapshot(log)
  {
    if log != [] {
      var last := |log| - 1;
      if log[last].StateFlush? {
        assert IsLastSnapshot(log, last);
      } else {
        LastSnapshotIsInLog(log[..last]);
        if LastSnapshot(log) != map[] {
          var n :| IsLastSnapshot(log[..last], n) && log[..last][n].fields == LastSnapshot(log[..last]);
          assert IsLastSnapshot(log, n);
        }
      }
    }
  }

  /** The saved policy state is never a mixture: it is empty or the whole snapshot of the last flush let
      through, one term's, and the terms of successive snapshots never go back. */
  lemma SnapshotIsWhole(defaultRetries: int, steps: seq<Step>)
    requires defaultRetries >= 0 && IsHonestRun(Initial(defaultRetries), steps)
    ensures IsRun(Initial(defaultRetries), steps)
    ensures var s := After(Initial(defaultRetries), steps); var log := s.election.log;
            && (s.schedState == map[] || exists n :: IsLastSnapshot(log, n) && log[n].fields == s.schedState)
            && (forall m, n :: 0 <= m < n < |log| && log[m].StateFlush? && log[n].StateFlush? ==>
                  log[m].epoch <= log[n].epoch)
  {
    hide IntakeInv, Inv, StampsInv, IssuedOnce, After, IsHonestRun, IsLastSnapshot;
    var s := Reached(defaultRetries, steps);
    SingleWriter(defaultRetries, steps);
    LastSnapshotIsInLog(s.election.log);
  }
}
