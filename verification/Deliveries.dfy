/** Which deliveries are outstanding, and where records come from, over whole runs (internal/broker/scripts.go:187-300,
    internal/broker/broker.go:437-519, internal/recovery/recovery.go:70-154).

    The pending entries list of the worker group is exactly what has been delivered and not answered for: an answer,
    first or duplicate, completion or retry, takes its delivery off the list for good, so recovery can claim no
    delivery that anybody has answered for, and can claim all others. */
module Deliveries {
  import opened Text
  import opened Ordering
  import opened Wfq
  import opened Store
  import opened Handoff
  import opened Protocol
  import opened Journey

  // ---------- the pending entries list ----------

  /** The deliveries answered for by these steps. */
  function AnsweredBy(steps: seq<Step>): set<int> {
    set k | 0 <= k < |steps| && (steps[k].Complete? || steps[k].Retry?) :: steps[k].msg
  }

  function AnswerOf(step: Step): set<int> {
    if step.Complete? || step.Retry? then {step.msg} else {}
  }

  lemma AnsweredFirst(steps: seq<Step>)
    requires steps != []
    ensures AnsweredBy(steps) == AnswerOf(steps[0]) + AnsweredBy(steps[1..])
  {
    forall x | x in AnsweredBy(steps) ensures x in AnswerOf(steps[0]) + AnsweredBy(steps[1..]) {
      var k :| 0 <= k < |steps| && (steps[k].Complete? || steps[k].Retry?) && steps[k].msg == x;
      assert k > 0 ==> steps[1..][k - 1] == steps[k];
    }
    forall x | x in AnswerOf(steps[0]) + AnsweredBy(steps[1..]) ensures x in AnsweredBy(steps) {
      if x !in AnswerOf(steps[0]) {
        var k :| 0 <= k < |steps| - 1 && (steps[1..][k].Complete? || steps[1..][k].Retry?) && steps[1..][k].msg == x;
        assert steps[k + 1] == steps[1..][k];
      }
    }
  }

  /** Whatever comes of it, a retry acknowledges its delivery and nothing else. */
  lemma RetryAcknowledges(f: Flow, t: Task, budget: int, reason: string, now: int, x: int)
    ensures RetryTask(f, t, budget, reason, now, Some(x)).execPel == f.execPel - {x}
    ensures RetryTask(f, t, budget, reason, now, Some(x)).execRead == f.execRead
  {
    hide NextAttempt;
    match RetryOutcomeOf(f, t, budget)
    case AlreadyTerminal =>
    case DeadLettered =>
    case Redelivered =>
  }

  lemma {:induction false} DispatchDeliversNothing(f: Flow, count: nat, cap: int, now: int, epoch: int)
    ensures var g := DispatchMany(f, count, cap, now, epoch); g.execPel == f.execPel && g.execRead == f.execRead
    decreases count
  {
    if count > 0 && MayDispatch(f, cap) {
      DispatchDeliversNothing(DispatchOne(f, now, epoch), count - 1, cap, now, epoch);
    }
  }

  /** Reading delivers the next entries nobody has been given, as many as asked for and there are. */
  lemma ReadingDelivers(f: Flow, count: nat)
    requires 0 <= f.execRead <= |f.exec|
    ensures var g := Handoff.ReadExec(f, count);
            && g.execRead == (if f.execRead + count < |f.exec| then f.execRead + count else |f.exec|)
            && (forall x :: x in g.execPel <==> x in f.execPel || f.execRead <= x < g.execRead)
  {
  }

  /** One step delivers what it reads and takes off what it answers for. */
  lemma StepChangesPending(s: Sys, step: Step)
    requires Honest(s, step)
    ensures var (f, g) := (s.flow, Next(s, step).flow);
            && f.execRead <= g.execRead
            && (forall x :: x in g.execPel <==>
                  (x in f.execPel || f.execRead <= x < g.execRead) && x !in AnswerOf(step))
  {
    hide DispatchMany, CompleteTask, RetryTask, Picked, Upwards, AdmitTask, AdmittedNext;
    match step
    case AdmitNext(loop, score, replyLost) =>
      var b := s.intake.batches[loop];
      AdmitNextFlow(s, loop, b, score, replyLost);
      AdmissionDeliversNothing(s.flow, b.msgs[b.next].1, score);
    case Dispatch(epoch, count, cap, now) => DispatchDeliversNothing(s.flow, count, cap, now, epoch);
    case Complete(msg, _, r, now) => CompletionAcknowledges(s.flow, r, now, msg);
    case Retry(msg, entry, budget, reason, now) => RetryAcknowledges(s.flow, entry.task, budget, reason, now, msg);
    case _ =>
  }

  lemma AdmissionDeliversNothing(f: Flow, t: Task, score: real)
    ensures var g := AdmitTask(f, t, Key(score, MemberFor(t))); g.execPel == f.execPel && g.execRead == f.execRead
  {
  }

  /** First or duplicate, a completion acknowledges its delivery and nothing else. */
  lemma CompletionAcknowledges(f: Flow, r: Result, now: int, x: int)
    ensures CompleteTask(f, r, now, Some(x)).execPel == f.execPel - {x}
    ensures CompleteTask(f, r, now, Some(x)).execRead == f.execRead
  {
  }

  lemma AnswersWereDelivered(s: Sys, step: Step)
    requires Honest(s, step)
    ensures forall x :: x in AnswerOf(step) ==> x < s.flow.execRead
  {
  }

  lemma {:induction false} RunChangesPending(s: Sys, steps: seq<Step>)
    requires IsHonestRun(s, steps) && IsRun(s, steps)
    ensures var (f, g) := (s.flow, After(s, steps).flow);
            && f.execRead <= g.execRead
            && (forall x :: x in g.execPel <==>
                  (x in f.execPel || f.execRead <= x < g.execRead) && x !in AnsweredBy(steps))
    decreases |steps|
  {
    hide Next, Honest, AnswerOf, AnsweredBy;
    if steps == [] {
      NothingAnswered();
    } else {
      StepChangesPending(s, steps[0]);
      AnswersWereDelivered(s, steps[0]);
      RunChangesPending(Next(s, steps[0]), steps[1..]);
      AnsweredFirst(steps);
    }
  }

  lemma NothingAnswered()
    ensures AnsweredBy([]) == {}
  {
  }

  /** In every run a delivery is pending exactly when nobody has answered for it. */
  lemma PendingIsUnanswered(defaultRetries: int, steps: seq<Step>)
    requires defaultRetries >= 0 && IsHonestRun(Initial(defaultRetries), steps)
    ensures IsRun(Initial(defaultRetries), steps)
    ensures var f := After(Initial(defaultRetries), steps).flow;
            forall x :: x in f.execPel <==> 0 <= x < f.execRead && x !in AnsweredBy(steps)
  {
    hide After, IsHonestRun, AnsweredBy;
    HonestRunIsRun(Initial(defaultRetries), steps);
    RunChangesPending(Initial(defaultRetries), steps);
  }

  /** So a delivery once answered for is never claimed by recovery again, whatever follows. */
  lemma AnsweredForGood(s: Sys, step: Step, later: seq<Step>)
    requires Honest(s, step) && (step.Complete? || step.Retry?)
    requires IsHonestRun(Next(s, step), later)
    ensures IsRun(Next(s, step), later) && step.msg !in After(Next(s, step), later).flow.execPel
  {
    hide Next, After, IsHonestRun, IsRun, AnsweredBy;
    HonestRunIsRun(Next(s, step), later);
    StepChangesPending(s, step);
    AnswersWereDelivered(s, step);
    RunChangesPending(Next(s, step), later);
  }

  // ---------- the counters match the run ----------

  function CompletionsIn(steps: seq<Step>): nat {
    if steps == [] then 0 else (if steps[0].Complete? then 1 else 0) + CompletionsIn(steps[1..])
  }

  /** How many entries carry the epoch of the leader that dispatched them. */
  function StampedIn(exec: seq<ExecEntry>): nat {
    if exec == [] then 0 else StampedIn(exec[..|exec| - 1]) + if exec[|exec| - 1].epoch.Some? then 1 else 0
  }

  lemma StampedOfMore(exec: seq<ExecEntry>, e: ExecEntry)
    ensures StampedIn(exec + [e]) == StampedIn(exec) + if e.epoch.Some? then 1 else 0
  {
    assert (exec + [e])[..|exec|] == exec;
  }

  /** Between f and g so many completions were counted, and as many dispatches as stamped entries appended. */
  ghost predicate Counts(f: Flow, g: Flow, completions: int) {
    && g.stats.completed + g.stats.duplicateCompletions ==
       f.stats.completed + f.stats.duplicateCompletions + completions
    && g.stats.dispatched - StampedIn(g.exec) == f.stats.dispatched - StampedIn(f.exec)
  }

  lemma {:induction false} DispatchCounts(f: Flow, count: nat, cap: int, now: int, epoch: int)
    ensures Counts(f, DispatchMany(f, count, cap, now, epoch), 0)
    decreases count
  {
    hide StampedIn;
    if count > 0 && MayDispatch(f, cap) {
      if ReportOne(f) != [] {
        StampedOfMore(f.exec, ExecEntry(ReportOne(f)[0].task, now, Some(epoch)));
      }
      DispatchCounts(DispatchOne(f, now, epoch), count - 1, cap, now, epoch);
    }
  }

  lemma RetryCounts(f: Flow, t: Task, budget: int, reason: string, now: int, msg: Option<int>)
    ensures Counts(f, RetryTask(f, t, budget, reason, now, msg), 0)
  {
    hide NextAttempt, Acked, StampedIn;
    StampedOfMore(f.exec, ExecEntry(NextAttempt(t, budget), now, None));
    match RetryOutcomeOf(f, t, budget)
    case AlreadyTerminal =>
    case DeadLettered =>
    case Redelivered =>
  }

  lemma CompletionCounts(f: Flow, r: Result, now: int, msg: Option<int>)
    ensures Counts(f, CompleteTask(f, r, now, msg), 1)
  {
  }

  lemma AdmissionCounts(f: Flow, t: Task, score: real)
    ensures Counts(f, AdmitTask(f, t, Key(score, MemberFor(t))), 0) && Counts(f, f, 0)
  {
  }

  lemma StepCounts(s: Sys, step: Step)
    requires Honest(s, step)
    ensures Counts(s.flow, Next(s, step).flow, if step.Complete? then 1 else 0)
  {
    hide DispatchMany, CompleteTask, RetryTask, Picked, Upwards, AdmitTask, AdmittedNext, StampedIn;
    match step
    case AdmitNext(loop, score, replyLost) =>
      var b := s.intake.batches[loop];
      AdmitNextFlow(s, loop, b, score, replyLost);
      AdmissionCounts(s.flow, b.msgs[b.next].1, score);
    case Dispatch(epoch, count, cap, now) => DispatchCounts(s.flow, count, cap, now, epoch);
    case Complete(msg, _, r, now) => CompletionCounts(s.flow, r, now, Some(msg));
    case Retry(msg, entry, budget, reason, now) => RetryCounts(s.flow, entry.task, budget, reason, now, Some(msg));
    case _ =>
  }

  lemma {:induction false} RunCounts(s: Sys, steps: seq<Step>)
    requires IsHonestRun(s, steps) && IsRun(s, steps)
    ensures Counts(s.flow, After(s, steps).flow, CompletionsIn(steps))
    decreases |steps|
  {
    hide Next, Honest, StampedIn;
    if steps != [] {
      StepCounts(s, steps[0]);
      RunCounts(Next(s, steps[0]), steps[1..]);
    }
  }

  /** The counters match the run. Every completion that reaches the store is counted once: as the first of its task,
      with a result recorded, or as a duplicate. Dispatches counted are the entries of the execution stream stamped
      with an epoch, retries counted all the others. */
  lemma CountersMatchRun(defaultRetries: int, steps: seq<Step>)
    requires defaultRetries >= 0 && IsHonestRun(Initial(defaultRetries), steps)
    ensures IsRun(Initial(defaultRetries), steps)
    ensures var f := After(Initial(defaultRetries), steps).flow;
            && |f.results| + f.stats.duplicateCompletions == CompletionsIn(steps)
            && f.stats.dispatched == StampedIn(f.exec)
            && f.stats.retried == |f.exec| - StampedIn(f.exec)
  {
    hide After, IsHonestRun, IsRun;
    CountersAddUp(defaultRetries, steps);
    RunCounts(Initial(defaultRetries), steps);
  }

  // ---------- where records come from ----------

  /** The result is a report on some delivery, by its attempt id and all. */
  ghost predicate ReportsSome(exec: seq<ExecEntry>, r: Result) {
    exists x :: 0 <= x < |exec| && ReportsOn(r, exec[x])
  }

  /** The dead letter holds the very attempt that was the last, and counts it. */
  ghost predicate BuriesSome(exec: seq<ExecEntry>, d: DeadLetter) {
    exists x :: 0 <= x < |exec| && exec[x].task == d.task && d.lastAttempt == exec[x].task.attemptId &&
                d.attempts == exec[x].task.retryCount + 1
  }

  ghost predicate TracesInv(exec: seq<ExecEntry>, results: seq<Result>, dead: seq<DeadLetter>) {
    && (forall n :: 0 <= n < |results| ==> ReportsSome(exec, results[n]))
    && (forall n :: 0 <= n < |dead| ==> BuriesSome(exec, dead[n]))
  }

  lemma LongerKeepsTraces(exec: seq<ExecEntry>, results: seq<Result>, dead: seq<DeadLetter>, exec': seq<ExecEntry>)
    requires TracesInv(exec, results, dead) && exec <= exec'
    ensures TracesInv(exec', results, dead)
  {
    forall n | 0 <= n < |results| ensures ReportsSome(exec', results[n]) {
      var x :| 0 <= x < |exec| && ReportsOn(results[n], exec[x]);
      assert exec'[x] == exec[x];
    }
    forall n | 0 <= n < |dead| ensures BuriesSome(exec', dead[n]) {
      var x :| 0 <= x < |exec| && exec[x].task == dead[n].task && dead[n].lastAttempt == exec[x].task.attemptId &&
               dead[n].attempts == exec[x].task.retryCount + 1;
      assert exec'[x] == exec[x];
    }
  }

  lemma CompletionKeepsTraces(f: Flow, x: int, r: Result, now: int)
    requires TracesInv(f.exec, f.results, f.dead) && WasDelivered(f, x) && ReportsOn(r, f.exec[x])
    ensures var g := CompleteTask(f, r, now, Some(x)); TracesInv(g.exec, g.results, g.dead)
  {
    assert ReportsSome(f.exec, r);
    hide ReportsSome, BuriesSome, ReportsOn;
  }

  lemma RetryKeepsTraces(f: Flow, x: int, t: Task, budget: int, reason: string, now: int)
    requires TracesInv(f.exec, f.results, f.dead) && WasDelivered(f, x) && f.exec[x].task == t
    ensures var g := RetryTask(f, t, budget, reason, now, Some(x)); TracesInv(g.exec, g.results, g.dead)
  {
    hide NextAttempt, Acked, ReportsSome, BuriesSome;
    match RetryOutcomeOf(f, t, budget)
    case AlreadyTerminal =>
    case DeadLettered =>
      BuriesThis(f.exec, x, t, reason, now);
    case Redelivered =>
      LongerKeepsTraces(f.exec, f.results, f.dead, f.exec + [ExecEntry(NextAttempt(t, budget), now, None)]);
  }

  lemma BuriesThis(exec: seq<ExecEntry>, x: int, t: Task, reason: string, now: int)
    requires 0 <= x < |exec| && exec[x].task == t
    ensures BuriesSome(exec, DeadLetter(t, reason, t.retryCount + 1, t.attemptId, now))
  {
  }

  lemma {:induction false} DispatchRecordsNothing(f: Flow, count: nat, cap: int, now: int, epoch: int)
    ensures var g := DispatchMany(f, count, cap, now, epoch);
            g.results == f.results && g.dead == f.dead && f.exec <= g.exec
    decreases count
  {
    if count > 0 && MayDispatch(f, cap) {
      DispatchRecordsNothing(DispatchOne(f, now, epoch), count - 1, cap, now, epoch);
    }
  }

  lemma AdmissionRecordsNothing(f: Flow, t: Task, score: real)
    ensures var g := AdmitTask(f, t, Key(score, MemberFor(t)));
            g.results == f.results && g.dead == f.dead && g.exec == f.exec
  {
  }

  lemma StepKeepsTraces(s: Sys, step: Step)
    requires TracesInv(s.flow.exec, s.flow.results, s.flow.dead) && Honest(s, step)
    ensures var g := Next(s, step).flow; TracesInv(g.exec, g.results, g.dead)
  {
    hide TracesInv, DispatchMany, CompleteTask, RetryTask, Picked, Upwards, ReportsOn, AdmitTask, AdmittedNext;
    match step
    case AdmitNext(loop, score, replyLost) =>
      var b := s.intake.batches[loop];
      AdmitNextFlow(s, loop, b, score, replyLost);
      AdmissionRecordsNothing(s.flow, b.msgs[b.next].1, score);
    case Dispatch(epoch, count, cap, now) =>
      DispatchRecordsNothing(s.flow, count, cap, now, epoch);
      LongerKeepsTraces(s.flow.exec, s.flow.results, s.flow.dead, DispatchMany(s.flow, count, cap, now, epoch).exec);
    case Complete(msg, entry, r, now) => CompletionKeepsTraces(s.flow, msg, r, now);
    case Retry(msg, entry, budget, reason, now) => RetryKeepsTraces(s.flow, msg, entry.task, budget, reason, now);
    case _ =>
  }

  lemma {:induction false} RunKeepsTraces(s: Sys, steps: seq<Step>)
    requires TracesInv(s.flow.exec, s.flow.results, s.flow.dead) && IsHonestRun(s, steps) && IsRun(s, steps)
    ensures var g := After(s, steps).flow; TracesInv(g.exec, g.results, g.dead)
    decreases |steps|
  {
    hide Next, Honest, TracesInv;
    if steps != [] {
      StepKeepsTraces(s, steps[0]);
      RunKeepsTraces(Next(s, steps[0]), steps[1..]);
    }
  }

  /** The result names the task, the attempt and the time of dispatch of some entry. */
  ghost predicate NamesSome(exec: seq<ExecEntry>, r: Result) {
    exists x :: 0 <= x < |exec| && r.taskId == exec[x].task.id && r.attemptId == exec[x].task.attemptId &&
                r.retryCount == exec[x].task.retryCount && r.dispatchedAt == exec[x].dispatchedAt
  }

  lemma ReportsNameSome(exec: seq<ExecEntry>, r: Result)
    requires ReportsSome(exec, r)
    ensures NamesSome(exec, r)
  {
  }

  /** Every record in the streams is about an attempt that was really delivered: a result names its task, its attempt
      and its dispatch; a dead letter holds the attempt, its id and how many there had been. */
  lemma RecordsAreOfDeliveries(defaultRetries: int, steps: seq<Step>)
    requires defaultRetries >= 0 && IsHonestRun(Initial(defaultRetries), steps)
    ensures IsRun(Initial(defaultRetries), steps)
    ensures var f := After(Initial(defaultRetries), steps).flow;
            && (forall n :: 0 <= n < |f.results| ==> NamesSome(f.exec, f.results[n]))
            && (forall n :: 0 <= n < |f.dead| ==> BuriesSome(f.exec, f.dead[n]))
  {
    hide After, IsHonestRun, BuriesSome, NamesSome, ReportsSome;
    HonestRunIsRun(Initial(defaultRetries), steps);
    RunKeepsTraces(Initial(defaultRetries), steps);
    var f := After(Initial(defaultRetries), steps).flow;
    forall n | 0 <= n < |f.results| ensures NamesSome(f.exec, f.results[n]) {
      ReportsNameSome(f.exec, f.results[n]);
    }
  }

  // ---------- payloads ----------

  /** Entry x is the newest of the task. */
  ghost predicate IsNewest(exec: seq<ExecEntry>, x: int, id: string) {
    0 <= x < |exec| && exec[x].task.id == id && forall y :: x < y < |exec| ==> exec[y].task.id != id
  }

  /** The payload is the attempt in the newest entry of its task. */
  ghost predicate IsCurrent(payloads: map<string, Task>, exec: seq<ExecEntry>, id: string) {
    id in payloads && exists x :: 0 <= x < |exec| && IsNewest(exec, x, id) && exec[x].task == payloads[id]
  }

  /** An unfinished task is waiting, or its payload is its newest attempt. */
  ghost predicate PayloadsInv(payloads: map<string, Task>, pending: map<string, real>, exec: seq<ExecEntry>, b: Book) {
    forall id :: id in payloads && !IsWaiting(pending, b, id) ==> IsCurrent(payloads, exec, id)
  }

  lemma AppendedIsNewest(exec: seq<ExecEntry>, e: ExecEntry)
    ensures IsNewest(exec + [e], |exec|, e.task.id)
    ensures forall x, id :: IsNewest(exec, x, id) && id != e.task.id ==> IsNewest(exec + [e], x, id)
  {
  }

  lemma AppendKeepsPayloads(payloads: map<string, Task>, pending: map<string, real>, exec: seq<ExecEntry>, b: Book,
                            pending': map<string, real>, e: ExecEntry)
    requires PayloadsInv(payloads, pending, exec, b)
    requires forall id :: IsWaiting(pending, b, id) && id != e.task.id ==> IsWaiting(pending', b, id)
    ensures PayloadsInv(payloads[e.task.id := e.task], pending', exec + [e], b)
  {
    hide IsWaiting, IsNewest;
    AppendedIsNewest(exec, e);
    var payloads', exec' := payloads[e.task.id := e.task], exec + [e];
    forall id | id in payloads' && !IsWaiting(pending', b, id) ensures IsCurrent(payloads', exec', id) {
      if id == e.task.id {
        assert IsNewest(exec', |exec|, id) && exec'[|exec|] == e;
      } else {
        assert IsCurrent(payloads, exec, id);
        var x :| 0 <= x < |exec| && IsNewest(exec, x, id) && exec[x].task == payloads[id];
        assert IsNewest(exec', x, id) && exec'[x] == exec[x];
      }
    }
  }

  /** Handing over the task as its payload has it, from the pending set, leaves it in its newest entry. */
  lemma HandOverKeepsPayloads(f: Flow, b: Book, e: ExecEntry)
    requires IsSound(f, b) && PayloadsInv(f.payloads, f.pending, f.exec, b)
    requires e.task.id in b.origin && e.task.id in f.payloads && f.payloads[e.task.id] == e.task
    ensures PayloadsInv(f.payloads, f.pending - {MemberFor(b.origin[e.task.id])}, f.exec + [e], b)
  {
    hide ExecInv, Known, PayloadsInv;
    var pending' := f.pending - {MemberFor(b.origin[e.task.id])};
    forall id | IsWaiting(f.pending, b, id) && id != e.task.id ensures IsWaiting(pending', b, id) {
      MembersDiffer(b.origin[id], b.origin[e.task.id]);
    }
    AppendKeepsPayloads(f.payloads, f.pending, f.exec, b, pending', e);
    assert f.payloads[e.task.id := e.task] == f.payloads;
  }

  lemma {:induction false} DispatchKeepsPayloads(f: Flow, b: Book, parents: Lineage, count: nat, cap: int, now: int,
                                                 epoch: int)
    requires Inv(f, b, parents) && PayloadsInv(f.payloads, f.pending, f.exec, b)
    ensures var g := DispatchMany(f, count, cap, now, epoch); PayloadsInv(g.payloads, g.pending, g.exec, b)
    decreases count
  {
    hide Inv, IsSound, PayloadsInv;
    if count > 0 && MayDispatch(f, cap) {
      PoppedMemberHasPayload(f, b, parents);
      InvIsSound(f, b, parents);
      HandOverKeepsPayloads(f, b, ExecEntry(ReportOne(f)[0].task, now, Some(epoch)));
      DispatchOneKeepsInv(f, b, parents, now, epoch);
      DispatchKeepsPayloads(DispatchOne(f, now, epoch), b, parents + [None], count - 1, cap, now, epoch);
    }
  }

  lemma FewerKeepPayloads(payloads: map<string, Task>, pending: map<string, real>, exec: seq<ExecEntry>, b: Book,
                          finished: string)
    requires PayloadsInv(payloads, pending, exec, b)
    ensures PayloadsInv(payloads - {finished}, pending, exec, b)
  {
    hide IsWaiting, IsNewest;
    forall id | id in payloads - {finished} && !IsWaiting(pending, b, id)
      ensures IsCurrent(payloads - {finished}, exec, id)
    {
      assert IsCurrent(payloads, exec, id);
    }
  }

  lemma CompletionKeepsPayloads(f: Flow, b: Book, r: Result, now: int, msg: Option<int>)
    requires PayloadsInv(f.payloads, f.pending, f.exec, b)
    ensures var g := CompleteTask(f, r, now, msg); PayloadsInv(g.payloads, g.pending, g.exec, b)
  {
    FewerKeepPayloads(f.payloads, f.pending, f.exec, b, r.taskId);
    hide PayloadsInv;
  }

  lemma RetryKeepsPayloads(f: Flow, b: Book, t: Task, budget: int, reason: string, now: int, msg: Option<int>)
    requires PayloadsInv(f.payloads, f.pending, f.exec, b)
    ensures var g := RetryTask(f, t, budget, reason, now, msg); PayloadsInv(g.payloads, g.pending, g.exec, b)
  {
    hide PayloadsInv, Acked;
    FewerKeepPayloads(f.payloads, f.pending, f.exec, b, t.id);
    AppendKeepsPayloads(f.payloads, f.pending, f.exec, b, f.pending, ExecEntry(NextAttempt(t, budget), now, None));
    NextHasSameId(t, budget);
    hide NextAttempt;
    match RetryOutcomeOf(f, t, budget)
    case AlreadyTerminal =>
    case DeadLettered =>
    case Redelivered =>
  }

  lemma NextHasSameId(t: Task, budget: int)
    ensures NextAttempt(t, budget).id == t.id
  {
  }

  lemma AdmissionKeepsPayloads(f: Flow, b: Book, t: Task, score: real)
    requires IsSound(f, b) && PayloadsInv(f.payloads, f.pending, f.exec, b)
    ensures var g := AdmitTask(f, t, Key(score, MemberFor(t)));
            PayloadsInv(g.payloads, g.pending, g.exec, AdmitBook(f, b, t))
  {
    hide ExecInv, IsNewest, PayloadsInv;
    if !Known(f, t.id) {
      EnteringKeepsPayloads(f.payloads, f.pending, f.exec, b, t, score);
    }
  }

  lemma EnteringKeepsPayloads(payloads: map<string, Task>, pending: map<string, real>, exec: seq<ExecEntry>, b: Book,
                              t: Task, score: real)
    requires PayloadsInv(payloads, pending, exec, b) && t.id !in b.origin
    ensures PayloadsInv(payloads[t.id := t], pending[MemberFor(t) := score], exec, Entered(b, t))
  {
    hide IsNewest;
    var payloads', pending' := payloads[t.id := t], pending[MemberFor(t) := score];
    forall id | id in payloads' && !IsWaiting(pending', Entered(b, t), id) ensures IsCurrent(payloads', exec, id) {
      assert id != t.id && !IsWaiting(pending, b, id);
      assert IsCurrent(payloads, exec, id);
    }
  }

  lemma StepKeepsPayloads(s: Sys, step: Step)
    requires Inv(s.flow, s.book, s.parents) && Honest(s, step)
    requires PayloadsInv(s.flow.payloads, s.flow.pending, s.flow.exec, s.book)
    ensures var s' := Next(s, step); PayloadsInv(s'.flow.payloads, s'.flow.pending, s'.flow.exec, s'.book)
  {
    hide Inv, IsSound, PayloadsInv, DispatchMany, CompleteTask, RetryTask, AdmitTask, AdmitBook, Picked, Upwards, IsValid;
    match step
    case AdmitNext(loop, score, _) =>
      var b := s.intake.batches[loop];
      InvIsSound(s.flow, s.book, s.parents);
      AdmissionKeepsPayloads(s.flow, s.book, b.msgs[b.next].1, score);
    case Dispatch(epoch, count, cap, now) => DispatchKeepsPayloads(s.flow, s.book, s.parents, count, cap, now, epoch);
    case Complete(msg, _, r, now) => CompletionKeepsPayloads(s.flow, s.book, r, now, Some(msg));
    case Retry(msg, entry, budget, reason, now) =>
      RetryKeepsPayloads(s.flow, s.book, entry.task, budget, reason, now, Some(msg));
    case _ =>
  }

  lemma {:induction false} RunKeepsPayloads(s: Sys, steps: seq<Step>)
    requires JourneyInv(s) && IsHonestRun(s, steps) && IsRun(s, steps)
    requires PayloadsInv(s.flow.payloads, s.flow.pending, s.flow.exec, s.book)
    ensures var s' := After(s, steps); PayloadsInv(s'.flow.payloads, s'.flow.pending, s'.flow.exec, s'.book)
    decreases |steps|
  {
    hide Next, Inv, IntakeInv, HistoryInv, ScoresInv, PayloadsInv;
    if steps != [] {
      StepKeepsPayloads(s, steps[0]);
      StepKeepsJourney(s, steps[0]);
      RunKeepsPayloads(Next(s, steps[0]), steps[1..]);
    }
  }

  /** In every run the payload kept for an unfinished task that has been dispatched is its newest attempt, the one in
      the last entry of the execution stream about it. */
  lemma PayloadIsNewestAttempt(defaultRetries: int, steps: seq<Step>, id: string)
    requires defaultRetries >= 0 && IsHonestRun(Initial(defaultRetries), steps)
    ensures IsRun(Initial(defaultRetries), steps)
    ensures var s := After(Initial(defaultRetries), steps);
            id in s.flow.payloads && !IsWaiting(s.flow.pending, s.book, id) ==>
              exists x :: IsNewest(s.flow.exec, x, id) && s.flow.exec[x].task == s.flow.payloads[id]
  {
    hide JourneyInv, After, IsHonestRun, IsRun, IsNewest;
    InitialJourney(defaultRetries);
    HonestRunIsRun(Initial(defaultRetries), steps);
    RunKeepsPayloads(Initial(defaultRetries), steps);
  }
}
