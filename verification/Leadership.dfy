/** Single-writer leadership over whole runs: the lease, the epoch counter and the fence
    (internal/lease/lease.go:192-245, internal/broker/scripts.go:12-42, internal/broker/keys.go:88-112).

    Every run of the protocol is covered, resets and forged worker messages included. */
module Leadership {
  import opened Text
  import opened Ordering
  import opened Wfq
  import opened Store
  import opened Handoff
  import opened Protocol

  function ValueOf(g: Grant): string
    requires g.epoch >= 0
  {
    HolderValue(g.owner, g.epoch)
  }

  /** The counter has issued the epochs 1, 2, 3, … in order, one per grant; the key holds the last grant or
      nothing; and no epoch that was not issued has written. */
  ghost predicate GrantsInv(e: Election) {
    && e.leaderEpoch == |e.grants|
    && 0 <= e.fence <= e.leaderEpoch
    && (forall n :: 0 <= n < |e.grants| ==> e.grants[n].epoch == n + 1)
    && (e.holder.Some? ==> e.grants != [] && e.holder.value == ValueOf(e.grants[|e.grants| - 1]))
  }

  /** Epochs of guarded writes never go backwards, and the fence is the last of them. */
  ghost predicate LogInv(log: seq<Write>, fence: int) {
    && (forall n :: 0 <= n < |log| ==> 1 <= log[n].epoch <= fence)
    && (forall m, n :: 0 <= m < n < |log| ==> log[m].epoch <= log[n].epoch)
    && fence == if log == [] then 0 else log[|log| - 1].epoch
  }

  /** Epochs stamped on execution entries never go backwards; retries carry none. */
  ghost predicate StampsInv(exec: seq<ExecEntry>, fence: int) {
    && (forall n :: 0 <= n < |exec| && exec[n].epoch.Some? ==> 1 <= exec[n].epoch.value <= fence)
    && (forall m, n :: 0 <= m < n < |exec| && exec[m].epoch.Some? && exec[n].epoch.Some? ==>
                         exec[m].epoch.value <= exec[n].epoch.value)
  }

  ghost predicate BatchesInv(batches: map<int, Batch>, issued: int) {
    forall l :: l in batches ==> 1 <= batches[l].epoch <= issued && 0 <= batches[l].next <= |batches[l].msgs|
  }

  ghost predicate LeaseInv(s: Sys) {
    && GrantsInv(s.election)
    && LogInv(s.election.log, s.election.fence)
    && StampsInv(s.flow.exec, s.election.fence)
    && BatchesInv(s.intake.batches, |s.election.grants|)
  }

  // ---------- what each kind of step keeps ----------

  lemma GrantKeepsLease(s: Sys, owner: string)
    requires LeaseInv(s)
    ensures LeaseInv(s.(election := Granted(s.election, owner)))
  {
  }

  lemma WriteKeepsLog(e: Election, w: Write)
    requires GrantsInv(e) && LogInv(e.log, e.fence) && WasGranted(e, w.epoch) && !IsFenced(e.fence, w.epoch)
    ensures GrantsInv(Written(e, w)) && LogInv(Written(e, w).log, Written(e, w).fence)
    ensures Written(e, w).fence == w.epoch >= e.fence
  {
  }

  lemma HigherFenceKeepsStamps(exec: seq<ExecEntry>, fence: int, higher: int)
    requires StampsInv(exec, fence) && fence <= higher
    ensures StampsInv(exec, higher)
  {
  }

  lemma {:induction false} DispatchKeepsStamps(f: Flow, count: nat, cap: int, now: int, epoch: int)
    requires StampsInv(f.exec, epoch) && epoch >= 1
    ensures StampsInv(DispatchMany(f, count, cap, now, epoch).exec, epoch)
    decreases count
  {
    if count > 0 && MayDispatch(f, cap) {
      DispatchKeepsStamps(DispatchOne(f, now, epoch), count - 1, cap, now, epoch);
    }
  }

  lemma BatchKeepsBatches(batches: map<int, Batch>, loop: int, b: Batch, issued: int)
    requires BatchesInv(batches, issued) && 1 <= b.epoch <= issued && 0 <= b.next <= |b.msgs|
    ensures BatchesInv(batches[loop := b], issued)
  {
  }

  lemma BatchInBounds(batches: map<int, Batch>, loop: int, issued: int)
    requires BatchesInv(batches, issued) && loop in batches
    ensures 1 <= batches[loop].epoch <= issued && 0 <= batches[loop].next <= |batches[loop].msgs|
  {
  }

  lemma AdmitNextKeepsLease(s: Sys, loop: int, score: real, replyLost: bool)
    requires LeaseInv(s) && Enabled(s, AdmitNext(loop, score, replyLost))
    ensures LeaseInv(AdmittedNext(s, loop, s.intake.batches[loop], score, replyLost))
  {
    var b := s.intake.batches[loop];
    var t := b.msgs[b.next].1;
    BatchInBounds(s.intake.batches, loop, |s.election.grants|);
    BatchKeepsBatches(s.intake.batches, loop, Skipped(b), |s.election.grants|);
    BatchKeepsBatches(s.intake.batches, loop, Stopped(b), |s.election.grants|);
    if !(t.id in b.known.value || !IsValid(t)) && !IsFenced(s.election.fence, b.epoch) {
      var w := Admission(b.epoch, t.id, !Known(s.flow, t.id), score);
      WriteKeepsLog(s.election, w);
      HigherFenceKeepsStamps(s.flow.exec, s.election.fence, Written(s.election, w).fence);
    }
  }

  lemma DispatchKeepsLease(s: Sys, epoch: int, count: nat, cap: int, now: int)
    requires LeaseInv(s) && WasGranted(s.election, epoch)
    ensures LeaseInv(Next(s, Dispatch(epoch, count, cap, now)))
  {
    if !IsFenced(s.election.fence, epoch) {
      WriteKeepsLog(s.election, DispatchCall(epoch));
      HigherFenceKeepsStamps(s.flow.exec, s.election.fence, epoch);
      DispatchKeepsStamps(s.flow, count, cap, now, epoch);
    }
  }

  lemma RetryKeepsStamps(f: Flow, t: Task, budget: int, reason: string, now: int, msg: Option<int>, fence: int)
    requires StampsInv(f.exec, fence)
    ensures StampsInv(RetryTask(f, t, budget, reason, now, msg).exec, fence)
  {
    match RetryOutcomeOf(f, t, budget)
    case AlreadyTerminal =>
    case DeadLettered =>
    case Redelivered =>
  }

  /** The key may expire, be released or be deleted at any time. */
  lemma DroppingKeepsGrants(e: Election)
    requires GrantsInv(e)
    ensures GrantsInv(e.(holder := None))
  {
  }

  lemma StepKeepsLease(s: Sys, step: Step)
    requires LeaseInv(s) && Enabled(s, step)
    ensures LeaseInv(Next(s, step))
  {
    hide GrantsInv, LogInv, StampsInv, BatchesInv;
    var batches, issued := s.intake.batches, |s.election.grants|;
    DroppingKeepsGrants(s.election);
    match step
    case Acquire(owner) => GrantKeepsLease(s, owner);
    case Reset => EmptyStamps(s.election.fence);
    case ReadIngress(loop, epoch, count) =>
      if s.intake.read >= 0 {
        BatchKeepsBatches(batches, loop, Read(s.intake, loop, epoch, count).batches[loop], issued);
      }
    case ReclaimIngress(loop, epoch, ids) =>
      BatchKeepsBatches(batches, loop, Fetched(epoch, Picked(s.intake.entries, ids)), issued);
    case LookUpKnown(loop, answer) =>
      BatchInBounds(batches, loop, issued);
      BatchKeepsBatches(batches, loop, Next(s, step).intake.batches[loop], issued);
    case AdmitNext(loop, score, replyLost) => AdmitNextKeepsLease(s, loop, score, replyLost);
    case GiveUp(loop) =>
      BatchInBounds(batches, loop, issued);
      BatchKeepsBatches(batches, loop, Stopped(batches[loop]), issued);
    case AckIngress(loop) => RemovedBatch(batches, loop, issued);
    case Abandon(loop) => RemovedBatch(batches, loop, issued);
    case Dispatch(epoch, count, cap, now) => DispatchKeepsLease(s, epoch, count, cap, now);
    case Flush(epoch, args) => FlushKeepsLease(s, epoch, args);
    case Retry(msg, entry, budget, reason, now) =>
      RetryKeepsStamps(s.flow, entry.task, budget, reason, now, Some(msg), s.election.fence);
    case _ =>
  }

  lemma FlushKeepsLease(s: Sys, epoch: int, args: seq<(string, Field)>)
    requires LeaseInv(s) && Enabled(s, Flush(epoch, args))
    ensures LeaseInv(Next(s, Flush(epoch, args)))
  {
    hide LogInv, StampsInv;
    if !IsFenced(s.election.fence, epoch) {
      WriteKeepsLog(s.election, StateFlush(epoch, FieldsOf(args)));
      HigherFenceKeepsStamps(s.flow.exec, s.election.fence, epoch);
    }
  }

  lemma EmptyStamps(fence: int)
    ensures StampsInv([], fence)
  {
  }

  lemma RemovedBatch(batches: map<int, Batch>, loop: int, issued: int)
    requires BatchesInv(batches, issued)
    ensures BatchesInv(batches - {loop}, issued)
  {
  }

  lemma {:induction false} RunKeepsLease(s: Sys, steps: seq<Step>)
    requires LeaseInv(s) && IsRun(s, steps)
    ensures LeaseInv(After(s, steps))
    decreases |steps|
  {
    hide LeaseInv, Next;
    if steps != [] {
      StepKeepsLease(s, steps[0]);
      RunKeepsLease(Next(s, steps[0]), steps[1..]);
    }
  }

  // ---------- the theorems ----------

  /** Exactly one grant carries the epoch. */
  ghost predicate IssuedOnce(grants: seq<Grant>, epoch: int) {
    exists k :: 0 <= k < |grants| && grants[k].epoch == epoch &&
                forall j :: 0 <= j < |grants| && grants[j].epoch == epoch ==> j == k
  }

  lemma EveryWriteWasGranted(e: Election)
    requires GrantsInv(e) && LogInv(e.log, e.fence)
    ensures forall n :: 0 <= n < |e.log| ==> IssuedOnce(e.grants, e.log[n].epoch)
  {
    forall n | 0 <= n < |e.log| ensures IssuedOnce(e.grants, e.log[n].epoch) {
      assert e.grants[e.log[n].epoch - 1].epoch == e.log[n].epoch;
    }
  }

  /** Single writer. In every run, with any number of schedulers pausing and resuming and any number of
      resets, the guarded writes let through are sorted by epoch, every one carries an epoch that was issued
      to exactly one grant, and the epochs stamped on the dispatch log never decrease. */
  lemma SingleWriter(defaultRetries: int, steps: seq<Step>)
    requires IsRun(Initial(defaultRetries), steps)
    ensures var s := After(Initial(defaultRetries), steps);
            && LogInv(s.election.log, s.election.fence)
            && (forall n :: 0 <= n < |s.election.log| ==> IssuedOnce(s.election.grants, s.election.log[n].epoch))
            && StampsInv(s.flow.exec, s.election.fence)
  {
    InitialLease(defaultRetries);
    hide LogInv, StampsInv, BatchesInv, IssuedOnce, GrantsInv;
    RunKeepsLease(Initial(defaultRetries), steps);
    EveryWriteWasGranted(After(Initial(defaultRetries), steps).election);
  }

  lemma InitialLease(defaultRetries: int)
    ensures LeaseInv(Initial(defaultRetries))
  {
  }

  /** The live holder is never refused. */
  lemma HolderIsNotFenced(s: Sys, owner: string, epoch: nat)
    requires LeaseInv(s) && s.election.holder == Some(HolderValue(owner, epoch))
    ensures epoch == s.election.leaderEpoch && !IsFenced(s.election.fence, epoch)
  {
    var g := s.election.grants[|s.election.grants| - 1];
    HolderValueIsInjective(owner, epoch, g.owner, g.epoch);
  }

  /** A refusal means a newer grant has written, so whoever is refused has been superseded. */
  lemma RefusalMeansSuperseded(s: Sys, epoch: int)
    requires LeaseInv(s) && IsFenced(s.election.fence, epoch)
    ensures exists n :: 0 <= n < |s.election.log| && s.election.log[n].epoch > epoch
    ensures exists k :: 0 <= k < |s.election.grants| && s.election.grants[k].epoch > epoch
    ensures forall owner: string :: epoch >= 0 ==> s.election.holder != Some(HolderValue(owner, epoch))
  {
    var e := s.election;
    assert e.log[|e.log| - 1].epoch == e.fence;
    assert e.grants[e.fence - 1].epoch == e.fence;
    forall owner: string | epoch >= 0 ensures e.holder != Some(HolderValue(owner, epoch)) {
      if e.holder == Some(HolderValue(owner, epoch)) {
        HolderIsNotFenced(s, owner, epoch);
      }
    }
  }

  /** Once a refused epoch, always refused: a superseded leader stays locked out for the rest of the run. */
  lemma {:induction false} RefusalIsPermanent(s: Sys, steps: seq<Step>, epoch: int)
    requires LeaseInv(s) && IsRun(s, steps) && IsFenced(s.election.fence, epoch)
    ensures IsFenced(After(s, steps).election.fence, epoch)
    decreases |steps|
  {
    hide GrantsInv, LogInv, StampsInv, BatchesInv;
    if steps != [] {
      FenceOnlyRises(s, steps[0]);
      StepKeepsLease(s, steps[0]);
      RefusalIsPermanent(Next(s, steps[0]), steps[1..], epoch);
    }
  }

  lemma FenceOnlyRises(s: Sys, step: Step)
    requires LeaseInv(s) && Enabled(s, step)
    ensures Next(s, step).election.fence >= s.election.fence
    ensures Next(s, step).election.leaderEpoch >= s.election.leaderEpoch
    ensures s.election.log <= Next(s, step).election.log
    ensures s.election.grants <= Next(s, step).election.grants
  {
    hide LogInv, StampsInv;
  }

  /** The k-th grant has been issued and its value is not in the key. */
  ghost predicate IsGone(e: Election, k: int)
    requires GrantsInv(e)
  {
    0 <= k < |e.grants| && e.holder != Some(ValueOf(e.grants[k]))
  }

  lemma StepKeepsGone(s: Sys, step: Step, k: int)
    requires LeaseInv(s) && Enabled(s, step) && IsGone(s.election, k)
    ensures LeaseInv(Next(s, step)) && IsGone(Next(s, step).election, k)
    ensures Next(s, step).election.grants[k] == s.election.grants[k]
  {
    StepKeepsLease(s, step);
    FenceOnlyRises(s, step);
    hide LogInv, StampsInv, BatchesInv;
    var e, e' := s.election, Next(s, step).election;
    assert e'.grants[k] == e.grants[k];
    if e'.holder == Some(ValueOf(e.grants[k])) {
      var g := e'.grants[|e'.grants| - 1];
      HolderValueIsInjective(e.grants[k].owner, e.grants[k].epoch, g.owner, g.epoch);
    }
  }

  /** Once a grant's value has left the key it never returns: in the rest of the run the grant's own renewal
      and release both fail and change nothing, so a departing leader cannot disturb its successor. */
  lemma {:induction false} GoneForGood(s: Sys, steps: seq<Step>, k: int)
    requires LeaseInv(s) && IsRun(s, steps) && IsGone(s.election, k)
    ensures LeaseInv(After(s, steps)) && IsGone(After(s, steps).election, k)
    ensures var v := ValueOf(s.election.grants[k]);
            && After(s, steps).election.holder != Some(v)
            && Released(After(s, steps).election, v) == After(s, steps).election
    decreases |steps|
  {
    hide LogInv, StampsInv, BatchesInv;
    if steps != [] {
      StepKeepsGone(s, steps[0], k);
      GoneForGood(Next(s, steps[0]), steps[1..], k);
    }
  }
}
