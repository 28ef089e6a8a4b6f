/** The program's own loops, in sequence, against the store: the engine's batches, dispatch rounds and state
    flushes (internal/scheduler/engine.go:251-456), the recovery pass (internal/recovery/recovery.go:71-154)
    and a worker's slot (internal/worker/worker.go:219-316).

    Each is proved, running alone and with any of its calls to the store failing, to make only honest steps of
    the protocol and to leave the store as the protocol says; AnswersStayHonest in Journey.dfy adds that what a
    loop has found out stays honest to act on while others run. Together they entitle the theorems of Journey.dfy
    to assume honest runs. `s` is the protocol's view of the system when the loop starts. */
module Loops {
  import opened Text
  import opened Ordering
  import opened Wfq
  import opened Store
  import opened Handoff
  import opened Protocol
  import opened Journey

  ghost predicate Mirrors(store: Store, s: Sys)
    reads store
  {
    && store.holder == s.election.holder && store.leaderEpoch == s.election.leaderEpoch
    && store.fence == s.election.fence && store.flow == s.flow && store.schedState == s.schedState
  }

  /** One more honest step at the end of a run. */
  lemma {:induction false} HonestStep(s: Sys, steps: seq<Step>, step: Step)
    requires IsHonestRun(s, steps) && IsRun(s, steps) && Honest(After(s, steps), step)
    ensures IsHonestRun(s, steps + [step]) && IsRun(s, steps + [step])
    ensures After(s, steps + [step]) == Next(After(s, steps), step)
    decreases |steps|
  {
    hide Next, Honest;
    if steps == [] {
      assert [step][1..] == [];
      HonestIsEnabled(s, step);
    } else {
      assert (steps + [step])[1..] == steps[1..] + [step];
      HonestStep(Next(s, steps[0]), steps[1..], step);
    }
  }

  lemma HonestIsEnabled(s: Sys, step: Step)
    requires Honest(s, step)
    ensures Enabled(s, step)
  {
  }

  // ---------- the scheduler ----------

  /** Broker.Known: one read of the payloads and, later, one of the finished ids. TwoReadsAreEnough says what
      that is worth while tasks move from the one to the other. */
  method KnownIds(ids: seq<string>, payloads: map<string, Task>, done: map<string, int>) returns (known: set<string>)
    ensures forall id :: id in known <==> id in ids && (id in payloads || id in done)
  {
    known := {};
    var i := 0;
    while i < |ids|
      invariant 0 <= i <= |ids|
      invariant forall id :: id in known <==> id in ids[..i] && (id in payloads || id in done)
    {
      if ids[i] in payloads || ids[i] in done {
        known := known + {ids[i]};
      }
      i := i + 1;
    }
  }

  function IdsOf(msgs: seq<(int, Task)>): seq<string> {
    seq(|msgs|, i requires 0 <= i < |msgs| => msgs[i].1.id)
  }

  function SetOf(acks: seq<int>): set<int> {
    set a | a in acks
  }

  /** The batch in the protocol's view has got to entry i. */
  ghost predicate IsAt(s: Sys, loop: int, epoch: int, msgs: seq<(int, Task)>, known: set<string>, i: nat,
                       acks: seq<int>)
  {
    loop in s.intake.batches && s.intake.batches[loop] == Batch(epoch, msgs, Some(known), i, SetOf(acks))
  }

  /** Of the intake only the batches have changed. */
  ghost predicate SameStream(s: Sys, s': Sys) {
    s'.intake == s.intake.(batches := s'.intake.batches)
  }

  /** The entry is known or invalid: it is acknowledged and nothing else happens. */
  lemma SkipIsNext(s: Sys, loop: int, epoch: int, msgs: seq<(int, Task)>, known: set<string>, i: nat, acks: seq<int>)
    requires IsAt(s, loop, epoch, msgs, known, i, acks) && i < |msgs|
    requires msgs[i].1.id in known || !IsValid(msgs[i].1)
    ensures var (step, acks') := (AdmitNext(loop, 0.0, false), acks + [msgs[i].0]);
            && Honest(s, step) && IsAt(Next(s, step), loop, epoch, msgs, known, i + 1, acks')
            && Next(s, step) == s.(intake := Next(s, step).intake) && SameStream(s, Next(s, step))
  {
    assert SetOf(acks + [msgs[i].0]) == SetOf(acks) + {msgs[i].0};
  }

  /** The entry goes to the admit script, and the fence decides; without an answer the batch is over. */
  lemma AdmissionIsNext(s: Sys, loop: int, epoch: int, msgs: seq<(int, Task)>, known: set<string>, i: nat,
                        acks: seq<int>, score: real, lost: bool)
    requires IsAt(s, loop, epoch, msgs, known, i, acks) && i < |msgs|
    requires !(msgs[i].1.id in known || !IsValid(msgs[i].1))
    ensures var (step, acks', t) := (AdmitNext(loop, score, lost), acks + [msgs[i].0], msgs[i].1);
            && Honest(s, step) && SameStream(s, Next(s, step))
            && var s' := Next(s, step);
            && s'.election.holder == s.election.holder && s'.election.leaderEpoch == s.election.leaderEpoch
            && s'.election.fence == FenceAfter(s.election.fence, epoch) && s'.schedState == s.schedState
            && (s'.flow == if IsFenced(s.election.fence, epoch) then s.flow
                           else AdmitTask(s.flow, t, Key(score, MemberFor(t))))
            && if IsFenced(s.election.fence, epoch) || lost
               then IsAt(s', loop, epoch, msgs, known, |msgs|, acks)
               else IsAt(s', loop, epoch, msgs, known, i + 1, acks')
  {
    hide AdmitTask, AdmitBook, IsValid;
    assert SetOf(acks + [msgs[i].0]) == SetOf(acks) + {msgs[i].0};
  }

  /** The call never arrived: the batch is over. */
  lemma GiveUpIsNext(s: Sys, loop: int, epoch: int, msgs: seq<(int, Task)>, known: set<string>, i: nat, acks: seq<int>)
    requires IsAt(s, loop, epoch, msgs, known, i, acks)
    ensures Honest(s, GiveUp(loop)) && IsAt(Next(s, GiveUp(loop)), loop, epoch, msgs, known, |msgs|, acks)
    ensures SameStream(s, Next(s, GiveUp(loop)))
    ensures Next(s, GiveUp(loop)) == s.(intake := Next(s, GiveUp(loop)).intake)
  {
  }

  /** The last step of a batch: the acknowledgement, if it arrives. */
  lemma AckIsNext(s: Sys, loop: int, epoch: int, msgs: seq<(int, Task)>, known: set<string>, acks: seq<int>,
                  arrives: bool)
    requires IsAt(s, loop, epoch, msgs, known, |msgs|, acks)
    ensures var step := if arrives then AckIngress(loop) else Abandon(loop);
            && Honest(s, step) && Next(s, step) == s.(intake := Next(s, step).intake)
            && loop !in Next(s, step).intake.batches
            && Next(s, step).intake.pel == if arrives then s.intake.pel - SetOf(acks) else s.intake.pel
  {
  }

  lemma StaysFenced(fence: int, epoch: int)
    ensures IsFenced(fence, epoch) ==> IsFenced(FenceAfter(fence, epoch), epoch)
  {
  }

  /** Every entry acknowledged is invalid or known. */
  ghost predicate AreDone(f: Flow, msgs: seq<(int, Task)>, acks: seq<int>) {
    && |acks| <= |msgs|
    && forall k :: 0 <= k < |acks| ==> acks[k] == msgs[k].0 && (!IsValid(msgs[k].1) || Known(f, msgs[k].1.id))
  }

  lemma DoneAfterAdmission(f: Flow, msgs: seq<(int, Task)>, acks: seq<int>, key: Key)
    requires AreDone(f, msgs, acks) && |acks| < |msgs|
    ensures var g := AdmitTask(f, msgs[|acks|].1, key);
            AreDone(g, msgs, acks) && AreDone(g, msgs, acks + [msgs[|acks|].0])
  {
    hide IsValid;
    AdmissionGrows(f, msgs[|acks|].1, key);
  }

  lemma DoneWithoutAdmission(f: Flow, msgs: seq<(int, Task)>, acks: seq<int>)
    requires AreDone(f, msgs, acks) && |acks| < |msgs|
    requires !IsValid(msgs[|acks|].1) || Known(f, msgs[|acks|].1.id)
    ensures AreDone(f, msgs, acks + [msgs[|acks|].0])
  {
  }

  lemma NothingDone(f: Flow, msgs: seq<(int, Task)>)
    ensures AreDone(f, msgs, [])
  {
  }

  datatype BatchEnd = Finished | FencedOut | Failed

  ghost predicate AllKnown(f: Flow, ids: set<string>) {
    forall id :: id in ids ==> Known(f, id)
  }

  lemma AdmissionKeepsKnown(f: Flow, t: Task, key: Key, ids: set<string>)
    requires AllKnown(f, ids)
    ensures AllKnown(AdmitTask(f, t, key), ids)
  {
    AdmissionGrows(f, t, key);
  }

  /** The duplicate pre-check and the validation keep a task from being ranked. */
  predicate IsPassedOver(known: set<string>, t: Task) {
    t.id in known || !IsValid(t)
  }

  function RankedUnless(c: Clock, known: set<string>, t: Task): Clock {
    if IsPassedOver(known, t) then c else c.Ranked(t)
  }

  /** The policy's clock when the loop comes to entry n: it has ranked the entries before, passed over ones
      excepted. */
  function ClockAt(c: Clock, msgs: seq<(int, Task)>, known: set<string>, n: nat): Clock
    requires n <= |msgs|
  {
    if n == 0 then c else RankedUnless(ClockAt(c, msgs, known, n - 1), known, msgs[n - 1].1)
  }

  /** The step for an entry, with the score the policy gives it. */
  function StepFor(loop: int, c: Clock, known: set<string>, t: Task, trip: Trip): Step {
    if IsPassedOver(known, t) then AdmitNext(loop, 0.0, false)
    else if trip.NeverArrived? then GiveUp(loop)
    else AdmitNext(loop, c.Finish(t), trip.ReplyLost?)
  }

  /** The body of the batch loop. `Finished` means that the loop goes on. */
  method AdmitOne(store: Store, policy: WfqPolicy, loop: int, epoch: int, msgs: seq<(int, Task)>, known: set<string>,
                  before: seq<int>, trip: Trip, ghost s: Sys)
    returns (acks: seq<int>, end: BatchEnd, ghost step: Step)
    requires |before| < |msgs| && Mirrors(store, s) && IsAt(s, loop, epoch, msgs, known, |before|, before)
    requires AllKnown(store.flow, known) && AreDone(store.flow, msgs, before)
    modifies policy, store`fence, store`flow
    ensures Honest(s, step) && Mirrors(store, Next(s, step)) && SameStream(s, Next(s, step))
    ensures IsAt(Next(s, step), loop, epoch, msgs, known, if end.Finished? then |before| + 1 else |msgs|, acks)
    ensures AllKnown(store.flow, known) && AreDone(store.flow, msgs, acks)
    ensures acks == if end.Finished? then before + [msgs[|before|].0] else before
    ensures step == StepFor(loop, old(policy.Value()), known, msgs[|before|].1, trip)
    ensures policy.Value() == RankedUnless(old(policy.Value()), known, msgs[|before|].1)
    ensures end.FencedOut? ==> IsFenced(store.fence, epoch)
    ensures end.Failed? ==> !trip.Answered?
  {
    hide AdmitTask, IsValid, Honest, Next, IsFenced, FenceAfter, AreDone, SetOf, IsAt, AllKnown;
    var (id, t) := msgs[|before|];
    acks, end := before + [id], Finished;
    if IsPassedOver(known, t) {
      step := AdmitNext(loop, 0.0, false);
      SkipIsNext(s, loop, epoch, msgs, known, |before|, before);
      BelievedIsKnown(store.flow, known, t.id);
      DoneWithoutAdmission(store.flow, msgs, before);
      return;
    }
    var key := policy.Rank(t);
    if trip.NeverArrived? {
      step := GiveUp(loop);
      GiveUpIsNext(s, loop, epoch, msgs, known, |before|, before);
      return before, Failed, step;
    }
    step := AdmitNext(loop, key.score, trip.ReplyLost?);
    AdmissionIsNext(s, loop, epoch, msgs, known, |before|, before, key.score, trip.ReplyLost?);
    StaysFenced(store.fence, epoch);
    DoneAfterAdmission(store.flow, msgs, before, key);
    AdmissionKeepsKnown(store.flow, t, key, known);
    var admitted := store.Admit(t, key, epoch);
    if trip.ReplyLost? {
      acks, end := before, Failed;
    } else if admitted.None? {
      acks, end := before, FencedOut;
    }
  }

  lemma BelievedIsKnown(f: Flow, known: set<string>, id: string)
    requires AllKnown(f, known)
    ensures id in known ==> Known(f, id)
  {
  }

  /** Engine.admitBatch, from the duplicate pre-check to the acknowledgement. It stops at the first entry the
      fence refuses or whose admission fails, and acknowledges, on every way out, what came before: entries
      that are invalid or known by then. The scores are those the policy gives one after the other. */
  method AdmitBatch(store: Store, policy: WfqPolicy, loop: int, epoch: int, msgs: seq<(int, Task)>, answered: bool,
                    trips: seq<Trip>, ackArrives: bool, ghost s: Sys)
    returns (acks: seq<int>, end: BatchEnd, ghost steps: seq<Step>)
    requires Mirrors(store, s) && |trips| == |msgs|
    requires loop in s.intake.batches && s.intake.batches[loop] == Fetched(epoch, msgs)
    modifies policy, store`fence, store`flow
    ensures IsHonestRun(s, steps) && IsRun(s, steps) && Mirrors(store, After(s, steps))
    ensures var i := After(s, steps).intake;
            loop !in i.batches && i.pel == if ackArrives then s.intake.pel - SetOf(acks) else s.intake.pel
    ensures AreDone(store.flow, msgs, acks)
    ensures end.Finished? ==> |acks| == |msgs|
    ensures end.FencedOut? ==> IsFenced(store.fence, epoch)
    ensures end.Failed? ==> |acks| < |msgs| && !trips[|acks|].Answered?
    ensures |steps| == |acks| + (if end.Finished? then 2 else 3)
    ensures steps[0] == LookUpKnown(loop, if answered then KnownAmong(s.flow, msgs) else {})
    ensures var (known, n) := (steps[0].answer, |steps| - 2);
            && n <= |msgs| && policy.Value() == ClockAt(old(policy.Value()), msgs, known, n)
            && AreStepsFor(steps, loop, old(policy.Value()), msgs, known, trips, n)
  {
    hide IsHonestRun, IsRun, After, Honest, Next, IsFenced, AreDone, SetOf, IsAt, AllKnown, StepFor, RankedUnless;
    hide AreStepsFor, ClockAt, SameStream, Mirrors;
    var known := {};
    if answered {
      known := KnownIds(IdsOf(msgs), store.flow.payloads, store.flow.done);
      MirrorsFlow(store, s);
      FoundIsKnown(s.flow, msgs, known);
    }
    MirrorsFlow(store, s);
    ghost var s' := LookedUp(s, loop, msgs, known);
    steps := [LookUpKnown(loop, known)];
    acks, end := [], Finished;
    ghost var c := policy.Value();
    NoStepsFor(steps[0], loop, c, msgs, known, trips);
    MirrorsThrough(store, s, s');
    NothingDone(store.flow, msgs);
    assert AllKnown(store.flow, known) by { AllAreKnown(store.flow, known); }
    while |acks| < |msgs| && end.Finished?
      invariant |acks| <= |msgs| && IsHonestRun(s, steps) && IsRun(s, steps) && s' == After(s, steps)
      invariant Mirrors(store, s') && SameStream(s, s')
      invariant AllKnown(store.flow, known) && AreDone(store.flow, msgs, acks)
      invariant IsAt(s', loop, epoch, msgs, known, if end.Finished? then |acks| else |msgs|, acks)
      invariant end.FencedOut? ==> IsFenced(store.fence, epoch)
      invariant end.Failed? ==> |acks| < |msgs| && !trips[|acks|].Answered?
      invariant |steps| == |acks| + (if end.Finished? then 1 else 2) <= |msgs| + 1
      invariant steps[0] == LookUpKnown(loop, known)
      invariant policy.Value() == ClockAt(c, msgs, known, |steps| - 1)
      invariant AreStepsFor(steps, loop, c, msgs, known, trips, |steps| - 1)
      decreases |msgs| - |acks|, end.Finished?
    {
      ghost var step;
      acks, end, step := AdmitOne(store, policy, loop, epoch, msgs, known, acks, trips[|acks|], s');
      HonestIsEnabled(s', step);
      HonestStep(s, steps, step);
      OneMoreStepFor(steps, loop, c, msgs, known, trips, step);
      StreamStays(s, s', Next(s', step));
      s', steps := Next(s', step), steps + [step];
    }
    StreamMeans(s, s');
    AckIsNext(s', loop, epoch, msgs, known, acks, ackArrives);
    ghost var last := if ackArrives then AckIngress(loop) else Abandon(loop);
    HonestStep(s, steps, last);
    MirrorsThrough(store, s', Next(s', last));
    LastStepIsExtra(steps, loop, c, msgs, known, trips, |steps| - 1, last);
    steps := steps + [last];
  }

  /** The steps after the first are those for the first n entries. */
  ghost predicate AreStepsFor(steps: seq<Step>, loop: int, c: Clock, msgs: seq<(int, Task)>, known: set<string>,
                              trips: seq<Trip>, n: nat)
    requires n <= |msgs| == |trips|
  {
    && n < |steps|
    && forall k :: 0 <= k < n ==>
         steps[k + 1] == StepFor(loop, ClockAt(c, msgs, known, k), known, msgs[k].1, trips[k])
  }

  lemma NoStepsFor(first: Step, loop: int, c: Clock, msgs: seq<(int, Task)>, known: set<string>, trips: seq<Trip>)
    requires |msgs| == |trips|
    ensures AreStepsFor([first], loop, c, msgs, known, trips, 0) && ClockAt(c, msgs, known, 0) == c
  {
  }

  lemma OneMoreStepFor(steps: seq<Step>, loop: int, c: Clock, msgs: seq<(int, Task)>, known: set<string>,
                       trips: seq<Trip>, step: Step)
    requires 1 <= |steps| <= |msgs| == |trips| && AreStepsFor(steps, loop, c, msgs, known, trips, |steps| - 1)
    requires var n := |steps| - 1; step == StepFor(loop, ClockAt(c, msgs, known, n), known, msgs[n].1, trips[n])
    ensures AreStepsFor(steps + [step], loop, c, msgs, known, trips, |steps|)
    ensures ClockAt(c, msgs, known, |steps|) ==
            RankedUnless(ClockAt(c, msgs, known, |steps| - 1), known, msgs[|steps| - 1].1)
  {
    hide StepFor, RankedUnless;
  }

  lemma LastStepIsExtra(steps: seq<Step>, loop: int, c: Clock, msgs: seq<(int, Task)>, known: set<string>,
                        trips: seq<Trip>, n: nat, last: Step)
    requires n <= |msgs| == |trips| && AreStepsFor(steps, loop, c, msgs, known, trips, n)
    ensures AreStepsFor(steps + [last], loop, c, msgs, known, trips, n)
  {
    hide StepFor, ClockAt;
  }

  lemma {:induction false} OneMoreClockStep(c: Clock, steps: seq<ClockStep>, step: ClockStep)
    ensures ClockRun(c, steps + [step]) == ClockNext(ClockRun(c, steps), step)
    decreases |steps|
  {
    hide ClockNext;
    if steps == [] {
      assert [step][1..] == [];
    } else {
      assert (steps + [step])[1..] == steps[1..] + [step];
      OneMoreClockStep(ClockNext(c, steps[0]), steps[1..], step);
    }
  }

  /** Between two entries of a batch the clock only makes steps of the policy. */
  lemma {:induction false} ClockRunsOn(c: Clock, msgs: seq<(int, Task)>, known: set<string>, m: nat, n: nat)
    returns (heard: seq<ClockStep>)
    requires m < n <= |msgs| && !IsPassedOver(known, msgs[m].1)
    ensures ClockAt(c, msgs, known, n) == ClockRun(ClockAt(c, msgs, known, m).Ranked(msgs[m].1), heard)
    decreases n
  {
    hide IsPassedOver;
    if n == m + 1 {
      heard := [];
    } else {
      heard := ClockRunsOn(c, msgs, known, m, n - 1);
      if !IsPassedOver(known, msgs[n - 1].1) {
        OneMoreClockStep(ClockAt(c, msgs, known, m).Ranked(msgs[m].1), heard, RankTask(msgs[n - 1].1));
        heard := heard + [RankTask(msgs[n - 1].1)];
      }
    }
  }

  /** Within a batch a tenant's entries are admitted under rising scores, in the order they were submitted in; so
      Dispatching.TenantOrderIsKept applies to them. */
  lemma BatchRanksInOrder(steps: seq<Step>, loop: int, c: Clock, msgs: seq<(int, Task)>, known: set<string>,
                          trips: seq<Trip>, upTo: nat, m: nat, n: nat)
    requires upTo <= |msgs| == |trips| && AreStepsFor(steps, loop, c, msgs, known, trips, upTo) && m < n < upTo
    requires !IsPassedOver(known, msgs[m].1) && !IsPassedOver(known, msgs[n].1)
    requires msgs[m].1.tenant == msgs[n].1.tenant && steps[m + 1].AdmitNext? && steps[n + 1].AdmitNext?
    ensures steps[m + 1].score < steps[n + 1].score
  {
    hide ClockAt, IsPassedOver;
    var heard := ClockRunsOn(c, msgs, known, m, n);
    LaterRanksHigher(ClockAt(c, msgs, known, m), msgs[m].1, heard, msgs[n].1);
  }

  lemma StreamStays(s: Sys, s': Sys, s'': Sys)
    requires SameStream(s, s') && SameStream(s', s'')
    ensures SameStream(s, s'')
  {
  }

  lemma StreamMeans(s: Sys, s': Sys)
    requires SameStream(s, s')
    ensures s'.intake.pel == s.intake.pel
  {
  }

  lemma FoundIsKnown(f: Flow, msgs: seq<(int, Task)>, known: set<string>)
    requires forall id :: id in known <==> id in IdsOf(msgs) && Known(f, id)
    ensures known == KnownAmong(f, msgs)
  {
    forall id | id in known ensures id in KnownAmong(f, msgs) {
      var n :| 0 <= n < |IdsOf(msgs)| && IdsOf(msgs)[n] == id;
      assert msgs[n].1.id == id;
    }
    forall id | id in KnownAmong(f, msgs) ensures id in known {
      var n :| 0 <= n < |msgs| && msgs[n].1.id == id;
      assert IdsOf(msgs)[n] == id;
    }
  }

  lemma MirrorsFlow(store: Store, s: Sys)
    requires Mirrors(store, s)
    ensures store.flow == s.flow
  {
  }

  lemma MirrorsThrough(store: Store, s: Sys, s': Sys)
    requires Mirrors(store, s) && s' == s.(intake := s'.intake)
    ensures Mirrors(store, s')
  {
  }

  lemma AllAreKnown(f: Flow, known: set<string>)
    requires forall id :: id in known ==> Known(f, id)
    ensures AllKnown(f, known)
  {
  }

  ghost function LookedUp(s: Sys, loop: int, msgs: seq<(int, Task)>, known: set<string>): (s': Sys)
    requires loop in s.intake.batches && s.intake.batches[loop] == Fetched(s.intake.batches[loop].epoch, msgs)
    requires forall id :: id in known ==> id in IdsOf(msgs) && Known(s.flow, id)
    ensures var steps := [LookUpKnown(loop, known)]; IsHonestRun(s, steps) && IsRun(s, steps) && s' == After(s, steps)
    ensures IsAt(s', loop, s.intake.batches[loop].epoch, msgs, known, 0, [])
    ensures s' == s.(intake := s'.intake) && SameStream(s, s')
  {
    var step := LookUpKnown(loop, known);
    assert known <= KnownAmong(s.flow, msgs) by {
      forall id | id in known ensures id in KnownAmong(s.flow, msgs) {
        var n :| 0 <= n < |IdsOf(msgs)| && IdsOf(msgs)[n] == id;
        assert |IdsOf(msgs)| == |msgs|;
        assert IdsOf(msgs)[n] == msgs[n].1.id;
      }
    }
    assert SetOf([]) == {};
    assert [step][1..] == [];
    Next(s, step)
  }

  /** Notify, once per dispatched task, in the order the script returned them. */
  function Heard(c: Clock, list: seq<Dispatched>): Clock {
    if list == [] then c else Heard(c, list[..|list| - 1]).Notified(list[|list| - 1].key.score)
  }

  /** Hearing of a batch in ascending order leaves virtual time at its last tag, unless that is behind. */
  lemma {:induction false} HeardIsLatest(c: Clock, list: seq<Dispatched>)
    requires list != [] && forall m, n :: 0 <= m < n < |list| ==> list[m].key.score <= list[n].key.score
    ensures Heard(c, list) == c.Notified(list[|list| - 1].key.score)
  {
    var rest := list[..|list| - 1];
    if rest != [] {
      HeardIsLatest(c, rest);
      assert rest[|rest| - 1] == list[|list| - 2];
    }
  }

  /** What the dispatch loop got to hear of a round. */
  datatype Round = HandedOver(list: seq<Dispatched>) | Refused | NoAnswer

  /** One round of the engine's dispatch loop. The policy hears of what was handed over, in order, when the answer
      arrives; when it is lost the tasks are on their way and the policy does not know. */
  method DispatchRound(store: Store, policy: WfqPolicy, batch: nat, maxInFlight: int, now: int, epoch: int, trip: Trip,
                       ghost s: Sys)
    returns (round: Round, ghost steps: seq<Step>)
    requires Mirrors(store, s) && WasGranted(s.election, epoch)
    modifies policy, store`fence, store`flow
    ensures steps == if trip.NeverArrived? then [] else [Dispatch(epoch, batch, maxInFlight, now)]
    ensures IsHonestRun(s, steps) && IsRun(s, steps) && Mirrors(store, After(s, steps))
    ensures round.NoAnswer? <==> !trip.Answered?
    ensures round.Refused? <==> trip.Answered? && IsFenced(s.election.fence, epoch)
    ensures round.HandedOver? ==> round.list == Report(s.flow, batch, maxInFlight, now, epoch)
    ensures policy.Value() == if round.HandedOver? then Heard(old(policy.Value()), round.list) else old(policy.Value())
  {
    hide DispatchMany, Report, Extended, IsHonestRun, IsRun, After;
    NoStepsYet(s);
    steps := [];
    if trip.NeverArrived? {
      return NoAnswer, steps;
    }
    var dispatched := store.Dispatch(batch, maxInFlight, now, epoch);
    HonestStep(s, steps, Dispatch(epoch, batch, maxInFlight, now));
    steps := steps + [Dispatch(epoch, batch, maxInFlight, now)];
    if trip.ReplyLost? {
      return NoAnswer, steps;
    }
    if dispatched.None? {
      return Refused, steps;
    }
    var list := dispatched.value;
    var i := 0;
    while i < |list|
      invariant 0 <= i <= |list| && policy.Value() == Heard(old(policy.Value()), list[..i])
      invariant Mirrors(store, After(s, steps))
    {
      assert list[..i + 1][..i] == list[..i];
      policy.Notify(list[i].key);
      i := i + 1;
    }
    assert list[..i] == list;
    round := HandedOver(list);
  }

  /** The arguments Broker.SaveSchedulerState sends: every field and its value. */
  method ArgumentsFor(state: map<string, Field>) returns (args: seq<(string, Field)>)
    ensures FieldsOf(args) == state && (args == [] <==> state == map[])
  {
    args := [];
    var rest := state.Keys;
    while rest != {}
      invariant rest <= state.Keys && FieldsOf(args) == state - rest
      decreases |rest|
    {
      var k :| k in rest;
      rest := rest - {k};
      assert (args + [(k, state[k])])[..|args|] == args;
      args := args + [(k, state[k])];
    }
    assert state - rest == state;
    assert args != [] ==> args[|args| - 1].0 in FieldsOf(args);
  }

  lemma FlushIsNext(s: Sys, epoch: int, args: seq<(string, Field)>)
    requires WasGranted(s.election, epoch) && args != []
    ensures var step := Flush(epoch, args);
            && Honest(s, step)
            && Next(s, step) == s.(election := Next(s, step).election, schedState := Next(s, step).schedState)
            && Next(s, step).election.holder == s.election.holder
            && Next(s, step).election.leaderEpoch == s.election.leaderEpoch
            && Next(s, step).election.fence == FenceAfter(s.election.fence, epoch)
            && Next(s, step).schedState == if IsFenced(s.election.fence, epoch) then s.schedState else FieldsOf(args)
  {
    hide FieldsOf;
  }

  /** Engine.flushState: once the call has taken effect the store holds the policy's state and nothing else,
      unless the term was fenced. The caller learns which, if the answer arrives. */
  method FlushState(store: Store, policy: WfqPolicy, epoch: int, trip: Trip, ghost s: Sys)
    returns (fenced: Option<bool>, ghost steps: seq<Step>)
    requires Mirrors(store, s) && WasGranted(s.election, epoch)
    modifies store`fence, store`schedState
    ensures IsHonestRun(s, steps) && IsRun(s, steps) && Mirrors(store, After(s, steps))
    ensures if trip.NeverArrived? then steps == []
            else && |steps| == 1 && steps[0].Flush? && steps[0].epoch == epoch
                 && SavedFor(FieldsOf(steps[0].args), policy.Value())
    ensures fenced == if trip.Answered? then Some(IsFenced(s.election.fence, epoch)) else None
    ensures store.schedState ==
            if trip.NeverArrived? || IsFenced(s.election.fence, epoch) then s.schedState else FieldsOf(steps[0].args)
  {
    hide Honest, Next, FieldsOf, IsHonestRun, IsRun, After;
    NoStepsYet(s);
    steps := [];
    var state := policy.State();
    assert STATE_VIRTUAL_TIME in state;
    var args := ArgumentsFor(state);
    if trip.NeverArrived? {
      return None, steps;
    }
    FlushIsNext(s, epoch, args);
    HonestStep(s, steps, Flush(epoch, args));
    steps := steps + [Flush(epoch, args)];
    var written := store.SaveState(args, epoch);
    fenced := if trip.Answered? then Some(written.None?) else None;
  }

  /** What came of restoring: done, stopped at a field that cannot be used, or nothing read. */
  datatype Restoring = Restored | Unusable(field: string) | NotRead

  /** Engine.restoreState: from a snapshot a term saved, the new leader's clock is that term's. */
  method RestoreState(store: Store, policy: WfqPolicy, arrives: bool) returns (r: Restoring)
    modifies policy
    ensures r.NotRead? <==> !arrives
    ensures !arrives || store.schedState == map[] ==> policy.Value() == old(policy.Value())
    ensures arrives && store.schedState == map[] ==> r.Restored?
    ensures arrives && store.schedState != map[] ==>
              HoldsFields(policy.virtualTime, policy.lastFinish, store.schedState,
                          Before(store.schedState, if r.Unusable? then Some(r.field) else None))
    ensures r.Unusable? ==> r.field in store.schedState && !Restorable(r.field, store.schedState[r.field])
    ensures arrives ==> forall k :: k in store.schedState && (r.Unusable? ==> Less(k, r.field)) ==>
                          Restorable(k, store.schedState[k])
    ensures forall c :: arrives && SavedFor(store.schedState, c) ==>
              r.Restored? && policy.virtualTime == c.virtualTime && policy.lastFinish == c.lastFinish
  {
    if !arrives {
      return NotRead;
    }
    if store.schedState == map[] {
      return Restored;
    }
    var bad := policy.Restore(store.schedState);
    forall c | SavedFor(store.schedState, c)
      ensures bad.None? && policy.virtualTime == c.virtualTime && policy.lastFinish == c.lastFinish
    {
      RestoreUndoesSave(c, store.schedState, policy.virtualTime, policy.lastFinish);
    }
    r := if bad.Some? then Unusable(bad.value) else Restored;
  }

  lemma GrantsStay(s: Sys, epoch: int, args: seq<(string, Field)>)
    requires WasGranted(s.election, epoch) && args != []
    ensures Next(s, Flush(epoch, args)).election.grants == s.election.grants
  {
    hide FieldsOf;
  }

  lemma OneStep(s: Sys, step: Step)
    requires IsRun(s, [step])
    ensures Enabled(s, step) && After(s, [step]) == Next(s, step)
  {
    assert [step][1..] == [];
  }

  /** A takeover in which the older term flushes once more after its successor has read the saved state and
      before the successor's first write, call by call: nothing refuses that flush, and the successor puts back
      what it had read. Schedules.dfy says over whole runs when the saved clock can go back. */
  method LateFlush(store: Store, older: WfqPolicy, newer: WfqPolicy, olderEpoch: int, newerEpoch: int,
                   ghost read: Clock, ghost s: Sys)
    returns (between: map<string, Field>, ghost first: Step, ghost second: Step)
    requires older != newer && Mirrors(store, s) && SavedFor(store.schedState, read)
    requires WasGranted(s.election, olderEpoch) && WasGranted(s.election, newerEpoch) && olderEpoch < newerEpoch
    requires !IsFenced(store.fence, olderEpoch)
    modifies newer, store`fence, store`schedState
    ensures first.Flush? && first.epoch == olderEpoch && Enabled(s, first)
    ensures second.Flush? && second.epoch == newerEpoch && Enabled(Next(s, first), second)
    ensures between == Next(s, first).schedState && Mirrors(store, Next(Next(s, first), second))
    ensures SavedFor(between, older.Value())
    ensures SavedFor(store.schedState, newer.Value()) && newer.virtualTime == read.virtualTime
    ensures store.schedState[STATE_VIRTUAL_TIME].value < between[STATE_VIRTUAL_TIME].value <==>
            older.virtualTime > read.virtualTime
  {
    hide Honest, Next, FieldsOf, IsHonestRun, IsRun, After, Enabled, HoldsFields;
    var bad := RestoreState(store, newer, true);
    ghost var steps: seq<Step>, more: seq<Step>;
    var f1, f2;
    f1, steps := FlushState(store, older, olderEpoch, Answered, s);
    first, between := steps[0], store.schedState;
    assert steps == [first];
    OneStep(s, first);
    SavedIsNotEmpty(first.args, older.Value());
    FlushIsNext(s, olderEpoch, first.args);
    GrantsStay(s, olderEpoch, first.args);
    f2, more := FlushState(store, newer, newerEpoch, Answered, Next(s, first));
    second := more[0];
    assert more == [second];
    OneStep(Next(s, first), second);
  }

  lemma SavedIsNotEmpty(args: seq<(string, Field)>, c: Clock)
    requires SavedFor(FieldsOf(args), c)
    ensures args != []
  {
  }

  /** Broker.Reset, which nobody calls during an honest run: on the store it is the protocol's Reset. */
  method WipeNamespace(store: Store, ghost s: Sys)
    requires Mirrors(store, s)
    modifies store`holder, store`flow, store`schedState
    ensures store.flow == EMPTY_FLOW && store.schedState == map[] && store.holder == None
    ensures Mirrors(store, Next(s, Reset))
  {
    store.Reset();
  }

  // ---------- recovery and workers ----------

  /** These messages are entries some consumer was given. */
  ghost predicate AreDelivered(f: Flow, msgs: seq<(int, ExecEntry)>) {
    forall k :: 0 <= k < |msgs| ==> WasDelivered(f, msgs[k].0) && f.exec[msgs[k].0] == msgs[k].1
  }

  lemma RetryKeepsDelivered(f: Flow, msgs: seq<(int, ExecEntry)>, t: Task, budget: int, reason: string, now: int,
                            msg: Option<int>)
    requires AreDelivered(f, msgs)
    ensures AreDelivered(RetryTask(f, t, budget, reason, now, msg), msgs)
  {
  }

  lemma RetryIsNext(s: Sys, msg: int, entry: ExecEntry, budget: int, reason: string, now: int)
    requires WasDelivered(s.flow, msg) && s.flow.exec[msg] == entry && budget == s.book.BudgetOf(entry.task)
    ensures var step := Retry(msg, entry, budget, reason, now);
            && Honest(s, step)
            && Next(s, step) == s.(flow := RetryTask(s.flow, entry.task, budget, reason, now, Some(msg)),
                                   parents := Next(s, step).parents)
  {
    hide RetryTask;
  }

  /** The recovery loop; `cursor` is where the next reclaim pass starts. */
  class RecoveryLoop {
    const maxRetries: int
    var cursor: string

    constructor (maxRetries: int)
      ensures this.maxRetries == maxRetries && cursor == "0-0"
    {
      this.maxRetries, cursor := maxRetries, "0-0";
    }

    /** Once. `claim` is what the reclaim brought, deliveries and the next cursor, or nothing when it failed.
        Each delivery is retried or dead-lettered under its task's budget, up to the first call that fails. */
    method Once(store: Store, claim: Option<(seq<(int, ExecEntry)>, string)>, trips: seq<Trip>, reason: string,
                now: int,
                ghost s: Sys)
      returns (handled: nat, failed: bool, ghost steps: seq<Step>)
      requires Mirrors(store, s) && s.book.defaultRetries == maxRetries
      requires claim.Some? ==> AreDelivered(s.flow, claim.value.0) && |trips| == |claim.value.0|
      modifies this`cursor, store`flow
      ensures IsHonestRun(s, steps) && IsRun(s, steps) && Mirrors(store, After(s, steps))
      ensures claim.None? ==> failed && handled == 0 && steps == [] && cursor == old(cursor)
      ensures claim.Some? ==> cursor == if claim.value.1 == "" then "0-0" else claim.value.1
      ensures claim.Some? ==> AreRetries(steps, claim.value.0, maxRetries, reason, now)
      ensures claim.Some? && !failed ==> handled == |claim.value.0| == |steps|
      ensures claim.Some? && failed ==> handled < |claim.value.0| && !trips[handled].Answered? &&
                                        |steps| == handled + if trips[handled].ReplyLost? then 1 else 0
    {
      hide IsHonestRun, IsRun, After, RetryTask, NextAttempt, AreDelivered, Honest, Next;
      handled, failed, steps := 0, false, [];
      NoStepsYet(s);
      if claim.None? {
        return 0, true, [];
      }
      var (claimed, next) := claim.value;
      cursor := next;
      if next == "" {
        cursor := "0-0";
      }
      ghost var s' := s;
      while handled < |claimed|
        invariant handled == |steps| <= |claimed| && cursor == (if next == "" then "0-0" else next)
        invariant IsHonestRun(s, steps) && IsRun(s, steps) && s' == After(s, steps) && Mirrors(store, s')
        invariant AreDelivered(s'.flow, claimed) && s'.book == s.book
        invariant AreRetries(steps, claimed, maxRetries, reason, now)
      {
        if trips[handled].NeverArrived? {
          return handled, true, steps;
        }
        var (msg, entry) := claimed[handled];
        var budget := Budget(maxRetries, entry.task.maxRetries);
        DeliveredAt(s'.flow, claimed, handled);
        RetryKeepsDelivered(s'.flow, claimed, entry.task, budget, reason, now, Some(msg));
        RetryIsNext(s', msg, entry, budget, reason, now);
        var outcome, attempt := store.RetryOrDeadLetter(entry.task, budget, reason, now, Some(msg));
        ghost var step := Retry(msg, entry, budget, reason, now);
        HonestStep(s, steps, step);
        s', steps := Next(s', step), steps + [step];
        if trips[handled].ReplyLost? {
          return handled, true, steps;
        }
        handled := handled + 1;
      }
    }
  }

  /** The steps retry the claimed deliveries, in order, each under the budget its task carries or, if it carries none,
      the configured one. */
  ghost predicate AreRetries(steps: seq<Step>, claimed: seq<(int, ExecEntry)>, maxRetries: int, reason: string,
                             now: int)
  {
    && |steps| <= |claimed|
    && forall k :: 0 <= k < |steps| ==>
         && steps[k].Retry? && steps[k].msg == claimed[k].0 && steps[k].entry == claimed[k].1
         && steps[k].budget == (var own := claimed[k].1.task.maxRetries; if own > 0 then own else maxRetries)
         && steps[k].reason == reason && steps[k].now == now
  }

  lemma DeliveredAt(f: Flow, msgs: seq<(int, ExecEntry)>, k: nat)
    requires AreDelivered(f, msgs) && k < |msgs|
    ensures WasDelivered(f, msgs[k].0) && f.exec[msgs[k].0] == msgs[k].1
  {
  }

  lemma NoStepsYet(s: Sys)
    ensures IsHonestRun(s, []) && IsRun(s, []) && After(s, []) == s
  {
  }

  /** What a worker did with a delivery, as far as it knows. */
  datatype Handled = Abandoned | Retried(outcome: RetryOutcome) | Completed(recorded: bool) | Unknown

  const APPLICATION_ERROR := "worker reported an application error"

  lemma CompleteIsNext(s: Sys, msg: int, entry: ExecEntry, r: Result, now: int)
    requires WasDelivered(s.flow, msg) && s.flow.exec[msg] == entry && ReportsOn(r, entry)
    ensures Honest(s, Complete(msg, entry, r, now))
    ensures Next(s, Complete(msg, entry, r, now)) == s.(flow := CompleteTask(s.flow, r, now, Some(msg)))
  {
    hide CompleteTask;
  }

  /** Worker.execute after the work itself: a simulated crash leaves the delivery to recovery, a failure goes
      through the retry script, and success reports a result about this very attempt. When the call fails the
      worker does not know whether it took effect. */
  method Execute(store: Store, defaultRetries: int, consumer: string, msg: int, entry: ExecEntry, abandon: bool,
                 failed: bool, trip: Trip, started: int, finished: int, now: int, ghost s: Sys)
    returns (handled: Handled, ghost steps: seq<Step>)
    requires Mirrors(store, s) && s.book.defaultRetries == defaultRetries
    requires WasDelivered(s.flow, msg) && s.flow.exec[msg] == entry
    modifies store`flow
    ensures IsHonestRun(s, steps) && IsRun(s, steps) && Mirrors(store, After(s, steps))
    ensures handled.Abandoned? <==> abandon
    ensures steps == [] <==> abandon || trip.NeverArrived?
    ensures handled.Unknown? <==> !abandon && !trip.Answered?
    ensures steps != [] && failed ==> steps == [Retry(msg, entry, s.book.BudgetOf(entry.task), APPLICATION_ERROR, now)]
    ensures steps != [] && !failed ==>
              && |steps| == 1 && steps[0].Complete? && ReportsOn(steps[0].result, entry)
              && var r := steps[0].result;
              && r.taskId == entry.task.id && r.attemptId == entry.task.attemptId && r.tenant == entry.task.tenant
              && r.dispatchedAt == entry.dispatchedAt && r.deadline == entry.task.deadline
              && r.startedAt == started && r.finishedAt == finished && r.actualExecMillis == finished - started
              && r.worker == consumer
    ensures handled.Completed? ==> handled.recorded == (entry.task.id !in s.flow.done)
    ensures handled.Retried? ==> handled.outcome == RetryOutcomeOf(s.flow, entry.task, s.book.BudgetOf(entry.task))
  {
    hide IsHonestRun, IsRun, After, RetryTask, CompleteTask, Honest, Next, RetryOutcomeOf;
    NoStepsYet(s);
    steps := [];
    if abandon {
      return Abandoned, steps;
    }
    if trip.NeverArrived? {
      return Unknown, steps;
    }
    var task := entry.task;
    if failed {
      var budget := Budget(defaultRetries, task.maxRetries);
      RetryIsNext(s, msg, entry, budget, APPLICATION_ERROR, now);
      var outcome, attempt := store.RetryOrDeadLetter(task, budget, APPLICATION_ERROR, now, Some(msg));
      HonestStep(s, steps, Retry(msg, entry, budget, APPLICATION_ERROR, now));
      steps := steps + [Retry(msg, entry, budget, APPLICATION_ERROR, now)];
      return if trip.ReplyLost? then Unknown else Retried(outcome), steps;
    }
    var res := Result(task.id, task.attemptId, task.tenant, task.priority, task.submittedAt, entry.dispatchedAt,
                      started, finished, task.deadline, task.execMillis, finished - started, task.retryCount, consumer);
    CompleteIsNext(s, msg, entry, res, now);
    var recorded := store.Complete(res, now, Some(msg));
    HonestStep(s, steps, Complete(msg, entry, res, now));
    steps := steps + [Complete(msg, entry, res, now)];
    return if trip.ReplyLost? then Unknown else Completed(recorded), steps;
  }
}
