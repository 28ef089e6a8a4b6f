/** In what order the engine hands tasks over, over whole runs of the protocol (internal/broker/scripts.go:68-185,
    internal/scheduler/engine.go:308-456, internal/scheduler/wfq/wfq.go:45-59).

    A task waits under the score its admission carried until it is handed over. Of two waiting tasks the one with
    the lesser key reaches the execution stream first, whichever terms dispatch, in however many rounds. So the
    order in which a policy ranks tasks is the order in which they are handed over. */
module Dispatching {
  import opened Text
  import opened Ordering
  import opened Wfq
  import opened Store
  import opened Handoff
  import opened Protocol
  import opened Journey

  // ---------- waiting under the admitted score ----------

  /** Write n admitted the id as new, under this score. */
  predicate IsAdmission(log: seq<Write>, n: int, id: string, score: real) {
    0 <= n < |log| && log[n].Admission? && log[n].isNew && log[n].id == id && log[n].score == score
  }

  lemma {:induction false} AdmissionsCount(log: seq<Write>, n: int, id: string, score: real)
    requires IsAdmission(log, n, id, score)
    ensures AdmissionsOf(log, id) >= 1
  {
    if n < |log| - 1 {
      assert log[..|log| - 1][n] == log[n];
      AdmissionsCount(log[..|log| - 1], n, id, score);
    }
  }

  /** The one admission of an id is the one whose score counts. */
  lemma {:induction false} OneScoreIsGiven(log: seq<Write>, n: int, id: string, score: real)
    requires IsAdmission(log, n, id, score) && AdmissionsOf(log, id) == 1
    ensures ScoreGiven(log, id) == score
  {
    var rest, last := log[..|log| - 1], log[|log| - 1];
    if n < |log| - 1 {
      assert rest[n] == log[n];
      AdmissionsCount(rest, n, id, score);
      OneScoreIsGiven(rest, n, id, score);
    }
  }

  lemma {:induction false} SomeAdmission(log: seq<Write>, id: string) returns (n: int)
    requires AdmissionsOf(log, id) >= 1
    ensures IsAdmission(log, n, id, ScoreGiven(log, id))
  {
    var rest, last := log[..|log| - 1], log[|log| - 1];
    if last.Admission? && last.isNew && last.id == id {
      n := |log| - 1;
    } else {
      n := SomeAdmission(rest, id);
      assert rest[n] == log[n];
    }
  }

  /** In every run a waiting task stands in the pending set, under the member made of its submission time and id,
      with the score its one admission carried. */
  lemma WaitsUnderAdmittedScore(defaultRetries: int, steps: seq<Step>, id: string)
    requires defaultRetries >= 0 && IsHonestRun(Initial(defaultRetries), steps)
    ensures IsRun(Initial(defaultRetries), steps)
    ensures var s := After(Initial(defaultRetries), steps);
            IsWaiting(s.flow.pending, s.book, id) ==>
              var score := s.flow.pending[MemberFor(s.book.origin[id])];
              && (exists n :: IsAdmission(s.election.log, n, id, score))
              && (forall n, other :: IsAdmission(s.election.log, n, id, other) ==> other == score)
  {
    hide IntakeInv, Inv, After, IsHonestRun, IsRun, IsAdmission;
    var s := Reached(defaultRetries, steps);
    var log := s.election.log;
    if IsWaiting(s.flow.pending, s.book, id) {
      var n := SomeAdmission(log, id);
      forall n, other | IsAdmission(log, n, id, other) ensures other == ScoreGiven(log, id) {
        OneScoreIsGiven(log, n, id, other);
      }
    }
  }

  // ---------- who goes first ----------

  /** Entry x hands the task over for the first time; retries carry no epoch. */
  predicate IsDispatchOf(exec: seq<ExecEntry>, x: int, id: string) {
    0 <= x < |exec| && exec[x].epoch.Some? && exec[x].task.id == id
  }

  ghost predicate HasDispatch(exec: seq<ExecEntry>, id: string) {
    exists x :: IsDispatchOf(exec, x, id)
  }

  /** Wherever `later` is handed over, `sooner` has been handed over before. */
  ghost predicate GoesFirst(exec: seq<ExecEntry>, sooner: string, later: string) {
    forall n :: IsDispatchOf(exec, n, later) ==> exists m :: 0 <= m < n && IsDispatchOf(exec, m, sooner)
  }

  function KeyIn(pending: map<string, real>, b: Book, id: string): Key
    requires id in b.origin && MemberFor(b.origin[id]) in pending
  {
    Key(pending[MemberFor(b.origin[id])], MemberFor(b.origin[id]))
  }

  /** The task still waits under this key, or has been handed over. */
  ghost predicate Stands(pending: map<string, real>, exec: seq<ExecEntry>, b: Book, id: string, key: Key) {
    (IsWaiting(pending, b, id) && KeyIn(pending, b, id) == key) || HasDispatch(exec, id)
  }

  /** The task with the lesser key has been handed over first, or both still wait. */
  ghost predicate IsAhead(pending: map<string, real>, exec: seq<ExecEntry>, b: Book, sooner: string, k: Key,
                          later: string, l: Key) {
    && Stands(pending, exec, b, sooner, k)
    && (if HasDispatch(exec, sooner) then GoesFirst(exec, sooner, later)
        else IsWaiting(pending, b, later) && KeyIn(pending, b, later) == l)
  }

  // ---------- what keeps it ----------

  /** A pending set that still holds every waiting task under its key, and a book that still knows them. */
  ghost predicate KeepsWaiting(pending: map<string, real>, b: Book, pending': map<string, real>, b': Book) {
    forall id :: IsWaiting(pending, b, id) ==>
      IsWaiting(pending', b', id) && KeyIn(pending', b', id) == KeyIn(pending, b, id)
  }

  /** The stream only gets longer, and without a dispatch of a task not handed over yet. */
  ghost predicate Lengthens(exec: seq<ExecEntry>, exec': seq<ExecEntry>) {
    exec <= exec' && forall x :: |exec| <= x < |exec'| ==> exec'[x].epoch.None?
  }

  lemma LongerKeepsDispatch(exec: seq<ExecEntry>, exec': seq<ExecEntry>, id: string)
    requires exec <= exec'
    ensures HasDispatch(exec, id) ==> HasDispatch(exec', id)
    ensures Lengthens(exec, exec') && HasDispatch(exec', id) ==> HasDispatch(exec, id)
  {
    if HasDispatch(exec, id) {
      var x :| IsDispatchOf(exec, x, id);
      assert IsDispatchOf(exec', x, id);
    }
    if Lengthens(exec, exec') && HasDispatch(exec', id) {
      var x :| IsDispatchOf(exec', x, id);
      assert IsDispatchOf(exec, x, id);
    }
  }

  lemma LongerKeepsFirst(exec: seq<ExecEntry>, exec': seq<ExecEntry>, sooner: string, later: string)
    requires exec <= exec' && HasDispatch(exec, sooner) && GoesFirst(exec, sooner, later)
    ensures GoesFirst(exec', sooner, later)
  {
    var m0 :| IsDispatchOf(exec, m0, sooner);
    forall n | IsDispatchOf(exec', n, later) ensures exists m :: 0 <= m < n && IsDispatchOf(exec', m, sooner) {
      if n < |exec| {
        assert IsDispatchOf(exec, n, later);
        var m :| 0 <= m < n && IsDispatchOf(exec, m, sooner);
        assert IsDispatchOf(exec', m, sooner);
      } else {
        assert IsDispatchOf(exec', m0, sooner);
      }
    }
  }

  /** Whatever is not a dispatch keeps the order. */
  lemma OthersKeepOrder(pending: map<string, real>, exec: seq<ExecEntry>, b: Book, pending': map<string, real>,
                        exec': seq<ExecEntry>, b': Book, sooner: string, k: Key, later: string, l: Key)
    requires KeepsWaiting(pending, b, pending', b') && Lengthens(exec, exec')
    ensures Stands(pending, exec, b, sooner, k) ==> Stands(pending', exec', b', sooner, k)
    ensures IsAhead(pending, exec, b, sooner, k, later, l) ==> IsAhead(pending', exec', b', sooner, k, later, l)
  {
    hide IsDispatchOf, GoesFirst, IsWaiting, HasDispatch;
    LongerKeepsDispatch(exec, exec', sooner);
    if IsAhead(pending, exec, b, sooner, k, later, l) && HasDispatch(exec, sooner) {
      LongerKeepsFirst(exec, exec', sooner, later);
    }
  }

  // ---------- a dispatch ----------

  /** A waiting task has no entry yet, and one never admitted has none either. */
  lemma WaitingHasNoEntry(f: Flow, b: Book, id: string)
    requires IsSound(f, b) && (IsWaiting(f.pending, b, id) || id !in b.origin)
    ensures !HasDispatch(f.exec, id)
  {
  }

  /** e hands over the task at the least key. */
  ghost predicate TakesLeast(f: Flow, b: Book, e: ExecEntry) {
    && f.pending != map[] && e.epoch.Some? && e.task.id in b.origin
    && MemberFor(b.origin[e.task.id]) == Least(f.pending)
  }

  /** One turn hands over the task at the least key and leaves the others where they are. */
  lemma TurnTakesLeast(f: Flow, b: Book, parents: Lineage, now: int, epoch: int) returns (e: ExecEntry)
    requires Inv(f, b, parents) && f.pending != map[]
    ensures var g := DispatchOne(f, now, epoch);
            TakesLeast(f, b, e) && g.exec == f.exec + [e] && g.pending == f.pending - {Least(f.pending)}
  {
    hide Inv;
    PoppedMemberHasPayload(f, b, parents);
    e := ExecEntry(ReportOne(f)[0].task, now, Some(epoch));
  }

  lemma OtherStaysWaiting(f: Flow, b: Book, id: string, taken: string)
    requires IsSound(f, b) && IsWaiting(f.pending, b, id) && id != taken && taken in b.origin
    ensures var rest := f.pending - {MemberFor(b.origin[taken])};
            IsWaiting(rest, b, id) && KeyIn(rest, b, id) == KeyIn(f.pending, b, id)
  {
    MembersDiffer(b.origin[id], b.origin[taken]);
  }

  lemma TurnKeepsStanding(f: Flow, b: Book, e: ExecEntry, id: string, k: Key)
    requires IsSound(f, b) && TakesLeast(f, b, e) && Stands(f.pending, f.exec, b, id, k)
    ensures Stands(f.pending - {Least(f.pending)}, f.exec + [e], b, id, k)
  {
    hide IsSound, IsWaiting, Least;
    var exec' := f.exec + [e];
    if HasDispatch(f.exec, id) {
      LongerKeepsDispatch(f.exec, exec', id);
    } else if e.task.id == id {
      assert IsDispatchOf(exec', |f.exec|, id);
    } else {
      OtherStaysWaiting(f, b, id, e.task.id);
    }
  }

  /** Nothing with a greater key is the least. */
  lemma LesserIsTaken(pending: map<string, real>, b: Book, sooner: string, later: string)
    requires IsWaiting(pending, b, sooner) && IsWaiting(pending, b, later)
    requires KeyIn(pending, b, sooner).Less(KeyIn(pending, b, later))
    ensures pending != map[] && MemberFor(b.origin[later]) != Least(pending)
  {
    assert MemberFor(b.origin[sooner]) in pending;
    assert IsLeast(pending, pending.Keys, Least(pending));
  }

  /** The first dispatch of a task goes in front of every dispatch of one that has none yet. */
  lemma FirstIsFirst(exec: seq<ExecEntry>, e: ExecEntry, sooner: string, later: string)
    requires !HasDispatch(exec, later) && e.task.id == sooner != later
    ensures GoesFirst(exec + [e], sooner, later)
  {
    forall n ensures !IsDispatchOf(exec + [e], n, later) {
      assert !IsDispatchOf(exec, n, later);
    }
  }

  lemma TurnKeepsOrder(f: Flow, b: Book, e: ExecEntry, sooner: string, k: Key, later: string, l: Key)
    requires IsSound(f, b) && TakesLeast(f, b, e) && k.Less(l)
    requires IsAhead(f.pending, f.exec, b, sooner, k, later, l)
    ensures IsAhead(f.pending - {Least(f.pending)}, f.exec + [e], b, sooner, k, later, l)
  {
    hide IsSound, IsWaiting, GoesFirst, HasDispatch, Least;
    TurnKeepsStanding(f, b, e, sooner, k);
    if HasDispatch(f.exec, sooner) {
      LongerKeepsDispatch(f.exec, f.exec + [e], sooner);
      LongerKeepsFirst(f.exec, f.exec + [e], sooner, later);
    } else {
      KeyOrderIsTotal(k, l);
      LesserIsTaken(f.pending, b, sooner, later);
      WaitingHasNoEntry(f, b, later);
      if e.task.id == sooner {
        FirstIsFirst(f.exec, e, sooner, later);
        OwnEntry(f.exec, e);
      } else {
        OtherStaysWaiting(f, b, later, e.task.id);
        NotByOthers(f.exec, e, sooner);
      }
    }
  }

  lemma OwnEntry(exec: seq<ExecEntry>, e: ExecEntry)
    requires e.epoch.Some?
    ensures HasDispatch(exec + [e], e.task.id)
  {
    assert IsDispatchOf(exec + [e], |exec|, e.task.id);
  }

  lemma NotByOthers(exec: seq<ExecEntry>, e: ExecEntry, id: string)
    requires !HasDispatch(exec, id) && e.task.id != id
    ensures !HasDispatch(exec + [e], id)
  {
    forall x ensures !IsDispatchOf(exec + [e], x, id) {
      assert !IsDispatchOf(exec, x, id);
    }
  }

  lemma {:induction false} DispatchKeepsOrder(f: Flow, b: Book, parents: Lineage, count: nat, cap: int, now: int,
                                              epoch: int, sooner: string, k: Key, later: string, l: Key)
    requires Inv(f, b, parents) && k.Less(l)
    ensures var g := DispatchMany(f, count, cap, now, epoch);
            && (Stands(f.pending, f.exec, b, sooner, k) ==> Stands(g.pending, g.exec, b, sooner, k))
            && (IsAhead(f.pending, f.exec, b, sooner, k, later, l) ==>
                  IsAhead(g.pending, g.exec, b, sooner, k, later, l))
    decreases count
  {
    hide Inv, IsSound, TakesLeast, Stands, IsAhead, DispatchOne;
    if count > 0 && MayDispatch(f, cap) {
      var g := DispatchOne(f, now, epoch);
      DispatchOneKeepsInv(f, b, parents, now, epoch);
      InvIsSound(f, b, parents);
      var e := TurnTakesLeast(f, b, parents, now, epoch);
      if Stands(f.pending, f.exec, b, sooner, k) {
        TurnKeepsStanding(f, b, e, sooner, k);
      }
      if IsAhead(f.pending, f.exec, b, sooner, k, later, l) {
        TurnKeepsOrder(f, b, e, sooner, k, later, l);
      }
      DispatchKeepsOrder(g, b, parents + [None], count - 1, cap, now, epoch, sooner, k, later, l);
    }
  }

  // ---------- the other steps ----------

  lemma EnteringKeepsWaiting(f: Flow, b: Book, t: Task, score: real)
    requires IsSound(f, b)
    ensures KeepsWaiting(f.pending, b, AdmitTask(f, t, Key(score, MemberFor(t))).pending, AdmitBook(f, b, t))
  {
    hide ExecInv;
    var pending', b' := AdmitTask(f, t, Key(score, MemberFor(t))).pending, AdmitBook(f, b, t);
    forall id | IsWaiting(f.pending, b, id)
      ensures IsWaiting(pending', b', id) && KeyIn(pending', b', id) == KeyIn(f.pending, b, id)
    {
      if t.id != id {
        MembersDiffer(b.origin[id], t);
      }
    }
  }

  lemma CompletionLengthens(f: Flow, r: Result, now: int, msg: Option<int>)
    ensures Lengthens(f.exec, CompleteTask(f, r, now, msg).exec)
    ensures Lengthens(f.exec, f.exec)
  {
  }

  lemma RetryLengthens(f: Flow, t: Task, budget: int, reason: string, now: int, msg: Option<int>)
    ensures Lengthens(f.exec, RetryTask(f, t, budget, reason, now, msg).exec)
  {
    hide NextAttempt, Acked;
    match RetryOutcomeOf(f, t, budget)
    case AlreadyTerminal =>
    case DeadLettered =>
    case Redelivered =>
  }

  lemma AdmitNextIsNoDispatch(s: Sys, loop: int, batch: Batch, score: real, replyLost: bool)
    requires IsSound(s.flow, s.book) && batch.known.Some? && 0 <= batch.next < |batch.msgs|
    ensures var s' := AdmittedNext(s, loop, batch, score, replyLost);
            KeepsWaiting(s.flow.pending, s.book, s'.flow.pending, s'.book) && s'.flow.exec == s.flow.exec
  {
    hide IsSound, KeepsWaiting, IsValid, AdmitTask, AdmitBook;
    EnteringKeepsWaiting(s.flow, s.book, batch.msgs[batch.next].1, score);
    AdmittingIsNoDispatch(s.flow, batch.msgs[batch.next].1, score);
    SameKeepsWaiting(s.flow.pending, s.book);
  }

  lemma AdmittingIsNoDispatch(f: Flow, t: Task, score: real)
    ensures AdmitTask(f, t, Key(score, MemberFor(t))).exec == f.exec
  {
  }

  lemma SameKeepsWaiting(pending: map<string, real>, b: Book)
    ensures KeepsWaiting(pending, b, pending, b)
  {
  }

  lemma OtherStepsDispatchNothing(s: Sys, step: Step)
    requires IsSound(s.flow, s.book) && Honest(s, step) && !step.Dispatch?
    ensures var s' := Next(s, step);
            KeepsWaiting(s.flow.pending, s.book, s'.flow.pending, s'.book) && Lengthens(s.flow.exec, s'.flow.exec)
  {
    hide IsSound, KeepsWaiting, Lengthens, CompleteTask, RetryTask, Picked, Upwards, AdmittedNext;
    SameKeepsWaiting(s.flow.pending, s.book);
    SameLengthens(s.flow.exec);
    match step
    case AdmitNext(loop, score, replyLost) =>
      AdmitNextIsNoDispatch(s, loop, s.intake.batches[loop], score, replyLost);
    case Complete(msg, _, r, now) =>
      CompletionKeepsPending(s.flow, r, now, Some(msg));
      CompletionLengthens(s.flow, r, now, Some(msg));
    case Retry(msg, entry, budget, reason, now) =>
      RetryKeepsPending(s.flow, entry.task, budget, reason, now, Some(msg));
      RetryLengthens(s.flow, entry.task, budget, reason, now, Some(msg));
    case _ =>
  }

  lemma SameLengthens(exec: seq<ExecEntry>)
    ensures Lengthens(exec, exec)
  {
  }

  // ---------- whole runs ----------

  ghost predicate StandsIn(s: Sys, id: string, k: Key) {
    Stands(s.flow.pending, s.flow.exec, s.book, id, k)
  }

  ghost predicate IsAheadIn(s: Sys, sooner: string, k: Key, later: string, l: Key) {
    IsAhead(s.flow.pending, s.flow.exec, s.book, sooner, k, later, l)
  }

  lemma StepKeepsOrder(s: Sys, step: Step, sooner: string, k: Key, later: string, l: Key)
    requires Inv(s.flow, s.book, s.parents) && Honest(s, step) && k.Less(l)
    ensures StandsIn(s, sooner, k) ==> StandsIn(Next(s, step), sooner, k)
    ensures IsAheadIn(s, sooner, k, later, l) ==> IsAheadIn(Next(s, step), sooner, k, later, l)
  {
    hide Inv, IsSound, Stands, IsAhead, DispatchMany, KeepsWaiting, Lengthens;
    InvIsSound(s.flow, s.book, s.parents);
    var f, f' := s.flow, Next(s, step).flow;
    if step.Dispatch? {
      DispatchKeepsOrder(f, s.book, s.parents, step.count, step.cap, step.now, step.epoch, sooner, k, later, l);
    } else {
      OtherStepsDispatchNothing(s, step);
      hide Next;
      OthersKeepOrder(f.pending, f.exec, s.book, f'.pending, f'.exec, Next(s, step).book, sooner, k, later, l);
    }
  }

  lemma {:induction false} RunKeepsOrder(s: Sys, steps: seq<Step>, sooner: string, k: Key, later: string, l: Key)
    requires JourneyInv(s) && IsHonestRun(s, steps) && k.Less(l)
    ensures IsRun(s, steps) && JourneyInv(After(s, steps))
    ensures StandsIn(s, sooner, k) ==> StandsIn(After(s, steps), sooner, k)
    ensures IsAheadIn(s, sooner, k, later, l) ==> IsAheadIn(After(s, steps), sooner, k, later, l)
    decreases |steps|
  {
    hide Inv, IntakeInv, HistoryInv, ScoresInv, Next, StandsIn, IsAheadIn;
    RunKeepsJourney(s, steps);
    if steps != [] {
      StepKeepsOrder(s, steps[0], sooner, k, later, l);
      StepKeepsJourney(s, steps[0]);
      RunKeepsOrder(Next(s, steps[0]), steps[1..], sooner, k, later, l);
    }
  }

  lemma JourneyIsSound(s: Sys)
    requires JourneyInv(s)
    ensures IsSound(s.flow, s.book)
  {
    hide Inv, IsSound;
    InvIsSound(s.flow, s.book, s.parents);
  }

  lemma AheadGoesFirst(s: Sys, sooner: string, k: Key, later: string, l: Key)
    requires IsSound(s.flow, s.book) && IsAheadIn(s, sooner, k, later, l)
    ensures GoesFirst(s.flow.exec, sooner, later)
  {
    hide IsSound, IsWaiting;
    if !HasDispatch(s.flow.exec, sooner) {
      WaitingHasNoEntry(s.flow, s.book, later);
    }
  }

  /** The engine dispatches in key order, over whole runs. Take any two tasks waiting at some point of a run, and the
      scores their admissions carried. Whichever key is lesser, that task is handed over first, whatever happens from
      then on: more admissions, dispatches of any size by any terms, retries, crashes. */
  lemma DispatchFollowsAdmissions(defaultRetries: int, before: seq<Step>, s: Sys, later: seq<Step>,
                                  x: string, m: int, scoreX: real, y: string, n: int, scoreY: real)
    requires defaultRetries >= 0 && IsHonestRun(Initial(defaultRetries), before)
    requires IsRun(Initial(defaultRetries), before) && s == After(Initial(defaultRetries), before)
    requires IsHonestRun(s, later)
    requires IsWaiting(s.flow.pending, s.book, x) && IsAdmission(s.election.log, m, x, scoreX)
    requires IsWaiting(s.flow.pending, s.book, y) && IsAdmission(s.election.log, n, y, scoreY)
    requires Key(scoreX, MemberFor(s.book.origin[x])).Less(Key(scoreY, MemberFor(s.book.origin[y])))
    ensures IsRun(s, later) && GoesFirst(After(s, later).flow.exec, x, y)
  {
    hide JourneyInv, IsSound, After, IsHonestRun, IsRun, IsAdmission, GoesFirst, StandsIn, IsAheadIn;
    var s' := Reached(defaultRetries, before);
    WaitsUnderAdmittedScore(defaultRetries, before, x);
    WaitsUnderAdmittedScore(defaultRetries, before, y);
    var k, l := Key(scoreX, MemberFor(s.book.origin[x])), Key(scoreY, MemberFor(s.book.origin[y]));
    JourneyIsSound(s);
    BothWaiting(s, x, k, y, l);
    RunKeepsOrder(s, later, x, k, y, l);
    JourneyIsSound(After(s, later));
    AheadGoesFirst(After(s, later), x, k, y, l);
  }

  lemma BothWaiting(s: Sys, x: string, k: Key, y: string, l: Key)
    requires IsSound(s.flow, s.book)
    requires IsWaiting(s.flow.pending, s.book, x) && KeyIn(s.flow.pending, s.book, x) == k
    requires IsWaiting(s.flow.pending, s.book, y) && KeyIn(s.flow.pending, s.book, y) == l
    ensures IsAheadIn(s, x, k, y, l)
  {
    hide IsSound;
    WaitingHasNoEntry(s.flow, s.book, x);
  }

  // ---------- from admission on ----------

  /** The step admits t as new under this score. */
  ghost predicate Admits(s: Sys, step: Step, t: Task, score: real) {
    && step.AdmitNext? && step.score == score && Honest(s, step) && !Known(s.flow, t.id)
    && var b := s.intake.batches[step.loop];
    && b.msgs[b.next].1 == t && t.id !in b.known.value && IsValid(t) && !IsFenced(s.election.fence, b.epoch)
  }

  lemma AdmittedStands(s: Sys, step: Step, t: Task, score: real)
    requires Admits(s, step, t, score)
    ensures var s' := Next(s, step);
            && IsWaiting(s'.flow.pending, s'.book, t.id)
            && KeyIn(s'.flow.pending, s'.book, t.id) == Key(score, MemberFor(t))
  {
  }

  /** A task admitted behind one that stands is behind it. */
  lemma NextIsBehind(s: Sys, step: Step, u: Task, l: Key, sooner: string, k: Key)
    requires IsSound(s.flow, s.book) && Admits(s, step, u, l.score) && l.member == MemberFor(u)
    requires StandsIn(s, sooner, k)
    ensures IsAheadIn(Next(s, step), sooner, k, u.id, l)
  {
    hide Next, IsWaiting, KeyIn, KeepsWaiting, Lengthens, Stands, ExecInv, IsValid, HasDispatch, GoesFirst;
    var f, f' := s.flow, Next(s, step).flow;
    AdmittedStands(s, step, u, l.score);
    WaitingHasNoEntry(f, s.book, u.id);
    OtherStepsDispatchNothing(s, step);
    OthersKeepOrder(f.pending, f.exec, s.book, f'.pending, f'.exec, Next(s, step).book, sooner, k, u.id, l);
    NoNewDispatch(f.exec, f'.exec, sooner, u.id);
  }

  lemma NoNewDispatch(exec: seq<ExecEntry>, exec': seq<ExecEntry>, sooner: string, later: string)
    requires Lengthens(exec, exec') && !HasDispatch(exec, later)
    ensures GoesFirst(exec', sooner, later)
  {
    LongerKeepsDispatch(exec, exec', later);
    assert forall n :: !IsDispatchOf(exec', n, later);
  }

  /** A task that is admitted under a greater key than an earlier one, which may have been handed over meanwhile, is
      handed over after it. */
  lemma LaterKeyGoesAfter(defaultRetries: int, before: seq<Step>, s: Sys, first: Step, t: Task, k: Key,
                          between: seq<Step>, second: Step, u: Task, l: Key, later: seq<Step>)
    requires defaultRetries >= 0
    requires IsHonestRun(Initial(defaultRetries), before) && IsRun(Initial(defaultRetries), before)
    requires s == After(Initial(defaultRetries), before)
    requires Admits(s, first, t, k.score) && k.member == MemberFor(t)
    requires IsHonestRun(Next(s, first), between) && IsRun(Next(s, first), between)
    requires var s2 := After(Next(s, first), between);
             && Admits(s2, second, u, l.score) && l.member == MemberFor(u) && k.Less(l)
             && IsHonestRun(Next(s2, second), later) && IsRun(Next(s2, second), later)
    ensures GoesFirst(After(Next(After(Next(s, first), between), second), later).flow.exec, t.id, u.id)
  {
    hide JourneyInv, IsSound, Next, After, IsRun, IsHonestRun, IsAheadIn, IsWaiting, GoesFirst, Honest, Admits;
    var s' := Reached(defaultRetries, before);
    AdmitsIsHonest(s, first, t, k.score);
    var s1 := Next(s, first);
    var s2 := After(s1, between);
    AdmitsIsHonest(s2, second, u, l.score);
    var s3 := Next(s2, second);
    AdmittedStands(s, first, t, k.score);
    StepKeepsJourney(s, first);
    RunKeepsOrder(s1, between, t.id, k, u.id, l);
    JourneyIsSound(s2);
    NextIsBehind(s2, second, u, l, t.id, k);
    StepKeepsJourney(s2, second);
    RunKeepsOrder(s3, later, t.id, k, u.id, l);
    JourneyIsSound(After(s3, later));
    AheadGoesFirst(After(s3, later), t.id, k, u.id, l);
  }

  lemma AdmitsIsHonest(s: Sys, step: Step, t: Task, score: real)
    requires Admits(s, step, t, score)
    ensures Honest(s, step) && Enabled(s, step)
  {
  }

  /** Per-tenant order in the engine, over whole runs. Two tasks of a tenant are admitted in one term, which gives each
      the tag its policy makes: the earlier one c.Finish(t), the later one the tag made after any ranking and any
      notices in between. Whatever else happens, before, between and after, the later task is never handed over
      unless the earlier one has been. */
  lemma TenantOrderIsKept(defaultRetries: int, before: seq<Step>, s: Sys, first: Step, t: Task, c: Clock,
                          between: seq<Step>, heard: seq<ClockStep>, second: Step, u: Task, later: seq<Step>)
    requires defaultRetries >= 0 && t.tenant == u.tenant
    requires IsHonestRun(Initial(defaultRetries), before) && IsRun(Initial(defaultRetries), before)
    requires s == After(Initial(defaultRetries), before) && Admits(s, first, t, c.Finish(t))
    requires IsHonestRun(Next(s, first), between) && IsRun(Next(s, first), between)
    requires var s2 := After(Next(s, first), between);
             && Admits(s2, second, u, ClockRun(c.Ranked(t), heard).Finish(u))
             && IsHonestRun(Next(s2, second), later) && IsRun(Next(s2, second), later)
    ensures GoesFirst(After(Next(After(Next(s, first), between), second), later).flow.exec, t.id, u.id)
  {
    hide Next, After, IsRun, IsHonestRun, Admits, GoesFirst;
    LaterRanksHigher(c, t, heard, u);
    var k, l := Key(c.Finish(t), MemberFor(t)), Key(ClockRun(c.Ranked(t), heard).Finish(u), MemberFor(u));
    LaterKeyGoesAfter(defaultRetries, before, s, first, t, k, between, second, u, l, later);
  }
}
