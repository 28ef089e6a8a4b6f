/** What the hand-off of tasks keeps, whatever its scripts are asked in whatever order
    (internal/broker/scripts.go:68-300, the retry budget of internal/recovery and internal/worker).

    Beside the store's own values there is history: every task as it was admitted, and for every execution
    entry the entry it retries. The invariant ties the two together: where each task is, that nothing is
    lost, that each outcome is recorded once, and that retries stay within budget. Each part of it names
    just the keys it is about, so that a script keeps the parts whose keys it leaves alone. */
module Handoff {
  import opened Text
  import opened Ordering
  import opened Store

  /** recovery.Loop.Budget and worker.retryBudget: zero means unset. */
  function Budget(defaultRetries: int, taskMaxRetries: int): int {
    if taskMaxRetries > 0 then taskMaxRetries else defaultRetries
  }

  /** time.Time's zero value in Unix milliseconds. */
  const ZERO_TIME: int := -62_135_596_800_000

  /** Task.Validate */
  predicate IsValid(t: Task) {
    && t.id != "" && t.tenant != "" && t.submittedAt != ZERO_TIME
    && t.execMillis >= 0 && 0 <= t.priority <= MAX_PRIORITY
    && t.maxRetries >= 0 && t.retryCount >= 0
  }

  function Max(a: int, b: int): int {
    if a > b then a else b
  }

  function Min(a: int, b: int): int {
    if a < b then a else b
  }

  /** Every task ever admitted, as it was admitted, and the retry budget of tasks that carry none. */
  datatype Book = Book(defaultRetries: int, origin: map<string, Task>)
  {
    function BudgetOf(t: Task): int {
      Budget(defaultRetries, t.maxRetries)
    }
  }

  /** For every execution entry, the entry it retries; `None` for a dispatch. */
  type Lineage = seq<Option<int>>

  // ---------- tasks ----------

  /** A retry changes nothing about the work itself. */
  predicate SameWork(a: Task, b: Task) {
    && a.id == b.id && a.tenant == b.tenant && a.submittedAt == b.submittedAt
    && a.execMillis == b.execMillis && a.priority == b.priority && a.deadline == b.deadline
  }

  /** t is an attempt at an admitted task: the same work, judged by the same budget, within it. */
  ghost predicate IsAttempt(b: Book, t: Task) {
    && t.id in b.origin
    && var o := b.origin[t.id];
    && SameWork(t, o)
    && b.BudgetOf(t) == b.BudgetOf(o)
    && o.retryCount <= t.retryCount <= Max(o.retryCount, b.BudgetOf(o))
  }

  ghost predicate IdsInv(payloads: map<string, Task>, done: map<string, int>, b: Book) {
    && b.defaultRetries >= 0
    && b.origin.Keys == payloads.Keys + done.Keys
    && (forall id :: id in payloads ==> id !in done)
    && (forall id :: id in b.origin ==> b.origin[id].id == id && IsValid(b.origin[id]))
    && (forall id :: id in payloads ==> payloads[id].id == id && IsAttempt(b, payloads[id]))
  }

  // ---------- the pending set ----------

  ghost predicate IsWaiting(pending: map<string, real>, b: Book, id: string) {
    id in b.origin && MemberFor(b.origin[id]) in pending
  }

  /** m is the member of an unfinished task that has never been dispatched. */
  ghost predicate IsMemberOf(payloads: map<string, Task>, pendingAge: map<string, int>, b: Book, m: string, id: string)
  {
    && TaskIdIn(m) == Some(id) && id in b.origin && m == MemberFor(b.origin[id])
    && id in payloads && payloads[id] == b.origin[id]
    && m in pendingAge && pendingAge[m] == b.origin[id].submittedAt
  }

  ghost predicate PendingInv(payloads: map<string, Task>, pending: map<string, real>, pendingAge: map<string, int>,
                             b: Book)
  {
    && pendingAge.Keys == pending.Keys
    && forall m :: m in pending ==> TaskIdIn(m).Some? && IsMemberOf(payloads, pendingAge, b, m, TaskIdIn(m).value)
  }

  // ---------- the execution stream ----------

  ghost predicate ExecInv(exec: seq<ExecEntry>, pending: map<string, real>, b: Book) {
    && (forall x :: 0 <= x < |exec| ==> IsAttempt(b, exec[x].task))
    && (forall x :: 0 <= x < |exec| ==> !IsWaiting(pending, b, exec[x].task.id))
  }

  ghost predicate MarksInv(length: int, execRead: int, execPel: set<int>) {
    && 0 <= execRead <= length
    && (forall x :: x in execPel ==> 0 <= x < execRead)
  }

  /** Entry x was dispatched as admitted, by a leader; or it is the next attempt after an earlier entry. */
  ghost predicate IsLinked(exec: seq<ExecEntry>, parents: Lineage, b: Book, x: int)
    requires 0 <= x < |exec| == |parents|
  {
    match parents[x]
    case None => exec[x].epoch.Some? && exec[x].task.id in b.origin && exec[x].task == b.origin[exec[x].task.id]
    case Some(y) =>
      && exec[x].epoch.None? && 0 <= y < x
      && exec[x].task == NextAttempt(exec[y].task, b.BudgetOf(exec[y].task))
  }

  ghost predicate LineageInv(exec: seq<ExecEntry>, parents: Lineage, b: Book) {
    |parents| == |exec| && forall x :: 0 <= x < |exec| ==> IsLinked(exec, parents, b, x)
  }

  /** Entry x carries the task and some worker still has to be given it, or still has to answer for it. */
  predicate IsOutstanding(exec: seq<ExecEntry>, execRead: int, execPel: set<int>, x: int, id: string) {
    0 <= x < |exec| && exec[x].task.id == id && (x >= execRead || x in execPel)
  }

  ghost predicate HasOutstanding(exec: seq<ExecEntry>, execRead: int, execPel: set<int>, id: string) {
    exists x :: IsOutstanding(exec, execRead, execPel, x, id)
  }

  /** Every unfinished task is waiting, or in some outstanding entry. */
  ghost predicate NothingLost(payloads: map<string, Task>, pending: map<string, real>, exec: seq<ExecEntry>,
                              execRead: int, execPel: set<int>, b: Book)
  {
    forall id :: id in payloads && !IsWaiting(pending, b, id) ==> HasOutstanding(exec, execRead, execPel, id)
  }

  // ---------- counters ----------

  ghost predicate CountersInv(f: Flow, b: Book) {
    && f.stats.admitted == |b.origin| == |f.payloads| + |f.done|
    && |f.payloads| == |f.pending| + f.inflight
    && |f.done| == f.stats.completed + f.stats.deadLettered
    && f.stats.completed == |f.results|
    && f.stats.deadLettered == |f.dead|
    && |f.exec| == f.stats.dispatched + f.stats.retried
  }

  // ---------- outcomes ----------

  function ResultsOf(results: seq<Result>, id: string): nat {
    if results == [] then 0
    else ResultsOf(results[..|results| - 1], id) + if results[|results| - 1].taskId == id then 1 else 0
  }

  function DeadLettersOf(dead: seq<DeadLetter>, id: string): nat {
    if dead == [] then 0
    else DeadLettersOf(dead[..|dead| - 1], id) + if dead[|dead| - 1].task.id == id then 1 else 0
  }

  /** Exactly one record for a finished task, none for any other. */
  ghost predicate OutcomesInv(results: seq<Result>, dead: seq<DeadLetter>, done: map<string, int>) {
    forall id :: ResultsOf(results, id) + DeadLettersOf(dead, id) == if id in done then 1 else 0
  }

  function CountOf(results: seq<Result>, tenant: string): int {
    if results == [] then 0
    else CountOf(results[..|results| - 1], tenant) + if results[|results| - 1].tenant == tenant then 1 else 0
  }

  function ServiceOf(results: seq<Result>, tenant: string): int {
    if results == [] then 0
    else ServiceOf(results[..|results| - 1], tenant) +
         (var r := results[|results| - 1];
          if r.tenant != tenant then 0 else if r.actualExecMillis > 0 then r.actualExecMillis else r.execMillis)
  }

  function MissedIn(results: seq<Result>): int {
    if results == [] then 0
    else MissedIn(results[..|results| - 1]) +
         (var r := results[|results| - 1]; if r.deadline.Some? && r.deadline.value < r.finishedAt then 1 else 0)
  }

  function Tally(m: map<string, int>, tenant: string): int {
    if tenant in m then m[tenant] else 0
  }

  ghost predicate TalliesInv(results: seq<Result>, tenantCount: map<string, int>, tenantService: map<string, int>,
                             missed: int)
  {
    && (forall tenant :: Tally(tenantCount, tenant) == CountOf(results, tenant))
    && (forall tenant :: Tally(tenantService, tenant) == ServiceOf(results, tenant))
    && missed == MissedIn(results)
  }

  /** A dead letter is about an admitted task that has used its whole budget. */
  ghost predicate IsExhausted(b: Book, r: DeadLetter) {
    && r.task.id in b.origin
    && SameWork(r.task, b.origin[r.task.id])
    && r.attempts == Max(b.origin[r.task.id].retryCount, b.BudgetOf(b.origin[r.task.id])) + 1
  }

  ghost predicate IsReported(b: Book, r: Result) {
    && r.taskId in b.origin
    && var o := b.origin[r.taskId];
    && r.tenant == o.tenant && r.priority == o.priority && r.submittedAt == o.submittedAt
    && r.deadline == o.deadline && r.execMillis == o.execMillis
    && o.retryCount <= r.retryCount <= Max(o.retryCount, b.BudgetOf(o))
  }

  ghost predicate RecordsInv(results: seq<Result>, dead: seq<DeadLetter>, b: Book) {
    && (forall n :: 0 <= n < |results| ==> IsReported(b, results[n]))
    && (forall n :: 0 <= n < |dead| ==> IsExhausted(b, dead[n]))
  }

  // ---------- the invariant ----------

  ghost predicate Inv(f: Flow, b: Book, parents: Lineage) {
    && IdsInv(f.payloads, f.done, b)
    && PendingInv(f.payloads, f.pending, f.pendingAge, b)
    && ExecInv(f.exec, f.pending, b)
    && MarksInv(|f.exec|, f.execRead, f.execPel)
    && LineageInv(f.exec, parents, b)
    && NothingLost(f.payloads, f.pending, f.exec, f.execRead, f.execPel, b)
    && CountersInv(f, b)
    && OutcomesInv(f.results, f.dead, f.done)
    && TalliesInv(f.results, f.tenantCount, f.tenantService, f.stats.deadlineMissed)
    && RecordsInv(f.results, f.dead, b)
  }

  lemma EmptyInv(defaultRetries: int)
    requires defaultRetries >= 0
    ensures Inv(EMPTY_FLOW, Book(defaultRetries, map[]), [])
  {
  }

  lemma MembersDiffer(a: Task, c: Task)
    requires a.id != c.id
    ensures MemberFor(a) != MemberFor(c)
  {
    MemberRoundTrip(a);
    MemberRoundTrip(c);
  }

  // ---------- admit ----------

  /** The book after admitting t under its id, which no admitted task has. */
  function Entered(b: Book, t: Task): Book {
    b.(origin := b.origin[t.id := t])
  }

  lemma EnteringKeepsAttempts(b: Book, t: Task, a: Task)
    requires t.id !in b.origin && IsAttempt(b, a)
    ensures IsAttempt(Entered(b, t), a)
  {
  }

  lemma AdmitKeepsIds(payloads: map<string, Task>, done: map<string, int>, b: Book, t: Task)
    requires IdsInv(payloads, done, b) && IsValid(t) && t.id !in b.origin
    ensures IdsInv(payloads[t.id := t], done, Entered(b, t))
  {
    var p', b' := payloads[t.id := t], Entered(b, t);
    forall id | id in p' ensures p'[id].id == id && IsAttempt(b', p'[id]) {
      if id != t.id {
        EnteringKeepsAttempts(b, t, payloads[id]);
      }
    }
  }

  lemma AdmitKeepsPending(payloads: map<string, Task>, pending: map<string, real>, pendingAge: map<string, int>,
                          b: Book,
                          t: Task, score: real)
    requires PendingInv(payloads, pending, pendingAge, b) && t.id !in b.origin
    ensures MemberFor(t) !in pending
    ensures PendingInv(payloads[t.id := t], pending[MemberFor(t) := score],
                       pendingAge[MemberFor(t) := t.submittedAt], Entered(b, t))
  {
    MemberRoundTrip(t);
    var p', a', b' := payloads[t.id := t], pendingAge[MemberFor(t) := t.submittedAt], Entered(b, t);
    forall m | m in pending[MemberFor(t) := score]
      ensures TaskIdIn(m).Some? && IsMemberOf(p', a', b', m, TaskIdIn(m).value)
    {
      if m != MemberFor(t) {
        assert IsMemberOf(payloads, pendingAge, b, m, TaskIdIn(m).value);
      }
    }
  }

  lemma AdmitKeepsExec(exec: seq<ExecEntry>, pending: map<string, real>, b: Book, t: Task, score: real)
    requires ExecInv(exec, pending, b) && t.id !in b.origin
    requires forall id :: id in b.origin ==> b.origin[id].id == id
    ensures ExecInv(exec, pending[MemberFor(t) := score], Entered(b, t))
  {
    forall x | 0 <= x < |exec|
      ensures IsAttempt(Entered(b, t), exec[x].task)
      ensures !IsWaiting(pending[MemberFor(t) := score], Entered(b, t), exec[x].task.id)
    {
      EnteringKeepsAttempts(b, t, exec[x].task);
      assert !IsWaiting(pending, b, exec[x].task.id);
      MembersDiffer(b.origin[exec[x].task.id], t);
    }
  }

  lemma AdmitKeepsLineage(exec: seq<ExecEntry>, parents: Lineage, b: Book, t: Task)
    requires LineageInv(exec, parents, b) && t.id !in b.origin
    ensures LineageInv(exec, parents, Entered(b, t))
  {
    forall x | 0 <= x < |exec| ensures IsLinked(exec, parents, Entered(b, t), x) {
      assert IsLinked(exec, parents, b, x);
    }
  }

  lemma AdmitLosesNothing(f: Flow, b: Book, t: Task, score: real)
    requires NothingLost(f.payloads, f.pending, f.exec, f.execRead, f.execPel, b) && f.payloads.Keys <= b.origin.Keys
    requires t.id !in b.origin
    ensures NothingLost(f.payloads[t.id := t], f.pending[MemberFor(t) := score], f.exec, f.execRead, f.execPel,
                        Entered(b, t))
  {
    forall id | id in f.payloads[t.id := t] && !IsWaiting(f.pending[MemberFor(t) := score], Entered(b, t), id)
      ensures HasOutstanding(f.exec, f.execRead, f.execPel, id)
    {
      assert id != t.id && !IsWaiting(f.pending, b, id);
    }
  }

  lemma AdmitKeepsRecords(results: seq<Result>, dead: seq<DeadLetter>, b: Book, t: Task)
    requires RecordsInv(results, dead, b) && t.id !in b.origin
    ensures RecordsInv(results, dead, Entered(b, t))
  {
    forall n | 0 <= n < |dead| ensures IsExhausted(Entered(b, t), dead[n]) {
      assert IsExhausted(b, dead[n]);
    }
    forall n | 0 <= n < |results| ensures IsReported(Entered(b, t), results[n]) {
      assert IsReported(b, results[n]);
    }
  }

  lemma AdmitKeepsCounters(f: Flow, b: Book, t: Task, key: Key)
    requires CountersInv(f, b) && !Known(f, t.id) && t.id !in b.origin && key.member !in f.pending
    ensures CountersInv(AdmitTask(f, t, key), Entered(b, t))
  {
  }

  /** The book after an admission that may find the task known already. */
  function AdmitBook(f: Flow, b: Book, t: Task): Book {
    if Known(f, t.id) then b else Entered(b, t)
  }

  lemma AdmitKeepsInv(f: Flow, b: Book, parents: Lineage, t: Task, key: Key)
    requires Inv(f, b, parents) && IsValid(t) && key.member == MemberFor(t)
    ensures Inv(AdmitTask(f, t, key), AdmitBook(f, b, t), parents)
  {
    if !Known(f, t.id) {
      assert t.id !in b.origin;
      AdmitKeepsIds(f.payloads, f.done, b, t);
      AdmitKeepsPending(f.payloads, f.pending, f.pendingAge, b, t, key.score);
      AdmitKeepsExec(f.exec, f.pending, b, t, key.score);
      AdmitKeepsLineage(f.exec, parents, b, t);
      AdmitLosesNothing(f, b, t, key.score);
      AdmitKeepsRecords(f.results, f.dead, b, t);
      AdmitKeepsCounters(f, b, t, key);
    }
  }

  // ---------- dispatch ----------

  /** A member popped from the pending set always has its payload: the branch of the dispatch script that
      would drop one silently is never taken. */
  lemma PoppedMemberHasPayload(f: Flow, b: Book, parents: Lineage)
    requires Inv(f, b, parents) && f.pending != map[]
    ensures |ReportOne(f)| == 1
    ensures IsMemberOf(f.payloads, f.pendingAge, b, Least(f.pending), ReportOne(f)[0].task.id)
    ensures var t := ReportOne(f)[0].task; t == b.origin[t.id] && IsAttempt(b, t)
  {
    hide ExecInv, LineageInv, NothingLost, OutcomesInv, TalliesInv, RecordsInv;
    var m := Least(f.pending);
    assert IsMemberOf(f.payloads, f.pendingAge, b, m, TaskIdIn(m).value);
  }

  lemma PayloadsAreInBook(f: Flow, b: Book, parents: Lineage)
    requires Inv(f, b, parents)
    ensures |parents| == |f.exec|
    ensures forall i :: i in f.payloads ==> i in b.origin && b.origin[i].id == i
  {
    hide PendingInv, ExecInv, NothingLost, CountersInv, OutcomesInv, TalliesInv, RecordsInv;
  }

  lemma HandOverKeepsPending(payloads: map<string, Task>, pending: map<string, real>, pendingAge: map<string, int>,
                             b: Book, m: string)
    requires PendingInv(payloads, pending, pendingAge, b)
    ensures PendingInv(payloads, pending - {m}, pendingAge - {m}, b)
  {
    forall x | x in pending - {m}
      ensures TaskIdIn(x).Some? && IsMemberOf(payloads, pendingAge - {m}, b, x, TaskIdIn(x).value)
    {
      assert IsMemberOf(payloads, pendingAge, b, x, TaskIdIn(x).value);
    }
  }

  lemma HandOverKeepsExec(exec: seq<ExecEntry>, pending: map<string, real>, b: Book, e: ExecEntry)
    requires ExecInv(exec, pending, b) && IsAttempt(b, e.task)
    ensures ExecInv(exec + [e], pending - {MemberFor(b.origin[e.task.id])}, b)
  {
    var pending' := pending - {MemberFor(b.origin[e.task.id])};
    forall x | 0 <= x < |exec + [e]|
      ensures IsAttempt(b, (exec + [e])[x].task) && !IsWaiting(pending', b, (exec + [e])[x].task.id)
    {
      if x < |exec| {
        assert IsAttempt(b, exec[x].task) && !IsWaiting(pending, b, exec[x].task.id);
      }
    }
  }

  lemma AppendKeepsLineage(exec: seq<ExecEntry>, parents: Lineage, b: Book, e: ExecEntry, parent: Option<int>)
    requires LineageInv(exec, parents, b) && IsLinked(exec + [e], parents + [parent], b, |exec|)
    ensures LineageInv(exec + [e], parents + [parent], b)
  {
    forall x | 0 <= x < |exec + [e]| ensures IsLinked(exec + [e], parents + [parent], b, x) {
      if x < |exec| {
        assert IsLinked(exec, parents, b, x);
      }
    }
  }

  lemma HandOverLosesNothing(f: Flow, b: Book, id: string, e: ExecEntry)
    requires NothingLost(f.payloads, f.pending, f.exec, f.execRead, f.execPel, b) && f.execRead <= |f.exec|
    requires id in b.origin && e.task.id == id && b.origin[id].id == id
    requires forall i :: i in f.payloads ==> i in b.origin && b.origin[i].id == i
    ensures NothingLost(f.payloads, f.pending - {MemberFor(b.origin[id])}, f.exec + [e], f.execRead, f.execPel, b)
  {
    var pending' := f.pending - {MemberFor(b.origin[id])};
    forall i | i in f.payloads && !IsWaiting(pending', b, i)
      ensures HasOutstanding(f.exec + [e], f.execRead, f.execPel, i)
    {
      if i == id {
        assert IsOutstanding(f.exec + [e], f.execRead, f.execPel, |f.exec|, i);
      } else {
        MembersDiffer(b.origin[i], b.origin[id]);
        assert !IsWaiting(f.pending, b, i);
        var x :| IsOutstanding(f.exec, f.execRead, f.execPel, x, i);
        assert IsOutstanding(f.exec + [e], f.execRead, f.execPel, x, i);
      }
    }
  }

  lemma HandOverKeepsCounters(f: Flow, b: Book, now: int, epoch: int)
    requires CountersInv(f, b) && f.pending != map[] && |ReportOne(f)| == 1
    ensures CountersInv(DispatchOne(f, now, epoch), b)
  {
    assert (f.pending - {Least(f.pending)}).Keys == f.pending.Keys - {Least(f.pending)};
  }

  lemma DispatchOneKeepsInv(f: Flow, b: Book, parents: Lineage, now: int, epoch: int)
    requires Inv(f, b, parents) && f.pending != map[]
    ensures Inv(DispatchOne(f, now, epoch), b, parents + [None])
  {
    hide IdsInv, PendingInv, ExecInv, LineageInv, NothingLost, CountersInv, OutcomesInv, TalliesInv, RecordsInv;
    PoppedMemberHasPayload(f, b, parents);
    PayloadsAreInBook(f, b, parents);
    var m, id := Least(f.pending), ReportOne(f)[0].task.id;
    var e := ExecEntry(b.origin[id], now, Some(epoch));
    HandOverLosesNothing(f, b, id, e);
    AppendKeepsLineage(f.exec, parents, b, e, None);
    HandOverKeepsPending(f.payloads, f.pending, f.pendingAge, b, m);
    HandOverKeepsExec(f.exec, f.pending, b, e);
    HandOverKeepsCounters(f, b, now, epoch);
  }

  /** The lineage after a dispatch that hands over `turns` tasks. */
  function Extended(parents: Lineage, turns: nat): Lineage
    decreases turns
  {
    if turns == 0 then parents else Extended(parents + [None], turns - 1)
  }

  lemma {:induction false} DispatchKeepsInv(f: Flow, b: Book, parents: Lineage, count: nat, cap: int, now: int,
                                            epoch: int)
    requires Inv(f, b, parents)
    ensures Inv(DispatchMany(f, count, cap, now, epoch), b, Extended(parents, |Report(f, count, cap, now, epoch)|))
    decreases count
  {
    hide Inv;
    if count > 0 && MayDispatch(f, cap) {
      assert |ReportOne(f)| == 1 by { PoppedMemberHasPayload(f, b, parents); }
      assert Inv(DispatchOne(f, now, epoch), b, parents + [None]) by { DispatchOneKeepsInv(f, b, parents, now, epoch); }
      DispatchKeepsInv(DispatchOne(f, now, epoch), b, parents + [None], count - 1, cap, now, epoch);
    }
  }

  // ---------- delivery ----------

  /** The positions from lo up to but not including hi. */
  function Range(lo: int, hi: int): (r: set<int>)
    ensures forall x :: x in r <==> lo <= x < hi
    decreases hi - lo
  {
    if hi <= lo then {} else Range(lo, hi - 1) + {hi - 1}
  }

  /** XREADGROUP ">": the next entries nobody has been given, each of them pending until acknowledged. */
  function ReadExec(f: Flow, count: nat): Flow {
    var upTo := Max(f.execRead, Min(f.execRead + count, |f.exec|));
    f.(execRead := upTo, execPel := f.execPel + Range(f.execRead, upTo))
  }

  lemma ReadingLosesNothing(f: Flow, b: Book, count: nat)
    requires NothingLost(f.payloads, f.pending, f.exec, f.execRead, f.execPel, b)
    ensures var f' := ReadExec(f, count);
            NothingLost(f.payloads, f.pending, f.exec, f'.execRead, f'.execPel, b)
  {
    var f' := ReadExec(f, count);
    forall i | i in f.payloads && !IsWaiting(f.pending, b, i)
      ensures HasOutstanding(f.exec, f'.execRead, f'.execPel, i)
    {
      var x :| IsOutstanding(f.exec, f.execRead, f.execPel, x, i);
      assert IsOutstanding(f.exec, f'.execRead, f'.execPel, x, i);
    }
  }

  lemma ReadExecKeepsInv(f: Flow, b: Book, parents: Lineage, count: nat)
    requires Inv(f, b, parents)
    ensures Inv(ReadExec(f, count), b, parents)
  {
    ReadingLosesNothing(f, b, count);
  }

  // ---------- finishing a task ----------

  /** Entry x has been delivered to some consumer. */
  ghost predicate WasDelivered(f: Flow, x: int) {
    0 <= x < f.execRead && x < |f.exec|
  }

  /** Acknowledging an entry loses nothing when its task is finished or has another outstanding entry. */
  lemma AckLosesNothing(f: Flow, b: Book, x: int, finished: string)
    requires NothingLost(f.payloads, f.pending, f.exec, f.execRead, f.execPel, b)
    requires 0 <= x < |f.exec| && f.exec[x].task.id == finished
    ensures NothingLost(f.payloads - {finished}, f.pending, f.exec, f.execRead, f.execPel - {x}, b)
  {
    forall i | i in f.payloads - {finished} && !IsWaiting(f.pending, b, i)
      ensures HasOutstanding(f.exec, f.execRead, f.execPel - {x}, i)
    {
      var y :| IsOutstanding(f.exec, f.execRead, f.execPel, y, i);
      assert IsOutstanding(f.exec, f.execRead, f.execPel - {x}, y, i);
    }
  }

  lemma FinishingKeepsIds(payloads: map<string, Task>, done: map<string, int>, b: Book, id: string, now: int)
    requires IdsInv(payloads, done, b) && id in payloads
    ensures IdsInv(payloads - {id}, done[id := now], b)
  {
  }

  lemma FinishingKeepsPending(payloads: map<string, Task>, pending: map<string, real>, pendingAge: map<string, int>,
                              b: Book, id: string)
    requires PendingInv(payloads, pending, pendingAge, b) && !IsWaiting(pending, b, id)
    ensures PendingInv(payloads - {id}, pending, pendingAge, b)
  {
    forall m | m in pending
      ensures TaskIdIn(m).Some? && IsMemberOf(payloads - {id}, pendingAge, b, m, TaskIdIn(m).value)
    {
      assert IsMemberOf(payloads, pendingAge, b, m, TaskIdIn(m).value);
    }
  }

  lemma FinishingMovesOne(payloads: map<string, Task>, done: map<string, int>, id: string, now: int)
    requires id in payloads && id !in done
    ensures |payloads - {id}| == |payloads| - 1 && |done[id := now]| == |done| + 1
  {
    assert (payloads - {id}).Keys == payloads.Keys - {id};
  }

  // ---------- complete ----------

  /** r is what Worker.execute reports for the entry: the fields it copies from the delivered task. */
  predicate ReportsOn(r: Result, e: ExecEntry) {
    && r.taskId == e.task.id && r.attemptId == e.task.attemptId && r.tenant == e.task.tenant
    && r.priority == e.task.priority && r.submittedAt == e.task.submittedAt && r.deadline == e.task.deadline
    && r.execMillis == e.task.execMillis && r.retryCount == e.task.retryCount && r.dispatchedAt == e.dispatchedAt
  }

  lemma CompleteKeepsOutcomes(results: seq<Result>, dead: seq<DeadLetter>, done: map<string, int>, r: Result, now: int)
    requires OutcomesInv(results, dead, done) && r.taskId !in done
    ensures OutcomesInv(results + [r], dead, done[r.taskId := now])
  {
    assert (results + [r])[..|results|] == results;
  }

  lemma CompleteKeepsTallies(results: seq<Result>, tenantCount: map<string, int>, tenantService: map<string, int>,
                             missed: int,
                             r: Result)
    requires TalliesInv(results, tenantCount, tenantService, missed)
    ensures TalliesInv(results + [r], Bump(tenantCount, r.tenant, 1), Bump(tenantService, r.tenant, r.Service()),
                       missed + if r.MissedDeadline() then 1 else 0)
  {
    assert (results + [r])[..|results|] == results;
  }

  lemma CompleteKeepsRecords(results: seq<Result>, dead: seq<DeadLetter>, b: Book, r: Result, e: ExecEntry)
    requires RecordsInv(results, dead, b) && IsAttempt(b, e.task) && ReportsOn(r, e)
    ensures RecordsInv(results + [r], dead, b)
  {
    assert IsReported(b, r);
  }

  lemma CompleteKeepsCounters(f: Flow, b: Book, r: Result, now: int, msg: Option<int>)
    requires CountersInv(f, b) && r.taskId in f.payloads && r.taskId !in f.done
    ensures CountersInv(CompleteTask(f, r, now, msg), b)
  {
    FinishingMovesOne(f.payloads, f.done, r.taskId, now);
  }

  lemma FinishedHasNoPayload(payloads: map<string, Task>, done: map<string, int>, b: Book, id: string)
    requires IdsInv(payloads, done, b) && id in done
    ensures payloads - {id} == payloads
  {
  }

  lemma SameCounters(f: Flow, b: Book, f': Flow)
    requires CountersInv(f, b)
    requires f' == f.(execPel := f'.execPel, stats := f.stats.(duplicateCompletions := f'.stats.duplicateCompletions))
    ensures CountersInv(f', b)
  {
  }

  /** An entry's task was admitted and is not waiting; unless it is finished, it has its payload. */
  lemma DeliveredTask(f: Flow, b: Book, parents: Lineage, x: int)
    requires Inv(f, b, parents) && 0 <= x < |f.exec|
    ensures var t := f.exec[x].task;
            && IsAttempt(b, t) && IsValid(b.origin[t.id]) && b.defaultRetries >= 0
            && !IsWaiting(f.pending, b, t.id) && (t.id !in f.done ==> t.id in f.payloads)
    ensures |parents| == |f.exec|
  {
    hide PendingInv, NothingLost, OutcomesInv, TalliesInv, RecordsInv;
  }

  lemma DuplicateKeepsInv(f: Flow, b: Book, parents: Lineage, x: int, f': Flow)
    requires Inv(f, b, parents) && WasDelivered(f, x) && f.exec[x].task.id in f.done
    requires f' == f.(execPel := f.execPel - {x},
                      stats := f.stats.(duplicateCompletions := f'.stats.duplicateCompletions))
    ensures Inv(f', b, parents)
  {
    hide IdsInv, PendingInv, ExecInv, LineageInv, NothingLost, CountersInv, OutcomesInv, TalliesInv, RecordsInv;
    var id := f.exec[x].task.id;
    AckLosesNothing(f, b, x, id);
    FinishedHasNoPayload(f.payloads, f.done, b, id);
    SameCounters(f, b, f');
  }

  lemma FirstCompletionKeepsInv(f: Flow, b: Book, parents: Lineage, x: int, r: Result, now: int, f': Flow)
    requires Inv(f, b, parents) && WasDelivered(f, x) && ReportsOn(r, f.exec[x])
    requires r.taskId !in f.done && f' == CompleteTask(f, r, now, Some(x))
    ensures Inv(f', b, parents)
  {
    hide IdsInv, PendingInv, ExecInv, LineageInv, NothingLost, CountersInv, OutcomesInv, TalliesInv, RecordsInv;
    DeliveredTask(f, b, parents, x);
    AckLosesNothing(f, b, x, r.taskId);
    FinishingKeepsIds(f.payloads, f.done, b, r.taskId, now);
    FinishingKeepsPending(f.payloads, f.pending, f.pendingAge, b, r.taskId);
    CompleteKeepsOutcomes(f.results, f.dead, f.done, r, now);
    CompleteKeepsTallies(f.results, f.tenantCount, f.tenantService, f.stats.deadlineMissed, r);
    CompleteKeepsRecords(f.results, f.dead, b, r, f.exec[x]);
    CompleteKeepsCounters(f, b, r, now, Some(x));
    assert f'.payloads == f.payloads - {r.taskId} && f'.done == f.done[r.taskId := now];
    assert f'.results == f.results + [r];
    assert f'.exec == f.exec && f'.execPel == f.execPel - {x} && f'.dead == f.dead;
  }

  lemma CompleteKeepsInv(f: Flow, b: Book, parents: Lineage, x: int, r: Result, now: int)
    requires Inv(f, b, parents) && WasDelivered(f, x) && ReportsOn(r, f.exec[x])
    ensures Inv(CompleteTask(f, r, now, Some(x)), b, parents)
  {
    hide Inv;
    if r.taskId in f.done {
      DuplicateKeepsInv(f, b, parents, x, CompleteTask(f, r, now, Some(x)));
    } else {
      FirstCompletionKeepsInv(f, b, parents, x, r, now, CompleteTask(f, r, now, Some(x)));
    }
  }

  // ---------- retry ----------

  lemma NextIsAttempt(b: Book, t: Task)
    requires IsAttempt(b, t) && IsValid(b.origin[t.id]) && b.defaultRetries >= 0
    requires t.retryCount + 1 <= b.BudgetOf(t)
    ensures IsAttempt(b, NextAttempt(t, b.BudgetOf(t)))
  {
  }

  /** A dead letter's attempt count is the whole budget and one more. */
  lemma DeadIsExhausted(b: Book, t: Task, reason: string, now: int)
    requires IsAttempt(b, t) && t.retryCount + 1 > b.BudgetOf(t)
    ensures IsExhausted(b, DeadLetter(t, reason, t.retryCount + 1, t.attemptId, now))
  {
  }

  lemma DeadKeepsOutcomes(results: seq<Result>, dead: seq<DeadLetter>, done: map<string, int>, r: DeadLetter, now: int)
    requires OutcomesInv(results, dead, done) && r.task.id !in done
    ensures OutcomesInv(results, dead + [r], done[r.task.id := now])
  {
    assert (dead + [r])[..|dead|] == dead;
  }

  lemma RedeliverKeepsIds(payloads: map<string, Task>, done: map<string, int>, b: Book, t: Task)
    requires IdsInv(payloads, done, b) && t.id in payloads && IsAttempt(b, t)
    ensures IdsInv(payloads[t.id := t], done, b)
  {
  }

  lemma RedeliverKeepsPending(payloads: map<string, Task>, pending: map<string, real>, pendingAge: map<string, int>,
                              b: Book, t: Task)
    requires PendingInv(payloads, pending, pendingAge, b) && !IsWaiting(pending, b, t.id)
    ensures PendingInv(payloads[t.id := t], pending, pendingAge, b)
  {
    forall m | m in pending
      ensures TaskIdIn(m).Some? && IsMemberOf(payloads[t.id := t], pendingAge, b, m, TaskIdIn(m).value)
    {
      assert IsMemberOf(payloads, pendingAge, b, m, TaskIdIn(m).value);
    }
  }

  lemma RedeliverKeepsExec(exec: seq<ExecEntry>, pending: map<string, real>, b: Book, e: ExecEntry)
    requires ExecInv(exec, pending, b) && IsAttempt(b, e.task) && !IsWaiting(pending, b, e.task.id)
    ensures ExecInv(exec + [e], pending, b)
  {
  }

  lemma RedeliverLosesNothing(f: Flow, b: Book, x: int, e: ExecEntry)
    requires NothingLost(f.payloads, f.pending, f.exec, f.execRead, f.execPel, b) && f.execRead <= |f.exec|
    requires 0 <= x < |f.exec| && f.exec[x].task.id == e.task.id
    ensures NothingLost(f.payloads[e.task.id := e.task], f.pending, f.exec + [e], f.execRead, f.execPel - {x}, b)
  {
    forall i | i in f.payloads[e.task.id := e.task] && !IsWaiting(f.pending, b, i)
      ensures HasOutstanding(f.exec + [e], f.execRead, f.execPel - {x}, i)
    {
      if i == e.task.id {
        assert IsOutstanding(f.exec + [e], f.execRead, f.execPel - {x}, |f.exec|, i);
      } else {
        var y :| IsOutstanding(f.exec, f.execRead, f.execPel, y, i);
        assert IsOutstanding(f.exec + [e], f.execRead, f.execPel - {x}, y, i);
      }
    }
  }

  /** The lineage after a retry of entry x. */
  function RetryLineage(f: Flow, parents: Lineage, t: Task, budget: int, x: int): Lineage {
    if RetryOutcomeOf(f, t, budget) == Redelivered then parents + [Some(x)] else parents
  }

  lemma DeadLetterKeepsCounters(f: Flow, b: Book, t: Task, budget: int, reason: string, now: int, msg: Option<int>)
    requires CountersInv(f, b) && t.id in f.payloads && RetryOutcomeOf(f, t, budget) == DeadLettered
    ensures CountersInv(RetryTask(f, t, budget, reason, now, msg), b)
  {
    FinishingMovesOne(f.payloads, f.done, t.id, now);
  }

  lemma DeadKeepsRecords(results: seq<Result>, dead: seq<DeadLetter>, b: Book, r: DeadLetter)
    requires RecordsInv(results, dead, b) && IsExhausted(b, r)
    ensures RecordsInv(results, dead + [r], b)
  {
  }

  lemma DeadLetterKeepsInv(f: Flow, b: Book, parents: Lineage, x: int, t: Task, reason: string, now: int)
    requires Inv(f, b, parents) && WasDelivered(f, x) && t == f.exec[x].task
    requires RetryOutcomeOf(f, t, b.BudgetOf(t)) == DeadLettered
    ensures Inv(RetryTask(f, t, b.BudgetOf(t), reason, now, Some(x)), b, parents)
  {
    hide Inv, IsExhausted, CountersInv;
    DeliveredTask(f, b, parents, x);
    DeadIsExhausted(b, t, reason, now);
    var r := DeadLetter(t, reason, t.retryCount + 1, t.attemptId, now);
    DeadLetterCounts(f, b, t, b.BudgetOf(t), reason, now, Some(x));
    RetiresByDeadLetter(f, b, parents, x, r, RetryTask(f, t, b.BudgetOf(t), reason, now, Some(x)));
  }

  lemma DeadLetterCounts(f: Flow, b: Book, t: Task, budget: int, reason: string, now: int, msg: Option<int>)
    requires t.id in f.payloads && RetryOutcomeOf(f, t, budget) == DeadLettered
    ensures var f' := RetryTask(f, t, budget, reason, now, msg);
            && f' == f.(execPel := Acked(f.execPel, msg), payloads := f.payloads - {t.id}, done := f.done[t.id := now],
                        dead := f.dead + [DeadLetter(t, reason, t.retryCount + 1, t.attemptId, now)],
                        stats := f'.stats, inflight := f'.inflight)
            && f'.stats.deadlineMissed == f.stats.deadlineMissed
            && (CountersInv(f, b) ==> CountersInv(f', b))
  {
    if CountersInv(f, b) {
      DeadLetterKeepsCounters(f, b, t, budget, reason, now, msg);
    }
  }

  lemma RetiresByDeadLetter(f: Flow, b: Book, parents: Lineage, x: int, r: DeadLetter, f': Flow)
    requires Inv(f, b, parents) && WasDelivered(f, x) && f.exec[x].task == r.task
    requires r.task.id in f.payloads && !IsWaiting(f.pending, b, r.task.id) && IsExhausted(b, r) && r.task.id !in f.done
    requires f' == f.(execPel := f.execPel - {x}, payloads := f.payloads - {r.task.id},
                      done := f.done[r.task.id := r.failedAt],
                      dead := f.dead + [r], stats := f'.stats, inflight := f'.inflight)
    requires f'.stats.deadlineMissed == f.stats.deadlineMissed && (CountersInv(f, b) ==> CountersInv(f', b))
    ensures Inv(f', b, parents)
  {
    hide IdsInv, PendingInv, ExecInv, LineageInv, NothingLost, CountersInv, OutcomesInv, TalliesInv, RecordsInv;
    hide IsExhausted;
    AckLosesNothing(f, b, x, r.task.id);
    FinishingKeepsIds(f.payloads, f.done, b, r.task.id, r.failedAt);
    FinishingKeepsPending(f.payloads, f.pending, f.pendingAge, b, r.task.id);
    DeadKeepsOutcomes(f.results, f.dead, f.done, r, r.failedAt);
    DeadKeepsRecords(f.results, f.dead, b, r);
  }

  lemma RedeliverKeepsInv(f: Flow, b: Book, parents: Lineage, x: int, t: Task, reason: string, now: int)
    requires Inv(f, b, parents) && WasDelivered(f, x) && t == f.exec[x].task
    requires RetryOutcomeOf(f, t, b.BudgetOf(t)) == Redelivered
    ensures Inv(RetryTask(f, t, b.BudgetOf(t), reason, now, Some(x)), b, parents + [Some(x)])
  {
    hide IdsInv, PendingInv, ExecInv, LineageInv, NothingLost, CountersInv, OutcomesInv, TalliesInv, RecordsInv;
    DeliveredTask(f, b, parents, x);
    var next := NextAttempt(t, b.BudgetOf(t));
    var e := ExecEntry(next, now, None);
    NextIsAttempt(b, t);
    AppendKeepsLineage(f.exec, parents, b, e, Some(x));
    RedeliverKeepsCounters(f, b, t, b.BudgetOf(t), reason, now, Some(x));
    RedeliverKeepsIds(f.payloads, f.done, b, next);
    RedeliverKeepsPending(f.payloads, f.pending, f.pendingAge, b, next);
    RedeliverKeepsExec(f.exec, f.pending, b, e);
    RedeliverLosesNothing(f, b, x, e);
  }

  lemma RedeliverKeepsCounters(f: Flow, b: Book, t: Task, budget: int, reason: string, now: int, msg: Option<int>)
    requires CountersInv(f, b) && t.id in f.payloads && RetryOutcomeOf(f, t, budget) == Redelivered
    ensures CountersInv(RetryTask(f, t, budget, reason, now, msg), b)
  {
  }

  lemma RetryKeepsInv(f: Flow, b: Book, parents: Lineage, x: int, t: Task, reason: string, now: int)
    requires Inv(f, b, parents) && WasDelivered(f, x) && t == f.exec[x].task
    ensures var budget := b.BudgetOf(t);
            Inv(RetryTask(f, t, budget, reason, now, Some(x)), b, RetryLineage(f, parents, t, budget, x))
  {
    hide Inv;
    match RetryOutcomeOf(f, t, b.BudgetOf(t))
    case AlreadyTerminal => DuplicateKeepsInv(f, b, parents, x, f.(execPel := f.execPel - {x}));
    case DeadLettered => DeadLetterKeepsInv(f, b, parents, x, t, reason, now);
    case Redelivered => RedeliverKeepsInv(f, b, parents, x, t, reason, now);
  }
}
