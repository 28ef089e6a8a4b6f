/** The store and its atomic scripts (internal/broker/scripts.go, the argument building of
    internal/broker/broker.go, and the lease scripts of internal/lease/lease.go).

    `Store` is the namespace, updated in place by one method per script: its field `flow` holds the keys
    of the hand-off, the others the lease, the fence and the saved policy state. A Lua script is one atomic
    step, so a method body is the script, and each is proved against a function on values.

    JSON is the identity. A stream is a sequence whose entry ids are positions, with the consumer group's
    read position and its pending entries list. `max_len` is zero and leader election is on. */
module Store {
  import opened Text
  import opened Ordering
  import opened Wfq

  /** What became of a call to the store, as its caller would have it: a failed call may or may not have taken
      effect. */
  datatype Trip = Answered | ReplyLost | NeverArrived

  datatype ExecEntry = ExecEntry(task: Task, dispatchedAt: int, epoch: Option<int>)

  /** domain.Result without the two fields that are constant for completions. */
  datatype Result = Result(
    taskId: string, attemptId: string, tenant: string, priority: int,
    submittedAt: int, dispatchedAt: int, startedAt: int, finishedAt: int,
    deadline: Option<int>, execMillis: int, actualExecMillis: int, retryCount: int, worker: string)
  {
    predicate MissedDeadline() {
      deadline.Some? && finishedAt > deadline.value
    }

    /** The service a completion is credited with. */
    function Service(): int {
      if actualExecMillis <= 0 then execMillis else actualExecMillis
    }
  }

  datatype DeadLetter = DeadLetter(task: Task, reason: string, attempts: int, lastAttempt: string, failedAt: int)

  datatype Stats = Stats(
    admitted: int, dispatched: int, completed: int, retried: int,
    deadLettered: int, deadlineMissed: int, duplicateCompletions: int)

  datatype Flow = Flow(
    payloads: map<string, Task>,
    pending: map<string, real>,
    pendingAge: map<string, int>,
    done: map<string, int>,
    exec: seq<ExecEntry>,
    execRead: int,
    execPel: set<int>,
    results: seq<Result>,
    dead: seq<DeadLetter>,
    inflight: int,
    stats: Stats,
    tenantService: map<string, int>,
    tenantCount: map<string, int>)

  const NO_STATS := Stats(0, 0, 0, 0, 0, 0, 0)
  const EMPTY_FLOW := Flow(map[], map[], map[], map[], [], 0, {}, [], [], 0, NO_STATS, map[], map[])

  // ---------- small Redis commands ----------

  function Bump(m: map<string, int>, k: string, amount: int): map<string, int> {
    m[k := (if k in m then m[k] else 0) + amount]
  }

  /** XACK with the empty id is not sent; acknowledging an id that is not pending does nothing. */
  function Acked(pel: set<int>, id: Option<int>): set<int> {
    match id
    case None => pel
    case Some(x) => pel - {x}
  }

  ghost predicate IsLeast(pending: map<string, real>, members: set<string>, m: string)
    requires members <= pending.Keys
  {
    m in members && forall x :: x in members ==> AtMost(Key(pending[m], m), Key(pending[x], x))
  }

  lemma {:induction false} LeastExists(pending: map<string, real>, members: set<string>)
    requires members != {} && members <= pending.Keys
    ensures exists m :: IsLeast(pending, members, m)
  {
    var a :| a in members;
    var rest := members - {a};
    KeyOrderIsTotal(Key(pending[a], a), Key(pending[a], a));
    if rest == {} {
      assert forall x :: x in members && x != a ==> x in rest;
      assert IsLeast(pending, members, a);
    } else {
      LeastExists(pending, rest);
      var b :| IsLeast(pending, rest, b);
      KeyOrderIsTotal(Key(pending[a], a), Key(pending[b], b));
      if AtMost(Key(pending[a], a), Key(pending[b], b)) {
        forall x | x in members ensures AtMost(Key(pending[a], a), Key(pending[x], x)) {
          if x != a {
            AtMostIsTransitive(Key(pending[a], a), Key(pending[b], b), Key(pending[x], x));
          }
        }
        assert IsLeast(pending, members, a);
      } else {
        assert forall x :: x in members && x != a ==> x in rest;
        assert IsLeast(pending, members, b);
      }
    }
  }

  /** The member ZPOPMIN pops: least score, then least member. */
  ghost function Least(pending: map<string, real>): (m: string)
    requires pending != map[]
    ensures IsLeast(pending, pending.Keys, m)
  {
    assert pending.Keys != {} by {
      assert exists x :: x in pending;
    }
    LeastExists(pending, pending.Keys);
    var m :| IsLeast(pending, pending.Keys, m);
    m
  }

  lemma LeastIsUnique(pending: map<string, real>, m: string)
    requires pending != map[] && IsLeast(pending, pending.Keys, m)
    ensures m == Least(pending)
  {
    KeyOrderIsTotal(Key(pending[m], m), Key(pending[Least(pending)], Least(pending)));
  }

  // ---------- what the hand-off scripts do to a Flow ----------

  predicate Known(f: Flow, id: string) {
    id in f.done || id in f.payloads
  }

  function AdmitTask(f: Flow, t: Task, key: Key): Flow {
    if Known(f, t.id) then f
    else f.(payloads := f.payloads[t.id := t],
            pending := f.pending[key.member := key.score],
            pendingAge := f.pendingAge[key.member := t.submittedAt],
            stats := f.stats.(admitted := f.stats.admitted + 1))
  }

  /** One turn of the dispatch loop. */
  ghost function DispatchOne(f: Flow, now: int, epoch: int): Flow
    requires f.pending != map[]
  {
    var m := Least(f.pending);
    var rest := f.(pending := f.pending - {m}, pendingAge := f.pendingAge - {m});
    match TaskIdIn(m)
    case None => rest
    case Some(id) =>
      if id !in f.payloads then rest
      else rest.(exec := f.exec + [ExecEntry(f.payloads[id], now, Some(epoch))],
                 stats := f.stats.(dispatched := f.stats.dispatched + 1),
                 inflight := f.inflight + 1)
  }

  predicate MayDispatch(f: Flow, cap: int) {
    (cap > 0 ==> f.inflight < cap) && f.pending != map[]
  }

  ghost function DispatchMany(f: Flow, count: nat, cap: int, now: int, epoch: int): Flow
    decreases count
  {
    if count == 0 || !MayDispatch(f, cap) then f
    else DispatchMany(DispatchOne(f, now, epoch), count - 1, cap, now, epoch)
  }

  datatype Dispatched = Dispatched(key: Key, task: Task)

  /** What one turn reports: nothing when the popped member has no payload. */
  ghost function ReportOne(f: Flow): seq<Dispatched>
    requires f.pending != map[]
  {
    var m := Least(f.pending);
    match TaskIdIn(m)
    case None => []
    case Some(id) => if id in f.payloads then [Dispatched(Key(f.pending[m], m), f.payloads[id])] else []
  }

  ghost function Report(f: Flow, count: nat, cap: int, now: int, epoch: int): seq<Dispatched>
    decreases count
  {
    if count == 0 || !MayDispatch(f, cap) then []
    else ReportOne(f) + Report(DispatchOne(f, now, epoch), count - 1, cap, now, epoch)
  }

  /** The dispatch loop, turn by turn. */
  lemma OneTurn(f: Flow, count: nat, cap: int, now: int, epoch: int)
    ensures count > 0 && MayDispatch(f, cap) ==>
              && DispatchMany(f, count, cap, now, epoch) ==
                 DispatchMany(DispatchOne(f, now, epoch), count - 1, cap, now, epoch)
              && Report(f, count, cap, now, epoch) ==
                 ReportOne(f) + Report(DispatchOne(f, now, epoch), count - 1, cap, now, epoch)
    ensures count == 0 || !MayDispatch(f, cap) ==>
              DispatchMany(f, count, cap, now, epoch) == f && Report(f, count, cap, now, epoch) == []
  {
    hide DispatchOne, ReportOne;
  }

  function CompleteTask(f: Flow, r: Result, now: int, msg: Option<int>): Flow {
    var acked := f.(execPel := Acked(f.execPel, msg));
    if r.taskId in f.done then
      acked.(stats := f.stats.(duplicateCompletions := f.stats.duplicateCompletions + 1))
    else
      acked.(done := f.done[r.taskId := now],
             payloads := f.payloads - {r.taskId},
             results := f.results + [r],
             stats := f.stats.(completed := f.stats.completed + 1,
                               deadlineMissed := f.stats.deadlineMissed + if r.MissedDeadline() then 1 else 0),
             tenantService := Bump(f.tenantService, r.tenant, r.Service()),
             tenantCount := Bump(f.tenantCount, r.tenant, 1),
             inflight := f.inflight - 1)
  }

  /** The attempt that follows `t`: one more retry, with the budget it is judged by written into it. */
  function NextAttempt(t: Task, budget: int): Task {
    t.(retryCount := t.retryCount + 1,
       maxRetries := budget,
       attemptId := t.id + "#" + Signed(t.retryCount + 1))
  }

  /** An attempt id is the task's id, a hash sign and the number of the retry. */
  lemma AttemptIdEndsInNumber(t: Task, budget: int)
    requires t.retryCount >= 0
    ensures var a := NextAttempt(t, budget).attemptId;
            && |t.id| + 1 <= |a| && a[..|t.id| + 1] == t.id + "#"
            && ParseDecimal(a[|t.id| + 1..]) == t.retryCount + 1
  {
    var number := Decimal(t.retryCount + 1);
    assert (t.id + "#" + number)[|t.id| + 1..] == number;
    ParseUndoesDecimal(t.retryCount + 1);
  }

  /** Attempt ids of one task's retries tell the attempts apart. */
  lemma AttemptIdNamesAttempt(t: Task, u: Task, budgetT: int, budgetU: int)
    requires t.id == u.id && t.retryCount >= 0 && u.retryCount >= 0
    ensures NextAttempt(t, budgetT).attemptId == NextAttempt(u, budgetU).attemptId <==> t.retryCount == u.retryCount
  {
    hide ParseDecimal, Decimal;
    AttemptIdEndsInNumber(t, budgetT);
    AttemptIdEndsInNumber(u, budgetU);
  }

  datatype RetryOutcome = AlreadyTerminal | Redelivered | DeadLettered

  function RetryOutcomeOf(f: Flow, t: Task, budget: int): RetryOutcome {
    if t.id in f.done then AlreadyTerminal
    else if t.retryCount + 1 > budget then DeadLettered
    else Redelivered
  }

  function RetryTask(f: Flow, t: Task, budget: int, reason: string, now: int, msg: Option<int>): Flow {
    var acked := f.(execPel := Acked(f.execPel, msg));
    match RetryOutcomeOf(f, t, budget)
    case AlreadyTerminal => acked
    case DeadLettered =>
      acked.(dead := f.dead + [DeadLetter(t, reason, t.retryCount + 1, t.attemptId, now)],
             payloads := f.payloads - {t.id},
             done := f.done[t.id := now],
             stats := f.stats.(deadLettered := f.stats.deadLettered + 1),
             inflight := f.inflight - 1)
    case Redelivered =>
      acked.(payloads := f.payloads[t.id := NextAttempt(t, budget)],
             exec := f.exec + [ExecEntry(NextAttempt(t, budget), now, None)],
             stats := f.stats.(retried := f.stats.retried + 1))
  }

  // ---------- the fence ----------

  predicate IsFenced(fence: int, epoch: int) {
    epoch > 0 && epoch < fence
  }

  function FenceAfter(fence: int, epoch: int): int {
    if epoch > 0 && epoch > fence then epoch else fence
  }

  // ---------- the lease value ----------

  /** "<owner>|<epoch>" */
  function HolderValue(owner: string, epoch: nat): string {
    owner + [SEPARATOR] + Decimal(epoch)
  }

  /** Owner and epoch of a holder value: cut at the last separator, because an owner may contain one. */
  function SplitOf(v: string): (string, int) {
    var i := LastIndex(v);
    if i < 0 then (v, 0) else (v[..i], ParseInt(v[i + 1..]))
  }

  /** splitHolder, and the same scan in Broker.Leadership. */
  method SplitHolder(v: string) returns (owner: string, epoch: int)
    ensures SEPARATOR !in v ==> owner == v && epoch == 0
    ensures SEPARATOR in v ==>
              exists k :: 0 <= k < |v| && v[k] == SEPARATOR && SEPARATOR !in v[k + 1..] && owner == v[..k] &&
                          epoch == ParseInt(v[k + 1..])
    ensures (owner, epoch) == SplitOf(v)
  {
    var i := LastSeparator(v);
    if i < 0 {
      return v, 0;
    }
    owner, epoch := v[..i], ParseInt(v[i + 1..]);
  }

  /** The last separator of a holder value is the one before the epoch. */
  lemma EpochFollowsLastSeparator(owner: string, epoch: nat)
    ensures var v := HolderValue(owner, epoch);
            && |owner| < |v| && v[|owner|] == SEPARATOR && v[..|owner|] == owner
            && v[|owner| + 1..] == Decimal(epoch)
            && forall k :: |owner| < k < |v| ==> v[k] != SEPARATOR
  {
    DecimalIsDigits(epoch);
    var v := HolderValue(owner, epoch);
    forall k | |owner| < k < |v| ensures v[k] != SEPARATOR {
      assert v[k] == Decimal(epoch)[k - |owner| - 1];
    }
  }

  /** Splitting undoes joining, whatever the owner is called. */
  lemma SplitUndoesHolderValue(owner: string, epoch: nat)
    ensures SplitOf(HolderValue(owner, epoch)) == (owner, epoch)
  {
    EpochFollowsLastSeparator(owner, epoch);
    ParseIntUndoesDecimal(epoch);
    assert LastIndex(HolderValue(owner, epoch)) == |owner|;
  }

  /** A value names one grant: no two epochs, and no two owners, give the same value. */
  lemma HolderValueIsInjective(o1: string, e1: nat, o2: string, e2: nat)
    requires HolderValue(o1, e1) == HolderValue(o2, e2)
    ensures o1 == o2 && e1 == e2
  {
    SplitUndoesHolderValue(o1, e1);
    SplitUndoesHolderValue(o2, e2);
  }

  // ---------- saved policy state ----------

  /** HSET of alternating field and value arguments into an empty hash. */
  function FieldsOf(args: seq<(string, Field)>): map<string, Field> {
    if args == [] then map[] else FieldsOf(args[..|args| - 1])[args[|args| - 1].0 := args[|args| - 1].1]
  }

  /** ZPOPMIN pending 1: the member it takes. */
  method PopLeast(pending: map<string, real>) returns (member: string)
    requires pending != map[]
    ensures member == Least(pending)
  {
    assert pending.Keys != {} by {
      assert exists x :: x in pending;
    }
    LeastExists(pending, pending.Keys);
    assert exists m :: m in pending.Keys && IsLeast(pending, pending.Keys, m);
    member :| member in pending.Keys &&
              forall x :: x in pending.Keys ==> !Key(pending[x], x).Less(Key(pending[member], member));
    assert IsLeast(pending, pending.Keys, member);
    LeastIsUnique(pending, member);
  }

  // ---------- the namespace ----------

  /** The namespace. A script works on its own view of the hand-off keys and its writes take effect
      together, which is what running atomically inside Redis means. */
  class Store {
    var holder: Option<string>
    var leaderEpoch: int
    var fence: int
    var schedState: map<string, Field>
    /** The keys the hand-off scripts share. */
    var flow: Flow

    constructor ()
      ensures flow == EMPTY_FLOW && holder == None && leaderEpoch == 0 && fence == 0 && schedState == map[]
    {
      holder, leaderEpoch, fence := None, 0, 0;
      flow, schedState := EMPTY_FLOW, map[];
    }

    /** fenceGuard */
    method Fenced(epoch: int) returns (refused: bool)
      modifies this`fence
      ensures refused <==> 0 < epoch < old(fence)
      ensures fence == if 0 < epoch && old(fence) < epoch then epoch else old(fence)
      ensures refused == IsFenced(old(fence), epoch) && fence == FenceAfter(old(fence), epoch)
    {
      if epoch <= 0 {
        return false;
      }
      if epoch < fence {
        return true;
      }
      if epoch > fence {
        fence := epoch;
      }
      return false;
    }

    /** admitScript, called by Broker.Admit. `None` is ErrFenced. */
    method Admit(t: Task, key: Key, epoch: int) returns (admitted: Option<bool>)
      modifies this`fence, this`flow
      ensures admitted.None? <==> IsFenced(old(fence), epoch)
      ensures fence == FenceAfter(old(fence), epoch)
      ensures admitted.Some? ==> (admitted.value <==> t.id !in old(flow.payloads) && t.id !in old(flow.done))
      ensures admitted == Some(true) ==>
                && flow.pending == old(flow.pending)[key.member := key.score]
                && flow.pendingAge == old(flow.pendingAge)[key.member := t.submittedAt]
                && flow.payloads == old(flow.payloads)[t.id := t]
      ensures admitted != Some(true) ==> flow == old(flow)
      ensures flow == if admitted.None? then old(flow) else AdmitTask(old(flow), t, key)
    {
      var refused := Fenced(epoch);
      if refused {
        return None;
      }
      var f := flow;
      if t.id in f.done {
        return Some(false);
      }
      if t.id in f.payloads {
        return Some(false);
      }
      f := f.(payloads := f.payloads[t.id := t]);
      f := f.(pending := f.pending[key.member := key.score]);
      f := f.(pendingAge := f.pendingAge[key.member := t.submittedAt]);
      f := f.(stats := f.stats.(admitted := f.stats.admitted + 1));
      flow := f;
      return Some(true);
    }

    /** dispatchScript, called by Broker.Dispatch. `None` is ErrFenced. */
    method Dispatch(maxCount: nat, maxInFlight: int, now: int, epoch: int) returns (out: Option<seq<Dispatched>>)
      modifies this`fence, this`flow
      ensures out.None? <==> IsFenced(old(fence), epoch)
      ensures fence == FenceAfter(old(fence), epoch)
      ensures flow == if out.None? then old(flow) else DispatchMany(old(flow), maxCount, maxInFlight, now, epoch)
      ensures out.Some? ==> out.value == Report(old(flow), maxCount, maxInFlight, now, epoch)
    {
      hide IsFenced, FenceAfter, DispatchOne, ReportOne, DispatchMany, Report;
      var refused := Fenced(epoch);
      if refused {
        return None;
      }
      var f := flow;
      var list: seq<Dispatched> := [];
      var i := 0;
      while i < maxCount
        invariant i <= maxCount
        invariant flow == old(flow) && fence == FenceAfter(old(fence), epoch)
        invariant DispatchMany(flow, maxCount, maxInFlight, now, epoch) ==
                  DispatchMany(f, maxCount - i, maxInFlight, now, epoch)
        invariant Report(flow, maxCount, maxInFlight, now, epoch) ==
                  list + Report(f, maxCount - i, maxInFlight, now, epoch)
      {
        OneTurn(f, maxCount - i, maxInFlight, now, epoch);
        if maxInFlight > 0 {
          if f.inflight >= maxInFlight {
            break;
          }
        }
        if f.pending == map[] {
          break;
        }
        var triple;
        f, triple := DispatchTurn(f, now, epoch);
        list := list + triple;
        i := i + 1;
      }
      OneTurn(f, maxCount - i, maxInFlight, now, epoch);
      flow := f;
      out := Some(list);
    }

    /** The body of the dispatch loop, once it has found the pending set non-empty. */
    static method DispatchTurn(start: Flow, now: int, epoch: int) returns (f: Flow, triple: seq<Dispatched>)
      requires start.pending != map[]
      ensures f == DispatchOne(start, now, epoch) && triple == ReportOne(start)
    {
      f, triple := start, [];
      var member := PopLeast(f.pending);
      var score := f.pending[member];
      f := f.(pending := f.pending - {member});
      f := f.(pendingAge := f.pendingAge - {member});
      var id := TaskIdFromMember(member);
      if id.Some? && id.value in f.payloads {
        var payload := f.payloads[id.value];
        f := f.(exec := f.exec + [ExecEntry(payload, now, Some(epoch))]);
        f := f.(stats := f.stats.(dispatched := f.stats.dispatched + 1));
        f := f.(inflight := f.inflight + 1);
        triple := [Dispatched(Key(score, member), payload)];
      }
    }

    /** completeScript with the arguments Broker.Complete computes. */
    method Complete(r: Result, now: int, msg: Option<int>) returns (recorded: bool)
      modifies this`flow
      ensures recorded <==> r.taskId !in old(flow.done)
      ensures forall x :: x in flow.execPel <==> x in old(flow.execPel) && msg != Some(x)
      ensures recorded ==>
                && flow.done == old(flow.done)[r.taskId := now] && flow.results == old(flow.results) + [r]
                && flow.payloads == old(flow.payloads) - {r.taskId}
      ensures !recorded ==> flow == old(flow).(
                execPel := flow.execPel,
                stats := old(flow.stats).(duplicateCompletions := old(flow.stats.duplicateCompletions) + 1))
      ensures flow == CompleteTask(old(flow), r, now, msg)
    {
      var missed := 0;
      if r.MissedDeadline() {
        missed := 1;
      }
      var service := r.actualExecMillis;
      if service <= 0 {
        service := r.execMillis;
      }
      var f := flow;
      recorded := false;
      if r.taskId !in f.done {
        f := f.(done := f.done[r.taskId := now]);
        f := f.(payloads := f.payloads - {r.taskId});
        f := f.(results := f.results + [r]);
        f := f.(stats := f.stats.(completed := f.stats.completed + 1));
        if missed == 1 {
          f := f.(stats := f.stats.(deadlineMissed := f.stats.deadlineMissed + 1));
        }
        f := f.(tenantService := Bump(f.tenantService, r.tenant, service));
        f := f.(tenantCount := Bump(f.tenantCount, r.tenant, 1));
        f := f.(inflight := f.inflight - 1);
        recorded := true;
      } else {
        f := f.(stats := f.stats.(duplicateCompletions := f.stats.duplicateCompletions + 1));
      }
      f := f.(execPel := Acked(f.execPel, msg));
      flow := f;
    }

    /** retryScript with the arguments Broker.RetryOrDeadLetter computes. */
    method RetryOrDeadLetter(t: Task, budget: int, reason: string, now: int, msg: Option<int>)
      returns (outcome: RetryOutcome, next: Task)
      modifies this`flow
      ensures next == t.(retryCount := t.retryCount + 1, maxRetries := budget, attemptId := next.attemptId)
      ensures forall x :: x in flow.execPel <==> x in old(flow.execPel) && msg != Some(x)
      ensures outcome.AlreadyTerminal? <==> t.id in old(flow.done)
      ensures outcome.AlreadyTerminal? ==> flow == old(flow).(execPel := flow.execPel)
      ensures outcome.DeadLettered? <==> t.id !in old(flow.done) && t.retryCount >= budget
      ensures outcome.DeadLettered? ==>
                && flow.dead == old(flow.dead) + [DeadLetter(t, reason, t.retryCount + 1, t.attemptId, now)]
                && flow.done == old(flow.done)[t.id := now] && flow.payloads == old(flow.payloads) - {t.id}
                && flow.exec == old(flow.exec)
      ensures outcome.Redelivered? ==>
                && flow.exec == old(flow.exec) + [ExecEntry(next, now, None)]
                && flow.payloads == old(flow.payloads)[t.id := next] && flow.done == old(flow.done)
      ensures flow == RetryTask(old(flow), t, budget, reason, now, msg)
      ensures outcome == RetryOutcomeOf(old(flow), t, budget) && next == NextAttempt(t, budget)
    {
      next := NextAttempt(t, budget);
      var isDead := next.retryCount > budget;
      var record := DeadLetter(t, reason, t.retryCount + 1, t.attemptId, now);
      var f := flow;
      if t.id in f.done {
        outcome := AlreadyTerminal;
      } else if isDead {
        f := f.(dead := f.dead + [record]);
        f := f.(payloads := f.payloads - {t.id});
        f := f.(done := f.done[t.id := now]);
        f := f.(stats := f.stats.(deadLettered := f.stats.deadLettered + 1));
        f := f.(inflight := f.inflight - 1);
        outcome := DeadLettered;
      } else {
        f := f.(payloads := f.payloads[t.id := next]);
        f := f.(exec := f.exec + [ExecEntry(next, now, None)]);
        f := f.(stats := f.stats.(retried := f.stats.retried + 1));
        outcome := Redelivered;
      }
      f := f.(execPel := Acked(f.execPel, msg));
      flow := f;
    }

    /** saveStateScript, called by Broker.SaveSchedulerState. `None` is ErrFenced; an empty state is not
        sent at all. */
    method SaveState(args: seq<(string, Field)>, epoch: int) returns (written: Option<int>)
      modifies this`fence, this`schedState
      ensures args == [] ==> written == Some(0) && schedState == old(schedState) && fence == old(fence)
      ensures args != [] ==> (written.None? <==> IsFenced(old(fence), epoch)) && fence == FenceAfter(old(fence), epoch)
      ensures args != [] ==> schedState == if written.None? then old(schedState) else FieldsOf(args)
      ensures args != [] && written.Some? ==> written.value == |args|
    {
      if args == [] {
        return Some(0);
      }
      var refused := Fenced(epoch);
      if refused {
        return None;
      }
      schedState := map[];
      var i := 0;
      while i < |args|
        invariant 0 <= i <= |args| && fence == FenceAfter(old(fence), epoch)
        invariant schedState == FieldsOf(args[..i])
      {
        assert args[..i + 1][..i] == args[..i] && args[..i + 1] != [];
        schedState := schedState[args[i].0 := args[i].1];
        i := i + 1;
      }
      assert args[..i] == args;
      written := Some(i);
    }

    /** acquireScript. `None`: somebody holds the lease. */
    method AcquireLease(owner: string) returns (epoch: int)
      requires leaderEpoch >= 0
      modifies this`holder, this`leaderEpoch
      ensures old(holder).Some? ==> epoch == 0 && holder == old(holder) && leaderEpoch == old(leaderEpoch)
      ensures old(holder).None? ==>
                epoch == leaderEpoch == old(leaderEpoch) + 1 && holder == Some(HolderValue(owner, epoch))
    {
      if holder.Some? {
        return 0;
      }
      leaderEpoch := leaderEpoch + 1;
      epoch := leaderEpoch;
      holder := Some(HolderValue(owner, epoch));
    }

    /** renewScript: whether the key still holds this exact grant. The expiry it moves is not state here. */
    method RenewLease(value: string) returns (extended: bool)
      ensures extended == (holder == Some(value))
    {
      extended := holder == Some(value);
    }

    /** releaseScript */
    method ReleaseLease(value: string) returns (released: bool)
      modifies this`holder
      ensures released == (old(holder) == Some(value))
      ensures holder == if released then None else old(holder)
    {
      released := false;
      if holder == Some(value) {
        holder := None;
        released := true;
      }
    }

    /** Broker.Reset deletes the keys that Keys.All lists: everything except the epoch counter and the fence. */
    method Reset()
      modifies this`holder, this`flow, this`schedState
      ensures flow == EMPTY_FLOW && holder == None && schedState == map[]
    {
      flow, holder, schedState := EMPTY_FLOW, None, map[];
    }
  }
}
