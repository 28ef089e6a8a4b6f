/** What one dispatch selects, and how long a chain of retries can get
    (internal/broker/scripts.go:127-185 and 252-300, internal/broker/broker.go:483-519 and 608-617). */
module Selection {
  import opened Text
  import opened Ordering
  import opened Wfq
  import opened Store
  import opened Handoff

  // ---------- dispatch ----------

  function QuotaOf(waiting: int, inflight: int, count: int, cap: int): int {
    var available := Min(count, waiting);
    if cap > 0 then Min(available, Max(0, cap - inflight)) else available
  }

  /** How many tasks a dispatch may hand over. */
  function Quota(f: Flow, count: nat, cap: int): int {
    QuotaOf(|f.pending|, f.inflight, count, cap)
  }

  lemma QuotaDrops(waiting: int, inflight: int, count: int, cap: int)
    requires waiting > 0 && count > 0 && (cap > 0 ==> inflight < cap)
    ensures QuotaOf(waiting, inflight, count, cap) == QuotaOf(waiting - 1, inflight + 1, count - 1, cap) + 1
  {
  }

  function MembersOf(out: seq<Dispatched>): set<string> {
    set n | 0 <= n < |out| :: out[n].key.member
  }

  function EntriesOf(out: seq<Dispatched>, now: int, epoch: int): seq<ExecEntry> {
    if out == [] then [] else [ExecEntry(out[0].task, now, Some(epoch))] + EntriesOf(out[1..], now, epoch)
  }

  /** The reported member belongs to the reported task, which is one that was admitted, as it was admitted. */
  ghost predicate IsReport(b: Book, d: Dispatched) {
    d.key.member == MemberFor(d.task) && d.task.id in b.origin && d.task == b.origin[d.task.id]
  }

  /** The tasks handed over are pending ones. */
  ghost predicate ArePending(out: seq<Dispatched>, pending: map<string, real>, b: Book) {
    forall n :: 0 <= n < |out| ==>
      out[n].key.member in pending && out[n].key.score == pending[out[n].key.member] && IsReport(b, out[n])
  }

  ghost predicate InKeyOrder(out: seq<Dispatched>) {
    forall m, n :: 0 <= m < n < |out| ==> out[m].key.Less(out[n].key)
  }

  ghost predicate PrecedeAll(out: seq<Dispatched>, pending: map<string, real>) {
    forall n, m :: 0 <= n < |out| && m in pending ==> out[n].key.Less(Key(pending[m], m))
  }

  /** What a dispatch does, said without its loop: it hands over as many tasks as it may, in strictly
      ascending key order, all of them before every task it leaves, removes exactly those from both sorted
      sets, and appends exactly those to the execution stream under its epoch. */
  ghost predicate Selects(f: Flow, b: Book, quota: int, now: int, epoch: int, out: seq<Dispatched>, f': Flow) {
    && |out| == quota
    && InKeyOrder(out) && PrecedeAll(out, f'.pending) && ArePending(out, f.pending, b)
    && f'.pending == f.pending - MembersOf(out)
    && f'.pendingAge == f.pendingAge - MembersOf(out)
    && f'.exec == f.exec + EntriesOf(out, now, epoch)
    && f'.inflight == f.inflight + |out|
    && f'.stats == f.stats.(dispatched := f.stats.dispatched + |out|)
    && f' == f.(pending := f'.pending, pendingAge := f'.pendingAge, exec := f'.exec, inflight := f'.inflight,
                stats := f'.stats)
  }

  lemma LeastIsStrict(pending: map<string, real>, m: string)
    requires m in pending && m != Least(pending)
    ensures Key(pending[Least(pending)], Least(pending)).Less(Key(pending[m], m))
  {
    assert IsLeast(pending, pending.Keys, Least(pending));
    KeyOrderIsTotal(Key(pending[Least(pending)], Least(pending)), Key(pending[m], m));
  }

  lemma MembersOfMore(d: Dispatched, rest: seq<Dispatched>)
    ensures MembersOf([d] + rest) == {d.key.member} + MembersOf(rest)
  {
    var out := [d] + rest;
    forall m | m in {d.key.member} + MembersOf(rest) ensures m in MembersOf(out) {
      if m == d.key.member {
        assert out[0].key.member == m;
      } else {
        var n :| 0 <= n < |rest| && rest[n].key.member == m;
        assert out[n + 1].key.member == m;
      }
    }
    forall m | m in MembersOf(out) ensures m in {d.key.member} + MembersOf(rest) {
      var n :| 0 <= n < |out| && out[n].key.member == m;
      assert n > 0 ==> rest[n - 1].key.member == m;
    }
  }

  /** The reports are about pending members other than the least. */
  ghost predicate AreLeft(pending: map<string, real>, rest: seq<Dispatched>)
    requires pending != map[]
  {
    forall n :: 0 <= n < |rest| ==>
      && rest[n].key.member in pending.Keys - {Least(pending)}
      && rest[n].key.score == pending[rest[n].key.member]
  }

  lemma RemovedInTurn<V>(m: map<string, V>, a: set<string>, b: set<string>)
    ensures m - a - b == m - (a + b)
  {
  }

  lemma StillPending(pending: map<string, real>, d: Dispatched, rest: seq<Dispatched>, b: Book)
    requires pending != map[] && d.key == Key(pending[Least(pending)], Least(pending)) && IsReport(b, d)
    requires ArePending(rest, pending - {d.key.member}, b)
    ensures ArePending([d] + rest, pending, b) && AreLeft(pending, rest)
  {
    hide IsReport;
    forall n | 0 <= n < |[d] + rest|
      ensures var o := ([d] + rest)[n];
              o.key.member in pending && o.key.score == pending[o.key.member] && IsReport(b, o)
    {
      assert n > 0 ==> rest[n - 1].key.member in pending - {d.key.member};
    }
  }

  lemma OrderOfMore(pending: map<string, real>, d: Dispatched, rest: seq<Dispatched>, left: map<string, real>,
                    gone: set<string>)
    requires pending != map[] && d.key == Key(pending[Least(pending)], Least(pending))
    requires InKeyOrder(rest) && PrecedeAll(rest, left) && AreLeft(pending, rest)
    requires left == pending - ({d.key.member} + gone)
    ensures InKeyOrder([d] + rest) && PrecedeAll([d] + rest, left)
  {
    var out := [d] + rest;
    forall i, n | 0 <= i < n < |out| ensures out[i].key.Less(out[n].key) {
      if i == 0 {
        LeastIsStrict(pending, rest[n - 1].key.member);
      } else {
        assert rest[i - 1].key.Less(rest[n - 1].key);
      }
    }
    forall n, x | 0 <= n < |out| && x in left ensures out[n].key.Less(Key(left[x], x)) {
      if n == 0 {
        LeastIsStrict(pending, x);
      } else {
        assert rest[n - 1].key.Less(Key(left[x], x));
      }
    }
  }

  /** One more turn in front of a selection. */
  lemma SelectOneMore(f: Flow, b: Book, now: int, epoch: int, d: Dispatched, f1: Flow, quota: int,
                      rest: seq<Dispatched>, f': Flow)
    requires f.pending != map[] && IsTurn(f, now, epoch, d, f1) && IsReport(b, d)
    requires Selects(f1, b, quota, now, epoch, rest, f')
    ensures Selects(f, b, quota + 1, now, epoch, [d] + rest, f')
  {
    hide InKeyOrder, PrecedeAll, ArePending, AreLeft, IsReport, Least, MembersOf;
    var out := [d] + rest;
    assert out[1..] == rest;
    assert f'.exec == f.exec + EntriesOf(out, now, epoch);
    MembersOfMore(d, rest);
    RemovedInTurn(f.pending, {d.key.member}, MembersOf(rest));
    RemovedInTurn(f.pendingAge, {d.key.member}, MembersOf(rest));
    StillPending(f.pending, d, rest, b);
    OrderOfMore(f.pending, d, rest, f'.pending, MembersOf(rest));
  }

  /** A turn of the dispatch loop that hands over d. */
  ghost predicate IsTurn(f: Flow, now: int, epoch: int, d: Dispatched, f1: Flow)
    requires f.pending != map[]
  {
    && d.key == Key(f.pending[Least(f.pending)], Least(f.pending))
    && f1 == f.(pending := f.pending - {d.key.member}, pendingAge := f.pendingAge - {d.key.member},
                exec := f.exec + [ExecEntry(d.task, now, Some(epoch))],
                stats := f.stats.(dispatched := f.stats.dispatched + 1), inflight := f.inflight + 1)
  }

  lemma TurnReports(f: Flow, b: Book, parents: Lineage, now: int, epoch: int) returns (d: Dispatched)
    requires Inv(f, b, parents) && f.pending != map[]
    ensures ReportOne(f) == [d] && IsTurn(f, now, epoch, d, DispatchOne(f, now, epoch)) && IsReport(b, d)
  {
    hide Inv;
    PoppedMemberHasPayload(f, b, parents);
    d := ReportOne(f)[0];
  }

  lemma SelectNothing(f: Flow, b: Book, now: int, epoch: int)
    ensures Selects(f, b, 0, now, epoch, [], f)
  {
    assert f.pending - {} == f.pending && f.pendingAge - {} == f.pendingAge;
  }

  lemma NothingAllowed(f: Flow, count: nat, cap: int)
    requires count == 0 || !MayDispatch(f, cap)
    ensures Quota(f, count, cap) == 0
  {
  }

  lemma {:induction false} DispatchSelects(f: Flow, b: Book, parents: Lineage, count: nat, cap: int, now: int,
                                           epoch: int)
    requires Inv(f, b, parents)
    ensures Selects(f, b, Quota(f, count, cap), now, epoch,
                    Report(f, count, cap, now, epoch), DispatchMany(f, count, cap, now, epoch))
    decreases count
  {
    hide Inv, Selects, DispatchOne, ReportOne, Quota, IsTurn, IsReport;
    if count == 0 || !MayDispatch(f, cap) {
      NothingAllowed(f, count, cap);
      SelectNothing(f, b, now, epoch);
    } else {
      var f1 := DispatchOne(f, now, epoch);
      var d := TurnReports(f, b, parents, now, epoch);
      DispatchOneKeepsInv(f, b, parents, now, epoch);
      DispatchSelects(f1, b, parents + [None], count - 1, cap, now, epoch);
      QuotaAfterTurn(f, d, f1, count, cap, now, epoch);
      SelectOneMore(f, b, now, epoch, d, f1, Quota(f1, count - 1, cap), Report(f1, count - 1, cap, now, epoch),
                    DispatchMany(f1, count - 1, cap, now, epoch));
    }
  }

  lemma OneLess(pending: map<string, real>, m: string)
    requires m in pending
    ensures |pending - {m}| == |pending| - 1
  {
    assert (pending - {m}).Keys == pending.Keys - {m};
    assert |pending - {m}| == |(pending - {m}).Keys| && |pending| == |pending.Keys|;
  }

  lemma QuotaAfterTurn(f: Flow, d: Dispatched, f1: Flow, count: nat, cap: int, now: int, epoch: int)
    requires count > 0 && MayDispatch(f, cap) && IsTurn(f, now, epoch, d, f1)
    ensures Quota(f, count, cap) == Quota(f1, count - 1, cap) + 1
  {
    assert d.key.member in f.pending;
    OneLess(f.pending, d.key.member);
    assert f1.pending == f.pending - {d.key.member} && f1.inflight == f.inflight + 1;
    hide Least, IsTurn, QuotaOf;
    QuotaDrops(|f.pending|, f.inflight, count, cap);
  }

  /** A dispatch never takes the in-flight count past its cap. */
  lemma DispatchRespectsCap(f: Flow, b: Book, parents: Lineage, count: nat, cap: int, now: int, epoch: int)
    requires Inv(f, b, parents) && cap > 0
    ensures DispatchMany(f, count, cap, now, epoch).inflight <= Max(cap, f.inflight)
  {
    hide Inv, InKeyOrder, PrecedeAll, ArePending;
    DispatchSelects(f, b, parents, count, cap, now, epoch);
  }

  /** A dispatch never passes over a key: whoever is handed over, everything pending before it goes first. */
  lemma DispatchFollowsKeys(f: Flow, b: Book, parents: Lineage, count: nat, cap: int, now: int, epoch: int,
                            x: string, y: string)
    requires Inv(f, b, parents) && x in f.pending && y in f.pending
    requires Key(f.pending[x], x).Less(Key(f.pending[y], y))
    requires y in MembersOf(Report(f, count, cap, now, epoch))
    ensures var out := Report(f, count, cap, now, epoch);
            exists m, n :: 0 <= m < n < |out| && out[m].key.member == x && out[n].key.member == y
  {
    hide Inv, IsReport, Report;
    DispatchSelects(f, b, parents, count, cap, now, epoch);
    var out, left := Report(f, count, cap, now, epoch), DispatchMany(f, count, cap, now, epoch).pending;
    var n :| 0 <= n < |out| && out[n].key.member == y;
    NotLeftBehind(out, left, n, Key(f.pending[x], x));
    assert x in MembersOf(out);
    var m :| 0 <= m < |out| && out[m].key.member == x;
    KeyOrderIsTotal(out[m].key, out[n].key);
  }

  lemma NotLeftBehind(out: seq<Dispatched>, left: map<string, real>, n: nat, k: Key)
    requires PrecedeAll(out, left) && n < |out| && k.Less(out[n].key)
    ensures !(k.member in left && left[k.member] == k.score)
  {
    KeyOrderIsTotal(k, out[n].key);
  }

  /** A dispatch wastes nothing: short of the count it stops only when nothing is pending or the cap is reached. */
  lemma {:induction false} DispatchStopsWhenItMust(f: Flow, b: Book, parents: Lineage, count: nat, cap: int, now: int,
                                                   epoch: int)
    requires Inv(f, b, parents)
    ensures var (n, g) := (|Report(f, count, cap, now, epoch)|, DispatchMany(f, count, cap, now, epoch));
            n <= count && (n < count ==> |g.pending| == 0 || (cap > 0 && g.inflight >= cap))
    decreases count
  {
    hide Inv, DispatchOne, ReportOne;
    if count > 0 && MayDispatch(f, cap) {
      var d := TurnReports(f, b, parents, now, epoch);
      DispatchOneKeepsInv(f, b, parents, now, epoch);
      DispatchStopsWhenItMust(DispatchOne(f, now, epoch), b, parents + [None], count - 1, cap, now, epoch);
    }
  }

  /** OldestPendingSubmit reads the least score of pendingAge: it is the submission time of the task that
      has waited longest among all admitted tasks never dispatched. */
  lemma PendingAgeIsSubmission(f: Flow, b: Book, parents: Lineage, m: string)
    requires Inv(f, b, parents) && m in f.pendingAge
    requires forall x :: x in f.pendingAge ==> f.pendingAge[m] <= f.pendingAge[x]
    ensures exists id :: id in b.origin && IsWaiting(f.pending, b, id) && f.pendingAge[m] == b.origin[id].submittedAt
    ensures forall id :: IsWaiting(f.pending, b, id) ==> f.pendingAge[m] <= b.origin[id].submittedAt
  {
    hide ExecInv, LineageInv, NothingLost, CountersInv, OutcomesInv, TalliesInv, RecordsInv;
    assert IsMemberOf(f.payloads, f.pendingAge, b, m, TaskIdIn(m).value);
    assert IsWaiting(f.pending, b, TaskIdIn(m).value);
    forall id | IsWaiting(f.pending, b, id) ensures f.pendingAge[m] <= b.origin[id].submittedAt {
      var x := MemberFor(b.origin[id]);
      MemberRoundTrip(b.origin[id]);
      assert IsMemberOf(f.payloads, f.pendingAge, b, x, TaskIdIn(x).value);
    }
  }

  // ---------- chains of retries ----------

  /** How many entries come before entry x on its chain of retries. */
  function Depth(parents: Lineage, x: int): nat
    requires 0 <= x < |parents|
    decreases x
  {
    match parents[x]
    case None => 0
    case Some(y) => if 0 <= y < x then 1 + Depth(parents, y) else 0
  }

  /** The entry at the start of x's chain. */
  function Root(parents: Lineage, x: int): (r: int)
    requires 0 <= x < |parents|
    ensures 0 <= r <= x
    decreases x
  {
    match parents[x]
    case None => x
    case Some(y) => if 0 <= y < x then Root(parents, y) else x
  }

  /** Every execution entry goes back to a dispatch of the same task as it was admitted, in as many steps as
      its retry count has risen; so a chain has at most one delivery more than its task's budget allows. */
  lemma {:induction false} ChainsAreBounded(f: Flow, b: Book, parents: Lineage, x: int)
    requires Inv(f, b, parents) && 0 <= x < |f.exec| && |parents| == |f.exec|
    ensures var (t, r) := (f.exec[x].task, Root(parents, x));
            && t.id in b.origin
            && f.exec[r].epoch.Some? && f.exec[r].task == b.origin[t.id]
            && Depth(parents, x) == t.retryCount - b.origin[t.id].retryCount
            && Depth(parents, x) + 1 <= Max(0, b.BudgetOf(b.origin[t.id]) - b.origin[t.id].retryCount) + 1
    decreases x
  {
    hide PendingInv, NothingLost, CountersInv, OutcomesInv, TalliesInv, RecordsInv;
    assert IsLinked(f.exec, parents, b, x) && IsAttempt(b, f.exec[x].task);
    if parents[x].Some? {
      ChainsAreBounded(f, b, parents, parents[x].value);
    } else {
      DeliveredTask(f, b, parents, x);
    }
  }
}
