/** What weighted fair queuing promises, over every interleaving of Admit and Next
    (internal/scheduler/wfq/wfq.go driven by internal/scheduler/policy/queue.go).

    The invariant describes each tenant's pending tasks as a chain of abutting intervals of virtual time:
    a task occupies (tag - share, tag], the first interval of a backlogged tenant contains the clock, and
    the last one ends at the tenant's finish tag. `Progress` is where a tenant's chain begins. It rises by
    exactly the dispatched share, never passes the clock, and lags it by at most one task. */
module FairShare {
  import opened Text
  import opened Ordering
  import opened Wfq
  import opened Pending

  // ---------- tenants ----------

  /** The entries of one tenant, in order. */
  function Of(entries: seq<Entry>, tenant: string): seq<Entry> {
    if entries == [] then []
    else (if entries[0].task.tenant == tenant then [entries[0]] else []) + Of(entries[1..], tenant)
  }

  lemma Associates(a: seq<Entry>, b: seq<Entry>, c: seq<Entry>)
    ensures a + (b + c) == (a + b) + c
  {
  }

  lemma {:induction false} OfConcat(a: seq<Entry>, b: seq<Entry>, tenant: string)
    ensures Of(a + b, tenant) == Of(a, tenant) + Of(b, tenant)
  {
    if a == [] {
      assert a + b == b;
    } else {
      assert (a + b)[1..] == a[1..] + b;
      OfConcat(a[1..], b, tenant);
      var first := if a[0].task.tenant == tenant then [a[0]] else [];
      Associates(first, Of(a[1..], tenant), Of(b, tenant));
    }
  }

  lemma {:induction false} OfMembers(entries: seq<Entry>, tenant: string, e: Entry)
    ensures e in Of(entries, tenant) <==> e in entries && e.task.tenant == tenant
  {
    if entries != [] {
      OfMembers(entries[1..], tenant, e);
      assert entries == [entries[0]] + entries[1..];
    }
  }

  lemma OfSplit(entries: seq<Entry>, i: nat, tenant: string)
    requires i < |entries|
    ensures Of(entries, tenant) == Of(entries[..i], tenant) + Of([entries[i]], tenant) + Of(entries[i + 1..], tenant)
    ensures Of(Without(entries, i), tenant) == Of(entries[..i], tenant) + Of(entries[i + 1..], tenant)
  {
    assert entries == (entries[..i] + [entries[i]]) + entries[i + 1..];
    OfConcat(entries[..i] + [entries[i]], entries[i + 1..], tenant);
    OfConcat(entries[..i], [entries[i]], tenant);
    OfConcat(entries[..i], entries[i + 1..], tenant);
  }

  // ---------- the invariant ----------

  /** Virtual time a task occupies. */
  function Share(c: Clock, t: Task): (s: real)
    ensures s > 0.0
  {
    Cost(t) / c.Weight(t.tenant)
  }

  ghost predicate Chained(c: Clock, es: seq<Entry>) {
    forall n :: 0 < n < |es| ==> es[n].key.score == es[n - 1].key.score + Share(c, es[n].task)
  }

  function Begin(c: Clock, e: Entry): real {
    e.key.score - Share(c, e.task)
  }

  ghost predicate TenantInv(c: Clock, es: seq<Entry>, tenant: string) {
    && Chained(c, es)
    && (es == [] ==> c.Start(tenant) == c.virtualTime)
    && (es != [] ==>
          && tenant in c.lastFinish && c.lastFinish[tenant] == es[|es| - 1].key.score
          && Begin(c, es[0]) <= c.virtualTime <= es[0].key.score)
  }

  ghost predicate Inv(q: Queue) {
    q.ranking.Fair? && forall tenant :: TenantInv(q.ranking.clock, Of(q.entries, tenant), tenant)
  }

  /** A queue as NewQueue(wfq.New(...)) leaves it. */
  function Empty(weights: map<string, Positive>, defaultWeight: Positive): Queue {
    Queue(Fair(Clock(weights, defaultWeight, 0.0, map[])), [])
  }

  lemma EmptyInv(weights: map<string, Positive>, defaultWeight: Positive)
    ensures Inv(Empty(weights, defaultWeight))
  {
  }

  /** Tags along a chain strictly increase. */
  lemma {:induction false} ChainIncreases(c: Clock, es: seq<Entry>, m: nat, n: nat)
    requires Chained(c, es) && m < n < |es|
    ensures es[m].key.score < es[n].key.score
  {
    if m + 1 < n {
      ChainIncreases(c, es, m, n - 1);
    }
  }

  /** No pending tag is behind the clock. */
  lemma TagsAreNotBehind(q: Queue, e: Entry)
    requires Inv(q) && e in q.entries
    ensures q.ranking.clock.virtualTime <= e.key.score
  {
    var es := Of(q.entries, e.task.tenant);
    OfMembers(q.entries, e.task.tenant, e);
    assert TenantInv(q.ranking.clock, es, e.task.tenant);
    var n :| 0 <= n < |es| && es[n] == e;
    if n > 0 {
      ChainIncreases(q.ranking.clock, es, 0, n);
    }
  }

  /** The entry dispatched next is its tenant's oldest: tenants are served in admission order. */
  lemma NextIsTenantsFirst(q: Queue, i: nat, tenant: string)
    requires Inv(q) && IsNext(q.entries, i)
    ensures var es := Of(q.entries, tenant);
            if q.entries[i].task.tenant == tenant
            then es != [] && es[0] == q.entries[i] && Of(Without(q.entries, i), tenant) == es[1..]
            else Of(Without(q.entries, i), tenant) == es
  {
    var es, e := Of(q.entries, tenant), q.entries[i];
    OfSplit(q.entries, i, tenant);
    if e.task.tenant == tenant {
      var n := |Of(q.entries[..i], tenant)|;
      assert Of([e], tenant) == [e] && es[n] == e;
      assert TenantInv(q.ranking.clock, es, tenant);
      if n > 0 {
        ChainIncreases(q.ranking.clock, es, 0, n);
        OfMembers(q.entries, tenant, es[0]);
        assert false;
      }
    }
  }

  /** A new task's interval abuts its tenant's chain, or begins at the clock when the tenant is idle. */
  lemma ChainGrows(c: Clock, es: seq<Entry>, t: Task)
    requires TenantInv(c, es, t.tenant)
    ensures TenantInv(c.Ranked(t), es + [Entry(Key(c.Finish(t), MemberFor(t)), t)], t.tenant)
  {
    SameShares(c, c.Ranked(t));
    if es != [] {
      if |es| > 1 { ChainIncreases(c, es, 0, |es| - 1); }
      assert c.Start(t.tenant) == es[|es| - 1].key.score;
    }
  }

  lemma AdmitKeepsInv(q: Queue, t: Task)
    requires Inv(q)
    ensures Inv(q.Admit(t))
  {
    var c := q.ranking.clock;
    var e := Entry(Key(c.Finish(t), MemberFor(t)), t);
    SameShares(c, c.Ranked(t));
    forall tenant ensures TenantInv(c.Ranked(t), Of(q.entries + [e], tenant), tenant) {
      assert TenantInv(c, Of(q.entries, tenant), tenant);
      OfConcat(q.entries, [e], tenant);
      if tenant == t.tenant {
        assert Of([e], tenant) == [e];
        ChainGrows(c, Of(q.entries, tenant), t);
      } else {
        assert Of([e], tenant) == [];
        assert Of(q.entries + [e], tenant) == Of(q.entries, tenant);
      }
    }
  }

  lemma SameShares(c: Clock, c': Clock)
    requires c.weights == c'.weights && c.defaultWeight == c'.defaultWeight
    ensures forall t :: Share(c, t) == Share(c', t)
    ensures forall tenant :: c.Weight(tenant) == c'.Weight(tenant)
  {
  }

  /** Dispatching a tenant's first task leaves the rest of its chain, beginning at the new clock. */
  lemma ChainServed(c: Clock, es: seq<Entry>, tenant: string)
    requires TenantInv(c, es, tenant) && es != []
    ensures TenantInv(c.Notified(es[0].key.score), es[1..], tenant)
  {
    SameShares(c, c.Notified(es[0].key.score));
    if |es| > 1 {
      assert es[1].key.score == es[0].key.score + Share(c, es[1].task);
    }
  }

  /** Another tenant's dispatch moves the clock within the first interval of this one's chain. */
  lemma ChainWaits(c: Clock, es: seq<Entry>, tenant: string, tag: real)
    requires TenantInv(c, es, tenant) && c.virtualTime <= tag
    requires es != [] ==> tag <= es[0].key.score
    ensures TenantInv(c.Notified(tag), es, tenant)
  {
    SameShares(c, c.Notified(tag));
  }

  lemma TakeKeepsTenantInv(q: Queue, i: nat, tenant: string)
    requires Inv(q) && IsNext(q.entries, i)
    requires q.ranking.clock.virtualTime <= q.entries[i].key.score
    ensures TenantInv(q.Take(i).ranking.clock, Of(Without(q.entries, i), tenant), tenant)
  {
    var es, tag := Of(q.entries, tenant), q.entries[i].key.score;
    assert TenantInv(q.ranking.clock, es, tenant);
    NextIsTenantsFirst(q, i, tenant);
    if q.entries[i].task.tenant == tenant {
      ChainServed(q.ranking.clock, es, tenant);
    } else {
      if es != [] {
        OfMembers(q.entries, tenant, es[0]);
        var j :| 0 <= j < |q.entries| && q.entries[j] == es[0];
        assert AtMost(q.entries[i].key, q.entries[j].key);
      }
      ChainWaits(q.ranking.clock, es, tenant, tag);
    }
  }

  lemma TakeKeepsInv(q: Queue, i: nat)
    requires Inv(q) && IsNext(q.entries, i)
    ensures Inv(q.Take(i))
    ensures q.Take(i).ranking.clock.virtualTime == q.entries[i].key.score
  {
    TagsAreNotBehind(q, q.entries[i]);
    forall tenant ensures TenantInv(q.Take(i).ranking.clock, Of(Without(q.entries, i), tenant), tenant) {
      TakeKeepsTenantInv(q, i, tenant);
    }
  }

  lemma StepKeepsInv(q: Queue, step: Step)
    requires Inv(q) && Possible(q, step)
    ensures Inv(Do(q, step))
  {
    match step
    case Admit(t) => AdmitKeepsInv(q, t);
    case Next(i) => TakeKeepsInv(q, i);
  }

  lemma {:induction false} RunKeepsInv(q: Queue, steps: seq<Step>)
    requires Inv(q) && IsRun(q, steps)
    ensures Inv(After(q, steps))
    decreases |steps|
  {
    if steps != [] {
      StepKeepsInv(q, steps[0]);
      RunKeepsInv(Do(q, steps[0]), steps[1..]);
    }
  }

  // ---------- order of dispatch ----------

  /** Tags leave in non-decreasing order although tasks keep arriving, and virtual time is the tag of the
      last dispatched task. */
  lemma {:induction false} TagsLeaveInOrder(q: Queue, steps: seq<Step>)
    requires Inv(q) && q.ranking.Fair? && IsRun(q, steps)
    ensures var log := DispatchLog(q, steps);
            && (forall n :: 0 <= n < |log| ==> q.ranking.clock.virtualTime <= log[n].key.score)
            && (forall m, n :: 0 <= m < n < |log| ==> log[m].key.score <= log[n].key.score)
            && Inv(After(q, steps)) && After(q, steps).ranking.Fair?
            && After(q, steps).ranking.clock.virtualTime ==
               if log == [] then q.ranking.clock.virtualTime else log[|log| - 1].key.score
    decreases |steps|
  {
    hide Inv, IsNext;
    if steps != [] {
      StepKeepsInv(q, steps[0]);
      StepKeepsWeights(q, steps[0]);
      StepMovesClock(q, steps[0]);
      TagsLeaveInOrder(Do(q, steps[0]), steps[1..]);
    }
  }

  /** Admitting leaves virtual time alone; dispatching moves it to the dispatched tag, which is not behind. */
  lemma StepMovesClock(q: Queue, step: Step)
    requires Inv(q) && q.ranking.Fair? && Possible(q, step)
    ensures var log := Dispatched(q, step);
            && Do(q, step).ranking.Fair?
            && Do(q, step).ranking.clock.virtualTime ==
               (if log == [] then q.ranking.clock.virtualTime else log[0].key.score)
            && (log != [] ==> q.ranking.clock.virtualTime <= log[0].key.score)
  {
    hide Inv;
    if step.Next? {
      TakeKeepsInv(q, step.index);
      TagsAreNotBehind(q, q.entries[step.index]);
    }
  }

  /** Each tenant's tasks leave in the order they were admitted: its backlog followed by its admissions
      is its dispatches followed by its remaining backlog, as sequences. */
  lemma {:induction false} TenantsAreFifo(q: Queue, steps: seq<Step>, tenant: string)
    requires Inv(q) && IsRun(q, steps)
    ensures Of(q.entries, tenant) + Of(AdmitLog(q, steps), tenant) ==
            Of(DispatchLog(q, steps), tenant) + Of(After(q, steps).entries, tenant)
    decreases |steps|
  {
    if steps != [] {
      var q' := Do(q, steps[0]);
      StepKeepsInv(q, steps[0]);
      StepIsFifo(q, steps[0], tenant);
      TenantsAreFifo(q', steps[1..], tenant);
      OfConcat(Admitted(q, steps[0]), AdmitLog(q', steps[1..]), tenant);
      OfConcat(Dispatched(q, steps[0]), DispatchLog(q', steps[1..]), tenant);
      ChainSequences(Of(q.entries, tenant), Of(Admitted(q, steps[0]), tenant), Of(Dispatched(q, steps[0]), tenant),
                     Of(q'.entries, tenant), Of(AdmitLog(q', steps[1..]), tenant),
                     Of(DispatchLog(q', steps[1..]), tenant), Of(After(q', steps[1..]).entries, tenant));
    }
  }

  lemma ChainSequences(before: seq<Entry>, in1: seq<Entry>, out1: seq<Entry>, between: seq<Entry>,
                       in2: seq<Entry>, out2: seq<Entry>, after: seq<Entry>)
    requires before + in1 == out1 + between
    requires between + in2 == out2 + after
    ensures before + (in1 + in2) == (out1 + out2) + after
  {
    assert before + (in1 + in2) == (before + in1) + in2;
    assert (out1 + between) + in2 == out1 + (between + in2);
    assert out1 + (out2 + after) == (out1 + out2) + after;
  }

  lemma StepIsFifo(q: Queue, step: Step, tenant: string)
    requires Inv(q) && Possible(q, step)
    ensures Of(q.entries, tenant) + Of(Admitted(q, step), tenant) ==
            Of(Dispatched(q, step), tenant) + Of(Do(q, step).entries, tenant)
  {
    match step
    case Admit(t) => OfConcat(q.entries, Admitted(q, step), tenant);
    case Next(i) => NextIsTenantsFirst(q, i, tenant);
  }

  // ---------- service ----------

  /** Total cost of the entries of one tenant. */
  function CostOf(entries: seq<Entry>, tenant: string): real {
    if entries == [] then 0.0
    else (if entries[0].task.tenant == tenant then Cost(entries[0].task) else 0.0) + CostOf(entries[1..], tenant)
  }

  /** The service a run gives a tenant: the cost of what it dispatches for it. */
  function Service(q: Queue, steps: seq<Step>, tenant: string): real {
    CostOf(DispatchLog(q, steps), tenant)
  }

  /** Where a tenant's chain begins; an idle tenant's begins at the clock. */
  function Progress(q: Queue, tenant: string): real
    requires q.ranking.Fair?
  {
    var es := Of(q.entries, tenant);
    if es == [] then q.ranking.clock.virtualTime else Begin(q.ranking.clock, es[0])
  }

  /** The tenant's configured weight. */
  function Weight(q: Queue, tenant: string): Positive
    requires q.ranking.Fair?
  {
    if tenant in q.ranking.clock.weights then q.ranking.clock.weights[tenant] else q.ranking.clock.defaultWeight
  }

  lemma StepKeepsWeights(q: Queue, step: Step)
    requires q.ranking.Fair?
    ensures Do(q, step).ranking.Fair?
    ensures Do(q, step).ranking.clock.weights == q.ranking.clock.weights
    ensures Do(q, step).ranking.clock.defaultWeight == q.ranking.clock.defaultWeight
    ensures forall tenant :: Weight(Do(q, step), tenant) == Weight(q, tenant)
  {
  }

  /** No pending task of the tenant costs more than `largest`. */
  ghost predicate CostsAtMost(q: Queue, tenant: string, largest: real) {
    largest >= 0.0 && forall e :: e in q.entries && e.task.tenant == tenant ==> Cost(e.task) <= largest
  }

  /** Progress never passes the clock, and a backlogged tenant is behind it by at most its oldest task. */
  lemma ProgressNearClock(q: Queue, tenant: string, largest: real)
    requires Inv(q) && CostsAtMost(q, tenant, largest)
    ensures q.ranking.clock.virtualTime - largest / Weight(q, tenant) <= Progress(q, tenant)
    ensures Progress(q, tenant) <= q.ranking.clock.virtualTime
  {
    var es := Of(q.entries, tenant);
    assert TenantInv(q.ranking.clock, es, tenant);
    if es != [] {
      OfMembers(q.entries, tenant, es[0]);
      DivideMonotone(Cost(es[0].task), largest, Weight(q, tenant));
    } else {
      DivideMonotone(0.0, largest, Weight(q, tenant));
    }
  }

  lemma DivideMonotone(a: real, b: real, w: Positive)
    requires a <= b
    ensures a / w <= b / w
  {
  }

  lemma DivideSum(a: real, b: real, w: Positive)
    ensures Per(a + b, w) == Per(a, w) + Per(b, w)
  {
  }

  /** An amount of service per unit of weight. */
  function Per(amount: real, weight: Positive): real {
    amount / weight
  }

  /** One step raises a tenant's progress by at least the share it dispatches for that tenant, and by
      exactly that share when the tenant has a task pending before and after. */
  lemma StepProgress(q: Queue, step: Step, tenant: string)
    requires Inv(q) && Possible(q, step)
    ensures Inv(Do(q, step))
    ensures Progress(Do(q, step), tenant) >=
            Progress(q, tenant) + Per(CostOf(Dispatched(q, step), tenant), Weight(q, tenant))
    ensures Of(q.entries, tenant) != [] && Of(Do(q, step).entries, tenant) != [] ==>
              Progress(Do(q, step), tenant) ==
              Progress(q, tenant) + Per(CostOf(Dispatched(q, step), tenant), Weight(q, tenant))
  {
    StepKeepsInv(q, step);
    match step
    case Admit(t) => AdmitProgress(q, t, tenant);
    case Next(i) => TakeProgress(q, i, tenant);
  }

  /** Admitting moves nobody's progress: a backlogged tenant's chain grows at its far end, and an idle
      tenant's new chain begins at the clock. */
  lemma AdmitProgress(q: Queue, t: Task, tenant: string)
    requires Inv(q)
    ensures Progress(q.Admit(t), tenant) == Progress(q, tenant)
  {
    var c, e := q.ranking.clock, Entry(q.ranking.KeyFor(t), t);
    assert TenantInv(c, Of(q.entries, tenant), tenant);
    OfConcat(q.entries, [e], tenant);
    assert Of([e], tenant) == if t.tenant == tenant then [e] else [];
    SameShares(c, c.Ranked(t));
    assert e.key.score == c.Start(t.tenant) + Share(c, t);
  }

  lemma TakeProgress(q: Queue, i: nat, tenant: string)
    requires Inv(q) && IsNext(q.entries, i)
    ensures var e, es' := q.entries[i], Of(Without(q.entries, i), tenant);
            var gain := if e.task.tenant == tenant then Share(q.ranking.clock, e.task) else 0.0;
            && gain == CostOf([e], tenant) / Weight(q, tenant)
            && Progress(q.Take(i), tenant) >= Progress(q, tenant) + gain
            && (Of(q.entries, tenant) != [] && es' != [] ==> Progress(q.Take(i), tenant) == Progress(q, tenant) + gain)
  {
    var c, e := q.ranking.clock, q.entries[i];
    var es := Of(q.entries, tenant);
    assert TenantInv(c, es, tenant);
    NextIsTenantsFirst(q, i, tenant);
    TakeKeepsInv(q, i);
    TagsAreNotBehind(q, e);
    SameShares(c, q.Take(i).ranking.clock);
    CostOfOne(e, tenant);
    if e.task.tenant == tenant && |es| > 1 {
      assert es[1].key.score == es[0].key.score + Share(c, es[1].task);
    }
  }

  lemma CostOfOne(e: Entry, tenant: string)
    ensures CostOf([e], tenant) == if e.task.tenant == tenant then Cost(e.task) else 0.0
  {
  }

  ghost predicate Backlogged(q: Queue, steps: seq<Step>, tenant: string)
    decreases |steps|
  {
    Of(q.entries, tenant) != [] && (steps == [] || Backlogged(Do(q, steps[0]), steps[1..], tenant))
  }

  /** Over a whole run, progress rises by at least the service received divided by the weight, and by
      exactly that while the tenant is backlogged. */
  lemma {:induction false} RunProgress(q: Queue, steps: seq<Step>, tenant: string)
    requires Inv(q) && q.ranking.Fair? && IsRun(q, steps)
    ensures Inv(After(q, steps)) && Weight(After(q, steps), tenant) == Weight(q, tenant)
    ensures Progress(After(q, steps), tenant) >= Progress(q, tenant) + Per(Service(q, steps, tenant), Weight(q, tenant))
    ensures Backlogged(q, steps, tenant) ==>
              Progress(After(q, steps), tenant) ==
              Progress(q, tenant) + Per(Service(q, steps, tenant), Weight(q, tenant))
    decreases |steps|
  {
    hide Inv, Progress, CostOf, Per, Of, Weight, Do;
    if steps == [] {
      NoService(q, tenant);
    } else {
      var q' := Do(q, steps[0]);
      StepProgress(q, steps[0], tenant);
      StepKeepsWeights(q, steps[0]);
      RunProgress(q', steps[1..], tenant);
      CostOfConcat(Dispatched(q, steps[0]), DispatchLog(q', steps[1..]), tenant);
      DivideSum(CostOf(Dispatched(q, steps[0]), tenant), Service(q', steps[1..], tenant), Weight(q, tenant));
    }
  }

  lemma NoService(q: Queue, tenant: string)
    requires q.ranking.Fair?
    ensures Per(Service(q, [], tenant), Weight(q, tenant)) == 0.0
  {
  }

  lemma {:induction false} CostOfConcat(a: seq<Entry>, b: seq<Entry>, tenant: string)
    ensures CostOf(a + b, tenant) == CostOf(a, tenant) + CostOf(b, tenant)
  {
    if a == [] {
      assert a + b == b;
    } else {
      assert (a + b)[1..] == a[1..] + b;
      CostOfConcat(a[1..], b, tenant);
    }
  }

  // ---------- the theorems ----------

  /** The declared milliseconds of the entries of one tenant, each entry counting for one at least. */
  function MillisOf(entries: seq<Entry>, tenant: string): nat {
    if entries == [] then 0
    else (if entries[0].task.tenant != tenant then 0
          else if entries[0].task.execMillis < 1 then 1 else entries[0].task.execMillis)
         + MillisOf(entries[1..], tenant)
  }

  lemma {:induction false} CostIsMillis(entries: seq<Entry>, tenant: string)
    ensures CostOf(entries, tenant) == MillisOf(entries, tenant) as real
  {
    if entries != [] {
      CostIsMillis(entries[1..], tenant);
    }
  }

  /** The milliseconds of work a run dispatches for a tenant. */
  function Served(q: Queue, steps: seq<Step>, tenant: string): nat {
    MillisOf(DispatchLog(q, steps), tenant)
  }

  /** No pending task of the tenant counts for more than `longest` milliseconds. */
  ghost predicate LastAtMost(q: Queue, tenant: string, longest: nat) {
    forall e :: e in q.entries && e.task.tenant == tenant ==> 1 <= longest && e.task.execMillis <= longest
  }

  lemma LastingIsCosting(q: Queue, tenant: string, longest: nat)
    requires LastAtMost(q, tenant, longest)
    ensures CostsAtMost(q, tenant, longest as real)
  {
  }

  /** Service follows weight. Whatever happened before and whatever arrives meanwhile, while tenants i and j
      both have tasks pending, the milliseconds they are served per unit of configured weight differ by at most
      one task of each: the longest ones pending when the window opens and when it closes. */
  lemma ServiceFollowsWeight(weights: map<string, Positive>, defaultWeight: Positive, before: seq<Step>, q: Queue,
                             window: seq<Step>, i: string, j: string, longestI: nat, longestJ: nat)
    requires IsRun(Empty(weights, defaultWeight), before) && q == After(Empty(weights, defaultWeight), before)
    requires IsRun(q, window) && Backlogged(q, window, i) && Backlogged(q, window, j)
    requires LastAtMost(q, i, longestI) && LastAtMost(After(q, window), i, longestI)
    requires LastAtMost(q, j, longestJ) && LastAtMost(After(q, window), j, longestJ)
    ensures var wi := if i in weights then weights[i] else defaultWeight;
            var wj := if j in weights then weights[j] else defaultWeight;
            var gap := Served(q, window, i) as real / wi - Served(q, window, j) as real / wj;
            var most := longestI as real / wi + longestJ as real / wj;
            -most <= gap <= most
  {
    var empty := Empty(weights, defaultWeight);
    EmptyInv(weights, defaultWeight);
    RunProgress(empty, before, i);
    RunProgress(empty, before, j);
    ProgressInWindow(q, window, i, longestI);
    ProgressInWindow(q, window, j, longestJ);
  }

  /** While a tenant is backlogged, what it is served per unit of weight is as far as virtual time moves, give or
      take its longest task. */
  lemma ProgressInWindow(q: Queue, window: seq<Step>, tenant: string, longest: nat)
    requires Inv(q) && IsRun(q, window) && Backlogged(q, window, tenant)
    requires LastAtMost(q, tenant, longest) && LastAtMost(After(q, window), tenant, longest)
    ensures q.ranking.Fair? && After(q, window).ranking.Fair?
    ensures var w := Weight(q, tenant);
            var moved := After(q, window).ranking.clock.virtualTime - q.ranking.clock.virtualTime;
            moved - longest as real / w <= Served(q, window, tenant) as real / w <= moved + longest as real / w
  {
    hide Inv, LastAtMost, CostsAtMost, Weight, Progress, IsRun, Backlogged, CostOf, MillisOf, DispatchLog, After;
    FairHasClock(q);
    RunProgress(q, window, tenant);
    FairHasClock(After(q, window));
    CostIsMillis(DispatchLog(q, window), tenant);
    LastingIsCosting(q, tenant, longest);
    LastingIsCosting(After(q, window), tenant, longest);
    ProgressNearClock(q, tenant, longest as real);
    ProgressNearClock(After(q, window), tenant, longest as real);
  }

  lemma FairHasClock(q: Queue)
    requires Inv(q)
    ensures q.ranking.Fair?
  {
  }

  /** e is pending at every point of the run. */
  ghost predicate Waits(q: Queue, steps: seq<Step>, e: Entry)
    decreases |steps|
  {
    e in q.entries && (steps == [] || Waits(Do(q, steps[0]), steps[1..], e))
  }

  /** While e waits, virtual time does not pass its tag. */
  lemma {:induction false} ClockStaysBelow(q: Queue, steps: seq<Step>, e: Entry)
    requires Inv(q) && IsRun(q, steps) && Waits(q, steps, e)
    ensures Inv(After(q, steps)) && After(q, steps).ranking.clock.virtualTime <= e.key.score
    decreases |steps|
  {
    if steps == [] {
      TagsAreNotBehind(q, e);
    } else {
      StepKeepsInv(q, steps[0]);
      ClockStaysBelow(Do(q, steps[0]), steps[1..], e);
    }
  }

  /** No starvation. From the moment a task is admitted until it is dispatched, another tenant is served no more
      milliseconds per unit of configured weight than the task's tag is away from virtual time, plus one task it
      already had. */
  lemma WaitIsBounded(q: Queue, t: Task, q1: Queue, window: seq<Step>, j: string, longest: nat)
    requires Inv(q) && q1 == q.Admit(t)
    requires IsRun(q1, window) && Waits(q1, window, q1.entries[|q1.entries| - 1])
    requires LastAtMost(q1, j, longest)
    ensures var (clock, tag) := (q.ranking.clock, q1.entries[|q1.entries| - 1].key.score);
            var w := if j in clock.weights then clock.weights[j] else clock.defaultWeight;
            Served(q1, window, j) as real / w <= (tag - clock.virtualTime) + longest as real / w
  {
    AdmitKeepsInv(q, t);
    LastingIsCosting(q1, j, longest);
    CostIsMillis(DispatchLog(q1, window), j);
    ShareBelowTag(q1, window, q1.entries[|q1.entries| - 1], j, longest as real);
  }

  lemma ShareBelowTag(q: Queue, window: seq<Step>, e: Entry, j: string, largest: real)
    requires Inv(q) && IsRun(q, window) && Waits(q, window, e) && CostsAtMost(q, j, largest)
    ensures Service(q, window, j) / Weight(q, j) <=
            e.key.score - q.ranking.clock.virtualTime + largest / Weight(q, j)
  {
    RunProgress(q, window, j);
    ProgressNearClock(q, j, largest);
    ClockStaysBelow(q, window, e);
    ProgressAtMostClock(After(q, window), j);
  }

  lemma ProgressAtMostClock(q: Queue, tenant: string)
    requires Inv(q)
    ensures Progress(q, tenant) <= q.ranking.clock.virtualTime
  {
    assert TenantInv(q.ranking.clock, Of(q.entries, tenant), tenant);
  }

  /** The service a weight stands for over a distance d of virtual time. */
  function Earned(weight: real, d: real): real {
    weight * d
  }

  lemma ClearDivision(s: real, d: real, l: real, w: Positive)
    requires s / w <= d + l / w
    ensures s <= Earned(w, d) + l
  {
    assert (s / w) * w == s && (l / w) * w == l;
    assert (s / w) * w <= (d + l / w) * w;
  }

  /** For a tenant with nothing pending the distance is exactly its own milliseconds over its configured weight, so
      how long its task waits does not depend on how much anyone else has queued. */
  lemma IdleTenantsDistance(q: Queue, t: Task)
    requires Inv(q) && Of(q.entries, t.tenant) == []
    ensures var clock := q.ranking.clock;
            var w := if t.tenant in clock.weights then clock.weights[t.tenant] else clock.defaultWeight;
            q.ranking.KeyFor(t).score - clock.virtualTime == (if t.execMillis < 1 then 1 else t.execMillis) as real / w
  {
    assert TenantInv(q.ranking.clock, Of(q.entries, t.tenant), t.tenant);
  }

  // ---------- a waiting task is reached ----------

  function Largest(entries: seq<Entry>, tenant: string): real {
    if entries == [] then 0.0
    else
      var rest := Largest(entries[1..], tenant);
      if entries[0].task.tenant == tenant && Cost(entries[0].task) > rest then Cost(entries[0].task) else rest
  }

  lemma {:induction false} LargestBounds(entries: seq<Entry>, tenant: string)
    ensures Largest(entries, tenant) >= 0.0
    ensures forall e :: e in entries && e.task.tenant == tenant ==> Cost(e.task) <= Largest(entries, tenant)
  {
    if entries != [] {
      LargestBounds(entries[1..], tenant);
      assert entries == [entries[0]] + entries[1..];
    }
  }

  function TotalCost(entries: seq<Entry>, tenants: seq<string>): real {
    if tenants == [] then 0.0 else CostOf(entries, tenants[0]) + TotalCost(entries, tenants[1..])
  }

  /** Service one tenant can receive while virtual time advances by d: its weight times the distance, and
      one task it already has. */
  function Allowance(q: Queue, d: real, tenant: string): real
    requires q.ranking.Fair?
  {
    Earned(Weight(q, tenant), d) + Largest(q.entries, tenant)
  }

  /** Service all these tenants together can receive while virtual time advances by d. */
  function Budget(q: Queue, d: real, tenants: seq<string>): real
    requires q.ranking.Fair?
  {
    if tenants == [] then 0.0 else Allowance(q, d, tenants[0]) + Budget(q, d, tenants[1..])
  }

  lemma ServiceWithinAllowance(q: Queue, window: seq<Step>, e: Entry, d: real, tenant: string)
    requires Inv(q) && q.ranking.Fair? && IsRun(q, window) && Waits(q, window, e)
    requires d == e.key.score - q.ranking.clock.virtualTime
    ensures CostOf(DispatchLog(q, window), tenant) <= Allowance(q, d, tenant)
  {
    hide Inv, IsRun, Waits, Weight, Earned;
    var largest := Largest(q.entries, tenant);
    LargestBounds(q.entries, tenant);
    ShareBelowTag(q, window, e, tenant, largest);
    ClearDivision(Service(q, window, tenant), d, largest, Weight(q, tenant));
  }

  lemma CostIsAtLeastOne(t: Task)
    ensures Cost(t) >= 1.0
  {
  }

  lemma {:induction false} CostNotNegative(entries: seq<Entry>, tenant: string)
    ensures CostOf(entries, tenant) >= 0.0
  {
    if entries != [] { CostNotNegative(entries[1..], tenant); }
  }

  lemma {:induction false} TotalCostOfMore(e: Entry, rest: seq<Entry>, tenants: seq<string>)
    ensures TotalCost([e] + rest, tenants) >= TotalCost(rest, tenants) + if e.task.tenant in tenants then 1.0 else 0.0
  {
    if tenants != [] {
      TotalCostOfMore(e, rest, tenants[1..]);
      assert tenants == [tenants[0]] + tenants[1..];
      assert ([e] + rest)[1..] == rest;
      CostIsAtLeastOne(e.task);
    }
  }

  lemma {:induction false} EachCostsOne(log: seq<Entry>, tenants: seq<string>)
    requires forall e :: e in log ==> e.task.tenant in tenants
    ensures |log| as real <= TotalCost(log, tenants)
  {
    if log == [] {
      TotalOfNothing(tenants);
    } else {
      assert log == [log[0]] + log[1..];
      EachCostsOne(log[1..], tenants);
      TotalCostOfMore(log[0], log[1..], tenants);
    }
  }

  lemma {:induction false} TotalOfNothing(tenants: seq<string>)
    ensures TotalCost([], tenants) == 0.0
  {
    if tenants != [] { TotalOfNothing(tenants[1..]); }
  }

  lemma {:induction false} TotalWithinBudget(q: Queue, window: seq<Step>, e: Entry, d: real, tenants: seq<string>)
    requires Inv(q) && q.ranking.Fair? && IsRun(q, window) && Waits(q, window, e)
    requires d == e.key.score - q.ranking.clock.virtualTime
    ensures TotalCost(DispatchLog(q, window), tenants) <= Budget(q, d, tenants)
  {
    hide Inv, IsRun, Waits, Allowance, CostOf;
    if tenants != [] {
      TotalWithinBudget(q, window, e, d, tenants[1..]);
      ServiceWithinAllowance(q, window, e, d, tenants[0]);
    }
  }

  /** Every pending task is dispatched, and soon: however many tasks those tenants go on to submit, at most
      `Budget` dispatches can precede it, a number fixed by the queue as it stands now. */
  lemma DispatchWithinBudget(q: Queue, window: seq<Step>, e: Entry, tenants: seq<string>)
    requires Inv(q) && IsRun(q, window) && Waits(q, window, e)
    requires forall n :: n in DispatchLog(q, window) ==> n.task.tenant in tenants
    ensures |DispatchLog(q, window)| as real <= Budget(q, e.key.score - q.ranking.clock.virtualTime, tenants)
  {
    EachCostsOne(DispatchLog(q, window), tenants);
    TotalWithinBudget(q, window, e, e.key.score - q.ranking.clock.virtualTime, tenants);
  }
}
