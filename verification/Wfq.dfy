/** Weighted fair queuing by self-clocked virtual finish times (internal/scheduler/wfq/wfq.go).

    `Clock` is the value a policy object holds; `WfqPolicy` is the object, whose methods update its
    fields in place and are proved against `Clock`. Tags, costs and weights are `real`: float64
    rounding is not modelled. */
module Wfq {
  import opened Text
  import opened Ordering

  type Positive = w: real | w > 0.0 witness 1.0

  /** What a task is charged: its declared duration, or one unit when that is not positive. */
  function Cost(t: Task): Positive {
    if t.execMillis <= 0 then 1.0 else t.execMillis as real
  }

  datatype Clock = Clock(
    weights: map<string, Positive>,
    defaultWeight: Positive,
    virtualTime: real,
    lastFinish: map<string, real>)
  {
    function Weight(tenant: string): Positive {
      if tenant in weights then weights[tenant] else defaultWeight
    }

    function Start(tenant: string): real {
      if tenant in lastFinish && lastFinish[tenant] > virtualTime then lastFinish[tenant] else virtualTime
    }

    function Finish(t: Task): real {
      Start(t.tenant) + Cost(t) / Weight(t.tenant)
    }

    /** The clock after ranking t: the tenant's finish tag moves, virtual time does not. */
    function Ranked(t: Task): Clock {
      this.(lastFinish := lastFinish[t.tenant := Finish(t)])
    }

    /** The clock after a task with finish tag `tag` has been dispatched. */
    function Notified(tag: real): Clock {
      if tag > virtualTime then this.(virtualTime := tag) else this
    }
  }

  // ---------- saved state ----------

  /** One field of the saved policy state. The program stores text; `Number` is text that
      strconv.ParseFloat accepts, and 17 significant digits bring back the same float64. */
  datatype Field = Number(value: real) | Garbage(text: string)

  const STATE_VIRTUAL_TIME: string := "vtime"
  const STATE_FINISH_PREFIX: string := "lf:"

  predicate IsFinishField(k: string) {
    STATE_FINISH_PREFIX <= k
  }

  /** A field Restore accepts. */
  predicate Restorable(k: string, f: Field) {
    f.Number? && (k == STATE_VIRTUAL_TIME || IsFinishField(k))
  }

  ghost predicate SavedFor(state: map<string, Field>, c: Clock) {
    && state.Keys == {STATE_VIRTUAL_TIME} + (set tenant | tenant in c.lastFinish :: STATE_FINISH_PREFIX + tenant)
    && state[STATE_VIRTUAL_TIME] == Number(c.virtualTime)
    && forall tenant :: tenant in c.lastFinish ==>
                          state[STATE_FINISH_PREFIX + tenant] == Number(c.lastFinish[tenant])
  }

  lemma SaveOne(state: map<string, Field>, c: Clock, tenant: string, finish: real)
    requires SavedFor(state, c)
    ensures SavedFor(state[STATE_FINISH_PREFIX + tenant := Number(finish)],
                     c.(lastFinish := c.lastFinish[tenant := finish]))
  {
    FinishIsNotVirtualTime();
    var k := STATE_FINISH_PREFIX + tenant;
    forall other: string | other != tenant ensures STATE_FINISH_PREFIX + other != k {
      assert (STATE_FINISH_PREFIX + other)[3..] == other && k[3..] == tenant;
    }
  }

  /** A policy holds exactly what the fields named in `applied` say, and zero for the rest. */
  ghost predicate HoldsFields(virtualTime: real, lastFinish: map<string, real>,
                              state: map<string, Field>, applied: set<string>)
    requires applied <= state.Keys
  {
    && (if STATE_VIRTUAL_TIME in applied then state[STATE_VIRTUAL_TIME] == Number(virtualTime) else virtualTime == 0.0)
    && (forall tenant :: tenant in lastFinish <==> STATE_FINISH_PREFIX + tenant in applied)
    && (forall tenant :: tenant in lastFinish ==> state[STATE_FINISH_PREFIX + tenant] == Number(lastFinish[tenant]))
  }

  /** The fields whose names sort before `bad`; all of them when there is none. */
  ghost function Before(state: map<string, Field>, bad: Option<string>): set<string> {
    match bad
    case None => state.Keys
    case Some(b) => set k | k in state && Less(k, b)
  }

  ghost function Elements(keys: seq<string>): set<string> {
    set k | k in keys
  }

  ghost predicate IsLeastString(s: set<string>, k: string) {
    k in s && forall x :: x in s && x != k ==> Less(k, x)
  }

  lemma {:induction false} LeastStringExists(s: set<string>)
    requires s != {}
    ensures exists k :: IsLeastString(s, k)
  {
    var a :| a in s;
    if s == {a} {
      assert IsLeastString(s, a);
    } else {
      assert s - {a} != {};
      LeastStringExists(s - {a});
      var b :| IsLeastString(s - {a}, b);
      LeastOfTwo(s, a, b);
    }
  }

  lemma LeastOfTwo(s: set<string>, a: string, b: string)
    requires a in s && IsLeastString(s - {a}, b)
    ensures IsLeastString(s, if Less(a, b) then a else b)
  {
    hide Less;
    LessIsTotal(a, b);
    forall x | x in s && x != a && Less(a, b) ensures Less(a, x) {
      if x != b { LessIsTransitive(a, b, x); }
    }
  }

  /** The keys of a state in ascending order. */
  method SortedKeys(state: map<string, Field>) returns (keys: seq<string>)
    ensures forall k :: k in keys <==> k in state
    ensures forall i, j :: 0 <= i < j < |keys| ==> Less(keys[i], keys[j])
  {
    keys := [];
    var rest := state.Keys;
    while rest != {}
      invariant rest <= state.Keys
      invariant forall k :: k in state.Keys <==> k in keys || k in rest
      invariant forall i, k :: 0 <= i < |keys| && k in rest ==> Less(keys[i], k)
      invariant forall i, j :: 0 <= i < j < |keys| ==> Less(keys[i], keys[j])
      decreases |rest|
    {
      LeastStringExists(rest);
      assert exists x :: x in rest && IsLeastString(rest, x);
      var k :| k in rest && forall x :: x in rest && x != k ==> Less(k, x);
      keys := keys + [k];
      rest := rest - {k};
    }
  }

  class WfqPolicy {
    const weights: map<string, Positive>
    const defaultWeight: Positive
    var virtualTime: real
    var lastFinish: map<string, real>

    ghost function Value(): Clock
      reads this
    {
      Clock(weights, defaultWeight, virtualTime, lastFinish)
    }

    constructor Fresh(weights: map<string, Positive>, defaultWeight: Positive)
      ensures Value() == Clock(weights, defaultWeight, 0.0, map[])
    {
      this.weights, this.defaultWeight := weights, defaultWeight;
      virtualTime, lastFinish := 0.0, map[];
    }

    /** wfq.New: a zero default weight means 1, and no weight may be zero or negative. */
    static method New(weights: map<string, real>, defaultWeight: real) returns (p: Option<WfqPolicy>)
      ensures p.Some? <==> defaultWeight >= 0.0 && forall k :: k in weights ==> weights[k] > 0.0
      ensures p.Some? ==> fresh(p.value) && p.value.virtualTime == 0.0 && p.value.lastFinish == map[]
      ensures p.Some? ==> p.value.weights == weights
      ensures p.Some? ==> p.value.defaultWeight == if defaultWeight == 0.0 then 1.0 else defaultWeight
    {
      var def := if defaultWeight == 0.0 then 1.0 else defaultWeight;
      if def <= 0.0 || exists k :: k in weights && weights[k] <= 0.0 {
        return None;
      }
      var checked: map<string, Positive> := map k | k in weights :: weights[k];
      var policy := new WfqPolicy.Fresh(checked, def);
      return Some(policy);
    }

    method Weight(tenant: string) returns (w: Positive)
      ensures w == if tenant in weights then weights[tenant] else defaultWeight
    {
      if tenant in weights { return weights[tenant]; }
      return defaultWeight;
    }

    /** The task starts at virtual time, or where its tenant's last one ends if that is later, and takes its
        declared duration, at least one unit, divided by the tenant's configured weight. */
    method Rank(t: Task) returns (k: Key)
      modifies this`lastFinish
      ensures var weight := if t.tenant in weights then weights[t.tenant] else defaultWeight;
              var last := if t.tenant in old(lastFinish) then old(lastFinish)[t.tenant] else virtualTime;
              var units := if t.execMillis >= 1 then t.execMillis as real else 1.0;
              k == Key((if last > virtualTime then last else virtualTime) + units / weight, MemberFor(t))
      ensures lastFinish == old(lastFinish)[t.tenant := k.score]
      ensures k.score == old(Value()).Finish(t) && Value() == old(Value()).Ranked(t)
    {
      var w := Weight(t.tenant);
      var start := virtualTime;
      if t.tenant in lastFinish && lastFinish[t.tenant] > start {
        start := lastFinish[t.tenant];
      }
      var cost := t.execMillis as real;
      if cost <= 0.0 {
        cost := 1.0;
      }
      var finish := start + cost / w;
      lastFinish := lastFinish[t.tenant := finish];
      k := Key(finish, MemberFor(t));
    }

    method Notify(k: Key)
      modifies this`virtualTime
      ensures virtualTime == if k.score > old(virtualTime) then k.score else old(virtualTime)
      ensures Value() == old(Value()).Notified(k.score)
    {
      if k.score > virtualTime {
        virtualTime := k.score;
      }
    }

    method State() returns (state: map<string, Field>)
      ensures SavedFor(state, Value())
    {
      state := map[STATE_VIRTUAL_TIME := Number(virtualTime)];
      var rest := lastFinish.Keys;
      while rest != {}
        invariant rest <= lastFinish.Keys
        invariant SavedFor(state, Value().(lastFinish := lastFinish - rest))
        decreases |rest|
      {
        var tenant :| tenant in rest;
        SaveOne(state, Value().(lastFinish := lastFinish - rest), tenant, lastFinish[tenant]);
        assert lastFinish - (rest - {tenant}) == (lastFinish - rest)[tenant := lastFinish[tenant]];
        rest := rest - {tenant};
        state := state[STATE_FINISH_PREFIX + tenant := Number(lastFinish[tenant])];
      }
      assert lastFinish - rest == lastFinish;
    }

    /** Loads the fields in ascending order of name and stops at the first one it cannot use. `bad` is
        that field's name; whatever sorts before it has been applied, and nothing else has. */
    method Restore(state: map<string, Field>) returns (bad: Option<string>)
      modifies this
      ensures bad.None? <==> forall k :: k in state ==> Restorable(k, state[k])
      ensures bad.Some? ==> bad.value in state && !Restorable(bad.value, state[bad.value])
      ensures bad.Some? ==> forall k :: k in state && Less(k, bad.value) ==> Restorable(k, state[k])
      ensures HoldsFields(virtualTime, lastFinish, state, Before(state, bad))
    {
      virtualTime, lastFinish := 0.0, map[];
      var keys := SortedKeys(state);
      var i := 0;
      while i < |keys|
        invariant 0 <= i <= |keys|
        invariant Loaded(virtualTime, lastFinish, state, keys[..i])
      {
        var k := keys[i];
        assert keys[..i + 1] == keys[..i] + [k];
        AppliedBefore(state, keys, i);
        if state[k].Garbage? || (k != STATE_VIRTUAL_TIME && !IsFinishField(k)) {
          return Some(k);
        }
        LoadOne(virtualTime, lastFinish, state, keys[..i], k);
        if k == STATE_VIRTUAL_TIME {
          virtualTime := state[k].value;
        } else {
          lastFinish := lastFinish[k[|STATE_FINISH_PREFIX|..] := state[k].value];
        }
        i := i + 1;
      }
      bad := None;
      assert keys[..i] == keys;
      assert Elements(keys) == Before(state, bad);
    }
  }

  /** The fields named so far have been accepted and applied. */
  ghost predicate Loaded(virtualTime: real, lastFinish: map<string, real>, state: map<string, Field>, keys: seq<string>)
  {
    && Elements(keys) <= state.Keys
    && (forall k :: k in Elements(keys) ==> Restorable(k, state[k]))
    && HoldsFields(virtualTime, lastFinish, state, Elements(keys))
  }

  lemma LoadOne(virtualTime: real, lastFinish: map<string, real>, state: map<string, Field>, keys: seq<string>,
                k: string)
    requires Loaded(virtualTime, lastFinish, state, keys)
    requires k in state && Restorable(k, state[k])
    ensures k == STATE_VIRTUAL_TIME ==> Loaded(state[k].value, lastFinish, state, keys + [k])
    ensures k != STATE_VIRTUAL_TIME ==>
              Loaded(virtualTime, lastFinish[k[|STATE_FINISH_PREFIX|..] := state[k].value], state, keys + [k])
  {
    assert Elements(keys + [k]) == Elements(keys) + {k};
    if k == STATE_VIRTUAL_TIME {
      ApplyVirtualTime(virtualTime, lastFinish, state, Elements(keys));
    } else {
      var tenant := k[|STATE_FINISH_PREFIX|..];
      assert k == STATE_FINISH_PREFIX + tenant;
      ApplyFinish(virtualTime, lastFinish, state, Elements(keys), tenant);
    }
  }

  lemma FinishIsNotVirtualTime()
    ensures forall tenant :: STATE_FINISH_PREFIX + tenant != STATE_VIRTUAL_TIME
  {
    forall tenant: string ensures STATE_FINISH_PREFIX + tenant != STATE_VIRTUAL_TIME {
      assert (STATE_FINISH_PREFIX + tenant)[0] == 'l';
    }
  }

  lemma ApplyVirtualTime(virtualTime: real, lastFinish: map<string, real>, state: map<string, Field>,
                         applied: set<string>)
    requires applied <= state.Keys && HoldsFields(virtualTime, lastFinish, state, applied)
    requires STATE_VIRTUAL_TIME in state && state[STATE_VIRTUAL_TIME].Number?
    ensures HoldsFields(state[STATE_VIRTUAL_TIME].value, lastFinish, state, applied + {STATE_VIRTUAL_TIME})
  {
    FinishIsNotVirtualTime();
  }

  lemma ApplyFinish(virtualTime: real, lastFinish: map<string, real>, state: map<string, Field>, applied: set<string>,
                    tenant: string)
    requires applied <= state.Keys && HoldsFields(virtualTime, lastFinish, state, applied)
    requires STATE_FINISH_PREFIX + tenant in state && state[STATE_FINISH_PREFIX + tenant].Number?
    ensures HoldsFields(virtualTime, lastFinish[tenant := state[STATE_FINISH_PREFIX + tenant].value], state,
                        applied + {STATE_FINISH_PREFIX + tenant})
  {
    FinishIsNotVirtualTime();
    var k := STATE_FINISH_PREFIX + tenant;
    forall other: string | other != tenant ensures STATE_FINISH_PREFIX + other != k {
      assert (STATE_FINISH_PREFIX + other)[3..] == other && k[3..] == tenant;
    }
  }

  /** In an ascending list, the keys before position i are the ones less than keys[i]. */
  lemma AppliedBefore(state: map<string, Field>, keys: seq<string>, i: nat)
    requires i < |keys|
    requires forall k :: k in keys <==> k in state
    requires forall a, b :: 0 <= a < b < |keys| ==> Less(keys[a], keys[b])
    ensures Elements(keys[..i]) == set k | k in state && Less(k, keys[i])
    ensures keys[i] in state
  {
    forall k | k in state && Less(k, keys[i]) ensures k in keys[..i] {
      var a :| 0 <= a < |keys| && keys[a] == k;
      LessIsTotal(keys[a], keys[i]);
    }
    forall k | k in keys[..i] ensures k in state && Less(k, keys[i]) {
      var a :| 0 <= a < i && keys[a] == k;
    }
  }

  /** Restoring what was saved brings back the clock exactly, whatever the tenants are called: a name
      may be empty, may be "vtime", may start with "lf:". */
  lemma RestoreUndoesSave(c: Clock, state: map<string, Field>, virtualTime: real, lastFinish: map<string, real>)
    requires SavedFor(state, c)
    ensures forall k :: k in state ==> Restorable(k, state[k])
    ensures HoldsFields(virtualTime, lastFinish, state, state.Keys) <==>
            virtualTime == c.virtualTime && lastFinish == c.lastFinish
  {
    FinishIsNotVirtualTime();
    forall tenant: string
      ensures STATE_FINISH_PREFIX + tenant in state <==> tenant in c.lastFinish
    {
      if STATE_FINISH_PREFIX + tenant in state {
        var other :| other in c.lastFinish && STATE_FINISH_PREFIX + other == STATE_FINISH_PREFIX + tenant;
        assert (STATE_FINISH_PREFIX + other)[3..] == other && (STATE_FINISH_PREFIX + tenant)[3..] == tenant;
      }
    }
    if HoldsFields(virtualTime, lastFinish, state, state.Keys) {
      assert lastFinish.Keys == c.lastFinish.Keys;
      assert lastFinish == c.lastFinish;
    }
  }

  // ---------- runs of the policy alone ----------

  /** What the scheduling engine does to its policy: rank a task it admits, or notify it of a dispatched
      key, in any order and with any keys. */
  datatype ClockStep = RankTask(task: Task) | NotifyKey(key: Key)

  function ClockNext(c: Clock, step: ClockStep): Clock {
    match step
    case RankTask(t) => c.Ranked(t)
    case NotifyKey(k) => c.Notified(k.score)
  }

  function ClockRun(c: Clock, steps: seq<ClockStep>): Clock
    decreases |steps|
  {
    if steps == [] then c else ClockRun(ClockNext(c, steps[0]), steps[1..])
  }

  /** Within a term the clock and every finish tag only grow, however dispatch notices are delayed or
      reordered, and a ranked task's tag always exceeds the tag its tenant had before. */
  lemma {:induction false} ClockOnlyGrows(c: Clock, steps: seq<ClockStep>)
    ensures ClockRun(c, steps).virtualTime >= c.virtualTime
    ensures ClockRun(c, steps).lastFinish.Keys >= c.lastFinish.Keys
    ensures forall k :: k in c.lastFinish ==> ClockRun(c, steps).lastFinish[k] >= c.lastFinish[k]
    ensures forall t: Task :: ClockRun(c, steps).Finish(t) > c.Start(t.tenant)
    ensures ClockRun(c, steps).weights == c.weights && ClockRun(c, steps).defaultWeight == c.defaultWeight
    decreases |steps|
  {
    if steps == [] {
      forall t: Task ensures c.Finish(t) > c.Start(t.tenant) { ShareIsPositive(c, t); }
    } else {
      var c' := ClockNext(c, steps[0]);
      if steps[0].RankTask? { ShareIsPositive(c, steps[0].task); }
      ClockOnlyGrows(c', steps[1..]);
      forall t: Task ensures c'.Start(t.tenant) >= c.Start(t.tenant) {}
    }
  }

  /** Within a term a tenant's tasks are ranked in rising order: whatever is ranked and dispatched in between, a
      later task gets a higher tag. */
  lemma LaterRanksHigher(c: Clock, t: Task, between: seq<ClockStep>, u: Task)
    requires t.tenant == u.tenant
    ensures ClockRun(c.Ranked(t), between).Finish(u) > c.Finish(t)
  {
    ClockOnlyGrows(c.Ranked(t), between);
  }

  /** Across terms that depends on what the successor has read: every later task of the tenant gets a higher tag
      than one ranked before if and only if even the cheapest one does, counted from where the tenant stands. */
  lemma RanksHigherAcrossTerms(restored: Clock, t: Task, tag: real)
    ensures var weight := if t.tenant in restored.weights then restored.weights[t.tenant] else restored.defaultWeight;
            restored.Start(t.tenant) + 1.0 / weight > tag <==>
            forall u: Task :: u.tenant == t.tenant ==> restored.Finish(u) > tag
  {
    var w := restored.Weight(t.tenant);
    forall u: Task | u.tenant == t.tenant ensures restored.Finish(u) >= restored.Start(t.tenant) + 1.0 / w {
      DearerIsLonger(1.0, Cost(u), w);
    }
    var cheapest := t.(execMillis := 1);
    assert restored.Finish(cheapest) == restored.Start(t.tenant) + 1.0 / w;
  }

  /** A successor that reads a snapshot from before a task was ranked may rank a later one of the tenant in front
      of it. */
  lemma LostRankReorders(c: Clock, t: Task)
    requires t.execMillis > 1
    ensures exists u: Task :: u.tenant == t.tenant && c.Finish(u) < c.Finish(t)
  {
    var w, cheapest := c.Weight(t.tenant), t.(execMillis := 1);
    StrictlyLonger(1.0, Cost(t), w);
    assert c.Finish(cheapest) == c.Start(t.tenant) + 1.0 / w < c.Finish(t);
  }

  lemma StrictlyLonger(a: real, b: real, w: Positive)
    requires a < b
    ensures a / w < b / w
  {
  }

  lemma DearerIsLonger(a: real, b: real, w: Positive)
    requires a <= b
    ensures a / w <= b / w
  {
  }

  lemma ShareIsPositive(c: Clock, t: Task)
    ensures Cost(t) / c.Weight(t.tenant) > 0.0
  {
  }
}
