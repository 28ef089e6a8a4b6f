/** Tasks and the key every policy orders them by (internal/domain, internal/scheduler/policy, and the
    stateless policies fifo, priority and edf). Scores are float64 in the program and `real` here; the
    scores of the stateless policies are integers, shown below to stay where float64 is exact. */
module Ordering {
  import opened Text

  /** domain.Task. Instants are whole Unix milliseconds; `None` is Go's zero time. */
  datatype Task = Task(
    id: string,
    tenant: string,
    submittedAt: int,
    execMillis: int,
    priority: int,
    deadline: Option<int>,
    retryCount: int,
    maxRetries: int,
    attemptId: string)
  {
    /** Task.DeadlineMillis: zero means no deadline. */
    function DeadlineMillis(): int {
      match deadline case None => 0 case Some(d) => d
    }
  }

  const MAX_PRIORITY: int := 255

  datatype Key = Key(score: real, member: string) {
    /** Should this key be dispatched before `other`? */
    predicate Less(other: Key) {
      if score != other.score then score < other.score else Text.Less(member, other.member)
    }
  }

  ghost predicate AtMost(a: Key, b: Key) {
    !b.Less(a)
  }

  lemma AtMostIsTransitive(a: Key, b: Key, c: Key)
    requires AtMost(a, b) && AtMost(b, c)
    ensures AtMost(a, c)
  {
    if c.Less(a) {
      LessIsTotal(a.member, b.member);
      LessIsTotal(b.member, c.member);
      if Less(c.member, a.member) && Less(a.member, b.member) {
        LessIsTransitive(c.member, a.member, b.member);
      }
    }
  }

  /** Less is a strict total order on keys. */
  lemma KeyOrderIsTotal(a: Key, b: Key)
    ensures a.Less(b) || a == b || b.Less(a)
    ensures a.Less(b) ==> a != b && AtMost(a, b)
  {
    LessIsTotal(a.member, b.member);
  }

  // ---------- the tie-break member ----------

  const MILLIS_DIGITS: nat := 13

  function MemberOf(millis: int, id: string): string {
    ZeroPadded(millis, MILLIS_DIGITS) + [SEPARATOR] + id
  }

  function MemberFor(t: Task): string {
    MemberOf(t.submittedAt, t.id)
  }

  /** The scan of policy.TaskIDFromMember, which is also the one the dispatch script does with
      string.find: everything after the first separator. */
  function TaskIdIn(member: string): Option<string> {
    if member == [] then None
    else if member[0] == SEPARATOR then Some(member[1..])
    else TaskIdIn(member[1..])
  }

  method TaskIdFromMember(member: string) returns (id: Option<string>)
    ensures id.None? <==> SEPARATOR !in member
    ensures id.Some? ==>
              exists k :: 0 <= k < |member| && SEPARATOR !in member[..k] && member[k] == SEPARATOR &&
                          id.value == member[k + 1..]
    ensures id == TaskIdIn(member)
  {
    var i := 0;
    while i < |member|
      invariant 0 <= i <= |member| && SEPARATOR !in member[..i]
      invariant TaskIdIn(member) == TaskIdIn(member[i..])
    {
      if member[i] == SEPARATOR {
        return Some(member[i + 1..]);
      }
      i := i + 1;
    }
    return None;
  }

  lemma {:induction false} TaskIdAfterPrefix(p: string, id: string)
    requires SEPARATOR !in p
    ensures TaskIdIn(p + [SEPARATOR] + id) == Some(id)
  {
    var m := p + [SEPARATOR] + id;
    if p == [] {
      assert m[1..] == id;
    } else {
      assert m[0] == p[0] && m[1..] == p[1..] + [SEPARATOR] + id;
      TaskIdAfterPrefix(p[1..], id);
    }
  }

  /** The id survives the round trip for every task, even when it holds a separator itself and even
      when the submission time is negative or too wide for the padding. */
  lemma MemberRoundTrip(t: Task)
    ensures TaskIdIn(MemberFor(t)) == Some(t.id)
  {
    PaddedHasNoSeparator(t.submittedAt, MILLIS_DIGITS);
    TaskIdAfterPrefix(ZeroPadded(t.submittedAt, MILLIS_DIGITS), t.id);
  }

  /** Submission times the encodings are exact for: from 1970 to the year 2286. */
  const MILLIS_BOUND: int := 10_000_000_000_000

  predicate MillisInRange(millis: int) {
    0 <= millis < MILLIS_BOUND
  }

  lemma MillisBoundIsPow10()
    ensures Pow10(MILLIS_DIGITS) == MILLIS_BOUND
  {
    assert Pow10(5) == 100_000;
    assert Pow10(9) == 10_000 * Pow10(5);
    assert Pow10(13) == 10_000 * Pow10(9);
  }

  /** Members compare as (submission time, id). */
  lemma MemberOrder(a: Task, b: Task)
    requires MillisInRange(a.submittedAt) && MillisInRange(b.submittedAt)
    ensures Less(MemberFor(a), MemberFor(b)) <==>
            a.submittedAt < b.submittedAt || (a.submittedAt == b.submittedAt && Less(a.id, b.id))
  {
    MillisBoundIsPow10();
    PaddedIsFixed(a.submittedAt, MILLIS_DIGITS);
    PaddedIsFixed(b.submittedAt, MILLIS_DIGITS);
    var s, t := [SEPARATOR] + a.id, [SEPARATOR] + b.id;
    assert MemberFor(a) == Fixed(a.submittedAt, MILLIS_DIGITS) + s;
    assert MemberFor(b) == Fixed(b.submittedAt, MILLIS_DIGITS) + t;
    FixedOrder(a.submittedAt, b.submittedAt, MILLIS_DIGITS, s, t);
    LessSkipsPrefix([SEPARATOR], a.id, b.id);
  }

  lemma MemberIsPadded(millis: int, id: string)
    ensures MemberOf(millis, id) == ZeroPadded(millis, MILLIS_DIGITS) + ([SEPARATOR] + id)
  {
  }

  /** The range is exact: from 1970 on, a time sorts after every earlier one, whatever the ids, if and only if
      it is before the year 2286. */
  lemma MemberRangeIsExact(t: nat)
    ensures t < MILLIS_BOUND <==>
            forall s: nat, i: string, j: string :: s < t ==> Less(MemberOf(s, i), MemberOf(t, j))
  {
    MillisBoundIsPow10();
    if t < MILLIS_BOUND {
      forall s: nat, i: string, j: string | s < t ensures Less(MemberOf(s, i), MemberOf(t, j)) {
        MemberIsPadded(s, i);
        MemberIsPadded(t, j);
        PaddedOrder(s, t, MILLIS_DIGITS, [SEPARATOR] + i, [SEPARATOR] + j);
      }
    } else {
      var s := MILLIS_BOUND - 1;
      MemberIsPadded(s, "");
      MemberIsPadded(t, "");
      WideSortsBeforeNines(t, MILLIS_DIGITS, "", "");
      assert !Less(MemberOf(s, ""), MemberOf(t, ""));
    }
  }

  /** How far back from 1970 the padding reaches, the sign taking one digit. */
  const NEGATIVE_BOUND: int := 1_000_000_000_000

  lemma NegativeBoundIsPow10()
    ensures Pow10(MILLIS_DIGITS - 1) == NEGATIVE_BOUND
  {
    MillisBoundIsPow10();
  }

  /** Times before 1970 are valid submission times. They sort before all later ones, and among each other
      backwards: a time sorts before every earlier one if and only if it is within the padding. */
  lemma MemberOrderBelowZero(t: int)
    requires t < 0
    ensures forall s: nat, i: string, j: string :: Less(MemberOf(t, i), MemberOf(s, j))
    ensures t > -NEGATIVE_BOUND <==>
            forall s: int, i: string, j: string :: t < s < 0 ==> Less(MemberOf(s, i), MemberOf(t, j))
  {
    NegativeBoundIsPow10();
    NegativeIsSigned(t, MILLIS_DIGITS);
    forall s: nat, i: string, j: string ensures Less(MemberOf(t, i), MemberOf(s, j)) {
      StartsWithDigit(s);
      assert MemberOf(t, i)[0] == '-' && MemberOf(s, j)[0] == ZeroPadded(s, MILLIS_DIGITS)[0];
    }
    if t > -NEGATIVE_BOUND {
      forall s: int, i: string, j: string | t < s < 0 ensures Less(MemberOf(s, i), MemberOf(t, j)) {
        SignIsSkipped(s, t, i, j);
        PaddedOrder(-s, -t, MILLIS_DIGITS - 1, [SEPARATOR] + i, [SEPARATOR] + j);
      }
    } else {
      var s := 1 - NEGATIVE_BOUND;
      SignIsSkipped(s, t, "", "");
      WideSortsBeforeNines(-t, MILLIS_DIGITS - 1, "", "");
      assert !Less(MemberOf(s, ""), MemberOf(t, ""));
    }
  }

  lemma StartsWithDigit(s: nat)
    ensures ZeroPadded(s, MILLIS_DIGITS) != [] && ZeroPadded(s, MILLIS_DIGITS)[0] >= '0'
  {
    DecimalIsDigits(s);
  }

  lemma SignIsSkipped(s: int, t: int, i: string, j: string)
    requires s < 0 && t < 0
    ensures Less(MemberOf(s, i), MemberOf(t, j)) <==>
            Less(ZeroPadded(-s, MILLIS_DIGITS - 1) + ([SEPARATOR] + i),
                 ZeroPadded(-t, MILLIS_DIGITS - 1) + ([SEPARATOR] + j))
  {
    NegativeIsSigned(s, MILLIS_DIGITS);
    NegativeIsSigned(t, MILLIS_DIGITS);
    var a := ZeroPadded(-s, MILLIS_DIGITS - 1) + ([SEPARATOR] + i);
    var b := ZeroPadded(-t, MILLIS_DIGITS - 1) + ([SEPARATOR] + j);
    assert MemberOf(s, i) == ['-'] + a && MemberOf(t, j) == ['-'] + b;
    LessSkipsPrefix(['-'], a, b);
  }

  // ---------- fifo ----------

  function FifoKey(t: Task): Key {
    Key(t.submittedAt as real, MemberFor(t))
  }

  /** The score is the time itself, so this order needs no range. */
  lemma FifoOrder(a: Task, b: Task)
    ensures FifoKey(a).Less(FifoKey(b)) <==>
            a.submittedAt < b.submittedAt || (a.submittedAt == b.submittedAt && Less(a.id, b.id))
  {
    if a.submittedAt == b.submittedAt {
      LessSkipsPrefix(ZeroPadded(a.submittedAt, MILLIS_DIGITS) + [SEPARATOR], a.id, b.id);
    }
  }

  // ---------- priority ----------

  const BAND_WIDTH: int := 10_000_000_000_000
  /** Integers up to here are exact in float64. */
  const EXACT_FLOAT: int := 9_007_199_254_740_992

  function Clamped(priority: int): int {
    if priority < 0 then 0 else if priority > MAX_PRIORITY then MAX_PRIORITY else priority
  }

  function PriorityScore(t: Task): int {
    (MAX_PRIORITY - Clamped(t.priority)) * BAND_WIDTH + t.submittedAt
  }

  function PriorityKey(t: Task): Key {
    Key(PriorityScore(t) as real, MemberFor(t))
  }

  /** Priorities above the greatest rank as it does, those below zero as zero. */
  lemma PriorityIsClamped(t: Task)
    ensures t.priority > 255 ==> PriorityKey(t) == PriorityKey(t.(priority := 255))
    ensures t.priority < 0 ==> PriorityKey(t) == PriorityKey(t.(priority := 0))
  {
  }

  /** One packed score orders by priority first, then by submission time, then by id, for tasks submitted less than
      one band apart; and for times in range it is exact. Priorities beyond the same end of the range from 0 to 255
      count as equal. */
  lemma PriorityOrder(a: Task, b: Task)
    requires -BAND_WIDTH < a.submittedAt - b.submittedAt < BAND_WIDTH
    ensures MillisInRange(a.submittedAt) ==> 0 <= PriorityScore(a) < EXACT_FLOAT
    ensures var (p, q) := (a.priority, b.priority);
            var tied := p == q || (p >= 255 && q >= 255) || (p <= 0 && q <= 0);
            PriorityKey(a).Less(PriorityKey(b)) <==>
              (p > q && !tied) ||
              (tied && (a.submittedAt < b.submittedAt || (a.submittedAt == b.submittedAt && Less(a.id, b.id))))
  {
    var pa, pb := Clamped(a.priority), Clamped(b.priority);
    if pa > pb {
      assert PriorityScore(a) < PriorityScore(b);
    } else if pb > pa {
      assert PriorityScore(b) < PriorityScore(a);
    } else if a.submittedAt == b.submittedAt {
      LessSkipsPrefix(ZeroPadded(a.submittedAt, MILLIS_DIGITS) + [SEPARATOR], a.id, b.id);
    }
  }

  /** One band, some 317 years, is the exact limit: a task of higher priority goes before every one of lower priority
      that was submitted d earlier if and only if d is less than that. */
  lemma BandIsExact(d: nat)
    ensures d < 10_000_000_000_000 <==>
            forall a: Task, b: Task ::
              0 <= b.priority < a.priority <= 255 && a.submittedAt - b.submittedAt == d ==>
                PriorityKey(a).Less(PriorityKey(b))
  {
    if d < BAND_WIDTH {
      forall a: Task, b: Task | 0 <= b.priority < a.priority <= 255 && a.submittedAt - b.submittedAt == d
        ensures PriorityKey(a).Less(PriorityKey(b))
      {
        PriorityOrder(a, b);
      }
    } else {
      var a := Task("", "", 0, 0, 1, None, 0, 0, "");
      var earlier: int := 0 - d;
      var b := a.(submittedAt := earlier, priority := 0);
      MemberOrderBelowZero(earlier);
      LessIsTotal(MemberFor(b), MemberFor(a));
      assert PriorityScore(a) >= PriorityScore(b);
      assert !PriorityKey(a).Less(PriorityKey(b));
    }
  }

  // ---------- earliest deadline first ----------

  const NO_DEADLINE_SCORE: int := 1_000_000_000_000_000

  function EdfScore(t: Task): int {
    if t.DeadlineMillis() != 0 then t.DeadlineMillis() else NO_DEADLINE_SCORE
  }

  function EdfKey(t: Task): Key {
    Key(EdfScore(t) as real, MemberFor(t))
  }

  /** The task is due at some time other than the Unix epoch, which the program takes for no deadline. */
  predicate IsDated(t: Task) {
    t.deadline.Some? && t.deadline.value != 0
  }

  /** a is due before b, with tasks that have no deadline due after everything. */
  predicate DueBefore(a: Task, b: Task) {
    IsDated(a) && (!IsDated(b) || a.deadline.value < b.deadline.value)
  }

  lemma EdfOrder(a: Task, b: Task)
    requires MillisInRange(a.submittedAt) && MillisInRange(b.submittedAt)
    requires IsDated(a) ==> a.deadline.value < NO_DEADLINE_SCORE
    requires IsDated(b) ==> b.deadline.value < NO_DEADLINE_SCORE
    ensures EdfScore(a) < EXACT_FLOAT
    ensures EdfKey(a).Less(EdfKey(b)) <==>
            DueBefore(a, b) ||
            (!DueBefore(b, a) &&
             (a.submittedAt < b.submittedAt || (a.submittedAt == b.submittedAt && Less(a.id, b.id))))
  {
    MemberOrder(a, b);
  }

  /** The sentinel works exactly for deadlines below it: a task without a deadline is ordered after a
      dated one whatever their submission times if and only if the date is below the sentinel. */
  lemma EdfSentinelIsExact(d: int)
    requires d != 0
    ensures d < NO_DEADLINE_SCORE <==>
            forall a: Task, b: Task :: a.deadline == Some(d) && b.deadline == None ==> EdfKey(a).Less(EdfKey(b))
  {
    if d >= NO_DEADLINE_SCORE {
      var a := Task("", "", 1, 0, 0, Some(d), 0, 0, "");
      var b := a.(submittedAt := 0, deadline := None);
      MemberOrder(b, a);
      LessIsTotal(MemberFor(b), MemberFor(a));
      assert !EdfKey(a).Less(EdfKey(b));
    }
  }
}
