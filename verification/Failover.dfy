/** How long leadership takes to move, with exact timers and instantaneous round trips
    (internal/lease/lease.go:378-487): the renewal ticker of serveTerm, the polling of Campaign, and the
    expiry of the lease key. Times are milliseconds; a key set at time t is there until t + ttl. */
module Failover {
  /** lease.New accepts these. */
  predicate IsConfig(ttl: int, renew: int, retry: int) {
    0 < renew < ttl && retry > 0
  }

  /** When the ticker of a term that started at `start` fires for the k-th time. */
  function Tick(start: int, renew: int, k: nat): int {
    if k == 0 then start else Tick(start, renew, k - 1) + renew
  }

  /** The k-th renewal got through; the grant counts as the first. */
  predicate GotThrough(reached: seq<bool>, k: nat)
    requires k <= |reached|
  {
    k == 0 || reached[k - 1]
  }

  /** The last tick before the k-th whose renewal got through; zero is the grant itself. */
  function LastReached(reached: seq<bool>, k: nat): (j: nat)
    requires 0 < k <= |reached| + 1
    ensures j < k && GotThrough(reached, j)
    ensures forall i :: j < i < k ==> !GotThrough(reached, i)
  {
    if k == 1 then 0 else if reached[k - 2] then k - 1 else LastReached(reached, k - 1)
  }

  /** The renewal at tick k, if it gets through, comes less than a ttl after the one before it. */
  predicate IsPrompt(start: int, ttl: int, renew: int, reached: seq<bool>, k: nat)
    requires 0 < k <= |reached|
  {
    GotThrough(reached, k) ==> Tick(start, renew, k) < Tick(start, renew, LastReached(reached, k)) + ttl
  }

  ghost predicate InTime(start: int, ttl: int, renew: int, reached: seq<bool>, upTo: nat)
    requires upTo <= |reached|
  {
    forall k :: 1 <= k <= upTo ==> IsPrompt(start, ttl, renew, reached, k)
  }

  lemma OneMoreInTime(start: int, ttl: int, renew: int, reached: seq<bool>, k: nat)
    requires 0 < k <= |reached|
    ensures InTime(start, ttl, renew, reached, k) <==>
            InTime(start, ttl, renew, reached, k - 1) && IsPrompt(start, ttl, renew, reached, k)
    ensures InTime(start, ttl, renew, reached, |reached|) ==> IsPrompt(start, ttl, renew, reached, k)
    ensures Tick(start, renew, k) == Tick(start, renew, k - 1) + renew
    ensures LastReached(reached, k + 1) == if GotThrough(reached, k) then k else LastReached(reached, k)
    ensures GotThrough(reached, k) == reached[k - 1]
  {
  }

  lemma NothingLate(start: int, ttl: int, renew: int, reached: seq<bool>)
    ensures InTime(start, ttl, renew, reached, 0) && LastReached(reached, 1) == 0
  {
  }

  /** The renewals of serveTerm. `reached[k - 1]` says whether the k-th round trip succeeded; one that fails
      is tried again at the next tick. The term keeps its lease exactly as long as no two renewals that get
      through are a whole ttl apart. */
  method ServeTerm(start: int, ttl: int, renew: int, reached: seq<bool>) returns (kept: bool, expires: int)
    ensures kept <==> InTime(start, ttl, renew, reached, |reached|)
    ensures kept ==> expires == Tick(start, renew, LastReached(reached, |reached| + 1)) + ttl
  {
    hide InTime, LastReached, GotThrough;
    kept, expires := true, start + ttl;
    NothingLate(start, ttl, renew, reached);
    var now, k := start, 0;
    while k < |reached|
      invariant 0 <= k <= |reached| && now == Tick(start, renew, k)
      invariant kept && InTime(start, ttl, renew, reached, k)
      invariant expires == Tick(start, renew, LastReached(reached, k + 1)) + ttl
    {
      k := k + 1;
      now := now + renew;
      OneMoreInTime(start, ttl, renew, reached, k);
      if !reached[k - 1] {
        continue;
      }
      if now >= expires {
        kept := false;
        return;
      }
      expires := now + ttl;
    }
  }

  /** The key is in the store at time t. */
  ghost predicate IsHeld(start: int, ttl: int, renew: int, reached: seq<bool>, t: int) {
    exists j ::
      && 0 <= j <= |reached| && GotThrough(reached, j)
      && Tick(start, renew, j) <= t < Tick(start, renew, j) + ttl
  }

  /** A term whose renewals are in time holds the key without a break, so nobody else can acquire it. */
  lemma {:induction false} HeldWithoutBreak(start: int, ttl: int, renew: int, reached: seq<bool>, k: nat, t: int)
    requires renew > 0 && k <= |reached| && InTime(start, ttl, renew, reached, |reached|)
    requires start <= t < Tick(start, renew, LastReached(reached, k + 1)) + ttl
    ensures IsHeld(start, ttl, renew, reached, t)
    decreases k
  {
    var j := LastReached(reached, k + 1);
    if Tick(start, renew, j) > t {
      assert j > 0 && IsPrompt(start, ttl, renew, reached, j);
      HeldWithoutBreak(start, ttl, renew, reached, j - 1, t);
    }
  }

  /** A leader that renews every `renew` < ttl, with every round trip getting through, is never without its
      lease. */
  lemma SteadyLeaderKeepsLease(start: int, ttl: int, renew: int, reached: seq<bool>, t: int)
    requires 0 < renew < ttl && forall k :: 0 <= k < |reached| ==> reached[k]
    requires start <= t < Tick(start, renew, |reached|) + ttl
    ensures IsHeld(start, ttl, renew, reached, t)
  {
    HeldWithoutBreak(start, ttl, renew, reached, |reached|, t);
  }

  /** The round trips of a term during which the store is cut off from `from` up to but not including `to`. */
  ghost predicate IsCut(start: int, renew: int, reached: seq<bool>, from: int, to: int) {
    forall k :: 1 <= k <= |reached| ==> (GotThrough(reached, k) <==> !(from <= Tick(start, renew, k) < to))
  }

  /** The longest cut that is always survived: the gap between renewals may span the largest multiple of
      `renew` below the ttl, and a cut has to take in every tick strictly inside such a gap. */
  function SafeCut(ttl: int, renew: int): int
    requires renew > 0
  {
    ((ttl - 1) / renew - 1) * renew
  }

  lemma {:induction false} TickIsLinear(start: int, renew: int, k: nat)
    ensures Tick(start, renew, k) == start + k * renew
  {
    if k > 0 {
      TickIsLinear(start, renew, k - 1);
      assert k * renew == (k - 1) * renew + renew;
    }
  }

  lemma Signs(x: int, c: int)
    requires c > 0
    ensures x >= 0 ==> x * c >= x
    ensures x >= 1 ==> x * c >= c
    ensures x <= -1 ==> x * c <= -c
  {
  }

  lemma Cancel(a: int, b: int, c: int)
    requires c > 0 && a * c < b * c
    ensures a < b
  {
    Signs(a - b, c);
    assert (a - b) * c == a * c - b * c;
  }

  /** Missing `missed` ticks in a row is harmless when a safe cut can cover them. */
  lemma ShortGap(ttl: int, renew: int, missed: nat)
    requires 0 < renew < ttl && missed > 0 && (missed - 1) * renew < SafeCut(ttl, renew)
    ensures (missed + 1) * renew < ttl
  {
    var q := (ttl - 1) / renew;
    Cancel(missed - 1, q - 1, renew);
    Signs(q - (missed + 1), renew);
    assert q * renew == (q - (missed + 1)) * renew + (missed + 1) * renew;
    assert ttl - 1 == renew * q + (ttl - 1) % renew;
  }

  /** A safe cut never moves the lease: wherever it falls, the key is there the whole time. */
  lemma ShortCutKeepsLease(start: int, ttl: int, renew: int, reached: seq<bool>, from: int, to: int)
    requires 0 < renew < ttl && IsCut(start, renew, reached, from, to) && to - from <= SafeCut(ttl, renew)
    ensures InTime(start, ttl, renew, reached, |reached|)
    ensures forall t :: start <= t < Tick(start, renew, LastReached(reached, |reached| + 1)) + ttl ==>
              IsHeld(start, ttl, renew, reached, t)
  {
    forall k | 1 <= k <= |reached| ensures IsPrompt(start, ttl, renew, reached, k) {
      if GotThrough(reached, k) {
        SafeCutIsPrompt(start, ttl, renew, reached, from, to, k);
      }
    }
    forall t | start <= t < Tick(start, renew, LastReached(reached, |reached| + 1)) + ttl
      ensures IsHeld(start, ttl, renew, reached, t)
    {
      HeldWithoutBreak(start, ttl, renew, reached, |reached|, t);
    }
  }

  lemma SafeCutIsPrompt(start: int, ttl: int, renew: int, reached: seq<bool>, from: int, to: int, k: nat)
    requires 0 < renew < ttl && IsCut(start, renew, reached, from, to) && to - from <= SafeCut(ttl, renew)
    requires 1 <= k <= |reached| && GotThrough(reached, k)
    ensures IsPrompt(start, ttl, renew, reached, k)
  {
    hide SafeCut;
    var j := LastReached(reached, k);
    if j + 1 < k {
      assert !GotThrough(reached, j + 1) && !GotThrough(reached, k - 1);
      TickIsLinear(start, renew, j + 1);
      TickIsLinear(start, renew, k - 1);
      var missed := k - 1 - j;
      assert (missed - 1) * renew == (k - 1) * renew - (j + 1) * renew;
      ShortGap(ttl, renew, missed);
      assert (missed + 1) * renew == (k - 1) * renew - (j + 1) * renew + 2 * renew;
    }
  }

  /** Every round trip during the cut fails and every other gets through. */
  function CutOff(start: int, renew: int, n: nat, from: int, to: int): (reached: seq<bool>)
    ensures |reached| == n && forall k :: 0 <= k < n ==> reached[k] == !(from <= Tick(start, renew, k + 1) < to)
  {
    seq(n, k requires 0 <= k < n => !(from <= Tick(start, renew, k + 1) < to))
  }

  lemma LateTick(ttl: int, renew: int, missed: nat, n: nat)
    requires renew > 0 && missed < n && ttl <= (missed + 1) * renew
    ensures Tick(0, renew, n) >= ttl
  {
    TickIsLinear(0, renew, n);
    Signs(n - missed - 1, renew);
    assert n * renew == (missed + 1) * renew + (n - missed - 1) * renew;
  }

  /** After a run of failures that begins with the first tick, the first success comes late when the run is
      long enough. */
  lemma {:induction false} SuccessComesLate(ttl: int, renew: int, reached: seq<bool>, missed: nat, n: nat)
    requires 0 < renew && missed < n <= |reached| && GotThrough(reached, n) && ttl <= (missed + 1) * renew
    requires forall k :: 1 <= k <= missed ==> !GotThrough(reached, k)
    ensures !InTime(0, ttl, renew, reached, |reached|)
    decreases n
  {
    var j := LastReached(reached, n);
    if j > 0 {
      assert j > missed;
      SuccessComesLate(ttl, renew, reached, missed, j);
    } else {
      LateTick(ttl, renew, missed, n);
      assert !IsPrompt(0, ttl, renew, reached, n);
    }
  }

  /** A longer cut that begins with a tick loses the lease. */
  lemma LongCutLosesLease(ttl: int, renew: int, length: int)
    requires 0 < renew < ttl && length > SafeCut(ttl, renew)
    ensures var reached := CutOff(0, renew, length + 1, renew, renew + length);
            && IsCut(0, renew, reached, renew, renew + length)
            && !InTime(0, ttl, renew, reached, |reached|)
  {
    var q := (ttl - 1) / renew;
    var reached := CutOff(0, renew, length + 1, renew, renew + length);
    assert q >= 1 by { QuotientIsUnique(ttl - 1, renew, q, (ttl - 1) % renew); }
    forall k | 1 <= k <= |reached| ensures GotThrough(reached, k) <==> !(renew <= k * renew < renew + length) {
      TickIsLinear(0, renew, k);
    }
    assert IsCut(0, renew, reached, renew, renew + length) by {
      forall k: nat | 1 <= k <= |reached| ensures Tick(0, renew, k) == k * renew {
        TickIsLinear(0, renew, k);
      }
    }
    MissedTicks(ttl, renew, length, q, reached);
    SuccessComesLate(ttl, renew, reached, q, length + 1);
  }

  lemma MissedTicks(ttl: int, renew: int, length: int, q: int, reached: seq<bool>)
    requires 0 < renew < ttl && q == (ttl - 1) / renew >= 1 && length > (q - 1) * renew && |reached| == length + 1
    requires forall k :: 1 <= k <= |reached| ==> (GotThrough(reached, k) <==> !(renew <= k * renew < renew + length))
    ensures q < length + 1 && GotThrough(reached, length + 1) && ttl <= (q + 1) * renew
    ensures forall k :: 1 <= k <= q ==> !GotThrough(reached, k)
  {
    Signs(q - 1, renew);
    Signs(length, renew);
    assert (length + 1) * renew == length * renew + renew;
    AlmostTtl(ttl, renew);
    forall k | 1 <= k <= q ensures renew <= k * renew < renew + length {
      TickInCut(renew, length, q, k);
    }
  }

  lemma AlmostTtl(ttl: int, renew: int)
    requires renew > 0
    ensures ttl <= ((ttl - 1) / renew + 1) * renew
  {
    assert ttl - 1 == renew * ((ttl - 1) / renew) + (ttl - 1) % renew;
  }

  lemma TickInCut(renew: int, length: int, q: int, k: int)
    requires renew > 0 && 1 <= k <= q && length > (q - 1) * renew
    ensures renew <= k * renew < renew + length
  {
    Signs(k - 1, renew);
    Signs(q - k, renew);
    assert k * renew == (k - 1) * renew + renew;
    assert (q - 1) * renew == (q - k) * renew + (k - 1) * renew;
  }

  /** Some term is cut off for `length` milliseconds and loses its lease over it. */
  ghost predicate CanLose(ttl: int, renew: int, length: int) {
    exists start: int, reached: seq<bool>, from: int, to: int ::
      IsCut(start, renew, reached, from, to) && to - from == length && !InTime(start, ttl, renew, reached, |reached|)
  }

  /** The exact threshold: a cut can cost the lease if and only if it is longer than `SafeCut`. */
  lemma CutThreshold(ttl: int, renew: int, length: int)
    requires 0 < renew < ttl
    ensures CanLose(ttl, renew, length) <==> length > SafeCut(ttl, renew)
  {
    if length > SafeCut(ttl, renew) {
      LongCutLosesLease(ttl, renew, length);
      var reached := CutOff(0, renew, length + 1, renew, renew + length);
      assert IsCut(0, renew, reached, renew, renew + length) && !InTime(0, ttl, renew, reached, |reached|);
    } else if CanLose(ttl, renew, length) {
      var start, reached, from, to :| IsCut(start, renew, reached, from, to) && to - from == length &&
                                      !InTime(start, ttl, renew, reached, |reached|);
      ShortCutKeepsLease(start, ttl, renew, reached, from, to);
      assert false;
    }
  }

  /** The threshold is never below ttl - 2 renew, and that is what it is when renew divides the ttl. */
  lemma SafeCutReaches(ttl: int, renew: int)
    requires 0 < renew < ttl
    ensures ttl - 2 * renew <= SafeCut(ttl, renew)
    ensures SafeCut(ttl, renew) == ttl - 2 * renew <==> ttl % renew == 0
  {
    var q, r := (ttl - 1) / renew, (ttl - 1) % renew;
    assert ttl - 1 == renew * q + r;
    assert (q - 1) * renew == renew * q - renew;
    if r == renew - 1 {
      QuotientIsUnique(ttl, renew, q + 1, 0);
    } else {
      QuotientIsUnique(ttl, renew, q, r + 1);
    }
  }

  // ---------- after a crash ----------

  lemma QuotientIsUnique(a: int, b: int, q: int, r: int)
    requires b > 0 && a == b * q + r && 0 <= r < b
    ensures a / b == q && a % b == r
  {
    var d := q - a / b;
    assert d * b == a % b - r;
    Signs(d, b);
  }

  lemma RemainderShifts(a: int, b: int)
    requires b > 0
    ensures (a + b) % b == a % b
  {
    QuotientIsUnique(a + b, b, a / b + 1, a % b);
  }

  lemma SmallRemainder(a: int, b: int)
    requires 0 <= a < b
    ensures a % b == a
  {
    QuotientIsUnique(a, b, 0, a);
  }

  /** When the key of a term goes whose holder renews without a hitch until it crashes. */
  function Expiry(renewed: int, ttl: int, renew: int, crash: int): int
    requires renew > 0
    decreases crash - renewed
  {
    if renewed + renew > crash then renewed + ttl else Expiry(renewed + renew, ttl, renew, crash)
  }

  /** The first of the polls at first, first + retry, … at or after a time. */
  function FirstPoll(first: int, retry: int, after: int): int
    requires retry > 0
    decreases after - first
  {
    if first >= after then first else FirstPoll(first + retry, retry, after)
  }

  /** The last renewal is on the renewal grid: the crash comes (crash - start) mod renew after it. */
  lemma {:induction false} ExpiryIsOnGrid(renewed: int, ttl: int, renew: int, crash: int)
    requires renew > 0 && renewed <= crash
    ensures Expiry(renewed, ttl, renew, crash) == crash - (crash - renewed) % renew + ttl
    decreases crash - renewed
  {
    if renewed + renew > crash {
      SmallRemainder(crash - renewed, renew);
    } else {
      ExpiryIsOnGrid(renewed + renew, ttl, renew, crash);
      RemainderShifts(crash - renewed - renew, renew);
    }
  }

  /** The poll that acquires is on the polling grid. */
  lemma {:induction false} PollIsOnGrid(first: int, retry: int, after: int)
    requires retry > 0 && first <= after
    ensures FirstPoll(first, retry, after) == after + (first - after) % retry
    decreases after - first
  {
    if first == after {
      SmallRemainder(0, retry);
    } else if first + retry <= after {
      PollIsOnGrid(first + retry, retry, after);
      RemainderShifts(first - after, retry);
    } else {
      RemainderShifts(first - after, retry);
      SmallRemainder(first - after + retry, retry);
      assert FirstPoll(first, retry, after) == FirstPoll(first + retry, retry, after) == first + retry;
    }
  }

  /** The renewals a leader makes before it crashes. */
  method RenewUntil(start: int, ttl: int, renew: int, crash: int) returns (expires: int)
    requires renew > 0
    ensures expires == Expiry(start, ttl, renew, crash)
    ensures start <= crash ==> expires == crash - (crash - start) % renew + ttl
  {
    if start <= crash {
      ExpiryIsOnGrid(start, ttl, renew, crash);
    }
    expires := start + ttl;
    var tick := start + renew;
    while tick <= crash
      invariant expires == tick - renew + ttl
      invariant Expiry(tick - renew, ttl, renew, crash) == Expiry(start, ttl, renew, crash)
      decreases crash - tick
    {
      expires := tick + ttl;
      tick := tick + renew;
    }
  }

  /** Campaign: a standby tries, and when somebody holds the lease sleeps `retry` and tries again. */
  method Poll(first: int, retry: int, expires: int) returns (acquired: int)
    requires retry > 0
    ensures acquired == FirstPoll(first, retry, expires)
    ensures acquired == if first > expires then first else expires + (first - expires) % retry
  {
    if first <= expires {
      PollIsOnGrid(first, retry, expires);
    }
    acquired := first;
    while acquired < expires
      invariant FirstPoll(acquired, retry, expires) == FirstPoll(first, retry, expires)
      decreases expires - acquired
    {
      acquired := acquired + retry;
    }
  }

  /** From the crash of a leader to the next grant. */
  function Outage(start: int, ttl: int, renew: int, retry: int, crash: int, firstPoll: int): int
    requires IsConfig(ttl, renew, retry)
  {
    FirstPoll(firstPoll, retry, Expiry(start, ttl, renew, crash)) - crash
  }

  /** The outage after a crash, exactly: the ttl, less the time since the last renewal, plus the wait for the
      standby's next poll. So it stays within the ttl if and only if that wait is no longer than the time
      since the last renewal. */
  lemma OutageIsExact(start: int, ttl: int, renew: int, retry: int, crash: int, firstPoll: int)
    requires IsConfig(ttl, renew, retry) && start <= crash && firstPoll <= crash
    ensures var (since, wait) := ((crash - start) % renew, (firstPoll - Expiry(start, ttl, renew, crash)) % retry);
            var outage := Outage(start, ttl, renew, retry, crash, firstPoll);
            outage == ttl - since + wait && (outage <= ttl <==> wait <= since)
  {
    ExpiryIsOnGrid(start, ttl, renew, crash);
    PollIsOnGrid(firstPoll, retry, Expiry(start, ttl, renew, crash));
  }

  /** After a crash a standby that was polling already leads within (ttl - renew, ttl + retry). */
  lemma OutageIsBounded(start: int, ttl: int, renew: int, retry: int, crash: int, firstPoll: int)
    requires IsConfig(ttl, renew, retry) && start <= crash && firstPoll <= crash
    ensures ttl - renew < Outage(start, ttl, renew, retry, crash, firstPoll) < ttl + retry
  {
    OutageIsExact(start, ttl, renew, retry, crash, firstPoll);
  }

  /** Some crash, under some alignment of the polls, costs exactly d. */
  ghost predicate CanCost(ttl: int, renew: int, retry: int, d: int)
    requires IsConfig(ttl, renew, retry)
  {
    exists start, crash, firstPoll ::
      start <= crash && firstPoll <= crash && Outage(start, ttl, renew, retry, crash, firstPoll) == d
  }

  lemma AnyOutage(ttl: int, renew: int, retry: int, since: int, wait: int)
    requires IsConfig(ttl, renew, retry) && 0 <= since < renew && 0 <= wait < retry
    ensures CanCost(ttl, renew, retry, ttl - since + wait)
  {
    var rounds := ttl + wait;
    var firstPoll := rounds - rounds * retry;
    Signs(rounds, retry);
    assert Expiry(0, ttl, renew, since) == ttl;
    assert firstPoll - ttl == retry * -rounds + wait;
    QuotientIsUnique(firstPoll - ttl, retry, -rounds, wait);
    SmallRemainder(since, renew);
    OutageIsExact(0, ttl, renew, retry, since, firstPoll);
    assert Outage(0, ttl, renew, retry, since, firstPoll) == ttl - since + wait;
  }

  /** Both ends of the interval are attained, and everything between. */
  lemma OutageRange(ttl: int, renew: int, retry: int, d: int)
    requires IsConfig(ttl, renew, retry)
    ensures CanCost(ttl, renew, retry, d) <==> ttl - renew < d < ttl + retry
  {
    if ttl - renew < d <= ttl {
      AnyOutage(ttl, renew, retry, ttl - d, 0);
    } else if ttl < d < ttl + retry {
      AnyOutage(ttl, renew, retry, 0, d - ttl);
    } else if CanCost(ttl, renew, retry, d) {
      var start, crash, firstPoll :|
        start <= crash && firstPoll <= crash && Outage(start, ttl, renew, retry, crash, firstPoll) == d;
      OutageIsBounded(start, ttl, renew, retry, crash, firstPoll);
      assert false;
    }
  }

  /** The ttl bounds every outage of a configuration if and only if the standby polls every millisecond. */
  lemma TtlBoundsOutage(ttl: int, renew: int, retry: int)
    requires IsConfig(ttl, renew, retry)
    ensures (forall d :: CanCost(ttl, renew, retry, d) ==> d <= ttl) <==> retry == 1
  {
    hide CanCost;
    forall d ensures CanCost(ttl, renew, retry, d) <==> ttl - renew < d < ttl + retry {
      OutageRange(ttl, renew, retry, d);
    }
    assert retry > 1 ==> CanCost(ttl, renew, retry, ttl + 1);
  }
}
