/** The audits of the dispatch log that check the single-writer promise after the fact
    (cmd/failoverbench/main.go:840-912, internal/console/dispatch.go:64-129). Each loop is proved against what
    it claims to measure, and on the protocol's own runs neither can raise an alarm. */
module Audit {
  import opened Text
  import opened Sorting
  import opened Store
  import opened Handoff
  import opened Protocol
  import opened Leadership

  /** An execution entry as the audits read it: no timestamp is Go's zero time, no epoch is zero. */
  datatype LogEntry = LogEntry(at: Option<int>, epoch: int)

  // ---------- inversions ----------

  /** Entry x was written under a term older than one that had already written. */
  ghost predicate IsInversion(es: seq<LogEntry>, x: int)
    requires 0 <= x < |es|
  {
    es[x].epoch > 0 && exists y :: 0 <= y < x && es[y].epoch > es[x].epoch
  }

  ghost function Inversions(es: seq<LogEntry>): set<int> {
    set x | 0 <= x < |es| && IsInversion(es, x)
  }

  /** Stamped epochs never decrease; entries without one do not matter. */
  ghost predicate TermsInOrder(es: seq<LogEntry>) {
    forall m, n :: 0 <= m < n < |es| && es[m].epoch > 0 && es[n].epoch > 0 ==> es[m].epoch <= es[n].epoch
  }

  /** The count is zero exactly when the stamped epochs never decrease. */
  lemma CleanIffInOrder(es: seq<LogEntry>)
    ensures |Inversions(es)| == 0 <==> TermsInOrder(es)
  {
    if TermsInOrder(es) {
      forall x | 0 <= x < |es| ensures !IsInversion(es, x) {
      }
      assert Inversions(es) == {};
    } else {
      var m, n :| 0 <= m < n < |es| && es[m].epoch > 0 && es[n].epoch > 0 && es[m].epoch > es[n].epoch;
      assert IsInversion(es, n);
      assert n in Inversions(es);
    }
  }

  lemma InversionsOfMore(es: seq<LogEntry>, e: LogEntry)
    ensures var isOne := e.epoch > 0 && exists y :: 0 <= y < |es| && es[y].epoch > e.epoch;
            |Inversions(es + [e])| == |Inversions(es)| + if isOne then 1 else 0
  {
    var more := es + [e];
    forall x | 0 <= x < |es| ensures IsInversion(more, x) <==> IsInversion(es, x) {
      assert IsInversion(more, x) ==> exists y :: 0 <= y < x && more[y].epoch > more[x].epoch && es[y] == more[y];
      assert IsInversion(es, x) ==> exists y :: 0 <= y < x && es[y].epoch > es[x].epoch && es[y] == more[y];
    }
    assert IsInversion(more, |es|) <==> e.epoch > 0 && exists y :: 0 <= y < |es| && es[y].epoch > e.epoch by {
      assert forall y :: 0 <= y < |es| ==> more[y] == es[y];
    }
    if IsInversion(more, |es|) {
      assert Inversions(more) == Inversions(es) + {|es|};
    } else {
      assert Inversions(more) == Inversions(es);
    }
  }

  /** high is the greatest epoch stamped on an entry, zero when none is. */
  ghost predicate IsHighest(es: seq<LogEntry>, high: int) {
    && high >= 0 && (high == 0 || exists y :: 0 <= y < |es| && es[y].epoch == high)
    && forall y :: 0 <= y < |es| ==> es[y].epoch <= high
  }

  lemma HighestOfMore(es: seq<LogEntry>, high: int, e: LogEntry)
    requires IsHighest(es, high)
    ensures IsHighest(es + [e], Max(high, e.epoch))
    ensures e.epoch > 0 ==> ((exists y :: 0 <= y < |es| && es[y].epoch > e.epoch) <==> e.epoch < high)
  {
    var more := es + [e];
    if e.epoch > high {
      assert more[|es|].epoch == e.epoch;
    } else if high > 0 {
      var y :| 0 <= y < |es| && es[y].epoch == high;
      assert more[y].epoch == high;
    }
  }

  /** epochInversions, in both benchmarks. */
  method EpochInversions(entries: seq<LogEntry>) returns (inversions: nat)
    ensures inversions == |Inversions(entries)|
  {
    var high := 0;
    inversions := 0;
    var i := 0;
    assert Inversions(entries[..0]) == {};
    while i < |entries|
      invariant 0 <= i <= |entries|
      invariant IsHighest(entries[..i], high) && inversions == |Inversions(entries[..i])|
    {
      var e := entries[i];
      assert entries[..i + 1] == entries[..i] + [e];
      InversionsOfMore(entries[..i], e);
      HighestOfMore(entries[..i], high, e);
      i := i + 1;
      if e.epoch <= 0 {
        continue;
      }
      if e.epoch < high {
        inversions := inversions + 1;
        continue;
      }
      high := e.epoch;
    }
    assert entries[..i] == entries;
  }

  // ---------- the console's summary ----------

  /** The entries that carry a timestamp, in stream order. */
  function Timed(es: seq<LogEntry>): (ts: seq<LogEntry>)
    ensures forall k :: 0 <= k < |ts| ==> ts[k].at.Some?
  {
    if es == [] then []
    else if es[|es| - 1].at.None? then Timed(es[..|es| - 1])
    else Timed(es[..|es| - 1]) + [es[|es| - 1]]
  }

  lemma TimedOfMore(es: seq<LogEntry>, e: LogEntry)
    ensures Timed(es + [e]) == if e.at.Some? then Timed(es) + [e] else Timed(es)
  {
    assert (es + [e])[..|es|] == es;
  }

  lemma Joined(a: seq<LogEntry>, b: seq<LogEntry>, c: seq<LogEntry>)
    ensures a + (b + c) == (a + b) + c
  {
  }

  /** No entry with a timestamp is left out, no other kept, and their order stays. */
  lemma {:induction false} TimedOfBoth(a: seq<LogEntry>, b: seq<LogEntry>)
    ensures Timed(a + b) == Timed(a) + Timed(b)
    ensures |b| == 1 ==> Timed(b) == if b[0].at.Some? then b else []
  {
    hide Timed;
    assert Timed([]) == [] by { TimedIsAll([]); }
    if b == [] {
      assert a + b == a;
    } else {
      var rest, e := b[..|b| - 1], b[|b| - 1];
      assert b == rest + [e];
      TimedOfBoth(a, rest);
      TimedOfMore(rest, e);
      Joined(a, rest, [e]);
      TimedOfMore(a + rest, e);
      Joined(Timed(a), Timed(rest), [e]);
    }
  }

  datatype Gap = Gap(start: int, end: int)
  {
    function Length(): int { end - start }
  }

  const MIN_REPORTED_GAP: int := 1000

  datatype Window = Window(
    counts: map<(int, int), int>, epochs: set<int>, unstamped: nat, inversions: nat,
    longest: Option<Gap>, gaps: seq<Gap>, last: Option<int>)

  /** Go's `%`, which takes the sign of the dividend. */
  function Remainder(a: int, b: int): int
    requires b > 0
  {
    if a >= 0 then a % b else -(-a % b)
  }

  function SlotOf(at: int, from: int, bucket: int): int
    requires bucket > 0
  {
    at - Remainder(at - from, bucket)
  }

  /** An entry inside the window is in the bucket that spans its time; buckets begin a whole number of bucket
      lengths after the window does, so they do not overlap. */
  lemma SlotSpansEntry(at: int, from: int, bucket: int)
    requires bucket > 0 && at >= from
    ensures var slot := SlotOf(at, from, bucket);
            from <= slot <= at < slot + bucket && slot == from + bucket * ((at - from) / bucket)
  {
    var d := at - from;
    assert d == bucket * (d / bucket) + d % bucket;
  }

  ghost predicate AllTimed(ts: seq<LogEntry>) {
    forall k :: 0 <= k < |ts| ==> ts[k].at.Some?
  }

  /** Consecutive timestamps make a gap, unless the first is the epoch of Unix time itself. */
  ghost predicate IsGap(ts: seq<LogEntry>, k: int)
    requires AllTimed(ts)
  {
    1 <= k < |ts| && ts[k - 1].at.value != 0
  }

  ghost function GapAt(ts: seq<LogEntry>, k: int): Gap
    requires AllTimed(ts) && IsGap(ts, k)
  {
    Gap(ts[k - 1].at.value, ts[k].at.value)
  }

  /** g is the longest gap, the first of that length. */
  ghost predicate IsLongest(ts: seq<LogEntry>, g: Option<Gap>)
    requires AllTimed(ts)
  {
    match g
    case None => forall k :: !IsGap(ts, k)
    case Some(gap) =>
      exists k :: IsGap(ts, k) && GapAt(ts, k) == gap &&
                  forall j :: IsGap(ts, j) ==>
                    GapAt(ts, j).Length() <= gap.Length() && (j < k ==> GapAt(ts, j).Length() < gap.Length())
  }

  /** A gap of a second or more. */
  ghost predicate IsReportable(ts: seq<LogEntry>, k: int)
    requires AllTimed(ts)
  {
    IsGap(ts, k) && GapAt(ts, k).Length() >= 1000
  }

  /** The gaps are those at the positions, which are all the reportable ones in ascending order. */
  ghost predicate AreGapsAt(ts: seq<LogEntry>, gaps: seq<Gap>, positions: seq<int>)
    requires AllTimed(ts)
  {
    && |positions| == |gaps|
    && (forall m, n :: 0 <= m < n < |positions| ==> positions[m] < positions[n])
    && (forall n :: 0 <= n < |positions| ==> IsReportable(ts, positions[n]) && gaps[n] == GapAt(ts, positions[n]))
    && (forall k :: IsReportable(ts, k) ==> k in positions)
  }

  /** The gaps listed are those long enough to report, each once, in stream order. */
  ghost predicate ListsGaps(ts: seq<LogEntry>, gaps: seq<Gap>)
    requires AllTimed(ts)
  {
    exists positions :: AreGapsAt(ts, gaps, positions)
  }

  ghost function InBucket(ts: seq<LogEntry>, from: int, bucket: int, key: (int, int)): set<int>
    requires AllTimed(ts) && bucket > 0
  {
    set k | 0 <= k < |ts| && (SlotOf(ts[k].at.value, from, bucket), ts[k].epoch) == key
  }

  ghost predicate CountsBuckets(ts: seq<LogEntry>, from: int, bucket: int, counts: map<(int, int), int>)
    requires AllTimed(ts) && bucket > 0
  {
    forall key :: (if key in counts then counts[key] else 0) == |InBucket(ts, from, bucket, key)|
  }

  ghost predicate ListsEpochs(ts: seq<LogEntry>, epochs: set<int>) {
    forall e :: e in epochs <==> e > 0 && exists k :: 0 <= k < |ts| && ts[k].epoch == e
  }

  ghost function Unstamped(ts: seq<LogEntry>): set<int> {
    set k | 0 <= k < |ts| && ts[k].epoch <= 0
  }

  /** What the window says about the timed entries it was made from. */
  ghost predicate Summarises(w: Window, ts: seq<LogEntry>, from: int, bucket: int)
    requires AllTimed(ts) && bucket > 0
  {
    && w.inversions == |Inversions(ts)|
    && w.unstamped == |Unstamped(ts)|
    && IsLongest(ts, w.longest) && ListsGaps(ts, w.gaps)
    && CountsBuckets(ts, from, bucket, w.counts) && ListsEpochs(ts, w.epochs)
    && w.last == (if ts == [] || ts[|ts| - 1].at.value == 0 then None else Some(ts[|ts| - 1].at.value))
  }

  // ---------- one more entry ----------

  lemma LongestOfMore(ts: seq<LogEntry>, g: Option<Gap>, e: LogEntry)
    requires AllTimed(ts) && e.at.Some? && IsLongest(ts, g)
    ensures IsLongest(ts + [e],
                      if !IsGap(ts + [e], |ts|) then g
                      else if g.None? || GapAt(ts + [e], |ts|).Length() > g.value.Length()
                      then Some(GapAt(ts + [e], |ts|))
                      else g)
  {
    var more := ts + [e];
    forall k | 0 <= k < |ts|
      ensures IsGap(more, k) == IsGap(ts, k) && (IsGap(ts, k) ==> GapAt(more, k) == GapAt(ts, k))
    {
    }
    assert forall j :: IsGap(more, j) ==> j == |ts| || IsGap(ts, j);
  }

  lemma GapsAtMore(ts: seq<LogEntry>, gaps: seq<Gap>, positions: seq<int>, e: LogEntry)
    requires AllTimed(ts) && e.at.Some? && AreGapsAt(ts, gaps, positions)
    ensures if IsReportable(ts + [e], |ts|)
            then AreGapsAt(ts + [e], gaps + [GapAt(ts + [e], |ts|)], positions + [|ts|])
            else AreGapsAt(ts + [e], gaps, positions)
  {
    var more := ts + [e];
    forall k | 0 <= k < |ts|
      ensures IsReportable(more, k) == IsReportable(ts, k) && (IsGap(ts, k) ==> GapAt(more, k) == GapAt(ts, k))
    {
    }
    assert forall k :: IsReportable(more, k) ==> k == |ts| || IsReportable(ts, k);
  }

  lemma GapsOfMore(ts: seq<LogEntry>, gaps: seq<Gap>, e: LogEntry)
    requires AllTimed(ts) && e.at.Some? && ListsGaps(ts, gaps)
    ensures ListsGaps(ts + [e],
                      if IsReportable(ts + [e], |ts|) then gaps + [GapAt(ts + [e], |ts|)] else gaps)
  {
    var positions :| AreGapsAt(ts, gaps, positions);
    GapsAtMore(ts, gaps, positions, e);
    hide AreGapsAt, IsReportable;
  }

  lemma InBucketOfMore(ts: seq<LogEntry>, from: int, bucket: int, e: LogEntry, key: (int, int))
    requires AllTimed(ts) && e.at.Some? && bucket > 0
    ensures |InBucket(ts + [e], from, bucket, key)| ==
            |InBucket(ts, from, bucket, key)| + if key == (SlotOf(e.at.value, from, bucket), e.epoch) then 1 else 0
  {
    hide SlotOf;
    var isMine := key == (SlotOf(e.at.value, from, bucket), e.epoch);
    assert InBucket(ts + [e], from, bucket, key) == InBucket(ts, from, bucket, key) + if isMine then {|ts|} else {};
  }

  lemma BucketsOfMore(ts: seq<LogEntry>, from: int, bucket: int, counts: map<(int, int), int>, e: LogEntry)
    requires AllTimed(ts) && e.at.Some? && bucket > 0 && CountsBuckets(ts, from, bucket, counts)
    ensures var key := (SlotOf(e.at.value, from, bucket), e.epoch);
            CountsBuckets(ts + [e], from, bucket, counts[key := (if key in counts then counts[key] else 0) + 1])
  {
    hide InBucket, SlotOf;
    var mine := (SlotOf(e.at.value, from, bucket), e.epoch);
    forall key
      ensures |InBucket(ts + [e], from, bucket, key)| ==
              |InBucket(ts, from, bucket, key)| + if key == mine then 1 else 0
    {
      InBucketOfMore(ts, from, bucket, e, key);
    }
  }

  lemma EpochsOfMore(ts: seq<LogEntry>, epochs: set<int>, e: LogEntry)
    requires ListsEpochs(ts, epochs)
    ensures ListsEpochs(ts + [e], if e.epoch > 0 then epochs + {e.epoch} else epochs)
  {
    var more := ts + [e];
    assert more[|ts|] == e;
    assert forall k :: 0 <= k < |ts| ==> more[k] == ts[k];
  }

  lemma UnstampedOfMore(ts: seq<LogEntry>, e: LogEntry)
    ensures |Unstamped(ts + [e])| == |Unstamped(ts)| + if e.epoch > 0 then 0 else 1
  {
    assert Unstamped(ts + [e]) == Unstamped(ts) + if e.epoch > 0 then {} else {|ts|};
  }

  /** The loop of SummariseDispatches. */
  method ScanDispatches(msgs: seq<LogEntry>, from: int, bucket: int) returns (w: Window)
    requires bucket > 0
    ensures Summarises(w, Timed(msgs), from, bucket)
  {
    hide IsLongest, ListsGaps, CountsBuckets, ListsEpochs, Inversions, Unstamped, IsHighest, SlotOf, InBucket;
    w := Window(map[], {}, 0, 0, None, [], None);
    var highest, prev := 0, 0;
    var i := 0;
    EmptySummary(w, from, bucket);
    while i < |msgs|
      invariant 0 <= i <= |msgs| && highest >= 0
      invariant Summarises(w.(last := if prev == 0 then None else Some(prev)), Timed(msgs[..i]), from, bucket)
      invariant IsHighest(Timed(msgs[..i]), highest)
      invariant prev == if Timed(msgs[..i]) == [] then 0 else Timed(msgs[..i])[|Timed(msgs[..i])| - 1].at.value
    {
      var m := msgs[i];
      ghost var ts := Timed(msgs[..i]);
      assert msgs[..i + 1][..i] == msgs[..i];
      i := i + 1;
      if m.at.None? {
        continue;
      }
      InversionsOfMore(ts, m);
      HighestOfMore(ts, highest, m);
      LongestOfMore(ts, w.longest, m);
      GapsOfMore(ts, w.gaps, m);
      BucketsOfMore(ts, from, bucket, w.counts, m);
      EpochsOfMore(ts, w.epochs, m);
      UnstampedOfMore(ts, m);
      var at := m.at.value;
      var key := (SlotOf(at, from, bucket), m.epoch);
      w := w.(counts := w.counts[key := (if key in w.counts then w.counts[key] else 0) + 1]);
      if m.epoch > 0 {
        w := w.(epochs := w.epochs + {m.epoch});
        if m.epoch < highest {
          w := w.(inversions := w.inversions + 1);
        }
        highest := Max(highest, m.epoch);
      } else {
        w := w.(unstamped := w.unstamped + 1);
      }
      if prev != 0 {
        var gap := at - prev;
        if w.longest.None? || gap > w.longest.value.Length() {
          w := w.(longest := Some(Gap(prev, at)));
        }
        if gap >= MIN_REPORTED_GAP {
          w := w.(gaps := w.gaps + [Gap(prev, at)]);
        }
      }
      prev := at;
    }
    assert msgs[..i] == msgs;
    if prev != 0 {
      w := w.(last := Some(prev));
    } else {
      w := w.(last := None);
    }
  }

  lemma EmptySummary(w: Window, from: int, bucket: int)
    requires bucket > 0 && w == Window(map[], {}, 0, 0, None, [], None)
    ensures Summarises(w, [], from, bucket) && IsHighest([], 0)
  {
    assert Inversions([]) == {} && Unstamped([]) == {};
    assert AreGapsAt([], [], []);
    forall key ensures InBucket([], from, bucket, key) == {} {
    }
  }

  lemma {:induction false} TimedIsAll(es: seq<LogEntry>)
    requires AllTimed(es)
    ensures Timed(es) == es
  {
    if es != [] {
      TimedIsAll(es[..|es| - 1]);
    }
  }

  // ---------- what the console shows ----------

  datatype Bucket = Bucket(at: int, epoch: int, n: int)

  predicate BucketBefore(a: Bucket, b: Bucket) {
    a.at < b.at || (a.at == b.at && a.epoch <= b.epoch)
  }

  predicate LongerGap(a: Gap, b: Gap) {
    a.Length() >= b.Length()
  }

  predicate EarlierGap(a: Gap, b: Gap) {
    a.start <= b.start
  }

  predicate AtMostInt(a: int, b: int) {
    a <= b
  }

  const MAX_REPORTED_GAPS: nat := 20

  /** The buckets are those counted, in order of time and then of epoch. */
  ghost predicate ListsBuckets(buckets: seq<Bucket>, counts: map<(int, int), int>) {
    && |buckets| == |counts|
    && (forall i, j :: 0 <= i < j < |buckets| ==>
          buckets[i].at < buckets[j].at || (buckets[i].at == buckets[j].at && buckets[i].epoch <= buckets[j].epoch))
    && forall b :: b in buckets <==> (b.at, b.epoch) in counts && counts[(b.at, b.epoch)] == b.n
  }

  /** Up to twenty gaps: all of them as they came, or the twenty longest by start. */
  ghost predicate ReportsGaps(shown: seq<Gap>, all: seq<Gap>) {
    if |all| <= 20 then shown == all
    else
      && |shown| == 20 && multiset(shown) <= multiset(all)
      && (forall i, j :: 0 <= i < j < |shown| ==> shown[i].start <= shown[j].start)
      && forall a, b :: a in shown && b in multiset(all) - multiset(shown) ==> a.Length() >= b.Length()
  }

  lemma OrdersAreTotal()
    ensures IsTotalOrder(BucketBefore) && IsTotalOrder(LongerGap) && IsTotalOrder(EarlierGap) && IsTotalOrder(AtMostInt)
  {
  }

  lemma SortedHolds<T>(xs: seq<T>, le: (T, T) -> bool)
    ensures |Sorted(xs, le)| == |xs| && forall x :: x in Sorted(xs, le) <==> x in xs
  {
    SortedHasElements(xs, le);
    forall x ensures x in Sorted(xs, le) <==> x in xs {
      assert x in Sorted(xs, le) <==> x in multiset(Sorted(xs, le));
      assert x in xs <==> x in multiset(xs);
    }
  }

  /** The buckets, out of a map and then sorted. */
  method BucketsOf(counts: map<(int, int), int>) returns (buckets: seq<Bucket>)
    ensures ListsBuckets(buckets, counts)
  {
    var out: seq<Bucket> := [];
    var rest := counts.Keys;
    while rest != {}
      invariant rest <= counts.Keys && |out| + |rest| == |counts|
      invariant forall b :: b in out <==> (b.at, b.epoch) in counts.Keys - rest && counts[(b.at, b.epoch)] == b.n
      decreases |rest|
    {
      var k :| k in rest;
      rest := rest - {k};
      out := out + [Bucket(k.0, k.1, counts[k])];
    }
    OrdersAreTotal();
    SortedIsOrdered(out, BucketBefore);
    SortedHolds(out, BucketBefore);
    buckets := Sorted(out, BucketBefore);
  }

  lemma HasMember(s: set<int>)
    ensures s == {} || exists e :: e in s
  {
    if forall e :: e !in s {
      assert s == {};
    }
  }

  /** The epochs, out of a set and then sorted. */
  method EpochsOf(epochs: set<int>) returns (out: seq<int>)
    ensures (forall i, j :: 0 <= i < j < |out| ==> out[i] <= out[j]) && |out| == |epochs|
    ensures forall e :: e in out <==> e in epochs
  {
    out := [];
    var rest := epochs;
    while rest != {}
      invariant rest <= epochs && |out| + |rest| == |epochs|
      invariant forall e :: e in out <==> e in epochs - rest
      decreases |rest|
    {
      HasMember(rest);
      var e :| e in rest;
      rest := rest - {e};
      out := out + [e];
    }
    OrdersAreTotal();
    SortedIsOrdered(out, AtMostInt);
    SortedHolds(out, AtMostInt);
    out := Sorted(out, AtMostInt);
  }

  /** The gaps: sorted by length, cut, and sorted by start, when there are too many. */
  method GapsShown(gaps: seq<Gap>) returns (shown: seq<Gap>)
    ensures ReportsGaps(shown, gaps)
  {
    if |gaps| <= MAX_REPORTED_GAPS {
      return gaps;
    }
    var byLength := Sorted(gaps, LongerGap);
    OrdersAreTotal();
    SortedHasElements(gaps, LongerGap);
    SortedIsOrdered(gaps, LongerGap);
    var kept := byLength[..MAX_REPORTED_GAPS];
    shown := Sorted(kept, EarlierGap);
    SortedHasElements(kept, EarlierGap);
    SortedIsOrdered(kept, EarlierGap);
    CutKeepsLongest(byLength, MAX_REPORTED_GAPS);
    CutIsReported(gaps, kept, byLength[MAX_REPORTED_GAPS..], shown);
  }

  lemma CutKeepsLongest(byLength: seq<Gap>, n: nat)
    requires n <= |byLength| && IsOrdered(byLength, LongerGap)
    ensures multiset(byLength[..n]) <= multiset(byLength)
    ensures multiset(byLength) - multiset(byLength[..n]) == multiset(byLength[n..])
    ensures forall a, b :: a in byLength[..n] && b in byLength[n..] ==> LongerGap(a, b)
  {
    assert byLength == byLength[..n] + byLength[n..];
  }

  lemma CutIsReported(all: seq<Gap>, kept: seq<Gap>, cut: seq<Gap>, shown: seq<Gap>)
    requires |shown| == MAX_REPORTED_GAPS < |all| && IsOrdered(shown, EarlierGap)
    requires multiset(shown) == multiset(kept) <= multiset(all) && multiset(all) - multiset(kept) == multiset(cut)
    requires forall a, b :: a in kept && b in cut ==> LongerGap(a, b)
    ensures ReportsGaps(shown, all)
  {
    forall a, b | a in shown && b in multiset(cut) ensures LongerGap(a, b) {
      assert a in multiset(shown);
      assert a in kept && b in cut;
    }
  }

  datatype Summary = Summary(scan: Window, buckets: seq<Bucket>, epochs: seq<int>, gaps: seq<Gap>)

  /** SummariseDispatches: the scan, and then buckets, gaps and epochs in the order they are shown. */
  method SummariseDispatches(msgs: seq<LogEntry>, from: int, bucket: int) returns (out: Summary)
    requires bucket > 0
    ensures Summarises(out.scan, Timed(msgs), from, bucket)
    ensures ListsBuckets(out.buckets, out.scan.counts) && ReportsGaps(out.gaps, out.scan.gaps)
    ensures forall i, j :: 0 <= i < j < |out.epochs| ==> out.epochs[i] <= out.epochs[j]
    ensures |out.epochs| == |out.scan.epochs|
    ensures forall e :: e in out.epochs <==> e in out.scan.epochs
  {
    hide Summarises, ListsBuckets, ReportsGaps;
    var w := ScanDispatches(msgs, from, bucket);
    var buckets := BucketsOf(w.counts);
    var gaps := GapsShown(w.gaps);
    var epochs := EpochsOf(w.epochs);
    out := Summary(w, buckets, epochs, gaps);
  }

  /** On entries that all carry a timestamp the console and the benchmarks count the same inversions. */
  method AuditsAgree(es: seq<LogEntry>, from: int, bucket: int) returns (console: Summary, bench: nat)
    requires bucket > 0 && AllTimed(es)
    ensures Summarises(console.scan, es, from, bucket) && bench == |Inversions(es)|
    ensures console.scan.inversions == bench && (bench == 0 <==> TermsInOrder(es))
  {
    hide ListsBuckets, ReportsGaps, IsLongest, ListsGaps, CountsBuckets, ListsEpochs, Inversions, Unstamped, IsOrdered;
    TimedIsAll(es);
    CleanIffInOrder(es);
    console := SummariseDispatches(es, from, bucket);
    bench := EpochInversions(es);
  }

  // ---------- the log of a run ----------

  function AsLog(exec: seq<ExecEntry>): seq<LogEntry> {
    seq(|exec|, i requires 0 <= i < |exec| =>
      LogEntry(Some(exec[i].dispatchedAt), if exec[i].epoch.Some? then exec[i].epoch.value else 0))
  }

  /** On every run of the protocol, retries interleaved, resets included, any window of the execution stream
      passes both audits. */
  lemma ReachableLogIsClean(defaultRetries: int, steps: seq<Step>, lo: int, hi: int)
    requires IsRun(Initial(defaultRetries), steps)
    requires 0 <= lo <= hi <= |After(Initial(defaultRetries), steps).flow.exec|
    ensures var es := AsLog(After(Initial(defaultRetries), steps).flow.exec[lo..hi]);
            |Inversions(Timed(es))| == 0 && |Inversions(es)| == 0
  {
    hide After, IsRun, LogInv, IssuedOnce;
    SingleWriter(defaultRetries, steps);
    var exec := After(Initial(defaultRetries), steps).flow.exec;
    var es := AsLog(exec[lo..hi]);
    forall m, n | 0 <= m < n < |es| && es[m].epoch > 0 && es[n].epoch > 0 ensures es[m].epoch <= es[n].epoch {
      assert exec[lo..hi][m] == exec[lo + m] && exec[lo..hi][n] == exec[lo + n];
    }
    CleanIffInOrder(es);
    TimedIsAll(es);
  }

  // ---------- gaps in the benchmarks ----------

  function StepAt(stamps: seq<int>, k: int): int
    requires 1 <= k < |stamps|
  {
    stamps[k] - stamps[k - 1]
  }

  /** worst is the longest step between neighbours; zero when there is none upwards. */
  ghost predicate IsWorst(stamps: seq<int>, worst: int) {
    && worst >= 0
    && (forall k :: 1 <= k < |stamps| ==> StepAt(stamps, k) <= worst)
    && (worst == 0 || exists k :: 1 <= k < |stamps| && StepAt(stamps, k) == worst)
  }

  /** maxGapMS */
  method MaxGapMs(stamps: seq<int>) returns (worst: int)
    ensures IsWorst(stamps, worst)
  {
    worst := 0;
    var i := 1;
    while i < |stamps|
      invariant 1 <= i && (stamps != [] ==> i <= |stamps|) && worst >= 0
      invariant forall k :: 1 <= k < i && k < |stamps| ==> StepAt(stamps, k) <= worst
      invariant worst == 0 || exists k :: 1 <= k < i && k < |stamps| && StepAt(stamps, k) == worst
    {
      var g := stamps[i] - stamps[i - 1];
      assert g == StepAt(stamps, i);
      if g > worst {
        worst := g;
      }
      i := i + 1;
    }
  }

  /** outageAround: from the last dispatch before the first one after the kill, or from the kill itself when
      nothing had been dispatched yet. */
  method OutageAround(stamps: seq<int>, kill: int) returns (outage: int, followed: bool)
    requires ZERO_TIME !in stamps
    ensures followed <==> exists k :: 0 <= k < |stamps| && stamps[k] > kill
    ensures followed ==>
              exists k :: 0 <= k < |stamps| && stamps[k] > kill && (forall j :: 0 <= j < k ==> stamps[j] <= kill) &&
                          outage == stamps[k] - if k == 0 then kill else stamps[k - 1]
    ensures followed ==> outage > 0
  {
    var before, after := ZERO_TIME, ZERO_TIME;
    var i := 0;
    while i < |stamps|
      invariant 0 <= i <= |stamps|
      invariant forall j :: 0 <= j < i ==> stamps[j] <= kill
      invariant before == (if i == 0 then ZERO_TIME else stamps[i - 1]) && after == ZERO_TIME
    {
      if stamps[i] <= kill {
        before := stamps[i];
        i := i + 1;
        continue;
      }
      assert stamps[i] in stamps;
      after := stamps[i];
      break;
    }
    assert i < |stamps| ==> stamps[i] in stamps && (i > 0 ==> stamps[i - 1] in stamps);
    if after == ZERO_TIME {
      return 0, false;
    }
    if before == ZERO_TIME {
      before := kill;
    }
    outage, followed := after - before, true;
  }

  function TimesOf(es: seq<LogEntry>): seq<int>
    requires AllTimed(es)
  {
    seq(|es|, i requires 0 <= i < |es| => es[i].at.value)
  }

  /** The timestamps in ascending order. */
  function StampsOf(es: seq<LogEntry>): seq<int>
    requires AllTimed(es)
  {
    Sorted(TimesOf(es), AtMostInt)
  }

  /** dispatchStamps: the gap analysis wants the timestamps by time, not in stream order. */
  method DispatchStamps(es: seq<LogEntry>) returns (stamps: seq<int>)
    requires AllTimed(es)
    ensures stamps == StampsOf(es)
    ensures forall i, j :: 0 <= i < j < |stamps| ==> stamps[i] <= stamps[j]
    ensures multiset(stamps) == multiset(TimesOf(es))
  {
    var out: seq<int> := [];
    var i := 0;
    while i < |es|
      invariant 0 <= i <= |es| && out == TimesOf(es)[..i]
    {
      out := out + [es[i].at.value];
      i := i + 1;
    }
    assert out == TimesOf(es);
    OrdersAreTotal();
    SortedIsOrdered(out, AtMostInt);
    SortedHasElements(out, AtMostInt);
    stamps := Sorted(out, AtMostInt);
  }

  /** What a longest gap amounts to as an outage. */
  function GapOf(longest: Option<Gap>): int {
    if longest.None? || longest.value.Length() < 0 then 0 else longest.value.Length()
  }

  /** The console, in stream order, and the benchmark, by time, measure the same longest gap. */
  ghost predicate SameGap(es: seq<LogEntry>)
    requires AllTimed(es)
  {
    forall longest, worst :: IsLongest(es, longest) && IsWorst(StampsOf(es), worst) ==> GapOf(longest) == worst
  }

  predicate IsForward(es: seq<LogEntry>, k: int)
    requires AllTimed(es) && 1 <= k < |es|
  {
    es[k - 1].at.value <= es[k].at.value && (es[k - 1].at.value == 0 ==> es[k].at.value == 0)
  }

  /** Timestamps never decrease, and the console's marker for "none yet" is not followed by a later time. */
  predicate MovesForward(es: seq<LogEntry>)
    requires AllTimed(es)
  {
    forall k :: 1 <= k < |es| ==> IsForward(es, k)
  }

  lemma {:induction false} ForwardIsOrdered(es: seq<LogEntry>, i: nat, j: nat)
    requires AllTimed(es) && MovesForward(es) && i < j < |es|
    ensures es[i].at.value <= es[j].at.value
    decreases j
  {
    assert IsForward(es, j);
    if i < j - 1 {
      ForwardIsOrdered(es, i, j - 1);
    }
  }

  lemma ForwardStampsAreInOrder(es: seq<LogEntry>)
    requires AllTimed(es) && MovesForward(es)
    ensures StampsOf(es) == TimesOf(es)
  {
    var ts := TimesOf(es);
    forall i, j | 0 <= i < j < |ts| ensures AtMostInt(ts[i], ts[j]) {
      ForwardIsOrdered(es, i, j);
    }
    OrderedStays(ts, AtMostInt);
  }

  lemma WorstIsSomeGap(es: seq<LogEntry>, worst: int)
    requires AllTimed(es) && MovesForward(es) && IsWorst(TimesOf(es), worst) && worst > 0
    ensures exists k :: IsGap(es, k) && GapAt(es, k).Length() == worst
  {
    var ts := TimesOf(es);
    var k :| 1 <= k < |ts| && StepAt(ts, k) == worst;
    assert IsForward(es, k);
    assert IsGap(es, k) && GapAt(es, k).Length() == worst;
  }

  lemma GapIsAtMostWorst(es: seq<LogEntry>, worst: int, k: int)
    requires AllTimed(es) && IsWorst(TimesOf(es), worst) && IsGap(es, k)
    ensures GapAt(es, k).Length() <= worst
  {
    assert StepAt(TimesOf(es), k) == GapAt(es, k).Length();
  }

  lemma ForwardGapIsWorst(es: seq<LogEntry>, longest: Option<Gap>, worst: int)
    requires AllTimed(es) && MovesForward(es) && IsLongest(es, longest) && IsWorst(TimesOf(es), worst)
    ensures GapOf(longest) == worst
  {
    assert worst >= 0;
    hide MovesForward, IsWorst, IsGap, GapAt, TimesOf;
    if worst > 0 {
      WorstIsSomeGap(es, worst);
    }
    if longest.Some? {
      var k :| IsGap(es, k) && GapAt(es, k) == longest.value;
      GapIsAtMostWorst(es, worst, k);
    }
  }

  lemma ForwardMeasuresTheSame(es: seq<LogEntry>)
    requires AllTimed(es) && MovesForward(es)
    ensures SameGap(es)
  {
    hide MovesForward, IsLongest, IsWorst, StampsOf;
    ForwardStampsAreInOrder(es);
    forall longest, worst | IsLongest(es, longest) && IsWorst(StampsOf(es), worst) ensures GapOf(longest) == worst {
      ForwardGapIsWorst(es, longest, worst);
    }
  }

  /** Two entries out of step are measured differently. */
  lemma StepBackMeasuresDifferently(a: LogEntry, b: LogEntry)
    requires a.at.Some? && b.at.Some? && !MovesForward([a, b])
    ensures !SameGap([a, b])
  {
    var es, x, y := [a, b], a.at.value, b.at.value;
    assert !IsForward(es, 1);
    var longest := if x == 0 then None else Some(Gap(x, y));
    var worst := if x > y then x - y else y - x;
    assert IsLongest(es, longest) by {
      if x != 0 {
        assert IsGap(es, 1) && GapAt(es, 1) == Gap(x, y);
      }
    }
    assert TimesOf(es) == [x, y];
    SortTwo(x, y);
    assert IsWorst(StampsOf(es), worst) by {
      assert StepAt(StampsOf(es), 1) == worst;
    }
    assert GapOf(longest) != worst;
  }

  lemma SortTwo(x: int, y: int)
    ensures Sorted([x, y], AtMostInt) == if x <= y then [x, y] else [y, x]
  {
    assert [x, y][1..] == [y] && [y][1..] == [];
    assert Sorted([y], AtMostInt) == Inserted(y, [], AtMostInt) == [y];
    assert Inserted(x, [], AtMostInt) == [x];
    assert Inserted(x, [y], AtMostInt) == if x <= y then [x] + [y] else [y] + Inserted(x, [y][1..], AtMostInt);
  }

  /** The two measurements agree on every window of the log if and only if its timestamps never decrease and
      none after the Unix epoch follows one at it. */
  lemma GapAuditsAgreeIff(es: seq<LogEntry>)
    requires AllTimed(es)
    ensures MovesForward(es) <==> forall lo, hi :: 0 <= lo <= hi <= |es| ==> SameGap(es[lo..hi])
  {
    if MovesForward(es) {
      forall lo, hi | 0 <= lo <= hi <= |es| ensures SameGap(es[lo..hi]) {
        forall k | 1 <= k < hi - lo ensures IsForward(es[lo..hi], k) {
          assert IsForward(es, lo + k);
        }
        ForwardMeasuresTheSame(es[lo..hi]);
      }
    } else {
      var k :| 1 <= k < |es| && !IsForward(es, k);
      assert es[k - 1..k + 1] == [es[k - 1], es[k]];
      assert !IsForward([es[k - 1], es[k]], 1);
      StepBackMeasuresDifferently(es[k - 1], es[k]);
    }
  }

  /** Stamps come from several clocks. With one entry out of step the console reports a gap of four seconds
      where the benchmark reports three. */
  lemma GapAuditsCanDiffer()
    ensures var es := [LogEntry(Some(1000), 1), LogEntry(Some(5000), 1), LogEntry(Some(2000), 0)];
            IsLongest(es, Some(Gap(1000, 5000))) && StampsOf(es) == [1000, 2000, 5000] && IsWorst(StampsOf(es), 3000)
  {
    var es := [LogEntry(Some(1000), 1), LogEntry(Some(5000), 1), LogEntry(Some(2000), 0)];
    assert IsGap(es, 1) && GapAt(es, 1) == Gap(1000, 5000);
    assert TimesOf(es) == [1000, 5000, 2000] && [1000, 5000, 2000][1..] == [5000, 2000];
    SortTwo(5000, 2000);
    assert Sorted([1000, 5000, 2000], AtMostInt) == Inserted(1000, [2000, 5000], AtMostInt) == [1000, 2000, 5000];
    assert StepAt([1000, 2000, 5000], 2) == 3000;
  }

  /** Both programs, as they run: on a log that moves forward they report the same longest gap. */
  method GapAuditsAgree(es: seq<LogEntry>, from: int, bucket: int) returns (console: Summary, bench: int)
    requires bucket > 0 && AllTimed(es)
    ensures Summarises(console.scan, es, from, bucket) && IsWorst(StampsOf(es), bench)
    ensures MovesForward(es) ==> GapOf(console.scan.longest) == bench
  {
    hide ListsGaps, CountsBuckets, ListsEpochs, Inversions, Unstamped, SlotOf, InBucket, Timed, IsLongest, IsWorst;
    hide ListsBuckets, ReportsGaps, IsOrdered, MovesForward, StampsOf;
    TimedIsAll(es);
    console := SummariseDispatches(es, from, bucket);
    var stamps := DispatchStamps(es);
    bench := MaxGapMs(stamps);
    if MovesForward(es) {
      ForwardMeasuresTheSame(es);
    }
  }
}
