/** The epoch monitor: a process outside the store that polls the lease and reports any token it sees issued
    twice (cmd/storefaultbench/main.go:653-749). A report of its is always real, it misses nothing it saw, and
    on a store that keeps its writes it has nothing to report. */
module Monitor {
  import opened Text
  import opened Store
  import opened Handoff
  import opened Protocol
  import opened Leadership

  /** The holder values a poller took for separate terms: consecutive repeats and empty polls left out. */
  function TermsSeen(samples: seq<Option<string>>): seq<string> {
    if samples == [] then []
    else
      var terms, v := TermsSeen(samples[..|samples| - 1]), samples[|samples| - 1];
      if v.None? || v.value == "" || (terms != [] && terms[|terms| - 1] == v.value) then terms
      else terms + [v.value]
  }

  /** A value was taken for a term exactly when some poll found it; the latest term is what the latest successful poll
      found, and no two neighbours are the same. */
  lemma {:induction false} TermsAreSampled(samples: seq<Option<string>>)
    ensures forall v :: v in TermsSeen(samples) <==> v != "" && Some(v) in samples
    ensures forall n :: 0 < n < |TermsSeen(samples)| ==> TermsSeen(samples)[n - 1] != TermsSeen(samples)[n]
    ensures samples != [] && samples[|samples| - 1].Some? && samples[|samples| - 1].value != "" ==>
              var terms := TermsSeen(samples); terms != [] && terms[|terms| - 1] == samples[|samples| - 1].value
  {
    if samples != [] {
      var rest, v := samples[..|samples| - 1], samples[|samples| - 1];
      TermsAreSampled(rest);
      assert samples == rest + [v];
    }
  }

  function TokenOf(v: string): int {
    SplitOf(v).1
  }

  /** A reported reuse: the token, and who held it the first time and now. */
  datatype Reuse = Reuse(token: int, first: string, now: string)

  /** Two terms in the list, r's owners, were seen with the same token. */
  ghost predicate IsReal(terms: seq<string>, r: Reuse) {
    exists m, n :: 0 <= m < n < |terms| && r.token > 0 &&
                   SplitOf(terms[m]) == (r.first, r.token) && SplitOf(terms[n]) == (r.now, r.token)
  }

  ghost predicate TokensDiffer(terms: seq<string>) {
    forall m, n :: 0 <= m < n < |terms| && TokenOf(terms[m]) > 0 ==> TokenOf(terms[m]) != TokenOf(terms[n])
  }

  /** The recorded tokens are those of the terms, each with an owner that had it. */
  ghost predicate AreRecorded(seen: map<int, string>, terms: seq<string>) {
    && (forall n :: 0 <= n < |terms| && TokenOf(terms[n]) > 0 ==> TokenOf(terms[n]) in seen)
    && (forall e :: e in seen ==> e > 0 && exists n :: 0 <= n < |terms| && SplitOf(terms[n]) == (seen[e], e))
  }

  lemma RecordedOfMore(seen: map<int, string>, terms: seq<string>, v: string, seen': map<int, string>)
    requires AreRecorded(seen, terms)
    requires seen' == if TokenOf(v) <= 0 || TokenOf(v) in seen then seen else seen[TokenOf(v) := SplitOf(v).0]
    ensures AreRecorded(seen', terms + [v])
  {
    forall e | e in seen'
      ensures e > 0 && exists n :: 0 <= n < |terms + [v]| && SplitOf((terms + [v])[n]) == (seen'[e], e)
    {
      if e in seen {
        var n :| 0 <= n < |terms| && SplitOf(terms[n]) == (seen[e], e);
        assert (terms + [v])[n] == terms[n];
      } else {
        assert (terms + [v])[|terms|] == v;
      }
    }
  }

  lemma RealOfMore(terms: seq<string>, v: string, r: Reuse)
    requires IsReal(terms, r)
    ensures IsReal(terms + [v], r)
  {
    var m, n :| 0 <= m < n < |terms| && r.token > 0 &&
                SplitOf(terms[m]) == (r.first, r.token) && SplitOf(terms[n]) == (r.now, r.token);
    assert (terms + [v])[m] == terms[m] && (terms + [v])[n] == terms[n];
  }

  lemma NewReuseIsReal(seen: map<int, string>, terms: seq<string>, v: string)
    requires AreRecorded(seen, terms) && TokenOf(v) in seen
    ensures IsReal(terms + [v], Reuse(TokenOf(v), seen[TokenOf(v)], SplitOf(v).0))
    ensures !TokensDiffer(terms + [v])
  {
    var n :| 0 <= n < |terms| && SplitOf(terms[n]) == (seen[TokenOf(v)], TokenOf(v));
    assert (terms + [v])[n] == terms[n] && (terms + [v])[|terms|] == v;
  }

  lemma NotSeenYet(seen: map<int, string>, terms: seq<string>, v: string)
    requires AreRecorded(seen, terms) && !(TokenOf(v) > 0 && TokenOf(v) in seen)
    ensures forall n :: 0 <= n < |terms| && TokenOf(terms[n]) > 0 ==> TokenOf(terms[n]) != TokenOf(v)
  {
  }

  lemma TokensOfMore(terms: seq<string>, v: string)
    requires forall n :: 0 <= n < |terms| && TokenOf(terms[n]) > 0 ==> TokenOf(terms[n]) != TokenOf(v)
    ensures TokensDiffer(terms + [v]) <==> TokensDiffer(terms)
  {
    hide TokenOf;
    var more := terms + [v];
    if TokensDiffer(terms) {
      forall m, n | 0 <= m < n < |more| && TokenOf(more[m]) > 0 ensures TokenOf(more[m]) != TokenOf(more[n]) {
        assert more[m] == terms[m] && (n < |terms| ==> more[n] == terms[n]);
      }
    } else {
      var m, n :| 0 <= m < n < |terms| && TokenOf(terms[m]) > 0 && TokenOf(terms[m]) == TokenOf(terms[n]);
      assert more[m] == terms[m] && more[n] == terms[n];
    }
  }

  lemma TermsSeenNext(samples: seq<Option<string>>, i: nat)
    requires i < |samples|
    ensures var (terms, v) := (TermsSeen(samples[..i]), samples[i]);
            TermsSeen(samples[..i + 1]) ==
            if v.None? || v.value == "" || (terms != [] && terms[|terms| - 1] == v.value) then terms
            else terms + [v.value]
  {
    assert samples[..i + 1][..i] == samples[..i];
  }

  /** The recorded tokens and the reports are right for the terms seen. */
  ghost predicate IsTally(seen: map<int, string>, terms: seq<string>, reuses: seq<Reuse>) {
    && AreRecorded(seen, terms)
    && (forall r :: r in reuses ==> IsReal(terms, r))
    && (reuses == [] <==> TokensDiffer(terms))
  }

  lemma TallyOfMore(seen: map<int, string>, terms: seq<string>, reuses: seq<Reuse>, v: string)
    requires IsTally(seen, terms, reuses)
    ensures var (owner, token) := SplitOf(v);
            if token > 0 && token in seen
            then IsTally(seen, terms + [v], reuses + [Reuse(token, seen[token], owner)])
            else IsTally(if token <= 0 then seen else seen[token := owner], terms + [v], reuses)
  {
    hide IsReal, TokensDiffer, AreRecorded, SplitOf;
    var (owner, token) := SplitOf(v);
    var isReuse := token > 0 && token in seen;
    RecordedOfMore(seen, terms, v, if token <= 0 || token in seen then seen else seen[token := owner]);
    forall r | r in reuses ensures IsReal(terms + [v], r) {
      RealOfMore(terms, v, r);
    }
    if isReuse {
      NewReuseIsReal(seen, terms, v);
    } else {
      NotSeenYet(seen, terms, v);
      TokensOfMore(terms, v);
    }
  }

  lemma EmptyTally()
    ensures IsTally(map[], [], []) && TermsSeen([]) == []
  {
  }

  /** epochWatch, whose mutex makes each call atomic. */
  class EpochWatch {
    var seen: map<int, string>
    var max: int
    var issued: int

    /** The counters go with the record. */
    ghost predicate Valid()
      reads this
    {
      issued == |seen| && (forall e :: e in seen ==> e <= max) && (max == 0 || max in seen)
    }

    constructor ()
      ensures Valid() && seen == map[]
    {
      seen, max, issued := map[], 0, 0;
    }

    method Observe(owner: string, epoch: int) returns (prev: string, reused: bool)
      modifies this
      ensures reused == (epoch > 0 && epoch in old(seen))
      ensures prev == if reused then old(seen)[epoch] else ""
      ensures seen == if epoch <= 0 || reused then old(seen) else old(seen)[epoch := owner]
      ensures issued == old(issued) + if epoch <= 0 || reused then 0 else 1
      ensures max == if epoch <= 0 || reused then old(max) else Max(epoch, old(max))
      ensures old(Valid()) ==> Valid()
    {
      if epoch <= 0 {
        return "", false;
      }
      if epoch in seen {
        return seen[epoch], true;
      }
      seen := seen[epoch := owner];
      issued := issued + 1;
      if epoch > max {
        max := epoch;
      }
      return "", false;
    }

    /** watchEpochs: one sample per poll, `None` where the read failed or the key was absent. Every reuse it
        reports is real, and it reports one exactly when two of the terms it saw have the same token. */
    method WatchEpochs(samples: seq<Option<string>>) returns (reuses: seq<Reuse>)
      requires Valid() && seen == map[]
      modifies this
      ensures Valid() && AreRecorded(seen, TermsSeen(samples))
      ensures forall r :: r in reuses ==> IsReal(TermsSeen(samples), r)
      ensures reuses == [] <==> TokensDiffer(TermsSeen(samples))
    {
      hide IsReal, TokensDiffer, AreRecorded, SplitOf, TermsSeen, Valid;
      reuses := [];
      ghost var terms: seq<string> := [];
      var last := "";
      var i := 0;
      EmptyTally();
      while i < |samples|
        invariant 0 <= i <= |samples| && terms == TermsSeen(samples[..i])
        invariant Valid() && IsTally(seen, terms, reuses)
        invariant last == if terms == [] then "" else terms[|terms| - 1]
      {
        TermsSeenNext(samples, i);
        var v := samples[i];
        i := i + 1;
        if v.None? || v.value == "" || v.value == last {
          continue;
        }
        last := v.value;
        var owner, epoch := SplitHolder(last);
        TallyOfMore(seen, terms, reuses, last);
        var prev, reused := Observe(owner, epoch);
        if reused {
          reuses := reuses + [Reuse(epoch, prev, owner)];
        }
        terms := terms + [last];
      }
      assert samples[..i] == samples;
    }
  }

  // ---------- the monitor on a run ----------

  lemma {:induction false} PrefixOfRun(s: Sys, steps: seq<Step>, p: nat)
    requires IsRun(s, steps) && p <= |steps|
    ensures IsRun(s, steps[..p]) && IsRun(After(s, steps[..p]), steps[p..])
    ensures After(After(s, steps[..p]), steps[p..]) == After(s, steps)
    decreases p
  {
    hide Next;
    if p > 0 {
      PrefixOfRun(Next(s, steps[0]), steps[1..], p - 1);
      assert steps[..p][1..] == steps[1..][..p - 1] && steps[p..] == steps[1..][p - 1..];
    }
  }

  lemma {:induction false} GrantsOnlyGrow(s: Sys, steps: seq<Step>)
    requires LeaseInv(s) && IsRun(s, steps)
    ensures LeaseInv(After(s, steps)) && s.election.grants <= After(s, steps).election.grants
    decreases |steps|
  {
    hide LeaseInv, Next;
    if steps != [] {
      FenceOnlyRises(s, steps[0]);
      StepKeepsLease(s, steps[0]);
      GrantsOnlyGrow(Next(s, steps[0]), steps[1..]);
    }
  }

  /** Each sample that found a value found that of the latest of the grants issued by then; `counts` says how
      many those were. */
  ghost predicate AreHolders(grants: seq<Grant>, samples: seq<Option<string>>, counts: seq<int>) {
    && |counts| == |samples|
    && (forall k :: 0 <= k < |samples| && samples[k].Some? ==>
          && 1 <= counts[k] <= |grants| && grants[counts[k] - 1].epoch == counts[k]
          && samples[k].value == HolderValue(grants[counts[k] - 1].owner, counts[k]))
    && (forall j, k :: 0 <= j < k < |counts| ==> counts[j] <= counts[k])
  }

  /** The tokens of the terms rise strictly, and the last term is a grant that had been issued by then. */
  ghost predicate AreRising(grants: seq<Grant>, terms: seq<string>, issued: int) {
    && (forall m, n :: 0 <= m < n < |terms| ==> TokenOf(terms[m]) < TokenOf(terms[n]))
    && (terms != [] ==>
          var t := TokenOf(terms[|terms| - 1]);
          && 1 <= t <= issued && t <= |grants| && terms[|terms| - 1] == HolderValue(grants[t - 1].owner, t))
  }

  lemma RisingOfMore(grants: seq<Grant>, terms: seq<string>, issued: int, count: int)
    requires AreRising(grants, terms, issued) && 1 <= count <= |grants| && issued <= count
    ensures var v := HolderValue(grants[count - 1].owner, count);
            AreRising(grants, if terms != [] && terms[|terms| - 1] == v then terms else terms + [v], count)
  {
    hide SplitOf, HolderValue;
    SplitUndoesHolderValue(grants[count - 1].owner, count);
  }

  lemma {:induction false} TokensRise(grants: seq<Grant>, samples: seq<Option<string>>, counts: seq<int>)
    requires AreHolders(grants, samples, counts)
    ensures AreRising(grants, TermsSeen(samples), if counts == [] then 0 else counts[|counts| - 1])
  {
    hide AreRising, HolderValue;
    if samples == [] {
      NothingRises(grants);
    } else {
      var last := |samples| - 1;
      TokensRise(grants, samples[..last], counts[..last]);
      var issued := if last == 0 then 0 else counts[last - 1];
      assert last > 0 ==> counts[..last] != [] && counts[..last][|counts[..last]| - 1] == counts[last - 1];
      if samples[last].None? || samples[last].value == "" {
        RisingStays(grants, TermsSeen(samples[..last]), issued, counts[last], last > 0);
      } else {
        RisingOfMore(grants, TermsSeen(samples[..last]), issued, counts[last]);
      }
    }
  }

  lemma NothingRises(grants: seq<Grant>)
    ensures AreRising(grants, [], 0)
  {
  }

  lemma RisingStays(grants: seq<Grant>, terms: seq<string>, issued: int, count: int, before: bool)
    requires AreRising(grants, terms, issued) && (if before then issued <= count else terms == [])
    ensures AreRising(grants, terms, count)
  {
  }

  /** The holder key as polled in a run: poll k comes after polls[k] steps, and may fail to find anything. */
  ghost predicate ArePolls(s: Sys, steps: seq<Step>, polls: seq<nat>, samples: seq<Option<string>>)
    requires IsRun(s, steps)
  {
    && |polls| == |samples|
    && (forall k :: 0 <= k < |polls| ==> polls[k] <= |steps|)
    && (forall j, k :: 0 <= j < k < |polls| ==> polls[j] <= polls[k])
    && (forall k :: 0 <= k < |polls| && samples[k].Some? ==>
          IsRun(s, steps[..polls[k]]) && samples[k] == After(s, steps[..polls[k]]).election.holder)
  }

  ghost function GrantsAt(s: Sys, steps: seq<Step>, p: nat): seq<Grant>
    requires IsRun(s, steps)
  {
    if p <= |steps| && IsRun(s, steps[..p]) then After(s, steps[..p]).election.grants else []
  }

  lemma GrantsAtIsPrefix(s: Sys, steps: seq<Step>, p: nat, q: nat)
    requires LeaseInv(s) && IsRun(s, steps) && p <= q <= |steps|
    ensures IsRun(s, steps[..p]) && LeaseInv(After(s, steps[..p]))
    ensures GrantsAt(s, steps, p) <= GrantsAt(s, steps, q) <= After(s, steps).election.grants
  {
    hide LeaseInv, Next, IsRun, After;
    PrefixOfRun(s, steps, q);
    PrefixOfRun(s, steps[..q], p);
    assert steps[..q][..p] == steps[..p];
    GrantsOnlyGrow(s, steps[..p]);
    GrantsOnlyGrow(After(s, steps[..p]), steps[..q][p..]);
    GrantsOnlyGrow(s, steps[..q]);
    GrantsOnlyGrow(After(s, steps[..q]), steps[q..]);
  }

  /** How many grants had been issued by each poll. */
  ghost function CountsAt(s: Sys, steps: seq<Step>, polls: seq<nat>): seq<int>
    requires IsRun(s, steps)
  {
    seq(|polls|, k requires 0 <= k < |polls| => |GrantsAt(s, steps, polls[k])|)
  }

  lemma PollIsHolder(s: Sys, steps: seq<Step>, p: nat, value: string)
    requires LeaseInv(s) && IsRun(s, steps) && p <= |steps| && IsRun(s, steps[..p])
    requires After(s, steps[..p]).election.holder == Some(value)
    ensures var (grants, count) := (After(s, steps).election.grants, |GrantsAt(s, steps, p)|);
            && 1 <= count <= |grants| && grants[count - 1].epoch == count
            && value == HolderValue(grants[count - 1].owner, count)
  {
    hide IsRun, After, LogInv, StampsInv, BatchesInv;
    GrantsAtIsPrefix(s, steps, p, |steps|);
    assert GrantsInv(After(s, steps[..p]).election);
  }

  lemma CountsAscend(s: Sys, steps: seq<Step>, polls: seq<nat>)
    requires LeaseInv(s) && IsRun(s, steps) && forall k :: 0 <= k < |polls| ==> polls[k] <= |steps|
    requires forall j, k :: 0 <= j < k < |polls| ==> polls[j] <= polls[k]
    ensures var counts := CountsAt(s, steps, polls); forall j, k :: 0 <= j < k < |counts| ==> counts[j] <= counts[k]
  {
    hide IsRun, After, LeaseInv, GrantsAt;
    forall j, k | 0 <= j < k < |polls| ensures |GrantsAt(s, steps, polls[j])| <= |GrantsAt(s, steps, polls[k])| {
      GrantsAtIsPrefix(s, steps, polls[j], polls[k]);
    }
  }

  lemma PollsAreHolders(s: Sys, steps: seq<Step>, polls: seq<nat>, samples: seq<Option<string>>)
    requires LeaseInv(s) && IsRun(s, steps) && ArePolls(s, steps, polls, samples)
    ensures AreHolders(After(s, steps).election.grants, samples, CountsAt(s, steps, polls))
  {
    hide IsRun, After, LeaseInv, GrantsAt, HolderValue;
    CountsAscend(s, steps, polls);
    var grants, counts := After(s, steps).election.grants, CountsAt(s, steps, polls);
    forall k | 0 <= k < |polls| && samples[k].Some?
      ensures 1 <= counts[k] <= |grants| && grants[counts[k] - 1].epoch == counts[k]
      ensures samples[k].value == HolderValue(grants[counts[k] - 1].owner, counts[k])
    {
      PollIsHolder(s, steps, polls[k], samples[k].value);
    }
  }

  /** The monitor has nothing to report on a store that keeps its writes: in any run, polled at any moments,
      with any of the polls failing, no two terms it sees share a token, so it reports no reuse. */
  lemma MonitorStaysQuiet(defaultRetries: int, steps: seq<Step>, polls: seq<nat>, samples: seq<Option<string>>)
    requires IsRun(Initial(defaultRetries), steps) && ArePolls(Initial(defaultRetries), steps, polls, samples)
    ensures TokensDiffer(TermsSeen(samples))
  {
    InitialLease(defaultRetries);
    hide IsRun, After, LeaseInv, AreHolders, ArePolls, TermsSeen, HolderValue, TokenOf;
    PollsAreHolders(Initial(defaultRetries), steps, polls, samples);
    TokensRise(After(Initial(defaultRetries), steps).election.grants, samples,
               CountsAt(Initial(defaultRetries), steps, polls));
  }
}
