/** The whole system as a state machine: schedulers that campaign, lead, pause and come back, their ingest
    and reclaim batches, workers, recovery loops and producers, interleaved one atomic step at a time over
    the shared store (internal/lease, internal/scheduler/engine.go, internal/recovery, internal/worker).

    Processes are modelled by what they may still send. Whoever was granted an epoch may use it at any later
    time, however long it was paused; a delivered message may be answered late, twice, or by several
    consumers; a reply may be lost; a batch may be abandoned at any point. A lease may expire at any time. */
module Protocol {
  import opened Text
  import opened Ordering
  import opened Wfq
  import opened Store
  import opened Handoff

  datatype Grant = Grant(owner: string, epoch: int)

  /** A guarded script that was let through, with the epoch it carried. */
  datatype Write =
    | Admission(epoch: int, id: string, isNew: bool, score: real)
    | DispatchCall(epoch: int)
    | StateFlush(epoch: int, fields: map<string, Field>)

  /** The lease keys and the fence; the grants issued and the guarded writes let through so far. */
  datatype Election = Election(
    holder: Option<string>, leaderEpoch: int, fence: int,
    grants: seq<Grant>, log: seq<Write>)

  /** A batch of ingress entries in the hands of one scheduler loop (Engine.admitBatch). `known` is the
      answer to the duplicate pre-check once it has been asked; `next` is the entry to look at next, and the
      number of entries once the loop is over; `acks` is what it will acknowledge. */
  datatype Batch = Batch(epoch: int, msgs: seq<(int, Task)>, known: Option<set<string>>, next: int, acks: set<int>)

  datatype Intake = Intake(entries: seq<Task>, read: int, pel: set<int>, batches: map<int, Batch>)

  datatype Sys = Sys(
    election: Election, intake: Intake, flow: Flow, schedState: map<string, Field>,
    book: Book, parents: Lineage)

  datatype Step =
    // producers
    | Submit(task: Task)
    // the lease
    | Acquire(owner: string)
    | Expire
    | Renew(value: string)
    | Release(value: string)
    | Reset
    // scheduler loops
    | ReadIngress(loop: int, epoch: int, count: nat)
    | ReclaimIngress(loop: int, epoch: int, ids: seq<int>)
    | LookUpKnown(loop: int, answer: set<string>)
    | AdmitNext(loop: int, score: real, replyLost: bool)
    | GiveUp(loop: int)
    | AckIngress(loop: int)
    | Abandon(loop: int)
    | Dispatch(epoch: int, count: nat, cap: int, now: int)
    | Flush(epoch: int, args: seq<(string, Field)>)
    // workers and recovery loops
    | ReadExec(count: nat)
    | Complete(msg: int, entry: ExecEntry, result: Result, now: int)
    | Retry(msg: int, entry: ExecEntry, budget: int, reason: string, now: int)

  predicate WasGranted(e: Election, epoch: int) {
    1 <= epoch <= |e.grants|
  }

  /** What the processes can do: a scheduler carries an epoch it was granted, a loop handles one batch at a
      time and only claims entries that are pending. */
  predicate Enabled(s: Sys, step: Step) {
    match step
    case ReadIngress(loop, epoch, _) => WasGranted(s.election, epoch) && loop !in s.intake.batches
    case ReclaimIngress(loop, epoch, ids) =>
      && WasGranted(s.election, epoch) && loop !in s.intake.batches
      && forall k :: 0 <= k < |ids| ==> ids[k] in s.intake.pel && 0 <= ids[k] < |s.intake.entries|
    case LookUpKnown(loop, _) => loop in s.intake.batches && s.intake.batches[loop].known.None?
    case AdmitNext(loop, _, _) =>
      && loop in s.intake.batches && s.intake.batches[loop].known.Some?
      && 0 <= s.intake.batches[loop].next < |s.intake.batches[loop].msgs|
    case GiveUp(loop) => loop in s.intake.batches && s.intake.batches[loop].known.Some?
    case AckIngress(loop) =>
      && loop in s.intake.batches && s.intake.batches[loop].known.Some?
      && s.intake.batches[loop].next == |s.intake.batches[loop].msgs|
    case Dispatch(epoch, _, _, _) => WasGranted(s.election, epoch)
    case Flush(epoch, args) => WasGranted(s.election, epoch) && args != []
    case _ => true
  }

  // ---------- the lease ----------

  function Granted(e: Election, owner: string): Election {
    if e.holder.Some? || e.leaderEpoch < 0 then e
    else e.(leaderEpoch := e.leaderEpoch + 1,
            holder := Some(HolderValue(owner, e.leaderEpoch + 1)),
            grants := e.grants + [Grant(owner, e.leaderEpoch + 1)])
  }

  function Released(e: Election, value: string): Election {
    if e.holder == Some(value) then e.(holder := None) else e
  }

  /** The fence lets a write through and remembers its epoch. */
  function Written(e: Election, w: Write): Election {
    e.(fence := FenceAfter(e.fence, w.epoch), log := e.log + [w])
  }

  // ---------- batches ----------

  /** The entries at the given positions, with their positions. */
  function Picked(entries: seq<Task>, ids: seq<int>): seq<(int, Task)>
    requires forall k :: 0 <= k < |ids| ==> 0 <= ids[k] < |entries|
  {
    if ids == [] then [] else [(ids[0], entries[ids[0]])] + Picked(entries, ids[1..])
  }

  function Upwards(lo: int, hi: int): (r: seq<int>)
    ensures |r| == Max(0, hi - lo) && forall k :: 0 <= k < |r| ==> r[k] == lo + k
    decreases hi - lo
  {
    if hi <= lo then [] else Upwards(lo, hi - 1) + [hi - 1]
  }

  function Fetched(epoch: int, msgs: seq<(int, Task)>): Batch {
    Batch(epoch, msgs, None, 0, {})
  }

  function Read(i: Intake, loop: int, epoch: int, count: nat): Intake {
    var upTo := Max(i.read, Min(i.read + count, |i.entries|));
    if 0 <= i.read then
      i.(read := upTo, pel := i.pel + Range(i.read, upTo),
         batches := i.batches[loop := Fetched(epoch, Picked(i.entries, Upwards(i.read, Min(upTo, |i.entries|))))])
    else i
  }

  function KnownAmong(f: Flow, msgs: seq<(int, Task)>): set<string> {
    set n | 0 <= n < |msgs| && Known(f, msgs[n].1.id) :: msgs[n].1.id
  }

  function Skipped(b: Batch): Batch
    requires 0 <= b.next < |b.msgs|
  {
    b.(acks := b.acks + {b.msgs[b.next].0}, next := b.next + 1)
  }

  function Stopped(b: Batch): Batch {
    b.(next := |b.msgs|)
  }

  function Admitted(s: Sys, loop: int, b: Batch, score: real, replyLost: bool): Sys
    requires 0 <= b.next < |b.msgs|
  {
    var t := b.msgs[b.next].1;
    s.(flow := AdmitTask(s.flow, t, Key(score, MemberFor(t))),
       book := AdmitBook(s.flow, s.book, t),
       election := Written(s.election, Admission(b.epoch, t.id, !Known(s.flow, t.id), score)),
       intake := s.intake.(batches := s.intake.batches[loop := if replyLost then Stopped(b) else Skipped(b)]))
  }

  function AdmittedNext(s: Sys, loop: int, b: Batch, score: real, replyLost: bool): Sys
    requires b.known.Some? && 0 <= b.next < |b.msgs|
  {
    var t := b.msgs[b.next].1;
    if t.id in b.known.value || !IsValid(t) then
      s.(intake := s.intake.(batches := s.intake.batches[loop := Skipped(b)]))
    else if IsFenced(s.election.fence, b.epoch) then
      s.(intake := s.intake.(batches := s.intake.batches[loop := Stopped(b)]))
    else Admitted(s, loop, b, score, replyLost)
  }

  // ---------- one step ----------

  ghost function Next(s: Sys, step: Step): Sys
    requires Enabled(s, step)
  {
    match step
    case Submit(t) => s.(intake := s.intake.(entries := s.intake.entries + [t]))
    case Acquire(owner) => s.(election := Granted(s.election, owner))
    case Expire => s.(election := s.election.(holder := None))
    case Renew(_) => s
    case Release(value) => s.(election := Released(s.election, value))
    case Reset =>
      Sys(s.election.(holder := None), Intake([], 0, {}, s.intake.batches), EMPTY_FLOW, map[],
          Book(s.book.defaultRetries, map[]), [])
    case ReadIngress(loop, epoch, count) => s.(intake := Read(s.intake, loop, epoch, count))
    case ReclaimIngress(loop, epoch, ids) =>
      s.(intake := s.intake.(batches := s.intake.batches[loop := Fetched(epoch, Picked(s.intake.entries, ids))]))
    case LookUpKnown(loop, answer) =>
      s.(intake := s.intake.(batches := s.intake.batches[loop := s.intake.batches[loop].(known := Some(answer))]))
    case AdmitNext(loop, score, replyLost) => AdmittedNext(s, loop, s.intake.batches[loop], score, replyLost)
    case GiveUp(loop) =>
      s.(intake := s.intake.(batches := s.intake.batches[loop := Stopped(s.intake.batches[loop])]))
    case AckIngress(loop) =>
      s.(intake := s.intake.(pel := s.intake.pel - s.intake.batches[loop].acks, batches := s.intake.batches - {loop}))
    case Abandon(loop) => s.(intake := s.intake.(batches := s.intake.batches - {loop}))
    case Dispatch(epoch, count, cap, now) =>
      if IsFenced(s.election.fence, epoch) then s
      else s.(election := Written(s.election, DispatchCall(epoch)),
              flow := DispatchMany(s.flow, count, cap, now, epoch),
              parents := Extended(s.parents, |Report(s.flow, count, cap, now, epoch)|))
    case Flush(epoch, args) =>
      if IsFenced(s.election.fence, epoch) then s
      else s.(election := Written(s.election, StateFlush(epoch, FieldsOf(args))), schedState := FieldsOf(args))
    case ReadExec(count) => s.(flow := Handoff.ReadExec(s.flow, count))
    case Complete(msg, entry, result, now) => s.(flow := CompleteTask(s.flow, result, now, Some(msg)))
    case Retry(msg, entry, budget, reason, now) =>
      s.(flow := RetryTask(s.flow, entry.task, budget, reason, now, Some(msg)),
         parents := RetryLineage(s.flow, s.parents, entry.task, budget, msg))
  }

  ghost predicate IsRun(s: Sys, steps: seq<Step>)
    decreases |steps|
  {
    steps == [] || (Enabled(s, steps[0]) && IsRun(Next(s, steps[0]), steps[1..]))
  }

  ghost function After(s: Sys, steps: seq<Step>): Sys
    requires IsRun(s, steps)
    decreases |steps|
  {
    if steps == [] then s else After(Next(s, steps[0]), steps[1..])
  }

  function Initial(defaultRetries: int): Sys {
    Sys(Election(None, 0, 0, [], []), Intake([], 0, {}, map[]), EMPTY_FLOW, map[], Book(defaultRetries, map[]), [])
  }
}
