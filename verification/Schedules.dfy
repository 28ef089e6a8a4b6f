/** Exactly when the saved clock can go back (internal/scheduler/engine.go:172-184 and 251-273): the order in which
    terms read, write and save decides it, whatever their clocks do.

    The schedule of a run is that order, without how far the clocks got and what was saved. A run without stale
    saves never goes back; and the schedule of any other run has a run in which the saved clock does, because
    the terms that are not stale may always get ahead of those that are. */
module Schedules {
  import opened Text
  import opened Ordering
  import opened Wfq
  import opened Store
  import opened Handoff
  import opened Protocol
  import opened Leadership
  import opened Snapshots

  datatype Slot = ActSlot(step: Step) | ReadSlot(epoch: int) | SaveSlot(epoch: int)

  function SlotOf(move: Move): seq<Slot> {
    match move
    case Act(step) => [ActSlot(step)]
    case Read(epoch, _) => [ReadSlot(epoch)]
    case Turn(_, _) => []
    case Save(epoch, _) => [SaveSlot(epoch)]
  }

  function ScheduleOf(moves: seq<Move>): seq<Slot> {
    if moves == [] then [] else SlotOf(moves[0]) + ScheduleOf(moves[1..])
  }

  lemma {:induction false} ScheduleOfBoth(a: seq<Move>, b: seq<Move>)
    ensures ScheduleOf(a + b) == ScheduleOf(a) + ScheduleOf(b)
  {
    if a == [] {
      assert a + b == b;
    } else {
      assert (a + b)[1..] == a[1..] + b;
      ScheduleOfBoth(a[1..], b);
    }
  }

  lemma {:induction false} MovesOfBoth(w: World, a: seq<Move>, b: seq<Move>)
    requires AreMoves(w, a) && AreMoves(Reached(w, a), b)
    ensures AreMoves(w, a + b) && Reached(w, a + b) == Reached(Reached(w, a), b)
    decreases |a|
  {
    hide IsPossible, Make;
    if a == [] {
      assert a + b == b;
    } else {
      assert (a + b)[1..] == a[1..] + b;
      MovesOfBoth(Make(w, a[0]), a[1..], b);
    }
  }

  // ---------- worlds that differ only in clocks and what was saved ----------

  function Erased(s: Sys): Sys {
    s.(schedState := map[], election := s.election.(log := []))
  }

  ghost predicate AreAlike(w: World, v: World) {
    Erased(w.sys) == Erased(v.sys) && w.clocks.Keys == v.clocks.Keys && w.stale == v.stale
  }

  /** No step but a flush looks at what was saved or written. */
  lemma NextForgets(s: Sys, step: Step)
    requires !step.Flush? && !step.Reset?
    ensures Enabled(s, step) <==> Enabled(Erased(s), step)
    ensures Enabled(s, step) ==> Erased(Next(s, step)) == Erased(Next(Erased(s), step))
  {
    hide DispatchMany, CompleteTask, RetryTask, AdmitTask, AdmitBook, IsValid, Picked, Upwards, RetryLineage, Extended;
  }

  lemma FlushForgets(s: Sys, epoch: int, args: seq<(string, Field)>)
    requires Enabled(s, Flush(epoch, args))
    ensures Erased(Next(s, Flush(epoch, args))) ==
            Erased(s).(election := Erased(s).election.(fence := FenceAfter(s.election.fence, epoch)))
  {
    hide FieldsOf;
  }

  /** Moves in the same slot keep worlds alike. */
  lemma SameSlotKeepsAlike(w: World, v: World, a: Move, b: Move)
    requires AreAlike(w, v) && IsPossible(w, a) && IsPossible(v, b) && SlotOf(a) == SlotOf(b) != []
    ensures AreAlike(Make(w, a), Make(v, b))
  {
    hide Next, Enabled, FieldsOf, IsRestored, Erased;
    match a
    case Act(step) =>
      NextForgets(w.sys, step);
      NextForgets(v.sys, step);
    case Read(epoch, _) =>
    case Save(epoch, args) =>
      FlushForgets(w.sys, epoch, args);
      FlushForgets(v.sys, epoch, b.args);
      SameFence(w, v);
    case _ =>
  }

  lemma SameFence(w: World, v: World)
    requires AreAlike(w, v)
    ensures w.sys.election.fence == v.sys.election.fence && w.sys.election.grants == v.sys.election.grants
  {
  }

  lemma TurnKeepsAlike(w: World, v: World, move: Move)
    requires AreAlike(w, v) && IsPossible(w, move) && move.Turn?
    ensures AreAlike(Make(w, move), v) && AreAlike(v, Make(w, move))
  {
    assert Make(w, move).clocks.Keys == w.clocks.Keys;
  }

  /** Whether a run has stale saves depends on its schedule only. */
  lemma {:induction false} ScheduleDecidesStaleness(w: World, moves: seq<Move>, v: World, others: seq<Move>)
    requires AreAlike(w, v) && AreMoves(w, moves) && AreMoves(v, others)
    requires ScheduleOf(moves) == ScheduleOf(others) && NoStaleSave(w, moves)
    ensures NoStaleSave(v, others)
    decreases |moves| + |others|
  {
    hide IsPossible, Make, AreAlike;
    if moves != [] && moves[0].Turn? {
      TurnKeepsAlike(w, v, moves[0]);
      ScheduleDecidesStaleness(Make(w, moves[0]), moves[1..], v, others);
    } else if others != [] {
      if others[0].Turn? {
        AlikeIsSymmetric(w, v);
        TurnKeepsAlike(v, w, others[0]);
        ScheduleDecidesStaleness(w, moves, Make(v, others[0]), others[1..]);
      } else {
        assert moves != [];
        assert SlotOf(moves[0]) == ScheduleOf(moves)[..1] == ScheduleOf(others)[..1] == SlotOf(others[0]);
        assert ScheduleOf(moves[1..]) == ScheduleOf(moves)[1..] == ScheduleOf(others)[1..] == ScheduleOf(others[1..]);
        SameSlotKeepsAlike(w, v, moves[0], others[0]);
        SameGate(w, v);
        ScheduleDecidesStaleness(Make(w, moves[0]), moves[1..], Make(v, others[0]), others[1..]);
      }
    }
  }

  lemma AlikeIsSymmetric(w: World, v: World)
    requires AreAlike(w, v)
    ensures AreAlike(v, w)
  {
  }

  lemma SameGate(w: World, v: World)
    requires AreAlike(w, v)
    ensures w.stale == v.stale && forall e :: IsLetThrough(w, e) == IsLetThrough(v, e)
  {
    SameFence(w, v);
  }

  // ---------- answering a schedule ----------

  /** Clocks and saved state hold a virtual time and nothing else. */
  ghost predicate IsPlain(v: World) {
    && (forall e :: e in v.clocks ==>
          v.clocks[e].virtualTime >= 0.0 && v.clocks[e] == FreshClock(v.clocks[e].virtualTime))
    && SavedTime(v.sys.schedState) >= 0.0
    && (v.sys.schedState == map[] || v.sys.schedState == FieldsOf(PlainArgs(SavedTime(v.sys.schedState))))
    && v.stale <= v.clocks.Keys
  }

  /** A move for the slot of `move` in a plain world: a term that reads gets the saved time, a term that saves
      saves its clock. */
  function AnswerTo(v: World, move: Move): seq<Move> {
    match move
    case Act(step) => [move]
    case Read(epoch, _) => [Read(epoch, FreshClock(SavedTime(v.sys.schedState)))]
    case Turn(_, _) => []
    case Save(epoch, _) => if epoch in v.clocks then [Save(epoch, PlainArgs(v.clocks[epoch].virtualTime))] else []
  }

  lemma OneMove(v: World, move: Move)
    requires IsPossible(v, move)
    ensures AreMoves(v, [move]) && Reached(v, [move]) == Make(v, move) && ScheduleOf([move]) == SlotOf(move)
  {
    assert [move][1..] == [];
  }

  lemma AnswerIsPossible(w: World, v: World, move: Move)
    requires AreAlike(w, v) && IsPlain(v) && IsPossible(w, move) && !move.Turn?
    ensures var answer := AnswerTo(v, move);
            |answer| == 1 && IsPossible(v, answer[0]) && SlotOf(answer[0]) == SlotOf(move)
  {
    hide FieldsOf, SavedFor, IsRestored, HoldsFields, SavedTime, Enabled;
    match move
    case Act(step) =>
      NextForgets(w.sys, step);
      NextForgets(v.sys, step);
    case Read(epoch, _) =>
      SameFence(w, v);
      ReadIsPlain(v.sys.schedState);
    case Save(epoch, args) =>
      SameFence(w, v);
      PlainIsSaved(v.clocks[epoch].virtualTime);
      SaveIsEnabled(w.sys, v.sys, epoch, args, PlainArgs(v.clocks[epoch].virtualTime));
  }

  lemma SaveIsEnabled(s: Sys, s': Sys, epoch: int, args: seq<(string, Field)>, args': seq<(string, Field)>)
    requires Enabled(s, Flush(epoch, args)) && s.election.grants == s'.election.grants && args' != []
    ensures Enabled(s', Flush(epoch, args'))
  {
  }

  lemma ReadIsPlain(state: map<string, Field>)
    requires SavedTime(state) >= 0.0 && (state == map[] || state == FieldsOf(PlainArgs(SavedTime(state))))
    ensures IsRestored(FreshClock(SavedTime(state)), state)
  {
    PlainIsSaved(SavedTime(state));
  }

  lemma AnswerKeepsPlain(v: World, move: Move)
    requires LeaseInv(v.sys) && IsPlain(v) && IsPossible(v, move) && AnswerTo(v, move) == [move]
    ensures var v' := Make(v, move);
            LeaseInv(v'.sys) && IsPlain(v') && v.sys.election.log <= v'.sys.election.log
  {
    hide LeaseInv, FieldsOf, SavedFor, IsRestored, SavedTime, Next, Enabled;
    match move
    case Act(step) =>
      StepKeepsLease(v.sys, step);
      ActLeavesSnapshots(v.sys, step);
    case Read(epoch, clock) =>
    case Save(epoch, args) =>
      StepKeepsLease(v.sys, Flush(epoch, args));
      PlainIsSaved(v.clocks[epoch].virtualTime);
      if IsLetThrough(v, epoch) {
        SaveIsKept(v.sys, epoch, args);
      } else {
        RefusedChangesNothing(v.sys, epoch, args);
      }
  }

  /** Any schedule can be answered from a plain world that is alike. */
  lemma {:induction false} AnswerAll(w: World, moves: seq<Move>, v: World) returns (answers: seq<Move>)
    requires AreAlike(w, v) && AreMoves(w, moves) && LeaseInv(v.sys) && IsPlain(v)
    ensures AreMoves(v, answers) && ScheduleOf(answers) == ScheduleOf(moves)
    ensures v.sys.election.log <= Reached(v, answers).sys.election.log
    decreases |moves|
  {
    hide IsPossible, Make, AreAlike, IsPlain, LeaseInv, AnswerTo;
    if moves == [] {
      return [];
    }
    if moves[0].Turn? {
      TurnKeepsAlike(w, v, moves[0]);
      answers := AnswerAll(Make(w, moves[0]), moves[1..], v);
      return;
    }
    AnswerIsPossible(w, v, moves[0]);
    var first := AnswerTo(v, moves[0])[0];
    AnswerIsItself(v, moves[0], first);
    AnswerKeepsPlain(v, first);
    SameSlotKeepsAlike(w, v, moves[0], first);
    var rest := AnswerAll(Make(w, moves[0]), moves[1..], Make(v, first));
    OneMove(v, first);
    MovesOfBoth(v, [first], rest);
    ScheduleOfBoth([first], rest);
    answers := [first] + rest;
  }

  lemma AnswerIsItself(v: World, move: Move, answer: Move)
    requires AnswerTo(v, move) == [answer]
    ensures AnswerTo(v, answer) == [answer]
    ensures move.Turn? == answer.Turn? && (SlotOf(move) != [] ==> SlotOf(answer) == SlotOf(move))
  {
  }

  // ---------- getting ahead of stale terms ----------

  /** The saved time was saved, no clock is past it, and stale terms are behind it. */
  ghost predicate IsAhead(v: World) {
    var saved := SavedTime(v.sys.schedState);
    && (saved == 0.0 || HasSaved(v.sys.election.log, saved))
    && (forall e :: e in v.clocks ==> v.clocks[e].virtualTime <= saved)
    && (forall e :: e in v.stale && e in v.clocks ==> v.clocks[e].virtualTime < saved)
  }

  ghost predicate HasSaved(log: seq<Write>, time: real) {
    exists n :: 0 <= n < |log| && log[n].StateFlush? && SavedTime(log[n].fields) == time
  }

  lemma HasSavedStays(log: seq<Write>, longer: seq<Write>, time: real)
    requires HasSaved(log, time) && log <= longer
    ensures HasSaved(longer, time)
  {
    var n :| 0 <= n < |log| && log[n].StateFlush? && SavedTime(log[n].fields) == time;
    assert longer[n] == log[n];
  }

  lemma BackStaysBack(log: seq<Write>, longer: seq<Write>)
    requires !NeverGoesBack(log) && log <= longer
    ensures !NeverGoesBack(longer)
  {
    hide SavedTime;
    var m, n :| 0 <= m < n < |log| && log[m].StateFlush? && log[n].StateFlush? &&
                SavedTime(log[m].fields) > SavedTime(log[n].fields);
    assert longer[m] == log[m] && longer[n] == log[n];
  }

  /** Anything but a save that is let through keeps the lead. */
  lemma AnswerKeepsAhead(v: World, move: Move)
    requires LeaseInv(v.sys) && IsPlain(v) && IsAhead(v) && IsPossible(v, move) && AnswerTo(v, move) == [move]
    requires !(move.Save? && IsLetThrough(v, move.epoch))
    ensures IsAhead(Make(v, move))
  {
    hide LeaseInv, FieldsOf, SavedFor, IsRestored, SavedTime, Next, Enabled, HasSaved;
    var saved := SavedTime(v.sys.schedState);
    match move
    case Act(step) =>
      ActLeavesSnapshots(v.sys, step);
      if HasSaved(v.sys.election.log, saved) {
        HasSavedStays(v.sys.election.log, Next(v.sys, step).election.log, saved);
      }
    case Read(epoch, clock) =>
    case Save(epoch, args) => RefusedChangesNothing(v.sys, epoch, args);
  }

  /** A term that is not stale gets past everyone before it saves. */
  lemma SaveAhead(v: World, epoch: int) returns (answers: seq<Move>)
    requires LeaseInv(v.sys) && IsPlain(v) && IsAhead(v) && epoch in v.clocks && IsLetThrough(v, epoch)
    requires WasGranted(v.sys.election, epoch) && epoch !in v.stale
    ensures AreMoves(v, answers) && ScheduleOf(answers) == [SaveSlot(epoch)]
    ensures var v' := Reached(v, answers);
            LeaseInv(v'.sys) && IsPlain(v') && IsAhead(v') && v.sys.election.log <= v'.sys.election.log
    ensures |answers| == 2 && answers[0].Turn? && answers[0].epoch == epoch && IsPossible(v, answers[0])
    ensures answers[1].Save? && IsPossible(Make(v, answers[0]), answers[1])
    ensures Reached(v, answers) == Make(Make(v, answers[0]), answers[1])
  {
    hide LeaseInv, IsPlain, IsAhead, FieldsOf, SavedFor, SavedTime, Next, AreMoves, Reached, ScheduleOf;
    var time := SavedTime(v.sys.schedState) + 1.0;
    var turn, save := Turn(epoch, NotifyKey(Key(time, ""))), Save(epoch, PlainArgs(time));
    answers := [turn] + [save];
    var turned := Make(v, turn);
    NobodyIsPast(v, epoch);
    TurnedClock(v, epoch, time);
    PlainIsSaved(time);
    OneMove(v, turn);
    OneMove(turned, save);
    MovesOfBoth(v, [turn], [save]);
    ScheduleOfBoth([turn], [save]);
    AnswerKeepsPlain(turned, save);
    SavedIsAhead(turned, epoch, time, v);
  }

  lemma NobodyIsPast(v: World, epoch: int)
    requires IsAhead(v) && epoch in v.clocks
    ensures v.clocks[epoch].virtualTime <= SavedTime(v.sys.schedState)
  {
  }

  lemma TurnedClock(v: World, epoch: int, time: real)
    requires IsPlain(v) && epoch in v.clocks && time > v.clocks[epoch].virtualTime
    ensures var turned := Make(v, Turn(epoch, NotifyKey(Key(time, ""))));
            turned == v.(clocks := v.clocks[epoch := FreshClock(time)]) && IsPlain(turned)
  {
    hide FieldsOf, SavedTime;
  }

  lemma SavedIsAhead(turned: World, epoch: int, time: real, v: World)
    requires IsAhead(v) && time == SavedTime(v.sys.schedState) + 1.0 && epoch in v.clocks && epoch !in v.stale
    requires turned == v.(clocks := v.clocks[epoch := FreshClock(time)])
    requires LeaseInv(turned.sys) && IsPossible(turned, Save(epoch, PlainArgs(time))) && IsLetThrough(turned, epoch)
    ensures IsAhead(Make(turned, Save(epoch, PlainArgs(time))))
  {
    hide LeaseInv, FieldsOf, SavedFor, SavedTime, Next, Enabled;
    PlainIsSaved(time);
    SaveIsKept(turned.sys, epoch, PlainArgs(time));
    var log := Make(turned, Save(epoch, PlainArgs(time))).sys.election.log;
    assert log[|log| - 1] == StateFlush(epoch, FieldsOf(PlainArgs(time)));
  }

  /** A stale term that saves its clock puts the saved time back. */
  lemma StaleSaveGoesBack(v: World, epoch: int)
    requires LeaseInv(v.sys) && IsPlain(v) && IsAhead(v) && epoch in v.stale && IsLetThrough(v, epoch)
    requires epoch in v.clocks && IsPossible(v, Save(epoch, PlainArgs(v.clocks[epoch].virtualTime)))
    ensures !NeverGoesBack(Make(v, Save(epoch, PlainArgs(v.clocks[epoch].virtualTime))).sys.election.log)
  {
    hide LeaseInv, FieldsOf, SavedFor, SavedTime, Next, Enabled;
    var time, log := v.clocks[epoch].virtualTime, v.sys.election.log;
    PlainIsSaved(time);
    SaveIsKept(v.sys, epoch, PlainArgs(time));
    var n :| 0 <= n < |log| && log[n].StateFlush? && SavedTime(log[n].fields) == SavedTime(v.sys.schedState);
    var longer := log + [StateFlush(epoch, FieldsOf(PlainArgs(time)))];
    assert longer[n] == log[n] && SavedTime(longer[n].fields) > SavedTime(longer[|log|].fields);
  }

  /** The schedule of a run with a stale save has a run in which the saved clock goes back. */
  lemma {:induction false} Outrun(w: World, moves: seq<Move>, v: World) returns (answers: seq<Move>)
    requires AreAlike(w, v) && AreMoves(w, moves) && !NoStaleSave(w, moves)
    requires LeaseInv(v.sys) && IsPlain(v) && IsAhead(v)
    ensures AreMoves(v, answers) && ScheduleOf(answers) == ScheduleOf(moves)
    ensures !NeverGoesBack(Reached(v, answers).sys.election.log)
    decreases |moves|
  {
    hide IsPossible, Make, AreAlike, IsPlain, IsAhead, LeaseInv, AnswerTo, NeverGoesBack, IsLetThrough;
    SameGate(w, v);
    var move := moves[0];
    if move.Turn? {
      TurnKeepsAlike(w, v, move);
      answers := Outrun(Make(w, move), moves[1..], v);
      return;
    }
    var first, rest;
    if move.Save? && IsLetThrough(v, move.epoch) && move.epoch !in v.stale {
      first := AnswerAhead(w, v, move);
      rest := Outrun(Make(w, move), moves[1..], Reached(v, first));
    } else {
      first := Answer(w, v, move);
      if move.Save? && IsLetThrough(v, move.epoch) {
        rest := AnswerAll(Make(w, move), moves[1..], Reached(v, first));
        BackStaysBack(Reached(v, first).sys.election.log, Reached(Reached(v, first), rest).sys.election.log);
      } else {
        rest := Outrun(Make(w, move), moves[1..], Reached(v, first));
      }
    }
    MovesOfBoth(v, first, rest);
    ScheduleOfBoth(first, rest);
    answers := first + rest;
  }

  /** One slot answered as AnswerTo says. */
  lemma Answer(w: World, v: World, move: Move) returns (answers: seq<Move>)
    requires AreAlike(w, v) && IsPossible(w, move) && !move.Turn? && LeaseInv(v.sys) && IsPlain(v) && IsAhead(v)
    ensures AreMoves(v, answers) && ScheduleOf(answers) == SlotOf(move)
    ensures AreAlike(Make(w, move), Reached(v, answers))
    ensures LeaseInv(Reached(v, answers).sys) && IsPlain(Reached(v, answers))
    ensures if move.Save? && IsLetThrough(v, move.epoch)
            then move.epoch in v.stale ==> !NeverGoesBack(Reached(v, answers).sys.election.log)
            else IsAhead(Reached(v, answers))
  {
    hide IsPossible, Make, AreAlike, IsPlain, IsAhead, LeaseInv, NeverGoesBack, IsLetThrough;
    AnswerIsPossible(w, v, move);
    answers := AnswerTo(v, move);
    var first := answers[0];
    AnswerIsItself(v, move, first);
    AnswerKeepsPlain(v, first);
    SameSlotKeepsAlike(w, v, move, first);
    OneMove(v, first);
    if move.Save? && IsLetThrough(v, move.epoch) {
      if move.epoch in v.stale {
        StaleSaveGoesBack(v, move.epoch);
      }
    } else {
      AnswerKeepsAhead(v, first);
    }
  }

  /** The slot of a save that is not stale, answered by getting ahead first. */
  lemma AnswerAhead(w: World, v: World, move: Move) returns (answers: seq<Move>)
    requires AreAlike(w, v) && IsPossible(w, move) && move.Save? && LeaseInv(v.sys) && IsPlain(v) && IsAhead(v)
    requires IsLetThrough(v, move.epoch) && move.epoch !in v.stale
    ensures AreMoves(v, answers) && ScheduleOf(answers) == SlotOf(move)
    ensures AreAlike(Make(w, move), Reached(v, answers)) && LeaseInv(Reached(v, answers).sys)
    ensures IsPlain(Reached(v, answers)) && IsAhead(Reached(v, answers))
  {
    hide Make, IsPlain, IsAhead, LeaseInv, IsLetThrough, FieldsOf, SavedFor;
    SameFence(w, v);
    answers := SaveAhead(v, move.epoch);
    AlikeIsSymmetric(w, v);
    TurnKeepsAlike(v, w, answers[0]);
    SameSlotKeepsAlike(w, Make(v, answers[0]), move, answers[1]);
  }

  // ---------- the theorem ----------

  lemma BeginningIsPlain(defaultRetries: int)
    ensures var w := Beginning(defaultRetries);
            LeaseInv(w.sys) && IsPlain(w) && IsAhead(w) && AreAlike(w, w)
  {
    InitialLease(defaultRetries);
  }

  /** The saved virtual time never goes back in any run of a schedule if and only if the schedule has no stale
      save: no term saves, without being refused, after an older term has saved between its read and its own
      first guarded write. The order of reads and writes alone decides. */
  lemma ScheduleDecides(defaultRetries: int, moves: seq<Move>)
    requires AreMoves(Beginning(defaultRetries), moves)
    ensures NoStaleSave(Beginning(defaultRetries), moves) <==>
            forall others :: AreMoves(Beginning(defaultRetries), others) && ScheduleOf(others) == ScheduleOf(moves) ==>
              NeverGoesBack(Reached(Beginning(defaultRetries), others).sys.election.log)
  {
    var w := Beginning(defaultRetries);
    BeginningIsPlain(defaultRetries);
    hide AreMoves, Reached, NoStaleSave, NeverGoesBack, IsPlain, IsAhead, AreAlike, LeaseInv, ScheduleOf;
    if NoStaleSave(w, moves) {
      forall others | AreMoves(w, others) && ScheduleOf(others) == ScheduleOf(moves)
        ensures NeverGoesBack(Reached(w, others).sys.election.log)
      {
        ScheduleDecidesStaleness(w, moves, w, others);
        SnapshotsNeverGoBack(defaultRetries, others);
      }
    } else {
      var others := Outrun(w, moves, w);
      assert !NeverGoesBack(Reached(w, others).sys.election.log);
    }
  }
}
