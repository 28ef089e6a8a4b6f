/** The saved policy state across terms (internal/scheduler/engine.go:172-184 and 251-273): every leader reads it
    at the start of its term, runs its own clock from there, and saves that clock as a whole.

    The read is not guarded, so a term that has been superseded may still save after its successor has read and
    before the successor's first write. The successor has then gone stale. Over every run in which nobody resets
    the namespace, which empties the saved state, the saved virtual time goes back only when a stale term saves;
    and there is a run where it does. Schedules.dfy makes the condition exact. */
module Snapshots {
  import opened Text
  import opened Ordering
  import opened Wfq
  import opened Store
  import opened Handoff
  import opened Protocol
  import opened Leadership

  /** The system, the clock of every term that has read the saved state, and the terms that have gone stale:
      an older term has saved since they read. */
  datatype World = World(sys: Sys, clocks: map<int, Clock>, stale: set<int>)

  datatype Move =
    | Act(step: Step)
    | Read(epoch: int, clock: Clock)
    | Turn(epoch: int, clockStep: ClockStep)
    | Save(epoch: int, args: seq<(string, Field)>)

  /** The virtual time in saved state; zero when there is none. */
  function SavedTime(fields: map<string, Field>): real {
    if STATE_VIRTUAL_TIME in fields && fields[STATE_VIRTUAL_TIME].Number? then fields[STATE_VIRTUAL_TIME].value else 0.0
  }

  /** A policy's clock after it has restored the state: its own when nothing was saved. */
  ghost predicate IsRestored(c: Clock, state: map<string, Field>) {
    if state == map[] then c.virtualTime >= 0.0
    else HoldsFields(c.virtualTime, c.lastFinish, state, state.Keys)
  }

  ghost predicate IsPossible(w: World, move: Move) {
    match move
    case Act(step) => Enabled(w.sys, step) && !step.Flush? && !step.Reset?
    case Read(epoch, clock) =>
      WasGranted(w.sys.election, epoch) && epoch !in w.clocks && IsRestored(clock, w.sys.schedState)
    case Turn(epoch, _) => epoch in w.clocks
    case Save(epoch, args) =>
      epoch in w.clocks && Enabled(w.sys, Flush(epoch, args)) && SavedFor(FieldsOf(args), w.clocks[epoch])
  }

  predicate IsLetThrough(w: World, epoch: int) {
    !IsFenced(w.sys.election.fence, epoch)
  }

  ghost function Make(w: World, move: Move): World
    requires IsPossible(w, move)
  {
    match move
    case Act(step) => w.(sys := Next(w.sys, step))
    case Read(epoch, clock) => w.(clocks := w.clocks[epoch := clock])
    case Turn(epoch, clockStep) => w.(clocks := w.clocks[epoch := ClockNext(w.clocks[epoch], clockStep)])
    case Save(epoch, args) =>
      World(Next(w.sys, Flush(epoch, args)), w.clocks,
            if IsLetThrough(w, epoch) then w.stale + (set e | e in w.clocks && e > epoch) else w.stale)
  }

  ghost predicate AreMoves(w: World, moves: seq<Move>)
    decreases |moves|
  {
    moves == [] || (IsPossible(w, moves[0]) && AreMoves(Make(w, moves[0]), moves[1..]))
  }

  ghost function Reached(w: World, moves: seq<Move>): World
    requires AreMoves(w, moves)
    decreases |moves|
  {
    if moves == [] then w else Reached(Make(w, moves[0]), moves[1..])
  }

  function Beginning(defaultRetries: int): World {
    World(Initial(defaultRetries), map[], {})
  }

  // ---------- the invariant ----------

  /** Nothing saved is ahead of what is saved now. */
  ghost predicate LatestIsHighest(log: seq<Write>, saved: real) {
    saved >= 0.0 && forall n :: 0 <= n < |log| && log[n].StateFlush? ==> SavedTime(log[n].fields) <= saved
  }

  /** A term that may still write and has not gone stale is at least as far as the saved clock. */
  ghost predicate FreshAreAhead(clocks: map<int, Clock>, stale: set<int>, fence: int, saved: real) {
    forall e :: e in clocks && e >= fence && e !in stale ==> clocks[e].virtualTime >= saved
  }

  ghost predicate WorldInv(w: World) {
    && LeaseInv(w.sys)
    && SavedTime(w.sys.schedState) >= 0.0
    && (forall e :: e in w.clocks ==> w.clocks[e].virtualTime >= 0.0)
    && FreshAreAhead(w.clocks, w.stale, w.sys.election.fence, SavedTime(w.sys.schedState))
  }

  lemma ActLeavesSnapshots(s: Sys, step: Step)
    requires LeaseInv(s) && Enabled(s, step) && !step.Flush? && !step.Reset?
    ensures Next(s, step).schedState == s.schedState && Next(s, step).election.fence >= s.election.fence
    ensures var log, log' := s.election.log, Next(s, step).election.log;
            log' == log || (|log'| == |log| + 1 && log <= log' && !log'[|log|].StateFlush?)
  {
    FenceOnlyRises(s, step);
    hide LogInv, StampsInv, GrantsInv, BatchesInv;
  }

  lemma ReadIsAhead(clock: Clock, state: map<string, Field>)
    requires IsRestored(clock, state) && SavedTime(state) >= 0.0
    ensures clock.virtualTime >= SavedTime(state)
  {
  }

  lemma SaveIsKept(s: Sys, epoch: int, args: seq<(string, Field)>)
    requires LeaseInv(s) && Enabled(s, Flush(epoch, args)) && !IsFenced(s.election.fence, epoch)
    ensures var s' := Next(s, Flush(epoch, args));
            && s'.schedState == FieldsOf(args) && s'.election.fence == epoch
            && s'.election.log == s.election.log + [StateFlush(epoch, FieldsOf(args))]
  {
    hide FieldsOf, LogInv, StampsInv, BatchesInv;
  }

  lemma MoveKeepsWorld(w: World, move: Move)
    requires WorldInv(w) && IsPossible(w, move)
    ensures WorldInv(Make(w, move))
  {
    hide LeaseInv, FieldsOf, Next, Enabled, SavedTime;
    match move
    case Act(step) =>
      StepKeepsLease(w.sys, step);
      ActLeavesSnapshots(w.sys, step);
    case Read(epoch, clock) => ReadIsAhead(clock, w.sys.schedState);
    case Turn(epoch, clockStep) => TurnMovesForward(w.clocks[epoch], clockStep);
    case Save(epoch, args) =>
      StepKeepsLease(w.sys, Flush(epoch, args));
      if IsLetThrough(w, epoch) {
        SaveIsKept(w.sys, epoch, args);
        SavedIsClock(FieldsOf(args), w.clocks[epoch]);
      } else {
        RefusedChangesNothing(w.sys, epoch, args);
      }
  }

  lemma {:induction false} MovesKeepWorld(w: World, moves: seq<Move>)
    requires WorldInv(w) && AreMoves(w, moves)
    ensures WorldInv(Reached(w, moves))
    decreases |moves|
  {
    hide WorldInv, IsPossible, Make;
    if moves != [] {
      MoveKeepsWorld(w, moves[0]);
      MovesKeepWorld(Make(w, moves[0]), moves[1..]);
    }
  }

  lemma RefusedChangesNothing(s: Sys, epoch: int, args: seq<(string, Field)>)
    requires Enabled(s, Flush(epoch, args)) && IsFenced(s.election.fence, epoch)
    ensures Next(s, Flush(epoch, args)) == s
  {
  }

  lemma SavedIsClock(state: map<string, Field>, c: Clock)
    requires SavedFor(state, c)
    ensures SavedTime(state) == c.virtualTime
  {
  }

  lemma TurnMovesForward(c: Clock, clockStep: ClockStep)
    ensures ClockNext(c, clockStep).virtualTime >= c.virtualTime
  {
  }

  /** A term only goes stale between its read and its own first guarded write: when an older term's save is let
      through, the newer one has written nothing. */
  lemma StaleBeforeWriting(w: World, epoch: int, args: seq<(string, Field)>, newer: int)
    requires WorldInv(w) && IsPossible(w, Save(epoch, args)) && IsLetThrough(w, epoch)
    requires newer in Make(w, Save(epoch, args)).stale && newer !in w.stale
    ensures newer in w.clocks && newer > epoch
    ensures forall n :: 0 <= n < |w.sys.election.log| ==> w.sys.election.log[n].epoch < newer
  {
    NotFencedIsRecent(w.sys, epoch);
    WritesAreBehindFence(w.sys);
  }

  lemma WritesAreBehindFence(s: Sys)
    requires LeaseInv(s)
    ensures forall n :: 0 <= n < |s.election.log| ==> s.election.log[n].epoch <= s.election.fence
  {
  }

  // ---------- the theorem ----------

  /** No save that is let through is by a stale term. A term stops older ones with its own first guarded write,
      so this says that no older term saves between a term's read and that write. */
  ghost predicate NoStaleSave(w: World, moves: seq<Move>)
    requires AreMoves(w, moves)
    decreases |moves|
  {
    moves == [] ||
    (&& (moves[0].Save? && IsLetThrough(w, moves[0].epoch) ==> moves[0].epoch !in w.stale)
     && NoStaleSave(Make(w, moves[0]), moves[1..]))
  }

  /** Successive snapshots never go back in virtual time. */
  ghost predicate NeverGoesBack(log: seq<Write>) {
    forall m, n :: 0 <= m < n < |log| && log[m].StateFlush? && log[n].StateFlush? ==>
      SavedTime(log[m].fields) <= SavedTime(log[n].fields)
  }

  lemma BeginningInv(defaultRetries: int)
    ensures WorldInv(Beginning(defaultRetries))
  {
    InitialLease(defaultRetries);
  }

  lemma SaveGoesBack(w: World, epoch: int, args: seq<(string, Field)>)
    requires WorldInv(w) && IsPossible(w, Save(epoch, args)) && IsLetThrough(w, epoch)
    ensures var (before, after) := (SavedTime(w.sys.schedState), SavedTime(Make(w, Save(epoch, args)).sys.schedState));
            after < before <==> epoch in w.stale && w.clocks[epoch].virtualTime < before
  {
    hide LeaseInv, FieldsOf, Next, SavedTime;
    SaveIsKept(w.sys, epoch, args);
    SavedIsClock(FieldsOf(args), w.clocks[epoch]);
    NotFencedIsRecent(w.sys, epoch);
  }

  /** Of all the saves in any run without resets, the ones that put the saved clock back are those of stale terms
      that are behind what an older term has saved meanwhile. */
  lemma OnlyStaleSavesGoBack(defaultRetries: int, moves: seq<Move>, epoch: int, args: seq<(string, Field)>)
    requires AreMoves(Beginning(defaultRetries), moves)
    requires IsPossible(Reached(Beginning(defaultRetries), moves), Save(epoch, args))
    requires IsLetThrough(Reached(Beginning(defaultRetries), moves), epoch)
    ensures var w := Reached(Beginning(defaultRetries), moves);
            var (before, after) := (SavedTime(w.sys.schedState), SavedTime(Make(w, Save(epoch, args)).sys.schedState));
            after < before <==> epoch in w.stale && w.clocks[epoch].virtualTime < before
  {
    BeginningInv(defaultRetries);
    hide IsPossible, Make, SavedTime, AreMoves, Reached, WorldInv;
    MovesKeepWorld(Beginning(defaultRetries), moves);
    SaveGoesBack(Reached(Beginning(defaultRetries), moves), epoch, args);
  }

  lemma NotFencedIsRecent(s: Sys, epoch: int)
    requires LeaseInv(s) && !IsFenced(s.election.fence, epoch) && epoch >= 1
    ensures epoch >= s.election.fence
  {
  }

  lemma {:induction false} SavedClockNeverGoesBack(w: World, moves: seq<Move>)
    requires WorldInv(w) && AreMoves(w, moves) && NoStaleSave(w, moves)
    requires NeverGoesBack(w.sys.election.log) && LatestIsHighest(w.sys.election.log, SavedTime(w.sys.schedState))
    ensures NeverGoesBack(Reached(w, moves).sys.election.log)
    decreases |moves|
  {
    hide WorldInv, NeverGoesBack, LatestIsHighest, IsPossible, Make, SavedTime;
    if moves != [] {
      MoveKeepsWorld(w, moves[0]);
      MoveKeepsOrder(w, moves[0]);
      SavedClockNeverGoesBack(Make(w, moves[0]), moves[1..]);
    }
  }

  lemma MoveKeepsOrder(w: World, move: Move)
    requires WorldInv(w) && IsPossible(w, move)
    requires move.Save? && IsLetThrough(w, move.epoch) ==> move.epoch !in w.stale
    requires NeverGoesBack(w.sys.election.log) && LatestIsHighest(w.sys.election.log, SavedTime(w.sys.schedState))
    ensures var s' := Make(w, move).sys;
            NeverGoesBack(s'.election.log) && LatestIsHighest(s'.election.log, SavedTime(s'.schedState))
  {
    hide LeaseInv, FieldsOf, Next, Enabled, SavedTime, FreshAreAhead;
    match move
    case Act(step) => ActLeavesSnapshots(w.sys, step);
    case Save(epoch, args) =>
      if IsLetThrough(w, epoch) {
        SaveGoesBack(w, epoch, args);
        SaveIsKept(w.sys, epoch, args);
      } else {
        RefusedChangesNothing(w.sys, epoch, args);
      }
    case _ =>
  }

  /** Over a whole run without stale saves or resets the saved virtual time never goes back, however many terms there
      were and however long superseded ones went on saving. */
  lemma SnapshotsNeverGoBack(defaultRetries: int, moves: seq<Move>)
    requires AreMoves(Beginning(defaultRetries), moves) && NoStaleSave(Beginning(defaultRetries), moves)
    ensures NeverGoesBack(Reached(Beginning(defaultRetries), moves).sys.election.log)
  {
    BeginningInv(defaultRetries);
    SavedClockNeverGoesBack(Beginning(defaultRetries), moves);
  }

  // ---------- a run where it does go back ----------

  function FreshClock(virtualTime: real): Clock {
    Clock(map[], 1.0, virtualTime, map[])
  }

  function PlainArgs(virtualTime: real): seq<(string, Field)> {
    [(STATE_VIRTUAL_TIME, Number(virtualTime))]
  }

  lemma PlainIsSaved(virtualTime: real)
    ensures FieldsOf(PlainArgs(virtualTime)) == map[STATE_VIRTUAL_TIME := Number(virtualTime)]
    ensures SavedFor(FieldsOf(PlainArgs(virtualTime)), FreshClock(virtualTime))
    ensures IsRestored(FreshClock(virtualTime), FieldsOf(PlainArgs(virtualTime)))
    ensures SavedTime(FieldsOf(PlainArgs(virtualTime))) == virtualTime
  {
    assert FieldsOf(PlainArgs(virtualTime)[..0]) == map[];
    RestoreUndoesSave(FreshClock(virtualTime), FieldsOf(PlainArgs(virtualTime)), virtualTime, map[]);
  }

  lemma OneMore(w: World, moves: seq<Move>, move: Move)
    requires AreMoves(w, moves) && IsPossible(Reached(w, moves), move)
    ensures AreMoves(w, moves + [move]) && Reached(w, moves + [move]) == Make(Reached(w, moves), move)
    decreases |moves|
  {
    hide IsPossible, Make;
    if moves == [] {
      assert [move][1..] == [];
    } else {
      assert (moves + [move])[1..] == moves[1..] + [move];
      OneMore(Make(w, moves[0]), moves[1..], move);
    }
  }

  /** The first leader gets to 5 and saves; its lease expires; the second reads 5; the first goes on to 9 and
      saves once more, which nothing refuses; the second saves 5. */
  lemma SavedClockCanGoBack(defaultRetries: int) returns (moves: seq<Move>)
    ensures AreMoves(Beginning(defaultRetries), moves)
    ensures !NeverGoesBack(Reached(Beginning(defaultRetries), moves).sys.election.log)
  {
    hide AreMoves, Reached, FieldsOf, IsRestored, SavedFor, SavedTime;
    var w := Beginning(defaultRetries);
    PlainIsSaved(5.0);
    PlainIsSaved(9.0);
    moves := NothingYet(w);
    moves := Then(w, moves, Act(Acquire("a")));
    assert IsRestored(FreshClock(0.0), map[]) by { ZeroIsRestored(); }
    moves := Then(w, moves, Read(1, FreshClock(0.0)));
    moves := Then(w, moves, Turn(1, NotifyKey(Key(5.0, ""))));
    moves := Then(w, moves, Save(1, PlainArgs(5.0)));
    moves := Then(w, moves, Act(Expire));
    moves := Then(w, moves, Act(Acquire("b")));
    moves := Then(w, moves, Read(2, FreshClock(5.0)));
    moves := Then(w, moves, Turn(1, NotifyKey(Key(9.0, ""))));
    moves := Then(w, moves, Save(1, PlainArgs(9.0)));
    moves := Then(w, moves, Save(2, PlainArgs(5.0)));
    var log := Reached(w, moves).sys.election.log;
    assert log[1] == StateFlush(1, FieldsOf(PlainArgs(9.0))) && log[2] == StateFlush(2, FieldsOf(PlainArgs(5.0)));
    assert SavedTime(log[1].fields) > SavedTime(log[2].fields);
  }

  lemma ZeroIsRestored()
    ensures IsRestored(FreshClock(0.0), map[])
  {
  }

  lemma NothingYet(w: World) returns (moves: seq<Move>)
    ensures moves == [] && AreMoves(w, moves) && Reached(w, moves) == w
  {
    moves := [];
  }

  lemma Then(w: World, moves: seq<Move>, move: Move) returns (longer: seq<Move>)
    requires AreMoves(w, moves) && IsPossible(Reached(w, moves), move)
    ensures longer == moves + [move]
    ensures AreMoves(w, longer) && Reached(w, longer) == Make(Reached(w, moves), move)
  {
    hide IsPossible, Make;
    longer := moves + [move];
    OneMore(w, moves, move);
  }
}
