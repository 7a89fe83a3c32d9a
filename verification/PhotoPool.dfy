/**
 * `collect` of the listing photo extension: two pools of at most five workers, one after the other, take rows from a
 * shared cursor and update shared counters. A run is any interleaving of the segments between `await` points.
 */
module PhotoPool {
  import opened Workers

  // ---- The two pools ----

  /** A row of `context.missing`; `pictured` says that its image address is already known. */
  datatype Row = Row(accountId: string, itemId: string, pictured: bool)

  function Select(missing: seq<Row>, pictured: bool): seq<Row> {
    if missing == [] then [] else
      Select(missing[..|missing| - 1], pictured)
      + (if missing[|missing| - 1].pictured == pictured then [missing[|missing| - 1]] else [])
  }

  /** Rows are numbered as the pools serve them: those with a known picture first. */
  function Numbered(missing: seq<Row>): seq<Row> {
    Select(missing, true) + Select(missing, false)
  }

  /** Every missing row gets exactly one number. */
  lemma {:induction false} NumberedOnce(missing: seq<Row>)
    ensures multiset(Numbered(missing)) == multiset(missing)
    ensures |Numbered(missing)| == |missing|
  {
    if missing != [] {
      var front, last := missing[..|missing| - 1], missing[|missing| - 1];
      NumberedOnce(front);
      assert missing == front + [last];
      assert multiset(Numbered(missing)) == multiset(Numbered(front)) + multiset{last};
    }
  }

  lemma {:induction false} SelectAll(missing: seq<Row>, pictured: bool)
    ensures forall i :: 0 <= i < |Select(missing, pictured)| ==> Select(missing, pictured)[i].pictured == pictured
  {
    if missing != [] {
      SelectAll(missing[..|missing| - 1], pictured);
    }
  }

  /** A row with a known picture comes before every row without one. */
  lemma PicturedFirst(missing: seq<Row>, i: nat, j: nat)
    requires i < |Numbered(missing)| && j < |Numbered(missing)|
    requires Numbered(missing)[i].pictured && !Numbered(missing)[j].pictured
    ensures i < Base(missing, Remainder) <= j && i < j
  {
    SelectAll(missing, true);
    SelectAll(missing, false);
  }

  datatype Phase = Ready | Remainder | Finished

  function Length(missing: seq<Row>, phase: Phase): nat {
    match phase
    case Ready => |Select(missing, true)|
    case Remainder => |Select(missing, false)|
    case Finished => 0
  }

  /** The number of the first row of a pool. */
  function Base(missing: seq<Row>, phase: Phase): nat {
    match phase
    case Ready => 0
    case Remainder => |Select(missing, true)|
    case Finished => |Numbered(missing)|
  }

  // ---- State and steps ----

  datatype Stage = Running | Paused | Partial | Done

  datatype Attempt = Attempt(row: nat, ok: bool)

  /** The shared state; `attempts` and `dropped` are its history: rows tried, rows taken but given up on a stop. */
  datatype State = State(
    stage: Stage, saved: int, skipped: int, failed: int, processed: int,
    phase: Phase, cursor: nat, pool: Pool,
    attempts: seq<Attempt>, dropped: set<nat>)

  datatype Outcome = Saved | Failed | Stopped

  datatype Event =
    | Loop(worker: nat, shouldStop: bool)    // loop condition, and the head of `processRow`
    | Settle(worker: nat, outcome: Outcome)  // the end of `processRow`, up to the progress callback
    | Resume(worker: nat)                    // the progress callback returns
    | Advance                                // all workers of a pool are done

  function Start(missing: seq<Row>, saved: int): State {
    State(Running, saved, saved, 0, 0, Ready, 0, Hired(Length(missing, Ready)), [], {})
  }

  ghost predicate Enabled(s: State, e: Event) {
    match e
    case Loop(w, _) => w < |s.pool| && s.pool[w].AtLoop?
    case Settle(w, _) => w < |s.pool| && s.pool[w].Busy?
    case Resume(w) => w < |s.pool| && s.pool[w].Reporting?
    case Advance => s.phase != Finished && AllExited(s.pool)
  }

  function Looped(missing: seq<Row>, s: State, w: nat, shouldStop: bool): State
    requires w < |s.pool|
  {
    if !(s.cursor < Length(missing, s.phase) && s.stage != Paused) then
      s.(pool := s.pool[w := Exited])
    else
      var row := Base(missing, s.phase) + s.cursor;
      if shouldStop then s.(cursor := s.cursor + 1, stage := Paused, dropped := s.dropped + {row})
      else s.(cursor := s.cursor + 1, pool := s.pool[w := Busy(row)])
  }

  function Settled(s: State, w: nat, outcome: Outcome): State
    requires w < |s.pool| && s.pool[w].Busy?
  {
    var row := s.pool[w].row;
    s.(saved := if outcome.Saved? then s.saved + 1 else s.saved,
       failed := if outcome.Saved? then s.failed else s.failed + 1,
       stage := if outcome.Stopped? then Paused else s.stage,
       processed := s.processed + 1,
       pool := s.pool[w := Reporting],
       attempts := s.attempts + [Attempt(row, outcome.Saved?)])
  }

  function Advanced(missing: seq<Row>, s: State): State {
    match s.phase
    case Ready => s.(phase := Remainder, cursor := 0, pool := Hired(Length(missing, Remainder)))
    case _ =>
      s.(phase := Finished, cursor := 0, pool := [],
         stage := if s.stage != Running then s.stage else if s.failed != 0 then Partial else Done)
  }

  /** One segment; an event that is not enabled changes nothing. */
  ghost function Step(missing: seq<Row>, s: State, e: Event): State {
    if !Enabled(s, e) then s else
      match e
      case Loop(w, shouldStop) => Looped(missing, s, w, shouldStop)
      case Settle(w, outcome) => Settled(s, w, outcome)
      case Resume(w) => s.(pool := s.pool[w := AtLoop])
      case Advance => Advanced(missing, s)
  }

  ghost function Run(missing: seq<Row>, s: State, events: seq<Event>): State {
    if events == [] then s else
      Step(missing, Run(missing, s, events[..|events| - 1]), events[|events| - 1])
  }

  // ---- Counting ----

  function Successes(attempts: seq<Attempt>): nat {
    if attempts == [] then 0 else
      Successes(attempts[..|attempts| - 1]) + (if attempts[|attempts| - 1].ok then 1 else 0)
  }

  /** The counters say what happened, at every `await` point. */
  ghost predicate Accounted(s: State) {
    && s.saved - s.skipped == Successes(s.attempts)
    && s.failed == |s.attempts| - Successes(s.attempts)
    && s.processed == |s.attempts|
    && |s.pool| <= 5
  }

  lemma StepAccounted(missing: seq<Row>, s: State, e: Event)
    requires Accounted(s)
    ensures Accounted(Step(missing, s, e))
  {
    if e.Settle? && Enabled(s, e) {
      var after := Step(missing, s, e);
      assert after.attempts[..|s.attempts|] == s.attempts;
    }
  }

  /**
   * In every interleaving: at most five rows are in flight, and at every `await` point the rows saved since the
   * start and the rows failed add up to the rows processed, each counter counting its attempts.
   */
  lemma {:induction false} CountersAgree(missing: seq<Row>, saved: int, events: seq<Event>)
    ensures var s := Run(missing, Start(missing, saved), events);
      && Accounted(s) && s.skipped == saved
      && InFlight(s.pool) <= 5
      && (s.saved - s.skipped) + s.failed == s.processed
  {
    if events != [] {
      var front := events[..|events| - 1];
      CountersAgree(missing, saved, front);
      StepAccounted(missing, Run(missing, Start(missing, saved), front), events[|events| - 1]);
    }
    PoolBounds(Run(missing, Start(missing, saved), events).pool);
  }

  // ---- What the events did ----

  /** The tries that ended, in order, and whether they saved their row. */
  ghost function Tries(missing: seq<Row>, saved: int, events: seq<Event>): seq<Attempt> {
    if events == [] then [] else
      var front, last := events[..|events| - 1], events[|events| - 1];
      var s := Run(missing, Start(missing, saved), front);
      Tries(missing, saved, front)
      + if last.Settle? && Enabled(s, last) then [Attempt(s.pool[last.worker].row, last.outcome.Saved?)] else []
  }

  /** A try was stopped, or a worker found that it should stop when it had taken a row. */
  ghost predicate Stops(missing: seq<Row>, s: State, e: Event) {
    && Enabled(s, e)
    && match e
       case Settle(_, outcome) => outcome.Stopped?
       case Loop(_, shouldStop) => shouldStop && s.cursor < Length(missing, s.phase) && s.stage != Paused
       case _ => false
  }

  /** Some worker was stopped. */
  ghost predicate Stopping(missing: seq<Row>, saved: int, events: seq<Event>) {
    exists i :: 0 <= i < |events| && StopsAt(missing, saved, events, i)
  }

  ghost predicate StopsAt(missing: seq<Row>, saved: int, events: seq<Event>, i: nat)
    requires i < |events|
  {
    Stops(missing, Run(missing, Start(missing, saved), events[..i]), events[i])
  }

  lemma StoppingGrows(missing: seq<Row>, saved: int, events: seq<Event>)
    requires events != []
    ensures var front := events[..|events| - 1];
      Stopping(missing, saved, events) <==> Stopping(missing, saved, front) || StopsAt(missing, saved, events, |front|)
  {
    var front := events[..|events| - 1];
    forall i | 0 <= i < |front|
      ensures StopsAt(missing, saved, events, i) == StopsAt(missing, saved, front, i)
    {
      assert events[..i] == front[..i];
    }
    if Stopping(missing, saved, front) {
      var i :| 0 <= i < |front| && StopsAt(missing, saved, front, i);
      assert StopsAt(missing, saved, events, i);
    }
  }

  lemma StepStops(missing: seq<Row>, s: State, e: Event)
    ensures Step(missing, s, e).stage == Paused <==> s.stage == Paused || Stops(missing, s, e)
  {
  }

  lemma {:induction false} TriedExactly(missing: seq<Row>, saved: int, events: seq<Event>)
    ensures Run(missing, Start(missing, saved), events).attempts == Tries(missing, saved, events)
  {
    if events != [] {
      TriedExactly(missing, saved, events[..|events| - 1]);
    }
  }

  /** In every interleaving the collection is paused exactly when some worker was stopped. */
  lemma {:induction false} PausedExactly(missing: seq<Row>, saved: int, events: seq<Event>)
    ensures Run(missing, Start(missing, saved), events).stage == Paused <==> Stopping(missing, saved, events)
  {
    if events != [] {
      var front, last := events[..|events| - 1], events[|events| - 1];
      PausedExactly(missing, saved, front);
      StepStops(missing, Run(missing, Start(missing, saved), front), last);
      StoppingGrows(missing, saved, events);
    }
  }

  // ---- Once ----

  /** The first row no worker has reached. */
  function Front(missing: seq<Row>, s: State): nat {
    Base(missing, s.phase) + s.cursor
  }

  /** Rows tried, in flight and dropped are all different, and behind the front. */
  ghost predicate Once(missing: seq<Row>, s: State) {
    && s.cursor <= Length(missing, s.phase)
    && (forall a <- s.attempts :: a.row < Front(missing, s) && a.row !in s.dropped)
    && (forall w <- s.pool :: w.Busy? ==> w.row < Front(missing, s) && w.row !in s.dropped)
    && (forall row <- s.dropped :: row < Front(missing, s))
    && (forall i, j :: 0 <= i < j < |s.attempts| ==> s.attempts[i].row != s.attempts[j].row)
    && (forall a <- s.attempts, w <- s.pool :: w.Busy? ==> a.row != w.row)
    && (forall i, j :: 0 <= i < j < |s.pool| && s.pool[i].Busy? && s.pool[j].Busy? ==> s.pool[i].row != s.pool[j].row)
  }

  lemma LoopedOnce(missing: seq<Row>, s: State, w: nat, shouldStop: bool)
    requires Once(missing, s) && w < |s.pool| && s.pool[w].AtLoop?
    ensures Once(missing, Looped(missing, s, w, shouldStop))
  {
    var after := Looped(missing, s, w, shouldStop);
    assert forall x <- after.pool :: x in s.pool || x == after.pool[w];
  }

  lemma SettledOnce(missing: seq<Row>, s: State, w: nat, outcome: Outcome)
    requires Once(missing, s) && w < |s.pool| && s.pool[w].Busy?
    ensures Once(missing, Settled(s, w, outcome))
  {
    var after := Settled(s, w, outcome);
    assert s.pool[w] in s.pool;
    forall a <- after.attempts, x <- after.pool | x.Busy? ensures a.row != x.row {
      var i :| 0 <= i < |after.pool| && after.pool[i] == x;
      assert i != w && x == s.pool[i];
    }
    forall i | 0 <= i < |s.attempts| ensures s.attempts[i].row != s.pool[w].row {
      assert s.attempts[i] in s.attempts;
    }
  }

  lemma StepOnce(missing: seq<Row>, s: State, e: Event)
    requires Once(missing, s)
    ensures Once(missing, Step(missing, s, e))
  {
    if Enabled(s, e) {
      match e
      case Loop(w, shouldStop) => LoopedOnce(missing, s, w, shouldStop);
      case Settle(w, outcome) => SettledOnce(missing, s, w, outcome);
      case Resume(w) =>
      case Advance =>
    }
  }

  /** In every interleaving each missing row is tried at most once, over both pools. */
  lemma {:induction false} TriedAtMostOnce(missing: seq<Row>, saved: int, events: seq<Event>)
    ensures Once(missing, Run(missing, Start(missing, saved), events))
  {
    if events != [] {
      var front := events[..|events| - 1];
      TriedAtMostOnce(missing, saved, front);
      StepOnce(missing, Run(missing, Start(missing, saved), front), events[|events| - 1]);
    }
  }

  // ---- How a run ends ----

  /** Unless the run is paused nothing was skipped: what is behind the front is tried or in flight. */
  ghost predicate Complete(missing: seq<Row>, s: State) {
    s.stage != Paused ==>
      && s.dropped == {}
      && s.processed + InFlight(s.pool) == Front(missing, s)
      && (forall w <- s.pool :: w.Exited? ==> s.cursor == Length(missing, s.phase))
      && (forall row: nat :: row < Front(missing, s) ==> Reached(s, row))
  }

  ghost predicate Tried(s: State, row: nat) {
    exists a :: a in s.attempts && a.row == row
  }

  ghost predicate Reached(s: State, row: nat) {
    Tried(s, row) || Busy(row) in s.pool
  }

  /** What the stage says: paused runs have a row to blame, and only the end of a run is partial or done. */
  ghost predicate Staged(s: State) {
    && (s.stage == Paused ==> s.dropped != {} || s.failed > 0)
    && (s.stage == Partial ==> s.phase == Finished && s.failed != 0)
    && (s.stage == Done ==> s.phase == Finished && s.failed == 0)
    && (s.stage == Running ==> s.phase != Finished)
    && (s.phase == Finished ==> s.pool == [])
    && s.failed >= 0
  }

  lemma LoopedComplete(missing: seq<Row>, s: State, w: nat, shouldStop: bool)
    requires Complete(missing, s) && w < |s.pool| && s.pool[w].AtLoop? && s.cursor <= Length(missing, s.phase)
    ensures Complete(missing, Looped(missing, s, w, shouldStop))
  {
    var after := Looped(missing, s, w, shouldStop);
    if after.stage != Paused {
      Updated(s.pool, w, after.pool[w]);
      assert forall x <- after.pool :: x in s.pool || x == after.pool[w];
      forall row: nat | row < Front(missing, after) ensures Reached(after, row) {
        if row < Front(missing, s) {
          KeptReach(s, after, w, row);
        } else {
          assert after.pool[w] == Busy(row);
        }
      }
    }
  }

  /** A worker that carried no row takes none away. */
  lemma KeptReach(s: State, after: State, w: nat, row: nat)
    requires Reached(s, row) && w < |s.pool| && !s.pool[w].Busy?
    requires after.attempts == s.attempts && |after.pool| == |s.pool|
    requires forall i :: 0 <= i < |s.pool| && i != w ==> after.pool[i] == s.pool[i]
    ensures Reached(after, row)
  {
    if !Tried(s, row) {
      var i :| 0 <= i < |s.pool| && s.pool[i] == Busy(row);
      assert after.pool[i] == Busy(row);
    }
  }

  lemma SettledComplete(missing: seq<Row>, s: State, w: nat, outcome: Outcome)
    requires Complete(missing, s) && w < |s.pool| && s.pool[w].Busy?
    ensures Complete(missing, Settled(s, w, outcome))
  {
    var after := Settled(s, w, outcome);
    if after.stage != Paused {
      Updated(s.pool, w, Reporting);
      assert forall x <- after.pool :: x in s.pool || x == Reporting;
      var tried := Attempt(s.pool[w].row, outcome.Saved?);
      assert tried in after.attempts;
      forall row: nat | row < Front(missing, after) ensures Reached(after, row) {
        assert Reached(s, row);
        if Tried(s, row) {
          var a :| a in s.attempts && a.row == row;
          assert a in after.attempts;
        } else if row != tried.row {
          var i :| 0 <= i < |s.pool| && s.pool[i] == Busy(row);
          assert after.pool[i] == Busy(row);
        }
      }
    }
  }

  lemma ResumedComplete(missing: seq<Row>, s: State, w: nat)
    requires Complete(missing, s) && w < |s.pool| && s.pool[w].Reporting?
    ensures Complete(missing, s.(pool := s.pool[w := AtLoop]))
  {
    var after := s.(pool := s.pool[w := AtLoop]);
    Updated(s.pool, w, AtLoop);
    assert forall x <- after.pool :: x in s.pool || x == AtLoop;
    if s.stage != Paused {
      forall row: nat | row < Front(missing, after) ensures Reached(after, row) {
        KeptReach(s, after, w, row);
      }
    }
  }

  lemma AdvancedComplete(missing: seq<Row>, s: State)
    requires Complete(missing, s) && s.phase != Finished && AllExited(s.pool)
    requires Exhausted(missing, s)
    ensures Complete(missing, Advanced(missing, s))
  {
    var after := Advanced(missing, s);
    PoolBounds(s.pool);
    PoolBounds(after.pool);
    if after.stage != Paused {
      forall row: nat | row < Front(missing, after) ensures Reached(after, row) {
        assert Reached(s, row) && Busy(row) !in s.pool;
        var a :| a in s.attempts && a.row == row;
        assert a in after.attempts;
      }
    }
  }

  /** A pool without workers had no rows. */
  ghost predicate Exhausted(missing: seq<Row>, s: State) {
    s.stage != Paused && AllExited(s.pool) ==> s.cursor == Length(missing, s.phase)
  }

  ghost predicate Manned(missing: seq<Row>, s: State) {
    s.pool == [] ==> Length(missing, s.phase) == 0
  }

  ghost predicate Sound(missing: seq<Row>, s: State) {
    Accounted(s) && Once(missing, s) && Complete(missing, s) && Staged(s) && Manned(missing, s)
  }

  lemma StepComplete(missing: seq<Row>, s: State, e: Event)
    requires Once(missing, s) && Complete(missing, s) && Manned(missing, s)
    ensures Complete(missing, Step(missing, s, e)) && Manned(missing, Step(missing, s, e))
  {
    if Enabled(s, e) {
      match e
      case Loop(w, shouldStop) => LoopedComplete(missing, s, w, shouldStop);
      case Settle(w, outcome) => SettledComplete(missing, s, w, outcome);
      case Resume(w) => ResumedComplete(missing, s, w);
      case Advance =>
        if s.pool != [] {
          assert s.pool[0] in s.pool;
        }
        AdvancedComplete(missing, s);
    }
  }

  lemma StepStaged(missing: seq<Row>, s: State, e: Event)
    requires Staged(s)
    ensures Staged(Step(missing, s, e))
  {
  }

  lemma StartSound(missing: seq<Row>, saved: int)
    ensures Sound(missing, Start(missing, saved))
  {
    PoolBounds(Hired(Length(missing, Ready)));
  }

  lemma {:induction false} RunSound(missing: seq<Row>, saved: int, events: seq<Event>)
    ensures Sound(missing, Run(missing, Start(missing, saved), events))
  {
    if events == [] {
      StartSound(missing, saved);
    } else {
      var front, last := events[..|events| - 1], events[|events| - 1];
      RunSound(missing, saved, front);
      var s := Run(missing, Start(missing, saved), front);
      StepAccounted(missing, s, last);
      StepOnce(missing, s, last);
      StepComplete(missing, s, last);
      StepStaged(missing, s, last);
    }
  }

  lemma {:induction false} SuccessesAreAttempts(attempts: seq<Attempt>)
    ensures Successes(attempts) <= |attempts|
    ensures Successes(attempts) == |attempts| <==> forall a <- attempts :: a.ok
  {
    if attempts != [] {
      SuccessesAreAttempts(attempts[..|attempts| - 1]);
      assert attempts[|attempts| - 1] in attempts;
    }
  }

  ghost predicate EveryRowSaved(missing: seq<Row>, s: State) {
    forall row: nat :: row < |missing| ==> Attempt(row, true) in s.attempts
  }

  /** In a sound state a row with a failed attempt, or a dropped one, has no successful attempt. */
  lemma BlamedRow(missing: seq<Row>, s: State)
    requires Sound(missing, s) && s.phase == Finished && (s.dropped != {} || s.failed > 0)
    ensures !EveryRowSaved(missing, s)
  {
    NumberedOnce(missing);
    if s.dropped != {} {
      var row :| row in s.dropped;
      assert Attempt(row, true) !in s.attempts;
    } else {
      SuccessesAreAttempts(s.attempts);
      var i :| 0 <= i < |s.attempts| && !s.attempts[i].ok;
      assert s.attempts[i] in s.attempts;
      assert Attempt(s.attempts[i].row, true) !in s.attempts;
    }
  }

  /** At an end that is not paused every row was tried. */
  lemma TriedAtTheEnd(missing: seq<Row>, s: State)
    requires Sound(missing, s) && s.phase == Finished && s.stage != Paused
    ensures s.processed == |missing|
    ensures forall row: nat :: row < |missing| ==> Tried(s, row)
  {
    NumberedOnce(missing);
    forall row: nat | row < |missing| ensures Tried(s, row) {
      assert Reached(s, row) && Busy(row) !in s.pool;
    }
  }

  /** The final stage is done exactly when every missing row was saved; a partial run tried every row, some in vain. */
  lemma DoneMeansSaved(missing: seq<Row>, saved: int, events: seq<Event>)
    ensures var s := Run(missing, Start(missing, saved), events);
      && (s.stage == Done <==> s.phase == Finished && EveryRowSaved(missing, s))
      && (s.stage == Done ==> s.saved == saved + |missing|)
      && (s.stage == Partial ==> s.processed == |missing| && !EveryRowSaved(missing, s))
      && (s.stage == Partial ==> forall row: nat :: row < |missing| ==> Tried(s, row))
  {
    var s := Run(missing, Start(missing, saved), events);
    RunSound(missing, saved, events);
    CountersAgree(missing, saved, events);
    if s.phase == Finished {
      if s.stage == Done {
        TriedAtTheEnd(missing, s);
        SuccessesAreAttempts(s.attempts);
        forall row: nat | row < |missing| ensures Attempt(row, true) in s.attempts {
          assert Tried(s, row);
          var a :| a in s.attempts && a.row == row;
          assert a == Attempt(row, true);
        }
      } else {
        BlamedRow(missing, s);
        if s.stage == Partial {
          TriedAtTheEnd(missing, s);
        }
      }
    }
  }

  /** Nothing but the rows in flight at that moment is tried after a pause. */
  ghost predicate OnlyInFlight(before: State, s: State) {
    && s.stage == Paused
    && (forall w <- s.pool :: w.Busy? ==> w in before.pool)
    && (forall a <- s.attempts :: a in before.attempts || Busy(a.row) in before.pool)
  }

  lemma StepStaysPaused(missing: seq<Row>, before: State, s: State, e: Event)
    requires OnlyInFlight(before, s)
    ensures OnlyInFlight(before, Step(missing, s, e))
  {
    if Enabled(s, e) && !e.Advance? {
      var after := Step(missing, s, e);
      assert forall x <- after.pool :: x in s.pool || x == after.pool[e.worker];
      assert s.pool[e.worker] in s.pool;
    }
  }

  /** Pausing is final, and stops the scheduling of further rows. */
  lemma {:induction false} PausedForGood(missing: seq<Row>, s: State, events: seq<Event>)
    requires s.stage == Paused
    ensures OnlyInFlight(s, Run(missing, s, events))
  {
    if events != [] {
      var front := events[..|events| - 1];
      PausedForGood(missing, s, front);
      StepStaysPaused(missing, s, Run(missing, s, front), events[|events| - 1]);
    }
  }

  // ---- Every run ends ----

  function PhaseEffort(phase: Phase): nat {
    match phase
    case Ready => 7
    case Remainder => 1
    case Finished => 0
  }

  function Remaining(missing: seq<Row>, s: State): int {
    5 * (|Numbered(missing)| - Front(missing, s)) + Efforts(s.pool) + PhaseEffort(s.phase)
  }

  lemma StepDecreases(missing: seq<Row>, s: State, e: Event)
    requires Once(missing, s) && Enabled(s, e)
    ensures Remaining(missing, Step(missing, s, e)) < Remaining(missing, s)
  {
    var after := Step(missing, s, e);
    match e
    case Loop(w, _) => Updated(s.pool, w, after.pool[w]); assert s.pool[w := s.pool[w]] == s.pool;
    case Settle(w, _) => Updated(s.pool, w, after.pool[w]);
    case Resume(w) => Updated(s.pool, w, after.pool[w]);
    case Advance =>
      PoolBounds(s.pool);
      PoolBounds(after.pool);
  }

  /** How many of the events happened. */
  ghost function Moves(missing: seq<Row>, s: State, events: seq<Event>): nat {
    if events == [] then 0 else
      var front := events[..|events| - 1];
      Moves(missing, s, front)
      + (if Enabled(Run(missing, s, front), events[|events| - 1]) then 1 else 0)
  }

  lemma {:induction false} MovesSpend(missing: seq<Row>, saved: int, events: seq<Event>)
    ensures var start := Start(missing, saved);
      Moves(missing, start, events) + Remaining(missing, Run(missing, start, events)) <= Remaining(missing, start)
  {
    if events != [] {
      var front, last := events[..|events| - 1], events[|events| - 1];
      MovesSpend(missing, saved, front);
      RunSound(missing, saved, front);
      var s := Run(missing, Start(missing, saved), front);
      if Enabled(s, last) {
        StepDecreases(missing, s, last);
      }
    }
  }

  /** No run takes more than a linear number of steps, and none gets stuck before its end. */
  lemma EveryRunEnds(missing: seq<Row>, saved: int, events: seq<Event>)
    ensures Moves(missing, Start(missing, saved), events) <= 5 * |missing| + 12
    ensures var s := Run(missing, Start(missing, saved), events);
      s.phase != Finished ==> exists e :: Enabled(s, e)
  {
    var start := Start(missing, saved);
    var s := Run(missing, start, events);
    MovesSpend(missing, saved, events);
    RunSound(missing, saved, events);
    NumberedOnce(missing);
    PoolBounds(start.pool);
    if s.phase != Finished && !AllExited(s.pool) {
      var w :| 0 <= w < |s.pool| && !s.pool[w].Exited?;
      assert Enabled(s, Loop(w, false)) || Enabled(s, Settle(w, Saved)) || Enabled(s, Resume(w));
    } else if s.phase != Finished {
      assert Enabled(s, Advance);
    }
  }
}
