/** `uploadOrderPhotos` of the extension's background script: one pool of workers, and a report that adds up. */
module OrderPhotos {
  import opened Arith
  import opened Workers

  /** The report under construction, and the variables the workers share. */
  datatype State = State(saved: int, missing: int, errors: seq<string>, cursor: nat, paused: bool, pool: Pool)

  datatype Outcome = Saved | Failed(message: string) | Throttled(message: string)

  datatype Event =
    | Loop(worker: nat)
    | Settle(worker: nat, outcome: Outcome)

  /** `urls` says of each requested row whether its image address is usable. */
  function Start(urls: seq<bool>): State {
    State(0, 0, [], 0, false, Hired(|urls|))
  }

  function Looped(urls: seq<bool>, s: State, w: nat): State
    requires w < |s.pool|
  {
    if !(s.cursor < |urls| && !s.paused) then s.(pool := s.pool[w := Exited])
    else if !urls[s.cursor] then s.(cursor := s.cursor + 1, missing := s.missing + 1)
    else s.(cursor := s.cursor + 1, pool := s.pool[w := Busy(s.cursor)])
  }

  function Settled(s: State, w: nat, outcome: Outcome): State
    requires w < |s.pool|
  {
    var idle := s.pool[w := AtLoop];
    if outcome.Saved? then s.(saved := s.saved + 1, pool := idle) else
      s.(missing := s.missing + 1,
         errors := if |s.errors| < 3 then s.errors + [outcome.message] else s.errors,
         paused := s.paused || outcome.Throttled?,
         pool := idle)
  }

  /** One segment between two `await` points; an event that is not enabled changes nothing. */
  function Step(urls: seq<bool>, s: State, e: Event): State {
    match e
    case Loop(w) => if w < |s.pool| && s.pool[w].AtLoop? then Looped(urls, s, w) else s
    case Settle(w, outcome) => if w < |s.pool| && s.pool[w].Busy? then Settled(s, w, outcome) else s
  }

  function Run(urls: seq<bool>, s: State, events: seq<Event>): State {
    if events == [] then s else Step(urls, Run(urls, s, events[..|events| - 1]), events[|events| - 1])
  }

  /** The number of missing photos in the final report. */
  function ReportedMissing(urls: seq<bool>, s: State): int {
    s.missing + Max(0, |urls| - s.saved - s.missing)
  }

  /** Every row behind the cursor is saved, missing or in flight. */
  ghost predicate Balanced(urls: seq<bool>, s: State) {
    && s.saved >= 0 && s.missing >= 0
    && s.saved + s.missing + InFlight(s.pool) == s.cursor <= |urls|
    && |s.errors| <= 3 && |s.errors| <= s.missing
    && (s.missing > 0 && (forall url <- urls :: url) ==> s.errors != [])
    && (!s.paused && Exited in s.pool ==> s.cursor == |urls|)
  }

  lemma StepBalanced(urls: seq<bool>, s: State, e: Event)
    requires Balanced(urls, s)
    ensures Balanced(urls, Step(urls, s, e))
  {
    var after := Step(urls, s, e);
    if after.pool != s.pool {
      Updated(s.pool, e.worker, after.pool[e.worker]);
      assert forall x <- after.pool :: x in s.pool || x == after.pool[e.worker];
    } else if after.cursor != s.cursor {
      assert urls[s.cursor] in urls;
    }
  }

  lemma {:induction false} RunBalanced(urls: seq<bool>, events: seq<Event>)
    ensures Balanced(urls, Run(urls, Start(urls), events))
  {
    if events == [] {
      PoolBounds(Start(urls).pool);
    } else {
      RunBalanced(urls, events[..|events| - 1]);
      StepBalanced(urls, Run(urls, Start(urls), events[..|events| - 1]), events[|events| - 1]);
    }
  }

  /**
   * In every interleaving at most five rows are in flight and, once the workers are done, every requested row is
   * reported exactly once, as saved or as missing; the rows added at the end are those never taken, of which there
   * are none unless Avito throttled the upload.
   */
  lemma ReportAddsUp(urls: seq<bool>, events: seq<Event>)
    ensures var s := Run(urls, Start(urls), events);
      && InFlight(s.pool) <= |s.pool| <= 5
      && (AllExited(s.pool) ==>
           && s.saved + ReportedMissing(urls, s) == |urls|
           && ReportedMissing(urls, s) - s.missing == |urls| - s.cursor
           && (!s.paused ==> s.cursor == |urls|)
           && |s.errors| <= 3)
  {
    RunBalanced(urls, events);
    PoolKept(urls, events);
    EndAddsUp(urls, Run(urls, Start(urls), events));
  }

  lemma EndAddsUp(urls: seq<bool>, s: State)
    requires Balanced(urls, s) && |s.pool| == |Hired(|urls|)|
    ensures InFlight(s.pool) <= |s.pool| <= 5
    ensures AllExited(s.pool) ==>
      && s.saved + ReportedMissing(urls, s) == |urls|
      && ReportedMissing(urls, s) - s.missing == |urls| - s.cursor
      && (!s.paused ==> s.cursor == |urls|)
  {
    PoolBounds(s.pool);
    if s.pool != [] {
      assert s.pool[0] in s.pool;
    }
  }

  lemma {:induction false} PoolKept(urls: seq<bool>, events: seq<Event>)
    ensures |Run(urls, Start(urls), events).pool| == |Hired(|urls|)|
  {
    if events != [] {
      PoolKept(urls, events[..|events| - 1]);
    }
  }

  // ---- What the report counts ----

  /** How the uploads ended, in the order in which they did. */
  function Ended(urls: seq<bool>, events: seq<Event>): seq<Outcome> {
    if events == [] then [] else
      var front, last := events[..|events| - 1], events[|events| - 1];
      var s := Run(urls, Start(urls), front);
      Ended(urls, front)
      + if last.Settle? && last.worker < |s.pool| && s.pool[last.worker].Busy? then [last.outcome] else []
  }

  function Saves(ended: seq<Outcome>): nat {
    if ended == [] then 0 else Saves(ended[..|ended| - 1]) + if ended[|ended| - 1].Saved? then 1 else 0
  }

  /** The messages of the uploads that failed. */
  function Messages(ended: seq<Outcome>): seq<string> {
    if ended == [] then [] else
      Messages(ended[..|ended| - 1]) + if ended[|ended| - 1].Saved? then [] else [ended[|ended| - 1].message]
  }

  function Unusable(urls: seq<bool>): nat {
    if urls == [] then 0 else Unusable(urls[..|urls| - 1]) + if urls[|urls| - 1] then 0 else 1
  }

  ghost predicate Throttling(ended: seq<Outcome>) {
    exists i :: 0 <= i < |ended| && ended[i].Throttled?
  }

  /** The report of the uploads that ended and of the rows the workers have reached. */
  ghost predicate Reports(urls: seq<bool>, s: State, ended: seq<Outcome>) {
    && s.saved == Saves(ended)
    && s.cursor <= |urls| && s.missing == |Messages(ended)| + Unusable(urls[..s.cursor])
    && s.errors == Messages(ended)[..Min(3, |Messages(ended)|)]
    && (s.paused <==> Throttling(ended))
    && (forall w <- s.pool :: w.Busy? ==> w.row < s.cursor && urls[w.row])
  }

  lemma LoopedReports(urls: seq<bool>, s: State, ended: seq<Outcome>, w: nat)
    requires Reports(urls, s, ended) && w < |s.pool|
    ensures Reports(urls, Looped(urls, s, w), ended)
  {
    var after := Looped(urls, s, w);
    assert forall x <- after.pool :: x in s.pool || x == after.pool[w];
    if after.cursor != s.cursor {
      assert urls[..after.cursor][..s.cursor] == urls[..s.cursor];
    }
  }

  lemma SettledReports(urls: seq<bool>, s: State, ended: seq<Outcome>, w: nat, outcome: Outcome)
    requires Reports(urls, s, ended) && w < |s.pool|
    ensures Reports(urls, Settled(s, w, outcome), ended + [outcome])
  {
    var after := Settled(s, w, outcome);
    assert forall x <- after.pool :: x in s.pool || x == AtLoop;
    assert (ended + [outcome])[..|ended|] == ended;
    if Throttling(ended) {
      var i :| 0 <= i < |ended| && ended[i].Throttled?;
      assert (ended + [outcome])[i].Throttled?;
    }
  }

  /**
   * In every interleaving the report is what happened: saved counts the uploads that succeeded, missing those that
   * failed and the rows without a usable address, the errors are the messages of the first three failures, and
   * the upload is paused exactly when Avito throttled one. Only rows with a usable address are uploaded.
   */
  lemma {:induction false} ReportedExactly(urls: seq<bool>, events: seq<Event>)
    ensures Reports(urls, Run(urls, Start(urls), events), Ended(urls, events))
  {
    if events != [] {
      var front, last := events[..|events| - 1], events[|events| - 1];
      var s := Run(urls, Start(urls), front);
      ReportedExactly(urls, front);
      assert Ended(urls, front) + [] == Ended(urls, front);
      if last.worker < |s.pool| {
        if last.Loop? {
          LoopedReports(urls, s, Ended(urls, front), last.worker);
        } else {
          SettledReports(urls, s, Ended(urls, front), last.worker, last.outcome);
        }
      }
    }
  }
}
