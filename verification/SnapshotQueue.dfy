/**
 * `postSnapshot` of the extension's background script: snapshots are posted one after the other by chaining each
 * upload to the promise of the one before it, and a failed upload must not hold up the next.
 */
module SnapshotQueue {
  datatype Phase = Waiting | Posting | Settled(ok: bool)

  /** An upload waits for the tail promise it found when it was called. */
  datatype Upload = Upload(waitsFor: nat, phase: Phase)

  /**
   * `fulfilled` says of every tail promise whether it is resolved: the initial one, then the caught promise of each
   * upload. `tail` is the variable of that name; `begun` and `ended` are the history of posts.
   */
  datatype State = State(uploads: seq<Upload>, fulfilled: seq<bool>, tail: nat, begun: seq<nat>, ended: seq<nat>)

  datatype Event =
    | Call                          // postSnapshot(payload)
    | Begin(upload: nat)            // the tail it waits for is resolved: the `then` callback runs
    | Settle(upload: nat, ok: bool) // the post succeeds or throws
    | Release(upload: nat)          // the `catch` resolves the tail either way

  const START := State([], [true], 0, [], [])

  predicate Enabled(s: State, e: Event) {
    match e
    case Call => true
    case Begin(i) =>
      i < |s.uploads| && s.uploads[i].phase.Waiting?
      && s.uploads[i].waitsFor < |s.fulfilled| && s.fulfilled[s.uploads[i].waitsFor]
    case Settle(i, _) => i < |s.uploads| && s.uploads[i].phase.Posting?
    case Release(i) => i < |s.uploads| && s.uploads[i].phase.Settled? && i + 1 < |s.fulfilled| && !s.fulfilled[i + 1]
  }

  function Moved(s: State, i: nat, phase: Phase): seq<Upload>
    requires i < |s.uploads|
  {
    s.uploads[i := s.uploads[i].(phase := phase)]
  }

  /** One turn of the event loop; an event that is not enabled changes nothing. */
  function Step(s: State, e: Event): State {
    if !Enabled(s, e) then s else
      match e
      case Call =>
        s.(uploads := s.uploads + [Upload(s.tail, Waiting)], fulfilled := s.fulfilled + [false], tail := |s.fulfilled|)
      case Begin(i) => s.(uploads := Moved(s, i, Posting), begun := s.begun + [i])
      case Settle(i, ok) => s.(uploads := Moved(s, i, Settled(ok)), ended := s.ended + [i])
      case Release(i) => s.(fulfilled := s.fulfilled[i + 1 := true])
  }

  function Run(events: seq<Event>): State {
    if events == [] then START else Step(Run(events[..|events| - 1]), events[|events| - 1])
  }

  /** The uploads behind a fulfilled tail are settled, those ahead wait. */
  ghost predicate Serial(s: State) {
    && |s.fulfilled| == |s.uploads| + 1 && s.fulfilled[0] && s.tail == |s.uploads|
    && (forall i :: 0 <= i < |s.uploads| ==> s.uploads[i].waitsFor == i)
    && (forall i :: 0 <= i < |s.uploads| && s.fulfilled[i + 1] ==> s.fulfilled[i] && s.uploads[i].phase.Settled?)
    && (forall i :: 0 <= i < |s.uploads| && !s.uploads[i].phase.Waiting? ==> s.fulfilled[i])
  }

  /** Posts began and ended in the order of the calls. */
  ghost predicate InOrder(s: State) {
    && |s.ended| <= |s.begun| <= |s.ended| + 1 && |s.begun| <= |s.uploads|
    && (forall i :: 0 <= i < |s.begun| ==> s.begun[i] == i)
    && (forall i :: 0 <= i < |s.ended| ==> s.ended[i] == i)
    && (forall i :: 0 <= i < |s.uploads| ==> (s.uploads[i].phase.Waiting? <==> |s.begun| <= i))
    && (forall i :: 0 <= i < |s.uploads| ==> (s.uploads[i].phase.Settled? <==> i < |s.ended|))
  }

  lemma StepSerial(s: State, e: Event)
    requires Serial(s) && InOrder(s)
    ensures Serial(Step(s, e))
  {
  }

  lemma StepInOrder(s: State, e: Event)
    requires Serial(s) && InOrder(s)
    ensures InOrder(Step(s, e))
  {
    if e.Begin? && Enabled(s, e) && e.upload > 0 {
      assert s.uploads[e.upload - 1].phase.Settled?;
    }
  }

  lemma {:induction false} RunSerial(events: seq<Event>)
    ensures Serial(Run(events)) && InOrder(Run(events))
  {
    if events != [] {
      RunSerial(events[..|events| - 1]);
      StepSerial(Run(events[..|events| - 1]), events[|events| - 1]);
      StepInOrder(Run(events[..|events| - 1]), events[|events| - 1]);
    }
  }

  /** Whatever fails and however calls and replies interleave, posts run one at a time, in the order of the calls. */
  lemma OneAtATimeInOrder(events: seq<Event>, i: nat, j: nat)
    ensures var s := Run(events);
      && (i < |s.uploads| && j < |s.uploads| && s.uploads[i].phase.Posting? && s.uploads[j].phase.Posting? ==> i == j)
      && (forall n :: 0 <= n < |s.begun| ==> s.begun[n] == n)
      && (forall n :: 0 <= n < |s.ended| ==> s.ended[n] == n)
  {
    RunSerial(events);
  }

  /** As long as some post has not ended, something can happen without a further call: a failure blocks nothing. */
  lemma NeverBlocked(events: seq<Event>)
    ensures var s := Run(events);
      |s.ended| < |s.uploads| ==> exists e: Event :: !e.Call? && Enabled(s, e)
  {
    var s := Run(events);
    RunSerial(events);
    var n := |s.ended|;
    if n < |s.uploads| {
      if s.uploads[n].phase.Posting? {
        assert Enabled(s, Settle(n, true));
      } else if s.fulfilled[n] {
        assert Enabled(s, Begin(n));
      } else {
        assert Enabled(s, Release(n - 1));
      }
    }
  }
}
