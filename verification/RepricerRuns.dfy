/**
 * Runs of the automatic repricer: time passes, baskets are collected, articles are executed and prices are changed
 * by hand, while any call to storage may fail. What the settings promise, an interval between changes and one night
 * correction per window, is kept exactly as far as there are records: the executor keeps none of an upload that it did
 * not see accepted, and storage may lose the others.
 */
module RepricerRuns {
  import opened Dicts
  import opened NightWindow
  import opened PriceClamp
  import opened RepricerExecution

  /** One night correction, uploaded or queued; `marked` says that its mark was made and stored. */
  datatype Correction = Correction(sku: Sku, window: int, marked: bool)

  /**
   * One price change, by hand or uploaded. `unforced` is an automatic change for which the interval counts, `read`
   * says that the changelog could be read when it was decided, `logged` that its own entry was made and stored.
   */
  datatype Change = Change(sku: Sku, at: int, unforced: bool, interval: int, read: bool, logged: bool)

  /** The stored state, and the history beside it. */
  datatype World = World(
    now: int, windows: Windows, changelog: Changelog, corrections: seq<Correction>, changes: seq<Change>)

  datatype Event =
    | Tick(minutes: nat)
    | Collect(rows: seq<Observation>, read: bool, write: bool)
    | Execute(article: Article, options: Options, others: Others)
    | ChangedByHand(sku: Sku, logged: bool)

  function AfterExecution(s: Settings, w: World, a: Article, o: Options, x: Others): World
    requires ValidLimits(s.limits)
  {
    var outcome := Decide(a, o, s, x, w.windows, w.changelog, w.now);
    var io := x.storage;
    World(
      w.now,
      WindowsAfter(w.windows, a.sku, outcome, io),
      ChangelogAfter(w.changelog, a.sku, outcome, io, w.now),
      if Corrects(outcome) then w.corrections + [Correction(a.sku, outcome.window.value, Marks(outcome, io))]
      else w.corrections,
      if Uploaded(outcome) then w.changes + [ChangeOf(w.now, a, o, x)] else w.changes)
  }

  /** The correction leaves a mark. */
  predicate Marks(outcome: Outcome, io: Storage)
    requires outcome.Priced?
  {
    Recorded(outcome.end) && io.markRead && io.markWrite
  }

  function ChangeOf(now: int, a: Article, o: Options, x: Others): Change {
    var unforced, io := !o.force && !a.frontend.Illiquid?, x.storage;
    Change(a.sku, now, unforced, Interval(a), io.changelogRead, x.job.Accepted? && io.changelogAppend)
  }

  function Step(s: Settings, w: World, e: Event): World
    requires ValidLimits(s.limits)
  {
    match e
    case Tick(minutes) => w.(now := w.now + minutes)
    case Collect(rows, read, write) =>
      if Collecting(s, w.now) then w.(windows := Collected(w.windows, Key(s.hours, w.now), rows, read, write)) else w
    case ChangedByHand(sku, logged) =>
      w.(changelog := if logged then w.changelog[sku := w.now] else w.changelog,
         changes := w.changes + [Change(sku, w.now, false, 0, true, logged)])
    case Execute(a, o, x) => AfterExecution(s, w, a, o, x)
  }

  function Run(s: Settings, w: World, events: seq<Event>): World
    requires ValidLimits(s.limits)
  {
    if events == [] then w else Step(s, Run(s, w, events[..|events| - 1]), events[|events| - 1])
  }

  /** Nothing stored yet, at any time. */
  function Start(now: int): World {
    World(now, map[], map[], [], [])
  }

  // ---- Night corrections ----

  /** A window that no collection will ever touch again. */
  ghost predicate Passed(s: Settings, window: int, now: int) {
    s.nightMode && s.collecting ==> forall t :: t >= now && Open(s.hours, t) ==> window < Key(s.hours, t)
  }

  ghost predicate Remembered(s: Settings, w: World, c: Correction) {
    Passed(s, c.window, w.now) && (c.window in w.windows ==> c.sku in w.windows[c.window].applied)
  }

  predicate Repeats(c: Correction, later: Correction) {
    c.sku == later.sku && c.window == later.window
  }

  /** A stored mark is never lost while its window can still be looked up, and so its correction is the last one. */
  ghost predicate Remembers(s: Settings, w: World) {
    && (forall c :: c in w.corrections && c.marked ==> Remembered(s, w, c))
    && (forall i, j :: 0 <= i < j < |w.corrections| && w.corrections[i].marked ==>
         !Repeats(w.corrections[i], w.corrections[j]))
  }

  lemma CollectRemembers(s: Settings, w: World, rows: seq<Observation>, read: bool, write: bool)
    requires Remembers(s, w) && Collecting(s, w.now)
    ensures Remembers(s, w.(windows := Collected(w.windows, Key(s.hours, w.now), rows, read, write)))
  {
    var key := Key(s.hours, w.now);
    var after := w.(windows := Collected(w.windows, key, rows, read, write));
    forall c | c in w.corrections && c.marked ensures Remembered(s, after, c) {
      assert Remembered(s, w, c);
      assert c.window < key;
    }
  }

  lemma MarkRemembers(s: Settings, w: World, sku: Sku, key: int, c: Correction)
    requires Remembered(s, w, c)
    ensures Remembered(s, w.(windows := Marked(w.windows, key, sku)), c)
  {
  }

  lemma CorrectionRemembers(s: Settings, w: World, sku: Sku, key: int, marked: bool, after: World)
    requires Remembers(s, w) && key in w.windows && sku !in w.windows[key].applied && Passed(s, key, w.now)
    requires after.now == w.now && after.windows == if marked then Marked(w.windows, key, sku) else w.windows
    requires after.corrections == w.corrections + [Correction(sku, key, marked)]
    ensures Remembers(s, after)
  {
    forall c | c in w.corrections && c.marked ensures Remembered(s, after, c) && !(c.sku == sku && c.window == key) {
      assert Remembered(s, w, c);
      MarkRemembers(s, w, sku, key, c);
    }
    forall i | 0 <= i < |w.corrections| && w.corrections[i].marked
      ensures !Repeats(w.corrections[i], after.corrections[|w.corrections|])
    {
      assert w.corrections[i] in w.corrections;
    }
  }

  lemma LookedUpWindowPassed(s: Settings, now: int)
    requires !Collecting(s, now)
    ensures Passed(s, PreviousKey(s.hours, now), now)
  {
    if s.nightMode && s.collecting {
      forall t | t >= now && Open(s.hours, t) ensures PreviousKey(s.hours, now) < Key(s.hours, t) {
        PreviousKeyPassed(s.hours, now, t);
      }
    }
  }

  lemma ExecutionRemembers(s: Settings, w: World, a: Article, o: Options, x: Others)
    requires ValidLimits(s.limits) && Remembers(s, w)
    ensures Remembers(s, AfterExecution(s, w, a, o, x))
  {
    var outcome := Decide(a, o, s, x, w.windows, w.changelog, w.now);
    var after := AfterExecution(s, w, a, o, x);
    if Corrects(outcome) {
      var key := outcome.window.value;
      CorrectionLookedUp(s, w, a, o, x);
      LookedUpWindowPassed(s, w.now);
      CorrectionRemembers(s, w, a.sku, key, Marks(outcome, x.storage), after);
    } else {
      assert after.windows == w.windows && after.corrections == w.corrections;
      forall c | c in w.corrections && c.marked ensures Remembered(s, after, c) {
        assert Remembered(s, w, c);
      }
    }
  }

  /** What a correction has seen. */
  lemma CorrectionLookedUp(s: Settings, w: World, a: Article, o: Options, x: Others)
    requires ValidLimits(s.limits) && Corrects(Decide(a, o, s, x, w.windows, w.changelog, w.now))
    ensures var key := Decide(a, o, s, x, w.windows, w.changelog, w.now).window.value;
      && key == PreviousKey(s.hours, w.now) && !Collecting(s, w.now)
      && key in w.windows && a.sku !in w.windows[key].applied
  {
  }

  lemma StepRemembers(s: Settings, w: World, e: Event)
    requires ValidLimits(s.limits) && Remembers(s, w)
    ensures Remembers(s, Step(s, w, e))
  {
    match e
    case Collect(rows, read, write) =>
      if Collecting(s, w.now) {
        CollectRemembers(s, w, rows, read, write);
      }
    case Execute(a, o, x) => ExecutionRemembers(s, w, a, o, x);
    case _ =>
      forall c | c in w.corrections && c.marked ensures Remembered(s, Step(s, w, e), c) {
        assert Remembered(s, w, c);
      }
  }

  lemma {:induction false} RunRemembers(s: Settings, now: int, events: seq<Event>)
    requires ValidLimits(s.limits)
    ensures Remembers(s, Run(s, Start(now), events))
  {
    if events != [] {
      var front := events[..|events| - 1];
      RunRemembers(s, now, front);
      StepRemembers(s, Run(s, Start(now), front), events[|events| - 1]);
    }
  }

  /**
   * Over any run, whatever storage and the marketplace do: a second correction of an article in one window, uploaded
   * or queued, can only follow corrections that left no mark. The cache forgets all but seven windows, which is
   * harmless.
   */
  lemma OnceCorrectedUnlessUnmarked(s: Settings, now: int, events: seq<Event>, i: nat, j: nat)
    requires ValidLimits(s.limits)
    requires i < j < |Run(s, Start(now), events).corrections|
    ensures var corrections := Run(s, Start(now), events).corrections;
      Repeats(corrections[i], corrections[j]) ==> !corrections[i].marked
  {
    RunRemembers(s, now, events);
  }

  /**
   * The other direction: in any state, a correction is made once more, for the same window, by the same execution
   * under force, exactly when it was neither accepted nor queued, or its mark could not be read for or written.
   */
  lemma RepeatedExactlyWhenUnmarked(s: Settings, w: World, a: Article, o: Options, x: Others)
    requires ValidLimits(s.limits) && Corrects(Decide(a, o, s, x, w.windows, w.changelog, w.now))
    ensures var first, after := Decide(a, o, s, x, w.windows, w.changelog, w.now), AfterExecution(s, w, a, o, x);
      var again := Decide(a, o.(force := true), s, x, after.windows, after.changelog, w.now);
      Corrects(again) && again.window == first.window <==>
        !((first.end == Queued || first.end == Job(Accepted)) && x.storage.markRead && x.storage.markWrite)
  {
    var after := AfterExecution(s, w, a, o, x);
    CorrectionLookedUp(s, w, a, o, x);
    if Marks(Decide(a, o, s, x, w.windows, w.changelog, w.now), x.storage) {
      assert NightPayload(a, s, x, after.windows, w.now).None?;
    } else {
      assert after.windows == w.windows;
    }
  }

  // ---- The interval between changes ----

  /** The changelog holds the latest stored change of every article that has one. */
  ghost predicate Logged(w: World) {
    && (forall sku :: sku in w.changelog ==> LoggedAt(w.changes, sku, w.changelog[sku]))
    && (forall c :: c in w.changes ==> c.at <= w.now)
    && (forall c :: c in w.changes && c.logged ==> c.sku in w.changelog && c.at <= w.changelog[c.sku])
  }

  ghost predicate LoggedAt(changes: seq<Change>, sku: Sku, at: int) {
    exists c :: c in changes && c.sku == sku && c.at == at && c.logged
  }

  predicate Apart(earlier: Change, later: Change) {
    earlier.at + later.interval <= later.at
  }

  /**
   * Unforced changes keep their distance from every earlier change of the same article, unless the earlier one has no
   * entry or the changelog could not be read.
   */
  ghost predicate Spaced(changes: seq<Change>) {
    && (forall c :: c in changes && c.unforced ==> c.interval >= 5)
    && (forall i, j :: 0 <= i < j < |changes| && changes[i].sku == changes[j].sku && changes[j].unforced ==>
         Apart(changes[i], changes[j]) || !changes[i].logged || !changes[j].read)
  }

  /**
   * In every state of every run, what the guard does about an article is exactly this: it stops an unforced change
   * when the changelog can be read and some stored change of the article is younger than the interval.
   */
  lemma GuardStopsExactly(s: Settings, now: int, events: seq<Event>, a: Article, x: Others)
    requires ValidLimits(s.limits)
    ensures var w := Run(s, Start(now), events);
      IntervalNotDue(a, x, w.changelog, w.now) <==>
        x.storage.changelogRead && exists c :: TooYoung(w, a, c)
  {
    RunSpaced(s, now, events);
    var w := Run(s, Start(now), events);
    if IntervalNotDue(a, x, w.changelog, w.now) {
      var c :| c in w.changes && c.sku == a.sku && c.at == w.changelog[a.sku] && c.logged;
      assert TooYoung(w, a, c);
    }
  }

  ghost predicate TooYoung(w: World, a: Article, c: Change) {
    c in w.changes && c.sku == a.sku && c.logged && w.now < c.at + Interval(a)
  }

  lemma ChangeLogged(w: World, c: Change, after: World)
    requires Logged(w) && c.at == w.now == after.now && after.changes == w.changes + [c]
    requires after.changelog == if c.logged then w.changelog[c.sku := w.now] else w.changelog
    ensures Logged(after)
  {
    forall sku | sku in after.changelog ensures LoggedAt(after.changes, sku, after.changelog[sku]) {
      if sku == c.sku && c.logged {
        assert c in after.changes;
      } else {
        var d :| d in w.changes && d.sku == sku && d.at == w.changelog[sku] && d.logged;
        assert d in after.changes;
      }
    }
  }

  lemma ChangeSpaced(w: World, c: Change)
    requires Logged(w) && Spaced(w.changes) && (c.unforced ==> c.interval >= 5)
    requires c.unforced && c.read && c.sku in w.changelog ==> w.changelog[c.sku] + c.interval <= c.at
    ensures Spaced(w.changes + [c])
  {
    var changes := w.changes + [c];
    forall i | 0 <= i < |w.changes| && w.changes[i].sku == c.sku && c.unforced
      ensures Apart(w.changes[i], c) || !w.changes[i].logged || !c.read
    {
      assert w.changes[i] in w.changes;
    }
  }

  lemma ExecutionSpaced(s: Settings, w: World, a: Article, o: Options, x: Others)
    requires ValidLimits(s.limits) && Logged(w) && Spaced(w.changes)
    ensures Logged(AfterExecution(s, w, a, o, x)) && Spaced(AfterExecution(s, w, a, o, x).changes)
  {
    var outcome := Decide(a, o, s, x, w.windows, w.changelog, w.now);
    if Uploaded(outcome) {
      assert !SkippedEarly(a, o, s, x, w.changelog, w.now);
      assert EnforcesInterval(o) by {
        assert o.createDrafts;
      }
      ChangeSpaced(w, ChangeOf(w.now, a, o, x));
      ChangeLogged(w, ChangeOf(w.now, a, o, x), AfterExecution(s, w, a, o, x));
    }
  }

  lemma StepSpaced(s: Settings, w: World, e: Event)
    requires ValidLimits(s.limits) && Logged(w) && Spaced(w.changes)
    ensures Logged(Step(s, w, e)) && Spaced(Step(s, w, e).changes)
  {
    match e
    case Tick(_) =>
    case Collect(_, _, _) =>
    case ChangedByHand(sku, logged) =>
      var c := Change(sku, w.now, false, 0, true, logged);
      ChangeLogged(w, c, Step(s, w, e));
      ChangeSpaced(w, c);
    case Execute(a, o, x) =>
      ExecutionSpaced(s, w, a, o, x);
  }

  lemma {:induction false} RunSpaced(s: Settings, now: int, events: seq<Event>)
    requires ValidLimits(s.limits)
    ensures Logged(Run(s, Start(now), events)) && Spaced(Run(s, Start(now), events).changes)
  {
    if events != [] {
      var front := events[..|events| - 1];
      RunSpaced(s, now, front);
      StepSpaced(s, Run(s, Start(now), front), events[|events| - 1]);
    }
  }

  /**
   * Over any run, whatever storage and the marketplace do: an unforced automatic upload comes at least its interval,
   * and never less than five minutes, after every earlier change of that article, by whomever, unless the earlier
   * change has no entry, for want of confirmation or of storage, or the changelog could not be read; liquidation is
   * exempt.
   */
  lemma ChangesKeepInterval(s: Settings, now: int, events: seq<Event>, i: nat, j: nat)
    requires ValidLimits(s.limits)
    requires i < j < |Run(s, Start(now), events).changes|
    ensures var changes := Run(s, Start(now), events).changes;
      changes[i].sku == changes[j].sku && changes[j].unforced && changes[i].logged && changes[j].read ==>
        changes[j].interval >= 5 && changes[i].at + changes[j].interval <= changes[j].at
  {
    RunSpaced(s, now, events);
    assert Run(s, Start(now), events).changes[j] in Run(s, Start(now), events).changes;
  }

  // ---- Each failure at work ----

  lemma RunAppend(s: Settings, w: World, events: seq<Event>, e: Event)
    requires ValidLimits(s.limits)
    ensures Run(s, w, events + [e]) == Step(s, Run(s, w, events), e)
  {
    assert (events + [e])[..|events|] == events;
  }

  /** An article under automation, to be repriced at most once an hour. */
  const ARTICLE := Article("A", 1000, true, true, Auto, true, Regular, true, Some(5), 60, Band(1, None))

  /** Advice is 1100, guards agree, and the rest is up to the marketplace and to storage. */
  function Obliging(job: JobState, io: Storage): Others {
    Others(true, true, false, night => Recommend(1100, true), price => price, price => true, price => true, job, io)
  }

  /** Hours 0 to 6, with or without the night mode. */
  function Nightly(nightMode: bool): (s: Settings)
    ensures ValidLimits(s.limits)
  {
    Settings(Hours(0, 6), nightMode, nightMode, false, Limits(Percent(10, 1), Percent(10, 1)))
  }

  const APPLY := Options(false, true, true, false, true)

  const QUEUE := Options(false, true, false, false, false)

  /** The same upload of the first minute, n times. */
  function Minute(n: nat, job: JobState, io: Storage): seq<Change> {
    if n == 0 then [] else
      Minute(n - 1, job, io) + [Change("A", 0, true, 60, io.changelogRead, job.Accepted? && io.changelogAppend)]
  }

  /** How many of two executions in one minute upload their price. */
  function Uploads(job: JobState, io: Storage): nat {
    if job == Stopped(false) then 0
    else if job.Accepted? && io.changelogRead && io.changelogAppend then 1 else 2
  }

  lemma MinuteDecision(log: Changelog, job: JobState, io: Storage)
    requires log == map[] || log == map["A" := 0]
    ensures Decide(ARTICLE, APPLY, Nightly(false), Obliging(job, io), map[], log, 0) ==
      if io.changelogRead && "A" in log then Skipped else Priced(1100, None, Job(job))
  {
  }

  /**
   * The same unforced execution twice in one minute: an unreadable changelog, an entry that was not stored, or an
   * upload that was not seen accepted, and nothing else, lets the second upload through.
   */
  lemma TwoChangesInOneMinute(job: JobState, io: Storage)
    ensures var e := Execute(ARTICLE, APPLY, Obliging(job, io));
      Run(Nightly(false), Start(0), [e, e]).changes == Minute(Uploads(job, io), job, io)
  {
    var s, e := Nightly(false), Execute(ARTICLE, APPLY, Obliging(job, io));
    RunAppend(s, Start(0), [], e);
    assert [] + [e] == [e];
    var first := Run(s, Start(0), [e]);
    MinuteDecision(map[], job, io);
    assert first.changes == Minute(if job == Stopped(false) then 0 else 1, job, io);
    assert first.windows == map[] && first.now == 0;
    assert first.changelog == if job.Accepted? && io.changelogAppend then map["A" := 0] else map[];
    RunAppend(s, Start(0), [e], e);
    assert [e] + [e] == [e, e];
    MinuteDecision(first.changelog, job, io);
  }

  /** The same correction of one window, n times. */
  function Corrections(n: nat, marked: bool): seq<Correction> {
    if n == 0 then [] else Corrections(n - 1, marked) + [Correction("A", 0, marked)]
  }

  lemma OneSample(sku: Sku, baskets: int, rows: seq<Observation>)
    requires rows == [Observation(sku, baskets)]
    ensures AddSamples(NEW_WINDOW, rows) == Window(map[sku := [baskets]], {})
  {
    assert rows[..|rows| - 1] == [];
    assert AddSamples(NEW_WINDOW, rows) == AddSample(AddSamples(NEW_WINDOW, []), sku, baskets);
    assert AddSamples(NEW_WINDOW, []) == NEW_WINDOW;
    assert SamplesOf(NEW_WINDOW, sku) + [baskets] == [baskets];
    assert NEW_WINDOW.samples[sku := [baskets]] == map[sku := [baskets]];
  }

  const SAMPLED: Windows := map[0 := Window(map["A" := [5]], {})]

  /** A night of samples and the morning after it. */
  lemma MorningAfter()
    ensures Run(Nightly(true), Start(0), [Collect([Observation("A", 5)], true, true), Tick(360)])
         == World(360, SAMPLED, map[], [], [])
  {
    var s, c := Nightly(true), Collect([Observation("A", 5)], true, true);
    RunAppend(s, Start(0), [], c);
    assert [] + [c] == [c];
    var rows := [Observation("A", 5)];
    OneSample("A", 5, rows);
    assert LaterThan(SAMPLED, 0) == {};
    assert Trim(SAMPLED) == SAMPLED;
    assert Collecting(s, 0) && Key(s.hours, 0) == 0;
    assert WindowAt(map[], 0) == NEW_WINDOW && Visible(map[], true) == map[];
    assert Collected(map[], 0, rows, true, true) == SAMPLED;
    assert Run(s, Start(0), [c]).windows == SAMPLED;
    RunAppend(s, Start(0), [c], Tick(360));
    assert [c] + [Tick(360)] == [c, Tick(360)];
  }

  predicate MarkedIn(windows: Windows) {
    0 in windows ==> "A" in windows[0].applied
  }

  /** One of the two executions of that morning, an hour apart: nothing is too young. */
  ghost predicate IsMorning(w: World) {
    && (w.now == 360 || w.now == 420)
    && ("A" in w.changelog ==> w.changelog["A"] + 60 <= w.now)
    && (w.windows == SAMPLED || MarkedIn(w.windows))
  }

  function EndOf(o: Options, job: JobState): End {
    if o == QUEUE then Queued else Job(job)
  }

  /** Which correction is open in the morning. */
  lemma MorningPayload(w: World, x: Others, job: JobState, io: Storage)
    requires IsMorning(w) && x == Obliging(job, io)
    ensures NightPayload(ARTICLE, Nightly(true), x, w.windows, w.now) ==
      if io.cacheRead && !MarkedIn(w.windows) then Some(0) else None
  {
    assert PreviousKey(Hours(0, 6), w.now) == 0 && !Collecting(Nightly(true), w.now);
  }

  /** Nothing stops an execution in the morning. */
  lemma MorningOpen(w: World, o: Options, x: Others, job: JobState, io: Storage)
    requires IsMorning(w) && x == Obliging(job, io)
    ensures !SkippedEarly(ARTICLE, o, Nightly(true), x, w.changelog, w.now)
  {
    assert !Collecting(Nightly(true), w.now);
  }

  lemma MorningEnd(o: Options, x: Others, job: JobState, io: Storage, night: bool, window: Option<int>)
    requires (o == QUEUE || o == APPLY) && x == Obliging(job, io)
    ensures Recommended(ARTICLE, Nightly(true), x, night) == Price(1100)
    ensures Settled(ARTICLE, o, Nightly(true), x, night, window, 1100) == Priced(1100, window, EndOf(o, job))
  {
  }

  lemma MorningDecision(w: World, o: Options, x: Others, job: JobState, io: Storage)
    requires IsMorning(w) && (o == QUEUE || o == APPLY) && x == Obliging(job, io)
    ensures Decide(ARTICLE, o, Nightly(true), x, w.windows, w.changelog, w.now) ==
      Priced(1100, if io.cacheRead && !MarkedIn(w.windows) then Some(0) else None, EndOf(o, job))
  {
    MorningPayload(w, x, job, io);
    MorningOpen(w, o, x, job, io);
    var payload := NightPayload(ARTICLE, Nightly(true), x, w.windows, w.now);
    MorningEnd(o, x, job, io, payload.Some?, payload);
  }

  /** Each of them corrects the price if it sees the samples without a mark. */
  lemma OneMorningExecution(w: World, o: Options, x: Others, job: JobState, io: Storage)
    requires IsMorning(w) && (o == QUEUE || o == APPLY) && x == Obliging(job, io)
    ensures var after, marked := AfterExecution(Nightly(true), w, ARTICLE, o, x), EndMarks(o, job, io);
      var made := io.cacheRead && !MarkedIn(w.windows) && EndOf(o, job) != Job(Stopped(false));
      && after.corrections == (if made then w.corrections + [Correction("A", 0, marked)] else w.corrections)
      && (made && marked ==> MarkedIn(after.windows))
      && (!(made && marked) ==> after.windows == w.windows)
      && ("A" in after.changelog ==> after.changelog["A"] <= w.now)
      && after.now == w.now
  {
    MorningDecision(w, o, x, job, io);
  }

  predicate EndMarks(o: Options, job: JobState, io: Storage) {
    Recorded(EndOf(o, job)) && io.markRead && io.markWrite
  }

  /** How many of two executions in one morning correct the price. */
  function CorrectionsMade(o: Options, job: JobState, io: Storage): nat {
    if !io.cacheRead || EndOf(o, job) == Job(Stopped(false)) then 0
    else if EndMarks(o, job, io) then 1 else 2
  }

  lemma TwoExecutions(s: Settings, w: World, c: Event, t: Event, e: Event, u: Event)
    requires ValidLimits(s.limits)
    ensures Run(s, w, [c, t, e, u, e]) == Step(s, Step(s, Step(s, Run(s, w, [c, t]), e), u), e)
  {
    RunAppend(s, w, [c, t], e);
    assert [c, t] + [e] == [c, t, e];
    RunAppend(s, w, [c, t, e], u);
    assert [c, t, e] + [u] == [c, t, e, u];
    RunAppend(s, w, [c, t, e, u], e);
    assert [c, t, e, u] + [e] == [c, t, e, u, e];
  }

  /**
   * The same unforced execution twice in a morning, an hour apart, queueing or applying its price: a correction that
   * was uploaded without being seen accepted, or a mark that could not be read for or written, and nothing else, has
   * the correction of the window made a second time; an unreadable cache has none made at all.
   */
  lemma TwoCorrectionsInOneMorning(o: Options, job: JobState, io: Storage)
    requires o == QUEUE || o == APPLY
    ensures var e, night := Execute(ARTICLE, o, Obliging(job, io)), Collect([Observation("A", 5)], true, true);
      Run(Nightly(true), Start(0), [night, Tick(360), e, Tick(60), e]).corrections ==
        Corrections(CorrectionsMade(o, job, io), EndMarks(o, job, io))
  {
    var s, x := Nightly(true), Obliging(job, io);
    var c, e := Collect([Observation("A", 5)], true, true), Execute(ARTICLE, o, x);
    MorningAfter();
    TwoExecutions(s, Start(0), c, Tick(360), e, Tick(60));
    var first := World(360, SAMPLED, map[], [], []);
    OneMorningExecution(first, o, x, job, io);
    var later := Step(s, AfterExecution(s, first, ARTICLE, o, x), Tick(60));
    OneMorningExecution(later, o, x, job, io);
  }
}
