/**
 * The automatic repricer: `collect_night_median_baskets` samples baskets while the window is open, and
 * `_execute_single_sku` decides about one article. Storage may fail at every call; most failures are swallowed.
 */
module RepricerExecution {
  import opened Arith
  import opened Dicts
  import opened NightWindow
  import opened PriceClamp

  type Sku = string

  /** Samples and marks of one window. */
  datatype Window = Window(samples: map<Sku, seq<int>>, applied: set<Sku>)

  /** Windows by the day that names them. */
  type Windows = map<int, Window>

  const NEW_WINDOW := Window(map[], {})

  // ---- The cache ----

  function LaterThan(windows: Windows, key: int): set<int> {
    set k | k in windows && k > key
  }

  /** `_trim_night_median_cache`: the seven latest windows stay. */
  function Trim(windows: Windows): Windows {
    map k | k in windows && |LaterThan(windows, k)| < 7 :: windows[k]
  }

  function Latest24(values: seq<int>): seq<int> {
    if |values| <= 24 then values else values[|values| - 24..]
  }

  function SamplesOf(w: Window, sku: Sku): seq<int> {
    if sku in w.samples then w.samples[sku] else []
  }

  function AddSample(w: Window, sku: Sku, baskets: int): Window {
    w.(samples := w.samples[sku := Latest24(SamplesOf(w, sku) + [baskets])])
  }

  /** The rows a collection takes: enabled, with a strategy, not illiquid, with a basket count. */
  datatype Observation = Observation(sku: Sku, baskets: int)

  function AddSamples(w: Window, rows: seq<Observation>): Window {
    if rows == [] then w else
      AddSample(AddSamples(w, rows[..|rows| - 1]), rows[|rows| - 1].sku, rows[|rows| - 1].baskets)
  }

  function WindowAt(windows: Windows, key: int): Window {
    if key in windows then windows[key] else NEW_WINDOW
  }

  /** What a read of the cache yields: a failed one looks like an empty cache. */
  function Visible(windows: Windows, read: bool): Windows {
    if read then windows else map[]
  }

  /** `collect_night_median_baskets` inside the window; a failed write is swallowed. */
  function Collected(windows: Windows, key: int, rows: seq<Observation>, read: bool, write: bool): Windows {
    if !write then windows else
      Trim(Visible(windows, read)[key := AddSamples(WindowAt(Visible(windows, read), key), rows)])
  }

  function Marked(windows: Windows, key: int, sku: Sku): Windows {
    if key !in windows then windows else
      Trim(windows[key := windows[key].(applied := windows[key].applied + {sku})])
  }

  // ---- One article ----

  datatype Status = Auto | Warmup | Manual

  datatype Frontend = NoStrategy | Illiquid | NightMode | Regular

  /** What the executor reads of an article and of its settings. */
  datatype Article = Article(
    sku: Sku, price: int, hasNmId: bool, automation: bool, status: Status, explicitStrategy: bool,
    frontend: Frontend, nightEnabled: bool, baskets: Option<int>, intervalMinutes: int, band: Band)

  datatype Options = Options(
    force: bool, createDrafts: bool, applyPrices: bool, simulateLocalPrice: bool, autoApprove: bool)

  /** Settings of the algorithm. */
  datatype Settings = Settings(
    hours: Hours, nightMode: bool, collecting: bool, nightAutoApply: bool, limits: Limits)

  /** What a strategy answers: refuse, block, or a price that a guard has or has not checked. */
  datatype Advice = Refuse | Block | Recommend(price: int, guardChecked: bool)

  /**
   * How the job of an approved draft ends: "accepted" or "local_applied"; "sent", while the marketplace still works on
   * the upload or limits questions about it; "blocked", "failed" or "needs_attention", before or after an upload.
   */
  datatype JobState = Accepted | Sent | Stopped(uploaded: bool)

  /**
   * Which calls to storage succeed in one execution: reading the changelog, appending to it, reading the cache for
   * a correction, reading it again to mark the correction, and writing it back.
   */
  datatype Storage = Storage(
    changelogRead: bool, changelogAppend: bool, cacheRead: bool, markRead: bool, markWrite: bool)

  /** Everything the executor asks others: strategies, rounding, guards, drafts, the marketplace, storage. */
  datatype Others = Others(
    organization: bool, inRun: bool, rateLimited: bool,
    advice: bool -> Advice, round: int -> int, guardAllows: int -> bool, draftOpen: int -> bool, job: JobState,
    storage: Storage)

  /** What becomes of a changed price: nothing further, a pending approval, or a job. */
  datatype End = Advised | Queued | Job(state: JobState)

  /** How an execution ends. A price of the night strategy has the window whose samples it goes by. */
  datatype Outcome = Skipped | Blocked | Priced(price: int, window: Option<int>, end: End)

  predicate Collecting(s: Settings, now: int) {
    s.nightMode && s.collecting && Open(s.hours, now)
  }

  /** `_settings_step_interval_minutes` never goes below five minutes. */
  function Interval(a: Article): int {
    Max(5, a.intervalMinutes)
  }

  predicate EnforcesInterval(o: Options) {
    o.createDrafts || o.applyPrices || o.simulateLocalPrice
  }

  type Changelog = map<Sku, int>

  /** `_last_price_change_at`: a changelog that cannot be read looks like one without entries. */
  function LastChangeAt(sku: Sku, log: Changelog, read: bool): Option<int> {
    if read && sku in log then Some(log[sku]) else None
  }

  predicate IntervalNotDue(a: Article, x: Others, log: Changelog, now: int) {
    var last := LastChangeAt(a.sku, log, x.storage.changelogRead);
    last.Some? && now < last.value + Interval(a)
  }

  /** `_night_median_apply_payload`: the window whose correction is still open for this article. */
  function NightPayload(a: Article, s: Settings, x: Others, windows: Windows, now: int): Option<int> {
    var key, seen := PreviousKey(s.hours, now), Visible(windows, x.storage.cacheRead);
    if !x.organization || Collecting(s, now) || !a.nightEnabled || a.sku == "" then None
    else if key !in seen || a.sku in seen[key].applied then None
    else if SamplesOf(seen[key], a.sku) == [] || a.baskets.None? then None
    else Some(key)
  }

  /** Whether the night strategy is the one that runs. */
  predicate RunsNight(a: Article, s: Settings, x: Others, windows: Windows, now: int) {
    !a.frontend.Illiquid? && (a.frontend.NightMode? || NightPayload(a, s, x, windows, now).Some?)
  }

  /** The guards in front of any strategy; true when the article is skipped. */
  predicate SkippedEarly(a: Article, o: Options, s: Settings, x: Others, log: Changelog, now: int) {
    || (!o.force && (!a.automation || a.status.Warmup? || a.status.Manual?))
    || !a.hasNmId
    || (!o.force && !a.frontend.Illiquid? && !a.explicitStrategy)
    || a.frontend.NoStrategy?
    || (!o.force && !a.frontend.Illiquid? && EnforcesInterval(o) && IntervalNotDue(a, x, log, now))
    || (!a.frontend.Illiquid? && Collecting(s, now) && a.nightEnabled)
  }

  /** The price after rounding, clamp and guard; None when a guard refuses it. */
  function CheckedPrice(a: Article, s: Settings, x: Others, advice: Advice): Option<int>
    requires advice.Recommend? && ValidLimits(s.limits)
  {
    if advice.guardChecked || advice.price == a.price then Some(advice.price) else
      var rounded := x.round(advice.price);
      if rounded == a.price then Some(rounded) else
        var clamped := Clamped(a.price, rounded, a.band, s.limits);
        if clamped == a.price || x.guardAllows(clamped) then Some(clamped) else None
  }

  datatype Recommendation = Stop(outcome: Outcome) | Price(price: int)

  /** The strategy's answer, rounded, clamped and guarded; a price that does not change ends the execution. */
  function Recommended(a: Article, s: Settings, x: Others, night: bool): Recommendation
    requires ValidLimits(s.limits)
  {
    var advice := x.advice(night);
    match advice
    case Refuse => Stop(Skipped)
    case Block => Stop(Blocked)
    case Recommend(_, _) =>
      match CheckedPrice(a, s, x, advice)
      case None => Stop(Blocked)
      case Some(price) => if price == a.price then Stop(Skipped) else Price(price)
  }

  /** What becomes of a changed price: draft, approval, application. */
  function Settled(
    a: Article, o: Options, s: Settings, x: Others, night: bool, window: Option<int>, price: int): Outcome
  {
    if !o.createDrafts then Priced(price, window, Advised)
    else if o.applyPrices && x.inRun && x.rateLimited then Blocked
    else if !x.draftOpen(price) then Blocked
    else
      var force := night && s.nightAutoApply;
      if o.autoApprove || force then Priced(price, window, if o.applyPrices || force then Job(x.job) else Advised)
      else Priced(price, window, if x.inRun then Queued else Advised)
  }

  /** The decision about one article. */
  function Decide(
    a: Article, o: Options, s: Settings, x: Others, windows: Windows, log: Changelog, now: int): Outcome
    requires ValidLimits(s.limits)
  {
    if SkippedEarly(a, o, s, x, log, now) then Skipped else
      var payload := NightPayload(a, s, x, windows, now);
      var night := RunsNight(a, s, x, windows, now);
      if night && payload.None? then Skipped else
        match Recommended(a, s, x, night)
        case Stop(outcome) => outcome
        case Price(price) => Settled(a, o, s, x, night, if night then payload else None, price)
  }

  /** The price has gone to the marketplace, or to the local test runtime. */
  predicate Uploaded(outcome: Outcome) {
    outcome.Priced? && outcome.end.Job? && outcome.end.state != Stopped(false)
  }

  /** The executor keeps a record only of what it saw accepted, and of what it queued. */
  predicate Recorded(end: End) {
    end == Queued || end == Job(Accepted)
  }

  /** A night correction: uploaded, whatever became of the upload, or queued for approval. */
  predicate Corrects(outcome: Outcome) {
    outcome.Priced? && outcome.window.Some? && (Uploaded(outcome) || outcome.end.Queued?)
  }

  /** `_mark_night_median_applied`: without a successful read and write the mark is silently lost. */
  function MarkStored(windows: Windows, key: int, sku: Sku, io: Storage): Windows {
    if io.markRead && io.markWrite then Marked(windows, key, sku) else windows
  }

  function WindowsAfter(windows: Windows, sku: Sku, outcome: Outcome, io: Storage): Windows {
    if Corrects(outcome) && Recorded(outcome.end) then MarkStored(windows, outcome.window.value, sku, io) else windows
  }

  function ChangelogAfter(log: Changelog, sku: Sku, outcome: Outcome, io: Storage, now: int): Changelog {
    if outcome.Priced? && outcome.end == Job(Accepted) && io.changelogAppend then log[sku := now] else log
  }

  /** The stored state of one organization, updated in place. */
  class Repricer {
    var windows: Windows
    var changelog: Changelog

    constructor ()
      ensures windows == map[] && changelog == map[]
    {
      windows, changelog := map[], map[];
    }

    /** `collect_night_median_baskets` at a local time. */
    method CollectBaskets(s: Settings, now: int, rows: seq<Observation>, read: bool, write: bool)
      returns (collected: bool)
      modifies this`windows
      ensures collected == Collecting(s, now)
      ensures windows ==
        if collected then Collected(old(windows), Key(s.hours, now), rows, read, write) else old(windows)
    {
      collected := Collecting(s, now);
      if !collected {
        return;
      }
      var key, cache := Key(s.hours, now), Visible(windows, read);
      var window := WindowAt(cache, key);
      for i := 0 to |rows|
        invariant window == AddSamples(WindowAt(cache, key), rows[..i])
      {
        assert rows[..i + 1][..i] == rows[..i];
        window := AddSample(window, rows[i].sku, rows[i].baskets);
      }
      assert rows[..|rows|] == rows;
      if write {
        windows := Trim(cache[key := window]);
      }
    }

    /** `_night_median_apply_payload` */
    method NightApplyPayload(a: Article, s: Settings, x: Others, now: int) returns (payload: Option<int>)
      ensures payload == NightPayload(a, s, x, windows, now)
    {
      if !x.organization || Collecting(s, now) || !a.nightEnabled {
        return None;
      }
      if a.sku == "" {
        return None;
      }
      var cache, key := Visible(windows, x.storage.cacheRead), PreviousKey(s.hours, now);
      if key !in cache {
        return None;
      }
      if a.sku in cache[key].applied {
        return None;
      }
      var values := SamplesOf(cache[key], a.sku);
      if values == [] {
        return None;
      }
      if a.baskets.None? {
        return None;
      }
      return Some(key);
    }

    method MarkApplied(key: int, sku: Sku, io: Storage)
      modifies this`windows
      ensures windows == MarkStored(old(windows), key, sku, io)
    {
      var cache := Visible(windows, io.markRead);
      if key !in cache {
        return;
      }
      var window := cache[key];
      cache := Trim(cache[key := window.(applied := window.applied + {sku})]);
      if io.markWrite {
        windows := cache;
      }
    }

    /** `record_repricer_price_change`: an entry that cannot be stored is lost. */
    method RecordPriceChange(sku: Sku, now: int, io: Storage)
      modifies this`changelog
      ensures changelog == if io.changelogAppend then old(changelog)[sku := now] else old(changelog)
    {
      if io.changelogAppend {
        changelog := changelog[sku := now];
      }
    }

    /** The end of the execution: draft, approval, application, and what is stored of them. */
    method SettlePrice(
      a: Article, o: Options, s: Settings, x: Others, now: int, night: bool, window: Option<int>, price: int)
      returns (outcome: Outcome)
      requires night <==> window.Some?
      modifies this
      ensures outcome == Settled(a, o, s, x, night, window, price)
      ensures windows == WindowsAfter(old(windows), a.sku, outcome, x.storage)
      ensures changelog == ChangelogAfter(old(changelog), a.sku, outcome, x.storage, now)
    {
      if !o.createDrafts {
        return Priced(price, window, Advised);
      }
      if o.applyPrices && x.inRun && x.rateLimited {
        return Blocked;
      }
      if !x.draftOpen(price) {
        return Blocked;
      }
      var approve, apply, end := o.autoApprove, o.applyPrices, Advised;
      if night && s.nightAutoApply {
        approve, apply := true, true;
      }
      if approve {
        if apply {
          end := Job(x.job);
          if x.job == Accepted {
            if night {
              MarkApplied(window.value, a.sku, x.storage);
            }
            RecordPriceChange(a.sku, now, x.storage);
            return Priced(price, window, end);
          }
          if x.job.Stopped? {
            return Priced(price, window, end);
          }
        }
      } else if x.inRun {
        if night {
          MarkApplied(window.value, a.sku, x.storage);
        }
        end := Queued;
      }
      return Priced(price, window, end);
    }

    /** `_execute_single_sku`, as it runs. */
    method ExecuteSingleSku(a: Article, o: Options, s: Settings, x: Others, now: int) returns (outcome: Outcome)
      requires ValidLimits(s.limits)
      modifies this
      ensures outcome == Decide(a, o, s, x, old(windows), old(changelog), now)
      ensures windows == WindowsAfter(old(windows), a.sku, outcome, x.storage)
      ensures changelog == ChangelogAfter(old(changelog), a.sku, outcome, x.storage, now)
    {
      if !o.force {
        if !a.automation {
          return Skipped;
        }
        if a.status.Warmup? {
          return Skipped;
        }
        if a.status.Manual? {
          return Skipped;
        }
      }
      if !a.hasNmId {
        return Skipped;
      }
      var frontend := a.frontend;
      if !o.force && frontend != Illiquid && !a.explicitStrategy {
        return Skipped;
      }
      if frontend == NoStrategy {
        return Skipped;
      }
      if !o.force && frontend != Illiquid && EnforcesInterval(o) {
        var lastAt := LastChangeAt(a.sku, changelog, x.storage.changelogRead);
        if lastAt.Some? && now < lastAt.value + Interval(a) {
          return Skipped;
        }
      }
      if frontend != Illiquid && Collecting(s, now) && a.nightEnabled {
        return Skipped;
      }
      var payload := NightApplyPayload(a, s, x, now);
      if frontend != Illiquid && frontend != NightMode && payload.Some? {
        frontend := NightMode;
      } else if frontend == NightMode {
        payload := NightApplyPayload(a, s, x, now);
      }
      if frontend == NightMode && payload.None? {
        return Skipped;
      }
      var recommendation := RecommendPrice(a, s, x, frontend == NightMode);
      if recommendation.Stop? {
        return recommendation.outcome;
      }
      outcome := SettlePrice(a, o, s, x, now, frontend == NightMode,
        if frontend == NightMode then payload else None, recommendation.price);
    }
  }

  /** The part of the execution between the strategy and the draft. */
  method RecommendPrice(a: Article, s: Settings, x: Others, night: bool) returns (r: Recommendation)
    requires ValidLimits(s.limits)
    ensures r == Recommended(a, s, x, night)
  {
    var recommended, guardChecked := a.price, false;
    match x.advice(night) {
      case Refuse => return Stop(Skipped);
      case Block => return Stop(Blocked);
      case Recommend(price, checked) => recommended, guardChecked := price, checked;
    }
    if recommended != a.price && !guardChecked {
      recommended := x.round(recommended);
    }
    if recommended != a.price && !guardChecked {
      recommended := ClampCandidatePrice(a.price, recommended, a.band, s.limits);
    }
    if recommended != a.price && !guardChecked {
      if !x.guardAllows(recommended) {
        return Stop(Blocked);
      }
    }
    if recommended == a.price {
      return Stop(Skipped);
    }
    return Price(recommended);
  }

  // ---- One decision ----

  /** While samples are collected no night-enabled article is repriced, unless it is being liquidated. */
  lemma NoRepricingWhileCollecting(
    a: Article, o: Options, s: Settings, x: Others, windows: Windows, log: Changelog, now: int)
    requires ValidLimits(s.limits) && Collecting(s, now) && a.nightEnabled && !a.frontend.Illiquid?
    ensures Decide(a, o, s, x, windows, log, now) == Skipped
  {
  }

  /**
   * A changed price is one that the strategy's own guards passed, or lies inside a proper band; from inside the band
   * it then lies between the old price and the rounded advice.
   */
  lemma ChangedPriceInBand(
    a: Article, o: Options, s: Settings, x: Others, windows: Windows, log: Changelog, now: int)
    requires ValidLimits(s.limits) && Decide(a, o, s, x, windows, log, now).Priced?
    ensures var price := Decide(a, o, s, x, windows, log, now).price;
      var advice := x.advice(RunsNight(a, s, x, windows, now));
      && advice.Recommend? && price != a.price
      && if advice.guardChecked then price == advice.price else
           ProperBand(a.band) ==> InBand(price, a.band) && BetweenIfInBand(a, x.round(advice.price), price)
  {
    var advice := x.advice(RunsNight(a, s, x, windows, now));
    var rounded := x.round(advice.price);
    if !advice.guardChecked && ProperBand(a.band) {
      ClampedInBand(a.price, rounded, a.band, s.limits);
      if a.price >= 1 && InBand(a.price, a.band) {
        ClampedBetween(a.price, rounded, a.band, s.limits);
      }
    }
  }

  predicate BetweenIfInBand(a: Article, advised: int, price: int) {
    a.price >= 1 && InBand(a.price, a.band) ==> Min(a.price, advised) <= price <= Max(a.price, advised)
  }

  /**
   * What must hold before a price is uploaded, whether the upload is accepted, pending or abandoned: somebody approved
   * it, the draft is open, uploads are not limited, a guard agreed to this very price, and unless forced the article
   * is under automation.
   */
  lemma UploadedOnlyWhenAllowed(
    a: Article, o: Options, s: Settings, x: Others, windows: Windows, log: Changelog, now: int, outcome: Outcome)
    requires ValidLimits(s.limits) && outcome == Decide(a, o, s, x, windows, log, now)
    requires Uploaded(outcome)
    ensures outcome.price != a.price && a.hasNmId && o.createDrafts
    ensures x.draftOpen(outcome.price) && outcome.end == Job(x.job) && !(o.applyPrices && x.inRun && x.rateLimited)
    ensures (o.autoApprove && o.applyPrices) || (outcome.window.Some? && s.nightAutoApply)
    ensures !o.force ==> a.automation && a.status.Auto?
    ensures GuardAgreed(x, RunsNight(a, s, x, windows, now), outcome.price)
  {
  }

  /** Strategies that ask the guards themselves give a price that passed; for others the executor asks. */
  predicate GuardAgreed(x: Others, night: bool, price: int) {
    var advice := x.advice(night);
    advice.Recommend? && if advice.guardChecked then price == advice.price else x.guardAllows(price)
  }

  /** A correction that is made while the window is closed goes by samples of the window that closed last. */
  lemma CorrectionUsesLastWindow(
    a: Article, o: Options, s: Settings, x: Others, windows: Windows, log: Changelog, now: int, t: int)
    requires ValidLimits(s.limits) && Corrects(Decide(a, o, s, x, windows, log, now))
    requires !Open(s.hours, now) && LatestOpen(s.hours, t, now)
    ensures Decide(a, o, s, x, windows, log, now).window == Some(Key(s.hours, t))
    ensures Key(s.hours, t) in windows && SamplesOf(windows[Key(s.hours, t)], a.sku) != []
  {
    PreviousKeyIsLatestKey(s.hours, t, now);
  }

  /** A cache that cannot be read delays corrections and never makes one. */
  lemma UnreadCacheCorrectsNothing(
    a: Article, o: Options, s: Settings, x: Others, windows: Windows, log: Changelog, now: int)
    requires ValidLimits(s.limits) && !x.storage.cacheRead
    ensures !Corrects(Decide(a, o, s, x, windows, log, now))
  {
  }

  // ---- The cache over time ----

  lemma {:induction false} SamplesKeepMarks(w: Window, rows: seq<Observation>)
    ensures AddSamples(w, rows).applied == w.applied
  {
    if rows != [] {
      SamplesKeepMarks(w, rows[..|rows| - 1]);
    }
  }

  /** The basket counts observed of one article, in order. */
  function BasketsOf(rows: seq<Observation>, sku: Sku): seq<int> {
    if rows == [] then [] else
      BasketsOf(rows[..|rows| - 1], sku)
      + (if rows[|rows| - 1].sku == sku then [rows[|rows| - 1].baskets] else [])
  }

  lemma OneMoreSample(w: Window, row: Observation, sku: Sku)
    ensures SamplesOf(AddSample(w, row.sku, row.baskets), sku) ==
      if row.sku == sku then Latest24(SamplesOf(w, sku) + [row.baskets]) else SamplesOf(w, sku)
  {
  }

  lemma {:induction false} SamplesFollow(w: Window, rows: seq<Observation>, sku: Sku)
    ensures SamplesOf(AddSamples(w, rows), sku) ==
      if BasketsOf(rows, sku) == [] then SamplesOf(w, sku) else Latest24(SamplesOf(w, sku) + BasketsOf(rows, sku))
  {
    var before := SamplesOf(w, sku);
    if rows == [] {
    } else {
      var front, last := rows[..|rows| - 1], rows[|rows| - 1];
      SamplesFollow(w, front, sku);
      OneMoreSample(AddSamples(w, front), last, sku);
      if last.sku == sku {
        var all := before + BasketsOf(front, sku);
        assert before + BasketsOf(rows, sku) == all + [last.baskets];
        if BasketsOf(front, sku) == [] {
          assert all == before;
        } else {
          LatestOfLatest(all, last.baskets);
        }
      } else {
        assert BasketsOf(rows, sku) == BasketsOf(front, sku);
      }
    }
  }

  /**
   * After a collection an article that was observed has the latest of its old samples and its new observations, up to
   * 24 of them and in order, so that the newest is last; one that was not has what it had.
   */
  lemma SamplesAreLatest(w: Window, rows: seq<Observation>, sku: Sku)
    ensures var all, r := SamplesOf(w, sku) + BasketsOf(rows, sku), SamplesOf(AddSamples(w, rows), sku);
      if BasketsOf(rows, sku) == [] then r == SamplesOf(w, sku) else
        AreLatest(r, all, 24)
  {
    SamplesFollow(w, rows, sku);
    TwentyFourStay(SamplesOf(w, sku) + BasketsOf(rows, sku));
  }

  /** The last values of a list, in order: n of them, or all if there are no more. */
  predicate AreLatest(r: seq<int>, all: seq<int>, n: nat) {
    |r| == Min(n, |all|) && forall i :: 0 <= i < |r| ==> r[i] == all[|all| - |r| + i]
  }

  lemma TwentyFourStay(values: seq<int>)
    ensures AreLatest(Latest24(values), values, 24)
  {
  }

  lemma LatestOfLatest(values: seq<int>, x: int)
    ensures Latest24(Latest24(values) + [x]) == Latest24(values + [x])
  {
  }

  /**
   * Trimming keeps the seven latest windows, or all of them if there are no more, and changes none: what is kept is
   * kept as it was, and nothing is dropped while an earlier window stays.
   */
  lemma TrimKeepsLatest(windows: Windows)
    ensures |Trim(windows).Keys| == Min(7, |windows.Keys|)
    ensures forall k :: k in Trim(windows) ==> k in windows && Trim(windows)[k] == windows[k]
    ensures forall k, l :: k in Trim(windows) && l in windows && l > k ==> l in Trim(windows)
  {
    var kept := Trim(windows).Keys;
    Included(kept, windows.Keys);
    forall k, l | k in kept && l in windows && l > k ensures l in kept {
      Included(LaterThan(windows, l), LaterThan(windows, k));
    }
    AtMostSeven(windows);
    AtLeastSeven(windows);
  }

  lemma AtMostSeven(windows: Windows)
    ensures |Trim(windows).Keys| <= 7
  {
    var kept := Trim(windows).Keys;
    if key :| key in kept {
      var first := Least(kept, key);
      Included(kept - {first}, LaterThan(windows, first));
    }
  }

  lemma AtLeastSeven(windows: Windows)
    ensures Trim(windows).Keys == windows.Keys || |Trim(windows).Keys| >= 7
  {
    var kept := Trim(windows).Keys;
    var dropped := windows.Keys - kept;
    if key :| key in dropped {
      var last := Greatest(dropped, key);
      assert |LaterThan(windows, last)| >= 7;
      forall k | k in LaterThan(windows, last) ensures k in kept {
        assert k !in dropped;
      }
      Included(LaterThan(windows, last), kept);
    } else {
      assert dropped == {};
      assert windows.Keys == kept + dropped;
    }
  }

  /** No window is lost or changed as long as there are at most seven. */
  lemma SevenStay(windows: Windows)
    requires |windows.Keys| <= 7
    ensures Trim(windows) == windows
  {
    TrimKeepsLatest(windows);
    assert windows.Keys == Trim(windows).Keys + (windows.Keys - Trim(windows).Keys);
  }

  /**
   * What a collection leaves in storage: the window it samples with its marks, the others as they were, the latest
   * seven of them; nothing new when it cannot be written, and nothing old when the cache could not be read.
   */
  lemma CollectedWindows(windows: Windows, key: int, rows: seq<Observation>, read: bool, write: bool, k: int)
    requires k in Collected(windows, key, rows, read, write)
    ensures var window := Collected(windows, key, rows, read, write)[k];
      if !write then k in windows && window == windows[k]
      else if k != key then read && k in windows && window == windows[k]
      else if read && key in windows then
        window.applied == windows[key].applied && window == AddSamples(windows[key], rows)
      else window.applied == {} && window == AddSamples(Window(map[], {}), rows)
  {
    SamplesKeepMarks(WindowAt(Visible(windows, read), key), rows);
  }

  /** And which windows those are. */
  lemma CollectedKeys(windows: Windows, key: int, rows: seq<Observation>, read: bool)
    ensures var before := (if read then windows.Keys else {}) + {key};
      var after := Collected(windows, key, rows, read, true).Keys;
      && after <= before && |after| == Min(7, |before|)
      && forall j, l :: j in after && l in before && l > j ==> l in after
  {
    var grown := Visible(windows, read)[key := AddSamples(WindowAt(Visible(windows, read), key), rows)];
    assert grown.Keys == (if read then windows.Keys else {}) + {key};
    TrimKeepsLatest(grown);
  }

  /** A mark adds one article to one window and changes nothing else. */
  lemma MarkedWindows(windows: Windows, key: int, sku: Sku, k: int)
    requires |windows.Keys| <= 7
    ensures Marked(windows, key, sku).Keys == windows.Keys
    ensures k in windows ==>
      var window := Marked(windows, key, sku)[k];
      && window.samples == windows[k].samples
      && window.applied == if k == key then windows[k].applied + {sku} else windows[k].applied
  {
    if key in windows {
      var marked := windows[key := windows[key].(applied := windows[key].applied + {sku})];
      assert marked.Keys == windows.Keys;
      SevenStay(marked);
    }
  }

  lemma Included<T>(a: set<T>, b: set<T>)
    requires a <= b
    ensures |a| <= |b|
  {
    assert b == a + (b - a);
  }

  lemma {:induction false} Greatest(keys: set<int>, from: int) returns (greatest: int)
    requires from in keys
    ensures greatest in keys && forall k :: k in keys ==> k <= greatest
    decreases |set k | k in keys && k > from|
  {
    greatest := from;
    if k :| k in keys && k > from {
      var above := set l | l in keys && l > from;
      assert k in above;
      Included((set l | l in keys && l > k), above - {k});
      greatest := Greatest(keys, k);
    }
  }

  lemma {:induction false} Least(keys: set<int>, from: int) returns (least: int)
    requires from in keys
    ensures least in keys && forall k :: k in keys ==> least <= k
    decreases |set k | k in keys && k < from|
  {
    least := from;
    if k :| k in keys && k < from {
      var below := set l | l in keys && l < from;
      assert k in below;
      Included((set l | l in keys && l < k), below - {k});
      least := Least(keys, k);
    }
  }
}
