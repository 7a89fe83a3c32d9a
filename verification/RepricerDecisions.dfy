/**
 * Exactly when the executor does what: every way an execution can end, traced back to the article, the options, the
 * settings, the stored samples and entries, and the answers of the others.
 */
module RepricerDecisions {
  import opened Arith
  import opened Dicts
  import opened NightWindow
  import opened PriceClamp
  import opened RepricerExecution

  /** The article may be repriced now. */
  predicate MayRun(a: Article, o: Options, s: Settings, x: Others, log: Changelog, now: int) {
    && a.hasNmId && a.frontend != NoStrategy
    && (o.force || (a.automation && a.status == Auto))
    && (o.force || a.frontend == Illiquid || a.explicitStrategy)
    && (o.force || a.frontend == Illiquid || !TooEarly(a, o, x, log, now))
    && (a.frontend == Illiquid || !a.nightEnabled || !(s.nightMode && s.collecting && Open(s.hours, now)))
  }

  /** A stored change is younger than five minutes or than the interval of the article, and this may be another. */
  predicate TooEarly(a: Article, o: Options, x: Others, log: Changelog, now: int) {
    && (o.createDrafts || o.applyPrices || o.simulateLocalPrice)
    && x.storage.changelogRead && a.sku in log
    && (now < log[a.sku] + 5 || now < log[a.sku] + a.intervalMinutes)
  }

  /** The window looked back to has samples of the article and no mark of it. */
  predicate CorrectionOpen(a: Article, s: Settings, x: Others, windows: Windows, now: int) {
    var key := PreviousKey(s.hours, now);
    && x.organization && a.nightEnabled && a.sku != "" && a.baskets != None
    && !(s.nightMode && s.collecting && Open(s.hours, now))
    && x.storage.cacheRead && key in windows && a.sku !in windows[key].applied
    && a.sku in windows[key].samples && windows[key].samples[a.sku] != []
  }

  /** An open correction takes over from the other strategies, but not from liquidation. */
  predicate AtNight(a: Article, s: Settings, x: Others, windows: Windows, now: int) {
    a.frontend != Illiquid && CorrectionOpen(a, s, x, windows, now)
  }

  /** The night strategy without anything to correct. */
  predicate NothingToCorrect(a: Article, s: Settings, x: Others, windows: Windows, now: int) {
    a.frontend == NightMode && !CorrectionOpen(a, s, x, windows, now)
  }

  /** The price that follows from an advice; a guard that was not asked yet must agree to it. */
  predicate LeadsTo(a: Article, s: Settings, x: Others, advice: Advice, price: int)
    requires ValidLimits(s.limits)
  {
    && advice.Recommend? && price != a.price
    && if advice.guardChecked then price == advice.price else
         && advice.price != a.price && x.round(advice.price) != a.price
         && price == Clamped(a.price, x.round(advice.price), a.band, s.limits) && x.guardAllows(price)
  }

  /** Drafts are wanted and possible. */
  predicate DraftOpen(o: Options, x: Others, price: int) {
    o.createDrafts && !(o.applyPrices && x.inRun && x.rateLimited) && x.draftOpen(price)
  }

  /** The switch of the settings that applies night corrections without asking. */
  predicate AppliesAtNight(a: Article, s: Settings, x: Others, windows: Windows, now: int) {
    s.nightAutoApply && AtNight(a, s, x, windows, now)
  }

  /** Everything up to the draft allows this price. */
  predicate Drafted(
    a: Article, o: Options, s: Settings, x: Others, windows: Windows, log: Changelog, now: int, price: int)
    requires ValidLimits(s.limits)
  {
    && MayRun(a, o, s, x, log, now) && !NothingToCorrect(a, s, x, windows, now)
    && LeadsTo(a, s, x, x.advice(AtNight(a, s, x, windows, now)), price) && DraftOpen(o, x, price)
  }

  lemma RunsExactly(a: Article, o: Options, s: Settings, x: Others, log: Changelog, now: int)
    ensures SkippedEarly(a, o, s, x, log, now) <==> !MayRun(a, o, s, x, log, now)
  {
  }

  lemma PayloadExactly(a: Article, s: Settings, x: Others, windows: Windows, now: int)
    ensures NightPayload(a, s, x, windows, now) ==
      if CorrectionOpen(a, s, x, windows, now) then Some(PreviousKey(s.hours, now)) else None
    ensures RunsNight(a, s, x, windows, now) <==>
      AtNight(a, s, x, windows, now) || NothingToCorrect(a, s, x, windows, now)
  {
  }

  lemma RecommendsExactly(a: Article, s: Settings, x: Others, night: bool, price: int)
    requires ValidLimits(s.limits)
    ensures Recommended(a, s, x, night) == Price(price) <==> LeadsTo(a, s, x, x.advice(night), price)
  {
  }

  /** The night strategy never runs with an open correction unless the article is night-enabled and not illiquid. */
  lemma DecidedAs(
    a: Article, o: Options, s: Settings, x: Others, windows: Windows, log: Changelog, now: int, price: int)
    requires ValidLimits(s.limits) && MayRun(a, o, s, x, log, now) && !NothingToCorrect(a, s, x, windows, now)
    requires LeadsTo(a, s, x, x.advice(AtNight(a, s, x, windows, now)), price)
    ensures var night := AtNight(a, s, x, windows, now);
      Decide(a, o, s, x, windows, log, now) ==
        Settled(a, o, s, x, night, if night then Some(PreviousKey(s.hours, now)) else None, price)
  {
    RunsExactly(a, o, s, x, log, now);
    PayloadExactly(a, s, x, windows, now);
    RecommendsExactly(a, s, x, AtNight(a, s, x, windows, now), price);
  }

  lemma PricedMeans(
    a: Article, o: Options, s: Settings, x: Others, windows: Windows, log: Changelog, now: int, price: int)
    requires ValidLimits(s.limits)
    requires Decide(a, o, s, x, windows, log, now).Priced? && Decide(a, o, s, x, windows, log, now).price == price
    ensures MayRun(a, o, s, x, log, now) && !NothingToCorrect(a, s, x, windows, now)
    ensures LeadsTo(a, s, x, x.advice(AtNight(a, s, x, windows, now)), price)
  {
    RunsExactly(a, o, s, x, log, now);
    PayloadExactly(a, s, x, windows, now);
    RecommendsExactly(a, s, x, AtNight(a, s, x, windows, now), price);
  }

  /**
   * A price is uploaded exactly when the article may run, its strategy leads to that price, the draft is open, it is
   * approved and to be applied, and the job makes the upload.
   */
  lemma UploadedExactly(
    a: Article, o: Options, s: Settings, x: Others, windows: Windows, log: Changelog, now: int, price: int)
    requires ValidLimits(s.limits)
    ensures var outcome := Decide(a, o, s, x, windows, log, now);
      Uploaded(outcome) && outcome.price == price <==>
        && Drafted(a, o, s, x, windows, log, now, price)
        && ((o.autoApprove && o.applyPrices) || AppliesAtNight(a, s, x, windows, now))
        && (x.job == Accepted || x.job == Sent || x.job == Stopped(true))
  {
    Forth(a, o, s, x, windows, log, now, price);
  }

  /** A price waits for approval exactly when nobody has approved it and the run keeps a list of such prices. */
  lemma QueuedExactly(
    a: Article, o: Options, s: Settings, x: Others, windows: Windows, log: Changelog, now: int, price: int)
    requires ValidLimits(s.limits)
    ensures var outcome := Decide(a, o, s, x, windows, log, now);
      outcome.Priced? && outcome.end == Queued && outcome.price == price <==>
        && Drafted(a, o, s, x, windows, log, now, price)
        && !o.autoApprove && !AppliesAtNight(a, s, x, windows, now) && x.inRun
  {
    Forth(a, o, s, x, windows, log, now, price);
  }

  /** A price with a window is a night correction, for the window looked back to. */
  lemma WindowExactly(a: Article, o: Options, s: Settings, x: Others, windows: Windows, log: Changelog, now: int)
    requires ValidLimits(s.limits) && Decide(a, o, s, x, windows, log, now).Priced?
    ensures Decide(a, o, s, x, windows, log, now).window ==
      if AtNight(a, s, x, windows, now) then Some(PreviousKey(s.hours, now)) else None
  {
    PayloadExactly(a, s, x, windows, now);
  }

  lemma Forth(
    a: Article, o: Options, s: Settings, x: Others, windows: Windows, log: Changelog, now: int, price: int)
    requires ValidLimits(s.limits)
    ensures var outcome, night := Decide(a, o, s, x, windows, log, now), AtNight(a, s, x, windows, now);
      var window := if night then Some(PreviousKey(s.hours, now)) else None;
      if MayRun(a, o, s, x, log, now) && !NothingToCorrect(a, s, x, windows, now)
        && LeadsTo(a, s, x, x.advice(night), price)
      then outcome == Settled(a, o, s, x, night, window, price)
      else !(outcome.Priced? && outcome.price == price)
  {
    var outcome := Decide(a, o, s, x, windows, log, now);
    if outcome.Priced? && outcome.price == price {
      PricedMeans(a, o, s, x, windows, log, now, price);
    }
    if MayRun(a, o, s, x, log, now) && !NothingToCorrect(a, s, x, windows, now)
      && LeadsTo(a, s, x, x.advice(AtNight(a, s, x, windows, now)), price) {
      DecidedAs(a, o, s, x, windows, log, now, price);
    }
  }

  /**
   * An execution that is skipped has been stopped by a guard in front of the strategies, by a strategy that refused,
   * or by a price that does not change.
   */
  lemma SkippedExactly(a: Article, o: Options, s: Settings, x: Others, windows: Windows, log: Changelog, now: int)
    requires ValidLimits(s.limits)
    ensures Decide(a, o, s, x, windows, log, now) == Skipped <==>
      || !MayRun(a, o, s, x, log, now) || NothingToCorrect(a, s, x, windows, now)
      || x.advice(AtNight(a, s, x, windows, now)) == Refuse
      || Unchanged(a, s, x, x.advice(AtNight(a, s, x, windows, now)))
  {
    RunsExactly(a, o, s, x, log, now);
    PayloadExactly(a, s, x, windows, now);
  }

  /** The advice, rounded and clamped unless the guards have seen it, is the price there is. */
  predicate Unchanged(a: Article, s: Settings, x: Others, advice: Advice)
    requires ValidLimits(s.limits)
  {
    && advice.Recommend?
    && (|| advice.price == a.price
        || (!advice.guardChecked && (
             || x.round(advice.price) == a.price
             || Clamped(a.price, x.round(advice.price), a.band, s.limits) == a.price)))
  }
}
