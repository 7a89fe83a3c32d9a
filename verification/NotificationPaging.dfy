/**
 * Reading an append-only notification log page by page (`read_notification_page`) while publishers keep adding
 * to it (`NotificationRepository.publish`). The token of a page carries the number of events it was based on.
 */
module NotificationPaging {
  import opened Arith
  import opened Dicts
  import opened Sorting
  import opened NotificationClaims
  import opened NotificationCursor

  datatype Event = Event(occurredAt: Instant, id: EventId)

  /** `ORDER BY occurred_at DESC, event_id DESC` */
  function Newer(): (Event, Event) -> bool {
    (a: Event, b: Event) => a.occurredAt > b.occurredAt || (a.occurredAt == b.occurredAt && a.id > b.id)
  }

  /** What a dedupe key was published with: the event, and the review, draft, command or audit it is about. */
  datatype Source = Source(event: Event, refs: string)

  /** The events in the order of insertion, and the dedupe keys under which they were published. */
  datatype Log = Log(events: seq<Event>, keys: map<string, Source>)

  ghost predicate ValidLog(log: Log) {
    && (forall i, j :: 0 <= i < j < |log.events| ==> log.events[i].id != log.events[j].id)
    && (forall i :: 0 <= i < |log.events| ==> log.events[i].id != 0)
    && (forall k :: k in log.keys ==> log.keys[k].event in log.events)
    && |log.events| <= MAX_COUNT
  }

  /** A repeated source event keeps its original id and time; a new one gets a fresh id. */
  function Published(log: Log, key: string, source: Source): Log {
    if key in log.keys then log else Log(log.events + [source.event], log.keys[key := source])
  }

  /** The primary key of the table, and the width of its count. */
  ghost predicate CanPublish(log: Log, key: string, event: Event) {
    key in log.keys || (event.id != 0 && (forall e :: e in log.events ==> e.id != event.id) && |log.events| < MAX_COUNT)
  }

  class Repository {
    var log: Log

    ghost predicate Valid()
      reads this
    {
      ValidLog(log)
    }

    constructor ()
      ensures Valid() && log == Log([], map[])
    {
      log := Log([], map[]);
    }

    /**
     * The publisher gets back the stored event, whether it is new or not, unless the key is known with other
     * references: that is an error, and the log stays as it is.
     */
    method Publish(key: string, source: Source) returns (stored: Option<Event>)
      requires Valid() && CanPublish(log, key, source.event)
      modifies this
      ensures Valid() && log == Published(old(log), key, source)
      ensures stored.None? <==> key in old(log).keys && old(log).keys[key].refs != source.refs
      ensures stored.Some? ==> key in log.keys && log.keys[key] == Source(stored.value, source.refs)
      ensures stored.Some? ==> stored.value in log.events
      ensures old(log).events <= log.events
    {
      if key in log.keys {
        if log.keys[key].refs != source.refs {
          return None;
        }
        stored := Some(log.keys[key].event);
      } else {
        log := Log(log.events + [source.event], log.keys[key := source]);
        stored := Some(source.event);
        assert log.events[|log.events| - 1] == source.event;
      }
    }
  }

  /** The whole log, newest first. */
  function Listing(events: seq<Event>): seq<Event> {
    Sort(events, Newer())
  }

  /** The rows below a position in a listing. */
  function Below(listing: seq<Event>, after: Event): seq<Event> {
    if listing == [] then [] else
      Below(listing[..|listing| - 1], after) +
        if Newer()(after, listing[|listing| - 1]) then [listing[|listing| - 1]] else []
  }

  function Limited(rows: seq<Event>, n: nat): seq<Event> {
    if |rows| <= n then rows else rows[..n]
  }

  /** The statement of a page: the count of all events, and up to limit + 1 of them. */
  function Query(log: Log, after: Option<Event>, n: nat): seq<Event> {
    Limited(if after.None? then Listing(log.events) else Below(Listing(log.events), after.value), n)
  }

  /** Page tokens of one reader, as the codec issues and parses them under its scope and limit. */
  datatype Tokens = Tokens(issue: Position -> string, parse: string -> Option<Position>)

  ghost predicate Lossless(t: Tokens) {
    forall p :: ValidPosition(p) ==> t.parse(t.issue(p)) == Some(p)
  }

  function TokensOf(c: Codec, scope: Scope, limit: int): Tokens {
    Tokens(p => Issue(c, scope, limit, p), (token: string) => Parse(c, token, scope, limit))
  }

  /** The tokens of the service lose no position. */
  lemma ServiceTokensLossless(c: Codec, scope: Scope, limit: int)
    requires Sane(c) && ValidScope(scope) && 1 <= limit <= 100
    ensures Lossless(TokensOf(c, scope, limit))
  {
    var t := TokensOf(c, scope, limit);
    forall p | ValidPosition(p) ensures t.parse(t.issue(p)) == Some(p) {
      IssuedIsParsed(c, scope, limit, p);
    }
  }

  datatype Page = Page(events: seq<Event>, next: Option<string>)

  datatype Answer = Success(page: Page) | Invalid | Conflict

  /** Run the statement, refuse a stale count, issue the next token. */
  function ReadAt(t: Tokens, log: Log, limit: nat, position: Option<Position>): Answer
    requires 1 <= limit <= 100
  {
    var after := if position.None? then None else Some(Event(position.value.occurredAt, position.value.eventId));
    var rows := Query(log, after, limit + 1);
    if position.Some? && position.value.count != |log.events| then Conflict else
      var selected := Limited(rows, limit);
      if |rows| <= limit then Success(Page(selected, None)) else
        var last := selected[|selected| - 1];
        Success(Page(selected, Some(t.issue(Position(|log.events|, last.occurredAt, last.id)))))
  }

  /** One call: a token that does not parse is refused before anything is read. */
  function ReadPage(t: Tokens, log: Log, limit: nat, cursor: Option<string>): Answer
    requires 1 <= limit <= 100
  {
    if cursor.None? then ReadAt(t, log, limit, None) else
      match t.parse(cursor.value)
      case None => Invalid
      case Some(position) => ReadAt(t, log, limit, Some(position))
  }

  // ---- A chain of pages among publishers ----

  /** What one reader has so far. `base` is the log at its first page. */
  datatype Reader =
    | Fresh
    | Reading(base: seq<Event>, collected: seq<Event>, cursor: string)
    | Complete(base: seq<Event>, collected: seq<Event>)
    | Stopped(answer: Answer)

  datatype World = World(log: Log, reader: Reader)

  datatype Action = Publish(key: string, source: Source) | Read

  function AfterPage(base: seq<Event>, collected: seq<Event>, answer: Answer): Reader {
    match answer
    case Success(page) =>
      if page.next.None? then Complete(base, collected + page.events)
      else Reading(base, collected + page.events, page.next.value)
    case _ => Stopped(answer)
  }

  function Step(t: Tokens, limit: nat, w: World, a: Action): World
    requires 1 <= limit <= 100
  {
    match a
    case Publish(key, source) => w.(log := Published(w.log, key, source))
    case Read =>
      match w.reader
      case Fresh => w.(reader := AfterPage(w.log.events, [], ReadPage(t, w.log, limit, None)))
      case Reading(base, collected, cursor) =>
        w.(reader := AfterPage(base, collected, ReadPage(t, w.log, limit, Some(cursor))))
      case _ => w
  }

  function Run(t: Tokens, limit: nat, w: World, actions: seq<Action>): World
    requires 1 <= limit <= 100
  {
    if actions == [] then w
    else Step(t, limit, Run(t, limit, w, actions[..|actions| - 1]), actions[|actions| - 1])
  }

  ghost predicate Admissible(t: Tokens, limit: nat, w: World, actions: seq<Action>)
    requires 1 <= limit <= 100
  {
    actions == [] || (
      && Admissible(t, limit, w, actions[..|actions| - 1])
      && (actions[|actions| - 1].Publish? ==>
           CanPublish(Run(t, limit, w, actions[..|actions| - 1]).log,
             actions[|actions| - 1].key, actions[|actions| - 1].source.event)))
  }

  const EMPTY := World(Log([], map[]), Fresh)

  lemma NewerOrder()
    ensures StrictOrder(Newer())
  {
  }

  lemma ListingOrder(events: seq<Event>)
    requires forall i, j :: 0 <= i < j < |events| ==> events[i].id != events[j].id
    ensures Ascending(Listing(events), Newer()) && Distinct(Listing(events)) && |Listing(events)| == |events|
    ensures forall e :: e in Listing(events) <==> e in events
  {
    NewerOrder();
    SortSorts(events, Newer());
  }

  /** Below the n-th row of a listing there is exactly the rest of the listing. */
  lemma {:induction false} BelowIsRest(listing: seq<Event>, n: nat)
    requires Ascending(listing, Newer()) && 0 < n <= |listing|
    ensures Below(listing, listing[n - 1]) == listing[n..]
  {
    var front, last := listing[..|listing| - 1], listing[|listing| - 1];
    if n == |listing| {
      NothingBelow(front, listing[n - 1]);
      assert listing[n..] == [];
    } else {
      BelowIsRest(front, n);
      assert Newer()(listing[n - 1], last);
      assert listing[n..] == front[n..] + [last];
    }
  }

  lemma {:induction false} NothingBelow(listing: seq<Event>, after: Event)
    requires forall i :: 0 <= i < |listing| ==> Newer()(listing[i], after)
    ensures Below(listing, after) == []
  {
    if listing != [] {
      NothingBelow(listing[..|listing| - 1], after);
      assert Newer()(listing[|listing| - 1], after);
    }
  }

  /** The reader has a prefix of the listing of its base, and a token for the next page of that same listing. */
  ghost predicate OnTrack(t: Tokens, limit: nat, w: World) {
    && ValidLog(w.log)
    && match w.reader
       case Fresh => true
       case Reading(base, collected, cursor) =>
         && base <= w.log.events
         && 0 < |collected| < |base| && collected <= Listing(base)
         && cursor == t.issue(TokenPosition(base, collected))
       case Complete(base, collected) => base <= w.log.events && collected == Listing(base)
       case Stopped(_) => true
  }

  function TokenPosition(base: seq<Event>, collected: seq<Event>): Position
    requires collected != []
  {
    var last := collected[|collected| - 1];
    Position(|base|, last.occurredAt, last.id)
  }

  /** The position of row n - 1 of a listing, none for the top. */
  function PositionAt(events: seq<Event>, listing: seq<Event>, n: nat): Option<Position>
    requires n <= |listing|
  {
    if n == 0 then None else Some(Position(|events|, listing[n - 1].occurredAt, listing[n - 1].id))
  }

  /** The statement finds the rows of the listing from row n on. */
  lemma QueryIsRest(log: Log, listing: seq<Event>, n: nat, m: nat)
    requires ValidLog(log) && listing == Listing(log.events) && n <= |listing|
    ensures var p := PositionAt(log.events, listing, n);
      Query(log, if p.None? then None else Some(Event(p.value.occurredAt, p.value.eventId)), m) ==
        Limited(listing[n..], m)
  {
    ListingOrder(log.events);
    if n > 0 {
      BelowIsRest(listing, n);
      assert Event(listing[n - 1].occurredAt, listing[n - 1].id) == listing[n - 1];
    } else {
      assert listing[0..] == listing;
    }
  }

  /** One page of the listing from row n on, and the reader's state after it. */
  lemma PageOfListing(t: Tokens, log: Log, listing: seq<Event>, limit: nat, n: nat)
    requires ValidLog(log) && 1 <= limit <= 100 && listing == Listing(log.events) && n <= |listing| == |log.events|
    ensures var after := AfterPage(log.events, listing[..n],
        ReadAt(t, log, limit, PositionAt(log.events, listing, n)));
      && !after.Stopped? && !after.Fresh?
      && after.base == log.events && after.collected == Limited(listing, n + limit)
      && (after.Complete? <==> |listing| <= n + limit)
      && (after.Reading? ==> after.cursor == t.issue(TokenPosition(log.events, after.collected)))
  {
    var rows := Limited(listing[n..], limit + 1);
    AnswerOf(t, log, listing, limit, n, rows);
    if |listing| <= n + limit {
      RestFits(listing, n, limit);
    } else {
      RestIsCut(listing, n, limit);
      LastOfPage(listing, n, limit);
    }
  }

  /** The answer to a position of the listing, by the rows that the statement finds. */
  lemma AnswerOf(t: Tokens, log: Log, listing: seq<Event>, limit: nat, n: nat, rows: seq<Event>)
    requires ValidLog(log) && 1 <= limit <= 100 && listing == Listing(log.events) && n <= |listing|
    requires rows == Limited(listing[n..], limit + 1)
    ensures var selected := Limited(rows, limit);
      ReadAt(t, log, limit, PositionAt(log.events, listing, n)) == Success(Page(selected,
        if |rows| <= limit then None else Some(t.issue(TokenPosition(log.events, selected)))))
  {
    QueryIsRest(log, listing, n, limit + 1);
  }

  lemma LastOfPage(listing: seq<Event>, n: nat, limit: nat)
    requires n + limit < |listing| && limit > 0
    ensures listing[..n + limit][n + limit - 1] == Limited(Limited(listing[n..], limit + 1), limit)[limit - 1]
  {
  }

  lemma RestFits(listing: seq<Event>, n: nat, limit: nat)
    requires n <= |listing| <= n + limit
    ensures var rows := Limited(listing[n..], limit + 1);
      |rows| <= limit && listing[..n] + Limited(rows, limit) == listing
  {
  }

  lemma RestIsCut(listing: seq<Event>, n: nat, limit: nat)
    requires n + limit < |listing| && limit > 0
    ensures var rows := Limited(listing[n..], limit + 1);
      && |rows| > limit && |Limited(rows, limit)| == limit
      && listing[..n] + Limited(rows, limit) == listing[..n + limit]
      && Limited(rows, limit)[limit - 1] == listing[n + limit - 1]
  {
  }

  lemma FirstPage(t: Tokens, limit: nat, w: World)
    requires 1 <= limit <= 100 && ValidLog(w.log) && w.reader.Fresh?
    ensures var w' := Step(t, limit, w, Read);
      && OnTrack(t, limit, w') && !w'.reader.Stopped? && !w'.reader.Fresh?
      && w'.reader.base == w.log.events && w'.reader.collected == Limited(Listing(w.log.events), limit)
      && (w'.reader.Complete? <==> |w.log.events| <= limit)
  {
    var listing := Listing(w.log.events);
    ListingOrder(w.log.events);
    PageOfListing(t, w.log, listing, limit, 0);
    assert listing[..0] == [];
  }

  /** The token of a reader on track stands for its last row. */
  lemma TokenParses(t: Tokens, limit: nat, w: World)
    requires Lossless(t) && 1 <= limit <= 100 && OnTrack(t, limit, w) && w.reader.Reading?
    ensures |w.reader.collected| <= |Listing(w.reader.base)|
    ensures t.parse(w.reader.cursor) ==
      PositionAt(w.reader.base, Listing(w.reader.base), |w.reader.collected|)
  {
    var base, collected := w.reader.base, w.reader.collected;
    var p := TokenPosition(base, collected);
    ListingOrder(base);
    assert collected[|collected| - 1] == Listing(base)[|collected| - 1];
    assert collected[|collected| - 1] in base;
    assert t.parse(t.issue(p)) == Some(p);
  }

  lemma NextPage(t: Tokens, limit: nat, w: World)
    requires Lossless(t) && 1 <= limit <= 100 && OnTrack(t, limit, w)
    requires w.reader.Reading? && w.log.events == w.reader.base
    ensures var w' := Step(t, limit, w, Read);
      && OnTrack(t, limit, w') && !w'.reader.Stopped? && !w'.reader.Fresh?
      && w'.reader.base == w.reader.base
      && w'.reader.collected == Limited(Listing(w.reader.base), |w.reader.collected| + limit)
      && (w'.reader.Complete? <==> |w.reader.base| <= |w.reader.collected| + limit)
  {
    var listing, n := Listing(w.reader.base), |w.reader.collected|;
    ListingOrder(w.reader.base);
    TokenParses(t, limit, w);
    assert w.reader.collected == listing[..n];
    PageOfListing(t, w.log, listing, limit, n);
  }

  lemma StalePage(t: Tokens, limit: nat, w: World)
    requires Lossless(t) && 1 <= limit <= 100 && OnTrack(t, limit, w) && w.reader.Reading?
    requires |w.log.events| != |w.reader.base|
    ensures Step(t, limit, w, Read).reader == Stopped(Conflict)
  {
    ListingOrder(w.reader.base);
    TokenParses(t, limit, w);
  }

  /** The next page is refused exactly when events have been added since the first one, and then as a conflict. */
  lemma RefusedExactlyWhenStale(t: Tokens, limit: nat, w: World)
    requires Lossless(t) && 1 <= limit <= 100 && OnTrack(t, limit, w) && w.reader.Reading?
    ensures var after := Step(t, limit, w, Read).reader;
      && (after.Stopped? <==> w.log.events != w.reader.base)
      && (after.Stopped? ==> after.answer == Conflict)
  {
    if |w.log.events| == |w.reader.base| {
      assert w.log.events == w.reader.base;
      NextPage(t, limit, w);
    } else {
      StalePage(t, limit, w);
    }
  }

  lemma ReadKeepsTrack(t: Tokens, limit: nat, w: World)
    requires Lossless(t) && 1 <= limit <= 100 && OnTrack(t, limit, w)
    ensures OnTrack(t, limit, Step(t, limit, w, Read))
  {
    if w.reader.Fresh? {
      FirstPage(t, limit, w);
    } else if w.reader.Reading? {
      if |w.log.events| != |w.reader.base| {
        StalePage(t, limit, w);
      } else {
        assert w.log.events == w.reader.base;
        NextPage(t, limit, w);
      }
    }
  }

  lemma PublishKeepsTrack(t: Tokens, limit: nat, w: World, key: string, source: Source)
    requires OnTrack(t, limit, w) && CanPublish(w.log, key, source.event)
    ensures OnTrack(t, limit, w.(log := Published(w.log, key, source)))
  {
    var after := Published(w.log, key, source);
    assert w.log.events <= after.events;
    if key !in w.log.keys {
      assert after.events[|after.events| - 1] == source.event;
      forall k | k in after.keys ensures after.keys[k].event in after.events { }
    }
  }

  /**
   * In every interleaving of publishers and one reader: what has been collected is a prefix of the descending
   * listing of one set of events, the log as it was at the first page; a completed chain has that whole listing.
   */
  lemma {:induction false} ChainsAreSnapshots(t: Tokens, limit: nat, actions: seq<Action>)
    requires Lossless(t) && 1 <= limit <= 100 && Admissible(t, limit, EMPTY, actions)
    ensures OnTrack(t, limit, Run(t, limit, EMPTY, actions))
  {
    if actions != [] {
      var front, a := actions[..|actions| - 1], actions[|actions| - 1];
      ChainsAreSnapshots(t, limit, front);
      var w := Run(t, limit, EMPTY, front);
      match a
      case Publish(key, source) =>
        PublishKeepsTrack(t, limit, w, key, source);
      case Read =>
        ReadKeepsTrack(t, limit, w);
    }
  }

  /** Later events come first; of two events of one instant, the one with the larger id. */
  predicate ListedBefore(a: Event, b: Event) {
    a.occurredAt > b.occurredAt || (a.occurredAt == b.occurredAt && a.id > b.id)
  }

  /** A token is refused as invalid, before anything is read, exactly when it was issued for no valid position. */
  lemma InvalidExactlyWhenNotIssued(c: Codec, scope: Scope, log: Log, limit: nat, token: string)
    requires Sane(c) && ValidScope(scope) && 1 <= limit <= 100
    ensures ReadPage(TokensOf(c, scope, limit), log, limit, Some(token)) == Invalid <==>
      forall p :: ValidPosition(p) ==> token != Issue(c, scope, limit, p)
  {
    InvalidMeansUnread(TokensOf(c, scope, limit), log, limit, token);
    ParsesExactlyWhenIssued(c, scope, limit, token);
  }

  lemma InvalidMeansUnread(t: Tokens, log: Log, limit: nat, token: string)
    requires 1 <= limit <= 100
    ensures ReadPage(t, log, limit, Some(token)) == Invalid <==> t.parse(token) == None
  {
  }

  lemma ParsesExactlyWhenIssued(c: Codec, scope: Scope, limit: int, token: string)
    requires Sane(c) && ValidScope(scope) && 1 <= limit <= 100
    ensures Parse(c, token, scope, limit).Some? <==>
      exists p :: ValidPosition(p) && token == Issue(c, scope, limit, p)
  {
    if Parse(c, token, scope, limit).Some? {
      ParsedWasIssued(c, token, scope, limit);
    }
    if p :| ValidPosition(p) && token == Issue(c, scope, limit, p) {
      IssuedIsParsed(c, scope, limit, p);
    }
  }

  /** A complete chain lists every event of its base exactly once, newest first, and nothing else. */
  lemma CompleteListsOnce(t: Tokens, limit: nat, w: World)
    requires OnTrack(t, limit, w) && w.reader.Complete?
    ensures var r := w.reader;
      && (forall e :: e in r.collected <==> e in r.base)
      && |r.collected| == |r.base|
      && forall i, j :: 0 <= i < j < |r.collected| ==> ListedBefore(r.collected[i], r.collected[j])
  {
    ListingOrder(w.reader.base);
    forall i, j | 0 <= i < j < |w.reader.collected| ensures ListedBefore(w.reader.collected[i], w.reader.collected[j]) {
      assert Newer()(w.reader.collected[i], w.reader.collected[j]);
    }
  }

  /** A new event between two pages: the next page is refused, it neither skips nor repeats. */
  lemma NewEventStopsChain(t: Tokens, limit: nat, w: World, key: string, source: Source)
    requires Lossless(t) && 1 <= limit <= 100 && OnTrack(t, limit, w)
    requires CanPublish(w.log, key, source.event) && w.reader.Reading? && key !in w.log.keys
    ensures var w' := Step(t, limit, w, Publish(key, source));
      Step(t, limit, w', Read).reader == Stopped(Conflict)
  {
    PublishKeepsTrack(t, limit, w, key, source);
    StalePage(t, limit, Step(t, limit, w, Publish(key, source)));
  }

  function Reads(n: nat): seq<Action> {
    if n == 0 then [] else Reads(n - 1) + [Read]
  }

  /** The first m events have arrived, and the chain is complete exactly if that is all. */
  ghost predicate Arrived(t: Tokens, limit: nat, log: Log, w: World, m: nat) {
    && w.log == log && OnTrack(t, limit, w) && !w.reader.Stopped? && !w.reader.Fresh?
    && w.reader.base == log.events && w.reader.collected == Limited(Listing(log.events), m)
    && (w.reader.Complete? <==> |log.events| <= m)
  }

  lemma QuietPage(t: Tokens, limit: nat, log: Log, w: World, m: nat)
    requires Lossless(t) && 1 <= limit <= 100
    requires Arrived(t, limit, log, w, m)
    ensures Arrived(t, limit, log, Step(t, limit, w, Read), m + limit)
  {
    ListingOrder(log.events);
    if w.reader.Reading? {
      assert w.reader.collected[|w.reader.collected| - 1] in Listing(log.events);
      NextPage(t, limit, w);
    }
  }

  /** How many events n pages bring. */
  function Brought(n: nat, limit: nat): nat {
    if n == 0 then 0 else Brought(n - 1, limit) + limit
  }

  lemma {:induction false} BroughtClosed(n: nat, limit: nat)
    requires limit > 0
    ensures Brought(n, limit) == n * limit >= n
  {
    if n > 0 {
      BroughtClosed(n - 1, limit);
      Distribute(n, 1, limit);
    }
  }

  /** With no new events, n pages have brought the first n * limit events. */
  lemma {:induction false} QuietChainAdvances(t: Tokens, limit: nat, log: Log, n: nat)
    requires Lossless(t) && 1 <= limit <= 100 && ValidLog(log) && n > 0
    ensures Arrived(t, limit, log, Run(t, limit, World(log, Fresh), Reads(n)), Brought(n, limit))
  {
    if n == 1 {
      QuietStart(t, limit, log);
    } else {
      QuietChainAdvances(t, limit, log, n - 1);
      QuietChainGoesOn(t, limit, log, n);
    }
  }

  /** A quiet chain is complete as soon as its pages have room for all events, and has then listed them all. */
  lemma QuietChainTerminates(t: Tokens, limit: nat, log: Log, n: nat)
    requires Lossless(t) && 1 <= limit <= 100 && ValidLog(log) && n > 0
    ensures var r := Run(t, limit, World(log, Fresh), Reads(n)).reader;
      && (r.Complete? <==> |log.events| <= n * limit)
      && (r.Complete? ==> r.collected == Listing(log.events))
  {
    QuietChainAdvances(t, limit, log, n);
    BroughtClosed(n, limit);
  }

  lemma OneMoreRead(t: Tokens, limit: nat, w: World, n: nat)
    requires 1 <= limit <= 100 && n > 0
    ensures Run(t, limit, w, Reads(n)) == Step(t, limit, Run(t, limit, w, Reads(n - 1)), Read)
  {
    assert Reads(n)[..|Reads(n)| - 1] == Reads(n - 1);
  }

  lemma QuietChainGoesOn(t: Tokens, limit: nat, log: Log, n: nat)
    requires Lossless(t) && 1 <= limit <= 100 && n > 1
    requires Arrived(t, limit, log, Run(t, limit, World(log, Fresh), Reads(n - 1)), Brought(n - 1, limit))
    ensures Arrived(t, limit, log, Run(t, limit, World(log, Fresh), Reads(n)), Brought(n, limit))
  {
    OneMoreRead(t, limit, World(log, Fresh), n);
    QuietPage(t, limit, log, Run(t, limit, World(log, Fresh), Reads(n - 1)), Brought(n - 1, limit));
  }

  lemma QuietStart(t: Tokens, limit: nat, log: Log)
    requires 1 <= limit <= 100 && ValidLog(log)
    ensures Arrived(t, limit, log, Run(t, limit, World(log, Fresh), Reads(1)), Brought(1, limit))
  {
    assert Brought(1, limit) == Brought(0, limit) + limit == limit;
    OneMoreRead(t, limit, World(log, Fresh), 1);
    FirstPage(t, limit, World(log, Fresh));
  }
}
