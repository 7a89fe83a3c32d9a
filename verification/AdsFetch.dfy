/**
 * `_request_ads_fullstats_payloads`: statistics of many campaigns over a long span. Spans are cut into windows of
 * at most 31 days; a batch the server calls invalid is halved until the offending campaigns stand alone.
 */
module AdsFetch {
  import opened Arith
  import opened Dicts

  datatype Window = Window(first: int, last: int)

  /** `_ads_fullstats_date_windows`, days as ordinals. */
  function Windows(first: int, last: int): seq<Window>
    decreases last - first
  {
    if first > last then [] else
      var end := if first + 30 < last then first + 30 else last;
      [Window(first, end)] + Windows(end + 1, last)
  }

  method DateWindows(first: int, last: int) returns (windows: seq<Window>)
    ensures windows == Windows(first, last)
  {
    windows := [];
    var current := first;
    while current <= last
      invariant windows + Windows(current, last) == Windows(first, last)
      decreases last - current
    {
      var end := if current + 30 < last then current + 30 else last;
      assert Windows(current, last) == [Window(current, end)] + Windows(end + 1, last);
      windows := windows + [Window(current, end)];
      current := end + 1;
    }
  }

  /** The windows are consecutive blocks of 1 to 31 days that begin at `first` and end at `last`. */
  lemma {:induction false} WindowsPartition(first: int, last: int)
    ensures var w := Windows(first, last);
      && (w == [] <==> first > last)
      && (w != [] ==> w[0].first == first && w[|w| - 1].last == last)
      && (forall i :: 0 <= i < |w| ==> 0 <= w[i].last - w[i].first <= 30)
      && (forall i :: 0 <= i < |w| - 1 ==> w[i].last + 1 == w[i + 1].first && w[i].last - w[i].first == 30)
    decreases last - first
  {
    if first <= last {
      WindowsPartition(if first + 30 < last then first + 31 else last + 1, last);
    }
  }

  /** Every day of the span lies in exactly one window. */
  lemma {:induction false} DayInOneWindow(first: int, last: int, day: int) returns (i: nat)
    requires first <= day <= last
    ensures var w := Windows(first, last);
      && i < |w| && w[i].first <= day <= w[i].last
      && forall j :: 0 <= j < |w| && w[j].first <= day <= w[j].last ==> j == i
    decreases last - first
  {
    var end := if first + 30 < last then first + 30 else last;
    WindowsAfter(end + 1, last);
    if day <= end {
      i := 0;
    } else {
      var j := DayInOneWindow(end + 1, last, day);
      i := j + 1;
    }
  }

  lemma {:induction false} WindowsAfter(first: int, last: int)
    ensures forall i :: 0 <= i < |Windows(first, last)| ==> first <= Windows(first, last)[i].first
    decreases last - first
  {
    if first <= last {
      WindowsAfter(if first + 30 < last then first + 31 else last + 1, last);
    }
  }

  // ---- Bisection ----

  /** How the server answers a batch: with its statistics, "invalid payload", or some other error. */
  datatype Answer = Stats | Invalid | Broken

  type Server = (seq<int>, Window) -> Answer

  /** The statistics of one accepted request: which campaigns, which window. */
  datatype Payload = Payload(ids: seq<int>, window: Window)

  /** Payloads and the number of requests; other errors end the whole call. */
  datatype Outcome = Fetched(payloads: seq<Payload>, requests: nat) | Raised

  function Join(a: Outcome, b: Outcome, spent: nat): Outcome {
    if a.Raised? || b.Raised? then Raised else Fetched(a.payloads + b.payloads, spent + a.requests + b.requests)
  }

  /** One window: accepted, skipped when a single campaign is refused, or halved. */
  function FetchWindow(server: Server, ids: seq<int>, window: Window): Outcome
    decreases |ids|
  {
    if ids == [] then Fetched([], 0) else
      match server(ids, window)
      case Stats => Fetched([Payload(ids, window)], 1)
      case Broken => Raised
      case Invalid =>
        if |ids| == 1 then Fetched([], 1) else
          var mid := |ids| / 2;
          Join(FetchWindow(server, ids[..mid], window), FetchWindow(server, ids[mid..], window), 1)
  }

  function FetchWindows(server: Server, ids: seq<int>, windows: seq<Window>): Outcome {
    if windows == [] then Fetched([], 0)
    else Join(FetchWindow(server, ids, windows[0]), FetchWindows(server, ids, windows[1..]), 0)
  }

  /** The whole call; a span of at most 31 days is asked for as it is. */
  function Fetch(server: Server, ids: seq<int>, first: int, last: int): Outcome {
    if ids == [] then Fetched([], 0)
    else if last - first > 30 then FetchWindows(server, ids, Windows(first, last))
    else FetchWindow(server, ids, Window(first, last))
  }

  ghost predicate HasBad(ids: seq<int>, bad: set<int>) {
    exists id :: id in ids && id in bad
  }

  /** The server refuses exactly the batches that contain a bad campaign. */
  ghost predicate RefusesBad(server: Server, bad: set<int>) {
    forall ids, window :: server(ids, window) == if HasBad(ids, bad) then Invalid else Stats
  }

  /** The campaigns that are not bad, in order. */
  function Good(ids: seq<int>, bad: set<int>): seq<int> {
    if ids == [] then [] else
      Good(ids[..|ids| - 1], bad) + if ids[|ids| - 1] in bad then [] else [ids[|ids| - 1]]
  }

  function BadCount(ids: seq<int>, bad: set<int>): nat {
    if ids == [] then 0 else BadCount(ids[..|ids| - 1], bad) + if ids[|ids| - 1] in bad then 1 else 0
  }

  /** The campaigns of a list of payloads, in order. */
  function Covered(payloads: seq<Payload>): seq<int> {
    if payloads == [] then [] else Covered(payloads[..|payloads| - 1]) + payloads[|payloads| - 1].ids
  }

  lemma {:induction false} GoodSplit(a: seq<int>, b: seq<int>, bad: set<int>)
    ensures Good(a + b, bad) == Good(a, bad) + Good(b, bad)
    ensures BadCount(a + b, bad) == BadCount(a, bad) + BadCount(b, bad)
  {
    if b == [] {
      assert a + b == a;
    } else {
      GoodSplit(a, b[..|b| - 1], bad);
      assert (a + b)[..|a + b| - 1] == a + b[..|b| - 1];
    }
  }

  lemma {:induction false} GoodAll(ids: seq<int>, bad: set<int>)
    ensures !HasBad(ids, bad) ==> Good(ids, bad) == ids
    ensures HasBad(ids, bad) ==> BadCount(ids, bad) > 0
  {
    if ids != [] {
      var front, last := ids[..|ids| - 1], ids[|ids| - 1];
      GoodAll(front, bad);
      assert ids == front + [last];
    }
  }

  lemma {:induction false} CoveredConcat(a: seq<Payload>, b: seq<Payload>)
    ensures Covered(a + b) == Covered(a) + Covered(b)
  {
    if b == [] {
      assert a + b == a;
    } else {
      var front, last := b[..|b| - 1], b[|b| - 1];
      CoveredConcat(a, front);
      assert (a + b)[..|a + b| - 1] == a + front && (a + b)[|a + b| - 1] == last;
      Regroup(Covered(a), Covered(front), last.ids);
    }
  }

  /** The number of halvings until one campaign is left. */
  function Halvings(n: nat): nat {
    if n <= 1 then 0 else 1 + Halvings((n + 1) / 2)
  }

  lemma {:induction false} HalvingsMonotone(m: nat, n: nat)
    requires m <= n
    ensures Halvings(m) <= Halvings(n)
    decreases n
  {
    if m > 1 {
      HalvingsMonotone((m + 1) / 2, (n + 1) / 2);
    }
  }

  lemma OneCampaign(ids: seq<int>, bad: set<int>)
    requires |ids| == 1 && HasBad(ids, bad)
    ensures Good(ids, bad) == []
  {
    assert Good(ids[..0], bad) == [];
  }

  lemma WholeBatch(ids: seq<int>, window: Window)
    ensures Covered([Payload(ids, window)]) == ids
  {
    assert [Payload(ids, window)][..0] == [];
  }

  /** One window returns every good campaign exactly once and in order, and no bad one. */
  lemma {:induction false} BisectionIsolates(server: Server, bad: set<int>, ids: seq<int>, window: Window)
    requires RefusesBad(server, bad)
    ensures var r := FetchWindow(server, ids, window);
      && r.Fetched? && Covered(r.payloads) == Good(ids, bad)
      && forall p :: p in r.payloads ==> p.window == window
    decreases |ids|
  {
    assert server(ids, window) == if HasBad(ids, bad) then Invalid else Stats;
    if ids != [] && HasBad(ids, bad) {
      if |ids| > 1 {
        var left, right := ids[..|ids| / 2], ids[|ids| / 2..];
        assert Good(ids, bad) == Good(left, bad) + Good(right, bad) by {
          assert ids == left + right;
          GoodSplit(left, right, bad);
        }
        BisectionIsolates(server, bad, left, window);
        BisectionIsolates(server, bad, right, window);
        CoveredConcat(FetchWindow(server, left, window).payloads, FetchWindow(server, right, window).payloads);
      } else {
        OneCampaign(ids, bad);
      }
    } else {
      GoodAll(ids, bad);
      WholeBatch(ids, window);
    }
  }

  /** Whatever is refused and why, halving costs at most 2n - 1 requests. */
  lemma {:induction false} RequestsLinear(server: Server, ids: seq<int>, window: Window)
    requires ids != [] && FetchWindow(server, ids, window).Fetched?
    ensures 1 <= FetchWindow(server, ids, window).requests <= 2 * |ids| - 1
    decreases |ids|
  {
    if server(ids, window) == Invalid && |ids| > 1 {
      RequestsLinear(server, ids[..|ids| / 2], window);
      RequestsLinear(server, ids[|ids| / 2..], window);
    }
  }

  /** One request, plus two for each halving around each bad campaign. */
  function RequestLimit(badCount: nat, n: nat): (limit: nat)
    ensures limit >= 1
  {
    if badCount == 0 then 1 else RequestLimit(badCount - 1, n) + 2 * Halvings(n)
  }

  lemma {:induction false} RequestLimitClosed(badCount: nat, n: nat)
    ensures RequestLimit(badCount, n) == 1 + 2 * (badCount * Halvings(n))
  {
    if badCount > 0 {
      RequestLimitClosed(badCount - 1, n);
      Distribute(badCount, 1, Halvings(n));
    }
  }

  /** Both halves are cheaper by one halving, and at least one of them has something to isolate. */
  lemma RequestBound(a: nat, b: nat, m: nat, n: nat)
    requires n > 1 && a + b >= 1 && m == n / 2
    ensures 1 + RequestLimit(a, m) + RequestLimit(b, n - m) <= RequestLimit(a + b, n)
  {
    var h := Halvings(n);
    HalvingsMonotone(m, (n + 1) / 2);
    HalvingsMonotone(n - m, (n + 1) / 2);
    Monotone(Halvings(m), h - 1, a);
    Monotone(Halvings(n - m), h - 1, b);
    Commute(a, Halvings(m));
    Commute(b, Halvings(n - m));
    Distribute(a, b, h);
    RequestLimitClosed(a, m);
    RequestLimitClosed(b, n - m);
    RequestLimitClosed(a + b, n);
    Distribute(h, 1, a);
    Distribute(h, 1, b);
    Commute(a, h);
    Commute(b, h);
  }

  /** A batch is either answered at once, or holds a bad campaign and is fetched as its halves. */
  lemma RequestsOfBatch(server: Server, bad: set<int>, ids: seq<int>, window: Window)
    requires RefusesBad(server, bad) && ids != []
    ensures forall part <- [ids, ids[..|ids| / 2], ids[|ids| / 2..]] :: FetchWindow(server, part, window).Fetched?
    ensures HasBad(ids, bad) && |ids| > 1 ==>
      FetchWindow(server, ids, window).requests ==
        1 + FetchWindow(server, ids[..|ids| / 2], window).requests
          + FetchWindow(server, ids[|ids| / 2..], window).requests
    ensures !(HasBad(ids, bad) && |ids| > 1) ==> FetchWindow(server, ids, window).requests == 1
  {
    assert server(ids, window) == if HasBad(ids, bad) then Invalid else Stats;
    BisectionIsolates(server, bad, ids, window);
    BisectionIsolates(server, bad, ids[..|ids| / 2], window);
    BisectionIsolates(server, bad, ids[|ids| / 2..], window);
  }

  lemma BadCountOfHalves(ids: seq<int>, bad: set<int>, mid: nat)
    requires mid <= |ids|
    ensures BadCount(ids, bad) == BadCount(ids[..mid], bad) + BadCount(ids[mid..], bad)
  {
    assert ids == ids[..mid] + ids[mid..];
    GoodSplit(ids[..mid], ids[mid..], bad);
  }

  lemma LimitOfHalves(ids: seq<int>, bad: set<int>)
    requires HasBad(ids, bad) && |ids| > 1
    ensures var left, right := ids[..|ids| / 2], ids[|ids| / 2..];
      1 + RequestLimit(BadCount(left, bad), |left|) + RequestLimit(BadCount(right, bad), |right|)
        <= RequestLimit(BadCount(ids, bad), |ids|)
  {
    var mid := |ids| / 2;
    BadCountOfHalves(ids, bad, mid);
    GoodAll(ids, bad);
    RequestBound(BadCount(ids[..mid], bad), BadCount(ids[mid..], bad), mid, |ids|);
  }

  /** Few bad campaigns cost few requests: logarithmically many around each of them. */
  lemma {:induction false} RequestsLogarithmic(server: Server, bad: set<int>, ids: seq<int>, window: Window)
    requires RefusesBad(server, bad) && ids != []
    ensures FetchWindow(server, ids, window).Fetched?
    ensures FetchWindow(server, ids, window).requests <= RequestLimit(BadCount(ids, bad), |ids|)
    decreases |ids|
  {
    RequestsOfBatch(server, bad, ids, window);
    if HasBad(ids, bad) && |ids| > 1 {
      var left, right := ids[..|ids| / 2], ids[|ids| / 2..];
      RequestsLogarithmic(server, bad, left, window);
      RequestsLogarithmic(server, bad, right, window);
      LimitOfHalves(ids, bad);
    }
  }

  // ---- All windows ----

  /** The payloads of one window. */
  function InWindow(payloads: seq<Payload>, w: Window): seq<Payload> {
    if payloads == [] then [] else
      InWindow(payloads[..|payloads| - 1], w) +
        if payloads[|payloads| - 1].window == w then [payloads[|payloads| - 1]] else []
  }

  lemma {:induction false} InWindowConcat(a: seq<Payload>, b: seq<Payload>, w: Window)
    ensures InWindow(a + b, w) == InWindow(a, w) + InWindow(b, w)
  {
    if b == [] {
      assert a + b == a;
    } else {
      InWindowConcat(a, b[..|b| - 1], w);
      assert (a + b)[..|a + b| - 1] == a + b[..|b| - 1];
    }
  }

  lemma {:induction false} InWindowUniform(a: seq<Payload>, own: Window, w: Window)
    requires forall p :: p in a ==> p.window == own
    ensures InWindow(a, w) == if w == own then a else []
  {
    if a != [] {
      assert a[|a| - 1] in a;
      InWindowUniform(a[..|a| - 1], own, w);
    }
  }

  lemma {:induction false} WindowsIsolate(server: Server, bad: set<int>, ids: seq<int>, windows: seq<Window>, w: Window)
    requires RefusesBad(server, bad) && Distinct(windows)
    ensures var r := FetchWindows(server, ids, windows);
      && r.Fetched?
      && Covered(InWindow(r.payloads, w)) == if w in windows then Good(ids, bad) else []
  {
    if windows != [] {
      var own, rest := windows[0], windows[1..];
      assert windows == [own] + rest;
      BisectionIsolates(server, bad, ids, own);
      WindowsIsolate(server, bad, ids, rest, w);
      var a, b := FetchWindow(server, ids, own).payloads, FetchWindows(server, ids, rest).payloads;
      InWindowConcat(a, b, w);
      InWindowUniform(a, own, w);
      CoveredConcat(InWindow(a, w), InWindow(b, w));
    }
  }

  lemma {:induction false} WindowsRequests(server: Server, ids: seq<int>, windows: seq<Window>)
    requires ids != [] && FetchWindows(server, ids, windows).Fetched?
    ensures FetchWindows(server, ids, windows).requests <= |windows| * (2 * |ids| - 1)
  {
    if windows != [] {
      var rest := windows[1..];
      RequestsLinear(server, ids, windows[0]);
      WindowsRequests(server, ids, rest);
      Distribute(|rest|, -1, 2 * |ids| - 1);
    }
  }

  lemma {:induction false} WindowsDistinct(first: int, last: int)
    ensures Distinct(Windows(first, last))
    decreases last - first
  {
    if first <= last {
      var next := if first + 30 < last then first + 31 else last + 1;
      WindowsDistinct(next, last);
      WindowsAfter(next, last);
    }
  }

  /** A short span is asked for without cutting, which is cutting into one window. */
  lemma FetchByWindows(server: Server, ids: seq<int>, first: int, last: int)
    requires ids != [] && first <= last
    ensures Fetch(server, ids, first, last) == FetchWindows(server, ids, Windows(first, last))
  {
    if last - first <= 30 {
      var own, rest := Window(first, last), Windows(last + 1, last);
      assert rest == [] && Windows(first, last) == [own] + rest;
      assert Windows(first, last)[1..] == [];
      var a := FetchWindow(server, ids, own);
      if a.Fetched? {
        assert a.payloads + [] == a.payloads;
      }
    }
  }

  /**
   * The call as a whole, for any span and any campaigns: in each window of the span every good campaign is
   * covered exactly once and in order, no bad one anywhere, within 2n - 1 requests a window.
   */
  lemma FetchIsolates(server: Server, bad: set<int>, ids: seq<int>, first: int, last: int, w: Window)
    requires RefusesBad(server, bad) && first <= last
    ensures var r, windows := Fetch(server, ids, first, last), Windows(first, last);
      && r.Fetched? && r.requests <= (if ids == [] then 0 else |windows| * (2 * |ids| - 1))
      && Covered(InWindow(r.payloads, w)) == if w in windows then Good(ids, bad) else []
  {
    if ids != [] {
      FetchByWindows(server, ids, first, last);
      WindowsDistinct(first, last);
      WindowsIsolate(server, bad, ids, Windows(first, last), w);
      WindowsRequests(server, ids, Windows(first, last));
    }
  }

  /** Whatever the server does, every campaign in a payload was asked for, in a batch the server accepted. */
  lemma {:induction false} OnlyAccepted(server: Server, ids: seq<int>, window: Window)
    requires FetchWindow(server, ids, window).Fetched?
    ensures forall p :: p in FetchWindow(server, ids, window).payloads ==>
      server(p.ids, p.window) == Stats && p.window == window && forall id :: id in p.ids ==> id in ids
    decreases |ids|
  {
    if ids != [] && server(ids, window) == Invalid && |ids| > 1 {
      OnlyAccepted(server, ids[..|ids| / 2], window);
      OnlyAccepted(server, ids[|ids| / 2..], window);
    }
  }

  // ---- Other errors ----

  /** The batches that come up for one window: all campaigns, and the halves of every batch called invalid. */
  ghost predicate ComesUp(server: Server, ids: seq<int>, window: Window, part: seq<int>)
    decreases |ids|
  {
    ids != [] && (
      || part == ids
      || (server(ids, window) == Invalid && |ids| > 1
          && (ComesUp(server, ids[..|ids| / 2], window, part) || ComesUp(server, ids[|ids| / 2..], window, part))))
  }

  ghost predicate Breaks(server: Server, ids: seq<int>, window: Window, part: seq<int>) {
    ComesUp(server, ids, window, part) && server(part, window) == Broken
  }

  /** One window raises exactly when some batch that comes up is answered with another error. */
  lemma {:induction false} RaisesExactly(server: Server, ids: seq<int>, window: Window)
    ensures FetchWindow(server, ids, window).Raised? <==> exists part :: Breaks(server, ids, window, part)
    decreases |ids|
  {
    if ids != [] {
      if server(ids, window) == Invalid && |ids| > 1 {
        var left, right := ids[..|ids| / 2], ids[|ids| / 2..];
        RaisesExactly(server, left, window);
        RaisesExactly(server, right, window);
        if part :| Breaks(server, left, window, part) {
          assert Breaks(server, ids, window, part);
        }
        if part :| Breaks(server, right, window, part) {
          assert Breaks(server, ids, window, part);
        }
        if part :| Breaks(server, ids, window, part) {
          assert Breaks(server, left, window, part) || Breaks(server, right, window, part);
        }
      } else {
        assert server(ids, window) == Broken ==> Breaks(server, ids, window, ids);
      }
    }
  }

  lemma {:induction false} WindowsRaise(server: Server, ids: seq<int>, windows: seq<Window>)
    ensures FetchWindows(server, ids, windows).Raised? <==>
      exists w, part :: w in windows && Breaks(server, ids, w, part)
  {
    if windows != [] {
      RaisesExactly(server, ids, windows[0]);
      WindowsRaise(server, ids, windows[1..]);
      assert windows == [windows[0]] + windows[1..];
    }
  }

  /** The whole call raises exactly when that happens in one of its windows; nothing is skipped for such an error. */
  lemma FetchRaisesExactly(server: Server, ids: seq<int>, first: int, last: int)
    requires ids != [] && first <= last
    ensures Fetch(server, ids, first, last).Raised? <==>
      exists w, part :: w in Windows(first, last) && Breaks(server, ids, w, part)
  {
    FetchByWindows(server, ids, first, last);
    WindowsRaise(server, ids, Windows(first, last));
  }
}
