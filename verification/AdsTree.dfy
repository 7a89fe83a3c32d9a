/**
 * `_merge_ads_spend_aggregate_from_node`: statistics arrive as nested JSON of no fixed shape. Every dict that
 * names an article and a spend contributes; its date is its own or the nearest one above it. One walk fills the
 * period, one walk per day fills the days.
 */
module AdsTree {
  import opened Arith
  import opened Dicts

  /** What a contributing dict says: spend, impressions, clicks, cart adds, orders, revenue. */
  datatype Metrics = Metrics(spend: int, impressions: int, clicks: int, cartAdds: int, orders: int, revenue: int)

  const ZERO := Metrics(0, 0, 0, 0, 0, 0)

  function Plus(a: Metrics, b: Metrics): Metrics {
    Metrics(a.spend + b.spend, a.impressions + b.impressions, a.clicks + b.clicks,
      a.cartAdds + b.cartAdds, a.orders + b.orders, a.revenue + b.revenue)
  }

  /**
   * A JSON value: a list, a dict, or anything else. `own` is the date the dict itself carries, `article` the
   * number under nmId or nm, `metrics` is present when there is a sum or a spend, `values` are all its values.
   */
  datatype Node =
    | List(items: seq<Node>)
    | Record(own: Option<int>, article: Option<int>, metrics: Option<Metrics>, values: seq<Node>)
    | Scalar

  /** The dates a walk accepts; a missing bound does not restrict. */
  datatype Range = Range(start: Option<int>, end: Option<int>)

  type Totals = map<int, Metrics>

  function LocalDate(node: Node, inherited: Option<int>): Option<int>
    requires node.Record?
  {
    if node.own.Some? then node.own else inherited
  }

  /** An undated dict is in every range. */
  predicate InRange(date: Option<int>, r: Range) {
    date.None? || ((r.start.None? || r.start.value <= date.value) && (r.end.None? || date.value <= r.end.value))
  }

  predicate Contributes(node: Node)
    requires node.Record?
  {
    node.article.Some? && node.metrics.Some?
  }

  function Credit(totals: Totals, article: int, m: Metrics): Totals {
    totals[article := Plus(Of(totals, article), m)]
  }

  function Of(totals: Totals, article: int): Metrics {
    if article in totals then totals[article] else ZERO
  }

  function CreditNode(totals: Totals, node: Node, date: Option<int>, r: Range): Totals
    requires node.Record?
  {
    if Contributes(node) && InRange(date, r) then Credit(totals, node.article.value, node.metrics.value) else totals
  }

  /** The result dict after a walk. */
  function Merged(totals: Totals, node: Node, inherited: Option<int>, r: Range): Totals
    decreases node, 0
  {
    match node
    case List(items) => MergedAll(totals, items, inherited, r)
    case Record(_, _, _, values) =>
      MergedAll(CreditNode(totals, node, LocalDate(node, inherited), r), values, LocalDate(node, inherited), r)
    case Scalar => totals
  }

  function MergedAll(totals: Totals, nodes: seq<Node>, inherited: Option<int>, r: Range): Totals
    decreases nodes, 1
  {
    if nodes == [] then totals
    else MergedAll(Merged(totals, nodes[0], inherited, r), nodes[1..], inherited, r)
  }

  /** The dict the walk updates in place. */
  class Aggregates {
    var rows: Totals

    constructor ()
      ensures rows == map[]
    {
      rows := map[];
    }

    constructor From(totals: Totals)
      ensures rows == totals
    {
      rows := totals;
    }

    method Merge(node: Node, inherited: Option<int>, r: Range)
      modifies this
      ensures rows == Merged(old(rows), node, inherited, r)
      decreases node, 0
    {
      match node
      case List(items) =>
        MergeAll(items, inherited, r);
      case Record(own, article, metrics, values) =>
        var localDate := if own.Some? then own else inherited;
        if article.Some? && metrics.Some? && InRange(localDate, r) {
          var row := Of(rows, article.value);
          rows := rows[article.value := Plus(row, metrics.value)];
        }
        MergeAll(values, localDate, r);
      case Scalar =>
    }

    method MergeAll(nodes: seq<Node>, inherited: Option<int>, r: Range)
      modifies this
      ensures rows == MergedAll(old(rows), nodes, inherited, r)
      decreases nodes, 1
    {
      var i := 0;
      while i < |nodes|
        invariant 0 <= i <= |nodes|
        invariant MergedAll(rows, nodes[i..], inherited, r) == MergedAll(old(rows), nodes, inherited, r)
      {
        assert nodes[i..][0] == nodes[i] && nodes[i..][1..] == nodes[i + 1..];
        Merge(nodes[i], inherited, r);
        i := i + 1;
      }
    }
  }

  // ---- What one article receives from a tree, metric by metric ----

  datatype Metric = Spend | Impressions | Clicks | CartAdds | Orders | Revenue

  function Value(m: Metrics, metric: Metric): int {
    match metric
    case Spend => m.spend
    case Impressions => m.impressions
    case Clicks => m.clicks
    case CartAdds => m.cartAdds
    case Orders => m.orders
    case Revenue => m.revenue
  }

  /** One metric of one article; an article without a row has 0. */
  function Amount(totals: Totals, k: int, metric: Metric): int {
    if k in totals then Value(totals[k], metric) else 0
  }

  /** Whose contributions are summed: one article, one metric. */
  datatype Column = Column(article: int, metric: Metric)

  function Own(node: Node, c: Column): int
    requires node.Record?
  {
    if Contributes(node) && node.article.value == c.article then Value(node.metrics.value, c.metric) else 0
  }

  /** The sum of the contributions a walk over the range accepts. */
  function Received(node: Node, inherited: Option<int>, r: Range, c: Column): int
    decreases node, 0
  {
    match node
    case List(items) => ReceivedAll(items, inherited, r, c)
    case Record(_, _, _, values) =>
      var date := LocalDate(node, inherited);
      (if InRange(date, r) then Own(node, c) else 0) + ReceivedAll(values, date, r, c)
    case Scalar => 0
  }

  function ReceivedAll(nodes: seq<Node>, inherited: Option<int>, r: Range, c: Column): int
    decreases nodes, 1
  {
    if nodes == [] then 0 else Received(nodes[0], inherited, r, c) + ReceivedAll(nodes[1..], inherited, r, c)
  }

  lemma CreditAmount(totals: Totals, node: Node, date: Option<int>, r: Range, c: Column)
    requires node.Record?
    ensures Amount(CreditNode(totals, node, date, r), c.article, c.metric) ==
      Amount(totals, c.article, c.metric) + if InRange(date, r) then Own(node, c) else 0
  {
  }

  /** Walking a tree adds to each article exactly what it receives from the tree. */
  lemma {:induction false} MergedReceives(totals: Totals, node: Node, inherited: Option<int>, r: Range, c: Column)
    ensures Amount(Merged(totals, node, inherited, r), c.article, c.metric) ==
      Amount(totals, c.article, c.metric) + Received(node, inherited, r, c)
    decreases node, 0
  {
    match node
    case List(items) =>
      MergedAllReceives(totals, items, inherited, r, c);
    case Record(_, _, _, values) =>
      var date := LocalDate(node, inherited);
      CreditAmount(totals, node, date, r, c);
      MergedAllReceives(CreditNode(totals, node, date, r), values, date, r, c);
    case Scalar =>
  }

  lemma {:induction false} MergedAllReceives(
    totals: Totals, nodes: seq<Node>, inherited: Option<int>, r: Range, c: Column)
    ensures Amount(MergedAll(totals, nodes, inherited, r), c.article, c.metric) ==
      Amount(totals, c.article, c.metric) + ReceivedAll(nodes, inherited, r, c)
    decreases nodes, 1
  {
    if nodes != [] {
      MergedReceives(totals, nodes[0], inherited, r, c);
      MergedAllReceives(Merged(totals, nodes[0], inherited, r), nodes[1..], inherited, r, c);
    }
  }

  // ---- Days against the period ----

  function Day(day: int): Range {
    Range(Some(day), Some(day))
  }

  function Span(first: int, last: int): Range {
    Range(Some(first), Some(last))
  }

  /** The contributions that have neither an own nor an inherited date. */
  function Undated(node: Node, inherited: Option<int>, c: Column): int
    decreases node, 0
  {
    match node
    case List(items) => UndatedAll(items, inherited, c)
    case Record(_, _, _, values) =>
      var date := LocalDate(node, inherited);
      (if date.None? then Own(node, c) else 0) + UndatedAll(values, date, c)
    case Scalar => 0
  }

  function UndatedAll(nodes: seq<Node>, inherited: Option<int>, c: Column): int
    decreases nodes, 1
  {
    if nodes == [] then 0 else Undated(nodes[0], inherited, c) + UndatedAll(nodes[1..], inherited, c)
  }

  /** One more day: a wider span receives what both parts receive, undated contributions only once. */
  lemma {:induction false} SpanGrows(node: Node, inherited: Option<int>, first: int, last: int, c: Column)
    requires first <= last
    ensures Received(node, inherited, Span(first, last + 1), c) + Undated(node, inherited, c) ==
      Received(node, inherited, Span(first, last), c) + Received(node, inherited, Day(last + 1), c)
    decreases node, 0
  {
    match node
    case List(items) =>
      SpanGrowsAll(items, inherited, first, last, c);
    case Record(_, _, _, values) =>
      SpanGrowsAll(values, LocalDate(node, inherited), first, last, c);
    case Scalar =>
  }

  lemma {:induction false} SpanGrowsAll(nodes: seq<Node>, inherited: Option<int>, first: int, last: int, c: Column)
    requires first <= last
    ensures ReceivedAll(nodes, inherited, Span(first, last + 1), c) + UndatedAll(nodes, inherited, c) ==
      ReceivedAll(nodes, inherited, Span(first, last), c) + ReceivedAll(nodes, inherited, Day(last + 1), c)
    decreases nodes, 1
  {
    if nodes != [] {
      SpanGrows(nodes[0], inherited, first, last, c);
      SpanGrowsAll(nodes[1..], inherited, first, last, c);
    }
  }

  // ---- The two results of a fetch ----

  /** The period dict after all payloads. */
  function PeriodTotals(payloads: seq<Node>, first: int, last: int): Totals {
    MergedAll(map[], payloads, None, Span(first, last))
  }

  /** The dict of one day after all payloads. */
  function DayTotals(payloads: seq<Node>, day: int): Totals {
    MergedAll(map[], payloads, None, Day(day))
  }

  /** One column summed over the daily dicts. */
  function DaySum(payloads: seq<Node>, first: int, last: int, c: Column): int
    decreases last - first
  {
    if first > last then 0 else
      DaySum(payloads, first, last - 1, c) + Amount(DayTotals(payloads, last), c.article, c.metric)
  }

  /** Summing the days counts each dated contribution once and each undated one once per day. */
  lemma {:induction false} DaysAddUp(payloads: seq<Node>, first: int, last: int, c: Column)
    requires first <= last
    ensures DaySum(payloads, first, last, c) ==
      Amount(PeriodTotals(payloads, first, last), c.article, c.metric)
      + (last - first) * UndatedAll(payloads, None, c)
    decreases last - first
  {
    var undated := UndatedAll(payloads, None, c);
    MergedAllReceives(map[], payloads, None, Day(last), c);
    MergedAllReceives(map[], payloads, None, Span(first, last), c);
    if first < last {
      DaysAddUp(payloads, first, last - 1, c);
      MergedAllReceives(map[], payloads, None, Span(first, last - 1), c);
      SpanGrowsAll(payloads, None, first, last - 1, c);
      Distribute(last - first, 1, undated);
    } else {
      assert DaySum(payloads, first, last - 1, c) == 0;
    }
  }

  /**
   * For every article, every metric and every nested payload, the days of the period add up to the period exactly
   * when the period is a single day or the article's undated contributions cancel.
   */
  lemma DaysReconcile(payloads: seq<Node>, first: int, last: int, c: Column)
    requires first <= last
    ensures DaySum(payloads, first, last, c) == Amount(PeriodTotals(payloads, first, last), c.article, c.metric) <==>
      first == last || UndatedAll(payloads, None, c) == 0
  {
    DaysAddUp(payloads, first, last, c);
    NoZeroProduct(last - first, UndatedAll(payloads, None, c));
  }

  lemma NoZeroProduct(a: int, b: int)
    ensures a * b == 0 <==> a == 0 || b == 0
  {
  }

  /** Every contributing dict of the article has a date of its own or above it. */
  predicate AllDated(node: Node, inherited: Option<int>, k: int)
    decreases node, 0
  {
    match node
    case List(items) => AllDatedIn(items, inherited, k)
    case Record(_, _, _, values) =>
      var date := LocalDate(node, inherited);
      (date.Some? || !Contributes(node) || node.article.value != k) && AllDatedIn(values, date, k)
    case Scalar => true
  }

  predicate AllDatedIn(nodes: seq<Node>, inherited: Option<int>, k: int)
    decreases nodes, 1
  {
    nodes == [] || (AllDated(nodes[0], inherited, k) && AllDatedIn(nodes[1..], inherited, k))
  }

  lemma {:induction false} NothingUndated(node: Node, inherited: Option<int>, c: Column)
    requires AllDated(node, inherited, c.article)
    ensures Undated(node, inherited, c) == 0
    decreases node, 0
  {
    match node
    case List(items) =>
      NothingUndatedIn(items, inherited, c);
    case Record(_, _, _, values) =>
      NothingUndatedIn(values, LocalDate(node, inherited), c);
    case Scalar =>
  }

  lemma {:induction false} NothingUndatedIn(nodes: seq<Node>, inherited: Option<int>, c: Column)
    requires AllDatedIn(nodes, inherited, c.article)
    ensures UndatedAll(nodes, inherited, c) == 0
    decreases nodes, 1
  {
    if nodes != [] {
      NothingUndated(nodes[0], inherited, c);
      NothingUndatedIn(nodes[1..], inherited, c);
    }
  }

  /** With own or inherited dates throughout, the two views always agree. */
  lemma DatedDaysReconcile(payloads: seq<Node>, first: int, last: int, c: Column)
    requires first <= last && AllDatedIn(payloads, None, c.article)
    ensures DaySum(payloads, first, last, c) == Amount(PeriodTotals(payloads, first, last), c.article, c.metric)
  {
    NothingUndatedIn(payloads, None, c);
    DaysReconcile(payloads, first, last, c);
  }

  // ---- Contribution by contribution ----

  /** One contributing dict of a payload, with the dates met on the way down to it, its own last. */
  datatype Contribution = Contribution(dates: seq<int>, article: int, metrics: Metrics)

  function Flat(node: Node, dates: seq<int>): seq<Contribution>
    decreases node, 0
  {
    match node
    case List(items) => FlatAll(items, dates)
    case Record(own, article, metrics, values) =>
      var path := if own.Some? then dates + [own.value] else dates;
      (if article.Some? && metrics.Some? then [Contribution(path, article.value, metrics.value)] else [])
      + FlatAll(values, path)
    case Scalar => []
  }

  function FlatAll(nodes: seq<Node>, dates: seq<int>): seq<Contribution>
    decreases nodes, 1
  {
    if nodes == [] then [] else Flat(nodes[0], dates) + FlatAll(nodes[1..], dates)
  }

  /** It names the article, and the last date above or on it is missing or lies in the span. */
  predicate Counted(c: Contribution, article: int, first: int, last: int) {
    c.article == article && (c.dates == [] || first <= c.dates[|c.dates| - 1] <= last)
  }

  function CountedAmount(article: int, first: int, last: int, g: Metrics -> int): Contribution -> int {
    (c: Contribution) => if Counted(c, article, first, last) then g(c.metrics) else 0
  }

  function LastOf(dates: seq<int>): Option<int> {
    if dates == [] then None else Some(dates[|dates| - 1])
  }

  function Measure(metric: Metric): Metrics -> int {
    (m: Metrics) => Value(m, metric)
  }

  lemma SumOne(c: Contribution, g: Contribution -> int)
    ensures Sum([c], g) == g(c)
  {
    assert [c][..0] == [];
  }

  /** A dict's own contribution in front of those below it. */
  lemma OwnIsSum(
    node: Node, path: seq<int>, rest: seq<Contribution>, first: int, last: int, c: Column, g: Contribution -> int)
    requires node.Record? && g == CountedAmount(c.article, first, last, Measure(c.metric))
    ensures Sum((if Contributes(node) then [Contribution(path, node.article.value, node.metrics.value)] else []) + rest,
        g) == (if InRange(LastOf(path), Span(first, last)) then Own(node, c) else 0) + Sum(rest, g)
  {
    if Contributes(node) {
      var own := Contribution(path, node.article.value, node.metrics.value);
      SumConcat([own], rest, g);
      SumOne(own, g);
    } else {
      assert [] + rest == rest;
    }
  }

  lemma {:induction false} ReceivedIsSum(node: Node, dates: seq<int>, first: int, last: int, c: Column)
    ensures Received(node, LastOf(dates), Span(first, last), c) ==
      Sum(Flat(node, dates), CountedAmount(c.article, first, last, Measure(c.metric)))
    decreases node, 0
  {
    var g := CountedAmount(c.article, first, last, Measure(c.metric));
    match node
    case List(items) =>
      ReceivedAllIsSum(items, dates, first, last, c);
    case Record(own, article, metrics, values) =>
      var path := if own.Some? then dates + [own.value] else dates;
      assert LocalDate(node, LastOf(dates)) == LastOf(path);
      ReceivedAllIsSum(values, path, first, last, c);
      OwnIsSum(node, path, FlatAll(values, path), first, last, c, g);
    case Scalar =>
  }

  lemma {:induction false} ReceivedAllIsSum(nodes: seq<Node>, dates: seq<int>, first: int, last: int, c: Column)
    ensures ReceivedAll(nodes, LastOf(dates), Span(first, last), c) ==
      Sum(FlatAll(nodes, dates), CountedAmount(c.article, first, last, Measure(c.metric)))
    decreases nodes, 1
  {
    if nodes != [] {
      ReceivedIsSum(nodes[0], dates, first, last, c);
      ReceivedAllIsSum(nodes[1..], dates, first, last, c);
      SumConcat(Flat(nodes[0], dates), FlatAll(nodes[1..], dates),
        CountedAmount(c.article, first, last, Measure(c.metric)));
    }
  }

  /** Six sums over the contributions that count for an article in a span. */
  ghost predicate HoldsSums(row: Metrics, cs: seq<Contribution>, article: int, first: int, last: int) {
    && row.spend == Sum(cs, CountedAmount(article, first, last, (m: Metrics) => m.spend))
    && row.impressions == Sum(cs, CountedAmount(article, first, last, (m: Metrics) => m.impressions))
    && row.clicks == Sum(cs, CountedAmount(article, first, last, (m: Metrics) => m.clicks))
    && row.cartAdds == Sum(cs, CountedAmount(article, first, last, (m: Metrics) => m.cartAdds))
    && row.orders == Sum(cs, CountedAmount(article, first, last, (m: Metrics) => m.orders))
    && row.revenue == Sum(cs, CountedAmount(article, first, last, (m: Metrics) => m.revenue))
  }

  lemma MetricIsSum(payloads: seq<Node>, first: int, last: int, article: int, metric: Metric, g: Metrics -> int)
    requires forall m :: g(m) == Value(m, metric)
    ensures Value(Of(PeriodTotals(payloads, first, last), article), metric) ==
      Sum(FlatAll(payloads, []), CountedAmount(article, first, last, g))
  {
    var c := Column(article, metric);
    MergedAllReceives(map[], payloads, None, Span(first, last), c);
    ReceivedAllIsSum(payloads, [], first, last, c);
    var h, h' := CountedAmount(article, first, last, Measure(metric)), CountedAmount(article, first, last, g);
    forall x ensures h(x) == h'(x) {
      assert g(x.metrics) == Value(x.metrics, metric);
    }
    SumSame(FlatAll(payloads, []), h, h');
  }

  lemma {:induction false} MergedHas(totals: Totals, node: Node, dates: seq<int>, first: int, last: int, article: int)
    ensures article in Merged(totals, node, LastOf(dates), Span(first, last)) <==>
      article in totals || exists c :: c in Flat(node, dates) && Counted(c, article, first, last)
    decreases node, 0
  {
    match node
    case List(items) =>
      MergedAllHas(totals, items, dates, first, last, article);
    case Record(own, _, _, values) =>
      var path := if own.Some? then dates + [own.value] else dates;
      assert LocalDate(node, LastOf(dates)) == LastOf(path);
      var credited := CreditNode(totals, node, LastOf(path), Span(first, last));
      MergedAllHas(credited, values, path, first, last, article);
      if Contributes(node) {
        var one := Contribution(path, node.article.value, node.metrics.value);
        assert Flat(node, dates) == [one] + FlatAll(values, path);
        assert article in credited <==> article in totals || Counted(one, article, first, last);
        assert forall c :: c in Flat(node, dates) <==> c == one || c in FlatAll(values, path);
      } else {
        assert Flat(node, dates) == FlatAll(values, path);
      }
    case Scalar =>
  }

  lemma {:induction false} MergedAllHas(
    totals: Totals, nodes: seq<Node>, dates: seq<int>, first: int, last: int, article: int)
    ensures article in MergedAll(totals, nodes, LastOf(dates), Span(first, last)) <==>
      article in totals || exists c :: c in FlatAll(nodes, dates) && Counted(c, article, first, last)
    decreases nodes, 1
  {
    if nodes != [] {
      MergedHas(totals, nodes[0], dates, first, last, article);
      MergedAllHas(Merged(totals, nodes[0], LastOf(dates), Span(first, last)), nodes[1..], dates, first, last, article);
    }
  }

  /**
   * What the period says of an article, for every nested payload: the sums over all contributing dicts that name it
   * and whose nearest date, their own or one above, is missing or lies in the period; and it says nothing of an
   * article without such a dict.
   */
  lemma PeriodIsSum(payloads: seq<Node>, first: int, last: int, article: int)
    ensures HoldsSums(Of(PeriodTotals(payloads, first, last), article), FlatAll(payloads, []), article, first, last)
    ensures article in PeriodTotals(payloads, first, last) <==>
      exists c :: c in FlatAll(payloads, []) && Counted(c, article, first, last)
  {
    MetricIsSum(payloads, first, last, article, Spend, (m: Metrics) => m.spend);
    MetricIsSum(payloads, first, last, article, Impressions, (m: Metrics) => m.impressions);
    MetricIsSum(payloads, first, last, article, Clicks, (m: Metrics) => m.clicks);
    MetricIsSum(payloads, first, last, article, CartAdds, (m: Metrics) => m.cartAdds);
    MetricIsSum(payloads, first, last, article, Orders, (m: Metrics) => m.orders);
    MetricIsSum(payloads, first, last, article, Revenue, (m: Metrics) => m.revenue);
    MergedAllHas(map[], payloads, [], first, last, article);
  }

  /** What one day says of it: the same sums over those whose nearest date is missing or that very day. */
  lemma DayIsSum(payloads: seq<Node>, day: int, article: int)
    ensures HoldsSums(Of(DayTotals(payloads, day), article), FlatAll(payloads, []), article, day, day)
    ensures article in DayTotals(payloads, day) <==>
      exists c :: c in FlatAll(payloads, []) && Counted(c, article, day, day)
  {
    PeriodIsSum(payloads, day, day, article);
  }

  // ---- The loops of the fetch ----

  lemma {:induction false} MergedAllAppend(totals: Totals, nodes: seq<Node>, node: Node, r: Range)
    ensures MergedAll(totals, nodes + [node], None, r) == Merged(MergedAll(totals, nodes, None, r), node, None, r)
    decreases |nodes|
  {
    if nodes == [] {
      assert [] + [node] == [node];
    } else {
      assert (nodes + [node])[1..] == nodes[1..] + [node];
      MergedAllAppend(Merged(totals, nodes[0], None, r), nodes[1..], node, r);
    }
  }

  /** `for day in _date_range(...)`: one payload into the dict of every day. */
  method MergeIntoDays(daily: map<int, Totals>, payload: Node, first: int, last: int) returns (merged: map<int, Totals>)
    requires forall d :: d in daily <==> first <= d <= last
    ensures merged == map d | d in daily :: Merged(daily[d], payload, None, Day(d))
  {
    merged := daily;
    var day := first;
    while day <= last
      invariant first <= day <= Max(first, last + 1)
      invariant merged == map d | d in daily :: if d < day then Merged(daily[d], payload, None, Day(d)) else daily[d]
    {
      var rows := new Aggregates.From(merged[day]);
      rows.Merge(payload, None, Day(day));
      merged := merged[day := rows.rows];
      day := day + 1;
    }
  }

  /** Every payload is walked once for the period and once for each day. */
  method FillAggregates(payloads: seq<Node>, first: int, last: int) returns (period: Totals, daily: map<int, Totals>)
    ensures period == PeriodTotals(payloads, first, last)
    ensures daily == map day | first <= day <= last :: DayTotals(payloads, day)
  {
    var result := new Aggregates();
    daily := map day | first <= day <= last :: DayTotals([], day);
    for i := 0 to |payloads|
      invariant fresh(result) && result.rows == PeriodTotals(payloads[..i], first, last)
      invariant daily == map day | first <= day <= last :: DayTotals(payloads[..i], day)
    {
      assert payloads[..i + 1] == payloads[..i] + [payloads[i]];
      MergedAllAppend(map[], payloads[..i], payloads[i], Span(first, last));
      result.Merge(payloads[i], None, Span(first, last));
      forall day
        ensures DayTotals(payloads[..i + 1], day) == Merged(DayTotals(payloads[..i], day), payloads[i], None, Day(day))
      {
        MergedAllAppend(map[], payloads[..i], payloads[i], Day(day));
      }
      daily := MergeIntoDays(daily, payloads[i], first, last);
    }
    assert payloads[..|payloads|] == payloads;
    period := result.rows;
  }
}
