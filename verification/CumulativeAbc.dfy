/**
 * `cumulative_abc`: articles sorted by contribution, the largest first. Those that bring the first 80 percent of
 * the positive total are A, the next up to 95 percent B, the rest C; the article that crosses a threshold stays
 * in the better group. Integer comparisons, so no percentage is ever rounded.
 */
module CumulativeAbc {
  import opened Arith
  import opened Dicts
  import opened Keys
  import opened Sorting

  datatype Group = A | B | C

  /** None is a member whose value is not known as an integer. */
  type Contributions = Dict<NmId, Option<int>>

  function Value(values: Contributions): NmId -> int {
    (k: NmId) => if k in values.at && values.at[k].Some? then values.at[k].value else 0
  }

  function Gain(value: NmId -> int): NmId -> int {
    (k: NmId) => Max(value(k), 0)
  }

  /** The sort key `(-value, key)`. */
  function Ranks(value: NmId -> int): (NmId, NmId) -> bool {
    (a: NmId, b: NmId) => value(a) > value(b) || (value(a) == value(b) && KeyLess(a, b))
  }

  function Ranking(values: Contributions): seq<NmId> {
    Sort(values.order, Ranks(Value(values)))
  }

  function PositiveTotal(values: Contributions): int {
    Sum(values.order, Gain(Value(values)))
  }

  ghost predicate Known(values: Contributions) {
    forall k :: k in values.order ==> k in values.at && values.at[k].Some?
  }

  /** The axis is blocked by an unknown member and by the absence of any positive contribution. */
  ghost predicate Blocked(values: Contributions) {
    PositiveTotal(values) == 0 || !Known(values)
  }

  function GroupAt(value: int, cumulative: int, total: int): Group {
    if value <= 0 then C
    else if cumulative * 100 < total * 80 then A
    else if cumulative * 100 < total * 95 then B
    else C
  }

  /** What came before position i of the ranking. */
  function Cumulative(values: Contributions, i: nat): int
    requires i <= |Ranking(values)|
  {
    Sum(Ranking(values)[..i], Gain(Value(values)))
  }

  /** The whole function: a blocked axis answers None for everyone. */
  ghost function Classification(values: Contributions): map<NmId, Option<Group>> {
    if Blocked(values) then map k | k in values.at :: None
    else Groups(Ranking(values), Value(values), PositiveTotal(values))
  }

  method Classify(values: Contributions) returns (groups: map<NmId, Option<Group>>)
    requires values.Valid()
    ensures groups == Classification(values)
  {
    var value := Value(values);
    var total := Sum(values.order, Gain(value));
    var known := AllKnown(values);
    if total == 0 || !known {
      return map k | k in values.at :: None;
    }
    groups := FillGroups(Sort(values.order, Ranks(value)), value, total);
  }

  /** The result dict after the articles `r` were visited in this order. */
  function Groups(r: seq<NmId>, value: NmId -> int, total: int): map<NmId, Option<Group>> {
    if r == [] then map[] else
      var front, key := r[..|r| - 1], r[|r| - 1];
      Groups(front, value, total)[key := Some(GroupAt(value(key), Sum(front, Gain(value)), total))]
  }

  lemma {:induction false} GroupsLookup(r: seq<NmId>, value: NmId -> int, total: int, i: nat)
    requires Distinct(r) && i < |r|
    ensures r[i] in Groups(r, value, total)
    ensures Groups(r, value, total)[r[i]] == Some(GroupAt(value(r[i]), Sum(r[..i], Gain(value)), total))
  {
    var front := r[..|r| - 1];
    if i < |front| {
      GroupsLookup(front, value, total, i);
      assert front[..i] == r[..i] && front[i] == r[i];
    }
  }

  lemma {:induction false} GroupsKeys(r: seq<NmId>, value: NmId -> int, total: int)
    ensures forall k :: k in Groups(r, value, total) <==> k in r
  {
    if r != [] {
      assert r == r[..|r| - 1] + [r[|r| - 1]];
      GroupsKeys(r[..|r| - 1], value, total);
    }
  }

  method FillGroups(ranking: seq<NmId>, value: NmId -> int, total: int) returns (groups: map<NmId, Option<Group>>)
    ensures groups == Groups(ranking, value, total)
  {
    groups := map[];
    var cumulative := 0;
    for i := 0 to |ranking|
      invariant cumulative == Sum(ranking[..i], Gain(value))
      invariant groups == Groups(ranking[..i], value, total)
    {
      var key := ranking[i];
      assert ranking[..i + 1][..i] == ranking[..i];
      var gain := Gain(value)(key);
      groups := groups[key := Some(GroupAt(value(key), cumulative, total))];
      cumulative := cumulative + gain;
    }
    assert ranking[..|ranking|] == ranking;
  }

  /** `any(type(value) is not int ...)` */
  method AllKnown(values: Contributions) returns (known: bool)
    requires values.Valid()
    ensures known <==> Known(values)
  {
    known := true;
    for i := 0 to |values.order|
      invariant known <==> forall j :: 0 <= j < i ==> values.order[j] in values.at && values.at[values.order[j]].Some?
    {
      assert values.order[i] in values.at;
      known := known && values.at[values.order[i]].Some?;
    }
  }

  lemma RankingOrder(values: Contributions)
    requires values.Valid()
    ensures StrictOrder(Ranks(Value(values)))
    ensures Ascending(Ranking(values), Ranks(Value(values))) && Distinct(Ranking(values))
    ensures forall k :: k in Ranking(values) <==> k in values.order
    ensures |Ranking(values)| == |values.order|
  {
    KeyOrder();
    SortSorts(values.order, Ranks(Value(values)));
  }

  // ---- What the groups are ----

  function GroupOf(values: Contributions, i: nat): Group
    requires i < |Ranking(values)|
  {
    GroupAt(Value(values)(Ranking(values)[i]), Cumulative(values, i), PositiveTotal(values))
  }

  /** Everyone is classified, by position in the ranking. */
  lemma ClassifiedByRank(values: Contributions, i: nat)
    requires values.Valid() && !Blocked(values) && i < |Ranking(values)|
    ensures Classification(values).Keys == values.at.Keys
    ensures Ranking(values)[i] in Classification(values)
    ensures Classification(values)[Ranking(values)[i]] == Some(GroupOf(values, i))
  {
    RankingOrder(values);
    var r, value, total := Ranking(values), Value(values), PositiveTotal(values);
    GroupsKeys(r, value, total);
    GroupsLookup(r, value, total, i);
  }

  /** The ranking goes by contribution, and by text where contributions are equal. */
  lemma RankedByValue(values: Contributions, i: nat, j: nat)
    requires values.Valid() && i < j < |Ranking(values)|
    requires forall k :: k in values.at ==> values.at[k].Some?
    ensures var a, b := Ranking(values)[i], Ranking(values)[j];
      && a in values.at && b in values.at
      && (|| values.at[a].value > values.at[b].value
          || (values.at[a] == values.at[b] && TextLess(Decimal(a), Decimal(b))))
  {
    RankingOrder(values);
    assert Ranks(Value(values))(Ranking(values)[i], Ranking(values)[j]);
  }

  lemma {:induction false} NoGain(s: seq<NmId>, value: NmId -> int)
    ensures Sum(s, Gain(value)) == 0 <==> forall k :: k in s ==> value(k) <= 0
  {
    if s != [] {
      var front, last := s[..|s| - 1], s[|s| - 1];
      assert s == front + [last];
      NoGain(front, value);
      GainsNonNegative(front, value);
    }
  }

  /**
   * The axis is blocked, and every article is answered None, exactly when some value is unknown or none is positive;
   * otherwise every article has a group.
   */
  lemma BlockedExactly(values: Contributions, k: NmId)
    requires values.Valid() && k in values.at
    ensures Classification(values).Keys == values.at.Keys
    ensures Classification(values)[k].None? <==>
      || (exists j :: j in values.at && values.at[j].None?)
      || (forall j :: j in values.at ==> values.at[j].value <= 0)
  {
    NoGain(values.order, Value(values));
    assert k in values.order;
    if !Blocked(values) {
      RankingOrder(values);
      var i :| 0 <= i < |Ranking(values)| && Ranking(values)[i] == k;
      ClassifiedByRank(values, i);
    }
  }

  /** The first n articles are the shortest prefix of the ranking that reaches pct percent of the total. */
  ghost predicate ShortestPrefix(values: Contributions, n: nat, pct: int) {
    && n <= |Ranking(values)|
    && Cumulative(values, n) * 100 >= PositiveTotal(values) * pct
    && forall m :: 0 <= m < n ==> Cumulative(values, m) * 100 < PositiveTotal(values) * pct
  }

  lemma {:induction false} GainsNonNegative(s: seq<NmId>, value: NmId -> int)
    ensures Sum(s, Gain(value)) >= 0
  {
    if s != [] {
      GainsNonNegative(s[..|s| - 1], value);
    }
  }

  lemma CumulativeStep(values: Contributions, i: nat)
    requires i < |Ranking(values)|
    ensures Cumulative(values, i + 1) == Cumulative(values, i) + Gain(Value(values))(Ranking(values)[i])
  {
    assert Ranking(values)[..i + 1] == Ranking(values)[..i] + [Ranking(values)[i]];
    SumAppend(Ranking(values)[..i], Ranking(values)[i], Gain(Value(values)));
  }

  lemma {:induction false} CumulativeMonotone(values: Contributions, i: nat, j: nat)
    requires i <= j <= |Ranking(values)|
    ensures Cumulative(values, i) <= Cumulative(values, j)
    decreases j
  {
    if i < j {
      CumulativeMonotone(values, i, j - 1);
      CumulativeStep(values, j - 1);
    }
  }

  lemma CumulativeEnd(values: Contributions)
    requires values.Valid()
    ensures Cumulative(values, |Ranking(values)|) == PositiveTotal(values)
  {
    RankingOrder(values);
    var r := Ranking(values);
    assert r[..|r|] == r;
    SumReorder(r, values.order, Gain(Value(values)));
  }

  /** Below the full total there is still something positive to come, and the next article is its largest part. */
  lemma {:induction false} NextIsPositive(values: Contributions, i: nat, j: nat)
    requires values.Valid() && i <= j <= |Ranking(values)| && i < |Ranking(values)|
    ensures Value(values)(Ranking(values)[i]) <= 0 ==> Cumulative(values, j) == Cumulative(values, i)
    decreases j
  {
    if i < j {
      NextIsPositive(values, i, j - 1);
      CumulativeStep(values, j - 1);
      RankingOrder(values);
      var r, value := Ranking(values), Value(values);
      assert j - 1 == i || Ranks(value)(r[i], r[j - 1]);
      assert value(r[j - 1]) <= value(r[i]);
    }
  }

  lemma BelowTotal(part: int, total: int, pct: int)
    requires total >= 0 && pct <= 100 && part * 100 < total * pct
    ensures part < total
  {
    assert total * (100 - pct) >= 0;
  }

  lemma PositiveBelowTotal(values: Contributions, i: nat, pct: int)
    requires values.Valid() && i < |Ranking(values)| && 0 < pct <= 100
    requires Cumulative(values, i) * 100 < PositiveTotal(values) * pct
    ensures Value(values)(Ranking(values)[i]) > 0
  {
    CumulativeEnd(values);
    assert Cumulative(values, i) < PositiveTotal(values) by {
      GainsNonNegative(values.order, Value(values));
      BelowTotal(Cumulative(values, i), PositiveTotal(values), pct);
    }
    if Value(values)(Ranking(values)[i]) <= 0 {
      NextIsPositive(values, i, |Ranking(values)|);
    }
  }

  function FirstReaching(values: Contributions, pct: int, n: nat): (r: nat)
    requires n <= |Ranking(values)|
    ensures r <= |Ranking(values)|
    decreases |Ranking(values)| - n
  {
    if n == |Ranking(values)| || Cumulative(values, n) * 100 >= PositiveTotal(values) * pct then n
    else FirstReaching(values, pct, n + 1)
  }

  lemma WholeRankingReaches(values: Contributions, pct: int)
    requires values.Valid() && pct <= 100
    ensures Cumulative(values, |Ranking(values)|) * 100 >= PositiveTotal(values) * pct
  {
    CumulativeEnd(values);
    GainsNonNegative(values.order, Value(values));
  }

  lemma {:induction false} FirstReachingIsShortest(values: Contributions, pct: int, n: nat)
    requires values.Valid() && n <= |Ranking(values)| && 0 < pct <= 100
    requires forall m :: 0 <= m < n ==> Cumulative(values, m) * 100 < PositiveTotal(values) * pct
    ensures ShortestPrefix(values, FirstReaching(values, pct, n), pct)
    decreases |Ranking(values)| - n
  {
    WholeRankingReaches(values, pct);
    if n < |Ranking(values)| && Cumulative(values, n) * 100 < PositiveTotal(values) * pct {
      FirstReachingIsShortest(values, pct, n + 1);
    }
  }

  lemma ShortestPrefixMembers(values: Contributions, n: nat, pct: int, i: nat)
    requires ShortestPrefix(values, n, pct) && i < |Ranking(values)|
    ensures i < n <==> Cumulative(values, i) * 100 < PositiveTotal(values) * pct
  {
    if n <= i {
      CumulativeMonotone(values, n, i);
    }
  }

  /**
   * Group A is the shortest prefix of the ranking that reaches 80 percent of the positive total, and it is not
   * empty; A and B together are the shortest prefix that reaches 95 percent.
   */
  lemma GroupsAreShortestPrefixes(values: Contributions) returns (a: nat, b: nat)
    requires values.Valid() && !Blocked(values)
    ensures 0 < a <= b && ShortestPrefix(values, a, 80) && ShortestPrefix(values, b, 95)
    ensures forall i :: 0 <= i < |Ranking(values)| ==> (GroupOf(values, i) == A <==> i < a)
    ensures forall i :: 0 <= i < |Ranking(values)| ==> (GroupOf(values, i) != C <==> i < b)
  {
    GainsNonNegative(values.order, Value(values));
    a, b := FirstReaching(values, 80, 0), FirstReaching(values, 95, 0);
    FirstReachingIsShortest(values, 80, 0);
    FirstReachingIsShortest(values, 95, 0);
    assert Cumulative(values, 0) == 0;
    assert Cumulative(values, b) * 100 >= PositiveTotal(values) * 95;
    forall i | 0 <= i < |Ranking(values)|
      ensures (GroupOf(values, i) == A <==> i < a) && (GroupOf(values, i) != C <==> i < b)
    {
      ShortestPrefixMembers(values, a, 80, i);
      ShortestPrefixMembers(values, b, 95, i);
      if i < b {
        PositiveBelowTotal(values, i, 95);
      }
    }
  }

  /** A larger contribution never lands in a worse group, and nothing nonpositive leaves C. */
  lemma GroupsFollowValues(values: Contributions, i: nat, j: nat)
    requires values.Valid() && !Blocked(values) && i < |Ranking(values)| && j < |Ranking(values)|
    ensures Value(values)(Ranking(values)[i]) <= 0 ==> GroupOf(values, i) == C
    ensures Value(values)(Ranking(values)[i]) > Value(values)(Ranking(values)[j]) ==>
      (GroupOf(values, j) == A ==> GroupOf(values, i) == A) && (GroupOf(values, i) == C ==> GroupOf(values, j) == C)
  {
    RankingOrder(values);
    var a, b := GroupsAreShortestPrefixes(values);
    var r, value := Ranking(values), Value(values);
    if j < i {
      assert Ranks(value)(r[j], r[i]);
    }
  }

  /** The order in which the articles entered the dict is irrelevant. */
  lemma InsertionOrderIrrelevant(v: Contributions, w: Contributions)
    requires v.Valid() && w.Valid() && v.at == w.at
    ensures Ranking(v) == Ranking(w) && PositiveTotal(v) == PositiveTotal(w)
    ensures forall i :: 0 <= i < |Ranking(v)| ==> GroupOf(v, i) == GroupOf(w, i)
  {
    var f, g := Value(v), Value(w);
    assert forall k :: f(k) == g(k);
    RankingOrder(v);
    RankingOrder(w);
    assert Ascending(Ranking(w), Ranks(f));
    AscendingUnique(Ranking(v), Ranking(w), Ranks(f));
    SumReorder(v.order, w.order, Gain(f));
    SumSame(w.order, Gain(f), Gain(g));
    forall i | 0 <= i < |Ranking(v)| ensures GroupOf(v, i) == GroupOf(w, i) {
      SumSame(Ranking(v)[..i], Gain(f), Gain(g));
    }
  }

  ghost predicate Scaled(v: Contributions, w: Contributions, c: int) {
    && v.Valid() && w.Valid() && v.order == w.order && c > 0
    && forall k :: k in v.at ==> v.at[k].Some? && w.at[k] == Some(c * v.at[k].value)
  }

  lemma ScaledValue(v: Contributions, w: Contributions, c: int, k: NmId)
    requires Scaled(v, w, c)
    ensures Value(w)(k) == c * Value(v)(k) && Gain(Value(w))(k) == c * Gain(Value(v))(k)
  {
    if k in w.at {
      assert k in v.order;
    }
    ScaledGain(Value(v)(k), c);
  }

  lemma ScaledRanking(v: Contributions, w: Contributions, c: int)
    requires Scaled(v, w, c)
    ensures Ranking(v) == Ranking(w)
  {
    RankingOrder(v);
    RankingOrder(w);
    var r, f := Ranking(w), Value(v);
    forall i, j | 0 <= i < j < |r| ensures Ranks(f)(r[i], r[j]) {
      assert Ranks(Value(w))(r[i], r[j]);
      ScaledValue(v, w, c, r[i]);
      ScaledValue(v, w, c, r[j]);
      ScaledOrder(f(r[i]), f(r[j]), c);
    }
    AscendingUnique(Ranking(v), r, Ranks(f));
  }

  lemma ScaledSum(v: Contributions, w: Contributions, c: int, s: seq<NmId>)
    requires Scaled(v, w, c)
    ensures Sum(s, Gain(Value(w))) == c * Sum(s, Gain(Value(v)))
  {
    forall k ensures Gain(Value(w))(k) == c * Gain(Value(v))(k) { ScaledValue(v, w, c, k); }
    SumScaled(s, c, Gain(Value(v)), Gain(Value(w)));
  }

  lemma ScaledGroup(value: int, cumulative: int, total: int, c: int)
    requires c > 0
    ensures GroupAt(c * value, c * cumulative, c * total) == GroupAt(value, cumulative, total)
  {
    ScaledOrder(value, 0, c);
    ScaledThreshold(cumulative, total, c, 80);
    ScaledThreshold(cumulative, total, c, 95);
  }

  /** Kopecks or roubles, one period or twelve: a common positive factor changes no group. */
  lemma ScaleIrrelevant(v: Contributions, w: Contributions, c: int, i: nat)
    requires Scaled(v, w, c) && i < |Ranking(v)|
    ensures Ranking(v) == Ranking(w) && GroupOf(v, i) == GroupOf(w, i)
  {
    ScaledRanking(v, w, c);
    var r := Ranking(v);
    ScaledValue(v, w, c, r[i]);
    ScaledSum(v, w, c, r[..i]);
    ScaledSum(v, w, c, v.order);
    ScaledGroup(Value(v)(r[i]), Cumulative(v, i), PositiveTotal(v), c);
  }

  lemma ScaledOrder(x: int, y: int, c: int)
    requires c > 0
    ensures c * x > c * y <==> x > y
    ensures c * x == c * y <==> x == y
  {
    Distribute(x, y, c);
    Commute(c, x);
    Commute(c, y);
    if x > y { Monotone(y + 1, x, c); Distribute(y, -1, c); }
    if x < y { Monotone(x + 1, y, c); Distribute(x, -1, c); }
  }

  lemma ScaledGain(x: int, c: int)
    requires c > 0
    ensures Max(c * x, 0) == c * Max(x, 0)
  {
    ScaledOrder(x, 0, c);
  }

  lemma ScaledThreshold(x: int, t: int, c: int, pct: int)
    requires c > 0
    ensures c * x * 100 < c * t * pct <==> x * 100 < t * pct
  {
    ScaledOrder(t * pct, x * 100, c);
    assert c * (t * pct) == c * t * pct;
    assert c * (x * 100) == c * x * 100;
  }
}
