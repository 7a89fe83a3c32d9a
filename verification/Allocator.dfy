/**
 * `_allocate_signed_total`: a signed number of kopecks is split over articles in proportion to integer
 * weights. Everyone gets the floor of the exact quota; the kopecks left over go, one each, to the largest
 * remainders, equal remainders in the order of the dict keys.
 */
module Allocator {
  import opened Arith
  import opened Dicts
  import opened Keys
  import opened Sorting

  type Weights = Dict<NmId, int>

  function WeightSum(w: Weights): int {
    Sum(w.order, k => w.GetOr(k, 0))
  }

  /** Weights that do not add up to something positive are replaced by equal ones. */
  function Effective(w: Weights): Weights {
    if WeightSum(w) > 0 then w else Dict(w.order, map k | k in w.at :: 1)
  }

  ghost predicate Usable(w: Weights) {
    w.Valid() && w.order != [] && WeightSum(w) > 0
  }

  /** `magnitude * weight // weight_sum`, for a positive sum. */
  function Floors(m: nat, w: Weights): NmId -> int {
    var W := WeightSum(w);
    (k: NmId) => if W > 0 then m * w.GetOr(k, 0) / W else 0
  }

  /** `magnitude * weight % weight_sum`, for a positive sum. */
  function Remainders(m: nat, w: Weights): NmId -> int {
    var W := WeightSum(w);
    (k: NmId) => if W > 0 then m * w.GetOr(k, 0) % W else 0
  }

  /** The sort key `(-remainder, key)`. */
  function Before(rem: NmId -> int): (NmId, NmId) -> bool {
    (a: NmId, b: NmId) => rem(a) > rem(b) || (rem(a) == rem(b) && KeyLess(a, b))
  }

  /** The first `left` keys by remainder: those that receive one kopeck more than their floor. */
  function Lucky(order: seq<NmId>, rem: NmId -> int, left: int): seq<NmId> {
    var ranked := Sort(order, Before(rem));
    if 0 <= left <= |ranked| then ranked[..left] else ranked
  }

  function Bit(b: bool): int {
    if b then 1 else 0
  }

  /** One article's part under largest-remainder rounding, for any floors, remainders and kopecks left over. */
  function Part(order: seq<NmId>, floor: NmId -> int, rem: NmId -> int, left: int, k: NmId): int {
    floor(k) + Bit(k in Lucky(order, rem, left))
  }

  function Magnitude(m: nat, w: Weights, k: NmId): int {
    Part(w.order, Floors(m, w), Remainders(m, w), m - Sum(w.order, Floors(m, w)), k)
  }

  /** `sign * value` */
  function Signed(total: int, magnitude: int): int {
    if total < 0 then -magnitude else magnitude
  }

  /** The specification of the whole call. */
  function Allocation(total: int, weights: Weights): Weights {
    if total == 0 || weights.order == [] then
      Dict(weights.order, map k | k in weights.at :: 0)
    else
      var w := Effective(weights);
      Dict(weights.order, map k | k in weights.at :: Signed(total, Magnitude(Abs(total), w, k)))
  }

  lemma EffectiveUsable(weights: Weights)
    requires weights.Valid() && weights.order != []
    ensures Usable(Effective(weights))
    ensures WeightSum(weights) <= 0 ==> WeightSum(Effective(weights)) == |weights.order|
  {
    if WeightSum(weights) <= 0 {
      var w := Effective(weights);
      SumBounds(w.order, k => w.GetOr(k, 0), 1, 1);
    }
  }

  // ---- Rounding by largest remainder, for any floors and remainders of a common divisor W ----

  lemma RankedOrder(order: seq<NmId>, rem: NmId -> int)
    requires Distinct(order)
    ensures StrictOrder(Before(rem))
    ensures var r := Sort(order, Before(rem));
      Ascending(r, Before(rem)) && Distinct(r) && |r| == |order| && forall k :: k in r <==> k in order
  {
    KeyOrder();
    SortSorts(order, Before(rem));
  }

  lemma LeftoverRange(order: seq<NmId>, rem: NmId -> int, W: int, left: int)
    requires order != [] && W > 0 && forall k :: k in order ==> 0 <= rem(k) < W
    requires Sum(order, rem) == left * W
    ensures 0 <= left < |order|
  {
    SumBounds(order, rem, 0, W - 1);
    Distribute(W, 1, |order|);
    Commute(|order|, W - 1);
    Commute(|order|, W);
    if left < 0 {
      Monotone(left, -1, W);
    }
    if |order| <= left {
      Monotone(|order|, left, W);
    }
  }

  /** Once a key with an exact quota is reached, only exact quotas follow. */
  lemma ExactTail(r: seq<NmId>, rem: NmId -> int, i: nat, k: NmId)
    requires Ascending(r, Before(rem)) && i < |r| && rem(r[i]) == 0 && k in r[i..]
    ensures rem(k) <= 0
  {
    var j :| 0 <= j < |r[i..]| && r[i..][j] == k;
    if j > 0 {
      assert Before(rem)(r[i], r[i + j]);
    }
  }

  /** A sum bounded separately before and from position i. */
  lemma SumInTwoParts(r: seq<NmId>, g: NmId -> int, i: nat, lo: int, hi: int)
    requires i <= |r|
    requires forall k :: k in r[..i] ==> lo <= g(k) <= hi
    requires forall k :: k in r[i..] ==> g(k) == 0
    ensures i * lo <= Sum(r, g) <= i * hi
  {
    assert r == r[..i] + r[i..];
    SumConcat(r[..i], r[i..], g);
    SumBounds(r[..i], g, lo, hi);
    SumBounds(r[i..], g, 0, 0);
  }

  /** Only an inexact quota is rounded up. */
  lemma LuckyHaveRemainder(order: seq<NmId>, rem: NmId -> int, W: int, left: int, i: nat)
    requires Distinct(order) && W > 0 && forall k :: k in order ==> 0 <= rem(k) < W
    requires Sum(order, rem) == left * W && 0 <= left <= |order| && i < |Lucky(order, rem, left)|
    ensures 0 < rem(Lucky(order, rem, left)[i])
  {
    var r := Sort(order, Before(rem));
    RankedOrder(order, rem);
    assert r[i] in order;
    if rem(r[i]) == 0 {
      forall k | k in r[i..] ensures rem(k) == 0 {
        ExactTail(r, rem, i, k);
        assert k in r;
      }
      forall k | k in r[..i] ensures 0 <= rem(k) <= W - 1 {
        assert k in r;
      }
      SumReorder(order, r, rem);
      SumInTwoParts(r, rem, i, 0, W - 1);
      PartsAreTooSmall(i, left, W);
    }
  }

  lemma LuckyCounted(order: seq<NmId>, rem: NmId -> int, left: int)
    requires Distinct(order) && 0 <= left <= |order|
    ensures Sum(order, k => Bit(k in Lucky(order, rem, left))) == left
  {
    var r, lucky := Sort(order, Before(rem)), Lucky(order, rem, left);
    var extra := (k: NmId) => Bit(k in lucky);
    RankedOrder(order, rem);
    SumReorder(order, r, extra);
    forall k | k in r[left..] ensures extra(k) == 0 {
      var j :| left <= j < |r| && r[j] == k;
    }
    SumInTwoParts(r, extra, left, 1, 1);
    SumSame(order, extra, k => Bit(k in Lucky(order, rem, left)));
  }

  // ---- The same facts at the weights of one call ----

  lemma QuotaSplit(m: nat, w: Weights, k: NmId)
    requires WeightSum(w) > 0
    ensures m * w.GetOr(k, 0) == WeightSum(w) * Floors(m, w)(k) + Remainders(m, w)(k)
    ensures 0 <= Remainders(m, w)(k) < WeightSum(w)
  {
    DivisionSplit(m * w.GetOr(k, 0), WeightSum(w));
  }

  /** The remainders make up whole kopecks: the ones the floors left over. */
  lemma RemaindersTotal(m: nat, w: Weights)
    requires Usable(w)
    ensures Sum(w.order, Remainders(m, w)) == (m - Sum(w.order, Floors(m, w))) * WeightSum(w)
    ensures 0 <= m - Sum(w.order, Floors(m, w)) < |w.order|
  {
    var W, weight := WeightSum(w), (k => w.GetOr(k, 0));
    var quota, part := (k => m * weight(k)), (k => W * Floors(m, w)(k));
    forall k ensures quota(k) == part(k) + Remainders(m, w)(k) && 0 <= Remainders(m, w)(k) < W {
      QuotaSplit(m, w, k);
    }
    SumScaled(w.order, m, weight, quota);
    SumScaled(w.order, W, Floors(m, w), part);
    SumPlus(w.order, part, Remainders(m, w), quota);
    SumSame(w.order, weight, k => w.GetOr(k, 0));
    Distribute(m, Sum(w.order, Floors(m, w)), W);
    Commute(W, Sum(w.order, Floors(m, w)));
    LeftoverRange(w.order, Remainders(m, w), W, m - Sum(w.order, Floors(m, w)));
  }

  lemma LeftoverCounted(m: nat, w: Weights)
    requires Usable(w)
    ensures 0 <= m - Sum(w.order, Floors(m, w)) < |w.order|
  {
    RemaindersTotal(m, w);
  }

  lemma LuckyInexact(m: nat, w: Weights, k: NmId)
    requires Usable(w) && k in Lucky(w.order, Remainders(m, w), m - Sum(w.order, Floors(m, w)))
    ensures 0 < Remainders(m, w)(k)
  {
    var left, rem := m - Sum(w.order, Floors(m, w)), Remainders(m, w);
    assert forall j :: 0 <= rem(j) < WeightSum(w) by {
      forall j ensures 0 <= rem(j) < WeightSum(w) { QuotaSplit(m, w, j); }
    }
    RemaindersTotal(m, w);
    var lucky := Lucky(w.order, rem, left);
    var i :| 0 <= i < |lucky| && lucky[i] == k;
    LuckyHaveRemainder(w.order, rem, WeightSum(w), left, i);
  }

  lemma QuotaClose(m: nat, w: Weights, k: NmId, up: bool)
    requires WeightSum(w) > 0 && (up ==> 0 < Remainders(m, w)(k))
    ensures -WeightSum(w) < WeightSum(w) * (Floors(m, w)(k) + Bit(up)) - m * w.GetOr(k, 0) < WeightSum(w)
  {
    QuotaSplit(m, w, k);
    RoundedClose(Floors(m, w)(k), Remainders(m, w)(k), m * w.GetOr(k, 0), WeightSum(w), Bit(up));
  }

  lemma MagnitudeClose(m: nat, w: Weights, k: NmId)
    requires Usable(w)
    ensures -WeightSum(w) < WeightSum(w) * Magnitude(m, w, k) - m * w.GetOr(k, 0) < WeightSum(w)
  {
    var lucky := k in Lucky(w.order, Remainders(m, w), m - Sum(w.order, Floors(m, w)));
    assert Magnitude(m, w, k) == Floors(m, w)(k) + Bit(lucky);
    if lucky {
      LuckyInexact(m, w, k);
    }
    QuotaClose(m, w, k, lucky);
  }

  lemma MagnitudesTotal(m: nat, w: Weights)
    requires Usable(w)
    ensures Sum(w.order, k => Magnitude(m, w, k)) == m
  {
    var left, rem := m - Sum(w.order, Floors(m, w)), Remainders(m, w);
    RemaindersTotal(m, w);
    LuckyCounted(w.order, rem, left);
    SumPlus(w.order, Floors(m, w), k => Bit(k in Lucky(w.order, rem, left)), k => Magnitude(m, w, k));
  }

  // ---- What the program promises of an allocation ----

  /** The shares add up to the signed total, whatever the weights. */
  lemma SharesSum(total: int, weights: Weights)
    requires weights.Valid() && weights.order != []
    ensures Allocation(total, weights).Valid() && Allocation(total, weights).order == weights.order
    ensures WeightSum(Allocation(total, weights)) == total
  {
    var a := Allocation(total, weights);
    if total == 0 {
      SumBounds(a.order, k => a.GetOr(k, 0), 0, 0);
    } else {
      EffectiveUsable(weights);
      var w := Effective(weights);
      MagnitudesTotal(Abs(total), w);
      SumScaled(a.order, if total < 0 then -1 else 1, k => Magnitude(Abs(total), w, k), k => a.GetOr(k, 0));
    }
  }

  /** Every share is its exact quota rounded down or up: it misses the quota by less than one kopeck. */
  lemma ShareIsRounded(total: int, weights: Weights, k: NmId)
    requires weights.Valid() && k in weights.at
    ensures var w := Effective(weights);
      -WeightSum(w) < WeightSum(w) * Allocation(total, weights).at[k] - total * w.at[k] < WeightSum(w)
  {
    var w := Effective(weights);
    var weight, share := w.at[k], Magnitude(Abs(total), w, k);
    assert k in weights.order && weight == w.GetOr(k, 0);
    ShareOfWeight(total, Abs(total), weights, k, share);
    assert WeightSum(w) > 0 by {
      EffectiveUsable(weights);
    }
    assert -WeightSum(w) < WeightSum(w) * share - Abs(total) * weight < WeightSum(w) by {
      EffectiveUsable(weights);
      MagnitudeClose(Abs(total), w, k);
    }
    SignedClose(WeightSum(w), share, total, weight);
  }

  /** A charge misses its part of the total by less than one kopeck: by weight, or in equal parts without weights. */
  predicate FairCharge(charge: int, total: int, weight: int, weights: int, articles: int) {
    if weights > 0 then -weights < weights * charge - total * weight < weights
    else -articles < articles * charge - total < articles
  }

  /** So every share is fair. */
  lemma ShareIsFair(total: int, weights: Weights, k: NmId)
    requires weights.Valid() && k in weights.at
    ensures FairCharge(Allocation(total, weights).at[k], total, weights.at[k], WeightSum(weights), |weights.order|)
  {
    var w := Effective(weights);
    assert k in weights.order;
    EffectiveUsable(weights);
    ShareIsRounded(total, weights, k);
    FairByWeight(WeightSum(w), w.at[k], Allocation(total, weights).at[k], total, weights.at[k], WeightSum(weights),
      |weights.order|);
  }

  lemma FairByWeight(W: int, part: int, charge: int, total: int, weight: int, weights: int, articles: int)
    requires -W < W * charge - total * part < W
    requires if weights > 0 then W == weights && part == weight else W == articles && part == 1
    ensures FairCharge(charge, total, weight, weights, articles)
  {
  }

  lemma ShareOfWeight(total: int, m: nat, weights: Weights, k: NmId, share: int)
    requires m == Abs(total)
    requires weights.order != [] && k in weights.at && share == Magnitude(m, Effective(weights), k)
    ensures Allocation(total, weights).at[k] == if total == 0 then 0 else if total < 0 then -share else share
  {
  }

  /** A zero weight pays nothing as soon as the weights add up to something positive. */
  lemma ZeroWeightPaysNothing(total: int, weights: Weights, k: NmId)
    requires weights.Valid() && k in weights.at && weights.at[k] == 0 && WeightSum(weights) > 0
    ensures Allocation(total, weights).at[k] == 0
  {
    var share, W := Allocation(total, weights).at[k], WeightSum(weights);
    assert -W < W * share < W by {
      ShareIsRounded(total, weights, k);
      Commute(total, 0);
    }
    Bounded(share, W, 1);
  }

  /** A key with a larger remainder is served first. */
  lemma LuckyByRemainder(order: seq<NmId>, rem: NmId -> int, left: int, j: NmId, k: NmId)
    requires Distinct(order) && j in Lucky(order, rem, left) && k in order && rem(j) < rem(k)
    ensures k in Lucky(order, rem, left)
  {
    var r, lucky := Sort(order, Before(rem)), Lucky(order, rem, left);
    RankedOrder(order, rem);
    var i :| 0 <= i < |lucky| && r[i] == j;
    var l :| 0 <= l < |r| && r[l] == k;
    assert forall x, y :: 0 <= x < y < |r| ==> rem(r[x]) >= rem(r[y]) by {
      assert forall x, y :: 0 <= x < y < |r| ==> Before(rem)(r[x], r[y]);
    }
    assert lucky[l] == k;
  }

  /** Rounding keeps the order of exact quotas. */
  lemma PartMonotone(order: seq<NmId>, floor: NmId -> int, rem: NmId -> int, left: int, j: NmId, k: NmId)
    requires Distinct(order) && k in order
    requires floor(j) < floor(k) || (floor(j) == floor(k) && rem(j) < rem(k))
    ensures Part(order, floor, rem, left, j) <= Part(order, floor, rem, left, k)
  {
    if j in Lucky(order, rem, left) && floor(j) == floor(k) {
      LuckyByRemainder(order, rem, left, j, k);
    }
  }

  /** Among equal remainders the key that is first as a text is served first. */
  lemma LuckyByText(order: seq<NmId>, rem: NmId -> int, left: int, j: NmId, k: NmId)
    requires Distinct(order) && k in Lucky(order, rem, left) && j in order && rem(j) == rem(k)
    requires TextLess(Decimal(j), Decimal(k))
    ensures j in Lucky(order, rem, left)
  {
    var r, lucky := Sort(order, Before(rem)), Lucky(order, rem, left);
    RankedOrder(order, rem);
    var i :| 0 <= i < |lucky| && r[i] == k;
    var l :| 0 <= l < |r| && r[l] == j;
    if i < l {
      assert Before(rem)(r[i], r[l]);
      assert KeyLess(k, j) && KeyLess(j, k);
      KeyOrder();
    }
    assert lucky[l] == j;
  }

  lemma QuotaMonotone(m: nat, w: Weights, j: NmId, k: NmId)
    requires WeightSum(w) > 0 && m > 0 && w.GetOr(j, 0) < w.GetOr(k, 0)
    ensures Floors(m, w)(j) < Floors(m, w)(k)
      || (Floors(m, w)(j) == Floors(m, w)(k) && Remainders(m, w)(j) < Remainders(m, w)(k))
  {
    QuotaSplit(m, w, j);
    QuotaSplit(m, w, k);
    Grow(m, w.GetOr(j, 0), w.GetOr(k, 0));
    QuotientsCompare(Floors(m, w)(j), Remainders(m, w)(j), Floors(m, w)(k), Remainders(m, w)(k), WeightSum(w));
  }

  lemma MagnitudeMonotone(m: nat, w: Weights, j: NmId, k: NmId)
    requires Usable(w) && m > 0 && j in w.at && k in w.at && w.at[j] < w.at[k]
    ensures Magnitude(m, w, j) <= Magnitude(m, w, k)
  {
    QuotaMonotone(m, w, j, k);
    assert k in w.order;
    PartMonotone(w.order, Floors(m, w), Remainders(m, w), m - Sum(w.order, Floors(m, w)), j, k);
  }

  /** A larger weight never takes a smaller part of the total. */
  lemma LargerWeightPaysNoLess(total: int, weights: Weights, j: NmId, k: NmId)
    requires weights.Valid() && WeightSum(weights) > 0
    requires j in weights.at && k in weights.at && weights.at[j] < weights.at[k]
    ensures var a := Allocation(total, weights).at;
      if total >= 0 then a[j] <= a[k] else a[j] >= a[k]
  {
    assert j in weights.order;
    if total != 0 {
      MagnitudeMonotone(Abs(total), weights, j, k);
    }
  }

  /** Of two equal weights the one that is first as a text never takes the smaller part. */
  lemma EqualWeightsByText(total: int, weights: Weights, j: NmId, k: NmId)
    requires weights.Valid() && j in weights.at && k in weights.at && weights.at[j] == weights.at[k]
    requires TextLess(Decimal(j), Decimal(k))
    ensures var a := Allocation(total, weights).at;
      if total >= 0 then a[j] >= a[k] else a[j] <= a[k]
  {
    assert j in weights.order && k in weights.order;
    if total != 0 {
      EqualMagnitudesByText(Abs(total), Effective(weights), j, k);
    }
  }

  lemma EqualMagnitudesByText(m: nat, w: Weights, j: NmId, k: NmId)
    requires w.Valid() && j in w.at && k in w.at && w.at[j] == w.at[k] && TextLess(Decimal(j), Decimal(k))
    ensures Magnitude(m, w, j) >= Magnitude(m, w, k)
  {
    var floor, rem, left := Floors(m, w), Remainders(m, w), m - Sum(w.order, Floors(m, w));
    assert j in w.order && floor(j) == floor(k) && rem(j) == rem(k);
    if k in Lucky(w.order, rem, left) {
      LuckyByText(w.order, rem, left, j, k);
    }
  }

  /** Turning a charge into a refund of the same size flips every share and moves nothing else. */
  lemma NegatedTotal(total: int, weights: Weights, k: NmId)
    requires k in weights.at
    ensures Allocation(-total, weights).at[k] == -Allocation(total, weights).at[k]
  {
    if weights.order != [] {
      var m := Abs(total);
      var share := Magnitude(m, Effective(weights), k);
      assert m == Abs(-total);
      ShareOfWeight(total, m, weights, k, share);
      ShareOfWeight(-total, m, weights, k, share);
    }
  }

  lemma WeightSumReorder(v: Weights, w: Weights)
    requires v.Valid() && w.Valid() && v.at == w.at
    ensures WeightSum(v) == WeightSum(w)
  {
    SumReorder(v.order, w.order, k => v.GetOr(k, 0));
    SumSame(w.order, k => v.GetOr(k, 0), k => w.GetOr(k, 0));
  }

  lemma MagnitudeReorder(m: nat, v: Weights, w: Weights, k: NmId)
    requires v.Valid() && w.Valid() && v.at == w.at
    ensures Magnitude(m, v, k) == Magnitude(m, w, k)
  {
    QuotasReorder(m, v, w);
    PartReorder(v.order, w.order, Floors(m, v), Floors(m, w), Remainders(m, v), Remainders(m, w),
      m - Sum(v.order, Floors(m, v)), k);
  }

  lemma PartReorder(
    s: seq<NmId>, t: seq<NmId>, floor: NmId -> int, same: NmId -> int, rem: NmId -> int, same': NmId -> int,
    left: int, k: NmId)
    requires Distinct(s) && Distinct(t) && forall j :: j in s <==> j in t
    requires floor(k) == same(k) && forall j :: rem(j) == same'(j)
    ensures Part(s, floor, rem, left, k) == Part(t, same, same', left, k)
  {
    LuckyCanonical(s, t, rem, same', left);
  }

  lemma QuotasReorder(m: nat, v: Weights, w: Weights)
    requires v.Valid() && w.Valid() && v.at == w.at
    ensures forall k :: Floors(m, v)(k) == Floors(m, w)(k) && Remainders(m, v)(k) == Remainders(m, w)(k)
    ensures Sum(v.order, Floors(m, v)) == Sum(w.order, Floors(m, w))
  {
    WeightSumReorder(v, w);
    SumReorder(v.order, w.order, Floors(m, v));
    SumSame(w.order, Floors(m, v), Floors(m, w));
  }

  lemma EffectiveReorder(v: Weights, w: Weights)
    requires v.Valid() && w.Valid() && v.at == w.at
    ensures Effective(v).at == Effective(w).at && Effective(v).Valid() && Effective(w).Valid()
  {
    WeightSumReorder(v, w);
  }

  /** The order in which articles entered the dict does not influence anyone's share. */
  lemma InsertionOrderIrrelevant(total: int, v: Weights, w: Weights)
    requires v.Valid() && w.Valid() && v.at == w.at
    ensures Allocation(total, v).at == Allocation(total, w).at
  {
    assert v.order != [] ==> v.order[0] in w.order;
    assert w.order != [] ==> w.order[0] in v.order;
    var a, b := Allocation(total, v).at, Allocation(total, w).at;
    AllocationKeys(total, v);
    AllocationKeys(total, w);
    forall k | k in a ensures a[k] == b[k] {
      ShareReorder(total, v, w, k);
    }
  }

  lemma AllocationKeys(total: int, weights: Weights)
    ensures Allocation(total, weights).at.Keys == weights.at.Keys
  {
  }

  lemma ShareReorder(total: int, v: Weights, w: Weights, k: NmId)
    requires v.Valid() && w.Valid() && v.at == w.at && k in v.at && (v.order == [] <==> w.order == [])
    ensures Allocation(total, v).at[k] == Allocation(total, w).at[k]
  {
    if total != 0 && v.order != [] {
      EffectiveReorder(v, w);
      MagnitudeReorder(Abs(total), Effective(v), Effective(w), k);
      ShareOfWeight(total, Abs(total), v, k, Magnitude(Abs(total), Effective(v), k));
      ShareOfWeight(total, Abs(total), w, k, Magnitude(Abs(total), Effective(w), k));
    }
  }

  lemma LuckyCanonical(s: seq<NmId>, t: seq<NmId>, rem: NmId -> int, same: NmId -> int, left: int)
    requires Distinct(s) && Distinct(t) && forall k :: k in s <==> k in t
    requires forall k :: rem(k) == same(k)
    ensures Lucky(s, rem, left) == Lucky(t, same, left)
  {
    RankedOrder(s, rem);
    RankedOrder(t, same);
    var a, b := Sort(s, Before(rem)), Sort(t, Before(same));
    assert Ascending(b, Before(rem));
    AscendingUnique(a, b, Before(rem));
  }

  /** `for key in sorted(...)[:remainder]: shares[key] += 1` */
  method RoundUp(floors: map<NmId, int>, keys: seq<NmId>, rem: NmId -> int, remainder: nat)
    returns (shares: map<NmId, int>)
    requires remainder <= |keys| && Distinct(keys) && forall k :: k in keys ==> k in floors
    ensures shares == map k | k in floors :: floors[k] + Bit(k in Lucky(keys, rem, remainder))
  {
    RankedOrder(keys, rem);
    var order := Sort(keys, Before(rem));
    shares := floors;
    for i := 0 to remainder
      invariant shares.Keys == floors.Keys
      invariant forall k :: k in floors ==> shares[k] == floors[k] + Bit(k in order[..i])
    {
      var key := order[i];
      assert key in order;
      assert key !in order[..i] && forall k :: k in order[..i + 1] <==> k in order[..i] || k == key by {
        TakenOnce(order, i);
      }
      shares := shares[key := shares[key] + 1];
    }
  }

  /** Parts, for any floors, remainders and kopecks left over. */
  method SplitParts(at: map<NmId, int>, order: seq<NmId>, floor: NmId -> int, rem: NmId -> int, left: int)
    returns (shares: map<NmId, int>)
    requires 0 <= left <= |order| && Distinct(order) && forall k :: k in order ==> k in at
    ensures shares == map k | k in at :: Part(order, floor, rem, left, k)
  {
    var floors := map k | k in at :: floor(k);
    shares := RoundUp(floors, order, rem, left);
  }

  method SplitMagnitude(magnitude: nat, w: Weights) returns (shares: map<NmId, int>)
    requires Usable(w)
    ensures shares == map k | k in w.at :: Magnitude(magnitude, w, k)
  {
    var floor, rem := Floors(magnitude, w), Remainders(magnitude, w);
    var remainder := magnitude - Sum(w.order, floor);
    LeftoverCounted(magnitude, w);
    shares := SplitParts(w.at, w.order, floor, rem, remainder);
  }

  /** The call itself. */
  method AllocateSignedTotal(total: int, weights: Weights) returns (shares: Weights)
    requires weights.Valid()
    ensures shares == Allocation(total, weights)
  {
    if total == 0 || |weights.order| == 0 {
      return Dict(weights.order, map k | k in weights.at :: 0);
    }
    EffectiveUsable(weights);
    var w := weights;
    if WeightSum(weights) <= 0 {
      w := Dict(weights.order, map k | k in weights.at :: 1);
    }
    var at := SplitMagnitude(Abs(total), w);
    AllocationOf(total, weights, at);
    shares := Dict(weights.order, map k | k in at :: Signed(total, at[k]));
  }

  lemma AllocationOf(total: int, weights: Weights, at: map<NmId, int>)
    requires total != 0 && weights.order != []
    requires at == map k | k in weights.at :: Magnitude(Abs(total), Effective(weights), k)
    ensures Dict(weights.order, map k | k in at :: Signed(total, at[k])) == Allocation(total, weights)
  {
  }
}
