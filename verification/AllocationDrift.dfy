/**
 * Costs that satisfy an identity in account totals (one is the sum of two others) are split independently,
 * each with its own rounding. Three roundings of less than a kopeck each could make an article miss the
 * identity by two kopecks; the shared ranking rule keeps the miss to one.
 */
module AllocationDrift {
  import opened Arith
  import opened Dicts
  import opened Keys
  import opened Sorting
  import opened Allocator

  function Ahead(rem: NmId -> int, k: NmId): NmId -> int {
    (j: NmId) => Bit(Before(rem)(j, k))
  }

  /** A key is served exactly when fewer keys than there are kopecks left rank ahead of it. */
  lemma LuckyByRank(order: seq<NmId>, rem: NmId -> int, left: int, k: NmId)
    requires Distinct(order) && k in order && 0 <= left <= |order|
    ensures k in Lucky(order, rem, left) <==> Sum(order, Ahead(rem, k)) < left
  {
    var r := Sort(order, Before(rem));
    RankedOrder(order, rem);
    var i :| 0 <= i < |r| && r[i] == k;
    RankIsPosition(r, rem, i);
    SumReorder(order, r, Ahead(rem, k));
    assert i < left ==> r[..left][i] in r[..left];
    if k in r[..left] {
      var j :| 0 <= j < left && r[j] == k;
    }
  }

  lemma RankIsPosition(r: seq<NmId>, rem: NmId -> int, i: nat)
    requires Ascending(r, Before(rem)) && StrictOrder(Before(rem)) && i < |r|
    ensures Sum(r, Ahead(rem, r[i])) == i
  {
    forall k | k in r[..i] ensures Ahead(rem, r[i])(k) == 1 {
      var j :| 0 <= j < i && r[j] == k;
    }
    forall k | k in r[i..] ensures Ahead(rem, r[i])(k) == 0 {
      var j :| i <= j < |r| && r[j] == k;
      assert j == i || Before(rem)(r[i], r[j]);
    }
    SumInTwoParts(r, Ahead(rem, r[i]), i, 1, 1);
  }

  /** Whether adding the two remainders completes one more whole kopeck. */
  function Carry(W: int, ra: NmId -> int, rb: NmId -> int): NmId -> int {
    (j: NmId) => Bit(ra(j) + rb(j) >= W)
  }

  /** rc is the remainder of the sum of the two quotas whose remainders are ra and rb. */
  ghost predicate AddsUp(W: int, ra: NmId -> int, rb: NmId -> int, rc: NmId -> int) {
    && (forall j :: 0 <= ra(j) < W && 0 <= rb(j) < W)
    && (forall j :: rc(j) == ra(j) + rb(j) - if ra(j) + rb(j) >= W then W else 0)
  }

  lemma Values(W: int, ra: NmId -> int, rb: NmId -> int, rc: NmId -> int, j: NmId)
    requires AddsUp(W, ra, rb, rc)
    ensures 0 <= ra(j) < W && 0 <= rb(j) < W
    ensures rc(j) == ra(j) + rb(j) - if ra(j) + rb(j) >= W then W else 0
    ensures Carry(W, ra, rb)(j) == Bit(ra(j) + rb(j) >= W)
  {
  }

  lemma Position(rem: NmId -> int, k: NmId, j: NmId)
    ensures Ahead(rem, k)(j) == Bit(rem(j) > rem(k) || (rem(j) == rem(k) && KeyLess(j, k)))
  {
    var less: (NmId, NmId) -> bool := Before(rem);
    assert less(j, k) == (rem(j) > rem(k) || (rem(j) == rem(k) && KeyLess(j, k)));
    assert Ahead(rem, k)(j) == Bit(less(j, k));
  }

  lemma Positions(ra: NmId -> int, rb: NmId -> int, rc: NmId -> int, k: NmId, j: NmId)
    ensures Ahead(ra, k)(j) == Bit(ra(j) > ra(k) || (ra(j) == ra(k) && KeyLess(j, k)))
    ensures Ahead(rb, k)(j) == Bit(rb(j) > rb(k) || (rb(j) == rb(k) && KeyLess(j, k)))
    ensures Ahead(rc, k)(j) == Bit(rc(j) > rc(k) || (rc(j) == rc(k) && KeyLess(j, k)))
    ensures !KeyLess(k, k)
  {
    KeyOrder();
    Position(ra, k, j);
    Position(rb, k, j);
    Position(rc, k, j);
  }

  /** When k itself carries nothing, a key ahead of it in the sum is ahead of it in a part, twice if it carries. */
  lemma AheadWithoutCarry(W: int, ra: NmId -> int, rb: NmId -> int, rc: NmId -> int, k: NmId, j: NmId)
    requires AddsUp(W, ra, rb, rc) && ra(k) + rb(k) < W
    ensures Ahead(rc, k)(j) <= Ahead(ra, k)(j) + Ahead(rb, k)(j) - Carry(W, ra, rb)(j)
  {
    Values(W, ra, rb, rc, k);
    Values(W, ra, rb, rc, j);
    Positions(ra, rb, rc, k, j);
  }

  /** When k carries, the converse bound. */
  lemma AheadWithCarry(W: int, ra: NmId -> int, rb: NmId -> int, rc: NmId -> int, k: NmId, j: NmId)
    requires AddsUp(W, ra, rb, rc) && ra(k) + rb(k) >= W && j != k
    ensures Ahead(rc, k)(j) >= Ahead(ra, k)(j) + Ahead(rb, k)(j) - Carry(W, ra, rb)(j)
  {
    Values(W, ra, rb, rc, k);
    Values(W, ra, rb, rc, j);
    Positions(ra, rb, rc, k, j);
  }

  lemma {:induction false} SumAtMost(s: seq<NmId>, g: NmId -> int, h: NmId -> int)
    requires forall j :: j in s ==> g(j) <= h(j)
    ensures Sum(s, g) <= Sum(s, h)
  {
    if s != [] {
      SumAtMost(s[..|s| - 1], g, h);
    }
  }

  /** The number of keys ahead of k in the sum, against the two parts, in both cases. */
  lemma RanksAddUp(order: seq<NmId>, W: int, ra: NmId -> int, rb: NmId -> int, rc: NmId -> int, k: NmId)
    requires Distinct(order) && k in order && AddsUp(W, ra, rb, rc)
    ensures var gap := Sum(order, Ahead(ra, k)) + Sum(order, Ahead(rb, k)) - Sum(order, Carry(W, ra, rb));
      if ra(k) + rb(k) < W then Sum(order, Ahead(rc, k)) <= gap else Sum(order, Ahead(rc, k)) >= gap + 1
  {
    var a, b, c, carry := Ahead(ra, k), Ahead(rb, k), Ahead(rc, k), Carry(W, ra, rb);
    var ab, abc := (j: NmId) => a(j) + b(j), (j: NmId) => c(j) + carry(j);
    SumPlus(order, a, b, ab);
    SumPlus(order, c, carry, abc);
    if ra(k) + rb(k) < W {
      forall j ensures abc(j) <= ab(j) { AheadWithoutCarry(W, ra, rb, rc, k, j); }
      SumAtMost(order, abc, ab);
    } else {
      var one := (j: NmId) => if j == k then 1 else 0;
      var ab1 := (j: NmId) => ab(j) + one(j);
      forall j ensures ab1(j) <= abc(j) {
        if j != k {
          AheadWithCarry(W, ra, rb, rc, k, j);
        } else {
          Positions(ra, rb, rc, k, k);
          Values(W, ra, rb, rc, k);
        }
      }
      SumPick(order, k, 1, one);
      SumPlus(order, ab, one, ab1);
      SumAtMost(order, ab1, abc);
    }
  }

  /** The quotas of a and b, and of their sum, at the weights of one call. */
  lemma QuotasAddUp(a: nat, b: nat, w: Weights, k: NmId)
    requires WeightSum(w) > 0
    ensures var W, ra, rb := WeightSum(w), Remainders(a, w)(k), Remainders(b, w)(k);
      && 0 <= ra < W && 0 <= rb < W
      && Remainders(a + b, w)(k) == ra + rb - (if ra + rb >= W then W else 0)
      && Floors(a + b, w)(k) == Floors(a, w)(k) + Floors(b, w)(k) + Bit(ra + rb >= W)
  {
    QuotaSplit(a, w, k);
    QuotaSplit(b, w, k);
    QuotaSplit(a + b, w, k);
    var x := w.GetOr(k, 0);
    assert a * x + b * x == (a + b) * x by { Distribute(a, b, x); }
    QuotientsAdd(WeightSum(w), a * x, Floors(a, w)(k), Remainders(a, w)(k), b * x, Floors(b, w)(k),
      Remainders(b, w)(k), Floors(a + b, w)(k), Remainders(a + b, w)(k));
  }

  /** The kopecks left over by the sum: those left over by the parts, less the carried ones. */
  lemma LeftoversAddUp(a: nat, b: nat, w: Weights)
    requires Usable(w)
    ensures AddsUp(WeightSum(w), Remainders(a, w), Remainders(b, w), Remainders(a + b, w))
    ensures Sum(w.order, Floors(a + b, w)) == Sum(w.order, Floors(a, w)) + Sum(w.order, Floors(b, w))
      + Sum(w.order, Carry(WeightSum(w), Remainders(a, w), Remainders(b, w)))
  {
    var W, ra, rb, rc := WeightSum(w), Remainders(a, w), Remainders(b, w), Remainders(a + b, w);
    var f, g, h, carry := Floors(a, w), Floors(b, w), Floors(a + b, w), Carry(W, Remainders(a, w), Remainders(b, w));
    var fg := (j: NmId) => f(j) + g(j);
    forall j ensures 0 <= ra(j) < W && 0 <= rb(j) < W
      && rc(j) == ra(j) + rb(j) - (if ra(j) + rb(j) >= W then W else 0) && h(j) == fg(j) + carry(j)
    {
      QuotasAddUp(a, b, w, j);
    }
    SumPlus(w.order, f, g, fg);
    SumPlus(w.order, fg, carry, h);
  }

  lemma PartsAddUp(
    order: seq<NmId>, W: int, k: NmId,
    fa: NmId -> int, ra: NmId -> int, la: int, fb: NmId -> int, rb: NmId -> int, lb: int,
    fc: NmId -> int, rc: NmId -> int, lc: int)
    requires Distinct(order) && k in order && AddsUp(W, ra, rb, rc)
    requires 0 <= la <= |order| && 0 <= lb <= |order| && 0 <= lc <= |order|
    requires lc == la + lb - Sum(order, Carry(W, ra, rb))
    requires fc(k) == fa(k) + fb(k) + Bit(ra(k) + rb(k) >= W)
    ensures -1 <= Part(order, fa, ra, la, k) + Part(order, fb, rb, lb, k) - Part(order, fc, rc, lc, k) <= 1
  {
    RanksAddUp(order, W, ra, rb, rc, k);
    LuckyByRank(order, ra, la, k);
    LuckyByRank(order, rb, lb, k);
    LuckyByRank(order, rc, lc, k);
  }

  lemma MagnitudeIsPart(m: nat, w: Weights, k: NmId, floor: NmId -> int, rem: NmId -> int, left: int)
    requires floor == Floors(m, w) && rem == Remainders(m, w) && left == m - Sum(w.order, floor)
    ensures Magnitude(m, w, k) == Part(w.order, floor, rem, left, k)
  {
  }

  /** Splitting a and b separately or together changes no article by more than one kopeck. */
  lemma SplitTogetherOrApart(a: nat, b: nat, c: nat, w: Weights, k: NmId)
    requires Usable(w) && k in w.order && c == a + b
    ensures -1 <= Magnitude(a, w, k) + Magnitude(b, w, k) - Magnitude(c, w, k) <= 1
  {
    var fa, ra, la := Floors(a, w), Remainders(a, w), a - Sum(w.order, Floors(a, w));
    var fb, rb, lb := Floors(b, w), Remainders(b, w), b - Sum(w.order, Floors(b, w));
    var fc, rc, lc := Floors(c, w), Remainders(c, w), c - Sum(w.order, Floors(c, w));
    RemaindersTotal(a, w);
    RemaindersTotal(b, w);
    RemaindersTotal(c, w);
    LeftoversAddUp(a, b, w);
    QuotasAddUp(a, b, w, k);
    PartsAddUp(w.order, WeightSum(w), k, fa, ra, la, fb, rb, lb, fc, rc, lc);
    MagnitudeIsPart(a, w, k, fa, ra, la);
    MagnitudeIsPart(b, w, k, fb, rb, lb);
    MagnitudeIsPart(c, w, k, fc, rc, lc);
  }

  /** What a key is charged, without looking at how. */
  lemma ShareMagnitude(total: int, weights: Weights, k: NmId)
    requires weights.Valid() && k in weights.at && total != 0
    ensures Allocation(total, weights).at[k] == Signed(total, Magnitude(Abs(total), Effective(weights), k))
  {
    assert k in weights.order;
  }

  lemma CancelSameSign(weights: Weights, k: NmId, x: int, y: int, z: int)
    requires weights.Valid() && k in weights.at && z == -(x + y) && ((x > 0 && y > 0) || (x < 0 && y < 0))
    ensures -1 <= Allocation(x, weights).at[k] + Allocation(y, weights).at[k] + Allocation(z, weights).at[k] <= 1
  {
    assert k in weights.order;
    EffectiveUsable(weights);
    SplitTogetherOrApart(Abs(x), Abs(y), Abs(z), Effective(weights), k);
    ShareMagnitude(x, weights, k);
    ShareMagnitude(y, weights, k);
    ShareMagnitude(z, weights, k);
  }

  lemma CancelWithZero(w: Weights, k: NmId, x: int, y: int)
    requires k in w.at && y == -x
    ensures Allocation(x, w).at[k] + Allocation(y, w).at[k] + Allocation(0, w).at[k] == 0
  {
    NegatedTotal(x, w, k);
    NothingToShare(w, k);
  }

  lemma NothingToShare(w: Weights, k: NmId)
    requires k in w.at
    ensures Allocation(0, w).at[k] == 0
  {
  }

  /** Three shares of totals that cancel are off by at most one kopeck. */
  lemma CancellingShares(w: Weights, k: NmId, x: int, y: int, z: int)
    requires w.Valid() && k in w.at && x + y + z == 0
    ensures -1 <= Allocation(x, w).at[k] + Allocation(y, w).at[k] + Allocation(z, w).at[k] <= 1
  {
    if x == 0 {
      CancelWithZero(w, k, y, z);
    } else if y == 0 {
      CancelWithZero(w, k, x, z);
    } else if z == 0 {
      CancelWithZero(w, k, x, y);
    } else if x > 0 <==> y > 0 {
      CancelSameSign(w, k, x, y, z);
    } else if y > 0 <==> z > 0 {
      CancelSameSign(w, k, y, z, x);
    } else {
      CancelSameSign(w, k, x, z, y);
    }
  }

  lemma TwoKeySum(w: Weights, one: NmId, two: NmId)
    requires w.order == [one, two]
    ensures WeightSum(w) == w.GetOr(one, 0) + w.GetOr(two, 0)
  {
    var f := (k: NmId) => w.GetOr(k, 0);
    assert w.order == ([] + [one]) + [two];
    SumSame(w.order, f, k => w.GetOr(k, 0));
    SumAppend([] + [one], two, f);
    SumAppend([], one, f);
  }

  /** Two articles of equal weight. */
  const PAIR: Weights := Dict([1, 2], map[1 := 1, 2 := 1])

  lemma PairWeights()
    ensures PAIR.Valid() && WeightSum(PAIR) == 2
  {
    assert PAIR.order[0] == 1 && PAIR.order[1] == 2;
    TwoKeySum(PAIR, 1, 2);
  }

  /** Each is charged half, rounded. */
  lemma HalfShare(total: int, k: NmId)
    requires k in PAIR.at
    ensures -2 < 2 * Allocation(total, PAIR).at[k] - total < 2
  {
    PairWeights();
    ShareIsRounded(total, PAIR, k);
    Halved(WeightSum(Effective(PAIR)), Allocation(total, PAIR).at[k], total, Effective(PAIR).at[k]);
  }

  lemma Halved(W: int, share: int, total: int, weight: int)
    requires W == 2 && weight == 1 && -W < W * share - total * weight < W
    ensures -2 < 2 * share - total < 2
  {
  }

  /** One kopeck goes to one of them. */
  lemma OneKopeckGoesToOne()
    ensures exists k: NmId :: k in PAIR.at && Allocation(1, PAIR).at[k] == 1
  {
    PairWeights();
    SharesSum(1, PAIR);
    TwoKeySum(Allocation(1, PAIR), 1, 2);
    HalfShare(1, 1);
    HalfShare(1, 2);
    assert Allocation(1, PAIR).at[1] == 1 || Allocation(1, PAIR).at[2] == 1;
  }

  /** One kopeck of drift does happen: two articles of equal weight, two charges of 1 and a refund of 2. */
  lemma OneKopeckDriftHappens()
    ensures PAIR.Valid()
    ensures exists k: NmId ::
      k in PAIR.at && Allocation(1, PAIR).at[k] + Allocation(1, PAIR).at[k] + Allocation(-2, PAIR).at[k] == 1
  {
    PairWeights();
    OneKopeckGoesToOne();
    var k: NmId :| k in PAIR.at && Allocation(1, PAIR).at[k] == 1;
    HalfShare(-2, k);
  }
}
