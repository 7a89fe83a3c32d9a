/** `_clamp_candidate_price`: step limits around the current price, then the band of the article. */
module PriceClamp {
  import opened Arith
  import opened Dicts

  /** A percentage as an exact fraction: num / den percent. Negative settings count as zero. */
  datatype Percent = Percent(num: int, den: nat)

  datatype Limits = Limits(perUpdate: Percent, perDay: Percent)

  predicate ValidLimits(l: Limits) {
    l.perUpdate.den > 0 && l.perDay.den > 0
  }

  /** Python's `round`: to the nearest integer, ties to the even one. */
  function RoundHalfEven(n: int, d: nat): int
    requires d > 0
  {
    var q, r := n / d, n % d;
    if 2 * r < d || (2 * r == d && q % 2 == 0) then q else q + 1
  }

  /** `_apply_pct(price, +pct)` and `_apply_pct(price, -pct)` */
  function Raised(price: int, p: Percent): int
    requires p.den > 0
  {
    Max(1, RoundHalfEven(price * (100 * p.den + Max(0, p.num)), 100 * p.den))
  }

  function Lowered(price: int, p: Percent): int
    requires p.den > 0
  {
    Max(1, RoundHalfEven(price * (100 * p.den - Max(0, p.num)), 100 * p.den))
  }

  /** The band of an article; an upper limit of zero or less is no limit. */
  datatype Band = Band(minPrice: int, maxPrice: Option<int>)

  function Lower(b: Band): int {
    Max(1, b.minPrice)
  }

  predicate HasUpper(b: Band) {
    b.maxPrice.Some? && b.maxPrice.value > 0
  }

  predicate InBand(price: int, b: Band) {
    Lower(b) <= price && (HasUpper(b) ==> price <= b.maxPrice.value)
  }

  predicate ProperBand(b: Band) {
    HasUpper(b) ==> Lower(b) <= b.maxPrice.value
  }

  /** The step limits only. */
  function Stepped(current: int, candidate: int, l: Limits): int
    requires ValidLimits(l)
  {
    if candidate > current then Min(Min(candidate, Raised(current, l.perUpdate)), Raised(current, l.perDay))
    else if candidate < current then Max(Max(candidate, Lowered(current, l.perUpdate)), Lowered(current, l.perDay))
    else candidate
  }

  /** The band only: the upper limit is applied last. */
  function Banded(price: int, b: Band): int {
    var raised := Max(price, Lower(b));
    Max(1, if HasUpper(b) then Min(raised, b.maxPrice.value) else raised)
  }

  /** The call itself, reassigning the candidate as the program does. */
  method ClampCandidatePrice(current: int, recommended: int, b: Band, l: Limits) returns (price: int)
    requires ValidLimits(l)
    ensures price == Banded(Stepped(current, recommended, l), b)
  {
    var lower := Max(1, b.minPrice);
    price := recommended;
    if price > current {
      var stepCap := Raised(current, l.perUpdate);
      if price > stepCap {
        price := stepCap;
      }
      var dayCap := Raised(current, l.perDay);
      if price > dayCap {
        price := dayCap;
      }
    } else if price < current {
      var stepFloor := Lowered(current, l.perUpdate);
      if price < stepFloor {
        price := stepFloor;
      }
      var dayFloor := Lowered(current, l.perDay);
      if price < dayFloor {
        price := dayFloor;
      }
    }
    if price < lower {
      price := lower;
    }
    if HasUpper(b) && price > b.maxPrice.value {
      price := b.maxPrice.value;
    }
    price := Max(1, price);
  }

  function Clamped(current: int, candidate: int, b: Band, l: Limits): int
    requires ValidLimits(l)
  {
    Banded(Stepped(current, candidate, l), b)
  }

  // ---- Rounding ----

  /** The result is nearest: within half a unit, and even when it is half a unit away. */
  lemma RoundNearest(n: int, d: nat)
    requires d > 0
    ensures Abs(2 * (RoundHalfEven(n, d) * d - n)) <= d
    ensures Abs(2 * (RoundHalfEven(n, d) * d - n)) == d ==> RoundHalfEven(n, d) % 2 == 0
  {
    DivisionSplit(n, d);
    Commute(d, n / d);
    Distribute(n / d, -1, d);
  }

  lemma RoundMonotone(m: int, n: int, d: nat)
    requires d > 0 && m <= n
    ensures RoundHalfEven(m, d) <= RoundHalfEven(n, d)
  {
    DivisionSplit(m, d);
    DivisionSplit(n, d);
    if m < n {
      QuotientsCompare(m / d, m % d, n / d, n % d, d);
    }
  }

  lemma RoundExact(q: int, d: nat)
    requires d > 0
    ensures RoundHalfEven(q * d, d) == q
  {
    DivisionSplit(q * d, d);
    Distribute(q, q * d / d, d);
    Commute(d, q * d / d);
    Commute(d, q - q * d / d);
    Bounded(q - q * d / d, d, 1);
  }

  /** A raise never lowers, a cut never raises. */
  lemma StepsAroundCurrent(current: int, p: Percent)
    requires current >= 1 && p.den > 0
    ensures Lowered(current, p) <= current <= Raised(current, p)
  {
    var d, x := 100 * p.den, Max(0, p.num);
    RoundExact(current, d);
    Monotone(d, d + x, current);
    Monotone(d - x, d, current);
    Commute(current, d);
    Commute(current, d + x);
    Commute(current, d - x);
    RoundMonotone(current * d, current * (d + x), d);
    RoundMonotone(current * (d - x), current * d, d);
  }

  // ---- What the clamp promises ----

  lemma SteppedBetween(current: int, candidate: int, l: Limits)
    requires current >= 1 && ValidLimits(l)
    ensures Min(current, candidate) <= Stepped(current, candidate, l) <= Max(current, candidate)
    ensures Stepped(current, Stepped(current, candidate, l), l) == Stepped(current, candidate, l)
  {
    StepsAroundCurrent(current, l.perUpdate);
    StepsAroundCurrent(current, l.perDay);
  }

  /** A proper band is always respected. */
  lemma ClampedInBand(current: int, candidate: int, b: Band, l: Limits)
    requires ValidLimits(l) && ProperBand(b)
    ensures InBand(Clamped(current, candidate, b, l), b)
  {
  }

  /** From a price inside its band the clamp never overshoots the candidate and never reverses direction. */
  lemma ClampedBetween(current: int, candidate: int, b: Band, l: Limits)
    requires current >= 1 && ValidLimits(l) && ProperBand(b) && InBand(current, b)
    ensures Min(current, candidate) <= Clamped(current, candidate, b, l) <= Max(current, candidate)
  {
    SteppedBetween(current, candidate, l);
  }

  /** Clamping twice changes nothing more, whatever the band. */
  lemma ClampIdempotent(current: int, candidate: int, b: Band, l: Limits)
    requires current >= 1 && ValidLimits(l)
    ensures Clamped(current, Clamped(current, candidate, b, l), b, l) == Clamped(current, candidate, b, l)
  {
    StepsAroundCurrent(current, l.perUpdate);
    StepsAroundCurrent(current, l.perDay);
  }

  /** A higher candidate never yields a lower price. */
  lemma ClampMonotone(current: int, low: int, high: int, b: Band, l: Limits)
    requires current >= 1 && ValidLimits(l) && low <= high
    ensures Clamped(current, low, b, l) <= Clamped(current, high, b, l)
  {
    StepsAroundCurrent(current, l.perUpdate);
    StepsAroundCurrent(current, l.perDay);
  }

  // ---- The size of a step ----

  /** A change of at most p percent of the current price, exactly. */
  predicate WithinPercent(current: int, change: int, p: Percent) {
    100 * p.den * change <= current * Max(0, p.num)
  }

  /** The same when the limit is rounded to a whole kopeck first. */
  predicate WithinRounded(current: int, change: int, p: Percent) {
    2 * (100 * p.den * change) <= 2 * (current * Max(0, p.num)) + 100 * p.den
  }

  /** And at least that percentage, up to rounding. */
  predicate Reaches(current: int, change: int, p: Percent) {
    2 * (100 * p.den * change) + 100 * p.den >= 2 * (current * Max(0, p.num))
  }

  /** Rounding current plus x parts of d. */
  lemma RoundedShift(current: int, x: int, d: int)
    requires d > 0
    ensures var r := RoundHalfEven(current * (d + x), d);
      -d <= 2 * (d * (r - current)) - 2 * (current * x) <= d
  {
    var r := RoundHalfEven(current * (d + x), d);
    RoundNearest(current * (d + x), d);
    Distribute(d, -x, current);
    Commute(current, d + x);
    Distribute(r, current, d);
    Commute(d, r - current);
    Negate(x, current);
    Commute(x, current);
    Commute(-x, current);
  }

  /** How far a raise by p percent is from p percent. */
  lemma RaisedStep(current: int, p: Percent)
    requires current >= 1 && p.den > 0
    ensures WithinRounded(current, Raised(current, p) - current, p)
    ensures Reaches(current, Raised(current, p) - current, p)
  {
    var d, x := 100 * p.den, Max(0, p.num);
    RoundedShift(current, x, d);
    StepsAroundCurrent(current, p);
    RaisedIsRounded(current, p);
  }

  lemma RaisedIsRounded(current: int, p: Percent)
    requires current >= 1 && p.den > 0
    ensures Raised(current, p) == RoundHalfEven(current * (100 * p.den + Max(0, p.num)), 100 * p.den)
  {
    var d, x := 100 * p.den, Max(0, p.num);
    RoundExact(current, d);
    Monotone(d, d + x, current);
    Commute(current, d);
    Commute(current, d + x);
    RoundMonotone(current * d, current * (d + x), d);
  }

  /** A cut by p percent stops at price 1. */
  lemma LoweredStep(current: int, p: Percent)
    requires current >= 1 && p.den > 0
    ensures WithinRounded(current, current - Lowered(current, p), p)
    ensures Lowered(current, p) == 1 || Reaches(current, current - Lowered(current, p), p)
  {
    var d, x := 100 * p.den, Max(0, p.num);
    var r := RoundHalfEven(current * (d - x), d);
    assert d - x == d + -x;
    RoundedShift(current, -x, d);
    Negate(current, x);
    Distribute(current, r, d);
    Distribute(r, current, d);
    Commute(d, r - current);
    Commute(d, current - r);
    if Lowered(current, p) != r {
      Monotone(current - 1, current - r, d);
      Commute(d, current - 1);
    }
  }

  lemma SmallerChange(current: int, change: int, change': int, p: Percent)
    requires change <= change' && WithinRounded(current, change', p)
    ensures WithinRounded(current, change, p)
  {
    Monotone(change, change', 100 * p.den);
    Commute(100 * p.den, change);
    Commute(100 * p.den, change');
  }

  /**
   * From a price in a proper band no step exceeds the percentage per update or the percentage per day, up to the
   * rounding of the limit, in either direction.
   */
  lemma StepWithinLimits(current: int, candidate: int, b: Band, l: Limits)
    requires current >= 1 && ValidLimits(l) && ProperBand(b) && InBand(current, b)
    ensures var r := Clamped(current, candidate, b, l);
      && WithinRounded(current, r - current, l.perUpdate) && WithinRounded(current, r - current, l.perDay)
      && WithinRounded(current, current - r, l.perUpdate) && WithinRounded(current, current - r, l.perDay)
  {
    var r := Clamped(current, candidate, b, l);
    StepWithinLimit(current, candidate, b, l, l.perUpdate);
    StepWithinLimit(current, candidate, b, l, l.perDay);
  }

  lemma StepWithinLimit(current: int, candidate: int, b: Band, l: Limits, p: Percent)
    requires current >= 1 && ValidLimits(l) && ProperBand(b) && InBand(current, b)
    requires p == l.perUpdate || p == l.perDay
    ensures WithinRounded(current, Clamped(current, candidate, b, l) - current, p)
    ensures WithinRounded(current, current - Clamped(current, candidate, b, l), p)
  {
    var r := Clamped(current, candidate, b, l);
    StepsAroundCurrent(current, l.perUpdate);
    StepsAroundCurrent(current, l.perDay);
    RaisedStep(current, p);
    LoweredStep(current, p);
    SmallerChange(current, r - current, Raised(current, p) - current, p);
    SmallerChange(current, current - r, current - Lowered(current, p), p);
  }

  /** A percentage that allows a price allows it after rounding too. */
  lemma WithinIsAllowed(current: int, candidate: int, p: Percent)
    requires current >= 1 && candidate >= 1 && p.den > 0
    requires WithinPercent(current, candidate - current, p) && WithinPercent(current, current - candidate, p)
    ensures Lowered(current, p) <= candidate <= Raised(current, p)
  {
    var d, x := 100 * p.den, Max(0, p.num);
    Distribute(candidate, current, d);
    Distribute(current, candidate, d);
    Commute(d, candidate - current);
    Commute(d, current - candidate);
    Distribute(d, x, current);
    Commute(current, d + x);
    Commute(current, d - x);
    Commute(x, current);
    Commute(d, current);
    RoundExact(candidate, d);
    RoundMonotone(candidate * d, current * (d + x), d);
    RoundMonotone(current * (d - x), candidate * d, d);
  }

  /** A candidate inside the band and inside both limits is taken as it is. */
  lemma AllowedUnchanged(current: int, candidate: int, b: Band, l: Limits)
    requires current >= 1 && ValidLimits(l) && InBand(candidate, b)
    requires WithinPercent(current, candidate - current, l.perUpdate)
    requires WithinPercent(current, current - candidate, l.perUpdate)
    requires WithinPercent(current, candidate - current, l.perDay)
    requires WithinPercent(current, current - candidate, l.perDay)
    ensures Clamped(current, candidate, b, l) == candidate
  {
    WithinIsAllowed(current, candidate, l.perUpdate);
    WithinIsAllowed(current, candidate, l.perDay);
  }

  /** Nothing is cut short without need: a step ends at the candidate, at an edge of the band, or at a limit. */
  lemma CutOnlyAtLimits(current: int, candidate: int, b: Band, l: Limits)
    requires current >= 1 && ValidLimits(l) && ProperBand(b) && InBand(current, b)
    ensures var r := Clamped(current, candidate, b, l);
      && (r < candidate ==> (
           (HasUpper(b) && r == b.maxPrice.value)
           || Reaches(current, r - current, l.perUpdate) || Reaches(current, r - current, l.perDay)))
      && (r > candidate ==> (
           r == Lower(b) || Reaches(current, current - r, l.perUpdate) || Reaches(current, current - r, l.perDay)))
  {
    StepsAroundCurrent(current, l.perUpdate);
    StepsAroundCurrent(current, l.perDay);
    RaisedStep(current, l.perUpdate);
    RaisedStep(current, l.perDay);
    LoweredStep(current, l.perUpdate);
    LoweredStep(current, l.perDay);
  }

  /** Outside its band a price moves to the nearest price of it; an upper limit below the lower one wins. */
  lemma BandNearest(price: int, b: Band, other: int)
    requires InBand(other, b)
    ensures Abs(Banded(price, b) - price) <= Abs(other - price)
  {
  }

  lemma UpperLimitWins(current: int, candidate: int, b: Band, l: Limits)
    requires ValidLimits(l) && !ProperBand(b)
    ensures Clamped(current, candidate, b, l) == b.maxPrice.value
  {
  }
}
