/** The few facts about products and quotients that the money arithmetic needs, kept away from everything else. */
module Arith {
  function Abs(x: int): nat {
    if x < 0 then -x else x
  }

  function Max(a: int, b: int): int {
    if a < b then b else a
  }

  function Min(a: int, b: int): int {
    if b < a then b else a
  }

  lemma DivisionSplit(x: int, W: int)
    requires W > 0
    ensures x == W * (x / W) + x % W && 0 <= x % W < W
  {
  }

  lemma Distribute(a: int, b: int, c: int)
    ensures (a - b) * c == a * c - b * c
    ensures (a + b) * c == a * c + b * c
  {
  }

  lemma Commute(a: int, b: int)
    ensures a * b == b * a
  {
  }

  lemma Negate(x: int, y: int)
    ensures x * -y == -(x * y) && -y * x == -(y * x)
  {
  }

  lemma Monotone(a: int, b: int, W: int)
    requires W >= 0 && a <= b
    ensures a * W <= b * W
  {
    Distribute(b, a, W);
    assert (b - a) * W >= 0;
  }

  lemma Grow(m: int, x: int, y: int)
    requires m > 0 && x < y
    ensures m * x < m * y
  {
    Distribute(y, x, m);
    Commute(m, x);
    Commute(m, y);
    assert (y - x) * m > 0;
  }

  /** Comparing two quotients of a common divisor. */
  lemma QuotientsCompare(q: int, r: int, q': int, r': int, W: int)
    requires 0 <= r < W && 0 <= r' < W && W * q + r < W * q' + r'
    ensures q < q' || (q == q' && r < r')
  {
    if q' < q {
      Monotone(q' + 1, q, W);
      Distribute(q', -1, W);
      Commute(W, q);
      Commute(W, q');
    }
  }

  /** Rounding a quotient up when it is inexact, or down, misses it by less than one. */
  lemma RoundedClose(q: int, r: int, x: int, W: int, up: int)
    requires x == W * q + r && 0 <= r < W && (up == 0 || (up == 1 && r > 0))
    ensures -W < W * (q + up) - x < W
  {
    if up == 1 {
      Distribute(q, -1, W);
    }
  }

  /** A refund is rounded like the charge of the same size. */
  lemma Flip(W: int, share: int, total: int, weight: int)
    requires -W < W * share - -total * weight < W
    ensures -W < W * -share - total * weight < W
  {
    Negate(W, share);
    Negate(weight, total);
  }

  /** A share of either sign is as close to its quota as its magnitude; nothing at all is exact. */
  lemma SignedClose(W: int, magnitude: int, total: int, weight: int)
    requires W > 0 && -W < W * magnitude - Abs(total) * weight < W
    ensures var share := if total == 0 then 0 else if total < 0 then -magnitude else magnitude;
      -W < W * share - total * weight < W
  {
    if total < 0 {
      Flip(W, magnitude, total, weight);
    }
  }

  /** A multiple of W strictly within n times W is less than n. */
  lemma Bounded(x: int, W: int, n: int)
    requires W > 0 && -(n * W) < W * x < n * W
    ensures -n < x < n
  {
    Commute(W, x);
    if x >= n {
      Monotone(n, x, W);
    }
    if x <= -n {
      Monotone(x, -n, W);
      Negate(W, n);
      Commute(-n, W);
      Commute(n, W);
    }
  }

  /** `left` units of W cannot be made of fewer than `left` parts smaller than W. */
  lemma PartsAreTooSmall(i: int, left: int, W: int)
    requires 0 <= i < left && W > 0
    ensures i * (W - 1) < left * W
  {
    Monotone(i, left - 1, W);
    Distribute(left, 1, W);
    Distribute(W, 1, i);
    Commute(i, W - 1);
    Commute(i, W);
  }

  /** Adding two quotients of a common divisor: the remainders add up to one carry at most. */
  lemma QuotientsAdd(W: int, x: int, q: int, r: int, y: int, q': int, r': int, q'': int, r'': int)
    requires x == W * q + r && y == W * q' + r' && x + y == W * q'' + r''
    requires 0 <= r < W && 0 <= r' < W && 0 <= r'' < W
    ensures if r + r' >= W then q'' == q + q' + 1 && r'' == r + r' - W else q'' == q + q' && r'' == r + r'
  {
    var d := q'' - q - q';
    assert W * d == r + r' - r'' by {
      Distribute(q'', q + q', W);
      Distribute(q, -q', W);
      Commute(W, d);
      Commute(W, q);
      Commute(W, q');
      Commute(W, q'');
    }
    Bounded(d, W, 2);
    assert d == 0 || d == 1 || d == -1;
  }
}
