/** Integer renderings of the JavaScript `Math` functions the game modules use. */
module Numeric {

  function Max(a: int, b: int): (r: int)
    ensures r >= a && r >= b && (r == a || r == b)
  {
    if a >= b then a else b
  }

  function Min(a: int, b: int): (r: int)
    ensures r <= a && r <= b && (r == a || r == b)
  {
    if a <= b then a else b
  }

  /**
   * `Math.round(p / q)` for a positive divisor: the nearest integer to p/q,
   * halves rounded up (towards +infinity, as `Math.round` does).
   */
  function RoundDiv(p: int, q: int): (r: int)
    requires q > 0
    ensures 2 * q * r - q <= 2 * p < 2 * q * r + q
  {
    var r := (2 * p + q) / (2 * q);
    DivBounds(2 * p + q, 2 * q);
    r
  }

  /** Euclidean division by a positive divisor brackets the dividend. */
  lemma DivBounds(a: int, b: int)
    requires b > 0
    ensures b * (a / b) <= a < b * (a / b) + b
  {
    var q, m := a / b, a % b;
    assert a == b * q + m && 0 <= m < b;
  }

  /** RoundDiv is monotone in the dividend. */
  lemma RoundDivMonotone(p1: int, p2: int, q: int)
    requires q > 0 && p1 <= p2
    ensures RoundDiv(p1, q) <= RoundDiv(p2, q)
  {
    var r1, r2 := RoundDiv(p1, q), RoundDiv(p2, q);
    assert 2 * q * (r1 - r2 - 1) == 2 * q * r1 - 2 * q * r2 - 2 * q;
    NegativeFactor(2 * q, r1 - r2 - 1);
  }

  /** RoundDiv(k * q, q) is k itself. */
  lemma RoundDivExact(k: int, q: int)
    requires q > 0
    ensures RoundDiv(k * q, q) == k
  {
    var r := RoundDiv(k * q, q);
    assert 2 * q * r - q <= 2 * (k * q) < 2 * q * r + q;
    assert 2 * q * (r - k - 1) == 2 * q * r - 2 * (k * q) - 2 * q;
    assert 2 * q * (k - r - 1) == 2 * (k * q) - 2 * q * r - 2 * q;
    NegativeFactor(2 * q, r - k - 1);
    NegativeFactor(2 * q, k - r - 1);
  }

  lemma MulMonotone(c: int, a: int, b: int)
    requires c >= 0 && a <= b
    ensures c * a <= c * b
  {
    assert c * b - c * a == c * (b - a);
  }

  /** A negative product with a positive factor has a negative other factor. */
  lemma NegativeFactor(c: int, x: int)
    requires c > 0
    ensures c * x < 0 ==> x < 0
  {
    if x >= 0 {
      MulMonotone(c, 0, x);
    }
  }

  /** The score of the player at 0-based position i: `Math.max(100 - i * 20, 10)`. */
  function PositionScore(i: nat): (r: int)
    ensures 10 <= r <= 100
    ensures i < 5 ==> r == 100 - 20 * i
    ensures i >= 5 ==> r == 10
  {
    Max(100 - i * 20, 10)
  }
}
