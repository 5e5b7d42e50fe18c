/** Machine integers and C# integer operators, with the division facts the
  * digit and ring-buffer proofs rest on. */
module Arithmetic {

  const UINT32_LIMIT: int := 0x1_0000_0000

  /** A byte of a native buffer. */
  type Byte = x: int | 0 <= x < 256

  /** A C# `uint`. */
  type UInt32 = x: int | 0 <= x < UINT32_LIMIT

  /** C# integer division: the quotient is truncated toward zero. */
  function TDiv(a: int, b: int): (q: int)
    requires b != 0
    ensures a >= 0 && b > 0 ==> q == a / b
    ensures (a >= 0) == (b > 0) || a == 0 || q <= 0
  {
    if a >= 0 && b > 0 then a / b
    else if a >= 0 then -(a / -b)
    else if b > 0 then -((-a) / b)
    else (-a) / (-b)
  }

  /** C# remainder: it takes the sign of the dividend. */
  function TRem(a: int, b: int): (r: int)
    requires b != 0
    ensures a == TDiv(a, b) * b + r
    ensures a >= 0 ==> 0 <= r < (if b > 0 then b else -b)
    ensures a < 0 ==> -(if b > 0 then b else -b) < r <= 0
  {
    a - TDiv(a, b) * b
  }

  /** Mathf.Clamp / Math.Min-style clamping. */
  function Clamp(x: int, lo: int, hi: int): (r: int)
    requires lo <= hi
    ensures lo <= r <= hi
    ensures lo <= x <= hi ==> r == x
    ensures x < lo ==> r == lo
    ensures x > hi ==> r == hi
  {
    if x < lo then lo else if x > hi then hi else x
  }

  function Min(a: int, b: int): (r: int)
    ensures r <= a && r <= b && (r == a || r == b)
  {
    if a <= b then a else b
  }

  lemma MulNonneg(a: int, d: int)
    requires a >= 0 && d >= 0
    ensures a * d >= 0
  {
  }

  lemma MulAtLeast(k: int, d: int)
    requires d > 0
    ensures k >= 1 ==> k * d >= d
    ensures k <= -1 ==> k * d <= -d
  {
    if k >= 1 { MulNonneg(k - 1, d); }
    if k <= -1 { MulNonneg(-k - 1, d); }
  }

  /** A non-negative value divided by a positive one has a non-negative quotient. */
  lemma DivNonneg(x: int, d: int)
    requires x >= 0 && d > 0
    ensures x / d >= 0
  {
    MulAtLeast(x / d, d);
  }

  /** Euclidean quotient and remainder are unique. */
  lemma DivModUnique(x: int, d: int, q: int, r: int)
    requires d > 0 && 0 <= r < d && x == q * d + r
    ensures x / d == q && x % d == r
  {
    var q', r' := x / d, x % d;
    assert (q' - q) * d == r - r';
    MulAtLeast(q' - q, d);
  }

  /** A value already below the modulus is its own remainder. */
  lemma ModSmall(x: int, n: int)
    requires 0 <= x < n
    ensures x % n == x
  {
    DivModUnique(x, n, 0, x);
  }

  /** Reducing a ring index before adding to it does not change the slot reached. */
  lemma ModOfSum(a: int, b: int, n: int)
    requires n > 0
    ensures ((a % n) + b) % n == (a + b) % n
  {
    var r := (a % n + b) % n;
    var q := (a % n + b) / n;
    assert a + b == (q + a / n) * n + r;
    DivModUnique(a + b, n, q + a / n, r);
  }

  /** Adding whole turns of the ring does not change the slot reached. */
  lemma ModPeriod(a: int, k: int, n: int)
    requires n > 0
    ensures (a + k * n) % n == a % n
  {
    DivModUnique(a + k * n, n, a / n + k, a % n);
  }

  /** Fewer than n consecutive steps around a ring of n slots reach distinct slots. */
  lemma ModInjective(a: int, i: int, j: int, n: int)
    requires 0 <= i < j < n
    ensures (a + i) % n != (a + j) % n
  {
    if (a + i) % n == (a + j) % n {
      var d := (a + j) / n - (a + i) / n;
      assert j - i == d * n;
      MulAtLeast(d, n);
    }
  }
}
