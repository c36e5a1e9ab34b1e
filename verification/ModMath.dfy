/** Remainders: the handful of facts that the wrapped counters, probe paths and rotations need. */
module ModMath {

  lemma SmallMod(x: nat, m: nat)
    requires x < m
    ensures x % m == x
  {
  }

  lemma MulSign(d: int, m: int)
    requires m >= 0
    ensures d >= 1 ==> d * m >= m
    ensures d <= 0 ==> d * m <= 0
    ensures d <= -1 ==> d * m <= -m
  {
    if d >= 1 {
      assert d * m == m + (d - 1) * m;
      MulNonNeg(d - 1, m);
    } else {
      assert d * m == -(-d * m);
      MulNonNeg(-d, m);
      if d <= -1 {
        assert d * m == -m - (-d - 1) * m;
        MulNonNeg(-d - 1, m);
      }
    }
  }

  lemma MulNonNeg(a: int, b: int)
    requires a >= 0 && b >= 0
    ensures 0 <= a * b
  {
  }

  /** Quotient and remainder are the only ones of their kind. */
  lemma ModUnique(x: int, m: nat, q: int, r: nat)
    requires r < m && x == q * m + r
    ensures x % m == r && x / m == q
  {
    var d := x / m - q;
    assert d * m == r - x % m;
    MulSign(d, m);
  }

  lemma ModPlus(x: int, m: nat)
    requires m > 0
    ensures (x + m) % m == x % m
  {
    assert x + m == (x / m + 1) * m + x % m;
    ModUnique(x + m, m, x / m + 1, x % m);
  }

  /** Adding a multiple of the modulus changes no remainder. */
  lemma ModShift(x: int, m: nat, k: int)
    requires m > 0
    ensures (x + k * m) % m == x % m
  {
    assert x + k * m == (x / m + k) * m + x % m;
    ModUnique(x + k * m, m, x / m + k, x % m);
  }

  lemma ModAdd(a: int, b: int, m: nat)
    requires m > 0
    ensures (a % m + b) % m == (a + b) % m
  {
    assert a + b == (a % m + b) + (a / m) * m;
    ModShift(a % m + b, m, a / m);
  }

  /** One conditional subtraction reduces a sum of two remainders. */
  lemma ModSmallSum(a: nat, b: nat, m: nat)
    requires a < m && b <= m
    ensures (a + b) % m == if a + b < m then a + b else a + b - m
  {
    if a + b < m {
      SmallMod(a + b, m);
    } else {
      ModPlus(a + b - m, m);
      SmallMod(a + b - m, m);
    }
  }

  /** Numbers less than `m` apart have different remainders. */
  lemma ModDistinct(a: nat, b: nat, m: nat)
    requires a < b < a + m
    ensures a % m != b % m
  {
    var d := b / m - a / m;
    assert d * m == b - a - (b % m - a % m);
    MulSign(d, m);
    MulSign(d - 1, m);
    assert d * m == m + (d - 1) * m;
  }
}
