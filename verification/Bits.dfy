/** Bitwise operators of 32-bit unsigned values, on numbers: & and << as the address arithmetic
    uses them, with the shift count taken modulo 32 and the result modulo 2^32. The rest is what
    they mean for division: masking with leading ones rounds down to a multiple of a power of two,
    and two numbers agree under such a mask exactly if they agree after division. */
module Bits {
  function Pow2(n: nat): (p: nat)
    ensures p >= 1
  {
    if n == 0 then 1 else 2 * Pow2(n - 1)
  }

  /** a & b for non-negative a and b, bit by bit. */
  function And(a: nat, b: nat): nat {
    if a == 0 || b == 0 then 0 else (a % 2) * (b % 2) + 2 * And(a / 2, b / 2)
  }

  /** (x << n) >>> 0: the shift count is taken modulo 32 and the result modulo 2^32. */
  function Shl32(x: nat, n: int): nat {
    x * Pow2(n % 32) % 0x1_0000_0000
  }

  lemma {:induction false} Pow2Adds(a: nat, b: nat)
    ensures Pow2(a + b) == Pow2(a) * Pow2(b)
  {
    if a > 0 {
      Pow2Adds(a - 1, b);
      assert Pow2(a + b) == 2 * Pow2(a - 1 + b);
    }
  }

  lemma {:induction false} Pow2Monotone(a: nat, b: nat)
    requires a <= b
    ensures Pow2(a) <= Pow2(b)
  {
    if a < b {
      Pow2Monotone(a, b - 1);
    }
  }

  // ---- Division -------------------------------------------------------------------------

  lemma DivMeans(x: int, d: nat)
    requires d >= 1
    ensures x / d * d <= x < (x / d + 1) * d
  {
    assert x == d * (x / d) + x % d;
  }

  lemma MulCancels(p: int, q: int, d: nat)
    requires p * d < q * d
    ensures p < q
  {
    assert p >= q ==> (p - q) * d >= 0;
  }

  lemma DivUnique(x: int, d: nat, q: int, r: int)
    requires d >= 1 && x == q * d + r && 0 <= r < d
    ensures x / d == q
  {
    DivMeans(x, d);
    MulCancels(x / d, q + 1, d);
    MulCancels(q, x / d + 1, d);
  }

  lemma ModUnique(x: int, d: nat, q: int, r: int)
    requires d >= 1 && x == q * d + r && 0 <= r < d
    ensures x % d == r
  {
    DivUnique(x, d, q, r);
    assert x == d * (x / d) + x % d;
  }

  lemma DivSmall(x: int, d: nat)
    requires 0 <= x < d
    ensures x / d == 0
  {
    DivUnique(x, d, 0, x);
  }

  lemma PairInjective(p: nat, r: nat, q: nat, s: nat, d: nat)
    requires r < d && s < d
    ensures p * d + r == q * d + s <==> p == q && r == s
  {
    if p * d + r == q * d + s {
      DivUnique(p * d + r, d, p, r);
      DivUnique(q * d + s, d, q, s);
    }
  }

  lemma MulMonotone(x: int, y: int, d: nat)
    requires x <= y
    ensures x * d <= y * d
  {
    assert (y - x) * d >= 0;
  }

  lemma DivDiv(x: nat, a: nat, b: nat)
    requires a >= 1 && b >= 1
    ensures a * b >= 1 && x / (a * b) == x / a / b
  {
    var y := x / a;
    var q := y / b;
    DivMeans(x, a);
    DivMeans(y, b);
    MulMonotone(q * b, y, a);
    MulMonotone(y + 1, (q + 1) * b, a);
    Regroup(q, b, a);
    Regroup(q + 1, b, a);
    MulMonotone(1, a, b);
    DivUnique(x, a * b, q, x - q * (a * b));
  }

  lemma Regroup(q: int, b: nat, a: nat)
    ensures q * b * a == q * (a * b)
  {
  }

  lemma SameMultiple(p: int, q: int, d: nat)
    requires d >= 1
    ensures p * d == q * d <==> p == q
  {
    if p < q {
      assert (p + 1) * d <= q * d;
    } else if q < p {
      assert (q + 1) * d <= p * d;
    }
  }

  // ---- Masks ----------------------------------------------------------------------------

  lemma {:induction false} AndAllOnes(a: nat, w: nat)
    requires a < Pow2(w)
    ensures And(a, Pow2(w) - 1) == a
  {
    if a > 0 {
      assert (Pow2(w) - 1) / 2 == Pow2(w - 1) - 1 && (Pow2(w) - 1) % 2 == 1;
      AndAllOnes(a / 2, w - 1);
    }
  }

  lemma AndEven(a: nat, half: nat)
    ensures And(a, 2 * half) == 2 * And(a / 2, half)
  {
    assert (2 * half) % 2 == 0 && (2 * half) / 2 == half;
  }

  lemma Doubled(q: nat, p: nat)
    ensures q * (2 * p) == 2 * (q * p)
  {
  }

  /** Masking with the leading w - k of w bits clears the last k bits and nothing else. */
  lemma {:induction false} AndPrefix(a: nat, w: nat, k: nat)
    requires a < Pow2(w) && k <= w
    ensures Pow2(w) >= Pow2(k)
    ensures And(a, Pow2(w) - Pow2(k)) == a / Pow2(k) * Pow2(k)
  {
    Pow2Monotone(k, w);
    if k == 0 {
      AndAllOnes(a, w);
    } else {
      var half := Pow2(w - 1) - Pow2(k - 1);
      AndPrefix(a / 2, w - 1, k - 1);
      AndEven(a, half);
      DivDiv(a, 2, Pow2(k - 1));
      Doubled(a / Pow2(k), Pow2(k - 1));
    }
  }

  lemma TruncationsAgree(a: nat, b: nat, p: nat, ma: nat, mb: nat)
    requires p >= 1 && ma == a / p * p && mb == b / p * p
    ensures ma == mb <==> a / p == b / p
  {
    SameMultiple(a / p, b / p, p);
  }
}
