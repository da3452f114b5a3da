/** Euclidean division facts that the LED program and the address arithmetic share. */
module Division {

  lemma {:induction false} Multiple(e: int, d: int)
    requires d > 0
    ensures e >= 1 ==> e * d >= d
    ensures e <= -1 ==> e * d <= -d
  {
  }

  /** A decomposition with a remainder in range is the division. */
  lemma {:induction false} Quotient(n: int, d: int, q: int, r: int)
    requires d > 0 && n == q * d + r && 0 <= r < d
    ensures n / d == q && n % d == r
  {
    var e := n / d - q;
    assert n == (n / d) * d + n % d;
    assert e * d == r - n % d by {
      assert (n / d) * d == q * d + e * d;
    }
    Multiple(e, d);
  }

  /** Adding whole divisors does not change the remainder. */
  lemma {:induction false} WholeShift(base: int, n: int, d: int)
    requires d > 0 && base % d == 0
    ensures (base + n) % d == n % d
  {
    var b, q := base / d, n / d;
    assert base == b * d && n == q * d + n % d;
    assert base + n == (b + q) * d + n % d;
    Quotient(base + n, d, b + q, n % d);
  }

  lemma {:induction false} WholeMultiple(k: int, d: int)
    requires d > 0
    ensures (k * d) % d == 0
  {
    Quotient(k * d, d, k, 0);
  }

  lemma {:induction false} AtLeastMultiple(n: int, d: int, k: int)
    requires d > 0 && n / d >= k
    ensures n >= k * d
  {
    var e := n / d - k;
    assert n == (n / d) * d + n % d;
    assert (n / d) * d == k * d + e * d;
    Multiple(e, d);
  }
}
