/** 32-bit words as numbers: the bit operations that the network code uses, and what they amount to. */
module Word32 {
  import opened Division

  function Pow2(k: nat): (r: nat)
    ensures r > 0
  {
    if k == 0 then 1 else 2 * Pow2(k - 1)
  }

  const WORDS: nat := 0x1_0000_0000

  type Word = w: nat | w < WORDS

  lemma {:induction false} Pow2Values()
    ensures Pow2(8) == 0x100 && Pow2(16) == 0x1_0000 && Pow2(24) == 0x100_0000 && Pow2(32) == WORDS
  {
    assert Pow2(4) == 16;
    assert Pow2(8) == 256;
    assert Pow2(12) == 0x1000;
    assert Pow2(16) == 0x1_0000;
    assert Pow2(20) == 0x10_0000;
    assert Pow2(24) == 0x100_0000;
    assert Pow2(28) == 0x1000_0000;
  }

  lemma {:induction false} Pow2Monotone(j: nat, k: nat)
    requires j <= k
    ensures Pow2(j) <= Pow2(k)
    ensures j < k ==> 2 * Pow2(j) <= Pow2(k)
  {
    if j < k {
      Pow2Monotone(j, k - 1);
    }
  }

  /** The `i`-th binary digit, counted from the low end. */
  function Bit(m: nat, i: nat): (b: nat)
    ensures b <= 1
  {
    if i == 0 then m % 2 else Bit(m / 2, i - 1)
  }

  /** `bits.OnesCount` over the low `n` bits. */
  function OnesCount(m: nat, n: nat): (c: nat)
    ensures c <= n
  {
    if n == 0 then 0 else m % 2 + OnesCount(m / 2, n - 1)
  }

  function BitAnd(n: nat, a: nat, b: nat): nat {
    if n == 0 then 0 else 2 * BitAnd(n - 1, a / 2, b / 2) + if a % 2 == 1 && b % 2 == 1 then 1 else 0
  }

  function BitOr(n: nat, a: nat, b: nat): nat {
    if n == 0 then 0 else 2 * BitOr(n - 1, a / 2, b / 2) + if a % 2 == 1 || b % 2 == 1 then 1 else 0
  }

  function BitNot(w: Word): Word {
    WORDS - 1 - w
  }

  /** `w << k` in 32 bits. */
  function ShiftLeft(w: Word, k: nat): Word {
    (w * Pow2(k)) % WORDS
  }

  lemma {:induction false} BitOpsBelow(n: nat, a: nat, b: nat)
    ensures BitAnd(n, a, b) < Pow2(n) && BitOr(n, a, b) < Pow2(n)
  {
    if n > 0 {
      BitOpsBelow(n - 1, a / 2, b / 2);
    }
  }

  /** `a & b` and `a | b` on words. */
  function And(a: Word, b: Word): Word {
    Pow2Values();
    BitOpsBelow(32, a, b);
    BitAnd(32, a, b)
  }

  function Or(a: Word, b: Word): Word {
    Pow2Values();
    BitOpsBelow(32, a, b);
    BitOr(32, a, b)
  }

  // ----- contiguous masks -----

  lemma {:induction false} MaskBits(n: nat, k: nat, i: nat)
    requires k <= n && i < n
    ensures Pow2(k) <= Pow2(n)
    ensures Bit(Pow2(n) - Pow2(k), i) == if i >= k then 1 else 0
  {
    Pow2Monotone(k, n);
    var m := Pow2(n) - Pow2(k);
    if k == 0 {
      assert m % 2 == 1 && m / 2 == Pow2(n - 1) - Pow2(0);
      if i > 0 {
        MaskBits(n - 1, 0, i - 1);
      }
    } else {
      Pow2Monotone(k - 1, n - 1);
      assert m % 2 == 0 && m / 2 == Pow2(n - 1) - Pow2(k - 1);
      if i > 0 {
        MaskBits(n - 1, k - 1, i - 1);
      }
    }
  }

  lemma {:induction false} MaskOnes(n: nat, k: nat)
    requires k <= n
    ensures Pow2(k) <= Pow2(n)
    ensures OnesCount(Pow2(n) - Pow2(k), n) == n - k
  {
    Pow2Monotone(k, n);
    var m := Pow2(n) - Pow2(k);
    if n == 0 {
    } else if k == 0 {
      assert m % 2 == 1 && m / 2 == Pow2(n - 1) - Pow2(0);
      MaskOnes(n - 1, 0);
    } else {
      Pow2Monotone(k - 1, n - 1);
      assert m % 2 == 0 && m / 2 == Pow2(n - 1) - Pow2(k - 1);
      MaskOnes(n - 1, k - 1);
    }
  }

  /** A number is its binary digits. */
  lemma {:induction false} BitsDetermine(n: nat, a: nat, b: nat)
    requires a < Pow2(n) && b < Pow2(n)
    requires forall i: nat :: i < n ==> Bit(a, i) == Bit(b, i)
    ensures a == b
  {
    if n > 0 {
      forall i: nat | i < n - 1 ensures Bit(a / 2, i) == Bit(b / 2, i) {
        assert Bit(a, i + 1) == Bit(b, i + 1);
      }
      BitsDetermine(n - 1, a / 2, b / 2);
      assert Bit(a, 0) == Bit(b, 0);
    }
  }

  /** Shifting all ones left by `k` leaves `k` zeros at the low end. */
  lemma {:induction false} ShiftedOnes(k: nat)
    requires k <= 32
    ensures Pow2(k) <= WORDS && ShiftLeft(WORDS - 1, k) == WORDS - Pow2(k)
  {
    Pow2Values();
    Pow2Monotone(k, 32);
    var q := Pow2(k) - 1;
    assert (WORDS - 1) * Pow2(k) == q * WORDS + (WORDS - Pow2(k));
    Remainder(q, WORDS - Pow2(k));
  }

  lemma {:induction false} Remainder(q: nat, r: nat)
    requires r < WORDS
    ensures (q * WORDS + r) % WORDS == r
  {
  }

  // ----- masking -----

  lemma {:induction false} ModHalf(a: nat, k: nat)
    requires k > 0
    ensures a % Pow2(k) == 2 * ((a / 2) % Pow2(k - 1)) + a % 2
  {
    var h, b := a / 2, a % 2;
    var p := Pow2(k - 1);
    var q, r := h / p, h % p;
    assert h == q * p + r;
    assert a == q * Pow2(k) + (2 * r + b) by {
      assert q * Pow2(k) == 2 * (q * p);
    }
    Quotient(a, Pow2(k), q, 2 * r + b);
  }

  lemma {:induction false} AndOnes(n: nat, a: nat)
    requires a < Pow2(n)
    ensures BitAnd(n, a, Pow2(n) - 1) == a
  {
    if n > 0 {
      var m := Pow2(n) - 1;
      assert m % 2 == 1 && m / 2 == Pow2(n - 1) - 1;
      AndOnes(n - 1, a / 2);
    }
  }

  /** Clearing the low `k` bits subtracts their value. */
  lemma {:induction false} AndMask(n: nat, k: nat, a: nat)
    requires k <= n && a < Pow2(n)
    ensures Pow2(k) <= Pow2(n)
    ensures BitAnd(n, a, Pow2(n) - Pow2(k)) == a - a % Pow2(k)
  {
    Pow2Monotone(k, n);
    if k == 0 {
      AndOnes(n, a);
    } else {
      Pow2Monotone(k - 1, n - 1);
      AndMask(n - 1, k - 1, a / 2);
      MaskedHalf(a, k);
      EvenMask(n, a, Pow2(n) - Pow2(k), Pow2(n - 1) - Pow2(k - 1));
    }
  }

  lemma {:induction false} MaskedHalf(a: nat, k: nat)
    requires k > 0
    ensures a - a % Pow2(k) == 2 * (a / 2 - (a / 2) % Pow2(k - 1))
  {
    ModHalf(a, k);
  }

  lemma {:induction false} EvenMask(n: nat, a: nat, m: nat, half: nat)
    requires n > 0 && m == 2 * half
    ensures BitAnd(n, a, m) == 2 * BitAnd(n - 1, a / 2, half)
  {
  }

  /** Setting the low `k` bits of a number in which they are clear adds `2^k - 1`. */
  lemma {:induction false} OrLowOnes(n: nat, k: nat, a: nat)
    requires k <= n && a < Pow2(n) && a % Pow2(k) == 0
    ensures BitOr(n, a, Pow2(k) - 1) == a + Pow2(k) - 1
  {
    if n == 0 {
    } else if k == 0 {
      OrLowOnes(n - 1, 0, a / 2);
    } else {
      var low := Pow2(k) - 1;
      assert low % 2 == 1 && low / 2 == Pow2(k - 1) - 1;
      ModHalf(a, k);
      OrLowOnes(n - 1, k - 1, a / 2);
    }
  }
}
