/** Products, quotients and powers of two. */
module Arithmetic {
  import opened Words

  lemma MulMonotone(a: int, b: int, k: int)
    requires a <= b && k >= 0
    ensures a * k <= b * k
  {
  }

  lemma MulGap(q: int, p: int, r: int)
    requires q < p && r > 0
    ensures q * r + r <= p * r
  {
    MulMonotone(q + 1, p, r);
  }

  /** A quotient and remainder are what any division with a small rest says. */
  lemma RemainderUnique(x: int, r: int, q: int, t: int)
    requires 0 < r && 0 <= t < r && x == q * r + t
    ensures x / r == q && x % r == t
  {
    QuotientUnique(r, q, t, x / r, x % r);
  }

  lemma QuotientUnique(r: int, q: int, t: int, p: int, s: int)
    requires 0 <= t < r && 0 <= s < r && q * r + t == p * r + s
    ensures q == p && t == s
  {
    if q < p {
      MulGap(q, p, r);
    } else if p < q {
      MulGap(p, q, r);
    }
  }

  function Power2(k: nat): (p: nat)
    ensures p > 0
  {
    if k == 0 then 1 else 2 * Power2(k - 1)
  }

  lemma {:induction false} PowerMonotone(j: nat, k: nat)
    requires j <= k
    ensures Power2(j) <= Power2(k)
  {
    if j < k {
      PowerMonotone(j, k - 1);
    }
  }

  lemma {:induction false} PowerAdds(j: nat, k: nat)
    ensures Power2(j + k) == Power2(j) * Power2(k)
  {
    if j > 0 {
      PowerAdds(j - 1, k);
    }
  }

  lemma WordPowers()
    ensures Power2(8) == 0x100 && Power2(32) == TWO32 && Power2(64) == TWO64
  {
    hide Power2;
    EightBits();
    PowerAdds(8, 8);
    PowerAdds(16, 16);
    PowerAdds(32, 32);
  }

  lemma EightBits()
    ensures Power2(8) == 0x100
  {
  }
}
