/** Powers of two, over the naturals and as a real base. */
module Powers {
  function Pow2(n: nat): nat {
    if n == 0 then 1 else 2 * Pow2(n - 1)
  }

  /** `Math.pow(base, n)`, without rounding */
  function RealPow(base: real, n: nat): real {
    if n == 0 then 1.0 else base * RealPow(base, n - 1)
  }

  lemma {:induction false} RealPowTwo(n: nat)
    ensures RealPow(2.0, n) == Pow2(n) as real
  {
    if n > 0 {
      RealPowTwo(n - 1);
    }
  }

  lemma {:induction false} RealPowNonNegative(base: real, n: nat)
    requires base >= 0.0
    ensures RealPow(base, n) >= 0.0
  {
    if n > 0 {
      RealPowNonNegative(base, n - 1);
    }
  }
}
