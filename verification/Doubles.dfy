/** Natural numbers as JavaScript numbers: rounding to the nearest double. */
module Doubles {
  import opened Powers

  /** 2^53: up to here every integer is a JavaScript number. */
  const MAX_EXACT: nat := 9_007_199_254_740_992
  const HALF: nat := 4_503_599_627_370_496

  /** The distance between neighbouring doubles around n. */
  function Ulp(n: nat): (u: nat)
    ensures u >= 1
  {
    if n < MAX_EXACT then 1 else 2 * Ulp(n / 2)
  }

  /** n rounded to the nearest multiple of u, ties to the even one. */
  function Round(n: nat, u: nat): nat
    requires u >= 1
  {
    var q, r := n / u, n % u;
    if 2 * r < u || (2 * r == u && q % 2 == 0) then q * u else (q + 1) * u
  }

  /** The double nearest to a natural number: how a SQLite INTEGER reaches JavaScript. */
  function ToNumber(n: nat): nat {
    Round(n, Ulp(n))
  }

  predicate RoundsDown(n: nat) {
    ToNumber(n) < n
  }

  lemma SmallIsExact(n: nat)
    requires n <= MAX_EXACT
    ensures ToNumber(n) == n
  {
    if n == MAX_EXACT {
      assert Ulp(n / 2) == 1;
    }
  }

  /** The first integer that is not a double comes back rounded down. */
  lemma FirstGapRounds()
    ensures ToNumber(MAX_EXACT + 1) == MAX_EXACT
  {
    assert Ulp((MAX_EXACT + 1) / 2) == 1;
  }

  lemma RoundedFromAbove(n: nat)
    requires RoundsDown(n)
    ensures n > MAX_EXACT
  {
    if n <= MAX_EXACT {
      SmallIsExact(n);
    }
  }

  // ---- The spacing is a power of two ----

  /** From 2^53 on, the spacing is the power of two that leaves 53 significant bits. */
  lemma {:induction false} UlpOf(n: nat, e: nat)
    requires e >= 1 && HALF * Pow2(e) <= n < 2 * HALF * Pow2(e)
    ensures Ulp(n) == Pow2(e)
  {
    assert Pow2(e) == 2 * Pow2(e - 1);
    if e == 1 {
      assert Ulp(n / 2) == 1;
    } else {
      UlpOf(n / 2, e - 1);
    }
  }

  lemma {:induction false} UlpExponent(n: nat) returns (e: nat)
    requires n >= MAX_EXACT
    ensures e >= 1 && Ulp(n) == Pow2(e) && HALF * Pow2(e) <= n < 2 * HALF * Pow2(e)
  {
    if n / 2 < MAX_EXACT {
      e := 1;
      assert Pow2(1) == 2 * Pow2(0);
    } else {
      var below := UlpExponent(n / 2);
      e := below + 1;
      assert Pow2(e) == 2 * Pow2(below);
    }
  }

  lemma {:induction false} UlpGrows(m: nat, n: nat)
    requires m <= n
    ensures Ulp(m) <= Ulp(n)
  {
    if m >= MAX_EXACT {
      UlpGrows(m / 2, n / 2);
    }
  }

  lemma {:induction false} UlpJumps(m: nat, n: nat)
    requires m <= n && Ulp(m) != Ulp(n)
    ensures n >= MAX_EXACT && exists k: nat :: Ulp(n) == 2 * k * Ulp(m)
  {
    if m >= MAX_EXACT {
      UlpJumps(m / 2, n / 2);
      var k: nat :| Ulp(n / 2) == 2 * k * Ulp(m / 2);
      assert Ulp(n) == 2 * k * Ulp(m);
    } else {
      var e := UlpExponent(n);
      assert Pow2(e) == 2 * Pow2(e - 1);
      assert Ulp(n) == 2 * Pow2(e - 1) * Ulp(m);
    }
  }

  // ---- Rounding keeps the order ----

  lemma Multiply(a: nat, b: nat, u: nat)
    requires a >= b
    ensures a * u >= b * u
  {
  }

  lemma QuotientGrows(m: nat, n: nat, u: nat)
    requires u >= 1 && m <= n
    ensures m / u <= n / u && (m / u == n / u ==> m % u <= n % u)
  {
    if m / u > n / u {
      Multiply(m / u, n / u + 1, u);
    }
  }

  lemma RoundGrows(m: nat, n: nat, u: nat)
    requires u >= 1 && m <= n
    ensures Round(m, u) <= Round(n, u)
  {
    QuotientGrows(m, n, u);
    if m / u < n / u {
      Multiply(n / u, m / u + 1, u);
      Multiply(n / u + 1, n / u, u);
      Multiply(m / u + 1, m / u, u);
    } else {
      Multiply(n / u + 1, n / u, u);
    }
  }

  /** A multiple of the spacing above a number bounds its rounding. */
  lemma RoundBelow(m: nat, u: nat, k: nat)
    requires u >= 1 && m < k * u
    ensures Round(m, u) <= k * u
  {
    if m / u >= k {
      Multiply(m / u, k, u);
    }
    Multiply(k, m / u + 1, u);
    Multiply(m / u + 1, m / u, u);
  }

  lemma RoundAbove(n: nat, u: nat, k: nat)
    requires u >= 1 && k * u <= n
    ensures k * u <= Round(n, u)
  {
    if n / u < k {
      Multiply(k, n / u + 1, u);
    }
    Multiply(n / u, k, u);
    Multiply(n / u + 1, n / u, u);
  }

  lemma UlpTop(m: nat)
    ensures m < 2 * HALF * Ulp(m)
  {
    if m >= MAX_EXACT {
      var e := UlpExponent(m);
    }
  }

  lemma Regroup(k: nat, u: nat)
    ensures HALF * (2 * k * u) == (2 * k * HALF) * u
  {
  }

  lemma BelowBinade(m: nat, u: nat, k: nat)
    requires k >= 1 && u >= 1 && m < 2 * HALF * u
    ensures Round(m, u) <= HALF * (2 * k * u)
  {
    Regroup(k, u);
    Multiply(2 * k * HALF, 2 * HALF, u);
    RoundBelow(m, u, 2 * k * HALF);
  }

  /** A larger number never reads as a smaller one. */
  lemma ToNumberGrows(m: nat, n: nat)
    requires m <= n
    ensures ToNumber(m) <= ToNumber(n)
  {
    if Ulp(m) == Ulp(n) {
      RoundGrows(m, n, Ulp(m));
    } else {
      UlpJumps(m, n);
      var k: nat :| Ulp(n) == 2 * k * Ulp(m);
      var e := UlpExponent(n);
      RoundAbove(n, Ulp(n), HALF);
      UlpTop(m);
      BelowBinade(m, Ulp(m), k);
    }
  }

  lemma Divides(q: nat, u: nat, r: nat)
    requires r < u
    ensures (q * u + r) / u == q && (q * u + r) % u == r
  {
    var d := (q * u + r) / u;
    if d < q {
      Multiply(q, d + 1, u);
    } else if d > q {
      Multiply(d, q + 1, u);
    }
  }

  lemma RoundExact(q: nat, u: nat)
    requires u >= 1
    ensures Round(q * u, u) == q * u
  {
    Divides(q, u, 0);
  }

  lemma Times(a: nat, b: nat, c: nat)
    ensures a * (b * c) == (a * b) * c
  {
  }

  lemma RoundExactFiner(n: nat, m: nat, k: nat, u: nat, v: nat)
    requires u >= 1 && v == 2 * k * u && n == m * v
    ensures Round(n, u) == n
  {
    Times(m, 2 * k, u);
    RoundExact(m * (2 * k), u);
  }

  /** Up to a number, the multiples of the spacing at it are doubles. */
  lemma MultiplesAreDoubles(n: nat, m: nat, bound: nat)
    requires n == m * Ulp(bound) && n <= bound
    ensures ToNumber(n) == n
  {
    if Ulp(n) == Ulp(bound) {
      RoundExact(m, Ulp(n));
    } else {
      UlpJumps(n, bound);
      var k: nat :| Ulp(bound) == 2 * k * Ulp(n);
      RoundExactFiner(n, m, k, Ulp(n), Ulp(bound));
    }
  }

  // ---- How much is lost ----

  lemma RoundedDownBy(n: nat, u: nat)
    requires u >= 1 && Round(n, u) < n
    ensures Round(n, u) == n - n % u && 2 * (n % u) <= u
  {
    assert n == n / u * u + n % u;
    assert (n / u + 1) * u == n / u * u + u;
  }

  lemma Halves(r: nat, u: nat, v: nat)
    requires 2 * r <= u <= v
    ensures r <= v / 2
  {
  }

  /** What rounding takes off a number is at most half the spacing at any bound of the result. */
  lemma LossIsBounded(n: nat, bound: nat)
    requires ToNumber(n) <= bound
    ensures n <= ToNumber(n) + Ulp(bound) / 2
  {
    if RoundsDown(n) {
      RoundedFromAbove(n);
      var e := UlpExponent(n);
      RoundedDownBy(n, Ulp(n));
      RoundAbove(n, Ulp(n), HALF);
      UlpOf(ToNumber(n), e);
      UlpGrows(ToNumber(n), bound);
      Halves(n % Ulp(n), Ulp(n), Ulp(bound));
    }
  }

  // ---- The greatest number that loses something ----

  /** The greatest number up to n that is rounded down. */
  function LastRoundedDown(n: nat): (t: nat)
    requires n > MAX_EXACT
    ensures t <= n && RoundsDown(t)
  {
    FirstGapRounds();
    if RoundsDown(n) then n else LastRoundedDown(n - 1)
  }

  lemma {:induction false} LastIsGreatest(n: nat, t: nat)
    requires n > MAX_EXACT && t <= n && RoundsDown(t)
    ensures t <= LastRoundedDown(n)
  {
    RoundedFromAbove(t);
    if !RoundsDown(n) {
      LastIsGreatest(n - 1, t);
    }
  }

  lemma RoundAboveEven(q: nat, u: nat)
    requires u >= 2 && q % 2 == 0
    ensures Round(q * u + 1, u) == q * u
  {
    Divides(q, u, 1);
  }

  lemma {:induction false} Pow2Positive(e: nat)
    ensures Pow2(e) >= 1
  {
    if e > 0 {
      Pow2Positive(e - 1);
    }
  }

  lemma Pow2Even(e: nat)
    requires e >= 1
    ensures Pow2(e) == 2 * Pow2(e - 1) && Pow2(e) >= 2
  {
    Pow2Positive(e - 1);
  }

  lemma WithinBinade(q: nat, u: nat)
    requires u >= 2 && HALF <= q < 2 * HALF
    ensures HALF * u <= q * u + 1 < 2 * HALF * u
  {
    Multiply(q, HALF, u);
    Multiply(2 * HALF, q + 1, u);
    assert (q + 1) * u == q * u + u;
  }

  /** One more than an even multiple of the spacing is rounded down. */
  lemma JustAboveEven(q: nat, e: nat)
    requires e >= 1 && HALF <= q < 2 * HALF && q % 2 == 0
    ensures RoundsDown(q * Pow2(e) + 1)
  {
    Pow2Even(e);
    WithinBinade(q, Pow2(e));
    UlpOf(q * Pow2(e) + 1, e);
    RoundAboveEven(q, Pow2(e));
  }

  /** The digits of a number at its spacing: 53 bits, and a remainder. */
  lemma Digits(n: nat, u: nat) returns (q: nat, r: nat)
    requires u >= 1 && HALF * u <= n < 2 * HALF * u
    ensures n == q * u + r && r < u && HALF <= q < 2 * HALF
  {
    q, r := n / u, n % u;
    if q < HALF {
      Multiply(HALF, q + 1, u);
    } else if q >= 2 * HALF {
      Multiply(q, 2 * HALF, u);
    }
  }

  lemma EvenBelow(q: nat, r: nat) returns (p: nat)
    requires q > HALF || (q == HALF && r > 0)
    ensures HALF <= p <= q && p % 2 == 0
    ensures if r == 0 then p == q - 1 || p == q - 2 else p == q || p == q - 1
  {
    p := if q % 2 == 1 then q - 1 else if r == 0 then q - 2 else q;
  }

  lemma NearEven(q: nat, u: nat, r: nat, p: nat)
    requires r < u && u >= 2 && p <= q
    requires if r == 0 then p == q - 1 || p == q - 2 else p == q || p == q - 1
    ensures p * u + 1 <= q * u + r < p * u + 1 + 2 * u
  {
    assert (q - p) * u == q * u - p * u;
  }

  lemma PowerOfTwoIsNear(n: nat, e: nat)
    requires e >= 1 && n == HALF * Pow2(e) && n > MAX_EXACT
    ensures n < LastRoundedDown(n) + 2 * Pow2(e)
  {
    assert Pow2(e) == 2 * Pow2(e - 1);
    assert e > 1;
    var p := 2 * HALF - 2;
    JustAboveEven(p, e - 1);
    LastIsGreatest(n, p * Pow2(e - 1) + 1);
  }

  /** Within twice the spacing below any number beyond 2^53 there is one that is rounded down. */
  lemma LastIsNear(n: nat)
    requires n > MAX_EXACT
    ensures n < LastRoundedDown(n) + 2 * Ulp(n)
  {
    var e := UlpExponent(n);
    Pow2Even(e);
    var q, r := Digits(n, Pow2(e));
    if r == 0 && q == HALF {
      PowerOfTwoIsNear(n, e);
    } else {
      var p := EvenBelow(q, r);
      JustAboveEven(p, e);
      NearEven(q, Pow2(e), r, p);
      LastIsGreatest(n, p * Pow2(e) + 1);
    }
  }

}
