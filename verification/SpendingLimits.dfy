/** What two limits, one per transaction and one per day, let through: totals pass through 64 bits and a double. */
module SpendingLimits {
  import opened Doubles
  import opened Integers
  import opened Options
  import opened Powers

  const MAX_INT64: nat := 9_223_372_036_854_775_807

  /** `CAST(text AS INTEGER)` of a number's digits. */
  function Saturated(n: nat): nat {
    if n <= MAX_INT64 then n else MAX_INT64
  }

  /** What a total that SQL could add up tells: the exact sum, or one value too large for 64 bits. */
  predicate Shows(total: int, spent: nat, cap: nat) {
    0 <= total <= MAX_INT64 && (total == spent || (total == MAX_INT64 && MAX_INT64 < spent <= cap))
  }

  /** Two transactions of which SQL sees only the first, as 2^63 - 1, pass the daily limit. */
  predicate Saturates(perTx: nat, daily: nat) {
    perTx > MAX_INT64 && daily > MAX_INT64 + 1 && Min(perTx, daily) + Min(perTx, daily - (MAX_INT64 + 1)) > daily
  }

  /**
   * When the daily limit is kept: it is at most 2^53, or no transaction may be large enough to pass it from the
   * last total that reads as less than it is, and none that SQL cuts to 64 bits leaves too much room.
   */
  predicate LimitIsKept(perTx: nat, daily: nat) {
    daily <= MAX_EXACT
    || (perTx <= daily - LastRoundedDown(Min(daily, MAX_INT64)) && !Saturates(perTx, daily))
  }

  /** How far the daily limit can be passed: half the spacing of doubles there, and all of it beyond 2^63. */
  function Excess(daily: nat): nat {
    var rounding := Ulp(daily) / 2;
    if daily > MAX_INT64 + 1 + rounding then daily - (MAX_INT64 + 1) else rounding
  }

  function Bound(perTx: nat, daily: nat): nat {
    if LimitIsKept(perTx, daily) then daily else daily + Excess(daily)
  }

  lemma Pow2Ten()
    ensures Pow2(10) == 1024
  {
    assert Pow2(5) == 32;
  }

  lemma LargestTotalRead()
    ensures ToNumber(MAX_INT64) == MAX_INT64 + 1
  {
    Pow2Ten();
    UlpOf(MAX_INT64, 10);
  }

  /** An admitted value keeps what is spent within the bound. */
  lemma AdmittedFits(perTx: nat, daily: nat, total: nat, spent: nat, value: nat)
    requires Shows(total, spent, Min(perTx, daily)) && spent <= Bound(perTx, daily)
    requires value <= perTx && ToNumber(total) + value <= daily
    ensures spent + value <= Bound(perTx, daily)
  {
    LossIsBounded(total, daily);
    if total != spent {
      LargestTotalRead();
    } else if LimitIsKept(perTx, daily) && RoundsDown(total) {
      RoundedFromAbove(total);
      LastIsGreatest(Min(daily, MAX_INT64), total);
    }
  }

  // ---- Values that are admitted one after another ----

  function Total(values: seq<nat>): nat {
    if values == [] then 0 else Total(values[..|values| - 1]) + values[|values| - 1]
  }

  /** The SQL total of the values; None when SUM overflows. */
  function Shown(values: seq<nat>): Option<nat> {
    if values == [] then Some(0)
    else match Shown(values[..|values| - 1])
      case None => None
      case Some(total) =>
        var sum := total + Saturated(values[|values| - 1]);
        if sum <= MAX_INT64 then Some(sum) else None
  }

  /** Each of the values is within both limits after the ones before it. */
  predicate Admissible(perTx: nat, daily: nat, values: seq<nat>) {
    values == []
    || (var before, last := values[..|values| - 1], values[|values| - 1];
        && Admissible(perTx, daily, before) && 1 <= last <= perTx
        && Shown(before).Some? && ToNumber(Shown(before).value) + last <= daily)
  }

  lemma {:induction false} ShownIsExact(values: seq<nat>)
    requires Total(values) <= MAX_INT64
    ensures Shown(values) == Some(Total(values))
  {
    if values != [] {
      ShownIsExact(values[..|values| - 1]);
    }
  }

  lemma OneMore(perTx: nat, daily: nat, values: seq<nat>, value: nat)
    requires Admissible(perTx, daily, values) && Shown(values).Some?
    requires 1 <= value <= perTx && ToNumber(Shown(values).value) + value <= daily
    ensures Admissible(perTx, daily, values + [value]) && Total(values + [value]) == Total(values) + value
  {
    assert (values + [value])[..|values|] == values;
  }

  /** The same while the total fits 64 bits. */
  lemma OneMoreExact(perTx: nat, daily: nat, values: seq<nat>, value: nat)
    requires Admissible(perTx, daily, values) && Total(values) <= MAX_INT64
    requires 1 <= value <= perTx && ToNumber(Total(values)) + value <= daily
    ensures Admissible(perTx, daily, values + [value]) && Total(values + [value]) == Total(values) + value
  {
    ShownIsExact(values);
    OneMore(perTx, daily, values, value);
  }

  function Repeat(value: nat, n: nat): (values: seq<nat>)
    ensures |values| == n && forall k :: 0 <= k < n ==> values[k] == value
  {
    if n == 0 then [] else Repeat(value, n - 1) + [value]
  }

  lemma {:induction false} RepeatTotal(value: nat, n: nat)
    ensures Total(Repeat(value, n)) == n * value
  {
    if n > 0 {
      RepeatTotal(value, n - 1);
      assert Repeat(value, n)[..n - 1] == Repeat(value, n - 1);
    }
  }

  // ---- Passing the daily limit ----

  lemma ReadsBelow(n: nat, top: nat)
    requires n < top && RoundsDown(top)
    ensures ToNumber(n) < top
  {
    ToNumberGrows(n, top);
  }

  lemma ClimbMore(perTx: nat, daily: nat, values: seq<nat>, top: nat)
    requires perTx >= 1 && Admissible(perTx, daily, values) && Total(values) < top <= Min(daily, MAX_INT64)
    requires RoundsDown(top)
    ensures Admissible(perTx, daily, values + [1]) && Total(values + [1]) == Total(values) + 1
  {
    ReadsBelow(Total(values), top);
    OneMoreExact(perTx, daily, values, 1);
  }

  /** Payments of one reach every total that reads as less than it is. */
  lemma {:induction false} Climb(perTx: nat, daily: nat, n: nat, top: nat)
    requires perTx >= 1 && n <= top <= Min(daily, MAX_INT64) && RoundsDown(top)
    ensures Admissible(perTx, daily, Repeat(1, n)) && Total(Repeat(1, n)) == n
  {
    if n > 0 {
      Climb(perTx, daily, n - 1, top);
      ClimbMore(perTx, daily, Repeat(1, n - 1), top);
    }
  }

  /** From a total that reads as less than it is, the rest of the limit and one more are admitted. */
  lemma RestAndOne(perTx: nat, daily: nat, values: seq<nat>, top: nat)
    requires Admissible(perTx, daily, values) && Total(values) == top && RoundsDown(top)
    requires top <= Min(daily, MAX_INT64) && daily - top < perTx
    ensures Admissible(perTx, daily, values + [daily - top + 1]) && Total(values + [daily - top + 1]) == daily + 1
  {
    OneMoreExact(perTx, daily, values, daily - top + 1);
  }

  lemma OneSaturates(perTx: nat, daily: nat, value: nat)
    requires MAX_INT64 < value <= Min(perTx, daily)
    ensures Admissible(perTx, daily, [value]) && Shown([value]) == Some(MAX_INT64) && Total([value]) == value
  {
    SmallIsExact(0);
    OneMore(perTx, daily, [], value);
    assert [] + [value] == [value] && [value][..0] == [];
  }

  /** A first transaction of 2^63 or more is counted as 2^63 - 1, which reads as 2^63. */
  lemma SaturationPasses(perTx: nat, daily: nat, first: nat, second: nat)
    requires MAX_INT64 < first <= Min(perTx, daily) && 1 <= second <= Min(perTx, daily - (MAX_INT64 + 1))
    ensures Admissible(perTx, daily, [first, second]) && Total([first, second]) == first + second
  {
    OneSaturates(perTx, daily, first);
    LargestTotalRead();
    OneMore(perTx, daily, [first], second);
    assert [first] + [second] == [first, second];
  }

  lemma ClimbTo(perTx: nat, daily: nat, top: nat) returns (values: seq<nat>)
    requires perTx >= 1 && top <= Min(daily, MAX_INT64) && RoundsDown(top)
    ensures Admissible(perTx, daily, values) && Total(values) == top
  {
    Climb(perTx, daily, top, top);
    values := Repeat(1, top);
  }

  lemma ManyPass(perTx: nat, daily: nat, top: nat) returns (values: seq<nat>)
    requires top <= Min(daily, MAX_INT64) && RoundsDown(top) && daily - top < perTx
    ensures Admissible(perTx, daily, values) && Total(values) == daily + 1
  {
    var ones := ClimbTo(perTx, daily, top);
    RestAndOne(perTx, daily, ones, top);
    values := ones + [daily - top + 1];
  }

  /** Under limits that cannot be kept, there are values that are all admitted and add up to more. */
  lemma PassingValues(perTx: nat, daily: nat) returns (values: seq<nat>)
    requires !LimitIsKept(perTx, daily)
    ensures Admissible(perTx, daily, values) && Total(values) > daily
  {
    if Saturates(perTx, daily) {
      values := [Min(perTx, daily), Min(perTx, daily - (MAX_INT64 + 1))];
      SaturationPasses(perTx, daily, values[0], values[1]);
    } else {
      values := ManyPass(perTx, daily, LastRoundedDown(Min(daily, MAX_INT64)));
    }
  }

  // ---- In few transactions ----

  lemma MultipleReads(daily: nat, k: nat, n: nat, step: nat)
    requires step == k * Ulp(daily) && n * step <= daily
    ensures ToNumber(n * step) == n * step
  {
    Times(n, k, Ulp(daily));
    MultiplesAreDoubles(n * step, n * k, daily);
  }

  lemma StepsRead(daily: nat, k: nat, n: nat)
    requires n * (k * Ulp(daily)) <= daily
    ensures Total(Repeat(k * Ulp(daily), n)) == n * (k * Ulp(daily))
    ensures ToNumber(n * (k * Ulp(daily))) == n * (k * Ulp(daily))
  {
    RepeatTotal(k * Ulp(daily), n);
    MultipleReads(daily, k, n, k * Ulp(daily));
  }

  /** Multiples of the spacing at the limit add up to totals that read as they are. */
  lemma {:induction false} StepsAreAdmitted(perTx: nat, daily: nat, k: nat, n: nat)
    requires 1 <= k * Ulp(daily) <= perTx && n * (k * Ulp(daily)) <= daily <= MAX_INT64
    ensures Admissible(perTx, daily, Repeat(k * Ulp(daily), n))
  {
    if n > 0 {
      var step := k * Ulp(daily);
      assert n * step == (n - 1) * step + step;
      StepsAreAdmitted(perTx, daily, k, n - 1);
      StepsRead(daily, k, n - 1);
      OneMoreExact(perTx, daily, Repeat(step, n - 1), step);
    }
  }

  lemma StepSize(perTx: nat, u: nat)
    requires u >= 1 && perTx >= 2 * u
    ensures 1 <= perTx / u * u <= perTx <= 2 * (perTx / u * u)
  {
    assert perTx == perTx / u * u + perTx % u;
    Multiply(perTx / u, 2, u);
  }

  lemma CountIsSmall(n: nat, step: nat, perTx: nat, daily: nat)
    requires n * step <= daily && 1 <= perTx <= 2 * step
    ensures n <= 2 * daily / perTx
  {
    assert n * perTx <= n * (2 * step) == 2 * (n * step);
    if n > 2 * daily / perTx {
      Multiply(n, 2 * daily / perTx + 1, perTx);
    }
  }

  /** Values that add up to `top`: steps of k times the spacing, and what is left. */
  lemma StepsUpTo(perTx: nat, daily: nat, k: nat, n: nat, left: nat) returns (values: seq<nat>)
    requires 1 <= k * Ulp(daily) <= perTx && left < k * Ulp(daily)
    requires n * (k * Ulp(daily)) + left <= daily <= MAX_INT64
    ensures |values| <= n + 1
    ensures Admissible(perTx, daily, values) && Total(values) == n * (k * Ulp(daily)) + left
  {
    StepsAreAdmitted(perTx, daily, k, n);
    StepsRead(daily, k, n);
    values := Repeat(k * Ulp(daily), n);
    if left > 0 {
      OneMoreExact(perTx, daily, values, left);
      values := values + [left];
    }
  }

  lemma Steps(perTx: nat, daily: nat, top: nat, u: nat) returns (k: nat, n: nat, left: nat)
    requires u >= 1 && top <= daily && perTx >= 2 * u
    ensures 1 <= k * u <= perTx && left < k * u && top == n * (k * u) + left && n <= 2 * daily / perTx
  {
    StepSize(perTx, u);
    k := perTx / u;
    var step := k * u;
    n, left := top / step, top % step;
    assert top == n * step + left;
    CountIsSmall(n, step, perTx, daily);
  }

  lemma FewReach(perTx: nat, daily: nat, top: nat) returns (values: seq<nat>)
    requires top <= daily <= MAX_INT64 && perTx >= 2 * Ulp(daily)
    ensures |values| <= 2 * daily / perTx + 1
    ensures Admissible(perTx, daily, values) && Total(values) == top
  {
    var k, n, left := Steps(perTx, daily, top, Ulp(daily));
    values := StepsUpTo(perTx, daily, k, n, left);
  }

  /**
   * A daily limit above 2^53 and within 64 bits is passed by a few transactions once each may move twice the spacing
   * of doubles there: up to a total that reads as less than it is, then the rest and one more.
   */
  lemma FewPass(perTx: nat, daily: nat) returns (values: seq<nat>)
    requires MAX_EXACT < daily <= MAX_INT64 && perTx >= 2 * Ulp(daily)
    ensures |values| <= 2 * daily / perTx + 2
    ensures Admissible(perTx, daily, values) && Total(values) == daily + 1
  {
    var top := LastRoundedDown(daily);
    LastIsNear(daily);
    values := FewReach(perTx, daily, top);
    RestAndOne(perTx, daily, values, top);
    values := values + [daily - top + 1];
  }

  /** So such a pair of limits is never kept: 0.05 ether per transaction and 0.1 a day is one. */
  lemma OrdinaryLimitIsNotKept(perTx: nat, daily: nat)
    requires MAX_EXACT < daily <= MAX_INT64 && perTx >= 2 * Ulp(daily)
    ensures !LimitIsKept(perTx, daily)
  {
    LastIsNear(daily);
  }

  const TWENTIETH: nat := 50_000_000_000_000_000
  const TENTH: nat := 100_000_000_000_000_000

  lemma DefaultsRead()
    ensures ToNumber(TWENTIETH) == TWENTIETH && ToNumber(TENTH - 15) == TENTH - 16
  {
    assert Pow2(3) == 8 && Pow2(4) == 16;
    UlpOf(TWENTIETH, 3);
    UlpOf(TENTH - 15, 4);
  }

  /** In wei, three transactions pass a daily limit of 0.1 ether, with 0.05 per transaction. */
  lemma ThreePass()
    ensures var values := [TWENTIETH, TWENTIETH - 15, 16];
            Admissible(TWENTIETH, TENTH, values) && Total(values) == TENTH + 1
  {
    SmallIsExact(0);
    DefaultsRead();
    OneMoreExact(TWENTIETH, TENTH, [], TWENTIETH);
    assert [] + [TWENTIETH] == [TWENTIETH];
    OneMoreExact(TWENTIETH, TENTH, [TWENTIETH], TWENTIETH - 15);
    assert [TWENTIETH] + [TWENTIETH - 15] == [TWENTIETH, TWENTIETH - 15];
    OneMoreExact(TWENTIETH, TENTH, [TWENTIETH, TWENTIETH - 15], 16);
    assert [TWENTIETH, TWENTIETH - 15] + [16] == [TWENTIETH, TWENTIETH - 15, 16];
  }
}
