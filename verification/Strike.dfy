/** Strike arithmetic of the call bucket: powers of ten and the round-half-up
    settlement payment (contracts/core/sources/bucket.move, `pow10` and
    `apply_strike`). */
module Strike {
  import opened Integers

  const MAX_STRIKE_SCALE: nat := 38

  /** A mint stops short of the largest 64-bit number. */
  const MAX_SUPPLY: nat := U64_LIMIT - 2

  /** The largest significand of a normalized strike. */
  const MAX_SIG: nat := 0xFF_FFFF_FFFF

  function Pow10(e: nat): (r: nat)
    ensures r >= 1
  {
    if e == 0 then 1 else 10 * Pow10(e - 1)
  }

  lemma Pow10Halves(e: nat)
    ensures Pow10(e) == 1 || Pow10(e) % 2 == 0
  {
    if e > 0 { assert Pow10(e) == 2 * (5 * Pow10(e - 1)); }
  }

  /** `cost / unit`, rounded half up. */
  function RoundHalfUp(cost: nat, unit: nat): nat
    requires unit > 0
  {
    (cost + unit / 2) / unit
  }

  /** Settlement units paid for `amount` option units. */
  function Payment(amount: nat, strike: nat, scale: nat): nat {
    RoundHalfUp(amount * strike, Pow10(scale))
  }

  lemma MulLe(a: nat, b: nat, c: nat)
    requires a <= b
    ensures a * c <= b * c
  {
  }

  lemma MulAssoc(a: nat, b: nat, c: nat)
    ensures a * (b * c) == (a * b) * c
  {
  }

  /** `x / d` is the only quotient that brackets `x`. */
  lemma QuotientUnique(x: nat, d: nat, q: nat)
    requires d > 0
    requires q * d <= x < q * d + d
    ensures x / d == q
  {
    var p := x / d;
    assert p * d <= x < p * d + d;
    if p < q {
      MulLe(p + 1, q, d);
    } else if q < p {
      MulLe(q + 1, p, d);
    }
  }

  /** The rounded quotient is within half a unit of the exact one, and an exact
      half goes up. */
  lemma RoundsHalfUp(cost: nat, unit: nat)
    requires unit == 1 || (unit > 0 && unit % 2 == 0)
    ensures 2 * cost < 2 * (RoundHalfUp(cost, unit) * unit) + unit
    ensures 2 * (RoundHalfUp(cost, unit) * unit) <= 2 * cost + unit
  {
    var half := unit / 2;
    var x := cost + half;
    var q := x / unit;
    assert q * unit <= x < q * unit + unit;
  }

  /** A whole cost is paid exactly. */
  lemma WholeCostIsExact(cost: nat, unit: nat, q: nat)
    requires unit > 0 && cost == q * unit
    ensures RoundHalfUp(cost, unit) == q
  {
    QuotientUnique(cost + unit / 2, unit, q);
  }

  /** With a strike that is a whole number of settlement units, payments are linear. */
  lemma WholeStrikeIsLinear(amount: nat, strike: nat, scale: nat)
    requires strike % Pow10(scale) == 0
    ensures Payment(amount, strike, scale) == amount * (strike / Pow10(scale))
  {
    var d := Pow10(scale);
    var k := strike / d;
    assert strike == k * d;
    MulAssoc(amount, k, d);
    WholeCostIsExact(amount * strike, d, amount * k);
  }

  lemma DivideWithRemainder(x: nat, d: nat) returns (k: nat, r: nat)
    requires d > 0
    ensures x == k * d + r && r < d && k == x / d && r == x % d
  {
    k, r := x / d, x % d;
  }

  lemma {:induction false} Pow10Sum(a: nat, b: nat)
    ensures Pow10(a + b) == Pow10(a) * Pow10(b)
  {
    if a > 0 {
      Pow10Sum(a - 1, b);
      MulAssoc(10, Pow10(a - 1), Pow10(b));
    }
  }

  // ----- comparing strikes -----

  /** `strikeA / 10^scaleA <= strikeB / 10^scaleB`, compared exactly across scales. */
  predicate StrikeAtMost(strikeA: nat, scaleA: nat, strikeB: nat, scaleB: nat) {
    strikeA * Pow10(scaleB) <= strikeB * Pow10(scaleA)
  }

  lemma MulSwap(a: nat, b: nat, c: nat)
    ensures (a * b) * c == (a * c) * b
  {
  }

  /** Rounding keeps the order of two costs in different units. */
  lemma RoundingKeepsOrder(costA: nat, unitA: nat, costB: nat, unitB: nat)
    requires unitA == 1 || (unitA > 0 && unitA % 2 == 0)
    requires unitB == 1 || (unitB > 0 && unitB % 2 == 0)
    requires costA * unitB <= costB * unitA
    ensures RoundHalfUp(costA, unitA) <= RoundHalfUp(costB, unitB)
  {
    RoundsHalfUp(costA, unitA);
    RoundsHalfUp(costB, unitB);
    var q, p := RoundHalfUp(costA, unitA), RoundHalfUp(costB, unitB);
    hide RoundHalfUp;
    if p < q { OrderGap(costA, unitA, costB, unitB, q, p); }
  }

  /** Quotients that are rounded to within half a unit cannot be in the wrong order. */
  lemma OrderGap(costA: nat, unitA: nat, costB: nat, unitB: nat, q: nat, p: nat)
    requires unitA > 0 && unitB > 0 && p < q
    requires 2 * (q * unitA) <= 2 * costA + unitA && 2 * costB < 2 * (p * unitB) + unitB
    ensures costB * unitA < costA * unitB
  {
    MulLe(p + 1, q, unitA);
    Odd(p, unitA);
    Odd(p, unitB);
    CrossLess(2 * p + 1, unitA, unitB, 2 * costA, 2 * costB);
    Twice(costA, unitB);
    Twice(costB, unitA);
  }

  lemma Odd(p: nat, unit: nat)
    ensures (2 * p + 1) * unit == 2 * (p * unit) + unit && (p + 1) * unit == p * unit + unit
  {
  }

  lemma Twice(a: nat, b: nat)
    ensures (2 * a) * b == 2 * (a * b)
  {
  }

  lemma CrossLess(m: nat, unitA: nat, unitB: nat, a: nat, b: nat)
    requires unitA > 0 && m * unitA <= a && b < m * unitB
    ensures b * unitA < a * unitB
  {
    MulLe(m * unitA, a, unitB);
    MulLe(b + 1, m * unitB, unitA);
    MulSwap(m, unitA, unitB);
    PlusOne(b, unitA);
  }

  lemma PlusOne(b: nat, unit: nat)
    ensures (b + 1) * unit == b * unit + unit
  {
  }

  /** A strike is at most another exactly when no amount costs more at it: the cash that exercises a long
      call never exceeds what the short call collects. */
  lemma StrikeAtMostIff(strikeA: nat, scaleA: nat, strikeB: nat, scaleB: nat)
    ensures StrikeAtMost(strikeA, scaleA, strikeB, scaleB) <==>
            forall n: nat :: Payment(n, strikeA, scaleA) <= Payment(n, strikeB, scaleB)
  {
    var unitA, unitB := Pow10(scaleA), Pow10(scaleB);
    Pow10Halves(scaleA);
    Pow10Halves(scaleB);
    hide Pow10;
    if StrikeAtMost(strikeA, scaleA, strikeB, scaleB) {
      forall n: nat ensures Payment(n, strikeA, scaleA) <= Payment(n, strikeB, scaleB) {
        MulLe(strikeA * unitB, strikeB * unitA, n);
        Scaled(n, strikeA, unitB);
        Scaled(n, strikeB, unitA);
        RoundingKeepsOrder(n * strikeA, unitA, n * strikeB, unitB);
      }
    }
    if forall n: nat :: Payment(n, strikeA, scaleA) <= Payment(n, strikeB, scaleB) {
      var n := unitA * unitB;
      assert Payment(n, strikeA, scaleA) <= Payment(n, strikeB, scaleB);
      WholeAmount(unitA, unitB, strikeA);
      WholeAmount(unitB, unitA, strikeB);
    }
  }

  lemma Scaled(n: nat, strike: nat, unit: nat)
    ensures (strike * unit) * n == (n * strike) * unit
  {
  }

  /** On that many units the cost is whole. */
  lemma WholeAmount(unit: nat, other: nat, strike: nat)
    requires unit > 0
    ensures RoundHalfUp((unit * other) * strike, unit) == strike * other
  {
    assert (unit * other) * strike == (strike * other) * unit by {
      MulAssoc(unit, other, strike);
      MulSwap(strike, other, unit);
    }
    WholeCostIsExact((unit * other) * strike, unit, strike * other);
  }

  // ----- where rounding one amount differs from rounding its units -----

  /** Payments round to nothing for every amount a bucket can hold. */
  predicate Negligible(strike: nat, scale: nat) { 2 * strike * MAX_SUPPLY < Pow10(scale) }

  lemma NegligiblePaysNothing(n: nat, strike: nat, scale: nat)
    requires Negligible(strike, scale) && n <= MAX_SUPPLY
    ensures Payment(n, strike, scale) == 0
  {
    var d := Pow10(scale);
    MulLe(n, MAX_SUPPLY, strike);
    QuotientUnique(n * strike + d / 2, d, 0);
  }

  /** An amount whose payment is not the sum of its units' payments, for a fractional strike. */
  function LeakAmount(strike: nat, unit: nat): nat
    requires unit > 0 && strike % unit != 0
  {
    var r, half := strike % unit, unit / 2;
    if r < half then CeilDiv(half, r) else FloorDiv(half, unit - r) + 1
  }

  function FloorDiv(a: nat, b: nat): (q: nat)
    requires b > 0
    ensures q * b <= a < q * b + b
  {
    var q := a / b;
    assert a == q * b + a % b;
    assert q >= 0;
    q
  }

  function CeilDiv(a: nat, b: nat): (q: nat)
    requires b > 0
    ensures a <= q * b < a + b
  {
    FloorDiv(a + b - 1, b)
  }

  lemma Expand(n: nat, k: nat, unit: nat, r: nat)
    ensures n * (k * unit + r) == (n * k) * unit + n * r
  {
    MulAssoc(n, k, unit);
  }

  /** Below half a unit, single units round down and enough of them together round up. */
  lemma RoundsDownSingly(k: nat, r: nat, half: nat, n: nat)
    requires 0 < r < half && half <= n * r < half + r
    ensures RoundHalfUp(k * (2 * half) + r, 2 * half) == k
    ensures RoundHalfUp(n * (k * (2 * half) + r), 2 * half) == n * k + 1
  {
    var unit := 2 * half;
    QuotientUnique(k * unit + r + half, unit, k);
    Expand(n, k, unit, r);
    assert (n * k + 1) * unit == (n * k) * unit + unit;
    QuotientUnique((n * k) * unit + n * r + half, unit, n * k + 1);
  }

  /** From half a unit on, single units round up and enough of them together do not. */
  lemma RoundsUpSingly(k: nat, r: nat, half: nat, n: nat)
    requires half <= r < 2 * half && n > 0
    requires half < n * (2 * half - r) <= half + (2 * half - r)
    ensures RoundHalfUp(k * (2 * half) + r, 2 * half) == k + 1
    ensures RoundHalfUp(n * (k * (2 * half) + r), 2 * half) == n * k + n - 1
  {
    var unit := 2 * half;
    assert (k + 1) * unit == k * unit + unit;
    QuotientUnique(k * unit + r + half, unit, k + 1);
    Expand(n, k, unit, r);
    assert n * r == n * unit - n * (unit - r);
    assert (n * k + n - 1) * unit == (n * k) * unit + n * unit - unit;
    QuotientUnique((n * k) * unit + n * r + half, unit, n * k + n - 1);
  }

  lemma SmallCeiling(a: nat, half: nat, r: nat, bound: nat)
    requires r > 0 && half <= a * r < half + r && half <= bound * r
    ensures a <= bound
  {
    assert (bound + 1) * r == bound * r + r;
    if bound + 1 <= a { MulLe(bound + 1, a, r); }
  }

  lemma FactorLe(a: nat, b: nat)
    requires b > 0
    ensures a <= a * b
  {
    MulLe(1, b, a);
  }

  /** For every fractional strike whose payments are not negligible there is an amount that a bucket can
      hold and whose payment differs from the sum of its units' payments; both fit a balance. */
  lemma RoundingLeaks(strike: nat, scale: nat)
    requires 0 < strike <= MAX_SIG && strike % Pow10(scale) != 0 && !Negligible(strike, scale)
    ensures var n := LeakAmount(strike, Pow10(scale));
            && 0 < n <= MAX_SUPPLY && Payment(n, strike, scale) != n * Payment(1, strike, scale)
            && Payment(n, strike, scale) <= 3 * MAX_SIG + 1 && n * Payment(1, strike, scale) <= 3 * MAX_SIG + 1
  {
    var unit := Pow10(scale);
    Pow10Halves(scale);
    var half := unit / 2;
    var k, r := DivideWithRemainder(strike, unit);
    var n := LeakAmount(strike, unit);
    hide Pow10, LeakAmount;
    assert unit == 2 * half;
    assert 1 * strike == strike;
    if r < half {
      assert half <= n * r < half + r by { LeakBelow(strike, unit); }
      RoundsDownSingly(k, r, half, n);
      LeakBelowBounds(strike, unit, k, r, half, n);
    } else {
      assert half < n * (unit - r) <= half + (unit - r) && n > 0 by { LeakAbove(strike, unit); }
      RoundsUpSingly(k, r, half, n);
      LeakAboveBounds(strike, unit, k, r, half, n);
    }
  }

  lemma LeakBelow(strike: nat, unit: nat)
    requires unit > 0 && 0 < strike % unit < unit / 2
    ensures var n, r := LeakAmount(strike, unit), strike % unit; unit / 2 <= n * r < unit / 2 + r
  {
  }

  lemma LeakAbove(strike: nat, unit: nat)
    requires unit > 1 && unit / 2 <= strike % unit
    ensures strike % unit != 0
    ensures var n, s := LeakAmount(strike, unit), unit - strike % unit; n > 0 && unit / 2 < n * s <= unit / 2 + s
  {
    var s, q := unit - strike % unit, FloorDiv(unit / 2, unit - strike % unit);
    assert (q + 1) * s == q * s + s;
  }

  lemma LeakBelowBounds(strike: nat, unit: nat, k: nat, r: nat, half: nat, n: nat)
    requires strike == k * unit + r && unit == 2 * half && 0 < r < half && half <= n * r < half + r
    requires strike <= MAX_SIG && unit <= 2 * strike * MAX_SUPPLY
    ensures 0 < n <= MAX_SUPPLY && n * k + 1 <= 3 * MAX_SIG + 1
  {
    FactorLe(n, r);
    MulLe(n, unit, k);
    if k == 0 {
      SmallCeiling(n, half, r, MAX_SUPPLY);
    } else {
      FactorLe(unit, k);
    }
  }

  lemma LeakAboveBounds(strike: nat, unit: nat, k: nat, r: nat, half: nat, n: nat)
    requires strike == k * unit + r && unit == 2 * half && half <= r < unit && n > 0
    requires half < n * (unit - r) <= half + (unit - r) && strike <= MAX_SIG
    ensures n <= MAX_SUPPLY && n * (k + 1) <= 3 * MAX_SIG && n * k + n - 1 <= 3 * MAX_SIG
  {
    var s := unit - r;
    FactorLe(n, s);
    assert n <= unit;
    MulLe(n, unit, k + 1);
    assert unit * (k + 1) == k * unit + unit;
    assert n * (k + 1) == n * k + n;
  }
}
