/** Can the bucket's pools pay every position that is still out?

    Each exercise pays its strike cost rounded half up, and each redemption is
    paid its own strike cost rounded half up.  The two roundings cut the same
    exercised units differently, so the settlement pool is exact if the strike
    is a whole number of settlement units and can be off otherwise.
    `SolventRuns` says exactly when, over the runs a bucket can make. */
module Solvency {
  import opened Strike
  import opened FifoLedger

  ghost predicate Solvent(t: Terms, l: Ledger) {
    Owed(t, l.lots) <= l.settlement
  }

  ghost predicate WholeStrike(t: Terms) {
    t.strike % Pow10(t.scale) == 0
  }

  // ----- a whole strike: the settlement pool is exact -----

  lemma {:induction false} OwedIsLinear(t: Terms, lots: seq<Lot>)
    requires WholeStrike(t)
    ensures Owed(t, lots) == Sum(lots, ExercisedUnits) * (t.strike / Pow10(t.scale))
  {
    if lots != [] {
      OwedIsLinear(t, lots[1..]);
      WholeStrikeIsLinear(lots[0].exercised, t.strike, t.scale);
      Distribute(lots[0].exercised, Sum(lots[1..], ExercisedUnits), t.strike / Pow10(t.scale));
    }
  }

  lemma Distribute(a: nat, b: nat, c: nat)
    ensures (a + b) * c == a * c + b * c
  {
  }

  lemma FreshLotOwesNothing(t: Terms, l: Lot)
    requires l.exercised == 0
    ensures OwedTo(t)(l) == 0
  {
    WholeCostIsExact(0, Pow10(t.scale), 0);
  }

  lemma ExerciseKeepsExactSettlement(t: Terms, l: Ledger, n: nat)
    requires WholeStrike(t) && Invariant(t, l) && Enabled(t, l, Exercise(n)) && l.settlement == Owed(t, l.lots)
    ensures Apply(t, l, Exercise(n)).settlement == Owed(t, Apply(t, l, Exercise(n)).lots)
  {
    var m := Apply(t, l, Exercise(n));
    AssignSums(l.lots, n);
    OwedIsLinear(t, l.lots);
    OwedIsLinear(t, m.lots);
    WholeStrikeIsLinear(n, t.strike, t.scale);
    assert m.settlement == l.settlement + Payment(n, t.strike, t.scale);
    hide *;
    Distribute(Sum(l.lots, ExercisedUnits), n, t.strike / Pow10(t.scale));
  }

  lemma StepKeepsExactSettlement(t: Terms, l: Ledger, op: Op)
    requires WholeStrike(t) && Invariant(t, l) && Enabled(t, l, op)
    requires l.settlement == Owed(t, l.lots)
    ensures Apply(t, l, op).settlement == Owed(t, Apply(t, l, op).lots)
  {
    FreshLotOwesNothing(t, Lot(0, 0, Gone));
    hide WholeStrike;
    StepMovesSum(t, l, op, OwedTo(t));
    if op.Exercise? {
      ExerciseKeepsExactSettlement(t, l, op.amount);
    } else if op.Write? || op.WriteSpread? {
      FreshLotOwesNothing(t, Lot(op.amount, 0, Pooled));
      FreshLotOwesNothing(t, Lot(op.amount, 0, Escrowed));
    } else if op.CloseSpread? || op.RedeemSpread? {
      FreshLotOwesNothing(t, l.lots[op.lot]);
    }
  }

  lemma {:induction false} WholeStrikeSettlesExactly(t: Terms, l: Ledger, ops: seq<Op>)
    requires WholeStrike(t) && Invariant(t, l) && l.settlement == Owed(t, l.lots)
    requires Legal(t, l, ops)
    ensures Run(t, l, ops).settlement == Owed(t, Run(t, l, ops).lots)
    decreases |ops|
  {
    if ops != [] {
      StepKeepsInvariant(t, l, ops[0]);
      StepKeepsExactSettlement(t, l, ops[0]);
      WholeStrikeSettlesExactly(t, Apply(t, l, ops[0]), ops[1..]);
    }
  }

  // ----- what solvency means to a position holder -----

  /** In a solvent bucket after expiry every pooled position can redeem, in any
      order: redeeming one leaves the bucket solvent for the rest. */
  lemma SolventPaysEveryPosition(t: Terms, l: Ledger, i: nat)
    requires Invariant(t, l) && Solvent(t, l) && t.expiry <= l.clock
    requires i < |l.lots| && l.lots[i].kind.Pooled?
    ensures Enabled(t, l, Redeem(i))
    ensures Solvent(t, Apply(t, l, Redeem(i)))
  {
    LotWithinSum(l.lots, i, PooledUnits);
    LotWithinSum(l.lots, i, OwedTo(t));
    StepMovesSum(t, l, Redeem(i), OwedTo(t));
    FreshLotOwesNothing(t, Lot(0, 0, Gone));
  }

  ghost predicate AllGone(lots: seq<Lot>) {
    forall i :: 0 <= i < |lots| ==> lots[i].kind.Gone?
  }

  lemma {:induction false} GoneSumsToNothing(lots: seq<Lot>, f: Lot -> nat)
    requires forall i :: 0 <= i < |lots| ==> f(lots[i]) == 0
    ensures Sum(lots, f) == 0
  {
    if lots != [] {
      GoneSumsToNothing(lots[1..], f);
    }
  }

  /** Conversely, if every position does get out after expiry, in whatever order, then the bucket was
      solvent and what is left is exactly what it held beyond what it owed: an insolvent bucket always
      strands somebody, and a surplus stays behind. */
  lemma {:induction false} DrainedMeansSolvent(t: Terms, l: Ledger, ops: seq<Op>)
    requires Invariant(t, l) && t.expiry <= l.clock && Legal(t, l, ops)
    requires AllGone(Run(t, l, ops).lots)
    ensures Solvent(t, l) && Run(t, l, ops).settlement == l.settlement - Owed(t, l.lots)
    decreases |ops|
  {
    if ops == [] {
      NothingOwed(t, l.lots);
    } else {
      var op := ops[0];
      StepKeepsInvariant(t, l, op);
      DrainedMeansSolvent(t, Apply(t, l, op), ops[1..]);
      StepMovesSum(t, l, op, OwedTo(t));
      FreshLotOwesNothing(t, Lot(0, 0, Gone));
      if op.RedeemSpread? {
        FreshLotOwesNothing(t, l.lots[op.lot]);
      }
    }
  }

  lemma NothingOwed(t: Terms, lots: seq<Lot>)
    requires LotsWellFormed(lots) && AllGone(lots)
    ensures Owed(t, lots) == 0
  {
    forall i | 0 <= i < |lots| ensures OwedTo(t)(lots[i]) == 0 {
      FreshLotOwesNothing(t, lots[i]);
    }
    GoneSumsToNothing(lots, OwedTo(t));
  }

  /** From a solvent bucket after expiry everybody can get out, starting with the oldest lot. */
  lemma {:induction false} DrainFrom(t: Terms, l: Ledger, i: nat) returns (ops: seq<Op>)
    requires Invariant(t, l) && Solvent(t, l) && t.expiry <= l.clock && i <= |l.lots|
    requires forall j :: 0 <= j < i ==> l.lots[j].kind.Gone?
    ensures Legal(t, l, ops) && AllGone(Run(t, l, ops).lots)
    ensures forall j :: 0 <= j < |ops| ==> ops[j].Redeem? || ops[j].RedeemSpread?
    decreases |l.lots| - i
  {
    if i == |l.lots| {
      ops := [];
    } else if l.lots[i].kind.Gone? {
      ops := DrainFrom(t, l, i + 1);
    } else {
      var op := if l.lots[i].kind.Pooled? then Redeem(i) else RedeemSpread(i);
      if op.Redeem? {
        SolventPaysEveryPosition(t, l, i);
      } else {
        StepMovesSum(t, l, op, OwedTo(t));
        FreshLotOwesNothing(t, Lot(0, 0, Gone));
      }
      StepKeepsInvariant(t, l, op);
      var rest := DrainFrom(t, Apply(t, l, op), i + 1);
      ops := [op] + rest;
      assert ops[1..] == rest;
    }
  }

  /** After expiry a bucket can be emptied for clean-up exactly when it holds just what it owes. */
  lemma CleanUpPossibleIff(t: Terms, l: Ledger)
    requires Invariant(t, l) && t.expiry <= l.clock
    ensures (exists ops :: Legal(t, l, ops) && AllGone(Run(t, l, ops).lots) && Run(t, l, ops).settlement == 0)
            <==> l.settlement == Owed(t, l.lots)
  {
    if l.settlement == Owed(t, l.lots) {
      var ops := DrainFrom(t, l, 0);
      DrainedMeansSolvent(t, l, ops);
    }
    forall ops | Legal(t, l, ops) && AllGone(Run(t, l, ops).lots)
      ensures Run(t, l, ops).settlement == l.settlement - Owed(t, l.lots)
    {
      DrainedMeansSolvent(t, l, ops);
    }
  }

  /** Once every position is out the pool holds no underlying and owes nothing. */
  lemma DrainedPoolsAreEmpty(t: Terms, l: Ledger)
    requires Invariant(t, l) && AllGone(l.lots)
    ensures l.underlying == 0 && Owed(t, l.lots) == 0
  {
    GoneSumsToNothing(l.lots, PooledUnits);
    NothingOwed(t, l.lots);
  }

  // ----- how far short a fractional strike can fall -----

  function Exercises(ops: seq<Op>): nat {
    if ops == [] then 0 else (if ops[0].Exercise? then 1 else 0) + Exercises(ops[1..])
  }

  lemma {:induction false} OwedWithinHalfUnitPerLot(t: Terms, lots: seq<Lot>)
    ensures 2 * (Owed(t, lots) * Pow10(t.scale)) <=
            2 * (Sum(lots, ExercisedUnits) * t.strike) + |lots| * Pow10(t.scale)
  {
    if lots != [] {
      var d := Pow10(t.scale);
      var x := lots[0].exercised;
      OwedWithinHalfUnitPerLot(t, lots[1..]);
      Pow10Halves(t.scale);
      RoundsHalfUp(x * t.strike, d);
      Distribute(OwedTo(t)(lots[0]), Owed(t, lots[1..]), d);
      Distribute(x, Sum(lots[1..], ExercisedUnits), t.strike);
      Distribute(1, |lots[1..]|, d);
    }
  }

  /** Until expiry the pool is at most half a unit per exercise below the exact
      cost of what was exercised; at all times it owes at most half a unit per
      exercise and per position more than it holds. */
  ghost predicate ShortfallBound(t: Terms, l: Ledger, exercises: nat) {
    && (l.clock < t.expiry ==>
          2 * (Sum(l.lots, ExercisedUnits) * t.strike) <=
          2 * (l.settlement * Pow10(t.scale)) + exercises * Pow10(t.scale))
    && 2 * Owed(t, l.lots) <= 2 * l.settlement + exercises + |l.lots|
  }

  lemma CancelFactor(a: nat, b: nat, d: nat)
    requires d > 0 && a * d <= b * d
    ensures a <= b
  {
    if b < a {
      Distribute(b, 1, d);
      MulLe(b + 1, a, d);
    }
  }

  lemma LiveBound(t: Terms, l: Ledger, exercises: nat)
    requires 2 * (Sum(l.lots, ExercisedUnits) * t.strike) <=
             2 * (l.settlement * Pow10(t.scale)) + exercises * Pow10(t.scale)
    ensures 2 * Owed(t, l.lots) <= 2 * l.settlement + exercises + |l.lots|
  {
    var d := Pow10(t.scale);
    OwedWithinHalfUnitPerLot(t, l.lots);
    MulAssoc(2, Owed(t, l.lots), d);
    MulAssoc(2, l.settlement, d);
    Distribute(2 * l.settlement, exercises, d);
    Distribute(2 * l.settlement + exercises, |l.lots|, d);
    CancelFactor(2 * Owed(t, l.lots), 2 * l.settlement + exercises + |l.lots|, d);
  }

  /** A payment is at most half a unit below its exact cost. */
  lemma PaymentNearCost(n: nat, strike: nat, scale: nat)
    ensures 2 * (n * strike) <= 2 * (Payment(n, strike, scale) * Pow10(scale)) + Pow10(scale)
  {
    Pow10Halves(scale);
    hide Pow10;
    RoundsHalfUp(n * strike, Pow10(scale));
  }

  lemma ExerciseArithmetic(units: nat, n: nat, strike: nat, pool: nat, paid: nat, exercises: nat, d: nat)
    requires 2 * (units * strike) <= 2 * (pool * d) + exercises * d
    requires 2 * (n * strike) <= 2 * (paid * d) + d
    ensures 2 * ((units + n) * strike) <= 2 * ((pool + paid) * d) + (exercises + 1) * d
  {
    Distribute(units, n, strike);
    Distribute(pool, paid, d);
    Distribute(exercises, 1, d);
  }

  lemma ExerciseKeepsBound(t: Terms, l: Ledger, n: nat, exercises: nat)
    requires Invariant(t, l) && Enabled(t, l, Exercise(n)) && ShortfallBound(t, l, exercises)
    ensures ShortfallBound(t, Apply(t, l, Exercise(n)), exercises + 1)
  {
    hide Pow10, Payment, Reachable, Owed;
    AssignSums(l.lots, n);
    PaymentNearCost(n, t.strike, t.scale);
    ExerciseArithmetic(Sum(l.lots, ExercisedUnits), n, t.strike, l.settlement, Payment(n, t.strike, t.scale),
                       exercises, Pow10(t.scale));
    LiveBound(t, Apply(t, l, Exercise(n)), exercises + 1);
  }

  lemma StepKeepsBound(t: Terms, l: Ledger, op: Op, exercises: nat)
    requires Invariant(t, l) && Enabled(t, l, op) && ShortfallBound(t, l, exercises)
    ensures ShortfallBound(t, Apply(t, l, op), exercises + if op.Exercise? then 1 else 0)
  {
    if op.Exercise? {
      ExerciseKeepsBound(t, l, op.amount, exercises);
    } else {
      OtherStepKeepsBound(t, l, op, exercises);
    }
  }

  lemma OtherStepKeepsBound(t: Terms, l: Ledger, op: Op, exercises: nat)
    requires Invariant(t, l) && Enabled(t, l, op) && ShortfallBound(t, l, exercises) && !op.Exercise?
    ensures ShortfallBound(t, Apply(t, l, op), exercises)
  {
    hide Pow10;
    var m := Apply(t, l, op);
    StepMovesSum(t, l, op, ExercisedUnits);
    StepMovesSum(t, l, op, OwedTo(t));
    FreshLotOwesNothing(t, Lot(0, 0, Gone));
    if m.clock < t.expiry {
      LiveBound(t, m, exercises);
    } else if op.RedeemSpread? {
      FreshLotOwesNothing(t, l.lots[op.lot]);
    }
  }

  lemma {:induction false} ShortfallAtMostHalfAUnitEach(t: Terms, l: Ledger, ops: seq<Op>, before: nat)
    requires Invariant(t, l) && ShortfallBound(t, l, before) && Legal(t, l, ops)
    ensures ShortfallBound(t, Run(t, l, ops), before + Exercises(ops))
    decreases |ops|
  {
    if ops != [] {
      StepKeepsInvariant(t, l, ops[0]);
      StepKeepsBound(t, l, ops[0], before);
      ShortfallAtMostHalfAUnitEach(t, Apply(t, l, ops[0]), ops[1..], before + if ops[0].Exercise? then 1 else 0);
    }
  }
}
