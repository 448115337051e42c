/** Which strikes keep a bucket's settlement pool exact, over every run that 64-bit
    coins allow.

    Two runs tell single units from an amount of them: one write exercised unit
    by unit, and single-unit writes exercised at once.  The first pays the sum
    of the units' payments and owes the amount's, the second the reverse. */
module SolventRuns {
  import opened Integers
  import opened Strike
  import opened FifoLedger
  import opened Solvency

  /** Balances are 64-bit coins, and the option coin's supply is what a mint allows. */
  predicate InRange(l: Ledger) {
    l.underlying < U64_LIMIT && l.settlement < U64_LIMIT && l.supply <= MAX_SUPPLY
  }

  /** A legal run that stays in range all the way. */
  predicate Possible(t: Terms, l: Ledger, ops: seq<Op>)
    decreases |ops|
  {
    InRange(l) && (ops == [] || (Enabled(t, l, ops[0]) && Possible(t, Apply(t, l, ops[0]), ops[1..])))
  }

  lemma {:induction false} PossibleIsLegal(t: Terms, l: Ledger, ops: seq<Op>)
    requires Possible(t, l, ops)
    ensures Legal(t, l, ops) && InRange(Run(t, l, ops))
    decreases |ops|
  {
    if ops != [] { PossibleIsLegal(t, Apply(t, l, ops[0]), ops[1..]); }
  }

  lemma {:induction false} PossibleAppend(t: Terms, l: Ledger, a: seq<Op>, b: seq<Op>)
    requires Legal(t, l, a) && Possible(t, l, a) && Possible(t, Run(t, l, a), b)
    ensures Possible(t, l, a + b) && Legal(t, l, a + b) && Legal(t, Run(t, l, a), b)
    ensures Run(t, l, a + b) == Run(t, Run(t, l, a), b)
    decreases |a|
  {
    PossibleIsLegal(t, Run(t, l, a), b);
    if a == [] {
      assert a + b == b;
    } else {
      assert (a + b)[1..] == a[1..] + b;
      PossibleAppend(t, Apply(t, l, a[0]), a[1..], b);
    }
  }

  /** The terms of a bucket created with a normalized strike. */
  predicate Normalized(t: Terms) { 0 < t.strike <= MAX_SIG && t.scale <= MAX_STRIKE_SCALE && t.expiry > 0 }

  /** No rounding ever shows: the strike is whole, or no payment reaches half a unit. */
  ghost predicate Exact(t: Terms) { WholeStrike(t) || Negligible(t.strike, t.scale) }

  // ----- exact strikes -----

  ghost predicate LotsFit(lots: seq<Lot>) {
    forall i :: 0 <= i < |lots| ==> lots[i].live + lots[i].exercised <= MAX_SUPPLY
  }

  lemma StepKeepsLotsFit(t: Terms, l: Ledger, op: Op)
    requires Invariant(t, l) && LotsFit(l.lots) && Enabled(t, l, op) && InRange(Apply(t, l, op))
    ensures LotsFit(Apply(t, l, op).lots)
  {
    if op.Exercise? {
      forall i | 0 <= i < |l.lots|
        ensures var r := Assign(l.lots, op.amount); r[i].live + r[i].exercised == l.lots[i].live + l.lots[i].exercised
      {
        AssignShape(l.lots, op.amount, i);
      }
    }
  }

  lemma {:induction false} RunKeepsLotsFit(t: Terms, l: Ledger, ops: seq<Op>)
    requires Invariant(t, l) && LotsFit(l.lots) && Possible(t, l, ops) && Legal(t, l, ops)
    ensures LotsFit(Run(t, l, ops).lots)
    decreases |ops|
  {
    if ops != [] {
      StepKeepsInvariant(t, l, ops[0]);
      StepKeepsLotsFit(t, l, ops[0]);
      RunKeepsLotsFit(t, Apply(t, l, ops[0]), ops[1..]);
    }
  }

  lemma NegligibleOwesNothing(t: Terms, lots: seq<Lot>)
    requires Negligible(t.strike, t.scale) && LotsFit(lots)
    ensures Owed(t, lots) == 0
  {
    forall i | 0 <= i < |lots| ensures OwedTo(t)(lots[i]) == 0 {
      NegligiblePaysNothing(lots[i].exercised, t.strike, t.scale);
    }
    GoneSumsToNothing(lots, OwedTo(t));
  }

  lemma {:induction false} NegligibleSettlesNothing(t: Terms, l: Ledger, ops: seq<Op>)
    requires Negligible(t.strike, t.scale) && Invariant(t, l) && LotsFit(l.lots) && l.settlement == 0
    requires Possible(t, l, ops) && Legal(t, l, ops)
    ensures Run(t, l, ops).settlement == 0
    decreases |ops|
  {
    if ops != [] {
      StepKeepsInvariant(t, l, ops[0]);
      StepKeepsLotsFit(t, l, ops[0]);
      if ops[0].Exercise? { NegligiblePaysNothing(ops[0].amount, t.strike, t.scale); }
      NegligibleSettlesNothing(t, Apply(t, l, ops[0]), ops[1..]);
    }
  }

  /** With an exact strike the pool holds exactly what it owes after every possible run. */
  lemma ExactStrikeSettlesExactly(t: Terms, ops: seq<Op>)
    requires Exact(t) && Possible(t, EMPTY, ops) && Legal(t, EMPTY, ops)
    ensures Run(t, EMPTY, ops).settlement == Owed(t, Run(t, EMPTY, ops).lots)
  {
    if WholeStrike(t) {
      WholeStrikeSettlesExactly(t, EMPTY, ops);
    } else {
      NegligibleSettlesNothing(t, EMPTY, ops);
      RunKeepsLotsFit(t, EMPTY, ops);
      NegligibleOwesNothing(t, Run(t, EMPTY, ops).lots);
    }
  }

  // ----- one write, exercised unit by unit -----

  function UnitPrice(t: Terms): nat { Payment(1, t.strike, t.scale) }

  /** One write of `n` units of which `j` have been exercised singly. */
  function Nibbled(t: Terms, n: nat, j: nat): Ledger
    requires j <= n
  {
    Ledger([Lot(n - j, j, Pooled)], n - j, j * UnitPrice(t), n - j, 0)
  }

  function Nibbles(n: nat): seq<Op> { seq(n, _ => Exercise(1)) }

  lemma NibbleStep(t: Terms, n: nat, j: nat)
    requires j < n <= MAX_SUPPLY && t.expiry > 0
    ensures Enabled(t, Nibbled(t, n, j), Exercise(1))
    ensures Apply(t, Nibbled(t, n, j), Exercise(1)) == Nibbled(t, n, j + 1)
  {
    var lots := Nibbled(t, n, j).lots;
    assert lots[1..] == [] && Reachable(lots[1..]) == 0;
    assert Assign(lots, 1) == [Lot(n - j - 1, j + 1, Pooled)] + Assign(lots[1..], 0);
    assert (j + 1) * UnitPrice(t) == j * UnitPrice(t) + UnitPrice(t);
  }

  lemma {:induction false} NibbleRun(t: Terms, n: nat, j: nat)
    requires j <= n <= MAX_SUPPLY && t.expiry > 0 && n * UnitPrice(t) < U64_LIMIT
    ensures Possible(t, Nibbled(t, n, j), Nibbles(n - j)) && Legal(t, Nibbled(t, n, j), Nibbles(n - j))
    ensures Run(t, Nibbled(t, n, j), Nibbles(n - j)) == Nibbled(t, n, n)
    decreases n - j
  {
    MulLe(j, n, UnitPrice(t));
    if j < n {
      assert Nibbles(n - j)[1..] == Nibbles(n - (j + 1));
      NibbleStep(t, n, j);
      hide Nibbled, UnitPrice, Enabled, Apply;
      NibbleRun(t, n, j + 1);
    }
  }

  /** The run pays the sum of the units' payments and owes the amount's. */
  lemma SinglesPaid(t: Terms, n: nat) returns (ops: seq<Op>)
    requires 0 < n <= MAX_SUPPLY && t.expiry > 0 && n * UnitPrice(t) < U64_LIMIT
    ensures Possible(t, EMPTY, ops) && Legal(t, EMPTY, ops)
    ensures var l := Run(t, EMPTY, ops);
            l.settlement == n * UnitPrice(t) && Owed(t, l.lots) == Payment(n, t.strike, t.scale) && l.clock == 0
  {
    var w := Write(n);
    assert Apply(t, EMPTY, w) == Nibbled(t, n, 0);
    NibbleRun(t, n, 0);
    ops := [w] + Nibbles(n);
    assert ops[1..] == Nibbles(n);
    NibbledOwes(t, n);
  }

  lemma NibbledOwes(t: Terms, n: nat)
    ensures Owed(t, Nibbled(t, n, n).lots) == Payment(n, t.strike, t.scale)
  {
    var lots := Nibbled(t, n, n).lots;
    assert lots[1..] == [] && Sum(lots[1..], OwedTo(t)) == 0;
  }

  // ----- single-unit writes, exercised at once -----

  function Copies(x: Lot, k: nat): seq<Lot> { seq(k, _ => x) }

  lemma CopiesTail(x: Lot, k: nat)
    requires k > 0
    ensures Copies(x, k)[1..] == Copies(x, k - 1)
  {
  }

  lemma {:induction false} SumOfCopies(x: Lot, k: nat, f: Lot -> nat)
    ensures Sum(Copies(x, k), f) == k * f(x)
  {
    if k > 0 {
      CopiesTail(x, k);
      SumOfCopies(x, k - 1, f);
      Distribute(k - 1, 1, f(x));
    }
  }

  /** The ledger after `k` single-unit writes. */
  function Written(k: nat): Ledger { Ledger(Copies(Lot(1, 0, Pooled), k), k, 0, k, 0) }

  function Writes(k: nat): seq<Op> { seq(k, _ => Write(1)) }

  lemma WriteStep(t: Terms, j: nat)
    requires t.expiry > 0
    ensures Enabled(t, Written(j), Write(1)) && Apply(t, Written(j), Write(1)) == Written(j + 1)
  {
    assert Copies(Lot(1, 0, Pooled), j) + [Lot(1, 0, Pooled)] == Copies(Lot(1, 0, Pooled), j + 1);
  }

  lemma {:induction false} WritesRun(t: Terms, j: nat, k: nat)
    requires t.expiry > 0 && j + k <= MAX_SUPPLY
    ensures Possible(t, Written(j), Writes(k)) && Legal(t, Written(j), Writes(k))
    ensures Run(t, Written(j), Writes(k)) == Written(j + k)
    decreases k
  {
    if k > 0 {
      assert Writes(k)[1..] == Writes(k - 1);
      WriteStep(t, j);
      WritesRun(t, j + 1, k - 1);
    }
  }

  lemma {:induction false} AssignWholeQueue(k: nat)
    ensures Reachable(Copies(Lot(1, 0, Pooled), k)) == k
    ensures Assign(Copies(Lot(1, 0, Pooled), k), k) == Copies(Lot(0, 1, Pooled), k)
  {
    if k > 0 {
      AssignWholeQueue(k - 1);
      CopiesTail(Lot(1, 0, Pooled), k);
      CopiesTail(Lot(0, 1, Pooled), k);
      assert Copies(Lot(0, 1, Pooled), k) == [Lot(0, 1, Pooled)] + Copies(Lot(0, 1, Pooled), k)[1..];
    }
  }

  /** `n` single-unit writes, all exercised together. */
  function Swept(t: Terms, n: nat): Ledger {
    Ledger(Copies(Lot(0, 1, Pooled), n), 0, Payment(n, t.strike, t.scale), 0, 0)
  }

  lemma SweepStep(t: Terms, n: nat)
    requires n > 0 && t.expiry > 0
    ensures Enabled(t, Written(n), Exercise(n)) && Apply(t, Written(n), Exercise(n)) == Swept(t, n)
  {
    AssignWholeQueue(n);
  }

  lemma SweptOwes(t: Terms, n: nat)
    ensures Owed(t, Swept(t, n).lots) == n * UnitPrice(t)
  {
    SumOfCopies(Lot(0, 1, Pooled), n, OwedTo(t));
  }

  /** The run pays the amount's payment and owes the sum of the units'. */
  lemma AmountPaid(t: Terms, n: nat) returns (ops: seq<Op>)
    requires 0 < n <= MAX_SUPPLY && t.expiry > 0 && Payment(n, t.strike, t.scale) < U64_LIMIT
    ensures Possible(t, EMPTY, ops) && Legal(t, EMPTY, ops)
    ensures var l := Run(t, EMPTY, ops);
            l.settlement == Payment(n, t.strike, t.scale) && Owed(t, l.lots) == n * UnitPrice(t) && l.clock == 0
  {
    var x := Exercise(n);
    WritesRun(t, 0, n);
    assert EMPTY == Written(0);
    SweepStep(t, n);
    SweptOwes(t, n);
    var l, l' := Written(n), Swept(t, n);
    assert [x][1..] == [] && Possible(t, l', []) && Legal(t, l', []) && Run(t, l', []) == l';
    assert Possible(t, l, [x]) && Legal(t, l, [x]) && Run(t, l, [x]) == l';
    hide Written, Apply, Enabled;
    PossibleAppend(t, EMPTY, Writes(n), [x]);
    ops := Writes(n) + [x];
  }

  // ----- the exact condition -----

  /** For every inexact strike one possible run leaves the pool short, and another leaves a surplus. */
  lemma InexactStrikeLeaks(t: Terms) returns (short: seq<Op>, over: seq<Op>)
    requires Normalized(t) && !Exact(t)
    ensures Possible(t, EMPTY, short) && Legal(t, EMPTY, short)
    ensures Possible(t, EMPTY, over) && Legal(t, EMPTY, over)
    ensures !Solvent(t, Run(t, EMPTY, short))
    ensures var l := Run(t, EMPTY, over); Owed(t, l.lots) < l.settlement && l.clock < t.expiry
  {
    RoundingLeaks(t.strike, t.scale);
    var n := LeakAmount(t.strike, Pow10(t.scale));
    hide LeakAmount, Pow10, Payment;
    var singly := SinglesPaid(t, n);
    var atOnce := AmountPaid(t, n);
    if n * UnitPrice(t) < Payment(n, t.strike, t.scale) {
      short, over := singly, atOnce;
    } else {
      short, over := atOnce, singly;
    }
  }

  /** Over all runs a bucket can make, the settlement pool always covers what it owes if and only if
      the strike is whole or its payments are negligible. */
  lemma SolventInEveryRunIff(t: Terms)
    requires Normalized(t)
    ensures (forall ops :: Possible(t, EMPTY, ops) && Legal(t, EMPTY, ops) ==> Solvent(t, Run(t, EMPTY, ops))) <==>
              Exact(t)
  {
    if Exact(t) {
      forall ops | Possible(t, EMPTY, ops) && Legal(t, EMPTY, ops) ensures Solvent(t, Run(t, EMPTY, ops)) {
        ExactStrikeSettlesExactly(t, ops);
      }
    } else {
      var short, over := InexactStrikeLeaks(t);
    }
  }

  /** The redemptions that empty a bucket stay in range. */
  lemma {:induction false} RedemptionsPossible(t: Terms, l: Ledger, ops: seq<Op>)
    requires InRange(l) && Legal(t, l, ops)
    requires forall j :: 0 <= j < |ops| ==> ops[j].Redeem? || ops[j].RedeemSpread?
    ensures Possible(t, l, ops)
    decreases |ops|
  {
    if ops != [] {
      assert ops[0].Redeem? || ops[0].RedeemSpread?;
      RedemptionsPossible(t, Apply(t, l, ops[0]), ops[1..]);
    }
  }

  /** A run that ends before expiry with a surplus goes on to one in which everybody is out and the
      surplus is still there. */
  lemma SurplusStays(t: Terms, over: seq<Op>) returns (ops: seq<Op>)
    requires Possible(t, EMPTY, over) && Legal(t, EMPTY, over)
    requires var l := Run(t, EMPTY, over); Owed(t, l.lots) < l.settlement && l.clock < t.expiry
    ensures Possible(t, EMPTY, ops) && Legal(t, EMPTY, ops)
    ensures AllGone(Run(t, EMPTY, ops).lots) && Run(t, EMPTY, ops).settlement > 0
  {
    var l := Run(t, EMPTY, over);
    EveryRunKeepsInvariant(t, EMPTY, over);
    PossibleIsLegal(t, EMPTY, over);
    var tick := Tick(t.expiry);
    var l' := Apply(t, l, tick);
    StepKeepsInvariant(t, l, tick);
    var drain := DrainFrom(t, l', 0);
    DrainedMeansSolvent(t, l', drain);
    RedemptionsPossible(t, l', drain);
    assert ([tick] + drain)[1..] == drain;
    assert Possible(t, l, [tick] + drain) && Run(t, l, [tick] + drain) == Run(t, l', drain);
    PossibleAppend(t, EMPTY, over, [tick] + drain);
    ops := over + ([tick] + drain);
  }

  /** Over all runs a bucket can make, an emptied bucket has no settlement left, as clean-up demands, if
      and only if the strike is whole or its payments are negligible. */
  lemma EmptiesInEveryRunIff(t: Terms)
    requires Normalized(t)
    ensures (forall ops :: Possible(t, EMPTY, ops) && Legal(t, EMPTY, ops) && AllGone(Run(t, EMPTY, ops).lots) ==>
                             Run(t, EMPTY, ops).settlement == 0) <==> Exact(t)
  {
    if Exact(t) {
      forall ops | Possible(t, EMPTY, ops) && Legal(t, EMPTY, ops) && AllGone(Run(t, EMPTY, ops).lots)
        ensures Run(t, EMPTY, ops).settlement == 0
      {
        ExactStrikeSettlesExactly(t, ops);
        EveryRunKeepsInvariant(t, EMPTY, ops);
        DrainedPoolsAreEmpty(t, Run(t, EMPTY, ops));
      }
    } else {
      var short, over := InexactStrikeLeaks(t);
      var ops := SurplusStays(t, over);
    }
  }
}
