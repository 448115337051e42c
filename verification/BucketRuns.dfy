/** Whole histories of a call bucket.  Every entry point of `CallBucket` ensures
    `Steps`, so a history of calls is a run of the reference ledger and inherits
    what is proved about all runs. */
module BucketRuns {
  import opened Integers
  import opened Strike
  import opened WriteQueue
  import opened BucketSteps
  import opened CallBucket
  import FL = FifoLedger
  import Sol = Solvency
  import SolventRuns

  datatype Call = Call(now: nat, op: FL.Op)

  /** The balances are 64-bit coins and the supply is what a mint allows. */
  predicate Ranged(s: Shape) { s.underlying < U64_LIMIT && s.settlement < U64_LIMIT && s.supply <= MAX_SUPPLY }

  lemma ValidIsRanged(b: Bucket)
    requires b.Valid()
    ensures Ranged(b.View())
  {
  }

  /** The successive contents of a bucket created with terms `t`.  `Transactions` keeps one for every bucket. */
  ghost predicate History(t: FL.Terms, shapes: seq<Shape>, calls: seq<Call>) {
    && |shapes| == |calls| + 1 && shapes[0] == EmptyShape(t)
    && (forall k :: 0 <= k < |shapes| ==> Ranged(shapes[k]))
    && forall k :: 0 <= k < |calls| ==> Steps(shapes[k], calls[k].now, calls[k].op, shapes[k + 1])
  }

  function OpsOf(calls: seq<Call>): seq<FL.Op> {
    if calls == [] then [] else OpsOf(calls[..|calls| - 1]) + [FL.Tick(calls[|calls| - 1].now), calls[|calls| - 1].op]
  }

  lemma CallIsTwoOps(s: Shape, now: nat, op: FL.Op, s': Shape)
    requires Steps(s, now, op, s') && Ranged(s) && Ranged(s')
    ensures SolventRuns.Possible(s.terms, LedgerOf(s), [FL.Tick(now), op])
    ensures FL.Legal(s.terms, LedgerOf(s), [FL.Tick(now), op])
    ensures FL.Run(s.terms, LedgerOf(s), [FL.Tick(now), op]) == LedgerOf(s')
  {
    var l := FL.Apply(s.terms, LedgerOf(s), FL.Tick(now));
    assert l == LedgerOf(s).(clock := now);
    var m := FL.Apply(s.terms, l, op);
    assert [op][1..] == [] && FL.Legal(s.terms, m, []) && SolventRuns.Possible(s.terms, m, []);
    assert FL.Legal(s.terms, l, [op]) && FL.Run(s.terms, l, [op]) == LedgerOf(s');
    assert SolventRuns.Possible(s.terms, l, [op]);
    assert [FL.Tick(now), op][1..] == [op];
  }

  /** A history of the cursor-based bucket is a possible run of the lot-by-lot ledger. */
  lemma {:induction false} HistoryIsRun(t: FL.Terms, shapes: seq<Shape>, calls: seq<Call>)
    requires History(t, shapes, calls)
    ensures Good(shapes[|calls|]) && shapes[|calls|].terms == t
    ensures FL.Legal(t, FL.EMPTY, OpsOf(calls)) && SolventRuns.Possible(t, FL.EMPTY, OpsOf(calls))
    ensures FL.Run(t, FL.EMPTY, OpsOf(calls)) == LedgerOf(shapes[|calls|])
    decreases |calls|
  {
    EmptyBucketIsGood(t);
    if calls != [] {
      var n := |calls| - 1;
      hide Good, Steps, LedgerOf;
      HistoryIsRun(t, shapes[..n + 1], calls[..n]);
      StepsGood(shapes[n], calls[n].now, calls[n].op, shapes[n + 1]);
      CallIsTwoOps(shapes[n], calls[n].now, calls[n].op, shapes[n + 1]);
      SolventRuns.PossibleAppend(t, FL.EMPTY, OpsOf(calls[..n]), [FL.Tick(calls[n].now), calls[n].op]);
    }
  }

  /** In every history of a bucket with an exact strike the settlement pool is exactly what is owed. */
  lemma HistorySettlesExactly(t: FL.Terms, shapes: seq<Shape>, calls: seq<Call>)
    requires History(t, shapes, calls) && SolventRuns.Exact(t)
    ensures Good(shapes[|calls|])
    ensures shapes[|calls|].settlement == FL.Owed(t, LedgerOf(shapes[|calls|]).lots)
  {
    HistoryIsRun(t, shapes, calls);
    SolventRuns.ExactStrikeSettlesExactly(t, OpsOf(calls));
  }

  lemma PaymentInRange(n: nat, strike: nat, scale: nat)
    requires n <= MAX_SUPPLY && strike <= MAX_SIG && scale <= MAX_STRIKE_SCALE && Payment(n, strike, scale) < U64_LIMIT
    ensures PaymentFits(n, strike, scale)
  {
    MulLe(n, MAX_SUPPLY, strike);
    MulLe(strike, MAX_SIG, MAX_SUPPLY);
    UnitBound(scale);
  }

  lemma LargestUnit()
    ensures Pow10(MAX_STRIKE_SCALE) == 100_000_000_000_000_000_000_000_000_000_000_000_000
  {
    assert Pow10(10) == 10_000_000_000 && Pow10(8) == 100_000_000;
    hide Pow10;
    Pow10Sum(10, 10);
    Pow10Sum(20, 10);
    Pow10Sum(30, 8);
  }

  lemma UnitBound(scale: nat)
    requires scale <= MAX_STRIKE_SCALE
    ensures Pow10(scale) <= U128_LIMIT / 2
  {
    LargestUnit();
    hide Pow10;
    Pow10Sum(scale, MAX_STRIKE_SCALE - scale);
    FactorLe(Pow10(scale), Pow10(MAX_STRIKE_SCALE - scale));
  }

  /** In every history of a bucket with an exact normalized strike, a pooled position can always redeem
      after expiry: the pool holds its underlying and its settlement, and the payment fits. */
  lemma RedemptionNeverAborts(t: FL.Terms, shapes: seq<Shape>, calls: seq<Call>, i: nat)
    requires History(t, shapes, calls) && SolventRuns.Normalized(t) && SolventRuns.Exact(t)
    requires var s := shapes[|calls|]; i < |s.ranges| && s.ranges[i].kind.Pooled?
    ensures var s := shapes[|calls|];
            && Ordered(s.ranges)
            && LotAt(s.ranges[i], s.cursor).live <= s.underlying
            && Payment(Overlap(s.ranges[i].start, s.ranges[i].end, s.cursor), t.strike, t.scale) <= s.settlement
            && PaymentFits(Overlap(s.ranges[i].start, s.ranges[i].end, s.cursor), t.strike, t.scale)
  {
    var s := shapes[|calls|];
    HistorySettlesExactly(t, shapes, calls);
    HistoryIsRun(t, shapes, calls);
    SolventRuns.RunKeepsLotsFit(t, FL.EMPTY, OpsOf(calls));
    RedeemIsCovered(s, i);
    var lots := LotsAt(s.ranges, s.cursor);
    FL.LotWithinSum(lots, i, FL.OwedTo(t));
    assert lots[i].exercised == Overlap(s.ranges[i].start, s.ranges[i].end, s.cursor);
    PaymentInRange(lots[i].exercised, t.strike, t.scale);
  }

  // ----- strike normalization -----

  ghost predicate Canonical(sig: nat, exp: nat) {
    exp == 0 || sig % 10 != 0
  }

  /** The two pairs denote the same ratio. */
  ghost predicate SameRatio(s: nat, e: nat, s': nat, e': nat) {
    s * Pow10(e') == s' * Pow10(e)
  }

  /** `normalize_strike`: strip trailing zeros while the scale lasts. */
  method NormalizeStrike(strike: u128, scale: nat) returns (r: Outcome<(nat, nat)>)
    requires scale <= MAX_STRIKE_SCALE
    ensures strike == 0 ==> r == Aborted(ZeroAmount)
    ensures r.Done? ==> var (sig, exp) := r.value;
              && sig <= MAX_SIG && exp <= scale && Canonical(sig, exp) && SameRatio(sig, exp, strike, scale)
    ensures strike > 0 && r.Aborted? ==>
              forall sig: nat, exp: nat ::
                exp <= scale && Canonical(sig, exp) && SameRatio(sig, exp, strike, scale) ==> sig > MAX_SIG
  {
    if strike == 0 { return Aborted(ZeroAmount); }
    var sig: nat, exp: nat := strike, scale;
    while sig % 10 == 0 && exp > 0
      invariant exp <= scale && sig * Pow10(scale - exp) == strike
      decreases exp
    {
      MulAssoc(sig / 10, 10, Pow10(scale - exp));
      sig, exp := sig / 10, exp - 1;
    }
    Pow10Sum(scale - exp, exp);
    MulAssoc(sig, Pow10(scale - exp), Pow10(exp));
    if sig > MAX_SIG {
      forall s: nat, e: nat | e <= scale && Canonical(s, e) && SameRatio(s, e, strike, scale) ensures s > MAX_SIG {
        CanonicalUnique(s, e, sig, exp, strike, scale);
      }
      return Aborted(StrikeNotRepresentable);
    }
    return Done((sig, exp));
  }

  lemma CancelUnit(a: nat, b: nat, u: nat)
    requires u > 0 && a * u == b * u
    ensures a == b
  {
  }

  /** A significand that still carries a power of ten ends in a zero. */
  lemma EndsInZero(s: nat, k: nat)
    requires k > 0
    ensures (s * Pow10(k)) % 10 == 0
  {
    var m := s * Pow10(k - 1);
    MulAssoc(s, 10, Pow10(k - 1));
    assert s * Pow10(k) == 10 * m;
  }

  lemma CancelPow10(a: nat, b: nat, e: nat)
    requires a * Pow10(e) == b * Pow10(e)
    ensures a == b
  {
    CancelUnit(a, b, Pow10(e));
  }

  lemma CanonicalOrdered(s: nat, e: nat, s': nat, e': nat)
    requires Canonical(s, e) && Canonical(s', e') && e <= e'
    requires SameRatio(s, e, s', e')
    ensures s == s' && e == e'
  {
    Pow10Sum(e' - e, e);
    MulAssoc(s, Pow10(e' - e), Pow10(e));
    CancelPow10(s * Pow10(e' - e), s', e);
    if e < e' {
      EndsInZero(s, e' - e);
    }
  }

  /** Each economic strike has exactly one canonical encoding. */
  lemma CanonicalUnique(s: nat, e: nat, s': nat, e': nat, strike: nat, scale: nat)
    requires Canonical(s, e) && Canonical(s', e')
    requires SameRatio(s, e, strike, scale) && SameRatio(s', e', strike, scale)
    ensures s == s' && e == e'
  {
    MulAssoc(s, Pow10(scale), Pow10(e'));
    MulAssoc(strike, Pow10(e), Pow10(e'));
    MulAssoc(s', Pow10(scale), Pow10(e));
    MulAssoc(strike, Pow10(e'), Pow10(e));
    assert (s * Pow10(e')) * Pow10(scale) == (s' * Pow10(e)) * Pow10(scale) by {
      MulAssoc(s, Pow10(e'), Pow10(scale));
      MulAssoc(s', Pow10(e), Pow10(scale));
    }
    CancelPow10(s * Pow10(e'), s' * Pow10(e), scale);
    if e <= e' { CanonicalOrdered(s, e, s', e'); } else { CanonicalOrdered(s', e', s, e); }
  }

  /** For a normalized strike, being exact is having no scale left, or too much of it to matter. */
  lemma ExactMeans(t: FL.Terms)
    requires Canonical(t.strike, t.scale) && t.strike > 0
    ensures SolventRuns.Exact(t) <==> t.scale == 0 || 2 * t.strike * MAX_SUPPLY < Pow10(t.scale)
  {
    WholeMeansNoScale(t.strike, t.scale);
  }

  /** For a normalized strike, being whole means having no scale left. */
  lemma WholeMeansNoScale(sig: nat, exp: nat)
    requires Canonical(sig, exp) && sig > 0
    ensures sig % Pow10(exp) == 0 <==> exp == 0
  {
    if exp > 0 && sig % Pow10(exp) == 0 {
      var k, r := DivideWithRemainder(sig, Pow10(exp));
      EndsInZero(k, exp);
    }
  }
}
