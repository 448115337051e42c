/** Buckets whose settlement pool does not come out even, built call by call: for every
    strike that is not exact one bucket that falls short and one left with a
    surplus, and the smallest case followed to the redemption that aborts. */
module InexactBuckets {
  import opened Integers
  import opened Strike
  import opened WriteQueue
  import opened BucketSteps
  import opened CallBucket
  import opened BucketRuns
  import FL = FifoLedger
  import Sol = Solvency
  import SolventRuns

  /** A call that does not wait is one step of the ledger as it stands. */
  lemma StepsNow(s: Shape, op: FL.Op, s': Shape)
    requires Steps(s, s.clock, op, s') && !op.Tick?
    ensures Ordered(s.ranges) && Ordered(s'.ranges) && s'.terms == s.terms && s'.clock == s.clock
    ensures FL.Enabled(s.terms, LedgerOf(s), op) && LedgerOf(s') == FL.Apply(s.terms, LedgerOf(s), op)
  {
    assert LedgerOf(s).(clock := s.clock) == LedgerOf(s);
  }

  // ----- one write, exercised unit by unit -----

  method ExerciseUnit(b: Bucket, ghost t: FL.Terms, ghost n: nat, ghost j: nat)
    requires j < n <= MAX_SUPPLY && t.expiry > 0 && n * Payment(1, t.strike, t.scale) < U64_LIMIT
    requires b.Valid() && b.Terms() == t && b.clock == 0 && LedgerOf(b.View()) == SolventRuns.Nibbled(t, n, j)
    requires PaymentFits(1, t.strike, t.scale)
    modifies b
    ensures b.Valid() && b.clock == 0 && LedgerOf(b.View()) == SolventRuns.Nibbled(t, n, j + 1)
  {
    CanNibble(t, n, j);
    hide Good, Steps, PaymentFits, Payment, AllFunded, Longs, SolventRuns.Nibbled, FL.Reachable;
    var price := Payment(1, b.strike, b.strikeScale);
    ghost var before := b.View();
    var x := b.Exercise(1, price, 0);
    Nibbles(before, b.View(), n, j);
  }

  /** The bucket has a unit left to exercise, and room for what it costs. */
  lemma CanNibble(t: FL.Terms, n: nat, j: nat)
    requires j < n <= MAX_SUPPLY && t.expiry > 0 && n * Payment(1, t.strike, t.scale) < U64_LIMIT
    ensures var l := SolventRuns.Nibbled(t, n, j);
            && 1 <= l.supply && 1 <= FL.Reachable(l.lots) && l.settlement + Payment(1, t.strike, t.scale) < U64_LIMIT
  {
    SolventRuns.NibbleStep(t, n, j);
    var price := Payment(1, t.strike, t.scale);
    MulLe(j + 1, n, price);
    assert (j + 1) * price == j * price + price;
  }

  lemma Nibbles(s: Shape, s': Shape, n: nat, j: nat)
    requires j < n <= MAX_SUPPLY && s.terms.expiry > 0 && s.clock == 0 && Good(s)
    requires LedgerOf(s) == SolventRuns.Nibbled(s.terms, n, j) && Steps(s, 0, FL.Exercise(1), s')
    ensures s'.clock == 0 && LedgerOf(s') == SolventRuns.Nibbled(s.terms, n, j + 1)
  {
    SolventRuns.NibbleStep(s.terms, n, j);
    StepsNow(s, FL.Exercise(1), s');
    hide Steps, SolventRuns.Nibbled, FL.Apply, FL.Enabled;
  }

  method WriteAll(strike: u128, scale: nat, expiry: u64, n: u64) returns (b: Bucket)
    requires scale <= MAX_STRIKE_SCALE && expiry > 0 && 0 < n <= MAX_SUPPLY
    ensures fresh(b) && b.Valid() && b.Terms() == FL.Terms(strike, scale, expiry) && b.clock == 0
    ensures LedgerOf(b.View()) == SolventRuns.Nibbled(b.Terms(), n, 0)
  {
    b := new Bucket(strike, scale, expiry);
    EmptyBucketIsGood(b.Terms());
    hide Good, Steps, Payment, AllFunded, Longs;
    ghost var empty := b.View();
    var w := b.Write(n, 0);
    StepsNow(empty, FL.Write(n), b.View());
  }

  method ExerciseSingly(strike: u128, scale: nat, expiry: u64, n: u64) returns (b: Bucket)
    requires strike <= MAX_SIG && scale <= MAX_STRIKE_SCALE && expiry > 0 && 0 < n <= MAX_SUPPLY
    requires n * Payment(1, strike, scale) < U64_LIMIT
    ensures fresh(b) && b.Valid() && b.Terms() == FL.Terms(strike, scale, expiry) && b.clock == 0
    ensures LedgerOf(b.View()) == SolventRuns.Nibbled(b.Terms(), n, n)
  {
    FactorLe(Payment(1, strike, scale), n);
    PaymentInRange(1, strike, scale);
    hide Good, LedgerOf, PaymentFits, Payment, AllFunded, Longs, SolventRuns.Nibbled;
    b := WriteAll(strike, scale, expiry, n);
    ghost var t := b.Terms();
    var j := 0;
    while j < n
      invariant j <= n && b.Valid() && b.Terms() == t && b.clock == 0 && fresh(b)
      invariant LedgerOf(b.View()) == SolventRuns.Nibbled(t, n, j)
    {
      ExerciseUnit(b, t, n, j);
      j := j + 1;
    }
  }

  // ----- single-unit writes, exercised at once -----

  method WriteUnit(b: Bucket, ghost j: nat) returns (p: Position)
    requires j < MAX_SUPPLY && b.Valid() && b.Terms().expiry > 0 && b.clock == 0 && !b.invalidated
    requires LedgerOf(b.View()) == SolventRuns.Written(j) && b.totalWritten == j
    modifies b
    ensures b.Valid() && b.clock == 0 && !b.invalidated
    ensures LedgerOf(b.View()) == SolventRuns.Written(j + 1) && b.totalWritten == j + 1
    ensures p == Position(b, j, j + 1) && b.ranges == old(b.ranges) + [Range(j, j + 1, FL.Pooled)]
  {
    SolventRuns.WriteStep(b.Terms(), j);
    hide Good, Steps, AllFunded, Longs;
    ghost var before := b.View();
    assert b.supply == j && b.underlying == j;
    var w := b.Write(1, 0);
    p := w.value;
    StepsNow(before, FL.Write(1), b.View());
  }

  method ExerciseAtOnce(strike: u128, scale: nat, expiry: u64, n: u64) returns (b: Bucket)
    requires strike <= MAX_SIG && scale <= MAX_STRIKE_SCALE && expiry > 0 && 0 < n <= MAX_SUPPLY
    requires Payment(n, strike, scale) < U64_LIMIT
    ensures fresh(b) && b.Valid() && b.Terms() == FL.Terms(strike, scale, expiry) && b.clock == 0
    ensures LedgerOf(b.View()) == SolventRuns.Swept(b.Terms(), n)
  {
    b := new Bucket(strike, scale, expiry);
    EmptyBucketIsGood(b.Terms());
    PaymentInRange(n, strike, scale);
    ghost var t := b.Terms();
    SolventRuns.SweepStep(t, n);
    assert LedgerOf(b.View()) == SolventRuns.Written(0);
    hide Good, Steps, LedgerOf, PaymentFits, Payment, AllFunded, Longs;
    var j := 0;
    while j < n
      invariant j <= n && b.Valid() && b.Terms() == t && b.clock == 0 && fresh(b) && !b.invalidated
      invariant LedgerOf(b.View()) == SolventRuns.Written(j) && b.totalWritten == j
    {
      var p := WriteUnit(b, j);
      j := j + 1;
    }
    Sweep(b, n, t);
  }

  method Sweep(b: Bucket, n: u64, ghost t: FL.Terms)
    requires 0 < n <= MAX_SUPPLY && t.expiry > 0 && PaymentFits(n, t.strike, t.scale)
    requires b.Valid() && b.Terms() == t && b.clock == 0 && LedgerOf(b.View()) == SolventRuns.Written(n)
    modifies b
    ensures b.Valid() && b.clock == 0 && LedgerOf(b.View()) == SolventRuns.Swept(t, n) && b.ranges == old(b.ranges)
  {
    SolventRuns.SweepStep(t, n);
    hide Good, Steps, PaymentFits, Payment, AllFunded, Longs;
    ghost var before := b.View();
    PaymentBound(n, t.strike, t.scale);
    var x := b.Exercise(n, Payment(n, b.strike, b.strikeScale), 0);
    StepsNow(before, FL.Exercise(n), b.View());
  }

  lemma PaymentBound(n: nat, strike: nat, scale: nat)
    requires PaymentFits(n, strike, scale)
    ensures Payment(n, strike, scale) < U64_LIMIT
  {
  }

  // ----- every strike that is not exact -----

  /** For every normalized strike that is not exact, calls on a new bucket that leave it owing more than
      it holds, and calls on another that leave it holding more than it owes. */
  method BuildInexact(strike: u128, scale: nat, expiry: u64) returns (short: Bucket, over: Bucket)
    requires 0 < strike <= MAX_SIG && scale <= MAX_STRIKE_SCALE && expiry > 0
    requires !SolventRuns.Exact(FL.Terms(strike, scale, expiry))
    ensures fresh(short) && short.Valid() && short.Terms() == FL.Terms(strike, scale, expiry)
    ensures fresh(over) && over.Valid() && over.Terms() == FL.Terms(strike, scale, expiry)
    ensures !Sol.Solvent(short.Terms(), LedgerOf(short.View()))
    ensures FL.Owed(over.Terms(), LedgerOf(over.View()).lots) < over.settlement
  {
    RoundingLeaks(strike, scale);
    var n := LeakAmount(strike, Pow10(scale));
    ghost var t := FL.Terms(strike, scale, expiry);
    SolventRuns.NibbledOwes(t, n);
    SolventRuns.SweptOwes(t, n);
    hide Good, LedgerOf, Payment, Pow10, LeakAmount, AllFunded, Longs, SolventRuns.Nibbled, SolventRuns.Swept;
    var singly := ExerciseSingly(strike, scale, expiry, n);
    var atOnce := ExerciseAtOnce(strike, scale, expiry, n);
    if n * Payment(1, strike, scale) < Payment(n, strike, scale) {
      short, over := singly, atOnce;
    } else {
      short, over := atOnce, singly;
    }
  }

  // ----- the smallest case -----

  lemma HalfPayments()
    ensures Payment(1, 5, 1) == 1 && Payment(2, 5, 1) == 1
    ensures PaymentFits(1, 5, 1) && PaymentFits(2, 5, 1)
  {
    assert Pow10(1) == 10;
  }

  /** Two single-unit writes at a strike of one half and one exercise of both: it pays 1. */
  method HalfStrike(expiry: u64) returns (b: Bucket, p: Position, q: Position)
    requires expiry > 0
    ensures fresh(b) && b.Valid() && b.Terms() == FL.Terms(5, 1, expiry) && b.clock == 0
    ensures LedgerOf(b.View()) == SolventRuns.Swept(b.Terms(), 2)
    ensures b.ranges == [Range(0, 1, FL.Pooled), Range(1, 2, FL.Pooled)]
    ensures p == Position(b, 0, 1) && q == Position(b, 1, 2)
  {
    b := new Bucket(5, 1, expiry);
    EmptyBucketIsGood(b.Terms());
    assert LedgerOf(b.View()) == SolventRuns.Written(0);
    HalfPayments();
    hide Good, LedgerOf, PaymentFits, Payment, AllFunded, Longs, SolventRuns.Written;
    ghost var t := b.Terms();
    p := WriteUnit(b, 0);
    q := WriteUnit(b, 1);
    Sweep(b, 2, t);
  }

  /** After expiry the first position is paid the 1 the pool holds, and the second, owed 1 as well,
      cannot be paid at all. */
  method HalfStrikeStrandsSecond(expiry: u64) returns (first: Outcome<(nat, u64)>, second: Outcome<(nat, u64)>)
    requires expiry > 0
    ensures first == Done((0, 1)) && second == Aborted(InsufficientBalance)
  {
    var b, p, q := HalfStrike(expiry);
    HalfPayments();
    HalfLots(b.View());
    hide Good, Steps, LedgerOf, PaymentFits, Payment, AllFunded, Longs, Overlap, LotAt;
    ghost var s := b.View();
    first := b.Redeem(p, 0, expiry);
    FirstPaid(s, b.View());
    second := b.Redeem(q, 1, expiry);
  }

  /** Both units have been exercised. */
  lemma HalfLots(s: Shape)
    requires Ordered(s.ranges) && s.ranges == [Range(0, 1, FL.Pooled), Range(1, 2, FL.Pooled)]
    requires s.terms.strike == 5 && s.terms.scale == 1 && LedgerOf(s) == SolventRuns.Swept(s.terms, 2)
    ensures Overlap(0, 1, s.cursor) == 1 && Overlap(1, 2, s.cursor) == 1
    ensures LotAt(s.ranges[0], s.cursor) == FL.Lot(0, 1, FL.Pooled)
    ensures s.settlement == 1
  {
    HalfPayments();
    var lots := LedgerOf(s).lots;
    assert lots[0] == LotAt(s.ranges[0], s.cursor) && lots[1] == LotAt(s.ranges[1], s.cursor);
    assert SolventRuns.Copies(FL.Lot(0, 1, FL.Pooled), 2)[0] == FL.Lot(0, 1, FL.Pooled);
    assert SolventRuns.Copies(FL.Lot(0, 1, FL.Pooled), 2)[1] == FL.Lot(0, 1, FL.Pooled);
  }

  /** The first redemption empties the settlement pool. */
  lemma FirstPaid(s: Shape, s': Shape)
    requires s.terms.strike == 5 && s.terms.scale == 1 && Ordered(s.ranges) && |s.ranges| > 0
    requires LotAt(s.ranges[0], s.cursor) == FL.Lot(0, 1, FL.Pooled) && s.settlement == 1
    requires Steps(s, s.terms.expiry, FL.Redeem(0), s')
    ensures s'.settlement == 0
  {
    HalfPayments();
    assert LedgerOf(s).lots[0] == LotAt(s.ranges[0], s.cursor);
  }
}
