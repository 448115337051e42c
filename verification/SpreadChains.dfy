/** Spreads backed by spreads (contracts/core/sources/bucket.move).  The source notes that a spread's escrow
    guarantees that its crank succeeds while the long bucket is live.  It does when the long bucket holds no
    spread of its own; a chain of three buckets shows that it need not otherwise. */
module SpreadChains {
  import opened Integers
  import opened Strike
  import opened WriteQueue
  import opened QueueWalk
  import opened BucketSteps
  import opened CallBucket
  import opened InexactBuckets
  import opened CoinBooks
  import opened Transactions
  import FL = FifoLedger

  /** Without spreads all coins of a live bucket can be exercised. */
  lemma AllReachable(s: Shape)
    requires Good(s) && s.spreads == [] && s.clock < s.terms.expiry
    ensures FL.Reachable(LedgerOf(s).lots) == s.supply
  {
    var first := FirstSpread(s.ranges);
    GoodShape(s);
    RemainingIsLive(s.ranges, s.cursor);
    ReachableWithoutSpreads(s.ranges, s.cursor);
  }

  /** The source's note, where it holds: if the long bucket is live and holds no spread, the crank succeeds
      unless a balance overflows. */
  lemma EscrowGuaranteesCrank(m: Books, b: Bucket, long: Bucket, k: nat, now: nat)
    requires b in m.views && long in m.views && long.spreads == [] && now < long.expiry && m.clock <= now && Sound(m)
    requires k < |b.spreads| && b.spreads[k].start in b.escrows
    requires b.escrows[b.spreads[k].start].longBucket == long
    requires b.underlying + b.escrows[b.spreads[k].start].long < U64_LIMIT
    requires long.settlement + b.escrows[b.spreads[k].start].cash < U64_LIMIT
    ensures CanUnwind(b, long, b.spreads[k].start, now)
  {
    hide Sound, Agrees, OthersAgree, Balanced, Good, AllFunded, Longs, LedgerOf, FL.Reachable;
    Ready(m, b);
    Ready(m, long);
    EscrowKnown(m, b, b.spreads[k].start);
    AllReachable(long.View());
  }

  // ----- a blocked chain -----

  function Single(kind: FL.Kind, underlying: nat): FL.Ledger {
    FL.Ledger([FL.Lot(1, 0, kind)], underlying, 0, 1, 0)
  }

  /** At a whole strike one unit costs the strike. */
  lemma UnitPayment(strike: u64, scale: nat)
    requires scale == 0
    ensures Payment(1, strike, scale) == strike && PaymentFits(1, strike, scale)
    ensures StrikeAtMost(strike, scale, strike + 1, scale)
  {
  }

  lemma FirstWrite(s: Shape, op: FL.Op, s': Shape)
    requires Good(s) && LedgerOf(s) == FL.EMPTY && Steps(s, 0, op, s') && (op == FL.Write(1) || op == FL.WriteSpread(1))
    ensures LedgerOf(s') == if op.Write? then Single(FL.Pooled, 1) else Single(FL.Escrowed, 0)
  {
    StepsNow(s, op, s');
  }

  /** A lone spread of one unit becomes a lone pooled write. */
  lemma LoneUnwound(s: Shape, i: nat, s': Shape)
    requires Good(s) && LedgerOf(s) == Single(FL.Escrowed, 0) && Steps(s, 0, FL.UnwindSpread(i), s')
    ensures LedgerOf(s') == Single(FL.Pooled, 1)
  {
    StepsNow(s, FL.UnwindSpread(i), s');
  }

  /** The bucket holds one write, of one unit. */
  ghost predicate Holding(b: Bucket, kind: FL.Kind, strike: u64, expiry: u64)
    reads b
  {
    && b.Valid() && b.clock == 0 && b.Terms() == FL.Terms(strike, 0, expiry)
    && LedgerOf(b.View()) == Single(kind, if kind.Pooled? then 1 else 0)
  }

  /** Its one spread is backed by a coin of bucket `long`. */
  ghost predicate BackedBy(b: Bucket, long: Bucket, cash: u64)
    reads b
  {
    |b.spreads| == 1 && b.spreads[0].start == 0 && 0 in b.escrows && b.escrows[0] == Escrow(1, cash, long)
  }

  method WriteOne(strike: u64, expiry: u64) returns (b: Bucket)
    requires expiry > 0
    ensures fresh(b) && Holding(b, FL.Pooled, strike, expiry) && b.Terms() == FL.Terms(strike, 0, expiry)
  {
    b := new Bucket(strike, 0, expiry);
    EmptyBucketIsGood(b.Terms());
    hide Good, Steps, AllFunded, Longs;
    ghost var s := b.View();
    var w := b.Write(1, 0);
    FirstWrite(s, FL.Write(1), b.View());
  }

  method SpreadOne(long: Bucket, strike: u64, expiry: u64) returns (b: Bucket)
    requires expiry > 0 && long.Terms() == FL.Terms(strike, 0, expiry) && strike + 1 < U64_LIMIT
    ensures fresh(b) && Holding(b, FL.Escrowed, strike + 1, expiry) && BackedBy(b, long, strike)
    ensures b.Terms() == FL.Terms(strike + 1, 0, expiry)
  {
    b := new Bucket(strike + 1, 0, expiry);
    EmptyBucketIsGood(b.Terms());
    UnitPayment(strike, 0);
    hide Good, Steps, AllFunded, Longs, PaymentFits, Payment, StrikeAtMost;
    ghost var s := b.View();
    var w := b.WriteSpread(long, 1, strike, 0);
    FirstWrite(s, FL.WriteSpread(1), b.View());
  }

  lemma HoldingMeans(b: Bucket, kind: FL.Kind, strike: u64, expiry: u64)
    requires Holding(b, kind, strike, expiry)
    ensures b.supply == 1 && b.settlement == 0 && b.underlying <= 1
    ensures FL.Reachable(LedgerOf(b.View()).lots) == if kind.Escrowed? then 0 else 1
  {
    assert Single(kind, 0).lots[1..] == [];
  }

  method Crank(b: Bucket, long: Bucket, ghost kind: FL.Kind, ghost strike: u64, ghost expiry: u64)
    returns (r: Outcome<u64>)
    requires b != long && expiry > 0 && strike + 1 < U64_LIMIT && Holding(b, FL.Escrowed, strike + 1, expiry)
    requires BackedBy(b, long, strike) && Holding(long, kind, strike, expiry)
    modifies b, long
    ensures kind.Escrowed? ==> r == Aborted(SpreadUnwindRequired) && unchanged(b) && unchanged(long)
    ensures !kind.Escrowed? ==> r == Done(1) && Holding(b, FL.Pooled, strike + 1, expiry)
  {
    HoldingMeans(b, FL.Escrowed, strike + 1, expiry);
    HoldingMeans(long, kind, strike, expiry);
    hide Good, Steps, AllFunded, Longs, FL.Reachable;
    ghost var i;
    ghost var s := b.View();
    r, i := b.UnwindSpread(long, 0, 0);
    if r.Done? { LoneUnwound(s, i, b.View()); }
  }

  /** One unit written at some strike, a spread above it backed by its coin and a spread above that backed by
      the spread's: the last cannot be unwound although its long bucket is live, until the one before it is. */
  method BlockedCrank(strike: u64, expiry: u64) returns (early: Outcome<u64>, before: Outcome<u64>, late: Outcome<u64>)
    requires expiry > 0 && strike + 2 < U64_LIMIT
    ensures early == Aborted(SpreadUnwindRequired) && before == Done(1) && late == Done(1)
  {
    hide Holding, BackedBy;
    var low := WriteOne(strike, expiry);
    var mid := SpreadOne(low, strike, expiry);
    var high := SpreadOne(mid, strike + 1, expiry);
    early := Crank(high, mid, FL.Escrowed, strike + 1, expiry);
    before := Crank(mid, low, FL.Pooled, strike, expiry);
    late := Crank(high, mid, FL.Pooled, strike + 1, expiry);
  }
}
