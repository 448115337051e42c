/** The pooled call bucket (contracts/core/sources/bucket.move): a class whose
    entry points update the shared object's fields and are each proved to be
    one step of the first in, first out reference ledger.  An abort rolls the
    transaction back, so an aborted call changes nothing. */
module CallBucket {
  import opened Integers
  import opened Strike
  import opened WriteQueue
  import opened QueueWalk
  import opened BucketSteps
  import FL = FifoLedger

  datatype Abort =
    | BucketExpired | BucketNotExpired | BucketNotDrained | BucketInvalidated | BucketNotInvalidated
    | ZeroAmount | AmountMismatch | SettlementAmountMismatch | CursorOverflow
    | PositionBucketMismatch | CloseExceedsPosition | CloseRangeExercised
    | SpreadUnwindRequired | SpreadExpiryMismatch | SpreadStrikeTooHigh | SpreadNotFound
    | SpreadBucketMismatch | SpreadPosition | InsufficientBalance | Arithmetic | StrikeNotRepresentable

  datatype Outcome<T> = Done(value: T) | Aborted(code: Abort)

  datatype Check = Pass | Fail(code: Abort)

  /** The position object a writer holds. */
  datatype Position = Position(bucket: Bucket, start: nat, end: nat)

  /** Escrow of a spread write: long coins and the cash to exercise them. */
  datatype Escrow = Escrow(long: u64, cash: u64, longBucket: Bucket)

  /** `pow10`. */
  method PowerOfTen(exp: nat) returns (r: nat)
    requires exp <= MAX_STRIKE_SCALE
    ensures r == Pow10(exp)
  {
    r := 1;
    var i := 0;
    while i < exp
      invariant i <= exp && r == Pow10(i)
    {
      r := r * 10;
      i := i + 1;
    }
  }

  /** The 128-bit product and sum and the 64-bit result all fit. */
  predicate PaymentFits(amount: nat, strike: nat, scale: nat) {
    amount * strike + Pow10(scale) / 2 < U128_LIMIT && Payment(amount, strike, scale) < U64_LIMIT
  }

  /** `apply_strike`, with its checked arithmetic. */
  method ApplyStrike(amount: nat, strike: u128, scale: nat) returns (r: Outcome<u64>)
    requires scale <= MAX_STRIKE_SCALE
    ensures r == if PaymentFits(amount, strike, scale) then Done(Payment(amount, strike, scale))
                 else Aborted(Arithmetic)
  {
    var divisor := PowerOfTen(scale);
    var numerator := amount * strike;
    if numerator + divisor / 2 >= U128_LIMIT {
      return Aborted(Arithmetic);
    }
    var q := RoundHalfUp(numerator, divisor);
    if q >= U64_LIMIT {
      return Aborted(Arithmetic);
    }
    return Done(q);
  }

  /** The lower strike is the one that never costs more, whatever the amount exercised. */
  method CompareStrikes(strikeA: u128, scaleA: nat, strikeB: u128, scaleB: nat) returns (b: bool)
    requires scaleA <= MAX_STRIKE_SCALE && scaleB <= MAX_STRIKE_SCALE
    ensures b == StrikeAtMost(strikeA, scaleA, strikeB, scaleB)
    ensures b <==> forall n: nat :: Payment(n, strikeA, scaleA) <= Payment(n, strikeB, scaleB)
  {
    var unitA := PowerOfTen(scaleA);
    var unitB := PowerOfTen(scaleB);
    b := strikeA * unitB <= strikeB * unitA;
    StrikeAtMostIff(strikeA, scaleA, strikeB, scaleB);
  }

  /** The escrowed cash is exactly what exercising the escrowed long costs. */
  ghost predicate Funded(e: Escrow) {
    && e.longBucket.strikeScale <= MAX_STRIKE_SCALE
    && e.long > 0
    && PaymentFits(e.long, e.longBucket.strike, e.longBucket.strikeScale)
    && e.cash == Payment(e.long, e.longBucket.strike, e.longBucket.strikeScale)
  }

  ghost predicate AllFunded(escrows: map<nat, Escrow>) {
    forall k :: k in escrows ==> Funded(escrows[k])
  }

  /** Escrows are filed under starts that have been written. */
  ghost predicate KeysBelow(escrows: map<nat, Escrow>, total: nat) {
    forall k :: k in escrows ==> k < total
  }

  /** Escrowed long units by range start. */
  ghost function Longs(escrows: map<nat, Escrow>): map<nat, nat> {
    map k | k in escrows :: escrows[k].long
  }

  lemma FundedPositive(e: Escrow)
    requires Funded(e)
    ensures e.long > 0
  {
  }

  lemma EscrowFiled(escrows: map<nat, Escrow>, start: nat, e: Escrow)
    requires AllFunded(escrows) && Funded(e)
    ensures AllFunded(escrows[start := e]) && Longs(escrows[start := e]) == Longs(escrows)[start := e.long]
  {
  }

  lemma EscrowRemoved(escrows: map<nat, Escrow>, start: nat)
    requires AllFunded(escrows)
    ensures AllFunded(escrows - {start}) && Longs(escrows - {start}) == Longs(escrows) - {start}
  {
  }

  lemma EscrowOf(escrows: map<nat, Escrow>, start: nat)
    requires AllFunded(escrows)
    ensures start in escrows <==> start in Longs(escrows)
    ensures start in escrows ==> Funded(escrows[start]) && Longs(escrows)[start] == escrows[start].long
  {
  }

  class Bucket {
    const strike: u128
    const strikeScale: nat
    const expiry: u64
    var totalWritten: u128
    var exerciseCursor: u128
    var underlying: u64
    var settlement: u64
    var supply: u64
    var invalidated: bool
    var closed: seq<Interval>
    var closedPending: nat
    var spreads: seq<Interval>
    var escrows: map<nat, Escrow>
    /** Every write ever made, with what became of its position. */
    ghost var ranges: seq<Range>
    /** The chain clock when the bucket was last touched. */
    ghost var clock: nat

    ghost function Terms(): FL.Terms {
      FL.Terms(strike, strikeScale, expiry)
    }

    ghost function View(): Shape
      reads this
    {
      Shape(Terms(), totalWritten, exerciseCursor, closed, closedPending, spreads,
            Longs(escrows), ranges, underlying, settlement, supply, clock)
    }

    ghost predicate Valid()
      reads this
    {
      && strikeScale <= MAX_STRIKE_SCALE
      && supply <= MAX_SUPPLY
      && Good(View())
      && AllFunded(escrows)
      && KeysBelow(escrows, totalWritten)
    }

    /** The position is one of this bucket's: write number `i`, still out. */
    ghost predicate Holds(p: Position, i: nat)
      reads this
    {
      p.bucket == this ==>
        i < |ranges| && !ranges[i].kind.Gone? && p.start == ranges[i].start && p.end == ranges[i].end
    }

    constructor (strike: u128, strikeScale: nat, expiry: u64)
      requires strikeScale <= MAX_STRIKE_SCALE
      ensures Valid() && View() == EmptyShape(FL.Terms(strike, strikeScale, expiry)) && !invalidated && escrows == map[]
    {
      this.strike, this.strikeScale, this.expiry := strike, strikeScale, expiry;
      totalWritten, exerciseCursor, underlying, settlement, supply := 0, 0, 0, 0, 0;
      invalidated, closed, closedPending, spreads, escrows := false, [], 0, [], map[];
      ranges, clock := [], 0;
      new;
      hide Good, LedgerOf;
      EmptyBucketIsGood(Terms());
      assert Longs(escrows) == map[];
    }

    /** A covered write: `write_collateralized` and `do_write`. */
    method Write(amount: u64, now: nat) returns (r: Outcome<Position>)
      requires Valid() && clock <= now
      modifies this
      ensures Valid()
      ensures r.Aborted? ==> unchanged(this)
      ensures r.Aborted? <==> now >= expiry || old(invalidated) || amount == 0
                              || old(underlying) + amount >= U64_LIMIT || old(supply) + amount >= U64_LIMIT - 1
                              || old(totalWritten) + amount >= U128_LIMIT
      ensures r.Done? ==> Steps(old(View()), now, FL.Write(amount), View())
      ensures r.Done? ==> r.value == Position(this, old(totalWritten), totalWritten) && Holds(r.value, |old(ranges)|)
      ensures r.Done? ==> ranges == old(ranges) + [Range(old(totalWritten), totalWritten, FL.Pooled)]
      ensures r.Done? ==> supply == old(supply) + amount && escrows == old(escrows)
      ensures invalidated == old(invalidated)
    {
      hide Good, Steps, AllFunded, Longs, LedgerOf;
      if now >= expiry { return Aborted(BucketExpired); }
      if invalidated { return Aborted(BucketInvalidated); }
      if amount == 0 { return Aborted(ZeroAmount); }
      if underlying + amount >= U64_LIMIT || supply + amount >= U64_LIMIT - 1 || totalWritten + amount >= U128_LIMIT {
        return Aborted(Arithmetic);
      }
      WriteStep(View(), amount, FL.Pooled, now);
      StepsGood(View(), now, FL.Write(amount), AfterWrite(View(), amount, FL.Pooled, now));
      underlying := underlying + amount;
      var start := totalWritten;
      totalWritten := start + amount;
      supply := supply + amount;
      ranges, clock := ranges + [Range(start, start + amount, FL.Pooled)], now;
      assert View() == AfterWrite(old(View()), amount, FL.Pooled, now);
      r := Done(Position(this, start, totalWritten));
    }

    /** A write backed by a long call of another bucket: `write_spread`. */
    method WriteSpread(longBucket: Bucket, amount: u64, cash: u64, now: nat) returns (r: Outcome<Position>)
      requires Valid() && clock <= now && longBucket != this && longBucket.strikeScale <= MAX_STRIKE_SCALE
      modifies this
      ensures Valid()
      ensures r.Aborted? ==> unchanged(this)
      ensures r.Aborted? <==> now >= expiry || old(invalidated) || amount == 0 || longBucket.expiry < expiry
                              || !StrikeAtMost(longBucket.strike, longBucket.strikeScale, strike, strikeScale)
                              || !PaymentFits(amount, longBucket.strike, longBucket.strikeScale)
                              || cash != Payment(amount, longBucket.strike, longBucket.strikeScale)
                              || old(supply) + amount >= U64_LIMIT - 1 || old(totalWritten) + amount >= U128_LIMIT
      ensures r.Done? ==> forall n: nat ::
                Payment(n, longBucket.strike, longBucket.strikeScale) <= Payment(n, strike, strikeScale)
      ensures r.Done? ==> Steps(old(View()), now, FL.WriteSpread(amount), View())
      ensures r.Done? ==> r.value == Position(this, old(totalWritten), totalWritten) && Holds(r.value, |old(ranges)|)
      ensures r.Done? ==> escrows == old(escrows)[old(totalWritten) := Escrow(amount, cash, longBucket)]
      ensures r.Done? ==> spreads == old(spreads) + [Interval(old(totalWritten), old(totalWritten) + amount)]
      ensures r.Done? ==> supply == old(supply) + amount
      ensures invalidated == old(invalidated)
    {
      hide Good, Steps, LedgerOf, PaymentFits, Payment, StrikeAtMost, AllFunded, Longs;
      var c := CheckWriteSpread(longBucket, amount, cash, now);
      if c.Fail? { return Aborted(c.code); }
      r := Done(Position(this, totalWritten, totalWritten + amount));
      FileSpread(Escrow(amount, cash, longBucket), now);
    }

    /** Why a spread write would abort. */
    method CheckWriteSpread(longBucket: Bucket, amount: u64, cash: u64, now: nat) returns (c: Check)
      requires strikeScale <= MAX_STRIKE_SCALE && longBucket.strikeScale <= MAX_STRIKE_SCALE
      ensures c.Fail? <==> now >= expiry || invalidated || amount == 0 || longBucket.expiry < expiry
                           || !StrikeAtMost(longBucket.strike, longBucket.strikeScale, strike, strikeScale)
                           || !PaymentFits(amount, longBucket.strike, longBucket.strikeScale)
                           || cash != Payment(amount, longBucket.strike, longBucket.strikeScale)
                           || supply + amount >= U64_LIMIT - 1 || totalWritten + amount >= U128_LIMIT
      ensures (now < expiry && !invalidated && amount > 0 && expiry <= longBucket.expiry) ==>
                (c != Fail(SpreadStrikeTooHigh) <==> forall n: nat ::
                   Payment(n, longBucket.strike, longBucket.strikeScale) <= Payment(n, strike, strikeScale))
      ensures c.Pass? ==> forall n: nat ::
                Payment(n, longBucket.strike, longBucket.strikeScale) <= Payment(n, strike, strikeScale)
      ensures c.Pass? ==> Funded(Escrow(amount, cash, longBucket))
    {
      hide PaymentFits, Payment, StrikeAtMost;
      if now >= expiry { return Fail(BucketExpired); }
      if invalidated { return Fail(BucketInvalidated); }
      if amount == 0 { return Fail(ZeroAmount); }
      if longBucket.expiry < expiry { return Fail(SpreadExpiryMismatch); }
      var lower := CompareStrikes(longBucket.strike, longBucket.strikeScale, strike, strikeScale);
      if !lower { return Fail(SpreadStrikeTooHigh); }
      var required := ApplyStrike(amount, longBucket.strike, longBucket.strikeScale);
      if required.Aborted? { return Fail(required.code); }
      if cash != required.value { return Fail(SettlementAmountMismatch); }
      if supply + amount >= U64_LIMIT - 1 || totalWritten + amount >= U128_LIMIT { return Fail(Arithmetic); }
      return Pass;
    }

    /** Mint against the escrow and queue its range. */
    method FileSpread(e: Escrow, now: nat)
      requires Valid() && clock <= now < expiry && Funded(e)
      requires supply + e.long <= MAX_SUPPLY && totalWritten + e.long < U128_LIMIT
      modifies this`totalWritten, this`spreads, this`escrows, this`supply, this`ranges, this`clock
      ensures Valid() && Steps(old(View()), now, FL.WriteSpread(e.long), View())
      ensures totalWritten == old(totalWritten) + e.long
      ensures ranges == old(ranges) + [Range(old(totalWritten), totalWritten, FL.Escrowed)]
      ensures supply == old(supply) + e.long
      ensures escrows == old(escrows)[old(totalWritten) := e]
      ensures spreads == old(spreads) + [Interval(old(totalWritten), totalWritten)]
    {
      hide Good, Steps, LedgerOf, AllFunded, Longs, Funded;
      assert e.long > 0 by { FundedPositive(e); }
      WriteStep(View(), e.long, FL.Escrowed, now);
      StepsGood(View(), now, FL.WriteSpread(e.long), AfterWrite(View(), e.long, FL.Escrowed, now));
      EscrowFiled(escrows, totalWritten, e);
      var start := totalWritten;
      totalWritten := start + e.long;
      spreads := spreads + [Interval(start, totalWritten)];
      escrows := escrows[start := e];
      supply := supply + e.long;
      ranges, clock := ranges + [Range(start, start + e.long, FL.Escrowed)], now;
      assert View() == AfterWrite(old(View()), e.long, FL.Escrowed, now);
    }

    /** `overlaps_spread` on the part of a position from `from` on. */
    method TouchesSpread(p: Position, ghost i: nat, from: nat) returns (b: bool)
      requires Valid() && p.bucket == this && Holds(p, i) && p.start <= from <= p.end
      requires ranges[i].kind.Escrowed? ==> from < p.end
      ensures b <==> ranges[i].kind.Escrowed?
    {
      GoodShape(View());
      OverlapMeansOwnSpread(ranges, i, from);
      b := OverlapsSpread(spreads, from, p.end);
    }

    /** `find_spread_exact` for a position's own range. */
    method FindOwnSpread(p: Position, ghost i: nat) returns (k: nat)
      requires Valid() && p.bucket == this && Holds(p, i)
      ensures k <= |spreads| && (k < |spreads| <==> ranges[i].kind.Escrowed?)
      ensures k < |spreads| ==> spreads[k] == Interval(p.start, p.end) && p.start in escrows
    {
      k := FindSpread(spreads, p.start);
      SpreadFound(View(), i, k);
      EscrowOf(escrows, p.start);
    }

    /** `insert_closed` for the slice `[cut, p.end)` of a position. */
    method Tombstone(p: Position, ghost i: nat, cut: nat) returns (r: seq<Interval>)
      requires Valid() && p.bucket == this && Holds(p, i) && p.start <= cut < p.end && exerciseCursor <= cut
      ensures TombstoneAdded(closed, r, exerciseCursor, totalWritten, cut, p.end)
    {
      GoodShape(View());
      SliceFits(ranges, totalWritten, exerciseCursor, closed, closedPending, i, cut);
      r := InsertClosed(closed, cut, p.end, exerciseCursor, totalWritten);
    }

    // ----- exercise -----

    /** Why an exercise of `amount` coins would abort before the queue is walked.
        The coins exist, so they are part of the supply: the capacity check
        never fails. */
    method CheckExercise(amount: u64, payment: u64, now: nat) returns (c: Check)
      requires Valid() && clock <= now && amount <= supply
      ensures c.Pass? <==> now < expiry && amount > 0 && PaymentFits(amount, strike, strikeScale)
                           && payment == Payment(amount, strike, strikeScale) && settlement + payment < U64_LIMIT
      ensures c.Pass? ==> exerciseCursor + amount + closedPending <= totalWritten
      ensures c.Fail? ==> c.code != CursorOverflow && c.code != InsufficientBalance
    {
      hide Good, AllFunded, Longs, PaymentFits, Payment;
      if now >= expiry { return Fail(BucketExpired); }
      if amount == 0 { return Fail(ZeroAmount); }
      var required := ApplyStrike(amount, strike, strikeScale);
      if required.Aborted? { return Fail(required.code); }
      if payment != required.value { return Fail(SettlementAmountMismatch); }
      SupplyIsCapacity(View());
      if exerciseCursor + amount + closedPending > totalWritten { return Fail(CursorOverflow); }
      if settlement + payment >= U64_LIMIT { return Fail(Arithmetic); }
      return Pass;
    }

    /** `advance_cursor` on the bucket's own queue. */
    method Walk(amount: u64) returns (ok: bool, cursor: nat, closed': seq<Interval>, pending: nat)
      requires Valid() && clock < expiry && exerciseCursor + amount + closedPending <= totalWritten
      ensures ok <==> amount <= FL.Reachable(LedgerOf(View()).lots)
      ensures ok ==> cursor <= totalWritten && Advanced(View(), amount, cursor, closed', pending)
    {
      GoodShape(View());
      hide Good, AllFunded, Longs, Tiled, SpreadsAhead, SpreadsOf, GoneIsEmpty, LotsAt, FL.Reachable, FL.Assign;
      ok, cursor, closed', pending := AdvanceCursor(exerciseCursor, totalWritten, closed, closedPending, spreads,
                                                    amount, ranges);
      if ok {
        NextTombstone(ranges, totalWritten, cursor, closed', pending);
      }
    }

    method SettleExercise(amount: u64, payment: u64, cursor: u128, closed': seq<Interval>, pending: nat, now: nat)
      requires Valid() && clock <= now < expiry && 0 < amount <= supply
      requires payment == Payment(amount, strike, strikeScale) && settlement + payment < U64_LIMIT
      requires Advanced(View(), amount, cursor, closed', pending)
      modifies this
      ensures Valid() && Steps(old(View()), now, FL.Exercise(amount), View())
      ensures supply == old(supply) - amount
      ensures ranges == old(ranges) && escrows == old(escrows) && spreads == old(spreads)
      ensures invalidated == old(invalidated)
    {
      hide Good, Steps, Advanced, AllFunded, Longs, Payment, LedgerOf;
      ExerciseStep(View(), amount, cursor, closed', pending, now);
      StepsGood(View(), now, FL.Exercise(amount), AfterExercise(View(), amount, cursor, closed', pending, now));
      supply, settlement, underlying := supply - amount, settlement + payment, underlying - amount;
      exerciseCursor, closed, closedPending, clock := cursor, closed', pending, now;
      assert View() == AfterExercise(old(View()), amount, cursor, closed', pending, now);
    }

    /** `exercise`: pay the strike, take underlying, first in, first out. */
    method Exercise(amount: u64, payment: u64, now: nat) returns (r: Outcome<u64>)
      requires Valid() && clock <= now && amount <= supply
      modifies this
      ensures Valid()
      ensures r.Aborted? ==> unchanged(this) && r.code != CursorOverflow && r.code != InsufficientBalance
      ensures r.Done? <==> now < expiry && amount > 0 && PaymentFits(amount, strike, strikeScale)
                           && payment == Payment(amount, strike, strikeScale) && old(settlement) + payment < U64_LIMIT
                           && amount <= FL.Reachable(old(LedgerOf(View())).lots)
      ensures r.Done? ==> r.value == amount && Steps(old(View()), now, FL.Exercise(amount), View())
      ensures r.Done? ==> supply == old(supply) - amount
      ensures (&& r.Aborted? && now < expiry && amount > 0 && PaymentFits(amount, strike, strikeScale)
               && payment == Payment(amount, strike, strikeScale) && old(settlement) + payment < U64_LIMIT) ==>
                r.code == SpreadUnwindRequired
      ensures ranges == old(ranges) && escrows == old(escrows) && spreads == old(spreads)
      ensures invalidated == old(invalidated)
    {
      hide Good, Steps, Advanced, AllFunded, Longs, PaymentFits, Payment, LedgerOf, FL.Reachable;
      var c := CheckExercise(amount, payment, now);
      if c.Fail? { return Aborted(c.code); }
      var ok, cursor, closed', pending := Walk(amount);
      if !ok { return Aborted(SpreadUnwindRequired); }
      SettleExercise(amount, payment, cursor, closed', pending, now);
      r := Done(amount);
    }

    // ----- closing and redeeming pooled positions -----

    method CheckCloseOffset(p: Position, ghost i: nat, amount: u64, now: nat) returns (c: Check)
      requires Valid() && clock <= now && Holds(p, i)
      ensures c.Pass? <==> now < expiry && amount > 0 && p.bucket == this && amount <= p.end - p.start
                           && exerciseCursor <= p.end - amount && ranges[i].kind.Pooled?
    {
      if now >= expiry { return Fail(BucketExpired); }
      if amount == 0 { return Fail(ZeroAmount); }
      if p.bucket != this { return Fail(PositionBucketMismatch); }
      HeldRange(View(), i);
      hide Good, AllFunded, Longs;
      if amount > p.end - p.start { return Fail(CloseExceedsPosition); }
      if exerciseCursor > p.end - amount { return Fail(CloseRangeExercised); }
      var overlaps := TouchesSpread(p, i, p.end - amount);
      return if overlaps then Fail(SpreadPosition) else Pass;
    }

    /** `close_offset`: net coins against the tail of the caller's own position. */
    method CloseOffset(p: Position, ghost i: nat, amount: u64, now: nat) returns (r: Outcome<Position>)
      requires Valid() && clock <= now && Holds(p, i)
      modifies this
      ensures Valid()
      ensures r.Aborted? ==> unchanged(this)
      ensures r.Done? <==> now < expiry && amount > 0 && p.bucket == this && amount <= p.end - p.start
                           && old(exerciseCursor) <= p.end - amount && old(ranges)[i].kind.Pooled?
      ensures r.Done? ==> Steps(old(View()), now, FL.CloseOffset(i, amount), View())
      ensures r.Done? ==> r.value == p.(end := p.end - amount) && Holds(r.value, i)
      ensures r.Done? ==> supply == old(supply) - amount
      ensures escrows == old(escrows) && spreads == old(spreads) && invalidated == old(invalidated)
    {
      hide Good, Steps, AllFunded, Longs, Funded, Tiled, SpreadsAhead, SpreadsOf, GoneIsEmpty, TombstoneAdded;
      hide EscrowsMatch, Ordered, LedgerOf;
      var c := CheckCloseOffset(p, i, amount, now);
      if c.Fail? { return Aborted(c.code); }
      var cut := p.end - amount;
      var closed' := Tombstone(p, i, cut);
      CloseIsCovered(View(), i, amount);
      CloseStep(View(), i, amount, closed', now);
      StepsGood(View(), now, FL.CloseOffset(i, amount), AfterClose(View(), i, amount, closed', now));
      supply, underlying := supply - amount, underlying - amount;
      closed, closedPending := closed', closedPending + amount;
      ranges, clock := ranges[i := ranges[i].(end := cut)], now;
      assert View() == AfterClose(old(View()), i, amount, closed', now);
      r := Done(p.(end := cut));
    }

    /** A position's redemption: underlying for its unexercised units, settlement
        for the exercised ones. */
    method QuoteRedemption(p: Position, ghost i: nat, now: nat) returns (r: Outcome<(nat, u64)>)
      requires Valid() && clock <= now && Holds(p, i)
      ensures r.Done? <==> now >= expiry && p.bucket == this && ranges[i].kind.Pooled?
                           && PaymentFits(Overlap(p.start, p.end, exerciseCursor), strike, strikeScale)
                           && Payment(Overlap(p.start, p.end, exerciseCursor), strike, strikeScale) <= settlement
      ensures r.Done? ==>
                r.value == (LotAt(ranges[i], exerciseCursor).live,
                            Payment(Overlap(p.start, p.end, exerciseCursor), strike, strikeScale))
      ensures r.Done? ==> r.value.0 <= underlying
      ensures (&& r.Aborted? && now >= expiry && p.bucket == this && ranges[i].kind.Pooled?
               && PaymentFits(Overlap(p.start, p.end, exerciseCursor), strike, strikeScale)) ==>
                r.code == InsufficientBalance
    {
      if now < expiry { return Aborted(BucketNotExpired); }
      if p.bucket != this { return Aborted(PositionBucketMismatch); }
      HeldRange(View(), i);
      var overlaps := TouchesSpread(p, i, p.start);
      hide Good, AllFunded, Longs, PaymentFits, Payment;
      if overlaps { return Aborted(SpreadPosition); }
      RedeemIsCovered(View(), i);
      var cursor := exerciseCursor;
      var exercised := if cursor <= p.start then 0 else if cursor >= p.end then p.end - p.start else cursor - p.start;
      assert exercised == Overlap(p.start, p.end, exerciseCursor);
      assert p.end - p.start - exercised == LotAt(ranges[i], exerciseCursor).live;
      hide Overlap, LotAt;
      r := Payout((p.end - p.start) - exercised, exercised);
    }

    /** What a redemption of so many unexercised and exercised units pays. */
    method Payout(unexercised: nat, exercised: nat) returns (r: Outcome<(nat, u64)>)
      requires strikeScale <= MAX_STRIKE_SCALE && unexercised <= underlying
      ensures r.Done? <==>
                PaymentFits(exercised, strike, strikeScale) && Payment(exercised, strike, strikeScale) <= settlement
      ensures r.Done? ==> r.value == (unexercised, Payment(exercised, strike, strikeScale))
      ensures r.Aborted? && PaymentFits(exercised, strike, strikeScale) ==> r.code == InsufficientBalance
    {
      hide PaymentFits, Payment;
      var paid := ApplyStrike(exercised, strike, strikeScale);
      if paid.Aborted? { return Aborted(paid.code); }
      if unexercised > underlying || paid.value > settlement { return Aborted(InsufficientBalance); }
      return Done((unexercised, paid.value));
    }

    /** `redeem_position`: aborts for want of funds only if the settlement pool is short. */
    method Redeem(p: Position, ghost i: nat, now: nat) returns (r: Outcome<(nat, u64)>)
      requires Valid() && clock <= now && Holds(p, i)
      modifies this
      ensures Valid()
      ensures r.Aborted? ==> unchanged(this)
      ensures r.Done? <==> now >= expiry && p.bucket == this && old(ranges)[i].kind.Pooled?
                           && PaymentFits(Overlap(p.start, p.end, old(exerciseCursor)), strike, strikeScale)
                           && old(settlement) >=
                              Payment(Overlap(p.start, p.end, old(exerciseCursor)), strike, strikeScale)
      ensures r.Done? ==> Steps(old(View()), now, FL.Redeem(i), View())
      ensures r.Done? ==>
                r.value == (LotAt(old(ranges)[i], exerciseCursor).live,
                            Payment(Overlap(p.start, p.end, exerciseCursor), strike, strikeScale))
      ensures (&& r.Aborted? && now >= expiry && p.bucket == this && old(ranges)[i].kind.Pooled?
               && PaymentFits(Overlap(p.start, p.end, old(exerciseCursor)), strike, strikeScale)) ==>
                r.code == InsufficientBalance
      ensures r.Done? ==>
                ranges == old(ranges)[i := old(ranges)[i].(kind := FL.Gone)] && exerciseCursor == old(exerciseCursor)
      ensures supply == old(supply)
      ensures escrows == old(escrows) && spreads == old(spreads) && invalidated == old(invalidated)
    {
      hide Good, Steps, AllFunded, Longs, Funded, Tiled, SpreadsAhead, SpreadsOf, GoneIsEmpty, TombstoneAdded;
      hide EscrowsMatch, Ordered, LedgerOf, PaymentFits, Payment;
      r := QuoteRedemption(p, i, now);
      if r.Aborted? { return; }
      RedeemStep(View(), i, r.value.1, now);
      StepsGood(View(), now, FL.Redeem(i), AfterRedeem(View(), i, r.value.1, now));
      underlying, settlement := underlying - r.value.0, settlement - r.value.1;
      ranges, clock := ranges[i := ranges[i].(kind := FL.Gone)], now;
      assert View() == AfterRedeem(old(View()), i, r.value.1, now);
    }

    // ----- spread positions -----

    method CheckCloseSpread(p: Position, ghost i: nat, amount: u64, now: nat) returns (c: Check, k: nat)
      requires Valid() && clock <= now && Holds(p, i)
      ensures c.Pass? <==> now < expiry && p.bucket == this && ranges[i].kind.Escrowed? && amount == p.end - p.start
      ensures c.Pass? ==> k < |spreads| && spreads[k].start == p.start && p.start in escrows
    {
      hide Good, AllFunded, Longs;
      k := 0;
      if now >= expiry { return Fail(BucketExpired), k; }
      if p.bucket != this { return Fail(PositionBucketMismatch), k; }
      k := FindOwnSpread(p, i);
      if k == |spreads| { return Fail(SpreadNotFound), k; }
      HeldRange(View(), i);
      if amount != p.end - p.start { return Fail(AmountMismatch), k; }
      return Pass, k;
    }

    method BuyBackSpread(p: Position, ghost i: nat, k: nat, now: nat)
      requires Valid() && clock <= now < expiry && p.bucket == this && Holds(p, i) && ranges[i].kind.Escrowed?
      requires k < |spreads| && spreads[k].start == p.start && p.end - p.start < U64_LIMIT
      modifies this
      ensures Valid() && Steps(old(View()), now, FL.CloseSpread(i), View())
      ensures supply == old(supply) - (p.end - p.start)
      ensures escrows == old(escrows) - {p.start} && invalidated == old(invalidated)
    {
      hide Good, Steps, AllFunded, Longs, Funded, Tiled, SpreadsAhead, SpreadsOf, GoneIsEmpty, TombstoneAdded;
      hide EscrowsMatch, Ordered, LedgerOf;
      SpreadIsInSupply(View(), i);
      HeldRange(View(), i);
      var closed' := Tombstone(p, i, p.start);
      CloseSpreadStep(View(), i, k, closed', now);
      StepsGood(View(), now, FL.CloseSpread(i), AfterCloseSpread(View(), i, k, closed', now));
      EscrowRemoved(escrows, p.start);
      var amount := p.end - p.start;
      supply, spreads, escrows := supply - amount, spreads[..k] + spreads[k + 1..], escrows - {p.start};
      closed, closedPending := closed', closedPending + amount;
      ranges, clock := ranges[i := Range(p.start, p.start, FL.Gone)], now;
      assert View() == AfterCloseSpread(old(View()), i, k, closed', now);
    }

    /** `close_spread`: before expiry, burn the range's coins and reclaim its escrow. */
    method CloseSpread(p: Position, ghost i: nat, amount: u64, now: nat) returns (r: Outcome<Escrow>)
      requires Valid() && clock <= now && Holds(p, i)
      modifies this
      ensures Valid()
      ensures r.Aborted? ==> unchanged(this)
      ensures r.Done? <==>
                now < expiry && p.bucket == this && old(ranges)[i].kind.Escrowed? && amount == p.end - p.start
      ensures r.Done? ==> Steps(old(View()), now, FL.CloseSpread(i), View())
      ensures r.Done? ==>
                p.start in old(escrows) && r.value == old(escrows)[p.start] && escrows == old(escrows) - {p.start}
      ensures r.Done? ==> supply == old(supply) - amount
      ensures invalidated == old(invalidated)
    {
      hide Good, Steps, AllFunded, Longs, LedgerOf;
      var c, k := CheckCloseSpread(p, i, amount, now);
      if c.Fail? { return Aborted(c.code); }
      r := Done(escrows[p.start]);
      BuyBackSpread(p, i, k, now);
    }

    /** `redeem_spread_position`: after expiry, an untouched spread's escrow returns. */
    method RedeemSpread(p: Position, ghost i: nat, now: nat) returns (r: Outcome<Escrow>)
      requires Valid() && clock <= now && Holds(p, i)
      modifies this
      ensures Valid()
      ensures r.Aborted? ==> unchanged(this)
      ensures r.Done? <==> now >= expiry && p.bucket == this && old(ranges)[i].kind.Escrowed?
      ensures r.Done? ==> Steps(old(View()), now, FL.RedeemSpread(i), View())
      ensures r.Done? ==>
                p.start in old(escrows) && r.value == old(escrows)[p.start] && escrows == old(escrows) - {p.start}
      ensures supply == old(supply)
      ensures invalidated == old(invalidated)
    {
      hide Good, Steps, AllFunded, Longs, Funded, Tiled, SpreadsAhead, SpreadsOf, GoneIsEmpty, TombstoneAdded;
      hide EscrowsMatch, Ordered, LedgerOf;
      if now < expiry { return Aborted(BucketNotExpired); }
      if p.bucket != this { return Aborted(PositionBucketMismatch); }
      var k := FindOwnSpread(p, i);
      if k == |spreads| { return Aborted(SpreadNotFound); }
      RedeemSpreadStep(View(), i, k, now);
      StepsGood(View(), now, FL.RedeemSpread(i), AfterRedeemSpread(View(), i, k, now));
      EscrowRemoved(escrows, p.start);
      r := Done(escrows[p.start]);
      spreads, escrows := spreads[..k] + spreads[k + 1..], escrows - {p.start};
      ranges, clock := ranges[i := ranges[i].(kind := FL.Gone)], now;
      assert View() == AfterRedeemSpread(old(View()), i, k, now);
    }

    /** Turn the spread at entry `k` into an ordinary pooled write. */
    method Physicalize(k: nat, amount: u64, now: nat, ghost i: nat)
      requires Valid() && clock <= now && k < |spreads| && underlying + amount < U64_LIMIT
      requires i < |ranges| && ranges[i].kind.Escrowed? && ranges[i].start == spreads[k].start
      requires amount == ranges[i].end - ranges[i].start
      modifies this
      ensures Valid() && Steps(old(View()), now, FL.UnwindSpread(i), View())
      ensures supply == old(supply)
      ensures escrows == old(escrows) - {old(spreads)[k].start} && invalidated == old(invalidated)
    {
      hide Good, Steps, AllFunded, Longs, Funded, Tiled, SpreadsAhead, SpreadsOf, GoneIsEmpty, TombstoneAdded;
      hide EscrowsMatch, Ordered, LedgerOf;
      HeldRange(View(), i);
      UnwindStep(View(), i, k, now);
      StepsGood(View(), now, FL.UnwindSpread(i), AfterUnwind(View(), i, k, now));
      EscrowRemoved(escrows, spreads[k].start);
      escrows := escrows - {spreads[k].start};
      spreads, underlying := spreads[..k] + spreads[k + 1..], underlying + amount;
      ranges, clock := ranges[i := ranges[i].(kind := FL.Pooled)], now;
      assert View() == AfterUnwind(old(View()), i, k, now);
    }

    /** `find_spread` for any start, with the escrow filed under it. */
    method LocateSpread(start: nat) returns (k: nat, ghost i: nat)
      requires Valid()
      ensures k <= |spreads| && (k == |spreads| ==> forall j :: 0 <= j < |spreads| ==> spreads[j].start != start)
      ensures k < |spreads| ==> spreads[k].start == start && start in escrows && Funded(escrows[start])
      ensures k < |spreads| ==> i < |ranges| && ranges[i].kind.Escrowed? && ranges[i].start == start
                                && escrows[start].long == ranges[i].end - ranges[i].start
    {
      i := 0;
      k := FindSpread(spreads, start);
      EscrowOf(escrows, start);
      if k < |spreads| {
        i := SpreadBehind(View(), k);
      }
    }

    /** `unwind_spread`: anyone may exercise a spread's escrowed long call and
        turn the range into an ordinary pooled write.  The escrowed long coins
        exist, so they are part of the long bucket's supply.  The escrow is
        always the right payment, so the crank fails only if the long bucket
        has expired, is itself blocked by a spread, or a balance overflows. */
    method UnwindSpread(longBucket: Bucket, start: nat, now: nat) returns (r: Outcome<u64>, ghost i: nat)
      requires Valid() && clock <= now && longBucket != this && longBucket.Valid() && longBucket.clock <= now
      requires start in escrows && escrows[start].longBucket == longBucket ==> escrows[start].long <= longBucket.supply
      modifies this, longBucket
      ensures Valid() && longBucket.Valid()
      ensures r.Aborted? ==> unchanged(this) && unchanged(longBucket)
      ensures r.Done? <==> (exists k :: 0 <= k < |old(spreads)| && old(spreads)[k].start == start)
                           && start in old(escrows) && old(escrows)[start].longBucket == longBucket
                           && now < longBucket.expiry && old(underlying) + old(escrows)[start].long < U64_LIMIT
                           && old(longBucket.settlement) + old(escrows)[start].cash < U64_LIMIT
                           && old(escrows)[start].long <= FL.Reachable(old(LedgerOf(longBucket.View())).lots)
      ensures r.Done? ==>
                i < |old(ranges)| && old(ranges)[i].start == start
                && Steps(old(View()), now, FL.UnwindSpread(i), View())
      ensures r.Done? ==> Steps(old(longBucket.View()), now, FL.Exercise(old(escrows)[start].long), longBucket.View())
      ensures r.Done? ==>
                supply == old(supply) && longBucket.supply == old(longBucket.supply) - old(escrows)[start].long
      ensures longBucket.escrows == old(longBucket.escrows)
      ensures (&& r.Aborted? && (exists k :: 0 <= k < |old(spreads)| && old(spreads)[k].start == start)
               && start in old(escrows) && old(escrows)[start].longBucket == longBucket
               && now < longBucket.expiry && old(underlying) + old(escrows)[start].long < U64_LIMIT
               && old(longBucket.settlement) + old(escrows)[start].cash < U64_LIMIT) ==> r.code == SpreadUnwindRequired
      ensures r.Done? ==> escrows == old(escrows) - {start} && r.value == old(escrows)[start].long
    {
      hide Good, Steps, AllFunded, Longs, Tiled, SpreadsAhead, SpreadsOf, GoneIsEmpty, TombstoneAdded, EscrowsMatch;
      hide Ordered, LedgerOf, PaymentFits, Payment, FL.Reachable;
      var k;
      k, i := LocateSpread(start);
      if k == |spreads| { return Aborted(SpreadNotFound), i; }
      var e := escrows[start];
      if e.longBucket != longBucket { return Aborted(SpreadBucketMismatch), i; }
      if underlying + e.long >= U64_LIMIT { return Aborted(Arithmetic), i; }
      var out := longBucket.Exercise(e.long, e.cash, now);
      if out.Aborted? { return Aborted(out.code), i; }
      Physicalize(k, out.value, now, i);
      r := Done(out.value);
    }

    /** `burn_expired_option`. */
    method BurnExpired(amount: u64, now: nat) returns (r: Outcome<()>)
      requires Valid() && clock <= now && amount <= supply
      modifies this
      ensures Valid()
      ensures r.Aborted? ==> unchanged(this)
      ensures r.Aborted? <==> now < expiry
      ensures r.Done? ==> Steps(old(View()), now, FL.BurnExpired(amount), View())
      ensures r.Done? ==> supply == old(supply) - amount
      ensures escrows == old(escrows) && spreads == old(spreads) && invalidated == old(invalidated)
    {
      hide Good, Steps, AllFunded, Longs, LedgerOf;
      if now < expiry { return Aborted(BucketNotExpired); }
      BurnStep(View(), amount, now);
      StepsGood(View(), now, FL.BurnExpired(amount), View().(supply := supply - amount, clock := now));
      supply, clock := supply - amount, now;
      r := Done(());
    }

    /** The admin's freeze on new writes (`invalidate_bucket`, `revalidate_bucket`)
        touches nothing else. */
    method SetInvalidated(flag: bool, now: nat) returns (r: Outcome<()>)
      requires Valid() && clock <= now
      modifies this`invalidated
      ensures Valid()
      ensures r.Aborted? <==> now >= expiry || old(invalidated) == flag
      ensures invalidated == if r.Done? then flag else old(invalidated)
    {
      if now >= expiry { return Aborted(BucketExpired); }
      if invalidated == flag { return Aborted(if flag then BucketInvalidated else BucketNotInvalidated); }
      invalidated := flag;
      r := Done(());
    }

    /** `cleanup_bucket`'s gate: the bucket may be destroyed only when drained. */
    method MayCleanUp(now: nat) returns (r: Outcome<()>)
      requires Valid()
      ensures r.Done? <==> now >= expiry && spreads == [] && underlying == 0 && settlement == 0
      ensures r.Done? ==>
                forall i :: 0 <= i < |ranges| && ranges[i].kind.Pooled? ==> LotAt(ranges[i], exerciseCursor).live == 0
      ensures r.Done? ==> forall i :: 0 <= i < |ranges| ==> !ranges[i].kind.Escrowed?
    {
      if now < expiry { return Aborted(BucketNotExpired); }
      if spreads != [] || underlying != 0 || settlement != 0 { return Aborted(BucketNotDrained); }
      forall i | 0 <= i < |ranges| && ranges[i].kind.Pooled? ensures LotAt(ranges[i], exerciseCursor).live == 0 {
        RedeemIsCovered(View(), i);
      }
      ghost var first := FirstSpread(ranges);
      r := Done(());
    }
  }

  ghost function EmptyShape(t: FL.Terms): Shape {
    Shape(t, 0, 0, [], 0, [], map[], [], 0, 0, 0, 0)
  }

  lemma EmptyBucketIsGood(t: FL.Terms)
    ensures Good(EmptyShape(t)) && LedgerOf(EmptyShape(t)) == FL.EMPTY
  {
  }

  lemma HeldRange(s: Shape, i: nat)
    requires Good(s) && i < |s.ranges|
    ensures Ordered(s.ranges) && s.ranges[i].start <= s.ranges[i].end <= s.total
    ensures s.ranges[i].kind.Escrowed? ==> s.cursor <= s.ranges[i].start < s.ranges[i].end
    ensures LedgerOf(s).lots == LotsAt(s.ranges, s.cursor)
    ensures LotsAt(s.ranges, s.cursor)[i] == LotAt(s.ranges[i], s.cursor)
  {
  }

  lemma GoodShape(s: Shape)
    requires Good(s)
    ensures Tiled(s.ranges, s.total, s.cursor, s.closed, s.pending) && Ordered(s.ranges)
    ensures SpreadsAhead(s.ranges, s.cursor) && s.spreads == SpreadsOf(s.ranges)
    ensures s.clock < s.terms.expiry ==> GoneIsEmpty(s.ranges)
    ensures s.cursor <= s.total && forall i :: 0 <= i < |s.ranges| ==> s.ranges[i].end <= s.total
    ensures forall i :: 0 <= i < |s.ranges| && s.ranges[i].kind.Escrowed? ==>
              s.cursor <= s.ranges[i].start < s.ranges[i].end
    ensures LedgerOf(s).lots == LotsAt(s.ranges, s.cursor)
  {
  }

  /** Looking a position's start up in the spread list tells whether it is a spread. */
  lemma SpreadFound(s: Shape, i: nat, k: nat)
    requires Good(s) && i < |s.ranges| && k <= |s.spreads|
    requires k < |s.spreads| ==> s.spreads[k].start == s.ranges[i].start
    requires k == |s.spreads| ==> forall j :: 0 <= j < |s.spreads| ==> s.spreads[j].start != s.ranges[i].start
    ensures k < |s.spreads| <==> s.ranges[i].kind.Escrowed?
    ensures k < |s.spreads| ==> s.spreads[k].end == s.ranges[i].end && s.ranges[i].start in s.escrows
  {
    if k < |s.spreads| {
      FiledMeansOwnSpread(s.ranges, i, k);
    } else if s.ranges[i].kind.Escrowed? {
      var j := ListedSpread(s.ranges, i);
    }
  }

  lemma SpreadBehind(s: Shape, k: nat) returns (i: nat)
    requires Good(s) && k < |s.spreads|
    ensures i < |s.ranges| && s.ranges[i].kind.Escrowed? && s.ranges[i].start == s.spreads[k].start
    ensures s.ranges[i].start in s.escrows && s.escrows[s.ranges[i].start] == s.ranges[i].end - s.ranges[i].start
  {
    i := SpreadEntry(s.ranges, k);
  }

  lemma StepsGood(s: Shape, now: nat, op: FL.Op, s': Shape)
    requires Steps(s, now, op, s')
    ensures Good(s')
  {
  }
}
