/** The bucket's entry points as transactions over all buckets
    (contracts/core/sources/bucket.move).  Option coins are linear: a transaction
    that needs some takes them from a wallet, and a spread's escrow locks them.
    Each transaction keeps the books of `CoinBooks`, so over any sequence of them
    every bucket has a history and its coins are all accounted for. */
module Transactions {
  import opened Integers
  import opened Strike
  import opened BucketSteps
  import opened CallBucket
  import opened BucketRuns
  import opened CoinBooks
  import opened WriteQueue
  import FL = FifoLedger
  import SolventRuns

  /** The books say what the buckets hold, and balance. */
  ghost predicate Sound(m: Books)
    reads m.views.Keys
  {
    Balanced(m) && forall b :: b in m.views ==> Agrees(m, b)
  }

  ghost predicate Agrees(m: Books, b: Bucket)
    reads b
  {
    Known(m, b) && b.Valid() && m.views[b] == b.View() && m.escrows[b] == b.escrows && m.supplies[b] == b.supply
  }

  lemma Ready(m: Books, b: Bucket)
    requires Sound(m) && b in m.views
    ensures Agrees(m, b) && OthersAgree(m, b) && b.clock <= m.clock && m.wallets[b] <= b.supply
    ensures Balanced(m) && Known(m, b) && b.Valid()
    ensures m.views[b] == b.View() && m.escrows[b] == b.escrows && m.supplies[b] == b.supply
  {
    AllKnown(m);
    hide Balanced;
  }

  /** Every bucket but `b` is as the books say. */
  ghost predicate OthersAgree(m: Books, b: Bucket)
    reads m.views.Keys - {b}
  {
    forall c :: c in m.views && c != b ==> Agrees(m, c)
  }

  lemma SameEntries(m: Books, m': Books, c: Bucket)
    requires Agrees(m, c) && Known(m', c)
    requires m'.views[c] == m.views[c] && m'.escrows[c] == m.escrows[c] && m'.supplies[c] == m.supplies[c]
    ensures Agrees(m', c)
  {
  }

  /** Entering a call of `b` changes no other bucket's entries. */
  lemma OthersStill(m: Books, b: Bucket, now: nat, op: FL.Op, view: Shape, es: map<nat, Escrow>, supply: nat, m': Books)
    requires Known(m, b) && OthersAgree(m, b) && m.wallets.Keys == m'.wallets.Keys
    requires m' == Entered(m, b, now, op, view, es, supply).(vault := m'.vault, wallets := m'.wallets)
    ensures OthersAgree(m', b) && m'.views.Keys == m.views.Keys
  {
    hide Agrees;
    forall c | c in m'.views && c != b ensures Agrees(m', c) {
      assert Agrees(m, c) && Known(m, c) by { AgreesKnown(m, c); }
      SameEntries(m, m', c);
    }
  }

  lemma AgreesKnown(m: Books, c: Bucket)
    requires Agrees(m, c)
    ensures Known(m, c)
  {
  }

  lemma NowAgrees(m: Books, b: Bucket)
    requires Known(m, b) && b.Valid() && m.views[b] == b.View() && m.escrows[b] == b.escrows
    requires m.supplies[b] == b.supply
    ensures Agrees(m, b)
  {
  }

  /** A call that leaves the escrows alone keeps the books: what the supply moves, the wallets move. */
  lemma PlainBooked(m: Books, b: Bucket, now: nat, op: FL.Op, wallet: nat)
    requires Known(m, b) && Balanced(m) && OthersAgree(m, b) && m.clock <= now && !op.Tick?
    requires b.Valid() && Steps(m.views[b], now, op, b.View()) && b.escrows == m.escrows[b]
    requires b.supply - wallet == m.supplies[b] - m.wallets[b]
    ensures Sound(Plain(m, b, now, op, b.View(), b.supply, wallet))
    ensures Plain(m, b, now, op, b.View(), b.supply, wallet).views.Keys == m.views.Keys
  {
    hide Balanced, Steps, Good, AllFunded, Longs, Ranged, Agrees, OthersAgree, Sound;
    ValidIsRanged(b);
    PlainKeeps(m, b, now, op, b.View(), b.supply, wallet);
    var m' := Plain(m, b, now, op, b.View(), b.supply, wallet);
    OthersStill(m, b, now, op, b.View(), m.escrows[b], b.supply, m');
    NowAgrees(m', b);
    Restored(m', b);
  }

  lemma Restored(m: Books, b: Bucket)
    requires Balanced(m) && Agrees(m, b) && OthersAgree(m, b)
    ensures Sound(m)
  {
    hide Balanced, Agrees;
  }

  // ----- when a transaction goes through -----

  ghost predicate CanWrite(b: Bucket, amount: nat, now: nat)
    reads b
  {
    && now < b.expiry && !b.invalidated && amount > 0 && b.underlying + amount < U64_LIMIT
    && b.supply + amount <= MAX_SUPPLY && b.totalWritten + amount < U128_LIMIT
  }

  /** Units that a bucket's queue can give up before it meets a spread. */
  ghost function ReachableIn(b: Bucket): nat
    reads b
  {
    if b.Valid() then FL.Reachable(LedgerOf(b.View()).lots) else 0
  }

  ghost predicate CanExercise(b: Bucket, amount: nat, payment: nat, now: nat)
    reads b
  {
    && now < b.expiry && amount > 0 && PaymentFits(amount, b.strike, b.strikeScale)
    && payment == Payment(amount, b.strike, b.strikeScale) && b.settlement + payment < U64_LIMIT
    && amount <= ReachableIn(b)
  }

  ghost predicate PooledAt(b: Bucket, i: nat)
    reads b
  {
    i < |b.ranges| && b.ranges[i].kind.Pooled?
  }

  ghost predicate EscrowedAt(b: Bucket, i: nat)
    reads b
  {
    i < |b.ranges| && b.ranges[i].kind.Escrowed?
  }

  ghost predicate CanClose(b: Bucket, p: Position, i: nat, amount: nat, now: nat)
    reads b
  {
    && now < b.expiry && amount > 0 && p.bucket == b && amount <= p.end - p.start
    && b.exerciseCursor <= p.end - amount && PooledAt(b, i)
  }

  ghost predicate CanWriteSpread(b: Bucket, long: Bucket, amount: nat, cash: nat, now: nat)
    reads b
  {
    && now < b.expiry && !b.invalidated && amount > 0 && b.expiry <= long.expiry
    && StrikeAtMost(long.strike, long.strikeScale, b.strike, b.strikeScale)
    && PaymentFits(amount, long.strike, long.strikeScale) && cash == Payment(amount, long.strike, long.strikeScale)
    && b.supply + amount <= MAX_SUPPLY && b.totalWritten + amount < U128_LIMIT
  }

  ghost predicate CanCloseSpread(b: Bucket, p: Position, i: nat, amount: nat, now: nat)
    reads b
  {
    now < b.expiry && p.bucket == b && EscrowedAt(b, i) && amount == p.end - p.start
  }

  // ----- the transactions -----

  /** The only call made is `op`, on bucket `b`. */
  ghost predicate Logged(m: Books, b: Bucket, now: nat, op: FL.Op, m': Books) {
    b in m.log && m'.log == m.log[b := m.log[b] + [Call(now, op)]]
  }

  /** A covered write: new coins reach a wallet. */
  method Write(b: Bucket, amount: u64, now: nat, ghost m: Books) returns (r: Outcome<Position>, ghost m': Books)
    requires Sound(m) && b in m.views && m.clock <= now
    modifies b
    ensures Sound(m') && m'.views.Keys == m.views.Keys && (r.Aborted? ==> m' == m)
    ensures r.Done? ==> m'.wallets == Credit(m.wallets, b, amount) && m'.vault == m.vault
    ensures r.Done? ==> Logged(m, b, now, FL.Write(amount), m')
    ensures r.Done? <==> old(CanWrite(b, amount, now))
  {
    hide Sound, Agrees, OthersAgree, Balanced, Steps, Good, AllFunded, Longs;
    Ready(m, b);
    r := b.Write(amount, now);
    m' := m;
    if r.Aborted? {
      Restored(m, b);
    } else {
      PlainBooked(m, b, now, FL.Write(amount), m.wallets[b] + amount);
      m' := Plain(m, b, now, FL.Write(amount), b.View(), b.supply, m.wallets[b] + amount);
    }
  }

  /** An exercise: coins are burned. */
  method Exercise(b: Bucket, amount: u64, payment: u64, now: nat, ghost m: Books)
    returns (r: Outcome<u64>, ghost m': Books)
    requires b in m.views && amount <= Get(m.wallets, b) && m.clock <= now && Sound(m)
    modifies b
    ensures Sound(m') && m'.views.Keys == m.views.Keys && (r.Aborted? ==> m' == m)
    ensures r.Done? ==> m'.wallets == Debit(m.wallets, b, amount) && m'.vault == m.vault
    ensures r.Done? ==> Logged(m, b, now, FL.Exercise(amount), m')
    ensures r.Done? <==> old(CanExercise(b, amount, payment, now))
  {
    hide Sound, Agrees, OthersAgree, Balanced, Steps, Good, AllFunded, Longs;
    Ready(m, b);
    r := b.Exercise(amount, payment, now);
    m' := m;
    if r.Aborted? {
      Restored(m, b);
    } else {
      PlainBooked(m, b, now, FL.Exercise(amount), m.wallets[b] - amount);
      m' := Plain(m, b, now, FL.Exercise(amount), b.View(), b.supply, m.wallets[b] - amount);
    }
  }

  /** Netting coins against a position's tail: coins are burned. */
  method CloseOffset(b: Bucket, p: Position, ghost i: nat, amount: u64, now: nat, ghost m: Books)
    returns (r: Outcome<Position>, ghost m': Books)
    requires b in m.views && amount <= Get(m.wallets, b) && m.clock <= now && Sound(m)
    requires b.Holds(p, i)
    modifies b
    ensures Sound(m') && m'.views.Keys == m.views.Keys && (r.Aborted? ==> m' == m)
    ensures r.Done? ==> m'.wallets == Debit(m.wallets, b, amount) && m'.vault == m.vault
    ensures r.Done? ==> Logged(m, b, now, FL.CloseOffset(i, amount), m')
    ensures r.Done? <==> old(CanClose(b, p, i, amount, now))
  {
    hide Sound, Agrees, OthersAgree, Balanced, Steps, Good, AllFunded, Longs;
    Ready(m, b);
    r := b.CloseOffset(p, i, amount, now);
    m' := m;
    if r.Aborted? {
      Restored(m, b);
    } else {
      PlainBooked(m, b, now, FL.CloseOffset(i, amount), m.wallets[b] - amount);
      m' := Plain(m, b, now, FL.CloseOffset(i, amount), b.View(), b.supply, m.wallets[b] - amount);
    }
  }

  lemma HasHistory(m: Books, b: Bucket)
    requires Balanced(m) && Known(m, b)
    ensures History(m.views[b].terms, m.shapes[b], m.log[b]) && m.shapes[b][|m.log[b]|] == m.views[b]
  {
    assert TracksOne(m.views[b], m.shapes[b], m.log[b], m.clock);
    hide History, Filed, AddsUp;
  }

  /** Whatever transactions came before, a bucket with an exact strike holds the settlement it owes. */
  lemma SettlesExactly(m: Books, b: Bucket)
    requires Sound(m) && b in m.views && SolventRuns.Exact(b.Terms())
    ensures b.Valid() && b.settlement == FL.Owed(b.Terms(), LedgerOf(b.View()).lots)
  {
    hide Sound, Agrees, OthersAgree, Balanced, Good, AllFunded, Longs, History, LedgerOf, SolventRuns.Exact, FL.Owed;
    Ready(m, b);
    HasHistory(m, b);
    HistorySettlesExactly(b.Terms(), m.shapes[b], m.log[b]);
  }

  /** Nothing rounds at this bucket's strike. */
  ghost predicate Even(b: Bucket) { SolventRuns.Normalized(b.Terms()) && SolventRuns.Exact(b.Terms()) }

  lemma PositionIsPaid(m: Books, b: Bucket, i: nat)
    requires Sound(m) && b in m.views && Even(b) && PooledAt(b, i)
    ensures var n := Overlap(b.ranges[i].start, b.ranges[i].end, b.exerciseCursor);
            PaymentFits(n, b.strike, b.strikeScale) && Payment(n, b.strike, b.strikeScale) <= b.settlement
  {
    hide Sound, Agrees, OthersAgree, Balanced, Good, AllFunded, Longs, History, LedgerOf, PaymentFits, Payment;
    hide SolventRuns.Exact, Overlap;
    Ready(m, b);
    HasHistory(m, b);
    RedemptionNeverAborts(b.Terms(), m.shapes[b], m.log[b], i);
  }

  /** A redemption moves no coins.  With an exact strike it goes through for every pooled position after expiry,
      whatever transactions came before. */
  method Redeem(b: Bucket, p: Position, ghost i: nat, now: nat, ghost m: Books)
    returns (r: Outcome<(nat, u64)>, ghost m': Books)
    requires Sound(m) && b in m.views && m.clock <= now && b.Holds(p, i)
    modifies b
    ensures Sound(m') && m'.views.Keys == m.views.Keys && (r.Aborted? ==> m' == m)
    ensures r.Done? ==> m'.wallets == m.wallets && m'.vault == m.vault
    ensures Even(b) && b.expiry <= now && p.bucket == b && old(PooledAt(b, i)) ==> r.Done?
    ensures r.Done? ==> Logged(m, b, now, FL.Redeem(i), m')
  {
    hide Sound, Agrees, OthersAgree, Balanced, Steps, Good, AllFunded, Longs, PaymentFits, Payment, Overlap, LotAt;
    hide Even;
    Ready(m, b);
    if Even(b) && p.bucket == b && PooledAt(b, i) { PositionIsPaid(m, b, i); }
    r := b.Redeem(p, i, now);
    m' := m;
    if r.Aborted? {
      Restored(m, b);
    } else {
      PlainBooked(m, b, now, FL.Redeem(i), m.wallets[b]);
      m' := Plain(m, b, now, FL.Redeem(i), b.View(), b.supply, m.wallets[b]);
    }
  }

  /** Expired coins are burned. */
  method BurnExpired(b: Bucket, amount: u64, now: nat, ghost m: Books) returns (r: Outcome<()>, ghost m': Books)
    requires b in m.views && amount <= Get(m.wallets, b) && m.clock <= now && Sound(m)
    modifies b
    ensures Sound(m') && m'.views.Keys == m.views.Keys && (r.Aborted? ==> m' == m)
    ensures r.Done? ==> m'.wallets == Debit(m.wallets, b, amount) && m'.vault == m.vault
    ensures r.Done? ==> Logged(m, b, now, FL.BurnExpired(amount), m')
    ensures r.Done? <==> b.expiry <= now
  {
    hide Sound, Agrees, OthersAgree, Balanced, Steps, Good, AllFunded, Longs;
    Ready(m, b);
    r := b.BurnExpired(amount, now);
    m' := m;
    if r.Aborted? {
      Restored(m, b);
    } else {
      PlainBooked(m, b, now, FL.BurnExpired(amount), m.wallets[b] - amount);
      m' := Plain(m, b, now, FL.BurnExpired(amount), b.View(), b.supply, m.wallets[b] - amount);
    }
  }

  /** The freeze on new writes touches no coins. */
  method SetInvalidated(b: Bucket, flag: bool, now: nat, ghost m: Books) returns (r: Outcome<()>)
    requires Sound(m) && b in m.views && m.clock <= now
    modifies b`invalidated
    ensures Sound(m)
    ensures r.Done? <==> now < b.expiry && old(b.invalidated) != flag
    ensures b.invalidated == if r.Done? then flag else old(b.invalidated)
  {
    hide Sound, Agrees, OthersAgree, Balanced, Steps, Good, AllFunded, Longs;
    Ready(m, b);
    r := b.SetInvalidated(flag, now);
    NowAgrees(m, b);
    Restored(m, b);
  }

  /** A new bucket joins. */
  method Create(strike: u128, scale: nat, expiry: u64, ghost m: Books) returns (b: Bucket, ghost m': Books)
    requires Sound(m) && scale <= MAX_STRIKE_SCALE
    ensures fresh(b) && Sound(m') && m' == Joined(m, b, b.View()) && b.View() == EmptyShape(b.Terms())
    ensures b.Terms() == FL.Terms(strike, scale, expiry) && !b.invalidated
  {
    b := new Bucket(strike, scale, expiry);
    m' := Joined(m, b, b.View());
    assert b !in m.views;
    NewcomerAgrees(m, b);
  }

  lemma NewcomerAgrees(m: Books, b: Bucket)
    requires Sound(m) && b !in m.views && b.Valid() && b.View() == EmptyShape(b.Terms())
    requires b.escrows == map[] && b.supply == 0
    ensures Sound(Joined(m, b, b.View()))
  {
    hide Balanced, Good, AllFunded, Agrees;
    JoinedKeeps(m, b, b.Terms());
    var m' := Joined(m, b, b.View());
    NowAgrees(m', b);
    forall c | c in m'.views && c != b ensures Agrees(m', c) {
      AgreesKnown(m, c);
      SameEntries(m, m', c);
    }
  }

  // ----- spreads -----

  lemma SpreadBooked(m: Books, b: Bucket, now: nat, start: nat, e: Escrow)
    requires Known(m, b) && Known(m, e.longBucket) && Balanced(m) && OthersAgree(m, b) && m.clock <= now
    requires start !in m.escrows[b] && e.longBucket != b && e.long <= m.wallets[e.longBucket]
    requires b.Valid() && Steps(m.views[b], now, FL.WriteSpread(e.long), b.View())
    requires b.escrows == With(m.escrows[b], start, e) && b.supply == m.supplies[b] + e.long
    ensures Sound(Spread(m, b, now, b.View(), b.supply, start, e))
    ensures Spread(m, b, now, b.View(), b.supply, start, e).views.Keys == m.views.Keys
  {
    hide Balanced, Steps, Good, AllFunded, Longs, Ranged, Agrees, OthersAgree, Sound, With;
    ValidIsRanged(b);
    SpreadKeeps(m, b, now, b.View(), b.supply, start, e);
    var m' := Spread(m, b, now, b.View(), b.supply, start, e);
    OthersStill(m, b, now, FL.WriteSpread(e.long), b.View(), With(m.escrows[b], start, e), b.supply, m');
    NowAgrees(m', b);
    Restored(m', b);
  }

  /** A new range's start has no escrow yet. */
  lemma FreshStart(b: Bucket)
    requires b.Valid()
    ensures b.totalWritten !in b.escrows
  {
  }

  /** A spread write: long coins are locked in its escrow and new coins reach a wallet. */
  method WriteSpread(b: Bucket, long: Bucket, amount: u64, cash: u64, now: nat, ghost m: Books)
    returns (r: Outcome<Position>, ghost m': Books)
    requires b in m.views && long in m.views && long != b && amount <= Get(m.wallets, long)
    requires m.clock <= now && Sound(m)
    modifies b
    ensures Sound(m') && m'.views.Keys == m.views.Keys && (r.Aborted? ==> m' == m)
    ensures r.Done? ==> m'.wallets == Credit(Debit(m.wallets, long, amount), b, amount)
    ensures r.Done? ==> m'.vault == m.vault[(b, old(b.totalWritten)) := Escrow(amount, cash, long)]
    ensures r.Done? ==> Logged(m, b, now, FL.WriteSpread(amount), m')
    ensures r.Done? <==> old(CanWriteSpread(b, long, amount, cash, now))
  {
    hide Sound, Agrees, OthersAgree, Balanced, Steps, Good, AllFunded, Longs;
    Ready(m, b);
    Ready(m, long);
    FreshStart(b);
    ghost var start := b.totalWritten;
    r := b.WriteSpread(long, amount, cash, now);
    m' := m;
    if r.Aborted? {
      Restored(m, b);
    } else {
      SpreadBooked(m, b, now, start, Escrow(amount, cash, long));
      m' := Spread(m, b, now, b.View(), b.supply, start, Escrow(amount, cash, long));
    }
  }

  lemma ReturnedBooked(m: Books, b: Bucket, now: nat, op: FL.Op, start: nat, wallet: nat)
    requires Known(m, b) && start in m.escrows[b] && Known(m, m.escrows[b][start].longBucket)
    requires m.escrows[b][start].longBucket != b && m.clock <= now && !op.Tick? && Balanced(m) && OthersAgree(m, b)
    requires b.Valid() && Steps(m.views[b], now, op, b.View()) && b.escrows == m.escrows[b] - {start}
    requires b.supply - wallet == m.supplies[b] - m.wallets[b]
    ensures Sound(Returned(m, b, now, op, b.View(), b.supply, start, wallet))
    ensures Returned(m, b, now, op, b.View(), b.supply, start, wallet).views.Keys == m.views.Keys
  {
    hide Balanced, Steps, Good, AllFunded, Longs, Ranged, Agrees, OthersAgree, Sound;
    ValidIsRanged(b);
    ReturnedKeeps(m, b, now, op, b.View(), b.supply, start, wallet);
    var m' := Returned(m, b, now, op, b.View(), b.supply, start, wallet);
    OthersStill(m, b, now, op, b.View(), m.escrows[b] - {start}, b.supply, m');
    NowAgrees(m', b);
    Restored(m', b);
  }

  /** Escrow `e` of bucket `b` and nothing else has left the vault, its coins are back in wallets and `burned`
      coins of bucket `b` are gone. */
  ghost predicate TakenOut(m: Books, b: Bucket, start: nat, e: Escrow, burned: nat, m': Books) {
    && (b, start) in m.vault && m.vault[(b, start)] == e && m'.vault == m.vault - {(b, start)}
    && m'.wallets == Debit(Credit(m.wallets, e.longBucket, e.long), b, burned)
  }

  /** A spread is bought back: its coins are burned and its long coins return to a wallet. */
  method CloseSpread(b: Bucket, p: Position, ghost i: nat, amount: u64, now: nat, ghost m: Books)
    returns (r: Outcome<Escrow>, ghost m': Books)
    requires b in m.views && amount <= Get(m.wallets, b) && m.clock <= now && Sound(m)
    requires b.Holds(p, i)
    modifies b
    ensures Sound(m') && m'.views.Keys == m.views.Keys && (r.Aborted? ==> m' == m)
    ensures r.Done? ==> TakenOut(m, b, p.start, r.value, amount, m')
    ensures r.Done? ==> Logged(m, b, now, FL.CloseSpread(i), m')
    ensures r.Done? <==> old(CanCloseSpread(b, p, i, amount, now))
  {
    hide Sound, Agrees, OthersAgree, Balanced, Steps, Good, AllFunded, Longs;
    Ready(m, b);
    r := b.CloseSpread(p, i, amount, now);
    m' := m;
    if r.Aborted? {
      Restored(m, b);
    } else {
      EscrowKnown(m, b, p.start);
      EscrowInVault(m, b, p.start);
      ReturnedBooked(m, b, now, FL.CloseSpread(i), p.start, m.wallets[b] - amount);
      m' := Returned(m, b, now, FL.CloseSpread(i), b.View(), b.supply, p.start, m.wallets[b] - amount);
    }
  }

  lemma EscrowInVault(m: Books, b: Bucket, start: nat)
    requires Known(m, b) && start in m.escrows[b] && Balanced(m)
    ensures (b, start) in m.vault && m.vault[(b, start)] == m.escrows[b][start]
  {
    EscrowTakenOut(m.vault, m.escrows, b, start);
    hide Tracks, Filed, AddsUp;
  }

  /** After expiry an untouched spread's long coins return to a wallet. */
  method RedeemSpread(b: Bucket, p: Position, ghost i: nat, now: nat, ghost m: Books)
    returns (r: Outcome<Escrow>, ghost m': Books)
    requires b in m.views && m.clock <= now && Sound(m) && b.Holds(p, i)
    modifies b
    ensures Sound(m') && m'.views.Keys == m.views.Keys && (r.Aborted? ==> m' == m)
    ensures r.Done? ==> TakenOut(m, b, p.start, r.value, 0, m')
    ensures r.Done? ==> Logged(m, b, now, FL.RedeemSpread(i), m')
    ensures r.Done? <==> b.expiry <= now && p.bucket == b && old(EscrowedAt(b, i))
  {
    hide Sound, Agrees, OthersAgree, Balanced, Steps, Good, AllFunded, Longs;
    Ready(m, b);
    r := b.RedeemSpread(p, i, now);
    m' := m;
    if r.Aborted? {
      Restored(m, b);
    } else {
      EscrowKnown(m, b, p.start);
      EscrowInVault(m, b, p.start);
      ReturnedBooked(m, b, now, FL.RedeemSpread(i), p.start, m.wallets[b]);
      m' := Returned(m, b, now, FL.RedeemSpread(i), b.View(), b.supply, p.start, m.wallets[b]);
    }
  }

  // ----- unwinding -----

  /** Every bucket but two is as the books say. */
  ghost predicate RestAgree(m: Books, b: Bucket, c: Bucket)
    reads m.views.Keys - {b, c}
  {
    forall x :: x in m.views && x != b && x != c ==> Agrees(m, x)
  }

  lemma RestOf(m: Books, b: Bucket, c: Bucket)
    requires OthersAgree(m, b)
    ensures RestAgree(m, b, c)
  {
    hide Agrees;
  }

  /** The escrow leaves bucket `b` and its coins are exercised in bucket `long`. */
  function Unwound(m: Books, b: Bucket, now: nat, op: FL.Op, view: Shape, supply: nat, start: nat,
                   long: Bucket, longView: Shape, longSupply: nat): Books
    requires Known(m, b) && start in m.escrows[b] && m.escrows[b][start].longBucket == long && Known(m, long)
  {
    var m1 := Returned(m, b, now, op, view, supply, start, m.wallets[b]);
    Plain(m1, long, now, FL.Exercise(m.escrows[b][start].long), longView, longSupply, m.wallets[long])
  }

  lemma UnwoundKeeps(m: Books, b: Bucket, now: nat, op: FL.Op, view: Shape, start: nat, long: Bucket, longView: Shape)
    requires Known(m, b) && start in m.escrows[b] && m.escrows[b][start].longBucket == long && Known(m, long)
    requires long != b && m.clock <= now && !op.Tick? && Balanced(m) && Ranged(view) && Ranged(longView)
    requires Steps(m.views[b], now, op, view)
    requires Steps(m.views[long], now, FL.Exercise(m.escrows[b][start].long), longView)
    requires view.supply == m.supplies[b] && longView.supply == m.supplies[long] - m.escrows[b][start].long
    ensures Balanced(Unwound(m, b, now, op, view, view.supply, start, long, longView, longView.supply))
  {
    hide Balanced, Steps, Ranged;
    ReturnedKeeps(m, b, now, op, view, view.supply, start, m.wallets[b]);
    var m1 := Returned(m, b, now, op, view, view.supply, start, m.wallets[b]);
    PlainKeeps(m1, long, now, FL.Exercise(m.escrows[b][start].long), longView, longView.supply, m.wallets[long]);
  }

  lemma UnwoundBooked(m: Books, b: Bucket, now: nat, op: FL.Op, start: nat, long: Bucket)
    requires Known(m, b) && start in m.escrows[b] && m.escrows[b][start].longBucket == long && Known(m, long)
    requires long != b && m.clock <= now && !op.Tick? && Balanced(m) && RestAgree(m, b, long)
    requires b.Valid() && long.Valid() && Steps(m.views[b], now, op, b.View()) && b.escrows == m.escrows[b] - {start}
    requires Steps(m.views[long], now, FL.Exercise(m.escrows[b][start].long), long.View())
    requires long.escrows == m.escrows[long] && b.supply == m.supplies[b]
    requires long.supply == m.supplies[long] - m.escrows[b][start].long
    ensures var m' := Unwound(m, b, now, op, b.View(), b.supply, start, long, long.View(), long.supply);
            Sound(m') && m'.views.Keys == m.views.Keys && m'.wallets == m.wallets && m'.vault == m.vault - {(b, start)}
  {
    hide Balanced, Steps, Good, AllFunded, Longs, Ranged, Agrees;
    ValidIsRanged(b);
    ValidIsRanged(long);
    UnwoundKeeps(m, b, now, op, b.View(), start, long, long.View());
    UnwoundEntries(m, b, now, op, b.View(), b.supply, start, long, long.View(), long.supply);
    hide Unwound;
    var m' := Unwound(m, b, now, op, b.View(), b.supply, start, long, long.View(), long.supply);
    NowAgrees(m', b);
    NowAgrees(m', long);
    RestUnwound(m, b, now, op, b.View(), b.supply, start, long, long.View(), long.supply);
    hide RestAgree, Sound;
    BothRestored(m', b, long);
  }

  /** What the books say of the two buckets afterwards: the escrow is gone and no wallet has changed. */
  lemma UnwoundEntries(m: Books, b: Bucket, now: nat, op: FL.Op, view: Shape, supply: nat, start: nat,
                       long: Bucket, longView: Shape, longSupply: nat)
    requires Known(m, b) && start in m.escrows[b] && m.escrows[b][start].longBucket == long && Known(m, long)
    requires long != b
    ensures var m' := Unwound(m, b, now, op, view, supply, start, long, longView, longSupply);
            && Known(m', b) && m'.views[b] == view && m'.escrows[b] == m.escrows[b] - {start}
               && m'.supplies[b] == supply
            && Known(m', long) && m'.views[long] == longView && m'.escrows[long] == m.escrows[long]
            && m'.supplies[long] == longSupply
            && m'.views.Keys == m.views.Keys && m'.wallets == m.wallets && m'.vault == m.vault - {(b, start)}
  {
  }

  /** Unwinding changes no third bucket's entries. */
  lemma RestUnwound(m: Books, b: Bucket, now: nat, op: FL.Op, view: Shape, supply: nat, start: nat,
                    long: Bucket, longView: Shape, longSupply: nat)
    requires Known(m, b) && start in m.escrows[b] && m.escrows[b][start].longBucket == long && Known(m, long)
    requires RestAgree(m, b, long)
    ensures RestAgree(Unwound(m, b, now, op, view, supply, start, long, longView, longSupply), b, long)
  {
    hide Agrees;
    var m' := Unwound(m, b, now, op, view, supply, start, long, longView, longSupply);
    forall x | x in m'.views && x != b && x != long ensures Agrees(m', x) {
      AgreesKnown(m, x);
      SameEntries(m, m', x);
    }
  }

  /** The long bucket is live, no balance overflows and the long bucket's queue is not blocked by a spread. */
  ghost predicate CanUnwind(b: Bucket, long: Bucket, start: nat, now: nat)
    reads b, long
  {
    && (exists k :: 0 <= k < |b.spreads| && b.spreads[k].start == start)
    && start in b.escrows && b.escrows[start].longBucket == long
    && now < long.expiry && b.underlying + b.escrows[start].long < U64_LIMIT
    && long.settlement + b.escrows[start].cash < U64_LIMIT && b.escrows[start].long <= ReachableIn(long)
  }

  /** Anyone may unwind a spread.  Its escrowed coins are part of their bucket's supply, because the books
      balance, so nothing is assumed of them. */
  method UnwindSpread(b: Bucket, long: Bucket, start: nat, now: nat, ghost m: Books)
    returns (r: Outcome<u64>, ghost m': Books)
    requires b in m.views && long in m.views && long != b && m.clock <= now && Sound(m)
    modifies b, long
    ensures Sound(m') && m'.views.Keys == m.views.Keys && (r.Aborted? ==> m' == m)
    ensures r.Done? ==> m'.wallets == m.wallets && m'.vault == m.vault - {(b, start)}
    ensures r.Done? <==> old(CanUnwind(b, long, start, now))
  {
    hide Sound, Agrees, OthersAgree, RestAgree, Balanced, Steps, Good, AllFunded, Longs;
    Ready(m, b);
    Ready(m, long);
    RestOf(m, b, long);
    if start in b.escrows { EscrowKnown(m, b, start); }
    ghost var i;
    r, i := b.UnwindSpread(long, start, now);
    m' := m;
    if r.Aborted? {
      BothRestored(m, b, long);
    } else {
      UnwoundBooked(m, b, now, FL.UnwindSpread(i), start, long);
      m' := Unwound(m, b, now, FL.UnwindSpread(i), b.View(), b.supply, start, long, long.View(), long.supply);
    }
  }

  lemma BothRestored(m: Books, b: Bucket, c: Bucket)
    requires Balanced(m) && Agrees(m, b) && Agrees(m, c) && RestAgree(m, b, c)
    ensures Sound(m)
  {
    hide Balanced, Agrees;
  }
}
