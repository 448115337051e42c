/** The reference machine for a call bucket: one lot per write, in write order,
    with exercises assigned first in, first out, one lot after another.

    This is the O(n) bookkeeping that the design says the cursor is equivalent
    to (README.md:9 and the cursor model of the protocol design).  `CallBucket`
    proves that the cursor refines it; the lemmas here are about every run. */
module FifoLedger {
  import opened Strike

  /** Pooled: backed by the pool.  Escrowed: a spread write, backed by its own
      escrow until it is unwound.  Gone: the position has left the bucket. */
  datatype Kind = Pooled | Escrowed | Gone

  datatype Lot = Lot(live: nat, exercised: nat, kind: Kind)

  datatype Terms = Terms(strike: nat, scale: nat, expiry: nat)

  datatype Ledger = Ledger(lots: seq<Lot>, underlying: nat, settlement: nat, supply: nat, clock: nat)

  datatype Op =
    | Tick(now: nat)
    | Write(amount: nat)
    | WriteSpread(amount: nat)
    | Exercise(amount: nat)
    | CloseOffset(lot: nat, amount: nat)
    | CloseSpread(lot: nat)
    | UnwindSpread(lot: nat)
    | Redeem(lot: nat)
    | RedeemSpread(lot: nat)
    | BurnExpired(amount: nat)

  const EMPTY := Ledger([], 0, 0, 0, 0)

  // ----- assignment of an exercise -----

  /** Live units queued ahead of the first lot that is still escrowed. */
  function Reachable(lots: seq<Lot>): nat {
    if lots == [] || lots[0].kind.Escrowed? then 0 else lots[0].live + Reachable(lots[1..])
  }

  function Min(a: nat, b: nat): nat { if a <= b then a else b }

  /** Assign `n` exercised units to the oldest lots that still have live units. */
  function Assign(lots: seq<Lot>, n: nat): (r: seq<Lot>)
    requires n <= Reachable(lots)
    ensures |r| == |lots|
  {
    if n == 0 then lots else
    var t := Min(n, lots[0].live);
    [Lot(lots[0].live - t, lots[0].exercised + t, lots[0].kind)] + Assign(lots[1..], n - t)
  }

  // ----- sums over lots -----

  function Sum(lots: seq<Lot>, f: Lot -> nat): nat {
    if lots == [] then 0 else f(lots[0]) + Sum(lots[1..], f)
  }

  function LiveUnits(l: Lot): nat { l.live }
  function PooledUnits(l: Lot): nat { if l.kind.Pooled? then l.live else 0 }
  function ExercisedUnits(l: Lot): nat { l.exercised }

  /** Settlement a lot's holder is owed on redemption. */
  function OwedTo(t: Terms): Lot -> nat {
    (l: Lot) => Payment(l.exercised, t.strike, t.scale)
  }

  function Owed(t: Terms, lots: seq<Lot>): nat { Sum(lots, OwedTo(t)) }

  lemma {:induction false} SumAppend(a: seq<Lot>, b: seq<Lot>, f: Lot -> nat)
    ensures Sum(a + b, f) == Sum(a, f) + Sum(b, f)
  {
    if a == [] {
      assert a + b == b;
    } else {
      assert (a + b)[1..] == a[1..] + b;
      SumAppend(a[1..], b, f);
    }
  }

  lemma SumReplace(lots: seq<Lot>, i: nat, x: Lot, f: Lot -> nat)
    requires i < |lots|
    ensures Sum(lots[i := x], f) + f(lots[i]) == Sum(lots, f) + f(x)
  {
    assert lots == lots[..i] + ([lots[i]] + lots[i + 1..]);
    assert lots[i := x] == lots[..i] + ([x] + lots[i + 1..]);
    SumAppend(lots[..i], [lots[i]] + lots[i + 1..], f);
    SumAppend(lots[..i], [x] + lots[i + 1..], f);
    assert ([lots[i]] + lots[i + 1..])[1..] == lots[i + 1..] == ([x] + lots[i + 1..])[1..];
  }

  lemma {:induction false} LotWithinSum(lots: seq<Lot>, i: nat, f: Lot -> nat)
    requires i < |lots|
    ensures f(lots[i]) <= Sum(lots, f)
  {
    if i > 0 {
      LotWithinSum(lots[1..], i - 1, f);
    }
  }

  // ----- the machine -----

  predicate Enabled(t: Terms, l: Ledger, op: Op) {
    match op
    case Tick(now) => l.clock <= now
    case Write(n) => l.clock < t.expiry && n > 0
    case WriteSpread(n) => l.clock < t.expiry && n > 0
    case Exercise(n) => l.clock < t.expiry && 0 < n <= l.supply && n <= Reachable(l.lots) && n <= l.underlying
    case CloseOffset(i, n) =>
      l.clock < t.expiry && i < |l.lots| && l.lots[i].kind.Pooled? && 0 < n <= l.lots[i].live && n <= l.underlying
      && n <= l.supply
    case CloseSpread(i) =>
      l.clock < t.expiry && i < |l.lots| && l.lots[i].kind.Escrowed? && l.lots[i].live <= l.supply
    case UnwindSpread(i) => i < |l.lots| && l.lots[i].kind.Escrowed?
    case Redeem(i) =>
      t.expiry <= l.clock && i < |l.lots| && l.lots[i].kind.Pooled? &&
      l.lots[i].live <= l.underlying && OwedTo(t)(l.lots[i]) <= l.settlement
    case RedeemSpread(i) => t.expiry <= l.clock && i < |l.lots| && l.lots[i].kind.Escrowed?
    case BurnExpired(n) => t.expiry <= l.clock && n <= l.supply
  }

  function Apply(t: Terms, l: Ledger, op: Op): Ledger
    requires Enabled(t, l, op)
  {
    match op
    case Tick(now) => l.(clock := now)
    case Write(n) =>
      l.(lots := l.lots + [Lot(n, 0, Pooled)], underlying := l.underlying + n, supply := l.supply + n)
    case WriteSpread(n) =>
      l.(lots := l.lots + [Lot(n, 0, Escrowed)], supply := l.supply + n)
    case Exercise(n) =>
      l.(lots := Assign(l.lots, n), underlying := l.underlying - n, supply := l.supply - n,
         settlement := l.settlement + Payment(n, t.strike, t.scale))
    case CloseOffset(i, n) =>
      l.(lots := l.lots[i := l.lots[i].(live := l.lots[i].live - n)], underlying := l.underlying - n,
         supply := l.supply - n)
    case CloseSpread(i) =>
      l.(lots := l.lots[i := Lot(0, 0, Gone)], supply := l.supply - l.lots[i].live)
    case UnwindSpread(i) =>
      l.(lots := l.lots[i := l.lots[i].(kind := Pooled)], underlying := l.underlying + l.lots[i].live)
    case Redeem(i) =>
      l.(lots := l.lots[i := Lot(0, 0, Gone)], underlying := l.underlying - l.lots[i].live,
         settlement := l.settlement - OwedTo(t)(l.lots[i]))
    case RedeemSpread(i) => l.(lots := l.lots[i := Lot(0, 0, Gone)])
    case BurnExpired(n) => l.(supply := l.supply - n)
  }

  predicate Legal(t: Terms, l: Ledger, ops: seq<Op>)
    decreases |ops|
  {
    ops == [] || (Enabled(t, l, ops[0]) && Legal(t, Apply(t, l, ops[0]), ops[1..]))
  }

  function Run(t: Terms, l: Ledger, ops: seq<Op>): Ledger
    requires Legal(t, l, ops)
    decreases |ops|
  {
    if ops == [] then l else Run(t, Apply(t, l, ops[0]), ops[1..])
  }

  // ----- what every run keeps -----

  /** No writer is assigned while an earlier writer still has live units. */
  ghost predicate FirstInFirstOut(lots: seq<Lot>) {
    forall i, j :: 0 <= i < j < |lots| && lots[j].exercised > 0 ==> lots[i].live == 0
  }

  ghost predicate LotsWellFormed(lots: seq<Lot>) {
    forall i :: 0 <= i < |lots| ==>
      && (lots[i].kind.Escrowed? ==> lots[i].exercised == 0 && lots[i].live > 0)
      && (lots[i].kind.Gone? ==> lots[i].exercised == 0 && lots[i].live == 0)
  }

  ghost predicate Invariant(t: Terms, l: Ledger) {
    && LotsWellFormed(l.lots)
    && FirstInFirstOut(l.lots)
    && l.underlying == Sum(l.lots, PooledUnits)
    && (l.clock < t.expiry ==> l.supply == Sum(l.lots, LiveUnits))
  }

  lemma {:induction false} AssignSums(lots: seq<Lot>, n: nat)
    requires n <= Reachable(lots) && LotsWellFormed(lots)
    ensures Sum(Assign(lots, n), LiveUnits) + n == Sum(lots, LiveUnits)
    ensures Sum(Assign(lots, n), PooledUnits) + n == Sum(lots, PooledUnits)
    ensures Sum(Assign(lots, n), ExercisedUnits) == Sum(lots, ExercisedUnits) + n
  {
    if n > 0 {
      var t := Min(n, lots[0].live);
      AssignSums(lots[1..], n - t);
      assert Assign(lots, n)[1..] == Assign(lots[1..], n - t);
    }
  }

  /** An assignment touches a lot only after emptying all lots before it. */
  lemma {:induction false} AssignEmptiesEarlier(lots: seq<Lot>, n: nat, i: nat, j: nat)
    requires n <= Reachable(lots) && i < j < |lots|
    requires Assign(lots, n)[j] != lots[j]
    ensures Assign(lots, n)[i].live == 0
  {
    var t := Min(n, lots[0].live);
    if i == 0 {
      assert n != t;
    } else {
      AssignEmptiesEarlier(lots[1..], n - t, i - 1, j - 1);
    }
  }

  lemma {:induction false} AssignShape(lots: seq<Lot>, n: nat, i: nat)
    requires n <= Reachable(lots) && i < |lots|
    ensures Assign(lots, n)[i].kind == lots[i].kind
    ensures Assign(lots, n)[i].live + Assign(lots, n)[i].exercised == lots[i].live + lots[i].exercised
    ensures Assign(lots, n)[i].live <= lots[i].live
    ensures lots[i].kind.Escrowed? ==> Assign(lots, n)[i] == lots[i]
  {
    if n > 0 && i > 0 {
      AssignShape(lots[1..], n - Min(n, lots[0].live), i - 1);
    }
  }

  lemma AssignKeepsOrder(lots: seq<Lot>, n: nat)
    requires n <= Reachable(lots) && LotsWellFormed(lots) && FirstInFirstOut(lots)
    ensures LotsWellFormed(Assign(lots, n)) && FirstInFirstOut(Assign(lots, n))
  {
    var r := Assign(lots, n);
    forall i | 0 <= i < |r|
      ensures r[i].kind == lots[i].kind && r[i].live <= lots[i].live
      ensures r[i].live + r[i].exercised == lots[i].live + lots[i].exercised
      ensures lots[i].kind.Escrowed? ==> r[i] == lots[i]
    {
      AssignShape(lots, n, i);
    }
    forall i, j | 0 <= i < j < |r| && r[j].exercised > 0
      ensures r[i].live == 0
    {
      if r[j] != lots[j] {
        AssignEmptiesEarlier(lots, n, i, j);
      }
    }
  }

  /** A fresh lot goes to the back of the queue. */
  lemma AppendKeepsOrder(lots: seq<Lot>, x: Lot)
    requires LotsWellFormed(lots) && FirstInFirstOut(lots)
    requires x.exercised == 0 && x.live > 0 && !x.kind.Gone?
    ensures LotsWellFormed(lots + [x]) && FirstInFirstOut(lots + [x])
  {
  }

  /** Shrinking a lot, or taking it out, disturbs nobody's place. */
  lemma ReplaceKeepsOrder(lots: seq<Lot>, i: nat, x: Lot)
    requires LotsWellFormed(lots) && FirstInFirstOut(lots) && i < |lots|
    requires x.live <= lots[i].live && x.exercised <= lots[i].exercised && LotsWellFormed([x])
    ensures LotsWellFormed(lots[i := x]) && FirstInFirstOut(lots[i := x])
  {
    assert [x][0] == x;
  }

  lemma StepKeepsOrder(t: Terms, l: Ledger, op: Op)
    requires Invariant(t, l) && Enabled(t, l, op)
    ensures LotsWellFormed(Apply(t, l, op).lots) && FirstInFirstOut(Apply(t, l, op).lots)
  {
    match op
    case Tick(_) =>
    case BurnExpired(_) =>
    case Write(n) => AppendKeepsOrder(l.lots, Lot(n, 0, Pooled));
    case WriteSpread(n) => AppendKeepsOrder(l.lots, Lot(n, 0, Escrowed));
    case Exercise(n) => AssignKeepsOrder(l.lots, n);
    case CloseOffset(i, n) => ReplaceKeepsOrder(l.lots, i, l.lots[i].(live := l.lots[i].live - n));
    case UnwindSpread(i) => ReplaceKeepsOrder(l.lots, i, l.lots[i].(kind := Pooled));
    case CloseSpread(i) => ReplaceKeepsOrder(l.lots, i, Lot(0, 0, Gone));
    case Redeem(i) => ReplaceKeepsOrder(l.lots, i, Lot(0, 0, Gone));
    case RedeemSpread(i) => ReplaceKeepsOrder(l.lots, i, Lot(0, 0, Gone));
  }

  /** How one step moves the total of a per-lot measure. */
  lemma StepMovesSum(t: Terms, l: Ledger, op: Op, f: Lot -> nat)
    requires Enabled(t, l, op)
    ensures op.Write? ==> Sum(Apply(t, l, op).lots, f) == Sum(l.lots, f) + f(Lot(op.amount, 0, Pooled))
    ensures op.WriteSpread? ==> Sum(Apply(t, l, op).lots, f) == Sum(l.lots, f) + f(Lot(op.amount, 0, Escrowed))
    ensures op.CloseOffset? || op.CloseSpread? || op.UnwindSpread? || op.Redeem? || op.RedeemSpread? ==>
              Sum(Apply(t, l, op).lots, f) + f(l.lots[op.lot]) == Sum(l.lots, f) + f(Apply(t, l, op).lots[op.lot])
  {
    var m := Apply(t, l, op);
    if op.Write? {
      SumAppend(l.lots, [Lot(op.amount, 0, Pooled)], f);
    } else if op.WriteSpread? {
      SumAppend(l.lots, [Lot(op.amount, 0, Escrowed)], f);
    } else if op.CloseOffset? || op.CloseSpread? || op.UnwindSpread? || op.Redeem? || op.RedeemSpread? {
      SumReplace(l.lots, op.lot, m.lots[op.lot], f);
    }
  }

  lemma StepKeepsInvariant(t: Terms, l: Ledger, op: Op)
    requires Invariant(t, l) && Enabled(t, l, op)
    ensures Invariant(t, Apply(t, l, op))
  {
    StepKeepsOrder(t, l, op);
    StepMovesSum(t, l, op, PooledUnits);
    StepMovesSum(t, l, op, LiveUnits);
    if op.Exercise? {
      AssignSums(l.lots, op.amount);
    }
  }

  /** Every run of the bucket assigns exercises in write order, keeps the pool
      equal to the live pooled units and, until expiry, keeps the option coin
      supply equal to all live units. */
  lemma {:induction false} EveryRunKeepsInvariant(t: Terms, l: Ledger, ops: seq<Op>)
    requires Invariant(t, l) && Legal(t, l, ops)
    ensures Invariant(t, Run(t, l, ops))
    decreases |ops|
  {
    if ops != [] {
      StepKeepsInvariant(t, l, ops[0]);
      EveryRunKeepsInvariant(t, Apply(t, l, ops[0]), ops[1..]);
    }
  }
}
