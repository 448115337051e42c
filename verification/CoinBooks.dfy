/** Where option coins are, over all buckets: in somebody's wallet or locked in the
    escrow of a spread (contracts/core/sources/bucket.move).  The two always add
    up to each bucket's supply, and every bucket's calls make a history. */
module CoinBooks {
  import opened Integers
  import opened Strike
  import opened BucketSteps
  import opened CallBucket
  import opened BucketRuns
  import FL = FifoLedger

  /** Escrows of all buckets, by bucket and range start. */
  type Vault = map<(Bucket, nat), Escrow>

  type Escrows = map<Bucket, map<nat, Escrow>>

  /** What every bucket holds, its calls so far, all escrows, and `wallets[b]`, the coins of bucket `b`
      outside escrows. */
  datatype Books = Books(views: map<Bucket, Shape>, escrows: Escrows, supplies: map<Bucket, nat>,
                         shapes: map<Bucket, seq<Shape>>, log: map<Bucket, seq<Call>>, clock: nat,
                         vault: Vault, wallets: map<Bucket, nat>)

  function Get(w: map<Bucket, nat>, b: Bucket): nat { if b in w then w[b] else 0 }
  function Credit(w: map<Bucket, nat>, b: Bucket, n: nat): map<Bucket, nat> { w[b := Get(w, b) + n] }
  function Debit(w: map<Bucket, nat>, b: Bucket, n: nat): map<Bucket, nat> {
    w[b := if n <= Get(w, b) then Get(w, b) - n else 0]
  }

  // ----- coins locked in escrows -----

  function Claim(e: Escrow, b: Bucket): nat { if e.longBucket == b then e.long else 0 }

  ghost function Pick(v: Vault): (x: (Bucket, nat))
    requires v != map[]
    ensures x in v
  {
    var x :| x in v; x
  }

  /** Coins of bucket `b` locked in escrows. */
  ghost function Locked(v: Vault, b: Bucket): nat
    decreases |v|
  {
    if v == map[] then 0 else var x := Pick(v); Claim(v[x], b) + Locked(v - {x}, b)
  }

  lemma {:induction false} LockedRemove(v: Vault, x: (Bucket, nat), b: Bucket)
    requires x in v
    ensures Locked(v, b) == Claim(v[x], b) + Locked(v - {x}, b)
    decreases |v|
  {
    var y := Pick(v);
    if y != x {
      LockedRemove(v - {y}, x, b);
      LockedRemove(v - {x}, y, b);
      assert v - {y} - {x} == v - {x} - {y};
    }
  }

  lemma LockedAdd(v: Vault, x: (Bucket, nat), e: Escrow, b: Bucket)
    requires x !in v
    ensures Locked(v[x := e], b) == Claim(e, b) + Locked(v, b)
  {
    LockedRemove(v[x := e], x, b);
    assert v[x := e] - {x} == v;
  }

  lemma {:induction false} LockedNone(v: Vault, b: Bucket)
    requires forall x :: x in v ==> v[x].longBucket != b
    ensures Locked(v, b) == 0
    decreases |v|
  {
    if v != map[] { LockedNone(v - {Pick(v)}, b); }
  }

  // ----- the books balance -----

  /** Every bucket's calls so far make a history that ends in what it holds. */
  ghost predicate Tracks(shapes: map<Bucket, seq<Shape>>, log: map<Bucket, seq<Call>>, clock: nat, views: map<Bucket,
                         Shape>) {
    && shapes.Keys == views.Keys && log.Keys == views.Keys
    && forall b :: b in views ==> TracksOne(views[b], shapes[b], log[b], clock)
  }

  ghost predicate TracksOne(view: Shape, shapes: seq<Shape>, calls: seq<Call>, clock: nat) {
    view.clock <= clock && History(view.terms, shapes, calls) && shapes[|calls|] == view
  }

  /** The vault holds the buckets' escrows, each backed by coins of another known bucket. */
  ghost predicate Filed(v: Vault, es: Escrows) {
    && (forall b, s :: b in es && s in es[b] ==> (b, s) in v && v[(b, s)] == es[b][s])
    && (forall x :: x in v ==> x.0 in es && x.1 in es[x.0] && v[x].longBucket in es && v[x].longBucket != x.0)
  }

  /** Coins in wallets and coins in escrows are all the coins there are. */
  ghost predicate AddsUp(wallets: map<Bucket, nat>, v: Vault, supplies: map<Bucket, nat>) {
    wallets.Keys == supplies.Keys && forall b :: b in supplies ==> supplies[b] == wallets[b] + Locked(v, b)
  }

  ghost predicate Balanced(m: Books) {
    && m.escrows.Keys == m.views.Keys && m.supplies.Keys == m.views.Keys
    && Tracks(m.shapes, m.log, m.clock, m.views) && Filed(m.vault, m.escrows) && AddsUp(m.wallets, m.vault, m.supplies)
  }

  // ----- histories -----

  lemma StepsClock(s: Shape, now: nat, op: FL.Op, s': Shape)
    requires Steps(s, now, op, s') && !op.Tick?
    ensures s'.clock == now && s'.terms == s.terms
  {
  }

  lemma HistoryGrows(t: FL.Terms, shapes: seq<Shape>, calls: seq<Call>, now: nat, op: FL.Op, view: Shape)
    requires History(t, shapes, calls) && Steps(shapes[|calls|], now, op, view) && Ranged(view)
    ensures History(t, shapes + [view], calls + [Call(now, op)])
  {
    hide Steps, Ranged;
    var ss, cs := shapes + [view], calls + [Call(now, op)];
    forall k | 0 <= k < |cs| ensures Steps(ss[k], cs[k].now, cs[k].op, ss[k + 1]) {
      if k < |calls| { assert ss[k] == shapes[k] && ss[k + 1] == shapes[k + 1] && cs[k] == calls[k]; }
    }
  }

  lemma TracksOneMore(before: Shape, shapes: seq<Shape>, calls: seq<Call>, clock: nat, now: nat, op: FL.Op, view: Shape)
    requires TracksOne(before, shapes, calls, clock) && clock <= now && !op.Tick?
    requires Steps(before, now, op, view) && Ranged(view)
    ensures TracksOne(view, shapes + [view], calls + [Call(now, op)], now)
  {
    StepsClock(before, now, op, view);
    HistoryGrows(view.terms, shapes, calls, now, op, view);
    hide History, Steps, Ranged;
  }

  lemma LaterTracks(view: Shape, shapes: seq<Shape>, calls: seq<Call>, clock: nat, now: nat)
    requires TracksOne(view, shapes, calls, clock) && clock <= now
    ensures TracksOne(view, shapes, calls, now)
  {
  }

  /** A call is entered in its bucket's history. */
  lemma CallEntered(shapes: map<Bucket, seq<Shape>>, log: map<Bucket, seq<Call>>, clock: nat, views: map<Bucket, Shape>,
                    b: Bucket, now: nat, op: FL.Op, view: Shape)
    requires Tracks(shapes, log, clock, views) && b in views && clock <= now && !op.Tick?
    requires Steps(views[b], now, op, view) && Ranged(view)
    ensures b in shapes && b in log
    ensures Tracks(shapes[b := shapes[b] + [view]], log[b := log[b] + [Call(now, op)]], now, views[b := view])
  {
    hide TracksOne, Steps, Ranged;
    TracksOneMore(views[b], shapes[b], log[b], clock, now, op, view);
    forall c | c in views ensures TracksOne(views[c], shapes[c], log[c], now) {
      LaterTracks(views[c], shapes[c], log[c], clock, now);
    }
  }

  // ----- escrows -----

  function With(m: map<nat, Escrow>, start: nat, e: Escrow): map<nat, Escrow> { m[start := e] }

  lemma EscrowAdded(v: Vault, es: Escrows, b: Bucket, start: nat, e: Escrow)
    requires Filed(v, es) && b in es && start !in es[b] && e.longBucket in es && e.longBucket != b
    ensures (b, start) !in v && Filed(v[(b, start) := e], es[b := With(es[b], start, e)])
  {
  }

  lemma EscrowTakenOut(v: Vault, es: Escrows, b: Bucket, start: nat)
    requires Filed(v, es) && b in es && start in es[b]
    ensures (b, start) in v && v[(b, start)] == es[b][start]
    ensures es[b][start].longBucket in es && es[b][start].longBucket != b
    ensures Filed(v - {(b, start)}, es[b := es[b] - {start}])
  {
  }

  // ----- supplies -----

  /** What the supply moves, the wallets move. */
  lemma WalletMoves(wallets: map<Bucket, nat>, v: Vault, supplies: map<Bucket, nat>, b: Bucket, supply: nat,
                    wallet: nat)
    requires AddsUp(wallets, v, supplies) && b in supplies && supply - wallet == supplies[b] - wallets[b]
    ensures AddsUp(wallets[b := wallet], v, supplies[b := supply])
  {
    hide Locked;
  }

  /** Coins move from wallets into a new escrow. */
  lemma CoinsLocked(wallets: map<Bucket, nat>, v: Vault, supplies: map<Bucket, nat>, x: (Bucket, nat), e: Escrow)
    requires AddsUp(wallets, v, supplies) && x !in v && e.longBucket in supplies && e.long <= wallets[e.longBucket]
    ensures AddsUp(wallets[e.longBucket := wallets[e.longBucket] - e.long], v[x := e], supplies)
  {
    hide Locked;
    forall c | c in supplies ensures Locked(v[x := e], c) == Claim(e, c) + Locked(v, c) { LockedAdd(v, x, e, c); }
  }

  /** The coins of an escrow that is taken out return to wallets. */
  lemma CoinsReleased(wallets: map<Bucket, nat>, v: Vault, supplies: map<Bucket, nat>, x: (Bucket, nat))
    requires AddsUp(wallets, v, supplies) && x in v && v[x].longBucket in supplies
    ensures AddsUp(wallets[v[x].longBucket := wallets[v[x].longBucket] + v[x].long], v - {x}, supplies)
  {
    hide Locked;
    forall c | c in supplies ensures Locked(v, c) == Claim(v[x], c) + Locked(v - {x}, c) { LockedRemove(v, x, c); }
  }

  /** The escrowed coins of a spread are among their bucket's supply. */
  lemma EscrowWithinSupply(wallets: map<Bucket, nat>, v: Vault, supplies: map<Bucket, nat>, x: (Bucket, nat))
    requires AddsUp(wallets, v, supplies) && x in v && v[x].longBucket in supplies
    ensures v[x].long <= supplies[v[x].longBucket]
  {
    LockedRemove(v, x, v[x].longBucket);
  }

  // ----- whole transactions -----

  /** The bucket is one of those in the books. */
  predicate Known(m: Books, b: Bucket) {
    b in m.views && b in m.escrows && b in m.supplies && b in m.wallets && b in m.shapes && b in m.log
  }

  /** What bucket `b` holds after a call, and the call. */
  function Entered(m: Books, b: Bucket, now: nat, op: FL.Op, view: Shape, es: map<nat, Escrow>, supply: nat): Books
    requires Known(m, b)
  {
    m.(views := m.views[b := view], escrows := m.escrows[b := es], supplies := m.supplies[b := supply],
       shapes := m.shapes[b := m.shapes[b] + [view]], log := m.log[b := m.log[b] + [Call(now, op)]], clock := now)
  }

  /** A call that leaves the escrows alone. */
  function Plain(m: Books, b: Bucket, now: nat, op: FL.Op, view: Shape, supply: nat, wallet: nat): Books
    requires Known(m, b)
  {
    Entered(m, b, now, op, view, m.escrows[b], supply).(wallets := m.wallets[b := wallet])
  }

  /** Long coins move from wallets into a new escrow, and the new coins into wallets. */
  function Spread(m: Books, b: Bucket, now: nat, view: Shape, supply: nat, start: nat, e: Escrow): Books
    requires Known(m, b) && Known(m, e.longBucket) && e.long <= m.wallets[e.longBucket]
  {
    Entered(m, b, now, FL.WriteSpread(e.long), view, With(m.escrows[b], start, e), supply)
      .(vault := m.vault[(b, start) := e],
        wallets := m.wallets[e.longBucket := m.wallets[e.longBucket] - e.long][b := m.wallets[b] + e.long])
  }

  /** An escrow is taken out and its coins return to wallets. */
  function Returned(m: Books, b: Bucket, now: nat, op: FL.Op, view: Shape, supply: nat, start: nat, wallet: nat): Books
    requires Known(m, b) && start in m.escrows[b] && Known(m, m.escrows[b][start].longBucket)
  {
    var e := m.escrows[b][start];
    Entered(m, b, now, op, view, m.escrows[b] - {start}, supply)
      .(vault := m.vault - {(b, start)},
        wallets := m.wallets[e.longBucket := m.wallets[e.longBucket] + e.long][b := wallet])
  }

  lemma AllKnown(m: Books)
    requires Balanced(m)
    ensures forall b :: b in m.views ==> Known(m, b) && m.wallets[b] <= m.supplies[b] && m.views[b].clock <= m.clock
  {
    forall b | b in m.views ensures m.views[b].clock <= m.clock {
      assert TracksOne(m.views[b], m.shapes[b], m.log[b], m.clock);
    }
    hide Locked, History;
  }

  /** The escrowed coins of a spread are coins of another known bucket, and among its supply. */
  lemma EscrowKnown(m: Books, b: Bucket, start: nat)
    requires Known(m, b) && start in m.escrows[b] && Balanced(m)
    ensures var e := m.escrows[b][start];
            Known(m, e.longBucket) && e.longBucket != b && e.long <= m.supplies[e.longBucket]
  {
    AllKnown(m);
    EscrowTakenOut(m.vault, m.escrows, b, start);
    EscrowWithinSupply(m.wallets, m.vault, m.supplies, (b, start));
    hide Tracks, Filed, AddsUp;
  }

  lemma PlainKeeps(m: Books, b: Bucket, now: nat, op: FL.Op, view: Shape, supply: nat, wallet: nat)
    requires Known(m, b) && Balanced(m) && m.clock <= now && !op.Tick?
    requires Steps(m.views[b], now, op, view) && Ranged(view) && supply - wallet == m.supplies[b] - m.wallets[b]
    ensures Balanced(Plain(m, b, now, op, view, supply, wallet))
  {
    hide Tracks, Filed, AddsUp, Steps, Ranged;
    CallEntered(m.shapes, m.log, m.clock, m.views, b, now, op, view);
    WalletMoves(m.wallets, m.vault, m.supplies, b, supply, wallet);
    assert m.escrows[b := m.escrows[b]] == m.escrows;
  }

  lemma SpreadKeeps(m: Books, b: Bucket, now: nat, view: Shape, supply: nat, start: nat, e: Escrow)
    requires Known(m, b) && Known(m, e.longBucket) && Balanced(m) && m.clock <= now && start !in m.escrows[b]
    requires e.longBucket != b && e.long <= m.wallets[e.longBucket]
    requires Steps(m.views[b], now, FL.WriteSpread(e.long), view) && Ranged(view) && supply == m.supplies[b] + e.long
    ensures Balanced(Spread(m, b, now, view, supply, start, e))
  {
    hide Tracks, Filed, AddsUp, Steps, Ranged, With;
    CallEntered(m.shapes, m.log, m.clock, m.views, b, now, FL.WriteSpread(e.long), view);
    EscrowAdded(m.vault, m.escrows, b, start, e);
    CoinsLocked(m.wallets, m.vault, m.supplies, (b, start), e);
    WalletMoves(m.wallets[e.longBucket := m.wallets[e.longBucket] - e.long], m.vault[(b, start) := e], m.supplies, b,
                supply, m.wallets[b] + e.long);
  }

  lemma ReturnedKeeps(m: Books, b: Bucket, now: nat, op: FL.Op, view: Shape, supply: nat, start: nat, wallet: nat)
    requires Known(m, b) && start in m.escrows[b] && Known(m, m.escrows[b][start].longBucket) && Balanced(m)
    requires m.clock <= now && !op.Tick? && m.escrows[b][start].longBucket != b
    requires Steps(m.views[b], now, op, view) && Ranged(view) && supply - wallet == m.supplies[b] - m.wallets[b]
    ensures Balanced(Returned(m, b, now, op, view, supply, start, wallet))
  {
    hide Tracks, Filed, AddsUp, Steps, Ranged;
    var e := m.escrows[b][start];
    CallEntered(m.shapes, m.log, m.clock, m.views, b, now, op, view);
    EscrowTakenOut(m.vault, m.escrows, b, start);
    CoinsReleased(m.wallets, m.vault, m.supplies, (b, start));
    WalletMoves(m.wallets[e.longBucket := m.wallets[e.longBucket] + e.long], m.vault - {(b, start)}, m.supplies, b,
                supply, wallet);
  }

  /** A new, empty bucket joins. */
  function Joined(m: Books, b: Bucket, view: Shape): Books {
    m.(views := m.views[b := view], escrows := m.escrows[b := map[]], supplies := m.supplies[b := 0],
       shapes := m.shapes[b := [view]], log := m.log[b := []], wallets := m.wallets[b := 0])
  }

  lemma NewHistory(m: Books, b: Bucket, t: FL.Terms)
    requires Tracks(m.shapes, m.log, m.clock, m.views)
    ensures var s := EmptyShape(t); Tracks(m.shapes[b := [s]], m.log[b := []], m.clock, m.views[b := s])
  {
    var s := EmptyShape(t);
    assert TracksOne(s, [s], [], m.clock);
    hide TracksOne;
  }

  lemma NewEscrows(v: Vault, es: Escrows, b: Bucket)
    requires Filed(v, es) && b !in es
    ensures Filed(v, es[b := map[]]) && forall x :: x in v ==> v[x].longBucket != b
  {
  }

  lemma NewSupply(wallets: map<Bucket, nat>, v: Vault, supplies: map<Bucket, nat>, b: Bucket)
    requires AddsUp(wallets, v, supplies) && forall x :: x in v ==> v[x].longBucket != b
    ensures AddsUp(wallets[b := 0], v, supplies[b := 0])
  {
    LockedNone(v, b);
    hide Locked;
  }

  lemma JoinedKeeps(m: Books, b: Bucket, t: FL.Terms)
    requires Balanced(m) && b !in m.views
    ensures Balanced(Joined(m, b, EmptyShape(t)))
  {
    hide Tracks, Filed, AddsUp;
    NewHistory(m, b, t);
    NewEscrows(m.vault, m.escrows, b);
    NewSupply(m.wallets, m.vault, m.supplies, b);
  }
}
