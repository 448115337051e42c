/** What each entry point of the call bucket does to the number line, and the
    proof that it is one step of the reference ledger.  `CallBucket` holds the
    entry points themselves. */
module BucketSteps {
  import opened Strike
  import opened WriteQueue
  import opened QueueWalk
  import FL = FifoLedger

  /** The bucket's fields, every write's range and the last clock reading. */
  datatype Shape = Shape(
    terms: FL.Terms, total: nat, cursor: nat, closed: seq<Interval>, pending: nat,
    spreads: seq<Interval>, escrows: map<nat, nat>, ranges: seq<Range>,
    underlying: nat, settlement: nat, supply: nat, clock: nat)

  ghost function LedgerOf(s: Shape): FL.Ledger
    requires Ordered(s.ranges)
  {
    FL.Ledger(LotsAt(s.ranges, s.cursor), s.underlying, s.settlement, s.supply, s.clock)
  }

  /** Each escrowed range has its escrow, filed under its start. */
  ghost predicate EscrowsMatch(rs: seq<Range>, escrows: map<nat, nat>) {
    forall i :: 0 <= i < |rs| && rs[i].kind.Escrowed? ==>
      rs[i].start in escrows && escrows[rs[i].start] == rs[i].end - rs[i].start
  }

  ghost predicate Good(s: Shape) {
    && Tiled(s.ranges, s.total, s.cursor, s.closed, s.pending)
    && SpreadsAhead(s.ranges, s.cursor)
    && s.spreads == SpreadsOf(s.ranges)
    && (s.clock < s.terms.expiry ==> GoneIsEmpty(s.ranges))
    && EscrowsMatch(s.ranges, s.escrows)
    && FL.Invariant(s.terms, LedgerOf(s))
  }

  /** `s'` is `s` after one step of the reference ledger at time `now`. */
  ghost predicate Steps(s: Shape, now: nat, op: FL.Op, s': Shape) {
    && Good(s) && Good(s') && s'.terms == s.terms && s.clock <= now
    && FL.Enabled(s.terms, LedgerOf(s).(clock := now), op)
    && LedgerOf(s') == FL.Apply(s.terms, LedgerOf(s).(clock := now), op)
  }

  // ----- geometry -----

  lemma {:induction false} RaiseEnd(closed: seq<Interval>, lo: nat, hi: nat, higher: nat)
    requires Separated(closed, lo, hi) && hi <= higher
    ensures Separated(closed, lo, higher)
  {
    if closed != [] {
      RaiseEnd(closed[1..], closed[0].end + 1, hi, higher);
    }
  }

  lemma CoveredAppend(rs: seq<Range>, w: Range, u: nat)
    ensures Covered(rs + [w], u) <==> Covered(rs, u) || w.start <= u < w.end
  {
    var ws := rs + [w];
    assert ws[|rs|] == w;
    if Covered(rs, u) {
      var i :| 0 <= i < |rs| && rs[i].start <= u < rs[i].end;
      assert ws[i] == rs[i];
    }
  }

  lemma WriteTiles(rs: seq<Range>, total: nat, cursor: nat, closed: seq<Interval>, pending: nat, w: Range)
    requires Tiled(rs, total, cursor, closed, pending)
    requires w.start == total < w.end
    ensures Tiled(rs + [w], w.end, cursor, closed, pending)
  {
    RemainingAppend(rs, w, cursor);
    RaiseEnd(closed, cursor, total, w.end);
    forall u: nat | cursor <= u < w.end
      ensures Covered(rs + [w], u) <==> !InClosed(closed, u)
    {
      CoveredAppend(rs, w, u);
      if u >= total && InClosed(closed, u) {
        ClosedWithin(closed, cursor, total, u);
      }
    }
  }

  lemma OnlyInOwnRange(rs: seq<Range>, i: nat, u: nat)
    requires Ordered(rs) && i < |rs| && rs[i].start <= u < rs[i].end
    ensures forall j :: 0 <= j < |rs| && j != i ==> !(rs[j].start <= u < rs[j].end)
  {
  }

  lemma CoveredShrink(rs: seq<Range>, i: nat, r: Range, u: nat)
    requires Ordered(rs) && i < |rs| && r.start == rs[i].start <= r.end <= rs[i].end
    ensures Covered(rs[i := r], u) <==> Covered(rs, u) && !(r.end <= u < rs[i].end)
  {
    var qs := rs[i := r];
    if Covered(qs, u) {
      var j :| 0 <= j < |qs| && qs[j].start <= u < qs[j].end;
      assert rs[j].start <= u < rs[j].end;
      if r.end <= u < rs[i].end {
        OnlyInOwnRange(rs, i, u);
      }
    }
    if Covered(rs, u) && !(r.end <= u < rs[i].end) {
      var j :| 0 <= j < |rs| && rs[j].start <= u < rs[j].end;
      assert qs[j].start <= u < qs[j].end;
    }
  }

  lemma OrderedShrink(rs: seq<Range>, i: nat, r: Range)
    requires Ordered(rs) && i < |rs| && r.start == rs[i].start <= r.end <= rs[i].end
    ensures Ordered(rs[i := r])
  {
  }

  /** `after` is `closed` with the tombstone `[start, end)` added. */
  ghost predicate TombstoneAdded(closed: seq<Interval>, after: seq<Interval>, lo: nat, hi: nat, start: nat, end: nat) {
    && Separated(after, lo, hi)
    && Length(after) == Length(closed) + (end - start)
    && forall u: nat :: InClosed(after, u) <==> InClosed(closed, u) || start <= u < end
  }

  /** Cutting the tail off a range and tombstoning it keeps the line tiled. */
  lemma CloseTiles(rs: seq<Range>, total: nat, cursor: nat, closed: seq<Interval>, pending: nat,
                   i: nat, r: Range, closed': seq<Interval>)
    requires Tiled(rs, total, cursor, closed, pending)
    requires i < |rs| && r.start == rs[i].start <= r.end < rs[i].end && cursor <= r.end
    requires TombstoneAdded(closed, closed', cursor, total, r.end, rs[i].end)
    ensures Tiled(rs[i := r], total, cursor, closed', pending + (rs[i].end - r.end))
  {
    OrderedShrink(rs, i, r);
    RemainingReplace(rs, i, r, cursor);
    forall u: nat | cursor <= u < total
      ensures Covered(rs[i := r], u) <==> !InClosed(closed', u)
    {
      CoveredShrink(rs, i, r, u);
      if r.end <= u < rs[i].end {
        assert Covered(rs, u);
      }
    }
  }

  /** A slice of a range at or beyond the cursor overlaps no tombstone. */
  lemma SliceFits(rs: seq<Range>, total: nat, cursor: nat, closed: seq<Interval>, pending: nat, i: nat, cut: nat)
    requires Tiled(rs, total, cursor, closed, pending)
    requires i < |rs| && rs[i].start <= cut < rs[i].end && cursor <= cut
    ensures Fits(closed, cursor, total, cut, rs[i].end)
  {
    forall u: nat | cut <= u < rs[i].end ensures !InClosed(closed, u) {
      assert Covered(rs, u);
    }
  }

  /** Changing only what became of a range leaves the geometry alone. */
  lemma KindTiles(rs: seq<Range>, total: nat, cursor: nat, closed: seq<Interval>, pending: nat, i: nat, k: FL.Kind)
    requires Tiled(rs, total, cursor, closed, pending) && i < |rs|
    ensures Tiled(rs[i := rs[i].(kind := k)], total, cursor, closed, pending)
  {
    var r := rs[i].(kind := k);
    OrderedShrink(rs, i, r);
    RemainingReplace(rs, i, r, cursor);
    forall u: nat ensures Covered(rs[i := r], u) <==> Covered(rs, u) {
      CoveredShrink(rs, i, r, u);
    }
  }

  // ----- the spread list -----

  /** The range behind entry `k` of the spread list, and the list around it. */
  lemma {:induction false} SpreadEntry(rs: seq<Range>, k: nat) returns (i: nat)
    requires k < |SpreadsOf(rs)|
    ensures i < |rs| && rs[i].kind.Escrowed? && SpreadsOf(rs)[k] == Interval(rs[i].start, rs[i].end)
    ensures SpreadsOf(rs)[..k] == SpreadsOf(rs[..i]) && SpreadsOf(rs)[k + 1..] == SpreadsOf(rs[i + 1..])
  {
    if rs[0].kind.Escrowed? && k == 0 {
      i := 0;
    } else {
      var d := if rs[0].kind.Escrowed? then 1 else 0;
      var j := SpreadEntry(rs[1..], k - d);
      i := j + 1;
      assert rs[..i][1..] == rs[1..][..j] && rs[i + 1..] == rs[1..][j + 1..];
    }
  }

  /** An escrowed range is in the spread list. */
  lemma {:induction false} ListedSpread(rs: seq<Range>, i: nat) returns (k: nat)
    requires i < |rs| && rs[i].kind.Escrowed?
    ensures k < |SpreadsOf(rs)| && SpreadsOf(rs)[k] == Interval(rs[i].start, rs[i].end)
  {
    if i == 0 {
      k := 0;
    } else {
      var j := ListedSpread(rs[1..], i - 1);
      k := if rs[0].kind.Escrowed? then j + 1 else j;
    }
  }

  /** Removing entry `k` is what un-escrowing its range does to the list. */
  lemma SpreadRemoved(rs: seq<Range>, i: nat, r: Range, k: nat)
    requires Ordered(rs) && i < |rs| && rs[i].kind.Escrowed? && !r.kind.Escrowed?
    requires k < |SpreadsOf(rs)| && SpreadsOf(rs)[k].start == rs[i].start
    ensures SpreadsOf(rs[i := r]) == SpreadsOf(rs)[..k] + SpreadsOf(rs)[k + 1..]
  {
    var j := SpreadEntry(rs, k);
    assert j == i;
    assert rs[i := r] == rs[..i] + ([r] + rs[i + 1..]);
    SpreadsAppend(rs[..i], [r] + rs[i + 1..]);
    assert ([r] + rs[i + 1..])[1..] == rs[i + 1..];
  }

  lemma {:induction false} SpreadsUnchanged(rs: seq<Range>, i: nat, r: Range)
    requires i < |rs| && !rs[i].kind.Escrowed? && !r.kind.Escrowed?
    ensures SpreadsOf(rs[i := r]) == SpreadsOf(rs)
  {
    if i > 0 {
      assert rs[i := r][1..] == rs[1..][i - 1 := r];
      SpreadsUnchanged(rs[1..], i - 1, r);
    } else {
      assert rs[i := r][1..] == rs[1..];
    }
  }

  /** A position overlaps a spread range exactly when it is that spread's own. */
  lemma OverlapMeansOwnSpread(rs: seq<Range>, i: nat, from: nat)
    requires Ordered(rs) && i < |rs| && rs[i].start <= from <= rs[i].end
    requires rs[i].kind.Escrowed? ==> from < rs[i].end
    requires forall j :: 0 <= j < |rs| && rs[j].kind.Escrowed? ==> rs[j].start < rs[j].end
    ensures (exists k :: 0 <= k < |SpreadsOf(rs)| && SpreadsOf(rs)[k].start < rs[i].end && from < SpreadsOf(rs)[k].end)
            <==> rs[i].kind.Escrowed?
  {
    if rs[i].kind.Escrowed? {
      var k := ListedSpread(rs, i);
    } else {
      forall k | 0 <= k < |SpreadsOf(rs)| && SpreadsOf(rs)[k].start < rs[i].end && from < SpreadsOf(rs)[k].end
        ensures false
      {
        var j := SpreadEntry(rs, k);
      }
    }
  }

  /** A position's start is filed in the spread list exactly when it is a spread. */
  lemma FiledMeansOwnSpread(rs: seq<Range>, i: nat, k: nat)
    requires Ordered(rs) && i < |rs| && k < |SpreadsOf(rs)| && SpreadsOf(rs)[k].start == rs[i].start
    ensures rs[i].kind.Escrowed? && SpreadsOf(rs)[k].end == rs[i].end
  {
    var j := SpreadEntry(rs, k);
    assert j == i;
  }

  // ----- one lemma per entry point -----

  lemma GoodParts(s: Shape)
    requires Good(s)
    ensures Ordered(s.ranges) && s.cursor <= s.total
    ensures forall i :: 0 <= i < |s.ranges| ==> s.ranges[i].start < s.total && s.ranges[i].end <= s.total
  {
  }

  /** A ledger step on well-formed fields is a step of the bucket. */
  lemma Assemble(s: Shape, now: nat, op: FL.Op, s': Shape)
    requires Good(s) && s.clock <= now && s'.terms == s.terms && s'.clock == now
    requires Tiled(s'.ranges, s'.total, s'.cursor, s'.closed, s'.pending) && SpreadsAhead(s'.ranges, s'.cursor)
    requires s'.spreads == SpreadsOf(s'.ranges) && EscrowsMatch(s'.ranges, s'.escrows)
    requires now < s.terms.expiry ==> GoneIsEmpty(s'.ranges)
    requires FL.Enabled(s.terms, LedgerOf(s).(clock := now), op)
    requires LedgerOf(s') == FL.Apply(s.terms, LedgerOf(s).(clock := now), op)
    ensures Steps(s, now, op, s')
  {
    FL.StepKeepsInvariant(s.terms, LedgerOf(s).(clock := now), op);
  }

  /** Un-escrowing, shrinking or removing one range. */
  lemma ReplaceParts(rs: seq<Range>, cursor: nat, i: nat, r: Range)
    requires Ordered(rs) && SpreadsAhead(rs, cursor) && i < |rs|
    requires r.start == rs[i].start <= r.end <= rs[i].end && !r.kind.Escrowed?
    ensures Ordered(rs[i := r]) && SpreadsAhead(rs[i := r], cursor)
    ensures GoneIsEmpty(rs) && (r.kind.Gone? ==> r.start == r.end) ==> GoneIsEmpty(rs[i := r])
    ensures LotsAt(rs[i := r], cursor) == LotsAt(rs, cursor)[i := LotAt(r, cursor)]
  {
    OrderedShrink(rs, i, r);
    LotsReplace(rs, i, r, cursor);
  }

  lemma LotsReplace(rs: seq<Range>, i: nat, r: Range, cursor: nat)
    requires Ordered(rs) && i < |rs| && r.start <= r.end
    ensures LotsAt(rs[i := r], cursor) == LotsAt(rs, cursor)[i := LotAt(r, cursor)]
  {
  }

  lemma LotsAppend(rs: seq<Range>, w: Range, cursor: nat)
    requires Ordered(rs) && cursor <= w.start <= w.end && !w.kind.Gone?
    ensures LotsAt(rs + [w], cursor) == LotsAt(rs, cursor) + [FL.Lot(w.end - w.start, 0, w.kind)]
  {
  }

  lemma WriteParts(rs: seq<Range>, cursor: nat, w: Range)
    requires Ordered(rs) && SpreadsAhead(rs, cursor)
    requires cursor <= w.start < w.end && !w.kind.Gone?
    ensures SpreadsAhead(rs + [w], cursor)
    ensures GoneIsEmpty(rs) ==> GoneIsEmpty(rs + [w])
    ensures SpreadsOf(rs + [w]) == SpreadsOf(rs) + if w.kind.Escrowed? then [Interval(w.start, w.end)] else []
  {
    SpreadsAppend(rs, [w]);
    assert [w][1..] == [];
  }

  lemma WriteEscrows(rs: seq<Range>, w: Range, escrows: map<nat, nat>)
    requires EscrowsMatch(rs, escrows) && w.start < w.end
    requires forall i :: 0 <= i < |rs| ==> rs[i].start != w.start
    ensures EscrowsMatch(rs + [w], if w.kind.Escrowed? then escrows[w.start := w.end - w.start] else escrows)
  {
  }

  function AfterWrite(s: Shape, n: nat, kind: FL.Kind, now: nat): Shape {
    var end := s.total + n;
    s.(total := end, ranges := s.ranges + [Range(s.total, end, kind)],
       spreads := if kind.Escrowed? then s.spreads + [Interval(s.total, end)] else s.spreads,
       escrows := if kind.Escrowed? then s.escrows[s.total := n] else s.escrows,
       underlying := if kind.Escrowed? then s.underlying else s.underlying + n,
       supply := s.supply + n, clock := now)
  }

  lemma WritePieces(s: Shape, n: nat, kind: FL.Kind, now: nat)
    requires Good(s) && n > 0 && !kind.Gone?
    ensures var s' := AfterWrite(s, n, kind, now);
            && Tiled(s'.ranges, s'.total, s'.cursor, s'.closed, s'.pending) && SpreadsAhead(s'.ranges, s'.cursor)
            && s'.spreads == SpreadsOf(s'.ranges) && EscrowsMatch(s'.ranges, s'.escrows)
            && (GoneIsEmpty(s.ranges) ==> GoneIsEmpty(s'.ranges))
            && LotsAt(s'.ranges, s.cursor) == LotsAt(s.ranges, s.cursor) + [FL.Lot(n, 0, kind)]
  {
    hide Tiled, SpreadsAhead, SpreadsOf, GoneIsEmpty, EscrowsMatch, Ordered, FL.Invariant, TombstoneAdded;
    var w := Range(s.total, s.total + n, kind);
    GoodParts(s);
    WriteTiles(s.ranges, s.total, s.cursor, s.closed, s.pending, w);
    WriteParts(s.ranges, s.cursor, w);
    WriteEscrows(s.ranges, w, s.escrows);
    LotsAppend(s.ranges, w, s.cursor);
    assert s.spreads + [] == s.spreads;
  }

  lemma WriteStep(s: Shape, n: nat, kind: FL.Kind, now: nat)
    requires Good(s) && s.clock <= now < s.terms.expiry && n > 0 && !kind.Gone?
    ensures Steps(s, now, if kind.Escrowed? then FL.WriteSpread(n) else FL.Write(n), AfterWrite(s, n, kind, now))
  {
    hide Tiled, SpreadsAhead, SpreadsOf, GoneIsEmpty, EscrowsMatch, Ordered, FL.Invariant, TombstoneAdded;
    GoodParts(s);
    WritePieces(s, n, kind, now);
    assert kind == FL.Escrowed || kind == FL.Pooled;
    Assemble(s, now, if kind.Escrowed? then FL.WriteSpread(n) else FL.Write(n), AfterWrite(s, n, kind, now));
  }

  /** Before expiry the coin supply is exactly the room left on the line. */
  lemma SupplyIsCapacity(s: Shape)
    requires Good(s) && s.clock < s.terms.expiry
    ensures s.supply == s.total - s.cursor - s.pending
  {
    RemainingIsLive(s.ranges, s.cursor);
  }

  function AfterExercise(s: Shape, n: nat, cursor: nat, closed: seq<Interval>, pending: nat, now: nat): Shape
    requires n <= s.underlying && n <= s.supply
  {
    s.(cursor := cursor, closed := closed, pending := pending, underlying := s.underlying - n, supply := s.supply - n,
       settlement := s.settlement + Payment(n, s.terms.strike, s.terms.scale), clock := now)
  }

  lemma {:induction false} ReachableIsPooled(lots: seq<FL.Lot>)
    requires FL.LotsWellFormed(lots)
    ensures FL.Reachable(lots) <= FL.Sum(lots, FL.PooledUnits)
  {
    if lots != [] && !lots[0].kind.Escrowed? {
      ReachableIsPooled(lots[1..]);
    }
  }

  /** The outcome of walking the cursor over `n` live units. */
  ghost predicate Advanced(s: Shape, n: nat, cursor: nat, closed: seq<Interval>, pending: nat) {
    && Ordered(s.ranges) && n <= FL.Reachable(LotsAt(s.ranges, s.cursor)) && cursor <= s.total
    && Tiled(s.ranges, s.total, cursor, closed, pending) && SpreadsAhead(s.ranges, cursor)
    && LotsAt(s.ranges, cursor) == FL.Assign(LotsAt(s.ranges, s.cursor), n)
  }

  lemma ExerciseStep(s: Shape, n: nat, cursor: nat, closed: seq<Interval>, pending: nat, now: nat)
    requires Good(s) && s.clock <= now < s.terms.expiry && 0 < n <= s.supply
    requires Advanced(s, n, cursor, closed, pending)
    ensures n <= s.underlying
    ensures Steps(s, now, FL.Exercise(n), AfterExercise(s, n, cursor, closed, pending, now))
  {
    ReachableIsPooled(LotsAt(s.ranges, s.cursor));
    Assemble(s, now, FL.Exercise(n), AfterExercise(s, n, cursor, closed, pending, now));
  }

  function AfterClose(s: Shape, i: nat, n: nat, closed: seq<Interval>, now: nat): Shape
    requires i < |s.ranges| && n <= s.ranges[i].end && n <= s.underlying && n <= s.supply
  {
    s.(ranges := s.ranges[i := s.ranges[i].(end := s.ranges[i].end - n)], closed := closed, pending := s.pending + n,
       underlying := s.underlying - n, supply := s.supply - n, clock := now)
  }

  lemma CloseIsCovered(s: Shape, i: nat, n: nat)
    requires Good(s) && s.clock < s.terms.expiry && i < |s.ranges| && s.ranges[i].kind.Pooled?
    requires 0 < n <= s.ranges[i].end - s.ranges[i].start && s.cursor <= s.ranges[i].end - n
    ensures n <= LotAt(s.ranges[i], s.cursor).live && n <= s.underlying && n <= s.supply
  {
    var lots := LotsAt(s.ranges, s.cursor);
    FL.LotWithinSum(lots, i, FL.PooledUnits);
    FL.LotWithinSum(lots, i, FL.LiveUnits);
  }

  lemma CloseLot(r: Range, n: nat, cursor: nat)
    requires r.kind.Pooled? && r.start <= r.end && n <= r.end - r.start && cursor <= r.end - n
    ensures LotAt(r.(end := r.end - n), cursor) == LotAt(r, cursor).(live := LotAt(r, cursor).live - n)
  {
  }

  lemma ClosePieces(s: Shape, i: nat, n: nat, closed: seq<Interval>, now: nat)
    requires Good(s) && i < |s.ranges| && s.ranges[i].kind.Pooled?
    requires 0 < n <= s.ranges[i].end - s.ranges[i].start && s.cursor <= s.ranges[i].end - n
    requires n <= s.underlying && n <= s.supply
    requires TombstoneAdded(s.closed, closed, s.cursor, s.total, s.ranges[i].end - n, s.ranges[i].end)
    ensures var s' := AfterClose(s, i, n, closed, now);
            && Tiled(s'.ranges, s'.total, s'.cursor, s'.closed, s'.pending) && SpreadsAhead(s'.ranges, s'.cursor)
            && s'.spreads == SpreadsOf(s'.ranges) && EscrowsMatch(s'.ranges, s'.escrows)
            && (GoneIsEmpty(s.ranges) ==> GoneIsEmpty(s'.ranges))
            && var lots := LotsAt(s.ranges, s.cursor);
               LotsAt(s'.ranges, s.cursor) == lots[i := lots[i].(live := lots[i].live - n)]
  {
    hide Tiled, SpreadsAhead, SpreadsOf, GoneIsEmpty, EscrowsMatch, Ordered, FL.Invariant, TombstoneAdded, Overlap;
    var r := s.ranges[i].(end := s.ranges[i].end - n);
    GoodParts(s);
    CloseLot(s.ranges[i], n, s.cursor);
    CloseTiles(s.ranges, s.total, s.cursor, s.closed, s.pending, i, r, closed);
    ReplaceParts(s.ranges, s.cursor, i, r);
    SpreadsUnchanged(s.ranges, i, r);
    EscrowsKept(s.ranges, s.escrows, i, r);
  }

  lemma CloseStep(s: Shape, i: nat, n: nat, closed: seq<Interval>, now: nat)
    requires Good(s) && s.clock <= now < s.terms.expiry && i < |s.ranges| && s.ranges[i].kind.Pooled?
    requires 0 < n <= s.ranges[i].end - s.ranges[i].start && s.cursor <= s.ranges[i].end - n
    requires n <= s.underlying && n <= s.supply
    requires TombstoneAdded(s.closed, closed, s.cursor, s.total, s.ranges[i].end - n, s.ranges[i].end)
    ensures Steps(s, now, FL.CloseOffset(i, n), AfterClose(s, i, n, closed, now))
  {
    hide Tiled, SpreadsAhead, SpreadsOf, GoneIsEmpty, EscrowsMatch, Ordered, FL.Invariant, TombstoneAdded, LotsAt;
    GoodParts(s);
    CloseIsCovered(s, i, n);
    ClosePieces(s, i, n, closed, now);
    Assemble(s, now, FL.CloseOffset(i, n), AfterClose(s, i, n, closed, now));
  }

  function Without(spreads: seq<Interval>, k: nat): seq<Interval>
    requires k < |spreads|
  {
    spreads[..k] + spreads[k + 1..]
  }

  function AfterCloseSpread(s: Shape, i: nat, k: nat, closed: seq<Interval>, now: nat): Shape
    requires i < |s.ranges| && k < |s.spreads|
    requires 0 <= s.ranges[i].end - s.ranges[i].start <= s.supply
  {
    var n := s.ranges[i].end - s.ranges[i].start;
    s.(ranges := s.ranges[i := Range(s.ranges[i].start, s.ranges[i].start, FL.Gone)], closed := closed,
       pending := s.pending + n, supply := s.supply - n, spreads := Without(s.spreads, k),
       escrows := s.escrows - {s.ranges[i].start}, clock := now)
  }

  lemma SpreadLot(s: Shape, i: nat)
    requires Good(s) && i < |s.ranges| && s.ranges[i].kind.Escrowed?
    ensures s.ranges[i].start < s.ranges[i].end
    ensures LotAt(s.ranges[i], s.cursor) == FL.Lot(s.ranges[i].end - s.ranges[i].start, 0, FL.Escrowed)
    ensures LotAt(s.ranges[i].(kind := FL.Pooled), s.cursor)
            == FL.Lot(s.ranges[i].end - s.ranges[i].start, 0, FL.Pooled)
  {
  }

  lemma EscrowsKept(rs: seq<Range>, escrows: map<nat, nat>, i: nat, r: Range)
    requires EscrowsMatch(rs, escrows) && i < |rs| && !r.kind.Escrowed?
    ensures EscrowsMatch(rs[i := r], escrows)
  {
  }

  /** Before expiry every live unit's coin is still in circulation. */
  lemma SpreadIsInSupply(s: Shape, i: nat)
    requires Good(s) && s.clock < s.terms.expiry && i < |s.ranges| && s.ranges[i].kind.Escrowed?
    ensures LotAt(s.ranges[i], s.cursor) == FL.Lot(s.ranges[i].end - s.ranges[i].start, 0, FL.Escrowed)
    ensures 0 < s.ranges[i].end - s.ranges[i].start <= s.supply
  {
    FL.LotWithinSum(LotsAt(s.ranges, s.cursor), i, FL.LiveUnits);
  }

  lemma EscrowsWithout(rs: seq<Range>, escrows: map<nat, nat>, i: nat, r: Range)
    requires Ordered(rs) && EscrowsMatch(rs, escrows) && i < |rs| && !r.kind.Escrowed?
    ensures EscrowsMatch(rs[i := r], escrows - {rs[i].start})
  {
    forall j | 0 <= j < |rs| && j != i ensures rs[j].start != rs[i].start {
      assert j < i || i < j;
    }
  }

  lemma CloseSpreadStep(s: Shape, i: nat, k: nat, closed: seq<Interval>, now: nat)
    requires Good(s) && s.clock <= now < s.terms.expiry && i < |s.ranges| && s.ranges[i].kind.Escrowed?
    requires k < |s.spreads| && s.spreads[k].start == s.ranges[i].start
    requires 0 < s.ranges[i].end - s.ranges[i].start <= s.supply
    requires TombstoneAdded(s.closed, closed, s.cursor, s.total, s.ranges[i].start, s.ranges[i].end)
    ensures Steps(s, now, FL.CloseSpread(i), AfterCloseSpread(s, i, k, closed, now))
  {
    hide Tiled, SpreadsAhead, SpreadsOf, GoneIsEmpty, EscrowsMatch, Ordered, FL.Invariant, TombstoneAdded, LotsAt;
    GoodParts(s);
    SpreadIsInSupply(s, i);
    CloseSpreadPieces(s, i, k, closed, now);
    Assemble(s, now, FL.CloseSpread(i), AfterCloseSpread(s, i, k, closed, now));
  }

  lemma CloseSpreadPieces(s: Shape, i: nat, k: nat, closed: seq<Interval>, now: nat)
    requires Good(s) && i < |s.ranges| && s.ranges[i].kind.Escrowed?
    requires k < |s.spreads| && s.spreads[k].start == s.ranges[i].start
    requires 0 < s.ranges[i].end - s.ranges[i].start <= s.supply
    requires TombstoneAdded(s.closed, closed, s.cursor, s.total, s.ranges[i].start, s.ranges[i].end)
    ensures var s' := AfterCloseSpread(s, i, k, closed, now);
            && Tiled(s'.ranges, s'.total, s'.cursor, s'.closed, s'.pending) && SpreadsAhead(s'.ranges, s'.cursor)
            && s'.spreads == SpreadsOf(s'.ranges) && EscrowsMatch(s'.ranges, s'.escrows)
            && (GoneIsEmpty(s.ranges) ==> GoneIsEmpty(s'.ranges))
            && LotsAt(s'.ranges, s.cursor) == LotsAt(s.ranges, s.cursor)[i := FL.Lot(0, 0, FL.Gone)]
  {
    hide Tiled, SpreadsAhead, SpreadsOf, GoneIsEmpty, EscrowsMatch, Ordered, FL.Invariant, TombstoneAdded, Overlap;
    var r := Range(s.ranges[i].start, s.ranges[i].start, FL.Gone);
    GoodParts(s);
    SpreadIsAhead(s, i);
    CloseTiles(s.ranges, s.total, s.cursor, s.closed, s.pending, i, r, closed);
    ReplaceParts(s.ranges, s.cursor, i, r);
    SpreadRemoved(s.ranges, i, r, k);
    EscrowsWithout(s.ranges, s.escrows, i, r);
  }

  /** The cursor has not reached a spread. */
  lemma SpreadIsAhead(s: Shape, i: nat)
    requires Good(s) && i < |s.ranges| && s.ranges[i].kind.Escrowed?
    ensures s.cursor <= s.ranges[i].start
  {
  }

  function AfterUnwind(s: Shape, i: nat, k: nat, now: nat): Shape
    requires i < |s.ranges| && k < |s.spreads| && s.ranges[i].start <= s.ranges[i].end
  {
    s.(ranges := s.ranges[i := s.ranges[i].(kind := FL.Pooled)], spreads := Without(s.spreads, k),
       escrows := s.escrows - {s.ranges[i].start},
       underlying := s.underlying + (s.ranges[i].end - s.ranges[i].start), clock := now)
  }

  lemma UnwindStep(s: Shape, i: nat, k: nat, now: nat)
    requires Good(s) && s.clock <= now && i < |s.ranges| && s.ranges[i].kind.Escrowed?
    requires k < |s.spreads| && s.spreads[k].start == s.ranges[i].start
    ensures Steps(s, now, FL.UnwindSpread(i), AfterUnwind(s, i, k, now))
  {
    hide Tiled, SpreadsAhead, SpreadsOf, GoneIsEmpty, EscrowsMatch, Ordered, FL.Invariant, TombstoneAdded;
    var r := s.ranges[i].(kind := FL.Pooled);
    GoodParts(s);
    SpreadLot(s, i);
    KindTiles(s.ranges, s.total, s.cursor, s.closed, s.pending, i, FL.Pooled);
    ReplaceParts(s.ranges, s.cursor, i, r);
    SpreadRemoved(s.ranges, i, r, k);
    EscrowsWithout(s.ranges, s.escrows, i, r);
    Assemble(s, now, FL.UnwindSpread(i), AfterUnwind(s, i, k, now));
  }

  function AfterRedeem(s: Shape, i: nat, paid: nat, now: nat): Shape
    requires i < |s.ranges| && s.ranges[i].start <= s.ranges[i].end
    requires LotAt(s.ranges[i], s.cursor).live <= s.underlying && paid <= s.settlement
  {
    s.(ranges := s.ranges[i := s.ranges[i].(kind := FL.Gone)],
       underlying := s.underlying - LotAt(s.ranges[i], s.cursor).live, settlement := s.settlement - paid, clock := now)
  }

  /** The pool always holds a redeemer's unexercised underlying. */
  lemma RedeemIsCovered(s: Shape, i: nat)
    requires Good(s) && i < |s.ranges| && s.ranges[i].kind.Pooled?
    ensures LotAt(s.ranges[i], s.cursor).live <= s.underlying
  {
    FL.LotWithinSum(LotsAt(s.ranges, s.cursor), i, FL.PooledUnits);
  }

  lemma RedeemStep(s: Shape, i: nat, paid: nat, now: nat)
    requires Good(s) && s.clock <= now && s.terms.expiry <= now && i < |s.ranges| && s.ranges[i].kind.Pooled?
    requires LotAt(s.ranges[i], s.cursor).live <= s.underlying
    requires paid <= s.settlement
    requires paid == Payment(Overlap(s.ranges[i].start, s.ranges[i].end, s.cursor), s.terms.strike, s.terms.scale)
    ensures Steps(s, now, FL.Redeem(i), AfterRedeem(s, i, paid, now))
  {
    hide Tiled, SpreadsAhead, SpreadsOf, GoneIsEmpty, EscrowsMatch, Ordered, FL.Invariant, TombstoneAdded;
    var r := s.ranges[i].(kind := FL.Gone);
    GoodParts(s);
    KindTiles(s.ranges, s.total, s.cursor, s.closed, s.pending, i, FL.Gone);
    ReplaceParts(s.ranges, s.cursor, i, r);
    SpreadsUnchanged(s.ranges, i, r);
    EscrowsKept(s.ranges, s.escrows, i, r);
    Assemble(s, now, FL.Redeem(i), AfterRedeem(s, i, paid, now));
  }

  function AfterRedeemSpread(s: Shape, i: nat, k: nat, now: nat): Shape
    requires i < |s.ranges| && k < |s.spreads|
  {
    s.(ranges := s.ranges[i := s.ranges[i].(kind := FL.Gone)], spreads := Without(s.spreads, k),
       escrows := s.escrows - {s.ranges[i].start}, clock := now)
  }

  lemma RedeemSpreadStep(s: Shape, i: nat, k: nat, now: nat)
    requires Good(s) && s.clock <= now && s.terms.expiry <= now && i < |s.ranges| && s.ranges[i].kind.Escrowed?
    requires k < |s.spreads| && s.spreads[k].start == s.ranges[i].start
    ensures Steps(s, now, FL.RedeemSpread(i), AfterRedeemSpread(s, i, k, now))
  {
    hide Tiled, SpreadsAhead, SpreadsOf, GoneIsEmpty, EscrowsMatch, Ordered, FL.Invariant, TombstoneAdded;
    var r := s.ranges[i].(kind := FL.Gone);
    GoodParts(s);
    KindTiles(s.ranges, s.total, s.cursor, s.closed, s.pending, i, FL.Gone);
    ReplaceParts(s.ranges, s.cursor, i, r);
    SpreadRemoved(s.ranges, i, r, k);
    EscrowsWithout(s.ranges, s.escrows, i, r);
    Assemble(s, now, FL.RedeemSpread(i), AfterRedeemSpread(s, i, k, now));
  }

  lemma BurnStep(s: Shape, n: nat, now: nat)
    requires Good(s) && s.clock <= now && s.terms.expiry <= now && n <= s.supply
    ensures Steps(s, now, FL.BurnExpired(n), s.(supply := s.supply - n, clock := now))
  {
    FL.StepKeepsInvariant(s.terms, LedgerOf(s).(clock := now), FL.BurnExpired(n));
  }
}
