/** The number line of a call bucket: write ranges, the exercise cursor,
    tombstones of offset closures and blocked spread ranges
    (contracts/core/sources/bucket.move, "queue-walk internals").

    `CursorIsFifo` is the law the design rests on: moving the cursor over `n`
    live units assigns them exactly as the lot-by-lot reference ledger does. */
module WriteQueue {
  import opened FifoLedger

  datatype Interval = Interval(start: nat, end: nat)

  /** A write's range and what became of it. */
  datatype Range = Range(start: nat, end: nat, kind: Kind)

  // ----- redemption view of one range -----

  /** Exercised units of a range, as `redeem_position` computes them. */
  function Overlap(start: nat, end: nat, cursor: nat): (n: nat)
    requires start <= end
    ensures n <= end - start
  {
    if cursor <= start then 0 else if cursor >= end then end - start else cursor - start
  }

  function LotAt(r: Range, cursor: nat): Lot
    requires r.start <= r.end
  {
    if r.kind.Gone? then Lot(0, 0, Gone)
    else var x := Overlap(r.start, r.end, cursor); Lot(r.end - r.start - x, x, r.kind)
  }

  ghost predicate Ordered(rs: seq<Range>) {
    && (forall i :: 0 <= i < |rs| ==> rs[i].start <= rs[i].end)
    && (forall i, j :: 0 <= i < j < |rs| ==> rs[i].end <= rs[j].start && rs[i].start < rs[j].start)
  }

  function LotsAt(rs: seq<Range>, cursor: nat): (lots: seq<Lot>)
    requires forall i :: 0 <= i < |rs| ==> rs[i].start <= rs[i].end
    ensures |lots| == |rs|
    ensures forall i :: 0 <= i < |rs| ==> lots[i] == LotAt(rs[i], cursor)
  {
    if rs == [] then [] else [LotAt(rs[0], cursor)] + LotsAt(rs[1..], cursor)
  }

  // ----- counting live units -----

  /** Units of all ranges at or beyond the cursor. */
  function Remaining(rs: seq<Range>, cursor: nat): nat
    requires forall i :: 0 <= i < |rs| ==> rs[i].start <= rs[i].end
  {
    if rs == [] then 0
    else rs[0].end - rs[0].start - Overlap(rs[0].start, rs[0].end, cursor) + Remaining(rs[1..], cursor)
  }

  ghost predicate Covered(rs: seq<Range>, u: nat) {
    exists i :: 0 <= i < |rs| && rs[i].start <= u < rs[i].end
  }

  lemma CoveredPeel(rs: seq<Range>, u: nat)
    requires rs != []
    ensures Covered(rs, u) <==> rs[0].start <= u < rs[0].end || Covered(rs[1..], u)
  {
    if Covered(rs[1..], u) {
      var i :| 0 <= i < |rs[1..]| && rs[1..][i].start <= u < rs[1..][i].end;
      assert rs[i + 1] == rs[1..][i];
    }
    if Covered(rs, u) {
      var i :| 0 <= i < |rs| && rs[i].start <= u < rs[i].end;
      assert i > 0 ==> rs[1..][i - 1] == rs[i];
    }
  }

  lemma RangesApart(rs: seq<Range>, u: nat)
    requires Ordered(rs) && rs != [] && rs[0].start <= u < rs[0].end
    ensures !Covered(rs[1..], u)
  {
    assert forall i :: 0 <= i < |rs| - 1 ==> rs[1..][i] == rs[i + 1];
  }

  lemma {:induction false} RemainingStep(rs: seq<Range>, u: nat)
    requires Ordered(rs)
    ensures Remaining(rs, u) == Remaining(rs, u + 1) + if Covered(rs, u) then 1 else 0
  {
    if rs != [] {
      CoveredPeel(rs, u);
      if rs[0].start <= u < rs[0].end { RangesApart(rs, u); }
      hide Covered;
      RemainingStep(rs[1..], u);
    }
  }

  lemma {:induction false} RemainingOverCovered(rs: seq<Range>, a: nat, b: nat)
    requires Ordered(rs) && a <= b
    requires forall u :: a <= u < b ==> Covered(rs, u)
    ensures Remaining(rs, a) == Remaining(rs, b) + (b - a)
    decreases b - a
  {
    if a < b {
      RemainingStep(rs, a);
      RemainingOverCovered(rs, a + 1, b);
    }
  }

  lemma {:induction false} RemainingOverGap(rs: seq<Range>, a: nat, b: nat)
    requires Ordered(rs) && a <= b
    requires forall u :: a <= u < b ==> !Covered(rs, u)
    ensures Remaining(rs, a) == Remaining(rs, b)
    decreases b - a
  {
    if a < b {
      RemainingStep(rs, a);
      RemainingOverGap(rs, a + 1, b);
    }
  }

  lemma {:induction false} RemainingAppend(rs: seq<Range>, r: Range, cursor: nat)
    requires Ordered(rs + [r]) && Ordered(rs) && r.start <= r.end
    ensures Remaining(rs + [r], cursor) == Remaining(rs, cursor) + (r.end - r.start - Overlap(r.start, r.end, cursor))
  {
    if rs != [] {
      assert (rs + [r])[1..] == rs[1..] + [r];
      RemainingAppend(rs[1..], r, cursor);
    }
  }

  lemma {:induction false} RemainingReplace(rs: seq<Range>, i: nat, r: Range, cursor: nat)
    requires i < |rs| && Ordered(rs) && r.start <= r.end
    ensures Remaining(rs[i := r], cursor) + (rs[i].end - rs[i].start - Overlap(rs[i].start, rs[i].end, cursor)) ==
            Remaining(rs, cursor) + (r.end - r.start - Overlap(r.start, r.end, cursor))
  {
    if i > 0 {
      assert rs[i := r][1..] == rs[1..][i - 1 := r];
      RemainingReplace(rs[1..], i - 1, r, cursor);
    } else {
      assert rs[i := r][1..] == rs[1..];
    }
  }

  /** Nothing remains of ranges that all end by the cursor. */
  lemma {:induction false} RemainingOfPast(rs: seq<Range>, cursor: nat)
    requires Ordered(rs) && forall i :: 0 <= i < |rs| ==> rs[i].end <= cursor
    ensures Remaining(rs, cursor) == 0
  {
    if rs != [] {
      RemainingOfPast(rs[1..], cursor);
    }
  }

  ghost predicate GoneIsEmpty(rs: seq<Range>) {
    forall i :: 0 <= i < |rs| && rs[i].kind.Gone? ==> rs[i].start == rs[i].end
  }

  lemma {:induction false} RemainingIsLive(rs: seq<Range>, cursor: nat)
    requires Ordered(rs) && GoneIsEmpty(rs)
    ensures Sum(LotsAt(rs, cursor), LiveUnits) == Remaining(rs, cursor)
  {
    if rs != [] {
      assert LotsAt(rs, cursor)[1..] == LotsAt(rs[1..], cursor);
      RemainingIsLive(rs[1..], cursor);
    }
  }

  // ----- the cursor is FIFO assignment -----

  lemma {:induction false} UntouchedBeyond(rs: seq<Range>, c: nat, d: nat)
    requires Ordered(rs) && c <= d
    requires forall i :: 0 <= i < |rs| ==> d <= rs[i].start
    ensures LotsAt(rs, c) == LotsAt(rs, d)
    ensures Remaining(rs, c) == Remaining(rs, d)
  {
    assert forall i :: 0 <= i < |rs| ==> LotAt(rs[i], c) == LotAt(rs[i], d);
    RemainingOverGap(rs, c, d);
  }

  lemma AssignInsideFirst(first: Lot, rest: seq<Lot>, n: nat)
    requires n <= first.live && (n > 0 ==> !first.kind.Escrowed?)
    ensures n <= Reachable([first] + rest)
    ensures Assign([first] + rest, n) == [Lot(first.live - n, first.exercised + n, first.kind)] + rest
  {
    assert ([first] + rest)[1..] == rest;
    assert n > 0 ==> Assign(rest, 0) == rest;
  }

  lemma AssignPastFirst(first: Lot, rest: seq<Lot>, k: nat)
    requires !first.kind.Escrowed? && k <= Reachable(rest)
    ensures first.live + k <= Reachable([first] + rest)
    ensures Assign([first] + rest, first.live + k) ==
            [Lot(0, first.exercised + first.live, first.kind)] + Assign(rest, k)
  {
    assert ([first] + rest)[1..] == rest;
  }

  /** Peel the oldest write off the queue. */
  lemma PeelFirst(rs: seq<Range>, c: nat)
    requires Ordered(rs) && GoneIsEmpty(rs) && rs != []
    ensures Ordered(rs[1..]) && GoneIsEmpty(rs[1..])
    ensures LotsAt(rs, c) == [LotAt(rs[0], c)] + LotsAt(rs[1..], c)
    ensures Remaining(rs, c) == LotAt(rs[0], c).live + Remaining(rs[1..], c)
  {
  }

  /** A range gives up live units only by having them exercised. */
  lemma LotMoves(r: Range, c: nat, d: nat)
    requires r.start <= r.end && c <= d
    requires r.kind.Escrowed? ==> d <= r.start
    ensures var a, b := LotAt(r, c), LotAt(r, d);
            && b.live <= a.live && b.kind == a.kind
            && b.exercised == a.exercised + (a.live - b.live)
            && (a.kind.Escrowed? ==> a == b)
            && (r.end <= d && !r.kind.Escrowed? ==> b.live == 0)
  {
  }

  lemma RestUntouched(rs: seq<Range>, c: nat, d: nat)
    requires Ordered(rs) && c <= d && rs != [] && d <= rs[0].end
    ensures Ordered(rs[1..])
    ensures LotsAt(rs[1..], c) == LotsAt(rs[1..], d)
    ensures Remaining(rs[1..], c) == Remaining(rs[1..], d)
  {
    var rest := rs[1..];
    assert forall i :: 0 <= i < |rest| ==> rest[i] == rs[i + 1];
    UntouchedBeyond(rest, c, d);
  }

  /** Moving the cursor from `c` to `d` without entering an escrowed range
      assigns the live units passed over first in, first out. */
  lemma {:induction false} CursorIsFifo(rs: seq<Range>, c: nat, d: nat)
    requires Ordered(rs) && GoneIsEmpty(rs) && c <= d
    requires forall i :: 0 <= i < |rs| && rs[i].kind.Escrowed? ==> d <= rs[i].start
    ensures Remaining(rs, d) <= Remaining(rs, c)
    ensures Remaining(rs, c) - Remaining(rs, d) <= Reachable(LotsAt(rs, c))
    ensures Assign(LotsAt(rs, c), Remaining(rs, c) - Remaining(rs, d)) == LotsAt(rs, d)
  {
    if rs != [] {
      var rest := rs[1..];
      var before, after := LotAt(rs[0], c), LotAt(rs[0], d);
      PeelFirst(rs, c);
      PeelFirst(rs, d);
      LotMoves(rs[0], c, d);
      hide LotAt, LotsAt, Remaining, GoneIsEmpty, Reachable, Assign;
      if d < rs[0].end || rs[0].kind.Escrowed? {
        // The cursor stops inside or before this range: no later lot is touched.
        RestUntouched(rs, c, d);
        AssignInsideFirst(before, LotsAt(rest, c), before.live - after.live);
      } else {
        CursorIsFifo(rest, c, d);
        AssignPastFirst(before, LotsAt(rest, c), Remaining(rest, c) - Remaining(rest, d));
      }
    }
  }

  /** The units ahead of the first escrowed range are the reachable ones. */
  lemma {:induction false} ReachableUpTo(rs: seq<Range>, c: nat, k: nat)
    requires Ordered(rs) && GoneIsEmpty(rs) && k < |rs|
    requires rs[k].kind.Escrowed? && c <= rs[k].start
    requires forall i :: 0 <= i < k ==> !rs[i].kind.Escrowed?
    ensures Remaining(rs, c) == Reachable(LotsAt(rs, c)) + Remaining(rs, rs[k].start)
  {
    assert LotsAt(rs, c)[1..] == LotsAt(rs[1..], c);
    if k == 0 {
      UntouchedBeyond(rs, c, rs[0].start);
    } else {
      ReachableUpTo(rs[1..], c, k - 1);
    }
  }

  lemma {:induction false} ReachableWithoutSpreads(rs: seq<Range>, c: nat)
    requires Ordered(rs) && GoneIsEmpty(rs)
    requires forall i :: 0 <= i < |rs| ==> !rs[i].kind.Escrowed?
    ensures Remaining(rs, c) == Reachable(LotsAt(rs, c))
  {
    if rs != [] {
      assert LotsAt(rs, c)[1..] == LotsAt(rs[1..], c);
      ReachableWithoutSpreads(rs[1..], c);
    }
  }
}
