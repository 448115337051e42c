/** The bucket's queue-walk routines: inserting a tombstone, looking up spread
    ranges and advancing the cursor (contracts/core/sources/bucket.move, lines
    1002-1085).  Each loop is proved against the number line of `WriteQueue`. */
module QueueWalk {
  import opened FifoLedger
  import opened WriteQueue

  // ----- tombstones -----

  /** Ascending non-empty intervals within `[lo, hi)`, no two of them touching. */
  predicate Separated(closed: seq<Interval>, lo: nat, hi: nat) {
    closed == [] ||
    (lo <= closed[0].start < closed[0].end <= hi && Separated(closed[1..], closed[0].end + 1, hi))
  }

  predicate InClosed(closed: seq<Interval>, u: nat) {
    closed != [] && (closed[0].start <= u < closed[0].end || InClosed(closed[1..], u))
  }

  function Length(closed: seq<Interval>): nat {
    if closed == [] || closed[0].end < closed[0].start then 0
    else closed[0].end - closed[0].start + Length(closed[1..])
  }

  lemma {:induction false} ClosedWithin(closed: seq<Interval>, lo: nat, hi: nat, u: nat)
    requires Separated(closed, lo, hi) && InClosed(closed, u)
    ensures lo <= u < hi
  {
    if !(closed[0].start <= u < closed[0].end) {
      ClosedWithin(closed[1..], closed[0].end + 1, hi, u);
    }
  }

  /** Where a tombstone goes, one interval at a time. */
  function Inserted(closed: seq<Interval>, start: nat, end: nat): seq<Interval> {
    if closed == [] then [Interval(start, end)]
    else if closed[0].start < start then
      if closed[0].end == start then Inserted(closed[1..], closed[0].start, end)
      else [closed[0]] + Inserted(closed[1..], start, end)
    else if end == closed[0].start then [Interval(start, closed[0].end)] + closed[1..]
    else [Interval(start, end)] + closed
  }

  ghost predicate Fits(closed: seq<Interval>, lo: nat, hi: nat, start: nat, end: nat) {
    && Separated(closed, lo, hi) && lo <= start < end <= hi
    && forall u: nat :: start <= u < end ==> !InClosed(closed, u)
  }

  /** An interval that fits lies wholly before or wholly after the first tombstone. */
  lemma FitsBeside(closed: seq<Interval>, lo: nat, hi: nat, start: nat, end: nat)
    requires Fits(closed, lo, hi, start, end) && closed != []
    ensures closed[0].start < start ==> closed[0].end <= start
    ensures closed[0].start >= start ==> end <= closed[0].start
    ensures closed[0].end < start ==> Fits(closed[1..], closed[0].end + 1, hi, start, end)
    ensures closed[0].end == start ==> forall u: nat :: closed[0].start <= u < end ==> !InClosed(closed[1..], u)
  {
    assert InClosed(closed, closed[0].start);
    assert closed[0].start < start < closed[0].end ==> InClosed(closed, start);
    forall u: nat | InClosed(closed[1..], u)
      ensures InClosed(closed, u) && closed[0].end < u
    {
      ClosedWithin(closed[1..], closed[0].end + 1, hi, u);
    }
  }

  lemma LowerStart(closed: seq<Interval>, lo: nat, lower: nat, hi: nat)
    requires Separated(closed, lo, hi) && lower <= lo
    ensures Separated(closed, lower, hi)
  {
  }

  lemma {:induction false} InsertedProperties(closed: seq<Interval>, lo: nat, hi: nat, start: nat, end: nat)
    requires Fits(closed, lo, hi, start, end)
    ensures Separated(Inserted(closed, start, end), lo, hi)
    ensures Length(Inserted(closed, start, end)) == Length(closed) + (end - start)
    decreases |closed|
  {
    if closed != [] {
      FitsBeside(closed, lo, hi, start, end);
      var c, rest := closed[0], closed[1..];
      if c.start < start && c.end == start {
        LowerStart(rest, c.end + 1, c.start, hi);
        InsertedProperties(rest, c.start, hi, c.start, end);
      } else if c.start < start {
        InsertedProperties(rest, c.end + 1, hi, start, end);
        assert Inserted(closed, start, end)[1..] == Inserted(rest, start, end);
      } else if end == c.start {
        assert Inserted(closed, start, end)[1..] == rest;
      } else {
        assert Inserted(closed, start, end)[1..] == closed;
      }
    }
  }

  lemma {:induction false} InsertedMembers(closed: seq<Interval>, lo: nat, hi: nat, start: nat, end: nat, u: nat)
    requires Fits(closed, lo, hi, start, end)
    ensures InClosed(Inserted(closed, start, end), u) <==> InClosed(closed, u) || start <= u < end
    decreases |closed|
  {
    if closed == [] {
      assert [Interval(start, end)][1..] == [];
    } else {
      FitsBeside(closed, lo, hi, start, end);
      var c, rest := closed[0], closed[1..];
      if c.start < start && c.end == start {
        LowerStart(rest, c.end + 1, c.start, hi);
        InsertedMembers(rest, c.start, hi, c.start, end, u);
      } else if c.start < start {
        InsertedMembers(rest, c.end + 1, hi, start, end, u);
        assert Inserted(closed, start, end)[1..] == Inserted(rest, start, end);
      } else if end == c.start {
        assert Inserted(closed, start, end)[1..] == rest;
      } else {
        assert Inserted(closed, start, end)[1..] == closed;
      }
    }
  }

  /** Merge interval `i` with its right neighbour, if they touch. */
  function MergeRight(r: seq<Interval>, i: nat): seq<Interval> {
    if i + 1 < |r| && r[i].end == r[i + 1].start
    then r[..i] + [Interval(r[i].start, r[i + 1].end)] + r[i + 2..] else r
  }

  /** Merge interval `i` into its left neighbour, if they touch. */
  function MergeLeft(r: seq<Interval>, i: nat): seq<Interval> {
    if 0 < i < |r| && r[i - 1].end == r[i].start
    then r[..i - 1] + [Interval(r[i - 1].start, r[i].end)] + r[i + 1..] else r
  }

  function PlacedAt(closed: seq<Interval>, i: nat, x: Interval): seq<Interval>
    requires i <= |closed|
  {
    closed[..i] + [x] + closed[i..]
  }

  lemma PeelMergeRight(c: Interval, r: seq<Interval>, i: nat)
    ensures MergeRight([c] + r, i + 1) == [c] + MergeRight(r, i)
  {
    if i + 1 < |r| {
      PeelSlices(c, r, i + 1);
      PrependAll(c, r[..i], [Interval(r[i].start, r[i + 1].end)], r[i + 2..]);
    }
  }

  lemma PeelMergeLeft(c: Interval, r: seq<Interval>, i: nat)
    requires 0 < i
    ensures MergeLeft([c] + r, i + 1) == [c] + MergeLeft(r, i)
  {
    if i < |r| {
      PeelSlices(c, r, i);
      PrependAll(c, r[..i - 1], [Interval(r[i - 1].start, r[i].end)], r[i + 1..]);
    }
  }

  lemma PeelSlices(c: Interval, r: seq<Interval>, i: nat)
    requires 0 < i < |r|
    ensures var s := [c] + r; |s| == |r| + 1 && s[i + 1] == r[i] && s[i] == r[i - 1]
    ensures var s := [c] + r; s[..i] == [c] + r[..i - 1] && s[i + 2..] == r[i + 1..]
  {
  }

  lemma PrependAll(c: Interval, x: seq<Interval>, y: seq<Interval>, z: seq<Interval>)
    ensures [c] + x + y + z == [c] + (x + y + z)
  {
  }

  lemma MergeAtFront(closed: seq<Interval>, start: nat, end: nat)
    requires closed != [] ==> start <= closed[0].start
    ensures MergeRight([Interval(start, end)] + closed, 0) == Inserted(closed, start, end)
  {
  }

  lemma MergeAtSecond(c: Interval, r: seq<Interval>)
    requires r != []
    ensures MergeLeft([c] + r, 1) == if c.end == r[0].start then [Interval(c.start, r[0].end)] + r[1..] else [c] + r
  {
    assert ([c] + r)[2..] == r[1..];
  }

  lemma InsertedMergesLeft(c: Interval, rest: seq<Interval>, start: nat, end: nat)
    requires c.end == start && c.start < start
    requires rest != [] ==> start < rest[0].start
    ensures Inserted([c] + rest, start, end) == MergeLeft([c] + MergeRight([Interval(start, end)] + rest, 0), 1)
  {
    assert ([c] + rest)[1..] == rest;
    var r := MergeRight([Interval(start, end)] + rest, 0);
    MergeAtFront(rest, start, end);
    MergeAtFront(rest, c.start, end);
    MergeAtSecond(c, r);
    assert r[1..] == MergeRight([Interval(c.start, end)] + rest, 0)[1..];
  }

  function Merged(closed: seq<Interval>, i: nat, start: nat, end: nat): seq<Interval>
    requires i <= |closed|
  {
    MergeLeft(MergeRight(PlacedAt(closed, i, Interval(start, end)), i), i)
  }

  lemma MergedTouchingFirst(c: Interval, rest: seq<Interval>, start: nat, end: nat)
    requires c.start < c.end == start && (rest != [] ==> start < rest[0].start)
    ensures Merged([c] + rest, 1, start, end) == Inserted([c] + rest, start, end)
  {
    var x := Interval(start, end);
    assert PlacedAt([c] + rest, 1, x) == [c] + ([x] + rest);
    PeelMergeRight(c, [x] + rest, 0);
    InsertedMergesLeft(c, rest, start, end);
  }

  lemma MergedPastFirst(c: Interval, rest: seq<Interval>, i: nat, start: nat, end: nat)
    requires c.start < c.end < start && i <= |rest|
    requires Merged(rest, i, start, end) == Inserted(rest, start, end)
    ensures Merged([c] + rest, i + 1, start, end) == Inserted([c] + rest, start, end)
  {
    var x := Interval(start, end);
    var p := PlacedAt(rest, i, x);
    assert PlacedAt([c] + rest, i + 1, x) == [c] + p;
    PeelMergeRight(c, p, i);
    if i == 0 {
      assert p == [x] + rest;
      MergeAtSecond(c, MergeRight(p, 0));
    } else {
      PeelMergeLeft(c, MergeRight(p, i), i);
    }
    assert ([c] + rest)[1..] == rest;
  }

  lemma {:induction false} MergedIsInserted(closed: seq<Interval>, lo: nat, hi: nat, i: nat, start: nat, end: nat)
    requires Fits(closed, lo, hi, start, end) && i <= |closed|
    requires forall k :: 0 <= k < i ==> closed[k].start < start
    requires i < |closed| ==> closed[i].start >= start
    ensures Merged(closed, i, start, end) == Inserted(closed, start, end)
    decreases |closed|
  {
    if i == 0 {
      assert PlacedAt(closed, i, Interval(start, end)) == [Interval(start, end)] + closed;
      MergeAtFront(closed, start, end);
    } else {
      FitsBeside(closed, lo, hi, start, end);
      var c, rest := closed[0], closed[1..];
      assert closed == [c] + rest && Separated(rest, c.end + 1, hi);
      hide InClosed, Merged, Inserted, Fits;
      if c.end == start {
        assert rest != [] ==> rest[0] == closed[1];
        assert i == 1;
        MergedTouchingFirst(c, rest, start, end);
      } else {
        assert forall k :: 0 <= k < i - 1 ==> rest[k] == closed[k + 1];
        MergedIsInserted(rest, c.end + 1, hi, i - 1, start, end);
        MergedPastFirst(c, rest, i - 1, start, end);
      }
    }
  }

  /** Insert a tombstone, keep the list sorted and merge it with its neighbours. */
  method InsertClosed(closed: seq<Interval>, start: nat, end: nat, ghost lo: nat, ghost hi: nat)
    returns (r: seq<Interval>)
    requires Fits(closed, lo, hi, start, end)
    ensures Separated(r, lo, hi)
    ensures forall u: nat :: InClosed(r, u) <==> InClosed(closed, u) || start <= u < end
    ensures Length(r) == Length(closed) + (end - start)
  {
    var i := 0;
    while i < |closed| && closed[i].start < start
      invariant i <= |closed|
      invariant forall k :: 0 <= k < i ==> closed[k].start < start
    {
      i := i + 1;
    }
    r := closed[..i] + [Interval(start, end)] + closed[i..];
    MergedIsInserted(closed, lo, hi, i, start, end);
    if i + 1 < |r| && r[i].end == r[i + 1].start {
      r := r[..i] + [Interval(r[i].start, r[i + 1].end)] + r[i + 2..];
    }
    if i > 0 && r[i - 1].end == r[i].start {
      r := r[..i - 1] + [Interval(r[i - 1].start, r[i].end)] + r[i + 1..];
    }
    assert r == Inserted(closed, start, end);
    InsertedProperties(closed, lo, hi, start, end);
    forall u: nat ensures InClosed(r, u) <==> InClosed(closed, u) || start <= u < end {
      InsertedMembers(closed, lo, hi, start, end, u);
    }
  }

  // ----- spread ranges -----

  /** The spread ranges still backed by their escrow, in write order. */
  function SpreadsOf(rs: seq<Range>): seq<Interval> {
    if rs == [] then []
    else if rs[0].kind.Escrowed? then [Interval(rs[0].start, rs[0].end)] + SpreadsOf(rs[1..])
    else SpreadsOf(rs[1..])
  }

  lemma {:induction false} SpreadsAppend(a: seq<Range>, b: seq<Range>)
    ensures SpreadsOf(a + b) == SpreadsOf(a) + SpreadsOf(b)
  {
    if a == [] {
      assert a + b == b;
    } else {
      assert (a + b)[1..] == a[1..] + b;
      SpreadsAppend(a[1..], b);
    }
  }

  /** The spread at the head of the list is the first escrowed range. */
  lemma {:induction false} FirstSpread(rs: seq<Range>) returns (k: nat)
    ensures k <= |rs| && forall i :: 0 <= i < k ==> !rs[i].kind.Escrowed?
    ensures k == |rs| <==> SpreadsOf(rs) == []
    ensures k < |rs| ==> rs[k].kind.Escrowed? && SpreadsOf(rs)[0] == Interval(rs[k].start, rs[k].end)
  {
    if rs == [] || rs[0].kind.Escrowed? {
      k := 0;
    } else {
      var j := FirstSpread(rs[1..]);
      k := j + 1;
    }
  }

  method OverlapsSpread(spreads: seq<Interval>, start: nat, end: nat) returns (b: bool)
    ensures b <==> exists k :: 0 <= k < |spreads| && spreads[k].start < end && start < spreads[k].end
  {
    var i := 0;
    while i < |spreads|
      invariant i <= |spreads|
      invariant forall k :: 0 <= k < i ==> !(spreads[k].start < end && start < spreads[k].end)
    {
      if spreads[i].start < end && start < spreads[i].end {
        return true;
      }
      i := i + 1;
    }
    return false;
  }

  /** Index of the spread range that starts at `start`; `|spreads|` if none does. */
  method FindSpread(spreads: seq<Interval>, start: nat) returns (k: nat)
    ensures k <= |spreads|
    ensures k < |spreads| ==> spreads[k].start == start
    ensures k == |spreads| ==> forall i :: 0 <= i < |spreads| ==> spreads[i].start != start
  {
    k := 0;
    while k < |spreads|
      invariant k <= |spreads|
      invariant forall i :: 0 <= i < k ==> spreads[i].start != start
    {
      if spreads[k].start == start {
        return;
      }
      k := k + 1;
    }
  }

  // ----- the cursor -----

  /** Every unit from the cursor to the write front is either in a range or in a
      tombstone, and the pending count is the tombstones' total length. */
  ghost predicate Tiled(rs: seq<Range>, total: nat, cursor: nat, closed: seq<Interval>, pending: nat) {
    && Ordered(rs) && (forall i :: 0 <= i < |rs| ==> rs[i].start < total && rs[i].end <= total)
    && cursor <= total && Separated(closed, cursor, total)
    && pending == Length(closed)
    && Remaining(rs, cursor) + pending == total - cursor
    && forall u: nat :: cursor <= u < total ==> (Covered(rs, u) <==> !InClosed(closed, u))
  }

  ghost predicate SpreadsAhead(rs: seq<Range>, cursor: nat) {
    forall i :: 0 <= i < |rs| && rs[i].kind.Escrowed? ==> cursor <= rs[i].start < rs[i].end
  }

  lemma JumpTombstone(rs: seq<Range>, total: nat, cursor: nat, closed: seq<Interval>, pending: nat)
    requires Tiled(rs, total, cursor, closed, pending) && SpreadsAhead(rs, cursor)
    requires closed != [] && closed[0].start == cursor
    ensures pending >= closed[0].end - closed[0].start
    ensures Tiled(rs, total, closed[0].end, closed[1..], pending - (closed[0].end - closed[0].start))
    ensures SpreadsAhead(rs, closed[0].end)
    ensures Remaining(rs, closed[0].end) == Remaining(rs, cursor)
  {
    var d := closed[0].end;
    forall u: nat | cursor <= u < d ensures !Covered(rs, u) {
      assert InClosed(closed, u);
    }
    RemainingOverGap(rs, cursor, d);
    LowerStart(closed[1..], d + 1, d, total);
    forall i | 0 <= i < |rs| && rs[i].kind.Escrowed? ensures d <= rs[i].start {
      assert Covered(rs, rs[i].start);
    }
  }

  lemma StepOverLive(rs: seq<Range>, total: nat, cursor: nat, closed: seq<Interval>, pending: nat, d: nat)
    requires Tiled(rs, total, cursor, closed, pending)
    requires cursor <= d <= total && (closed != [] ==> d <= closed[0].start)
    ensures Tiled(rs, total, d, closed, pending)
    ensures Remaining(rs, cursor) == Remaining(rs, d) + (d - cursor)
  {
    forall u: nat | cursor <= u < d ensures Covered(rs, u) {
      if InClosed(closed, u) {
        LaterTombstones(closed, cursor, total, u);
      }
    }
    RemainingOverCovered(rs, cursor, d);
  }

  lemma LaterTombstones(closed: seq<Interval>, lo: nat, hi: nat, u: nat)
    requires Separated(closed, lo, hi) && InClosed(closed, u)
    ensures closed[0].start <= u
  {
    if !(closed[0].start <= u < closed[0].end) {
      ClosedWithin(closed[1..], closed[0].end + 1, hi, u);
    }
  }

  /** Eagerly consume the tombstones the cursor stopped flush against. */
  method SkipTombstones(cursor: nat, closed: seq<Interval>, pending: nat, ghost rs: seq<Range>, ghost total: nat)
    returns (cursor': nat, closed': seq<Interval>, pending': nat)
    requires Tiled(rs, total, cursor, closed, pending) && SpreadsAhead(rs, cursor)
    ensures cursor <= cursor' && Tiled(rs, total, cursor', closed', pending') && SpreadsAhead(rs, cursor')
    ensures Remaining(rs, cursor') == Remaining(rs, cursor)
    ensures closed' != [] ==> cursor' < closed'[0].start
  {
    cursor', closed', pending' := cursor, closed, pending;
    while closed' != [] && closed'[0].start == cursor'
      invariant cursor <= cursor'
      invariant Tiled(rs, total, cursor', closed', pending') && SpreadsAhead(rs, cursor')
      invariant Remaining(rs, cursor') == Remaining(rs, cursor)
      decreases |closed'|
    {
      JumpTombstone(rs, total, cursor', closed', pending');
      pending' := pending' - (closed'[0].end - closed'[0].start);
      cursor', closed' := closed'[0].end, closed'[1..];
    }
  }

  /** The reachable units are those between the cursor and the first spread. */
  lemma ReachableIsAheadOfSpreads(rs: seq<Range>, total: nat, cursor: nat, closed: seq<Interval>, pending: nat,
                                  front: nat)
    requires Tiled(rs, total, cursor, closed, pending) && GoneIsEmpty(rs) && SpreadsAhead(rs, cursor)
    requires front == if SpreadsOf(rs) == [] then total else SpreadsOf(rs)[0].start
    ensures cursor <= front <= total
    ensures Remaining(rs, cursor) == Reachable(LotsAt(rs, cursor)) + Remaining(rs, front)
  {
    var first := FirstSpread(rs);
    if first < |rs| {
      ReachableUpTo(rs, cursor, first);
    } else {
      ReachableWithoutSpreads(rs, cursor);
      RemainingOfPast(rs, total);
    }
  }

  lemma StillAhead(rs: seq<Range>, cursor: nat, d: nat)
    requires Ordered(rs) && SpreadsAhead(rs, cursor)
    requires SpreadsOf(rs) != [] ==> d <= SpreadsOf(rs)[0].start
    ensures SpreadsAhead(rs, d)
  {
    var first := FirstSpread(rs);
    forall i | 0 <= i < |rs| && rs[i].kind.Escrowed? ensures d <= rs[i].start {
      assert first <= i;
      assert first < i ==> rs[first].start < rs[i].start;
    }
  }

  lemma NextTombstone(rs: seq<Range>, total: nat, cursor: nat, closed: seq<Interval>, pending: nat)
    requires Tiled(rs, total, cursor, closed, pending)
    ensures Ordered(rs) && cursor <= total
    ensures closed != [] ==> cursor <= closed[0].start < closed[0].end <= total
  {
  }

  /** Advance the cursor over `amount` live units: jump tombstones, refuse to
      enter a spread range.  It goes through exactly when the units ahead of the
      first spread suffice, and then the ranges' lots are those of the first in,
      first out assignment. */
  method AdvanceCursor(cursor: nat, total: nat, closed: seq<Interval>, pending: nat, spreads: seq<Interval>,
                       amount: nat, ghost rs: seq<Range>)
    returns (ok: bool, cursor': nat, closed': seq<Interval>, pending': nat)
    requires Tiled(rs, total, cursor, closed, pending) && GoneIsEmpty(rs) && SpreadsAhead(rs, cursor)
    requires Ordered(rs) && spreads == SpreadsOf(rs)
    requires cursor + amount + pending <= total
    ensures ok <==> amount <= Reachable(LotsAt(rs, cursor))
    ensures ok ==> cursor <= cursor' && Tiled(rs, total, cursor', closed', pending') && SpreadsAhead(rs, cursor')
    ensures ok ==> LotsAt(rs, cursor') == Assign(LotsAt(rs, cursor), amount)
  {
    hide Tiled, SpreadsAhead, SpreadsOf, Remaining, Reachable, Assign, LotsAt, GoneIsEmpty;
    var remaining: nat := amount;
    var nextSpread := if spreads == [] then total else spreads[0].start;
    ReachableIsAheadOfSpreads(rs, total, cursor, closed, pending, nextSpread);
    cursor', closed', pending' := cursor, closed, pending;
    while remaining > 0
      invariant cursor <= cursor' && remaining <= amount
      invariant Tiled(rs, total, cursor', closed', pending') && SpreadsAhead(rs, cursor')
      invariant Remaining(rs, cursor) == Remaining(rs, cursor') + (amount - remaining)
      invariant cursor' + remaining + pending' <= total
      decreases remaining, |closed'|
    {
      NextTombstone(rs, total, cursor', closed', pending');
      if closed' != [] && closed'[0].start == cursor' {
        JumpTombstone(rs, total, cursor', closed', pending');
        pending' := pending' - (closed'[0].end - closed'[0].start);
        cursor', closed' := closed'[0].end, closed'[1..];
      } else {
        ReachableIsAheadOfSpreads(rs, total, cursor', closed', pending', nextSpread);
        var nextClosed := if closed' == [] then total else closed'[0].start;
        if cursor' >= nextSpread {
          return false, cursor', closed', pending';
        }
        var limit := if nextClosed < nextSpread then nextClosed else nextSpread;
        var step := if remaining < limit - cursor' then remaining else limit - cursor';
        StepOverLive(rs, total, cursor', closed', pending', cursor' + step);
        StillAhead(rs, cursor', cursor' + step);
        cursor', remaining := cursor' + step, remaining - step;
      }
    }
    cursor', closed', pending' := SkipTombstones(cursor', closed', pending', rs, total);
    CursorIsFifo(rs, cursor, cursor');
    ok := true;
  }
}
