/** The calls of the RFQ client (frontend/src/api/quotingClient.ts): the two tables
    of requests in flight, their timers and what each caller's promise was told.

    A call is one invocation of `sendRfq` or `sendBulkView`; `deliveries[c]` is
    everything its promise was told, in order. */
module QuotingCalls {
  import opened Wrappers

  type Quotes = seq<int>

  datatype Reason = NotOpen | SendFailed | TimedOut | Closed | ServiceError

  /** A resolution remembers the request id of the frame that caused it, if any. */
  datatype Outcome = Resolved(quotes: Quotes, cause: Option<string>) | Rejected(reason: Reason)

  /** The table and the key under which a call's timer will look for it. */
  datatype Slot = Slot(bulk: bool, id: string)

  datatype Message =
    | HelloAck
    | RfqResponse(id: string, quotes: Quotes)
    | BulkResponse(id: string, quotes: Quotes)
    | ErrorFrame(requestId: Option<string>, noQuotes: bool)
    | Ping
    | BucketUpdate

  datatype Calls = Calls(
    pending: map<string, nat>, pendingBulk: map<string, nat>,
    timers: map<nat, Slot>, ids: seq<string>, deliveries: seq<seq<Outcome>>)

  const NO_CALLS := Calls(map[], map[], map[], [], [])

  // ----- what happens to calls -----

  function Table(k: Calls, bulk: bool): map<string, nat> { if bulk then k.pendingBulk else k.pending }

  function WithTable(k: Calls, bulk: bool, t: map<string, nat>): Calls {
    if bulk then k.(pendingBulk := t) else k.(pending := t)
  }

  /** Tell a call's promise something. */
  function Deliver(d: seq<seq<Outcome>>, c: nat, o: Outcome): seq<seq<Outcome>> {
    if c < |d| then d[c := d[c] + [o]] else d
  }

  /** Clear the call's timer, drop its table entry and tell it the outcome. */
  function Settle(k: Calls, slot: Slot, o: Outcome): Calls
    requires slot.id in Table(k, slot.bulk)
  {
    var c := Table(k, slot.bulk)[slot.id];
    WithTable(k, slot.bulk, Table(k, slot.bulk) - {slot.id})
      .(timers := k.timers - {c}, deliveries := Deliver(k.deliveries, c, o))
  }

  /** A fresh call, filed in its table with its timer running. */
  function File(k: Calls, slot: Slot): Calls {
    var c := |k.deliveries|;
    WithTable(k, slot.bulk, Table(k, slot.bulk)[slot.id := c])
      .(ids := k.ids + [slot.id], deliveries := k.deliveries + [[]], timers := k.timers[c := slot])
  }

  /** `sendRfq` or `sendBulkView` from where the awaited connection is up. */
  function AfterSend(k: Calls, open: bool, slot: Slot, throws: bool): Calls {
    if !open then k.(ids := k.ids + [slot.id], deliveries := k.deliveries + [[Rejected(NotOpen)]])
    else if throws then Settle(File(k, slot), slot, Rejected(SendFailed))
    else File(k, slot)
  }

  function AfterTimer(k: Calls, c: nat): Calls
    requires c in k.timers
  {
    var slot := k.timers[c];
    WithTable(k, slot.bulk, Table(k, slot.bulk) - {slot.id})
      .(timers := k.timers - {c}, deliveries := Deliver(k.deliveries, c, Rejected(TimedOut)))
  }

  /** A frame's own id is the id of the call it settles. */
  predicate AnswersTo(o: Outcome, id: string) { o.Resolved? ==> o.cause == Some(id) }

  /** The table entry a frame settles, and with what. */
  function Target(k: Calls, msg: Message): (r: Option<(Slot, Outcome)>)
    ensures r.Some? ==> r.value.0.id in Table(k, r.value.0.bulk) && AnswersTo(r.value.1, r.value.0.id)
  {
    match msg
    case RfqResponse(id, quotes) =>
      if id in k.pending then Some((Slot(false, id), Resolved(quotes, Some(id)))) else None
    case BulkResponse(id, quotes) =>
      if id in k.pendingBulk then Some((Slot(true, id), Resolved(quotes, Some(id)))) else None
    case ErrorFrame(rid, noQuotes) =>
      if rid.None? || rid.value == "" then None
      else if rid.value in k.pending then
        Some((Slot(false, rid.value), if noQuotes then Resolved([], rid) else Rejected(ServiceError)))
      else if rid.value in k.pendingBulk then Some((Slot(true, rid.value), Resolved([], rid)))
      else None
    case _ => None
  }

  function Dispatch(k: Calls, msg: Message): Calls {
    var t := Target(k, msg);
    if t.None? then k else Settle(k, t.value.0, t.value.1)
  }

  /** Tell each of a set of calls the same thing. */
  function Told(d: seq<seq<Outcome>>, calls: set<nat>, o: Outcome): (r: seq<seq<Outcome>>)
    ensures |r| == |d|
    ensures forall c :: 0 <= c < |d| ==> r[c] == if c in calls then d[c] + [o] else d[c]
  {
    seq(|d|, c requires 0 <= c < |d| => if c in calls then d[c] + [o] else d[c])
  }

  /** A close: every pending RFQ is rejected, every pending bulk view resolves empty. */
  function FlushAll(k: Calls): Calls {
    k.(pending := map[], pendingBulk := map[],
       timers := k.timers - k.pending.Values - k.pendingBulk.Values,
       deliveries := Told(Told(k.deliveries, k.pending.Values, Rejected(Closed)),
                          k.pendingBulk.Values, Resolved([], None)))
  }

  // ----- at most once -----

  /** The call is filed in its slot's table under its slot's id. */
  predicate Filed(k: Calls, c: nat, slot: Slot) {
    slot.id in Table(k, slot.bulk) && Table(k, slot.bulk)[slot.id] == c
  }

  /** Live timers are the unsettled calls; no call was told more than one outcome. */
  ghost predicate TimersAreUnsettled(k: Calls) {
    && |k.ids| == |k.deliveries|
    && (forall c :: 0 <= c < |k.deliveries| ==> |k.deliveries[c]| <= 1)
    && (forall c :: c in k.timers <==> 0 <= c < |k.deliveries| && k.deliveries[c] == [])
  }

  /** Every table entry is the slot of a live timer. */
  ghost predicate EntriesAreTimed(k: Calls) {
    && (forall id :: id in k.pending ==> k.pending[id] in k.timers && k.timers[k.pending[id]] == Slot(false, id))
    && (forall id :: id in k.pendingBulk ==>
          k.pendingBulk[id] in k.timers && k.timers[k.pendingBulk[id]] == Slot(true, id))
  }

  /** Every live timer has its table entry. */
  ghost predicate TimersAreFiled(k: Calls) {
    forall c :: c in k.timers ==> Filed(k, c, k.timers[c])
  }

  /** What every run keeps, whatever the ids. */
  ghost predicate AtMostOnce(k: Calls) { TimersAreUnsettled(k) && EntriesAreTimed(k) }

  /** Unsettled calls, table entries and live timers correspond one to one. */
  ghost predicate OneToOne(k: Calls) { AtMostOnce(k) && TimersAreFiled(k) }

  /** An unsettled call that no table holds any more. */
  ghost predicate Orphan(k: Calls, c: nat) {
    c in k.timers && c !in k.pending.Values && c !in k.pendingBulk.Values
  }

  lemma SettleAtMostOnce(k: Calls, slot: Slot, o: Outcome)
    requires AtMostOnce(k) && slot.id in Table(k, slot.bulk)
    ensures AtMostOnce(Settle(k, slot, o))
  {
    assert k.timers[Table(k, slot.bulk)[slot.id]] == slot;
  }

  lemma SettleFiled(k: Calls, slot: Slot, o: Outcome)
    requires OneToOne(k) && slot.id in Table(k, slot.bulk)
    ensures TimersAreFiled(Settle(k, slot, o))
  {
    var k' := Settle(k, slot, o);
    assert k.timers[Table(k, slot.bulk)[slot.id]] == slot;
    forall d | d in k'.timers ensures Filed(k', d, k.timers[d]) {
      assert Filed(k, d, k.timers[d]);
    }
  }

  lemma SettleOneToOne(k: Calls, slot: Slot, o: Outcome)
    requires OneToOne(k) && slot.id in Table(k, slot.bulk)
    ensures OneToOne(Settle(k, slot, o))
  {
    SettleFiled(k, slot, o);
    SettleAtMostOnce(k, slot, o);
  }

  lemma FileAtMostOnce(k: Calls, slot: Slot)
    requires AtMostOnce(k)
    ensures AtMostOnce(File(k, slot))
  {
  }

  lemma FileOneToOne(k: Calls, slot: Slot)
    requires OneToOne(k) && slot.id !in Table(k, slot.bulk)
    ensures OneToOne(File(k, slot))
  {
    var c, k' := |k.deliveries|, File(k, slot);
    FileAtMostOnce(k, slot);
    forall d | d in k'.timers ensures Filed(k', d, k'.timers[d]) {
      assert d != c ==> Filed(k, d, k.timers[d]);
    }
  }

  lemma SendAtMostOnce(k: Calls, open: bool, slot: Slot, throws: bool)
    requires AtMostOnce(k)
    ensures AtMostOnce(AfterSend(k, open, slot, throws))
  {
    if open {
      FileAtMostOnce(k, slot);
      SettleAtMostOnce(File(k, slot), slot, Rejected(SendFailed));
    }
  }

  lemma SendOneToOne(k: Calls, open: bool, slot: Slot, throws: bool)
    requires OneToOne(k) && (open ==> slot.id !in Table(k, slot.bulk))
    ensures OneToOne(AfterSend(k, open, slot, throws))
  {
    if open {
      FileOneToOne(k, slot);
      SettleOneToOne(File(k, slot), slot, Rejected(SendFailed));
    } else {
      var k' := AfterSend(k, open, slot, throws);
      forall d | d in k'.timers ensures Filed(k', d, k'.timers[d]) { assert Filed(k, d, k.timers[d]); }
    }
  }

  lemma TimerAtMostOnce(k: Calls, c: nat)
    requires AtMostOnce(k) && c in k.timers
    ensures AtMostOnce(AfterTimer(k, c))
  {
  }

  lemma TimerOneToOne(k: Calls, c: nat)
    requires OneToOne(k) && c in k.timers
    ensures OneToOne(AfterTimer(k, c))
  {
    var k' := AfterTimer(k, c);
    assert Filed(k, c, k.timers[c]);
    forall d | d in k'.timers ensures Filed(k', d, k.timers[d]) {
      assert Filed(k, d, k.timers[d]);
    }
    TimerAtMostOnce(k, c);
  }

  lemma DispatchAtMostOnce(k: Calls, msg: Message)
    requires AtMostOnce(k)
    ensures AtMostOnce(Dispatch(k, msg))
  {
    var t := Target(k, msg);
    if t.Some? { SettleAtMostOnce(k, t.value.0, t.value.1); }
  }

  lemma DispatchOneToOne(k: Calls, msg: Message)
    requires OneToOne(k)
    ensures OneToOne(Dispatch(k, msg))
  {
    var t := Target(k, msg);
    if t.Some? { SettleOneToOne(k, t.value.0, t.value.1); }
  }

  lemma EntriesDisjoint(k: Calls)
    requires AtMostOnce(k)
    ensures k.pending.Values !! k.pendingBulk.Values
    ensures k.pending.Values <= k.timers.Keys && k.pendingBulk.Values <= k.timers.Keys
  {
    assert forall c :: c in k.pending.Values ==> !k.timers[c].bulk;
    assert forall c :: c in k.pendingBulk.Values ==> k.timers[c].bulk;
  }

  /** A flush tells the filed calls one outcome each and leaves the orphans as they were. */
  lemma FlushTells(k: Calls, c: nat)
    requires AtMostOnce(k) && c < |k.deliveries|
    ensures FlushAll(k).deliveries[c] == [] <==> Orphan(k, c)
    ensures |FlushAll(k).deliveries[c]| <= 1
    ensures c in FlushAll(k).timers <==> Orphan(k, c)
  {
    EntriesDisjoint(k);
  }

  /** After a flush both tables are empty, and the calls still unsettled are exactly those that
      were orphans before it. */
  lemma FlushSettlesAllButOrphans(k: Calls)
    requires AtMostOnce(k)
    ensures var k' := FlushAll(k);
            && AtMostOnce(k') && k'.pending == map[] && k'.pendingBulk == map[]
            && |k'.deliveries| == |k.deliveries|
            && forall c :: 0 <= c < |k.deliveries| ==> (k'.deliveries[c] == [] <==> Orphan(k, c))
  {
    forall c: nat | c < |k.deliveries|
      ensures (FlushAll(k).deliveries[c] == [] <==> Orphan(k, c)) && |FlushAll(k).deliveries[c]| <= 1
      ensures c in FlushAll(k).timers <==> Orphan(k, c)
    {
      FlushTells(k, c);
    }
    hide Orphan, Told;
  }

  /** Without orphans nothing is in flight after a flush. */
  lemma FlushSettlesEverything(k: Calls)
    requires OneToOne(k)
    ensures var k' := FlushAll(k);
            && OneToOne(k') && k'.pending == map[] && k'.pendingBulk == map[] && k'.timers == map[]
            && forall c :: 0 <= c < |k'.deliveries| ==> |k'.deliveries[c]| == 1
  {
    forall c | c in k.timers ensures !Orphan(k, c) {
      assert Filed(k, c, k.timers[c]);
    }
    FlushSettlesAllButOrphans(k);
    hide FlushAll;
  }

  // ----- what a reused id breaks -----

  /** The call displaced by a send under an id in flight keeps its timer but is in no table. */
  lemma ReuseOrphans(k: Calls, slot: Slot, throws: bool)
    requires AtMostOnce(k) && slot.id in Table(k, slot.bulk)
    ensures Orphan(AfterSend(k, true, slot, throws), Table(k, slot.bulk)[slot.id])
    ensures !OneToOne(AfterSend(k, true, slot, throws))
  {
    var k' := AfterSend(k, true, slot, throws);
    var c := Table(k, slot.bulk)[slot.id];
    assert k.timers[c] == slot;
    assert c in k'.timers && k'.timers[c] == slot;
    assert !Filed(k', c, slot);
  }

  lemma SettleKeepsOrphan(k: Calls, slot: Slot, o: Outcome, c: nat)
    requires Orphan(k, c) && slot.id in Table(k, slot.bulk)
    ensures Orphan(Settle(k, slot, o), c)
  {
    assert Table(k, slot.bulk)[slot.id] in Table(k, slot.bulk).Values;
  }

  lemma SendKeepsOrphan(k: Calls, open: bool, slot: Slot, throws: bool, c: nat)
    requires Orphan(k, c) && c < |k.deliveries|
    ensures Orphan(AfterSend(k, open, slot, throws), c)
  {
    if open {
      assert Orphan(File(k, slot), c);
      SettleKeepsOrphan(File(k, slot), slot, Rejected(SendFailed), c);
    }
  }

  lemma DispatchKeepsOrphan(k: Calls, msg: Message, c: nat)
    requires Orphan(k, c)
    ensures Orphan(Dispatch(k, msg), c)
  {
    var t := Target(k, msg);
    if t.Some? { SettleKeepsOrphan(k, t.value.0, t.value.1, c); }
  }

  /** The response to a call filed under `slot`. */
  function ResponseTo(slot: Slot, quotes: Quotes): Message {
    if slot.bulk then BulkResponse(slot.id, quotes) else RfqResponse(slot.id, quotes)
  }

  /** When the displaced call's timer does fire, it takes the newer call's table entry with it: the
      newer call becomes an orphan in turn, and the response to it is dropped. */
  lemma OrphanTimerDropsNewerCall(k: Calls, slot: Slot, quotes: Quotes)
    requires AtMostOnce(k) && slot.id in Table(k, slot.bulk)
    ensures var older, newer, k' := Table(k, slot.bulk)[slot.id], |k.deliveries|, AfterSend(k, true, slot, false);
            && older in k'.timers
            && var late := AfterTimer(k', older);
               && late.deliveries[older] == [Rejected(TimedOut)]
               && Orphan(late, newer) && late.deliveries[newer] == []
               && Dispatch(late, ResponseTo(slot, quotes)) == late
  {
    var older, newer, k' := Table(k, slot.bulk)[slot.id], |k.deliveries|, AfterSend(k, true, slot, false);
    assert k.timers[older] == slot && older != newer;
    SendAtMostOnce(k, true, slot, false);
    assert Table(k', slot.bulk)[slot.id] == newer && k'.timers[newer] == slot;
    TimerOrphans(k', older, newer);
  }

  /** A timer whose slot holds another call orphans that call. */
  lemma TimerOrphans(k: Calls, older: nat, newer: nat)
    requires AtMostOnce(k) && older in k.timers && newer in k.timers && older != newer
    requires k.timers[older] == k.timers[newer]
    ensures Orphan(AfterTimer(k, older), newer)
  {
    var late, slot := AfterTimer(k, older), k.timers[newer];
    assert forall i :: i in late.pending ==> k.timers[late.pending[i]] == Slot(false, i) && Slot(false, i) != slot;
    assert forall i :: i in late.pendingBulk ==>
             k.timers[late.pendingBulk[i]] == Slot(true, i) && Slot(true, i) != slot;
  }

  lemma FlushReused(slot: Slot)
    requires !slot.bulk
    ensures var k := FlushAll(AfterSend(AfterSend(NO_CALLS, true, slot, false), true, slot, false));
            k.deliveries == [[], [Rejected(Closed)]] && Orphan(k, 0) && k.pending == map[]
  {
    var k := AfterSend(AfterSend(NO_CALLS, true, slot, false), true, slot, false);
    assert k.pending == map[slot.id := 1] && k.pendingBulk == map[] && k.deliveries == [[], []];
    assert k.timers == map[0 := slot, 1 := slot];
    assert k.pending[slot.id] in k.pending.Values && k.pendingBulk.Values == {};
    assert 0 !in k.pending.Values;
    assert [[], []][1] + [Rejected(Closed)] == [Rejected(Closed)];
  }

  // ----- correlation -----

  predicate CorrelatesTo(o: Outcome, id: string) {
    o.Resolved? && o.cause.Some? ==> o.cause.value == id
  }

  /** Entries are filed under the id their call was sent with, and a frame that resolved a call
      carried that id. */
  ghost predicate Correlated(k: Calls) {
    && |k.ids| == |k.deliveries|
    && (forall id :: id in k.pending ==> k.pending[id] < |k.ids| && k.ids[k.pending[id]] == id)
    && (forall id :: id in k.pendingBulk ==> k.pendingBulk[id] < |k.ids| && k.ids[k.pendingBulk[id]] == id)
    && forall c, i :: 0 <= c < |k.deliveries| && 0 <= i < |k.deliveries[c]| ==>
                        CorrelatesTo(k.deliveries[c][i], k.ids[c])
  }

  lemma SettleCorrelated(k: Calls, slot: Slot, o: Outcome)
    requires Correlated(k) && slot.id in Table(k, slot.bulk) && CorrelatesTo(o, slot.id)
    ensures Correlated(Settle(k, slot, o))
  {
    var k' := Settle(k, slot, o);
    forall c, i | 0 <= c < |k'.deliveries| && 0 <= i < |k'.deliveries[c]|
      ensures CorrelatesTo(k'.deliveries[c][i], k'.ids[c])
    {
      if i < |k.deliveries[c]| { assert k'.deliveries[c][i] == k.deliveries[c][i]; }
    }
  }

  lemma FileCorrelated(k: Calls, slot: Slot)
    requires Correlated(k)
    ensures Correlated(File(k, slot))
  {
  }

  lemma SendCorrelated(k: Calls, open: bool, slot: Slot, throws: bool)
    requires Correlated(k)
    ensures Correlated(AfterSend(k, open, slot, throws))
  {
    if open {
      FileCorrelated(k, slot);
      SettleCorrelated(File(k, slot), slot, Rejected(SendFailed));
    }
  }

  lemma FlushCorrelated(k: Calls)
    requires Correlated(k)
    ensures Correlated(FlushAll(k))
  {
    var k' := FlushAll(k);
    forall c, i | 0 <= c < |k'.deliveries| && 0 <= i < |k'.deliveries[c]|
      ensures CorrelatesTo(k'.deliveries[c][i], k'.ids[c])
    {
      if i < |k.deliveries[c]| { assert k'.deliveries[c][i] == k.deliveries[c][i]; }
    }
  }

  lemma TimerCorrelated(k: Calls, c: nat)
    requires Correlated(k) && c in k.timers
    ensures Correlated(AfterTimer(k, c))
  {
    var k' := AfterTimer(k, c);
    forall x, i | 0 <= x < |k'.deliveries| && 0 <= i < |k'.deliveries[x]|
      ensures CorrelatesTo(k'.deliveries[x][i], k'.ids[x])
    {
      if i < |k.deliveries[x]| { assert k'.deliveries[x][i] == k.deliveries[x][i]; }
    }
  }

  lemma DispatchCorrelated(k: Calls, msg: Message)
    requires Correlated(k)
    ensures Correlated(Dispatch(k, msg))
  {
    var t := Target(k, msg);
    if t.Some? { SettleCorrelated(k, t.value.0, t.value.1); }
  }
}
