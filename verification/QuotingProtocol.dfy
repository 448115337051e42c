/** The RFQ client's protocol (frontend/src/api/quotingClient.ts) as a machine
    over single browser events: sends, timer firings, frames, sockets opening,
    closing and closed (even stale ones) and reconnect timers, in any order. */
module QuotingProtocol {
  import opened Wrappers
  import opened QuotingCalls

  datatype Status = Connecting | Connected | Disconnected

  /** `open` holds the sockets that are open and not closing.  `handshakes[k]` is how the promise
      of the connect call that opened socket `k` was settled: resolved or rejected. */
  datatype Connection = Connection(
    ws: Option<nat>, connecting: bool, helloAcked: bool, status: Status, reconnectAttempt: nat,
    sockets: nat, open: set<nat>, closed: set<nat>, handshakes: map<nat, bool>, reconnectTimers: nat)

  datatype State = State(conn: Connection, calls: Calls)

  const INIT := State(Connection(None, false, false, Disconnected, 0, 0, {}, {}, map[], 0), NO_CALLS)

  datatype Event =
    | Connect                                      // ensureConnected
    | SocketOpens(socket: nat, helloThrows: bool)
    | SocketClosing(socket: nat)                   // the close event comes later
    | Send(slot: Slot, throws: bool)               // sendRfq / sendBulkView, after the await
    | TimerFires(call: nat)
    | Receive(socket: nat, msg: Message)
    | SocketCloses(socket: nat)
    | ReconnectFires

  const RECONNECT_BASE_MS := 500
  const RECONNECT_MAX_MS := 8000

  function Pow2(n: nat): nat { if n == 0 then 1 else 2 * Pow2(n - 1) }

  /** The delay of the next warm reconnect. */
  function ReconnectDelay(attempt: nat): nat {
    var d := RECONNECT_BASE_MS * Pow2(attempt);
    if d < RECONNECT_MAX_MS then d else RECONNECT_MAX_MS
  }

  // ----- one event -----

  predicate Exists(c: Connection, k: nat) { k < c.sockets && k !in c.closed }

  predicate Enabled(s: State, e: Event) {
    match e
    case SocketOpens(k, _) => Exists(s.conn, k)
    case SocketClosing(k) => Exists(s.conn, k)
    case TimerFires(c) => c in s.calls.timers
    case Receive(k, _) => Exists(s.conn, k)
    case SocketCloses(k) => Exists(s.conn, k)
    case ReconnectFires => s.conn.reconnectTimers > 0
    case _ => true
  }

  function OpenSocket(c: Connection): Connection {
    c.(ws := Some(c.sockets), helloAcked := false, status := Connecting, sockets := c.sockets + 1, connecting := true)
  }

  /** Settle the connect promise of socket `k`; a settled promise stays as it is. */
  function Shake(handshakes: map<nat, bool>, k: nat, ok: bool): map<nat, bool> {
    if k in handshakes then handshakes else handshakes[k := ok]
  }

  predicate WsOpen(c: Connection) { c.ws.Some? && c.ws.value in c.open }

  /** The connection fields after the close handler of socket `k`. */
  function Dropped(c: Connection, k: nat): Connection {
    c.(ws := if c.ws == Some(k) then None else c.ws, helloAcked := false, connecting := false, status := Disconnected,
       open := c.open - {k}, closed := c.closed + {k}, handshakes := Shake(c.handshakes, k, false),
       reconnectAttempt := c.reconnectAttempt + 1, reconnectTimers := c.reconnectTimers + 1)
  }

  function ConnStep(c: Connection, e: Event): Connection
    requires e.ReconnectFires? ==> c.reconnectTimers > 0
  {
    match e
    case Connect => if (WsOpen(c) && c.helloAcked) || c.connecting then c else OpenSocket(c)
    case SocketOpens(k, throws) =>
      c.(open := c.open + {k}, handshakes := if throws then Shake(c.handshakes, k, false) else c.handshakes)
    case SocketClosing(k) => c.(open := c.open - {k})
    case Receive(k, msg) =>
      if !msg.HelloAck? then c
      else c.(helloAcked := true, reconnectAttempt := 0, connecting := false, status := Connected,
              handshakes := Shake(c.handshakes, k, true))
    case SocketCloses(k) => Dropped(c, k)
    case ReconnectFires =>
      var fired := c.(reconnectTimers := c.reconnectTimers - 1);
      if c.ws.None? then OpenSocket(fired) else fired
    case _ => c
  }

  function CallStep(k: Calls, open: bool, e: Event): Calls
    requires e.TimerFires? ==> e.call in k.timers
  {
    match e
    case Send(slot, throws) => AfterSend(k, open, slot, throws)
    case TimerFires(c) => AfterTimer(k, c)
    case Receive(_, msg) => Dispatch(k, msg)
    case SocketCloses(_) => FlushAll(k)
    case _ => k
  }

  function Step(s: State, e: Event): State
    requires Enabled(s, e)
  {
    State(ConnStep(s.conn, e), CallStep(s.calls, WsOpen(s.conn), e))
  }

  predicate Legal(s: State, es: seq<Event>)
    decreases |es|
  {
    es == [] || (Enabled(s, es[0]) && Legal(Step(s, es[0]), es[1..]))
  }

  function Run(s: State, es: seq<Event>): State
    requires Legal(s, es)
    decreases |es|
  {
    if es == [] then s else Run(Step(s, es[0]), es[1..])
  }

  // ----- every run: at most once -----

  lemma StepAtMostOnce(s: State, e: Event)
    requires AtMostOnce(s.calls) && Enabled(s, e)
    ensures AtMostOnce(Step(s, e).calls)
  {
    hide AtMostOnce, AfterSend, AfterTimer, FlushAll, Dispatch, ConnStep;
    match e
    case Send(slot, throws) => SendAtMostOnce(s.calls, WsOpen(s.conn), slot, throws);
    case TimerFires(c) => TimerAtMostOnce(s.calls, c);
    case SocketCloses(_) => FlushSettlesAllButOrphans(s.calls);
    case Receive(_, msg) => DispatchAtMostOnce(s.calls, msg);
    case _ =>
  }

  /** Over every interleaving of events, and whatever the ids, no call is ever told more than one
      outcome, and the unsettled calls are exactly those whose timer is live. */
  lemma {:induction false} EveryRunSettlesAtMostOnce(s: State, es: seq<Event>)
    requires AtMostOnce(s.calls) && Legal(s, es)
    ensures AtMostOnce(Run(s, es).calls)
    decreases |es|
  {
    hide AtMostOnce, Step;
    if es != [] {
      StepAtMostOnce(s, es[0]);
      EveryRunSettlesAtMostOnce(Step(s, es[0]), es[1..]);
    }
  }

  // ----- ids that are not reused in flight -----

  /** A send that reuses an id still in flight in the same table. */
  predicate Collides(s: State, e: Event) {
    e.Send? && WsOpen(s.conn) && e.slot.id in Table(s.calls, e.slot.bulk)
  }

  /** A step keeps unsettled calls, table entries and live timers in one-to-one
      correspondence if and only if it is not a send that reuses an id in flight. */
  lemma StepKeepsOneToOneIff(s: State, e: Event)
    requires OneToOne(s.calls) && Enabled(s, e)
    ensures OneToOne(Step(s, e).calls) <==> !Collides(s, e)
  {
    assert AtMostOnce(s.calls);
    hide OneToOne, AtMostOnce, AfterSend, AfterTimer, FlushAll, Dispatch, ConnStep;
    match e
    case Send(slot, throws) =>
      if Collides(s, e) {
        ReuseOrphans(s.calls, slot, throws);
      } else {
        SendOneToOne(s.calls, WsOpen(s.conn), slot, throws);
      }
    case TimerFires(c) => TimerOneToOne(s.calls, c);
    case SocketCloses(_) => FlushSettlesEverything(s.calls);
    case Receive(_, msg) => DispatchOneToOne(s.calls, msg);
    case _ =>
  }

  /** No send of the run reuses an id that an earlier send put in the same table. */
  predicate FreshIds(es: seq<Event>, used: set<Slot>)
    decreases |es|
  {
    es == [] ||
    if es[0].Send? then es[0].slot !in used && FreshIds(es[1..], used + {es[0].slot}) else FreshIds(es[1..], used)
  }

  ghost predicate KeysWithin(k: Calls, used: set<Slot>) {
    && (forall id :: id in k.pending ==> Slot(false, id) in used)
    && (forall id :: id in k.pendingBulk ==> Slot(true, id) in used)
  }

  lemma StepKeysWithin(s: State, e: Event, used: set<Slot>)
    requires Enabled(s, e) && KeysWithin(s.calls, used)
    ensures KeysWithin(Step(s, e).calls, if e.Send? then used + {e.slot} else used)
  {
    hide ConnStep;
  }

  lemma NotColliding(s: State, e: Event, used: set<Slot>)
    requires KeysWithin(s.calls, used) && (e.Send? ==> e.slot !in used)
    ensures !Collides(s, e)
  {
    if e.Send? { assert e.slot == Slot(e.slot.bulk, e.slot.id); }
  }

  /** No step of the run reuses an id in flight. */
  predicate NoReuse(s: State, es: seq<Event>)
    requires Legal(s, es)
    decreases |es|
  {
    es == [] || (!Collides(s, es[0]) && NoReuse(Step(s, es[0]), es[1..]))
  }

  /** The correspondence holds in every state of the run. */
  ghost predicate AlwaysOneToOne(s: State, es: seq<Event>)
    requires Legal(s, es)
    decreases |es|
  {
    OneToOne(s.calls) && (es == [] || AlwaysOneToOne(Step(s, es[0]), es[1..]))
  }

  /** Over every interleaving, the correspondence holds in every state of the run, so that a response reaches
      its call and every close settles everything, if and only if no step reuses an id in flight. */
  lemma {:induction false} AlwaysOneToOneIffNoReuse(s: State, es: seq<Event>)
    requires OneToOne(s.calls) && Legal(s, es)
    ensures AlwaysOneToOne(s, es) <==> NoReuse(s, es)
    decreases |es|
  {
    if es != [] {
      StepKeepsOneToOneIff(s, es[0]);
      hide Step, OneToOne, Collides;
      if OneToOne(Step(s, es[0]).calls) { AlwaysOneToOneIffNoReuse(Step(s, es[0]), es[1..]); }
    }
  }

  lemma {:induction false} AlwaysMeansAtTheEnd(s: State, es: seq<Event>)
    requires Legal(s, es) && AlwaysOneToOne(s, es)
    ensures OneToOne(Run(s, es).calls)
    decreases |es|
  {
    if es != [] { AlwaysMeansAtTheEnd(Step(s, es[0]), es[1..]); }
  }

  /** Ids that are never used twice in a table, as random ones are not, are never reused in flight. */
  lemma {:induction false} DistinctIdsStayOneToOne(s: State, es: seq<Event>, used: set<Slot>)
    requires OneToOne(s.calls) && KeysWithin(s.calls, used) && FreshIds(es, used) && Legal(s, es)
    ensures NoReuse(s, es) && AlwaysOneToOne(s, es) && OneToOne(Run(s, es).calls)
    decreases |es|
  {
    hide OneToOne, Step, KeysWithin;
    if es != [] {
      var e := es[0];
      NotColliding(s, e, used);
      StepKeepsOneToOneIff(s, e);
      StepKeysWithin(s, e, used);
      DistinctIdsStayOneToOne(Step(s, e), es[1..], if e.Send? then used + {e.slot} else used);
    }
  }

  /** After any close, of a current or a stale socket, both tables are empty and the calls still
      unsettled are exactly those that were orphans before it. */
  lemma CloseSettlesAllButOrphans(s: State, k: nat)
    requires AtMostOnce(s.calls) && Enabled(s, SocketCloses(k))
    ensures var s' := Step(s, SocketCloses(k));
            && s'.calls.pending == map[] && s'.calls.pendingBulk == map[]
            && |s'.calls.deliveries| == |s.calls.deliveries|
            && forall c :: 0 <= c < |s.calls.deliveries| ==> (s'.calls.deliveries[c] == [] <==> Orphan(s.calls, c))
  {
    FlushSettlesAllButOrphans(s.calls);
    hide FlushAll, Orphan;
  }

  /** In a run with distinct ids every close settles every call made so far, exactly once. */
  lemma CloseSettlesEverything(s: State, k: nat)
    requires OneToOne(s.calls) && Enabled(s, SocketCloses(k))
    ensures var s' := Step(s, SocketCloses(k));
            && s'.calls.timers == map[]
            && forall c :: 0 <= c < |s'.calls.deliveries| ==> |s'.calls.deliveries[c]| == 1
  {
    FlushSettlesEverything(s.calls);
    hide FlushAll;
  }

  // ----- orphans -----

  /** The two ways to lose a table entry without being settled: a send that reuses the id, and the timer of an
      older call that had the same id. */
  predicate Displaces(s: State, e: Event, c: nat) {
    || (Collides(s, e) && Table(s.calls, e.slot.bulk)[e.slot.id] == c)
    || (e.TimerFires? && e.call in s.calls.timers && e.call != c && Filed(s.calls, c, s.calls.timers[e.call]))
  }

  lemma SendOrphansIff(k: Calls, open: bool, slot: Slot, throws: bool, c: nat)
    requires AtMostOnce(k) && !Orphan(k, c)
    ensures Orphan(AfterSend(k, open, slot, throws), c) <==>
            open && slot.id in Table(k, slot.bulk) && Table(k, slot.bulk)[slot.id] == c
  {
    var k' := AfterSend(k, open, slot, throws);
    if open && slot.id in Table(k, slot.bulk) && Table(k, slot.bulk)[slot.id] == c {
      ReuseOrphans(k, slot, throws);
    } else if c in k.timers {
      var own := k.timers[c];
      StillFiled(k, c);
      assert open ==> own != slot;
      assert Filed(k', c, own);
    } else if c in k'.timers {
      assert Filed(k', c, slot);
    }
  }

  /** A call with a live timer that some table holds is held under its own slot. */
  lemma StillFiled(k: Calls, c: nat)
    requires AtMostOnce(k) && c in k.timers && !Orphan(k, c)
    ensures Filed(k, c, k.timers[c])
  {
  }

  lemma TimerOrphansIff(k: Calls, d: nat, c: nat)
    requires AtMostOnce(k) && !Orphan(k, c) && d in k.timers
    ensures Orphan(AfterTimer(k, d), c) <==> d != c && Filed(k, c, k.timers[d])
  {
    var k' := AfterTimer(k, d);
    if c in k.timers && c != d {
      StillFiled(k, c);
      if Filed(k, c, k.timers[d]) {
        assert k.timers[d] == k.timers[c];
        TimerOrphans(k, d, c);
      } else {
        assert Filed(k', c, k.timers[c]);
      }
    }
  }

  lemma SettleOrphansNobody(k: Calls, slot: Slot, o: Outcome, c: nat)
    requires AtMostOnce(k) && !Orphan(k, c) && slot.id in Table(k, slot.bulk)
    ensures !Orphan(Settle(k, slot, o), c)
  {
    var k' := Settle(k, slot, o);
    if c in k'.timers {
      StillFiled(k, c);
      assert Filed(k', c, k.timers[c]);
    }
  }

  lemma FlushOrphansNobody(k: Calls, c: nat)
    requires AtMostOnce(k) && !Orphan(k, c)
    ensures !Orphan(FlushAll(k), c)
  {
  }

  /** A call becomes an orphan exactly when a send reuses its id in flight, or when the timer of an older call
      takes its table entry. */
  lemma StepOrphansIff(s: State, e: Event, c: nat)
    requires AtMostOnce(s.calls) && Enabled(s, e) && !Orphan(s.calls, c)
    ensures Orphan(Step(s, e).calls, c) <==> Displaces(s, e, c)
  {
    hide AtMostOnce, Orphan, AfterSend, AfterTimer, FlushAll, Settle, ConnStep, Filed;
    match e
    case Send(slot, throws) => SendOrphansIff(s.calls, WsOpen(s.conn), slot, throws, c);
    case TimerFires(d) => TimerOrphansIff(s.calls, d, c);
    case SocketCloses(_) => FlushOrphansNobody(s.calls, c);
    case Receive(_, msg) =>
      var t := Target(s.calls, msg);
      if t.Some? { SettleOrphansNobody(s.calls, t.value.0, t.value.1, c); }
    case _ =>
  }

  lemma StepKeepsOrphan(s: State, e: Event, c: nat)
    requires AtMostOnce(s.calls) && Enabled(s, e) && Orphan(s.calls, c) && e != TimerFires(c)
    ensures Orphan(Step(s, e).calls, c)
  {
    assert c < |s.calls.deliveries|;
    hide AtMostOnce, AfterSend, Dispatch, ConnStep;
    match e
    case Send(slot, throws) => SendKeepsOrphan(s.calls, WsOpen(s.conn), slot, throws, c);
    case Receive(_, msg) => DispatchKeepsOrphan(s.calls, msg, c);
    case _ =>
  }

  /** A call displaced by a reused id is settled by nothing but its own timer: over any run
      without that timer, no response, error or close reaches it. */
  lemma {:induction false} OrphanWaitsForItsTimer(s: State, es: seq<Event>, c: nat)
    requires AtMostOnce(s.calls) && Legal(s, es) && Orphan(s.calls, c) && TimerFires(c) !in es
    ensures var k := Run(s, es).calls; Orphan(k, c) && c < |k.deliveries| && k.deliveries[c] == []
    decreases |es|
  {
    if es != [] {
      hide Step;
      assert forall e :: e in es[1..] ==> e in es;
      StepKeepsOrphan(s, es[0], c);
      StepAtMostOnce(s, es[0]);
      OrphanWaitsForItsTimer(Step(s, es[0]), es[1..], c);
    }
  }

  /** The smallest such run: one id used twice in flight.  The socket has closed, both tables are
      empty, and the first call still waits for its timer. */
  lemma ReusedIdIsOrphaned()
    ensures var rfq := Send(Slot(false, "r"), false);
            var es := [Connect, SocketOpens(0, false), rfq, rfq, SocketCloses(0)];
            Legal(INIT, es) && var k := Run(INIT, es).calls;
            k.deliveries == [[], [Rejected(Closed)]] && Orphan(k, 0) && k.pending == map[]
  {
    hide AfterSend, FlushAll, Run, Legal;
    var rfq := Send(Slot(false, "r"), false);
    var s1 := Step(INIT, Connect);
    var s2 := Step(s1, SocketOpens(0, false));
    assert WsOpen(s2.conn) && s2.calls == NO_CALLS;
    var s3 := Step(s2, rfq);
    var s4 := Step(s3, rfq);
    var s5 := Step(s4, SocketCloses(0));
    FlushReused(Slot(false, "r"));
    hide Step;
    NoEvents(s5);
    var tail := [rfq, SocketCloses(0)];
    assert [SocketCloses(0)] + [] == [SocketCloses(0)];
    OneEvent(s4, SocketCloses(0), []);
    assert [rfq] + [SocketCloses(0)] == tail;
    OneEvent(s3, rfq, [SocketCloses(0)]);
    OneEvent(s2, rfq, tail);
    OneEvent(s1, SocketOpens(0, false), [rfq] + tail);
    OneEvent(INIT, Connect, [SocketOpens(0, false)] + ([rfq] + tail));
    assert [Connect] + ([SocketOpens(0, false)] + ([rfq] + tail))
           == [Connect, SocketOpens(0, false), rfq, rfq, SocketCloses(0)];
  }

  lemma NoEvents(s: State)
    ensures Legal(s, []) && Run(s, []) == s
  {
  }

  lemma OneEvent(s: State, e: Event, es: seq<Event>)
    requires Enabled(s, e) && Legal(Step(s, e), es)
    ensures Legal(s, [e] + es) && Run(s, [e] + es) == Run(Step(s, e), es)
  {
    assert ([e] + es)[1..] == es;
  }

  // ----- the connection -----

  /** The shown status is the handshake's, the current socket has not closed, and the connect
      promise of a closed socket has been settled. */
  ghost predicate Sane(c: Connection) {
    && (c.helloAcked <==> c.status == Connected)
    && (c.ws.Some? ==> Exists(c, c.ws.value))
    && c.open !! c.closed
    && (forall k :: k in c.open || k in c.closed || k in c.handshakes ==> k < c.sockets)
    && c.closed <= c.handshakes.Keys
  }

  ghost predicate Consistent(s: State) { Sane(s.conn) && Correlated(s.calls) }

  lemma ConnSane(s: State, e: Event)
    requires Sane(s.conn) && Enabled(s, e)
    ensures Sane(ConnStep(s.conn, e))
  {
  }

  lemma CallsCorrelated(s: State, e: Event)
    requires Correlated(s.calls) && Enabled(s, e)
    ensures Correlated(Step(s, e).calls)
  {
    hide Correlated, AfterSend, AfterTimer, FlushAll, Dispatch, ConnStep;
    match e
    case Send(slot, throws) => SendCorrelated(s.calls, WsOpen(s.conn), slot, throws);
    case TimerFires(c) => TimerCorrelated(s.calls, c);
    case SocketCloses(_) => FlushCorrelated(s.calls);
    case Receive(_, msg) => DispatchCorrelated(s.calls, msg);
    case _ =>
  }

  lemma StepConsistent(s: State, e: Event)
    requires Consistent(s) && Enabled(s, e)
    ensures Consistent(Step(s, e))
  {
    hide Sane, Correlated, ConnStep, CallStep;
    ConnSane(s, e);
    CallsCorrelated(s, e);
  }

  /** Everything a client keeps, whatever the ids. */
  ghost predicate Healthy(s: State) { Consistent(s) && AtMostOnce(s.calls) }

  lemma StepHealthy(s: State, e: Event)
    requires Healthy(s) && Enabled(s, e)
    ensures Healthy(Step(s, e))
  {
    hide Consistent, AtMostOnce, ConnStep, CallStep;
    StepConsistent(s, e);
    StepAtMostOnce(s, e);
  }

  /** A connect promise is settled once: what it was told never changes, and once its socket has
      closed it has been told something. */
  lemma HandshakesSettleOnce(s: State, e: Event, k: nat)
    requires Consistent(s) && Enabled(s, e)
    ensures k in s.conn.handshakes ==>
              k in Step(s, e).conn.handshakes && Step(s, e).conn.handshakes[k] == s.conn.handshakes[k]
    ensures k in Step(s, e).conn.closed ==> k in Step(s, e).conn.handshakes
  {
    ConnSane(s, e);
    hide CallStep, Correlated;
  }

  /** A second socket opens while the current one, requests in flight, is still closing; when the
      older one's close comes, the new socket stays current and all the requests are flushed. */
  lemma SecondSocketWhileClosing(s: State, k: nat)
    requires Consistent(s) && s.conn.ws == Some(k) && !s.conn.connecting
    ensures Enabled(s, SocketClosing(k))
    ensures var both := Step(Step(s, SocketClosing(k)), Connect);
            && both.conn.ws == Some(s.conn.sockets) != Some(k) && both.calls == s.calls
            && Enabled(both, SocketCloses(k))
            && var after := Step(both, SocketCloses(k));
               && after.conn.ws == both.conn.ws && !after.conn.helloAcked
               && after.calls.pending == map[] && after.calls.pendingBulk == map[]
  {
    hide Correlated;
  }

  /** Reconnect delays start at the base, never shrink between acknowledgements
      and never pass the cap. */
  lemma {:induction false} DelayBounds(attempt: nat)
    ensures RECONNECT_BASE_MS <= ReconnectDelay(attempt) <= ReconnectDelay(attempt + 1) <= RECONNECT_MAX_MS
  {
    Pow2Positive(attempt);
  }

  lemma {:induction false} Pow2Positive(n: nat)
    ensures Pow2(n) >= 1
  {
    if n > 0 { Pow2Positive(n - 1); }
  }
}
