/** What each event tells the callers of the RFQ client
    (frontend/src/api/quotingClient.ts), said of the tables, timers and promises alone: which
    call a frame, a timer, a close or a failed send settles, with what, and that it touches
    nothing else.  Then over runs: a call stays on file until it is told something, so the
    response to any call in flight reaches it. */
module QuotingOutcomes {
  import opened Wrappers
  import opened QuotingCalls
  import opened QuotingProtocol

  /** Call `c`, on file under `slot`, has been told just `o` and is off file; nothing else differs. */
  ghost predicate OnlySettles(k: Calls, slot: Slot, c: nat, o: Outcome, k': Calls) {
    && k'.pending == (if slot.bulk then k.pending else k.pending - {slot.id})
    && k'.pendingBulk == (if slot.bulk then k.pendingBulk - {slot.id} else k.pendingBulk)
    && k'.timers == k.timers - {c} && k'.ids == k.ids
    && c < |k.deliveries| && k.deliveries[c] == [] && k'.deliveries == k.deliveries[c := [o]]
  }

  lemma SettleTells(k: Calls, slot: Slot, o: Outcome)
    requires AtMostOnce(k) && slot.id in Table(k, slot.bulk)
    ensures OnlySettles(k, slot, Table(k, slot.bulk)[slot.id], o, Settle(k, slot, o))
  {
    var c := Table(k, slot.bulk)[slot.id];
    assert c in k.timers && k.deliveries[c] == [];
    assert [] + [o] == [o];
  }

  // ----- frames -----

  /** A response settles the RFQ of its id with its quotes, and a response to no RFQ does nothing. */
  lemma RfqResponseMeaning(s: State, socket: nat, id: string, quotes: Quotes)
    requires AtMostOnce(s.calls) && Enabled(s, Receive(socket, RfqResponse(id, quotes)))
    ensures var k, k' := s.calls, Step(s, Receive(socket, RfqResponse(id, quotes))).calls;
            if id in k.pending then OnlySettles(k, Slot(false, id), k.pending[id], Resolved(quotes, Some(id)), k')
            else k' == k
  {
    if id in s.calls.pending { SettleTells(s.calls, Slot(false, id), Resolved(quotes, Some(id))); }
    hide AtMostOnce, OnlySettles, Settle;
  }

  lemma BulkResponseMeaning(s: State, socket: nat, id: string, premiums: Quotes)
    requires AtMostOnce(s.calls) && Enabled(s, Receive(socket, BulkResponse(id, premiums)))
    ensures var k, k' := s.calls, Step(s, Receive(socket, BulkResponse(id, premiums))).calls;
            if id in k.pendingBulk then
              OnlySettles(k, Slot(true, id), k.pendingBulk[id], Resolved(premiums, Some(id)), k')
            else k' == k
  {
    if id in s.calls.pendingBulk { SettleTells(s.calls, Slot(true, id), Resolved(premiums, Some(id))); }
    hide AtMostOnce, OnlySettles, Settle;
  }

  /** An error frame: to an RFQ, no quotes is an empty answer and any other code a rejection; to a bulk view
      it is an empty answer; without an id, or with an unknown one, it does nothing. */
  lemma ErrorMeaning(s: State, socket: nat, rid: Option<string>, noQuotes: bool)
    requires AtMostOnce(s.calls) && Enabled(s, Receive(socket, ErrorFrame(rid, noQuotes)))
    ensures var k, k' := s.calls, Step(s, Receive(socket, ErrorFrame(rid, noQuotes))).calls;
            if rid.None? || rid.value == "" then k' == k
            else var id := rid.value;
              if id in k.pending then
                OnlySettles(k, Slot(false, id), k.pending[id],
                            if noQuotes then Resolved([], Some(id)) else Rejected(ServiceError), k')
              else if id in k.pendingBulk then
                OnlySettles(k, Slot(true, id), k.pendingBulk[id], Resolved([], Some(id)), k')
              else k' == k
  {
    if rid.Some? && rid.value != "" {
      var id := rid.value;
      if id in s.calls.pending {
        SettleTells(s.calls, Slot(false, id), if noQuotes then Resolved([], rid) else Rejected(ServiceError));
      } else if id in s.calls.pendingBulk {
        SettleTells(s.calls, Slot(true, id), Resolved([], rid));
      }
    }
    hide AtMostOnce, OnlySettles, Settle;
  }

  /** No other frame touches a call. */
  lemma OtherFramesTouchNothing(s: State, socket: nat, msg: Message)
    requires Enabled(s, Receive(socket, msg)) && (msg.HelloAck? || msg.Ping? || msg.BucketUpdate?)
    ensures Step(s, Receive(socket, msg)).calls == s.calls
  {
  }

  // ----- sends, timers and closes -----

  /** A new call: rejected at once if the socket is not open or the send throws, else on file under its id
      with its timer running, and told nothing yet. */
  lemma SendMeaning(s: State, slot: Slot, throws: bool)
    requires AtMostOnce(s.calls)
    ensures var k, c, k' := s.calls, |s.calls.deliveries|, Step(s, Send(slot, throws)).calls;
            && k'.ids == k.ids + [slot.id]
            && k'.deliveries == k.deliveries
                 + [if !WsOpen(s.conn) then [Rejected(NotOpen)] else if throws then [Rejected(SendFailed)] else []]
            && (WsOpen(s.conn) && !throws ==>
                  k'.timers == k.timers[c := slot]
                  && k'.pending == (if slot.bulk then k.pending else k.pending[slot.id := c])
                  && k'.pendingBulk == (if slot.bulk then k.pendingBulk[slot.id := c] else k.pendingBulk))
            && (WsOpen(s.conn) && throws ==>
                  k'.timers == k.timers && k'.pending == (if slot.bulk then k.pending else k.pending - {slot.id})
                  && k'.pendingBulk == (if slot.bulk then k.pendingBulk - {slot.id} else k.pendingBulk))
            && (!WsOpen(s.conn) ==>
                  k'.timers == k.timers && k'.pending == k.pending && k'.pendingBulk == k.pendingBulk)
  {
    var k, c := s.calls, |s.calls.deliveries|;
    assert c !in k.timers;
    if WsOpen(s.conn) && throws { assert [] + [Rejected(SendFailed)] == [Rejected(SendFailed)]; }
  }

  /** A timer rejects its own call and takes the entry under its id off file. */
  lemma TimerMeaning(s: State, c: nat)
    requires AtMostOnce(s.calls) && c in s.calls.timers
    ensures OnlySettles(s.calls, s.calls.timers[c], c, Rejected(TimedOut), Step(s, TimerFires(c)).calls)
  {
    assert [] + [Rejected(TimedOut)] == [Rejected(TimedOut)];
  }

  /** A close rejects every RFQ on file and answers every bulk view on file with nothing. */
  lemma CloseMeaning(s: State, socket: nat)
    requires AtMostOnce(s.calls) && Enabled(s, SocketCloses(socket))
    ensures var k, k' := s.calls, Step(s, SocketCloses(socket)).calls;
            && k'.pending == map[] && k'.pendingBulk == map[] && k'.ids == k.ids && |k'.deliveries| == |k.deliveries|
            && (forall id :: id in k.pending ==>
                  k.pending[id] < |k.deliveries| && k'.deliveries[k.pending[id]] == [Rejected(Closed)])
            && (forall id :: id in k.pendingBulk ==>
                  k.pendingBulk[id] < |k.deliveries| && k'.deliveries[k.pendingBulk[id]] == [Resolved([], None)])
            && (forall c :: 0 <= c < |k.deliveries| && c !in k.pending.Values && c !in k.pendingBulk.Values ==>
                  k'.deliveries[c] == k.deliveries[c] && (c in k'.timers <==> c in k.timers))
  {
    EntriesDisjoint(s.calls);
    var k := s.calls;
    assert [] + [Rejected(Closed)] == [Rejected(Closed)];
    assert [] + [Resolved([], None)] == [Resolved([], None)];
    forall id | id in k.pending
      ensures k.pending[id] < |k.deliveries| && FlushAll(k).deliveries[k.pending[id]] == [Rejected(Closed)]
    {
      assert k.pending[id] in k.pending.Values;
    }
    forall id | id in k.pendingBulk
      ensures k.pendingBulk[id] < |k.deliveries|
      ensures FlushAll(k).deliveries[k.pendingBulk[id]] == [Resolved([], None)]
    {
      assert k.pendingBulk[id] in k.pendingBulk.Values;
    }
  }

  /** The other events tell nobody anything. */
  lemma QuietEvents(s: State, e: Event)
    requires Enabled(s, e) && (e.Connect? || e.SocketOpens? || e.SocketClosing? || e.ReconnectFires?)
    ensures Step(s, e).calls == s.calls
  {
  }

  // ----- runs -----

  /** The event neither settles the call on file under `slot` nor closes the client's tables. */
  predicate Spares(e: Event, slot: Slot, c: nat) {
    match e
    case TimerFires(d) => d != c
    case SocketCloses(_) => false
    case Receive(_, RfqResponse(id, _)) => slot.bulk || id != slot.id
    case Receive(_, BulkResponse(id, _)) => !slot.bulk || id != slot.id
    case Receive(_, ErrorFrame(rid, _)) => rid != Some(slot.id)
    case _ => true
  }

  /** A call waiting on file is told nothing by an event that spares it and reuses no id. */
  lemma StepSpares(s: State, e: Event, slot: Slot, c: nat)
    requires OneToOne(s.calls) && Enabled(s, e) && !Collides(s, e) && Spares(e, slot, c) && Filed(s.calls, c, slot)
    ensures Filed(Step(s, e).calls, c, slot)
  {
    hide OneToOne, AtMostOnce, OnlySettles;
    assert AtMostOnce(s.calls) && TimersAreFiled(s.calls) by { FiledOnce(s.calls); }
    match e
    case Send(other, throws) => SendMeaning(s, other, throws);
    case TimerFires(d) =>
      TimerMeaning(s, d);
      OnlySettlesSpares(s.calls, s.calls.timers[d], d, Rejected(TimedOut), Step(s, e).calls, slot, c);
    case Receive(socket, msg) => FrameSpares(s, socket, msg, slot, c);
    case _ => QuietEvents(s, e);
  }

  lemma FiledOnce(k: Calls)
    requires OneToOne(k)
    ensures AtMostOnce(k) && TimersAreFiled(k)
  {
  }

  lemma OnlySettlesSpares(k: Calls, other: Slot, d: nat, o: Outcome, k': Calls, slot: Slot, c: nat)
    requires OnlySettles(k, other, d, o, k') && Filed(k, c, slot) && Filed(k, d, other) && d != c
    ensures Filed(k', c, slot)
  {
  }

  lemma FrameSpares(s: State, socket: nat, msg: Message, slot: Slot, c: nat)
    requires AtMostOnce(s.calls) && Enabled(s, Receive(socket, msg)) && Filed(s.calls, c, slot)
    requires Spares(Receive(socket, msg), slot, c)
    ensures Filed(Step(s, Receive(socket, msg)).calls, c, slot)
  {
    match msg
    case RfqResponse(id, quotes) => RfqResponseMeaning(s, socket, id, quotes);
    case BulkResponse(id, quotes) => BulkResponseMeaning(s, socket, id, quotes);
    case ErrorFrame(rid, noQuotes) => ErrorMeaning(s, socket, rid, noQuotes);
    case _ => OtherFramesTouchNothing(s, socket, msg);
    hide Step, AtMostOnce;
  }

  lemma {:induction false} StaysOnFile(s: State, es: seq<Event>, slot: Slot, c: nat)
    requires OneToOne(s.calls) && Legal(s, es) && NoReuse(s, es) && Filed(s.calls, c, slot)
    requires forall e :: e in es ==> Spares(e, slot, c)
    ensures OneToOne(Run(s, es).calls) && Filed(Run(s, es).calls, c, slot)
    decreases |es|
  {
    if es != [] {
      StepKeepsOneToOneIff(s, es[0]);
      StepSpares(s, es[0], slot, c);
      hide Step, OneToOne, Filed, Spares, Collides;
      assert forall e :: e in es[1..] ==> e in es;
      StaysOnFile(Step(s, es[0]), es[1..], slot, c);
    }
  }

  /** In every run without a reuse in flight, whenever a response comes for a call in flight the caller gets its
      quotes, and nothing else. */
  lemma EveryResponseReachesItsCall(s: State, es: seq<Event>, c: nat, socket: nat, quotes: Quotes)
    requires OneToOne(s.calls) && Legal(s, es) && NoReuse(s, es) && c in Run(s, es).calls.timers
    requires var t := Run(s, es); Enabled(t, Receive(socket, ResponseTo(t.calls.timers[c], quotes)))
    ensures var t := Run(s, es); var slot := t.calls.timers[c];
            OnlySettles(t.calls, slot, c, Resolved(quotes, Some(slot.id)),
                        Step(t, Receive(socket, ResponseTo(slot, quotes))).calls)
  {
    AlwaysOneToOneIffNoReuse(s, es);
    AlwaysMeansAtTheEnd(s, es);
    var t := Run(s, es);
    var slot := t.calls.timers[c];
    assert Filed(t.calls, c, slot);
    hide AlwaysOneToOne, Run;
    if slot.bulk {
      BulkResponseMeaning(t, socket, slot.id, quotes);
    } else {
      RfqResponseMeaning(t, socket, slot.id, quotes);
    }
    hide OneToOne, Step, OnlySettles;
  }

  /** From the send to the answer: a call sent on an open socket, through any events that neither answer it, time
      it out, close a socket nor reuse an id in flight, is told nothing until its response comes, and then gets
      the quotes. */
  lemma SentIsAnswered(s: State, slot: Slot, es: seq<Event>, socket: nat, quotes: Quotes)
    requires OneToOne(s.calls) && WsOpen(s.conn) && slot.id !in Table(s.calls, slot.bulk)
    requires var s1 := Step(s, Send(slot, false)); Legal(s1, es) && NoReuse(s1, es)
    requires forall e :: e in es ==> Spares(e, slot, |s.calls.deliveries|)
    requires Enabled(Run(Step(s, Send(slot, false)), es), Receive(socket, ResponseTo(slot, quotes)))
    ensures var t := Run(Step(s, Send(slot, false)), es); var c := |s.calls.deliveries|;
            && c < |t.calls.deliveries| && t.calls.deliveries[c] == []
            && OnlySettles(t.calls, slot, c, Resolved(quotes, Some(slot.id)),
                           Step(t, Receive(socket, ResponseTo(slot, quotes))).calls)
  {
    var s1, c := Step(s, Send(slot, false)), |s.calls.deliveries|;
    StepKeepsOneToOneIff(s, Send(slot, false));
    assert Filed(s1.calls, c, slot) by { SendMeaning(s, slot, false); }
    hide Step;
    StaysOnFile(s1, es, slot, c);
    var t := Run(s1, es);
    assert c in t.calls.timers && t.calls.timers[c] == slot;
    hide Run, Legal, OneToOne, Spares;
    EveryResponseReachesItsCall(s1, es, c, socket, quotes);
  }

  // ----- the connection -----

  /** After a connect the client is usable or waiting for the acknowledgement of its newest socket. */
  lemma ConnectMeaning(s: State)
    ensures var c, c' := s.conn, Step(s, Connect).conn;
            if (WsOpen(c) && c.helloAcked) || c.connecting then c' == c
            else c'.ws == Some(c.sockets) && c'.sockets == c.sockets + 1 && c'.connecting && !c'.helloAcked
                 && c'.status == Connecting && c'.open == c.open && c'.closed == c.closed
                 && c'.handshakes == c.handshakes && c'.reconnectAttempt == c.reconnectAttempt
                 && c'.reconnectTimers == c.reconnectTimers
  {
  }

  /** A reconnect timer leaves some socket current: a new one exactly when there was none. */
  lemma ReconnectMeaning(s: State)
    requires Enabled(s, ReconnectFires)
    ensures var c, c' := s.conn, Step(s, ReconnectFires).conn;
            && c'.ws == Some(if c.ws.None? then c.sockets else c.ws.value)
            && c'.reconnectTimers == c.reconnectTimers - 1 && (c.ws.None? <==> c'.sockets == c.sockets + 1)
  {
  }

  /** A close ends its socket, whether current or not: the client shows itself disconnected and schedules one
      more reconnect, and a connect promise that was still waiting is rejected. */
  lemma CloseDisconnects(s: State, k: nat)
    requires Enabled(s, SocketCloses(k))
    ensures var c, c' := s.conn, Step(s, SocketCloses(k)).conn;
            && c'.ws == (if c.ws == Some(k) then None else c.ws) && c'.closed == c.closed + {k} && k !in c'.open
            && c'.status == Disconnected && !c'.helloAcked && !c'.connecting
            && c'.reconnectTimers == c.reconnectTimers + 1 && c'.sockets == c.sockets
            && c'.handshakes == if k in c.handshakes then c.handshakes else c.handshakes[k := false]
  {
  }

  /** An opened socket can be sent on; a Hello that throws rejects its promise unless already settled. */
  lemma OpenMeaning(s: State, k: nat, throws: bool)
    requires Enabled(s, SocketOpens(k, throws))
    ensures var c, c' := s.conn, Step(s, SocketOpens(k, throws)).conn;
            c' == c.(open := c.open + {k},
                     handshakes := if throws && k !in c.handshakes then c.handshakes[k := false] else c.handshakes)
  {
  }

  /** An acknowledgement completes the handshake, starts the backoff over and resolves the promise if it was
      still waiting. */
  lemma AckMeaning(s: State, k: nat)
    requires Enabled(s, Receive(k, HelloAck))
    ensures var c, c' := s.conn, Step(s, Receive(k, HelloAck)).conn;
            c' == c.(helloAcked := true, connecting := false, status := Connected, reconnectAttempt := 0,
                     handshakes := if k in c.handshakes then c.handshakes else c.handshakes[k := true])
  {
  }

  /** The whole exchange from any disconnected state: connect, open, acknowledge, send, and the response to the
      new call resolves it with its quotes. */
  lemma ExchangeSucceeds(s: State, slot: Slot, quotes: Quotes)
    requires Healthy(s) && OneToOne(s.calls) && !s.conn.connecting && !(WsOpen(s.conn) && s.conn.helloAcked)
    requires slot.id !in Table(s.calls, slot.bulk)
    ensures var k, c := s.conn.sockets, |s.calls.deliveries|;
            var es := [Connect, SocketOpens(k, false), Receive(k, HelloAck), Send(slot, false)];
            && Legal(s, es) && Enabled(Run(s, es), Receive(k, ResponseTo(slot, quotes)))
            && var t := Step(Run(s, es), Receive(k, ResponseTo(slot, quotes)));
               && t.conn.status == Connected && c < |t.calls.deliveries|
               && t.calls.deliveries[c] == [Resolved(quotes, Some(slot.id))]
  {
    var k := s.conn.sockets;
    var s1 := Step(s, Connect);
    var s2 := Step(s1, SocketOpens(k, false));
    var s3 := Step(s2, Receive(k, HelloAck));
    assert WsOpen(s3.conn) && s3.calls == s.calls && s3.conn.status == Connected && Exists(s3.conn, k);
    var e := Send(slot, false);
    var s4 := Step(s3, e);
    assert s4.conn == s3.conn;
    hide Step, Healthy;
    NoEvents(s4);
    OneEvent(s3, e, []);
    assert [e] + [] == [e];
    OneEvent(s2, Receive(k, HelloAck), [e]);
    OneEvent(s1, SocketOpens(k, false), [Receive(k, HelloAck)] + [e]);
    OneEvent(s, Connect, [SocketOpens(k, false)] + ([Receive(k, HelloAck)] + [e]));
    assert [Connect] + ([SocketOpens(k, false)] + ([Receive(k, HelloAck)] + [e]))
           == [Connect, SocketOpens(k, false), Receive(k, HelloAck), e];
    SentIsAnswered(s3, slot, [], k, quotes);
    AnswerKeepsConnection(s4, k, slot, quotes);
  }

  lemma AnswerKeepsConnection(s: State, k: nat, slot: Slot, quotes: Quotes)
    requires Enabled(s, Receive(k, ResponseTo(slot, quotes)))
    ensures Step(s, Receive(k, ResponseTo(slot, quotes))).conn == s.conn
  {
  }

  // ----- the backoff -----

  /** Closes since the last acknowledgement. */
  function ClosesSinceAck(es: seq<Event>): nat {
    if es == [] then 0 else
    var last, before := es[|es| - 1], ClosesSinceAck(es[..|es| - 1]);
    if last.SocketCloses? then before + 1 else if last.Receive? && last.msg.HelloAck? then 0 else before
  }

  lemma RunSnoc(s: State, es: seq<Event>, e: Event)
    requires Legal(s, es + [e])
    ensures Legal(s, es) && Enabled(Run(s, es), e) && Run(s, es + [e]) == Step(Run(s, es), e)
    decreases |es|
  {
    if es == [] {
      assert ([e])[1..] == [] && [] + [e] == [e];
    } else {
      assert (es + [e])[1..] == es[1..] + [e];
      RunSnoc(Step(s, es[0]), es[1..], e);
    }
  }

  lemma StepCountsAttempts(s: State, e: Event)
    requires Enabled(s, e)
    ensures Step(s, e).conn.reconnectAttempt ==
            if e.SocketCloses? then s.conn.reconnectAttempt + 1
            else if e.Receive? && e.msg.HelloAck? then 0 else s.conn.reconnectAttempt
  {
  }

  /** The attempts counted are the closes since the last acknowledgement, in every run. */
  lemma {:induction false} AttemptsAreCloses(es: seq<Event>)
    requires Legal(INIT, es)
    ensures Run(INIT, es).conn.reconnectAttempt == ClosesSinceAck(es)
    decreases |es|
  {
    if es != [] {
      var n := |es| - 1;
      assert es == es[..n] + [es[n]];
      RunSnoc(INIT, es[..n], es[n]);
      AttemptsAreCloses(es[..n]);
      StepCountsAttempts(Run(INIT, es[..n]), es[n]);
      hide Step, Run;
    }
  }

  /** The first reconnect waits half a second, and each further one twice as long, up to eight seconds. */
  lemma DelayDoubles(attempt: nat)
    ensures ReconnectDelay(0) == 500
    ensures ReconnectDelay(attempt + 1) == if ReconnectDelay(attempt) <= 4000 then 2 * ReconnectDelay(attempt) else 8000
  {
    DelayBounds(attempt);
  }
}
