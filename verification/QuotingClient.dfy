/** The RFQ WebSocket client (frontend/src/api/quotingClient.ts): the class whose
    handlers and timers update its fields, each proved to be one step of
    `QuotingProtocol`.  The browser's sockets and timers and the promises handed
    to callers are fields too, so that a handler's whole effect is stated. */
module QuotingClient {
  import opened Wrappers
  import opened QuotingCalls
  import opened QuotingProtocol

  class Client {
    var ws: Option<nat>
    var connecting: bool
    var helloAcked: bool
    var status: Status
    var reconnectAttempt: nat
    var pending: map<string, nat>
    var pendingBulk: map<string, nat>
    // the browser
    var sockets: nat
    var open: set<nat>
    var closed: set<nat>
    var handshakes: map<nat, bool>
    var reconnectTimers: nat
    var timers: map<nat, Slot>
    // the callers' promises
    var ids: seq<string>
    var deliveries: seq<seq<Outcome>>

    function Conn(): Connection
      reads this
    {
      Connection(ws, connecting, helloAcked, status, reconnectAttempt,
                 sockets, open, closed, handshakes, reconnectTimers)
    }

    function InFlight(): Calls
      reads this
    {
      Calls(pending, pendingBulk, timers, ids, deliveries)
    }

    function View(): State
      reads this
    {
      State(Conn(), InFlight())
    }

    ghost predicate Valid()
      reads this
    {
      Healthy(View())
    }

    constructor ()
      ensures View() == INIT && Valid()
    {
      ws, connecting, helloAcked, status, reconnectAttempt := None, false, false, Disconnected, 0;
      pending, pendingBulk := map[], map[];
      sockets, open, closed, handshakes, reconnectTimers, timers := 0, {}, {}, map[], 0, map[];
      ids, deliveries := [], [];
    }

    // ----- the connection -----

    /** `ensureConnected`, up to the await. */
    method EnsureConnected()
      requires Valid()
      modifies this`ws, this`connecting, this`helloAcked, this`status, this`sockets
      ensures Valid() && View() == Step(old(View()), QuotingProtocol.Connect)
    {
      StepHealthy(View(), QuotingProtocol.Connect);
      hide Healthy;
      if ws.Some? && ws.value in open && helloAcked { return; }
      if !connecting {
        Connect();
        connecting := true;
      }
    }

    /** `connect`: open a socket and forget the old handshake. */
    method Connect()
      modifies this`ws, this`helloAcked, this`status, this`sockets
      ensures Conn() == OpenSocket(old(Conn())).(connecting := connecting) && sockets == old(sockets) + 1
    {
      status := Connecting;
      ws, helloAcked := Some(sockets), false;
      sockets := sockets + 1;
    }

    /** The open handler sends Hello; if that throws, the connect promise is rejected. */
    method OnOpen(k: nat, helloThrows: bool)
      requires Valid() && Enabled(View(), SocketOpens(k, helloThrows))
      modifies this`open, this`handshakes
      ensures Valid() && View() == Step(old(View()), SocketOpens(k, helloThrows))
    {
      StepHealthy(View(), SocketOpens(k, helloThrows));
      hide Healthy;
      open := open + {k};
      if helloThrows { handshakes := Shake(handshakes, k, false); }
    }

    /** The socket starts closing: it is not open any more, but its close handler has yet to run. */
    method OnClosing(k: nat)
      requires Valid() && Enabled(View(), SocketClosing(k))
      modifies this`open
      ensures Valid() && View() == Step(old(View()), SocketClosing(k))
    {
      StepHealthy(View(), SocketClosing(k));
      hide Healthy;
      open := open - {k};
    }

    /** The warm-reconnect timer fires. */
    method OnReconnectTimer()
      requires Valid() && Enabled(View(), ReconnectFires)
      modifies this`reconnectTimers, this`ws, this`connecting, this`helloAcked, this`status, this`sockets
      ensures Valid() && View() == Step(old(View()), ReconnectFires)
    {
      StepHealthy(View(), ReconnectFires);
      hide Healthy;
      reconnectTimers := reconnectTimers - 1;
      if ws.None? {
        Connect();
        connecting := true;
      }
    }

    // ----- calls -----

    /** `sendRfq`, from where the awaited connection is up. */
    method SendRfq(id: string, throws: bool) returns (call: nat)
      requires Valid()
      modifies this`ids, this`deliveries, this`timers, this`pending, this`pendingBulk
      ensures Valid() && View() == Step(old(View()), Send(Slot(false, id), throws)) && call == |old(deliveries)|
    {
      StepHealthy(View(), Send(Slot(false, id), throws));
      hide Healthy, Settle, File, ConnStep;
      if ws.None? || ws.value !in open {
        call := Refuse(id);
      } else {
        call := Enqueue(Slot(false, id), throws);
      }
    }

    /** `sendBulkView`, from where the awaited connection is up. */
    method SendBulkView(id: string, throws: bool) returns (call: nat)
      requires Valid()
      modifies this`ids, this`deliveries, this`timers, this`pending, this`pendingBulk
      ensures Valid() && View() == Step(old(View()), Send(Slot(true, id), throws)) && call == |old(deliveries)|
    {
      StepHealthy(View(), Send(Slot(true, id), throws));
      hide Healthy, Settle, File, ConnStep;
      if ws.None? || ws.value !in open {
        call := Refuse(id);
      } else {
        call := Enqueue(Slot(true, id), throws);
      }
    }

    /** The socket is not open: the call fails at once. */
    method Refuse(id: string) returns (call: nat)
      modifies this`ids, this`deliveries
      ensures ids == old(ids) + [id] && deliveries == old(deliveries) + [[Rejected(NotOpen)]]
      ensures call == |old(deliveries)|
    {
      call := |deliveries|;
      ids, deliveries := ids + [id], deliveries + [[Rejected(NotOpen)]];
    }

    /** Start the timer, file the promise and send the frame; if that throws, undo and reject. */
    method Enqueue(slot: Slot, throws: bool) returns (call: nat)
      modifies this`ids, this`deliveries, this`timers, this`pending, this`pendingBulk
      ensures InFlight() == AfterSend(old(InFlight()), true, slot, throws) && call == |old(deliveries)|
    {
      call := |deliveries|;
      ids, deliveries := ids + [slot.id], deliveries + [[]];
      timers := timers[call := slot];
      if slot.bulk { pendingBulk := pendingBulk[slot.id := call]; } else { pending := pending[slot.id := call]; }
      if throws {
        timers := timers - {call};
        if slot.bulk { pendingBulk := pendingBulk - {slot.id}; } else { pending := pending - {slot.id}; }
        deliveries := deliveries[call := deliveries[call] + [Rejected(SendFailed)]];
      }
    }

    /** A request timer fires. */
    method OnTimeout(call: nat)
      requires Valid() && Enabled(View(), TimerFires(call))
      modifies this`pending, this`pendingBulk, this`timers, this`deliveries
      ensures Valid() && View() == Step(old(View()), TimerFires(call))
    {
      StepHealthy(View(), TimerFires(call));
      TimersInRange(InFlight());
      hide Healthy, ConnStep;
      var slot := timers[call];
      if slot.bulk { pendingBulk := pendingBulk - {slot.id}; } else { pending := pending - {slot.id}; }
      timers := timers - {call};
      deliveries := deliveries[call := deliveries[call] + [Rejected(TimedOut)]];
    }

    method OnMessage(k: nat, msg: Message)
      requires Valid() && Enabled(View(), Receive(k, msg))
      modifies this`helloAcked, this`reconnectAttempt, this`connecting, this`status, this`handshakes
      modifies this`pending, this`pendingBulk, this`timers, this`deliveries
      ensures Valid() && View() == Step(old(View()), Receive(k, msg))
    {
      StepHealthy(View(), Receive(k, msg));
      ReceiveParts(View(), k, msg);
      assert AtMostOnce(InFlight());
      hide Healthy, AtMostOnce, Dispatch, Step, ConnStep;
      if msg.HelloAck? {
        Acknowledge(k);
        return;
      }
      DispatchFrame(msg);
    }

    /** `HelloAck`: the handshake is done and the connect promise resolves. */
    method Acknowledge(k: nat)
      modifies this`helloAcked, this`reconnectAttempt, this`connecting, this`status, this`handshakes
      ensures Conn() == ConnStep(old(Conn()), Receive(k, HelloAck))
    {
      helloAcked, reconnectAttempt, connecting, status := true, 0, false, Connected;
      handshakes := Shake(handshakes, k, true);
    }

    /** Clear a pending call's timer, drop it from its table and settle it. */
    method SettlePending(slot: Slot, o: Outcome)
      requires AtMostOnce(InFlight()) && slot.id in Table(InFlight(), slot.bulk)
      modifies this`pending, this`pendingBulk, this`timers, this`deliveries
      ensures InFlight() == Settle(old(InFlight()), slot, o)
    {
      TimersInRange(InFlight());
      hide AtMostOnce;
      var call := if slot.bulk then pendingBulk[slot.id] else pending[slot.id];
      timers := timers - {call};
      if slot.bulk { pendingBulk := pendingBulk - {slot.id}; } else { pending := pending - {slot.id}; }
      deliveries := deliveries[call := deliveries[call] + [o]];
    }

    /** `dispatch`. */
    method DispatchFrame(msg: Message)
      requires AtMostOnce(InFlight())
      modifies this`pending, this`pendingBulk, this`timers, this`deliveries
      ensures InFlight() == Dispatch(old(InFlight()), msg)
    {
      hide Settle, AtMostOnce;
      match msg
      case RfqResponse(id, quotes) =>
        if id in pending { SettlePending(Slot(false, id), Resolved(quotes, Some(id))); }
      case BulkResponse(id, quotes) =>
        if id in pendingBulk { SettlePending(Slot(true, id), Resolved(quotes, Some(id))); }
      case ErrorFrame(rid, noQuotes) =>
        if rid.Some? && rid.value != "" {
          if rid.value in pending {
            SettlePending(Slot(false, rid.value), if noQuotes then Resolved([], rid) else Rejected(ServiceError));
          } else if rid.value in pendingBulk {
            SettlePending(Slot(true, rid.value), Resolved([], rid));
          }
        }
      case _ =>
    }

    // ----- closing -----

    /** Settle every entry of a table, whatever the iteration order. */
    method FlushTable(table: map<string, nat>, o: Outcome)
      requires forall id :: id in table ==> table[id] < |deliveries|
      requires forall i, j :: i in table && j in table && table[i] == table[j] ==> i == j
      modifies this`timers, this`deliveries
      ensures timers == old(timers) - table.Values
      ensures deliveries == Told(old(deliveries), table.Values, o)
    {
      var left, done := table.Keys, {};
      while left != {}
        invariant left + done == table.Keys && left !! done
        invariant |deliveries| == |old(deliveries)|
        invariant timers == old(timers) - CallsOf(table, done)
        invariant deliveries == Told(old(deliveries), CallsOf(table, done), o)
        decreases left
      {
        var id :| id in left;
        var call := table[id];
        assert CallsOf(table, done + {id}) == CallsOf(table, done) + {call};
        assert call !in CallsOf(table, done);
        timers := timers - {call};
        deliveries := deliveries[call := deliveries[call] + [o]];
        left, done := left - {id}, done + {id};
      }
      assert done == table.Keys;
      assert CallsOf(table, done) == table.Values;
    }

    method FlushPending()
      requires AtMostOnce(InFlight())
      modifies this`pending, this`pendingBulk, this`timers, this`deliveries
      ensures InFlight() == FlushAll(old(InFlight()))
    {
      TimersInRange(InFlight());
      hide Told, AtMostOnce;
      FlushTable(pending, Rejected(Closed));
      ToldLength(old(deliveries), pending.Values, Rejected(Closed));
      pending := map[];
      FlushTable(pendingBulk, Resolved([], None));
      pendingBulk := map[];
    }

    method DropSocket(k: nat)
      modifies this`ws, this`helloAcked, this`connecting, this`status, this`open, this`closed, this`handshakes
      ensures Conn() == Dropped(old(Conn()), k).(reconnectAttempt := reconnectAttempt,
                                                 reconnectTimers := reconnectTimers)
    {
      open, closed := open - {k}, closed + {k};
      ws := if ws == Some(k) then None else ws;
      helloAcked, connecting, status := false, false, Disconnected;
      handshakes := Shake(handshakes, k, false);
    }

    /** The close handler of any socket this client ever opened. */
    method OnClose(k: nat)
      requires Valid() && Enabled(View(), SocketCloses(k))
      modifies this`ws, this`helloAcked, this`connecting, this`status, this`open, this`closed, this`handshakes
      modifies this`reconnectAttempt, this`reconnectTimers
      modifies this`pending, this`pendingBulk, this`timers, this`deliveries
      ensures Valid() && View() == Step(old(View()), SocketCloses(k))
    {
      StepHealthy(View(), SocketCloses(k));
      assert AtMostOnce(InFlight());
      hide Healthy, FlushAll, AtMostOnce;
      DropSocket(k);
      FlushPending();
      var delay := ScheduleReconnect();
    }

    /** `scheduleReconnect`, with the delay of its timer. */
    method ScheduleReconnect() returns (delay: nat)
      modifies this`reconnectAttempt, this`reconnectTimers
      ensures delay == ReconnectDelay(old(reconnectAttempt))
      ensures reconnectAttempt == old(reconnectAttempt) + 1 && reconnectTimers == old(reconnectTimers) + 1
    {
      delay := ReconnectDelay(reconnectAttempt);
      reconnectAttempt := reconnectAttempt + 1;
      reconnectTimers := reconnectTimers + 1;
    }
  }

  /** An acknowledgement touches no call, any other frame only calls. */
  lemma ReceiveParts(s: State, k: nat, msg: Message)
    requires Enabled(s, Receive(k, msg))
    ensures var s' := Step(s, Receive(k, msg));
            if msg.HelloAck? then s' == State(ConnStep(s.conn, Receive(k, HelloAck)), s.calls)
            else s' == State(s.conn, Dispatch(s.calls, msg))
  {
  }

  /** Timers and entries belong to calls that were made, and no call is filed twice. */
  lemma TimersInRange(k: Calls)
    requires AtMostOnce(k)
    ensures forall c :: c in k.timers ==> c < |k.deliveries|
    ensures forall id :: id in k.pending ==> k.pending[id] < |k.deliveries|
    ensures forall id :: id in k.pendingBulk ==> k.pendingBulk[id] < |k.deliveries|
    ensures forall i, j :: i in k.pending && j in k.pending && k.pending[i] == k.pending[j] ==> i == j
    ensures forall i, j :: i in k.pendingBulk && j in k.pendingBulk && k.pendingBulk[i] == k.pendingBulk[j] ==> i == j
  {
  }

  function CallsOf(table: map<string, nat>, ids: set<string>): set<nat> {
    set id | id in ids && id in table :: table[id]
  }

  lemma ToldLength(d: seq<seq<Outcome>>, calls: set<nat>, o: Outcome)
    ensures |Told(d, calls, o)| == |d|
  {
  }
}
