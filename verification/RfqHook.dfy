/** The debounced, cancellable RFQ hook (frontend/src/api/useRfq.ts) on top of the
    client: effect re-runs, debounce timers, connection waits, promise callbacks
    and every client event, including other callers' sends, in any order. */
module RfqHook {
  import opened Wrappers
  import opened QuotingCalls
  import opened QuotingProtocol
  import QuotingClient

  datatype Inputs = Inputs(spec: string, amount: string, side: int)

  datatype Options = Options(spec: Option<string>, amount: Option<string>, side: int, enabled: bool)

  /** The inputs to quote, or `None` when the hook is idle. */
  function Effective(o: Options): Option<Inputs> {
    if !o.enabled || o.spec.None? || o.amount.None? || o.amount.value == "0" then None
    else Some(Inputs(o.spec.value, o.amount.value, o.side))
  }

  datatype HookStatus = Idle | Pending | Ready | Failed

  /** What the error message reports: a rejected call, or a connection that did not come up. */
  datatype Failure = CallRejected(reason: Reason) | NoConnection

  /** An RFQ made by the effect instance `instance` for `inputs`. */
  datatype Request = Request(instance: nat, inputs: Inputs)

  /** Every instance but the current one is cancelled.  `shown` is the call whose
      answer is on display. */
  datatype Hook = Hook(
    inputs: Option<Inputs>, instance: nat, debouncing: bool, quotes: Quotes, status: HookStatus, error: Option<Failure>,
    shown: nat, awaiting: map<nat, Request>, tokens: nat, requests: map<nat, Request>, handled: set<nat>)

  datatype System = System(hook: Hook, client: State)

  const START := System(Hook(None, 0, false, [], Idle, None, 0, map[], 0, map[], {}), INIT)

  datatype Happening =
    | Effect(options: Options)                       // inputs changed, or refresh
    | DebounceFires
    | FrameGoes(token: nat, id: string, throws: bool) // the awaited connection is up: the frame goes out
    | ConnectFails(token: nat)
    | Callback(call: nat)                            // the promise's handlers run
    | ClientEvent(e: Event)

  predicate CanHappen(y: System, h: Happening) {
    match h
    case Effect(_) => true
    case DebounceFires => y.hook.debouncing && y.hook.inputs.Some?
    case FrameGoes(token, _, _) => token in y.hook.awaiting
    case ConnectFails(token) => token in y.hook.awaiting
    case Callback(call) =>
      call in y.hook.requests && call !in y.hook.handled && call < |y.client.calls.deliveries|
      && y.client.calls.deliveries[call] != []
    case ClientEvent(e) => Enabled(y.client, e)
  }

  function Restarted(k: Hook, inputs: Option<Inputs>): Hook {
    k.(inputs := inputs, instance := k.instance + 1, quotes := [], error := None,
       debouncing := inputs.Some?, status := if inputs.Some? then Pending else Idle)
  }

  function Awaiting(k: Hook): Hook
    requires k.inputs.Some?
  {
    k.(debouncing := false, tokens := k.tokens + 1,
       awaiting := k.awaiting[k.tokens := Request(k.instance, k.inputs.value)])
  }

  function Fail(k: Hook, r: Request): Hook {
    if r.instance == k.instance then k.(quotes := [], status := Failed, error := Some(NoConnection)) else k
  }

  function Handle(k: Hook, call: nat, o: Outcome): Hook
    requires call in k.requests
  {
    var marked := k.(handled := k.handled + {call});
    if k.requests[call].instance != k.instance then marked
    else match o
      case Resolved(quotes, _) => marked.(quotes := quotes, status := Ready, shown := call)
      case Rejected(reason) => marked.(quotes := [], status := Failed, error := Some(CallRejected(reason)))
  }

  function Next(y: System, h: Happening): System
    requires CanHappen(y, h)
  {
    var k := y.hook;
    match h
    case Effect(o) => y.(hook := Restarted(k, Effective(o)))
    case DebounceFires =>
      y.(hook := Awaiting(k))
    case FrameGoes(token, id, throws) =>
      System(k.(awaiting := k.awaiting - {token},
                requests := k.requests[|y.client.calls.deliveries| := k.awaiting[token]]),
             Step(y.client, Send(Slot(false, id), throws)))
    case ConnectFails(token) => y.(hook := Fail(k.(awaiting := k.awaiting - {token}), k.awaiting[token]))
    case Callback(call) => y.(hook := Handle(k, call, y.client.calls.deliveries[call][0]))
    case ClientEvent(e) => y.(client := Step(y.client, e))
  }

  // ----- what the steps do -----

  /** The options name a bucket and a non-zero amount to quote. */
  predicate Quotable(o: Options) { o.enabled && o.spec.Some? && o.amount.Some? && o.amount != Some("0") }

  /** New inputs cancel whatever ran before and clear the display: the hook is idle exactly when there is nothing
      to quote, and otherwise waits to ask for the bucket, amount and side of its options. */
  lemma EffectMeaning(y: System, o: Options)
    ensures var k, k' := y.hook, Next(y, Effect(o)).hook;
            && k'.instance == k.instance + 1 && k'.quotes == [] && k'.error == None
            && k'.awaiting == k.awaiting && k'.requests == k.requests && k'.handled == k.handled
            && k'.status == (if Quotable(o) then Pending else Idle) && k'.debouncing == Quotable(o)
            && (k'.inputs.Some? <==> Quotable(o))
            && (Quotable(o) ==> k'.inputs.value.spec == o.spec.value && k'.inputs.value.amount == o.amount.value
                                && k'.inputs.value.side == o.side)
    ensures Next(y, Effect(o)).client == y.client
  {
  }

  /** When the debounce is over the request waits for the connection, bound to its instance and inputs; when its
      frame goes out it is the newest call of the client, under the id given. */
  lemma RequestMeaning(y: System, token: nat, id: string, throws: bool)
    ensures CanHappen(y, DebounceFires) ==>
              var k, k' := y.hook, Next(y, DebounceFires).hook;
              && k'.awaiting == k.awaiting[k.tokens := Request(k.instance, k.inputs.value)] && !k'.debouncing
              && k'.tokens == k.tokens + 1 && k'.requests == k.requests && k'.status == k.status
    ensures CanHappen(y, FrameGoes(token, id, throws)) ==>
              var y' := Next(y, FrameGoes(token, id, throws)); var call := |y.client.calls.deliveries|;
              && y'.hook.requests == y.hook.requests[call := y.hook.awaiting[token]]
              && y'.hook.awaiting == y.hook.awaiting - {token} && y'.hook.status == y.hook.status
              && y'.client == Step(y.client, Send(Slot(false, id), throws))
  {
  }

  /** The handlers of a settled call: a cancelled instance paints nothing; the current one shows the quotes it
      was given, or no quotes and the reason. */
  lemma CallbackMeaning(y: System, call: nat)
    requires CanHappen(y, Callback(call))
    ensures var k, k', o := y.hook, Next(y, Callback(call)).hook, y.client.calls.deliveries[call][0];
            && k'.handled == k.handled + {call} && k'.inputs == k.inputs && k'.instance == k.instance
            && (k.requests[call].instance != k.instance ==>
                  k'.quotes == k.quotes && k'.status == k.status && k'.error == k.error && k'.shown == k.shown)
            && (k.requests[call].instance == k.instance && o.Resolved? ==>
                  k'.quotes == o.quotes && k'.status == Ready && k'.error == k.error && k'.shown == call)
            && (k.requests[call].instance == k.instance && o.Rejected? ==>
                  k'.quotes == [] && k'.status == Failed && k'.error == Some(CallRejected(o.reason)))
  {
  }

  /** A connection that does not come up: the same, with that as the reason. */
  lemma NoConnectionMeaning(y: System, token: nat)
    requires CanHappen(y, ConnectFails(token))
    ensures var k, k' := y.hook, Next(y, ConnectFails(token)).hook;
            && k'.awaiting == k.awaiting - {token} && k'.inputs == k.inputs && k'.instance == k.instance
            && if k.awaiting[token].instance == k.instance
               then k'.quotes == [] && k'.status == Failed && k'.error == Some(NoConnection)
               else k'.quotes == k.quotes && k'.status == k.status && k'.error == k.error
  {
  }

  // ----- what is on display -----

  /** A request of the current instance is for the current inputs. */
  predicate Current(k: Hook, r: Request) {
    r.instance <= k.instance && (r.instance == k.instance ==> k.inputs == Some(r.inputs))
  }

  /** The hook's own calls are RFQs, answered only by frames with their own id. */
  ghost predicate Answers(k: Hook, c: Calls) {
    && |c.ids| == |c.deliveries| && (forall x :: x in k.requests ==> x < |c.deliveries|)
    && (forall id :: id in c.pendingBulk ==> c.pendingBulk[id] !in k.requests)
    && (forall x, i :: x in k.requests && 0 <= i < |c.deliveries[x]| ==> AnswersTo(c.deliveries[x][i], c.ids[x]))
  }

  ghost predicate Requested(k: Hook) {
    && (forall t :: t in k.awaiting ==> Current(k, k.awaiting[t]))
    && (forall x :: x in k.requests ==> Current(k, k.requests[x]))
  }

  /** What is shown answers an RFQ whose frame carried the current inputs. */
  ghost predicate ShowsCurrent(y: System) {
    var k, c := y.hook, y.client.calls;
    k.status == Ready ==>
      && k.inputs.Some? && k.shown in k.requests && k.requests[k.shown] == Request(k.instance, k.inputs.value)
      && k.shown < |c.deliveries| && k.shown < |c.ids| && |c.deliveries[k.shown]| > 0
      && c.deliveries[k.shown][0] == Resolved(k.quotes, Some(c.ids[k.shown]))
  }

  ghost predicate Sound(y: System) {
    && Healthy(y.client) && Answers(y.hook, y.client.calls) && Requested(y.hook) && ShowsCurrent(y)
    && (y.hook.debouncing ==> y.hook.inputs.Some?)
    && (y.hook.status == Failed ==> y.hook.error.Some?)
  }

  // ----- the client only ever adds -----

  ghost predicate Grows(k: Calls, k': Calls) {
    && |k.deliveries| == |k.ids| && |k'.deliveries| == |k'.ids| && k.ids <= k'.ids
    && forall c :: 0 <= c < |k.deliveries| ==> k.deliveries[c] <= k'.deliveries[c]
  }

  lemma SettleGrows(k: Calls, slot: Slot, o: Outcome)
    requires |k.deliveries| == |k.ids| && slot.id in Table(k, slot.bulk)
    ensures Grows(k, Settle(k, slot, o))
  {
  }

  lemma FileGrows(k: Calls, slot: Slot)
    requires |k.deliveries| == |k.ids|
    ensures Grows(k, File(k, slot))
  {
  }

  lemma SendGrows(k: Calls, open: bool, slot: Slot, throws: bool)
    requires |k.deliveries| == |k.ids|
    ensures Grows(k, AfterSend(k, open, slot, throws))
  {
    if open {
      FileGrows(k, slot);
      SettleGrows(File(k, slot), slot, Rejected(SendFailed));
    }
  }

  lemma DispatchGrows(k: Calls, msg: Message)
    requires |k.deliveries| == |k.ids|
    ensures Grows(k, Dispatch(k, msg))
  {
    var t := Target(k, msg);
    if t.Some? { SettleGrows(k, t.value.0, t.value.1); }
  }

  lemma CallsGrow(k: Calls, open: bool, e: Event)
    requires |k.deliveries| == |k.ids| && (e.TimerFires? ==> e.call in k.timers)
    ensures Grows(k, CallStep(k, open, e))
  {
    hide Dispatch, AfterSend;
    if e.Receive? { DispatchGrows(k, e.msg); }
    if e.Send? { SendGrows(k, open, e.slot, e.throws); }
  }

  lemma SettleAnswers(h: Hook, k: Calls, slot: Slot, o: Outcome)
    requires Correlated(k) && Answers(h, k) && slot.id in Table(k, slot.bulk)
    requires !slot.bulk ==> AnswersTo(o, slot.id)
    ensures Answers(h, Settle(k, slot, o))
  {
    var k' := Settle(k, slot, o);
    forall x, i | x in h.requests && 0 <= i < |k'.deliveries[x]| ensures AnswersTo(k'.deliveries[x][i], k'.ids[x]) {
      if i < |k.deliveries[x]| { assert k'.deliveries[x][i] == k.deliveries[x][i]; }
    }
  }

  lemma FileAnswers(h: Hook, k: Calls, slot: Slot)
    requires Answers(h, k)
    ensures Answers(h, File(k, slot))
  {
  }

  lemma SendAnswers(h: Hook, k: Calls, open: bool, slot: Slot, throws: bool)
    requires Correlated(k) && Answers(h, k)
    ensures Answers(h, AfterSend(k, open, slot, throws))
  {
    if open {
      FileAnswers(h, k, slot);
      FileCorrelated(k, slot);
      hide Answers, Correlated, Settle;
      SettleAnswers(h, File(k, slot), slot, Rejected(SendFailed));
    }
  }

  lemma FlushAnswers(h: Hook, k: Calls)
    requires Answers(h, k)
    ensures Answers(h, FlushAll(k))
  {
    var k' := FlushAll(k);
    forall x, i | x in h.requests && 0 <= i < |k'.deliveries[x]| ensures AnswersTo(k'.deliveries[x][i], k'.ids[x]) {
      if i < |k.deliveries[x]| { assert k'.deliveries[x][i] == k.deliveries[x][i]; }
    }
  }

  lemma TimerAnswers(h: Hook, k: Calls, c: nat)
    requires Answers(h, k) && c in k.timers
    ensures Answers(h, AfterTimer(k, c))
  {
    var k' := AfterTimer(k, c);
    forall x, i | x in h.requests && 0 <= i < |k'.deliveries[x]| ensures AnswersTo(k'.deliveries[x][i], k'.ids[x]) {
      if i < |k.deliveries[x]| { assert k'.deliveries[x][i] == k.deliveries[x][i]; }
    }
  }

  lemma CallsAnswer(h: Hook, k: Calls, open: bool, e: Event)
    requires Correlated(k) && Answers(h, k) && (e.TimerFires? ==> e.call in k.timers)
    ensures Answers(h, CallStep(k, open, e))
  {
    hide Correlated, Answers, Dispatch, AfterSend, AfterTimer, FlushAll;
    match e
    case Send(slot, throws) => SendAnswers(h, k, open, slot, throws);
    case TimerFires(c) => TimerAnswers(h, k, c);
    case SocketCloses(_) => FlushAnswers(h, k);
    case Receive(_, msg) => DispatchAnswers(h, k, msg);
    case _ =>
  }

  lemma DispatchAnswers(h: Hook, k: Calls, msg: Message)
    requires Correlated(k) && Answers(h, k)
    ensures Answers(h, Dispatch(k, msg))
  {
    var t := Target(k, msg);
    if t.Some? { SettleAnswers(h, k, t.value.0, t.value.1); }
  }

  // ----- every step is sound -----

  lemma SameRequests(h: Hook, h': Hook, c: Calls)
    requires Answers(h, c) && Requested(h) && h'.requests == h.requests && h'.awaiting == h.awaiting
    requires h'.instance == h.instance && h'.inputs == h.inputs
    ensures Answers(h', c) && Requested(h')
  {
  }

  lemma CallbackSound(y: System, call: nat)
    requires Sound(y) && CanHappen(y, Callback(call))
    ensures Sound(Next(y, Callback(call)))
  {
    var o := y.client.calls.deliveries[call][0];
    assert AnswersTo(o, y.client.calls.ids[call]);
    assert Current(y.hook, y.hook.requests[call]);
    assert call < |y.client.calls.ids|;
    hide Healthy, Answers, Requested;
    SameRequests(y.hook, Handle(y.hook, call, o), y.client.calls);
  }

  /** What a client event leaves of what the hook relies on. */
  lemma ClientKeeps(y: System, e: Event)
    requires Sound(y) && Enabled(y.client, e)
    ensures var c := Step(y.client, e);
            Healthy(c) && Answers(y.hook, c.calls) && Grows(y.client.calls, c.calls)
  {
    StepHealthy(y.client, e);
    assert |y.client.calls.deliveries| == |y.client.calls.ids| && Correlated(y.client.calls);
    hide Healthy, Answers, Correlated, Grows, CallStep, ConnStep;
    CallsAnswer(y.hook, y.client.calls, WsOpen(y.client.conn), e);
    CallsGrow(y.client.calls, WsOpen(y.client.conn), e);
  }

  lemma FreshCall(k: Calls, open: bool, id: string, throws: bool)
    requires |k.deliveries| == |k.ids|
    ensures var k' := AfterSend(k, open, Slot(false, id), throws);
            && |k'.deliveries| == |k.deliveries| + 1 && k'.pendingBulk == k.pendingBulk
            && forall i :: 0 <= i < |k'.deliveries[|k.deliveries|]| ==> k'.deliveries[|k.deliveries|][i].Rejected?
  {
  }

  lemma FreshCallAnswers(h: Hook, k: Calls, open: bool, id: string, throws: bool, r: Request)
    requires Correlated(k) && Answers(h, k)
    ensures Answers(h.(requests := h.requests[|k.deliveries| := r]), AfterSend(k, open, Slot(false, id), throws))
  {
    SendAnswers(h, k, open, Slot(false, id), throws);
    FreshCall(k, open, id, throws);
    hide AfterSend;
  }

  lemma FrameGoesSound(y: System, token: nat, id: string, throws: bool)
    requires Sound(y) && CanHappen(y, FrameGoes(token, id, throws))
    ensures Sound(Next(y, FrameGoes(token, id, throws)))
  {
    var h, k, r := y.hook, y.client.calls, y.hook.awaiting[token];
    hide Healthy, AfterSend, Requested;
    ClientKeeps(y, Send(Slot(false, id), throws));
    FreshCallAnswers(h, k, WsOpen(y.client.conn), id, throws, r);
    FreshRequest(h, token, |k.deliveries|);
    ShownStays(y, Next(y, FrameGoes(token, id, throws)), token);
    hide Answers, ShowsCurrent, Grows;
  }

  /** A new call leaves what is shown alone. */
  lemma ShownStays(y: System, y': System, token: nat)
    requires ShowsCurrent(y) && Answers(y.hook, y.client.calls) && Grows(y.client.calls, y'.client.calls)
    requires token in y.hook.awaiting && var h, call := y.hook, |y.client.calls.deliveries|;
               y'.hook == h.(awaiting := h.awaiting - {token}, requests := h.requests[call := h.awaiting[token]])
    ensures ShowsCurrent(y')
  {
    assert |y.client.calls.deliveries| !in y.hook.requests;
    hide Answers;
  }

  lemma FreshRequest(h: Hook, token: nat, call: nat)
    requires Requested(h) && token in h.awaiting
    ensures Requested(h.(awaiting := h.awaiting - {token}, requests := h.requests[call := h.awaiting[token]]))
  {
  }

  lemma ClientEventSound(y: System, e: Event)
    requires Sound(y) && Enabled(y.client, e)
    ensures Sound(Next(y, ClientEvent(e)))
  {
    ClientKeeps(y, e);
    hide Step, Answers, Healthy;
  }

  lemma NextSound(y: System, h: Happening)
    requires Sound(y) && CanHappen(y, h)
    ensures Sound(Next(y, h))
  {
    match h
    case Callback(call) => CallbackSound(y, call);
    case FrameGoes(token, id, throws) => FrameGoesSound(y, token, id, throws);
    case ClientEvent(e) => ClientEventSound(y, e);
    case _ => HookOnlySound(y, h);
  }

  lemma HookOnlySound(y: System, h: Happening)
    requires Sound(y) && CanHappen(y, h) && (h.Effect? || h.DebounceFires? || h.ConnectFails?)
    ensures Sound(Next(y, h))
  {
    hide Healthy;
  }

  predicate Possible(y: System, hs: seq<Happening>)
    decreases |hs|
  {
    hs == [] || (CanHappen(y, hs[0]) && Possible(Next(y, hs[0]), hs[1..]))
  }

  function After(y: System, hs: seq<Happening>): System
    requires Possible(y, hs)
    decreases |hs|
  {
    if hs == [] then y else After(Next(y, hs[0]), hs[1..])
  }

  /** Over every sequence of input changes, refreshes, debounce firings, sends and
      late or stale answers: whenever the hook is ready, its quotes are the answer
      carried by a frame whose request id is that of the RFQ sent for the current
      spec, amount and side. */
  lemma {:induction false} ReadyQuotesAreForCurrentInputs(y: System, hs: seq<Happening>)
    requires Sound(y) && Possible(y, hs)
    ensures Sound(After(y, hs))
    ensures var z := After(y, hs);
            z.hook.status == Ready ==>
              exists call :: call in z.hook.requests
                && call < |z.client.calls.deliveries| && call < |z.client.calls.ids|
                && z.hook.inputs == Some(z.hook.requests[call].inputs)
                && |z.client.calls.deliveries[call]| > 0
                && z.client.calls.deliveries[call][0] == Resolved(z.hook.quotes, Some(z.client.calls.ids[call]))
    decreases |hs|
  {
    hide Next, Healthy, Answers, Requested;
    if hs != [] {
      NextSound(y, hs[0]);
      ReadyQuotesAreForCurrentInputs(Next(y, hs[0]), hs[1..]);
    }
  }

  lemma StartSound()
    ensures Sound(START)
  {
  }

  // ----- the hook as code -----

  /** The effect's closures over the hook's state setters and one shared client. */
  class UseRfq {
    const client: QuotingClient.Client
    var inputs: Option<Inputs>
    var instance: nat
    var debouncing: bool
    var quotes: Quotes
    var status: HookStatus
    var error: Option<Failure>
    var shown: nat
    var awaiting: map<nat, Request>
    var tokens: nat
    var requests: map<nat, Request>
    var handled: set<nat>

    function HookView(): Hook
      reads this
    {
      Hook(inputs, instance, debouncing, quotes, status, error, shown, awaiting, tokens, requests, handled)
    }

    function View(): System
      reads this, client
    {
      System(HookView(), client.View())
    }

    ghost predicate Valid()
      reads this, client
    {
      Sound(View())
    }

    constructor (client: QuotingClient.Client)
      requires client.View() == INIT
      ensures Valid() && View() == START && this.client == client
    {
      this.client := client;
      inputs, instance, debouncing, quotes, status, error, shown := None, 0, false, [], Idle, None, 0;
      awaiting, tokens, requests, handled := map[], 0, map[], {};
      new;
      StartSound();
    }

    /** Clean-up of the previous effect instance, then the effect body. */
    method OnEffect(o: Options)
      requires Valid()
      modifies this`inputs, this`instance, this`quotes, this`status, this`error, this`debouncing
      ensures Valid() && View() == Next(old(View()), Effect(o))
    {
      NextSound(View(), Effect(o));
      hide Sound;
      Restart(Effective(o));
    }

    /** A new effect instance: pending if there is something to quote, else idle. */
    method Restart(effective: Option<Inputs>)
      modifies this`inputs, this`instance, this`quotes, this`status, this`error, this`debouncing
      ensures HookView() == Restarted(old(HookView()), effective)
    {
      instance, inputs, quotes, error := instance + 1, effective, [], None;
      debouncing := inputs.Some?;
      status := if debouncing then Pending else Idle;
    }

    /** The debounce timer fires: `sendRfq` starts and awaits the connection. */
    method OnDebounce() returns (token: nat)
      requires Valid() && CanHappen(View(), DebounceFires)
      modifies this`debouncing, this`tokens, this`awaiting
      ensures Valid() && View() == Next(old(View()), DebounceFires) && token in awaiting
    {
      NextSound(View(), DebounceFires);
      hide Sound;
      token := Await();
    }

    /** `sendRfq` starts: a request for the instance's inputs waits for the connection. */
    method Await() returns (token: nat)
      requires inputs.Some?
      modifies this`debouncing, this`tokens, this`awaiting
      ensures HookView() == Awaiting(old(HookView())) && token in awaiting
    {
      token := tokens;
      debouncing, tokens := false, tokens + 1;
      awaiting := awaiting[token := Request(instance, inputs.value)];
    }

    /** The connection is up: the client sends the frame. */
    method OnFrameGoes(token: nat, id: string, throws: bool)
      requires Valid() && CanHappen(View(), FrameGoes(token, id, throws))
      modifies this`requests, this`awaiting, client
      ensures Valid() && View() == Next(old(View()), FrameGoes(token, id, throws))
    {
      NextSound(View(), FrameGoes(token, id, throws));
      assert client.Valid();
      hide Sound, Healthy, Step;
      var call := client.SendRfq(id, throws);
      requests := requests[call := awaiting[token]];
      awaiting := awaiting - {token};
    }

    method OnConnectFails(token: nat)
      requires Valid() && CanHappen(View(), ConnectFails(token))
      modifies this`awaiting, this`quotes, this`status, this`error
      ensures Valid() && View() == Next(old(View()), ConnectFails(token))
    {
      NextSound(View(), ConnectFails(token));
      hide Sound;
      GiveUp(token);
    }

    /** The rejection of the awaited connection: only a live instance shows it. */
    method GiveUp(token: nat)
      requires token in awaiting
      modifies this`awaiting, this`quotes, this`status, this`error
      ensures HookView() == Fail(old(HookView()).(awaiting := old(awaiting) - {token}), old(awaiting)[token])
    {
      var cancelled := awaiting[token].instance != instance;
      awaiting := awaiting - {token};
      if !cancelled { quotes, status, error := [], Failed, Some(NoConnection); }
    }

    /** The promise's handlers: a cancelled instance paints nothing. */
    method OnSettled(call: nat)
      requires Valid() && CanHappen(View(), Callback(call))
      modifies this`handled, this`quotes, this`status, this`error, this`shown
      ensures Valid() && View() == Next(old(View()), Callback(call))
    {
      NextSound(View(), Callback(call));
      hide Sound;
      Paint(call, client.deliveries[call][0]);
    }

    /** The handlers' state setters. */
    method Paint(call: nat, o: Outcome)
      requires call in requests
      modifies this`handled, this`quotes, this`status, this`error, this`shown
      ensures HookView() == Handle(old(HookView()), call, o)
    {
      handled := handled + {call};
      if requests[call].instance != instance { return; }
      match o
      case Resolved(entries, _) => quotes, status, shown := entries, Ready, call;
      case Rejected(reason) => quotes, status, error := [], Failed, Some(CallRejected(reason));
    }
  }
}
