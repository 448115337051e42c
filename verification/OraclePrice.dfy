/** The oracle price client (frontend/src/api/pyth.ts): subscriptions, the price
    cache, the one-time snapshot seed and the reconnecting socket, first as a
    machine over single events in any order, then as the class. */
module OraclePrice {
  import opened Wrappers
  import opened Chars

  /** Prices and confidences are opaque numbers here; times are exact. */
  datatype Price = Price(feedId: string, price: int, conf: int, publishTime: int)
  datatype Wire = Wire(feedId: string, price: int, conf: int, publishTimeMs: int)

  /** Drop a leading 0x and lower the case. */
  function Normalize(id: string): string {
    LowerAll(if "0x" <= id then id[2..] else id)
  }

  function PriceOf(w: Wire): Price {
    Price(Normalize(w.feedId), w.price, w.conf, w.publishTimeMs / 1000)
  }

  const BACKOFF_MIN_MS: nat := 1000
  const BACKOFF_MAX_MS: nat := 30000

  /** Subscribers are callback identities.  `delivered` is the last value each
      (feed, callback) pair was called with. */
  datatype State = State(
    subs: map<string, set<nat>>, last: map<string, Price>, ws: Option<nat>, sockets: nat, backoffMs: nat,
    retryTimer: bool, seeded: bool, snapshotPending: bool, delivered: map<(string, nat), Price>)

  const INIT := State(map[], map[], None, 0, BACKOFF_MIN_MS, false, false, false, map[])

  datatype Event =
    | Subscribe(feed: string, cb: nat, socketThrows: bool)
    | Unsubscribe(feed: string, cb: nat)
    | SocketOpens(socket: nat)
    | Frame(socket: nat, wire: Wire)
    | SocketCloses(socket: nat)
    | RetryFires(socketThrows: bool)
    | SnapshotArrives(prices: seq<Wire>)
    | SnapshotFails

  // ----- one event -----

  predicate Enabled(s: State, e: Event) {
    match e
    case SocketOpens(k) => k < s.sockets
    case Frame(k, _) => k < s.sockets
    case SocketCloses(k) => k < s.sockets
    case RetryFires(_) => s.retryTimer
    case SnapshotArrives(_) => s.snapshotPending
    case SnapshotFails => s.snapshotPending
    case _ => true
  }

  function ScheduleReconnect(s: State): State {
    if s.retryTimer || s.subs == map[] then s
    else s.(backoffMs := if s.backoffMs * 2 < BACKOFF_MAX_MS then s.backoffMs * 2 else BACKOFF_MAX_MS,
            retryTimer := true)
  }

  function AfterConnect(s: State, socketThrows: bool): State {
    if s.ws.Some? || s.retryTimer || s.subs == map[] then s
    else
      var seeding := if s.seeded then s else s.(seeded := true, snapshotPending := true);
      if socketThrows then ScheduleReconnect(seeding) else seeding.(ws := Some(s.sockets), sockets := s.sockets + 1)
  }

  /** Cache a price and call every current subscriber of its feed. */
  function Dispatch(s: State, w: Wire): State {
    var p := PriceOf(w);
    s.(last := s.last[p.feedId := p],
       delivered := if p.feedId in s.subs then s.delivered + Calls(p.feedId, s.subs[p.feedId], p) else s.delivered)
  }

  /** Each of the callbacks called with `p`. */
  function Calls(feed: string, cbs: set<nat>, p: Price): map<(string, nat), Price> {
    map x | x in Pairs(feed, cbs) :: p
  }

  function Pairs(feed: string, cbs: set<nat>): set<(string, nat)> { set cb | cb in cbs :: (feed, cb) }

  /** Seed feeds the cache has nothing for, in snapshot order. */
  function Seed(s: State, prices: seq<Wire>): State
    decreases |prices|
  {
    if prices == [] then s
    else Seed(if Normalize(prices[0].feedId) in s.last then s else Dispatch(s, prices[0]), prices[1..])
  }

  function AfterSubscribe(s: State, feed: string, cb: nat, socketThrows: bool): State {
    var id := Normalize(feed);
    var subscribed := s.(subs := s.subs[id := (if id in s.subs then s.subs[id] else {}) + {cb}]);
    var called := if id in s.last then subscribed.(delivered := s.delivered[(id, cb) := s.last[id]]) else subscribed;
    AfterConnect(called, socketThrows)
  }

  function AfterUnsubscribe(s: State, feed: string, cb: nat): State {
    var id := Normalize(feed);
    if id !in s.subs then s
    else if s.subs[id] - {cb} != {} then s.(subs := s.subs[id := s.subs[id] - {cb}])
    else
      var fewer := s.(subs := s.subs - {id});
      if fewer.subs == map[] then fewer.(retryTimer := false, ws := None) else fewer
  }

  function Step(s: State, e: Event): State
    requires Enabled(s, e)
  {
    match e
    case Subscribe(feed, cb, throws) => AfterSubscribe(s, feed, cb, throws)
    case Unsubscribe(feed, cb) => AfterUnsubscribe(s, feed, cb)
    case SocketOpens(_) => s.(backoffMs := BACKOFF_MIN_MS)
    case Frame(_, w) => Dispatch(s, w)
    // A deliberately closed socket has lost its close handler.
    case SocketCloses(k) => if s.ws == Some(k) then ScheduleReconnect(s.(ws := None)) else s
    case RetryFires(throws) => AfterConnect(s.(retryTimer := false), throws)
    case SnapshotArrives(prices) => Seed(s.(snapshotPending := false), prices)
    case SnapshotFails => s.(snapshotPending := false)
  }

  predicate Legal(s: State, es: seq<Event>)
    decreases |es|, 0
  {
    es == [] || (Legal(s, es[..|es| - 1]) && Enabled(Run(s, es[..|es| - 1]), es[|es| - 1]))
  }

  function Run(s: State, es: seq<Event>): State
    requires Legal(s, es)
    decreases |es|, 1
  {
    if es == [] then s else Step(Run(s, es[..|es| - 1]), es[|es| - 1])
  }

  // ----- the connection -----

  /** No subscription: neither socket nor retry timer.  Otherwise exactly one of
      the two.  Backoff stays in bounds. */
  ghost predicate Connected(s: State) {
    && (s.subs == map[] ==> s.ws.None? && !s.retryTimer)
    && (s.subs != map[] ==> (s.ws.Some? <==> !s.retryTimer))
    && BACKOFF_MIN_MS <= s.backoffMs <= BACKOFF_MAX_MS
    && (s.ws.Some? ==> s.ws.value < s.sockets)
    && (forall f :: f in s.subs ==> s.subs[f] != {})
  }

  lemma {:induction false} SeedKeepsConnection(s: State, prices: seq<Wire>)
    ensures var t := Seed(s, prices);
            t.subs == s.subs && t.ws == s.ws && t.sockets == s.sockets && t.backoffMs == s.backoffMs &&
            t.retryTimer == s.retryTimer && t.seeded == s.seeded && t.snapshotPending == s.snapshotPending
    decreases |prices|
  {
    if prices != [] {
      SeedKeepsConnection(if Normalize(prices[0].feedId) in s.last then s else Dispatch(s, prices[0]), prices[1..]);
    }
  }

  lemma ConnectConnects(s: State, socketThrows: bool)
    requires s.subs != map[] && !(s.ws.Some? && s.retryTimer) && BACKOFF_MIN_MS <= s.backoffMs <= BACKOFF_MAX_MS
    requires (s.ws.Some? ==> s.ws.value < s.sockets) && forall f :: f in s.subs ==> s.subs[f] != {}
    ensures Connected(AfterConnect(s, socketThrows))
  {
  }

  lemma SubscribeKeepsConnected(s: State, feed: string, cb: nat, socketThrows: bool)
    requires Connected(s)
    ensures Connected(AfterSubscribe(s, feed, cb, socketThrows))
  {
    hide Normalize, AfterConnect;
    var id := Normalize(feed);
    var subscribed := s.(subs := s.subs[id := (if id in s.subs then s.subs[id] else {}) + {cb}]);
    assert id in subscribed.subs;
    var called := if id in s.last then subscribed.(delivered := s.delivered[(id, cb) := s.last[id]]) else subscribed;
    ConnectConnects(called, socketThrows);
  }

  lemma UnsubscribeKeepsConnected(s: State, feed: string, cb: nat)
    requires Connected(s)
    ensures Connected(AfterUnsubscribe(s, feed, cb))
  {
    hide Normalize;
    var id := Normalize(feed);
    assert id in s.subs ==> id in s.subs[id := s.subs[id] - {cb}];
  }

  lemma StepKeepsConnected(s: State, e: Event)
    requires Connected(s) && Enabled(s, e)
    ensures Connected(Step(s, e))
  {
    match e
    case Subscribe(feed, cb, throws) => SubscribeKeepsConnected(s, feed, cb, throws);
    case Unsubscribe(feed, cb) => UnsubscribeKeepsConnected(s, feed, cb);
    case SnapshotArrives(prices) => SeedKeepsConnection(s.(snapshotPending := false), prices);
    case RetryFires(throws) => if s.subs != map[] { ConnectConnects(s.(retryTimer := false), throws); }
    case _ =>
  }

  /** In every reachable state the client is connected, or about to retry, exactly
      while somebody is subscribed. */
  lemma {:induction false} EveryRunStaysConnected(s: State, es: seq<Event>)
    requires Connected(s) && Legal(s, es)
    ensures Connected(Run(s, es))
    decreases |es|
  {
    if es != [] {
      EveryRunStaysConnected(s, es[..|es| - 1]);
      StepKeepsConnected(Run(s, es[..|es| - 1]), es[|es| - 1]);
    }
  }

  // ----- the cache -----

  function Get<V>(m: map<string, V>, f: string): Option<V> { if f in m then Some(m[f]) else None }

  /** The most recent live frame of a feed. */
  function LatestFrame(es: seq<Event>, f: string): Option<Price> {
    if es == [] then None
    else
      var e := es[|es| - 1];
      if e.Frame? && Normalize(e.wire.feedId) == f then Some(PriceOf(e.wire)) else LatestFrame(es[..|es| - 1], f)
  }

  function FirstEntry(prices: seq<Wire>, f: string): Option<Price> {
    if prices == [] then None
    else if Normalize(prices[0].feedId) == f then Some(PriceOf(prices[0])) else FirstEntry(prices[1..], f)
  }

  /** The snapshot's first price for a feed, if a snapshot arrived. */
  function SnapshotPrice(es: seq<Event>, f: string): Option<Price> {
    if es == [] then None
    else if es[|es| - 1].SnapshotArrives? then FirstEntry(es[|es| - 1].prices, f)
    else SnapshotPrice(es[..|es| - 1], f)
  }

  function Or<T>(a: Option<T>, b: Option<T>): Option<T> { if a.Some? then a else b }

  lemma {:induction false} SeedFillsGaps(s: State, prices: seq<Wire>, f: string)
    ensures Get(Seed(s, prices).last, f) == Or(Get(s.last, f), FirstEntry(prices, f))
    decreases |prices|
  {
    if prices != [] {
      SeedFillsGaps(if Normalize(prices[0].feedId) in s.last then s else Dispatch(s, prices[0]), prices[1..], f);
    }
  }

  lemma ConnectTouches(s: State, socketThrows: bool)
    ensures var t := AfterConnect(s, socketThrows);
            t.subs == s.subs && t.last == s.last && t.delivered == s.delivered &&
            (t.snapshotPending ==> s.snapshotPending || !s.seeded) && (s.seeded ==> t.seeded) &&
            (t.snapshotPending && !s.snapshotPending ==> t.seeded) && (!t.seeded ==> !s.seeded)
  {
  }

  /** What a step does to the cache and to the seeding flags. */
  lemma StepEffects(s: State, e: Event)
    requires Enabled(s, e)
    ensures var t := Step(s, e);
            && (e.Frame? ==> t.last == s.last[Normalize(e.wire.feedId) := PriceOf(e.wire)])
            && (!e.Frame? && !e.SnapshotArrives? ==> t.last == s.last)
            && (e.SnapshotArrives? ==> !t.snapshotPending && t.seeded == s.seeded)
            && (!t.seeded ==> !s.seeded)
            && (t.snapshotPending ==> s.snapshotPending || (!s.seeded && t.seeded))
  {
    hide Normalize, PriceOf, Seed, AfterConnect;
    match e
    case Subscribe(feed, cb, throws) =>
      var id := Normalize(feed);
      var subscribed := s.(subs := s.subs[id := (if id in s.subs then s.subs[id] else {}) + {cb}]);
      ConnectTouches(if id in s.last then subscribed.(delivered := s.delivered[(id, cb) := s.last[id]]) else subscribed,
                     throws);
    case RetryFires(throws) => ConnectTouches(s.(retryTimer := false), throws);
    case SnapshotArrives(prices) => SeedKeepsConnection(s.(snapshotPending := false), prices);
    case Frame(_, w) => FrameEffect(s, w);
    case _ =>
  }

  lemma FrameEffect(s: State, w: Wire)
    ensures Dispatch(s, w).last == s.last[Normalize(w.feedId) := PriceOf(w)]
  {
  }

  /** How many snapshot requests have been answered, by prices or by a failure. */
  function Answered(es: seq<Event>): nat {
    if es == [] then 0
    else Answered(es[..|es| - 1]) + if es[|es| - 1].SnapshotArrives? || es[|es| - 1].SnapshotFails? then 1 else 0
  }

  function Count(b: bool): nat { if b then 1 else 0 }

  lemma ConnectAsksOnce(s: State, socketThrows: bool)
    requires s.snapshotPending ==> s.seeded
    ensures var t := AfterConnect(s, socketThrows);
            Count(t.seeded) - Count(t.snapshotPending) == Count(s.seeded) - Count(s.snapshotPending)
            && (t.snapshotPending ==> t.seeded)
  {
  }

  /** A step asks for the snapshot when it sets the flag, and answers it when it clears the request. */
  lemma StepAsksOnce(s: State, e: Event)
    requires Enabled(s, e) && (s.snapshotPending ==> s.seeded)
    ensures var t := Step(s, e);
            && (t.snapshotPending ==> t.seeded)
            && Count(t.seeded) - Count(t.snapshotPending)
               == Count(s.seeded) - Count(s.snapshotPending) + Count(e.SnapshotArrives? || e.SnapshotFails?)
  {
    hide Normalize, PriceOf, Seed, AfterConnect, Count;
    CountsDiffer();
    match e
    case Subscribe(feed, cb, throws) =>
      var id := Normalize(feed);
      var subscribed := s.(subs := s.subs[id := (if id in s.subs then s.subs[id] else {}) + {cb}]);
      var told := if id in s.last then s.delivered[(id, cb) := s.last[id]] else s.delivered;
      ConnectAsksOnce(subscribed.(delivered := told), throws);
    case RetryFires(throws) => ConnectAsksOnce(s.(retryTimer := false), throws);
    case SnapshotArrives(prices) => SeedKeepsConnection(s.(snapshotPending := false), prices);
    case _ =>
  }

  lemma CountsDiffer()
    ensures Count(true) == 1 && Count(false) == 0
  {
  }

  /** The snapshot is asked for at most once in any run: the answers that came and the one still awaited are
      together one if the client has asked, and none before. */
  lemma {:induction false} OneSnapshot(es: seq<Event>)
    requires Legal(INIT, es)
    ensures var s := Run(INIT, es);
            && Answered(es) + Count(s.snapshotPending) == Count(s.seeded)
            && Answered(es) <= 1 && (s.snapshotPending ==> Answered(es) == 0)
    decreases |es|
  {
    if es != [] {
      OneSnapshot(es[..|es| - 1]);
      StepAsksOnce(Run(INIT, es[..|es| - 1]), es[|es| - 1]);
      hide Step;
    }
  }

  /** Before the one answer there is no snapshot price. */
  lemma {:induction false} NoAnswerNoPrice(es: seq<Event>, f: string)
    requires Answered(es) == 0
    ensures SnapshotPrice(es, f) == None
  {
    if es != [] { NoAnswerNoPrice(es[..|es| - 1], f); }
  }

  /** In every interleaving, the cached price of a feed is its latest live frame if
      any arrived, and otherwise the snapshot's first entry for it. */
  lemma {:induction false} CacheIsLatest(es: seq<Event>, f: string)
    requires Legal(INIT, es)
    ensures Get(Run(INIT, es).last, f) == Or(LatestFrame(es, f), SnapshotPrice(es, f))
    decreases |es|
  {
    if es != [] {
      var before, e := es[..|es| - 1], es[|es| - 1];
      CacheIsLatest(before, f);
      OneSnapshot(before);
      if Answered(before) == 0 { NoAnswerNoPrice(before, f); }
      StepEffects(Run(INIT, before), e);
      if e.SnapshotArrives? {
        SeedFillsGaps(Run(INIT, before).(snapshotPending := false), e.prices, f);
      } else {
        hide Step, Normalize;
      }
    }
  }

  // ----- what a frame caches and tells -----

  /** Seconds since the epoch, rounded down. */
  ghost predicate SecondsOf(seconds: int, ms: int) { 1000 * seconds <= ms < 1000 * seconds + 1000 }

  /** The cached price is the frame's: its price, its confidence, its time in seconds. */
  ghost predicate Caches(p: Price, w: Wire) {
    && p.price == w.price && p.conf == w.conf && SecondsOf(p.publishTime, w.publishTimeMs)
    && p.feedId == (if "0x" <= w.feedId then LowerAll(w.feedId[2..]) else LowerAll(w.feedId))
  }

  /** A frame caches its own fields under its feed and tells each subscriber of that feed exactly that; no
      other feed and no other subscriber is touched. */
  lemma FrameMeaning(s: State, k: nat, w: Wire)
    requires Enabled(s, Frame(k, w))
    ensures var t, f := Step(s, Frame(k, w)), Normalize(w.feedId);
            && f in t.last && Caches(t.last[f], w) && t.last == s.last[f := t.last[f]]
            && (f in s.subs ==>
                  forall cb :: cb in s.subs[f] ==> (f, cb) in t.delivered && t.delivered[(f, cb)] == t.last[f])
            && (forall x: (string, nat) :: (x.0 != f || f !in s.subs || x.1 !in s.subs[f]) ==>
                  (x in t.delivered <==> x in s.delivered)
                  && (x in s.delivered && x in t.delivered ==> t.delivered[x] == s.delivered[x]))
            && t == s.(last := t.last, delivered := t.delivered)
  {
    var f := Normalize(w.feedId);
    if f in s.subs {
      forall cb | cb in s.subs[f] ensures (f, cb) in Pairs(f, s.subs[f]) { }
      forall x | x in Pairs(f, s.subs[f]) ensures x.0 == f && x.1 in s.subs[f] { }
    }
  }

  /** A snapshot entry is cached as a frame would be, but only for a feed with no price yet. */
  lemma {:induction false} SnapshotMeaning(s: State, prices: seq<Wire>, f: string)
    requires s.snapshotPending
    ensures var t := Step(s, SnapshotArrives(prices));
            && (f in s.last ==> f in t.last && t.last[f] == s.last[f])
            && (f !in s.last && f in t.last ==>
                  exists i :: 0 <= i < |prices| && Normalize(prices[i].feedId) == f && Caches(t.last[f], prices[i])
                    && forall j :: 0 <= j < i ==> Normalize(prices[j].feedId) != f)
            && (f !in t.last ==> forall i :: 0 <= i < |prices| ==> Normalize(prices[i].feedId) != f)
  {
    SeedFillsGaps(s.(snapshotPending := false), prices, f);
    var i := FirstEntryAt(prices, f);
    hide Seed, Normalize;
  }

  lemma {:induction false} FirstEntryAt(prices: seq<Wire>, f: string) returns (i: nat)
    ensures i <= |prices| && forall j :: 0 <= j < i ==> Normalize(prices[j].feedId) != f
    ensures i < |prices| ==> Normalize(prices[i].feedId) == f && FirstEntry(prices, f).Some?
                             && Caches(FirstEntry(prices, f).value, prices[i])
    ensures i == |prices| ==> FirstEntry(prices, f).None?
  {
    if prices == [] {
      i := 0;
    } else if Normalize(prices[0].feedId) == f {
      i := 0;
      PriceFields(prices[0]);
    } else {
      var k := FirstEntryAt(prices[1..], f);
      i := k + 1;
      hide Normalize;
      forall j | 0 <= j < i ensures Normalize(prices[j].feedId) != f {
        if j > 0 { assert prices[j] == prices[1..][j - 1]; }
      }
    }
  }

  lemma PriceFields(w: Wire)
    ensures Caches(PriceOf(w), w) && PriceOf(w).feedId == Normalize(w.feedId)
  {
  }

  // ----- who is subscribed -----

  /** The last thing callback `cb` did about feed `f` was to subscribe. */
  function Wants(es: seq<Event>, f: string, cb: nat): bool {
    if es == [] then false else
    var e := es[|es| - 1];
    if e.Subscribe? && Normalize(e.feed) == f && e.cb == cb then true
    else if e.Unsubscribe? && Normalize(e.feed) == f && e.cb == cb then false
    else Wants(es[..|es| - 1], f, cb)
  }

  lemma SubscribeSubscribes(s: State, feed: string, x: nat, throws: bool, f: string, cb: nat)
    ensures var t := AfterSubscribe(s, feed, x, throws);
            (f in t.subs && cb in t.subs[f]) <==> (Normalize(feed) == f && x == cb) || (f in s.subs && cb in s.subs[f])
  {
    hide Normalize, AfterConnect;
    var id := Normalize(feed);
    var subscribed := s.(subs := s.subs[id := (if id in s.subs then s.subs[id] else {}) + {x}]);
    ConnectTouches(if id in s.last then subscribed.(delivered := s.delivered[(id, x) := s.last[id]]) else subscribed,
                   throws);
  }

  lemma UnsubscribeUnsubscribes(s: State, feed: string, x: nat, f: string, cb: nat)
    ensures var t := AfterUnsubscribe(s, feed, x);
            (f in t.subs && cb in t.subs[f]) <==> !(Normalize(feed) == f && x == cb) && f in s.subs && cb in s.subs[f]
  {
    hide Normalize;
    var id := Normalize(feed);
    assert id in s.subs && cb in s.subs[id] && cb != x ==> cb in s.subs[id] - {x};
  }

  lemma StepSubscribes(s: State, e: Event, f: string, cb: nat)
    requires Enabled(s, e)
    ensures var t := Step(s, e);
            (f in t.subs && cb in t.subs[f]) <==>
            if e.Subscribe? && Normalize(e.feed) == f && e.cb == cb then true
            else if e.Unsubscribe? && Normalize(e.feed) == f && e.cb == cb then false
            else f in s.subs && cb in s.subs[f]
  {
    hide Normalize, AfterConnect, AfterSubscribe, AfterUnsubscribe, Seed;
    match e
    case Subscribe(feed, x, throws) => SubscribeSubscribes(s, feed, x, throws, f, cb);
    case Unsubscribe(feed, x) => UnsubscribeUnsubscribes(s, feed, x, f, cb);
    case RetryFires(throws) => ConnectTouches(s.(retryTimer := false), throws);
    case SnapshotArrives(prices) => SeedKeepsConnection(s.(snapshotPending := false), prices);
    case _ =>
  }

  /** In every run the subscribers are exactly those who last asked to be. */
  lemma {:induction false} SubscribersAreThoseWanting(es: seq<Event>, f: string, cb: nat)
    requires Legal(INIT, es)
    ensures var s := Run(INIT, es); (f in s.subs && cb in s.subs[f]) <==> Wants(es, f, cb)
    decreases |es|
  {
    if es != [] {
      SubscribersAreThoseWanting(es[..|es| - 1], f, cb);
      StepSubscribes(Run(INIT, es[..|es| - 1]), es[|es| - 1], f, cb);
      hide Step, Normalize;
    }
  }

  ghost predicate SomebodySubscribed(es: seq<Event>) { exists i :: 0 <= i < |es| && es[i].Subscribe? }

  /** What is up has been seeded, and nothing is up or seeded before the first subscription. */
  ghost predicate SeededWith(s: State, asked: bool) {
    && (s.ws.Some? || s.retryTimer ==> s.seeded) && (s.seeded <==> asked)
    && (!asked ==> s.subs == map[] && !s.retryTimer && s.ws.None?)
  }

  lemma ConnectSeeds(s: State, throws: bool)
    requires s.subs != map[] && (s.ws.Some? || s.retryTimer ==> s.seeded)
    ensures AfterConnect(s, throws).seeded
  {
  }

  lemma StepSeeds(s: State, e: Event, asked: bool)
    requires SeededWith(s, asked) && Enabled(s, e)
    ensures SeededWith(Step(s, e), asked || e.Subscribe?)
  {
    hide Normalize, Seed;
    match e
    case Subscribe(feed, cb, throws) =>
      var id := Normalize(feed);
      var subscribed := s.(subs := s.subs[id := (if id in s.subs then s.subs[id] else {}) + {cb}]);
      assert id in subscribed.subs;
      ConnectSeeds(if id in s.last then subscribed.(delivered := s.delivered[(id, cb) := s.last[id]]) else subscribed,
                   throws);
    case SnapshotArrives(prices) => SeedKeepsConnection(s.(snapshotPending := false), prices);
    case _ =>
  }

  /** The snapshot has been asked for exactly once somebody has subscribed. */
  lemma {:induction false} SeededIffSubscribed(es: seq<Event>)
    requires Legal(INIT, es)
    ensures SeededWith(Run(INIT, es), SomebodySubscribed(es))
    decreases |es|
  {
    if es != [] {
      var before, e := es[..|es| - 1], es[|es| - 1];
      SeededIffSubscribed(before);
      StepSeeds(Run(INIT, before), e, SomebodySubscribed(before));
      assert SomebodySubscribed(es) <==> SomebodySubscribed(before) || e.Subscribe? by {
        if SomebodySubscribed(before) {
          var i :| 0 <= i < |before| && before[i].Subscribe?;
          assert es[i].Subscribe?;
        }
        if SomebodySubscribed(es) {
          var i :| 0 <= i < |es| && es[i].Subscribe?;
          assert i < |before| ==> before[i].Subscribe?;
        }
      }
      hide Step, SeededWith, SomebodySubscribed;
    }
  }

  /** The backoff: an opened socket starts it over, the close of the current one doubles it up to the cap and
      leaves a retry pending. */
  lemma BackoffMeaning(s: State, k: nat)
    requires k < s.sockets
    ensures Step(s, SocketOpens(k)).backoffMs == 1000
    ensures s.ws == Some(k) && s.subs != map[] && !s.retryTimer ==>
              var t := Step(s, SocketCloses(k));
              t.ws == None && t.retryTimer && t.backoffMs == if 2 * s.backoffMs < 30000 then 2 * s.backoffMs else 30000
    ensures s.ws != Some(k) ==> Step(s, SocketCloses(k)) == s
  {
  }

  // ----- subscribers -----

  /** Every current subscriber was last called with what the cache holds, and was
      not called at all while the cache holds nothing. */
  ghost predicate InStep(s: State) {
    && (forall f, cb :: f in s.subs && cb in s.subs[f] && f in s.last ==>
          (f, cb) in s.delivered && s.delivered[(f, cb)] == s.last[f])
    && (forall x :: x in s.delivered ==> x.0 in s.last)
  }

  lemma DispatchInStep(s: State, w: Wire)
    requires InStep(s)
    ensures InStep(Dispatch(s, w))
  {
    var p, t := PriceOf(w), Dispatch(s, w);
    forall f, cb | f in t.subs && cb in t.subs[f] && f in t.last
      ensures (f, cb) in t.delivered && t.delivered[(f, cb)] == t.last[f]
    {
      if f == p.feedId {
        assert (f, cb) in Pairs(f, s.subs[f]);
      } else {
        assert (f, cb) in s.delivered;
      }
    }
  }

  lemma {:induction false} SeedInStep(s: State, prices: seq<Wire>)
    requires InStep(s)
    ensures InStep(Seed(s, prices))
    decreases |prices|
  {
    if prices != [] {
      DispatchInStep(s, prices[0]);
      SeedInStep(if Normalize(prices[0].feedId) in s.last then s else Dispatch(s, prices[0]), prices[1..]);
    }
  }

  lemma SubscribeInStep(s: State, feed: string, cb: nat, socketThrows: bool)
    requires InStep(s)
    ensures InStep(AfterSubscribe(s, feed, cb, socketThrows))
  {
    hide Normalize, AfterConnect;
    var id := Normalize(feed);
    var subscribed := s.(subs := s.subs[id := (if id in s.subs then s.subs[id] else {}) + {cb}]);
    var called := if id in s.last then subscribed.(delivered := s.delivered[(id, cb) := s.last[id]]) else subscribed;
    ConnectTouches(called, socketThrows);
    forall f, x | f in called.subs && x in called.subs[f] && f in called.last
      ensures (f, x) in called.delivered && called.delivered[(f, x)] == called.last[f]
    {
      if !(f == id && x == cb) {
        assert f in s.subs && x in s.subs[f];
      }
    }
  }

  lemma UnsubscribeInStep(s: State, feed: string, cb: nat)
    requires InStep(s)
    ensures InStep(AfterUnsubscribe(s, feed, cb))
  {
    hide Normalize;
    var t := AfterUnsubscribe(s, feed, cb);
    forall f, x | f in t.subs && x in t.subs[f] ensures f in s.subs && x in s.subs[f] {
    }
  }

  lemma StepInStep(s: State, e: Event)
    requires InStep(s) && Enabled(s, e)
    ensures InStep(Step(s, e))
  {
    hide AfterSubscribe, AfterUnsubscribe, Dispatch, Seed, AfterConnect;
    match e
    case Subscribe(feed, cb, throws) => SubscribeInStep(s, feed, cb, throws);
    case Unsubscribe(feed, cb) => UnsubscribeInStep(s, feed, cb);
    case Frame(_, w) => DispatchInStep(s, w);
    case SnapshotArrives(prices) => SeedInStep(s.(snapshotPending := false), prices);
    case RetryFires(throws) => ConnectTouches(s.(retryTimer := false), throws);
    case _ =>
  }

  /** In every reachable state every current subscriber has seen the cached price. */
  lemma {:induction false} EverySubscriberSeesCache(es: seq<Event>)
    requires Legal(INIT, es)
    ensures InStep(Run(INIT, es))
    decreases |es|
  {
    if es != [] {
      EverySubscriberSeesCache(es[..|es| - 1]);
      StepInStep(Run(INIT, es[..|es| - 1]), es[|es| - 1]);
    }
  }

  // ----- the client as code -----

  class OraclePriceClient {
    var subs: map<string, set<nat>>
    var last: map<string, Price>
    var ws: Option<nat>
    var sockets: nat
    var backoffMs: nat
    var retryTimer: bool
    var seeded: bool
    var snapshotPending: bool
    var delivered: map<(string, nat), Price>

    function View(): State
      reads this
    {
      State(subs, last, ws, sockets, backoffMs, retryTimer, seeded, snapshotPending, delivered)
    }

    constructor ()
      ensures View() == INIT
    {
      subs, last, ws, sockets, backoffMs := map[], map[], None, 0, BACKOFF_MIN_MS;
      retryTimer, seeded, snapshotPending, delivered := false, false, false, map[];
    }

    method OnSubscribe(feed: string, cb: nat, socketThrows: bool)
      modifies this
      ensures View() == Step(old(View()), Subscribe(feed, cb, socketThrows))
    {
      hide Normalize, AfterConnect;
      var id := Normalize(feed);
      var set0 := if id in subs then subs[id] else {};
      subs := subs[id := set0 + {cb}];
      if id in last { delivered := delivered[(id, cb) := last[id]]; }
      Connect(socketThrows);
    }

    method OnUnsubscribe(feed: string, cb: nat)
      modifies this
      ensures View() == Step(old(View()), Unsubscribe(feed, cb))
    {
      hide Normalize;
      var id := Normalize(feed);
      if id !in subs { return; }
      var rest := subs[id] - {cb};
      if rest != {} {
        subs := subs[id := rest];
        return;
      }
      subs := subs - {id};
      if subs == map[] { Disconnect(); }
    }

    method Connect(socketThrows: bool)
      modifies this`seeded, this`snapshotPending, this`backoffMs, this`retryTimer, this`ws, this`sockets
      ensures View() == AfterConnect(old(View()), socketThrows)
    {
      if ws.Some? || retryTimer || subs == map[] { return; }
      if !seeded { seeded, snapshotPending := true, true; }
      if socketThrows {
        ScheduleRetry();
        return;
      }
      ws, sockets := Some(sockets), sockets + 1;
    }

    method Disconnect()
      modifies this`retryTimer, this`ws
      ensures !retryTimer && ws == None
    {
      if retryTimer { retryTimer := false; }
      if ws.Some? { ws := None; }
    }

    method ScheduleRetry()
      modifies this`backoffMs, this`retryTimer
      ensures View() == ScheduleReconnect(old(View()))
    {
      if retryTimer || subs == map[] { return; }
      backoffMs := if backoffMs * 2 < BACKOFF_MAX_MS then backoffMs * 2 else BACKOFF_MAX_MS;
      retryTimer := true;
    }

    method OnOpen(k: nat)
      requires Enabled(View(), SocketOpens(k))
      modifies this`backoffMs
      ensures View() == Step(old(View()), SocketOpens(k))
    {
      backoffMs := BACKOFF_MIN_MS;
    }

    method OnClose(k: nat)
      requires Enabled(View(), SocketCloses(k))
      modifies this`ws, this`backoffMs, this`retryTimer
      ensures View() == Step(old(View()), SocketCloses(k))
    {
      if ws != Some(k) { return; }
      ws := None;
      ScheduleRetry();
    }

    method OnRetryTimer(socketThrows: bool)
      requires Enabled(View(), RetryFires(socketThrows))
      modifies this
      ensures View() == Step(old(View()), RetryFires(socketThrows))
    {
      retryTimer := false;
      Connect(socketThrows);
    }

    /** `dispatch`: the cache, then every subscriber of the feed in any order. */
    method DispatchFrame(w: Wire)
      modifies this`last, this`delivered
      ensures View() == Dispatch(old(View()), w)
    {
      hide PriceOf;
      var price := PriceOf(w);
      last := last[price.feedId := price];
      if price.feedId in subs {
        var left, done := subs[price.feedId], {};
        while left != {}
          invariant left + done == subs[price.feedId] && left !! done
          invariant last == old(last)[price.feedId := price]
          invariant delivered == old(delivered) + Calls(price.feedId, done, price)
          decreases left
        {
          var cb :| cb in left;
          assert Pairs(price.feedId, done + {cb}) == Pairs(price.feedId, done) + {(price.feedId, cb)};
          delivered := delivered[(price.feedId, cb) := price];
          left, done := left - {cb}, done + {cb};
        }
        assert done == subs[price.feedId];
      }
    }

    method OnFrame(k: nat, w: Wire)
      requires Enabled(View(), Frame(k, w))
      modifies this`last, this`delivered
      ensures View() == Step(old(View()), Frame(k, w))
    {
      DispatchFrame(w);
    }

    /** `seedFromSnapshot`, once the response is in. */
    method OnSnapshot(prices: seq<Wire>)
      requires Enabled(View(), SnapshotArrives(prices))
      modifies this`snapshotPending, this`last, this`delivered
      ensures View() == Step(old(View()), SnapshotArrives(prices))
    {
      hide Normalize, Dispatch;
      snapshotPending := false;
      ghost var start := View();
      var i := 0;
      while i < |prices|
        invariant i <= |prices|
        invariant Seed(start, prices) == Seed(View(), prices[i..])
      {
        assert prices[i..][0] == prices[i] && prices[i..][1..] == prices[i + 1..];
        if Normalize(prices[i].feedId) !in last {
          DispatchFrame(prices[i]);
        }
        i := i + 1;
      }
    }
  }
}
