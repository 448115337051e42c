/** Escrow behind limit orders (frontend/src/components/TradePanel.tsx,
    `placeLimit`): how much is deposited before an order is posted, and why the
    open orders in a token stay covered over every run. */
module Escrow {

  datatype Status = Open | Filled | Cancelled
  /** A coin type, canonically spelled. */
  type Token = string
  /** A signed maker order as the orderbook reports it, and how much of it has been filled. */
  datatype Order = Order(token: Token, takes: Token, amount: nat, filled: nat, status: Status)
  datatype State = State(orders: seq<Order>, held: map<Token, nat>)

  /** The balance of a token, zero when none is listed. */
  function Held(s: State, t: Token): nat { if t in s.held then s.held[t] else 0 }

  predicate WellFormed(s: State) {
    forall i :: 0 <= i < |s.orders| ==> s.orders[i].filled <= s.orders[i].amount
  }

  // ----- sums over the open orders of a token -----

  function CommittedIn(o: Order, t: Token): nat { if o.status.Open? && o.token == t then o.amount else 0 }
  function UnfilledIn(o: Order, t: Token): nat {
    if o.status.Open? && o.token == t && o.filled <= o.amount then o.amount - o.filled else 0
  }

  /** What the panel counts as committed: whole amounts, partial fills ignored. */
  function Committed(orders: seq<Order>, t: Token): nat {
    if orders == [] then 0 else CommittedIn(orders[0], t) + Committed(orders[1..], t)
  }

  /** What the exchange can still take. */
  function Unfilled(orders: seq<Order>, t: Token): nat {
    if orders == [] then 0 else UnfilledIn(orders[0], t) + Unfilled(orders[1..], t)
  }

  ghost predicate Covered(s: State) { forall t :: Unfilled(s.orders, t) <= Held(s, t) }

  /** The top-up for an order of `amount`, from the orders and balance read. */
  function Shortfall(orders: seq<Order>, held: nat, t: Token, amount: nat): (d: nat)
    ensures held + d >= Committed(orders, t) + amount
    ensures d > 0 ==> held + d == Committed(orders, t) + amount
  {
    var needed := Committed(orders, t) + amount;
    if needed > held then needed - held else 0
  }

  // ----- steps -----

  /** Placing with current reads may stop after the deposit; a fill pays out of escrow and may
      credit proceeds in the token taken; a cancel also stands for expiry. */
  datatype Event =
    | Place(token: Token, takes: Token, amount: nat, posted: bool)
    | Fill(id: nat, take: nat, credit: nat)
    | Cancel(id: nat)

  predicate Enabled(s: State, e: Event) {
    match e
    case Place(_, _, amount, _) => amount > 0
    case Fill(id, take, _) =>
      id < |s.orders| && s.orders[id].status.Open? && s.orders[id].filled <= s.orders[id].amount
      && take <= s.orders[id].amount - s.orders[id].filled
    case Cancel(id) => id < |s.orders| && s.orders[id].status.Open?
  }

  /** The exchange pays a fill out of the maker's escrow: it cannot when the balance is too small. */
  predicate Payable(s: State, e: Event)
    requires WellFormed(s) && Enabled(s, e)
  {
    e.Fill? ==> e.take <= Held(s, s.orders[e.id].token)
  }

  function AfterFill(o: Order, take: nat): Order {
    o.(filled := o.filled + take, status := if o.filled + take == o.amount then Filled else o.status)
  }

  function Apply(s: State, e: Event): (r: State)
    requires WellFormed(s) && Enabled(s, e) && Payable(s, e)
    ensures WellFormed(r)
  {
    match e
    case Place(t, takes, amount, posted) =>
      var d := Shortfall(s.orders, Held(s, t), t, amount);
      State(if posted then s.orders + [Order(t, takes, amount, 0, Open)] else s.orders, s.held[t := Held(s, t) + d])
    case Fill(id, take, credit) =>
      var o := s.orders[id];
      var paid := State(s.orders[id := AfterFill(o, take)], s.held[o.token := Held(s, o.token) - take]);
      paid.(held := paid.held[o.takes := Held(paid, o.takes) + credit])
    case Cancel(id) => State(s.orders[id := s.orders[id].(status := Cancelled)], s.held)
  }

  // ----- what counts as committed -----

  /** An order is committed with its whole amount, in the token it gives, exactly while it is open. */
  lemma {:induction false} CommittedAfterOne(orders: seq<Order>, o: Order, t: Token)
    ensures Committed(orders + [o], t) ==
            Committed(orders, t) + if o.status == Open && o.token == t then o.amount else 0
    ensures orders == [] ==> Committed(orders, t) == 0
  {
    if orders == [] {
      assert orders + [o] == [o] && [o][1..] == [];
    } else {
      assert (orders + [o])[0] == orders[0] && (orders + [o])[1..] == orders[1..] + [o];
      CommittedAfterOne(orders[1..], o, t);
    }
  }

  /** Closing an order releases its amount and nothing else. */
  lemma {:induction false} ClosingReleases(orders: seq<Order>, id: nat, closed: Order, t: Token)
    requires id < |orders| && orders[id].status == Open && closed.status != Open
    ensures Committed(orders, t) ==
            Committed(orders[id := closed], t) + if orders[id].token == t then orders[id].amount else 0
  {
    if id == 0 {
      assert orders[0 := closed][1..] == orders[1..];
    } else {
      assert orders[id := closed][1..] == orders[1..][id - 1 := closed];
      ClosingReleases(orders[1..], id - 1, closed, t);
    }
  }

  /** Closed orders do not count. */
  lemma {:induction false} ClosedDoNotCount(orders: seq<Order>, t: Token)
    requires forall i :: 0 <= i < |orders| ==> orders[i].status != Open || orders[i].token != t
    ensures Committed(orders, t) == 0
  {
    if orders != [] { ClosedDoNotCount(orders[1..], t); }
  }

  /** A cancel, or a fill of what is left, lowers the next top-up in the order's token by the order's amount,
      as far as a top-up is still needed. */
  lemma ClosingLowersTopUp(orders: seq<Order>, id: nat, closed: Order, held: nat, amount: nat)
    requires id < |orders| && orders[id].status == Open && closed.status != Open
    ensures var t := orders[id].token;
            var before, after := Shortfall(orders, held, t, amount), Shortfall(orders[id := closed], held, t, amount);
            && after <= before && before - after <= orders[id].amount
            && (held <= Committed(orders[id := closed], t) + amount ==> before == after + orders[id].amount)
  {
    ClosingReleases(orders, id, closed, orders[id].token);
  }

  // ----- sums under the steps -----

  lemma {:induction false} UnfilledAtMostCommitted(orders: seq<Order>, t: Token)
    ensures Unfilled(orders, t) <= Committed(orders, t)
  {
    if orders != [] { UnfilledAtMostCommitted(orders[1..], t); }
  }

  lemma {:induction false} UnfilledSnoc(orders: seq<Order>, o: Order, t: Token)
    ensures Unfilled(orders + [o], t) == Unfilled(orders, t) + UnfilledIn(o, t)
  {
    if orders == [] {
      assert orders + [o] == [o] && [o][1..] == [];
    } else {
      assert (orders + [o])[1..] == orders[1..] + [o];
      UnfilledSnoc(orders[1..], o, t);
    }
  }

  lemma {:induction false} UnfilledUpdate(orders: seq<Order>, i: nat, o: Order, t: Token)
    requires i < |orders|
    ensures Unfilled(orders[i := o], t) == Unfilled(orders, t) - UnfilledIn(orders[i], t) + UnfilledIn(o, t)
  {
    if i == 0 {
      assert orders[0 := o][1..] == orders[1..];
    } else {
      assert orders[i := o][1..] == orders[1..][i - 1 := o];
      UnfilledUpdate(orders[1..], i - 1, o, t);
    }
  }

  /** Every fill of a covered order can be paid. */
  lemma CoveredFillsArePayable(s: State, e: Event)
    requires WellFormed(s) && Covered(s) && Enabled(s, e)
    ensures Payable(s, e)
  {
    if e.Fill? {
      var o := s.orders[e.id];
      UnfilledUpdate(s.orders, e.id, o.(status := Cancelled), o.token);
    }
  }

  /** Headroom of a token: what is held beyond the open orders' unfilled amounts. */
  function Headroom(s: State, t: Token): int
    requires WellFormed(s)
  {
    Held(s, t) - Unfilled(s.orders, t)
  }

  /** Fills and cancels never reduce headroom. */
  lemma FillsKeepHeadroom(s: State, e: Event, t: Token)
    requires WellFormed(s) && Enabled(s, e) && Payable(s, e) && !e.Place?
    ensures Headroom(Apply(s, e), t) >= Headroom(s, t)
  {
    var o := s.orders[e.id];
    UnfilledUpdate(s.orders, e.id, if e.Fill? then AfterFill(o, e.take) else o.(status := Cancelled), t);
  }

  /** The deposit covers the new order beyond whatever headroom the reads left. */
  lemma ShortfallCovers(s: State, t: Token, amount: nat)
    requires WellFormed(s)
    ensures Headroom(s, t) + Shortfall(s.orders, Held(s, t), t, amount) >= amount
  {
    UnfilledAtMostCommitted(s.orders, t);
  }

  lemma PlaceKeepsCovered(s: State, e: Event)
    requires WellFormed(s) && Covered(s) && e.Place? && Enabled(s, e)
    ensures Covered(Apply(s, e))
  {
    var r := Apply(s, e);
    ShortfallCovers(s, e.token, e.amount);
    forall t ensures Unfilled(r.orders, t) <= Held(r, t) {
      if e.posted { UnfilledSnoc(s.orders, Order(e.token, e.takes, e.amount, 0, Open), t); }
    }
  }

  lemma StepKeepsCovered(s: State, e: Event)
    requires WellFormed(s) && Covered(s) && Enabled(s, e)
    ensures Payable(s, e) && Covered(Apply(s, e))
  {
    CoveredFillsArePayable(s, e);
    if e.Place? {
      PlaceKeepsCovered(s, e);
    } else {
      var r := Apply(s, e);
      forall t ensures Unfilled(r.orders, t) <= Held(r, t) { FillsKeepHeadroom(s, e, t); }
    }
  }

  // ----- runs -----

  /** Every event is one the orderbook allows, and every fill along the way is payable. */
  ghost predicate Run(s: State, events: seq<Event>, r: State)
    requires WellFormed(s)
    decreases |events|
  {
    if events == [] then r == s
    else Enabled(s, events[0]) && Payable(s, events[0]) && Run(Apply(s, events[0]), events[1..], r)
  }

  /** Every event is allowed when it comes; nothing is said about whether fills can be paid. */
  ghost predicate Allowed(s: State, events: seq<Event>)
    requires WellFormed(s)
    decreases |events|
  {
    events == [] ||
    (Enabled(s, events[0]) && (Payable(s, events[0]) ==> Allowed(Apply(s, events[0]), events[1..])))
  }

  /** From a covered state no run gets stuck on a fill, and every state of it is covered. */
  lemma {:induction false} EveryRunIsCovered(s: State, events: seq<Event>) returns (r: State)
    requires WellFormed(s) && Covered(s) && Allowed(s, events)
    ensures WellFormed(r) && Run(s, events, r) && Covered(r)
    decreases |events|
  {
    if events == [] {
      r := s;
    } else {
      StepKeepsCovered(s, events[0]);
      r := EveryRunIsCovered(Apply(s, events[0]), events[1..]);
    }
  }

  /** Any run between covered ends: whatever state a run reaches is covered. */
  lemma {:induction false} RunKeepsCovered(s: State, events: seq<Event>, r: State)
    requires WellFormed(s) && Covered(s) && Run(s, events, r)
    ensures WellFormed(r) && Covered(r)
    decreases |events|
  {
    if events != [] {
      StepKeepsCovered(s, events[0]);
      RunKeepsCovered(Apply(s, events[0]), events[1..], r);
    }
  }

  // ----- what a run leaves on record -----

  /** The placements that were posted, in order. */
  function Posted(events: seq<Event>): seq<Post> {
    if events == [] then [] else
    var e := events[0];
    (if e.Place? && e.posted then [Post(e.token, e.takes, e.amount)] else []) + Posted(events[1..])
  }

  /** What fills took from order `id`. */
  function TakenFrom(events: seq<Event>, id: nat): nat {
    if events == [] then 0 else
    (if events[0].Fill? && events[0].id == id then events[0].take else 0) + TakenFrom(events[1..], id)
  }

  function PostOf(o: Order): Post { Post(o.token, o.takes, o.amount) }

  lemma StepRecords(s: State, e: Event)
    requires WellFormed(s) && Enabled(s, e) && Payable(s, e)
    ensures var r := Apply(s, e);
            && |r.orders| == |s.orders| + |Posted([e])|
            && (forall i :: 0 <= i < |s.orders| ==>
                  PostOf(r.orders[i]) == PostOf(s.orders[i])
                  && r.orders[i].filled == s.orders[i].filled + TakenFrom([e], i))
            && (forall i :: |s.orders| <= i < |r.orders| ==>
                  PostOf(r.orders[i]) == Posted([e])[i - |s.orders|] && r.orders[i].filled == TakenFrom([e], i) == 0)
  {
    assert [e][1..] == [];
  }

  /** An order stays open until it is cancelled or filled up. */
  lemma StatusFollows(s: State, e: Event)
    requires WellFormed(s) && Enabled(s, e) && Payable(s, e)
    ensures var r := Apply(s, e);
            forall i :: 0 <= i < |s.orders| ==>
              (r.orders[i].status == Open <==>
               s.orders[i].status == Open && !(e.Cancel? && e.id == i)
               && !(e.Fill? && e.id == i && s.orders[i].filled + e.take == s.orders[i].amount))
    ensures e.Place? && e.posted ==> Apply(s, e).orders[|s.orders|].status == Open
  {
  }

  lemma RecordsSplit(events: seq<Event>, i: nat)
    requires events != []
    ensures Posted(events) == Posted([events[0]]) + Posted(events[1..])
    ensures TakenFrom(events, i) == TakenFrom([events[0]], i) + TakenFrom(events[1..], i)
  {
    assert [events[0]][1..] == [];
  }

  /** After any run the orders are those there were and then one for each posted placement, in order, each with
      its own token and amount, and filled by exactly what was taken from it. */
  lemma {:induction false} OrdersAreOnRecord(s: State, events: seq<Event>, r: State)
    requires WellFormed(s) && Run(s, events, r)
    ensures |r.orders| == |s.orders| + |Posted(events)|
    ensures forall i :: 0 <= i < |r.orders| ==>
              && PostOf(r.orders[i]) == (if i < |s.orders| then PostOf(s.orders[i]) else Posted(events)[i - |s.orders|])
              && r.orders[i].filled == (if i < |s.orders| then s.orders[i].filled else 0) + TakenFrom(events, i)
    decreases |events|
  {
    if events != [] {
      var t := Apply(s, events[0]);
      StepRecords(s, events[0]);
      hide Apply, Posted, TakenFrom, WellFormed, PostOf;
      OrdersAreOnRecord(t, events[1..], r);
      forall i: nat ensures TakenFrom(events, i) == TakenFrom([events[0]], i) + TakenFrom(events[1..], i) {
        RecordsSplit(events, i);
      }
      RecordsSplit(events, 0);
      hide Run;
    }
  }

  /** How a step moves a balance: a placement deposits its top-up, a fill pays what it takes and credits its
      proceeds, a cancel moves nothing. */
  lemma BalancesMove(s: State, e: Event, t: Token)
    requires WellFormed(s) && Enabled(s, e) && Payable(s, e)
    ensures Held(Apply(s, e), t) ==
            match e
            case Place(token, _, amount, _) =>
              Held(s, t) + (if token == t then Shortfall(s.orders, Held(s, t), t, amount) else 0)
            case Fill(id, take, credit) =>
              Held(s, t) - (if s.orders[id].token == t then take else 0)
              + (if s.orders[id].takes == t then credit else 0)
            case Cancel(_) => Held(s, t)
  {
  }

  // ----- stale reads -----

  ghost predicate NoPlacements(events: seq<Event>) { forall i :: 0 <= i < |events| ==> !events[i].Place? }

  lemma {:induction false} RunKeepsHeadroom(s: State, events: seq<Event>, r: State, t: Token)
    requires WellFormed(s) && NoPlacements(events) && Run(s, events, r)
    ensures WellFormed(r) && Headroom(r, t) >= Headroom(s, t)
    decreases |events|
  {
    if events != [] {
      FillsKeepHeadroom(s, events[0], t);
      RunKeepsHeadroom(Apply(s, events[0]), events[1..], r, t);
    }
  }

  /** Posting with a top-up worked out from the earlier reads `seen`. */
  function PostFrom(seen: State, now: State, t: Token, takes: Token, amount: nat): State
    requires WellFormed(seen) && WellFormed(now)
  {
    var d := Shortfall(seen.orders, Held(seen, t), t, amount);
    State(now.orders + [Order(t, takes, amount, 0, Open)], now.held[t := Held(now, t) + d])
  }

  /** Reads made stale by fills and cancels are safe. */
  lemma StaleByFillsIsCovered(seen: State, events: seq<Event>, now: State, t: Token, takes: Token, amount: nat)
    requires WellFormed(seen) && Covered(seen) && NoPlacements(events) && Run(seen, events, now)
    ensures WellFormed(now) && WellFormed(PostFrom(seen, now, t, takes, amount))
    ensures Covered(PostFrom(seen, now, t, takes, amount))
  {
    RunKeepsCovered(seen, events, now);
    RunKeepsHeadroom(seen, events, now, t);
    ShortfallCovers(seen, t, amount);
    var r := PostFrom(seen, now, t, takes, amount);
    forall u ensures Unfilled(r.orders, u) <= Held(r, u) {
      UnfilledSnoc(now.orders, Order(t, takes, amount, 0, Open), u);
    }
  }

  // ----- several orders from one read -----

  /** An order worked out from a read. */
  datatype Post = Post(token: Token, takes: Token, amount: nat)

  /** Orders in any tokens, all topped up from the reads `seen`. */
  function PostAll(seen: State, now: State, posts: seq<Post>): State
    requires WellFormed(seen) && WellFormed(now)
    decreases |posts|
  {
    if posts == [] then now
    else PostAll(seen, PostFrom(seen, now, posts[0].token, posts[0].takes, posts[0].amount), posts[1..])
  }

  /** What the reads show as held beyond the whole amounts of the open orders. */
  function Free(seen: State, t: Token): int { Held(seen, t) - Committed(seen.orders, t) }

  /** What has been filled of the open orders. */
  function Fills(seen: State, t: Token): int { Committed(seen.orders, t) - Unfilled(seen.orders, t) }

  function Min(a: int, b: int): int { if a <= b then a else b }

  /** How much of what the reads show as free in a token its orders each count on. */
  function CountedOn(posts: seq<Post>, seen: State, t: Token): int {
    if posts == [] then 0
    else (if posts[0].token == t then Min(posts[0].amount, Free(seen, t)) else 0) + CountedOn(posts[1..], seen, t)
  }

  /** The reads have room for the orders in a token: nothing is free, so that each brings its own deposit, or
      what they count on is free or already filled. */
  predicate RoomFor(seen: State, posts: seq<Post>, t: Token) {
    Free(seen, t) <= 0 || CountedOn(posts, seen, t) <= Free(seen, t) + Fills(seen, t)
  }

  lemma PostHeadroom(seen: State, now: State, p: Post, u: Token)
    requires WellFormed(seen) && WellFormed(now)
    ensures var r := PostFrom(seen, now, p.token, p.takes, p.amount);
            WellFormed(r) && Headroom(r, u) == Headroom(now, u) - CountedOn([p], seen, u)
  {
    UnfilledSnoc(now.orders, Order(p.token, p.takes, p.amount, 0, Open), u);
    assert [p][1..] == [];
  }

  lemma {:induction false} PostAllHeadroom(seen: State, now: State, posts: seq<Post>, u: Token)
    requires WellFormed(seen) && WellFormed(now)
    ensures var r := PostAll(seen, now, posts);
            WellFormed(r) && Headroom(r, u) == Headroom(now, u) - CountedOn(posts, seen, u)
    decreases |posts|
  {
    if posts != [] {
      PostHeadroom(seen, now, posts[0], u);
      assert CountedOn([posts[0]], seen, u) + CountedOn(posts[1..], seen, u) == CountedOn(posts, seen, u) by {
        assert [posts[0]][1..] == [];
      }
      PostAllHeadroom(seen, PostFrom(seen, now, posts[0].token, posts[0].takes, posts[0].amount), posts[1..], u);
    }
  }

  lemma {:induction false} NothingToCountOn(posts: seq<Post>, seen: State, t: Token)
    requires Free(seen, t) <= 0
    ensures CountedOn(posts, seen, t) <= 0
    ensures (CountedOn(posts, seen, t) <= Free(seen, t) || CountedOn(posts, seen, t) == 0)
  {
    if posts != [] { NothingToCountOn(posts[1..], seen, t); }
  }

  /** Room for the orders in a token is what leaves it covered. */
  lemma RoomIsHeadroom(seen: State, posts: seq<Post>, t: Token)
    requires WellFormed(seen) && Covered(seen)
    ensures RoomFor(seen, posts, t) <==> Headroom(seen, t) - CountedOn(posts, seen, t) >= 0
  {
    UnfilledAtMostCommitted(seen.orders, t);
    CoveredIsHeadroom(seen);
    if Free(seen, t) <= 0 { NothingToCountOn(posts, seen, t); }
  }

  /** Orders posted from one read, with nothing in between, are all covered if and only if the read has room
      for them in every token. */
  lemma OneReadCoversIff(seen: State, posts: seq<Post>)
    requires WellFormed(seen) && Covered(seen)
    ensures var r := PostAll(seen, seen, posts); WellFormed(r) && (Covered(r) <==> forall t :: RoomFor(seen, posts, t))
  {
    var r := PostAll(seen, seen, posts);
    PostAllHeadroom(seen, seen, posts, "");
    forall t ensures WellFormed(r) && (Headroom(r, t) >= 0 <==> RoomFor(seen, posts, t)) {
      PostAllHeadroom(seen, seen, posts, t);
      RoomIsHeadroom(seen, posts, t);
    }
    hide RoomFor, Headroom;
    CoveredIsHeadroom(r);
  }

  lemma CoveredIsHeadroom(s: State)
    requires WellFormed(s)
    ensures Covered(s) <==> forall u :: Headroom(s, u) >= 0
  {
    if Covered(s) {
      forall u ensures Headroom(s, u) >= 0 { assert Unfilled(s.orders, u) <= Held(s, u); }
    }
    if forall u :: Headroom(s, u) >= 0 {
      forall u ensures Unfilled(s.orders, u) <= Held(s, u) { assert Headroom(s, u) >= 0; }
    }
  }

  /** Two orders of the whole free balance from one read: the second is not covered. */
  lemma TwoOrdersFromOneRead()
    ensures var s := State([], map["base" := 10]); var p := Post("base", "quote", 10);
            && WellFormed(s) && Covered(s)
            && var r := PostAll(s, s, [p, p]); WellFormed(r) && !Covered(r)
  {
    var s := State([], map["base" := 10]);
    var p := Post("base", "quote", 10);
    assert Covered(s);
    assert Free(s, "base") == 10 && Fills(s, "base") == 0;
    assert [p, p][1..] == [p] && [p][1..] == [];
    assert CountedOn([p], s, "base") == 10;
    assert CountedOn([p, p], s, "base") == 10 + CountedOn([p, p][1..], s, "base");
    assert !RoomFor(s, [p, p], "base");
    OneReadCoversIff(s, [p, p]);
  }

  // ----- fills and cancels in between -----

  /** What may happen after a read: one of its orders is posted, or the orderbook fills or cancels. */
  datatype Act = Posts(post: Post) | Meanwhile(event: Event)

  function PostsOf(acts: seq<Act>): seq<Post> {
    if acts == [] then [] else (if acts[0].Posts? then [acts[0].post] else []) + PostsOf(acts[1..])
  }

  predicate CanAct(now: State, a: Act) { a.Meanwhile? ==> !a.event.Place? && Enabled(now, a.event) }

  function After(seen: State, now: State, a: Act): State
    requires WellFormed(seen) && WellFormed(now) && CanAct(now, a) && (a.Meanwhile? ==> Payable(now, a.event))
  {
    match a
    case Posts(p) => PostFrom(seen, now, p.token, p.takes, p.amount)
    case Meanwhile(e) => Apply(now, e)
  }

  /** Every act is allowed when it comes; nothing is said about whether fills can be paid. */
  ghost predicate CanRun(seen: State, now: State, acts: seq<Act>)
    requires WellFormed(seen) && WellFormed(now)
    decreases |acts|
  {
    acts == [] ||
    (&& CanAct(now, acts[0])
     && ((acts[0].Meanwhile? ==> Payable(now, acts[0].event)) && WellFormed(After(seen, now, acts[0])) ==>
           CanRun(seen, After(seen, now, acts[0]), acts[1..])))
  }

  /** The acts lead from `now` to `r`, every fill along the way being paid. */
  ghost predicate Reaches(seen: State, now: State, acts: seq<Act>, r: State)
    requires WellFormed(seen) && WellFormed(now)
    decreases |acts|
  {
    if acts == [] then r == now
    else
      && CanAct(now, acts[0]) && (acts[0].Meanwhile? ==> Payable(now, acts[0].event))
      && WellFormed(After(seen, now, acts[0])) && Reaches(seen, After(seen, now, acts[0]), acts[1..], r)
  }

  /** There is headroom in every token for what the orders to come count on. */
  ghost predicate Roomy(seen: State, now: State, posts: seq<Post>)
    requires WellFormed(now)
  {
    forall t :: Headroom(now, t) >= 0 && Headroom(now, t) >= CountedOn(posts, seen, t)
  }

  lemma {:induction false} CountedTail(posts: seq<Post>, seen: State, t: Token)
    requires Free(seen, t) >= 0
    ensures CountedOn(posts, seen, t) >= 0
  {
    if posts != [] { CountedTail(posts[1..], seen, t); }
  }

  lemma ActKeepsRoom(seen: State, now: State, acts: seq<Act>)
    requires WellFormed(seen) && WellFormed(now) && acts != [] && CanAct(now, acts[0])
    requires Roomy(seen, now, PostsOf(acts))
    ensures acts[0].Meanwhile? ==> Payable(now, acts[0].event)
    ensures var r := After(seen, now, acts[0]); WellFormed(r) && Roomy(seen, r, PostsOf(acts[1..]))
  {
    CoveredIsHeadroom(now);
    assert forall t :: Headroom(now, t) >= 0;
    match acts[0]
    case Posts(p) =>
      assert PostsOf(acts)[1..] == PostsOf(acts[1..]) && PostsOf(acts)[0] == p;
      var r := After(seen, now, acts[0]);
      forall t
        ensures WellFormed(r) && Headroom(r, t) >= 0 && Headroom(r, t) >= CountedOn(PostsOf(acts[1..]), seen, t)
      {
        assert Headroom(now, t) >= CountedOn(PostsOf(acts), seen, t);
        PostHeadroom(seen, now, p, t);
        assert [p][1..] == [];
        assert CountedOn(PostsOf(acts), seen, t) == CountedOn([p], seen, t) + CountedOn(PostsOf(acts[1..]), seen, t);
        if Free(seen, t) >= 0 { CountedTail(PostsOf(acts[1..]), seen, t); }
      }
    case Meanwhile(e) =>
      assert PostsOf(acts) == PostsOf(acts[1..]);
      CoveredFillsArePayable(now, e);
      forall t ensures Headroom(Apply(now, e), t) >= Headroom(now, t) { FillsKeepHeadroom(now, e, t); }
  }

  lemma {:induction false} RoomySuffices(seen: State, now: State, acts: seq<Act>) returns (r: State)
    requires WellFormed(seen) && WellFormed(now) && CanRun(seen, now, acts) && Roomy(seen, now, PostsOf(acts))
    ensures WellFormed(r) && Reaches(seen, now, acts, r) && Covered(r)
    decreases |acts|
  {
    if acts == [] {
      r := now;
      CoveredIsHeadroom(now);
    } else {
      ActKeepsRoom(seen, now, acts);
      hide Roomy, After;
      r := RoomySuffices(seen, After(seen, now, acts[0]), acts[1..]);
    }
  }

  /** If the read has room for its orders, they are covered however fills and cancels come between them, and
      every fill on the way is paid. */
  lemma RoomCoversInterleaved(seen: State, acts: seq<Act>) returns (r: State)
    requires WellFormed(seen) && Covered(seen) && CanRun(seen, seen, acts)
    requires forall t :: RoomFor(seen, PostsOf(acts), t)
    ensures WellFormed(r) && Reaches(seen, seen, acts, r) && Covered(r)
  {
    CoveredIsHeadroom(seen);
    forall t ensures Headroom(seen, t) >= 0 && Headroom(seen, t) >= CountedOn(PostsOf(acts), seen, t) {
      assert RoomFor(seen, PostsOf(acts), t);
      RoomIsHeadroom(seen, PostsOf(acts), t);
    }
    r := RoomySuffices(seen, seen, acts);
  }
}
