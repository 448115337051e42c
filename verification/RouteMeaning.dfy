/** What a compiled route means.  The plan's own meaning is a flow: each hop's
    input is the previous hop's summed outputs, each leg takes some of what the
    legs before it left, and what no leg took is the hop's one residual coin.
    The compiled program, run against any fill behaviour, has exactly this
    meaning; in particular it never gets stuck and leaves no coin behind. */
module RouteMeaning {
  import opened Wrappers
  import opened RouteProgram
  import opened RoutePlan
  import opened RouteFill

  // ----- the plan's meaning -----

  datatype LegsFlow = LegsFlow(taken: nat, outs: seq<nat>, fills: nat)
  datatype HopFlow = HopFlow(token: string, input: nat, taken: nat, out: nat)
  datatype PathFlow = PathFlow(hops: seq<HopFlow>, out: nat, fills: nat)
  datatype RouteFlow = RouteFlow(paths: seq<PathFlow>, fills: nat)

  function Sum(ns: seq<nat>): nat { if ns == [] then 0 else ns[0] + Sum(ns[1..]) }

  /** `n` legs in turn draw on `given`; `None` if some fill does not go through. */
  function FlowOfLegs(n: nat, given: nat, oracle: Oracle, fills: nat): (r: Option<LegsFlow>)
    ensures r.Some? ==> r.value.taken <= given && |r.value.outs| == n
  {
    if n == 0 then Some(LegsFlow(0, [], fills)) else
    match oracle(fills)
    case Refused => None
    case Filled(taken, out) =>
      if taken > given then None else
      var rest := FlowOfLegs(n - 1, given - taken, oracle, fills + 1);
      if rest.None? then None
      else Some(LegsFlow(taken + rest.value.taken, [out] + rest.value.outs, rest.value.fills))
  }

  function FlowOfPath(p: Path, k: nat, given: nat, oracle: Oracle, fills: nat): Option<PathFlow>
    requires k <= |p.hops| < |p.tokens|
    decreases |p.hops| - k
  {
    if k == |p.hops| then Some(PathFlow([], given, fills)) else
    var legs := FlowOfLegs(|p.hops[k]|, given, oracle, fills);
    if legs.None? then None else
    var out := Sum(legs.value.outs);
    var rest := FlowOfPath(p, k + 1, out, oracle, legs.value.fills);
    if rest.None? then None
    else Some(rest.value.(hops := [HopFlow(p.tokens[k], given, legs.value.taken, out)] + rest.value.hops))
  }

  function FlowOfRoute(paths: seq<Path>, oracle: Oracle, fills: nat): Option<RouteFlow>
    requires forall i :: 0 <= i < |paths| ==> |paths[i].hops| < |paths[i].tokens|
  {
    if paths == [] then Some(RouteFlow([], fills)) else
    var first := FlowOfPath(paths[0], 0, paths[0].input, oracle, fills);
    if first.None? then None else
    var rest := FlowOfRoute(paths[1..], oracle, first.value.fills);
    if rest.None? then None else Some(rest.value.(paths := [first.value] + rest.value.paths))
  }

  /** The change of each hop, in order. */
  function ResidualsOf(hops: seq<HopFlow>): seq<Coin>
    requires forall i :: 0 <= i < |hops| ==> hops[i].taken <= hops[i].input
  {
    if hops == [] then [] else [Coin(hops[0].token, hops[0].input - hops[0].taken)] + ResidualsOf(hops[1..])
  }

  ghost predicate Conserves(hops: seq<HopFlow>, input: nat, out: nat) {
    && (forall i :: 0 <= i < |hops| ==> hops[i].taken <= hops[i].input)
    && (hops != [] ==> hops[0].input == input)
    && (forall i :: 0 < i < |hops| ==> hops[i].input == hops[i - 1].out)
    && out == if hops == [] then input else hops[|hops| - 1].out
  }

  /** Every hop's input is what the previous hop paid out, and is split between
      what the hop's makers took and the hop's one residual. */
  lemma {:induction false} PathConserves(p: Path, k: nat, given: nat, oracle: Oracle, fills: nat)
    requires k <= |p.hops| < |p.tokens|
    ensures var f := FlowOfPath(p, k, given, oracle, fills);
            f.Some? ==> |f.value.hops| == |p.hops| - k && Conserves(f.value.hops, given, f.value.out)
                        && forall i :: 0 <= i < |f.value.hops| ==> f.value.hops[i].token == p.tokens[k + i]
    decreases |p.hops| - k
  {
    var f := FlowOfPath(p, k, given, oracle, fills);
    if k < |p.hops| && f.Some? {
      var legs := FlowOfLegs(|p.hops[k]|, given, oracle, fills).value;
      PathConserves(p, k + 1, Sum(legs.outs), oracle, legs.fills);
      var rest := FlowOfPath(p, k + 1, Sum(legs.outs), oracle, legs.fills).value;
      ConservesCons(HopFlow(p.tokens[k], given, legs.taken, Sum(legs.outs)), rest.hops, rest.out);
      hide Conserves, FlowOfLegs;
    }
  }

  /** A hop in front of hops that run on what it pays out. */
  lemma ConservesCons(first: HopFlow, rest: seq<HopFlow>, out: nat)
    requires Conserves(rest, first.out, out) && first.taken <= first.input
    ensures Conserves([first] + rest, first.input, out)
  {
    var hops := [first] + rest;
    forall i | 0 < i < |hops| ensures hops[i].input == hops[i - 1].out && hops[i].taken <= hops[i].input {
      assert hops[i] == rest[i - 1];
    }
    assert rest != [] ==> hops[|hops| - 1] == rest[|rest| - 1];
  }

  // ----- what the plan must look like -----

  /** A vault leg's skeleton direction agrees with the hop's. */
  predicate LegAgrees(q: Quote, leg: Leg, forward: bool) {
    var cmd := LastFor(q.skeleton, leg.digest);
    VaultLeg(cmd) ==> cmd.value.command.FillVaultReverse? == !forward
  }

  predicate HopTyped(q: Quote, p: Path, k: nat) {
    && k < |p.hops| && k + 1 < |p.tokens| && p.hops[k] != []
    && var market := MarketOf(q, p, k);
       market.Some? ==>
         && ((p.tokens[k] == market.value.quote && p.tokens[k + 1] == market.value.base) ||
             (p.tokens[k] == market.value.base && p.tokens[k + 1] == market.value.quote))
         && forall i :: 0 <= i < |p.hops[k]| ==> LegAgrees(q, p.hops[k][i], Forward(p, k, market.value))
  }

  predicate PathTyped(q: Quote, o: Options, p: Path) {
    && |p.tokens| == |p.hops| + 1 && p.tokens[0] == o.fromType && p.tokens[|p.hops|] == o.toType
    && forall k :: 0 <= k < |p.hops| ==> HopTyped(q, p, k)
  }

  predicate RouteTyped(q: Quote, o: Options, paths: seq<Path>) {
    forall i :: 0 <= i < |paths| ==> |paths[i].hops| < |paths[i].tokens| && PathTyped(q, o, paths[i])
  }

  // ----- prefixes -----

  lemma {:induction false} HaltedStays(a: seq<Command>, b: seq<Command>, oracle: Oracle)
    requires a <= b && Exec(a, oracle) == Halted
    ensures Exec(b, oracle) == Halted
    decreases |b|
  {
    if a != b {
      assert a <= b[..|b| - 1];
      HaltedStays(a, b[..|b| - 1], oracle);
    }
  }

  lemma {:induction false} LegsExtend(q: Quote, o: Options, market: Market, forward: bool, legs: seq<Leg>, s: HopState)
    ensures var h := Legs(q, o, market, forward, legs, s); h.Ok? ==> s.cmds <= h.value.cmds
    decreases |legs|
  {
    if legs != [] {
      var c := LegCommand(q, o, LastFor(q.skeleton, legs[0].digest), market, forward, legs[0], s.taker);
      if c.Ok? {
        LegsExtend(q, o, market, forward, legs[1..],
                   HopState(s.cmds + [c.value], Ref(|s.cmds|, 1), s.outs + [Ref(|s.cmds|, 0)]));
      }
    }
  }

  lemma {:induction false} HopsExtend(q: Quote, o: Options, p: Path, k: nat, b: Build)
    requires k <= |p.hops|
    ensures var r := Hops(q, o, p, k, b); r.Ok? ==> b.cmds <= r.value.cmds && r.value.outputs == b.outputs
    decreases |p.hops| - k
  {
    if k < |p.hops| {
      var market := MarketOf(q, p, k);
      if market.Some? {
        LegsExtend(q, o, market.value, Forward(p, k, market.value), p.hops[k], HopState(b.cmds, b.input, []));
      }
      var r := Hop(q, o, p, k, b);
      if r.Ok? { HopsExtend(q, o, p, k + 1, r.value); }
    }
  }

  lemma {:induction false} PathsExtend(q: Quote, o: Options, paths: seq<Path>, b: Build)
    ensures var r := Paths(q, o, paths, b); r.Ok? ==> b.cmds <= r.value.cmds
    decreases |paths|
  {
    if paths != [] {
      HopsExtend(q, o, paths[0], 0, OpenPath(o, paths[0], b));
      var r := Hops(q, o, paths[0], 0, OpenPath(o, paths[0], b));
      if r.Ok? { PathsExtend(q, o, paths[1..], r.value.(outputs := r.value.outputs + [r.value.input])); }
    }
  }

  // ----- the program's meaning, leg by leg -----

  function CoinsOf(token: string, values: seq<nat>): (coins: seq<Coin>)
    ensures |coins| == |values| && forall i :: 0 <= i < |coins| ==> coins[i] == Coin(token, values[i])
  {
    seq(|values|, i requires 0 <= i < |values| => Coin(token, values[i]))
  }

  lemma {:induction false} TotalIsSum(token: string, values: seq<nat>)
    ensures Total(CoinsOf(token, values)) == Sum(values)
  {
    if values != [] {
      assert CoinsOf(token, values)[1..] == CoinsOf(token, values[1..]);
      TotalIsSum(token, values[1..]);
    }
  }

  /** The machine after `cmds`, with nothing sent yet. */
  ghost predicate At(cmds: seq<Command>, oracle: Oracle, m: Machine) {
    Exec(cmds, oracle) == Running(m) && m.next == |cmds| && m.sent == []
  }

  /** What a hop's legs expect of their input and output tokens. */
  predicate Sides(market: Market, forward: bool, token: string, next: string) {
    if forward then token == market.quote && next == market.base else token == market.base && next == market.quote
  }

  /** Frozen coins, then the hop's outputs so far, then the running taker coin. */
  ghost predicate InHop(m: Machine, s: HopState, oracle: Oracle, a: seq<Arg>, x: seq<Coin>, paid: seq<nat>,
                        next: string, rest: Coin) {
    && At(s.cmds, oracle, m) && |a| == |x| && |s.outs| == |paid|
    && Layout(m, a + s.outs + [s.taker], x + CoinsOf(next, paid) + [rest])
  }

  function NextLeg(s: HopState, c: Command): HopState {
    HopState(s.cmds + [c], Ref(|s.cmds|, 1), s.outs + [Ref(|s.cmds|, 0)])
  }

  lemma LegMeaning(c: Command, s: HopState, oracle: Oracle, m: Machine,
                   a: seq<Arg>, x: seq<Coin>, paid: seq<nat>, next: string, given: Coin)
    returns (m': Machine)
    requires InHop(m, s, oracle, a, x, paid, next, given)
    requires c.Fill? && c.coin == s.taker && Pays(c.entry, c.base, c.quote) == given.token
    requires Gets(c.entry, c.base, c.quote) == next
    ensures match oracle(m.fills)
            case Refused => Exec(NextLeg(s, c).cmds, oracle) == Halted
            case Filled(taken, out) =>
              if taken > given.value then Exec(NextLeg(s, c).cmds, oracle) == Halted
              else m'.fills == m.fills + 1 &&
                   InHop(m', NextLeg(s, c), oracle, a, x, paid + [out], next, given.(value := given.value - taken))
  {
    m' := m;
    var n := |s.cmds|;
    ExecAppend(s.cmds, c, oracle);
    LayoutFill(m, a + s.outs, x + CoinsOf(next, paid), c, given, oracle);
    match oracle(m.fills)
    case Refused =>
    case Filled(taken, out) =>
      if taken <= given.value {
        m' := Step(Running(m), c, oracle).machine;
        assert a + s.outs + [Ref(n, 0)] == a + NextLeg(s, c).outs;
        assert x + CoinsOf(next, paid) + [Coin(next, out)] == x + CoinsOf(next, paid + [out]);
      }
  }

  lemma {:induction false} LegsMeaning(
    q: Quote, o: Options, market: Market, forward: bool, legs: seq<Leg>, s: HopState, h: HopState, oracle: Oracle,
    m: Machine,
    a: seq<Arg>, x: seq<Coin>, paid: seq<nat>, next: string, given: Coin) returns (m': Machine)
    requires Legs(q, o, market, forward, legs, s) == Ok(h)
    requires InHop(m, s, oracle, a, x, paid, next, given)
    requires Sides(market, forward, given.token, next)
    requires forall i :: 0 <= i < |legs| ==> LegAgrees(q, legs[i], forward)
    ensures match FlowOfLegs(|legs|, given.value, oracle, m.fills)
            case None => Exec(h.cmds, oracle) == Halted
            case Some(f) =>
              m'.fills == f.fills
              && InHop(m', h, oracle, a, x, paid + f.outs, next, given.(value := given.value - f.taken))
    decreases |legs|
  {
    hide InHop, LegCommand, LastFor, LegAgrees, Sides, Exec;
    m' := m;
    if legs == [] {
      assert paid + [] == paid;
    } else {
      LegFromSides(q, o, market, forward, legs[0], s.taker, given.token, next);
      var c := LegCommand(q, o, LastFor(q.skeleton, legs[0].digest), market, forward, legs[0], s.taker).value;
      var s' := NextLeg(s, c);
      var m1 := LegMeaning(c, s, oracle, m, a, x, paid, next, given);
      LegsExtend(q, o, market, forward, legs[1..], s');
      if Exec(s'.cmds, oracle) == Halted {
        HaltedStays(s'.cmds, h.cmds, oracle);
      }
      if oracle(m.fills).Filled? && oracle(m.fills).taken <= given.value {
        var taken, out := oracle(m.fills).taken, oracle(m.fills).out;
        m' := LegsMeaning(q, o, market, forward, legs[1..], s', h, oracle, m1, a, x, paid + [out], next,
                          given.(value := given.value - taken));
        var f := FlowOfLegs(|legs| - 1, given.value - taken, oracle, m1.fills);
        if f.Some? {
          assert paid + [out] + f.value.outs == paid + ([out] + f.value.outs);
        }
      }
    }
  }

  /** A typed leg's command takes the hop's input token and pays its output token. */
  lemma LegFromSides(q: Quote, o: Options, market: Market, forward: bool, leg: Leg, coin: Arg, token: string,
                     next: string)
    requires LegAgrees(q, leg, forward) && Sides(market, forward, token, next)
    ensures var c := LegCommand(q, o, LastFor(q.skeleton, leg.digest), market, forward, leg, coin);
            c.Ok? ==> c.value.Fill? && c.value.coin == coin
                      && Pays(c.value.entry, c.value.base, c.value.quote) == token
                      && Gets(c.value.entry, c.value.base, c.value.quote) == next
  {
  }

  /** The direction condition is exact: on a market of two different tokens, an
      emitted leg gets the machine stuck if and only if it is a vault leg whose
      skeleton direction disagrees with the hop. */
  lemma LegSticksIffDisagrees(q: Quote, o: Options, market: Market, forward: bool, leg: Leg, s: HopState,
                              oracle: Oracle, m: Machine,
                              a: seq<Arg>, x: seq<Coin>, paid: seq<nat>, next: string, given: Coin)
    requires InHop(m, s, oracle, a, x, paid, next, given) && Sides(market, forward, given.token, next)
    requires market.base != market.quote
    requires LegCommand(q, o, LastFor(q.skeleton, leg.digest), market, forward, leg, s.taker).Ok?
    ensures var c := LegCommand(q, o, LastFor(q.skeleton, leg.digest), market, forward, leg, s.taker).value;
            Exec(NextLeg(s, c).cmds, oracle) == Stuck <==> !LegAgrees(q, leg, forward)
  {
    var c := LegCommand(q, o, LastFor(q.skeleton, leg.digest), market, forward, leg, s.taker).value;
    ExecAppend(s.cmds, c, oracle);
    var args, coins := a + s.outs + [s.taker], x + CoinsOf(next, paid) + [given];
    assert args[|args| - 1] == s.taker && coins[|args| - 1] == given;
  }

  // ----- hop by hop -----

  /** Finished outputs, residuals so far, and the coin that feeds the next hop. */
  ghost predicate BetweenHops(m: Machine, b: Build, oracle: Oracle, p: seq<Coin>, r: seq<Coin>, feed: Coin) {
    && At(b.cmds, oracle, m) && |b.outputs| == |p| && |b.residuals| == |r|
    && Layout(m, b.outputs + b.residuals + [b.input], p + r + [feed])
  }

  lemma CloseHopMeaning(b: Build, h: HopState, oracle: Oracle, m: Machine, p: seq<Coin>, r: seq<Coin>, paid: seq<nat>,
                        next: string, rest: Coin)
    returns (m': Machine)
    requires InHop(m, h, oracle, b.outputs + b.residuals, p + r, paid, next, rest)
    requires |b.outputs| == |p| && |b.residuals| == |r| && |h.outs| > 0
    ensures m'.fills == m.fills
    ensures BetweenHops(m', CloseHop(b, h), oracle, p, r + [rest], Coin(next, Sum(paid)))
  {
    var a, x := b.outputs + b.residuals, p + r;
    LayoutSwap(m, a, h.outs, [h.taker], x, CoinsOf(next, paid), [rest]);
    assert a + [h.taker] == b.outputs + (b.residuals + [h.taker]);
    assert x + [rest] == p + (r + [rest]);
    TotalIsSum(next, paid);
    if |h.outs| > 1 {
      var c := Merge(h.outs[0], h.outs[1..]);
      ExecAppend(h.cmds, c, oracle);
      LayoutMerge(m, a + [h.taker], x + [rest], h.outs, CoinsOf(next, paid), next, oracle);
      m' := Step(Running(m), c, oracle).machine;
    } else {
      m' := m;
      assert h.outs == [h.outs[0]] && CoinsOf(next, paid) == [Coin(next, paid[0])];
      assert paid == [paid[0]] && Sum(paid) == paid[0];
    }
  }

  /** A typed hop's market, and the state in which its legs leave the builder. */
  lemma HopParts(q: Quote, o: Options, p: Path, k: nat, b: Build, b': Build) returns (market: Market, h: HopState)
    requires k < |p.hops| && HopTyped(q, p, k) && Hop(q, o, p, k, b) == Ok(b')
    ensures k + 1 < |p.tokens| && p.hops[k] != []
    ensures Sides(market, Forward(p, k, market), p.tokens[k], p.tokens[k + 1])
    ensures forall i :: 0 <= i < |p.hops[k]| ==> LegAgrees(q, p.hops[k][i], Forward(p, k, market))
    ensures Legs(q, o, market, Forward(p, k, market), p.hops[k], HopState(b.cmds, b.input, [])) == Ok(h)
    ensures b' == CloseHop(b, h) && h.cmds <= b'.cmds
  {
    market := MarketOf(q, p, k).value;
    h := Legs(q, o, market, Forward(p, k, market), p.hops[k], HopState(b.cmds, b.input, [])).value;
  }

  lemma InHopSizes(m: Machine, s: HopState, oracle: Oracle, a: seq<Arg>, x: seq<Coin>, paid: seq<nat>, next: string,
                   rest: Coin)
    requires InHop(m, s, oracle, a, x, paid, next, rest)
    ensures |s.outs| == |paid|
  {
  }

  lemma BetweenHopsSizes(m: Machine, b: Build, oracle: Oracle, p: seq<Coin>, r: seq<Coin>, feed: Coin)
    requires BetweenHops(m, b, oracle, p, r, feed)
    ensures |b.outputs| == |p| && |b.residuals| == |r|
  {
  }

  lemma HopMeaning(q: Quote, o: Options, path: Path, k: nat, b: Build, b': Build, oracle: Oracle, m: Machine,
                   p: seq<Coin>, r: seq<Coin>, given: nat)
    returns (m': Machine)
    requires k < |path.hops| && k + 1 < |path.tokens| && HopTyped(q, path, k) && Hop(q, o, path, k, b) == Ok(b')
    requires BetweenHops(m, b, oracle, p, r, Coin(path.tokens[k], given))
    ensures match FlowOfLegs(|path.hops[k]|, given, oracle, m.fills)
            case None => Exec(b'.cmds, oracle) == Halted
            case Some(f) =>
              m'.fills == f.fills &&
              BetweenHops(m', b', oracle, p, r + [Coin(path.tokens[k], given - f.taken)],
                          Coin(path.tokens[k + 1], Sum(f.outs)))
  {
    hide *;
    var market, h := HopParts(q, o, path, k, b, b');
    var forward := Forward(path, k, market);
    var s := HopState(b.cmds, b.input, []);
    var next, feed := path.tokens[k + 1], Coin(path.tokens[k], given);
    StartHop(m, b, oracle, p, r, next, feed);
    var m1 := LegsMeaning(q, o, market, forward, path.hops[k], s, h, oracle, m, b.outputs + b.residuals, p + r, [],
                          next, feed);
    m' := m1;
    var f := FlowOfLegs(|path.hops[k]|, given, oracle, m.fills);
    if f.None? {
      HaltedStays(h.cmds, b'.cmds, oracle);
    } else {
      assert [] + f.value.outs == f.value.outs;
      InHopSizes(m1, h, oracle, b.outputs + b.residuals, p + r, f.value.outs, next,
                 feed.(value := given - f.value.taken));
      BetweenHopsSizes(m, b, oracle, p, r, feed);
      m' := CloseHopMeaning(b, h, oracle, m1, p, r, f.value.outs, next, feed.(value := given - f.value.taken));
    }
  }

  lemma StartHop(m: Machine, b: Build, oracle: Oracle, p: seq<Coin>, r: seq<Coin>, next: string, feed: Coin)
    requires BetweenHops(m, b, oracle, p, r, feed)
    ensures InHop(m, HopState(b.cmds, b.input, []), oracle, b.outputs + b.residuals, p + r, [], next, feed)
  {
    assert b.outputs + b.residuals + [] == b.outputs + b.residuals;
    assert p + r + CoinsOf(next, []) == p + r;
  }

  lemma {:induction false} HopsMeaning(q: Quote, o: Options, path: Path, k: nat, b: Build, b': Build, oracle: Oracle,
                                       m: Machine,
                                       p: seq<Coin>, r: seq<Coin>, given: nat)
    returns (m': Machine)
    requires k <= |path.hops| < |path.tokens| && Hops(q, o, path, k, b) == Ok(b')
    requires forall j :: k <= j < |path.hops| ==> HopTyped(q, path, j)
    requires BetweenHops(m, b, oracle, p, r, Coin(path.tokens[k], given))
    ensures match FlowOfPath(path, k, given, oracle, m.fills)
            case None => Exec(b'.cmds, oracle) == Halted
            case Some(f) =>
              && Conserves(f.hops, given, f.out) && m'.fills == f.fills
              && BetweenHops(m', b', oracle, p, r + ResidualsOf(f.hops), Coin(path.tokens[|path.hops|], f.out))
    decreases |path.hops| - k
  {
    hide BetweenHops, HopTyped, Exec, Conserves, Hop, FlowOfLegs;
    m' := m;
    PathConserves(path, k, given, oracle, m.fills);
    if k == |path.hops| {
      assert r + ResidualsOf([]) == r;
    } else {
      var b1 := Hop(q, o, path, k, b).value;
      var m1 := HopMeaning(q, o, path, k, b, b1, oracle, m, p, r, given);
      HopsExtend(q, o, path, k + 1, b1);
      var legs := FlowOfLegs(|path.hops[k]|, given, oracle, m.fills);
      if legs.None? {
        HaltedStays(b1.cmds, b'.cmds, oracle);
      } else {
        var change := Coin(path.tokens[k], given - legs.value.taken);
        m' := HopsMeaning(q, o, path, k + 1, b1, b', oracle, m1, p, r + [change], Sum(legs.value.outs));
        var f := FlowOfPath(path, k, given, oracle, m.fills);
        if f.Some? {
          var rest := FlowOfPath(path, k + 1, Sum(legs.value.outs), oracle, legs.value.fills).value;
          assert f.value.hops[0] == HopFlow(path.tokens[k], given, legs.value.taken, Sum(legs.value.outs));
          assert f.value.hops[1..] == rest.hops;
          ConservesBounds(f.value.hops, given, f.value.out);
          assert r + [change] + ResidualsOf(rest.hops) == r + ResidualsOf(f.value.hops);
        }
      }
    }
  }

  lemma ConservesBounds(hops: seq<HopFlow>, input: nat, out: nat)
    requires Conserves(hops, input, out)
    ensures forall i :: 0 <= i < |hops| ==> hops[i].taken <= hops[i].input
  {
  }

  // ----- path by path -----

  ghost predicate BetweenPaths(m: Machine, b: Build, oracle: Oracle, p: seq<Coin>, r: seq<Coin>) {
    && At(b.cmds, oracle, m) && |b.outputs| == |p| && |b.residuals| == |r|
    && Layout(m, b.outputs + b.residuals, p + r)
  }

  function ClosePath(b: Build): Build { b.(outputs := b.outputs + [b.input]) }

  lemma OpenPathMeaning(o: Options, path: Path, b: Build, oracle: Oracle, m: Machine, p: seq<Coin>, r: seq<Coin>)
    returns (m': Machine)
    requires BetweenPaths(m, b, oracle, p, r)
    ensures m'.fills == m.fills && BetweenHops(m', OpenPath(o, path, b), oracle, p, r, Coin(o.fromType, path.input))
  {
    var c := TakeCoin(o.fromType, path.input);
    ExecAppend(b.cmds, c, oracle);
    LayoutTake(m, b.outputs + b.residuals, p + r, o.fromType, path.input, oracle);
    m' := Step(Running(m), c, oracle).machine;
  }

  lemma ClosePathMeaning(b: Build, oracle: Oracle, m: Machine, p: seq<Coin>, r: seq<Coin>, feed: Coin)
    requires BetweenHops(m, b, oracle, p, r, feed)
    ensures BetweenPaths(m, ClosePath(b), oracle, p + [feed], r)
  {
    LayoutSwap(m, b.outputs, b.residuals, [b.input], p, r, [feed]);
  }

  /** What the finished paths of a route paid out, and all their residuals. */
  function OutsOf(paths: seq<PathFlow>): seq<nat> {
    if paths == [] then [] else [paths[0].out] + OutsOf(paths[1..])
  }

  ghost predicate RouteConserves(plan: seq<Path>, flow: seq<PathFlow>) {
    && |flow| == |plan|
    && forall i :: 0 <= i < |flow| ==>
         |flow[i].hops| == |plan[i].hops| && Conserves(flow[i].hops, plan[i].input, flow[i].out)
  }

  ghost function AllResiduals(paths: seq<PathFlow>): seq<Coin>
    requires forall i :: 0 <= i < |paths| ==>
               forall j :: 0 <= j < |paths[i].hops| ==> paths[i].hops[j].taken <= paths[i].hops[j].input
  {
    if paths == [] then [] else ResidualsOf(paths[0].hops) + AllResiduals(paths[1..])
  }

  lemma {:induction false} RouteConservation(paths: seq<Path>, oracle: Oracle, fills: nat)
    requires forall i :: 0 <= i < |paths| ==> |paths[i].hops| < |paths[i].tokens|
    ensures var f := FlowOfRoute(paths, oracle, fills); f.Some? ==> RouteConserves(paths, f.value.paths)
    decreases |paths|
  {
    if paths != [] {
      PathConserves(paths[0], 0, paths[0].input, oracle, fills);
      var first := FlowOfPath(paths[0], 0, paths[0].input, oracle, fills);
      if first.Some? {
        RouteConservation(paths[1..], oracle, first.value.fills);
        var f := FlowOfRoute(paths, oracle, fills);
        if f.Some? {
          forall i | 0 <= i < |paths|
            ensures |f.value.paths[i].hops| == |paths[i].hops|
            ensures Conserves(f.value.paths[i].hops, paths[i].input, f.value.paths[i].out)
          {
            assert i > 0 ==> paths[i] == paths[1..][i - 1] && f.value.paths[i] == f.value.paths[1..][i - 1];
          }
        }
      }
    }
  }

  lemma PathMeaning(q: Quote, o: Options, path: Path, b: Build, b': Build, oracle: Oracle, m: Machine, p: seq<Coin>,
                    r: seq<Coin>)
    returns (m': Machine)
    requires PathTyped(q, o, path) && Hops(q, o, path, 0, OpenPath(o, path, b)) == Ok(b')
    requires BetweenPaths(m, b, oracle, p, r)
    ensures match FlowOfPath(path, 0, path.input, oracle, m.fills)
            case None => Exec(ClosePath(b').cmds, oracle) == Halted
            case Some(f) =>
              && Conserves(f.hops, path.input, f.out) && m'.fills == f.fills
              && BetweenPaths(m', ClosePath(b'), oracle, p + [Coin(o.toType, f.out)], r + ResidualsOf(f.hops))
  {
    hide BetweenHops, BetweenPaths, Hops, FlowOfPath, Exec, Conserves, HopTyped;
    var m1 := OpenPathMeaning(o, path, b, oracle, m, p, r);
    m' := HopsMeaning(q, o, path, 0, OpenPath(o, path, b), b', oracle, m1, p, r, path.input);
    var f := FlowOfPath(path, 0, path.input, oracle, m.fills);
    if f.Some? {
      ConservesBounds(f.value.hops, path.input, f.value.out);
      ClosePathMeaning(b', oracle, m', p, r + ResidualsOf(f.value.hops), Coin(o.toType, f.value.out));
    }
  }

  /** The first path's output and residuals come before the others'. */
  lemma FirstPathCounts(flow: seq<PathFlow>, first: PathFlow, rest: seq<PathFlow>, outs: seq<nat>, r: seq<Coin>)
    requires flow == [first] + rest
    requires forall i :: 0 <= i < |flow| ==>
               forall j :: 0 <= j < |flow[i].hops| ==> flow[i].hops[j].taken <= flow[i].hops[j].input
    ensures forall i :: 0 <= i < |rest| ==>
              forall j :: 0 <= j < |rest[i].hops| ==> rest[i].hops[j].taken <= rest[i].hops[j].input
    ensures forall j :: 0 <= j < |first.hops| ==> first.hops[j].taken <= first.hops[j].input
    ensures outs + [first.out] + OutsOf(rest) == outs + OutsOf(flow)
    ensures r + ResidualsOf(first.hops) + AllResiduals(rest) == r + AllResiduals(flow)
  {
    assert flow[0] == first && flow[1..] == rest;
    assert forall i :: 0 <= i < |rest| ==> rest[i] == flow[i + 1];
  }

  lemma {:induction false} PathsMeaning(q: Quote, o: Options, paths: seq<Path>, b: Build, b': Build, oracle: Oracle,
                                        m: Machine, outs: seq<nat>, r: seq<Coin>)
    returns (m': Machine)
    requires RouteTyped(q, o, paths)
    requires Paths(q, o, paths, b) == Ok(b') && BetweenPaths(m, b, oracle, CoinsOf(o.toType, outs), r)
    ensures match FlowOfRoute(paths, oracle, m.fills)
            case None => Exec(b'.cmds, oracle) == Halted
            case Some(f) =>
              && RouteConserves(paths, f.paths) && m'.fills == f.fills
              && BetweenPaths(m', b', oracle, CoinsOf(o.toType, outs + OutsOf(f.paths)), r + AllResiduals(f.paths))
    decreases |paths|
  {
    hide BetweenPaths, Hops, FlowOfPath, Exec, HopTyped;
    m' := m;
    RouteConservation(paths, oracle, m.fills);
    if paths == [] {
      assert outs + OutsOf([]) == outs && r + AllResiduals([]) == r;
    } else {
      var path := paths[0];
      var b1 := Hops(q, o, path, 0, OpenPath(o, path, b)).value;
      var m1 := PathMeaning(q, o, path, b, b1, oracle, m, CoinsOf(o.toType, outs), r);
      PathsExtend(q, o, paths[1..], ClosePath(b1));
      var first := FlowOfPath(path, 0, path.input, oracle, m.fills);
      if first.None? {
        HaltedStays(ClosePath(b1).cmds, b'.cmds, oracle);
      } else {
        var out, res := first.value.out, ResidualsOf(first.value.hops);
        assert CoinsOf(o.toType, outs) + [Coin(o.toType, out)] == CoinsOf(o.toType, outs + [out]);
        m' := PathsMeaning(q, o, paths[1..], ClosePath(b1), b', oracle, m1, outs + [out], r + res);
        var f := FlowOfRoute(paths, oracle, m.fills);
        if f.Some? {
          var rest := FlowOfRoute(paths[1..], oracle, first.value.fills).value.paths;
          FirstPathCounts(f.value.paths, first.value, rest, outs, r);
        }
      }
    }
  }

  // ----- the whole transaction -----

  lemma {:induction false} ResidualPerHop(paths: seq<PathFlow>, plan: seq<Path>)
    requires RouteConserves(plan, paths)
    ensures |AllResiduals(paths)| == HopCount(plan)
    decreases |plan|
  {
    if plan != [] {
      assert RouteConserves(plan[1..], paths[1..]);
      ResidualPerHop(paths[1..], plan[1..]);
      ResidualCount(paths[0].hops);
    }
  }

  function HopCount(plan: seq<Path>): nat {
    if plan == [] then 0 else |plan[0].hops| + HopCount(plan[1..])
  }

  lemma {:induction false} ResidualCount(hops: seq<HopFlow>)
    requires forall i :: 0 <= i < |hops| ==> hops[i].taken <= hops[i].input
    ensures |ResidualsOf(hops)| == |hops|
  {
    if hops != [] {
      ResidualCount(hops[1..]);
    }
  }

  /** What the finished transaction does: everything is sent, or it halts. */
  ghost predicate Delivers(r: Run, minOut: nat, token: string, out: nat, residuals: seq<Coin>) {
    if out < minOut then r == Halted
    else r.Running? && r.machine.live == map[] && r.machine.sent == [Coin(token, out)] + residuals
  }

  lemma FinishMeaning(o: Options, b: Build, oracle: Oracle, m: Machine, outs: seq<nat>, r: seq<Coin>)
    requires BetweenPaths(m, b, oracle, CoinsOf(o.toType, outs), r) && b.outputs != []
    ensures Delivers(Exec(Finish(o, b), oracle), o.minOut, o.toType, Sum(outs), r)
  {
    var coins := CoinsOf(o.toType, outs);
    LayoutFlip(m, b.outputs, b.residuals, coins, r);
    TotalIsSum(o.toType, outs);
    var cmds, m1 := b.cmds, m;
    if |b.outputs| > 1 {
      var c := Merge(b.outputs[0], b.outputs[1..]);
      ExecAppend(b.cmds, c, oracle);
      LayoutMerge(m, b.residuals, r, b.outputs, coins, o.toType, oracle);
      cmds, m1 := b.cmds + [c], Step(Running(m), c, oracle).machine;
    } else {
      assert b.outputs == [b.outputs[0]] && coins == [Coin(o.toType, outs[0])];
      assert outs == [outs[0]] && Sum(outs) == outs[0];
    }
    FinishTail(o, cmds, b.outputs[0], b.residuals, oracle, m1, Sum(outs), r);
  }

  lemma FinishTail(o: Options, cmds: seq<Command>, output: Arg, residuals: seq<Arg>, oracle: Oracle, m: Machine,
                   out: nat, r: seq<Coin>)
    requires At(cmds, oracle, m) && |residuals| == |r|
    requires Layout(m, residuals + [output], r + [Coin(o.toType, out)])
    ensures Delivers(Exec(cmds + [AssertMin(o.toType, output, o.minOut)] + [Transfer([output] + residuals, o.sender)],
                          oracle),
                     o.minOut, o.toType, out, r)
  {
    var check, send := AssertMin(o.toType, output, o.minOut), Transfer([output] + residuals, o.sender);
    ExecAppend(cmds, check, oracle);
    ExecAppend(cmds + [check], send, oracle);
    assert (residuals + [output])[|r|] == output && (r + [Coin(o.toType, out)])[|r|] == Coin(o.toType, out);
    LayoutFlip(m, residuals, [output], r, [Coin(o.toType, out)]);
    if out >= o.minOut {
      var m1 := m.(next := m.next + 1);
      assert Exec(cmds + [check], oracle) == Running(m1);
      assert Layout(m1, [output] + residuals, [Coin(o.toType, out)] + r);
      LayoutTransfer(m1, [output] + residuals, [Coin(o.toType, out)] + r, o.sender, oracle);
    }
  }

  /** The compiled transaction of any typed plan, against any fill behaviour:
      it never gets stuck; it halts if some fill does not go through or the
      joined output is below the floor; otherwise no coin is left over and the
      sender receives the paths' joined output and one residual per hop. */
  lemma CompiledRouteMeaning(q: Quote, o: Options, program: seq<Command>, oracle: Oracle)
    requires Compile(q, o) == Ok(program)
    requires RouteTyped(q, o, q.paths)
    ensures match FlowOfRoute(q.paths, oracle, 0)
            case None => Exec(program, oracle) == Halted
            case Some(f) =>
              && RouteConserves(q.paths, f.paths)
              && |AllResiduals(f.paths)| == HopCount(q.paths)
              && Delivers(Exec(program, oracle), o.minOut, o.toType, Sum(OutsOf(f.paths)), AllResiduals(f.paths))
  {
    var b := Build([], [], [], Undefined);
    var b' := Paths(q, o, q.paths, b).value;
    var m := START.machine;
    assert BetweenPaths(m, b, oracle, CoinsOf(o.toType, []), []);
    hide BetweenPaths, Paths, FlowOfRoute, Exec, PathTyped, Delivers, RouteConserves;
    var m' := PathsMeaning(q, o, q.paths, b, b', oracle, m, [], []);
    var f := FlowOfRoute(q.paths, oracle, 0);
    if f.None? {
      HaltedStays(b'.cmds, program, oracle);
    } else {
      ResidualPerHop(f.value.paths, q.paths);
      assert [] + OutsOf(f.value.paths) == OutsOf(f.value.paths)
             && [] + AllResiduals(f.value.paths) == AllResiduals(f.value.paths);
      FinishMeaning(o, b', oracle, m', OutsOf(f.value.paths), AllResiduals(f.value.paths));
    }
  }
}
