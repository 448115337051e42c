/** The route builder (exchange-dashboard/src/tx/routeFill.ts): it walks the
    quote's paths, hops and legs and emits a transaction program.  `Compile` is
    the walk as a function; `BuildRouteFillTx` is the source's nested loops,
    proved to compute it.  What the program means is in `RouteMeaning`. */
module RouteFill {
  import opened Wrappers
  import opened RouteProgram
  import opened RoutePlan

  // ----- skeleton lookup -----

  /** The last skeleton command that carries this digest. */
  function LastFor(skeleton: seq<Skeleton>, digest: string): Option<Skeleton> {
    if skeleton == [] then None
    else
      var c := skeleton[|skeleton| - 1];
      if Present(c.digest) && c.digest.value == digest then Some(c) else LastFor(skeleton[..|skeleton| - 1], digest)
  }

  method SkeletonByDigest(skeleton: seq<Skeleton>) returns (m: map<string, Skeleton>)
    ensures forall d :: (if d in m then Some(m[d]) else None) == LastFor(skeleton, d)
  {
    m := map[];
    var k := 0;
    while k < |skeleton|
      invariant k <= |skeleton|
      invariant forall d :: (if d in m then Some(m[d]) else None) == LastFor(skeleton[..k], d)
    {
      assert skeleton[..k + 1][..k] == skeleton[..k];
      if Present(skeleton[k].digest) {
        m := m[skeleton[k].digest.value := skeleton[k]];
      }
      k := k + 1;
    }
    assert skeleton[..k] == skeleton;
  }

  // ----- one leg -----

  predicate VaultLeg(cmd: Option<Skeleton>) {
    cmd.Some? && (cmd.value.command.FillVault? || cmd.value.command.FillVaultReverse?)
  }

  /** A vault leg takes its direction from the skeleton, any other from the hop. */
  function LegCommand(q: Quote, o: Options, cmd: Option<Skeleton>, market: Market, forward: bool, leg: Leg,
                      coin: Arg): Result<Command> {
    if leg.digest !in q.orders then Err(MissingOrder(leg.digest)) else
    var whitelist := if cmd.Some? && cmd.value.whitelistId.Some? then cmd.value.whitelistId else o.whitelistId;
    if !Present(whitelist) then Err(MissingWhitelist(leg.digest)) else
    if VaultLeg(cmd) then
      var c := cmd.value;
      if !Present(c.vaultId) || !Present(c.custodyId) || !Present(c.integrationRegistryId)
         || !Present(c.adapterPackageId)
      then Err(MissingAdapterIds(leg.digest))
      else Ok(Fill(Adapter(c.adapterPackageId.value, c.command.FillVaultReverse?, c.vaultId.value, c.custodyId.value,
                           c.integrationRegistryId.value),
                   market.base, market.quote, q.orders[leg.digest], whitelist.value, coin, leg.amountIn))
    else Ok(Fill(Settlement(o.packageId, !forward), market.base, market.quote, q.orders[leg.digest], whitelist.value,
                 coin, leg.amountIn))
  }

  // ----- the walk -----

  /** Commands so far, the running taker coin and the hop's output coins. */
  datatype HopState = HopState(cmds: seq<Command>, taker: Arg, outs: seq<Arg>)

  function Legs(q: Quote, o: Options, market: Market, forward: bool, legs: seq<Leg>, s: HopState): Result<HopState> {
    if legs == [] then Ok(s) else
    var c := LegCommand(q, o, LastFor(q.skeleton, legs[0].digest), market, forward, legs[0], s.taker);
    if c.Err? then Err(c.error) else
    var n := |s.cmds|;
    Legs(q, o, market, forward, legs[1..], HopState(s.cmds + [c.value], Ref(n, 1), s.outs + [Ref(n, 0)]))
  }

  /** Commands so far, residual coins, the finished paths' outputs and the coin
      that feeds the next hop. */
  datatype Build = Build(cmds: seq<Command>, residuals: seq<Arg>, outputs: seq<Arg>, input: Arg)

  function MarketOf(q: Quote, p: Path, k: nat): Option<Market> {
    if k < |p.markets| && p.markets[k] in q.markets then Some(q.markets[p.markets[k]]) else None
  }

  predicate Forward(p: Path, k: nat, market: Market) {
    k < |p.tokens| && p.tokens[k] == market.quote
  }

  /** Close a hop: keep the change, merge the outputs, feed the next hop. */
  function CloseHop(b: Build, h: HopState): Build {
    var cmds := if |h.outs| > 1 then h.cmds + [Merge(h.outs[0], h.outs[1..])] else h.cmds;
    b.(cmds := cmds, residuals := b.residuals + [h.taker], input := if h.outs == [] then Undefined else h.outs[0])
  }

  function Hop(q: Quote, o: Options, p: Path, k: nat, b: Build): Result<Build>
    requires k < |p.hops|
  {
    var market := MarketOf(q, p, k);
    if market.None? then Err(UnknownMarket) else
    var h := Legs(q, o, market.value, Forward(p, k, market.value), p.hops[k], HopState(b.cmds, b.input, []));
    if h.Err? then Err(h.error) else Ok(CloseHop(b, h.value))
  }

  function Hops(q: Quote, o: Options, p: Path, k: nat, b: Build): Result<Build>
    requires k <= |p.hops|
    decreases |p.hops| - k
  {
    if k == |p.hops| then Ok(b) else
    var r := Hop(q, o, p, k, b);
    if r.Err? then r else Hops(q, o, p, k + 1, r.value)
  }

  /** Open a path: take its input coin. */
  function OpenPath(o: Options, p: Path, b: Build): Build {
    b.(cmds := b.cmds + [TakeCoin(o.fromType, p.input)], input := Ref(|b.cmds|, 0))
  }

  function Paths(q: Quote, o: Options, paths: seq<Path>, b: Build): Result<Build> {
    if paths == [] then Ok(b) else
    var r := Hops(q, o, paths[0], 0, OpenPath(o, paths[0], b));
    if r.Err? then r else Paths(q, o, paths[1..], r.value.(outputs := r.value.outputs + [r.value.input]))
  }

  function Finish(o: Options, b: Build): seq<Command>
    requires b.outputs != []
  {
    (if |b.outputs| > 1 then b.cmds + [Merge(b.outputs[0], b.outputs[1..])] else b.cmds)
    + [AssertMin(o.toType, b.outputs[0], o.minOut)]
    + [Transfer([b.outputs[0]] + b.residuals, o.sender)]
  }

  function Compile(q: Quote, o: Options): Result<seq<Command>> {
    var b := Paths(q, o, q.paths, Build([], [], [], Undefined));
    if b.Err? then Err(b.error) else if b.value.outputs == [] then Err(NoRoutablePaths) else Ok(Finish(o, b.value))
  }

  // ----- the program follows the plan -----

  lemma {:induction false} LastForIsLast(skeleton: seq<Skeleton>, digest: string)
    ensures LastNamed(skeleton, digest, LastFor(skeleton, digest))
  {
    if skeleton != [] {
      var n := |skeleton| - 1;
      var before := skeleton[..n];
      LastForIsLast(before, digest);
      if !Names(skeleton[n], digest) {
        var r := LastFor(before, digest);
        if r.Some? {
          var i :| 0 <= i < n && before[i] == r.value && Names(r.value, digest) &&
                   forall j :: i < j < n ==> !Names(before[j], digest);
          assert forall j :: i < j < |skeleton| ==> !Names(skeleton[j], digest);
          assert skeleton[i] == r.value;
        } else {
          assert forall j :: 0 <= j < n ==> !Names(before[j], digest);
        }
      }
    }
  }

  lemma LastNamedUnique(skeleton: seq<Skeleton>, digest: string, a: Option<Skeleton>, b: Option<Skeleton>)
    requires LastNamed(skeleton, digest, a) && LastNamed(skeleton, digest, b)
    ensures a == b
  {
  }

  /** One leg: the command serves it, or the error is the leg's own. */
  lemma LegServed(q: Quote, o: Options, v: Visit, coin: Arg)
    requires OnPlan(q, v) && v.AtLeg? && KnownMarket(q, v.path, v.hop)
    ensures var p := q.paths[v.path]; var leg := p.hops[v.hop][v.leg]; var market := q.markets[p.markets[v.hop]];
            var r := LegCommand(q, o, LastFor(q.skeleton, leg.digest), market, Forward(p, v.hop, market), leg, coin);
            if r.Ok? then FillsLeg(q, o, v, r.value) && Passes(q, o, v) else Fails(q, o, v, r.error)
  {
    var d := q.paths[v.path].hops[v.hop][v.leg].digest;
    var c := LastFor(q.skeleton, d);
    LastForIsLast(q.skeleton, d);
    forall s | LastNamed(q.skeleton, d, s) ensures s == c { LastNamedUnique(q.skeleton, d, s, c); }
    hide LastNamed, LastFor, Present;
  }

  lemma {:induction false} CoreConcat(a: seq<Command>, b: seq<Command>)
    ensures Core(a + b) == Core(a) + Core(b)
  {
    if a == [] {
      assert a + b == b;
    } else {
      assert (a + b)[0] == a[0] && (a + b)[1..] == a[1..] + b;
      CoreConcat(a[1..], b);
      var head := if a[0].TakeCoin? || a[0].Fill? then [a[0]] else [];
      assert Core(a + b) == head + Core(a[1..] + b) && Core(a) == head + Core(a[1..]);
      hide Core;
    }
  }

  lemma {:induction false} AsksConcat(a: seq<Visit>, b: seq<Visit>)
    ensures Asks(a + b) == Asks(a) + Asks(b)
  {
    if a == [] {
      assert a + b == b;
    } else {
      assert (a + b)[0] == a[0] && (a + b)[1..] == a[1..] + b;
      AsksConcat(a[1..], b);
    }
  }

  /** From `before` the walk has gone through these parts of the plan: it has appended what they ask for, or
      stopped with the error of the first that fails. */
  ghost predicate Walked(q: Quote, o: Options, before: seq<Command>, vs: seq<Visit>, r: Result<seq<Command>>) {
    AllOnPlan(q, vs) &&
    match r
    case Ok(after) => before <= after && Carries(q, o, after[|before|..], vs) && AllPass(q, o, vs)
    case Err(e) => FirstFailure(q, o, vs, e)
  }

  lemma CarriesConcat(q: Quote, o: Options, a: seq<Command>, b: seq<Command>, x: seq<Visit>, y: seq<Visit>)
    requires AllOnPlan(q, x) && AllOnPlan(q, y) && Carries(q, o, a, x) && Carries(q, o, b, y)
    ensures AllOnPlan(q, x + y) && Carries(q, o, a + b, x + y)
  {
    CoreConcat(a, b);
    AsksConcat(x, y);
    AsksAreVisits(x);
    AsksAreVisits(y);
    AsksAreVisits(x + y);
    hide Serves;
  }

  lemma WalkedOn(q: Quote, o: Options, before: seq<Command>, mid: seq<Command>, x: seq<Visit>, y: seq<Visit>,
                 r: Result<seq<Command>>)
    requires Walked(q, o, before, x, Ok(mid)) && Walked(q, o, mid, y, r)
    ensures Walked(q, o, before, x + y, r)
  {
    hide Passes, Fails, Carries;
    if r.Ok? {
      var a, b := mid[|before|..], r.value[|mid|..];
      assert r.value[|before|..] == a + b;
      CarriesConcat(q, o, a, b, x, y);
    } else {
      var t :| 0 <= t < |y| && Fails(q, o, y[t], r.error) && AllPass(q, o, y[..t]);
      assert (x + y)[|x| + t] == y[t] && (x + y)[..|x| + t] == x + y[..t];
    }
  }

  lemma WalkStops(q: Quote, o: Options, before: seq<Command>, x: seq<Visit>, y: seq<Visit>, e: Error)
    requires Walked(q, o, before, x, Err(e)) && AllOnPlan(q, y)
    ensures Walked(q, o, before, x + y, Err(e))
  {
    hide Passes, Fails;
    var t :| 0 <= t < |x| && Fails(q, o, x[t], e) && AllPass(q, o, x[..t]);
    assert (x + y)[t] == x[t] && (x + y)[..t] == x[..t];
  }

  /** A command that serves no part of the plan may follow: a merge. */
  lemma WalkedMerge(q: Quote, o: Options, before: seq<Command>, vs: seq<Visit>, mid: seq<Command>, c: Command)
    requires Walked(q, o, before, vs, Ok(mid)) && c.Merge?
    ensures Walked(q, o, before, vs, Ok(mid + [c]))
  {
    CarriesMerge(q, o, mid[|before|..], vs, c);
    assert (mid + [c])[|before|..] == mid[|before|..] + [c];
    hide Carries, Passes;
  }

  lemma WalkedNothing(q: Quote, o: Options, before: seq<Command>)
    ensures Walked(q, o, before, [], Ok(before))
  {
    assert before[|before|..] == [];
  }

  lemma WalkedOne(q: Quote, o: Options, before: seq<Command>, v: Visit, c: Command)
    requires OnPlan(q, v) && !v.AtHop? && Serves(q, o, v, c) && Passes(q, o, v)
    ensures Walked(q, o, before, [v], Ok(before + [c]))
  {
    assert (before + [c])[|before|..] == [c];
    SingleAsk(v);
    assert [c][1..] == [];
    assert Core([c]) == [c];
    hide Passes;
  }

  lemma SingleAsk(v: Visit)
    ensures Asks([v]) == if v.AtHop? then [] else [v]
  {
    assert [v][1..] == [] && Asks([]) == [];
    var head := if v.AtHop? then [] else [v];
    assert Asks([v]) == head + Asks([v][1..]);
    assert head + [] == head;
  }

  lemma WalkedHop(q: Quote, o: Options, before: seq<Command>, v: Visit)
    requires OnPlan(q, v) && v.AtHop? && KnownMarket(q, v.path, v.hop)
    ensures Walked(q, o, before, [v], Ok(before))
  {
    assert before[|before|..] == [];
    SingleAsk(v);
  }

  lemma FailedOne(q: Quote, o: Options, before: seq<Command>, v: Visit, e: Error)
    requires OnPlan(q, v) && Fails(q, o, v, e)
    ensures Walked(q, o, before, [v], Err(e))
  {
    assert [v][..0] == [];
  }

  function CmdsOf<T>(r: Result<T>, f: T -> seq<Command>): Result<seq<Command>> {
    match r
    case Ok(x) => Ok(f(x))
    case Err(e) => Err(e)
  }

  lemma {:induction false} LegsWalked(q: Quote, o: Options, i: nat, k: nat, j: nat, s: HopState)
    requires i < |q.paths| && k < |q.paths[i].hops| && j <= |q.paths[i].hops[k]| && KnownMarket(q, i, k)
    ensures var p := q.paths[i]; var market := q.markets[p.markets[k]];
            Walked(q, o, s.cmds, LegVisits(i, k, j, |p.hops[k]|),
                   CmdsOf(Legs(q, o, market, Forward(p, k, market), p.hops[k][j..], s), (h: HopState) => h.cmds))
    decreases |q.paths[i].hops[k]| - j
  {
    var p := q.paths[i];
    var market, legs := q.markets[p.markets[k]], p.hops[k];
    hide Walked, LegCommand, LastFor;
    if j == |legs| {
      WalkedNothing(q, o, s.cmds);
    } else {
      var v := AtLeg(i, k, j);
      LegServed(q, o, v, s.taker);
      LegVisitsInOrder(i, k, j + 1, |legs|);
      assert legs[j..][0] == legs[j] && legs[j..][1..] == legs[j + 1..];
      var c := LegCommand(q, o, LastFor(q.skeleton, legs[j].digest), market, Forward(p, k, market), legs[j], s.taker);
      if c.Ok? {
        var n := |s.cmds|;
        var t := HopState(s.cmds + [c.value], Ref(n, 1), s.outs + [Ref(n, 0)]);
        LegsWalked(q, o, i, k, j + 1, t);
        WalkedOne(q, o, s.cmds, v, c.value);
        WalkedOn(q, o, s.cmds, t.cmds, [v], LegVisits(i, k, j + 1, |legs|),
                 CmdsOf(Legs(q, o, market, Forward(p, k, market), legs[j..], s), (h: HopState) => h.cmds));
      } else {
        FailedOne(q, o, s.cmds, v, c.error);
        WalkStops(q, o, s.cmds, [v], LegVisits(i, k, j + 1, |legs|), c.error);
      }
    }
  }

  lemma HopWalked(q: Quote, o: Options, i: nat, k: nat, b: Build)
    requires i < |q.paths| && k < |q.paths[i].hops|
    ensures Walked(q, o, b.cmds, HopVisits(i, q.paths[i], k),
                   CmdsOf(Hop(q, o, q.paths[i], k, b), (x: Build) => x.cmds))
  {
    var p, v := q.paths[i], AtHop(i, k);
    var legs := LegVisits(i, k, 0, |p.hops[k]|);
    LegVisitsInOrder(i, k, 0, |p.hops[k]|);
    hide Walked, Legs;
    if KnownMarket(q, i, k) {
      var market := q.markets[p.markets[k]];
      var s := HopState(b.cmds, b.input, []);
      WalkedHop(q, o, b.cmds, v);
      LegsWalked(q, o, i, k, 0, s);
      assert p.hops[k][0..] == p.hops[k];
      var h := Legs(q, o, market, Forward(p, k, market), p.hops[k], s);
      WalkedOn(q, o, b.cmds, b.cmds, [v], legs, CmdsOf(h, (x: HopState) => x.cmds));
      if h.Ok? && |h.value.outs| > 1 {
        WalkedMerge(q, o, b.cmds, [v] + legs, h.value.cmds, Merge(h.value.outs[0], h.value.outs[1..]));
      }
    } else {
      FailedOne(q, o, b.cmds, v, UnknownMarket);
      WalkStops(q, o, b.cmds, [v], legs, UnknownMarket);
    }
  }

  lemma {:induction false} HopsWalked(q: Quote, o: Options, i: nat, k: nat, b: Build)
    requires i < |q.paths| && k <= |q.paths[i].hops|
    ensures Walked(q, o, b.cmds, PathVisits(i, q.paths[i], k),
                   CmdsOf(Hops(q, o, q.paths[i], k, b), (x: Build) => x.cmds))
    decreases |q.paths[i].hops| - k
  {
    var p := q.paths[i];
    hide Walked, Hop;
    if k == |p.hops| {
      WalkedNothing(q, o, b.cmds);
    } else {
      var r := Hop(q, o, p, k, b);
      HopWalked(q, o, i, k, b);
      PathVisitsInOrder(i, p, k + 1);
      if r.Ok? {
        HopsWalked(q, o, i, k + 1, r.value);
        WalkedOn(q, o, b.cmds, r.value.cmds, HopVisits(i, p, k), PathVisits(i, p, k + 1),
                 CmdsOf(Hops(q, o, p, k, b), (x: Build) => x.cmds));
      } else {
        WalkStops(q, o, b.cmds, HopVisits(i, p, k), PathVisits(i, p, k + 1), r.error);
      }
    }
  }

  /** One path: its input coin, then its hops. */
  lemma PathWalked(q: Quote, o: Options, i: nat, b: Build)
    requires i < |q.paths|
    ensures Walked(q, o, b.cmds, [AtPath(i)] + PathVisits(i, q.paths[i], 0),
                   CmdsOf(Hops(q, o, q.paths[i], 0, OpenPath(o, q.paths[i], b)), (x: Build) => x.cmds))
  {
    var p, v := q.paths[i], AtPath(i);
    assert Passes(q, o, v);
    WalkedOne(q, o, b.cmds, v, TakeCoin(o.fromType, p.input));
    hide Walked, Hops;
    HopsWalked(q, o, i, 0, OpenPath(o, p, b));
    WalkedOn(q, o, b.cmds, OpenPath(o, p, b).cmds, [v], PathVisits(i, p, 0),
             CmdsOf(Hops(q, o, p, 0, OpenPath(o, p, b)), (x: Build) => x.cmds));
  }

  lemma {:induction false} PathsWalked(q: Quote, o: Options, i: nat, b: Build)
    requires i <= |q.paths|
    ensures Walked(q, o, b.cmds, Visits(q, i), CmdsOf(Paths(q, o, q.paths[i..], b), (x: Build) => x.cmds))
    ensures var r := Paths(q, o, q.paths[i..], b); r.Ok? ==> |r.value.outputs| == |b.outputs| + |q.paths| - i
    decreases |q.paths| - i
  {
    hide Walked, Hops;
    if i == |q.paths| {
      WalkedNothing(q, o, b.cmds);
    } else {
      var p := q.paths[i];
      assert q.paths[i..][0] == p && q.paths[i..][1..] == q.paths[i + 1..];
      PathWalked(q, o, i, b);
      VisitsInOrder(q, i + 1);
      var r := Hops(q, o, p, 0, OpenPath(o, p, b));
      var vs := [AtPath(i)] + PathVisits(i, p, 0);
      if r.Ok? {
        HopsKeepOutputs(q, o, p, 0, OpenPath(o, p, b));
        var b' := r.value.(outputs := r.value.outputs + [r.value.input]);
        PathsWalked(q, o, i + 1, b');
        WalkedOn(q, o, b.cmds, b'.cmds, vs, Visits(q, i + 1),
                 CmdsOf(Paths(q, o, q.paths[i..], b), (x: Build) => x.cmds));
      } else {
        WalkStops(q, o, b.cmds, vs, Visits(q, i + 1), r.error);
      }
    }
  }

  lemma {:induction false} HopsKeepOutputs(q: Quote, o: Options, p: Path, k: nat, b: Build)
    requires k <= |p.hops|
    ensures var r := Hops(q, o, p, k, b); r.Ok? ==> r.value.outputs == b.outputs
    decreases |p.hops| - k
  {
    if k < |p.hops| {
      var r := Hop(q, o, p, k, b);
      if r.Ok? { HopsKeepOutputs(q, o, p, k + 1, r.value); }
    }
  }

  lemma FinishFollows(q: Quote, o: Options, b: Build)
    requires b.outputs != [] && AllOnPlan(q, Visits(q, 0)) && Carries(q, o, b.cmds, Visits(q, 0))
    ensures FollowsPlan(q, o, Finish(o, b))
  {
    hide Carries, Core;
    var cmds := Finish(o, b);
    if |b.outputs| > 1 {
      var merge := Merge(b.outputs[0], b.outputs[1..]);
      CarriesMerge(q, o, b.cmds, Visits(q, 0), merge);
      assert cmds[..|cmds| - 2] == b.cmds + [merge];
    } else {
      assert cmds[..|cmds| - 2] == b.cmds;
    }
  }

  lemma CarriesMerge(q: Quote, o: Options, cmds: seq<Command>, vs: seq<Visit>, merge: Command)
    requires AllOnPlan(q, vs) && Carries(q, o, cmds, vs) && merge.Merge?
    ensures Carries(q, o, cmds + [merge], vs)
  {
    CoreConcat(cmds, [merge]);
    assert [merge][1..] == [];
    hide Serves;
  }

  /** The whole transaction, said of the plan alone: it is built if and only if there is a path and every part
      of the plan can be; it then asks for exactly what the parts ask for, in their order; and otherwise its
      error is that of the first part that fails. */
  lemma ProgramFollowsPlan(q: Quote, o: Options)
    ensures AllOnPlan(q, Visits(q, 0)) && InOrder(Visits(q, 0))
    ensures var r := Compile(q, o);
            && (r.Ok? <==> q.paths != [] && AllPass(q, o, Visits(q, 0)))
            && (r.Ok? ==> FollowsPlan(q, o, r.value))
            && (r.Err? ==> if q.paths == [] then r.error == NoRoutablePaths
                           else FirstFailure(q, o, Visits(q, 0), r.error))
  {
    VisitsInOrder(q, 0);
    var b := Build([], [], [], Undefined);
    PathsWalked(q, o, 0, b);
    assert q.paths[0..] == q.paths;
    var r := Paths(q, o, q.paths, b);
    hide Paths, Visits;
    if r.Ok? {
      assert r.value.cmds[0..] == r.value.cmds;
      if r.value.outputs != [] { FinishFollows(q, o, r.value); }
    } else {
      NoPathsNoVisits(q);
      FailureMeansNotAll(q, o, Visits(q, 0), r.error);
    }
    hide Finish, FollowsPlan, FirstFailure;
  }

  lemma NoPathsNoVisits(q: Quote)
    ensures q.paths == [] ==> Visits(q, 0) == []
  {
  }

  lemma FailureMeansNotAll(q: Quote, o: Options, vs: seq<Visit>, e: Error)
    requires AllOnPlan(q, vs) && FirstFailure(q, o, vs, e)
    ensures !AllPass(q, o, vs) && vs != []
  {
    hide Fails;
  }

  // ----- the source's loops -----

  method BuildHop(q: Quote, o: Options, skeleton: map<string, Skeleton>, p: Path, k: nat, b: Build)
    returns (r: Result<Build>)
    requires k < |p.hops|
    requires forall d :: (if d in skeleton then Some(skeleton[d]) else None) == LastFor(q.skeleton, d)
    ensures r == Hop(q, o, p, k, b)
  {
    if k >= |p.markets| || p.markets[k] !in q.markets { return Err(UnknownMarket); }
    var market := q.markets[p.markets[k]];
    var forward := k < |p.tokens| && p.tokens[k] == market.quote;
    var hop := p.hops[k];
    var cmds, takerCoin, outCoins := b.cmds, b.input, [];
    var i := 0;
    while i < |hop|
      invariant i <= |hop|
      invariant Legs(q, o, market, forward, hop, HopState(b.cmds, b.input, [])) ==
                Legs(q, o, market, forward, hop[i..], HopState(cmds, takerCoin, outCoins))
    {
      var leg := hop[i];
      assert hop[i..][0] == leg && hop[i..][1..] == hop[i + 1..];
      var cmd := if leg.digest in skeleton then Some(skeleton[leg.digest]) else None;
      var c := LegCommand(q, o, cmd, market, forward, leg, takerCoin);
      if c.Err? { return Err(c.error); }
      var res := |cmds|;
      cmds := cmds + [c.value];
      outCoins := outCoins + [Ref(res, 0)];
      takerCoin := Ref(res, 1);
      i := i + 1;
    }
    var residuals := b.residuals + [takerCoin];
    if |outCoins| > 1 { cmds := cmds + [Merge(outCoins[0], outCoins[1..])]; }
    r := Ok(Build(cmds, residuals, b.outputs, if outCoins == [] then Undefined else outCoins[0]));
  }

  /** `buildRouteFillTx`. */
  method BuildRouteFillTx(q: Quote, o: Options) returns (r: Result<seq<Command>>)
    ensures r == Compile(q, o)
    ensures AllOnPlan(q, Visits(q, 0)) && (r.Ok? <==> q.paths != [] && AllPass(q, o, Visits(q, 0)))
    ensures r.Ok? ==> FollowsPlan(q, o, r.value)
  {
    ProgramFollowsPlan(q, o);
    hide FollowsPlan, AllPass, AllOnPlan, Visits;
    var skeleton := SkeletonByDigest(q.skeleton);
    var b := Build([], [], [], Undefined);
    var i := 0;
    while i < |q.paths|
      invariant i <= |q.paths|
      invariant Paths(q, o, q.paths, Build([], [], [], Undefined)) == Paths(q, o, q.paths[i..], b)
    {
      var path := q.paths[i];
      assert q.paths[i..][0] == path && q.paths[i..][1..] == q.paths[i + 1..];
      ghost var entry := OpenPath(o, path, b);
      b := b.(cmds := b.cmds + [TakeCoin(o.fromType, path.input)], input := Ref(|b.cmds|, 0));
      var k := 0;
      while k < |path.hops|
        invariant k <= |path.hops|
        invariant Hops(q, o, path, 0, entry) == Hops(q, o, path, k, b)
      {
        var h := BuildHop(q, o, skeleton, path, k, b);
        if h.Err? { return Err(h.error); }
        b := h.value;
        k := k + 1;
      }
      b := b.(outputs := b.outputs + [b.input]);
      i := i + 1;
    }
    if b.outputs == [] { return Err(NoRoutablePaths); }
    var cmds := b.cmds;
    if |b.outputs| > 1 { cmds := cmds + [Merge(b.outputs[0], b.outputs[1..])]; }
    var output := b.outputs[0];
    cmds := cmds + [AssertMin(o.toType, output, o.minOut)];
    cmds := cmds + [Transfer([output] + b.residuals, o.sender)];
    r := Ok(cmds);
  }
}
