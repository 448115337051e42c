/** Conservation of every token over a whole routed transaction
    (exchange-dashboard/src/tx/routeFill.ts): what went in or was paid out in a
    token is what makers took of it and what the sender got. */
module RouteTotals {
  import opened Wrappers
  import opened RouteProgram
  import opened RoutePlan
  import opened RouteFill
  import opened RouteMeaning

  function In(token: string, t: string, n: nat): nat { if token == t then n else 0 }

  /** The value held in token `t` by some coins. */
  function Held(coins: seq<Coin>, t: string): nat {
    if coins == [] then 0 else In(coins[0].token, t, coins[0].value) + Held(coins[1..], t)
  }

  /** What makers took of token `t` on a path. */
  function Taken(hops: seq<HopFlow>, t: string): nat {
    if hops == [] then 0 else In(hops[0].token, t, hops[0].taken) + Taken(hops[1..], t)
  }

  /** What makers paid in token `t` on the hops of a path from hop `k` on. */
  function Paid(p: Path, k: nat, hops: seq<HopFlow>, t: string): nat
    requires k + |hops| < |p.tokens|
    decreases hops
  {
    if hops == [] then 0 else In(p.tokens[k + 1], t, hops[0].out) + Paid(p, k + 1, hops[1..], t)
  }

  lemma {:induction false} HeldConcat(a: seq<Coin>, b: seq<Coin>, t: string)
    ensures Held(a + b, t) == Held(a, t) + Held(b, t)
  {
    if a == [] {
      assert a + b == b;
    } else {
      assert (a + b)[1..] == a[1..] + b;
      HeldConcat(a[1..], b, t);
    }
  }

  lemma {:induction false} PathBalances(p: Path, k: nat, given: nat, hops: seq<HopFlow>, out: nat, t: string)
    requires k + |hops| < |p.tokens| && Conserves(hops, given, out)
    requires forall i :: 0 <= i < |hops| ==> hops[i].token == p.tokens[k + i]
    ensures In(p.tokens[k], t, given) + Paid(p, k, hops, t)
            == Taken(hops, t) + Held(ResidualsOf(hops), t) + In(p.tokens[k + |hops|], t, out)
    decreases |hops|
  {
    if hops != [] {
      var rest := hops[1..];
      ConservesTail(hops, given, out);
      assert forall i :: 0 <= i < |rest| ==> rest[i].token == p.tokens[k + 1 + i];
      PathBalances(p, k + 1, hops[0].out, rest, out, t);
      assert hops[0].token == p.tokens[k + 0];
      ResidualSplit(hops, t);
      assert Paid(p, k, hops, t) == In(p.tokens[k + 1], t, hops[0].out) + Paid(p, k + 1, rest, t);
      assert Taken(hops, t) == In(hops[0].token, t, hops[0].taken) + Taken(rest, t);
      hide *;
    }
  }

  /** The first hop's input is what was taken of it and its residual. */
  lemma ResidualSplit(hops: seq<HopFlow>, t: string)
    requires hops != [] && forall i :: 0 <= i < |hops| ==> hops[i].taken <= hops[i].input
    ensures Held(ResidualsOf(hops), t)
            == In(hops[0].token, t, hops[0].input - hops[0].taken) + Held(ResidualsOf(hops[1..]), t)
    ensures In(hops[0].token, t, hops[0].input) ==
            In(hops[0].token, t, hops[0].taken) + In(hops[0].token, t, hops[0].input - hops[0].taken)
  {
    var coin := Coin(hops[0].token, hops[0].input - hops[0].taken);
    assert ResidualsOf(hops)[0] == coin && ResidualsOf(hops)[1..] == ResidualsOf(hops[1..]);
  }

  lemma ConservesTail(hops: seq<HopFlow>, given: nat, out: nat)
    requires hops != [] && Conserves(hops, given, out)
    ensures Conserves(hops[1..], hops[0].out, out) && hops[0].input == given && hops[0].taken <= given
  {
    var rest := hops[1..];
    var first := hops[0];
    assert first.input == given && first.taken <= first.input;
    assert forall i :: 0 <= i < |rest| ==> rest[i] == hops[i + 1];
    assert rest != [] ==> rest[|rest| - 1] == hops[|hops| - 1];
  }

  // ----- whole routes -----

  /** The plan's inputs in token `t`. */
  function Inputs(plan: seq<Path>, t: string): nat
    requires forall i :: 0 <= i < |plan| ==> |plan[i].hops| < |plan[i].tokens|
  {
    if plan == [] then 0 else In(plan[0].tokens[0], t, plan[0].input) + Inputs(plan[1..], t)
  }

  function RouteTaken(flow: seq<PathFlow>, t: string): nat {
    if flow == [] then 0 else Taken(flow[0].hops, t) + RouteTaken(flow[1..], t)
  }

  ghost predicate Follows(plan: seq<Path>, flow: seq<PathFlow>) {
    && RouteConserves(plan, flow)
    && forall i :: 0 <= i < |plan| ==> |plan[i].hops| < |plan[i].tokens| && TokensFollow(plan[i], flow[i].hops)
  }

  predicate TokensFollow(p: Path, hops: seq<HopFlow>) {
    |hops| == |p.hops| < |p.tokens| && forall i :: 0 <= i < |hops| ==> hops[i].token == p.tokens[i]
  }

  ghost function RoutePaid(plan: seq<Path>, flow: seq<PathFlow>, t: string): nat
    requires Follows(plan, flow)
    decreases |plan|
  {
    if plan == [] then 0
    else FollowsTail(plan, flow); Paid(plan[0], 0, flow[0].hops, t) + RoutePaid(plan[1..], flow[1..], t)
  }

  lemma FollowsTail(plan: seq<Path>, flow: seq<PathFlow>)
    requires Follows(plan, flow) && plan != []
    ensures Follows(plan[1..], flow[1..])
  {
    assert forall i :: 0 <= i < |plan| - 1 ==> plan[1..][i] == plan[i + 1] && flow[1..][i] == flow[i + 1];
  }

  /** All paths end in the target token. */
  predicate EndIn(plan: seq<Path>, to: string) {
    forall i :: 0 <= i < |plan| ==> |plan[i].hops| < |plan[i].tokens| && plan[i].tokens[|plan[i].hops|] == to
  }

  lemma FirstBalances(plan: seq<Path>, flow: seq<PathFlow>, to: string, t: string)
    requires Follows(plan, flow) && EndIn(plan, to) && plan != []
    ensures flow != [] && |flow[0].hops| < |plan[0].tokens| && plan[0].tokens != []
    ensures forall i :: 0 <= i < |flow[0].hops| ==> flow[0].hops[i].taken <= flow[0].hops[i].input
    ensures In(plan[0].tokens[0], t, plan[0].input) + Paid(plan[0], 0, flow[0].hops, t)
            == Taken(flow[0].hops, t) + Held(ResidualsOf(flow[0].hops), t) + In(to, t, flow[0].out)
  {
    assert TokensFollow(plan[0], flow[0].hops) && Conserves(flow[0].hops, plan[0].input, flow[0].out);
    PathBalances(plan[0], 0, plan[0].input, flow[0].hops, flow[0].out, t);
  }

  lemma RouteUnfolds(plan: seq<Path>, flow: seq<PathFlow>, to: string, t: string)
    requires Follows(plan, flow) && EndIn(plan, to) && plan != []
    ensures Follows(plan[1..], flow[1..]) && EndIn(plan[1..], to)
    ensures Inputs(plan, t) == In(plan[0].tokens[0], t, plan[0].input) + Inputs(plan[1..], t)
    ensures RoutePaid(plan, flow, t) == Paid(plan[0], 0, flow[0].hops, t) + RoutePaid(plan[1..], flow[1..], t)
    ensures RouteTaken(flow, t) == Taken(flow[0].hops, t) + RouteTaken(flow[1..], t)
    ensures Held(AllResiduals(flow), t) == Held(ResidualsOf(flow[0].hops), t) + Held(AllResiduals(flow[1..]), t)
    ensures In(to, t, Sum(OutsOf(flow))) == In(to, t, flow[0].out) + In(to, t, Sum(OutsOf(flow[1..])))
  {
    FollowsTail(plan, flow);
    assert forall i :: 0 <= i < |plan| - 1 ==> plan[1..][i] == plan[i + 1];
    HeldConcat(ResidualsOf(flow[0].hops), AllResiduals(flow[1..]), t);
    assert OutsOf(flow)[1..] == OutsOf(flow[1..]);
  }

  lemma {:induction false} RouteBalances(plan: seq<Path>, flow: seq<PathFlow>, to: string, t: string)
    requires Follows(plan, flow) && EndIn(plan, to)
    ensures Inputs(plan, t) + RoutePaid(plan, flow, t)
            == RouteTaken(flow, t) + Held(AllResiduals(flow), t) + In(to, t, Sum(OutsOf(flow)))
    decreases |plan|
  {
    if plan != [] {
      RouteUnfolds(plan, flow, to, t);
      FirstBalances(plan, flow, to, t);
      hide *;
      RouteBalances(plan[1..], flow[1..], to, t);
    }
  }

  lemma {:induction false} FlowFollows(plan: seq<Path>, oracle: Oracle, fills: nat)
    requires forall i :: 0 <= i < |plan| ==> |plan[i].hops| < |plan[i].tokens|
    ensures var f := FlowOfRoute(plan, oracle, fills); f.Some? ==> Follows(plan, f.value.paths)
    decreases |plan|
  {
    RouteConservation(plan, oracle, fills);
    var f := FlowOfRoute(plan, oracle, fills);
    if plan != [] && f.Some? {
      PathConserves(plan[0], 0, plan[0].input, oracle, fills);
      var first := FlowOfPath(plan[0], 0, plan[0].input, oracle, fills).value;
      FlowFollows(plan[1..], oracle, first.fills);
      assert f.value.paths[0] == first && TokensFollow(plan[0], first.hops);
      forall i | 0 <= i < |plan| ensures TokensFollow(plan[i], f.value.paths[i].hops) {
        assert i > 0 ==> plan[i] == plan[1..][i - 1] && f.value.paths[i] == f.value.paths[1..][i - 1];
      }
    }
  }

  /** In every run of a compiled plan that goes through, and for every token: the plan's inputs and the
      makers' payouts in it equal what the makers took of it and what the sender was sent. */
  lemma EveryTokenIsConserved(q: Quote, o: Options, program: seq<Command>, oracle: Oracle, t: string)
    requires Compile(q, o) == Ok(program) && RouteTyped(q, o, q.paths)
    ensures var r, f := Exec(program, oracle), FlowOfRoute(q.paths, oracle, 0);
            r.Running? ==>
              && f.Some? && Follows(q.paths, f.value.paths)
              && Inputs(q.paths, t) + RoutePaid(q.paths, f.value.paths, t)
                 == RouteTaken(f.value.paths, t) + Held(r.machine.sent, t)
  {
    var r, f := Exec(program, oracle), FlowOfRoute(q.paths, oracle, 0);
    CompiledRouteMeaning(q, o, program, oracle);
    if r.Running? {
      FlowFollows(q.paths, oracle, 0);
      assert EndIn(q.paths, o.toType);
      RouteBalances(q.paths, f.value.paths, o.toType, t);
      var out := Coin(o.toType, Sum(OutsOf(f.value.paths)));
      assert r.machine.sent[0] == out && r.machine.sent[1..] == AllResiduals(f.value.paths);
    }
  }
}
