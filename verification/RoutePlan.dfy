/** A route quote (exchange-dashboard/src/tx/routeFill.ts) and what each of its parts asks of the
    transaction: one coin taken per path, one fill per leg, in the order of the plan. */
module RoutePlan {
  import opened Wrappers
  import opened RouteProgram

  datatype Result<T> = Ok(value: T) | Err(error: Error)
  datatype Error =
    | UnknownMarket | MissingOrder(digest: string) | MissingWhitelist(digest: string)
    | MissingAdapterIds(digest: string) | NoRoutablePaths

  datatype Market = Market(base: string, quote: string)
  datatype Leg = Leg(digest: string, amountIn: nat)
  datatype Path = Path(tokens: seq<string>, markets: seq<string>, input: nat, hops: seq<seq<Leg>>)

  datatype SkeletonKind = FillLimit | FillLimitReverse | FillVault | FillVaultReverse | AssertCoinMin
  datatype Skeleton = Skeleton(
    command: SkeletonKind, digest: Option<string>, whitelistId: Option<string>, vaultId: Option<string>,
    custodyId: Option<string>, integrationRegistryId: Option<string>, adapterPackageId: Option<string>)

  /** The signed orders are opaque payloads, looked up by digest. */
  datatype Quote = Quote(paths: seq<Path>, orders: map<string, string>, skeleton: seq<Skeleton>,
                         markets: map<string, Market>)
  datatype Options = Options(sender: string, fromType: string, toType: string, minOut: nat, packageId: string,
                             whitelistId: Option<string>)

  /** JavaScript truthiness of an optional string. */
  predicate Present(o: Option<string>) { o.Some? && o.value != "" }

  // ----- the parts of the plan, in order -----

  datatype Visit = AtPath(path: nat) | AtHop(path: nat, hop: nat) | AtLeg(path: nat, hop: nat, leg: nat)

  function LegVisits(i: nat, k: nat, j: nat, n: nat): seq<Visit>
    decreases n - j
  {
    if j >= n then [] else [AtLeg(i, k, j)] + LegVisits(i, k, j + 1, n)
  }
  function HopVisits(i: nat, p: Path, k: nat): seq<Visit>
    requires k < |p.hops|
  {
    [AtHop(i, k)] + LegVisits(i, k, 0, |p.hops[k]|)
  }
  function PathVisits(i: nat, p: Path, k: nat): seq<Visit>
    decreases |p.hops| - k
  {
    if k >= |p.hops| then [] else HopVisits(i, p, k) + PathVisits(i, p, k + 1)
  }
  function Visits(q: Quote, i: nat): seq<Visit>
    decreases |q.paths| - i
  {
    if i >= |q.paths| then [] else [AtPath(i)] + PathVisits(i, q.paths[i], 0) + Visits(q, i + 1)
  }

  predicate OnPlan(q: Quote, v: Visit) {
    && v.path < |q.paths|
    && (!v.AtPath? ==> v.hop < |q.paths[v.path].hops|)
    && (v.AtLeg? ==> v.leg < |q.paths[v.path].hops[v.hop]|)
  }

  /** Path by path, a path's start before its hops, hop by hop, a hop's start before its legs, leg by leg. */
  predicate Before(v: Visit, w: Visit) {
    v.path < w.path ||
    (v.path == w.path && !w.AtPath? &&
     (v.AtPath? || v.hop < w.hop || (v.hop == w.hop && w.AtLeg? && (v.AtHop? || v.leg < w.leg))))
  }

  ghost predicate InOrder(vs: seq<Visit>) { forall a, b :: 0 <= a < b < |vs| ==> Before(vs[a], vs[b]) }

  lemma OrderedConcat(x: seq<Visit>, y: seq<Visit>)
    requires InOrder(x) && InOrder(y) && forall v, w :: v in x && w in y ==> Before(v, w)
    ensures InOrder(x + y)
  {
  }

  lemma {:induction false} LegVisitsInOrder(i: nat, k: nat, j: nat, n: nat)
    ensures InOrder(LegVisits(i, k, j, n))
    ensures forall v :: v in LegVisits(i, k, j, n) <==> v.AtLeg? && v.path == i && v.hop == k && j <= v.leg < n
    decreases n - j
  {
    if j < n {
      LegVisitsInOrder(i, k, j + 1, n);
      OrderedConcat([AtLeg(i, k, j)], LegVisits(i, k, j + 1, n));
    }
  }

  lemma {:induction false} PathVisitsInOrder(i: nat, p: Path, k: nat)
    ensures InOrder(PathVisits(i, p, k))
    ensures forall v :: v in PathVisits(i, p, k) <==>
              !v.AtPath? && v.path == i && k <= v.hop < |p.hops| && (v.AtLeg? ==> v.leg < |p.hops[v.hop]|)
    decreases |p.hops| - k
  {
    if k < |p.hops| {
      LegVisitsInOrder(i, k, 0, |p.hops[k]|);
      OrderedConcat([AtHop(i, k)], LegVisits(i, k, 0, |p.hops[k]|));
      PathVisitsInOrder(i, p, k + 1);
      OrderedConcat(HopVisits(i, p, k), PathVisits(i, p, k + 1));
    }
  }

  /** Every part of the plan is visited, once and in order. */
  lemma {:induction false} VisitsInOrder(q: Quote, i: nat)
    ensures InOrder(Visits(q, i))
    ensures forall v :: v in Visits(q, i) <==> OnPlan(q, v) && i <= v.path
    decreases |q.paths| - i
  {
    if i < |q.paths| {
      PathVisitsInOrder(i, q.paths[i], 0);
      OrderedConcat([AtPath(i)], PathVisits(i, q.paths[i], 0));
      VisitsInOrder(q, i + 1);
      OrderedConcat([AtPath(i)] + PathVisits(i, q.paths[i], 0), Visits(q, i + 1));
    }
  }

  // ----- what a leg asks for -----

  predicate Names(c: Skeleton, digest: string) { digest != "" && c.digest == Some(digest) }

  /** `c` is the last skeleton command for the digest, if there is any. */
  ghost predicate LastNamed(skeleton: seq<Skeleton>, digest: string, c: Option<Skeleton>) {
    match c
    case None => forall i :: 0 <= i < |skeleton| ==> !Names(skeleton[i], digest)
    case Some(x) =>
      exists i :: 0 <= i < |skeleton| && skeleton[i] == x && Names(x, digest) &&
                  forall j :: i < j < |skeleton| ==> !Names(skeleton[j], digest)
  }

  predicate KnownMarket(q: Quote, i: nat, k: nat)
    requires i < |q.paths|
  {
    k < |q.paths[i].markets| && q.paths[i].markets[k] in q.markets
  }

  predicate Vault(c: Option<Skeleton>) { c.Some? && (c.value.command.FillVault? || c.value.command.FillVaultReverse?) }

  /** The skeleton's whitelist if it names one, else the options'. */
  function Whitelist(o: Options, c: Option<Skeleton>): Option<string> {
    if c.Some? && c.value.whitelistId.Some? then c.value.whitelistId else o.whitelistId
  }

  predicate HasAdapterIds(c: Skeleton) {
    Present(c.vaultId) && Present(c.custodyId) && Present(c.integrationRegistryId) && Present(c.adapterPackageId)
  }

  /** The adapter with the skeleton's ids and direction for a vault leg; otherwise plain settlement, forward
      when the hop pays the quote token. */
  function EntryFor(o: Options, c: Option<Skeleton>, paysQuote: bool): Entry
    requires Vault(c) ==> HasAdapterIds(c.value)
  {
    if Vault(c) then
      Adapter(c.value.adapterPackageId.value, c.value.command.FillVaultReverse?, c.value.vaultId.value,
              c.value.custodyId.value, c.value.integrationRegistryId.value)
    else Settlement(o.packageId, !paysQuote)
  }

  /** The command fills that leg: its order, its amount, its hop's market, the right whitelist, through the
      adapter of the skeleton exactly for a vault leg. */
  ghost predicate FillsLeg(q: Quote, o: Options, v: Visit, c: Command)
    requires OnPlan(q, v) && v.AtLeg?
  {
    var p := q.paths[v.path];
    var leg := p.hops[v.hop][v.leg];
    && KnownMarket(q, v.path, v.hop) && leg.digest in q.orders
    && var market := q.markets[p.markets[v.hop]];
    && exists s :: LastNamed(q.skeleton, leg.digest, s) && Present(Whitelist(o, s))
         && (Vault(s) ==> HasAdapterIds(s.value))
         && c.Fill? && c == Fill(EntryFor(o, s, v.hop < |p.tokens| && p.tokens[v.hop] == market.quote),
                                 market.base, market.quote, q.orders[leg.digest], Whitelist(o, s).value, c.coin,
                                 leg.amountIn)
  }

  /** Why a part of the plan cannot be built, if the parts before it can. */
  ghost predicate Fails(q: Quote, o: Options, v: Visit, e: Error)
    requires OnPlan(q, v)
  {
    match v
    case AtPath(_) => false
    case AtHop(i, k) => !KnownMarket(q, i, k) && e == UnknownMarket
    case AtLeg(i, k, j) =>
      var d := q.paths[i].hops[k][j].digest;
      KnownMarket(q, i, k) &&
      if d !in q.orders then e == MissingOrder(d) else
      exists s :: LastNamed(q.skeleton, d, s) &&
        if !Present(Whitelist(o, s)) then e == MissingWhitelist(d)
        else Vault(s) && !HasAdapterIds(s.value) && e == MissingAdapterIds(d)
  }

  /** The command does what that part of the plan asks for. */
  ghost predicate Serves(q: Quote, o: Options, v: Visit, c: Command)
    requires OnPlan(q, v)
  {
    match v
    case AtPath(i) => c == TakeCoin(o.fromType, q.paths[i].input)
    case AtHop(_, _) => false
    case AtLeg(_, _, _) => FillsLeg(q, o, v, c)
  }

  // ----- a program that follows the plan -----

  /** The commands that bring in coins and fill orders. */
  function Core(cmds: seq<Command>): seq<Command> {
    if cmds == [] then [] else (if cmds[0].TakeCoin? || cmds[0].Fill? then [cmds[0]] else []) + Core(cmds[1..])
  }

  /** The parts of the plan that take a command: hops take none of their own. */
  function Asks(vs: seq<Visit>): seq<Visit> {
    if vs == [] then [] else (if vs[0].AtHop? then [] else [vs[0]]) + Asks(vs[1..])
  }

  ghost predicate AllOnPlan(q: Quote, vs: seq<Visit>) { forall v :: v in vs ==> OnPlan(q, v) }

  lemma {:induction false} AsksAreVisits(vs: seq<Visit>)
    ensures forall v :: v in Asks(vs) ==> v in vs
  {
    if vs != [] { AsksAreVisits(vs[1..]); }
  }

  /** These commands, merges aside, are what these parts of the plan ask for, one by one. */
  ghost predicate Carries(q: Quote, o: Options, cmds: seq<Command>, vs: seq<Visit>)
    requires AllOnPlan(q, vs)
  {
    AsksAreVisits(vs);
    && |Core(cmds)| == |Asks(vs)|
    && (forall i :: 0 <= i < |Asks(vs)| ==> Serves(q, o, Asks(vs)[i], Core(cmds)[i]))
    && (forall i :: 0 <= i < |cmds| ==> !cmds[i].AssertMin? && !cmds[i].Transfer?)
  }

  ghost predicate Passes(q: Quote, o: Options, v: Visit)
    requires OnPlan(q, v)
  {
    forall e :: !Fails(q, o, v, e)
  }

  ghost predicate AllPass(q: Quote, o: Options, vs: seq<Visit>)
    requires AllOnPlan(q, vs)
  {
    forall i :: 0 <= i < |vs| ==> Passes(q, o, vs[i])
  }

  /** The first part of the plan that fails, fails with `e`. */
  ghost predicate FirstFailure(q: Quote, o: Options, vs: seq<Visit>, e: Error)
    requires AllOnPlan(q, vs)
  {
    exists t :: 0 <= t < |vs| && Fails(q, o, vs[t], e) && AllPass(q, o, vs[..t])
  }

  /** The program is the plan, part by part; then one floor check and one transfer to the sender. */
  ghost predicate FollowsPlan(q: Quote, o: Options, cmds: seq<Command>) {
    VisitsInOrder(q, 0);
    var n := |cmds| - 2;
    && n >= 0 && Carries(q, o, cmds[..n], Visits(q, 0))
    && cmds[n].AssertMin? && cmds[n].token == o.toType && cmds[n].min == o.minOut
    && cmds[n + 1].Transfer? && cmds[n + 1].recipient == o.sender
  }
}
