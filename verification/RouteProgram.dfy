/** Straight-line transaction programs over linear coins: the commands that the
    route builder emits, and a machine that runs them.

    A coin is a result of an earlier command.  Using one twice, using one that
    does not exist, or giving a command a coin of the wrong type gets the
    machine stuck; so does nothing else.  A fill's behaviour is arbitrary: it
    takes some of the coin it is given, returns the rest as change and pays out
    any amount, or it refuses and the transaction halts. */
module RouteProgram {

  /** Result `result` of command number `cmd`, or JavaScript's `undefined`. */
  datatype Arg = Ref(cmd: nat, result: nat) | Undefined

  /** A fill entry point: plain settlement, or the exchange adapter for makers
      whose funds sit in a vault. */
  datatype Entry =
    | Settlement(packageId: string, reverse: bool)
    | Adapter(packageId: string, reverse: bool, vaultId: string, custodyId: string, integrationRegistryId: string)

  datatype Command =
    | TakeCoin(token: string, balance: nat)
    | Fill(entry: Entry, base: string, quote: string, order: string, whitelistId: string, coin: Arg, amountIn: nat)
    | Merge(into: Arg, from: seq<Arg>)
    | AssertMin(token: string, coin: Arg, min: nat)
    | Transfer(coins: seq<Arg>, recipient: string)

  /** A forward fill pays quote for base; a reverse fill pays base for quote. */
  function Pays(entry: Entry, base: string, quote: string): string { if entry.reverse then base else quote }
  function Gets(entry: Entry, base: string, quote: string): string { if entry.reverse then quote else base }

  datatype Coin = Coin(token: string, value: nat)

  datatype FillResult = Filled(taken: nat, out: nat) | Refused

  /** What the chain does at the k-th fill of the transaction. */
  type Oracle = nat -> FillResult

  datatype Machine = Machine(live: map<Arg, Coin>, sent: seq<Coin>, next: nat, fills: nat)

  datatype Run = Running(machine: Machine) | Halted | Stuck

  const START := Running(Machine(map[], [], 0, 0))

  function Total(coins: seq<Coin>): nat {
    if coins == [] then 0 else coins[0].value + Total(coins[1..])
  }

  ghost predicate Distinct(args: seq<Arg>) {
    forall i, j :: 0 <= i < j < |args| ==> args[i] != args[j]
  }

  ghost predicate AllLive(args: seq<Arg>, live: map<Arg, Coin>) {
    forall i :: 0 <= i < |args| ==> args[i] in live
  }

  ghost function Lookup(args: seq<Arg>, live: map<Arg, Coin>): (coins: seq<Coin>)
    requires AllLive(args, live)
    ensures |coins| == |args| && forall i :: 0 <= i < |args| ==> coins[i] == live[args[i]]
  {
    seq(|args|, i requires 0 <= i < |args| => live[args[i]])
  }

  function Elements(args: seq<Arg>): set<Arg> { set a | a in args }

  ghost function Step(r: Run, c: Command, oracle: Oracle): Run {
    if !r.Running? then r else
    var m := r.machine;
    match c
    case TakeCoin(token, balance) =>
      Running(m.(live := m.live[Ref(m.next, 0) := Coin(token, balance)], next := m.next + 1))
    case Fill(entry, base, quote, _, _, coin, _) =>
      if coin !in m.live || m.live[coin].token != Pays(entry, base, quote) then Stuck else
      var given := m.live[coin];
      (match oracle(m.fills)
       case Refused => Halted
       case Filled(taken, out) =>
         if taken > given.value then Halted else
         var left := (m.live - {coin})[Ref(m.next, 0) := Coin(Gets(entry, base, quote), out)];
         Running(m.(live := left[Ref(m.next, 1) := given.(value := given.value - taken)],
                    next := m.next + 1, fills := m.fills + 1)))
    case Merge(into, from) =>
      if into !in m.live || into in from || !AllLive(from, m.live) || !Distinct(from) then Stuck else
      var coins := Lookup(from, m.live);
      if !(forall i :: 0 <= i < |coins| ==> coins[i].token == m.live[into].token) then Stuck else
      var merged := Coin(m.live[into].token, m.live[into].value + Total(coins));
      Running(m.(live := (m.live - Elements(from))[into := merged], next := m.next + 1))
    case AssertMin(token, coin, min) =>
      if coin !in m.live || m.live[coin].token != token then Stuck else
      if m.live[coin].value < min then Halted else Running(m.(next := m.next + 1))
    case Transfer(coins, _) =>
      if !AllLive(coins, m.live) || !Distinct(coins) then Stuck else
      Running(m.(live := m.live - Elements(coins), sent := m.sent + Lookup(coins, m.live), next := m.next + 1))
  }

  ghost function Exec(program: seq<Command>, oracle: Oracle): Run {
    if program == [] then START
    else Step(Exec(program[..|program| - 1], oracle), program[|program| - 1], oracle)
  }

  lemma ExecAppend(program: seq<Command>, c: Command, oracle: Oracle)
    ensures Exec(program + [c], oracle) == Step(Exec(program, oracle), c, oracle)
  {
    assert (program + [c])[..|program|] == program;
  }

  // ----- layouts: which argument holds which coin -----

  /** The live coins are exactly `coins`, held by the distinct results `args`. */
  ghost predicate Layout(m: Machine, args: seq<Arg>, coins: seq<Coin>) {
    && |args| == |coins| && Distinct(args)
    && (forall i :: 0 <= i < |args| ==> args[i].Ref? && args[i].cmd < m.next)
    && (forall a :: a in m.live <==> a in args)
    && (forall i :: 0 <= i < |args| ==> m.live[args[i]] == coins[i])
  }

  lemma LayoutSwap(m: Machine, a: seq<Arg>, b: seq<Arg>, c: seq<Arg>, x: seq<Coin>, y: seq<Coin>, z: seq<Coin>)
    requires |a| == |x| && |b| == |y| && |c| == |z|
    requires Layout(m, a + b + c, x + y + z)
    ensures Layout(m, a + c + b, x + z + y)
  {
    var p, q := a + b + c, a + c + b;
    var u, v := x + y + z, x + z + y;
    forall i | 0 <= i < |q|
      ensures exists k :: 0 <= k < |p| && p[k] == q[i] && u[k] == v[i] && k == Source(i, |a|, |b|, |c|)
    {
      var k := Source(i, |a|, |b|, |c|);
      assert p[k] == q[i] && u[k] == v[i];
    }
    assert forall e :: e in p <==> e in q;
  }

  lemma LayoutFlip(m: Machine, b: seq<Arg>, c: seq<Arg>, y: seq<Coin>, z: seq<Coin>)
    requires |b| == |y| && |c| == |z| && Layout(m, b + c, y + z)
    ensures Layout(m, c + b, z + y)
  {
    assert [] + b + c == b + c && [] + c + b == c + b;
    assert [] + y + z == y + z && [] + z + y == z + y;
    LayoutSwap(m, [], b, c, [], y, z);
  }

  /** Where element `i` of `a + c + b` sits in `a + b + c`. */
  function Source(i: nat, na: nat, nb: nat, nc: nat): nat
    requires i < na + nb + nc
  {
    if i < na then i else if i < na + nc then i + nb else i - nc
  }

  ghost predicate SameButLive(m: Machine, m': Machine) {
    m'.sent == m.sent && m'.next == m.next + 1
  }

  lemma LayoutTake(m: Machine, args: seq<Arg>, coins: seq<Coin>, token: string, balance: nat, oracle: Oracle)
    requires Layout(m, args, coins)
    ensures var r := Step(Running(m), TakeCoin(token, balance), oracle);
            && r.Running? && SameButLive(m, r.machine) && r.machine.fills == m.fills
            && Layout(r.machine, args + [Ref(m.next, 0)], coins + [Coin(token, balance)])
  {
  }

  lemma LayoutFill(m: Machine, a: seq<Arg>, x: seq<Coin>, c: Command, given: Coin, oracle: Oracle)
    requires c.Fill? && Layout(m, a + [c.coin], x + [given]) && |a| == |x|
    requires given.token == Pays(c.entry, c.base, c.quote)
    ensures var r := Step(Running(m), c, oracle);
            match oracle(m.fills)
            case Refused => r == Halted
            case Filled(taken, out) =>
              if taken > given.value then r == Halted else
              && r.Running? && SameButLive(m, r.machine) && r.machine.fills == m.fills + 1
              && Layout(r.machine, a + [Ref(m.next, 0)] + [Ref(m.next, 1)],
                        x + [Coin(Gets(c.entry, c.base, c.quote), out)] + [given.(value := given.value - taken)])
  {
    var args, coins := a + [c.coin], x + [given];
    assert args[|a|] == c.coin && coins[|a|] == given;
    assert forall i :: 0 <= i < |a| ==> args[i] == a[i] && coins[i] == x[i];
    assert c.coin !in a;
  }

  /** Reading a layout at a concatenation. */
  lemma LayoutAt(m: Machine, a: seq<Arg>, x: seq<Coin>, b: seq<Arg>, y: seq<Coin>)
    requires Layout(m, a + b, x + y) && |a| == |x|
    ensures |b| == |y| && Distinct(a) && Distinct(b) && AllLive(b, m.live)
    ensures forall i :: 0 <= i < |a| ==> a[i] in m.live && m.live[a[i]] == x[i] && a[i] !in b
    ensures forall i :: 0 <= i < |b| ==> m.live[b[i]] == y[i] && b[i].Ref? && b[i].cmd < m.next
    ensures forall e :: e in m.live <==> e in a || e in b
  {
    var args, coins := a + b, x + y;
    assert forall i :: 0 <= i < |a| ==> args[i] == a[i] && coins[i] == x[i];
    assert forall i :: 0 <= i < |b| ==> args[|a| + i] == b[i] && coins[|a| + i] == y[i];
  }

  lemma MergeRuns(m: Machine, outs: seq<Arg>, paid: seq<Coin>, token: string, oracle: Oracle)
    requires |outs| == |paid| > 0 && Distinct(outs) && AllLive(outs, m.live)
    requires forall i :: 0 <= i < |outs| ==> m.live[outs[i]] == paid[i] && paid[i].token == token
    ensures Step(Running(m), Merge(outs[0], outs[1..]), oracle) ==
            Running(m.(live := (m.live - Elements(outs[1..]))[outs[0] := Coin(token, Total(paid))], next := m.next + 1))
  {
    assert Lookup(outs[1..], m.live) == paid[1..];
  }

  lemma LayoutMerge(m: Machine, a: seq<Arg>, x: seq<Coin>, outs: seq<Arg>, paid: seq<Coin>, token: string,
                    oracle: Oracle)
    requires Layout(m, a + outs, x + paid) && |a| == |x| && |outs| > 0
    requires forall i :: 0 <= i < |paid| ==> paid[i].token == token
    ensures var r := Step(Running(m), Merge(outs[0], outs[1..]), oracle);
            && r.Running? && SameButLive(m, r.machine) && r.machine.fills == m.fills
            && Layout(r.machine, a + [outs[0]], x + [Coin(token, Total(paid))])
  {
    LayoutAt(m, a, x, outs, paid);
    MergeRuns(m, outs, paid, token, oracle);
    assert forall i :: 0 <= i < |a| ==> (a + outs)[i] == a[i] && a[i].Ref? && a[i].cmd < m.next;
    hide Layout, Step, Distinct;
    MergedLayout(m, a, x, outs, Coin(token, Total(paid)));
  }

  /** The merged coin stands beside the coins that were left alone. */
  lemma MergedLayout(m: Machine, a: seq<Arg>, x: seq<Coin>, outs: seq<Arg>, sum: Coin)
    requires |a| == |x| && |outs| > 0 && Distinct(a) && Distinct(outs)
    requires forall i :: 0 <= i < |a| ==> a[i] in m.live && m.live[a[i]] == x[i] && a[i] !in outs
    requires forall i :: 0 <= i < |a| ==> a[i].Ref? && a[i].cmd < m.next
    requires outs[0].Ref? && outs[0].cmd < m.next && forall e :: e in m.live <==> e in a || e in outs
    ensures Layout(m.(live := (m.live - Elements(outs[1..]))[outs[0] := sum], next := m.next + 1),
                   a + [outs[0]], x + [sum])
  {
    assert forall e :: e in outs <==> e == outs[0] || e in outs[1..];
  }

  lemma LayoutTransfer(m: Machine, args: seq<Arg>, coins: seq<Coin>, recipient: string, oracle: Oracle)
    requires Layout(m, args, coins)
    ensures var r := Step(Running(m), Transfer(args, recipient), oracle);
            r.Running? && r.machine.live == map[] && r.machine.sent == m.sent + coins
  {
    assert Lookup(args, m.live) == coins;
  }
}
