/** The market estimate of the trade panel (frontend/src/components/TradePanel.tsx,
    `marketEstimate`): a greedy walk over price levels, in exact arithmetic. */
module BookWalk {
  import opened Wrappers
  import opened Strike
  import opened Units

  datatype Side = Buy | Sell
  datatype Level = Level(price: real, qty: real)
  datatype Estimate = Estimate(cost: real, partial: bool)

  const TOLERANCE: real := 0.000000000001

  function Min(a: real, b: real): real { if a <= b then a else b }

  predicate Stocked(levels: seq<Level>) { forall i :: 0 <= i < |levels| ==> levels[i].qty >= 0.0 }

  /** Best price first: asks rise, bids fall. */
  predicate BestFirst(levels: seq<Level>, side: Side) {
    forall i, j :: 0 <= i < j < |levels| ==>
      if side.Buy? then levels[i].price <= levels[j].price else levels[j].price <= levels[i].price
  }

  function Sum(a: seq<real>): real { if a == [] then 0.0 else Sum(a[..|a| - 1]) + a[|a| - 1] }

  function Spend(take: real, price: real): real { take * price }

  /** What taking `a[i]` from each level `i` costs. */
  function Cost(levels: seq<Level>, a: seq<real>): real
    requires |a| <= |levels|
  {
    if a == [] then 0.0 else Cost(levels, a[..|a| - 1]) + Spend(a[|a| - 1], levels[|a| - 1].price)
  }

  function Depth(levels: seq<Level>): real {
    if levels == [] then 0.0 else Depth(levels[..|levels| - 1]) + levels[|levels| - 1].qty
  }

  /** A way of taking from the book. */
  predicate Allocation(levels: seq<Level>, a: seq<real>) {
    |a| == |levels| && forall i :: 0 <= i < |a| ==> 0.0 <= a[i] <= levels[i].qty
  }

  /** Full levels before `k`, nothing after it. */
  predicate FrontLoaded(levels: seq<Level>, a: seq<real>, k: nat) {
    && Allocation(levels, a) && k < |a|
    && (forall i :: 0 <= i < k ==> a[i] == levels[i].qty)
    && (forall i :: k < i < |a| ==> a[i] == 0.0)
  }

  // ----- the walk -----

  /** `marketEstimate`.  The ghost result is what was taken from each level. */
  method MarketEstimate(levels: seq<Level>, qty: real) returns (r: Option<Estimate>, ghost taken: seq<real>)
    requires Stocked(levels)
    ensures r.None? <==> levels == [] || qty <= 0.0
    ensures r.Some? ==> Allocation(levels, taken) && exists k :: FrontLoaded(levels, taken, k)
    ensures r.Some? ==> r.value.cost == Cost(levels, taken)
    ensures r.Some? ==>
              Sum(taken) <= qty
              && (if r.value.partial then Sum(taken) == Depth(levels) else qty - TOLERANCE <= Sum(taken))
    ensures r.Some? ==> (r.value.partial <==> qty - Depth(levels) > TOLERANCE)
  {
    if levels == [] || qty <= 0.0 { return None, []; }
    hide Cost, Sum, Depth, Spend, FrontLoaded;
    EmptySums(levels);
    var remaining, cost := qty, 0.0;
    var i := 0;
    ghost var front: seq<real> := [];
    while i < |levels|
      invariant i <= |levels| && |front| == i && remaining >= 0.0
      invariant forall j :: 0 <= j < i ==> front[j] == levels[j].qty
      invariant cost == Cost(levels, front) && remaining == qty - Sum(front)
      invariant i > 0 ==> remaining > TOLERANCE
    {
      var take := Min(remaining, levels[i].qty);
      Snoc(levels, front, take);
      front := front + [take];
      cost := cost + Spend(take, levels[i].price);
      remaining := remaining - take;
      i := i + 1;
      if remaining <= TOLERANCE { break; }
    }
    taken := front + seq(|levels| - i, _ => 0.0);
    WalkEnds(levels, qty, front, remaining);
    r := Some(Estimate(cost, remaining > TOLERANCE));
  }

  /** Where the walk stops: with the size filled to within the tolerance, or at the end of the book. */
  lemma WalkEnds(levels: seq<Level>, qty: real, front: seq<real>, remaining: real)
    requires Stocked(levels) && 0 < |front| <= |levels|
    requires forall j :: 0 <= j < |front| - 1 ==> front[j] == levels[j].qty
    requires var n := |front| - 1; 0.0 <= front[n] <= levels[n].qty
    requires remaining == qty - Sum(front) && remaining >= 0.0
    requires remaining <= TOLERANCE || (|front| == |levels| && front[|front| - 1] == levels[|front| - 1].qty)
    ensures var taken := front + seq(|levels| - |front|, _ => 0.0);
            && FrontLoaded(levels, taken, |front| - 1) && Cost(levels, taken) == Cost(levels, front)
            && Sum(taken) == Sum(front) && (remaining > TOLERANCE ==> Sum(taken) == Depth(levels))
    ensures remaining > TOLERANCE <==> qty - Depth(levels) > TOLERANCE
  {
    PadCost(levels, front, |levels| - |front|);
    FullSum(levels, front);
    FrontBound(levels, front, |front|);
    hide Cost, Sum, Depth;
  }

  lemma EmptySums(levels: seq<Level>)
    ensures Cost(levels, []) == 0.0 && Sum([]) == 0.0
  {
  }

  lemma Snoc(levels: seq<Level>, a: seq<real>, x: real)
    requires |a| < |levels|
    ensures Cost(levels, a + [x]) == Cost(levels, a) + Spend(x, levels[|a|].price) && Sum(a + [x]) == Sum(a) + x
  {
    assert (a + [x])[..|a|] == a;
  }

  lemma {:induction false} PadCost(levels: seq<Level>, a: seq<real>, n: nat)
    requires |a| + n <= |levels|
    ensures var b := a + seq(n, _ => 0.0); Cost(levels, b) == Cost(levels, a) && Sum(b) == Sum(a)
  {
    var b := a + seq(n, _ => 0.0);
    if n == 0 {
      assert b == a;
    } else {
      assert b[..|b| - 1] == a + seq(n - 1, _ => 0.0) && b[|b| - 1] == 0.0;
      PadCost(levels, a, n - 1);
    }
  }

  lemma {:induction false} FullSum(levels: seq<Level>, a: seq<real>)
    requires |a| <= |levels|
    ensures (forall j :: 0 <= j < |a| ==> a[j] == levels[j].qty) ==> Sum(a) == Depth(levels[..|a|])
    ensures |a| == |levels| ==> levels[..|a|] == levels
  {
    if a != [] {
      FullSum(levels, a[..|a| - 1]);
      assert levels[..|a|][..|a| - 1] == levels[..|a| - 1];
    }
  }

  lemma {:induction false} DepthGrows(levels: seq<Level>, i: nat)
    requires i <= |levels| && Stocked(levels)
    ensures Depth(levels[..i]) <= Depth(levels)
    decreases |levels|
  {
    if i == |levels| {
      assert levels[..i] == levels;
    } else {
      var l := levels[..|levels| - 1];
      DepthGrows(l, i);
      assert l[..i] == levels[..i];
    }
  }

  lemma {:induction false} SumBound(levels: seq<Level>, a: seq<real>)
    requires |a| <= |levels| && forall j :: 0 <= j < |a| ==> a[j] <= levels[j].qty
    ensures Sum(a) <= Depth(levels[..|a|])
  {
    if a != [] {
      SumBound(levels, a[..|a| - 1]);
      assert levels[..|a|][..|a| - 1] == levels[..|a| - 1];
    }
  }

  lemma FrontBound(levels: seq<Level>, a: seq<real>, i: nat)
    requires Stocked(levels) && |a| == i <= |levels| && forall j :: 0 <= j < i ==> a[j] <= levels[j].qty
    ensures Sum(a) <= Depth(levels)
  {
    SumBound(levels, a);
    DepthGrows(levels, i);
  }

  // ----- optimality -----

  lemma ProductSign(x: real, y: real)
    requires (x >= 0.0 && y >= 0.0) || (x <= 0.0 && y <= 0.0)
    ensures x * y >= 0.0
  {
  }

  lemma PivotStep(x: real, y: real, q: real, p: real, total: real)
    requires Spend(x - y, q - p) >= 0.0
    ensures Spend(x, q) - Spend(y, q) + Spend(p, total) >= Spend(p, total + x - y)
  {
    assert (x - y) * (q - p) == x * q - y * q - p * (x - y);
    assert p * (total + x - y) == p * total + p * (x - y);
  }

  lemma SpendNothing(p: real)
    ensures Spend(p, 0.0) == 0.0
  {
  }

  lemma {:induction false} PivotBound(levels: seq<Level>, a: seq<real>, g: seq<real>, p: real)
    requires |a| == |g| <= |levels|
    requires forall i :: 0 <= i < |a| ==> Spend(a[i] - g[i], levels[i].price - p) >= 0.0
    ensures Cost(levels, a) - Cost(levels, g) >= Spend(p, Sum(a) - Sum(g))
  {
    SpendNothing(p);
    if a != [] {
      var n := |a| - 1;
      PivotStep(a[n], g[n], levels[n].price, p, Sum(a[..n]) - Sum(g[..n]));
      hide Spend;
      PivotBound(levels, a[..n], g[..n], p);
    }
  }

  /** A level before the pivot is taken in full at a lower price, one after it not at all at a higher. */
  lemma PivotTerm(levels: seq<Level>, g: seq<real>, k: nat, a: seq<real>, i: nat)
    requires BestFirst(levels, Buy) && FrontLoaded(levels, g, k) && Allocation(levels, a) && i < |a|
    ensures Spend(a[i] - g[i], levels[i].price - levels[k].price) >= 0.0
  {
    assert i < k ==> a[i] <= g[i] && levels[i].price <= levels[k].price;
    assert i > k ==> g[i] <= a[i] && levels[k].price <= levels[i].price;
    hide FrontLoaded, Allocation, BestFirst;
    ProductSign(a[i] - g[i], levels[i].price - levels[k].price);
  }

  lemma BuyOptimal(levels: seq<Level>, g: seq<real>, k: nat, a: seq<real>)
    requires BestFirst(levels, Buy) && FrontLoaded(levels, g, k) && Allocation(levels, a) && Sum(a) == Sum(g)
    ensures Cost(levels, a) >= Cost(levels, g)
  {
    assert |a| == |g| == |levels| && k < |levels|;
    hide *;
    var p := levels[k].price;
    forall i | 0 <= i < |a| ensures Spend(a[i] - g[i], levels[i].price - p) >= 0.0 {
      PivotTerm(levels, g, k, a, i);
    }
    PivotBound(levels, a, g, p);
    SpendNothing(p);
  }

  function Negated(levels: seq<Level>): (r: seq<Level>)
    ensures |r| == |levels|
  {
    seq(|levels|, i requires 0 <= i < |levels| => Level(-levels[i].price, levels[i].qty))
  }

  lemma {:induction false} NegatedCost(levels: seq<Level>, a: seq<real>)
    requires |a| <= |levels|
    ensures Cost(Negated(levels), a) == -Cost(levels, a)
  {
    if a != [] {
      NegatedCost(levels, a[..|a| - 1]);
    }
  }

  /** Any other way of taking the same total costs a buyer at least as much and pays a seller at most as much. */
  lemma GreedyIsOptimal(levels: seq<Level>, side: Side, g: seq<real>, k: nat, a: seq<real>)
    requires BestFirst(levels, side) && FrontLoaded(levels, g, k) && Allocation(levels, a) && Sum(a) == Sum(g)
    ensures side.Buy? ==> Cost(levels, g) <= Cost(levels, a)
    ensures side.Sell? ==> Cost(levels, a) <= Cost(levels, g)
  {
    if side.Buy? {
      BuyOptimal(levels, g, k, a);
    } else {
      var n := Negated(levels);
      assert FrontLoaded(n, g, k) && Allocation(n, a) && BestFirst(n, Buy);
      BuyOptimal(n, g, k, a);
      NegatedCost(levels, a);
      NegatedCost(levels, g);
    }
  }

  /** The estimate itself: no allocation of the total it took does better, and it fails to fill
      exactly when the book is short by more than the tolerance. */
  method BestEstimate(levels: seq<Level>, side: Side, qty: real) returns (r: Option<Estimate>, ghost total: real)
    requires Stocked(levels) && BestFirst(levels, side)
    ensures r.None? <==> levels == [] || qty <= 0.0
    ensures r.Some? ==> forall a :: Allocation(levels, a) && Sum(a) == total ==>
              if side.Buy? then r.value.cost <= Cost(levels, a) else Cost(levels, a) <= r.value.cost
    ensures r.Some? ==> exists a :: Allocation(levels, a) && Sum(a) == total && r.value.cost == Cost(levels, a)
    ensures r.Some? ==> (r.value.partial <==> qty - Depth(levels) > TOLERANCE)
    ensures r.Some? ==> if r.value.partial then total == Depth(levels) else qty - TOLERANCE <= total <= qty
  {
    ghost var g;
    r, g := MarketEstimate(levels, qty);
    total := Sum(g);
    if r.Some? {
      ghost var k :| FrontLoaded(levels, g, k);
      forall a | Allocation(levels, a) && Sum(a) == total
        ensures if side.Buy? then r.value.cost <= Cost(levels, a) else Cost(levels, a) <= r.value.cost
      {
        GreedyIsOptimal(levels, side, g, k, a);
      }
    }
  }

  // ----- the book's grid -----

  /** `snapToLot` on a non-negative amount: the largest multiple of the lot within it. */
  function SnapToLot(raw: nat, lot: int): (r: nat)
    ensures lot <= 0 ==> r == raw
    ensures lot > 0 ==> r <= raw < r + lot && Mod(r, lot) == 0
  {
    if lot <= 0 then raw else
      DivMod(raw, lot);
      PartsUnique(Div(raw, lot), 0, lot);
      Div(raw, lot) * lot
  }

  /** Quote amount of a limit order: `ticks * tick` per whole lot. */
  function Notional(ticks: nat, tick: nat, qtyRaw: nat, lot: nat): nat
    requires lot > 0
  {
    ticks * tick * Div(qtyRaw, lot)
  }

  /** On a lot-snapped quantity the price grid divides exactly. */
  lemma NotionalIsExact(raw: nat, ticks: nat, tick: nat, lot: nat)
    requires lot > 0
    ensures var qty := SnapToLot(raw, lot); Notional(ticks, tick, qty, lot) * lot == ticks * tick * qty
  {
    hide Div, Mod;
    var qty := SnapToLot(raw, lot);
    DivMod(qty, lot);
    MulAssoc(ticks * tick, Div(qty, lot), lot);
  }

  /** Quote units that `n` base units are worth at a display price, in exact arithmetic. */
  function Worth(price: real, scale: real, n: nat): real { price * scale * n as real }

  /** The real number of ticks a price stands for. */
  function RealTicks(price: real, scale: real, lot: nat, tick: nat): real
    requires tick > 0
  {
    Worth(price, scale, lot) / tick as real
  }

  function Ceil(x: real): int { -((-x).Floor) }

  /** `ticksFromPrice`, with `scale` for `10 ** (quoteDecimals - baseDecimals)`. */
  function TicksFromPrice(price: real, scale: real, lot: nat, tick: nat, side: Side): nat {
    if tick == 0 || price <= 0.0 then 0 else
    var raw := RealTicks(price, scale, lot, tick);
    var snapped := if side.Buy? then raw.Floor else Ceil(raw);
    if snapped < 0 then 0 else snapped
  }

  lemma FloorBounds(x: real)
    ensures x.Floor as real <= x < x.Floor as real + 1.0
    ensures x <= Ceil(x) as real < x + 1.0
  {
  }

  lemma IntegerProduct(a: int, b: int)
    ensures (a * b) as real == a as real * b as real
  {
  }

  lemma TicksBound(price: real, scale: real, lot: nat, tick: nat, side: Side)
    requires tick > 0 && lot > 0 && price > 0.0 && scale > 0.0
    ensures var n, x := TicksFromPrice(price, scale, lot, tick, side), Worth(price, scale, lot);
            if side.Buy? then (n * tick) as real <= x < (n * tick) as real + tick as real
            else x <= (n * tick) as real < x + tick as real
  {
    hide Worth, RealTicks, TicksFromPrice, Ceil;
    var x := Worth(price, scale, lot);
    var raw := RealTicks(price, scale, lot, tick);
    var n := TicksFromPrice(price, scale, lot, tick, side);
    WorthPositive(price, scale, lot);
    TicksAreRounded(price, scale, lot, tick, side);
    FloorBounds(raw);
    IntegerProduct(n, tick);
    TickSteps(n as real, raw, tick as real, side, (n * tick) as real, x);
  }

  lemma WorthPositive(price: real, scale: real, n: nat)
    requires price > 0.0 && scale > 0.0 && n > 0
    ensures Worth(price, scale, n) > 0.0
  {
    PositiveProduct(price, scale);
    PositiveProduct(price * scale, n as real);
  }

  lemma TicksAreRounded(price: real, scale: real, lot: nat, tick: nat, side: Side)
    requires tick > 0 && price > 0.0 && Worth(price, scale, lot) > 0.0
    ensures var raw := RealTicks(price, scale, lot, tick);
            && raw * tick as real == Worth(price, scale, lot)
            && TicksFromPrice(price, scale, lot, tick, side) == if side.Buy? then raw.Floor else Ceil(raw)
  {
    hide Worth;
    RatioBounds(Worth(price, scale, lot), tick, RealTicks(price, scale, lot, tick));
  }

  lemma TickSteps(n: real, raw: real, k: real, side: Side, u: real, x: real)
    requires k > 0.0 && u == n * k && x == raw * k
    requires if side.Buy? then n <= raw < n + 1.0 else raw <= n < raw + 1.0
    ensures if side.Buy? then u <= x < u + k else x <= u < x + k
  {
    if side.Buy? {
      BelowOne(raw - n, k, (raw - n) * k);
      assert (raw - n) * k == raw * k - n * k;
    } else {
      BelowOne(n - raw, k, (n - raw) * k);
      assert (n - raw) * k == n * k - raw * k;
    }
  }

  lemma BelowOne(d: real, k: real, dk: real)
    requires 0.0 <= d < 1.0 && k > 0.0 && dk == d * k
    ensures 0.0 <= dk < k
  {
    PositiveProduct(1.0 - d, k);
    assert (1.0 - d) * k == k - dk;
  }

  lemma PositiveProduct(a: real, b: real)
    requires a > 0.0 && b > 0.0
    ensures a * b > 0.0
  {
  }

  lemma RatioBounds(x: real, tick: nat, raw: real)
    requires tick > 0 && x > 0.0 && raw == x / tick as real
    ensures raw * tick as real == x && raw > 0.0
  {
  }

  /** A limit order never asks its owner for a worse price than typed, and is within one tick of it:
      in exact arithmetic a bid offers at most, and an ask demands at least, the typed price times the quantity. */
  lemma LimitPriceRespected(raw: nat, price: real, scale: real, lot: nat, tick: nat, side: Side)
    requires tick > 0 && lot > 0 && price > 0.0 && scale > 0.0
    ensures var qty := SnapToLot(raw, lot); var n := TicksFromPrice(price, scale, lot, tick, side);
            var quote, exact := Notional(n, tick, qty, lot) as real, price * scale * qty as real;
            var step := (tick * Div(qty, lot)) as real;
            if side.Buy? then exact - step <= quote <= exact else exact <= quote <= exact + step
  {
    hide *;
    var qty := SnapToLot(raw, lot);
    var n := TicksFromPrice(price, scale, lot, tick, side);
    var lots := Div(qty, lot);
    TicksBound(price, scale, lot, tick, side);
    LotsOf(raw, lot);
    NotionalOf(n, tick, qty, lot);
    SameWorth(price, scale, qty, lot, lots);
    WorthIsProduct(price, scale, qty);
    LimitArithmetic(n * tick, tick, lots, Worth(price, scale, lot), side);
  }

  lemma WorthIsProduct(price: real, scale: real, n: nat)
    ensures Worth(price, scale, n) == price * scale * n as real
  {
  }

  lemma LotsOf(raw: nat, lot: nat)
    requires lot > 0
    ensures var qty := SnapToLot(raw, lot); qty == Times(Div(qty, lot), lot)
  {
    hide Div, Mod;
    DivMod(SnapToLot(raw, lot), lot);
  }

  lemma NotionalOf(n: nat, tick: nat, qty: nat, lot: nat)
    requires lot > 0
    ensures Notional(n, tick, qty, lot) == n * tick * Div(qty, lot)
  {
  }

  lemma SameWorth(price: real, scale: real, qty: nat, lot: nat, lots: nat)
    requires qty == Times(lots, lot)
    ensures Worth(price, scale, qty) == Scaled(Worth(price, scale, lot), lots as real)
  {
    IntegerProduct(lots, lot);
    var unit := price * scale;
    assert unit * (lots as real * lot as real) == unit * lot as real * lots as real;
  }

  lemma LimitArithmetic(u: nat, k: nat, lots: nat, x: real, side: Side)
    requires if side.Buy? then u as real <= x < u as real + k as real else x <= u as real < x + k as real
    ensures var quote, exact, step := (u * lots) as real, Scaled(x, lots as real), (k * lots) as real;
            if side.Buy? then exact - step <= quote <= exact else exact <= quote <= exact + step
  {
    IntegerScaled(u, lots);
    IntegerScaled(k, lots);
    hide Scaled;
    if side.Buy? {
      ScaledBetween(u as real, x, k as real, lots as real);
    } else {
      ScaledBetween(x, u as real, k as real, lots as real);
    }
  }

  /** A product of reals, kept whole. */
  function Scaled(x: real, l: real): real { x * l }

  lemma IntegerScaled(a: int, b: int)
    ensures (a * b) as real == Scaled(a as real, b as real)
  {
    IntegerProduct(a, b);
  }

  lemma ScaledBetween(a: real, b: real, k: real, l: real)
    requires a <= b < a + k && l >= 0.0
    ensures Scaled(a, l) <= Scaled(b, l) <= Scaled(a, l) + Scaled(k, l)
  {
    ProductSign(b - a, l);
    ProductSign(a + k - b, l);
    assert (b - a) * l == b * l - a * l;
    assert (a + k - b) * l == a * l + k * l - b * l;
  }

  // ----- display levels -----

  datatype WireLevel = WireLevel(priceTicks: nat, baseQuantity: nat)

  /** `priceFromTicks`, with `unscale` for `10 ** (baseDecimals - quoteDecimals)`. */
  function PriceFromTicks(ticks: nat, lot: int, tick: nat, unscale: real): real {
    if lot <= 0 then 0.0 else (ticks * tick) as real / lot as real * unscale
  }

  /** `toDisplayBook` for one side; `unit` is `10 ** baseDecimals`. */
  function Display(wire: seq<WireLevel>, lot: int, tick: nat, unscale: real, unit: nat): (r: seq<Level>)
    requires unit > 0
    ensures |r| == |wire|
  {
    seq(|wire|, i requires 0 <= i < |wire| =>
      Level(PriceFromTicks(wire[i].priceTicks, lot, tick, unscale), wire[i].baseQuantity as real / unit as real))
  }

  lemma PriceMonotone(a: nat, b: nat, lot: int, tick: nat, unscale: real)
    requires a <= b && unscale > 0.0
    ensures PriceFromTicks(a, lot, tick, unscale) <= PriceFromTicks(b, lot, tick, unscale)
  {
    if lot > 0 {
      MulLe(a, b, tick);
      var x, y, l := (a * tick) as real, (b * tick) as real, lot as real;
      QuotientLe(x, y, l);
      ProductSign(y / l - x / l, unscale);
      assert (y / l - x / l) * unscale == y / l * unscale - x / l * unscale;
    }
  }

  lemma QuotientLe(x: real, y: real, l: real)
    requires x <= y && l > 0.0
    ensures x / l <= y / l
  {
  }

  /** A book served best tick first is displayed best price first, so the estimate's optimality applies to it. */
  lemma DisplayKeepsOrder(wire: seq<WireLevel>, lot: int, tick: nat, unscale: real, unit: nat, side: Side)
    requires unit > 0 && unscale > 0.0
    requires forall i, j :: 0 <= i < j < |wire| ==>
               if side.Buy? then wire[i].priceTicks <= wire[j].priceTicks else wire[j].priceTicks <= wire[i].priceTicks
    ensures Stocked(Display(wire, lot, tick, unscale, unit)) && BestFirst(Display(wire, lot, tick, unscale, unit), side)
  {
    hide PriceFromTicks;
    var d := Display(wire, lot, tick, unscale, unit);
    forall i, j | 0 <= i < j < |d|
      ensures if side.Buy? then d[i].price <= d[j].price else d[j].price <= d[i].price
    {
      if side.Buy? {
        PriceMonotone(wire[i].priceTicks, wire[j].priceTicks, lot, tick, unscale);
      } else {
        PriceMonotone(wire[j].priceTicks, wire[i].priceTicks, lot, tick, unscale);
      }
    }
    forall i | 0 <= i < |d| ensures d[i].qty >= 0.0 {
      QuotientLe(0.0, wire[i].baseQuantity as real, unit as real);
    }
  }

  /** A displayed price typed back is the tick it came from, on either side, and a displayed quantity times the
      base unit is the quantity served. */
  lemma DisplayIsExact(wire: seq<WireLevel>, i: nat, lot: nat, tick: nat, scale: real, unscale: real, unit: nat,
                       side: Side)
    requires i < |wire| && lot > 0 && tick > 0 && unit > 0 && scale > 0.0 && unscale > 0.0 && scale * unscale == 1.0
    ensures var level := Display(wire, lot, tick, unscale, unit)[i];
            && TicksFromPrice(level.price, scale, lot, tick, side) == wire[i].priceTicks
            && level.price * lot as real == (wire[i].priceTicks * tick) as real * unscale
            && level.qty * unit as real == wire[i].baseQuantity as real
  {
    hide TicksFromPrice, PriceFromTicks;
    PriceInverse(wire[i].priceTicks, lot, tick, scale, unscale, side);
    PriceTimesLot(wire[i].priceTicks, lot, tick, unscale);
    QuotientTimes(wire[i].baseQuantity as real, unit as real);
  }

  lemma PriceTimesLot(ticks: nat, lot: nat, tick: nat, unscale: real)
    requires lot > 0
    ensures PriceFromTicks(ticks, lot, tick, unscale) * lot as real == (ticks * tick) as real * unscale
  {
    var x, l := (ticks * tick) as real, lot as real;
    PriceParts(ticks, lot, tick, unscale);
    QuotientTimes(x, l);
    hide PriceFromTicks;
    var y := x / l;
    assert y * unscale * l == (y * l) * unscale;
  }

  lemma QuotientTimes(x: real, y: real)
    requires y > 0.0
    ensures x / y * y == x
  {
  }

  lemma PriceInverse(ticks: nat, lot: nat, tick: nat, scale: real, unscale: real, side: Side)
    requires lot > 0 && tick > 0 && scale > 0.0 && unscale > 0.0 && scale * unscale == 1.0
    ensures TicksFromPrice(PriceFromTicks(ticks, lot, tick, unscale), scale, lot, tick, side) == ticks
  {
    var price := PriceFromTicks(ticks, lot, tick, unscale);
    var x, l := (ticks * tick) as real, lot as real;
    hide RealTicks, PriceFromTicks;
    assert price == x / l * unscale by { PriceParts(ticks, lot, tick, unscale); }
    if ticks == 0 {
      assert x == 0.0;
      ZeroQuotient(l);
    } else {
      MulLe(1, ticks, tick);
      PriceIsPositive(x, l, unscale);
      WorthOfPrice(x, l, scale, unscale, price, lot);
      TicksAreRounded(price, scale, lot, tick, side);
      var raw := RealTicks(price, scale, lot, tick);
      IntegerProduct(ticks, tick);
      CancelTick(raw, ticks as real, tick as real);
    }
  }

  lemma PriceParts(ticks: nat, lot: nat, tick: nat, unscale: real)
    requires lot > 0
    ensures PriceFromTicks(ticks, lot, tick, unscale) == (ticks * tick) as real / lot as real * unscale
  {
  }

  lemma ZeroQuotient(l: real)
    requires l > 0.0
    ensures 0.0 / l == 0.0
  {
  }

  lemma PriceIsPositive(x: real, l: real, unscale: real)
    requires x > 0.0 && l > 0.0 && unscale > 0.0
    ensures x / l * unscale > 0.0
  {
    PositiveProduct(x / l, unscale);
  }

  lemma WorthOfPrice(x: real, l: real, scale: real, unscale: real, price: real, lot: nat)
    requires l == lot as real && lot > 0 && price == x / l * unscale && scale * unscale == 1.0
    ensures Worth(price, scale, lot) == x
  {
    var y := x / l;
    QuotientTimes(x, l);
    assert y * unscale * scale == y * (scale * unscale);
  }

  lemma CancelTick(a: real, b: real, k: real)
    requires k > 0.0 && a * k == b * k
    ensures a == b
  {
    assert (a - b) * k == 0.0;
  }
}
