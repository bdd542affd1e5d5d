/**
 The grid liquidity simulator (app.js): a reservation allocator feeds a fill ledger and re-plans on every candle.

 Amounts are exact reals. A level priced at zero gets no order: the quotient is not a number there and every
 comparison with it is false.
 */
module Simulator {
  import opened Common

  const QUOTE_SLACK := 0.00000001
  const BASE_SLACK := 0.0000000001

  datatype Side = Buy | Sell

  datatype Level = Level(side: Side, index: nat, price: real)

  datatype Order = Order(side: Side, index: nat, price: real, quantity: real)

  datatype Fill = Fill(side: Side, index: nat, price: real, quantity: real, fee: real)

  datatype Candle = Candle(timestamp: int, open: real, high: real, low: real, close: real)

  datatype Point = Point(timestamp: int, equity: real)

  datatype Config = Config(
    base: real, quote: real, candles: seq<Candle>, feeRate: real, levelsEachSide: nat, orderQuoteSize: real,
    spacingPct: real, targetInventoryRatio: real, maxInventorySkew: real)

  datatype State = State(
    quote: real, base: real, openOrders: seq<Order>, fills: seq<Fill>, restingBuys: map<nat, Fill>,
    activeIndex: nat, feePaid: real, realizedHarvest: real, equityCurve: seq<Point>)

  // ---------------------------------------------------------------------
  // Planning
  // ---------------------------------------------------------------------

  function Equity(quote: real, base: real, mark: real): real {
    quote + base * mark
  }

  function InventoryRatio(quote: real, base: real, mark: real): real {
    var total := Equity(quote, base, mark);
    if total <= 0.0 then 0.0 else base * mark / total
  }

  function BuyPrice(cfg: Config, mark: real, index: nat): real {
    mark * (1.0 - cfg.spacingPct * index as real)
  }

  function BuyLevels(cfg: Config, mark: real): (levels: seq<Level>)
    ensures |levels| == cfg.levelsEachSide
  {
    var n := cfg.levelsEachSide;
    seq(n, k requires 0 <= k < n => Level(Buy, n - k, BuyPrice(cfg, mark, n - k)))
  }

  function SellPrice(cfg: Config, mark: real, index: nat): real {
    mark * (1.0 + cfg.spacingPct * index as real)
  }

  function SellLevels(cfg: Config, mark: real): (levels: seq<Level>)
    ensures |levels| == cfg.levelsEachSide
  {
    seq(cfg.levelsEachSide, k requires 0 <= k < cfg.levelsEachSide =>
      Level(Sell, k + 1, SellPrice(cfg, mark, k + 1)))
  }

  /** The ladder in planning order: the lowest buy first, the highest sell last. */
  function Levels(cfg: Config, mark: real): seq<Level> {
    BuyLevels(cfg, mark) + SellLevels(cfg, mark)
  }

  function Quantity(cfg: Config, l: Level): real
    requires l.price != 0.0
  {
    cfg.orderQuoteSize / l.price
  }

  function OrderAt(cfg: Config, l: Level): Order
    requires l.price != 0.0
  {
    Order(l.side, l.index, l.price, Quantity(cfg, l))
  }

  function Value(price: real, quantity: real): real {
    price * quantity
  }

  function Fee(cfg: Config, value: real): real {
    value * cfg.feeRate
  }

  /** What filling a buy takes out of the quote balance. */
  function Cost(cfg: Config, o: Order): real {
    Value(o.price, o.quantity) + Fee(cfg, Value(o.price, o.quantity))
  }

  /** Orders reserved so far and what is left to reserve against. */
  datatype Plan = Plan(orders: seq<Order>, quote: real, base: real)

  datatype Band = Band(buyAllowed: bool, sellAllowed: bool)

  function BandAt(cfg: Config, quote: real, base: real, mark: real): Band {
    var ratio := InventoryRatio(quote, base, mark);
    Band(ratio <= cfg.targetInventoryRatio + cfg.maxInventorySkew,
         ratio >= cfg.targetInventoryRatio - cfg.maxInventorySkew)
  }

  /** The levels that ask for an order: their side is allowed and their price is not zero. */
  predicate Asks(band: Band, l: Level) {
    l.price != 0.0 && if l.side == Buy then band.buyAllowed else band.sellAllowed
  }

  function Consider(cfg: Config, band: Band, p: Plan, l: Level): Plan {
    if !Asks(band, l) then p
    else
      var o := OrderAt(cfg, l);
      if l.side == Buy && Cost(cfg, o) <= p.quote + QUOTE_SLACK then
        Plan(p.orders + [o], Max(0.0, p.quote - Cost(cfg, o)), p.base)
      else if l.side == Sell && o.quantity <= p.base + BASE_SLACK then
        Plan(p.orders + [o], p.quote, Max(0.0, p.base - o.quantity))
      else p
  }

  function Reserve(cfg: Config, band: Band, levels: seq<Level>, quote: real, base: real): Plan {
    if levels == [] then Plan([], quote, base)
    else Consider(cfg, band, Reserve(cfg, band, levels[..|levels| - 1], quote, base), levels[|levels| - 1])
  }

  function Planned(cfg: Config, s: State, mark: real): State {
    s.(openOrders := Reserve(cfg, BandAt(cfg, s.quote, s.base, mark), Levels(cfg, mark), s.quote, s.base).orders)
  }

  // ---------------------------------------------------------------------
  // Filling and stepping
  // ---------------------------------------------------------------------

  function FillOf(cfg: Config, o: Order): Fill {
    Fill(o.side, o.index, o.price, o.quantity, Fee(cfg, Value(o.price, o.quantity)))
  }

  /** Profit realised by a sell against the resting buy of its level. */
  function Gain(sell: Fill, buy: Fill): real {
    (sell.price - buy.price) * Min(sell.quantity, buy.quantity) - sell.fee - buy.fee
  }

  function Filled(cfg: Config, s: State, o: Order): State {
    var f := FillOf(cfg, o);
    var t := s.(feePaid := s.feePaid + f.fee, fills := s.fills + [f]);
    if o.side == Buy then
      t.(quote := s.quote - (Value(o.price, o.quantity) + f.fee), base := s.base + o.quantity,
         restingBuys := s.restingBuys[o.index := f])
    else
      var u := t.(quote := s.quote + (Value(o.price, o.quantity) - f.fee), base := s.base - o.quantity);
      if o.index in s.restingBuys then
        u.(realizedHarvest := s.realizedHarvest + Gain(f, s.restingBuys[o.index]),
           restingBuys := s.restingBuys - {o.index})
      else u
  }

  function FilledAll(cfg: Config, s: State, orders: seq<Order>): State {
    if orders == [] then s else Filled(cfg, FilledAll(cfg, s, orders[..|orders| - 1]), orders[|orders| - 1])
  }

  predicate Crosses(o: Order, c: Candle) {
    if o.side == Buy then c.low <= o.price else c.high >= o.price
  }

  function Select(orders: seq<Order>, c: Candle, crossed: bool): seq<Order> {
    if orders == [] then []
    else
      var last := orders[|orders| - 1];
      Select(orders[..|orders| - 1], c, crossed) + if Crosses(last, c) == crossed then [last] else []
  }

  /** The orders are planned, the crossed ones are filled in order. */
  function Traded(cfg: Config, s: State, c: Candle): State {
    var s1 := if s.openOrders == [] then Planned(cfg, s, c.open) else s;
    FilledAll(cfg, s1.(openOrders := Select(s1.openOrders, c, false)), Select(s1.openOrders, c, true))
  }

  function Stepped(cfg: Config, s: State): State {
    if s.activeIndex >= |cfg.candles| then s
    else
      var c := cfg.candles[s.activeIndex];
      var t := Traded(cfg, s, c);
      var u := t.(equityCurve := t.equityCurve + [Point(c.timestamp, Equity(t.quote, t.base, c.close))]);
      Planned(cfg, u, c.close).(activeIndex := s.activeIndex + 1)
  }

  function Initial(cfg: Config): State
    requires cfg.candles != []
  {
    var first := cfg.candles[0];
    State(cfg.quote, cfg.base, [], [], map[], 0, 0.0, 0.0,
          [Point(first.timestamp, Equity(cfg.quote, cfg.base, first.open))])
  }

  function Steps(cfg: Config, s: State, k: nat): State
    decreases k
  {
    if k == 0 then s else Stepped(cfg, Steps(cfg, s, k - 1))
  }

  // ---------------------------------------------------------------------
  // Greedy reservation with slack
  // ---------------------------------------------------------------------

  /** Greedy reservation of amounts: how many were taken, their total and what is left. */
  datatype Greed = Greed(count: nat, total: real, left: real)

  function Take(g: Greed, amount: real, slack: real): Greed {
    if amount <= g.left + slack then Greed(g.count + 1, g.total + amount, Max(0.0, g.left - amount)) else g
  }

  function Greedy(amounts: seq<real>, available: real, slack: real): Greed {
    if amounts == [] then Greed(0, 0.0, available)
    else Take(Greedy(amounts[..|amounts| - 1], available, slack), amounts[|amounts| - 1], slack)
  }

  /** The total overshoot allowed to a number of taken amounts. */
  function Allowance(count: nat, slack: real): real {
    count as real * slack
  }

  lemma AllowanceNext(count: nat, slack: real)
    ensures Allowance(count + 1, slack) == Allowance(count, slack) + slack
  {
    assert (count + 1) as real == count as real + 1.0;
  }

  predicate WithinAllowance(g: Greed, available: real, allowance: real) {
    && g.total >= 0.0
    && (g.count == 0 ==> g.total == 0.0 && g.left == available) && (g.count > 0 ==> g.left >= 0.0)
    && available - g.total >= g.left - allowance
  }

  lemma TakeWithinAllowance(g: Greed, available: real, allowance: real, amount: real, slack: real)
    requires WithinAllowance(g, available, allowance) && amount >= 0.0 && slack >= 0.0
    ensures var h := Take(g, amount, slack);
            WithinAllowance(h, available, if h.count == g.count then allowance else allowance + slack)
  {
  }

  /** Each taken amount overshoots by at most the slack. */
  lemma {:induction false} GreedyBound(amounts: seq<real>, available: real, slack: real)
    requires slack >= 0.0 && forall k :: 0 <= k < |amounts| ==> amounts[k] >= 0.0
    ensures var g := Greedy(amounts, available, slack);
            g.count <= |amounts| && WithinAllowance(g, available, Allowance(g.count, slack))
  {
    if amounts != [] {
      var init, a := amounts[..|amounts| - 1], amounts[|amounts| - 1];
      GreedyBound(init, available, slack);
      var h := Greedy(init, available, slack);
      AllowanceNext(h.count, slack);
      TakeWithinAllowance(h, available, Allowance(h.count, slack), a, slack);
    }
  }

  /** When no amount fits into the slack alone, only the last one taken can overshoot. */
  lemma {:induction false} GreedyTight(amounts: seq<real>, available: real, slack: real)
    requires slack >= 0.0 && forall k :: 0 <= k < |amounts| ==> amounts[k] > slack
    ensures var g := Greedy(amounts, available, slack);
            && (g.total == 0.0 ==> g.left == available)
            && (g.total != 0.0 ==>
                  && g.total > 0.0 && available - g.total >= -slack
                  && g.left == Max(0.0, available - g.total))
  {
    if amounts != [] {
      GreedyTight(amounts[..|amounts| - 1], available, slack);
    }
  }

  /** When every amount fits into the slack alone, all of them are taken. */
  lemma {:induction false} GreedyTakesAll(n: nat, amount: real, available: real, slack: real)
    requires 0.0 <= amount <= slack && available >= 0.0
    ensures var g := Greedy(seq(n, _ => amount), available, slack); g.total == n as real * amount && g.left >= 0.0
    decreases n
  {
    if n > 0 {
      GreedyTakesAll(n - 1, amount, available, slack);
      assert seq(n, _ => amount)[..n - 1] == seq(n - 1, _ => amount);
    }
  }

  /** Reserving n equal amounts overshoots the balance by no more than the slack exactly when an amount does
      not fit into the slack alone, or all of them together still fit. */
  lemma OvershootIff(n: nat, amount: real, available: real, slack: real)
    requires amount >= 0.0 && available >= 0.0 && slack >= 0.0
    ensures Greedy(seq(n, _ => amount), available, slack).total <= available + slack
            <==> amount > slack || n as real * amount <= available + slack
  {
    if amount > slack {
      GreedyTight(seq(n, _ => amount), available, slack);
    } else {
      GreedyTakesAll(n, amount, available, slack);
    }
  }

  // ---------------------------------------------------------------------
  // A plan is a greedy reservation on each side
  // ---------------------------------------------------------------------

  /** What the caller provides: positive prices, balances and a fee rate that is a rate. */
  ghost predicate Sane(cfg: Config) {
    && cfg.candles != [] && cfg.quote >= 0.0 && cfg.base >= 0.0 && cfg.orderQuoteSize >= 0.0 && cfg.spacingPct >= 0.0
    && 0.0 <= cfg.feeRate <= 1.0
    && forall i :: 0 <= i < |cfg.candles| ==> PositivePrices(cfg.candles[i])
  }

  predicate PositivePrices(c: Candle) {
    c.open > 0.0 && c.high > 0.0 && c.low > 0.0 && c.close > 0.0
  }

  /** What every buy of a run costs, fee included. */
  function UnitCost(cfg: Config): real {
    cfg.orderQuoteSize + Fee(cfg, cfg.orderQuoteSize)
  }

  predicate SoundOrder(cfg: Config, o: Order) {
    && Value(o.price, o.quantity) == cfg.orderQuoteSize && (o.price > 0.0 ==> o.quantity >= 0.0)
    && (o.side == Sell ==> o.price > 0.0)
  }

  ghost predicate SoundOrders(cfg: Config, orders: seq<Order>) {
    forall k :: 0 <= k < |orders| ==> SoundOrder(cfg, orders[k])
  }

  lemma Divide(x: real, p: real)
    requires p != 0.0
    ensures p * (x / p) == x && (x >= 0.0 && p > 0.0 ==> x / p >= 0.0)
  {
  }

  lemma OrderIsSound(cfg: Config, l: Level)
    requires l.price != 0.0 && cfg.orderQuoteSize >= 0.0 && (l.side == Sell ==> l.price > 0.0)
    ensures SoundOrder(cfg, OrderAt(cfg, l)) && Cost(cfg, OrderAt(cfg, l)) == UnitCost(cfg)
  {
    Divide(cfg.orderQuoteSize, l.price);
  }

  function BuyCost(cfg: Config, orders: seq<Order>): real {
    if orders == [] then 0.0
    else
      var last := orders[|orders| - 1];
      BuyCost(cfg, orders[..|orders| - 1]) + if last.side == Buy then Cost(cfg, last) else 0.0
  }

  function SellQuantity(orders: seq<Order>): real {
    if orders == [] then 0.0
    else
      var last := orders[|orders| - 1];
      SellQuantity(orders[..|orders| - 1]) + if last.side == Sell then last.quantity else 0.0
  }

  lemma TotalsSnoc(cfg: Config, orders: seq<Order>, o: Order)
    ensures BuyCost(cfg, orders + [o]) == BuyCost(cfg, orders) + if o.side == Buy then Cost(cfg, o) else 0.0
    ensures SellQuantity(orders + [o]) == SellQuantity(orders) + if o.side == Sell then o.quantity else 0.0
  {
  }

  /** The costs the asking buy levels want reserved, in order. */
  function Costs(cfg: Config, band: Band, levels: seq<Level>): seq<real> {
    if levels == [] then []
    else
      var l := levels[|levels| - 1];
      Costs(cfg, band, levels[..|levels| - 1])
      + if l.side == Buy && Asks(band, l) then [Cost(cfg, OrderAt(cfg, l))] else []
  }

  /** The quantities the asking sell levels want reserved, in order. */
  function Quantities(cfg: Config, band: Band, levels: seq<Level>): seq<real> {
    if levels == [] then []
    else
      var l := levels[|levels| - 1];
      Quantities(cfg, band, levels[..|levels| - 1])
      + if l.side == Sell && Asks(band, l) then [OrderAt(cfg, l).quantity] else []
  }

  lemma GreedyNext(amounts: seq<real>, a: real, available: real, slack: real)
    ensures Greedy(amounts + [a], available, slack) == Take(Greedy(amounts, available, slack), a, slack)
    ensures Greedy(amounts + [], available, slack) == Greedy(amounts, available, slack)
  {
    assert (amounts + [a])[..|amounts|] == amounts && amounts + [] == amounts;
  }

  ghost predicate Matches(cfg: Config, p: Plan, quote: Greed, base: Greed) {
    && BuyCost(cfg, p.orders) == quote.total && p.quote == quote.left
    && SellQuantity(p.orders) == base.total && p.base == base.left
  }

  lemma ConsiderMatches(cfg: Config, band: Band, p: Plan, l: Level, quote: Greed, base: Greed)
    requires Matches(cfg, p, quote, base)
    ensures !Asks(band, l) ==> Matches(cfg, Consider(cfg, band, p, l), quote, base)
    ensures Asks(band, l) && l.side == Buy ==>
              Matches(cfg, Consider(cfg, band, p, l), Take(quote, Cost(cfg, OrderAt(cfg, l)), QUOTE_SLACK), base)
    ensures Asks(band, l) && l.side == Sell ==>
              Matches(cfg, Consider(cfg, band, p, l), quote, Take(base, OrderAt(cfg, l).quantity, BASE_SLACK))
  {
  }

  /** The allocator commits the quote balance and the base balance by two independent greedy passes. */
  lemma {:induction false} ReserveIsGreedy(cfg: Config, band: Band, levels: seq<Level>, quote: real, base: real)
    ensures Matches(cfg, Reserve(cfg, band, levels, quote, base),
                    Greedy(Costs(cfg, band, levels), quote, QUOTE_SLACK),
                    Greedy(Quantities(cfg, band, levels), base, BASE_SLACK))
  {
    if levels != [] {
      var init, l := levels[..|levels| - 1], levels[|levels| - 1];
      ReserveIsGreedy(cfg, band, init, quote, base);
      var costs, quantities := Costs(cfg, band, init), Quantities(cfg, band, init);
      ConsiderMatches(cfg, band, Reserve(cfg, band, init, quote, base), l,
                      Greedy(costs, quote, QUOTE_SLACK), Greedy(quantities, base, BASE_SLACK));
      var a := if l.price != 0.0 then OrderAt(cfg, l) else Order(l.side, 0, 0.0, 0.0);
      GreedyNext(costs, Cost(cfg, a), quote, QUOTE_SLACK);
      GreedyNext(quantities, a.quantity, base, BASE_SLACK);
    }
  }

  ghost predicate SoundLevels(levels: seq<Level>) {
    forall k :: 0 <= k < |levels| && levels[k].side == Sell ==> levels[k].price > 0.0
  }

  lemma {:induction false} ReservedOrdersAreSound(cfg: Config, band: Band, levels: seq<Level>, quote: real, base: real)
    requires cfg.orderQuoteSize >= 0.0 && SoundLevels(levels)
    ensures SoundOrders(cfg, Reserve(cfg, band, levels, quote, base).orders)
  {
    if levels != [] {
      var l := levels[|levels| - 1];
      ReservedOrdersAreSound(cfg, band, levels[..|levels| - 1], quote, base);
      if l.price != 0.0 {
        OrderIsSound(cfg, l);
      }
    }
  }

  function CountSide(levels: seq<Level>, side: Side): nat {
    if levels == [] then 0
    else CountSide(levels[..|levels| - 1], side) + Count(levels[|levels| - 1].side == side)
  }

  lemma {:induction false} CostsAreUniform(cfg: Config, band: Band, levels: seq<Level>)
    requires cfg.orderQuoteSize >= 0.0 && SoundLevels(levels)
    ensures |Costs(cfg, band, levels)| <= CountSide(levels, Buy)
    ensures forall k :: 0 <= k < |Costs(cfg, band, levels)| ==> Costs(cfg, band, levels)[k] == UnitCost(cfg)
  {
    if levels != [] {
      var l := levels[|levels| - 1];
      CostsAreUniform(cfg, band, levels[..|levels| - 1]);
      if l.price != 0.0 {
        OrderIsSound(cfg, l);
      }
    }
  }

  /** Every sell level asks for more than the floor. */
  ghost predicate SellsAbove(cfg: Config, levels: seq<Level>, floor: real) {
    forall k :: 0 <= k < |levels| && levels[k].side == Sell && levels[k].price != 0.0
      ==> Quantity(cfg, levels[k]) > floor
  }

  lemma {:induction false} QuantitiesBound(cfg: Config, band: Band, levels: seq<Level>)
    requires cfg.orderQuoteSize >= 0.0 && SoundLevels(levels)
    ensures |Quantities(cfg, band, levels)| <= CountSide(levels, Sell)
    ensures forall k :: 0 <= k < |Quantities(cfg, band, levels)| ==> Quantities(cfg, band, levels)[k] >= 0.0
    ensures SellsAbove(cfg, levels, BASE_SLACK) ==>
              forall k :: 0 <= k < |Quantities(cfg, band, levels)| ==> Quantities(cfg, band, levels)[k] > BASE_SLACK
  {
    if levels != [] {
      var init, l := levels[..|levels| - 1], levels[|levels| - 1];
      QuantitiesBound(cfg, band, init);
      if l.price != 0.0 {
        OrderIsSound(cfg, l);
      }
      if SellsAbove(cfg, levels, BASE_SLACK) {
        forall k | 0 <= k < |init| && init[k].side == Sell && init[k].price != 0.0
          ensures Quantity(cfg, init[k]) > BASE_SLACK
        {
          assert levels[k] == init[k];
        }
        assert SellsAbove(cfg, init, BASE_SLACK);
      }
    }
  }

  // ---------------------------------------------------------------------
  // A plan never commits more than the balances and their margin
  // ---------------------------------------------------------------------

  /** How far a balance may be overdrawn: once by the slack when no amount fits into the slack alone,
      otherwise once per level. */
  ghost predicate IsMargin(margin: real, n: nat, slack: real, ample: bool) {
    margin == Allowance(n, slack) || (ample && margin == slack)
  }

  ghost predicate AllAbove(amounts: seq<real>, floor: real) {
    forall k :: 0 <= k < |amounts| ==> amounts[k] > floor
  }

  lemma AllowanceGrows(m: nat, n: nat, slack: real)
    requires m <= n && slack >= 0.0
    ensures 0.0 <= Allowance(m, slack) <= Allowance(n, slack)
  {
    assert 0.0 <= m as real <= n as real;
  }

  lemma GreedyStaysWithin(amounts: seq<real>, available: real, slack: real, n: nat, margin: real)
    requires slack >= 0.0 && |amounts| <= n && forall k :: 0 <= k < |amounts| ==> amounts[k] >= 0.0
    requires IsMargin(margin, n, slack, AllAbove(amounts, slack)) && available >= -margin
    ensures available - Greedy(amounts, available, slack).total >= -margin
  {
    var g := Greedy(amounts, available, slack);
    if margin == Allowance(n, slack) {
      GreedyBound(amounts, available, slack);
      AllowanceGrows(g.count, n, slack);
    } else {
      GreedyTight(amounts, available, slack);
    }
  }

  ghost predicate Covered(cfg: Config, orders: seq<Order>, quote: real, base: real, quoteMargin: real,
                          baseMargin: real) {
    && SoundOrders(cfg, orders)
    && quote - BuyCost(cfg, orders) >= -quoteMargin && base - SellQuantity(orders) >= -baseMargin
  }

  lemma CountSideSnoc(levels: seq<Level>, l: Level, side: Side)
    ensures CountSide(levels + [l], side) == CountSide(levels, side) + Count(l.side == side)
  {
  }

  lemma {:induction false} CountSideAppend(a: seq<Level>, b: seq<Level>, side: Side)
    ensures CountSide(a + b, side) == CountSide(a, side) + CountSide(b, side)
  {
    if b == [] {
      assert a + b == a;
    } else {
      CountSideAppend(a, b[..|b| - 1], side);
      assert a + b == a + b[..|b| - 1] + [b[|b| - 1]];
      CountSideSnoc(a + b[..|b| - 1], b[|b| - 1], side);
    }
  }

  lemma {:induction false} CountSideOfBlock(levels: seq<Level>, block: Side, side: Side)
    requires forall k :: 0 <= k < |levels| ==> levels[k].side == block
    ensures CountSide(levels, side) == if side == block then |levels| else 0
  {
    if levels != [] {
      CountSideOfBlock(levels[..|levels| - 1], block, side);
    }
  }

  lemma SellPriceIsPositive(cfg: Config, mark: real, k: nat)
    requires mark > 0.0 && cfg.spacingPct >= 0.0
    ensures SellPrice(cfg, mark, k) > 0.0
  {
    var x := cfg.spacingPct * k as real;
    assert x >= 0.0;
    assert mark * (1.0 + x) == mark + mark * x;
    assert mark * x >= 0.0;
  }

  lemma LadderShape(cfg: Config, mark: real)
    requires mark > 0.0 && cfg.spacingPct >= 0.0
    ensures SoundLevels(Levels(cfg, mark))
    ensures CountSide(Levels(cfg, mark), Buy) == CountSide(Levels(cfg, mark), Sell) == cfg.levelsEachSide
  {
    forall k: nat ensures SellPrice(cfg, mark, k) > 0.0 {
      SellPriceIsPositive(cfg, mark, k);
    }
    var buys, sells := BuyLevels(cfg, mark), SellLevels(cfg, mark);
    CountSideAppend(buys, sells, Buy);
    CountSideAppend(buys, sells, Sell);
    CountSideOfBlock(buys, Buy, Buy);
    CountSideOfBlock(buys, Buy, Sell);
    CountSideOfBlock(sells, Sell, Buy);
    CountSideOfBlock(sells, Sell, Sell);
  }

  /** Whatever the band and the ladder, the planned orders are covered by the balances they are planned
      against, up to the margins. */
  lemma PlanIsCovered(cfg: Config, quote: real, base: real, mark: real, quoteMargin: real, baseMargin: real)
    requires mark > 0.0 && cfg.spacingPct >= 0.0 && cfg.orderQuoteSize >= 0.0 && cfg.feeRate >= 0.0
    requires IsMargin(quoteMargin, cfg.levelsEachSide, QUOTE_SLACK, UnitCost(cfg) > QUOTE_SLACK)
    requires quote >= -quoteMargin
    requires IsMargin(baseMargin, cfg.levelsEachSide, BASE_SLACK, SellsAbove(cfg, Levels(cfg, mark), BASE_SLACK))
    requires base >= -baseMargin
    ensures Covered(cfg, Reserve(cfg, BandAt(cfg, quote, base, mark), Levels(cfg, mark), quote, base).orders,
                    quote, base, quoteMargin, baseMargin)
  {
    var band, levels := BandAt(cfg, quote, base, mark), Levels(cfg, mark);
    LadderShape(cfg, mark);
    ReservedOrdersAreSound(cfg, band, levels, quote, base);
    ReserveIsGreedy(cfg, band, levels, quote, base);
    CostsAreUniform(cfg, band, levels);
    QuantitiesBound(cfg, band, levels);
    UnitCostIsPositive(cfg);
    GreedyStaysWithin(Costs(cfg, band, levels), quote, QUOTE_SLACK, cfg.levelsEachSide, quoteMargin);
    GreedyStaysWithin(Quantities(cfg, band, levels), base, BASE_SLACK, cfg.levelsEachSide, baseMargin);
  }

  lemma UnitCostIsPositive(cfg: Config)
    requires cfg.orderQuoteSize >= 0.0 && cfg.feeRate >= 0.0
    ensures UnitCost(cfg) >= 0.0
  {
    assert Fee(cfg, cfg.orderQuoteSize) >= 0.0;
  }

  // ---------------------------------------------------------------------
  // The ladder, the inventory band and the candle
  // ---------------------------------------------------------------------

  lemma PriceSteps(cfg: Config, mark: real, i: nat, j: nat)
    requires mark > 0.0 && cfg.spacingPct > 0.0 && i < j
    ensures SellPrice(cfg, mark, i) < SellPrice(cfg, mark, j) && BuyPrice(cfg, mark, j) < BuyPrice(cfg, mark, i)
    ensures BuyPrice(cfg, mark, j) < mark < SellPrice(cfg, mark, j)
    ensures BuyPrice(cfg, mark, j) + SellPrice(cfg, mark, j) == 2.0 * mark
  {
    var a, b := cfg.spacingPct * i as real, cfg.spacingPct * j as real;
    Rises(cfg.spacingPct, i as real, j as real);
    Rises(mark, 1.0 + a, 1.0 + b);
    Rises(mark, 1.0 - b, 1.0 - a);
    Rises(mark, 1.0, 1.0 + b);
    Rises(mark, 1.0 - b, 1.0);
    assert mark * (1.0 - b) + mark * (1.0 + b) == 2.0 * mark;
  }

  lemma Rises(x: real, a: real, b: real)
    requires x > 0.0 && a < b
    ensures x * a < x * b
    ensures a >= 0.0 ==> x * a >= 0.0
  {
  }

  /** The ladder ascends strictly, its lower half below the mark and its upper half above, mirrored about it. */
  lemma LadderAscends(cfg: Config, mark: real, i: nat, j: nat)
    requires mark > 0.0 && cfg.spacingPct > 0.0 && i < j < 2 * cfg.levelsEachSide
    ensures var levels := Levels(cfg, mark);
            && levels[i].price < levels[j].price
            && (j < cfg.levelsEachSide ==> levels[j].side == Buy && levels[j].price < mark)
            && (i >= cfg.levelsEachSide ==> levels[i].side == Sell && levels[i].price > mark)
            && levels[i].price + levels[2 * cfg.levelsEachSide - 1 - i].price == 2.0 * mark
  {
    var n := cfg.levelsEachSide;
    if j < n {
      PriceSteps(cfg, mark, n - j, n - i);
      PriceSteps(cfg, mark, 0, n - j);
    } else if i >= n {
      PriceSteps(cfg, mark, i - n + 1, j - n + 1);
    }
    PriceSteps(cfg, mark, 0, if i < n then n - i else i - n + 1);
    PriceSteps(cfg, mark, 0, if j < n then n - j else j - n + 1);
  }

  /** The rungs are numbered away from the mark, each one spacing of it further out. */
  lemma LadderRungs(cfg: Config, mark: real, k: nat)
    requires 1 <= k <= cfg.levelsEachSide
    ensures var levels, n, rung := Levels(cfg, mark), cfg.levelsEachSide, k as real * (mark * cfg.spacingPct);
            && |levels| == 2 * n
            && levels[n - k] == Level(Buy, k, mark - rung) && levels[n + k - 1] == Level(Sell, k, mark + rung)
  {
    Rung(mark, cfg.spacingPct, k as real);
    var levels, n := Levels(cfg, mark), cfg.levelsEachSide;
    assert levels[n - k] == Level(Buy, k, BuyPrice(cfg, mark, k));
    assert levels[n + k - 1] == Level(Sell, k, SellPrice(cfg, mark, k));
  }

  lemma Rung(mark: real, spacing: real, k: real)
    ensures mark * (1.0 - spacing * k) == mark - k * (mark * spacing)
    ensures mark * (1.0 + spacing * k) == mark + k * (mark * spacing)
  {
    var step := spacing * k;
    assert mark * (1.0 - step) == mark - mark * step && mark * (1.0 + step) == mark + mark * step;
    assert mark * (spacing * k) == k * (mark * spacing);
  }

  /** Without a positive equity the ratio is zero. */
  lemma NoEquityNoRatio(quote: real, base: real, mark: real)
    requires quote + base * mark <= 0.0
    ensures InventoryRatio(quote, base, mark) == 0.0
  {
  }

  /** The inventory ratio is the base's share of the equity, and a proper share of nonnegative balances. */
  lemma RatioIsShare(quote: real, base: real, mark: real)
    requires quote + base * mark > 0.0
    ensures InventoryRatio(quote, base, mark) * (quote + base * mark) == base * mark
    ensures quote >= 0.0 && base * mark >= 0.0 ==> 0.0 <= InventoryRatio(quote, base, mark) <= 1.0
  {
    var part, total := base * mark, Equity(quote, base, mark);
    var ratio := part / total;
    assert ratio * total == part;
    if quote >= 0.0 && part >= 0.0 {
      if ratio < 0.0 {
        Rises(total, ratio, 0.0);
      } else if ratio > 1.0 {
        Rises(total, 1.0, ratio);
      }
    }
  }

  /** Sides that the band forbids get no order. */
  lemma {:induction false} PlanRespectsBand(cfg: Config, quote: real, base: real, mark: real, levels: seq<Level>)
    ensures var ratio := InventoryRatio(quote, base, mark);
            var orders := Reserve(cfg, BandAt(cfg, quote, base, mark), levels, quote, base).orders;
            && (ratio > cfg.targetInventoryRatio + cfg.maxInventorySkew ==> forall o :: o in orders ==> o.side == Sell)
            && (ratio < cfg.targetInventoryRatio - cfg.maxInventorySkew ==> forall o :: o in orders ==> o.side == Buy)
  {
    if levels != [] {
      PlanRespectsBand(cfg, quote, base, mark, levels[..|levels| - 1]);
    }
  }

  /** What is left of a balance after reserving amounts one by one; a last one may overshoot it, by the slack. */
  function LeftOf(balance: real, amounts: seq<real>): real {
    if amounts == [] then balance
    else Max(0.0, LeftOf(balance, amounts[..|amounts| - 1]) - amounts[|amounts| - 1])
  }

  /** Price times quantity and the fee on it. */
  function Gross(feeRate: real, price: real, quantity: real): real {
    price * quantity + price * quantity * feeRate
  }

  lemma CostIsGross(cfg: Config, o: Order)
    ensures Cost(cfg, o) == Gross(cfg.feeRate, o.price, o.quantity)
  {
  }

  /** What the buy orders of a list reserve. */
  function BuysOf(feeRate: real, orders: seq<Order>): seq<real> {
    if orders == [] then []
    else
      var o := orders[|orders| - 1];
      BuysOf(feeRate, orders[..|orders| - 1])
      + if o.side == Buy then [Gross(feeRate, o.price, o.quantity)] else []
  }

  function SellsOf(orders: seq<Order>): seq<real> {
    if orders == [] then []
    else
      var o := orders[|orders| - 1];
      SellsOf(orders[..|orders| - 1]) + if o.side == Sell then [o.quantity] else []
  }

  lemma ReservesSnoc(feeRate: real, orders: seq<Order>, o: Order)
    ensures BuysOf(feeRate, orders + [o])
            == BuysOf(feeRate, orders) + if o.side == Buy then [Gross(feeRate, o.price, o.quantity)] else []
    ensures SellsOf(orders + [o]) == SellsOf(orders) + if o.side == Sell then [o.quantity] else []
  {
  }

  lemma LeftSnoc(balance: real, amounts: seq<real>, a: real)
    ensures LeftOf(balance, amounts + [a]) == Max(0.0, LeftOf(balance, amounts) - a)
    ensures LeftOf(balance, amounts + []) == LeftOf(balance, amounts)
  {
    assert amounts + [] == amounts;
  }

  /** The balances a plan still has are those its orders leave. */
  ghost predicate LeavesRest(cfg: Config, p: Plan, quote: real, base: real) {
    p.quote == LeftOf(quote, BuysOf(cfg.feeRate, p.orders)) && p.base == LeftOf(base, SellsOf(p.orders))
  }

  lemma TakenLeavesRest(feeRate: real, orders: seq<Order>, o: Order, quote: real, base: real)
    ensures LeftOf(quote, BuysOf(feeRate, orders + [o]))
            == if o.side == Buy
               then Max(0.0, LeftOf(quote, BuysOf(feeRate, orders)) - Gross(feeRate, o.price, o.quantity))
               else LeftOf(quote, BuysOf(feeRate, orders))
    ensures LeftOf(base, SellsOf(orders + [o]))
            == if o.side == Sell then Max(0.0, LeftOf(base, SellsOf(orders)) - o.quantity)
               else LeftOf(base, SellsOf(orders))
  {
    ReservesSnoc(feeRate, orders, o);
    LeftSnoc(quote, BuysOf(feeRate, orders), Gross(feeRate, o.price, o.quantity));
    LeftSnoc(base, SellsOf(orders), o.quantity);
  }

  lemma ConsiderLeavesRest(cfg: Config, band: Band, p: Plan, l: Level, quote: real, base: real)
    requires LeavesRest(cfg, p, quote, base)
    ensures LeavesRest(cfg, Consider(cfg, band, p, l), quote, base)
  {
    if l.price != 0.0 {
      var o := OrderAt(cfg, l);
      CostIsGross(cfg, o);
      TakenLeavesRest(cfg.feeRate, p.orders, o, quote, base);
    }
  }

  lemma {:induction false} ReserveLeavesRest(cfg: Config, band: Band, levels: seq<Level>, quote: real, base: real)
    ensures LeavesRest(cfg, Reserve(cfg, band, levels, quote, base), quote, base)
  {
    if levels != [] {
      var init := levels[..|levels| - 1];
      ReserveLeavesRest(cfg, band, init, quote, base);
      ConsiderLeavesRest(cfg, band, Reserve(cfg, band, init, quote, base), levels[|levels| - 1], quote, base);
    }
  }

  /** Whether a level gets an order: its price is not zero, the base's share of the equity lets its side trade, and
      what it needs fits what the orders before it leave, or exceeds that by no more than the slack. */
  predicate GetsOrder(cfg: Config, quote: real, base: real, mark: real, before: seq<Order>, l: Level) {
    && l.price != 0.0
    && var total, quantity := quote + base * mark, cfg.orderQuoteSize / l.price;
       var share := if total <= 0.0 then 0.0 else base * mark / total;
       if l.side == Buy then
         && share <= cfg.targetInventoryRatio + cfg.maxInventorySkew
         && Gross(cfg.feeRate, l.price, quantity) <= LeftOf(quote, BuysOf(cfg.feeRate, before)) + 0.00000001
       else
         && share >= cfg.targetInventoryRatio - cfg.maxInventorySkew
         && quantity <= LeftOf(base, SellsOf(before)) + 0.0000000001
  }

  /** A plan goes through the ladder and adds an order for every level that gets one, for the order size at its
      price. */
  lemma PlanNext(cfg: Config, quote: real, base: real, mark: real, levels: seq<Level>, l: Level, band: Band,
                 before: seq<Order>)
    requires band == BandAt(cfg, quote, base, mark) && before == Reserve(cfg, band, levels, quote, base).orders
    ensures Reserve(cfg, band, levels + [l], quote, base).orders
            == before + if GetsOrder(cfg, quote, base, mark, before, l)
                        then [Order(l.side, l.index, l.price, cfg.orderQuoteSize / l.price)] else []
  {
    assert (levels + [l])[..|levels|] == levels;
    ReserveLeavesRest(cfg, band, levels, quote, base);
    if l.price != 0.0 {
      CostIsGross(cfg, OrderAt(cfg, l));
    }
  }

  /** The orders planned for the first k levels of the ladder. */
  function Ladder(cfg: Config, quote: real, base: real, mark: real, k: nat): seq<Order>
    requires k <= 2 * cfg.levelsEachSide
    decreases k
  {
    if k == 0 then []
    else
      var before, l := Ladder(cfg, quote, base, mark, k - 1), Levels(cfg, mark)[k - 1];
      before + if GetsOrder(cfg, quote, base, mark, before, l)
               then [Order(l.side, l.index, l.price, cfg.orderQuoteSize / l.price)] else []
  }

  lemma {:induction false} ReserveIsLadder(cfg: Config, quote: real, base: real, mark: real, k: nat, band: Band)
    requires k <= 2 * cfg.levelsEachSide && band == BandAt(cfg, quote, base, mark)
    ensures Reserve(cfg, band, Levels(cfg, mark)[..k], quote, base).orders == Ladder(cfg, quote, base, mark, k)
    decreases k
  {
    if k > 0 {
      var levels := Levels(cfg, mark);
      ReserveIsLadder(cfg, quote, base, mark, k - 1, band);
      assert levels[..k] == levels[..k - 1] + [levels[k - 1]];
      PlanNext(cfg, quote, base, mark, levels[..k - 1], levels[k - 1], band, Ladder(cfg, quote, base, mark, k - 1));
    }
  }

  /** The open orders of a plan are exactly those of the ladder, level by level; nothing else changes. */
  lemma PlanIsLadder(cfg: Config, s: State, mark: real)
    ensures Planned(cfg, s, mark)
            == s.(openOrders := Ladder(cfg, s.quote, s.base, mark, 2 * cfg.levelsEachSide))
  {
    var levels := Levels(cfg, mark);
    assert levels[..2 * cfg.levelsEachSide] == levels;
    ReserveIsLadder(cfg, s.quote, s.base, mark, 2 * cfg.levelsEachSide, BandAt(cfg, s.quote, s.base, mark));
  }

  predicate Hit(o: Order, c: Candle) {
    if o.side == Buy then c.low <= o.price else o.price <= c.high
  }

  /** The orders whose price the candle reaches, in order; or, in the same way, those it does not reach. */
  function Reached(orders: seq<Order>, c: Candle, reached: bool): seq<Order> {
    if orders == [] then []
    else
      (if Hit(orders[0], c) == reached then [orders[0]] else []) + Reached(orders[1..], c, reached)
  }

  lemma {:induction false} ReachedAppend(a: seq<Order>, o: Order, c: Candle, reached: bool)
    ensures Reached(a + [o], c, reached) == Reached(a, c, reached) + if Hit(o, c) == reached then [o] else []
  {
    if a == [] {
      assert a + [o] == [o] && [o][1..] == [];
    } else {
      ReachedAppend(a[1..], o, c, reached);
      assert (a + [o])[1..] == a[1..] + [o] && (a + [o])[0] == a[0];
    }
  }

  lemma {:induction false} SelectIsReached(orders: seq<Order>, c: Candle, reached: bool)
    ensures Select(orders, c, reached) == Reached(orders, c, reached)
  {
    if orders != [] {
      var init, o := orders[..|orders| - 1], orders[|orders| - 1];
      SelectIsReached(init, c, reached);
      assert orders == init + [o];
      ReachedAppend(init, o, c, reached);
    }
  }

  /** The fee on a value. */
  function Charge(feeRate: real, price: real, quantity: real): real {
    price * quantity * feeRate
  }

  /** One fill per order, at its level, price and quantity, with the fee on its value. */
  function FillsOf(feeRate: real, orders: seq<Order>): seq<Fill> {
    if orders == [] then []
    else
      var o := orders[|orders| - 1];
      FillsOf(feeRate, orders[..|orders| - 1])
      + [Fill(o.side, o.index, o.price, o.quantity, Charge(feeRate, o.price, o.quantity))]
  }

  lemma FillIsCharged(cfg: Config, o: Order)
    ensures FillOf(cfg, o) == Fill(o.side, o.index, o.price, o.quantity, Charge(cfg.feeRate, o.price, o.quantity))
  {
  }

  lemma FilledAppends(cfg: Config, s: State, o: Order)
    ensures Filled(cfg, s, o).fills == s.fills + [FillOf(cfg, o)] && Filled(cfg, s, o).openOrders == s.openOrders
  {
  }

  lemma {:induction false} FilledAllFills(cfg: Config, s: State, orders: seq<Order>)
    ensures var t := FilledAll(cfg, s, orders);
            t.fills == s.fills + FillsOf(cfg.feeRate, orders) && t.openOrders == s.openOrders
  {
    if orders == [] {
      assert s.fills + [] == s.fills;
    } else {
      var init, o := orders[..|orders| - 1], orders[|orders| - 1];
      FilledAllFills(cfg, s, init);
      FilledAppends(cfg, FilledAll(cfg, s, init), o);
      FillIsCharged(cfg, o);
      assert s.fills + FillsOf(cfg.feeRate, init) + [FillOf(cfg, o)]
             == s.fills + (FillsOf(cfg.feeRate, init) + [FillOf(cfg, o)]);
    }
  }

  /** The orders a candle meets: the open ones, or, when there are none, a plan at its open. */
  function Standing(cfg: Config, s: State, c: Candle): seq<Order> {
    if s.openOrders == [] then Ladder(cfg, s.quote, s.base, c.open, 2 * cfg.levelsEachSide) else s.openOrders
  }

  /** A candle adds one fill for each standing order whose price it reaches, in ladder order, and leaves open exactly
      the orders it does not reach. */
  lemma CandleFills(cfg: Config, s: State, c: Candle)
    ensures var t := Traded(cfg, s, c);
            && t.fills == s.fills + FillsOf(cfg.feeRate, Reached(Standing(cfg, s, c), c, true))
            && t.openOrders == Reached(Standing(cfg, s, c), c, false)
  {
    PlanIsLadder(cfg, s, c.open);
    var s1 := if s.openOrders == [] then Planned(cfg, s, c.open) else s;
    SelectIsReached(s1.openOrders, c, true);
    SelectIsReached(s1.openOrders, c, false);
    FilledAllFills(cfg, s1.(openOrders := Select(s1.openOrders, c, false)), Select(s1.openOrders, c, true));
  }

  /** What the balances are worth at a price. */
  function Worth(quote: real, base: real, price: real): real {
    quote + base * price
  }

  lemma EquityIsWorth(quote: real, base: real, price: real)
    ensures Equity(quote, base, price) == Worth(quote, base, price)
  {
  }

  /** A step fills what its candle reaches, records the equity at the close, and plans anew at the close. */
  lemma StepMeans(cfg: Config, s: State)
    requires s.activeIndex < |cfg.candles|
    ensures var t, c := Stepped(cfg, s), cfg.candles[s.activeIndex];
            && t.fills == s.fills + FillsOf(cfg.feeRate, Reached(Standing(cfg, s, c), c, true))
            && t.openOrders == Ladder(cfg, t.quote, t.base, c.close, 2 * cfg.levelsEachSide)
            && t.equityCurve == s.equityCurve + [Point(c.timestamp, Worth(t.quote, t.base, c.close))]
            && t.activeIndex == s.activeIndex + 1
  {
    var c := cfg.candles[s.activeIndex];
    var t := Traded(cfg, s, c);
    CandleFills(cfg, s, c);
    SteppedShape(cfg, s);
    EquityIsWorth(Stepped(cfg, s).quote, Stepped(cfg, s).base, c.close);
    var p := Point(c.timestamp, Equity(t.quote, t.base, c.close));
    PlanIsLadder(cfg, t.(equityCurve := t.equityCurve + [p]), c.close);
  }

  /** A candle fills exactly the orders whose price it reaches and leaves exactly the others, none lost or doubled. */
  lemma {:induction false} CandleDecides(orders: seq<Order>, c: Candle)
    ensures multiset(Select(orders, c, true)) + multiset(Select(orders, c, false)) == multiset(orders)
    ensures forall o :: o in Select(orders, c, true) ==> if o.side == Buy then c.low <= o.price else o.price <= c.high
    ensures forall o :: o in Select(orders, c, false) ==> if o.side == Buy then o.price < c.low else c.high < o.price
  {
    if orders != [] {
      CandleDecides(orders[..|orders| - 1], c);
      assert orders == orders[..|orders| - 1] + [orders[|orders| - 1]];
    }
  }

  // ---------------------------------------------------------------------
  // The ledger of fills
  // ---------------------------------------------------------------------

  function Turnover(fills: seq<Fill>, side: Side): real {
    if fills == [] then 0.0
    else
      var f := fills[|fills| - 1];
      Turnover(fills[..|fills| - 1], side) + if f.side == side then Value(f.price, f.quantity) else 0.0
  }

  /** The notional value of all fills. */
  function Traffic(fills: seq<Fill>): real {
    Turnover(fills, Buy) + Turnover(fills, Sell)
  }

  function Amount(fills: seq<Fill>, side: Side): real {
    if fills == [] then 0.0
    else
      var f := fills[|fills| - 1];
      Amount(fills[..|fills| - 1], side) + if f.side == side then f.quantity else 0.0
  }

  function Fees(fills: seq<Fill>): real {
    if fills == [] then 0.0 else Fees(fills[..|fills| - 1]) + fills[|fills| - 1].fee
  }

  /** The balances after the given fills. */
  function QuoteAfter(cfg: Config, fills: seq<Fill>): real {
    cfg.quote - Turnover(fills, Buy) + Turnover(fills, Sell) - Fees(fills)
  }

  function BaseAfter(cfg: Config, fills: seq<Fill>): real {
    cfg.base + Amount(fills, Buy) - Amount(fills, Sell)
  }

  ghost predicate Ledger(cfg: Config, s: State) {
    && s.quote == QuoteAfter(cfg, s.fills) && s.base == BaseAfter(cfg, s.fills) && s.feePaid == Fees(s.fills)
    && FeesAtRate(cfg, s.fills)
  }

  ghost predicate FeesAtRate(cfg: Config, fills: seq<Fill>) {
    Fees(fills) == cfg.feeRate * Traffic(fills)
  }

  lemma FillsSnoc(fills: seq<Fill>, f: Fill, side: Side)
    ensures Turnover(fills + [f], side)
            == Turnover(fills, side) + if f.side == side then Value(f.price, f.quantity) else 0.0
    ensures Amount(fills + [f], side) == Amount(fills, side) + if f.side == side then f.quantity else 0.0
    ensures Fees(fills + [f]) == Fees(fills) + f.fee
  {
  }

  lemma BalancesSnoc(cfg: Config, fills: seq<Fill>, f: Fill)
    ensures var v := Value(f.price, f.quantity);
            && QuoteAfter(cfg, fills + [f]) == QuoteAfter(cfg, fills) + (if f.side == Buy then -v else v) - f.fee
            && BaseAfter(cfg, fills + [f])
              == BaseAfter(cfg, fills) + (if f.side == Buy then f.quantity else -f.quantity)
            && Fees(fills + [f]) == Fees(fills) + f.fee && Traffic(fills + [f]) == Traffic(fills) + v
  {
    FillsSnoc(fills, f, Buy);
    FillsSnoc(fills, f, Sell);
  }

  lemma Distribute(r: real, x: real, v: real)
    ensures r * (x + v) == r * x + v * r
  {
  }

  lemma FeesStayAtRate(cfg: Config, fills: seq<Fill>, o: Order)
    requires FeesAtRate(cfg, fills)
    ensures FeesAtRate(cfg, fills + [FillOf(cfg, o)])
  {
    BalancesSnoc(cfg, fills, FillOf(cfg, o));
    Distribute(cfg.feeRate, Traffic(fills), Value(o.price, o.quantity));
  }

  lemma FilledBalances(cfg: Config, s: State, o: Order)
    ensures var t, v, f := Filled(cfg, s, o), Value(o.price, o.quantity), FillOf(cfg, o);
            && t.quote == s.quote + (if o.side == Buy then -v else v) - f.fee
            && t.base == s.base + (if o.side == Buy then o.quantity else -o.quantity)
            && t.feePaid == s.feePaid + f.fee && t.fills == s.fills + [f]
  {
    hide Value, Gain, FillOf;
  }

  lemma FilledKeepsLedger(cfg: Config, s: State, o: Order)
    requires Ledger(cfg, s)
    ensures Ledger(cfg, Filled(cfg, s, o))
  {
    hide FeesAtRate, Value, Filled, QuoteAfter, BaseAfter, Fees;
    FilledBalances(cfg, s, o);
    BalancesSnoc(cfg, s.fills, FillOf(cfg, o));
    FeesStayAtRate(cfg, s.fills, o);
  }

  // ---------------------------------------------------------------------
  // Solvency
  // ---------------------------------------------------------------------

  /** No prefix of the fills overdraws a balance beyond its margin. */
  ghost predicate Solvent(cfg: Config, fills: seq<Fill>, quoteMargin: real, baseMargin: real) {
    forall k :: 0 <= k <= |fills| ==>
      QuoteAfter(cfg, fills[..k]) >= -quoteMargin && BaseAfter(cfg, fills[..k]) >= -baseMargin
  }

  lemma SolventSnoc(cfg: Config, fills: seq<Fill>, f: Fill, quoteMargin: real, baseMargin: real)
    requires Solvent(cfg, fills, quoteMargin, baseMargin)
    requires QuoteAfter(cfg, fills + [f]) >= -quoteMargin && BaseAfter(cfg, fills + [f]) >= -baseMargin
    ensures Solvent(cfg, fills + [f], quoteMargin, baseMargin)
  {
    forall k | 0 <= k <= |fills| + 1
      ensures QuoteAfter(cfg, (fills + [f])[..k]) >= -quoteMargin && BaseAfter(cfg, (fills + [f])[..k]) >= -baseMargin
    {
      assert (fills + [f])[..k] == if k <= |fills| then fills[..k] else fills + [f];
    }
  }

  /** The orders a candle can fill: sound and with a positive price. */
  ghost predicate Fillable(cfg: Config, orders: seq<Order>) {
    forall k :: 0 <= k < |orders| ==> SoundOrder(cfg, orders[k]) && orders[k].price > 0.0
  }

  /** One fill moves the quote balance by at most the cost of a buy and the base balance by at most the
      quantity of a sell. */
  lemma FilledMoves(cfg: Config, s: State, o: Order, fee: real)
    requires SoundOrder(cfg, o) && o.price > 0.0 && fee == FillOf(cfg, o).fee
    requires 0.0 <= fee <= cfg.orderQuoteSize
    ensures var t := Filled(cfg, s, o);
            && t.quote >= s.quote - (if o.side == Buy then cfg.orderQuoteSize + fee else 0.0)
            && t.base >= s.base - (if o.side == Sell then o.quantity else 0.0)
  {
  }

  lemma FeeOfOrder(cfg: Config, o: Order)
    requires SoundOrder(cfg, o) && cfg.orderQuoteSize >= 0.0 && 0.0 <= cfg.feeRate <= 1.0
    ensures var fee := FillOf(cfg, o).fee; 0.0 <= fee <= cfg.orderQuoteSize && Cost(cfg, o) == cfg.orderQuoteSize + fee
  {
    FeeIsAShare(cfg, Value(o.price, o.quantity));
  }

  lemma FeeIsAShare(cfg: Config, v: real)
    requires v >= 0.0 && 0.0 <= cfg.feeRate <= 1.0
    ensures 0.0 <= Fee(cfg, v) <= v
  {
  }

  lemma CommitmentsGrow(cfg: Config, orders: seq<Order>)
    requires orders != [] && SoundOrders(cfg, orders) && orders[|orders| - 1].price > 0.0
    requires cfg.orderQuoteSize >= 0.0 && 0.0 <= cfg.feeRate <= 1.0
    ensures BuyCost(cfg, orders[..|orders| - 1]) <= BuyCost(cfg, orders)
    ensures SellQuantity(orders[..|orders| - 1]) <= SellQuantity(orders)
  {
    var o := orders[|orders| - 1];
    FeeIsAShare(cfg, Value(o.price, o.quantity));
  }

  /** Filling covered orders one after the other keeps every intermediate balance within its margin. */
  lemma {:induction false} FillingStaysSolvent(cfg: Config, s: State, orders: seq<Order>, quoteMargin: real,
                                               baseMargin: real)
    requires cfg.orderQuoteSize >= 0.0 && 0.0 <= cfg.feeRate <= 1.0
    requires Ledger(cfg, s) && Solvent(cfg, s.fills, quoteMargin, baseMargin) && Fillable(cfg, orders)
    requires Covered(cfg, orders, s.quote, s.base, quoteMargin, baseMargin)
    ensures var t := FilledAll(cfg, s, orders);
            && Ledger(cfg, t) && Solvent(cfg, t.fills, quoteMargin, baseMargin)
            && t.quote >= s.quote - BuyCost(cfg, orders) && t.base >= s.base - SellQuantity(orders)
  {
    if orders != [] {
      var init, o := orders[..|orders| - 1], orders[|orders| - 1];
      CommitmentsGrow(cfg, orders);
      FillingStaysSolvent(cfg, s, init, quoteMargin, baseMargin);
      var u := FilledAll(cfg, s, init);
      FilledKeepsLedger(cfg, u, o);
      FeeOfOrder(cfg, o);
      FilledMoves(cfg, u, o, FillOf(cfg, o).fee);
      SolventSnoc(cfg, u.fills, FillOf(cfg, o), quoteMargin, baseMargin);
    }
  }

  // ---------------------------------------------------------------------
  // Whole runs
  // ---------------------------------------------------------------------

  lemma {:induction false} CrossedAreFillable(cfg: Config, orders: seq<Order>, c: Candle)
    requires SoundOrders(cfg, orders) && PositivePrices(c)
    ensures Fillable(cfg, Select(orders, c, true))
  {
    if orders != [] {
      CrossedAreFillable(cfg, orders[..|orders| - 1], c);
    }
  }

  lemma {:induction false} CrossedCommitLess(cfg: Config, orders: seq<Order>, c: Candle)
    requires SoundOrders(cfg, orders) && cfg.orderQuoteSize >= 0.0 && 0.0 <= cfg.feeRate <= 1.0
    ensures BuyCost(cfg, Select(orders, c, true)) <= BuyCost(cfg, orders)
    ensures SellQuantity(Select(orders, c, true)) <= SellQuantity(orders)
  {
    if orders != [] {
      var init, o := orders[..|orders| - 1], orders[|orders| - 1];
      CrossedCommitLess(cfg, init, c);
      FeeIsAShare(cfg, Value(o.price, o.quantity));
      TotalsSnoc(cfg, Select(init, c, true), o);
      assert Select(init, c, true) + [] == Select(init, c, true);
    }
  }

  /** Every sell of the run asks for more than the base slack. */
  ghost predicate AmpleSells(cfg: Config) {
    forall i :: 0 <= i < |cfg.candles| ==>
      && SellsAbove(cfg, Levels(cfg, cfg.candles[i].open), BASE_SLACK)
      && SellsAbove(cfg, Levels(cfg, cfg.candles[i].close), BASE_SLACK)
  }

  ghost predicate Margins(cfg: Config, quoteMargin: real, baseMargin: real) {
    && IsMargin(quoteMargin, cfg.levelsEachSide, QUOTE_SLACK, UnitCost(cfg) > QUOTE_SLACK)
    && IsMargin(baseMargin, cfg.levelsEachSide, BASE_SLACK, AmpleSells(cfg))
  }

  ghost predicate Books(cfg: Config, s: State, quoteMargin: real, baseMargin: real) {
    Ledger(cfg, s) && Solvent(cfg, s.fills, quoteMargin, baseMargin)
  }

  /** Between candles: the books are in order and the open orders are covered by the current balances. */
  ghost predicate InOrder(cfg: Config, s: State, quoteMargin: real, baseMargin: real) {
    Books(cfg, s, quoteMargin, baseMargin) && Covered(cfg, s.openOrders, s.quote, s.base, quoteMargin, baseMargin)
  }

  ghost predicate IsMark(cfg: Config, mark: real) {
    exists i :: 0 <= i < |cfg.candles| && (mark == cfg.candles[i].open || mark == cfg.candles[i].close)
  }

  lemma PlannedInOrder(cfg: Config, s: State, mark: real, quoteMargin: real, baseMargin: real)
    requires Sane(cfg) && Margins(cfg, quoteMargin, baseMargin) && Books(cfg, s, quoteMargin, baseMargin)
    requires IsMark(cfg, mark)
    ensures InOrder(cfg, Planned(cfg, s, mark), quoteMargin, baseMargin)
  {
    var i :| 0 <= i < |cfg.candles| && (mark == cfg.candles[i].open || mark == cfg.candles[i].close);
    assert PositivePrices(cfg.candles[i]);
    assert s.fills[..|s.fills|] == s.fills;
    PlanIsCovered(cfg, s.quote, s.base, mark, quoteMargin, baseMargin);
  }

  lemma TradedInOrder(cfg: Config, s: State, c: Candle, quoteMargin: real, baseMargin: real)
    requires Sane(cfg) && Margins(cfg, quoteMargin, baseMargin) && InOrder(cfg, s, quoteMargin, baseMargin)
    requires c in cfg.candles
    ensures Books(cfg, Traded(cfg, s, c), quoteMargin, baseMargin)
  {
    var i :| 0 <= i < |cfg.candles| && cfg.candles[i] == c;
    assert PositivePrices(c) && IsMark(cfg, c.open);
    PlannedInOrder(cfg, s, c.open, quoteMargin, baseMargin);
    var s1 := if s.openOrders == [] then Planned(cfg, s, c.open) else s;
    CrossedAreFillable(cfg, s1.openOrders, c);
    CrossedCommitLess(cfg, s1.openOrders, c);
    var s2 := s1.(openOrders := Select(s1.openOrders, c, false));
    FillingStaysSolvent(cfg, s2, Select(s1.openOrders, c, true), quoteMargin, baseMargin);
  }

  lemma SteppedInOrder(cfg: Config, s: State, quoteMargin: real, baseMargin: real)
    requires Sane(cfg) && Margins(cfg, quoteMargin, baseMargin) && InOrder(cfg, s, quoteMargin, baseMargin)
    ensures InOrder(cfg, Stepped(cfg, s), quoteMargin, baseMargin)
  {
    if s.activeIndex < |cfg.candles| {
      var c := cfg.candles[s.activeIndex];
      TradedInOrder(cfg, s, c, quoteMargin, baseMargin);
      var t := Traded(cfg, s, c);
      var u := t.(equityCurve := t.equityCurve + [Point(c.timestamp, Equity(t.quote, t.base, c.close))]);
      assert IsMark(cfg, c.close);
      PlannedInOrder(cfg, u, c.close, quoteMargin, baseMargin);
    }
  }

  /** In every run the ledger identities hold, and after every single fill each balance stays above
      minus its margin. */
  lemma {:induction false} RunInOrder(cfg: Config, k: nat, quoteMargin: real, baseMargin: real)
    requires Sane(cfg) && Margins(cfg, quoteMargin, baseMargin)
    ensures InOrder(cfg, Steps(cfg, Initial(cfg), k), quoteMargin, baseMargin)
    decreases k
  {
    if k == 0 {
      AllowanceGrows(0, cfg.levelsEachSide, QUOTE_SLACK);
      AllowanceGrows(0, cfg.levelsEachSide, BASE_SLACK);
    } else {
      RunInOrder(cfg, k - 1, quoteMargin, baseMargin);
      SteppedInOrder(cfg, Steps(cfg, Initial(cfg), k - 1), quoteMargin, baseMargin);
    }
  }

  /** Price times quantity over the fills of one side. */
  function Volume(fills: seq<Fill>, side: Side): real {
    if fills == [] then 0.0
    else
      var f := fills[|fills| - 1];
      Volume(fills[..|fills| - 1], side) + if f.side == side then f.price * f.quantity else 0.0
  }

  lemma {:induction false} TurnoverIsVolume(fills: seq<Fill>, side: Side)
    ensures Turnover(fills, side) == Volume(fills, side)
  {
    if fills != [] {
      TurnoverIsVolume(fills[..|fills| - 1], side);
    }
  }

  /** The balances are the starting ones moved by what was bought and sold and by the fees, which are the fee rate's
      share of all that was traded. */
  predicate BalancesFollow(cfg: Config, s: State) {
    && s.quote == cfg.quote - Volume(s.fills, Buy) + Volume(s.fills, Sell) - s.feePaid
    && s.base == cfg.base + Amount(s.fills, Buy) - Amount(s.fills, Sell)
    && s.feePaid == cfg.feeRate * (Volume(s.fills, Buy) + Volume(s.fills, Sell))
  }

  lemma LedgerMeans(cfg: Config, s: State)
    requires Ledger(cfg, s)
    ensures BalancesFollow(cfg, s)
  {
    TurnoverIsVolume(s.fills, Buy);
    TurnoverIsVolume(s.fills, Sell);
  }

  /** So it is in every run. */
  lemma RunLedger(cfg: Config, k: nat, s: State)
    requires Sane(cfg) && s == Steps(cfg, Initial(cfg), k)
    ensures BalancesFollow(cfg, s)
  {
    OverdraftIsOneSlackPerLevel(cfg, k);
    LedgerMeans(cfg, s);
  }

  /** With orders larger than the slack, the overshoot never accumulates: no fill of any run leaves a
      balance more than one slack below zero. */
  lemma OverdraftIsOneSlack(cfg: Config, k: nat)
    requires Sane(cfg) && UnitCost(cfg) > QUOTE_SLACK && AmpleSells(cfg)
    ensures var s := Steps(cfg, Initial(cfg), k);
            Ledger(cfg, s) && Solvent(cfg, s.fills, QUOTE_SLACK, BASE_SLACK)
  {
    RunInOrder(cfg, k, QUOTE_SLACK, BASE_SLACK);
  }

  /** Whatever the order size, no fill of any run leaves a balance more than one slack per level below zero. */
  lemma OverdraftIsOneSlackPerLevel(cfg: Config, k: nat)
    requires Sane(cfg)
    ensures var s := Steps(cfg, Initial(cfg), k);
            Ledger(cfg, s)
            && Solvent(cfg, s.fills, Allowance(cfg.levelsEachSide, QUOTE_SLACK),
                       Allowance(cfg.levelsEachSide, BASE_SLACK))
  {
    RunInOrder(cfg, k, Allowance(cfg.levelsEachSide, QUOTE_SLACK), Allowance(cfg.levelsEachSide, BASE_SLACK));
  }

  /** A plan against a nonnegative balance stays within a single slack exactly when one order already exceeds
      the slack, or all its orders together fit. */
  lemma PlanOvershootIff(cfg: Config, band: Band, mark: real, quote: real, base: real, unit: real)
    requires Sane(cfg) && mark > 0.0 && quote >= 0.0 && unit == UnitCost(cfg)
    ensures var levels := Levels(cfg, mark);
            BuyCost(cfg, Reserve(cfg, band, levels, quote, base).orders) <= quote + QUOTE_SLACK
            <==> unit > QUOTE_SLACK || Allowance(|Costs(cfg, band, levels)|, unit) <= quote + QUOTE_SLACK
  {
    var levels := Levels(cfg, mark);
    LadderShape(cfg, mark);
    ReserveIsGreedy(cfg, band, levels, quote, base);
    CostsAreUniform(cfg, band, levels);
    UnitCostIsPositive(cfg);
    UniformOvershootIff(Costs(cfg, band, levels), unit, quote);
  }

  lemma UniformOvershootIff(costs: seq<real>, unit: real, quote: real)
    requires unit >= 0.0 && quote >= 0.0 && forall k :: 0 <= k < |costs| ==> costs[k] == unit
    ensures Greedy(costs, quote, QUOTE_SLACK).total <= quote + QUOTE_SLACK
            <==> unit > QUOTE_SLACK || Allowance(|costs|, unit) <= quote + QUOTE_SLACK
  {
    assert costs == seq(|costs|, _ => unit);
    OvershootIff(|costs|, unit, quote, QUOTE_SLACK);
  }

  lemma StepsNext(cfg: Config, s: State, k: nat, t: State, u: State)
    requires t == Steps(cfg, s, k) && u == Stepped(cfg, t)
    ensures u == Steps(cfg, s, k + 1)
  {
  }

  /** How many candles are still to be walked. */
  function Remaining(cfg: Config, activeIndex: nat): nat {
    if activeIndex < |cfg.candles| then |cfg.candles| - activeIndex else 0
  }

  /** One point for the start, marked at the first open, and one for each of the first k candles, in order. */
  ghost predicate CurveFollows(cfg: Config, curve: seq<Point>, k: nat) {
    && cfg.candles != [] && k <= |cfg.candles| && |curve| == k + 1
    && curve[0] == Point(cfg.candles[0].timestamp, Worth(cfg.quote, cfg.base, cfg.candles[0].open))
    && forall i :: 0 <= i < k ==> curve[i + 1].timestamp == cfg.candles[i].timestamp
  }

  /** k candles are walked and recorded. */
  ghost predicate Walked(cfg: Config, s: State, k: nat) {
    s.activeIndex == k && CurveFollows(cfg, s.equityCurve, k)
  }

  lemma SteppedWalks(cfg: Config, s: State, t: State, k: nat)
    requires k < |cfg.candles| && Walked(cfg, s, k) && t == Stepped(cfg, s)
    ensures Walked(cfg, t, k + 1)
  {
    SteppedShape(cfg, s);
    CurveNext(cfg, s.equityCurve, k, t.equityCurve);
  }

  /** A run walks every candle once and records one equity point per candle after the initial one. */
  lemma {:induction false} RunShape(cfg: Config, k: nat)
    requires cfg.candles != [] && k <= |cfg.candles|
    ensures Walked(cfg, Steps(cfg, Initial(cfg), k), k)
    decreases k
  {
    if k > 0 {
      RunShape(cfg, k - 1);
      SteppedWalks(cfg, Steps(cfg, Initial(cfg), k - 1), Steps(cfg, Initial(cfg), k), k - 1);
    }
  }

  lemma CurveNext(cfg: Config, curve: seq<Point>, k: nat, next: seq<Point>)
    requires k < |cfg.candles| && CurveFollows(cfg, curve, k)
    requires exists p :: next == curve + [p] && p.timestamp == cfg.candles[k].timestamp
    ensures CurveFollows(cfg, next, k + 1)
  {
  }

  /** A step records the equity after its fills, marked at the close. */
  lemma SteppedShape(cfg: Config, s: State)
    requires s.activeIndex < |cfg.candles|
    ensures var t, c := Stepped(cfg, s), cfg.candles[s.activeIndex];
            && t.activeIndex == s.activeIndex + 1
            && t.equityCurve == s.equityCurve + [Point(c.timestamp, Equity(t.quote, t.base, c.close))]
  {
    TradedKeepsCurve(cfg, s, cfg.candles[s.activeIndex]);
  }

  lemma TradedKeepsCurve(cfg: Config, s: State, c: Candle)
    ensures var t := Traded(cfg, s, c); t.equityCurve == s.equityCurve && t.activeIndex == s.activeIndex
  {
    var s1 := if s.openOrders == [] then Planned(cfg, s, c.open) else s;
    FillingKeepsCurve(cfg, s1.(openOrders := Select(s1.openOrders, c, false)), Select(s1.openOrders, c, true));
  }

  lemma {:induction false} FillingKeepsCurve(cfg: Config, s: State, orders: seq<Order>)
    ensures var t := FilledAll(cfg, s, orders); t.equityCurve == s.equityCurve && t.activeIndex == s.activeIndex
  {
    if orders != [] {
      FillingKeepsCurve(cfg, s, orders[..|orders| - 1]);
    }
  }

  // ---------------------------------------------------------------------
  // Harvest pairing
  // ---------------------------------------------------------------------

  /** The position of the latest fill of a level. */
  function LatestAt(fills: seq<Fill>, index: nat): Option<nat> {
    if fills == [] then None
    else if fills[|fills| - 1].index == index then Some(|fills| - 1)
    else LatestAt(fills[..|fills| - 1], index)
  }

  lemma {:induction false} LatestIsLast(fills: seq<Fill>, index: nat)
    ensures var j := LatestAt(fills, index);
            && (j.Some? ==> j.value < |fills| && fills[j.value].index == index)
            && forall m :: 0 <= m < |fills| && fills[m].index == index ==> j.Some? && m <= j.value
  {
    if fills != [] && fills[|fills| - 1].index != index {
      LatestIsLast(fills[..|fills| - 1], index);
    }
  }

  /** The buy resting at a level: the latest fill there, when it is a buy. */
  function Resting(fills: seq<Fill>, index: nat): Option<nat> {
    var j := LatestAt(fills, index);
    if j.Some? && j.value < |fills| && fills[j.value].side == Buy then j else None
  }

  /** The buy that the k-th fill is harvested against. */
  function Partner(fills: seq<Fill>, k: nat): Option<nat>
    requires k < |fills|
  {
    if fills[k].side == Sell then Resting(fills[..k], fills[k].index) else None
  }

  /** The harvest of all matched pairs. */
  function Harvest(fills: seq<Fill>): real {
    if fills == [] then 0.0
    else
      var k := |fills| - 1;
      var p := Partner(fills, k);
      Harvest(fills[..k]) + if p.Some? && p.value < k then Gain(fills[k], fills[p.value]) else 0.0
  }

  /** A match joins a sell to an earlier buy of the same level with no fill of that level in between, and no
      buy is matched twice. */
  lemma MatchingIsInjective(fills: seq<Fill>, k: nat, l: nat)
    requires k < |fills| && l < |fills| && Partner(fills, k).Some?
    ensures var j := Partner(fills, k).value;
            && j < k && fills[j].side == Buy && fills[k].side == Sell && fills[j].index == fills[k].index
            && (forall m :: j < m < k ==> fills[m].index != fills[k].index)
            && (Partner(fills, l) == Partner(fills, k) ==> l == k)
  {
    PartnerIsLatest(fills, k);
    if Partner(fills, l).Some? {
      PartnerIsLatest(fills, l);
    }
  }

  lemma PartnerIsLatest(fills: seq<Fill>, k: nat)
    requires k < |fills| && Partner(fills, k).Some?
    ensures var j := Partner(fills, k).value;
            && j < k && fills[j].side == Buy && fills[k].side == Sell && fills[j].index == fills[k].index
            && forall m :: j < m < k ==> fills[m].index != fills[k].index
  {
    var past, index := fills[..k], fills[k].index;
    LatestIsLast(past, index);
    forall m | Partner(fills, k).value < m < k ensures fills[m].index != index {
      assert past[m] == fills[m];
    }
  }

  /** The gain of a pair is the quote balance the matched quantity brings in, all fees of both fills paid. */
  lemma GainIsRoundTrip(sell: Fill, buy: Fill)
    ensures var matched := Min(sell.quantity, buy.quantity);
            Gain(sell, buy) == (Value(sell.price, matched) - sell.fee) - (Value(buy.price, matched) + buy.fee)
  {
  }

  ghost predicate RestingBuysFollow(restingBuys: map<nat, Fill>, fills: seq<Fill>) {
    forall i: nat ::
      && (i in restingBuys <==> Resting(fills, i).Some?)
      && (i in restingBuys ==> restingBuys[i] == fills[Resting(fills, i).value])
  }

  ghost predicate HarvestFollows(s: State) {
    RestingBuysFollow(s.restingBuys, s.fills) && s.realizedHarvest == Harvest(s.fills)
  }

  lemma RestingSnoc(fills: seq<Fill>, f: Fill, i: nat)
    ensures Resting(fills + [f], i)
            == if i == f.index then (if f.side == Buy then Some(|fills|) else None) else Resting(fills, i)
    ensures Resting(fills, i).Some? ==> Resting(fills, i).value < |fills|
  {
    assert (fills + [f])[..|fills|] == fills;
    LatestIsLast(fills, i);
  }

  lemma RestingBuysSnoc(restingBuys: map<nat, Fill>, fills: seq<Fill>, f: Fill)
    requires RestingBuysFollow(restingBuys, fills)
    ensures RestingBuysFollow(if f.side == Buy then restingBuys[f.index := f] else restingBuys - {f.index}, fills + [f])
  {
    forall i: nat
      ensures Resting(fills + [f], i)
              == if i == f.index then (if f.side == Buy then Some(|fills|) else None) else Resting(fills, i)
                  ensures Resting(fills, i).Some? ==> Resting(fills, i).value < |fills|
    {
      RestingSnoc(fills, f, i);
    }
  }

  lemma HarvestSnoc(fills: seq<Fill>, f: Fill)
    ensures var r := Resting(fills, f.index);
            && (r.Some? ==> r.value < |fills|)
            && Harvest(fills + [f])
               == Harvest(fills) + if f.side == Sell && r.Some? then Gain(f, fills[r.value]) else 0.0
  {
  }

  lemma FilledKeepsHarvest(cfg: Config, s: State, o: Order)
    requires HarvestFollows(s)
    ensures HarvestFollows(Filled(cfg, s, o))
  {
    var f := FillOf(cfg, o);
    RestingBuysSnoc(s.restingBuys, s.fills, f);
    HarvestSnoc(s.fills, f);
    assert o.index !in s.restingBuys ==> s.restingBuys - {o.index} == s.restingBuys;
  }

  lemma {:induction false} FilledAllKeepsHarvest(cfg: Config, s: State, orders: seq<Order>)
    requires HarvestFollows(s)
    ensures HarvestFollows(FilledAll(cfg, s, orders))
  {
    if orders != [] {
      FilledAllKeepsHarvest(cfg, s, orders[..|orders| - 1]);
      FilledKeepsHarvest(cfg, FilledAll(cfg, s, orders[..|orders| - 1]), orders[|orders| - 1]);
    }
  }

  lemma SteppedKeepsHarvest(cfg: Config, s: State)
    requires HarvestFollows(s)
    ensures HarvestFollows(Stepped(cfg, s))
  {
    if s.activeIndex < |cfg.candles| {
      var c := cfg.candles[s.activeIndex];
      var s1 := if s.openOrders == [] then Planned(cfg, s, c.open) else s;
      FilledAllKeepsHarvest(cfg, s1.(openOrders := Select(s1.openOrders, c, false)), Select(s1.openOrders, c, true));
    }
  }

  /** In every run the realised harvest is the sum over the matched pairs of fills. */
  lemma {:induction false} RunHarvest(cfg: Config, k: nat)
    requires cfg.candles != []
    ensures HarvestFollows(Steps(cfg, Initial(cfg), k))
    decreases k
  {
    if k > 0 {
      RunHarvest(cfg, k - 1);
      SteppedKeepsHarvest(cfg, Steps(cfg, Initial(cfg), k - 1));
    }
  }

  // ---------------------------------------------------------------------
  // The simulation object
  // ---------------------------------------------------------------------

  method BuildLevels(cfg: Config, mark: real) returns (levels: seq<Level>)
    ensures levels == Levels(cfg, mark)
  {
    levels := [];
    var n := cfg.levelsEachSide;
    var index := n;
    while index > 0
      invariant 0 <= index <= n && |levels| == n - index
      invariant forall k :: 0 <= k < |levels| ==> levels[k] == BuyLevels(cfg, mark)[k]
    {
      levels := levels + [Level(Buy, index, BuyPrice(cfg, mark, index))];
      index := index - 1;
    }
    assert levels == BuyLevels(cfg, mark);
    for k := 0 to n
      invariant |levels| == n + k && levels[..n] == BuyLevels(cfg, mark)
      invariant forall j :: 0 <= j < k ==> levels[n + j] == SellLevels(cfg, mark)[j]
    {
      levels := levels + [Level(Sell, k + 1, SellPrice(cfg, mark, k + 1))];
    }
    assert levels[n..] == SellLevels(cfg, mark);
  }

  class Simulation {
    const config: Config
    var quote: real
    var base: real
    var openOrders: seq<Order>
    var fills: seq<Fill>
    var restingBuys: map<nat, Fill>
    var activeIndex: nat
    var feePaid: real
    var realizedHarvest: real
    var equityCurve: seq<Point>

    function Current(): State
      reads this
    {
      State(quote, base, openOrders, fills, restingBuys, activeIndex, feePaid, realizedHarvest, equityCurve)
    }

    constructor (cfg: Config)
      requires cfg.candles != []
      ensures config == cfg && Current() == Initial(cfg)
    {
      config := cfg;
      quote, base, openOrders, fills, restingBuys := cfg.quote, cfg.base, [], [], map[];
      activeIndex, feePaid, realizedHarvest := 0, 0.0, 0.0;
      equityCurve := [Point(cfg.candles[0].timestamp, Equity(cfg.quote, cfg.base, cfg.candles[0].open))];
    }

    method PlanOrders(mark: real)
      modifies this`openOrders
      ensures Current() == Planned(config, old(Current()), mark)
    {
      var band := BandAt(config, quote, base, mark);
      var levels := BuildLevels(config, mark);
      var availableQuote, availableBase := quote, base;
      var orders: seq<Order> := [];
      for k := 0 to |levels|
        invariant Plan(orders, availableQuote, availableBase) == Reserve(config, band, levels[..k], quote, base)
      {
        var l := levels[k];
        assert levels[..k + 1][..k] == levels[..k];
        if Asks(band, l) {
          var o := OrderAt(config, l);
          if l.side == Buy && Cost(config, o) <= availableQuote + QUOTE_SLACK {
            availableQuote := Max(0.0, availableQuote - Cost(config, o));
            orders := orders + [o];
          } else if l.side == Sell && o.quantity <= availableBase + BASE_SLACK {
            availableBase := Max(0.0, availableBase - o.quantity);
            orders := orders + [o];
          }
        }
      }
      assert levels[..|levels|] == levels;
      openOrders := orders;
    }

    method ApplyFill(o: Order)
      modifies this
      ensures Current() == Filled(config, old(Current()), o)
    {
      var fill := FillOf(config, o);
      if o.side == Buy {
        quote := quote - (Value(o.price, o.quantity) + fill.fee);
        base := base + o.quantity;
        restingBuys := restingBuys[o.index := fill];
      } else {
        quote := quote + (Value(o.price, o.quantity) - fill.fee);
        base := base - o.quantity;
        if o.index in restingBuys {
          realizedHarvest := realizedHarvest + Gain(fill, restingBuys[o.index]);
          restingBuys := restingBuys - {o.index};
        }
      }
      feePaid := feePaid + fill.fee;
      fills := fills + [fill];
    }

    method TakeCrossed(c: Candle) returns (crossed: seq<Order>)
      modifies this`openOrders
      ensures crossed == Select(old(openOrders), c, true)
      ensures openOrders == Select(old(openOrders), c, false)
    {
      crossed := [];
      var rest: seq<Order> := [];
      for k := 0 to |openOrders|
        invariant crossed == Select(openOrders[..k], c, true) && rest == Select(openOrders[..k], c, false)
      {
        assert openOrders[..k + 1][..k] == openOrders[..k];
        if Crosses(openOrders[k], c) {
          crossed := crossed + [openOrders[k]];
        } else {
          rest := rest + [openOrders[k]];
        }
      }
      assert openOrders[..|openOrders|] == openOrders;
      openOrders := rest;
    }

    method Trade(c: Candle)
      modifies this
      ensures Current() == Traded(config, old(Current()), c)
    {
      if openOrders == [] {
        PlanOrders(c.open);
      }
      var crossed := TakeCrossed(c);
      ghost var s := Current();
      for k := 0 to |crossed|
        invariant Current() == FilledAll(config, s, crossed[..k])
      {
        assert crossed[..k + 1][..k] == crossed[..k];
        ApplyFill(crossed[k]);
      }
      assert crossed[..|crossed|] == crossed;
    }

    method StepSimulation() returns (more: bool)
      modifies this
      ensures more == (old(activeIndex) < |config.candles|) && (more ==> activeIndex == old(activeIndex) + 1)
      ensures Current() == Stepped(config, old(Current()))
    {
      if activeIndex >= |config.candles| {
        return false;
      }
      var c := config.candles[activeIndex];
      TradedKeepsCurve(config, Current(), c);
      Trade(c);
      equityCurve := equityCurve + [Point(c.timestamp, Equity(quote, base, c.close))];
      PlanOrders(c.close);
      activeIndex := activeIndex + 1;
      return true;
    }

    method RunAll()
      modifies this
      ensures Current() == Steps(config, old(Current()), Remaining(config, old(activeIndex)))
      ensures activeIndex == if old(activeIndex) < |config.candles| then |config.candles| else old(activeIndex)
    {
      hide Stepped;
      ghost var s := Current();
      ghost var k: nat := 0;
      while activeIndex < |config.candles|
        invariant activeIndex == s.activeIndex + k && k <= Remaining(config, s.activeIndex)
        invariant Current() == Steps(config, s, k)
        decreases |config.candles| - activeIndex
      {
        ghost var t := Current();
        var _ := StepSimulation();
        StepsNext(config, s, k, t, Current());
        k := k + 1;
      }
    }
  }
}
