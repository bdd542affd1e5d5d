/**
 The grid-spacing backtest walker (backtest_grid_spacing.py): each strategy goes
 idle -> pending setup -> active trade -> resolved while candles are walked in order.

 The grid planner and the price-action engine are pure callees of the candle window.
 Prices are exact reals.
 */
module Backtest {
  import opened Common

  const WARMUP_CANDLES: nat := 60
  const MAX_HOLD_CANDLES: nat := 96
  const SETUP_VALIDITY_CANDLES: nat := 4

  datatype Direction = Bullish | Bearish

  datatype Candle = Candle(open: real, high: real, low: real, close: real)

  datatype RawGrid = RawGrid(buyLevels: seq<real>, sellLevels: seq<real>,
                             lowerInvalidation: real, upperInvalidation: real, spacing: real)

  /** A grid plan always has at least one level on each side. */
  type Grid = g: RawGrid | |g.buyLevels| > 0 && |g.sellLevels| > 0
    witness RawGrid([1.0], [2.0], 0.0, 3.0, 1.0)

  /** build_moving_grid_plan per strategy, and whether the engine confirms an entry request. Both see
      only the window of candles up to the current one. */
  datatype Callees = Callees(
    plan: (seq<Candle>, string) -> Option<Grid>,
    confirms: (seq<Candle>, Direction, real, real, real) -> bool)

  datatype Setup = Setup(grid: Grid, level: real, direction: Direction, zoneLow: real, zoneHigh: real,
                         expiryIndex: nat, touched: bool)

  datatype Trade = Trade(entryIndex: nat, entryPrice: real, target: real, invalidation: real,
                         direction: Direction, deadlineIndex: nat)

  /** Counters of the setups of one strategy. */
  datatype Setups = Setups(
    decisionsGenerated: nat, gridUnavailable: nat, levelTouched: nat, confirmed: nat, confirmedAtWindowEnd: nat,
    expiredNoTouch: nat, expiredTouchedUnconfirmed: nat, pendingAtWindowEnd: nat)

  /** Counters and result lists of its trades. */
  datatype Trades = Trades(
    wins: nat, losses: nat, ambiguous: nat, unresolved: nat, openAtWindowEnd: nat,
    tradePnl: seq<real>, tradeR: seq<real>, censoredPnl: seq<real>)

  datatype Tally = Tally(setups: Setups, trades: Trades)

  const EMPTY_TALLY := Tally(Setups(0, 0, 0, 0, 0, 0, 0, 0), Trades(0, 0, 0, 0, 0, [], [], []))

  datatype State = State(tally: Tally, pending: Option<Setup>, active: Option<Trade>)

  const IDLE := State(EMPTY_TALLY, None, None)

  // ---------------------------------------------------------------------
  // One step of one strategy
  // ---------------------------------------------------------------------

  /** The closest level of one side, the first one winning ties. */
  function Closest(levels: seq<real>, price: real): (l: real)
    requires |levels| > 0
    ensures l in levels
    ensures forall k :: 0 <= k < |levels| ==> Abs(price - l) <= Abs(price - levels[k])
  {
    if |levels| == 1 then levels[0]
    else
      var best := Closest(levels[..|levels| - 1], price);
      assert forall k :: 0 <= k < |levels| - 1 ==> levels[..|levels| - 1][k] == levels[k];
      if Abs(price - levels[|levels| - 1]) < Abs(price - best) then levels[|levels| - 1] else best
  }

  /** The level closest to the price with its implied direction; a tie goes to the buy side. */
  function NearestGridLevel(grid: Grid, price: real): (r: (real, Direction))
    ensures r.0 in (if r.1 == Bullish then grid.buyLevels else grid.sellLevels)
    ensures forall l :: l in grid.buyLevels || l in grid.sellLevels ==> Abs(price - r.0) <= Abs(price - l)
    ensures r.1 == Bearish ==> forall l :: l in grid.buyLevels ==> Abs(price - r.0) < Abs(price - l)
  {
    var buy := Closest(grid.buyLevels, price);
    var sell := Closest(grid.sellLevels, price);
    if Abs(price - sell) < Abs(price - buy) then (sell, Bearish) else (buy, Bullish)
  }

  function TargetAndInvalidation(grid: Grid, direction: Direction): (real, real) {
    if direction == Bullish then (grid.sellLevels[0], grid.lowerInvalidation)
    else (grid.buyLevels[0], grid.upperInvalidation)
  }

  function MarkToMarket(t: Trade, mark: real): real {
    if t.direction == Bullish then mark - t.entryPrice else t.entryPrice - mark
  }

  predicate HitsTarget(t: Trade, c: Candle) {
    if t.direction == Bullish then c.high >= t.target else c.low <= t.target
  }

  predicate HitsInvalidation(t: Trade, c: Candle) {
    if t.direction == Bullish then c.low <= t.invalidation else c.high >= t.invalidation
  }

  function RMultiple(reward: real, risk: real): real {
    if risk != 0.0 then reward / risk else 0.0
  }

  /** How candle i leaves the books when trade t is open; None while the trade stays open. */
  function Resolve(t: Trade, c: Candle, i: nat, y: Trades): Option<Trades> {
    var risk := Abs(t.entryPrice - t.invalidation);
    var reward := Abs(t.target - t.entryPrice);
    if HitsTarget(t, c) && HitsInvalidation(t, c) then
      Some(y.(ambiguous := y.ambiguous + 1))
    else if HitsInvalidation(t, c) then
      Some(y.(losses := y.losses + 1, tradePnl := y.tradePnl + [-risk], tradeR := y.tradeR + [-1.0]))
    else if HitsTarget(t, c) then
      Some(y.(wins := y.wins + 1, tradePnl := y.tradePnl + [reward],
              tradeR := y.tradeR + [RMultiple(reward, risk)]))
    else if i >= t.deadlineIndex then
      Some(y.(unresolved := y.unresolved + 1, censoredPnl := y.censoredPnl + [MarkToMarket(t, c.close)]))
    else None
  }

  function StepActive(c: Candle, i: nat, s: State): State
    requires s.active.Some?
  {
    match Resolve(s.active.value, c, i, s.tally.trades)
    case None => s
    case Some(y) => s.(tally := s.tally.(trades := y), active := None)
  }

  predicate Touches(p: Setup, c: Candle) {
    c.low <= p.zoneHigh && c.high >= p.zoneLow
  }

  predicate Confirms(cs: Callees, candles: seq<Candle>, i: nat, p: Setup)
    requires i < |candles|
  {
    && Touches(p, candles[i])
    && cs.confirms(candles[..i + 1], p.direction, p.level, p.zoneLow, p.zoneHigh)
  }

  /** The trade opened by a confirmation on candle i: it enters at the open of the next candle. */
  function Enter(candles: seq<Candle>, i: nat, p: Setup): Trade
    requires i + 1 < |candles|
  {
    var (target, invalidation) := TargetAndInvalidation(p.grid, p.direction);
    Trade(i + 1, candles[i + 1].open, target, invalidation, p.direction, i + 1 + MAX_HOLD_CANDLES)
  }

  function StepPending(cs: Callees, candles: seq<Candle>, i: nat, s: State): State
    requires i < |candles| && s.pending.Some?
  {
    var p := s.pending.value;
    var y := s.tally.setups;
    if Confirms(cs, candles, i, p) then
      var z := y.(levelTouched := y.levelTouched + 1, confirmed := y.confirmed + 1);
      if i + 1 >= |candles| then
        State(s.tally.(setups := z.(confirmedAtWindowEnd := z.confirmedAtWindowEnd + 1)), None, s.active)
      else
        State(s.tally.(setups := z), None, Some(Enter(candles, i, p)))
    else if i >= p.expiryIndex then
      State(s.tally.(setups := Expire(y, p.touched || Touches(p, candles[i]))), None, s.active)
    else s.(pending := Some(p.(touched := p.touched || Touches(p, candles[i]))))
  }

  function Expire(y: Setups, touched: bool): Setups {
    if touched then
      y.(levelTouched := y.levelTouched + 1, expiredTouchedUnconfirmed := y.expiredTouchedUnconfirmed + 1)
    else y.(expiredNoTouch := y.expiredNoTouch + 1)
  }

  function NewSetup(grid: Grid, c: Candle, i: nat): Setup {
    var (level, direction) := NearestGridLevel(grid, c.close);
    var half := grid.spacing * 0.15;
    Setup(grid, level, direction, level - half, level + half, i + SETUP_VALIDITY_CANDLES, false)
  }

  function StepIdle(cs: Callees, candles: seq<Candle>, strategy: string, i: nat, s: State): State
    requires i < |candles|
  {
    var y := s.tally.setups;
    match cs.plan(candles[..i + 1], strategy)
    case None => s.(tally := s.tally.(setups := y.(gridUnavailable := y.gridUnavailable + 1)))
    case Some(grid) =>
      State(s.tally.(setups := y.(decisionsGenerated := y.decisionsGenerated + 1)),
            Some(NewSetup(grid, candles[i], i)), s.active)
  }

  /** What one strategy does on candle i. */
  function Step(cs: Callees, candles: seq<Candle>, strategy: string, i: nat, s: State): State
    requires i < |candles|
  {
    if s.active.Some? then StepActive(candles[i], i, s)
    else if s.pending.Some? then StepPending(cs, candles, i, s)
    else StepIdle(cs, candles, strategy, i, s)
  }

  /** Whatever is still open when the data runs out is booked, never dropped. */
  function Close(candles: seq<Candle>, s: State): State {
    var y, z := s.tally.setups, s.tally.trades;
    s.(tally := Tally(
         if s.pending.Some? then y.(pendingAtWindowEnd := y.pendingAtWindowEnd + 1) else y,
         if s.active.Some? && candles != []
         then z.(openAtWindowEnd := z.openAtWindowEnd + 1,
                 censoredPnl := z.censoredPnl + [MarkToMarket(s.active.value, candles[|candles| - 1].close)])
         else z))
  }

  // ---------------------------------------------------------------------
  // Runs of one strategy; `times` is how often the strategy is listed
  // ---------------------------------------------------------------------

  /** One pass over a strategy: from its name and state to its next state. */
  type Pass = (string, State) -> State

  function StepAt(cs: Callees, candles: seq<Candle>, i: nat): Pass
    requires i < |candles|
  {
    (strategy, s) => Step(cs, candles, strategy, i, s)
  }

  function CloseAt(candles: seq<Candle>): Pass {
    (strategy, s) => Close(candles, s)
  }

  function Repeat(f: Pass, strategy: string, times: nat, s: State): State
    decreases times
  {
    if times == 0 then s else f(strategy, Repeat(f, strategy, times - 1, s))
  }

  /** The state once candles WARMUP..n-1 have been walked. */
  function Walk(cs: Callees, candles: seq<Candle>, strategy: string, times: nat, n: nat): State
    requires n <= |candles|
    decreases n
  {
    if n <= WARMUP_CANDLES then IDLE
    else Repeat(StepAt(cs, candles, n - 1), strategy, times, Walk(cs, candles, strategy, times, n - 1))
  }

  function Final(cs: Callees, candles: seq<Candle>, strategy: string, times: nat): State {
    Repeat(CloseAt(candles), strategy, times, Walk(cs, candles, strategy, times, |candles|))
  }

  function Occurrences(strategies: seq<string>, s: string): nat {
    if strategies == [] then 0
    else Occurrences(strategies[..|strategies| - 1], s) + Count(strategies[|strategies| - 1] == s)
  }

  // ---------------------------------------------------------------------
  // The walker
  // ---------------------------------------------------------------------

  datatype Summary = Summary(
    levelTouchRate: Option<real>, conversionRate: Option<real>, expiryRate: Option<real>,
    falseEntryRate: Option<real>, winRate: Option<real>, closedTrades: nat, censoredTrades: nat,
    expectancy: Option<real>, expectancyR: Option<real>, totalPnl: real, totalUnrealized: real, maxDrawdown: real)

  function Mean(s: seq<real>): (m: Option<real>)
    ensures m.None? <==> s == []
    ensures m.Some? ==> m.value * |s| as real == Sum(s)
  {
    if s == [] then None else Some(Sum(s) / |s| as real)
  }

  function Ratio(n: nat, d: nat): (r: Option<real>)
    ensures r.None? <==> d == 0
    ensures r.Some? ==> r.value * d as real == n as real
  {
    if d == 0 then None else Some(n as real / d as real)
  }

  class StrategyStats {
    var decisionsGenerated: nat
    var gridUnavailable: nat
    var levelTouched: nat
    var confirmed: nat
    var confirmedAtWindowEnd: nat
    var expiredNoTouch: nat
    var expiredTouchedUnconfirmed: nat
    var pendingAtWindowEnd: nat
    var wins: nat
    var losses: nat
    var ambiguous: nat
    var unresolved: nat
    var openAtWindowEnd: nat
    var tradePnl: seq<real>
    var tradeR: seq<real>
    var censoredPnl: seq<real>

    function Value(): Tally
      reads this
    {
      Tally(Setups(decisionsGenerated, gridUnavailable, levelTouched, confirmed, confirmedAtWindowEnd,
                   expiredNoTouch, expiredTouchedUnconfirmed, pendingAtWindowEnd),
            Trades(wins, losses, ambiguous, unresolved, openAtWindowEnd, tradePnl, tradeR, censoredPnl))
    }

    constructor ()
      ensures Value() == EMPTY_TALLY
    {
      decisionsGenerated, gridUnavailable, levelTouched, confirmed, confirmedAtWindowEnd := 0, 0, 0, 0, 0;
      expiredNoTouch, expiredTouchedUnconfirmed, pendingAtWindowEnd := 0, 0, 0;
      wins, losses, ambiguous, unresolved, openAtWindowEnd := 0, 0, 0, 0, 0;
      tradePnl, tradeR, censoredPnl := [], [], [];
    }

    method StepTrade(c: Candle, i: nat, trade: Trade) returns (active: Option<Trade>)
      modifies this
      ensures State(Value(), None, active) == StepActive(c, i, State(old(Value()), None, Some(trade)))
    {
      active := Some(trade);
      var resolved := false;
      if HitsTarget(trade, c) && HitsInvalidation(trade, c) {
        ambiguous := ambiguous + 1;
        resolved := true;
      } else if HitsInvalidation(trade, c) {
        var risk := Abs(trade.entryPrice - trade.invalidation);
        losses := losses + 1;
        tradePnl := tradePnl + [-risk];
        tradeR := tradeR + [-1.0];
        resolved := true;
      } else if HitsTarget(trade, c) {
        var reward := Abs(trade.target - trade.entryPrice);
        var risk := Abs(trade.entryPrice - trade.invalidation);
        wins := wins + 1;
        tradePnl := tradePnl + [reward];
        tradeR := tradeR + [RMultiple(reward, risk)];
        resolved := true;
      } else if i >= trade.deadlineIndex {
        unresolved := unresolved + 1;
        censoredPnl := censoredPnl + [MarkToMarket(trade, c.close)];
        resolved := true;
      }
      if resolved {
        active := None;
      }
    }

    method StepSetup(cs: Callees, candles: seq<Candle>, i: nat, setup: Setup)
      returns (pending: Option<Setup>, active: Option<Trade>)
      requires i < |candles|
      modifies this
      ensures State(Value(), pending, active) == StepPending(cs, candles, i, State(old(Value()), Some(setup), None))
    {
      pending, active := Some(setup), None;
      if Touches(setup, candles[i]) {
        pending := Some(setup.(touched := true));
        if cs.confirms(candles[..i + 1], setup.direction, setup.level, setup.zoneLow, setup.zoneHigh) {
          levelTouched := levelTouched + 1;
          confirmed := confirmed + 1;
          pending := None;
          if i + 1 >= |candles| {
            confirmedAtWindowEnd := confirmedAtWindowEnd + 1;
          } else {
            active := Some(Enter(candles, i, setup));
          }
          return;
        }
      }
      if i >= setup.expiryIndex {
        if pending.value.touched {
          levelTouched := levelTouched + 1;
          expiredTouchedUnconfirmed := expiredTouchedUnconfirmed + 1;
        } else {
          expiredNoTouch := expiredNoTouch + 1;
        }
        pending := None;
      }
    }

    method StepCandle(cs: Callees, candles: seq<Candle>, strategy: string, i: nat,
                      pending: Option<Setup>, active: Option<Trade>)
      returns (pending': Option<Setup>, active': Option<Trade>)
      requires i < |candles| && (active.Some? ==> pending.None?)
      modifies this
      ensures State(Value(), pending', active') == Step(cs, candles, strategy, i, State(old(Value()), pending, active))
    {
      pending', active' := pending, active;
      if active.Some? {
        active' := StepTrade(candles[i], i, active.value);
      } else if pending.Some? {
        pending', active' := StepSetup(cs, candles, i, pending.value);
      } else {
        match cs.plan(candles[..i + 1], strategy)
        case None =>
          gridUnavailable := gridUnavailable + 1;
        case Some(grid) =>
          decisionsGenerated := decisionsGenerated + 1;
          pending' := Some(NewSetup(grid, candles[i], i));
      }
    }

    method BookRemaining(candles: seq<Candle>, pending: Option<Setup>, active: Option<Trade>)
      modifies this
      ensures State(Value(), pending, active) == Close(candles, State(old(Value()), pending, active))
    {
      if active.Some? && candles != [] {
        openAtWindowEnd := openAtWindowEnd + 1;
        censoredPnl := censoredPnl + [MarkToMarket(active.value, candles[|candles| - 1].close)];
      }
      if pending.Some? {
        pendingAtWindowEnd := pendingAtWindowEnd + 1;
      }
    }

    /** The reported figures before display rounding. */
    method Summarize() returns (s: Summary)
      ensures s.levelTouchRate == Ratio(levelTouched, decisionsGenerated)
      ensures s.conversionRate == Ratio(confirmed, decisionsGenerated)
      ensures s.expiryRate == Ratio(expiredNoTouch + expiredTouchedUnconfirmed, decisionsGenerated)
      ensures s.falseEntryRate == Ratio(losses, wins + losses) && s.winRate == Ratio(wins, wins + losses)
      ensures s.closedTrades == wins + losses && s.censoredTrades == unresolved + openAtWindowEnd
      ensures s.totalPnl == Sum(tradePnl) && s.totalUnrealized == Sum(censoredPnl)
      ensures s.expectancy == Mean(tradePnl) && s.expectancyR == Mean(tradeR)
      ensures IsMaxDrawdown(tradePnl, s.maxDrawdown)
    {
      var d := MaxDrawdown(tradePnl);
      var closed := wins + losses;
      s := Summary(Ratio(levelTouched, decisionsGenerated), Ratio(confirmed, decisionsGenerated),
                   Ratio(expiredNoTouch + expiredTouchedUnconfirmed, decisionsGenerated),
                   Ratio(losses, closed), Ratio(wins, closed), closed, unresolved + openAtWindowEnd,
                   Mean(tradePnl), Mean(tradeR), Sum(tradePnl), Sum(censoredPnl), d);
    }
  }

  /** Realized equity after each number of closed trades, starting from zero. */
  function Curve(pnl: seq<real>): (c: seq<real>)
    ensures |c| == |pnl| + 1
  {
    seq(|pnl| + 1, j requires 0 <= j <= |pnl| => Sum(pnl[..j]))
  }

  /** The change of equity from point i to a later point j. */
  function Change(curve: seq<real>, i: nat, j: nat): real
    requires i <= j < |curve|
  {
    curve[j] - curve[i]
  }

  ghost predicate IsDeepestFall(curve: seq<real>, d: real) {
    && (forall i: nat, j: nat :: i <= j < |curve| ==> d <= Change(curve, i, j))
    && (exists i: nat, j: nat :: i <= j < |curve| && d == Change(curve, i, j))
  }

  /** d is the deepest fall of realized equity from any earlier point, including the start. */
  ghost predicate IsMaxDrawdown(pnl: seq<real>, d: real) {
    IsDeepestFall(Curve(pnl), d)
  }

  ghost predicate IsPeak(curve: seq<real>, peak: real) {
    peak in curve && forall i :: 0 <= i < |curve| ==> curve[i] <= peak
  }

  lemma PeakExtends(curve: seq<real>, peak: real, e: real)
    requires IsPeak(curve, peak)
    ensures IsPeak(curve + [e], Max(peak, e))
  {
  }

  lemma FallExtends(curve: seq<real>, d: real, peak: real, e: real)
    requires IsDeepestFall(curve, d) && IsPeak(curve + [e], peak)
    ensures IsDeepestFall(curve + [e], Min(d, e - peak))
  {
    var c := curve + [e];
    forall i: nat, j: nat | i <= j < |c| ensures Min(d, e - peak) <= Change(c, i, j) {
      if j < |curve| {
        assert Change(c, i, j) == Change(curve, i, j);
      }
    }
    if d <= e - peak {
      var i: nat, j: nat :| i <= j < |curve| && d == Change(curve, i, j);
      assert d == Change(c, i, j);
    } else {
      var k :| 0 <= k < |c| && c[k] == peak;
      assert Change(c, k, |curve|) == e - peak;
    }
  }

  lemma CurveSnoc(s: seq<real>, x: real)
    ensures Curve(s + [x]) == Curve(s) + [Curve(s)[|s|] + x]
  {
    SumSnoc(s, x);
    forall i | 0 <= i <= |s| ensures (s + [x])[..i] == s[..i] {
    }
    assert (s + [x])[..|s| + 1] == s + [x] && s[..|s|] == s;
  }

  /** What the single pass knows of the equity curve so far. */
  ghost predicate Tracks(curve: seq<real>, equity: real, peak: real, d: real) {
    curve != [] && equity == curve[|curve| - 1] && IsPeak(curve, peak) && IsDeepestFall(curve, d)
  }

  lemma CurveNext(pnl: seq<real>, n: nat)
    requires n < |pnl|
    ensures Curve(pnl[..n + 1]) == Curve(pnl[..n]) + [Curve(pnl[..n])[n] + pnl[n]]
  {
    assert pnl[..n + 1] == pnl[..n] + [pnl[n]];
    CurveSnoc(pnl[..n], pnl[n]);
  }

  lemma TracksNext(curve: seq<real>, equity: real, peak: real, d: real, e: real)
    requires Tracks(curve, equity, peak, d)
    ensures Tracks(curve + [e], e, Max(peak, e), Min(d, e - Max(peak, e)))
  {
    PeakExtends(curve, peak, e);
    FallExtends(curve, d, Max(peak, e), e);
  }

  lemma CurveStarts(pnl: seq<real>)
    ensures Curve(pnl[..0]) == [0.0] && Tracks([0.0], 0.0, 0.0, 0.0)
  {
    var curve := [0.0];
    assert Change(curve, 0, 0) == 0.0;
  }

  lemma CurveStep(pnl: seq<real>, n: nat, curve: seq<real>, equity: real)
    requires n < |pnl| && curve == Curve(pnl[..n]) && equity == curve[|curve| - 1]
    ensures Curve(pnl[..n + 1]) == curve + [equity + pnl[n]]
  {
    CurveNext(pnl, n);
  }

  /** One pass over the trades finds the minimum over all pairs of points. */
  method MaxDrawdown(pnl: seq<real>) returns (d: real)
    ensures IsMaxDrawdown(pnl, d)
  {
    var equity, peak := 0.0, 0.0;
    d := 0.0;
    CurveStarts(pnl);
    ghost var curve := [0.0];
    for n := 0 to |pnl|
      invariant curve == Curve(pnl[..n]) && Tracks(curve, equity, peak, d)
    {
      CurveStep(pnl, n, curve, equity);
      TracksNext(curve, equity, peak, d, equity + pnl[n]);
      curve := curve + [equity + pnl[n]];
      equity := equity + pnl[n];
      peak := Max(peak, equity);
      d := Min(d, equity - peak);
    }
    assert pnl[..|pnl|] == pnl;
  }

  // ---------------------------------------------------------------------
  // The joint walk over all strategies
  // ---------------------------------------------------------------------

  /** The states of all strategies of a run. */
  type Joint = map<string, State>

  function At(m: Joint, s: string): State {
    if s in m then m[s] else IDLE
  }

  /** One pass over every listed strategy in turn, as often as it is listed. */
  function Apply(f: Pass, strategies: seq<string>, m: Joint): Joint {
    if strategies == [] then m
    else
      var s, m' := strategies[|strategies| - 1], Apply(f, strategies[..|strategies| - 1], m);
      m'[s := f(s, At(m', s))]
  }

  lemma ApplyNext(f: Pass, strategies: seq<string>, k: nat, m: Joint)
    requires k < |strategies|
    ensures var now := Apply(f, strategies[..k], m);
            Apply(f, strategies[..k + 1], m) == now[strategies[k] := f(strategies[k], At(now, strategies[k]))]
  {
    assert strategies[..k + 1][..k] == strategies[..k];
  }

  function JointStart(strategies: seq<string>): Joint {
    map s | s in strategies :: IDLE
  }

  function JointWalk(cs: Callees, candles: seq<Candle>, strategies: seq<string>, n: nat): Joint
    requires n <= |candles|
    decreases n
  {
    if n <= WARMUP_CANDLES then JointStart(strategies)
    else Apply(StepAt(cs, candles, n - 1), strategies, JointWalk(cs, candles, strategies, n - 1))
  }

  function JointFinal(cs: Callees, candles: seq<Candle>, strategies: seq<string>): Joint {
    Apply(CloseAt(candles), strategies, JointWalk(cs, candles, strategies, |candles|))
  }

  lemma {:induction false} ApplyIsPointwise(f: Pass, strategies: seq<string>, m: Joint, s: string)
    ensures At(Apply(f, strategies, m), s) == Repeat(f, s, Occurrences(strategies, s), At(m, s))
  {
    if strategies != [] {
      ApplyIsPointwise(f, strategies[..|strategies| - 1], m, s);
    }
  }

  lemma PassIsPointwise(f: Pass, strategies: seq<string>, m: Joint, next: Joint, s: string, t: State)
    requires next == Apply(f, strategies, m) && t == Repeat(f, s, Occurrences(strategies, s), At(m, s))
    ensures At(next, s) == t
  {
    ApplyIsPointwise(f, strategies, m, s);
  }

  lemma {:induction false} WalkIsPointwise(cs: Callees, candles: seq<Candle>, strategies: seq<string>, n: nat,
                                           s: string)
    requires n <= |candles|
    ensures At(JointWalk(cs, candles, strategies, n), s) == Walk(cs, candles, s, Occurrences(strategies, s), n)
    decreases n
  {
    if n > WARMUP_CANDLES {
      WalkIsPointwise(cs, candles, strategies, n - 1, s);
      PassIsPointwise(StepAt(cs, candles, n - 1), strategies, JointWalk(cs, candles, strategies, n - 1),
                      JointWalk(cs, candles, strategies, n), s, Walk(cs, candles, s, Occurrences(strategies, s), n));
    }
  }

  /** In a joint run every strategy ends where a run of its own would end; only how often it is listed
      matters, never which other strategies run beside it. */
  lemma JointRunIsPointwise(cs: Callees, candles: seq<Candle>, strategies: seq<string>, s: string)
    ensures At(JointFinal(cs, candles, strategies), s) == Final(cs, candles, s, Occurrences(strategies, s))
  {
    WalkIsPointwise(cs, candles, strategies, |candles|, s);
    ApplyIsPointwise(CloseAt(candles), strategies, JointWalk(cs, candles, strategies, |candles|), s);
  }

  ghost predicate Distinct(strategies: seq<string>) {
    forall i, j :: 0 <= i < j < |strategies| ==> strategies[i] != strategies[j]
  }

  lemma {:induction false} DistinctOccursOnce(strategies: seq<string>, s: string)
    requires Distinct(strategies)
    ensures Occurrences(strategies, s) == Count(s in strategies)
  {
    if strategies != [] {
      DistinctOccursOnce(strategies[..|strategies| - 1], s);
    }
  }

  /** Non-interference: with distinct strategies, the joint run and the run of one strategy alone
      report the same counters and lists for it. */
  lemma NonInterference(cs: Callees, candles: seq<Candle>, strategies: seq<string>, s: string)
    requires Distinct(strategies) && s in strategies
    ensures At(JointFinal(cs, candles, strategies), s) == At(JointFinal(cs, candles, [s]), s)
  {
    JointRunIsPointwise(cs, candles, strategies, s);
    JointRunIsPointwise(cs, candles, [s], s);
    DistinctOccursOnce(strategies, s);
    DistinctOccursOnce([s], s);
  }

  // ---------------------------------------------------------------------
  // The walker's dictionaries and objects follow the joint walk
  // ---------------------------------------------------------------------

  /** The dictionaries of the walker hold exactly these states, in separate objects. */
  ghost predicate Holds(stats: map<string, StrategyStats>, pending: map<string, Option<Setup>>,
                        active: map<string, Option<Trade>>, m: Joint)
    reads stats.Values
  {
    && stats.Keys == pending.Keys == active.Keys == m.Keys
    && (forall s, t :: s in stats && t in stats && s != t ==> stats[s] != stats[t])
    && (forall s :: s in m ==> State(stats[s].Value(), pending[s], active[s]) == m[s])
  }

  predicate NeverBoth(s: State) {
    s.active.Some? ==> s.pending.None?
  }

  ghost predicate NoneBoth(m: Joint) {
    forall s :: s in m ==> NeverBoth(m[s])
  }

  lemma StepNeverBoth(cs: Callees, candles: seq<Candle>, strategy: string, i: nat, s: State)
    requires i < |candles| && NeverBoth(s)
    ensures NeverBoth(Step(cs, candles, strategy, i, s))
  {
  }

  lemma JointStartNext(strategies: seq<string>, k: nat)
    requires k < |strategies|
    ensures JointStart(strategies[..k + 1]) == JointStart(strategies[..k])[strategies[k] := IDLE]
  {
  }

  method NewStats(strategies: seq<string>)
    returns (stats: map<string, StrategyStats>, pending: map<string, Option<Setup>>, active: map<string, Option<Trade>>)
    ensures Holds(stats, pending, active, JointStart(strategies)) && NoneBoth(JointStart(strategies))
    ensures forall s :: s in stats ==> fresh(stats[s])
  {
    stats, pending, active := map[], map[], map[];
    ghost var m: Joint := map[];
    for k := 0 to |strategies|
      invariant m == JointStart(strategies[..k]) && Holds(stats, pending, active, m)
      invariant forall s :: s in stats ==> fresh(stats[s])
    {
      var st := new StrategyStats();
      JointStartNext(strategies, k);
      m := m[strategies[k] := IDLE];
      stats := stats[strategies[k] := st];
      pending := pending[strategies[k] := None];
      active := active[strategies[k] := None];
    }
    assert strategies[..|strategies|] == strategies;
  }

  /** One strategy on one candle. */
  method StepOne(cs: Callees, candles: seq<Candle>, strategy: string, i: nat,
                 stats: map<string, StrategyStats>, pending: map<string, Option<Setup>>,
                 active: map<string, Option<Trade>>, ghost m: Joint, ghost next: Joint)
    returns (pending': map<string, Option<Setup>>, active': map<string, Option<Trade>>)
    requires i < |candles| && strategy in m && Holds(stats, pending, active, m) && NeverBoth(m[strategy])
    requires next == m[strategy := StepAt(cs, candles, i)(strategy, At(m, strategy))]
    modifies stats.Values
    ensures Holds(stats, pending', active', next)
  {
    var p, a := stats[strategy].StepCandle(cs, candles, strategy, i, pending[strategy], active[strategy]);
    pending' := pending[strategy := p];
    active' := active[strategy := a];
  }

  lemma {:induction false} ApplyKeepsShape(cs: Callees, candles: seq<Candle>, strategies: seq<string>, i: nat, m: Joint)
    requires i < |candles| && NoneBoth(m) && forall s :: s in strategies ==> s in m
    ensures Apply(StepAt(cs, candles, i), strategies, m).Keys == m.Keys
    ensures NoneBoth(Apply(StepAt(cs, candles, i), strategies, m))
  {
    if strategies != [] {
      var init, s := strategies[..|strategies| - 1], strategies[|strategies| - 1];
      ApplyKeepsShape(cs, candles, init, i, m);
      StepNeverBoth(cs, candles, s, i, At(Apply(StepAt(cs, candles, i), init, m), s));
    }
  }

  method WalkCandle(cs: Callees, candles: seq<Candle>, strategies: seq<string>, i: nat,
                    stats: map<string, StrategyStats>, pending: map<string, Option<Setup>>,
                    active: map<string, Option<Trade>>, ghost m: Joint)
    returns (pending': map<string, Option<Setup>>, active': map<string, Option<Trade>>)
    requires i < |candles| && (forall s :: s in strategies ==> s in m)
    requires Holds(stats, pending, active, m) && NoneBoth(m)
    modifies stats.Values
    ensures Holds(stats, pending', active', Apply(StepAt(cs, candles, i), strategies, m))
  {
    pending', active' := pending, active;
    ghost var now := m;
    for k := 0 to |strategies|
      invariant now == Apply(StepAt(cs, candles, i), strategies[..k], m)
      invariant now.Keys == m.Keys && NoneBoth(now) && Holds(stats, pending', active', now)
    {
      ghost var next := Apply(StepAt(cs, candles, i), strategies[..k + 1], m);
      ApplyNext(StepAt(cs, candles, i), strategies, k, m);
      ApplyKeepsShape(cs, candles, strategies[..k + 1], i, m);
      pending', active' := StepOne(cs, candles, strategies[k], i, stats, pending', active', now, next);
      now := next;
    }
    assert strategies[..|strategies|] == strategies;
  }

  method BookOne(candles: seq<Candle>, strategy: string, stats: map<string, StrategyStats>,
                 pending: map<string, Option<Setup>>, active: map<string, Option<Trade>>,
                 ghost m: Joint, ghost next: Joint)
    requires strategy in m && Holds(stats, pending, active, m)
    requires next == m[strategy := CloseAt(candles)(strategy, At(m, strategy))]
    modifies stats.Values
    ensures Holds(stats, pending, active, next)
  {
    stats[strategy].BookRemaining(candles, pending[strategy], active[strategy]);
  }

  method BookAll(candles: seq<Candle>, strategies: seq<string>, stats: map<string, StrategyStats>,
                 pending: map<string, Option<Setup>>, active: map<string, Option<Trade>>, ghost m: Joint)
    requires (forall s :: s in strategies ==> s in m) && Holds(stats, pending, active, m)
    modifies stats.Values
    ensures Holds(stats, pending, active, Apply(CloseAt(candles), strategies, m))
  {
    ghost var f, now := CloseAt(candles), m;
    for k := 0 to |strategies|
      invariant now == Apply(f, strategies[..k], m) && now.Keys == m.Keys && Holds(stats, pending, active, now)
    {
      ghost var next := Apply(f, strategies[..k + 1], m);
      ApplyNext(f, strategies, k, m);
      BookOne(candles, strategies[k], stats, pending, active, now, next);
      now := next;
    }
    assert strategies[..|strategies|] == strategies;
  }

  method WalkAll(cs: Callees, candles: seq<Candle>, strategies: seq<string>, stats: map<string, StrategyStats>,
                 pending: map<string, Option<Setup>>, active: map<string, Option<Trade>>)
    returns (pending': map<string, Option<Setup>>, active': map<string, Option<Trade>>)
    requires Holds(stats, pending, active, JointStart(strategies))
    modifies stats.Values
    ensures Holds(stats, pending', active', JointWalk(cs, candles, strategies, |candles|))
  {
    pending', active' := pending, active;
    if |candles| <= WARMUP_CANDLES {
      return;
    }
    for i := WARMUP_CANDLES to |candles|
      invariant Holds(stats, pending', active', JointWalk(cs, candles, strategies, i))
    {
      ghost var m := JointWalk(cs, candles, strategies, i);
      JointWalkKeys(cs, candles, strategies, i);
      pending', active' := WalkCandle(cs, candles, strategies, i, stats, pending', active', m);
      JointWalkNext(cs, candles, strategies, i);
    }
  }

  lemma JointWalkNext(cs: Callees, candles: seq<Candle>, strategies: seq<string>, i: nat)
    requires WARMUP_CANDLES <= i < |candles|
    ensures JointWalk(cs, candles, strategies, i + 1)
            == Apply(StepAt(cs, candles, i), strategies, JointWalk(cs, candles, strategies, i))
  {
  }

  lemma {:induction false} JointWalkKeys(cs: Callees, candles: seq<Candle>, strategies: seq<string>, n: nat)
    requires n <= |candles|
    ensures JointWalk(cs, candles, strategies, n).Keys == JointStart(strategies).Keys
    ensures NoneBoth(JointWalk(cs, candles, strategies, n))
    decreases n
  {
    if n > WARMUP_CANDLES {
      JointWalkKeys(cs, candles, strategies, n - 1);
      ApplyKeepsShape(cs, candles, strategies, n - 1, JointWalk(cs, candles, strategies, n - 1));
    }
  }

  /** The backtest: the objects returned hold the final state of the joint walk. */
  method RunBacktest(cs: Callees, candles: seq<Candle>, strategies: seq<string>)
    returns (stats: map<string, StrategyStats>)
    ensures stats.Keys == JointFinal(cs, candles, strategies).Keys
    ensures forall s :: s in stats ==>
              fresh(stats[s]) && stats[s].Value() == JointFinal(cs, candles, strategies)[s].tally
  {
    var pending, active;
    stats, pending, active := NewStats(strategies);
    pending, active := WalkAll(cs, candles, strategies, stats, pending, active);
    JointWalkKeys(cs, candles, strategies, |candles|);
    BookAll(candles, strategies, stats, pending, active, JointWalk(cs, candles, strategies, |candles|));
  }

  // ---------------------------------------------------------------------
  // Accounting: nothing is dropped
  // ---------------------------------------------------------------------

  /** Every decision and every confirmation sits in exactly one bucket, and the lists match the counters. */
  ghost predicate Balanced(y: Tally, pending: nat, open: nat) {
    && y.setups.decisionsGenerated == y.setups.confirmed + y.setups.expiredNoTouch
                                      + y.setups.expiredTouchedUnconfirmed + pending
    && y.setups.confirmed == y.setups.confirmedAtWindowEnd + y.trades.wins + y.trades.losses
                             + y.trades.ambiguous + y.trades.unresolved + open
    && y.setups.levelTouched == y.setups.confirmed + y.setups.expiredTouchedUnconfirmed
    && |y.trades.tradePnl| == |y.trades.tradeR| == y.trades.wins + y.trades.losses
    && |y.trades.censoredPnl| == y.trades.unresolved + y.trades.openAtWindowEnd
  }

  /** After candles ..n-1: the books balance, nothing is both pending and active, a setup outlives its
      decision by at most its validity, and a trade entered at the open of its entry candle stays open
      for at most the hold limit. */
  ghost predicate Sound(candles: seq<Candle>, s: State, n: nat) {
    && Balanced(s.tally, Count(s.pending.Some?), Count(s.active.Some?))
    && s.tally.setups.pendingAtWindowEnd == 0 && s.tally.trades.openAtWindowEnd == 0
    && (s.tally.setups.confirmedAtWindowEnd > 0 ==> n == |candles|)
    && (s.active.Some? ==> s.pending.None? && SoundTrade(candles, s.active.value, n))
    && (s.pending.Some? ==> n <= s.pending.value.expiryIndex < n + SETUP_VALIDITY_CANDLES)
  }

  ghost predicate SoundTrade(candles: seq<Candle>, t: Trade, n: nat) {
    && t.entryIndex <= n <= t.deadlineIndex == t.entryIndex + MAX_HOLD_CANDLES
    && t.entryIndex < |candles| && t.entryPrice == candles[t.entryIndex].open
  }

  lemma StepKeepsSound(cs: Callees, candles: seq<Candle>, strategy: string, i: nat, s: State)
    requires i < |candles| && (Sound(candles, s, i) || Sound(candles, s, i + 1))
    ensures Sound(candles, Step(cs, candles, strategy, i, s), i + 1)
  {
    if s.active.Some? {
      StepActiveKeepsSound(candles, i, s);
    } else if s.pending.Some? {
      StepPendingKeepsSound(cs, candles, i, s);
    } else {
      StepIdleKeepsSound(cs, candles, strategy, i, s);
    }
  }

  lemma StepActiveKeepsSound(candles: seq<Candle>, i: nat, s: State)
    requires i < |candles| && (Sound(candles, s, i) || Sound(candles, s, i + 1)) && s.active.Some?
    ensures Sound(candles, StepActive(candles[i], i, s), i + 1)
  {
  }

  lemma StepPendingKeepsSound(cs: Callees, candles: seq<Candle>, i: nat, s: State)
    requires i < |candles| && (Sound(candles, s, i) || Sound(candles, s, i + 1)) && s.active.None? && s.pending.Some?
    ensures Sound(candles, StepPending(cs, candles, i, s), i + 1)
  {
  }

  lemma StepIdleKeepsSound(cs: Callees, candles: seq<Candle>, strategy: string, i: nat, s: State)
    requires i < |candles| && (Sound(candles, s, i) || Sound(candles, s, i + 1)) && s.active.None? && s.pending.None?
    ensures Sound(candles, StepIdle(cs, candles, strategy, i, s), i + 1)
  {
  }

  lemma {:induction false} RepeatKeepsSound(cs: Callees, candles: seq<Candle>, strategy: string, i: nat, times: nat,
                                            s: State)
    requires i < |candles| && Sound(candles, s, i)
    ensures times > 0 ==> Sound(candles, Repeat(StepAt(cs, candles, i), strategy, times, s), i + 1)
    decreases times
  {
    if times > 0 {
      RepeatKeepsSound(cs, candles, strategy, i, times - 1, s);
      StepKeepsSound(cs, candles, strategy, i, Repeat(StepAt(cs, candles, i), strategy, times - 1, s));
    }
  }

  lemma {:induction false} WalkIsSound(cs: Callees, candles: seq<Candle>, strategy: string, times: nat, n: nat)
    requires n <= |candles| && times > 0
    ensures Sound(candles, Walk(cs, candles, strategy, times, n), n)
    decreases n
  {
    if n > WARMUP_CANDLES {
      WalkIsSound(cs, candles, strategy, times, n - 1);
      RepeatKeepsSound(cs, candles, strategy, n - 1, times, Walk(cs, candles, strategy, times, n - 1));
    }
  }

  /** The identities the reported figures must satisfy. */
  ghost predicate Reconciles(y: Tally) {
    Balanced(y, y.setups.pendingAtWindowEnd, y.trades.openAtWindowEnd)
  }

  lemma {:induction false} RepeatedClose(candles: seq<Candle>, strategy: string, times: nat, s: State)
    requires s.active.Some? ==> candles != []
    ensures var c := Repeat(CloseAt(candles), strategy, times, s);
            var p, o := if s.pending.Some? then times else 0, if s.active.Some? then times else 0;
            && c.pending == s.pending && c.active == s.active
            && c.tally.setups == s.tally.setups.(pendingAtWindowEnd := s.tally.setups.pendingAtWindowEnd + p)
            && c.tally.trades == s.tally.trades.(openAtWindowEnd := s.tally.trades.openAtWindowEnd + o,
                                                 censoredPnl := c.tally.trades.censoredPnl)
            && |c.tally.trades.censoredPnl| == |s.tally.trades.censoredPnl| + o
    decreases times
  {
    if times > 0 {
      RepeatedClose(candles, strategy, times - 1, s);
    }
  }

  lemma CloseReconcilesIff(candles: seq<Candle>, strategy: string, times: nat, last: State)
    requires times > 0 && Sound(candles, last, |candles|)
    ensures Reconciles(Repeat(CloseAt(candles), strategy, times, last).tally)
            <==> times == 1 || (last.pending.None? && last.active.None?)
  {
    RepeatedClose(candles, strategy, times, last);
  }

  /** The report of a strategy that is listed reconciles exactly when it is listed once, or when it has
      nothing left open at the end (a repeated name books its remainder once per mention). */
  lemma AccountingIff(cs: Callees, candles: seq<Candle>, strategy: string, times: nat)
    requires times > 0
    ensures var last := Walk(cs, candles, strategy, times, |candles|);
            Reconciles(Final(cs, candles, strategy, times).tally)
            <==> times == 1 || (last.pending.None? && last.active.None?)
  {
    WalkIsSound(cs, candles, strategy, times, |candles|);
    CloseReconcilesIff(candles, strategy, times, Walk(cs, candles, strategy, times, |candles|));
  }

  /** The accounting identities hold for every strategy of a joint run with distinct strategies. */
  lemma JointAccounting(cs: Callees, candles: seq<Candle>, strategies: seq<string>, s: string)
    requires Distinct(strategies) && s in strategies
    ensures Reconciles(At(JointFinal(cs, candles, strategies), s).tally)
  {
    JointRunIsPointwise(cs, candles, strategies, s);
    DistinctOccursOnce(strategies, s);
    AccountingIff(cs, candles, s, 1);
  }

  /** One grid, offered always. */
  const PLAIN_GRID: Grid := RawGrid([1.0], [2.0], 0.0, 3.0, 1.0)

  /** A planner that always offers the grid, and an engine that always or never confirms. */
  function PlainCallees(confirms: bool): Callees {
    Callees((window, strategy) => Some(PLAIN_GRID), (window, direction, level, low, high) => confirms)
  }

  const FLAT_CANDLE := Candle(1.0, 1.0, 1.0, 1.0)

  /** n equal candles. */
  function Flat(n: nat): (candles: seq<Candle>)
    ensures |candles| == n && forall k :: 0 <= k < n ==> candles[k] == FLAT_CANDLE
  {
    seq(n, _ => FLAT_CANDLE)
  }

  const PLAIN_SETUP := Setup(PLAIN_GRID, 1.0, Bullish, 0.85, 1.15, 64, false)

  const ONE_DECISION := EMPTY_TALLY.(setups := EMPTY_TALLY.setups.(decisionsGenerated := 1))

  /** The first walked candle gives rise to a setup. */
  lemma FirstSetup(confirms: bool, candles: seq<Candle>, strategy: string)
    requires |candles| > 60 && candles[60] == FLAT_CANDLE
    ensures Step(PlainCallees(confirms), candles, strategy, 60, IDLE)
            == State(ONE_DECISION, Some(PLAIN_SETUP), None)
  {
    assert Closest([1.0], 1.0) == 1.0 && Closest([2.0], 1.0) == 2.0;
    assert NearestGridLevel(PLAIN_GRID, 1.0) == (1.0, Bullish);
  }

  /** A second and any further mention of the strategy leaves the unconfirmed setup waiting. */
  lemma {:induction false} RepeatedSetupWaits(strategy: string, times: nat)
    requires times > 0
    ensures Repeat(StepAt(PlainCallees(false), Flat(61), 60), strategy, times, IDLE).pending
            == Some(PLAIN_SETUP.(touched := times > 1))
    ensures Repeat(StepAt(PlainCallees(false), Flat(61), 60), strategy, times, IDLE)
              .active.None?
    decreases times
  {
    if times == 1 {
      FirstSetup(false, Flat(61), strategy);
      assert Repeat(StepAt(PlainCallees(false), Flat(61), 60), strategy, 0, IDLE) == IDLE;
    } else {
      RepeatedSetupWaits(strategy, times - 1);
    }
  }

  /** Whatever the candles and the callees, a listed strategy's report reconciles exactly when it is listed once. */
  lemma ListedOnceIff(strategies: seq<string>, s: string)
    requires s in strategies
    ensures (forall cs, candles :: Reconciles(At(JointFinal(cs, candles, strategies), s).tally))
            <==> Occurrences(strategies, s) == 1
  {
    var times := Occurrences(strategies, s);
    OccursWhenListed(strategies, s);
    forall cs, candles | times == 1 ensures Reconciles(At(JointFinal(cs, candles, strategies), s).tally) {
      JointRunIsPointwise(cs, candles, strategies, s);
      AccountingIff(cs, candles, s, times);
    }
    if times > 1 {
      RepeatedNameFails(strategies, s);
    }
  }

  /** The failure: one more candle than the warm-up, a setup that is never confirmed, and a repeated name. */
  lemma RepeatedNameFails(strategies: seq<string>, s: string)
    requires Occurrences(strategies, s) > 1
    ensures !Reconciles(At(JointFinal(PlainCallees(false), Flat(61), strategies), s).tally)
  {
    var cs, candles, times := PlainCallees(false), Flat(61), Occurrences(strategies, s);
    JointRunIsPointwise(cs, candles, strategies, s);
    RepeatedSetupWaits(s, times);
    assert Walk(cs, candles, s, times, 60) == IDLE;
    AccountingIff(cs, candles, s, times);
  }

  lemma {:induction false} OccursWhenListed(strategies: seq<string>, s: string)
    requires s in strategies
    ensures Occurrences(strategies, s) >= 1
  {
    var n := |strategies| - 1;
    if strategies[n] != s {
      OccursWhenListed(strategies[..n], s);
    }
  }

  /** Given the state before the last candle, a setup is confirmed there, with no next candle to enter on. */
  predicate ConfirmsLast(cs: Callees, candles: seq<Candle>, s: State)
    requires candles != []
  {
    s.active.None? && s.pending.Some? && Confirms(cs, candles, |candles| - 1, s.pending.value)
  }

  function Confirmations(y: Trades): nat {
    y.wins + y.losses + y.ambiguous + y.unresolved + y.openAtWindowEnd
  }

  lemma LastStepReconciles(cs: Callees, candles: seq<Candle>, strategy: string, s: State, last: State, y: Tally)
    requires candles != [] && Sound(candles, s, |candles| - 1)
    requires last == Step(cs, candles, strategy, |candles| - 1, s) && y == Close(candles, last).tally
    ensures y.setups.confirmed == Confirmations(y.trades) <==> !ConfirmsLast(cs, candles, s)
  {
    StepKeepsSound(cs, candles, strategy, |candles| - 1, s);
  }

  lemma FinalIsClosed(cs: Callees, candles: seq<Candle>, strategy: string, last: State)
    requires last == Walk(cs, candles, strategy, 1, |candles|)
    ensures Final(cs, candles, strategy, 1) == Close(candles, last)
  {
    assert Repeat(CloseAt(candles), strategy, 0, last) == last;
  }

  lemma LastStep(cs: Callees, candles: seq<Candle>, strategy: string, s: State, y: Tally) returns (last: State)
    requires |candles| > WARMUP_CANDLES && s == Walk(cs, candles, strategy, 1, |candles| - 1)
    requires y == Final(cs, candles, strategy, 1).tally
    ensures Sound(candles, s, |candles| - 1) && last == Step(cs, candles, strategy, |candles| - 1, s)
    ensures y == Close(candles, last).tally
  {
    last := Walk(cs, candles, strategy, 1, |candles|);
    FinalIsClosed(cs, candles, strategy, last);
    WalkIsSound(cs, candles, strategy, 1, |candles| - 1);
    OneStep(cs, candles, strategy, |candles| - 1);
  }

  /** Confirmed trades are closed, ambiguous or censored, as the comment on the end of the run has it, exactly when
      no setup is confirmed on the last candle. */
  lemma ConfirmedTradesReconcileIff(cs: Callees, candles: seq<Candle>, strategy: string, s: State, y: Tally)
    requires |candles| > WARMUP_CANDLES && s == Walk(cs, candles, strategy, 1, |candles| - 1)
    requires y == Final(cs, candles, strategy, 1).tally
    ensures y.setups.confirmed == Confirmations(y.trades) <==> !ConfirmsLast(cs, candles, s)
  {
    var last := LastStep(cs, candles, strategy, s, y);
    LastStepReconciles(cs, candles, strategy, s, last, y);
  }

  /** It does happen: a setup born on the first walked candle is confirmed on the second and last one. */
  lemma LastCandleConfirmation(strategy: string)
    ensures var y := Final(PlainCallees(true), Flat(62), strategy, 1).tally;
            && y.setups.confirmed == 1 && y.trades.wins + y.trades.losses + y.trades.ambiguous == 0
            && y.trades.unresolved + y.trades.openAtWindowEnd == 0
  {
    var cs, candles := PlainCallees(true), Flat(62);
    FirstSetup(true, candles, strategy);
    assert Walk(cs, candles, strategy, 1, 60) == IDLE;
    OneStep(cs, candles, strategy, 60);
    OneStep(cs, candles, strategy, 61);
    RepeatedClose(candles, strategy, 1, Walk(cs, candles, strategy, 1, 62));
  }

  /** With reconciled books the reported rates are proper shares. */
  lemma RatesAreShares(y: Tally)
    requires Reconciles(y) && y.setups.decisionsGenerated > 0
    ensures var d := y.setups.decisionsGenerated;
            && 0.0 <= Ratio(y.setups.confirmed, d).value <= Ratio(y.setups.levelTouched, d).value <= 1.0
            && Ratio(y.setups.confirmed, d).value
               + Ratio(y.setups.expiredNoTouch + y.setups.expiredTouchedUnconfirmed, d).value <= 1.0
    ensures y.trades.wins + y.trades.losses > 0 ==>
              Ratio(y.trades.wins, y.trades.wins + y.trades.losses).value
              + Ratio(y.trades.losses, y.trades.wins + y.trades.losses).value == 1.0
  {
    var d := y.setups.decisionsGenerated;
    ShareOrder(y.setups.confirmed, y.setups.levelTouched, d);
    ShareSum(y.setups.confirmed, y.setups.expiredNoTouch + y.setups.expiredTouchedUnconfirmed, d);
    if y.trades.wins + y.trades.losses > 0 {
      ShareSum(y.trades.wins, y.trades.losses, y.trades.wins + y.trades.losses);
    }
  }

  lemma ShareOrder(a: nat, b: nat, d: nat)
    requires a <= b <= d && d > 0
    ensures 0.0 <= a as real / d as real <= b as real / d as real <= 1.0
  {
    QuotientOrder(0.0, a as real, d as real);
    QuotientOrder(a as real, b as real, d as real);
    QuotientOrder(b as real, d as real, d as real);
  }

  lemma QuotientOrder(x: real, y: real, d: real)
    requires x <= y && d > 0.0
    ensures x / d <= y / d && 0.0 / d == 0.0 && d / d == 1.0
  {
    var p, q := x / d, y / d;
    assert p * d == x && q * d == y;
    if p > q {
      Positive(p - q, d);
    }
  }

  lemma Positive(x: real, y: real)
    requires x > 0.0 && y > 0.0
    ensures x * y > 0.0
  {
  }

  lemma ShareSum(a: nat, b: nat, d: nat)
    requires d > 0
    ensures a as real / d as real + b as real / d as real == (a + b) as real / d as real
    ensures a + b <= d ==> (a + b) as real / d as real <= 1.0
    ensures a + b == d ==> (a + b) as real / d as real == 1.0
  {
    QuotientSum(a as real, b as real, d as real);
    if a + b <= d {
      QuotientOrder((a + b) as real, d as real, d as real);
    }
  }

  lemma QuotientSum(x: real, y: real, d: real)
    requires d > 0.0
    ensures x / d + y / d == (x + y) / d
  {
    var p, q, r := x / d, y / d, (x + y) / d;
    assert p * d == x && q * d == y && r * d == x + y;
    assert (p + q) * d == r * d;
  }

  // ---------------------------------------------------------------------
  // Causality: no look-ahead
  // ---------------------------------------------------------------------

  /** The two series agree on candles ..n-1 and on whether a candle n exists. */
  ghost predicate SamePast(c: seq<Candle>, d: seq<Candle>, n: nat) {
    && n <= |c| && n <= |d| && c[..n] == d[..n] && (n < |c| <==> n < |d|)
  }

  ghost predicate SameNextOpen(c: seq<Candle>, d: seq<Candle>, n: nat) {
    n < |c| && n < |d| ==> c[n].open == d[n].open
  }

  lemma StepIsCausal(cs: Callees, c: seq<Candle>, d: seq<Candle>, strategy: string, i: nat, s: State)
    requires SamePast(c, d, i + 1) && SameNextOpen(c, d, i + 1)
    ensures Step(cs, c, strategy, i, s) == Step(cs, d, strategy, i, s)
  {
    assert c[i] == c[..i + 1][i] == d[i];
  }

  lemma {:induction false} RepeatIsCausal(cs: Callees, c: seq<Candle>, d: seq<Candle>, strategy: string, i: nat,
                                          times: nat, s: State)
    requires SamePast(c, d, i + 1) && SameNextOpen(c, d, i + 1)
    ensures Repeat(StepAt(cs, c, i), strategy, times, s) == Repeat(StepAt(cs, d, i), strategy, times, s)
    decreases times
  {
    if times > 0 {
      RepeatIsCausal(cs, c, d, strategy, i, times - 1, s);
      StepIsCausal(cs, c, d, strategy, i, Repeat(StepAt(cs, c, i), strategy, times - 1, s));
    }
  }

  lemma SamePastEarlier(c: seq<Candle>, d: seq<Candle>, n: nat)
    requires n > 0 && SamePast(c, d, n)
    ensures SamePast(c, d, n - 1) && SameNextOpen(c, d, n - 1)
  {
  }

  /** Everything known after candle n-1 depends only on candles ..n-1, on whether there is a next
      candle, and on its open. */
  lemma {:induction false} WalkIsCausal(cs: Callees, c: seq<Candle>, d: seq<Candle>, strategy: string, times: nat,
                                        n: nat)
    requires SamePast(c, d, n) && SameNextOpen(c, d, n)
    ensures Walk(cs, c, strategy, times, n) == Walk(cs, d, strategy, times, n)
    decreases n
  {
    if n > WARMUP_CANDLES {
      SamePastEarlier(c, d, n);
      WalkIsCausal(cs, c, d, strategy, times, n - 1);
      RepeatIsCausal(cs, c, d, strategy, n - 1, times, Walk(cs, c, strategy, times, n - 1));
    }
  }

  lemma EarlierWalksAgree(cs: Callees, c: seq<Candle>, d: seq<Candle>, strategy: string, n: nat, s: State)
    requires n > 0 && SamePast(c, d, n) && s == Walk(cs, c, strategy, 1, n - 1)
    ensures s == Walk(cs, d, strategy, 1, n - 1)
  {
    SamePastEarlier(c, d, n);
    WalkIsCausal(cs, c, d, strategy, 1, n - 1);
  }

  /** The states differ at most in the entry price of a trade entered at candle n. */
  ghost predicate SameButEntryPrice(s: State, t: State, n: nat) {
    && s.tally == t.tally && s.pending == t.pending
    && (s.active != t.active ==>
        && s.active.Some? && t.active.Some? && s.active.value.entryIndex == n
        && s.active.value.(entryPrice := 0.0) == t.active.value.(entryPrice := 0.0))
  }

  lemma StepBarNextOpen(cs: Callees, c: seq<Candle>, d: seq<Candle>, strategy: string, i: nat, s: State,
                        a: State, b: State)
    requires SamePast(c, d, i + 1) && a == Step(cs, c, strategy, i, s) && b == Step(cs, d, strategy, i, s)
    ensures SameButEntryPrice(a, b, i + 1)
  {
    assert c[i] == c[..i + 1][i] == d[i];
    if s.active.None? && s.pending.Some? {
      assert Confirms(cs, c, i, s.pending.value) == Confirms(cs, d, i, s.pending.value);
    }
  }

  /** Even the next open reaches nothing but the entry price of a trade confirmed on the last candle i. (Before
      the first walked candle nothing has happened at all.) */
  lemma OpenOnlyPricesEntry(cs: Callees, c: seq<Candle>, d: seq<Candle>, strategy: string, i: nat, s: State,
                            a: State, b: State)
    requires i >= WARMUP_CANDLES && SamePast(c, d, i + 1) && s == Walk(cs, c, strategy, 1, i)
    requires a == Walk(cs, c, strategy, 1, i + 1) && b == Walk(cs, d, strategy, 1, i + 1)
    ensures SameButEntryPrice(a, b, i + 1)
  {
    EarlierWalksAgree(cs, c, d, strategy, i + 1, s);
    OneStep(cs, c, strategy, i);
    OneStep(cs, d, strategy, i);
    StepBarNextOpen(cs, c, d, strategy, i, s, a, b);
  }

  lemma OneStep(cs: Callees, candles: seq<Candle>, strategy: string, i: nat)
    requires WARMUP_CANDLES <= i < |candles|
    ensures Walk(cs, candles, strategy, 1, i + 1) == Step(cs, candles, strategy, i, Walk(cs, candles, strategy, 1, i))
  {
  }

  // ---------------------------------------------------------------------
  // Life of a setup and of a trade
  // ---------------------------------------------------------------------

  /** A trade opens only on a confirmed pending setup, and then at the next candle's open. */
  lemma TradeEntry(cs: Callees, candles: seq<Candle>, strategy: string, i: nat)
    requires WARMUP_CANDLES <= i < |candles|
    ensures var s, t := Walk(cs, candles, strategy, 1, i), Walk(cs, candles, strategy, 1, i + 1);
            s.active.None? && t.active.Some? <==>
            && s.active.None? && s.pending.Some? && i + 1 < |candles|
            && var p := s.pending.value;
               && candles[i].low <= p.zoneHigh && candles[i].high >= p.zoneLow
               && cs.confirms(candles[..i + 1], p.direction, p.level, p.zoneLow, p.zoneHigh)
    ensures var s, t := Walk(cs, candles, strategy, 1, i), Walk(cs, candles, strategy, 1, i + 1);
            s.active.None? && t.active.Some? ==>
            && t.pending.None? && t.active.value.direction == s.pending.value.direction
            && t.active.value.entryIndex == i + 1 && t.active.value.entryPrice == candles[i + 1].open
            && t.active.value.deadlineIndex == i + 1 + 96
            && (if t.active.value.direction == Bullish then
                  && t.active.value.target == s.pending.value.grid.sellLevels[0]
                  && t.active.value.invalidation == s.pending.value.grid.lowerInvalidation
                else
                  && t.active.value.target == s.pending.value.grid.buyLevels[0]
                  && t.active.value.invalidation == s.pending.value.grid.upperInvalidation)
  {
  }

  /** A setup is born only when nothing else is open and the planner has a grid; it waits at the level nearest
      to the close, inside a zone symmetric about it, and any earlier touch is forgotten. */
  lemma SetupBirth(cs: Callees, candles: seq<Candle>, strategy: string, i: nat)
    requires WARMUP_CANDLES <= i < |candles|
    ensures var s, t := Walk(cs, candles, strategy, 1, i), Walk(cs, candles, strategy, 1, i + 1);
            s.pending.None? && t.pending.Some? <==>
            s.pending.None? && s.active.None? && cs.plan(candles[..i + 1], strategy).Some?
    ensures var s, t := Walk(cs, candles, strategy, 1, i), Walk(cs, candles, strategy, 1, i + 1);
            s.pending.None? && t.pending.Some? ==>
              IsNewSetup(t.pending.value, cs.plan(candles[..i + 1], strategy).value, candles[i].close, i)
    ensures var s, t := Walk(cs, candles, strategy, 1, i), Walk(cs, candles, strategy, 1, i + 1);
            var idle, grid := s.active.None? && s.pending.None?, cs.plan(candles[..i + 1], strategy);
            && t.tally.setups.decisionsGenerated == s.tally.setups.decisionsGenerated + Count(idle && grid.Some?)
            && t.tally.setups.gridUnavailable == s.tally.setups.gridUnavailable + Count(idle && grid.None?)
  {
    OneStep(cs, candles, strategy, i);
    StepBirth(cs, candles, strategy, i, Walk(cs, candles, strategy, 1, i));
  }

  lemma StepBirth(cs: Callees, candles: seq<Candle>, strategy: string, i: nat, s: State)
    requires i < |candles|
    ensures var t := Step(cs, candles, strategy, i, s);
            && (s.pending.None? && t.pending.Some? <==>
                s.pending.None? && s.active.None? && cs.plan(candles[..i + 1], strategy).Some?)
            && (s.pending.None? && t.pending.Some? ==>
                  IsNewSetup(t.pending.value, cs.plan(candles[..i + 1], strategy).value, candles[i].close, i))
    ensures var t := Step(cs, candles, strategy, i, s);
            var idle, grid := s.active.None? && s.pending.None?, cs.plan(candles[..i + 1], strategy);
            && t.tally.setups.decisionsGenerated == s.tally.setups.decisionsGenerated + Count(idle && grid.Some?)
            && t.tally.setups.gridUnavailable == s.tally.setups.gridUnavailable + Count(idle && grid.None?)
  {
  }

  ghost predicate IsNewSetup(p: Setup, grid: Grid, close: real, i: nat) {
    && p.grid == grid && !p.touched && p.expiryIndex == i + 4
    && p.level in (if p.direction == Bullish then grid.buyLevels else grid.sellLevels)
    && (forall l :: l in grid.buyLevels || l in grid.sellLevels ==> Abs(close - p.level) <= Abs(close - l))
    && (p.direction == Bearish ==> forall l :: l in grid.buyLevels ==> Abs(close - p.level) < Abs(close - l))
    && p.zoneHigh - p.level == p.level - p.zoneLow == 0.15 * grid.spacing
  }

  /** How many closed trades lost. */
  function Losing(rs: seq<real>): nat {
    if rs == [] then 0 else Losing(rs[..|rs| - 1]) + Count(rs[|rs| - 1] < 0.0)
  }

  /** The result lists tell wins from losses: exactly the losses carry a negative R, which is then -1 with no
      positive pnl, and all others a nonnegative pnl. */
  ghost predicate Outcomes(y: Trades) {
    && |y.tradePnl| == |y.tradeR| == y.wins + y.losses && Losing(y.tradeR) == y.losses
    && TellsLosses(y.tradePnl, y.tradeR)
  }

  ghost predicate TellsLosses(pnl: seq<real>, rs: seq<real>)
    requires |pnl| == |rs|
  {
    forall k :: 0 <= k < |rs| ==> if rs[k] < 0.0 then rs[k] == -1.0 && pnl[k] <= 0.0 else pnl[k] >= 0.0
  }

  lemma LosingSnoc(rs: seq<real>, r: real)
    ensures Losing(rs + [r]) == Losing(rs) + Count(r < 0.0)
  {
  }

  lemma NonNegativeRatio(reward: real, risk: real)
    requires reward >= 0.0 && risk >= 0.0
    ensures RMultiple(reward, risk) >= 0.0
  {
    if risk > 0.0 {
      QuotientOrder(0.0, reward, risk);
    }
  }

  /** Booking one more closed trade, a win or a loss. */
  lemma OutcomesSnoc(y: Trades, z: Trades, p: real, r: real)
    requires Outcomes(y) && z.tradePnl == y.tradePnl + [p] && z.tradeR == y.tradeR + [r]
    requires z.wins == y.wins + Count(r >= 0.0) && z.losses == y.losses + Count(r < 0.0)
    requires if r < 0.0 then r == -1.0 && p <= 0.0 else p >= 0.0
    ensures Outcomes(z)
  {
    LosingSnoc(y.tradeR, r);
    EntriesSnoc(y.tradePnl, y.tradeR, p, r);
  }

  lemma ResolveKeepsOutcomes(t: Trade, c: Candle, i: nat, y: Trades)
    requires Outcomes(y) && Resolve(t, c, i, y).Some?
    ensures Outcomes(Resolve(t, c, i, y).value)
  {
    var z := Resolve(t, c, i, y).value;
    var risk, reward := Abs(t.entryPrice - t.invalidation), Abs(t.target - t.entryPrice);
    NonNegativeRatio(reward, risk);
    if z.wins > y.wins {
      OutcomesSnoc(y, z, reward, RMultiple(reward, risk));
    } else if z.losses > y.losses {
      OutcomesSnoc(y, z, -risk, -1.0);
    }
  }

  lemma EntriesSnoc(pnl: seq<real>, rs: seq<real>, p: real, r: real)
    requires |pnl| == |rs| && TellsLosses(pnl, rs)
    ensures (if r < 0.0 then r == -1.0 && p <= 0.0 else p >= 0.0) ==> TellsLosses(pnl + [p], rs + [r])
  {
  }

  lemma StepKeepsOutcomes(cs: Callees, candles: seq<Candle>, strategy: string, i: nat, s: State)
    requires i < |candles| && Outcomes(s.tally.trades)
    ensures Outcomes(Step(cs, candles, strategy, i, s).tally.trades)
  {
    if s.active.Some? && Resolve(s.active.value, candles[i], i, s.tally.trades).Some? {
      ResolveKeepsOutcomes(s.active.value, candles[i], i, s.tally.trades);
    }
  }

  lemma {:induction false} RepeatKeepsOutcomes(cs: Callees, candles: seq<Candle>, strategy: string, i: nat,
                                               times: nat, s: State)
    requires i < |candles| && Outcomes(s.tally.trades)
    ensures Outcomes(Repeat(StepAt(cs, candles, i), strategy, times, s).tally.trades)
    decreases times
  {
    if times > 0 {
      RepeatKeepsOutcomes(cs, candles, strategy, i, times - 1, s);
      StepKeepsOutcomes(cs, candles, strategy, i, Repeat(StepAt(cs, candles, i), strategy, times - 1, s));
    }
  }

  /** In every run the counters of wins and losses are those of the result lists. */
  lemma {:induction false} WalkOutcomes(cs: Callees, candles: seq<Candle>, strategy: string, times: nat, n: nat)
    requires n <= |candles|
    ensures Outcomes(Walk(cs, candles, strategy, times, n).tally.trades)
    decreases n
  {
    if n > WARMUP_CANDLES {
      WalkOutcomes(cs, candles, strategy, times, n - 1);
      RepeatKeepsOutcomes(cs, candles, strategy, n - 1, times, Walk(cs, candles, strategy, times, n - 1));
    }
  }

  /** The candle stays strictly between the levels of the trade, before its deadline. */
  ghost predicate Quiet(t: Trade, candles: seq<Candle>, j: nat)
    requires j < |candles|
  {
    && j < t.deadlineIndex
    && if t.direction == Bullish then t.invalidation < candles[j].low && candles[j].high < t.target
       else t.target < candles[j].low && candles[j].high < t.invalidation
  }

  /** While neither level is hit and the deadline is not reached, nothing at all changes. */
  lemma {:induction false} QuietTradeStays(cs: Callees, candles: seq<Candle>, strategy: string, t: Trade, n: nat,
                                           k: nat)
    requires WARMUP_CANDLES <= n <= k <= |candles| && Walk(cs, candles, strategy, 1, n).active == Some(t)
    requires forall j :: n <= j < k ==> Quiet(t, candles, j)
    ensures Walk(cs, candles, strategy, 1, k) == Walk(cs, candles, strategy, 1, n)
    decreases k
  {
    if n < k {
      QuietTradeStays(cs, candles, strategy, t, n, k - 1);
      OneStep(cs, candles, strategy, k - 1);
      assert Quiet(t, candles, k - 1);
    }
  }

  function MirroredTrade(t: Trade): Trade {
    t.(entryPrice := -t.entryPrice, target := -t.target, invalidation := -t.invalidation,
       direction := if t.direction == Bullish then Bearish else Bullish)
  }

  /** The candle seen upside down: its low is the mirrored high. */
  function MirroredCandle(c: Candle): Candle {
    Candle(-c.open, -c.low, -c.high, -c.close)
  }

  /** A bearish trade is a bullish one seen upside down. */
  lemma BearishMirrorsBullish(t: Trade, c: Candle, i: nat, y: Trades)
    ensures Resolve(MirroredTrade(t), MirroredCandle(c), i, y) == Resolve(t, c, i, y)
  {
    assert Abs(-t.entryPrice - -t.invalidation) == Abs(t.entryPrice - t.invalidation);
    assert Abs(-t.target - -t.entryPrice) == Abs(t.target - t.entryPrice);
    assert MarkToMarket(MirroredTrade(t), -c.close) == MarkToMarket(t, c.close);
  }

  /** A trade is booked by the first candle, from its entry candle on, that hits a level or reaches the
      deadline; that candle alone decides the bucket. */
  lemma TradeEndsAtFirstHit(cs: Callees, candles: seq<Candle>, strategy: string, t: Trade, n: nat, k: nat)
    requires WARMUP_CANDLES <= n <= k < |candles| && Walk(cs, candles, strategy, 1, n).active == Some(t)
    requires (forall j :: n <= j < k ==> Quiet(t, candles, j)) && !Quiet(t, candles, k)
    ensures var s, e := Walk(cs, candles, strategy, 1, n), Walk(cs, candles, strategy, 1, k + 1);
            var y, z, c := s.tally.trades, e.tally.trades, candles[k];
            var target := if t.direction == Bullish then c.high >= t.target else c.low <= t.target;
            var stopped := if t.direction == Bullish then c.low <= t.invalidation else c.high >= t.invalidation;
            && e.active.None? && e.pending.None? && e.tally.setups == s.tally.setups
            && z.wins == y.wins + Count(target && !stopped) && z.losses == y.losses + Count(stopped && !target)
            && z.ambiguous == y.ambiguous + Count(target && stopped)
            && z.unresolved == y.unresolved + Count(!target && !stopped)
            && z.openAtWindowEnd == y.openAtWindowEnd
            && (target && stopped ==>
                  z.tradePnl == y.tradePnl && z.tradeR == y.tradeR && z.censoredPnl == y.censoredPnl)
            && (target != stopped ==> z.censoredPnl == y.censoredPnl)
  {
    WalkIsSound(cs, candles, strategy, 1, n);
    QuietTradeStays(cs, candles, strategy, t, n, k);
    OneStep(cs, candles, strategy, k);
  }

  /** A win books the distance to the target and a loss minus the distance to the invalidation. That is what the trade
      gained at the level exactly when the entry had not gapped past it. In multiples of the risk taken a loss is -1;
      a win is its reward over its risk, and 0 when the entry was at the invalidation. */
  lemma ClosedTradePnl(cs: Callees, candles: seq<Candle>, strategy: string, t: Trade, n: nat, k: nat)
    requires WARMUP_CANDLES <= n <= k < |candles| && Walk(cs, candles, strategy, 1, n).active == Some(t)
    requires (forall j :: n <= j < k ==> Quiet(t, candles, j))
    requires var target := if t.direction == Bullish then candles[k].high >= t.target else candles[k].low <= t.target;
             var stopped := if t.direction == Bullish then candles[k].low <= t.invalidation
                            else candles[k].high >= t.invalidation;
             target != stopped
    ensures var y := Walk(cs, candles, strategy, 1, n).tally.trades;
            var z := Walk(cs, candles, strategy, 1, k + 1).tally.trades;
            var won := if t.direction == Bullish then candles[k].high >= t.target else candles[k].low <= t.target;
            var level := if won then t.target else t.invalidation;
            var gain := if t.direction == Bullish then level - t.entryPrice else t.entryPrice - level;
            && |z.tradePnl| == |y.tradePnl| + 1 && z.tradePnl[..|y.tradePnl|] == y.tradePnl
            && Abs(z.tradePnl[|y.tradePnl|]) == Abs(gain)
            && (z.tradePnl[|y.tradePnl|] == gain <==> if won then gain >= 0.0 else gain <= 0.0)
            && |z.tradeR| == |y.tradeR| + 1 && z.tradeR[..|y.tradeR|] == y.tradeR
            && BooksMultiple(t, won, z.tradeR[|y.tradeR|])
  {
    QuietTradeStays(cs, candles, strategy, t, n, k);
    OneStep(cs, candles, strategy, k);
    ResolvedMultiple(t, candles[k], k, Walk(cs, candles, strategy, 1, n).tally.trades);
  }

  /** The R multiple of a closed trade. */
  predicate BooksMultiple(t: Trade, won: bool, m: real) {
    if !won then m == -1.0
    else if t.entryPrice == t.invalidation then m == 0.0
    else m * Abs(t.entryPrice - t.invalidation) == Abs(t.target - t.entryPrice)
  }

  lemma ResolvedMultiple(t: Trade, c: Candle, i: nat, y: Trades)
    requires HitsTarget(t, c) != HitsInvalidation(t, c)
    ensures var z := Resolve(t, c, i, y).value;
            && |z.tradeR| == |y.tradeR| + 1 && z.tradeR[..|y.tradeR|] == y.tradeR
            && BooksMultiple(t, HitsTarget(t, c), z.tradeR[|y.tradeR|])
  {
    var risk, reward := Abs(t.entryPrice - t.invalidation), Abs(t.target - t.entryPrice);
    if risk != 0.0 {
      assert RMultiple(reward, risk) * risk == reward;
    }
  }

  /** A trade that reaches its deadline untouched is marked at the close of that candle. */
  lemma TimedOutTrade(cs: Callees, candles: seq<Candle>, strategy: string, t: Trade, n: nat, k: nat)
    requires WARMUP_CANDLES <= n <= k < |candles| && Walk(cs, candles, strategy, 1, n).active == Some(t)
    requires (forall j :: n <= j < k ==> Quiet(t, candles, j)) && k >= t.deadlineIndex
    requires if t.direction == Bullish then t.invalidation < candles[k].low && candles[k].high < t.target
             else t.target < candles[k].low && candles[k].high < t.invalidation
    ensures var y := Walk(cs, candles, strategy, 1, n).tally.trades;
            var z := Walk(cs, candles, strategy, 1, k + 1).tally.trades;
            && z.censoredPnl == y.censoredPnl + [if t.direction == Bullish then candles[k].close - t.entryPrice
                                                 else t.entryPrice - candles[k].close]
            && z.tradePnl == y.tradePnl && z.tradeR == y.tradeR
  {
    QuietTradeStays(cs, candles, strategy, t, n, k);
    OneStep(cs, candles, strategy, k);
  }

  /** A trade still open after the last candle is marked at its close. */
  lemma OpenTradeMarked(cs: Callees, candles: seq<Candle>, strategy: string, t: Trade)
    requires candles != [] && Walk(cs, candles, strategy, 1, |candles|).active == Some(t)
    ensures var y := Walk(cs, candles, strategy, 1, |candles|).tally.trades;
            var close := candles[|candles| - 1].close;
            Final(cs, candles, strategy, 1).tally.trades.censoredPnl
            == y.censoredPnl + [if t.direction == Bullish then close - t.entryPrice else t.entryPrice - close]
  {
    FinalIsClosed(cs, candles, strategy, Walk(cs, candles, strategy, 1, |candles|));
  }

  /** Like the flat candles, but the last one opens above the target. */
  function Gapped(): (candles: seq<Candle>)
    ensures |candles| == 63
  {
    Flat(62) + [Candle(2.5, 2.5, 2.5, 2.5)]
  }

  /** It does happen: the entry gaps past the target, and what is booked as a gain was a loss at the target. */
  lemma GappedEntryBooksAWin(strategy: string)
    ensures var cs, c := PlainCallees(true), Gapped();
            var t := Walk(cs, c, strategy, 1, 62).active;
            && t.Some? && MarkToMarket(t.value, t.value.target) == -0.5
            && Walk(cs, c, strategy, 1, 63).tally.trades.tradePnl == [0.5]
  {
    var cs, c := PlainCallees(true), Gapped();
    FirstSetup(true, c, strategy);
    assert Walk(cs, c, strategy, 1, 60) == IDLE;
    OneStep(cs, c, strategy, 60);
    OneStep(cs, c, strategy, 61);
    OneStep(cs, c, strategy, 62);
  }

  /** A candle touches the zone exactly when some price is in both ranges. */
  lemma TouchMeans(p: Setup, c: Candle)
    requires c.low <= c.high && p.zoneLow <= p.zoneHigh
    ensures Touches(p, c) <==> exists x: real :: InRange(x, c.low, c.high) && InRange(x, p.zoneLow, p.zoneHigh)
  {
    if Touches(p, c) {
      var x := Max(c.low, p.zoneLow);
      assert InRange(x, c.low, c.high) && InRange(x, p.zoneLow, p.zoneHigh);
    }
  }

  predicate InRange(x: real, low: real, high: real) {
    low <= x <= high
  }

  ghost predicate TouchedIn(p: Setup, candles: seq<Candle>, n: nat, k: nat)
    requires k <= |candles|
  {
    exists j :: n <= j < k && Touches(p, candles[j])
  }

  lemma TouchedInNext(p: Setup, candles: seq<Candle>, n: nat, k: nat)
    requires n <= k < |candles|
    ensures TouchedIn(p, candles, n, k + 1) <==> TouchedIn(p, candles, n, k) || Touches(p, candles[k])
  {
  }

  ghost predicate Unconfirmed(cs: Callees, candles: seq<Candle>, p: Setup, n: nat, k: nat)
    requires k <= |candles|
  {
    forall j: nat :: n <= j < k ==> !Confirms(cs, candles, j, p)
  }

  /** Setup p is still waiting in state s, with the given memory of a touch. */
  ghost predicate Waits(s: State, y: Tally, p: Setup, touched: bool) {
    s == State(y, Some(p.(touched := touched)), None)
  }

  lemma WaitingStep(cs: Callees, candles: seq<Candle>, strategy: string, i: nat, s: State, y: Tally, p: Setup,
                    touched: bool)
    requires i < |candles| && Waits(s, y, p, touched) && !Confirms(cs, candles, i, p) && i < p.expiryIndex
    ensures Waits(Step(cs, candles, strategy, i, s), y, p, touched || Touches(p, candles[i]))
  {
  }

  lemma WalkWaits(cs: Callees, candles: seq<Candle>, strategy: string, i: nat, y: Tally, p: Setup, touched: bool)
    requires WARMUP_CANDLES <= i < |candles| && Waits(Walk(cs, candles, strategy, 1, i), y, p, touched)
    requires !Confirms(cs, candles, i, p) && i < p.expiryIndex
    ensures Waits(Walk(cs, candles, strategy, 1, i + 1), y, p, touched || Touches(p, candles[i]))
  {
    OneStep(cs, candles, strategy, i);
    WaitingStep(cs, candles, strategy, i, Walk(cs, candles, strategy, 1, i), y, p, touched);
  }

  /** A setup waits unchanged, remembering only whether its zone was touched, until it confirms or expires. */
  lemma {:induction false} SetupWaits(cs: Callees, candles: seq<Candle>, strategy: string, y: Tally, p: Setup, n: nat,
                                      k: nat)
    requires WARMUP_CANDLES <= n <= k <= |candles| && Waits(Walk(cs, candles, strategy, 1, n), y, p, p.touched)
    requires k <= p.expiryIndex && Unconfirmed(cs, candles, p, n, k)
    ensures Waits(Walk(cs, candles, strategy, 1, k), y, p, p.touched || TouchedIn(p, candles, n, k))
    decreases k
  {
    if n < k {
      SetupWaits(cs, candles, strategy, y, p, n, k - 1);
      WalkWaits(cs, candles, strategy, k - 1, y, p, p.touched || TouchedIn(p, candles, n, k - 1));
      TouchedInNext(p, candles, n, k - 1);
    }
  }

  lemma ExpiringStep(cs: Callees, candles: seq<Candle>, strategy: string, i: nat, s: State, y: Tally, p: Setup,
                     touched: bool)
    requires i < |candles| && Waits(s, y, p, touched) && !Confirms(cs, candles, i, p) && i >= p.expiryIndex
    ensures Step(cs, candles, strategy, i, s)
            == State(y.(setups := Expire(y.setups, touched || Touches(p, candles[i]))), None, None)
  {
  }

  /** A setup that is never confirmed ends on its expiry candle, as touched if any candle from its birth to then
      touched its zone, and as untouched otherwise. */
  lemma SetupExpires(cs: Callees, candles: seq<Candle>, strategy: string, y: Tally, p: Setup, n: nat, k: nat,
                     e: State)
    requires WARMUP_CANDLES <= n <= k < |candles| && Waits(Walk(cs, candles, strategy, 1, n), y, p, p.touched)
    requires k == p.expiryIndex && Unconfirmed(cs, candles, p, n, k + 1) && e == Walk(cs, candles, strategy, 1, k + 1)
    ensures var touched := p.touched || exists j :: n <= j <= k && Touches(p, candles[j]);
            && e.pending.None? && e.active.None? && e.tally.trades == y.trades
            && e.tally.setups == y.setups.(
                 levelTouched := y.setups.levelTouched + Count(touched),
                 expiredTouchedUnconfirmed := y.setups.expiredTouchedUnconfirmed + Count(touched),
                 expiredNoTouch := y.setups.expiredNoTouch + Count(!touched))
  {
    SetupWaits(cs, candles, strategy, y, p, n, k);
    OneStep(cs, candles, strategy, k);
    TouchedInNext(p, candles, n, k);
    ExpiringStep(cs, candles, strategy, k, Walk(cs, candles, strategy, 1, k), y, p,
                 p.touched || TouchedIn(p, candles, n, k));
  }
}
