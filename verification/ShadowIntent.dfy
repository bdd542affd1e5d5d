/**
 Shadow execution intents (ftmo_execution.py): tick-rounded levels and floor-to-step position sizing under four
 simultaneous risk limits.

 Decimals are exact reals. Strings are compared after the caller's normalisation, passed in as a function.
 */
module ShadowIntent {
  import opened Common

  const MAX_RISK_FRACTION := 0.03

  datatype Side = Long | Short

  datatype Setup = Setup(signalId: string, symbol: string, side: Side, price: real, stop: real, target: real,
                         expiresAt: real)

  datatype Quote = Quote(symbol: string, bid: real, ask: real, timestamp: real, platform: string, accountId: string,
                         quoteId: string, marketOpen: bool)

  datatype Specification = Specification(symbol: string, tickSize: real, tickValue: real, minimumVolume: real,
                                         maximumVolume: real, volumeStep: real, minimumStopDistance: real)

  datatype Account = Account(accountId: string, platform: string, equity: real, dailyStartEquity: real,
                             dailyLossLimit: real)

  datatype Policy = Policy(riskFraction: real, maximumTotalOpenRiskFraction: real, dailyLossSafetyBufferFraction: real,
                           maximumQuoteAge: real, maximumSpreadTicks: real, maximumReferenceDeviation: real)

  datatype Intent = Intent(signalId: string, accountId: string, platform: string, symbol: string, side: Side,
                           quoteId: string, entry: real, stop: real, target: real, volume: real,
                           risk: real, riskFraction: real, createdAt: real)

  datatype Error =
    | SymbolMismatch | Misaligned | Expired | StaleQuote | MarketClosed | SpreadTooWide | AccountMismatch
    | StopTooClose | DailyCapacity | NegativeOpenRisk | TotalOpenRisk | DivisionByZero | VolumeTooSmall

  // The checks every record passes when it is constructed.

  predicate ValidSetup(s: Setup) {
    && s.price > 0.0 && s.stop > 0.0 && s.target > 0.0
    && if s.side == Long then s.stop < s.price < s.target else s.target < s.price < s.stop
  }

  predicate ValidQuote(q: Quote) {
    0.0 < q.bid <= q.ask
  }

  predicate ValidSpecification(s: Specification) {
    && s.tickSize > 0.0 && s.tickValue > 0.0 && 0.0 < s.minimumVolume <= s.maximumVolume && s.volumeStep > 0.0
    && s.minimumStopDistance >= 0.0
  }

  predicate ValidAccount(a: Account) {
    a.equity > 0.0 && a.dailyStartEquity > 0.0 && a.dailyLossLimit > 0.0
  }

  predicate ValidPolicy(p: Policy) {
    && 0.0 < p.riskFraction <= MAX_RISK_FRACTION && p.maximumTotalOpenRiskFraction > 0.0
    && 0.0 <= p.dailyLossSafetyBufferFraction < 1.0 && p.maximumQuoteAge > 0.0 && p.maximumSpreadTicks > 0.0
    && p.maximumReferenceDeviation > 0.0
  }

  /** Everything a call works on. */
  datatype Request = Request(policy: Policy, setup: Setup, quote: Quote, specification: Specification, account: Account,
                             existingRisk: real, now: real, fold: string -> string)

  predicate Valid(r: Request) {
    && ValidPolicy(r.policy) && ValidSetup(r.setup) && ValidQuote(r.quote) && ValidSpecification(r.specification)
    && ValidAccount(r.account)
  }

  /** What that comes to: prices and amounts are positive, stop and target enclose the price, the ask is not below the
      bid, and a policy risks at most three percent and keeps less than the whole daily limit as a buffer. */
  lemma ValidMeans(r: Request)
    ensures var s, q, spec, a, p := r.setup, r.quote, r.specification, r.account, r.policy;
            Valid(r) <==>
              && !(s.price <= 0.0 || s.stop <= 0.0 || s.target <= 0.0)
              && (s.side == Long ==> s.stop < s.price && s.price < s.target)
              && (s.side == Short ==> s.target < s.price && s.price < s.stop)
              && !(q.bid <= 0.0 || q.ask < q.bid)
              && !(spec.tickSize <= 0.0 || spec.tickValue <= 0.0 || spec.minimumVolume <= 0.0
                   || spec.maximumVolume < spec.minimumVolume || spec.volumeStep <= 0.0
                   || spec.minimumStopDistance < 0.0)
              && !(a.equity <= 0.0 || a.dailyStartEquity <= 0.0 || a.dailyLossLimit <= 0.0)
              && !(p.riskFraction <= 0.0 || p.riskFraction > 0.03 || p.maximumTotalOpenRiskFraction <= 0.0
                   || p.dailyLossSafetyBufferFraction < 0.0 || p.dailyLossSafetyBufferFraction >= 1.0
                   || p.maximumQuoteAge <= 0.0 || p.maximumSpreadTicks <= 0.0 || p.maximumReferenceDeviation <= 0.0)
  {
  }

  // ---------------------------------------------------------------------
  // Rounding to ticks
  // ---------------------------------------------------------------------

  function Floor(x: real): int { x.Floor }

  function Ceiling(x: real): int { -((-x).Floor) }

  /** Round half up, for nonnegative values. */
  function HalfUp(x: real): int { (x + 0.5).Floor }

  function Ticks(n: int, tick: real): real { n as real * tick }

  /** The three levels of an intent, as whole numbers of ticks. */
  datatype Levels = Levels(entry: int, stop: int, target: int)

  function RiskShare(s: Setup): real
    requires ValidSetup(s)
  {
    Abs(s.price - s.stop) / s.price
  }

  function RewardShare(s: Setup): real
    requires ValidSetup(s)
  {
    Abs(s.target - s.price) / s.price
  }

  /** Levels for an executable price of x ticks, a risk share and a reward share. */
  function LevelsAt(side: Side, x: real, risk: real, reward: real): Levels {
    if side == Long then Levels(HalfUp(x), Floor(x * (1.0 - risk)), Floor(x * (1.0 + reward)))
    else Levels(HalfUp(x), Ceiling(x * (1.0 + risk)), Ceiling(x * (1.0 - reward)))
  }

  function Executable(side: Side, q: Quote): real {
    if side == Long then q.ask else q.bid
  }

  function LevelsOf(r: Request): Levels
    requires Valid(r)
  {
    var s := r.setup;
    LevelsAt(s.side, Executable(s.side, r.quote) / r.specification.tickSize, RiskShare(s), RewardShare(s))
  }

  // ---------------------------------------------------------------------
  // Sizing
  // ---------------------------------------------------------------------

  function RiskBudget(p: Policy, equity: real): real {
    Min(equity * p.riskFraction, equity * MAX_RISK_FRACTION)
  }

  /** The largest whole number of steps that the budget pays for, capped at the maximum volume. */
  function SizedVolume(budget: real, lossPerVolume: real, step: real, maximum: real): real
    requires lossPerVolume != 0.0 && step != 0.0
  {
    Min(Ticks(Floor(budget / lossPerVolume / step), step), maximum)
  }

  function LossToday(a: Account): real {
    Max(0.0, a.dailyStartEquity - a.equity)
  }

  function DailyBuffer(p: Policy, a: Account): real {
    a.dailyLossLimit * p.dailyLossSafetyBufferFraction
  }

  // ---------------------------------------------------------------------
  // Building the intent
  // ---------------------------------------------------------------------

  function Mid(q: Quote): real { (q.ask + q.bid) / 2.0 }

  predicate Aligned(r: Request)
    requires Valid(r)
  {
    Abs(r.setup.price - Mid(r.quote)) / Mid(r.quote) <= r.policy.maximumReferenceDeviation
  }

  /** The first failing check before any level is computed. */
  function Gate(r: Request): Option<Error>
    requires Valid(r)
  {
    var q, age := r.quote, r.now - r.quote.timestamp;
    if r.fold(r.setup.symbol) != r.fold(q.symbol)
       || r.fold(q.symbol) != r.fold(r.specification.symbol)
    then Some(SymbolMismatch)
    else if !Aligned(r) then Some(Misaligned)
    else if r.setup.expiresAt <= r.now then Some(Expired)
    else if age < 0.0 || age > r.policy.maximumQuoteAge then Some(StaleQuote)
    else if !q.marketOpen then Some(MarketClosed)
    else if (q.ask - q.bid) / r.specification.tickSize > r.policy.maximumSpreadTicks then Some(SpreadTooWide)
    else if r.account.accountId != q.accountId || r.account.platform != q.platform then Some(AccountMismatch)
    else None
  }

  /** The first failing risk limit for a budget. */
  function Limits(r: Request, budget: real): Option<Error> {
    var a := r.account;
    var capacity := a.dailyLossLimit - LossToday(a) - DailyBuffer(r.policy, a);
    if capacity <= 0.0 || budget > capacity then Some(DailyCapacity)
    else if r.existingRisk < 0.0 then Some(NegativeOpenRisk)
    else if r.existingRisk + budget > a.equity * r.policy.maximumTotalOpenRiskFraction then Some(TotalOpenRisk)
    else None
  }

  function StopTicks(l: Levels): int {
    if l.entry >= l.stop then l.entry - l.stop else l.stop - l.entry
  }

  /** Sizing at given levels. */
  function SizedIntent(r: Request, l: Levels): Result<Intent, Error>
    requires Valid(r)
  {
    var spec := r.specification;
    if Ticks(StopTicks(l), spec.tickSize) < spec.minimumStopDistance then Err(StopTooClose)
    else
      var budget := RiskBudget(r.policy, r.account.equity);
      var limit := Limits(r, budget);
      if limit.Some? then Err(limit.value)
      else
        var loss := Ticks(StopTicks(l), spec.tickValue);
        if loss == 0.0 then Err(DivisionByZero)
        else
          var volume := SizedVolume(budget, loss, spec.volumeStep, spec.maximumVolume);
          if volume < spec.minimumVolume then Err(VolumeTooSmall)
          else
            Ok(Intent(r.setup.signalId, r.account.accountId, r.account.platform, r.setup.symbol, r.setup.side,
                      r.quote.quoteId, Ticks(l.entry, spec.tickSize), Ticks(l.stop, spec.tickSize),
                      Ticks(l.target, spec.tickSize), volume, loss * volume, loss * volume / r.account.equity, r.now))
  }

  function BuildShadowIntent(r: Request): Result<Intent, Error>
    requires Valid(r)
  {
    var gate := Gate(r);
    if gate.Some? then Err(gate.value) else SizedIntent(r, LevelsOf(r))
  }

  // ---------------------------------------------------------------------
  // Levels
  // ---------------------------------------------------------------------

  lemma Shares(s: Setup)
    requires ValidSetup(s)
    ensures RiskShare(s) > 0.0 && RewardShare(s) > 0.0
    ensures s.side == Long ==> RiskShare(s) < 1.0
    ensures s.side == Short ==> RewardShare(s) < 1.0
  {
    var d, e := Abs(s.price - s.stop), Abs(s.target - s.price);
    ShareOrder(d, s.price);
    ShareOrder(e, s.price);
  }

  lemma ShareOrder(d: real, p: real)
    requires d > 0.0 && p > 0.0
    ensures d / p > 0.0 && (d < p ==> d / p < 1.0)
  {
    var q := d / p;
    assert q * p == d;
    if q <= 0.0 {
      MulOrder(q, 0.0, p);
    } else if q >= 1.0 {
      MulOrder(1.0, q, p);
    }
  }

  lemma Shrink(x: real, share: real)
    requires x > 0.0 && share > 0.0
    ensures x * (1.0 - share) < x < x * (1.0 + share)
  {
    assert x * share > 0.0;
  }

  /** The stop is never on the winning side of the entry. */
  lemma StopNotWinning(side: Side, x: real, risk: real, reward: real)
    requires x > 0.0 && risk > 0.0
    ensures var l := LevelsAt(side, x, risk, reward); if side == Long then l.stop <= l.entry else l.stop >= l.entry
  {
    Shrink(x, risk);
  }

  /** How far x lies above the whole tick below it. */
  function Fraction(x: real): real { x - x.Floor as real }

  /** When rounding the entry at x ticks overtakes the target. */
  predicate TargetLoses(side: Side, x: real, reward: real) {
    if side == Long then Fraction(x) >= 0.5 && x * (1.0 + reward) < (x.Floor + 1) as real
    else Fraction(x) < 0.5 && x * (1.0 - reward) > x.Floor as real
  }

  /** The target lands on the losing side of the entry exactly when rounding the entry moves it past the
      target: the price is in the half of its tick from which it is rounded towards the target, and the
      reward does not reach the end of that tick. */
  lemma TargetLosesIff(side: Side, x: real, risk: real, reward: real)
    requires x > 0.0 && reward > 0.0
    ensures var l := LevelsAt(side, x, risk, reward);
            (if side == Long then l.target < l.entry else l.target > l.entry) <==> TargetLoses(side, x, reward)
  {
    Shrink(x, reward);
    RoundsPast(x, x * (1.0 + reward), x * (1.0 - reward));
  }

  /** When rounding x overtakes a larger y rounded down, or a smaller z rounded up. */
  lemma RoundsPast(x: real, y: real, z: real)
    requires z < x < y
    ensures Floor(y) < HalfUp(x) <==> Fraction(x) >= 0.5 && y < (x.Floor + 1) as real
    ensures Ceiling(z) > HalfUp(x) <==> Fraction(x) < 0.5 && z > x.Floor as real
  {
    HalfUpIs(x);
    FloorBelow(y, x.Floor + 1);
    FloorBelow(y, x.Floor);
    FloorBelow(-z, -(x.Floor + 1));
    FloorBelow(-z, -x.Floor);
  }

  lemma HalfUpIs(x: real)
    ensures HalfUp(x) == if Fraction(x) >= 0.5 then x.Floor + 1 else x.Floor
  {
  }

  lemma FloorBelow(y: real, n: int)
    ensures y.Floor < n <==> y < n as real
  {
  }

  /** With an executable price on the tick grid the target is never on the losing side. */
  lemma AlignedTargetNeverLoses(side: Side, n: int, risk: real, reward: real)
    requires n > 0 && reward > 0.0
    ensures var l := LevelsAt(side, n as real, risk, reward);
            l.entry == n && if side == Long then l.target >= l.entry else l.target <= l.entry
  {
    TargetLosesIff(side, n as real, risk, reward);
    Shrink(n as real, reward);
  }

  // ---------------------------------------------------------------------
  // Sizing
  // ---------------------------------------------------------------------

  lemma FloorBrackets(x: real, step: real)
    requires step > 0.0
    ensures var n := Floor(x / step); Ticks(n, step) <= x < Ticks(n + 1, step)
  {
    var q, n := x / step, Floor(x / step);
    assert q * step == x;
    MulOrder(n as real, q, step);
    MulStrict(q, (n + 1) as real, step);
  }

  lemma MulOrder(a: real, b: real, c: real)
    requires a <= b && c >= 0.0
    ensures a * c <= b * c
  {
  }

  lemma MulStrict(a: real, b: real, c: real)
    requires a < b && c > 0.0
    ensures a * c < b * c
  {
  }

  lemma RatioOrder(budget: real, loss: real, v: real)
    requires loss > 0.0
    ensures v <= budget / loss <==> loss * v <= budget
  {
    var q := budget / loss;
    assert q * loss == budget;
    if v <= q {
      MulOrder(v, q, loss);
    } else {
      MulStrict(q, v, loss);
    }
  }

  lemma TicksOrder(m: int, n: int, step: real)
    requires m <= n && step > 0.0
    ensures Ticks(m, step) <= Ticks(n, step)
  {
    MulOrder(m as real, n as real, step);
  }

  /** Flooring to the grid and capping finds the largest grid value below both bounds. */
  lemma FloorIsLargest(raw: real, step: real, maximum: real, t: real)
    requires step > 0.0 && OnGrid(t, step)
    ensures var g := Ticks(Floor(raw / step), step);
            var v := Min(g, maximum);
            && v <= maximum && v <= raw && (v < maximum ==> v == g && v + step > raw)
            && (t <= maximum && t <= raw ==> t <= v)
  {
    var n, k: int := Floor(raw / step), GridIndex(t, step);
    FloorBrackets(raw, step);
    TicksNext(n, step);
    if k > n {
      TicksOrder(n + 1, k, step);
    } else {
      TicksOrder(k, n, step);
    }
  }

  ghost function GridIndex(t: real, step: real): (k: int)
    requires OnGrid(t, step)
    ensures t == Ticks(k, step)
  {
    var k: int :| t == Ticks(k, step);
    k
  }

  /** The sized volume is the best on the step grid: it stays within the budget and the maximum, no larger
      multiple of the step does, and short of the maximum it is itself a multiple of the step. */
  lemma SizingIsOptimal(budget: real, loss: real, step: real, maximum: real, t: real)
    requires loss > 0.0 && step > 0.0 && OnGrid(t, step)
    ensures var v := SizedVolume(budget, loss, step, maximum);
            && v <= maximum && loss * v <= budget
            && (v < maximum ==> OnGrid(v, step) && loss * (v + step) > budget)
            && (t <= maximum && loss * t <= budget ==> t <= v)
  {
    var v := SizedVolume(budget, loss, step, maximum);
    FloorIsLargest(budget / loss, step, maximum, t);
    RatioOrder(budget, loss, v);
    RatioOrder(budget, loss, v + step);
    RatioOrder(budget, loss, t);
  }

  lemma TicksNext(n: int, step: real)
    ensures Ticks(n + 1, step) == Ticks(n, step) + step
  {
    assert (n + 1) as real == n as real + 1.0;
  }

  ghost predicate OnGrid(v: real, step: real) {
    exists n: int :: v == Ticks(n, step)
  }

  // ---------------------------------------------------------------------
  // Every returned intent
  // ---------------------------------------------------------------------

  lemma TicksPositive(n: int, tick: real)
    requires tick > 0.0
    ensures (n > 0 ==> Ticks(n, tick) > 0.0) && (n == 0 ==> Ticks(n, tick) == 0.0)
  {
  }

  lemma TicksDifference(m: int, n: int, tick: real)
    requires tick > 0.0
    ensures Ticks(m - n, tick) == Ticks(m, tick) - Ticks(n, tick)
    ensures m < n <==> Ticks(m, tick) < Ticks(n, tick)
  {
    assert (m - n) as real == m as real - n as real;
    if m < n {
      MulStrict(m as real, n as real, tick);
    } else {
      MulOrder(n as real, m as real, tick);
    }
  }

  lemma ExecutableTicks(r: Request)
    requires Valid(r)
    ensures Executable(r.setup.side, r.quote) / r.specification.tickSize > 0.0
  {
    ShareOrder(Executable(r.setup.side, r.quote), r.specification.tickSize);
  }

  /** The levels of every returned intent lie on the tick grid, and the stop is strictly on the losing side of
      the entry, no closer than the symbol's minimum distance. */
  lemma IntentLevels(r: Request)
    requires Valid(r) && BuildShadowIntent(r).Ok?
    ensures var i, tick := BuildShadowIntent(r).value, r.specification.tickSize;
            && OnGrid(i.entry, tick) && OnGrid(i.stop, tick) && OnGrid(i.target, tick)
            && (if i.side == Long then i.stop < i.entry else i.stop > i.entry)
            && Abs(i.entry - i.stop) >= r.specification.minimumStopDistance
  {
    var l, tick, s := LevelsOf(r), r.specification.tickSize, r.setup;
    var i := BuildShadowIntent(r).value;
    assert OnGrid(i.entry, tick) && OnGrid(i.stop, tick) && OnGrid(i.target, tick);
    ExecutableTicks(r);
    Shares(s);
    StopNotWinning(s.side, Executable(s.side, r.quote) / tick, RiskShare(s), RewardShare(s));
    TicksPositive(StopTicks(l), r.specification.tickValue);
    TicksDifference(l.entry, l.stop, tick);
    TicksDifference(l.stop, l.entry, tick);
  }

  lemma SmallerShare(x: real, a: real, b: real)
    requires x > 0.0 && 0.0 < a <= b
    ensures 0.0 < x * a <= x * b && Min(x * a, x * b) == x * a
  {
    MulStrict(0.0, a, x);
    MulOrder(a, b, x);
  }

  lemma BudgetLaws(p: Policy, equity: real)
    requires ValidPolicy(p) && equity > 0.0
    ensures 0.0 < RiskBudget(p, equity) <= equity * MAX_RISK_FRACTION
    ensures RiskBudget(p, equity) == equity * p.riskFraction
  {
    SmallerShare(equity, p.riskFraction, MAX_RISK_FRACTION);
  }

  /** What an intent owes to its sizing, for a loss per volume and a budget. */
  predicate IsSized(spec: Specification, i: Intent, loss: real, budget: real) {
    && loss > 0.0 && spec.volumeStep > 0.0 && i.risk == loss * i.volume
    && i.volume >= spec.minimumVolume && i.volume == SizedVolume(budget, loss, spec.volumeStep, spec.maximumVolume)
  }

  lemma SizedIntentIsSized(r: Request, l: Levels, i: Intent, loss: real, budget: real)
    requires Valid(r) && SizedIntent(r, l) == Ok(i)
    requires loss == Ticks(StopTicks(l), r.specification.tickValue)
    requires budget == RiskBudget(r.policy, r.account.equity)
    ensures IsSized(r.specification, i, loss, budget) && Limits(r, budget).None?
  {
    hide SizedVolume, RiskBudget, Limits;
    TicksPositive(StopTicks(l), r.specification.tickValue);
  }

  /** The limits on a risk taken within a budget: today's loss so far and the safety buffer are left over, and so is the
      risk already open. */
  predicate LimitLaws(r: Request, risk: real, budget: real) {
    var a, p := r.account, r.policy;
    && risk <= budget
    && a.dailyStartEquity - a.equity + a.dailyLossLimit * p.dailyLossSafetyBufferFraction + risk <= a.dailyLossLimit
    && a.dailyLossLimit * p.dailyLossSafetyBufferFraction + risk <= a.dailyLossLimit
    && 0.0 <= r.existingRisk && r.existingRisk + risk <= a.equity * p.maximumTotalOpenRiskFraction
  }

  lemma WithinLimits(r: Request, budget: real, risk: real)
    requires Limits(r, budget).None? && risk <= budget
    ensures LimitLaws(r, risk, budget)
  {
  }

  /** A volume between the symbol's limits risks no more than the budget, and no larger volume t on the step grid stays
      within it. */
  ghost predicate VolumeLaws(spec: Specification, i: Intent, loss: real, budget: real, t: real) {
    && spec.minimumVolume <= i.volume <= spec.maximumVolume && i.risk == loss * i.volume && i.risk <= budget
    && (i.volume < spec.maximumVolume ==>
          && OnGrid(i.volume, spec.volumeStep)
          && loss * (i.volume + spec.volumeStep) > budget)
    && (t <= spec.maximumVolume && loss * t <= budget ==> t <= i.volume)
  }

  lemma SizedObeysLaws(spec: Specification, i: Intent, loss: real, budget: real, t: real)
    requires IsSized(spec, i, loss, budget) && OnGrid(t, spec.volumeStep)
    ensures VolumeLaws(spec, i, loss, budget, t)
  {
    SizingIsOptimal(budget, loss, spec.volumeStep, spec.maximumVolume, t);
  }

  /** What one unit of volume loses over a distance in price. */
  function LossAcross(spec: Specification, distance: real): real
    requires spec.tickSize != 0.0
  {
    distance / spec.tickSize * spec.tickValue
  }

  lemma LossIsAcross(spec: Specification, l: Levels, entry: real, stop: real)
    requires ValidSpecification(spec) && entry == Ticks(l.entry, spec.tickSize) && stop == Ticks(l.stop, spec.tickSize)
    ensures Ticks(StopTicks(l), spec.tickValue) == LossAcross(spec, Abs(entry - stop))
  {
    TicksDifference(l.entry, l.stop, spec.tickSize);
    TicksDifference(l.stop, l.entry, spec.tickSize);
    TicksQuotient(StopTicks(l), spec.tickSize);
  }

  lemma TicksQuotient(n: int, tick: real)
    requires tick > 0.0
    ensures Ticks(n, tick) / tick == n as real
  {
  }

  lemma SizedIntentLevels(r: Request, l: Levels, i: Intent)
    requires Valid(r) && SizedIntent(r, l) == Ok(i)
    ensures i.side == r.setup.side && i.entry == Ticks(l.entry, r.specification.tickSize)
    ensures i.stop == Ticks(l.stop, r.specification.tickSize) && i.target == Ticks(l.target, r.specification.tickSize)
  {
  }

  lemma SizedIntentVolume(r: Request, l: Levels, i: Intent, t: real, loss: real, budget: real)
    requires Valid(r) && SizedIntent(r, l) == Ok(i) && OnGrid(t, r.specification.volumeStep)
    requires loss == LossAcross(r.specification, Abs(i.entry - i.stop))
    requires budget == RiskBudget(r.policy, r.account.equity)
    ensures VolumeLaws(r.specification, i, loss, budget, t)
  {
    SizedIntentLevels(r, l, i);
    LossIsAcross(r.specification, l, i.entry, i.stop);
    SizedIntentIsSized(r, l, i, Ticks(StopTicks(l), r.specification.tickValue), budget);
    SizedObeysLaws(r.specification, i, loss, budget, t);
  }

  lemma SizedIntentRisk(r: Request, l: Levels, i: Intent, budget: real)
    requires Valid(r) && SizedIntent(r, l) == Ok(i) && budget == RiskBudget(r.policy, r.account.equity)
    ensures LimitLaws(r, i.risk, budget)
    ensures i.riskFraction == i.risk / r.account.equity
  {
    hide SizedVolume, RiskBudget, Limits, LimitLaws;
    var loss := Ticks(StopTicks(l), r.specification.tickValue);
    SizedIntentIsSized(r, l, i, loss, budget);
    SizingFits(budget, loss, r.specification.volumeStep, r.specification.maximumVolume);
    WithinLimits(r, budget, i.risk);
  }

  lemma IntentIsSized(r: Request, i: Intent)
    requires Valid(r) && BuildShadowIntent(r) == Ok(i)
    ensures Gate(r).None? && SizedIntent(r, LevelsOf(r)) == Ok(i)
  {
  }

  /** The volume of every returned intent is optimal for the loss between its own entry and stop and the policy's share
      of equity. */
  lemma IntentVolume(r: Request, i: Intent, t: real, loss: real, budget: real)
    requires Valid(r) && BuildShadowIntent(r) == Ok(i) && OnGrid(t, r.specification.volumeStep)
    requires loss == LossAcross(r.specification, Abs(i.entry - i.stop))
    requires budget == r.account.equity * r.policy.riskFraction
    ensures VolumeLaws(r.specification, i, loss, budget, t)
  {
    hide BuildShadowIntent, SizedIntent, LevelsOf, LossAcross;
    BudgetLaws(r.policy, r.account.equity);
    IntentIsSized(r, i);
    SizedIntentVolume(r, LevelsOf(r), i, t, loss, budget);
  }

  /** The risk of every returned intent obeys all limits, the policy's share of equity being at most three percent; it
      is reported as a share of equity too. */
  lemma IntentRisk(r: Request, i: Intent)
    requires Valid(r) && BuildShadowIntent(r) == Ok(i)
    ensures LimitLaws(r, i.risk, r.account.equity * r.policy.riskFraction)
    ensures r.account.equity * r.policy.riskFraction <= r.account.equity * 0.03
    ensures i.riskFraction == i.risk / r.account.equity
  {
    BudgetLaws(r.policy, r.account.equity);
    hide SizedIntent, LevelsOf;
    IntentIsSized(r, i);
    SizedIntentRisk(r, LevelsOf(r), i, RiskBudget(r.policy, r.account.equity));
  }

  // ---------------------------------------------------------------------
  // Refusals
  // ---------------------------------------------------------------------

  /** A request is refused for the first failing check before any level is computed, or else sized at its levels. */
  lemma GateMeans(r: Request)
    requires Valid(r)
    ensures var q, a, p := r.quote, r.account, r.policy;
            Gate(r) ==
            if !(r.fold(r.setup.symbol) == r.fold(q.symbol) == r.fold(r.specification.symbol))
            then Some(SymbolMismatch)
            else if Abs(2.0 * r.setup.price - q.bid - q.ask) > p.maximumReferenceDeviation * (q.bid + q.ask)
            then Some(Misaligned)
            else if r.setup.expiresAt <= r.now then Some(Expired)
            else if r.now < q.timestamp || r.now > q.timestamp + p.maximumQuoteAge then Some(StaleQuote)
            else if !q.marketOpen then Some(MarketClosed)
            else if q.ask - q.bid > p.maximumSpreadTicks * r.specification.tickSize then Some(SpreadTooWide)
            else if a.accountId != q.accountId || a.platform != q.platform then Some(AccountMismatch)
            else None
    ensures BuildShadowIntent(r) == if Gate(r).Some? then Err(Gate(r).value) else SizedIntent(r, LevelsOf(r))
  {
    hide SizedIntent, LevelsOf;
    var q, p, mid := r.quote, r.policy, Mid(r.quote);
    ShareBound(Abs(r.setup.price - mid), mid, p.maximumReferenceDeviation);
    ShareBound(q.ask - q.bid, r.specification.tickSize, p.maximumSpreadTicks);
    Double(p.maximumReferenceDeviation, mid, q.bid + q.ask);
  }

  lemma ShareBound(x: real, d: real, bound: real)
    requires d > 0.0
    ensures x / d <= bound <==> x <= bound * d
  {
    assert x / d * d == x;
    Scale(x / d, bound, d);
  }

  lemma Double(a: real, x: real, y: real)
    requires y == 2.0 * x
    ensures a * y == 2.0 * (a * x)
  {
  }

  /** A multiple of the step, at least the minimum, that the budget pays for. */
  predicate Affords(n: int, step: real, loss: real, budget: real, minimum: real) {
    minimum <= Ticks(n, step) && loss * Ticks(n, step) <= budget
  }

  lemma SizedIff(budget: real, loss: real, step: real, minimum: real, maximum: real)
    requires loss > 0.0 && step > 0.0 && minimum <= maximum
    ensures SizedVolume(budget, loss, step, maximum) >= minimum
            <==> exists n: int :: Affords(n, step, loss, budget, minimum)
  {
    var k := Floor(budget / loss / step);
    RatioOrder(budget, loss, Ticks(k, step));
    FloorBrackets(budget / loss, step);
    if Ticks(k, step) >= minimum {
      assert Affords(k, step, loss, budget, minimum);
    } else if n: int :| Affords(n, step, loss, budget, minimum) {
      GridBound(n, k, budget, loss, step);
    }
  }

  lemma GridBound(n: int, k: int, budget: real, loss: real, step: real)
    requires loss > 0.0 && step > 0.0 && k == Floor(budget / loss / step) && loss * Ticks(n, step) <= budget
    ensures Ticks(n, step) <= Ticks(k, step)
  {
    RatioOrder(budget, loss, Ticks(n, step));
    FloorIsLargest(budget / loss, step, Ticks(k, step), Ticks(n, step));
    FloorBrackets(budget / loss, step);
    if n > k {
      TicksOrder(k + 1, n, step);
    }
  }

  /** Why a setup is refused at given levels, on the fields of the account and the policy: the first failing check, the
      last of which is that no multiple of the volume step, from the minimum on, fits the budget. */
  lemma SizedIntentRefused(r: Request, l: Levels, budget: real, reserve: real, loss: real)
    requires Valid(r) && budget == r.account.equity * r.policy.riskFraction
    requires reserve == r.account.dailyLossLimit * r.policy.dailyLossSafetyBufferFraction
    requires loss == Ticks(StopTicks(l), r.specification.tickValue)
    ensures var a, spec, refused := r.account, r.specification, SizedIntent(r, l);
            if Ticks(StopTicks(l), spec.tickSize) < spec.minimumStopDistance then refused == Err(StopTooClose)
            else if a.dailyStartEquity - a.equity + reserve + budget > a.dailyLossLimit
                    || reserve + budget > a.dailyLossLimit
            then refused == Err(DailyCapacity)
            else if r.existingRisk < 0.0 then refused == Err(NegativeOpenRisk)
            else if r.existingRisk + budget > a.equity * r.policy.maximumTotalOpenRiskFraction
            then refused == Err(TotalOpenRisk)
            else if l.entry == l.stop then refused == Err(DivisionByZero)
            else if exists n: int :: Affords(n, spec.volumeStep, loss, budget, spec.minimumVolume) then refused.Ok?
            else refused == Err(VolumeTooSmall)
  {
    hide SizedVolume, Ticks, Affords, RiskBudget;
    BudgetLaws(r.policy, r.account.equity);
    TicksPositive(StopTicks(l), r.specification.tickValue);
    if loss > 0.0 {
      SizedIff(budget, loss, r.specification.volumeStep, r.specification.minimumVolume, r.specification.maximumVolume);
    }
  }

  lemma LevelsOfIntent(r: Request)
    requires Valid(r) && BuildShadowIntent(r).Ok?
    ensures var i, l, tick := BuildShadowIntent(r).value, LevelsOf(r), r.specification.tickSize;
            i.side == r.setup.side && i.entry == Ticks(l.entry, tick) && i.stop == Ticks(l.stop, tick)
            && i.target == Ticks(l.target, tick)
  {
    SizedIntentLevels(r, LevelsOf(r), BuildShadowIntent(r).value);
  }

  /** How stop and target are rounded to the grid: down for a long, up for a short. */
  predicate Rounds(side: Side, level: real, tick: real, price: real) {
    match side
    case Long => level <= price < level + tick
    case Short => level - tick < price <= level
  }

  lemma GridRounds(side: Side, n: int, y: real, tick: real, price: real)
    requires tick > 0.0 && price == y * tick && n == if side == Long then Floor(y) else Ceiling(y)
    ensures Rounds(side, Ticks(n, tick), tick, price)
  {
    Gap(n as real, Ticks(n, tick), y, price, 0.0, 0.0, tick);
    Gap(n as real, Ticks(n, tick), y, price, -1.0, -tick, tick);
  }

  lemma Gap(m: real, level: real, y: real, price: real, d: real, gap: real, tick: real)
    requires tick > 0.0 && level == m * tick && price == y * tick && gap == d * tick
    ensures (y <= m + d <==> price <= level + gap) && (m - d <= y <==> level - gap <= price)
  {
    Scale(y, m + d, tick);
    Scale(m - d, y, tick);
    assert (m + d) * tick == m * tick + d * tick && (m - d) * tick == m * tick - d * tick;
  }

  lemma Scale(a: real, b: real, c: real)
    requires c > 0.0
    ensures a <= b <==> a * c <= b * c
  {
    if b < a {
      MulStrict(b, a, c);
    } else {
      MulOrder(a, b, c);
    }
  }

  /** Half up rounds to the nearest tick, and up from the middle. */
  lemma GridNearest(n: int, x: real, tick: real, price: real)
    requires tick > 0.0 && price == x * tick && n == HalfUp(x)
    ensures IsNearest(Ticks(n, tick), tick, price)
  {
    Gap(n as real, Ticks(n, tick), x, price, 0.5, 0.5 * tick, tick);
    Gap(n as real, Ticks(n, tick), x, price, -0.5, -0.5 * tick, tick);
  }

  /** With x ticks to the price, y ticks are to a level what x is to y. */
  lemma LevelInTicks(x: real, y: real, tick: real, analysis: real, level: real, price: real, exact: real)
    requires x * tick == price && y * analysis == x * level && exact * analysis == price * level && analysis > 0.0
    ensures exact == y * tick
  {
    assert y * tick * analysis == y * analysis * tick;
    assert x * level * tick == x * tick * level;
    Cancel(y * tick, exact, analysis);
  }

  lemma Cancel(a: real, b: real, c: real)
    requires a * c == b * c && c != 0.0
    ensures a == b
  {
  }

  /** Within half a tick of the price, and above it in the middle. */
  predicate IsNearest(level: real, tick: real, price: real) {
    level - 0.5 * tick <= price < level + 0.5 * tick
  }

  lemma LevelsInTicks(s: Setup, l: Levels, x: real) returns (y: real, z: real)
    requires ValidSetup(s) && l == LevelsAt(s.side, x, RiskShare(s), RewardShare(s))
    ensures y * s.price == x * s.stop && z * s.price == x * s.target && l.entry == HalfUp(x)
    ensures l.stop == (if s.side == Long then Floor(y) else Ceiling(y))
    ensures l.target == if s.side == Long then Floor(z) else Ceiling(z)
  {
    y := if s.side == Long then x * (1.0 - RiskShare(s)) else x * (1.0 + RiskShare(s));
    z := if s.side == Long then x * (1.0 + RewardShare(s)) else x * (1.0 - RewardShare(s));
    LevelsKeepProportion(s, x);
  }

  lemma LevelRounds(side: Side, n: int, x: real, y: real, tick: real, analysis: real, level: real, price: real,
                    exact: real)
    requires tick > 0.0 && analysis > 0.0 && x * tick == price && y * analysis == x * level
    requires exact * analysis == price * level && n == if side == Long then Floor(y) else Ceiling(y)
    ensures Rounds(side, Ticks(n, tick), tick, exact)
  {
    LevelInTicks(x, y, tick, analysis, level, price, exact);
    GridRounds(side, n, y, tick, exact);
  }

  lemma LevelsAtPrices(s: Setup, l: Levels, x: real, tick: real, price: real, stop: real, target: real)
    requires ValidSetup(s) && tick > 0.0 && x * tick == price
    requires l == LevelsAt(s.side, x, RiskShare(s), RewardShare(s))
    requires stop * s.price == price * s.stop && target * s.price == price * s.target
    ensures IsNearest(Ticks(l.entry, tick), tick, price)
    ensures Rounds(s.side, Ticks(l.stop, tick), tick, stop) && Rounds(s.side, Ticks(l.target, tick), tick, target)
  {
    hide LevelsAt, RiskShare, RewardShare, Ticks, Floor, Ceiling, HalfUp, IsNearest, Rounds;
    var y, z := LevelsInTicks(s, l, x);
    GridNearest(l.entry, x, tick, price);
    LevelRounds(s.side, l.stop, x, y, tick, s.price, s.stop, price, stop);
    LevelRounds(s.side, l.target, x, z, tick, s.price, s.target, price, target);
  }

  /** A long enters at the ask and a short at the bid, to the nearest tick; stop and target are to that price what they
      are to the analysis price, rounded to the grid. */
  lemma LevelPrices(r: Request, l: Levels, price: real, stop: real, target: real, tick: real)
    requires Valid(r) && l == LevelsOf(r) && tick == r.specification.tickSize
    requires price == if r.setup.side == Long then r.quote.ask else r.quote.bid
    requires stop * r.setup.price == price * r.setup.stop && target * r.setup.price == price * r.setup.target
    ensures IsNearest(Ticks(l.entry, tick), tick, price)
    ensures Rounds(r.setup.side, Ticks(l.stop, tick), tick, stop)
    ensures Rounds(r.setup.side, Ticks(l.target, tick), tick, target)
  {
    hide LevelsAt, RiskShare, RewardShare, Ticks;
    TickPrice(price, tick);
    LevelsAtPrices(r.setup, l, price / tick, tick, price, stop, target);
  }

  lemma TickPrice(price: real, tick: real)
    requires tick > 0.0
    ensures price / tick * tick == price
  {
  }

  /** Every returned intent has those levels, and carries the identities of what it was built from. */
  lemma IntentPrices(r: Request, i: Intent, tick: real)
    requires Valid(r) && BuildShadowIntent(r) == Ok(i) && tick == r.specification.tickSize
    ensures var l := LevelsOf(r);
            (i.entry, i.stop, i.target) == (Ticks(l.entry, tick), Ticks(l.stop, tick), Ticks(l.target, tick))
    ensures (i.signalId, i.symbol, i.side) == (r.setup.signalId, r.setup.symbol, r.setup.side)
    ensures (i.accountId, i.platform, i.quoteId, i.createdAt)
            == (r.account.accountId, r.account.platform, r.quote.quoteId, r.now)
  {
  }

  /** The target of a returned intent is on the losing side of its entry exactly under the condition on the
      rounding of the entry, and never with a tick-aligned quote. */
  lemma IntentTarget(r: Request, x: real)
    requires Valid(r) && BuildShadowIntent(r).Ok? && x == Executable(r.setup.side, r.quote) / r.specification.tickSize
    ensures var i := BuildShadowIntent(r).value;
            && ((if i.side == Long then i.target < i.entry else i.target > i.entry)
                <==> TargetLoses(i.side, x, RewardShare(r.setup)))
            && (Fraction(x) == 0.0 ==> !TargetLoses(i.side, x, RewardShare(r.setup)))
  {
    var s, l, tick := r.setup, LevelsOf(r), r.specification.tickSize;
    LevelsOfIntent(r);
    ExecutableTicks(r);
    Shares(s);
    TargetLosesIff(s.side, x, RiskShare(s), RewardShare(s));
    TicksDifference(l.target, l.entry, tick);
    TicksDifference(l.entry, l.target, tick);
    Shrink(x, RewardShare(s));
  }

  // ---------------------------------------------------------------------
  // The loss of a fill at the executable price
  // ---------------------------------------------------------------------

  /** What a fill at the quoted price, not at the rounded entry, loses when it is stopped out. */
  function FillLoss(r: Request, i: Intent): real
    requires Valid(r)
  {
    var price := Executable(i.side, r.quote);
    LossOver(Distance(i.side, price, i.stop) / r.specification.tickSize, r.specification.tickValue, i.volume)
  }

  /** How far the stop is on the losing side of a price. */
  function Distance(side: Side, price: real, stop: real): real {
    if side == Long then price - stop else stop - price
  }

  /** The loss of a volume over a distance in ticks. */
  function LossOver(ticks: real, tickValue: real, volume: real): real {
    ticks * tickValue * volume
  }

  /** The part of a tick by which rounding moved the entry from the price towards the stop. */
  function Overrun(side: Side, x: real): real {
    if side == Long then if Fraction(x) < 0.5 then Fraction(x) else 0.0
    else if Fraction(x) >= 0.5 then 1.0 - Fraction(x) else 0.0
  }

  /** The distance from x to the stop against the one from the entry rounded from x. */
  lemma RoundedDistance(side: Side, x: real, stop: int)
    ensures var d, e := Distance(side, x, stop as real), Distance(side, HalfUp(x) as real, stop as real);
            && d <= e + Overrun(side, x) && (Overrun(side, x) > 0.0 ==> d == e + Overrun(side, x))
            && 0.0 <= Overrun(side, x) <= 0.5
  {
    HalfUpIs(x);
  }

  lemma DistanceInTicks(price: real, stop: int, tick: real)
    requires tick > 0.0
    ensures (price - Ticks(stop, tick)) / tick == price / tick - stop as real
    ensures (Ticks(stop, tick) - price) / tick == stop as real - price / tick
  {
    var q := price / tick;
    assert q * tick == price;
    assert (q - stop as real) * tick == price - Ticks(stop, tick);
    assert (stop as real - q) * tick == Ticks(stop, tick) - price;
  }

  /** Losing over d ticks where the plan was for e. */
  lemma LossExceedsIff(d: real, e: real, overrun: real, tickValue: real, volume: real, budget: real)
    requires d <= e + overrun && overrun >= 0.0 && tickValue > 0.0 && volume > 0.0
    requires overrun > 0.0 ==> d == e + overrun
    requires LossOver(e, tickValue, volume) <= budget
    ensures LossOver(d, tickValue, volume) > budget
            <==> LossOver(overrun, tickValue, volume) > budget - LossOver(e, tickValue, volume)
    ensures LossOver(d, tickValue, volume) <= budget + LossOver(overrun, tickValue, volume)
  {
    var unit := tickValue * volume;
    LossIs(d, tickValue, volume, unit);
    LossIs(e, tickValue, volume, unit);
    LossIs(overrun, tickValue, volume, unit);
    MulOrder(d, e + overrun, unit);
    assert (e + overrun) * unit == e * unit + overrun * unit;
  }

  lemma LossIs(ticks: real, tickValue: real, volume: real, unit: real)
    requires unit == tickValue * volume && tickValue > 0.0 && volume > 0.0
    ensures LossOver(ticks, tickValue, volume) == ticks * unit && unit > 0.0
  {
  }

  /** The fill's loss counts the ticks from the unrounded price. */
  lemma FillLossInTicks(r: Request, i: Intent, x: real, l: Levels)
    requires Valid(r) && BuildShadowIntent(r) == Ok(i) && l == LevelsOf(r)
    requires x == Executable(r.setup.side, r.quote) / r.specification.tickSize
    ensures i.side == r.setup.side
    ensures FillLoss(r, i) == LossOver(Distance(i.side, x, l.stop as real), r.specification.tickValue, i.volume)
  {
    LevelsOfIntent(r);
    DistanceInTicks(Executable(i.side, r.quote), l.stop, r.specification.tickSize);
  }

  /** The stop distance counts the ticks from the rounded entry. */
  lemma StopDistance(r: Request, x: real, l: Levels)
    requires Valid(r) && l == LevelsOf(r) && x == Executable(r.setup.side, r.quote) / r.specification.tickSize
    ensures StopTicks(l) as real == Distance(r.setup.side, HalfUp(x) as real, l.stop as real)
  {
    ExecutableTicks(r);
    Shares(r.setup);
    StopNotWinning(r.setup.side, x, RiskShare(r.setup), RewardShare(r.setup));
  }

  lemma SizingFits(budget: real, loss: real, step: real, maximum: real)
    requires loss > 0.0 && step > 0.0
    ensures loss * SizedVolume(budget, loss, step, maximum) <= budget
  {
    assert OnGrid(Ticks(0, step), step);
    SizingIsOptimal(budget, loss, step, maximum, Ticks(0, step));
  }

  lemma SizedWithinBudget(spec: Specification, i: Intent, ticks: int, loss: real, budget: real)
    requires IsSized(spec, i, loss, budget) && loss == Ticks(ticks, spec.tickValue)
    ensures i.risk == LossOver(ticks as real, spec.tickValue, i.volume)
    ensures i.risk <= budget && i.volume >= spec.minimumVolume
  {
    SizingFits(budget, loss, spec.volumeStep, spec.maximumVolume);
  }

  lemma RiskWithinBudget(r: Request, l: Levels, i: Intent, budget: real)
    requires Valid(r) && SizedIntent(r, l) == Ok(i) && budget == RiskBudget(r.policy, r.account.equity)
    ensures i.risk == LossOver(StopTicks(l) as real, r.specification.tickValue, i.volume)
    ensures i.risk <= budget && i.volume >= r.specification.minimumVolume
  {
    var loss := Ticks(StopTicks(l), r.specification.tickValue);
    SizedIntentIsSized(r, l, i, loss, budget);
    SizedWithinBudget(r.specification, i, StopTicks(l), loss, budget);
  }

  lemma LossOrder(d: real, e: real, tickValue: real, volume: real)
    requires d <= e && tickValue > 0.0 && volume > 0.0
    ensures LossOver(d, tickValue, volume) <= LossOver(e, tickValue, volume)
  {
    MulOrder(d, e, tickValue);
    MulOrder(d * tickValue, e * tickValue, volume);
  }

  /** Stopped out from the quoted price an intent loses more than its budget exactly when rounding moved its entry
      towards the stop by more than the budget left over pays for; and never by more than half a tick's worth. */
  lemma FillLossIff(r: Request, i: Intent, x: real, budget: real)
    requires Valid(r) && BuildShadowIntent(r) == Ok(i) && budget == RiskBudget(r.policy, r.account.equity)
    requires x == Executable(r.setup.side, r.quote) / r.specification.tickSize
    ensures FillLoss(r, i) > budget
            <==> LossOver(Overrun(i.side, x), r.specification.tickValue, i.volume) > budget - i.risk
    ensures FillLoss(r, i) <= budget + LossOver(0.5, r.specification.tickValue, i.volume)
  {
    var l := LevelsOf(r);
    FillLossInTicks(r, i, x, l);
    StopDistance(r, x, l);
    IntentIsSized(r, i);
    RiskWithinBudget(r, l, i, budget);
    OverrunDecides(i.side, x, l.stop, r.specification.tickValue, i.volume, budget);
  }

  lemma OverrunDecides(side: Side, x: real, stop: int, tickValue: real, volume: real, budget: real)
    requires tickValue > 0.0 && volume > 0.0
    requires LossOver(Distance(side, HalfUp(x) as real, stop as real), tickValue, volume) <= budget
    ensures var fill := LossOver(Distance(side, x, stop as real), tickValue, volume);
            var risk := LossOver(Distance(side, HalfUp(x) as real, stop as real), tickValue, volume);
            && (fill > budget <==> LossOver(Overrun(side, x), tickValue, volume) > budget - risk)
            && fill <= budget + LossOver(0.5, tickValue, volume)
  {
    RoundedDistance(side, x, stop);
    LossExceedsIff(Distance(side, x, stop as real), Distance(side, HalfUp(x) as real, stop as real), Overrun(side, x),
                   tickValue, volume, budget);
    LossOrder(Overrun(side, x), 0.5, tickValue, volume);
  }

  /** Every returned intent was built on time, on one account and one symbol, from a quote near the analysis and
      not too wide. */
  lemma IntentGates(r: Request)
    requires Valid(r) && BuildShadowIntent(r).Ok?
    ensures var q, p := r.quote, r.policy;
            && r.fold(r.setup.symbol) == r.fold(q.symbol) == r.fold(r.specification.symbol)
            && Abs(2.0 * r.setup.price - q.bid - q.ask) <= p.maximumReferenceDeviation * (q.bid + q.ask)
            && r.now < r.setup.expiresAt && q.timestamp <= r.now <= q.timestamp + p.maximumQuoteAge && q.marketOpen
            && q.ask - q.bid <= p.maximumSpreadTicks * r.specification.tickSize
            && r.account.accountId == q.accountId && r.account.platform == q.platform
  {
    hide SizedIntent, LevelsOf, Gate;
    GateMeans(r);
  }

  /** Before rounding the levels keep the setup's proportions: stop and target are to the executable price what
      they are to the analysis price. */
  lemma LevelsKeepProportion(s: Setup, x: real)
    requires ValidSetup(s)
    ensures (if s.side == Long then x * (1.0 - RiskShare(s)) else x * (1.0 + RiskShare(s))) * s.price == x * s.stop
    ensures (if s.side == Long then x * (1.0 + RewardShare(s)) else x * (1.0 - RewardShare(s))) * s.price
            == x * s.target
  {
    Proportion(x, RiskShare(s), Abs(s.price - s.stop), s.price);
    Proportion(x, RewardShare(s), Abs(s.target - s.price), s.price);
  }

  lemma Proportion(x: real, share: real, d: real, price: real)
    requires price > 0.0 && share == d / price
    ensures x * (1.0 - share) * price == x * (price - d) && x * (1.0 + share) * price == x * (price + d)
  {
    assert share * price == d;
    assert x * (1.0 - share) * price == x * (price - share * price);
    assert x * (1.0 + share) * price == x * (price + share * price);
  }

  /** A long setup whose entry of ten and a half ticks is rounded up past its target. */
  const LOSING_REQUEST: Request :=
    Request(Policy(0.03, 0.03, 0.1, 5.0, 80.0, 0.0025), Setup("s", "X", Long, 10.5, 5.25, 10.6, 9.0),
            Quote("X", 10.5, 10.5, 0.0, "p", "a", "q", true), Specification("X", 1.0, 1.0, 1.0, 100.0, 1.0, 0.0),
            Account("a", "p", 10000.0, 10000.0, 1000.0), 0.0, 1.0, s => s)

  lemma LosingLevels()
    ensures Valid(LOSING_REQUEST) && LevelsOf(LOSING_REQUEST) == Levels(11, 5, 10)
  {
    var r := LOSING_REQUEST;
    var risk, reward := RiskShare(r.setup), RewardShare(r.setup);
    assert risk == 0.5 && 10.5 * reward == 0.1;
    assert 10.5 * (1.0 - risk) == 5.25 && 10.5 * (1.0 + reward) == 10.6;
  }

  /** The target can be on the losing side of a returned intent. */
  lemma TargetCanLose()
    ensures Valid(LOSING_REQUEST) && BuildShadowIntent(LOSING_REQUEST).Ok?
    ensures var i := BuildShadowIntent(LOSING_REQUEST).value; i.side == Long && i.target < i.entry
  {
    LosingLevels();
    var r := LOSING_REQUEST;
    assert Gate(r).None?;
    assert RiskBudget(r.policy, 10000.0) == 300.0;
    assert Limits(r, 300.0).None?;
    assert Ticks(StopTicks(LevelsOf(r)), 1.0) == 6.0;
    assert Floor(300.0 / 6.0 / 1.0) == 50;
    assert SizedVolume(300.0, 6.0, 1.0, 100.0) == 50.0;
  }

  /** A long setup whose entry of ten and four tenths ticks is rounded down. */
  const OVERRUN_REQUEST: Request :=
    Request(Policy(0.03, 0.03, 0.1, 5.0, 80.0, 0.0025), Setup("s", "X", Long, 10.4, 5.2, 20.8, 9.0),
            Quote("X", 10.4, 10.4, 0.0, "p", "a", "q", true), Specification("X", 1.0, 1.0, 1.0, 100.0, 1.0, 0.0),
            Account("a", "p", 10000.0, 10000.0, 1000.0), 0.0, 1.0, s => s)

  lemma OverrunLevels()
    ensures Valid(OVERRUN_REQUEST) && LevelsOf(OVERRUN_REQUEST) == Levels(10, 5, 20)
  {
    var r := OVERRUN_REQUEST;
    var risk, reward := RiskShare(r.setup), RewardShare(r.setup);
    assert risk == 0.5 && reward == 1.0;
    assert 10.4 * (1.0 - risk) == 5.2 && 10.4 * (1.0 + reward) == 20.8;
  }

  /** A fill at the quoted price can lose more than the budget. */
  lemma FillLossCanExceed()
    ensures Valid(OVERRUN_REQUEST) && BuildShadowIntent(OVERRUN_REQUEST).Ok?
    ensures var r, i := OVERRUN_REQUEST, BuildShadowIntent(OVERRUN_REQUEST).value;
            RiskBudget(r.policy, r.account.equity) == i.risk == 300.0 && FillLoss(r, i) == 324.0
  {
    OverrunLevels();
    var r := OVERRUN_REQUEST;
    assert Gate(r).None?;
    assert RiskBudget(r.policy, 10000.0) == 300.0;
    assert Limits(r, 300.0).None?;
    assert Ticks(StopTicks(LevelsOf(r)), 1.0) == 5.0;
    assert Floor(300.0 / 5.0 / 1.0) == 60;
    assert SizedVolume(300.0, 5.0, 1.0, 100.0) == 60.0;
  }
}
