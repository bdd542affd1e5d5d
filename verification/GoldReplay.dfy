/**
 The gold-futures replay cache (databento_gold.py): one selected contract and session, bounded and
 de-duplicated, failing closed on every irregularity.

 Feed timestamps are nanoseconds; clock values are microseconds, as the source's datetimes are.
 */
module GoldReplay {
  import opened Common
  import opened GoldRecords

  const UNDEF_PRICE: int := 0x7FFF_FFFF_FFFF_FFFF
  const UNDEF_TIMESTAMP: int := 0xFFFF_FFFF_FFFF_FFFF
  const SCALE: int := 1_000_000_000
  const TICK: int := 100_000_000
  const WIDEST_SPREAD: int := 5_000_000_000
  const UNDEF_SIZE: int := 0xFFFF_FFFF
  const DEFINITION_CAP: nat := 256
  const STATISTICS_CAP: nat := 128

  predicate ValidTime(ns: int) {
    0 < ns < UNDEF_TIMESTAMP
  }

  /** The microsecond clock value of a feed timestamp. */
  function Time(ns: int): int {
    ns / 1000
  }

  predicate ValidPrice(v: int) {
    0 < v && v != UNDEF_PRICE
  }

  // ---------------------------------------------------------------------
  // Records and state
  // ---------------------------------------------------------------------

  datatype Definition = Definition(instrumentId: int, rawSymbol: string, publisherId: int,
                                   asOf: int, availableAt: int, expiry: int)

  datatype DefinitionRecord = DefinitionRecord(
    publisherId: int, instrumentId: int, instrumentClass: string, asset: string, securityType: string,
    legCount: int, userDefined: string, rawSymbol: string, currency: string, unit: string,
    displayFactor: int, minPriceIncrement: int, unitQuantity: int,
    tsEvent: int, tsRecv: int, expiration: int, updateAction: string)

  datatype Level = Level(bid: int, ask: int, bidSize: int, askSize: int)

  datatype MarketRecord = MarketRecord(
    instrumentId: int, publisherId: int, tsEvent: int, tsRecv: int, flags: nat,
    price: int, size: int, sequence: int, action: string, side: string,
    levels: seq<Level>, statType: string, tsRef: int, quantity: int, updateAction: string)

  datatype Quote = Quote(bid: int, ask: int, asOf: int, eventAt: int)

  datatype Statistic = Statistic(quantity: int, referenceAt: int, publishedAt: int, updateAction: string)

  datatype Session = Session(open: int, close: int)

  datatype Config = Config(publishers: map<int, (string, string)>, capacity: nat)

  datatype State = State(
    definitions: map<int, Definition>, contract: Option<Definition>, records: seq<Trade>, seen: set<Key>,
    quote: Option<Quote>, statistics: map<(string, int), Statistic>, gaps: set<string>,
    session: Option<Session>, lastEvent: Option<int>, lastReceived: Option<int>, coverage: Option<Session>)

  const EMPTY := State(map[], None, [], {}, None, map[], {}, None, None, None, None)

  // ---------------------------------------------------------------------
  // Definitions, selection, replay envelope
  // ---------------------------------------------------------------------

  predicate IsMonthCode(c: char) {
    c in "FGHJKMNQUVXZ"
  }

  predicate IsDigit(c: char) {
    '0' <= c <= '9'
  }

  /** An outright gold future: GC, a month code and one or two digits. */
  predicate IsOutrightSymbol(s: string) {
    && 4 <= |s| <= 5 && s[0] == 'G' && s[1] == 'C' && IsMonthCode(s[2])
    && forall k :: 3 <= k < |s| ==> IsDigit(s[k])
  }

  predicate AcceptsDefinition(cfg: Config, r: DefinitionRecord, now: int) {
    && r.publisherId in cfg.publishers && cfg.publishers[r.publisherId] == ("GLBX.MDP3", "XCEC")
    && r.instrumentClass == "F" && r.asset == "GC" && r.securityType == "FUT" && r.legCount == 0
    && r.userDefined == "N" && IsOutrightSymbol(r.rawSymbol)
    && r.currency == "USD" && r.unit in ["oz", "OZS", "TROY_OUNCE"]
    && r.displayFactor == SCALE && r.minPriceIncrement == TICK && r.unitQuantity == 100 * SCALE
    && ValidTime(r.tsEvent) && ValidTime(r.tsRecv) && ValidTime(r.expiration)
    && Time(r.tsEvent) <= Time(r.tsRecv) <= now < Time(r.expiration)
    && r.updateAction in ["A", "M"]
  }

  function DefinitionOf(r: DefinitionRecord): Definition {
    Definition(r.instrumentId, r.rawSymbol, r.publisherId, Time(r.tsEvent), Time(r.tsRecv), Time(r.expiration))
  }

  function Gapped(s: State, reason: string): State {
    s.(gaps := s.gaps + {reason}, quote := None)
  }

  predicate IsSelected(s: State, instrumentId: int) {
    s.contract.Some? && s.contract.value.instrumentId == instrumentId
  }

  /** The parsed definition; None when parsing raises. */
  function ParseDefinition(cfg: Config, r: DefinitionRecord, now: int): Option<Definition> {
    if AcceptsDefinition(cfg, r, now) then Some(DefinitionOf(r)) else None
  }

  /** A rejected or changed definition of the selected contract quarantines the evidence. */
  function Flagged(s: State, instrumentId: int, parsed: Option<Definition>): State {
    if IsSelected(s, instrumentId) && parsed.None? then Gapped(s, "selected_contract_definition_rejected")
    else if IsSelected(s, instrumentId) && s.contract != parsed then Gapped(s, "selected_contract_definition_changed")
    else s
  }

  predicate CanStore(s: State, instrumentId: int) {
    instrumentId in s.definitions || |s.definitions| < DEFINITION_CAP
  }

  /** Stores a definition parsed for an instrument; the flag is false when the call raises. */
  function StoreDefinition(s: State, instrumentId: int, parsed: Option<Definition>): (State, bool) {
    var s' := Flagged(s, instrumentId, parsed);
    if parsed.None? || !CanStore(s, instrumentId) then (s', false)
    else (s'.(definitions := s.definitions[instrumentId := parsed.value]), true)
  }

  function Defined(cfg: Config, s: State, r: DefinitionRecord, now: int): (State, bool) {
    StoreDefinition(s, r.instrumentId, ParseDefinition(cfg, r, now))
  }

  predicate CanSelect(s: State, instrumentId: int, now: int, session: Session) {
    && instrumentId in s.definitions
    && s.definitions[instrumentId].availableAt <= now < s.definitions[instrumentId].expiry
    && session.open <= now < session.close
  }

  /** Whether a selection starts afresh, dropping all evidence. */
  predicate Resets(s: State, instrumentId: int, now: int, session: Session) {
    && CanSelect(s, instrumentId, now, session)
    && (s.contract != Some(s.definitions[instrumentId]) || s.session != Some(session))
  }

  /** The state after a selection; unchanged when the call raises. */
  function Selected(s: State, instrumentId: int, now: int, session: Session): State {
    if Resets(s, instrumentId, now, session) then
      State(s.definitions, Some(s.definitions[instrumentId]), [], {}, None, map[], {}, Some(session), None, None, None)
    else s
  }

  predicate CanComplete(s: State, coverage: Session, now: int) {
    && s.session.Some? && s.gaps == {} && coverage.open == s.session.value.open
    && coverage.open < coverage.close <= now
    && (s.lastReceived.Some? ==> s.lastReceived.value <= coverage.close)
  }

  function Completed(s: State, coverage: Session, now: int): State {
    if CanComplete(s, coverage, now) then s.(coverage := Some(coverage)) else s
  }

  // ---------------------------------------------------------------------
  // Ingestion
  // ---------------------------------------------------------------------

  /** True, False, or an exception. */
  datatype Verdict = Taken | Ignored | Refused

  datatype Outcome = Outcome(state: State, verdict: Verdict)

  function KeyOf(r: MarketRecord): Key {
    Key(r.sequence, r.tsEvent, r.price, r.size)
  }

  function SideOf(side: string): Side {
    if side == "A" then SellAggressor else if side == "B" then BuyAggressor else NoSide
  }

  function TradeOf(r: MarketRecord): Trade {
    Trade(KeyOf(r), Time(r.tsEvent), Time(r.tsRecv), r.price, r.size, SideOf(r.side))
  }

  predicate Belongs(s: State, r: MarketRecord, now: int) {
    && s.contract.Some? && s.session.Some?
    && r.instrumentId == s.contract.value.instrumentId && r.publisherId == s.contract.value.publisherId
    && ValidTime(r.tsEvent) && ValidTime(r.tsRecv)
    && s.contract.value.availableAt <= Time(r.tsRecv) <= now && Time(r.tsEvent) <= Time(r.tsRecv)
    && s.session.value.open <= Time(r.tsEvent) < s.session.value.close
  }

  predicate BadReceiveTime(r: MarketRecord) {
    (r.flags / 8) % 2 == 1
  }

  predicate WellPriced(r: MarketRecord) {
    ValidPrice(r.price) && 0 < r.size < UNDEF_SIZE && r.price % TICK == 0
  }

  function Keep(s: State, t: Trade): State {
    s.(records := s.records + [t], seen := s.seen + {t.key}, lastEvent := Some(t.event),
       lastReceived := Some(t.received))
  }

  function IngestTrade(cfg: Config, s: State, r: MarketRecord): Outcome {
    if !WellPriced(r) then Outcome(s, Refused)
    else if r.action != "T" then Outcome(Gapped(s, "unsupported_trade_correction"), Ignored)
    else if KeyOf(r) in s.seen then Outcome(s, Ignored)
    else if s.lastEvent.Some? && Time(r.tsEvent) < s.lastEvent.value then
      Outcome(Gapped(s, "out_of_order_trade"), Ignored)
    else if |s.records| >= cfg.capacity then Outcome(Gapped(s, "bounded_cache_overflow"), Ignored)
    else if r.side !in ["A", "B", "N"] then Outcome(s, Refused)
    else Outcome(Keep(s, TradeOf(r)), Taken)
  }

  predicate SoundLevel(l: Level) {
    && ValidPrice(l.bid) && ValidPrice(l.ask) && l.bid <= l.ask <= l.bid + WIDEST_SPREAD
    && l.bid % TICK == 0 && l.ask % TICK == 0 && l.bidSize > 0 && l.askSize > 0
  }

  function IngestQuote(s: State, r: MarketRecord): Outcome {
    if |r.levels| == 0 || !SoundLevel(r.levels[0]) then Outcome(s, Refused)
    else if s.quote.Some? && Time(r.tsRecv) < s.quote.value.asOf then
      Outcome(Gapped(s, "out_of_order_quote"), Ignored)
    else
      Outcome(s.(quote := Some(Quote(r.levels[0].bid, r.levels[0].ask, Time(r.tsRecv), Time(r.tsEvent)))), Taken)
  }

  function IngestStatistic(s: State, r: MarketRecord): Outcome {
    var key := (r.statType, r.tsRef);
    if |s.statistics| >= STATISTICS_CAP && key !in s.statistics then
      Outcome(Gapped(s, "statistics_cache_overflow"), Ignored)
    else if !ValidTime(r.tsRef) then Outcome(s, Refused)
    else
      var value := Statistic(r.quantity, Time(r.tsRef), Time(r.tsRecv), r.updateAction);
      Outcome(s.(statistics := s.statistics[key := value]), Taken)
  }

  function Tried(cfg: Config, s: State, schema: string, r: MarketRecord, now: int): Outcome {
    if !Belongs(s, r, now) then Outcome(s, Refused)
    else if BadReceiveTime(r) then Outcome(Gapped(s, "bad_receive_timestamp"), Refused)
    else if schema == "trades" then IngestTrade(cfg, s, r)
    else if schema == "mbp-1" then IngestQuote(s, r)
    else if schema == "statistics" then IngestStatistic(s, r)
    else Outcome(s, Refused)
  }

  function Ingested(cfg: Config, s: State, schema: string, r: MarketRecord, now: int): Outcome {
    var o := Tried(cfg, s, schema, r, now);
    if o.verdict == Refused then Outcome(Gapped(o.state, "record_quality_rejected"), Refused) else o
  }

  // ---------------------------------------------------------------------
  // Runs
  // ---------------------------------------------------------------------

  datatype Op =
    | AddOp(definition: DefinitionRecord, now: int)
    | SelectOp(instrumentId: int, now: int, session: Session)
    | CompleteOp(coverage: Session, now: int)
    | GapOp(reason: string)
    | IngestOp(schema: string, record: MarketRecord, now: int)

  function Do(cfg: Config, s: State, op: Op): State {
    match op
    case AddOp(definition, now) => StoreDefinition(s, definition.instrumentId, ParseDefinition(cfg, definition, now)).0
    case SelectOp(instrumentId, now, session) => Selected(s, instrumentId, now, session)
    case CompleteOp(coverage, now) => Completed(s, coverage, now)
    case GapOp(reason) => Gapped(s, reason)
    case IngestOp(schema, record, now) => Ingested(cfg, s, schema, record, now).state
  }

  function Run(cfg: Config, ops: seq<Op>): State {
    if ops == [] then EMPTY else Do(cfg, Run(cfg, ops[..|ops| - 1]), ops[|ops| - 1])
  }

  lemma RunNext(cfg: Config, ops: seq<Op>, op: Op)
    ensures Run(cfg, ops + [op]) == Do(cfg, Run(cfg, ops), op)
  {
  }

  /** Whether the operation drops the evidence gathered so far. */
  predicate StartsAfresh(s: State, op: Op) {
    op.SelectOp? && Resets(s, op.instrumentId, op.now, op.session)
  }

  // ---------------------------------------------------------------------
  // Invariants of every run
  // ---------------------------------------------------------------------

  ghost predicate DistinctKeys(records: seq<Trade>) {
    forall i, j :: 0 <= i < j < |records| ==> records[i].key != records[j].key
  }

  ghost predicate InOrder(records: seq<Trade>) {
    forall i, j :: 0 <= i < j < |records| ==> records[i].event <= records[j].event
  }

  ghost predicate HasKey(records: seq<Trade>, key: Key) {
    exists k :: 0 <= k < |records| && records[k].key == key
  }

  ghost predicate SeenAreKeys(records: seq<Trade>, seen: set<Key>) {
    forall key :: key in seen <==> HasKey(records, key)
  }

  /** A kept trade is what the contract and session allow. */
  predicate GoodTrade(t: Trade, contract: Definition, session: Session) {
    && session.open <= t.event < session.close && t.event <= t.received && contract.availableAt <= t.received
    && ValidPrice(t.price) && t.price % TICK == 0 && 0 < t.size < UNDEF_SIZE
    && t.key.price == t.price && t.key.size == t.size && Time(t.key.tsEvent) == t.event
  }

  ghost predicate GoodTrades(records: seq<Trade>, contract: Option<Definition>, session: Option<Session>) {
    forall k :: 0 <= k < |records| ==>
      contract.Some? && session.Some? && GoodTrade(records[k], contract.value, session.value)
  }

  /** The clocks are those of the last kept trade. */
  predicate ClocksFollow(records: seq<Trade>, lastEvent: Option<int>, lastReceived: Option<int>) {
    if records == [] then lastEvent.None? && lastReceived.None?
    else lastEvent == Some(records[|records| - 1].event) && lastReceived == Some(records[|records| - 1].received)
  }

  ghost predicate SoundLog(records: seq<Trade>, seen: set<Key>, contract: Option<Definition>, session: Option<Session>,
                           lastEvent: Option<int>, lastReceived: Option<int>) {
    && DistinctKeys(records) && InOrder(records) && SeenAreKeys(records, seen)
    && GoodTrades(records, contract, session) && ClocksFollow(records, lastEvent, lastReceived)
  }

  predicate SoundContext(s: State) {
    && (s.contract.Some? <==> s.session.Some?)
    && (s.quote.Some? ==>
          && s.contract.Some?
          && s.quote.value.bid <= s.quote.value.ask <= s.quote.value.bid + WIDEST_SPREAD
                          && s.quote.value.eventAt <= s.quote.value.asOf)
    && (s.coverage.Some? ==> s.session.Some? && s.coverage.value.open == s.session.value.open
                             && s.coverage.value.open < s.coverage.value.close)
  }

  predicate WithinCaps(cfg: Config, s: State) {
    |s.records| <= cfg.capacity && |s.definitions| <= DEFINITION_CAP && |s.statistics| <= STATISTICS_CAP
  }

  ghost predicate Sound(cfg: Config, s: State) {
    && SoundLog(s.records, s.seen, s.contract, s.session, s.lastEvent, s.lastReceived)
    && SoundContext(s) && WithinCaps(cfg, s)
  }

  lemma SeenExtends(records: seq<Trade>, seen: set<Key>, t: Trade)
    requires SeenAreKeys(records, seen)
    ensures SeenAreKeys(records + [t], seen + {t.key})
  {
    var more := records + [t];
    assert more[|records|] == t;
    forall key ensures key in seen + {t.key} <==> HasKey(more, key) {
      if HasKey(records, key) {
        var k :| 0 <= k < |records| && records[k].key == key;
        assert more[k].key == key;
      }
      if k :| 0 <= k < |more| && more[k].key == key {
        assert k < |records| ==> records[k].key == key;
      }
    }
  }

  lemma LogExtends(records: seq<Trade>, seen: set<Key>, contract: Option<Definition>, session: Option<Session>,
                   lastEvent: Option<int>, lastReceived: Option<int>, t: Trade)
    requires SoundLog(records, seen, contract, session, lastEvent, lastReceived) && t.key !in seen
    requires contract.Some? && session.Some? && GoodTrade(t, contract.value, session.value)
    requires lastEvent.Some? ==> lastEvent.value <= t.event
    ensures SoundLog(records + [t], seen + {t.key}, contract, session, Some(t.event), Some(t.received))
  {
    SeenExtends(records, seen, t);
    DistinctExtends(records, t);
    OrderExtends(records, t);
  }

  lemma DistinctExtends(records: seq<Trade>, t: Trade)
    requires DistinctKeys(records) && !HasKey(records, t.key)
    ensures DistinctKeys(records + [t])
  {
  }

  lemma OrderExtends(records: seq<Trade>, t: Trade)
    requires InOrder(records) && (records == [] || records[|records| - 1].event <= t.event)
    ensures InOrder(records + [t])
  {
  }

  lemma KeepingIsSound(cfg: Config, s: State, t: Trade)
    requires Sound(cfg, s) && t.key !in s.seen && |s.records| < cfg.capacity
    requires s.contract.Some? && s.session.Some? && GoodTrade(t, s.contract.value, s.session.value)
    requires s.lastEvent.Some? ==> s.lastEvent.value <= t.event
    ensures Sound(cfg, Keep(s, t))
  {
    LogExtends(s.records, s.seen, s.contract, s.session, s.lastEvent, s.lastReceived, t);
  }

  lemma KeepsTrade(cfg: Config, s: State, r: MarketRecord, now: int)
    requires Sound(cfg, s) && Belongs(s, r, now)
    ensures Sound(cfg, IngestTrade(cfg, s, r).state)
  {
    var o := IngestTrade(cfg, s, r);
    if o.verdict == Taken {
      KeepingIsSound(cfg, s, TradeOf(r));
    } else {
      KeepsGap(cfg, s, "unsupported_trade_correction");
      KeepsGap(cfg, s, "out_of_order_trade");
      KeepsGap(cfg, s, "bounded_cache_overflow");
    }
  }

  /** The log of kept trades is untouched. */
  predicate SameLog(s: State, t: State) {
    && t.records == s.records && t.seen == s.seen && t.contract == s.contract && t.session == s.session
    && t.lastEvent == s.lastEvent && t.lastReceived == s.lastReceived
  }

  lemma KeepsOther(cfg: Config, s: State, t: State)
    requires Sound(cfg, s) && SameLog(s, t) && SoundContext(t) && WithinCaps(cfg, t)
    ensures Sound(cfg, t)
  {
  }

  lemma KeepsQuote(cfg: Config, s: State, r: MarketRecord, now: int)
    requires Sound(cfg, s) && Belongs(s, r, now)
    ensures Sound(cfg, IngestQuote(s, r).state)
  {
    KeepsOther(cfg, s, IngestQuote(s, r).state);
  }

  lemma StatisticsKeepSound(cfg: Config, s: State, statistics: map<(string, int), Statistic>)
    requires Sound(cfg, s) && |statistics| <= STATISTICS_CAP
    ensures Sound(cfg, s.(statistics := statistics))
  {
  }

  lemma KeepsStatistic(cfg: Config, s: State, r: MarketRecord, now: int)
    requires Sound(cfg, s) && Belongs(s, r, now)
    ensures Sound(cfg, IngestStatistic(s, r).state)
  {
    var key, o := (r.statType, r.tsRef), IngestStatistic(s, r);
    if o.verdict == Taken {
      PutSize(s.statistics, key, o.state.statistics[key]);
      StatisticsKeepSound(cfg, s, o.state.statistics);
    } else {
      KeepsGap(cfg, s, "statistics_cache_overflow");
    }
  }

  lemma KeepsGap(cfg: Config, s: State, reason: string)
    requires Sound(cfg, s)
    ensures Sound(cfg, Gapped(s, reason))
  {
  }

  lemma TryIngestKeepsSound(cfg: Config, s: State, schema: string, r: MarketRecord, now: int)
    requires Sound(cfg, s)
    ensures Sound(cfg, Tried(cfg, s, schema, r, now).state)
  {
    if Belongs(s, r, now) {
      if BadReceiveTime(r) {
        KeepsGap(cfg, s, "bad_receive_timestamp");
      } else if schema == "trades" {
        KeepsTrade(cfg, s, r, now);
      } else if schema == "mbp-1" {
        KeepsQuote(cfg, s, r, now);
      } else if schema == "statistics" {
        KeepsStatistic(cfg, s, r, now);
      }
    }
  }

  lemma FlaggedKeepsSound(cfg: Config, s: State, instrumentId: int, parsed: Option<Definition>)
    requires Sound(cfg, s)
    ensures Sound(cfg, Flagged(s, instrumentId, parsed))
    ensures Flagged(s, instrumentId, parsed).definitions == s.definitions
  {
    KeepsGap(cfg, s, "selected_contract_definition_rejected");
    KeepsGap(cfg, s, "selected_contract_definition_changed");
  }

  lemma PutSize<K, V>(m: map<K, V>, k: K, v: V)
    ensures |m[k := v]| == |m| + Count(k !in m)
  {
  }

  lemma DefinitionsKeepSound(cfg: Config, s: State, definitions: map<int, Definition>)
    requires Sound(cfg, s) && |definitions| <= DEFINITION_CAP
    ensures Sound(cfg, s.(definitions := definitions))
  {
  }

  lemma StoreKeepsSound(cfg: Config, s: State, instrumentId: int, parsed: Option<Definition>)
    requires Sound(cfg, s)
    ensures Sound(cfg, StoreDefinition(s, instrumentId, parsed).0)
  {
    FlaggedKeepsSound(cfg, s, instrumentId, parsed);
    if parsed.Some? && CanStore(s, instrumentId) {
      PutSize(s.definitions, instrumentId, parsed.value);
      DefinitionsKeepSound(cfg, Flagged(s, instrumentId, parsed), s.definitions[instrumentId := parsed.value]);
    }
  }

  lemma SelectKeepsSound(cfg: Config, s: State, instrumentId: int, now: int, session: Session)
    requires Sound(cfg, s)
    ensures Sound(cfg, Selected(s, instrumentId, now, session))
  {
  }

  lemma KeepsSound(cfg: Config, s: State, op: Op)
    requires Sound(cfg, s)
    ensures Sound(cfg, Do(cfg, s, op))
  {
    match op
    case AddOp(r, now) => StoreKeepsSound(cfg, s, r.instrumentId, ParseDefinition(cfg, r, now));
    case SelectOp(instrumentId, now, session) => SelectKeepsSound(cfg, s, instrumentId, now, session);
    case CompleteOp(coverage, now) => KeepsOther(cfg, s, Completed(s, coverage, now));
    case GapOp(reason) => KeepsGap(cfg, s, reason);
    case IngestOp(schema, r, now) =>
      TryIngestKeepsSound(cfg, s, schema, r, now);
      KeepsGap(cfg, Tried(cfg, s, schema, r, now).state, "record_quality_rejected");
  }

  /** Every reachable state is sound. */
  lemma {:induction false} RunIsSound(cfg: Config, ops: seq<Op>)
    ensures Sound(cfg, Run(cfg, ops))
  {
    if ops != [] {
      RunIsSound(cfg, ops[..|ops| - 1]);
      KeepsSound(cfg, Run(cfg, ops[..|ops| - 1]), ops[|ops| - 1]);
    }
  }

  /** Every stored definition is of its own instrument and was available before it expires. */
  ghost predicate SoundDefinitions(definitions: map<int, Definition>) {
    forall id :: id in definitions ==>
      var d := definitions[id];
      d.instrumentId == id && d.asOf <= d.availableAt < d.expiry && IsOutrightSymbol(d.rawSymbol)
  }

  lemma DefinitionsAfter(cfg: Config, s: State, op: Op)
    ensures Do(cfg, s, op).definitions == s.definitions
            || (op.AddOp? && AcceptsDefinition(cfg, op.definition, op.now)
                && Do(cfg, s, op).definitions
                  == s.definitions[op.definition.instrumentId := DefinitionOf(op.definition)])
  {
    match op
    case AddOp(r, now) =>
    case IngestOp(schema, r, now) => IngestKeepsDefinitions(cfg, s, schema, r, now);
    case _ =>
  }

  lemma IngestKeepsDefinitions(cfg: Config, s: State, schema: string, r: MarketRecord, now: int)
    ensures Ingested(cfg, s, schema, r, now).state.definitions == s.definitions
  {
    IngestRetains(cfg, s, schema, r, now);
  }

  lemma {:induction false} RunDefinitions(cfg: Config, ops: seq<Op>)
    ensures SoundDefinitions(Run(cfg, ops).definitions)
  {
    if ops != [] {
      RunDefinitions(cfg, ops[..|ops| - 1]);
      DefinitionsAfter(cfg, Run(cfg, ops[..|ops| - 1]), ops[|ops| - 1]);
    }
  }

  /** A definition call stores what it parsed, within the cap, and leaves clean evidence clean exactly when it
      neither rejects nor changes the definition of the selected contract. */
  lemma DefinitionCleanIff(cfg: Config, s: State, r: DefinitionRecord, now: int)
    requires s.gaps == {}
    ensures var (t, ok) := Defined(cfg, s, r, now);
            && (t.gaps == {} <==> !IsSelected(s, r.instrumentId)
                                  || (AcceptsDefinition(cfg, r, now) && s.contract == Some(DefinitionOf(r))))
            && (ok <==>
                && AcceptsDefinition(cfg, r, now)
                && (r.instrumentId in s.definitions || |s.definitions| < DEFINITION_CAP))
            && (ok ==> r.instrumentId in t.definitions && t.definitions[r.instrumentId] == DefinitionOf(r))
            && (forall id :: id in s.definitions && (id != r.instrumentId || !ok) ==>
                  id in t.definitions && t.definitions[id] == s.definitions[id])
  {
  }

  // ---------------------------------------------------------------------
  // What the operations do, on the fields of their records
  // ---------------------------------------------------------------------

  /** A nanosecond timestamp that is set. */
  predicate IsSet(ns: int) {
    1 <= ns <= 0xFFFF_FFFF_FFFF_FFFE
  }

  /** "GC", a month code and one or two digits. */
  predicate IsGoldCode(symbol: string) {
    && symbol[..MinInt(|symbol|, 2)] == "GC" && |symbol| in {4, 5}
    && symbol[2] in {'F', 'G', 'H', 'J', 'K', 'M', 'N', 'Q', 'U', 'V', 'X', 'Z'}
    && '0' <= symbol[3] <= '9' && (|symbol| == 5 ==> '0' <= symbol[4] <= '9')
  }

  /** The record defines an outright COMEX gold future of 100 ounces in ticks of ten cents, known and current at
      `now`. */
  predicate DefinesGold(cfg: Config, r: DefinitionRecord, now: int) {
    && r.publisherId in cfg.publishers && cfg.publishers[r.publisherId].0 == "GLBX.MDP3"
    && cfg.publishers[r.publisherId].1 == "XCEC"
    && (r.instrumentClass, r.asset, r.securityType) == ("F", "GC", "FUT")
    && r.legCount == 0 && r.userDefined == "N" && IsGoldCode(r.rawSymbol)
    && r.currency == "USD" && (r.unit == "oz" || r.unit == "OZS" || r.unit == "TROY_OUNCE")
    && (r.displayFactor, r.minPriceIncrement, r.unitQuantity) == (1_000_000_000, 100_000_000, 100_000_000_000)
    && IsSet(r.tsEvent) && IsSet(r.tsRecv) && IsSet(r.expiration)
    && r.tsEvent / 1000 <= r.tsRecv / 1000 <= now < r.expiration / 1000
    && (r.updateAction == "A" || r.updateAction == "M")
  }

  lemma GoldCode(symbol: string)
    ensures IsOutrightSymbol(symbol) <==> IsGoldCode(symbol)
  {
    assert |symbol| >= 2 ==> (symbol[..2] == "GC" <==> symbol[0] == 'G' && symbol[1] == 'C');
  }

  lemma AcceptsGold(cfg: Config, r: DefinitionRecord, now: int)
    ensures AcceptsDefinition(cfg, r, now) <==> DefinesGold(cfg, r, now)
  {
    GoldCode(r.rawSymbol);
  }

  /** What a call adds to the quarantine; any addition drops the quote. */
  function Quarantined(s: State, reasons: set<string>): State {
    if reasons == {} then s else s.(gaps := s.gaps + reasons, quote := None)
  }

  /** The reasons for which a definition, parsed or rejected, quarantines the evidence of the selected contract. */
  function DefinitionReasons(s: State, instrumentId: int, parsed: Option<Definition>): set<string> {
    if s.contract.None? || s.contract.value.instrumentId != instrumentId || s.contract == parsed then {}
    else if parsed.None? then {"selected_contract_definition_rejected"}
    else {"selected_contract_definition_changed"}
  }

  lemma StoreEffect(s: State, instrumentId: int, parsed: Option<Definition>)
    ensures var (t, ok) := StoreDefinition(s, instrumentId, parsed);
            && (ok <==> parsed.Some? && (instrumentId in s.definitions || |s.definitions| < 256))
            && t == Quarantined(s, DefinitionReasons(s, instrumentId, parsed)).(
                      definitions := if ok then s.definitions[instrumentId := parsed.value] else s.definitions)
  {
  }

  /** A definition call succeeds exactly for the definition of a gold future within the cap, and then stores it. It
      quarantines exactly when it rejects or changes the definition of the selected contract. */
  lemma DefinitionEffect(cfg: Config, s: State, r: DefinitionRecord, now: int)
    ensures var (t, ok) := Defined(cfg, s, r, now);
            var value := Definition(r.instrumentId, r.rawSymbol, r.publisherId, r.tsEvent / 1000, r.tsRecv / 1000,
                                    r.expiration / 1000);
            var parsed := if DefinesGold(cfg, r, now) then Some(value) else None;
            && (ok <==> parsed.Some? && (r.instrumentId in s.definitions || |s.definitions| < 256))
            && t == Quarantined(s, DefinitionReasons(s, r.instrumentId, parsed)).(
                      definitions := if ok then s.definitions[r.instrumentId := value] else s.definitions)
  {
    AcceptsGold(cfg, r, now);
    StoreEffect(s, r.instrumentId, ParseDefinition(cfg, r, now));
  }

  /** A selection succeeds exactly for a stored definition that is known and unexpired, within the session; then
      contract and session are the selected ones. If that changes either, every trace of the old evidence is gone, and
      otherwise nothing changes at all. */
  lemma SelectionEffect(s: State, instrumentId: int, now: int, session: Session)
    ensures var t := Selected(s, instrumentId, now, session);
            var allowed := && instrumentId in s.definitions && s.definitions[instrumentId].availableAt <= now
                           && now < s.definitions[instrumentId].expiry && session.open <= now < session.close;
            && (CanSelect(s, instrumentId, now, session) <==> allowed)
            && t.definitions == s.definitions && (!allowed ==> t == s)
            && (allowed ==>
                  && t.contract == Some(s.definitions[instrumentId]) && t.session == Some(session)
                  && if s.contract == t.contract && s.session == t.session then t == s
                     else
                       && t.records == [] && t.seen == {} && t.quote.None? && t.statistics == map[] && t.gaps == {}
                       && t.lastEvent.None? && t.lastReceived.None? && t.coverage.None?)
  {
  }

  /** An envelope is accepted exactly when nothing is quarantined, it opens with the session, ends by now and no earlier
      than the last receipt; only the coverage changes. */
  lemma CompletionEffect(s: State, coverage: Session, now: int)
    ensures var allowed := && s.session.Some? && s.gaps == {} && coverage.open == s.session.value.open
                           && coverage.open < coverage.close && coverage.close <= now
                           && (s.lastReceived.Some? ==> coverage.close >= s.lastReceived.value);
            && (CanComplete(s, coverage, now) <==> allowed)
            && Completed(s, coverage, now) == if allowed then s.(coverage := Some(coverage)) else s
  {
  }

  /** The record is of the selected contract, within its session, and was received no earlier than the contract was
      known and no later than now. */
  predicate IsCurrent(s: State, r: MarketRecord, now: int) {
    && s.contract.Some? && s.session.Some?
    && r.instrumentId == s.contract.value.instrumentId && r.publisherId == s.contract.value.publisherId
    && IsSet(r.tsEvent) && IsSet(r.tsRecv) && r.tsEvent / 1000 <= r.tsRecv / 1000 <= now
    && s.contract.value.availableAt <= r.tsRecv / 1000
    && s.session.value.open <= r.tsEvent / 1000 && r.tsEvent / 1000 < s.session.value.close
  }

  /** The flag for an unreliable receive time, bit 3. */
  predicate IsUnreliable(r: MarketRecord) {
    8 <= r.flags % 16
  }

  /** A set positive price in whole ticks of ten cents. */
  predicate OnTick(price: int) {
    price > 0 && price != 0x7FFF_FFFF_FFFF_FFFF && price % 100_000_000 == 0
  }

  predicate Sellable(r: MarketRecord) {
    OnTick(r.price) && 1 <= r.size <= 0xFFFF_FFFE
  }

  lemma ChecksAre(s: State, r: MarketRecord, now: int)
    ensures Belongs(s, r, now) <==> IsCurrent(s, r, now)
    ensures BadReceiveTime(r) <==> IsUnreliable(r)
    ensures WellPriced(r) <==> Sellable(r)
  {
  }

  /** The reasons for which a trade record quarantines the evidence; none when it is taken or an exact duplicate. */
  function TradeReasons(cfg: Config, s: State, r: MarketRecord, now: int): set<string> {
    if !IsCurrent(s, r, now) then {"record_quality_rejected"}
    else if IsUnreliable(r) then {"bad_receive_timestamp", "record_quality_rejected"}
    else if !Sellable(r) then {"record_quality_rejected"}
    else if r.action != "T" then {"unsupported_trade_correction"}
    else if Key(r.sequence, r.tsEvent, r.price, r.size) in s.seen then {}
    else if s.lastEvent.Some? && r.tsEvent / 1000 < s.lastEvent.value then {"out_of_order_trade"}
    else if |s.records| >= cfg.capacity then {"bounded_cache_overflow"}
    else if r.side != "A" && r.side != "B" && r.side != "N" then {"record_quality_rejected"}
    else {}
  }

  /** A trade record is taken exactly when there is nothing against it and it repeats no kept one; it is then appended
      with its clocks. It raises exactly when it is rejected for its quality. */
  lemma TradeEffect(cfg: Config, s: State, r: MarketRecord, now: int)
    ensures var o, reasons := Ingested(cfg, s, "trades", r, now), TradeReasons(cfg, s, r, now);
            var key := Key(r.sequence, r.tsEvent, r.price, r.size);
            && (o.verdict == Taken <==> reasons == {} && key !in s.seen)
            && (o.verdict == Refused <==> "record_quality_rejected" in reasons)
            && o.state == (if o.verdict != Taken then Quarantined(s, reasons)
                           else s.(records := o.state.records, seen := s.seen + {key},
                                   lastEvent := Some(r.tsEvent / 1000), lastReceived := Some(r.tsRecv / 1000)))
            && (o.verdict == Taken ==>
                  && |o.state.records| == |s.records| + 1 && o.state.records[..|s.records|] == s.records
                  && var t := o.state.records[|s.records|];
                     && t.key == key && (t.event, t.received) == (r.tsEvent / 1000, r.tsRecv / 1000)
                     && (t.price, t.size) == (r.price, r.size)
                     && (t.side == BuyAggressor <==> r.side == "B") && (t.side == SellAggressor <==> r.side == "A"))
  {
    ChecksAre(s, r, now);
  }

  /** The top of the book is two-sided, on tick, uncrossed and at most five dollars wide. */
  predicate IsTwoSided(r: MarketRecord) {
    && r.levels != []
    && var top := r.levels[0];
       && OnTick(top.bid) && OnTick(top.ask) && 0 <= top.ask - top.bid <= 5_000_000_000
       && top.bidSize > 0 && top.askSize > 0
  }

  function QuoteReasons(s: State, r: MarketRecord, now: int): set<string> {
    if !IsCurrent(s, r, now) then {"record_quality_rejected"}
    else if IsUnreliable(r) then {"bad_receive_timestamp", "record_quality_rejected"}
    else if !IsTwoSided(r) then {"record_quality_rejected"}
    else if s.quote.Some? && r.tsRecv / 1000 < s.quote.value.asOf then {"out_of_order_quote"}
    else {}
  }

  /** A book record with nothing against it becomes the quote, with the prices of the top level. */
  lemma QuoteEffect(cfg: Config, s: State, r: MarketRecord, now: int)
    ensures var o, reasons := Ingested(cfg, s, "mbp-1", r, now), QuoteReasons(s, r, now);
            && (o.verdict == Taken <==> reasons == {})
            && (o.verdict == Refused <==> "record_quality_rejected" in reasons)
            && o.state == if reasons != {} then Quarantined(s, reasons)
                          else s.(quote := Some(Quote(r.levels[0].bid, r.levels[0].ask, r.tsRecv / 1000,
                                                      r.tsEvent / 1000)))
  {
    ChecksAre(s, r, now);
  }

  function StatisticReasons(s: State, r: MarketRecord, now: int): set<string> {
    if !IsCurrent(s, r, now) then {"record_quality_rejected"}
    else if IsUnreliable(r) then {"bad_receive_timestamp", "record_quality_rejected"}
    else if |s.statistics| >= 128 && (r.statType, r.tsRef) !in s.statistics then {"statistics_cache_overflow"}
    else if !IsSet(r.tsRef) then {"record_quality_rejected"}
    else {}
  }

  /** A statistic with nothing against it is stored under its type and reference time, whatever it says. */
  lemma StatisticEffect(cfg: Config, s: State, r: MarketRecord, now: int)
    ensures var o, reasons := Ingested(cfg, s, "statistics", r, now), StatisticReasons(s, r, now);
            && (o.verdict == Taken <==> reasons == {})
            && (o.verdict == Refused <==> "record_quality_rejected" in reasons)
            && o.state == if reasons != {} then Quarantined(s, reasons)
                          else s.(statistics := s.statistics[(r.statType, r.tsRef) :=
                                    Statistic(r.quantity, r.tsRef / 1000, r.tsRecv / 1000, r.updateAction)])
  {
    ChecksAre(s, r, now);
  }

  /** No other schema is ever taken. */
  lemma OtherSchemaEffect(cfg: Config, s: State, schema: string, r: MarketRecord, now: int)
    requires schema != "trades" && schema != "mbp-1" && schema != "statistics"
    ensures var o := Ingested(cfg, s, schema, r, now);
            o.verdict == Refused && "record_quality_rejected" in o.state.gaps && o.state.quote.None?
  {
  }

  // ---------------------------------------------------------------------
  // Failing closed
  // ---------------------------------------------------------------------

  /** An exact duplicate of a kept trade. */
  predicate Duplicates(s: State, schema: string, r: MarketRecord, now: int) {
    && schema == "trades" && Belongs(s, r, now) && !BadReceiveTime(r) && WellPriced(r) && r.action == "T"
    && KeyOf(r) in s.seen
  }

  lemma DuplicateIsIgnored(cfg: Config, s: State, schema: string, r: MarketRecord, now: int)
    requires Duplicates(s, schema, r, now)
    ensures Ingested(cfg, s, schema, r, now) == Outcome(s, Ignored)
  {
  }

  /** Unquarantined evidence stays clean exactly when the record is taken in or is an exact duplicate:
      every other outcome, silent or not, leaves a gap. */
  lemma CleanIff(cfg: Config, s: State, schema: string, r: MarketRecord, now: int)
    requires s.gaps == {}
    ensures var o := Ingested(cfg, s, schema, r, now);
            o.state.gaps == {} <==> o.verdict == Taken || Duplicates(s, schema, r, now)
  {
    var o := Tried(cfg, s, schema, r, now);
    if Belongs(s, r, now) && !BadReceiveTime(r) && schema == "trades" {
      CleanTradeIff(cfg, s, r);
    }
  }

  lemma CleanTradeIff(cfg: Config, s: State, r: MarketRecord)
    requires s.gaps == {}
    ensures var o := IngestTrade(cfg, s, r);
            o.verdict != Refused ==>
              (o.state.gaps == {} <==> o.verdict == Taken || (WellPriced(r) && r.action == "T" && KeyOf(r) in s.seen))
  {
  }

  /** What a trade offered to clean evidence does when the evidence stays clean. */
  lemma CleanTrade(cfg: Config, s: State, r: MarketRecord, now: int)
    requires s.gaps == {} && Ingested(cfg, s, "trades", r, now).state.gaps == {}
    ensures var t := Ingested(cfg, s, "trades", r, now).state;
            if KeyOf(r) in s.seen then t == s else t == Keep(s, TradeOf(r))
  {
    CleanIff(cfg, s, "trades", r, now);
    var o := IngestTrade(cfg, s, r);
    if Ingested(cfg, s, "trades", r, now).verdict == Taken {
      assert o.verdict == Taken;
    } else {
      DuplicateIsIgnored(cfg, s, "trades", r, now);
    }
  }

  /** Nothing selected, kept or quarantined is given up without a fresh start. */
  ghost predicate Retains(s: State, t: State) {
    && t.contract == s.contract && t.session == s.session && s.seen <= t.seen && s.gaps <= t.gaps
  }

  lemma FlaggedRetains(s: State, instrumentId: int, parsed: Option<Definition>)
    ensures var t := Flagged(s, instrumentId, parsed); Retains(s, t) && t.records == s.records
  {
  }

  lemma StoreRetains(s: State, instrumentId: int, parsed: Option<Definition>)
    ensures var t := StoreDefinition(s, instrumentId, parsed).0; Retains(s, t) && t.records == s.records
  {
    FlaggedRetains(s, instrumentId, parsed);
    var t := StoreDefinition(s, instrumentId, parsed).0;
    assert t == Flagged(s, instrumentId, parsed).(definitions := t.definitions);
  }

  lemma TradeRetains(cfg: Config, s: State, r: MarketRecord)
    ensures var t := IngestTrade(cfg, s, r).state; Retains(s, t) && t.definitions == s.definitions
  {
    GapRetains(s, "unsupported_trade_correction");
    GapRetains(s, "out_of_order_trade");
    GapRetains(s, "bounded_cache_overflow");
    KeepRetains(s, TradeOf(r));
  }

  lemma GapRetains(s: State, reason: string)
    ensures Retains(s, Gapped(s, reason)) && Gapped(s, reason).definitions == s.definitions
  {
  }

  lemma KeepRetains(s: State, t: Trade)
    ensures Retains(s, Keep(s, t)) && Keep(s, t).definitions == s.definitions
  {
  }

  lemma QuoteRetains(s: State, r: MarketRecord)
    ensures var t := IngestQuote(s, r).state; Retains(s, t) && t.records == s.records && t.definitions == s.definitions
  {
  }

  lemma StatisticRetains(s: State, r: MarketRecord)
    ensures var t := IngestStatistic(s, r).state;
            Retains(s, t) && t.records == s.records && t.definitions == s.definitions
  {
  }

  lemma IngestRetains(cfg: Config, s: State, schema: string, r: MarketRecord, now: int)
    ensures var t := Ingested(cfg, s, schema, r, now).state;
            Retains(s, t) && t.definitions == s.definitions && (schema != "trades" ==> t.records == s.records)
  {
    if Belongs(s, r, now) && !BadReceiveTime(r) {
      if schema == "trades" {
        TradeRetains(cfg, s, r);
      } else if schema == "mbp-1" {
        QuoteRetains(s, r);
      } else if schema == "statistics" {
        StatisticRetains(s, r);
      }
    }
  }

  /** Only a fresh start gives anything up, and only an offered trade is ever kept. */
  lemma StepRetains(cfg: Config, s: State, op: Op)
    requires !StartsAfresh(s, op)
    ensures Retains(s, Do(cfg, s, op))
    ensures !(op.IngestOp? && op.schema == "trades") ==> Do(cfg, s, op).records == s.records
  {
    match op
    case AddOp(r, now) => StoreRetains(s, r.instrumentId, ParseDefinition(cfg, r, now));
    case SelectOp(instrumentId, now, session) =>
    case CompleteOp(coverage, now) =>
    case GapOp(reason) =>
    case IngestOp(schema, r, now) => IngestRetains(cfg, s, schema, r, now);
  }

  /** The operations `more`, run after `ops`, never start afresh. */
  predicate NoRestart(cfg: Config, ops: seq<Op>, more: seq<Op>) {
    if more == [] then true
    else
      && NoRestart(cfg, ops, more[..|more| - 1])
      && !StartsAfresh(Run(cfg, ops + more[..|more| - 1]), more[|more| - 1])
  }

  lemma {:induction false} RunRetains(cfg: Config, ops: seq<Op>, more: seq<Op>)
    requires NoRestart(cfg, ops, more)
    ensures Retains(Run(cfg, ops), Run(cfg, ops + more))
  {
    if more == [] {
      assert ops + more == ops;
    } else {
      var init, last := more[..|more| - 1], more[|more| - 1];
      RunRetains(cfg, ops, init);
      assert ops + more == ops + init + [last];
      RunNext(cfg, ops + init, last);
      StepRetains(cfg, Run(cfg, ops + init), last);
    }
  }

  /** Re-sending a trade that was taken in changes nothing, however much happened in between and however
      late it is, until the evidence starts afresh. */
  lemma ResentTradeIsNoOp(cfg: Config, ops: seq<Op>, r: MarketRecord, now: int, more: seq<Op>, later: int)
    requires Ingested(cfg, Run(cfg, ops), "trades", r, now).verdict == Taken && now <= later
    requires NoRestart(cfg, ops + [IngestOp("trades", r, now)], more)
    ensures var s := Run(cfg, ops + [IngestOp("trades", r, now)] + more);
            Ingested(cfg, s, "trades", r, later) == Outcome(s, Ignored)
  {
    var op := IngestOp("trades", r, now);
    RunNext(cfg, ops, op);
    TakenDuplicates(cfg, Run(cfg, ops), r, now);
    RunRetains(cfg, ops + [op], more);
    var s := Run(cfg, ops + [op] + more);
    StillDuplicates(Run(cfg, ops + [op]), s, r, now, later);
    DuplicateIsIgnored(cfg, s, "trades", r, later);
  }

  lemma TakenDuplicates(cfg: Config, s: State, r: MarketRecord, now: int)
    requires Ingested(cfg, s, "trades", r, now).verdict == Taken
    ensures Duplicates(Ingested(cfg, s, "trades", r, now).state, "trades", r, now)
  {
  }

  lemma StillDuplicates(s: State, t: State, r: MarketRecord, now: int, later: int)
    requires Retains(s, t) && Duplicates(s, "trades", r, now) && now <= later
    ensures Duplicates(t, "trades", r, later)
  {
  }

  // ---------------------------------------------------------------------
  // Nothing is lost silently
  // ---------------------------------------------------------------------

  /** The trade records offered since the last fresh start, in order, whatever became of them. */
  function Offered(cfg: Config, ops: seq<Op>): seq<MarketRecord> {
    if ops == [] then []
    else
      var init, last := ops[..|ops| - 1], ops[|ops| - 1];
      if StartsAfresh(Run(cfg, init), last) then []
      else Offered(cfg, init) + if last.IngestOp? && last.schema == "trades" then [last.record] else []
  }

  ghost predicate HasOffer(s: seq<MarketRecord>, key: Key) {
    exists k :: 0 <= k < |s| && KeyOf(s[k]) == key
  }

  /** The first occurrence of each key, in order. */
  ghost function FirstSeen(s: seq<MarketRecord>): seq<Trade> {
    if s == [] then []
    else
      var init, last := s[..|s| - 1], s[|s| - 1];
      FirstSeen(init) + if HasOffer(init, KeyOf(last)) then [] else [TradeOf(last)]
  }

  lemma FirstSeenNext(s: seq<MarketRecord>, r: MarketRecord)
    ensures FirstSeen(s + [r]) == FirstSeen(s) + if HasOffer(s, KeyOf(r)) then [] else [TradeOf(r)]
  {
  }

  lemma HasOfferSnoc(s: seq<MarketRecord>, r: MarketRecord, key: Key)
    ensures HasOffer(s + [r], key) <==> HasOffer(s, key) || KeyOf(r) == key
  {
    var more := s + [r];
    assert more[|s|] == r;
    if k :| 0 <= k < |s| && KeyOf(s[k]) == key {
      assert KeyOf(more[k]) == key;
    }
    if k :| 0 <= k < |more| && KeyOf(more[k]) == key {
      assert k < |s| ==> KeyOf(s[k]) == key;
    }
  }

  lemma {:induction false} FirstSeenKeys(s: seq<MarketRecord>, key: Key)
    ensures HasKey(FirstSeen(s), key) <==> HasOffer(s, key)
  {
    if s != [] {
      var init, last := s[..|s| - 1], s[|s| - 1];
      FirstSeenKeys(init, key);
      assert s == init + [last];
      HasOfferSnoc(init, last, key);
      HasKeySnoc(FirstSeen(init), TradeOf(last), key);
      assert FirstSeen(init) + [] == FirstSeen(init);
    }
  }

  lemma HasKeySnoc(records: seq<Trade>, t: Trade, key: Key)
    ensures HasKey(records + [t], key) <==> HasKey(records, key) || t.key == key
  {
    var more := records + [t];
    assert more[|records|] == t;
    if k :| 0 <= k < |records| && records[k].key == key {
      assert more[k].key == key;
    }
    if k :| 0 <= k < |more| && more[k].key == key {
      assert k < |records| ==> records[k].key == key;
    }
  }

  /** While there is no gap, the kept trades are exactly the first occurrences of all the trades offered
      since the last fresh start. */
  lemma {:induction false} NothingLostSilently(cfg: Config, ops: seq<Op>)
    requires Run(cfg, ops).gaps == {}
    ensures Run(cfg, ops).records == FirstSeen(Offered(cfg, ops))
  {
    if ops != [] {
      var init, op := ops[..|ops| - 1], ops[|ops| - 1];
      var s := Run(cfg, init);
      if !StartsAfresh(s, op) {
        StepRetains(cfg, s, op);
        NothingLostSilently(cfg, init);
        if op.IngestOp? && op.schema == "trades" {
          RunIsSound(cfg, init);
          OfferedTrade(cfg, s, Offered(cfg, init), op.record, op.now);
        } else {
          assert Offered(cfg, init) + [] == Offered(cfg, init);
        }
      }
    }
  }

  lemma OfferedTrade(cfg: Config, s: State, offered: seq<MarketRecord>, r: MarketRecord, now: int)
    requires Sound(cfg, s) && s.records == FirstSeen(offered)
    requires s.gaps == {} && Ingested(cfg, s, "trades", r, now).state.gaps == {}
    ensures Ingested(cfg, s, "trades", r, now).state.records == FirstSeen(offered + [r])
  {
    CleanTrade(cfg, s, r, now);
    FirstSeenNext(offered, r);
    FirstSeenKeys(offered, KeyOf(r));
  }

  // ---------------------------------------------------------------------
  // Quarantine
  // ---------------------------------------------------------------------

  /** Only a fresh start lifts a quarantine. */
  lemma OnlyRestartLifts(cfg: Config, s: State, op: Op)
    requires s.gaps != {}
    ensures Do(cfg, s, op).gaps == {} <==> StartsAfresh(s, op)
  {
    if !StartsAfresh(s, op) {
      StepRetains(cfg, s, op);
      var reason :| reason in s.gaps;
      assert reason in Do(cfg, s, op).gaps;
    }
  }

  /** From a gap on, every snapshot is unavailable and no envelope can be completed, until a fresh start. */
  lemma QuarantineSticks(cfg: Config, ops: seq<Op>, more: seq<Op>, coverage: Session, now: int, maxAge: int)
    requires Run(cfg, ops).gaps != {} && NoRestart(cfg, ops, more)
    ensures var s := Run(cfg, ops + more);
            Run(cfg, ops).gaps <= s.gaps && !Usable(s, now, maxAge) && !CanComplete(s, coverage, now)
  {
    RunRetains(cfg, ops, more);
    var reason :| reason in Run(cfg, ops).gaps;
    assert reason in Run(cfg, ops + more).gaps;
  }

  // ---------------------------------------------------------------------
  // Snapshots
  // ---------------------------------------------------------------------

  datatype Snapshot =
    | Unavailable(reason: string, gaps: set<string>)
    | Available(contract: Definition, quote: Quote, figures: Figures, coverage: Session, asOf: int, expiresAt: int)

  predicate HasEvidence(s: State) {
    && s.contract.Some? && s.session.Some? && s.records != [] && s.quote.Some? && s.gaps == {} && s.coverage.Some?
    && s.lastEvent.Some? && s.lastReceived.Some?
  }

  predicate WithinSession(s: State, now: int)
    requires HasEvidence(s)
  {
    s.session.value.open <= now < MinInt(s.session.value.close, s.contract.value.expiry)
  }

  function Times(s: State): (times: seq<int>)
    requires HasEvidence(s)
    ensures |times| == 5
  {
    [s.coverage.value.close, s.lastEvent.value, s.lastReceived.value, s.quote.value.eventAt, s.quote.value.asOf]
  }

  predicate Fresh(s: State, now: int, maxAge: int)
    requires HasEvidence(s)
  {
    forall k :: 0 <= k < 5 ==> 0 <= now - Times(s)[k] <= maxAge
  }

  predicate Usable(s: State, now: int, maxAge: int) {
    HasEvidence(s) && WithinSession(s, now) && Fresh(s, now, maxAge)
  }

  /** The oldest of the five evidence times. */
  function Oldest(s: State): (o: int)
    requires HasEvidence(s)
    ensures o in Times(s) && forall k :: 0 <= k < 5 ==> o <= Times(s)[k]
  {
    var t := Times(s);
    MinInt(t[0], MinInt(t[1], MinInt(t[2], MinInt(t[3], t[4]))))
  }

  function ExpiresAt(s: State, maxAge: int): int
    requires HasEvidence(s)
  {
    MinInt(Oldest(s) + maxAge, MinInt(s.session.value.close, s.contract.value.expiry))
  }

  function WhyUnavailable(s: State, now: int): string {
    if !HasEvidence(s) then "missing_or_quarantined_gc_evidence"
    else if !WithinSession(s, now) then "gc_session_or_contract_expired"
    else "stale_or_future_gc_evidence"
  }

  ghost predicate IsSnapshot(s: State, now: int, maxAge: int, r: Snapshot) {
    if Usable(s, now, maxAge) then
      && r.Available? && Some(r.contract) == s.contract && Some(r.quote) == s.quote && Some(r.coverage) == s.coverage
      && AreFigures(s.records, r.figures) && r.asOf == Oldest(s) && r.expiresAt == ExpiresAt(s, maxAge)
    else r == Unavailable(WhyUnavailable(s, now), s.gaps)
  }

  predicate Within(t: int, now: int, maxAge: int) {
    now - maxAge <= t <= now
  }

  /** A snapshot is available exactly when nothing is missing or quarantined, the clock lies within session and
      contract, and each of the five evidence times lies within the permitted age; otherwise the first of the three
      that fails is the reason. It dates from the earliest of the five times and expires with it, with the session or
      with the contract, whichever is first. */
  lemma SnapshotMeans(s: State, now: int, maxAge: int, r: Snapshot)
    requires IsSnapshot(s, now, maxAge, r) && (s.contract.Some? <==> s.session.Some?)
    requires s.records != [] ==> s.lastEvent.Some? && s.lastReceived.Some?
    ensures var complete := s.contract.Some? && s.records != [] && s.quote.Some? && s.gaps == {} && s.coverage.Some?;
            if !complete then r == Unavailable("missing_or_quarantined_gc_evidence", s.gaps)
            else if !(s.session.value.open <= now < s.session.value.close && now < s.contract.value.expiry) then
              r == Unavailable("gc_session_or_contract_expired", s.gaps)
            else if !(Within(s.coverage.value.close, now, maxAge) && Within(s.lastEvent.value, now, maxAge)
                      && Within(s.lastReceived.value, now, maxAge) && Within(s.quote.value.eventAt, now, maxAge)
                      && Within(s.quote.value.asOf, now, maxAge))
            then r == Unavailable("stale_or_future_gc_evidence", s.gaps)
            else
              && r.Available? && r.contract == s.contract.value && r.quote == s.quote.value
              && r.coverage == s.coverage.value
              && IsLeast(r.asOf, [s.coverage.value.close, s.lastEvent.value, s.lastReceived.value,
                                  s.quote.value.eventAt, s.quote.value.asOf])
              && IsLeast(r.expiresAt, [r.asOf + maxAge, s.session.value.close, s.contract.value.expiry])
  {
    if HasEvidence(s) {
      FiveTimes(s, now, maxAge);
    }
  }

  ghost predicate IsLeast(t: int, times: seq<int>) {
    t in times && forall u :: u in times ==> t <= u
  }

  lemma FiveTimes(s: State, now: int, maxAge: int)
    requires HasEvidence(s)
    ensures Fresh(s, now, maxAge) <==>
            && Within(s.coverage.value.close, now, maxAge) && Within(s.lastEvent.value, now, maxAge)
            && Within(s.lastReceived.value, now, maxAge) && Within(s.quote.value.eventAt, now, maxAge)
            && Within(s.quote.value.asOf, now, maxAge)
    ensures IsLeast(Oldest(s), [s.coverage.value.close, s.lastEvent.value, s.lastReceived.value, s.quote.value.eventAt,
                                s.quote.value.asOf])
    ensures IsLeast(ExpiresAt(s, maxAge), [Oldest(s) + maxAge, s.session.value.close, s.contract.value.expiry])
  {
    var t := Times(s);
    assert Fresh(s, now, maxAge) <==>
           Within(t[0], now, maxAge) && Within(t[1], now, maxAge) && Within(t[2], now, maxAge)
           && Within(t[3], now, maxAge) && Within(t[4], now, maxAge);
    assert t == [s.coverage.value.close, s.lastEvent.value, s.lastReceived.value, s.quote.value.eventAt,
                 s.quote.value.asOf];
  }

  /** A usable snapshot has lost nothing, and its figures obey the laws of the traded volume. */
  lemma UsableSnapshot(cfg: Config, ops: seq<Op>, now: int, maxAge: int, r: Snapshot, lo: int, hi: int)
    requires IsSnapshot(Run(cfg, ops), now, maxAge, r) && r.Available?
    requires forall k :: 0 <= k < |Run(cfg, ops).records| ==> lo <= Run(cfg, ops).records[k].price <= hi
    ensures AreFigures(FirstSeen(Offered(cfg, ops)), r.figures)
    ensures 0 < r.figures.volume == Total(r.figures.profile) && 0 <= r.figures.known <= r.figures.volume
    ensures -r.figures.known <= r.figures.cvd <= r.figures.known && (r.figures.known - r.figures.cvd) % 2 == 0
    ensures lo as real <= Vwap(r.figures) <= hi as real && lo <= r.figures.poc <= hi
  {
    var s := Run(cfg, ops);
    RunIsSound(cfg, ops);
    NothingLostSilently(cfg, ops);
    FigureLaws(s.records, r.figures, lo, hi);
  }

  /** Exact duplicates: the same sequence number, event time, price and size. */
  predicate SameTrade(a: MarketRecord, b: MarketRecord) {
    a.sequence == b.sequence && a.tsEvent == b.tsEvent && a.price == b.price && a.size == b.size
  }

  ghost predicate Repeats(s: seq<MarketRecord>, r: MarketRecord) {
    exists k :: 0 <= k < |s| && SameTrade(s[k], r)
  }

  /** The offers that repeat no earlier one, in order. */
  ghost function FirstOffers(s: seq<MarketRecord>): seq<MarketRecord> {
    if s == [] then []
    else
      var init, last := s[..|s| - 1], s[|s| - 1];
      FirstOffers(init) + if Repeats(init, last) then [] else [last]
  }

  lemma RepeatsByKey(s: seq<MarketRecord>, r: MarketRecord)
    ensures Repeats(s, r) <==> HasOffer(s, KeyOf(r))
  {
    if k :| 0 <= k < |s| && SameTrade(s[k], r) {
      assert KeyOf(s[k]) == KeyOf(r);
    }
    if k :| 0 <= k < |s| && KeyOf(s[k]) == KeyOf(r) {
      assert SameTrade(s[k], r);
    }
  }

  /** The total size of the offers whose side is one of the given ones. */
  function SizeOn(offers: seq<MarketRecord>, sides: set<string>): int {
    if offers == [] then 0
    else
      var last := offers[|offers| - 1];
      SizeOn(offers[..|offers| - 1], sides) + if last.side in sides then last.size else 0
  }

  function SizeOf(offers: seq<MarketRecord>): int {
    if offers == [] then 0 else SizeOf(offers[..|offers| - 1]) + offers[|offers| - 1].size
  }

  /** The total size of the offers at a price. */
  function SizeAt(offers: seq<MarketRecord>, price: int): int {
    if offers == [] then 0
    else
      var last := offers[|offers| - 1];
      SizeAt(offers[..|offers| - 1], price) + if last.price == price then last.size else 0
  }

  /** The total of price times size. */
  function Turnover(offers: seq<MarketRecord>): int {
    if offers == [] then 0
    else
      var last := offers[|offers| - 1];
      Turnover(offers[..|offers| - 1]) + last.price * last.size
  }

  lemma SizesSnoc(offers: seq<MarketRecord>, r: MarketRecord, sides: set<string>)
    ensures SizeOn(offers + [r], sides) == SizeOn(offers, sides) + if r.side in sides then r.size else 0
    ensures SizeOf(offers + [r]) == SizeOf(offers) + r.size
  {
  }

  lemma TurnoverSnoc(offers: seq<MarketRecord>, r: MarketRecord, price: int)
    ensures SizeAt(offers + [r], price) == SizeAt(offers, price) + if r.price == price then r.size else 0
    ensures Turnover(offers + [r]) == Turnover(offers) + r.price * r.size
  {
  }

  lemma {:induction false} FirstOffersFlow(s: seq<MarketRecord>)
    ensures VolumeOf(FirstSeen(s), Buys) == SizeOn(FirstOffers(s), {"B"})
    ensures VolumeOf(FirstSeen(s), Sells) == SizeOn(FirstOffers(s), {"A"})
    ensures Known(FirstSeen(s)) == SizeOn(FirstOffers(s), {"A", "B"})
    ensures Volume(FirstSeen(s)) == SizeOf(FirstOffers(s))
  {
    if s != [] {
      var init, last := s[..|s| - 1], s[|s| - 1];
      FirstOffersFlow(init);
      RepeatsByKey(init, last);
      if Repeats(init, last) {
        assert FirstSeen(init) + [] == FirstSeen(init) && FirstOffers(init) + [] == FirstOffers(init);
      } else {
        SizesSnoc(FirstOffers(init), last, {"A"});
        SizesSnoc(FirstOffers(init), last, {"B"});
        SizesSnoc(FirstOffers(init), last, {"A", "B"});
        VolumeSnoc(FirstSeen(init), TradeOf(last));
      }
    }
  }

  lemma VolumeSnoc(records: seq<Trade>, t: Trade)
    ensures VolumeOf(records + [t], Buys) == VolumeOf(records, Buys) + if t.side == BuyAggressor then t.size else 0
    ensures VolumeOf(records + [t], Sells) == VolumeOf(records, Sells) + if t.side == SellAggressor then t.size else 0
    ensures Known(records + [t]) == Known(records) + if t.side != NoSide then t.size else 0
    ensures Volume(records + [t]) == Volume(records) + t.size
  {
  }

  lemma {:induction false} FirstOffersPrices(s: seq<MarketRecord>, price: int)
    ensures VolumeOf(FirstSeen(s), PricedAt(price)) == SizeAt(FirstOffers(s), price)
    ensures Notional(FirstSeen(s)) == Turnover(FirstOffers(s))
  {
    if s != [] {
      var init, last := s[..|s| - 1], s[|s| - 1];
      FirstOffersPrices(init, price);
      RepeatsByKey(init, last);
      if Repeats(init, last) {
        assert FirstSeen(init) + [] == FirstSeen(init) && FirstOffers(init) + [] == FirstOffers(init);
      } else {
        TurnoverSnoc(FirstOffers(init), last, price);
        NotionalSnoc(FirstSeen(init), TradeOf(last), price);
      }
    }
  }

  lemma NotionalSnoc(records: seq<Trade>, t: Trade, price: int)
    ensures VolumeOf(records + [t], PricedAt(price))
            == VolumeOf(records, PricedAt(price)) + if t.price == price then t.size else 0
    ensures Notional(records + [t]) == Notional(records) + t.price * t.size
  {
  }

  /** A usable snapshot measures the raw offers since the last fresh start: each counts once, however often it was
      repeated; its size adds to the volume, to the known volume when it has a side, and to the delta when that is "B"
      for a buy aggressor and from the delta when it is "A" for a sell aggressor. */
  lemma SnapshotFlow(cfg: Config, ops: seq<Op>, now: int, maxAge: int, r: Snapshot)
    requires IsSnapshot(Run(cfg, ops), now, maxAge, r) && r.Available?
    ensures var first := FirstOffers(Offered(cfg, ops));
            && r.figures.volume == SizeOf(first) && r.figures.known == SizeOn(first, {"A", "B"})
            && r.figures.cvd == SizeOn(first, {"B"}) - SizeOn(first, {"A"})
  {
    NothingLostSilently(cfg, ops);
    FirstOffersFlow(Offered(cfg, ops));
  }

  /** And the prices: the notional is the sum of price times size, the profile holds at any price what was traded
      there, and the point of control is the lowest price of those with the largest traded size. */
  lemma SnapshotPrices(cfg: Config, ops: seq<Op>, now: int, maxAge: int, r: Snapshot, price: int)
    requires IsSnapshot(Run(cfg, ops), now, maxAge, r) && r.Available?
    ensures var first := FirstOffers(Offered(cfg, ops));
            && r.figures.notional == Turnover(first) && At(r.figures.profile, price) == SizeAt(first, price)
            && (SizeAt(first, price) < SizeAt(first, r.figures.poc)
                || (SizeAt(first, price) == SizeAt(first, r.figures.poc) && r.figures.poc <= price)
                || price !in r.figures.profile)
  {
    NothingLostSilently(cfg, ops);
    FirstOffersPrices(Offered(cfg, ops), price);
    FirstOffersPrices(Offered(cfg, ops), r.figures.poc);
    ProfileIsVolumeByPrice(FirstSeen(Offered(cfg, ops)), price);
    ProfileIsVolumeByPrice(FirstSeen(Offered(cfg, ops)), r.figures.poc);
  }

  /** Left alone, a usable snapshot stays usable up to the expiry it announces and not beyond it; at that
      very instant it is still usable exactly when its age, and not the end of the session or of the
      contract, sets the expiry. */
  lemma ExpiryIsExact(s: State, now: int, maxAge: int, later: int)
    requires Usable(s, now, maxAge) && now <= later
    ensures now <= ExpiresAt(s, maxAge) <= now + maxAge
    ensures later < ExpiresAt(s, maxAge) ==> Usable(s, later, maxAge)
    ensures later > ExpiresAt(s, maxAge) ==> !Usable(s, later, maxAge)
    ensures later == ExpiresAt(s, maxAge) ==>
              (Usable(s, later, maxAge) <==> later < MinInt(s.session.value.close, s.contract.value.expiry))
  {
    var k :| 0 <= k < 5 && Times(s)[k] == Oldest(s);
    assert 0 <= now - Times(s)[k] <= maxAge;
    if later > ExpiresAt(s, maxAge) && later > Oldest(s) + maxAge {
      assert later - Times(s)[k] > maxAge;
    }
    if later <= Oldest(s) + maxAge {
      forall j | 0 <= j < 5 ensures 0 <= later - Times(s)[j] <= maxAge {
        assert 0 <= now - Times(s)[j] && Oldest(s) <= Times(s)[j];
      }
    }
  }

  // ---------------------------------------------------------------------
  // The cache object
  // ---------------------------------------------------------------------

  lemma DoSelects(cfg: Config, s: State, instrumentId: int, now: int, session: Session)
    ensures Do(cfg, s, SelectOp(instrumentId, now, session)) == Selected(s, instrumentId, now, session)
  {
    hide Selected;
  }

  class GCReplay {
    const config: Config
    var definitions: map<int, Definition>
    var contract: Option<Definition>
    var records: seq<Trade>
    var seen: set<Key>
    var quote: Option<Quote>
    var statistics: map<(string, int), Statistic>
    var gaps: set<string>
    var session: Option<Session>
    var lastEvent: Option<int>
    var lastReceived: Option<int>
    var coverage: Option<Session>

    function Value(): State
      reads this
    {
      State(definitions, contract, records, seen, quote, statistics, gaps, session, lastEvent, lastReceived, coverage)
    }

    constructor (publishers: map<int, (string, string)>, capacity: nat)
      requires 10 <= capacity <= 500000
      ensures Value() == EMPTY && config == Config(publishers, capacity)
    {
      config := Config(publishers, capacity);
      definitions, contract, session, statistics := map[], None, None, map[];
      records, seen, quote, gaps := [], {}, None, {};
      lastEvent, lastReceived, coverage := None, None, None;
    }

    method MarkGap(reason: string)
      modifies this
      ensures Value() == Gapped(old(Value()), reason) == Do(config, old(Value()), GapOp(reason))
    {
      gaps := gaps + {reason};
      quote := None;
    }

    method AddDefinition(r: DefinitionRecord, now: int) returns (ok: bool)
      modifies this
      ensures (Value(), ok) == Defined(config, old(Value()), r, now)
      ensures Value() == Do(config, old(Value()), AddOp(r, now))
    {
      var parsed := ParseDefinition(config, r, now);
      if parsed.None? {
        if IsSelected(Value(), r.instrumentId) {
          MarkGap("selected_contract_definition_rejected");
        }
        return false;
      }
      if IsSelected(Value(), r.instrumentId) && contract != parsed {
        MarkGap("selected_contract_definition_changed");
      }
      if !CanStore(Value(), r.instrumentId) {
        return false;
      }
      definitions := definitions[r.instrumentId := parsed.value];
      return true;
    }

    method Select(instrumentId: int, now: int, session: Session) returns (ok: bool)
      modifies this
      ensures ok == CanSelect(old(Value()), instrumentId, now, session)
      ensures Value() == Selected(old(Value()), instrumentId, now, session)
                      == Do(config, old(Value()), SelectOp(instrumentId, now, session))
    {
      hide Do;
      DoSelects(config, Value(), instrumentId, now, session);
      if !CanSelect(Value(), instrumentId, now, session) {
        return false;
      }
      var value := definitions[instrumentId];
      if contract != Some(value) || this.session != Some(session) {
        records, seen, quote, statistics, gaps := [], {}, None, map[], {};
        lastEvent, lastReceived, coverage := None, None, None;
      }
      contract, this.session := Some(value), Some(session);
      return true;
    }

    method CompleteReplay(coverage: Session, now: int) returns (ok: bool)
      modifies this
      ensures ok == CanComplete(old(Value()), coverage, now)
      ensures Value() == Completed(old(Value()), coverage, now) == Do(config, old(Value()), CompleteOp(coverage, now))
    {
      ok := CanComplete(Value(), coverage, now);
      if ok {
        this.coverage := Some(coverage);
      }
    }

    method TakeTrade(r: MarketRecord) returns (v: Verdict)
      modifies this
      ensures Outcome(Value(), v) == IngestTrade(config, old(Value()), r)
    {
      if !WellPriced(r) {
        return Refused;
      }
      if r.action != "T" {
        MarkGap("unsupported_trade_correction");
        return Ignored;
      }
      if KeyOf(r) in seen {
        return Ignored;
      }
      if lastEvent.Some? && Time(r.tsEvent) < lastEvent.value {
        MarkGap("out_of_order_trade");
        return Ignored;
      }
      if |records| >= config.capacity {
        MarkGap("bounded_cache_overflow");
        return Ignored;
      }
      if r.side !in ["A", "B", "N"] {
        return Refused;
      }
      records := records + [TradeOf(r)];
      seen := seen + {KeyOf(r)};
      lastEvent, lastReceived := Some(Time(r.tsEvent)), Some(Time(r.tsRecv));
      return Taken;
    }

    method TakeQuote(r: MarketRecord) returns (v: Verdict)
      modifies this
      ensures Outcome(Value(), v) == IngestQuote(old(Value()), r)
    {
      if |r.levels| == 0 || !SoundLevel(r.levels[0]) {
        return Refused;
      }
      if quote.Some? && Time(r.tsRecv) < quote.value.asOf {
        MarkGap("out_of_order_quote");
        return Ignored;
      }
      quote := Some(Quote(r.levels[0].bid, r.levels[0].ask, Time(r.tsRecv), Time(r.tsEvent)));
      return Taken;
    }

    method TakeStatistic(r: MarketRecord) returns (v: Verdict)
      modifies this
      ensures Outcome(Value(), v) == IngestStatistic(old(Value()), r)
    {
      var key := (r.statType, r.tsRef);
      if |statistics| >= STATISTICS_CAP && key !in statistics {
        MarkGap("statistics_cache_overflow");
        return Ignored;
      }
      if !ValidTime(r.tsRef) {
        return Refused;
      }
      statistics := statistics[key := Statistic(r.quantity, Time(r.tsRef), Time(r.tsRecv), r.updateAction)];
      return Taken;
    }

    method TryIngest(schema: string, r: MarketRecord, now: int) returns (v: Verdict)
      modifies this
      ensures Outcome(Value(), v) == Tried(config, old(Value()), schema, r, now)
    {
      v := Refused;
      if Belongs(Value(), r, now) {
        if BadReceiveTime(r) {
          MarkGap("bad_receive_timestamp");
        } else if schema == "trades" {
          v := TakeTrade(r);
        } else if schema == "mbp-1" {
          v := TakeQuote(r);
        } else if schema == "statistics" {
          v := TakeStatistic(r);
        }
      }
    }

    method Ingest(schema: string, r: MarketRecord, now: int) returns (v: Verdict)
      modifies this
      ensures Outcome(Value(), v) == Ingested(config, old(Value()), schema, r, now)
      ensures Value() == Do(config, old(Value()), IngestOp(schema, r, now))
    {
      v := TryIngest(schema, r, now);
      if v == Refused {
        MarkGap("record_quality_rejected");
      }
    }

    method Snapshot(now: int, maxAge: int) returns (r: Snapshot)
      requires Sound(config, Value())
      ensures IsSnapshot(Value(), now, maxAge, r)
    {
      if contract.None? || records == [] || quote.None? || gaps != {} || coverage.None? {
        return Unavailable("missing_or_quarantined_gc_evidence", gaps);
      }
      var s := Value();
      if !WithinSession(s, now) {
        return Unavailable("gc_session_or_contract_expired", gaps);
      }
      if !Fresh(s, now, maxAge) {
        return Unavailable("stale_or_future_gc_evidence", gaps);
      }
      var figures := Tabulate(records);
      r := Available(contract.value, quote.value, figures, coverage.value, Oldest(s), ExpiresAt(s, maxAge));
    }
  }
}
