/**
 The queries of many threads on one market-data client (coinglass_production.py, `_fetch`, `dashboard_query`).

 Each step is what one thread does between two points at which others can run: reading the clock, a section under
 the client's lock, or the answer of the transport. A thread that sleeps for its permit holds the lock; sleeping
 ends no earlier than asked for, and the clock never runs backwards.
 */
module ClientThreads {
  import opened Common
  import opened Payloads
  import opened TtlCache

  datatype Config = Config(ttl: real, cap: nat, attempts: nat, interval: real)

  predicate Sane(cfg: Config) {
    cfg.ttl >= 0.0 && cfg.cap >= 1 && cfg.attempts >= 1 && cfg.interval > 0.0
  }

  datatype Phase =
    | Called
    | Timed(now: real)
    | Waiting(attempt: nat)
    | Sleeping(attempt: nat, until: real)
    | Requesting(attempt: nat)
    | Holding(data: Tree)
    | Cached(data: Tree, now: real)
    | Fetched(data: Tree)
    | Failed

  datatype Thread = Thread(key: string, phase: Phase)

  /** A valid answer of the transport to the request of a thread. */
  datatype Answer = Answer(key: string, data: Tree, thread: nat)

  const FREE := -1

  /** The logs hold all answers of the transport, all stores and all permits, in order. */
  datatype State = State(clock: real, holder: int, cache: Dict<Tree>, lastRequest: real, threads: seq<Thread>,
                         answers: seq<Answer>, stores: seq<Item<Tree>>, permits: seq<real>)

  const INITIAL := State(0.0, FREE, [], 0.0, [], [], [], [])

  datatype Step =
    | Tick(elapsed: real)
    | Call(key: string)
    | ReadClock(t: nat)
    | Lookup(t: nat)
    | AskPermit(t: nat)
    | Wake(t: nat)
    | Respond(t: nat, response: Option<Tree>)
    | Store(t: nat)

  predicate In(s: State, t: nat) {
    t < |s.threads|
  }

  function Moved(s: State, t: nat, phase: Phase): State
    requires In(s, t)
  {
    s.(threads := s.threads[t := s.threads[t].(phase := phase)])
  }

  /** The cached item of a key. */
  function Find(d: Dict<Tree>, key: string): Option<Item<Tree>> {
    var k := IndexOf(d, key);
    if k < |d| then Some(d[k]) else None
  }

  function AfterLookup(cfg: Config, s: State, t: nat): State
    requires In(s, t) && s.threads[t].phase.Timed?
  {
    var hit, now := Find(s.cache, s.threads[t].key), s.threads[t].phase.now;
    if hit.Some? && Live(cfg.ttl, hit.value.at, now) then Moved(s, t, Cached(hit.value.value, now))
    else Moved(s, t, Waiting(1))
  }

  function AfterWake(s: State, t: nat): State
    requires In(s, t) && s.threads[t].phase.Sleeping?
  {
    Moved(s, t, Requesting(s.threads[t].phase.attempt)).(
      holder := FREE, lastRequest := s.clock, permits := s.permits + [s.clock])
  }

  function AfterResponse(cfg: Config, s: State, t: nat, response: Option<Tree>): State
    requires In(s, t) && s.threads[t].phase.Requesting?
  {
    var n := s.threads[t].phase.attempt;
    if response.Some? then
      Moved(s, t, Holding(response.value)).(answers := s.answers + [Answer(s.threads[t].key, response.value, t)])
    else Moved(s, t, if n < cfg.attempts then Waiting(n + 1) else Failed)
  }

  function AfterStore(cfg: Config, s: State, t: nat): State
    requires In(s, t) && s.threads[t].phase.Holding?
  {
    var item := Item(s.threads[t].key, s.clock, s.threads[t].phase.data);
    Moved(s, t, Fetched(item.value)).(cache := Stored(cfg.ttl, cfg.cap, s.cache, item), stores := s.stores + [item])
  }

  function Next(cfg: Config, s: State, step: Step): State {
    match step
    case Tick(elapsed) => if elapsed >= 0.0 then s.(clock := s.clock + elapsed) else s
    case Call(key) => s.(threads := s.threads + [Thread(key, Called)])
    case ReadClock(t) => if In(s, t) && s.threads[t].phase.Called? then Moved(s, t, Timed(s.clock)) else s
    case Lookup(t) => if In(s, t) && s.threads[t].phase.Timed? && s.holder == FREE then AfterLookup(cfg, s, t) else s
    case AskPermit(t) =>
      if In(s, t) && s.threads[t].phase.Waiting? && s.holder == FREE then
        Moved(s, t, Sleeping(s.threads[t].phase.attempt, Due(cfg.interval, s.lastRequest, s.clock))).(holder := t)
      else s
    case Wake(t) =>
      if In(s, t) && s.threads[t].phase.Sleeping? && s.clock >= s.threads[t].phase.until then AfterWake(s, t) else s
    case Respond(t, response) =>
      if In(s, t) && s.threads[t].phase.Requesting? then AfterResponse(cfg, s, t, response) else s
    case Store(t) => if In(s, t) && s.threads[t].phase.Holding? && s.holder == FREE then AfterStore(cfg, s, t) else s
  }

  function Run(cfg: Config, steps: seq<Step>): State {
    if steps == [] then INITIAL else Next(cfg, Run(cfg, steps[..|steps| - 1]), steps[|steps| - 1])
  }

  // ---------------------------------------------------------------------
  // Answers
  // ---------------------------------------------------------------------

  /** The transport once gave these data for this very key. */
  ghost predicate IsAnswer(answers: seq<Answer>, key: string, data: Tree) {
    exists i :: 0 <= i < |answers| && answers[i].key == key && answers[i].data == data
  }

  ghost predicate IsOwnAnswer(answers: seq<Answer>, key: string, data: Tree, t: nat) {
    exists i :: 0 <= i < |answers| && answers[i] == Answer(key, data, t)
  }

  /** The latest store of the item's key. */
  ghost predicate IsLatestStore(stores: seq<Item<Tree>>, item: Item<Tree>) {
    exists i :: 0 <= i < |stores| && stores[i] == item && forall j :: i < j < |stores| ==> stores[j].key != item.key
  }

  /** Some store of exactly these data under this key, not expired at the given clock value. */
  ghost predicate IsLiveStore(stores: seq<Item<Tree>>, ttl: real, key: string, data: Tree, now: real) {
    exists i :: 0 <= i < |stores| && stores[i].key == key && stores[i].value == data && Live(ttl, stores[i].at, now)
  }

  ghost predicate StoresAreAnswers(stores: seq<Item<Tree>>, answers: seq<Answer>) {
    forall i :: 0 <= i < |stores| ==> IsAnswer(answers, stores[i].key, stores[i].value)
  }

  ghost predicate SoundCache(cfg: Config, cache: Dict<Tree>, stores: seq<Item<Tree>>) {
    && DistinctKeys(cache) && |cache| <= cfg.cap
    && forall x :: x in cache ==> IsLatestStore(stores, x)
  }

  /** What is known of a thread by its phase. */
  ghost predicate SoundThread(cfg: Config, s: State, t: nat)
    requires In(s, t)
  {
    var key := s.threads[t].key;
    match s.threads[t].phase
    case Holding(data) => IsOwnAnswer(s.answers, key, data, t)
    case Fetched(data) => IsOwnAnswer(s.answers, key, data, t)
    case Cached(data, now) => IsAnswer(s.answers, key, data) && IsLiveStore(s.stores, cfg.ttl, key, data, now)
    case _ => true
  }

  ghost predicate SoundThreads(cfg: Config, s: State) {
    forall t: nat :: In(s, t) ==> SoundThread(cfg, s, t)
  }

  ghost predicate Sound(cfg: Config, s: State) {
    StoresAreAnswers(s.stores, s.answers) && SoundCache(cfg, s.cache, s.stores) && SoundThreads(cfg, s)
  }

  lemma AnswersGrow(answers: seq<Answer>, a: Answer, key: string, data: Tree, t: nat)
    ensures IsAnswer(answers, key, data) ==> IsAnswer(answers + [a], key, data)
    ensures IsOwnAnswer(answers, key, data, t) ==> IsOwnAnswer(answers + [a], key, data, t)
    ensures IsOwnAnswer(answers + [a], a.key, a.data, a.thread)
  {
    var more := answers + [a];
    assert more[|answers|] == a;
    if i :| 0 <= i < |answers| && answers[i].key == key && answers[i].data == data {
      assert more[i].key == key && more[i].data == data;
    }
    if i :| 0 <= i < |answers| && answers[i] == Answer(key, data, t) {
      assert more[i] == Answer(key, data, t);
    }
  }

  lemma StoresGrow(stores: seq<Item<Tree>>, x: Item<Tree>, ttl: real, key: string, data: Tree, now: real)
    ensures IsLiveStore(stores, ttl, key, data, now) ==> IsLiveStore(stores + [x], ttl, key, data, now)
  {
    if i :| 0 <= i < |stores| && stores[i].key == key && stores[i].value == data && Live(ttl, stores[i].at, now) {
      assert (stores + [x])[i] == stores[i];
    }
  }

  lemma LatestGrows(stores: seq<Item<Tree>>, x: Item<Tree>, item: Item<Tree>)
    ensures IsLatestStore(stores + [x], x)
    ensures IsLatestStore(stores, item) && item.key != x.key ==> IsLatestStore(stores + [x], item)
  {
    var more := stores + [x];
    assert more[|stores|] == x;
    if IsLatestStore(stores, item) && item.key != x.key {
      var i :| 0 <= i < |stores| && stores[i] == item && forall j :: i < j < |stores| ==> stores[j].key != item.key;
      assert more[i] == item && forall j :: i < j < |more| ==> more[j].key != item.key;
    }
  }

  /** A store keeps the cache sound: the new item is the latest of its key, the others stay the latest of theirs. */
  lemma StoredIsSound(cfg: Config, cache: Dict<Tree>, stores: seq<Item<Tree>>, x: Item<Tree>)
    requires Sane(cfg) && SoundCache(cfg, cache, stores)
    ensures SoundCache(cfg, Stored(cfg.ttl, cfg.cap, cache, x), stores + [x])
  {
    var after := Stored(cfg.ttl, cfg.cap, cache, x);
    StoreLaws(cfg.ttl, cfg.cap, cache, x);
    forall y | y in after ensures IsLatestStore(stores + [x], y) {
      LatestGrows(stores, x, y);
    }
  }

  /** A thread's knowledge survives any step that leaves it alone and lets the logs grow. */
  lemma MovedIsSound(cfg: Config, s: State, t: nat, phase: Phase)
    requires Sound(cfg, s) && In(s, t) && SoundThread(cfg, Moved(s, t, phase), t)
    ensures Sound(cfg, Moved(s, t, phase))
  {
    var n := Moved(s, t, phase);
    forall u: nat | In(n, u) ensures SoundThread(cfg, n, u) {
      assert u != t ==> SoundThread(cfg, s, u);
    }
  }

  lemma AnswerIsSound(cfg: Config, s: State, a: Answer)
    requires Sound(cfg, s)
    ensures Sound(cfg, s.(answers := s.answers + [a]))
  {
    var n := s.(answers := s.answers + [a]);
    forall i | 0 <= i < |s.stores| ensures IsAnswer(n.answers, s.stores[i].key, s.stores[i].value) {
      AnswersGrow(s.answers, a, s.stores[i].key, s.stores[i].value, 0);
    }
    forall u: nat | In(n, u) ensures SoundThread(cfg, n, u) {
      assert SoundThread(cfg, s, u);
      AnswersGrow(s.answers, a, s.threads[u].key, PhaseData(s.threads[u].phase), u);
    }
  }

  function PhaseData(phase: Phase): Tree {
    match phase
    case Holding(data) => data
    case Cached(data, _) => data
    case Fetched(data) => data
    case _ => Tree(0, [])
  }

  lemma StoreIsSound(cfg: Config, s: State, x: Item<Tree>)
    requires Sane(cfg) && Sound(cfg, s) && IsAnswer(s.answers, x.key, x.value)
    ensures Sound(cfg, s.(cache := Stored(cfg.ttl, cfg.cap, s.cache, x), stores := s.stores + [x]))
  {
    var n := s.(cache := Stored(cfg.ttl, cfg.cap, s.cache, x), stores := s.stores + [x]);
    StoredIsSound(cfg, s.cache, s.stores, x);
    forall u: nat | In(n, u) ensures SoundThread(cfg, n, u) {
      assert SoundThread(cfg, s, u);
      if s.threads[u].phase.Cached? {
        StoresGrow(s.stores, x, cfg.ttl, s.threads[u].key, s.threads[u].phase.data, s.threads[u].phase.now);
      }
    }
  }

  lemma LookupIsSound(cfg: Config, s: State, t: nat)
    requires Sound(cfg, s) && In(s, t) && s.threads[t].phase.Timed?
    ensures Sound(cfg, AfterLookup(cfg, s, t))
  {
    var key, now := s.threads[t].key, s.threads[t].phase.now;
    var k := IndexOf(s.cache, key);
    if k < |s.cache| && Live(cfg.ttl, s.cache[k].at, now) {
      assert s.cache[k] in s.cache;
      var i :| 0 <= i < |s.stores| && s.stores[i] == s.cache[k];
      assert IsAnswer(s.answers, key, s.cache[k].value) && IsLiveStore(s.stores, cfg.ttl, key, s.cache[k].value, now);
      MovedIsSound(cfg, s, t, Cached(s.cache[k].value, now));
    } else {
      MovedIsSound(cfg, s, t, Waiting(1));
    }
  }

  lemma ResponseIsSound(cfg: Config, s: State, t: nat, response: Option<Tree>)
    requires Sound(cfg, s) && In(s, t) && s.threads[t].phase.Requesting?
    ensures Sound(cfg, AfterResponse(cfg, s, t, response))
  {
    var n, key := s.threads[t].phase.attempt, s.threads[t].key;
    if response.Some? {
      var a := Answer(key, response.value, t);
      AnswerIsSound(cfg, s, a);
      AnswersGrow(s.answers, a, key, response.value, t);
      MovedIsSound(cfg, s.(answers := s.answers + [a]), t, Holding(response.value));
    } else {
      MovedIsSound(cfg, s, t, if n < cfg.attempts then Waiting(n + 1) else Failed);
    }
  }

  lemma AfterStoreIsSound(cfg: Config, s: State, t: nat)
    requires Sane(cfg) && Sound(cfg, s) && In(s, t) && s.threads[t].phase.Holding?
    ensures Sound(cfg, AfterStore(cfg, s, t))
  {
    var x := Item(s.threads[t].key, s.clock, s.threads[t].phase.data);
    assert SoundThread(cfg, s, t);
    StoreIsSound(cfg, s, x);
    MovedIsSound(cfg, s.(cache := Stored(cfg.ttl, cfg.cap, s.cache, x), stores := s.stores + [x]), t, Fetched(x.value));
  }

  /** Only the clock, the lock and the permits change. */
  lemma SameEvidence(cfg: Config, s: State, n: State)
    requires Sound(cfg, s) && n.threads == s.threads && n.cache == s.cache && n.answers == s.answers
    requires n.stores == s.stores
    ensures Sound(cfg, n)
  {
    forall u: nat | In(n, u) ensures SoundThread(cfg, n, u) {
      assert SoundThread(cfg, s, u);
    }
  }

  lemma CallIsSound(cfg: Config, s: State, key: string)
    requires Sound(cfg, s)
    ensures Sound(cfg, s.(threads := s.threads + [Thread(key, Called)]))
  {
    var n := s.(threads := s.threads + [Thread(key, Called)]);
    forall u: nat | In(n, u) ensures SoundThread(cfg, n, u) {
      assert u < |s.threads| ==> SoundThread(cfg, s, u);
    }
  }

  lemma StepIsSound(cfg: Config, s: State, step: Step)
    requires Sane(cfg) && Sound(cfg, s)
    ensures Sound(cfg, Next(cfg, s, step))
  {
    var n := Next(cfg, s, step);
    match step
    case Tick(elapsed) => SameEvidence(cfg, s, n);
    case Call(key) => CallIsSound(cfg, s, key);
    case ReadClock(t) =>
      if In(s, t) && s.threads[t].phase.Called? {
        MovedIsSound(cfg, s, t, Timed(s.clock));
      }
    case Lookup(t) =>
      if In(s, t) && s.threads[t].phase.Timed? {
        LookupIsSound(cfg, s, t);
      }
    case AskPermit(t) =>
      if In(s, t) && s.threads[t].phase.Waiting? {
        var phase := Sleeping(s.threads[t].phase.attempt, Due(cfg.interval, s.lastRequest, s.clock));
        MovedIsSound(cfg, s, t, phase);
        SameEvidence(cfg, Moved(s, t, phase), Moved(s, t, phase).(holder := t));
      }
    case Wake(t) =>
      if In(s, t) && s.threads[t].phase.Sleeping? {
        var phase := Requesting(s.threads[t].phase.attempt);
        MovedIsSound(cfg, s, t, phase);
        SameEvidence(cfg, Moved(s, t, phase), AfterWake(s, t));
      }
    case Respond(t, response) =>
      if In(s, t) && s.threads[t].phase.Requesting? {
        ResponseIsSound(cfg, s, t, response);
      }
    case Store(t) =>
      if In(s, t) && s.threads[t].phase.Holding? {
        AfterStoreIsSound(cfg, s, t);
      }
  }

  lemma {:induction false} RunIsSound(cfg: Config, steps: seq<Step>)
    requires Sane(cfg)
    ensures Sound(cfg, Run(cfg, steps))
  {
    if steps != [] {
      RunIsSound(cfg, steps[..|steps| - 1]);
      StepIsSound(cfg, Run(cfg, steps[..|steps| - 1]), steps[|steps| - 1]);
    }
  }

  /** Under every interleaving, what a query returns is an answer the transport gave for that very key: to this
      thread's own request, or one stored no longer before the thread's clock value than the time to live. */
  lemma ReturnsAreAnswers(cfg: Config, steps: seq<Step>, t: nat)
    requires Sane(cfg) && In(Run(cfg, steps), t)
    ensures var s := Run(cfg, steps);
            match s.threads[t].phase
            case Fetched(data) => IsOwnAnswer(s.answers, s.threads[t].key, data, t)
            case Cached(data, now) =>
              IsAnswer(s.answers, s.threads[t].key, data) && IsLiveStore(s.stores, cfg.ttl, s.threads[t].key, data, now)
            case _ => true
  {
    RunIsSound(cfg, steps);
    assert SoundThread(cfg, Run(cfg, steps), t);
  }

  /** Under every interleaving the cache stays within its cap, one item a key, each the latest stored for its key
      and an answer of the transport for it. */
  lemma CacheHoldsLatestAnswers(cfg: Config, steps: seq<Step>, k: nat)
    requires Sane(cfg) && k < |Run(cfg, steps).cache|
    ensures var s := Run(cfg, steps);
            && |s.cache| <= cfg.cap && DistinctKeys(s.cache) && IsLatestStore(s.stores, s.cache[k])
            && IsAnswer(s.answers, s.cache[k].key, s.cache[k].value)
  {
    RunIsSound(cfg, steps);
    var s := Run(cfg, steps);
    assert s.cache[k] in s.cache;
  }

  // ---------------------------------------------------------------------
  // Permits
  // ---------------------------------------------------------------------

  /** Exactly the sleeping thread holds the lock, until the interval since the last permit has passed, and permits are
      spaced. */
  ghost predicate RateSound(cfg: Config, s: State) {
    && (forall t: nat :: In(s, t) ==> (s.threads[t].phase.Sleeping? <==> s.holder == t))
    && (forall t: nat :: In(s, t) && s.threads[t].phase.Sleeping? ==>
          s.threads[t].phase.until >= s.lastRequest + cfg.interval)
    && Spaced(s.permits, cfg.interval) && (s.permits != [] ==> s.lastRequest == s.permits[|s.permits| - 1])
  }

  predicate HolderExists(s: State) {
    s.holder == FREE || 0 <= s.holder < |s.threads|
  }

  lemma AskKeepsRate(cfg: Config, s: State, t: nat)
    requires RateSound(cfg, s) && HolderExists(s)
    ensures RateSound(cfg, Next(cfg, s, AskPermit(t))) && HolderExists(Next(cfg, s, AskPermit(t)))
  {
  }

  lemma WakeKeepsRate(cfg: Config, s: State, t: nat)
    requires RateSound(cfg, s) && HolderExists(s)
    ensures RateSound(cfg, Next(cfg, s, Wake(t))) && HolderExists(Next(cfg, s, Wake(t)))
  {
    if In(s, t) && s.threads[t].phase.Sleeping? && s.clock >= s.threads[t].phase.until {
      SpacedNext(s.permits, cfg.interval, s.lastRequest, s.clock);
    }
  }

  lemma StepKeepsRate(cfg: Config, s: State, step: Step)
    requires RateSound(cfg, s) && HolderExists(s)
    ensures RateSound(cfg, Next(cfg, s, step)) && HolderExists(Next(cfg, s, step))
  {
    match step
    case AskPermit(t) => AskKeepsRate(cfg, s, t);
    case Wake(t) => WakeKeepsRate(cfg, s, t);
    case _ => OtherKeepsRate(cfg, s, step);
  }

  lemma OtherKeepsRate(cfg: Config, s: State, step: Step)
    requires RateSound(cfg, s) && HolderExists(s) && !step.AskPermit? && !step.Wake?
    ensures RateSound(cfg, Next(cfg, s, step)) && HolderExists(Next(cfg, s, step))
  {
  }

  lemma {:induction false} RunKeepsRate(cfg: Config, steps: seq<Step>)
    ensures RateSound(cfg, Run(cfg, steps)) && HolderExists(Run(cfg, steps))
  {
    if steps != [] {
      RunKeepsRate(cfg, steps[..|steps| - 1]);
      StepKeepsRate(cfg, Run(cfg, steps[..|steps| - 1]), steps[|steps| - 1]);
    }
  }

  /** Whichever threads take them, any two request permits are at least the minimum interval apart. */
  lemma PermitsAreSpaced(cfg: Config, steps: seq<Step>, i: nat, j: nat)
    requires Sane(cfg) && i < j < |Run(cfg, steps).permits|
    ensures Run(cfg, steps).permits[j] - Run(cfg, steps).permits[i] >= cfg.interval
  {
    RunKeepsRate(cfg, steps);
    SpacedApart(Run(cfg, steps).permits, cfg.interval, i, j);
  }

  // ---------------------------------------------------------------------
  // What an undisturbed query does
  // ---------------------------------------------------------------------

  /** In every run the attempts of a query are counted from one up to what is allowed. */
  lemma {:induction false} AttemptsAreBounded(cfg: Config, steps: seq<Step>)
    requires Sane(cfg)
    ensures forall t: nat :: In(Run(cfg, steps), t) ==>
              var phase := Run(cfg, steps).threads[t].phase;
              phase.Waiting? || phase.Sleeping? || phase.Requesting? ==> 1 <= phase.attempt <= cfg.attempts
  {
    hide Due, Stored, Live, IndexOf;
    if steps != [] {
      AttemptsAreBounded(cfg, steps[..|steps| - 1]);
    }
  }

  /** A request that fails is repeated, with a new permit, as long as attempts are left. */
  lemma RetryDecides(cfg: Config, s: State, t: nat, n: nat)
    requires In(s, t) && s.threads[t].phase == Requesting(n)
    ensures Next(cfg, s, Respond(t, None))
            == s.(threads := s.threads[t := Thread(s.threads[t].key,
                                                   if n < cfg.attempts then Waiting(n + 1) else Failed)])
  {
  }

  /** The steps of one query with nothing in between but a wait. */
  function Alone(key: string, t: nat, wait: real, data: Tree): seq<Step> {
    [Call(key), ReadClock(t), Lookup(t), AskPermit(t), Tick(wait), Wake(t), Respond(t, Some(data)), Store(t)]
  }

  lemma RunNext(cfg: Config, steps: seq<Step>, init: seq<Step>, step: Step)
    requires steps == init + [step]
    ensures Run(cfg, steps) == Next(cfg, Run(cfg, init), step)
  {
    assert steps[..|steps| - 1] == init;
  }

  lemma RunAlone(cfg: Config, steps: seq<Step>, key: string, t: nat, wait: real, data: Tree)
    returns (looked: State, woken: State)
    ensures looked == Next(cfg, Next(cfg, Next(cfg, Run(cfg, steps), Call(key)), ReadClock(t)), Lookup(t))
    ensures woken == Next(cfg, Next(cfg, Next(cfg, looked, AskPermit(t)), Tick(wait)), Wake(t))
    ensures Run(cfg, steps + Alone(key, t, wait, data))
            == Next(cfg, Next(cfg, woken, Respond(t, Some(data))), Store(t))
  {
    hide Next;
    var a := Alone(key, t, wait, data);
    assert a[0] == Call(key) && a[1] == ReadClock(t) && a[2] == Lookup(t) && a[3] == AskPermit(t);
    looked, woken := Run(cfg, steps + a[..3]), Run(cfg, steps + a[..6]);
    RunThree(cfg, steps, a[..3]);
    RunThree(cfg, steps + a[..3], a[3..6]);
    assert steps + a[..3] + a[3..6] == steps + a[..6];
    RunNext(cfg, steps + a[..7], steps + a[..6], a[6]);
    RunNext(cfg, steps + a, steps + a[..7], a[7]);
  }

  lemma RunThree(cfg: Config, steps: seq<Step>, more: seq<Step>)
    requires |more| == 3
    ensures Run(cfg, steps + more) == Next(cfg, Next(cfg, Next(cfg, Run(cfg, steps), more[0]), more[1]), more[2])
  {
    hide Next;
    RunNext(cfg, steps + more[..1], steps, more[0]);
    RunNext(cfg, steps + more[..2], steps + more[..1], more[1]);
    RunNext(cfg, steps + more, steps + more[..2], more[2]);
  }

  /** The item of the key, no older than the time to live. */
  ghost predicate IsLiveAt(cfg: Config, d: Dict<Tree>, key: string, now: real, k: nat) {
    k < |d| && d[k].key == key && now <= d[k].at + cfg.ttl
  }

  /** After any run, a query that finds the lock free and is not disturbed is answered from the cache when it has a live
      item of the key, without a permit. */
  lemma LoneHit(cfg: Config, steps: seq<Step>, key: string, t: nat, wait: real, data: Tree, k: nat)
    requires Sane(cfg) && t == |Run(cfg, steps).threads| && Run(cfg, steps).holder == FREE
    requires IsLiveAt(cfg, Run(cfg, steps).cache, key, Run(cfg, steps).clock, k) && wait >= 0.0
    ensures var s := Run(cfg, steps);
            Run(cfg, steps + Alone(key, t, wait, data))
            == s.(clock := s.clock + wait, threads := s.threads + [Thread(key, Cached(s.cache[k].value, s.clock))])
  {
    var looked, woken := RunAlone(cfg, steps, key, t, wait, data);
    var s := Run(cfg, steps);
    RunIsSound(cfg, steps);
    assert IndexOf(s.cache, key) == k;
    assert looked == s.(threads := s.threads + [Thread(key, Cached(s.cache[k].value, s.clock))]);
  }

  lemma MissWaits(cfg: Config, s: State, t: nat, key: string)
    requires t == |s.threads| && s.holder == FREE
    requires forall k: nat :: !IsLiveAt(cfg, s.cache, key, s.clock, k)
    ensures Next(cfg, Next(cfg, Next(cfg, s, Call(key)), ReadClock(t)), Lookup(t))
            == s.(threads := s.threads + [Thread(key, Waiting(1))])
  {
    assert !IsLiveAt(cfg, s.cache, key, s.clock, IndexOf(s.cache, key));
  }

  lemma PermitIsDue(cfg: Config, s: State, looked: State, t: nat, key: string, wait: real)
    requires looked == s.(threads := s.threads + [Thread(key, Waiting(1))]) && t == |s.threads| && s.holder == FREE
    requires wait >= 0.0
    ensures var woken := Next(cfg, Next(cfg, Next(cfg, looked, AskPermit(t)), Tick(wait)), Wake(t));
            if s.clock + wait < s.lastRequest + cfg.interval then
              woken == s.(clock := s.clock + wait, holder := t,
                          threads := s.threads + [Thread(key, Sleeping(1, s.lastRequest + cfg.interval))])
            else
              woken == s.(clock := s.clock + wait, lastRequest := s.clock + wait,
                          permits := s.permits + [s.clock + wait],
                          threads := s.threads + [Thread(key, Requesting(1))])
  {
    var until := Due(cfg.interval, s.lastRequest, s.clock);
    var asked := Next(cfg, looked, AskPermit(t));
    assert asked == s.(threads := s.threads + [Thread(key, Sleeping(1, until))], holder := t);
  }

  lemma AnswerIsStored(cfg: Config, woken: State, t: nat, key: string, data: Tree)
    requires In(woken, t) && woken.threads[t] == Thread(key, Requesting(1)) && woken.holder == FREE
    ensures var item := Item(key, woken.clock, data);
            Next(cfg, Next(cfg, woken, Respond(t, Some(data))), Store(t))
            == woken.(threads := woken.threads[t := Thread(key, Fetched(data))],
                      answers := woken.answers + [Answer(key, data, t)], stores := woken.stores + [item],
                      cache := Stored(cfg.ttl, cfg.cap, woken.cache, item))
  {
    hide Stored;
  }

  /** Otherwise it takes a permit as soon as the minimum interval since the last one is over, and no sooner; it stores
      and returns the answer. */
  lemma LoneMiss(cfg: Config, steps: seq<Step>, key: string, t: nat, wait: real, data: Tree, s: State, n: State)
    requires s == Run(cfg, steps) && n == Run(cfg, steps + Alone(key, t, wait, data))
    requires t == |s.threads| && s.holder == FREE && wait >= 0.0
    requires forall k: nat :: !IsLiveAt(cfg, s.cache, key, s.clock, k)
    ensures var now, item := s.clock + wait, Item(key, s.clock + wait, data);
            if now < s.lastRequest + cfg.interval then
              && n.threads == s.threads + [Thread(key, Sleeping(1, s.lastRequest + cfg.interval))]
              && n.cache == s.cache && n.permits == s.permits && n.answers == s.answers
            else
              && n.threads == s.threads + [Thread(key, Fetched(data))]
              && n.permits == s.permits + [now] && n.answers == s.answers + [Answer(key, data, t)]
              && n.stores == s.stores + [item] && n.cache == Stored(cfg.ttl, cfg.cap, s.cache, item) && n.holder == FREE
  {
    hide Stored, Due, Run;
    var looked, woken := RunAlone(cfg, steps, key, t, wait, data);
    MissWaits(cfg, s, t, key);
    PermitIsDue(cfg, s, looked, t, key, wait);
    if s.clock + wait >= s.lastRequest + cfg.interval {
      AnswerIsStored(cfg, woken, t, key, data);
    }
  }
}
