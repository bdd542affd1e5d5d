/**
 The single-flight cache of exchange pairs (coinglass.py, `_exchange_pairs`): a double-checked cache of one entry.

 Threads interleave between any two accesses to the clock, the cache and the lock. The clock never runs backwards.
 */
module SingleFlight {
  /** A pair table; an empty one counts as absent. */
  type Pairs = seq<int>

  datatype Entry = Entry(at: int, pairs: Pairs)

  /** Timed has read the clock; Waiting wants the lock; Locked and Loading hold it. A value is returned with the
      load it comes from, the clock value it was checked at, and whether the thread loaded it itself. */
  datatype Phase =
    | Called
    | Timed(now: int)
    | Waiting
    | Locked
    | Loading(start: int)
    | Returned(pairs: Pairs, load: nat, checkedAt: int, own: bool)
    | Failed

  /** The loads log holds every successful load, in order. */
  datatype State = State(clock: int, cache: Entry, holder: int, threads: seq<Phase>, loads: seq<Entry>)

  const FREE := -1

  /** The cache starts with one empty load at time zero. */
  const INITIAL := State(0, Entry(0, []), FREE, [], [Entry(0, [])])

  datatype Step =
    | Tick(elapsed: nat)
    | Call
    | ReadClock(t: nat)
    | FirstCheck(t: nat)
    | Acquire(t: nat)
    | Recheck(t: nat)
    | Finish(t: nat, loaded: Pairs, accepted: bool)

  predicate Current(ttl: int, e: Entry, now: int) {
    e.pairs != [] && now - e.at < ttl
  }

  function Moved(s: State, t: nat, phase: Phase): State
    requires t < |s.threads|
  {
    s.(threads := s.threads[t := phase])
  }

  /** The cached value, which is that of the latest load. */
  function Hit(s: State, now: int): Phase
    requires s.loads != []
  {
    Returned(s.cache.pairs, |s.loads| - 1, now, false)
  }

  function Next(ttl: int, s: State, step: Step): State
    requires s.loads != []
  {
    match step
    case Tick(elapsed) => s.(clock := s.clock + elapsed)
    case Call => s.(threads := s.threads + [Called])
    case ReadClock(t) => if t < |s.threads| && s.threads[t].Called? then Moved(s, t, Timed(s.clock)) else s
    case FirstCheck(t) =>
      if t < |s.threads| && s.threads[t].Timed? then
        var now := s.threads[t].now;
        Moved(s, t, if Current(ttl, s.cache, now) then Hit(s, now) else Waiting)
      else s
    case Acquire(t) =>
      if t < |s.threads| && s.threads[t].Waiting? && s.holder == FREE then Moved(s, t, Locked).(holder := t) else s
    case Recheck(t) =>
      if t < |s.threads| && s.threads[t].Locked? then
        if Current(ttl, s.cache, s.clock) then Moved(s, t, Hit(s, s.clock)).(holder := FREE)
        else Moved(s, t, Loading(s.clock))
      else s
    case Finish(t, loaded, accepted) =>
      if t < |s.threads| && s.threads[t].Loading? then
        if accepted then Stored(s, t, Entry(s.threads[t].start, loaded)) else Moved(s, t, Failed).(holder := FREE)
      else s
  }

  /** A load succeeded: it replaces the entry and is returned by its thread. */
  function Stored(s: State, t: nat, e: Entry): State
    requires t < |s.threads|
  {
    State(s.clock, e, FREE, s.threads[t := Returned(e.pairs, |s.loads|, e.at, true)], s.loads + [e])
  }

  function Run(ttl: int, steps: seq<Step>): (s: State)
    ensures s.loads != []
  {
    if steps == [] then INITIAL else Next(ttl, Run(ttl, steps[..|steps| - 1]), steps[|steps| - 1])
  }

  // ---------------------------------------------------------------------
  // Invariant of every interleaving
  // ---------------------------------------------------------------------

  predicate Holds(phase: Phase) {
    phase.Locked? || phase.Loading?
  }

  /** Exactly the holder of the lock is inside it. */
  ghost predicate Exclusive(holder: int, threads: seq<Phase>) {
    && (holder != FREE ==> 0 <= holder < |threads|)
    && forall t :: 0 <= t < |threads| ==> (Holds(threads[t]) <==> holder == t)
  }

  /** The cache is the latest load and no load lies in the future. */
  predicate CacheIsLatest(s: State) {
    s.loads != [] && s.cache == s.loads[|s.loads| - 1]
  }

  ghost predicate InOrder(loads: seq<Entry>, clock: int) {
    forall i, j :: 0 <= i <= j < |loads| ==> loads[i].at <= loads[j].at <= clock
  }

  /** After a nonempty load the next one starts only when that one has expired. */
  ghost predicate Spaced(ttl: int, loads: seq<Entry>) {
    forall i, j :: 0 <= i < j < |loads| && loads[i].pairs != [] ==> loads[j].at - loads[i].at >= ttl
  }

  /** What is known of a thread by its phase. */
  predicate SoundPhase(ttl: int, s: State, phase: Phase) {
    match phase
    case Timed(now) => now <= s.clock
    case Loading(start) => s.cache.at <= start <= s.clock && (s.cache.pairs != [] ==> start - s.cache.at >= ttl)
    case Returned(pairs, load, checkedAt, own) =>
      && load < |s.loads| && pairs == s.loads[load].pairs
      && (own || Current(ttl, s.loads[load], checkedAt))
    case _ => true
  }

  ghost predicate SoundPhases(ttl: int, s: State) {
    forall t :: 0 <= t < |s.threads| ==> SoundPhase(ttl, s, s.threads[t])
  }

  ghost predicate Sound(ttl: int, s: State) {
    && Exclusive(s.holder, s.threads) && CacheIsLatest(s) && InOrder(s.loads, s.clock) && Spaced(ttl, s.loads)
    && SoundPhases(ttl, s)
  }

  lemma MovedIsSound(ttl: int, s: State, t: nat, phase: Phase, holder: int)
    requires Sound(ttl, s) && t < |s.threads| && SoundPhase(ttl, s, phase)
    requires if Holds(phase) then holder == t && (s.holder == FREE || s.holder == t)
             else if Holds(s.threads[t]) then holder == FREE else holder == s.holder
    ensures Sound(ttl, Moved(s, t, phase).(holder := holder))
  {
    var n := Moved(s, t, phase).(holder := holder);
    forall k | 0 <= k < |n.threads| ensures SoundPhase(ttl, n, n.threads[k]) {
      assert SoundPhase(ttl, s, if k == t then phase else s.threads[k]);
    }
  }

  lemma StoredIsSound(ttl: int, s: State, t: nat, pairs: Pairs)
    requires Sound(ttl, s) && t < |s.threads| && s.threads[t].Loading?
    ensures Sound(ttl, Stored(s, t, Entry(s.threads[t].start, pairs)))
  {
    var e := Entry(s.threads[t].start, pairs);
    var n := Stored(s, t, e);
    assert SoundPhase(ttl, s, s.threads[t]);
    LoadsExtend(ttl, s.loads, e, s.clock);
    forall k | 0 <= k < |n.threads| ensures SoundPhase(ttl, n, n.threads[k]) {
      assert SoundPhase(ttl, s, s.threads[k]);
      assert k != t ==> !Holds(s.threads[k]);
    }
  }

  lemma LoadsExtend(ttl: int, loads: seq<Entry>, e: Entry, clock: int)
    requires loads != [] && InOrder(loads, clock) && Spaced(ttl, loads)
    requires var last := loads[|loads| - 1]; last.at <= e.at <= clock && (last.pairs != [] ==> e.at - last.at >= ttl)
    ensures InOrder(loads + [e], clock) && Spaced(ttl, loads + [e])
  {
    forall i | 0 <= i < |loads| && loads[i].pairs != [] ensures e.at - loads[i].at >= ttl {
      if i < |loads| - 1 {
        assert loads[|loads| - 1].at - loads[i].at >= ttl;
      }
    }
  }

  lemma TickIsSound(ttl: int, s: State, elapsed: nat)
    requires Sound(ttl, s)
    ensures Sound(ttl, s.(clock := s.clock + elapsed))
  {
  }

  lemma CallIsSound(ttl: int, s: State)
    requires Sound(ttl, s)
    ensures Sound(ttl, s.(threads := s.threads + [Called]))
  {
  }

  lemma StepIsSound(ttl: int, s: State, step: Step)
    requires Sound(ttl, s)
    ensures Sound(ttl, Next(ttl, s, step))
  {
    match step
    case Tick(elapsed) => TickIsSound(ttl, s, elapsed);
    case Call => CallIsSound(ttl, s);
    case ReadClock(t) =>
      if t < |s.threads| && s.threads[t].Called? {
        MovedIsSound(ttl, s, t, Timed(s.clock), s.holder);
      }
    case FirstCheck(t) =>
      if t < |s.threads| && s.threads[t].Timed? {
        var now := s.threads[t].now;
        MovedIsSound(ttl, s, t, if Current(ttl, s.cache, now) then Hit(s, now) else Waiting, s.holder);
      }
    case Acquire(t) =>
      if t < |s.threads| && s.threads[t].Waiting? && s.holder == FREE {
        MovedIsSound(ttl, s, t, Locked, t);
      }
    case Recheck(t) =>
      if t < |s.threads| && s.threads[t].Locked? {
        if Current(ttl, s.cache, s.clock) {
          MovedIsSound(ttl, s, t, Hit(s, s.clock), FREE);
        } else {
          MovedIsSound(ttl, s, t, Loading(s.clock), t);
        }
      }
    case Finish(t, loaded, accepted) =>
      if t < |s.threads| && s.threads[t].Loading? {
        if accepted {
          StoredIsSound(ttl, s, t, loaded);
        } else {
          MovedIsSound(ttl, s, t, Failed, FREE);
        }
      }
  }

  lemma {:induction false} RunIsSound(ttl: int, steps: seq<Step>)
    ensures Sound(ttl, Run(ttl, steps))
  {
    if steps != [] {
      RunIsSound(ttl, steps[..|steps| - 1]);
      StepIsSound(ttl, Run(ttl, steps[..|steps| - 1]), steps[|steps| - 1]);
    }
  }

  /** At most one load is in progress at any moment. */
  lemma OneLoadAtATime(ttl: int, steps: seq<Step>, t: nat, u: nat)
    requires var s := Run(ttl, steps);
             t < |s.threads| && u < |s.threads| && s.threads[t].Loading? && s.threads[u].Loading?
    ensures t == u
  {
    RunIsSound(ttl, steps);
    var s := Run(ttl, steps);
    assert Holds(s.threads[t]) && Holds(s.threads[u]);
  }

  /** A successful load after a nonempty one starts at least the time to live later. */
  lemma LoadsAreSpaced(ttl: int, steps: seq<Step>, i: nat, j: nat)
    requires var s := Run(ttl, steps); i < j < |s.loads| && s.loads[i].pairs != []
    ensures var s := Run(ttl, steps); s.loads[j].at - s.loads[i].at >= ttl
  {
    RunIsSound(ttl, steps);
  }

  /** Every returned value is the result of a completed load: the thread's own, or a nonempty one younger than
      the time to live at the thread's check. */
  lemma ReturnsAreLoads(ttl: int, steps: seq<Step>, t: nat)
    requires var s := Run(ttl, steps); t < |s.threads| && s.threads[t].Returned?
    ensures var s := Run(ttl, steps);
            var r := s.threads[t];
            && r.load < |s.loads| && r.pairs == s.loads[r.load].pairs
            && (!r.own ==> r.pairs != [] && r.checkedAt - s.loads[r.load].at < ttl)
  {
    RunIsSound(ttl, steps);
    assert SoundPhase(ttl, Run(ttl, steps), Run(ttl, steps).threads[t]);
  }

  // ---------------------------------------------------------------------
  // What an undisturbed call does
  // ---------------------------------------------------------------------

  /** The second check, under the lock, spares a thread the load that another one has made while it waited. */
  lemma RecheckDecides(ttl: int, s: State, t: nat)
    requires s.loads != [] && t < |s.threads| && s.threads[t] == Locked
    ensures Next(ttl, s, Recheck(t))
            == if s.cache.pairs != [] && s.clock < s.cache.at + ttl then
                 s.(threads := s.threads[t := Returned(s.cache.pairs, |s.loads| - 1, s.clock, false)], holder := FREE)
               else s.(threads := s.threads[t := Loading(s.clock)])
  {
  }

  /** The accesses of one call with nothing in between. */
  function Alone(t: nat, loaded: Pairs, accepted: bool): seq<Step> {
    [Call, ReadClock(t), FirstCheck(t), Acquire(t), Recheck(t), Finish(t, loaded, accepted)]
  }

  lemma RunNext(ttl: int, steps: seq<Step>, init: seq<Step>, step: Step)
    requires steps == init + [step]
    ensures Run(ttl, steps) == Next(ttl, Run(ttl, init), step)
  {
    assert steps[..|steps| - 1] == init;
  }

  lemma RunAlone(ttl: int, steps: seq<Step>, t: nat, loaded: Pairs, accepted: bool)
    returns (checked: State, locked: State)
    requires t == |Run(ttl, steps).threads|
    ensures checked == Next(ttl, Next(ttl, Next(ttl, Run(ttl, steps), Call), ReadClock(t)), FirstCheck(t))
    ensures locked == Next(ttl, Next(ttl, checked, Acquire(t)), Recheck(t))
    ensures Run(ttl, steps + Alone(t, loaded, accepted)) == Next(ttl, locked, Finish(t, loaded, accepted))
  {
    var a := Alone(t, loaded, accepted);
    checked := Run(ttl, steps + a[..3]);
    locked := Run(ttl, steps + a[..5]);
    hide Next;
    RunNext(ttl, steps + a[..1], steps, a[0]);
    RunNext(ttl, steps + a[..2], steps + a[..1], a[1]);
    RunNext(ttl, steps + a[..3], steps + a[..2], a[2]);
    RunNext(ttl, steps + a[..4], steps + a[..3], a[3]);
    RunNext(ttl, steps + a[..5], steps + a[..4], a[4]);
    RunNext(ttl, steps + a, steps + a[..5], a[5]);
  }

  /** After any run, a call that finds the lock free and is not disturbed returns the cached table when that is nonempty
      and younger than the time to live; otherwise it loads, and stores and returns what it loads or fails. */
  lemma LoneCall(ttl: int, steps: seq<Step>, t: nat, loaded: Pairs, accepted: bool)
    requires t == |Run(ttl, steps).threads| && Run(ttl, steps).holder == FREE
    ensures var s, n := Run(ttl, steps), Run(ttl, steps + Alone(t, loaded, accepted));
            if s.cache.pairs != [] && s.clock < s.cache.at + ttl then
              n == s.(threads := s.threads + [Returned(s.cache.pairs, |s.loads| - 1, s.clock, false)])
            else if accepted then
              && n.threads == s.threads + [Returned(loaded, |s.loads|, s.clock, true)]
              && n.cache == Entry(s.clock, loaded) && n.loads == s.loads + [n.cache] && n.holder == FREE
            else n == s.(threads := s.threads + [Failed])
  {
    var checked, locked := RunAlone(ttl, steps, t, loaded, accepted);
    var s := Run(ttl, steps);
    if Current(ttl, s.cache, s.clock) {
      assert checked == s.(threads := s.threads + [Hit(s, s.clock)]);
    } else {
      assert checked == s.(threads := s.threads + [Waiting]);
      assert Next(ttl, checked, Acquire(t)) == s.(threads := s.threads + [Locked], holder := t);
      RecheckDecides(ttl, s.(threads := s.threads + [Locked], holder := t), t);
      assert locked == s.(threads := s.threads + [Loading(s.clock)], holder := t);
    }
  }
}
