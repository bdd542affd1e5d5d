/**
 The market-data client as an object: its bounded cache of private copies, its rate limit and its retried queries
 (coinglass_production.py, `_fetch`, `dashboard_query`, `_rate_limit`, `_store_cache_unlocked`).

 What the threads of a process make of its locked sections is the subject of ClientThreads.
 */
module MarketClient {
  import opened Common
  import opened Payloads
  import opened TtlCache

  /** One attempt: when the permit was asked for, how much later than due the thread woke, what the transport
      answered (nothing when it failed), and the clock values at the store. */
  datatype Attempt = Attempt(asked: real, late: real, answer: Option<Node>, stored: real, wall: real)

  // ---------------------------------------------------------------------
  // The values behind the cached nodes
  // ---------------------------------------------------------------------

  function Snapshot(values: map<Node, Tree>): Node -> Tree {
    n => if n in values then values[n] else Tree(0, [])
  }

  /** Every cached node is a valid tree within repr that still says what it said when it was stored. */
  ghost predicate Holds(cache: Dict<Node>, values: map<Node, Tree>, repr: set<Node>)
    reads repr
  {
    forall k :: 0 <= k < |cache| ==> HoldsNode(cache[k].value, values, repr)
  }

  ghost predicate HoldsNode(n: Node, values: map<Node, Tree>, repr: set<Node>)
    reads repr
  {
    n in repr && n in values && n.repr <= repr && n.Valid() && n.Value() == values[n]
  }

  lemma StoredHolds(ttl: real, cap: nat, cache: Dict<Node>, values: map<Node, Tree>, repr: set<Node>,
                    item: Item<Node>, data: Tree)
    requires Holds(cache, values, repr)
    requires item.value !in repr && item.value.Valid() && item.value.Value() == data
    ensures Holds(Stored(ttl, cap, cache, item), values[item.value := data], repr + item.value.repr)
  {
    var after := Stored(ttl, cap, cache, item);
    forall k | 0 <= k < |after| ensures HoldsNode(after[k].value, values[item.value := data], repr + item.value.repr) {
      if k != IndexOf(Room(ttl, cap, cache, item.key, item.at), item.key) {
        var j := StoredFrom(ttl, cap, cache, item, k);
        assert HoldsNode(cache[j].value, values, repr);
      }
    }
  }

  /** Storing a fresh node stores its value in the cache of values. */
  lemma StoredValues(ttl: real, cap: nat, cache: Dict<Node>, values: map<Node, Tree>, repr: set<Node>,
                     item: Item<Node>, data: Tree)
    requires Holds(cache, values, repr) && item.value !in repr
    ensures Mapped(Stored(ttl, cap, cache, item), Snapshot(values[item.value := data]))
         == Stored(ttl, cap, Mapped(cache, Snapshot(values)), Item(item.key, item.at, data))
  {
    forall k | 0 <= k < |cache| ensures cache[k].value != item.value {
      assert HoldsNode(cache[k].value, values, repr);
    }
    assert Mapped(cache, Snapshot(values[item.value := data])) == Mapped(cache, Snapshot(values));
    MappedStored(ttl, cap, cache, item, Snapshot(values[item.value := data]));
  }

  /** What booking a fresh copy makes of a sound cache. */
  lemma BookedIsSound(ttl: real, cap: nat, cache: Dict<Node>, values: map<Node, Tree>, repr: set<Node>,
                      item: Item<Node>, kept: Dict<Node>, data: Tree)
    requires cap > 0 && |cache| <= cap && DistinctKeys(cache) && Holds(cache, values, repr)
    requires item.value !in repr && item.value.Valid() && item.value.Value() == data
    requires kept == Stored(ttl, cap, cache, item)
    ensures |kept| <= cap && DistinctKeys(kept)
    ensures Holds(kept, values[item.value := data], repr + item.value.repr)
    ensures Mapped(kept, Snapshot(values[item.value := data]))
         == Stored(ttl, cap, Mapped(cache, Snapshot(values)), Item(item.key, item.at, data))
  {
    StoreLaws(ttl, cap, cache, item);
    StoredHolds(ttl, cap, cache, values, repr, item, data);
    StoredValues(ttl, cap, cache, values, repr, item, data);
  }

  // ---------------------------------------------------------------------
  // Attempts
  // ---------------------------------------------------------------------

  /** When a thread wakes with its permit. */
  function Woken(interval: real, lastRequest: real, a: Attempt): real {
    Due(interval, lastRequest, a.asked) + a.late
  }

  function LastOf(permits: seq<real>, before: real): real {
    if permits == [] then before else permits[|permits| - 1]
  }

  /** The permits after a series of attempts, and with those taken before. */
  function Permits(before: seq<real>, interval: real, lastRequest: real, env: seq<Attempt>): seq<real> {
    if env == [] then before
    else
      var earlier := Permits(before, interval, lastRequest, env[..|env| - 1]);
      earlier + [Woken(interval, LastOf(earlier, lastRequest), env[|env| - 1])]
  }

  /** The first attempt with an answer; the number of attempts when there is none. */
  function FirstAnswer(env: seq<Attempt>): (i: nat)
    ensures i <= |env| && (forall j :: 0 <= j < i ==> env[j].answer.None?) && (i < |env| ==> env[i].answer.Some?)
  {
    if env == [] then 0 else if env[0].answer.Some? then 0 else 1 + FirstAnswer(env[1..])
  }

  /** How many attempts are made: up to and with the first answer. */
  function Made(env: seq<Attempt>): (n: nat)
    ensures n <= |env|
  {
    MinInt(FirstAnswer(env) + 1, |env|)
  }

  lemma PermitsNext(before: seq<real>, interval: real, lastRequest: real, env: seq<Attempt>, i: nat)
    requires i < |env|
    ensures var earlier := Permits(before, interval, lastRequest, env[..i]);
            Permits(before, interval, lastRequest, env[..i + 1])
            == earlier + [Woken(interval, LastOf(earlier, lastRequest), env[i])]
  {
    assert env[..i + 1][..i] == env[..i];
  }

  /** Every attempt takes one permit: when it is asked for or the minimum interval after the one before, whichever is
      later, and whatever the thread oversleeps. */
  lemma {:induction false} PermitsMean(before: seq<real>, interval: real, lastRequest: real, env: seq<Attempt>, k: nat)
    requires k < |env|
    ensures var permits := Permits(before, interval, lastRequest, env);
            && |permits| == |before| + |env| && permits[..|before|] == before
            && var previous := if |before| + k == 0 then lastRequest else permits[|before| + k - 1];
               permits[|before| + k] == Max(env[k].asked, previous + interval) + env[k].late
  {
    var n := |env| - 1;
    PermitsLength(before, interval, lastRequest, env[..n]);
    if k < n {
      PermitsMean(before, interval, lastRequest, env[..n], k);
    }
  }

  lemma {:induction false} PermitsLength(before: seq<real>, interval: real, lastRequest: real, env: seq<Attempt>)
    ensures var permits := Permits(before, interval, lastRequest, env);
            |permits| == |before| + |env| && permits[..|before|] == before
  {
    if env != [] {
      PermitsLength(before, interval, lastRequest, env[..|env| - 1]);
    }
  }

  /** Attempts are made up to and with the first one that is answered. */
  lemma MadeMeans(env: seq<Attempt>)
    ensures forall j :: 0 <= j < Made(env) - 1 ==> env[j].answer.None?
    ensures Made(env) < |env| ==> Made(env) > 0 && env[Made(env) - 1].answer.Some?
  {
  }

  /** Failures of the essential feed: forgotten on success, counted otherwise. */
  function Failures(before: nat, essential: bool, answered: bool): nat {
    if !essential then before else if answered then 0 else before + 1
  }

  /** What a cache answers for a key at a clock value. */
  function Hit(ttl: real, d: Dict<Tree>, key: string, now: real): Option<Tree> {
    var k := IndexOf(d, key);
    if k < |d| && Live(ttl, d[k].at, now) then Some(d[k].value) else None
  }

  /** A cache answers exactly the keys of its items that are no older than the time to live. */
  lemma HitMeans(ttl: real, d: Dict<Tree>, key: string, now: real)
    requires DistinctKeys(d)
    ensures Hit(ttl, d, key, now).Some? <==> exists k :: 0 <= k < |d| && d[k].key == key && now <= d[k].at + ttl
    ensures forall k :: 0 <= k < |d| && d[k].key == key && now <= d[k].at + ttl ==>
              Hit(ttl, d, key, now) == Some(d[k].value)
  {
    var i := IndexOf(d, key);
    forall k | 0 <= k < |d| && d[k].key == key ensures k == i {
      assert i < |d|;
    }
  }

  class Client {
    const ttl: real
    const cap: nat
    const attempts: nat
    const minimumInterval: real
    var cache: Dict<Node>
    var lastRequest: real
    var lastSuccess: Option<real>
    var criticalFailures: nat
    ghost var values: map<Node, Tree>
    ghost var repr: set<Node>
    ghost var permits: seq<real>

    /** The cache holds private copies under distinct keys, within the cap. */
    ghost predicate Valid()
      reads this`cache, this`values, this`repr, repr
    {
      cap > 0 && attempts > 0 && |cache| <= cap && DistinctKeys(cache) && Holds(cache, values, repr)
    }

    /** The cached values. */
    ghost function Contents(): Dict<Tree>
      reads this`cache, this`values
    {
      Mapped(cache, Snapshot(values))
    }

    /** They are what the cached nodes say. */
    lemma ContentsAre(k: nat)
      requires Valid() && k < |cache|
      ensures |Contents()| == |cache| && cache[k].value.Valid()
      ensures Contents()[k] == Item(cache[k].key, cache[k].at, cache[k].value.Value())
    {
      assert HoldsNode(cache[k].value, values, repr);
    }

    /** Permits are at least the minimum interval apart, and the last one is remembered. */
    ghost predicate RateSound()
      reads this`permits, this`lastRequest
    {
      Spaced(permits, minimumInterval) && (permits != [] ==> lastRequest == permits[|permits| - 1])
    }

    constructor (ttl: real, cap: nat, attempts: nat, minimumInterval: real)
      requires cap > 0 && attempts > 0
      ensures Valid() && RateSound() && Contents() == [] && permits == [] && criticalFailures == 0 && lastSuccess.None?
      ensures this.ttl == ttl && this.cap == cap && this.attempts == attempts
      ensures this.minimumInterval == minimumInterval && lastRequest == 0.0
    {
      this.ttl, this.cap, this.attempts, this.minimumInterval := ttl, cap, attempts, minimumInterval;
      cache, lastRequest, lastSuccess, criticalFailures := [], 0.0, None, 0;
      values, repr, permits := map[], {}, [];
    }

    /** Sleeps for what is left of the minimum interval since the last permit; `late` is how much longer the sleep
        took than asked for. */
    method RateLimit(asked: real, late: real)
      requires RateSound() && late >= 0.0
      modifies this`lastRequest, this`permits
      ensures RateSound() && permits == old(permits) + [Due(minimumInterval, old(lastRequest), asked) + late]
      ensures lastRequest == Due(minimumInterval, old(lastRequest), asked) + late
    {
      var delay := minimumInterval - (asked - lastRequest);
      var woken := asked;
      if delay > 0.0 {
        woken := asked + delay;
      }
      woken := woken + late;
      SpacedNext(permits, minimumInterval, lastRequest, woken);
      lastRequest := woken;
      permits := permits + [woken];
    }

    /** A copy of the live entry of a key. */
    method Lookup(key: string, now: real) returns (hit: Option<Node>)
      requires Valid()
      ensures Hit(ttl, Contents(), key, now).Some? <==> hit.Some?
      ensures hit.Some? ==>
                && hit.value.Valid() && fresh(hit.value.repr)
                && Some(hit.value.Value()) == Hit(ttl, Contents(), key, now)
    {
      hit := None;
      MappedIndex(cache, key, Snapshot(values));
      var k := IndexOf(cache, key);
      if k < |cache| && now - cache[k].at <= ttl {
        assert HoldsNode(cache[k].value, values, repr);
        var copy := cache[k].value.DeepCopy();
        hit := Some(copy);
      }
    }

    /** Stores a copy of an answer: first the expired entries go, then the oldest one if the cap demands it. */
    method Store(key: string, data: Node, now: real)
      requires Valid() && data.Valid()
      modifies this`cache, this`values, this`repr
      ensures Valid() && fresh(repr - old(repr))
      ensures Contents() == Stored(ttl, cap, old(Contents()), Item(key, now, data.Value()))
    {
      var room := MakeRoom(ttl, cap, cache, key, now);
      var copy := data.DeepCopy();
      Book(Put(room, Item(key, now, copy)), Item(key, now, copy), data.Value());
    }

    /** Replaces the cache by one that also holds a fresh copy. */
    method Book(kept: Dict<Node>, item: Item<Node>, ghost data: Tree)
      requires Valid() && item.value.Valid() && item.value.Value() == data && item.value !in repr
      requires kept == Stored(ttl, cap, cache, item)
      modifies this`cache, this`values, this`repr
      ensures Valid() && repr == old(repr) + item.value.repr
      ensures Contents() == Stored(ttl, cap, old(Contents()), Item(item.key, item.at, data))
    {
      BookedIsSound(ttl, cap, cache, values, repr, item, kept, data);
      cache, values, repr := kept, values[item.value := data], repr + item.value.repr;
    }

    /** Asks the transport, each time with a permit, until it answers or the attempts are used up. */
    method Ask(env: seq<Attempt>) returns (i: nat)
      requires RateSound() && |env| == attempts && forall a :: a in env ==> a.late >= 0.0
      modifies this`lastRequest, this`permits
      ensures RateSound() && i == FirstAnswer(env)
      ensures permits == Permits(old(permits), minimumInterval, old(lastRequest), env[..Made(env)])
    {
      i := 0;
      while i < attempts
        invariant i <= attempts && RateSound() && forall j :: 0 <= j < i ==> env[j].answer.None?
        invariant permits == Permits(old(permits), minimumInterval, old(lastRequest), env[..i])
        invariant lastRequest == LastOf(permits, old(lastRequest))
      {
        PermitsNext(old(permits), minimumInterval, old(lastRequest), env, i);
        RateLimit(env[i].asked, env[i].late);
        if env[i].answer.Some? {
          return;
        }
        i := i + 1;
      }
    }

    method NoteSuccess(essential: bool, wall: real)
      modifies this`lastSuccess, this`criticalFailures
      ensures lastSuccess == Some(wall) && criticalFailures == Failures(old(criticalFailures), essential, true)
    {
      lastSuccess := Some(wall);
      if essential {
        criticalFailures := 0;
      }
    }

    /** What is kept of an answer. */
    method Record(key: string, essential: bool, data: Node, stored: real, wall: real)
      requires Valid() && data.Valid()
      modifies this`cache, this`values, this`repr, this`lastSuccess, this`criticalFailures
      ensures Valid() && fresh(repr - old(repr)) && lastSuccess == Some(wall)
      ensures Contents() == Stored(ttl, cap, old(Contents()), Item(key, stored, data.Value()))
      ensures criticalFailures == Failures(old(criticalFailures), essential, true)
    {
      Store(key, data, stored);
      NoteSuccess(essential, wall);
    }

    /** Keeps a copy of the answer and hands out another one. */
    method Answered(key: string, essential: bool, data: Node, stored: real, wall: real) returns (given: Node)
      requires Valid() && data.Valid()
      modifies this`cache, this`values, this`repr, this`lastSuccess, this`criticalFailures
      ensures Valid() && fresh(repr - old(repr)) && lastSuccess == Some(wall)
      ensures given.Valid() && fresh(given.repr) && given.repr !! repr && given.Value() == data.Value()
      ensures Contents() == Stored(ttl, cap, old(Contents()), Item(key, stored, data.Value()))
      ensures criticalFailures == Failures(old(criticalFailures), essential, true)
    {
      Record(key, essential, data, stored, wall);
      given := data.DeepCopy();
    }

    /** Asks the transport anew; only the first answer is kept. `essential` marks the price feed, whose failures
        count. */
    method Refresh(key: string, essential: bool, env: seq<Attempt>) returns (r: Option<Node>)
      requires Valid() && RateSound() && |env| == attempts
      requires forall a :: a in env ==> a.late >= 0.0 && (a.answer.Some? ==> a.answer.value.Valid())
      modifies this
      ensures Valid() && RateSound() && fresh(repr - old(repr))
      ensures permits == Permits(old(permits), minimumInterval, old(lastRequest), env[..Made(env)])
      ensures criticalFailures == Failures(old(criticalFailures), essential, r.Some?)
      ensures var first := FirstAnswer(env);
              && (r.Some? <==> first < |env|)
              && (r.Some? ==>
                    && r.value.Valid() && fresh(r.value.repr) && r.value.repr !! repr
                    && r.value.Value() == env[first].answer.value.Value() && lastSuccess == Some(env[first].wall)
                    && Contents()
                       == Stored(ttl, cap, old(Contents()), Item(key, env[first].stored, r.value.Value())))
      ensures r.None? ==> Contents() == old(Contents()) && lastSuccess == old(lastSuccess)
    {
      var i := Ask(env);
      if i < attempts {
        assert env[i] in env;
        var given := Answered(key, essential, env[i].answer.value, env[i].stored, env[i].wall);
        return Some(given);
      }
      if essential {
        criticalFailures := criticalFailures + 1;
      }
      r := None;
    }

    /** One query: a live entry is answered from the cache without a permit; otherwise the transport is asked. What
        is handed out shares no node with the cache. */
    method Query(key: string, essential: bool, now: real, env: seq<Attempt>) returns (r: Option<Node>)
      requires Valid() && RateSound() && |env| == attempts
      requires forall a :: a in env ==> a.late >= 0.0 && (a.answer.Some? ==> a.answer.value.Valid())
      modifies this
      ensures Valid() && RateSound() && fresh(repr - old(repr))
      ensures r.Some? ==> r.value.Valid() && fresh(r.value.repr) && r.value.repr !! repr
      ensures var hit := Hit(ttl, old(Contents()), key, now);
              && (hit.Some? ==>
                    && r.Some? && r.value.Value() == hit.value && Contents() == old(Contents())
                    && permits == old(permits) && criticalFailures == old(criticalFailures)
                    && lastSuccess == old(lastSuccess))
              && (hit.None? ==>
                    && permits == Permits(old(permits), minimumInterval, old(lastRequest), env[..Made(env)])
                    && criticalFailures == (if !essential then old(criticalFailures) else if r.Some? then 0
                                            else old(criticalFailures) + 1)
                    && var first := FirstAnswer(env);
                       if first < |env| then
                         && r.Some? && r.value.Value() == env[first].answer.value.Value()
                         && lastSuccess == Some(env[first].wall)
                         && Contents()
                           == Stored(ttl, cap, old(Contents()), Item(key, env[first].stored, r.value.Value()))
                       else r.None? && Contents() == old(Contents()) && lastSuccess == old(lastSuccess))
    {
      r := Lookup(key, now);
      if r.None? {
        r := Refresh(key, essential, env);
      }
    }
  }

  /** Whatever a caller does to any node of a response it was given, the cache keeps its contents. */
  method CallerMutates(client: Client, given: Node, inner: Node, tag: int, kids: seq<Node>)
    requires client.Valid() && given.Valid() && given.repr !! client.repr && inner in given.repr
    modifies inner
    ensures inner.tag == tag && inner.kids == kids
    ensures client.Valid() && client.Contents() == old(client.Contents()) && client.repr == old(client.repr)
  {
    inner.tag, inner.kids := tag, kids;
  }
}
