/**
 The bounded response cache and the request rate limit of the market-data client (coinglass_production.py), as
 functions of their state.

 The cache is a dictionary in insertion order, as Python keeps it. Clock values are exact reals.
 */
module TtlCache {
  import opened Common

  datatype Item<P> = Item(key: string, at: real, value: P)

  type Dict<P> = seq<Item<P>>

  // ---------------------------------------------------------------------
  // The dictionary
  // ---------------------------------------------------------------------

  predicate Live(ttl: real, at: real, now: real) {
    now - at <= ttl
  }

  predicate Has<P>(d: Dict<P>, key: string) {
    exists k :: 0 <= k < |d| && d[k].key == key
  }

  ghost predicate DistinctKeys<P>(d: Dict<P>) {
    forall i, j :: 0 <= i < j < |d| ==> d[i].key != d[j].key
  }

  /** The position of a key; the length when it is absent. */
  function IndexOf<P>(d: Dict<P>, key: string): (k: nat)
    ensures k <= |d| && (k < |d| ==> d[k].key == key) && forall j :: 0 <= j < k ==> d[j].key != key
  {
    if d == [] then 0 else if d[0].key == key then 0 else 1 + IndexOf(d[1..], key)
  }

  /** Without the expired items. */
  function Purged<P>(ttl: real, d: Dict<P>, now: real): Dict<P> {
    if d == [] then []
    else
      var last := d[|d| - 1];
      Purged(ttl, d[..|d| - 1], now) + if Live(ttl, last.at, now) then [last] else []
  }

  /** The first of the oldest items. */
  function OldestOf<P>(d: Dict<P>): (k: nat)
    requires d != []
    ensures k < |d| && forall j :: 0 <= j < |d| ==> d[k].at <= d[j].at && (j < k ==> d[k].at < d[j].at)
  {
    if |d| == 1 then 0
    else
      var init := d[..|d| - 1];
      var k := OldestOf(init);
      assert forall j :: 0 <= j < |init| ==> init[j] == d[j];
      if d[|d| - 1].at < d[k].at then |d| - 1 else k
  }

  function Without<P>(d: Dict<P>, k: nat): Dict<P>
    requires k < |d|
  {
    d[..k] + d[k + 1..]
  }

  /** Assignment keeps the place of a present key and appends an absent one. */
  function Put<P>(d: Dict<P>, item: Item<P>): Dict<P> {
    var k := IndexOf(d, item.key);
    if k < |d| then d[k := item] else d + [item]
  }

  predicate MustEvict<P>(live: Dict<P>, cap: nat, key: string) {
    !Has(live, key) && |live| >= cap && live != []
  }

  /** What stays when an item is stored: expired items go, then the oldest if the key is new and the
      dictionary is still full. */
  function Room<P>(ttl: real, cap: nat, d: Dict<P>, key: string, now: real): Dict<P> {
    var live := Purged(ttl, d, now);
    if MustEvict(live, cap, key) then Without(live, OldestOf(live)) else live
  }

  function Stored<P>(ttl: real, cap: nat, d: Dict<P>, item: Item<P>): Dict<P> {
    Put(Room(ttl, cap, d, item.key, item.at), item)
  }

  /** The list of expired keys is removed item by item. */
  method Purge<P>(ttl: real, d: Dict<P>, now: real) returns (live: Dict<P>)
    ensures live == Purged(ttl, d, now)
  {
    live := [];
    for n := 0 to |d|
      invariant live == Purged(ttl, d[..n], now)
    {
      assert d[..n + 1][..n] == d[..n];
      if Live(ttl, d[n].at, now) {
        live := live + [d[n]];
      }
    }
    assert d[..|d|] == d;
  }

  method Oldest<P>(d: Dict<P>) returns (k: nat)
    requires d != []
    ensures k == OldestOf(d)
  {
    k := 0;
    for n := 1 to |d|
      invariant k == OldestOf(d[..n])
    {
      assert d[..n + 1][..n] == d[..n];
      if d[n].at < d[k].at {
        k := n;
      }
    }
    assert d[..|d|] == d;
  }

  /** Removes the expired items, then the oldest one if the key is new and the rest fill the cap. */
  method MakeRoom<P>(ttl: real, cap: nat, d: Dict<P>, key: string, now: real) returns (room: Dict<P>)
    requires cap > 0
    ensures room == Room(ttl, cap, d, key, now)
  {
    room := Purge(ttl, d, now);
    if !Has(room, key) && |room| >= cap {
      var k := Oldest(room);
      room := Without(room, k);
    }
  }

  // ---------------------------------------------------------------------
  // Laws of a store
  // ---------------------------------------------------------------------

  lemma {:induction false} PurgeMembers<P>(ttl: real, d: Dict<P>, now: real)
    ensures forall x :: x in Purged(ttl, d, now) <==> x in d && Live(ttl, x.at, now)
    ensures |Purged(ttl, d, now)| <= |d|
  {
    if d != [] {
      PurgeMembers(ttl, d[..|d| - 1], now);
      assert d == d[..|d| - 1] + [d[|d| - 1]];
    }
  }

  lemma {:induction false} PurgedFrom<P>(ttl: real, d: Dict<P>, now: real, k: nat) returns (j: nat)
    requires k < |Purged(ttl, d, now)|
    ensures j < |d| && d[j] == Purged(ttl, d, now)[k]
  {
    var init := d[..|d| - 1];
    if k < |Purged(ttl, init, now)| {
      j := PurgedFrom(ttl, init, now, k);
    } else {
      j := |d| - 1;
    }
  }

  lemma {:induction false} PurgeKeepsDistinct<P>(ttl: real, d: Dict<P>, now: real)
    requires DistinctKeys(d)
    ensures DistinctKeys(Purged(ttl, d, now))
  {
    if d != [] {
      var init := d[..|d| - 1];
      PurgeKeepsDistinct(ttl, init, now);
      forall k | 0 <= k < |Purged(ttl, init, now)| ensures Purged(ttl, init, now)[k].key != d[|d| - 1].key {
        var j := PurgedFrom(ttl, init, now, k);
        assert d[j] == init[j];
      }
    }
  }

  lemma WithoutLaws<P>(d: Dict<P>, k: nat)
    requires k < |d| && DistinctKeys(d)
    ensures DistinctKeys(Without(d, k)) && |Without(d, k)| == |d| - 1
    ensures forall x :: x in Without(d, k) <==> x in d && x != d[k]
  {
    var w := Without(d, k);
    forall x ensures x in w <==> x in d && x != d[k] {
      if x in d && x != d[k] {
        var j :| 0 <= j < |d| && d[j] == x;
        assert w[if j < k then j else j - 1] == x;
      }
      if x in w {
        var j :| 0 <= j < |w| && w[j] == x;
        assert x == d[if j < k then j else j + 1];
      }
    }
  }

  lemma PutLaws<P>(d: Dict<P>, item: Item<P>)
    requires DistinctKeys(d)
    ensures DistinctKeys(Put(d, item)) && |Put(d, item)| == |d| + Count(!Has(d, item.key))
    ensures forall x :: x in Put(d, item) <==> x == item || (x in d && x.key != item.key)
  {
    var k, p := IndexOf(d, item.key), Put(d, item);
    assert Has(d, item.key) <==> k < |d|;
    forall x ensures x in p <==> x == item || (x in d && x.key != item.key) {
      if x in d && x.key != item.key {
        var j :| 0 <= j < |d| && d[j] == x;
        assert p[j] == x;
      }
      if x == item {
        assert p[k] == x;
      }
      if x in p && x != item {
        var j :| 0 <= j < |p| && p[j] == x;
        assert x == d[j];
      }
    }
  }

  lemma NoPlaceInside<P>(live: Dict<P>, k: nat, key: string)
    requires k < |live| && !Has(live, key)
    ensures !Has(Without(live, k), key)
  {
    var w := Without(live, k);
    forall j | 0 <= j < |w| ensures w[j].key != key {
      assert w[j] == live[if j < k then j else j + 1];
    }
  }

  /** The item evicted to make room, if any. */
  ghost predicate Evicted<P>(live: Dict<P>, cap: nat, key: string, x: Item<P>) {
    MustEvict(live, cap, key) && x == live[OldestOf(live)]
  }

  lemma RoomLaws<P>(ttl: real, cap: nat, d: Dict<P>, key: string, now: real)
    requires cap > 0 && DistinctKeys(d) && |d| <= cap
    ensures var room, live := Room(ttl, cap, d, key, now), Purged(ttl, d, now);
            && DistinctKeys(room) && |room| + Count(!Has(room, key)) <= cap
            && forall x :: x in room <==> x in d && Live(ttl, x.at, now) && !Evicted(live, cap, key, x)
  {
    var live := Purged(ttl, d, now);
    PurgeMembers(ttl, d, now);
    PurgeKeepsDistinct(ttl, d, now);
    if MustEvict(live, cap, key) {
      WithoutLaws(live, OldestOf(live));
      NoPlaceInside(live, OldestOf(live), key);
    }
  }

  /** What a store does to the dictionary as a set of items: the new one is in, within the cap, and every other
      live one stays, but for the first oldest one when the key is new and the rest still fill the cap. */
  lemma StoreLaws<P>(ttl: real, cap: nat, d: Dict<P>, item: Item<P>)
    requires cap > 0 && DistinctKeys(d) && |d| <= cap
    ensures var s, live := Stored(ttl, cap, d, item), Purged(ttl, d, item.at);
            && DistinctKeys(s) && |s| <= cap
            && forall x :: x in s <==>
                 x == item
                 || (x in d && x.key != item.key && Live(ttl, x.at, item.at) && !Evicted(live, cap, item.key, x))
  {
    RoomLaws(ttl, cap, d, item.key, item.at);
    PutLaws(Room(ttl, cap, d, item.key, item.at), item);
  }

  /** Where an item that was not just stored comes from. */
  lemma StoredFrom<P>(ttl: real, cap: nat, d: Dict<P>, item: Item<P>, k: nat) returns (j: nat)
    requires k < |Stored(ttl, cap, d, item)| && k != IndexOf(Room(ttl, cap, d, item.key, item.at), item.key)
    ensures j < |d| && d[j] == Stored(ttl, cap, d, item)[k]
  {
    var live := Purged(ttl, d, item.at);
    var evicts := MustEvict(live, cap, item.key);
    j := PurgedFrom(ttl, d, item.at, if evicts && k >= OldestOf(live) then k + 1 else k);
  }

  /** The places of all items no older than the time to live, in order. */
  ghost predicate LivePlaces<P>(ttl: real, d: Dict<P>, now: real, live: seq<nat>) {
    && (forall j, k :: 0 <= j < k < |live| ==> live[j] < live[k])
    && (forall k :: 0 <= k < |live| ==> live[k] < |d|)
    && (forall i :: 0 <= i < |d| ==> (i in live <==> now <= d[i].at + ttl))
  }

  function Picked<P>(d: Dict<P>, places: seq<nat>): (r: Dict<P>)
    requires forall k :: 0 <= k < |places| ==> places[k] < |d|
    ensures |r| == |places| && forall k :: 0 <= k < |r| ==> r[k] == d[places[k]]
  {
    seq(|places|, k requires 0 <= k < |places| => d[places[k]])
  }

  lemma {:induction false} PurgedIsPicked<P>(ttl: real, d: Dict<P>, now: real) returns (live: seq<nat>)
    ensures LivePlaces(ttl, d, now, live) && Purged(ttl, d, now) == Picked(d, live)
  {
    live := [];
    if d != [] {
      var init := PurgedIsPicked(ttl, d[..|d| - 1], now);
      LivePlacesNext(ttl, d, now, init);
      PickedNext(d, init);
      hide LivePlaces;
      live := if Live(ttl, d[|d| - 1].at, now) then init + [|d| - 1] else init;
    }
  }

  lemma PickedNext<P>(d: Dict<P>, places: seq<nat>)
    requires d != [] && forall k :: 0 <= k < |places| ==> places[k] < |d| - 1
    ensures Picked(d[..|d| - 1], places) == Picked(d, places)
    ensures Picked(d, places + [|d| - 1]) == Picked(d, places) + [d[|d| - 1]]
  {
  }

  lemma LivePlacesNext<P>(ttl: real, d: Dict<P>, now: real, live: seq<nat>)
    requires d != [] && LivePlaces(ttl, d[..|d| - 1], now, live)
    ensures var n := |d| - 1; LivePlaces(ttl, d, now, if now <= d[n].at + ttl then live + [n] else live)
  {
    var n := |d| - 1;
    assert forall i :: 0 <= i < n ==> d[..n][i] == d[i];
    assert forall i :: i in live + [n] <==> i in live || i == n;
    assert n !in live;
  }

  /** The item at the place is the first of the oldest. */
  ghost predicate IsFirstOldest<P>(d: Dict<P>, k: nat) {
    && k < |d| && (forall j :: 0 <= j < |d| ==> d[k].at <= d[j].at)
    && (forall j :: 0 <= j < k ==> d[k].at < d[j].at)
  }

  /** What a store leaves: the live items in their order, with the new one in the place of its key; or, when its key is
      new, at the end, after the first oldest has been dropped if the live items fill the cap. */
  lemma StoreMeans<P>(ttl: real, cap: nat, d: Dict<P>, item: Item<P>) returns (live: seq<nat>, k: nat)
    requires cap > 0
    ensures LivePlaces(ttl, d, item.at, live)
    ensures var kept, s := Picked(d, live), Stored(ttl, cap, d, item);
            if exists j :: 0 <= j < |kept| && kept[j].key == item.key then
              k < |kept| && kept[k].key == item.key && s == kept[k := item]
            else if |kept| < cap then s == kept + [item]
            else IsFirstOldest(kept, k) && s == kept[..k] + kept[k + 1..] + [item]
  {
    hide Purged, Live;
    live := PurgedIsPicked(ttl, d, item.at);
    var kept := Picked(d, live);
    if Has(kept, item.key) {
      k := IndexOf(kept, item.key);
    } else {
      k := if kept == [] then 0 else OldestOf(kept);
      if MustEvict(kept, cap, item.key) {
        NoPlaceInside(kept, k, item.key);
      }
    }
  }

  // ---------------------------------------------------------------------
  // Storing does not look at the values
  // ---------------------------------------------------------------------

  function Mapped<P, Q>(d: Dict<P>, f: P -> Q): (e: Dict<Q>)
    ensures |e| == |d| && forall k :: 0 <= k < |d| ==> e[k] == Item(d[k].key, d[k].at, f(d[k].value))
  {
    seq(|d|, k requires 0 <= k < |d| => Item(d[k].key, d[k].at, f(d[k].value)))
  }

  lemma {:induction false} MappedPurged<P, Q>(ttl: real, d: Dict<P>, now: real, f: P -> Q)
    ensures Mapped(Purged(ttl, d, now), f) == Purged(ttl, Mapped(d, f), now)
  {
    if d != [] {
      MappedPurged(ttl, d[..|d| - 1], now, f);
      assert Mapped(d, f)[..|d| - 1] == Mapped(d[..|d| - 1], f);
    }
  }

  lemma MappedOldest<P, Q>(d: Dict<P>, f: P -> Q)
    requires d != []
    ensures OldestOf(Mapped(d, f)) == OldestOf(d)
  {
    var e, i := Mapped(d, f), OldestOf(d);
    var j := OldestOf(e);
    assert e[i].at == d[i].at && e[j].at == d[j].at;
    assert d[i].at <= d[j].at && e[j].at <= e[i].at;
  }

  lemma MappedIndex<P, Q>(d: Dict<P>, key: string, f: P -> Q)
    ensures IndexOf(Mapped(d, f), key) == IndexOf(d, key) && (Has(Mapped(d, f), key) <==> Has(d, key))
  {
    var e, i := Mapped(d, f), IndexOf(d, key);
    var j := IndexOf(e, key);
    assert i < |d| ==> e[i].key == key;
    assert j < |e| ==> d[j].key == key;
  }

  lemma MappedEviction<P, Q>(live: Dict<P>, cap: nat, key: string, f: P -> Q)
    ensures MustEvict(Mapped(live, f), cap, key) <==> MustEvict(live, cap, key)
    ensures live != []
            ==> Mapped(Without(live, OldestOf(live)), f) == Without(Mapped(live, f), OldestOf(Mapped(live, f)))
  {
    hide IndexOf, OldestOf, Has;
    MappedIndex(live, key, f);
    if live != [] {
      MappedOldest(live, f);
    }
  }

  lemma MappedRoom<P, Q>(ttl: real, cap: nat, d: Dict<P>, key: string, now: real, f: P -> Q)
    ensures Mapped(Room(ttl, cap, d, key, now), f) == Room(ttl, cap, Mapped(d, f), key, now)
  {
    MappedPurged(ttl, d, now, f);
    MappedEviction(Purged(ttl, d, now), cap, key, f);
  }

  /** Storing a mapped value into the mapped dictionary is mapping the stored dictionary. */
  lemma MappedStored<P, Q>(ttl: real, cap: nat, d: Dict<P>, item: Item<P>, f: P -> Q)
    ensures Mapped(Stored(ttl, cap, d, item), f)
            == Stored(ttl, cap, Mapped(d, f), Item(item.key, item.at, f(item.value)))
  {
    var room := Room(ttl, cap, d, item.key, item.at);
    MappedRoom(ttl, cap, d, item.key, item.at, f);
    MappedIndex(room, item.key, f);
  }

  // ---------------------------------------------------------------------
  // The rate limit
  // ---------------------------------------------------------------------

  /** Until when a thread sleeps that asks for a permit: the rest of the minimum interval since the last one. */
  function Due(interval: real, lastRequest: real, asked: real): (due: real)
    ensures due >= lastRequest + interval && due >= asked && (due == lastRequest + interval || due == asked)
  {
    var delay := interval - (asked - lastRequest);
    if delay > 0.0 then asked + delay else asked
  }

  /** The time between a permit and the one before. */
  function Gap(permits: seq<real>, k: nat): real
    requires 0 < k < |permits|
  {
    permits[k] - permits[k - 1]
  }

  /** Each permit comes at least the minimum interval after the one before. */
  ghost predicate Spaced(permits: seq<real>, interval: real) {
    forall k: nat :: 0 < k < |permits| ==> Gap(permits, k) >= interval
  }

  lemma SpacedNext(permits: seq<real>, interval: real, lastRequest: real, woken: real)
    requires Spaced(permits, interval) && (permits != [] ==> lastRequest == permits[|permits| - 1])
    requires woken >= lastRequest + interval
    ensures Spaced(permits + [woken], interval)
  {
    forall k: nat | 0 < k <= |permits| ensures Gap(permits + [woken], k) >= interval {
      if k < |permits| {
        assert Gap(permits + [woken], k) == Gap(permits, k);
      }
    }
  }

  /** Hence any two permits are that far apart. */
  lemma {:induction false} SpacedApart(permits: seq<real>, interval: real, i: nat, j: nat)
    requires Spaced(permits, interval) && interval >= 0.0 && i < j < |permits|
    ensures permits[j] - permits[i] >= interval
    decreases j
  {
    assert Gap(permits, j) >= interval;
    if i < j - 1 {
      SpacedApart(permits, interval, i, j - 1);
    }
  }
}
