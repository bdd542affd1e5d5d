/**
 The gold basis window (gold_basis.py): an ordered bounded window of midpoint pairs, its median basis, and the
 interval a futures level maps to.

 Prices are exact reals, clock values microseconds.
 */
module GoldBasis {
  import opened Common

  const WINDOW: nat := 128
  const WIDEST_SPREAD := 5.0

  datatype Policy = Policy(minimumSamples: nat, maximumAge: int, maxSkew: int, maxDispersion: real, maxResidual: real)

  predicate ValidPolicy(p: Policy) {
    p.minimumSamples >= 3 && p.maximumAge > 0 && p.maxSkew >= 0 && p.maxDispersion > 0.0 && p.maxResidual > 0.0
  }

  datatype Sample = Sample(contract: string, brokerMid: real, futuresMid: real, brokerAt: int, futuresAt: int)

  /** A quoted price; None when it is not a finite number. */
  type Price = Option<real>

  datatype Observation = Observation(contract: string, brokerBid: Price, brokerAsk: Price, futuresBid: Price,
                                     futuresAsk: Price, brokerAt: int, futuresAt: int, now: int)

  datatype Window = Window(samples: seq<Sample>, contract: Option<string>)

  const EMPTY := Window([], None)

  // ---------------------------------------------------------------------
  // Adding an observation
  // ---------------------------------------------------------------------

  predicate SoundQuote(bid: Price, ask: Price) {
    bid.Some? && ask.Some? && 0.0 < bid.value <= ask.value && ask.value - bid.value <= WIDEST_SPREAD
  }

  predicate FreshAt(maximumAge: int, t: int, now: int) {
    0 <= now - t <= maximumAge
  }

  function Distance(a: int, b: int): int {
    if a <= b then b - a else a - b
  }

  predicate Acceptable(p: Policy, o: Observation) {
    && SoundQuote(o.brokerBid, o.brokerAsk) && SoundQuote(o.futuresBid, o.futuresAsk)
    && o.contract != "" && Distance(o.brokerAt, o.futuresAt) <= p.maxSkew
    && FreshAt(p.maximumAge, o.brokerAt, o.now) && FreshAt(p.maximumAge, o.futuresAt, o.now)
  }

  function SampleOf(o: Observation): Sample
    requires o.brokerBid.Some? && o.brokerAsk.Some? && o.futuresBid.Some? && o.futuresAsk.Some?
  {
    Sample(o.contract, (o.brokerBid.value + o.brokerAsk.value) / 2.0, (o.futuresBid.value + o.futuresAsk.value) / 2.0,
           o.brokerAt, o.futuresAt)
  }

  predicate Follows(s: Sample, o: Observation) {
    s.brokerAt < o.brokerAt && s.futuresAt < o.futuresAt
  }

  /** Appending to a bounded deque drops the oldest sample. */
  function Push(samples: seq<Sample>, s: Sample): (r: seq<Sample>)
    ensures |samples| <= WINDOW ==> |r| <= WINDOW
  {
    if |samples| >= WINDOW then samples[|samples| - WINDOW + 1..] + [s] else samples + [s]
  }

  /** The samples an observation is appended to: none after a change of contract. */
  function Carried(w: Window, contract: string): seq<Sample> {
    if w.contract == Some(contract) then w.samples else []
  }

  predicate Accepts(p: Policy, w: Window, o: Observation) {
    var carried := Carried(w, o.contract);
    Acceptable(p, o) && (carried != [] ==> Follows(carried[|carried| - 1], o))
  }

  /** The window after an observation; a rejected one empties it. */
  function Added(p: Policy, w: Window, o: Observation): Window {
    if Accepts(p, w, o) then Window(Push(Carried(w, o.contract), SampleOf(o)), Some(o.contract)) else w.(samples := [])
  }

  /** Two positive finite prices in order, no further apart than the widest spread. */
  predicate Quotes(bid: Price, ask: Price) {
    && bid.Some? && ask.Some? && bid.value > 0.0 && ask.value > 0.0 && bid.value <= ask.value
    && ask.value - bid.value <= 5.0
  }

  /** Which observations are accepted, and what becomes of the window. */
  lemma AddMeans(p: Policy, w: Window, o: Observation, kept: seq<Sample>)
    requires kept == if w.contract == Some(o.contract) then w.samples else []
    ensures Accepts(p, w, o) <==>
              && Quotes(o.brokerBid, o.brokerAsk) && Quotes(o.futuresBid, o.futuresAsk) && o.contract != ""
              && -p.maxSkew <= o.brokerAt - o.futuresAt <= p.maxSkew
              && o.now - p.maximumAge <= o.brokerAt <= o.now && o.now - p.maximumAge <= o.futuresAt <= o.now
              && (kept != [] ==> kept[|kept| - 1].brokerAt < o.brokerAt && kept[|kept| - 1].futuresAt < o.futuresAt)
    ensures Accepts(p, w, o) && |kept| <= 128 ==>
              && Added(p, w, o).contract == Some(o.contract)
              && Added(p, w, o).samples ==
                 (if |kept| == 128 then kept[1..] else kept)
                 + [Sample(o.contract, (o.brokerBid.value + o.brokerAsk.value) / 2.0,
                           (o.futuresBid.value + o.futuresAsk.value) / 2.0, o.brokerAt, o.futuresAt)]
    ensures !Accepts(p, w, o) ==> Added(p, w, o) == Window([], w.contract)
  {
  }

  function Run(p: Policy, observations: seq<Observation>): Window {
    if observations == [] then EMPTY
    else Added(p, Run(p, observations[..|observations| - 1]), observations[|observations| - 1])
  }

  // ---------------------------------------------------------------------
  // The window over every run
  // ---------------------------------------------------------------------

  ghost predicate Ascending(samples: seq<Sample>) {
    forall i, j :: 0 <= i < j < |samples| ==>
      samples[i].brokerAt < samples[j].brokerAt && samples[i].futuresAt < samples[j].futuresAt
  }

  predicate SoundSample(p: Policy, contract: Option<string>, s: Sample) {
    && contract == Some(s.contract) && s.contract != "" && s.brokerMid > 0.0 && s.futuresMid > 0.0
    && Distance(s.brokerAt, s.futuresAt) <= p.maxSkew
  }

  ghost predicate Sound(p: Policy, w: Window) {
    && |w.samples| <= WINDOW && Ascending(w.samples)
    && forall k :: 0 <= k < |w.samples| ==> SoundSample(p, w.contract, w.samples[k])
  }

  lemma PushIsSound(p: Policy, samples: seq<Sample>, s: Sample)
    requires Sound(p, Window(samples, Some(s.contract))) && SoundSample(p, Some(s.contract), s)
    requires samples != [] ==>
               samples[|samples| - 1].brokerAt < s.brokerAt && samples[|samples| - 1].futuresAt < s.futuresAt
    ensures Sound(p, Window(Push(samples, s), Some(s.contract)))
  {
  }

  lemma AddedIsSound(p: Policy, w: Window, o: Observation)
    requires Sound(p, w)
    ensures Sound(p, Added(p, w, o))
    ensures !Accepts(p, w, o) ==> Added(p, w, o).samples == []
  {
    if Accepts(p, w, o) {
      PushIsSound(p, Carried(w, o.contract), SampleOf(o));
    }
  }

  /** In every run the window holds one contract, both clocks strictly increase and its size stays bounded. */
  lemma {:induction false} RunIsSound(p: Policy, observations: seq<Observation>)
    ensures Sound(p, Run(p, observations))
  {
    if observations != [] {
      RunIsSound(p, observations[..|observations| - 1]);
      AddedIsSound(p, Run(p, observations[..|observations| - 1]), observations[|observations| - 1]);
    }
  }

  /** The samples accepted since the last rejection or change of contract, without a bound. */
  function Unbroken(p: Policy, observations: seq<Observation>): seq<Sample> {
    if observations == [] then []
    else
      var init, o := observations[..|observations| - 1], observations[|observations| - 1];
      var w := Run(p, init);
      if !Accepts(p, w, o) then []
      else if w.contract != Some(o.contract) then [SampleOf(o)]
      else Unbroken(p, init) + [SampleOf(o)]
  }

  function Last(s: seq<Sample>, n: nat): seq<Sample> {
    if |s| <= n then s else s[|s| - n..]
  }

  /** The window is exactly the latest samples of the unbroken stretch. */
  lemma {:induction false} WindowIsLatest(p: Policy, observations: seq<Observation>)
    ensures Run(p, observations).samples == Last(Unbroken(p, observations), WINDOW)
  {
    if observations != [] {
      var init, o := observations[..|observations| - 1], observations[|observations| - 1];
      WindowIsLatest(p, init);
      if Accepts(p, Run(p, init), o) {
        PushLast(Unbroken(p, init), SampleOf(o));
        PushLast([], SampleOf(o));
      }
    }
  }

  lemma PushLast(u: seq<Sample>, s: Sample)
    ensures Push(Last(u, WINDOW), s) == Last(u + [s], WINDOW)
  {
  }

  // ---------------------------------------------------------------------
  // Order statistics
  // ---------------------------------------------------------------------

  ghost predicate Sorted(s: seq<real>) {
    forall i, j :: 0 <= i < j < |s| ==> s[i] <= s[j]
  }

  function Insert(s: seq<real>, x: real): seq<real> {
    if s == [] then [x] else if x <= s[0] then [x] + s else [s[0]] + Insert(s[1..], x)
  }

  function Sort(values: seq<real>): seq<real> {
    if values == [] then [] else Insert(Sort(values[..|values| - 1]), values[|values| - 1])
  }

  lemma {:induction false} InsertSorts(s: seq<real>, x: real)
    requires Sorted(s)
    ensures Sorted(Insert(s, x))
  {
    if s != [] && x > s[0] {
      InsertSorts(s[1..], x);
      InsertBound(s[1..], x, s[0]);
    }
  }

  lemma {:induction false} InsertKeeps(s: seq<real>, x: real)
    ensures multiset(Insert(s, x)) == multiset(s) + multiset{x}
  {
    if s != [] {
      assert s == [s[0]] + s[1..];
      InsertKeeps(s[1..], x);
    }
  }

  lemma {:induction false} InsertBound(s: seq<real>, x: real, lo: real)
    requires lo <= x && forall k :: 0 <= k < |s| ==> lo <= s[k]
    ensures forall k :: 0 <= k < |Insert(s, x)| ==> lo <= Insert(s, x)[k]
  {
    if s != [] && x > s[0] {
      InsertBound(s[1..], x, lo);
    }
  }

  lemma {:induction false} SortSorts(values: seq<real>)
    ensures Sorted(Sort(values)) && multiset(Sort(values)) == multiset(values) && |Sort(values)| == |values|
  {
    if values != [] {
      SortSorts(values[..|values| - 1]);
      InsertSorts(Sort(values[..|values| - 1]), values[|values| - 1]);
      InsertKeeps(Sort(values[..|values| - 1]), values[|values| - 1]);
      assert values == values[..|values| - 1] + [values[|values| - 1]];
    }
    assert |multiset(Sort(values))| == |Sort(values)|;
  }

  /** The middle of a sorted sequence: its middle value, or the mean of the two middle values. */
  function Middle(s: seq<real>): real {
    var h := |s| / 2;
    if s == [] then 0.0 else if |s| % 2 == 1 then s[h] else (s[h - 1] + s[h]) / 2.0
  }

  function Median(values: seq<real>): real {
    Middle(Sort(values))
  }

  function CountIf(values: seq<real>, q: real -> bool): nat {
    if values == [] then 0 else CountIf(values[..|values| - 1], q) + Count(q(values[|values| - 1]))
  }

  function Below(c: real): real -> bool { x => x < c }

  function Above(c: real): real -> bool { x => x > c }

  /** No more than half of the values lie strictly on either side. */
  ghost predicate IsMedian(values: seq<real>, c: real) {
    2 * CountIf(values, Below(c)) <= |values| && 2 * CountIf(values, Above(c)) <= |values|
  }

  lemma {:induction false} CountIfInsert(s: seq<real>, x: real, q: real -> bool)
    ensures CountIf(Insert(s, x), q) == CountIf(s, q) + Count(q(x))
  {
    if s == [] {
      assert [x][..0] == [];
    } else if x <= s[0] {
      CountIfPrepend(x, s, q);
    } else {
      CountIfInsert(s[1..], x, q);
      CountIfPrepend(s[0], s[1..], q);
      CountIfPrepend(s[0], Insert(s[1..], x), q);
      assert s == [s[0]] + s[1..];
    }
  }

  lemma {:induction false} CountIfPrepend(x: real, s: seq<real>, q: real -> bool)
    ensures CountIf([x] + s, q) == Count(q(x)) + CountIf(s, q)
  {
    if s == [] {
      assert [x] + s == [x] && [x][..0] == [];
    } else {
      CountIfPrepend(x, s[..|s| - 1], q);
      assert ([x] + s)[..|s|] == [x] + s[..|s| - 1];
    }
  }

  lemma {:induction false} CountIfSort(values: seq<real>, q: real -> bool)
    ensures CountIf(Sort(values), q) == CountIf(values, q)
  {
    if values != [] {
      CountIfSort(values[..|values| - 1], q);
      CountIfInsert(Sort(values[..|values| - 1]), values[|values| - 1], q);
    }
  }

  /** A condition that fails at all indices outside lo..hi holds at most hi - lo times. */
  lemma {:induction false} CountIfRange(s: seq<real>, q: real -> bool, lo: nat, hi: nat)
    requires lo <= hi <= |s| && forall k :: 0 <= k < |s| && q(s[k]) ==> lo <= k < hi
    ensures CountIf(s, q) <= hi - lo
    decreases |s|
  {
    if s != [] {
      var n := |s| - 1;
      if q(s[n]) {
        assert hi == n + 1;
        CountIfRange(s[..n], q, lo, n);
      } else {
        var hi' := if hi <= n then hi else n;
        CountIfRange(s[..n], q, if lo <= hi' then lo else hi', hi');
      }
    }
  }

  lemma MiddleHalves(s: seq<real>, lo: real, hi: real)
    requires s != [] && Sorted(s) && forall k :: 0 <= k < |s| ==> lo <= s[k] <= hi
    ensures IsMedian(s, Middle(s)) && lo <= Middle(s) <= hi
  {
    var c, h := Middle(s), |s| / 2;
    CountIfRange(s, Below(c), 0, h);
    CountIfRange(s, Above(c), if |s| % 2 == 1 then h + 1 else h, |s|);
  }

  lemma SortKeepsBounds(values: seq<real>, lo: real, hi: real)
    requires forall k :: 0 <= k < |values| ==> lo <= values[k] <= hi
    ensures forall k :: 0 <= k < |Sort(values)| ==> lo <= Sort(values)[k] <= hi
  {
    SortSorts(values);
    forall k | 0 <= k < |Sort(values)| ensures lo <= Sort(values)[k] <= hi {
      assert Sort(values)[k] in multiset(Sort(values));
      assert Sort(values)[k] in multiset(values);
    }
  }

  /** The median halves the values and lies between any bounds on them. */
  lemma MedianHalves(values: seq<real>, lo: real, hi: real)
    requires values != [] && forall k :: 0 <= k < |values| ==> lo <= values[k] <= hi
    ensures IsMedian(values, Median(values)) && lo <= Median(values) <= hi
  {
    SortSorts(values);
    SortKeepsBounds(values, lo, hi);
    MiddleHalves(Sort(values), lo, hi);
    CountIfSort(values, Below(Median(values)));
    CountIfSort(values, Above(Median(values)));
  }

  /** The median is the middle value in order, or equally far from both middle values. */
  lemma MedianIsCentral(values: seq<real>)
    requires values != []
    ensures var s, h := Sort(values), |values| / 2;
            |s| == |values| && (if |values| % 2 == 1 then Median(values) == s[h]
                                else Median(values) - s[h - 1] == s[h] - Median(values) >= 0.0)
  {
    SortIsSorted(values);
    MiddleIsCentral(Sort(values));
  }

  lemma SortIsSorted(values: seq<real>)
    ensures Sorted(Sort(values)) && |Sort(values)| == |values|
  {
    SortSorts(values);
  }

  lemma MiddleIsCentral(s: seq<real>)
    requires s != [] && Sorted(s)
    ensures var h := |s| / 2;
            if |s| % 2 == 1 then Middle(s) == s[h] else Middle(s) - s[h - 1] == s[h] - Middle(s) >= 0.0
  {
    var h := |s| / 2;
    if |s| % 2 == 0 {
      assert s[h - 1] <= s[h];
    }
  }

  function Least(values: seq<real>): (m: real)
    requires values != []
    ensures m in values && forall k :: 0 <= k < |values| ==> m <= values[k]
  {
    if |values| == 1 then values[0]
    else
      var m := Least(values[..|values| - 1]);
      assert forall k :: 0 <= k < |values| - 1 ==> values[..|values| - 1][k] == values[k];
      Min(m, values[|values| - 1])
  }

  function Greatest(values: seq<real>): (m: real)
    requires values != []
    ensures m in values && forall k :: 0 <= k < |values| ==> values[k] <= m
  {
    if |values| == 1 then values[0]
    else
      var m := Greatest(values[..|values| - 1]);
      assert forall k :: 0 <= k < |values| - 1 ==> values[..|values| - 1][k] == values[k];
      Max(m, values[|values| - 1])
  }

  // ---------------------------------------------------------------------
  // Estimate and mapping
  // ---------------------------------------------------------------------

  datatype Error = ContractMismatch | Insufficient | Excessive | InvalidLevel | InvalidMapping

  datatype Estimate = Estimate(basis: real, uncertainty: real, count: nat, asOf: int, expiresAt: int)

  datatype Mapped = Mapped(estimate: Estimate, low: real, high: real)

  predicate IsFresh(p: Policy, s: Sample, now: int) {
    FreshAt(p.maximumAge, s.brokerAt, now) && FreshAt(p.maximumAge, s.futuresAt, now)
  }

  function Fresh(p: Policy, samples: seq<Sample>, now: int): (f: seq<Sample>)
    ensures forall k :: 0 <= k < |f| ==> f[k] in samples && IsFresh(p, f[k], now)
  {
    if samples == [] then []
    else
      var s := samples[|samples| - 1];
      Fresh(p, samples[..|samples| - 1], now) + if IsFresh(p, s, now) then [s] else []
  }

  function Basis(s: Sample): real {
    s.futuresMid - s.brokerMid
  }

  function Bases(samples: seq<Sample>): (v: seq<real>)
    ensures |v| == |samples| && forall k :: 0 <= k < |v| ==> v[k] == Basis(samples[k])
  {
    seq(|samples|, k requires 0 <= k < |samples| => Basis(samples[k]))
  }

  function Deviations(values: seq<real>, centre: real): (d: seq<real>)
    ensures |d| == |values| && forall k :: 0 <= k < |d| ==> d[k] == Abs(values[k] - centre)
  {
    seq(|values|, k requires 0 <= k < |values| => Abs(values[k] - centre))
  }

  function Earliest(samples: seq<Sample>): (t: int)
    requires samples != []
    ensures forall k :: 0 <= k < |samples| ==> t <= samples[k].brokerAt && t <= samples[k].futuresAt
    ensures exists k :: 0 <= k < |samples| && (t == samples[k].brokerAt || t == samples[k].futuresAt)
  {
    var s := samples[|samples| - 1];
    var own := MinInt(s.brokerAt, s.futuresAt);
    if |samples| == 1 then own
    else
      var init := samples[..|samples| - 1];
      var t := Earliest(init);
      assert forall k :: 0 <= k < |init| ==> init[k] == samples[k];
      MinInt(t, own)
  }

  function Latest(samples: seq<Sample>): (t: int)
    requires samples != []
    ensures forall k :: 0 <= k < |samples| ==> samples[k].brokerAt <= t && samples[k].futuresAt <= t
    ensures exists k :: 0 <= k < |samples| && (t == samples[k].brokerAt || t == samples[k].futuresAt)
  {
    var s := samples[|samples| - 1];
    var own := if s.brokerAt >= s.futuresAt then s.brokerAt else s.futuresAt;
    if |samples| == 1 then own
    else
      var init := samples[..|samples| - 1];
      var t := Latest(init);
      assert forall k :: 0 <= k < |init| ==> init[k] == samples[k];
      if t >= own then t else own
  }

  /** The estimate over a nonempty sequence of fresh samples. */
  function EstimateOver(p: Policy, live: seq<Sample>): Result<Estimate, Error>
    requires live != []
  {
    var values := Bases(live);
    var centre := Median(values);
    if Greatest(values) - Least(values) > p.maxDispersion
       || Abs(values[|values| - 1] - centre) > p.maxResidual
    then Err(Excessive)
    else Ok(Estimate(centre, Greatest(Deviations(values, centre)), |live|, Latest(live), Earliest(live) + p.maximumAge))
  }

  function EstimateAt(p: Policy, w: Window, contract: string, now: int): Result<Estimate, Error> {
    if w.contract != Some(contract) then Err(ContractMismatch)
    else
      var live := Fresh(p, w.samples, now);
      if |live| < p.minimumSamples || live == [] then Err(Insufficient) else EstimateOver(p, live)
  }

  /** The interval a level maps to under an estimate. */
  function Mapping(level: Price, e: Result<Estimate, Error>): Result<Mapped, Error> {
    if level.None? || level.value <= 0.0 then Err(InvalidLevel)
    else if e.Err? then Err(e.error)
    else
      var mapped := level.value - e.value.basis;
      if mapped - e.value.uncertainty <= 0.0 then Err(InvalidMapping)
      else Ok(Mapped(e.value, mapped - e.value.uncertainty, mapped + e.value.uncertainty))
  }

  function MapLevelAt(p: Policy, w: Window, level: Price, contract: string, now: int): Result<Mapped, Error> {
    Mapping(level, EstimateAt(p, w, contract, now))
  }

  // ---------------------------------------------------------------------
  // Enclosure
  // ---------------------------------------------------------------------

  /** Every basis is within the uncertainty of the median, and the uncertainty within the dispersion. */
  lemma SpreadLaws(values: seq<real>)
    requires values != []
    ensures var c := Median(values);
            var u, d := Greatest(Deviations(values, c)), Greatest(values) - Least(values);
            && (forall k :: 0 <= k < |values| ==> -u <= values[k] - c <= u)
            && Abs(values[|values| - 1] - c) <= u <= d && d <= 2.0 * u
  {
    var c := Median(values);
    MedianHalves(values, Least(values), Greatest(values));
    var dev := Deviations(values, c);
    var u := Greatest(dev);
    forall k | 0 <= k < |values| ensures -u <= values[k] - c <= u {
      assert dev[k] <= u;
    }
    assert dev[|values| - 1] <= u;
    var j :| 0 <= j < |dev| && dev[j] == u;
    assert Least(values) <= values[j] <= Greatest(values);
  }

  /** The samples of the given indices, which are all those no older than the maximum age on both clocks. */
  ghost predicate Picks(p: Policy, samples: seq<Sample>, live: seq<Sample>, at: seq<nat>, now: int) {
    && |at| == |live| && (forall j, k :: 0 <= j < k < |at| ==> at[j] < at[k])
    && (forall k :: 0 <= k < |at| ==> at[k] < |samples| && live[k] == samples[at[k]])
    && (forall i :: 0 <= i < |samples| ==>
          (i in at <==> && now - p.maximumAge <= samples[i].brokerAt <= now
                        && now - p.maximumAge <= samples[i].futuresAt <= now))
  }

  /** The fresh samples are those, in their order. */
  lemma {:induction false} FreshPicks(p: Policy, samples: seq<Sample>, now: int) returns (at: seq<nat>)
    ensures Picks(p, samples, Fresh(p, samples, now), at, now)
  {
    at := [];
    if samples != [] {
      var n := |samples| - 1;
      at := FreshPicks(p, samples[..n], now);
      PicksNext(p, samples, Fresh(p, samples[..n], now), at, now);
      if IsFresh(p, samples[n], now) {
        at := at + [n];
      }
    }
  }

  lemma PicksNext(p: Policy, samples: seq<Sample>, live: seq<Sample>, at: seq<nat>, now: int)
    requires samples != [] && Picks(p, samples[..|samples| - 1], live, at, now)
    ensures var n := |samples| - 1;
            if IsFresh(p, samples[n], now) then Picks(p, samples, live + [samples[n]], at + [n], now)
            else Picks(p, samples, live, at, now)
  {
    var n := |samples| - 1;
    assert forall i :: 0 <= i < n ==> samples[..n][i] == samples[i];
    assert forall i :: i in at + [n] <==> i in at || i == n;
    assert n !in at;
  }

  /** The basis of each sample: how far the future trades above the broker's price. */
  ghost predicate AreBases(live: seq<Sample>, values: seq<real>) {
    |values| == |live| && forall k :: 0 <= k < |live| ==> values[k] == live[k].futuresMid - live[k].brokerMid
  }

  /** No two values are further apart than the dispersion, and the latest is within the residual of the centre. */
  ghost predicate Agree(p: Policy, values: seq<real>, centre: real)
    requires values != []
  {
    && (forall j, k :: 0 <= j < |values| && 0 <= k < |values| ==> values[j] - values[k] <= p.maxDispersion)
    && -p.maxResidual <= values[|values| - 1] - centre <= p.maxResidual
  }

  lemma SpreadIff(values: seq<real>, bound: real)
    requires values != []
    ensures Greatest(values) - Least(values) <= bound
            <==> forall j, k :: 0 <= j < |values| && 0 <= k < |values| ==> values[j] - values[k] <= bound
  {
    var j :| 0 <= j < |values| && values[j] == Greatest(values);
    var k :| 0 <= k < |values| && values[k] == Least(values);
    if Greatest(values) - Least(values) > bound {
      assert values[j] - values[k] > bound;
    }
  }

  lemma BasesAre(live: seq<Sample>, values: seq<real>)
    requires AreBases(live, values)
    ensures values == Bases(live)
  {
  }

  lemma AgreeIff(p: Policy, live: seq<Sample>, values: seq<real>)
    requires live != [] && values == Bases(live)
    ensures EstimateOver(p, live).Ok? <==> Agree(p, values, Median(values))
    ensures EstimateOver(p, live).Err? ==> EstimateOver(p, live).error == Excessive
  {
    hide Median, Greatest, Least, Deviations, Bases, Earliest, Latest;
    SpreadIff(values, p.maxDispersion);
  }

  /** When there is an estimate, and which refusal there is otherwise: on the contract, the number of fresh samples and
      the agreement of their bases. */
  lemma EstimateIff(p: Policy, w: Window, contract: string, now: int, live: seq<Sample>, values: seq<real>)
    requires ValidPolicy(p) && live == Fresh(p, w.samples, now) && AreBases(live, values)
    ensures var e := EstimateAt(p, w, contract, now);
            if w.contract != Some(contract) then e == Err(ContractMismatch)
            else if |live| < p.minimumSamples then e == Err(Insufficient)
            else if !Agree(p, values, Median(values)) then e == Err(Excessive)
            else e.Ok?
  {
    hide Fresh, EstimateOver, Agree, Median;
    BasesAre(live, values);
    if live != [] {
      AgreeIff(p, live, values);
    }
  }

  lemma ReportedSpread(p: Policy, live: seq<Sample>, values: seq<real>, e: Estimate)
    requires live != [] && values == Bases(live) && EstimateOver(p, live) == Ok(e)
    ensures e.count == |live| && e.basis == Median(values)
    ensures forall k :: 0 <= k < |values| ==> Abs(values[k] - e.basis) <= e.uncertainty
    ensures exists k :: 0 <= k < |values| && e.uncertainty == Abs(values[k] - e.basis)
  {
    hide Median, Greatest, Least, Bases, Abs, Earliest, Latest;
    var deviations := Deviations(values, Median(values));
    assert forall k :: 0 <= k < |values| ==> deviations[k] == Abs(values[k] - e.basis);
    var k :| 0 <= k < |deviations| && deviations[k] == Greatest(deviations);
    assert e.uncertainty == Abs(values[k] - e.basis);
  }

  lemma ReportedClocks(p: Policy, live: seq<Sample>, e: Estimate)
    requires live != [] && EstimateOver(p, live) == Ok(e)
    ensures forall k :: 0 <= k < |live| ==>
              && live[k].brokerAt <= e.asOf && live[k].futuresAt <= e.asOf
              && e.expiresAt <= live[k].brokerAt + p.maximumAge && e.expiresAt <= live[k].futuresAt + p.maximumAge
    ensures exists k :: 0 <= k < |live| && (e.asOf == live[k].brokerAt || e.asOf == live[k].futuresAt)
    ensures exists k :: 0 <= k < |live| && (e.expiresAt == live[k].brokerAt + p.maximumAge
                                            || e.expiresAt == live[k].futuresAt + p.maximumAge)
  {
    hide Median, Greatest, Least, Bases, Deviations, Abs;
  }

  /** What an estimate reports: the median basis, the largest distance of a basis from it, and the span of the
      clocks. */
  lemma EstimateReports(p: Policy, w: Window, contract: string, now: int, live: seq<Sample>, values: seq<real>,
                        e: Estimate)
    requires EstimateAt(p, w, contract, now) == Ok(e) && live == Fresh(p, w.samples, now) && AreBases(live, values)
    ensures live != [] && e.count == |live| && e.basis == Median(values)
    ensures forall k :: 0 <= k < |values| ==> Abs(values[k] - e.basis) <= e.uncertainty
    ensures exists k :: 0 <= k < |values| && e.uncertainty == Abs(values[k] - e.basis)
    ensures forall k :: 0 <= k < |live| ==>
              && live[k].brokerAt <= e.asOf && live[k].futuresAt <= e.asOf
              && e.expiresAt <= live[k].brokerAt + p.maximumAge && e.expiresAt <= live[k].futuresAt + p.maximumAge
    ensures exists k :: 0 <= k < |live| && (e.asOf == live[k].brokerAt || e.asOf == live[k].futuresAt)
    ensures exists k :: 0 <= k < |live| && (e.expiresAt == live[k].brokerAt + p.maximumAge
                                            || e.expiresAt == live[k].futuresAt + p.maximumAge)
  {
    hide Fresh, EstimateOver, Median, Abs, Bases;
    BasesAre(live, values);
    EstimateIsOver(p, w, contract, now, e);
    ReportedSpread(p, live, values, e);
    ReportedClocks(p, live, e);
  }

  /** A level maps to the interval of the uncertainty around it less the basis, refused unless all of it is positive. */
  lemma MappingMeans(p: Policy, w: Window, level: Price, contract: string, now: int)
    ensures var e, mapped := EstimateAt(p, w, contract, now), MapLevelAt(p, w, level, contract, now);
            if level.None? || level.value <= 0.0 then mapped == Err(InvalidLevel)
            else if e.Err? then mapped == Err(e.error)
            else if level.value - e.value.basis <= e.value.uncertainty then mapped == Err(InvalidMapping)
            else && mapped.Ok? && mapped.value.estimate == e.value
                 && (mapped.value.low + mapped.value.high) / 2.0 == level.value - e.value.basis
                 && mapped.value.high - mapped.value.low == 2.0 * e.value.uncertainty
  {
  }

  /** What an estimate says about the samples it was made from. */
  ghost predicate Describes(p: Policy, live: seq<Sample>, e: Estimate)
    requires live != []
  {
    && (forall k :: 0 <= k < |live| ==> -e.uncertainty <= Basis(live[k]) - e.basis <= e.uncertainty)
    && 0.0 <= e.uncertainty <= p.maxDispersion && IsMedian(Bases(live), e.basis)
    && e.count == |live| && e.asOf == Latest(live) && e.expiresAt == Earliest(live) + p.maximumAge
  }

  lemma EstimateDescribes(p: Policy, live: seq<Sample>, e: Estimate)
    requires live != [] && EstimateOver(p, live) == Ok(e)
    ensures Describes(p, live, e)
  {
    var values := Bases(live);
    SpreadLaws(values);
    MedianHalves(values, Least(values), Greatest(values));
    forall k | 0 <= k < |live| ensures -e.uncertainty <= Basis(live[k]) - e.basis <= e.uncertainty {
      assert values[k] == Basis(live[k]);
    }
  }

  lemma EstimateIsOver(p: Policy, w: Window, contract: string, now: int, e: Estimate)
    requires EstimateAt(p, w, contract, now) == Ok(e)
    ensures var live := Fresh(p, w.samples, now); live != [] && EstimateOver(p, live) == Ok(e)
  {
  }

  /** What an estimate says about the window. */
  lemma EstimateFrom(p: Policy, w: Window, contract: string, now: int, e: Estimate)
    requires EstimateAt(p, w, contract, now) == Ok(e)
    ensures var live := Fresh(p, w.samples, now); live != [] && Describes(p, live, e)
  {
    EstimateIsOver(p, w, contract, now, e);
    EstimateDescribes(p, Fresh(p, w.samples, now), e);
  }

  lemma MappingFrom(p: Policy, w: Window, level: real, contract: string, now: int, m: Mapped)
    requires MapLevelAt(p, w, Some(level), contract, now) == Ok(m)
    ensures EstimateAt(p, w, contract, now) == Ok(m.estimate) && 0.0 < m.low
    ensures m.low == level - m.estimate.basis - m.estimate.uncertainty
    ensures m.high == level - m.estimate.basis + m.estimate.uncertainty
  {
  }

  /** A live sample bounds the clock from which the estimate expires. */
  lemma NotExpired(p: Policy, live: seq<Sample>, now: int)
    requires live != [] && forall k :: 0 <= k < |live| ==> IsFresh(p, live[k], now)
    ensures Earliest(live) <= now <= Earliest(live) + p.maximumAge
  {
  }

  /** The interval a level maps to contains what every fresh basis maps it to; it is positive, at most twice
      the permitted dispersion wide, centred on a median of the fresh bases, and has not expired. */
  lemma MappingEncloses(p: Policy, w: Window, level: real, contract: string, now: int, m: Mapped)
    requires MapLevelAt(p, w, Some(level), contract, now) == Ok(m)
    ensures forall s :: s in w.samples && IsFresh(p, s, now) ==> m.low <= level - Basis(s) <= m.high
    ensures 0.0 < m.low <= m.high && m.high - m.low <= 2.0 * p.maxDispersion
    ensures IsMedian(Bases(Fresh(p, w.samples, now)), m.estimate.basis) && now <= m.estimate.expiresAt
  {
    var live := Fresh(p, w.samples, now);
    MappingFrom(p, w, level, contract, now, m);
    EstimateFrom(p, w, contract, now, m.estimate);
    NotExpired(p, live, now);
    forall s | s in w.samples && IsFresh(p, s, now) ensures m.low <= level - Basis(s) <= m.high {
      FreshIsComplete(p, w.samples, now, s);
      LiveIsEnclosed(p, live, m.estimate, s);
    }
  }

  lemma LiveIsEnclosed(p: Policy, live: seq<Sample>, e: Estimate, s: Sample)
    requires s in live && Describes(p, live, e)
    ensures -e.uncertainty <= Basis(s) - e.basis <= e.uncertainty
  {
    var k :| 0 <= k < |live| && live[k] == s;
  }

  lemma AddedHolds(p: Policy, w: Window, o: Observation)
    requires Accepts(p, w, o)
    ensures SampleOf(o) in Added(p, w, o).samples
  {
  }

  lemma SampleIsEnclosed(p: Policy, w: Window, level: real, contract: string, now: int, m: Mapped, s: Sample)
    requires MapLevelAt(p, w, Some(level), contract, now) == Ok(m) && s in w.samples && IsFresh(p, s, now)
    ensures m.low <= level - Basis(s) <= m.high
  {
    MappingEncloses(p, w, level, contract, now, m);
  }

  /** The midpoint of a futures quote maps to an interval around the broker midpoint observed with it, at once
      and for as long as the observation is fresh. */
  lemma ObservedPairIsEnclosed(p: Policy, w: Window, o: Observation, added: Window, s: Sample, level: real, now: int,
                               m: Mapped)
    requires Accepts(p, w, o) && added == Added(p, w, o) && s == SampleOf(o) && IsFresh(p, s, now)
    requires level == (o.futuresBid.value + o.futuresAsk.value) / 2.0
    requires MapLevelAt(p, added, Some(level), o.contract, now) == Ok(m)
    ensures m.low <= (o.brokerBid.value + o.brokerAsk.value) / 2.0 <= m.high
  {
    AddedHolds(p, w, o);
    SampleIsEnclosed(p, added, level, o.contract, now, m, s);
  }

  lemma {:induction false} FreshIsComplete(p: Policy, samples: seq<Sample>, now: int, s: Sample)
    requires s in samples && IsFresh(p, s, now)
    ensures s in Fresh(p, samples, now)
  {
    if samples[|samples| - 1] != s {
      var k :| 0 <= k < |samples| && samples[k] == s;
      assert samples[..|samples| - 1][k] == s;
      FreshIsComplete(p, samples[..|samples| - 1], now, s);
    }
  }

  /** The residual check can only ever refuse what the dispersion check lets through when the permitted
      residual is below the permitted dispersion. */
  lemma ResidualCheckIsImplied(p: Policy, live: seq<Sample>)
    requires live != [] && p.maxResidual >= p.maxDispersion
    ensures EstimateOver(p, live).Err? <==> Greatest(Bases(live)) - Least(Bases(live)) > p.maxDispersion
  {
    SpreadLaws(Bases(live));
  }

  /** Up to its announced expiry an estimate does not change while no observation arrives. */
  lemma EstimateHoldsUntilExpiry(p: Policy, w: Window, contract: string, now: int, later: int, e: Estimate)
    requires EstimateAt(p, w, contract, now) == Ok(e) && now <= later <= e.expiresAt
    requires forall s :: s in w.samples ==> s.brokerAt <= now && s.futuresAt <= now
    ensures EstimateAt(p, w, contract, later) == Ok(e)
  {
    var live := Fresh(p, w.samples, now);
    EstimateFrom(p, w, contract, now, e);
    FreshLonger(p, w.samples, live, now, later);
  }

  lemma FreshLonger(p: Policy, samples: seq<Sample>, live: seq<Sample>, now: int, later: int)
    requires live == Fresh(p, samples, now) && live != [] && now <= later <= Earliest(live) + p.maximumAge
    requires forall s :: s in samples ==> s.brokerAt <= now && s.futuresAt <= now
    ensures Fresh(p, samples, later) == live
  {
    forall s | s in samples ensures IsFresh(p, s, now) <==> IsFresh(p, s, later) {
      if IsFresh(p, s, now) {
        FreshIsComplete(p, samples, now, s);
        StaysFresh(p, live, s, now, later);
      }
    }
    FreshAgrees(p, samples, now, later);
  }

  lemma StaysFresh(p: Policy, live: seq<Sample>, s: Sample, now: int, later: int)
    requires s in live && IsFresh(p, s, now) && now <= later <= Earliest(live) + p.maximumAge
    ensures IsFresh(p, s, later)
  {
  }

  lemma {:induction false} FreshAgrees(p: Policy, samples: seq<Sample>, now: int, later: int)
    requires forall s :: s in samples ==> (IsFresh(p, s, now) <==> IsFresh(p, s, later))
    ensures Fresh(p, samples, now) == Fresh(p, samples, later)
  {
    if samples != [] {
      FreshAgrees(p, samples[..|samples| - 1], now, later);
      assert samples[|samples| - 1] in samples;
    }
  }

  /** Beyond it, at least one of the samples it was made from is no longer fresh. */
  lemma EstimateLosesSampleAfterExpiry(p: Policy, w: Window, contract: string, now: int, later: int, e: Estimate)
    requires EstimateAt(p, w, contract, now) == Ok(e) && later > e.expiresAt
    ensures exists s :: s in Fresh(p, w.samples, now) && !IsFresh(p, s, later)
  {
    var live := Fresh(p, w.samples, now);
    EstimateFrom(p, w, contract, now, e);
    var j :| 0 <= j < |live| && (Earliest(live) == live[j].brokerAt || Earliest(live) == live[j].futuresAt);
    assert live[j] in live && !IsFresh(p, live[j], later);
  }

  // ---------------------------------------------------------------------
  // The service object
  // ---------------------------------------------------------------------

  class GoldBasisService {
    const policy: Policy
    var samples: seq<Sample>
    var contract: Option<string>

    function Current(): Window
      reads this
    {
      Window(samples, contract)
    }

    constructor (policy: Policy)
      requires ValidPolicy(policy)
      ensures this.policy == policy && Current() == EMPTY
    {
      this.policy := policy;
      samples, contract := [], None;
    }

    /** Appends an acceptable, ordered observation; false when it raises. */
    method TryAdd(o: Observation) returns (ok: bool)
      modifies this
      ensures ok == Accepts(policy, old(Current()), o)
      ensures ok ==> Current() == Added(policy, old(Current()), o)
      ensures !ok ==> contract == old(contract)
    {
      if !Acceptable(policy, o) {
        return false;
      }
      if contract != Some(o.contract) {
        samples := [];
        contract := Some(o.contract);
      }
      if samples != [] && !Follows(samples[|samples| - 1], o) {
        return false;
      }
      samples := Push(samples, SampleOf(o));
      return true;
    }

    method Add(o: Observation) returns (ok: bool)
      modifies this
      ensures ok == Accepts(policy, old(Current()), o)
      ensures Current() == Added(policy, old(Current()), o)
    {
      ok := TryAdd(o);
      if !ok {
        samples := [];
      }
    }

    function Estimate(contract: string, now: int): (e: Result<Estimate, Error>)
      reads this
      ensures e.Ok? ==> e.value.uncertainty <= policy.maxDispersion && now <= e.value.expiresAt
    {
      var e := EstimateAt(policy, Current(), contract, now);
      if e.Ok? then
        EstimateFrom(policy, Current(), contract, now, e.value);
        NotExpired(policy, Fresh(policy, samples, now), now);
        e
      else e
    }

    /** The interval of a level, which contains what every fresh sample maps it to. */
    function MapLevel(level: Price, contract: string, now: int): (m: Result<Mapped, Error>)
      reads this
      ensures m.Ok? ==>
                && level.Some? && 0.0 < m.value.low
                && forall s :: s in samples && IsFresh(policy, s, now) ==>
                     m.value.low <= level.value - Basis(s) <= m.value.high
    {
      var m := Mapping(level, Estimate(contract, now));
      if m.Ok? then
        MappingEncloses(policy, Current(), level.value, contract, now, m.value);
        m
      else m
    }
  }
}
