/**
 The accepted trades of a gold-futures replay and the figures a snapshot derives from them.

 Prices are fixed-point integers in units of 1e-9 dollars, as delivered by the feed.
 */
module GoldRecords {
  import opened Common

  datatype Side = SellAggressor | BuyAggressor | NoSide

  /** The identity of a trade: exact duplicates agree on all of it. */
  datatype Key = Key(sequence: int, tsEvent: int, price: int, size: int)

  datatype Trade = Trade(key: Key, event: int, received: int, price: int, size: int, side: Side)

  ghost predicate Sized(records: seq<Trade>) {
    forall k :: 0 <= k < |records| ==> records[k].size > 0
  }

  // ---------------------------------------------------------------------
  // Specification of the figures, one fold each
  // ---------------------------------------------------------------------

  /** Total size of the trades that satisfy f. */
  function VolumeOf(records: seq<Trade>, f: Trade -> bool): int {
    if records == [] then 0
    else
      var last := records[|records| - 1];
      VolumeOf(records[..|records| - 1], f) + if f(last) then last.size else 0
  }

  function AnyTrade(t: Trade): bool { true }

  function Buys(t: Trade): bool { t.side == BuyAggressor }

  function Sells(t: Trade): bool { t.side == SellAggressor }

  function Sided(t: Trade): bool { t.side != NoSide }

  function PricedAt(p: int): Trade -> bool {
    (t: Trade) => t.price == p
  }

  function Volume(records: seq<Trade>): int {
    VolumeOf(records, AnyTrade)
  }

  function Known(records: seq<Trade>): int {
    VolumeOf(records, Sided)
  }

  function Notional(records: seq<Trade>): int {
    if records == [] then 0
    else
      var last := records[|records| - 1];
      Notional(records[..|records| - 1]) + last.price * last.size
  }

  /** Traded size at each traded price. */
  type Profile = map<int, int>

  function At(profile: Profile, p: int): int {
    if p in profile then profile[p] else 0
  }

  function ProfileOf(records: seq<Trade>): Profile {
    if records == [] then map[]
    else
      var last, before := records[|records| - 1], ProfileOf(records[..|records| - 1]);
      before[last.price := At(before, last.price) + last.size]
  }

  /** The lowest price among those with the largest size. */
  ghost predicate IsPointOfControl(profile: Profile, poc: int) {
    && poc in profile
    && forall p :: p in profile ==> profile[p] < profile[poc] || (profile[p] == profile[poc] && poc <= p)
  }

  datatype Figures = Figures(volume: int, notional: int, profile: Profile, poc: int, cvd: int, known: int)

  ghost predicate AreFigures(records: seq<Trade>, g: Figures) {
    && g.volume == Volume(records) && g.notional == Notional(records)
    && g.profile == ProfileOf(records) && IsPointOfControl(g.profile, g.poc)
    && g.cvd == VolumeOf(records, Buys) - VolumeOf(records, Sells) && g.known == Known(records)
  }

  // ---------------------------------------------------------------------
  // The single pass
  // ---------------------------------------------------------------------

  /** max(profile, key = (size, -price)). */
  method PointOfControl(profile: Profile) returns (poc: int)
    requires exists p :: p in profile
    ensures IsPointOfControl(profile, poc)
  {
    poc :| poc in profile;
    var todo: set<int> := profile.Keys - {poc};
    while exists p :: p in todo
      invariant todo <= profile.Keys && poc in profile
      invariant IsPointOfControl(map p | p in profile.Keys - todo :: profile[p], poc)
      decreases todo
    {
      var p :| p in todo;
      if profile[p] > profile[poc] || (profile[p] == profile[poc] && p < poc) {
        poc := p;
      }
      todo := todo - {p};
    }
    assert (map p | p in profile.Keys - todo :: profile[p]) == profile;
  }

  /** One pass over the records, as a snapshot makes it. */
  method Tabulate(records: seq<Trade>) returns (g: Figures)
    requires records != []
    ensures AreFigures(records, g)
  {
    var profile: Profile := map[];
    var total, known, cvd, notional := 0, 0, 0, 0;
    for n := 0 to |records|
      invariant total == Volume(records[..n]) && notional == Notional(records[..n])
      invariant profile == ProfileOf(records[..n]) && known == Known(records[..n])
      invariant cvd == VolumeOf(records[..n], Buys) - VolumeOf(records[..n], Sells)
    {
      var t := records[n];
      assert records[..n + 1][..n] == records[..n];
      total := total + t.size;
      notional := notional + t.price * t.size;
      profile := profile[t.price := At(profile, t.price) + t.size];
      if t.side != NoSide {
        known := known + t.size;
        cvd := cvd + if t.side == BuyAggressor then t.size else -t.size;
      }
    }
    assert records[..|records|] == records;
    assert records[|records| - 1].price in profile;
    var poc := PointOfControl(profile);
    g := Figures(total, notional, profile, poc, cvd, known);
  }

  // ---------------------------------------------------------------------
  // What the figures mean
  // ---------------------------------------------------------------------

  /** The profile has exactly the traded prices, and at each the size traded there. */
  lemma {:induction false} ProfileIsVolumeByPrice(records: seq<Trade>, p: int)
    ensures p in ProfileOf(records) <==> exists k :: 0 <= k < |records| && records[k].price == p
    ensures At(ProfileOf(records), p) == VolumeOf(records, PricedAt(p))
  {
    if records != [] {
      var n := |records| - 1;
      ProfileIsVolumeByPrice(records[..n], p);
      if p in ProfileOf(records[..n]) {
        var k :| 0 <= k < n && records[..n][k].price == p;
        assert records[k].price == p;
      }
      if k :| 0 <= k < |records| && records[k].price == p {
        assert k == n || records[..n][k].price == p;
      }
      assert records[n].price == p ==> exists k :: 0 <= k < |records| && records[k].price == p;
    }
  }

  /** The total size in a profile. */
  ghost function Total(m: Profile): int
    decreases |m|
  {
    if exists k :: k in m then
      var k :| k in m;
      m[k] + Total(m - {k})
    else 0
  }

  lemma {:induction false} TotalWithout(m: Profile, k: int)
    requires k in m
    ensures Total(m) == m[k] + Total(m - {k})
    decreases |m|
  {
    var j :| j in m && Total(m) == m[j] + Total(m - {j});
    if j != k {
      TotalWithout(m - {j}, k);
      TotalWithout(m - {k}, j);
      assert m - {j} - {k} == m - {k} - {j};
    }
  }

  lemma TotalAfterAdd(m: Profile, p: int, size: int)
    ensures Total(m[p := At(m, p) + size]) == Total(m) + size
  {
    var m' := m[p := At(m, p) + size];
    TotalWithout(m', p);
    if p in m {
      TotalWithout(m, p);
      assert m' - {p} == m - {p};
    } else {
      assert m' - {p} == m;
    }
  }

  /** No traded contract is missing from the profile and none is counted twice. */
  lemma {:induction false} ProfileConservesVolume(records: seq<Trade>)
    ensures Total(ProfileOf(records)) == Volume(records)
  {
    if records != [] {
      var n := |records| - 1;
      ProfileConservesVolume(records[..n]);
      TotalAfterAdd(ProfileOf(records[..n]), records[n].price, records[n].size);
    }
  }

  lemma {:induction false} SidesPartitionKnown(records: seq<Trade>)
    requires Sized(records)
    ensures Known(records) == VolumeOf(records, Buys) + VolumeOf(records, Sells)
    ensures 0 <= VolumeOf(records, Buys) && 0 <= VolumeOf(records, Sells)
    ensures Known(records) <= Volume(records) && |records| <= Volume(records)
  {
    if records != [] {
      SidesPartitionKnown(records[..|records| - 1]);
    }
  }

  lemma Scale(lo: int, x: int, hi: int, size: int)
    requires lo <= x <= hi && size >= 0
    ensures lo * size <= x * size <= hi * size
  {
  }

  lemma {:induction false} NotionalBounds(records: seq<Trade>, lo: int, hi: int)
    requires Sized(records) && forall k :: 0 <= k < |records| ==> lo <= records[k].price <= hi
    ensures lo * Volume(records) <= Notional(records) <= hi * Volume(records)
  {
    if records != [] {
      var init, last := records[..|records| - 1], records[|records| - 1];
      NotionalBounds(init, lo, hi);
      Scale(lo, last.price, hi, last.size);
      assert lo * (Volume(init) + last.size) == lo * Volume(init) + lo * last.size;
      assert hi * (Volume(init) + last.size) == hi * Volume(init) + hi * last.size;
    }
  }

  function Vwap(g: Figures): (v: real)
    requires g.volume != 0
    ensures v * g.volume as real == g.notional as real
  {
    g.notional as real / g.volume as real
  }

  lemma QuotientBounds(lo: int, n: int, hi: int, d: int)
    requires d > 0 && lo * d <= n <= hi * d
    ensures lo as real <= n as real / d as real <= hi as real
  {
    var q := n as real / d as real;
    assert q * d as real == n as real;
    assert (lo as real) * d as real == (lo * d) as real && (hi as real) * d as real == (hi * d) as real;
    Cancel(lo as real, q, d as real);
    Cancel(q, hi as real, d as real);
  }

  lemma Cancel(x: real, y: real, d: real)
    requires d > 0.0 && x * d <= y * d
    ensures x <= y
  {
  }

  /** The arithmetic every snapshot satisfies: volume is conserved by the profile and by the split into
      known and unknown sides, the delta never exceeds the known side and has its parity, and the
      average price lies between any bounds on the traded prices. */
  lemma FigureLaws(records: seq<Trade>, g: Figures, lo: int, hi: int)
    requires records != [] && Sized(records) && AreFigures(records, g)
    requires forall k :: 0 <= k < |records| ==> lo <= records[k].price <= hi
    ensures 0 < g.volume == Total(g.profile) && 0 <= g.known <= g.volume
    ensures -g.known <= g.cvd <= g.known && (g.known - g.cvd) % 2 == 0
    ensures lo as real <= Vwap(g) <= hi as real
    ensures lo <= g.poc <= hi
  {
    ProfileConservesVolume(records);
    SidesPartitionKnown(records);
    assert g.known - g.cvd == 2 * VolumeOf(records, Sells);
    NotionalBounds(records, lo, hi);
    QuotientBounds(lo, g.notional, hi, g.volume);
    ProfileIsVolumeByPrice(records, g.poc);
  }

  /** There is only one point of control, so the figures are determined by the records. */
  lemma FiguresAreUnique(records: seq<Trade>, g: Figures, h: Figures)
    requires AreFigures(records, g) && AreFigures(records, h)
    ensures g == h
  {
  }
}
