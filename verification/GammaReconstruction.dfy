/**
 Certification of a gamma boundary (gamma_reconstruction.py, from line 281):
 regrouping by strike, sign changes on a fine grid and on its half-density
 subgrid, bisection, and one stress variant per strike and direction.

 Gamma per contract is an opaque function of the spot price.
 */
module GammaReconstruction {
  import opened Common

  datatype Terms = Terms(strike: real, volatility: real, years: real)

  /** weight is open interest times multiplier, negative for a put. */
  datatype Contract = Contract(terms: Terms, weight: real)

  /** Dollar gamma per unit of weight at one spot price: Black-Scholes gamma times 1% of spot squared. */
  type Kernel = (real, Terms) -> real

  datatype Book = Book(gamma: Kernel, components: seq<Contract>)

  /** Dollar gamma of one contract at spot x. */
  function Exposure(gamma: Kernel, x: real, c: Contract): real {
    gamma(x, c.terms) * c.weight
  }

  // ---------------------------------------------------------------------
  // Per-strike regrouping
  // ---------------------------------------------------------------------

  /** An insertion-ordered dictionary from strike to accumulated value. */
  type Profile = seq<(real, real)>

  function Get(p: Profile, strike: real): real {
    if p == [] then 0.0
    else if p[0].0 == strike then p[0].1
    else Get(p[1..], strike)
  }

  function Add(p: Profile, strike: real, value: real): Profile {
    if p == [] then [(strike, value)]
    else if p[0].0 == strike then [(strike, p[0].1 + value)] + p[1..]
    else [p[0]] + Add(p[1..], strike, value)
  }

  function Total(p: Profile): real {
    if p == [] then 0.0 else p[0].1 + Total(p[1..])
  }

  lemma {:induction false} AddChangesOneStrike(p: Profile, strike: real, value: real, k: real)
    ensures Get(Add(p, strike, value), k) == Get(p, k) + (if k == strike then value else 0.0)
    ensures Total(Add(p, strike, value)) == Total(p) + value
  {
    if p == [] {
    } else if p[0].0 == strike {
      assert ([(strike, p[0].1 + value)] + p[1..])[1..] == p[1..];
    } else {
      AddChangesOneStrike(p[1..], strike, value, k);
      assert ([p[0]] + Add(p[1..], strike, value))[1..] == Add(p[1..], strike, value);
    }
  }

  /** One entry per contract: its strike and its exposure at x. */
  function Entries(b: Book, x: real): (es: seq<(real, real)>)
    ensures |es| == |b.components|
  {
    seq(|b.components|, i requires 0 <= i < |b.components| =>
      (b.components[i].terms.strike, Exposure(b.gamma, x, b.components[i])))
  }

  /** The strike dictionary accumulated from the entries, in order. */
  function Grouped(es: seq<(real, real)>): Profile {
    if es == [] then []
    else
      var last := es[|es| - 1];
      Add(Grouped(es[..|es| - 1]), last.0, last.1)
  }

  function ProfileOf(b: Book, x: real): Profile {
    Grouped(Entries(b, x))
  }

  method Values(b: Book, x: real) returns (byStrike: Profile)
    ensures byStrike == ProfileOf(b, x)
  {
    ghost var es := Entries(b, x);
    byStrike := [];
    for n := 0 to |b.components|
      invariant byStrike == Grouped(es[..n])
    {
      var c := b.components[n];
      byStrike := Add(byStrike, c.terms.strike, Exposure(b.gamma, x, c));
      assert es[..n + 1][..n] == es[..n];
    }
    assert es[..|b.components|] == es;
  }

  /** The sum of a strike dictionary, one strike optionally counted `change` more. */
  function NetOf(v: Profile, stress: Option<real>, change: real): real {
    match stress
    case None => Total(v)
    case Some(k) => Total(v) + Get(v, k) * change
  }

  function Net(b: Book, x: real, stress: Option<real>, change: real): real {
    NetOf(ProfileOf(b, x), stress, change)
  }

  /** The sum of the exposures with no regrouping. */
  function PlainSum(es: seq<(real, real)>): real {
    if es == [] then 0.0 else PlainSum(es[..|es| - 1]) + es[|es| - 1].1
  }

  /** Total exposure of contracts, one by one: gamma times weight. */
  function WeightedGamma(gamma: Kernel, contracts: seq<Contract>, x: real): real {
    if contracts == [] then 0.0
    else
      var last := contracts[|contracts| - 1];
      WeightedGamma(gamma, contracts[..|contracts| - 1], x) + gamma(x, last.terms) * last.weight
  }

  function BookExposure(b: Book, x: real): real {
    WeightedGamma(b.gamma, b.components, x)
  }

  lemma {:induction false} EntriesSum(gamma: Kernel, contracts: seq<Contract>, x: real)
    ensures PlainSum(Entries(Book(gamma, contracts), x)) == WeightedGamma(gamma, contracts, x)
  {
    if contracts != [] {
      var init := contracts[..|contracts| - 1];
      EntriesSum(gamma, init, x);
      assert Entries(Book(gamma, contracts), x)[..|init|] == Entries(Book(gamma, init), x);
    }
  }

  /** The contract with its open interest scaled by 1 + change if it sits at the stressed strike. */
  function Scaled(c: Contract, stress: Option<real>, change: real): Contract {
    if stress == Some(c.terms.strike) then c.(weight := c.weight * (1.0 + change)) else c
  }

  function Reweighted(b: Book, stress: Option<real>, change: real): (r: Book)
    ensures r.gamma == b.gamma && |r.components| == |b.components|
  {
    Book(b.gamma, seq(|b.components|, i requires 0 <= i < |b.components| => Scaled(b.components[i], stress, change)))
  }

  function ScaledEntry(e: (real, real), stress: Option<real>, change: real): (real, real) {
    if stress == Some(e.0) then (e.0, e.1 * (1.0 + change)) else e
  }

  function ScaledEntries(es: seq<(real, real)>, stress: Option<real>, change: real): (r: seq<(real, real)>)
    ensures |r| == |es|
    ensures forall i :: 0 <= i < |es| ==> r[i] == ScaledEntry(es[i], stress, change)
  {
    seq(|es|, i requires 0 <= i < |es| => ScaledEntry(es[i], stress, change))
  }

  lemma EntriesOfReweighted(b: Book, x: real, stress: Option<real>, change: real)
    ensures Entries(Reweighted(b, stress, change), x) == ScaledEntries(Entries(b, x), stress, change)
  {
    forall i | 0 <= i < |b.components|
      ensures Entries(Reweighted(b, stress, change), x)[i] == ScaledEntries(Entries(b, x), stress, change)[i]
    {
      ScaledExposure(b.gamma, x, b.components[i], stress, change);
    }
  }

  lemma ScaledExposure(gamma: Kernel, x: real, c: Contract, stress: Option<real>, change: real)
    ensures Exposure(gamma, x, Scaled(c, stress, change)) ==
            ScaledEntry((c.terms.strike, Exposure(gamma, x, c)), stress, change).1
  {
    Associate(gamma(x, c.terms), c.weight, 1.0 + change);
  }

  lemma Associate(g: real, w: real, s: real)
    ensures g * (w * s) == g * w * s
  {
  }

  /** The sum of the entries at one strike. */
  function StrikeSum(es: seq<(real, real)>, strike: real): real {
    if es == [] then 0.0
    else StrikeSum(es[..|es| - 1], strike) + (if es[|es| - 1].0 == strike then es[|es| - 1].1 else 0.0)
  }

  /** The dictionary holds the plain total and, at every strike, the sum of that strike. */
  lemma {:induction false} GroupingKeepsSums(es: seq<(real, real)>, strike: real)
    ensures Total(Grouped(es)) == PlainSum(es)
    ensures Get(Grouped(es), strike) == StrikeSum(es, strike)
  {
    if es != [] {
      var init, last := es[..|es| - 1], es[|es| - 1];
      GroupingKeepsSums(init, strike);
      AddChangesOneStrike(Grouped(init), last.0, last.1, strike);
    }
  }

  lemma {:induction false} ScaledSum(es: seq<(real, real)>, strike: real, change: real, total: real)
    requires total == StrikeSum(es, strike)
    ensures PlainSum(ScaledEntries(es, Some(strike), change)) == PlainSum(es) + total * change
  {
    if es != [] {
      var init, last := es[..|es| - 1], es[|es| - 1];
      var scaled := ScaledEntries(es, Some(strike), change);
      var before := StrikeSum(init, strike);
      ScaledSum(init, strike, change, before);
      assert scaled[..|es| - 1] == ScaledEntries(init, Some(strike), change);
      ScaledStep(PlainSum(scaled[..|es| - 1]), PlainSum(init), before, total, last, strike, change);
    }
  }

  lemma ScaledStep(scaled: real, plain: real, before: real, after: real, e: (real, real), strike: real, change: real)
    requires scaled == plain + before * change
    requires after == before + (if e.0 == strike then e.1 else 0.0)
    ensures scaled + ScaledEntry(e, Some(strike), change).1 == plain + e.1 + after * change
  {
    Distribute(before, after, e.1, change);
  }

  lemma Distribute(before: real, after: real, e: real, change: real)
    ensures after == before + e ==> after * change == before * change + e * change
    ensures e * (1.0 + change) == e + e * change
  {
  }

  /** Regrouping by strike loses and double-counts nothing. */
  lemma NetIsBookExposure(b: Book, x: real, change: real)
    ensures Net(b, x, None, change) == BookExposure(b, x)
  {
    GroupingKeepsSums(Entries(b, x), 0.0);
    EntriesSum(b.gamma, b.components, x);
  }

  /** The shortcut used for stressing, the stored sum adjusted by one stored strike, is the total
      exposure of the book whose open interest at that strike is scaled by 1 + change. */
  lemma StressedNetIsReweightedExposure(b: Book, x: real, strike: real, change: real)
    ensures Net(b, x, Some(strike), change) == BookExposure(Reweighted(b, Some(strike), change), x)
  {
    var r := Reweighted(b, Some(strike), change);
    EntriesOfReweighted(b, x, Some(strike), change);
    GroupedStress(Entries(b, x), strike, change);
    EntriesSum(r.gamma, r.components, x);
  }

  lemma GroupedStress(es: seq<(real, real)>, strike: real, change: real)
    ensures NetOf(Grouped(es), Some(strike), change) == PlainSum(ScaledEntries(es, Some(strike), change))
  {
    GroupingKeepsSums(es, strike);
    ScaledSum(es, strike, change, Get(Grouped(es), strike));
  }

  // ---------------------------------------------------------------------
  // Sign changes
  // ---------------------------------------------------------------------

  predicate Opposite(a: real, b: real) {
    (a < 0.0 && b > 0.0) || (a > 0.0 && b < 0.0)
  }

  predicate Flip(a: real, b: real): (r: bool)
    ensures r <==> Opposite(a, b)
  {
    a * b < 0.0
  }

  /** Index of the last sample that is not exactly zero, or -1. */
  function LastNonZero(ys: seq<real>): (l: int)
    ensures -1 <= l < |ys|
  {
    if ys == [] then -1
    else if ys[|ys| - 1] != 0.0 then |ys| - 1
    else LastNonZero(ys[..|ys| - 1])
  }

  /** Each nonzero sample is paired with the nonzero sample before it; the pairs whose product is
      negative are kept, in grid order. */
  function Flips(ys: seq<real>): (c: seq<(int, int)>)
    ensures forall k :: 0 <= k < |c| ==> 0 <= c[k].0 < c[k].1 < |ys|
  {
    if ys == [] then []
    else
      var n := |ys| - 1;
      var l := LastNonZero(ys[..n]);
      if ys[n] != 0.0 && l >= 0 && Flip(ys[l], ys[n]) then Flips(ys[..n]) + [(l, n)] else Flips(ys[..n])
  }

  /** The brackets around the sign changes of the samples ys taken at xs. */
  function Crossings(xs: seq<real>, ys: seq<real>): (c: seq<(real, real)>)
    requires |xs| == |ys|
    ensures |c| == |Flips(ys)|
    ensures forall k :: 0 <= k < |c| ==> c[k] == (xs[Flips(ys)[k].0], xs[Flips(ys)[k].1])
  {
    var s := Flips(ys);
    seq(|s|, k requires 0 <= k < |s| => (xs[s[k].0], xs[s[k].1]))
  }

  /** The samples at grid indices i < j differ in sign and every sample between them is zero. */
  ghost predicate SignChange(ys: seq<real>, i: int, j: int) {
    && 0 <= i < j < |ys|
    && Opposite(ys[i], ys[j])
    && forall k :: i < k < j ==> ys[k] == 0.0
  }

  lemma {:induction false} LastNonZeroIs(ys: seq<real>)
    ensures var l := LastNonZero(ys);
            && (l >= 0 ==> ys[l] != 0.0)
            && forall k :: l < k < |ys| ==> ys[k] == 0.0
  {
    if ys != [] && ys[|ys| - 1] == 0.0 {
      LastNonZeroIs(ys[..|ys| - 1]);
    }
  }

  /** The pairs found are exactly the sign changes across nothing but zero samples. */
  lemma {:induction false} FlipsAreSignChanges(ys: seq<real>, i: int, j: int)
    ensures (i, j) in Flips(ys) <==> SignChange(ys, i, j)
  {
    if ys != [] {
      var n := |ys| - 1;
      var l := LastNonZero(ys[..n]);
      LastNonZeroIs(ys[..n]);
      FlipsAreSignChanges(ys[..n], i, j);
      if j < n {
        assert SignChange(ys[..n], i, j) <==> SignChange(ys, i, j);
      }
    }
  }

  /** They are found left to right and do not overlap, so none is reported twice. */
  lemma {:induction false} FlipsOrdered(ys: seq<real>, a: nat, b: nat)
    requires a < b < |Flips(ys)|
    ensures Flips(ys)[a].1 <= Flips(ys)[b].0
  {
    var n := |ys| - 1;
    LastNonZeroIs(ys[..n]);
    if b < |Flips(ys[..n])| {
      FlipsOrdered(ys[..n], a, b);
    } else {
      FlipsAreSignChanges(ys[..n], Flips(ys[..n])[a].0, Flips(ys[..n])[a].1);
    }
  }

  /** Between two samples of opposite sign there is a sign change, from the first sign to the second. */
  lemma {:induction false} SignChangeBetween(ys: seq<real>, p: int, q: int) returns (i: int, j: int)
    requires 0 <= p < q < |ys| && Opposite(ys[p], ys[q])
    ensures p <= i && j <= q && SignChange(ys, i, j) && !Opposite(ys[i], ys[p])
    decreases q - p
  {
    if k :| p < k < q && ys[k] != 0.0 {
      if Opposite(ys[p], ys[k]) {
        i, j := SignChangeBetween(ys, p, k);
      } else {
        i, j := SignChangeBetween(ys, k, q);
      }
    } else {
      i, j := p, q;
    }
  }

  /** The grid is nonpositive up to index i, zero strictly between, nonnegative from j on. */
  ghost predicate RisesBetween(ys: seq<real>, i: int, j: int) {
    && 0 <= i < j < |ys|
    && ys[i] < 0.0 < ys[j]
    && (forall k :: 0 <= k < i ==> ys[k] <= 0.0)
    && (forall k :: i < k < j ==> ys[k] == 0.0)
    && (forall k :: j < k < |ys| ==> ys[k] >= 0.0)
  }

  /** A single sign change with a negative left end says everything about the grid: no nonzero sample
      left of it is positive, and none right of it is negative. Conversely such a grid has exactly
      that one sign change. */
  lemma SingleFlipIsRegime(ys: seq<real>, i: int, j: int)
    requires 0 <= i < |ys|
    ensures Flips(ys) == [(i, j)] && ys[i] < 0.0 <==> RisesBetween(ys, i, j)
  {
    if Flips(ys) == [(i, j)] && ys[i] < 0.0 {
      SoleFlipRises(ys, i, j);
    }
    if RisesBetween(ys, i, j) {
      RiseFlipsOnce(ys, i, j);
    }
  }

  lemma SoleFlipRises(ys: seq<real>, i: int, j: int)
    requires 0 <= i < |ys| && Flips(ys) == [(i, j)] && ys[i] < 0.0
    ensures RisesBetween(ys, i, j)
  {
    FlipsAreSignChanges(ys, i, j);
    forall k | 0 <= k < i ensures ys[k] <= 0.0 {
      if ys[k] > 0.0 {
        var a, b := SignChangeBetween(ys, k, i);
        FlipsAreSignChanges(ys, a, b);
      }
    }
    forall k | j < k < |ys| ensures ys[k] >= 0.0 {
      if ys[k] < 0.0 {
        var a, b := SignChangeBetween(ys, j, k);
        FlipsAreSignChanges(ys, a, b);
      }
    }
  }

  lemma RiseFlipsOnce(ys: seq<real>, i: int, j: int)
    requires RisesBetween(ys, i, j)
    ensures Flips(ys) == [(i, j)]
  {
    FlipsAreSignChanges(ys, i, j);
    var s := Flips(ys);
    forall k | 0 <= k < |s| ensures s[k] == (i, j) {
      assert s[k] in s;
      FlipsAreSignChanges(ys, s[k].0, s[k].1);
    }
    if |s| >= 2 {
      FlipsOrdered(ys, 0, 1);
    }
  }

  lemma NoFlips(ys: seq<real>)
    ensures Flips(ys) == [] <==> forall i, j :: !SignChange(ys, i, j)
  {
    forall i, j ensures (i, j) in Flips(ys) <==> SignChange(ys, i, j) {
      FlipsAreSignChanges(ys, i, j);
    }
    if Flips(ys) != [] {
      assert (Flips(ys)[0].0, Flips(ys)[0].1) in Flips(ys);
    }
  }

  ghost predicate TwoSignChanges(ys: seq<real>) {
    exists i, j, k, l :: SignChange(ys, i, j) && SignChange(ys, k, l) && j <= k
  }

  lemma SeveralFlips(ys: seq<real>)
    ensures |Flips(ys)| >= 2 <==> TwoSignChanges(ys)
  {
    var s := Flips(ys);
    if |s| >= 2 {
      FlipsOrdered(ys, 0, 1);
      assert s[0] in s && s[1] in s;
      FlipsAreSignChanges(ys, s[0].0, s[0].1);
      FlipsAreSignChanges(ys, s[1].0, s[1].1);
    }
    if i, j, k, l :| SignChange(ys, i, j) && SignChange(ys, k, l) && j <= k {
      FlipsAreSignChanges(ys, i, j);
      FlipsAreSignChanges(ys, k, l);
      assert (i, j) != (k, l);
    }
  }

  // ---------------------------------------------------------------------
  // The half-density subgrid
  // ---------------------------------------------------------------------

  /** The samples whose grid index is kept. */
  function Thinned(xs: seq<real>, keep: nat -> bool): seq<real> {
    if xs == [] then []
    else Thinned(xs[..|xs| - 1], keep) + (if keep(|xs| - 1) then [xs[|xs| - 1]] else [])
  }

  /** The slice [::2]. */
  function EveryOther(xs: seq<real>): seq<real> {
    Thinned(xs, k => k % 2 == 0)
  }

  function LastValue(ys: seq<real>): real {
    if LastNonZero(ys) < 0 then 0.0 else ys[LastNonZero(ys)]
  }

  lemma FlipsOfSnoc(ys: seq<real>, y: real)
    ensures |Flips(ys + [y])| == |Flips(ys)| + Count(Opposite(LastValue(ys), y))
    ensures LastValue(ys + [y]) == if y != 0.0 then y else LastValue(ys)
  {
  }

  /** Dropping any samples never adds sign changes, and loses one more when the last signs differ. */
  lemma {:induction false} ThinningNeverAddsFlips(ys: seq<real>, keep: nat -> bool)
    ensures |Flips(Thinned(ys, keep))| + Count(Opposite(LastValue(Thinned(ys, keep)), LastValue(ys))) <= |Flips(ys)|
    ensures LastValue(ys) == 0.0 ==> LastValue(Thinned(ys, keep)) == 0.0
  {
    if ys != [] {
      var init, y := ys[..|ys| - 1], ys[|ys| - 1];
      ThinningNeverAddsFlips(init, keep);
      assert ys == init + [y];
      FlipsOfSnoc(init, y);
      FlipsOfSnoc(Thinned(init, keep), y);
      LastNonZeroIs(init);
      assert Thinned(init, keep) + [] == Thinned(init, keep);
    }
  }

  lemma {:induction false} EveryOtherAt(xs: seq<real>)
    ensures |EveryOther(xs)| == (|xs| + 1) / 2
    ensures forall k :: 0 <= k < |EveryOther(xs)| ==> 2 * k < |xs| && EveryOther(xs)[k] == xs[2 * k]
  {
    if xs != [] {
      EveryOtherAt(xs[..|xs| - 1]);
    }
  }

  ghost predicate HasSign(ys: seq<real>, negative: bool) {
    exists k :: 0 <= k < |ys| && (if negative then ys[k] < 0.0 else ys[k] > 0.0)
  }

  /** Once the fine grid is certified, the coarse grid either shows the same single rise around the
      fine one, or has lost one of the two signs and shows no sign change. */
  lemma HalfGridInheritsRise(ys: seq<real>, i: int, j: int)
    requires RisesBetween(ys, i, j)
    ensures var half := EveryOther(ys);
            if HasSign(half, true) && HasSign(half, false)
            then exists p, q :: RisesBetween(half, p, q) && 2 * p <= i && j <= 2 * q
            else Flips(half) == []
  {
    var half := EveryOther(ys);
    EveryOtherAt(ys);
    if HasSign(half, true) && HasSign(half, false) {
      var a :| 0 <= a < |half| && half[a] < 0.0;
      var b :| 0 <= b < |half| && half[b] > 0.0;
      assert 2 * a <= i && j <= 2 * b;
      var p, q := SignChangeBetween(half, a, b);
      HalfRise(ys, half, i, j, p, q);
    } else {
      forall p, q ensures !SignChange(half, p, q) {
      }
      NoFlips(half);
    }
  }

  lemma HalfRise(ys: seq<real>, half: seq<real>, i: int, j: int, p: int, q: int)
    requires RisesBetween(ys, i, j) && SignChange(half, p, q) && half[p] < 0.0
    requires forall k :: 0 <= k < |half| ==> 2 * k < |ys| && half[k] == ys[2 * k]
    ensures RisesBetween(half, p, q) && 2 * p <= i && j <= 2 * q
  {
  }

  // ---------------------------------------------------------------------
  // Bisection
  // ---------------------------------------------------------------------

  /** w halved n times. */
  function Halved(w: real, n: nat): real
    decreases n
  {
    if n == 0 then w else Halved(w, n - 1) / 2.0
  }

  function Midpoint(c: (real, real)): real {
    (c.0 + c.1) / 2.0
  }

  function Halve(f: real -> real, c: (real, real)): (real, real) {
    if f(Midpoint(c)) > 0.0 then (c.0, Midpoint(c)) else (Midpoint(c), c.1)
  }

  /** The bracket after n halvings. */
  function Bisect(f: real -> real, c: (real, real), n: nat): (real, real)
    decreases n
  {
    if n == 0 then c else Halve(f, Bisect(f, c, n - 1))
  }

  ghost predicate SignBracket(f: real -> real, c: (real, real)) {
    c.0 < c.1 && f(c.0) <= 0.0 < f(c.1)
  }

  /** Every step keeps the sign bracket and halves its width. */
  lemma {:induction false} BisectKeepsBracket(f: real -> real, c: (real, real), n: nat)
    requires SignBracket(f, c)
    ensures var d := Bisect(f, c, n);
            && c.0 <= d.0 && d.1 <= c.1
            && SignBracket(f, d)
            && d.1 - d.0 == Halved(c.1 - c.0, n)
    decreases n
  {
    if n > 0 {
      BisectKeepsBracket(f, c, n - 1);
    }
  }

  /** f is nonpositive below r and positive above it, inside the bracket. */
  ghost predicate Threshold(f: real -> real, c: (real, real), r: real) {
    && c.0 <= r <= c.1
    && (forall x :: c.0 <= x < r ==> f(x) <= 0.0)
    && (forall x :: r < x <= c.1 ==> f(x) > 0.0)
  }

  lemma {:induction false} BisectKeepsThreshold(f: real -> real, c: (real, real), n: nat, r: real)
    requires c.0 < c.1 && Threshold(f, c, r)
    ensures var d := Bisect(f, c, n); c.0 <= d.0 < d.1 <= c.1 && d.0 <= r <= d.1
    decreases n
  {
    if n > 0 {
      BisectKeepsThreshold(f, c, n - 1, r);
    }
  }

  // ---------------------------------------------------------------------
  // Root acceptance
  // ---------------------------------------------------------------------

  datatype Code =
    | InsufficientCallPutStrikeCoverage
    | ReconstructionWorkBudget
    | NoBoundary
    | AmbiguousMultipleRoots
    | RegimeOrientationUnverified
    | RootPathOrLocalCoverageUnverified
    | SensitiveRoot

  function NetAt(b: Book, stress: Option<real>, change: real): real -> real {
    x => Net(b, x, stress, change)
  }

  function RootOf(f: real -> real, brackets: seq<(real, real)>, halvings: nat): Result<real, Code> {
    if |brackets| != 1 then Err(if brackets == [] then NoBoundary else AmbiguousMultipleRoots)
    else
      var c := brackets[0];
      if f(c.0) >= 0.0 || f(c.1) <= 0.0 then Err(RegimeOrientationUnverified)
      else Ok(Midpoint(Bisect(f, c, halvings)))
  }

  method Root(f: real -> real, brackets: seq<(real, real)>, halvings: nat) returns (r: Result<real, Code>)
    ensures r == RootOf(f, brackets, halvings)
  {
    if |brackets| != 1 {
      return Err(if brackets == [] then NoBoundary else AmbiguousMultipleRoots);
    }
    var (low, high) := brackets[0];
    if f(low) >= 0.0 || f(high) <= 0.0 {
      return Err(RegimeOrientationUnverified);
    }
    for n := 0 to halvings
      invariant (low, high) == Bisect(f, brackets[0], n)
    {
      var middle := (low + high) / 2.0;
      if f(middle) > 0.0 {
        high := middle;
      } else {
        low := middle;
      }
    }
    r := Ok((low + high) / 2.0);
  }

  /** The values of f on a grid. */
  function Samples(f: real -> real, xs: seq<real>): (ys: seq<real>)
    ensures |ys| == |xs|
    ensures forall k :: 0 <= k < |xs| ==> ys[k] == f(xs[k])
  {
    seq(|xs|, k requires 0 <= k < |xs| => f(xs[k]))
  }

  ghost predicate Ascending(xs: seq<real>) {
    forall i, j :: 0 <= i < j < |xs| ==> xs[i] < xs[j]
  }

  /** Sampled on xs, f turns once from negative to positive. */
  ghost predicate RisesOnce(f: real -> real, xs: seq<real>) {
    exists i, j :: RisesBetween(Samples(f, xs), i, j)
  }

  /** v is the middle of a sign bracket of f, `halvings` times halved, inside the only sign change of
      the grid, where f turns from negative to positive. */
  ghost predicate Located(f: real -> real, xs: seq<real>, halvings: nat, v: real) {
    exists i, j, d: (real, real) ::
      && RisesBetween(Samples(f, xs), i, j)
      && LocatedIn(f, (xs[i], xs[j]), d, halvings, v)
  }

  ghost predicate LocatedIn(f: real -> real, c: (real, real), d: (real, real), halvings: nat, v: real) {
    && c.0 <= d.0 && d.1 <= c.1
    && SignBracket(f, d)
    && d.1 - d.0 == Halved(c.1 - c.0, halvings)
    && v == Midpoint(d)
  }

  /** Roots are accepted on exactly the grids that rise once, and then located inside that rise. */
  lemma RootAccepted(f: real -> real, xs: seq<real>, halvings: nat)
    requires Ascending(xs)
    ensures var r := RootOf(f, Crossings(xs, Samples(f, xs)), halvings);
            && (r.Ok? <==> RisesOnce(f, xs))
            && (r.Ok? ==> Located(f, xs, halvings, r.value))
  {
    var ys := Samples(f, xs);
    if i, j :| RisesBetween(ys, i, j) {
      SingleFlipIsRegime(ys, i, j);
    }
    if RootOf(f, Crossings(xs, ys), halvings).Ok? {
      AcceptedIsLocated(f, xs, halvings, Flips(ys)[0].0, Flips(ys)[0].1);
    }
  }

  lemma AcceptedIsLocated(f: real -> real, xs: seq<real>, halvings: nat, i: int, j: int)
    requires Ascending(xs) && 0 <= i < j < |xs| && Flips(Samples(f, xs)) == [(i, j)]
    requires f(xs[i]) < 0.0 < f(xs[j])
    ensures RisesBetween(Samples(f, xs), i, j)
    ensures Located(f, xs, halvings, Midpoint(Bisect(f, (xs[i], xs[j]), halvings)))
  {
    SingleFlipIsRegime(Samples(f, xs), i, j);
    BisectKeepsBracket(f, (xs[i], xs[j]), halvings);
    var d := Bisect(f, (xs[i], xs[j]), halvings);
    assert LocatedIn(f, (xs[i], xs[j]), d, halvings, Midpoint(d));
  }

  /** What the refusals say about the grid: no sign change, several, or one that falls. */
  lemma RootRefused(f: real -> real, xs: seq<real>, halvings: nat)
    requires Ascending(xs)
    ensures var ys := Samples(f, xs);
            var r := RootOf(f, Crossings(xs, ys), halvings);
            && (r == Err(NoBoundary) <==> forall i, j :: !SignChange(ys, i, j))
            && (r == Err(AmbiguousMultipleRoots) <==> TwoSignChanges(ys))
            && (r == Err(RegimeOrientationUnverified) <==>
                |Flips(ys)| == 1 && ys[Flips(ys)[0].0] > 0.0)
  {
    var ys := Samples(f, xs);
    NoFlips(ys);
    SeveralFlips(ys);
    if |Flips(ys)| == 1 {
      assert Flips(ys)[0] in Flips(ys);
      FlipsAreSignChanges(ys, Flips(ys)[0].0, Flips(ys)[0].1);
    }
  }

  // ---------------------------------------------------------------------
  // Reconstruction
  // ---------------------------------------------------------------------

  const SAMPLES: nat := 513
  const MAXIMUM_STRIKES: nat := 256
  const MAXIMUM_STRESS_MOVE: real := 0.001

  function Grid(spot: real): (xs: seq<real>)
    ensures |xs| == SAMPLES
  {
    seq(SAMPLES, k => spot * (0.5 + k as real / 512.0))
  }

  /** The samples run evenly from half of spot to one and a half times spot. */
  lemma GridLaws(spot: real, k: nat)
    requires k < 512
    ensures Grid(spot)[0] == spot / 2.0 && Grid(spot)[512] == 3.0 * spot / 2.0
    ensures 512.0 * (Grid(spot)[k + 1] - Grid(spot)[k]) == spot
  {
    Spread(spot, k as real / 512.0, (k + 1) as real / 512.0);
  }

  lemma Spread(spot: real, a: real, b: real)
    requires b == a + 1.0 / 512.0
    ensures 512.0 * (spot * (0.5 + b) - spot * (0.5 + a)) == spot
  {
    assert spot * (0.5 + b) == spot * (0.5 + a) + spot * (1.0 / 512.0);
  }

  lemma GridAscending(spot: real)
    requires spot > 0.0
    ensures Ascending(Grid(spot))
    ensures Ascending(EveryOther(Grid(spot)))
  {
    var xs := Grid(spot);
    forall i, j | 0 <= i < j < |xs| ensures xs[i] < xs[j] {
      Scale(spot, 0.5 + i as real / 512.0, 0.5 + j as real / 512.0);
    }
    HalfAscending(xs);
  }

  lemma HalfAscending(xs: seq<real>)
    requires Ascending(xs)
    ensures Ascending(EveryOther(xs))
  {
    EveryOtherAt(xs);
  }

  lemma Scale(spot: real, a: real, b: real)
    requires spot > 0.0 && a < b
    ensures spot * a < spot * b
  {
  }

  /** The strikes of the book, in increasing order and each once. */
  ghost predicate SortedStrikes(b: Book, strikes: seq<real>) {
    && Ascending(strikes)
    && forall k :: k in strikes <==> exists c :: c in b.components && c.terms.strike == k
  }

  predicate HasSide(b: Book, call: bool) {
    exists c :: c in b.components && (if call then c.weight > 0.0 else c.weight < 0.0)
  }

  function Boundary(b: Book, xs: seq<real>, halvings: nat, stress: Option<real>, change: real): Result<real, Code> {
    var f := NetAt(b, stress, change);
    RootOf(f, Crossings(xs, Samples(f, xs)), halvings)
  }

  datatype Certificate = Certificate(gammaFlip: real, netGex: real, maximumMove: real)

  /** Stress variants in evaluation order: each strike down a quarter, then up a quarter. */
  function Change(n: int): real {
    if n % 2 == 0 then -0.25 else 0.25
  }

  function Shifted(b: Book, xs: seq<real>, strikes: seq<real>, halvings: nat, n: int): Result<real, Code>
    requires 0 <= n < 2 * |strikes|
  {
    Boundary(b, xs, halvings, Some(strikes[n / 2]), Change(n))
  }

  function Variants(b: Book, xs: seq<real>, strikes: seq<real>, halvings: nat): (vs: seq<Result<real, Code>>)
    ensures |vs| == 2 * |strikes|
    ensures forall n :: 0 <= n < |vs| ==> vs[n] == Shifted(b, xs, strikes, halvings, n)
  {
    seq(2 * |strikes|, n requires 0 <= n < 2 * |strikes| => Shifted(b, xs, strikes, halvings, n))
  }

  /** How far a variant moved the boundary, as a fraction of spot. */
  function Move(v: real, base: real, spot: real): (m: real)
    requires spot > 0.0
    ensures m >= 0.0
  {
    NonNegativeRatio(Abs(v - base), spot);
    Abs(v - base) / spot
  }

  lemma NonNegativeRatio(a: real, d: real)
    requires a >= 0.0 && d > 0.0
    ensures a / d >= 0.0
  {
  }

  function MoveFrom(base: real, spot: real): (real -> real)
    requires spot > 0.0
  {
    v => Move(v, base, spot)
  }

  /** The largest move over the first n variants, or the first refusal. */
  function Stress(variants: seq<Result<real, Code>>, move: real -> real, n: int): Result<real, Code> {
    if n <= 0 || n > |variants| then Ok(0.0) else Worst(Stress(variants, move, n - 1), variants[n - 1], move)
  }

  function Worst(most: Result<real, Code>, variant: Result<real, Code>, move: real -> real): Result<real, Code> {
    if most.Err? then most
    else if variant.Err? then variant
    else
      var m := Max(most.value, move(variant.value));
      if m > MAXIMUM_STRESS_MOVE then Err(SensitiveRoot) else Ok(m)
  }

  /** The decision sequence, given the two boundaries and the stress variants. */
  function Decide(sides: bool, strikes: seq<real>, spot: real, base: Result<real, Code>, coarse: Result<real, Code>,
                  variants: seq<Result<real, Code>>, netGex: real): Result<Certificate, Code>
    requires spot > 0.0
  {
    if !sides || |strikes| < 3 then Err(InsufficientCallPutStrikeCoverage)
    else if |strikes| > MAXIMUM_STRIKES then Err(ReconstructionWorkBudget)
    else if base.Err? then Err(base.error)
    else if coarse.Err? then Err(coarse.error)
    else if !PathAndCoverage(spot, strikes, base.value, coarse.value) then Err(RootPathOrLocalCoverageUnverified)
    else
      match Stress(variants, MoveFrom(base.value, spot), |variants|)
      case Err(e) => Err(e)
      case Ok(m) => Ok(Certificate(base.value, netGex, m))
  }

  function Certify(b: Book, spot: real, strikes: seq<real>, halvings: nat): Result<Certificate, Code>
    requires spot > 0.0
  {
    Decide(HasSide(b, true) && HasSide(b, false), strikes, spot,
           Boundary(b, Grid(spot), halvings, None, 0.0),
           Boundary(b, EveryOther(Grid(spot)), halvings, None, 0.0),
           Variants(b, Grid(spot), strikes, halvings), Net(b, spot, None, 0.0))
  }

  predicate PathAndCoverage(spot: real, strikes: seq<real>, base: real, coarse: real)
    requires |strikes| > 0
  {
    && Abs(base - coarse) <= spot * 0.000001
    && strikes[0] < Min(base, spot)
    && Max(base, spot) < strikes[|strikes| - 1]
  }

  method Profiles(b: Book, xs: seq<real>) returns (profiles: seq<Profile>)
    ensures |profiles| == |xs|
    ensures forall k :: 0 <= k < |xs| ==> profiles[k] == ProfileOf(b, xs[k])
  {
    profiles := [];
    for k := 0 to |xs|
      invariant |profiles| == k
      invariant forall i :: 0 <= i < k ==> profiles[i] == ProfileOf(b, xs[i])
    {
      var p := Values(b, xs[k]);
      profiles := profiles + [p];
    }
  }

  lemma EveryOtherSamples(f: real -> real, xs: seq<real>)
    ensures EveryOther(Samples(f, xs)) == Samples(f, EveryOther(xs))
  {
    EveryOtherAt(xs);
    EveryOtherAt(Samples(f, xs));
  }

  /** Lines 276-362 on a validated book: every intermediate refusal and the certificate. */
  method Reconstruct(b: Book, spot: real, strikes: seq<real>, halvings: nat) returns (r: Result<Certificate, Code>)
    requires spot > 0.0 && SortedStrikes(b, strikes)
    ensures r == Certify(b, spot, strikes, halvings)
  {
    if !HasSide(b, true) || !HasSide(b, false) || |strikes| < 3 {
      return Err(InsufficientCallPutStrikeCoverage);
    }
    if |strikes| > MAXIMUM_STRIKES {
      return Err(ReconstructionWorkBudget);
    }
    var xs := Grid(spot);
    var profiles := Profiles(b, xs);
    var ys := seq(|xs|, k requires 0 <= k < |xs| => Total(profiles[k]));
    ghost var f := NetAt(b, None, 0.0);
    assert ys == Samples(f, xs);
    EveryOtherSamples(f, xs);
    EveryOtherAt(xs);
    EveryOtherAt(ys);
    var base := Root(NetAt(b, None, 0.0), Crossings(xs, ys), halvings);
    if base.Err? {
      return Err(base.error);
    }
    var coarse := Root(NetAt(b, None, 0.0), Crossings(EveryOther(xs), EveryOther(ys)), halvings);
    if coarse.Err? {
      return Err(coarse.error);
    }
    if !PathAndCoverage(spot, strikes, base.value, coarse.value) {
      return Err(RootPathOrLocalCoverageUnverified);
    }
    var moved := StressAll(b, xs, strikes, halvings, MoveFrom(base.value, spot), profiles, ys);
    if moved.Err? {
      return Err(moved.error);
    }
    r := Ok(Certificate(base.value, Net(b, spot, None, 0.0), moved.value));
  }

  method StressAll(b: Book, xs: seq<real>, strikes: seq<real>, halvings: nat, move: real -> real,
                   profiles: seq<Profile>, ys: seq<real>)
    returns (r: Result<real, Code>)
    requires Stored(b, xs, profiles, ys)
    ensures r == Stress(Variants(b, xs, strikes, halvings), move, 2 * |strikes|)
  {
    r := Ok(0.0);
    for n := 0 to 2 * |strikes|
      invariant r == Stress(Variants(b, xs, strikes, halvings), move, n)
    {
      r := StressStep(b, xs, strikes, halvings, move, profiles, ys, n, r);
    }
  }

  /** One stress variant; nothing is evaluated after a refusal. */
  method StressStep(b: Book, xs: seq<real>, strikes: seq<real>, halvings: nat, move: real -> real,
                    profiles: seq<Profile>, ys: seq<real>, n: int, most: Result<real, Code>)
    returns (r: Result<real, Code>)
    requires Stored(b, xs, profiles, ys) && 0 <= n < 2 * |strikes|
    ensures r == Worst(most, Variants(b, xs, strikes, halvings)[n], move)
  {
    if most.Err? {
      return most;
    }
    var shifted := ShiftedRoot(b, xs, strikes, halvings, n, profiles, ys);
    r := Worst(most, shifted, move);
  }

  /** The stored per-strike profiles and sums of every grid sample. */
  ghost predicate Stored(b: Book, xs: seq<real>, profiles: seq<Profile>, ys: seq<real>) {
    && |profiles| == |ys| == |xs|
    && (forall k :: 0 <= k < |xs| ==> profiles[k] == ProfileOf(b, xs[k]))
    && (forall k :: 0 <= k < |xs| ==> ys[k] == Total(profiles[k]))
  }

  /** One stress variant, from the stored samples and per-strike profiles instead of new sums. */
  method ShiftedRoot(b: Book, xs: seq<real>, strikes: seq<real>, halvings: nat, n: int,
                     profiles: seq<Profile>, ys: seq<real>)
    returns (r: Result<real, Code>)
    requires Stored(b, xs, profiles, ys) && 0 <= n < 2 * |strikes|
    ensures r == Shifted(b, xs, strikes, halvings, n)
  {
    var strike, change := strikes[n / 2], Change(n);
    var stressed := seq(|ys|, k requires 0 <= k < |ys| => ys[k] + Get(profiles[k], strike) * change);
    assert stressed == Samples(NetAt(b, Some(strike), change), xs);
    r := Root(NetAt(b, Some(strike), change), Crossings(xs, stressed), halvings);
  }

  ghost predicate Stable(variant: Result<real, Code>, move: real -> real) {
    variant.Ok? && move(variant.value) <= MAXIMUM_STRESS_MOVE
  }

  /** The stress loop succeeds on exactly the books where every variant is stable, and then reports
      the largest move among them. */
  lemma {:induction false} StressIsWorstCase(variants: seq<Result<real, Code>>, move: real -> real, n: nat)
    requires n <= |variants|
    ensures var r := Stress(variants, move, n);
            && (r.Ok? <==> forall k :: 0 <= k < n ==> Stable(variants[k], move))
            && (r.Ok? ==> 0.0 <= r.value <= MAXIMUM_STRESS_MOVE)
            && (r.Ok? ==> forall k :: 0 <= k < n ==> move(variants[k].value) <= r.value)
            && (r.Ok? && r.value > 0.0 ==> exists k :: 0 <= k < n && move(variants[k].value) == r.value)
    decreases n
  {
    if n > 0 {
      StressIsWorstCase(variants, move, n - 1);
    }
  }

  // ---------------------------------------------------------------------
  // What a certificate means
  // ---------------------------------------------------------------------

  /** The exposure of a book as a function of spot. */
  function Curve(b: Book): real -> real {
    x => BookExposure(b, x)
  }

  /** Sampled on xs, the exposure of the book turns once from negative to positive. */
  ghost predicate Rises(b: Book, xs: seq<real>) {
    RisesOnce(Curve(b), xs)
  }

  /** The gamma boundary of the book is located at v on the grid. */
  ghost predicate LocatedOn(b: Book, xs: seq<real>, halvings: nat, v: real) {
    Located(Curve(b), xs, halvings, v)
  }

  lemma StressedCurve(b: Book, stress: Option<real>, change: real, x: real)
    ensures NetAt(b, stress, change)(x) == Curve(Reweighted(b, stress, change))(x)
  {
    if stress.Some? {
      StressedNetIsReweightedExposure(b, x, stress.value, change);
    } else {
      NetIsBookExposure(b, x, change);
      UnstressedBook(b, change);
    }
  }

  lemma UnstressedBook(b: Book, change: real)
    ensures Reweighted(b, None, change) == b
  {
    assert Reweighted(b, None, change).components == b.components;
  }

  function ValueAt(f: real -> real, x: real): real {
    f(x)
  }

  /** Locating depends on the values of the function only. */
  lemma SameValues(f: real -> real, g: real -> real, xs: seq<real>, halvings: nat, v: real)
    requires forall x: real :: ValueAt(f, x) == ValueAt(g, x)
    ensures RisesOnce(f, xs) <==> RisesOnce(g, xs)
    ensures Located(f, xs, halvings, v) ==> Located(g, xs, halvings, v)
  {
    forall k | 0 <= k < |xs| ensures Samples(f, xs)[k] == Samples(g, xs)[k] {
      assert ValueAt(f, xs[k]) == ValueAt(g, xs[k]);
    }
    assert Samples(f, xs) == Samples(g, xs);
    if i, j, d: (real, real) :|
      RisesBetween(Samples(f, xs), i, j) && LocatedIn(f, (xs[i], xs[j]), d, halvings, v)
    {
      assert ValueAt(f, d.0) == ValueAt(g, d.0) && ValueAt(f, d.1) == ValueAt(g, d.1);
      assert LocatedIn(g, (xs[i], xs[j]), d, halvings, v);
    }
  }

  /** A boundary is found exactly when the reweighted book rises once, and then it is located there. */
  lemma BoundaryMeaning(b: Book, xs: seq<real>, halvings: nat, stress: Option<real>, change: real)
    requires Ascending(xs)
    ensures var r := Boundary(b, xs, halvings, stress, change);
            && (r.Ok? <==> Rises(Reweighted(b, stress, change), xs))
            && (r.Ok? ==> LocatedOn(Reweighted(b, stress, change), xs, halvings, r.value))
  {
    var f, g := NetAt(b, stress, change), Curve(Reweighted(b, stress, change));
    var r := Boundary(b, xs, halvings, stress, change);
    RootAccepted(f, xs, halvings);
    forall x: real ensures ValueAt(f, x) == ValueAt(g, x) {
      StressedCurve(b, stress, change, x);
    }
    SameValues(f, g, xs, halvings, if r.Ok? then r.value else 0.0);
  }

  /** The boundary for one stress choice, or 0 when there is none. */
  function BoundaryOrZero(b: Book, xs: seq<real>, halvings: nat, stress: Option<real>, change: real): real {
    var r := Boundary(b, xs, halvings, stress, change);
    if r.Ok? then r.value else 0.0
  }

  /** The boundary of the whole book on the fine grid, or 0 when there is none. */
  function Base(b: Book, spot: real, halvings: nat): real {
    BoundaryOrZero(b, Grid(spot), halvings, None, 0.0)
  }

  lemma MoveBound(v: real, base: real, spot: real, m: real)
    requires spot > 0.0
    ensures Move(v, base, spot) <= m <==> Abs(v - base) <= m * spot
    ensures Move(v, base, spot) == m <==> Abs(v - base) == m * spot
  {
    var q := Move(v, base, spot);
    assert q * spot == Abs(v - base);
    if q < m {
      Scale(spot, q, m);
    } else if m < q {
      Scale(spot, m, q);
    }
  }

  /** With the open interest of one strike changed by the fraction, the book still rises once, and its boundary moves
      by at most a thousandth of spot. */
  ghost predicate Insensitive(b: Book, spot: real, strike: real, change: real, halvings: nat) {
    && Rises(Reweighted(b, Some(strike), change), Grid(spot))
    && Abs(BoundaryOrZero(b, Grid(spot), halvings, Some(strike), change) - Base(b, spot, halvings)) <= 0.001 * spot
  }

  /** The fraction of the n-th stress variant. */
  function Quarter(n: int): real {
    if n % 2 == 0 then -0.25 else 0.25
  }

  /** The stress variants below n are insensitive. */
  ghost predicate InsensitiveBelow(b: Book, spot: real, strikes: seq<real>, halvings: nat, n: nat)
    requires n <= 2 * |strikes|
  {
    forall k :: 0 <= k < n ==> Insensitive(b, spot, strikes[k / 2], Quarter(k), halvings)
  }

  /** Both sides are present on at least three strikes. */
  ghost predicate CoversBook(b: Book, strikes: seq<real>) {
    && (exists c :: c in b.components && c.weight > 0.0) && (exists c :: c in b.components && c.weight < 0.0)
    && |strikes| >= 3
  }

  /** The two boundaries agree to a millionth of spot, and boundary and spot lie strictly within the strikes. */
  ghost predicate AgreesWithin(b: Book, spot: real, strikes: seq<real>, halvings: nat)
    requires strikes != []
  {
    var base := Base(b, spot, halvings);
    && Abs(base - BoundaryOrZero(b, EveryOther(Grid(spot)), halvings, None, 0.0)) <= 0.000001 * spot
    && strikes[0] < base < strikes[|strikes| - 1] && strikes[0] < spot < strikes[|strikes| - 1]
  }

  /** Everything up to the stress variants is in order. */
  ghost predicate Unstressed(b: Book, spot: real, strikes: seq<real>, halvings: nat) {
    && CoversBook(b, strikes) && |strikes| <= 256
    && Rises(b, Grid(spot)) && Rises(b, EveryOther(Grid(spot))) && AgreesWithin(b, spot, strikes, halvings)
  }

  lemma VariantIs(b: Book, spot: real, strikes: seq<real>, halvings: nat, n: nat, v: Result<real, Code>)
    requires spot > 0.0 && n < 2 * |strikes| && v == Variants(b, Grid(spot), strikes, halvings)[n]
    ensures v == Boundary(b, Grid(spot), halvings, Some(strikes[n / 2]), Quarter(n))
  {
  }

  lemma VariantRises(b: Book, spot: real, strike: real, change: real, halvings: nat, v: Result<real, Code>)
    requires spot > 0.0 && v == Boundary(b, Grid(spot), halvings, Some(strike), change)
    ensures v.Ok? <==> Rises(Reweighted(b, Some(strike), change), Grid(spot))
    ensures v.Ok? ==> LocatedOn(Reweighted(b, Some(strike), change), Grid(spot), halvings, v.value)
  {
    GridAscending(spot);
    BoundaryMeaning(b, Grid(spot), halvings, Some(strike), change);
  }

  lemma VariantIsStable(b: Book, spot: real, strike: real, change: real, halvings: nat, v: Result<real, Code>,
                        base: real)
    requires spot > 0.0 && base == Base(b, spot, halvings)
    requires v == Boundary(b, Grid(spot), halvings, Some(strike), change)
    ensures Stable(v, MoveFrom(base, spot)) <==> Insensitive(b, spot, strike, change, halvings)
  {
    VariantRises(b, spot, strike, change, halvings, v);
    if v.Ok? {
      MoveBound(v.value, base, spot, 0.001);
    }
  }

  lemma StableIff(b: Book, spot: real, strikes: seq<real>, halvings: nat, n: nat, move: real -> real)
    requires spot > 0.0 && n <= 2 * |strikes| && move == MoveFrom(Base(b, spot, halvings), spot)
    ensures (forall k :: 0 <= k < n ==> Stable(Variants(b, Grid(spot), strikes, halvings)[k], move))
            <==> InsensitiveBelow(b, spot, strikes, halvings, n)
  {
    var variants := Variants(b, Grid(spot), strikes, halvings);
    forall k | 0 <= k < n
      ensures Stable(variants[k], move) <==> Insensitive(b, spot, strikes[k / 2], Quarter(k), halvings)
    {
      VariantIs(b, spot, strikes, halvings, k, variants[k]);
      VariantIsStable(b, spot, strikes[k / 2], Quarter(k), halvings, variants[k], Base(b, spot, halvings));
    }
  }

  lemma DecideIff(sides: bool, strikes: seq<real>, spot: real, base: Result<real, Code>, coarse: Result<real, Code>,
                  variants: seq<Result<real, Code>>, netGex: real)
    requires spot > 0.0
    ensures var r := Decide(sides, strikes, spot, base, coarse, variants, netGex);
            && (r.Ok? <==>
                && sides && 3 <= |strikes| <= MAXIMUM_STRIKES && base.Ok? && coarse.Ok?
                && PathAndCoverage(spot, strikes, base.value, coarse.value)
                && forall k :: 0 <= k < |variants| ==> Stable(variants[k], MoveFrom(base.value, spot)))
            && (r.Ok? ==>
                && r.value.gammaFlip == base.value && r.value.netGex == netGex
                && Stress(variants, MoveFrom(base.value, spot), |variants|) == Ok(r.value.maximumMove))
  {
    if base.Ok? {
      StressIsWorstCase(variants, MoveFrom(base.value, spot), |variants|);
    }
  }

  lemma WholeBookRises(b: Book, xs: seq<real>, halvings: nat)
    requires Ascending(xs)
    ensures var r := Boundary(b, xs, halvings, None, 0.0);
            (r.Ok? <==> Rises(b, xs)) && (r.Ok? ==> LocatedOn(b, xs, halvings, r.value))
  {
    UnstressedBook(b, 0.0);
    BoundaryMeaning(b, xs, halvings, None, 0.0);
  }

  lemma AgreementMeans(spot: real, strikes: seq<real>, base: real, coarse: real)
    requires strikes != []
    ensures PathAndCoverage(spot, strikes, base, coarse) <==>
            && Abs(base - coarse) <= 0.000001 * spot
            && strikes[0] < base < strikes[|strikes| - 1] && strikes[0] < spot < strikes[|strikes| - 1]
  {
  }

  /** What the checks before the stress variants mean for the book. */
  lemma ChecksMean(b: Book, spot: real, strikes: seq<real>, halvings: nat)
    requires spot > 0.0
    ensures HasSide(b, true) && HasSide(b, false) && |strikes| >= 3 <==> CoversBook(b, strikes)
    ensures Boundary(b, Grid(spot), halvings, None, 0.0).Ok? <==> Rises(b, Grid(spot))
    ensures Boundary(b, EveryOther(Grid(spot)), halvings, None, 0.0).Ok? <==> Rises(b, EveryOther(Grid(spot)))
    ensures |strikes| > 0 ==>
              (PathAndCoverage(spot, strikes, Base(b, spot, halvings),
                               BoundaryOrZero(b, EveryOther(Grid(spot)), halvings, None, 0.0))
               <==> AgreesWithin(b, spot, strikes, halvings))
  {
    GridAscending(spot);
    WholeBookRises(b, Grid(spot), halvings);
    WholeBookRises(b, EveryOther(Grid(spot)), halvings);
    if strikes != [] {
      AgreementMeans(spot, strikes, Base(b, spot, halvings),
                     BoundaryOrZero(b, EveryOther(Grid(spot)), halvings, None, 0.0));
    }
  }

  /** Certification succeeds exactly when the exposure of the book, sampled on the fine grid and on its half, and that
      of the book with any one strike a quarter down or up, turns once from negative to positive, with agreeing,
      covered and insensitive boundaries. */
  lemma CertificateIff(b: Book, spot: real, strikes: seq<real>, halvings: nat)
    requires spot > 0.0
    ensures Certify(b, spot, strikes, halvings).Ok? <==>
            && Unstressed(b, spot, strikes, halvings)
            && forall k :: 0 <= k < |strikes| ==>
                 && Insensitive(b, spot, strikes[k], -0.25, halvings)
                 && Insensitive(b, spot, strikes[k], 0.25, halvings)
  {
    ChecksMean(b, spot, strikes, halvings);
    StableIff(b, spot, strikes, halvings, 2 * |strikes|, MoveFrom(Base(b, spot, halvings), spot));
    BothQuarters(b, spot, strikes, halvings);
    DecideIff(HasSide(b, true) && HasSide(b, false), strikes, spot, Boundary(b, Grid(spot), halvings, None, 0.0),
              Boundary(b, EveryOther(Grid(spot)), halvings, None, 0.0),
              Variants(b, Grid(spot), strikes, halvings), Net(b, spot, None, 0.0));
  }

  lemma BothQuarters(b: Book, spot: real, strikes: seq<real>, halvings: nat)
    ensures InsensitiveBelow(b, spot, strikes, halvings, 2 * |strikes|) <==>
            forall k :: 0 <= k < |strikes| ==>
              && Insensitive(b, spot, strikes[k], -0.25, halvings)
              && Insensitive(b, spot, strikes[k], 0.25, halvings)
  {
    QuartersOf((strike, change) => Insensitive(b, spot, strike, change, halvings), strikes);
  }

  /** A condition on all variants is one on both quarters of every strike. */
  lemma QuartersOf(q: (real, real) -> bool, strikes: seq<real>)
    ensures (forall n :: 0 <= n < 2 * |strikes| ==> q(strikes[n / 2], Quarter(n)))
            <==> forall k :: 0 <= k < |strikes| ==> q(strikes[k], -0.25) && q(strikes[k], 0.25)
  {
    if forall n :: 0 <= n < 2 * |strikes| ==> q(strikes[n / 2], Quarter(n)) {
      forall k | 0 <= k < |strikes| ensures q(strikes[k], -0.25) && q(strikes[k], 0.25) {
        assert q(strikes[(2 * k) / 2], Quarter(2 * k)) && q(strikes[(2 * k + 1) / 2], Quarter(2 * k + 1));
      }
    }
  }

  /** Variant n is the first that is not stable, and only because it moves too far. */
  ghost predicate FirstSensitive(variants: seq<Result<real, Code>>, move: real -> real, n: nat) {
    && n < |variants| && (forall k :: 0 <= k < n ==> Stable(variants[k], move))
    && variants[n].Ok? && !Stable(variants[n], move)
  }

  ghost predicate IsRootCode(code: Code) {
    code == NoBoundary || code == AmbiguousMultipleRoots || code == RegimeOrientationUnverified
  }

  ghost predicate SomeFirstSensitive(variants: seq<Result<real, Code>>, move: real -> real, n: nat) {
    exists k: nat :: k < n && FirstSensitive(variants, move, k)
  }

  /** Which variant the stress loop refuses for. */
  lemma {:induction false} StressRefused(variants: seq<Result<real, Code>>, move: real -> real, n: nat)
    requires n <= |variants| && forall k :: 0 <= k < n && variants[k].Err? ==> IsRootCode(variants[k].error)
    ensures Stress(variants, move, n) == Err(SensitiveRoot) <==> SomeFirstSensitive(variants, move, n)
    ensures Stress(variants, move, n).Err? ==>
              Stress(variants, move, n).error == SensitiveRoot || IsRootCode(Stress(variants, move, n).error)
    decreases n
  {
    if n > 0 {
      StressRefused(variants, move, n - 1);
      StressIsWorstCase(variants, move, n - 1);
      assert SomeFirstSensitive(variants, move, n) <==>
             SomeFirstSensitive(variants, move, n - 1) || FirstSensitive(variants, move, n - 1);
    }
  }

  /** The first variant that is not insensitive is n, and it rises but moves too far. */
  ghost predicate IsSensitive(b: Book, spot: real, strikes: seq<real>, halvings: nat, n: nat)
    requires n < 2 * |strikes|
  {
    && InsensitiveBelow(b, spot, strikes, halvings, n)
    && Rises(Reweighted(b, Some(strikes[n / 2]), Quarter(n)), Grid(spot))
    && !Insensitive(b, spot, strikes[n / 2], Quarter(n), halvings)
  }

  lemma SensitiveIff(b: Book, spot: real, strikes: seq<real>, halvings: nat, n: nat, move: real -> real)
    requires spot > 0.0 && n < 2 * |strikes| && move == MoveFrom(Base(b, spot, halvings), spot)
    ensures FirstSensitive(Variants(b, Grid(spot), strikes, halvings), move, n)
            <==> IsSensitive(b, spot, strikes, halvings, n)
  {
    var v := Variants(b, Grid(spot), strikes, halvings)[n];
    StableIff(b, spot, strikes, halvings, n, move);
    VariantIs(b, spot, strikes, halvings, n, v);
    VariantRises(b, spot, strikes[n / 2], Quarter(n), halvings, v);
    VariantIsStable(b, spot, strikes[n / 2], Quarter(n), halvings, v, Base(b, spot, halvings));
  }

  /** Some variant is the first one to move too far. */
  ghost predicate SomeSensitive(b: Book, spot: real, strikes: seq<real>, halvings: nat) {
    exists n: nat :: n < 2 * |strikes| && IsSensitive(b, spot, strikes, halvings, n)
  }

  lemma SomeSensitiveIff(b: Book, spot: real, strikes: seq<real>, halvings: nat, move: real -> real)
    requires spot > 0.0 && move == MoveFrom(Base(b, spot, halvings), spot)
    ensures SomeFirstSensitive(Variants(b, Grid(spot), strikes, halvings), move, 2 * |strikes|)
            <==> SomeSensitive(b, spot, strikes, halvings)
  {
    var variants := Variants(b, Grid(spot), strikes, halvings);
    forall n: nat | n < |variants|
      ensures FirstSensitive(variants, move, n) <==> IsSensitive(b, spot, strikes, halvings, n)
    {
      SensitiveIff(b, spot, strikes, halvings, n, move);
    }
  }

  lemma StressCode(b: Book, spot: real, strikes: seq<real>, halvings: nat, move: real -> real)
    requires spot > 0.0 && move == MoveFrom(Base(b, spot, halvings), spot)
    ensures var r := Stress(Variants(b, Grid(spot), strikes, halvings), move, 2 * |strikes|);
            && (r == Err(SensitiveRoot) <==> SomeSensitive(b, spot, strikes, halvings))
            && (r.Err? ==> r.error == SensitiveRoot || IsRootCode(r.error))
  {
    var variants := Variants(b, Grid(spot), strikes, halvings);
    forall k | 0 <= k < |variants| && variants[k].Err? ensures IsRootCode(variants[k].error) {
      BoundaryCodes(b, Grid(spot), halvings, Some(strikes[k / 2]), Quarter(k), variants[k]);
    }
    StressRefused(variants, move, |variants|);
    SomeSensitiveIff(b, spot, strikes, halvings, move);
  }

  lemma BoundaryCodes(b: Book, xs: seq<real>, halvings: nat, stress: Option<real>, change: real, v: Result<real, Code>)
    requires v == Boundary(b, xs, halvings, stress, change)
    ensures v.Err? ==> IsRootCode(v.error)
  {
  }

  lemma DecideRefused(sides: bool, strikes: seq<real>, spot: real, base: Result<real, Code>,
                      coarse: Result<real, Code>, variants: seq<Result<real, Code>>, netGex: real)
    requires spot > 0.0 && (base.Err? ==> IsRootCode(base.error)) && (coarse.Err? ==> IsRootCode(coarse.error))
    requires base.Ok? ==>
               var s := Stress(variants, MoveFrom(base.value, spot), |variants|);
               s.Err? ==> s.error == SensitiveRoot || IsRootCode(s.error)
    ensures var r := Decide(sides, strikes, spot, base, coarse, variants, netGex);
            && (r == Err(InsufficientCallPutStrikeCoverage) <==> !sides || |strikes| < 3)
            && (r == Err(ReconstructionWorkBudget) <==> sides && |strikes| > 256)
            && (r == Err(RootPathOrLocalCoverageUnverified) <==>
                && sides && 3 <= |strikes| <= 256 && base.Ok? && coarse.Ok?
                && !PathAndCoverage(spot, strikes, base.value, coarse.value))
            && (r == Err(SensitiveRoot) <==>
                && sides && 3 <= |strikes| <= 256 && base.Ok? && coarse.Ok?
                && PathAndCoverage(spot, strikes, base.value, coarse.value)
                && Stress(variants, MoveFrom(base.value, spot), |variants|) == Err(SensitiveRoot))
  {
  }

  /** Which refusal is raised: the checks run in this order, and the stress variants strike by strike, down before up.
      Any other refusal is that of a boundary which is not a single rise. */
  lemma CertificateRefused(b: Book, spot: real, strikes: seq<real>, halvings: nat, r: Result<Certificate, Code>)
    requires spot > 0.0 && r == Certify(b, spot, strikes, halvings)
    ensures r == Err(InsufficientCallPutStrikeCoverage) <==> !CoversBook(b, strikes)
    ensures r == Err(ReconstructionWorkBudget) <==> CoversBook(b, strikes) && |strikes| > 256
    ensures r == Err(RootPathOrLocalCoverageUnverified) <==>
            && CoversBook(b, strikes) && |strikes| <= 256 && Rises(b, Grid(spot))
            && Rises(b, EveryOther(Grid(spot))) && !AgreesWithin(b, spot, strikes, halvings)
    ensures r == Err(SensitiveRoot) <==>
            Unstressed(b, spot, strikes, halvings) && SomeSensitive(b, spot, strikes, halvings)
  {
    var base := Boundary(b, Grid(spot), halvings, None, 0.0);
    var coarse := Boundary(b, EveryOther(Grid(spot)), halvings, None, 0.0);
    ChecksMean(b, spot, strikes, halvings);
    BoundaryCodes(b, Grid(spot), halvings, None, 0.0, base);
    BoundaryCodes(b, EveryOther(Grid(spot)), halvings, None, 0.0, coarse);
    StressCode(b, spot, strikes, halvings, MoveFrom(Base(b, spot, halvings), spot));
    DecideRefused(HasSide(b, true) && HasSide(b, false), strikes, spot, base, coarse,
                  Variants(b, Grid(spot), strikes, halvings), Net(b, spot, None, 0.0));
  }

  /** What the returned numbers are: the flip is the located boundary of the whole book, strictly
      inside the covered strikes, and the net exposure is the plain sum over contracts. */
  lemma CertificateMeaning(b: Book, spot: real, strikes: seq<real>, halvings: nat)
    requires spot > 0.0 && Certify(b, spot, strikes, halvings).Ok?
    ensures var cert := Certify(b, spot, strikes, halvings).value;
            && LocatedOn(b, Grid(spot), halvings, cert.gammaFlip)
            && cert.netGex == BookExposure(b, spot)
            && |strikes| > 0 && strikes[0] < cert.gammaFlip < strikes[|strikes| - 1]
  {
    GridAscending(spot);
    WholeBookRises(b, Grid(spot), halvings);
    NetIsBookExposure(b, spot, 0.0);
  }

  lemma CertifiedStress(b: Book, spot: real, strikes: seq<real>, halvings: nat, cert: Certificate)
    requires spot > 0.0 && Certify(b, spot, strikes, halvings) == Ok(cert)
    ensures Stress(Variants(b, Grid(spot), strikes, halvings), MoveFrom(cert.gammaFlip, spot), 2 * |strikes|)
            == Ok(cert.maximumMove)
  {
    DecideIff(HasSide(b, true) && HasSide(b, false), strikes, spot, Boundary(b, Grid(spot), halvings, None, 0.0),
              Boundary(b, EveryOther(Grid(spot)), halvings, None, 0.0),
              Variants(b, Grid(spot), strikes, halvings), Net(b, spot, None, 0.0));
  }

  /** Every variant is within the maximum. */
  lemma WithinWorst(variants: seq<Result<real, Code>>, move: real -> real, m: real, n: nat) returns (v: real)
    requires n < |variants| && Stress(variants, move, |variants|) == Ok(m)
    ensures variants[n] == Ok(v) && move(v) <= m && 0.0 <= m <= 0.001
  {
    StressIsWorstCase(variants, move, |variants|);
    assert Stable(variants[n], move);
    v := variants[n].value;
  }

  /** Some variant attains a positive maximum. */
  lemma AttainsWorst(variants: seq<Result<real, Code>>, move: real -> real, m: real) returns (n: nat, v: real)
    requires Stress(variants, move, |variants|) == Ok(m) && m > 0.0
    ensures n < |variants| && variants[n] == Ok(v) && move(v) == m
  {
    StressIsWorstCase(variants, move, |variants|);
    n :| 0 <= n < |variants| && move(variants[n].value) == m;
    assert Stable(variants[n], move);
    v := variants[n].value;
  }

  lemma VariantLocated(b: Book, spot: real, strikes: seq<real>, halvings: nat, n: nat, v: real, strike: real,
                       change: real)
    requires spot > 0.0 && n < 2 * |strikes| && Variants(b, Grid(spot), strikes, halvings)[n] == Ok(v)
    requires strike == strikes[n / 2] && change == Quarter(n)
    ensures LocatedOn(Reweighted(b, Some(strike), change), Grid(spot), halvings, v)
  {
    VariantIs(b, spot, strikes, halvings, n, Ok(v));
    VariantRises(b, spot, strike, change, halvings, Ok(v));
  }

  /** The index of the variant with the given change of strike k. */
  function VariantIndex(k: nat, change: real): (n: nat)
    ensures n / 2 == k && (change == -0.25 || change == 0.25 ==> Quarter(n) == change)
  {
    if change == -0.25 then 2 * k else 2 * k + 1
  }

  lemma MoveWithinPolicy(v: real, spot: real, cert: Certificate)
    requires spot > 0.0 && Move(v, cert.gammaFlip, spot) <= cert.maximumMove <= 0.001
    ensures Abs(v - cert.gammaFlip) <= cert.maximumMove * spot <= 0.001 * spot
  {
    MoveBound(v, cert.gammaFlip, spot, cert.maximumMove);
    if cert.maximumMove < 0.001 {
      Scale(spot, cert.maximumMove, 0.001);
    }
  }

  lemma MoveIsMaximum(v: real, spot: real, cert: Certificate)
    requires spot > 0.0 && Move(v, cert.gammaFlip, spot) == cert.maximumMove
    ensures Abs(v - cert.gammaFlip) == cert.maximumMove * spot
  {
    MoveBound(v, cert.gammaFlip, spot, cert.maximumMove);
  }

  lemma StressedStrike(b: Book, spot: real, strikes: seq<real>, halvings: nat, k: nat, change: real,
                       cert: Certificate)
    returns (v: real)
    requires spot > 0.0 && k < |strikes| && (change == -0.25 || change == 0.25)
    requires Stress(Variants(b, Grid(spot), strikes, halvings), MoveFrom(cert.gammaFlip, spot), 2 * |strikes|)
             == Ok(cert.maximumMove)
    ensures LocatedOn(Reweighted(b, Some(strikes[k]), change), Grid(spot), halvings, v)
    ensures Abs(v - cert.gammaFlip) <= cert.maximumMove * spot <= 0.001 * spot
  {
    var n := VariantIndex(k, change);
    v := WithinWorst(Variants(b, Grid(spot), strikes, halvings), MoveFrom(cert.gammaFlip, spot), cert.maximumMove, n);
    VariantLocated(b, spot, strikes, halvings, n, v, strikes[k], change);
    MoveWithinPolicy(v, spot, cert);
  }

  lemma AttainingStrike(b: Book, spot: real, strikes: seq<real>, halvings: nat, cert: Certificate)
    returns (k: nat, change: real, v: real)
    requires spot > 0.0 && cert.maximumMove > 0.0
    requires Stress(Variants(b, Grid(spot), strikes, halvings), MoveFrom(cert.gammaFlip, spot), 2 * |strikes|)
             == Ok(cert.maximumMove)
    ensures k < |strikes| && (change == -0.25 || change == 0.25)
    ensures LocatedOn(Reweighted(b, Some(strikes[k]), change), Grid(spot), halvings, v)
    ensures Abs(v - cert.gammaFlip) == cert.maximumMove * spot
  {
    var n;
    n, v := AttainsWorst(Variants(b, Grid(spot), strikes, halvings), MoveFrom(cert.gammaFlip, spot), cert.maximumMove);
    k, change := n / 2, Quarter(n);
    VariantLocated(b, spot, strikes, halvings, n, v, strikes[k], change);
    MoveIsMaximum(v, spot, cert);
  }

  /** On success the book with the open interest of any one strike a quarter down or up has its own located boundary,
      moved by no more than the reported maximum, which is at most a thousandth of spot. */
  lemma CertificateStress(b: Book, spot: real, strikes: seq<real>, halvings: nat, k: nat, change: real,
                          cert: Certificate)
    returns (v: real)
    requires spot > 0.0 && k < |strikes| && Certify(b, spot, strikes, halvings) == Ok(cert)
    requires change == -0.25 || change == 0.25
    ensures LocatedOn(Reweighted(b, Some(strikes[k]), change), Grid(spot), halvings, v)
    ensures Abs(v - cert.gammaFlip) <= cert.maximumMove * spot <= 0.001 * spot
  {
    CertifiedStress(b, spot, strikes, halvings, cert);
    v := StressedStrike(b, spot, strikes, halvings, k, change, cert);
  }

  /** And a positive maximum is attained: some variant moves its boundary by exactly that much. */
  lemma MaximumIsAttained(b: Book, spot: real, strikes: seq<real>, halvings: nat, cert: Certificate)
    returns (k: nat, change: real, v: real)
    requires spot > 0.0 && Certify(b, spot, strikes, halvings) == Ok(cert) && cert.maximumMove > 0.0
    ensures k < |strikes| && (change == -0.25 || change == 0.25)
    ensures LocatedOn(Reweighted(b, Some(strikes[k]), change), Grid(spot), halvings, v)
    ensures Abs(v - cert.gammaFlip) == cert.maximumMove * spot
  {
    CertifiedStress(b, spot, strikes, halvings, cert);
    k, change, v := AttainingStrike(b, spot, strikes, halvings, cert);
  }

  // ---------------------------------------------------------------------
  // Accuracy when a true boundary exists
  // ---------------------------------------------------------------------

  /** If f really changes sign at r inside the bracket, the reported middle is within half of the
      final width of it. */
  lemma LocationError(f: real -> real, c: (real, real), halvings: nat, r: real)
    requires SignBracket(f, c) && Threshold(f, c, r)
    ensures Abs(Midpoint(Bisect(f, c, halvings)) - r) <= Halved(c.1 - c.0, halvings + 1)
  {
    BisectKeepsBracket(f, c, halvings);
    BisectKeepsThreshold(f, c, halvings, r);
  }
}
