/**
 Ranking of scanner observations (ftmo_scanner.py, `rank_ftmo_observations`).

 Text normalisation and score rounding are parameters; scores are exact reals.
 */
module Scanner {
  import opened Common

  datatype Instrument = Instrument(ftmoSymbol: string, underlyingSymbol: string, providerSymbol: string)

  /** A finite score when one is given, and the score derived from the other figures. */
  datatype Observation = Observation(ftmoSymbol: string, symbol: string, providerSymbol: string,
                                     score: Option<real>, derivedScore: real, direction: string)

  datatype Candidate = Candidate(instrument: Instrument, score: real, direction: string, observation: Observation)

  /** `clean` strips and case-folds, `fold` case-folds, `round` rounds a score to four places. */
  datatype Rules = Rules(clean: string -> string, fold: string -> string, round: real -> real, minimumScore: real)

  type Aliases = map<string, Instrument>

  // ---------------------------------------------------------------------
  // Resolution and admission
  // ---------------------------------------------------------------------

  function WithAlias(rules: Rules, aliases: Aliases, value: string, instrument: Instrument): Aliases {
    if value == "" then aliases else aliases[rules.clean(value) := instrument]
  }

  /** Later instruments win a shared alias. */
  function AliasesOf(rules: Rules, instruments: seq<Instrument>): Aliases {
    if instruments == [] then map[]
    else
      var i := instruments[|instruments| - 1];
      var before := AliasesOf(rules, instruments[..|instruments| - 1]);
      WithAlias(rules, WithAlias(rules, WithAlias(rules, before, i.ftmoSymbol, i), i.underlyingSymbol, i),
                i.providerSymbol, i)
  }

  lemma {:induction false} AliasesResolveToInstruments(rules: Rules, instruments: seq<Instrument>, name: string)
    requires name in AliasesOf(rules, instruments)
    ensures AliasesOf(rules, instruments)[name] in instruments
  {
    var n := |instruments| - 1;
    var i, before := instruments[n], AliasesOf(rules, instruments[..n]);
    if AliasesOf(rules, instruments)[name] != i {
      assert name in before && AliasesOf(rules, instruments)[name] == before[name];
      AliasesResolveToInstruments(rules, instruments[..n], name);
    }
  }

  /** One of the instrument's symbols, cleaned, is the name; empty symbols name nothing. */
  predicate Names(rules: Rules, i: Instrument, name: string) {
    || (i.ftmoSymbol != "" && rules.clean(i.ftmoSymbol) == name)
    || (i.underlyingSymbol != "" && rules.clean(i.underlyingSymbol) == name)
    || (i.providerSymbol != "" && rules.clean(i.providerSymbol) == name)
  }

  /** Of all instruments that a name can stand for, it stands for the last one. */
  ghost predicate IsLastNamed(rules: Rules, instruments: seq<Instrument>, name: string, k: nat) {
    && k < |instruments| && Names(rules, instruments[k], name)
    && forall j :: k < j < |instruments| ==> !Names(rules, instruments[j], name)
  }

  lemma AliasesNext(rules: Rules, instruments: seq<Instrument>, name: string)
    requires instruments != []
    ensures var n := |instruments| - 1;
            var before, after := AliasesOf(rules, instruments[..n]), AliasesOf(rules, instruments);
            if Names(rules, instruments[n], name) then name in after && after[name] == instruments[n]
            else (name in after <==> name in before) && (name in before ==> after[name] == before[name])
  {
  }

  lemma {:induction false} AliasesKnow(rules: Rules, instruments: seq<Instrument>, name: string)
    ensures name in AliasesOf(rules, instruments) <==> exists i :: i in instruments && Names(rules, i, name)
  {
    hide Names, AliasesOf;
    if instruments == [] {
      AliasesOfNone(rules);
    } else {
      var n := |instruments| - 1;
      AliasesKnow(rules, instruments[..n], name);
      AliasesNext(rules, instruments, name);
      assert forall i :: i in instruments <==> i in instruments[..n] || i == instruments[n];
    }
  }

  lemma {:induction false} AliasesStandFor(rules: Rules, instruments: seq<Instrument>, name: string, k: nat)
    requires IsLastNamed(rules, instruments, name, k)
    ensures name in AliasesOf(rules, instruments) && AliasesOf(rules, instruments)[name] == instruments[k]
  {
    hide Names, AliasesOf;
    var n := |instruments| - 1;
    AliasesNext(rules, instruments, name);
    if k < n {
      AliasesStandFor(rules, instruments[..n], name, k);
    }
  }

  lemma AliasesOfNone(rules: Rules)
    ensures AliasesOf(rules, []) == map[]
  {
  }

  function RawSymbol(o: Observation): string {
    if o.ftmoSymbol != "" then o.ftmoSymbol else if o.symbol != "" then o.symbol else o.providerSymbol
  }

  /** The candidate an observation makes, if it is admissible. */
  function CandidateOf(rules: Rules, aliases: Aliases, o: Observation): Option<Candidate> {
    var name := rules.clean(RawSymbol(o));
    if name !in aliases then None
    else
      var score := if o.score.Some? then o.score.value else o.derivedScore;
      var direction := rules.clean(if o.direction == "" then "none" else o.direction);
      if score < rules.minimumScore || (direction != "long" && direction != "short") then None
      else Some(Candidate(aliases[name], rules.round(score), direction, o))
  }

  /** An observation is admitted exactly when its first symbol names an enabled instrument, its score, derived if none
      is given, is not below the minimum, and its direction is long or short. It then stands for the last instrument so
      named, with the rounded score. */
  lemma CandidateMeans(rules: Rules, instruments: seq<Instrument>, o: Observation, k: nat, name: string, score: real,
                       direction: string)
    requires name == rules.clean(if o.ftmoSymbol != "" then o.ftmoSymbol else if o.symbol != "" then o.symbol
                                 else o.providerSymbol)
    requires score == if o.score.Some? then o.score.value else o.derivedScore
    requires direction == rules.clean(if o.direction != "" then o.direction else "none")
    ensures var c := CandidateOf(rules, AliasesOf(rules, instruments), o);
            && (c.Some? <==> && (exists i :: i in instruments && Names(rules, i, name))
                             && score >= rules.minimumScore && direction in ["long", "short"])
            && (c.Some? && IsLastNamed(rules, instruments, name, k) ==>
                  c.value == Candidate(instruments[k], rules.round(score), direction, o))
  {
    AliasesKnow(rules, instruments, name);
    if IsLastNamed(rules, instruments, name, k) {
      AliasesStandFor(rules, instruments, name, k);
    }
  }

  function KeyOf(rules: Rules, c: Candidate): string {
    rules.fold(c.instrument.ftmoSymbol)
  }

  /** A candidate for the given key. */
  predicate Competes(rules: Rules, c: Option<Candidate>, key: string) {
    c.Some? && KeyOf(rules, c.value) == key
  }

  /** The kept candidate of a key: a later one replaces it only with a higher score. */
  function Best(rules: Rules, aliases: Aliases, observations: seq<Observation>, key: string): Option<Candidate> {
    if observations == [] then None
    else
      var best := Best(rules, aliases, observations[..|observations| - 1], key);
      var c := CandidateOf(rules, aliases, observations[|observations| - 1]);
      if Competes(rules, c, key) && (best.None? || c.value.score > best.value.score) then c else best
  }

  /** The kept candidate is the first one with the highest score; there is none only when nothing competes. */
  lemma {:induction false} BestIsFirstMaximum(rules: Rules, aliases: Aliases, observations: seq<Observation>,
                                              key: string)
    ensures var b := Best(rules, aliases, observations, key);
            && (b.Some? ==> exists k :: 0 <= k < |observations| && IsFirstMaximum(rules, aliases, observations, key, k)
                                        && CandidateOf(rules, aliases, observations[k]) == b)
            && (b.None? ==> forall j :: 0 <= j < |observations| ==>
                  !Competes(rules, CandidateOf(rules, aliases, observations[j]), key))
  {
    if observations != [] {
      var n := |observations| - 1;
      var init := observations[..n];
      BestIsFirstMaximum(rules, aliases, init, key);
      var before, b := Best(rules, aliases, init, key), Best(rules, aliases, observations, key);
      if b.Some? {
        if b == before {
          var k :| 0 <= k < n && IsFirstMaximum(rules, aliases, init, key, k)
            && CandidateOf(rules, aliases, init[k]) == before;
          FirstMaximumExtends(rules, aliases, observations, key, k);
        } else {
          NewMaximum(rules, aliases, observations, key);
        }
      }
    }
  }

  /** Observation k competes, no competitor scores higher, and every earlier one scores lower. */
  ghost predicate IsFirstMaximum(rules: Rules, aliases: Aliases, observations: seq<Observation>, key: string, k: nat) {
    && k < |observations| && Competes(rules, CandidateOf(rules, aliases, observations[k]), key)
    && forall j :: 0 <= j < |observations| && Competes(rules, CandidateOf(rules, aliases, observations[j]), key) ==>
         var mine, other := CandidateOf(rules, aliases, observations[k]).value.score,
                            CandidateOf(rules, aliases, observations[j]).value.score;
         other <= mine && (j < k ==> other < mine)
  }

  lemma FirstMaximumExtends(rules: Rules, aliases: Aliases, observations: seq<Observation>, key: string, k: nat)
    requires observations != [] && IsFirstMaximum(rules, aliases, observations[..|observations| - 1], key, k)
    requires var c := CandidateOf(rules, aliases, observations[|observations| - 1]);
             var kept := CandidateOf(rules, aliases, observations[k]);
             Competes(rules, c, key) ==> c.value.score <= kept.value.score
    ensures IsFirstMaximum(rules, aliases, observations, key, k)
  {
  }

  lemma NewMaximum(rules: Rules, aliases: Aliases, observations: seq<Observation>, key: string)
    requires observations != []
    requires var n := |observations| - 1;
             var c := CandidateOf(rules, aliases, observations[n]);
             var before := Best(rules, aliases, observations[..n], key);
             Competes(rules, c, key) && (before.None? || c.value.score > before.value.score)
    requires var init := observations[..|observations| - 1];
             var before := Best(rules, aliases, init, key);
             if before.None? then
               forall j :: 0 <= j < |init| ==> !Competes(rules, CandidateOf(rules, aliases, init[j]), key)
             else
               exists k :: 0 <= k < |init| && IsFirstMaximum(rules, aliases, init, key, k)
                           && CandidateOf(rules, aliases, init[k]) == before
    ensures IsFirstMaximum(rules, aliases, observations, key, |observations| - 1)
  {
  }

  // ---------------------------------------------------------------------
  // Order
  // ---------------------------------------------------------------------

  /** Strict lexicographic order of strings by code point. */
  predicate Lex(a: string, b: string) {
    b != "" && (a == "" || a[0] < b[0] || (a[0] == b[0] && Lex(a[1..], b[1..])))
  }

  lemma {:induction false} LexIsTotal(a: string, b: string)
    ensures Lex(a, b) || Lex(b, a) || a == b
    ensures !(Lex(a, b) && Lex(b, a))
  {
    if a != "" && b != "" {
      LexIsTotal(a[1..], b[1..]);
      assert a == [a[0]] + a[1..] && b == [b[0]] + b[1..];
    }
  }

  lemma {:induction false} LexIsTransitive(a: string, b: string, c: string)
    requires Lex(a, b) && Lex(b, c)
    ensures Lex(a, c)
  {
    if a != "" && a[0] == b[0] == c[0] {
      LexIsTransitive(a[1..], b[1..], c[1..]);
    }
  }

  /** After what they have in common, the first string ends or goes on with a smaller character. */
  ghost predicate Precedes(a: string, b: string, k: nat) {
    k <= |a| && k < |b| && a[..k] == b[..k] && (k == |a| || a[k] < b[k])
  }

  lemma SharedHead(a: string, b: string, k: nat)
    requires k <= |a| && k <= |b| && a[..k] == b[..k]
    ensures k > 0 ==> a[0] == b[0]
  {
    if k > 0 {
      assert a[..k][0] == a[0] && b[..k][0] == b[0];
    }
  }

  lemma {:induction false} LexMeans(a: string, b: string)
    ensures Lex(a, b) <==> exists k: nat :: Precedes(a, b, k)
  {
    if a == "" || b == "" || a[0] != b[0] {
      if Lex(a, b) {
        assert Precedes(a, b, 0);
      }
      if k: nat :| Precedes(a, b, k) {
        SharedHead(a, b, k);
      }
    } else {
      LexMeans(a[1..], b[1..]);
      if Lex(a, b) {
        var k: nat :| Precedes(a[1..], b[1..], k);
        assert a[..k + 1] == [a[0]] + a[1..][..k] && b[..k + 1] == [b[0]] + b[1..][..k];
        assert Precedes(a, b, k + 1);
      } else if k: nat :| Precedes(a, b, k) {
        assert a[1..][..k - 1] == a[..k][1..] && b[1..][..k - 1] == b[..k][1..];
        assert Precedes(a[1..], b[1..], k - 1);
      }
    }
  }

  /** Higher scores first, symbols in order on a tie. */
  predicate Before(a: Candidate, b: Candidate) {
    a.score > b.score || (a.score == b.score && Lex(a.instrument.ftmoSymbol, b.instrument.ftmoSymbol))
  }

  lemma BeforeIsAnOrder(a: Candidate, b: Candidate)
    ensures !(Before(a, b) && Before(b, a)) && !Before(a, a)
    ensures a.instrument.ftmoSymbol != b.instrument.ftmoSymbol ==> Before(a, b) || Before(b, a)
  {
    LexIsTotal(a.instrument.ftmoSymbol, b.instrument.ftmoSymbol);
    LexIsTotal(a.instrument.ftmoSymbol, a.instrument.ftmoSymbol);
  }

  lemma BeforeIsTransitive(a: Candidate, b: Candidate, c: Candidate)
    requires Before(a, b) && Before(b, c)
    ensures Before(a, c)
  {
    if a.score == b.score == c.score {
      LexIsTransitive(a.instrument.ftmoSymbol, b.instrument.ftmoSymbol, c.instrument.ftmoSymbol);
    }
  }

  ghost predicate Ordered(s: seq<Candidate>) {
    forall i, j :: 0 <= i < j < |s| ==> Before(s[i], s[j])
  }

  function Insert(s: seq<Candidate>, c: Candidate): seq<Candidate> {
    if s == [] then [c] else if Before(c, s[0]) then [c] + s else [s[0]] + Insert(s[1..], c)
  }

  lemma {:induction false} InsertKeeps(s: seq<Candidate>, c: Candidate)
    ensures |Insert(s, c)| == |s| + 1
    ensures forall x :: x in Insert(s, c) <==> x in s || x == c
  {
    if s != [] && !Before(c, s[0]) {
      InsertKeeps(s[1..], c);
      assert s == [s[0]] + s[1..];
    }
  }

  lemma {:induction false} InsertOrders(s: seq<Candidate>, c: Candidate)
    requires Ordered(s) && forall x :: x in s ==> x.instrument.ftmoSymbol != c.instrument.ftmoSymbol
    ensures Ordered(Insert(s, c))
  {
    if s == [] {
    } else if Before(c, s[0]) {
      forall j | 0 <= j < |s| ensures Before(c, s[j]) {
        if j > 0 {
          BeforeIsTransitive(c, s[0], s[j]);
        }
      }
    } else {
      var rest := Insert(s[1..], c);
      InsertOrders(s[1..], c);
      InsertKeeps(s[1..], c);
      BeforeIsAnOrder(c, s[0]);
      forall j | 0 <= j < |rest| ensures Before(s[0], rest[j]) {
        assert rest[j] in rest;
        if rest[j] in s[1..] {
          var i :| 0 <= i < |s[1..]| && s[1..][i] == rest[j];
          assert s[i + 1] == rest[j];
        }
      }
    }
  }

  // ---------------------------------------------------------------------
  // The ranking and its specification
  // ---------------------------------------------------------------------

  /** Strictly ordered kept candidates, at most `limit`; one is missing only when `limit` better ones are there. */
  ghost predicate IsRanking(rules: Rules, aliases: Aliases, observations: seq<Observation>, limit: nat,
                            out: seq<Candidate>) {
    && |out| <= limit && Ordered(out)
    && (forall i :: 0 <= i < |out| ==> Best(rules, aliases, observations, KeyOf(rules, out[i])) == Some(out[i]))
    && (forall key :: Best(rules, aliases, observations, key).Some? ==>
          var c := Best(rules, aliases, observations, key).value;
          c in out || (|out| == limit && forall i :: 0 <= i < |out| ==> Before(out[i], c)))
  }

  ghost predicate Keeps(rules: Rules, aliases: Aliases, observations: seq<Observation>, ranked: map<string,
                        Candidate>) {
    forall key :: (if key in ranked then Some(ranked[key]) else None) == Best(rules, aliases, observations, key)
  }

  lemma {:induction false} BestHasKey(rules: Rules, aliases: Aliases, observations: seq<Observation>, key: string)
    ensures var b := Best(rules, aliases, observations, key); b.Some? ==> Competes(rules, b, key)
  {
    if observations != [] {
      BestHasKey(rules, aliases, observations[..|observations| - 1], key);
    }
  }

  lemma KeepsNext(rules: Rules, aliases: Aliases, observations: seq<Observation>, ranked: map<string, Candidate>,
                  o: Observation)
    requires Keeps(rules, aliases, observations, ranked)
    ensures var c := CandidateOf(rules, aliases, o);
            Keeps(rules, aliases, observations + [o],
                  if c.Some?
                     && (KeyOf(rules, c.value) in ranked ==> c.value.score > ranked[KeyOf(rules, c.value)].score)
                  then ranked[KeyOf(rules, c.value) := c.value] else ranked)
  {
  }

  method Collect(rules: Rules, aliases: Aliases, observations: seq<Observation>) returns (ranked: map<string,
                 Candidate>)
    ensures Keeps(rules, aliases, observations, ranked)
  {
    ranked := map[];
    for n := 0 to |observations|
      invariant Keeps(rules, aliases, observations[..n], ranked)
    {
      assert observations[..n + 1] == observations[..n] + [observations[n]];
      KeepsNext(rules, aliases, observations[..n], ranked, observations[n]);
      var c := CandidateOf(rules, aliases, observations[n]);
      if c.Some? {
        var key := KeyOf(rules, c.value);
        if key !in ranked || c.value.score > ranked[key].score {
          ranked := ranked[key := c.value];
        }
      }
    }
    assert observations[..|observations|] == observations;
  }

  /** The values of a map from keys to candidates of those keys, in order. */
  method SortValues(rules: Rules, ranked: map<string, Candidate>) returns (all: seq<Candidate>)
    requires forall key :: key in ranked ==> KeyOf(rules, ranked[key]) == key
    ensures Ordered(all) && forall c :: c in all <==> exists key :: key in ranked && ranked[key] == c
  {
    all := [];
    var todo := ranked.Keys;
    while exists key :: key in todo
      invariant todo <= ranked.Keys && Ordered(all)
      invariant forall c :: c in all <==> exists key :: key in ranked && key !in todo && ranked[key] == c
      decreases todo
    {
      var key :| key in todo;
      var c := ranked[key];
      forall x | x in all ensures x.instrument.ftmoSymbol != c.instrument.ftmoSymbol {
        var other :| other in ranked && other !in todo && ranked[other] == x;
        assert KeyOf(rules, x) == other && KeyOf(rules, c) == key;
      }
      InsertOrders(all, c);
      InsertKeeps(all, c);
      all := Insert(all, c);
      todo := todo - {key};
    }
  }

  method RankObservations(rules: Rules, instruments: seq<Instrument>, observations: seq<Observation>, limit: nat)
    returns (out: seq<Candidate>)
    ensures IsRanking(rules, AliasesOf(rules, instruments), observations, limit, out)
  {
    var aliases := AliasesOf(rules, instruments);
    var ranked := Collect(rules, aliases, observations);
    forall key | key in ranked ensures KeyOf(rules, ranked[key]) == key {
      BestHasKey(rules, aliases, observations, key);
    }
    var all := SortValues(rules, ranked);
    out := if limit < |all| then all[..limit] else all;
    PrefixRanks(rules, aliases, observations, ranked, all, limit);
  }

  lemma PrefixRanks(rules: Rules, aliases: Aliases, observations: seq<Observation>, ranked: map<string, Candidate>,
                    all: seq<Candidate>, limit: nat)
    requires Keeps(rules, aliases, observations, ranked) && Ordered(all)
    requires forall key :: key in ranked ==> KeyOf(rules, ranked[key]) == key
    requires forall c :: c in all <==> exists key :: key in ranked && ranked[key] == c
    ensures IsRanking(rules, aliases, observations, limit, if limit < |all| then all[..limit] else all)
  {
    var out := if limit < |all| then all[..limit] else all;
    forall i | 0 <= i < |out| ensures Best(rules, aliases, observations, KeyOf(rules, out[i])) == Some(out[i]) {
      assert out[i] == all[i] && all[i] in all;
      var key :| key in ranked && ranked[key] == all[i];
    }
    forall key | Best(rules, aliases, observations, key).Some?
      ensures var c := Best(rules, aliases, observations, key).value;
              c in out || (|out| == limit && forall i :: 0 <= i < |out| ==> Before(out[i], c))
    {
      var c := ranked[key];
      assert c in all;
      var k :| 0 <= k < |all| && all[k] == c;
      if k < |out| {
        assert out[k] == c;
      }
    }
  }

  /** A ranking by its scores: they fall, symbols rise where they are equal, and whatever is admitted is represented by
      an entry of its symbol that scores no less, unless the ranking is full of entries that score no less. */
  lemma RankingMeans(rules: Rules, aliases: Aliases, observations: seq<Observation>, limit: nat, out: seq<Candidate>)
    requires IsRanking(rules, aliases, observations, limit, out)
    ensures |out| <= limit
    ensures forall i, j :: 0 <= i < j < |out| ==>
              && out[i].score >= out[j].score
              && (out[i].score == out[j].score ==>
                    exists k: nat :: Precedes(out[i].instrument.ftmoSymbol, out[j].instrument.ftmoSymbol, k))
    ensures forall o :: o in observations && CandidateOf(rules, aliases, o).Some? ==>
              IsRepresented(rules, CandidateOf(rules, aliases, o).value, limit, out)
  {
    forall i, j | 0 <= i < j < |out|
      ensures && out[i].score >= out[j].score
              && (out[i].score == out[j].score ==>
                    exists k: nat :: Precedes(out[i].instrument.ftmoSymbol, out[j].instrument.ftmoSymbol, k))
    {
      LexMeans(out[i].instrument.ftmoSymbol, out[j].instrument.ftmoSymbol);
    }
    forall o | o in observations && CandidateOf(rules, aliases, o).Some?
      ensures IsRepresented(rules, CandidateOf(rules, aliases, o).value, limit, out)
    {
      AdmittedIsRepresented(rules, aliases, observations, limit, out, o, CandidateOf(rules, aliases, o).value);
    }
  }

  ghost predicate IsRepresented(rules: Rules, c: Candidate, limit: nat, out: seq<Candidate>) {
    || (exists i :: 0 <= i < |out| && out[i].score >= c.score
                    && rules.fold(out[i].instrument.ftmoSymbol) == rules.fold(c.instrument.ftmoSymbol))
    || (|out| == limit && forall i :: 0 <= i < |out| ==> out[i].score >= c.score)
  }

  lemma AdmittedIsRepresented(rules: Rules, aliases: Aliases, observations: seq<Observation>, limit: nat,
                              out: seq<Candidate>, o: Observation, c: Candidate)
    requires IsRanking(rules, aliases, observations, limit, out)
    requires o in observations && CandidateOf(rules, aliases, o) == Some(c)
    ensures IsRepresented(rules, c, limit, out)
  {
    var key := KeyOf(rules, c);
    assert Competes(rules, Some(c), key);
    BestIsFirstMaximum(rules, aliases, observations, key);
    BestHasKey(rules, aliases, observations, key);
    var best := Best(rules, aliases, observations, key).value;
    assert best.score >= c.score;
    if best in out {
      var i :| 0 <= i < |out| && out[i] == best;
    }
  }

  // ---------------------------------------------------------------------
  // The ranking does not depend on the order of the observations
  // ---------------------------------------------------------------------

  /** The registry refuses symbols that differ only in case. */
  ghost predicate UniqueSymbols(rules: Rules, aliases: Aliases) {
    forall a, b :: a in aliases && b in aliases
      && rules.fold(aliases[a].ftmoSymbol) == rules.fold(aliases[b].ftmoSymbol)
      ==> aliases[a].ftmoSymbol == aliases[b].ftmoSymbol
  }

  lemma BestOfPermutation(rules: Rules, aliases: Aliases, a: seq<Observation>, b: seq<Observation>, key: string)
    requires multiset(a) == multiset(b) && UniqueSymbols(rules, aliases)
    ensures var x, y := Best(rules, aliases, a, key), Best(rules, aliases, b, key);
            (x.Some? <==> y.Some?)
            && (x.Some? ==>
                  && x.value.score == y.value.score
                  && x.value.instrument.ftmoSymbol == y.value.instrument.ftmoSymbol)
  {
    BestIsFirstMaximum(rules, aliases, a, key);
    BestIsFirstMaximum(rules, aliases, b, key);
    BestAtLeast(rules, aliases, a, b, key);
    BestAtLeast(rules, aliases, b, a, key);
  }

  /** The best of one sequence is matched by the best of a permutation of it. */
  lemma BestAtLeast(rules: Rules, aliases: Aliases, a: seq<Observation>, b: seq<Observation>, key: string)
    requires multiset(a) == multiset(b) && UniqueSymbols(rules, aliases)
    ensures var x, y := Best(rules, aliases, a, key), Best(rules, aliases, b, key);
            x.Some? ==> y.Some? && x.value.score <= y.value.score
                        && x.value.instrument.ftmoSymbol == y.value.instrument.ftmoSymbol
  {
    BestIsFirstMaximum(rules, aliases, a, key);
    BestIsFirstMaximum(rules, aliases, b, key);
    var x, y := Best(rules, aliases, a, key), Best(rules, aliases, b, key);
    if x.Some? {
      var k :| 0 <= k < |a| && CandidateOf(rules, aliases, a[k]) == x;
      BestHasKey(rules, aliases, a, key);
      assert a[k] in multiset(b);
      var j :| 0 <= j < |b| && b[j] == a[k];
      assert Competes(rules, CandidateOf(rules, aliases, b[j]), key);
      BestHasKey(rules, aliases, b, key);
      BestComesFromAlias(rules, aliases, a, key);
      BestComesFromAlias(rules, aliases, b, key);
    }
  }

  lemma {:induction false} BestComesFromAlias(rules: Rules, aliases: Aliases, observations: seq<Observation>,
                                              key: string)
    ensures var b := Best(rules, aliases, observations, key);
            b.Some? ==> exists name :: name in aliases && aliases[name] == b.value.instrument
  {
    if observations != [] {
      BestComesFromAlias(rules, aliases, observations[..|observations| - 1], key);
      var o := observations[|observations| - 1];
      assert CandidateOf(rules, aliases, o).Some?
             ==> aliases[rules.clean(RawSymbol(o))] == CandidateOf(rules, aliases, o).value.instrument;
    }
  }

  /** Same place in the ranking: same symbol and same score. */
  predicate SameRank(c: Candidate, d: Candidate) {
    c.score == d.score && c.instrument.ftmoSymbol == d.instrument.ftmoSymbol
  }

  lemma BeforeRespectsRank(a: Candidate, b: Candidate, c: Candidate, d: Candidate)
    requires SameRank(a, b) && SameRank(c, d)
    ensures Before(a, c) <==> Before(b, d)
  {
  }

  /** The kept candidate of c's key over other observations. */
  function Counterpart(rules: Rules, aliases: Aliases, observations: seq<Observation>,
                       c: Candidate): Option<Candidate> {
    Best(rules, aliases, observations, KeyOf(rules, c))
  }

  /** The i-th candidates of two rankings of permuted observations agree once all earlier ones do. */
  lemma RankAgreesAt(rules: Rules, aliases: Aliases, a: seq<Observation>, b: seq<Observation>, limit: nat,
                     p: seq<Candidate>, q: seq<Candidate>, i: nat)
    requires multiset(a) == multiset(b) && UniqueSymbols(rules, aliases)
    requires IsRanking(rules, aliases, a, limit, p) && IsRanking(rules, aliases, b, limit, q)
    requires i < |p| && i <= |q| && forall j :: 0 <= j < i ==> SameRank(p[j], q[j])
    ensures i < |q| && (SameRank(p[i], q[i]) || Before(q[i], p[i]))
  {
    var c := p[i];
    BestOfPermutation(rules, aliases, a, b, KeyOf(rules, c));
    var d := Counterpart(rules, aliases, b, c).value;
    assert Counterpart(rules, aliases, a, c) == Some(c);
    assert SameRank(c, d);
    if d in q {
      var k :| 0 <= k < |q| && q[k] == d;
      if k < i {
        assert SameRank(p[k], c);
        BeforeRespectsRank(p[k], c, c, c);
        BeforeIsAnOrder(c, c);
      } else if k > i {
        BeforeRespectsRank(q[i], q[i], d, c);
      }
    } else {
      BeforeRespectsRank(q[i], q[i], d, c);
    }
  }

  lemma {:induction false} RankingsAgreeUpTo(rules: Rules, aliases: Aliases, a: seq<Observation>, b: seq<Observation>,
                                             limit: nat,
                                             p: seq<Candidate>, q: seq<Candidate>, n: nat)
    requires multiset(a) == multiset(b) && UniqueSymbols(rules, aliases) && n <= |p|
    requires IsRanking(rules, aliases, a, limit, p) && IsRanking(rules, aliases, b, limit, q)
    ensures n <= |q| && forall j :: 0 <= j < n ==> SameRank(p[j], q[j])
    decreases n
  {
    if n > 0 {
      RankingsAgreeUpTo(rules, aliases, a, b, limit, p, q, n - 1);
      RankAgreesAt(rules, aliases, a, b, limit, p, q, n - 1);
      RankAgreesAt(rules, aliases, b, a, limit, q, p, n - 1);
      BeforeIsAnOrder(p[n - 1], q[n - 1]);
    }
  }

  /** However the observations are permuted, the rankings have the same symbols and scores in the same places. */
  lemma RankingIsPermutationInvariant(rules: Rules, aliases: Aliases, a: seq<Observation>, b: seq<Observation>,
                                      limit: nat,
                                      p: seq<Candidate>, q: seq<Candidate>)
    requires multiset(a) == multiset(b) && UniqueSymbols(rules, aliases)
    requires IsRanking(rules, aliases, a, limit, p) && IsRanking(rules, aliases, b, limit, q)
    ensures |p| == |q| && forall j :: 0 <= j < |p| ==> SameRank(p[j], q[j])
  {
    RankingsAgreeUpTo(rules, aliases, a, b, limit, p, q, |p|);
    RankingsAgreeUpTo(rules, aliases, b, a, limit, q, p, |q|);
  }

  /** Without a permutation the ranking is unique, directions and observations included. */
  lemma RankingIsUnique(rules: Rules, aliases: Aliases, a: seq<Observation>, limit: nat, p: seq<Candidate>,
                        q: seq<Candidate>)
    requires UniqueSymbols(rules, aliases)
    requires IsRanking(rules, aliases, a, limit, p) && IsRanking(rules, aliases, a, limit, q)
    ensures p == q
  {
    RankingIsPermutationInvariant(rules, aliases, a, a, limit, p, q);
    forall j | 0 <= j < |p| ensures p[j] == q[j] {
      assert KeyOf(rules, p[j]) == KeyOf(rules, q[j]);
    }
  }

  /** The unrounded score an observation is admitted with. */
  function RawScore(o: Observation): real {
    if o.score.Some? then o.score.value else o.derivedScore
  }

  /** Everything ranked is an admissible observation of an enabled instrument: long or short, not below the
      minimum before rounding. */
  lemma RankedAreAdmissible(rules: Rules, instruments: seq<Instrument>, observations: seq<Observation>, limit: nat,
                            out: seq<Candidate>, i: nat)
    requires IsRanking(rules, AliasesOf(rules, instruments), observations, limit, out) && i < |out|
    ensures var c := out[i];
            && c.observation in observations && c.instrument in instruments && c.direction in ["long", "short"]
            && rules.minimumScore <= RawScore(c.observation) && c.score == rules.round(RawScore(c.observation))
  {
    var aliases, c := AliasesOf(rules, instruments), out[i];
    BestIsFirstMaximum(rules, aliases, observations, KeyOf(rules, c));
    var k :| 0 <= k < |observations| && CandidateOf(rules, aliases, observations[k]) == Some(c);
    AliasesResolveToInstruments(rules, instruments, rules.clean(RawSymbol(observations[k])));
  }

  const GOLD := Instrument("XAU", "", "")

  const PLAIN_RULES := Rules((s: string) => s, (s: string) => s, (x: real) => x, 0.5)

  /** No instrument is ranked twice. */
  lemma RankedInstrumentsAreDistinct(rules: Rules, aliases: Aliases, observations: seq<Observation>, limit: nat,
                                     out: seq<Candidate>, i: nat, j: nat)
    requires IsRanking(rules, aliases, observations, limit, out) && i < j < |out|
    ensures out[i].instrument != out[j].instrument && KeyOf(rules, out[i]) != KeyOf(rules, out[j])
  {
    BeforeIsAnOrder(out[i], out[j]);
  }

  /** Distinct things that all occur in a sequence are no more than its length. */
  lemma {:induction false} Pigeonhole<T>(distinct: seq<T>, holes: seq<T>)
    requires forall i, j :: 0 <= i < j < |distinct| ==> distinct[i] != distinct[j]
    requires forall x :: x in distinct ==> x in holes
    ensures |distinct| <= |holes|
  {
    if distinct != [] {
      var n := |distinct| - 1;
      assert distinct[n] in holes;
      var k :| 0 <= k < |holes| && holes[k] == distinct[n];
      var rest := holes[..k] + holes[k + 1..];
      forall x | x in distinct[..n] ensures x in rest {
        var i :| 0 <= i < n && distinct[i] == x;
        assert distinct[i] in holes;
        var j :| 0 <= j < |holes| && holes[j] == x;
        assert rest[if j < k then j else j - 1] == x;
      }
      Pigeonhole(distinct[..n], rest);
    }
  }

  /** A ranking has at most one entry for each enabled instrument. */
  lemma RankingFitsUniverse(rules: Rules, instruments: seq<Instrument>, observations: seq<Observation>, limit: nat,
                            out: seq<Candidate>)
    requires IsRanking(rules, AliasesOf(rules, instruments), observations, limit, out)
    ensures |out| <= |instruments|
  {
    var aliases := AliasesOf(rules, instruments);
    var ranked := seq(|out|, i requires 0 <= i < |out| => out[i].instrument);
    forall i, j | 0 <= i < j < |ranked| ensures ranked[i] != ranked[j] {
      RankedInstrumentsAreDistinct(rules, aliases, observations, limit, out, i, j);
    }
    forall x | x in ranked ensures x in instruments {
      var i :| 0 <= i < |out| && ranked[i] == x;
      RankedAreAdmissible(rules, instruments, observations, limit, out, i);
    }
    Pigeonhole(ranked, instruments);
  }

  // ---------------------------------------------------------------------
  // When the direction does not depend on the order of the observations
  // ---------------------------------------------------------------------

  /** Observation k competes and no competitor scores higher. */
  ghost predicate IsMaximum(rules: Rules, aliases: Aliases, observations: seq<Observation>, key: string, k: nat) {
    && k < |observations| && Competes(rules, CandidateOf(rules, aliases, observations[k]), key)
    && forall j :: 0 <= j < |observations| && Competes(rules, CandidateOf(rules, aliases, observations[j]), key) ==>
         CandidateOf(rules, aliases, observations[j]).value.score
         <= CandidateOf(rules, aliases, observations[k]).value.score
  }

  /** All competitors of the key with the highest rounded score have one direction. */
  ghost predicate TiesAgree(rules: Rules, aliases: Aliases, observations: seq<Observation>, key: string) {
    forall j: nat, k: nat ::
      IsMaximum(rules, aliases, observations, key, j) && IsMaximum(rules, aliases, observations, key, k) ==>
      CandidateOf(rules, aliases, observations[j]).value.direction
      == CandidateOf(rules, aliases, observations[k]).value.direction
  }

  ghost predicate HasDirection(rules: Rules, aliases: Aliases, observations: seq<Observation>, key: string,
                               direction: string) {
    var b := Best(rules, aliases, observations, key);
    b.Some? && b.value.direction == direction
  }

  /** Any first maximum is the kept candidate. */
  lemma FirstMaximumIsBest(rules: Rules, aliases: Aliases, observations: seq<Observation>, key: string, k: nat)
    requires IsFirstMaximum(rules, aliases, observations, key, k)
    ensures Best(rules, aliases, observations, key) == CandidateOf(rules, aliases, observations[k])
  {
    BestIsFirstMaximum(rules, aliases, observations, key);
    var i :| 0 <= i < |observations| && IsFirstMaximum(rules, aliases, observations, key, i)
             && CandidateOf(rules, aliases, observations[i]) == Best(rules, aliases, observations, key);
  }

  /** Moved to the front, a maximum is kept. */
  lemma MovedToFront(rules: Rules, aliases: Aliases, a: seq<Observation>, key: string, k: nat)
    returns (b: seq<Observation>)
    requires IsMaximum(rules, aliases, a, key, k)
    ensures multiset(b) == multiset(a) && Best(rules, aliases, b, key) == CandidateOf(rules, aliases, a[k])
  {
    b := [a[k]] + (a[..k] + a[k + 1..]);
    assert a == a[..k] + [a[k]] + a[k + 1..];
    forall j | 0 <= j < |b| && Competes(rules, CandidateOf(rules, aliases, b[j]), key)
      ensures CandidateOf(rules, aliases, b[j]).value.score <= CandidateOf(rules, aliases, b[0]).value.score
    {
      assert b[j] == a[if j == 0 then k else if j <= k then j - 1 else j];
    }
    FirstMaximumIsBest(rules, aliases, b, key, 0);
  }

  /** A maximum of a permutation is one of the observations themselves. */
  lemma MaximumOfPermutation(rules: Rules, aliases: Aliases, a: seq<Observation>, b: seq<Observation>, key: string,
                             k: nat)
    returns (i: nat)
    requires multiset(a) == multiset(b) && IsMaximum(rules, aliases, b, key, k)
    ensures IsMaximum(rules, aliases, a, key, i) && a[i] == b[k]
  {
    assert b[k] in multiset(a);
    i :| 0 <= i < |a| && a[i] == b[k];
    forall j | 0 <= j < |a| && Competes(rules, CandidateOf(rules, aliases, a[j]), key)
      ensures CandidateOf(rules, aliases, a[j]).value.score <= CandidateOf(rules, aliases, a[i]).value.score
    {
      assert a[j] in multiset(b);
      var m :| 0 <= m < |b| && b[m] == a[j];
      assert Competes(rules, CandidateOf(rules, aliases, b[m]), key);
    }
  }

  lemma BestIsMaximum(rules: Rules, aliases: Aliases, observations: seq<Observation>, key: string) returns (k: nat)
    requires Best(rules, aliases, observations, key).Some?
    ensures IsMaximum(rules, aliases, observations, key, k)
    ensures CandidateOf(rules, aliases, observations[k]) == Best(rules, aliases, observations, key)
  {
    BestIsFirstMaximum(rules, aliases, observations, key);
    k :| 0 <= k < |observations| && IsFirstMaximum(rules, aliases, observations, key, k)
         && CandidateOf(rules, aliases, observations[k]) == Best(rules, aliases, observations, key);
  }

  lemma AgreedDirectionStays(rules: Rules, aliases: Aliases, a: seq<Observation>, b: seq<Observation>, key: string)
    requires multiset(a) == multiset(b) && Best(rules, aliases, a, key).Some? && TiesAgree(rules, aliases, a, key)
    ensures HasDirection(rules, aliases, b, key, Best(rules, aliases, a, key).value.direction)
  {
    var k := BestIsMaximum(rules, aliases, a, key);
    var there := MaximumOfPermutation(rules, aliases, b, a, key, k);
    BestIsFirstMaximum(rules, aliases, b, key);
    var m := BestIsMaximum(rules, aliases, b, key);
    var i := MaximumOfPermutation(rules, aliases, a, b, key, m);
  }

  /** Every order of the observations gives a key the same direction exactly when all its competitors with the
      highest rounded score have one direction. */
  lemma DirectionInvariantIff(rules: Rules, aliases: Aliases, a: seq<Observation>, key: string)
    requires Best(rules, aliases, a, key).Some?
    ensures (forall b :: multiset(b) == multiset(a) ==>
               HasDirection(rules, aliases, b, key, Best(rules, aliases, a, key).value.direction))
            <==> TiesAgree(rules, aliases, a, key)
  {
    var direction := Best(rules, aliases, a, key).value.direction;
    if TiesAgree(rules, aliases, a, key) {
      forall b | multiset(b) == multiset(a) ensures HasDirection(rules, aliases, b, key, direction) {
        AgreedDirectionStays(rules, aliases, a, b, key);
      }
    }
    if forall b :: multiset(b) == multiset(a) ==> HasDirection(rules, aliases, b, key, direction) {
      forall k: nat | IsMaximum(rules, aliases, a, key, k)
        ensures CandidateOf(rules, aliases, a[k]).value.direction == direction
      {
        var b := MovedToFront(rules, aliases, a, key, k);
        assert HasDirection(rules, aliases, b, key, direction);
      }
    }
  }

  /** Where the tied maxima agree, permuted observations are ranked with the same direction as well. */
  lemma RankedDirectionsAgree(rules: Rules, aliases: Aliases, a: seq<Observation>, b: seq<Observation>, limit: nat,
                              p: seq<Candidate>, q: seq<Candidate>, i: nat)
    requires multiset(a) == multiset(b) && UniqueSymbols(rules, aliases)
    requires IsRanking(rules, aliases, a, limit, p) && IsRanking(rules, aliases, b, limit, q)
    requires i < |p| && TiesAgree(rules, aliases, a, KeyOf(rules, p[i]))
    ensures i < |q| && q[i].direction == p[i].direction
  {
    RankingIsPermutationInvariant(rules, aliases, a, b, limit, p, q);
    assert KeyOf(rules, q[i]) == KeyOf(rules, p[i]);
    AgreedDirectionStays(rules, aliases, a, b, KeyOf(rules, p[i]));
  }

  const LONG_GOLD := Observation("XAU", "", "", Some(1.0), 0.0, "long")

  const SHORT_GOLD := Observation("XAU", "", "", Some(1.0), 0.0, "short")

  lemma GoldCandidates()
    ensures AliasesOf(PLAIN_RULES, [GOLD]) == map["XAU" := GOLD]
    ensures CandidateOf(PLAIN_RULES, map["XAU" := GOLD], LONG_GOLD) == Some(Candidate(GOLD, 1.0, "long", LONG_GOLD))
    ensures CandidateOf(PLAIN_RULES, map["XAU" := GOLD], SHORT_GOLD) == Some(Candidate(GOLD, 1.0, "short", SHORT_GOLD))
  {
    assert [GOLD][..0] == [];
  }

  /** It does happen that the order decides: two observations of one instrument with equal scores. */
  lemma DirectionDependsOnOrder()
    ensures var aliases := AliasesOf(PLAIN_RULES, [GOLD]);
            && multiset([LONG_GOLD, SHORT_GOLD]) == multiset([SHORT_GOLD, LONG_GOLD])
            && HasDirection(PLAIN_RULES, aliases, [LONG_GOLD, SHORT_GOLD], "XAU", "long")
            && HasDirection(PLAIN_RULES, aliases, [SHORT_GOLD, LONG_GOLD], "XAU", "short")
  {
    GoldCandidates();
    FirstMaximumIsBest(PLAIN_RULES, AliasesOf(PLAIN_RULES, [GOLD]), [LONG_GOLD, SHORT_GOLD], "XAU", 0);
    FirstMaximumIsBest(PLAIN_RULES, AliasesOf(PLAIN_RULES, [GOLD]), [SHORT_GOLD, LONG_GOLD], "XAU", 0);
    assert [SHORT_GOLD, LONG_GOLD] == [SHORT_GOLD] + [LONG_GOLD];
  }
}
