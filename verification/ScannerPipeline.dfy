/**
 The staged scanner run and its publication gate (ftmo_scanner.py, `FTMOScannerPipeline.run`, `publication_allowed`).

 The providers, the publisher and the normalisation of text are parameters; a provider or publisher always does the
 same with the same argument. The session snapshot added to each analysis is not part of this model.
 */
module ScannerPipeline {
  import opened Common
  import opened Scanner
  import opened WorkerPool

  // ---------------------------------------------------------------------
  // The publication gate
  // ---------------------------------------------------------------------

  /** The number of orders placed, if it can be read as a whole number. */
  datatype Orders = Whole(n: int) | Unreadable

  /** What an analysis says about execution: nothing, two fields, or something that is not a mapping. */
  datatype Execution = Silent | Stated(enabled: bool, orders: Orders) | NotAMapping

  /** Absent texts are empty; an absent symbol is told from an empty one. */
  datatype Analysis = Analysis(symbol: Option<string>, decision: string, status: string, freshness: string,
                               dataStatus: string, publicationValid: bool, execution: Execution)

  datatype Text = Text(upper: string -> string, fold: string -> string)

  datatype Verdict = Pass | Block | Raise

  function OrElse(s: string, default: string): string {
    if s == "" then default else s
  }

  /** An actionable, confirmed and fresh analysis that is not withdrawn. */
  predicate Actionable(text: Text, a: Analysis) {
    && text.upper(OrElse(a.decision, "NO_TRADE")) in ["BUY_WATCH", "SELL_WATCH"]
    && text.fold(a.status) == "confirmed"
    && text.fold(OrElse(OrElse(a.freshness, a.dataStatus), "fresh")) !in ["stale", "expired", "invalid"]
    && a.publicationValid
  }

  /** The gate looks at the execution only after everything else passed, and raises when it cannot read it. */
  function Gate(text: Text, a: Analysis): Verdict {
    if !Actionable(text, a) then Block
    else
      match a.execution
      case Silent => Pass
      case NotAMapping => Raise
      case Stated(enabled, orders) =>
        if enabled then Block else if orders.Unreadable? then Raise else if orders.n == 0 then Pass else Block
  }

  /** What may be published: a watch on either side that is confirmed, not stale, not withdrawn, and of which no
      execution is reported. */
  lemma GateMeans(text: Text, a: Analysis, freshness: string)
    requires freshness == if a.freshness != "" then a.freshness
                          else if a.dataStatus != "" then a.dataStatus else "fresh"
    ensures var decision := text.upper(if a.decision != "" then a.decision else "NO_TRADE");
            var actionable := && (decision == "BUY_WATCH" || decision == "SELL_WATCH")
                              && text.fold(a.status) == "confirmed" && text.fold(freshness) != "stale"
                              && text.fold(freshness) != "expired" && text.fold(freshness) != "invalid"
                              && a.publicationValid;
            && (Actionable(text, a) <==> actionable)
            && (Gate(text, a) == Pass
                <==> actionable && (a.execution == Silent || a.execution == Stated(false, Whole(0))))
            && (Gate(text, a) == Raise
                <==> actionable && (a.execution == NotAMapping || a.execution == Stated(false, Unreadable)))
  {
  }

  // ---------------------------------------------------------------------
  // Analysis and publication
  // ---------------------------------------------------------------------

  function Shortlist(ranked: seq<Candidate>, deepLimit: nat): seq<Candidate> {
    if deepLimit < |ranked| then ranked[..deepLimit] else ranked
  }

  /** An analysis that names no symbol is for its candidate. */
  function Named(a: Analysis, c: Candidate): Analysis {
    if a.symbol.None? then a.(symbol := Some(c.instrument.ftmoSymbol)) else a
  }

  /** The callback of the analysis workers: it raises when the provider does and always returns something else. */
  function Analyzed(provide: Candidate -> Option<Analysis>): Callback<Candidate, Analysis> {
    (c: Candidate) => if provide(c).None? then Raised else Returned(Named(provide(c).value, c))
  }

  function BySymbol(shortlist: seq<Candidate>): map<string, Candidate> {
    if shortlist == [] then map[]
    else
      var c := shortlist[|shortlist| - 1];
      BySymbol(shortlist[..|shortlist| - 1])[c.instrument.ftmoSymbol := c]
  }

  function SymbolOf(a: Analysis): string {
    if a.symbol.None? then "" else a.symbol.value
  }

  datatype Publication = Publication(instrument: Instrument, analysis: Analysis)

  /** What becomes of an analysis: it is published, suppressed (nothing), or the run raises. */
  function FateOf(text: Text, publishes: Publication -> bool, bySymbol: map<string, Candidate>, a: Analysis)
    : Outcome<Publication>
  {
    if SymbolOf(a) !in bySymbol || Gate(text, a) == Block then Nothing
    else
      var p := Publication(bySymbol[SymbolOf(a)].instrument, a);
      if Gate(text, a) == Pass && publishes(p) then Returned(p) else Raised
  }

  function Fate(text: Text, publishes: Publication -> bool, bySymbol: map<string, Candidate>)
    : Callback<Analysis, Publication>
  {
    (a: Analysis) => FateOf(text, publishes, bySymbol, a)
  }

  /** The first analysis at which the run raises; the number of analyses when there is none. */
  function FirstRaised(f: Callback<Analysis, Publication>, analyses: seq<Analysis>): (n: nat)
    ensures n <= |analyses| && (forall k :: 0 <= k < n ==> !f(analyses[k]).Raised?)
    ensures n < |analyses| ==> f(analyses[n]).Raised?
  {
    if analyses == [] then 0 else if f(analyses[0]).Raised? then 0 else 1 + FirstRaised(f, analyses[1..])
  }

  datatype Counts = Counts(published: nat, suppressed: nat)

  /** The counts of a run that does not raise: whatever is not published is suppressed, failures included. */
  function Tally(f: Callback<Analysis, Publication>, analyses: seq<Analysis>, failures: nat): (counts: Option<Counts>)
  {
    if FirstRaised(f, analyses) < |analyses| then None
    else
      OutcomesPartition(f, analyses);
      Some(Counts(|Values(f, analyses)|, |analyses| + failures - |Values(f, analyses)|))
  }

  lemma RaisedStep(f: Callback<Analysis, Publication>, analyses: seq<Analysis>, n: nat)
    requires n < |analyses| && n <= FirstRaised(f, analyses)
    ensures FirstRaised(f, analyses) == n <==> f(analyses[n]).Raised?
  {
  }

  lemma ValuesStep(f: Callback<Analysis, Publication>, analyses: seq<Analysis>, n: nat)
    requires n < |analyses|
    ensures Values(f, analyses[..n + 1])
            == Values(f, analyses[..n]) + if f(analyses[n]).Returned? then [f(analyses[n]).value] else []
  {
    assert analyses[..n + 1] == analyses[..n] + [analyses[n]];
    ValuesSnoc(f, analyses[..n], analyses[n]);
  }

  /** One analysis: suppressed when its symbol is not shortlisted or the gate blocks it, published otherwise. */
  method Handle(text: Text, publishes: Publication -> bool, bySymbol: map<string, Candidate>, a: Analysis)
    returns (outcome: Outcome<Publication>)
    ensures outcome == FateOf(text, publishes, bySymbol, a)
  {
    if SymbolOf(a) !in bySymbol {
      return Nothing;
    }
    var candidate := bySymbol[SymbolOf(a)];
    match Gate(text, a) {
      case Raise => outcome := Raised;
      case Block => outcome := Nothing;
      case Pass =>
        var p := Publication(candidate.instrument, a);
        outcome := if publishes(p) then Returned(p) else Raised;
    }
  }

  /** Publishes the analyses that pass, in order, up to the first that raises. */
  method PublishAll(text: Text, publishes: Publication -> bool, shortlist: seq<Candidate>, analyses: seq<Analysis>,
                    failures: nat)
    returns (counts: Option<Counts>, sent: seq<Publication>)
    ensures var f := Fate(text, publishes, BySymbol(shortlist));
            && counts == Tally(f, analyses, failures) && sent == Values(f, analyses[..FirstRaised(f, analyses)])
  {
    var bySymbol := BySymbol(shortlist);
    ghost var f := Fate(text, publishes, bySymbol);
    var published, suppressed := 0, 0;
    sent := [];
    for n := 0 to |analyses|
      invariant sent == Values(f, analyses[..n]) && published == |sent| && published + suppressed == n
      invariant n <= FirstRaised(f, analyses)
    {
      RaisedStep(f, analyses, n);
      ValuesStep(f, analyses, n);
      var outcome := Handle(text, publishes, bySymbol, analyses[n]);
      match outcome {
        case Raised => return None, sent;
        case Nothing => suppressed := suppressed + 1;
        case Returned(p) => sent, published := sent + [p], published + 1;
      }
    }
    assert analyses[..|analyses|] == analyses;
    counts := Some(Counts(published, suppressed + failures));
  }

  // ---------------------------------------------------------------------
  // The whole run
  // ---------------------------------------------------------------------

  /** What a finished schedule of the observation workers collected. */
  ghost predicate Collects(observe: Callback<Instrument, Observation>, instruments: seq<Instrument>,
                           concurrency: nat, observations: seq<Observation>) {
    exists steps :: Finished(Run(observe, instruments, concurrency, steps))
                    && Run(observe, instruments, concurrency, steps).results == observations
  }

  lemma CollectionsArePermutations(observe: Callback<Instrument, Observation>, instruments: seq<Instrument>,
                                   concurrency: nat, a: seq<Observation>)
    requires concurrency > 0 && Collects(observe, instruments, concurrency, a)
    ensures multiset(a) == multiset(Values(observe, instruments))
  {
    var steps :| Finished(Run(observe, instruments, concurrency, steps))
                 && Run(observe, instruments, concurrency, steps).results == a;
    ScheduleIndependent(observe, instruments, concurrency, steps);
  }

  /** With pure providers, the schedule of the observation workers never changes which symbols are shortlisted,
      in which order, or with which scores. */
  lemma ShortlistIsScheduleIndependent(
    rules: Rules, instruments: seq<Instrument>, observe: Callback<Instrument, Observation>,
    concurrency: nat, candidateLimit: nat, deepLimit: nat,
    a: seq<Observation>, b: seq<Observation>, p: seq<Candidate>, q: seq<Candidate>)
    requires concurrency > 0 && UniqueSymbols(rules, AliasesOf(rules, instruments))
    requires Collects(observe, instruments, concurrency, a) && Collects(observe, instruments, concurrency, b)
    requires IsRanking(rules, AliasesOf(rules, instruments), a, candidateLimit, p)
    requires IsRanking(rules, AliasesOf(rules, instruments), b, candidateLimit, q)
    ensures var s, t := Shortlist(p, deepLimit), Shortlist(q, deepLimit);
            |s| == |t| && forall j :: 0 <= j < |s| ==> SameRank(s[j], t[j])
  {
    CollectionsArePermutations(observe, instruments, concurrency, a);
    CollectionsArePermutations(observe, instruments, concurrency, b);
    RankingIsPermutationInvariant(rules, AliasesOf(rules, instruments), a, b, candidateLimit, p, q);
  }

  lemma {:induction false} NothingVanishes(provide: Candidate -> Option<Analysis>, items: seq<Candidate>)
    ensures CountBy(items, Vanishes(Analyzed(provide))) == 0
  {
    if items != [] {
      NothingVanishes(provide, items[..|items| - 1]);
    }
  }

  /** Within all three limits, every shortlisted instrument is accounted for: under every schedule of the analysis
      workers, a run that does not raise has published or suppressed as many analyses as were shortlisted. It raises
      exactly when the fate of some analysis is to raise. */
  lemma ShortlistIsAccounted(rules: Rules, instruments: seq<Instrument>, observations: seq<Observation>,
                             candidateLimit: nat, deepLimit: nat, ranked: seq<Candidate>,
                             provide: Candidate -> Option<Analysis>, concurrency: nat, steps: seq<Step>,
                             f: Callback<Analysis, Publication>)
    requires IsRanking(rules, AliasesOf(rules, instruments), observations, candidateLimit, ranked)
    requires concurrency > 0
    requires Finished(Run(Analyzed(provide), Shortlist(ranked, deepLimit), concurrency, steps))
    ensures var shortlist := Shortlist(ranked, deepLimit);
            var pool := Run(Analyzed(provide), shortlist, concurrency, steps);
            var counts := Tally(f, pool.results, pool.failures);
            && |shortlist| <= candidateLimit && |shortlist| <= deepLimit && |shortlist| <= |instruments|
            && shortlist <= ranked && (|ranked| <= deepLimit ==> shortlist == ranked)
            && (|ranked| > deepLimit ==> |shortlist| == deepLimit)
            && (counts.None? <==> exists a :: a in pool.results && f(a).Raised?)
            && (counts.Some? ==> counts.value.published + counts.value.suppressed == |shortlist|)
  {
    var shortlist := Shortlist(ranked, deepLimit);
    var pool := Run(Analyzed(provide), shortlist, concurrency, steps);
    RankingFitsUniverse(rules, instruments, observations, candidateLimit, ranked);
    ScheduleIndependent(Analyzed(provide), shortlist, concurrency, steps);
    NothingVanishes(provide, shortlist);
    var n := FirstRaised(f, pool.results);
    if n < |pool.results| {
      assert pool.results[n] in pool.results;
    }
  }

  lemma RaisedInPermutation(f: Callback<Analysis, Publication>, a: seq<Analysis>, b: seq<Analysis>)
    requires multiset(a) == multiset(b)
    ensures FirstRaised(f, a) < |a| ==> FirstRaised(f, b) < |b|
  {
    var n := FirstRaised(f, a);
    if n < |a| {
      assert a[n] in multiset(b);
      var k :| 0 <= k < |b| && b[k] == a[n];
    }
  }

  lemma PermutationLength<T>(a: seq<T>, b: seq<T>)
    requires multiset(a) == multiset(b)
    ensures |a| == |b|
  {
    assert |multiset(a)| == |a| && |multiset(b)| == |b|;
  }

  lemma TallyOfPermutation(f: Callback<Analysis, Publication>, a: seq<Analysis>, b: seq<Analysis>, failures: nat)
    requires multiset(a) == multiset(b)
    ensures Tally(f, a, failures) == Tally(f, b, failures) && multiset(Values(f, a)) == multiset(Values(f, b))
  {
    ValuesOfPermutation(f, a, b);
    RaisedInPermutation(f, a, b);
    RaisedInPermutation(f, b, a);
    PermutationLength(a, b);
    PermutationLength(Values(f, a), Values(f, b));
  }

  /** The schedule of the analysis workers decides neither whether the run raises nor the counts, and when it does
      not raise, the same publications are sent in some order. */
  lemma PublicationsAreScheduleIndependent(provide: Candidate -> Option<Analysis>, shortlist: seq<Candidate>,
                                           concurrency: nat, s: seq<Step>, t: seq<Step>,
                                           f: Callback<Analysis, Publication>)
    requires concurrency > 0
    requires Finished(Run(Analyzed(provide), shortlist, concurrency, s))
    requires Finished(Run(Analyzed(provide), shortlist, concurrency, t))
    ensures var p, q := Run(Analyzed(provide), shortlist, concurrency, s),
                        Run(Analyzed(provide), shortlist, concurrency, t);
            && Tally(f, p.results, p.failures) == Tally(f, q.results, q.failures)
            && multiset(Values(f, p.results)) == multiset(Values(f, q.results))
  {
    var p, q := Run(Analyzed(provide), shortlist, concurrency, s), Run(Analyzed(provide), shortlist, concurrency, t);
    ScheduleIndependent(Analyzed(provide), shortlist, concurrency, s);
    ScheduleIndependent(Analyzed(provide), shortlist, concurrency, t);
    TallyOfPermutation(f, p.results, q.results, p.failures);
  }

  lemma {:induction false} BySymbolResolves(shortlist: seq<Candidate>, symbol: string)
    requires symbol in BySymbol(shortlist)
    ensures BySymbol(shortlist)[symbol] in shortlist
    ensures BySymbol(shortlist)[symbol].instrument.ftmoSymbol == symbol
  {
    var n := |shortlist| - 1;
    if shortlist[n].instrument.ftmoSymbol != symbol {
      BySymbolResolves(shortlist[..n], symbol);
    }
  }

  lemma {:induction false} ValueHasSource<T, R>(f: Callback<T, R>, items: seq<T>, value: R) returns (item: T)
    requires value in Values(f, items)
    ensures item in items && f(item) == Returned(value)
  {
    var n := |items| - 1;
    if f(items[n]) == Returned(value) {
      item := items[n];
    } else {
      item := ValueHasSource(f, items[..n], value);
    }
  }

  /** A score alone never becomes a publication: whatever is sent is an analysis the provider gave for a shortlisted
      candidate, it names the enabled instrument it is published for, it is actionable, and it reports no execution. */
  lemma OnlyConfirmedIsPublished(rules: Rules, instruments: seq<Instrument>, observations: seq<Observation>,
                                 candidateLimit: nat, ranked: seq<Candidate>, deepLimit: nat,
                                 provide: Candidate -> Option<Analysis>, concurrency: nat, steps: seq<Step>,
                                 text: Text, publishes: Publication -> bool, p: Publication)
    returns (c: Candidate)
    requires IsRanking(rules, AliasesOf(rules, instruments), observations, candidateLimit, ranked)
    requires concurrency > 0
    requires Finished(Run(Analyzed(provide), Shortlist(ranked, deepLimit), concurrency, steps))
    requires var shortlist := Shortlist(ranked, deepLimit);
             p in Values(Fate(text, publishes, BySymbol(shortlist)),
                         Run(Analyzed(provide), shortlist, concurrency, steps).results)
    ensures c in Shortlist(ranked, deepLimit) && provide(c).Some?
    ensures p.analysis == if provide(c).value.symbol.Some? then provide(c).value
                          else provide(c).value.(symbol := Some(c.instrument.ftmoSymbol))
    ensures p.instrument in instruments
    ensures p.analysis.symbol == Some(p.instrument.ftmoSymbol) && publishes(p)
    ensures Actionable(text, p.analysis) && (p.analysis.execution in [Silent, Stated(false, Whole(0))])
  {
    var shortlist := Shortlist(ranked, deepLimit);
    var results := Run(Analyzed(provide), shortlist, concurrency, steps).results;
    var a := ValueHasSource(Fate(text, publishes, BySymbol(shortlist)), results, p);
    ScheduleIndependent(Analyzed(provide), shortlist, concurrency, steps);
    assert a in multiset(Values(Analyzed(provide), shortlist));
    c := ValueHasSource(Analyzed(provide), shortlist, a);
    BySymbolResolves(shortlist, SymbolOf(a));
    var d := BySymbol(shortlist)[SymbolOf(a)];
    var k :| 0 <= k < |shortlist| && shortlist[k] == d;
    RankedAreAdmissible(rules, instruments, observations, candidateLimit, ranked, k);
  }

  lemma {:induction false} SourceHasValue<T, R>(f: Callback<T, R>, items: seq<T>, item: T)
    requires item in items && f(item).Returned?
    ensures f(item).value in Values(f, items)
  {
    var n := |items| - 1;
    if item != items[n] {
      var k :| 0 <= k < |items| && items[k] == item;
      assert items[..n][k] == item;
      SourceHasValue(f, items[..n], item);
    }
  }

  lemma {:induction false} ShortlistedResolve(shortlist: seq<Candidate>, k: nat)
    requires k < |shortlist|
    requires forall i, j :: 0 <= i < j < |shortlist| ==>
               shortlist[i].instrument.ftmoSymbol != shortlist[j].instrument.ftmoSymbol
    ensures var symbol := shortlist[k].instrument.ftmoSymbol;
            symbol in BySymbol(shortlist) && BySymbol(shortlist)[symbol] == shortlist[k]
  {
    var n := |shortlist| - 1;
    if k < n {
      ShortlistedResolve(shortlist[..n], k);
    }
  }

  lemma ShortlistIsDistinct(rules: Rules, instruments: seq<Instrument>, observations: seq<Observation>,
                            candidateLimit: nat, ranked: seq<Candidate>, deepLimit: nat)
    requires IsRanking(rules, AliasesOf(rules, instruments), observations, candidateLimit, ranked)
    ensures var shortlist := Shortlist(ranked, deepLimit);
            forall i, j :: 0 <= i < j < |shortlist| ==>
              shortlist[i].instrument.ftmoSymbol != shortlist[j].instrument.ftmoSymbol
  {
    var shortlist := Shortlist(ranked, deepLimit);
    forall i, j | 0 <= i < j < |shortlist|
      ensures shortlist[i].instrument.ftmoSymbol != shortlist[j].instrument.ftmoSymbol
    {
      RankedInstrumentsAreDistinct(rules, AliasesOf(rules, instruments), observations, candidateLimit, ranked, i, j);
    }
  }

  /** Whatever the schedule, the analysis of every candidate that has one is collected. */
  lemma AnalysisIsCollected(provide: Candidate -> Option<Analysis>, shortlist: seq<Candidate>, concurrency: nat,
                            steps: seq<Step>, c: Candidate, a: Analysis)
    requires concurrency > 0 && Finished(Run(Analyzed(provide), shortlist, concurrency, steps))
    requires c in shortlist && provide(c).Some? && a == Named(provide(c).value, c)
    ensures a in Run(Analyzed(provide), shortlist, concurrency, steps).results
  {
    assert Analyzed(provide)(c) == Returned(a);
    SourceHasValue(Analyzed(provide), shortlist, c);
    ScheduleIndependent(Analyzed(provide), shortlist, concurrency, steps);
    assert a in multiset(Run(Analyzed(provide), shortlist, concurrency, steps).results);
  }

  lemma FitHasFate(text: Text, publishes: Publication -> bool, shortlist: seq<Candidate>, k: nat, p: Publication)
    requires k < |shortlist| && p.instrument == shortlist[k].instrument
    requires p.analysis.symbol == Some(p.instrument.ftmoSymbol)
    requires forall i, j :: 0 <= i < j < |shortlist| ==>
               shortlist[i].instrument.ftmoSymbol != shortlist[j].instrument.ftmoSymbol
    requires Gate(text, p.analysis) == Pass && publishes(p)
    ensures FateOf(text, publishes, BySymbol(shortlist), p.analysis) == Returned(p)
  {
    hide Gate, BySymbol;
    ShortlistedResolve(shortlist, k);
  }

  /** Nothing that may be published is withheld: under every schedule of the analysis workers, the analysis of a
      shortlisted candidate is published for its instrument when it names that or nothing, the gate lets it pass and the
      publisher takes it, unless the run raises at some analysis. */
  lemma FitIsPublished(rules: Rules, instruments: seq<Instrument>, observations: seq<Observation>,
                       candidateLimit: nat, ranked: seq<Candidate>, deepLimit: nat,
                       provide: Candidate -> Option<Analysis>, concurrency: nat, steps: seq<Step>,
                       text: Text, publishes: Publication -> bool, k: nat, p: Publication)
    requires IsRanking(rules, AliasesOf(rules, instruments), observations, candidateLimit, ranked)
    requires concurrency > 0 && k < |ranked| && k < deepLimit
    requires Finished(Run(Analyzed(provide), Shortlist(ranked, deepLimit), concurrency, steps))
    requires provide(ranked[k]).Some?
    requires var a, symbol := provide(ranked[k]).value, ranked[k].instrument.ftmoSymbol;
             && (a.symbol == None || a.symbol == Some(symbol))
             && p == Publication(ranked[k].instrument, a.(symbol := Some(symbol)))
    requires Gate(text, p.analysis) == Pass && publishes(p)
    ensures p in Values(Fate(text, publishes, BySymbol(Shortlist(ranked, deepLimit))),
                        Run(Analyzed(provide), Shortlist(ranked, deepLimit), concurrency, steps).results)
  {
    hide Run, Finished, Gate, BySymbol, FateOf, IsRanking, Values, Analyzed, AliasesOf;
    var shortlist := Shortlist(ranked, deepLimit);
    assert shortlist[k] == ranked[k];
    AnalysisIsCollected(provide, shortlist, concurrency, steps, ranked[k], p.analysis);
    ShortlistIsDistinct(rules, instruments, observations, candidateLimit, ranked, deepLimit);
    FitHasFate(text, publishes, shortlist, k, p);
    SourceHasValue(Fate(text, publishes, BySymbol(shortlist)),
                   Run(Analyzed(provide), shortlist, concurrency, steps).results, p.analysis);
  }

  /** An analysis whose symbol is not shortlisted is suppressed, and so is one the gate blocks; the run raises when the
      gate or the publisher does, at a symbol that is shortlisted. */
  lemma FateMeans(text: Text, publishes: Publication -> bool, shortlist: seq<Candidate>, a: Analysis, symbol: string)
    requires forall i, j :: 0 <= i < j < |shortlist| ==>
               shortlist[i].instrument.ftmoSymbol != shortlist[j].instrument.ftmoSymbol
    requires symbol == if a.symbol.Some? then a.symbol.value else ""
    ensures (forall c :: c in shortlist ==> c.instrument.ftmoSymbol != symbol) ==>
              FateOf(text, publishes, BySymbol(shortlist), a) == Nothing
    ensures forall c :: c in shortlist && c.instrument.ftmoSymbol == symbol ==>
              FateOf(text, publishes, BySymbol(shortlist), a) ==
              match Gate(text, a)
              case Block => Nothing
              case Raise => Raised
              case Pass =>
                if publishes(Publication(c.instrument, a)) then Returned(Publication(c.instrument, a)) else Raised
  {
    hide Gate, BySymbol;
    if symbol in BySymbol(shortlist) {
      BySymbolResolves(shortlist, symbol);
    }
    forall c | c in shortlist && c.instrument.ftmoSymbol == symbol
      ensures symbol in BySymbol(shortlist) && BySymbol(shortlist)[symbol] == c
    {
      var k :| 0 <= k < |shortlist| && shortlist[k] == c;
      ShortlistedResolve(shortlist, k);
    }
  }

  /** The counts of a run: published is what was sent; suppressed is what vanished, and what failed before. */
  lemma TallyMeans(f: Callback<Analysis, Publication>, analyses: seq<Analysis>, failures: nat)
    ensures var counts := Tally(f, analyses, failures);
            && (counts.None? <==> exists a :: a in analyses && f(a).Raised?)
            && (counts.Some? ==>
                  && counts.value.published == |Values(f, analyses)|
                  && counts.value.suppressed == CountBy(analyses, Vanishes(f)) + failures)
  {
    OutcomesPartition(f, analyses);
    var n := FirstRaised(f, analyses);
    if n < |analyses| {
      assert analyses[n] in analyses;
    } else {
      NoneRaised(f, analyses);
    }
  }

  lemma {:induction false} NoneRaised(f: Callback<Analysis, Publication>, analyses: seq<Analysis>)
    requires forall k :: 0 <= k < |analyses| ==> !f(analyses[k]).Raised?
    ensures CountBy(analyses, Raises(f)) == 0
  {
    if analyses != [] {
      NoneRaised(f, analyses[..|analyses| - 1]);
    }
  }
}
