/**
 The locked trading signal of the dashboard (coinglass-dashboard.js): a BUY or SELL snapshot stays in force until
 it expires, its frame changes, or it is resolved.

 Numbers are exact reals; one that is not finite is None. Clock values are milliseconds.
 */
module SnapshotLock {
  import opened Common

  const FALLBACK_MS: int := 30 * 60 * 1000

  datatype Action = BUY | SELL | WAIT

  datatype Status = Unavailable | TargetHit | Invalidated | Expired | Locked | Active | Watch

  datatype Signal = Signal(asset: string, action: Action, entry: Option<real>, invalidation: Option<real>,
                           target: Option<real>, grids: seq<real>, evidence: string, status: Status,
                           snapshotAt: int, reassessAt: int, interval: string)

  /** What the live framework currently says. */
  datatype Candidate = Candidate(asset: string, action: Action, entry: Option<real>, invalidation: Option<real>,
                                 target: Option<real>, grids: seq<real>, evidence: string)

  datatype SetupDirection = BuySetup | SellSetup | NoSetup

  /** One refresh of the dashboard; `frames` are the selected intervals, `mark` the current price. */
  datatype Refresh = Refresh(candidate: Candidate, unavailable: bool, direction: SetupDirection, score: int,
                             mark: Option<real>, now: int, interval: string, frames: seq<string>, crypto: bool)

  // ---------------------------------------------------------------------
  // Lock duration
  // ---------------------------------------------------------------------

  predicate IsDigit(c: char) {
    '0' <= c <= '9'
  }

  /** The number that decimal digits denote. */
  function Digits(s: string): nat
    requires forall k :: 0 <= k < |s| ==> IsDigit(s[k])
  {
    if s == "" then 0
    else
      assert IsDigit(s[|s| - 1]);
      10 * Digits(s[..|s| - 1]) + (s[|s| - 1] as int - '0' as int)
  }

  function UnitMs(c: char): int {
    if c == 'm' then 60 * 1000
    else if c == 'h' then 60 * 60 * 1000
    else if c == 'd' then 24 * 60 * 60 * 1000
    else if c == 'w' then 7 * 24 * 60 * 60 * 1000
    else 0
  }

  const SPACES: set<int> := {0x20, 0xA0, 0x1680, 0x2028, 0x2029, 0x202F, 0x205F, 0x3000, 0xFEFF}

  /** The characters String.trim removes. */
  predicate IsSpace(c: char) {
    var code := c as int;
    0x09 <= code <= 0x0D || 0x2000 <= code <= 0x200A || code in SPACES
  }

  function TrimStart(s: string): string {
    if s != "" && IsSpace(s[0]) then TrimStart(s[1..]) else s
  }

  function TrimEnd(s: string): string {
    if s != "" && IsSpace(s[|s| - 1]) then TrimEnd(s[..|s| - 1]) else s
  }

  /** Lower case; no other character becomes a digit or a unit. */
  function LowerChar(c: char): char {
    if 'A' <= c <= 'Z' then (c as int - 'A' as int + 'a' as int) as char else c
  }

  function Lower(s: string): (l: string)
    ensures |l| == |s| && forall k :: 0 <= k < |s| ==> l[k] == LowerChar(s[k])
  {
    seq(|s|, k requires 0 <= k < |s| => LowerChar(s[k]))
  }

  /** A decimal amount followed by a unit. */
  predicate IsInterval(value: string) {
    |value| >= 2 && UnitMs(value[|value| - 1]) > 0 && forall k :: 0 <= k < |value| - 1 ==> IsDigit(value[k])
  }

  /** An amount and a unit, trimmed and in lower case; anything else, and zero, falls back. */
  function IntervalToMs(interval: string): int {
    var value := Lower(TrimStart(TrimEnd(interval)));
    if !IsInterval(value) || Digits(value[..|value| - 1]) == 0 then FALLBACK_MS
    else Digits(value[..|value| - 1]) * UnitMs(value[|value| - 1])
  }

  function SumMs(intervals: seq<string>): int {
    if intervals == [] then 0 else SumMs(intervals[..|intervals| - 1]) + IntervalToMs(intervals[|intervals| - 1])
  }

  function CombinedMs(intervals: seq<string>): int {
    if SumMs(intervals) > 0 then SumMs(intervals) else FALLBACK_MS
  }

  lemma IntervalIsPositive(interval: string)
    ensures IntervalToMs(interval) >= 60 * 1000
  {
    var value := Lower(TrimStart(TrimEnd(interval)));
    if IsInterval(value) {
      Multiple(Digits(value[..|value| - 1]), UnitMs(value[|value| - 1]));
    }
  }

  lemma Multiple(n: nat, unit: int)
    requires unit >= 0
    ensures n > 0 ==> n * unit >= unit
  {
  }

  /** Each selected frame contributes at least a minute to the lock. */
  lemma {:induction false} SumIsPositive(intervals: seq<string>)
    ensures SumMs(intervals) >= 60 * 1000 * |intervals|
  {
    if intervals != [] {
      SumIsPositive(intervals[..|intervals| - 1]);
      IntervalIsPositive(intervals[|intervals| - 1]);
    }
  }

  lemma CombinedIsPositive(intervals: seq<string>)
    ensures CombinedMs(intervals) >= 60 * 1000
  {
    SumIsPositive(intervals);
  }

  /** Decimal notation. */
  function Decimal(n: nat): string {
    var digit := [('0' as int + n % 10) as char];
    if n < 10 then digit else Decimal(n / 10) + digit
  }

  lemma {:induction false} DecimalReads(n: nat)
    ensures |Decimal(n)| > 0 && forall k :: 0 <= k < |Decimal(n)| ==> IsDigit(Decimal(n)[k])
    ensures Digits(Decimal(n)) == n
    decreases n
  {
    var digit := [('0' as int + n % 10) as char];
    if n < 10 {
      assert digit[..0] == "";
    } else {
      DecimalReads(n / 10);
      assert (Decimal(n / 10) + digit)[..|Decimal(n / 10)|] == Decimal(n / 10);
    }
  }

  /** The codes of the characters that count as space. */
  const BLANKS: set<int> :=
    {9, 10, 11, 12, 13, 32, 160, 5760, 8192, 8193, 8194, 8195, 8196, 8197, 8198, 8199, 8200, 8201, 8202, 8232, 8233,
     8239, 8287, 12288, 65279}

  ghost predicate IsBlank(s: string) {
    forall k :: 0 <= k < |s| ==> s[k] as int in BLANKS
  }

  lemma SpacesAreBlank(c: char)
    ensures IsSpace(c) <==> c as int in BLANKS
  {
  }

  lemma {:induction false} TrimEndSplits(s: string) returns (after: string)
    ensures s == TrimEnd(s) + after && IsBlank(after)
    ensures TrimEnd(s) != "" ==> TrimEnd(s)[|TrimEnd(s)| - 1] as int !in BLANKS
  {
    after := "";
    if s != "" {
      SpacesAreBlank(s[|s| - 1]);
      if IsSpace(s[|s| - 1]) {
        after := TrimEndSplits(s[..|s| - 1]);
        after := after + [s[|s| - 1]];
      }
    }
  }

  lemma {:induction false} TrimStartSplits(s: string) returns (before: string)
    ensures s == before + TrimStart(s) && IsBlank(before)
    ensures TrimStart(s) != "" ==> TrimStart(s)[0] as int !in BLANKS
  {
    before := "";
    if s != "" {
      SpacesAreBlank(s[0]);
      if IsSpace(s[0]) {
        before := TrimStartSplits(s[1..]);
        before := [s[0]] + before;
      }
    }
  }

  lemma {:induction false} TrimPadded(before: string, s: string, after: string)
    requires IsBlank(before) && IsBlank(after) && s != "" && !IsSpace(s[0]) && !IsSpace(s[|s| - 1])
    ensures TrimStart(TrimEnd(before + s + after)) == s
    decreases |before| + |after|
  {
    hide IsSpace;
    var padded := before + s + after;
    SpacesAreBlank(padded[0]);
    SpacesAreBlank(padded[|padded| - 1]);
    if after != "" {
      assert padded[..|padded| - 1] == before + s + after[..|after| - 1];
      TrimPadded(before, s, after[..|after| - 1]);
    } else {
      assert padded == before + s;
      assert padded[|padded| - 1] == s[|s| - 1];
      if before != "" {
        assert padded[1..] == before[1..] + s + "";
        TrimPadded(before[1..], s, "");
        assert (before[1..] + s + "")[|before[1..] + s| - 1] == s[|s| - 1];
      }
    }
  }

  /** The units, in either case: minutes, hours, days and weeks in milliseconds. */
  predicate IsUnit(c: char, ms: int) {
    || (c in "mM" && ms == 60_000) || (c in "hH" && ms == 3_600_000) || (c in "dD" && ms == 86_400_000)
    || (c in "wW" && ms == 604_800_000)
  }

  lemma UnitsAre(c: char, ms: int)
    ensures IsUnit(c, ms) <==> ms > 0 && UnitMs(LowerChar(c)) == ms
    ensures UnitMs(LowerChar(c)) >= 0 && (IsDigit(LowerChar(c)) <==> IsDigit(c)) && (IsDigit(c) ==> LowerChar(c) == c)
  {
  }

  /** A positive amount with a unit, in either case and with any space around it, is read back exactly. */
  lemma IntervalReadsBack(before: string, n: nat, unit: char, ms: int, after: string)
    requires n > 0 && IsUnit(unit, ms) && IsBlank(before) && IsBlank(after)
    ensures IntervalToMs(before + (Decimal(n) + [unit]) + after) == n * ms
  {
    hide UnitMs, IsSpace, Decimal, Digits;
    DecimalReads(n);
    UnitsAre(unit, ms);
    var s := Decimal(n) + [unit];
    SpacesAreBlank(s[0]);
    SpacesAreBlank(unit);
    TrimPadded(before, s, after);
    assert Lower(s)[..|Decimal(n)|] == Decimal(n);
  }

  /** Decimal digits and a unit. */
  ghost predicate IsAmount(core: string, ms: int) {
    && |core| >= 2 && (forall k :: 0 <= k < |core| - 1 ==> '0' <= core[k] <= '9') && IsUnit(core[|core| - 1], ms)
  }

  /** Whatever the interval, once the space around it is taken away it is a positive amount with a unit, or it falls
      back to half an hour. */
  lemma IntervalMeans(interval: string) returns (before: string, core: string, after: string)
    ensures interval == before + core + after && IsBlank(before) && IsBlank(after)
    ensures core != "" ==> core[0] as int !in BLANKS && core[|core| - 1] as int !in BLANKS
    ensures forall ms :: IsAmount(core, ms) && Digits(core[..|core| - 1]) > 0 ==>
              IntervalToMs(interval) == Digits(core[..|core| - 1]) * ms
    ensures (forall ms :: IsAmount(core, ms) ==> Digits(core[..|core| - 1]) == 0) ==>
              IntervalToMs(interval) == 1_800_000
  {
    after := TrimEndSplits(interval);
    before := TrimStartSplits(TrimEnd(interval));
    core := TrimStart(TrimEnd(interval));
    CoreMeans(interval, core);
  }

  lemma CoreMeans(interval: string, core: string)
    requires core == TrimStart(TrimEnd(interval))
    ensures forall ms :: IsAmount(core, ms) && Digits(core[..|core| - 1]) > 0 ==>
              IntervalToMs(interval) == Digits(core[..|core| - 1]) * ms
    ensures (forall ms :: IsAmount(core, ms) ==> Digits(core[..|core| - 1]) == 0) ==>
              IntervalToMs(interval) == 1_800_000
  {
    hide UnitMs, LowerChar, IsUnit, TrimStart, TrimEnd, Digits;
    if core != "" {
      var n, ms := |core| - 1, UnitMs(LowerChar(core[|core| - 1]));
      UnitsAre(core[n], ms);
      LowerKeepsDigits(core);
      forall ms' | IsUnit(core[n], ms') ensures ms' == ms {
        UnitsAre(core[n], ms');
      }
      if IsInterval(Lower(core)) {
        assert IsAmount(core, ms);
      }
    }
  }

  lemma LowerKeepsDigits(s: string)
    requires s != ""
    ensures (forall k :: 0 <= k < |s| - 1 ==> IsDigit(Lower(s)[k])) <==> forall k :: 0 <= k < |s| - 1 ==> IsDigit(s[k])
    ensures (forall k :: 0 <= k < |s| - 1 ==> IsDigit(s[k])) ==> Lower(s)[..|s| - 1] == s[..|s| - 1]
  {
    forall k | 0 <= k < |s| - 1
      ensures (IsDigit(Lower(s)[k]) <==> IsDigit(s[k])) && (IsDigit(s[k]) ==> Lower(s)[k] == s[k])
    {
      UnitsAre(s[k], 0);
    }
  }

  /** Intervals lock for their sum; no interval at all for half an hour. */
  lemma CombinedAdds(intervals: seq<string>, interval: string)
    ensures CombinedMs([]) == 1_800_000
    ensures CombinedMs(intervals + [interval])
            == (if intervals == [] then 0 else CombinedMs(intervals)) + IntervalToMs(interval)
  {
    SumIsPositive(intervals);
    IntervalIsPositive(interval);
    assert (intervals + [interval])[..|intervals|] == intervals;
  }

  // ---------------------------------------------------------------------
  // Resolution of a locked signal
  // ---------------------------------------------------------------------

  function Tolerance(invalidation: real, crypto: bool): (t: real)
    ensures t >= 0.0
  {
    if invalidation == 0.0 then 0.0 else Max(Abs(invalidation) * 0.00005, if crypto then 0.5 else 0.0)
  }

  predicate IsInvalidated(action: Action, mark: real, invalidation: Option<real>, crypto: bool) {
    invalidation.Some? &&
    match action
    case BUY => mark < invalidation.value - Tolerance(invalidation.value, crypto)
    case SELL => mark > invalidation.value + Tolerance(invalidation.value, crypto)
    case WAIT => false
  }

  predicate HitsTarget(action: Action, mark: real, target: Option<real>) {
    target.Some? &&
    match action
    case BUY => mark >= target.value
    case SELL => mark <= target.value
    case WAIT => false
  }

  function Resolution(l: Signal, mark: Option<real>, now: int, crypto: bool): Option<Status> {
    if l.reassessAt != 0 && now >= l.reassessAt then Some(Expired)
    else if mark.None? then None
    else if HitsTarget(l.action, mark.value, l.target) then Some(TargetHit)
    else if IsInvalidated(l.action, mark.value, l.invalidation, crypto) then Some(Invalidated)
    else None
  }

  predicate HasStructuralInvalidation(l: Signal, r: Refresh) {
    && r.mark.Some? && l.invalidation.Some? && IsInvalidated(l.action, r.mark.value, l.invalidation, r.crypto)
    && ((l.action == BUY && r.direction == SellSetup && r.score <= -3)
        || (l.action == SELL && r.direction == BuySetup && r.score >= 3))
  }

  /** The target lies on the winning side of the invalidation level. */
  predicate WellPlaced(l: Signal) {
    l.target.Some? && l.invalidation.Some? ==>
      if l.action == BUY then l.invalidation.value <= l.target.value else l.target.value <= l.invalidation.value
  }

  /** An invalidation is accepted only strictly beyond its level, on the losing side; with the target on the other
      side of that level a price never is both a target hit and an invalidation. */
  lemma InvalidationIsBeyond(l: Signal, mark: real, crypto: bool)
    requires IsInvalidated(l.action, mark, l.invalidation, crypto)
    ensures l.action == BUY ==> mark < l.invalidation.value
    ensures l.action == SELL ==> mark > l.invalidation.value
    ensures WellPlaced(l) ==> !HitsTarget(l.action, mark, l.target)
  {
  }

  /** How far beyond its level a price has to be: half a basis point of it, and on the crypto frames half a unit unless
      the level is zero. */
  predicate Breaks(distance: real, level: real, crypto: bool) {
    distance > 0.0 && distance > 0.00005 * Abs(level) && (crypto && level != 0.0 ==> distance > 0.5)
  }

  /** When a signal is resolved: by its time, else by a target reached, else by an accepted break of its level. */
  lemma ResolutionMeans(l: Signal, mark: Option<real>, now: int, crypto: bool)
    ensures var level, target := l.invalidation, l.target;
            Resolution(l, mark, now, crypto) ==
            if l.reassessAt != 0 && now >= l.reassessAt then Some(Expired)
            else if mark.None? then None
            else if target.Some? && ((l.action == BUY && mark.value >= target.value)
                                     || (l.action == SELL && mark.value <= target.value)) then Some(TargetHit)
            else if level.Some? && ((l.action == BUY && Breaks(level.value - mark.value, level.value, crypto))
                                    || (l.action == SELL && Breaks(mark.value - level.value, level.value, crypto)))
            then Some(Invalidated)
            else None
  {
  }

  /** A setup that turned strongly against the signal is structurally invalidated only beyond the level as well. */
  lemma StructuralMeans(l: Signal, r: Refresh)
    ensures HasStructuralInvalidation(l, r) <==>
              && r.mark.Some? && l.invalidation.Some?
              && ((l.action == BUY && r.direction == SellSetup && r.score <= -3
                   && Breaks(l.invalidation.value - r.mark.value, l.invalidation.value, r.crypto))
                  || (l.action == SELL && r.direction == BuySetup && r.score >= 3
                      && Breaks(r.mark.value - l.invalidation.value, l.invalidation.value, r.crypto)))
  {
  }

  /** Structural invalidation never fires unless the resolution has already spoken. */
  lemma StructuralIsSubsumed(l: Signal, r: Refresh)
    requires HasStructuralInvalidation(l, r)
    ensures Resolution(l, r.mark, r.now, r.crypto).Some?
    ensures r.now < l.reassessAt ==> Resolution(l, r.mark, r.now, r.crypto).value in [TargetHit, Invalidated]
  {
  }

  // ---------------------------------------------------------------------
  // One refresh
  // ---------------------------------------------------------------------

  function Snapshot(c: Candidate, r: Refresh, action: Action, entry: Option<real>, target: Option<real>,
                    status: Status): Signal {
    Signal(c.asset, action, entry, c.invalidation, target, c.grids, c.evidence, status,
           r.now, r.now + CombinedMs(r.frames), r.interval)
  }

  predicate SameFrame(l: Signal, r: Refresh) {
    l.asset == r.candidate.asset && l.interval == r.interval
  }

  predicate StillLocked(lock: Option<Signal>, r: Refresh) {
    lock.Some? && SameFrame(lock.value, r) && r.now < lock.value.reassessAt
  }

  /** A snapshot taken from the candidate; only a BUY or SELL is locked. */
  function Fresh(r: Refresh): (Option<Signal>, Signal) {
    var c := r.candidate;
    var s := Snapshot(c, r, c.action, c.entry, c.target, if c.action == WAIT then Watch else Active);
    (if c.action == WAIT then None else Some(s), s)
  }

  /** The lock after a refresh and the signal shown. */
  function Refreshed(lock: Option<Signal>, r: Refresh): (Option<Signal>, Signal) {
    if r.unavailable then (None, Snapshot(r.candidate, r, WAIT, None, None, Unavailable))
    else if StillLocked(lock, r) then
      var l := lock.value;
      var resolution := Resolution(l, r.mark, r.now, r.crypto);
      if resolution.Some? || HasStructuralInvalidation(l, r) then
        (None, l.(action := WAIT, evidence := r.candidate.evidence,
                  status := if resolution.Some? then resolution.value else Invalidated))
      else if l.action != WAIT then
        (lock, l.(evidence := r.candidate.evidence,
                  status := if r.candidate.action != l.action then Locked else Active))
      else Fresh(r)
    else Fresh(r)
  }

  function Run(refreshes: seq<Refresh>): Option<Signal> {
    if refreshes == [] then None else Refreshed(Run(refreshes[..|refreshes| - 1]), refreshes[|refreshes| - 1]).0
  }

  // ---------------------------------------------------------------------
  // The lock over whole runs
  // ---------------------------------------------------------------------

  /** A held lock is a BUY or SELL whose reassessment lies after its snapshot. */
  predicate SoundLock(lock: Option<Signal>) {
    lock.Some? ==> lock.value.action != WAIT && lock.value.reassessAt >= lock.value.snapshotAt + 60 * 1000
  }

  lemma RefreshedIsSound(lock: Option<Signal>, r: Refresh)
    requires SoundLock(lock)
    ensures SoundLock(Refreshed(lock, r).0)
  {
    CombinedIsPositive(r.frames);
  }

  /** In every run from an unlocked start a held lock is sound. */
  lemma {:induction false} RunIsSound(refreshes: seq<Refresh>)
    ensures SoundLock(Run(refreshes))
  {
    if refreshes != [] {
      RunIsSound(refreshes[..|refreshes| - 1]);
      RefreshedIsSound(Run(refreshes[..|refreshes| - 1]), refreshes[|refreshes| - 1]);
    }
  }

  /** The listed events that end a lock, on the inputs of a refresh. */
  predicate Ends(l: Signal, r: Refresh) {
    || r.unavailable || r.candidate.asset != l.asset || r.interval != l.interval || r.now >= l.reassessAt
    || (r.mark.Some? && HitsTarget(l.action, r.mark.value, l.target))
    || (r.mark.Some? && IsInvalidated(l.action, r.mark.value, l.invalidation, r.crypto))
  }

  /** The shown signal carries the levels of the lock. */
  predicate SameLevels(shown: Signal, l: Signal) {
    && shown.asset == l.asset && shown.action == l.action && shown.entry == l.entry
    && shown.invalidation == l.invalidation
    && shown.target == l.target && shown.grids == l.grids
    && shown.snapshotAt == l.snapshotAt && shown.reassessAt == l.reassessAt && shown.interval == l.interval
  }

  /** A refresh keeps the very same lock exactly when none of the listed events happens, and then the shown
      signal carries its levels, whatever the candidate says. */
  lemma LockHoldsIff(l: Signal, r: Refresh)
    requires SoundLock(Some(l))
    ensures Refreshed(Some(l), r).0 == Some(l) <==> !Ends(l, r)
    ensures !Ends(l, r) ==> SameLevels(Refreshed(Some(l), r).1, l)
  {
    if HasStructuralInvalidation(l, r) {
      StructuralIsSubsumed(l, r);
    }
    if r.now >= l.reassessAt && !r.unavailable {
      assert Refreshed(Some(l), r) == Fresh(r);
    }
  }

  /** None of the refreshes ends the lock. */
  ghost predicate Undisturbed(l: Signal, refreshes: seq<Refresh>) {
    forall k :: 0 <= k < |refreshes| ==> !Ends(l, refreshes[k])
  }

  /** From a held lock on, every signal shown keeps its levels until one of the listed events. */
  lemma {:induction false} LevelsAreFrozen(before: seq<Refresh>, more: seq<Refresh>, l: Signal)
    requires Run(before) == Some(l) && Undisturbed(l, more)
    ensures Run(before + more) == Some(l)
    ensures more != [] ==> SameLevels(Refreshed(Run((before + more)[..|before + more| - 1]), more[|more| - 1]).1, l)
    decreases |more|
  {
    if more == [] {
      assert before + more == before;
    } else {
      var init, r := more[..|more| - 1], more[|more| - 1];
      LevelsAreFrozen(before, init, l);
      RunIsSound(before);
      assert (before + more)[..|before + more| - 1] == before + init;
      LockHoldsIff(l, r);
    }
  }

  /** What a refresh can show: an expired resolution is never among it, and a resolved lock is shown as WAIT and
      released. */
  lemma ShownStatus(lock: Option<Signal>, r: Refresh)
    requires SoundLock(lock)
    ensures var (lock', shown) := Refreshed(lock, r);
            && shown.status != Expired
            && (shown.status in [Unavailable, TargetHit, Invalidated] ==> shown.action == WAIT && lock'.None?)
            && (shown.status in [Locked, Active] ==>
                  && shown.action != WAIT && lock'.Some?
                  && SameLevels(shown, lock'.value))
  {
  }

  /** A signal shown for the first time: the candidate's, from now for the duration of the frames. */
  predicate IsTaken(shown: Signal, r: Refresh) {
    && shown.asset == r.candidate.asset && shown.action == r.candidate.action && shown.entry == r.candidate.entry
    && shown.invalidation == r.candidate.invalidation && shown.target == r.candidate.target
    && shown.grids == r.candidate.grids && shown.evidence == r.candidate.evidence
    && shown.status == (if r.candidate.action == WAIT then Watch else Active)
    && shown.snapshotAt == r.now && shown.reassessAt == r.now + CombinedMs(r.frames) && shown.interval == r.interval
  }

  /** What a refresh does to the lock and what it shows: nothing to trade while production is unavailable; the lock
      itself, called off, when it is resolved; the lock with what is live now; or else the candidate, locked unless it
      says to wait. */
  lemma RefreshMeans(lock: Option<Signal>, r: Refresh)
    requires SoundLock(lock)
    ensures var (lock', shown) := Refreshed(lock, r);
            var resolution := if lock.Some? then Resolution(lock.value, r.mark, r.now, r.crypto) else None;
            if r.unavailable then
              && lock' == None && shown.action == WAIT && shown.entry == None && shown.target == None
              && shown.status == Unavailable && shown.snapshotAt == r.now
              && shown.reassessAt == r.now + CombinedMs(r.frames)
            else if lock.None? || lock.value.asset != r.candidate.asset || lock.value.interval != r.interval
                    || r.now >= lock.value.reassessAt then
              IsTaken(shown, r) && lock' == if shown.action == WAIT then None else Some(shown)
            else if resolution.Some? then
              && lock' == None
              && shown == lock.value.(action := WAIT, evidence := r.candidate.evidence, status := resolution.value)
            else
              && lock' == lock
              && shown == lock.value.(evidence := r.candidate.evidence,
                                      status := if r.candidate.action == lock.value.action then Active else Locked)
  {
    if lock.Some? && HasStructuralInvalidation(lock.value, r) {
      StructuralIsSubsumed(lock.value, r);
    }
  }

  lemma RunNext(before: seq<Refresh>, r: Refresh)
    ensures Run(before + [r]) == Refreshed(Run(before), r).0
  {
    assert (before + [r])[..|before|] == before;
  }

  /** From an unlocked dashboard the first BUY or SELL candidate is locked as it is, and stays locked until one of the
      listed events. */
  lemma FirstSignalLocks(before: seq<Refresh>, r: Refresh, more: seq<Refresh>, l: Signal)
    requires Run(before) == None && !r.unavailable && r.candidate.action != WAIT && IsTaken(l, r)
    requires Undisturbed(l, more)
    ensures Run(before + [r] + more) == Some(l)
  {
    RunNext(before, r);
    RefreshMeans(None, r);
    LevelsAreFrozen(before + [r], more, l);
  }

  // ---------------------------------------------------------------------
  // The dashboard state
  // ---------------------------------------------------------------------

  class Dashboard {
    var lockedSignal: Option<Signal>

    constructor ()
      ensures lockedSignal == None
    {
      lockedSignal := None;
    }

    method SnapshotLockedSignal(r: Refresh) returns (shown: Signal)
      modifies this
      ensures (lockedSignal, shown) == Refreshed(old(lockedSignal), r)
    {
      if r.unavailable {
        lockedSignal := None;
        return Snapshot(r.candidate, r, WAIT, None, None, Unavailable);
      }
      var locked := lockedSignal;
      var sameAsset := locked.Some? && locked.value.asset == r.candidate.asset;
      var sameFrame := sameAsset && locked.value.interval == r.interval;
      var stillLocked := sameFrame && r.now < locked.value.reassessAt;
      if sameAsset && !sameFrame {
        lockedSignal := None;
      }
      var resolution := if stillLocked then Resolution(locked.value, r.mark, r.now, r.crypto) else None;
      var invalidated := stillLocked && (resolution == Some(Invalidated) || HasStructuralInvalidation(locked.value, r));
      if resolution.Some? || invalidated {
        var status := if resolution.Some? then resolution.value else Invalidated;
        lockedSignal := None;
        return locked.value.(action := WAIT, evidence := r.candidate.evidence, status := status);
      }
      if stillLocked && locked.value.action != WAIT {
        var status := if r.candidate.action != locked.value.action then Locked else Active;
        return locked.value.(evidence := r.candidate.evidence, status := status);
      }
      var c := r.candidate;
      shown := Snapshot(c, r, c.action, c.entry, c.target, if c.action == WAIT then Watch else Active);
      lockedSignal := if shown.action == WAIT then None else Some(shown);
    }
  }
}
