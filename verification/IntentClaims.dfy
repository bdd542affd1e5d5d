/**
 The claim protocol of shadow intents (ftmo_execution.py on the document store of persistence.py).

 Any number of processes run any number of evaluations and reconciliation marks. Each process has its own lock;
 all share one store with an atomic compare-and-set `put`. The machine interleaves single awaits, store failures,
 acknowledgements that never arrive, cancellations and deletions.
 */
module IntentClaims {
  import opened Common

  type Id = string

  datatype Intent = Intent(id: Id, body: string)

  /** A stored document: the intent, its version and, once marked, why it needs reconciliation. */
  datatype Record = Record(intent: Intent, version: nat, reason: Option<string>)

  type Store = map<Id, Record>

  /** An expected version only matters for a document that exists: an absent one is always inserted. */
  predicate CanPut(store: Store, id: Id, expected: nat) {
    id in store ==> store[id].version == expected
  }

  function Put(store: Store, id: Id, intent: Intent, reason: Option<string>): Store {
    store[id := Record(intent, if id in store then store[id].version + 1 else 1, reason)]
  }

  // ---------------------------------------------------------------------
  // Tasks
  // ---------------------------------------------------------------------

  datatype Job = Evaluate | Mark(why: string)

  datatype Outcome = Shadowed | Duplicated | Rejected | Cancelled | Marked | MarkFailed

  /** Building awaits the quote, Waiting awaits the lock; Reading and Writing hold the lock and await the store. */
  datatype Phase = Building | Waiting | Reading | Writing(read: Option<Record>) | Finished(outcome: Outcome)

  datatype Task = Task(process: nat, job: Job, intent: Intent, phase: Phase)

  datatype Telemetry = Telemetry(signals: nat, shadows: nat, duplicates: nat, rejections: nat)

  /** The logs record, in order, which documents were deleted, stored by a claim whose caller was not told,
      re-created by a mark, and marked. */
  datatype Logs = Logs(deleted: seq<Id>, untold: seq<Id>, revived: seq<Id>, marked: seq<Id>)

  datatype State = State(store: Store, tasks: seq<Task>, telemetry: map<nat, Telemetry>, logs: Logs)

  const INITIAL := State(map[], [], map[], Logs([], [], [], []))

  function Counters(m: map<nat, Telemetry>, p: nat): Telemetry {
    if p in m then m[p] else Telemetry(0, 0, 0, 0)
  }

  function Counted(c: Telemetry, o: Outcome): Telemetry {
    match o
    case Shadowed => c.(shadows := c.shadows + 1)
    case Duplicated => c.(duplicates := c.duplicates + 1)
    case Rejected => c.(rejections := c.rejections + 1)
    case _ => c
  }

  predicate Holds(t: Task) {
    t.phase.Reading? || t.phase.Writing?
  }

  predicate LockFree(tasks: seq<Task>, p: nat) {
    forall k :: 0 <= k < |tasks| && tasks[k].process == p ==> !Holds(tasks[k])
  }

  // ---------------------------------------------------------------------
  // Steps
  // ---------------------------------------------------------------------

  datatype Step =
    | Start(process: nat, job: Job, intent: Intent)
    | Ask(k: nat)
    | Acquire(k: nat)
    | Read(k: nat)
    | Write(k: nat, reported: Outcome)
    | Fail(k: nat, failure: Outcome)
    | Delete(id: Id)

  function Moved(s: State, k: nat, phase: Phase): State
    requires k < |s.tasks|
  {
    s.(tasks := s.tasks[k := s.tasks[k].(phase := phase)])
  }

  /** Task k ends; an evaluation counts its outcome. */
  function Ended(s: State, k: nat, o: Outcome): State
    requires k < |s.tasks|
  {
    var p := s.tasks[k].process;
    Moved(s, k, Finished(o)).(telemetry := s.telemetry[p := Counted(Counters(s.telemetry, p), o)])
  }

  predicate At(s: State, k: nat, phase: Phase) {
    k < |s.tasks| && s.tasks[k].phase == phase
  }

  function Started(s: State, p: nat, job: Job, intent: Intent): State {
    var c := Counters(s.telemetry, p);
    if job.Evaluate? then
      s.(tasks := s.tasks + [Task(p, job, intent, Building)],
         telemetry := s.telemetry[p := c.(signals := c.signals + 1)])
    else s.(tasks := s.tasks + [Task(p, job, intent, Waiting)])
  }

  /** store.get under the lock. */
  function AfterRead(s: State, k: nat): State
    requires k < |s.tasks|
  {
    var t := s.tasks[k];
    if t.job.Evaluate? then
      if t.intent.id in s.store then Ended(s, k, Duplicated) else Moved(s, k, Writing(None))
    else
      if t.intent.id in s.store then Moved(s, k, Writing(Some(s.store[t.intent.id]))) else Ended(s, k, MarkFailed)
  }

  /** How a claim may be reported after its put went through: as a success, or not at all because the
      acknowledgement was lost or the task cancelled. */
  function Reported(o: Outcome): Outcome {
    if o == Shadowed || o == Duplicated || o == Rejected then o else Cancelled
  }

  datatype Effect = Effect(store: Store, logs: Logs, outcome: Outcome)

  /** store.put by a claim, which expects version 0. */
  function ClaimPut(store: Store, logs: Logs, intent: Intent, reported: Outcome): Effect {
    if !CanPut(store, intent.id, 0) then Effect(store, logs, Duplicated)
    else
      var o := Reported(reported);
      Effect(Put(store, intent.id, intent, None),
             if o == Shadowed then logs else logs.(untold := logs.untold + [intent.id]), o)
  }

  /** store.put by a mark, which expects the version it read. */
  function MarkPut(store: Store, logs: Logs, id: Id, read: Record, why: string, reported: Outcome): Effect {
    if !CanPut(store, id, read.version) then Effect(store, logs, MarkFailed)
    else
      var l := logs.(marked := logs.marked + [id]);
      Effect(Put(store, id, read.intent, Some(why)), if id in store then l else l.(revived := l.revived + [id]),
             if reported == Marked then Marked else MarkFailed)
  }

  function WriteEffect(store: Store, logs: Logs, t: Task, reported: Outcome): Effect {
    if t.job.Evaluate? then ClaimPut(store, logs, t.intent, reported)
    else if t.phase.Writing? && t.phase.read.Some? then
      MarkPut(store, logs, t.intent.id, t.phase.read.value, t.job.why, reported)
    else Effect(store, logs, MarkFailed)
  }

  /** store.put under the lock. */
  function AfterWrite(s: State, k: nat, reported: Outcome): State
    requires k < |s.tasks|
  {
    var e := WriteEffect(s.store, s.logs, s.tasks[k], reported);
    Ended(s, k, e.outcome).(store := e.store, logs := e.logs)
  }

  /** A store or quote failure without effect. Only a failing put of a claim is taken for a duplicate. */
  function AfterFailure(s: State, k: nat, failure: Outcome): State
    requires k < |s.tasks|
  {
    var t := s.tasks[k];
    if t.job.Mark? then Ended(s, k, MarkFailed)
    else if failure == Duplicated && t.phase.Writing? then Ended(s, k, Duplicated)
    else if failure == Rejected && !t.phase.Waiting? then Ended(s, k, Rejected)
    else Ended(s, k, Cancelled)
  }

  function Next(s: State, step: Step): State {
    match step
    case Start(p, job, intent) => Started(s, p, job, intent)
    case Ask(k) => if At(s, k, Building) then Moved(s, k, Waiting) else s
    case Acquire(k) =>
      if At(s, k, Waiting) && LockFree(s.tasks, s.tasks[k].process) then Moved(s, k, Reading) else s
    case Read(k) => if At(s, k, Reading) then AfterRead(s, k) else s
    case Write(k, reported) => if k < |s.tasks| && s.tasks[k].phase.Writing? then AfterWrite(s, k, reported) else s
    case Fail(k, failure) => if k < |s.tasks| && !s.tasks[k].phase.Finished? then AfterFailure(s, k, failure) else s
    case Delete(id) =>
      if id in s.store then s.(store := s.store - {id}, logs := s.logs.(deleted := s.logs.deleted + [id])) else s
  }

  function Run(steps: seq<Step>): State {
    if steps == [] then INITIAL else Next(Run(steps[..|steps| - 1]), steps[|steps| - 1])
  }

  // ---------------------------------------------------------------------
  // Counting
  // ---------------------------------------------------------------------

  function CountTasks(tasks: seq<Task>, f: Task -> bool): nat {
    if tasks == [] then 0 else CountTasks(tasks[..|tasks| - 1], f) + Count(f(tasks[|tasks| - 1]))
  }

  function CountIds(log: seq<Id>, id: Id): nat {
    if log == [] then 0 else CountIds(log[..|log| - 1], id) + Count(log[|log| - 1] == id)
  }

  lemma CountTasksSnoc(tasks: seq<Task>, t: Task, f: Task -> bool)
    ensures CountTasks(tasks + [t], f) == CountTasks(tasks, f) + Count(f(t))
  {
  }

  lemma {:induction false} CountTasksMoved(tasks: seq<Task>, k: nat, t: Task, f: Task -> bool)
    requires k < |tasks|
    ensures CountTasks(tasks[k := t], f) + Count(f(tasks[k])) == CountTasks(tasks, f) + Count(f(t))
  {
    var init := tasks[..|tasks| - 1];
    if k < |tasks| - 1 {
      CountTasksMoved(init, k, t, f);
      assert tasks[k := t][..|tasks| - 1] == init[k := t];
    } else {
      assert tasks[k := t][..|tasks| - 1] == init;
    }
  }

  lemma CountIdsSnoc(log: seq<Id>, x: Id, id: Id)
    ensures CountIds(log + [x], id) == CountIds(log, id) + Count(x == id)
  {
  }

  // ---------------------------------------------------------------------
  // Telemetry
  // ---------------------------------------------------------------------

  function IsSignal(p: nat): Task -> bool {
    (t: Task) => t.process == p && t.job.Evaluate?
  }

  function EndedAs(p: nat, o: Outcome): Task -> bool {
    (t: Task) => t.process == p && t.job.Evaluate? && t.phase == Finished(o)
  }

  function InFlight(p: nat): Task -> bool {
    (t: Task) => t.process == p && t.job.Evaluate? && !t.phase.Finished?
  }

  ghost predicate Tallies(c: Telemetry, tasks: seq<Task>, p: nat) {
    && c.signals == CountTasks(tasks, IsSignal(p)) && c.shadows == CountTasks(tasks, EndedAs(p, Shadowed))
    && c.duplicates == CountTasks(tasks, EndedAs(p, Duplicated))
    && c.rejections == CountTasks(tasks, EndedAs(p, Rejected))
  }

  /** An evaluation never ends as a mark does, nor a mark as an evaluation. */
  predicate KindFits(t: Task) {
    t.phase.Finished? ==> (t.job.Evaluate? <==> t.phase.outcome in {Shadowed, Duplicated, Rejected, Cancelled})
  }

  ghost predicate KindsFit(tasks: seq<Task>) {
    forall k :: 0 <= k < |tasks| ==> KindFits(tasks[k])
  }

  lemma CountAfterMove(s: State, k: nat, phase: Phase, f: Task -> bool)
    requires k < |s.tasks|
    ensures CountTasks(Moved(s, k, phase).tasks, f) + Count(f(s.tasks[k]))
            == CountTasks(s.tasks, f) + Count(f(s.tasks[k].(phase := phase)))
  {
    CountTasksMoved(s.tasks, k, s.tasks[k].(phase := phase), f);
  }

  lemma MoveKeepsTallies(s: State, k: nat, phase: Phase, p: nat)
    requires k < |s.tasks| && !s.tasks[k].phase.Finished? && !phase.Finished? && KindsFit(s.tasks)
    requires Tallies(Counters(s.telemetry, p), s.tasks, p)
    ensures var t := Moved(s, k, phase); KindsFit(t.tasks) && Tallies(Counters(t.telemetry, p), t.tasks, p)
  {
    CountAfterMove(s, k, phase, IsSignal(p));
    CountAfterMove(s, k, phase, EndedAs(p, Shadowed));
    CountAfterMove(s, k, phase, EndedAs(p, Duplicated));
    CountAfterMove(s, k, phase, EndedAs(p, Rejected));
  }

  lemma EndKeepsTallies(s: State, k: nat, o: Outcome, p: nat)
    requires k < |s.tasks| && !s.tasks[k].phase.Finished? && KindsFit(s.tasks)
    requires s.tasks[k].job.Evaluate? <==> o in {Shadowed, Duplicated, Rejected, Cancelled}
    requires Tallies(Counters(s.telemetry, p), s.tasks, p)
    ensures var t := Ended(s, k, o); KindsFit(t.tasks) && Tallies(Counters(t.telemetry, p), t.tasks, p)
  {
    CountAfterMove(s, k, Finished(o), IsSignal(p));
    CountAfterMove(s, k, Finished(o), EndedAs(p, Shadowed));
    CountAfterMove(s, k, Finished(o), EndedAs(p, Duplicated));
    CountAfterMove(s, k, Finished(o), EndedAs(p, Rejected));
  }

  lemma StartKeepsTallies(s: State, process: nat, job: Job, intent: Intent, p: nat)
    requires KindsFit(s.tasks) && Tallies(Counters(s.telemetry, p), s.tasks, p)
    ensures var t := Started(s, process, job, intent);
            KindsFit(t.tasks) && Tallies(Counters(t.telemetry, p), t.tasks, p)
  {
    var task := Task(process, job, intent, if job.Evaluate? then Building else Waiting);
    CountTasksSnoc(s.tasks, task, IsSignal(p));
    CountTasksSnoc(s.tasks, task, EndedAs(p, Shadowed));
    CountTasksSnoc(s.tasks, task, EndedAs(p, Duplicated));
    CountTasksSnoc(s.tasks, task, EndedAs(p, Rejected));
  }

  /** The outcome a step ends a task with, if it ends one. */
  function OutcomeOf(s: State, step: Step): Option<(nat, Outcome)> {
    match step
    case Read(k) =>
      if At(s, k, Reading) && s.tasks[k].job.Evaluate? && s.tasks[k].intent.id in s.store then Some((k, Duplicated))
      else if At(s, k, Reading) && s.tasks[k].job.Mark? && s.tasks[k].intent.id !in s.store then Some((k, MarkFailed))
      else None
    case Write(k, reported) =>
      if k < |s.tasks| && s.tasks[k].phase.Writing? then
        Some((k, WriteEffect(s.store, s.logs, s.tasks[k], reported).outcome))
      else None
    case Fail(k, failure) =>
      if k < |s.tasks| && !s.tasks[k].phase.Finished? then
        var t := s.tasks[k];
        Some((k, if t.job.Mark? then MarkFailed
                 else if failure == Duplicated && t.phase.Writing? then Duplicated
                 else if failure == Rejected && !t.phase.Waiting? then Rejected else Cancelled))
      else None
    case _ => None
  }

  /** A step that is no start either ends one task, or moves one that stays in flight, or touches none. */
  lemma TasksAfter(s: State, step: Step)
    requires !step.Start?
    ensures var n, o := Next(s, step), OutcomeOf(s, step);
            if o.Some? then
              && o.value.0 < |s.tasks| && !s.tasks[o.value.0].phase.Finished?
              && (s.tasks[o.value.0].job.Evaluate? <==> o.value.1 in {Shadowed, Duplicated, Rejected, Cancelled})
              && n.tasks == Ended(s, o.value.0, o.value.1).tasks
              && n.telemetry == Ended(s, o.value.0, o.value.1).telemetry
            else
              && n.telemetry == s.telemetry
              && (n.tasks == s.tasks
                  || exists k: nat, phase: Phase :: k < |s.tasks| && !s.tasks[k].phase.Finished? && !phase.Finished?
                                                    && n.tasks == Moved(s, k, phase).tasks)
  {
    match step
    case Ask(k) =>
      if At(s, k, Building) {
        assert Next(s, step).tasks == Moved(s, k, Waiting).tasks;
      }
    case Acquire(k) =>
      if At(s, k, Waiting) && LockFree(s.tasks, s.tasks[k].process) {
        assert Next(s, step).tasks == Moved(s, k, Reading).tasks;
      }
    case Read(k) =>
      if At(s, k, Reading) {
        var t := s.tasks[k];
        var phase := if t.job.Evaluate? then Writing(None)
                     else if t.intent.id in s.store then Writing(Some(s.store[t.intent.id])) else Reading;
        assert OutcomeOf(s, step).None? ==> Next(s, step).tasks == Moved(s, k, phase).tasks;
      }
    case _ =>
  }

  lemma StepKeepsTallies(s: State, step: Step, p: nat)
    requires KindsFit(s.tasks) && Tallies(Counters(s.telemetry, p), s.tasks, p)
    ensures var n := Next(s, step); KindsFit(n.tasks) && Tallies(Counters(n.telemetry, p), n.tasks, p)
  {
    if step.Start? {
      StartKeepsTallies(s, step.process, step.job, step.intent, p);
    } else {
      TasksAfter(s, step);
      var n, o := Next(s, step), OutcomeOf(s, step);
      if o.Some? {
        EndKeepsTallies(s, o.value.0, o.value.1, p);
      } else if n.tasks != s.tasks {
        var k: nat, phase: Phase :| k < |s.tasks| && !s.tasks[k].phase.Finished? && !phase.Finished?
                                    && n.tasks == Moved(s, k, phase).tasks;
        MoveKeepsTallies(s, k, phase, p);
      }
    }
  }

  lemma {:induction false} RunTallies(steps: seq<Step>, p: nat)
    ensures var s := Run(steps); KindsFit(s.tasks) && Tallies(Counters(s.telemetry, p), s.tasks, p)
  {
    if steps != [] {
      RunTallies(steps[..|steps| - 1], p);
      StepKeepsTallies(Run(steps[..|steps| - 1]), steps[|steps| - 1], p);
    }
  }

  lemma {:induction false} SignalsSplit(tasks: seq<Task>, p: nat)
    requires KindsFit(tasks)
    ensures CountTasks(tasks, IsSignal(p))
            == CountTasks(tasks, EndedAs(p, Shadowed)) + CountTasks(tasks, EndedAs(p, Duplicated))
               + CountTasks(tasks, EndedAs(p, Rejected)) + CountTasks(tasks, EndedAs(p, Cancelled))
               + CountTasks(tasks, InFlight(p))
  {
    if tasks != [] {
      SignalsSplit(tasks[..|tasks| - 1], p);
    }
  }

  /** In every run each process's signal count is the sum of its shadow, duplicate and rejection counts and of
      the evaluations still in flight or cancelled. */
  lemma SignalsAreAccounted(steps: seq<Step>, p: nat)
    ensures var s := Run(steps);
            var c := Counters(s.telemetry, p);
            c.signals == c.shadows + c.duplicates + c.rejections
                         + CountTasks(s.tasks, InFlight(p)) + CountTasks(s.tasks, EndedAs(p, Cancelled))
  {
    RunTallies(steps, p);
    SignalsSplit(Run(steps).tasks, p);
  }

  // ---------------------------------------------------------------------
  // At most one winner
  // ---------------------------------------------------------------------

  function Wins(id: Id): Task -> bool {
    (t: Task) => t.intent.id == id && t.phase == Finished(Shadowed)
  }

  /** Every successful claim, every claim stored without telling and every revival by a mark accounts for one
      deletion or for the document that is there. */
  ghost predicate Conserved(s: State, id: Id) {
    && CountTasks(s.tasks, Wins(id)) + Unclaimed(s.logs, id) == CountIds(s.logs.deleted, id) + Count(id in s.store)
    && Versioned(s.store, id)
  }

  /** Only a write ends a claim as a success. */
  lemma WinsAfter(s: State, step: Step, id: Id)
    ensures var o := OutcomeOf(s, step);
            CountTasks(Next(s, step).tasks, Wins(id))
            == CountTasks(s.tasks, Wins(id))
               + Count(o.Some? && o.value.0 < |s.tasks| && o.value.1 == Shadowed && s.tasks[o.value.0].intent.id == id)
  {
    if step.Start? {
      var phase := if step.job.Evaluate? then Building else Waiting;
      CountTasksSnoc(s.tasks, Task(step.process, step.job, step.intent, phase), Wins(id));
    } else {
      TasksAfter(s, step);
      var n, o := Next(s, step), OutcomeOf(s, step);
      if o.Some? {
        CountAfterMove(s, o.value.0, Finished(o.value.1), Wins(id));
      } else if n.tasks != s.tasks {
        var k: nat, phase: Phase :| k < |s.tasks| && !s.tasks[k].phase.Finished? && !phase.Finished?
                                    && n.tasks == Moved(s, k, phase).tasks;
        CountAfterMove(s, k, phase, Wins(id));
      }
    }
  }

  /** Only writes and deletions touch the store and its logs. */
  lemma StoreUntouched(s: State, step: Step)
    requires !step.Write? && !step.Delete?
    ensures var n := Next(s, step);
            n.store == s.store && n.logs == s.logs
  {
  }

  /** Documents of one id that claims or marks brought about without a success being reported. */
  function Unclaimed(logs: Logs, id: Id): nat {
    CountIds(logs.untold, id) + CountIds(logs.revived, id)
  }

  /** A stored document has a positive version. */
  predicate Versioned(store: Store, id: Id) {
    id in store ==> store[id].version > 0
  }

  lemma ClaimBalances(store: Store, logs: Logs, intent: Intent, reported: Outcome, id: Id)
    requires Versioned(store, id)
    ensures var e := ClaimPut(store, logs, intent, reported);
            && Count(e.outcome == Shadowed && intent.id == id) + Unclaimed(e.logs, id) + Count(id in store)
               == Unclaimed(logs, id) + Count(id in e.store)
            && e.logs.deleted == logs.deleted && Versioned(e.store, id)
  {
  }

  lemma MarkBalances(store: Store, logs: Logs, x: Id, read: Record, why: string, reported: Outcome, id: Id)
    requires Versioned(store, id)
    ensures var e := MarkPut(store, logs, x, read, why, reported);
            && e.outcome != Shadowed
            && Unclaimed(e.logs, id) + Count(id in store) == Unclaimed(logs, id) + Count(id in e.store)
            && e.logs.deleted == logs.deleted && Versioned(e.store, id)
  {
  }

  /** What a write does to the documents of one id. */
  lemma WriteBalances(store: Store, logs: Logs, t: Task, reported: Outcome, id: Id)
    requires Versioned(store, id)
    ensures var e := WriteEffect(store, logs, t, reported);
            && Count(e.outcome == Shadowed && t.intent.id == id) + Unclaimed(e.logs, id) + Count(id in store)
               == Unclaimed(logs, id) + Count(id in e.store)
            && e.logs.deleted == logs.deleted && Versioned(e.store, id)
  {
    if t.job.Evaluate? {
      ClaimBalances(store, logs, t.intent, reported, id);
    } else if t.phase.Writing? && t.phase.read.Some? {
      MarkBalances(store, logs, t.intent.id, t.phase.read.value, t.job.why, reported, id);
    }
  }

  lemma StepConserves(s: State, step: Step, id: Id)
    requires Conserved(s, id)
    ensures Conserved(Next(s, step), id)
  {
    WinsAfter(s, step, id);
    if step.Write? {
      if step.k < |s.tasks| && s.tasks[step.k].phase.Writing? {
        WriteBalances(s.store, s.logs, s.tasks[step.k], step.reported, id);
      }
    } else if step.Delete? {
      CountIdsSnoc(s.logs.deleted, step.id, id);
    } else {
      StoreUntouched(s, step);
      OnlyWritesShadow(s, step);
    }
  }

  lemma OnlyWritesShadow(s: State, step: Step)
    requires !step.Write?
    ensures var o := OutcomeOf(s, step); o.Some? ==> o.value.1 != Shadowed
  {
  }

  lemma {:induction false} RunConserves(steps: seq<Step>, id: Id)
    ensures Conserved(Run(steps), id)
  {
    if steps != [] {
      RunConserves(steps[..|steps| - 1], id);
      StepConserves(Run(steps[..|steps| - 1]), steps[|steps| - 1], id);
    }
  }

  /** However many processes race, at most one claim of an intent whose document is never deleted succeeds. */
  lemma AtMostOneWinner(steps: seq<Step>, id: Id)
    requires CountIds(Run(steps).logs.deleted, id) == 0
    ensures CountTasks(Run(steps).tasks, Wins(id)) + Unclaimed(Run(steps).logs, id) <= 1
    ensures CountTasks(Run(steps).tasks, Wins(id)) == 1 ==> id in Run(steps).store
  {
    RunConserves(steps, id);
  }

  // ---------------------------------------------------------------------
  // The winner's record
  // ---------------------------------------------------------------------

  /** What is known of task t when the document of its intent was never deleted. */
  predicate Consistent(store: Store, t: Task) {
    var id := t.intent.id;
    && (t.phase == Finished(Shadowed) ==> id in store && store[id].intent == t.intent)
    && (t.phase.Writing? && t.phase.read.Some? ==> id in store && t.phase.read.value.intent == store[id].intent)
  }

  ghost predicate AllConsistent(store: Store, tasks: seq<Task>, id: Id) {
    forall k :: 0 <= k < |tasks| && tasks[k].intent.id == id ==> Consistent(store, tasks[k])
  }

  /** The document's version counts its marks, and a marked document carries a reason. */
  predicate VersionFits(store: Store, logs: Logs, id: Id) {
    id in store ==>
      && store[id].version == 1 + CountIds(logs.marked, id)
      && (store[id].reason.Some? <==> CountIds(logs.marked, id) > 0)
  }

  ghost predicate Owned(s: State, id: Id) {
    CountIds(s.logs.deleted, id) == 0 ==>
      && AllConsistent(s.store, s.tasks, id) && VersionFits(s.store, s.logs, id)
      && (id !in s.store ==> CountIds(s.logs.marked, id) == 0)
  }

  /** The document of id keeps its intent. */
  predicate KeepsIntent(store: Store, store': Store, id: Id) {
    id in store ==> id in store' && store'[id].intent == store[id].intent
  }

  lemma ConsistencyKept(store: Store, store': Store, tasks: seq<Task>, id: Id)
    requires AllConsistent(store, tasks, id) && KeepsIntent(store, store', id)
    ensures AllConsistent(store', tasks, id)
  {
  }

  lemma ConsistencyMoved(store: Store, tasks: seq<Task>, k: nat, t: Task, id: Id)
    requires k < |tasks| && AllConsistent(store, tasks, id) && (t.intent.id == id ==> Consistent(store, t))
    ensures AllConsistent(store, tasks[k := t], id)
  {
  }

  lemma ReadKeepsConsistent(s: State, k: nat, id: Id)
    requires k < |s.tasks| && At(s, k, Reading) && AllConsistent(s.store, s.tasks, id)
    ensures AllConsistent(s.store, AfterRead(s, k).tasks, id)
  {
  }

  lemma FailureKeepsConsistent(s: State, k: nat, failure: Outcome, id: Id)
    requires k < |s.tasks| && AllConsistent(s.store, s.tasks, id)
    ensures AllConsistent(s.store, AfterFailure(s, k, failure).tasks, id)
  {
  }

  /** The document keeps its intent, its version count and its mark. */
  predicate KeepsDocument(store: Store, e: Effect, id: Id) {
    && KeepsIntent(store, e.store, id) && VersionFits(e.store, e.logs, id)
    && (id !in e.store ==> CountIds(e.logs.marked, id) == 0)
  }

  predicate Documented(store: Store, logs: Logs, id: Id) {
    VersionFits(store, logs, id) && (id !in store ==> CountIds(logs.marked, id) == 0)
  }

  lemma ClaimKeepsDocument(store: Store, logs: Logs, intent: Intent, reported: Outcome, id: Id)
    requires Documented(store, logs, id)
    ensures var e := ClaimPut(store, logs, intent, reported);
            && KeepsDocument(store, e, id)
            && (e.outcome == Shadowed && intent.id == id ==> id in e.store && e.store[id].intent == intent)
  {
  }

  lemma MarkKeepsDocument(store: Store, logs: Logs, x: Id, read: Record, why: string, reported: Outcome, id: Id)
    requires Documented(store, logs, id) && (x == id ==> id in store && read.intent == store[id].intent)
    ensures KeepsDocument(store, MarkPut(store, logs, x, read, why, reported), id)
  {
  }

  /** A write by a consistent task keeps the document. */
  lemma WriteKeepsDocument(store: Store, logs: Logs, t: Task, reported: Outcome, id: Id)
    requires (t.intent.id == id ==> Consistent(store, t)) && Documented(store, logs, id)
    ensures var e := WriteEffect(store, logs, t, reported);
            && KeepsDocument(store, e, id)
            && (e.outcome == Shadowed && t.intent.id == id ==> id in e.store && e.store[id].intent == t.intent)
  {
    if t.job.Evaluate? {
      ClaimKeepsDocument(store, logs, t.intent, reported, id);
    } else if t.phase.Writing? && t.phase.read.Some? {
      MarkKeepsDocument(store, logs, t.intent.id, t.phase.read.value, t.job.why, reported, id);
    }
  }

  lemma WriteKeepsOwned(s: State, k: nat, reported: Outcome, id: Id)
    requires k < |s.tasks| && Owned(s, id)
    ensures Owned(AfterWrite(s, k, reported), id)
  {
    var t := s.tasks[k];
    var e := WriteEffect(s.store, s.logs, t, reported);
    OnlyDeletesDelete(s.store, s.logs, t, reported);
    if CountIds(s.logs.deleted, id) == 0 {
      assert t.intent.id == id ==> Consistent(s.store, t);
      WriteKeepsDocument(s.store, s.logs, t, reported, id);
      ConsistencyKept(s.store, e.store, s.tasks, id);
      ConsistencyMoved(e.store, s.tasks, k, t.(phase := Finished(e.outcome)), id);
    }
  }

  lemma OnlyDeletesDelete(store: Store, logs: Logs, t: Task, reported: Outcome)
    ensures WriteEffect(store, logs, t, reported).logs.deleted == logs.deleted
  {
  }

  lemma QuietKeepsOwned(s: State, step: Step, id: Id)
    requires Owned(s, id) && (step.Start? || step.Ask? || step.Acquire?)
    ensures Owned(Next(s, step), id)
  {
  }

  lemma DeleteKeepsOwned(s: State, x: Id, id: Id)
    requires Owned(s, id)
    ensures Owned(Next(s, Delete(x)), id)
  {
  }

  lemma StepKeepsOwned(s: State, step: Step, id: Id)
    requires Owned(s, id)
    ensures Owned(Next(s, step), id)
  {
    match step
    case Read(k) =>
      if At(s, k, Reading) && CountIds(s.logs.deleted, id) == 0 {
        ReadKeepsConsistent(s, k, id);
      }
    case Write(k, reported) =>
      if k < |s.tasks| {
        WriteKeepsOwned(s, k, reported, id);
      }
    case Fail(k, failure) =>
      if k < |s.tasks| && CountIds(s.logs.deleted, id) == 0 {
        FailureKeepsConsistent(s, k, failure, id);
      }
    case Delete(x) => DeleteKeepsOwned(s, x, id);
    case _ => QuietKeepsOwned(s, step, id);
  }

  lemma {:induction false} RunOwned(steps: seq<Step>, id: Id)
    ensures Owned(Run(steps), id)
  {
    if steps != [] {
      RunOwned(steps[..|steps| - 1], id);
      StepKeepsOwned(Run(steps[..|steps| - 1]), steps[|steps| - 1], id);
    }
  }

  /** The stored document is the winner's, however often it was marked since; its version counts the marks. */
  lemma WinnerOwnsRecord(steps: seq<Step>, k: nat, id: Id)
    requires CountIds(Run(steps).logs.deleted, id) == 0
    requires k < |Run(steps).tasks| && Run(steps).tasks[k].intent.id == id
    requires Run(steps).tasks[k].phase == Finished(Shadowed)
    ensures var s := Run(steps);
            && id in s.store && s.store[id].intent == s.tasks[k].intent
            && s.store[id].version == 1 + CountIds(s.logs.marked, id)
            && (s.store[id].reason.Some? <==> CountIds(s.logs.marked, id) > 0)
  {
    RunOwned(steps, id);
    assert Consistent(Run(steps).store, Run(steps).tasks[k]);
  }

  /** The document of the id stays, with its mark if it has one and no lower version, and no claim of it succeeds. */
  predicate StaysClosed(s: State, n: State, id: Id)
    requires id in s.store
  {
    && id in n.store && n.store[id].version >= s.store[id].version
    && (s.store[id].reason.Some? ==> n.store[id].reason.Some?)
    && CountTasks(n.tasks, Wins(id)) == CountTasks(s.tasks, Wins(id))
  }

  lemma StepStaysClosed(s: State, step: Step, id: Id)
    requires id in s.store && step != Delete(id) && s.store[id].version > 0
    ensures StaysClosed(s, Next(s, step), id)
  {
    WinsAfter(s, step, id);
    if step.Write? {
      if step.k < |s.tasks| {
        PresentAfterWrite(s.store, s.logs, s.tasks[step.k], step.reported, id);
      }
    } else {
      OnlyWritesShadow(s, step);
      if !step.Delete? {
        StoreUntouched(s, step);
      }
    }
  }

  lemma StaysClosedLonger(s: State, m: State, n: State, step: Step, id: Id)
    requires id in s.store && StaysClosed(s, m, id) && Versioned(m.store, id)
    requires n == Next(m, step) && step != Delete(id)
    ensures StaysClosed(s, n, id)
  {
    StepStaysClosed(m, step, id);
  }

  lemma RunNext(steps: seq<Step>, init: seq<Step>, step: Step)
    requires steps == init + [step]
    ensures Run(steps) == Next(Run(init), step)
  {
    assert steps[..|steps| - 1] == init;
  }

  ghost predicate Spares(steps: seq<Step>, id: Id) {
    forall k :: 0 <= k < |steps| ==> steps[k] != Delete(id)
  }

  lemma LastStep(before: seq<Step>, more: seq<Step>, id: Id, n: State) returns (m: State)
    requires more != [] && n == Run(before + more)
    ensures m == Run(before + more[..|more| - 1]) && n == Next(m, more[|more| - 1]) && Versioned(m.store, id)
  {
    var init := more[..|more| - 1];
    m := Run(before + init);
    RunNext(before + more, before + init, more[|more| - 1]);
    RunConserves(before + init, id);
  }

  /** A present document is never re-opened: from any moment of any run on, as long as it is not deleted, it stays, a
      mark on it stays, its version never falls and no further claim of it succeeds. */
  lemma {:induction false} NeverReopened(before: seq<Step>, more: seq<Step>, id: Id, s: State, n: State)
    requires s == Run(before) && n == Run(before + more)
    requires id in s.store && Spares(more, id)
    ensures StaysClosed(s, n, id)
    decreases |more|
  {
    if more == [] {
      assert before + more == before;
    } else {
      var init, step := more[..|more| - 1], more[|more| - 1];
      var m := LastStep(before, more, id, n);
      NeverReopened(before, init, id, s, m);
      StaysClosedLonger(s, m, n, step, id);
    }
  }

  lemma PresentAfterWrite(store: Store, logs: Logs, t: Task, reported: Outcome, id: Id)
    requires id in store && store[id].version > 0
    ensures var e := WriteEffect(store, logs, t, reported);
            && id in e.store && e.store[id].version >= store[id].version
            && (store[id].reason.Some? ==> e.store[id].reason.Some?)
            && (e.outcome == Shadowed ==> t.intent.id != id)
  {
  }

  // ---------------------------------------------------------------------
  // The lock
  // ---------------------------------------------------------------------

  /** No two tasks of a process read or write. */
  ghost predicate Exclusive(tasks: seq<Task>) {
    forall j, k :: 0 <= j < k < |tasks| && tasks[j].process == tasks[k].process ==>
      !((tasks[j].phase.Reading? || tasks[j].phase.Writing?) && (tasks[k].phase.Reading? || tasks[k].phase.Writing?))
  }

  lemma ExclusiveMoved(tasks: seq<Task>, k: nat, t: Task)
    requires k < |tasks| && Exclusive(tasks) && t.process == tasks[k].process
    requires Holds(t) ==> Holds(tasks[k]) || LockFree(tasks, t.process)
    ensures Exclusive(tasks[k := t])
  {
  }

  lemma StepKeepsExclusive(s: State, step: Step)
    requires Exclusive(s.tasks)
    ensures Exclusive(Next(s, step).tasks)
  {
    if step.Start? {
    } else {
      TasksAfter(s, step);
      var n, o := Next(s, step), OutcomeOf(s, step);
      if o.Some? {
        ExclusiveMoved(s.tasks, o.value.0, n.tasks[o.value.0]);
      } else if step.Read? && At(s, step.k, Reading) {
        ExclusiveMoved(s.tasks, step.k, n.tasks[step.k]);
      } else if step.Ask? && At(s, step.k, Building) {
        ExclusiveMoved(s.tasks, step.k, n.tasks[step.k]);
      } else if step.Acquire? && At(s, step.k, Waiting) && LockFree(s.tasks, s.tasks[step.k].process) {
        ExclusiveMoved(s.tasks, step.k, n.tasks[step.k]);
      }
    }
  }

  /** In every run each process has at most one task inside its repository at a time. */
  lemma {:induction false} RunIsExclusive(steps: seq<Step>)
    ensures Exclusive(Run(steps).tasks)
  {
    if steps != [] {
      RunIsExclusive(steps[..|steps| - 1]);
      StepKeepsExclusive(Run(steps[..|steps| - 1]), steps[|steps| - 1]);
    }
  }

  // ---------------------------------------------------------------------
  // What single puts and undisturbed tasks do
  // ---------------------------------------------------------------------

  /** Task k ends with the outcome and nothing else changes in the tasks. */
  predicate Ends(s: State, n: State, k: nat, o: Outcome) {
    k < |s.tasks| && n.tasks == s.tasks[k := s.tasks[k].(phase := Finished(o))]
  }

  /** The put of a claim stores the intent exactly when its document is absent, whatever the claim read before; it then
      ends as the caller is told, and else as a duplicate. */
  lemma ClaimDecides(s: State, k: nat, reported: Outcome)
    requires k < |s.tasks| && s.tasks[k].phase.Writing? && s.tasks[k].job.Evaluate?
    requires Versioned(s.store, s.tasks[k].intent.id)
    ensures var n, intent := Next(s, Write(k, reported)), s.tasks[k].intent;
            if intent.id in s.store then n.store == s.store && n.logs == s.logs && Ends(s, n, k, Duplicated)
            else
              && n.store == s.store[intent.id := Record(intent, 1, None)]
              && Ends(s, n, k, if reported in [Shadowed, Duplicated, Rejected] then reported else Cancelled)
              && n.logs == if reported == Shadowed then s.logs
                           else s.logs.(untold := s.logs.untold + [intent.id])
  {
  }

  /** The put of a mark goes through exactly when the document still has the version that was read, or is gone; it then
      carries the reason and one more version. */
  lemma MarkDecides(s: State, k: nat, read: Record, reported: Outcome)
    requires k < |s.tasks| && s.tasks[k].phase == Writing(Some(read)) && s.tasks[k].job.Mark?
    ensures var n, id, why := Next(s, Write(k, reported)), s.tasks[k].intent.id, s.tasks[k].job.why;
            if id in s.store && s.store[id].version != read.version then
              n.store == s.store && n.logs == s.logs && Ends(s, n, k, MarkFailed)
            else
              && n.store == s.store[id := Record(read.intent, if id in s.store then read.version + 1 else 1, Some(why))]
              && Ends(s, n, k, if reported == Marked then Marked else MarkFailed)
              && n.logs == s.logs.(marked := s.logs.marked + [id],
                                   revived := s.logs.revived + if id in s.store then [] else [id])
  {
  }

  /** A failure ends a task that is in flight and stores nothing. Only the failing put of a claim is taken for a
      duplicate, and only what fails inside the evaluation for a rejection. */
  lemma FailureDecides(s: State, k: nat, failure: Outcome)
    requires k < |s.tasks| && !s.tasks[k].phase.Finished?
    ensures var n, t := Next(s, Fail(k, failure)), s.tasks[k];
            && n.store == s.store && n.logs == s.logs
            && Ends(s, n, k, if t.job.Mark? then MarkFailed
                             else if failure == Duplicated && t.phase.Writing? then Duplicated
                             else if failure == Rejected && t.phase != Waiting then Rejected
                             else Cancelled)
  {
  }

  ghost predicate Unlocked(tasks: seq<Task>, p: nat) {
    forall k :: 0 <= k < |tasks| && tasks[k].process == p ==> !tasks[k].phase.Reading? && !tasks[k].phase.Writing?
  }

  /** A task enters its repository exactly when no task of its process is in there. */
  lemma LockDecides(s: State, k: nat)
    requires k < |s.tasks| && s.tasks[k].phase == Waiting
    ensures Next(s, Acquire(k))
            == if Unlocked(s.tasks, s.tasks[k].process) then s.(tasks := s.tasks[k := s.tasks[k].(phase := Reading)])
               else s
  {
    assert LockFree(s.tasks, s.tasks[k].process) <==> Unlocked(s.tasks, s.tasks[k].process);
  }

  /** The awaits of one task with nothing in between. */
  function Alone(p: nat, job: Job, intent: Intent, k: nat, reported: Outcome): seq<Step> {
    [Start(p, job, intent), Ask(k), Acquire(k), Read(k), Write(k, reported)]
  }

  lemma RunAlone(steps: seq<Step>, p: nat, job: Job, intent: Intent, k: nat, reported: Outcome)
    ensures Run(steps + Alone(p, job, intent, k, reported))
            == Next(Next(Next(Next(Next(Run(steps), Start(p, job, intent)), Ask(k)), Acquire(k)), Read(k)),
                    Write(k, reported))
  {
    hide Next;
    var a := Alone(p, job, intent, k, reported);
    RunNext(steps + a[..1], steps, a[0]);
    RunNext(steps + a[..2], steps + a[..1], a[1]);
    RunNext(steps + a[..3], steps + a[..2], a[2]);
    RunNext(steps + a[..4], steps + a[..3], a[3]);
    RunNext(steps + a, steps + a[..4], a[4]);
  }

  /** Up to its put: a task started while its process is not in its repository has read the document. */
  lemma AloneReads(s: State, p: nat, job: Job, intent: Intent, k: nat)
    requires k == |s.tasks| && Unlocked(s.tasks, p)
    ensures var m := Next(Next(Next(Next(s, Start(p, job, intent)), Ask(k)), Acquire(k)), Read(k));
            var present := intent.id in s.store;
            && m.store == s.store && m.logs == s.logs
            && m.tasks == s.tasks + [Task(p, job, intent,
                                          if job.Evaluate? then if present then Finished(Duplicated) else Writing(None)
                                          else if present then Writing(Some(s.store[intent.id]))
                                          else Finished(MarkFailed))]
  {
    var a := Next(s, Start(p, job, intent));
    var b := Next(a, Ask(k));
    assert b.tasks == s.tasks + [Task(p, job, intent, Waiting)];
    assert Unlocked(b.tasks, p);
    LockDecides(b, k);
    assert Next(b, Acquire(k)).tasks == s.tasks + [Task(p, job, intent, Reading)];
  }

  /** After any run, an evaluation that nothing disturbs stores its intent and succeeds when there is no document of it,
      and otherwise ends as a duplicate and stores nothing. */
  lemma LoneClaim(steps: seq<Step>, p: nat, intent: Intent, k: nat)
    requires k == |Run(steps).tasks| && Unlocked(Run(steps).tasks, p)
    ensures var s, n := Run(steps), Run(steps + Alone(p, Evaluate, intent, k, Shadowed));
            if intent.id in s.store then
              n.store == s.store && n.tasks == s.tasks + [Task(p, Evaluate, intent, Finished(Duplicated))]
            else
              && n.store == s.store[intent.id := Record(intent, 1, None)]
              && n.tasks == s.tasks + [Task(p, Evaluate, intent, Finished(Shadowed))]
  {
    RunAlone(steps, p, Evaluate, intent, k, Shadowed);
    AloneReads(Run(steps), p, Evaluate, intent, k);
  }

  /** Once its document is deleted an intent can be claimed again: deletion is what AtMostOneWinner excludes. */
  lemma DeletionReopens(steps: seq<Step>, p: nat, intent: Intent, k: nat)
    requires k == |Run(steps).tasks| && Unlocked(Run(steps).tasks, p)
    ensures var n := Run(steps + [Delete(intent.id)] + Alone(p, Evaluate, intent, k, Shadowed));
            && intent.id in n.store && n.store[intent.id] == Record(intent, 1, None)
            && n.tasks == Run(steps).tasks + [Task(p, Evaluate, intent, Finished(Shadowed))]
  {
    RunNext(steps + [Delete(intent.id)], steps, Delete(intent.id));
    LoneClaim(steps + [Delete(intent.id)], p, intent, k);
  }

  /** A mark that nothing disturbs marks the document there is, and otherwise fails and stores nothing. */
  lemma LoneMark(steps: seq<Step>, p: nat, why: string, intent: Intent, k: nat)
    requires k == |Run(steps).tasks| && Unlocked(Run(steps).tasks, p)
    ensures var s, n := Run(steps), Run(steps + Alone(p, Mark(why), intent, k, Marked));
            if intent.id in s.store then
              && n.store == s.store[intent.id := s.store[intent.id].(version := s.store[intent.id].version + 1,
                                                                     reason := Some(why))]
              && n.tasks == s.tasks + [Task(p, Mark(why), intent, Finished(Marked))]
            else n.store == s.store && n.tasks == s.tasks + [Task(p, Mark(why), intent, Finished(MarkFailed))]
  {
    RunAlone(steps, p, Mark(why), intent, k, Marked);
    AloneReads(Run(steps), p, Mark(why), intent, k);
  }
}
