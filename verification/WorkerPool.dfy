/**
 The scanner's worker pool (ftmo_scanner.py, `_bounded_collect`): a bounded number of workers drain one queue.

 A schedule is any sequence of steps; each step is what one worker does between two awaits.
 */
module WorkerPool {
  import opened Common

  /** What a callback ends with. */
  datatype Outcome<R> = Returned(value: R) | Nothing | Raised

  datatype Worker<T> = Idle | Busy(item: T) | Done

  datatype Pool<T, R> = Pool(queue: seq<T>, workers: seq<Worker<T>>, results: seq<R>, failures: nat, empty: nat)

  /** A callback: pure, so that an item always has the same outcome. */
  type Callback<!T, R> = T -> Outcome<R>

  datatype Step = Take(w: nat) | Finish(w: nat)

  function Initial<T, R>(items: seq<T>, maximumConcurrency: nat): Pool<T, R> {
    var n := if maximumConcurrency <= |items| then maximumConcurrency else |items|;
    Pool(items, seq(n, _ => Idle), [], 0, 0)
  }

  function Collected<T, R>(p: Pool<T, R>, o: Outcome<R>): Pool<T, R> {
    match o
    case Returned(value) => p.(results := p.results + [value])
    case Nothing => p.(empty := p.empty + 1)
    case Raised => p.(failures := p.failures + 1)
  }

  /** A worker takes the head of the queue, or stops when the queue is empty; a busy worker finishes its item. */
  function Next<T, R>(f: Callback<T, R>, p: Pool<T, R>, step: Step): Pool<T, R> {
    match step
    case Take(w) =>
      if w < |p.workers| && p.workers[w].Idle? then
        if p.queue == [] then p.(workers := p.workers[w := Done])
        else p.(queue := p.queue[1..], workers := p.workers[w := Busy(p.queue[0])])
      else p
    case Finish(w) =>
      if w < |p.workers| && p.workers[w].Busy? then
        Collected(p.(workers := p.workers[w := Idle]), f(p.workers[w].item))
      else p
  }

  function Run<T, R>(f: Callback<T, R>, items: seq<T>, maximumConcurrency: nat, steps: seq<Step>): Pool<T, R> {
    if steps == [] then Initial(items, maximumConcurrency)
    else Next(f, Run(f, items, maximumConcurrency, steps[..|steps| - 1]), steps[|steps| - 1])
  }

  predicate Finished<T, R>(p: Pool<T, R>) {
    forall w :: 0 <= w < |p.workers| ==> p.workers[w].Done?
  }

  // ---------------------------------------------------------------------
  // The sequential specification
  // ---------------------------------------------------------------------

  /** The values returned over a sequence of items, in order. */
  function Values<T, R>(f: Callback<T, R>, items: seq<T>): seq<R> {
    if items == [] then []
    else
      var o := f(items[|items| - 1]);
      Values(f, items[..|items| - 1]) + if o.Returned? then [o.value] else []
  }

  /** How many items satisfy a condition. */
  function CountBy<T>(items: seq<T>, q: T -> bool): nat {
    if items == [] then 0 else CountBy(items[..|items| - 1], q) + Count(q(items[|items| - 1]))
  }

  function Raises<T, R>(f: Callback<T, R>): T -> bool {
    x => f(x).Raised?
  }

  function Vanishes<T, R>(f: Callback<T, R>): T -> bool {
    x => f(x).Nothing?
  }

  function Yields<T, R(==)>(f: Callback<T, R>, value: R): T -> bool {
    x => f(x) == Returned(value)
  }

  lemma CountBySnoc<T>(items: seq<T>, x: T, q: T -> bool)
    ensures CountBy(items + [x], q) == CountBy(items, q) + Count(q(x))
  {
  }

  lemma ValuesSnoc<T, R>(f: Callback<T, R>, items: seq<T>, x: T)
    ensures Values(f, items + [x]) == Values(f, items) + if f(x).Returned? then [f(x).value] else []
  {
  }

  lemma {:induction false} CountByAppend<T>(a: seq<T>, b: seq<T>, q: T -> bool)
    ensures CountBy(a + b, q) == CountBy(a, q) + CountBy(b, q)
  {
    if b == [] {
      assert a + b == a;
    } else {
      CountByAppend(a, b[..|b| - 1], q);
      assert a + b == a + b[..|b| - 1] + [b[|b| - 1]];
      CountBySnoc(a + b[..|b| - 1], b[|b| - 1], q);
    }
  }

  lemma Without<T>(a: seq<T>, b: seq<T>) returns (rest: seq<T>, k: nat)
    requires multiset(a) == multiset(b) && a != []
    ensures k < |b| && b[k] == a[|a| - 1] && rest == b[..k] + b[k + 1..] && multiset(a[..|a| - 1]) == multiset(rest)
  {
    var x, init := a[|a| - 1], a[..|a| - 1];
    assert x in multiset(a);
    k :| 0 <= k < |b| && b[k] == x;
    rest := b[..k] + b[k + 1..];
    assert a == init + [x] && b == b[..k] + ([x] + b[k + 1..]);
    assert multiset(init) + multiset{x} == multiset(a) == multiset(rest) + multiset{x};
    assert multiset(init) == multiset(a) - multiset{x} == multiset(rest);
  }

  /** A count only depends on which items there are. */
  lemma {:induction false} CountOfPermutation<T>(a: seq<T>, b: seq<T>, q: T -> bool)
    requires multiset(a) == multiset(b)
    ensures CountBy(a, q) == CountBy(b, q)
    decreases |a|
  {
    if a == [] {
      assert |multiset(b)| == |b|;
    } else {
      var rest, k := Without(a, b);
      CountOfPermutation(a[..|a| - 1], rest, q);
      CountByAppend(b[..k], b[k + 1..], q);
      CountByAppend(b[..k] + [b[k]], b[k + 1..], q);
      CountBySnoc(b[..k], b[k], q);
      assert b == b[..k] + [b[k]] + b[k + 1..];
    }
  }

  lemma {:induction false} ValuesByCount<T, R>(f: Callback<T, R>, items: seq<T>, value: R)
    ensures multiset(Values(f, items))[value] == CountBy(items, Yields(f, value))
  {
    if items != [] {
      var x := items[|items| - 1];
      ValuesByCount(f, items[..|items| - 1], value);
      assert f(x).Returned? ==> (f(x).value == value <==> f(x) == Returned(value));
    }
  }

  // ---------------------------------------------------------------------
  // Invariant of every schedule
  // ---------------------------------------------------------------------

  /** How many workers are busy with an item that satisfies a condition. */
  function InHand<T>(workers: seq<Worker<T>>, q: T -> bool): nat {
    if workers == [] then 0
    else
      var last := workers[|workers| - 1];
      InHand(workers[..|workers| - 1], q) + Count(last.Busy? && q(last.item))
  }

  lemma {:induction false} InHandUpdate<T>(workers: seq<Worker<T>>, w: nat, x: Worker<T>, q: T -> bool)
    requires w < |workers|
    ensures InHand(workers[w := x], q) + Count(workers[w].Busy? && q(workers[w].item))
            == InHand(workers, q) + Count(x.Busy? && q(x.item))
  {
    var n := |workers| - 1;
    if w < n {
      InHandUpdate(workers[..n], w, x, q);
      assert workers[w := x][..n] == workers[..n][w := x];
    } else {
      assert workers[w := x][..n] == workers[..n];
    }
  }

  lemma {:induction false} InHandBound<T>(workers: seq<Worker<T>>, q: T -> bool)
    ensures InHand(workers, q) <= |workers|
    ensures (forall w :: 0 <= w < |workers| ==> !workers[w].Busy?) ==> InHand(workers, q) == 0
  {
    if workers != [] {
      InHandBound(workers[..|workers| - 1], q);
    }
  }

  /** The items whose callbacks have been started, and those finished, in order. */
  datatype Trace<T> = Trace(started: seq<T>, finished: seq<T>)

  function Traced<T, R>(p: Pool<T, R>, t: Trace<T>, step: Step): Trace<T> {
    match step
    case Take(w) =>
      if w < |p.workers| && p.workers[w].Idle? && p.queue != [] then t.(started := t.started + [p.queue[0]]) else t
    case Finish(w) =>
      if w < |p.workers| && p.workers[w].Busy? then t.(finished := t.finished + [p.workers[w].item]) else t
  }

  function TraceOf<T, R>(f: Callback<T, R>, items: seq<T>, limit: nat, steps: seq<Step>): Trace<T> {
    if steps == [] then Trace([], [])
    else
      var init := steps[..|steps| - 1];
      Traced(Run(f, items, limit, init), TraceOf(f, items, limit, init), steps[|steps| - 1])
  }

  /** What started is a prefix of the items, what finished produced exactly the pool's records, and no worker
      stops while items are queued. */
  ghost predicate Sound<T, R>(f: Callback<T, R>, items: seq<T>, limit: nat, p: Pool<T, R>, t: Trace<T>) {
    && t.started + p.queue == items
    && p.results == Values(f, t.finished) && p.failures == CountBy(t.finished, Raises(f))
    && p.empty == CountBy(t.finished, Vanishes(f))
    && |p.workers| == MinInt(limit, |items|)
    && (p.queue != [] ==> forall w :: 0 <= w < |p.workers| ==> !p.workers[w].Done?)
  }

  /** Whatever was started is finished or in hand. */
  ghost predicate Balanced<T, R>(p: Pool<T, R>, t: Trace<T>, q: T -> bool) {
    CountBy(t.started, q) == CountBy(t.finished, q) + InHand(p.workers, q)
  }

  lemma TakeIsSound<T, R>(f: Callback<T, R>, items: seq<T>, limit: nat, p: Pool<T, R>, t: Trace<T>, w: nat)
    requires Sound(f, items, limit, p, t)
    ensures Sound(f, items, limit, Next(f, p, Take(w)), Traced(p, t, Take(w)))
  {
    if p.queue != [] {
      assert t.started + [p.queue[0]] + p.queue[1..] == items;
    }
  }

  /** What finishing an item adds to the records is its outcome. */
  lemma FinishRecords<T, R>(f: Callback<T, R>, p: Pool<T, R>, finished: seq<T>, x: T)
    requires p.results == Values(f, finished) && p.failures == CountBy(finished, Raises(f))
    requires p.empty == CountBy(finished, Vanishes(f))
    ensures var q := Collected(p, f(x));
            && q.results == Values(f, finished + [x]) && q.failures == CountBy(finished + [x], Raises(f))
            && q.empty == CountBy(finished + [x], Vanishes(f)) && q.queue == p.queue && q.workers == p.workers
  {
    ValuesSnoc(f, finished, x);
    CountBySnoc(finished, x, Raises(f));
    CountBySnoc(finished, x, Vanishes(f));
    assert p.results + [] == p.results;
  }

  lemma FinishIsSound<T, R>(f: Callback<T, R>, items: seq<T>, limit: nat, p: Pool<T, R>, t: Trace<T>, w: nat)
    requires Sound(f, items, limit, p, t)
    ensures Sound(f, items, limit, Next(f, p, Finish(w)), Traced(p, t, Finish(w)))
  {
    if w < |p.workers| && p.workers[w].Busy? {
      FinishRecords(f, p.(workers := p.workers[w := Idle]), t.finished, p.workers[w].item);
    }
  }

  lemma StepIsSound<T, R>(f: Callback<T, R>, items: seq<T>, limit: nat, p: Pool<T, R>, t: Trace<T>, step: Step)
    requires Sound(f, items, limit, p, t)
    ensures Sound(f, items, limit, Next(f, p, step), Traced(p, t, step))
  {
    match step
    case Take(w) => TakeIsSound(f, items, limit, p, t, w);
    case Finish(w) => FinishIsSound(f, items, limit, p, t, w);
  }

  lemma StepBalances<T, R>(f: Callback<T, R>, p: Pool<T, R>, t: Trace<T>, step: Step, q: T -> bool)
    requires Balanced(p, t, q)
    ensures Balanced(Next(f, p, step), Traced(p, t, step), q)
  {
    if step.w < |p.workers| {
      if step.Take? && p.workers[step.w].Idle? {
        if p.queue == [] {
          InHandUpdate(p.workers, step.w, Done, q);
        } else {
          InHandUpdate(p.workers, step.w, Busy(p.queue[0]), q);
          CountBySnoc(t.started, p.queue[0], q);
        }
      } else if step.Finish? && p.workers[step.w].Busy? {
        InHandUpdate(p.workers, step.w, Idle, q);
        CountBySnoc(t.finished, p.workers[step.w].item, q);
      }
    }
  }

  lemma {:induction false} RunIsSound<T, R>(f: Callback<T, R>, items: seq<T>, limit: nat, steps: seq<Step>,
                                            q: T -> bool)
    ensures Sound(f, items, limit, Run(f, items, limit, steps), TraceOf(f, items, limit, steps))
    ensures Balanced(Run(f, items, limit, steps), TraceOf(f, items, limit, steps), q)
  {
    if steps == [] {
      InHandBound(Initial<T, R>(items, limit).workers, q);
    } else {
      var init, step := steps[..|steps| - 1], steps[|steps| - 1];
      RunIsSound(f, items, limit, init, q);
      StepIsSound(f, items, limit, Run(f, items, limit, init), TraceOf(f, items, limit, init), step);
      StepBalances(f, Run(f, items, limit, init), TraceOf(f, items, limit, init), step, q);
    }
  }

  /** At any moment of any schedule the callbacks started so far are for the first items, each once, in queue
      order; each of them is finished or in the hands of one of the workers, which are as many as the limit and the
      items allow. */
  lemma EachItemOnce<T, R>(f: Callback<T, R>, items: seq<T>, limit: nat, steps: seq<Step>, q: T -> bool)
    ensures var p, t := Run(f, items, limit, steps), TraceOf(f, items, limit, steps);
            && t.started <= items && CountBy(t.started, q) == CountBy(t.finished, q) + InHand(p.workers, q)
            && InHand(p.workers, q) <= |p.workers| == (if limit <= |items| then limit else |items|)
  {
    RunIsSound(f, items, limit, steps, q);
    InHandBound(Run(f, items, limit, steps).workers, q);
  }

  // ---------------------------------------------------------------------
  // The end of a schedule
  // ---------------------------------------------------------------------

  lemma {:induction false} OutcomesPartition<T, R>(f: Callback<T, R>, items: seq<T>)
    ensures |Values(f, items)| + CountBy(items, Raises(f)) + CountBy(items, Vanishes(f)) == |items|
  {
    if items != [] {
      OutcomesPartition(f, items[..|items| - 1]);
    }
  }

  lemma {:induction false} CountIs<T>(s: seq<T>, x: T)
    ensures CountBy(s, y => y == x) == multiset(s)[x]
  {
    if s != [] {
      CountIs(s[..|s| - 1], x);
      assert s == s[..|s| - 1] + [s[|s| - 1]];
    }
  }

  lemma SameCounts<T>(a: seq<T>, b: seq<T>)
    requires forall x :: multiset(a)[x] == multiset(b)[x]
    ensures multiset(a) == multiset(b)
  {
  }

  /** Permuted items have the same values up to order. */
  lemma ValuesOfPermutation<T, R>(f: Callback<T, R>, a: seq<T>, b: seq<T>)
    requires multiset(a) == multiset(b)
    ensures multiset(Values(f, a)) == multiset(Values(f, b))
  {
    forall v ensures multiset(Values(f, a))[v] == multiset(Values(f, b))[v] {
      CountOfPermutation(a, b, Yields(f, v));
      ValuesByCount(f, a, v);
      ValuesByCount(f, b, v);
    }
    SameCounts(Values(f, a), Values(f, b));
  }

  lemma Drained<T, R>(f: Callback<T, R>, items: seq<T>, limit: nat, p: Pool<T, R>, t: Trace<T>)
    requires Sound(f, items, limit, p, t) && Finished(p) && (limit > 0 || items == [])
    ensures p.queue == [] && t.started == items
  {
    if |p.workers| > 0 {
      assert p.workers[0].Done?;
    }
  }

  lemma AllFinished<T, R>(f: Callback<T, R>, items: seq<T>, limit: nat, steps: seq<Step>)
    requires Finished(Run(f, items, limit, steps)) && (limit > 0 || items == [])
    ensures multiset(TraceOf(f, items, limit, steps).finished) == multiset(items)
    ensures Sound(f, items, limit, Run(f, items, limit, steps), TraceOf(f, items, limit, steps))
  {
    var p, t := Run(f, items, limit, steps), TraceOf(f, items, limit, steps);
    RunIsSound(f, items, limit, steps, _ => true);
    Drained(f, items, limit, p, t);
    forall x ensures multiset(t.finished)[x] == multiset(items)[x] {
      RunIsSound(f, items, limit, steps, y => y == x);
      InHandBound(p.workers, y => y == x);
      CountIs(t.finished, x);
      CountIs(items, x);
    }
    SameCounts(t.finished, items);
  }

  /** However the workers are scheduled, when all have stopped the results are those of the sequential map, up
      to order, and results, empty results and failures together are as many as the items. */
  lemma ScheduleIndependent<T, R>(f: Callback<T, R>, items: seq<T>, limit: nat, steps: seq<Step>)
    requires Finished(Run(f, items, limit, steps)) && (limit > 0 || items == [])
    ensures var p := Run(f, items, limit, steps);
            && multiset(p.results) == multiset(Values(f, items))
            && p.failures == CountBy(items, Raises(f)) && p.empty == CountBy(items, Vanishes(f))
            && |p.results| + p.empty + p.failures == |items|
  {
    AllFinished(f, items, limit, steps);
    var p, finished := Run(f, items, limit, steps), TraceOf(f, items, limit, steps).finished;
    CountOfPermutation(finished, items, Raises(f));
    CountOfPermutation(finished, items, Vanishes(f));
    ValuesOfPermutation(f, finished, items);
    OutcomesPartition(f, finished);
    assert |finished| == |multiset(finished)| == |multiset(items)| == |items|;
  }

  // ---------------------------------------------------------------------
  // Every schedule ends
  // ---------------------------------------------------------------------

  function Weight<T>(w: Worker<T>): nat {
    match w
    case Idle => 1
    case Busy(_) => 2
    case Done => 0
  }

  function Weights<T>(workers: seq<Worker<T>>): nat {
    if workers == [] then 0 else Weights(workers[..|workers| - 1]) + Weight(workers[|workers| - 1])
  }

  /** Work left: each queued item is still to be taken and finished. */
  function Work<T, R>(p: Pool<T, R>): nat {
    2 * |p.queue| + Weights(p.workers)
  }

  predicate Enabled<T, R>(p: Pool<T, R>, step: Step) {
    step.w < |p.workers| && if step.Take? then p.workers[step.w].Idle? else p.workers[step.w].Busy?
  }

  lemma {:induction false} WeightsUpdate<T>(workers: seq<Worker<T>>, w: nat, x: Worker<T>)
    requires w < |workers|
    ensures Weights(workers[w := x]) + Weight(workers[w]) == Weights(workers) + Weight(x)
  {
    var n := |workers| - 1;
    if w < n {
      WeightsUpdate(workers[..n], w, x);
      assert workers[w := x][..n] == workers[..n][w := x];
    } else {
      assert workers[w := x][..n] == workers[..n];
    }
  }

  /** Until all workers have stopped some step is possible, and every possible step leaves one unit of work less:
      no schedule deadlocks or runs forever. */
  lemma EveryScheduleEnds<T, R>(f: Callback<T, R>, p: Pool<T, R>)
    ensures Finished(p) <==> !exists step :: Enabled(p, step)
    ensures forall step :: Enabled(p, step) ==> Work(Next(f, p, step)) == Work(p) - 1
  {
    if !Finished(p) {
      var w :| 0 <= w < |p.workers| && !p.workers[w].Done?;
      assert Enabled(p, if p.workers[w].Idle? then Take(w) else Finish(w));
    }
    forall step | Enabled(p, step) ensures Work(Next(f, p, step)) == Work(p) - 1 {
      if step.Take? {
        WeightsUpdate(p.workers, step.w, if p.queue == [] then Done else Busy(p.queue[0]));
      } else {
        WeightsUpdate(p.workers, step.w, Idle);
      }
    }
  }
}
