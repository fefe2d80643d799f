/**
  One call of `parallel_for_each` as a state machine. Each worker thread goes
  through `init_fun`, a pull/work loop and an exit guard; the calling thread
  runs the background function. Every access to the shared cursor happens
  under one mutex, so a run is an arbitrary interleaving of atomic actions,
  each action one thread's step from one lock-free point to the next. The
  results of the user functions are part of the actions: a run covers every
  way those functions may behave.
*/
module Engine {
  import opened Results
  import opened Sums
  import opened SharedCursor
  import opened Aggregate

  type Positive = n: nat | n > 0 witness 1

  /** How many workers to start: the host's parallelism, or a non-zero number. */
  datatype WorkerCount = Auto | Manual(count: Positive)

  /** `Auto` takes the host's logical CPU count, which is never zero; `Manual(n)` takes `n`. */
  function ResolveWorkerCount(wc: WorkerCount, hostCpus: Positive): Positive
  {
    match wc
    case Auto => hostCpus
    case Manual(n) => n
  }

  /** The caller's iterator: its initial state and its `next`. */
  datatype Source<!S, T> = Source(start: S, next: IterStep<S, T>)

  /** Where a worker thread is between two lock acquisitions. */
  datatype Phase<T, Ei, Ew, Eb, P> =
    | Starting                                  // `init_fun(worker_id)` runs, lock released
    | Pulling                                   // init or work has returned; next to lock and call `next`
    | Working(item: T)                          // `worker_fun` runs on `item`, lock released
    | Exited(join: WorkerJoin<Ei, Ew, Eb, P>)   // the guard has run; what joining the thread yields

  /** A worker: its phase and every item handed to it, in the order it got them. */
  datatype Worker<T, Ei, Ew, Eb, P> = Worker(phase: Phase<T, Ei, Ew, Eb, P>, taken: seq<T>)

  /**
    The whole call: the cursor, what the iterator has been asked, the workers
    in spawn order, the background result once it is known, how many times
    the finished callback ran, and the panic (if any) the callback raises.
  */
  datatype System<!S, T, Ei, Ew, Eb, P> = System(
    source: Source<S, T>,
    cursor: Cursor<S>,
    log: Log<T>,
    workers: seq<Worker<T, Ei, Ew, Eb, P>>,
    background: Option<BackgroundJoin<Eb, P>>,
    callbacks: nat,
    callbackPanic: Option<P>)

  /** One atomic step of one thread. */
  datatype Action<Ei, Ew, Eb, P> =
    | InitReturns(worker: nat, init: Result<(), Ei>)
    | Pull(worker: nat)
    | WorkReturns(worker: nat, work: Result<(), Ew>)
    | Panics(worker: nat, payload: P)
    | BackgroundReturns(background: BackgroundJoin<Eb, P>)

  function LiveWeight<T, Ei, Ew, Eb, P>(w: Worker<T, Ei, Ew, Eb, P>): int
  {
    if w.phase.Exited? then 0 else 1
  }

  /** The number of workers whose guard has not run yet. */
  function Live<T, Ei, Ew, Eb, P>(ws: seq<Worker<T, Ei, Ew, Eb, P>>): int
  {
    SumOf(ws, LiveWeight)
  }

  /** Every item handed to some worker, counted once per hand-out. */
  function Pool<T, Ei, Ew, Eb, P>(ws: seq<Worker<T, Ei, Ew, Eb, P>>): multiset<T>
  {
    if |ws| == 0 then multiset{} else multiset(ws[0].taken) + Pool(ws[1..])
  }

  /** The cursor's worker count is the number of workers still inside the call. */
  predicate Wellformed<S, T, Ei, Ew, Eb, P>(s: System<S, T, Ei, Ew, Eb, P>)
  {
    s.cursor.threadsRunning == Live(s.workers)
  }

  lemma {:induction false} LiveIsPositive<T, Ei, Ew, Eb, P>(ws: seq<Worker<T, Ei, Ew, Eb, P>>, w: nat)
    requires w < |ws| && !ws[w].phase.Exited?
    ensures Live(ws) >= 1
  {
    SumOfPositive(ws, w, LiveWeight);
  }

  lemma {:induction false} LiveIsZero<T, Ei, Ew, Eb, P>(ws: seq<Worker<T, Ei, Ew, Eb, P>>)
    ensures Live(ws) >= 0
    ensures Live(ws) == 0 <==> forall k :: 0 <= k < |ws| ==> ws[k].phase.Exited?
  {
    ZeroSum(ws, LiveWeight);
    NonNegative(ws, LiveWeight);
  }

  /** Changing a worker's phase alone leaves the pool of handed-out items as it is. */
  lemma {:induction false} PoolKeep<T, Ei, Ew, Eb, P>(ws: seq<Worker<T, Ei, Ew, Eb, P>>, i: nat, x: Worker<T, Ei, Ew, Eb, P>)
    requires i < |ws| && x.taken == ws[i].taken
    ensures Pool(ws[i := x]) == Pool(ws)
  {
    if i == 0 {
      assert ws[i := x][1..] == ws[1..];
    } else {
      assert ws[i := x][1..] == ws[1..][i - 1 := x];
      PoolKeep(ws[1..], i - 1, x);
    }
  }

  /** Handing one more item to a worker adds it to the pool. */
  lemma {:induction false} PoolTake<T, Ei, Ew, Eb, P>(ws: seq<Worker<T, Ei, Ew, Eb, P>>, i: nat, x: Worker<T, Ei, Ew, Eb, P>, item: T)
    requires i < |ws| && x.taken == ws[i].taken + [item]
    ensures Pool(ws[i := x]) == Pool(ws) + multiset{item}
  {
    if i == 0 {
      assert ws[i := x][1..] == ws[1..];
      assert multiset(x.taken) == multiset(ws[0].taken) + multiset{item};
    } else {
      assert ws[i := x][1..] == ws[1..][i - 1 := x];
      PoolTake(ws[1..], i - 1, x, item);
    }
  }

  /** The state right after the workers are spawned: all of them about to run `init_fun`. */
  function Start<S, T, Ei, Ew, Eb, P>(source: Source<S, T>, wc: WorkerCount, hostCpus: Positive, callbackPanic: Option<P>)
    : (s: System<S, T, Ei, Ew, Eb, P>)
    ensures |s.workers| >= 1 && s.cursor.threadsRunning == |s.workers|
    ensures wc.Manual? ==> |s.workers| == wc.count
    ensures forall k :: 0 <= k < |s.workers| ==> s.workers[k] == Worker(Starting, [])
    ensures s.cursor.iter == Some(source.start) && s.log == Log(0, []) && s.callbacks == 0
    ensures s.source == source && s.background.None? && s.callbackPanic == callbackPanic
    ensures Wellformed(s) && Pool(s.workers) == multiset{}
  {
    var n := ResolveWorkerCount(wc, hostCpus);
    var ws := seq(n, _ => Worker(Starting, []));
    StartCounts(ws);
    System(source, Cursor(Some(source.start), n), Log(0, []), ws, None, 0, callbackPanic)
  }

  /** A fresh call satisfies the invariant of a run. */
  lemma StartSatisfiesInv<S, T, Ei, Ew, Eb, P>(source: Source<S, T>, wc: WorkerCount, hostCpus: Positive, callbackPanic: Option<P>)
    ensures Inv(Start<S, T, Ei, Ew, Eb, P>(source, wc, hostCpus, callbackPanic))
  {
    var s: System<S, T, Ei, Ew, Eb, P> := Start(source, wc, hostCpus, callbackPanic);
    StartCounts(s.workers);
  }

  lemma {:induction false} StartCounts<T, Ei, Ew, Eb, P>(ws: seq<Worker<T, Ei, Ew, Eb, P>>)
    requires forall k :: 0 <= k < |ws| ==> ws[k] == Worker(Starting, [])
    ensures Live(ws) == |ws| && Pool(ws) == multiset{}
  {
    if |ws| > 0 {
      StartCounts(ws[1..]);
    }
  }

  /** Whether thread `a` can take its step now. */
  predicate Enabled<S, T, Ei, Ew, Eb, P>(s: System<S, T, Ei, Ew, Eb, P>, a: Action<Ei, Ew, Eb, P>)
  {
    match a
    case InitReturns(w, _) => w < |s.workers| && s.workers[w].phase.Starting?
    case Pull(w) => w < |s.workers| && s.workers[w].phase.Pulling?
    case WorkReturns(w, _) => w < |s.workers| && s.workers[w].phase.Working?
    case Panics(w, _) => w < |s.workers| && !s.workers[w].phase.Exited?
    case BackgroundReturns(_) => s.background.None?
  }

  /**
    The exit guard of worker `w`, which leaves with `j`: stop the cursor,
    decrement the count, and if this was the last worker run the finished
    callback with the lock released. A callback that panics turns the last
    worker's normal return into that panic.
  */
  function Exit<S, T, Ei, Ew, Eb, P>(s: System<S, T, Ei, Ew, Eb, P>, w: nat, j: WorkerJoin<Ei, Ew, Eb, P>)
    : (r: System<S, T, Ei, Ew, Eb, P>)
    requires Wellformed(s) && w < |s.workers| && !s.workers[w].phase.Exited?
    ensures Wellformed(r) && Stopped(r.cursor)
    ensures r.callbacks == s.callbacks + (if Live(r.workers) == 0 then 1 else 0)
  {
    LiveIsPositive(s.workers, w);
    var (c, last) := Leave(s.cursor);
    var j' := if last && j.Returned? && s.callbackPanic.Some? then Panicked(s.callbackPanic.value) else j;
    var ws := s.workers[w := s.workers[w].(phase := Exited(j'))];
    SumOfUpdate(s.workers, w, ws[w], LiveWeight);
    s.(cursor := c, workers := ws, callbacks := s.callbacks + if last then 1 else 0)
  }

  /** One atomic step; a step the thread cannot take now leaves the system as it is. */
  function Step<S, T, Ei, Ew, Eb, P>(s: System<S, T, Ei, Ew, Eb, P>, a: Action<Ei, Ew, Eb, P>)
    : (r: System<S, T, Ei, Ew, Eb, P>)
    requires Wellformed(s)
    ensures Wellformed(r)
    ensures |r.workers| == |s.workers| && r.source == s.source && r.callbackPanic == s.callbackPanic
    ensures Stopped(s.cursor) ==> Stopped(r.cursor) && r.log == s.log
    ensures forall k :: 0 <= k < |s.workers| && s.workers[k].phase.Exited? ==> r.workers[k] == s.workers[k]
    ensures s.background.Some? ==> r.background == s.background
  {
    if !Enabled(s, a) then s
    else
      match a
      case InitReturns(w, res) =>
        if res.Ok? then WithPhase(s, w, Pulling)
        else Exit(s, w, Returned(Err(InitTaskError(res.error))))
      case Pull(w) =>
        var (item, c) := Next(s.cursor, s.source.next);
        var s' := s.(cursor := c, log := Record(s.cursor, item, s.log));
        if item.Some? then
          var ws := s.workers[w := Worker(Working(item.value), s.workers[w].taken + [item.value])];
          SumOfUpdate(s.workers, w, ws[w], LiveWeight);
          s'.(workers := ws)
        else Exit(s', w, Returned(Ok(())))
      case WorkReturns(w, res) =>
        if res.Ok? then WithPhase(s, w, Pulling)
        else Exit(s, w, Returned(Err(WorkerTaskError(res.error))))
      case Panics(w, p) =>
        Exit(s, w, Panicked(p))
      case BackgroundReturns(b) =>
        s.(background := Some(b), cursor := if KeepsRunning(b) then s.cursor else SharedCursor.Stop(s.cursor))
  }

  /** Move a live worker to another live phase, keeping what it was given. */
  function WithPhase<S, T, Ei, Ew, Eb, P>(s: System<S, T, Ei, Ew, Eb, P>, w: nat, ph: Phase<T, Ei, Ew, Eb, P>)
    : (r: System<S, T, Ei, Ew, Eb, P>)
    requires Wellformed(s) && w < |s.workers| && !s.workers[w].phase.Exited? && !ph.Exited?
    ensures Wellformed(r)
  {
    var ws := s.workers[w := s.workers[w].(phase := ph)];
    SumOfUpdate(s.workers, w, ws[w], LiveWeight);
    s.(workers := ws)
  }

  /** The steps of `sched`, one after the other. */
  function Run<S, T, Ei, Ew, Eb, P>(s: System<S, T, Ei, Ew, Eb, P>, sched: seq<Action<Ei, Ew, Eb, P>>)
    : (r: System<S, T, Ei, Ew, Eb, P>)
    requires Wellformed(s)
    ensures Wellformed(r)
    ensures |r.workers| == |s.workers| && r.source == s.source && r.callbackPanic == s.callbackPanic
    ensures Stopped(s.cursor) ==> Stopped(r.cursor) && r.log == s.log
    ensures forall k :: 0 <= k < |s.workers| && s.workers[k].phase.Exited? ==> r.workers[k] == s.workers[k]
    ensures s.background.Some? ==> r.background == s.background
    decreases |sched|
  {
    if |sched| == 0 then s else Run(Step(s, sched[0]), sched[1..])
  }

  /** Some worker left with an error or a panic. */
  ghost predicate SomeFailed<S, T, Ei, Ew, Eb, P>(s: System<S, T, Ei, Ew, Eb, P>)
  {
    exists k :: 0 <= k < |s.workers| && s.workers[k].phase.Exited? && !Succeeded(s.workers[k].phase.join)
  }

  /** The background function returned something other than `Ok(Continue)`, or panicked. */
  predicate BackgroundHalted<S, T, Ei, Ew, Eb, P>(s: System<S, T, Ei, Ew, Eb, P>)
  {
    s.background.Some? && !KeepsRunning(s.background.value)
  }

  /**
    The invariant of a run: the count matches the live workers, the callback
    has run once exactly when none is left, the cursor follows the iterator,
    each item handed out went to exactly one worker, any exit or halting
    background result has stopped the cursor, and a stopped cursor is
    explained by exhaustion, a failure or the background result.
  */
  ghost predicate Inv<S, T, Ei, Ew, Eb, P>(s: System<S, T, Ei, Ew, Eb, P>)
  {
    && Wellformed(s)
    && |s.workers| >= 1
    && s.callbacks == (if Live(s.workers) == 0 then 1 else 0)
    && Consistent(s.cursor, s.source.next, s.source.start, s.log)
    && multiset(s.log.delivered) == Pool(s.workers)
    && (forall k :: 0 <= k < |s.workers| && s.workers[k].phase.Exited? ==> Stopped(s.cursor))
    && (BackgroundHalted(s) ==> Stopped(s.cursor))
    && (Stopped(s.cursor) ==> Exhausted(s.log) || SomeFailed(s) || BackgroundHalted(s))
  }

  /** The call is over: the background function has returned and every worker has left. */
  predicate Complete<S, T, Ei, Ew, Eb, P>(s: System<S, T, Ei, Ew, Eb, P>)
  {
    s.background.Some? && forall k :: 0 <= k < |s.workers| ==> s.workers[k].phase.Exited?
  }

  /** What joining the workers yields, in spawn order. */
  function Joins<T, Ei, Ew, Eb, P>(ws: seq<Worker<T, Ei, Ew, Eb, P>>): (js: seq<WorkerJoin<Ei, Ew, Eb, P>>)
    requires forall k :: 0 <= k < |ws| ==> ws[k].phase.Exited?
    ensures |js| == |ws| && forall k :: 0 <= k < |ws| ==> js[k] == ws[k].phase.join
  {
    seq(|ws|, k requires 0 <= k < |ws| && ws[k].phase.Exited? => ws[k].phase.join)
  }

  /**
    The result of the call once it is over, with the corrected scope
    resolution: it differs from the code as written exactly where the written
    code's final `unwrap` panics.
  */
  function Final<S, T, Ei, Ew, Eb, P>(s: System<S, T, Ei, Ew, Eb, P>): (r: EngineOutcome<Ei, Ew, Eb, P>)
    requires Complete(s)
    ensures r == Finished(Ok(())) <==>
              s.background.value.Returned? && s.background.value.value.Ok?
              && forall k :: 0 <= k < |s.workers| ==> Succeeded(s.workers[k].phase.join)
    ensures r != FinalAsWritten(s) <==> FinalAsWritten(s) == Unwinding(UnwrapFailed)
  {
    IntendedDiffersOnlyOnUnwrap(s.background.value, Joins(s.workers));
    ResolveIntended(s.background.value, Joins(s.workers))
  }

  /** The result of the call once it is over, as the code is written. */
  function FinalAsWritten<S, T, Ei, Ew, Eb, P>(s: System<S, T, Ei, Ew, Eb, P>): (r: EngineOutcome<Ei, Ew, Eb, P>)
    requires Complete(s)
    ensures r == Finished(Ok(())) <==>
              s.background.value.Returned? && s.background.value.value.Ok?
              && forall k :: 0 <= k < |s.workers| ==> Succeeded(s.workers[k].phase.join)
    ensures s.background.value.Panicked? ==> r == Unwinding(Resumed(s.background.value.payload))
  {
    Resolve(s.background.value, Joins(s.workers))
  }
}
