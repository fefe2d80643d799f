/**
  What holds of every run of the engine, whatever the interleaving and
  whatever the user functions return.
*/
module Runs {
  import opened Results
  import opened Sums
  import opened SharedCursor
  import opened Aggregate
  import opened Engine

  /** A live worker moving to another live phase keeps the invariant. */
  lemma WithPhaseKeepsInv<S, T, Ei, Ew, Eb, P>(s: System<S, T, Ei, Ew, Eb, P>, w: nat, ph: Phase<T, Ei, Ew, Eb, P>)
    requires Inv(s) && w < |s.workers| && !s.workers[w].phase.Exited? && !ph.Exited?
    ensures Inv(WithPhase(s, w, ph))
  {
    var r := WithPhase(s, w, ph);
    PoolKeep(s.workers, w, r.workers[w]);
    LiveIsPositive(s.workers, w);
    LiveIsPositive(r.workers, w);
    if SomeFailed(s) {
      var k :| 0 <= k < |s.workers| && s.workers[k].phase.Exited? && !Succeeded(s.workers[k].phase.join);
      assert r.workers[k] == s.workers[k];
    }
  }

  /**
    The exit guard keeps the invariant. A worker that leaves normally has
    just seen `next` answer `None`, so the cursor is stopped already.
  */
  lemma ExitKeepsInv<S, T, Ei, Ew, Eb, P>(s: System<S, T, Ei, Ew, Eb, P>, w: nat, j: WorkerJoin<Ei, Ew, Eb, P>)
    requires Inv(s) && w < |s.workers| && !s.workers[w].phase.Exited?
    requires Succeeded(j) ==> Stopped(s.cursor)
    ensures Inv(Exit(s, w, j))
  {
    var r := Exit(s, w, j);
    PoolKeep(s.workers, w, r.workers[w]);
    LiveIsPositive(s.workers, w);
    LiveIsZero(r.workers);
    if !Succeeded(r.workers[w].phase.join) {
      assert SomeFailed(r);
    } else if SomeFailed(s) {
      var k :| 0 <= k < |s.workers| && s.workers[k].phase.Exited? && !Succeeded(s.workers[k].phase.join);
      assert r.workers[k] == s.workers[k];
    }
  }

  /** Every step keeps the invariant. */
  lemma StepKeepsInv<S, T, Ei, Ew, Eb, P>(s: System<S, T, Ei, Ew, Eb, P>, a: Action<Ei, Ew, Eb, P>)
    requires Inv(s)
    ensures Inv(Step(s, a))
  {
    if !Enabled(s, a) {
      return;
    }
    match a
    case InitReturns(w, res) =>
      if res.Ok? {
        WithPhaseKeepsInv(s, w, Pulling);
      } else {
        ExitKeepsInv(s, w, Returned(Err(InitTaskError(res.error))));
      }
    case WorkReturns(w, res) =>
      if res.Ok? {
        WithPhaseKeepsInv(s, w, Pulling);
      } else {
        ExitKeepsInv(s, w, Returned(Err(WorkerTaskError(res.error))));
      }
    case Panics(w, p) =>
      ExitKeepsInv(s, w, Panicked(p));
    case Pull(w) =>
      PullKeepsInv(s, w);
    case BackgroundReturns(b) =>
      var r := Step(s, a);
      if SomeFailed(s) {
        var k :| 0 <= k < |s.workers| && s.workers[k].phase.Exited? && !Succeeded(s.workers[k].phase.join);
        assert r.workers[k] == s.workers[k];
      }
  }

  /** The cursor and the log after worker's call of `next`, before anything else happens. */
  function AfterNext<S, T, Ei, Ew, Eb, P>(s: System<S, T, Ei, Ew, Eb, P>): (r: System<S, T, Ei, Ew, Eb, P>)
    requires Wellformed(s)
    ensures Wellformed(r)
  {
    var (item, c) := Next(s.cursor, s.source.next);
    s.(cursor := c, log := Record(s.cursor, item, s.log))
  }

  lemma PullKeepsInv<S, T, Ei, Ew, Eb, P>(s: System<S, T, Ei, Ew, Eb, P>, w: nat)
    requires Inv(s) && w < |s.workers| && s.workers[w].phase.Pulling?
    ensures Inv(Step(s, Pull(w)))
  {
    NextFollowsSource(s.cursor, s.source.next, s.source.start, s.log);
    if Next(s.cursor, s.source.next).0.Some? {
      PullItemKeepsInv(s, w);
    } else {
      var s' := AfterNext(s);
      LiveIsPositive(s.workers, w);
      if SomeFailed(s) {
        var k :| 0 <= k < |s.workers| && s.workers[k].phase.Exited? && !Succeeded(s.workers[k].phase.join);
        assert s'.workers[k] == s.workers[k];
      }
      assert Inv(s');
      assert Step(s, Pull(w)) == Exit(s', w, Returned(Ok(())));
      ExitKeepsInv(s', w, Returned(Ok(())));
    }
  }

  lemma PullItemKeepsInv<S, T, Ei, Ew, Eb, P>(s: System<S, T, Ei, Ew, Eb, P>, w: nat)
    requires Inv(s) && w < |s.workers| && s.workers[w].phase.Pulling?
    requires Next(s.cursor, s.source.next).0.Some?
    ensures Inv(Step(s, Pull(w)))
  {
    NextFollowsSource(s.cursor, s.source.next, s.source.start, s.log);
    var x := Next(s.cursor, s.source.next).0.value;
    var r := Step(s, Pull(w));
    assert r.workers == s.workers[w := Worker(Working(x), s.workers[w].taken + [x])];
    assert r.log.delivered == s.log.delivered + [x];
    PoolTake(s.workers, w, r.workers[w], x);
    LiveIsPositive(s.workers, w);
    LiveIsPositive(r.workers, w);
  }

  /** Every run keeps the invariant. */
  lemma {:induction false} RunKeepsInv<S, T, Ei, Ew, Eb, P>(s: System<S, T, Ei, Ew, Eb, P>, sched: seq<Action<Ei, Ew, Eb, P>>)
    requires Inv(s)
    ensures Inv(Run(s, sched))
    decreases |sched|
  {
    if |sched| > 0 {
      StepKeepsInv(s, sched[0]);
      RunKeepsInv(Step(s, sched[0]), sched[1..]);
    }
  }

  /**
    The finished callback runs at most once, and it has run exactly when every
    worker has left; a fresh call keeps that across any interleaving.
  */
  lemma CallbackFiresOnce<S, T, Ei, Ew, Eb, P>(
    source: Source<S, T>, wc: WorkerCount, hostCpus: Positive, callbackPanic: Option<P>,
    sched: seq<Action<Ei, Ew, Eb, P>>)
    ensures var s := Run(Start(source, wc, hostCpus, callbackPanic), sched);
            && s.callbacks <= 1
            && (s.callbacks == 1 <==> forall k :: 0 <= k < |s.workers| ==> s.workers[k].phase.Exited?)
  {
    var s0: System<S, T, Ei, Ew, Eb, P> := Start(source, wc, hostCpus, callbackPanic);
    StartSatisfiesInv<S, T, Ei, Ew, Eb, P>(source, wc, hostCpus, callbackPanic);
    RunKeepsInv(s0, sched);
    LiveIsZero(Run(s0, sched).workers);
  }

  /** Once the callback has run, no worker can take another step: none of them pulls or works any more. */
  lemma NothingRunsAfterCallback<S, T, Ei, Ew, Eb, P>(s: System<S, T, Ei, Ew, Eb, P>, a: Action<Ei, Ew, Eb, P>)
    requires Inv(s) && s.callbacks == 1 && !a.BackgroundReturns?
    ensures !Enabled(s, a)
  {
    LiveIsZero(s.workers);
  }

  /** Once the iterator has answered `None`, it is never asked again, whatever happens next. */
  lemma NeverPolledAfterExhaustion<S, T, Ei, Ew, Eb, P>(s: System<S, T, Ei, Ew, Eb, P>, sched: seq<Action<Ei, Ew, Eb, P>>)
    requires Inv(s) && Exhausted(s.log)
    ensures Run(s, sched).log == s.log
  {
    ExhaustedIsStopped(s.cursor, s.source.next, s.source.start, s.log);
  }

  /**
    Once any worker has left, by error, panic or exhaustion, its guard has
    stopped the cursor: no further item is handed out to anybody.
  */
  lemma ExitHaltsDelivery<S, T, Ei, Ew, Eb, P>(s: System<S, T, Ei, Ew, Eb, P>, sched: seq<Action<Ei, Ew, Eb, P>>, w: nat)
    requires Inv(s) && w < |s.workers| && s.workers[w].phase.Exited?
    ensures Run(s, sched).log == s.log
  {
  }

  /**
    A call that ends with `Ok(Continue)` from the background function and
    `Ok(())` from every worker has drained the iterator: the items handed out
    are exactly its answers before its first `None`, the callback has run, and
    the call returns `Ok(())`.
  */
  lemma CleanRunDrainsSource<S, T, Ei, Ew, Eb, P>(s: System<S, T, Ei, Ew, Eb, P>)
    requires Inv(s) && Complete(s) && KeepsRunning(s.background.value)
    requires forall k :: 0 <= k < |s.workers| ==> Succeeded(s.workers[k].phase.join)
    ensures Exhausted(s.log)
    ensures forall i :: 0 <= i < |s.log.delivered| ==> Response(s.source.next, s.source.start, i) == Some(s.log.delivered[i])
    ensures Response(s.source.next, s.source.start, |s.log.delivered|).None?
    ensures s.callbacks == 1
    ensures Final(s) == FinalAsWritten(s) == Finished(Ok(()))
  {
    assert s.workers[0].phase.Exited?;
    LiveIsZero(s.workers);
    assert !SomeFailed(s);
  }

  /** How many steps the workers can still take after a stop, plus one if the background result is pending. */
  function Rank<T, Ei, Ew, Eb, P>(w: Worker<T, Ei, Ew, Eb, P>): int
  {
    match w.phase
    case Starting => 2
    case Pulling => 1
    case Working(_) => 2
    case Exited(_) => 0
  }

  function Pending<S, T, Ei, Ew, Eb, P>(s: System<S, T, Ei, Ew, Eb, P>): int
  {
    SumOf(s.workers, Rank) + (if s.background.None? then 1 else 0)
  }

  /**
    Cooperative cancellation: once the cursor is stopped, every step any
    thread can take brings the call closer to its end, so at most two steps
    per worker and the background step remain.
  */
  lemma WindDown<S, T, Ei, Ew, Eb, P>(s: System<S, T, Ei, Ew, Eb, P>, a: Action<Ei, Ew, Eb, P>)
    requires Inv(s) && Stopped(s.cursor) && Enabled(s, a)
    ensures 0 <= Pending(Step(s, a)) < Pending(s) <= 2 * |s.workers| + 1
  {
    var r := Step(s, a);
    PendingBound(s.workers);
    NonNegative(r.workers, Rank);
    if !a.BackgroundReturns? {
      var w := a.worker;
      SumOfUpdate(s.workers, w, r.workers[w], Rank);
      assert r.workers == s.workers[w := r.workers[w]];
      assert Rank(r.workers[w]) < Rank(s.workers[w]);
    }
  }

  lemma {:induction false} PendingBound<T, Ei, Ew, Eb, P>(ws: seq<Worker<T, Ei, Ew, Eb, P>>)
    ensures 0 <= SumOf(ws, Rank) <= 2 * |ws|
  {
    if |ws| > 0 {
      PendingBound(ws[1..]);
    }
  }

  /** The sum of `f` over the items handed to the workers. */
  function Weight<T, Ei, Ew, Eb, P>(ws: seq<Worker<T, Ei, Ew, Eb, P>>, f: T -> int): int
  {
    if |ws| == 0 then 0 else SumOf(ws[0].taken, f) + Weight(ws[1..], f)
  }

  lemma {:induction false} WeightUpdate<T, Ei, Ew, Eb, P>(ws: seq<Worker<T, Ei, Ew, Eb, P>>, i: nat, x: Worker<T, Ei, Ew, Eb, P>, f: T -> int)
    requires i < |ws|
    ensures Weight(ws[i := x], f) == Weight(ws, f) - SumOf(ws[i].taken, f) + SumOf(x.taken, f)
  {
    if i == 0 {
      assert ws[i := x][1..] == ws[1..];
    } else {
      assert ws[i := x][1..] == ws[1..][i - 1 := x];
      WeightUpdate(ws[1..], i - 1, x, f);
    }
  }

  /** A step adds to the workers' totals exactly what it hands out. */
  lemma StepKeepsWeight<S, T, Ei, Ew, Eb, P>(s: System<S, T, Ei, Ew, Eb, P>, a: Action<Ei, Ew, Eb, P>, f: T -> int)
    requires Wellformed(s) && SumOf(s.log.delivered, f) == Weight(s.workers, f)
    ensures var r := Step(s, a); SumOf(r.log.delivered, f) == Weight(r.workers, f)
  {
    var r := Step(s, a);
    if Enabled(s, a) && !a.BackgroundReturns? {
      var w := a.worker;
      assert r.workers == s.workers[w := r.workers[w]];
      WeightUpdate(s.workers, w, r.workers[w], f);
      if a.Pull? && Next(s.cursor, s.source.next).0.Some? {
        var x := Next(s.cursor, s.source.next).0.value;
        SumOfAppend(s.log.delivered, x, f);
        SumOfAppend(s.workers[w].taken, x, f);
      }
    }
  }

  /**
    Whatever each worker does with the items it was given, the per-worker
    totals add up to the total over everything handed out: each item went to
    exactly one worker.
  */
  lemma {:induction false} RunKeepsWeight<S, T, Ei, Ew, Eb, P>(s: System<S, T, Ei, Ew, Eb, P>, sched: seq<Action<Ei, Ew, Eb, P>>, f: T -> int)
    requires Wellformed(s) && SumOf(s.log.delivered, f) == Weight(s.workers, f)
    ensures var r := Run(s, sched); SumOf(r.log.delivered, f) == Weight(r.workers, f)
    decreases |sched|
  {
    if |sched| > 0 {
      StepKeepsWeight(s, sched[0], f);
      RunKeepsWeight(Step(s, sched[0]), sched[1..], f);
    }
  }
}
