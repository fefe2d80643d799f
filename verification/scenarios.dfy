/**
  The situations the repository's tests set up, stated for every interleaving
  and every worker count: summing a range, summing through per-worker state,
  an iterator that misbehaves after its first `None`, an endless range stopped
  by the background function, and errors from each user function.
*/
module Scenarios {
  import opened Results
  import opened Sums
  import opened SharedCursor
  import opened Aggregate
  import opened Engine
  import opened Runs

  /** `start..end`: answer the current value and move on, until `end` is reached. */
  function RangeStep(end: nat): IterStep<nat, nat>
  {
    c => if c < end then (Some(c), c + 1) else (None, c)
  }

  /** `start..`: answer the current value and move on, without end. */
  function CountStep(): IterStep<nat, nat>
  {
    c => (Some(c), c + 1)
  }

  /**
    The test's `UglyIterator`: counts down, answers `None` once on reaching
    zero, and from then on answers `Some(1)` again forever.
  */
  function UglyNext(c: nat): (Option<nat>, nat)
  {
    if c == 0 then (Some(1), 0)
    else if c - 1 == 0 then (None, 0)
    else (Some(1), c - 1)
  }

  /** `UglyIterator(n + 1)`, which hands out `n` items before its `None`. */
  function UglySource(n: nat): Source<nat, nat>
  {
    var start: nat := n + 1;
    Source(start, UglyNext)
  }

  function AsInt(x: nat): int
  {
    x
  }

  /** `0, 1, ..., n - 1`. */
  function Upto(n: nat): (r: seq<nat>)
    ensures |r| == n && forall i :: 0 <= i < n ==> r[i] == i
  {
    if n == 0 then [] else Upto(n - 1) + [n - 1]
  }

  lemma {:induction false} RangeIterate(end: nat, k: nat)
    ensures Iterate(RangeStep(end), 0, k) == if k < end then k else end
  {
    if k > 0 {
      RangeIterate(end, k - 1);
    }
  }

  /** `0..end` answers `0, 1, ..., end - 1` and then `None`. */
  lemma RangeAnswers(end: nat, k: nat)
    ensures Response(RangeStep(end), 0, k) == if k < end then Some(k) else None
  {
    RangeIterate(end, k);
  }

  lemma {:induction false} UglyIterate(n: nat, k: nat)
    ensures Iterate<nat, nat>(UglyNext, n + 1, k) == if k <= n + 1 then n + 1 - k else 0
  {
    if k > 0 {
      UglyIterate(n, k - 1);
    }
  }

  /** `UglyIterator(n + 1)` answers `None` at its call number `n` (from zero), and `Some(1)` at every other. */
  lemma UglyAnswers(n: nat, k: nat)
    ensures Response<nat, nat>(UglyNext, n + 1, k) == if k == n then None else Some(1)
  {
    UglyIterate(n, k);
  }

  lemma {:induction false} SumUpto(n: nat)
    ensures SumOf(Upto(n), AsInt) == n * (n - 1) / 2
  {
    if n > 0 {
      SumUpto(n - 1);
      SumOfAppend<nat>(Upto(n - 1), n - 1, AsInt);
      assert (n - 1) * (n - 2) / 2 + (n - 1) == n * (n - 1) / 2 by {
        assert (n - 1) * (n - 2) + 2 * (n - 1) == n * (n - 1);
      }
    }
  }

  lemma {:induction false} SumOnes(xs: seq<nat>)
    requires forall i :: 0 <= i < |xs| ==> xs[i] == 1
    ensures SumOf(xs, AsInt) == |xs|
  {
    if |xs| > 0 {
      SumOnes(xs[1..]);
    }
  }

  /** Whatever `0..n` answers in order, up to its `None`, is `0, 1, ..., n - 1`. */
  lemma RangeDelivery(n: nat, d: seq<nat>)
    requires forall i :: 0 <= i < |d| ==> Response(RangeStep(n), 0, i) == Some(d[i])
    requires Response(RangeStep(n), 0, |d|).None?
    ensures d == Upto(n)
  {
    RangeAnswers(n, |d|);
    forall i | 0 <= i < |d|
      ensures d[i] == i && i < n
    {
      RangeAnswers(n, i);
    }
    if |d| > 0 {
      assert d[|d| - 1] == |d| - 1 < n;
    }
  }

  /** Nothing has been handed out when the workers start. */
  lemma {:induction false} StartWeight<T, Ei, Ew, Eb, P>(ws: seq<Worker<T, Ei, Ew, Eb, P>>, f: T -> int)
    requires forall k :: 0 <= k < |ws| ==> ws[k].taken == []
    ensures Weight(ws, f) == 0
  {
    if |ws| > 0 {
      StartWeight(ws[1..], f);
    }
  }

  /** A fresh call and its invariant over a run. */
  lemma Reached<S, T, Ei, Ew, Eb, P>(
    source: Source<S, T>, wc: WorkerCount, hostCpus: Positive, callbackPanic: Option<P>,
    sched: seq<Action<Ei, Ew, Eb, P>>)
    ensures Inv(Run(Start(source, wc, hostCpus, callbackPanic), sched))
  {
    StartSatisfiesInv<S, T, Ei, Ew, Eb, P>(source, wc, hostCpus, callbackPanic);
    RunKeepsInv(Start(source, wc, hostCpus, callbackPanic), sched);
  }

  /**
    Summing `0..n`: a call that ends cleanly has handed out exactly
    `0, 1, ..., n - 1`, in order, so the shared total is `n(n-1)/2`; the
    totals kept per worker and folded together at the end give the same sum;
    the callback has run and the call returns `Ok(())`.
  */
  lemma SumOfRange<Ei, Ew, Eb, P>(
    n: nat, wc: WorkerCount, hostCpus: Positive, callbackPanic: Option<P>,
    sched: seq<Action<Ei, Ew, Eb, P>>, s: System<nat, nat, Ei, Ew, Eb, P>)
    requires s == Run(Start(Source(0, RangeStep(n)), wc, hostCpus, callbackPanic), sched)
    requires Complete(s) && KeepsRunning(s.background.value)
    requires forall k :: 0 <= k < |s.workers| ==> Succeeded(s.workers[k].phase.join)
    ensures s.log.delivered == Upto(n)
    ensures SumOf(s.log.delivered, AsInt) == n * (n - 1) / 2
    ensures Weight(s.workers, AsInt) == n * (n - 1) / 2
    ensures s.callbacks == 1 && Final(s) == FinalAsWritten(s) == Finished(Ok(()))
  {
    Reached(Source(0, RangeStep(n)), wc, hostCpus, callbackPanic, sched);
    var s0: System<nat, nat, Ei, Ew, Eb, P> := Start(Source(0, RangeStep(n)), wc, hostCpus, callbackPanic);
    CleanRunDrainsSource(s);
    RangeDelivery(n, s.log.delivered);
    SumUpto(n);
    StartWeight(s0.workers, AsInt);
    RunKeepsWeight(s0, sched, AsInt);
  }

  /**
    The misbehaving iterator: `UglyIterator(n + 1)` is asked exactly `n + 1`
    times and never again after its `None`, so a clean call sums to `n`.
  */
  lemma UglyIteratorSum<Ei, Ew, Eb, P>(
    n: nat, wc: WorkerCount, hostCpus: Positive, callbackPanic: Option<P>,
    sched: seq<Action<Ei, Ew, Eb, P>>, s: System<nat, nat, Ei, Ew, Eb, P>)
    requires s == Run(Start(UglySource(n), wc, hostCpus, callbackPanic), sched)
    requires Complete(s) && KeepsRunning(s.background.value)
    requires forall k :: 0 <= k < |s.workers| ==> Succeeded(s.workers[k].phase.join)
    ensures |s.log.delivered| == n && s.log.polls == n + 1
    ensures SumOf(s.log.delivered, AsInt) == n
  {
    Reached(UglySource(n), wc, hostCpus, callbackPanic, sched);
    CleanRunDrainsSource(s);
    var d := s.log.delivered;
    UglyAnswers(n, |d|);
    forall i | 0 <= i < |d|
      ensures d[i] == 1 && i != n
    {
      UglyAnswers(n, i);
    }
    SumOnes(d);
  }

  /**
    An endless `0..` never runs dry, so a call over it that ends with every
    worker returning `Ok(())` was ended by the background function.
  */
  lemma EndlessRangeNeedsStop<Ei, Ew, Eb, P>(
    wc: WorkerCount, hostCpus: Positive, callbackPanic: Option<P>,
    sched: seq<Action<Ei, Ew, Eb, P>>, s: System<nat, nat, Ei, Ew, Eb, P>)
    requires s == Run(Start(Source(0, CountStep()), wc, hostCpus, callbackPanic), sched)
    requires Complete(s)
    requires forall k :: 0 <= k < |s.workers| ==> Succeeded(s.workers[k].phase.join)
    ensures !KeepsRunning(s.background.value)
  {
    Reached(Source(0, CountStep()), wc, hostCpus, callbackPanic, sched);
    if KeepsRunning(s.background.value) {
      CleanRunDrainsSource(s);
      assert false;
    }
  }

  /**
    `Ok(Stop)` from the background function stops the cursor: after that step
    no item is handed out whatever the workers do, and a call whose workers all
    return `Ok(())` still returns `Ok(())` with the callback run once.
  */
  lemma StopFromBackground<S, T, Ei, Ew, Eb, P>(
    s: System<S, T, Ei, Ew, Eb, P>, rest: seq<Action<Ei, Ew, Eb, P>>)
    requires Inv(s) && s.background.None?
    ensures var s1 := Step(s, BackgroundReturns(Returned(Ok(Stop))));
            && Stopped(s1.cursor)
            && Run(s1, rest).log == s1.log == s.log
            && (Complete(Run(s1, rest)) && (forall k :: 0 <= k < |s.workers| ==> Succeeded(Run(s1, rest).workers[k].phase.join))
                ==> Final(Run(s1, rest)) == FinalAsWritten(Run(s1, rest)) == Finished(Ok(())) && Run(s1, rest).callbacks == 1)
  {
    var s1 := Step(s, BackgroundReturns(Returned(Ok(Stop))));
    StepKeepsInv(s, BackgroundReturns(Returned(Ok(Stop))));
    RunKeepsInv(s1, rest);
    LiveIsZero(Run(s1, rest).workers);
  }

  /**
    Errors keep their origin: when no thread panicked and the background
    function did not fail, the call returns the error of the first worker in
    spawn order that did not succeed, `InitTaskError` or `WorkerTaskError`
    carrying the user's error unchanged; and the callback has run.
  */
  lemma WorkerErrorSurfaces<S, T, Ei, Ew, Eb, P>(s: System<S, T, Ei, Ew, Eb, P>, i: nat)
    requires Inv(s) && Complete(s)
    requires s.background.value.Returned? && s.background.value.value.Ok?
    requires forall k :: 0 <= k < |s.workers| ==> s.workers[k].phase.join.Returned?
    requires i < |s.workers| && !Succeeded(s.workers[i].phase.join)
    requires forall k :: 0 <= k < i ==> Succeeded(s.workers[k].phase.join)
    ensures Final(s) == FinalAsWritten(s) == Finished(s.workers[i].phase.join.value)
    ensures s.callbacks == 1
  {
    var js := Joins(s.workers);
    FirstWorkerFailureDecides(s.background.value.value.value, js, i);
    LiveIsZero(s.workers);
  }

  /** The test `error_from_init`: worker 0's init fails, nobody panics, so that error is returned. */
  lemma InitErrorSurfaces<S, T, Ei, Ew, Eb, P>(s: System<S, T, Ei, Ew, Eb, P>, e: Ei)
    requires Inv(s) && Complete(s) && KeepsRunning(s.background.value)
    requires forall k :: 0 <= k < |s.workers| ==> s.workers[k].phase.join.Returned?
    requires s.workers[0].phase.join == Returned(Err(InitTaskError(e)))
    ensures Final(s) == FinalAsWritten(s) == Finished(Err(InitTaskError(e)))
  {
    WorkerErrorSurfaces(s, 0);
  }

  /**
    The test `error_from_background`: a background error is returned as
    `BackgroundTaskError` whatever the workers returned, as long as none of
    them panicked; and the callback has run.
  */
  lemma BackgroundErrorSurfaces<S, T, Ei, Ew, Eb, P>(s: System<S, T, Ei, Ew, Eb, P>, eb: Eb)
    requires Inv(s) && Complete(s) && s.background.value == Returned(Err(eb))
    requires forall k :: 0 <= k < |s.workers| ==> s.workers[k].phase.join.Returned?
    ensures Final(s) == FinalAsWritten(s) == Finished(Err(BackgroundTaskError(eb)))
    ensures s.callbacks == 1
  {
    BackgroundErrorComesFirst(eb, Joins(s.workers));
    LiveIsZero(s.workers);
  }

  /**
    The `propagates_panics_*` tests: a panic in any thread (including the
    callback's, which lands on the last worker) makes the call unwind with an
    original payload, after the callback has run. As the code is written this
    holds whenever no thread returned an error, as in those tests; the
    corrected resolution keeps it everywhere.
  */
  lemma PanicsPropagate<S, T, Ei, Ew, Eb, P>(s: System<S, T, Ei, Ew, Eb, P>)
    requires Inv(s) && Complete(s)
    requires s.background.value.Panicked? || exists k :: 0 <= k < |s.workers| && s.workers[k].phase.join.Panicked?
    ensures Final(s).Unwinding? && Final(s).panic.Resumed?
    ensures s.background.value == Panicked(Final(s).panic.payload)
            || exists k :: 0 <= k < |s.workers| && s.workers[k].phase.join == Panicked(Final(s).panic.payload)
    ensures NoErrors(s.background.value, Joins(s.workers)) ==> FinalAsWritten(s) == Final(s)
    ensures s.callbacks == 1
  {
    var js := Joins(s.workers);
    if !s.background.value.Panicked? {
      var k :| 0 <= k < |s.workers| && s.workers[k].phase.join.Panicked?;
      assert js[k].Panicked?;
    }
    if NoErrors(s.background.value, js) {
      PanicsResumedWithoutErrors(s.background.value, js);
    }
    LiveIsZero(s.workers);
  }

  /**
    A reachable run that shows the finding: one worker over `0..3`, the
    background function fails, then the worker panics. As written the call
    panics from `unwrap` and the worker's payload is lost; corrected, it is
    resumed.
  */
  lemma BackgroundErrorHidesPanic<Ei, Ew, Eb, P>(eb: Eb, p: P)
    ensures var sched: seq<Action<Ei, Ew, Eb, P>> := [BackgroundReturns(Returned(Err(eb))), Panics(0, p)];
            var s: System<nat, nat, Ei, Ew, Eb, P> := Run(Start(Source(0, RangeStep(3)), Manual(1), 1, None), sched);
            && Complete(s)
            && FinalAsWritten(s) == Unwinding(UnwrapFailed)
            && Final(s) == Unwinding(Resumed(p))
  {
  }
}
