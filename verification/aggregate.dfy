/**
  How `parallel_for_each` turns the background result and the joined worker
  threads into its own result. The closure passed to the thread scope first
  handles the background result, then joins the workers in spawn order and
  returns early on the first failure; the scope then joins every handle the
  closure left, and the caller unwraps the scope's result.
*/
module Aggregate {
  import opened Results

  /** What the background function asks of the workers. */
  datatype Continue = Continue | Stop

  /** `ParallelForEachError`: which user function failed, carrying its error unchanged. */
  datatype ForEachError<Ei, Ew, Eb> =
    | InitTaskError(initSource: Ei)
    | WorkerTaskError(workerSource: Ew)
    | BackgroundTaskError(backgroundSource: Eb)

  /** What joining a thread (or catching an unwind) yields: the value returned, or the panic payload. */
  datatype Join<R, P> = Returned(value: R) | Panicked(payload: P)

  /**
    How a panic leaves the call: a payload resumed unchanged, or the panic of
    `unwrap` on the scope's error. That panic carries only a message formatted
    by `unwrap`; the payloads the scope collected are dropped with its error.
  */
  datatype Panic<P> = Resumed(payload: P) | UnwrapFailed

  /** The call either returns a value or unwinds. */
  datatype Outcome<R, P> = Finished(result: R) | Unwinding(panic: Panic<P>)

  type WorkerJoin<Ei, Ew, Eb, P> = Join<Result<(), ForEachError<Ei, Ew, Eb>>, P>
  type BackgroundJoin<Eb, P> = Join<Result<Continue, Eb>, P>
  type EngineOutcome<Ei, Ew, Eb, P> = Outcome<Result<(), ForEachError<Ei, Ew, Eb>>, P>

  /** A worker that returned `Ok(())`. */
  predicate Succeeded<Ei, Ew, Eb, P>(j: WorkerJoin<Ei, Ew, Eb, P>)
  {
    j.Returned? && j.value.Ok?
  }

  /** Only `Ok(Continue)` lets the workers go on; anything else stops the cursor. */
  predicate KeepsRunning<Eb, P>(b: BackgroundJoin<Eb, P>)
  {
    b.Returned? && b.value.Ok? && b.value.value.Continue?
  }

  /** The panic payloads among `js`, in spawn order. */
  function PanicsOf<R, P>(js: seq<Join<R, P>>): (ps: seq<P>)
    ensures |ps| == 0 <==> forall k :: 0 <= k < |js| ==> js[k].Returned?
    ensures forall p :: p in ps ==> exists k :: 0 <= k < |js| && js[k] == Panicked(p)
    ensures |ps| > 0 ==> exists k :: 0 <= k < |js| && js[k] == Panicked(ps[0]) && forall m :: 0 <= m < k ==> js[m].Returned?
  {
    if |js| == 0 then []
    else
      var rest := PanicsOf(js[1..]);
      assert forall k :: 0 <= k < |js[1..]| ==> js[1..][k] == js[k + 1];
      match js[0]
      case Panicked(p) => [p] + rest
      case Returned(_) => rest
  }

  /** The spawn index of the first worker that did not return `Ok(())`, or `|js|` if all did. */
  function FirstUnsuccessful<Ei, Ew, Eb, P>(js: seq<WorkerJoin<Ei, Ew, Eb, P>>): (i: nat)
    ensures i <= |js|
    ensures forall k :: 0 <= k < i ==> Succeeded(js[k])
    ensures i < |js| ==> !Succeeded(js[i])
  {
    if |js| == 0 then 0
    else if Succeeded(js[0]) then
      var i := FirstUnsuccessful(js[1..]);
      assert forall k :: 0 <= k < i ==> js[1..][k] == js[k + 1];
      1 + i
    else 0
  }

  /**
    The join loop of the scope closure: join the handles in spawn order, return
    the first error and resume the first panic met. Yields the closure's result
    and how many handles it joined.
  */
  method JoinInSpawnOrder<Ei, Ew, Eb, P>(js: seq<WorkerJoin<Ei, Ew, Eb, P>>)
    returns (body: WorkerJoin<Ei, Ew, Eb, P>, joined: nat)
    ensures joined <= |js|
    ensures forall k :: 0 <= k < joined && k != joined - 1 ==> Succeeded(js[k])
    ensures (joined == |js| && body == Returned(Ok(()))) || (0 < joined && body == js[joined - 1] && !Succeeded(body))
    ensures FirstUnsuccessful(js) == |js| ==> joined == |js| && body == Returned(Ok(()))
    ensures FirstUnsuccessful(js) < |js| ==> joined == FirstUnsuccessful(js) + 1 && body == js[joined - 1]
  {
    var i := 0;
    while i < |js|
      invariant i <= |js|
      invariant forall k :: 0 <= k < i ==> Succeeded(js[k])
    {
      match js[i]
      case Returned(Ok(_)) =>
        i := i + 1;
      case Returned(Err(e)) =>
        body, joined := Returned(Err(e)), i + 1;
        return;
      case Panicked(p) =>
        body, joined := Panicked(p), i + 1;
        return;
    }
    body, joined := Returned(Ok(())), i;
  }

  /** The scope closure's own result: the background handling, then the join loop. */
  function ScopeBody<Ei, Ew, Eb, P>(bg: BackgroundJoin<Eb, P>, js: seq<WorkerJoin<Ei, Ew, Eb, P>>)
    : (r: (WorkerJoin<Ei, Ew, Eb, P>, nat))
    ensures r.1 <= |js|
  {
    match bg
    case Panicked(p) => (Panicked(p), 0)
    case Returned(Err(eb)) => (Returned(Err(BackgroundTaskError(eb))), 0)
    case Returned(Ok(_)) =>
      var i := FirstUnsuccessful(js);
      if i == |js| then (Returned(Ok(())), |js|) else (js[i], i + 1)
  }

  /**
    The thread scope as written: a panicking closure is resumed; otherwise any
    panic among the handles the closure did not join makes the scope fail, and
    the caller's `unwrap` panics with its own message, losing those payloads.
  */
  function ScopeExit<Ei, Ew, Eb, P>(body: WorkerJoin<Ei, Ew, Eb, P>, unjoined: seq<WorkerJoin<Ei, Ew, Eb, P>>)
    : EngineOutcome<Ei, Ew, Eb, P>
  {
    match body
    case Panicked(p) => Unwinding(Resumed(p))
    case Returned(v) =>
      var ps := PanicsOf(unjoined);
      if |ps| == 0 then Finished(v) else Unwinding(UnwrapFailed)
  }

  /** The result of `parallel_for_each` as the code is written. */
  function Resolve<Ei, Ew, Eb, P>(bg: BackgroundJoin<Eb, P>, js: seq<WorkerJoin<Ei, Ew, Eb, P>>)
    : (r: EngineOutcome<Ei, Ew, Eb, P>)
    ensures r == Finished(Ok(())) <==> bg.Returned? && bg.value.Ok? && forall k :: 0 <= k < |js| ==> Succeeded(js[k])
    ensures (bg.Panicked? || exists k :: 0 <= k < |js| && js[k].Panicked?) ==> r.Unwinding?
    ensures bg.Panicked? ==> r == Unwinding(Resumed(bg.payload))
  {
    var (body, joined) := ScopeBody(bg, js);
    var r := ScopeExit(body, js[joined..]);
    assert bg.Returned? && bg.value.Ok? ==> forall k :: 0 <= k < |js| && js[k].Panicked? && k >= joined ==> js[joined..][k - joined] == js[k];
    r
  }

  /**
    The scope with the evident intent of the code: the caller's `unwrap` is
    meant never to fail, so a panic among the handles the closure left is
    resumed with its own payload (the first one in spawn order).
  */
  function ScopeExitIntended<Ei, Ew, Eb, P>(body: WorkerJoin<Ei, Ew, Eb, P>, unjoined: seq<WorkerJoin<Ei, Ew, Eb, P>>)
    : EngineOutcome<Ei, Ew, Eb, P>
  {
    match body
    case Panicked(p) => Unwinding(Resumed(p))
    case Returned(v) =>
      var ps := PanicsOf(unjoined);
      if |ps| == 0 then Finished(v) else Unwinding(Resumed(ps[0]))
  }

  /** The result of `parallel_for_each` with every panic resumed with its original payload. */
  function ResolveIntended<Ei, Ew, Eb, P>(bg: BackgroundJoin<Eb, P>, js: seq<WorkerJoin<Ei, Ew, Eb, P>>)
    : (r: EngineOutcome<Ei, Ew, Eb, P>)
    ensures r == Finished(Ok(())) <==> bg.Returned? && bg.value.Ok? && forall k :: 0 <= k < |js| ==> Succeeded(js[k])
    ensures (bg.Panicked? || exists k :: 0 <= k < |js| && js[k].Panicked?) ==> r.Unwinding?
    ensures r.Unwinding? ==> r.panic.Resumed?
    ensures r.Unwinding? ==> bg == Panicked(r.panic.payload) || exists k :: 0 <= k < |js| && js[k] == Panicked(r.panic.payload)
  {
    var (body, joined) := ScopeBody(bg, js);
    var r := ScopeExitIntended(body, js[joined..]);
    assert forall k :: joined <= k < |js| ==> js[joined..][k - joined] == js[k];
    r
  }

  /** No worker panicked. */
  predicate NoPanics<R, P>(js: seq<Join<R, P>>)
  {
    forall k :: 0 <= k < |js| ==> js[k].Returned?
  }

  /**
    A background error is reported before any worker result is looked at: with
    no worker panic it is the result, whatever the workers returned.
  */
  lemma BackgroundErrorComesFirst<Ei, Ew, Eb, P>(eb: Eb, js: seq<WorkerJoin<Ei, Ew, Eb, P>>)
    requires NoPanics(js)
    ensures Resolve(Returned(Err(eb)), js) == Finished(Err(BackgroundTaskError(eb)))
    ensures ResolveIntended(Returned(Err(eb)), js) == Finished(Err(BackgroundTaskError(eb)))
  {
  }

  /**
    Otherwise the workers are inspected in spawn order: the first worker that
    did not succeed decides, its error returned unchanged or its panic resumed.
  */
  lemma FirstWorkerFailureDecides<Ei, Ew, Eb, P>(c: Continue, js: seq<WorkerJoin<Ei, Ew, Eb, P>>, i: nat)
    requires i < |js| && !Succeeded(js[i])
    requires forall k :: 0 <= k < i ==> Succeeded(js[k])
    requires NoPanics(js[i + 1..])
    ensures js[i].Panicked? ==> Resolve(Returned(Ok(c)), js) == Unwinding(Resumed(js[i].payload))
    ensures js[i].Returned? ==> Resolve(Returned(Ok(c)), js) == Finished(js[i].value)
    ensures Resolve(Returned(Ok(c)), js) == ResolveIntended(Returned(Ok(c)), js)
  {
    assert FirstUnsuccessful(js) == i;
  }

  /**
    Every error the call returns is the background error, or the error of the
    first worker in spawn order that did not succeed, carried unchanged; and
    no thread panicked.
  */
  lemma ErrorProvenance<Ei, Ew, Eb, P>(bg: BackgroundJoin<Eb, P>, js: seq<WorkerJoin<Ei, Ew, Eb, P>>, e: ForEachError<Ei, Ew, Eb>)
    requires Resolve(bg, js) == Finished(Err(e))
    ensures bg.Returned? && NoPanics(js)
    ensures bg.value.Err? ==> e == BackgroundTaskError(bg.value.error)
    ensures bg.value.Ok? ==> exists i :: 0 <= i < |js| && js[i] == Returned(Err(e)) && forall k :: 0 <= k < i ==> Succeeded(js[k])
  {
    if bg.value.Ok? {
      var i := FirstUnsuccessful(js);
      assert i < |js|;
      assert js[i] == Returned(Err(e));
    }
  }

  /**
    The written and the intended resolution differ only where the written one
    makes the final `unwrap` panic; everywhere else they agree.
  */
  lemma IntendedDiffersOnlyOnUnwrap<Ei, Ew, Eb, P>(bg: BackgroundJoin<Eb, P>, js: seq<WorkerJoin<Ei, Ew, Eb, P>>)
    ensures Resolve(bg, js) != ResolveIntended(bg, js) <==> Resolve(bg, js).Unwinding? && Resolve(bg, js).panic.UnwrapFailed?
  {
  }

  /**
    As written, a worker error earlier in spawn order than a worker panic makes
    the closure return early; the scope then finds the panic among the handles
    it joins itself, and the final `unwrap` panics with its own message instead
    of resuming the worker's payload.
  */
  lemma EarlierErrorLosesLaterPanic<Ei, Ew, Eb, P>(e: Ew, p: P)
    ensures var js: seq<WorkerJoin<Ei, Ew, Eb, P>> := [Returned(Err(WorkerTaskError(e))), Panicked(p)];
            && Resolve(Returned(Ok(Continue)), js) == Unwinding(UnwrapFailed)
            && ResolveIntended(Returned(Ok(Continue)), js) == Unwinding(Resumed(p))
  {
  }

  /**
    The same loss as written when the background function returns an error: the
    closure returns before joining anybody, so any worker panic is lost.
  */
  lemma BackgroundErrorLosesWorkerPanic<Ei, Ew, Eb, P>(eb: Eb, js: seq<WorkerJoin<Ei, Ew, Eb, P>>, k: nat)
    requires k < |js| && js[k].Panicked?
    ensures Resolve(Returned(Err(eb)), js) == Unwinding(UnwrapFailed)
    ensures ResolveIntended(Returned(Err(eb)), js) == Unwinding(Resumed(PanicsOf(js)[0]))
  {
  }

  /** Neither a worker nor the background function returned an error. */
  predicate NoErrors<Ei, Ew, Eb, P>(bg: BackgroundJoin<Eb, P>, js: seq<WorkerJoin<Ei, Ew, Eb, P>>)
  {
    && (bg.Returned? ==> bg.value.Ok?)
    && forall k :: 0 <= k < |js| && js[k].Returned? ==> js[k].value.Ok?
  }

  /**
    Where no thread returned an error, the code as written keeps its promise:
    any panic is resumed with its original payload, the background's or that of
    the first worker in spawn order that panicked, exactly as corrected.
  */
  lemma PanicsResumedWithoutErrors<Ei, Ew, Eb, P>(bg: BackgroundJoin<Eb, P>, js: seq<WorkerJoin<Ei, Ew, Eb, P>>)
    requires NoErrors(bg, js)
    requires bg.Panicked? || exists k :: 0 <= k < |js| && js[k].Panicked?
    ensures Resolve(bg, js) == ResolveIntended(bg, js)
    ensures Resolve(bg, js).Unwinding? && Resolve(bg, js).panic.Resumed?
    ensures bg.Panicked? ==> Resolve(bg, js).panic.payload == bg.payload
    ensures bg.Returned? ==> exists k :: 0 <= k < |js| && js[k] == Panicked(Resolve(bg, js).panic.payload)
                                         && forall m :: 0 <= m < k ==> js[m].Returned?
  {
  }
}
