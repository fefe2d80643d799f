# parallel_for_each, modelled in Dafny

This project models `parallel_for_each` in `src/parallel_for_each.rs`. The function fans the items of an iterator out
to a fixed pool of worker threads. Each worker runs `init_fun(worker_id)` once and then calls `worker_fun` on every
item it pulls. Meanwhile the calling thread runs a background function that may ask the workers to stop. Every worker
leaves through an exit guard. The guard stops the shared cursor and decrements the running count, and the last worker
to leave runs the finished callback. At the end the caller joins the threads and folds their results into one
`Result<(), ParallelForEachError>`, or re-raises a panic.

The model has these parts:

- `SharedCursor` (cursor.dfy): the mutex-guarded record, which holds the iterator while it is live and the count of
  running workers. It defines `State::next`, `State::stop` and the bookkeeping of the exit guard. An iterator is a
  state machine: a start state and a `next` step that returns an optional item and the new state. `Consistent` ties
  the cursor to that machine. The items handed out are its answers in order, and at most one further call answered
  `None`.
- `Aggregate` (aggregate.dfy): the `Continue` and `ParallelForEachError` types, and how the background result and the
  joined threads become the call's result. It covers the closure's join loop, the thread scope's own joining of the
  handles the closure left, and the final `unwrap`.
- `Engine` (engine.dfy): one call as a state machine. `Start` resolves the worker count and builds the cursor. `Step`
  is one atomic action of one thread. Every access to the cursor happens under the mutex, so a run is any interleaving
  of these actions. What the user functions return is part of each action, so a run covers every way they may behave.
- `Runs` (runs.dfy): what holds on every run. This covers the invariant, the callback firing exactly once, no poll
  after exhaustion, stops that stick, delivery at most once and in order, and cooperative wind-down.
- `Scenarios` (scenarios.dfy): the situations the repository's tests set up, proved for every interleaving and worker
  count.
- `Sums` and `Results`: sums over sequences, and the `Option`/`Result` types.

Worker phases are `Starting` (init runs), `Pulling` (init or work has returned; the worker is next to take the lock and
call `next`), `Working(item)` (the work function runs) and `Exited(join)`. In the source, retaking the lock and calling
`next` form one critical section; the model lets other threads step in between, which covers every interleaving the
source allows and more. The join is what joining the thread yields: the value the thread returned, or its
panic payload. A panic can happen in any phase that has not exited. The guard then runs as the thread unwinds.

## Model

| member | source | states |
|---|---|---|
| SharedCursor.Next | src/parallel_for_each.rs:91-100 | A stopped cursor answers `None` and stays as it is. A live one answers what the iterator answers. The cursor is stopped afterwards exactly when the answer is `None`. An item leaves the iterator advanced by one step. |
| SharedCursor.Stop | src/parallel_for_each.rs:102-104 | Stopping drops the iterator and leaves the running count alone. |
| SharedCursor.Leave | src/parallel_for_each.rs:126-131 | The exit guard stops the cursor and decrements the count by one. It reports "last worker" exactly when the count reaches zero. |
| SharedCursor.NextFollowsSource | src/parallel_for_each.rs:91-100 | `next` keeps the cursor consistent with the iterator. The item handed out is the iterator's next answer in sequence order. The iterator's first `None` leaves the log exhausted. |
| SharedCursor.StopFollowsSource | src/parallel_for_each.rs:102-104 | Stopping keeps the cursor consistent and asks the iterator nothing. |
| SharedCursor.ExhaustedIsStopped | src/parallel_for_each.rs:95-97 | Once the iterator has answered `None`, the cursor is stopped. |
| Engine.Start | src/parallel_for_each.rs:107-115 | At least one worker starts. `Manual(n)` starts exactly `n`. The running count equals the number of workers. The cursor holds the fresh iterator, nothing has been handed out, and the callback has not run. |
| Engine.StartSatisfiesInv | src/parallel_for_each.rs:107-115 | A fresh call satisfies the run invariant stated under `Runs.RunKeepsInv`. |
| Engine.Exit | src/parallel_for_each.rs:126-132 | Whatever way a worker leaves, the cursor is stopped afterwards. The callback count goes up by one exactly when no live worker remains. |
| Engine.Step | src/parallel_for_each.rs:123-162 | One atomic step keeps the count equal to the live workers. A stopped cursor stays stopped and the iterator is not asked again. An exited worker's join never changes. A background result, once known, never changes. |
| Engine.Run | src/parallel_for_each.rs:123-162 | The same guarantees as `Engine.Step`, over any sequence of steps. |
| Engine.FinalAsWritten | src/parallel_for_each.rs:123-175 | The result of a finished call as the code is written: `Ok(())` exactly when the background returned `Ok` and every worker returned `Ok(())`; a background panic is resumed with its own payload. |
| Engine.Final | src/parallel_for_each.rs:164-175 | The result of a finished call with the corrected resolution (see Findings), which the run-level lemmas state first: the same `Ok(())` condition, and it differs from `Engine.FinalAsWritten` exactly when the written code's `unwrap` panics. |
| Aggregate.PanicsOf | src/parallel_for_each.rs:173-174 | The panics the scope collects are empty exactly when every handle returned. Each comes from some handle. The first is the first panicking handle in spawn order. |
| Aggregate.FirstUnsuccessful | src/parallel_for_each.rs:164-170 | Every worker before the index returned `Ok(())`, and the worker at the index did not. |
| Aggregate.JoinInSpawnOrder | src/parallel_for_each.rs:164-172 | The join loop joins up to and including the first worker that did not return `Ok(())`, and its result is that worker's. If there is none, it joins every handle and yields `Ok(())`. |
| Aggregate.Resolve | src/parallel_for_each.rs:123-175 | As written: the call returns `Ok(())` exactly when the background returned `Ok` and every worker returned `Ok(())`. Any panic makes the call unwind. A background panic is resumed with its own payload. |
| Aggregate.ResolveIntended | src/parallel_for_each.rs:164-174 | The same `Ok(())` condition, and any panic unwinds. Every unwinding resumes a payload that really came from the background or from some worker. |
| Aggregate.BackgroundErrorComesFirst | src/parallel_for_each.rs:154-162 | If no worker panicked, a background error is returned as `BackgroundTaskError` whatever the workers returned. |
| Aggregate.FirstWorkerFailureDecides | src/parallel_for_each.rs:164-170 | After `Ok` from the background, and provided no later worker panicked, the first worker in spawn order that did not succeed decides. Its error is returned unchanged, or its panic is resumed; the written and corrected resolutions agree. |
| Aggregate.ErrorProvenance | src/parallel_for_each.rs:133-175 | A returned error means nothing panicked. It is the background's error or that of the first unsuccessful worker, carried unchanged. |
| Aggregate.IntendedDiffersOnlyOnUnwrap | src/parallel_for_each.rs:173-174 | The code as written and the corrected resolution differ exactly when the final `unwrap` panics. |
| Aggregate.EarlierErrorLosesLaterPanic | src/parallel_for_each.rs:164-174 | Worker 0 returns an error and worker 1 panics. As written, the call panics from `unwrap` and worker 1's payload is lost. The corrected version resumes it. |
| Aggregate.BackgroundErrorLosesWorkerPanic | src/parallel_for_each.rs:154-174 | A background error with any worker panic: as written, the call panics from `unwrap` and the payload is lost; the corrected version resumes the first worker panic. |
| Aggregate.PanicsResumedWithoutErrors | src/parallel_for_each.rs:157-174 | When no thread returned an error, the written code resumes a panic with its original payload: the background's, or that of the first worker in spawn order that panicked; this agrees with the corrected resolution. |
| Runs.StepKeepsInv | src/parallel_for_each.rs:123-162 | Every step keeps the invariant (listed under `Runs.RunKeepsInv`). |
| Runs.RunKeepsInv | src/parallel_for_each.rs:123-162 | Over any interleaving: the count matches the live workers, and the callback has run exactly when none is left. Delivered items are the iterator's answers in order, and each went to exactly one worker. Any exit or halting background result has stopped the cursor. A stop is explained by exhaustion, a failure or the background result. |
| Runs.CallbackFiresOnce | src/parallel_for_each.rs:126-131 | From a fresh call, under any interleaving, the callback runs at most once. It has run exactly when every worker has left. |
| Runs.NothingRunsAfterCallback | src/parallel_for_each.rs:126-131 | Once the callback has run, no worker can take another step. |
| Runs.NeverPolledAfterExhaustion | src/parallel_for_each.rs:91-100 | Once the iterator has answered `None`, it is never asked again, whatever happens next. |
| Runs.ExitHaltsDelivery | src/parallel_for_each.rs:126-128 | Once any worker has left, by any path, no further item is handed out to anybody. |
| Runs.CleanRunDrainsSource | src/parallel_for_each.rs:137-146 | Suppose the background says `Continue` and every worker returns `Ok(())`. Then the iterator was drained: the items handed out are exactly its answers before its first `None`, the callback has run, and the call returns `Ok(())`. Written and corrected resolutions agree here. |
| Runs.WindDown | src/parallel_for_each.rs:126-160 | Once the cursor is stopped, every step any thread can take strictly decreases a measure bounded by twice the worker count plus one. |
| Runs.RunKeepsWeight | src/parallel_for_each.rs:311-345 | The per-worker totals of any weight add up to the total over all items handed out: each item went to exactly one worker. |
| Scenarios.RangeDelivery | src/parallel_for_each.rs:285-306 | Whatever `0..n` answers in order, up to its `None`, is `0, 1, ..., n - 1`. |
| Scenarios.SumOfRange | src/parallel_for_each.rs:285-345 | A clean call over `0..n` hands out exactly `0 .. n-1` in order. Both the shared sum and the per-worker sums are `n(n-1)/2`, the callback has run, and the result is `Ok(())`. Written and corrected resolutions agree here. |
| Scenarios.UglyIteratorSum | src/parallel_for_each.rs:569-605 | `UglyIterator(n+1)` is asked exactly `n+1` times and never after its `None`. A clean call sums to `n`. |
| Scenarios.EndlessRangeNeedsStop | src/parallel_for_each.rs:401-421 | A call over the endless `0..` in which every worker returns `Ok(())` must have been stopped by the background function. |
| Scenarios.StopFromBackground | src/parallel_for_each.rs:401-421 | `Ok(Stop)` from the background stops the cursor, and nothing more is handed out. If the workers all return `Ok(())`, the call returns `Ok(())` with the callback run. Written and corrected resolutions agree here. |
| Scenarios.WorkerErrorSurfaces | src/parallel_for_each.rs:640-668 | Without panics and with `Ok` from the background, the first unsuccessful worker's error is returned unchanged, and the callback has run. Written and corrected resolutions agree here. |
| Scenarios.InitErrorSurfaces | src/parallel_for_each.rs:609-636 | If the background returned `Ok(Continue)`, worker 0's init fails and nothing panics, that `InitTaskError` is returned, as written and corrected. |
| Scenarios.BackgroundErrorSurfaces | src/parallel_for_each.rs:672-695 | A background error is returned as `BackgroundTaskError` when no thread panicked, and the callback has run. Written and corrected resolutions agree here. |
| Scenarios.PanicsPropagate | src/parallel_for_each.rs:425-565 | With the corrected resolution, a panic in init, work, background or callback makes the call resume a payload that one of those threads raised, after the callback has run. As written, the same holds when no thread returned an error, which is the situation of those tests. |
| Scenarios.BackgroundErrorHidesPanic | src/parallel_for_each.rs:154-174 | A reachable run (one worker over `0..3`, background error, then a worker panic) in which the written code panics from `unwrap` while the corrected resolution resumes the worker's payload. |
| Scenarios.RangeAnswers | src/parallel_for_each.rs:285-306 | `0..end` answers `0, 1, ..., end-1` and then `None`. |
| Scenarios.UglyAnswers | src/parallel_for_each.rs:573-588 | `UglyIterator(n+1)` answers `None` at its call `n` (counting from zero) and `Some(1)` at every other call. |

## Left out

- Real threads, the `parking_lot` mutex and lock hand-over are not modelled as such. Each lock-protected section is one atomic step, and every interleaving of those steps is covered.
- `num_cpus::get()` is a parameter, `hostCpus`, which is positive.
- Worker ids passed to `init_fun`, and the user functions themselves, are not modelled. Their results are carried by the actions, so every behaviour is covered.
- Panic payloads are opaque values. The unwinding machinery is not modelled. The panic of `unwrap` on line 174 is modelled as `UnwrapFailed`, without its message.
- A callback panic is modelled as a per-call parameter. It turns the last worker's normal return into a panic. A second panic while a worker is already unwinding aborts the process in Rust. That abort is not modelled: the worker keeps its first panic.
- `Display` and `Error::source` for `ParallelForEachError`, and the `ErrorSource` trait, are formatting and cause-chain glue, so they are left out.
- Worker-local state (`State` from `init_fun`) and its `Drop` are not modelled. The `sum_in_state` test is covered by the per-worker totals of `Runs.RunKeepsWeight`.
- The timing tests (`actual_threads`, the `TIMEOUT` checks) and `stable_thread_id` depend on clocks and thread identity, so they are left out.
- Fixed-width integers of the tests are unbounded here. With `n: u8` the `u32` sums are at most 32385, so nothing the tests compute wraps.
- Scenarios.EndlessRangeNeedsStop: `0..` is an unbounded counter here. The overflow of a fixed-width range is not modelled.
- Termination of a whole run is stated as `Runs.WindDown`, a decreasing measure once the cursor is stopped. A live iterator may be endless, so runs with a live cursor have no bound.
- `src/image_window.rs` is a caller of the engine, so it is not part of this model.

## Findings

The code evidently means every panic to reach the caller with its original payload. The comment on the `unwrap` on
line 174 says panics have "already" been propagated, and the `propagates_panics_*` tests (lines 445-456, 484-495,
516-527, 553-564) expect the original `"Don't panic!"` payload back. The code does not always do that. The closure
returns early on the first error, the background error or a worker's error in spawn order. The thread scope then
joins the remaining handles itself. If any of them panicked, the scope returns an error holding those panics, and the
`unwrap` on line 174 panics with a message of its own; the collected payloads are dropped. `Aggregate.Resolve` and
`Engine.FinalAsWritten` model the code as written. `Aggregate.ResolveIntended` and `Engine.Final` resume the first
such panic with its own payload. The run-level lemmas state `Engine.Final`, and also `Engine.FinalAsWritten` wherever
the two agree.

| source | as written | input that shows it | evidently intended | confidence | as-written member | corrected member |
|---|---|---|---|---|---|---|
| src/parallel_for_each.rs:164-174 | An early `return Err(e)` skips the remaining joins. The scope's error holding the collected panics then fails the `unwrap`, which panics with its own message, so the original payload is lost. | Worker 0 returns `Err`, and worker 1 panics with payload `p`. | The call resumes `p` unchanged. | medium, not executed | Aggregate.EarlierErrorLosesLaterPanic | Aggregate.ResolveIntended |
