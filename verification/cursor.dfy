/**
  The shared cursor of `parallel_for_each`: the caller's iterator while it is
  still live, and the number of workers that have not left yet. Every access
  happens under one mutex, so each operation here is one atomic step.
*/
module SharedCursor {
  import opened Results

  /** One call of an iterator's `next`: the answer and the iterator's new state. */
  type IterStep<!S, T> = S -> (Option<T>, S)

  /** The mutex-guarded record: `iter` is `None` once the cursor is stopped. */
  datatype Cursor<S> = Cursor(iter: Option<S>, threadsRunning: nat)

  /**
    What the iterator has been asked so far: how many times `next` was called
    on it, and the items it handed out, in order. Bookkeeping of the model,
    not a field of the source's record.
  */
  datatype Log<T> = Log(polls: nat, delivered: seq<T>)

  predicate Stopped<S>(c: Cursor<S>)
  {
    c.iter.None?
  }

  /** `State::next`: pull one item; the first `None` from the iterator stops the cursor. */
  function Next<S, T>(c: Cursor<S>, next: IterStep<S, T>): (r: (Option<T>, Cursor<S>))
    ensures r.1.threadsRunning == c.threadsRunning
    ensures Stopped(c) ==> r.0.None? && r.1 == c
    ensures !Stopped(c) ==> r.0 == next(c.iter.value).0
    ensures Stopped(r.1) <==> r.0.None?
    ensures r.0.Some? ==> r.1.iter == Some(next(c.iter.value).1)
  {
    match c.iter
    case None => (None, c)
    case Some(it) =>
      var (item, it') := next(it);
      if item.None? then (None, Stop(c)) else (item, c.(iter := Some(it')))
  }

  /** `State::stop`: drop the iterator, leave the worker count alone. */
  function Stop<S>(c: Cursor<S>): (r: Cursor<S>)
    ensures Stopped(r)
    ensures r.threadsRunning == c.threadsRunning
  {
    c.(iter := None)
  }

  /**
    The exit guard every worker runs, whatever way it leaves: stop the cursor,
    decrement the count, and report whether this was the last worker (the one
    that invokes the finished callback).
  */
  function Leave<S>(c: Cursor<S>): (r: (Cursor<S>, bool))
    requires c.threadsRunning > 0
    ensures Stopped(r.0)
    ensures r.0.threadsRunning + 1 == c.threadsRunning
    ensures r.1 <==> r.0.threadsRunning == 0
  {
    var c' := Stop(c);
    var c'' := c'.(threadsRunning := c'.threadsRunning - 1);
    (c'', c''.threadsRunning == 0)
  }

  /** The iterator's state after `k` calls of `next` from `start`. */
  function Iterate<S, T>(next: IterStep<S, T>, start: S, k: nat): S
  {
    if k == 0 then start else next(Iterate(next, start, k - 1)).1
  }

  /** The answer of the `k`-th call (counting from zero) of `next` from `start`. */
  function Response<S, T>(next: IterStep<S, T>, start: S, k: nat): Option<T>
  {
    next(Iterate(next, start, k)).0
  }

  /** The iterator has answered `None` once; it is never asked again after that. */
  predicate Exhausted<T>(log: Log<T>)
  {
    log.polls == |log.delivered| + 1
  }

  /**
    The cursor and the log agree with the iterator: the items handed out are the
    iterator's answers in order, at most one further call answered `None`, and a
    live cursor holds the iterator in the state those calls left it in.
  */
  ghost predicate Consistent<S, T>(c: Cursor<S>, next: IterStep<S, T>, start: S, log: Log<T>)
  {
    && |log.delivered| <= log.polls <= |log.delivered| + 1
    && (forall i :: 0 <= i < |log.delivered| ==> Response(next, start, i) == Some(log.delivered[i]))
    && (Exhausted(log) ==> Response(next, start, |log.delivered|).None?)
    && (!Stopped(c) ==> log.polls == |log.delivered| && c.iter.value == Iterate(next, start, log.polls))
  }

  /** Log one call of `Next` on `c` that answered `item`: a stopped cursor does not call the iterator. */
  function Record<S, T>(c: Cursor<S>, item: Option<T>, log: Log<T>): (r: Log<T>)
    ensures Stopped(c) ==> r.polls == log.polls
    ensures !Stopped(c) ==> r.polls == log.polls + 1
    ensures item.None? ==> r.delivered == log.delivered
    ensures item.Some? ==> r.delivered == log.delivered + [item.value]
  {
    Log(log.polls + (if Stopped(c) then 0 else 1),
        log.delivered + (match item case Some(x) => [x] case None => []))
  }

  /**
    `Next` keeps the cursor consistent with the iterator: the item it hands out
    is the next one in sequence order, and after the iterator's first `None`
    the cursor is stopped, so the iterator is not called again.
  */
  lemma NextFollowsSource<S, T>(c: Cursor<S>, next: IterStep<S, T>, start: S, log: Log<T>)
    requires Consistent(c, next, start, log)
    ensures var (item, c') := Next(c, next);
            && Consistent(c', next, start, Record(c, item, log))
            && (item.Some? ==> item == Response(next, start, |log.delivered|))
            && (item.None? && !Stopped(c) ==> Exhausted(Record(c, item, log)))
  {
  }

  /** Stopping keeps the cursor consistent and asks the iterator nothing. */
  lemma StopFollowsSource<S, T>(c: Cursor<S>, next: IterStep<S, T>, start: S, log: Log<T>)
    requires Consistent(c, next, start, log)
    ensures Consistent(Stop(c), next, start, log)
  {
  }

  /** An exhausted log belongs to a stopped cursor. */
  lemma ExhaustedIsStopped<S, T>(c: Cursor<S>, next: IterStep<S, T>, start: S, log: Log<T>)
    requires Consistent(c, next, start, log)
    requires Exhausted(log)
    ensures Stopped(c)
  {
  }
}
