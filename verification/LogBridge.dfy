/**
 The writer's methods are runs of the interleaved model: an enqueue is one put and one count,
 a flush is a run of takes and writes, one write per batch.
 */
module LogBridge {
  import opened Common
  import opened LogWriter
  import opened LogRuns

  /** The writer between calls, as a state of the model. */
  ghost predicate Agrees<T(!new)>(w: Writer<T>, s: State<T>)
    reads w
  {
    && w.queue == s.queue && w.table == s.table && s.hand == []
    && w.enqueued == s.enqueued && w.dropped == s.dropped
    && s.uncountedPuts == 0 && s.uncountedDrops == 0
  }

  function EnqueueSteps<T>(s: State<T>, row: T): seq<Step<T>> {
    [Put(row), if |s.queue| < MAX_QUEUE then CountPut else CountDrop]
  }

  lemma TwoSteps<T>(s: State<T>, a: Step<T>, b: Step<T>, limit: nat)
    ensures RunFrom(s, [a, b], limit) == Next(Next(s, a, limit), b, limit)
  {
    assert [a, b][..1] == [a] && [a][..0] == [];
    assert RunFrom(s, [a], limit) == Next(RunFrom(s, [], limit), a, limit);
    assert RunFrom(s, [], limit) == s;
  }

  /** An asynchronous call is a put followed by the matching count. */
  method EnqueueAsSteps<T(==, !new)>(w: Writer<T>, row: T, ghost s: State<T>)
    requires w.Valid() && w.asynchronous && Agrees(w, s)
    modifies w
    ensures w.Valid() && Agrees(w, RunFrom(s, EnqueueSteps(s, row), w.limit))
  {
    TwoSteps(s, Put(row), if |s.queue| < MAX_QUEUE then CountPut else CountDrop, w.limit);
    w.Enqueue(row);
  }

  // ----- a flush -----

  function Takes<T>(n: nat): seq<Step<T>> {
    if n == 0 then [] else Takes(n - 1) + [Take]
  }

  function BatchSteps<T>(batch: seq<T>, commits: bool): seq<Step<T>> {
    Takes(|batch|) + [Write(commits)]
  }

  /** The first `done` batches commit; the next one, if there is one, fails and ends the flush. */
  function FlushSteps<T>(batches: seq<seq<T>>, done: nat): seq<Step<T>> {
    if batches == [] then []
    else if done == 0 then BatchSteps(batches[0], false)
    else BatchSteps(batches[0], true) + FlushSteps(batches[1..], done - 1)
  }

  lemma {:induction false} RunFromAppend<T>(s: State<T>, a: seq<Step<T>>, b: seq<Step<T>>, limit: nat)
    ensures RunFrom(s, a + b, limit) == RunFrom(RunFrom(s, a, limit), b, limit)
    decreases |b|
  {
    if b == [] {
      assert a + b == a;
    } else {
      assert (a + b)[..|a + b| - 1] == a + b[..|b| - 1];
      RunFromAppend(s, a, b[..|b| - 1], limit);
    }
  }

  lemma {:induction false} TakesRun<T>(s: State<T>, k: nat, limit: nat)
    requires s.hand == [] && k <= |s.queue| && k <= limit
    ensures RunFrom(s, Takes(k), limit) == s.(hand := s.queue[..k], queue := s.queue[k..])
  {
    if k == 0 {
      assert s.queue[..0] == [] && s.queue[0..] == s.queue;
    } else {
      TakesRun(s, k - 1, limit);
      assert (Takes<T>(k - 1) + [Take])[..|Takes<T>(k - 1)|] == Takes<T>(k - 1);
      var q := s.queue;
      assert q[k - 1..][0] == q[k - 1] && q[k - 1..][1..] == q[k..];
      assert q[..k - 1] + [q[k - 1]] == q[..k];
    }
  }

  lemma BatchRun<T>(s: State<T>, batch: seq<T>, rest: seq<T>, commits: bool, limit: nat)
    requires s.hand == [] && s.queue == batch + rest && 0 < |batch| <= limit
    ensures RunFrom(s, BatchSteps(batch, commits), limit) ==
            s.(queue := rest, attempts := s.attempts + [Attempt(batch, commits)],
               table := if commits then s.table + batch else s.table)
  {
    TakesRun(s, |batch|, limit);
    assert s.queue[..|batch|] == batch && s.queue[|batch|..] == rest;
    var takes := Takes<T>(|batch|);
    assert (takes + [Write(commits)])[..|takes|] == takes;
  }

  /** What a flush that stops after `done` batches leaves. */
  ghost predicate FlushedTo<T(!new)>(s: State<T>, t: State<T>, batches: seq<seq<T>>, done: nat)
    requires done <= |batches|
  {
    && t.table == s.table + Flatten(batches[..done]) && t.hand == s.hand
    && t.queue == (if done == |batches| then [] else Flatten(batches[done + 1..]))
    && t.enqueued == s.enqueued && t.dropped == s.dropped
    && t.uncountedPuts == s.uncountedPuts && t.uncountedDrops == s.uncountedDrops
  }

  lemma FrontBatch<T>(table: seq<T>, batches: seq<seq<T>>, done: nat)
    requires 0 < done <= |batches|
    ensures table + batches[0] + Flatten(batches[1..][..done - 1]) == table + Flatten(batches[..done])
    ensures done < |batches| ==> batches[1..][done..] == batches[done + 1..]
  {
    var front := batches[..done];
    assert front[0] == batches[0] && front[1..] == batches[1..][..done - 1];
    assert table + batches[0] + Flatten(front[1..]) == table + (batches[0] + Flatten(front[1..]));
  }

  /** The first batch committed and the flush went on from there. */
  lemma OneMoreBatch<T(!new)>(s: State<T>, t: State<T>, u: State<T>, batches: seq<seq<T>>, done: nat)
    requires 0 < done <= |batches| && FlushedTo(t, u, batches[1..], done - 1)
    requires t.table == s.table + batches[0] && t.hand == s.hand
    requires t.enqueued == s.enqueued && t.dropped == s.dropped
    requires t.uncountedPuts == s.uncountedPuts && t.uncountedDrops == s.uncountedDrops
    ensures FlushedTo(s, u, batches, done)
  {
    FrontBatch(s.table, batches, done);
  }

  lemma NothingFlushed<T(!new)>(s: State<T>, t: State<T>, batches: seq<seq<T>>)
    requires t.table == s.table && t.hand == s.hand
    requires t.queue == (if batches == [] then [] else Flatten(batches[1..]))
    requires t.enqueued == s.enqueued && t.dropped == s.dropped
    requires t.uncountedPuts == s.uncountedPuts && t.uncountedDrops == s.uncountedDrops
    ensures FlushedTo(s, t, batches, 0)
  {
    assert batches[..0] == [] && s.table + [] == s.table;
  }

  lemma {:induction false} FlushRun<T(!new)>(s: State<T>, batches: seq<seq<T>>, done: nat, limit: nat)
    requires s.hand == [] && s.queue == Flatten(batches) && done <= |batches|
    requires forall i | 0 <= i < |batches| :: 0 < |batches[i]| <= limit
    ensures FlushedTo(s, RunFrom(s, FlushSteps(batches, done), limit), batches, done)
    decreases |batches|
  {
    if batches == [] {
      NothingFlushed(s, s, batches);
    } else {
      var first, rest := batches[0], batches[1..];
      BatchRun(s, first, Flatten(rest), done > 0, limit);
      var t := RunFrom(s, BatchSteps(first, done > 0), limit);
      if done == 0 {
        NothingFlushed(s, t, batches);
      } else {
        RunFromAppend(s, BatchSteps(first, true), FlushSteps(rest, done - 1), limit);
        FlushRun(t, rest, done - 1, limit);
        OneMoreBatch(s, t, RunFrom(t, FlushSteps(rest, done - 1), limit), batches, done);
      }
    }
  }

  lemma FlushedAgrees<T(!new)>(s: State<T>, batches: seq<seq<T>>, done: nat, limit: nat) returns (t: State<T>)
    requires limit > 0 && batches == Chunks(s.queue, limit) && s.hand == [] && done <= |batches|
    ensures t == RunFrom(s, FlushSteps(batches, done), limit) && FlushedTo(s, t, batches, done)
  {
    ChunksAreTheQueue(s.queue, limit);
    FlushRun(s, batches, done, limit);
    t := RunFrom(s, FlushSteps(batches, done), limit);
  }

  /** A flush is the run of takes and writes over its batches, up to the failing one. */
  method FlushAsSteps<T(==, !new)>(w: Writer<T>, failsAt: Option<nat>, ghost s: State<T>)
    returns (ok: bool, ghost done: nat)
    requires w.Valid() && Agrees(w, s)
    modifies w`queue, w`table, w`flushed, w`flushBatches
    ensures done == StopsAt(failsAt, |Chunks(s.queue, w.limit)|)
    ensures w.Valid() && ok == (done == |Chunks(s.queue, w.limit)|) && (ok ==> w.queue == [])
    ensures Agrees(w, RunFrom(s, FlushSteps(Chunks(s.queue, w.limit), done), w.limit))
  {
    ghost var batches := Chunks(s.queue, w.limit);
    done := StopsAt(failsAt, |batches|);
    ghost var t := FlushedAgrees(s, batches, done, w.limit);
    ok := w.FlushOnce(failsAt);
    assert Agrees(w, t);
  }
}
