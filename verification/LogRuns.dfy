/**
 Every interleaving of callers, one flusher and a database that may fail.  A call is two
 steps, the bounded put and the later counter update; a flush is takes followed by a write.
 */
module LogRuns {
  import opened LogWriter

  /** One write: the batch, and whether the transaction committed. */
  datatype Attempt<T> = Attempt(rows: seq<T>, committed: bool)

  /** `accepted` and `rejected` are the history of the puts. */
  datatype State<T> = State(
    queue: seq<T>, hand: seq<T>, table: seq<T>, enqueued: nat, dropped: nat,
    uncountedPuts: nat, uncountedDrops: nat,
    attempts: seq<Attempt<T>>, accepted: seq<T>, rejected: seq<T>)

  datatype Step<T> = Put(row: T) | CountPut | CountDrop | Take | Write(commits: bool)

  function Empty<T>(): State<T> {
    State([], [], [], 0, 0, 0, 0, [], [], [])
  }

  /** A step that cannot run does nothing. */
  function Next<T>(s: State<T>, step: Step<T>, limit: nat): State<T> {
    match step
    case Put(row) =>
      if |s.queue| < MAX_QUEUE
      then s.(queue := s.queue + [row], uncountedPuts := s.uncountedPuts + 1, accepted := s.accepted + [row])
      else s.(uncountedDrops := s.uncountedDrops + 1, rejected := s.rejected + [row])
    case CountPut =>
      if s.uncountedPuts > 0 then s.(uncountedPuts := s.uncountedPuts - 1, enqueued := s.enqueued + 1) else s
    case CountDrop =>
      if s.uncountedDrops > 0 then s.(uncountedDrops := s.uncountedDrops - 1, dropped := s.dropped + 1) else s
    case Take =>
      if s.queue != [] && |s.hand| < limit
      then s.(hand := s.hand + [s.queue[0]], queue := s.queue[1..])
      else s
    case Write(commits) =>
      if s.hand == [] then s
      else s.(hand := [], attempts := s.attempts + [Attempt(s.hand, commits)],
              table := if commits then s.table + s.hand else s.table)
  }

  function RunFrom<T>(s: State<T>, steps: seq<Step<T>>, limit: nat): State<T> {
    if steps == [] then s else Next(RunFrom(s, steps[..|steps| - 1], limit), steps[|steps| - 1], limit)
  }

  function Run<T>(steps: seq<Step<T>>, limit: nat): State<T> {
    RunFrom(Empty(), steps, limit)
  }

  /** The rows of every attempt, in order. */
  function Attempted<T>(attempts: seq<Attempt<T>>): seq<T> {
    if attempts == [] then []
    else Attempted(attempts[..|attempts| - 1]) + attempts[|attempts| - 1].rows
  }

  /** The rows of the attempts that committed, in order. */
  function Written<T>(attempts: seq<Attempt<T>>): seq<T> {
    if attempts == [] then []
    else
      var last := attempts[|attempts| - 1];
      Written(attempts[..|attempts| - 1]) + (if last.committed then last.rows else [])
  }

  /** Batches attempted, rows in hand and queue are the accepted rows, in order. */
  ghost predicate InOrder<T>(s: State<T>) {
    Attempted(s.attempts) + s.hand + s.queue == s.accepted && s.table == Written(s.attempts)
  }

  /** The counters are exact, and queue, hand and batches keep their limits. */
  ghost predicate Measured<T>(s: State<T>, limit: nat) {
    && s.enqueued + s.uncountedPuts == |s.accepted|
    && s.dropped + s.uncountedDrops == |s.rejected|
    && |s.queue| <= MAX_QUEUE && |s.hand| <= limit
    && (forall i | 0 <= i < |s.attempts| :: 0 < |s.attempts[i].rows| <= limit)
  }

  ghost predicate Conserved<T>(s: State<T>, limit: nat) {
    InOrder(s) && Measured(s, limit)
  }

  lemma PutAtEnd<T>(gone: seq<T>, hand: seq<T>, queue: seq<T>, row: T)
    ensures gone + hand + (queue + [row]) == gone + hand + queue + [row]
  {
  }

  lemma TakeFromFront<T>(gone: seq<T>, hand: seq<T>, queue: seq<T>)
    requires queue != []
    ensures gone + (hand + [queue[0]]) + queue[1..] == gone + hand + queue
  {
    assert queue == [queue[0]] + queue[1..];
    assert hand + queue == hand + [queue[0]] + queue[1..];
    assert gone + (hand + queue) == gone + hand + queue;
    assert gone + (hand + [queue[0]]) + queue[1..] == gone + (hand + [queue[0]] + queue[1..]);
  }

  lemma OneMoreAttempt<T>(attempts: seq<Attempt<T>>, a: Attempt<T>)
    ensures Attempted(attempts + [a]) == Attempted(attempts) + a.rows
    ensures Written(attempts + [a]) == Written(attempts) + (if a.committed then a.rows else [])
  {
    assert (attempts + [a])[..|attempts|] == attempts;
  }

  lemma TakeKeepsOrder<T>(s: State<T>, limit: nat)
    requires InOrder(s)
    ensures InOrder(Next(s, Take, limit))
  {
    if s.queue != [] {
      TakeFromFront(Attempted(s.attempts), s.hand, s.queue);
    }
  }

  lemma WriteKeepsOrder<T>(s: State<T>, commits: bool, limit: nat)
    requires InOrder(s)
    ensures InOrder(Next(s, Write(commits), limit))
  {
    OneMoreAttempt(s.attempts, Attempt(s.hand, commits));
    assert Attempted(s.attempts) + s.hand + [] == Attempted(s.attempts) + s.hand;
    assert Written(s.attempts) + [] == Written(s.attempts);
  }

  lemma StepKeepsOrder<T>(s: State<T>, step: Step<T>, limit: nat)
    requires InOrder(s)
    ensures InOrder(Next(s, step, limit))
  {
    match step {
      case Put(row) => PutAtEnd(Attempted(s.attempts), s.hand, s.queue, row);
      case Take => TakeKeepsOrder(s, limit);
      case Write(commits) => WriteKeepsOrder(s, commits, limit);
      case _ =>
    }
  }

  lemma StepKeepsMeasure<T>(s: State<T>, step: Step<T>, limit: nat)
    requires Measured(s, limit)
    ensures Measured(Next(s, step, limit), limit)
  {
  }

  lemma StepConserves<T>(s: State<T>, step: Step<T>, limit: nat)
    requires Conserved(s, limit)
    ensures Conserved(Next(s, step, limit), limit)
  {
    StepKeepsOrder(s, step, limit);
    StepKeepsMeasure(s, step, limit);
  }

  /**
   Queue conservation, in every run: the attempted batches, the rows in hand and the queue
   are together the accepted rows in order; the table is the committed batches; no batch
   exceeds its limit; and the counters are exact up to the calls still between put and count.
   */
  lemma {:induction false} EveryRunConserves<T>(steps: seq<Step<T>>, limit: nat)
    ensures Conserved(Run(steps, limit), limit)
  {
    if steps != [] {
      EveryRunConserves(steps[..|steps| - 1], limit);
      StepConserves(Run(steps[..|steps| - 1], limit), steps[|steps| - 1], limit);
    }
  }

  predicate NeverFails<T>(steps: seq<Step<T>>) {
    forall i | 0 <= i < |steps| :: steps[i] != Write(false)
  }

  lemma {:induction false} AllCommitted<T>(steps: seq<Step<T>>, limit: nat)
    requires NeverFails(steps)
    ensures forall a | a in Run(steps, limit).attempts :: a.committed
  {
    if steps != [] {
      var before := steps[..|steps| - 1];
      assert forall i | 0 <= i < |before| :: before[i] == steps[i];
      AllCommitted(before, limit);
    }
  }

  lemma {:induction false} WrittenIsAttempted<T>(attempts: seq<Attempt<T>>)
    requires forall a | a in attempts :: a.committed
    ensures Written(attempts) == Attempted(attempts)
  {
    if attempts != [] {
      assert attempts[|attempts| - 1] in attempts;
      WrittenIsAttempted(attempts[..|attempts| - 1]);
    }
  }

  function Puts<T>(steps: seq<Step<T>>): seq<T> {
    if steps == [] then []
    else
      var last := steps[|steps| - 1];
      Puts(steps[..|steps| - 1]) + (if last.Put? then [last.row] else [])
  }

  /** The puts are the accepted and the rejected rows. */
  ghost predicate Split<T>(s: State<T>, puts: seq<T>) {
    |s.accepted| + |s.rejected| == |puts| && multiset(s.accepted) + multiset(s.rejected) == multiset(puts)
  }

  lemma PutSplits<T>(s: State<T>, puts: seq<T>, row: T, limit: nat)
    requires Split(s, puts)
    ensures Split(Next(s, Put(row), limit), puts + [row])
  {
    assert multiset(puts + [row]) == multiset(puts) + multiset{row};
    assert multiset(s.accepted + [row]) == multiset(s.accepted) + multiset{row};
    assert multiset(s.rejected + [row]) == multiset(s.rejected) + multiset{row};
  }

  lemma {:induction false} PutsAreSplit<T>(steps: seq<Step<T>>, limit: nat)
    ensures Split(Run(steps, limit), Puts(steps))
  {
    if steps != [] {
      var before, last := steps[..|steps| - 1], steps[|steps| - 1];
      PutsAreSplit(before, limit);
      if last.Put? {
        PutSplits(Run(before, limit), Puts(before), last.row, limit);
      } else {
        assert Puts(before) + [] == Puts(before);
      }
    }
  }

  /**
   Without a database failure nothing accepted is ever lost or reordered, and enqueued plus
   dropped are the calls that completed.
   */
  lemma {:induction false} NothingAcceptedIsLost<T>(steps: seq<Step<T>>, limit: nat)
    requires NeverFails(steps)
    ensures var s := Run(steps, limit);
            && s.table + s.hand + s.queue == s.accepted
            && s.enqueued + s.dropped == |Puts(steps)| - s.uncountedPuts - s.uncountedDrops
  {
    EveryRunConserves(steps, limit);
    AllCommitted(steps, limit);
    WrittenIsAttempted(Run(steps, limit).attempts);
    PutsAreSplit(steps, limit);
  }
}
