/**
 The asynchronous log writer: a bounded queue, counters, and a flusher that empties the queue
 in batches.  First the program, one call at a time; then every interleaving of callers, one
 flusher and a database that may fail.
 */
module LogWriter {
  import opened Common

  const MAX_QUEUE := 100000

  function Limit(batchSize: int): (n: nat)
    ensures n >= 1 && n >= batchSize && (n == 1 || n == batchSize)
  {
    if batchSize > 1 then batchSize else 1
  }

  /** The batches that one flush cuts a queue into. */
  function Chunks<T>(s: seq<T>, n: nat): seq<seq<T>>
    requires n > 0
    decreases |s|
  {
    if s == [] then []
    else if |s| <= n then [s]
    else [s[..n]] + Chunks(s[n..], n)
  }

  function Flatten<T>(batches: seq<seq<T>>): seq<T> {
    if batches == [] then [] else batches[0] + Flatten(batches[1..])
  }

  lemma {:induction false} FlattenAppend<T>(a: seq<seq<T>>, b: seq<seq<T>>)
    ensures Flatten(a + b) == Flatten(a) + Flatten(b)
  {
    if a == [] {
      assert a + b == b;
    } else {
      assert (a + b)[1..] == a[1..] + b;
      FlattenAppend(a[1..], b);
    }
  }

  lemma FlattenOne<T>(batch: seq<T>)
    ensures Flatten([batch]) == batch
  {
    assert [batch][1..] == [];
  }

  /** None empty, none over the limit, all but the last full. */
  ghost predicate Sized<T>(batches: seq<seq<T>>, n: nat) {
    && (forall i | 0 <= i < |batches| :: 0 < |batches[i]| <= n)
    && (forall i | 0 <= i < |batches| - 1 :: |batches[i]| == n)
  }

  lemma FullBatchFirst<T>(first: seq<T>, rest: seq<seq<T>>, n: nat)
    requires n > 0 && |first| == n && Sized(rest, n)
    ensures Sized([first] + rest, n) && Flatten([first] + rest) == first + Flatten(rest)
  {
    var all := [first] + rest;
    assert all[0] == first && all[1..] == rest;
    assert forall i | 0 < i < |all| :: all[i] == rest[i - 1];
  }

  /** The batches are the queue in order, none empty, none over the limit, all but the last full. */
  lemma ChunksAreTheQueue<T>(s: seq<T>, n: nat)
    requires n > 0
    ensures Flatten(Chunks(s, n)) == s
    ensures forall i | 0 <= i < |Chunks(s, n)| :: 0 < |Chunks(s, n)[i]| <= n
    ensures forall i | 0 <= i < |Chunks(s, n)| - 1 :: |Chunks(s, n)[i]| == n
  {
    assert Sized(Chunks(s, n), n) && Flatten(Chunks(s, n)) == s by { ChunksAreSized(s, n); }
  }

  lemma {:induction false} ChunksAreSized<T>(s: seq<T>, n: nat)
    requires n > 0
    ensures Sized(Chunks(s, n), n) && Flatten(Chunks(s, n)) == s
    decreases |s|
  {
    if |s| > n {
      var first, left := s[..n], s[n..];
      ChunksAreSized(left, n);
      FullBatchFirst(first, Chunks(left, n), n);
      assert first + left == s;
    } else if s != [] {
      FlattenOne(s);
    }
  }

  // ----- the program -----

  /** How many of `n` batches are written if the one at `failsAt` fails. */
  function StopsAt(failsAt: Option<nat>, n: nat): (done: nat)
    ensures done <= n
  {
    if failsAt.Some? && failsAt.value < n then failsAt.value else n
  }

  class Writer<T(==)> {
    const asynchronous: bool
    const limit: nat
    var queue: seq<T>
    var table: seq<T>
    var enqueued: nat
    var dropped: nat
    var flushed: nat
    var flushBatches: nat

    ghost predicate Valid() reads this {
      limit > 0 && |queue| <= MAX_QUEUE
    }

    constructor (asynchronous: bool, batchSize: int)
      ensures Valid() && this.asynchronous == asynchronous && limit == Limit(batchSize)
      ensures queue == [] && table == [] && enqueued == dropped == flushed == flushBatches == 0
    {
      this.asynchronous, limit := asynchronous, Limit(batchSize);
      queue, table := [], [];
      enqueued, dropped, flushed, flushBatches := 0, 0, 0, 0;
    }

    method WriteSync(rows: seq<T>)
      modifies this`table, this`flushed, this`flushBatches
      ensures table == old(table) + rows && flushed == old(flushed) + |rows|
      ensures flushBatches == old(flushBatches) + 1
    {
      table := table + rows;
      flushed := flushed + |rows|;
      flushBatches := flushBatches + 1;
    }

    method Enqueue(row: T)
      requires Valid()
      modifies this
      ensures Valid()
      ensures !asynchronous ==>
                && table == old(table) + [row] && flushed == old(flushed) + 1
                && queue == old(queue) && enqueued == old(enqueued) && dropped == old(dropped)
      ensures asynchronous ==>
                && table == old(table) && flushed == old(flushed)
                && if |old(queue)| < MAX_QUEUE
                   then queue == old(queue) + [row] && enqueued == old(enqueued) + 1 && dropped == old(dropped)
                   else queue == old(queue) && enqueued == old(enqueued) && dropped == old(dropped) + 1
    {
      if !asynchronous {
        WriteSync([row]);
        return;
      }
      if |queue| < MAX_QUEUE {
        queue := queue + [row];
        enqueued := enqueued + 1;
      } else {
        dropped := dropped + 1;
      }
    }

    /**
     One flush against a database that fails on batch `failsAt`, if any. Without a failure the
     whole queue reaches the table; with one, exactly the failing batch is lost, the batches
     before it are in the table and everything after it is still queued.
     */
    method FlushOnce(failsAt: Option<nat>) returns (ok: bool)
      requires Valid()
      modifies this`queue, this`table, this`flushed, this`flushBatches
      ensures Valid()
      ensures var batches := Chunks(old(queue), limit);
              var done := StopsAt(failsAt, |batches|);
              && ok == (done == |batches|)
              && table == old(table) + Flatten(batches[..done])
              && queue == (if ok then [] else Flatten(batches[done + 1..]))
              && flushBatches == old(flushBatches) + done
              && flushed - old(flushed) == |table| - |old(table)|
    {
      ghost var batches := Chunks(queue, limit);
      var n: nat := 0;
      while true
        invariant Valid() && n <= |batches| && batches[n..] == Chunks(queue, limit)
        invariant failsAt.Some? ==> n <= failsAt.value
        invariant table == old(table) + Flatten(batches[..n])
        invariant flushBatches == old(flushBatches) + n
        invariant flushed - old(flushed) == |table| - |old(table)|
        decreases |queue|
      {
        ghost var before := queue;
        var rows := TakeBatch();
        if rows == [] {
          assert batches[..n] == batches;
          return true;
        }
        BatchTaken(old(table), batches, n, before, rows, queue, limit);
        if failsAt == Some(n) {
          return false;
        }
        WriteSync(rows);
        n := n + 1;
      }
    }

    /** The inner loop: rows until the batch is full or the queue is empty. */
    method TakeBatch() returns (rows: seq<T>)
      requires limit > 0
      modifies this`queue
      ensures rows + queue == old(queue) && |rows| <= limit
      ensures |rows| == limit || queue == []
    {
      rows := [];
      while |rows| < limit && queue != []
        invariant rows + queue == old(queue) && |rows| <= limit
        decreases |queue|
      {
        assert rows + queue == rows + [queue[0]] + queue[1..];
        rows := rows + [queue[0]];
        queue := queue[1..];
      }
    }
  }

  lemma BatchTaken<T>(table: seq<T>, batches: seq<seq<T>>, k: nat, before: seq<T>, rows: seq<T>, rest: seq<T>, n: nat)
    requires n > 0 && k <= |batches| && batches[k..] == Chunks(before, n)
    requires before == rows + rest && 0 < |rows| <= n && (|rows| == n || rest == [])
    ensures k < |batches| && batches[k + 1..] == Chunks(rest, n) && Flatten(batches[k + 1..]) == rest
    ensures table + Flatten(batches[..k]) + rows == table + Flatten(batches[..k + 1])
  {
    NextChunk(before, rows, rest, n);
    assert batches[k..][0] == batches[k] && batches[k..][1..] == batches[k + 1..];
    ChunksAreTheQueue(rest, n);
    assert batches[..k + 1] == batches[..k] + [rows];
    FlattenAppend(batches[..k], [rows]);
    FlattenOne(rows);
    assert table + Flatten(batches[..k]) + rows == table + (Flatten(batches[..k]) + rows);
  }

  lemma NextChunk<T>(s: seq<T>, rows: seq<T>, rest: seq<T>, n: nat)
    requires n > 0 && s == rows + rest && 0 < |rows| <= n && (|rows| == n || rest == [])
    ensures Chunks(s, n) == [rows] + Chunks(rest, n)
  {
    if |s| > n {
      assert s[..n] == rows && s[n..] == rest;
    } else {
      assert rest == [] && s == rows;
    }
  }
}
