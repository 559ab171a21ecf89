/**
 First-seen collection: a bounded in-process set suppresses repeats, the queue and flusher are
 those of the log writer, and the table ignores a row whose domain it already holds.
 */
module FirstSeen {
  import opened Common
  import opened Text
  import LogWriter

  datatype Record = Record(domain: string, client: string, qtype: string)

  const SEEN_MAX := 300000
  const BATCH_SIZE := 500

  // ----- the table -----

  type Table = map<string, Record>

  /** `INSERT OR IGNORE`. */
  function InsertOne(table: Table, r: Record): Table {
    if r.domain in table then table else table[r.domain := r]
  }

  function InsertAll(table: Table, rows: seq<Record>): Table
    decreases |rows|
  {
    if rows == [] then table else InsertAll(InsertOne(table, rows[0]), rows[1..])
  }

  /** What the table holds once `rows` have been inserted, in order. */
  function Contents(rows: seq<Record>): Table {
    InsertAll(map[], rows)
  }

  lemma {:induction false} InsertAllAppend(table: Table, a: seq<Record>, b: seq<Record>)
    ensures InsertAll(table, a + b) == InsertAll(InsertAll(table, a), b)
    decreases |a|
  {
    if a == [] {
      assert a + b == b;
    } else {
      assert (a + b)[1..] == a[1..] + b;
      InsertAllAppend(InsertOne(table, a[0]), a[1..], b);
    }
  }

  /** The first record of a domain. */
  function First(rows: seq<Record>, d: string): Option<Record> {
    if rows == [] then None
    else
      var n := |rows| - 1;
      var before := First(rows[..n], d);
      if before.Some? then before else if rows[n].domain == d then Some(rows[n]) else None
  }

  function Lookup(table: Table, d: string): Option<Record> {
    if d in table then Some(table[d]) else None
  }

  /** One row per domain, its first record, and no other rows. */
  ghost predicate HoldsFirst(table: Table, rows: seq<Record>) {
    forall d: string :: Lookup(table, d) == First(rows, d)
  }

  lemma {:induction false} FirstMeaning(rows: seq<Record>, d: string)
    ensures First(rows, d).None? <==> forall i | 0 <= i < |rows| :: rows[i].domain != d
    ensures First(rows, d).Some? ==>
              exists i | 0 <= i < |rows| ::
                && rows[i] == First(rows, d).value && rows[i].domain == d
                && forall j | 0 <= j < i :: rows[j].domain != d
  {
    if rows != [] {
      var n := |rows| - 1;
      FirstMeaning(rows[..n], d);
      assert forall i | 0 <= i < n :: rows[..n][i] == rows[i];
    }
  }

  lemma OneInsert(table: Table, rows: seq<Record>, r: Record)
    requires HoldsFirst(table, rows)
    ensures HoldsFirst(InsertOne(table, r), rows + [r])
  {
    forall d: string ensures Lookup(InsertOne(table, r), d) == First(rows + [r], d) {
      assert (rows + [r])[..|rows|] == rows;
      assert Lookup(table, d) == First(rows, d);
      assert Lookup(table, r.domain) == First(rows, r.domain);
    }
  }

  /** Batch after batch, the table holds the first record of every domain written so far. */
  lemma {:induction false} InsertKeepsFirst(table: Table, before: seq<Record>, rows: seq<Record>)
    requires HoldsFirst(table, before)
    ensures HoldsFirst(InsertAll(table, rows), before + rows)
    decreases |rows|
  {
    if rows == [] {
      assert before + rows == before;
    } else {
      OneInsert(table, before, rows[0]);
      var longer := before + [rows[0]];
      assert longer + rows[1..] == before + rows;
      InsertKeepsFirst(InsertOne(table, rows[0]), longer, rows[1..]);
    }
  }

  // ----- the program -----

  /** The stored form of a domain; a name without an inner dot is of no interest. */
  function Key(domain: string): string {
    Lower(RStrip(domain, IsDot))
  }

  predicate Interesting(d: string) { d != "" && '.' in d }

  function Remember(seen: set<string>, d: string): set<string> {
    if |seen + {d}| > SEEN_MAX then {d} else seen + {d}
  }

  class Collector {
    const enabled: bool
    const writer: LogWriter.Writer<Record>
    var seen: set<string>
    var dupes: nat

    ghost predicate Valid() reads this, writer {
      writer.Valid() && writer.asynchronous && writer.limit == BATCH_SIZE && |seen| <= SEEN_MAX
    }

    constructor (enabled: bool)
      ensures Valid() && fresh(writer) && this.enabled == enabled && seen == {} && dupes == 0
      ensures writer.queue == [] && writer.table == []
    {
      this.enabled := enabled;
      writer := new LogWriter.Writer<Record>(true, BATCH_SIZE);
      seen, dupes := {}, 0;
    }

    /** `record_domain_seen`: a domain is queued the first time only, and a full queue drops it. */
    method RecordDomainSeen(domain: string, qtype: string, client: string)
      requires Valid()
      modifies this, writer
      ensures Valid()
      ensures var d := Key(domain);
              if !enabled || !Interesting(d) || d in old(seen) then
                && seen == old(seen) && writer.queue == old(writer.queue)
                && writer.enqueued == old(writer.enqueued) && writer.dropped == old(writer.dropped)
                && dupes == old(dupes) + (if enabled && Interesting(d) then 1 else 0)
              else
                && seen == Remember(old(seen), d) && dupes == old(dupes)
                && (if |old(writer.queue)| < LogWriter.MAX_QUEUE
                    then writer.queue == old(writer.queue) + [Record(d, client, qtype)]
                         && writer.enqueued == old(writer.enqueued) + 1 && writer.dropped == old(writer.dropped)
                    else writer.queue == old(writer.queue)
                         && writer.enqueued == old(writer.enqueued) && writer.dropped == old(writer.dropped) + 1)
      ensures writer.table == old(writer.table)
    {
      if !enabled {
        return;
      }
      var d := Key(domain);
      if !Interesting(d) {
        return;
      }
      if d in seen {
        dupes := dupes + 1;
        return;
      }
      seen := seen + {d};
      if |seen| > SEEN_MAX {
        seen := {};
        seen := seen + {d};
      }
      writer.Enqueue(Record(d, client, qtype));
    }
  }
}
