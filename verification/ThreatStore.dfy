/**
 The offline threat list: the staged whole-source replacement, switching and deleting a
 source, and the in-memory index that lookups use. Every database block is one transaction;
 a crash may fall between any two of them.
 */
module ThreatStore {
  import opened Common
  import opened DomainLookup
  import opened Text

  datatype Target = DomainTarget | IpTarget

  datatype Row = Row(source: string, value: string, target: Target, enabled: bool)

  /** The two tables; `staging` is None while its table does not exist. */
  datatype Db = Db(list: seq<Row>, staging: Option<seq<Row>>)

  datatype Entry = Entry(value: string, target: Target)

  const BATCH := 50000

  // ----- transactions -----

  function Tagged(source: string, entries: seq<Entry>, enabled: bool): (rows: seq<Row>)
    ensures |rows| == |entries|
    ensures forall i | 0 <= i < |rows| :: rows[i] == Row(source, entries[i].value, entries[i].target, enabled)
  {
    seq(|entries|, i requires 0 <= i < |entries| => Row(source, entries[i].value, entries[i].target, enabled))
  }

  function RowsOf(list: seq<Row>, source: string): seq<Row> {
    if list == [] then []
    else if list[0].source == source then [list[0]] + RowsOf(list[1..], source)
    else RowsOf(list[1..], source)
  }

  /** `DELETE ... WHERE source = ?`. */
  function Others(list: seq<Row>, source: string): seq<Row> {
    if list == [] then []
    else if list[0].source == source then Others(list[1..], source)
    else [list[0]] + Others(list[1..], source)
  }

  /** `UPDATE ... SET enabled = ? WHERE source = ?`. */
  function Switched(list: seq<Row>, source: string, on: bool): (r: seq<Row>)
    ensures |r| == |list|
    ensures forall i | 0 <= i < |list| :: r[i] == if list[i].source == source then list[i].(enabled := on) else list[i]
  {
    if list == [] then []
    else [if list[0].source == source then list[0].(enabled := on) else list[0]] + Switched(list[1..], source, on)
  }

  function Prepare(db: Db): Db {
    db.(staging := Some([]))
  }

  /** The transaction fails, changing nothing, when the staging table is missing. */
  function AddBatch(db: Db, batch: seq<Row>): Db {
    match db.staging
    case None => db
    case Some(rows) => db.(staging := Some(rows + batch))
  }

  function SwapIn(db: Db, source: string): Db {
    match db.staging
    case None => db
    case Some(rows) => Db(Others(db.list, source) + rows, None)
  }

  /** End of the batch that starts at `i`. */
  function BatchEnd(i: nat, n: nat): nat {
    if i + BATCH <= n then i + BATCH else n
  }

  // ----- what each statement does to the rows of one source -----

  lemma {:induction false} RowsOfAppend(a: seq<Row>, b: seq<Row>, source: string)
    ensures RowsOf(a + b, source) == RowsOf(a, source) + RowsOf(b, source)
  {
    if a == [] {
      assert a + b == b;
    } else {
      assert (a + b)[1..] == a[1..] + b;
      RowsOfAppend(a[1..], b, source);
    }
  }

  lemma {:induction false} RowsOfTagged(rows: seq<Row>, owner: string, source: string)
    requires forall i | 0 <= i < |rows| :: rows[i].source == owner
    ensures RowsOf(rows, source) == if owner == source then rows else []
  {
    if rows != [] {
      RowsOfTagged(rows[1..], owner, source);
      assert rows == [rows[0]] + rows[1..];
    }
  }

  lemma {:induction false} RowsOfOthers(list: seq<Row>, gone: string, source: string)
    ensures RowsOf(Others(list, gone), source) == if gone == source then [] else RowsOf(list, source)
  {
    if list != [] {
      RowsOfOthers(list[1..], gone, source);
      var rest := Others(list[1..], gone);
      assert ([list[0]] + rest)[1..] == rest;
    }
  }

  lemma {:induction false} RowsOfSwitched(list: seq<Row>, which: string, on: bool, source: string)
    ensures RowsOf(Switched(list, which, on), source) ==
            if which == source then Switched(RowsOf(list, source), which, on) else RowsOf(list, source)
  {
    if list != [] {
      RowsOfSwitched(list[1..], which, on, source);
      var r := Switched(list, which, on);
      assert r[1..] == Switched(list[1..], which, on);
      if list[0].source == source {
        var mine := RowsOf(list, source);
        assert mine[1..] == RowsOf(list[1..], source);
      }
    }
  }

  // ----- every interleaving -----

  /** A write-locked import in progress: `done` rows are staged. */
  datatype Job = Job(source: string, rows: seq<Row>, done: nat)

  datatype Step =
    | Begin(source: string, entries: seq<Entry>, enabled: bool) // takes the lock, recreates staging
    | Insert                                                    // commits the next batch
    | Swap                                                      // commits the swap, frees the lock
    | Crash                                                     // the process dies; the tables stay
    | Enable(which: string, on: bool)
    | Delete(which: string)

  /** Which import holds the lock after one more step; a step that cannot run does nothing. */
  function NextJob(job: Option<Job>, step: Step): Option<Job> {
    match step
    case Begin(source, entries, enabled) =>
      if job.None? then Some(Job(source, Tagged(source, entries, enabled), 0)) else job
    case Insert =>
      if job.Some? && job.value.done < |job.value.rows|
      then Some(job.value.(done := BatchEnd(job.value.done, |job.value.rows|)))
      else job
    case Swap => if Finished(job) then None else job
    case Crash => None
    case Enable(_, _) => job
    case Delete(_) => job
  }

  predicate Finished(job: Option<Job>) {
    job.Some? && job.value.done >= |job.value.rows|
  }

  function NextDb(db: Db, job: Option<Job>, step: Step): Db {
    match step
    case Begin(_, _, _) => if job.None? then Prepare(db) else db
    case Insert =>
      if job.Some? && job.value.done < |job.value.rows|
      then AddBatch(db, job.value.rows[job.value.done..BatchEnd(job.value.done, |job.value.rows|)])
      else db
    case Swap => if Finished(job) then SwapIn(db, job.value.source) else db
    case Crash => db
    case Enable(which, on) => db.(list := Switched(db.list, which, on))
    case Delete(which) => db.(list := Others(db.list, which))
  }

  function JobAfter(steps: seq<Step>): Option<Job> {
    if steps == [] then None else NextJob(JobAfter(steps[..|steps| - 1]), steps[|steps| - 1])
  }

  /** The tables after a run that starts from any contents, left-over staging included. */
  function DbAfter(start: Db, steps: seq<Step>): Db {
    if steps == [] then start
    else
      var before := steps[..|steps| - 1];
      NextDb(DbAfter(start, before), JobAfter(before), steps[|steps| - 1])
  }

  /** Reference: one source's rows, given only the operations that committed on it. */
  function Committed(start: seq<Row>, steps: seq<Step>, source: string): seq<Row> {
    if steps == [] then RowsOf(start, source)
    else
      var before, last := steps[..|steps| - 1], steps[|steps| - 1];
      var prior := Committed(start, before, source);
      match last
      case Swap =>
        var job := JobAfter(before);
        if Finished(job) && job.value.source == source then job.value.rows else prior
      case Enable(which, on) => if which == source then Switched(prior, source, on) else prior
      case Delete(which) => if which == source then [] else prior
      case _ => prior
  }

  ghost predicate JobOk(db: Db, job: Option<Job>) {
    job.Some? ==>
      && job.value.done <= |job.value.rows|
      && db.staging == Some(job.value.rows[..job.value.done])
      && forall i | 0 <= i < |job.value.rows| :: job.value.rows[i].source == job.value.source
  }

  lemma StepKeepsJob(db: Db, job: Option<Job>, step: Step)
    requires JobOk(db, job)
    ensures JobOk(NextDb(db, job, step), NextJob(job, step))
  {
    if step.Insert? && job.Some? && job.value.done < |job.value.rows| {
      var j := job.value;
      var end := BatchEnd(j.done, |j.rows|);
      assert j.rows[..j.done] + j.rows[j.done..end] == j.rows[..end];
    }
  }

  /** While an import runs, staging holds exactly the rows it has inserted so far. */
  lemma {:induction false} StagingIsPrefix(start: Db, steps: seq<Step>)
    ensures JobOk(DbAfter(start, steps), JobAfter(steps))
  {
    if steps != [] {
      var before := steps[..|steps| - 1];
      StagingIsPrefix(start, before);
      StepKeepsJob(DbAfter(start, before), JobAfter(before), steps[|steps| - 1]);
    }
  }

  lemma SwapShows(db: Db, job: Job, source: string)
    requires JobOk(db, Some(job)) && Finished(Some(job))
    ensures RowsOf(SwapIn(db, job.source).list, source) ==
            if job.source == source then job.rows else RowsOf(db.list, source)
  {
    assert job.rows[..job.done] == job.rows;
    var others := Others(db.list, job.source);
    RowsOfAppend(others, job.rows, source);
    RowsOfOthers(db.list, job.source, source);
    RowsOfTagged(job.rows, job.source, source);
    assert [] + job.rows == job.rows;
    assert RowsOf(db.list, source) + [] == RowsOf(db.list, source);
  }

  /**
   Crash atomicity and isolation: after every run of imports, switches, deletes and crashes,
   whatever staging held at the start, the visible rows of each source are exactly what the
   operations committed on that source produced.
   */
  lemma {:induction false} VisibleIsCommitted(start: Db, steps: seq<Step>, source: string)
    ensures RowsOf(DbAfter(start, steps).list, source) == Committed(start.list, steps, source)
  {
    if steps != [] {
      var before, last := steps[..|steps| - 1], steps[|steps| - 1];
      VisibleIsCommitted(start, before, source);
      var db, job := DbAfter(start, before), JobAfter(before);
      match last {
        case Swap =>
          StagingIsPrefix(start, before);
          if Finished(job) { SwapShows(db, job.value, source); }
        case Enable(which, on) => RowsOfSwitched(db.list, which, on, source);
        case Delete(which) => RowsOfOthers(db.list, which, source);
        case _ =>
      }
    }
  }

  /** The import that holds the lock was begun on a free lock and no crash has happened since. */
  ghost predicate BegunAt(steps: seq<Step>, k: nat, job: Job) {
    && k < |steps| && steps[k].Begin? && JobAfter(steps[..k]).None?
    && job.source == steps[k].source
    && job.rows == Tagged(steps[k].source, steps[k].entries, steps[k].enabled)
    && forall i | k < i < |steps| :: !steps[i].Crash?
  }

  /** So the rows that a swap makes visible are those of one uninterrupted import. */
  lemma {:induction false} JobIsItsBegin(steps: seq<Step>) returns (k: nat)
    requires JobAfter(steps).Some?
    ensures BegunAt(steps, k, JobAfter(steps).value)
  {
    var before, last := steps[..|steps| - 1], steps[|steps| - 1];
    if JobAfter(before).Some? {
      k := JobIsItsBegin(before);
      assert steps[..k] == before[..k];
      assert forall i | k < i < |before| :: steps[i] == before[i];
    } else {
      k := |steps| - 1;
    }
  }

  // ----- the in-memory index -----

  /** `_load_cache`: enabled rows of one target, a later row replacing an earlier one. */
  function Load(list: seq<Row>, target: Target): Index {
    if list == [] then map[]
    else
      var n := |list| - 1;
      var m := Load(list[..n], target);
      if list[n].enabled && list[n].target == target then m[list[n].value := list[n].source] else m
  }

  predicate Lists(row: Row, target: Target, value: string) {
    row.enabled && row.target == target && row.value == value
  }

  /** The index holds exactly the enabled values, each with the source of its last enabled row. */
  lemma {:induction false} LoadIsEnabled(list: seq<Row>, target: Target, value: string)
    ensures value in Load(list, target) <==> exists i | 0 <= i < |list| :: Lists(list[i], target, value)
    ensures value in Load(list, target) ==>
              exists i | 0 <= i < |list| ::
                && Lists(list[i], target, value) && Load(list, target)[value] == list[i].source
                && forall j | i < j < |list| :: !Lists(list[j], target, value)
  {
    if list != [] {
      var n := |list| - 1;
      var before := list[..n];
      LoadIsEnabled(before, target, value);
      assert forall i | 0 <= i < n :: before[i] == list[i];
      if !Lists(list[n], target, value) && value in Load(before, target) {
        var i :| 0 <= i < n && Lists(before[i], target, value) && Load(before, target)[value] == before[i].source
                 && forall j | i < j < n :: !Lists(before[j], target, value);
        assert Lists(list[i], target, value);
        assert forall j | i < j < |list| :: !Lists(list[j], target, value) by {
          assert forall j | i < j < n :: list[j] == before[j];
        }
      }
    }
  }

  // ----- the program -----

  /** The number of batch transactions that `n` rows take. */
  function Batches(n: nat): nat {
    if n == 0 then 0 else 1 + Batches(n - BatchEnd(0, n))
  }

  /** Rows are inserted 50000 at a time: so many transactions as full or started batches. */
  lemma {:induction false} BatchesAreFull(n: nat)
    ensures 50000 * (Batches(n) - 1) < n <= 50000 * Batches(n) || (n == 0 && Batches(n) == 0)
    decreases n
  {
    if n > 0 {
      BatchesAreFull(n - BatchEnd(0, n));
    }
  }

  class Store {
    var db: Db
    var domains: Option<Index>
    var ips: Option<Index>

    ghost predicate Valid() reads this {
      && (domains.Some? <==> ips.Some?)
      && (domains.Some? ==> domains.value == Load(db.list, DomainTarget) && ips.value == Load(db.list, IpTarget))
    }

    constructor (start: Db)
      ensures Valid() && db == start
    {
      db, domains, ips := start, None, None;
    }

    method Invalidate()
      modifies this`domains, this`ips
      ensures Valid() && domains == None
    {
      domains, ips := None, None;
    }

    /**
     `_replace_source_rows`, in a process that dies after `budget` committed transactions.
     It finishes exactly when the budget covers every transaction; otherwise the list is
     as it was, however many batches were staged.
     */
    method ReplaceSourceRows(source: string, rows: seq<Row>, budget: nat) returns (imported: Option<nat>)
      requires Valid()
      modifies this
      ensures Valid()
      ensures imported.Some? <==> budget >= Batches(|rows|) + 2
      ensures imported.Some? ==> imported.value == |rows| && domains == None
      ensures imported.Some? ==> db == Db(Others(old(db).list, source) + rows, None)
      ensures imported.None? ==> db.list == old(db).list
    {
      var left: nat := budget;
      if left == 0 { Restart(); return None; }
      db, left := Prepare(db), left - 1;
      var i := 0;
      while i < |rows|
        invariant 0 <= i <= |rows|
        invariant db == Db(old(db).list, Some(rows[..i]))
        invariant unchanged(`domains, `ips)
        invariant left - Batches(|rows| - i) == budget - 1 - Batches(|rows|)
      {
        if left == 0 { Restart(); return None; }
        var end := BatchEnd(i, |rows|);
        assert rows[..i] + rows[i..end] == rows[..end];
        db, left := AddBatch(db, rows[i..end]), left - 1;
        i := end;
      }
      if left == 0 { Restart(); return None; }
      assert rows[..i] == rows && Batches(|rows| - i) == 0;
      db := SwapIn(db, source);
      Invalidate();
      return Some(|rows|);
    }

    /** What a dead process leaves: the tables. */
    method Restart()
      modifies this`domains, this`ips
      ensures Valid() && domains == None
    {
      domains, ips := None, None;
    }

    method EnableSource(source: string, on: bool) returns (n: nat)
      requires Valid()
      modifies this
      ensures Valid() && db == old(db).(list := Switched(old(db).list, source, on))
      ensures n == |RowsOf(old(db).list, source)|
    {
      n := |RowsOf(db.list, source)|;
      db := db.(list := Switched(db.list, source, on));
      Invalidate();
    }

    method DeleteSource(source: string) returns (n: nat)
      requires Valid()
      modifies this
      ensures Valid() && db == old(db).(list := Others(old(db).list, source))
      ensures n == |RowsOf(old(db).list, source)|
    {
      n := |RowsOf(db.list, source)|;
      db := db.(list := Others(db.list, source));
      Invalidate();
    }

    method LoadCache()
      requires Valid()
      modifies this`domains, this`ips
      ensures Valid() && domains.Some?
    {
      if domains.Some? {
        return;
      }
      var doms: Index, addrs: Index := map[], map[];
      for i := 0 to |db.list|
        invariant doms == Load(db.list[..i], DomainTarget) && addrs == Load(db.list[..i], IpTarget)
      {
        var row := db.list[i];
        assert db.list[..i + 1][..i] == db.list[..i];
        if row.enabled {
          if row.target == DomainTarget {
            doms := doms[row.value := row.source];
          } else {
            addrs := addrs[row.value := row.source];
          }
        }
      }
      assert db.list[..|db.list|] == db.list;
      domains, ips := Some(doms), Some(addrs);
    }

    /** A lookup always answers from the rows committed last. */
    method FindDomainNow(domain: string) returns (hit: Option<Found>)
      requires Valid()
      modifies this`domains, this`ips
      ensures Valid() && hit == Walk(Load(db.list, DomainTarget), Normalised(domain))
    {
      LoadCache();
      hit := FindDomain(domains.value, domain);
    }

    method FindIp(ip: string) returns (hit: Option<Found>)
      requires Valid()
      modifies this`domains, this`ips
      ensures Valid()
      ensures var index := Load(db.list, IpTarget);
              hit == if Strip(ip) in index then Some(Found(index[Strip(ip)], Strip(ip))) else None
    {
      LoadCache();
      var key := Strip(ip);
      return if key in ips.value then Some(Found(ips.value[key], key)) else None;
    }
  }
}
