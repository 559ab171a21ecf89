/**
 First-seen collection under every interleaving of callers, the flusher and flushed restarts:
 what the table holds, how often a domain passes the set, and what a full queue forgets.
 */
module FirstSeenRuns {
  import opened Common
  import opened FirstSeen
  import LogWriter
  import LogRuns
  import LogBridge

  /** A record that passed the set, and the epoch it passed in. */
  datatype Passed = Passed(record: Record, epoch: nat)

  /**
   `waiting`: callers that passed the set and have yet to put. `epoch`: goes up whenever the
   set starts empty again. `passed`: the history of records that passed, in order.
   */
  datatype State = State(
    seen: set<string>, waiting: seq<Record>, q: LogRuns.State<Record>, db: Table,
    epoch: nat, passed: seq<Passed>)

  datatype Step =
    | Note(r: Record)        // the locked test of the set; `r.domain` is a stored form
    | Put(i: nat)            // waiting caller i puts its record
    | Count(accepted: bool)  // a caller counts its put
    | Take                   // the flusher takes a row
    | Write                  // the flusher's batch commits
    | Restart                // a stop that flushed everything, then a new process

  function Start(): State {
    State({}, [], LogRuns.Empty<Record>(), map[], 1, [])
  }

  predicate Idle(s: State) {
    s.waiting == [] && s.q.queue == [] && s.q.hand == []
  }

  /** The epoch after `d` passes: a new one if the set had to be cleared. */
  function EpochAfter(s: State, d: string): nat {
    if |s.seen + {d}| > SEEN_MAX then s.epoch + 1 else s.epoch
  }

  function Next(s: State, step: Step): State {
    match step
    case Note(r) =>
      if r.domain in s.seen then s
      else
        s.(seen := Remember(s.seen, r.domain), waiting := s.waiting + [r],
           epoch := EpochAfter(s, r.domain), passed := s.passed + [Passed(r, EpochAfter(s, r.domain))])
    case Put(i) =>
      if i >= |s.waiting| then s
      else
        s.(waiting := OneOut(s.waiting, i), q := LogRuns.Next(s.q, LogRuns.Put(s.waiting[i]), BATCH_SIZE))
    case Count(accepted) =>
      s.(q := LogRuns.Next(s.q, if accepted then LogRuns.CountPut else LogRuns.CountDrop, BATCH_SIZE))
    case Take => s.(q := LogRuns.Next(s.q, LogRuns.Take, BATCH_SIZE))
    case Write =>
      s.(q := LogRuns.Next(s.q, LogRuns.Write(true), BATCH_SIZE), db := InsertAll(s.db, s.q.hand))
    case Restart => if Idle(s) then s.(seen := {}, epoch := s.epoch + 1) else s
  }

  function RunFrom(s: State, steps: seq<Step>): State {
    if steps == [] then s else Next(RunFrom(s, steps[..|steps| - 1]), steps[|steps| - 1])
  }

  function Run(steps: seq<Step>): State {
    RunFrom(Start(), steps)
  }

  // ----- the table -----

  ghost predicate Good(s: State) {
    && LogRuns.Measured(s.q, BATCH_SIZE)
    && s.q.table + s.q.hand + s.q.queue == s.q.accepted
    && HoldsFirst(s.db, s.q.table)
    && |s.seen| <= SEEN_MAX
  }

  lemma WriteIsGood(s: State)
    requires Good(s)
    ensures Good(Next(s, Write))
  {
    LogRuns.StepKeepsMeasure(s.q, LogRuns.Write(true), BATCH_SIZE);
    InsertKeepsFirst(s.db, s.q.table, s.q.hand);
    assert s.q.hand == [] ==> s.q.table + s.q.hand == s.q.table;
    assert s.q.table + s.q.hand + [] == s.q.table + s.q.hand;
  }

  lemma StepIsGood(s: State, step: Step)
    requires Good(s)
    ensures Good(Next(s, step))
  {
    match step {
      case Put(i) =>
        if i < |s.waiting| {
          LogRuns.StepKeepsMeasure(s.q, LogRuns.Put(s.waiting[i]), BATCH_SIZE);
          LogRuns.PutAtEnd(s.q.table, s.q.hand, s.q.queue, s.waiting[i]);
        }
      case Count(accepted) =>
        LogRuns.StepKeepsMeasure(s.q, if accepted then LogRuns.CountPut else LogRuns.CountDrop, BATCH_SIZE);
      case Take =>
        LogRuns.StepKeepsMeasure(s.q, LogRuns.Take, BATCH_SIZE);
        if s.q.queue != [] { LogRuns.TakeFromFront(s.q.table, s.q.hand, s.q.queue); }
      case Write => WriteIsGood(s);
      case _ =>
    }
  }

  /**
   In every run, restarts and clears of the set included: the table holds exactly one row per
   domain written, its first accepted record; and what is in the table, in hand and queued
   is everything accepted, in order.
   */
  lemma EveryRunIsGood(steps: seq<Step>)
    ensures Good(Run(steps))
  {
    EmptyIsGood(Start());
    RunStaysGood(Start(), steps);
  }

  lemma NothingIsHeld(table: Table, rows: seq<Record>)
    requires table == map[] && rows == []
    ensures HoldsFirst(table, rows)
  {
  }

  lemma EmptyIsGood(s: State)
    requires s.seen == {} && s.db == map[]
    requires s.q.queue == s.q.hand == s.q.table == s.q.accepted == s.q.rejected == [] && s.q.attempts == []
    requires s.q.enqueued == s.q.dropped == s.q.uncountedPuts == s.q.uncountedDrops == 0
    ensures Good(s)
  {
    NothingIsHeld(s.db, s.q.table);
  }

  lemma {:induction false} RunStaysGood(s: State, steps: seq<Step>)
    requires Good(s)
    ensures Good(RunFrom(s, steps))
  {
    if steps != [] {
      var before := steps[..|steps| - 1];
      RunStaysGood(s, before);
      StepIsGood(RunFrom(s, before), steps[|steps| - 1]);
    }
  }

  /** Once idle, the table covers everything ever accepted, whatever was cleared on the way. */
  lemma IdleHoldsEverything(s: State)
    requires Good(s) && Idle(s)
    ensures HoldsFirst(s.db, s.q.accepted)
  {
    assert s.q.table + [] + [] == s.q.table;
  }

  // ----- what the set suppresses -----

  /** No domain passed twice in one epoch, and the set holds this epoch's domains. */
  ghost predicate PassedOnce(s: State) {
    && (forall i, j | 0 <= i < j < |s.passed| && s.passed[i].record.domain == s.passed[j].record.domain ::
          s.passed[i].epoch != s.passed[j].epoch)
    && (forall i | 0 <= i < |s.passed| :: s.passed[i].epoch <= s.epoch)
    && (forall i | 0 <= i < |s.passed| && s.passed[i].epoch == s.epoch :: s.passed[i].record.domain in s.seen)
  }

  lemma NotePassesOnce(s: State, r: Record)
    requires PassedOnce(s) && r.domain !in s.seen
    ensures PassedOnce(Next(s, Note(r)))
  {
    var n, t := |s.passed|, Next(s, Note(r));
    assert t.passed[n] == Passed(r, EpochAfter(s, r.domain));
    assert forall i | 0 <= i < n :: t.passed[i] == s.passed[i];
    forall i | 0 <= i < n && s.passed[i].record.domain == r.domain
      ensures s.passed[i].epoch != EpochAfter(s, r.domain)
    {
      assert s.passed[i].epoch <= s.epoch;
    }
  }

  lemma StepPassesOnce(s: State, step: Step)
    requires PassedOnce(s)
    ensures PassedOnce(Next(s, step))
  {
    if step.Note? && step.r.domain !in s.seen {
      NotePassesOnce(s, step.r);
    }
  }

  /** Between two clears of the set a domain passes it at most once. */
  lemma {:induction false} OncePerEpoch(steps: seq<Step>)
    ensures PassedOnce(Run(steps))
  {
    if steps != [] {
      var before := steps[..|steps| - 1];
      OncePerEpoch(before);
      StepPassesOnce(Run(before), steps[|steps| - 1]);
    }
  }

  function Records(passed: seq<Passed>): (rs: seq<Record>)
    ensures |rs| == |passed| && forall i | 0 <= i < |rs| :: rs[i] == passed[i].record
  {
    seq(|passed|, i requires 0 <= i < |passed| => passed[i].record)
  }

  /** Every record that passed the set is waiting, was accepted, or was dropped. */
  ghost predicate Accounted(s: State) {
    multiset(Records(s.passed)) == multiset(s.waiting) + multiset(s.q.accepted) + multiset(s.q.rejected)
  }

  lemma NoteIsAccounted(s: State, r: Record)
    requires Accounted(s)
    ensures Accounted(Next(s, Note(r)))
  {
    var p := Passed(r, EpochAfter(s, r.domain));
    assert Records(s.passed + [p]) == Records(s.passed) + [r];
  }

  lemma PutIsAccounted(s: State, i: nat)
    requires Accounted(s) && i < |s.waiting|
    ensures Accounted(Next(s, Put(i)))
  {
    var r := s.waiting[i];
    OneOutCounts(s.waiting, i);
    assert multiset(s.q.accepted + [r]) == multiset(s.q.accepted) + multiset{r};
    assert multiset(s.q.rejected + [r]) == multiset(s.q.rejected) + multiset{r};
  }

  lemma {:induction false} PassedAreAccountedFor(steps: seq<Step>)
    ensures Accounted(Run(steps))
  {
    if steps != [] {
      var before, step := steps[..|steps| - 1], steps[|steps| - 1];
      PassedAreAccountedFor(before);
      match step {
        case Note(r) => NoteIsAccounted(Run(before), r);
        case Put(i) => if i < |Run(before).waiting| { PutIsAccounted(Run(before), i); }
        case _ =>
      }
    }
  }

  // ----- what a full queue forgets -----

  ghost predicate Mentions(rs: seq<Record>, d: string) {
    exists i | 0 <= i < |rs| :: rs[i].domain == d
  }

  ghost predicate SeenPassed(s: State, d: string) {
    d in s.seen ==> Mentions(Records(s.passed), d)
  }

  lemma StepKeepsSeenPassed(s: State, step: Step, d: string)
    requires SeenPassed(s, d)
    ensures SeenPassed(Next(s, step), d)
  {
    if step.Note? && step.r.domain !in s.seen {
      var earlier, later := Records(s.passed), Records(Next(s, step).passed);
      assert forall i | 0 <= i < |earlier| :: later[i] == earlier[i];
      assert later[|earlier|] == step.r;
    }
  }

  lemma {:induction false} SeenHasPassed(steps: seq<Step>, d: string)
    ensures SeenPassed(Run(steps), d)
  {
    if steps != [] {
      var before := steps[..|steps| - 1];
      SeenHasPassed(before, d);
      StepKeepsSeenPassed(Run(before), steps[|steps| - 1], d);
    }
  }

  lemma HeldIsMentioned(db: Table, rows: seq<Record>, d: string)
    requires HoldsFirst(db, rows)
    ensures d in db <==> Mentions(rows, d)
  {
    FirstMeaning(rows, d);
    assert Lookup(db, d) == First(rows, d);
  }

  lemma InSome(r: Record, a: seq<Record>, b: seq<Record>, d: string)
    requires r.domain == d && r in multiset(a) + multiset(b)
    ensures Mentions(a, d) || Mentions(b, d)
  {
    if r in multiset(a) {
      var j :| 0 <= j < |a| && a[j] == r;
    } else {
      var j :| 0 <= j < |b| && b[j] == r;
    }
  }

  lemma PassedOrDropped(s: State, d: string)
    requires Accounted(s) && s.waiting == [] && Mentions(Records(s.passed), d)
    ensures Mentions(s.q.accepted, d) || Mentions(s.q.rejected, d)
  {
    var i :| 0 <= i < |Records(s.passed)| && Records(s.passed)[i].domain == d;
    var r := Records(s.passed)[i];
    assert r in multiset(Records(s.passed));
    InSome(r, s.q.accepted, s.q.rejected, d);
  }

  /**
   Once idle, a domain has a row if and only if some record of it was accepted; so a domain
   that the set remembers is missing from the table only if a full queue dropped its record.
   */
  lemma MissingWasDropped(steps: seq<Step>, d: string)
    requires Idle(Run(steps))
    ensures var s := Run(steps);
            && (d in s.db <==> Mentions(s.q.accepted, d))
            && (d in s.seen && d !in s.db ==> Mentions(s.q.rejected, d))
  {
    var s := Run(steps);
    EveryRunIsGood(steps);
    IdleHoldsEverything(s);
    HeldIsMentioned(s.db, s.q.accepted, d);
    if d in s.seen {
      SeenHasPassed(steps, d);
      PassedAreAccountedFor(steps);
      PassedOrDropped(s, d);
    }
  }

  /** The set remembers `d`, but no row, no queued row and no waiting caller carries it. */
  ghost predicate Forgotten(s: State, d: string) {
    && d in s.seen && d !in s.db
    && !Mentions(s.waiting, d) && !Mentions(s.q.queue, d) && !Mentions(s.q.hand, d)
  }

  /** A full queue that rejects the only record of a domain leaves the domain forgotten. */
  lemma RejectionForgets(s: State, i: nat, d: string)
    requires d in s.seen && d !in s.db && !Mentions(s.q.queue, d) && !Mentions(s.q.hand, d)
    requires i < |s.waiting| && forall j | 0 <= j < |s.waiting| && j != i :: s.waiting[j].domain != d
    requires |s.q.queue| >= LogWriter.MAX_QUEUE
    ensures Forgotten(Next(s, Put(i)), d)
  {
    var rest := OneOut(s.waiting, i);
    assert forall j | 0 <= j < |rest| :: rest[j] == s.waiting[if j < i then j else j + 1];
  }

  lemma {:induction false} InsertAddsOnlyIts(table: Table, rows: seq<Record>, d: string)
    requires d !in table && !Mentions(rows, d)
    ensures d !in InsertAll(table, rows)
    decreases |rows|
  {
    if rows != [] {
      var r := rows[0];
      assert r.domain != d;
      assert forall j | 0 <= j < |rows[1..]| :: rows[1..][j] == rows[j + 1];
      InsertAddsOnlyIts(InsertOne(table, r), rows[1..], d);
    }
  }

  lemma TakeStaysForgotten(s: State, d: string)
    requires Forgotten(s, d)
    ensures Forgotten(Next(s, Take), d)
  {
    var q := s.q.queue;
    if q != [] && |s.q.hand| < BATCH_SIZE {
      assert q[0].domain != d;
      assert forall j | 0 <= j < |q[1..]| :: q[1..][j] == q[j + 1];
    }
  }

  lemma PutStaysForgotten(s: State, i: nat, d: string)
    requires Forgotten(s, d)
    ensures Forgotten(Next(s, Put(i)), d)
  {
    if i < |s.waiting| {
      var rest := OneOut(s.waiting, i);
      assert s.waiting[i].domain != d;
      assert forall j | 0 <= j < |rest| :: rest[j] == s.waiting[if j < i then j else j + 1];
    }
  }

  lemma StepStaysForgotten(s: State, step: Step, d: string)
    requires Forgotten(s, d) && Next(s, step).epoch == s.epoch
    ensures Forgotten(Next(s, step), d)
  {
    match step {
      case Put(i) => PutStaysForgotten(s, i, d);
      case Take => TakeStaysForgotten(s, d);
      case Write => InsertAddsOnlyIts(s.db, s.q.hand, d);
      case _ =>
    }
  }

  /** A forgotten domain gains no row, however often it is seen again, until the set is cleared. */
  lemma {:induction false} ForgottenIsNotRetried(s: State, more: seq<Step>, d: string)
    requires Forgotten(s, d)
    ensures RunFrom(s, more).epoch >= s.epoch
    ensures RunFrom(s, more).epoch == s.epoch ==> Forgotten(RunFrom(s, more), d)
  {
    if more != [] {
      var before := more[..|more| - 1];
      ForgottenIsNotRetried(s, before, d);
      if RunFrom(s, more).epoch == s.epoch {
        StepStaysForgotten(RunFrom(s, before), more[|more| - 1], d);
      }
    }
  }

  // ----- the program takes these steps -----

  /** The collector between calls, as a state of the model. */
  ghost predicate Agrees(c: Collector, s: State)
    reads c, c.writer
  {
    && c.seen == s.seen && s.waiting == [] && LogBridge.Agrees(c.writer, s.q)
    && s.db == Contents(c.writer.table)
  }

  /** A new domain is noted, put and counted; anything else changes nothing. */
  function RecordSteps(s: State, enabled: bool, r: Record): seq<Step> {
    if !enabled || !Interesting(r.domain) || r.domain in s.seen then []
    else [Note(r), Put(0), Count(|s.q.queue| < LogWriter.MAX_QUEUE)]
  }

  lemma ThreeSteps(s: State, a: Step, b: Step, c: Step)
    ensures RunFrom(s, [a, b, c]) == Next(Next(Next(s, a), b), c)
  {
    assert [a, b, c][..2] == [a, b] && [a, b][..1] == [a] && [a][..0] == [];
    assert RunFrom(s, [a, b]) == Next(RunFrom(s, [a]), b);
    assert RunFrom(s, [a]) == Next(RunFrom(s, []), a);
    assert RunFrom(s, []) == s;
  }

  lemma NewDomain(s: State, r: Record)
    requires s.waiting == [] && r.domain !in s.seen && s.q.uncountedPuts == s.q.uncountedDrops == 0
    ensures var room := |s.q.queue| < LogWriter.MAX_QUEUE;
            var t := Next(Next(Next(s, Note(r)), Put(0)), Count(room));
            && t.seen == Remember(s.seen, r.domain) && t.waiting == []
            && t.q.hand == s.q.hand && t.q.table == s.q.table && t.db == s.db
            && t.q.queue == (if room then s.q.queue + [r] else s.q.queue)
            && t.q.enqueued == (if room then s.q.enqueued + 1 else s.q.enqueued)
            && t.q.dropped == (if room then s.q.dropped else s.q.dropped + 1)
            && t.q.uncountedPuts == t.q.uncountedDrops == 0
  {
    assert s.waiting + [r] == [r] && OneOut([r], 0) == [];
  }

  /** One call of `record_domain_seen` is the run of its steps. */
  method RecordAsSteps(c: Collector, domain: string, qtype: string, client: string, ghost s: State)
    requires c.Valid() && Agrees(c, s)
    modifies c, c.writer
    ensures c.Valid()
    ensures Agrees(c, RunFrom(s, RecordSteps(s, c.enabled, Record(Key(domain), client, qtype))))
  {
    ghost var r := Record(Key(domain), client, qtype);
    if r.domain !in s.seen {
      NewDomain(s, r);
      ThreeSteps(s, Note(r), Put(0), Count(|s.q.queue| < LogWriter.MAX_QUEUE));
    }
    c.RecordDomainSeen(domain, qtype, client);
  }

  // ----- and its flush -----

  ghost predicate Flushing(steps: seq<LogRuns.Step<Record>>) {
    forall i | 0 <= i < |steps| :: steps[i] == LogRuns.Take || steps[i] == LogRuns.Write(true)
  }

  /** The takes and writes of a flush, on the collector's table. */
  function OnTable(steps: seq<LogRuns.Step<Record>>): seq<Step> {
    if steps == [] then []
    else OnTable(steps[..|steps| - 1]) + [if steps[|steps| - 1].Take? then Take else Write]
  }

  lemma TableStep(s: State, step: LogRuns.Step<Record>)
    requires step == LogRuns.Take || step == LogRuns.Write(true)
    requires s.db == Contents(s.q.table)
    ensures var t := Next(s, if step.Take? then Take else Write);
            && t.q == LogRuns.Next(s.q, step, BATCH_SIZE) && t.seen == s.seen && t.waiting == s.waiting
            && t.db == Contents(t.q.table)
  {
    if step.Write? {
      InsertAllAppend(map[], s.q.table, s.q.hand);
    }
  }

  lemma {:induction false} TableRun(s: State, steps: seq<LogRuns.Step<Record>>)
    requires Flushing(steps) && s.db == Contents(s.q.table)
    ensures var t := RunFrom(s, OnTable(steps));
            && t.q == LogRuns.RunFrom(s.q, steps, BATCH_SIZE) && t.seen == s.seen && t.waiting == s.waiting
            && t.db == Contents(t.q.table)
  {
    if steps != [] {
      var before, last := steps[..|steps| - 1], steps[|steps| - 1];
      TableRun(s, before);
      TableStep(RunFrom(s, OnTable(before)), last);
      var step := if last.Take? then Take else Write;
      assert (OnTable(before) + [step])[..|OnTable(before)|] == OnTable(before);
    }
  }

  lemma {:induction false} TakesFlush(n: nat)
    ensures Flushing(LogBridge.Takes<Record>(n))
  {
    if n > 0 {
      TakesFlush(n - 1);
    }
  }

  lemma {:induction false} WholeFlush(batches: seq<seq<Record>>)
    ensures Flushing(LogBridge.FlushSteps(batches, |batches|))
  {
    if batches != [] {
      TakesFlush(|batches[0]|);
      WholeFlush(batches[1..]);
    }
  }

  /** One flush of the collector is a run of takes and writes that fills the table. */
  method FlushAsSteps(c: Collector, ghost s: State)
    requires c.Valid() && Agrees(c, s)
    modifies c.writer
    ensures c.Valid() && c.writer.queue == []
    ensures var batches := LogWriter.Chunks(s.q.queue, BATCH_SIZE);
            Agrees(c, RunFrom(s, OnTable(LogBridge.FlushSteps(batches, |batches|))))
  {
    ghost var batches := LogWriter.Chunks(s.q.queue, BATCH_SIZE);
    WholeFlush(batches);
    TableRun(s, LogBridge.FlushSteps(batches, |batches|));
    ghost var done;
    var ok;
    ok, done := LogBridge.FlushAsSteps(c.writer, None, s.q);
  }
}
