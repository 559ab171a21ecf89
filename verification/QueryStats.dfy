/**
 Daily query counters (`query_stats`): one day's counts in memory over a table with a row
 per day, flushed now and then, across day changes in any order and process restarts.
 Database calls succeed; today's date is an argument of each call.
 */
module QueryStats {

  type Day = string

  datatype Action = Intercept | RemoveIp | Allow | Unknown

  datatype Counts = Counts(total: nat, intercept: nat, removeIp: nat, allow: nat)

  const ZERO := Counts(0, 0, 0, 0)

  function Bump(c: Counts, a: Action): Counts {
    match a
    case Intercept => c.(total := c.total + 1, intercept := c.intercept + 1)
    case RemoveIp => c.(total := c.total + 1, removeIp := c.removeIp + 1)
    case Allow => c.(total := c.total + 1, allow := c.allow + 1)
    case Unknown => c.(total := c.total + 1)
  }

  datatype Local = NotLoaded | Loaded(day: Day, counts: Counts)

  datatype State = State(local: Local, table: map<Day, Counts>)

  const START := State(NotLoaded, map[])

  function Row(table: map<Day, Counts>, d: Day): Counts {
    if d in table then table[d] else ZERO
  }

  // ----- one call, on values -----

  function FlushedTable(s: State): map<Day, Counts> {
    if s.local.Loaded? then s.table[s.local.day := s.local.counts] else s.table
  }

  function EnsureLoaded(s: State, today: Day): State {
    if s.local.Loaded? && s.local.day == today then s
    else State(Loaded(today, Row(FlushedTable(s), today)), FlushedTable(s))
  }

  function AfterRecord(s: State, today: Day, a: Action): State {
    var t := EnsureLoaded(s, today);
    t.(local := t.local.(counts := Bump(t.local.counts, a)))
  }

  function AfterFlush(s: State, today: Day): State {
    var t := EnsureLoaded(s, today);
    t.(table := FlushedTable(t))
  }

  /** The counts a reader of memory over table sees for day `d`. */
  function View(s: State, d: Day): Counts {
    if s.local.Loaded? && s.local.day == d then s.local.counts else Row(s.table, d)
  }

  // ----- the module -----

  class Stats {
    var loaded: bool
    var date: Day
    var counts: Counts
    var table: map<Day, Counts>

    /** A fresh process over an existing table. */
    constructor (table: map<Day, Counts>)
      ensures Value() == State(NotLoaded, table)
    {
      loaded, date, counts, this.table := false, "", ZERO, table;
    }

    function Value(): State
      reads this
    {
      State(if loaded then Loaded(date, counts) else NotLoaded, table)
    }

    method FlushLocked()
      requires loaded
      modifies this`table
      ensures table == FlushedTable(old(Value()))
    {
      table := table[date := counts];
    }

    method Load(today: Day)
      modifies this
      ensures loaded && date == today && Value() == EnsureLoaded(old(Value()), today)
    {
      if loaded && date == today {
        return;
      }
      if loaded {
        FlushLocked();
      }
      loaded, date, counts := true, today, ZERO;
      if today in table {
        counts := table[today];
      }
    }

    method Record(action: Action, today: Day)
      modifies this
      ensures Value() == AfterRecord(old(Value()), today, action)
    {
      Load(today);
      counts := counts.(total := counts.total + 1);
      match action {
        case Intercept => counts := counts.(intercept := counts.intercept + 1);
        case RemoveIp => counts := counts.(removeIp := counts.removeIp + 1);
        case Allow => counts := counts.(allow := counts.allow + 1);
        case Unknown =>
      }
    }

    method FlushOnce(today: Day)
      modifies this
      ensures Value() == AfterFlush(old(Value()), today)
    {
      Load(today);
      FlushLocked();
    }
  }

  // ----- histories -----

  datatype Op = Record(day: Day, action: Action) | Flush(day: Day) | Restart

  function Apply(s: State, op: Op): State {
    match op
    case Record(day, action) => AfterRecord(s, day, action)
    case Flush(day) => AfterFlush(s, day)
    case Restart => s.(local := NotLoaded)
  }

  function Run(ops: seq<Op>): State {
    if ops == [] then START else Apply(Run(ops[..|ops| - 1]), ops[|ops| - 1])
  }

  /** What puts the record at `i` into the table: a flush, or a record of another day. */
  predicate Saves(ops: seq<Op>, i: nat, j: nat)
    requires i < |ops| && j < |ops| && ops[i].Record?
  {
    i < j && (ops[j].Flush? || (ops[j].Record? && ops[j].day != ops[i].day))
  }

  /** Every restart after the record at `i` comes after something that saved it. */
  predicate Survives(ops: seq<Op>, i: nat)
    requires i < |ops| && ops[i].Record?
  {
    forall r | i < r < |ops| && ops[r].Restart? :: exists j | i < j < r :: Saves(ops, i, j)
  }

  /** The surviving records of day `d` among the first `n`, counted one by one. */
  function Tally(ops: seq<Op>, n: nat, d: Day): Counts
    requires n <= |ops|
  {
    if n == 0 then ZERO
    else
      var rest := Tally(ops, n - 1, d);
      var op := ops[n - 1];
      if op.Record? && op.day == d && Survives(ops, n - 1) then Bump(rest, op.action) else rest
  }

  lemma {:induction false} TallyAgrees(a: seq<Op>, b: seq<Op>, n: nat, d: Day)
    requires n <= |a| && n <= |b| && a[..n] == b[..n]
    requires forall i | 0 <= i < n && a[i].Record? && a[i].day == d :: Survives(a, i) == Survives(b, i)
    ensures Tally(a, n, d) == Tally(b, n, d)
  {
    if n > 0 {
      assert a[..n - 1] == a[..n][..n - 1] && b[..n - 1] == b[..n][..n - 1];
      assert a[n - 1] == a[..n][n - 1] && b[n - 1] == b[..n][n - 1];
      TallyAgrees(a, b, n - 1, d);
    }
  }

  /** Only a restart can lose an earlier record. */
  lemma SurvivesStep(ops: seq<Op>, op: Op, i: nat)
    requires i < |ops| && ops[i].Record?
    ensures !op.Restart? ==> Survives(ops + [op], i) == Survives(ops, i)
    ensures op.Restart? ==>
              Survives(ops + [op], i) == (Survives(ops, i) && exists j | i < j < |ops| :: Saves(ops, i, j))
  {
    var more := ops + [op];
    assert forall j | i < j < |ops| :: Saves(more, i, j) == Saves(ops, i, j);
    if Survives(more, i) {
      forall r | i < r < |ops| && ops[r].Restart? ensures exists j | i < j < r :: Saves(ops, i, j) {
        assert more[r].Restart?;
        var j :| i < j < r && Saves(more, i, j);
        assert Saves(ops, i, j);
      }
      if op.Restart? {
        assert more[|ops|].Restart?;
        var j :| i < j < |ops| && Saves(more, i, j);
        assert Saves(ops, i, j);
      }
    }
    if Survives(ops, i) && (op.Restart? ==> exists j | i < j < |ops| :: Saves(ops, i, j)) {
      forall r | i < r < |more| && more[r].Restart? ensures exists j | i < j < r :: Saves(more, i, j) {
        if r < |ops| {
          assert ops[r].Restart?;
          var j :| i < j < r && Saves(ops, i, j);
          assert Saves(more, i, j);
        } else {
          var j :| i < j < |ops| && Saves(ops, i, j);
          assert Saves(more, i, j);
        }
      }
    }
  }

  /** Which earlier records an immediate restart would now spare. */
  lemma SavedStep(ops: seq<Op>, op: Op, i: nat)
    requires i < |ops| && ops[i].Record?
    ensures Survives(ops + [op] + [Restart], i) ==
            if op.Flush? || (op.Record? && op.day != ops[i].day) then Survives(ops, i)
            else Survives(ops + [Restart], i)
  {
    var more := ops + [op];
    SurvivesStep(ops, op, i);
    SurvivesStep(more, Restart, i);
    SurvivesStep(ops, Restart, i);
    assert forall j | i < j < |ops| :: Saves(more, i, j) == Saves(ops, i, j);
    if op.Flush? || (op.Record? && op.day != ops[i].day) {
      assert Saves(more, i, |ops|);
    } else {
      assert !Saves(more, i, |ops|);
      if j :| i < j < |ops| && Saves(ops, i, j) {
        assert Saves(more, i, j);
      }
    }
  }

  lemma TallyStep(ops: seq<Op>, op: Op, d: Day)
    requires !op.Restart?
    ensures Tally(ops + [op], |ops|, d) == Tally(ops, |ops|, d)
  {
    forall i | 0 <= i < |ops| && ops[i].Record? ensures Survives(ops + [op], i) == Survives(ops, i) {
      SurvivesStep(ops, op, i);
    }
    TallyAgrees(ops + [op], ops, |ops|, d);
  }

  lemma SavedTallyStep(ops: seq<Op>, op: Op, d: Day)
    ensures Tally(ops + [op] + [Restart], |ops|, d) ==
            if op.Flush? || (op.Record? && op.day != d) then Tally(ops, |ops|, d)
            else Tally(ops + [Restart], |ops|, d)
  {
    forall i | 0 <= i < |ops| && ops[i].Record?
      ensures Survives(ops + [op] + [Restart], i) ==
              if op.Flush? || (op.Record? && op.day != ops[i].day) then Survives(ops, i)
              else Survives(ops + [Restart], i)
    {
      SavedStep(ops, op, i);
    }
    var kept := if op.Flush? || (op.Record? && op.day != d) then ops else ops + [Restart];
    assert (ops + [op] + [Restart])[..|ops|] == ops == kept[..|ops|];
    TallyAgrees(ops + [op] + [Restart], kept, |ops|, d);
  }

  /**
   Refinement, for every history of records, flushes, day changes and restarts: memory over
   table shows exactly the surviving records, and the table alone those that a restart right
   now would spare.
   */
  lemma {:induction false} CountersRefine(ops: seq<Op>, d: Day)
    ensures View(Run(ops), d) == Tally(ops, |ops|, d)
    ensures Row(Run(ops).table, d) == Tally(ops + [Restart], |ops|, d)
    decreases |ops|
  {
    if ops != [] {
      var rest, op := ops[..|ops| - 1], ops[|ops| - 1];
      var n := |rest|;
      assert ops == rest + [op];
      CountersRefine(rest, d);
      SavedTallyStep(rest, op, d);
      if op.Record? {
        FreshRecordSurvives(rest, op);
      }
      if !op.Restart? {
        TallyStep(rest, op, d);
      }
      assert Tally(ops + [Restart], |ops|, d) == Tally(ops + [Restart], n, d);
    }
  }

  /** A record just made counts at once, and is lost if the process restarts at once. */
  lemma FreshRecordSurvives(ops: seq<Op>, op: Op)
    requires op.Record?
    ensures Survives(ops + [op], |ops|) && !Survives(ops + [op] + [Restart], |ops|)
  {
    assert (ops + [op] + [Restart])[|ops| + 1].Restart?;
  }

  /** Whatever was recorded before a flush of the same process outlives every later restart. */
  lemma FlushedRecordsSurvive(ops: seq<Op>, i: nat, f: nat)
    requires i < f < |ops| && ops[i].Record? && ops[f].Flush?
    requires forall r | i < r < f :: !ops[r].Restart?
    ensures Survives(ops, i)
  {
    assert Saves(ops, i, f);
  }

  /** With known actions only, the total is the sum of the three classes. */
  lemma {:induction false} TotalIsSum(ops: seq<Op>, n: nat, d: Day)
    requires n <= |ops| && forall op | op in ops :: op.Record? ==> op.action != Unknown
    ensures var c := Tally(ops, n, d); c.total == c.intercept + c.removeIp + c.allow
  {
    if n > 0 {
      assert ops[n - 1] in ops;
      TotalIsSum(ops, n - 1, d);
    }
  }

  lemma ViewTotalIsSum(ops: seq<Op>, d: Day)
    requires forall op | op in ops :: op.Record? ==> op.action != Unknown
    ensures var c := View(Run(ops), d); c.total == c.intercept + c.removeIp + c.allow
  {
    CountersRefine(ops, d);
    TotalIsSum(ops, |ops|, d);
  }
}
