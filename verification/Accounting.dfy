/**
 The pipeline and the daily counters together: over any sequence of completed queries, flushes
 and restarts, on any days, a day's total is the number of its queries whose record survived and
 its intercepts and removals are the security rows those queries wrote.
 */
module Accounting {
  import opened Decision
  import opened DecisionLaws
  import opened IpFilter
  import QueryStats

  type Day = QueryStats.Day
  type Op = QueryStats.Op

  /** A completed query on a day, a flush of the counters, or a restart of the process. */
  datatype Item = Completed(day: Day, handling: Handling) | Flush(day: Day) | Restart

  function StatsAction(a: Action): QueryStats.Action {
    match a
    case Allow => QueryStats.Allow
    case Intercept => QueryStats.Intercept
    case RemoveIp => QueryStats.RemoveIp
  }

  /** The counter operations an item performs: one record per counter update in its trace. */
  function Records(day: Day, actions: seq<Action>): seq<Op> {
    if actions == [] then []
    else Records(day, actions[..|actions| - 1]) + [QueryStats.Record(day, StatsAction(actions[|actions| - 1]))]
  }

  function ItemOps(i: Item): seq<Op> {
    match i
    case Completed(day, h) => Records(day, Counted(h.events))
    case Flush(day) => [QueryStats.Flush(day)]
    case Restart => [QueryStats.Restart]
  }

  function OpsOf(items: seq<Item>): seq<Op> {
    if items == [] then [] else OpsOf(items[..|items| - 1]) + ItemOps(items[|items| - 1])
  }

  /** How many of the operations record action `a` on day `d`. */
  function Recorded(ops: seq<Op>, d: Day, a: QueryStats.Action): nat {
    if ops == [] then 0
    else Recorded(ops[..|ops| - 1], d, a) + (if ops[|ops| - 1] == QueryStats.Record(d, a) then 1 else 0)
  }

  /** The query went through the pipeline, whatever its configuration, lists and world. */
  ghost predicate Handled(h: Handling) {
    exists c, f, black: Check, q, w :: Handles(c, f, black, q, w, h)
  }

  ghost predicate AllHandled(items: seq<Item>) {
    forall i | 0 <= i < |items| && items[i].Completed? :: Handled(items[i].handling)
  }

  predicate OnDay(i: Item, d: Day) { i.Completed? && i.day == d }

  function QueriesOn(items: seq<Item>, d: Day): nat {
    if items == [] then 0
    else QueriesOn(items[..|items| - 1], d) + (if OnDay(items[|items| - 1], d) then 1 else 0)
  }

  function Occurrences(actions: seq<Action>, a: Action): nat {
    if actions == [] then 0
    else Occurrences(actions[..|actions| - 1], a) + (if actions[|actions| - 1] == a then 1 else 0)
  }

  function ItemRows(i: Item, d: Day, a: Action): nat {
    if OnDay(i, d) then Occurrences(Secured(i.handling.events), a) else 0
  }

  /** The security rows with action `a` that the queries of day `d` wrote. */
  function RowsOn(items: seq<Item>, d: Day, a: Action): nat {
    if items == [] then 0
    else
      RowsOn(items[..|items| - 1], d, a) + ItemRows(items[|items| - 1], d, a)
  }

  // ----- counters are numbers of records -----

  lemma OneRecord(s: QueryStats.State, day: Day, a: QueryStats.Action, d: Day)
    ensures QueryStats.View(QueryStats.AfterRecord(s, day, a), d) ==
            if d == day then QueryStats.Bump(QueryStats.View(s, d), a) else QueryStats.View(s, d)
  {
  }

  lemma OneFlush(s: QueryStats.State, day: Day, d: Day)
    ensures QueryStats.View(QueryStats.AfterFlush(s, day), d) == QueryStats.View(s, d)
  {
  }

  predicate NoRestart(ops: seq<Op>) {
    forall i | 0 <= i < |ops| :: !ops[i].Restart?
  }

  ghost predicate CountsAre(c: QueryStats.Counts, intercepts: nat, removals: nat, allows: nat, unknowns: nat) {
    && c.intercept == intercepts && c.removeIp == removals && c.allow == allows
    && c.total == intercepts + removals + allows + unknowns
  }

  lemma BumpCounts(c: QueryStats.Counts, a: QueryStats.Action, i: nat, r: nat, w: nat, u: nat)
    requires CountsAre(c, i, r, w, u)
    ensures CountsAre(QueryStats.Bump(c, a),
                      i + (if a == QueryStats.Intercept then 1 else 0), r + (if a == QueryStats.RemoveIp then 1 else 0),
                      w + (if a == QueryStats.Allow then 1 else 0), u + (if a == QueryStats.Unknown then 1 else 0))
  {
  }

  /** Without a restart, what a reader sees of a day is the number of records of each action. */
  lemma {:induction false} ViewIsNumbers(ops: seq<Op>, d: Day)
    requires NoRestart(ops)
    ensures CountsAre(QueryStats.View(QueryStats.Run(ops), d),
                      Recorded(ops, d, QueryStats.Intercept), Recorded(ops, d, QueryStats.RemoveIp),
                      Recorded(ops, d, QueryStats.Allow), Recorded(ops, d, QueryStats.Unknown))
  {
    if ops != [] {
      var before, op := ops[..|ops| - 1], ops[|ops| - 1];
      ViewIsNumbers(before, d);
      var s := QueryStats.Run(before);
      match op {
        case Record(day, a) =>
          OneRecord(s, day, a, d);
          BumpCounts(QueryStats.View(s, d), a,
                     Recorded(before, d, QueryStats.Intercept), Recorded(before, d, QueryStats.RemoveIp),
                     Recorded(before, d, QueryStats.Allow), Recorded(before, d, QueryStats.Unknown));
        case Flush(day) => OneFlush(s, day, d);
        case Restart =>
      }
    }
  }

  // ----- records are queries, and intercepts and removals are rows -----

  lemma OneOccurrence(actions: seq<Action>, a: Action)
    requires |actions| <= 1
    ensures Occurrences(actions, a) == if actions == [a] then 1 else 0
  {
  }

  /** What every handled query leaves: one counter update and at most the matching row. */
  ghost predicate Booked(h: Handling) {
    exists a :: Books(h.events, a)
  }

  lemma HandledIsBooked(h: Handling)
    requires Handled(h)
    ensures Booked(h)
  {
    var c, f, black: Check, q, w :| Handles(c, f, black, q, w, h);
    var a := EveryQueryIsBooked(c, f, black, q, w, h);
  }

  lemma OneAction(day: Day, a: Action)
    ensures Records(day, [a]) == [QueryStats.Record(day, StatsAction(a))]
  {
    assert [a][..0] == [];
    assert Records(day, []) == [];
  }

  lemma SecuredOnce(h: Handling, a: Action, b: Action)
    requires Books(h.events, a) && b != Allow
    ensures Occurrences(Secured(h.events), b) == if a == b then 1 else 0
  {
    OneOccurrence(Secured(h.events), b);
    assert [a] == [b] <==> a == b by { assert [a][0] == a; }
  }

  /** `op` is the one counter operation of item `i`, and `a` what the query booked. */
  ghost predicate OpOf(i: Item, op: Op, a: Action) {
    && ItemOps(i) == [op]
    && match i
       case Completed(day, h) => Books(h.events, a) && op == QueryStats.Record(day, StatsAction(a))
       case Flush(day) => op == QueryStats.Flush(day)
       case Restart => op == QueryStats.Restart
  }

  lemma ItemIsOneOp(i: Item) returns (op: Op, a: Action)
    requires i.Completed? ==> Booked(i.handling)
    ensures OpOf(i, op, a)
  {
    match i {
      case Flush(day) => op, a := QueryStats.Flush(day), Allow;
      case Restart => op, a := QueryStats.Restart, Allow;
      case Completed(day, h) =>
        a :| Books(h.events, a);
        op := QueryStats.Record(day, StatsAction(a));
        OneAction(day, a);
    }
  }

  ghost predicate AllBooked(items: seq<Item>) {
    forall i | 0 <= i < |items| && items[i].Completed? :: Booked(items[i].handling)
  }

  /** Items and operations stand side by side. */
  lemma {:induction false} Aligned(items: seq<Item>, k: nat) returns (a: Action)
    requires AllBooked(items) && k < |items|
    ensures |OpsOf(items)| == |items| && OpOf(items[k], OpsOf(items)[k], a)
  {
    var n := |items| - 1;
    var before := items[..n];
    var op, last := ItemIsOneOp(items[n]);
    if n > 0 {
      a := Aligned(before, if k < n then k else 0);
      assert k < n ==> before[k] == items[k];
    }
    if k == n {
      a := last;
    }
  }

  // ----- which queries the counters still know -----

  /** What puts the record of query `i` into the table: a flush, or a query of another day. */
  predicate Saves(items: seq<Item>, i: nat, j: nat)
    requires i < |items| && j < |items| && items[i].Completed?
  {
    i < j && (items[j].Flush? || (items[j].Completed? && items[j].day != items[i].day))
  }

  /** Every restart after query `i` comes after something that saved its record. */
  predicate Survives(items: seq<Item>, i: nat)
    requires i < |items| && items[i].Completed?
  {
    forall r | i < r < |items| && items[r].Restart? :: exists j | i < j < r :: Saves(items, i, j)
  }

  lemma SavesSame(items: seq<Item>, i: nat, j: nat)
    requires AllBooked(items) && i < |items| && j < |items| && items[i].Completed?
    ensures |OpsOf(items)| == |items| && OpsOf(items)[i].Record?
    ensures Saves(items, i, j) == QueryStats.Saves(OpsOf(items), i, j)
  {
    var a := Aligned(items, i);
    var b := Aligned(items, j);
  }

  lemma RestartsSame(items: seq<Item>, r: nat)
    requires AllBooked(items) && r < |items|
    ensures |OpsOf(items)| == |items| && (items[r].Restart? <==> OpsOf(items)[r].Restart?)
  {
    var a := Aligned(items, r);
  }

  /** A query survives exactly when its record does. */
  lemma SurvivesSame(items: seq<Item>, i: nat)
    requires AllBooked(items) && i < |items| && items[i].Completed?
    ensures |OpsOf(items)| == |items| && OpsOf(items)[i].Record?
    ensures Survives(items, i) == QueryStats.Survives(OpsOf(items), i)
  {
    SavesSame(items, i, i);
    var ops := OpsOf(items);
    forall r | 0 <= r < |items| ensures items[r].Restart? <==> ops[r].Restart? { RestartsSame(items, r); }
    forall j | 0 <= j < |items| ensures Saves(items, i, j) == QueryStats.Saves(ops, i, j) { SavesSame(items, i, j); }
    if Survives(items, i) {
      forall r | i < r < |ops| && ops[r].Restart? ensures exists j | i < j < r :: QueryStats.Saves(ops, i, j) {
        var j :| i < j < r && Saves(items, i, j);
        assert QueryStats.Saves(ops, i, j);
      }
    }
    if QueryStats.Survives(ops, i) {
      forall r | i < r < |items| && items[r].Restart? ensures exists j | i < j < r :: Saves(items, i, j) {
        var j :| i < j < r && QueryStats.Saves(ops, i, j);
        assert Saves(items, i, j);
      }
    }
  }

  predicate Counts(items: seq<Item>, i: nat, d: Day)
    requires i < |items|
  {
    OnDay(items[i], d) && Survives(items, i)
  }

  /** The surviving queries of day `d` among the first `n` items. */
  function Surviving(items: seq<Item>, n: nat, d: Day): nat
    requires n <= |items|
  {
    if n == 0 then 0 else Surviving(items, n - 1, d) + (if Counts(items, n - 1, d) then 1 else 0)
  }

  /** The security rows with action `a` that those queries wrote. */
  function SurvivingRows(items: seq<Item>, n: nat, d: Day, a: Action): nat
    requires n <= |items|
  {
    if n == 0 then 0
    else
      SurvivingRows(items, n - 1, d, a) + (if Counts(items, n - 1, d) then ItemRows(items[n - 1], d, a) else 0)
  }

  ghost predicate Shows(c: QueryStats.Counts, total: nat, intercepts: nat, removals: nat) {
    c.total == total && c.intercept == intercepts && c.removeIp == removals
  }

  lemma ShowsOneMore(c: QueryStats.Counts, total: nat, i: nat, r: nat, a: Action)
    requires Shows(c, total, i, r)
    ensures Shows(QueryStats.Bump(c, StatsAction(a)), total + 1,
                  i + (if a == Intercept then 1 else 0), r + (if a == RemoveIp then 1 else 0))
  {
  }

  lemma {:induction false} TallyShows(items: seq<Item>, n: nat, d: Day)
    requires AllBooked(items) && n <= |items|
    ensures n <= |OpsOf(items)|
    ensures Shows(QueryStats.Tally(OpsOf(items), n, d), Surviving(items, n, d),
                  SurvivingRows(items, n, d, Intercept), SurvivingRows(items, n, d, RemoveIp))
  {
    if n > 0 {
      var i := items[n - 1];
      var ops := OpsOf(items);
      TallyShows(items, n - 1, d);
      var a := Aligned(items, n - 1);
      if i.Completed? {
        SurvivesSame(items, n - 1);
        SecuredOnce(i.handling, a, Intercept);
        SecuredOnce(i.handling, a, RemoveIp);
        ShowsOneMore(QueryStats.Tally(ops, n - 1, d), Surviving(items, n - 1, d),
                     SurvivingRows(items, n - 1, d, Intercept), SurvivingRows(items, n - 1, d, RemoveIp), a);
      }
    }
  }

  lemma {:induction false} ActionsAreKnown(items: seq<Item>, op: Op)
    requires AllBooked(items) && op in OpsOf(items)
    ensures op.Record? ==> op.action != QueryStats.Unknown
  {
    if items != [] {
      var k: nat :| k < |OpsOf(items)| && OpsOf(items)[k] == op;
      var a := Aligned(items, 0);
      a := Aligned(items, k);
    }
  }

  predicate NeverRestarts(items: seq<Item>) {
    forall i | 0 <= i < |items| :: !items[i].Restart?
  }

  /** Nothing survives that was not there, and without a restart everything does. */
  lemma {:induction false} SurvivorsAreSome(items: seq<Item>, n: nat, d: Day, a: Action)
    requires n <= |items|
    ensures Surviving(items, n, d) <= QueriesOn(items[..n], d)
    ensures SurvivingRows(items, n, d, a) <= RowsOn(items[..n], d, a)
    ensures NeverRestarts(items) ==>
              && Surviving(items, n, d) == QueriesOn(items[..n], d)
              && SurvivingRows(items, n, d, a) == RowsOn(items[..n], d, a)
  {
    if n > 0 {
      SurvivorsAreSome(items, n - 1, d, a);
      assert items[..n][..n - 1] == items[..n - 1] && items[..n][n - 1] == items[n - 1];
    }
  }

  /**
   End to end, on every day and after any restarts: what a reader of the counters sees is, as
   total, the number of completed queries whose record survived; its classes add up to it; its
   intercepts and removals are exactly the security rows of those queries, so at most the rows
   written; and without a restart they are all queries and all rows.
   */
  lemma CountersMatchQueriesAndRows(items: seq<Item>, d: Day)
    requires AllHandled(items)
    ensures var v, n := QueryStats.View(QueryStats.Run(OpsOf(items)), d), |items|;
            && v.total == Surviving(items, n, d) <= QueriesOn(items, d)
            && v.total == v.intercept + v.removeIp + v.allow
            && v.intercept == SurvivingRows(items, n, d, Intercept) <= RowsOn(items, d, Intercept)
            && v.removeIp == SurvivingRows(items, n, d, RemoveIp) <= RowsOn(items, d, RemoveIp)
    ensures NeverRestarts(items) ==>
              var v := QueryStats.View(QueryStats.Run(OpsOf(items)), d);
              && v.total == QueriesOn(items, d)
              && v.intercept == RowsOn(items, d, Intercept) && v.removeIp == RowsOn(items, d, RemoveIp)
  {
    forall i | 0 <= i < |items| && items[i].Completed? ensures Booked(items[i].handling) {
      HandledIsBooked(items[i].handling);
    }
    var n, ops := |items|, OpsOf(items);
    TallyShows(items, n, d);
    OneOpEach(items);
    QueryStats.CountersRefine(ops, d);
    forall op | op in ops ensures op.Record? ==> op.action != QueryStats.Unknown { ActionsAreKnown(items, op); }
    QueryStats.ViewTotalIsSum(ops, d);
    assert items[..n] == items;
    SurvivorsAreSome(items, n, d, Intercept);
    SurvivorsAreSome(items, n, d, RemoveIp);
  }

  lemma OneOpEach(items: seq<Item>)
    requires AllBooked(items)
    ensures |OpsOf(items)| == |items|
  {
    if items != [] {
      var a := Aligned(items, 0);
    }
  }
}
