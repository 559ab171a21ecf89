/**
 What each worker did in a run, whatever the others did in between: it asked for its names in
 order, and recorded its grants in order, each once.
 */
module WorkerRuns {
  import opened Common
  import opened CircuitBreaker
  import opened BreakerRuns

  /** The list a worker was started with. */
  function NamesOf(steps: seq<Step>, id: int): Option<seq<string>> {
    if steps == [] then None
    else
      var before, last := NamesOf(steps[..|steps| - 1], id), steps[|steps| - 1];
      if before.None? && last.Start? && last.id == id then Some(last.names) else before
  }

  /** The last step of `steps` is one that worker `id` takes. */
  predicate Acts(steps: seq<Step>, id: int, cfg: Config)
    requires steps != []
  {
    steps[|steps| - 1].id == id && Enabled(Run(steps[..|steps| - 1], cfg), steps[|steps| - 1])
  }

  /** The names the worker has asked for, one per ask step. */
  function Asks(steps: seq<Step>, id: int, cfg: Config): seq<string> {
    if steps == [] then []
    else
      var before, last := steps[..|steps| - 1], steps[|steps| - 1];
      Asks(before, id, cfg)
      + if last.Ask? && Acts(steps, id, cfg) then [Run(before, cfg).workers[id].asking[0]] else []
  }

  /** Those of its asks that were granted. */
  function GrantsTo(steps: seq<Step>, id: int, cfg: Config): seq<string> {
    if steps == [] then []
    else
      var before, last := steps[..|steps| - 1], steps[|steps| - 1];
      var s := Run(before, cfg);
      GrantsTo(before, id, cfg)
      + if last.Ask? && Acts(steps, id, cfg)
           && Grants(BreakerOf(s, s.workers[id].asking[0]), last.now, cfg(s.workers[id].asking[0]).timeout)
        then [s.workers[id].asking[0]] else []
  }

  /** The names whose result it has recorded, one per record step. */
  function RecordsBy(steps: seq<Step>, id: int, cfg: Config): seq<string> {
    if steps == [] then []
    else
      var before, last := steps[..|steps| - 1], steps[|steps| - 1];
      RecordsBy(before, id, cfg)
      + if last.Record? && Acts(steps, id, cfg) then [Run(before, cfg).workers[id].held[0]] else []
  }

  /** Asked and still to ask make up the list; recorded and still held make up the grants. */
  ghost predicate Accounts(steps: seq<Step>, id: int, cfg: Config) {
    var s, names := Run(steps, cfg), NamesOf(steps, id);
    && (names.Some? <==> id in s.workers)
    && (names.Some? ==>
          && Asks(steps, id, cfg) + s.workers[id].asking == names.value
          && RecordsBy(steps, id, cfg) + s.workers[id].held == GrantsTo(steps, id, cfg))
    && (names.None? ==> Asks(steps, id, cfg) == GrantsTo(steps, id, cfg) == RecordsBy(steps, id, cfg) == [])
  }

  lemma MoveOne(a: seq<string>, b: seq<string>)
    requires b != []
    ensures a + [b[0]] + b[1..] == a + b
  {
    assert b == [b[0]] + b[1..];
  }

  lemma AskAccounts(steps: seq<Step>, id: int, cfg: Config)
    requires steps != [] && steps[|steps| - 1].Ask? && Acts(steps, id, cfg)
    requires Accounts(steps[..|steps| - 1], id, cfg)
    ensures Accounts(steps, id, cfg)
  {
    var before := steps[..|steps| - 1];
    var w := Run(before, cfg).workers[id];
    MoveOne(Asks(before, id, cfg), w.asking);
    var records := RecordsBy(before, id, cfg);
    assert records + (w.held + [w.asking[0]]) == records + w.held + [w.asking[0]];
  }

  lemma RecordAccounts(steps: seq<Step>, id: int, cfg: Config)
    requires steps != [] && steps[|steps| - 1].Record? && Acts(steps, id, cfg)
    requires Accounts(steps[..|steps| - 1], id, cfg)
    ensures Accounts(steps, id, cfg)
  {
    var before := steps[..|steps| - 1];
    MoveOne(RecordsBy(before, id, cfg), Run(before, cfg).workers[id].held);
  }

  lemma OthersLeaveWorker(s: System, step: Step, id: int, cfg: Config)
    requires !(step.id == id && Enabled(s, step))
    ensures var t := Apply(s, step, cfg);
            (id in t.workers <==> id in s.workers) && (id in s.workers ==> t.workers[id] == s.workers[id])
  {
  }

  /** A step of another worker, or one that is not enabled, leaves this worker alone. */
  lemma OthersAccount(steps: seq<Step>, id: int, cfg: Config)
    requires steps != [] && !Acts(steps, id, cfg)
    requires Accounts(steps[..|steps| - 1], id, cfg)
    ensures Accounts(steps, id, cfg)
  {
    var before := steps[..|steps| - 1];
    OthersLeaveWorker(Run(before, cfg), steps[|steps| - 1], id, cfg);
    assert Asks(steps, id, cfg) == Asks(before, id, cfg);
    assert GrantsTo(steps, id, cfg) == GrantsTo(before, id, cfg);
    assert RecordsBy(steps, id, cfg) == RecordsBy(before, id, cfg);
  }

  lemma StartAccounts(steps: seq<Step>, id: int, cfg: Config)
    requires steps != [] && steps[|steps| - 1].Start? && Acts(steps, id, cfg)
    requires Accounts(steps[..|steps| - 1], id, cfg)
    ensures Accounts(steps, id, cfg)
  {
  }

  lemma {:induction false} EveryWorkerAccounts(steps: seq<Step>, id: int, cfg: Config)
    ensures Accounts(steps, id, cfg)
  {
    if steps != [] {
      EveryWorkerAccounts(steps[..|steps| - 1], id, cfg);
      if !Acts(steps, id, cfg) {
        OthersAccount(steps, id, cfg);
      } else {
        match steps[|steps| - 1] {
          case Start(_, _) => StartAccounts(steps, id, cfg);
          case Ask(_, _) => AskAccounts(steps, id, cfg);
          case Record(_, _, _) => RecordAccounts(steps, id, cfg);
        }
      }
    }
  }

  predicate Finished(s: System, id: int) {
    id in s.workers && s.workers[id] == Worker([], [])
  }

  /**
   In every interleaving, a finished worker asked once for each of its names, in order, and
   recorded exactly one result for each of its grants, in order.
   */
  lemma FinishedWorkerRecordedEachGrant(steps: seq<Step>, id: int, cfg: Config)
    requires Finished(Run(steps, cfg), id)
    ensures NamesOf(steps, id) == Some(Asks(steps, id, cfg))
    ensures RecordsBy(steps, id, cfg) == GrantsTo(steps, id, cfg)
  {
    EveryWorkerAccounts(steps, id, cfg);
    assert Asks(steps, id, cfg) + [] == Asks(steps, id, cfg);
    assert RecordsBy(steps, id, cfg) + [] == RecordsBy(steps, id, cfg);
  }
}
