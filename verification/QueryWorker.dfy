/**
 The bridge between the query code and the interleaved model: one query of `ThreatIntel`, or
 one exchange of `Upstream`, takes exactly the steps of one `BreakerRuns` worker.  It asks each name once, records each
 grant once, ends holding nothing, and undisturbed leaves every breaker as the code does.
 */
module QueryWorker {
  import opened Common
  import opened CircuitBreaker
  import opened BreakerRuns
  import TI = ThreatIntel
  import Upstream

  function Limit(cfg: TI.Settings): Config {
    _ => Limits(cfg.cbThreshold, cfg.cbTimeout)
  }

  function AskSteps(id: int, n: nat, now: real): seq<Step> {
    if n == 0 then [] else AskSteps(id, n - 1, now) + [Ask(id, now)]
  }

  /** One record per granted name, in order. */
  function RecordSteps(id: int, granted: seq<string>, answers: TI.Answers, now: real): seq<Step> {
    if granted == [] then []
    else RecordSteps(id, granted[..|granted| - 1], answers, now)
         + [Record(id, answers(granted[|granted| - 1]).Some?, now)]
  }

  /** `t` is `s` after worker `id` asked for the first `k` of its names. */
  ghost predicate AskedFirst(s: System, t: System, id: int, names: seq<string>, k: nat, now: real, cfg: TI.Settings)
    requires k <= |names|
  {
    && id in t.workers && t.clock <= now
    && t.workers[id] == Worker(names[k..], TI.Granted(names[..k], s.breakers, now, cfg.cbTimeout))
    && forall n: string :: BreakerOf(t, n) ==
         if n in names[..k] then Asked(BreakerOf(s, n), now, cfg.cbTimeout) else BreakerOf(s, n)
  }

  /** `t` is `s` after worker `id` recorded the first `k` of its grants. */
  ghost predicate RecordedFirst(s: System, t: System, id: int, granted: seq<string>, k: nat, answers: TI.Answers,
                                now: real, cfg: TI.Settings)
    requires k <= |granted|
  {
    && id in t.workers && t.clock <= now && t.workers[id] == Worker([], granted[k..])
    && forall n: string :: BreakerOf(t, n) ==
         if n in granted[..k] then TI.Recorded(BreakerOf(s, n), answers(n), now, cfg.cbThreshold) else BreakerOf(s, n)
  }

  lemma AskNext(s: System, t: System, id: int, names: seq<string>, k: nat, now: real, cfg: TI.Settings)
    requires Distinct(names) && k < |names| && AskedFirst(s, t, id, names, k, now, cfg)
    ensures AskedFirst(s, Apply(t, Ask(id, now), Limit(cfg)), id, names, k + 1, now, cfg)
  {
    var name := names[k];
    assert names[..k + 1] == names[..k] + [name] && name !in names[..k];
    assert names[..k + 1][..k] == names[..k];
    assert names[k..] == [name] + names[k + 1..];
  }

  lemma RecordNext(s: System, t: System, id: int, granted: seq<string>, k: nat, answers: TI.Answers,
                   now: real, cfg: TI.Settings)
    requires Distinct(granted) && k < |granted| && RecordedFirst(s, t, id, granted, k, answers, now, cfg)
    ensures RecordedFirst(s, Apply(t, Record(id, answers(granted[k]).Some?, now), Limit(cfg)), id, granted, k + 1,
                          answers, now, cfg)
  {
    var name := granted[k];
    assert granted[..k + 1] == granted[..k] + [name] && name !in granted[..k];
    assert granted[k..] == [name] + granted[k + 1..];
  }

  lemma {:induction false} Asking(s: System, id: int, names: seq<string>, k: nat, now: real, cfg: TI.Settings)
    requires Distinct(names) && k <= |names| && s.clock <= now
    requires id in s.workers && s.workers[id] == Worker(names, [])
    ensures AskedFirst(s, RunFrom(s, AskSteps(id, k, now), Limit(cfg)), id, names, k, now, cfg)
    decreases k
  {
    if k > 0 {
      Asking(s, id, names, k - 1, now, cfg);
      var steps := AskSteps(id, k - 1, now);
      assert (steps + [Ask(id, now)])[..|steps|] == steps;
      AskNext(s, RunFrom(s, steps, Limit(cfg)), id, names, k - 1, now, cfg);
    }
  }

  lemma {:induction false} Recording(s: System, id: int, granted: seq<string>, k: nat, answers: TI.Answers,
                                     now: real, cfg: TI.Settings)
    requires Distinct(granted) && k <= |granted| && s.clock <= now
    requires id in s.workers && s.workers[id] == Worker([], granted)
    ensures RecordedFirst(s, RunFrom(s, RecordSteps(id, granted[..k], answers, now), Limit(cfg)), id, granted, k,
                          answers, now, cfg)
    decreases k
  {
    if k > 0 {
      Recording(s, id, granted, k - 1, answers, now, cfg);
      assert granted[..k][..k - 1] == granted[..k - 1];
      var steps := RecordSteps(id, granted[..k - 1], answers, now);
      var last := Record(id, answers(granted[k - 1]).Some?, now);
      assert RecordSteps(id, granted[..k], answers, now) == steps + [last];
      assert (steps + [last])[..|steps|] == steps;
      RecordNext(s, RunFrom(s, steps, Limit(cfg)), id, granted, k - 1, answers, now, cfg);
    } else {
      assert granted[..0] == [] && granted[0..] == granted;
    }
  }

  lemma {:induction false} RunFromConcat(s: System, a: seq<Step>, b: seq<Step>, cfg: Config)
    ensures RunFrom(s, a + b, cfg) == RunFrom(RunFrom(s, a, cfg), b, cfg)
    decreases |b|
  {
    if b == [] {
      assert a + b == a;
    } else {
      assert (a + b)[..|a + b| - 1] == a + b[..|b| - 1];
      RunFromConcat(s, a, b[..|b| - 1], cfg);
    }
  }

  function QuerySteps(s: System, id: int, names: seq<string>, answers: TI.Answers, c: TI.Clock,
                      cfg: TI.Settings): seq<Step> {
    [Start(id, names)] + (AskSteps(id, |names|, c.ask)
    + RecordSteps(id, TI.Granted(names, s.breakers, c.ask, cfg.cbTimeout), answers, c.record))
  }

  lemma QueryIsOneWorker(s: System, id: int, names: seq<string>, answers: TI.Answers, c: TI.Clock, cfg: TI.Settings)
    requires Distinct(names) && id !in s.workers && s.clock <= c.ask <= c.record
    ensures var t := RunFrom(s, QuerySteps(s, id, names, answers, c, cfg), Limit(cfg));
            && id in t.workers && t.workers[id] == Worker([], [])
            && TI.BreakersAfter(s.breakers, t.breakers, names, answers, c, cfg)
  {
    var limit := Limit(cfg);
    var granted := TI.Granted(names, s.breakers, c.ask, cfg.cbTimeout);
    var asks, records := AskSteps(id, |names|, c.ask), RecordSteps(id, granted, answers, c.record);
    var started := RunFrom(s, [Start(id, names)], limit);
    assert [Start(id, names)][..0] == [] && RunFrom(s, [], limit) == s;
    assert started == Apply(s, Start(id, names), limit);
    Asking(started, id, names, |names|, c.ask, cfg);
    assert names[..|names|] == names && names[|names|..] == [];
    var asked := RunFrom(started, asks, limit);
    TI.GrantedMembers(names, s.breakers, c.ask, cfg.cbTimeout);
    Recording(asked, id, granted, |granted|, answers, c.record, cfg);
    assert granted[..|granted|] == granted && granted[|granted|..] == [];
    RunFromConcat(s, [Start(id, names)], asks + records, limit);
    RunFromConcat(started, asks, records, limit);
  }

  // ----- the upstream -----

  /** One exchange with the upstream: a grant is recorded once, a refusal not at all. */
  function ExchangeSteps(s: System, id: int, name: string, ok: bool, askedAt: real, recordedAt: real,
                         cfg: Config): seq<Step> {
    [Start(id, [name]), Ask(id, askedAt)]
    + if Grants(BreakerOf(s, name), askedAt, cfg(name).timeout) then [Record(id, ok, recordedAt)] else []
  }

  lemma RunTwo(s: System, a: Step, b: Step, cfg: Config)
    ensures RunFrom(s, [a, b], cfg) == Apply(Apply(s, a, cfg), b, cfg)
  {
    assert [a, b][..1] == [a] && [a][..0] == [];
    assert RunFrom(s, [a], cfg) == Apply(RunFrom(s, [], cfg), a, cfg);
    assert RunFrom(s, [], cfg) == s;
  }

  /** `query_upstream_reply` too is one worker, on the breaker of the upstream. */
  lemma ExchangeIsOneWorker(s: System, id: int, name: string, ok: bool, askedAt: real, recordedAt: real, cfg: Config)
    requires id !in s.workers && s.clock <= askedAt <= recordedAt
    ensures var t := RunFrom(s, ExchangeSteps(s, id, name, ok, askedAt, recordedAt, cfg), cfg);
            && id in t.workers && t.workers[id] == Worker([], [])
            && BreakerOf(t, name) == Upstream.AfterExchange(BreakerOf(s, name), ok, askedAt, recordedAt,
                                                             cfg(name).timeout, cfg(name).threshold)
            && forall n: string | n != name :: BreakerOf(t, n) == BreakerOf(s, n)
  {
    var ask := [Start(id, [name]), Ask(id, askedAt)];
    RunTwo(s, Start(id, [name]), Ask(id, askedAt), cfg);
    if Grants(BreakerOf(s, name), askedAt, cfg(name).timeout) {
      assert (ask + [Record(id, ok, recordedAt)])[..2] == ask;
    } else {
      assert ask + [] == ask;
    }
  }
}
