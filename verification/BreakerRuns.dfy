/**
 Breakers under concurrent workers.  A worker (one run of `query_threatintel_domain`,
 `query_threatintel_ip` or `query_upstream_reply`) asks for a grant for each name on its
 list, talks to those granted, then records one result for each.  Any number of workers
 interleave at the granularity of the lock; results may arrive long after their grant.
 */
module BreakerRuns {
  import opened CircuitBreaker

  datatype Limits = Limits(threshold: nat, timeout: real)
  type Config = string -> Limits

  /** `asking`: names not asked for yet.  `held`: granted, result not recorded yet. */
  datatype Worker = Worker(asking: seq<string>, held: seq<string>)

  /** History kept for stating the properties; no step reads it. */
  datatype History = History(
    prober: map<string, int>,          // the worker last let out although the breaker was not closed
    probes: map<string, seq<real>>,    // when such grants were given
    streak: map<string, nat>)          // failures recorded since the last recorded success

  datatype System = System(breakers: map<string, Breaker>, workers: map<int, Worker>, clock: real, past: History)

  datatype Step =
    | Start(id: int, names: seq<string>)
    | Ask(id: int, now: real)
    | Record(id: int, ok: bool, now: real)

  const INITIAL := System(map[], map[], 0.0, History(map[], map[], map[]))

  function BreakerOf(s: System, name: string): Breaker {
    SourceIn(s.breakers, name)
  }

  function Probes(s: System, name: string): seq<real> {
    if name in s.past.probes then s.past.probes[name] else []
  }

  function Streak(s: System, name: string): nat {
    if name in s.past.streak then s.past.streak[name] else 0
  }

  predicate Enabled(s: System, step: Step) {
    match step
    case Start(id, _) => id !in s.workers
    case Ask(id, now) => id in s.workers && s.workers[id].asking != [] && s.clock <= now
    case Record(id, _, now) =>
      id in s.workers && s.workers[id].asking == [] && s.workers[id].held != [] && s.clock <= now
  }

  /** A step that is not enabled does nothing, so every sequence of steps is a run. */
  function Apply(s: System, step: Step, cfg: Config): System {
    if !Enabled(s, step) then s else
      match step
      case Start(id, names) => s.(workers := s.workers[id := Worker(names, [])])
      case Ask(id, now) => AskStep(s, id, now, cfg)
      case Record(id, ok, now) => RecordStep(s, id, ok, now, cfg)
  }

  function AskStep(s: System, id: int, now: real, cfg: Config): System
    requires Enabled(s, Ask(id, now))
  {
    var w := s.workers[id];
    var name := w.asking[0];
    var b := BreakerOf(s, name);
    var granted := Grants(b, now, cfg(name).timeout);
    var after := Asked(b, now, cfg(name).timeout);
    var past := if granted && b.phase != Closed
                then s.past.(prober := s.past.prober[name := id],
                             probes := s.past.probes[name := Probes(s, name) + [now]])
                else s.past;
    System(s.breakers[name := after],
           s.workers[id := Worker(w.asking[1..], if granted then w.held + [name] else w.held)],
           now, past)
  }

  function RecordStep(s: System, id: int, ok: bool, now: real, cfg: Config): System
    requires Enabled(s, Record(id, ok, now))
  {
    var w := s.workers[id];
    var name := w.held[0];
    var b := BreakerOf(s, name);
    System(s.breakers[name := if ok then Succeeded(b) else Failed(b, now, cfg(name).threshold)],
           s.workers[id := w.(held := w.held[1..])],
           now,
           s.past.(streak := s.past.streak[name := if ok then 0 else Streak(s, name) + 1]))
  }

  // ----- runs -----

  function RunFrom(s: System, steps: seq<Step>, cfg: Config): System {
    if steps == [] then s else Apply(RunFrom(s, steps[..|steps| - 1], cfg), steps[|steps| - 1], cfg)
  }

  function Run(steps: seq<Step>, cfg: Config): System {
    RunFrom(INITIAL, steps, cfg)
  }

  // ----- what every step keeps -----

  /** A half-open breaker is waiting for the very worker whose grant made it so. */
  ghost predicate ProbeInFlight(s: System, name: string) {
    BreakerOf(s, name).phase == HalfOpen ==>
      && name in s.past.prober
      && s.past.prober[name] in s.workers
      && name in s.workers[s.past.prober[name]].held
  }

  /** Probe grants are spaced by the timeout, and the next one will be too. */
  ghost predicate Spaced(s: System, name: string, cfg: Config) {
    var probes := Probes(s, name);
    && (forall i | 0 < i < |probes| :: probes[i] - probes[i - 1] >= cfg(name).timeout)
    && (probes != [] ==> probes[|probes| - 1] <= s.clock)
    && (probes != [] && BreakerOf(s, name).phase == Open ==> BreakerOf(s, name).openedAt >= probes[|probes| - 1])
  }

  /** The breaker is closed exactly while the failure streak is below the threshold. */
  ghost predicate StreakDecides(s: System, name: string, cfg: Config) {
    var b := BreakerOf(s, name);
    && (b.phase == Closed ==> b.failures == Streak(s, name))
    && (cfg(name).threshold > 0 ==> (b.phase == Closed <==> Streak(s, name) < cfg(name).threshold))
    && (cfg(name).threshold == 0 ==> b.phase == Closed)
  }

  ghost predicate Invariant(s: System, cfg: Config) {
    forall name: string :: ProbeInFlight(s, name) && Spaced(s, name, cfg) && StreakDecides(s, name, cfg)
  }

  lemma AskKeepsProbe(s: System, id: int, now: real, cfg: Config, name: string)
    requires Enabled(s, Ask(id, now)) && ProbeInFlight(s, name)
    ensures ProbeInFlight(AskStep(s, id, now, cfg), name)
  {
    var t, w := AskStep(s, id, now, cfg), s.workers[id];
    assert forall n | n in w.held :: n in t.workers[id].held;
    if w.asking[0] == name && BreakerOf(s, name).phase == Open && BreakerOf(t, name).phase == HalfOpen {
      assert t.workers[id].held[|w.held|] == name;
    }
  }

  lemma AskKeeps(s: System, id: int, now: real, cfg: Config, name: string)
    requires Enabled(s, Ask(id, now)) && Spaced(s, name, cfg) && StreakDecides(s, name, cfg)
    ensures Spaced(AskStep(s, id, now, cfg), name, cfg) && StreakDecides(AskStep(s, id, now, cfg), name, cfg)
  {
  }

  lemma RecordKeeps(s: System, id: int, ok: bool, now: real, cfg: Config, name: string)
    requires Enabled(s, Record(id, ok, now))
    requires ProbeInFlight(s, name) && Spaced(s, name, cfg) && StreakDecides(s, name, cfg)
    ensures var t := RecordStep(s, id, ok, now, cfg);
            ProbeInFlight(t, name) && Spaced(t, name, cfg) && StreakDecides(t, name, cfg)
  {
    var w := s.workers[id];
    assert w.held == [w.held[0]] + w.held[1..];
  }

  lemma StepKeeps(s: System, step: Step, cfg: Config)
    requires Invariant(s, cfg)
    ensures Invariant(Apply(s, step, cfg), cfg)
  {
    var t := Apply(s, step, cfg);
    forall name: string ensures ProbeInFlight(t, name) && Spaced(t, name, cfg) && StreakDecides(t, name, cfg) {
      assert ProbeInFlight(s, name) && Spaced(s, name, cfg) && StreakDecides(s, name, cfg);
      if Enabled(s, step) {
        match step
        case Start(_, _) =>
        case Ask(id, now) =>
          AskKeepsProbe(s, id, now, cfg, name);
          AskKeeps(s, id, now, cfg, name);
        case Record(id, ok, now) => RecordKeeps(s, id, ok, now, cfg, name);
      }
    }
  }

  lemma {:induction false} RunKeeps(steps: seq<Step>, cfg: Config)
    ensures Invariant(Run(steps, cfg), cfg)
  {
    if steps != [] {
      RunKeeps(steps[..|steps| - 1], cfg);
      StepKeeps(Run(steps[..|steps| - 1], cfg), steps[|steps| - 1], cfg);
    }
  }

  // ----- main results -----

  /** In every run, half-open means that the probe behind it has not been recorded yet. */
  lemma HalfOpenHasItsProbe(steps: seq<Step>, cfg: Config, name: string)
    requires BreakerOf(Run(steps, cfg), name).phase == HalfOpen
    ensures var s := Run(steps, cfg);
            && name in s.past.prober && s.past.prober[name] in s.workers
            && name in s.workers[s.past.prober[name]].held
  {
    RunKeeps(steps, cfg);
    assert ProbeInFlight(Run(steps, cfg), name);
  }

  /** No worker holds a grant whose result is outstanding. */
  predicate Quiet(s: System) {
    forall id | id in s.workers :: s.workers[id].held == []
  }

  /** With nobody waiting for an answer no breaker is stuck half-open. */
  lemma QuietMeansNotHalfOpen(steps: seq<Step>, cfg: Config, name: string)
    ensures Quiet(Run(steps, cfg)) ==> BreakerOf(Run(steps, cfg), name).phase != HalfOpen
  {
    var s := Run(steps, cfg);
    if BreakerOf(s, name).phase == HalfOpen {
      HalfOpenHasItsProbe(steps, cfg, name);
      var prober := s.past.prober[name];
      assert prober in s.workers && s.workers[prober].held != [];
    }
  }

  /** `n * gap`. */
  function Times(n: nat, gap: real): real {
    if n == 0 then 0.0 else Times(n - 1, gap) + gap
  }

  lemma {:induction false} TimesIsProduct(n: nat, gap: real)
    ensures Times(n, gap) == n as real * gap
  {
    if n > 0 {
      TimesIsProduct(n - 1, gap);
      assert n as real * gap == (n - 1) as real * gap + gap;
    }
  }

  lemma {:induction false} SpacingAddsUp(times: seq<real>, gap: real, i: nat, j: nat)
    requires i <= j < |times|
    requires forall k | 0 < k < |times| :: times[k] - times[k - 1] >= gap
    ensures times[j] - times[i] >= Times(j - i, gap)
    decreases j
  {
    if i < j {
      SpacingAddsUp(times, gap, i, j - 1);
      assert times[j] - times[j - 1] >= gap;
    }
  }

  /** Rate bound: in every run, k probes of one breaker span at least (k - 1) timeouts. */
  lemma ProbesAreRare(steps: seq<Step>, cfg: Config, name: string, first: nat, last: nat)
    requires first <= last < |Probes(Run(steps, cfg), name)|
    ensures Probes(Run(steps, cfg), name)[last] - Probes(Run(steps, cfg), name)[first]
            >= (last - first) as real * cfg(name).timeout
  {
    var probes, gap := Probes(Run(steps, cfg), name), cfg(name).timeout;
    assert forall k | 0 < k < |probes| :: probes[k] - probes[k - 1] >= gap by {
      RunKeeps(steps, cfg);
      assert Spaced(Run(steps, cfg), name, cfg);
    }
    SpacingAddsUp(probes, gap, first, last);
    TimesIsProduct(last - first, gap);
  }

  /**
   In every run a breaker with a positive threshold is closed exactly while fewer than
   `threshold` failures have been recorded since the last success; with threshold 0 it
   never opens.  While closed its counter is that number.
   */
  lemma ClosedExactlyWhileStreakShort(steps: seq<Step>, cfg: Config, name: string)
    ensures var s := Run(steps, cfg);
            && (cfg(name).threshold > 0 ==>
                  (BreakerOf(s, name).phase == Closed <==> Streak(s, name) < cfg(name).threshold))
            && (cfg(name).threshold == 0 ==> BreakerOf(s, name).phase == Closed)
            && (BreakerOf(s, name).phase == Closed ==> BreakerOf(s, name).failures == Streak(s, name))
  {
    RunKeeps(steps, cfg);
    assert StreakDecides(Run(steps, cfg), name, cfg);
  }

  // ----- when a call goes out -----

  /** A worker that asks now is let out exactly when the breaker is closed, or open for long enough. */
  lemma AskGoesOutExactlyWhen(s: System, id: int, name: string, now: real, cfg: Config)
    requires id !in s.workers && s.clock <= now
    ensures var b := BreakerOf(s, name);
            var t := Apply(Apply(s, Start(id, [name]), cfg), Ask(id, now), cfg);
            && id in t.workers && t.workers[id].asking == []
            && t.workers[id].held ==
               if b.phase == Closed || (b.phase == Open && b.openedAt + cfg(name).timeout <= now) then [name] else []
  {
    var started := Apply(s, Start(id, [name]), cfg);
    assert started.workers[id] == Worker([name], []);
    assert [] + [name] == [name];
  }

  lemma {:induction false} OpenedInThePast(steps: seq<Step>, cfg: Config, name: string)
    ensures var s := Run(steps, cfg);
            BreakerOf(s, name).phase == Open ==> BreakerOf(s, name).openedAt <= s.clock
  {
    if steps != [] {
      OpenedInThePast(steps[..|steps| - 1], cfg, name);
    }
  }

  /**
   No source is shut out for good: in every run, once all results are recorded and the timeout
   has passed since the last step, the next worker that asks for it is let out.
   */
  lemma NobodyIsShutOut(steps: seq<Step>, cfg: Config, id: int, name: string, now: real)
    requires Quiet(Run(steps, cfg)) && id !in Run(steps, cfg).workers
    requires cfg(name).timeout >= 0.0 && Run(steps, cfg).clock + cfg(name).timeout <= now
    ensures var t := Apply(Apply(Run(steps, cfg), Start(id, [name]), cfg), Ask(id, now), cfg);
            id in t.workers && t.workers[id].held == [name]
  {
    QuietMeansNotHalfOpen(steps, cfg, name);
    OpenedInThePast(steps, cfg, name);
    AskGoesOutExactlyWhen(Run(steps, cfg), id, name, now, cfg);
  }
}
