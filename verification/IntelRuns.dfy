/**
 One verdict cache under every interleaving of queries and invalidations.  A query is a get
 and, if it asked the sources and some answered, a later put of what it fused; both are
 critical sections, and anything may happen between them.
 */
module IntelRuns {
  import opened Common
  import opened Fusion
  import TI = ThreatIntel
  import VC = VerdictCache

  datatype Step =
    | Get(raw: string, now: real)
    | Conclude(raw: string, results: seq<ThreatResult>, strategy: Strategy, now: real, ttl: real, size: int)
    | Invalidate

  type Key = string -> string

  /** Without a conclusive answer a query puts nothing. */
  function Next(c: VC.Lru, step: Step, key: Key): VC.Lru {
    match step
    case Get(raw, now) => VC.Got(c, key(raw), now)
    case Conclude(raw, results, strategy, now, ttl, size) =>
      if results == [] then c else VC.Stored(c, key(raw), TI.Fused(results, strategy), now, ttl, size)
    case Invalidate => VC.EMPTY
  }

  function RunFrom(c: VC.Lru, steps: seq<Step>, key: Key): VC.Lru {
    if steps == [] then c else Next(RunFrom(c, steps[..|steps| - 1], key), steps[|steps| - 1], key)
  }

  function Run(steps: seq<Step>, key: Key): VC.Lru {
    RunFrom(VC.EMPTY, steps, key)
  }

  /** `step` fused at least one conclusive answer to `k`. */
  predicate IsAbout(step: Step, key: Key, k: string) {
    step.Conclude? && step.results != [] && key(step.raw) == k
  }

  /** The step that last concluded something about key `k`, if nothing was invalidated since. */
  function LastConclusion(steps: seq<Step>, key: Key, k: string): Option<nat> {
    if steps == [] then None
    else
      var n := |steps| - 1;
      if steps[n].Invalidate? then None
      else if IsAbout(steps[n], key, k) then Some(n)
      else LastConclusion(steps[..n], key, k)
  }

  /** `step` fused at least one conclusive answer to `k` and gave `v`. */
  predicate Concludes(step: Step, key: Key, k: string, v: Verdict) {
    IsAbout(step, key, k) && v == TI.Fused(step.results, step.strategy)
  }

  lemma {:induction false} LastConclusionMeaning(steps: seq<Step>, key: Key, k: string)
    requires LastConclusion(steps, key, k).Some?
    ensures var m := LastConclusion(steps, key, k).value;
            && m < |steps| && IsAbout(steps[m], key, k)
            && forall i | m < i < |steps| :: !steps[i].Invalidate? && !IsAbout(steps[i], key, k)
  {
    var n := |steps| - 1;
    if !IsAbout(steps[n], key, k) {
      var before := steps[..n];
      LastConclusionMeaning(before, key, k);
      var m := LastConclusion(before, key, k).value;
      forall i | m < i < |steps| ensures !steps[i].Invalidate? && !IsAbout(steps[i], key, k) {
        if i < n {
          assert before[i] == steps[i];
        }
      }
    }
  }

  /** Every entry is what the last conclusion about its key fused, with that step's expiry. */
  ghost predicate FromConclusion(c: VC.Lru, steps: seq<Step>, key: Key, k: string) {
    k in c.items ==>
      var m := LastConclusion(steps, key, k);
      && m.Some? && m.value < |steps| && Concludes(steps[m.value], key, k, c.items[k].verdict)
      && c.items[k].expireAt == steps[m.value].now + VC.TimeToLive(steps[m.value].ttl)
  }

  /** Where an entry comes from: this very step, or the step left it as it was. */
  lemma EntryAfterStep(c: VC.Lru, step: Step, key: Key, k: string)
    requires k != "" && k in Next(c, step, key).items
    ensures !step.Invalidate?
    ensures if IsAbout(step, key, k) then
              Next(c, step, key).items[k] ==
              VC.Entry(TI.Fused(step.results, step.strategy), step.now + VC.TimeToLive(step.ttl))
            else k in c.items && Next(c, step, key).items[k] == c.items[k]
  {
  }

  lemma StepKeepsConclusion(c: VC.Lru, steps: seq<Step>, step: Step, key: Key, k: string)
    requires k != "" && FromConclusion(c, steps, key, k)
    ensures FromConclusion(Next(c, step, key), steps + [step], key, k)
  {
    if k in Next(c, step, key).items {
      EntryAfterStep(c, step, key, k);
      var all := steps + [step];
      assert all[..|steps|] == steps && all[|steps|] == step;
      if !IsAbout(step, key, k) {
        var m := LastConclusion(steps, key, k).value;
        assert LastConclusion(all, key, k) == Some(m) && all[m] == steps[m];
      }
    }
  }

  lemma {:induction false} RunKeepsConclusion(steps: seq<Step>, key: Key, k: string)
    requires k != ""
    ensures FromConclusion(Run(steps, key), steps, key, k)
  {
    if steps != [] {
      var n := |steps| - 1;
      RunKeepsConclusion(steps[..n], key, k);
      StepKeepsConclusion(Run(steps[..n], key), steps[..n], steps[n], key, k);
      assert steps[..n] + [steps[n]] == steps;
    }
  }

  /**
   In every interleaving, a verdict served from cache at step `n` is the fusion, by an earlier
   step, of at least one conclusive answer to that very key; that step is the last to conclude
   anything about the key, no invalidation lies between, and its verdict has not expired. So a
   fail-safe or degraded verdict is never served.
   */
  lemma ServedWasConcluded(steps: seq<Step>, n: nat, key: Key) returns (m: nat)
    requires n < |steps| && steps[n].Get?
    requires VC.Hit(Run(steps[..n], key), key(steps[n].raw), steps[n].now).Some?
    ensures m < n && Concludes(steps[m], key, key(steps[n].raw),
                               VC.Hit(Run(steps[..n], key), key(steps[n].raw), steps[n].now).value)
    ensures forall i | m < i < n :: !steps[i].Invalidate? && !IsAbout(steps[i], key, key(steps[n].raw))
    ensures steps[n].now < steps[m].now + VC.TimeToLive(steps[m].ttl)
  {
    var k, before := key(steps[n].raw), steps[..n];
    RunKeepsConclusion(before, key, k);
    m := LastConclusion(before, key, k).value;
    LastConclusionMeaning(before, key, k);
    assert forall i | 0 <= i < n :: before[i] == steps[i];
  }

  /** What a whole query does to its cache is its get and, if it concluded, its put. */
  lemma QueryIsGetThenConclude(c: VC.Lru, key: Key, raw: string, results: seq<ThreatResult>,
                               clock: TI.Clock, cfg: TI.Settings)
    ensures TI.CacheAfter(VC.Got(c, key(raw), clock.get), key(raw), results, clock, cfg) ==
            RunFrom(c, [Get(raw, clock.get),
                        Conclude(raw, results, cfg.strategy, clock.put, cfg.cacheTtl, cfg.cacheSize)], key)
  {
    var get, put := Get(raw, clock.get), Conclude(raw, results, cfg.strategy, clock.put, cfg.cacheTtl, cfg.cacheSize);
    assert [get, put][..1] == [get] && [get][..0] == [];
    assert RunFrom(c, [get], key) == Next(RunFrom(c, [], key), get, key);
    assert RunFrom(c, [], key) == c;
  }
}
