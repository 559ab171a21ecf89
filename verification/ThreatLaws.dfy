/**
 What an online query answers, said of the adapters, their breakers and their answers: which
 sources are asked, what counts as a verdict, and what an unsupporting source never affects.
 */
module ThreatLaws {
  import opened Common
  import opened CircuitBreaker
  import opened Fusion
  import opened ThreatIntel
  import VC = VerdictCache

  /** The adapter declares support for this kind of query. */
  predicate Supports(a: Adapter, purpose: Purpose) {
    match purpose
    case ForDomains => a.supportsDomain
    case ForIps => a.supportsIp
  }

  /** Some enabled adapter named `n` supports this kind of query. */
  predicate Supporter(adapters: seq<Adapter>, purpose: Purpose, n: string) {
    exists i | 0 <= i < |adapters| :: adapters[i].name == n && Supports(adapters[i], purpose)
  }

  /** The breaker is closed, or its open time is over. */
  predicate LetsOut(b: Breaker, now: real, timeout: real) {
    b.phase == Closed || (b.phase == Open && b.openedAt + timeout <= now)
  }

  // ----- who is asked -----

  /** Exactly the supporters are asked. */
  lemma {:induction false} SupportersAreAsked(adapters: seq<Adapter>, purpose: Purpose, n: string)
    ensures n in NamesOf(adapters, purpose) <==> Supporter(adapters, purpose, n)
  {
    if adapters != [] {
      var k := |adapters| - 1;
      var before := adapters[..k];
      SupportersAreAsked(before, purpose, n);
      assert forall i | 0 <= i < k :: before[i] == adapters[i];
    }
  }

  lemma {:induction false} NamesAppend(a: seq<Adapter>, b: seq<Adapter>, purpose: Purpose)
    ensures NamesOf(a + b, purpose) == NamesOf(a, purpose) + NamesOf(b, purpose)
    decreases |b|
  {
    if b == [] {
      assert a + b == a;
    } else {
      assert (a + b)[..|a + b| - 1] == a + b[..|b| - 1];
      NamesAppend(a, b[..|b| - 1], purpose);
    }
  }

  /** They are asked in the order of the adapters, each where it stands. */
  lemma SupportersInOrder(before: seq<Adapter>, a: Adapter, after: seq<Adapter>, purpose: Purpose)
    ensures NamesOf(before + [a] + after, purpose) ==
            NamesOf(before, purpose) + (if Supports(a, purpose) then [a.name] else []) + NamesOf(after, purpose)
  {
    NamesAppend(before + [a], after, purpose);
    NamesAppend(before, [a], purpose);
    assert [a][..0] == [];
  }

  // ----- whose answer counts -----

  lemma {:induction false} ConclusiveMember(names: seq<string>, answers: Answers, r: ThreatResult)
    ensures r in Conclusive(names, answers) <==> exists n | n in names :: answers(n) == Some(r)
  {
    if names != [] {
      var k := |names| - 1;
      ConclusiveMember(names[..k], answers, r);
      assert names == names[..k] + [names[k]];
    }
  }

  predicate Concluded(answers: Answers, n: string) { answers(n).Some? }

  predicate Accuses(answers: Answers, n: string) { answers(n).Some? && answers(n).value.malicious }

  ghost function HeardIn(names: seq<string>, answers: Answers): set<string> {
    set n | n in names && Concluded(answers, n)
  }

  ghost function AccusersIn(names: seq<string>, answers: Answers): set<string> {
    set n | n in names && Accuses(answers, n)
  }

  lemma HeardGrow(before: seq<string>, last: string, answers: Answers)
    requires last !in before
    ensures |HeardIn(before + [last], answers)| ==
            |HeardIn(before, answers)| + (if Concluded(answers, last) then 1 else 0)
  {
    var some := HeardIn(before, answers);
    assert HeardIn(before + [last], answers) == if Concluded(answers, last) then some + {last} else some;
  }

  lemma AccusersGrow(before: seq<string>, last: string, answers: Answers)
    requires last !in before
    ensures |AccusersIn(before + [last], answers)| ==
            |AccusersIn(before, answers)| + (if Accuses(answers, last) then 1 else 0)
  {
    var bad := AccusersIn(before, answers);
    assert AccusersIn(before + [last], answers) == if Accuses(answers, last) then bad + {last} else bad;
  }

  /** Results and votes are numbers of sources. */
  lemma {:induction false} VotesAreSources(names: seq<string>, answers: Answers)
    requires Distinct(names)
    ensures |Conclusive(names, answers)| == |HeardIn(names, answers)|
    ensures Votes(Conclusive(names, answers)) == |AccusersIn(names, answers)|
  {
    if names != [] {
      var k := |names| - 1;
      var before, last := names[..k], names[k];
      assert names == before + [last] && last !in before;
      VotesAreSources(before, answers);
      HeardGrow(before, last, answers);
      AccusersGrow(before, last, answers);
      OneMoreVote(Conclusive(before, answers), answers(last));
    }
  }

  lemma OneMoreVote(results: seq<ThreatResult>, r: Option<ThreatResult>)
    ensures Votes(results + (if r.Some? then [r.value] else [])) ==
            Votes(results) + (if r.Some? && r.value.malicious then 1 else 0)
  {
    if r.Some? {
      VotesAppend(results, [r.value]);
      assert [r.value][1..] == [];
    } else {
      assert results + [] == results;
    }
  }

  /** The sources whose answer counts, and those of them that accuse. */
  ghost function Heard(adapters: seq<Adapter>, purpose: Purpose, breakers: map<string, Breaker>, answers: Answers,
                       c: Clock, cfg: Settings): set<string> {
    set i | 0 <= i < |adapters| && Supports(adapters[i], purpose) && Concluded(answers, adapters[i].name)
            && LetsOut(SourceIn(breakers, adapters[i].name), c.ask, cfg.cbTimeout) :: adapters[i].name
  }

  ghost function Accusers(adapters: seq<Adapter>, purpose: Purpose, breakers: map<string, Breaker>, answers: Answers,
                          c: Clock, cfg: Settings): set<string> {
    set n | n in Heard(adapters, purpose, breakers, answers, c, cfg) && Accuses(answers, n)
  }

  lemma HeardAreGranted(adapters: seq<Adapter>, purpose: Purpose, breakers: map<string, Breaker>, answers: Answers,
                        c: Clock, cfg: Settings)
    requires Distinct(NamesOf(adapters, purpose))
    ensures var granted := Granted(NamesOf(adapters, purpose), breakers, c.ask, cfg.cbTimeout);
            && Distinct(granted)
            && Heard(adapters, purpose, breakers, answers, c, cfg) == HeardIn(granted, answers)
            && Accusers(adapters, purpose, breakers, answers, c, cfg) == AccusersIn(granted, answers)
  {
    var names := NamesOf(adapters, purpose);
    var granted := Granted(names, breakers, c.ask, cfg.cbTimeout);
    GrantedMembers(names, breakers, c.ask, cfg.cbTimeout);
    forall n: string
      ensures n in Heard(adapters, purpose, breakers, answers, c, cfg) <==> n in granted && Concluded(answers, n)
    {
      SupportersAreAsked(adapters, purpose, n);
    }
  }

  // ----- the verdict -----

  /** What the strategies make of so many accusing sources among those heard. */
  predicate Convicts(s: Strategy, accusers: nat, heard: nat) {
    match s
    case Any => accusers > 0
    case Majority => 2 * accusers > heard
    case All => accusers == heard
  }

  /**
   A query that finds nothing in the cache, said of the sources: skipped in a degradation
   window; clean if no source supports it; decided by the strategy over the sources that are
   let out and answer; and, if there is none, by the mode.
   */
  ghost predicate Decides(adapters: seq<Adapter>, purpose: Purpose, breakers: map<string, Breaker>, answers: Answers,
                          c: Clock, cfg: Settings, skip: bool, v: Verdict) {
    var heard := |Heard(adapters, purpose, breakers, answers, c, cfg)|;
    var accusers := |Accusers(adapters, purpose, breakers, answers, c, cfg)|;
    if skip then v == Verdict(false, Degraded)
    else if NobodySupports(adapters, purpose) then v == Verdict(false, NoSources)
    else Concludes(cfg, heard, accusers, v)
  }

  predicate NobodySupports(adapters: seq<Adapter>, purpose: Purpose) {
    forall i | 0 <= i < |adapters| :: !Supports(adapters[i], purpose)
  }

  predicate Concludes(cfg: Settings, heard: nat, accusers: nat, v: Verdict) {
    if heard > 0 then v.malicious == Convicts(cfg.strategy, accusers, heard)
    else if cfg.mode == Degrade then v == Verdict(false, DegradedFailsafe)
    else v.malicious && v.reason.ThreatIntel?
  }

  lemma FusionConvicts(results: seq<ThreatResult>, s: Strategy)
    requires results != []
    ensures RunFusion(results, s) == Convicts(s, Votes(results), |results|)
  {
    FusionIsQuota(results);
  }

  lemma ResultsConclude(granted: seq<string>, results: seq<ThreatResult>, cfg: Settings, v: Verdict)
    requires v == if results == [] then FailsafeVerdict(cfg.mode, cfg.strategy, granted)
                  else Fused(results, cfg.strategy)
    ensures Concludes(cfg, |results|, Votes(results), v)
  {
    if results != [] {
      FusionConvicts(results, cfg.strategy);
    }
  }

  lemma MissIsDecided(m: Memory, n: Memory, key: string, skip: bool, adapters: seq<Adapter>, purpose: Purpose,
                      answers: Answers, c: Clock, cfg: Settings, v: Verdict)
    requires Queried(m, n, key, skip, NamesOf(adapters, purpose), answers, c, cfg, v)
    requires Distinct(NamesOf(adapters, purpose)) && VC.Hit(m.lru, key, c.get).None?
    ensures Decides(adapters, purpose, m.breakers, answers, c, cfg, skip, v)
  {
    NobodyIsNone(adapters, purpose);
    if !skip && !NobodySupports(adapters, purpose) {
      var granted := Granted(NamesOf(adapters, purpose), m.breakers, c.ask, cfg.cbTimeout);
      ResultsConclude(granted, Conclusive(granted, answers), cfg, v);
      CountsMatch(adapters, purpose, m.breakers, answers, c, cfg);
    }
  }

  lemma CountsMatch(adapters: seq<Adapter>, purpose: Purpose, breakers: map<string, Breaker>, answers: Answers,
                    c: Clock, cfg: Settings)
    requires Distinct(NamesOf(adapters, purpose))
    ensures var results := Conclusive(Granted(NamesOf(adapters, purpose), breakers, c.ask, cfg.cbTimeout), answers);
            && |results| == |Heard(adapters, purpose, breakers, answers, c, cfg)|
            && Votes(results) == |Accusers(adapters, purpose, breakers, answers, c, cfg)|
  {
    HeardAreGranted(adapters, purpose, breakers, answers, c, cfg);
    VotesAreSources(Granted(NamesOf(adapters, purpose), breakers, c.ask, cfg.cbTimeout), answers);
  }

  lemma NobodyIsNone(adapters: seq<Adapter>, purpose: Purpose)
    ensures NamesOf(adapters, purpose) == [] <==> NobodySupports(adapters, purpose)
  {
    if NamesOf(adapters, purpose) != [] {
      SupportersAreAsked(adapters, purpose, NamesOf(adapters, purpose)[0]);
    }
    forall i | 0 <= i < |adapters| && Supports(adapters[i], purpose) ensures NamesOf(adapters, purpose) != [] {
      SupportersAreAsked(adapters, purpose, adapters[i].name);
    }
  }

  // ----- what an unsupporting source never affects -----

  /** Every source signs its own answers. */
  ghost predicate Signed(answers: Answers) {
    forall n: string :: answers(n).Some? ==> answers(n).value.source == n
  }

  /** A source that does not support this kind of query keeps its breaker and is named in no new verdict. */
  lemma UnsupportingIsLeftOut(m: Memory, n: Memory, key: string, skip: bool, adapters: seq<Adapter>,
                              purpose: Purpose, answers: Answers, c: Clock, cfg: Settings, v: Verdict, x: string)
    requires Queried(m, n, key, skip, NamesOf(adapters, purpose), answers, c, cfg, v)
    requires Distinct(NamesOf(adapters, purpose)) && Signed(answers) && !Supporter(adapters, purpose, x)
    ensures SourceIn(n.breakers, x) == SourceIn(m.breakers, x)
    ensures VC.Hit(m.lru, key, c.get).None? && v.reason.ThreatIntel? ==> x !in v.reason.sources
  {
    var names := NamesOf(adapters, purpose);
    var granted := Granted(names, m.breakers, c.ask, cfg.cbTimeout);
    SupportersAreAsked(adapters, purpose, x);
    GrantedMembers(names, m.breakers, c.ask, cfg.cbTimeout);
    var results := Conclusive(granted, answers);
    forall i | 0 <= i < |results| ensures results[i].source != x {
      assert results[i] in results;
      ConclusiveMember(granted, answers, results[i]);
    }
  }

  // ----- what a query does to the degradation window -----

  /** A verdict ends the window and the count; without one, each query counts, or opens a window. */
  lemma QueryMovesWindow(m: Memory, n: Memory, key: string, names: seq<string>, answers: Answers, c: Clock,
                         cfg: Settings, v: Verdict)
    requires Queried(m, n, key, false, names, answers, c, cfg, v)
    requires VC.Hit(m.lru, key, c.get).None? && names != []
    ensures var results := Conclusive(Granted(names, m.breakers, c.ask, cfg.cbTimeout), answers);
            if results != [] then n.window.failsafes == 0 && (n.window.until <= c.judge || n.window.until == 0.0)
            else
              || (n.window.failsafes == m.window.failsafes + 1 && n.window.until == m.window.until)
              || (cfg.mode == Degrade && n.window.failsafes == 0 && n.window.until == c.judge + cfg.degradeWidth
                  && cfg.degradeThreshold > 0 && m.window.failsafes + 1 >= cfg.degradeThreshold)
  {
  }

  // ----- the two queries -----

  lemma OthersKeepBreakers(m: Memory, n: Memory, key: string, skip: bool, adapters: seq<Adapter>, purpose: Purpose,
                           answers: Answers, c: Clock, cfg: Settings, v: Verdict)
    requires Queried(m, n, key, skip, NamesOf(adapters, purpose), answers, c, cfg, v)
    ensures forall x: string | !Supporter(adapters, purpose, x) :: SourceIn(n.breakers, x) == SourceIn(m.breakers, x)
  {
    forall x: string | !Supporter(adapters, purpose, x) ensures SourceIn(n.breakers, x) == SourceIn(m.breakers, x) {
      SupportersAreAsked(adapters, purpose, x);
    }
  }

  /** `query_threatintel_domain`, said of the adapters that support domains; a hit or a window asks nobody. */
  method AskDomain(intel: Intel, domain: string, adapters: seq<Adapter>, answers: Answers, c: Clock, cfg: Settings)
    returns (v: Verdict)
    requires intel.Valid() && Distinct(NamesOf(adapters, ForDomains))
    modifies intel.domains`log, intel.domains.cache, intel.guard`breakers, intel.guard`window
    ensures intel.Valid()
    ensures VC.Hit(old(intel.domains.State()), intel.domains.cache.key(domain), c.get).None? ==>
              Decides(adapters, ForDomains, old(intel.guard.breakers), answers, c, cfg,
                      c.degraded < old(intel.guard.window).until, v)
    ensures VC.Hit(old(intel.domains.State()), intel.domains.cache.key(domain), c.get).Some?
            || c.degraded < old(intel.guard.window).until ==>
              intel.guard.breakers == old(intel.guard.breakers) && intel.guard.window == old(intel.guard.window)
    ensures forall x: string | !Supporter(adapters, ForDomains, x) ::
              SourceIn(intel.guard.breakers, x) == old(SourceIn(intel.guard.breakers, x))
  {
    ghost var m, key, skip := MemoryOf(intel.domains, intel.guard), intel.domains.cache.key(domain),
                              c.degraded < intel.guard.window.until;
    v := intel.QueryDomain(domain, adapters, answers, c, cfg);
    ghost var n := MemoryOf(intel.domains, intel.guard);
    OthersKeepBreakers(m, n, key, skip, adapters, ForDomains, answers, c, cfg, v);
    if VC.Hit(m.lru, key, c.get).None? {
      MissIsDecided(m, n, key, skip, adapters, ForDomains, answers, c, cfg, v);
    }
  }

  /** `query_threatintel_ip`, said of the adapters that support addresses. */
  method AskIp(intel: Intel, ip: string, adapters: seq<Adapter>, answers: Answers, c: Clock, cfg: Settings)
    returns (v: Verdict)
    requires intel.Valid() && Distinct(NamesOf(adapters, ForIps))
    modifies intel.ips`log, intel.ips.cache, intel.guard`breakers, intel.guard`window
    ensures intel.Valid()
    ensures VC.Hit(old(intel.ips.State()), intel.ips.cache.key(ip), c.get).None? ==>
              Decides(adapters, ForIps, old(intel.guard.breakers), answers, c, cfg, false, v)
    ensures VC.Hit(old(intel.ips.State()), intel.ips.cache.key(ip), c.get).Some? ==>
              intel.guard.breakers == old(intel.guard.breakers) && intel.guard.window == old(intel.guard.window)
    ensures forall x: string | !Supporter(adapters, ForIps, x) ::
              SourceIn(intel.guard.breakers, x) == old(SourceIn(intel.guard.breakers, x))
  {
    ghost var m, key := MemoryOf(intel.ips, intel.guard), intel.ips.cache.key(ip);
    v := intel.QueryIp(ip, adapters, answers, c, cfg);
    ghost var n := MemoryOf(intel.ips, intel.guard);
    OthersKeepBreakers(m, n, key, false, adapters, ForIps, answers, c, cfg, v);
    if VC.Hit(m.lru, key, c.get).None? {
      MissIsDecided(m, n, key, false, adapters, ForIps, answers, c, cfg, v);
    }
  }
}
