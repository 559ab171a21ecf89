/**
 The online lookup (`query_threatintel_domain`, `query_threatintel_ip`): cache, degradation
 window, breakers, sources and fusion put together.  A source's answer is an argument: a
 result, or None for a timeout or exception.
 */
module ThreatIntel {
  import opened Common
  import opened CircuitBreaker
  import opened Fusion
  import VC = VerdictCache

  datatype Adapter = Adapter(name: string, supportsDomain: bool, supportsIp: bool)

  type Answers = string -> Option<ThreatResult>

  datatype Settings = Settings(
    cbTimeout: real, cbThreshold: nat,
    mode: Mode, degradeThreshold: nat, degradeWidth: real,
    strategy: Strategy, cacheTtl: real, cacheSize: int)

  /** The clock at the points of one query where it is read. */
  datatype Clock = Clock(get: real, degraded: real, ask: real, record: real, judge: real, put: real)

  // ----- verdicts -----

  function SourcesOf(results: seq<ThreatResult>): seq<string> {
    seq(|results|, i requires 0 <= i < |results| => results[i].source)
  }

  function Fused(results: seq<ThreatResult>, s: Strategy): Verdict {
    Verdict(RunFusion(results, s), Reason.ThreatIntel(s, SourcesOf(results)))
  }

  function FailsafeVerdict(mode: Mode, s: Strategy, names: seq<string>): Verdict {
    if mode == Degrade then Verdict(false, DegradedFailsafe) else Verdict(true, Reason.ThreatIntel(s, names))
  }

  // ----- asking the sources -----

  /** The names whose breaker grants a call. */
  function Granted(names: seq<string>, breakers: map<string, Breaker>, now: real, timeout: real): seq<string> {
    if names == [] then []
    else
      var name := names[|names| - 1];
      Granted(names[..|names| - 1], breakers, now, timeout)
      + (if Grants(SourceIn(breakers, name), now, timeout) then [name] else [])
  }

  /** The answers that are not None. */
  function Conclusive(names: seq<string>, answers: Answers): seq<ThreatResult> {
    if names == [] then []
    else
      var r := answers(names[|names| - 1]);
      Conclusive(names[..|names| - 1], answers) + (if r.Some? then [r.value] else [])
  }

  function Recorded(b: Breaker, answer: Option<ThreatResult>, now: real, threshold: nat): Breaker {
    if answer.Some? then Succeeded(b) else Failed(b, now, threshold)
  }

  /** One source's breaker after a whole query: asked, and if granted recorded exactly once. */
  function BreakerAfter(b: Breaker, answer: Option<ThreatResult>, c: Clock, cfg: Settings): Breaker {
    var asked := Asked(b, c.ask, cfg.cbTimeout);
    if Grants(b, c.ask, cfg.cbTimeout) then Recorded(asked, answer, c.record, cfg.cbThreshold) else asked
  }

  lemma {:induction false} GrantedMembers(names: seq<string>, breakers: map<string, Breaker>, now: real, timeout: real)
    requires Distinct(names)
    ensures var g := Granted(names, breakers, now, timeout);
            && Distinct(g)
            && forall n :: n in g <==> n in names && Grants(SourceIn(breakers, n), now, timeout)
  {
    if names != [] {
      var init, name := names[..|names| - 1], names[|names| - 1];
      assert names == init + [name] && name !in init;
      GrantedMembers(init, breakers, now, timeout);
    }
  }

  /** First loop: ask every breaker in turn. */
  method AskAll(guard: Guard, names: seq<string>, now: real, timeout: real) returns (granted: seq<string>)
    requires Distinct(names)
    modifies guard`breakers
    ensures granted == Granted(names, old(guard.breakers), now, timeout)
    ensures forall n: string :: guard.Source(n) ==
              if n in names then Asked(old(guard.Source(n)), now, timeout) else old(guard.Source(n))
  {
    granted := [];
    for i := 0 to |names|
      invariant granted == Granted(names[..i], old(guard.breakers), now, timeout)
      invariant forall n: string :: guard.Source(n) ==
                  if n in names[..i] then Asked(old(guard.Source(n)), now, timeout) else old(guard.Source(n))
    {
      assert names[..i + 1][..i] == names[..i] && names[i] !in names[..i];
      var allowed := guard.AllowsSource(names[i], now, timeout);
      if allowed {
        granted := granted + [names[i]];
      }
    }
    assert names[..|names|] == names;
  }

  /** Second loop: record each granted source's answer, exactly once. */
  method RecordAll(guard: Guard, granted: seq<string>, answers: Answers, now: real, threshold: nat)
    returns (results: seq<ThreatResult>)
    requires Distinct(granted)
    modifies guard`breakers
    ensures results == Conclusive(granted, answers)
    ensures forall n: string :: guard.Source(n) ==
              if n in granted then Recorded(old(guard.Source(n)), answers(n), now, threshold) else old(guard.Source(n))
  {
    results := [];
    for i := 0 to |granted|
      invariant results == Conclusive(granted[..i], answers)
      invariant forall n: string :: guard.Source(n) ==
                  if n in granted[..i] then Recorded(old(guard.Source(n)), answers(n), now, threshold)
                  else old(guard.Source(n))
    {
      assert granted[..i + 1][..i] == granted[..i] && granted[i] !in granted[..i];
      var r := answers(granted[i]);
      if r.None? {
        guard.RecordFailure(granted[i], now, threshold);
      } else {
        guard.RecordSuccess(granted[i]);
        results := results + [r.value];
      }
    }
    assert granted[..|granted|] == granted;
  }

  method AskSources(guard: Guard, names: seq<string>, answers: Answers, c: Clock, cfg: Settings)
    returns (granted: seq<string>, results: seq<ThreatResult>)
    requires Distinct(names)
    modifies guard`breakers
    ensures granted == Granted(names, old(guard.breakers), c.ask, cfg.cbTimeout)
    ensures results == Conclusive(granted, answers)
    ensures forall n: string :: guard.Source(n) ==
              if n in names then BreakerAfter(old(guard.Source(n)), answers(n), c, cfg) else old(guard.Source(n))
  {
    GrantedMembers(names, guard.breakers, c.ask, cfg.cbTimeout);
    granted := AskAll(guard, names, c.ask, cfg.cbTimeout);
    results := RecordAll(guard, granted, answers, c.record, cfg.cbThreshold);
  }

  // ----- where cached verdicts come from -----

  /** One fusion since the last invalidation: the query's cache key and the answers it fused. */
  datatype Provenance = Provenance(key: string, results: seq<ThreatResult>, strategy: Strategy)

  /** The verdict `v` under `k` is the fusion of at least one conclusive answer to `k`. */
  predicate Backs(f: Provenance, k: string, v: Verdict) {
    f.key == k && f.results != [] && v == Fused(f.results, f.strategy)
  }

  ghost predicate Justified(items: map<string, VC.Entry>, log: seq<Provenance>) {
    forall k | k in items :: exists i | 0 <= i < |log| :: Backs(log[i], k, items[k].verdict)
  }

  /**
   A fusion of at least one conclusive answer to `k`, made since the last invalidation, gave
   `v`; so the reason of `v` is neither of the degraded ones, nor that of a query without sources.
   */
  ghost predicate Served(log: seq<Provenance>, k: string, v: Verdict) {
    && (exists i | 0 <= i < |log| :: Backs(log[i], k, v))
    && v.reason.ThreatIntel? && v.reason.sources != []
  }

  /**
   The reason alone cannot tell: in intercept mode a fail-safe that was granted sources reads
   like a fusion of bad answers from all of them. Only where a verdict came from can.
   */
  lemma FailsafeReadsLikeFusion(names: seq<string>, s: Strategy) returns (results: seq<ThreatResult>)
    requires names != []
    ensures results != [] && Fused(results, s) == FailsafeVerdict(Intercept, s, names)
  {
    results := seq(|names|, i requires 0 <= i < |names| => ThreatResult(true, names[i]));
    FusionIsQuota(results);
    assert SourcesOf(results) == names;
    assert results[0].malicious;
  }

  /** Whatever the cache serves was fused from conclusive answers. */
  lemma HitIsServed(c: VC.Lru, k: string, now: real, log: seq<Provenance>)
    requires Justified(c.items, log) && VC.Hit(c, k, now).Some?
    ensures Served(log, k, VC.Hit(c, k, now).value)
  {
    var v := VC.Hit(c, k, now).value;
    var i :| 0 <= i < |log| && Backs(log[i], k, c.items[k].verdict);
    assert Backs(log[i], k, v) && |SourcesOf(log[i].results)| > 0;
  }

  lemma JustifiedAfterGet(c: VC.Lru, k: string, now: real, log: seq<Provenance>)
    requires Justified(c.items, log)
    ensures Justified(VC.Got(c, k, now).items, log)
  {
  }

  lemma JustifiedAfterPut(c: VC.Lru, k: string, v: Verdict, now: real, ttl: real, size: int,
                          log: seq<Provenance>, f: Provenance)
    requires Justified(c.items, log) && Backs(f, k, v)
    ensures Justified(VC.Stored(c, k, v, now, ttl, size).items, log + [f])
  {
    var items := VC.Stored(c, k, v, now, ttl, size).items;
    forall x | x in items ensures exists i | 0 <= i < |log + [f]| :: Backs((log + [f])[i], x, items[x].verdict) {
      if x == k && k != "" {
        assert Backs((log + [f])[|log|], x, items[x].verdict);
      } else {
        var i :| 0 <= i < |log| && Backs(log[i], x, c.items[x].verdict);
        assert Backs((log + [f])[i], x, items[x].verdict);
      }
    }
  }

  /** What one query answers, given what it found in the cache and what it got. */
  function Answer(cached: Option<Verdict>, skip: bool, supported: seq<string>, granted: seq<string>,
                  results: seq<ThreatResult>, cfg: Settings): Verdict {
    if cached.Some? then cached.value
    else if skip then Verdict(false, Degraded)
    else if supported == [] then Verdict(false, NoSources)
    else if results == [] then FailsafeVerdict(cfg.mode, cfg.strategy, granted)
    else Fused(results, cfg.strategy)
  }

  datatype Purpose = ForDomains | ForIps

  /** The enabled adapters that declare support for this kind of query. */
  function NamesOf(adapters: seq<Adapter>, purpose: Purpose): seq<string> {
    if adapters == [] then []
    else
      var a := adapters[|adapters| - 1];
      NamesOf(adapters[..|adapters| - 1], purpose)
      + (if (if purpose == ForDomains then a.supportsDomain else a.supportsIp) then [a.name] else [])
  }

  // ----- one query, its effect on values -----

  /** The sources are consulted: no cached verdict, no degradation, somebody to ask. */
  predicate Consults(cached: Option<Verdict>, skip: bool, supported: seq<string>) {
    cached.None? && !skip && supported != []
  }

  function WindowAfter(w: Window, results: seq<ThreatResult>, c: Clock, cfg: Settings): Window {
    if results == [] then FailsafeSeen(w, c.judge, cfg.mode, cfg.degradeThreshold, cfg.degradeWidth)
    else VerdictSeen(w, c.judge)
  }

  /** The cache and its log after a query that consulted the sources. */
  function CacheAfter(got: VC.Lru, key: string, results: seq<ThreatResult>, c: Clock, cfg: Settings): VC.Lru {
    if results == [] then got
    else VC.Stored(got, key, Fused(results, cfg.strategy), c.put, cfg.cacheTtl, cfg.cacheSize)
  }

  function LogAfter(log: seq<Provenance>, key: string, results: seq<ThreatResult>, cfg: Settings): seq<Provenance> {
    if results == [] then log else log + [Provenance(key, results, cfg.strategy)]
  }

  /** The breakers after a query that consulted `names`. */
  ghost predicate BreakersAfter(before: map<string, Breaker>, after: map<string, Breaker>, names: seq<string>,
                                answers: Answers, c: Clock, cfg: Settings) {
    forall n: string :: SourceIn(after, n) ==
      if n in names then BreakerAfter(SourceIn(before, n), answers(n), c, cfg) else SourceIn(before, n)
  }

  /** The shared middle of both queries: ask the sources, then note a verdict or a fail-safe. */
  method Consult(guard: Guard, names: seq<string>, answers: Answers, c: Clock, cfg: Settings)
    returns (v: Verdict, results: seq<ThreatResult>)
    requires Distinct(names) && names != []
    modifies guard`breakers, guard`window
    ensures var granted := Granted(names, old(guard.breakers), c.ask, cfg.cbTimeout);
            && results == Conclusive(granted, answers)
            && v == Answer(None, false, names, granted, results, cfg)
    ensures guard.window == WindowAfter(old(guard.window), results, c, cfg)
    ensures BreakersAfter(old(guard.breakers), guard.breakers, names, answers, c, cfg)
  {
    var granted;
    granted, results := AskSources(guard, names, answers, c, cfg);
    assert forall n: string :: guard.Source(n) == SourceIn(guard.breakers, n);
    if results == [] {
      guard.RecordFailsafe(c.judge, cfg.mode, cfg.degradeThreshold, cfg.degradeWidth);
      v := FailsafeVerdict(cfg.mode, cfg.strategy, granted);
    } else {
      guard.RecordVerdict(c.judge);
      v := Fused(results, cfg.strategy);
    }
  }

  // ----- the two query functions -----

  /** A verdict cache together with the record of every fusion put into it. */
  class Store {
    const cache: VC.Cache
    ghost var log: seq<Provenance>

    ghost predicate Valid()
      reads this, cache
    {
      VC.Valid(cache.State()) && Justified(cache.State().items, log)
    }

    function State(): VC.Lru
      reads cache
    {
      cache.State()
    }

    constructor (key: string -> string)
      ensures Valid() && fresh(cache) && cache.key == key && State() == VC.EMPTY && log == []
    {
      cache := new VC.Cache(key);
      log := [];
    }

    method Recall(raw: string, now: real) returns (r: Option<Verdict>)
      requires Valid()
      modifies cache
      ensures Valid()
      ensures r == VC.Hit(old(State()), cache.key(raw), now)
      ensures State() == VC.Got(old(State()), cache.key(raw), now)
      ensures r.Some? ==> Served(log, cache.key(raw), r.value)
    {
      if VC.Hit(cache.State(), cache.key(raw), now).Some? {
        HitIsServed(cache.State(), cache.key(raw), now, log);
      }
      JustifiedAfterGet(cache.State(), cache.key(raw), now, log);
      r := cache.Get(raw, now);
    }

    method Remember(raw: string, v: Verdict, results: seq<ThreatResult>, c: Clock, cfg: Settings)
      requires Valid() && results != [] && v == Fused(results, cfg.strategy)
      modifies this`log, cache
      ensures Valid()
      ensures State() == CacheAfter(old(State()), cache.key(raw), results, c, cfg)
      ensures log == LogAfter(old(log), cache.key(raw), results, cfg)
    {
      ghost var f := Provenance(cache.key(raw), results, cfg.strategy);
      JustifiedAfterPut(cache.State(), f.key, v, c.put, cfg.cacheTtl, cfg.cacheSize, log, f);
      cache.Put(raw, v, c.put, cfg.cacheTtl, cfg.cacheSize);
      log := log + [f];
    }

    /** `threatintel_invalidate` of this cache. */
    method Forget()
      modifies this`log, cache
      ensures Valid() && State() == VC.EMPTY && log == []
    {
      cache.Clear();
      log := [];
    }
  }

  /** Everything a query may change: one cache with its log, the window and the breakers. */
  datatype Memory = Memory(lru: VC.Lru, log: seq<Provenance>, window: Window, breakers: map<string, Breaker>)

  ghost function MemoryOf(store: Store, guard: Guard): Memory
    reads store, store.cache, guard
  {
    Memory(store.State(), store.log, guard.window, guard.breakers)
  }

  /** One query of `key`, answered `v`, takes memory `m` to `n`. */
  ghost predicate Queried(m: Memory, n: Memory, key: string, skip: bool, names: seq<string>, answers: Answers,
                          c: Clock, cfg: Settings, v: Verdict) {
    var cached, got := VC.Hit(m.lru, key, c.get), VC.Got(m.lru, key, c.get);
    var granted := Granted(names, m.breakers, c.ask, cfg.cbTimeout);
    var results := Conclusive(granted, answers);
    && v == Answer(cached, skip, names, granted, results, cfg)
    && (cached.Some? ==> Served(m.log, key, v))
    && if Consults(cached, skip, names) then
         && n.lru == CacheAfter(got, key, results, c, cfg)
         && n.log == LogAfter(m.log, key, results, cfg)
         && n.window == WindowAfter(m.window, results, c, cfg)
         && BreakersAfter(m.breakers, n.breakers, names, answers, c, cfg)
       else n == m.(lru := got)
  }

  /** The rest of both queries, after a miss with somebody to ask. */
  method ConsultAndRemember(store: Store, guard: Guard, raw: string, names: seq<string>, answers: Answers,
                            c: Clock, cfg: Settings) returns (v: Verdict)
    requires store.Valid() && Distinct(names) && names != []
    modifies store`log, store.cache, guard`breakers, guard`window
    ensures store.Valid()
    ensures var granted := Granted(names, old(guard.breakers), c.ask, cfg.cbTimeout);
            var key, results := store.cache.key(raw), Conclusive(granted, answers);
            && v == Answer(None, false, names, granted, results, cfg)
            && store.State() == CacheAfter(old(store.State()), key, results, c, cfg)
            && store.log == LogAfter(old(store.log), key, results, cfg)
            && guard.window == WindowAfter(old(guard.window), results, c, cfg)
    ensures BreakersAfter(old(guard.breakers), guard.breakers, names, answers, c, cfg)
  {
    var results;
    v, results := Consult(guard, names, answers, c, cfg);
    if results != [] {
      store.Remember(raw, v, results, c, cfg);
    }
  }

  /** What the two query functions share; only domain queries look at the window. */
  method Query(store: Store, guard: Guard, purpose: Purpose, raw: string, adapters: seq<Adapter>, answers: Answers,
               c: Clock, cfg: Settings) returns (v: Verdict)
    requires store.Valid() && Distinct(NamesOf(adapters, purpose))
    modifies store`log, store.cache, guard`breakers, guard`window
    ensures store.Valid()
    ensures Queried(old(MemoryOf(store, guard)), MemoryOf(store, guard),
                    store.cache.key(raw), purpose == ForDomains && IsDegradedAt(old(guard.window), c.degraded),
                    NamesOf(adapters, purpose), answers, c, cfg, v)
  {
    var cached := store.Recall(raw, c.get);
    if cached.Some? {
      return cached.value;
    }
    if purpose == ForDomains {
      var degraded := guard.IsDegraded(c.degraded);
      if degraded {
        return Verdict(false, Degraded);
      }
    }
    var names := NamesOf(adapters, purpose);
    if names == [] {
      return Verdict(false, NoSources);
    }
    v := ConsultAndRemember(store, guard, raw, names, answers, c, cfg);
  }

  class Intel {
    const domains: Store
    const ips: Store
    const guard: Guard

    ghost predicate Valid()
      reads this, domains, ips, domains.cache, ips.cache
    {
      && domains != ips && domains.cache != ips.cache
      && domains.Valid() && ips.Valid()
    }

    constructor ()
      ensures Valid() && domains.State() == VC.EMPTY && ips.State() == VC.EMPTY
      ensures domains.log == [] && ips.log == []
      ensures domains.cache.key == VC.DomainKey && ips.cache.key == VC.IpKey
    {
      domains := new Store(VC.DomainKey);
      ips := new Store(VC.IpKey);
      guard := new Guard();
    }

    /** `query_threatintel_domain`. */
    method QueryDomain(domain: string, adapters: seq<Adapter>, answers: Answers, c: Clock, cfg: Settings)
      returns (v: Verdict)
      requires Valid() && Distinct(NamesOf(adapters, ForDomains))
      modifies domains`log, domains.cache, guard`breakers, guard`window
      ensures Valid()
      ensures Queried(old(MemoryOf(domains, guard)), MemoryOf(domains, guard),
                      domains.cache.key(domain), IsDegradedAt(old(guard.window), c.degraded),
                      NamesOf(adapters, ForDomains), answers, c, cfg, v)
    {
      v := Query(domains, guard, ForDomains, domain, adapters, answers, c, cfg);
    }

    /** `query_threatintel_ip`: it never looks at the window. */
    method QueryIp(ip: string, adapters: seq<Adapter>, answers: Answers, c: Clock, cfg: Settings)
      returns (v: Verdict)
      requires Valid() && Distinct(NamesOf(adapters, ForIps))
      modifies ips`log, ips.cache, guard`breakers, guard`window
      ensures Valid()
      ensures Queried(old(MemoryOf(ips, guard)), MemoryOf(ips, guard),
                      ips.cache.key(ip), false, NamesOf(adapters, ForIps), answers, c, cfg, v)
    {
      v := Query(ips, guard, ForIps, ip, adapters, answers, c, cfg);
    }

    /** `threatintel_invalidate` of both caches. */
    method Invalidate()
      requires Valid()
      modifies domains`log, domains.cache, ips`log, ips.cache
      ensures Valid() && domains.State() == VC.EMPTY && ips.State() == VC.EMPTY
      ensures domains.log == [] && ips.log == []
    {
      domains.Forget();
      ips.Forget();
    }
  }
}
