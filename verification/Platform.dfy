/**
 The pipeline with the intelligence query it asks: what the caches, the degradation window, the
 breakers and the sources' answers make of a query that no list decides.
 */
module Platform {
  import opened Common
  import opened CircuitBreaker
  import opened Upstream
  import opened Decision
  import opened DecisionLaws
  import Fusion
  import IpFilter
  import TI = ThreatIntel
  import VC = VerdictCache

  /** The rules before the intelligence query leave the query open. */
  predicate Undecided(c: Config, f: Facts, qtype: nat, w: World) {
    && c.detection && Filterable(qtype) && !f.white && !f.black
    && (f.hit.Some? ==> f.nrd && c.offline != Enforce)
    && !(c.rdap == Enforce && w.newName == Some(true))
  }

  lemma UndecidedByRules(c: Config, f: Facts, qtype: nat, w: World)
    ensures Undecided(c, f, qtype, w) <==> forall i | 0 <= i < 7 :: !NameRule(i, c, f, qtype, w)
  {
    if forall i | 0 <= i < 7 :: !NameRule(i, c, f, qtype, w) {
      assert !NameRule(0, c, f, qtype, w) && !NameRule(1, c, f, qtype, w) && !NameRule(2, c, f, qtype, w);
      assert !NameRule(3, c, f, qtype, w) && !NameRule(4, c, f, qtype, w) && !NameRule(5, c, f, qtype, w);
      assert !NameRule(6, c, f, qtype, w);
    }
  }

  /** A query left open is intercepted when its verdict is bad and inspected when it is not. */
  lemma IntelDecides(c: Config, f: Facts, black: IpFilter.Check, q: Query, w: World, h: Handling)
    requires Handles(c, f, black, q, w, h) && Undecided(c, f, q.qtype, w)
    ensures w.name.malicious ==> h.reply == InterceptReply(c, q.qtype) && Books(h.events, Decision.Intercept)
    ensures !w.name.malicious ==> DecidesName(NAME_RULES, c, f, q.qtype, w) && AskUpstream in h.events
  {
    UndecidedByRules(c, f, q.qtype, w);
    var k :| DecidesName(k, c, f, q.qtype, w) && h == HandleName(k, c, f, black, q, w);
    assert NameRule(7, c, f, q.qtype, w) == w.name.malicious;
    assert k >= 7;
    OnTheWayIsQuiet(k, c, f, q, w);
    BookedAfter(OnTheWay(k, c, f, q, w), NameVerb(k, f, w), c, black, q, w);
    UpstreamInCarry(NameVerb(k, f, w), c, black, q, w);
  }

  /** What an intelligence query concludes from, taken before it starts. */
  datatype Situation = Situation(
    cached: Option<Fusion.Verdict>, degraded: bool, names: seq<string>, results: seq<Fusion.ThreatResult>)

  function SituationOf(cache: VC.Lru, key: string, window: Window, breakers: map<string, Breaker>,
                       adapters: seq<TI.Adapter>, answers: TI.Answers, clock: TI.Clock, cfg: TI.Settings): Situation {
    var names := TI.NamesOf(adapters, TI.ForDomains);
    Situation(VC.Hit(cache, key, clock.get), IsDegradedAt(window, clock.degraded), names,
              TI.Conclusive(TI.Granted(names, breakers, clock.ask, cfg.cbTimeout), answers))
  }

  /** When intelligence blocks: a bad cached or fused verdict, or a fail-safe in intercept mode. */
  predicate Blocks(s: Situation, cfg: TI.Settings) {
    if s.cached.Some? then s.cached.value.malicious
    else if s.degraded || s.names == [] then false
    else if s.results == [] then cfg.mode == CircuitBreaker.Intercept
    else Fusion.RunFusion(s.results, cfg.strategy)
  }

  class Server {
    const filter: Filter
    const intel: TI.Intel

    constructor (filter: Filter, intel: TI.Intel)
      ensures this.filter == filter && this.intel == intel
    {
      this.filter, this.intel := filter, intel;
    }

    /** What the next intelligence query about this name will find. */
    ghost function Before(q: Query, adapters: seq<TI.Adapter>, answers: TI.Answers, clock: TI.Clock,
                          cfg: TI.Settings): Situation
      reads intel, intel.domains, intel.domains.cache, intel.guard
    {
      SituationOf(intel.domains.State(), intel.domains.cache.key(q.domain), intel.guard.window, intel.guard.breakers,
                  adapters, answers, clock, cfg)
    }

    method AskIntel(q: Query, adapters: seq<TI.Adapter>, answers: TI.Answers, clock: TI.Clock, cfg: TI.Settings)
      returns (v: Fusion.Verdict)
      requires intel.Valid() && Distinct(TI.NamesOf(adapters, TI.ForDomains))
      modifies intel.domains`log, intel.domains.cache, intel.guard`breakers, intel.guard`window
      ensures intel.Valid()
      ensures v.malicious <==> Blocks(old(Before(q, adapters, answers, clock, cfg)), cfg)
      ensures old(Before(q, adapters, answers, clock, cfg)).results == [] ==>
                intel.domains.State() ==
                VC.Got(old(intel.domains.State()), intel.domains.cache.key(q.domain), clock.get)
    {
      v := intel.QueryDomain(q.domain, adapters, answers, clock, cfg);
    }

    /**
     One query through the pipeline, asking the intelligence sources only when it gets there.
     A query left open by the lists is intercepted exactly when intelligence blocks it: so with
     sources to ask, no cached verdict, no degradation window and no conclusive answer it is
     intercepted in intercept mode and inspected in degrade mode, and that is not cached.
     */
    method Handle(q: Query, w: World, adapters: seq<TI.Adapter>, answers: TI.Answers, clock: TI.Clock, cfg: TI.Settings)
      returns (reply: Reply, ghost known: World, ghost h: Handling)
      requires intel.Valid() && Distinct(TI.NamesOf(adapters, TI.ForDomains))
      modifies filter`trace, intel.domains`log, intel.domains.cache, intel.guard`breakers, intel.guard`window
      ensures intel.Valid()
      ensures Handles(filter.config, FactsOf(filter.lists, q), filter.lists.ipBlack, q, known, h)
      ensures reply == h.reply && filter.trace == old(filter.trace) + h.events && known == w.(name := known.name)
      ensures Undecided(filter.config, FactsOf(filter.lists, q), q.qtype, w) ==>
                if Blocks(old(Before(q, adapters, answers, clock, cfg)), cfg)
                then reply == InterceptReply(filter.config, q.qtype) && Books(h.events, Decision.Intercept)
                else DecidesName(NAME_RULES, filter.config, FactsOf(filter.lists, q), q.qtype, known)
                     && AskUpstream in h.events
      ensures !Undecided(filter.config, FactsOf(filter.lists, q), q.qtype, w)
              || old(Before(q, adapters, answers, clock, cfg)).results == [] ==>
                intel.domains.State() ==
                if Undecided(filter.config, FactsOf(filter.lists, q), q.qtype, w)
                then VC.Got(old(intel.domains.State()), intel.domains.cache.key(q.domain), clock.get)
                else old(intel.domains.State())
    {
      var f := filter.LookUp(q);
      reply, known, h := HandleFacts(q, w, f, adapters, answers, clock, cfg);
    }

    method HandleFacts(q: Query, w: World, f: Facts, adapters: seq<TI.Adapter>, answers: TI.Answers,
                       clock: TI.Clock, cfg: TI.Settings)
      returns (reply: Reply, ghost known: World, ghost h: Handling)
      requires intel.Valid() && Distinct(TI.NamesOf(adapters, TI.ForDomains))
      modifies filter`trace, intel.domains`log, intel.domains.cache, intel.guard`breakers, intel.guard`window
      ensures intel.Valid()
      ensures Handles(filter.config, f, filter.lists.ipBlack, q, known, h)
      ensures reply == h.reply && filter.trace == old(filter.trace) + h.events && known == w.(name := known.name)
      ensures Undecided(filter.config, f, q.qtype, w) ==>
                if Blocks(old(Before(q, adapters, answers, clock, cfg)), cfg)
                then reply == InterceptReply(filter.config, q.qtype) && Books(h.events, Decision.Intercept)
                else DecidesName(NAME_RULES, filter.config, f, q.qtype, known) && AskUpstream in h.events
      ensures !Undecided(filter.config, f, q.qtype, w)
              || old(Before(q, adapters, answers, clock, cfg)).results == [] ==>
                intel.domains.State() ==
                if Undecided(filter.config, f, q.qtype, w)
                then VC.Got(old(intel.domains.State()), intel.domains.cache.key(q.domain), clock.get)
                else old(intel.domains.State())
    {
      var seen := w;
      if Undecided(filter.config, f, q.qtype, w) {
        var verdict := AskIntel(q, adapters, answers, clock, cfg);
        seen := w.(name := verdict);
      }
      known := seen;
      reply, h := filter.Dispatch(q, seen, f);
      if Undecided(filter.config, f, q.qtype, w) {
        IntelDecides(filter.config, f, filter.lists.ipBlack, q, known, h);
      }
    }
  }
}
