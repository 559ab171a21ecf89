/**
 The pipeline with every intelligence query it asks: about the name, about the address of a
 reverse lookup, and about each address of the upstream's answer.
 */
module PlatformAddresses {
  import opened Common
  import opened CircuitBreaker
  import opened Upstream
  import opened IpFilter
  import opened Decision
  import opened DecisionLaws
  import opened Platform
  import Fusion
  import TI = ThreatIntel
  import VC = VerdictCache

  /** One query's answers, and the clock while it runs. */
  datatype Asking = Asking(answers: TI.Answers, clock: TI.Clock)

  /** The intelligence sources as one pipeline run meets them; `address(k)` is the k-th address query. */
  datatype Sources = Sources(
    adapters: seq<TI.Adapter>, cfg: TI.Settings, domain: Asking, reverse: Asking, address: nat -> Asking)

  function IpNames(src: Sources): seq<string> {
    TI.NamesOf(src.adapters, TI.ForIps)
  }

  // ----- one address query -----

  function IpSituation(m: TI.Memory, key: string, src: Sources, a: Asking): Situation {
    var names := IpNames(src);
    Situation(VC.Hit(m.lru, key, a.clock.get), false, names,
              TI.Conclusive(TI.Granted(names, m.breakers, a.clock.ask, src.cfg.cbTimeout), a.answers))
  }

  /** An address query answered `v` takes memory `m` to `n`. */
  ghost predicate IpStep(m: TI.Memory, n: TI.Memory, key: string, src: Sources, a: Asking, v: Fusion.Verdict) {
    TI.Queried(m, n, key, false, IpNames(src), a.answers, a.clock, src.cfg, v)
  }

  lemma StepBlocks(m: TI.Memory, n: TI.Memory, key: string, src: Sources, a: Asking, v: Fusion.Verdict)
    requires IpStep(m, n, key, src, a, v)
    ensures v.malicious <==> Blocks(IpSituation(m, key, src, a), src.cfg)
  {
  }

  // ----- the addresses of an answer, one after the other -----

  /** The chain of queries about `ips`: the memory before each and after the last, and the verdicts. */
  ghost predicate Chain(states: seq<TI.Memory>, key: string -> string, ips: seq<string>, src: Sources,
                        verdicts: seq<Fusion.Verdict>) {
    && |states| == |ips| + 1 && |verdicts| == |ips|
    && forall k: nat | k < |ips| :: IpStep(states[k], states[k + 1], key(ips[k]), src, src.address(k), verdicts[k])
  }

  method AskAddresses(intel: TI.Intel, ips: seq<string>, src: Sources)
    returns (verdicts: seq<Fusion.Verdict>, ghost states: seq<TI.Memory>)
    requires intel.Valid() && Distinct(IpNames(src))
    modifies intel.ips`log, intel.ips.cache, intel.guard`breakers, intel.guard`window
    ensures intel.Valid()
    ensures Chain(states, intel.ips.cache.key, ips, src, verdicts)
    ensures states[0] == old(TI.MemoryOf(intel.ips, intel.guard))
    ensures states[|ips|] == TI.MemoryOf(intel.ips, intel.guard)
  {
    verdicts, states := [], [TI.MemoryOf(intel.ips, intel.guard)];
    for k := 0 to |ips|
      invariant intel.Valid() && Chain(states, intel.ips.cache.key, ips[..k], src, verdicts)
      invariant states[0] == old(TI.MemoryOf(intel.ips, intel.guard))
      invariant states[k] == TI.MemoryOf(intel.ips, intel.guard)
    {
      var a := src.address(k);
      var v := intel.QueryIp(ips[k], src.adapters, a.answers, a.clock, src.cfg);
      ghost var n := TI.MemoryOf(intel.ips, intel.guard);
      ChainGrows(states, intel.ips.cache.key, ips[..k], src, verdicts, ips[k], n, v);
      assert ips[..k] + [ips[k]] == ips[..k + 1];
      verdicts, states := verdicts + [v], states + [n];
    }
    assert ips[..|ips|] == ips;
  }

  lemma ChainGrows(states: seq<TI.Memory>, key: string -> string, ips: seq<string>, src: Sources,
                   verdicts: seq<Fusion.Verdict>, ip: string, n: TI.Memory, v: Fusion.Verdict)
    requires Chain(states, key, ips, src, verdicts)
    requires IpStep(states[|ips|], n, key(ip), src, src.address(|ips|), v)
    ensures Chain(states + [n], key, ips + [ip], src, verdicts + [v])
  {
    var more, all, given := states + [n], ips + [ip], verdicts + [v];
    forall k: nat | k < |all| ensures IpStep(more[k], more[k + 1], key(all[k]), src, src.address(k), given[k]) {
      if k < |ips| {
        assert IpStep(states[k], states[k + 1], key(ips[k]), src, src.address(k), verdicts[k]);
      }
    }
  }

  // ----- when no source is conclusive -----

  predicate SaysNothing(answers: TI.Answers, names: seq<string>) {
    forall n | n in names :: answers(n).None?
  }

  /** No source answers any of the first `n` address queries, and the clock never goes back. */
  ghost predicate Silent(src: Sources, n: nat) {
    && (forall k: nat | k < n :: SaysNothing(src.address(k).answers, IpNames(src)))
    && (forall i: nat, j: nat | i < j < n :: src.address(i).clock.get <= src.address(j).clock.get)
  }

  /** The verdict then: the cached one, or the fail-safe of the mode. */
  predicate FailsafeBlocks(lru: VC.Lru, key: string, src: Sources, now: real) {
    var cached := VC.Hit(lru, key, now);
    if cached.Some? then cached.value.malicious else IpNames(src) != [] && src.cfg.mode == CircuitBreaker.Intercept
  }

  lemma {:induction false} NothingConclusive(names: seq<string>, answers: TI.Answers)
    requires SaysNothing(answers, names)
    ensures TI.Conclusive(names, answers) == []
  {
    if names != [] {
      var n := |names| - 1;
      assert names[n] in names;
      NothingConclusive(names[..n], answers);
    }
  }

  lemma {:induction false} GrantedAreNames(names: seq<string>, breakers: map<string, Breaker>, now: real, timeout: real)
    ensures forall n | n in TI.Granted(names, breakers, now, timeout) :: n in names
  {
    if names != [] {
      var n := |names| - 1;
      GrantedAreNames(names[..n], breakers, now, timeout);
      assert names == names[..n] + [names[n]];
    }
  }

  /** A get changes no later lookup. */
  lemma GetKeepsHits(c: VC.Lru, key: string, at: real, x: string, now: real)
    requires at <= now
    ensures VC.Hit(VC.Got(c, key, at), x, now) == VC.Hit(c, x, now)
  {
  }

  /** An unanswered query gives the fail-safe and leaves nothing in the cache. */
  lemma SilentStep(m: TI.Memory, n: TI.Memory, key: string, src: Sources, a: Asking, v: Fusion.Verdict)
    requires IpStep(m, n, key, src, a, v) && SaysNothing(a.answers, IpNames(src))
    ensures n.lru == VC.Got(m.lru, key, a.clock.get)
    ensures v.malicious <==> FailsafeBlocks(m.lru, key, src, a.clock.get)
  {
    GrantedAreNames(IpNames(src), m.breakers, a.clock.ask, src.cfg.cbTimeout);
    NothingConclusive(TI.Granted(IpNames(src), m.breakers, a.clock.ask, src.cfg.cbTimeout), a.answers);
  }

  lemma {:induction false} SilentHits(states: seq<TI.Memory>, key: string -> string, ips: seq<string>, src: Sources,
                                      verdicts: seq<Fusion.Verdict>, k: nat, x: string, now: real)
    requires Chain(states, key, ips, src, verdicts) && Silent(src, |ips|) && k <= |ips|
    requires forall i: nat | i < k :: src.address(i).clock.get <= now
    ensures VC.Hit(states[k].lru, x, now) == VC.Hit(states[0].lru, x, now)
  {
    if k > 0 {
      var j := k - 1;
      SilentHits(states, key, ips, src, verdicts, j, x, now);
      SilentStep(states[j], states[j + 1], key(ips[j]), src, src.address(j), verdicts[j]);
      GetKeepsHits(states[j].lru, key(ips[j]), src.address(j).clock.get, x, now);
    }
  }

  /** In a silent chain each verdict is decided by the cache as it was before the first query. */
  lemma SilentVerdict(states: seq<TI.Memory>, key: string -> string, ips: seq<string>, src: Sources,
                      verdicts: seq<Fusion.Verdict>, k: nat)
    requires Chain(states, key, ips, src, verdicts) && Silent(src, |ips|) && k < |ips|
    ensures verdicts[k].malicious <==>
            FailsafeBlocks(states[0].lru, key(ips[k]), src, src.address(k).clock.get)
  {
    var a := src.address(k);
    SilentHits(states, key, ips, src, verdicts, k, key(ips[k]), a.clock.get);
    SilentStep(states[k], states[k + 1], key(ips[k]), src, a, verdicts[k]);
  }

  // ----- the whole pipeline -----

  /** The rules before the intelligence query leave the reverse lookup open. */
  predicate UndecidedPtr(c: Config, f: Facts, qtype: nat) {
    c.detection && qtype == PTR && f.ip.Some? && !f.ipWhite && !f.ipBlack && f.ipHit.None?
  }

  /** Which addresses are asked about: those of a successful answer that the blacklist leaves open. */
  function Pending(black: Check, q: Query, w: World): seq<string> {
    if w.upstream.rcode != NOERROR then [] else Unlisted(AnswerIps(q, w), black)
  }

  /** What the address queries of one run found. */
  datatype Report = Report(states: seq<TI.Memory>, verdicts: seq<Fusion.Verdict>)

  /** `known` is `w` with the answers about the addresses filled in. */
  ghost predicate Answered(known: World, black: Check, q: Query, key: string -> string, src: Sources, r: Report) {
    var ips := Pending(black, q, known);
    && Chain(r.states, key, ips, src, r.verdicts)
    && forall k: nat | k < |ips| :: known.badIp(k) == r.verdicts[k].malicious
  }

  function WithVerdicts(w: World, verdicts: seq<Fusion.Verdict>): World {
    w.(badIp := (k: nat) => k < |verdicts| && verdicts[k].malicious)
  }

  method LearnAddresses(server: Server, q: Query, w: World, src: Sources) returns (known: World, ghost r: Report)
    requires server.intel.Valid() && Distinct(IpNames(src))
    modifies server.intel.ips`log, server.intel.ips.cache, server.intel.guard`breakers, server.intel.guard`window
    ensures server.intel.Valid()
    ensures known == w.(badIp := known.badIp)
    ensures Answered(known, server.filter.lists.ipBlack, q, server.intel.ips.cache.key, src, r)
    ensures r.states[0] == old(TI.MemoryOf(server.intel.ips, server.intel.guard))
  {
    var ips := Pending(server.filter.lists.ipBlack, q, w);
    var verdicts;
    ghost var states;
    verdicts, states := AskAddresses(server.intel, ips, src);
    known, r := WithVerdicts(w, verdicts), Report(states, verdicts);
  }

  // ----- reverse lookups -----

  /** A reverse lookup left open is intercepted when its address is bad and forwarded when it is not. */
  lemma PtrIntelDecides(c: Config, f: Facts, black: Check, q: Query, w: World, h: Handling)
    requires Handles(c, f, black, q, w, h) && UndecidedPtr(c, f, q.qtype)
    ensures w.ptr.malicious ==> h.reply == InterceptReply(c, q.qtype) && Books(h.events, Decision.Intercept)
    ensures !w.ptr.malicious ==> h.reply == w.upstream && Books(h.events, Allow) && AskUpstream in h.events
  {
    var k :| DecidesPtr(k, f, w) && h == HandlePtr(k, c, f, black, q, w);
    assert !PtrRule(0, f, w) && !PtrRule(1, f, w) && !PtrRule(2, f, w) && !PtrRule(3, f, w);
    assert PtrRule(4, f, w) == w.ptr.malicious && k >= 4;
    BookedAfter([AskPtr], PtrVerb(k, f, w), c, black, q, w);
    UpstreamInCarry(PtrVerb(k, f, w), c, black, q, w);
  }

  ghost function PtrSituation(server: Server, f: Facts, src: Sources): Situation
    reads server.intel, server.intel.ips, server.intel.ips.cache, server.intel.guard
  {
    IpSituation(TI.MemoryOf(server.intel.ips, server.intel.guard), server.intel.ips.cache.key(Or(f.ip)), src,
                src.reverse)
  }

  method LearnPtr(server: Server, f: Facts, w: World, src: Sources) returns (known: World)
    requires server.intel.Valid() && Distinct(IpNames(src)) && f.ip.Some?
    modifies server.intel.ips`log, server.intel.ips.cache, server.intel.guard`breakers, server.intel.guard`window
    ensures server.intel.Valid() && known == w.(ptr := known.ptr)
    ensures known.ptr.malicious <==> Blocks(old(PtrSituation(server, f, src)), src.cfg)
  {
    ghost var m := TI.MemoryOf(server.intel.ips, server.intel.guard);
    var v := server.intel.QueryIp(f.ip.value, src.adapters, src.reverse.answers, src.reverse.clock, src.cfg);
    StepBlocks(m, TI.MemoryOf(server.intel.ips, server.intel.guard), server.intel.ips.cache.key(f.ip.value), src,
               src.reverse, v);
    known := w.(ptr := v);
  }

  /** What a reverse lookup with facts `f` must come to, its situation taken beforehand. */
  ghost predicate ReverseDone(c: Config, f: Facts, q: Query, w: World, h: Handling, blocked: bool) {
    UndecidedPtr(c, f, q.qtype) ==>
      if blocked then h.reply == InterceptReply(c, PTR) && Books(h.events, Decision.Intercept)
      else h.reply == w.upstream && Books(h.events, Allow) && AskUpstream in h.events
  }

  method ServeReverseFacts(server: Server, q: Query, w: World, f: Facts, src: Sources)
    returns (reply: Reply, ghost known: World, ghost h: Handling)
    requires server.intel.Valid() && Distinct(IpNames(src))
    modifies server.filter`trace
    modifies server.intel.ips`log, server.intel.ips.cache, server.intel.guard`breakers, server.intel.guard`window
    ensures server.intel.Valid() && known == w.(ptr := known.ptr)
    ensures Handles(server.filter.config, f, server.filter.lists.ipBlack, q, known, h)
    ensures reply == h.reply && server.filter.trace == old(server.filter.trace) + h.events
    ensures ReverseDone(server.filter.config, f, q, w, h,
                        f.ip.Some? && Blocks(old(PtrSituation(server, f, src)), src.cfg))
  {
    var seen := w;
    if UndecidedPtr(server.filter.config, f, q.qtype) {
      seen := LearnPtr(server, f, w, src);
    }
    known := seen;
    reply, h := server.filter.Dispatch(q, seen, f);
    if UndecidedPtr(server.filter.config, f, q.qtype) {
      PtrIntelDecides(server.filter.config, f, server.filter.lists.ipBlack, q, known, h);
    }
  }

  /**
   A reverse lookup with the query it asks.  Left open by the lists it is intercepted exactly
   when a cached or fused verdict is bad, or, in intercept mode, no source is conclusive; there
   is no degradation window here.
   */
  method ServeReverse(server: Server, q: Query, w: World, src: Sources)
    returns (reply: Reply, ghost known: World, ghost h: Handling)
    requires server.intel.Valid() && Distinct(IpNames(src))
    modifies server.filter`trace
    modifies server.intel.ips`log, server.intel.ips.cache, server.intel.guard`breakers, server.intel.guard`window
    ensures server.intel.Valid() && known == w.(ptr := known.ptr)
    ensures Handles(server.filter.config, FactsOf(server.filter.lists, q), server.filter.lists.ipBlack, q, known, h)
    ensures reply == h.reply && server.filter.trace == old(server.filter.trace) + h.events
    ensures var f := FactsOf(server.filter.lists, q);
            ReverseDone(server.filter.config, f, q, w, h,
                        f.ip.Some? && Blocks(old(PtrSituation(server, f, src)), src.cfg))
  {
    var f := server.filter.LookUp(q);
    reply, known, h := ServeReverseFacts(server, q, w, f, src);
  }

  // ----- which addresses go -----

  /** The unlisted addresses that a silent chain lets through, whatever else is cached. */
  lemma SilentKeeps(known: World, black: Check, q: Query, key: string -> string, src: Sources, r: Report, ip: string)
    requires Answered(known, black, q, key, src, r) && known.upstream.rcode == NOERROR
    requires Silent(src, |Pending(black, q, known)|)
    ensures ip in KeptOf(black, q, known) <==>
            exists k: int :: LastAt(Pending(black, q, known), ip, k)
                             && !FailsafeBlocks(r.states[0].lru, key(ip), src, src.address(k).clock.get)
  {
    var ips := Pending(black, q, known);
    KeptIsLastClean(AnswerIps(q, known), black, BadAt(AnswerIps(q, known), black, known.badIp), ip);
    if ip in ips {
      var k := LastExists(ips, ip);
      SilentVerdict(r.states, key, ips, src, r.verdicts, k);
    }
  }

  lemma {:induction false} NoneMarked(ips: seq<string>, results: map<string, bool>, bad: bool)
    requires forall ip | ip in ips :: ip in results && results[ip] != bad
    ensures Marked(ips, results, bad) == []
  {
    if ips != [] {
      var n := |ips| - 1;
      assert ips == ips[..n] + [ips[n]];
      NoneMarked(ips[..n], results, bad);
    }
  }

  lemma {:induction false} AllMarked(ips: seq<string>, results: map<string, bool>, bad: bool)
    requires forall ip | ip in ips :: ip in results && results[ip] == bad
    ensures Marked(ips, results, bad) == ips
  {
    if ips != [] {
      var n := |ips| - 1;
      assert ips == ips[..n] + [ips[n]];
      AllMarked(ips[..n], results, bad);
    }
  }

  lemma VerdictsAllSame(pending: seq<string>, verdicts: seq<bool>, bad: bool)
    requires |pending| == |verdicts| && forall k | 0 <= k < |verdicts| :: verdicts[k] == bad
    ensures forall ip | ip in pending ::
              ip in Verdicts(pending, verdicts) && Verdicts(pending, verdicts)[ip] == bad
  {
    forall ip | ip in pending ensures ip in Verdicts(pending, verdicts) && Verdicts(pending, verdicts)[ip] == bad {
      var k := LastExists(pending, ip);
      LastVerdictCounts(pending, verdicts, ip, k);
    }
  }

  /** With the same verdict on every open address the filter keeps all of them or none. */
  lemma SameVerdicts(black: Check, q: Query, w: World, bad: bool)
    requires forall k: nat | k < |Unlisted(AnswerIps(q, w), black)| :: w.badIp(k) == bad
    ensures KeptOf(black, q, w) == if bad then [] else Unlisted(AnswerIps(q, w), black)
    ensures !bad ==> RemovedOf(black, q, w) == Listed(AnswerIps(q, w), black)
  {
    var pending, verdicts := Unlisted(AnswerIps(q, w), black), BadAt(AnswerIps(q, w), black, w.badIp);
    VerdictsAllSame(pending, verdicts, bad);
    if bad {
      NoneMarked(pending, Verdicts(pending, verdicts), false);
    } else {
      AllMarked(pending, Verdicts(pending, verdicts), false);
      NoneMarked(pending, Verdicts(pending, verdicts), true);
      assert Listed(AnswerIps(q, w), black) + [] == Listed(AnswerIps(q, w), black);
    }
  }

  /** None of the open addresses has a cached verdict when it is asked about. */
  ghost predicate NothingCached(lru: VC.Lru, key: string -> string, ips: seq<string>, src: Sources) {
    forall k: nat | k < |ips| :: VC.Hit(lru, key(ips[k]), src.address(k).clock.get).None?
  }

  /**
   No source is conclusive about any address and none is cached: in intercept mode, with a
   source to ask, every address of the answer goes and the query is intercepted; in degrade
   mode, or without a source, exactly the blacklisted ones go.
   */
  lemma SilentAddresses(c: Config, f: Facts, known: World, black: Check, q: Query, h: Handling,
                        key: string -> string, src: Sources, r: Report)
    requires Handles(c, f, black, q, known, h) && DecidesName(NAME_RULES, c, f, q.qtype, known) && q.qtype != PTR
    requires Answered(known, black, q, key, src, r) && known.upstream.rcode == NOERROR && AnswerIps(q, known) != []
    requires Silent(src, |Pending(black, q, known)|)
    requires NothingCached(r.states[0].lru, key, Pending(black, q, known), src)
    ensures if IpNames(src) != [] && src.cfg.mode == CircuitBreaker.Intercept
            then h.reply == InterceptReply(c, q.qtype) && Books(h.events, Decision.Intercept)
            else KeptOf(black, q, known) == Unlisted(AnswerIps(q, known), black)
                 && RemovedOf(black, q, known) == Listed(AnswerIps(q, known), black)
  {
    var ips := Pending(black, q, known);
    var bad := IpNames(src) != [] && src.cfg.mode == CircuitBreaker.Intercept;
    forall k: nat | k < |ips| ensures known.badIp(k) == bad {
      SilentVerdict(r.states, key, ips, src, r.verdicts, k);
    }
    SameVerdicts(black, q, known, bad);
    if bad {
      InspectedIsIntercepted(c, f, known, black, q, h);
    }
  }

  lemma InspectedIsIntercepted(c: Config, f: Facts, w: World, black: Check, q: Query, h: Handling)
    requires Handles(c, f, black, q, w, h) && DecidesName(NAME_RULES, c, f, q.qtype, w) && q.qtype != PTR
    requires w.upstream.rcode == NOERROR && AnswerIps(q, w) != [] && KeptOf(black, q, w) == []
    ensures h.reply == InterceptReply(c, q.qtype) && Books(h.events, Decision.Intercept)
  {
    var k :| DecidesName(k, c, f, q.qtype, w) && h == HandleName(k, c, f, black, q, w);
    DecidersAgree(c, f, q.qtype, w, k, NAME_RULES);
    OnTheWayIsQuiet(k, c, f, q, w);
    BookedAfter(OnTheWay(k, c, f, q, w), NameVerb(k, f, w), c, black, q, w);
    assert Examine(black, q, w) == Emptied;
  }

  // ----- ordinary queries, end to end -----

  ghost function NameSituation(server: Server, q: Query, src: Sources): Situation
    reads server.intel, server.intel.domains, server.intel.domains.cache, server.intel.guard
  {
    server.Before(q, src.adapters, src.domain.answers, src.domain.clock, src.cfg)
  }

  method LearnName(server: Server, q: Query, w: World, src: Sources) returns (known: World)
    requires server.intel.Valid() && Distinct(TI.NamesOf(src.adapters, TI.ForDomains))
    modifies server.intel.domains`log, server.intel.domains.cache
    modifies server.intel.guard`breakers, server.intel.guard`window
    ensures server.intel.Valid() && known == w.(name := known.name)
    ensures known.name.malicious <==>
            Blocks(old(NameSituation(server, q, src)), src.cfg)
    ensures server.intel.ips.State() == old(server.intel.ips.State())
  {
    var v := server.AskIntel(q, src.adapters, src.domain.answers, src.domain.clock, src.cfg);
    known := w.(name := v);
  }

  /** What a pipeline run learns about an undecided query: the name, and if that is clean the addresses. */
  method Learn(server: Server, q: Query, w: World, src: Sources) returns (known: World, ghost r: Report)
    requires server.intel.Valid()
    requires Distinct(IpNames(src)) && Distinct(TI.NamesOf(src.adapters, TI.ForDomains))
    modifies server.intel.domains`log, server.intel.domains.cache, server.intel.ips`log, server.intel.ips.cache
    modifies server.intel.guard`breakers, server.intel.guard`window
    ensures server.intel.Valid() && known == w.(name := known.name, badIp := known.badIp)
    ensures known.name.malicious <==>
            Blocks(old(NameSituation(server, q, src)), src.cfg)
    ensures !known.name.malicious ==>
              && Answered(known, server.filter.lists.ipBlack, q, server.intel.ips.cache.key, src, r)
              && r.states[0].lru == old(server.intel.ips.State())
  {
    var named := LearnName(server, q, w, src);
    known, r := named, Report([], []);
    if !named.name.malicious {
      known, r := LearnAddresses(server, q, named, src);
    }
  }

  /** What an ordinary query with facts `f` must come to; `lru` is the address cache beforehand. */
  ghost predicate NameDone(c: Config, f: Facts, black: Check, q: Query, w: World, known: World, h: Handling,
                           blocked: bool, key: string -> string, lru: VC.Lru, src: Sources, r: Report) {
    Undecided(c, f, q.qtype, w) ==>
      if blocked then h.reply == InterceptReply(c, q.qtype) && Books(h.events, Decision.Intercept)
      else
        && DecidesName(NAME_RULES, c, f, q.qtype, known) && AskUpstream in h.events
        && Answered(known, black, q, key, src, r) && r.states[0].lru == lru
  }

  method ServeFacts(server: Server, q: Query, w: World, f: Facts, src: Sources)
    returns (reply: Reply, ghost known: World, ghost h: Handling, ghost r: Report)
    requires server.intel.Valid()
    requires Distinct(IpNames(src)) && Distinct(TI.NamesOf(src.adapters, TI.ForDomains))
    modifies server.filter`trace
    modifies server.intel.domains`log, server.intel.domains.cache, server.intel.ips`log, server.intel.ips.cache
    modifies server.intel.guard`breakers, server.intel.guard`window
    ensures server.intel.Valid() && known == w.(name := known.name, badIp := known.badIp)
    ensures Handles(server.filter.config, f, server.filter.lists.ipBlack, q, known, h)
    ensures reply == h.reply && server.filter.trace == old(server.filter.trace) + h.events
    ensures NameDone(server.filter.config, f, server.filter.lists.ipBlack, q, w, known, h,
                     Blocks(old(NameSituation(server, q, src)), src.cfg),
                     server.intel.ips.cache.key, old(server.intel.ips.State()), src, r)
  {
    var seen := w;
    r := Report([], []);
    if Undecided(server.filter.config, f, q.qtype, w) {
      seen, r := Learn(server, q, w, src);
    }
    known := seen;
    reply, h := server.filter.Dispatch(q, seen, f);
    if Undecided(server.filter.config, f, q.qtype, w) {
      IntelDecides(server.filter.config, f, server.filter.lists.ipBlack, q, known, h);
    }
  }

  /**
   An ordinary query with every question it asks.  Left open by the lists, it is intercepted
   when intelligence blocks its name; otherwise its answer is inspected with the verdicts of the
   address queries, which start from the address cache as the query found it.
   */
  method Serve(server: Server, q: Query, w: World, src: Sources)
    returns (reply: Reply, ghost known: World, ghost h: Handling, ghost r: Report)
    requires server.intel.Valid()
    requires Distinct(IpNames(src)) && Distinct(TI.NamesOf(src.adapters, TI.ForDomains))
    modifies server.filter`trace
    modifies server.intel.domains`log, server.intel.domains.cache, server.intel.ips`log, server.intel.ips.cache
    modifies server.intel.guard`breakers, server.intel.guard`window
    ensures server.intel.Valid() && known == w.(name := known.name, badIp := known.badIp)
    ensures Handles(server.filter.config, FactsOf(server.filter.lists, q), server.filter.lists.ipBlack, q, known, h)
    ensures reply == h.reply && server.filter.trace == old(server.filter.trace) + h.events
    ensures NameDone(server.filter.config, FactsOf(server.filter.lists, q), server.filter.lists.ipBlack, q, w, known, h,
                     Blocks(old(NameSituation(server, q, src)), src.cfg),
                     server.intel.ips.cache.key, old(server.intel.ips.State()), src, r)
  {
    var f := server.filter.LookUp(q);
    reply, known, h, r := ServeFacts(server, q, w, f, src);
  }
}
