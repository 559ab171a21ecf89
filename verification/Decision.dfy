/**
 The decision pipeline (`process_query`, `_process_ptr`).  One query leaves a trace of
 counter updates, log rows and questions asked of other parts, and yields a reply.
 */
module Decision {
  import opened Common
  import opened Text
  import opened Upstream
  import opened DomainLookup
  import opened IpFilter
  import Fusion
  import PtrNames

  const PTR := 12

  /** `domain` is the queried name without its trailing dots. */
  datatype Query = Query(client: string, domain: string, qtype: nat)

  /** A new-registration layer: off, observing or intercepting. */
  datatype Layer = Off | Observe | Enforce

  datatype Config = Config(detection: bool, logAllow: bool, offline: Layer, rdap: Layer, alertIp: string)

  datatype Lists = Lists(
    white: seq<string>, black: seq<string>, index: Index, nrdSources: set<string>, ipBlack: Check,
    ptrWhite: PtrNames.Ip -> bool, ptrBlack: PtrNames.Ip -> bool, ptrIndex: PtrNames.Ip -> Option<string>,
    show: PtrNames.Ip -> string)

  /** What the other parts would answer, if asked. */
  datatype World = World(
    sampled: bool, newName: Option<bool>, name: Fusion.Verdict, ptr: Fusion.Verdict,
    upstream: Reply, badIp: nat -> bool)

  datatype Action = Allow | Intercept | RemoveIp

  datatype Reason =
    | Forwarded | LocalBlacklist | ListHit(source: string) | NrdOffline | NrdOfflineObserved
    | Nrd | NrdObserved | Intel(reason: Fusion.Reason) | IpFiltered

  datatype Label = Recorded(action: Action) | Observed

  datatype Row = Row(query: Query, reason: Reason, action: Label, ips: seq<string>, source: string)

  datatype Event =
    | Count(action: Action)     // query_stats.record
    | Log(row: Row)             // log_writer.enqueue
    | AskRdap                   // rdap_nrd.is_new_registration
    | AskName                   // query_threatintel_domain
    | AskPtr                    // query_threatintel_ip, for the queried address
    | AskIps(ips: seq<string>)  // query_threatintel_ip, for each answer address left open
    | AskUpstream               // query_upstream_reply
    | FirstSeen                 // ai_collector.record_domain_seen

  datatype Handling = Handling(reply: Reply, events: seq<Event>)

  /** What a rule decides: pass the query on, block it, or look at the answer. */
  datatype Verb = Pass(logged: bool) | Block(reason: Reason, ips: seq<string>, source: string) | Inspect

  /** What the lists say about a query; the address fields are for reverse lookups. */
  datatype Facts = Facts(
    white: bool, black: bool, hit: Option<string>, nrd: bool,
    ip: Option<string>, ipWhite: bool, ipBlack: bool, ipHit: Option<string>)

  function FactsOf(l: Lists, q: Query): Facts {
    var name := RStrip(q.domain, IsDot);
    var ip := PtrNames.ExtractPtrIp(q.domain);
    var hit := Walk(l.index, Normalised(q.domain));
    Facts(
      AnyHits(name, l.white), AnyHits(name, l.black),
      if hit.Some? then Some(hit.value.source) else None, hit.Some? && hit.value.source in l.nrdSources,
      if ip.Some? then Some(l.show(ip.value)) else None,
      ip.Some? && l.ptrWhite(ip.value), ip.Some? && l.ptrBlack(ip.value),
      if ip.Some? then l.ptrIndex(ip.value) else None)
  }

  // ----- the rules, in order of priority -----

  predicate Filterable(qtype: nat) { qtype == A || qtype == AAAA }

  const NAME_RULES := 8

  /** Whether the k-th rule for an ordinary query applies. */
  predicate NameRule(k: nat, c: Config, f: Facts, qtype: nat, w: World) {
    match k
    case 0 => !c.detection
    case 1 => !Filterable(qtype)
    case 2 => f.white
    case 3 => f.black
    case 4 => f.hit.Some? && !f.nrd
    case 5 => f.hit.Some? && f.nrd && c.offline == Enforce
    case 6 => c.rdap == Enforce && w.newName == Some(true)
    case 7 => w.name.malicious
    case _ => true
  }

  function NameVerb(k: nat, f: Facts, w: World): Verb {
    match k
    case 0 => Pass(false)
    case 1 => Pass(false)
    case 2 => Pass(true)
    case 3 => Block(LocalBlacklist, [], "")
    case 4 => Block(ListHit(Or(f.hit)), [], Or(f.hit))
    case 5 => Block(NrdOffline, [], Or(f.hit))
    case 6 => Block(Nrd, [], RDAP)
    case 7 => Block(Intel(w.name.reason), [], "")
    case _ => Inspect
  }

  const RDAP := "rdap_nrd"

  function Or(o: Option<string>): string {
    if o.Some? then o.value else ""
  }

  const PTR_RULES := 5

  predicate PtrRule(k: nat, f: Facts, w: World) {
    match k
    case 0 => f.ip.None?
    case 1 => f.ipWhite
    case 2 => f.ipBlack
    case 3 => f.ipHit.Some?
    case 4 => w.ptr.malicious
    case _ => true
  }

  function PtrVerb(k: nat, f: Facts, w: World): Verb {
    match k
    case 1 => Pass(true)
    case 2 => Block(LocalBlacklist, [Or(f.ip)], "")
    case 3 => Block(ListHit(Or(f.ipHit)), [Or(f.ip)], Or(f.ipHit))
    case 4 => Block(Intel(w.ptr.reason), [Or(f.ip)], "")
    case _ => Pass(false)
  }

  /** The rule that decides: the first that applies. */
  ghost predicate DecidesName(k: nat, c: Config, f: Facts, qtype: nat, w: World) {
    && k <= NAME_RULES && NameRule(k, c, f, qtype, w)
    && forall i | 0 <= i < k :: !NameRule(i, c, f, qtype, w)
  }

  ghost predicate DecidesPtr(k: nat, f: Facts, w: World) {
    k <= PTR_RULES && PtrRule(k, f, w) && forall i | 0 <= i < k :: !PtrRule(i, f, w)
  }

  // ----- what each verb does -----

  /** `build_intercept_reply`: a fixed address for A, otherwise an empty answer; never NXDOMAIN. */
  function InterceptReply(c: Config, qtype: nat): (r: Reply)
    ensures r.Decoded? && r.rcode == NOERROR
    ensures ExtractIps(Delivered(r), qtype) == if qtype == A then [c.alertIp] else []
  {
    Decoded(NOERROR, if qtype == A then [Rr(A, c.alertIp)] else [])
  }

  function Observation(q: Query, reason: Reason, source: string): Event {
    Log(Row(q, reason, Observed, [], source))
  }

  /** The verdicts, by position, on the addresses that the blacklist leaves open. */
  function BadAt(ips: seq<string>, black: Check, bad: nat -> bool): (verdicts: seq<bool>)
    ensures |verdicts| == |Unlisted(ips, black)|
    ensures forall k: nat | k < |verdicts| :: verdicts[k] == bad(k)
  {
    seq(|Unlisted(ips, black)|, i requires 0 <= i < |Unlisted(ips, black)| => bad(i))
  }

  function AnswerIps(q: Query, w: World): seq<string> {
    ExtractIps(Visible(w.upstream), q.qtype)
  }

  function KeptOf(black: Check, q: Query, w: World): seq<string> {
    Kept(AnswerIps(q, w), black, BadAt(AnswerIps(q, w), black, w.badIp))
  }

  function RemovedOf(black: Check, q: Query, w: World): seq<string> {
    Removed(AnswerIps(q, w), black, BadAt(AnswerIps(q, w), black, w.badIp))
  }

  /** How the answer of the upstream is treated. */
  datatype Treatment = Through | Emptied | Trimmed | Clean

  function Examine(black: Check, q: Query, w: World): Treatment {
    if w.upstream.rcode != NOERROR || AnswerIps(q, w) == [] then Through
    else if KeptOf(black, q, w) == [] then Emptied
    else if |KeptOf(black, q, w)| < |AnswerIps(q, w)| then Trimmed
    else Clean
  }

  function IpRow(black: Check, q: Query, w: World, action: Action): Event {
    Log(Row(q, IpFiltered, Recorded(action), RemovedOf(black, q, w), ""))
  }

  function Filtered(c: Config, black: Check, q: Query, w: World): Handling {
    var asked := AskUnlisted(AnswerIps(q, w), black);
    match Examine(black, q, w)
    case Through => Handling(w.upstream, [Count(Allow)])
    case Emptied =>
      Handling(InterceptReply(c, q.qtype), asked + [Count(Intercept), IpRow(black, q, w, Intercept)])
    case Trimmed =>
      Handling(Decoded(NOERROR, Answers(q.qtype, KeptOf(black, q, w))),
               asked + [Count(RemoveIp), IpRow(black, q, w, RemoveIp)])
    case Clean => Handling(w.upstream, asked + [Count(Allow), FirstSeen])
  }

  function AskUnlisted(ips: seq<string>, black: Check): seq<Event> {
    var pending := Unlisted(ips, black);
    if pending == [] then [] else [AskIps(pending)]
  }

  function After(before: seq<Event>, h: Handling): Handling {
    Handling(h.reply, before + h.events)
  }

  function Carry(verb: Verb, c: Config, black: Check, q: Query, w: World): Handling {
    match verb
    case Pass(logged) =>
      Handling(w.upstream,
               [Count(Allow)]
               + (if logged && c.logAllow && w.sampled then [Log(Row(q, Forwarded, Recorded(Allow), [], ""))] else [])
               + [AskUpstream])
    case Block(reason, ips, source) =>
      Handling(InterceptReply(c, q.qtype), [Count(Intercept), Log(Row(q, reason, Recorded(Intercept), ips, source))])
    case Inspect => After([AskUpstream], Filtered(c, black, q, w))
  }

  /** Before rule 6: the offline layer may report, the registration layer asks. */
  function Early(c: Config, f: Facts, q: Query): seq<Event> {
    (if f.hit.Some? && f.nrd && c.offline == Observe then [Observation(q, NrdOfflineObserved, Or(f.hit))] else [])
    + (if c.rdap != Off then [AskRdap] else [])
  }

  /** Before rule 7: the registration layer may report, the intelligence sources are asked. */
  function Late(c: Config, q: Query, w: World): seq<Event> {
    (if c.rdap == Observe && w.newName == Some(true) then [Observation(q, NrdObserved, RDAP)] else [])
    + [AskName]
  }

  function OnTheWay(k: nat, c: Config, f: Facts, q: Query, w: World): seq<Event> {
    if k < 6 then []
    else if k < 7 then Early(c, f, q)
    else Early(c, f, q) + Late(c, q, w)
  }

  lemma TraceAfter(trace: seq<Event>, before: seq<Event>, h: Handling)
    ensures trace + before + h.events == trace + After(before, h).events
    ensures trace + [] == trace
  {
  }

  lemma EventsRegroup(a: seq<Event>, b: seq<Event>, h: Handling)
    ensures After(a, After(b, h)) == After(a + b, h)
  {
    assert a + (b + h.events) == a + b + h.events;
  }

  lemma TracePair(trace: seq<Event>, before: seq<Event>, x: Event, y: Event)
    ensures trace + before + [x] + [y] == trace + (before + [x, y])
    ensures trace + [x] + [y] == trace + [x, y]
  {
  }

  function HandleName(k: nat, c: Config, f: Facts, black: Check, q: Query, w: World): Handling {
    After(OnTheWay(k, c, f, q, w), Carry(NameVerb(k, f, w), c, black, q, w))
  }

  function HandlePtr(k: nat, c: Config, f: Facts, black: Check, q: Query, w: World): Handling {
    After(if k >= 4 then [AskPtr] else [], Carry(PtrVerb(k, f, w), c, black, q, w))
  }

  /** The declared meaning of the pipeline: the first applicable rule decides. */
  ghost predicate Handles(c: Config, f: Facts, black: Check, q: Query, w: World, h: Handling) {
    if c.detection && q.qtype == PTR
    then exists k :: DecidesPtr(k, f, w) && h == HandlePtr(k, c, f, black, q, w)
    else exists k :: DecidesName(k, c, f, q.qtype, w) && h == HandleName(k, c, f, black, q, w)
  }

  // ----- the program -----

  class Filter {
    const config: Config
    const lists: Lists
    var trace: seq<Event>

    constructor (config: Config, lists: Lists)
      ensures trace == [] && this.config == config && this.lists == lists
    {
      this.config, this.lists, trace := config, lists, [];
    }

    method Record(action: Action)
      modifies this`trace
      ensures trace == old(trace) + [Count(action)]
    {
      trace := trace + [Count(action)];
    }

    method WriteLog(row: Row)
      modifies this`trace
      ensures trace == old(trace) + [Log(row)]
    {
      trace := trace + [Log(row)];
    }

    method Ask(e: Event)
      modifies this`trace
      ensures trace == old(trace) + [e]
    {
      trace := trace + [e];
    }

    method PassOn(q: Query, w: World, logged: bool) returns (reply: Reply)
      modifies this`trace
      ensures var h := Carry(Pass(logged), config, lists.ipBlack, q, w);
              reply == h.reply && trace == old(trace) + h.events
    {
      Record(Allow);
      if logged && config.logAllow {
        if w.sampled {
          WriteLog(Row(q, Forwarded, Recorded(Allow), [], ""));
        }
      }
      Ask(AskUpstream);
      reply := w.upstream;
    }

    method BlockWith(q: Query, w: World, reason: Reason, ips: seq<string>, source: string) returns (reply: Reply)
      modifies this`trace
      ensures var h := Carry(Block(reason, ips, source), config, lists.ipBlack, q, w);
              reply == h.reply && trace == old(trace) + h.events
    {
      Record(Intercept);
      WriteLog(Row(q, reason, Recorded(Intercept), ips, source));
      reply := InterceptReply(config, q.qtype);
    }

    /** Step 5: one upstream exchange, then the addresses of the answer. */
    method InspectAnswer(q: Query, w: World) returns (reply: Reply)
      modifies this`trace
      ensures var h := Carry(Inspect, config, lists.ipBlack, q, w);
              reply == h.reply && trace == old(trace) + h.events
    {
      ghost var start := trace;
      Ask(AskUpstream);
      var upstream := w.upstream;
      TracePair(start, [], AskUpstream, Count(Allow));
      if upstream.rcode != NOERROR {
        Record(Allow);
        return upstream;
      }
      var ips := ExtractIps(Visible(upstream), q.qtype);
      if ips == [] {
        Record(Allow);
        return upstream;
      }
      reply := FilterIps(q, w, ips);
      TraceAfter(start, [AskUpstream], Filtered(config, lists.ipBlack, q, w));
    }

    /** The address filter; `ips` are the non-empty addresses of a successful answer. */
    method FilterIps(q: Query, w: World, ips: seq<string>) returns (reply: Reply)
      requires ips == AnswerIps(q, w) && ips != [] && w.upstream.rcode == NOERROR
      modifies this`trace
      ensures var h := Filtered(config, lists.ipBlack, q, w);
              reply == h.reply && trace == old(trace) + h.events
    {
      var black := lists.ipBlack;
      ghost var start := trace;
      var asked := AskUnlisted(ips, black);
      trace := trace + asked;
      var kept, malicious := IpPostfilter(ips, black, BadAt(ips, black, w.badIp));
      if kept == [] {
        TracePair(start, asked, Count(Intercept), IpRow(black, q, w, Intercept));
        Record(Intercept);
        WriteLog(Row(q, IpFiltered, Recorded(Intercept), malicious, ""));
        return InterceptReply(config, q.qtype);
      }
      if |kept| < |ips| {
        TracePair(start, asked, Count(RemoveIp), IpRow(black, q, w, RemoveIp));
        Record(RemoveIp);
        WriteLog(Row(q, IpFiltered, Recorded(RemoveIp), malicious, ""));
        return Decoded(NOERROR, Answers(q.qtype, kept));
      }
      TracePair(start, asked, Count(Allow), FirstSeen);
      Record(Allow);
      Ask(FirstSeen);
      return w.upstream;
    }

    /** The list lookups; they read memory and have no effect. */
    method LookUp(q: Query) returns (f: Facts)
      ensures f == FactsOf(lists, q)
    {
      var white := MatchDomain(q.domain, lists.white);
      var black := MatchDomain(q.domain, lists.black);
      var hit := FindDomain(lists.index, q.domain);
      var ip := PtrNames.ExtractPtrIp(q.domain);
      f := Facts(
        white, black,
        if hit.Some? then Some(hit.value.source) else None, hit.Some? && hit.value.source in lists.nrdSources,
        if ip.Some? then Some(lists.show(ip.value)) else None,
        ip.Some? && lists.ptrWhite(ip.value), ip.Some? && lists.ptrBlack(ip.value),
        if ip.Some? then lists.ptrIndex(ip.value) else None);
    }

    method ProcessPtr(q: Query, w: World, f: Facts) returns (reply: Reply, ghost k: nat)
      modifies this`trace
      ensures DecidesPtr(k, f, w)
      ensures var h := HandlePtr(k, config, f, lists.ipBlack, q, w);
              reply == h.reply && trace == old(trace) + h.events
    {
      ghost var black, start := lists.ipBlack, trace;
      if f.ip.None? {
        k := 0;
        reply := PassOn(q, w, false);
        TraceAfter(start, [], Carry(PtrVerb(k, f, w), config, black, q, w));
        return;
      }
      if f.ipWhite {
        k := 1;
        reply := PassOn(q, w, true);
        TraceAfter(start, [], Carry(PtrVerb(k, f, w), config, black, q, w));
        return;
      }
      if f.ipBlack {
        k := 2;
        reply := BlockWith(q, w, LocalBlacklist, [f.ip.value], "");
        TraceAfter(start, [], Carry(PtrVerb(k, f, w), config, black, q, w));
        return;
      }
      if f.ipHit.Some? {
        k := 3;
        reply := BlockWith(q, w, ListHit(f.ipHit.value), [f.ip.value], f.ipHit.value);
        TraceAfter(start, [], Carry(PtrVerb(k, f, w), config, black, q, w));
        return;
      }
      Ask(AskPtr);
      if w.ptr.malicious {
        k := 4;
        reply := BlockWith(q, w, Intel(w.ptr.reason), [f.ip.value], "");
        TraceAfter(start, [AskPtr], Carry(PtrVerb(k, f, w), config, black, q, w));
        return;
      }
      k := 5;
      reply := PassOn(q, w, false);
      TraceAfter(start, [AskPtr], Carry(PtrVerb(k, f, w), config, black, q, w));
    }

    /** Steps 2 to 4: the rules that need no answer yet. */
    method ProcessName(q: Query, w: World, f: Facts) returns (reply: Reply, ghost k: nat)
      requires config.detection
      modifies this`trace
      ensures DecidesName(k, config, f, q.qtype, w)
      ensures var h := HandleName(k, config, f, lists.ipBlack, q, w);
              reply == h.reply && trace == old(trace) + h.events
    {
      ghost var black, start := lists.ipBlack, trace;
      if !Filterable(q.qtype) {
        k := 1;
        reply := PassOn(q, w, false);
        TraceAfter(start, [], Carry(NameVerb(k, f, w), config, black, q, w));
        return;
      }
      if f.white {
        k := 2;
        reply := PassOn(q, w, true);
        TraceAfter(start, [], Carry(NameVerb(k, f, w), config, black, q, w));
        return;
      }
      if f.black {
        k := 3;
        reply := BlockWith(q, w, LocalBlacklist, [], "");
        TraceAfter(start, [], Carry(NameVerb(k, f, w), config, black, q, w));
        return;
      }
      if f.hit.Some? {
        var source := f.hit.value;
        if !f.nrd {
          k := 4;
          reply := BlockWith(q, w, ListHit(source), [], source);
          TraceAfter(start, [], Carry(NameVerb(k, f, w), config, black, q, w));
          return;
        }
        if config.offline == Enforce {
          k := 5;
          reply := BlockWith(q, w, NrdOffline, [], source);
          TraceAfter(start, [], Carry(NameVerb(k, f, w), config, black, q, w));
          return;
        }
      }
      reply, k := ProcessOnline(q, w, f);
    }

    /** Step 4.5 in observing mode and after: the layers that ask others. */
    method ProcessOnline(q: Query, w: World, f: Facts) returns (reply: Reply, ghost k: nat)
      requires forall i | 0 <= i < 6 :: !NameRule(i, config, f, q.qtype, w)
      modifies this`trace
      ensures DecidesName(k, config, f, q.qtype, w)
      ensures var h := HandleName(k, config, f, lists.ipBlack, q, w);
              reply == h.reply && trace == old(trace) + h.events
    {
      ghost var black, start := lists.ipBlack, trace;
      if f.hit.Some? && f.nrd && config.offline == Observe {
        WriteLog(Row(q, NrdOfflineObserved, Observed, [], f.hit.value));
      }
      if config.rdap != Off {
        Ask(AskRdap);
      }
      assert trace == start + Early(config, f, q);
      if config.rdap == Enforce && w.newName == Some(true) {
        k := 6;
        reply := BlockWith(q, w, Nrd, [], RDAP);
        TraceAfter(start, Early(config, f, q), Carry(NameVerb(k, f, w), config, black, q, w));
        return;
      }
      reply, k := ProcessIntel(q, w, f);
      TraceAfter(start, Early(config, f, q), After(Late(config, q, w), Carry(NameVerb(k, f, w), config, black, q, w)));
      assert OnTheWay(k, config, f, q, w) == Early(config, f, q) + Late(config, q, w);
      EventsRegroup(Early(config, f, q), Late(config, q, w), Carry(NameVerb(k, f, w), config, black, q, w));
    }

    method ProcessIntel(q: Query, w: World, f: Facts) returns (reply: Reply, ghost k: nat)
      requires forall i | 0 <= i < 7 :: !NameRule(i, config, f, q.qtype, w)
      modifies this`trace
      ensures k >= 7 && DecidesName(k, config, f, q.qtype, w)
      ensures var h := After(Late(config, q, w), Carry(NameVerb(k, f, w), config, lists.ipBlack, q, w));
              reply == h.reply && trace == old(trace) + h.events
    {
      ghost var black, start := lists.ipBlack, trace;
      if config.rdap == Observe && w.newName == Some(true) {
        WriteLog(Row(q, NrdObserved, Observed, [], RDAP));
      }
      Ask(AskName);
      assert trace == start + Late(config, q, w);
      if w.name.malicious {
        k := 7;
        reply := BlockWith(q, w, Intel(w.name.reason), [], "");
      } else {
        k := 8;
        reply := InspectAnswer(q, w);
      }
      TraceAfter(start, Late(config, q, w), Carry(NameVerb(k, f, w), config, black, q, w));
    }

    method Dispatch(q: Query, w: World, f: Facts) returns (reply: Reply, ghost h: Handling)
      modifies this`trace
      ensures Handles(config, f, lists.ipBlack, q, w, h)
      ensures reply == h.reply && trace == old(trace) + h.events
    {
      ghost var k: nat;
      if !config.detection {
        ghost var start := trace;
        k := 0;
        reply := PassOn(q, w, false);
        h := HandleName(k, config, f, lists.ipBlack, q, w);
        TraceAfter(start, [], Carry(Pass(false), config, lists.ipBlack, q, w));
        assert DecidesName(k, config, f, q.qtype, w);
        return;
      }
      if q.qtype == PTR {
        reply, k := ProcessPtr(q, w, f);
        h := HandlePtr(k, config, f, lists.ipBlack, q, w);
        return;
      }
      reply, k := ProcessName(q, w, f);
      h := HandleName(k, config, f, lists.ipBlack, q, w);
    }

    /** `process_query`: the first applicable rule decides, and the trace says what was done. */
    method ProcessQuery(q: Query, w: World) returns (reply: Reply, ghost h: Handling)
      modifies this`trace
      ensures Handles(config, FactsOf(lists, q), lists.ipBlack, q, w, h)
      ensures reply == h.reply && trace == old(trace) + h.events
    {
      var f := LookUp(q);
      reply, h := Dispatch(q, w, f);
    }
  }
}
