/**
 What becomes of a query whose name, or whose address, stands on a list: said of the lists
 themselves, pattern by pattern and entry by entry.
 */
module ListedQueries {
  import opened Common
  import opened Text
  import opened Upstream
  import opened DomainLookup
  import opened Decision
  import opened DecisionLaws
  import PtrNames
  import IpFilter

  // ----- being on a list -----

  /** A manual entry, trimmed of blanks and trailing dots, is the name, or "*." and the name or a parent. */
  predicate Matches(entry: string, name: string) {
    var e := RStrip(Strip(entry), IsDot);
    if StartsWith(e, "*.") then Covers(e[2..], name) else e != "" && e == name
  }

  ghost predicate SomeMatches(entries: seq<string>, name: string) {
    exists i | 0 <= i < |entries| :: Matches(entries[i], name)
  }

  ghost predicate OnList(entries: seq<string>, domain: string) {
    SomeMatches(entries, RStrip(domain, IsDot))
  }

  /** `v` is the longest entry of the index that is the looked-up name or one of its parents. */
  ghost predicate Longest(index: Index, domain: string, v: string) {
    && v in index && v != "" && Covers(v, Normalised(domain))
    && forall u | u in index && Covers(u, Normalised(domain)) :: |u| <= |v|
  }

  ghost predicate NotListed(index: Index, domain: string) {
    forall u | u in index && u != "" :: !Covers(u, Normalised(domain))
  }

  lemma HitIsMatch(entry: string, name: string)
    ensures RawHits(name, entry) == Matches(entry, name)
  {
  }

  lemma AnyHitsMeaning(name: string, entries: seq<string>)
    ensures AnyHits(name, entries) <==> SomeMatches(entries, name)
  {
    forall i | 0 <= i < |entries|
      ensures TestFor(name)(entries[i]) == Matches(entries[i], name)
    {
      HitIsMatch(entries[i], name);
    }
  }

  /** Two entries of the same length that cover a name are the same. */
  lemma SameCover(u: string, v: string, d: string)
    requires Covers(u, d) && Covers(v, d) && |u| == |v|
    ensures u == v
  {
    DottedSuffix(u, d);
    DottedSuffix(v, d);
  }

  lemma WalkIsLongest(index: Index, domain: string)
    ensures Walk(index, Normalised(domain)).None? ==> NotListed(index, domain)
    ensures forall v | Longest(index, domain, v) ::
              Walk(index, Normalised(domain)).Some? && Walk(index, Normalised(domain)).value.source == index[v]
  {
    var d := Normalised(domain);
    WalkFindsLongest(index, d);
    forall v | Longest(index, domain, v) ensures Walk(index, d).Some? && Walk(index, d).value.source == index[v] {
      SameCover(v, Walk(index, d).value.entry, d);
    }
  }

  lemma NothingListedNothingFound(index: Index, domain: string)
    requires NotListed(index, domain)
    ensures Walk(index, Normalised(domain)).None?
  {
    WalkFindsLongest(index, Normalised(domain));
    FoundIsNotEmpty(index, Normalised(domain));
  }

  lemma FactsFollowLists(l: Lists, q: Query)
    ensures FactsOf(l, q).white <==> OnList(l.white, q.domain)
    ensures FactsOf(l, q).black <==> OnList(l.black, q.domain)
    ensures NotListed(l.index, q.domain) ==> FactsOf(l, q).hit == None
    ensures forall v | Longest(l.index, q.domain, v) ::
              FactsOf(l, q).hit == Some(l.index[v]) && (FactsOf(l, q).nrd <==> l.index[v] in l.nrdSources)
  {
    AnyHitsMeaning(RStrip(q.domain, IsDot), l.white);
    AnyHitsMeaning(RStrip(q.domain, IsDot), l.black);
    WalkIsLongest(l.index, q.domain);
    if NotListed(l.index, q.domain) {
      NothingListedNothingFound(l.index, q.domain);
    }
  }

  // ----- blocked and passed -----

  /** The intercept reply, one intercept counted, this security row, and nothing asked upstream. */
  ghost predicate Blocked(c: Config, q: Query, h: Handling, reason: Reason, ips: seq<string>, source: string) {
    && h.reply == InterceptReply(c, q.qtype) && Books(h.events, Intercept)
    && Log(Row(q, reason, Recorded(Intercept), ips, source)) in h.events && AskUpstream !in h.events
  }

  predicate AsksSomebody(e: Event) {
    e.AskRdap? || e.AskName? || e.AskPtr? || e.AskIps?
  }

  /** The upstream's reply as it is, one allow counted, and nobody but the upstream asked. */
  ghost predicate Passed(w: World, h: Handling) {
    && h.reply == w.upstream && Books(h.events, Allow) && AskUpstream in h.events
    && forall e | e in h.events :: !AsksSomebody(e)
  }

  lemma BlockIsBlocked(before: seq<Event>, c: Config, black: IpFilter.Check, q: Query, w: World, reason: Reason,
                       ips: seq<string>, source: string)
    requires forall i | 0 <= i < |before| :: Quiet(before[i]) && before[i] != AskUpstream
    ensures Blocked(c, q, After(before, Carry(Block(reason, ips, source), c, black, q, w)), reason, ips, source)
  {
    var v := Block(reason, ips, source);
    BookedAfter(before, v, c, black, q, w);
    var own := Carry(v, c, black, q, w).events;
    assert own[1] == Log(Row(q, reason, Recorded(Intercept), ips, source));
    assert (before + own)[|before| + 1] == own[1];
  }

  lemma PassIsPassed(c: Config, black: IpFilter.Check, q: Query, w: World, logged: bool)
    ensures Passed(w, After([], Carry(Pass(logged), c, black, q, w)))
  {
    BookedAfter([], Pass(logged), c, black, q, w);
    PassAsksOnlyUpstream(c, black, q, w, logged);
    var own := Carry(Pass(logged), c, black, q, w).events;
    assert [] + own == own;
  }

  lemma PassAsksOnlyUpstream(c: Config, black: IpFilter.Check, q: Query, w: World, logged: bool)
    ensures var own := Carry(Pass(logged), c, black, q, w).events;
            AskUpstream in own && forall e | e in own :: !AsksSomebody(e)
  {
    var own := Carry(Pass(logged), c, black, q, w).events;
    assert own[|own| - 1] == AskUpstream;
  }

  lemma OnTheWayIsQuietOnly(k: nat, c: Config, f: Facts, q: Query, w: World)
    ensures forall i | 0 <= i < |OnTheWay(k, c, f, q, w)| ::
              Quiet(OnTheWay(k, c, f, q, w)[i]) && OnTheWay(k, c, f, q, w)[i] != AskUpstream
  {
    OnTheWayIsQuiet(k, c, f, q, w);
  }

  // ----- ordinary queries -----

  /** An ordinary query that reaches the lists. */
  predicate ReachesLists(c: Config, q: Query) {
    c.detection && (q.qtype == 1 || q.qtype == 28)
  }

  lemma DecidedBlock(k: nat, c: Config, f: Facts, black: IpFilter.Check, q: Query, w: World, h: Handling,
                     reason: Reason, source: string)
    requires Handles(c, f, black, q, w, h) && q.qtype != PTR
    requires DecidesName(k, c, f, q.qtype, w) && NameVerb(k, f, w) == Block(reason, [], source)
    ensures Blocked(c, q, h, reason, [], source)
  {
    var j :| DecidesName(j, c, f, q.qtype, w) && h == HandleName(j, c, f, black, q, w);
    DecidersAgree(c, f, q.qtype, w, j, k);
    OnTheWayIsQuietOnly(k, c, f, q, w);
    BlockIsBlocked(OnTheWay(k, c, f, q, w), c, black, q, w, reason, [], source);
  }

  lemma WhiteFact(c: Config, f: Facts, black: IpFilter.Check, q: Query, w: World, h: Handling)
    requires Handles(c, f, black, q, w, h) && ReachesLists(c, q) && f.white
    ensures Passed(w, h)
  {
    var j :| DecidesName(j, c, f, q.qtype, w) && h == HandleName(j, c, f, black, q, w);
    assert DecidesName(2, c, f, q.qtype, w);
    DecidersAgree(c, f, q.qtype, w, j, 2);
    PassIsPassed(c, black, q, w, true);
  }

  lemma BlackFact(c: Config, f: Facts, black: IpFilter.Check, q: Query, w: World, h: Handling)
    requires Handles(c, f, black, q, w, h) && ReachesLists(c, q) && !f.white && f.black
    ensures Blocked(c, q, h, LocalBlacklist, [], "")
  {
    assert DecidesName(3, c, f, q.qtype, w);
    DecidedBlock(3, c, f, black, q, w, h, LocalBlacklist, "");
  }

  lemma HitFact(c: Config, f: Facts, black: IpFilter.Check, q: Query, w: World, h: Handling, source: string)
    requires Handles(c, f, black, q, w, h) && ReachesLists(c, q) && !f.white && !f.black && f.hit == Some(source)
    ensures !f.nrd ==> Blocked(c, q, h, ListHit(source), [], source)
    ensures f.nrd && c.offline == Enforce ==> Blocked(c, q, h, NrdOffline, [], source)
  {
    if !f.nrd {
      assert DecidesName(4, c, f, q.qtype, w);
      DecidedBlock(4, c, f, black, q, w, h, ListHit(source), source);
    } else if c.offline == Enforce {
      assert DecidesName(5, c, f, q.qtype, w);
      DecidedBlock(5, c, f, black, q, w, h, NrdOffline, source);
    }
  }

  lemma OpenFact(c: Config, f: Facts, black: IpFilter.Check, q: Query, w: World, h: Handling)
    requires Handles(c, f, black, q, w, h) && ReachesLists(c, q) && !f.white && !f.black
    requires f.hit.None? || (f.nrd && c.offline != Enforce)
    ensures RegistrationThenVerdict(c, f, q, w, h)
  {
    if c.rdap == Enforce && w.newName == Some(true) {
      assert DecidesName(6, c, f, q.qtype, w);
      DecidedBlock(6, c, f, black, q, w, h, Nrd, "rdap_nrd");
    } else if w.name.malicious {
      assert DecidesName(7, c, f, q.qtype, w);
      DecidedBlock(7, c, f, black, q, w, h, Intel(w.name.reason), "");
    } else {
      assert DecidesName(8, c, f, q.qtype, w);
      AskedUpstream(c, f, black, q, w, h);
    }
  }

  lemma AskedUpstream(c: Config, f: Facts, black: IpFilter.Check, q: Query, w: World, h: Handling)
    requires Handles(c, f, black, q, w, h) && q.qtype != PTR && DecidesName(NAME_RULES, c, f, q.qtype, w)
    ensures AskUpstream in h.events
  {
    var j :| DecidesName(j, c, f, q.qtype, w) && h == HandleName(j, c, f, black, q, w);
    DecidersAgree(c, f, q.qtype, w, j, NAME_RULES);
    UpstreamInCarry(Inspect, c, black, q, w);
  }

  /** The registration layer decides next, then the name's verdict; otherwise the upstream is asked. */
  ghost predicate RegistrationThenVerdict(c: Config, f: Facts, q: Query, w: World, h: Handling) {
    if c.rdap == Enforce && w.newName == Some(true) then Blocked(c, q, h, Nrd, [], "rdap_nrd")
    else if w.name.malicious then Blocked(c, q, h, Intel(w.name.reason), [], "")
    else AskUpstream in h.events && DecidesName(NAME_RULES, c, f, q.qtype, w)
  }

  /** A name that some whitelist entry matches passes, and no source is asked about it. */
  lemma WhitelistedPasses(c: Config, l: Lists, q: Query, w: World, h: Handling)
    requires Handles(c, FactsOf(l, q), l.ipBlack, q, w, h) && ReachesLists(c, q)
    requires OnList(l.white, q.domain)
    ensures Passed(w, h)
  {
    FactsFollowLists(l, q);
    WhiteFact(c, FactsOf(l, q), l.ipBlack, q, w, h);
  }

  /** A name that some blacklist entry matches, and no whitelist entry, is intercepted. */
  lemma BlacklistedIsBlocked(c: Config, l: Lists, q: Query, w: World, h: Handling)
    requires Handles(c, FactsOf(l, q), l.ipBlack, q, w, h) && ReachesLists(c, q)
    requires !OnList(l.white, q.domain) && OnList(l.black, q.domain)
    ensures Blocked(c, q, h, LocalBlacklist, [], "")
  {
    FactsFollowLists(l, q);
    BlackFact(c, FactsOf(l, q), l.ipBlack, q, w, h);
  }

  /**
   A name on neither manual list whose longest offline entry comes from an ordinary source is
   intercepted for that source; from a new-registration source only if that layer enforces.
   */
  lemma ListedIsBlocked(c: Config, l: Lists, q: Query, w: World, h: Handling, v: string)
    requires Handles(c, FactsOf(l, q), l.ipBlack, q, w, h) && ReachesLists(c, q)
    requires !OnList(l.white, q.domain) && !OnList(l.black, q.domain) && Longest(l.index, q.domain, v)
    ensures l.index[v] !in l.nrdSources ==> Blocked(c, q, h, ListHit(l.index[v]), [], l.index[v])
    ensures l.index[v] in l.nrdSources && c.offline == Enforce ==> Blocked(c, q, h, NrdOffline, [], l.index[v])
  {
    FactsFollowLists(l, q);
    HitFact(c, FactsOf(l, q), l.ipBlack, q, w, h, l.index[v]);
  }

  /** The name is on no manual list, and on the offline lists not at all, or only for a layer that does not enforce. */
  ghost predicate Unlisted(c: Config, l: Lists, q: Query) {
    && !OnList(l.white, q.domain) && !OnList(l.black, q.domain)
    && (NotListed(l.index, q.domain)
        || (c.offline != Enforce
            && exists v | v in l.index :: Longest(l.index, q.domain, v) && l.index[v] in l.nrdSources))
  }

  lemma UnlistedIsAsked(c: Config, l: Lists, q: Query, w: World, h: Handling)
    requires Handles(c, FactsOf(l, q), l.ipBlack, q, w, h) && ReachesLists(c, q) && Unlisted(c, l, q)
    ensures RegistrationThenVerdict(c, FactsOf(l, q), q, w, h)
  {
    FactsFollowLists(l, q);
    OpenFact(c, FactsOf(l, q), l.ipBlack, q, w, h);
  }

  /** The rows and questions of the new-registration layers for a query that no list decides. */
  ghost predicate LayersSpeak(c: Config, f: Facts, q: Query, w: World, h: Handling) {
    && (AskRdap in h.events <==> c.rdap != Off)
    && (f.hit.Some? && c.offline == Observe <==>
          Log(Row(q, NrdOfflineObserved, Observed, [], Or(f.hit))) in h.events)
    && (c.rdap == Enforce && w.newName == Some(true) ==> AskName !in h.events)
    && (!(c.rdap == Enforce && w.newName == Some(true)) ==>
          && AskName in h.events
          && (c.rdap == Observe && w.newName == Some(true) <==>
                Log(Row(q, NrdObserved, Observed, [], "rdap_nrd")) in h.events))
  }

  predicate LayerEvent(e: Event) {
    e == AskRdap || e == AskName || (e.Log? && e.row.action == Observed)
  }

  lemma InAppend(a: seq<Event>, b: seq<Event>, e: Event)
    ensures e in a + b <==> e in a || e in b
  {
  }

  lemma CarryHasNoLayerEvent(v: Verb, c: Config, black: IpFilter.Check, q: Query, w: World, e: Event)
    requires LayerEvent(e)
    ensures e !in Carry(v, c, black, q, w).events
  {
    match v {
      case Pass(_) =>
      case Block(_, _, _) =>
      case Inspect =>
        FilteredHasNoLayerEvent(c, black, q, w, e);
        InAppend([AskUpstream], Filtered(c, black, q, w).events, e);
    }
  }

  lemma FilteredHasNoLayerEvent(c: Config, black: IpFilter.Check, q: Query, w: World, e: Event)
    requires LayerEvent(e)
    ensures e !in Filtered(c, black, q, w).events
  {
    var asked := AskUnlisted(AnswerIps(q, w), black);
    assert e !in asked;
    match Examine(black, q, w) {
      case Through =>
      case Emptied => PairHasNoLayerEvent(asked, Intercept, IpRow(black, q, w, Intercept), e);
      case Trimmed => PairHasNoLayerEvent(asked, RemoveIp, IpRow(black, q, w, RemoveIp), e);
      case Clean => PairHasNoLayerEvent(asked, Allow, FirstSeen, e);
    }
  }

  lemma PairHasNoLayerEvent(asked: seq<Event>, action: Action, last: Event, e: Event)
    requires LayerEvent(e) && e !in asked && !LayerEvent(last)
    ensures e !in asked + [Count(action), last]
  {
    InAppend(asked, [Count(action), last], e);
  }

  lemma OpenLayersSpeak(c: Config, f: Facts, black: IpFilter.Check, q: Query, w: World, h: Handling)
    requires Handles(c, f, black, q, w, h) && ReachesLists(c, q) && !f.white && !f.black
    requires f.hit.None? || (f.nrd && c.offline != Enforce)
    ensures LayersSpeak(c, f, q, w, h)
  {
    var k: nat :| DecidesName(k, c, f, q.qtype, w) && h == HandleName(k, c, f, black, q, w);
    assert k >= 6 by {
      assert !NameRule(0, c, f, q.qtype, w) && !NameRule(1, c, f, q.qtype, w) && !NameRule(2, c, f, q.qtype, w);
      assert !NameRule(3, c, f, q.qtype, w) && !NameRule(4, c, f, q.qtype, w) && !NameRule(5, c, f, q.qtype, w);
    }
    assert k == 6 <==> c.rdap == Enforce && w.newName == Some(true) by {
      assert k > 6 ==> !NameRule(6, c, f, q.qtype, w);
    }
    var before, own := OnTheWay(k, c, f, q, w), Carry(NameVerb(k, f, w), c, black, q, w).events;
    forall e | LayerEvent(e) ensures e in h.events <==> e in before {
      InAppend(before, own, e);
      CarryHasNoLayerEvent(NameVerb(k, f, w), c, black, q, w, e);
    }
    LayerEventsOnTheWay(k, c, f, q, w);
  }

  lemma LayerEventsOnTheWay(k: nat, c: Config, f: Facts, q: Query, w: World)
    requires 6 <= k && (f.hit.None? || (f.nrd && c.offline != Enforce))
    ensures var es := OnTheWay(k, c, f, q, w);
            && (AskRdap in es <==> c.rdap != Off) && (AskName in es <==> k > 6)
            && (f.hit.Some? && c.offline == Observe <==> Log(Row(q, NrdOfflineObserved, Observed, [], Or(f.hit))) in es)
            && (k > 6 && c.rdap == Observe && w.newName == Some(true) <==>
                  Log(Row(q, NrdObserved, Observed, [], "rdap_nrd")) in es)
  {
  }

  /** What the layers leave in the trace of a query on neither manual list. */
  lemma UnlistedIsObserved(c: Config, l: Lists, q: Query, w: World, h: Handling)
    requires Handles(c, FactsOf(l, q), l.ipBlack, q, w, h) && ReachesLists(c, q) && Unlisted(c, l, q)
    ensures LayersSpeak(c, FactsOf(l, q), q, w, h)
  {
    FactsFollowLists(l, q);
    OpenLayersSpeak(c, FactsOf(l, q), l.ipBlack, q, w, h);
  }

  /**
   A query that no list and no verdict decides, whose answer reports an error (RCODE other than 0)
   or gives no record of the queried type, passes as the upstream answered it.
   */
  lemma ErrorIsPassedOn(c: Config, l: Lists, q: Query, w: World, h: Handling)
    requires Handles(c, FactsOf(l, q), l.ipBlack, q, w, h) && ReachesLists(c, q) && Unlisted(c, l, q)
    requires !(c.rdap == Enforce && w.newName == Some(true)) && !w.name.malicious
    requires w.upstream.rcode != 0 || forall r | r in Visible(w.upstream) :: r.rtype != q.qtype
    ensures h.reply == w.upstream && Books(h.events, Allow)
  {
    UnlistedIsAsked(c, l, q, w, h);
    if w.upstream.rcode == 0 {
      NoRecordsNoIps(Visible(w.upstream), q.qtype);
    }
    ThroughIsPassedOn(c, FactsOf(l, q), l.ipBlack, q, w, h);
  }

  lemma ThroughIsPassedOn(c: Config, f: Facts, black: IpFilter.Check, q: Query, w: World, h: Handling)
    requires Handles(c, f, black, q, w, h) && ReachesLists(c, q) && DecidesName(NAME_RULES, c, f, q.qtype, w)
    requires w.upstream.rcode != 0 || AnswerIps(q, w) == []
    ensures h.reply == w.upstream && Books(h.events, Allow)
  {
    var j :| DecidesName(j, c, f, q.qtype, w) && h == HandleName(j, c, f, black, q, w);
    DecidersAgree(c, f, q.qtype, w, j, NAME_RULES);
    OnTheWayIsQuiet(j, c, f, q, w);
    BookedAfter(OnTheWay(j, c, f, q, w), Inspect, c, black, q, w);
    assert Examine(black, q, w) == Through;
  }

  lemma {:induction false} NoRecordsNoIps(rs: seq<Rr>, qtype: nat)
    requires forall r | r in rs :: r.rtype != qtype
    ensures IpFilter.ExtractIps(rs, qtype) == []
  {
    if rs != [] {
      NoRecordsNoIps(rs[1..], qtype);
    }
  }

  lemma PassedByRule(k: nat, c: Config, f: Facts, black: IpFilter.Check, q: Query, w: World, h: Handling)
    requires Handles(c, f, black, q, w, h) && !(c.detection && q.qtype == PTR)
    requires k <= 1 && DecidesName(k, c, f, q.qtype, w)
    ensures Passed(w, h)
  {
    var j :| DecidesName(j, c, f, q.qtype, w) && h == HandleName(j, c, f, black, q, w);
    DecidersAgree(c, f, q.qtype, w, j, k);
    PassIsPassed(c, black, q, w, false);
  }

  /** With detection off, or for other record types than A, AAAA and PTR, a query passes whatever is listed. */
  lemma UnfilteredPasses(c: Config, l: Lists, q: Query, w: World, h: Handling)
    requires Handles(c, FactsOf(l, q), l.ipBlack, q, w, h)
    requires !c.detection || (q.qtype != 1 && q.qtype != 28 && q.qtype != 12)
    ensures Passed(w, h)
  {
    var k := if c.detection then 1 else 0;
    assert DecidesName(k, c, FactsOf(l, q), q.qtype, w);
    PassedByRule(k, c, FactsOf(l, q), l.ipBlack, q, w, h);
  }

  // ----- reverse lookups -----

  lemma AskPtrIsQuiet()
    ensures Quiet(AskPtr) && AskPtr != AskUpstream
  {
  }

  /** What a reverse lookup must come to: address in the name, whitelisted, blacklisted, listed by a source. */
  ghost predicate ReverseDecided(c: Config, q: Query, w: World, h: Handling, ip: Option<string>, white: bool,
                                 black: bool, source: Option<string>) {
    if ip.None? || white then Passed(w, h)
    else if black then Blocked(c, q, h, LocalBlacklist, [ip.value], "")
    else if source.Some? then Blocked(c, q, h, ListHit(source.value), [ip.value], source.value)
    else if w.ptr.malicious then Blocked(c, q, h, Intel(w.ptr.reason), [ip.value], "")
    else h.reply == w.upstream && Books(h.events, Allow) && AskPtr in h.events && AskUpstream in h.events
  }

  lemma ReverseBlock(k: nat, c: Config, f: Facts, black: IpFilter.Check, q: Query, w: World, reason: Reason,
                     source: string)
    requires 2 <= k <= 4 && f.ip.Some? && PtrVerb(k, f, w) == Block(reason, [f.ip.value], source)
    ensures Blocked(c, q, HandlePtr(k, c, f, black, q, w), reason, [f.ip.value], source)
  {
    AskPtrIsQuiet();
    BlockIsBlocked(if k >= 4 then [AskPtr] else [], c, black, q, w, reason, [f.ip.value], source);
  }

  lemma ReversePass(c: Config, f: Facts, black: IpFilter.Check, q: Query, w: World)
    ensures var h := HandlePtr(5, c, f, black, q, w);
            h.reply == w.upstream && Books(h.events, Allow) && AskPtr in h.events && AskUpstream in h.events
  {
    BookedAfter([AskPtr], Pass(false), c, black, q, w);
    UpstreamInCarry(Pass(false), c, black, q, w);
    assert HandlePtr(5, c, f, black, q, w).events[0] == AskPtr;
  }

  /** What the deciding rule says about the facts. */
  lemma RuleReached(k: nat, f: Facts, w: World)
    requires DecidesPtr(k, f, w)
    ensures k == 0 <==> f.ip.None?
    ensures k == 1 <==> f.ip.Some? && f.ipWhite
    ensures k == 2 <==> f.ip.Some? && !f.ipWhite && f.ipBlack
    ensures k == 3 <==> f.ip.Some? && !f.ipWhite && !f.ipBlack && f.ipHit.Some?
    ensures k == 4 <==> f.ip.Some? && !f.ipWhite && !f.ipBlack && f.ipHit.None? && w.ptr.malicious
  {
    assert k > 0 ==> !PtrRule(0, f, w);
    assert k > 1 ==> !PtrRule(1, f, w);
    assert k > 2 ==> !PtrRule(2, f, w);
    assert k > 3 ==> !PtrRule(3, f, w);
    assert k > 4 ==> !PtrRule(4, f, w);
  }

  lemma ReverseFollowsFacts(k: nat, c: Config, f: Facts, black: IpFilter.Check, q: Query, w: World)
    requires DecidesPtr(k, f, w)
    ensures ReverseDecided(c, q, w, HandlePtr(k, c, f, black, q, w), f.ip, f.ipWhite, f.ipBlack, f.ipHit)
  {
    RuleReached(k, f, w);
    if k <= 1 {
      PassIsPassed(c, black, q, w, k == 1);
    } else if k == 2 {
      ReverseBlock(2, c, f, black, q, w, LocalBlacklist, "");
    } else if k == 3 {
      ReverseBlock(3, c, f, black, q, w, ListHit(f.ipHit.value), f.ipHit.value);
    } else if k == 4 {
      ReverseBlock(4, c, f, black, q, w, Intel(w.ptr.reason), "");
    } else {
      ReversePass(c, f, black, q, w);
    }
  }

  /**
   A reverse lookup: no address in the name passes; then the address whitelist, the address
   blacklist, the address index and the address's verdict decide, in this order, and the row
   of a block names the address.
   */
  lemma ReverseFollowsLists(c: Config, l: Lists, q: Query, w: World, h: Handling)
    requires Handles(c, FactsOf(l, q), l.ipBlack, q, w, h) && c.detection && q.qtype == 12
    ensures match PtrNames.ExtractPtrIp(q.domain)
            case None => Passed(w, h)
            case Some(ip) =>
              ReverseDecided(c, q, w, h, Some(l.show(ip)), l.ptrWhite(ip), l.ptrBlack(ip), l.ptrIndex(ip))
  {
    var f := FactsOf(l, q);
    var k :| DecidesPtr(k, f, w) && h == HandlePtr(k, c, f, l.ipBlack, q, w);
    ReverseFollowsFacts(k, c, f, l.ipBlack, q, w);
  }
}
