/** What every completed query keeps, whatever its rule: accounting, logging, priority, safety. */
module DecisionLaws {
  import opened Common
  import opened Upstream
  import Fusion
  import opened IpFilter
  import opened Decision

  /** The counter updates of a trace. */
  function Counted(events: seq<Event>): seq<Action> {
    if events == [] then []
    else if events[0].Count? then [events[0].action] + Counted(events[1..])
    else Counted(events[1..])
  }

  predicate SecurityRow(e: Event) {
    e.Log? && (e.row.action == Recorded(Intercept) || e.row.action == Recorded(RemoveIp))
  }

  /** The actions of the rows that must always be logged. */
  function Secured(events: seq<Event>): seq<Action> {
    if events == [] then []
    else if SecurityRow(events[0]) then [events[0].row.action.action] + Secured(events[1..])
    else Secured(events[1..])
  }

  /** A trace without what the observing layers add. */
  predicate Observing(e: Event) {
    e == AskRdap || (e.Log? && e.row.action == Observed)
  }

  function Essential(events: seq<Event>): seq<Event> {
    if events == [] then []
    else if Observing(events[0]) then Essential(events[1..])
    else [events[0]] + Essential(events[1..])
  }

  lemma {:induction false} CountedAppend(a: seq<Event>, b: seq<Event>)
    ensures Counted(a + b) == Counted(a) + Counted(b)
  {
    if a == [] {
      assert a + b == b;
    } else {
      assert (a + b)[1..] == a[1..] + b;
      CountedAppend(a[1..], b);
    }
  }

  lemma {:induction false} SecuredAppend(a: seq<Event>, b: seq<Event>)
    ensures Secured(a + b) == Secured(a) + Secured(b)
  {
    if a == [] {
      assert a + b == b;
    } else {
      assert (a + b)[1..] == a[1..] + b;
      SecuredAppend(a[1..], b);
    }
  }

  lemma {:induction false} EssentialAppend(a: seq<Event>, b: seq<Event>)
    ensures Essential(a + b) == Essential(a) + Essential(b)
  {
    if a == [] {
      assert a + b == b;
    } else {
      assert (a + b)[1..] == a[1..] + b;
      EssentialAppend(a[1..], b);
    }
  }

  /** Neither a counter update nor a security row. */
  predicate Quiet(e: Event) { !e.Count? && !SecurityRow(e) }

  lemma {:induction false} QuietAddsNothing(before: seq<Event>, events: seq<Event>)
    requires forall i | 0 <= i < |before| :: Quiet(before[i])
    ensures Counted(before + events) == Counted(events) && Secured(before + events) == Secured(events)
  {
    if before == [] {
      assert before + events == events;
    } else {
      assert (before + events)[1..] == before[1..] + events;
      QuietAddsNothing(before[1..], events);
    }
  }

  /** The trace books `action` once, and logs it once unless it is an allow. */
  predicate Books(events: seq<Event>, action: Action) {
    Counted(events) == [action] && Secured(events) == (if action == Allow then [] else [action])
  }

  lemma PairBooks(x: Event, y: Event)
    ensures Counted([x, y]) == (if x.Count? then [x.action] else []) + (if y.Count? then [y.action] else [])
    ensures Secured([x, y]) ==
            (if SecurityRow(x) then [x.row.action.action] else [])
            + (if SecurityRow(y) then [y.row.action.action] else [])
  {
    assert [x, y] == [x] + [y];
    CountedAppend([x], [y]);
    SecuredAppend([x], [y]);
    assert [x][1..] == [] && [y][1..] == [];
  }

  /** The action each treatment of an answer books. */
  function TreatmentAction(t: Treatment): Action {
    match t
    case Emptied => Intercept
    case Trimmed => RemoveIp
    case _ => Allow
  }

  lemma FilteredBooks(c: Config, black: Check, q: Query, w: World)
    ensures Books(Filtered(c, black, q, w).events, TreatmentAction(Examine(black, q, w)))
  {
    var asked := AskUnlisted(AnswerIps(q, w), black);
    match Examine(black, q, w) {
      case Through =>
        assert [Count(Allow)][1..] == [];
      case Emptied =>
        PairBooks(Count(Intercept), IpRow(black, q, w, Intercept));
        QuietAddsNothing(asked, [Count(Intercept), IpRow(black, q, w, Intercept)]);
      case Trimmed =>
        PairBooks(Count(RemoveIp), IpRow(black, q, w, RemoveIp));
        QuietAddsNothing(asked, [Count(RemoveIp), IpRow(black, q, w, RemoveIp)]);
      case Clean =>
        PairBooks(Count(Allow), FirstSeen);
        QuietAddsNothing(asked, [Count(Allow), FirstSeen]);
    }
  }

  function VerbAction(v: Verb, black: Check, q: Query, w: World): Action {
    match v
    case Pass(_) => Allow
    case Block(_, _, _) => Intercept
    case Inspect => TreatmentAction(Examine(black, q, w))
  }

  lemma CarryBooks(v: Verb, c: Config, black: Check, q: Query, w: World)
    ensures Books(Carry(v, c, black, q, w).events, VerbAction(v, black, q, w))
    ensures Carry(v, c, black, q, w).reply == ReplyFor(VerbAction(v, black, q, w), c, black, q, w)
  {
    match v {
      case Pass(logged) =>
        var row := Log(Row(q, Forwarded, Recorded(Allow), [], ""));
        if logged && c.logAllow && w.sampled {
          assert Carry(v, c, black, q, w).events == [Count(Allow), row] + [AskUpstream];
          PairBooks(Count(Allow), row);
          CountedAppend([Count(Allow), row], [AskUpstream]);
          SecuredAppend([Count(Allow), row], [AskUpstream]);
        } else {
          assert Carry(v, c, black, q, w).events == [Count(Allow), AskUpstream];
          PairBooks(Count(Allow), AskUpstream);
        }
        assert [AskUpstream][1..] == [];
      case Block(reason, ips, source) =>
        PairBooks(Count(Intercept), Log(Row(q, reason, Recorded(Intercept), ips, source)));
      case Inspect =>
        FilteredBooks(c, black, q, w);
        QuietAddsNothing([AskUpstream], Filtered(c, black, q, w).events);
    }
  }

  function ReplyFor(action: Action, c: Config, black: Check, q: Query, w: World): Reply {
    match action
    case Allow => w.upstream
    case Intercept => InterceptReply(c, q.qtype)
    case RemoveIp => Decoded(NOERROR, Answers(q.qtype, KeptOf(black, q, w)))
  }

  lemma OnTheWayIsQuiet(k: nat, c: Config, f: Facts, q: Query, w: World)
    ensures forall i | 0 <= i < |OnTheWay(k, c, f, q, w)| :: Quiet(OnTheWay(k, c, f, q, w)[i])
  {
    assert forall i | 0 <= i < |Early(c, f, q)| :: Quiet(Early(c, f, q)[i]);
    assert forall i | 0 <= i < |Late(c, q, w)| :: Quiet(Late(c, q, w)[i]);
  }

  lemma BookedAfter(before: seq<Event>, v: Verb, c: Config, black: Check, q: Query, w: World)
    requires forall i | 0 <= i < |before| :: Quiet(before[i])
    ensures var h := After(before, Carry(v, c, black, q, w));
            && Books(h.events, VerbAction(v, black, q, w))
            && h.reply == ReplyFor(VerbAction(v, black, q, w), c, black, q, w)
  {
    CarryBooks(v, c, black, q, w);
    QuietAddsNothing(before, Carry(v, c, black, q, w).events);
  }

  /** The action that a query must book. */
  ghost predicate Decided(c: Config, f: Facts, black: Check, q: Query, w: World, action: Action) {
    if c.detection && q.qtype == PTR
    then exists k :: DecidesPtr(k, f, w) && action == VerbAction(PtrVerb(k, f, w), black, q, w)
    else exists k :: DecidesName(k, c, f, q.qtype, w) && action == VerbAction(NameVerb(k, f, w), black, q, w)
  }

  /**
   Accounting: every completed query counts exactly one of allow, intercept and remove_ip,
   and writes a security row exactly when it counted an intercept or a removal, with that
   same action. The count fixes the reply: the upstream's own, the intercept reply, or the
   answer rewritten to the kept addresses.
   */
  lemma EveryQueryIsBooked(c: Config, f: Facts, black: Check, q: Query, w: World, h: Handling)
    returns (action: Action)
    requires Handles(c, f, black, q, w, h)
    ensures Books(h.events, action) && Decided(c, f, black, q, w, action)
    ensures h.reply == ReplyFor(action, c, black, q, w)
  {
    if c.detection && q.qtype == PTR {
      var k :| DecidesPtr(k, f, w) && h == HandlePtr(k, c, f, black, q, w);
      var v := PtrVerb(k, f, w);
      action := VerbAction(v, black, q, w);
      BookedAfter(if k >= 4 then [AskPtr] else [], v, c, black, q, w);
    } else {
      var k :| DecidesName(k, c, f, q.qtype, w) && h == HandleName(k, c, f, black, q, w);
      var v := NameVerb(k, f, w);
      action := VerbAction(v, black, q, w);
      OnTheWayIsQuiet(k, c, f, q, w);
      BookedAfter(OnTheWay(k, c, f, q, w), v, c, black, q, w);
    }
  }

  // ----- observing changes nothing -----

  lemma DecidersAgree(c: Config, f: Facts, qtype: nat, w: World, j: nat, k: nat)
    requires DecidesName(j, c, f, qtype, w) && DecidesName(k, c, f, qtype, w)
    ensures j == k
  {
  }

  /** The same switches, with neither layer intercepting. */
  predicate SameButWatching(c: Config, d: Config) {
    && c.detection == d.detection && c.logAllow == d.logAllow && c.alertIp == d.alertIp
    && c.offline != Enforce && d.offline != Enforce && c.rdap != Enforce && d.rdap != Enforce
  }

  lemma SameRule(c: Config, d: Config, f: Facts, qtype: nat, w: World, k: nat)
    requires SameButWatching(c, d) && DecidesName(k, c, f, qtype, w)
    ensures DecidesName(k, d, f, qtype, w)
  {
    assert forall i | 0 <= i <= NAME_RULES :: NameRule(i, c, f, qtype, w) == NameRule(i, d, f, qtype, w);
  }

  lemma EarlyEssential(c: Config, f: Facts, q: Query)
    ensures Essential(Early(c, f, q)) == []
  {
    var a := if f.hit.Some? && f.nrd && c.offline == Observe
             then [Observation(q, NrdOfflineObserved, Or(f.hit))] else [];
    var b := if c.rdap != Off then [AskRdap] else [];
    EssentialAppend(a, b);
    assert Essential(a) == [] && Essential(b) == [];
  }

  lemma LateEssential(c: Config, q: Query, w: World)
    ensures Essential(Late(c, q, w)) == [AskName]
  {
    var a := if c.rdap == Observe && w.newName == Some(true) then [Observation(q, NrdObserved, RDAP)] else [];
    EssentialAppend(a, [AskName]);
    assert Essential(a) == [] && Essential([AskName]) == [AskName];
  }

  lemma OnTheWayEssential(k: nat, c: Config, f: Facts, q: Query, w: World)
    ensures Essential(OnTheWay(k, c, f, q, w)) == if k >= 7 then [AskName] else []
  {
    EarlyEssential(c, f, q);
    LateEssential(c, q, w);
    EssentialAppend(Early(c, f, q), Late(c, q, w));
  }

  /**
   Switching either new-registration layer between off and observing never changes a reply,
   nor anything the query does besides asking for the registration date and the rows that
   report the observation.
   */
  lemma ObservingIsInvisible(c: Config, d: Config, f: Facts, black: Check, q: Query, w: World, h: Handling, g: Handling)
    requires SameButWatching(c, d)
    requires Handles(c, f, black, q, w, h) && Handles(d, f, black, q, w, g)
    ensures h.reply == g.reply && Essential(h.events) == Essential(g.events)
  {
    if c.detection && q.qtype == PTR {
      var k :| DecidesPtr(k, f, w) && h == HandlePtr(k, c, f, black, q, w);
      var j :| DecidesPtr(j, f, w) && g == HandlePtr(j, d, f, black, q, w);
      assert j == k;
      CarrySame(PtrVerb(k, f, w), c, d, black, q, w);
    } else {
      var k :| DecidesName(k, c, f, q.qtype, w) && h == HandleName(k, c, f, black, q, w);
      var j :| DecidesName(j, d, f, q.qtype, w) && g == HandleName(j, d, f, black, q, w);
      SameRule(c, d, f, q.qtype, w, k);
      DecidersAgree(d, f, q.qtype, w, j, k);
      var v := NameVerb(k, f, w);
      CarrySame(v, c, d, black, q, w);
      EssentialAppend(OnTheWay(k, c, f, q, w), Carry(v, c, black, q, w).events);
      EssentialAppend(OnTheWay(k, d, f, q, w), Carry(v, d, black, q, w).events);
      OnTheWayEssential(k, c, f, q, w);
      OnTheWayEssential(k, d, f, q, w);
    }
  }

  lemma CarrySame(v: Verb, c: Config, d: Config, black: Check, q: Query, w: World)
    requires SameButWatching(c, d)
    ensures Carry(v, c, black, q, w) == Carry(v, d, black, q, w)
  {
  }

  // ----- priority -----

  /** A whitelisted name passes whatever any other list, layer or source says, and nobody is asked. */
  lemma WhitelistWins(c: Config, f: Facts, black: Check, q: Query, w: World, h: Handling)
    requires Handles(c, f, black, q, w, h) && f.white && Filterable(q.qtype)
    ensures h.reply == w.upstream && Decided(c, f, black, q, w, Allow)
    ensures AskName !in h.events && AskRdap !in h.events
  {
    var k :| DecidesName(k, c, f, q.qtype, w) && h == HandleName(k, c, f, black, q, w);
    assert NameRule(2, c, f, q.qtype, w);
    assert k == 0 || k == 2;
    assert OnTheWay(k, c, f, q, w) == [];
    assert VerbAction(NameVerb(k, f, w), black, q, w) == Allow;
  }

  /** Putting a name on the blacklist never turns an intercepted query into one that passes. */
  lemma BlacklistIsMonotone(c: Config, f: Facts, black: Check, q: Query, w: World, h: Handling, g: Handling)
    requires Handles(c, f, black, q, w, h) && Handles(c, f.(black := true), black, q, w, g)
    requires Counted(h.events) == [Intercept]
    ensures Counted(g.events) == [Intercept]
  {
    var a := EveryQueryIsBooked(c, f, black, q, w, h);
    var b := EveryQueryIsBooked(c, f.(black := true), black, q, w, g);
    assert a == Intercept by { assert [a][0] == [Intercept][0]; }
    if c.detection && q.qtype == PTR {
      var j :| DecidesPtr(j, f, w) && a == VerbAction(PtrVerb(j, f, w), black, q, w);
      var k :| DecidesPtr(k, f.(black := true), w)
               && b == VerbAction(PtrVerb(k, f.(black := true), w), black, q, w);
      SamePtrRule(f, f.(black := true), w, j, k);
    } else {
      var j :| DecidesName(j, c, f, q.qtype, w) && a == VerbAction(NameVerb(j, f, w), black, q, w);
      var k :| DecidesName(k, c, f.(black := true), q.qtype, w)
               && b == VerbAction(NameVerb(k, f.(black := true), w), black, q, w);
      assert j >= 3;
      BlacklistDecides(c, f, q.qtype, w, j, k);
    }
  }

  lemma SamePtrRule(f: Facts, g: Facts, w: World, j: nat, k: nat)
    requires g == f.(black := true) && DecidesPtr(j, f, w) && DecidesPtr(k, g, w)
    ensures j == k
  {
    assert forall i | 0 <= i <= PTR_RULES :: PtrRule(i, f, w) == PtrRule(i, g, w);
  }

  lemma BlacklistDecides(c: Config, f: Facts, qtype: nat, w: World, j: nat, k: nat)
    requires DecidesName(j, c, f, qtype, w) && j >= 3 && DecidesName(k, c, f.(black := true), qtype, w)
    ensures k == 3
  {
    assert forall i | 0 <= i < 3 :: !NameRule(i, c, f, qtype, w);
    assert forall i | 0 <= i < 3 :: NameRule(i, c, f.(black := true), qtype, w) == NameRule(i, c, f, qtype, w);
    assert NameRule(3, c, f.(black := true), qtype, w);
  }

  // ----- what reaches the client -----

  lemma CountsOfSplit(ips: seq<string>, black: Check, verdicts: seq<bool>)
    requires |verdicts| == |Unlisted(ips, black)|
    ensures |Kept(ips, black, verdicts)| + |Removed(ips, black, verdicts)| == |ips|
  {
    var kept, removed := Kept(ips, black, verdicts), Removed(ips, black, verdicts);
    SplitIsExact(ips, black, verdicts);
    assert |multiset(kept)| == |kept| && |multiset(removed)| == |removed| && |multiset(ips)| == |ips|;
    assert |multiset(kept) + multiset(removed)| == |kept| + |removed|;
  }

  lemma SameCountKeepsAll(ips: seq<string>, black: Check, verdicts: seq<bool>, ip: string)
    requires |verdicts| == |Unlisted(ips, black)| && |Kept(ips, black, verdicts)| >= |ips| && ip in ips
    ensures ip in Kept(ips, black, verdicts)
  {
    CountsOfSplit(ips, black, verdicts);
    SplitIsExact(ips, black, verdicts);
    assert Removed(ips, black, verdicts) == [];
    assert ip in multiset(ips);
    assert ip in multiset(Kept(ips, black, verdicts));
  }

  /** The addresses of the queried type that the client reads. */
  function ClientIps(r: Reply, qtype: nat): seq<string> {
    ExtractIps(Delivered(r), qtype)
  }

  /** The query did ask about `ip`, which is not blacklisted, and the last answer was clean. */
  ghost predicate Vetted(black: Check, q: Query, w: World, h: Handling, ip: string) {
    && ip in AnswerIps(q, w) && !black(ip) && AskIps(Unlisted(AnswerIps(q, w), black)) in h.events
    && exists k: int :: k >= 0 && LastAt(Unlisted(AnswerIps(q, w), black), ip, k) && !w.badIp(k)
  }

  /** The client gets the intercept reply, or reads only vetted addresses. */
  ghost predicate Safe(c: Config, black: Check, q: Query, w: World, h: Handling) {
    || h.reply == InterceptReply(c, q.qtype)
    || forall ip | ip in ClientIps(h.reply, q.qtype) :: Vetted(black, q, w, h, ip)
  }

  lemma KeptIsVetted(black: Check, q: Query, w: World, h: Handling, ip: string)
    requires ip in KeptOf(black, q, w) && AskIps(Unlisted(AnswerIps(q, w), black)) in h.events
    ensures Vetted(black, q, w, h, ip)
  {
    var ips := AnswerIps(q, w);
    var verdicts := BadAt(ips, black, w.badIp);
    KeptIsLastClean(ips, black, verdicts, ip);
    var k: int :| LastAt(Unlisted(ips, black), ip, k) && !verdicts[k];
    assert verdicts[k] == w.badIp(k);
  }

  /** Unless the answer went through unseen, the addresses left open were asked about. */
  lemma KeptWasAsked(c: Config, black: Check, q: Query, w: World, before: seq<Event>)
    requires Examine(black, q, w) != Through && KeptOf(black, q, w) != []
    ensures AskIps(Unlisted(AnswerIps(q, w), black)) in
              (After(before, Carry(Inspect, c, black, q, w))).events
  {
    var ips := AnswerIps(q, w);
    var ip := KeptOf(black, q, w)[0];
    KeptIsLastClean(ips, black, BadAt(ips, black, w.badIp), ip);
    UnlistedMember(ips, black, ip);
    var e := AskIps(Unlisted(ips, black));
    assert AskUnlisted(ips, black) == [e];
    var inner := Filtered(c, black, q, w).events;
    assert inner[0] == e;
    assert ([AskUpstream] + inner)[1] == e;
    assert (before + ([AskUpstream] + inner))[|before| + 1] == e;
  }

  /** What a query that is inspected hands to the client, in the good case. */
  lemma FilteredIsSafe(c: Config, black: Check, q: Query, w: World, before: seq<Event>)
    requires Filterable(q.qtype) && w.upstream.Decoded? && w.upstream.rcode == NOERROR
    ensures Safe(c, black, q, w, After(before, Carry(Inspect, c, black, q, w)))
  {
    var h := After(before, Carry(Inspect, c, black, q, w));
    var kept := KeptOf(black, q, w);
    match Examine(black, q, w) {
      case Trimmed =>
        RewrittenReadsBack(q.qtype, kept);
        KeptWasAsked(c, black, q, w, before);
        forall ip | ip in ClientIps(h.reply, q.qtype) ensures Vetted(black, q, w, h, ip) {
          KeptIsVetted(black, q, w, h, ip);
        }
      case Clean =>
        KeptWasAsked(c, black, q, w, before);
        forall ip | ip in ClientIps(h.reply, q.qtype) ensures Vetted(black, q, w, h, ip) {
          SameCountKeepsAll(AnswerIps(q, w), black, BadAt(AnswerIps(q, w), black, w.badIp), ip);
          KeptIsVetted(black, q, w, h, ip);
        }
      case _ =>
    }
  }

  predicate NeverAsksIps(events: seq<Event>) {
    forall i | 0 <= i < |events| :: !events[i].AskIps?
  }

  lemma OnTheWayAsksNoIps(k: nat, c: Config, f: Facts, q: Query, w: World)
    ensures NeverAsksIps(OnTheWay(k, c, f, q, w))
  {
    assert NeverAsksIps(Early(c, f, q)) && NeverAsksIps(Late(c, q, w));
  }

  /** An answer that goes through unseen is vetted only if it carries no address. */
  lemma ThroughIsUnsafe(c: Config, black: Check, q: Query, w: World, before: seq<Event>)
    requires NeverAsksIps(before) && ClientIps(w.upstream, q.qtype) != []
    requires !w.upstream.Decoded? || w.upstream.rcode != NOERROR
    ensures !Safe(c, black, q, w, After(before, Carry(Inspect, c, black, q, w)))
  {
    var h := After(before, Carry(Inspect, c, black, q, w));
    assert Examine(black, q, w) == Through && h.reply == w.upstream;
    assert h.events == before + ([AskUpstream] + [Count(Allow)]);
    assert NeverAsksIps(h.events);
    var ip := ClientIps(w.upstream, q.qtype)[0];
    assert !Vetted(black, q, w, h, ip);
  }

  /**
   When the vetting promise holds, exactly: a filterable query whose name is not whitelisted
   hands the client the intercept reply or only vetted addresses of the queried type if and
   only if a name rule blocks it, or the upstream's answer was decoded and reports no error,
   or that answer carries no such address.
   */
  lemma AddressesAreVettedExactlyWhen(c: Config, f: Facts, black: Check, q: Query, w: World, h: Handling)
    requires Handles(c, f, black, q, w, h) && c.detection && Filterable(q.qtype) && !f.white
    ensures Safe(c, black, q, w, h) <==>
              || !DecidesName(NAME_RULES, c, f, q.qtype, w)
              || (w.upstream.Decoded? && w.upstream.rcode == NOERROR)
              || ClientIps(w.upstream, q.qtype) == []
  {
    var k :| DecidesName(k, c, f, q.qtype, w) && h == HandleName(k, c, f, black, q, w);
    var before := OnTheWay(k, c, f, q, w);
    if DecidesName(NAME_RULES, c, f, q.qtype, w) {
      DecidersAgree(c, f, q.qtype, w, k, NAME_RULES);
      OnTheWayAsksNoIps(k, c, f, q, w);
      if w.upstream.Decoded? && w.upstream.rcode == NOERROR {
        FilteredIsSafe(c, black, q, w, before);
      } else if ClientIps(w.upstream, q.qtype) != [] {
        ThroughIsUnsafe(c, black, q, w, before);
      } else {
        assert h.reply == w.upstream by { NothingVisible(black, q, w); }
      }
    } else {
      BlockedByName(k, c, f, q.qtype, w);
    }
  }

  /** No address for the client means none for the filter, so the answer goes through. */
  lemma NothingVisible(black: Check, q: Query, w: World)
    requires ClientIps(w.upstream, q.qtype) == []
    ensures Examine(black, q, w) == Through
  {
  }

  lemma BlockedByName(k: nat, c: Config, f: Facts, qtype: nat, w: World)
    requires DecidesName(k, c, f, qtype, w) && c.detection && Filterable(qtype) && !f.white
    requires !DecidesName(NAME_RULES, c, f, qtype, w)
    ensures NameVerb(k, f, w).Block?
  {
  }

  /** The loss is real: an undecoded answer brings a blacklisted address to the client. */
  lemma UndecodedBringsBlacklisted(ip: string)
    returns (c: Config, f: Facts, black: Check, q: Query, w: World, h: Handling)
    ensures Handles(c, f, black, q, w, h) && c.detection && Filterable(q.qtype) && !f.white
    ensures w.upstream.Undecoded? && w.upstream.rcode == NOERROR
    ensures black(ip) && ip in ClientIps(h.reply, q.qtype) && h.reply != InterceptReply(c, q.qtype)
  {
    c := Config(true, false, Off, Off, "");
    f := Facts(false, false, None, false, None, false, false, None);
    black := _ => true;
    q := Query("", "", A);
    var clean := Fusion.Verdict(false, Fusion.NoSources);
    w := World(false, None, clean, clean, Undecoded(NOERROR, [Rr(A, ip)]), _ => true);
    assert DecidesName(NAME_RULES, c, f, A, w);
    h := HandleName(NAME_RULES, c, f, black, q, w);
    assert Examine(black, q, w) == Through;
    assert ExtractIps([Rr(A, ip)], A) == [ip] + ExtractIps([Rr(A, ip)][1..], A);
  }

  /** A query that never reached the upstream was intercepted. */
  lemma UpstreamAskedUnlessBlocked(c: Config, f: Facts, black: Check, q: Query, w: World, h: Handling)
    requires Handles(c, f, black, q, w, h)
    ensures AskUpstream in h.events || (h.reply == InterceptReply(c, q.qtype) && Books(h.events, Intercept))
  {
    var action := EveryQueryIsBooked(c, f, black, q, w, h);
    if c.detection && q.qtype == PTR {
      var k :| DecidesPtr(k, f, w) && h == HandlePtr(k, c, f, black, q, w);
      UpstreamInCarry(PtrVerb(k, f, w), c, black, q, w);
    } else {
      var k :| DecidesName(k, c, f, q.qtype, w) && h == HandleName(k, c, f, black, q, w);
      UpstreamInCarry(NameVerb(k, f, w), c, black, q, w);
    }
  }

  lemma UpstreamInCarry(v: Verb, c: Config, black: Check, q: Query, w: World)
    ensures v.Block? || AskUpstream in Carry(v, c, black, q, w).events
  {
    var events := Carry(v, c, black, q, w).events;
    if v.Pass? {
      assert events[|events| - 1] == AskUpstream;
    } else if v.Inspect? {
      assert events[0] == AskUpstream;
    }
  }

  /**
   A query that no name rule decides passes if and only if the upstream reported an error,
   or showed no address of the queried type, or no address was removed. An answer that could
   not be decoded shows no record, so it passes whatever its octets carry.
   */
  lemma InspectedPassesExactlyWhen(c: Config, f: Facts, black: Check, q: Query, w: World, h: Handling)
    requires Handles(c, f, black, q, w, h) && c.detection && q.qtype != PTR
    requires DecidesName(NAME_RULES, c, f, q.qtype, w)
    ensures Books(h.events, Allow) <==>
            w.upstream.rcode != NOERROR || AnswerIps(q, w) == [] || RemovedOf(black, q, w) == []
    ensures w.upstream.Undecoded? ==> h.reply == w.upstream
  {
    var k :| DecidesName(k, c, f, q.qtype, w) && h == HandleName(k, c, f, black, q, w);
    DecidersAgree(c, f, q.qtype, w, k, NAME_RULES);
    OnTheWayIsQuiet(k, c, f, q, w);
    BookedAfter(OnTheWay(k, c, f, q, w), Inspect, c, black, q, w);
    var a := TreatmentAction(Examine(black, q, w));
    assert Books(h.events, Allow) <==> a == Allow by { assert [a][0] == a && [Allow][0] == Allow; }
    CountsOfSplit(AnswerIps(q, w), black, BadAt(AnswerIps(q, w), black, w.badIp));
  }

  /** The security row of the address filter lists exactly the addresses of the answer that are not handed on. */
  lemma RemovedRowsAreTrue(c: Config, f: Facts, black: Check, q: Query, w: World, h: Handling, row: Row, ip: string)
    requires Handles(c, f, black, q, w, h) && Log(row) in h.events && row.reason == IpFiltered
    ensures row.query == q && (row.action == Recorded(Intercept) || row.action == Recorded(RemoveIp))
    ensures ip in row.ips <==> ip in ExtractIps(Delivered(w.upstream), q.qtype) && ip !in KeptOf(black, q, w)
    ensures if row.action == Recorded(RemoveIp)
            then ExtractIps(Delivered(h.reply), q.qtype) == KeptOf(black, q, w)
            else KeptOf(black, q, w) == []
  {
    FilterRowOnly(c, f, black, q, w, h, row);
    assert ip in RemovedOf(black, q, w) <==> ip in AnswerIps(q, w) && ip !in KeptOf(black, q, w) by {
      KeptOrRemoved(AnswerIps(q, w), black, BadAt(AnswerIps(q, w), black, w.badIp), ip);
    }
    RewrittenReadsBack(q.qtype, KeptOf(black, q, w));
    FilteredWasDecoded(black, q, w);
  }

  lemma FilteredWasDecoded(black: Check, q: Query, w: World)
    requires Examine(black, q, w) != Through
    ensures Delivered(w.upstream) == Visible(w.upstream)
    ensures Examine(black, q, w) == Emptied <==> KeptOf(black, q, w) == []
  {
  }

  /** A row of the address filter comes from an inspected answer that lost addresses. */
  lemma FilterRowOnly(c: Config, f: Facts, black: Check, q: Query, w: World, h: Handling, row: Row)
    requires Handles(c, f, black, q, w, h) && Log(row) in h.events && row.reason == IpFiltered
    ensures Filterable(q.qtype)
    ensures var t := Examine(black, q, w);
            && (t == Emptied || t == Trimmed)
            && row == Row(q, IpFiltered, Recorded(if t == Emptied then Intercept else RemoveIp),
                          RemovedOf(black, q, w), "")
            && (t == Trimmed ==> h.reply == Decoded(NOERROR, Answers(q.qtype, KeptOf(black, q, w))))
  {
    if c.detection && q.qtype == PTR {
      NoFilterRowInReverse(c, f, black, q, w, h, row);
    } else {
      var k :| DecidesName(k, c, f, q.qtype, w) && h == HandleName(k, c, f, black, q, w);
      NoFilterRowOnTheWay(k, c, f, q, w, row);
      if NameVerb(k, f, w) == Inspect {
        FilterRowIs(c, black, q, w, row);
        InspectedIsFilterable(k, c, f, q.qtype, w);
      } else {
        NoFilterRow(NameVerb(k, f, w), c, black, q, w, row);
      }
    }
  }

  lemma InspectedIsFilterable(k: nat, c: Config, f: Facts, qtype: nat, w: World)
    requires DecidesName(k, c, f, qtype, w) && NameVerb(k, f, w) == Inspect
    ensures Filterable(qtype)
  {
    assert !NameRule(1, c, f, qtype, w);
  }

  lemma NoFilterRowOnTheWay(k: nat, c: Config, f: Facts, q: Query, w: World, row: Row)
    requires row.reason == IpFiltered
    ensures Log(row) !in OnTheWay(k, c, f, q, w)
  {
    assert Log(row) !in Early(c, f, q) && Log(row) !in Late(c, q, w);
  }

  lemma NoFilterRowInReverse(c: Config, f: Facts, black: Check, q: Query, w: World, h: Handling, row: Row)
    requires Handles(c, f, black, q, w, h) && c.detection && q.qtype == PTR && row.reason == IpFiltered
    ensures Log(row) !in h.events
  {
    var k :| DecidesPtr(k, f, w) && h == HandlePtr(k, c, f, black, q, w);
    NoFilterRow(PtrVerb(k, f, w), c, black, q, w, row);
  }

  lemma NoFilterRow(v: Verb, c: Config, black: Check, q: Query, w: World, row: Row)
    requires !v.Inspect? && row.reason == IpFiltered && (v.Block? ==> v.reason != IpFiltered)
    ensures Log(row) !in Carry(v, c, black, q, w).events
  {
  }

  lemma FilterRowIs(c: Config, black: Check, q: Query, w: World, row: Row)
    requires row.reason == IpFiltered && Log(row) in Carry(Inspect, c, black, q, w).events
    ensures var t := Examine(black, q, w);
            && (t == Emptied || t == Trimmed)
            && row == Row(q, IpFiltered, Recorded(if t == Emptied then Intercept else RemoveIp),
                          RemovedOf(black, q, w), "")
            && (t == Trimmed ==>
                  Carry(Inspect, c, black, q, w).reply == Decoded(NOERROR, Answers(q.qtype, KeptOf(black, q, w))))
  {
    assert Log(row) in Filtered(c, black, q, w).events;
  }
}
