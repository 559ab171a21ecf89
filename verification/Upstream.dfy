/** Replies, and the guarded exchange with the upstream resolvers (`query_upstream_reply`). */
module Upstream {
  import opened Common
  import opened CircuitBreaker

  datatype Rr = Rr(rtype: nat, rdata: string)

  const NOERROR := 0
  const SERVFAIL := 2

  /**
   `Undecoded`: dnslib could not parse the answer, so the upstream's own octets are sent on and
   the filter sees no record; `carried` is what a client that can parse them reads.
   */
  datatype Reply =
    | Decoded(rcode: nat, answers: seq<Rr>)
    | Undecoded(rcode: nat, carried: seq<Rr>)

  const SERVFAIL_REPLY := Decoded(SERVFAIL, [])

  /** The records the filter can look at. */
  function Visible(r: Reply): seq<Rr> {
    if r.Decoded? then r.answers else []
  }

  /** The records a client reads. */
  function Delivered(r: Reply): seq<Rr> {
    if r.Decoded? then r.answers else r.carried
  }

  /** What one resolver on the list makes of the query. */
  datatype Attempt =
    | Parsed(rcode: nat, answers: seq<Rr>)
    | Unparsable(rcode: nat, longEnough: bool, carried: seq<Rr>) // header kept if there is one
    | NoAnswer                                                   // timeout or any other exception

  function Outcome(a: Attempt): Option<Reply> {
    match a
    case Parsed(rcode, answers) => Some(Decoded(rcode, answers))
    case Unparsable(rcode, longEnough, carried) => if longEnough then Some(Undecoded(rcode, carried)) else None
    case NoAnswer => None
  }

  /** The first resolver that yields a reply decides. */
  function FirstOutcome(attempts: seq<Attempt>): Option<Reply> {
    if attempts == [] then None
    else if Outcome(attempts[0]).Some? then Outcome(attempts[0])
    else FirstOutcome(attempts[1..])
  }

  /** Nothing usable came from the first `n` resolvers. */
  predicate AllFailed(attempts: seq<Attempt>, n: nat)
    requires n <= |attempts|
  {
    forall i | 0 <= i < n :: attempts[i].NoAnswer? || (attempts[i].Unparsable? && !attempts[i].longEnough)
  }

  /** `r` is the answer of resolver `i`: decoded, or, if it has a header, as it came. */
  predicate AnswerOf(a: Attempt, r: Reply) {
    match a
    case Parsed(rcode, answers) => r == Decoded(rcode, answers)
    case Unparsable(rcode, longEnough, carried) => longEnough && r == Undecoded(rcode, carried)
    case NoAnswer => false
  }

  /** The first resolver with a usable answer decides, and without one there is no outcome. */
  lemma {:induction false} FirstUsableDecides(attempts: seq<Attempt>)
    ensures FirstOutcome(attempts).None? <==> AllFailed(attempts, |attempts|)
    ensures FirstOutcome(attempts).Some? ==>
              exists i | 0 <= i < |attempts| ::
                AllFailed(attempts, i) && AnswerOf(attempts[i], FirstOutcome(attempts).value)
  {
    if attempts != [] {
      var rest := attempts[1..];
      FirstUsableDecides(rest);
      assert forall i | 0 <= i < |rest| :: rest[i] == attempts[i + 1];
      if Outcome(attempts[0]).Some? {
        assert AllFailed(attempts, 0) && AnswerOf(attempts[0], FirstOutcome(attempts).value);
      } else if FirstOutcome(rest).Some? {
        var i :| 0 <= i < |rest| && AllFailed(rest, i) && AnswerOf(rest[i], FirstOutcome(rest).value);
        assert AllFailed(attempts, i + 1) && AnswerOf(attempts[i + 1], FirstOutcome(attempts).value);
      }
    }
  }

  /** The breaker after one exchange that did or did not get a reply. */
  function AfterExchange(b: Breaker, ok: bool, askedAt: real, recordedAt: real, timeout: real,
                         threshold: nat): Breaker {
    if !Grants(b, askedAt, timeout) then b
    else if ok then Succeeded(Asked(b, askedAt, timeout))
    else Failed(Asked(b, askedAt, timeout), recordedAt, threshold)
  }

  /**
   One exchange.  A refused call answers SERVFAIL at once and records nothing; a granted one
   records exactly one result, whichever resolver answered and however many failed before it.
   */
  method QueryUpstreamReply(guard: Guard, attempts: seq<Attempt>, askedAt: real, recordedAt: real,
                            timeout: real, threshold: nat) returns (reply: Reply)
    modifies guard`upstream, guard`fastFails, guard`openCount
    ensures var outcome := FirstOutcome(attempts);
            && reply == (if Grants(old(guard.upstream), askedAt, timeout) && outcome.Some? then outcome.value
                         else SERVFAIL_REPLY)
            && guard.upstream ==
               AfterExchange(old(guard.upstream), outcome.Some?, askedAt, recordedAt, timeout, threshold)
    ensures var b := old(guard.upstream);
            var goesOut := b.phase == Closed || (b.phase == Open && b.openedAt + timeout <= askedAt);
            if goesOut && !AllFailed(attempts, |attempts|)
            then exists i | 0 <= i < |attempts| :: AllFailed(attempts, i) && AnswerOf(attempts[i], reply)
            else reply == Decoded(2, [])
  {
    FirstUsableDecides(attempts);
    var allowed := guard.UpstreamAllows(askedAt, timeout);
    if !allowed {
      return SERVFAIL_REPLY;
    }
    for i := 0 to |attempts|
      invariant FirstOutcome(attempts) == FirstOutcome(attempts[i..])
      invariant guard.upstream == Asked(old(guard.upstream), askedAt, timeout)
    {
      match attempts[i] {
        case Parsed(rcode, answers) =>
          guard.UpstreamRecordSuccess();
          return Decoded(rcode, answers);
        case Unparsable(rcode, longEnough, carried) =>
          if longEnough {
            guard.UpstreamRecordSuccess();
            return Undecoded(rcode, carried);
          }
        case NoAnswer =>
      }
    }
    guard.UpstreamRecordFailure(recordedAt, threshold);
    return SERVFAIL_REPLY;
  }
}
