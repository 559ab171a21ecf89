/** How the answers of several intelligence sources become one verdict (`run_fusion`). */
module Fusion {
  import opened Common

  datatype ThreatResult = ThreatResult(malicious: bool, source: string)

  /** Any unknown strategy name falls through to "any". */
  datatype Strategy = Any | Majority | All

  /** The reason text of a verdict, kept as its parts. */
  datatype Reason =
    | NoSources                                            // ""
    | Degraded                                             // "degraded"
    | DegradedFailsafe                                     // "degraded:failsafe"
    | ThreatIntel(strategy: Strategy, sources: seq<string>) // "threatintel:<strategy>:<sources>"

  datatype Verdict = Verdict(malicious: bool, reason: Reason)

  /** `sum(1 for r in results if r.is_malicious)`. */
  function Votes(results: seq<ThreatResult>): (n: nat)
    ensures n <= |results|
    ensures n == |results| <==> forall r | r in results :: r.malicious
    ensures n > 0 <==> exists r | r in results :: r.malicious
  {
    if results == [] then 0
    else
      assert results == [results[0]] + results[1..];
      (if results[0].malicious then 1 else 0) + Votes(results[1..])
  }

  predicate RunFusion(results: seq<ThreatResult>, strategy: Strategy) {
    if results == [] then false
    else match strategy
      case All => forall r | r in results :: r.malicious
      case Majority => 2 * Votes(results) > |results|
      case Any => exists r | r in results :: r.malicious
  }

  /** Each strategy is a quota of malicious votes. */
  lemma FusionIsQuota(results: seq<ThreatResult>)
    ensures RunFusion(results, Any) <==> Votes(results) >= 1
    ensures RunFusion(results, Majority) <==> Votes(results) > |results| / 2
    ensures RunFusion(results, All) <==> results != [] && Votes(results) >= |results|
  {
  }

  lemma OneOutVotes(s: seq<ThreatResult>, i: nat)
    requires i < |s|
    ensures Votes(s) == Votes(OneOut(s, i)) + (if s[i].malicious then 1 else 0)
  {
    assert s == s[..i] + s[i..];
    VotesAppend(s[..i], s[i..]);
    VotesAppend(s[..i], s[i + 1..]);
    assert s[i..][1..] == s[i + 1..];
  }

  lemma {:induction false} VotesOfPermutation(a: seq<ThreatResult>, b: seq<ThreatResult>)
    requires multiset(a) == multiset(b)
    ensures Votes(a) == Votes(b)
    decreases |a|
  {
    if a == [] {
      assert |b| == |multiset(b)| == |multiset(a)| == 0;
    } else {
      assert a[0] in multiset(b);
      var i: nat :| i < |b| && b[i] == a[0];
      OneOutCounts(a, 0);
      OneOutCounts(b, i);
      assert multiset(OneOut(a, 0)) == multiset(a) - multiset{a[0]};
      assert multiset(OneOut(b, i)) == multiset(b) - multiset{b[i]};
      VotesOfPermutation(OneOut(a, 0), OneOut(b, i));
      OneOutVotes(a, 0);
      OneOutVotes(b, i);
    }
  }

  /** Every strategy gives the same verdict whatever order the answers arrive in. */
  lemma FusionIgnoresOrder(a: seq<ThreatResult>, b: seq<ThreatResult>, strategy: Strategy)
    requires multiset(a) == multiset(b)
    ensures RunFusion(a, strategy) == RunFusion(b, strategy)
  {
    VotesOfPermutation(a, b);
    assert |a| == |multiset(a)| == |multiset(b)| == |b|;
    FusionIsQuota(a);
    FusionIsQuota(b);
  }

  /** Whatever "all" blocks "majority" blocks, and whatever "majority" blocks "any" blocks. */
  lemma StrategiesAreOrdered(results: seq<ThreatResult>)
    ensures RunFusion(results, All) ==> RunFusion(results, Majority)
    ensures RunFusion(results, Majority) ==> RunFusion(results, Any)
  {
    FusionIsQuota(results);
  }

  lemma {:induction false} VotesAppend(a: seq<ThreatResult>, b: seq<ThreatResult>)
    ensures Votes(a + b) == Votes(a) + Votes(b)
  {
    if a == [] {
      assert a + b == b;
    } else {
      assert (a + b)[1..] == a[1..] + b;
      VotesAppend(a[1..], b);
    }
  }

  /** A further malicious answer never turns a malicious verdict into a clean one. */
  lemma MaliciousAnswerIsMonotone(results: seq<ThreatResult>, r: ThreatResult, strategy: Strategy)
    requires r.malicious && RunFusion(results, strategy)
    ensures RunFusion(results + [r], strategy)
  {
    VotesAppend(results, [r]);
    assert [r][1..] == [];
    FusionIsQuota(results);
    FusionIsQuota(results + [r]);
  }
}
