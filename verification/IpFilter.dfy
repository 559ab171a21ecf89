/**
 Filtering the addresses of an upstream answer (`ip_postfilter`, `build_remaining_reply`).
 `verdicts[k]` is what the intelligence query for the k-th unlisted address said; two queries
 for the same address may disagree, because sources, caches and breakers move between them.
 */
module IpFilter {
  import opened Common
  import opened Upstream

  type Check = string -> bool

  /** The addresses that the local blacklist does not settle, in order. */
  function Unlisted(ips: seq<string>, black: Check): seq<string> {
    if ips == [] then []
    else
      var n := |ips| - 1;
      if black(ips[n]) then Unlisted(ips[..n], black) else Unlisted(ips[..n], black) + [ips[n]]
  }

  function Listed(ips: seq<string>, black: Check): seq<string> {
    if ips == [] then []
    else
      var n := |ips| - 1;
      if black(ips[n]) then Listed(ips[..n], black) + [ips[n]] else Listed(ips[..n], black)
  }

  /** `dict(zip(pending, verdicts))`: a repeated address keeps its last verdict. */
  function Verdicts(pending: seq<string>, verdicts: seq<bool>): map<string, bool>
    requires |pending| == |verdicts|
  {
    if pending == [] then map[]
    else
      var n := |pending| - 1;
      Verdicts(pending[..n], verdicts[..n])[pending[n] := verdicts[n]]
  }

  /** The members of `ips` that `results` marks as `bad`, in order. */
  function Marked(ips: seq<string>, results: map<string, bool>, bad: bool): seq<string> {
    if ips == [] then []
    else
      var n := |ips| - 1;
      var before := Marked(ips[..n], results, bad);
      if ips[n] in results && results[ips[n]] == bad then before + [ips[n]] else before
  }

  function Kept(ips: seq<string>, black: Check, verdicts: seq<bool>): seq<string>
    requires |verdicts| == |Unlisted(ips, black)|
  {
    var pending := Unlisted(ips, black);
    Marked(pending, Verdicts(pending, verdicts), false)
  }

  function Removed(ips: seq<string>, black: Check, verdicts: seq<bool>): seq<string>
    requires |verdicts| == |Unlisted(ips, black)|
  {
    var pending := Unlisted(ips, black);
    Listed(ips, black) + Marked(pending, Verdicts(pending, verdicts), true)
  }

  lemma {:induction false} VerdictsKeys(pending: seq<string>, verdicts: seq<bool>)
    requires |pending| == |verdicts|
    ensures forall ip :: ip in Verdicts(pending, verdicts) <==> ip in pending
  {
    if pending != [] {
      var n := |pending| - 1;
      VerdictsKeys(pending[..n], verdicts[..n]);
      assert pending == pending[..n] + [pending[n]];
    }
  }

  method Partition(ips: seq<string>, black: Check) returns (pending: seq<string>, malicious: seq<string>)
    ensures pending == Unlisted(ips, black) && malicious == Listed(ips, black)
  {
    pending, malicious := [], [];
    for i := 0 to |ips|
      invariant pending == Unlisted(ips[..i], black) && malicious == Listed(ips[..i], black)
    {
      assert ips[..i + 1][..i] == ips[..i];
      if black(ips[i]) {
        malicious := malicious + [ips[i]];
      } else {
        pending := pending + [ips[i]];
      }
    }
    assert ips[..|ips|] == ips;
  }

  method Collect(pending: seq<string>, verdicts: seq<bool>) returns (results: map<string, bool>)
    requires |verdicts| == |pending|
    ensures results == Verdicts(pending, verdicts)
  {
    results := map[];
    for i := 0 to |pending|
      invariant results == Verdicts(pending[..i], verdicts[..i])
    {
      assert pending[..i + 1][..i] == pending[..i] && verdicts[..i + 1][..i] == verdicts[..i];
      results := results[pending[i] := verdicts[i]];
    }
    assert pending[..|pending|] == pending && verdicts[..|pending|] == verdicts;
  }

  method IpPostfilter(ips: seq<string>, black: Check, verdicts: seq<bool>)
    returns (kept: seq<string>, malicious: seq<string>)
    requires |verdicts| == |Unlisted(ips, black)|
    ensures kept == Kept(ips, black, verdicts) && malicious == Removed(ips, black, verdicts)
  {
    var pending, listed := Partition(ips, black);
    malicious := listed;
    kept := [];
    if pending == [] {
      return;
    }
    var results := Collect(pending, verdicts);
    VerdictsKeys(pending, verdicts);
    for i := 0 to |pending|
      invariant kept == Marked(pending[..i], results, false)
      invariant malicious == listed + Marked(pending[..i], results, true)
    {
      assert pending[..i + 1][..i] == pending[..i];
      if results[pending[i]] {
        malicious := malicious + [pending[i]];
      } else {
        kept := kept + [pending[i]];
      }
    }
    assert pending[..|pending|] == pending;
  }

  // ----- nothing is lost, nothing is invented -----

  lemma {:induction false} ListedOrNot(ips: seq<string>, black: Check)
    ensures multiset(Unlisted(ips, black)) + multiset(Listed(ips, black)) == multiset(ips)
  {
    if ips != [] {
      var n := |ips| - 1;
      ListedOrNot(ips[..n], black);
      assert ips == ips[..n] + [ips[n]];
    }
  }

  lemma {:induction false} MarkedOrNot(ips: seq<string>, results: map<string, bool>)
    requires forall ip | ip in ips :: ip in results
    ensures multiset(Marked(ips, results, false)) + multiset(Marked(ips, results, true)) == multiset(ips)
  {
    if ips != [] {
      var n := |ips| - 1;
      assert ips == ips[..n] + [ips[n]];
      MarkedOrNot(ips[..n], results);
    }
  }

  /** Kept and removed together are the answer, duplicates included. */
  lemma SplitIsExact(ips: seq<string>, black: Check, verdicts: seq<bool>)
    requires |verdicts| == |Unlisted(ips, black)|
    ensures multiset(Kept(ips, black, verdicts)) + multiset(Removed(ips, black, verdicts)) == multiset(ips)
  {
    var pending := Unlisted(ips, black);
    ListedOrNot(ips, black);
    VerdictsKeys(pending, verdicts);
    MarkedOrNot(pending, Verdicts(pending, verdicts));
  }

  /** `s` is `whole` with some elements left out. */
  predicate InOrder(s: seq<string>, whole: seq<string>) {
    if s == [] then true
    else if whole == [] then false
    else
      var m, n := |s| - 1, |whole| - 1;
      (s[m] == whole[n] && InOrder(s[..m], whole[..n])) || InOrder(s, whole[..n])
  }

  lemma {:induction false} MarkedInOrder(ips: seq<string>, results: map<string, bool>, bad: bool)
    ensures InOrder(Marked(ips, results, bad), ips)
  {
    if ips != [] {
      var n := |ips| - 1;
      MarkedInOrder(ips[..n], results, bad);
      var before := Marked(ips[..n], results, bad);
      assert (before + [ips[n]])[..|before|] == before;
    }
  }

  lemma {:induction false} UnlistedInOrder(s: seq<string>, ips: seq<string>, black: Check)
    requires InOrder(s, Unlisted(ips, black))
    ensures InOrder(s, ips)
  {
    if ips != [] && s != [] {
      var n, m := |ips| - 1, |s| - 1;
      var before := Unlisted(ips[..n], black);
      if black(ips[n]) {
        UnlistedInOrder(s, ips[..n], black);
      } else {
        assert (before + [ips[n]])[..|before|] == before;
        if s[m] == ips[n] && InOrder(s[..m], before) {
          UnlistedInOrder(s[..m], ips[..n], black);
        } else {
          UnlistedInOrder(s, ips[..n], black);
        }
      }
    }
  }

  /** The kept addresses stand in the order of the answer. */
  lemma KeptInOrder(ips: seq<string>, black: Check, verdicts: seq<bool>)
    requires |verdicts| == |Unlisted(ips, black)|
    ensures InOrder(Kept(ips, black, verdicts), ips)
  {
    var pending := Unlisted(ips, black);
    MarkedInOrder(pending, Verdicts(pending, verdicts), false);
    UnlistedInOrder(Kept(ips, black, verdicts), ips, black);
  }

  // ----- what is kept is clean: exactly when -----

  lemma {:induction false} UnlistedMember(ips: seq<string>, black: Check, ip: string)
    ensures ip in Unlisted(ips, black) <==> ip in ips && !black(ip)
  {
    if ips != [] {
      var n := |ips| - 1;
      UnlistedMember(ips[..n], black, ip);
      assert ips == ips[..n] + [ips[n]];
    }
  }

  lemma {:induction false} MarkedMember(ips: seq<string>, results: map<string, bool>, bad: bool, ip: string)
    ensures ip in Marked(ips, results, bad) <==> ip in ips && ip in results && results[ip] == bad
  {
    if ips != [] {
      var n := |ips| - 1;
      MarkedMember(ips[..n], results, bad, ip);
      assert ips == ips[..n] + [ips[n]];
    }
  }

  /** Position `k` holds the last occurrence of `ip`. */
  predicate LastAt(pending: seq<string>, ip: string, k: int) {
    0 <= k < |pending| && pending[k] == ip && forall j | k < j < |pending| :: pending[j] != ip
  }

  lemma {:induction false} LastVerdictCounts(pending: seq<string>, verdicts: seq<bool>, ip: string, k: int)
    requires |pending| == |verdicts| && LastAt(pending, ip, k)
    ensures ip in Verdicts(pending, verdicts) && Verdicts(pending, verdicts)[ip] == verdicts[k]
  {
    var n := |pending| - 1;
    if k < n {
      assert forall j | 0 <= j < n :: pending[..n][j] == pending[j];
      LastVerdictCounts(pending[..n], verdicts[..n], ip, k);
    }
  }

  lemma {:induction false} LastExists(pending: seq<string>, ip: string) returns (k: int)
    requires ip in pending
    ensures LastAt(pending, ip, k)
  {
    var n := |pending| - 1;
    if pending[n] == ip {
      k := n;
    } else {
      assert pending == pending[..n] + [pending[n]];
      k := LastExists(pending[..n], ip);
    }
  }

  /** An address is kept exactly when it is not blacklisted and its last verdict was clean. */
  lemma KeptIsLastClean(ips: seq<string>, black: Check, verdicts: seq<bool>, ip: string)
    requires |verdicts| == |Unlisted(ips, black)|
    ensures ip in Kept(ips, black, verdicts) <==>
            exists k: int :: LastAt(Unlisted(ips, black), ip, k) && !verdicts[k]
    ensures ip in Kept(ips, black, verdicts) ==> ip in ips && !black(ip)
  {
    var pending := Unlisted(ips, black);
    UnlistedMember(ips, black, ip);
    MarkedMember(pending, Verdicts(pending, verdicts), false, ip);
    if ip in pending {
      var k := LastExists(pending, ip);
      LastVerdictCounts(pending, verdicts, ip, k);
    }
  }

  lemma {:induction false} ListedMember(ips: seq<string>, black: Check, ip: string)
    ensures ip in Listed(ips, black) <==> ip in ips && black(ip)
  {
    if ips != [] {
      var n := |ips| - 1;
      ListedMember(ips[..n], black, ip);
      assert ips == ips[..n] + [ips[n]];
    }
  }

  /** Every address of the answer is either kept or removed, and never both. */
  lemma KeptOrRemoved(ips: seq<string>, black: Check, verdicts: seq<bool>, ip: string)
    requires |verdicts| == |Unlisted(ips, black)|
    ensures ip in Removed(ips, black, verdicts) <==> ip in ips && ip !in Kept(ips, black, verdicts)
  {
    var pending := Unlisted(ips, black);
    UnlistedMember(ips, black, ip);
    ListedMember(ips, black, ip);
    VerdictsKeys(pending, verdicts);
    MarkedMember(pending, Verdicts(pending, verdicts), true, ip);
    MarkedMember(pending, Verdicts(pending, verdicts), false, ip);
  }

  /** No address that the blacklist leaves open occurs twice. */
  predicate RepeatFree(ips: seq<string>, black: Check) {
    forall i, j | 0 <= i < j < |ips| :: ips[i] == ips[j] ==> black(ips[i])
  }

  lemma DistinctAppend(s: seq<string>, x: string)
    ensures Distinct(s + [x]) <==> Distinct(s) && x !in s
  {
    var all := s + [x];
    assert forall i | 0 <= i < |s| :: all[i] == s[i];
    assert all[|s|] == x;
  }

  lemma {:induction false} UnlistedDistinct(ips: seq<string>, black: Check)
    ensures Distinct(Unlisted(ips, black)) <==> RepeatFree(ips, black)
  {
    if ips != [] {
      var n := |ips| - 1;
      var head, before := ips[..n], Unlisted(ips[..n], black);
      UnlistedDistinct(head, black);
      UnlistedMember(head, black, ips[n]);
      assert forall i | 0 <= i < n :: head[i] == ips[i];
      if !black(ips[n]) {
        DistinctAppend(before, ips[n]);
      }
    }
  }

  /** No address judged bad, in any of its queries, is kept. */
  predicate NoBadKept(ips: seq<string>, black: Check, verdicts: seq<bool>)
    requires |verdicts| == |Unlisted(ips, black)|
  {
    forall k | 0 <= k < |verdicts| && verdicts[k] :: Unlisted(ips, black)[k] !in Kept(ips, black, verdicts)
  }

  lemma DistinctKeepsNoBad(ips: seq<string>, black: Check, verdicts: seq<bool>)
    requires |verdicts| == |Unlisted(ips, black)| && RepeatFree(ips, black)
    ensures NoBadKept(ips, black, verdicts)
  {
    var pending := Unlisted(ips, black);
    UnlistedDistinct(ips, black);
    forall k | 0 <= k < |verdicts| && verdicts[k] ensures pending[k] !in Kept(ips, black, verdicts) {
      KeptIsLastClean(ips, black, verdicts, pending[k]);
    }
  }

  /** A repeated address whose first query says bad and whose last says clean gets through. */
  lemma RepeatKeepsBad(ips: seq<string>, black: Check) returns (verdicts: seq<bool>)
    requires !RepeatFree(ips, black)
    ensures |verdicts| == |Unlisted(ips, black)| && !NoBadKept(ips, black, verdicts)
  {
    var pending := Unlisted(ips, black);
    UnlistedDistinct(ips, black);
    var i, j :| 0 <= i < j < |pending| && pending[i] == pending[j];
    verdicts := seq(|pending|, k => k == i);
    var ip := pending[i];
    var last := LastExists(pending, ip);
    assert last >= j;
    KeptIsLastClean(ips, black, verdicts, ip);
    assert verdicts[i] && pending[i] in Kept(ips, black, verdicts);
  }

  /**
   The filter keeps no address that any query judged bad, for all verdicts the queries may
   return, if and only if no address left open by the blacklist occurs twice in the answer.
   */
  lemma KeptIsCleanIff(ips: seq<string>, black: Check)
    ensures (forall verdicts: seq<bool> | |verdicts| == |Unlisted(ips, black)| :: NoBadKept(ips, black, verdicts))
            <==> RepeatFree(ips, black)
  {
    if RepeatFree(ips, black) {
      forall verdicts: seq<bool> | |verdicts| == |Unlisted(ips, black)|
        ensures NoBadKept(ips, black, verdicts)
      {
        DistinctKeepsNoBad(ips, black, verdicts);
      }
    } else {
      var verdicts := RepeatKeepsBad(ips, black);
    }
  }

  // ----- the rewritten answer -----

  const A := 1
  const AAAA := 28

  /** `build_remaining_reply`: one record per kept address, nothing else. */
  function Answers(qtype: nat, kept: seq<string>): (rrs: seq<Rr>)
    ensures qtype == A || qtype == AAAA ==>
              |rrs| == |kept| && forall i | 0 <= i < |rrs| :: rrs[i] == Rr(qtype, kept[i])
    ensures qtype != A && qtype != AAAA ==> rrs == []
  {
    if qtype == A || qtype == AAAA then seq(|kept|, i requires 0 <= i < |kept| => Rr(qtype, kept[i])) else []
  }

  /** `_extract_ips`: the addresses among an answer's records of the queried type. */
  function ExtractIps(answers: seq<Rr>, qtype: nat): seq<string> {
    if answers == [] then []
    else if answers[0].rtype == qtype then [answers[0].rdata] + ExtractIps(answers[1..], qtype)
    else ExtractIps(answers[1..], qtype)
  }

  /** A rewritten answer reads back as exactly the kept addresses. */
  lemma {:induction false} RewrittenReadsBack(qtype: nat, kept: seq<string>)
    requires qtype == A || qtype == AAAA
    ensures ExtractIps(Answers(qtype, kept), qtype) == kept
  {
    if kept != [] {
      RewrittenReadsBack(qtype, kept[1..]);
      assert Answers(qtype, kept)[1..] == Answers(qtype, kept[1..]);
    }
  }

  /** The addresses of an answer are the data of its records of the queried type, in order. */
  lemma {:induction false} ExtractIpsMeaning(before: seq<Rr>, r: Rr, after: seq<Rr>, qtype: nat)
    ensures ExtractIps(before + [r] + after, qtype) ==
            ExtractIps(before, qtype) + (if r.rtype == qtype then [r.rdata] else []) + ExtractIps(after, qtype)
  {
    if before == [] {
      assert [] + [r] + after == [r] + after && ([r] + after)[1..] == after;
    } else {
      assert (before + [r] + after)[1..] == before[1..] + [r] + after;
      ExtractIpsMeaning(before[1..], r, after, qtype);
    }
  }
}
