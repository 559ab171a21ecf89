/**
 How names and addresses become keys: the domain cache, the offline lookup and first-seen
 collection forget case and trailing dots, the address cache only trims.
 */
module Keys {
  import opened Text
  import DomainLookup
  import FirstSeen
  import PtrNames
  import VC = VerdictCache

  predicate Blanks(s: string) {
    forall i | 0 <= i < |s| :: IsSpace(s[i])
  }

  predicate Dots(s: string) {
    forall i | 0 <= i < |s| :: s[i] == '.'
  }

  /** A name in any case, without blanks or dots at its ends. */
  predicate Bare(name: string) {
    name != "" && !IsSpace(name[0]) && !IsSpace(name[|name| - 1]) && name[|name| - 1] != '.'
  }

  lemma {:induction false} LeadSkipped(lead: string, s: string)
    requires Blanks(lead) && s != "" && !IsSpace(s[0])
    ensures LStrip(lead + s, IsSpace) == s
  {
    var all := lead + s;
    if lead == "" {
      assert all == s;
    } else {
      assert all[0] == lead[0] && all[1..] == lead[1..] + s;
      LeadSkipped(lead[1..], s);
    }
  }

  lemma {:induction false} TailDropped(s: string, tail: string, p: char -> bool)
    requires s != "" && !p(s[|s| - 1]) && forall i | 0 <= i < |tail| :: p(tail[i])
    ensures RStrip(s + tail, p) == s
    decreases |tail|
  {
    var all := s + tail;
    if tail == "" {
      assert all == s;
    } else {
      var n := |tail| - 1;
      assert all[|all| - 1] == tail[n] && all[..|all| - 1] == s + tail[..n];
      TailDropped(s, tail[..n], p);
    }
  }

  lemma Trimmed(lead: string, s: string, tail: string)
    requires Blanks(lead) && Blanks(tail) && s != "" && !IsSpace(s[0]) && !IsSpace(s[|s| - 1])
    ensures Strip(lead + s + tail) == s
  {
    TailDropped(lead + s, tail, IsSpace);
    LeadSkipped(lead, s);
  }

  lemma LowerDots(name: string, dots: string)
    requires Bare(name) && Dots(dots)
    ensures Lower(name + dots) == Lower(name) + dots
    ensures RStrip(Lower(name) + dots, IsDot) == Lower(name)
    ensures RStrip(name + dots, IsDot) == name
  {
    var low := Lower(name);
    assert low[|low| - 1] == LowerChar(name[|name| - 1]);
    TailDropped(low, dots, IsDot);
    TailDropped(name, dots, IsDot);
    assert Lower(name + dots) == low + dots;
  }

  /** Blanks around, trailing dots and case never make another key, in the cache or in the list lookup. */
  lemma DomainKeys(lead: string, name: string, dots: string, tail: string)
    requires Blanks(lead) && Blanks(tail) && Bare(name) && Dots(dots)
    ensures VC.DomainKey(lead + (name + dots) + tail) == Lower(name)
    ensures DomainLookup.Normalised(lead + (name + dots) + tail) == Lower(name)
  {
    var s := name + dots;
    assert s[0] == name[0] && !IsSpace(s[|s| - 1]);
    Trimmed(lead, s, tail);
    LowerDots(name, dots);
  }

  /** The address cache drops blanks around and nothing else. */
  lemma IpKeys(lead: string, ip: string, tail: string)
    requires Blanks(lead) && Blanks(tail) && ip != "" && !IsSpace(ip[0]) && !IsSpace(ip[|ip| - 1])
    ensures VC.IpKey(lead + ip + tail) == ip
  {
    Trimmed(lead, ip, tail);
  }

  /** First-seen collection stores a name without its trailing dots, in lower case. */
  lemma SeenKeys(name: string, dots: string)
    requires Bare(name) && Dots(dots)
    ensures FirstSeen.Key(name + dots) == Lower(name)
  {
    LowerDots(name, dots);
  }

  /** A reverse name may be written in any case and with trailing dots. */
  lemma ReverseKeys(name: string, dots: string)
    requires Bare(name) && Dots(dots)
    ensures PtrNames.ExtractPtrIp(name + dots) == PtrNames.ExtractPtrIp(Lower(name))
  {
    var low := Lower(name);
    LowerDots(name, dots);
    LowerDots(name, "");
    assert low + "" == low && Lower(low) == low;
    assert PtrNames.Canonical(name + dots) == low == PtrNames.Canonical(low);
  }

  /** Lower case, letter by letter: only A to Z change, each to its small letter. */
  lemma LowerMeans(s: string, i: nat)
    requires i < |s|
    ensures 'A' <= s[i] <= 'Z' ==> Lower(s)[i] as int == s[i] as int + ('a' as int - 'A' as int)
    ensures !('A' <= s[i] <= 'Z') ==> Lower(s)[i] == s[i]
  {
  }
}
