/**
 The spellings a list may use for a name all normalise alike: adblock rules, URLs with plain
 or defanged schemes, ports and paths, hosts lines and csv lines.
 */
module DomainListForms {
  import opened Common
  import opened Text
  import opened DomainList

  lemma {:induction false} RStripKeepsHead(head: string, tail: string)
    requires head != "" && !IsSpace(head[|head| - 1])
    ensures RStrip(head + tail, IsSpace) == head + RStrip(tail, IsSpace)
    decreases |tail|
  {
    var s := head + tail;
    if tail == "" {
      assert s == head;
    } else if IsSpace(tail[|tail| - 1]) {
      assert s[..|s| - 1] == head + tail[..|tail| - 1];
      RStripKeepsHead(head, tail[..|tail| - 1]);
    }
  }

  /** Trimming a line that opens with a visible, lower-case head only touches what follows it. */
  lemma TrimKeepsHead(head: string, tail: string)
    requires head != "" && !IsSpace(head[0]) && !IsSpace(head[|head| - 1])
    requires Lower(head) == head
    ensures Lower(Strip(head + tail)) == head + Lower(RStrip(tail, IsSpace))
  {
    var t := RStrip(tail, IsSpace);
    RStripKeepsHead(head, tail);
    assert (head + t)[0] == head[0];
    assert Strip(head + tail) == head + t;
    forall i | 0 <= i < |head + t| ensures Lower(head + t)[i] == (head + Lower(t))[i] {
      if i < |head| { assert head[i] == Lower(head)[i] == LowerChar(head[i]); }
    }
  }

  // ----- case -----

  lemma LowerConcat(a: string, b: string)
    ensures Lower(a + b) == Lower(a) + Lower(b)
  {
    var s := a + b;
    forall i | 0 <= i < |s| ensures Lower(s)[i] == (Lower(a) + Lower(b))[i] {
      assert s[i] == if i < |a| then a[i] else b[i - |a|];
    }
  }

  lemma {:induction false} RStripLower(s: string)
    ensures RStrip(Lower(s), IsSpace) == Lower(RStrip(s, IsSpace))
    decreases |s|
  {
    if s != [] && IsSpace(s[|s| - 1]) {
      RStripLower(s[..|s| - 1]);
      assert Lower(s)[..|s| - 1] == Lower(s[..|s| - 1]);
    }
  }

  /** The first `k` characters are exactly the leading blanks. */
  predicate LeadsTo(s: string, k: nat) {
    k <= |s| && (forall i | 0 <= i < k :: IsSpace(s[i])) && (k < |s| ==> !IsSpace(s[k]))
  }

  lemma {:induction false} LStripAt(s: string, k: nat)
    requires LeadsTo(s, k)
    ensures LStrip(s, IsSpace) == s[k..]
  {
    if k > 0 {
      var tail := s[1..];
      LStripAt(tail, k - 1);
      assert tail[k - 1..] == s[k..];
    }
  }

  lemma Leading(s: string) returns (k: nat)
    ensures LeadsTo(s, k)
  {
    k := 0;
    while k < |s| && IsSpace(s[k])
      invariant k <= |s| && forall i | 0 <= i < k :: IsSpace(s[i])
    {
      k := k + 1;
    }
  }

  lemma LowerLeads(s: string, k: nat)
    requires LeadsTo(s, k)
    ensures LeadsTo(Lower(s), k) && Lower(s)[k..] == Lower(s[k..])
  {
  }

  lemma TakenAway(s: string, low: string, k: nat, stripped: string, lowStripped: string)
    requires k <= |s| && k <= |low| && stripped == s[k..] && lowStripped == low[k..] && low[k..] == Lower(s[k..])
    ensures lowStripped == Lower(stripped)
  {
  }

  lemma LStripLower(s: string)
    ensures LStrip(Lower(s), IsSpace) == Lower(LStrip(s, IsSpace))
  {
    var k := Leading(s);
    var low := Lower(s);
    LowerLeads(s, k);
    var a, b := LStrip(s, IsSpace), LStrip(low, IsSpace);
    assert a == s[k..] by { LStripAt(s, k); }
    assert b == low[k..] by { LStripAt(low, k); }
    TakenAway(s, low, k, a, b);
  }

  lemma LowerTwice(s: string)
    ensures Lower(Lower(s)) == Lower(s)
  {
  }

  /** Upper and lower case are the same to the normaliser, in every part of an entry. */
  lemma CaseIsIgnored(isIp: string -> bool, local: set<string>, raw: string)
    ensures NormaliseWith(isIp, local, Lower(raw)) == NormaliseWith(isIp, local, raw)
  {
    RStripLower(raw);
    LStripLower(RStrip(raw, IsSpace));
    LowerTwice(Strip(raw));
  }

  lemma BeforeFirst(a: string, c: char, b: string)
    requires Lacks(a, c)
    ensures Before(a + [c] + b, c) == a
  {
    var s := a + [c] + b;
    assert s[|a|] == c && forall k | 0 <= k < |a| :: s[k] == a[k];
    assert forall k | |a| < k <= |s| :: s[..k][|a|] == c;
  }

  lemma DomainNormalises(isIp: string -> bool, local: set<string>, d: string)
    requires IsDomain(d)
    ensures NormaliseWith(isIp, local, d) == CheckHost(isIp, local, d)
  {
    HostNormalises(isIp, local, d);
  }

  function Adblock(d: string): string {
    "||" + d + "^"
  }

  lemma AdblockCase(d: string)
    ensures Lower(Adblock(d)) == Adblock(Lower(d))
  {
    var low, all := Lower(Adblock(d)), Adblock(Lower(d));
    assert |low| == |all| == |d| + 3;
    forall i | 0 <= i < |low| ensures low[i] == all[i] {
      if 2 <= i < |d| + 2 { assert Adblock(d)[i] == d[i - 2] && all[i] == Lower(d)[i - 2]; }
    }
  }

  /** An adblock rule stands for its name, whatever its case. */
  lemma AdblockEntry(isIp: string -> bool, local: set<string>, d: string)
    requires IsDomain(Lower(d))
    ensures NormaliseWith(isIp, local, Adblock(d)) == NormaliseWith(isIp, local, d)
  {
    LowerAdblock(isIp, local, Lower(d));
    AdblockCase(d);
    CaseIsIgnored(isIp, local, Adblock(d));
    CaseIsIgnored(isIp, local, d);
  }

  lemma LowerAdblock(isIp: string -> bool, local: set<string>, d: string)
    requires IsDomain(d)
    ensures NormaliseWith(isIp, local, Adblock(d)) == NormaliseWith(isIp, local, d)
  {
    var head := Adblock(d);
    assert Lower(Strip(head)) == head by {
      assert forall i | 2 <= i < |head| - 1 :: head[i] == d[i - 2];
      LowerOnLower(head);
      TrimKeepsHead(head, "");
      assert head + "" == head && RStrip("", IsSpace) == "";
    }
    assert DropAdblock(head) == d by {
      assert head[2..] == d + "^" && StartsWith(head, "||");
      assert (d + "^")[|d|..] == "^";
    }
    assert DropAdblock(d) == d by { NoAdblock(d); }
    HostNormalises(isIp, local, d);
    HostIsHost(d);
    assert HostPart(head) == HostPart(d);
  }

  predicate IsScheme(p: string) {
    p == "https://" || p == "http://" || p == "hxxps://" || p == "hxxp://"
  }

  lemma SchemeDropped(p: string, rest: string)
    requires IsScheme(p)
    ensures DropScheme(p + rest) == rest && p[0] == 'h' && Lower(p) == p
  {
    var s := p + rest;
    assert s[|p|..] == rest && forall i | 0 <= i < |p| :: s[i] == p[i];
    if p == "https://" {
      assert StartsWith(s, "https://");
    } else if p == "http://" {
      assert s[4] == ':' && StartsWith(s, "http://");
      assert !StartsWith(s, "https://") by { assert "https://"[4] == 's'; }
    } else if p == "hxxps://" {
      NotHttp(s);
      assert StartsWith(s, "hxxps://");
    } else {
      NotHttp(s);
      assert s[4] == ':' && StartsWith(s, "hxxp://");
      assert !StartsWith(s, "hxxps://") by { assert "hxxps://"[4] == 's'; }
    }
  }

  lemma NotHttp(s: string)
    requires |s| > 1 && s[1] == 'x'
    ensures !StartsWith(s, "https://") && !StartsWith(s, "http://")
  {
    assert "https://"[1] == 't' && "http://"[1] == 't';
  }

  // ----- URLs -----

  /** The host, with a port if one is given. */
  function Authority(d: string, port: Option<string>): string {
    match port
    case None => d
    case Some(p) => d + [':'] + p
  }

  predicate UrlParts(scheme: string, d: string, port: Option<string>) {
    && IsScheme(scheme) && IsDomain(d)
    && (port.Some? ==> forall i | 0 <= i < |port.value| :: IsDigit(port.value[i]))
  }

  /** What precedes the path: scheme, authority and, if a path follows, its slash. */
  function UrlHead(scheme: string, authority: string, slash: bool): string {
    scheme + (authority + (if slash then ['/'] else []))
  }

  function Url(scheme: string, d: string, port: Option<string>, path: Option<string>): string {
    UrlHead(scheme, Authority(d, port), path.Some?) + (if path.Some? then path.value else "")
  }

  /** Lower case, no slash, visible at its end. */
  predicate AuthorityLike(a: string) {
    a != "" && Lower(a) == a && Lacks(a, '/') && !IsSpace(a[|a| - 1]) && a[|a| - 1] != '^'
  }

  lemma LowerAppend(a: string, b: string)
    requires Lower(a) == a && Lower(b) == b
    ensures Lower(a + b) == a + b
  {
    LowerConcat(a, b);
  }

  lemma PortShape(d: string, p: string)
    requires AuthorityLike(d) && forall i | 0 <= i < |p| :: IsDigit(p[i])
    ensures AuthorityLike(Authority(d, Some(p)))
  {
    var tail := [':'] + p;
    LowerOnLower(tail);
    LowerAppend(d, tail);
    assert d + tail == Authority(d, Some(p));
  }

  lemma AuthorityShape(d: string, port: Option<string>)
    requires IsDomain(d) && (port.Some? ==> forall i | 0 <= i < |port.value| :: IsDigit(port.value[i]))
    ensures AuthorityLike(Authority(d, port))
  {
    HostIsLower(d);
    HostLacks(d, '/');
    if port.Some? { PortShape(d, port.value); }
  }

  lemma PortDropped(d: string, port: Option<string>)
    requires IsDomain(d)
    ensures DropPort(Authority(d, port)) == d
  {
    var a := Authority(d, port);
    assert a[0] == d[0] && a[0] != '[';
    HostLacks(d, ':');
    if port.Some? { BeforeFirst(d, ':', port.value); }
  }

  lemma AuthorityIsHost(d: string, port: Option<string>)
    requires IsDomain(d)
    ensures Strip(RStrip(DropPort(Authority(d, port)), IsDot)) == d
  {
    PortDropped(d, port);
    HostIsStripped(d);
  }

  lemma HeadShape(scheme: string, a: string, slash: bool)
    requires IsScheme(scheme) && AuthorityLike(a)
    ensures var head := UrlHead(scheme, a, slash);
            && head != "" && head[0] == 'h' && Lower(head) == head
            && !IsSpace(head[|head| - 1]) && head[|head| - 1] != '^'
  {
    SchemeDropped(scheme, "");
    var sep := if slash then ['/'] else [];
    LowerAppend(a, sep);
    LowerAppend(scheme, a + sep);
  }

  /** An adblock mark at the end of the path is all that can go. */
  lemma CaretDropped(head: string, t: string) returns (t': string)
    requires head != "" && head[0] != '|' && head[|head| - 1] != '^'
    ensures DropAdblock(head + t) == head + t' && (t == "" ==> t' == "")
  {
    var s := head + t;
    assert s[0] == head[0];
    if EndsWith(s, "^") {
      assert s[|s| - 1] == s[|s| - 1..][0] == '^';
      t' := t[..|t| - 1];
      assert s[..|s| - 1] == head + t';
    } else {
      t' := t;
    }
  }

  lemma PathDropped(a: string, slash: bool, t: string)
    requires Lacks(a, '/') && (!slash ==> t == "")
    ensures Before(a + ((if slash then ['/'] else []) + t), '/') == a
  {
    if slash {
      assert a + (['/'] + t) == a + ['/'] + t;
      BeforeFirst(a, '/', t);
    } else {
      assert a + ([] + t) == a;
    }
  }

  lemma Regroup(a: string, b: string, c: string, d: string)
    ensures a + (b + c) + d == a + (b + (c + d))
  {
  }

  lemma HostSteps(s: string, unmarked: string, rest: string, authority: string)
    requires DropAdblock(s) == unmarked && DropScheme(unmarked) == rest && Before(rest, '/') == authority
    ensures HostPart(s) == Strip(RStrip(DropPort(authority), IsDot))
  {
  }

  lemma UrlHost(scheme: string, a: string, slash: bool, t: string)
    requires IsScheme(scheme) && AuthorityLike(a) && (!slash ==> t == "")
    ensures HostPart(UrlHead(scheme, a, slash) + t) == Strip(RStrip(DropPort(a), IsDot))
  {
    var head, sep := UrlHead(scheme, a, slash), if slash then ['/'] else [];
    HeadShape(scheme, a, slash);
    var t' := CaretDropped(head, t);
    var rest := a + (sep + t');
    Regroup(scheme, a, sep, t');
    assert DropScheme(scheme + rest) == rest by { SchemeDropped(scheme, rest); }
    assert Before(rest, '/') == a by { PathDropped(a, slash, t'); }
    HostSteps(head + t, scheme + rest, rest, a);
  }

  lemma NormaliseSteps(isIp: string -> bool, local: set<string>, raw: string, s: string, host: string)
    requires Lower(Strip(raw)) == s && !Blank(s) && HostPart(s) == host
    ensures NormaliseWith(isIp, local, raw) == CheckHost(isIp, local, host)
  {
  }

  lemma HeadTrimmed(head: string, tail: string)
    requires head != "" && head[0] == 'h' && Lower(head) == head && !IsSpace(head[|head| - 1])
    ensures var t := Lower(RStrip(tail, IsSpace)); Lower(Strip(head + tail)) == head + t && !Blank(head + t)
  {
    TrimKeepsHead(head, tail);
    assert (head + Lower(RStrip(tail, IsSpace)))[0] == head[0];
  }

  lemma LowerUrl(isIp: string -> bool, local: set<string>,
                 scheme: string, d: string, port: Option<string>, path: Option<string>)
    requires UrlParts(scheme, d, port)
    ensures NormaliseWith(isIp, local, Url(scheme, d, port, path)) == NormaliseWith(isIp, local, d)
  {
    var a, slash := Authority(d, port), path.Some?;
    var head, tail := UrlHead(scheme, a, slash), if path.Some? then path.value else "";
    var t := Lower(RStrip(tail, IsSpace));
    assert Lower(Strip(head + tail)) == head + t && !Blank(head + t) by {
      AuthorityShape(d, port);
      HeadShape(scheme, a, slash);
      HeadTrimmed(head, tail);
    }
    assert HostPart(head + t) == d by {
      AuthorityShape(d, port);
      UrlHost(scheme, a, slash, t);
      AuthorityIsHost(d, port);
    }
    NormaliseSteps(isIp, local, head + tail, head + t, d);
    DomainNormalises(isIp, local, d);
  }

  lemma AuthorityCase(d: string, port: Option<string>)
    requires port.Some? ==> forall i | 0 <= i < |port.value| :: IsDigit(port.value[i])
    ensures Lower(Authority(d, port)) == Authority(Lower(d), port)
  {
    if port.Some? {
      var tail := [':'] + port.value;
      LowerOnLower(tail);
      LowerConcat(d, tail);
      assert d + tail == Authority(d, port) && Lower(d) + tail == Authority(Lower(d), port);
    }
  }

  lemma HeadCase(scheme: string, a: string, slash: bool)
    ensures Lower(UrlHead(scheme, a, slash)) == UrlHead(Lower(scheme), Lower(a), slash)
  {
    var sep := if slash then ['/'] else [];
    assert Lower(sep) == sep;
    LowerConcat(a, sep);
    LowerConcat(scheme, a + sep);
  }

  function LowerPath(path: Option<string>): Option<string> {
    if path.Some? then Some(Lower(path.value)) else None
  }

  lemma UrlCase(scheme: string, d: string, port: Option<string>, path: Option<string>)
    requires port.Some? ==> forall i | 0 <= i < |port.value| :: IsDigit(port.value[i])
    ensures Lower(Url(scheme, d, port, path)) == Url(Lower(scheme), Lower(d), port, LowerPath(path))
  {
    AuthorityCase(d, port);
    HeadCase(scheme, Authority(d, port), path.Some?);
    LowerConcat(UrlHead(scheme, Authority(d, port), path.Some?), if path.Some? then path.value else "");
  }

  /** A URL in any case, defanged or not, with or without port and path, stands for its host. */
  lemma UrlEntry(isIp: string -> bool, local: set<string>,
                 scheme: string, d: string, port: Option<string>, path: Option<string>)
    requires UrlParts(Lower(scheme), Lower(d), port)
    ensures NormaliseWith(isIp, local, Url(scheme, d, port, path)) == NormaliseWith(isIp, local, d)
  {
    LowerUrl(isIp, local, Lower(scheme), Lower(d), port, LowerPath(path));
    UrlCase(scheme, d, port, path);
    CaseIsIgnored(isIp, local, Url(scheme, d, port, path));
    CaseIsIgnored(isIp, local, d);
  }

  // ----- bracketed literals -----

  predicate Opens(s: string, c: char) { s != "" && s[0] == c }

  lemma BeforeOpens(s: string, c: char, stop: char)
    requires Opens(s, c) && c != stop
    ensures Opens(Before(s, stop), c)
  {
  }

  lemma {:induction false} RStripOpens(s: string, c: char, p: char -> bool)
    requires Opens(s, c) && !p(c)
    ensures Opens(RStrip(s, p), c)
    decreases |s|
  {
    if p(s[|s| - 1]) {
      RStripOpens(s[..|s| - 1], c, p);
    }
  }

  lemma StripOpens(s: string, c: char)
    requires Opens(s, c) && !IsSpace(c)
    ensures Opens(Strip(s), c)
  {
    RStripOpens(s, c, IsSpace);
  }

  lemma PortOpens(s: string)
    requires Opens(s, '[')
    ensures Opens(DropPort(s), '[')
  {
    BeforeOpens(s, '[', ']');
    BeforeOpens(s, '[', ':');
  }

  /** What is left of an entry when the test for a bracket is made. */
  function BeforePath(s: string): string {
    Before(DropScheme(DropAdblock(s)), '/')
  }

  lemma BracketStays(s: string)
    requires Opens(BeforePath(s), '[')
    ensures Opens(HostPart(s), '[')
  {
    var host := DropPort(BeforePath(s));
    assert Opens(host, '[') by { PortOpens(BeforePath(s)); }
    assert Opens(RStrip(host, IsDot), '[') by { RStripOpens(host, '[', IsDot); }
    StripOpens(RStrip(host, IsDot), '[');
  }

  lemma BracketIsNoDomain(host: string)
    requires Opens(host, '[')
    ensures !IsDomain(host)
  {
    assert !IsAlNum(host[0]);
  }

  lemma BracketFails(isIp: string -> bool, local: set<string>, host: string)
    requires Opens(host, '[')
    ensures CheckHost(isIp, local, host) == None
  {
    BracketIsNoDomain(host);
    PlainHostKept(host);
  }

  /**
   The branch for bracketed literals never yields an entry: whatever marks, scheme and path
   surround it, the opening bracket stays and the name pattern refuses it.
   */
  lemma BracketedIsRejected(isIp: string -> bool, local: set<string>, raw: string)
    requires StartsWith(BeforePath(Lower(Strip(raw))), "[")
    ensures NormaliseWith(isIp, local, raw) == None
  {
    var s := Lower(Strip(raw));
    BracketStays(s);
    BracketFails(isIp, local, HostPart(s));
  }

  // ----- what a name comes to -----

  /** What a hosts file lists for the machine itself. */
  predicate OwnName(d: string) {
    || d == "localhost" || d == "localhost.localdomain" || d == "localhost.local" || d == "broadcasthost"
    || d == "ip6-localhost" || d == "ip6-loopback" || d == "::1" || d == "fe80::1"
    || d == "0.0.0.0" || d == "127.0.0.1" || d == "255.255.255.255"
  }

  lemma OwnNames(d: string)
    ensures d in LOCAL_ONLY <==> OwnName(d)
  {
  }

  lemma LowerName(isIp: string -> bool, d: string)
    requires IsDomain(d)
    ensures Normalise(isIp, d) == if |d| > 253 || isIp(d) || d in LOCAL_ONLY then None else Some(d)
  {
    HostNormalises(isIp, LOCAL_ONLY, d);
    NameChecks(isIp, LOCAL_ONLY, d);
  }

  /** A name of proper labels is kept unless it is too long, an address or the machine's own; then it is dropped. */
  lemma NameEntry(isIp: string -> bool, name: string)
    requires IsDomain(Lower(name))
    ensures Normalise(isIp, name) ==
            if |name| > 253 || isIp(Lower(name)) || OwnName(Lower(name)) then None else Some(Lower(name))
  {
    var d := Lower(name);
    assert Normalise(isIp, name) == Normalise(isIp, d) by { CaseIsIgnored(isIp, LOCAL_ONLY, name); }
    assert d in LOCAL_ONLY <==> OwnName(d) by { OwnNames(d); }
    LowerName(isIp, d);
  }

  lemma NameChecks(isIp: string -> bool, local: set<string>, d: string)
    requires IsDomain(d)
    ensures CheckHost(isIp, local, d) == if |d| > 253 || isIp(d) || d in local then None else Some(d)
  {
    DomainHasNoWildcard(d);
  }

  /** A wildcard entry stands for the name behind the star. */
  lemma WildcardEntry(isIp: string -> bool, local: set<string>, d: string)
    requires IsDomain(d) && |d| <= 251 && !isIp(d) && "*." + d !in local
    ensures NormaliseWith(isIp, local, "*." + d) == Some(d)
  {
    var host := "*." + d;
    assert forall i | 2 <= i < |host| :: host[i] == d[i - 2];
    assert HostLike(host);
    assert DropWildcard(host) == d by {
      assert host[2..] == d && StartsWith(host, "*.");
      NoStrip(d, IsStarOrDot);
    }
    HostNormalises(isIp, local, host);
  }

  /** Blank lines and comments yield nothing. */
  lemma CommentEntry(isIp: string -> bool, local: set<string>, raw: string)
    requires Strip(raw) == "" || Strip(raw)[0] == '#'
    ensures NormaliseWith(isIp, local, raw) == None
    ensures forall layout: Format :: LineDomain(isIp, layout, raw) == None
  {
    var s := Strip(raw);
    assert s != "" ==> Lower(s)[0] == LowerChar(s[0]);
  }
}
