/**
 Parsing a downloaded domain list: what one line normalises to, the plain, hosts and csv
 layouts, and first-occurrence de-duplication. `isIp` stands for the library's address test.
 */
module DomainList {
  import opened Common
  import opened Text

  // ----- one entry -----

  const LOCAL_ONLY: set<string> := {
    "localhost", "localhost.localdomain", "broadcasthost", "0.0.0.0", "127.0.0.1", "255.255.255.255",
    "::1", "fe80::1", "localhost.local", "ip6-localhost", "ip6-loopback"
  }

  predicate IsAlNum(c: char) { 'a' <= c <= 'z' || IsDigit(c) }

  predicate IsStarOrDot(c: char) { c == '*' || c == '.' }

  /** A dot inside the name stands between letters or digits. */
  predicate DotFits(s: string, i: nat)
    requires 0 < i < |s| - 1
  {
    s[i] == '.' ==> IsAlNum(s[i - 1]) && IsAlNum(s[i + 1])
  }

  /** The `_DOMAIN_RE` pattern: dot-separated labels of letters, digits and inner hyphens. */
  predicate IsDomain(s: string) {
    && s != ""
    && (forall i | 0 <= i < |s| :: IsAlNum(s[i]) || s[i] == '-' || s[i] == '.')
    && IsAlNum(s[0]) && IsAlNum(s[|s| - 1])
    && (forall i | 0 < i < |s| - 1 :: DotFits(s, i))
  }

  function Drop(s: string, prefix: string): string {
    if StartsWith(s, prefix) then s[|prefix|..] else s
  }

  function DropAdblock(s: string): string {
    var t := Drop(s, "||");
    if EndsWith(t, "^") then t[..|t| - 1] else t
  }

  function DropScheme(s: string): string {
    if StartsWith(s, "https://") then s[8..]
    else if StartsWith(s, "http://") then s[7..]
    else if StartsWith(s, "hxxps://") then s[8..]
    else if StartsWith(s, "hxxp://") then s[7..]
    else s
  }

  function DropPort(s: string): string {
    if StartsWith(s, "[") then Before(s, ']') else Before(s, ':')
  }

  /** The host part of an entry: no markup, scheme, path, port or trailing dots. */
  function HostPart(s: string): string {
    Strip(RStrip(DropPort(Before(DropScheme(DropAdblock(s)), '/')), IsDot))
  }

  function DropWildcard(s: string): string {
    LStrip(Drop(s, "*."), IsStarOrDot)
  }

  function CheckHost(isIp: string -> bool, local: set<string>, host: string): Option<string> {
    if host == "" || |host| > 253 || host in local then None
    else
      var name := DropWildcard(host);
      if isIp(name) || !IsDomain(name) then None else Some(name)
  }

  predicate Blank(s: string) { s == "" || s[0] == '#' }

  function NormaliseWith(isIp: string -> bool, local: set<string>, raw: string): Option<string> {
    var s := Lower(Strip(raw));
    if Blank(s) then None else CheckHost(isIp, local, HostPart(s))
  }

  function Normalise(isIp: string -> bool, raw: string): Option<string> {
    NormaliseWith(isIp, LOCAL_ONLY, raw)
  }

  // ----- what comes out is already normal -----

  predicate Lacks(s: string, c: char) {
    forall i | 0 <= i < |s| :: s[i] != c
  }

  /** Only name characters and stars, with a letter or digit at the end. */
  predicate HostLike(s: string) {
    && s != ""
    && (forall i | 0 <= i < |s| :: IsAlNum(s[i]) || s[i] == '-' || IsStarOrDot(s[i]))
    && IsAlNum(s[|s| - 1])
  }

  lemma HostIsStripped(s: string)
    requires HostLike(s)
    ensures Strip(s) == s && RStrip(s, IsDot) == s
  {
    var first, last := s[0], s[|s| - 1];
    assert !IsSpace(first) && !IsSpace(last) && !IsDot(last);
    NoStrip(s, IsSpace);
    assert RStrip(s, IsDot) == s;
  }

  lemma HostIsLower(s: string)
    requires HostLike(s)
    ensures Lower(s) == s
  {
    LowerOnLower(s);
  }

  lemma HostLacks(s: string, c: char)
    requires HostLike(s) && !IsAlNum(c) && c != '-' && !IsStarOrDot(c)
    ensures Lacks(s, c) && Before(s, c) == s
  {
  }

  lemma LacksPrefix(s: string, prefix: string, i: nat)
    requires i < |prefix| && Lacks(s, prefix[i])
    ensures !StartsWith(s, prefix)
  {
  }

  lemma NoScheme(s: string)
    requires Lacks(s, ':')
    ensures DropScheme(s) == s
  {
    LacksPrefix(s, "https://", 5);
    LacksPrefix(s, "http://", 4);
    LacksPrefix(s, "hxxps://", 5);
    LacksPrefix(s, "hxxp://", 4);
  }

  lemma NoAdblock(s: string)
    requires HostLike(s)
    ensures DropAdblock(s) == s
  {
    HostLacks(s, '|');
    LacksPrefix(s, "||", 0);
  }

  lemma HostIsHost(s: string)
    requires HostLike(s)
    ensures HostPart(s) == s
  {
    HostIsStripped(s);
    NoAdblock(s);
    HostLacks(s, '/');
    HostLacks(s, ':');
    HostLacks(s, '[');
    NoScheme(s);
    LacksPrefix(s, "[", 0);
  }

  lemma DomainHasNoWildcard(s: string)
    requires IsDomain(s)
    ensures DropWildcard(s) == s
  {
    assert Lacks(s, '*');
    LacksPrefix(s, "*.", 0);
    NoStrip(s, IsStarOrDot);
  }

  lemma HostTrims(host: string)
    requires HostLike(host)
    ensures Lower(Strip(host)) == host && !Blank(host)
  {
    HostIsStripped(host);
    HostIsLower(host);
    assert host[0] != '#';
  }

  lemma HostNormalises(isIp: string -> bool, local: set<string>, host: string)
    requires HostLike(host)
    ensures NormaliseWith(isIp, local, host) == CheckHost(isIp, local, host)
  {
    HostTrims(host);
    HostIsHost(host);
  }

  lemma CheckedFacts(isIp: string -> bool, local: set<string>, host: string, d: string)
    requires CheckHost(isIp, local, host) == Some(d)
    ensures IsDomain(d) && |d| <= 253 && !isIp(d)
    ensures host != "" && host !in local && d == DropWildcard(host)
  {
  }

  lemma DomainChecks(isIp: string -> bool, local: set<string>, d: string)
    requires IsDomain(d) && |d| <= 253 && !isIp(d)
    ensures CheckHost(isIp, local, d) == if d in local then None else Some(d)
  {
    DomainHasNoWildcard(d);
  }

  lemma CheckedAgain(isIp: string -> bool, local: set<string>, host: string, d: string)
    requires CheckHost(isIp, local, host) == Some(d)
    ensures IsDomain(d) && |d| <= 253 && !isIp(d)
    ensures CheckHost(isIp, local, d) == if d in local then None else Some(d)
    ensures d in local ==> IsStarOrDot(host[0])
  {
    CheckedFacts(isIp, local, host, d);
    PlainHostKept(host);
    DomainChecks(isIp, local, d);
  }

  lemma PlainHostKept(host: string)
    ensures host != "" && !IsStarOrDot(host[0]) ==> DropWildcard(host) == host
  {
    assert StartsWith(host, "*.") ==> host[0] == '*';
  }

  /**
   Normalising twice: an output is a fixed point exactly when it is not a local-only name,
   and a local-only output can only come from a host that began with "*" or ".".
   */
  lemma NormaliseTwice(isIp: string -> bool, local: set<string>, raw: string)
    ensures var r := NormaliseWith(isIp, local, raw);
            r.Some? ==>
              && IsDomain(r.value) && |r.value| <= 253 && !isIp(r.value)
              && NormaliseWith(isIp, local, r.value) == (if r.value in local then None else r)
              && (r.value in local ==> IsStarOrDot(HostPart(Lower(Strip(raw)))[0]))
  {
    var r := NormaliseWith(isIp, local, raw);
    if r.Some? {
      CheckedAgain(isIp, local, HostPart(Lower(Strip(raw))), r.value);
      HostNormalises(isIp, local, r.value);
    }
  }

  /** The exception is real: every local-only host name slips through behind a "*.". */
  lemma LocalOnlySlipsThrough(isIp: string -> bool, local: set<string>, d: string)
    requires IsDomain(d) && !isIp(d) && |d| <= 251 && d in local && "*." + d !in local
    ensures NormaliseWith(isIp, local, "*." + d) == Some(d)
    ensures NormaliseWith(isIp, local, d) == None
  {
    var host := "*." + d;
    assert forall i | 2 <= i < |host| :: host[i] == d[i - 2];
    assert HostLike(host);
    assert DropWildcard(host) == d by {
      assert host[2..] == d && StartsWith(host, "*.");
      NoStrip(d, IsStarOrDot);
    }
    HostNormalises(isIp, local, host);
    HostNormalises(isIp, local, d);
  }

  // ----- one line -----

  datatype Format = Plain | Hosts | Csv | Auto

  function WordLength(s: string): (n: nat)
    ensures n <= |s| && (s != "" && !IsSpace(s[0]) ==> n > 0)
  {
    if s == "" || IsSpace(s[0]) then 0 else 1 + WordLength(s[1..])
  }

  /** `s.split()`. */
  function Words(s: string): seq<string>
    decreases |s|
  {
    var t := LStrip(s, IsSpace);
    if t == "" then [] else [t[..WordLength(t)]] + Words(t[WordLength(t)..])
  }

  function ValueOf(format: Format, line: string): Option<string> {
    var raw := Strip(line);
    if Blank(raw) then None
    else match format
      case Hosts =>
        var parts := Words(raw);
        if |parts| < 2 || StartsWith(Strip(parts[1]), "#") then None else Some(Strip(parts[1]))
      case Csv => Some(Strip(Before(raw, ',')))
      case _ => Some(raw)
  }

  function LineDomain(isIp: string -> bool, format: Format, line: string): Option<string> {
    match ValueOf(format, line)
    case None => None
    case Some(value) => Normalise(isIp, value)
  }

  /** The layout the first significant line suggests. */
  function Guess(isIp: string -> bool, line: string): Format {
    var words := Words(line);
    var first := if words == [] then "" else words[0];
    if ',' in line && !isIp(Before(first, ',')) then Csv
    else if isIp(first) then Hosts
    else Plain
  }

  function Detect(isIp: string -> bool, lines: seq<string>): Format {
    if lines == [] then Auto
    else if Blank(Strip(lines[0])) then Detect(isIp, lines[1..])
    else Guess(isIp, Strip(lines[0]))
  }

  function Effective(isIp: string -> bool, lines: seq<string>, format: Format): Format {
    if format == Auto then Detect(isIp, if |lines| <= 50 then lines else lines[..50]) else format
  }

  lemma {:induction false} DetectFirst(isIp: string -> bool, lines: seq<string>, k: nat)
    requires k <= |lines| && forall i | 0 <= i < k :: Blank(Strip(lines[i]))
    requires k < |lines| ==> !Blank(Strip(lines[k]))
    ensures Detect(isIp, lines) == if k < |lines| then Guess(isIp, Strip(lines[k])) else Auto
    decreases k
  {
    if k > 0 {
      DetectFirst(isIp, lines[1..], k - 1);
    }
  }

  /** The first line that is neither blank nor a comment decides, if it is among the first 50. */
  lemma LayoutIsFirstSignificant(isIp: string -> bool, lines: seq<string>, k: nat)
    requires k < |lines| && !Blank(Strip(lines[k])) && forall i | 0 <= i < k :: Blank(Strip(lines[i]))
    ensures Effective(isIp, lines, Auto) == if k < 50 then Guess(isIp, Strip(lines[k])) else Auto
  {
    var head := if |lines| <= 50 then lines else lines[..50];
    DetectFirst(isIp, head, if k < 50 then k else 50);
  }

  // ----- the whole list -----

  /** What reading a line yields, for every line in order. */
  function ReadAll(read: string -> Option<string>, lines: seq<string>): seq<string> {
    if lines == [] then []
    else
      var n := |lines| - 1;
      var before := ReadAll(read, lines[..n]);
      match read(lines[n])
      case None => before
      case Some(d) => before + [d]
  }

  function FirstUses(ds: seq<string>): seq<string> {
    if ds == [] then []
    else
      var n := |ds| - 1;
      var before := FirstUses(ds[..n]);
      if ds[n] in before then before else before + [ds[n]]
  }

  function Reader(isIp: string -> bool, format: Format): string -> Option<string> {
    line => LineDomain(isIp, format, line)
  }

  function Parsed(isIp: string -> bool, lines: seq<string>, format: Format): seq<string> {
    FirstUses(ReadAll(Reader(isIp, Effective(isIp, lines, format)), lines))
  }

  method DetectFormat(isIp: string -> bool, head: seq<string>) returns (format: Format)
    ensures format == Detect(isIp, head)
  {
    for i := 0 to |head|
      invariant Detect(isIp, head) == Detect(isIp, head[i..])
    {
      assert head[i..][0] == head[i] && head[i..][1..] == head[i + 1..];
      var t := Strip(head[i]);
      if Blank(t) {
        continue;
      }
      return Guess(isIp, t);
    }
    return Auto;
  }

  method ReadLines(read: string -> Option<string>, lines: seq<string>) returns (out: seq<string>)
    ensures out == FirstUses(ReadAll(read, lines))
  {
    out := [];
    var seen := {};
    ghost var all := [];
    for i := 0 to |lines|
      invariant all == ReadAll(read, lines[..i]) && out == FirstUses(all)
      invariant forall d :: d in seen <==> d in out
    {
      assert lines[..i + 1][..i] == lines[..i];
      var d := read(lines[i]);
      if d.Some? {
        ghost var more := all + [d.value];
        assert more[..|all|] == all;
        all := more;
        if d.value !in seen {
          seen := seen + {d.value};
          out := out + [d.value];
        }
      }
    }
    assert lines[..|lines|] == lines;
  }

  method ParseContent(isIp: string -> bool, lines: seq<string>, format: Format) returns (out: seq<string>)
    ensures out == Parsed(isIp, lines, format)
  {
    var effective := format;
    if format == Auto {
      effective := DetectFormat(isIp, if |lines| <= 50 then lines else lines[..50]);
    }
    out := ReadLines(Reader(isIp, effective), lines);
  }

  // ----- what the whole list amounts to -----

  /** The first position of `d`. */
  function FirstAt(ds: seq<string>, d: string): (k: nat)
    requires d in ds
    ensures k < |ds| && ds[k] == d && d !in ds[..k]
  {
    var n := |ds| - 1;
    if d in ds[..n] then
      var k := FirstAt(ds[..n], d);
      assert ds[..n][..k] == ds[..k];
      k
    else n
  }

  /** The same names, none twice, in the order of their first occurrence. */
  lemma {:induction false} FirstUsesMeaning(ds: seq<string>)
    ensures forall d :: d in FirstUses(ds) <==> d in ds
    ensures forall i, j | 0 <= i < j < |FirstUses(ds)| ::
              FirstUses(ds)[i] != FirstUses(ds)[j]
    ensures forall i, j | 0 <= i < j < |FirstUses(ds)| ::
              FirstAt(ds, FirstUses(ds)[i]) < FirstAt(ds, FirstUses(ds)[j])
  {
    if ds != [] {
      var n := |ds| - 1;
      FirstUsesMeaning(ds[..n]);
      assert ds == ds[..n] + [ds[n]];
    }
  }

  lemma {:induction false} ReadAllMember(read: string -> Option<string>, lines: seq<string>, d: string)
    ensures d in ReadAll(read, lines) <==> exists i | 0 <= i < |lines| :: read(lines[i]) == Some(d)
  {
    if lines != [] {
      var n := |lines| - 1;
      ReadAllMember(read, lines[..n], d);
      assert forall i | 0 <= i < n :: lines[..n][i] == lines[i];
    }
  }

  lemma LineOutput(isIp: string -> bool, format: Format, line: string, d: string) returns (raw: string)
    requires LineDomain(isIp, format, line) == Some(d)
    ensures Normalise(isIp, raw) == Some(d)
  {
    raw := ValueOf(format, line).value;
  }

  lemma ReaderOutput(isIp: string -> bool, format: Format, line: string, d: string)
    requires Reader(isIp, format)(line) == Some(d)
    ensures IsDomain(d) && |d| <= 253 && !isIp(d)
    ensures Normalise(isIp, d) == if d in LOCAL_ONLY then None else Some(d)
  {
    var raw := LineOutput(isIp, format, line, d);
    NormaliseTwice(isIp, LOCAL_ONLY, raw);
  }

  /**
   Everything the parser yields came from some line, is a well-formed name that is not an
   address, and normalises to itself unless it is a local-only name.
   */
  lemma ParsedIsNormal(isIp: string -> bool, lines: seq<string>, format: Format, d: string)
    ensures d in Parsed(isIp, lines, format) <==>
            exists i | 0 <= i < |lines| :: LineDomain(isIp, Effective(isIp, lines, format), lines[i]) == Some(d)
    ensures d in Parsed(isIp, lines, format) ==>
              && IsDomain(d) && |d| <= 253 && !isIp(d)
              && Normalise(isIp, d) == if d in LOCAL_ONLY then None else Some(d)
  {
    var read := Reader(isIp, Effective(isIp, lines, format));
    FirstUsesMeaning(ReadAll(read, lines));
    ReadAllMember(read, lines, d);
    if d in Parsed(isIp, lines, format) {
      var i :| 0 <= i < |lines| && read(lines[i]) == Some(d);
      ReaderOutput(isIp, Effective(isIp, lines, format), lines[i], d);
      assert LineDomain(isIp, Effective(isIp, lines, format), lines[i]) == Some(d);
    }
  }

  // ----- the name pattern, label by label -----

  predicate IsLabel(l: string) {
    && l != "" && IsAlNum(l[0]) && IsAlNum(l[|l| - 1])
    && forall i | 0 <= i < |l| :: IsAlNum(l[i]) || l[i] == '-'
  }

  /** The characters of a label besides the hyphen. */
  lemma AlNumIs(c: char)
    ensures IsAlNum(c) <==> 97 <= c as int <= 122 || 48 <= c as int <= 57
  {
  }

  lemma OneLabel(s: string)
    requires Lacks(s, '.')
    ensures IsDomain(s) <==> IsLabel(s)
  {
  }

  lemma DotInside(s: string, i: nat)
    requires IsDomain(s) && i < |s| && s[i] == '.'
    ensures 0 < i < |s| - 1 && IsAlNum(s[i - 1]) && IsAlNum(s[i + 1])
  {
    assert !IsAlNum('.');
    assert DotFits(s, i);
  }

  lemma RestIsDomain(s: string, n: nat)
    requires IsDomain(s) && n < |s| && IsAlNum(s[n])
    ensures IsDomain(s[n..])
  {
    var rest := s[n..];
    forall i | 0 < i < |rest| - 1 ensures DotFits(rest, i) {
      assert DotFits(s, n + i);
    }
  }

  lemma LabelAndRest(s: string, i: nat)
    requires i < |s| && s[i] == '.' && IsLabel(s[..i]) && IsDomain(s[i + 1..])
    ensures IsDomain(s)
  {
    var first, rest := s[..i], s[i + 1..];
    assert forall k | 0 <= k < i :: s[k] == first[k];
    assert forall k | i < k < |s| :: s[k] == rest[k - i - 1];
    forall k | 0 < k < |s| - 1 ensures DotFits(s, k) {
      if k > i + 1 {
        assert DotFits(rest, k - i - 1);
      }
    }
  }

  lemma LabelThenDomain(s: string, i: nat)
    requires i < |s| && s[i] == '.' && Lacks(s[..i], '.')
    ensures IsDomain(s) <==> IsLabel(s[..i]) && IsDomain(s[i + 1..])
  {
    if IsDomain(s) {
      DotInside(s, i);
      RestIsDomain(s, i + 1);
      assert IsLabel(s[..i]) by {
        assert forall k | 0 <= k < i :: s[k] == s[..i][k];
      }
    }
    if IsLabel(s[..i]) && IsDomain(s[i + 1..]) {
      LabelAndRest(s, i);
    }
  }

  lemma LabelsOf(first: string, rest: seq<string>)
    ensures (forall l | l in [first] + rest :: IsLabel(l)) <==> IsLabel(first) && forall l | l in rest :: IsLabel(l)
  {
    var all := [first] + rest;
    assert all[0] == first;
    assert forall l | l in rest :: l in all;
  }

  /** The pattern accepts exactly the names whose dot-separated labels are all proper labels. */
  lemma {:induction false} DomainIsLabels(s: string)
    ensures IsDomain(s) <==> forall l | l in Split(s) :: IsLabel(l)
    decreases |s|
  {
    var i := Find(s, '.');
    if i < 0 {
      OneLabel(s);
      assert Split(s)[0] == s;
    } else {
      LabelThenDomain(s, i);
      DomainIsLabels(s[i + 1..]);
      LabelsOf(s[..i], Split(s[i + 1..]));
    }
  }
}
