/**
 Two ways to match a name against listed domains: the parent-by-parent walk over the offline
 list (`find_domain`) and the wildcard patterns of the manual lists (`_match_domain`).
 On clean names the walk hits exactly when the pattern "*." + entry matches, and it returns
 the longest such entry.
 */
module DomainLookup {
  import opened Common
  import opened Text

  /** value -> source, enabled domain rows only. */
  type Index = map<string, string>

  datatype Found = Found(source: string, entry: string)

  // ----- the walk -----

  function Normalised(domain: string): string {
    RStrip(Lower(Strip(domain)), IsDot)
  }

  function Walk(index: Index, d: string): Option<Found>
    decreases |d|
  {
    if d == "" then None
    else if d in index then Some(Found(index[d], d))
    else
      var i := Find(d, '.');
      if i < 0 then None else Walk(index, d[i + 1..])
  }

  method FindDomain(index: Index, domain: string) returns (hit: Option<Found>)
    ensures hit == Walk(index, Normalised(domain))
  {
    var d := Normalised(domain);
    while d != ""
      invariant Walk(index, Normalised(domain)) == Walk(index, d)
      decreases |d|
    {
      if d in index {
        return Some(Found(index[d], d));
      }
      var i := Find(d, '.');
      if i < 0 {
        break;
      }
      d := d[i + 1..];
    }
    return None;
  }

  // ----- the wildcard matcher -----

  function CleanPattern(p: string): string {
    RStrip(Strip(p), IsDot)
  }

  predicate PatternHits(d: string, p: string) {
    if p == "" then false
    else if StartsWith(p, "*.") then d == p[2..] || EndsWith(d, "." + p[2..])
    else d == p
  }

  /** One pattern as it stands on the list. */
  predicate RawHits(d: string, raw: string) {
    PatternHits(d, CleanPattern(raw))
  }

  /** Some element passes the test. */
  predicate SomeOf(test: string -> bool, s: seq<string>) {
    exists i | 0 <= i < |s| :: test(s[i])
  }

  lemma OneMore(test: string -> bool, s: seq<string>, i: nat)
    requires i < |s|
    ensures SomeOf(test, s[..i + 1]) <==> SomeOf(test, s[..i]) || test(s[i])
  {
    assert forall j | 0 <= j < i :: s[..i + 1][j] == s[..i][j];
    assert s[..i + 1][i] == s[i];
  }

  function TestFor(d: string): string -> bool {
    raw => RawHits(d, raw)
  }

  predicate AnyHits(d: string, patterns: seq<string>) {
    SomeOf(TestFor(d), patterns)
  }

  method TryPattern(d: string, raw: string) returns (hit: bool)
    ensures hit == RawHits(d, raw)
  {
    var p := CleanPattern(raw);
    if p == "" {
      return false;
    }
    if StartsWith(p, "*.") {
      var suffix := p[2..];
      return d == suffix || EndsWith(d, "." + suffix);
    }
    return d == p;
  }

  method MatchDomain(domain: string, patterns: seq<string>) returns (hit: bool)
    ensures hit == AnyHits(RStrip(domain, IsDot), patterns)
  {
    var d := RStrip(domain, IsDot);
    hit := false;
    for i := 0 to |patterns|
      invariant !SomeOf(TestFor(d), patterns[..i])
    {
      var found := TryPattern(d, patterns[i]);
      OneMore(TestFor(d), patterns, i);
      if found {
        assert TestFor(d)(patterns[i]);
        return true;
      }
    }
    assert patterns[..|patterns|] == patterns;
  }

  // ----- where they agree -----

  /** `v` is `d` or one of its parents. */
  predicate Covers(v: string, d: string) {
    d == v || EndsWith(d, "." + v)
  }

  /** Lower case, no surrounding blanks, no trailing dot. */
  predicate Clean(s: string) {
    && (forall i | 0 <= i < |s| :: !('A' <= s[i] <= 'Z'))
    && (s != "" ==> !IsSpace(s[0]) && !IsSpace(s[|s| - 1]) && s[|s| - 1] != '.')
  }

  lemma CleanIsNormalised(s: string)
    requires Clean(s)
    ensures Normalised(s) == s && RStrip(s, IsDot) == s && Strip(s) == s
  {
    NoStrip(s, IsSpace);
    LowerOnLower(s);
  }

  /** `d` ends with "." + `v` when `v` is what follows the dot at position `|d| - |v| - 1`. */
  lemma DottedSuffix(v: string, d: string)
    ensures EndsWith(d, "." + v) <==> |v| < |d| && d[|d| - |v| - 1] == '.' && d[|d| - |v|..] == v
  {
    if |v| < |d| {
      var at := |d| - |v| - 1;
      assert d[at..] == [d[at]] + d[at + 1..];
      assert "." + v == ['.'] + v;
    }
  }

  /** Cut `d` after a dot at `i`: parents no longer than the rest are parents of the rest. */
  lemma ShortParent(v: string, d: string, i: nat)
    requires i < |d| && d[i] == '.' && |v| < |d| - i
    ensures EndsWith(d, "." + v) <==> Covers(v, d[i + 1..])
  {
    var rest := d[i + 1..];
    DottedSuffix(v, d);
    DottedSuffix(v, rest);
    assert rest[|rest| - |v|..] == d[|d| - |v|..];
    assert rest[0..] == rest;
  }

  /** Dropping the first label keeps exactly the proper parents. */
  lemma CoversParent(v: string, d: string, i: nat)
    requires v != d && Find(d, '.') == i
    ensures Covers(v, d) <==> Covers(v, d[i + 1..])
  {
    if |v| < |d| - i {
      ShortParent(v, d, i);
    } else {
      DottedSuffix(v, d);
      assert forall k | 0 <= k < i :: d[k] == d[..i][k];
    }
  }

  lemma ParentNeedsDot(v: string, d: string)
    requires EndsWith(d, "." + v)
    ensures '.' in d
  {
    DottedSuffix(v, d);
  }

  /** The walk returns the longest listed name that covers `d`, and misses only if none does. */
  lemma {:induction false} WalkFindsLongest(index: Index, d: string)
    ensures Walk(index, d).Some? ==>
              var e := Walk(index, d).value;
              && e.entry in index && e.source == index[e.entry] && Covers(e.entry, d)
              && forall v | v in index && Covers(v, d) :: |v| <= |e.entry|
    ensures Walk(index, d).None? ==> forall v | v in index && v != "" :: !Covers(v, d)
    decreases |d|
  {
    if d != "" && d !in index {
      var i := Find(d, '.');
      if i < 0 {
        forall v | v in index && v != "" ensures !Covers(v, d) {
          if Covers(v, d) { ParentNeedsDot(v, d); }
        }
      } else {
        WalkFindsLongest(index, d[i + 1..]);
        forall v | v in index ensures Covers(v, d) <==> Covers(v, d[i + 1..]) { CoversParent(v, d, i); }
      }
    }
  }

  lemma {:induction false} FoundIsNotEmpty(index: Index, d: string)
    ensures Walk(index, d).Some? ==> Walk(index, d).value.entry != ""
    decreases |d|
  {
    if d != "" && d !in index && Find(d, '.') >= 0 {
      FoundIsNotEmpty(index, d[Find(d, '.') + 1..]);
    }
  }

  function Wildcard(v: string): string { "*." + v }

  /** `_match_domain(d, ["*." + v])`. */
  predicate WildcardHits(v: string, d: string) {
    AnyHits(RStrip(d, IsDot), [Wildcard(v)])
  }

  lemma WildcardStaysClean(v: string)
    requires Clean(v) && v != ""
    ensures CleanPattern(Wildcard(v)) == Wildcard(v)
  {
    var p := Wildcard(v);
    assert p[|p| - 1] == v[|v| - 1] && p[0] == '*';
    NoStrip(p, IsSpace);
    NoStrip(p, IsDot);
  }

  lemma WildcardPattern(v: string, d: string)
    ensures PatternHits(d, Wildcard(v)) <==> Covers(v, d)
  {
    var p := Wildcard(v);
    assert p[2..] == v;
    assert StartsWith(p, "*.");
  }

  lemma WildcardIsCovers(v: string, d: string)
    requires Clean(v) && v != "" && RStrip(d, IsDot) == d
    ensures WildcardHits(v, d) <==> Covers(v, d)
  {
    WildcardStaysClean(v);
    WildcardPattern(v, d);
    assert [Wildcard(v)][0] == Wildcard(v);
  }

  /** The listed entries whose wildcard matches `d`. */
  function WildcardMatches(index: Index, d: string): set<string> {
    set v | v in index && WildcardHits(v, d)
  }

  function Covering(index: Index, d: string): set<string> {
    set v | v in index && Covers(v, d)
  }

  lemma MatchesAreCovering(index: Index, d: string)
    requires RStrip(d, IsDot) == d && forall v | v in index :: Clean(v) && v != ""
    ensures WildcardMatches(index, d) == Covering(index, d)
  {
    forall v | v in index ensures v in WildcardMatches(index, d) <==> v in Covering(index, d) {
      WildcardIsCovers(v, d);
    }
  }

  /**
   Lookup equivalence: on a clean name the offline list hits exactly when the wildcard of
   some listed entry matches, and it reports the longest such entry with its source.
   */
  lemma LookupAgreesWithMatcher(index: Index, d: string)
    requires Clean(d) && forall v | v in index :: Clean(v) && v != ""
    ensures Walk(index, Normalised(d)).Some? <==> WildcardMatches(index, d) != {}
    ensures Walk(index, Normalised(d)).Some? ==>
              var e := Walk(index, Normalised(d)).value;
              && e.entry in WildcardMatches(index, d) && e.source == index[e.entry]
              && forall v | v in WildcardMatches(index, d) :: |v| <= |e.entry|
  {
    assert Normalised(d) == d && RStrip(d, IsDot) == d by { CleanIsNormalised(d); }
    assert WildcardMatches(index, d) == Covering(index, d) by { MatchesAreCovering(index, d); }
    WalkFindsLongest(index, d);
    match Walk(index, d) {
      case None => assert Covering(index, d) == {};
      case Some(e) => assert e.entry in Covering(index, d);
    }
  }
}
