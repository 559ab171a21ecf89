/**
 What lookups find after an API import, which trims and lowers its names but keeps a trailing
 dot that every lookup drops.
 */
module ApiLookup {
  import opened Common
  import opened Text
  import opened DomainLookup
  import opened ThreatStore
  import opened DomainImport

  /** The list after an enabled API import. */
  function AfterImport(list: seq<Row>, source: string, names: seq<string>, addresses: seq<string>): seq<Row> {
    Others(list, source)
    + (Tagged(source, Entries(names, DomainTarget), true) + Tagged(source, Entries(addresses, IpTarget), true))
  }

  predicate EndsInDot(s: string) { s != "" && s[|s| - 1] == '.' }

  lemma NameIsIndexed(list: seq<Row>, source: string, names: seq<string>, addresses: seq<string>, v: string)
    requires v in names
    ensures v in Load(AfterImport(list, source, names, addresses), DomainTarget)
  {
    var others, rows := Others(list, source), Tagged(source, Entries(names, DomainTarget), true);
    var all := AfterImport(list, source, names, addresses);
    var i :| 0 <= i < |names| && names[i] == v;
    assert all[|others| + i] == rows[i] && Lists(rows[i], DomainTarget, v);
    LoadIsEnabled(all, DomainTarget, v);
  }

  lemma LastOfCover(v: string, d: string)
    requires v != "" && Covers(v, d)
    ensures d != "" && v[|v| - 1] == d[|d| - 1]
  {
    DottedSuffix(v, d);
  }

  lemma FoundHasNoDot(index: Index, d: string)
    requires !EndsInDot(d)
    ensures Walk(index, d).Some? ==> !EndsInDot(Walk(index, d).value.entry)
  {
    var hit := Walk(index, d);
    WalkFindsLongest(index, d);
    FoundIsNotEmpty(index, d);
    if hit.Some? {
      LastOfCover(hit.value.entry, d);
    }
  }

  lemma NormalisedHasNoDot(x: string)
    ensures !EndsInDot(Normalised(x))
  {
    var low := Lower(Strip(x));
    assert RStrip(low, IsDot) != [] ==> !IsDot(RStrip(low, IsDot)[|RStrip(low, IsDot)| - 1]);
  }

  /** No lookup ever returns an entry with a trailing dot. */
  lemma DottedIsUnreachable(index: Index, x: string)
    ensures Walk(index, Normalised(x)).Some? ==> !EndsInDot(Walk(index, Normalised(x)).value.entry)
  {
    NormalisedHasNoDot(x);
    FoundHasNoDot(index, Normalised(x));
  }

  lemma CleanedStays(raw: string, v: string)
    requires v == Lower(Strip(raw))
    ensures Normalised(v) == RStrip(v, IsDot)
  {
    var s := Strip(raw);
    assert Strip(v) == v by { LowerStaysTrimmed(s, v); }
    assert Lower(v) == v;
  }

  lemma LowerStaysTrimmed(s: string, v: string)
    requires v == Lower(s) && (s != "" ==> !IsSpace(s[0]) && !IsSpace(s[|s| - 1]))
    ensures Strip(v) == v
  {
    assert v != "" ==> v[0] == LowerChar(s[0]) && v[|v| - 1] == LowerChar(s[|s| - 1]);
    NoStrip(v, IsSpace);
  }

  lemma Undotted(v: string)
    requires !EndsInDot(v)
    ensures RStrip(v, IsDot) == v
  {
  }

  /** A lookup hits exactly when some entry is the name or one of its parents. */
  lemma HitsExactlyWhenCovered(index: Index, d: string)
    ensures Walk(index, d).Some? <==> exists e | e in index :: e != "" && Covers(e, d)
  {
    WalkFindsLongest(index, d);
    FoundIsNotEmpty(index, d);
    if Walk(index, d).Some? {
      var e := Walk(index, d).value.entry;
      assert e in index && e != "" && Covers(e, d);
    }
  }

  /**
   After an enabled API import every imported name is listed.  Without a trailing dot it is
   found under its own text; with one no lookup returns it, and looking up its own text hits
   exactly when some entry is the name without its dots, or a parent of that.
   */
  lemma ApiNameIsFound(list: seq<Row>, source: string, domains: seq<string>, names: seq<string>,
                       addresses: seq<string>, v: string)
    requires Enumerates(names, Cleaned(domains)) && v in names
    ensures var index := Load(AfterImport(list, source, names, addresses), DomainTarget);
            && v in index
            && (!EndsInDot(v) ==> Walk(index, Normalised(v)) == Some(Found(index[v], v)))
            && (EndsInDot(v) ==>
                  && (forall x: string :: Walk(index, Normalised(x)).Some? ==>
                        Walk(index, Normalised(x)).value.entry != v)
                  && (Walk(index, Normalised(v)).Some? <==>
                      exists e | e in index :: e != "" && Covers(e, RStrip(v, IsDot))))
  {
    var index := Load(AfterImport(list, source, names, addresses), DomainTarget);
    NameIsIndexed(list, source, names, addresses, v);
    var i :| 0 <= i < |domains| && Strip(domains[i]) != "" && v == Lower(Strip(domains[i]));
    CleanedStays(domains[i], v);
    if EndsInDot(v) {
      forall x: string ensures Walk(index, Normalised(x)).Some? ==> Walk(index, Normalised(x)).value.entry != v {
        DottedIsUnreachable(index, x);
      }
      HitsExactlyWhenCovered(index, RStrip(v, IsDot));
    } else {
      Undotted(v);
    }
  }

  /** The loss is real: import just this name, and no lookup at all hits. */
  lemma DottedNameIsLost(source: string, x: string) returns (v: string)
    ensures Cleaned([v]) == {v} && EndsInDot(v)
    ensures var index := Load(AfterImport([], source, [v], []), DomainTarget);
            v in index && Walk(index, Normalised(x)) == None
  {
    v := "evil.com.";
    CleanedAlone(v);
    NameIsIndexed([], source, [v], [], v);
    DottedAloneIsMissed(source, v, x);
  }

  lemma CleanedAlone(v: string)
    requires v == "evil.com."
    ensures Cleaned([v]) == {v} && EndsInDot(v)
  {
    assert v[|v| - 1] == '.';
    assert forall i | 0 <= i < |v| :: !('A' <= v[i] <= 'Z');
    LowerOnLower(v);
    NoStrip(v, IsSpace);
    assert [v][0] == v;
  }

  lemma DottedAloneIsMissed(source: string, v: string, x: string)
    requires EndsInDot(v)
    ensures Walk(Load(AfterImport([], source, [v], []), DomainTarget), Normalised(x)) == None
  {
    var index, d := Load(AfterImport([], source, [v], []), DomainTarget), Normalised(x);
    DottedIsUnreachable(index, x);
    WalkFindsLongest(index, d);
    forall u | u in index ensures u == v { OnlyEntry(source, v, u); }
  }

  lemma OnlyEntry(source: string, v: string, u: string)
    requires u in Load(AfterImport([], source, [v], []), DomainTarget)
    ensures u == v
  {
    var list, row := AfterImport([], source, [v], []), Row(source, v, DomainTarget, true);
    assert list == [row];
    assert Load(list, DomainTarget) == map[v := source] by { OneRow(row); }
  }

  lemma OneRow(row: Row)
    requires row.enabled && row.target == DomainTarget
    ensures Load([row], DomainTarget) == map[row.value := row.source]
  {
    assert [row][..0] == [];
  }

  /** Whatever an enabled API import was given, trimmed and in lower case, is listed under its kind. */
  lemma RawsAreListed(list: seq<Row>, source: string, domains: seq<string>, names: seq<string>, ips: seq<string>,
                      addresses: seq<string>, i: nat)
    requires Enumerates(names, Cleaned(domains)) && Enumerates(addresses, Cleaned(ips))
    ensures var after := AfterImport(list, source, names, addresses);
            && (i < |domains| && Strip(domains[i]) != "" ==> Lower(Strip(domains[i])) in Load(after, DomainTarget))
            && (i < |ips| && Strip(ips[i]) != "" ==> Lower(Strip(ips[i])) in Load(after, IpTarget))
  {
    if i < |domains| && Strip(domains[i]) != "" {
      assert Lower(Strip(domains[i])) in Cleaned(domains);
      NameIsIndexed(list, source, names, addresses, Lower(Strip(domains[i])));
    }
    if i < |ips| && Strip(ips[i]) != "" {
      assert Lower(Strip(ips[i])) in Cleaned(ips);
      AddressIsIndexed(list, source, names, addresses, Lower(Strip(ips[i])));
    }
  }

  lemma AddressIsIndexed(list: seq<Row>, source: string, names: seq<string>, addresses: seq<string>, a: string)
    requires a in addresses
    ensures a in Load(AfterImport(list, source, names, addresses), IpTarget)
  {
    var others, rows := Others(list, source), Tagged(source, Entries(names, DomainTarget), true);
    var more := Tagged(source, Entries(addresses, IpTarget), true);
    var all := AfterImport(list, source, names, addresses);
    var i :| 0 <= i < |addresses| && addresses[i] == a;
    assert all[|others| + |rows| + i] == more[i] && Lists(more[i], IpTarget, a);
    LoadIsEnabled(all, IpTarget, a);
  }
}
