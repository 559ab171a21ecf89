/**
 Importing a list into the store, and what the filter then finds: every imported name and
 every name below it.
 */
module DomainImport {
  import opened Common
  import opened Text
  import opened DomainList
  import opened DomainLookup
  import opened ListedLines
  import opened ThreatStore

  datatype Outcome = Imported(n: nat) | Refused | Died

  predicate NrdSource(source: string) { source == "hagezi_nrd" }

  /** More than one percent, and more than one entry, away from the declared count. */
  predicate OffBy(n: nat, declared: nat) {
    var gap := if n < declared then declared - n else n - declared;
    gap > 1 && gap > declared / 100
  }

  function Entries(values: seq<string>, target: Target): (entries: seq<Entry>)
    ensures |entries| == |values|
    ensures forall i | 0 <= i < |values| :: entries[i] == Entry(values[i], target)
  {
    seq(|values|, i requires 0 <= i < |values| => Entry(values[i], target))
  }

  predicate Truncated(source: string, declared: Option<nat>, values: seq<string>) {
    NrdSource(source) && declared.Some? && values != [] && OffBy(|values|, declared.value)
  }

  method LooksTruncated(source: string, declared: Option<nat>, values: seq<string>) returns (b: bool)
    ensures b == Truncated(source, declared, values)
  {
    var expected := if NrdSource(source) then declared else None;
    if expected.None? || values == [] {
      return false;
    }
    var gap := if |values| < expected.value then expected.value - |values| else |values| - expected.value;
    var tolerance := if expected.value / 100 > 1 then expected.value / 100 else 1;
    return gap > tolerance;
  }

  /** When a list counts as truncated: more than one entry and more than one percent are missing or extra. */
  lemma TruncatedExactlyWhen(source: string, declared: Option<nat>, values: seq<string>)
    ensures Truncated(source, declared, values) <==>
            && source == "hagezi_nrd" && declared.Some? && values != []
            && var n := declared.value;
               || (|values| > n + 1 && 100 * (|values| - n) > n)
               || (|values| + 1 < n && 100 * (n - |values|) > n)
  {
  }

  function ValuesOf(rows: seq<Row>): (values: seq<string>)
    ensures |values| == |rows| && forall i | 0 <= i < |rows| :: values[i] == rows[i].value
  {
    seq(|rows|, i requires 0 <= i < |rows| => rows[i].value)
  }

  /** Afterwards the rows of `source` are what the lines yield, in their order, and nothing else. */
  ghost predicate RowsAreLines(list: seq<Row>, source: string, isIp: string -> bool, lines: seq<string>,
                               format: Format, enabled: bool) {
    var rows := RowsOf(list, source);
    && ListedFrom(ValuesOf(rows), isIp, lines, format)
    && forall i | 0 <= i < |rows| :: rows[i] == Row(source, rows[i].value, DomainTarget, enabled)
  }

  /** Looking up `d`, or any text that ends with "." and `d`, hits. */
  predicate IsFound(list: seq<Row>, d: string, x: string) {
    && Walk(Load(list, DomainTarget), Normalised(d)).Some?
    && Walk(Load(list, DomainTarget), Normalised(x + ("." + d))).Some?
  }

  /** Whatever some line yields is found, and so is everything below it. */
  ghost predicate LinesAreFound(list: seq<Row>, isIp: string -> bool, lines: seq<string>, format: Format) {
    forall d: string, x: string :: TakenFrom(isIp, lines, format, d) ==> IsFound(list, d, x)
  }

  lemma RowsOfImport(list: seq<Row>, source: string, entries: seq<Entry>, enabled: bool)
    ensures RowsOf(Others(list, source) + Tagged(source, entries, enabled), source) == Tagged(source, entries, enabled)
  {
    var rows := Tagged(source, entries, enabled);
    RowsOfAppend(Others(list, source), rows, source);
    RowsOfOthers(list, source, source);
    RowsOfTagged(rows, source, source);
    assert [] + rows == rows;
  }

  lemma ListedRowsAreLines(list: seq<Row>, source: string, values: seq<string>, rows: seq<Row>, enabled: bool,
                           isIp: string -> bool, lines: seq<string>, format: Format)
    requires RowsOf(list, source) == rows && rows == Tagged(source, Entries(values, DomainTarget), enabled)
    requires ListedFrom(values, isIp, lines, format)
    ensures RowsAreLines(list, source, isIp, lines, format, enabled)
  {
    assert ValuesOf(rows) == values;
  }

  /** The list after an import of these lines. */
  function AfterLines(isIp: string -> bool, lines: seq<string>, format: Format, list: seq<Row>, source: string,
                      enabled: bool): seq<Row> {
    Others(list, source) + Tagged(source, Entries(ListValues(isIp, lines, format), DomainTarget), enabled)
  }

  lemma RowsMatchLines(isIp: string -> bool, lines: seq<string>, format: Format, list: seq<Row>, source: string,
                       enabled: bool)
    ensures var after := AfterLines(isIp, lines, format, list, source, enabled);
            && RowsAreLines(after, source, isIp, lines, format, enabled)
            && |RowsOf(after, source)| == |ListValues(isIp, lines, format)|
  {
    var values := ListValues(isIp, lines, format);
    var rows, after := Tagged(source, Entries(values, DomainTarget), enabled),
                       AfterLines(isIp, lines, format, list, source, enabled);
    RowsOfImport(list, source, Entries(values, DomainTarget), enabled);
    ValuesAreListed(isIp, lines, format);
    ListedRowsAreLines(after, source, values, rows, enabled, isIp, lines, format);
  }

  lemma TakenIsFound(isIp: string -> bool, lines: seq<string>, format: Format, list: seq<Row>, source: string,
                     d: string, x: string)
    ensures TakenFrom(isIp, lines, format, d) ==>
              IsFound(AfterLines(isIp, lines, format, list, source, true), d, x)
  {
    ImportedIsFound(isIp, lines, format, list, source, d, x);
  }

  lemma LinesMatchLookups(isIp: string -> bool, lines: seq<string>, format: Format, list: seq<Row>, source: string)
    ensures LinesAreFound(AfterLines(isIp, lines, format, list, source, true), isIp, lines, format)
  {
    var after := AfterLines(isIp, lines, format, list, source, true);
    forall d: string, x: string ensures TakenFrom(isIp, lines, format, d) ==> IsFound(after, d, x) {
      TakenIsFound(isIp, lines, format, list, source, d, x);
    }
  }

  /**
   `import_source` with the count its header declares, if any. A refused list changes
   nothing, a crash leaves the old rows visible, and otherwise the source's rows become the
   parsed names.
   */
  method ImportSource(store: Store, isIp: string -> bool, source: string, lines: seq<string>,
                      declared: Option<nat>, format: Format, enabled: bool, budget: nat)
    returns (r: Outcome)
    requires store.Valid()
    modifies store
    ensures store.Valid()
    ensures r.Refused? <==> Truncated(source, declared, ListValues(isIp, lines, format))
    ensures r.Refused? ==> store.db == old(store.db)
    ensures r.Died? ==> store.db.list == old(store.db).list
    ensures !r.Refused? ==> (r.Imported? <==> budget >= Batches(|ListValues(isIp, lines, format)|) + 2)
    ensures r.Imported? ==>
              var values := ListValues(isIp, lines, format);
              && r.n == |values|
              && store.db == Db(Others(old(store.db).list, source)
                                + Tagged(source, Entries(values, DomainTarget), enabled), None)
    ensures r.Imported? ==>
              && RowsAreLines(store.db.list, source, isIp, lines, format, enabled)
              && r.n == |RowsOf(store.db.list, source)|
              && (enabled ==> LinesAreFound(store.db.list, isIp, lines, format))
  {
    RowsMatchLines(isIp, lines, format, store.db.list, source, enabled);
    LinesMatchLookups(isIp, lines, format, store.db.list, source);
    var values := ParseContent(isIp, lines, format);
    if values == [] && format != Auto {
      values := ParseContent(isIp, lines, Auto);
    }
    var truncated := LooksTruncated(source, declared, values);
    if truncated {
      return Refused;
    }
    var rows := Tagged(source, Entries(values, DomainTarget), enabled);
    var n := store.ReplaceSourceRows(source, rows, budget);
    r := match n case None => Died case Some(k) => Imported(k);
  }

  /** An empty list is never refused, whatever count it declares, and leaves its source without a row. */
  lemma EmptyListEmptiesSource(isIp: string -> bool, source: string, declared: Option<nat>, format: Format,
                               enabled: bool, list: seq<Row>)
    ensures !Truncated(source, declared, ListValues(isIp, [], format))
    ensures RowsOf(Others(list, source)
                   + Tagged(source, Entries(ListValues(isIp, [], format), DomainTarget), enabled), source) == []
  {
    var rows := Tagged(source, Entries(ListValues(isIp, [], format), DomainTarget), enabled);
    NothingParsed(isIp, format);
    NothingParsed(isIp, Auto);
    assert rows == [] && Others(list, source) + [] == Others(list, source);
    RowsOfOthers(list, source, source);
  }

  lemma NothingParsed(isIp: string -> bool, format: Format)
    ensures Parsed(isIp, [], format) == []
  {
  }

  // ----- lists that arrive already split into names and addresses -----

  /** What one raw value contributes: trimmed, lower case, unless blank. */
  function Cleaned(raws: seq<string>): set<string> {
    set i | 0 <= i < |raws| && Strip(raws[i]) != "" :: Lower(Strip(raws[i]))
  }

  ghost predicate Enumerates(values: seq<string>, s: set<string>) {
    Distinct(values) && forall v :: v in values <==> v in s
  }

  method Enumerate(s: set<string>) returns (values: seq<string>)
    ensures Enumerates(values, s)
  {
    values := [];
    var left := s;
    while left != {}
      invariant left <= s && Enumerates(values, s - left)
      decreases |left|
    {
      var v :| v in left;
      left := left - {v};
      values := values + [v];
    }
  }

  /** `import_api_source`: refused exactly when nothing is left after cleaning. */
  method ImportApiSource(store: Store, source: string, domains: seq<string>, ips: seq<string>,
                         enabled: bool, budget: nat)
    returns (r: Outcome, ghost names: seq<string>, ghost addresses: seq<string>)
    requires store.Valid()
    modifies store
    ensures store.Valid()
    ensures r.Refused? <==> Cleaned(domains) == {} && Cleaned(ips) == {}
    ensures r.Refused? ==> store.db == old(store.db)
    ensures r.Died? ==> store.db.list == old(store.db).list
    ensures Enumerates(names, Cleaned(domains)) && Enumerates(addresses, Cleaned(ips))
    ensures !r.Refused? ==> (r.Imported? <==> budget >= Batches(|names| + |addresses|) + 2)
    ensures r.Imported? ==>
              && r.n == |names| + |addresses|
              && store.db == Db(Others(old(store.db).list, source)
                                + (Tagged(source, Entries(names, DomainTarget), enabled)
                                   + Tagged(source, Entries(addresses, IpTarget), enabled)), None)
  {
    var d, a := Cleaned(domains), Cleaned(ips);
    var doms := Enumerate(d);
    var addrs := Enumerate(a);
    names, addresses := doms, addrs;
    if d == {} && a == {} {
      return Refused, names, addresses;
    }
    var rows := Tagged(source, Entries(doms, DomainTarget), enabled)
                + Tagged(source, Entries(addrs, IpTarget), enabled);
    var n := store.ReplaceSourceRows(source, rows, budget);
    r := match n case None => Died case Some(k) => Imported(k);
  }

  // ----- what a lookup finds afterwards -----

  /** The rows of an import appear in the index, whatever else the list holds. */
  lemma ImportedIsIndexed(list: seq<Row>, source: string, values: seq<string>, d: string)
    requires d in values
    ensures d in Load(Others(list, source) + Tagged(source, Entries(values, DomainTarget), true), DomainTarget)
  {
    var others, rows := Others(list, source), Tagged(source, Entries(values, DomainTarget), true);
    var all := others + rows;
    var i :| 0 <= i < |values| && values[i] == d;
    assert all[|others| + i] == rows[i] && Lists(rows[i], DomainTarget, d);
    LoadIsEnabled(all, DomainTarget, d);
  }

  lemma {:induction false} LStripStops(a: string, b: string) returns (a': string)
    requires b != "" && !IsSpace(b[0])
    ensures LStrip(a + b, IsSpace) == a' + b
  {
    var s := a + b;
    if a == "" {
      assert s == b;
      a' := "";
    } else if IsSpace(a[0]) {
      assert s[0] == a[0] && s[1..] == a[1..] + b;
      a' := LStripStops(a[1..], b);
    } else {
      assert s[0] == a[0];
      a' := a;
    }
  }

  lemma TailIsKept(y: string, d: string)
    requires IsDomain(d)
    ensures RStrip(y + ("." + d), IsSpace) == y + ("." + d) && RStrip(y + ("." + d), IsDot) == y + ("." + d)
  {
    var s := y + ("." + d);
    assert s[|s| - 1] == d[|d| - 1];
    KeptByLast(s);
  }

  lemma KeptByLast(s: string)
    requires s != "" && IsAlNum(s[|s| - 1])
    ensures RStrip(s, IsSpace) == s && RStrip(s, IsDot) == s
  {
    var last := s[|s| - 1];
    assert !IsSpace(last) && !IsDot(last);
  }

  /** Cleaning a looked-up name never touches a listed name at its end. */
  lemma NormalisedKeepsTail(x: string, d: string) returns (x': string)
    requires IsDomain(d)
    ensures Normalised(x + ("." + d)) == x' + ("." + d)
  {
    var y := LStripStops(x, "." + d);
    x' := Lower(y);
    TailIsKept(x, d);
    LowerTail(y, d);
    TailIsKept(x', d);
  }

  lemma LowerTail(y: string, d: string)
    requires IsDomain(d)
    ensures Lower(y + ("." + d)) == Lower(y) + ("." + d)
  {
    var s, r := y + ("." + d), Lower(y) + ("." + d);
    forall i | 0 <= i < |s| ensures Lower(s)[i] == r[i] {
      if i > |y| { assert s[i] == d[i - |y| - 1] == r[i]; }
    }
  }

  lemma CoveredIsFound(index: Index, v: string, d: string)
    requires v in index && v != "" && Covers(v, d)
    ensures Walk(index, d).Some? && |Walk(index, d).value.entry| >= |v|
  {
    WalkFindsLongest(index, d);
  }

  lemma NormalisedDomain(d: string)
    requires IsDomain(d)
    ensures Normalised(d) == d
  {
    HostIsStripped(d);
    HostIsLower(d);
  }

  /**
   After an enabled import, looking up an imported name, or any text that ends with "." and
   that name, hits an entry at least as long.
   */
  lemma ImportedIsFound(isIp: string -> bool, lines: seq<string>, format: Format, list: seq<Row>,
                        source: string, d: string, x: string)
    ensures var rows := Tagged(source, Entries(ListValues(isIp, lines, format), DomainTarget), true);
            var index := Load(Others(list, source) + rows, DomainTarget);
            TakenFrom(isIp, lines, format, d) ==>
              && Walk(index, Normalised(d)).Some?
              && Walk(index, Normalised(x + ("." + d))).Some?
              && |Walk(index, Normalised(x + ("." + d))).value.entry| >= |d|
  {
    var values := ListValues(isIp, lines, format);
    TakenIsValue(isIp, lines, format, d);
    if d in values {
      assert IsDomain(d) by {
        ParsedIsNormal(isIp, lines, format, d);
        ParsedIsNormal(isIp, lines, Auto, d);
      }
      ListedIsFound(list, source, values, d, x);
    }
  }

  lemma ListedIsFound(list: seq<Row>, source: string, values: seq<string>, d: string, x: string)
    requires d in values && IsDomain(d)
    ensures var index := Load(Others(list, source) + Tagged(source, Entries(values, DomainTarget), true), DomainTarget);
            && Walk(index, Normalised(d)).Some?
            && Walk(index, Normalised(x + ("." + d))).Some?
            && |Walk(index, Normalised(x + ("." + d))).value.entry| >= |d|
  {
    var index := Load(Others(list, source) + Tagged(source, Entries(values, DomainTarget), true), DomainTarget);
    assert d in index by { ImportedIsIndexed(list, source, values, d); }
    NormalisedDomain(d);
    CoveredIsFound(index, d, d);
    var x' := NormalisedKeepsTail(x, d);
    var name := x' + ("." + d);
    assert EndsWith(name, "." + d) by { assert name[|x'|..] == "." + d; }
    CoveredIsFound(index, d, name);
  }
}
