/**
 What a list is read as, line by line: which lines yield which names under a layout, and that the
 parser's result is exactly those names, each once, in the order of the lines.
 */
module ListedLines {
  import opened Common
  import opened DomainList

  /** What a line is read as, if anything. */
  type Reads = string -> Option<string>

  /** Line `i` yields `d`. */
  predicate Yields(read: Reads, lines: seq<string>, i: nat, d: string) {
    i < |lines| && read(lines[i]) == Some(d)
  }

  /** Some line yields a name. */
  ghost predicate YieldsAny(read: Reads, lines: seq<string>) {
    exists d: string :: Yielded(read, lines, d)
  }

  /** Every line that yields `b` comes after one that yields `a`. */
  ghost predicate ComesFirst(read: Reads, lines: seq<string>, a: string, b: string) {
    forall j: nat | Yields(read, lines, j, b) :: exists i: nat :: i < j && Yields(read, lines, i, a)
  }

  /** Some line yields `d`. */
  ghost predicate Yielded(read: Reads, lines: seq<string>, d: string) {
    exists i: nat :: Yields(read, lines, i, d)
  }

  ghost predicate Exactly(values: seq<string>, read: Reads, lines: seq<string>) {
    forall d: string :: d in values <==> Yielded(read, lines, d)
  }

  ghost predicate InOrder(values: seq<string>, read: Reads, lines: seq<string>) {
    forall k, m | 0 <= k < m < |values| :: ComesFirst(read, lines, values[k], values[m])
  }

  /** `values` are the names the lines yield, each once, in the order of first occurrence. */
  ghost predicate FromLines(values: seq<string>, read: Reads, lines: seq<string>) {
    && Distinct(values) && Exactly(values, read, lines) && InOrder(values, read, lines)
  }

  lemma YieldsLonger(read: Reads, lines: seq<string>, more: string, i: nat, d: string)
    ensures Yields(read, lines + [more], i, d) <==>
            Yields(read, lines, i, d) || (i == |lines| && read(more) == Some(d))
  {
  }

  lemma YieldedLonger(read: Reads, lines: seq<string>, more: string, d: string)
    ensures Yielded(read, lines + [more], d) <==>
            Yielded(read, lines, d) || read(more) == Some(d)
  {
    if i: nat :| Yields(read, lines + [more], i, d) {
      YieldsLonger(read, lines, more, i, d);
    }
    if i: nat :| Yields(read, lines, i, d) {
      YieldsLonger(read, lines, more, i, d);
    }
    YieldsLonger(read, lines, more, |lines|, d);
  }

  /** A name that comes first among the lines still does with one more line, if it is there at all. */
  lemma OrderGrows(read: Reads, lines: seq<string>, more: string, a: string, b: string)
    requires ComesFirst(read, lines, a, b) && Yielded(read, lines, a)
    ensures ComesFirst(read, lines + [more], a, b)
  {
    forall j: nat | Yields(read, lines + [more], j, b)
      ensures exists i: nat :: i < j && Yields(read, lines + [more], i, a)
    {
      YieldsLonger(read, lines, more, j, b);
      var i: nat :| Yields(read, lines, i, a) && (i < j || j == |lines|);
      YieldsLonger(read, lines, more, i, a);
    }
  }

  lemma NewComesLast(read: Reads, lines: seq<string>, a: string, b: string)
    requires !Yielded(read, lines, b)
    ensures ComesFirst(read, lines, a, b)
  {
  }

  /** `after` are the values once the line `more` has been read too. */
  predicate ReadOn(values: seq<string>, yielded: Option<string>, after: seq<string>) {
    match yielded
    case None => after == values
    case Some(d) => after == if d in values then values else values + [d]
  }

  lemma ExactlyGrows(values: seq<string>, read: Reads, lines: seq<string>, more: string,
                     after: seq<string>)
    requires Exactly(values, read, lines) && ReadOn(values, read(more), after)
    ensures Exactly(after, read, lines + [more])
  {
    forall d: string ensures d in after <==> Yielded(read, lines + [more], d) {
      YieldedLonger(read, lines, more, d);
    }
  }

  lemma PairStaysInOrder(values: seq<string>, read: Reads, lines: seq<string>, more: string,
                         after: seq<string>, k: nat, m: nat)
    requires Exactly(values, read, lines) && InOrder(values, read, lines)
    requires ReadOn(values, read(more), after) && k < m < |after|
    ensures ComesFirst(read, lines + [more], after[k], after[m])
  {
    assert after[k] == values[k] && values[k] in values;
    if m == |values| {
      NewComesLast(read, lines, after[k], after[m]);
    }
    OrderGrows(read, lines, more, after[k], after[m]);
  }

  lemma LinesGrow(values: seq<string>, read: Reads, lines: seq<string>, more: string,
                  after: seq<string>)
    requires FromLines(values, read, lines) && ReadOn(values, read(more), after)
    ensures FromLines(after, read, lines + [more])
  {
    ExactlyGrows(values, read, lines, more, after);
    forall k, m | 0 <= k < m < |after| ensures ComesFirst(read, lines + [more], after[k], after[m]) {
      PairStaysInOrder(values, read, lines, more, after, k, m);
    }
  }

  lemma {:induction false} ReadingFollowsLines(read: Reads, lines: seq<string>)
    ensures FromLines(FirstUses(ReadAll(read, lines)), read, lines)
  {
    if lines != [] {
      var n := |lines| - 1;
      var before := lines[..n];
      ReadingFollowsLines(read, before);
      var ds := ReadAll(read, before);
      assert forall d :: (ds + [d])[..|ds|] == ds;
      assert before + [lines[n]] == lines;
      LinesGrow(FirstUses(ds), read, before, lines[n], FirstUses(ReadAll(read, lines)));
    }
  }

  lemma SomethingYielded(values: seq<string>, read: Reads, lines: seq<string>)
    requires Exactly(values, read, lines)
    ensures values != [] <==> YieldsAny(read, lines)
  {
    if values != [] {
      assert values[0] in values;
    }
  }

  // ----- the parser -----

  /** `values` are what the lines yield under `layout`, as `LineDomain` reads them. */
  ghost predicate Listed(values: seq<string>, isIp: string -> bool, layout: Format, lines: seq<string>) {
    FromLines(values, Reader(isIp, layout), lines)
  }

  ghost predicate ListsAny(isIp: string -> bool, layout: Format, lines: seq<string>) {
    YieldsAny(Reader(isIp, layout), lines)
  }

  /** An explicit layout under which some line yields a name is kept; otherwise the layout is detected. */
  ghost predicate ListedFrom(values: seq<string>, isIp: string -> bool, lines: seq<string>, format: Format) {
    if format != Auto && ListsAny(isIp, format, lines) then Listed(values, isIp, format, lines)
    else Listed(values, isIp, Effective(isIp, lines, Auto), lines)
  }

  lemma ReaderReads(isIp: string -> bool, layout: Format, lines: seq<string>, i: nat, d: string)
    ensures Yields(Reader(isIp, layout), lines, i, d) <==>
            i < |lines| && LineDomain(isIp, layout, lines[i]) == Some(d)
  {
  }

  lemma ParsedIsListed(isIp: string -> bool, lines: seq<string>, format: Format)
    ensures Listed(Parsed(isIp, lines, format), isIp, Effective(isIp, lines, format), lines)
    ensures format != Auto ==> Effective(isIp, lines, format) == format
    ensures Parsed(isIp, lines, format) != [] <==> ListsAny(isIp, Effective(isIp, lines, format), lines)
  {
    var read := Reader(isIp, Effective(isIp, lines, format));
    ReadingFollowsLines(read, lines);
    SomethingYielded(Parsed(isIp, lines, format), read, lines);
  }

  /** The parsed names; an explicit layout that yields nothing is retried as "auto". */
  function ListValues(isIp: string -> bool, lines: seq<string>, format: Format): seq<string> {
    var values := Parsed(isIp, lines, format);
    if values == [] && format != Auto then Parsed(isIp, lines, Auto) else values
  }

  /** Whatever the lines yield is what an import takes from them. */
  lemma ValuesAreListed(isIp: string -> bool, lines: seq<string>, format: Format)
    ensures ListedFrom(ListValues(isIp, lines, format), isIp, lines, format)
  {
    ParsedIsListed(isIp, lines, format);
    ParsedIsListed(isIp, lines, Auto);
  }

  /** Some line yields `d` under the layout that counts. */
  ghost predicate TakenFrom(isIp: string -> bool, lines: seq<string>, format: Format, d: string) {
    if format != Auto && ListsAny(isIp, format, lines) then Yielded(Reader(isIp, format), lines, d)
    else Yielded(Reader(isIp, Effective(isIp, lines, Auto)), lines, d)
  }

  lemma TakenIsValue(isIp: string -> bool, lines: seq<string>, format: Format, d: string)
    ensures d in ListValues(isIp, lines, format) <==> TakenFrom(isIp, lines, format, d)
  {
    ValuesAreListed(isIp, lines, format);
  }
}
