/**
 What a line of each layout yields, and how the layout is recognised: hosts lines with blanks,
 further words and comments around the two columns, csv lines, and bare names.
 */
module DomainLines {
  import opened Common
  import opened Text
  import opened DomainList
  import opened DomainListForms

  predicate Blanks(s: string) {
    forall i | 0 <= i < |s| :: IsSpace(s[i])
  }

  /** A run of visible characters. */
  predicate Word(s: string) {
    s != "" && forall i | 0 <= i < |s| :: !IsSpace(s[i])
  }

  /** What may follow a word: nothing, or anything after a blank. */
  predicate Follows(s: string) {
    s == "" || IsSpace(s[0])
  }

  // ----- words -----

  lemma {:induction false} WordEnds(w: string, rest: string)
    requires (w == "" || Word(w)) && Follows(rest)
    ensures WordLength(w + rest) == |w|
  {
    var s := w + rest;
    if w == "" {
      assert s == rest;
    } else {
      assert s[0] == w[0] && s[1..] == w[1..] + rest;
      WordEnds(w[1..], rest);
    }
  }

  lemma {:induction false} BlanksSkipped(blanks: string, w: string)
    requires Blanks(blanks) && w != "" && !IsSpace(w[0])
    ensures LStrip(blanks + w, IsSpace) == w
  {
    var s := blanks + w;
    if blanks == "" {
      assert s == w;
    } else {
      assert s[0] == blanks[0] && s[1..] == blanks[1..] + w;
      BlanksSkipped(blanks[1..], w);
    }
  }

  lemma WordTaken(s: string, blanks: string, w: string, rest: string)
    requires s == blanks + (w + rest) && Blanks(blanks) && Word(w) && Follows(rest)
    ensures Words(s) == [w] + Words(rest)
  {
    var t := w + rest;
    assert LStrip(s, IsSpace) == t by { assert t[0] == w[0]; BlanksSkipped(blanks, t); }
    assert WordLength(t) == |w| by { WordEnds(w, rest); }
    assert t[..|w|] == w && t[|w|..] == rest;
  }

  lemma FirstWord(w: string, rest: string)
    requires Word(w) && Follows(rest)
    ensures Words(w + rest) == [w] + Words(rest)
  {
    assert w + rest == "" + (w + rest);
    WordTaken(w + rest, "", w, rest);
  }

  lemma GapFollows(gap: string, rest: string)
    requires gap != "" && Blanks(gap)
    ensures Follows(gap + rest)
  {
    assert (gap + rest)[0] == gap[0];
  }

  /** The words of a line with two columns and anything after them. */
  lemma ColumnWords(first: string, gap: string, second: string, tail: string) returns (more: seq<string>)
    requires Word(first) && gap != "" && Blanks(gap) && Word(second) && Follows(tail)
    ensures Words(first + (gap + (second + tail))) == [first] + ([second] + more)
  {
    more := Words(tail);
    var rest := gap + (second + tail);
    GapFollows(gap, second + tail);
    FirstWord(first, rest);
    WordTaken(rest, gap, second, tail);
  }

  /** Trimming takes the blanks in front and leaves what follows the columns well separated. */
  lemma TrimmedLine(lead: string, head: string, tail: string) returns (t: string)
    requires Blanks(lead) && Follows(tail)
    requires head != "" && !IsSpace(head[0]) && !IsSpace(head[|head| - 1])
    ensures Strip(lead + (head + tail)) == head + t && Follows(t)
  {
    t := RStrip(tail, IsSpace);
    assert lead + (head + tail) == lead + head + tail;
    RStripKeepsHead(lead + head, tail);
    assert lead + head + t == lead + (head + t);
    assert (head + t)[0] == head[0];
    BlanksSkipped(lead, head + t);
  }

  lemma WordIsStripped(w: string)
    requires Word(w)
    ensures Strip(w) == w
  {
    NoStrip(w, IsSpace);
  }

  lemma DomainIsWord(d: string)
    requires IsDomain(d)
    ensures Word(d)
  {
    HostIsStripped(d);
  }

  // ----- hosts -----

  /** Blanks, an address, a gap, a second word, and possibly more words or a comment. */
  predicate HostsParts(lead: string, ip: string, gap: string, w: string, tail: string) {
    Blanks(lead) && Word(ip) && gap != "" && Blanks(gap) && Word(w) && Follows(tail)
  }

  function HostsText(lead: string, ip: string, gap: string, w: string, tail: string): string {
    lead + (ip + (gap + w) + tail)
  }

  lemma EndsVisible(first: string, gap: string, second: string)
    requires Word(first) && Word(second)
    ensures var head := first + (gap + second);
            head != "" && !IsSpace(head[0]) && !IsSpace(head[|head| - 1])
  {
    var head := first + (gap + second);
    assert head[0] == first[0] && head[|head| - 1] == second[|second| - 1];
  }

  lemma HostsTrimmed(lead: string, ip: string, gap: string, w: string, tail: string)
    returns (t: string, more: seq<string>)
    requires HostsParts(lead, ip, gap, w, tail)
    ensures Strip(HostsText(lead, ip, gap, w, tail)) == ip + (gap + (w + t))
    ensures Words(ip + (gap + (w + t))) == [ip] + ([w] + more)
  {
    EndsVisible(ip, gap, w);
    t := TrimmedLine(lead, ip + (gap + w), tail);
    Regroup(ip, gap, w, t);
    more := ColumnWords(ip, gap, w, t);
  }

  lemma SecondWord(first: string, second: string, more: seq<string>)
    ensures |[first] + ([second] + more)| >= 2
    ensures ([first] + ([second] + more))[0] == first && ([first] + ([second] + more))[1] == second
  {
  }

  lemma HostsValue(raw: string, line: string, second: string)
    requires Strip(raw) == line && !Blank(line) && |Words(line)| >= 2 && Words(line)[1] == second
    requires Strip(second) == second
    ensures ValueOf(Hosts, raw) == if StartsWith(second, "#") then None else Some(second)
  {
  }

  /** A hosts line yields its second word, whatever stands around it, unless a comment starts there. */
  lemma HostsLine(lead: string, ip: string, gap: string, w: string, tail: string)
    requires HostsParts(lead, ip, gap, w, tail) && ip[0] != '#'
    ensures ValueOf(Hosts, HostsText(lead, ip, gap, w, tail)) == if w[0] == '#' then None else Some(w)
  {
    var t, more := HostsTrimmed(lead, ip, gap, w, tail);
    var line := ip + (gap + (w + t));
    SecondWord(ip, w, more);
    assert !Blank(line) by { assert line[0] == ip[0]; }
    WordIsStripped(w);
    HostsValue(HostsText(lead, ip, gap, w, tail), line, w);
    assert StartsWith(w, "#") <==> w[0] == '#';
  }

  // ----- csv -----

  lemma FirstColumn(column: string, rest: string)
    requires Lacks(column, ',')
    ensures Before(column + [','] + rest, ',') == column
  {
    BeforeFirst(column, ',', rest);
  }

  lemma CsvValue(raw: string, line: string, column: string)
    requires Strip(raw) == line && !Blank(line) && Before(line, ',') == column
    ensures ValueOf(Csv, raw) == Some(Strip(column))
  {
  }

  /** A first column, of any words, that does not turn the line into a comment. */
  predicate Column(s: string) {
    Lacks(s, ',') && (s == "" || (!IsSpace(s[0]) && s[0] != '#'))
  }

  function CsvText(lead: string, column: string, rest: string): string {
    lead + (column + [','] + rest)
  }

  /** A csv line yields its first column without the blanks around it. */
  lemma CsvLine(lead: string, column: string, rest: string)
    requires Blanks(lead) && Column(column)
    ensures ValueOf(Csv, CsvText(lead, column, rest)) == Some(Strip(column))
  {
    var head, t := column + [','], RStrip(rest, IsSpace);
    assert !Blank(head + t) && Strip(lead + (head + rest)) == head + t by { CsvTrimmed(lead, column, rest); }
    FirstColumn(column, t);
    CsvValue(lead + (head + rest), head + t, column);
  }

  lemma CsvTrimmed(lead: string, column: string, rest: string)
    requires Blanks(lead) && Column(column)
    ensures var line := column + [','] + RStrip(rest, IsSpace);
            !Blank(line) && Strip(CsvText(lead, column, rest)) == line
  {
    var head, t := column + [','], RStrip(rest, IsSpace);
    assert !IsSpace(head[0]) && head[0] != '#' && head[|head| - 1] == ',';
    assert lead + (head + rest) == lead + head + rest;
    assert (lead + head)[|lead + head| - 1] == ',';
    RStripKeepsHead(lead + head, rest);
    assert lead + head + t == lead + (head + t);
    assert (head + t)[0] == head[0];
    BlanksSkipped(lead, head + t);
  }

  // ----- layouts are recognised by their first line -----

  lemma GuessFrom(isIp: string -> bool, line: string, first: string)
    requires Words(line) != [] && Words(line)[0] == first
    ensures Guess(isIp, line) ==
            if ',' in line && !isIp(Before(first, ',')) then Csv else if isIp(first) then Hosts else Plain
  {
  }

  /** A line whose first word is an address is taken for the hosts layout, whatever follows. */
  lemma HostsLineIsRecognised(isIp: string -> bool, lead: string, ip: string, tail: string)
    requires Blanks(lead) && Word(ip) && Follows(tail) && isIp(ip) && Lacks(ip, ',')
    ensures Guess(isIp, Strip(lead + (ip + tail))) == Hosts
  {
    var t := TrimmedLine(lead, ip, tail);
    FirstWord(ip, t);
    LackedBefore(ip, ',');
    GuessFrom(isIp, ip + t, ip);
  }

  lemma LackedBefore(s: string, c: char)
    requires Lacks(s, c)
    ensures Before(s, c) == s
  {
  }

  /** A bare name is taken for the plain layout. */
  lemma PlainLineIsRecognised(isIp: string -> bool, d: string)
    requires IsDomain(d) && !isIp(d)
    ensures Guess(isIp, d) == Plain
  {
    assert ',' !in d;
    DomainIsWord(d);
    assert Words(d) == [d] + Words("") by {
      assert d + "" == d;
      FirstWord(d, "");
    }
    GuessFrom(isIp, d, d);
  }

  lemma {:induction false} WordSplit(s: string) returns (w: string, rest: string)
    ensures s == w + rest && (w == "" || Word(w)) && Follows(rest)
  {
    if s == "" || IsSpace(s[0]) {
      w, rest := "", s;
      assert s == w + rest;
    } else {
      var v;
      v, rest := WordSplit(s[1..]);
      w := [s[0]] + v;
      assert s == [s[0]] + s[1..];
    }
  }

  lemma SplitTail(head: string, w: string, rest: string)
    ensures head + (w + rest) == head + w + rest
  {
  }

  lemma ColumnIsWord(d: string, w: string)
    requires Word(d) && (w == "" || Word(w))
    ensures Word(d + [','] + w)
  {
  }

  /** The first word of a csv line is its first column, a comma and what sticks to it. */
  lemma FirstCsvWord(d: string, tail: string) returns (w: string, more: seq<string>)
    requires Word(d)
    ensures Words(d + [','] + tail) == [d + [','] + w] + more
  {
    var rest;
    w, rest := WordSplit(tail);
    assert tail == w + rest;
    more := Words(rest);
    ColumnIsWord(d, w);
    SplitTail(d + [','], w, rest);
    FirstWord(d + [','] + w, rest);
  }

  /** A line whose first column is one word, but no address, is taken for the csv layout. */
  lemma CsvLineIsRecognised(isIp: string -> bool, d: string, tail: string)
    requires Word(d) && Lacks(d, ',') && !isIp(d)
    ensures Guess(isIp, d + [','] + tail) == Csv
  {
    var line := d + [','] + tail;
    var w, more := FirstCsvWord(d, tail);
    FirstColumn(d, w);
    assert ',' in line by { assert line[|d|] == ','; }
    GuessFrom(isIp, line, d + [','] + w);
  }

  /** A plain line is its entry. */
  lemma PlainLine(isIp: string -> bool, raw: string)
    ensures LineDomain(isIp, Plain, raw) == Normalise(isIp, raw)
  {
    StripTwice(raw);
  }

  lemma StripTwice(raw: string)
    ensures Strip(Strip(raw)) == Strip(raw)
  {
    NoStrip(Strip(raw), IsSpace);
  }
}
