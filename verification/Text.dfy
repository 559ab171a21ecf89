/** The Python string operations the filter uses, over ASCII. */
module Text {

  predicate IsSpace(c: char) {
    '\t' <= c <= '\r' || '\U{1C}' <= c <= '\U{1F}' || c == ' '
  }

  predicate IsDot(c: char) { c == '.' }

  predicate IsDigit(c: char) { '0' <= c <= '9' }

  function LowerChar(c: char): char {
    if 'A' <= c <= 'Z' then (c as int + 32) as char else c
  }

  function Lower(s: string): (r: string)
    ensures |r| == |s|
  {
    seq(|s|, i requires 0 <= i < |s| => LowerChar(s[i]))
  }

  function LStrip(s: string, p: char -> bool): (r: string)
    ensures |r| <= |s| && r == s[|s| - |r|..]
    ensures r != [] ==> !p(r[0])
  {
    if s != [] && p(s[0]) then LStrip(s[1..], p) else s
  }

  function RStrip(s: string, p: char -> bool): (r: string)
    ensures r <= s
    ensures r != [] ==> !p(r[|r| - 1])
  {
    if s != [] && p(s[|s| - 1]) then RStrip(s[..|s| - 1], p) else s
  }

  function Strip(s: string): string {
    LStrip(RStrip(s, IsSpace), IsSpace)
  }

  predicate StartsWith(s: string, prefix: string) {
    prefix <= s
  }

  predicate EndsWith(s: string, suffix: string) {
    |suffix| <= |s| && s[|s| - |suffix|..] == suffix
  }

  /** `s.find(c)`: the first position of `c`, or -1. */
  function Find(s: string, c: char): (i: int)
    ensures -1 <= i < |s|
    ensures i < 0 ==> c !in s
    ensures i >= 0 ==> s[i] == c && c !in s[..i]
  {
    if s == [] then -1
    else if s[0] == c then 0
    else
      var i := Find(s[1..], c);
      assert i >= 0 ==> s[..i + 1] == [s[0]] + s[1..][..i];
      if i < 0 then -1 else i + 1
  }

  /** `s.split(c, 1)[0]`: everything before the first `c`. */
  function Before(s: string, c: char): string {
    var i := Find(s, c);
    if i < 0 then s else s[..i]
  }

  /** `s.split(".")`. */
  function Split(s: string): (labels: seq<string>)
    ensures |labels| >= 1
    ensures forall l | l in labels :: '.' !in l
    decreases |s|
  {
    var i := Find(s, '.');
    if i < 0 then [s] else [s[..i]] + Split(s[i + 1..])
  }

  /** `".".join(labels)`. */
  function Join(labels: seq<string>): string {
    if labels == [] then ""
    else if |labels| == 1 then labels[0]
    else labels[0] + "." + Join(labels[1..])
  }

  /** `reversed(labels)`. */
  function Reverse<T>(s: seq<T>): (r: seq<T>)
    ensures |r| == |s|
    ensures forall i | 0 <= i < |s| :: r[i] == s[|s| - 1 - i]
  {
    if s == [] then [] else Reverse(s[1..]) + [s[0]]
  }

  lemma FindAfter(a: string, b: string)
    requires '.' !in a
    ensures Find(a + "." + b, '.') == |a|
  {
    var s := a + "." + b;
    assert forall k | 0 <= k < |a| :: s[k] == a[k];
    assert s[|a|] == '.';
    assert forall k | |a| < k <= |s| :: '.' in s[..k] by {
      forall k | |a| < k <= |s| ensures '.' in s[..k] {
        assert s[..k][|a|] == '.';
      }
    }
  }

  lemma {:induction false} SplitJoin(labels: seq<string>)
    requires |labels| >= 1 && forall l | l in labels :: '.' !in l
    ensures Split(Join(labels)) == labels
    decreases |labels|
  {
    if |labels| > 1 {
      var rest := Join(labels[1..]);
      var s := Join(labels);
      FindAfter(labels[0], rest);
      assert s == labels[0] + "." + rest;
      assert s[..|labels[0]|] == labels[0] && s[|labels[0]| + 1..] == rest;
      SplitJoin(labels[1..]);
      assert Split(s) == [labels[0]] + labels[1..];
    } else {
      assert Find(labels[0], '.') < 0 by { assert labels[0] in labels; }
      assert labels == [labels[0]];
    }
  }

  lemma {:induction false} JoinSplit(s: string)
    ensures Join(Split(s)) == s
    decreases |s|
  {
    var i := Find(s, '.');
    if i >= 0 {
      var rest := Split(s[i + 1..]);
      JoinSplit(s[i + 1..]);
      assert ([s[..i]] + rest)[1..] == rest;
      assert Join([s[..i]] + rest) == s[..i] + "." + s[i + 1..] == s;
    }
  }

  lemma ReverseTwice<T>(s: seq<T>)
    ensures Reverse(Reverse(s)) == s
  {
  }

  lemma NoStrip(s: string, p: char -> bool)
    requires s != [] ==> !p(s[0]) && !p(s[|s| - 1])
    ensures LStrip(s, p) == s && RStrip(s, p) == s
  {
  }

  lemma LowerOnLower(s: string)
    requires forall i | 0 <= i < |s| :: !('A' <= s[i] <= 'Z')
    ensures Lower(s) == s
  {
  }
}
