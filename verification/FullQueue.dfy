/**
 A run of first-seen collection, on names a query can carry, that fills the queue and loses a
 domain to it.
 */
module FullQueue {
  import opened Common
  import opened Text
  import opened FirstSeen
  import opened FirstSeenRuns
  import LogWriter

  const WIDTH := 17

  /** The last `k` binary digits of `n`, written with a and b. */
  function Bits(n: nat, k: nat): (s: string)
    ensures |s| == k && forall i | 0 <= i < k :: s[i] == 'a' || s[i] == 'b'
  {
    if k == 0 then "" else Bits(n / 2, k - 1) + [if n % 2 == 0 then 'a' else 'b']
  }

  function Power(k: nat): nat {
    if k == 0 then 1 else 2 * Power(k - 1)
  }

  lemma {:induction false} BitsDiffer(m: nat, n: nat, k: nat)
    requires m < Power(k) && n < Power(k) && Bits(m, k) == Bits(n, k)
    ensures m == n
  {
    if k > 0 {
      var a, b := Bits(m, k), Bits(n, k);
      assert a[k - 1] == b[k - 1] && a[..k - 1] == b[..k - 1];
      assert a[..k - 1] == Bits(m / 2, k - 1) && b[..k - 1] == Bits(n / 2, k - 1);
      BitsDiffer(m / 2, n / 2, k - 1);
    }
  }

  /** The n-th of the names "aa...aa.x" to "bb...bb.x". */
  function Name(n: nat): (d: string)
    ensures |d| == WIDTH + 2
  {
    Bits(n, WIDTH) + ['.', 'x']
  }

  /** A name that fits into a DNS question: section 2.3.4 of RFC 1035. */
  ghost predicate FitsQuestion(d: string) {
    |d| <= 253 && forall l | l in Split(d) :: 1 <= |l| <= 63
  }

  lemma NameIsStored(n: nat)
    ensures Key(Name(n)) == Name(n) && Interesting(Name(n))
  {
    var d := Name(n);
    assert d[WIDTH + 1] == 'x' && d[WIDTH] == '.';
    assert RStrip(d, IsDot) == d;
    LowerOnLower(d);
  }

  lemma NameFits(n: nat)
    ensures FitsQuestion(Name(n))
  {
    var d, bits, x := Name(n), Bits(n, WIDTH), ['x'];
    assert '.' !in bits && '.' !in x;
    assert d == bits + "." + x;
    FindAfter(bits, x);
    assert d[..WIDTH] == bits && d[WIDTH + 1..] == x;
    assert Split(x) == [x];
  }

  ghost predicate Earlier(d: string, n: nat) {
    exists i: nat :: i < n && d == Name(i)
  }

  lemma WideEnough()
    ensures Power(WIDTH) > LogWriter.MAX_QUEUE
  {
    assert Power(5) == 32 by { assert Power(3) == 8 && Power(4) == 16; }
    assert Power(9) == 512 by { assert Power(7) == 128 && Power(8) == 256; }
    assert Power(13) == 8192 by { assert Power(11) == 2048 && Power(12) == 4096; }
    assert Power(17) == 131072 by { assert Power(15) == 32768 && Power(16) == 65536; }
  }

  lemma NameIsNew(n: nat)
    requires n <= LogWriter.MAX_QUEUE
    ensures !Earlier(Name(n), n)
  {
    if i: nat :| i < n && Name(n) == Name(i) {
      WideEnough();
      assert Name(n)[..WIDTH] == Bits(n, WIDTH) && Name(i)[..WIDTH] == Bits(i, WIDTH);
      BitsDiffer(i, n, WIDTH);
    }
  }

  function NameRecord(n: nat): Record {
    Record(Name(n), "", "A")
  }

  /** Record the first `n` names, one after the other. */
  function Fill(n: nat): seq<Step> {
    if n == 0 then [] else Fill(n - 1) + [Note(NameRecord(n - 1)), Put(0)]
  }

  ghost predicate Filled(s: State, n: nat) {
    && s.waiting == [] && s.q.hand == [] && s.db == map[] && |s.q.queue| == n
    && |s.seen| <= n && (forall d | d in s.seen :: Earlier(d, n))
    && (forall i | 0 <= i < n :: Earlier(s.q.queue[i].domain, n))
  }

  lemma OneMore(s: State, r: Record)
    requires r.domain !in s.seen && |s.seen| < SEEN_MAX && s.waiting == []
    ensures var t := Next(s, Note(r));
            t.seen == s.seen + {r.domain} && t.waiting == [r] && t.epoch == s.epoch && t.q == s.q && t.db == s.db
    ensures |Next(s, Note(r)).seen| == |s.seen| + 1
  {
  }

  lemma PutOnly(s: State, r: Record)
    requires s.waiting == [r]
    ensures Next(s, Put(0)).waiting == []
  {
    assert OneOut([r], 0) == [];
  }

  lemma EarlierStays(d: string, n: nat)
    requires Earlier(d, n) || d == Name(n)
    ensures Earlier(d, n + 1)
  {
    if Earlier(d, n) {
      var i: nat :| i < n && d == Name(i);
    }
  }

  lemma FillStep(s: State, n: nat, r: Record)
    requires Filled(s, n) && n < LogWriter.MAX_QUEUE && r.domain == Name(n)
    ensures Filled(Next(Next(s, Note(r)), Put(0)), n + 1)
  {
    NameIsNew(n);
    OneMore(s, r);
    PutOnly(Next(s, Note(r)), r);
    var t := Next(Next(s, Note(r)), Put(0));
    forall d | d in t.seen ensures Earlier(d, n + 1) { EarlierStays(d, n); }
    forall i | 0 <= i < n + 1 ensures Earlier(t.q.queue[i].domain, n + 1) {
      EarlierStays(t.q.queue[i].domain, n);
    }
  }

  lemma TwoMore(s: State, steps: seq<Step>, a: Step, b: Step)
    ensures RunFrom(s, steps + [a, b]) == Next(Next(RunFrom(s, steps), a), b)
  {
    assert (steps + [a, b])[..|steps| + 1] == steps + [a];
    assert (steps + [a])[..|steps|] == steps;
    assert RunFrom(s, steps + [a]) == Next(RunFrom(s, steps), a);
  }

  lemma FilledOneMore(s: State, steps: seq<Step>, n: nat, r: Record)
    requires Filled(RunFrom(s, steps), n) && n < LogWriter.MAX_QUEUE && r.domain == Name(n)
    ensures Filled(RunFrom(s, steps + [Note(r), Put(0)]), n + 1)
  {
    TwoMore(s, steps, Note(r), Put(0));
    FillStep(RunFrom(s, steps), n, r);
  }

  lemma {:induction false} FillsUp(s: State, n: nat)
    requires Filled(s, 0) && n <= LogWriter.MAX_QUEUE
    ensures Filled(RunFrom(s, Fill(n)), n)
  {
    if n > 0 {
      FillsUp(s, n - 1);
      FilledOneMore(s, Fill(n - 1), n - 1, NameRecord(n - 1));
    }
  }

  lemma NothingFilled(s: State)
    requires s.waiting == [] && s.q.hand == [] && s.q.queue == [] && s.db == map[] && s.seen == {}
    ensures Filled(s, 0)
  {
  }

  lemma NextIsLost(s: State, steps: seq<Step>, n: nat, r: Record)
    requires Filled(RunFrom(s, steps), n) && n == LogWriter.MAX_QUEUE && r.domain == Name(n)
    ensures Forgotten(RunFrom(s, steps + [Note(r), Put(0)]), r.domain)
  {
    var t := RunFrom(s, steps);
    TwoMore(s, steps, Note(r), Put(0));
    NameIsNew(n);
    OneMore(t, r);
    RejectionForgets(Next(t, Note(r)), 0, r.domain);
  }

  ghost predicate NotesFit(steps: seq<Step>) {
    forall i | 0 <= i < |steps| :: steps[i].Note? ==> FitsQuestion(steps[i].r.domain)
  }

  lemma PairFits(steps: seq<Step>, r: Record)
    requires NotesFit(steps) && FitsQuestion(r.domain)
    ensures NotesFit(steps + [Note(r), Put(0)])
  {
  }

  lemma {:induction false} FillFits(n: nat)
    ensures NotesFit(Fill(n))
  {
    if n > 0 {
      var before, r := Fill(n - 1), NameRecord(n - 1);
      assert NotesFit(before) by { FillFits(n - 1); }
      assert FitsQuestion(r.domain) by { NameFits(n - 1); }
      PairFits(before, r);
    }
  }

  /**
   The loss is real: there is a run, every name of which fits into a DNS question, after which
   the set remembers a domain that nothing else holds, so that it gains no row until the set is
   cleared (`ForgottenIsNotRetried`).
   */
  lemma FullQueueForgets() returns (steps: seq<Step>, d: string)
    ensures Forgotten(Run(steps), d) && Key(d) == d && Interesting(d)
    ensures NotesFit(steps) && FitsQuestion(d)
  {
    var n := LogWriter.MAX_QUEUE;
    d := Name(n);
    steps := Fill(n + 1);
    NameIsStored(n);
    FillFits(n + 1);
    NameFits(n);
    NothingFilled(Start());
    FillsUp(Start(), n);
    NextIsLost(Start(), Fill(n), n, NameRecord(n));
  }
}
