/**
 The degradation window over whole histories, in degrade mode with a fixed positive
 threshold and width.  `Opening` and `InWindow` say declaratively when a window opens and
 when one is in force; the module's three numbers are shown to decide exactly that, and the
 results about openings speak of the steps at which its own counter of openings goes up.
 */
module DegradeRuns {
  import opened CircuitBreaker

  /** What `record_failsafe` and `record_verdict` see, with the clock of the call. */
  datatype Event = Failsafe(at: real) | Verdict(at: real)

  function StateAfter(h: seq<Event>, threshold: nat, width: real): Window {
    if h == [] then Window(0, 0.0, 0)
    else
      var before := StateAfter(h[..|h| - 1], threshold, width);
      match h[|h| - 1]
      case Failsafe(at) => FailsafeSeen(before, at, Degrade, threshold, width)
      case Verdict(at) => VerdictSeen(before, at)
  }

  predicate NoVerdict(h: seq<Event>, from: nat) {
    forall i | from <= i < |h| :: h[i].Failsafe?
  }

  /** The last event of `h` opens a window. */
  predicate Opening(h: seq<Event>, threshold: nat, width: real)
    decreases |h|, 0
  {
    && h != [] && h[|h| - 1].Failsafe?
    && FailsafesInARow(h[..|h| - 1], threshold, width) + 1 >= threshold
    && !InWindow(h[..|h| - 1], h[|h| - 1].at, threshold, width)
  }

  /** Fail-safes at the end of `h` since the last verdict or opening. */
  function FailsafesInARow(h: seq<Event>, threshold: nat, width: real): nat
    decreases |h|, 1
  {
    if h == [] || h[|h| - 1].Verdict? || Opening(h, threshold, width) then 0
    else FailsafesInARow(h[..|h| - 1], threshold, width) + 1
  }

  /** A window opened at s <= t < s + width, and no verdict came since. */
  predicate InWindow(h: seq<Event>, t: real, threshold: nat, width: real)
    decreases |h|, 2
  {
    exists i | 0 <= i < |h| :: OpenSince(h, i, t, threshold, width)
  }

  predicate OpenSince(h: seq<Event>, i: nat, t: real, threshold: nat, width: real)
    requires i < |h|
    decreases |h|, 1
  {
    && Opening(h[..i + 1], threshold, width)
    && h[i].at <= t < h[i].at + width && NoVerdict(h, i + 1)
  }

  /** The clock never goes back. */
  predicate Ordered(h: seq<Event>) {
    && (forall i | 0 <= i < |h| :: h[i].at >= 0.0)
    && (forall i, j | 0 <= i < j < |h| :: h[i].at <= h[j].at)
  }

  /** An opening that is still in force at `t` was so before any later fail-safe. */
  lemma WindowBeforeLast(h: seq<Event>, t: real, threshold: nat, width: real)
    requires h != [] && h[|h| - 1].Failsafe?
    ensures InWindow(h, t, threshold, width) ==
            (InWindow(h[..|h| - 1], t, threshold, width) || OpenSince(h, |h| - 1, t, threshold, width))
  {
    var rest := h[..|h| - 1];
    forall i | 0 <= i < |rest|
      ensures OpenSince(rest, i, t, threshold, width) == OpenSince(h, i, t, threshold, width)
    {
      assert rest[..i + 1] == h[..i + 1];
    }
  }

  lemma WindowShrinks(h: seq<Event>, s: real, t: real, threshold: nat, width: real)
    requires InWindow(h, t, threshold, width) && s <= t
    requires forall i | 0 <= i < |h| :: h[i].at <= s
    ensures InWindow(h, s, threshold, width)
  {
    var i :| 0 <= i < |h| && OpenSince(h, i, t, threshold, width);
    assert OpenSince(h, i, s, threshold, width);
  }

  /** Main result: `is_degraded` holds exactly while an opened window is in force. */
  lemma {:induction false} DegradedExactlyInWindow(h: seq<Event>, t: real, threshold: nat, width: real)
    requires threshold > 0 && width > 0.0 && Ordered(h)
    requires t >= 0.0 && forall i | 0 <= i < |h| :: h[i].at <= t
    ensures StateAfter(h, threshold, width).failsafes == FailsafesInARow(h, threshold, width)
    ensures IsDegradedAt(StateAfter(h, threshold, width), t) <==> InWindow(h, t, threshold, width)
    decreases |h|
  {
    if h != [] {
      var rest, e := h[..|h| - 1], h[|h| - 1];
      DegradedExactlyInWindow(rest, e.at, threshold, width);
      DegradedExactlyInWindow(rest, t, threshold, width);
      if e.Failsafe? {
        assert h[..|h|] == h;
        WindowBeforeLast(h, t, threshold, width);
        if InWindow(rest, t, threshold, width) {
          WindowShrinks(rest, e.at, t, threshold, width);
        }
      } else {
        assert forall i | 0 <= i < |h| :: !OpenSince(h, i, t, threshold, width) by {
          assert h[..|h|] == h;
        }
      }
    }
  }

  /** The j-th event made `record_failsafe` open a window: the counter of openings went up. */
  predicate OpenedAt(h: seq<Event>, j: nat, threshold: nat, width: real)
    requires j < |h|
  {
    StateAfter(h[..j + 1], threshold, width).openings > StateAfter(h[..j], threshold, width).openings
  }

  /** The code opens a window exactly where the declarative predicate says so. */
  lemma OpensExactlyAtOpenings(h: seq<Event>, j: nat, threshold: nat, width: real)
    requires threshold > 0 && width > 0.0 && Ordered(h) && j < |h|
    ensures OpenedAt(h, j, threshold, width) <==> Opening(h[..j + 1], threshold, width)
    ensures OpenedAt(h, j, threshold, width) <==>
              h[j].Failsafe? && Opens(StateAfter(h[..j], threshold, width), h[j].at, Degrade, threshold)
    ensures OpenedAt(h, j, threshold, width) ==>
              StateAfter(h[..j + 1], threshold, width).openings == StateAfter(h[..j], threshold, width).openings + 1
  {
    var upTo, before := h[..j + 1], h[..j];
    assert upTo[..j] == before && upTo[j] == h[j];
    DegradedExactlyInWindow(before, h[j].at, threshold, width);
  }

  /** Windows never overlap: the earlier one has run out, or a verdict ended it. */
  lemma WindowsNeverOverlap(h: seq<Event>, i: nat, j: nat, threshold: nat, width: real)
    requires threshold > 0 && width > 0.0 && i < j < |h| && Ordered(h)
    requires OpenedAt(h, i, threshold, width) && OpenedAt(h, j, threshold, width)
    ensures h[i].at + width <= h[j].at || exists k | i < k < j :: h[k].Verdict?
  {
    OpensExactlyAtOpenings(h, i, threshold, width);
    OpensExactlyAtOpenings(h, j, threshold, width);
    var before := h[..j];
    assert h[..j + 1][..j] == before && before[..i + 1] == h[..i + 1];
    assert !OpenSince(before, i, h[j].at, threshold, width);
  }

  lemma {:induction false} RowIsFailsafes(h: seq<Event>, k: nat, threshold: nat, width: real)
    requires |h| - FailsafesInARow(h, threshold, width) <= k < |h|
    ensures FailsafesInARow(h, threshold, width) <= |h|
    ensures h[k].Failsafe? && !Opening(h[..k + 1], threshold, width)
    decreases |h|
  {
    RowFits(h, threshold, width);
    assert h[..|h|] == h;
    if k < |h| - 1 {
      RowIsFailsafes(h[..|h| - 1], k, threshold, width);
      assert h[..|h| - 1][..k + 1] == h[..k + 1];
    }
  }

  lemma {:induction false} RowFits(h: seq<Event>, threshold: nat, width: real)
    ensures FailsafesInARow(h, threshold, width) <= |h|
    decreases |h|
  {
    if h != [] {
      RowFits(h[..|h| - 1], threshold, width);
    }
  }

  lemma InRow(h: seq<Event>, j: nat, k: nat, threshold: nat, width: real)
    requires threshold > 0 && width > 0.0 && Ordered(h) && j < |h| && OpenedAt(h, j, threshold, width)
    requires j + 1 - threshold <= k < j
    ensures h[k].Failsafe? && !OpenedAt(h, k, threshold, width)
  {
    OpensExactlyAtOpenings(h, j, threshold, width);
    OpensExactlyAtOpenings(h, k, threshold, width);
    var before := h[..j];
    assert h[..j + 1][..j] == before && before[..k + 1] == h[..k + 1];
    RowFits(before, threshold, width);
    RowIsFailsafes(before, k, threshold, width);
  }

  /** Each opening ends a row of at least `threshold` fail-safes without verdict or opening. */
  lemma OpeningNeedsThreshold(h: seq<Event>, j: nat, threshold: nat, width: real)
    requires threshold > 0 && width > 0.0 && Ordered(h) && j < |h| && OpenedAt(h, j, threshold, width)
    ensures h[j].Failsafe? && threshold <= j + 1
    ensures forall k: nat | j + 1 - threshold <= k < j :: h[k].Failsafe? && !OpenedAt(h, k, threshold, width)
  {
    OpensExactlyAtOpenings(h, j, threshold, width);
    assert h[..j + 1][..j] == h[..j];
    RowFits(h[..j], threshold, width);
    forall k: nat | j + 1 - threshold <= k < j ensures h[k].Failsafe? && !OpenedAt(h, k, threshold, width) {
      InRow(h, j, k, threshold, width);
    }
  }
}
