/** Small types shared by every component. */
module Common {

  /** Python's `X | None`. */
  datatype Option<+T> = None | Some(value: T)

  type Byte = x: int | 0 <= x < 256

  /** No element occurs twice. */
  predicate Distinct<T(==)>(s: seq<T>) {
    forall i, j | 0 <= i < j < |s| :: s[i] != s[j]
  }

  function OneOut<T>(s: seq<T>, i: nat): seq<T>
    requires i < |s|
  {
    s[..i] + s[i + 1..]
  }

  lemma OneOutCounts<T>(s: seq<T>, i: nat)
    requires i < |s|
    ensures multiset(OneOut(s, i)) + multiset{s[i]} == multiset(s)
  {
    assert s == s[..i] + [s[i]] + s[i + 1..];
  }
}
