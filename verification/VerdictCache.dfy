/**
 The verdict caches (`domain_cache`, `ip_cache`): an OrderedDict used as an LRU with lazy
 expiry.  One class serves both; they differ in how a key is normalised.  The clock, the
 configured size and the configured time to live are arguments of each call.
 */
module VerdictCache {
  import opened Common
  import opened Fusion
  import Text

  datatype Entry = Entry(verdict: Verdict, expireAt: real)

  /** An OrderedDict: `order` lists the keys, oldest first. */
  datatype Lru = Lru(order: seq<string>, items: map<string, Entry>)

  const EMPTY := Lru([], map[])

  ghost predicate Valid(c: Lru) {
    Distinct(c.order) && forall k :: k in c.order <==> k in c.items
  }

  function IndexOf(s: seq<string>, k: string): (i: nat)
    requires k in s
    ensures i < |s| && s[i] == k && k !in s[..i]
  {
    if s[0] == k then 0 else
      var i := IndexOf(s[1..], k);
      assert s[..i + 1] == [s[0]] + s[1..][..i];
      i + 1
  }

  function Without(s: seq<string>, k: string): seq<string> {
    if k in s then s[..IndexOf(s, k)] + s[IndexOf(s, k) + 1..] else s
  }

  /** `move_to_end`. */
  function Touch(s: seq<string>, k: string): seq<string> {
    Without(s, k) + [k]
  }

  // ----- one call, on values -----

  function Lookup(c: Lru, k: string, now: real): Option<Verdict> {
    if k in c.items && now < c.items[k].expireAt then Some(c.items[k].verdict) else None
  }

  function AfterGet(c: Lru, k: string, now: real): Lru {
    if k !in c.items then c
    else if now >= c.items[k].expireAt then Lru(Without(c.order, k), c.items - {k})
    else c.(order := Touch(c.order, k))
  }

  function AfterPut(c: Lru, k: string, e: Entry, capacity: nat): Lru {
    var order := Touch(c.order, k);
    var items := c.items[k := e];
    if |order| > capacity then Lru(order[1..], items - {order[0]}) else Lru(order, items)
  }

  /** Calls with an empty key do nothing. */
  function Hit(c: Lru, key: string, now: real): Option<Verdict> {
    if key == "" then None else Lookup(c, key, now)
  }

  function Got(c: Lru, key: string, now: real): Lru {
    if key == "" then c else AfterGet(c, key, now)
  }

  // ----- the caches themselves -----

  /** How each cache normalises its keys. */
  function DomainKey(raw: string): string {
    Text.RStrip(Text.Lower(Text.Strip(raw)), Text.IsDot)
  }

  function IpKey(raw: string): string {
    Text.Strip(raw)
  }

  function Capacity(size: int): nat { if size < 1024 then 1024 else size }

  function TimeToLive(ttl: real): real { if ttl < 1.0 then 1.0 else ttl }

  /** The cache after a put call, in the terms of the call. */
  function Stored(c: Lru, key: string, v: Verdict, now: real, ttl: real, size: int): Lru {
    if key == "" then c else AfterPut(c, key, Entry(v, now + TimeToLive(ttl)), Capacity(size))
  }

  class Cache {
    const key: string -> string
    var order: seq<string>
    var items: map<string, Entry>
    var hits: nat
    var misses: nat

    constructor (key: string -> string)
      ensures this.key == key && State() == EMPTY && Valid(State())
      ensures hits == 0 && misses == 0
    {
      this.key := key;
      order, items, hits, misses := [], map[], 0, 0;
    }

    function State(): Lru
      reads this
    {
      Lru(order, items)
    }

    method Get(raw: string, now: real) returns (r: Option<Verdict>)
      requires Valid(State())
      modifies this
      ensures Valid(State())
      ensures r == Hit(old(State()), key(raw), now)
      ensures State() == Got(old(State()), key(raw), now)
      ensures key(raw) != "" ==> r == Lookup(old(State()), key(raw), now)
      ensures key(raw) != "" ==> State() == Apply(old(State()), Op.Get(key(raw), now), Capacity(0))
      ensures hits == old(hits) + (if r.Some? then 1 else 0)
      ensures misses == old(misses) + (if key(raw) == "" || r.Some? then 0 else 1)
    {
      var k := key(raw);
      if k == "" {
        return None;
      }
      AfterGetValid(State(), k, now);
      if k !in items {
        misses := misses + 1;
        return None;
      }
      var item := items[k];
      if now >= item.expireAt {
        order, items := Without(order, k), items - {k};
        misses := misses + 1;
        return None;
      }
      order := Touch(order, k);
      hits := hits + 1;
      return Some(item.verdict);
    }

    method Put(raw: string, verdict: Verdict, now: real, ttl: real, size: int)
      requires Valid(State())
      modifies this`order, this`items
      ensures Valid(State())
      ensures State() == Stored(old(State()), key(raw), verdict, now, ttl, size)
      ensures key(raw) != "" ==>
                var e := Entry(verdict, now + (if ttl >= 1.0 then ttl else 1.0));
                State() == Apply(old(State()), Op.Put(key(raw), e), if size >= 1024 then size else 1024)
    {
      var k := key(raw);
      if k == "" {
        return;
      }
      var entry, maxSize := Entry(verdict, now + TimeToLive(ttl)), Capacity(size);
      AfterPutValid(State(), k, entry, maxSize);
      ghost var after := AfterPut(State(), k, entry, maxSize);
      items := items[k := entry];
      order := Touch(order, k);
      if |order| > maxSize {
        var oldest := order[0];
        order, items := order[1..], items - {oldest};
      }
      assert State() == after;
    }

    method Clear()
      modifies this`order, this`items
      ensures State() == EMPTY && Valid(State())
    {
      order, items := [], map[];
    }
  }

  // ----- every call keeps the representation -----

  /** Position by position, removal closes the gap. */
  lemma WithoutAt(s: seq<string>, k: string, i: nat)
    requires k in s && i == IndexOf(s, k)
    ensures |Without(s, k)| == |s| - 1
    ensures forall q | 0 <= q < i :: Without(s, k)[q] == s[q]
    ensures forall q | i <= q < |s| - 1 :: Without(s, k)[q] == s[q + 1]
  {
  }

  lemma WithoutMembers(s: seq<string>, k: string)
    requires Distinct(s)
    ensures Distinct(Without(s, k)) && k !in Without(s, k)
    ensures forall x :: x in Without(s, k) <==> x in s && x != k
    ensures k in s ==> |Without(s, k)| == |s| - 1
  {
    if k in s {
      var i := IndexOf(s, k);
      WithoutAt(s, k, i);
      assert s == s[..i] + [k] + s[i + 1..];
    }
  }

  lemma TouchMembers(s: seq<string>, k: string)
    requires Distinct(s)
    ensures Distinct(Touch(s, k))
    ensures forall x :: x in Touch(s, k) <==> x in s || x == k
  {
    WithoutMembers(s, k);
  }

  lemma AfterGetValid(c: Lru, k: string, now: real)
    requires Valid(c)
    ensures Valid(AfterGet(c, k, now))
  {
    WithoutMembers(c.order, k);
    TouchMembers(c.order, k);
  }

  lemma AfterPutValid(c: Lru, k: string, e: Entry, capacity: nat)
    requires Valid(c)
    ensures Valid(AfterPut(c, k, e, capacity))
    ensures capacity >= 1 && |c.order| <= capacity ==> |AfterPut(c, k, e, capacity).order| <= capacity
  {
    var order := Touch(c.order, k);
    TouchMembers(c.order, k);
    WithoutMembers(c.order, k);
    if |order| > capacity {
      assert order == [order[0]] + order[1..];
    }
  }

  // ----- whole runs -----

  datatype Op = Get(key: string, now: real) | Put(key: string, entry: Entry) | Clear

  function Apply(c: Lru, op: Op, capacity: nat): Lru {
    match op
    case Get(key, now) => AfterGet(c, key, now)
    case Put(key, entry) => AfterPut(c, key, entry, capacity)
    case Clear => EMPTY
  }

  function Run(c: Lru, ops: seq<Op>, capacity: nat): Lru {
    if ops == [] then c
    else Apply(Run(c, ops[..|ops| - 1], capacity), ops[|ops| - 1], capacity)
  }

  lemma {:induction false} RunKeepsSize(c: Lru, ops: seq<Op>, capacity: nat)
    requires Valid(c) && capacity >= 1 && |c.order| <= capacity
    ensures Valid(Run(c, ops, capacity)) && |Run(c, ops, capacity).order| <= capacity
  {
    if ops != [] {
      RunKeepsSize(c, ops[..|ops| - 1], capacity);
      var before := Run(c, ops[..|ops| - 1], capacity);
      match ops[|ops| - 1]
      case Get(key, now) =>
        AfterGetValid(before, key, now);
        WithoutMembers(before.order, key);
      case Put(key, entry) => AfterPutValid(before, key, entry, capacity);
      case Clear =>
    }
  }

  /** The simple cache: the last put of `k` since the last clear. */
  function LastPut(ops: seq<Op>, k: string): Option<Entry> {
    if ops == [] then None
    else match ops[|ops| - 1]
      case Clear => None
      case Put(key, entry) => if key == k then Some(entry) else LastPut(ops[..|ops| - 1], k)
      case Get(_, _) => LastPut(ops[..|ops| - 1], k)
  }

  lemma {:induction false} HeldEntryIsLastPut(ops: seq<Op>, k: string, capacity: nat)
    requires capacity >= 1
    requires k in Run(EMPTY, ops, capacity).items
    ensures LastPut(ops, k) == Some(Run(EMPTY, ops, capacity).items[k])
  {
    if ops != [] {
      var before := Run(EMPTY, ops[..|ops| - 1], capacity);
      if k in before.items {
        HeldEntryIsLastPut(ops[..|ops| - 1], k, capacity);
      }
    }
  }

  /** Refinement: a hit returns the verdict last put for that key since the last clear, unexpired. */
  lemma HitIsLastPut(ops: seq<Op>, k: string, now: real, capacity: nat)
    requires capacity >= 1
    requires Lookup(Run(EMPTY, ops, capacity), k, now).Some?
    ensures LastPut(ops, k).Some? && now < LastPut(ops, k).value.expireAt
    ensures Lookup(Run(EMPTY, ops, capacity), k, now).value == LastPut(ops, k).value.verdict
  {
    HeldEntryIsLastPut(ops, k, capacity);
  }

  // ----- recency -----

  /** The key a call moves to the young end: a put, or a get that hits. */
  function TouchedBy(c: Lru, op: Op): set<string> {
    match op
    case Put(key, _) => {key}
    case Get(key, now) => if Lookup(c, key, now).Some? then {key} else {}
    case Clear => {}
  }

  function TouchedDuring(c: Lru, ops: seq<Op>, capacity: nat): set<string> {
    if ops == [] then {}
    else
      var rest := ops[..|ops| - 1];
      TouchedDuring(c, rest, capacity) + TouchedBy(Run(c, rest, capacity), ops[|ops| - 1])
  }

  /** `k` stands in `order` with nothing but keys of `seen` behind it. */
  ghost predicate Behind(order: seq<string>, k: string, seen: set<string>) {
    exists p: int :: BehindAt(order, k, seen, p)
  }

  ghost predicate BehindAt(order: seq<string>, k: string, seen: set<string>, p: int) {
    0 <= p < |order| && order[p] == k && forall q | p < q < |order| :: order[q] in seen
  }

  lemma {:induction false} DistinctFits(s: seq<string>, members: set<string>)
    requires Distinct(s) && forall i | 0 <= i < |s| :: s[i] in members
    ensures |s| <= |members|
    decreases |s|
  {
    if s != [] {
      DistinctFits(s[1..], members - {s[0]});
    }
  }

  lemma WithoutKeepsBehind(order: seq<string>, k: string, j: string, seen: set<string>)
    requires Distinct(order) && Behind(order, k, seen) && j != k
    ensures Behind(Without(order, j), k, seen)
  {
    if j in order {
      var p: int :| BehindAt(order, k, seen, p);
      RemovalKeepsBehind(order, k, j, seen, p);
    }
  }

  lemma RemovalKeepsBehind(order: seq<string>, k: string, j: string, seen: set<string>, p: int)
    requires j in order && j != k && BehindAt(order, k, seen, p)
    ensures BehindAt(Without(order, j), k, seen, if p < IndexOf(order, j) then p else p - 1)
  {
    WithoutAt(order, j, IndexOf(order, j));
  }

  lemma TouchKeepsBehind(order: seq<string>, k: string, j: string, seen: set<string>)
    requires Distinct(order) && Behind(order, k, seen) && j != k
    ensures Behind(Touch(order, j), k, seen + {j})
  {
    WithoutKeepsBehind(order, k, j, seen);
    var rest := Without(order, j);
    var p: int :| BehindAt(rest, k, seen, p);
    assert BehindAt(rest + [j], k, seen + {j}, p);
  }

  /** Evicting the oldest key spares `k` while fewer than `capacity` keys stand behind it. */
  lemma EvictionSpares(order: seq<string>, k: string, seen: set<string>, capacity: nat)
    requires Distinct(order) && Behind(order, k, seen)
    requires |order| > capacity && |seen| < capacity
    ensures order[0] != k && Behind(order[1..], k, seen)
  {
    var p: int :| BehindAt(order, k, seen, p);
    if p == 0 {
      DistinctFits(order[1..], seen);
      assert false;
    }
    assert BehindAt(order[1..], k, seen, p - 1);
  }

  /** One call that neither clears, touches `k`, nor finds `k` expired leaves `k` in place. */
  lemma StepKeeps(c: Lru, op: Op, k: string, seen: set<string>, capacity: nat)
    requires Valid(c) && !op.Clear? && k in c.items
    requires Behind(c.order, k, seen) && k !in TouchedBy(c, op)
    requires |seen + TouchedBy(c, op)| < capacity
    requires op.Get? && op.key == k ==> op.now < c.items[k].expireAt
    ensures var after := Apply(c, op, capacity);
            k in after.items && after.items[k] == c.items[k] && Behind(after.order, k, seen + TouchedBy(c, op))
  {
    match op
    case Get(key, now) =>
      if key != k && key in c.items {
        TouchKeepsBehind(c.order, k, key, seen);
        WithoutKeepsBehind(c.order, k, key, seen);
      }
      if !Lookup(c, key, now).Some? {
        assert seen + TouchedBy(c, op) == seen;
      }
    case Put(key, entry) =>
      TouchKeepsBehind(c.order, k, key, seen);
      TouchMembers(c.order, key);
      if |Touch(c.order, key)| > capacity {
        EvictionSpares(Touch(c.order, key), k, seen + {key}, capacity);
      }
  }

  lemma {:induction false} RunKeeps(c: Lru, ops: seq<Op>, k: string, capacity: nat)
    requires Valid(c) && capacity >= 1 && |c.order| <= capacity
    requires k in c.items && c.order[|c.order| - 1..] == [k]
    requires forall op | op in ops :: !op.Clear? && (op.Get? && op.key == k ==> op.now < c.items[k].expireAt)
    requires k !in TouchedDuring(c, ops, capacity) && |TouchedDuring(c, ops, capacity)| < capacity
    ensures var after := Run(c, ops, capacity);
            k in after.items && after.items[k] == c.items[k]
            && Behind(after.order, k, TouchedDuring(c, ops, capacity))
  {
    if ops == [] {
      assert BehindAt(c.order, k, {}, |c.order| - 1);
    } else {
      var rest, op := ops[..|ops| - 1], ops[|ops| - 1];
      var earlier, before := TouchedDuring(c, rest, capacity), Run(c, rest, capacity);
      Subset(earlier, TouchedDuring(c, ops, capacity));
      RunKeeps(c, rest, k, capacity);
      RunKeepsSize(c, rest, capacity);
      assert op in ops;
      StepKeeps(before, op, k, earlier, capacity);
    }
  }

  lemma {:induction false} Subset(a: set<string>, b: set<string>)
    requires a <= b
    ensures |a| <= |b|
  {
    assert b == a + (b - a);
  }

  /** A put leaves its key youngest, within capacity. */
  lemma PutIsYoungest(c: Lru, k: string, e: Entry, capacity: nat)
    requires Valid(c) && capacity >= 1 && |c.order| <= capacity
    ensures var after := AfterPut(c, k, e, capacity);
            && Valid(after) && |after.order| <= capacity
            && k in after.items && after.items[k] == e && after.order[|after.order| - 1..] == [k]
  {
    AfterPutValid(c, k, e, capacity);
    var order := Touch(c.order, k);
    TouchMembers(c.order, k);
    if |order| > capacity {
      assert order[0] != order[|order| - 1];
    }
  }

  /**
   Recency: after a put of `k`, while fewer than `capacity` distinct other keys are put or
   hit, and before its expiry, `k` still hits with the verdict put.
   */
  lemma RecentPutHits(c: Lru, k: string, e: Entry, ops: seq<Op>, now: real, capacity: nat)
    requires Valid(c) && capacity >= 1 && |c.order| <= capacity
    requires forall op | op in ops :: !op.Clear? && (op.Get? && op.key == k ==> op.now < e.expireAt)
    requires now < e.expireAt
    requires k !in TouchedDuring(AfterPut(c, k, e, capacity), ops, capacity)
    requires |TouchedDuring(AfterPut(c, k, e, capacity), ops, capacity)| < capacity
    ensures Lookup(Run(AfterPut(c, k, e, capacity), ops, capacity), k, now) == Some(e.verdict)
  {
    PutIsYoungest(c, k, e, capacity);
    RunKeeps(AfterPut(c, k, e, capacity), ops, k, capacity);
  }

  /** Recency after a hit of `k`, with the same bound. */
  lemma RecentHitHits(c: Lru, k: string, at: real, ops: seq<Op>, now: real, capacity: nat)
    requires Valid(c) && capacity >= 1 && |c.order| <= capacity
    requires Lookup(c, k, at).Some?
    requires forall op | op in ops :: !op.Clear? && (op.Get? && op.key == k ==> op.now < c.items[k].expireAt)
    requires now < c.items[k].expireAt
    requires k !in TouchedDuring(AfterGet(c, k, at), ops, capacity)
    requires |TouchedDuring(AfterGet(c, k, at), ops, capacity)| < capacity
    ensures Lookup(Run(AfterGet(c, k, at), ops, capacity), k, now) == Lookup(c, k, at)
  {
    AfterGetValid(c, k, at);
    WithoutMembers(c.order, k);
    RunKeeps(AfterGet(c, k, at), ops, k, capacity);
  }
}
