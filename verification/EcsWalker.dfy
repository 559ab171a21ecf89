/**
 The platform's hand-written walk over a raw query (`_skip_name`, `_parse_ecs_option`,
 `extract_client_ip`).  `None` stands for both "no address" and the swallowed exception.
 Python slices are clamped, so a short slice reads as a small number instead of failing.
 */
module EcsWalker {
  import opened Common
  import opened DnsWire

  datatype Address = V4(octets: Bytes) | V6(octets: Bytes)

  // ----- Python's view of bytes -----

  function Min(a: int, b: int): int { if a <= b then a else b }

  /** `data[from:to]` for non-negative bounds. */
  function Slice(data: Bytes, from: nat, to: nat): Bytes {
    if from < Min(to, |data|) then data[from..Min(to, |data|)] else []
  }

  /** `int.from_bytes(b, "big")`. */
  function FromBytes(b: Bytes): nat {
    if b == [] then 0 else FromBytes(b[..|b| - 1]) * 256 + b[|b| - 1]
  }

  /** `int.from_bytes(data[pos:pos + 2], "big")`: past the end a slice shortens. */
  function WordAt(data: Bytes, pos: nat): nat {
    if pos + 1 < |data| then (data[pos] as int) * 256 + data[pos + 1]
    else if pos < |data| then data[pos]
    else 0
  }

  lemma WordAtReadsSlice(data: Bytes, pos: nat)
    ensures WordAt(data, pos) == FromBytes(Slice(data, pos, pos + 2))
  {
    var s := Slice(data, pos, pos + 2);
    if |s| > 0 {
      assert s[..1] == [data[pos]] && s[..0] == [];
      assert FromBytes([data[pos]]) == data[pos];
    }
  }

  /** The first `n` octets, zero-padded on the right. */
  function PadTo(b: Bytes, n: nat): (r: Bytes)
    ensures |r| == n
  {
    seq(n, i requires 0 <= i < n => if i < |b| then b[i] else 0)
  }

  // ----- the walk as functions -----

  function SkipName(data: Bytes, pos: nat): (r: Option<nat>)
    ensures r.Some? ==> pos < |data| && pos < r.value
    decreases |data| - pos
  {
    if pos >= |data| then None
    else if data[pos] == 0 then Some(pos + 1)
    else if data[pos] >= 192 then Some(pos + 2)
    else SkipName(data, pos + 1 + data[pos])
  }

  function SkipQuestions(data: Bytes, pos: nat, n: nat): Option<nat>
    decreases n
  {
    if n == 0 then Some(pos) else
      match SkipName(data, pos)
      case None => None
      case Some(p) => SkipQuestions(data, p + 4, n - 1)
  }

  /** Where the record after the one whose type field is at `p` starts. */
  function NextRecord(data: Bytes, p: nat): nat {
    p + 10 + WordAt(data, p + 8)
  }

  function SkipRecords(data: Bytes, pos: nat, n: nat): Option<nat>
    decreases n
  {
    if n == 0 then Some(pos) else
      match SkipName(data, pos)
      case None => None
      case Some(p) => SkipRecords(data, NextRecord(data, p), n - 1)
  }

  function ParseSubnet(opt: Bytes): Option<Address> {
    if |opt| <= 4 then None
    else
      var family := WordAt(opt, 0);
      if family == 1 then Some(V4(PadTo(opt[4..], 4)))
      else if family == 2 then Some(V6(PadTo(opt[4..], 16)))
      else None
  }

  function ScanOptions(rdata: Bytes, p: nat): Option<Address>
    decreases |rdata| - p
  {
    if p + 4 > |rdata| then None
    else
      var len := WordAt(rdata, p + 2);
      var opt := Slice(rdata, p + 4, p + 4 + len);
      if WordAt(rdata, p) == SUBNET_CODE && ParseSubnet(opt).Some? then ParseSubnet(opt)
      else ScanOptions(rdata, p + 4 + len)
  }

  /** What the record whose type field is at `p` yields: only an OPT record yields anything. */
  function ScanRecord(data: Bytes, p: nat): Option<Address> {
    if WordAt(data, p) == OPT_TYPE
    then ScanOptions(Slice(data, p + 10, p + 10 + WordAt(data, p + 8)), 0)
    else None
  }

  function ScanAdditional(data: Bytes, pos: nat, n: nat): Option<Address>
    decreases n
  {
    if n == 0 then None else
      match SkipName(data, pos)
      case None => None
      case Some(p) =>
        if ScanRecord(data, p).Some? then ScanRecord(data, p)
        else ScanAdditional(data, NextRecord(data, p), n - 1)
  }

  function ExtractClientIp(data: Bytes): Option<Address> {
    if |data| < 12 then None else
      match SkipQuestions(data, 12, WordAt(data, 4))
      case None => None
      case Some(p) =>
        match SkipRecords(data, p, WordAt(data, 6) + WordAt(data, 8))
        case None => None
        case Some(q) => ScanAdditional(data, q, WordAt(data, 10))
  }

  // ----- the walk as the loops the platform runs -----

  /** Budget of loop iterations a walk standing at `pos` may have used so far. */
  ghost function Budget(data: Bytes, pos: nat): nat {
    if pos < |data| then pos else |data| + 2
  }

  method SkipNameLoop(data: Bytes, start: nat, ghost before: nat)
    returns (r: Option<nat>, ghost visits: nat)
    requires before <= Budget(data, start)
    ensures r == SkipName(data, start)
    ensures r.Some? ==> visits + 1 <= Budget(data, r.value + 4)
    ensures visits <= |data| + 3
  {
    var pos: nat := start;
    visits := before;
    while true
      invariant start <= pos
      invariant SkipName(data, start) == SkipName(data, pos)
      invariant visits <= Budget(data, pos)
      decreases |data| - pos
    {
      visits := visits + 1;
      if pos >= |data| {
        return None, visits;
      }
      var length := data[pos];
      if length == 0 {
        return Some(pos + 1), visits;
      }
      if length >= 192 {
        return Some(pos + 2), visits;
      }
      pos := pos + 1 + length;
    }
  }

  /**
   `_parse_ecs_option`.  An address comes back exactly when the family is 1 or 2 and at least
   one address octet follows the four header octets; octets that were not sent read as 0.
   */
  method ParseSubnetOption(opt: Bytes) returns (r: Option<Address>)
    ensures r.Some? <==> |opt| >= 5 && FromBytes(opt[..2]) in {1, 2}
    ensures r.Some? ==> (r.value.V4? <==> FromBytes(opt[..2]) == 1)
    ensures r.Some? ==> |r.value.octets| == if r.value.V4? then 4 else 16
    ensures r.Some? ==> forall i | 0 <= i < |r.value.octets| ::
                          r.value.octets[i] == if 4 + i < |opt| then opt[4 + i] else 0
    ensures r == ParseSubnet(opt)
  {
    WordAtReadsSlice(opt, 0);
    if |opt| < 4 {
      return None;
    }
    var family := WordAt(opt, 0);
    var part := opt[4..];
    if family == 1 {
      if part == [] { return None; }
      return Some(V4(PadTo(part, 4)));
    }
    if family == 2 {
      if part == [] { return None; }
      return Some(V6(PadTo(part, 16)));
    }
    return None;
  }

  method ScanOptionsLoop(rdata: Bytes) returns (r: Option<Address>, ghost visits: nat)
    ensures r == ScanOptions(rdata, 0)
    ensures visits * 4 <= |rdata|
  {
    var p := 0;
    visits := 0;
    while p + 4 <= |rdata|
      invariant ScanOptions(rdata, 0) == ScanOptions(rdata, p)
      invariant visits * 4 <= p && visits * 4 <= |rdata|
      decreases |rdata| - p
    {
      visits := visits + 1;
      var code := WordAt(rdata, p);
      var olen := WordAt(rdata, p + 2);
      var opt := Slice(rdata, p + 4, p + 4 + olen);
      p := p + 4 + olen;
      if code == SUBNET_CODE {
        var ip := ParseSubnetOption(opt);
        if ip.Some? {
          return ip, visits;
        }
      }
    }
    return None, visits;
  }

  /** First loop of `extract_client_ip`: past the questions. */
  method SkipQuestionsLoop(data: Bytes, start: nat, qdcount: nat, ghost before: nat)
    returns (r: Option<nat>, ghost visits: nat)
    requires before <= Budget(data, start)
    ensures r == SkipQuestions(data, start, qdcount)
    ensures visits <= |data| + 3
    ensures r.Some? ==> visits <= Budget(data, r.value)
  {
    var pos: nat := start;
    visits := before;
    for i := 0 to qdcount
      invariant visits <= Budget(data, pos)
      invariant SkipQuestions(data, start, qdcount) == SkipQuestions(data, pos, qdcount - i)
    {
      r, visits := SkipNameLoop(data, pos, visits);
      if r.None? {
        return None, visits;
      }
      visits := visits + 1;
      pos := r.value + 4;
    }
    return Some(pos), visits;
  }

  /** Second loop: past the answer and authority records. */
  method SkipRecordsLoop(data: Bytes, start: nat, count: nat, ghost before: nat)
    returns (r: Option<nat>, ghost visits: nat)
    requires before <= Budget(data, start)
    ensures r == SkipRecords(data, start, count)
    ensures visits <= |data| + 3
    ensures r.Some? ==> visits <= Budget(data, r.value)
  {
    var pos: nat := start;
    visits := before;
    for i := 0 to count
      invariant visits <= Budget(data, pos)
      invariant SkipRecords(data, start, count) == SkipRecords(data, pos, count - i)
    {
      r, visits := SkipNameLoop(data, pos, visits);
      if r.None? {
        return None, visits;
      }
      visits := visits + 1;
      pos := r.value + 8;
      var rdlen := WordAt(data, pos);
      pos := pos + 2 + rdlen;
    }
    return Some(pos), visits;
  }

  /** The fields of one additional record, its name already skipped; `next` is past its data. */
  method ScanRecordFields(data: Bytes, start: nat)
    returns (ip: Option<Address>, next: nat, ghost visits: nat)
    ensures ip == ScanRecord(data, start)
    ensures next == NextRecord(data, start)
    ensures visits == 0 || start + 10 + visits <= Min(next, |data|)
  {
    visits := 0;
    ip := None;
    var pos := start;
    var rtype := WordAt(data, pos);
    pos := pos + 8;
    var rdlen := WordAt(data, pos);
    pos := pos + 2;
    var rdata := Slice(data, pos, pos + rdlen);
    assert rdata == Slice(data, start + 10, start + 10 + WordAt(data, start + 8));
    if rtype == OPT_TYPE {
      ip, visits := ScanOptionsLoop(rdata);
    }
    next := pos + rdlen;
  }

  /** Third loop: the additional records, looking inside every OPT record. */
  method ScanAdditionalLoop(data: Bytes, start: nat, arcount: nat, ghost before: nat)
    returns (ip: Option<Address>, ghost visits: nat)
    requires before <= Budget(data, start)
    ensures ip == ScanAdditional(data, start, arcount)
    ensures visits <= |data| + 3
  {
    var pos: nat := start;
    visits := before;
    for i := 0 to arcount
      invariant visits <= Budget(data, pos)
      invariant ScanAdditional(data, start, arcount) == ScanAdditional(data, pos, arcount - i)
    {
      var r;
      ghost var inOptions;
      r, visits := SkipNameLoop(data, pos, visits);
      if r.None? {
        return None, visits;
      }
      visits := visits + 1;
      ip, pos, inOptions := ScanRecordFields(data, r.value);
      visits := visits + inOptions;
      if ip.Some? {
        return ip, visits;
      }
    }
    return None, visits;
  }

  /**
   `extract_client_ip`.  It ends on every byte string, and the labels, records and options
   it looks at number at most |data| + 3, whatever counts the header claims.
   */
  method ExtractClientIpLoop(data: Bytes) returns (ip: Option<Address>, ghost visits: nat)
    ensures ip == ExtractClientIp(data)
    ensures visits <= |data| + 3
  {
    visits := 0;
    if |data| < 12 {
      return None, visits;
    }
    var r;
    r, visits := SkipQuestionsLoop(data, 12, WordAt(data, 4), visits);
    if r.None? {
      return None, visits;
    }
    r, visits := SkipRecordsLoop(data, r.value, WordAt(data, 6) + WordAt(data, 8), visits);
    if r.None? {
      return None, visits;
    }
    ip, visits := ScanAdditionalLoop(data, r.value, WordAt(data, 10), visits);
  }

  // ----- on the octets themselves -----

  /** A query for the name "a" with a subnet option for the address `a`, octet by octet. */
  function Sample(a: Bytes): Bytes {
    [18, 52, 1, 0, 0, 1, 0, 0, 0, 0, 0, 1] + [1, 97, 0, 0, 1, 0, 1]
    + [0, 0, 41, 4, 208, 0, 0, 0, 0, 0, 12] + [0, 8, 0, 8, 0, 1, 32, 0] + a
  }

  lemma SampleIsRead(a: Bytes)
    requires |a| == 4
    ensures ExtractClientIp(Sample(a)) == Some(V4(a))
  {
    var data := Sample(a);
    assert |data| == 42 && data[..12] == [18, 52, 1, 0, 0, 1, 0, 0, 0, 0, 0, 1];
    assert WordAt(data, 4) == 1 && WordAt(data, 6) == 0 && WordAt(data, 8) == 0 && WordAt(data, 10) == 1;
    assert SkipName(data, 12) == Some(15) by {
      assert data[12] == 1 && data[14] == 0;
      assert SkipName(data, 14) == Some(15);
    }
    assert SkipQuestions(data, 12, 1) == SkipQuestions(data, 19, 0);
    assert SkipName(data, 19) == Some(20);
    assert WordAt(data, 20) == 41 && WordAt(data, 28) == 12;
    var rdata := Slice(data, 30, 42);
    assert rdata == [0, 8, 0, 8, 0, 1, 32, 0] + a;
    assert WordAt(rdata, 0) == 8 && WordAt(rdata, 2) == 8;
    var opt := Slice(rdata, 4, 12);
    assert opt == [0, 1, 32, 0] + a && WordAt(opt, 0) == 1 && opt[4..] == a;
    assert PadTo(a, 4) == a;
    assert ScanOptions(rdata, 0) == Some(V4(a));
    assert ScanRecord(data, 20) == Some(V4(a));
  }
}
