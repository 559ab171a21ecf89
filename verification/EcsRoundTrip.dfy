/**
 The walk inverts the encoding: on every encoded query it finds exactly the first subnet
 option that carries an address, whatever surrounds it.
 */
module EcsRoundTrip {
  import opened Common
  import opened DnsWire
  import opened EcsWalker

  /** The encoding `enc` stands in `data` at `pos`. */
  ghost predicate At(data: Bytes, pos: nat, enc: Bytes) {
    pos + |enc| <= |data| && data[pos..pos + |enc|] == enc
  }

  lemma AtSplit(data: Bytes, pos: nat, a: Bytes, b: Bytes)
    requires At(data, pos, a + b)
    ensures At(data, pos, a) && At(data, pos + |a|, b)
  {
    assert data[pos..pos + |a|] == data[pos..pos + |a + b|][..|a|];
    assert data[pos + |a|..pos + |a| + |b|] == data[pos..pos + |a + b|][|a|..];
  }

  lemma WordReads(data: Bytes, pos: nat, n: Word)
    requires At(data, pos, EncodeWord(n))
    ensures WordAt(data, pos) == n
  {
    assert data[pos..pos + 2] == EncodeWord(n) == [High(n), n - 256 * High(n)];
    assert data[pos] == data[pos..pos + 2][0] && data[pos + 1] == data[pos..pos + 2][1];
  }

  lemma {:induction false} NameSkipped(data: Bytes, pos: nat, labels: seq<Label>, end: NameEnd)
    requires At(data, pos, EncodeName(labels, end))
    ensures SkipName(data, pos) == Some(pos + |EncodeName(labels, end)|)
    decreases |labels|
  {
    if labels != [] {
      var rest := EncodeName(labels[1..], end);
      AtSplit(data, pos, [|labels[0]|] + labels[0], rest);
      AtSplit(data, pos, [|labels[0]|], labels[0]);
      assert data[pos] == data[pos..pos + 1][0] == |labels[0]|;
      NameSkipped(data, pos + 1 + |labels[0]|, labels[1..], end);
    } else {
      assert data[pos] == data[pos..pos + |EncodeName(labels, end)|][0];
    }
  }

  lemma QuestionSkipped(data: Bytes, pos: nat, q: Question, next: nat, n: nat)
    requires At(data, pos, EncodeQuestion(q)) && next == pos + |EncodeQuestion(q)| && n > 0
    ensures SkipQuestions(data, pos, n) == SkipQuestions(data, next, n - 1)
  {
    AtSplit(data, pos, EncodeName(q.name.labels, q.name.end), EncodeWord(q.qtype) + EncodeWord(q.qclass));
    NameSkipped(data, pos, q.name.labels, q.name.end);
    assert next == SkipName(data, pos).value + 4;
  }

  lemma {:induction false} QuestionsSkipped(data: Bytes, pos: nat, qs: seq<Question>, n: nat, end: nat)
    requires n == |qs| && end == pos + |EncodeQuestions(qs)|
    requires At(data, pos, EncodeQuestions(qs))
    ensures SkipQuestions(data, pos, n) == Some(end)
    decreases n
  {
    if n != 0 {
      var enc, rest := EncodeQuestion(qs[0]), EncodeQuestions(qs[1..]);
      AtSplit(data, pos, enc, rest);
      var next := pos + |enc|;
      QuestionSkipped(data, pos, qs[0], next, n);
      QuestionsSkipped(data, next, qs[1..], n - 1, end);
    }
  }

  /** Type, length and data of a record are read back; the next record is found. */
  lemma FieldsRead(data: Bytes, p: nat, rtype: Word, rclass: Word, ttl: FourOctets, rdata: Data)
    requires At(data, p, EncodeWord(rtype) + EncodeBody(rclass, ttl, rdata))
    ensures WordAt(data, p) == rtype && WordAt(data, p + 8) == |rdata|
    ensures NextRecord(data, p) == p + 10 + |rdata|
    ensures Slice(data, p + 10, p + 10 + WordAt(data, p + 8)) == rdata
  {
    var len := EncodeWord(|rdata|);
    var fixed := EncodeWord(rclass) + ttl;
    AtSplit(data, p, EncodeWord(rtype), EncodeBody(rclass, ttl, rdata));
    AtSplit(data, p + 2, fixed + len, rdata);
    AtSplit(data, p + 2, fixed, len);
    WordReads(data, p, rtype);
    WordReads(data, p + 8, |rdata|);
  }

  /** Where the two parts of an encoded record stand. */
  lemma RecordStands(data: Bytes, pos: nat, r: Record, p: nat)
    requires At(data, pos, EncodeRecord(r)) && p == pos + |EncodeName(r.name.labels, r.name.end)|
    ensures At(data, pos, EncodeName(r.name.labels, r.name.end))
    ensures At(data, p, EncodeWord(r.rtype) + EncodeBody(r.rclass, r.ttl, r.rdata))
    ensures pos + |EncodeRecord(r)| == p + 10 + |r.rdata|
  {
    AtSplit(data, pos, EncodeName(r.name.labels, r.name.end),
            EncodeWord(r.rtype) + EncodeBody(r.rclass, r.ttl, r.rdata));
  }

  lemma RecordRead(data: Bytes, pos: nat, r: Record, p: nat, next: nat)
    requires At(data, pos, EncodeRecord(r))
    requires p == pos + |EncodeName(r.name.labels, r.name.end)| && next == pos + |EncodeRecord(r)|
    ensures SkipName(data, pos) == Some(p)
    ensures WordAt(data, p) == r.rtype && NextRecord(data, p) == next
    ensures Slice(data, p + 10, p + 10 + WordAt(data, p + 8)) == r.rdata
  {
    RecordStands(data, pos, r, p);
    NameSkipped(data, pos, r.name.labels, r.name.end);
    FieldsRead(data, p, r.rtype, r.rclass, r.ttl, r.rdata);
  }

  lemma RecordSkipped(data: Bytes, pos: nat, r: Record, next: nat, n: nat)
    requires At(data, pos, EncodeRecord(r)) && next == pos + |EncodeRecord(r)| && n > 0
    ensures SkipRecords(data, pos, n) == SkipRecords(data, next, n - 1)
  {
    var p := pos + |EncodeName(r.name.labels, r.name.end)|;
    RecordRead(data, pos, r, p, next);
    assert SkipRecords(data, pos, n) == SkipRecords(data, NextRecord(data, p), n - 1);
  }

  lemma {:induction false} RecordsSkipped(data: Bytes, pos: nat, rs: seq<Record>, n: nat, end: nat)
    requires n == |rs| && end == pos + |EncodeRecords(rs)|
    requires At(data, pos, EncodeRecords(rs))
    ensures SkipRecords(data, pos, n) == Some(end)
    decreases n
  {
    if n != 0 {
      var enc, rest := EncodeRecord(rs[0]), EncodeRecords(rs[1..]);
      AtSplit(data, pos, enc, rest);
      var next := pos + |enc|;
      RecordSkipped(data, pos, rs[0], next, n);
      RecordsSkipped(data, next, rs[1..], n - 1, end);
    }
  }

  // ----- the subnet option -----

  /** The address a subnet option carries, if it carries one. */
  function SubnetAddress(o: EdnsOption): Option<Address>
    requires ValidOption(o)
  {
    if o.Subnet? && o.source > 0
    then Some(if o.family == 1 then V4(Masked(o.address, o.source)) else V6(Masked(o.address, o.source)))
    else None
  }

  lemma PaddingRestores(address: Bytes, source: nat)
    requires source <= 8 * |address|
    ensures PadTo(Truncated(address, source), |address|) == Masked(address, source)
  {
  }

  lemma SubnetLayout(data: Bytes, family: Word, head: Bytes, octets: Bytes)
    requires data == EncodeWord(family) + head + octets && |head| == 2
    ensures |data| == 4 + |octets| && WordAt(data, 0) == family && data[4..] == octets
  {
    assert data == EncodeWord(family) + (head + octets);
    assert At(data, 0, EncodeWord(family));
    WordReads(data, 0, family);
  }

  /** RFC 7871 encoding, then the platform's parser: the masked address comes back. */
  lemma SubnetParsed(o: EdnsOption)
    requires ValidOption(o) && o.Subnet?
    ensures ParseSubnet(OptionData(o)) == SubnetAddress(o)
  {
    SubnetLayout(OptionData(o), o.family, [o.source, o.scope], Truncated(o.address, o.source));
    PaddingRestores(o.address, o.source);
  }

  function FirstInOptions(os: seq<EdnsOption>): Option<Address>
    requires forall o | o in os :: ValidOption(o)
  {
    if os == [] then None
    else if SubnetAddress(os[0]).Some? then SubnetAddress(os[0])
    else FirstInOptions(os[1..])
  }

  lemma OptionRead(rdata: Bytes, p: nat, o: EdnsOption, next: nat)
    requires ValidOption(o)
    requires At(rdata, p, EncodeOption(o)) && next == p + |EncodeOption(o)|
    ensures WordAt(rdata, p) == OptionCode(o) && next == p + 4 + WordAt(rdata, p + 2) <= |rdata|
    ensures Slice(rdata, p + 4, p + 4 + WordAt(rdata, p + 2)) == OptionData(o)
  {
    var code, len := EncodeWord(OptionCode(o)), EncodeWord(|OptionData(o)|);
    AtSplit(rdata, p, code + len, OptionData(o));
    AtSplit(rdata, p, code, len);
    WordReads(rdata, p, OptionCode(o));
    WordReads(rdata, p + 2, |OptionData(o)|);
  }

  /** Code and data of an option decide what its turn of the loop yields. */
  lemma OptionYields(rdata: Bytes, p: nat, o: EdnsOption, next: nat)
    requires ValidOption(o) && next == p + 4 + WordAt(rdata, p + 2) <= |rdata|
    requires WordAt(rdata, p) == OptionCode(o)
    requires Slice(rdata, p + 4, p + 4 + WordAt(rdata, p + 2)) == OptionData(o)
    ensures ScanOptions(rdata, p) == if SubnetAddress(o).Some? then SubnetAddress(o) else ScanOptions(rdata, next)
  {
    if o.Subnet? {
      SubnetParsed(o);
    }
  }

  /** One turn of the option loop over an encoded option. */
  lemma OptionScanned(rdata: Bytes, p: nat, o: EdnsOption, next: nat)
    requires ValidOption(o)
    requires At(rdata, p, EncodeOption(o)) && next == p + |EncodeOption(o)|
    ensures ScanOptions(rdata, p) == if SubnetAddress(o).Some? then SubnetAddress(o) else ScanOptions(rdata, next)
  {
    OptionRead(rdata, p, o, next);
    OptionYields(rdata, p, o, next);
  }

  lemma {:induction false} OptionsScanned(rdata: Bytes, p: nat, os: seq<EdnsOption>)
    requires forall o | o in os :: ValidOption(o)
    requires At(rdata, p, EncodeOptions(os)) && p + |EncodeOptions(os)| == |rdata|
    ensures ScanOptions(rdata, p) == FirstInOptions(os)
    decreases |os|
  {
    if os != [] {
      var enc, rest := EncodeOption(os[0]), EncodeOptions(os[1..]);
      AtSplit(rdata, p, enc, rest);
      var next := p + |enc|;
      OptionScanned(rdata, p, os[0], next);
      OptionsScanned(rdata, next, os[1..]);
    }
  }

  /** What one additional record yields. */
  function RecordAddress(a: Additional): Option<Address>
    requires ValidAdditional(a)
  {
    if a.Opt? then FirstInOptions(a.options) else None
  }

  function FirstSubnet(adds: seq<Additional>): Option<Address>
    requires forall a | a in adds :: ValidAdditional(a)
  {
    if adds == [] then None
    else if RecordAddress(adds[0]).Some? then RecordAddress(adds[0])
    else FirstSubnet(adds[1..])
  }

  /** The fields of an additional record decide what its scan yields. */
  lemma FieldsYield(data: Bytes, p: nat, a: Additional)
    requires ValidAdditional(a)
    requires WordAt(data, p) == AsRecord(a).rtype
    requires Slice(data, p + 10, p + 10 + WordAt(data, p + 8)) == AsRecord(a).rdata
    ensures ScanRecord(data, p) == RecordAddress(a)
  {
    if a.Opt? {
      OptionsScanned(EncodeOptions(a.options), 0, a.options);
    }
  }

  lemma AdditionalRead(data: Bytes, pos: nat, a: Additional, next: nat)
    requires ValidAdditional(a)
    requires At(data, pos, EncodeRecord(AsRecord(a))) && next == pos + |EncodeRecord(AsRecord(a))|
    ensures SkipName(data, pos).Some?
    ensures NextRecord(data, SkipName(data, pos).value) == next
    ensures ScanRecord(data, SkipName(data, pos).value) == RecordAddress(a)
  {
    var p := pos + |EncodeName(AsRecord(a).name.labels, AsRecord(a).name.end)|;
    RecordRead(data, pos, AsRecord(a), p, next);
    FieldsYield(data, p, a);
  }

  /** One turn of the additional-record loop. */
  lemma AdditionalStep(data: Bytes, pos: nat, a: Additional, next: nat, n: nat)
    requires ValidAdditional(a) && n > 0
    requires At(data, pos, EncodeRecord(AsRecord(a))) && next == pos + |EncodeRecord(AsRecord(a))|
    ensures ScanAdditional(data, pos, n) ==
              if RecordAddress(a).Some? then RecordAddress(a) else ScanAdditional(data, next, n - 1)
  {
    AdditionalRead(data, pos, a, next);
  }

  lemma AdditionalsSplit(data: Bytes, pos: nat, adds: seq<Additional>, next: nat)
    requires adds != [] && forall a | a in adds :: ValidAdditional(a)
    requires At(data, pos, EncodeAdditionals(adds)) && next == pos + |EncodeRecord(AsRecord(adds[0]))|
    ensures At(data, pos, EncodeRecord(AsRecord(adds[0])))
    ensures At(data, next, EncodeAdditionals(adds[1..]))
  {
    AtSplit(data, pos, EncodeRecord(AsRecord(adds[0])), EncodeAdditionals(adds[1..]));
  }

  lemma {:induction false} AdditionalScanned(data: Bytes, pos: nat, adds: seq<Additional>, n: nat)
    requires n == |adds| && forall a | a in adds :: ValidAdditional(a)
    requires At(data, pos, EncodeAdditionals(adds))
    ensures ScanAdditional(data, pos, n) == FirstSubnet(adds)
    decreases n
  {
    if n != 0 {
      var next := pos + |EncodeRecord(AsRecord(adds[0]))|;
      AdditionalsSplit(data, pos, adds, next);
      AdditionalStep(data, pos, adds[0], next, n);
      AdditionalScanned(data, next, adds[1..], n - 1);
    }
  }

  // ----- the whole message -----

  lemma HeaderRead(data: Bytes, m: Message)
    requires WellFormed(m)
    requires At(data, 0, EncodeHeader(m))
    ensures WordAt(data, 4) == |m.questions| && WordAt(data, 6) == |m.answers|
    ensures WordAt(data, 8) == |m.authority| && WordAt(data, 10) == |m.additional|
  {
    assert data[..12] == data[0..12] == EncodeHeader(m);
    assert data[4..6] == data[..12][4..6] == EncodeWord(|m.questions|);
    assert data[6..8] == data[..12][6..8] == EncodeWord(|m.answers|);
    assert data[8..10] == data[..12][8..10] == EncodeWord(|m.authority|);
    assert data[10..12] == data[..12][10..12] == EncodeWord(|m.additional|);
    WordReads(data, 4, |m.questions|);
    WordReads(data, 6, |m.answers|);
    WordReads(data, 8, |m.authority|);
    WordReads(data, 10, |m.additional|);
  }

  lemma SectionsStand(data: Bytes, h: Bytes, qs: Bytes, rs: Bytes, adds: Bytes)
    requires data == h + (qs + (rs + adds))
    ensures At(data, 0, h) && At(data, |h|, qs)
    ensures At(data, |h| + |qs|, rs) && At(data, |h| + |qs| + |rs|, adds)
  {
    AtSplit(data, 0, h, qs + (rs + adds));
    AtSplit(data, |h|, qs, rs + adds);
    AtSplit(data, |h| + |qs|, rs, adds);
  }

  lemma SectionsWalked(data: Bytes, qs: seq<Question>, rs: seq<Record>, adds: seq<Additional>, p: nat, q: nat)
    requires |data| >= 12 && forall a | a in adds :: ValidAdditional(a)
    requires WordAt(data, 4) == |qs| && WordAt(data, 6) + WordAt(data, 8) == |rs|
    requires WordAt(data, 10) == |adds|
    requires At(data, 12, EncodeQuestions(qs)) && p == 12 + |EncodeQuestions(qs)|
    requires At(data, p, EncodeRecords(rs)) && q == p + |EncodeRecords(rs)|
    requires At(data, q, EncodeAdditionals(adds))
    ensures ExtractClientIp(data) == FirstSubnet(adds)
  {
    var n, k := WordAt(data, 4), WordAt(data, 6) + WordAt(data, 8);
    assert SkipQuestions(data, 12, n) == Some(p) by { QuestionsSkipped(data, 12, qs, n, p); }
    assert SkipRecords(data, p, k) == Some(q) by { RecordsSkipped(data, p, rs, k, q); }
    AdditionalScanned(data, q, adds, WordAt(data, 10));
  }

  /** The platform's walk over any encoded query finds its first address-carrying subnet option. */
  lemma WalkInvertsEncoding(m: Message)
    requires WellFormed(m)
    ensures ExtractClientIp(Encode(m)) == FirstSubnet(m.additional)
  {
    var data, others := Encode(m), m.answers + m.authority;
    var qs, rs := EncodeQuestions(m.questions), EncodeRecords(others);
    SectionsStand(data, EncodeHeader(m), qs, rs, EncodeAdditionals(m.additional));
    HeaderRead(data, m);
    SectionsWalked(data, m.questions, others, m.additional, 12 + |qs|, 12 + |qs| + |rs|);
  }
}
