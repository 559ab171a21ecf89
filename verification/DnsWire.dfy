/**
 The wire form of a DNS query: section 4.1 of RFC 1035 for the message and its records,
 section 6.1.2 of RFC 6891 for the OPT record, section 6 of RFC 7871 for the client-subnet
 option.  Only the encoder lives here; the hand-written reader is in EcsWalker.
 */
module DnsWire {
  import opened Common

  type Bytes = seq<Byte>
  type Word = x: int | 0 <= x < 0x1_0000
  type FourOctets = b: Bytes | |b| == 4 witness [0, 0, 0, 0]
  /** What a 16-bit length field can announce. */
  type Data = b: Bytes | |b| < 0x1_0000

  // ----- names and records -----

  type Label = l: Bytes | 1 <= |l| <= 63 witness [97]
  type SixBits = x: int | 0 <= x < 64

  /** A name ends in the root label or in a compression pointer. */
  datatype NameEnd = Root | Pointer(high: SixBits, low: Byte)
  datatype Name = Name(labels: seq<Label>, end: NameEnd)

  datatype Question = Question(name: Name, qtype: Word, qclass: Word)
  datatype Record = Record(name: Name, rtype: Word, rclass: Word, ttl: FourOctets, rdata: Data)

  // ----- EDNS0 -----

  const OPT_TYPE: Word := 41
  const SUBNET_CODE: Word := 8

  datatype EdnsOption =
    | Subnet(family: Word, source: Byte, scope: Byte, address: Bytes)
    | Other(code: Word, data: Data)

  datatype Additional =
    | Plain(record: Record)
    | Opt(udpSize: Word, ttl: FourOctets, options: seq<EdnsOption>)

  datatype Message = Message(
    id: Word, flags: Word,
    questions: seq<Question>, answers: seq<Record>, authority: seq<Record>,
    additional: seq<Additional>)

  /** The subnet option as RFC 7871 defines it, plus the all-zero form sent to opt out. */
  predicate ValidOption(o: EdnsOption) {
    match o
    case Subnet(family, source, _, address) =>
      || (family == 1 && |address| == 4 && source <= 32)
      || (family == 2 && |address| == 16 && source <= 128)
      || (family == 0 && |address| == 0 && source == 0)
    case Other(code, _) => code != SUBNET_CODE
  }

  // ----- encoding -----

  /** n / 256, by subtraction: division in every encoded length would slow each proof down. */
  function High(n: nat): (h: nat)
    ensures 256 * h <= n < 256 * h + 256
  {
    if n < 256 then 0 else 1 + High(n - 256)
  }

  function EncodeWord(n: Word): (b: Bytes)
    ensures |b| == 2
  {
    [High(n), n - 256 * High(n)]
  }

  function EncodeName(labels: seq<Label>, end: NameEnd): (b: Bytes)
    ensures |b| >= 1
  {
    if labels != [] then [|labels[0]|] + labels[0] + EncodeName(labels[1..], end)
    else if end.Root? then [0]
    else [192 + end.high, end.low]
  }

  function EncodeQuestion(q: Question): Bytes {
    EncodeName(q.name.labels, q.name.end) + (EncodeWord(q.qtype) + EncodeWord(q.qclass))
  }

  /** Everything of a record after its name and type: class, ttl, length, data. */
  function EncodeBody(rclass: Word, ttl: FourOctets, rdata: Data): Bytes {
    EncodeWord(rclass) + ttl + EncodeWord(|rdata|) + rdata
  }

  function EncodeRecord(r: Record): Bytes {
    EncodeName(r.name.labels, r.name.end) + (EncodeWord(r.rtype) + EncodeBody(r.rclass, r.ttl, r.rdata))
  }

  function EncodeQuestions(qs: seq<Question>): Bytes {
    if qs == [] then [] else EncodeQuestion(qs[0]) + EncodeQuestions(qs[1..])
  }

  function EncodeRecords(rs: seq<Record>): Bytes {
    if rs == [] then [] else EncodeRecord(rs[0]) + EncodeRecords(rs[1..])
  }

  /** `b` with its `d` least significant bits cleared. */
  function ClearLow(b: nat, d: nat): (r: nat)
    ensures r <= b
  {
    if d == 0 then b else 2 * ClearLow(b / 2, d - 1)
  }

  /** The address with every bit after the first `source` cleared. */
  function Masked(address: Bytes, source: nat): (m: Bytes)
    ensures |m| == |address|
  {
    seq(|address|, i requires 0 <= i < |address| =>
      if 8 * (i + 1) <= source then address[i]
      else if source <= 8 * i then 0
      else ClearLow(address[i], 8 * (i + 1) - source))
  }

  /** Only the octets that carry prefix bits are sent. */
  function Truncated(address: Bytes, source: nat): Bytes
    requires source <= 8 * |address|
  {
    Masked(address, source)[..(source + 7) / 8]
  }

  function OptionCode(o: EdnsOption): Word {
    if o.Subnet? then SUBNET_CODE else o.code
  }

  function OptionData(o: EdnsOption): (d: Data)
    requires ValidOption(o)
  {
    match o
    case Subnet(family, source, scope, address) =>
      EncodeWord(family) + [source, scope] + Truncated(address, source)
    case Other(_, data) => data
  }

  function EncodeOption(o: EdnsOption): Bytes
    requires ValidOption(o)
  {
    EncodeWord(OptionCode(o)) + EncodeWord(|OptionData(o)|) + OptionData(o)
  }

  function EncodeOptions(os: seq<EdnsOption>): Bytes
    requires forall o | o in os :: ValidOption(o)
  {
    if os == [] then [] else EncodeOption(os[0]) + EncodeOptions(os[1..])
  }

  predicate ValidAdditional(a: Additional) {
    match a
    case Plain(record) => record.rtype != OPT_TYPE
    case Opt(_, _, options) =>
      (forall o | o in options :: ValidOption(o)) && |EncodeOptions(options)| < 0x1_0000
  }

  /** An OPT record is a record of the root name whose data is the option list. */
  function AsRecord(a: Additional): Record
    requires ValidAdditional(a)
  {
    match a
    case Plain(record) => record
    case Opt(udpSize, ttl, options) => Record(Name([], Root), OPT_TYPE, udpSize, ttl, EncodeOptions(options))
  }

  function EncodeAdditionals(adds: seq<Additional>): Bytes
    requires forall a | a in adds :: ValidAdditional(a)
  {
    if adds == [] then [] else EncodeRecord(AsRecord(adds[0])) + EncodeAdditionals(adds[1..])
  }

  /** Every field fits, and there is at most one OPT record (section 6.1.1 of RFC 6891). */
  predicate WellFormed(m: Message) {
    && |m.questions| < 0x1_0000 && |m.answers| < 0x1_0000
    && |m.authority| < 0x1_0000 && |m.additional| < 0x1_0000
    && (forall a | a in m.additional :: ValidAdditional(a))
    && (forall i, j | 0 <= i < j < |m.additional| :: !(m.additional[i].Opt? && m.additional[j].Opt?))
  }

  function EncodeHeader(m: Message): (b: Bytes)
    requires WellFormed(m)
    ensures |b| == 12
  {
    EncodeWord(m.id) + EncodeWord(m.flags) + EncodeWord(|m.questions|)
    + EncodeWord(|m.answers|) + EncodeWord(|m.authority|) + EncodeWord(|m.additional|)
  }

  function Encode(m: Message): Bytes
    requires WellFormed(m)
  {
    EncodeHeader(m) + (EncodeQuestions(m.questions)
    + (EncodeRecords(m.answers + m.authority) + EncodeAdditionals(m.additional)))
  }
}
