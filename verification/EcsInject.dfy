/**
 The proxy's side (`injectEcs`, `peerIP`): the client's own address is added to the query as
 a subnet option unless one is there already.  Together with EcsRoundTrip this gives the
 end-to-end promise: the platform reads back the address of the peer the proxy saw.
 */
module EcsInject {
  import opened Common
  import opened DnsWire
  import opened EcsWalker
  import opened EcsRoundTrip

  /** Go's `net.IP`: nil, four octets or sixteen. */
  type NetIp = b: Bytes | |b| == 0 || |b| == 4 || |b| == 16 witness []

  /** The connection's peer; `Text` carries what `net.ParseIP` makes of its host part. */
  datatype NetAddr = NoAddr | Udp(ip: NetIp) | Tcp(ip: NetIp) | Text(parsed: NetIp)

  function PeerIp(a: NetAddr): NetIp {
    match a
    case NoAddr => []
    case Udp(ip) => ip
    case Tcp(ip) => ip
    case Text(parsed) => parsed
  }

  const MAPPED_PREFIX: Bytes := [0, 0, 0, 0, 0, 0, 0, 0, 0, 0, 255, 255]

  /** Four octets for an IPv4 address in either form, else nil. */
  function To4(ip: NetIp): (r: Bytes)
    ensures r == [] || |r| == 4
  {
    if |ip| == 4 then ip
    else if |ip| == 16 && ip[..12] == MAPPED_PREFIX then ip[12..]
    else []
  }

  /** The address of the peer, as the platform prints it. */
  function PeerAddress(ip: NetIp): Address {
    if To4(ip) != [] then V4(To4(ip)) else V6(ip)
  }

  function PeerOption(ip: NetIp): (o: EdnsOption)
    requires ip != []
    ensures ValidOption(o) && o.Subnet?
  {
    if To4(ip) != [] then Subnet(1, 32, 0, To4(ip)) else Subnet(2, 128, 0, ip)
  }

  predicate HasSubnet(os: seq<EdnsOption>) {
    exists o | o in os :: o.Subnet?
  }

  /** Position of the last OPT record, as `IsEdns0` finds it; -1 when there is none. */
  function LastOpt(adds: seq<Additional>): (k: int)
    ensures -1 <= k < |adds|
    ensures k >= 0 ==> adds[k].Opt?
    ensures forall j | k < j < |adds| :: !adds[j].Opt?
  {
    if adds == [] then -1
    else if adds[|adds| - 1].Opt? then |adds| - 1
    else LastOpt(adds[..|adds| - 1])
  }

  function Inject(adds: seq<Additional>, ip: NetIp): seq<Additional> {
    var k := LastOpt(adds);
    if ip == [] then adds
    else if k < 0 then adds + [Opt(0, [0, 0, 0, 0], [PeerOption(ip)])]
    else if HasSubnet(adds[k].options) then adds
    else adds[k := adds[k].(options := adds[k].options + [PeerOption(ip)])]
  }

  function Injected(m: Message, ip: NetIp): Message {
    m.(additional := Inject(m.additional, ip))
  }

  /** A parsed query; only its additional section is ever changed. */
  class Query {
    const head: Message
    var extra: seq<Additional>

    constructor (m: Message)
      ensures Value() == m
    {
      head := m;
      extra := m.additional;
    }

    function Value(): Message
      reads this
    {
      head.(additional := extra)
    }

    method IsEdns0() returns (k: int)
      ensures k == LastOpt(extra)
    {
      k := |extra| - 1;
      while k >= 0
        invariant -1 <= k < |extra|
        invariant LastOpt(extra) == LastOpt(extra[..k + 1])
      {
        if extra[k].Opt? {
          return;
        }
        assert extra[..k + 1][..k] == extra[..k];
        k := k - 1;
      }
    }

    method InjectEcs(client: NetAddr)
      modifies this`extra
      ensures Value() == Injected(old(Value()), PeerIp(client))
    {
      var ip := PeerIp(client);
      if ip == [] {
        return;
      }
      var k := IsEdns0();
      if k >= 0 {
        var options := extra[k].options;
        for i := 0 to |options|
          invariant !HasSubnet(options[..i])
        {
          if options[i].Subnet? {
            return;
          }
        }
        assert options == options[..|options|];
      } else {
        extra := extra + [Opt(0, [0, 0, 0, 0], [])];
        k := |extra| - 1;
      }
      var family, srcBits, address := 1, 32, To4(ip);
      if address == [] {
        family, srcBits, address := 2, 128, ip;
      }
      var ecs := Subnet(family, srcBits, 0, address);
      assert extra[k].options == [] ==> extra[k].options + [ecs] == [ecs];
      extra := extra[k := extra[k].(options := extra[k].options + [ecs])];
    }
  }

  /** Injecting a second time, for whichever peer, changes nothing. */
  lemma InjectIsIdempotent(adds: seq<Additional>, ip: NetIp, again: NetIp)
    requires ip != [] || again == []
    ensures Inject(Inject(adds, ip), again) == Inject(adds, ip)
  {
    var once := Inject(adds, ip);
    var k := LastOpt(adds);
    if ip != [] {
      var at := if k < 0 then |adds| else k;
      assert once[at].Opt? && forall j | at < j < |once| :: !once[j].Opt?;
      var os := once[at].options;
      if k < 0 || !HasSubnet(adds[k].options) {
        assert os[|os| - 1].Subnet?;
      }
    }
  }

  // ----- sizes: a query with 35 octets to spare can take the option -----

  lemma {:induction false} AdditionalsLength(adds: seq<Additional>, k: nat)
    requires k < |adds| && forall a | a in adds :: ValidAdditional(a)
    ensures |adds| <= |EncodeAdditionals(adds)|
    ensures |AsRecord(adds[k]).rdata| <= |EncodeAdditionals(adds)|
  {
    var enc := EncodeRecord(AsRecord(adds[0]));
    assert |enc| >= 1 + |AsRecord(adds[0]).rdata|;
    if |adds| > 1 {
      AdditionalsLength(adds[1..], if k > 0 then k - 1 else 0);
    }
  }

  lemma {:induction false} EncodeOptionsAppend(os: seq<EdnsOption>, o: EdnsOption)
    requires ValidOption(o) && forall x | x in os :: ValidOption(x)
    ensures EncodeOptions(os + [o]) == EncodeOptions(os) + EncodeOption(o)
  {
    if os == [] {
      assert os + [o] == [o];
      assert EncodeOptions([o]) == EncodeOption(o) + EncodeOptions([]);
    } else {
      assert (os + [o])[1..] == os[1..] + [o];
      EncodeOptionsAppend(os[1..], o);
    }
  }

  lemma OptionsStayEncodable(os: seq<EdnsOption>, ip: NetIp)
    requires ip != [] && forall x | x in os :: ValidOption(x)
    requires |EncodeOptions(os)| + 24 < 0x1_0000
    ensures |EncodeOptions(os + [PeerOption(ip)])| < 0x1_0000
    ensures forall x | x in os + [PeerOption(ip)] :: ValidOption(x)
  {
    EncodeOptionsAppend(os, PeerOption(ip));
    assert |EncodeOption(PeerOption(ip))| <= 24;
  }

  lemma InjectedRecordsAreValid(adds: seq<Additional>, ip: NetIp)
    requires forall a | a in adds :: ValidAdditional(a)
    requires |EncodeAdditionals(adds)| + 35 < 0x1_0000
    ensures |Inject(adds, ip)| < 0x1_0000
    ensures forall a | a in Inject(adds, ip) :: ValidAdditional(a)
  {
    var k := LastOpt(adds);
    if adds != [] {
      AdditionalsLength(adds, if k < 0 then 0 else k);
    }
    if ip != [] {
      var os := if k < 0 then [] else adds[k].options;
      assert k >= 0 ==> ValidAdditional(adds[k]);
      assert [] + [PeerOption(ip)] == [PeerOption(ip)];
      OptionsStayEncodable(os, ip);
    }
  }

  /** Room for 35 octets is enough for the query to stay encodable. */
  lemma InjectedIsWellFormed(m: Message, ip: NetIp)
    requires WellFormed(m) && |Encode(m)| + 35 < 0x1_0000
    ensures WellFormed(Injected(m, ip))
  {
    assert |EncodeAdditionals(m.additional)| <= |Encode(m)|;
    InjectedRecordsAreValid(m.additional, ip);
  }

  // ----- end to end -----

  lemma {:induction false} FirstInOptionsAppend(os: seq<EdnsOption>, o: EdnsOption)
    requires ValidOption(o) && forall x | x in os :: ValidOption(x)
    requires !HasSubnet(os)
    ensures FirstInOptions(os + [o]) == SubnetAddress(o) && FirstInOptions(os) == None
  {
    if os == [] {
      assert os + [o] == [o];
    } else {
      assert (os + [o])[1..] == os[1..] + [o];
      FirstInOptionsAppend(os[1..], o);
    }
  }

  /** With one OPT record the walk's answer is that record's. */
  lemma {:induction false} FirstSubnetIsTheOpts(adds: seq<Additional>, k: nat)
    requires k < |adds| && adds[k].Opt?
    requires forall a | a in adds :: ValidAdditional(a)
    requires forall j | 0 <= j < |adds| && j != k :: !adds[j].Opt?
    ensures ValidAdditional(adds[k]) && FirstSubnet(adds) == FirstInOptions(adds[k].options)
  {
    if k > 0 {
      FirstSubnetIsTheOpts(adds[1..], k - 1);
    } else {
      NoOptNoSubnet(adds[1..]);
    }
  }

  lemma {:induction false} NoOptNoSubnet(adds: seq<Additional>)
    requires forall a | a in adds :: ValidAdditional(a) && !a.Opt?
    ensures FirstSubnet(adds) == None
  {
    if adds != [] {
      NoOptNoSubnet(adds[1..]);
    }
  }

  lemma PeerOptionCarriesPeer(ip: NetIp)
    requires ip != []
    ensures SubnetAddress(PeerOption(ip)) == Some(PeerAddress(ip))
  {
    var o := PeerOption(ip);
    assert Masked(o.address, o.source) == o.address;
  }

  predicate CarriesSubnet(m: Message) {
    exists a | a in m.additional :: a.Opt? && HasSubnet(a.options)
  }

  /**
   Proxy, wire, platform: a query without a subnet option that can still be encoded with one
   reaches the platform with the peer's own address, whatever records and names it holds.
   */
  lemma PeerReachesPlatform(m: Message, ip: NetIp)
    requires WellFormed(m) && WellFormed(Injected(m, ip))
    requires ip != [] && !CarriesSubnet(m)
    ensures ExtractClientIp(Encode(Injected(m, ip))) == Some(PeerAddress(ip))
  {
    var sent := Injected(m, ip);
    WalkInvertsEncoding(sent);
    PeerOptionCarriesPeer(ip);
    var k := LastOpt(m.additional);
    if k < 0 {
      FirstInOptionsAppend([], PeerOption(ip));
      assert [] + [PeerOption(ip)] == [PeerOption(ip)];
      FirstSubnetIsTheOpts(sent.additional, |m.additional|);
    } else {
      assert m.additional[k] in m.additional;
      FirstInOptionsAppend(m.additional[k].options, PeerOption(ip));
      FirstSubnetIsTheOpts(sent.additional, k);
    }
  }

  // ----- the same for the peer's octets, however the connection reports them -----

  /** The connection reports the octets `ip`. */
  predicate Reports(from: NetAddr, ip: Bytes) {
    match from
    case NoAddr => false
    case Udp(octets) => octets == ip
    case Tcp(octets) => octets == ip
    case Text(parsed) => parsed == ip
  }

  /** What the proxy forwards for a query that came from `from`. */
  function Forwarded(m: Message, from: NetAddr): Message {
    Injected(m, PeerIp(from))
  }

  /** The sixteen octets `::ffff:a.b.c.d`. */
  function Mapped(a: Bytes): Bytes {
    [0, 0, 0, 0, 0, 0, 0, 0, 0, 0, 255, 255] + a
  }

  /** An IPv4 client, in its own form or mapped, is read back as its four octets. */
  lemma V4PeerReachesPlatform(m: Message, from: NetAddr, a: Bytes)
    requires WellFormed(m) && WellFormed(Forwarded(m, from)) && !CarriesSubnet(m)
    requires |a| == 4 && (Reports(from, a) || Reports(from, Mapped(a)))
    ensures ExtractClientIp(Encode(Forwarded(m, from))) == Some(V4(a))
  {
    assert Mapped(a)[..12] == Mapped([])[..12] && Mapped(a)[12..] == a;
    PeerReachesPlatform(m, PeerIp(from));
  }

  lemma OtherIsV6(b: NetIp)
    requires |b| == 16 && forall a: Bytes | |a| == 4 :: b != Mapped(a)
    ensures PeerAddress(b) == V6(b)
  {
    assert b != Mapped(b[12..]);
    assert b[..12] + b[12..] == b;
  }

  /** Any other client is read back as its sixteen octets. */
  lemma V6PeerReachesPlatform(m: Message, from: NetAddr, b: Bytes)
    requires WellFormed(m) && WellFormed(Forwarded(m, from)) && !CarriesSubnet(m)
    requires |b| == 16 && Reports(from, b) && forall a: Bytes | |a| == 4 :: b != Mapped(a)
    ensures ExtractClientIp(Encode(Forwarded(m, from))) == Some(V6(b))
  {
    OtherIsV6(b);
    PeerReachesPlatform(m, PeerIp(from));
  }

  lemma PeerOptionIs(from: NetAddr, a: Bytes)
    requires |a| == 4 || (|a| == 16 && forall v4: Bytes | |v4| == 4 :: a != Mapped(v4))
    requires Reports(from, a) || (|a| == 4 && Reports(from, Mapped(a)))
    ensures PeerIp(from) != []
    ensures PeerOption(PeerIp(from)) == if |a| == 4 then Subnet(1, 32, 0, a) else Subnet(2, 128, 0, a)
  {
    if |a| == 4 {
      assert Mapped(a)[..12] == Mapped([])[..12] && Mapped(a)[12..] == a;
    } else {
      assert a != Mapped(a[12..]) && a[..12] + a[12..] == a;
    }
  }

  /** What is added: a full-length prefix of the peer's own family, scope 0. */
  lemma AddedOption(m: Message, from: NetAddr, a: Bytes)
    requires |a| == 4 || (|a| == 16 && forall v4: Bytes | |v4| == 4 :: a != Mapped(v4))
    requires Reports(from, a) || (|a| == 4 && Reports(from, Mapped(a)))
    requires !CarriesSubnet(m)
    ensures var o := if |a| == 4 then Subnet(1, 32, 0, a) else Subnet(2, 128, 0, a);
            exists k | 0 <= k < |Forwarded(m, from).additional| ::
              && Forwarded(m, from).additional[k].Opt?
              && Forwarded(m, from).additional[k].options != []
              && Forwarded(m, from).additional[k].options[|Forwarded(m, from).additional[k].options| - 1] == o
  {
    PeerOptionIs(from, a);
    var k := LastOpt(m.additional);
    var t := Forwarded(m, from).additional;
    var at := if k < 0 then |m.additional| else k;
    assert k >= 0 ==> m.additional[k] in m.additional;
    assert t[at].Opt? && t[at].options[|t[at].options| - 1] == PeerOption(PeerIp(from));
  }

  /** Without a peer address the query is forwarded as it came. */
  lemma NoPeerNoChange(m: Message, from: NetAddr)
    requires from.NoAddr? || Reports(from, [])
    ensures Forwarded(m, from) == m
  {
  }

  /** `b` is `a` with one more option at the end of its list. */
  predicate OneOptionMore(a: Additional, b: Additional) {
    && a.Opt? && b.Opt? && b.udpSize == a.udpSize && b.ttl == a.ttl
    && |b.options| == |a.options| + 1 && b.options[..|a.options|] == a.options
  }

  /** Nothing else is touched: every section, record and option of the query stays where it was. */
  lemma OnlyTheOptionIsAdded(m: Message, from: NetAddr)
    requires WellFormed(m)
    ensures var t, n := Forwarded(m, from), |m.additional|;
            && t.(additional := m.additional) == m
            && n <= |t.additional| <= n + 1
            && (|t.additional| == n + 1 ==>
                  && t.additional[..n] == m.additional && OneOptionMore(Opt(0, [0, 0, 0, 0], []), t.additional[n])
                  && forall a | a in m.additional :: !a.Opt?)
            && (|t.additional| == n ==> forall i | 0 <= i < n ::
                  t.additional[i] == m.additional[i] || OneOptionMore(m.additional[i], t.additional[i]))
  {
    var k := LastOpt(m.additional);
    if PeerIp(from) != [] && k < 0 {
      var o := Opt(0, [0, 0, 0, 0], [PeerOption(PeerIp(from))]);
      assert (m.additional + [o])[..|m.additional|] == m.additional;
    }
  }

  lemma {:induction false} OnlySubnetDecides(os: seq<EdnsOption>, i: nat)
    requires i < |os| && os[i].Subnet?
    requires forall o | o in os :: ValidOption(o)
    requires forall j | 0 <= j < |os| && j != i :: !os[j].Subnet?
    ensures FirstInOptions(os) == SubnetAddress(os[i])
  {
    if i > 0 {
      OnlySubnetDecides(os[1..], i - 1);
    } else if |os| > 1 {
      assert os[1..] == os[1..|os| - 1] + [os[|os| - 1]];
      NoSubnetNoAddress(os[1..]);
    }
  }

  lemma {:induction false} NoSubnetNoAddress(os: seq<EdnsOption>)
    requires forall o | o in os :: ValidOption(o) && !o.Subnet?
    ensures FirstInOptions(os) == None
  {
    if os != [] {
      NoSubnetNoAddress(os[1..]);
    }
  }

  /**
   A subnet option already present is left alone.  The platform reads its prefix, padded
   with zeros, exactly when the prefix is not empty: an opt-out (source prefix 0) yields nothing.
   */
  lemma ExistingSubnetIsKept(m: Message, ip: NetIp, k: nat, i: nat)
    requires WellFormed(m)
    requires k < |m.additional| && m.additional[k].Opt?
    requires i < |m.additional[k].options| && m.additional[k].options[i].Subnet?
    requires forall j | 0 <= j < |m.additional[k].options| && j != i :: !m.additional[k].options[j].Subnet?
    ensures Injected(m, ip) == m
    ensures var o := m.additional[k].options[i];
            var got := ExtractClientIp(Encode(m));
            && (got.Some? <==> o.source > 0)
            && (got.Some? ==> got.value.octets == Masked(o.address, o.source))
            && (got.Some? ==> (got.value.V4? <==> o.family == 1))
  {
    assert LastOpt(m.additional) == k;
    assert m.additional[k].options[i] in m.additional[k].options;
    assert m.additional[k] in m.additional;
    WalkInvertsEncoding(m);
    FirstSubnetIsTheOpts(m.additional, k);
    OnlySubnetDecides(m.additional[k].options, i);
  }

  /** The loss is real: an opt-out query carries the option, and no peer's address is found in it. */
  lemma OptOutIsLost(ip: NetIp) returns (m: Message)
    ensures WellFormed(m) && CarriesSubnet(m) && WellFormed(Injected(m, ip))
    ensures ExtractClientIp(Encode(Injected(m, ip))) == None
  {
    var optOut := Subnet(1, 0, 0, [0, 0, 0, 0]);
    var opt := Opt(1232, [0, 0, 0, 0], [optOut]);
    assert ValidAdditional(opt) by { OneOptionFits(optOut); }
    m := Message(0, 0, [], [], [], [opt]);
    assert opt in m.additional && HasSubnet(opt.options);
    ExistingSubnetIsKept(m, ip, 0, 0);
  }

  lemma OneOptionFits(o: EdnsOption)
    requires ValidOption(o) && o.Subnet?
    ensures |EncodeOptions([o])| < 0x1_0000
  {
    assert [o][1..] == [];
    assert EncodeOptions([o][1..]) == [];
  }
}
