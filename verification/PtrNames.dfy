/**
 Reverse-lookup names (section 3.5 of RFC 1035, section 2.5 of RFC 3596): the detector's
 parser `extract_ptr_ip` and the test centre's printer `ip_to_ptr`.
 An IPv4 address is its dotted text, an IPv6 address its sixteen octets.
 */
module PtrNames {
  import opened Common
  import opened Text

  datatype Ip = Dotted(text: string) | Sixteen(octets: seq<Byte>)

  const V4_ZONE := ".in-addr.arpa"
  const V6_ZONE := ".ip6.arpa"

  // ----- decimal labels -----

  predicate Digits(l: string) {
    forall i | 0 <= i < |l| :: IsDigit(l[i])
  }

  function Decimal(l: string): nat
    requires Digits(l)
  {
    if l == "" then 0 else 10 * Decimal(l[..|l| - 1]) + (l[|l| - 1] as int - '0' as int)
  }

  /** `l.isdigit() and 0 <= int(l) <= 255`. */
  predicate OctetLabel(l: string) {
    l != "" && Digits(l) && Decimal(l) <= 255
  }

  predicate LeadingZero(l: string) {
    |l| > 1 && l[0] == '0'
  }

  /** What `ipaddress` accepts as an octet. */
  predicate StrictOctet(l: string) {
    OctetLabel(l) && |l| <= 3 && !LeadingZero(l)
  }

  predicate IsDottedQuad(t: string) {
    |Split(t)| == 4 && forall l | l in Split(t) :: StrictOctet(l)
  }

  /** `str` of one octet. */
  function OctetText(n: Byte): string {
    if n < 10 then [('0' as int + n) as char]
    else OctetText(n / 10) + [('0' as int + n % 10) as char]
  }

  function DottedText(octets: seq<Byte>): string {
    Join(seq(|octets|, i requires 0 <= i < |octets| => OctetText(octets[i])))
  }

  // ----- hexadecimal digits -----

  predicate IsHex(c: char) {
    '0' <= c <= '9' || 'a' <= c <= 'f'
  }

  predicate HexOnly(l: string) {
    forall i | 0 <= i < |l| :: IsHex(l[i])
  }

  function HexDigit(n: nat): (c: char)
    requires n < 16
    ensures IsHex(c)
  {
    if n < 10 then ('0' as int + n) as char else ('a' as int + n - 10) as char
  }

  function HexValue(c: char): (n: nat)
    requires IsHex(c)
    ensures n < 16 && HexDigit(n) == c
  {
    if c <= '9' then c as int - '0' as int else c as int - 'a' as int + 10
  }

  /** `IPv6Address.exploded` without its colons. */
  function HexText(octets: seq<Byte>): (h: string)
    ensures |h| == 2 * |octets|
    ensures HexOnly(h)
  {
    seq(2 * |octets|, i requires 0 <= i < 2 * |octets| =>
      HexDigit(if i % 2 == 0 then octets[i / 2] / 16 else octets[i / 2] % 16))
  }

  /** The address whose full groups spell `h`. */
  function FromHex(h: string): (octets: seq<Byte>)
    requires |h| == 32 && HexOnly(h)
    ensures |octets| == 16
  {
    seq(16, i requires 0 <= i < 16 => 16 * HexValue(h[2 * i]) + HexValue(h[2 * i + 1]))
  }

  // ----- the two functions -----

  predicate HexLabel(l: string) {
    |l| == 1 && IsHex(l[0])
  }

  predicate HexLabels(labels: seq<string>) {
    forall i | 0 <= i < |labels| :: HexLabel(labels[i])
  }

  /** `"".join` of one-character labels. */
  function Chars(labels: seq<string>): (h: string)
    requires HexLabels(labels)
    ensures |h| == |labels|
    ensures HexOnly(h)
  {
    seq(|labels|, i requires 0 <= i < |labels| => labels[i][0])
  }

  function Canonical(name: string): string {
    Lower(RStrip(name, IsDot))
  }

  /** `name[:-len(zone)]`. */
  function Body(name: string, zone: string): string
    requires EndsWith(name, zone)
  {
    name[..|name| - |zone|]
  }

  function ParseV4(body: string): Option<Ip> {
    var labels := Split(body);
    if |labels| == 4 && forall l | l in labels :: OctetLabel(l)
    then Some(Dotted(Join(Reverse(labels)))) else None
  }

  function ParseV6(body: string): Option<Ip> {
    var nibbles := Split(body);
    if |nibbles| == 32 && HexLabels(nibbles)
    then Some(Sixteen(FromHex(Chars(Reverse(nibbles))))) else None
  }

  function ExtractPtrIp(ptrName: string): Option<Ip> {
    var name := Canonical(ptrName);
    if EndsWith(name, V4_ZONE) then ParseV4(Body(name, V4_ZONE))
    else if EndsWith(name, V6_ZONE) then ParseV6(Body(name, V6_ZONE))
    else None
  }

  function IpToPtr(ip: Ip): Option<string> {
    match ip
    case Dotted(text) =>
      if IsDottedQuad(Strip(text)) then Some(Join(Reverse(Split(Strip(text)))) + V4_ZONE) else None
    case Sixteen(octets) =>
      var h := HexText(octets);
      Some(Join(Reverse(seq(|h|, i requires 0 <= i < |h| => [h[i]]))) + V6_ZONE)
  }

  // ----- helpers on names built from labels -----

  /** A lower-case character that survives every normalisation. */
  predicate Plain(c: char) {
    IsHex(c) || c == '.'
  }

  predicate PlainOnly(s: string) {
    forall i | 0 <= i < |s| :: Plain(s[i])
  }

  lemma {:induction false} JoinedIsPlain(labels: seq<string>)
    requires forall i | 0 <= i < |labels| :: HexOnly(labels[i])
    ensures PlainOnly(Join(labels))
  {
    if |labels| > 1 {
      JoinedIsPlain(labels[1..]);
    }
  }

  lemma ZoneNameIsCanonical(body: string, zone: string)
    requires zone == V4_ZONE || zone == V6_ZONE
    requires PlainOnly(body)
    ensures Canonical(body + zone) == body + zone
    ensures EndsWith(body + zone, zone) && Body(body + zone, zone) == body
    ensures zone == V6_ZONE ==> !EndsWith(body + zone, V4_ZONE)
  {
    var name := body + zone;
    assert name[|body|..] == zone;
    assert name[|name| - 1] == 'a' == zone[|zone| - 1];
    LowerOnLower(name);
    if zone == V6_ZONE {
      assert name[|name| - 6] == zone[|zone| - 6] == '6';
      assert V4_ZONE[|V4_ZONE| - 6] == 'r';
    }
  }

  lemma ReversedMembers(labels: seq<string>)
    ensures forall l | l in Reverse(labels) :: l in labels
  {
  }

  lemma DigitsAreHex(l: string)
    requires OctetLabel(l)
    ensures HexOnly(l)
  {
  }

  /** The body of a V4 name made of octet labels reads back as those labels. */
  lemma V4NameReadBack(labels: seq<string>)
    requires |labels| == 4 && forall l | l in labels :: OctetLabel(l) && '.' !in l
    ensures Canonical(Join(labels) + V4_ZONE) == Join(labels) + V4_ZONE
    ensures ExtractPtrIp(Join(labels) + V4_ZONE) == Some(Dotted(Join(Reverse(labels))))
  {
    OctetLabelsJoinPlain(labels);
    ZoneNameIsCanonical(Join(labels), V4_ZONE);
    SplitJoin(labels);
  }

  // ----- printing, then parsing -----

  lemma PlainIsStripped(t: string)
    requires PlainOnly(t)
    ensures Strip(t) == t
  {
    NoStrip(t, IsSpace);
  }

  lemma OctetLabelsJoinPlain(labels: seq<string>)
    requires forall l | l in labels :: OctetLabel(l)
    ensures PlainOnly(Join(labels))
  {
    forall i | 0 <= i < |labels| ensures HexOnly(labels[i]) {
      assert labels[i] in labels;
      DigitsAreHex(labels[i]);
    }
    JoinedIsPlain(labels);
  }

  lemma DottedQuadIsStripped(t: string)
    requires IsDottedQuad(t)
    ensures Strip(t) == t
  {
    OctetLabelsJoinPlain(Split(t));
    JoinSplit(t);
    PlainIsStripped(t);
  }

  /** Every dotted IPv4 address survives the round trip through its reverse name. */
  lemma V4PtrRoundTrip(t: string)
    requires IsDottedQuad(t)
    ensures IpToPtr(Dotted(t)).Some?
    ensures ExtractPtrIp(IpToPtr(Dotted(t)).value) == Some(Dotted(t))
  {
    DottedQuadIsStripped(t);
    var labels := Reverse(Split(t));
    ReversedMembers(Split(t));
    V4NameReadBack(labels);
    ReverseTwice(Split(t));
    JoinSplit(t);
  }

  lemma OctetTextIsStrict(n: Byte)
    ensures StrictOctet(OctetText(n)) && Decimal(OctetText(n)) == n && '.' !in OctetText(n)
    ensures n < 100 ==> |OctetText(n)| <= 2
    ensures n < 10 ==> |OctetText(n)| == 1
    ensures n > 0 ==> OctetText(n)[0] != '0'
  {
    var t := OctetText(n);
    if n >= 10 {
      OctetTextIsStrict(n / 10);
      assert t[..|t| - 1] == OctetText(n / 10);
      assert t[0] == OctetText(n / 10)[0];
    } else {
      assert t[..0] == "";
    }
  }

  /** The texts the round trip speaks of are exactly those of the IPv4 addresses. */
  lemma EveryV4AddressIsDottedQuad(octets: seq<Byte>)
    requires |octets| == 4
    ensures IsDottedQuad(DottedText(octets))
    ensures forall i | 0 <= i < 4 ::
              Digits(Split(DottedText(octets))[i]) && Decimal(Split(DottedText(octets))[i]) == octets[i]
  {
    var labels := seq(|octets|, i requires 0 <= i < |octets| => OctetText(octets[i]));
    forall i | 0 <= i < 4 ensures StrictOctet(labels[i]) && Decimal(labels[i]) == octets[i] && '.' !in labels[i] {
      OctetTextIsStrict(octets[i]);
    }
    SplitJoin(labels);
  }

  /** A proper label is the printed form of its own number. */
  lemma {:induction false} LabelIsPrinted(l: string)
    requires Digits(l) && l != "" && !LeadingZero(l) && Decimal(l) < 256
    ensures OctetText(Decimal(l)) == l
  {
    var n := |l| - 1;
    if n > 0 {
      var front := l[..n];
      assert l == front + [l[n]];
      assert front[0] == l[0];
      LabelIsPrinted(front);
      assert Decimal(l) >= 10 && Decimal(l) / 10 == Decimal(front);
    } else {
      assert l[..0] == "";
    }
  }

  /** And every such text is that of some four octets. */
  lemma EveryDottedQuadIsAnAddress(t: string) returns (octets: seq<Byte>)
    requires IsDottedQuad(t)
    ensures |octets| == 4 && DottedText(octets) == t
  {
    var labels := Split(t);
    assert forall i | 0 <= i < 4 :: StrictOctet(labels[i]);
    octets := [Decimal(labels[0]), Decimal(labels[1]), Decimal(labels[2]), Decimal(labels[3])];
    forall i | 0 <= i < 4 ensures OctetText(octets[i]) == labels[i] {
      LabelIsPrinted(labels[i]);
    }
    assert seq(|octets|, i requires 0 <= i < |octets| => OctetText(octets[i])) == labels;
    JoinSplit(t);
  }

  lemma HexPair(octets: seq<Byte>, i: nat)
    requires i < |octets|
    ensures HexText(octets)[2 * i] == HexDigit(octets[i] / 16)
    ensures HexText(octets)[2 * i + 1] == HexDigit(octets[i] % 16)
  {
    assert (2 * i) % 2 == 0 && (2 * i) / 2 == i;
    assert (2 * i + 1) % 2 == 1 && (2 * i + 1) / 2 == i;
  }

  lemma HexRoundTrip(octets: seq<Byte>)
    requires |octets| == 16
    ensures FromHex(HexText(octets)) == octets
  {
    forall i | 0 <= i < 16 ensures FromHex(HexText(octets))[i] == octets[i] {
      HexPair(octets, i);
    }
  }

  /** The labels of a V6 name read back as its nibbles. */
  lemma V6NameReadBack(labels: seq<string>)
    requires |labels| == 32 && HexLabels(labels)
    ensures Canonical(Join(labels) + V6_ZONE) == Join(labels) + V6_ZONE
    ensures ExtractPtrIp(Join(labels) + V6_ZONE) == Some(Sixteen(FromHex(Chars(Reverse(labels)))))
  {
    forall i | 0 <= i < |labels| ensures HexOnly(labels[i]) && '.' !in labels[i] {
      assert labels[i] == [labels[i][0]];
    }
    JoinedIsPlain(labels);
    ZoneNameIsCanonical(Join(labels), V6_ZONE);
    SplitJoin(labels);
  }

  /** Every IPv6 address survives the round trip through its reverse name. */
  lemma V6PtrRoundTrip(octets: seq<Byte>)
    requires |octets| == 16
    ensures ExtractPtrIp(IpToPtr(Sixteen(octets)).value) == Some(Sixteen(octets))
  {
    var h := HexText(octets);
    var digits := seq(|h|, i requires 0 <= i < |h| => [h[i]]);
    var labels := Reverse(digits);
    V6NameReadBack(labels);
    ReverseTwice(digits);
    assert Chars(digits) == h;
    HexRoundTrip(octets);
  }

  // ----- parsing, then printing -----

  lemma {:induction false} LongLabelIsLarge(l: string)
    requires l != "" && Digits(l) && l[0] != '0'
    ensures Decimal(l) >= 1
    ensures |l| >= 2 ==> Decimal(l) >= 10
    ensures |l| >= 3 ==> Decimal(l) >= 100
    ensures |l| >= 4 ==> Decimal(l) >= 1000
  {
    if |l| > 1 {
      LongLabelIsLarge(l[..|l| - 1]);
    } else {
      assert l[..0] == "";
    }
  }

  lemma StrictWithoutLeadingZero(l: string)
    requires OctetLabel(l)
    ensures StrictOctet(l) <==> !LeadingZero(l)
  {
    if |l| > 1 && l[0] != '0' {
      LongLabelIsLarge(l);
    }
  }

  /** The labels in front of the zone of an accepted V4 name. */
  function V4Labels(ptrName: string): seq<string>
    requires EndsWith(Canonical(ptrName), V4_ZONE)
  {
    Split(Body(Canonical(ptrName), V4_ZONE))
  }

  lemma DottedFromLabels(labels: seq<string>)
    requires |labels| == 4 && forall l | l in labels :: OctetLabel(l) && '.' !in l
    ensures Split(Join(Reverse(labels))) == Reverse(labels)
    ensures Strip(Join(Reverse(labels))) == Join(Reverse(labels))
  {
    ReversedMembers(labels);
    SplitJoin(Reverse(labels));
    OctetLabelsJoinPlain(Reverse(labels));
    PlainIsStripped(Join(Reverse(labels)));
  }

  lemma BodyAndZone(name: string, zone: string)
    requires EndsWith(name, zone)
    ensures Join(Split(Body(name, zone))) + zone == name
  {
    JoinSplit(Body(name, zone));
  }

  lemma OctetLabelsPrinted(labels: seq<string>)
    requires |labels| == 4 && forall l | l in labels :: OctetLabel(l) && '.' !in l
    ensures IpToPtr(Dotted(Join(Reverse(labels)))) ==
            if forall l | l in labels :: !LeadingZero(l) then Some(Join(labels) + V4_ZONE) else None
  {
    DottedFromLabels(labels);
    ReverseTwice(labels);
    ReversedMembers(labels);
    ReversedMembers(Reverse(labels));
    forall l | l in labels ensures StrictOctet(l) <==> !LeadingZero(l) {
      StrictWithoutLeadingZero(l);
    }
  }

  /**
   An accepted V4 name is the reverse name of what was extracted, up to case and trailing
   dots, exactly when none of its labels has a leading zero; otherwise printing refuses.
   */
  lemma V4NameRestored(ptrName: string)
    requires EndsWith(Canonical(ptrName), V4_ZONE) && ExtractPtrIp(ptrName).Some?
    ensures IpToPtr(ExtractPtrIp(ptrName).value) ==
            if forall l | l in V4Labels(ptrName) :: !LeadingZero(l) then Some(Canonical(ptrName)) else None
  {
    var name := Canonical(ptrName);
    OctetLabelsPrinted(V4Labels(ptrName));
    BodyAndZone(name, V4_ZONE);
  }

  /** The refusal is real: an accepted name with the label "01" cannot be printed again. */
  lemma LeadingZeroIsRefused() returns (name: string)
    ensures ExtractPtrIp(name).Some? && IpToPtr(ExtractPtrIp(name).value) == None
  {
    var labels := ["01", "0", "0", "10"];
    assert Decimal("0") == 0 && Decimal("1") == 1;
    assert "01"[..1] == "0" && "10"[..1] == "1";
    assert Decimal("01") == 1 && Decimal("10") == 10;
    name := Join(labels) + V4_ZONE;
    V4NameReadBack(labels);
    OctetLabelsPrinted(labels);
    assert labels[0] in labels && LeadingZero(labels[0]);
  }

  lemma HexTextOfFromHex(h: string)
    requires |h| == 32 && HexOnly(h)
    ensures HexText(FromHex(h)) == h
  {
    var octets := FromHex(h);
    forall i | 0 <= i < 32 ensures HexText(octets)[i] == h[i] {
      var j := i / 2;
      HexPair(octets, j);
      assert octets[j] / 16 == HexValue(h[2 * j]) && octets[j] % 16 == HexValue(h[2 * j + 1]);
      assert i == 2 * j || i == 2 * j + 1;
    }
  }

  lemma DigitLabels(labels: seq<string>, h: string)
    requires HexLabels(labels) && |h| == |labels| && h == Chars(labels)
    ensures seq(|h|, i requires 0 <= i < |h| => [h[i]]) == labels
  {
    forall i | 0 <= i < |labels| ensures [h[i]] == labels[i] {
      assert HexLabel(labels[i]);
    }
  }

  lemma NibblesPrinted(labels: seq<string>)
    requires |labels| == 32 && HexLabels(labels)
    ensures IpToPtr(Sixteen(FromHex(Chars(Reverse(labels))))) == Some(Join(labels) + V6_ZONE)
  {
    var h := Chars(Reverse(labels));
    HexTextOfFromHex(h);
    DigitLabels(Reverse(labels), h);
    ReverseTwice(labels);
  }

  /** Every accepted V6 name is restored, up to case and trailing dots. */
  lemma V6NameRestored(ptrName: string)
    requires !EndsWith(Canonical(ptrName), V4_ZONE) && ExtractPtrIp(ptrName).Some?
    ensures IpToPtr(ExtractPtrIp(ptrName).value) == Some(Canonical(ptrName))
  {
    var name := Canonical(ptrName);
    NibblesPrinted(Split(Body(name, V6_ZONE)));
    BodyAndZone(name, V6_ZONE);
  }

  // ----- at the zones themselves -----

  /** `d.c.b.a.in-addr.arpa` stands for the address `a.b.c.d`. */
  lemma V4NameMeans(d: string, c: string, b: string, a: string)
    requires forall l | l in [d, c, b, a] :: OctetLabel(l) && '.' !in l
    ensures ExtractPtrIp(Join([d, c, b, a]) + ".in-addr.arpa") == Some(Dotted(Join([a, b, c, d])))
  {
    var labels := [d, c, b, a];
    V4NameReadBack(labels);
    assert Reverse(labels) == [a, b, c, d];
  }

  lemma OctetMeans(labels: seq<string>, r: seq<string>, h: string, i: nat, low: nat)
    requires |labels| == 32 && HexLabels(labels) && r == Reverse(labels) && HexLabels(r) && h == Chars(r)
    requires i < 16 && low == 30 - 2 * i
    ensures FromHex(h)[i] == 16 * HexValue(labels[low + 1][0]) + HexValue(labels[low][0])
  {
    assert r[2 * i] == labels[low + 1] && r[2 * i + 1] == labels[low];
  }

  lemma ReversedDigits(labels: seq<string>)
    requires HexLabels(labels)
    ensures HexLabels(Reverse(labels))
  {
  }

  /** Of the 32 labels before `.ip6.arpa` the last two are the first octet, and so on down. */
  lemma V6NameMeans(labels: seq<string>, i: nat)
    requires |labels| == 32 && HexLabels(labels) && i < 16
    ensures var ip := ExtractPtrIp(Join(labels) + ".ip6.arpa");
            && ip.Some? && ip.value.Sixteen? && |ip.value.octets| == 16
            && ip.value.octets[i] == 16 * HexValue(labels[31 - 2 * i][0]) + HexValue(labels[30 - 2 * i][0])
  {
    ReversedDigits(labels);
    V6NameReadBack(labels);
    OctetMeans(labels, Reverse(labels), Chars(Reverse(labels)), i, 30 - 2 * i);
  }

  predicate FourOctets(labels: seq<string>) {
    |labels| == 4 && forall l | l in labels :: OctetLabel(l) && '.' !in l
  }

  predicate ThirtyTwoDigits(labels: seq<string>) {
    |labels| == 32 && HexLabels(labels)
  }

  /** Up to case and trailing dots, these two kinds of name stand for an address, and no others. */
  lemma ReverseNamesExactly(ptrName: string)
    ensures ExtractPtrIp(ptrName).Some? <==>
            || (exists labels :: FourOctets(labels) && Canonical(ptrName) == Join(labels) + ".in-addr.arpa")
            || (exists labels :: ThirtyTwoDigits(labels) && Canonical(ptrName) == Join(labels) + ".ip6.arpa")
  {
    var name := Canonical(ptrName);
    if ExtractPtrIp(ptrName).Some? {
      if EndsWith(name, V4_ZONE) {
        BodyAndZone(name, V4_ZONE);
        assert FourOctets(Split(Body(name, V4_ZONE)));
      } else {
        BodyAndZone(name, V6_ZONE);
        assert ThirtyTwoDigits(Split(Body(name, V6_ZONE)));
      }
    }
    if labels :| FourOctets(labels) && name == Join(labels) + ".in-addr.arpa" {
      V4NameReadBack(labels);
    }
    if labels :| ThirtyTwoDigits(labels) && name == Join(labels) + ".ip6.arpa" {
      V6NameReadBack(labels);
    }
  }
}
