/**
 * Datagrams in TCP-shaped packets (src/faketcp.rs; section 3.1 of RFC 9293, section 3.1 of RFC 791,
 * section 8.1 of RFC 8200).
 */
module FakeTcp {
  import opened Results
  import opened Galois
  import opened Varint
  import opened Checksum
  import opened TcpOptions

  const TCP_PROTOCOL: byte := 6
  const TCP_HEADER_BYTES: nat := 20
  const IPV4_HEADER_BYTES: nat := 20
  const IPV6_HEADER_BYTES: nat := 40
  const MAX_PACKET_BYTES: nat := 0xffff

  datatype Address = V4(octets: Bytes) | V6(octets: Bytes) {
    predicate Valid() {
      |octets| == if V4? then 4 else 16
    }
  }

  datatype Host = Host(address: Address, port: nat)

  datatype FourTuple = FourTuple(source: Host, destination: Host) {
    function Reverse(): FourTuple {
      FourTuple(destination, source)
    }

    /** src/faketcp.rs, `validate`. */
    predicate Valid() {
      && source.address.Valid() && destination.address.Valid() && source.address.V4? == destination.address.V4?
      && source.port <= 0xffff && destination.port <= 0xffff && source.port != 0 && destination.port != 0
      && (exists i :: 0 <= i < |source.address.octets| && source.address.octets[i] != 0)
      && exists i :: 0 <= i < |destination.address.octets| && destination.address.octets[i] != 0
    }
  }

  // ----- checksums

  /** src/faketcp.rs, `tcp_pseudo_header_prefix`. */
  function Prefix(t: FourTuple): nat {
    Sum16(t.source.address.octets) + Sum16(t.destination.address.octets) + TCP_PROTOCOL
  }

  /** Both ends of a path cache the same prefix. */
  lemma PrefixReverses(t: FourTuple)
    ensures Prefix(t.Reverse()) == Prefix(t)
  {
  }

  function LengthSum(v4: bool, length: nat): nat {
    if v4 then if length <= 0xffff then length else 0xffff else length / 0x1_0000 + length % 0x1_0000
  }

  /** src/faketcp.rs, `tcp_checksum_with_prefix`. */
  function TcpChecksum(v4: bool, prefix: nat, tcp: Bytes): nat {
    Complement(prefix + LengthSum(v4, |tcp|) + Sum16(tcp))
  }

  /** Eight 16-bit words to an address, and the protocol. */
  const MAX_PREFIX: nat := 16 * ONES + 6

  lemma PrefixBound(t: FourTuple)
    requires t.source.address.Valid() && t.destination.address.Valid()
    ensures Prefix(t) <= MAX_PREFIX
  {
    hide Sum16;
    SumBound(t.source.address.octets);
    SumBound(t.destination.address.octets);
  }

  /** The whole sum that is folded stays below 2^32, so nothing wraps on the way to the checksum. */
  lemma ChecksumTotal(t: FourTuple, v4: bool, tcp: Bytes)
    requires t.source.address.Valid() && t.destination.address.Valid() && |tcp| <= MAX_PACKET_BYTES
    ensures Prefix(t) + LengthSum(v4, |tcp|) + Sum16(tcp) < U32_LIMIT
  {
    hide Sum16;
    PrefixBound(t);
    SumBound(tcp);
  }

  /** src/faketcp.rs, `tcp_checksum_with_prefix`, step by step in 32 bits. */
  method ChecksumWithPrefix(t: FourTuple, v4: bool, prefix: nat, tcp: Bytes) returns (checksum: nat, ghost total: nat)
    requires t.source.address.Valid() && t.destination.address.Valid() && prefix == Prefix(t)
    requires |tcp| <= MAX_PACKET_BYTES
    ensures checksum == TcpChecksum(v4, prefix, tcp) && checksum <= ONES
    ensures total == prefix + LengthSum(v4, |tcp|) + Sum16(tcp) && total < U32_LIMIT
  {
    hide Sum16;
    ChecksumTotal(t, v4, tcp);
    var sum := ChecksumSum(tcp);
    var all := prefix + LengthSum(v4, |tcp|) + sum;
    var folded := FoldChecksum(all);
    return ONES - folded, all;
  }

  // ----- TCP segments

  datatype Segment = Segment(
    sourcePort: nat, destinationPort: nat, sequence: nat, acknowledgment: nat, flags: byte, window: nat,
    options: Bytes, payload: Bytes)

  predicate ValidSegment(s: Segment) {
    && s.sourcePort <= 0xffff && s.destinationPort <= 0xffff && s.sequence <= MAX_U32 && s.acknowledgment <= MAX_U32
    && s.window <= 0xffff && |s.options| % 4 == 0 && |s.options| <= MAX_OPTION_BYTES
  }

  /** The first sixteen bytes of a header, up to the checksum. */
  function HeaderFront(s: Segment): (h: Bytes)
    requires |s.options| <= MAX_OPTION_BYTES
    ensures |h| == 16
  {
    ToBytes(s.sourcePort, 2) + ToBytes(s.destinationPort, 2) + ToBytes(s.sequence, 4) + ToBytes(s.acknowledgment, 4)
    + [(TCP_HEADER_BYTES + |s.options|) / 4 * 16, s.flags] + ToBytes(s.window, 2)
  }

  function Laid(s: Segment, checksum: nat): Bytes
    requires |s.options| <= MAX_OPTION_BYTES
  {
    HeaderFront(s) + (ToBytes(checksum, 2) + ([0, 0] + (s.options + s.payload)))
  }

  function EncodeSegment(s: Segment, v4: bool, prefix: nat): Bytes
    requires |s.options| <= MAX_OPTION_BYTES
  {
    Laid(s, TcpChecksum(v4, prefix, Laid(s, 0)))
  }

  lemma LaidSum(s: Segment, checksum: nat)
    requires |s.options| <= MAX_OPTION_BYTES && checksum < 0x1_0000
    ensures Sum16(Laid(s, checksum)) == Sum16(Laid(s, 0)) + checksum && |Laid(s, checksum)| == |Laid(s, 0)|
  {
    var front, back := HeaderFront(s), [0, 0] + (s.options + s.payload);
    hide HeaderFront, ToBytes, Sum16;
    SumConcat(front, ToBytes(checksum, 2) + back);
    SumConcat(front, ToBytes(0, 2) + back);
    SumConcat(ToBytes(checksum, 2), back);
    SumConcat(ToBytes(0, 2), back);
    SumWord(checksum);
    SumWord(0);
  }

  /** An encoded segment always passes the check of its receiver. */
  lemma SegmentVerifies(s: Segment, v4: bool, prefix: nat)
    requires |s.options| <= MAX_OPTION_BYTES
    ensures TcpChecksum(v4, prefix, EncodeSegment(s, v4, prefix)) == 0
  {
    var c := TcpChecksum(v4, prefix, Laid(s, 0));
    LaidSum(s, c);
    ComplementCancels(prefix + LengthSum(v4, |Laid(s, 0)|) + Sum16(Laid(s, 0)));
    hide Laid, Sum16, LengthSum, Complement;
  }

  datatype PacketView = PacketView(tuple: FourTuple, sequence: nat, flags: byte, cookie: Option<Bytes>, payload: Bytes)

  /** src/faketcp.rs, `decode_tcp_view`. */
  function DecodeTcp(source: Address, destination: Address, input: Bytes, prefix: nat): Result<PacketView, CarrierError>
  {
    if |input| < TCP_HEADER_BYTES || TcpChecksum(source.V4?, prefix, input) != 0 then Err(InvalidTcpHeader)
    else
      var header: nat := input[12] / 16 * 4;
      if header < TCP_HEADER_BYTES || header > |input| then Err(InvalidTcpHeader)
      else
        var cookie :- Scan(input[TCP_HEADER_BYTES..header], None);
        Ok(PacketView(FourTuple(Host(source, FromBytes(input[0..2])), Host(destination, FromBytes(input[2..4]))),
                      FromBytes(input[4..8]), input[13], cookie, input[header..]))
  }

  lemma FrontFields(s: Segment, rest: Bytes)
    requires |s.options| <= MAX_OPTION_BYTES
    ensures var input := HeaderFront(s) + rest;
      && input[0..2] == ToBytes(s.sourcePort, 2) && input[2..4] == ToBytes(s.destinationPort, 2)
      && input[4..8] == ToBytes(s.sequence, 4)
      && input[12] == (TCP_HEADER_BYTES + |s.options|) / 4 * 16 && input[13] == s.flags
  {
    hide ToBytes;
  }

  lemma OffsetField(n: nat)
    requires n % 4 == 0
    ensures (TCP_HEADER_BYTES + n) / 4 * 16 / 16 * 4 == TCP_HEADER_BYTES + n
  {
  }

  lemma LaidFields(s: Segment, checksum: nat)
    requires ValidSegment(s)
    ensures var input := Laid(s, checksum);
      && |input| == TCP_HEADER_BYTES + |s.options| + |s.payload|
      && FromBytes(input[0..2]) == s.sourcePort && FromBytes(input[2..4]) == s.destinationPort
      && FromBytes(input[4..8]) == s.sequence
      && input[12] / 16 * 4 == TCP_HEADER_BYTES + |s.options| && input[13] == s.flags
  {
    Powers();
    FromTo(s.sourcePort, 2);
    FromTo(s.destinationPort, 2);
    FromTo(s.sequence, 4);
    OffsetField(|s.options|);
    var rest := ToBytes(checksum, 2) + ([0, 0] + (s.options + s.payload));
    hide ToBytes, FromBytes, HeaderFront, Power256;
    FrontFields(s, rest);
    var input := Laid(s, checksum);
    assert input == HeaderFront(s) + rest;
    hide Laid;
  }

  lemma LaidTail(s: Segment, checksum: nat)
    requires |s.options| <= MAX_OPTION_BYTES
    ensures Laid(s, checksum)[20..20 + |s.options|] == s.options && Laid(s, checksum)[20 + |s.options|..] == s.payload
  {
    var front := HeaderFront(s) + (ToBytes(checksum, 2) + [0, 0]);
    hide HeaderFront, ToBytes;
    assert Laid(s, checksum) == front + (s.options + s.payload);
    assert |front| == 20;
  }

  lemma SegmentRoundTrip(s: Segment, source: Address, destination: Address, prefix: nat, cookie: Option<Bytes>)
    requires ValidSegment(s) && Scan(s.options, None) == Ok(cookie)
    ensures DecodeTcp(source, destination, EncodeSegment(s, source.V4?, prefix), prefix) ==
      Ok(PacketView(FourTuple(Host(source, s.sourcePort), Host(destination, s.destinationPort)), s.sequence, s.flags,
        cookie, s.payload))
  {
    SegmentVerifies(s, source.V4?, prefix);
    var c := TcpChecksum(source.V4?, prefix, Laid(s, 0));
    LaidFields(s, c);
    LaidTail(s, c);
    hide Laid, FromBytes, Scan, TcpChecksum;
  }

  // ----- IP packets

  function Ipv4Front(total: nat): (h: Bytes)
    ensures |h| == 10
  {
    [0x45, 0] + ToBytes(total, 2) + [0, 0, 0x40, 0, 64, TCP_PROTOCOL]
  }

  function Ipv4Header(t: FourTuple, total: nat, checksum: nat): Bytes {
    Ipv4Front(total) + (ToBytes(checksum, 2) + (t.source.address.octets + t.destination.address.octets))
  }

  /** src/faketcp.rs, `ipv4_header_checksum`: the closed form. */
  function Ipv4Checksum(t: FourTuple, total: nat): nat {
    Complement(total + 0x4500 + 0x4000 + 0x4006 + Sum16(t.source.address.octets) + Sum16(t.destination.address.octets))
  }

  lemma Ipv4Sum(t: FourTuple, total: nat, checksum: nat)
    requires t.source.address.Valid() && t.source.address.V4? && total < 0x1_0000 && checksum < 0x1_0000
    ensures Sum16(Ipv4Header(t, total, checksum)) ==
      total + 0x4500 + 0x4000 + 0x4006 + Sum16(t.source.address.octets) + Sum16(t.destination.address.octets) + checksum
  {
    var a, b := t.source.address.octets, t.destination.address.octets;
    FrontSum(total);
    SumWord(checksum);
    hide Sum16, ToBytes, Ipv4Front;
    SumConcat(Ipv4Front(total), ToBytes(checksum, 2) + (a + b));
    SumConcat(ToBytes(checksum, 2), a + b);
    SumConcat(a, b);
  }

  lemma FrontSum(total: nat)
    requires total < 0x1_0000
    ensures Sum16(Ipv4Front(total)) == total + 0x4500 + 0x4000 + 0x4006
  {
    var last: Bytes := [0, 0, 0x40, 0, 64, TCP_PROTOCOL];
    SumConcat([0x45, 0] + ToBytes(total, 2), last);
    SumConcat([0x45, 0], ToBytes(total, 2));
    SumWord(total);
    SumPair(0, 0, [0x40, 0, 64, TCP_PROTOCOL]);
    SumPair(0x40, 0, [64, TCP_PROTOCOL]);
    SumPair(64, TCP_PROTOCOL, []);
    SumPair(0x45, 0, []);
    assert last == [0, 0] + [0x40, 0, 64, TCP_PROTOCOL];
    assert [0x40, 0] + [64, TCP_PROTOCOL] == [0x40, 0, 64, TCP_PROTOCOL];
    assert [64, TCP_PROTOCOL] + [] == [64, TCP_PROTOCOL] && [0x45, 0] + [] == [0x45, 0];
  }

  /** The closed form is the generic checksum of the header it is written into. */
  lemma ClosedFormIsGeneric(t: FourTuple, total: nat)
    requires t.source.address.Valid() && t.source.address.V4? && total < 0x1_0000
    ensures Ipv4Checksum(t, total) == Complement(Sum16(Ipv4Header(t, total, 0)))
    ensures Complement(Sum16(Ipv4Header(t, total, Ipv4Checksum(t, total)))) == 0
  {
    Ipv4Sum(t, total, 0);
    Ipv4Sum(t, total, Ipv4Checksum(t, total));
    hide Ipv4Header, Complement, Sum16;
    ComplementCancels(total + 0x4500 + 0x4000 + 0x4006 + Sum16(t.source.address.octets) +
      Sum16(t.destination.address.octets));
  }

  function Ipv6Header(t: FourTuple, length: nat): Bytes {
    [0x60, 0, 0, 0] + ToBytes(length, 2) + [TCP_PROTOCOL, 64] + (t.source.address.octets + t.destination.address.octets)
  }

  function HeaderBytes(t: FourTuple): nat {
    if t.source.address.V4? then IPV4_HEADER_BYTES else IPV6_HEADER_BYTES
  }

  /** src/faketcp.rs, `encode_packet_into`. */
  function EncodePacket(t: FourTuple, sequence: nat, acknowledgment: nat, flags: byte, window: nat, options: TcpOptions,
                        payload: Bytes, prefix: nat): Result<Bytes, CarrierError>
  {
    if || t.source.address.V4? != t.destination.address.V4?
       || t.source.port == 0 || t.destination.port == 0
    then Err(InvalidTuple)
    else
      var encoded :- if options == NO_OPTIONS then Ok([]) else EncodeOptions(options);
      var length := TCP_HEADER_BYTES + |encoded| + |payload|;
      if HeaderBytes(t) + length > MAX_PACKET_BYTES then Err(PacketTooLarge)
      else
        var segment := Segment(t.source.port, t.destination.port, sequence, acknowledgment, flags, window, encoded,
                               payload);
        Ok(Wrap(t, EncodeSegment(segment, t.source.address.V4?, prefix)))
  }

  /** The IP header and the segment it carries. */
  function Wrap(t: FourTuple, tcp: Bytes): Bytes {
    if t.source.address.V4? then
      var total := IPV4_HEADER_BYTES + |tcp|;
      Ipv4Header(t, total, Ipv4Checksum(t, total)) + tcp
    else Ipv6Header(t, |tcp|) + tcp
  }

  lemma SegmentSize(s: Segment, v4: bool, prefix: nat)
    requires |s.options| <= MAX_OPTION_BYTES
    ensures |EncodeSegment(s, v4, prefix)| == TCP_HEADER_BYTES + |s.options| + |s.payload|
  {
    hide TcpChecksum, HeaderFront;
  }

  function DecodeIpv4(input: Bytes, prefix: nat): Result<PacketView, CarrierError>
    requires |input| >= IPV4_HEADER_BYTES
  {
    var header: nat := input[0] % 16 * 4;
    if header < IPV4_HEADER_BYTES || |input| < header then Err(InvalidIpHeader)
    else if FromBytes(input[2..4]) != |input| || |input| < header + TCP_HEADER_BYTES then Err(InvalidIpHeader)
    else if FromBytes(input[6..8]) % 0x4000 != 0 || input[9] != TCP_PROTOCOL || Complement(Sum16(input[..header])) != 0
    then Err(InvalidIpHeader)
    else DecodeTcp(V4(input[12..16]), V4(input[16..20]), input[header..], prefix)
  }

  function DecodeIpv6(input: Bytes, prefix: nat): Result<PacketView, CarrierError> {
    if |input| < IPV6_HEADER_BYTES then Err(InvalidIpHeader)
    else if FromBytes(input[4..6]) + IPV6_HEADER_BYTES != |input| || input[6] != TCP_PROTOCOL then Err(InvalidIpHeader)
    else DecodeTcp(V6(input[8..24]), V6(input[24..40]), input[IPV6_HEADER_BYTES..], prefix)
  }

  /** src/faketcp.rs, `decode_packet_view`. */
  function DecodePacket(input: Bytes, prefix: nat): Result<PacketView, CarrierError> {
    if |input| < IPV4_HEADER_BYTES then Err(PacketTooShort)
    else if |input| > MAX_PACKET_BYTES then Err(PacketTooLarge)
    else if input[0] / 16 == 4 then DecodeIpv4(input, prefix)
    else if input[0] / 16 == 6 then DecodeIpv6(input, prefix)
    else Err(UnsupportedIpVersion)
  }

  lemma Ipv4Fields(t: FourTuple, total: nat, checksum: nat, tcp: Bytes)
    requires t.source.address.Valid() && t.destination.address.Valid() && t.source.address.V4?
    requires t.destination.address.V4?
    requires total < 0x1_0000
    ensures var input := Ipv4Header(t, total, checksum) + tcp;
      && |input| == 20 + |tcp| && input[0] == 0x45 && FromBytes(input[2..4]) == total
      && FromBytes(input[6..8]) == 0x4000 && input[9] == TCP_PROTOCOL
      && input[12..16] == t.source.address.octets && input[16..20] == t.destination.address.octets
      && input[..20] == Ipv4Header(t, total, checksum) && input[20..] == tcp
  {
    var input := Ipv4Header(t, total, checksum) + tcp;
    Powers();
    FromTo(total, 2);
    FromTo(0x4000, 2);
    assert ToBytes(0x4000, 2) == [0x40, 0] by {
      assert ToBytes(0x40, 1) == ToBytes(0, 0) + [0x40];
    }
    hide ToBytes, FromBytes, Power256;
    assert input[2..4] == ToBytes(total, 2);
    assert input[6..8] == [0x40, 0];
  }

  lemma Ipv6Fields(t: FourTuple, length: nat, tcp: Bytes)
    requires t.source.address.Valid() && t.destination.address.Valid() && t.source.address.V6?
    requires t.destination.address.V6?
    requires length < 0x1_0000
    ensures var input := Ipv6Header(t, length) + tcp;
      && |input| == 40 + |tcp| && input[0] == 0x60 && FromBytes(input[4..6]) == length && input[6] == TCP_PROTOCOL
      && input[8..24] == t.source.address.octets && input[24..40] == t.destination.address.octets && input[40..] == tcp
  {
    var input := Ipv6Header(t, length) + tcp;
    Powers();
    FromTo(length, 2);
    hide ToBytes, FromBytes, Power256;
    assert input[4..6] == ToBytes(length, 2);
  }

  lemma Ipv4RoundTrip(t: FourTuple, tcp: Bytes, prefix: nat)
    requires t.source.address.Valid() && t.destination.address.Valid() && t.source.address.V4?
    requires t.destination.address.V4?
    requires TCP_HEADER_BYTES <= |tcp| && IPV4_HEADER_BYTES + |tcp| <= MAX_PACKET_BYTES
    ensures var total := IPV4_HEADER_BYTES + |tcp|;
      DecodePacket(Ipv4Header(t, total, Ipv4Checksum(t, total)) + tcp, prefix) ==
      DecodeTcp(t.source.address, t.destination.address, tcp, prefix)
  {
    var total := IPV4_HEADER_BYTES + |tcp|;
    ClosedFormIsGeneric(t, total);
    Ipv4Fields(t, total, Ipv4Checksum(t, total), tcp);
    hide DecodeTcp, Sum16, FromBytes, Ipv4Header, Complement;
  }

  lemma Ipv6RoundTrip(t: FourTuple, tcp: Bytes, prefix: nat)
    requires t.source.address.Valid() && t.destination.address.Valid() && t.source.address.V6?
    requires t.destination.address.V6?
    requires IPV6_HEADER_BYTES + |tcp| <= MAX_PACKET_BYTES
    ensures DecodePacket(Ipv6Header(t, |tcp|) + tcp, prefix) ==
        DecodeTcp(t.source.address, t.destination.address, tcp, prefix)
  {
    Ipv6Fields(t, |tcp|, tcp);
    hide DecodeTcp, FromBytes, Ipv6Header;
  }

  /** The peer reads exactly what was put into a packet, in either family. */
  lemma PacketRoundTrip(t: FourTuple, sequence: nat, acknowledgment: nat, flags: byte, window: nat, options: TcpOptions,
                        payload: Bytes)
    requires t.Valid() && sequence <= MAX_U32 && acknowledgment <= MAX_U32 && window <= 0xffff
    requires EncodePacket(t, sequence, acknowledgment, flags, window, options, payload, Prefix(t)).Ok?
    ensures DecodePacket(EncodePacket(t, sequence, acknowledgment, flags, window, options, payload, Prefix(t)).value,
                         Prefix(t.Reverse())) ==
      Ok(PacketView(t, sequence, flags, options.cookie, payload))
  {
    var encoded := if options == NO_OPTIONS then [] else EncodeOptions(options).value;
    var s := Segment(t.source.port, t.destination.port, sequence, acknowledgment, flags, window, encoded, payload);
    hide Scan, EncodeSegment, DecodeTcp, DecodePacket, Prefix, EncodeOptions, Wrap;
    OptionsScan(options, encoded);
    SegmentSize(s, t.source.address.V4?, Prefix(t));
    SegmentRoundTrip(s, t.source.address, t.destination.address, Prefix(t), options.cookie);
    PrefixReverses(t);
    WrapRoundTrip(t, EncodeSegment(s, t.source.address.V4?, Prefix(t)), Prefix(t));
  }

  lemma WrapRoundTrip(t: FourTuple, tcp: Bytes, prefix: nat)
    requires t.source.address.Valid() && t.destination.address.Valid()
    requires t.source.address.V4? == t.destination.address.V4?
    requires TCP_HEADER_BYTES <= |tcp| && HeaderBytes(t) + |tcp| <= MAX_PACKET_BYTES
    ensures DecodePacket(Wrap(t, tcp), prefix) == DecodeTcp(t.source.address, t.destination.address, tcp, prefix)
  {
    hide DecodePacket, DecodeTcp, Ipv4Header, Ipv6Header, Ipv4Checksum;
    if t.source.address.V4? {
      Ipv4RoundTrip(t, tcp, prefix);
    } else {
      Ipv6RoundTrip(t, tcp, prefix);
    }
  }

  lemma OptionsScan(options: TcpOptions, encoded: Bytes)
    requires if options == NO_OPTIONS then encoded == [] else EncodeOptions(options) == Ok(encoded)
    ensures Scan(encoded, None) == Ok(options.cookie) && |encoded| % 4 == 0 && |encoded| <= MAX_OPTION_BYTES
  {
    if options != NO_OPTIONS {
      OptionsFit(options);
      CookieRoundTrip(options);
    }
  }
}
