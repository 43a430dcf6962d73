/** One path's carrier state: sequence numbers, acknowledgments and the SYN (src/faketcp.rs). */
module Carrier {
  import opened Results
  import opened Galois
  import opened Varint
  import opened TcpOptions
  import opened FakeTcp

  const SYN: byte := 0x02
  const SYN_ACK: byte := 0x12
  const DATA: byte := 0x18
  const U32: nat := 0x1_0000_0000
  const MAX_DATAGRAM_BYTES: nat := 65_475

  predicate IsSyn(flags: byte) {
    flags / 2 % 2 == 1
  }

  predicate IsRst(flags: byte) {
    flags / 4 % 2 == 1
  }

  /** The sequence space that one datagram takes. */
  function Consumed(flags: byte, payload: Bytes): nat {
    |payload| + if IsSyn(flags) then 1 else 0
  }

  datatype Decoded = Decoded(sequence: nat, wasSyn: bool, payload: Bytes)

  /** src/faketcp.rs, `decode_datagram_borrowed`, without its bookkeeping. */
  function Accept(packet: Bytes, tuple: FourTuple, cookie: Option<Bytes>, mtu: nat)
    : (r: Result<PacketView, CarrierError>)
    ensures r.Ok? ==> r.value.payload != []
  {
    if |packet| > mtu then Err(PacketTooLarge)
    else
      var view :- DecodePacket(packet, Prefix(tuple));
      if view.tuple != tuple.Reverse() then Err(WrongTuple)
      else if IsRst(view.flags) then Err(InvalidTcpHeader)
      else if view.payload == [] then Err(EmptyPayload)
      else if IsSyn(view.flags) && cookie.None? then Err(SynDataDisabled)
      else if IsSyn(view.flags) && view.cookie != cookie then Err(SynCookieRejected)
      else Ok(view)
  }

  class FakeTcpCarrier {
    const tuple: FourTuple
    const prefix: nat
    const cookie: Option<Bytes>
    const synMss: nat
    const outerMtu: nat
    var sendSequence: nat
    var acknowledgment: nat
    var sentSyn: bool

    ghost predicate Valid()
      reads this
    {
      && tuple.Valid() && prefix == Prefix(tuple) && synMss <= 0xffff && outerMtu <= 0xffff
      && (cookie.Some? ==> |cookie.value| == 16)
      && sendSequence <= MAX_U32 && acknowledgment <= MAX_U32
    }

    /** src/faketcp.rs, `new_with_initial_sequence`, with the sizes of `new_with_mtu`. */
    constructor (tuple: FourTuple, cookie: Option<Bytes>, initialSequence: nat, synMss: nat, outerMtu: nat)
      requires tuple.Valid() && (cookie.Some? ==> |cookie.value| == 16) && initialSequence <= MAX_U32
      requires synMss <= 0xffff && outerMtu <= 0xffff
      ensures Valid() && this.tuple == tuple && this.cookie == cookie && this.outerMtu == outerMtu
      ensures this.synMss == synMss
      ensures sendSequence == initialSequence && acknowledgment == 0 && !sentSyn
    {
      this.tuple, this.cookie, prefix := tuple, cookie, Prefix(tuple);
      this.synMss, this.outerMtu := synMss, outerMtu;
      sendSequence, acknowledgment, sentSyn := initialSequence, 0, false;
    }

    ghost function Options(flags: byte): TcpOptions
      reads this
    {
      if IsSyn(flags) && cookie.Some? then SynOptions(synMss, cookie.value) else NO_OPTIONS
    }

    /** src/faketcp.rs, `encode_into`. */
    method Encode(datagram: Bytes, flags: byte) returns (res: Result<Bytes, CarrierError>)
      requires Valid() && (IsSyn(flags) ==> cookie.Some?)
      modifies this`sendSequence
      ensures Valid()
      ensures res.Ok? ==>
        && EncodePacket(tuple, old(sendSequence), acknowledgment, flags, 0xffff, Options(flags), datagram,
             Prefix(tuple)) == Ok(res.value)
        && |res.value| <= outerMtu
        && sendSequence == (old(sendSequence) + Consumed(flags, datagram)) % U32
      ensures res.Err? ==> sendSequence == old(sendSequence)
      ensures res.Err? <==>
        |datagram| > MAX_DATAGRAM_BYTES
        || HeaderBytes(tuple) + TCP_HEADER_BYTES + (if IsSyn(flags) then 28 else 0) + |datagram| > outerMtu
    {
      if |datagram| > MAX_DATAGRAM_BYTES {
        return Err(DatagramTooLarge);
      }
      var options := if IsSyn(flags) then SynOptions(synMss, cookie.value) else NO_OPTIONS;
      var packet := EncodePacket(tuple, sendSequence, acknowledgment, flags, 0xffff, options, datagram, prefix);
      PacketSize(tuple, sendSequence, acknowledgment, flags, options, datagram);
      hide EncodePacket, Prefix;
      if packet.Err? {
        return packet;
      }
      if |packet.value| > outerMtu {
        return Err(PacketTooLarge);
      }
      sendSequence := (sendSequence + Consumed(flags, datagram)) % U32;
      return packet;
    }

    /** src/faketcp.rs, `encode_syn` and `encode_syn_ack`: once, and only with a cookie. */
    method EncodeFirst(datagram: Bytes, flags: byte) returns (res: Result<Bytes, CarrierError>)
      requires Valid() && (flags == SYN || flags == SYN_ACK)
      modifies this
      ensures Valid() && acknowledgment == old(acknowledgment)
      ensures old(sentSyn) ==> res == Err(InvalidState)
      ensures !old(sentSyn) && cookie.None? ==> res == Err(SynDataDisabled)
      ensures !old(sentSyn) && cookie.Some? ==>
        (res.Err? <==>
          |datagram| > MAX_DATAGRAM_BYTES || HeaderBytes(tuple) + TCP_HEADER_BYTES + 28 + |datagram| > outerMtu)
      ensures res.Ok? ==>
        && EncodePacket(tuple, old(sendSequence), acknowledgment, flags, 0xffff, Options(flags), datagram,
             Prefix(tuple)) == Ok(res.value)
        && sentSyn && sendSequence == (old(sendSequence) + Consumed(flags, datagram)) % U32
      ensures res.Err? ==> sendSequence == old(sendSequence) && sentSyn == old(sentSyn)
    {
      hide EncodePacket, Prefix;
      if sentSyn {
        return Err(InvalidState);
      }
      if cookie.None? {
        return Err(SynDataDisabled);
      }
      res := Encode(datagram, flags);
      if res.Ok? {
        sentSyn := true;
      }
    }

    /** src/faketcp.rs, `decode_datagram_borrowed`: a payload is returned at once, whatever sequence it has. */
    method Decode(packet: Bytes) returns (res: Result<Decoded, CarrierError>)
      requires Valid()
      modifies this`acknowledgment
      ensures Valid()
      ensures match Accept(packet, tuple, cookie, outerMtu)
        case Ok(view) =>
          && res == Ok(Decoded(view.sequence, IsSyn(view.flags), view.payload))
          && acknowledgment == Later(old(acknowledgment), (view.sequence + Consumed(view.flags, view.payload)) % U32)
        case Err(error) => res == Err(error) && acknowledgment == old(acknowledgment)
    {
      hide DecodePacket;
      var accepted := Accept(packet, tuple, cookie, outerMtu);
      if accepted.Err? {
        return Err(accepted.error);
      }
      var view := accepted.value;
      var next := (view.sequence + Consumed(view.flags, view.payload)) % U32;
      if acknowledgment == 0 || (next - acknowledgment) % U32 < 0x8000_0000 {
        acknowledgment := next;
      }
      return Ok(Decoded(view.sequence, IsSyn(view.flags), view.payload));
    }
  }

  /** The later of two points in sequence space; zero stands for none yet. */
  function Later(previous: nat, next: nat): nat {
    if previous == 0 || (next - previous) % U32 < 0x8000_0000 then next else previous
  }

  lemma PacketSize(t: FourTuple, sequence: nat, acknowledgment: nat, flags: byte, options: TcpOptions, payload: Bytes)
    requires t.Valid()
    requires (options == NO_OPTIONS || (exists mss, cookie :: options == SynOptions(mss, cookie) && |cookie| == 16))
    ensures var size := HeaderBytes(t) + TCP_HEADER_BYTES + (if options == NO_OPTIONS then 0 else 28) + |payload|;
      var packet := EncodePacket(t, sequence, acknowledgment, flags, 0xffff, options, payload, Prefix(t));
      (packet.Ok? <==> size <= MAX_PACKET_BYTES) && (packet.Ok? ==> |packet.value| == size)
  {
    if options != NO_OPTIONS {
      OptionsFit(options);
      assert |EncodeOptions(options).value| == 28;
    }
    var encoded := if options == NO_OPTIONS then [] else EncodeOptions(options).value;
    var s := Segment(t.source.port, t.destination.port, sequence, acknowledgment, flags, 0xffff, encoded, payload);
    hide EncodeOptions, EncodeSegment, Prefix, Ipv4Checksum;
    SegmentSize(s, t.source.address.V4?, Prefix(t));
  }

  /** The peer of a path accepts every packet with a payload that fits its MTU, and reads the same datagram. */
  lemma AcceptRoundTrip(t: FourTuple, sequence: nat, acknowledgment: nat, flags: byte, options: TcpOptions,
                        cookie: Option<Bytes>, payload: Bytes, packet: Bytes, mtu: nat)
    requires t.Valid() && sequence <= MAX_U32 && acknowledgment <= MAX_U32 && flags in {SYN, SYN_ACK, DATA}
    requires IsSyn(flags) ==> cookie.Some? && options.cookie == cookie
    requires EncodePacket(t, sequence, acknowledgment, flags, 0xffff, options, payload, Prefix(t)) == Ok(packet)
    requires |packet| <= mtu
    ensures Accept(packet, t.Reverse(), cookie, mtu) ==
      if payload == [] then Err(EmptyPayload) else Ok(PacketView(t, sequence, flags, options.cookie, payload))
  {
    hide EncodePacket, DecodePacket, Prefix;
    PacketRoundTrip(t, sequence, acknowledgment, flags, 0xffff, options, payload);
    assert t.Reverse().Reverse() == t;
  }

  /** Two ends of one path with the same cookie. */
  ghost predicate Paired(a: FakeTcpCarrier, b: FakeTcpCarrier)
    reads a, b
  {
    a != b && a.Valid() && b.Valid() && b.tuple == a.tuple.Reverse() && b.cookie == a.cookie
  }

  /**
   * A datagram goes from one end to the other: the first in a SYN, later ones in data packets. What
   * arrives is what was sent, and while nothing is lost the acknowledgment follows the sender.
   */
  method Exchange(a: FakeTcpCarrier, b: FakeTcpCarrier, datagram: Bytes, first: byte)
    returns (res: Result<Decoded, CarrierError>)
    requires Paired(a, b) && first in {SYN, SYN_ACK} && (a.sentSyn || a.cookie.Some?) && datagram != []
    requires |datagram| <= MAX_DATAGRAM_BYTES
    requires HeaderBytes(a.tuple) + TCP_HEADER_BYTES + (if a.sentSyn then 0 else 28) + |datagram| <= a.outerMtu
    requires HeaderBytes(a.tuple) + TCP_HEADER_BYTES + (if a.sentSyn then 0 else 28) + |datagram| <= b.outerMtu
    modifies a, b
    ensures Paired(a, b) && a.sentSyn && b.sendSequence == old(b.sendSequence)
    ensures a.acknowledgment == old(a.acknowledgment)
    ensures res == Ok(Decoded(old(a.sendSequence), !old(a.sentSyn), datagram))
    ensures old(b.acknowledgment) in {0, old(a.sendSequence)} ==> b.acknowledgment == a.sendSequence
  {
    hide EncodePacket, DecodePacket, Prefix;
    ghost var sequence := a.sendSequence;
    var flags := if a.sentSyn then DATA else first;
    ghost var options := if IsSyn(flags) then SynOptions(a.synMss, a.cookie.value) else NO_OPTIONS;
    PacketSize(a.tuple, a.sendSequence, a.acknowledgment, flags, options, datagram);
    var packet;
    if a.sentSyn {
      packet := a.Encode(datagram, DATA);
    } else {
      packet := a.EncodeFirst(datagram, first);
    }
    AcceptRoundTrip(a.tuple, sequence, a.acknowledgment, flags, options, a.cookie, datagram, packet.value, b.outerMtu);
    res := b.Decode(packet.value);
    Follows(sequence, Consumed(flags, datagram));
  }

  lemma Follows(sequence: nat, consumed: nat)
    requires sequence <= MAX_U32 && consumed < 0x8000_0000
    ensures Later(sequence, (sequence + consumed) % U32) == (sequence + consumed) % U32
  {
  }
}
