/** Repair datagrams on the wire (src/wire.rs). */
module RepairCodec {
  import opened Results
  import opened Galois
  import opened Varint
  import opened SourceCodec
  import opened Repair

  const REPAIR_DATAGRAM: byte := 0x21

  datatype RepairDatagram = RepairDatagram(
    repairId: nat, firstSymbolId: nat, span: nat, symbolSize: nat, seed: nat, coded: Bytes)

  /** What `encode_repair` accepts, in the ranges of its integer fields. */
  predicate ValidRepair(r: RepairDatagram) {
    && r.repairId < U32 && r.firstSymbolId < U32 && r.seed < U32
    && 1 <= r.span <= MAX_REPAIR_SPAN && 1 <= r.symbolSize <= U16_MAX && |r.coded| == r.symbolSize
  }

  function EncodeRepair(r: RepairDatagram): Bytes {
    [REPAIR_DATAGRAM] + (ToBytes(r.repairId, 4) + (ToBytes(r.firstSymbolId, 4) +
    (ToBytes(r.span, 2) + (ToBytes(r.symbolSize, 2) + (ToBytes(r.seed, 4) + r.coded)))))
  }

  /** src/wire.rs, `decode_repair`. */
  function DecodeRepair(input: Bytes, maxBytes: nat): Result<RepairDatagram, CodecError> {
    var (kind, i1) :- ParseByte(input);
    if kind != REPAIR_DATAGRAM then Err(UnknownType)
    else
      var (repairId, i2) :- ParseNumber(i1, 4);
      var (firstSymbolId, i3) :- ParseNumber(i2, 4);
      var (span, i4) :- ParseNumber(i3, 2);
      var (symbolSize, i5) :- ParseNumber(i4, 2);
      var (seed, i6) :- ParseNumber(i5, 4);
      if span == 0 || span > MAX_REPAIR_SPAN || symbolSize == 0 || symbolSize > maxBytes then Err(InvalidField)
      else
        var (coded, rest) :- ParseTake(i6, symbolSize);
        if rest != [] then Err(TrailingBytes)
        else Ok(RepairDatagram(repairId, firstSymbolId, span, symbolSize, seed, coded))
  }

  /** A repair is read back as it was written, if the receiver admits symbols of its size. */
  lemma RepairRoundTrip(r: RepairDatagram, maxBytes: nat)
    requires ValidRepair(r)
    ensures DecodeRepair(EncodeRepair(r), maxBytes) == if r.symbolSize <= maxBytes then Ok(r) else Err(InvalidField)
  {
    Powers();
    var a, b, c, d, e := ToBytes(r.repairId, 4), ToBytes(r.firstSymbolId, 4), ToBytes(r.span, 2),
        ToBytes(r.symbolSize, 2), ToBytes(r.seed, 4);
    hide ToBytes, FromBytes, ParseNumber, ParseByte, ParseTake, Power256;
    ParseByteOk(REPAIR_DATAGRAM, a + (b + (c + (d + (e + r.coded)))));
    ParseNumberOk(r.repairId, 4, b + (c + (d + (e + r.coded))));
    ParseNumberOk(r.firstSymbolId, 4, c + (d + (e + r.coded)));
    ParseNumberOk(r.span, 2, d + (e + r.coded));
    ParseNumberOk(r.symbolSize, 2, e + r.coded);
    ParseNumberOk(r.seed, 4, r.coded);
    ParseTakeOk(r.coded, []);
    assert r.coded + [] == r.coded;
  }

  /** Only encodings are accepted. */
  lemma RepairCanonical(input: Bytes, maxBytes: nat)
    requires DecodeRepair(input, maxBytes).Ok?
    ensures var r := DecodeRepair(input, maxBytes).value; ValidRepair(r) && input == EncodeRepair(r)
  {
    var r := DecodeRepair(input, maxBytes).value;
    var i1 := ParseByte(input).value.1;
    var i2 := ParseNumber(i1, 4).value.1;
    var i3 := ParseNumber(i2, 4).value.1;
    var i4 := ParseNumber(i3, 2).value.1;
    var i5 := ParseNumber(i4, 2).value.1;
    var i6 := ParseNumber(i5, 4).value.1;
    Powers();
    ParseNumberIs(i1, 4);
    ParseNumberIs(i2, 4);
    ParseNumberIs(i3, 2);
    ParseNumberIs(i4, 2);
    ParseNumberIs(i5, 4);
    assert input == [REPAIR_DATAGRAM] + i1;
    assert i6 == r.coded;
    hide ToBytes, FromBytes, ParseNumber, ParseByte, ParseTake, Power256;
  }
}
