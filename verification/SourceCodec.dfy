/** Source symbols: self-delimiting batches of flow records (src/wire.rs). */
module SourceCodec {
  import opened Results
  import opened Galois
  import opened Varint

  const SOURCE_DATAGRAM: byte := 0x20
  const MAX_SOURCE_RECORDS: nat := 32

  datatype Record = Record(flowId: nat, offset: nat, fin: bool, data: Bytes)

  datatype Source = Source(symbolId: nat, records: seq<Record>)

  /** What `encode_source` accepts: nonempty data inside the offset space. */
  predicate ValidRecord(r: Record) {
    && r.flowId <= MAX_WIRE_OFFSET
    && r.data != []
    && r.offset + |r.data| <= MAX_WIRE_OFFSET
  }

  predicate ValidSource(s: Source) {
    && s.symbolId < 0x1_0000_0000
    && 1 <= |s.records| <= 255
    && forall i :: 0 <= i < |s.records| ==> ValidRecord(s.records[i])
  }

  function EncodeRecord(r: Record): Bytes {
    EncodeVarint(r.flowId) +
    (EncodeVarint(r.offset) + ([if r.fin then 1 else 0] + (EncodeVarint(|r.data|) + r.data)))
  }

  function EncodeRecords(records: seq<Record>): Bytes {
    if records == [] then [] else EncodeRecord(records[0]) + EncodeRecords(records[1..])
  }

  function EncodeSource(s: Source): Bytes
    requires |s.records| <= 255
  {
    [SOURCE_DATAGRAM] + (ToBytes(s.symbolId, 4) + ([|s.records|] + EncodeRecords(s.records)))
  }

  // ----- decoding

  function ParseFlag(input: Bytes): (res: Result<(bool, Bytes), CodecError>)
    ensures res.Ok? ==> |res.value.1| < |input|
  {
    var (flag, rest) :- ParseByte(input);
    if flag > 1 then Err(InvalidField) else Ok((flag == 1, rest))
  }

  /** src/wire.rs, `decode_source_record`. */
  function ParseRecord(input: Bytes): (res: Result<(Record, Bytes), CodecError>)
    ensures res.Ok? ==> |res.value.1| < |input|
  {
    var (flowId, i1) :- ParseVarint(input);
    var (offset, i2) :- ParseVarint(i1);
    var (fin, i3) :- ParseFlag(i2);
    var (length, i4) :- ParseVarint(i3);
    if length == 0 || offset + length > MAX_WIRE_OFFSET then Err(InvalidField)
    else
      var (data, rest) :- ParseTake(i4, length);
      Ok((Record(flowId, offset, fin, data), rest))
  }

  function ParseRecords(input: Bytes, count: nat): (res: Result<(seq<Record>, Bytes), CodecError>)
    ensures res.Ok? ==> |res.value.0| == count && |res.value.1| <= |input|
    decreases count
  {
    if count == 0 then Ok(([], input))
    else
      var (head, i1) :- ParseRecord(input);
      var (tail, rest) :- ParseRecords(i1, count - 1);
      Ok(([head] + tail, rest))
  }

  function ParseBody(input: Bytes, maxRecords: nat): (res: Result<(Source, Bytes), CodecError>)
    ensures res.Ok? ==> |res.value.1| < |input|
  {
    var (kind, i1) :- ParseByte(input);
    if kind != SOURCE_DATAGRAM then Err(UnknownType)
    else
      var (symbolId, i2) :- ParseNumber(i1, 4);
      var (count, i3) :- ParseByte(i2);
      if count == 0 || count > maxRecords then Err(Limit)
      else
        var (records, rest) :- ParseRecords(i3, count);
        Ok((Source(symbolId, records), rest))
  }

  /** src/wire.rs, `decode_source_inner`: the source and the bytes after it. */
  function ParseSource(input: Bytes, maxRecords: nat, maxBytes: nat): (res: Result<(Source, Bytes), CodecError>)
    ensures res.Ok? ==> |res.value.1| < |input|
  {
    if |input| > maxBytes then Err(Limit) else ParseBody(input, maxRecords)
  }

  function DecodeSource(input: Bytes, maxRecords: nat, maxBytes: nat): Result<Source, CodecError> {
    var (source, rest) :- ParseSource(input, maxRecords, maxBytes);
    if rest != [] then Err(TrailingBytes) else Ok(source)
  }

  predicate Zeros(bytes: Bytes) {
    forall i :: 0 <= i < |bytes| ==> bytes[i] == 0
  }

  /** The source and the number of bytes it occupies; zero padding may follow. */
  function DecodeSourcePadded(input: Bytes, maxRecords: nat, maxBytes: nat): (res: Result<(Source, nat), CodecError>)
    ensures res.Ok? ==> res.value.1 <= |input|
  {
    var (source, rest) :- ParseSource(input, maxRecords, maxBytes);
    if Zeros(rest) then Ok((source, |input| - |rest|)) else Err(TrailingBytes)
  }

  // ----- round trips

  lemma RecordRoundTrip(r: Record, rest: Bytes)
    requires ValidRecord(r)
    ensures ParseRecord(EncodeRecord(r) + rest) == Ok((r, rest))
  {
    hide EncodeVarint, ParseVarint, ParseByte, ParseTake;
    var f, o, l := EncodeVarint(r.flowId), EncodeVarint(r.offset), EncodeVarint(|r.data|);
    var flag: Bytes := [if r.fin then 1 else 0];
    var i4 := l + r.data;
    var i3 := flag + i4;
    var i2 := o + i3;
    Regroup(f, i2, rest); Regroup(o, i3, rest); Regroup(flag, i4, rest); Regroup(l, r.data, rest);
    ParseVarintOk(r.flowId, i2 + rest);
    ParseVarintOk(r.offset, i3 + rest);
    ParseByteOk(flag[0], i4 + rest);
    ParseVarintOk(|r.data|, r.data + rest);
    ParseTakeOk(r.data, rest);
  }

  lemma ParseRecordsStep(input: Bytes, count: nat, head: Record, i1: Bytes)
    requires count > 0 && ParseRecord(input) == Ok((head, i1))
    ensures ParseRecords(input, count) ==
      match ParseRecords(i1, count - 1)
      case Ok((tail, rest)) => Ok(([head] + tail, rest))
      case Err(e) => Err(e)
  {
    hide ParseRecord;
  }

  lemma {:induction false} RecordsRoundTrip(records: seq<Record>, rest: Bytes)
    requires forall i :: 0 <= i < |records| ==> ValidRecord(records[i])
    ensures ParseRecords(EncodeRecords(records) + rest, |records|) == Ok((records, rest))
  {
    if records == [] {
      assert [] + rest == rest;
    } else {
      var head, tail := EncodeRecord(records[0]), EncodeRecords(records[1..]);
      assert EncodeRecords(records) == head + tail;
      hide *;
      Regroup(head, tail, rest);
      RecordRoundTrip(records[0], tail + rest);
      RecordsRoundTrip(records[1..], rest);
      ParseRecordsStep(EncodeRecords(records) + rest, |records|, records[0], tail + rest);
      assert records == [records[0]] + records[1..];
    }
  }

  /** An encoded source says where it ends: it is read back whatever follows it. */
  lemma SourceSelfDelimits(s: Source, rest: Bytes, maxRecords: nat, maxBytes: nat)
    requires ValidSource(s) && |s.records| <= maxRecords
    requires |EncodeSource(s)| + |rest| <= maxBytes
    ensures ParseSource(EncodeSource(s) + rest, maxRecords, maxBytes) == Ok((s, rest))
  {
    hide EncodeRecords, ParseRecords, ToBytes, ParseByte, ParseNumber;
    var kind: Bytes, id, count: Bytes := [SOURCE_DATAGRAM], ToBytes(s.symbolId, 4), [|s.records|];
    var i3 := EncodeRecords(s.records);
    var i2 := count + i3;
    var i1 := id + i2;
    Regroup(kind, i1, rest); Regroup(id, i2, rest); Regroup(count, i3, rest);
    ParseByteOk(SOURCE_DATAGRAM, i1 + rest);
    Powers();
    ParseNumberOk(s.symbolId, 4, i2 + rest);
    ParseByteOk(|s.records|, i3 + rest);
    RecordsRoundTrip(s.records, rest);
  }

  /** Zero padding is stripped exactly: the original bytes come back at their own length. */
  lemma PaddedRoundTrip(s: Source, padded: Bytes, maxRecords: nat, maxBytes: nat)
    requires ValidSource(s) && |s.records| <= maxRecords && |padded| <= maxBytes
    requires |EncodeSource(s)| <= |padded| && padded[..|EncodeSource(s)|] == EncodeSource(s)
    requires Zeros(padded[|EncodeSource(s)|..])
    ensures DecodeSourcePadded(padded, maxRecords, maxBytes) == Ok((s, |EncodeSource(s)|))
  {
    hide EncodeSource, ParseSource;
    var rest := padded[|EncodeSource(s)|..];
    assert padded == EncodeSource(s) + rest;
    SourceSelfDelimits(s, rest, maxRecords, maxBytes);
  }

  lemma SourceRoundTrip(s: Source, maxRecords: nat, maxBytes: nat)
    requires ValidSource(s) && |s.records| <= maxRecords && |EncodeSource(s)| <= maxBytes
    ensures DecodeSource(EncodeSource(s), maxRecords, maxBytes) == Ok(s)
  {
    SourceSelfDelimits(s, [], maxRecords, maxBytes);
    assert EncodeSource(s) + [] == EncodeSource(s);
  }

  // ----- every accepted source is the encoding of what it decodes to

  lemma RecordCanonical(input: Bytes)
    requires ParseRecord(input).Ok?
    ensures var (r, rest) := ParseRecord(input).value; ValidRecord(r) && input == EncodeRecord(r) + rest
  {
    hide EncodeVarint, ParseVarint;
    var (r, rest) := ParseRecord(input).value;
    var (flowId, i1) := ParseVarint(input).value;
    ParseVarintIs(input);
    var (offset, i2) := ParseVarint(i1).value;
    ParseVarintIs(i1);
    var (fin, i3) := ParseFlag(i2).value;
    var flag: Bytes := [if r.fin then 1 else 0];
    assert i2 == flag + i3;
    var (length, i4) := ParseVarint(i3).value;
    ParseVarintIs(i3);
    assert i4 == r.data + rest;
    var l := EncodeVarint(|r.data|);
    Regroup(l, r.data, rest);
    Regroup(flag, l + r.data, rest);
    Regroup(EncodeVarint(offset), flag + (l + r.data), rest);
    Regroup(EncodeVarint(flowId), EncodeVarint(offset) + (flag + (l + r.data)), rest);
  }

  lemma ParseRecordsOk(input: Bytes, count: nat)
    requires count > 0 && ParseRecords(input, count).Ok?
    ensures ParseRecord(input).Ok?
    ensures ParseRecords(ParseRecord(input).value.1, count - 1).Ok?
    ensures ParseRecords(input, count).value.0 ==
            [ParseRecord(input).value.0] + ParseRecords(ParseRecord(input).value.1, count - 1).value.0
    ensures ParseRecords(input, count).value.1 == ParseRecords(ParseRecord(input).value.1, count - 1).value.1
  {
    hide ParseRecord;
  }

  lemma EncodeRecordsCons(head: Record, tail: seq<Record>)
    ensures EncodeRecords([head] + tail) == EncodeRecord(head) + EncodeRecords(tail)
  {
    assert ([head] + tail)[1..] == tail;
  }

  ghost predicate AllValid(records: seq<Record>) {
    forall i :: 0 <= i < |records| ==> ValidRecord(records[i])
  }

  lemma {:induction false} RecordsCanonical(input: Bytes, count: nat)
    requires ParseRecords(input, count).Ok?
    ensures var (records, rest) := ParseRecords(input, count).value;
      input == EncodeRecords(records) + rest && AllValid(records)
    decreases count
  {
    if count == 0 {
      assert [] + input == input;
    } else {
      hide ParseRecord, ParseRecords, EncodeRecord, EncodeRecords, ValidRecord;
      ParseRecordsOk(input, count);
      var (head, i1) := ParseRecord(input).value;
      RecordCanonical(input);
      RecordsCanonical(i1, count - 1);
      var (tail, rest) := ParseRecords(i1, count - 1).value;
      EncodeRecordsCons(head, tail);
      Regroup(EncodeRecord(head), EncodeRecords(tail), rest);
    }
  }

  /** Only encodings are accepted, so two accepted datagrams with equal contents are equal. */
  lemma SourceCanonical(input: Bytes, maxRecords: nat, maxBytes: nat)
    requires maxRecords <= 255 && ParseSource(input, maxRecords, maxBytes).Ok?
    ensures var (s, rest) := ParseSource(input, maxRecords, maxBytes).value;
      ValidSource(s) && input == EncodeSource(s) + rest
  {
    hide EncodeRecords, ParseRecords, ToBytes, ParseNumber, ValidRecord;
    var (s, rest) := ParseSource(input, maxRecords, maxBytes).value;
    var (kind, i1) := ParseByte(input).value;
    var k: Bytes, count: Bytes := [kind], [|s.records|];
    assert input == k + i1;
    var (symbolId, i2) := ParseNumber(i1, 4).value;
    Powers();
    ParseNumberIs(i1, 4);
    var i3 := i2[1..];
    assert i2 == count + i3;
    RecordsCanonical(i3, |s.records|);
    var r := EncodeRecords(s.records);
    Regroup(count, r, rest);
    Regroup(ToBytes(symbolId, 4), count + r, rest);
    Regroup(k, ToBytes(symbolId, 4) + (count + r), rest);
  }
}
