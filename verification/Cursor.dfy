/** The decoders and encoders of src/wire.rs as they move a cursor and grow an output, proved equal to the syntax. */
module Cursor {
  import opened Results
  import opened Galois
  import opened Varint
  import opened AckRanges
  import opened SourceCodec
  import opened Control
  import opened Repair
  import opened RepairCodec

  lemma FromLast(s: Bytes, b: byte)
    ensures FromBytes(s + [b]) == 256 * FromBytes(s) + b
  {
    assert (s + [b])[..|s|] == s;
  }

  /** src/wire.rs, `decode_varint`. */
  method ReadVarint(input: Bytes) returns (res: Result<(nat, nat), CodecError>)
    ensures res == DecodeVarint(input)
  {
    if input == [] {
      return Err(Truncated);
    }
    var first := input[0];
    var length := Width(first);
    if |input| < length {
      return Err(Truncated);
    }
    var value: nat := first % 64;
    var i := 1;
    FromSingle(first % 64);
    assert [first % 64] + input[1..1] == [first % 64];
    while i < length
      invariant 1 <= i <= length <= |input|
      invariant value == FromBytes([first % 64] + input[1..i])
    {
      FromLast([first % 64] + input[1..i], input[i]);
      assert [first % 64] + input[1..i] + [input[i]] == [first % 64] + input[1..i + 1];
      value := value * 256 + input[i];
      i := i + 1;
    }
    if value < Minimum(length) {
      return Err(NonCanonical);
    }
    return Ok((value, length));
  }

  class Cursor {
    const input: Bytes
    var offset: nat

    ghost predicate Valid()
      reads this
    {
      offset <= |input|
    }

    ghost function Rest(): Bytes
      requires Valid()
      reads this
    {
      input[offset..]
    }

    /** The cursor has moved as a parser that was given the old rest; on an error it need not be used again. */
    ghost predicate Parsed<T(!new)>(parsed: Result<(T, Bytes), CodecError>, res: Result<T, CodecError>)
      reads this
    {
      && Valid() && (res.Ok? <==> parsed.Ok?)
      && (res.Ok? ==> res.value == parsed.value.0 && Rest() == parsed.value.1)
      && (res.Err? ==> res.error == parsed.error)
    }

    constructor (input: Bytes)
      ensures Valid() && Rest() == input && this.input == input
    {
      this.input, offset := input, 0;
    }

    method U8() returns (res: Result<byte, CodecError>)
      requires Valid()
      modifies this
      ensures Parsed(ParseByte(old(Rest())), res)
    {
      if offset == |input| {
        return Err(Truncated);
      }
      res := Ok(input[offset]);
      offset := offset + 1;
    }

    method Take(length: nat) returns (res: Result<Bytes, CodecError>)
      requires Valid()
      modifies this
      ensures Parsed(ParseTake(old(Rest()), length), res)
    {
      if offset + length > |input| {
        return Err(Truncated);
      }
      res := Ok(input[offset..offset + length]);
      assert input[offset..][..length] == input[offset..offset + length];
      offset := offset + length;
    }

    /** Big-endian fields of two, four and eight bytes. */
    method Number(width: nat) returns (res: Result<nat, CodecError>)
      requires Valid()
      modifies this
      ensures Parsed(ParseNumber(old(Rest()), width), res)
    {
      var bytes := Take(width);
      if bytes.Err? {
        return Err(bytes.error);
      }
      var value: nat, i: nat := 0, 0;
      assert bytes.value[..0] == [];
      while i < |bytes.value|
        invariant 0 <= i <= |bytes.value| && value == FromBytes(bytes.value[..i])
        invariant Valid() && Rest() == ParseTake(old(Rest()), width).value.1
      {
        FromLast(bytes.value[..i], bytes.value[i]);
        assert bytes.value[..i] + [bytes.value[i]] == bytes.value[..i + 1];
        value := value * 256 + bytes.value[i];
        i := i + 1;
      }
      assert bytes.value[..i] == bytes.value;
      return Ok(value);
    }

    method Varint() returns (res: Result<nat, CodecError>)
      requires Valid()
      modifies this
      ensures Parsed(ParseVarint(old(Rest())), res)
    {
      var decoded := ReadVarint(input[offset..]);
      if decoded.Err? {
        return Err(decoded.error);
      }
      VarintCanonical(input[offset..]);
      hide DecodeVarint, EncodeVarint;
      offset := offset + decoded.value.1;
      res := Ok(decoded.value.0);
    }

    /** src/wire.rs, `decode_source_record`. */
    method SourceRecord() returns (res: Result<Record, CodecError>)
      requires Valid()
      modifies this
      ensures Parsed(ParseRecord(old(Rest())), res)
    {
      hide ParseVarint, ParseByte, ParseTake;
      var flowId := Varint();
      if flowId.Err? {
        return Err(flowId.error);
      }
      var offset := Varint();
      if offset.Err? {
        return Err(offset.error);
      }
      var flags := U8();
      if flags.Err? {
        return Err(flags.error);
      }
      if flags.value > 1 {
        return Err(InvalidField);
      }
      var length := Varint();
      if length.Err? {
        return Err(length.error);
      }
      if length.value == 0 || offset.value + length.value > MAX_WIRE_OFFSET {
        return Err(InvalidField);
      }
      var data := Take(length.value);
      if data.Err? {
        return Err(data.error);
      }
      return Ok(Record(flowId.value, offset.value, flags.value == 1, data.value));
    }

    /** src/wire.rs, the record loop of `decode_source_inner`. */
    method SourceRecords(count: nat) returns (res: Result<seq<Record>, CodecError>)
      requires Valid()
      modifies this
      ensures Parsed(ParseRecords(old(Rest()), count), res)
    {
      hide ParseRecord;
      var records, i := [], 0;
      ghost var start := Rest();
      ContinuesStart(ParseRecords(start, count));
      while i < count
        invariant 0 <= i <= count && Valid()
        invariant Continues(ParseRecords(start, count), records, ParseRecords(Rest(), count - i))
      {
        ghost var before := Rest();
        var record := SourceRecord();
        if record.Err? {
          return Err(record.error);
        }
        ParseRecordsStep(before, count - i, record.value, Rest());
        ContinuesNext(ParseRecords(start, count), records, record.value, ParseRecords(before, count - i),
                      ParseRecords(Rest(), count - i - 1));
        records, i := records + [record.value], i + 1;
      }
      assert records + [] == records;
      return Ok(records);
    }

    /** The body of `decode_source_inner`. */
    method SourceBody(maxRecords: nat) returns (res: Result<Source, CodecError>)
      requires Valid()
      modifies this
      ensures Parsed(ParseBody(old(Rest()), maxRecords), res)
    {
      hide ParseRecords, ParseNumber, ParseByte;
      var kind := U8();
      if kind.Err? {
        return Err(kind.error);
      }
      if kind.value != SOURCE_DATAGRAM {
        return Err(UnknownType);
      }
      var symbolId := Number(4);
      if symbolId.Err? {
        return Err(symbolId.error);
      }
      var count := U8();
      if count.Err? {
        return Err(count.error);
      }
      if count.value == 0 || count.value > maxRecords {
        return Err(Limit);
      }
      var records := SourceRecords(count.value);
      if records.Err? {
        return Err(records.error);
      }
      return Ok(Source(symbolId.value, records.value));
    }

    /** src/wire.rs, the range loop of `decode_control`. */
    method Ranges(count: nat, contiguous: nat) returns (res: Result<seq<Range>, CodecError>)
      requires Valid()
      modifies this
      ensures Parsed(ParseRanges(old(Rest()), count, contiguous), res)
    {
      hide ParseVarint;
      var ranges: seq<Range>, i: nat, previous: nat := [], 0, contiguous;
      ghost var start := Rest();
      ContinuesStart(ParseRanges(start, count, contiguous));
      while i < count
        invariant 0 <= i <= count && Valid()
        invariant Continues(ParseRanges(start, count, contiguous), ranges, ParseRanges(Rest(), count - i, previous))
      {
        ghost var before := Rest();
        var first := Varint();
        if first.Err? {
          return Err(first.error);
        }
        var end := Varint();
        if end.Err? {
          return Err(end.error);
        }
        if first.value < previous || first.value >= end.value || end.value > MAX_WIRE_OFFSET {
          return Err(InvalidField);
        }
        var range := Range(first.value, end.value);
        ContinuesNext(ParseRanges(start, count, contiguous), ranges, range,
                      ParseRanges(before, count - i, previous), ParseRanges(Rest(), count - i - 1, end.value));
        ranges, i, previous := ranges + [range], i + 1, end.value;
      }
      assert ranges + [] == ranges;
      return Ok(ranges);
    }
  }

  /** What is still to parse completes what has been parsed. */
  ghost predicate Continues<T(!new)>(whole: Result<(seq<T>, Bytes), CodecError>, done: seq<T>,
                                     left: Result<(seq<T>, Bytes), CodecError>)
  {
    match left
    case Ok((tail, rest)) => whole == Ok((done + tail, rest))
    case Err(error) => whole == Err(error)
  }

  lemma ContinuesStart<T(!new)>(whole: Result<(seq<T>, Bytes), CodecError>)
    ensures Continues(whole, [], whole)
  {
    if whole.Ok? {
      assert [] + whole.value.0 == whole.value.0;
    }
  }

  lemma ContinuesNext<T(!new)>(whole: Result<(seq<T>, Bytes), CodecError>, done: seq<T>, head: T,
                               before: Result<(seq<T>, Bytes), CodecError>, after: Result<(seq<T>, Bytes), CodecError>)
    requires Continues(whole, done, before)
    requires match after
      case Ok((tail, rest)) => before == Ok(([head] + tail, rest))
      case Err(error) => before == Err(error)
    ensures Continues(whole, done + [head], after)
  {
    if after.Ok? {
      assert done + ([head] + after.value.0) == done + [head] + after.value.0;
    }
  }

  /** src/wire.rs, `decode_source_inner`: the source and how many bytes it took. */
  method ReadSource(input: Bytes, maxRecords: nat, maxBytes: nat) returns (res: Result<(Source, nat), CodecError>)
    ensures match ParseSource(input, maxRecords, maxBytes)
      case Ok((source, rest)) => res == Ok((source, |input| - |rest|))
      case Err(error) => res == Err(error)
  {
    hide ParseBody;
    if |input| > maxBytes {
      return Err(Limit);
    }
    var cursor := new Cursor(input);
    var source := cursor.SourceBody(maxRecords);
    if source.Err? {
      return Err(source.error);
    }
    return Ok((source.value, cursor.offset));
  }

  lemma {:induction false} EncodeRecordsLast(records: seq<Record>, i: nat)
    requires i < |records|
    ensures EncodeRecords(records[..i + 1]) == EncodeRecords(records[..i]) + EncodeRecord(records[i])
    decreases i
  {
    hide EncodeRecord;
    if i == 0 {
      assert records[..1] == [records[0]] && records[..0] == [];
      assert [records[0]][1..] == [];
      assert EncodeRecord(records[0]) + [] == EncodeRecord(records[0]);
    } else {
      var tail := records[1..];
      EncodeRecordsLast(tail, i - 1);
      assert records[..i + 1][1..] == tail[..i] && records[..i][1..] == tail[..i - 1];
      Regroup(EncodeRecord(records[0]), EncodeRecords(tail[..i - 1]), EncodeRecord(records[i]));
    }
  }

  /** src/wire.rs, `encode_source`. */
  method WriteSource(symbolId: nat, records: seq<Record>) returns (res: Result<Bytes, CodecError>)
    requires symbolId < U32
    ensures res == Err(Limit) <==> |records| > 255
    ensures res == Err(InvalidField) <==>
      && |records| <= 255
      && (|| records == []
          || exists i :: 0 <= i < |records|
               && (records[i].data == [] || records[i].offset + |records[i].data| > MAX_WIRE_OFFSET))
    ensures res.Err? ==> res.error in {Limit, InvalidField}
    ensures res.Ok? ==> res.value == EncodeSource(Source(symbolId, records))
  {
    hide EncodeRecords, EncodeVarint, ToBytes;
    if |records| > 255 {
      return Err(Limit);
    }
    if records == [] {
      return Err(InvalidField);
    }
    var head := [SOURCE_DATAGRAM] + ToBytes(symbolId, 4) + [|records|];
    var body: Bytes := [];
    var i := 0;
    EncodeNone(records);
    while i < |records|
      invariant 0 <= i <= |records| && body == EncodeRecords(records[..i])
      invariant forall k :: 0 <= k < i ==>
        records[k].data != [] && records[k].offset + |records[k].data| <= MAX_WIRE_OFFSET
    {
      var record := records[i];
      if record.data == [] || record.offset + |record.data| > MAX_WIRE_OFFSET {
        return Err(InvalidField);
      }
      EncodeRecordsLast(records, i);
      body := body + EncodeVarint(record.flowId) + EncodeVarint(record.offset) + [if record.fin then 1 else 0]
        + EncodeVarint(|record.data|) + record.data;
      RecordJoins(record, EncodeRecords(records[..i]));
      i := i + 1;
    }
    assert records[..i] == records;
    assert head + body == EncodeSource(Source(symbolId, records));
    return Ok(head + body);
  }

  lemma EncodeNone(records: seq<Record>)
    ensures EncodeRecords(records[..0]) == []
  {
  }

  lemma RecordJoins(r: Record, done: Bytes)
    ensures done + EncodeVarint(r.flowId) + EncodeVarint(r.offset) + [if r.fin then 1 else 0] + EncodeVarint(|r.data|) +
        r.data
      == done + EncodeRecord(r)
  {
    hide EncodeVarint;
  }
}
