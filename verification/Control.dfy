/** Reliable control frames: syntax and bounded decoding (src/wire.rs). */
module Control {
  import opened Results
  import opened Galois
  import opened Varint
  import opened AckRanges
  import opened SourceCodec

  const MAX_HOST_BYTES: nat := 253
  const MAX_REPAIR_SPAN: nat := 256
  const MAX_DECODER_WINDOW: nat := 4096

  datatype Capabilities = Capabilities(flags: nat, maxSymbol: nat, maxSpan: nat, decoderWindow: nat, maxAckRanges: nat)

  datatype OpenRequest = OpenRequest(host: Bytes, port: nat)

  datatype ControlFrame =
    | CapabilitiesFrame(capabilities: Capabilities)
    | OpenFrame(request: OpenRequest)
    | StatusFrame(status: byte)
    | AckFrame(contiguous: nat, ranges: seq<Range>)
    | MaxOffsetFrame(offset: nat)
    | FinFrame(offset: nat)
    | StreamDataFrame(offset: nat, fin: bool, data: Bytes)
    | EarlyOpenFrame(token: Bytes, nonce: nat, request: OpenRequest, initial: Bytes)

  // ----- host names

  const DOT: byte := 46
  const DASH: byte := 45

  /** The dot-separated parts of a name. */
  function Labels(host: Bytes): (r: seq<Bytes>)
    ensures |r| > 0
  {
    if host == [] then [[]]
    else
      var rest := Labels(host[1..]);
      if host[0] == DOT then [[]] + rest else [[host[0]] + rest[0]] + rest[1..]
  }

  predicate Digit(b: byte) {
    48 <= b <= 57
  }

  predicate Label(s: Bytes) {
    && 1 <= |s| <= 63 && s[0] != DASH && s[|s| - 1] != DASH
    && forall i :: 0 <= i < |s| ==> 97 <= s[i] <= 122 || Digit(s[i]) || s[i] == DASH
  }

  function Decimal(s: Bytes): nat {
    if s == [] then 0 else 10 * Decimal(s[..|s| - 1]) + (if Digit(s[|s| - 1]) then s[|s| - 1] - 48 else 0)
  }

  /** Four decimal octets without leading zeros: the only addresses that are made of valid labels. */
  predicate Address(labels: seq<Bytes>) {
    && |labels| == 4
    && forall i :: 0 <= i < 4 ==>
      && 1 <= |labels[i]| <= 3 && (forall k :: 0 <= k < |labels[i]| ==> Digit(labels[i][k]))
      && (|labels[i]| > 1 ==> labels[i][0] != 48) && Decimal(labels[i]) <= 255
  }

  /** src/wire.rs, `CanonicalHost::parse`. */
  predicate CanonicalHost(host: Bytes) {
    var labels := Labels(host);
    && |host| <= MAX_HOST_BYTES && |labels| >= 2 && !Address(labels)
    && forall i :: 0 <= i < |labels| ==> Label(labels[i])
  }

  predicate ValidRequest(request: OpenRequest) {
    CanonicalHost(request.host) && 1 <= request.port <= 0xffff
  }

  function EncodeRequest(request: OpenRequest): Bytes
    requires |request.host| <= MAX_HOST_BYTES
  {
    [|request.host|] + (request.host + ToBytes(request.port, 2))
  }

  /** src/wire.rs, `OpenRequest::decode`; every failure reaches the caller as an invalid field. */
  function ParseRequest(input: Bytes): (res: Result<(OpenRequest, Bytes), CodecError>)
    ensures res.Err? ==> res.error == InvalidField
  {
    var n: nat := if input == [] then 0 else input[0];
    if n == 0 || |input| < n + 3 then Err(InvalidField)
    else
      var host, port := input[1..n + 1], FromBytes(input[n + 1..n + 3]);
      if !CanonicalHost(host) || port == 0 then Err(InvalidField) else Ok((OpenRequest(host, port), input[n + 3..]))
  }

  // ----- payloads

  function Kind(f: ControlFrame): byte {
    match f
    case CapabilitiesFrame(_) => 1
    case OpenFrame(_) => 2
    case StatusFrame(_) => 3
    case AckFrame(_, _) => 4
    case MaxOffsetFrame(_) => 5
    case FinFrame(_) => 6
    case StreamDataFrame(_, _, _) => 8
    case EarlyOpenFrame(_, _, _, _) => 9
  }

  predicate ValidCapabilities(c: Capabilities) {
    && (c.flags <= 3 || 8 <= c.flags <= 11)
    && 64 <= c.maxSymbol <= 0xffff && 1 <= c.maxSpan <= MAX_REPAIR_SPAN
    && 512 <= c.decoderWindow <= MAX_DECODER_WINDOW && 1 <= c.maxAckRanges <= 32
  }

  /** Ranges in order from `previous` on; neighbours may touch. */
  predicate Rising(ranges: seq<Range>, previous: nat)
    decreases |ranges|
  {
    ranges == [] ||
    (previous <= ranges[0].start < ranges[0].end <= MAX_WIRE_OFFSET && Rising(ranges[1..], ranges[0].end))
  }

  /** The frames that an endpoint may send. */
  predicate ValidFrame(f: ControlFrame, maxRanges: nat) {
    match f
    case CapabilitiesFrame(c) => ValidCapabilities(c)
    case OpenFrame(request) => ValidRequest(request)
    case StatusFrame(status) => status <= 6
    case AckFrame(contiguous, ranges) =>
      contiguous <= MAX_WIRE_OFFSET && |ranges| <= maxRanges && |ranges| <= 255 && Rising(ranges, contiguous)
    case MaxOffsetFrame(offset) => offset <= MAX_WIRE_OFFSET
    case FinFrame(offset) => offset <= MAX_WIRE_OFFSET
    case StreamDataFrame(offset, _, _) => offset <= MAX_WIRE_OFFSET
    case EarlyOpenFrame(token, nonce, request, initial) =>
      1 <= |token| <= 128 && nonce <= MAX_U64 && ValidRequest(request) && initial != []
  }

  function EncodeRanges(ranges: seq<Range>): Bytes {
    if ranges == [] then []
    else EncodeVarint(ranges[0].start) + (EncodeVarint(ranges[0].end) + EncodeRanges(ranges[1..]))
  }

  function Flag(fin: bool): byte {
    if fin then 1 else 0
  }

  function EncodePayload(f: ControlFrame, maxRanges: nat): Bytes
    requires ValidFrame(f, maxRanges)
  {
    match f
    case CapabilitiesFrame(c) =>
      EncodeVarint(c.flags) +
        (ToBytes(c.maxSymbol, 2) + (ToBytes(c.maxSpan, 2) + (ToBytes(c.decoderWindow, 2) + [c.maxAckRanges])))
    case OpenFrame(request) => EncodeRequest(request)
    case StatusFrame(status) => [status]
    case AckFrame(contiguous, ranges) => EncodeVarint(contiguous) + ([|ranges|] + EncodeRanges(ranges))
    case MaxOffsetFrame(offset) => EncodeVarint(offset)
    case FinFrame(offset) => EncodeVarint(offset)
    case StreamDataFrame(offset, fin, data) => EncodeVarint(offset) + ([Flag(fin)] + data)
    case EarlyOpenFrame(token, nonce, request, initial) =>
      [|token|] + (token + (ToBytes(nonce, 8) + (EncodeRequest(request) + initial)))
  }

  function ParseRanges(input: Bytes, count: nat, previous: nat): (res: Result<(seq<Range>, Bytes), CodecError>)
    ensures res.Ok? ==> |res.value.0| == count
    decreases count
  {
    if count == 0 then Ok(([], input))
    else
      var (start, i1) :- ParseVarint(input);
      var (end, i2) :- ParseVarint(i1);
      if start < previous || start >= end || end > MAX_WIRE_OFFSET then Err(InvalidField)
      else
        var (tail, rest) :- ParseRanges(i2, count - 1, end);
        Ok(([Range(start, end)] + tail, rest))
  }

  function Finish<T>(value: T, rest: Bytes): Result<T, CodecError> {
    if rest != [] then Err(TrailingBytes) else Ok(value)
  }

  function ParseCapabilities(payload: Bytes): Result<ControlFrame, CodecError> {
    var (flags, i1) :- ParseVarint(payload);
    if !(flags <= 3 || 8 <= flags <= 11) then Err(InvalidField)
    else
      var (maxSymbol, i2) :- ParseNumber(i1, 2);
      var (maxSpan, i3) :- ParseNumber(i2, 2);
      var (decoderWindow, i4) :- ParseNumber(i3, 2);
      var (maxAckRanges, rest) :- ParseByte(i4);
      var c := Capabilities(flags, maxSymbol, maxSpan, decoderWindow, maxAckRanges);
      if !ValidCapabilities(c) then Err(InvalidField) else Finish(CapabilitiesFrame(c), rest)
  }

  function ParseAck(payload: Bytes, maxRanges: nat): Result<ControlFrame, CodecError> {
    var (contiguous, i1) :- ParseVarint(payload);
    var (count, i2) :- ParseByte(i1);
    if count > maxRanges then Err(Limit)
    else
      var (ranges, rest) :- ParseRanges(i2, count, contiguous);
      Finish(AckFrame(contiguous, ranges), rest)
  }

  function ParseStreamData(payload: Bytes): Result<ControlFrame, CodecError> {
    var (offset, i1) :- ParseVarint(payload);
    var (fin, data) :- ParseFlag(i1);
    Ok(StreamDataFrame(offset, fin, data))
  }

  function ParseEarlyOpen(payload: Bytes): Result<ControlFrame, CodecError> {
    var (length, i1) :- ParseByte(payload);
    if length == 0 || length > 128 then Err(Limit)
    else
      var (token, i2) :- ParseTake(i1, length);
      var (nonce, i3) :- ParseNumber(i2, 8);
      var (request, initial) :- ParseRequest(i3);
      if initial == [] then Err(InvalidField) else Ok(EarlyOpenFrame(token, nonce, request, initial))
  }

  function ParsePayload(kind: byte, payload: Bytes, maxRanges: nat): Result<ControlFrame, CodecError> {
    if kind == 1 then ParseCapabilities(payload)
    else if kind == 2 then
      var (request, rest) :- ParseRequest(payload);
      Finish(OpenFrame(request), rest)
    else if kind == 3 then
      var (status, rest) :- ParseByte(payload);
      if status > 6 then Err(InvalidField) else Finish(StatusFrame(status), rest)
    else if kind == 4 then ParseAck(payload, maxRanges)
    else if kind == 5 then
      var (offset, rest) :- ParseVarint(payload);
      Finish(MaxOffsetFrame(offset), rest)
    else if kind == 6 then
      var (offset, rest) :- ParseVarint(payload);
      Finish(FinFrame(offset), rest)
    else if kind == 8 then ParseStreamData(payload)
    else if kind == 9 then ParseEarlyOpen(payload)
    else Err(UnknownType)
  }

  // ----- frames

  function Framed(kind: byte, payload: Bytes): Bytes {
    [kind] + (EncodeVarint(|payload|) + payload)
  }

  /** src/wire.rs, `encode_control`. */
  function EncodeControl(f: ControlFrame, maxRanges: nat): (enc: Bytes)
    requires ValidFrame(f, maxRanges)
    ensures enc != []
  {
    Framed(Kind(f), EncodePayload(f, maxRanges))
  }

  /** src/wire.rs, `control_payload_range`: where the payload ends, by the header alone. */
  function FrameEnd(input: Bytes, maxBytes: nat): Result<nat, CodecError> {
    var (kind, i1) :- ParseByte(input);
    var (length, i2) :- ParseVarint(i1);
    var end := |input| - |i2| + length;
    if end > maxBytes then Err(Limit) else Ok(end)
  }

  /** src/wire.rs, `decode_control`: the frame and the bytes after it. */
  function DecodeControl(input: Bytes, maxRanges: nat, maxBytes: nat): Result<(ControlFrame, Bytes), CodecError> {
    var end :- FrameEnd(input, maxBytes);
    if |input| < end then Err(Truncated)
    else
      var (kind, i1) :- ParseByte(input);
      var (length, i2) :- ParseVarint(i1);
      var (payload, rest) :- ParseTake(i2, length);
      var frame :- ParsePayload(kind, payload, maxRanges);
      Ok((frame, rest))
  }

  /** src/wire.rs, `control_frame_read_target`. */
  function ReadTarget(input: Bytes, maxBytes: nat): Result<nat, CodecError> {
    match FrameEnd(input, maxBytes)
    case Ok(end) => Ok(end)
    case Err(Truncated) =>
      var needed := if |input| < 2 then 2 else 1 + Width(input[1]);
      if needed > maxBytes then Err(Limit) else Ok(needed)
    case Err(error) => Err(error)
  }

  // ----- decoding undoes encoding

  lemma RequestRoundTrip(request: OpenRequest, rest: Bytes)
    requires ValidRequest(request)
    ensures ParseRequest(EncodeRequest(request) + rest) == Ok((request, rest))
  {
    var n, port := |request.host|, ToBytes(request.port, 2);
    HostIsLong(request.host);
    var input := EncodeRequest(request) + rest;
    assert input == [n] + request.host + port + rest;
    assert input[1..n + 1] == request.host;
    assert input[n + 1..n + 3] == port;
    assert input[n + 3..] == rest;
    Powers();
    FromTo(request.port, 2);
    hide CanonicalHost, FromBytes, ToBytes;
  }

  lemma HostIsLong(host: Bytes)
    requires CanonicalHost(host)
    ensures 1 <= |host| <= MAX_HOST_BYTES
  {
  }

  lemma ParseRangesStep(input: Bytes, count: nat, previous: nat, head: Range, i1: Bytes, i2: Bytes, tail: seq<Range>,
                        rest: Bytes)
    requires count > 0 && ParseVarint(input) == Ok((head.start, i1)) && ParseVarint(i1) == Ok((head.end, i2))
    requires previous <= head.start < head.end <= MAX_WIRE_OFFSET
    requires ParseRanges(i2, count - 1, head.end) == Ok((tail, rest))
    ensures ParseRanges(input, count, previous) == Ok(([head] + tail, rest))
  {
    hide ParseVarint;
  }

  lemma RangesCons(head: Range, tail: seq<Range>, c: Bytes, previous: nat, rest: Bytes)
    requires previous <= head.start < head.end <= MAX_WIRE_OFFSET
    requires ParseRanges(c + rest, |tail|, head.end) == Ok((tail, rest))
    ensures ParseRanges(EncodeVarint(head.start) + (EncodeVarint(head.end) + c) + rest, |tail| + 1, previous) ==
        Ok(([head] + tail, rest))
  {
    var a, b := EncodeVarint(head.start), EncodeVarint(head.end);
    hide *;
    Regroup(a, b + c, rest);
    Regroup(b, c, rest);
    ParseVarintOk(head.start, b + (c + rest));
    ParseVarintOk(head.end, c + rest);
    ParseRangesStep(a + (b + (c + rest)), |tail| + 1, previous, head, b + (c + rest), c + rest, tail, rest);
  }

  lemma {:induction false} RangesRoundTrip(ranges: seq<Range>, previous: nat, rest: Bytes)
    requires Rising(ranges, previous)
    ensures ParseRanges(EncodeRanges(ranges) + rest, |ranges|, previous) == Ok((ranges, rest))
    decreases |ranges|
  {
    if ranges == [] {
      assert EncodeRanges(ranges) + rest == rest;
    } else {
      var head, tail := ranges[0], ranges[1..];
      RangesRoundTrip(tail, head.end, rest);
      RangesCons(head, tail, EncodeRanges(tail), previous, rest);
      assert [head] + tail == ranges;
      hide EncodeVarint, ParseVarint, ParseRanges;
    }
  }

  lemma CapabilitiesRoundTrip(c: Capabilities)
    requires ValidCapabilities(c)
    ensures ParseCapabilities(EncodePayload(CapabilitiesFrame(c), 0)) == Ok(CapabilitiesFrame(c))
  {
    var a, b, d, e, last := EncodeVarint(c.flags), ToBytes(c.maxSymbol, 2), ToBytes(c.maxSpan, 2),
        ToBytes(c.decoderWindow, 2), [c.maxAckRanges];
    Powers();
    hide EncodeVarint, ParseVarint, ToBytes, ParseNumber, ParseByte, Power256;
    ParseVarintOk(c.flags, b + (d + (e + last)));
    ParseNumberOk(c.maxSymbol, 2, d + (e + last));
    ParseNumberOk(c.maxSpan, 2, e + last);
    ParseNumberOk(c.decoderWindow, 2, last);
    ParseByteOk(c.maxAckRanges, []);
    assert last + [] == last;
  }

  lemma AckRoundTrip(contiguous: nat, ranges: seq<Range>, maxRanges: nat)
    requires ValidFrame(AckFrame(contiguous, ranges), maxRanges)
    ensures ParseAck(EncodePayload(AckFrame(contiguous, ranges), maxRanges), maxRanges) ==
        Ok(AckFrame(contiguous, ranges))
  {
    var r := EncodeRanges(ranges);
    hide EncodeVarint, ParseVarint, ParseByte, EncodeRanges, ParseRanges;
    ParseVarintOk(contiguous, [|ranges|] + r);
    ParseByteOk(|ranges|, r);
    RangesRoundTrip(ranges, contiguous, []);
    assert r + [] == r;
  }

  lemma StreamDataRoundTrip(f: ControlFrame)
    requires f.StreamDataFrame? && ValidFrame(f, 0)
    ensures ParseStreamData(EncodePayload(f, 0)) == Ok(f)
  {
    hide EncodeVarint, ParseVarint, ParseByte;
    ParseVarintOk(f.offset, [Flag(f.fin)] + f.data);
    ParseByteOk(Flag(f.fin), f.data);
  }

  lemma EarlyOpenRoundTrip(f: ControlFrame)
    requires f.EarlyOpenFrame? && ValidFrame(f, 0)
    ensures ParseEarlyOpen(EncodePayload(f, 0)) == Ok(f)
  {
    var q, n := EncodeRequest(f.request), ToBytes(f.nonce, 8);
    Powers();
    hide ParseByte, ParseTake, ParseNumber, ParseRequest, EncodeRequest, ToBytes, ValidRequest, Power256;
    ParseByteOk(|f.token|, f.token + (n + (q + f.initial)));
    ParseTakeOk(f.token, n + (q + f.initial));
    ParseNumberOk(f.nonce, 8, q + f.initial);
    RequestRoundTrip(f.request, f.initial);
  }

  lemma OffsetRoundTrip(offset: nat)
    requires offset <= MAX_WIRE_OFFSET
    ensures ParseVarint(EncodeVarint(offset)) == Ok((offset, []))
  {
    hide EncodeVarint, ParseVarint;
    ParseVarintOk(offset, []);
    assert EncodeVarint(offset) + [] == EncodeVarint(offset);
  }

  lemma PayloadRoundTrip(f: ControlFrame, maxRanges: nat)
    requires ValidFrame(f, maxRanges)
    ensures ParsePayload(Kind(f), EncodePayload(f, maxRanges), maxRanges) == Ok(f)
  {
    hide EncodeVarint, ParseVarint, ParseCapabilities, ParseAck, ParseStreamData, ParseEarlyOpen, ParseRequest;
    hide EncodeRequest;
    match f {
      case CapabilitiesFrame(c) => CapabilitiesRoundTrip(c);
      case OpenFrame(request) =>
        RequestRoundTrip(request, []);
        assert EncodeRequest(request) + [] == EncodeRequest(request);
      case StatusFrame(status) => assert [status][1..] == [];
      case AckFrame(contiguous, ranges) => AckRoundTrip(contiguous, ranges, maxRanges);
      case MaxOffsetFrame(offset) => OffsetRoundTrip(offset);
      case FinFrame(offset) => OffsetRoundTrip(offset);
      case StreamDataFrame(_, _, _) => StreamDataRoundTrip(f);
      case EarlyOpenFrame(_, _, _, _) => EarlyOpenRoundTrip(f);
    }
  }

  lemma HeaderOk(kind: byte, payload: Bytes, rest: Bytes, maxBytes: nat)
    requires |payload| <= MAX_WIRE_OFFSET && |Framed(kind, payload)| <= maxBytes
    ensures var input := Framed(kind, payload) + rest;
      && ParseByte(input) == Ok((kind, EncodeVarint(|payload|) + (payload + rest)))
      && ParseVarint(EncodeVarint(|payload|) + (payload + rest)) == Ok((|payload|, payload + rest))
      && FrameEnd(input, maxBytes) == Ok(|Framed(kind, payload)|)
  {
    var v := EncodeVarint(|payload|);
    Regroup([kind], v + payload, rest);
    Regroup(v, payload, rest);
    hide EncodeVarint, ParseVarint, ParseByte;
    ParseByteOk(kind, v + (payload + rest));
    ParseVarintOk(|payload|, payload + rest);
  }

  /** Every frame that may be sent is read back as it was written, whatever follows it. */
  lemma ControlRoundTrip(f: ControlFrame, rest: Bytes, maxRanges: nat, maxBytes: nat)
    requires ValidFrame(f, maxRanges) && |EncodeControl(f, maxRanges)| <= maxBytes <= MAX_WIRE_OFFSET
    ensures DecodeControl(EncodeControl(f, maxRanges) + rest, maxRanges, maxBytes) == Ok((f, rest))
  {
    var payload := EncodePayload(f, maxRanges);
    HeaderOk(Kind(f), payload, rest, maxBytes);
    ParseTakeOk(payload, rest);
    PayloadRoundTrip(f, maxRanges);
    hide EncodeVarint, ParseVarint, ParseByte, ParseTake, ParsePayload, EncodePayload, FrameEnd, ValidFrame;
  }

  // ----- cut frames

  lemma CutHeader(v: Bytes, payload: Bytes, n: nat)
    requires v == EncodeVarint(|payload|) && |payload| <= MAX_WIRE_OFFSET && n < |v|
    ensures ParseVarint((v + payload)[..n]) == Err(Truncated)
    ensures n > 0 ==> Width((v + payload)[0]) == |v|
  {
    assert (v + payload)[..n] == v[..n];
    VarintPrefix(|payload|, n);
    EncodedVarint(|payload|);
    hide EncodeVarint, DecodeVarint, FromBytes;
  }

  lemma CutPayload(v: Bytes, payload: Bytes, n: nat)
    requires v == EncodeVarint(|payload|) && |payload| <= MAX_WIRE_OFFSET && |v| <= n <= |v + payload|
    ensures ParseVarint((v + payload)[..n]) == Ok((|payload|, payload[..n - |v|]))
  {
    assert (v + payload)[..n] == v + payload[..n - |v|];
    hide EncodeVarint, ParseVarint;
    ParseVarintOk(|payload|, payload[..n - |v|]);
  }

  /** A frame cut anywhere asks for more bytes, but never for more than the frame has. */
  lemma CutFrame(kind: byte, payload: Bytes, n: nat, maxBytes: nat)
    requires |Framed(kind, payload)| <= maxBytes <= MAX_WIRE_OFFSET && n <= |Framed(kind, payload)|
    ensures var cut := Framed(kind, payload)[..n];
      && (n < |Framed(kind, payload)| ==> FrameEnd(cut, maxBytes) in {Err(Truncated), Ok(|Framed(kind, payload)|)})
      && ReadTarget(cut, maxBytes).Ok? && ReadTarget(cut, maxBytes).value <= |Framed(kind, payload)|
      && (n < |Framed(kind, payload)| ==> n < ReadTarget(cut, maxBytes).value)
      && (n == |Framed(kind, payload)| ==> n == ReadTarget(cut, maxBytes).value)
  {
    hide EncodeVarint, ParseVarint, FromBytes, Minimum, Width;
    var v := EncodeVarint(|payload|);
    var body := v + payload;
    var cut := Framed(kind, payload)[..n];
    assert |v| >= 1 by { EncodedVarint(|payload|); }
    if n > 0 {
      assert cut[1..] == body[..n - 1] && cut[0] == kind;
      if n - 1 < |v| {
        CutHeader(v, payload, n - 1);
        assert n > 1 ==> cut[1] == body[0];
      } else {
        CutPayload(v, payload, n - 1);
      }
    }
  }

  /** Every strict prefix of a frame is reported as truncated. */
  lemma ControlPrefix(f: ControlFrame, n: nat, maxRanges: nat, maxBytes: nat)
    requires ValidFrame(f, maxRanges) && |EncodeControl(f, maxRanges)| <= maxBytes <= MAX_WIRE_OFFSET
    requires n < |EncodeControl(f, maxRanges)|
    ensures DecodeControl(EncodeControl(f, maxRanges)[..n], maxRanges, maxBytes) == Err(Truncated)
  {
    CutFrame(Kind(f), EncodePayload(f, maxRanges), n, maxBytes);
    hide FrameEnd, EncodePayload, Framed, ReadTarget, ParsePayload, ParseVarint;
  }

  // ----- accepted frames are canonical

  lemma RequestCanonical(input: Bytes)
    requires ParseRequest(input).Ok?
    ensures var (request, rest) := ParseRequest(input).value;
      ValidRequest(request) && input == EncodeRequest(request) + rest
  {
    var (request, rest) := ParseRequest(input).value;
    var n: nat := input[0];
    Powers();
    ToFrom(input[n + 1..n + 3]);
    hide CanonicalHost, FromBytes, ToBytes, Power256;
    assert input == [n] + input[1..n + 1] + input[n + 1..n + 3] + input[n + 3..];
  }

  lemma ParseRangesIs(input: Bytes, count: nat, previous: nat)
    returns (head: Range, i1: Bytes, i2: Bytes, tail: seq<Range>, rest: Bytes)
    requires count > 0 && ParseRanges(input, count, previous).Ok?
    ensures ParseVarint(input) == Ok((head.start, i1)) && ParseVarint(i1) == Ok((head.end, i2))
    ensures previous <= head.start < head.end <= MAX_WIRE_OFFSET
    ensures ParseRanges(i2, count - 1, head.end) == Ok((tail, rest))
    ensures ParseRanges(input, count, previous) == Ok(([head] + tail, rest))
  {
    hide ParseVarint;
    var start, end;
    start, i1 := ParseVarint(input).value.0, ParseVarint(input).value.1;
    end, i2 := ParseVarint(i1).value.0, ParseVarint(i1).value.1;
    head := Range(start, end);
    tail, rest := ParseRanges(i2, count - 1, end).value.0, ParseRanges(i2, count - 1, end).value.1;
  }

  lemma EncodeRangesCons(head: Range, tail: seq<Range>, previous: nat)
    requires previous <= head.start < head.end <= MAX_WIRE_OFFSET && Rising(tail, head.end)
    ensures Rising([head] + tail, previous)
    ensures EncodeRanges([head] + tail) == EncodeVarint(head.start) + (EncodeVarint(head.end) + EncodeRanges(tail))
  {
    assert ([head] + tail)[1..] == tail;
  }

  lemma {:induction false} RangesCanonical(input: Bytes, count: nat, previous: nat)
    requires ParseRanges(input, count, previous).Ok?
    ensures var (ranges, rest) := ParseRanges(input, count, previous).value;
      Rising(ranges, previous) && input == EncodeRanges(ranges) + rest
    decreases count
  {
    if count == 0 {
      assert EncodeRanges([]) + input == input;
    } else {
      hide *;
      var head, i1, i2, tail, rest := ParseRangesIs(input, count, previous);
      RangesCanonical(i2, count - 1, head.end);
      ParseVarintIs(input);
      ParseVarintIs(i1);
      EncodeRangesCons(head, tail, previous);
      var a, b, c := EncodeVarint(head.start), EncodeVarint(head.end), EncodeRanges(tail);
      Regroup(a, b + c, rest);
      Regroup(b, c, rest);
    }
  }

  lemma ParseByteIs(input: Bytes)
    requires ParseByte(input).Ok?
    ensures input == [ParseByte(input).value.0] + ParseByte(input).value.1
  {
  }

  lemma ParseTakeIs(input: Bytes, n: nat)
    requires ParseTake(input, n).Ok?
    ensures var (bytes, rest) := ParseTake(input, n).value; |bytes| == n && input == bytes + rest
  {
  }

  lemma CapabilitiesCanonical(payload: Bytes)
    requires ParseCapabilities(payload).Ok?
    ensures var f := ParseCapabilities(payload).value;
      f.CapabilitiesFrame? && ValidCapabilities(f.capabilities) && payload == EncodePayload(f, 0)
  {
    var (flags, i1) := ParseVarint(payload).value;
    var (maxSymbol, i2) := ParseNumber(i1, 2).value;
    var (maxSpan, i3) := ParseNumber(i2, 2).value;
    var (decoderWindow, i4) := ParseNumber(i3, 2).value;
    var (maxAckRanges, rest) := ParseByte(i4).value;
    ParseVarintIs(payload);
    ParseNumberIs(i1, 2);
    ParseNumberIs(i2, 2);
    ParseNumberIs(i3, 2);
    ParseByteIs(i4);
    assert rest == [];
    assert [maxAckRanges] + [] == [maxAckRanges];
    hide EncodeVarint, ParseVarint, ToBytes, ParseNumber, ParseByte, Power256, FromBytes;
  }

  lemma AckCanonical(payload: Bytes, maxRanges: nat)
    requires ParseAck(payload, maxRanges).Ok?
    ensures var f := ParseAck(payload, maxRanges).value;
      f.AckFrame? && ValidFrame(f, maxRanges) && payload == EncodePayload(f, maxRanges)
  {
    var (contiguous, i1) := ParseVarint(payload).value;
    var (count, i2) := ParseByte(i1).value;
    var (ranges, rest) := ParseRanges(i2, count, contiguous).value;
    ParseVarintIs(payload);
    ParseByteIs(i1);
    RangesCanonical(i2, count, contiguous);
    hide EncodeVarint, ParseVarint, ParseByte, ParseRanges, EncodeRanges, Rising;
    assert EncodeRanges(ranges) + [] == EncodeRanges(ranges);
  }

  lemma StreamDataCanonical(payload: Bytes)
    requires ParseStreamData(payload).Ok?
    ensures var f := ParseStreamData(payload).value;
      f.StreamDataFrame? && ValidFrame(f, 0) && payload == EncodePayload(f, 0)
  {
    var (offset, i1) := ParseVarint(payload).value;
    ParseVarintIs(payload);
    ParseByteIs(i1);
    hide EncodeVarint, ParseVarint, ParseByte;
  }

  lemma EarlyOpenCanonical(payload: Bytes)
    requires ParseEarlyOpen(payload).Ok?
    ensures var f := ParseEarlyOpen(payload).value;
      f.EarlyOpenFrame? && ValidFrame(f, 0) && payload == EncodePayload(f, 0)
  {
    var (length, i1) := ParseByte(payload).value;
    var (token, i2) := ParseTake(i1, length).value;
    var (nonce, i3) := ParseNumber(i2, 8).value;
    ParseByteIs(payload);
    ParseTakeIs(i1, length);
    ParseNumberIs(i2, 8);
    RequestCanonical(i3);
    Powers();
    hide ParseByte, ParseTake, ParseNumber, ParseRequest, EncodeRequest, ToBytes, FromBytes, ValidRequest, Power256;
  }

  lemma OpenCanonical(payload: Bytes)
    requires ParseRequest(payload).Ok? && ParseRequest(payload).value.1 == []
    ensures var request := ParseRequest(payload).value.0; ValidRequest(request) && payload == EncodeRequest(request)
  {
    RequestCanonical(payload);
    HostIsLong(ParseRequest(payload).value.0.host);
    hide ParseRequest, ValidRequest, CanonicalHost;
    var encoded := EncodeRequest(ParseRequest(payload).value.0);
    assert encoded + [] == encoded;
  }

  lemma PayloadCanonical(kind: byte, payload: Bytes, maxRanges: nat)
    requires ParsePayload(kind, payload, maxRanges).Ok?
    ensures var f := ParsePayload(kind, payload, maxRanges).value;
      Kind(f) == kind && ValidFrame(f, maxRanges) && payload == EncodePayload(f, maxRanges)
  {
    hide EncodeVarint, ParseVarint, ParseCapabilities, ParseAck, ParseStreamData, ParseEarlyOpen, ParseRequest;
    hide EncodeRequest, ValidRequest;
    if kind == 1 {
      CapabilitiesCanonical(payload);
    } else if kind == 2 {
      OpenCanonical(payload);
    } else if kind == 3 {
      ParseByteIs(payload);
    } else if kind == 4 {
      AckCanonical(payload, maxRanges);
    } else if kind == 5 || kind == 6 {
      ParseVarintIs(payload);
      assert EncodeVarint(ParseVarint(payload).value.0) + [] == EncodeVarint(ParseVarint(payload).value.0);
    } else if kind == 8 {
      StreamDataCanonical(payload);
    } else {
      EarlyOpenCanonical(payload);
    }
  }

  /** Only encodings of valid frames are accepted: equal frames have equal bytes. */
  lemma ControlCanonical(input: Bytes, maxRanges: nat, maxBytes: nat)
    requires DecodeControl(input, maxRanges, maxBytes).Ok?
    ensures var (f, rest) := DecodeControl(input, maxRanges, maxBytes).value;
      ValidFrame(f, maxRanges) && input == EncodeControl(f, maxRanges) + rest
  {
    var (kind, i1) := ParseByte(input).value;
    var (length, i2) := ParseVarint(i1).value;
    var (payload, rest) := ParseTake(i2, length).value;
    ParseByteIs(input);
    ParseVarintIs(i1);
    ParseTakeIs(i2, length);
    PayloadCanonical(kind, payload, maxRanges);
    hide ParseByte, ParseVarint, ParseTake, EncodeVarint, ParsePayload, EncodePayload, ValidFrame;
    Regroup(EncodeVarint(length), payload, rest);
    Regroup([kind], EncodeVarint(length) + payload, rest);
  }

  // ----- frame sizes

  /** src/flow.rs, `control_input_limit`. */
  function InputLimit(maxStreamPayload: nat, maxRanges: nat): nat {
    if maxStreamPayload + 16 > maxRanges * 16 + 16 then maxStreamPayload + 16 else maxRanges * 16 + 16
  }

  lemma {:induction false} RangesSize(ranges: seq<Range>)
    requires forall i :: 0 <= i < |ranges| ==> ranges[i].start <= MAX_WIRE_OFFSET && ranges[i].end <= MAX_WIRE_OFFSET
    ensures |EncodeRanges(ranges)| <= 16 * |ranges|
  {
    if ranges != [] {
      VarintRoundTrip(ranges[0].start, []);
      VarintRoundTrip(ranges[0].end, []);
      hide EncodeVarint, DecodeVarint;
      RangesSize(ranges[1..]);
    }
  }

  lemma {:induction false} RisingBounds(ranges: seq<Range>, previous: nat)
    requires Rising(ranges, previous)
    ensures forall i :: 0 <= i < |ranges| ==> ranges[i].start <= MAX_WIRE_OFFSET && ranges[i].end <= MAX_WIRE_OFFSET
    decreases |ranges|
  {
    if ranges != [] {
      RisingBounds(ranges[1..], ranges[0].end);
      forall i | 0 <= i < |ranges| ensures ranges[i].start <= MAX_WIRE_OFFSET && ranges[i].end <= MAX_WIRE_OFFSET {
        assert i > 0 ==> ranges[i] == ranges[1..][i - 1];
      }
    }
  }

  /** Every frame a flow task sends fits the input limit of a peer with the same negotiated limits. */
  lemma LimitSuffices(f: ControlFrame, maxRanges: nat, maxStreamPayload: nat)
    requires ValidFrame(f, maxRanges) && 1 <= maxRanges <= 32 && maxStreamPayload <= 0xffff
    requires f.AckFrame? || f.MaxOffsetFrame? || f.FinFrame? || (f.StreamDataFrame? && |f.data| <= maxStreamPayload)
    ensures |EncodeControl(f, maxRanges)| <= InputLimit(maxStreamPayload, maxRanges)
  {
    var payload := EncodePayload(f, maxRanges);
    if f.AckFrame? {
      RisingBounds(f.ranges, f.contiguous);
      RangesSize(f.ranges);
      VarintRoundTrip(f.contiguous, []);
    } else {
      VarintRoundTrip(f.offset, []);
    }
    VarintSize(|payload|);
    hide EncodeVarint, EncodeRanges, DecodeVarint;
  }

  lemma VarintSize(v: nat)
    requires v <= 1_073_741_823
    ensures |EncodeVarint(v)| <= 4 && (v <= 63 ==> |EncodeVarint(v)| == 1)
  {
  }
}
