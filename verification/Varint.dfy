/** Big-endian fields and minimal-length integers (src/wire.rs; section 16 of RFC 9000). */
module Varint {
  import opened Results
  import opened Galois

  type Bytes = seq<byte>

  datatype CodecError = Truncated | NonCanonical | InvalidField | UnknownType | TrailingBytes | Limit

  const MAX_WIRE_OFFSET: nat := 0x3fff_ffff_ffff_ffff
  const MAX_U64: nat := 0xFFFF_FFFF_FFFF_FFFF
  const MAX_U32: nat := 0xFFFF_FFFF

  // ----- big-endian numbers

  function Power256(k: nat): nat {
    if k == 0 then 1 else 256 * Power256(k - 1)
  }

  function ToBytes(v: nat, k: nat): (s: Bytes)
    ensures |s| == k
  {
    if k == 0 then [] else ToBytes(v / 256, k - 1) + [v % 256]
  }

  function FromBytes(s: Bytes): nat {
    if s == [] then 0 else 256 * FromBytes(s[..|s| - 1]) + s[|s| - 1]
  }

  lemma {:induction false} FromTo(v: nat, k: nat)
    requires v < Power256(k)
    ensures FromBytes(ToBytes(v, k)) == v
  {
    if k != 0 {
      FromTo(v / 256, k - 1);
      assert ToBytes(v, k)[..k - 1] == ToBytes(v / 256, k - 1);
    }
  }

  lemma {:induction false} ToFrom(s: Bytes)
    ensures FromBytes(s) < Power256(|s|)
    ensures ToBytes(FromBytes(s), |s|) == s
  {
    if s != [] {
      ToFrom(s[..|s| - 1]);
    }
  }

  lemma {:induction false} FromCons(b: byte, s: Bytes)
    ensures FromBytes([b] + s) == b * Power256(|s|) + FromBytes(s)
  {
    if s == [] {
      assert ([b] + s)[..0] == [];
    } else {
      var init := s[..|s| - 1];
      FromCons(b, init);
      assert ([b] + s)[..|s|] == [b] + init;
      assert FromBytes([b] + s) == 256 * FromBytes([b] + init) + s[|s| - 1];
      assert b * Power256(|s|) == 256 * (b * Power256(|init|));
    }
  }

  // ----- variable-length integers

  function EncodeVarint(v: nat): Bytes {
    if v <= 63 then [v]
    else if v <= 16_383 then ToBytes(0x4000 + v, 2)
    else if v <= 1_073_741_823 then ToBytes(0x8000_0000 + v, 4)
    else ToBytes(0xc000_0000_0000_0000 + v % 0x4000_0000_0000_0000, 8)
  }

  function Width(first: byte): (n: nat) {
    if first < 64 then 1 else if first < 128 then 2 else if first < 192 then 4 else 8
  }

  function Minimum(width: nat): nat {
    if width == 1 then 0 else if width == 2 then 64 else if width == 4 then 16_384 else 1_073_741_824
  }

  function DecodeVarint(input: Bytes): Result<(nat, nat), CodecError> {
    if input == [] then Err(Truncated)
    else
      var n := Width(input[0]);
      if |input| < n then Err(Truncated)
      else
        var v := FromBytes([input[0] % 64] + input[1..n]);
        if v < Minimum(n) then Err(NonCanonical) else Ok((v, n))
  }

  lemma Powers()
    ensures Power256(1) == 0x100 && Power256(2) == 0x1_0000 && Power256(3) == 0x100_0000
    ensures Power256(4) == 0x1_0000_0000 && Power256(7) == 0x100_0000_0000_0000
    ensures Power256(8) == 0x1_0000_0000_0000_0000
  {
    assert Power256(5) == 0x100_0000_0000 && Power256(6) == 0x1_0000_0000_0000;
  }

  // The two tag bits and the value of a field of k bytes, unit being the weight of the first byte.
  lemma SplitTag(s: Bytes, unit: nat)
    requires s != [] && unit == Power256(|s| - 1) && unit in {0x100, 0x100_0000, 0x100_0000_0000_0000}
    ensures FromBytes(s) == s[0] / 64 * 64 * unit + FromBytes([s[0] % 64] + s[1..])
    ensures FromBytes([s[0] % 64] + s[1..]) < 64 * unit
  {
    hide FromBytes, Power256;
    FromCons(s[0], s[1..]);
    FromCons(s[0] % 64, s[1..]);
    assert [s[0]] + s[1..] == s;
    ToFrom(s[1..]);
    SplitTagWeights(s[0], FromBytes(s[1..]), unit);
  }

  lemma SplitTagWeights(b: byte, f: nat, unit: nat)
    requires f < unit
    ensures b * unit + f == b / 64 * 64 * unit + (b % 64 * unit + f)
    ensures b % 64 * unit + f < 64 * unit
  {
    Distribute(b / 64, b % 64, unit);
    assert b == 64 * (b / 64) + b % 64;
  }

  lemma Distribute(t: nat, m: nat, unit: nat)
    requires m < 64
    ensures (64 * t + m) * unit == t * 64 * unit + m * unit
    ensures m * unit <= 63 * unit
  {
  }

  lemma TagOf(s: Bytes, unit: nat, tag: nat, v: nat)
    requires s != [] && unit == Power256(|s| - 1) && unit in {0x100, 0x100_0000, 0x100_0000_0000_0000}
    requires tag < 4 && v < 64 * unit && FromBytes(s) == tag * 64 * unit + v
    ensures s[0] / 64 == tag && FromBytes([s[0] % 64] + s[1..]) == v
  {
    hide FromBytes, Power256;
    SplitTag(s, unit);
  }

  // What an encoded integer decodes to: its low 62 bits.
  lemma EncodedVarint(v: nat)
    requires v <= MAX_U64
    ensures var s := EncodeVarint(v);
      && |s| in {1, 2, 4, 8} && Width(s[0]) == |s|
      && FromBytes([s[0] % 64] + s[1..]) == (if v <= 1_073_741_823 then v else v % 0x4000_0000_0000_0000)
      && (v <= 1_073_741_823 ==> Minimum(|s|) <= v)
  {
    var s := EncodeVarint(v);
    Powers();
    hide FromBytes, ToBytes, Power256;
    if v <= 63 {
      assert [v] + s[1..] == [v];
      FromSingle(v);
    } else if v <= 16_383 {
      FromTo(0x4000 + v, 2);
      TagOf(s, 0x100, 1, v);
    } else if v <= 1_073_741_823 {
      FromTo(0x8000_0000 + v, 4);
      TagOf(s, 0x100_0000, 2, v);
    } else {
      var low := v % 0x4000_0000_0000_0000;
      FromTo(0xc000_0000_0000_0000 + low, 8);
      TagOf(s, 0x100_0000_0000_0000, 3, low);
    }
  }

  /** Decoding undoes encoding, whatever follows, exactly for the values of at most 62 bits. */
  lemma VarintRoundTrip(v: nat, rest: Bytes)
    requires v <= MAX_U64
    ensures DecodeVarint(EncodeVarint(v) + rest) == Ok((v, |EncodeVarint(v)|)) <==> v <= MAX_WIRE_OFFSET
    ensures |EncodeVarint(v)| in {1, 2, 4, 8}
  {
    var s := EncodeVarint(v);
    assert (s + rest)[1..|s|] == s[1..] by { assert |s| > 0; }
    EncodedVarint(v);
    hide FromBytes, ToBytes;
  }

  lemma FromSingle(b: byte)
    ensures FromBytes([b]) == b
  {
    assert [b][..0] == [];
  }

  /** Accepted integers are minimal: the bytes read are the encoding of the value read. */
  lemma VarintCanonical(input: Bytes)
    requires DecodeVarint(input).Ok?
    ensures var (v, n) := DecodeVarint(input).value;
      v <= MAX_WIRE_OFFSET && 1 <= n <= |input| && input[..n] == EncodeVarint(v)
  {
    var (v, n) := DecodeVarint(input).value;
    var s := input[..n];
    assert s[1..] == input[1..n];
    Powers();
    hide FromBytes, ToBytes, Power256;
    if n == 1 {
      assert [s[0]] + s[1..] == [s[0]];
      FromSingle(s[0]);
    } else if n == 2 {
      SplitTag(s, 0x100);
      assert s[0] / 64 == 1;
      ToFrom(s);
    } else if n == 4 {
      SplitTag(s, 0x100_0000);
      assert s[0] / 64 == 2;
      ToFrom(s);
    } else {
      SplitTag(s, 0x100_0000_0000_0000);
      assert s[0] / 64 == 3;
      ToFrom(s);
    }
  }

  /** Cutting an encoded integer short is reported as truncation. */
  lemma VarintPrefix(v: nat, n: nat)
    requires v <= MAX_U64 && n < |EncodeVarint(v)|
    ensures DecodeVarint(EncodeVarint(v)[..n]) == Err(Truncated)
  {
    EncodedVarint(v);
  }

  lemma Regroup(a: Bytes, b: Bytes, c: Bytes)
    ensures (a + b) + c == a + (b + c)
  {
  }

  // ----- parsers, which return a value and the unread rest

  function ParseVarint(input: Bytes): (res: Result<(nat, Bytes), CodecError>)
    ensures res.Ok? ==> |res.value.1| < |input|
  {
    var (v, n) :- DecodeVarint(input);
    Ok((v, input[n..]))
  }

  function ParseByte(input: Bytes): (res: Result<(byte, Bytes), CodecError>)
    ensures res.Ok? ==> |res.value.1| < |input|
  {
    if input == [] then Err(Truncated) else Ok((input[0], input[1..]))
  }

  function ParseTake(input: Bytes, n: nat): (res: Result<(Bytes, Bytes), CodecError>)
    ensures res.Ok? ==> |res.value.1| + n == |input|
  {
    if n > |input| then Err(Truncated) else Ok((input[..n], input[n..]))
  }

  function ParseNumber(input: Bytes, width: nat): (res: Result<(nat, Bytes), CodecError>)
    ensures res.Ok? ==> |res.value.1| + width == |input|
  {
    var (bytes, rest) :- ParseTake(input, width);
    Ok((FromBytes(bytes), rest))
  }

  lemma ParseVarintOk(v: nat, rest: Bytes)
    requires v <= MAX_WIRE_OFFSET
    ensures ParseVarint(EncodeVarint(v) + rest) == Ok((v, rest))
  {
    hide EncodeVarint, DecodeVarint;
    VarintRoundTrip(v, rest);
    assert (EncodeVarint(v) + rest)[|EncodeVarint(v)|..] == rest;
  }

  lemma ParseVarintIs(input: Bytes)
    requires ParseVarint(input).Ok?
    ensures var (v, rest) := ParseVarint(input).value; v <= MAX_WIRE_OFFSET && input == EncodeVarint(v) + rest
  {
    hide EncodeVarint, DecodeVarint;
    VarintCanonical(input);
  }

  lemma ParseByteOk(b: byte, rest: Bytes)
    ensures ParseByte([b] + rest) == Ok((b, rest))
  {
    assert ([b] + rest)[1..] == rest;
  }

  lemma ParseTakeOk(bytes: Bytes, rest: Bytes)
    ensures ParseTake(bytes + rest, |bytes|) == Ok((bytes, rest))
  {
    assert (bytes + rest)[..|bytes|] == bytes && (bytes + rest)[|bytes|..] == rest;
  }

  lemma ParseNumberOk(v: nat, width: nat, rest: Bytes)
    requires v < Power256(width)
    ensures ParseNumber(ToBytes(v, width) + rest, width) == Ok((v, rest))
  {
    hide ToBytes, FromBytes, Power256;
    ParseTakeOk(ToBytes(v, width), rest);
    FromTo(v, width);
  }

  lemma ParseNumberIs(input: Bytes, width: nat)
    requires ParseNumber(input, width).Ok?
    ensures var (v, rest) := ParseNumber(input, width).value;
      v < Power256(width) && input == ToBytes(v, width) + rest
  {
    ToFrom(input[..width]);
  }
}
