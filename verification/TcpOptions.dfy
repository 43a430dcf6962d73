/**
 * TCP options that a carrier SYN shows, and the Fast Open cookie in them (src/faketcp.rs; section 4.1.1 of RFC 7413).
 */
module TcpOptions {
  import opened Results
  import opened Galois
  import opened Varint

  const TFO_OPTION_KIND: byte := 34
  const MAX_OPTION_BYTES: nat := 40
  const SYN_WINDOW_SCALE: byte := 7

  datatype CarrierError =
    | InvalidTuple | PacketTooShort | PacketTooLarge | DatagramTooLarge | InvalidIpHeader | InvalidTcpHeader
    | UnsupportedIpVersion | InvalidTcpOption | TcpOptionsTooLong | WrongTuple | EmptyPayload
    | SynDataDisabled | SynCookieRejected | InvalidState

  datatype TcpOptions = TcpOptions(
    mss: Option<nat>, sackPermitted: bool, timestamps: Option<(nat, nat)>, windowScale: Option<byte>,
    cookie: Option<Bytes>)

  /** src/faketcp.rs, `for_syn_with_mss`. */
  function SynOptions(mss: nat, cookie: Bytes): TcpOptions {
    TcpOptions(Some(mss), true, None, Some(SYN_WINDOW_SCALE), Some(cookie))
  }

  const NO_OPTIONS := TcpOptions(None, false, None, None, None)

  function Mss(o: TcpOptions): Bytes {
    if o.mss.Some? then [2, 4] + ToBytes(o.mss.value, 2) else []
  }

  function Sack(o: TcpOptions): Bytes {
    if o.sackPermitted then [4, 2] else []
  }

  function Timestamps(o: TcpOptions): Bytes {
    if o.timestamps.None? then []
    else [1, 1] + ([8, 10] + (ToBytes(o.timestamps.value.0, 4) + ToBytes(o.timestamps.value.1, 4)))
  }

  function Scale(o: TcpOptions): Bytes {
    if o.windowScale.Some? then [3, 3, o.windowScale.value] else []
  }

  function Cookie(o: TcpOptions): Bytes {
    if o.cookie.Some? && |o.cookie.value| <= 16 then [TFO_OPTION_KIND, 2 + |o.cookie.value|] + o.cookie.value else []
  }

  function Unpadded(o: TcpOptions): Bytes {
    Mss(o) + (Sack(o) + (Timestamps(o) + (Scale(o) + Cookie(o))))
  }

  function Padding(n: nat): (p: Bytes)
    ensures |p| < 4 && (n + |p|) % 4 == 0
  {
    if n % 4 == 0 then [] else if n % 4 == 1 then [1, 1, 1] else if n % 4 == 2 then [1, 1] else [1]
  }

  /** src/faketcp.rs, `encode_into`: everything, padded to whole words, or an error when it does not fit. */
  function EncodeOptions(o: TcpOptions): (r: Result<Bytes, CarrierError>)
    ensures r.Ok? ==> |r.value| % 4 == 0 && |r.value| <= MAX_OPTION_BYTES
  {
    if o.cookie.Some? && |o.cookie.value| > 16 then Err(InvalidTcpOption)
    else
      var bytes := Unpadded(o) + Padding(|Unpadded(o)|);
      if |bytes| > MAX_OPTION_BYTES then Err(TcpOptionsTooLong) else Ok(bytes)
  }

  /** src/faketcp.rs, `fast_open_cookie`, with the cookie found so far. */
  function Scan(input: Bytes, found: Option<Bytes>): Result<Option<Bytes>, CarrierError>
    decreases |input|
  {
    if input == [] || input[0] == 0 then Ok(found)
    else if input[0] == 1 then Scan(input[1..], found)
    else if |input| < 2 || input[1] < 2 || input[1] > |input| then Err(InvalidTcpOption)
    else
      var length: nat := input[1];
      var cookie := if input[0] == TFO_OPTION_KIND && length <= 18 then Some(input[2..length]) else found;
      Scan(input[length..], cookie)
  }

  method FastOpenCookie(options: Bytes) returns (cookie: Result<Option<Bytes>, CarrierError>)
    ensures cookie == Scan(options, None)
  {
    var input: Bytes, found: Option<Bytes> := options, None;
    while input != [] && input[0] != 0
      invariant Scan(options, None) == Scan(input, found)
      decreases |input|
    {
      if input[0] == 1 {
        input := input[1..];
      } else {
        if |input| < 2 || input[1] < 2 || input[1] > |input| {
          return Err(InvalidTcpOption);
        }
        var length: nat := input[1];
        if input[0] == TFO_OPTION_KIND && length <= 18 {
          found := Some(input[2..length]);
        }
        input := input[length..];
      }
    }
    return Ok(found);
  }

  lemma ScanOption(kind: byte, length: byte, data: Bytes, rest: Bytes, found: Option<Bytes>)
    requires kind > 1 && length == |data| + 2
    ensures Scan([kind, length] + data + rest, found) ==
      Scan(rest, if kind == TFO_OPTION_KIND && length <= 18 then Some(data) else found)
  {
    var input := [kind, length] + data + rest;
    assert input[2..length] == data && input[length..] == rest;
  }

  lemma ScanPadding(n: nat, found: Option<Bytes>)
    ensures Scan(Padding(n), found) == Ok(found)
    decreases |Padding(n)|
  {
    var p := Padding(n);
    if |p| > 0 {
      assert p[1..] == Padding(n + 1) && p[0] == 1;
      ScanPadding(n + 1, found);
    }
  }

  /** All combinations fit into the option space; only an overlong cookie is refused. */
  lemma OptionsFit(o: TcpOptions)
    ensures EncodeOptions(o).Ok? <==> o.cookie.None? || |o.cookie.value| <= 16
  {
    var n := |Unpadded(o)|;
    assert n <= 39;
    assert (n + |Padding(n)|) % 4 == 0;
  }

  lemma ScanNop(rest: Bytes, found: Option<Bytes>)
    ensures Scan([1, 1] + rest, found) == Scan(rest, found)
  {
    var input := [1, 1] + rest;
    assert input[1..] == [1] + rest;
    assert ([1] + rest)[1..] == rest;
  }

  lemma ScanMss(o: TcpOptions, rest: Bytes)
    ensures Scan(Mss(o) + rest, None) == Scan(rest, None)
  {
    if o.mss.Some? {
      ScanOption(2, 4, ToBytes(o.mss.value, 2), rest, None);
    } else {
      assert Mss(o) + rest == rest;
    }
  }

  lemma ScanSack(o: TcpOptions, rest: Bytes)
    ensures Scan(Sack(o) + rest, None) == Scan(rest, None)
  {
    if o.sackPermitted {
      ScanOption(4, 2, [], rest, None);
      assert [4, 2] + [] == [4, 2];
    } else {
      assert Sack(o) + rest == rest;
    }
  }

  lemma ScanTimestamps(o: TcpOptions, rest: Bytes)
    ensures Scan(Timestamps(o) + rest, None) == Scan(rest, None)
  {
    if o.timestamps.Some? {
      var data := ToBytes(o.timestamps.value.0, 4) + ToBytes(o.timestamps.value.1, 4);
      assert Timestamps(o) == [1, 1] + ([8, 10] + data);
      hide Scan, ToBytes, Timestamps;
      ScanNop([8, 10] + data + rest, None);
      ScanOption(8, 10, data, rest, None);
      assert Timestamps(o) + rest == [1, 1] + ([8, 10] + data + rest);
    } else {
      assert Timestamps(o) + rest == rest;
    }
  }

  lemma ScanScale(o: TcpOptions, rest: Bytes)
    ensures Scan(Scale(o) + rest, None) == Scan(rest, None)
  {
    if o.windowScale.Some? {
      ScanOption(3, 3, [o.windowScale.value], rest, None);
      assert [3, 3] + [o.windowScale.value] == Scale(o);
    } else {
      assert Scale(o) + rest == rest;
    }
  }

  lemma ScanCookie(o: TcpOptions, rest: Bytes)
    requires o.cookie.Some? ==> |o.cookie.value| <= 16
    ensures Scan(Cookie(o) + rest, None) == Scan(rest, o.cookie)
  {
    if o.cookie.Some? {
      ScanOption(TFO_OPTION_KIND, 2 + |o.cookie.value|, o.cookie.value, rest, None);
    } else {
      assert Cookie(o) + rest == rest;
    }
  }

  /** The cookie that was put into the options is the one that is found there. */
  lemma CookieRoundTrip(o: TcpOptions)
    requires o.cookie.Some? ==> |o.cookie.value| <= 16
    ensures EncodeOptions(o).Ok? && Scan(EncodeOptions(o).value, None) == Ok(o.cookie)
  {
    OptionsFit(o);
    var a, b, c, d, e, pad := Mss(o), Sack(o), Timestamps(o), Scale(o), Cookie(o), Padding(|Unpadded(o)|);
    assert EncodeOptions(o).value == a + (b + (c + (d + e))) + pad;
    ScanPadding(|Unpadded(o)|, o.cookie);
    hide *;
    Regroup(a, b + (c + (d + e)), pad);
    Regroup(b, c + (d + e), pad);
    Regroup(c, d + e, pad);
    Regroup(d, e, pad);
    ScanMss(o, b + (c + (d + (e + pad))));
    ScanSack(o, c + (d + (e + pad)));
    ScanTimestamps(o, d + (e + pad));
    ScanScale(o, e + pad);
    ScanCookie(o, pad);
  }
}
