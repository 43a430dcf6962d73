/** The Internet checksum (src/faketcp.rs; section 1 of RFC 1071). */
module Checksum {
  import opened Galois
  import opened Varint

  const ONES: nat := 0xffff
  const U32_LIMIT: nat := 0x1_0000_0000

  /** The sum of the big-endian 16-bit words of `s`, the last one padded with a zero byte. */
  function Sum16(s: Bytes): nat {
    if |s| == 0 then 0
    else if |s| == 1 then s[0] * 256
    else s[0] * 256 + s[1] + Sum16(s[2..])
  }

  lemma {:induction false} SumConcat(a: Bytes, b: Bytes)
    requires |a| % 2 == 0
    ensures Sum16(a + b) == Sum16(a) + Sum16(b)
    decreases |a|
  {
    if a == [] {
      assert a + b == b;
    } else {
      SumConcat(a[2..], b);
      assert (a + b)[2..] == a[2..] + b;
      assert (a + b)[0] == a[0] && (a + b)[1] == a[1];
    }
  }

  /** A packet of at most 65535 bytes never overflows a 32-bit accumulator. */
  lemma {:induction false} SumBound(s: Bytes)
    ensures Sum16(s) <= ONES * ((|s| + 1) / 2)
    decreases |s|
  {
    if |s| >= 2 {
      SumBound(s[2..]);
      assert (|s| + 1) / 2 == (|s[2..]| + 1) / 2 + 1;
    }
  }

  lemma SumWord(v: nat)
    requires v < 0x1_0000
    ensures Sum16(ToBytes(v, 2)) == v
  {
    assert ToBytes(v, 2) == [v / 256 % 256, v % 256] by {
      assert ToBytes(v / 256, 1) == ToBytes(v / 256 / 256, 0) + [v / 256 % 256];
    }
    assert ToBytes(v, 2)[2..] == [];
  }

  lemma SumPair(a: byte, b: byte, rest: Bytes)
    ensures Sum16([a, b] + rest) == a * 256 + b + Sum16(rest)
  {
    assert ([a, b] + rest)[2..] == rest;
  }

  /** src/faketcp.rs, `checksum_sum`: the accumulator stays below 2^32. */
  method ChecksumSum(input: Bytes) returns (sum: nat)
    requires |input| <= 0xffff
    ensures sum == Sum16(input) && sum < U32_LIMIT
  {
    sum := 0;
    var i := 0;
    assert input[0..] == input;
    while i + 1 < |input|
      invariant 0 <= i <= |input| && i % 2 == 0
      invariant sum + Sum16(input[i..]) == Sum16(input)
    {
      assert input[i..][2..] == input[i + 2..];
      var high: nat, low: nat := input[i], input[i + 1];
      sum := sum + high * 256 + low;
      i := i + 2;
    }
    if i < |input| {
      var high: nat := input[i];
      sum := sum + high * 256;
    }
    SumBound(input);
  }

  /** The representative of `sum` modulo 65535 that folding ends in: zero only for zero. */
  function Fold(sum: nat): (r: nat)
    ensures r <= ONES && (r == 0 <==> sum == 0)
  {
    if sum == 0 then 0 else 1 + (sum - 1) % ONES
  }

  /** One folding step does not change the value modulo 65535. */
  lemma FoldStep(sum: nat)
    ensures Fold(sum % 0x1_0000 + sum / 0x1_0000) == Fold(sum)
    ensures sum >= 0x1_0000 ==> sum % 0x1_0000 + sum / 0x1_0000 < sum
    ensures sum < 0x1_0000 ==> Fold(sum) == sum
  {
    var q, r := sum / 0x1_0000, sum % 0x1_0000;
    assert sum == q * ONES + (q + r);
    if sum > 0 {
      assert (sum - 1) % ONES == (q + r - 1) % ONES by {
        assert sum - 1 == q * ONES + (q + r - 1);
        Multiples(q + r - 1, q);
      }
    }
  }

  lemma {:induction false} Multiples(v: nat, q: nat)
    ensures (q * ONES + v) % ONES == v % ONES
    decreases q
  {
    if q > 0 {
      Multiples(v, q - 1);
      assert q * ONES + v == (q - 1) * ONES + v + ONES;
    }
  }

  /** src/faketcp.rs, `fold_checksum`. */
  method FoldChecksum(sum: nat) returns (folded: nat)
    ensures folded == Fold(sum) && folded <= ONES
  {
    folded := sum;
    while folded / 0x1_0000 != 0
      invariant Fold(folded) == Fold(sum)
      decreases folded
    {
      FoldStep(folded);
      folded := folded % 0x1_0000 + folded / 0x1_0000;
    }
    FoldStep(folded);
  }

  /** The complement that a header carries. */
  function Complement(sum: nat): (c: nat)
    ensures c <= ONES
  {
    ONES - Fold(sum)
  }

  /** Adding the complement to what was summed is what a receiver accepts. */
  lemma ComplementCancels(sum: nat)
    ensures Complement(sum + Complement(sum)) == 0
  {
    if sum > 0 {
      var q, r := (sum - 1) / ONES, (sum - 1) % ONES;
      assert sum + Complement(sum) - 1 == q * ONES + (ONES - 1);
      Multiples(ONES - 1, q);
    }
  }
}
