/** Vectors made with a fixed capacity, as `bounded_vec` makes them (src/fec.rs): no operation may outgrow it. */
module Vectors {
  method Push<T>(v: seq<T>, x: T, capacity: nat) returns (r: seq<T>)
    requires |v| < capacity
    ensures r == v + [x]
  {
    r := v + [x];
  }

  method Insert<T>(v: seq<T>, index: nat, x: T, capacity: nat) returns (r: seq<T>)
    requires index <= |v| < capacity
    ensures r == v[..index] + [x] + v[index..]
  {
    r := v[..index] + [x] + v[index..];
  }

  /** A copy of `items` in a vector of its own. */
  method Copy<T>(items: seq<T>, capacity: nat) returns (r: seq<T>)
    requires |items| <= capacity
    ensures r == items
  {
    r := items;
  }

  /** Lengthens the vector with `filler`. */
  method Resize<T>(v: seq<T>, length: nat, filler: T, capacity: nat) returns (r: seq<T>)
    requires |v| <= length <= capacity
    ensures |r| == length && r[..|v|] == v && forall k :: |v| <= k < length ==> r[k] == filler
  {
    r := v + seq(length - |v|, _ => filler);
  }
}
