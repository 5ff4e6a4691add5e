/** Go's 64-bit int: two's-complement wrap-around. */
module Int64 {
  const TWO_63 := 0x8000_0000_0000_0000
  const TWO_64 := 0x1_0000_0000_0000_0000

  function Wrap(x: int): (r: int)
    ensures -TWO_63 <= r < TWO_63
    ensures (x - r) % TWO_64 == 0
    ensures -TWO_63 <= x < TWO_63 ==> r == x
  {
    var m := x % TWO_64;
    if m < TWO_63 then m else m - TWO_64
  }

  /** The wrapped value is the only representative in range. */
  lemma WrapIsUnique(x: int, r: int)
    requires -TWO_63 <= r < TWO_63 && (x - r) % TWO_64 == 0
    ensures r == Wrap(x)
  {
  }

  /** Wrapping takes off a multiple of 2^64. */
  lemma WrapBy(v: int) returns (q: int)
    ensures Wrap(v) == v - q * TWO_64
  {
    q := (v - Wrap(v)) / TWO_64;
  }

  lemma WrapShift(v: int, k: int)
    ensures Wrap(v + k * TWO_64) == Wrap(v)
  {
    var q := WrapBy(v + k * TWO_64);
    WrapIsUnique(v, Wrap(v + k * TWO_64));
  }
}
