/** Decoding a JWK's public exponent, a big-endian byte string, into a 64-bit int. */
module RsaExponent {
  import opened Prelude
  import opened Int64

  type Byte = b: int | 0 <= b < 256

  /** Base64urlUInt after base64 decoding: the most significant byte first. */
  function BigEndian(bytes: seq<Byte>): nat {
    if bytes == [] then 0 else BigEndian(bytes[..|bytes| - 1]) * 256 + bytes[|bytes| - 1]
  }

  /** The shortest big-endian form of a number. */
  function Octets(v: nat): seq<Byte> {
    if v == 0 then [] else Octets(v / 256) + [v % 256]
  }

  datatype DecodeError = InvalidExponent

  /**
   * What a caller gets for a byte string of any length and with any leading zeros: the exact value when it is
   * positive and fits in 63 bits; a rejection when the low 64 bits, read as a signed number, are not positive;
   * and otherwise those low bits.
   */
  function Decoded(bytes: seq<Byte>): (r: Result<int, DecodeError>)
    ensures r == Ok(BigEndian(bytes)) <==> 0 < BigEndian(bytes) < TWO_63
    ensures r.Err? <==> BigEndian(bytes) % TWO_64 == 0 || BigEndian(bytes) % TWO_64 >= TWO_63
    ensures r.Ok? ==> r.value == BigEndian(bytes) % TWO_64
  {
    var exponent := Wrap(BigEndian(bytes));
    if exponent <= 0 then Err(InvalidExponent) else Ok(exponent)
  }

  method DecodeExponent(bytes: seq<Byte>) returns (r: Result<int, DecodeError>)
    ensures r == Decoded(bytes)
  {
    var exponent := 0;
    var i := 0;
    while i < |bytes|
      invariant 0 <= i <= |bytes|
      invariant exponent == Wrap(BigEndian(bytes[..i]))
    {
      assert bytes[..i + 1][..i] == bytes[..i];
      WrapStep(BigEndian(bytes[..i]), bytes[i]);
      exponent := Wrap(Wrap(exponent * 256) + bytes[i]);
      i := i + 1;
    }
    assert bytes[..i] == bytes;
    if exponent <= 0 {
      return Err(InvalidExponent);
    }
    return Ok(exponent);
  }

  /** Shifting and adding the wrapped value wraps to the same as doing it exactly. */
  lemma WrapStep(v: int, b: int)
    ensures Wrap(Wrap(Wrap(v) * 256) + b) == Wrap(v * 256 + b)
  {
    var q := WrapBy(v);
    var q' := WrapBy(Wrap(v) * 256);
    WrapShift(v * 256 + b, -(256 * q + q'));
  }

  lemma {:induction false} LeadingZerosDoNotMatter(bytes: seq<Byte>)
    ensures BigEndian([0] + bytes) == BigEndian(bytes)
  {
    if bytes != [] {
      assert ([0] + bytes)[..|bytes|] == [0] + bytes[..|bytes| - 1];
      LeadingZerosDoNotMatter(bytes[..|bytes| - 1]);
    }
  }

  lemma {:induction false} BigEndianOfOctets(v: nat)
    ensures BigEndian(Octets(v)) == v
  {
    if v != 0 {
      BigEndianOfOctets(v / 256);
      assert Octets(v)[..|Octets(v)| - 1] == Octets(v / 256);
    }
  }

  /** A positive exponent of up to 63 bits survives encoding and decoding, padded with any number of zero bytes. */
  lemma RoundTrip(v: nat, zeros: nat)
    requires 0 < v < TWO_63
    ensures Decoded(seq(zeros, i => 0) + Octets(v)) == Ok(v)
  {
    PaddedOctets(v, zeros);
  }

  lemma {:induction false} PaddedOctets(v: nat, zeros: nat)
    ensures BigEndian(seq(zeros, i => 0) + Octets(v)) == v
  {
    var pad: seq<Byte> := seq(zeros, i => 0);
    if zeros == 0 {
      assert pad + Octets(v) == Octets(v);
      BigEndianOfOctets(v);
    } else {
      var less: seq<Byte> := seq(zeros - 1, i => 0);
      assert pad + Octets(v) == [0] + (less + Octets(v));
      LeadingZerosDoNotMatter(less + Octets(v));
      PaddedOctets(v, zeros - 1);
    }
  }

  /** Every exponent has an alias beyond each multiple of 2^64, which decodes as it does. */
  lemma EveryExponentHasAliases(v: nat, k: nat)
    requires 0 < v < TWO_63
    ensures Decoded(Octets(v + k * TWO_64)) == Ok(v)
  {
    BigEndianOfOctets(v + k * TWO_64);
    WrapShift(v, k);
  }

  /** A value of 2^64 or more can pass for a small one: 2^64 + 65537 decodes as 65537. */
  lemma LargeExponentAliases()
    ensures var bytes: seq<Byte> := [1, 0, 0, 0, 0, 0, 1, 0, 1];
            BigEndian(bytes) == TWO_64 + 65537 && Decoded(bytes) == Ok(65537)
  {
    var bytes: seq<Byte> := [1, 0, 0, 0, 0, 0, 1, 0, 1];
    assert bytes[..0] == [];
    PrefixValue(bytes, 1, 0, 1);
    PrefixValue(bytes, 2, 1, 256);
    PrefixValue(bytes, 3, 256, 65536);
    PrefixValue(bytes, 4, 65536, 16777216);
    PrefixValue(bytes, 5, 16777216, 4294967296);
    PrefixValue(bytes, 6, 4294967296, 1099511627776);
    PrefixValue(bytes, 7, 1099511627776, 281474976710657);
    PrefixValue(bytes, 8, 281474976710657, 72057594037928192);
    PrefixValue(bytes, 9, 72057594037928192, 18446744073709617153);
    assert bytes[..9] == bytes;
  }

  /** The value of one byte more. */
  lemma PrefixValue(bytes: seq<Byte>, n: nat, before: nat, after: nat)
    requires 0 < n <= |bytes| && BigEndian(bytes[..n - 1]) == before && after == before * 256 + bytes[n - 1]
    ensures BigEndian(bytes[..n]) == after
  {
    assert bytes[..n][..n - 1] == bytes[..n - 1];
  }
}
