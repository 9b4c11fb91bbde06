/** A timestamp as the bytes that memcpy moves: a 64-bit unsigned integer, least byte first. */
module Timestamps {
  import opened Arithmetic
  import opened Words

  function Encode(x: U64): (r: seq<Byte>)
    ensures |r| == 8
  {
    Digits(x, 8)
  }

  function Decode(bytes: seq<Byte>): nat {
    if bytes == [] then 0 else bytes[0] + 256 * Decode(bytes[1..])
  }

  function Digits(x: nat, n: nat): (r: seq<Byte>)
    ensures |r| == n
  {
    if n == 0 then [] else [x % 256] + Digits(x / 256, n - 1)
  }

  function Pow256(n: nat): nat { if n == 0 then 1 else 256 * Pow256(n - 1) }

  lemma {:induction false} DecodeDigits(x: nat, n: nat)
    requires x < Pow256(n)
    ensures Decode(Digits(x, n)) == x
  {
    if n > 0 {
      DecodeDigits(x / 256, n - 1);
      assert Digits(x, n)[1..] == Digits(x / 256, n - 1);
    }
  }

  lemma {:induction false} DigitsDecode(bytes: seq<Byte>)
    ensures Decode(bytes) < Pow256(|bytes|) && Digits(Decode(bytes), |bytes|) == bytes
  {
    if bytes != [] {
      DigitsDecode(bytes[1..]);
      assert Decode(bytes) % 256 == bytes[0] && Decode(bytes) / 256 == Decode(bytes[1..]);
      assert bytes == [bytes[0]] + bytes[1..];
    }
  }

  /** Byte i is the i-th digit to the base 256. */
  lemma {:induction false} DigitAt(x: nat, n: nat, i: nat)
    requires i < n
    ensures Pow256(i) > 0 && Digits(x, n)[i] == (x / Pow256(i)) % 256
  {
    Pow256Positive(i);
    if i > 0 {
      Pow256Positive(i - 1);
      DigitAt(x / 256, n - 1, i - 1);
      DivTwice(x, 256, Pow256(i - 1));
    }
  }

  lemma {:induction false} Pow256Positive(n: nat)
    ensures Pow256(n) > 0
  {
    if n > 0 { Pow256Positive(n - 1); }
  }

  /** The machine's byte order: bits 8 * i to 8 * i + 7 of the timestamp are byte i in memory. */
  lemma BytesOfTimestamp(x: U64, i: nat)
    requires i < 8
    ensures Pow256(i) > 0 && Encode(x)[i] == (x / Pow256(i)) % 256
  {
    DigitAt(x, 8, i);
  }

  /** Eight bytes and a 64-bit timestamp say the same: no two of either stand for one of the other. */
  lemma RoundTrip(x: U64, bytes: seq<Byte>)
    requires |bytes| == 8
    ensures Decode(Encode(x)) == x
    ensures Decode(bytes) < 0x1_0000_0000_0000_0000 && Encode(Decode(bytes)) == bytes
  {
    assert Pow256(4) == 0x1_0000_0000;
    assert Pow256(8) == 0x1_0000_0000_0000_0000;
    DecodeDigits(x, 8);
    DigitsDecode(bytes);
  }
}
