/** Bytes and big-endian integers, as encoding/binary writes and reads them. */
module Bytes {

  type byte = x: int | 0 <= x < 256

  const TWO63: int := 0x8000_0000_0000_0000
  const TWO64: int := 0x1_0000_0000_0000_0000

  type int64 = x: int | -0x8000_0000_0000_0000 <= x < 0x8000_0000_0000_0000

  /** How many different values n bytes have. */
  function Span(n: nat): nat {
    if n == 0 then 1 else 256 * Span(n - 1)
  }

  function BigEndian(x: nat, n: nat): (s: seq<byte>)
    ensures |s| == n
    decreases n
  {
    if n == 0 then [] else BigEndian(x / 256, n - 1) + [x % 256]
  }

  function FromBigEndian(s: seq<byte>): nat
    decreases |s|
  {
    if s == [] then 0 else 256 * FromBigEndian(s[..|s| - 1]) + s[|s| - 1]
  }

  lemma {:induction false} BigEndianRoundTrip(x: nat, n: nat)
    requires x < Span(n)
    ensures FromBigEndian(BigEndian(x, n)) == x
    decreases n
  {
    if n > 0 {
      BigEndianRoundTrip(x / 256, n - 1);
      assert BigEndian(x, n)[..n - 1] == BigEndian(x / 256, n - 1);
    }
  }

  lemma {:induction false} FromBigEndianRoundTrip(s: seq<byte>)
    ensures FromBigEndian(s) < Span(|s|)
    ensures BigEndian(FromBigEndian(s), |s|) == s
    decreases |s|
  {
    if s != [] {
      FromBigEndianRoundTrip(s[..|s| - 1]);
    }
  }

  lemma Span8()
    ensures Span(8) == TWO64
    ensures Span(2) == 0x1_0000
  {
    assert Span(2) == 65536;
    assert Span(4) == 0x1_0000_0000;
    assert Span(6) == 0x1_0000_0000_0000;
  }

  /** The width of an encoded 64-bit integer. */
  function Word(): nat {
    8
  }

  /** The conversion uint64(x): two's complement. */
  function Unsigned(x: int64): nat {
    if x < 0 then x + TWO64 else x
  }

  /** The conversion int64(u). */
  function Signed(u: nat): int64
    requires u < TWO64
  {
    if u >= TWO63 then u - TWO64 else u
  }

  function EncodeInt64(x: int64): (s: seq<byte>)
    ensures |s| == 8
  {
    BigEndian(Unsigned(x), Word())
  }

  function DecodeInt64(s: seq<byte>): int64
    requires |s| == 8
  {
    FromBigEndianRoundTrip(s);
    Span8();
    Signed(FromBigEndian(s))
  }

  /** Eight bytes carry the whole range of int64, negative values included. */
  lemma Int64RoundTrip(x: int64)
    ensures DecodeInt64(EncodeInt64(x)) == x
  {
    Span8();
    BigEndianRoundTrip(Unsigned(x), Word());
  }

  /** binary.BigEndian.PutUint64 of a converted int64, into part of a buffer. */
  method PutInt64(buf: array<byte>, at: nat, x: int64)
    requires at + 8 <= buf.Length
    modifies buf
    ensures buf[..at] == old(buf[..at])
    ensures buf[at..at + 8] == EncodeInt64(x)
    ensures buf[at + 8..] == old(buf[at + 8..])
  {
    var code := EncodeInt64(x);
    forall i | 0 <= i < 8 {
      buf[at + i] := code[i];
    }
  }
}
