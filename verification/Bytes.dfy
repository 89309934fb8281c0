/** Bytes, machine integers and their little-endian encodings. */
module Bytes {

  type byte = x: int | 0 <= x < 256
  type u16 = x: int | 0 <= x < 0x1_0000
  type u64 = x: int | 0 <= x < 0x1_0000_0000_0000_0000
  type i64 = x: int | -0x8000_0000_0000_0000 <= x < 0x8000_0000_0000_0000

  const U16_MAX: int := 0xFFFF
  const U64_MAX: int := 0xFFFF_FFFF_FFFF_FFFF
  const I64_MIN: int := -0x8000_0000_0000_0000
  const I64_MAX: int := 0x7FFF_FFFF_FFFF_FFFF

  type Bytes8 = s: seq<byte> | |s| == 8 witness [0, 0, 0, 0, 0, 0, 0, 0]
  type Bytes64 = s: seq<byte> | |s| == 64 witness seq(64, _ => 0)

  /** A Solana public key: an account address, a wallet or a program id. */
  type Pubkey = s: seq<byte> | |s| == 32 witness seq(32, _ => 0)

  function Zeros(n: nat): (s: seq<byte>)
    ensures |s| == n && forall i :: 0 <= i < n ==> s[i] == 0
  {
    seq(n, _ => 0)
  }

  predicate AllZero(s: seq<byte>) {
    forall i :: 0 <= i < |s| ==> s[i] == 0
  }

  /** The bytes of an ASCII literal. */
  function Ascii(s: string): (b: seq<byte>)
    requires forall i :: 0 <= i < |s| ==> s[i] < 128 as char
    ensures |b| == |s|
  {
    seq(|s|, i requires 0 <= i < |s| => s[i] as int)
  }

  /** `s` with the bytes from position `at` onwards replaced by `b`; everything else stays. */
  function Overlay(s: seq<byte>, at: nat, b: seq<byte>): (r: seq<byte>)
    requires at + |b| <= |s|
    ensures |r| == |s|
  {
    s[..at] + b + s[at + |b|..]
  }

  lemma Associative(a: seq<byte>, b: seq<byte>, c: seq<byte>)
    ensures a + (b + c) == (a + b) + c
  {
  }

  /** Where `s` continues with `a` and then `rest`. */
  lemma Piece(s: seq<byte>, at: nat, a: seq<byte>, rest: seq<byte>)
    requires at <= |s| && s[at..] == a + rest
    ensures at + |a| <= |s| && s[at..at + |a|] == a && s[at + |a|..] == rest
  {
    assert s[at..][..|a|] == a && s[at..][|a|..] == rest;
  }

  // ---- unsigned little endian ----

  function Pow256(n: nat): nat {
    if n == 0 then 1 else 256 * Pow256(n - 1)
  }

  function LE(x: nat, n: nat): (s: seq<byte>)
    ensures |s| == n
  {
    if n == 0 then [] else [x % 256] + LE(x / 256, n - 1)
  }

  function FromLE(s: seq<byte>): nat {
    if s == [] then 0 else s[0] + 256 * FromLE(s[1..])
  }

  lemma {:induction false} FromLEBound(s: seq<byte>)
    ensures FromLE(s) < Pow256(|s|)
  {
    if s != [] {
      FromLEBound(s[1..]);
    }
  }

  lemma {:induction false} FromLEOfLE(x: nat, n: nat)
    requires x < Pow256(n)
    ensures FromLE(LE(x, n)) == x
  {
    if n > 0 {
      FromLEOfLE(x / 256, n - 1);
      assert LE(x, n)[1..] == LE(x / 256, n - 1);
    }
  }

  lemma {:induction false} LEOfFromLE(s: seq<byte>)
    ensures LE(FromLE(s), |s|) == s
  {
    if s != [] {
      LEOfFromLE(s[1..]);
      assert FromLE(s) % 256 == s[0] && FromLE(s) / 256 == FromLE(s[1..]);
    }
  }

  lemma Pow256Values()
    ensures Pow256(2) == 0x1_0000
    ensures Pow256(4) == 0x1_0000_0000
    ensures Pow256(8) == 0x1_0000_0000_0000_0000
  {
    assert Pow256(2) == 256 * Pow256(1);
    assert Pow256(4) == 256 * Pow256(3) && Pow256(3) == 256 * Pow256(2);
    assert Pow256(6) == 256 * Pow256(5) && Pow256(5) == 256 * Pow256(4);
    assert Pow256(8) == 256 * Pow256(7) && Pow256(7) == 256 * Pow256(6);
  }

  // ---- the three integer widths the program uses ----

  function EncodeU16(x: u16): (s: seq<byte>)
    ensures |s| == 2
  {
    LE(x, 2)
  }

  function EncodeU64(x: u64): (s: seq<byte>)
    ensures |s| == 8
  {
    LE(x, 8)
  }

  /** Two's complement, as `i64::to_le_bytes`. */
  function EncodeI64(x: i64): (s: seq<byte>)
    ensures |s| == 8
  {
    LE(if x < 0 then x + 0x1_0000_0000_0000_0000 else x, 8)
  }

  function DecodeU16(s: seq<byte>): u16
    requires |s| == 2
  {
    FromLEBound(s); Pow256Values();
    FromLE(s)
  }

  function DecodeU64(s: seq<byte>): u64
    requires |s| == 8
  {
    FromLEBound(s); Pow256Values();
    FromLE(s)
  }

  function DecodeI64(s: seq<byte>): i64
    requires |s| == 8
  {
    FromLEBound(s); Pow256Values();
    if FromLE(s) <= I64_MAX then FromLE(s) else FromLE(s) - 0x1_0000_0000_0000_0000
  }

  /** Every u16, u64 and i64 survives encoding and decoding. */
  lemma IntegersRoundTrip(a: u16, b: u64, c: i64)
    ensures DecodeU16(EncodeU16(a)) == a
    ensures DecodeU64(EncodeU64(b)) == b
    ensures DecodeI64(EncodeI64(c)) == c
  {
    Pow256Values();
    FromLEOfLE(a, 2);
    FromLEOfLE(b, 8);
    FromLEOfLE(if c < 0 then c + 0x1_0000_0000_0000_0000 else c, 8);
  }

  /** Every byte string of the right length is the encoding of the integer it decodes to. */
  lemma IntegersCanonical(a: seq<byte>, b: seq<byte>)
    requires |a| == 2 && |b| == 8
    ensures EncodeU16(DecodeU16(a)) == a
    ensures EncodeU64(DecodeU64(b)) == b
    ensures EncodeI64(DecodeI64(b)) == b
  {
    LEOfFromLE(a);
    LEOfFromLE(b);
  }

  // ---- what the encodings are, byte by byte ----

  /** Eight bytes from `at` on, as an unsigned number, spelled out. */
  function Word(s: seq<byte>, at: nat): int
    requires at + 8 <= |s|
  {
    Byte(s, at) + 0x100 * Byte(s, at + 1) + 0x1_0000 * Byte(s, at + 2) + 0x100_0000 * Byte(s, at + 3)
    + 0x1_0000_0000 * Byte(s, at + 4) + 0x100_0000_0000 * Byte(s, at + 5) + 0x1_0000_0000_0000 * Byte(s, at + 6)
    + 0x100_0000_0000_0000 * Byte(s, at + 7)
  }

  function Byte(s: seq<byte>, i: nat): int
    requires i < |s|
  {
    s[i]
  }

  /** The same as a two's complement number: the top bit of the last byte is the sign. */
  function SignedWord(s: seq<byte>, at: nat): int
    requires at + 8 <= |s|
  {
    Word(s, at) - (if s[at + 7] >= 128 then 0x1_0000_0000_0000_0000 else 0)
  }

  /** Two bytes from `at` on, least significant first. */
  function HalfWord(s: seq<byte>, at: nat): int
    requires at + 2 <= |s|
  {
    Byte(s, at) + 0x100 * Byte(s, at + 1)
  }

  lemma DecodedPositionally(s: seq<byte>, t: seq<byte>)
    requires |s| == 8 && |t| == 2
    ensures FromLE(s) == Word(s, 0)
    ensures FromLE(t) == Byte(t, 0) + 256 * Byte(t, 1)
  {
    assert FromLE(t[1..]) == t[1] + 256 * FromLE(t[1..][1..]);
    var s1, s2, s3, s4, s5, s6, s7 := s[1..], s[2..], s[3..], s[4..], s[5..], s[6..], s[7..];
    assert s1[1..] == s2 && s2[1..] == s3 && s3[1..] == s4 && s4[1..] == s5 && s5[1..] == s6 && s6[1..] == s7;
    assert FromLE(s7) == s7[0] + 256 * FromLE(s7[1..]) == s[7];
    assert FromLE(s6) == s[6] + 256 * FromLE(s7);
    assert FromLE(s5) == s[5] + 256 * FromLE(s6);
    assert FromLE(s4) == s[4] + 256 * FromLE(s5);
    assert FromLE(s3) == s[3] + 256 * FromLE(s4);
    assert FromLE(s2) == s[2] + 256 * FromLE(s3);
    assert FromLE(s1) == s[1] + 256 * FromLE(s2);
  }

  /** The encodings are little endian, and two's complement where signed, spelled out. */
  lemma IntegersLittleEndian(a: u16, b: u64, c: i64)
    ensures HalfWord(EncodeU16(a), 0) == a
    ensures Word(EncodeU64(b), 0) == b
    ensures SignedWord(EncodeI64(c), 0) == c
  {
    IntegersRoundTrip(a, b, c);
    DecodedPositionally(EncodeU64(b), EncodeU16(a));
    DecodedPositionally(EncodeI64(c), EncodeU16(a));
  }

  /** An encoding within a longer string reads as its number there. */
  lemma WordWithin(s: seq<byte>, at: nat)
    requires at + 8 <= |s|
    ensures Word(s[at..at + 8], 0) == Word(s, at) && SignedWord(s[at..at + 8], 0) == SignedWord(s, at)
  {
  }

  lemma HalfWordWithin(s: seq<byte>, at: nat)
    requires at + 2 <= |s|
    ensures HalfWord(s[at..at + 2], 0) == HalfWord(s, at)
  {
  }
}
