/** The writer of IdentityState fixtures, which the on-chain parser has to invert. */
module Fixtures {
  import opened Prelude
  import opened Bytes
  import opened Addresses
  import opened Identity

  const IDENTITY_STATE_SIZE: nat := 207

  /** Where the fixtures put a voter's identity account. */
  function IdentityPda(rt: Runtime, voter: Pubkey): Pubkey {
    rt.pda(ENTROS_ID, Ascii("identity") + voter)
  }

  /** `Buffer.copy`: overwrite the bytes from an offset on. */
  method CopyInto(data: array<byte>, offset: nat, bytes: seq<byte>)
    requires offset + |bytes| <= data.Length
    modifies data
    ensures data[..] == Overlay(old(data[..]), offset, bytes)
  {
    forall i | 0 <= i < |bytes| {
      data[offset + i] := bytes[i];
    }
  }

  /** Filling a zeroed buffer from the front: the next field goes where the last one ended. */
  lemma OverlayExtends(filled: seq<byte>, bytes: seq<byte>, size: nat)
    requires |filled| + |bytes| <= size
    ensures Overlay(filled + Zeros(size - |filled|), |filled|, bytes)
            == (filled + bytes) + Zeros(size - |filled + bytes|)
  {
  }

  /** The layout, field after field, zero-filled to the full size. */
  function IdentityStateBytes(owner: Pubkey, score: u16, last: i64, discriminator: Bytes8): (s: seq<byte>)
    requires last - 86400 >= I64_MIN
    ensures |s| == IDENTITY_STATE_SIZE
  {
    discriminator + owner + EncodeI64(last - 86400) + EncodeI64(last) + LE(score / 100, 4) + EncodeU16(score)
    + Zeros(IDENTITY_STATE_SIZE - 62)
  }

  /** The arguments that the integer writers accept; they throw a RangeError on any other. */
  predicate Writable(trustScore: int, last: int) {
    I64_MIN <= last - 86400 && last <= I64_MAX && 0 <= trustScore <= U16_MAX
  }

  /** The fixture builder. None stands for a RangeError. */
  method BuildIdentityStateData(owner: Pubkey, trustScore: int, last: int, discriminator: Bytes8)
    returns (r: Option<array<byte>>)
    ensures r.Some? <==> Writable(trustScore, last)
    ensures r.Some? ==> fresh(r.value) && r.value[..] == IdentityStateBytes(owner, trustScore, last, discriminator)
  {
    hide Zeros, LE, EncodeI64, EncodeU16, IdentityStateBytes;
    var data := new byte[IDENTITY_STATE_SIZE](_ => 0);
    ghost var filled: seq<byte> := [];
    ZeroFilled(data);
    assert data[..] == filled + Zeros(data.Length - |filled|);
    var offset := 0;
    offset, filled := WriteField(data, offset, filled, discriminator);
    offset, filled := WriteField(data, offset, filled, owner);
    if last - 86400 < I64_MIN || last - 86400 > I64_MAX { return None; }
    offset, filled := WriteField(data, offset, filled, EncodeI64(last - 86400));
    if last > I64_MAX { return None; }
    offset, filled := WriteField(data, offset, filled, EncodeI64(last));
    var count := if trustScore > 0 then trustScore / 100 else 0;
    if count >= 0x1_0000_0000 { return None; }
    offset, filled := WriteField(data, offset, filled, LE(count, 4));
    if trustScore < 0 || trustScore > U16_MAX { return None; }
    offset, filled := WriteField(data, offset, filled, EncodeU16(trustScore));
    Assembled(owner, trustScore, last, discriminator);
    assert count == trustScore / 100;
    r := Some(data);
  }

  lemma Assembled(owner: Pubkey, score: u16, last: i64, discriminator: Bytes8)
    requires last - 86400 >= I64_MIN
    ensures var fields := [] + discriminator + owner + EncodeI64(last - 86400) + EncodeI64(last) + LE(score / 100, 4)
                          + EncodeU16(score);
            |fields| == 62 && fields + Zeros(IDENTITY_STATE_SIZE - |fields|)
                              == IdentityStateBytes(owner, score, last, discriminator)
  {
    assert [] + discriminator == discriminator;
  }

  lemma ZeroFilled(data: array<byte>)
    requires forall i :: 0 <= i < data.Length ==> data[i] == 0
    ensures data[..] == Zeros(data.Length)
  {
  }

  /** One field: copy its bytes to the offset and move the offset past them. */
  method WriteField(data: array<byte>, offset: nat, ghost filled: seq<byte>, bytes: seq<byte>)
    returns (next: nat, ghost filled': seq<byte>)
    requires offset == |filled| && |filled| + |bytes| <= data.Length
    requires data[..] == filled + Zeros(data.Length - |filled|)
    modifies data
    ensures next == |filled'| && filled' == filled + bytes
    ensures data[..] == filled' + Zeros(data.Length - |filled'|)
  {
    OverlayExtends(filled, bytes, data.Length);
    CopyInto(data, offset, bytes);
    next, filled' := offset + |bytes|, filled + bytes;
  }

  /** Where each field ends up, and that nothing else is set. */
  lemma FieldsInPlace(owner: Pubkey, score: u16, last: i64, discriminator: Bytes8)
    requires last - 86400 >= I64_MIN
    ensures var data := IdentityStateBytes(owner, score, last, discriminator);
            && data[..8] == discriminator && data[8..40] == owner
            && data[40..48] == EncodeI64(last - 86400) && data[48..56] == EncodeI64(last)
            && data[56..60] == LE(score / 100, 4) && data[60..62] == EncodeU16(score)
            && AllZero(data[62..])
  {
  }

  /** The same numbers as any reader finds them: two's complement and little endian. */
  lemma FieldsAsNumbers(owner: Pubkey, score: u16, last: i64, discriminator: Bytes8)
    requires last - 86400 >= I64_MIN
    ensures var data := IdentityStateBytes(owner, score, last, discriminator);
            && |data| == 207 && SignedWord(data, 40) == last - 86400 && SignedWord(data, 48) == last
            && HalfWord(data, 56) == score / 100 && data[58] == data[59] == 0 && HalfWord(data, 60) == score
  {
    hide EncodeI64, EncodeU16, LE, SignedWord, HalfWord, IdentityStateBytes;
    var data := IdentityStateBytes(owner, score, last, discriminator);
    FieldsInPlace(owner, score, last, discriminator);
    IntegersLittleEndian(score, 0, last);
    IntegersLittleEndian(score, 0, last - 86400);
    WordWithin(data, 40);
    WordWithin(data, 48);
    HalfWordWithin(data, 60);
    CountBytes(score / 100);
    assert data[56..60][..2] == data[56..58] && data[56..60][2] == data[58] && data[56..60][3] == data[59];
    HalfWordWithin(data, 56);
  }

  lemma CountBytes(x: nat)
    requires x < 0x1_0000
    ensures HalfWord(LE(x, 4)[..2], 0) == x && LE(x, 4)[2] == LE(x, 4)[3] == 0
  {
    assert LE(x, 4)[1..] == LE(x / 256, 3) && LE(x / 256, 3)[1..] == LE(x / 256 / 256, 2);
    assert LE(x / 256 / 256, 2)[1..] == LE(x / 256 / 256 / 256, 1);
  }

  /**
   * Build, then parse. What the builder writes, the program reads back as exactly that score and timestamp; with the
   * right discriminator the account passes exactly when these qualify, with any other it is not an identity.
   */
  lemma BuildThenParse(owner: Pubkey, score: u16, last: i64, discriminator: Bytes8,
                       minTrustScore: u16, maxVerificationAge: i64, now: i64)
    requires last - 86400 >= I64_MIN
    ensures var data := IdentityStateBytes(owner, score, last, discriminator);
            var verdict := CheckIdentityData(data, minTrustScore, maxVerificationAge, now);
            && DecodeI64(data[48..56]) == last && DecodeU16(data[60..62]) == score
            && (discriminator != IDENTITY_DISCRIMINATOR ==> verdict == Err(InvalidIdentityData))
            && (discriminator == IDENTITY_DISCRIMINATOR ==>
                  HoldsIdentity(data) && TrustScore(data) == score && LastVerification(data) == last
                  && (verdict.Ok? <==> score >= minTrustScore && Recent(now, last, maxVerificationAge)))
  {
    var data := IdentityStateBytes(owner, score, last, discriminator);
    FieldsInPlace(owner, score, last, discriminator);
    IntegersRoundTrip(score, 0, last);
    VerdictExact(data, minTrustScore, maxVerificationAge, now);
    if discriminator == IDENTITY_DISCRIMINATOR {
      forall i | 0 <= i < 8 ensures data[i] == IDENTITY_DISCRIMINATOR[i] {
        assert data[i] == data[..8][i];
      }
      ParsedPositionally(data);
    }
  }
}
