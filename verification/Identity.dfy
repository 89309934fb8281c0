/** Reading an Entros IdentityState account: the fixed-offset parser, the eligibility test and its arithmetic. */
module Identity {
  import opened Prelude
  import opened Bytes

  const IDENTITY_DISCRIMINATOR: Bytes8 := [156, 32, 87, 93, 52, 155, 248, 207]
  const LAST_VERIFICATION_OFFSET: nat := 48
  const TRUST_SCORE_OFFSET: nat := 60
  const MIN_DATA_LEN: nat := 62

  /** `i64::checked_sub`. */
  function CheckedSub(a: i64, b: i64): Option<i64> {
    if I64_MIN <= a - b <= I64_MAX then Some(a - b) else None
  }

  /** The age the program computes: the difference, or the largest i64 when it does not fit. */
  function Age(now: i64, last: i64): i64 {
    match CheckedSub(now, last)
    case Some(d) => d
    case None => I64_MAX
  }

  /** `u64::saturating_add(100)`: the slot at which a refreshed record expires. */
  function ExpiryFor(slot: u64): u64 {
    if slot + 100 > U64_MAX then U64_MAX else slot + 100
  }

  /** The checks on the identity account's bytes, in the order the handler makes them. */
  function CheckIdentityData(data: seq<byte>, minTrustScore: u16, maxVerificationAge: i64, now: i64): Result<()> {
    var longEnough := |data| >= MIN_DATA_LEN;
    :- Need(longEnough, InvalidIdentityData);
    :- Need(data[..8] == IDENTITY_DISCRIMINATOR, InvalidIdentityData);
    var last := DecodeI64(data[LAST_VERIFICATION_OFFSET..LAST_VERIFICATION_OFFSET + 8]);
    var score := DecodeU16(data[TRUST_SCORE_OFFSET..TRUST_SCORE_OFFSET + 2]);
    :- Need(score >= minTrustScore, InsufficientTrustScore);
    :- Need(Age(now, last) < maxVerificationAge, VerificationExpired);
    Ok(())
  }

  // ---- what the checks mean ----

  /** The bytes hold an identity: long enough, and of the right account type. */
  predicate HoldsIdentity(data: seq<byte>) {
    |data| >= 62 && (forall i :: 0 <= i < 8 ==> data[i] == IDENTITY_DISCRIMINATOR[i])
  }

  /** The trust score, positionally. */
  function TrustScore(data: seq<byte>): int
    requires HoldsIdentity(data)
  {
    Byte(data, 60) + 256 * Byte(data, 61)
  }

  /** The timestamp, positionally: the top bit of byte 55 is the sign. */
  function LastVerification(data: seq<byte>): int
    requires HoldsIdentity(data)
  {
    Word(data, 48) - (if data[55] >= 128 then 0x1_0000_0000_0000_0000 else 0)
  }

  /** Recent enough, over the unbounded integers. */
  predicate Recent(now: int, last: int, maxVerificationAge: int) {
    I64_MIN <= now - last < maxVerificationAge
  }

  predicate EligibleData(data: seq<byte>, minTrustScore: int, maxVerificationAge: int, now: int) {
    && HoldsIdentity(data)
    && TrustScore(data) >= minTrustScore
    && Recent(now, LastVerification(data), maxVerificationAge)
  }

  lemma ParsedPositionally(data: seq<byte>)
    requires HoldsIdentity(data)
    ensures DecodeI64(data[48..56]) == LastVerification(data)
    ensures DecodeU16(data[60..62]) == TrustScore(data)
  {
    DecodedPositionally(data[48..56], data[60..62]);
  }

  /**
   * The recency test, for all i64 inputs: it accepts exactly when the true difference is not below the least i64 and
   * is below the limit.
   */
  lemma RecencyExact(now: i64, last: i64, maxVerificationAge: i64)
    ensures Age(now, last) < maxVerificationAge <==> Recent(now, last, maxVerificationAge)
    ensures now >= 0 ==> (Age(now, last) < maxVerificationAge <==> now - last < maxVerificationAge)
  {
  }

  /**
   * Against the comment in the tests, timestamps in the future are not rejected as such: with a positive limit one is
   * accepted exactly when the subtraction does not overflow, hence always when the clock is not negative.
   */
  lemma FutureTimestamps(now: i64, last: i64, maxVerificationAge: i64)
    requires now < last && maxVerificationAge > 0
    ensures Age(now, last) < maxVerificationAge <==> CheckedSub(now, last).Some?
    ensures now >= 0 ==> Age(now, last) < maxVerificationAge
  {
  }

  /** The checks pass exactly on eligible data, and otherwise name the first requirement that is missing. */
  lemma VerdictExact(data: seq<byte>, minTrustScore: u16, maxVerificationAge: i64, now: i64)
    ensures CheckIdentityData(data, minTrustScore, maxVerificationAge, now) ==
            if !HoldsIdentity(data) then Err(InvalidIdentityData)
            else if TrustScore(data) < minTrustScore then Err(InsufficientTrustScore)
            else if !Recent(now, LastVerification(data), maxVerificationAge) then Err(VerificationExpired)
            else Ok(())
    ensures CheckIdentityData(data, minTrustScore, maxVerificationAge, now).Ok? <==>
            EligibleData(data, minTrustScore, maxVerificationAge, now)
  {
    if |data| >= 62 && data[..8] == IDENTITY_DISCRIMINATOR {
      forall i | 0 <= i < 8 ensures data[i] == IDENTITY_DISCRIMINATOR[i] {
        assert data[i] == data[..8][i];
      }
    }
    if HoldsIdentity(data) {
      assert data[..8] == IDENTITY_DISCRIMINATOR;
      ParsedPositionally(data);
    }
  }

  /** Two accounts that agree on bytes 0-7, 48-55 and 60-61 look the same to the checks. */
  predicate SameReading(d: seq<byte>, e: seq<byte>) {
    (|d| >= 62 <==> |e| >= 62) &&
    (|d| >= 62 ==> forall i :: 0 <= i < 62 && (i < 8 || 48 <= i < 56 || i >= 60) ==> d[i] == e[i])
  }

  lemma VerdictReadsOnly(d: seq<byte>, e: seq<byte>, minTrustScore: u16, maxVerificationAge: i64, now: i64)
    requires SameReading(d, e)
    ensures CheckIdentityData(d, minTrustScore, maxVerificationAge, now) ==
            CheckIdentityData(e, minTrustScore, maxVerificationAge, now)
  {
    VerdictExact(d, minTrustScore, maxVerificationAge, now);
    VerdictExact(e, minTrustScore, maxVerificationAge, now);
  }
}
