/** The three account types the plugin owns, and the Borsh encoding in which they are stored. */
module Records {
  import opened Prelude
  import opened Bytes

  /** The DAO's configuration account. */
  datatype Registrar = Registrar(
    governanceProgramId: Pubkey,
    realm: Pubkey,
    governingTokenMint: Pubkey,
    minTrustScore: u16,
    maxVerificationAge: i64,
    reserved: Bytes64)

  /** The record a governance program reads to learn one wallet's weight. An action is its one-byte Borsh tag. */
  datatype VoterWeightRecord = VoterWeightRecord(
    accountDiscriminator: Bytes8,
    realm: Pubkey,
    governingTokenMint: Pubkey,
    governingTokenOwner: Pubkey,
    voterWeight: u64,
    voterWeightExpiry: Option<u64>,
    weightAction: Option<byte>,
    weightActionTarget: Option<Pubkey>,
    reserved: Bytes8)

  /** The record a governance program reads to learn the maximum weight, for quorum. */
  datatype MaxVoterWeightRecord = MaxVoterWeightRecord(
    accountDiscriminator: Bytes8,
    realm: Pubkey,
    governingTokenMint: Pubkey,
    maxVoterWeight: u64,
    maxVoterWeightExpiry: Option<u64>,
    reserved: Bytes8)

  /** First eight bytes of SHA-256 of "account:" followed by the type's name. */
  const REGISTRAR_DISCRIMINATOR: Bytes8 := [193, 202, 205, 51, 78, 168, 150, 128]
  const VOTER_DISCRIMINATOR: Bytes8 := [46, 249, 155, 75, 153, 248, 116, 9]
  const MAX_DISCRIMINATOR: Bytes8 := [157, 95, 242, 151, 16, 98, 26, 118]

  /** `Registrar::LEN` and the two `get_space()` sums. */
  const REGISTRAR_SPACE: nat := 8 + 32 + 32 + 32 + 2 + 8 + 64
  const VOTER_SPACE: nat := 8 + 32 + 32 + 32 + 8 + 9 + 2 + 33 + 8
  const MAX_SPACE: nat := 8 + 32 + 32 + 8 + 9 + 8

  // ---- encoding: each piece is put in front of what follows it ----

  function PutOptionU64(o: Option<u64>, rest: seq<byte>): seq<byte> {
    match o
    case None => [0] + rest
    case Some(x) => [1] + (EncodeU64(x) + rest)
  }

  function PutOptionByte(o: Option<byte>, rest: seq<byte>): seq<byte> {
    match o
    case None => [0] + rest
    case Some(x) => [1] + ([x] + rest)
  }

  function PutOptionKey(o: Option<Pubkey>, rest: seq<byte>): seq<byte> {
    match o
    case None => [0] + rest
    case Some(x) => [1] + (x + rest)
  }

  /** The encoding of a voter record, followed by `tail`. */
  function PutVoter(v: VoterWeightRecord, tail: seq<byte>): seq<byte> {
    v.accountDiscriminator + (v.realm + (v.governingTokenMint + (v.governingTokenOwner + (EncodeU64(v.voterWeight) +
    PutOptionU64(v.voterWeightExpiry, PutOptionByte(v.weightAction, PutOptionKey(v.weightActionTarget,
    v.reserved + tail)))))))
  }

  function PutMax(m: MaxVoterWeightRecord, tail: seq<byte>): seq<byte> {
    m.accountDiscriminator + (m.realm + (m.governingTokenMint + (EncodeU64(m.maxVoterWeight) +
    PutOptionU64(m.maxVoterWeightExpiry, m.reserved + tail))))
  }

  function PutRegistrar(g: Registrar, tail: seq<byte>): seq<byte> {
    REGISTRAR_DISCRIMINATOR + (g.governanceProgramId + (g.realm + (g.governingTokenMint +
    (EncodeU16(g.minTrustScore) + (EncodeI64(g.maxVerificationAge) + (g.reserved + tail))))))
  }

  function EncodeVoter(v: VoterWeightRecord): seq<byte> { PutVoter(v, []) }
  function EncodeMax(m: MaxVoterWeightRecord): seq<byte> { PutMax(m, []) }
  function EncodeRegistrar(g: Registrar): seq<byte> { PutRegistrar(g, []) }

  // ---- decoding: each piece is taken off the front of the slice, which then advances ----

  datatype Parsed<+T> = Parsed(value: T, rest: seq<byte>) | Malformed {
    predicate IsFailure() { Malformed? }

    function PropagateFailure<U>(): Parsed<U>
      requires Malformed?
    {
      Malformed
    }

    function Extract(): (T, seq<byte>)
      requires Parsed?
    {
      (value, rest)
    }
  }

  function Take(b: seq<byte>, n: nat): (p: Parsed<seq<byte>>)
    ensures p.Parsed? <==> n <= |b|
    ensures p.Parsed? ==> |p.value| == n && p.value + p.rest == b
  {
    if n <= |b| then Parsed(b[..n], b[n..]) else Malformed
  }

  function TakeKey(b: seq<byte>): Parsed<Pubkey> {
    var (k, rest) :- Take(b, 32);
    Parsed(k, rest)
  }

  function Take8(b: seq<byte>): Parsed<Bytes8> {
    var (k, rest) :- Take(b, 8);
    Parsed(k, rest)
  }

  function TakeU64(b: seq<byte>): Parsed<u64> {
    var (k, rest) :- Take(b, 8);
    Parsed(DecodeU64(k), rest)
  }

  /** Borsh accepts exactly the tags 0 and 1 for an option. */
  function TakeTag(b: seq<byte>): Parsed<bool> {
    var (t, rest) :- Take(b, 1);
    if t[0] > 1 then Malformed else Parsed(t[0] == 1, rest)
  }

  function TakeOptionU64(b: seq<byte>): Parsed<Option<u64>> {
    var (present, b1) :- TakeTag(b);
    if !present then Parsed(None, b1) else
      var (x, b2) :- TakeU64(b1);
      Parsed(Some(x), b2)
  }

  function TakeOptionByte(b: seq<byte>): Parsed<Option<byte>> {
    var (present, b1) :- TakeTag(b);
    if !present then Parsed(None, b1) else
      var (x, b2) :- Take(b1, 1);
      Parsed(Some(x[0]), b2)
  }

  function TakeOptionKey(b: seq<byte>): Parsed<Option<Pubkey>> {
    var (present, b1) :- TakeTag(b);
    if !present then Parsed(None, b1) else
      var (x, b2) :- TakeKey(b1);
      Parsed(Some(x), b2)
  }

  function TakeVoter(b: seq<byte>): Parsed<VoterWeightRecord> {
    var (discriminator, b1) :- Take8(b);
    var (realm, b2) :- TakeKey(b1);
    var (mint, b3) :- TakeKey(b2);
    var (owner, b4) :- TakeKey(b3);
    var (weight, b5) :- TakeU64(b4);
    var (expiry, b6) :- TakeOptionU64(b5);
    var (action, b7) :- TakeOptionByte(b6);
    var (target, b8) :- TakeOptionKey(b7);
    var (reserved, b9) :- Take8(b8);
    Parsed(VoterWeightRecord(discriminator, realm, mint, owner, weight, expiry, action, target, reserved), b9)
  }

  function TakeMax(b: seq<byte>): Parsed<MaxVoterWeightRecord> {
    var (discriminator, b1) :- Take8(b);
    var (realm, b2) :- TakeKey(b1);
    var (mint, b3) :- TakeKey(b2);
    var (weight, b4) :- TakeU64(b3);
    var (expiry, b5) :- TakeOptionU64(b4);
    var (reserved, b6) :- Take8(b5);
    Parsed(MaxVoterWeightRecord(discriminator, realm, mint, weight, expiry, reserved), b6)
  }

  /** The discriminator is skipped here; the framework compares it before decoding. */
  function TakeRegistrar(b: seq<byte>): Parsed<Registrar> {
    var (_, b1) :- Take8(b);
    var (program, b2) :- TakeKey(b1);
    var (realm, b3) :- TakeKey(b2);
    var (mint, b4) :- TakeKey(b3);
    var (score, b5) :- Take(b4, 2);
    var (age, b6) :- Take(b5, 8);
    var (reserved, b7) :- Take(b6, 64);
    Parsed(Registrar(program, realm, mint, DecodeU16(score), DecodeI64(age), reserved), b7)
  }

  // ---- decoding undoes encoding, whatever follows ----

  lemma TakePut(a: seq<byte>, tail: seq<byte>)
    ensures Take(a + tail, |a|) == Parsed(a, tail)
  {
    assert (a + tail)[..|a|] == a && (a + tail)[|a|..] == tail;
  }

  lemma TakePutU64(x: u64, tail: seq<byte>)
    ensures TakeU64(EncodeU64(x) + tail) == Parsed(x, tail)
  {
    TakePut(EncodeU64(x), tail);
    IntegersRoundTrip(0, x, 0);
  }

  lemma TakePutOptions(e: Option<u64>, a: Option<byte>, k: Option<Pubkey>, tail: seq<byte>)
    ensures TakeOptionU64(PutOptionU64(e, tail)) == Parsed(e, tail)
    ensures TakeOptionByte(PutOptionByte(a, tail)) == Parsed(a, tail)
    ensures TakeOptionKey(PutOptionKey(k, tail)) == Parsed(k, tail)
  {
    TakePut([0], tail);
    match e { case None => case Some(x) => TakePut([1], EncodeU64(x) + tail); TakePutU64(x, tail); }
    match a { case None => case Some(x) => TakePut([1], [x] + tail); TakePut([x], tail); }
    match k { case None => case Some(x) => TakePut([1], x + tail); TakePut(x, tail); }
  }

  lemma VoterRoundTrip(v: VoterWeightRecord, tail: seq<byte>)
    ensures TakeVoter(PutVoter(v, tail)) == Parsed(v, tail)
  {
    var b8 := v.reserved + tail;
    var b7 := PutOptionKey(v.weightActionTarget, b8);
    var b6 := PutOptionByte(v.weightAction, b7);
    var b5 := PutOptionU64(v.voterWeightExpiry, b6);
    var b4 := EncodeU64(v.voterWeight) + b5;
    var b3 := v.governingTokenOwner + b4;
    var b2 := v.governingTokenMint + b3;
    var b1 := v.realm + b2;
    TakePut(v.accountDiscriminator, b1);
    TakePut(v.realm, b2);
    TakePut(v.governingTokenMint, b3);
    TakePut(v.governingTokenOwner, b4);
    TakePutU64(v.voterWeight, b5);
    TakePutOptions(v.voterWeightExpiry, None, None, b6);
    TakePutOptions(None, v.weightAction, None, b7);
    TakePutOptions(None, None, v.weightActionTarget, b8);
    TakePut(v.reserved, tail);
  }

  lemma MaxRoundTrip(m: MaxVoterWeightRecord, tail: seq<byte>)
    ensures TakeMax(PutMax(m, tail)) == Parsed(m, tail)
  {
    var b5 := m.reserved + tail;
    var b4 := PutOptionU64(m.maxVoterWeightExpiry, b5);
    var b3 := EncodeU64(m.maxVoterWeight) + b4;
    var b2 := m.governingTokenMint + b3;
    TakePut(m.accountDiscriminator, m.realm + b2);
    TakePut(m.realm, b2);
    TakePut(m.governingTokenMint, b3);
    TakePutU64(m.maxVoterWeight, b4);
    TakePutOptions(m.maxVoterWeightExpiry, None, None, b5);
    TakePut(m.reserved, tail);
  }

  lemma RegistrarRoundTrip(g: Registrar, tail: seq<byte>)
    ensures TakeRegistrar(PutRegistrar(g, tail)) == Parsed(g, tail)
  {
    var b6 := g.reserved + tail;
    var b5 := EncodeI64(g.maxVerificationAge) + b6;
    var b4 := EncodeU16(g.minTrustScore) + b5;
    var b3 := g.governingTokenMint + b4;
    var b2 := g.realm + b3;
    TakePut(REGISTRAR_DISCRIMINATOR, g.governanceProgramId + b2);
    TakePut(g.governanceProgramId, b2);
    TakePut(g.realm, b3);
    TakePut(g.governingTokenMint, b4);
    TakePut(EncodeU16(g.minTrustScore), b5);
    TakePut(EncodeI64(g.maxVerificationAge), b6);
    TakePut(g.reserved, tail);
    IntegersRoundTrip(g.minTrustScore, 0, g.maxVerificationAge);
  }

  // ---- and nothing but an encoding decodes ----

  lemma PutTakeU64(b: seq<byte>)
    requires TakeU64(b).Parsed?
    ensures b == EncodeU64(TakeU64(b).value) + TakeU64(b).rest
  {
    IntegersCanonical([0, 0], b[..8]);
  }

  lemma PutTakeOptions(b: seq<byte>)
    ensures TakeOptionU64(b).Parsed? ==> b == PutOptionU64(TakeOptionU64(b).value, TakeOptionU64(b).rest)
    ensures TakeOptionByte(b).Parsed? ==> b == PutOptionByte(TakeOptionByte(b).value, TakeOptionByte(b).rest)
    ensures TakeOptionKey(b).Parsed? ==> b == PutOptionKey(TakeOptionKey(b).value, TakeOptionKey(b).rest)
  {
    if TakeTag(b).Parsed? {
      assert b == [b[0]] + b[1..];
      if TakeOptionU64(b).Parsed? && b[0] == 1 { PutTakeU64(b[1..]); }
      if TakeOptionByte(b).Parsed? && b[0] == 1 { assert b[1..] == [b[1]] + b[1..][1..]; }
    }
  }

  lemma VoterCanonical(b: seq<byte>)
    requires TakeVoter(b).Parsed?
    ensures b == PutVoter(TakeVoter(b).value, TakeVoter(b).rest)
  {
    hide PutOptionU64, PutOptionByte, PutOptionKey, EncodeU64, TakeOptionU64, TakeOptionByte, TakeOptionKey;
    var b1 := Take8(b).rest;
    var b2 := TakeKey(b1).rest;
    var b3 := TakeKey(b2).rest;
    var b4 := TakeKey(b3).rest;
    var b5 := TakeU64(b4).rest;
    PutTakeU64(b4);
    PutTakeOptions(b5);
    PutTakeOptions(TakeOptionU64(b5).rest);
    PutTakeOptions(TakeOptionByte(TakeOptionU64(b5).rest).rest);
  }

  lemma MaxCanonical(b: seq<byte>)
    requires TakeMax(b).Parsed?
    ensures b == PutMax(TakeMax(b).value, TakeMax(b).rest)
  {
    var b3 := TakeKey(TakeKey(Take8(b).rest).rest).rest;
    PutTakeU64(b3);
    PutTakeOptions(TakeU64(b3).rest);
  }

  // ---- sizes ----

  function OptionSize<T>(o: Option<T>, payload: nat): nat {
    if o.Some? then 1 + payload else 1
  }

  /** `get_space()` is reached exactly when every option is present; the shortest voter encoding has 123 bytes. */
  lemma VoterSize(v: VoterWeightRecord, tail: seq<byte>)
    ensures 123 + |tail| <= |PutVoter(v, tail)| <= VOTER_SPACE + |tail|
    ensures |PutVoter(v, tail)| == VOTER_SPACE + |tail| <==>
            v.voterWeightExpiry.Some? && v.weightAction.Some? && v.weightActionTarget.Some?
    ensures |PutVoter(v, tail)| == 123 + |tail| <==>
            v.voterWeightExpiry.None? && v.weightAction.None? && v.weightActionTarget.None?
  {
    assert |PutVoter(v, tail)| == 120 + OptionSize(v.voterWeightExpiry, 8) + OptionSize(v.weightAction, 1)
                                  + OptionSize(v.weightActionTarget, 32) + |tail|;
  }

  lemma MaxSize(m: MaxVoterWeightRecord, tail: seq<byte>)
    ensures |PutMax(m, tail)| == (if m.maxVoterWeightExpiry.Some? then MAX_SPACE else MAX_SPACE - 8) + |tail|
  {
  }

  lemma PutVoterThenTail(v: VoterWeightRecord, tail: seq<byte>)
    ensures PutVoter(v, tail) == EncodeVoter(v) + tail
  {
    hide EncodeU64, PutOptionU64, PutOptionByte, PutOptionKey;
    assert v.reserved + tail == v.reserved + [] + tail;
    var a8 := v.reserved + [];
    PutOptionsThenTail(None, None, v.weightActionTarget, a8, tail);
    var a7 := PutOptionKey(v.weightActionTarget, a8);
    PutOptionsThenTail(None, v.weightAction, None, a7, tail);
    var a6 := PutOptionByte(v.weightAction, a7);
    PutOptionsThenTail(v.voterWeightExpiry, None, None, a6, tail);
    var a5 := PutOptionU64(v.voterWeightExpiry, a6);
    Associative(EncodeU64(v.voterWeight), a5, tail);
    var a4 := EncodeU64(v.voterWeight) + a5;
    Associative(v.governingTokenOwner, a4, tail);
    Associative(v.governingTokenMint, v.governingTokenOwner + a4, tail);
    Associative(v.realm, v.governingTokenMint + (v.governingTokenOwner + a4), tail);
    Associative(v.accountDiscriminator, v.realm + (v.governingTokenMint + (v.governingTokenOwner + a4)), tail);
  }

  lemma PutOptionsThenTail(e: Option<u64>, a: Option<byte>, k: Option<Pubkey>, rest: seq<byte>, tail: seq<byte>)
    ensures PutOptionU64(e, rest + tail) == PutOptionU64(e, rest) + tail
    ensures PutOptionByte(a, rest + tail) == PutOptionByte(a, rest) + tail
    ensures PutOptionKey(k, rest + tail) == PutOptionKey(k, rest) + tail
  {
    hide EncodeU64;
    Associative([0], rest, tail);
    if e.Some? { TaggedThenTail(EncodeU64(e.value), rest, tail); }
    if a.Some? { TaggedThenTail([a.value], rest, tail); }
    if k.Some? { TaggedThenTail(k.value, rest, tail); }
  }

  lemma TaggedThenTail(x: seq<byte>, rest: seq<byte>, tail: seq<byte>)
    ensures [1] + (x + (rest + tail)) == [1] + (x + rest) + tail
  {
    Associative(x, rest, tail);
    Associative([1], x + rest, tail);
  }

  /**
   * Writing a record over any earlier contents of a `get_space()`-byte buffer fits, and reading back gives exactly
   * that record, whatever is left of the earlier contents behind it.
   */
  lemma VoterSurvivesStaleTail(before: seq<byte>, v: VoterWeightRecord)
    requires |before| == VOTER_SPACE
    ensures |EncodeVoter(v)| <= |before|
    ensures TakeVoter(Overlay(before, 0, EncodeVoter(v))) == Parsed(v, before[|EncodeVoter(v)|..])
  {
    hide EncodeVoter, PutVoter;
    PutVoterThenTail(v, []);
    VoterSize(v, []);
    var tail := before[|EncodeVoter(v)|..];
    PutVoterThenTail(v, tail);
    assert Overlay(before, 0, EncodeVoter(v)) == EncodeVoter(v) + tail;
    VoterRoundTrip(v, tail);
  }

  lemma MaxSurvivesStaleTail(before: seq<byte>, m: MaxVoterWeightRecord)
    requires |before| == MAX_SPACE
    ensures |EncodeMax(m)| <= |before|
    ensures TakeMax(Overlay(before, 0, EncodeMax(m))) == Parsed(m, before[|EncodeMax(m)|..])
  {
    MaxSize(m, []);
    var tail := before[|EncodeMax(m)|..];
    assert EncodeMax(m) + tail == PutMax(m, tail);
    assert Overlay(before, 0, EncodeMax(m)) == PutMax(m, tail);
    MaxRoundTrip(m, tail);
  }

  /** Lengths alone keep a max record from being read as a voter record. */
  lemma MaxBufferIsNoVoter(b: seq<byte>)
    requires |b| == MAX_SPACE
    ensures TakeVoter(b).Malformed?
  {
    if TakeVoter(b).Parsed? {
      VoterCanonical(b);
      VoterSize(TakeVoter(b).value, TakeVoter(b).rest);
    }
  }

  /**
   * The other way round they do not: a stored voter record parses as a max record exactly when the ninth byte of its
   * owner happens to be an option tag, so loading needs a kind check.
   */
  lemma VoterBufferCanPassForMax(v: VoterWeightRecord, tail: seq<byte>)
    ensures TakeMax(PutVoter(v, tail)).Parsed? <==> v.governingTokenOwner[8] <= 1
  {
    var b := PutVoter(v, tail);
    VoterSize(v, tail);
    TakePut(v.accountDiscriminator, b[8..]);
    TakePut(v.realm, b[40..]);
    TakePut(v.governingTokenMint, b[72..]);
    assert b == v.accountDiscriminator + b[8..] && b[8..] == v.realm + b[40..];
    assert b[40..] == v.governingTokenMint + b[72..];
    assert TakeU64(b[72..]).rest == b[80..];
    assert b[72..][..32] == v.governingTokenOwner;
    assert b[80] == b[72..][..32][8];
  }

  /** What follows the owner in the encoding of a voter record. */
  function AfterOwner(v: VoterWeightRecord, tail: seq<byte>): seq<byte> {
    EncodeU64(v.voterWeight) + PutOptionU64(v.voterWeightExpiry, PutOptionByte(v.weightAction,
    PutOptionKey(v.weightActionTarget, v.reserved + tail)))
  }

  /** The max record that a voter record parses as, reading its owner as maximum, expiry and reserved bytes. */
  function OwnerAsMax(v: VoterWeightRecord): MaxVoterWeightRecord {
    var o := v.governingTokenOwner;
    MaxVoterWeightRecord(v.accountDiscriminator, v.realm, v.governingTokenMint, DecodeU64(o[..8]),
                         if o[8] == 1 then Some(DecodeU64(o[9..17])) else None,
                         if o[8] == 1 then o[17..25] else o[9..17])
  }

  lemma CutAndTail(o: seq<byte>, i: nat, j: nat, tail: seq<byte>)
    requires i <= j <= |o|
    ensures o[i..j] + (o[j..] + tail) == o[i..] + tail
  {
    assert o[i..] == o[i..j] + o[j..];
    Associative(o[i..j], o[j..], tail);
  }

  lemma VoterParsesAsMax(v: VoterWeightRecord, tail: seq<byte>)
    requires v.governingTokenOwner[8] <= 1
    ensures TakeMax(PutVoter(v, tail)).Parsed? && TakeMax(PutVoter(v, tail)).value == OwnerAsMax(v)
  {
    hide EncodeU64, DecodeU64, TakeMax, PutOptionByte, PutOptionKey, PutOptionU64;
    var m, after := OwnerAsMax(v), AfterOwner(v, tail);
    var rest := v.governingTokenOwner[if v.governingTokenOwner[8] == 1 then 25 else 17..] + after;
    OwnerBytesAsMax(v, after);
    assert PutVoter(v, tail) == PutMax(m, rest);
    MaxRoundTrip(m, rest);
  }

  lemma OwnerBytesAsMax(v: VoterWeightRecord, after: seq<byte>)
    requires v.governingTokenOwner[8] <= 1
    ensures var o, m := v.governingTokenOwner, OwnerAsMax(v);
            EncodeU64(m.maxVoterWeight)
            + PutOptionU64(m.maxVoterWeightExpiry, m.reserved + (o[if o[8] == 1 then 25 else 17..] + after))
            == o + after
  {
    hide EncodeU64, DecodeU64;
    var o := v.governingTokenOwner;
    IntegersCanonical([0, 0], o[..8]);
    IntegersCanonical([0, 0], o[9..17]);
    if o[8] == 1 {
      assert o == o[..8] + [1] + o[9..17] + o[17..25] + o[25..];
      Regroup(o[..8], [1], o[9..17], o[17..25], o[25..], after);
    } else {
      assert o == o[..8] + [0] + o[9..17] + [] + o[17..];
      Regroup(o[..8], [0], o[9..17], [], o[17..], after);
      assert [] + (o[17..] + after) == o[17..] + after;
    }
  }

  lemma Regroup(a: seq<byte>, b: seq<byte>, c: seq<byte>, d: seq<byte>, e: seq<byte>, tail: seq<byte>)
    ensures a + (b + (c + (d + (e + tail)))) == a + b + c + d + e + tail
  {
    Associative(a + b + c + d, e, tail);
    Associative(a + b + c, d, e + tail);
    Associative(a + b, c, d + (e + tail));
    Associative(a, b, c + (d + (e + tail)));
  }

  /** The owner that a rewrite as a max record leaves in a voter record. */
  function OwnerAfterMax(owner: Pubkey, w: u64): Pubkey {
    EncodeU64(w) + (if owner[8] == 1 then [0] + owner[17..25] + owner[17..] else owner[8..])
  }

  /**
   * What the kind check is for. Without it, setting the maximum of a stored voter record that parses as a max record
   * would leave the same voter record with another owner.
   */
  lemma MaxRewriteChangesOwner(v: VoterWeightRecord, w: u64, tail: seq<byte>)
    requires TakeMax(PutVoter(v, tail)).Parsed?
    ensures var m := TakeMax(PutVoter(v, tail)).value.(maxVoterWeight := w, maxVoterWeightExpiry := None);
            && |EncodeMax(m)| <= |PutVoter(v, tail)|
            && Overlay(PutVoter(v, tail), 0, EncodeMax(m))
               == PutVoter(v.(governingTokenOwner := OwnerAfterMax(v.governingTokenOwner, w)), tail)
  {
    VoterBufferCanPassForMax(v, tail);
    VoterParsesAsMax(v, tail);
    RewrittenOwner(v, OwnerAsMax(v).(maxVoterWeight := w, maxVoterWeightExpiry := None), w, tail);
  }

  lemma RewrittenOwner(v: VoterWeightRecord, m: MaxVoterWeightRecord, w: u64, tail: seq<byte>)
    requires m == OwnerAsMax(v).(maxVoterWeight := w, maxVoterWeightExpiry := None)
    requires v.governingTokenOwner[8] <= 1
    ensures |EncodeMax(m)| <= |PutVoter(v, tail)|
    ensures Overlay(PutVoter(v, tail), 0, EncodeMax(m))
            == PutVoter(v.(governingTokenOwner := OwnerAfterMax(v.governingTokenOwner, w)), tail)
  {
    hide EncodeU64, DecodeU64, PutOptionByte, PutOptionKey;
    var o, after, p := v.governingTokenOwner, AfterOwner(v, tail), EncodeU64(w) + ([0] + m.reserved);
    var front := v.accountDiscriminator + v.realm + v.governingTokenMint;
    assert m.reserved + [] == m.reserved;
    InFront(v, p);
    InFront(v, o + after);
    InFront(v, OwnerAfterMax(o, w) + after);
    OverlayFront(front, p, o + after);
    CutAndTail(o, 0, 17, after);
    Piece(o + after, 0, o[0..17], o[17..] + after);
    Associative(p, o[17..], after);
    RewrittenBytes(o, m.reserved, w);
  }

  /** Writing over the front of a buffer whose first part stays the same. */
  lemma OverlayFront(front: seq<byte>, p: seq<byte>, rest: seq<byte>)
    requires |p| <= |rest|
    ensures Overlay(front + rest, 0, front + p) == front + (p + rest[|p|..])
  {
    assert (front + rest)[|front + p|..] == rest[|p|..];
    Associative(front, p, rest[|p|..]);
  }

  lemma RewrittenBytes(o: Pubkey, reserved: Bytes8, w: u64)
    requires o[8] <= 1 && reserved == if o[8] == 1 then o[17..25] else o[9..17]
    ensures EncodeU64(w) + ([0] + reserved) + o[17..] == OwnerAfterMax(o, w)
  {
    hide EncodeU64;
    Associative(EncodeU64(w), [0] + reserved, o[17..]);
    assert o[8] == 0 ==> [0] + o[9..17] + o[17..] == o[8..];
  }

  /** The three fields that both records begin with. */
  lemma InFront(v: VoterWeightRecord, rest: seq<byte>)
    ensures v.accountDiscriminator + (v.realm + (v.governingTokenMint + rest))
            == (v.accountDiscriminator + v.realm + v.governingTokenMint) + rest
  {
    Associative(v.accountDiscriminator + v.realm, v.governingTokenMint, rest);
    Associative(v.accountDiscriminator, v.realm, v.governingTokenMint + rest);
  }
}
