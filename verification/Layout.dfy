/** Where every field of the three stored records is, byte by byte, as any reader outside the program finds it. */
module Layout {
  import opened Prelude
  import opened Bytes
  import opened Records

  /** The number encoded at the front of what follows `at`. */
  lemma WordPiece(s: seq<byte>, at: nat, x: u64, rest: seq<byte>)
    requires at <= |s| && s[at..] == EncodeU64(x) + rest
    ensures at + 8 <= |s| && Word(s, at) == x && s[at + 8..] == rest
  {
    hide EncodeU64, Word;
    Piece(s, at, EncodeU64(x), rest);
    IntegersLittleEndian(0, x, 0);
    WordWithin(s, at);
  }

  lemma SignedWordPiece(s: seq<byte>, at: nat, x: i64, rest: seq<byte>)
    requires at <= |s| && s[at..] == EncodeI64(x) + rest
    ensures at + 8 <= |s| && SignedWord(s, at) == x && s[at + 8..] == rest
  {
    hide EncodeI64, SignedWord;
    Piece(s, at, EncodeI64(x), rest);
    IntegersLittleEndian(0, 0, x);
    WordWithin(s, at);
  }

  lemma HalfWordPiece(s: seq<byte>, at: nat, x: u16, rest: seq<byte>)
    requires at <= |s| && s[at..] == EncodeU16(x) + rest
    ensures at + 2 <= |s| && HalfWord(s, at) == x && s[at + 2..] == rest
  {
    hide EncodeU16, HalfWord;
    Piece(s, at, EncodeU16(x), rest);
    IntegersLittleEndian(x, 0, 0);
    HalfWordWithin(s, at);
  }

  /** An optional number at `at`: a tag of 0 or 1, and then the number if there is one. */
  lemma OptionPiece(s: seq<byte>, at: nat, o: Option<u64>, rest: seq<byte>)
    requires at <= |s| && s[at..] == PutOptionU64(o, rest)
    ensures |s| > at && s[at] == (if o.Some? then 1 else 0)
    ensures o.Some? ==> at + 9 <= |s| && Word(s, at + 1) == o.value
    ensures s[if o.Some? then at + 9 else at + 1..] == rest
  {
    hide EncodeU64, Word;
    match o
    case None => Piece(s, at, [0], rest);
    case Some(x) =>
      Piece(s, at, [1], EncodeU64(x) + rest);
      WordPiece(s, at + 1, x, rest);
  }

  /** Where the fields behind a voter record's optional expiry begin. */
  function ActionAt(v: VoterWeightRecord): nat {
    if v.voterWeightExpiry.Some? then 121 else 113
  }

  function TargetAt(v: VoterWeightRecord): nat {
    ActionAt(v) + (if v.weightAction.Some? then 2 else 1)
  }

  function ReservedAt(v: VoterWeightRecord): nat {
    TargetAt(v) + (if v.weightActionTarget.Some? then 33 else 1)
  }

  lemma VoterLayout(v: VoterWeightRecord, tail: seq<byte>)
    ensures var b := PutVoter(v, tail);
            && |b| == ReservedAt(v) + 8 + |tail|
            && b[..8] == v.accountDiscriminator && b[8..40] == v.realm && b[40..72] == v.governingTokenMint
            && b[72..104] == v.governingTokenOwner && Word(b, 104) == v.voterWeight
            && b[112] == (if v.voterWeightExpiry.Some? then 1 else 0)
            && (v.voterWeightExpiry.Some? ==> Word(b, 113) == v.voterWeightExpiry.value)
            && b[ActionAt(v)] == (if v.weightAction.Some? then 1 else 0)
            && (v.weightAction.Some? ==> b[ActionAt(v) + 1] == v.weightAction.value)
            && b[TargetAt(v)] == (if v.weightActionTarget.Some? then 1 else 0)
            && (v.weightActionTarget.Some? ==> b[TargetAt(v) + 1..TargetAt(v) + 33] == v.weightActionTarget.value)
            && b[ReservedAt(v)..ReservedAt(v) + 8] == v.reserved && b[ReservedAt(v) + 8..] == tail
  {
    hide EncodeU64, Word, PutOptionU64, PutOptionByte, PutOptionKey;
    VoterFront(v, tail);
    VoterBack(v, tail, PutVoter(v, tail));
  }

  /** The encoding from the optional action on. */
  function FromAction(v: VoterWeightRecord, tail: seq<byte>): seq<byte> {
    PutOptionByte(v.weightAction, PutOptionKey(v.weightActionTarget, v.reserved + tail))
  }

  lemma VoterFront(v: VoterWeightRecord, tail: seq<byte>)
    ensures var b := PutVoter(v, tail);
            && |b| >= ActionAt(v)
            && b[..8] == v.accountDiscriminator && b[8..40] == v.realm && b[40..72] == v.governingTokenMint
            && b[72..104] == v.governingTokenOwner && Word(b, 104) == v.voterWeight
            && b[112] == (if v.voterWeightExpiry.Some? then 1 else 0)
            && (v.voterWeightExpiry.Some? ==> Word(b, 113) == v.voterWeightExpiry.value)
            && b[ActionAt(v)..] == FromAction(v, tail)
  {
    hide EncodeU64, Word, PutOptionU64, PutOptionByte, PutOptionKey, FromAction;
    var b, option := PutVoter(v, tail), PutOptionU64(v.voterWeightExpiry, FromAction(v, tail));
    var keys := v.governingTokenOwner + (EncodeU64(v.voterWeight) + option);
    VoterIs(v, tail);
    assert b[0..] == b;
    Piece(b, 0, v.accountDiscriminator, v.realm + (v.governingTokenMint + keys));
    Piece(b, 8, v.realm, v.governingTokenMint + keys);
    Piece(b, 40, v.governingTokenMint, keys);
    Piece(b, 72, v.governingTokenOwner, EncodeU64(v.voterWeight) + option);
    WordPiece(b, 104, v.voterWeight, option);
    OptionPiece(b, 112, v.voterWeightExpiry, FromAction(v, tail));
  }

  lemma VoterIs(v: VoterWeightRecord, tail: seq<byte>)
    ensures PutVoter(v, tail) ==
            v.accountDiscriminator + (v.realm + (v.governingTokenMint + (v.governingTokenOwner +
            (EncodeU64(v.voterWeight) + PutOptionU64(v.voterWeightExpiry, FromAction(v, tail))))))
  {
  }

  lemma VoterBack(v: VoterWeightRecord, tail: seq<byte>, b: seq<byte>)
    requires |b| >= ActionAt(v) && b[ActionAt(v)..] == FromAction(v, tail)
    ensures |b| == ReservedAt(v) + 8 + |tail|
    ensures b[ActionAt(v)] == (if v.weightAction.Some? then 1 else 0)
    ensures v.weightAction.Some? ==> b[ActionAt(v) + 1] == v.weightAction.value
    ensures b[TargetAt(v)] == (if v.weightActionTarget.Some? then 1 else 0)
    ensures v.weightActionTarget.Some? ==> b[TargetAt(v) + 1..TargetAt(v) + 33] == v.weightActionTarget.value
    ensures b[ReservedAt(v)..ReservedAt(v) + 8] == v.reserved && b[ReservedAt(v) + 8..] == tail
  {
    var target := PutOptionKey(v.weightActionTarget, v.reserved + tail);
    match v.weightAction {
      case None => Piece(b, ActionAt(v), [0], target);
      case Some(action) =>
        Piece(b, ActionAt(v), [1], [action] + target);
        Piece(b, ActionAt(v) + 1, [action], target);
    }
    match v.weightActionTarget {
      case None => Piece(b, TargetAt(v), [0], v.reserved + tail);
      case Some(key) =>
        Piece(b, TargetAt(v), [1], key + (v.reserved + tail));
        Piece(b, TargetAt(v) + 1, key, v.reserved + tail);
    }
    Piece(b, ReservedAt(v), v.reserved, tail);
  }

  lemma MaxLayout(m: MaxVoterWeightRecord, tail: seq<byte>)
    ensures var b, reservedAt := PutMax(m, tail), if m.maxVoterWeightExpiry.Some? then 89 else 81;
            && |b| == reservedAt + 8 + |tail|
            && b[..8] == m.accountDiscriminator && b[8..40] == m.realm && b[40..72] == m.governingTokenMint
            && Word(b, 72) == m.maxVoterWeight
            && b[80] == (if m.maxVoterWeightExpiry.Some? then 1 else 0)
            && (m.maxVoterWeightExpiry.Some? ==> Word(b, 81) == m.maxVoterWeightExpiry.value)
            && b[reservedAt..reservedAt + 8] == m.reserved && b[reservedAt + 8..] == tail
  {
    hide EncodeU64, Word, PutOptionU64;
    var b, option := PutMax(m, tail), PutOptionU64(m.maxVoterWeightExpiry, m.reserved + tail);
    assert b[0..] == b;
    Piece(b, 0, m.accountDiscriminator, m.realm + (m.governingTokenMint + (EncodeU64(m.maxVoterWeight) + option)));
    Piece(b, 8, m.realm, m.governingTokenMint + (EncodeU64(m.maxVoterWeight) + option));
    Piece(b, 40, m.governingTokenMint, EncodeU64(m.maxVoterWeight) + option);
    WordPiece(b, 72, m.maxVoterWeight, option);
    OptionPiece(b, 80, m.maxVoterWeightExpiry, m.reserved + tail);
    Piece(b, if m.maxVoterWeightExpiry.Some? then 89 else 81, m.reserved, tail);
  }

  lemma RegistrarLayout(g: Registrar, tail: seq<byte>)
    ensures var b := PutRegistrar(g, tail);
            && |b| == 178 + |tail|
            && b[..8] == [193, 202, 205, 51, 78, 168, 150, 128]
            && b[8..40] == g.governanceProgramId && b[40..72] == g.realm && b[72..104] == g.governingTokenMint
            && HalfWord(b, 104) == g.minTrustScore && SignedWord(b, 106) == g.maxVerificationAge
            && b[114..178] == g.reserved && b[178..] == tail
  {
    hide EncodeU16, EncodeI64, HalfWord, SignedWord;
    var b := PutRegistrar(g, tail);
    var age := EncodeI64(g.maxVerificationAge) + (g.reserved + tail);
    var score := EncodeU16(g.minTrustScore) + age;
    assert b[0..] == b;
    Piece(b, 0, REGISTRAR_DISCRIMINATOR, g.governanceProgramId + (g.realm + (g.governingTokenMint + score)));
    Piece(b, 8, g.governanceProgramId, g.realm + (g.governingTokenMint + score));
    Piece(b, 40, g.realm, g.governingTokenMint + score);
    Piece(b, 72, g.governingTokenMint, score);
    HalfWordPiece(b, 104, g.minTrustScore, age);
    SignedWordPiece(b, 106, g.maxVerificationAge, g.reserved + tail);
    Piece(b, 114, g.reserved, tail);
  }
}
