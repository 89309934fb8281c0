/** The client's instruction builders. */
module Client {
  import opened Prelude
  import opened Bytes
  import opened Addresses
  import opened Ledgers
  import opened Entrypoint
  import opened Fixtures
  import opened Acceptance
  import opened Layout
  import opened Wire

  const GOVERNANCE_PROGRAM_ID: Pubkey := [
    0xea, 0xe4, 0x35, 0xbd, 0xee, 0x75, 0xb7, 0x34, 0xcd, 0x59, 0x3e, 0xcf, 0x9a, 0x30, 0x4b, 0x80,
    0x24, 0xba, 0x28, 0x98, 0x67, 0xb7, 0x69, 0xb1, 0xf9, 0x3c, 0xa7, 0xbb, 0xb8, 0x8e, 0x46, 0xfe]

  function Signs(k: Pubkey): AccountMeta { AccountMeta(k, true, false) }
  function Pays(k: Pubkey): AccountMeta { AccountMeta(k, true, true) }
  function Writes(k: Pubkey): AccountMeta { AccountMeta(k, false, true) }
  function Reads(k: Pubkey): AccountMeta { AccountMeta(k, false, false) }

  /** The two threshold arguments of creating and updating a registrar, written in place. None is a RangeError. */
  method WriteThresholds(discriminator: Bytes8, minTrustScore: int, maxVerificationAge: int)
    returns (r: Option<seq<byte>>)
    ensures r.Some? <==> 0 <= minTrustScore <= U16_MAX && I64_MIN <= maxVerificationAge <= I64_MAX
    ensures r.Some? ==> |r.value| == 18 && r.value[..8] == discriminator
    ensures r.Some? ==> HalfWord(r.value, 8) == minTrustScore && SignedWord(r.value, 10) == maxVerificationAge
  {
    hide EncodeU16, EncodeI64, HalfWord, SignedWord, Zeros;
    var data := new byte[8 + 2 + 8](_ => 0);
    CopyInto(data, 0, discriminator);
    if minTrustScore < 0 || minTrustScore > U16_MAX { return None; }
    CopyInto(data, 8, EncodeU16(minTrustScore));
    if maxVerificationAge < I64_MIN || maxVerificationAge > I64_MAX { return None; }
    CopyInto(data, 10, EncodeI64(maxVerificationAge));
    ThresholdsInPlace(discriminator, minTrustScore, maxVerificationAge);
    assert data[..] == discriminator + (EncodeU16(minTrustScore) + EncodeI64(maxVerificationAge));
    r := Some(data[..]);
  }

  lemma ThresholdsInPlace(discriminator: Bytes8, minTrustScore: u16, maxVerificationAge: i64)
    ensures var data := discriminator + (EncodeU16(minTrustScore) + EncodeI64(maxVerificationAge));
            && data[..8] == discriminator
            && HalfWord(data, 8) == minTrustScore && SignedWord(data, 10) == maxVerificationAge
  {
    hide EncodeU16, EncodeI64, HalfWord, SignedWord;
    var age := EncodeI64(maxVerificationAge);
    var data := discriminator + (EncodeU16(minTrustScore) + age);
    assert data[0..] == data && age + [] == age;
    Piece(data, 0, discriminator, EncodeU16(minTrustScore) + age);
    HalfWordPiece(data, 8, minTrustScore, age);
    SignedWordPiece(data, 10, maxVerificationAge, []);
  }

  lemma WeightInPlace(discriminator: Bytes8, weight: u64)
    ensures var data := discriminator + EncodeU64(weight);
            |data| == 16 && data[..8] == discriminator && Word(data, 8) == weight
  {
    hide EncodeU64, Word;
    var data := discriminator + EncodeU64(weight);
    assert data[0..] == data && EncodeU64(weight) + [] == EncodeU64(weight);
    Piece(data, 0, discriminator, EncodeU64(weight));
    WordPiece(data, 8, weight, []);
  }

  /** A single argument, written in place behind the discriminator. */
  method WriteArgument(discriminator: Bytes8, argument: seq<byte>) returns (r: seq<byte>)
    ensures r == discriminator + argument
  {
    var data := new byte[8 + |argument|](_ => 0);
    CopyInto(data, 0, discriminator);
    CopyInto(data, 8, argument);
    r := data[..];
  }

  method BuildCreateRegistrarInstruction(rt: Runtime, realmPda: Pubkey, communityMint: Pubkey, realmAuthority: Pubkey,
                                         payerKey: Pubkey, minTrustScore: int, maxVerificationAge: int)
    returns (r: Option<TransactionInstruction>, registrarPda: Pubkey)
    ensures registrarPda == rt.pda(PLUGIN_ID, Ascii("registrar") + realmPda + communityMint)
    ensures r.Some? <==> 0 <= minTrustScore <= U16_MAX && I64_MIN <= maxVerificationAge <= I64_MAX
    ensures r.Some? ==> r.value.programId == PLUGIN_ID
    ensures r.Some? ==> r.value.keys == [AccountMeta(registrarPda, false, true),
                                         AccountMeta(GOVERNANCE_PROGRAM_ID, false, false),
                                         AccountMeta(realmPda, false, false),
                                         AccountMeta(communityMint, false, false),
                                         AccountMeta(realmAuthority, true, false),
                                         AccountMeta(payerKey, true, true),
                                         AccountMeta(SYSTEM_ID, false, false)]
    ensures r.Some? ==> |r.value.data| == 18 && r.value.data[..8] == [132, 235, 36, 49, 139, 66, 202, 69]
    ensures r.Some? ==> HalfWord(r.value.data, 8) == minTrustScore && SignedWord(r.value.data, 10) == maxVerificationAge
    ensures r.Some? ==> Dispatch(r.value) == Ok(CreateRegistrar(registrarPda, GOVERNANCE_PROGRAM_ID, realmPda,
              communityMint, realmAuthority, payerKey, minTrustScore, maxVerificationAge))
  {
    registrarPda := rt.pda(PLUGIN_ID, Ascii("registrar") + realmPda + communityMint);
    hide Dispatch, HalfWord, SignedWord;
    var data := WriteThresholds(CREATE_REGISTRAR, minTrustScore, maxVerificationAge);
    if data.None? { return None, registrarPda; }
    var keys := [Writes(registrarPda), Reads(GOVERNANCE_PROGRAM_ID), Reads(realmPda), Reads(communityMint),
                 Signs(realmAuthority), Pays(payerKey), Reads(SYSTEM_ID)];
    var ix := TransactionInstruction(PLUGIN_ID, keys, data.value);
    DispatchedExactly(ix, CreateRegistrar(registrarPda, GOVERNANCE_PROGRAM_ID, realmPda, communityMint, realmAuthority,
                                          payerKey, minTrustScore, maxVerificationAge));
    r := Some(ix);
  }

  method BuildUpdateRegistrarInstruction(registrarPda: Pubkey, realmPda: Pubkey, realmAuthority: Pubkey,
                                         minTrustScore: int, maxVerificationAge: int)
    returns (r: Option<TransactionInstruction>)
    ensures r.Some? <==> 0 <= minTrustScore <= U16_MAX && I64_MIN <= maxVerificationAge <= I64_MAX
    ensures r.Some? ==> r.value.programId == PLUGIN_ID
    ensures r.Some? ==> r.value.keys == [AccountMeta(registrarPda, false, true),
                                         AccountMeta(realmPda, false, false),
                                         AccountMeta(realmAuthority, true, false)]
    ensures r.Some? ==> |r.value.data| == 18 && r.value.data[..8] == [116, 34, 168, 129, 238, 12, 90, 56]
    ensures r.Some? ==> HalfWord(r.value.data, 8) == minTrustScore && SignedWord(r.value.data, 10) == maxVerificationAge
    ensures r.Some? ==> Dispatch(r.value) == Ok(UpdateRegistrar(registrarPda, realmPda, realmAuthority,
              minTrustScore, maxVerificationAge))
  {
    hide Dispatch, HalfWord, SignedWord;
    var data := WriteThresholds(UPDATE_REGISTRAR, minTrustScore, maxVerificationAge);
    if data.None? { return None; }
    var keys := [Writes(registrarPda), Reads(realmPda), Signs(realmAuthority)];
    var ix := TransactionInstruction(PLUGIN_ID, keys, data.value);
    DispatchedExactly(ix, UpdateRegistrar(registrarPda, realmPda, realmAuthority, minTrustScore, maxVerificationAge));
    r := Some(ix);
  }

  method BuildCreateVoterWeightRecordInstruction(rt: Runtime, registrarPda: Pubkey, realmPda: Pubkey,
                                                 communityMint: Pubkey, voterKey: Pubkey, payerKey: Pubkey)
    returns (ix: TransactionInstruction, vwrPda: Pubkey)
    ensures vwrPda == rt.pda(PLUGIN_ID, Ascii("voter-weight-record") + realmPda + communityMint + voterKey)
    ensures ix.programId == PLUGIN_ID
    ensures ix.keys == [AccountMeta(registrarPda, false, false),
                        AccountMeta(vwrPda, false, true),
                        AccountMeta(voterKey, true, false),
                        AccountMeta(payerKey, true, true),
                        AccountMeta(SYSTEM_ID, false, false)]
    ensures ix.data == [184, 249, 133, 178, 88, 152, 250, 186] + voterKey
    ensures Dispatch(ix) == Ok(CreateVoter(registrarPda, vwrPda, voterKey, payerKey, voterKey))
  {
    vwrPda := rt.pda(PLUGIN_ID, Ascii("voter-weight-record") + realmPda + communityMint + voterKey);
    hide Dispatch;
    var data := WriteArgument(CREATE_VOTER, voterKey);
    assert data[..8] == CREATE_VOTER && data[8..40] == voterKey;
    var keys := [Reads(registrarPda), Writes(vwrPda), Signs(voterKey), Pays(payerKey), Reads(SYSTEM_ID)];
    ix := TransactionInstruction(PLUGIN_ID, keys, data);
    DispatchedExactly(ix, CreateVoter(registrarPda, vwrPda, voterKey, payerKey, voterKey));
  }

  method BuildUpdateVoterWeightRecordInstruction(registrarPda: Pubkey, vwrPda: Pubkey, voterKey: Pubkey,
                                                 identityPda: Pubkey)
    returns (ix: TransactionInstruction)
    ensures ix.programId == PLUGIN_ID
    ensures ix.keys == [AccountMeta(registrarPda, false, false),
                        AccountMeta(vwrPda, false, true),
                        AccountMeta(voterKey, true, false),
                        AccountMeta(identityPda, false, false)]
    ensures ix.data == [45, 185, 3, 36, 109, 190, 115, 169]
    ensures Dispatch(ix) == Ok(UpdateVoter(registrarPda, vwrPda, voterKey, Some(identityPda)))
  {
    hide Dispatch;
    var keys := [Reads(registrarPda), Writes(vwrPda), Signs(voterKey), Reads(identityPda)];
    ix := TransactionInstruction(PLUGIN_ID, keys, UPDATE_VOTER);
    assert ix.data[..8] == ix.data;
    DispatchedExactly(ix, UpdateVoter(registrarPda, vwrPda, voterKey, Some(identityPda)));
  }

  method BuildCloseVoterWeightRecordInstruction(registrarPda: Pubkey, vwrPda: Pubkey, voterAuthority: Pubkey,
                                                solDestination: Pubkey)
    returns (ix: TransactionInstruction)
    ensures ix.programId == PLUGIN_ID
    ensures ix.keys == [AccountMeta(registrarPda, false, false),
                        AccountMeta(vwrPda, false, true),
                        AccountMeta(voterAuthority, true, false),
                        AccountMeta(solDestination, false, true)]
    ensures ix.data == [123, 160, 235, 63, 195, 243, 225, 129]
    ensures Dispatch(ix) == Ok(CloseVoter(registrarPda, vwrPda, voterAuthority, solDestination))
  {
    hide Dispatch;
    var keys := [Reads(registrarPda), Writes(vwrPda), Signs(voterAuthority), Writes(solDestination)];
    ix := TransactionInstruction(PLUGIN_ID, keys, CLOSE_VOTER);
    assert ix.data[..8] == ix.data;
    DispatchedExactly(ix, CloseVoter(registrarPda, vwrPda, voterAuthority, solDestination));
  }

  method BuildCloseRegistrarInstruction(registrarPda: Pubkey, realmPda: Pubkey, realmAuthority: Pubkey,
                                        solDestination: Pubkey)
    returns (ix: TransactionInstruction)
    ensures ix.programId == PLUGIN_ID
    ensures ix.keys == [AccountMeta(registrarPda, false, true),
                        AccountMeta(realmPda, false, false),
                        AccountMeta(realmAuthority, true, false),
                        AccountMeta(solDestination, false, true)]
    ensures ix.data == [145, 32, 238, 142, 247, 227, 50, 211]
    ensures Dispatch(ix) == Ok(CloseRegistrar(registrarPda, realmPda, realmAuthority, solDestination))
  {
    hide Dispatch;
    var keys := [Writes(registrarPda), Reads(realmPda), Signs(realmAuthority), Writes(solDestination)];
    ix := TransactionInstruction(PLUGIN_ID, keys, CLOSE_REGISTRAR);
    assert ix.data[..8] == ix.data;
    DispatchedExactly(ix, CloseRegistrar(registrarPda, realmPda, realmAuthority, solDestination));
  }

  method BuildCreateMaxVoterWeightRecordInstruction(rt: Runtime, registrarPda: Pubkey, realmPda: Pubkey,
                                                    communityMint: Pubkey, realmAuthority: Pubkey, payerKey: Pubkey)
    returns (ix: TransactionInstruction, maxVwrPda: Pubkey)
    ensures maxVwrPda == rt.pda(PLUGIN_ID, Ascii("max-voter-weight-record") + realmPda + communityMint)
    ensures ix.programId == PLUGIN_ID
    ensures ix.keys == [AccountMeta(registrarPda, false, false),
                        AccountMeta(maxVwrPda, false, true),
                        AccountMeta(realmPda, false, false),
                        AccountMeta(realmAuthority, true, false),
                        AccountMeta(payerKey, true, true),
                        AccountMeta(SYSTEM_ID, false, false)]
    ensures ix.data == [182, 70, 243, 119, 162, 176, 38, 248]
    ensures Dispatch(ix) == Ok(CreateMax(registrarPda, maxVwrPda, realmPda, realmAuthority, payerKey))
  {
    maxVwrPda := rt.pda(PLUGIN_ID, Ascii("max-voter-weight-record") + realmPda + communityMint);
    hide Dispatch;
    var keys := [Reads(registrarPda), Writes(maxVwrPda), Reads(realmPda), Signs(realmAuthority), Pays(payerKey),
                 Reads(SYSTEM_ID)];
    ix := TransactionInstruction(PLUGIN_ID, keys, CREATE_MAX);
    assert ix.data[..8] == ix.data;
    DispatchedExactly(ix, CreateMax(registrarPda, maxVwrPda, realmPda, realmAuthority, payerKey));
  }

  /** None is a RangeError: the maximum has to be a u64. */
  method BuildUpdateMaxVoterWeightRecordInstruction(registrarPda: Pubkey, maxVwrPda: Pubkey, realmPda: Pubkey,
                                                    realmAuthority: Pubkey, maxVoterWeight: int)
    returns (r: Option<TransactionInstruction>)
    ensures r.Some? <==> 0 <= maxVoterWeight <= U64_MAX
    ensures r.Some? ==> r.value.programId == PLUGIN_ID
    ensures r.Some? ==> r.value.keys == [AccountMeta(registrarPda, false, false),
                                         AccountMeta(maxVwrPda, false, true),
                                         AccountMeta(realmPda, false, false),
                                         AccountMeta(realmAuthority, true, false)]
    ensures r.Some? ==> |r.value.data| == 16 && r.value.data[..8] == [103, 175, 201, 251, 2, 9, 251, 179]
    ensures r.Some? ==> Word(r.value.data, 8) == maxVoterWeight
    ensures r.Some? ==>
              Dispatch(r.value) == Ok(UpdateMax(registrarPda, maxVwrPda, realmPda, realmAuthority, maxVoterWeight))
  {
    hide Dispatch, Word, EncodeU64;
    if maxVoterWeight < 0 || maxVoterWeight > U64_MAX { return None; }
    var data := WriteArgument(UPDATE_MAX, EncodeU64(maxVoterWeight));
    WeightInPlace(UPDATE_MAX, maxVoterWeight);
    var keys := [Reads(registrarPda), Writes(maxVwrPda), Reads(realmPda), Signs(realmAuthority)];
    var ix := TransactionInstruction(PLUGIN_ID, keys, data);
    DispatchedExactly(ix, UpdateMax(registrarPda, maxVwrPda, realmPda, realmAuthority, maxVoterWeight));
    r := Some(ix);
  }

  /** The refresh that is accepted names the account where the fixtures put the voter's identity, and no other. */
  lemma RefreshTakesIdentityPda(rt: Runtime, l: Ledger, ix: Instruction)
    requires ix.UpdateVoter?
    ensures Decide(rt, l, ix).Ok? ==>
              ix.identity == Some(IdentityPda(rt, ix.voter))
  {
    hide Decide;
    UpdateVoterAccepted(rt, l, ix);
  }
}
