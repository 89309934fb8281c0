/** When each instruction succeeds, whatever the order of its checks, and what it then does. */
module Eligibility {
  import opened Prelude
  import opened Bytes
  import opened Records
  import opened Addresses
  import opened Identity
  import opened Ledgers

  /** The registrar account named by a refresh is this program's, of the right kind, at its derived address. */
  predicate NamesRegistrar(rt: Runtime, l: Ledger, a: Pubkey) {
    var account := At(l, a);
    && account.owner == PLUGIN_ID && account.contents.RegistrarAccount?
    && a == RegistrarAddress(rt, account.contents.registrar.realm, account.contents.registrar.governingTokenMint)
  }

  /** The record is the voter's own, in the registrar's realm and mint. */
  predicate OwnRecord(l: Ledger, a: Pubkey, g: Registrar, voter: Pubkey) {
    var account := At(l, a);
    && account.owner == PLUGIN_ID && account.contents.VoterAccount?
    && account.contents.voter.realm == g.realm
    && account.contents.voter.governingTokenMint == g.governingTokenMint
    && account.contents.voter.governingTokenOwner == voter
  }

  /** The identity account is the voter's, owned by Entros, and its bytes meet the registrar's thresholds now. */
  predicate QualifyingIdentity(rt: Runtime, l: Ledger, identity: Option<Pubkey>, voter: Pubkey, g: Registrar) {
    && identity == Some(IdentityAddress(rt, voter))
    && At(l, identity.value).owner == ENTROS_ID
    && EligibleData(DataOf(At(l, identity.value)), g.minTrustScore, g.maxVerificationAge, l.clock.unixTimestamp)
  }

  predicate EligibleUpdate(rt: Runtime, l: Ledger, ix: Instruction)
    requires ix.UpdateVoter?
  {
    && NamesRegistrar(rt, l, ix.registrar)
    && var g := At(l, ix.registrar).contents.registrar;
    && OwnRecord(l, ix.record, g, ix.voter)
    && QualifyingIdentity(rt, l, ix.identity, ix.voter, g)
  }

  /** A refresh succeeds exactly when it is eligible, and then writes weight one with a fresh expiry and no action. */
  lemma UpdateSucceedsIff(rt: Runtime, l: Ledger, ix: Instruction)
    requires ix.UpdateVoter?
    ensures Decide(rt, l, ix).Ok? <==> EligibleUpdate(rt, l, ix)
    ensures Decide(rt, l, ix).Ok? ==>
      At(l, ix.record).contents.VoterAccount? &&
      Decide(rt, l, ix).value ==
        Overwrite(ix.record, VoterAccount(Refreshed(At(l, ix.record).contents.voter, l.clock.slot)))
  {
    if NamesRegistrar(rt, l, ix.registrar) && ix.identity.Some? {
      var g := At(l, ix.registrar).contents.registrar;
      VerdictExact(DataOf(At(l, ix.identity.value)), g.minTrustScore, g.maxVerificationAge, l.clock.unixTimestamp);
    }
  }

  /** Reading a refresh's identity through other bytes that agree on the ones it reads changes nothing. */
  lemma UpdateReadsOnly(rt: Runtime, l: Ledger, l': Ledger, ix: Instruction)
    requires ix.UpdateVoter? && ix.identity.Some? && l'.clock == l.clock
    requires forall a :: a != ix.identity.value ==> At(l', a) == At(l, a)
    requires At(l, ix.identity.value).contents.Raw? && At(l', ix.identity.value).contents.Raw?
    requires At(l, ix.identity.value).owner == At(l', ix.identity.value).owner
    requires SameReading(At(l, ix.identity.value).contents.data, At(l', ix.identity.value).contents.data)
    ensures Decide(rt, l, ix) == Decide(rt, l', ix)
  {
    hide CheckIdentityData, RegistrarAddress, IdentityAddress;
    if At(l, ix.registrar).contents.RegistrarAccount? && ix.registrar != ix.identity.value {
      var g := At(l, ix.registrar).contents.registrar;
      VerdictReadsOnly(At(l, ix.identity.value).contents.data, At(l', ix.identity.value).contents.data,
                       g.minTrustScore, g.maxVerificationAge, l.clock.unixTimestamp);
    }
  }

  // ---- the other instructions ----

  /** The key is the authority of the registrar's realm, and the realm account passed is that realm. */
  predicate Governs(rt: Runtime, l: Ledger, g: Registrar, realm: Pubkey, authority: Pubkey) {
    realm == g.realm
    && ReadRealm(rt, l, g.governanceProgramId, g.realm, g.governingTokenMint) == Found(Some(authority))
  }

  /** What each instruction needs in order to succeed. */
  predicate Permitted(rt: Runtime, l: Ledger, ix: Instruction) {
    var registrar := At(l, ix.registrar).contents;
    match ix
    case CreateRegistrar(a, program, realm, mint, authority, payer, _, age) =>
      && a == RegistrarAddress(rt, realm, mint) && age > 0
      && Free(l, a) && Funded(rt, l, a, payer, REGISTRAR_SPACE)
      && At(l, program).executable && At(l, realm).owner == program
      && ReadRealm(rt, l, program, realm, mint) == Found(Some(authority))
    case UpdateRegistrar(a, realm, authority, _, age) =>
      NamesRegistrar(rt, l, a) && age > 0 && Governs(rt, l, registrar.registrar, realm, authority)
    case CloseRegistrar(a, realm, authority, destination) =>
      NamesRegistrar(rt, l, a) && destination != a && Governs(rt, l, registrar.registrar, realm, authority)
    case CreateVoter(a, record, signer, payer, owner) =>
      && NamesRegistrar(rt, l, a) && signer == owner
      && record == VoterAddress(rt, registrar.registrar.realm, registrar.registrar.governingTokenMint, owner)
      && Free(l, record) && Funded(rt, l, record, payer, VOTER_SPACE)
    case UpdateVoter(_, _, _, _) => EligibleUpdate(rt, l, ix)
    case CloseVoter(a, record, voter, destination) =>
      NamesRegistrar(rt, l, a) && destination != record && OwnRecord(l, record, registrar.registrar, voter)
    case CreateMax(a, record, realm, authority, payer) =>
      && NamesRegistrar(rt, l, a) && Governs(rt, l, registrar.registrar, realm, authority)
      && record == MaxAddress(rt, registrar.registrar.realm, registrar.registrar.governingTokenMint)
      && Free(l, record) && Funded(rt, l, record, payer, MAX_SPACE)
    case UpdateMax(a, record, realm, authority, weight) =>
      && NamesRegistrar(rt, l, a) && Governs(rt, l, registrar.registrar, realm, authority) && weight > 0
      && At(l, record).owner == PLUGIN_ID && At(l, record).contents.MaxAccount?
      && At(l, record).contents.max.realm == registrar.registrar.realm
      && At(l, record).contents.max.governingTokenMint == registrar.registrar.governingTokenMint
  }

  lemma AuthorityChecked(rt: Runtime, l: Ledger, program: Pubkey, realm: Pubkey, mint: Pubkey, authority: Pubkey)
    ensures CheckAuthority(rt, l, program, realm, mint, authority).Ok? <==>
            ReadRealm(rt, l, program, realm, mint) == Found(Some(authority))
  {
  }

  lemma RegistrarLoaded(rt: Runtime, l: Ledger, a: Pubkey)
    ensures LoadRegistrarAtSeeds(rt, l, a).Ok? <==> NamesRegistrar(rt, l, a)
    ensures NamesRegistrar(rt, l, a) ==>
              At(l, a).contents.RegistrarAccount?
              && LoadRegistrarAtSeeds(rt, l, a).value == At(l, a).contents.registrar
  {
  }

  /** Every instruction succeeds exactly when it is permitted, whatever the order of its checks. */
  lemma SucceedsIffPermitted(rt: Runtime, l: Ledger, ix: Instruction)
    ensures Decide(rt, l, ix).Ok? <==> Permitted(rt, l, ix)
  {
    if ix.UpdateVoter? {
      UpdateSucceedsIff(rt, l, ix);
    } else {
      hide AddressOf, Funded, Free, CheckIdentity, EligibleUpdate, CheckAuthority, ReadRealm, LoadRegistrarAtSeeds;
      hide NamesRegistrar, Performable;
      if ix.CreateRegistrar? {
        AuthorityChecked(rt, l, ix.governanceProgram, ix.realm, ix.mint, ix.realmAuthority);
      } else {
        RegistrarLoaded(rt, l, ix.registrar);
        if !ix.CreateVoter? && !ix.CloseVoter? && At(l, ix.registrar).contents.RegistrarAccount? {
          var g := At(l, ix.registrar).contents.registrar;
          AuthorityChecked(rt, l, g.governanceProgramId, ix.realm, g.governingTokenMint, ix.realmAuthority);
        }
      }
    }
  }

  /** What a permitted instruction writes, and between which accounts it moves lamports. */
  predicate Carries(l: Ledger, ix: Instruction, effect: Effect) {
    var registrar := At(l, ix.registrar).contents;
    && effect.target == Target(ix)
    && (IsCreate(ix) <==> effect.Initialize?) && (ix.CloseRegistrar? || ix.CloseVoter? <==> effect.Release?)
    && (effect.Initialize? ==> effect.payer == ix.payer && effect.space == SpaceFor(ix))
    && (effect.Release? ==> effect.destination == ix.destination)
    && match ix
       case CreateRegistrar(a, program, realm, mint, _, _, score, age) =>
         && effect.target == a && effect.space == 178
         && effect.contents.RegistrarAccount?
         && var g := effect.contents.registrar;
         && g.governanceProgramId == program && g.realm == realm && g.governingTokenMint == mint
         && g.minTrustScore == score && g.maxVerificationAge == age && AllZero(g.reserved)
       case UpdateRegistrar(a, _, _, score, age) =>
         && effect.target == a
         && effect.contents.RegistrarAccount? && registrar.RegistrarAccount?
         && var g, was := effect.contents.registrar, registrar.registrar;
         && g.minTrustScore == score && g.maxVerificationAge == age && g.reserved == was.reserved
         && g.governanceProgramId == was.governanceProgramId && g.realm == was.realm
         && g.governingTokenMint == was.governingTokenMint
       case CreateVoter(_, record, _, _, owner) =>
         && effect.target == record && effect.space == 164
         && effect.contents.VoterAccount? && registrar.RegistrarAccount?
         && var v := effect.contents.voter;
         && v.accountDiscriminator == [46, 249, 155, 75, 153, 248, 116, 9] && v.governingTokenOwner == owner
         && v.realm == registrar.registrar.realm && v.governingTokenMint == registrar.registrar.governingTokenMint
         && v.voterWeight == 0 && v.voterWeightExpiry == Some(0) && AllZero(v.reserved)
         && v.weightAction.None? && v.weightActionTarget.None?
       case UpdateVoter(_, record, _, _) =>
         && effect.target == record
         && effect.contents.VoterAccount? && At(l, record).contents.VoterAccount?
         && var v, was := effect.contents.voter, At(l, record).contents.voter;
         && v.voterWeight == 1
         && v.voterWeightExpiry == Some(if l.clock.slot + 100 <= U64_MAX then l.clock.slot + 100 else U64_MAX)
         && v.weightAction.None? && v.weightActionTarget.None? && v.reserved == was.reserved
         && v.accountDiscriminator == was.accountDiscriminator && v.realm == was.realm
         && v.governingTokenMint == was.governingTokenMint && v.governingTokenOwner == was.governingTokenOwner
       case CreateMax(_, record, _, _, _) =>
         && effect.target == record && effect.space == 97
         && effect.contents.MaxAccount? && registrar.RegistrarAccount?
         && var m := effect.contents.max;
         && m.accountDiscriminator == [157, 95, 242, 151, 16, 98, 26, 118] && m.realm == registrar.registrar.realm
         && m.governingTokenMint == registrar.registrar.governingTokenMint
         && m.maxVoterWeight == 0 && m.maxVoterWeightExpiry == Some(0) && AllZero(m.reserved)
       case UpdateMax(_, record, _, _, weight) =>
         && effect.target == record
         && effect.contents.MaxAccount? && At(l, record).contents.MaxAccount?
         && var m, was := effect.contents.max, At(l, record).contents.max;
         && m.maxVoterWeight == weight && m.maxVoterWeightExpiry.None? && m.reserved == was.reserved
         && m.accountDiscriminator == was.accountDiscriminator && m.realm == was.realm
         && m.governingTokenMint == was.governingTokenMint
       case CloseRegistrar(a, _, _, _) => effect.target == a
       case CloseVoter(_, record, _, _) => effect.target == record
  }

  /** Whatever is accepted has exactly the effect its arguments name, and can be carried out. */
  lemma AcceptedEffect(rt: Runtime, l: Ledger, ix: Instruction)
    requires Decide(rt, l, ix).Ok?
    ensures Carries(l, ix, Decide(rt, l, ix).value) && Performable(rt, l, Decide(rt, l, ix).value)
  {
    hide AddressOf, Performable, CheckInit, CheckAuthority, CheckIdentity;
  }
}
