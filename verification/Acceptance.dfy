/**
 * What each instruction asks for, spelled out in owners, bytes, lamports and the services of the runtime: the realm
 * reader, the address derivation and the deposit. Nothing here goes through the handlers' own checks.
 */
module Acceptance {
  import opened Prelude
  import opened Bytes
  import opened Records
  import opened Addresses
  import opened Identity
  import opened Ledgers
  import opened Reachability
  import opened Eligibility

  // ---- the seeds, in bytes ----

  lemma SeedPrefixes()
    ensures Ascii("registrar") == [114, 101, 103, 105, 115, 116, 114, 97, 114]
    ensures Ascii("voter-weight-record") ==
            [118, 111, 116, 101, 114, 45, 119, 101, 105, 103, 104, 116, 45, 114, 101, 99, 111, 114, 100]
    ensures Ascii("max-voter-weight-record") ==
            [109, 97, 120, 45,
             118, 111, 116, 101, 114, 45, 119, 101, 105, 103, 104, 116, 45, 114, 101, 99, 111, 114, 100]
    ensures Ascii("identity") == [105, 100, 101, 110, 116, 105, 116, 121]
  {
  }

  /** The derived addresses, without the seed keys. */
  lemma RegistrarDerivation(rt: Runtime, realm: Pubkey, mint: Pubkey)
    ensures RegistrarAddress(rt, realm, mint) == rt.pda(PLUGIN_ID, Ascii("registrar") + realm + mint)
  {
  }

  lemma VoterDerivation(rt: Runtime, realm: Pubkey, mint: Pubkey, wallet: Pubkey)
    ensures VoterAddress(rt, realm, mint, wallet)
            == rt.pda(PLUGIN_ID, Ascii("voter-weight-record") + realm + mint + wallet)
  {
  }

  lemma MaxDerivation(rt: Runtime, realm: Pubkey, mint: Pubkey)
    ensures MaxAddress(rt, realm, mint) == rt.pda(PLUGIN_ID, Ascii("max-voter-weight-record") + realm + mint)
  {
  }

  lemma IdentityDerivation(rt: Runtime, wallet: Pubkey)
    ensures IdentityAddress(rt, wallet) == rt.pda(ENTROS_ID, Ascii("identity") + wallet)
  {
  }

  // ---- what the instructions ask for ----

  /** This program's account of the registrar type, at the address derived from its own realm and mint. */
  predicate IsRegistrar(rt: Runtime, l: Ledger, a: Pubkey) {
    && At(l, a).owner == PLUGIN_ID && At(l, a).contents.RegistrarAccount?
    && var g := At(l, a).contents.registrar;
    a == rt.pda(PLUGIN_ID, Ascii("registrar") + g.realm + g.governingTokenMint)
  }

  /** What the realm reader answers about the mint, given the owner and the bytes of the realm account. */
  function RealmAnswer(rt: Runtime, l: Ledger, program: Pubkey, realm: Pubkey, mint: Pubkey): RealmLookup {
    if At(l, realm).contents.Raw? then rt.realmOf(program, At(l, realm).owner, At(l, realm).contents.data, mint)
    else Rejected
  }

  /** Asked about the mint, with the owner and the bytes of the realm account, the realm reader names this authority. */
  predicate NamesAuthority(rt: Runtime, l: Ledger, program: Pubkey, realm: Pubkey, mint: Pubkey, authority: Pubkey) {
    && At(l, realm).contents.Raw?
    && rt.realmOf(program, At(l, realm).owner, At(l, realm).contents.data, mint) == Found(Some(authority))
  }

  /** An empty system account, which may hold lamports. */
  predicate IsWallet(l: Ledger, a: Pubkey) {
    At(l, a).owner == SYSTEM_ID && At(l, a).contents == Raw([])
  }

  /** The address can become an account of this size: what it lacks of the deposit, another wallet has. */
  predicate CanOpen(rt: Runtime, l: Ledger, a: Pubkey, payer: Pubkey, size: nat) {
    && IsWallet(l, a)
    && (At(l, a).lamports >= rt.rent(size) ||
        (payer != a && IsWallet(l, payer) && At(l, a).lamports + At(l, payer).lamports >= rt.rent(size)))
  }

  /** This program's voter record of the wallet, for the realm and mint of the registrar. */
  predicate IsVoterRecord(l: Ledger, a: Pubkey, g: Registrar, wallet: Pubkey) {
    && At(l, a).owner == PLUGIN_ID && At(l, a).contents.VoterAccount?
    && var v := At(l, a).contents.voter;
    && v.realm == g.realm && v.governingTokenMint == g.governingTokenMint && v.governingTokenOwner == wallet
  }

  predicate IsMaxRecord(l: Ledger, a: Pubkey, g: Registrar) {
    && At(l, a).owner == PLUGIN_ID && At(l, a).contents.MaxAccount?
    && var m := At(l, a).contents.max;
    && m.realm == g.realm && m.governingTokenMint == g.governingTokenMint
  }

  /** Bytes that pass: an IdentityState with a score of at least the minimum, verified less than the limit ago. */
  predicate Passes(data: seq<byte>, minimum: int, limit: int, now: int) {
    && |data| >= 62 && data[..8] == [156, 32, 87, 93, 52, 155, 248, 207]
    && HalfWord(data, 60) >= minimum
    && -0x8000_0000_0000_0000 <= now - SignedWord(data, 48) < limit
  }

  /** The account that Entros keeps for the wallet, at the address Entros derives for it. */
  predicate IsIdentity(rt: Runtime, l: Ledger, identity: Option<Pubkey>, wallet: Pubkey, g: Registrar) {
    && identity == Some(rt.pda(ENTROS_ID, Ascii("identity") + wallet))
    && At(l, identity.value).owner == ENTROS_ID && At(l, identity.value).contents.Raw?
    && Passes(At(l, identity.value).contents.data, g.minTrustScore, g.maxVerificationAge, l.clock.unixTimestamp)
  }

  // ---- the registrar's instructions ----

  lemma CreateRegistrarAccepted(rt: Runtime, l: Ledger, ix: Instruction)
    requires ix.CreateRegistrar?
    ensures Decide(rt, l, ix).Ok? <==>
            && ix.registrar == rt.pda(PLUGIN_ID, Ascii("registrar") + ix.realm + ix.mint)
            && CanOpen(rt, l, ix.registrar, ix.payer, 178)
            && At(l, ix.governanceProgram).executable && At(l, ix.realm).owner == ix.governanceProgram
            && ix.maxVerificationAge > 0
            && NamesAuthority(rt, l, ix.governanceProgram, ix.realm, ix.mint, ix.realmAuthority)
  {
    SucceedsIffPermitted(rt, l, ix);
    hide Decide;
  }

  /** What the five administrative instructions have in common: the realm of the registrar and its authority. */
  predicate Administers(rt: Runtime, l: Ledger, g: Registrar, realm: Pubkey, authority: Pubkey) {
    realm == g.realm && NamesAuthority(rt, l, g.governanceProgramId, g.realm, g.governingTokenMint, authority)
  }

  lemma UpdateRegistrarAccepted(rt: Runtime, l: Ledger, ix: Instruction)
    requires ix.UpdateRegistrar?
    ensures Decide(rt, l, ix).Ok? <==>
            && IsRegistrar(rt, l, ix.registrar) && ix.maxVerificationAge > 0
            && Administers(rt, l, At(l, ix.registrar).contents.registrar, ix.realm, ix.realmAuthority)
  {
    SucceedsIffPermitted(rt, l, ix);
    hide Decide;
  }

  lemma CloseRegistrarAccepted(rt: Runtime, l: Ledger, ix: Instruction)
    requires ix.CloseRegistrar?
    ensures Decide(rt, l, ix).Ok? <==>
            && IsRegistrar(rt, l, ix.registrar) && ix.destination != ix.registrar
            && Administers(rt, l, At(l, ix.registrar).contents.registrar, ix.realm, ix.realmAuthority)
  {
    SucceedsIffPermitted(rt, l, ix);
    hide Decide;
  }

  // ---- the records' instructions ----

  lemma CreateVoterAccepted(rt: Runtime, l: Ledger, ix: Instruction)
    requires ix.CreateVoter?
    ensures Decide(rt, l, ix).Ok? <==>
            && IsRegistrar(rt, l, ix.registrar) && ix.ownerSigner == ix.owner
            && var g := At(l, ix.registrar).contents.registrar;
            && ix.record == rt.pda(PLUGIN_ID, Ascii("voter-weight-record") + g.realm + g.governingTokenMint + ix.owner)
            && CanOpen(rt, l, ix.record, ix.payer, 164)
  {
    SucceedsIffPermitted(rt, l, ix);
    hide Decide;
  }

  lemma UpdateVoterAccepted(rt: Runtime, l: Ledger, ix: Instruction)
    requires ix.UpdateVoter?
    ensures Decide(rt, l, ix).Ok? <==>
            && IsRegistrar(rt, l, ix.registrar)
            && var g := At(l, ix.registrar).contents.registrar;
            && IsVoterRecord(l, ix.record, g, ix.voter)
            && IsIdentity(rt, l, ix.identity, ix.voter, g)
  {
    SucceedsIffPermitted(rt, l, ix);
    hide Decide;
    ProgramIdsDiffer();
    if ix.identity.Some? && At(l, ix.registrar).contents.RegistrarAccount? {
      var g := At(l, ix.registrar).contents.registrar;
      PassesIsEligible(DataOf(At(l, ix.identity.value)), g.minTrustScore, g.maxVerificationAge, l.clock.unixTimestamp);
    }
  }

  lemma PassesIsEligible(data: seq<byte>, minimum: int, limit: int, now: int)
    ensures Passes(data, minimum, limit, now) <==> EligibleData(data, minimum, limit, now)
  {
    if |data| >= 62 {
      assert data[..8] == [156, 32, 87, 93, 52, 155, 248, 207] <==>
             forall i :: 0 <= i < 8 ==> data[i] == IDENTITY_DISCRIMINATOR[i] by {
        assert forall i :: 0 <= i < 8 ==> data[..8][i] == data[i];
      }
    }
  }

  lemma CloseVoterAccepted(rt: Runtime, l: Ledger, ix: Instruction)
    requires ix.CloseVoter?
    ensures Decide(rt, l, ix).Ok? <==>
            && IsRegistrar(rt, l, ix.registrar) && ix.destination != ix.record
            && IsVoterRecord(l, ix.record, At(l, ix.registrar).contents.registrar, ix.voter)
  {
    SucceedsIffPermitted(rt, l, ix);
    hide Decide;
  }

  lemma CreateMaxAccepted(rt: Runtime, l: Ledger, ix: Instruction)
    requires ix.CreateMax?
    ensures Decide(rt, l, ix).Ok? <==>
            && IsRegistrar(rt, l, ix.registrar)
            && var g := At(l, ix.registrar).contents.registrar;
            && ix.record == rt.pda(PLUGIN_ID, Ascii("max-voter-weight-record") + g.realm + g.governingTokenMint)
            && CanOpen(rt, l, ix.record, ix.payer, 97) && Administers(rt, l, g, ix.realm, ix.realmAuthority)
  {
    SucceedsIffPermitted(rt, l, ix);
    hide Decide;
  }

  lemma UpdateMaxAccepted(rt: Runtime, l: Ledger, ix: Instruction)
    requires ix.UpdateMax?
    ensures Decide(rt, l, ix).Ok? <==>
            && IsRegistrar(rt, l, ix.registrar) && ix.maxVoterWeight > 0
            && var g := At(l, ix.registrar).contents.registrar;
            && IsMaxRecord(l, ix.record, g) && Administers(rt, l, g, ix.realm, ix.realmAuthority)
  {
    SucceedsIffPermitted(rt, l, ix);
    hide Decide;
  }

  // ---- what an accepted instruction does to every balance ----

  /** The account an instruction is about. */
  function Subject(ix: Instruction): Pubkey {
    match ix
    case CreateRegistrar(a, _, _, _, _, _, _, _) => a
    case UpdateRegistrar(a, _, _, _, _) => a
    case CloseRegistrar(a, _, _, _) => a
    case CreateVoter(_, a, _, _, _) => a
    case UpdateVoter(_, a, _, _) => a
    case CloseVoter(_, a, _, _) => a
    case CreateMax(_, a, _, _, _) => a
    case UpdateMax(_, a, _, _, _) => a
  }

  /**
   * A creation tops its account up to the deposit, out of the payer. A closing moves everything to the destination. A
   * change moves nothing. Nobody else's balance is touched, and no other account changes otherwise.
   */
  lemma AcceptedBalances(rt: Runtime, l: Ledger, ix: Instruction, b: Pubkey)
    requires Decide(rt, l, ix).Ok?
    ensures var next, a := Step(rt, l, Invoke(ix)), Subject(ix);
            var size := if ix.CreateRegistrar? then 178 else if ix.CreateVoter? then 164 else 97;
            var before, after := At(l, b).lamports, At(next, b).lamports;
            var missing := if At(l, a).lamports < rt.rent(size) then rt.rent(size) - At(l, a).lamports else 0;
            && (b != a ==> Bare(At(next, b)) == Bare(At(l, b)))
            && (ix.CreateRegistrar? || ix.CreateVoter? || ix.CreateMax? ==>
                  after == if b == a then before + missing else if b == ix.payer then before - missing else before)
            && (ix.CloseRegistrar? || ix.CloseVoter? ==>
                  after == if b == a then 0
                           else if b == ix.destination then before + At(l, a).lamports else before)
            && (ix.UpdateRegistrar? || ix.UpdateVoter? || ix.UpdateMax? ==> after == before)
  {
    hide Decide, Perform;
    AcceptedEffect(rt, l, ix);
    var effect := Decide(rt, l, ix).value;
    PerformAtTarget(rt, l, effect);
    if b != effect.target {
      PerformElsewhere(rt, l, effect, b);
      PerformPays(rt, l, effect, b);
    }
  }
}
