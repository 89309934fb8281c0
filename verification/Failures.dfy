/** Which error each instruction returns: its requirements in the order of its checks, and the first one not met. */
module Failures {
  import opened Prelude
  import opened Bytes
  import opened Records
  import opened Addresses
  import opened Identity
  import opened Ledgers
  import opened Acceptance

  /** Conditions, each with the error that its failure raises. */
  type Checks = seq<(bool, Error)>

  function RegistrarChecks(rt: Runtime, l: Ledger, a: Pubkey): Checks {
    [(At(l, a).owner == PLUGIN_ID, AccountOwnedByWrongProgram),
     (At(l, a).contents.RegistrarAccount?, AccountDiscriminatorMismatch),
     (IsRegistrar(rt, l, a), ConstraintSeeds)]
  }

  function InitChecks(rt: Runtime, l: Ledger, ix: Instruction): Checks
    requires IsCreate(ix)
  {
    var (a, size) := match ix
      case CreateRegistrar(a, _, _, _, _, _, _, _) => (a, 178)
      case CreateVoter(_, record, _, _, _) => (record, 164)
      case CreateMax(_, record, _, _, _) => (record, 97);
    [(IsWallet(l, a), AccountAlreadyInUse), (CanOpen(rt, l, a, ix.payer, size), InsufficientFunds)]
  }

  function AuthorityChecks(found: RealmLookup, authority: Pubkey): Checks {
    [(found.Found?, RealmRejected),
     (found != Found(None), RealmHasNoAuthority),
     (found == Found(Some(authority)), InvalidRealmAuthority)]
  }

  function RealmChecks(rt: Runtime, l: Ledger, g: Registrar, realm: Pubkey, authority: Pubkey): Checks {
    AuthorityChecks(RealmAnswer(rt, l, g.governanceProgramId, realm, g.governingTokenMint), authority)
  }

  function VoterChecks(l: Ledger, a: Pubkey, g: Registrar, voter: Pubkey): Checks {
    var c := At(l, a).contents;
    [(At(l, a).owner == PLUGIN_ID, AccountOwnedByWrongProgram),
     (c.VoterAccount?, AccountDiscriminatorMismatch),
     (c.VoterAccount? && c.voter.realm == g.realm, VoterWeightRecordRealmMismatch),
     (c.VoterAccount? && c.voter.governingTokenMint == g.governingTokenMint, VoterWeightRecordMintMismatch),
     (IsVoterRecord(l, a, g, voter), VoterWeightRecordOwnerMismatch)]
  }

  function MaxChecks(l: Ledger, a: Pubkey, g: Registrar): Checks {
    var c := At(l, a).contents;
    [(At(l, a).owner == PLUGIN_ID, AccountOwnedByWrongProgram),
     (c.MaxAccount?, AccountDiscriminatorMismatch),
     (c.MaxAccount? && c.max.realm == g.realm, ConstraintRaw),
     (c.MaxAccount? && c.max.governingTokenMint == g.governingTokenMint, ConstraintRaw)]
  }

  function IdentityChecks(rt: Runtime, l: Ledger, identity: Option<Pubkey>, voter: Pubkey, g: Registrar): Checks {
    var account := if identity.Some? then At(l, identity.value) else VACANT;
    var data := DataOf(account);
    [(identity.Some?, MissingIdentityAccount),
     (account.owner == ENTROS_ID, InvalidIdentityOwner),
     (identity == Some(rt.pda(ENTROS_ID, Ascii("identity") + voter)), InvalidIdentityPda),
     (HoldsIdentity(data), InvalidIdentityData),
     (HoldsIdentity(data) && TrustScore(data) >= g.minTrustScore, InsufficientTrustScore),
     (HoldsIdentity(data) && Recent(l.clock.unixTimestamp, LastVerification(data), g.maxVerificationAge),
      VerificationExpired)]
  }

  /** What an instruction requires beyond its registrar `g`. */
  function FurtherChecks(rt: Runtime, l: Ledger, ix: Instruction, g: Registrar): Checks
    requires !ix.CreateRegistrar?
  {
    match ix
    case UpdateRegistrar(_, realm, authority, _, age) =>
      [(realm == g.realm, ConstraintRaw)] + ([(age > 0, InvalidMaxVerificationAge)]
      + RealmChecks(rt, l, g, realm, authority))
    case CloseRegistrar(a, realm, authority, destination) =>
      [(destination != a, ConstraintClose)] + ([(realm == g.realm, ConstraintRaw)]
      + RealmChecks(rt, l, g, realm, authority))
    case CreateVoter(_, record, signer, _, owner) =>
      [(record == rt.pda(PLUGIN_ID, Ascii("voter-weight-record") + g.realm + g.governingTokenMint + owner),
        ConstraintSeeds)]
      + (InitChecks(rt, l, ix) + [(signer == owner, GoverningTokenOwnerSignerMismatch)])
    case UpdateVoter(_, record, voter, identity) =>
      VoterChecks(l, record, g, voter) + IdentityChecks(rt, l, identity, voter, g)
    case CloseVoter(_, record, voter, destination) =>
      [(destination != record, ConstraintClose)] + VoterChecks(l, record, g, voter)
    case CreateMax(_, record, realm, authority, _) =>
      [(record == rt.pda(PLUGIN_ID, Ascii("max-voter-weight-record") + g.realm + g.governingTokenMint),
        ConstraintSeeds)]
      + (InitChecks(rt, l, ix) + ([(realm == g.realm, ConstraintRaw)] + RealmChecks(rt, l, g, realm, authority)))
    case UpdateMax(_, record, realm, authority, weight) =>
      MaxChecks(l, record, g) + ([(realm == g.realm, ConstraintRaw)] + ([(weight > 0, InvalidMaxVoterWeight)]
      + RealmChecks(rt, l, g, realm, authority)))
  }

  /** Everything an instruction requires of the ledger and its arguments, in order. */
  function Requirements(rt: Runtime, l: Ledger, ix: Instruction): Checks {
    match ix
    case CreateRegistrar(a, program, realm, mint, authority, _, _, age) =>
      [(a == rt.pda(PLUGIN_ID, Ascii("registrar") + realm + mint), ConstraintSeeds)] + (InitChecks(rt, l, ix)
      + ([(At(l, program).executable, ConstraintExecutable)] + ([(At(l, realm).owner == program, ConstraintOwner)]
      + ([(age > 0, InvalidMaxVerificationAge)]
      + AuthorityChecks(RealmAnswer(rt, l, program, realm, mint), authority)))))
    case _ =>
      match At(l, ix.registrar).contents
      case RegistrarAccount(g) => RegistrarChecks(rt, l, ix.registrar) + FurtherChecks(rt, l, ix, g)
      case _ => RegistrarChecks(rt, l, ix.registrar)
  }

  predicate AllMet(checks: Checks) {
    forall k :: 0 <= k < |checks| ==> checks[k].0
  }

  /** Requirement `k` is the first that is not met, and raises this error. */
  predicate Explains(checks: Checks, k: nat, error: Error) {
    k < |checks| && checks[k] == (false, error) && forall j :: 0 <= j < k ==> checks[j].0
  }

  /** The result is that of the checks: success if all are met, and otherwise the error of the first that is not. */
  ghost predicate Follows<T>(r: Result<T>, checks: Checks) {
    match r
    case Ok(_) => AllMet(checks)
    case Err(error) => exists k: nat :: Explains(checks, k, error)
  }

  /** A part of a handler: its result, and the requirements that explain it. */
  datatype Part = Part(result: Result<()>, checks: Checks)

  function Verdict<T>(r: Result<T>): Result<()> {
    if r.Ok? then Ok(()) else Err(r.error)
  }

  /** One part and then another, which comes into play once the first one passes. */
  ghost function InTurn<T>(first: Result<T>, checks: Checks, next: Part): (both: Part)
    requires Follows(first, checks) && (first.Ok? ==> Follows(next.result, next.checks))
    ensures both.checks == checks + next.checks && Follows(both.result, both.checks)
    ensures both.result == if first.Err? then Err(first.error) else next.result
  {
    var all := checks + next.checks;
    assert forall k: nat, e :: Explains(checks, k, e) ==> Explains(all, k, e);
    assert first.Ok? ==> forall k: nat, e :: Explains(next.checks, k, e) ==> Explains(all, |checks| + k, e);
    Part(if first.Err? then Err(first.error) else next.result, all)
  }

  /** A single requirement, and then the rest of a handler. */
  ghost function Requiring(met: bool, error: Error, next: Part): (both: Part)
    requires Follows(next.result, next.checks)
    ensures both.checks == [(met, error)] + next.checks && Follows(both.result, both.checks)
    ensures both.result == if met then next.result else Err(error)
  {
    InTurn(Single(met, error).result, [(met, error)], next)
  }

  /** A single requirement at the end of a handler. */
  ghost function Single(met: bool, error: Error): (part: Part)
    ensures part.checks == [(met, error)] && Follows(part.result, part.checks)
    ensures part.result == if met then Ok(()) else Err(error)
  {
    assert !met ==> Explains([(met, error)], 0, error);
    Part(if met then Ok(()) else Err(error), [(met, error)])
  }

  lemma RegistrarFollows(rt: Runtime, l: Ledger, a: Pubkey)
    ensures Follows(LoadRegistrarAtSeeds(rt, l, a), RegistrarChecks(rt, l, a))
  {
    var checks := RegistrarChecks(rt, l, a);
    var r := LoadRegistrarAtSeeds(rt, l, a);
    if r.Err? {
      assert Explains(checks, 0, r.error) || Explains(checks, 1, r.error) || Explains(checks, 2, r.error);
    }
  }

  lemma InitFollows(rt: Runtime, l: Ledger, ix: Instruction)
    requires IsCreate(ix)
    ensures Follows(CheckInit(rt, l, Target(ix), ix.payer, SpaceFor(ix)), InitChecks(rt, l, ix))
  {
    var checks := InitChecks(rt, l, ix);
    var r := CheckInit(rt, l, Target(ix), ix.payer, SpaceFor(ix));
    if r.Err? {
      assert Explains(checks, 0, r.error) || Explains(checks, 1, r.error);
    }
  }

  /** The check of the realm's authority. */
  ghost function Authorized(rt: Runtime, l: Ledger, program: Pubkey, realm: Pubkey, mint: Pubkey, authority: Pubkey)
    : (part: Part)
    ensures part.result == CheckAuthority(rt, l, program, realm, mint, authority)
    ensures part.checks == AuthorityChecks(RealmAnswer(rt, l, program, realm, mint), authority)
    ensures Follows(part.result, part.checks)
  {
    var r, found := CheckAuthority(rt, l, program, realm, mint, authority), RealmAnswer(rt, l, program, realm, mint);
    var checks := AuthorityChecks(found, authority);
    assert r.Err? ==> Explains(checks, 0, r.error) || Explains(checks, 1, r.error) || Explains(checks, 2, r.error);
    Part(r, checks)
  }

  /** Loading a voter record for its owner. */
  function LoadOwnVoter(l: Ledger, a: Pubkey, g: Registrar, voter: Pubkey): Result<VoterWeightRecord> {
    var v :- LoadVoterOf(l, a, g);
    :- Need(v.governingTokenOwner == voter, VoterWeightRecordOwnerMismatch);
    Ok(v)
  }

  lemma OwnVoterFollows(l: Ledger, a: Pubkey, g: Registrar, voter: Pubkey)
    ensures Follows(LoadOwnVoter(l, a, g, voter), VoterChecks(l, a, g, voter))
  {
    var checks := VoterChecks(l, a, g, voter);
    var r := LoadOwnVoter(l, a, g, voter);
    if r.Err? {
      assert Explains(checks, 0, r.error) || Explains(checks, 1, r.error) || Explains(checks, 2, r.error)
             || Explains(checks, 3, r.error) || Explains(checks, 4, r.error);
    }
  }

  /** Loading a max record for a registrar. */
  function LoadMaxOf(l: Ledger, a: Pubkey, g: Registrar): Result<MaxVoterWeightRecord> {
    var m :- LoadMax(l, a);
    :- Need(m.realm == g.realm && m.governingTokenMint == g.governingTokenMint, ConstraintRaw);
    Ok(m)
  }

  lemma OwnMaxFollows(l: Ledger, a: Pubkey, g: Registrar)
    ensures Follows(LoadMaxOf(l, a, g), MaxChecks(l, a, g))
  {
    var checks := MaxChecks(l, a, g);
    var r := LoadMaxOf(l, a, g);
    if r.Err? {
      assert Explains(checks, 0, r.error) || Explains(checks, 1, r.error) || Explains(checks, 2, r.error)
             || Explains(checks, 3, r.error);
    }
  }

  lemma IdentityFollows(rt: Runtime, l: Ledger, identity: Option<Pubkey>, voter: Pubkey, g: Registrar)
    ensures Follows(CheckIdentity(rt, l, identity, voter, g), IdentityChecks(rt, l, identity, voter, g))
  {
    hide CheckIdentityData, EligibleData, TrustScore, LastVerification, Recent;
    IdentityDerivation(rt, voter);
    hide IdentityAddress;
    var data := if identity.Some? then DataOf(At(l, identity.value)) else DataOf(VACANT);
    VerdictExact(data, g.minTrustScore, g.maxVerificationAge, l.clock.unixTimestamp);
    var checks := IdentityChecks(rt, l, identity, voter, g);
    var r := CheckIdentity(rt, l, identity, voter, g);
    if r.Err? {
      assert Explains(checks, 0, r.error) || Explains(checks, 1, r.error) || Explains(checks, 2, r.error)
             || Explains(checks, 3, r.error) || Explains(checks, 4, r.error) || Explains(checks, 5, r.error);
    }
  }

  /** A result that is that of a part follows the part's requirements. */
  lemma Explained<T>(r: Result<T>, checks: Checks, part: Part)
    requires Follows(part.result, part.checks) && checks == part.checks
    requires (r.Ok? <==> part.result.Ok?) && (r.Err? ==> r.error == part.result.error)
    ensures Follows(r, checks)
  {
  }

  lemma CreateRegistrarFollows(rt: Runtime, l: Ledger, ix: Instruction)
    requires ix.CreateRegistrar?
    ensures Follows(Decide(rt, l, ix), Requirements(rt, l, ix))
  {
    hide CheckInit, CheckAuthority, InitChecks, AuthorityChecks, RealmAnswer, AddressOf, At, Performable;
    hide AllMet, Explains;
    InitFollows(rt, l, ix);
    RegistrarDerivation(rt, ix.realm, ix.mint);
    var handler :=
      Requiring(ix.registrar == rt.pda(PLUGIN_ID, Ascii("registrar") + ix.realm + ix.mint), ConstraintSeeds,
      InTurn(CheckInit(rt, l, ix.registrar, ix.payer, REGISTRAR_SPACE), InitChecks(rt, l, ix),
      Requiring(At(l, ix.governanceProgram).executable, ConstraintExecutable,
      Requiring(At(l, ix.realm).owner == ix.governanceProgram, ConstraintOwner,
      Requiring(ix.maxVerificationAge > 0, InvalidMaxVerificationAge,
      Authorized(rt, l, ix.governanceProgram, ix.realm, ix.mint, ix.realmAuthority))))));
    Explained(Decide(rt, l, ix), Requirements(rt, l, ix), handler);
  }

  lemma RegistrarChangeFollows(rt: Runtime, l: Ledger, ix: Instruction, g: Registrar)
    requires (ix.UpdateRegistrar? || ix.CloseRegistrar?) && LoadRegistrarAtSeeds(rt, l, ix.registrar) == Ok(g)
    ensures Follows(Decide(rt, l, ix), FurtherChecks(rt, l, ix, g))
  {
    hide CheckAuthority, AuthorityChecks, RealmAnswer, LoadRegistrarAtSeeds, Performable, AllMet, Explains;
    var authorized := Authorized(rt, l, g.governanceProgramId, ix.realm, g.governingTokenMint, ix.realmAuthority);
    if ix.UpdateRegistrar? {
      var handler := Requiring(ix.realm == g.realm, ConstraintRaw,
                     Requiring(ix.maxVerificationAge > 0, InvalidMaxVerificationAge, authorized));
      Explained(Decide(rt, l, ix), FurtherChecks(rt, l, ix, g), handler);
    } else {
      var handler := Requiring(ix.destination != ix.registrar, ConstraintClose,
                     Requiring(ix.realm == g.realm, ConstraintRaw, authorized));
      Explained(Decide(rt, l, ix), FurtherChecks(rt, l, ix, g), handler);
    }
  }

  lemma VoterFollows(rt: Runtime, l: Ledger, ix: Instruction, g: Registrar)
    requires ix.CreateVoter? || ix.UpdateVoter? || ix.CloseVoter?
    requires LoadRegistrarAtSeeds(rt, l, ix.registrar) == Ok(g)
    ensures Follows(Decide(rt, l, ix), FurtherChecks(rt, l, ix, g))
  {
    hide CheckInit, InitChecks, CheckIdentity, VoterChecks, IdentityChecks, LoadRegistrarAtSeeds, Performable;
    hide AllMet, Explains, AddressOf, LoadVoterOf;
    if ix.CreateVoter? {
      InitFollows(rt, l, ix);
      VoterDerivation(rt, g.realm, g.governingTokenMint, ix.owner);
      var handler :=
        Requiring(ix.record == VoterAddress(rt, g.realm, g.governingTokenMint, ix.owner), ConstraintSeeds,
        InTurn(CheckInit(rt, l, ix.record, ix.payer, VOTER_SPACE), InitChecks(rt, l, ix),
        Single(ix.ownerSigner == ix.owner, GoverningTokenOwnerSignerMismatch)));
      Explained(Decide(rt, l, ix), FurtherChecks(rt, l, ix, g), handler);
    } else if ix.UpdateVoter? {
      OwnVoterFollows(l, ix.record, g, ix.voter);
      IdentityFollows(rt, l, ix.identity, ix.voter, g);
      var identity := CheckIdentity(rt, l, ix.identity, ix.voter, g);
      var handler := InTurn(LoadOwnVoter(l, ix.record, g, ix.voter), VoterChecks(l, ix.record, g, ix.voter),
        Part(identity, IdentityChecks(rt, l, ix.identity, ix.voter, g)));
      Explained(Decide(rt, l, ix), FurtherChecks(rt, l, ix, g), handler);
    } else {
      OwnVoterFollows(l, ix.record, g, ix.voter);
      var handler := Requiring(ix.destination != ix.record, ConstraintClose,
        Part(Verdict(LoadOwnVoter(l, ix.record, g, ix.voter)), VoterChecks(l, ix.record, g, ix.voter)));
      Explained(Decide(rt, l, ix), FurtherChecks(rt, l, ix, g), handler);
    }
  }

  lemma MaxFollows(rt: Runtime, l: Ledger, ix: Instruction, g: Registrar)
    requires (ix.CreateMax? || ix.UpdateMax?) && LoadRegistrarAtSeeds(rt, l, ix.registrar) == Ok(g)
    ensures Follows(Decide(rt, l, ix), FurtherChecks(rt, l, ix, g))
  {
    hide CheckInit, InitChecks, CheckAuthority, AuthorityChecks, MaxChecks, RealmAnswer, LoadRegistrarAtSeeds;
    hide Performable, AllMet, Explains, AddressOf, LoadMax;
    var authorized := Authorized(rt, l, g.governanceProgramId, ix.realm, g.governingTokenMint, ix.realmAuthority);
    if ix.CreateMax? {
      InitFollows(rt, l, ix);
      MaxDerivation(rt, g.realm, g.governingTokenMint);
      var handler :=
        Requiring(ix.record == MaxAddress(rt, g.realm, g.governingTokenMint), ConstraintSeeds,
        InTurn(CheckInit(rt, l, ix.record, ix.payer, MAX_SPACE), InitChecks(rt, l, ix),
        Requiring(ix.realm == g.realm, ConstraintRaw, authorized)));
      Explained(Decide(rt, l, ix), FurtherChecks(rt, l, ix, g), handler);
    } else {
      OwnMaxFollows(l, ix.record, g);
      var handler := InTurn(LoadMaxOf(l, ix.record, g), MaxChecks(l, ix.record, g),
        Requiring(ix.realm == g.realm, ConstraintRaw,
        Requiring(ix.maxVoterWeight > 0, InvalidMaxVoterWeight, authorized)));
      Explained(Decide(rt, l, ix), FurtherChecks(rt, l, ix, g), handler);
    }
  }

  /** Without a registrar an instruction other than its creation fails as the loading does. */
  lemma NeedsRegistrar(rt: Runtime, l: Ledger, ix: Instruction)
    requires !ix.CreateRegistrar? && LoadRegistrarAtSeeds(rt, l, ix.registrar).Err?
    ensures Decide(rt, l, ix) == Err(LoadRegistrarAtSeeds(rt, l, ix.registrar).error)
  {
    hide LoadRegistrarAtSeeds, Performable;
  }

  lemma FurtherFollows(rt: Runtime, l: Ledger, ix: Instruction, g: Registrar)
    requires !ix.CreateRegistrar? && LoadRegistrarAtSeeds(rt, l, ix.registrar) == Ok(g)
    ensures Follows(Decide(rt, l, ix), FurtherChecks(rt, l, ix, g))
  {
    hide Decide, FurtherChecks, Follows, LoadRegistrarAtSeeds;
    if ix.UpdateRegistrar? || ix.CloseRegistrar? {
      RegistrarChangeFollows(rt, l, ix, g);
    } else if ix.CreateMax? || ix.UpdateMax? {
      MaxFollows(rt, l, ix, g);
    } else {
      VoterFollows(rt, l, ix, g);
    }
  }

  /**
   * No instruction blames the wrong thing. Each succeeds exactly when all its requirements are met, and otherwise
   * returns the error of the first one that is not.
   */
  lemma ErrorsAreJustified(rt: Runtime, l: Ledger, ix: Instruction)
    ensures Decide(rt, l, ix).Ok? <==> AllMet(Requirements(rt, l, ix))
    ensures Decide(rt, l, ix).Err? ==>
              exists k: nat :: Explains(Requirements(rt, l, ix), k, Decide(rt, l, ix).error)
  {
    hide Decide, FurtherChecks, RegistrarChecks, Explains;
    if ix.CreateRegistrar? {
      CreateRegistrarFollows(rt, l, ix);
    } else {
      var loaded := LoadRegistrarAtSeeds(rt, l, ix.registrar);
      RegistrarFollows(rt, l, ix.registrar);
      if loaded.Ok? {
        FurtherFollows(rt, l, ix, loaded.value);
      } else {
        NeedsRegistrar(rt, l, ix);
      }
      if At(l, ix.registrar).contents.RegistrarAccount? {
        var further := FurtherChecks(rt, l, ix, At(l, ix.registrar).contents.registrar);
        var handler := InTurn(loaded, RegistrarChecks(rt, l, ix.registrar), Part(Verdict(Decide(rt, l, ix)), further));
        Explained(Decide(rt, l, ix), Requirements(rt, l, ix), handler);
      }
    }
    FollowsExactly(Decide(rt, l, ix), Requirements(rt, l, ix));
  }

  /** A result that follows checks is an error exactly when some check is not met. */
  lemma FollowsExactly<T>(r: Result<T>, checks: Checks)
    requires Follows(r, checks)
    ensures r.Ok? <==> AllMet(checks)
  {
  }
}
