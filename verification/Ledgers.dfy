/** The plugin as a transition system over a ledger of typed accounts. */
module Ledgers {
  import opened Prelude
  import opened Bytes
  import opened Records
  import opened Addresses
  import opened Identity

  // ---- state ----

  datatype Clock = Clock(slot: u64, unixTimestamp: i64)

  /** What an account holds: one of the plugin's three types, or bytes the plugin attaches no type to. */
  datatype Contents =
    | RegistrarAccount(registrar: Registrar)
    | VoterAccount(voter: VoterWeightRecord)
    | MaxAccount(max: MaxVoterWeightRecord)
    | Raw(data: seq<byte>)

  datatype Account = Account(lamports: nat, owner: Pubkey, executable: bool, contents: Contents)

  datatype Ledger = Ledger(accounts: map<Pubkey, Account>, clock: Clock)

  /** An address that is not in use. */
  const VACANT: Account := Account(0, SYSTEM_ID, false, Raw([]))

  function At(l: Ledger, a: Pubkey): Account {
    if a in l.accounts then l.accounts[a] else VACANT
  }

  // ---- instructions and events ----

  /** The eight entry points, with the accounts the plugin looks at and the arguments. All named authorities signed. */
  datatype Instruction =
    | CreateRegistrar(registrar: Pubkey, governanceProgram: Pubkey, realm: Pubkey, mint: Pubkey,
                      realmAuthority: Pubkey, payer: Pubkey, minTrustScore: u16, maxVerificationAge: i64)
    | UpdateRegistrar(registrar: Pubkey, realm: Pubkey, realmAuthority: Pubkey,
                      minTrustScore: u16, maxVerificationAge: i64)
    | CloseRegistrar(registrar: Pubkey, realm: Pubkey, realmAuthority: Pubkey, destination: Pubkey)
    | CreateVoter(registrar: Pubkey, record: Pubkey, ownerSigner: Pubkey, payer: Pubkey, owner: Pubkey)
    | UpdateVoter(registrar: Pubkey, record: Pubkey, voter: Pubkey, identity: Option<Pubkey>)
    | CloseVoter(registrar: Pubkey, record: Pubkey, voter: Pubkey, destination: Pubkey)
    | CreateMax(registrar: Pubkey, record: Pubkey, realm: Pubkey, realmAuthority: Pubkey, payer: Pubkey)
    | UpdateMax(registrar: Pubkey, record: Pubkey, realm: Pubkey, realmAuthority: Pubkey, maxVoterWeight: u64)

  /**
   * What can happen to the ledger: an instruction of the plugin, or a move of its environment. The environment
   * advances the clock, moves lamports out of accounts that are not the plugin's, and turns any address that is not
   * reserved to the plugin into any account; one owned by the plugin it can only create zero-filled.
   */
  datatype Event =
    | Invoke(ix: Instruction)
    | AdvanceClock(slots: nat, unixTimestamp: i64)
    | SetForeign(address: Pubkey, owner: Pubkey, executable: bool, data: seq<byte>)
    | Transfer(source: Pubkey, destination: Pubkey, amount: nat)

  // ---- effects ----

  /** What a successful instruction does: `init`, a write to a `mut` account, or `close`. */
  datatype Effect =
    | Initialize(target: Pubkey, payer: Pubkey, space: nat, contents: Contents)
    | Overwrite(target: Pubkey, contents: Contents)
    | Release(target: Pubkey, destination: Pubkey)

  function Credit(l: Ledger, a: Pubkey, amount: nat): Ledger {
    l.(accounts := l.accounts[a := At(l, a).(lamports := At(l, a).lamports + amount)])
  }

  function Debit(l: Ledger, a: Pubkey, amount: nat): Ledger
    requires amount <= At(l, a).lamports
  {
    l.(accounts := l.accounts[a := At(l, a).(lamports := At(l, a).lamports - amount)])
  }

  /** What the payer of an `init` has to add to reach the deposit for the space. */
  function Shortfall(rt: Runtime, l: Ledger, target: Pubkey, space: nat): nat {
    if At(l, target).lamports >= rt.rent(space) then 0 else rt.rent(space) - At(l, target).lamports
  }

  /** An address is free for `init` when the system program still owns it and it has no data. */
  predicate Free(l: Ledger, target: Pubkey) {
    At(l, target).owner == SYSTEM_ID && At(l, target).contents == Raw([])
  }

  /** The payer can cover the deposit: a plain wallet other than the new account, with enough lamports. */
  predicate Funded(rt: Runtime, l: Ledger, target: Pubkey, payer: Pubkey, space: nat) {
    Shortfall(rt, l, target, space) > 0 ==>
      && payer != target
      && Free(l, payer)
      && Shortfall(rt, l, target, space) <= At(l, payer).lamports
  }

  predicate Performable(rt: Runtime, l: Ledger, effect: Effect) {
    match effect
    case Initialize(target, payer, space, _) => Free(l, target) && Funded(rt, l, target, payer, space)
    case Overwrite(target, _) => target in l.accounts
    case Release(target, destination) => target in l.accounts && destination != target
  }

  function Perform(rt: Runtime, l: Ledger, effect: Effect): Ledger
    requires Performable(rt, l, effect)
  {
    match effect
    case Initialize(target, payer, space, contents) =>
      var deposit := Shortfall(rt, l, target, space);
      var paid := if deposit == 0 then l else Debit(l, payer, deposit);
      paid.(accounts := paid.accounts[target := Account(At(l, target).lamports + deposit, PLUGIN_ID, false, contents)])
    case Overwrite(target, contents) =>
      l.(accounts := l.accounts[target := l.accounts[target].(contents := contents)])
    case Release(target, destination) =>
      Credit(l.(accounts := l.accounts - {target}), destination, l.accounts[target].lamports)
  }

  // ---- loading ----

  /** Loading an account as one of the plugin's types checks its owner and its kind. */
  function LoadRegistrar(l: Ledger, a: Pubkey): Result<Registrar> {
    var account := At(l, a);
    :- Need(account.owner == PLUGIN_ID, AccountOwnedByWrongProgram);
    :- Need(account.contents.RegistrarAccount?, AccountDiscriminatorMismatch);
    Ok(account.contents.registrar)
  }

  function LoadVoter(l: Ledger, a: Pubkey): Result<VoterWeightRecord> {
    var account := At(l, a);
    :- Need(account.owner == PLUGIN_ID, AccountOwnedByWrongProgram);
    :- Need(account.contents.VoterAccount?, AccountDiscriminatorMismatch);
    Ok(account.contents.voter)
  }

  function LoadMax(l: Ledger, a: Pubkey): Result<MaxVoterWeightRecord> {
    var account := At(l, a);
    :- Need(account.owner == PLUGIN_ID, AccountOwnedByWrongProgram);
    :- Need(account.contents.MaxAccount?, AccountDiscriminatorMismatch);
    Ok(account.contents.max)
  }

  function RegistrarAddress(rt: Runtime, realm: Pubkey, mint: Pubkey): Pubkey {
    AddressOf(rt, RegistrarSeeds(realm, mint))
  }

  function VoterAddress(rt: Runtime, realm: Pubkey, mint: Pubkey, owner: Pubkey): Pubkey {
    AddressOf(rt, VoterSeeds(realm, mint, owner))
  }

  function MaxAddress(rt: Runtime, realm: Pubkey, mint: Pubkey): Pubkey {
    AddressOf(rt, MaxSeeds(realm, mint))
  }

  function IdentityAddress(rt: Runtime, wallet: Pubkey): Pubkey {
    AddressOf(rt, IdentitySeeds(wallet))
  }

  /** The registrar account of seven instructions: it must sit at the address derived from its own fields. */
  function LoadRegistrarAtSeeds(rt: Runtime, l: Ledger, a: Pubkey): Result<Registrar> {
    var g :- LoadRegistrar(l, a);
    :- Need(a == RegistrarAddress(rt, g.realm, g.governingTokenMint), ConstraintSeeds);
    Ok(g)
  }

  function CheckInit(rt: Runtime, l: Ledger, target: Pubkey, payer: Pubkey, space: nat): Result<()> {
    var free := Free(l, target);
    :- Need(free, AccountAlreadyInUse);
    :- Need(Funded(rt, l, target, payer, space), InsufficientFunds);
    Ok(())
  }

  /** The realm reader, applied to an account of the ledger. */
  function ReadRealm(rt: Runtime, l: Ledger, program: Pubkey, realm: Pubkey, mint: Pubkey): RealmLookup {
    match At(l, realm).contents
    case Raw(data) => rt.realmOf(program, At(l, realm).owner, data, mint)
    case _ => Rejected
  }

  function CheckAuthority(rt: Runtime, l: Ledger, program: Pubkey, realm: Pubkey, mint: Pubkey, authority: Pubkey)
    : Result<()>
  {
    match ReadRealm(rt, l, program, realm, mint)
    case Rejected => Err(RealmRejected)
    case Found(None) => Err(RealmHasNoAuthority)
    case Found(Some(k)) => if k == authority then Ok(()) else Err(InvalidRealmAuthority)
  }

  /** The bytes of an account that does not hold one of the plugin's types. */
  function DataOf(account: Account): seq<byte> {
    if account.contents.Raw? then account.contents.data else []
  }

  // ---- the eight handlers ----

  function NewVoter(realm: Pubkey, mint: Pubkey, owner: Pubkey): VoterWeightRecord {
    VoterWeightRecord(VOTER_DISCRIMINATOR, realm, mint, owner, 0, Some(0), None, None, Zeros(8))
  }

  function NewMax(realm: Pubkey, mint: Pubkey): MaxVoterWeightRecord {
    MaxVoterWeightRecord(MAX_DISCRIMINATOR, realm, mint, 0, Some(0), Zeros(8))
  }

  function Refreshed(v: VoterWeightRecord, slot: u64): VoterWeightRecord {
    v.(voterWeight := 1, voterWeightExpiry := Some(ExpiryFor(slot)), weightAction := None, weightActionTarget := None)
  }

  function DecideCreateRegistrar(rt: Runtime, l: Ledger, ix: Instruction): (r: Result<Effect>)
    requires ix.CreateRegistrar?
    ensures r.Ok? ==> Performable(rt, l, r.value) && r.value.target == Target(ix)
  {
    var address := RegistrarAddress(rt, ix.realm, ix.mint);
    :- Need(ix.registrar == address, ConstraintSeeds);
    var _ :- CheckInit(rt, l, ix.registrar, ix.payer, REGISTRAR_SPACE);
    :- Need(At(l, ix.governanceProgram).executable, ConstraintExecutable);
    :- Need(At(l, ix.realm).owner == ix.governanceProgram, ConstraintOwner);
    :- Need(ix.maxVerificationAge > 0, InvalidMaxVerificationAge);
    var _ :- CheckAuthority(rt, l, ix.governanceProgram, ix.realm, ix.mint, ix.realmAuthority);
    Ok(Initialize(ix.registrar, ix.payer, REGISTRAR_SPACE, RegistrarAccount(
      Registrar(ix.governanceProgram, ix.realm, ix.mint, ix.minTrustScore, ix.maxVerificationAge, Zeros(64)))))
  }

  function DecideUpdateRegistrar(rt: Runtime, l: Ledger, ix: Instruction): (r: Result<Effect>)
    requires ix.UpdateRegistrar?
    ensures r.Ok? ==> Performable(rt, l, r.value) && r.value.target == Target(ix)
  {
    var g :- LoadRegistrarAtSeeds(rt, l, ix.registrar);
    :- Need(ix.realm == g.realm, ConstraintRaw);
    :- Need(ix.maxVerificationAge > 0, InvalidMaxVerificationAge);
    var _ :- CheckAuthority(rt, l, g.governanceProgramId, ix.realm, g.governingTokenMint, ix.realmAuthority);
    Ok(Overwrite(ix.registrar, RegistrarAccount(
      g.(minTrustScore := ix.minTrustScore, maxVerificationAge := ix.maxVerificationAge))))
  }

  function DecideCloseRegistrar(rt: Runtime, l: Ledger, ix: Instruction): (r: Result<Effect>)
    requires ix.CloseRegistrar?
    ensures r.Ok? ==> Performable(rt, l, r.value) && r.value.target == Target(ix)
  {
    var g :- LoadRegistrarAtSeeds(rt, l, ix.registrar);
    :- Need(ix.destination != ix.registrar, ConstraintClose);
    :- Need(ix.realm == g.realm, ConstraintRaw);
    var _ :- CheckAuthority(rt, l, g.governanceProgramId, ix.realm, g.governingTokenMint, ix.realmAuthority);
    Ok(Release(ix.registrar, ix.destination))
  }

  function DecideCreateVoter(rt: Runtime, l: Ledger, ix: Instruction): (r: Result<Effect>)
    requires ix.CreateVoter?
    ensures r.Ok? ==> Performable(rt, l, r.value) && r.value.target == Target(ix)
  {
    var g :- LoadRegistrarAtSeeds(rt, l, ix.registrar);
    :- Need(ix.record == VoterAddress(rt, g.realm, g.governingTokenMint, ix.owner), ConstraintSeeds);
    var _ :- CheckInit(rt, l, ix.record, ix.payer, VOTER_SPACE);
    :- Need(ix.ownerSigner == ix.owner, GoverningTokenOwnerSignerMismatch);
    Ok(Initialize(ix.record, ix.payer, VOTER_SPACE, VoterAccount(NewVoter(g.realm, g.governingTokenMint, ix.owner))))
  }

  /** The two constraints that tie a voter record to the registrar, shared by update and close. */
  function LoadVoterOf(l: Ledger, a: Pubkey, g: Registrar): Result<VoterWeightRecord> {
    var v :- LoadVoter(l, a);
    :- Need(v.realm == g.realm, VoterWeightRecordRealmMismatch);
    :- Need(v.governingTokenMint == g.governingTokenMint, VoterWeightRecordMintMismatch);
    Ok(v)
  }

  function CheckIdentity(rt: Runtime, l: Ledger, identity: Option<Pubkey>, voter: Pubkey, g: Registrar): Result<()> {
    var given := identity.Some?;
    :- Need(given, MissingIdentityAccount);
    :- Need(At(l, identity.value).owner == ENTROS_ID, InvalidIdentityOwner);
    :- Need(identity.value == IdentityAddress(rt, voter), InvalidIdentityPda);
    CheckIdentityData(DataOf(At(l, identity.value)), g.minTrustScore, g.maxVerificationAge, l.clock.unixTimestamp)
  }

  function DecideUpdateVoter(rt: Runtime, l: Ledger, ix: Instruction): (r: Result<Effect>)
    requires ix.UpdateVoter?
    ensures r.Ok? ==> Performable(rt, l, r.value) && r.value.target == Target(ix)
  {
    var g :- LoadRegistrarAtSeeds(rt, l, ix.registrar);
    var v :- LoadVoterOf(l, ix.record, g);
    :- Need(v.governingTokenOwner == ix.voter, VoterWeightRecordOwnerMismatch);
    var _ :- CheckIdentity(rt, l, ix.identity, ix.voter, g);
    Ok(Overwrite(ix.record, VoterAccount(Refreshed(v, l.clock.slot))))
  }

  function DecideCloseVoter(rt: Runtime, l: Ledger, ix: Instruction): (r: Result<Effect>)
    requires ix.CloseVoter?
    ensures r.Ok? ==> Performable(rt, l, r.value) && r.value.target == Target(ix)
  {
    var g :- LoadRegistrarAtSeeds(rt, l, ix.registrar);
    :- Need(ix.destination != ix.record, ConstraintClose);
    var v :- LoadVoterOf(l, ix.record, g);
    :- Need(v.governingTokenOwner == ix.voter, VoterWeightRecordOwnerMismatch);
    Ok(Release(ix.record, ix.destination))
  }

  function DecideCreateMax(rt: Runtime, l: Ledger, ix: Instruction): (r: Result<Effect>)
    requires ix.CreateMax?
    ensures r.Ok? ==> Performable(rt, l, r.value) && r.value.target == Target(ix)
  {
    var g :- LoadRegistrarAtSeeds(rt, l, ix.registrar);
    :- Need(ix.record == MaxAddress(rt, g.realm, g.governingTokenMint), ConstraintSeeds);
    var _ :- CheckInit(rt, l, ix.record, ix.payer, MAX_SPACE);
    :- Need(ix.realm == g.realm, ConstraintRaw);
    var _ :- CheckAuthority(rt, l, g.governanceProgramId, ix.realm, g.governingTokenMint, ix.realmAuthority);
    Ok(Initialize(ix.record, ix.payer, MAX_SPACE, MaxAccount(NewMax(g.realm, g.governingTokenMint))))
  }

  function DecideUpdateMax(rt: Runtime, l: Ledger, ix: Instruction): (r: Result<Effect>)
    requires ix.UpdateMax?
    ensures r.Ok? ==> Performable(rt, l, r.value) && r.value.target == Target(ix)
  {
    var g :- LoadRegistrarAtSeeds(rt, l, ix.registrar);
    var m :- LoadMax(l, ix.record);
    :- Need(m.realm == g.realm, ConstraintRaw);
    :- Need(m.governingTokenMint == g.governingTokenMint, ConstraintRaw);
    :- Need(ix.realm == g.realm, ConstraintRaw);
    :- Need(ix.maxVoterWeight > 0, InvalidMaxVoterWeight);
    var _ :- CheckAuthority(rt, l, g.governanceProgramId, ix.realm, g.governingTokenMint, ix.realmAuthority);
    Ok(Overwrite(ix.record, MaxAccount(m.(maxVoterWeight := ix.maxVoterWeight, maxVoterWeightExpiry := None))))
  }

  /** What an instruction would do to the ledger, or the error it returns. */
  function Decide(rt: Runtime, l: Ledger, ix: Instruction): (r: Result<Effect>)
    ensures r.Ok? ==> Performable(rt, l, r.value) && r.value.target == Target(ix)
    ensures r.Ok? ==> (r.value.Initialize? <==> IsCreate(ix))
  {
    match ix
    case CreateRegistrar(_, _, _, _, _, _, _, _) => DecideCreateRegistrar(rt, l, ix)
    case UpdateRegistrar(_, _, _, _, _) => DecideUpdateRegistrar(rt, l, ix)
    case CloseRegistrar(_, _, _, _) => DecideCloseRegistrar(rt, l, ix)
    case CreateVoter(_, _, _, _, _) => DecideCreateVoter(rt, l, ix)
    case UpdateVoter(_, _, _, _) => DecideUpdateVoter(rt, l, ix)
    case CloseVoter(_, _, _, _) => DecideCloseVoter(rt, l, ix)
    case CreateMax(_, _, _, _, _) => DecideCreateMax(rt, l, ix)
    case UpdateMax(_, _, _, _, _) => DecideUpdateMax(rt, l, ix)
  }

  /** The account an instruction writes. */
  function Target(ix: Instruction): Pubkey {
    if ix.CreateRegistrar? || ix.UpdateRegistrar? || ix.CloseRegistrar? then ix.registrar else ix.record
  }

  predicate IsCreate(ix: Instruction) {
    ix.CreateRegistrar? || ix.CreateVoter? || ix.CreateMax?
  }

  /** The `space` of a create instruction. */
  function SpaceFor(ix: Instruction): nat {
    if ix.CreateRegistrar? then REGISTRAR_SPACE else if ix.CreateVoter? then VOTER_SPACE else MAX_SPACE
  }

  // ---- steps and runs ----

  /** One event: the next ledger, or the reason it does not happen. */
  function Apply(rt: Runtime, l: Ledger, e: Event): Result<Ledger> {
    match e
    case Invoke(ix) =>
      var effect :- Decide(rt, l, ix);
      Ok(Perform(rt, l, effect))
    case AdvanceClock(slots, unixTimestamp) =>
      :- Need(l.clock.slot + slots <= U64_MAX, NotPermitted);
      Ok(l.(clock := Clock(l.clock.slot + slots, unixTimestamp)))
    case SetForeign(address, owner, executable, data) =>
      :- Need(!rt.reserved(address) && (owner == PLUGIN_ID ==> AllZero(data)), NotPermitted);
      Ok(l.(accounts := l.accounts[address := Account(At(l, address).lamports, owner, executable, Raw(data))]))
    case Transfer(source, destination, amount) =>
      :- Need(At(l, source).owner != PLUGIN_ID && amount <= At(l, source).lamports, NotPermitted);
      Ok(Credit(Debit(l, source, amount), destination, amount))
  }

  /** A rejected event leaves the ledger as it was: the runtime rolls a failing instruction back. */
  function Step(rt: Runtime, l: Ledger, e: Event): Ledger {
    match Apply(rt, l, e)
    case Ok(next) => next
    case Err(_) => l
  }

  /** What the sender of an event is told. */
  function Answer(rt: Runtime, l: Ledger, e: Event): Result<()> {
    match Apply(rt, l, e)
    case Ok(_) => Ok(())
    case Err(error) => Err(error)
  }

  function Run(rt: Runtime, l: Ledger, es: seq<Event>): Ledger {
    if es == [] then l else Step(rt, Run(rt, l, es[..|es| - 1]), es[|es| - 1])
  }

  /** What the sender of event `i` of a run is told. */
  function AnswerAt(rt: Runtime, l: Ledger, es: seq<Event>, i: nat): Result<()>
    requires i < |es|
  {
    Answer(rt, Run(rt, l, es[..i]), es[i])
  }

  predicate Succeeds(rt: Runtime, l: Ledger, e: Event) {
    Apply(rt, l, e).Ok?
  }

  lemma RunAppend(rt: Runtime, l: Ledger, es: seq<Event>, e: Event)
    ensures Run(rt, l, es + [e]) == Step(rt, Run(rt, l, es), e)
  {
    assert (es + [e])[..|es + [e]| - 1] == es;
  }

  /** The ledger after `n + 1` events is the ledger after `n`, stepped once. */
  lemma RunPrefix(rt: Runtime, l: Ledger, es: seq<Event>, n: nat)
    requires n < |es|
    ensures Run(rt, l, es[..n + 1]) == Step(rt, Run(rt, l, es[..n]), es[n])
  {
    assert es[..n + 1][..|es[..n + 1]| - 1] == es[..n];
  }

  /** A ledger on which the plugin has not acted yet: no typed accounts, and nothing at its reserved addresses. */
  ghost predicate Genesis(rt: Runtime, l: Ledger) {
    forall a :: At(l, a).contents.Raw? && Untyped(rt, a, At(l, a))
  }

  /**
   * What is known of an account without one of the plugin's types: if the plugin owns it, it is zero-filled, and at
   * a reserved address there is at most an empty system account.
   */
  predicate Untyped(rt: Runtime, a: Pubkey, account: Account)
    requires account.contents.Raw?
  {
    && (account.owner == PLUGIN_ID ==> AllZero(account.contents.data))
    && (rt.reserved(a) ==> account == VACANT.(lamports := account.lamports))
  }
}
