/** The plugin as it runs: accounts are byte buffers that the handlers load, change and write back in place. */
module Validator {
  import opened Prelude
  import opened Bytes
  import opened Records
  import opened Addresses
  import opened Identity
  import opened Ledgers
  import opened Entrypoint
  import opened Buffers
  import opened Storage

  datatype Stored = Stored(lamports: nat, owner: Pubkey, executable: bool, data: array<byte>)

  /** The answer and the new ledger are those of the typed transition system. */
  ghost predicate Agrees(rt: Runtime, before: Ledger, after: Ledger, r: Result<()>, e: Event) {
    r == Answer(rt, before, e) && after == Step(rt, before, e)
  }

  class Validator {
    const rt: Runtime
    var accounts: map<Pubkey, Stored>
    var clock: Clock

    ghost function Buffers(): set<array<byte>>
      reads this
    {
      set a | a in accounts :: accounts[a].data
    }

    /** No two accounts share a buffer, and every typed account's buffer has its type's size. */
    ghost predicate Valid()
      reads this, Buffers()
    {
      && Sound(rt)
      && (forall a, b :: a in accounts && b in accounts && a != b ==> accounts[a].data != accounts[b].data)
      && (forall a :: a in accounts ==> Sized(accounts[a].owner, accounts[a].data[..]))
    }

    /** The typed ledger that the buffers stand for. */
    ghost function Typed(): Ledger
      reads this, Buffers()
    {
      Ledger(map a | a in accounts ::
               Interpret(accounts[a].lamports, accounts[a].owner, accounts[a].executable, accounts[a].data[..]), clock)
    }

    /** The buffers of a ledger on which the plugin has not acted yet. */
    constructor (rt: Runtime, genesis: Ledger)
      requires Sound(rt) && Genesis(rt, genesis)
      ensures Valid() && this.rt == rt && fresh(Buffers()) && Typed() == genesis
    {
      this.rt := rt;
      accounts, clock := map[], genesis.clock;
      new;
      assert Typed().accounts == map[];
      InstallAll(genesis);
    }

    /** Put the accounts of a genesis into an empty ledger. */
    method InstallAll(genesis: Ledger)
      requires Valid() && Genesis(rt, genesis) && Typed() == genesis.(accounts := map[]) && Buffers() == {}
      modifies this
      ensures Valid() && fresh(Buffers()) && Typed() == genesis
    {
      hide Typed, Valid, Genesis;
      var pending := genesis.accounts.Keys;
      AllPending(genesis.accounts);
      while pending != {}
        invariant pending <= genesis.accounts.Keys
        invariant Valid() && fresh(Buffers())
        invariant Typed() == genesis.(accounts := genesis.accounts - pending)
        decreases |pending|
      {
        var a :| a in pending;
        var account := genesis.accounts[a];
        GenesisAccount(rt, genesis, a);
        Install(a, account.lamports, account.owner, account.executable, account.contents.data);
        OneLess(genesis.accounts, pending, a);
        pending := pending - {a};
      }
    }

    /** Put an account that is not the plugin's, or is zero-filled, at an address. */
    method Install(a: Pubkey, lamports: nat, owner: Pubkey, executable: bool, data: seq<byte>)
      requires Valid() && (owner == PLUGIN_ID ==> AllZero(data))
      modifies this
      ensures Valid() && fresh(Buffers() - old(Buffers())) && clock == old(clock)
      ensures Typed() == old(Typed()).(accounts :=
                old(Typed()).accounts[a := Account(lamports, owner, executable, Raw(data))])
    {
      hide ContentsOf, Classify, Sized, Sound, Typed, Interpret;
      var buffer := NewBuffer(data);
      UntypedReading(lamports, owner, executable, data);
      Put(a, Stored(lamports, owner, executable, buffer));
    }

    // ---- the runtime's primitives ----

    function LamportsAt(a: Pubkey): (n: nat)
      reads this, Buffers()
      ensures n == At(Typed(), a).lamports
    {
      if a in accounts then accounts[a].lamports else 0
    }

    function OwnerOf(a: Pubkey): (k: Pubkey)
      reads this, Buffers()
      ensures k == At(Typed(), a).owner
    {
      if a in accounts then accounts[a].owner else SYSTEM_ID
    }

    function IsExecutable(a: Pubkey): (b: bool)
      reads this, Buffers()
      ensures b == At(Typed(), a).executable
    {
      a in accounts && accounts[a].executable
    }

    function BytesAt(a: Pubkey): (data: seq<byte>)
      reads this, Buffers()
      ensures At(Typed(), a).contents == ContentsOf(OwnerOf(a), data)
    {
      ProgramIdsDiffer();
      if a in accounts then accounts[a].data[..] else []
    }

    /** `Clock::get()`. */
    function GetClock(): (c: Clock)
      reads this, Buffers()
      ensures c == Typed().clock
    {
      clock
    }

    function IsFree(a: Pubkey): (b: bool)
      reads this, Buffers()
      ensures b == Free(Typed(), a)
    {
      ProgramIdsDiffer();
      OwnerOf(a) == SYSTEM_ID && BytesAt(a) == []
    }

    /** The account that a stored one stands for. */
    ghost function Reading(s: Stored): Account
      reads s.data
    {
      Interpret(s.lamports, s.owner, s.executable, s.data[..])
    }

    /** Replace one account, whose buffer nobody else uses. */
    method Put(a: Pubkey, s: Stored)
      requires Valid() && Sized(s.owner, s.data[..])
      requires forall b :: b in accounts && b != a ==> accounts[b].data != s.data
      modifies this
      ensures Valid() && accounts == old(accounts)[a := s] && clock == old(clock)
      ensures Typed() == old(Typed()).(accounts := old(Typed()).accounts[a := old(Reading(s))])
    {
      hide ContentsOf, Classify, Sized, Zeros, Sound;
      accounts := accounts[a := s];
      assert Typed().accounts == old(Typed()).accounts[a := old(Reading(s))];
    }

    /** Change an account's balance only. */
    method SetLamports(a: Pubkey, lamports: nat)
      requires Valid()
      modifies this
      ensures Valid() && fresh(Buffers() - old(Buffers())) && clock == old(clock)
      ensures Typed() == old(Typed()).(accounts :=
                old(Typed()).accounts[a := At(old(Typed()), a).(lamports := lamports)])
    {
      hide ContentsOf, Classify, Sized, Zeros, Sound;
      if a in accounts {
        Put(a, accounts[a].(lamports := lamports));
      } else {
        ProgramIdsDiffer();
        Install(a, lamports, SYSTEM_ID, false, []);
      }
    }

    /** The payer tops an address up to the deposit for the space. */
    method PayDeposit(target: Pubkey, payer: Pubkey, space: nat) returns (balance: nat)
      requires Valid() && Funded(rt, Typed(), target, payer, space)
      modifies this
      ensures Valid() && fresh(Buffers() - old(Buffers()))
      ensures var deposit := Shortfall(rt, old(Typed()), target, space);
              balance == At(old(Typed()), target).lamports + deposit
              && Typed() == if deposit == 0 then old(Typed()) else Debit(old(Typed()), payer, deposit)
    {
      hide Typed, Valid, Free;
      balance := LamportsAt(target);
      if balance < rt.rent(space) {
        SetLamports(payer, LamportsAt(payer) - (rt.rent(space) - balance));
        balance := rt.rent(space);
      }
    }

    /** `create_account`: with the deposit paid, the address gets a zero-filled buffer. */
    method Allocate(target: Pubkey, payer: Pubkey, space: nat)
      requires Valid() && Free(Typed(), target) && Funded(rt, Typed(), target, payer, space)
      modifies this
      ensures Valid() && fresh(Buffers() - old(Buffers()))
      ensures Typed() == Perform(rt, old(Typed()), Initialize(target, payer, space, Raw(Zeros(space))))
      ensures target in accounts && accounts[target].owner == PLUGIN_ID && accounts[target].data[..] == Zeros(space)
    {
      hide ContentsOf, Classify, Sized, Sound, Typed, Interpret, Performable, Funded, Free, Valid, Debit, Shortfall;
      var balance := PayDeposit(target, payer, space);
      var data := NewBuffer(Zeros(space));
      UntypedReading(balance, PLUGIN_ID, false, Zeros(space));
      Put(target, Stored(balance, PLUGIN_ID, false, data));
    }

    /** `close`: the account's lamports go to the destination and the account is gone. */
    method Deallocate(target: Pubkey, destination: Pubkey)
      requires Valid() && target in Typed().accounts && destination != target
      modifies this
      ensures Valid() && fresh(Buffers() - old(Buffers()))
      ensures Typed() == Perform(rt, old(Typed()), Release(target, destination))
    {
      hide Typed, Valid;
      var amount := LamportsAt(target);
      Remove(target);
      SetLamports(destination, LamportsAt(destination) + amount);
    }

    method Remove(a: Pubkey)
      requires Valid()
      modifies this
      ensures Valid() && accounts == old(accounts) - {a} && clock == old(clock)
      ensures Typed() == old(Typed()).(accounts := old(Typed()).accounts - {a})
    {
      hide ContentsOf, Classify, Sized, Zeros, Sound;
      accounts := accounts - {a};
      assert Typed().accounts == old(Typed()).accounts - {a};
    }

    // ---- loading and storing the plugin's accounts ----

    method LoadRegistrar(a: Pubkey) returns (r: Result<Registrar>)
      requires Valid()
      ensures r == Ledgers.LoadRegistrar(Typed(), a)
    {
      hide TakeRegistrar, TakeVoter, TakeMax, Zeros, Sized;
      if OwnerOf(a) != PLUGIN_ID { return Err(AccountOwnedByWrongProgram); }
      ProgramIdsDiffer();
      var data := accounts[a].data;
      if !rt.admits(REGISTRAR_DISCRIMINATOR, data[..]) { return Err(AccountDiscriminatorMismatch); }
      var g := DeserializeRegistrar(data);
      r := if g.Some? then Ok(g.value) else Err(AccountDiscriminatorMismatch);
    }

    method LoadVoter(a: Pubkey) returns (r: Result<VoterWeightRecord>)
      requires Valid()
      ensures r == Ledgers.LoadVoter(Typed(), a)
      ensures r.Ok? ==> r.value.accountDiscriminator == VOTER_DISCRIMINATOR
    {
      hide TakeRegistrar, TakeVoter, TakeMax, Zeros, Sized;
      if OwnerOf(a) != PLUGIN_ID { return Err(AccountOwnedByWrongProgram); }
      ProgramIdsDiffer();
      DiscriminatorsDiffer();
      var data := accounts[a].data;
      FieldIsDiscriminator(data[..]);
      if !rt.admits(VOTER_DISCRIMINATOR, data[..]) { return Err(AccountDiscriminatorMismatch); }
      var v := DeserializeVoter(data);
      r := if v.Some? then Ok(v.value) else Err(AccountDiscriminatorMismatch);
    }

    method LoadMax(a: Pubkey) returns (r: Result<MaxVoterWeightRecord>)
      requires Valid()
      ensures r == Ledgers.LoadMax(Typed(), a)
      ensures r.Ok? ==> r.value.accountDiscriminator == MAX_DISCRIMINATOR
    {
      hide TakeRegistrar, TakeVoter, TakeMax, Zeros, Sized;
      if OwnerOf(a) != PLUGIN_ID { return Err(AccountOwnedByWrongProgram); }
      ProgramIdsDiffer();
      DiscriminatorsDiffer();
      var data := accounts[a].data;
      FieldIsDiscriminator(data[..]);
      if !rt.admits(MAX_DISCRIMINATOR, data[..]) { return Err(AccountDiscriminatorMismatch); }
      var m := DeserializeMax(data);
      r := if m.Some? then Ok(m.value) else Err(AccountDiscriminatorMismatch);
    }

    /** Only the buffer of `a` was written, and it now holds `contents`. */
    twostate predicate Stores(a: Pubkey, contents: Contents)
      reads this, Buffers()
    {
      && accounts == old(accounts) && clock == old(clock) && a in old(Typed()).accounts
      && Typed() == old(Typed()).(accounts :=
           old(Typed()).accounts[a := old(Typed()).accounts[a].(contents := contents)])
    }

    method StoreVoter(a: Pubkey, v: VoterWeightRecord)
      requires Valid() && a in accounts && accounts[a].owner == PLUGIN_ID
      requires accounts[a].data.Length == VOTER_SPACE && v.accountDiscriminator == VOTER_DISCRIMINATOR
      modifies accounts[a].data
      ensures Valid() && Stores(a, VoterAccount(v))
    {
      hide ContentsOf, Classify, Sized, Overlay, EncodeVoter, EncodeMax, EncodeRegistrar, Zeros, Sound;
      StoredVoter(accounts[a].data[..], v);
      SerializeVoter(v, accounts[a].data);
      assert Typed().accounts == old(Typed()).accounts[a := old(Typed()).accounts[a].(contents := VoterAccount(v))];
    }

    method StoreMax(a: Pubkey, m: MaxVoterWeightRecord)
      requires Valid() && a in accounts && accounts[a].owner == PLUGIN_ID
      requires accounts[a].data.Length == MAX_SPACE && m.accountDiscriminator == MAX_DISCRIMINATOR
      modifies accounts[a].data
      ensures Valid() && Stores(a, MaxAccount(m))
    {
      hide ContentsOf, Classify, Sized, Overlay, EncodeVoter, EncodeMax, EncodeRegistrar, Zeros, Sound;
      StoredMax(accounts[a].data[..], m);
      SerializeMax(m, accounts[a].data);
      assert Typed().accounts == old(Typed()).accounts[a := old(Typed()).accounts[a].(contents := MaxAccount(m))];
    }

    method StoreRegistrar(a: Pubkey, g: Registrar)
      requires Valid() && a in accounts && accounts[a].owner == PLUGIN_ID
      requires accounts[a].data.Length == REGISTRAR_SPACE
      modifies accounts[a].data
      ensures Valid() && Stores(a, RegistrarAccount(g))
    {
      hide ContentsOf, Classify, Sized, Overlay, EncodeVoter, EncodeMax, EncodeRegistrar, Zeros, Sound;
      StoredRegistrar(g);
      SerializeRegistrar(g, accounts[a].data);
      assert Typed().accounts == old(Typed()).accounts[a := old(Typed()).accounts[a].(contents := RegistrarAccount(g))];
    }

    // ---- checks the handlers share ----

    method CheckInit(target: Pubkey, payer: Pubkey, space: nat) returns (r: Result<()>)
      requires Valid()
      ensures r == Ledgers.CheckInit(rt, Typed(), target, payer, space)
    {
      if !IsFree(target) { return Err(AccountAlreadyInUse); }
      var held := LamportsAt(target);
      if held < rt.rent(space) {
        var deposit := rt.rent(space) - held;
        if payer == target || !IsFree(payer) || LamportsAt(payer) < deposit { return Err(InsufficientFunds); }
      }
      r := Ok(());
    }

    method CheckAuthority(program: Pubkey, realm: Pubkey, mint: Pubkey, authority: Pubkey) returns (r: Result<()>)
      requires Valid()
      ensures r == Ledgers.CheckAuthority(rt, Typed(), program, realm, mint, authority)
    {
      var answer := rt.realmOf(program, OwnerOf(realm), BytesAt(realm), mint);
      if answer.Rejected? { return Err(RealmRejected); }
      if answer.authority.None? { return Err(RealmHasNoAuthority); }
      r := if answer.authority.value == authority then Ok(()) else Err(InvalidRealmAuthority);
    }

    method LoadRegistrarAtSeeds(a: Pubkey) returns (r: Result<Registrar>)
      requires Valid()
      ensures r == Ledgers.LoadRegistrarAtSeeds(rt, Typed(), a)
    {
      r := LoadRegistrar(a);
      if r.Ok? && a != RegistrarAddress(rt, r.value.realm, r.value.governingTokenMint) {
        return Err(ConstraintSeeds);
      }
    }

    method LoadVoterOf(a: Pubkey, g: Registrar) returns (r: Result<VoterWeightRecord>)
      requires Valid()
      ensures r == Ledgers.LoadVoterOf(Typed(), a, g)
      ensures r.Ok? ==> r.value.accountDiscriminator == VOTER_DISCRIMINATOR
    {
      r := LoadVoter(a);
      if r.Ok? && r.value.realm != g.realm {
        return Err(VoterWeightRecordRealmMismatch);
      }
      if r.Ok? && r.value.governingTokenMint != g.governingTokenMint {
        return Err(VoterWeightRecordMintMismatch);
      }
    }

    /** The raw read of the identity account, at fixed offsets of its buffer. */
    method CheckIdentity(identity: Option<Pubkey>, voter: Pubkey, g: Registrar) returns (r: Result<()>)
      requires Valid()
      ensures r == Ledgers.CheckIdentity(rt, Typed(), identity, voter, g)
    {
      ProgramIdsDiffer();
      if identity.None? { return Err(MissingIdentityAccount); }
      if OwnerOf(identity.value) != ENTROS_ID { return Err(InvalidIdentityOwner); }
      if identity.value != IdentityAddress(rt, voter) { return Err(InvalidIdentityPda); }
      var now := GetClock();
      r := CheckIdentityBuffer(accounts[identity.value].data, g.minTrustScore, g.maxVerificationAge, now.unixTimestamp);
    }

    // ---- writing back ----

    /** Write a loaded record back: its kind and hence the size of its buffer are known. */
    method RewriteRegistrar(a: Pubkey, record: Registrar)
      requires Valid() && At(Typed(), a).owner == PLUGIN_ID && At(Typed(), a).contents.RegistrarAccount?
      modifies Buffers()
      ensures Valid() && Buffers() == old(Buffers()) && a in old(Typed()).accounts
      ensures Typed() == Perform(rt, old(Typed()), Overwrite(a, RegistrarAccount(record)))
    {
      ProgramIdsDiffer();
      StoreRegistrar(a, record);
    }

    /** Write a loaded record back: its kind and hence the size of its buffer are known. */
    method RewriteVoter(a: Pubkey, record: VoterWeightRecord)
      requires Valid() && At(Typed(), a).owner == PLUGIN_ID && At(Typed(), a).contents.VoterAccount?
      requires record.accountDiscriminator == VOTER_DISCRIMINATOR
      modifies Buffers()
      ensures Valid() && Buffers() == old(Buffers()) && a in old(Typed()).accounts
      ensures Typed() == Perform(rt, old(Typed()), Overwrite(a, VoterAccount(record)))
    {
      ProgramIdsDiffer();
      StoreVoter(a, record);
    }

    /** Write a loaded record back: its kind and hence the size of its buffer are known. */
    method RewriteMax(a: Pubkey, record: MaxVoterWeightRecord)
      requires Valid() && At(Typed(), a).owner == PLUGIN_ID && At(Typed(), a).contents.MaxAccount?
      requires record.accountDiscriminator == MAX_DISCRIMINATOR
      modifies Buffers()
      ensures Valid() && Buffers() == old(Buffers()) && a in old(Typed()).accounts
      ensures Typed() == Perform(rt, old(Typed()), Overwrite(a, MaxAccount(record)))
    {
      ProgramIdsDiffer();
      StoreMax(a, record);
    }

    // ---- what the create handlers write ----

    /** `init`, then the assignments of the handler on the record it loads from the fresh buffer. */
    method InitializeRegistrar(target: Pubkey, payer: Pubkey, governanceProgram: Pubkey, realm: Pubkey, mint: Pubkey,
                              minTrustScore: u16, maxVerificationAge: i64)
      requires Valid() && Free(Typed(), target) && Funded(rt, Typed(), target, payer, REGISTRAR_SPACE)
      modifies this, Buffers()
      ensures Valid() && fresh(Buffers() - old(Buffers()))
      ensures Typed() == Perform(rt, old(Typed()), Initialize(target, payer, REGISTRAR_SPACE,
                RegistrarAccount(
                  Registrar(governanceProgram, realm, mint, minTrustScore, maxVerificationAge, Zeros(64)))))
    {
      hide Typed, Valid, Perform, Classify, Sized, Sound, Interpret, ContentsOf, Funded, Free;
      hide TakeVoter, TakeMax, TakeRegistrar;
      Allocate(target, payer, REGISTRAR_SPACE);
      FreshRegistrar();
      var loaded := DeserializeRegistrar(accounts[target].data);
      var record := loaded.value;
      record := record.(governanceProgramId := governanceProgram);
      record := record.(realm := realm);
      record := record.(governingTokenMint := mint);
      record := record.(minTrustScore := minTrustScore);
      record := record.(maxVerificationAge := maxVerificationAge);
      StoreRegistrar(target, record);
      InitializeThenOverwrite(rt, old(Typed()), target, payer, REGISTRAR_SPACE, Raw(Zeros(REGISTRAR_SPACE)),
        RegistrarAccount(record));
    }

    /** `init`, then the assignments of the handler on the record it loads from the fresh buffer. */
    method InitializeVoter(target: Pubkey, payer: Pubkey, g: Registrar, owner: Pubkey)
      requires Valid() && Free(Typed(), target) && Funded(rt, Typed(), target, payer, VOTER_SPACE)
      modifies this, Buffers()
      ensures Valid() && fresh(Buffers() - old(Buffers()))
      ensures Typed() == Perform(rt, old(Typed()), Initialize(target, payer, VOTER_SPACE,
                VoterAccount(NewVoter(g.realm, g.governingTokenMint, owner))))
    {
      hide Typed, Valid, Perform, Classify, Sized, Sound, Interpret, ContentsOf, Funded, Free;
      hide TakeVoter, TakeMax, TakeRegistrar;
      Allocate(target, payer, VOTER_SPACE);
      FreshVoter();
      var loaded := DeserializeVoter(accounts[target].data);
      var record := loaded.value;
      record := record.(accountDiscriminator := VOTER_DISCRIMINATOR);
      record := record.(realm := g.realm);
      record := record.(governingTokenMint := g.governingTokenMint);
      record := record.(governingTokenOwner := owner);
      record := record.(voterWeight := 0);
      record := record.(voterWeightExpiry := Some(0));
      record := record.(weightAction := None);
      record := record.(weightActionTarget := None);
      StoreVoter(target, record);
      InitializeThenOverwrite(rt, old(Typed()), target, payer, VOTER_SPACE, Raw(Zeros(VOTER_SPACE)),
        VoterAccount(record));
    }

    /** `init`, then the assignments of the handler on the record it loads from the fresh buffer. */
    method InitializeMax(target: Pubkey, payer: Pubkey, g: Registrar)
      requires Valid() && Free(Typed(), target) && Funded(rt, Typed(), target, payer, MAX_SPACE)
      modifies this, Buffers()
      ensures Valid() && fresh(Buffers() - old(Buffers()))
      ensures Typed() == Perform(rt, old(Typed()), Initialize(target, payer, MAX_SPACE,
                MaxAccount(NewMax(g.realm, g.governingTokenMint))))
    {
      hide Typed, Valid, Perform, Classify, Sized, Sound, Interpret, ContentsOf, Funded, Free;
      hide TakeVoter, TakeMax, TakeRegistrar;
      Allocate(target, payer, MAX_SPACE);
      FreshMax();
      var loaded := DeserializeMax(accounts[target].data);
      var record := loaded.value;
      record := record.(accountDiscriminator := MAX_DISCRIMINATOR);
      record := record.(realm := g.realm);
      record := record.(governingTokenMint := g.governingTokenMint);
      record := record.(maxVoterWeight := 0);
      record := record.(maxVoterWeightExpiry := Some(0));
      StoreMax(target, record);
      InitializeThenOverwrite(rt, old(Typed()), target, payer, MAX_SPACE, Raw(Zeros(MAX_SPACE)),
        MaxAccount(record));
    }

    // ---- the eight handlers ----

    method CreateRegistrar(registrar: Pubkey, governanceProgram: Pubkey, realm: Pubkey, mint: Pubkey,
                           realmAuthority: Pubkey, payer: Pubkey, minTrustScore: u16, maxVerificationAge: i64)
      returns (r: Result<()>)
      requires Valid()
      modifies this, Buffers()
      ensures Valid() && fresh(Buffers() - old(Buffers()))
      ensures Agrees(rt, old(Typed()), Typed(), r, Invoke(Instruction.CreateRegistrar(
                registrar, governanceProgram, realm, mint, realmAuthority, payer, minTrustScore, maxVerificationAge)))
      ensures r.Err? ==> unchanged(this) && unchanged(old(Buffers()))
    {
      hide Typed, Valid, Perform, Performable, Classify, Sized, Zeros, Sound, Interpret, AddressOf;
      if registrar != RegistrarAddress(rt, realm, mint) { return Err(ConstraintSeeds); }
      r := CheckInit(registrar, payer, REGISTRAR_SPACE);
      if r.Err? { return; }
      if !IsExecutable(governanceProgram) { return Err(ConstraintExecutable); }
      if OwnerOf(realm) != governanceProgram { return Err(ConstraintOwner); }
      if maxVerificationAge <= 0 { return Err(InvalidMaxVerificationAge); }
      r := CheckAuthority(governanceProgram, realm, mint, realmAuthority);
      if r.Err? { return; }
      InitializeRegistrar(registrar, payer, governanceProgram, realm, mint, minTrustScore, maxVerificationAge);
    }

    method UpdateRegistrar(registrar: Pubkey, realm: Pubkey, realmAuthority: Pubkey,
                           minTrustScore: u16, maxVerificationAge: i64)
      returns (r: Result<()>)
      requires Valid()
      modifies this, Buffers()
      ensures Valid() && fresh(Buffers() - old(Buffers()))
      ensures Agrees(rt, old(Typed()), Typed(), r, Invoke(Instruction.UpdateRegistrar(
                registrar, realm, realmAuthority, minTrustScore, maxVerificationAge)))
      ensures r.Err? ==> unchanged(this) && unchanged(old(Buffers()))
    {
      hide Typed, Valid, Perform, Performable, Classify, Sized, Zeros, Sound, Interpret, AddressOf;
      var loadedRegistrar := LoadRegistrarAtSeeds(registrar);
      if loadedRegistrar.Err? { return Err(loadedRegistrar.error); }
      var g := loadedRegistrar.value;
      if realm != g.realm { return Err(ConstraintRaw); }
      if maxVerificationAge <= 0 { return Err(InvalidMaxVerificationAge); }
      r := CheckAuthority(g.governanceProgramId, realm, g.governingTokenMint, realmAuthority);
      if r.Err? { return; }
      g := g.(minTrustScore := minTrustScore);
      g := g.(maxVerificationAge := maxVerificationAge);
      RewriteRegistrar(registrar, g);
    }

    method CloseRegistrar(registrar: Pubkey, realm: Pubkey, realmAuthority: Pubkey, destination: Pubkey)
      returns (r: Result<()>)
      requires Valid()
      modifies this, Buffers()
      ensures Valid() && fresh(Buffers() - old(Buffers()))
      ensures Agrees(rt, old(Typed()), Typed(), r, Invoke(Instruction.CloseRegistrar(
                registrar, realm, realmAuthority, destination)))
      ensures r.Err? ==> unchanged(this) && unchanged(old(Buffers()))
    {
      hide Typed, Valid, Perform, Performable, Classify, Sized, Zeros, Sound, Interpret, AddressOf;
      var loadedRegistrar := LoadRegistrarAtSeeds(registrar);
      if loadedRegistrar.Err? { return Err(loadedRegistrar.error); }
      var g := loadedRegistrar.value;
      if destination == registrar { return Err(ConstraintClose); }
      if realm != g.realm { return Err(ConstraintRaw); }
      r := CheckAuthority(g.governanceProgramId, realm, g.governingTokenMint, realmAuthority);
      if r.Err? { return; }
      Deallocate(registrar, destination);
    }

    method CreateVoter(registrar: Pubkey, record: Pubkey, ownerSigner: Pubkey, payer: Pubkey, owner: Pubkey)
      returns (r: Result<()>)
      requires Valid()
      modifies this, Buffers()
      ensures Valid() && fresh(Buffers() - old(Buffers()))
      ensures Agrees(rt, old(Typed()), Typed(), r, Invoke(Instruction.CreateVoter(
                registrar, record, ownerSigner, payer, owner)))
      ensures r.Err? ==> unchanged(this) && unchanged(old(Buffers()))
    {
      hide Typed, Valid, Perform, Performable, Classify, Sized, Zeros, Sound, Interpret, AddressOf;
      var loadedRegistrar := LoadRegistrarAtSeeds(registrar);
      if loadedRegistrar.Err? { return Err(loadedRegistrar.error); }
      var g := loadedRegistrar.value;
      if record != VoterAddress(rt, g.realm, g.governingTokenMint, owner) { return Err(ConstraintSeeds); }
      r := CheckInit(record, payer, VOTER_SPACE);
      if r.Err? { return; }
      if ownerSigner != owner { return Err(GoverningTokenOwnerSignerMismatch); }
      InitializeVoter(record, payer, g, owner);
    }

    method UpdateVoter(registrar: Pubkey, record: Pubkey, voter: Pubkey, identity: Option<Pubkey>)
      returns (r: Result<()>)
      requires Valid()
      modifies this, Buffers()
      ensures Valid() && fresh(Buffers() - old(Buffers()))
      ensures Agrees(rt, old(Typed()), Typed(), r, Invoke(Instruction.UpdateVoter(
                registrar, record, voter, identity)))
      ensures r.Err? ==> unchanged(this) && unchanged(old(Buffers()))
    {
      hide Typed, Valid, Perform, Performable, Classify, Sized, Zeros, Sound, Interpret, AddressOf;
      var loadedRegistrar := LoadRegistrarAtSeeds(registrar);
      if loadedRegistrar.Err? { return Err(loadedRegistrar.error); }
      var g := loadedRegistrar.value;
      var loaded := LoadVoterOf(record, g);
      if loaded.Err? { return Err(loaded.error); }
      var v := loaded.value;
      if v.governingTokenOwner != voter { return Err(VoterWeightRecordOwnerMismatch); }
      r := CheckIdentity(identity, voter, g);
      if r.Err? { return; }
      var now := GetClock();
      v := v.(voterWeight := 1);
      v := v.(voterWeightExpiry := Some(ExpiryFor(now.slot)));
      v := v.(weightAction := None);
      v := v.(weightActionTarget := None);
      RewriteVoter(record, v);
    }

    method CloseVoter(registrar: Pubkey, record: Pubkey, voter: Pubkey, destination: Pubkey)
      returns (r: Result<()>)
      requires Valid()
      modifies this, Buffers()
      ensures Valid() && fresh(Buffers() - old(Buffers()))
      ensures Agrees(rt, old(Typed()), Typed(), r, Invoke(Instruction.CloseVoter(
                registrar, record, voter, destination)))
      ensures r.Err? ==> unchanged(this) && unchanged(old(Buffers()))
    {
      hide Typed, Valid, Perform, Performable, Classify, Sized, Zeros, Sound, Interpret, AddressOf;
      var loadedRegistrar := LoadRegistrarAtSeeds(registrar);
      if loadedRegistrar.Err? { return Err(loadedRegistrar.error); }
      var g := loadedRegistrar.value;
      if destination == record { return Err(ConstraintClose); }
      var loaded := LoadVoterOf(record, g);
      if loaded.Err? { return Err(loaded.error); }
      if loaded.value.governingTokenOwner != voter { return Err(VoterWeightRecordOwnerMismatch); }
      Deallocate(record, destination);
      r := Ok(());
    }

    method CreateMax(registrar: Pubkey, record: Pubkey, realm: Pubkey, realmAuthority: Pubkey, payer: Pubkey)
      returns (r: Result<()>)
      requires Valid()
      modifies this, Buffers()
      ensures Valid() && fresh(Buffers() - old(Buffers()))
      ensures Agrees(rt, old(Typed()), Typed(), r, Invoke(Instruction.CreateMax(
                registrar, record, realm, realmAuthority, payer)))
      ensures r.Err? ==> unchanged(this) && unchanged(old(Buffers()))
    {
      hide Typed, Valid, Perform, Performable, Classify, Sized, Zeros, Sound, Interpret, AddressOf;
      var loadedRegistrar := LoadRegistrarAtSeeds(registrar);
      if loadedRegistrar.Err? { return Err(loadedRegistrar.error); }
      var g := loadedRegistrar.value;
      if record != MaxAddress(rt, g.realm, g.governingTokenMint) { return Err(ConstraintSeeds); }
      r := CheckInit(record, payer, MAX_SPACE);
      if r.Err? { return; }
      if realm != g.realm { return Err(ConstraintRaw); }
      r := CheckAuthority(g.governanceProgramId, realm, g.governingTokenMint, realmAuthority);
      if r.Err? { return; }
      InitializeMax(record, payer, g);
    }

    method UpdateMax(registrar: Pubkey, record: Pubkey, realm: Pubkey, realmAuthority: Pubkey, maxVoterWeight: u64)
      returns (r: Result<()>)
      requires Valid()
      modifies this, Buffers()
      ensures Valid() && fresh(Buffers() - old(Buffers()))
      ensures Agrees(rt, old(Typed()), Typed(), r, Invoke(Instruction.UpdateMax(
                registrar, record, realm, realmAuthority, maxVoterWeight)))
      ensures r.Err? ==> unchanged(this) && unchanged(old(Buffers()))
    {
      hide Typed, Valid, Perform, Performable, Classify, Sized, Zeros, Sound, Interpret, AddressOf;
      var loadedRegistrar := LoadRegistrarAtSeeds(registrar);
      if loadedRegistrar.Err? { return Err(loadedRegistrar.error); }
      var g := loadedRegistrar.value;
      var loaded := LoadMax(record);
      if loaded.Err? { return Err(loaded.error); }
      var m := loaded.value;
      if m.realm != g.realm { return Err(ConstraintRaw); }
      if m.governingTokenMint != g.governingTokenMint { return Err(ConstraintRaw); }
      if realm != g.realm { return Err(ConstraintRaw); }
      if maxVoterWeight == 0 { return Err(InvalidMaxVoterWeight); }
      r := CheckAuthority(g.governanceProgramId, realm, g.governingTokenMint, realmAuthority);
      if r.Err? { return; }
      m := m.(maxVoterWeight := maxVoterWeight);
      m := m.(maxVoterWeightExpiry := None);
      RewriteMax(record, m);
    }

    // ---- the environment ----

    method AdvanceClock(slots: nat, unixTimestamp: i64) returns (r: Result<()>)
      requires Valid()
      modifies this
      ensures Valid() && accounts == old(accounts)
      ensures Agrees(rt, old(Typed()), Typed(), r, Event.AdvanceClock(slots, unixTimestamp))
      ensures r.Err? ==> unchanged(this) && unchanged(old(Buffers()))
    {
      hide Decide, Perform;
      if clock.slot + slots > U64_MAX { return Err(NotPermitted); }
      clock := Clock(clock.slot + slots, unixTimestamp);
      assert Typed().accounts == old(Typed()).accounts;
      r := Ok(());
    }

    method SetForeign(address: Pubkey, owner: Pubkey, executable: bool, data: seq<byte>) returns (r: Result<()>)
      requires Valid()
      modifies this
      ensures Valid() && fresh(Buffers() - old(Buffers()))
      ensures Agrees(rt, old(Typed()), Typed(), r, Event.SetForeign(address, owner, executable, data))
      ensures r.Err? ==> unchanged(this) && unchanged(old(Buffers()))
    {
      hide ContentsOf, Classify, Sized, Sound, Apply, Typed, Interpret;
      SetForeignApplied(rt, Typed(), address, owner, executable, data);
      if rt.reserved(address) || (owner == PLUGIN_ID && !AllZero(data)) { return Err(NotPermitted); }
      Install(address, LamportsAt(address), owner, executable, data);
      r := Ok(());
    }

    method Transfer(source: Pubkey, destination: Pubkey, amount: nat) returns (r: Result<()>)
      requires Valid()
      modifies this
      ensures Valid() && fresh(Buffers() - old(Buffers()))
      ensures Agrees(rt, old(Typed()), Typed(), r, Event.Transfer(source, destination, amount))
      ensures r.Err? ==> unchanged(this) && unchanged(old(Buffers()))
    {
      hide Typed, Valid, Apply, Sound;
      TransferApplied(rt, Typed(), source, destination, amount);
      if OwnerOf(source) == PLUGIN_ID || LamportsAt(source) < amount { return Err(NotPermitted); }
      SetLamports(source, LamportsAt(source) - amount);
      assert Typed() == Debit(old(Typed()), source, amount);
      SetLamports(destination, LamportsAt(destination) + amount);
      r := Ok(());
    }

    // ---- runs ----

    method Execute(ix: Instruction) returns (r: Result<()>)
      requires Valid()
      modifies this, Buffers()
      ensures Valid() && fresh(Buffers() - old(Buffers()))
      ensures Agrees(rt, old(Typed()), Typed(), r, Event.Invoke(ix))
      ensures r.Err? ==> unchanged(this) && unchanged(old(Buffers()))
    {
      hide Typed, Valid, Agrees;
      match ix
      case CreateRegistrar(registrar, program, realm, mint, authority, payer, score, age) =>
        r := CreateRegistrar(registrar, program, realm, mint, authority, payer, score, age);
      case UpdateRegistrar(registrar, realm, authority, score, age) =>
        r := UpdateRegistrar(registrar, realm, authority, score, age);
      case CloseRegistrar(registrar, realm, authority, destination) =>
        r := CloseRegistrar(registrar, realm, authority, destination);
      case CreateVoter(registrar, record, signer, payer, owner) =>
        r := CreateVoter(registrar, record, signer, payer, owner);
      case UpdateVoter(registrar, record, voter, identity) =>
        r := UpdateVoter(registrar, record, voter, identity);
      case CloseVoter(registrar, record, voter, destination) =>
        r := CloseVoter(registrar, record, voter, destination);
      case CreateMax(registrar, record, realm, authority, payer) =>
        r := CreateMax(registrar, record, realm, authority, payer);
      case UpdateMax(registrar, record, realm, authority, maxVoterWeight) =>
        r := UpdateMax(registrar, record, realm, authority, maxVoterWeight);
    }

    /** The program's entry point, for a transaction with one instruction. */
    method Submit(tx: TransactionInstruction) returns (r: Result<()>)
      requires Valid()
      modifies this, Buffers()
      ensures Valid() && fresh(Buffers() - old(Buffers()))
      ensures match Dispatch(tx)
              case Ok(ix) => Agrees(rt, old(Typed()), Typed(), r, Event.Invoke(ix))
              case Err(error) => r == Err(error) && Typed() == old(Typed())
      ensures r.Err? ==> unchanged(this) && unchanged(old(Buffers()))
    {
      hide Typed, Valid, Agrees, Dispatch;
      var decoded := Dispatch(tx);
      if decoded.Err? { return Err(decoded.error); }
      r := Execute(decoded.value);
    }

    method Handle(e: Event) returns (r: Result<()>)
      requires Valid()
      modifies this, Buffers()
      ensures Valid() && fresh(Buffers() - old(Buffers()))
      ensures Agrees(rt, old(Typed()), Typed(), r, e)
      ensures r.Err? ==> unchanged(this) && unchanged(old(Buffers()))
    {
      hide Typed, Valid, Agrees;
      match e
      case Invoke(ix) => r := Execute(ix);
      case AdvanceClock(slots, unixTimestamp) => r := AdvanceClock(slots, unixTimestamp);
      case SetForeign(address, owner, executable, data) => r := SetForeign(address, owner, executable, data);
      case Transfer(source, destination, amount) => r := Transfer(source, destination, amount);
    }

    /**
     * The byte ledger refines the typed one: after any run of events, each handled by loading, changing and writing
     * back buffers, decoding the buffers gives the ledger that the typed system reaches on the same run, and every
     * event got the same answer, down to the error.
     */
    method Process(es: seq<Event>) returns (answers: seq<Result<()>>)
      requires Valid()
      modifies this, Buffers()
      ensures Valid() && fresh(Buffers() - old(Buffers()))
      ensures Typed() == Run(rt, old(Typed()), es)
      ensures |answers| == |es|
      ensures forall i :: 0 <= i < |es| ==>
                answers[i] == AnswerAt(rt, old(Typed()), es, i)
    {
      ghost var start := Typed();
      assert Run(rt, start, es[..0]) == start;
      hide Typed, Valid, Step, Answer, Run, AnswerAt, Agrees, Buffers;
      answers := [];
      for i := 0 to |es|
        invariant Valid() && fresh(Buffers() - old(Buffers()))
        invariant Typed() == Run(rt, start, es[..i])
        invariant |answers| == i
        invariant forall j :: 0 <= j < i ==> answers[j] == AnswerAt(rt, start, es, j)
      {
        var r := Handle(es[i]);
        RunGoesOn(rt, start, es, i, Typed(), r);
        answers := answers + [r];
      }
      assert es[..|es|] == es;
    }
  }

  lemma RunGoesOn(rt: Runtime, l: Ledger, es: seq<Event>, i: nat, after: Ledger, r: Result<()>)
    requires i < |es| && Agrees(rt, Run(rt, l, es[..i]), after, r, es[i])
    ensures after == Run(rt, l, es[..i + 1]) && r == AnswerAt(rt, l, es, i)
  {
    RunPrefix(rt, l, es, i);
  }

  lemma GenesisAccount(rt: Runtime, l: Ledger, a: Pubkey)
    requires Genesis(rt, l) && a in l.accounts
    ensures l.accounts[a].contents.Raw?
    ensures l.accounts[a].owner == PLUGIN_ID ==> AllZero(l.accounts[a].contents.data)
  {
    assert At(l, a) == l.accounts[a] && Untyped(rt, a, At(l, a));
  }

  lemma AllPending(m: map<Pubkey, Account>)
    ensures m - m.Keys == map[] && m - {} == m
  {
  }

  lemma OneLess(m: map<Pubkey, Account>, pending: set<Pubkey>, a: Pubkey)
    requires a in pending && pending <= m.Keys
    ensures (m - pending)[a := m[a]] == m - (pending - {a})
  {
  }

  /** Writing a new account and then writing it again leaves what writing the second contents would have. */
  lemma InitializeThenOverwrite(rt: Runtime, l: Ledger, target: Pubkey, payer: Pubkey, space: nat,
                                c: Contents, d: Contents)
    requires Performable(rt, l, Initialize(target, payer, space, c))
    ensures var created := Perform(rt, l, Initialize(target, payer, space, c));
            target in created.accounts
            && created.(accounts := created.accounts[target := created.accounts[target].(contents := d)])
               == Perform(rt, l, Initialize(target, payer, space, d))
  {
  }

  method NewBuffer(data: seq<byte>) returns (buffer: array<byte>)
    ensures fresh(buffer) && buffer[..] == data
  {
    buffer := new byte[|data|](i requires 0 <= i < |data| => data[i]);
  }

  lemma SetForeignApplied(rt: Runtime, l: Ledger, address: Pubkey, owner: Pubkey, executable: bool, data: seq<byte>)
    ensures Apply(rt, l, Event.SetForeign(address, owner, executable, data)) ==
            if rt.reserved(address) || (owner == PLUGIN_ID && !AllZero(data)) then Err(NotPermitted)
            else Ok(l.(accounts :=
                   l.accounts[address := Account(At(l, address).lamports, owner, executable, Raw(data))]))
  {
  }

  lemma TransferApplied(rt: Runtime, l: Ledger, source: Pubkey, destination: Pubkey, amount: nat)
    ensures Apply(rt, l, Event.Transfer(source, destination, amount)) ==
            if At(l, source).owner == PLUGIN_ID || At(l, source).lamports < amount then Err(NotPermitted)
            else Ok(Credit(Debit(l, source, amount), destination, amount))
  {
  }

  /** The checks on the identity account's buffer; every slice is in bounds once the length is checked. */
  method CheckIdentityBuffer(data: array<byte>, minTrustScore: u16, maxVerificationAge: i64, now: i64)
    returns (r: Result<()>)
    ensures r == CheckIdentityData(data[..], minTrustScore, maxVerificationAge, now)
  {
    if data.Length < MIN_DATA_LEN { return Err(InvalidIdentityData); }
    assert data[..][..8] == data[..8];
    assert data[..][48..56] == data[48..56] && data[..][60..62] == data[60..62];
    if data[..8] != IDENTITY_DISCRIMINATOR { return Err(InvalidIdentityData); }
    var last := DecodeI64(data[LAST_VERIFICATION_OFFSET..LAST_VERIFICATION_OFFSET + 8]);
    var score := DecodeU16(data[TRUST_SCORE_OFFSET..TRUST_SCORE_OFFSET + 2]);
    if score < minTrustScore { return Err(InsufficientTrustScore); }
    var difference := CheckedSub(now, last);
    var age := if difference.Some? then difference.value else I64_MAX;
    if age >= maxVerificationAge { return Err(VerificationExpired); }
    r := Ok(());
  }
}
