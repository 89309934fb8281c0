/** A concrete run: the assumptions can be met, and isolation does fail when two DAOs share a payer. */
module Coupling {
  import opened Prelude
  import opened Bytes
  import opened Addresses
  import opened Ledgers
  import opened Reachability
  import opened Isolation
  import opened Wallets
  import opened Solvency

  /** A key that is told apart by its second byte. */
  function Key(n: byte): Pubkey { [0, n] + Zeros(30) }

  /** A derivation that keeps the length of the seeds and the second byte of each key in them. */
  function Derive(program: Pubkey, seeds: seq<byte>): Pubkey {
    var home := if program == PLUGIN_ID then 1 else 2;
    if |seeds| == 73 then [home, 73, seeds[10], seeds[42], 0] + Zeros(27)
    else if |seeds| == 115 then [home, 115, seeds[20], seeds[52], seeds[84]] + Zeros(27)
    else if |seeds| == 87 then [home, 87, seeds[24], seeds[56], 0] + Zeros(27)
    else if |seeds| == 40 then [home, 40, seeds[9], 0, 0] + Zeros(27)
    else [home] + Zeros(31)
  }

  /** The wallet that is the authority of both realms, and another one that can pay. */
  const WALLET: Pubkey := Key(1)
  const SECOND: Pubkey := Key(6)
  const PROGRAM: Pubkey := Key(2)
  const REALM_A: Pubkey := Key(3)
  const REALM_B: Pubkey := Key(4)
  const MINT: Pubkey := Key(5)
  const KEYS: set<Pubkey> := {REALM_A, REALM_B, MINT}

  function SampleRuntime(): Runtime {
    Runtime(Derive,
            (a: Pubkey) => a[0] == 1,
            (program: Pubkey, owner: Pubkey, data: seq<byte>, mint: Pubkey) =>
              if owner == PLUGIN_ID || data == [] then Rejected else Found(Some(WALLET)),
            (space: nat) => 5,
            (kind: Bytes8, data: seq<byte>) => |data| >= 8 && data[..8] == kind)
  }

  /** Two realms, and two wallets with one deposit each. */
  function SampleLedger(): Ledger {
    Ledger(map[WALLET := Account(5, SYSTEM_ID, false, Raw([])),
               SECOND := Account(5, SYSTEM_ID, false, Raw([])),
               PROGRAM := Account(1, SYSTEM_ID, true, Raw([1])),
               REALM_A := Account(1, PROGRAM, false, Raw([1])),
               REALM_B := Account(1, PROGRAM, false, Raw([1]))], Clock(0, 0))
  }

  function Creation(realm: Pubkey, payer: Pubkey): Event {
    Invoke(CreateRegistrar(RegistrarAddress(SampleRuntime(), realm, MINT), PROGRAM, realm, MINT, WALLET, payer, 0, 1))
  }

  /** Both DAOs create their registrars, the second one with this payer. */
  function Creations(payer: Pubkey): seq<Event> {
    [Creation(REALM_A, WALLET), Creation(REALM_B, payer)]
  }

  lemma SampleSound()
    ensures Sound(SampleRuntime())
  {
  }

  /** The derivation does not collide on the keys of the run. */
  lemma SampleCollisionFree()
    ensures CollisionFree(SampleRuntime(), KEYS)
  {
    hide Within, AddressOf, SeedBytes, ProgramOf, SampleRuntime;
    var rt := SampleRuntime();
    forall j, k | Within(j, KEYS) && Within(k, KEYS) && AddressOf(rt, j) == AddressOf(rt, k)
      ensures ProgramOf(j) == ProgramOf(k) && SeedBytes(j) == SeedBytes(k)
    {
      DeriveInjective(j, k);
    }
  }

  lemma SecondByteDecides(x: Pubkey, y: Pubkey)
    requires x in KEYS && y in KEYS && x[1] == y[1]
    ensures x == y
  {
    assert forall n: byte {:trigger Key(n)} :: Key(n)[1] == n;
  }

  lemma DeriveInjective(j: SeedKey, k: SeedKey)
    requires Within(j, KEYS) && Within(k, KEYS)
    requires AddressOf(SampleRuntime(), j) == AddressOf(SampleRuntime(), k)
    ensures j == k
  {
    var a, b := AddressOf(SampleRuntime(), j), AddressOf(SampleRuntime(), k);
    DerivedBytes(j);
    DerivedBytes(k);
    assert a[1] == b[1];
    match j
    case RegistrarSeeds(realm, mint) =>
      SecondByteDecides(realm, k.realm); SecondByteDecides(mint, k.mint);
    case VoterSeeds(realm, mint, owner) =>
      SecondByteDecides(realm, k.realm); SecondByteDecides(mint, k.mint); SecondByteDecides(owner, k.owner);
    case MaxSeeds(realm, mint) =>
      SecondByteDecides(realm, k.realm); SecondByteDecides(mint, k.mint);
    case IdentitySeeds(wallet) =>
      SecondByteDecides(wallet, k.wallet);
  }

  lemma DerivedBytes(k: SeedKey)
    ensures var a := AddressOf(SampleRuntime(), k);
            match k
            case RegistrarSeeds(realm, mint) => a[0] == 1 && a[1] == 73 && a[2] == realm[1] && a[3] == mint[1]
            case VoterSeeds(realm, mint, owner) =>
              a[0] == 1 && a[1] == 115 && a[2] == realm[1] && a[3] == mint[1] && a[4] == owner[1]
            case MaxSeeds(realm, mint) => a[0] == 1 && a[1] == 87 && a[2] == realm[1] && a[3] == mint[1]
            case IdentitySeeds(wallet) => a[1] == 40 && a[2] == wallet[1]
  {
    hide SeedBytes;
    SeedPositions(k);
  }

  lemma SeedPositions(k: SeedKey)
    ensures var s := SeedBytes(k);
            match k
            case RegistrarSeeds(realm, mint) => |s| == 73 && s[10] == realm[1] && s[42] == mint[1]
            case VoterSeeds(realm, mint, owner) =>
              |s| == 115 && s[20] == realm[1] && s[52] == mint[1] && s[84] == owner[1]
            case MaxSeeds(realm, mint) => |s| == 87 && s[24] == realm[1] && s[56] == mint[1]
            case IdentitySeeds(wallet) => |s| == 40 && s[9] == wallet[1]
  {
  }

  lemma SampleGenesis()
    ensures Genesis(SampleRuntime(), SampleLedger())
  {
    ProgramIdsDiffer();
    var rt, l := SampleRuntime(), SampleLedger();
    assert PROGRAM[0] == 0 && PLUGIN_ID[0] == 0x79 && SECOND[0] == 0;
    forall a ensures At(l, a).contents.Raw? && Untyped(rt, a, At(l, a)) {
      assert rt.reserved(a) ==> a[0] == 1;
      assert WALLET[0] == 0 && REALM_A[0] == 0 && REALM_B[0] == 0;
    }
  }

  lemma SampleAccounts()
    ensures var l := SampleLedger();
            && At(l, WALLET) == At(l, SECOND) == Account(5, SYSTEM_ID, false, Raw([]))
            && At(l, PROGRAM) == Account(1, SYSTEM_ID, true, Raw([1]))
            && At(l, REALM_A) == At(l, REALM_B) == Account(1, PROGRAM, false, Raw([1]))
            && forall a: Pubkey :: a[0] == 1 ==> At(l, a) == VACANT
  {
    assert WALLET[1] == 1 && PROGRAM[1] == 2 && REALM_A[1] == 3 && REALM_B[1] == 4 && SECOND[1] == 6;
    assert SECOND[0] == 0 && WALLET[0] == 0 && PROGRAM[0] == 0 && REALM_A[0] == 0 && REALM_B[0] == 0;
  }

  /** On the sample ledger either wallet can pay for either registrar. */
  lemma CreationSucceeds(realm: Pubkey, payer: Pubkey)
    requires (realm == REALM_A || realm == REALM_B) && (payer == WALLET || payer == SECOND)
    ensures Decide(SampleRuntime(), SampleLedger(), Creation(realm, payer).ix).Ok?
  {
    var rt, l, ix := SampleRuntime(), SampleLedger(), Creation(realm, payer).ix;
    SampleAccounts();
    DerivedBytes(RegistrarSeeds(realm, MINT));
    assert PROGRAM[0] == 0 && PLUGIN_ID[0] == 0x79 && payer[0] == 0;
    hide SampleLedger, RegistrarAddress;
    assert CheckInit(rt, l, ix.registrar, ix.payer, 178).Ok?;
    assert ReadRealm(rt, l, PROGRAM, realm, MINT) == Found(Some(WALLET));
  }

  /** After the first creation the wallet is empty, and the second registrar's address is still vacant. */
  lemma WalletIsSpent()
    ensures var rt, next := SampleRuntime(), Step(SampleRuntime(), SampleLedger(), Creation(REALM_A, WALLET));
            At(next, WALLET).lamports == 0 && !PayerCovers(rt, next, Creation(REALM_B, WALLET).ix)
  {
    var rt, l, ix := SampleRuntime(), SampleLedger(), Creation(REALM_A, WALLET).ix;
    CreationSucceeds(REALM_A, WALLET);
    SampleAccounts();
    DerivedBytes(RegistrarSeeds(REALM_A, MINT));
    DerivedBytes(RegistrarSeeds(REALM_B, MINT));
    assert REALM_A[1] == 3 && REALM_B[1] == 4 && WALLET[0] == 0;
    EffectOfCreation(rt, l, ix);
  }

  lemma EffectOfCreation(rt: Runtime, l: Ledger, ix: Instruction)
    requires ix.CreateRegistrar? && Decide(rt, l, ix).Ok?
    ensures exists c :: Decide(rt, l, ix) == Ok(Initialize(ix.registrar, ix.payer, 178, c))
                        && c.RegistrarAccount? && PairOf(c) == (ix.realm, ix.mint)
  {
  }

  /** The first creation is not the second DAO's, so the projection drops it. */
  lemma FirstIsDropped(payer: Pubkey)
    ensures var rt, es := SampleRuntime(), Creations(payer);
            && !Concerns(rt, es[0], REALM_B, MINT) && Concerns(rt, es[1], REALM_B, MINT)
            && KeysOfRun(es, KEYS) && Projected(rt, es, REALM_B, MINT) == [es[1]]
  {
    var rt, es := SampleRuntime(), Creations(payer);
    DerivedBytes(RegistrarSeeds(REALM_A, MINT));
    DerivedBytes(RegistrarSeeds(REALM_B, MINT));
    assert REALM_A[1] == 3 && REALM_B[1] == 4;
    assert RegistrarAddress(SampleRuntime(), REALM_A, MINT) != RegistrarAddress(SampleRuntime(), REALM_B, MINT);
    hide SampleRuntime, AddressOf, RegistrarAddress;
    assert es[..2] == es && es[..0] == [];
    ProjectedNext(rt, es, 0, REALM_B, MINT);
    ProjectedNext(rt, es, 1, REALM_B, MINT);
  }

  /**
   * Isolation is not unconditional. One wallet holds a single deposit and pays for the registrars of two realms: the
   * second creation succeeds in the run without the first and fails in the full run, so the second DAO does see the
   * first one. No other assumption of the isolation theorem is broken, and no choice of wallets keeps the DAOs apart.
   */
  lemma SharedPayerCouplesDaos()
    ensures var rt, l, es := SampleRuntime(), SampleLedger(), Creations(WALLET);
            && Sound(rt) && Genesis(rt, l) && CollisionFree(rt, KEYS) && KeysOfRun(es, KEYS)
            && REALM_B in KEYS && MINT in KEYS
            && !FundedAlikeAt(rt, l, es, 1, REALM_B, MINT)
            && !MirrorsAt(rt, l, es, 2, REALM_B, MINT)
            && forall wallets :: !KeptApart(rt, es, REALM_B, MINT, wallets)
  {
    var rt, l, es := SampleRuntime(), SampleLedger(), Creations(WALLET);
    SampleSound();
    SampleGenesis();
    SampleCollisionFree();
    FirstIsDropped(WALLET);
    CreationSucceeds(REALM_B, WALLET);
    WalletIsSpent();
    hide SampleRuntime, SampleLedger, Creation, Sound, Genesis, CollisionFree, MirrorsAt, FundedAlikeAt, Step, Decide;
    hide PayerCovers, Concerns, KeptApart;
    SpentByTheFirst(rt, l, es, REALM_B, MINT, KEYS);
    forall wallets ensures !KeptApart(rt, es, REALM_B, MINT, wallets) {
      NotKeptApart(rt, l, es, 2, REALM_B, MINT, KEYS, wallets);
    }
  }

  /** Where isolation fails, the DAOs share a wallet. */
  lemma NotKeptApart(rt: Runtime, l: Ledger, es: seq<Event>, n: nat, realm: Pubkey, mint: Pubkey,
                     keys: set<Pubkey>, wallets: set<Pubkey>)
    requires Sound(rt) && Genesis(rt, l) && CollisionFree(rt, keys) && KeysOfRun(es, keys)
    requires realm in keys && mint in keys && n <= |es| && !MirrorsAt(rt, l, es, n, realm, mint)
    ensures !KeptApart(rt, es, realm, mint, wallets)
  {
    hide Sound, Genesis, CollisionFree, MirrorsAt, KeptApart, KeysOfRun;
    if KeptApart(rt, es, realm, mint, wallets) {
      SeparateWalletsIsolate(rt, l, es, n, realm, mint, keys, wallets);
    }
  }

  /** Where the first event is dropped, the projected run has yet to begin. */
  lemma SpentByTheFirst(rt: Runtime, l: Ledger, es: seq<Event>, realm: Pubkey, mint: Pubkey,
                        keys: set<Pubkey>)
    requires Sound(rt) && Genesis(rt, l) && CollisionFree(rt, keys) && KeysOfRun(es, keys)
    requires realm in keys && mint in keys && |es| == 2 && es[1].Invoke?
    requires !Concerns(rt, es[0], realm, mint) && Concerns(rt, es[1], realm, mint)
    requires Decide(rt, l, es[1].ix).Ok? && !PayerCovers(rt, Step(rt, l, es[0]), es[1].ix)
    ensures !FundedAlikeAt(rt, l, es, 1, realm, mint) && !MirrorsAt(rt, l, es, 2, realm, mint)
  {
    hide Sound, Genesis, CollisionFree, MirrorsAt, Step, Decide, PayerCovers, Concerns, KeysOfRun;
    assert es[..0] == [];
    RunPrefix(rt, l, es, 0);
    ProjectedNext(rt, es, 0, realm, mint);
    MirrorsAtStart(rt, l, es, realm, mint);
    MirrorsNext(rt, l, es, 0, realm, mint, keys);
    assert FundedAlikeAt(rt, l, es, 0, realm, mint);
    SpentPayerCouples(rt, l, es, 1, realm, mint, keys);
  }

  /**
   * In general: wherever the view is still exact, if the pair's next creation succeeds without the others and its
   * payer cannot cover the deposit with them, the view stops being exact there.
   */
  lemma SpentPayerCouples(rt: Runtime, l: Ledger, es: seq<Event>, n: nat, realm: Pubkey,
                          mint: Pubkey, keys: set<Pubkey>)
    requires Sound(rt) && Genesis(rt, l) && CollisionFree(rt, keys) && KeysOfRun(es, keys)
    requires realm in keys && mint in keys && n < |es| && MirrorsAt(rt, l, es, n, realm, mint)
    requires es[n].Invoke? && Concerns(rt, es[n], realm, mint)
    requires Decide(rt, Run(rt, l, Projected(rt, es[..n], realm, mint)), es[n].ix).Ok?
    requires !PayerCovers(rt, Run(rt, l, es[..n]), es[n].ix)
    ensures !FundedAlikeAt(rt, l, es, n, realm, mint) && !MirrorsAt(rt, l, es, n + 1, realm, mint)
  {
    hide Decide, PayerCovers, PassesOtherwise, AddressOf, Sound, Genesis, CollisionFree, Valid, Mirrors, KeysCovered;
    var full, alone := Run(rt, l, es[..n]), Run(rt, l, Projected(rt, es[..n], realm, mint));
    RunValid(rt, l, es[..n]);
    RunKeysCovered(rt, l, es[..n], keys);
    SuccessSplit(rt, alone, es[n].ix);
    PassesOtherwiseAlike(rt, full, alone, es[n].ix, realm, mint, keys);
    assert Short(rt, full, es[n].ix) && !Short(rt, alone, es[n].ix);
    MirrorsNext(rt, l, es, n, realm, mint, keys);
  }

  // ---- with a solvent payer of its own, the second DAO is isolated ----

  lemma SecondIsSolvent()
    ensures Solvent(SampleRuntime(), SampleLedger(), Creations(SECOND), SECOND)
  {
    var rt, l, es := SampleRuntime(), SampleLedger(), Creations(SECOND);
    SampleAccounts();
    assert SECOND[0] == 0 && SECOND[1] == 6 && WALLET[1] == 1;
    assert es[..0] == [] && es[..2] == es;
    SpendNext(rt, es, 0, SECOND);
    SpendNext(rt, es, 1, SECOND);
    assert Charge(rt, es[0], SECOND) == 0 && Charge(rt, es[1], SECOND) == 5;
  }

  lemma SecondIsApart()
    ensures var rt := SampleRuntime();
            KeptApart(rt, Creations(SECOND), REALM_B, MINT, {SECOND, RegistrarAddress(rt, REALM_B, MINT)})
  {
    FirstIsDropped(SECOND);
    DerivedBytes(RegistrarSeeds(REALM_A, MINT));
    DerivedBytes(RegistrarSeeds(REALM_B, MINT));
    assert SECOND[0] == 0 && SECOND[1] == 6 && WALLET[0] == 0 && WALLET[1] == 1;
    assert REALM_A[1] == 3 && REALM_B[1] == 4;
    hide SampleRuntime, AddressOf, Projected;
  }

  /** A creation that succeeds leaves a registrar of its realm and mint. */
  lemma CreationLeaves(rt: Runtime, l: Ledger, ix: Instruction)
    requires ix.CreateRegistrar? && Decide(rt, l, ix).Ok?
    ensures var c := At(Run(rt, l, [Invoke(ix)]), ix.registrar).contents;
            c.RegistrarAccount? && PairOf(c) == (ix.realm, ix.mint)
  {
    hide Decide, Perform, Performable;
    EffectOfCreation(rt, l, ix);
    PerformAtTarget(rt, l, Decide(rt, l, ix).value);
    RunAppend(rt, l, [], Invoke(ix));
    assert [] + [Invoke(ix)] == [Invoke(ix)];
  }

  /**
   * The same two creations, the second one paid for by the second wallet. This wallet is solvent, so the second DAO is
   * isolated, and it does get its registrar in the full run.
   */
  lemma SolventPayerIsolates()
    ensures var rt, l, es := SampleRuntime(), SampleLedger(), Creations(SECOND);
            var created := At(Run(rt, l, es), RegistrarAddress(rt, REALM_B, MINT)).contents;
            && SolventPayers(rt, l, es, REALM_B, MINT)
            && KeptApart(rt, es, REALM_B, MINT, {SECOND, RegistrarAddress(rt, REALM_B, MINT)})
            && MirrorsAt(rt, l, es, 2, REALM_B, MINT)
            && created.RegistrarAccount? && PairOf(created) == (REALM_B, MINT)
  {
    var rt, l, es := SampleRuntime(), SampleLedger(), Creations(SECOND);
    SampleSound();
    SampleGenesis();
    SampleCollisionFree();
    FirstIsDropped(SECOND);
    CreationSucceeds(REALM_B, SECOND);
    SecondIsSolvent();
    SecondIsApart();
    hide SampleRuntime, SampleLedger, Sound, Genesis, CollisionFree, MirrorsAt, Solvent, Decide, Run, AddressOf;
    SolventPayersIsolate(rt, l, es, 2, REALM_B, MINT, KEYS);
    CreationLeaves(rt, l, es[1].ix);
    var registrar := RegistrarAddress(rt, REALM_B, MINT);
    var created := At(Run(rt, l, [es[1]]), registrar).contents;
    SolventPayersKeepAccounts(rt, l, es, REALM_B, MINT, KEYS, created, registrar);
  }
}
