/** DAOs do not influence one another, except through the wallets that pay for their accounts. */
module Isolation {
  import opened Prelude
  import opened Bytes
  import opened Records
  import opened Addresses
  import opened Identity
  import opened Ledgers
  import opened Reachability

  // ---- projecting a run onto one realm and mint ----

  /** An instruction for the registrar of this realm and mint, or a move of the environment. */
  predicate Concerns(rt: Runtime, e: Event, realm: Pubkey, mint: Pubkey) {
    e.Invoke? ==> e.ix.registrar == RegistrarAddress(rt, realm, mint)
  }

  function Projected(rt: Runtime, es: seq<Event>, realm: Pubkey, mint: Pubkey): seq<Event> {
    if es == [] then [] else
      var init, last := es[..|es| - 1], es[|es| - 1];
      if Concerns(rt, last, realm, mint) then Projected(rt, init, realm, mint) + [last]
      else Projected(rt, init, realm, mint)
  }

  /** An account as one realm and mint sees it: those of other pairs are not there. */
  function View(account: Account, realm: Pubkey, mint: Pubkey): Account {
    if account.contents.Raw? || PairOf(account.contents) == (realm, mint) then Bare(account) else VACANT
  }

  /** The second ledger is the first as one realm and mint sees it, balances aside. */
  ghost predicate Mirrors(l1: Ledger, l2: Ledger, realm: Pubkey, mint: Pubkey) {
    l1.clock == l2.clock && forall a :: Bare(At(l2, a)) == View(At(l1, a), realm, mint)
  }

  // ---- the keys in play ----

  predicate KeysOfEvent(e: Event, keys: set<Pubkey>) {
    e.Invoke? ==>
      && (e.ix.CreateRegistrar? ==> e.ix.realm in keys && e.ix.mint in keys)
      && (e.ix.CreateVoter? ==> e.ix.owner in keys)
  }

  predicate KeysOfRun(es: seq<Event>, keys: set<Pubkey>) {
    forall i :: 0 <= i < |es| ==> KeysOfEvent(es[i], keys)
  }

  ghost predicate KeysCovered(l: Ledger, keys: set<Pubkey>) {
    forall a :: !At(l, a).contents.Raw? ==> Within(KeyOf(At(l, a).contents), keys)
  }

  lemma StepKeepsKeysCovered(rt: Runtime, l: Ledger, e: Event, keys: set<Pubkey>)
    requires Sound(rt) && Valid(rt, l) && KeysCovered(l, keys) && KeysOfEvent(e, keys)
    ensures KeysCovered(Step(rt, l, e), keys)
  {
    var next := Step(rt, l, e);
    forall a | !At(next, a).contents.Raw? ensures Within(KeyOf(At(next, a).contents), keys) {
      if e.Invoke? && Target(e.ix) == a && Succeeds(rt, l, e) {
        DecideKeys(rt, l, e.ix, keys);
        PerformAtTarget(rt, l, Decide(rt, l, e.ix).value);
      } else {
        Untouched(rt, l, e, a);
      }
    }
  }

  lemma DecideKeys(rt: Runtime, l: Ledger, ix: Instruction, keys: set<Pubkey>)
    requires Valid(rt, l) && KeysCovered(l, keys) && KeysOfEvent(Invoke(ix), keys) && Decide(rt, l, ix).Ok?
    ensures var effect := Decide(rt, l, ix).value;
            !effect.Release? ==> !effect.contents.Raw? && Within(KeyOf(effect.contents), keys)
  {
    hide Valid, Decide;
    DecideLawful(rt, l, ix);
    if IsCreate(ix) {
      CreatedKey(rt, l, ix);
      assert ix.CreateRegistrar? || Within(KeyOf(At(l, ix.registrar).contents), keys);
    }
  }

  /** The key of a new account: a registrar's comes from the arguments, the others' from the registrar. */
  lemma CreatedKey(rt: Runtime, l: Ledger, ix: Instruction)
    requires IsCreate(ix) && Decide(rt, l, ix).Ok?
    ensures var effect := Decide(rt, l, ix).value;
            && effect.Initialize? && !effect.contents.Raw?
            && (ix.CreateRegistrar? ==> KeyOf(effect.contents) == RegistrarSeeds(ix.realm, ix.mint))
            && (!ix.CreateRegistrar? ==>
                  At(l, ix.registrar).contents.RegistrarAccount?
                  && KeyOf(effect.contents) == SeedsOf(At(l, ix.registrar).contents.registrar, ix))
  {
    hide CheckInit, CheckAuthority, AddressOf;
  }

  /** The seeds that a create instruction's target has to be derived from. */
  function SeedsOf(g: Registrar, ix: Instruction): SeedKey
    requires IsCreate(ix)
  {
    if ix.CreateRegistrar? then RegistrarSeeds(ix.realm, ix.mint)
    else if ix.CreateVoter? then VoterSeeds(g.realm, g.governingTokenMint, ix.owner)
    else MaxSeeds(g.realm, g.governingTokenMint)
  }

  lemma {:induction false} RunKeysCovered(rt: Runtime, l: Ledger, es: seq<Event>, keys: set<Pubkey>)
    requires Sound(rt) && Genesis(rt, l) && KeysOfRun(es, keys)
    ensures KeysCovered(Run(rt, l, es), keys)
  {
    hide Step;
    if es != [] {
      var init := es[..|es| - 1];
      RunKeysCovered(rt, l, init, keys);
      RunValid(rt, l, init);
      StepKeepsKeysCovered(rt, Run(rt, l, init), es[|es| - 1], keys);
    }
  }

  // ---- funding ----

  /** A create instruction's payer can cover the deposit. */
  predicate PayerCovers(rt: Runtime, l: Ledger, ix: Instruction) {
    IsCreate(ix) ==> Funded(rt, l, Target(ix), ix.payer, SpaceFor(ix))
  }

  /** The ledger with the deposit for a create instruction already at its target. */
  function Prefunded(rt: Runtime, l: Ledger, ix: Instruction): Ledger {
    Credit(l, Target(ix), rt.rent(SpaceFor(ix)))
  }

  /** The instruction passes every check but for the deposit. */
  predicate PassesOtherwise(rt: Runtime, l: Ledger, ix: Instruction) {
    Decide(rt, Prefunded(rt, l, ix), ix).Ok?
  }

  /** The instruction passes every other check and its payer cannot cover the deposit. */
  predicate Short(rt: Runtime, l: Ledger, ix: Instruction) {
    PassesOtherwise(rt, l, ix) && !PayerCovers(rt, l, ix)
  }

  ghost predicate SameButBalances(l: Ledger, m: Ledger) {
    l.clock == m.clock && forall a :: Bare(At(l, a)) == Bare(At(m, a))
  }

  lemma LoadsIgnoreBalances(rt: Runtime, l: Ledger, m: Ledger, a: Pubkey)
    requires SameButBalances(l, m)
    ensures At(l, a).owner == At(m, a).owner && At(l, a).executable == At(m, a).executable
    ensures Free(l, a) <==> Free(m, a)
    ensures LoadRegistrarAtSeeds(rt, l, a) == LoadRegistrarAtSeeds(rt, m, a)
    ensures LoadVoter(l, a) == LoadVoter(m, a) && LoadMax(l, a) == LoadMax(m, a)
    ensures DataOf(At(l, a)) == DataOf(At(m, a)) && l.clock == m.clock
  {
    assert Bare(At(l, a)) == Bare(At(m, a));
  }

  lemma AuthorityIgnoresBalances(rt: Runtime, l: Ledger, m: Ledger, program: Pubkey, a: Pubkey, mint: Pubkey, k: Pubkey)
    requires SameButBalances(l, m)
    ensures CheckAuthority(rt, l, program, a, mint, k) == CheckAuthority(rt, m, program, a, mint, k)
  {
    assert Bare(At(l, a)) == Bare(At(m, a));
  }

  /** Balances matter to an instruction only through its payer's ability to cover the deposit. */
  lemma DecideIgnoresBalances(rt: Runtime, l: Ledger, m: Ledger, ix: Instruction)
    requires SameButBalances(l, m) && PayerCovers(rt, l, ix) && PayerCovers(rt, m, ix)
    ensures Decide(rt, l, ix) == Decide(rt, m, ix)
  {
    hide CheckIdentityData, AddressOf, Funded, Free, At, LoadRegistrarAtSeeds, LoadVoter, LoadMax, CheckAuthority;
    hide SameButBalances, Performable, DataOf, EligibleData;
    LoadsIgnoreBalances(rt, l, m, ix.registrar);
    LoadsIgnoreBalances(rt, l, m, Target(ix));
    if ix.UpdateVoter? && ix.identity.Some? {
      LoadsIgnoreBalances(rt, l, m, ix.identity.value);
    }
    if ix.CreateRegistrar? {
      LoadsIgnoreBalances(rt, l, m, ix.governanceProgram);
      LoadsIgnoreBalances(rt, l, m, ix.realm);
      AuthorityIgnoresBalances(rt, l, m, ix.governanceProgram, ix.realm, ix.mint, ix.realmAuthority);
    } else if !ix.CreateVoter? && !ix.UpdateVoter? && !ix.CloseVoter? && LoadRegistrarAtSeeds(rt, l, ix.registrar).Ok? {
      var g := LoadRegistrarAtSeeds(rt, l, ix.registrar).value;
      AuthorityIgnoresBalances(rt, l, m, g.governanceProgramId, ix.realm, g.governingTokenMint, ix.realmAuthority);
    }
  }

  lemma SuccessIsCovered(rt: Runtime, l: Ledger, ix: Instruction)
    requires Decide(rt, l, ix).Ok?
    ensures PayerCovers(rt, l, ix)
  {
    hide CheckIdentity, CheckAuthority, LoadRegistrarAtSeeds, Funded;
  }

  /** An instruction succeeds exactly when it passes otherwise and its payer covers the deposit. */
  lemma SuccessSplit(rt: Runtime, l: Ledger, ix: Instruction)
    ensures SameButBalances(l, Prefunded(rt, l, ix)) && PayerCovers(rt, Prefunded(rt, l, ix), ix)
    ensures Decide(rt, l, ix).Ok? <==> PassesOtherwise(rt, l, ix) && PayerCovers(rt, l, ix)
    ensures Decide(rt, l, ix).Ok? ==> Decide(rt, l, ix) == Decide(rt, Prefunded(rt, l, ix), ix)
  {
    hide Decide;
    if PayerCovers(rt, l, ix) {
      DecideIgnoresBalances(rt, l, Prefunded(rt, l, ix), ix);
    } else if Decide(rt, l, ix).Ok? {
      SuccessIsCovered(rt, l, ix);
    }
  }

  // ---- an instruction of the pair sees the same in both ledgers ----

  /** At an address derived from keys in play for this pair there is no account of another pair. */
  lemma OwnAddress(rt: Runtime, l: Ledger, keys: set<Pubkey>, k: SeedKey, realm: Pubkey, mint: Pubkey)
    requires Valid(rt, l) && KeysCovered(l, keys) && CollisionFree(rt, keys) && Within(k, keys)
    requires !k.IdentitySeeds? && k.realm == realm && k.mint == mint
    ensures View(At(l, AddressOf(rt, k)), realm, mint) == Bare(At(l, AddressOf(rt, k)))
  {
    var a := AddressOf(rt, k);
    if !At(l, a).contents.Raw? {
      assert ValidAccount(rt, l.clock, a, At(l, a));
      AddressesDiffer(rt, keys, k, KeyOf(At(l, a).contents));
    }
  }

  /** The realm reader answers alike, whatever the realm address holds. */
  lemma SameRealm(rt: Runtime, l1: Ledger, l2: Ledger, program: Pubkey, a: Pubkey, m: Pubkey,
                  realm: Pubkey, mint: Pubkey)
    requires Sound(rt) && Mirrors(l1, l2, realm, mint)
    ensures ReadRealm(rt, l1, program, a, m) == ReadRealm(rt, l2, program, a, m)
    ensures At(l1, a).owner != At(l2, a).owner ==> ReadRealm(rt, l1, program, a, m) == Rejected
  {
    assert Bare(At(l2, a)) == View(At(l1, a), realm, mint);
  }

  lemma SameRegistrar(rt: Runtime, l1: Ledger, l2: Ledger, a: Pubkey, realm: Pubkey, mint: Pubkey, keys: set<Pubkey>)
    requires Valid(rt, l1) && Mirrors(l1, l2, realm, mint)
    requires CollisionFree(rt, keys) && KeysCovered(l1, keys) && realm in keys && mint in keys
    requires a == RegistrarAddress(rt, realm, mint)
    ensures Bare(At(l1, a)) == Bare(At(l2, a))
    ensures LoadRegistrarAtSeeds(rt, l1, a) == LoadRegistrarAtSeeds(rt, l2, a)
    ensures LoadRegistrarAtSeeds(rt, l1, a).Ok? ==>
              var g := LoadRegistrarAtSeeds(rt, l1, a).value; g.realm == realm && g.governingTokenMint == mint
  {
    OwnAddress(rt, l1, keys, RegistrarSeeds(realm, mint), realm, mint);
    assert Bare(At(l2, a)) == View(At(l1, a), realm, mint);
    if !At(l1, a).contents.Raw? {
      AddressesDiffer(rt, keys, RegistrarSeeds(realm, mint), KeyOf(At(l1, a).contents));
    }
  }

  lemma SameTarget(rt: Runtime, l1: Ledger, l2: Ledger, k: SeedKey, realm: Pubkey, mint: Pubkey, keys: set<Pubkey>)
    requires Valid(rt, l1) && Mirrors(l1, l2, realm, mint)
    requires CollisionFree(rt, keys) && KeysCovered(l1, keys) && Within(k, keys)
    requires !k.IdentitySeeds? && k.realm == realm && k.mint == mint
    ensures Free(l1, AddressOf(rt, k)) <==> Free(l2, AddressOf(rt, k))
  {
    OwnAddress(rt, l1, keys, k, realm, mint);
    assert Bare(At(l2, AddressOf(rt, k))) == View(At(l1, AddressOf(rt, k)), realm, mint);
  }

  /** With the deposit out of the way, an instruction of the pair decides on the same effect in both ledgers. */
  lemma SameDecision(rt: Runtime, l1: Ledger, l2: Ledger, ix: Instruction, realm: Pubkey, mint: Pubkey,
                     keys: set<Pubkey>)
    requires Sound(rt) && Valid(rt, l1) && Mirrors(l1, l2, realm, mint)
    requires CollisionFree(rt, keys) && KeysCovered(l1, keys) && KeysOfEvent(Invoke(ix), keys)
    requires realm in keys && mint in keys && ix.registrar == RegistrarAddress(rt, realm, mint)
    requires PayerCovers(rt, l1, ix) && PayerCovers(rt, l2, ix)
    ensures Decide(rt, l1, ix).Ok? <==> Decide(rt, l2, ix).Ok?
    ensures Decide(rt, l1, ix).Ok? ==> Decide(rt, l1, ix) == Decide(rt, l2, ix)
  {
    hide Valid, KeysCovered, CollisionFree, AddressOf, Funded;
    SameRegistrar(rt, l1, l2, ix.registrar, realm, mint, keys);
    if ix.CreateRegistrar? {
      SameCreateRegistrar(rt, l1, l2, ix, realm, mint, keys);
    } else if LoadRegistrarAtSeeds(rt, l1, ix.registrar).Ok? {
      var g := LoadRegistrarAtSeeds(rt, l1, ix.registrar).value;
      if !ix.CreateVoter? && !ix.UpdateVoter? && !ix.CloseVoter? {
        SameRealm(rt, l1, l2, g.governanceProgramId, ix.realm, g.governingTokenMint, realm, mint);
      }
      if IsCreate(ix) {
        SameTarget(rt, l1, l2, SeedsOf(g, ix), realm, mint, keys);
      } else {
        SameUpdateOrClose(rt, l1, l2, ix, realm, mint);
      }
    }
  }

  lemma SameCreateRegistrar(rt: Runtime, l1: Ledger, l2: Ledger, ix: Instruction, realm: Pubkey, mint: Pubkey,
                            keys: set<Pubkey>)
    requires Sound(rt) && Valid(rt, l1) && Mirrors(l1, l2, realm, mint)
    requires CollisionFree(rt, keys) && KeysCovered(l1, keys) && KeysOfEvent(Invoke(ix), keys)
    requires realm in keys && mint in keys && ix.registrar == RegistrarAddress(rt, realm, mint)
    requires ix.CreateRegistrar? && PayerCovers(rt, l1, ix) && PayerCovers(rt, l2, ix)
    ensures Decide(rt, l1, ix).Ok? <==> Decide(rt, l2, ix).Ok?
    ensures Decide(rt, l1, ix).Ok? ==> Decide(rt, l1, ix) == Decide(rt, l2, ix)
  {
    hide Decide, Free, Funded, ReadRealm, CollisionFree, KeysCovered, Sound, AddressOf;
    SameRealm(rt, l1, l2, ix.governanceProgram, ix.realm, ix.mint, realm, mint);
    SameTarget(rt, l1, l2, RegistrarSeeds(realm, mint), realm, mint, keys);
    assert ValidAccount(rt, l1.clock, ix.governanceProgram, At(l1, ix.governanceProgram));
    assert Bare(At(l2, ix.governanceProgram)) == View(At(l1, ix.governanceProgram), realm, mint);
    SameCreateChecks(rt, l1, l2, ix);
  }

  /** The creation of a registrar depends on the ledger through these five checks. */
  lemma SameCreateChecks(rt: Runtime, l1: Ledger, l2: Ledger, ix: Instruction)
    requires ix.CreateRegistrar? && PayerCovers(rt, l1, ix) && PayerCovers(rt, l2, ix)
    requires Free(l1, ix.registrar) <==> Free(l2, ix.registrar)
    requires At(l1, ix.governanceProgram).executable <==> At(l2, ix.governanceProgram).executable
    requires ReadRealm(rt, l1, ix.governanceProgram, ix.realm, ix.mint)
             == ReadRealm(rt, l2, ix.governanceProgram, ix.realm, ix.mint)
    requires At(l1, ix.realm).owner != At(l2, ix.realm).owner ==>
               ReadRealm(rt, l1, ix.governanceProgram, ix.realm, ix.mint) == Rejected
    ensures Decide(rt, l1, ix).Ok? <==> Decide(rt, l2, ix).Ok?
    ensures Decide(rt, l1, ix).Ok? ==> Decide(rt, l1, ix) == Decide(rt, l2, ix)
  {
    hide Free, Funded, ReadRealm, At, AddressOf, Performable;
  }

  lemma SameUpdateOrClose(rt: Runtime, l1: Ledger, l2: Ledger, ix: Instruction, realm: Pubkey, mint: Pubkey)
    requires Sound(rt) && Mirrors(l1, l2, realm, mint) && !IsCreate(ix)
    requires LoadRegistrarAtSeeds(rt, l1, ix.registrar).Ok?
    requires LoadRegistrarAtSeeds(rt, l1, ix.registrar) == LoadRegistrarAtSeeds(rt, l2, ix.registrar)
    requires LoadRegistrarAtSeeds(rt, l1, ix.registrar).value.realm == realm
    requires LoadRegistrarAtSeeds(rt, l1, ix.registrar).value.governingTokenMint == mint
    ensures Decide(rt, l1, ix).Ok? <==> Decide(rt, l2, ix).Ok?
    ensures Decide(rt, l1, ix).Ok? ==> Decide(rt, l1, ix) == Decide(rt, l2, ix)
  {
    hide CheckIdentity, AddressOf, CheckAuthority, LoadRegistrarAtSeeds;
    var g := LoadRegistrarAtSeeds(rt, l1, ix.registrar).value;
    ProgramIdsDiffer();
    assert Bare(At(l2, Target(ix))) == View(At(l1, Target(ix)), realm, mint);
    if ix.UpdateVoter? {
      SameIdentity(rt, l1, l2, ix.identity, ix.voter, g, realm, mint);
    }
    if !ix.UpdateVoter? && !ix.CloseVoter? {
      SameAuthority(rt, l1, l2, g.governanceProgramId, ix.realm, g.governingTokenMint, ix.realmAuthority, realm, mint);
    }
  }

  lemma SameAuthority(rt: Runtime, l1: Ledger, l2: Ledger, program: Pubkey, a: Pubkey, m: Pubkey, authority: Pubkey,
                      realm: Pubkey, mint: Pubkey)
    requires Sound(rt) && Mirrors(l1, l2, realm, mint)
    ensures CheckAuthority(rt, l1, program, a, m, authority) == CheckAuthority(rt, l2, program, a, m, authority)
  {
    SameRealm(rt, l1, l2, program, a, m, realm, mint);
  }

  lemma SameIdentity(rt: Runtime, l1: Ledger, l2: Ledger, identity: Option<Pubkey>, voter: Pubkey, g: Registrar,
                     realm: Pubkey, mint: Pubkey)
    requires Mirrors(l1, l2, realm, mint)
    ensures CheckIdentity(rt, l1, identity, voter, g).Ok? <==> CheckIdentity(rt, l2, identity, voter, g).Ok?
  {
    ProgramIdsDiffer();
    if identity.Some? {
      assert Bare(At(l2, identity.value)) == View(At(l1, identity.value), realm, mint);
    }
  }

  // ---- one step of the two runs ----

  /** An effect on accounts of other pairs is invisible to the pair. */
  lemma OtherEffectInvisible(rt: Runtime, l1: Ledger, l2: Ledger, effect: Effect, realm: Pubkey, mint: Pubkey)
    requires Sound(rt) && Valid(rt, l1)
    requires Mirrors(l1, l2, realm, mint) && Performable(rt, l1, effect) && Lawful(rt, l1, effect)
    requires effect.Release? ==> PairOf(At(l1, effect.target).contents) != (realm, mint)
    requires !effect.Release? ==> PairOf(effect.contents) != (realm, mint)
    ensures Mirrors(Perform(rt, l1, effect), l2, realm, mint)
  {
    var next := Perform(rt, l1, effect);
    PerformAtTarget(rt, l1, effect);
    assert ValidAccount(rt, l1.clock, effect.target, At(l1, effect.target));
    forall a ensures Bare(At(l2, a)) == View(At(next, a), realm, mint) {
      assert Bare(At(l2, a)) == View(At(l1, a), realm, mint);
      if a != effect.target { PerformElsewhere(rt, l1, effect, a); }
    }
  }

  /** An instruction that succeeds works on accounts of its registrar's pair. */
  lemma WorksOnOwnPair(rt: Runtime, l: Ledger, ix: Instruction, realm: Pubkey, mint: Pubkey)
    requires Valid(rt, l) && Decide(rt, l, ix).Ok? && ix.registrar != RegistrarAddress(rt, realm, mint)
    ensures var effect := Decide(rt, l, ix).value;
            && Lawful(rt, l, effect)
            && (effect.Release? ==> PairOf(At(l, effect.target).contents) != (realm, mint))
            && (!effect.Release? ==> PairOf(effect.contents) != (realm, mint))
  {
    hide CheckInit, CheckAuthority, CheckIdentity, AddressOf;
    DecideLawful(rt, l, ix);
  }

  /** The same effect on both ledgers keeps the one the view of the other. */
  lemma SameEffectMirrors(rt: Runtime, l1: Ledger, l2: Ledger, effect: Effect, realm: Pubkey, mint: Pubkey)
    requires Mirrors(l1, l2, realm, mint)
    requires Performable(rt, l1, effect) && Performable(rt, l2, effect)
    requires Lawful(rt, l1, effect)
    requires !effect.Release? ==> PairOf(effect.contents) == (realm, mint)
    requires effect.Overwrite? ==> Bare(At(l1, effect.target)) == Bare(At(l2, effect.target))
    ensures Mirrors(Perform(rt, l1, effect), Perform(rt, l2, effect), realm, mint)
  {
    var next1, next2 := Perform(rt, l1, effect), Perform(rt, l2, effect);
    PerformAtTarget(rt, l1, effect);
    PerformAtTarget(rt, l2, effect);
    forall a ensures Bare(At(next2, a)) == View(At(next1, a), realm, mint) {
      assert Bare(At(l2, a)) == View(At(l1, a), realm, mint);
      if a != effect.target {
        PerformElsewhere(rt, l1, effect, a);
        PerformElsewhere(rt, l2, effect, a);
      }
    }
  }

  /** An effect of the pair's own registrar is on an account of the pair. */
  lemma EffectOfPair(rt: Runtime, l: Ledger, ix: Instruction, realm: Pubkey, mint: Pubkey, keys: set<Pubkey>)
    requires Valid(rt, l) && CollisionFree(rt, keys) && KeysCovered(l, keys) && KeysOfEvent(Invoke(ix), keys)
    requires realm in keys && mint in keys && ix.registrar == RegistrarAddress(rt, realm, mint)
    requires Decide(rt, l, ix).Ok?
    ensures var effect := Decide(rt, l, ix).value;
            && Lawful(rt, l, effect)
            && (!effect.Release? ==> PairOf(effect.contents) == (realm, mint))
            && (!effect.Initialize? ==> PairOf(At(l, effect.target).contents) == (realm, mint))
  {
    hide CheckInit, CheckAuthority, CheckIdentity, AddressOf, Valid;
    DecideLawful(rt, l, ix);
    if ix.CreateRegistrar? {
      AddressesDiffer(rt, keys, RegistrarSeeds(realm, mint), RegistrarSeeds(ix.realm, ix.mint));
    } else {
      AddressesDiffer(rt, keys, RegistrarSeeds(realm, mint), KeyOf(At(l, ix.registrar).contents));
    }
  }

  lemma MirrorsPrefunded(rt: Runtime, l1: Ledger, l2: Ledger, ix: Instruction, realm: Pubkey, mint: Pubkey,
                         keys: set<Pubkey>)
    requires Valid(rt, l1) && Mirrors(l1, l2, realm, mint) && KeysCovered(l1, keys)
    ensures Valid(rt, Prefunded(rt, l1, ix)) && KeysCovered(Prefunded(rt, l1, ix), keys)
    ensures Mirrors(Prefunded(rt, l1, ix), Prefunded(rt, l2, ix), realm, mint)
  {
    var m1, m2 := Prefunded(rt, l1, ix), Prefunded(rt, l2, ix);
    forall a
      ensures ValidAccount(rt, m1.clock, a, At(m1, a))
      ensures Bare(At(m2, a)) == View(At(m1, a), realm, mint)
      ensures !At(m1, a).contents.Raw? ==> Within(KeyOf(At(m1, a).contents), keys)
    {
      assert ValidAccount(rt, l1.clock, a, At(l1, a));
      assert Bare(At(l2, a)) == View(At(l1, a), realm, mint);
    }
  }

  /** The pair's instruction passes its other checks in both ledgers or in neither. */
  lemma PassesOtherwiseAlike(rt: Runtime, l1: Ledger, l2: Ledger, ix: Instruction, realm: Pubkey, mint: Pubkey,
                             keys: set<Pubkey>)
    requires Sound(rt) && Valid(rt, l1) && Mirrors(l1, l2, realm, mint)
    requires CollisionFree(rt, keys) && KeysCovered(l1, keys) && KeysOfEvent(Invoke(ix), keys)
    requires realm in keys && mint in keys && ix.registrar == RegistrarAddress(rt, realm, mint)
    ensures PassesOtherwise(rt, l1, ix) <==> PassesOtherwise(rt, l2, ix)
    ensures Decide(rt, l1, ix).Ok? && Decide(rt, l2, ix).Ok? ==> Decide(rt, l1, ix) == Decide(rt, l2, ix)
  {
    hide Decide, Valid, KeysCovered, Mirrors, CollisionFree, PayerCovers, Prefunded;
    SuccessSplit(rt, l1, ix);
    SuccessSplit(rt, l2, ix);
    MirrorsPrefunded(rt, l1, l2, ix, realm, mint, keys);
    SameDecision(rt, Prefunded(rt, l1, ix), Prefunded(rt, l2, ix), ix, realm, mint, keys);
  }

  /** Both ledgers reject the event, or both let it happen; in this pair's eyes. */
  predicate SameVerdict(rt: Runtime, l1: Ledger, l2: Ledger, e: Event) {
    e.Invoke? ==> (Decide(rt, l1, e.ix).Ok? <==> Decide(rt, l2, e.ix).Ok?)
  }

  /** The event lacks lamports, and nothing else, in both ledgers or in neither. */
  predicate SameFunding(rt: Runtime, l1: Ledger, l2: Ledger, e: Event) {
    e.Invoke? ==> (Short(rt, l1, e.ix) <==> Short(rt, l2, e.ix))
  }

  /** For an instruction of the pair, verdicts agree exactly when funding does; and then the view is kept. */
  lemma OwnInstruction(rt: Runtime, l1: Ledger, l2: Ledger, ix: Instruction, realm: Pubkey, mint: Pubkey,
                       keys: set<Pubkey>)
    requires Sound(rt) && Valid(rt, l1) && Mirrors(l1, l2, realm, mint)
    requires CollisionFree(rt, keys) && KeysCovered(l1, keys) && KeysOfEvent(Invoke(ix), keys)
    requires realm in keys && mint in keys && ix.registrar == RegistrarAddress(rt, realm, mint)
    ensures SameVerdict(rt, l1, l2, Invoke(ix)) <==> SameFunding(rt, l1, l2, Invoke(ix))
    ensures SameVerdict(rt, l1, l2, Invoke(ix)) <==>
            Mirrors(Step(rt, l1, Invoke(ix)), Step(rt, l2, Invoke(ix)), realm, mint)
  {
    hide Decide, Valid, KeysCovered, CollisionFree, PayerCovers, Prefunded, PassesOtherwise, Perform;
    PassesOtherwiseAlike(rt, l1, l2, ix, realm, mint, keys);
    SuccessSplit(rt, l1, ix);
    SuccessSplit(rt, l2, ix);
    if Decide(rt, l1, ix).Ok? && Decide(rt, l2, ix).Ok? {
      var effect := Decide(rt, l1, ix).value;
      EffectOfPair(rt, l1, ix, realm, mint, keys);
      assert Bare(At(l2, effect.target)) == View(At(l1, effect.target), realm, mint);
      SameEffectMirrors(rt, l1, l2, effect, realm, mint);
    } else if Decide(rt, l1, ix).Ok? {
      FundingGap(rt, l1, l2, ix, realm, mint, keys);
    } else if Decide(rt, l2, ix).Ok? {
      FundingGapReversed(rt, l1, l2, ix, realm, mint, keys);
    }
  }

  /** A creation that only the full run can pay for shows: the account is there in one run and not in the other. */
  lemma FundingGap(rt: Runtime, l1: Ledger, l2: Ledger, ix: Instruction, realm: Pubkey, mint: Pubkey, keys: set<Pubkey>)
    requires Sound(rt) && Valid(rt, l1) && Mirrors(l1, l2, realm, mint)
    requires CollisionFree(rt, keys) && KeysCovered(l1, keys) && KeysOfEvent(Invoke(ix), keys)
    requires realm in keys && mint in keys && ix.registrar == RegistrarAddress(rt, realm, mint)
    requires Decide(rt, l1, ix).Ok? && !Decide(rt, l2, ix).Ok?
    ensures !Mirrors(Step(rt, l1, Invoke(ix)), l2, realm, mint)
  {
    hide Decide, Valid, KeysCovered, CollisionFree, Prefunded, PassesOtherwise, Perform;
    PassesOtherwiseAlike(rt, l1, l2, ix, realm, mint, keys);
    SuccessSplit(rt, l1, ix);
    SuccessSplit(rt, l2, ix);
    var effect := Decide(rt, l1, ix).value;
    EffectOfPair(rt, l1, ix, realm, mint, keys);
    PerformAtTarget(rt, l1, effect);
    assert Bare(At(l2, effect.target)) == View(At(l1, effect.target), realm, mint);
    assert Bare(At(l2, effect.target)) != View(At(Perform(rt, l1, effect), effect.target), realm, mint);
  }

  lemma FundingGapReversed(rt: Runtime, l1: Ledger, l2: Ledger, ix: Instruction, realm: Pubkey, mint: Pubkey,
                           keys: set<Pubkey>)
    requires Sound(rt) && Valid(rt, l1) && Mirrors(l1, l2, realm, mint)
    requires CollisionFree(rt, keys) && KeysCovered(l1, keys) && KeysOfEvent(Invoke(ix), keys)
    requires realm in keys && mint in keys && ix.registrar == RegistrarAddress(rt, realm, mint)
    ensures !Decide(rt, l1, ix).Ok? && Decide(rt, l2, ix).Ok? ==> !Mirrors(l1, Step(rt, l2, Invoke(ix)), realm, mint)
  {
    hide Decide, Valid, KeysCovered, CollisionFree, Prefunded, PassesOtherwise, Perform;
    PassesOtherwiseAlike(rt, l1, l2, ix, realm, mint, keys);
    SuccessSplit(rt, l1, ix);
    SuccessSplit(rt, l2, ix);
    if !Decide(rt, l1, ix).Ok? && Decide(rt, l2, ix).Ok? {
      ProgramIdsDiffer();
      CreatedAtTarget(rt, l2, ix);
      FreeForBoth(rt, l1, l2, ix, realm, mint, keys);
      var effect := Decide(rt, l2, ix).value;
      PerformAtTarget(rt, l2, effect);
      assert Bare(At(Perform(rt, l2, effect), effect.target)) != View(At(l1, effect.target), realm, mint);
    }
  }

  lemma CreatedAtTarget(rt: Runtime, l: Ledger, ix: Instruction)
    requires Decide(rt, l, ix).Ok? && IsCreate(ix)
    ensures Decide(rt, l, ix).value.Initialize?
    ensures Decide(rt, l, ix).value.target == Target(ix) && Performable(rt, l, Decide(rt, l, ix).value)
  {
    hide Performable;
  }

  /** The target of a creation that would pass in the full run is free there. */
  lemma FreeForBoth(rt: Runtime, l1: Ledger, l2: Ledger, ix: Instruction, realm: Pubkey, mint: Pubkey,
                    keys: set<Pubkey>)
    requires Sound(rt) && Valid(rt, l1) && Mirrors(l1, l2, realm, mint) && IsCreate(ix)
    requires CollisionFree(rt, keys) && KeysCovered(l1, keys) && KeysOfEvent(Invoke(ix), keys)
    requires realm in keys && mint in keys && ix.registrar == RegistrarAddress(rt, realm, mint)
    requires PassesOtherwise(rt, l1, ix)
    ensures Free(l1, Target(ix))
  {
    hide Decide, Valid, Mirrors;
    SuccessSplit(rt, l1, ix);
    CreatedAtTarget(rt, Prefunded(rt, l1, ix), ix);
  }

  /** An event the projection drops, or a move of the environment, keeps the view. */
  lemma OtherEvent(rt: Runtime, l1: Ledger, l2: Ledger, e: Event, realm: Pubkey, mint: Pubkey)
    requires Sound(rt) && Valid(rt, l1) && Valid(rt, l2) && Mirrors(l1, l2, realm, mint)
    ensures !Concerns(rt, e, realm, mint) ==> Mirrors(Step(rt, l1, e), l2, realm, mint)
    ensures !e.Invoke? ==> Mirrors(Step(rt, l1, e), Step(rt, l2, e), realm, mint)
  {
    hide Decide, Perform;
    if e.Invoke? {
      if !Concerns(rt, e, realm, mint) && Succeeds(rt, l1, e) {
        WorksOnOwnPair(rt, l1, e.ix, realm, mint);
        OtherEffectInvisible(rt, l1, l2, Decide(rt, l1, e.ix).value, realm, mint);
      }
    } else {
      EnvironmentMirrors(rt, l1, l2, e, realm, mint);
    }
  }

  lemma EnvironmentMirrors(rt: Runtime, l1: Ledger, l2: Ledger, e: Event, realm: Pubkey, mint: Pubkey)
    requires Mirrors(l1, l2, realm, mint) && !e.Invoke?
    ensures Mirrors(Step(rt, l1, e), Step(rt, l2, e), realm, mint)
  {
    hide Step, Apply;
    forall a ensures Bare(At(Step(rt, l2, e), a)) == View(At(Step(rt, l1, e), a), realm, mint) {
      EnvironmentAt(rt, l1, e, a);
      EnvironmentAt(rt, l2, e, a);
      assert Bare(At(l2, a)) == View(At(l1, a), realm, mint);
    }
    EnvironmentAt(rt, l1, e, PLUGIN_ID);
    EnvironmentAt(rt, l2, e, PLUGIN_ID);
  }

  // ---- whole runs ----

  /** After the first `n` events, the projected run is what the pair sees of the full run. */
  ghost predicate MirrorsAt(rt: Runtime, l: Ledger, es: seq<Event>, n: nat, realm: Pubkey, mint: Pubkey)
    requires n <= |es|
  {
    Mirrors(Run(rt, l, es[..n]), Run(rt, l, Projected(rt, es[..n], realm, mint)), realm, mint)
  }

  /** Event `n`, if it is the pair's, lacks lamports and nothing else in both runs or in neither. */
  predicate FundedAlikeAt(rt: Runtime, l: Ledger, es: seq<Event>, n: nat, realm: Pubkey, mint: Pubkey)
    requires n < |es|
  {
    Concerns(rt, es[n], realm, mint) ==>
      SameFunding(rt, Run(rt, l, es[..n]), Run(rt, l, Projected(rt, es[..n], realm, mint)), es[n])
  }

  lemma ProjectedNext(rt: Runtime, es: seq<Event>, n: nat, realm: Pubkey, mint: Pubkey)
    requires n < |es|
    ensures Projected(rt, es[..n + 1], realm, mint) ==
            Projected(rt, es[..n], realm, mint) + (if Concerns(rt, es[n], realm, mint) then [es[n]] else [])
  {
    assert es[..n + 1][..n] == es[..n];
  }

  /** One more event: the projection stays exact if and only if the event is funded alike. */
  lemma MirrorsNext(rt: Runtime, l: Ledger, es: seq<Event>, n: nat, realm: Pubkey, mint: Pubkey, keys: set<Pubkey>)
    requires Sound(rt) && Genesis(rt, l) && KeysOfRun(es, keys) && CollisionFree(rt, keys)
    requires realm in keys && mint in keys && n < |es| && MirrorsAt(rt, l, es, n, realm, mint)
    ensures MirrorsAt(rt, l, es, n + 1, realm, mint) <==> FundedAlikeAt(rt, l, es, n, realm, mint)
  {
    hide Step, Apply, Mirrors, SameFunding, Valid, KeysCovered, CollisionFree;
    var full, projected := Run(rt, l, es[..n]), Run(rt, l, Projected(rt, es[..n], realm, mint));
    RunPrefix(rt, l, es, n);
    ProjectedNext(rt, es, n, realm, mint);
    RunAppend(rt, l, Projected(rt, es[..n], realm, mint), es[n]);
    RunValid(rt, l, es[..n]);
    RunValid(rt, l, Projected(rt, es[..n], realm, mint));
    RunKeysCovered(rt, l, es[..n], keys);
    if es[n].Invoke? && Concerns(rt, es[n], realm, mint) {
      OwnInstruction(rt, full, projected, es[n].ix, realm, mint, keys);
    } else {
      OtherEvent(rt, full, projected, es[n], realm, mint);
      EnvironmentFundedAlike(rt, full, projected, es[n]);
    }
    assert Projected(rt, es[..n], realm, mint) + [] == Projected(rt, es[..n], realm, mint);
  }

  lemma EnvironmentFundedAlike(rt: Runtime, l1: Ledger, l2: Ledger, e: Event)
    ensures !e.Invoke? ==> SameFunding(rt, l1, l2, e)
  {
  }

  lemma MirrorsAtStart(rt: Runtime, l: Ledger, es: seq<Event>, realm: Pubkey, mint: Pubkey)
    requires Genesis(rt, l)
    ensures MirrorsAt(rt, l, es, 0, realm, mint)
  {
    assert es[..0] == [];
    forall a ensures Bare(At(l, a)) == View(At(l, a), realm, mint) {
      assert At(l, a).contents.Raw?;
    }
  }

  /**
   * Isolation. Take any run and drop the instructions that are for other registrars. At every point of the run the
   * shorter run leaves the realm and mint the same registrar, voter records and max record, and every other account
   * the same but for balances, if and only if none of the pair's own creations fails for lack of lamports in one of
   * the two runs only.
   */
  lemma {:induction false} IsolatedIffFundedAlike(rt: Runtime, l: Ledger, es: seq<Event>, n: nat, realm: Pubkey,
                                                  mint: Pubkey, keys: set<Pubkey>)
    requires Sound(rt) && Genesis(rt, l) && KeysOfRun(es, keys) && CollisionFree(rt, keys)
    requires realm in keys && mint in keys && n <= |es|
    ensures (forall m :: 0 <= m <= n ==> MirrorsAt(rt, l, es, m, realm, mint)) <==>
            (forall m :: 0 <= m < n ==> FundedAlikeAt(rt, l, es, m, realm, mint))
  {
    hide MirrorsAt, FundedAlikeAt, Sound, Genesis, CollisionFree;
    if n == 0 {
      MirrorsAtStart(rt, l, es, realm, mint);
    } else {
      IsolatedIffFundedAlike(rt, l, es, n - 1, realm, mint, keys);
      if forall m :: 0 <= m <= n - 1 ==> MirrorsAt(rt, l, es, m, realm, mint) {
        assert MirrorsAt(rt, l, es, n - 1, realm, mint);
        MirrorsNext(rt, l, es, n - 1, realm, mint, keys);
      }
    }
  }

  /** What isolation means for the pair's accounts: they are the same ones, with the same contents. */
  lemma IsolationOfAccounts(rt: Runtime, l: Ledger, es: seq<Event>, realm: Pubkey, mint: Pubkey,
                            keys: set<Pubkey>, c: Contents, a: Pubkey)
    requires Sound(rt) && Genesis(rt, l) && KeysOfRun(es, keys) && CollisionFree(rt, keys)
    requires realm in keys && mint in keys
    requires forall m :: 0 <= m < |es| ==> FundedAlikeAt(rt, l, es, m, realm, mint)
    requires !c.Raw? && PairOf(c) == (realm, mint)
    ensures At(Run(rt, l, es), a).contents == c <==> At(Run(rt, l, Projected(rt, es, realm, mint)), a).contents == c
  {
    IsolatedIffFundedAlike(rt, l, es, |es|, realm, mint, keys);
    assert MirrorsAt(rt, l, es, |es|, realm, mint);
    assert es[..|es|] == es;
    assert Bare(At(Run(rt, l, Projected(rt, es, realm, mint)), a)) == View(At(Run(rt, l, es), a), realm, mint);
  }
}
