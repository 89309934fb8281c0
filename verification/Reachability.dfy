/** What holds of every account in every reachable ledger. */
module Reachability {
  import opened Prelude
  import opened Bytes
  import opened Records
  import opened Addresses
  import opened Identity
  import opened Ledgers

  /** A registrar at the address of its own key fields, with a limit somebody can meet. */
  predicate ValidRegistrar(rt: Runtime, a: Pubkey, g: Registrar) {
    a == RegistrarAddress(rt, g.realm, g.governingTokenMint) && g.maxVerificationAge > 0 && g.reserved == Zeros(64)
  }

  /** A voter record at the address of its own key fields: born expired, or of weight one with a bounded expiry. */
  predicate ValidVoter(rt: Runtime, clock: Clock, a: Pubkey, v: VoterWeightRecord) {
    && a == VoterAddress(rt, v.realm, v.governingTokenMint, v.governingTokenOwner)
    && v.accountDiscriminator == VOTER_DISCRIMINATOR && v.reserved == Zeros(8)
    && v.weightAction == None && v.weightActionTarget == None
    && v.voterWeightExpiry.Some?
    && ((v.voterWeight == 0 && v.voterWeightExpiry.value == 0) ||
        (v.voterWeight == 1 && 100 <= v.voterWeightExpiry.value <= ExpiryFor(clock.slot)))
  }

  /** A max record at the address of its own key fields: as created, or set by the administrator for good. */
  predicate ValidMax(rt: Runtime, a: Pubkey, m: MaxVoterWeightRecord) {
    && a == MaxAddress(rt, m.realm, m.governingTokenMint)
    && m.accountDiscriminator == MAX_DISCRIMINATOR && m.reserved == Zeros(8)
    && ((m.maxVoterWeight == 0 && m.maxVoterWeightExpiry == Some(0)) ||
        (m.maxVoterWeight > 0 && m.maxVoterWeightExpiry == None))
  }

  function SpaceOf(c: Contents): nat
    requires !c.Raw?
  {
    match c
    case RegistrarAccount(_) => REGISTRAR_SPACE
    case VoterAccount(_) => VOTER_SPACE
    case MaxAccount(_) => MAX_SPACE
  }

  predicate ValidContents(rt: Runtime, clock: Clock, a: Pubkey, c: Contents)
    requires !c.Raw?
  {
    match c
    case RegistrarAccount(g) => ValidRegistrar(rt, a, g)
    case VoterAccount(v) => ValidVoter(rt, clock, a, v)
    case MaxAccount(m) => ValidMax(rt, a, m)
  }

  predicate ValidAccount(rt: Runtime, clock: Clock, a: Pubkey, account: Account) {
    if account.contents.Raw? then Untyped(rt, a, account) else
      && account.owner == PLUGIN_ID && !account.executable
      && account.lamports >= rt.rent(SpaceOf(account.contents))
      && ValidContents(rt, clock, a, account.contents)
  }

  ghost predicate Valid(rt: Runtime, l: Ledger) {
    forall a :: ValidAccount(rt, l.clock, a, At(l, a))
  }

  /** The pair of realm and mint a typed account belongs to. */
  function PairOf(c: Contents): (Pubkey, Pubkey)
    requires !c.Raw?
  {
    match c
    case RegistrarAccount(g) => (g.realm, g.governingTokenMint)
    case VoterAccount(v) => (v.realm, v.governingTokenMint)
    case MaxAccount(m) => (m.realm, m.governingTokenMint)
  }

  /** The seeds a typed account's own fields name. */
  function KeyOf(c: Contents): SeedKey
    requires !c.Raw?
  {
    match c
    case RegistrarAccount(g) => RegistrarSeeds(g.realm, g.governingTokenMint)
    case VoterAccount(v) => VoterSeeds(v.realm, v.governingTokenMint, v.governingTokenOwner)
    case MaxAccount(m) => MaxSeeds(m.realm, m.governingTokenMint)
  }

  /** Two typed accounts that agree on every field that is fixed at creation. */
  predicate SameFixed(c: Contents, d: Contents) {
    && !c.Raw? && !d.Raw? && KeyOf(c) == KeyOf(d)
    && (c.RegistrarAccount? ==> c.registrar.governanceProgramId == d.registrar.governanceProgramId)
  }

  // ---- what one effect does to each address ----

  /** An account without its balance. */
  function Bare(account: Account): Account { account.(lamports := 0) }

  /** Away from its target, an effect moves lamports only, and takes them only from plain wallets. */
  lemma PerformElsewhere(rt: Runtime, l: Ledger, effect: Effect, b: Pubkey)
    requires Performable(rt, l, effect) && b != effect.target
    ensures Bare(At(Perform(rt, l, effect), b)) == Bare(At(l, b))
    ensures At(Perform(rt, l, effect), b).lamports >= At(l, b).lamports || Free(l, b)
  {
  }

  /** How an effect moves lamports away from its target. */
  lemma PerformPays(rt: Runtime, l: Ledger, effect: Effect, b: Pubkey)
    requires Performable(rt, l, effect) && b != effect.target
    ensures At(Perform(rt, l, effect), b).lamports ==
            At(l, b).lamports
            - (if effect.Initialize? && effect.payer == b then Shortfall(rt, l, effect.target, effect.space) else 0)
            + (if effect.Release? && effect.destination == b then At(l, effect.target).lamports else 0)
  {
  }

  lemma PerformAtTarget(rt: Runtime, l: Ledger, effect: Effect)
    requires Performable(rt, l, effect)
    ensures At(Perform(rt, l, effect), effect.target) ==
            match effect
            case Initialize(target, _, space, contents) =>
              Account(At(l, target).lamports + Shortfall(rt, l, target, space), PLUGIN_ID, false, contents)
            case Overwrite(target, contents) => At(l, target).(contents := contents)
            case Release(_, _) => VACANT
    ensures Perform(rt, l, effect).clock == l.clock
  {
  }

  /** What a move of the environment does to an address, balances aside. */
  lemma EnvironmentAt(rt: Runtime, l: Ledger, e: Event, a: Pubkey)
    requires !e.Invoke?
    ensures Bare(At(Step(rt, l, e), a)) ==
            if e.SetForeign? && e.address == a && Succeeds(rt, l, e) then Account(0, e.owner, e.executable, Raw(e.data))
            else Bare(At(l, a))
    ensures e.SetForeign? ==>
              (Succeeds(rt, l, e) <==> !rt.reserved(e.address) && (e.owner == PLUGIN_ID ==> AllZero(e.data)))
    ensures e.AdvanceClock? ==> (Succeeds(rt, l, e) <==> l.clock.slot + e.slots <= U64_MAX)
    ensures Step(rt, l, e).clock ==
            if e.AdvanceClock? && Succeeds(rt, l, e) then Clock(l.clock.slot + e.slots, e.unixTimestamp) else l.clock
  {
  }

  /** What a move of the environment does to a balance. */
  lemma EnvironmentPays(rt: Runtime, l: Ledger, e: Event, a: Pubkey)
    requires !e.Invoke?
    ensures At(Step(rt, l, e), a).lamports ==
            At(l, a).lamports - (if e.Transfer? && Succeeds(rt, l, e) && e.source == a then e.amount else 0)
                              + (if e.Transfer? && Succeeds(rt, l, e) && e.destination == a then e.amount else 0)
    ensures e.Transfer? ==>
              (Succeeds(rt, l, e) <==> At(l, e.source).owner != PLUGIN_ID && e.amount <= At(l, e.source).lamports)
  {
  }

  /** What the handlers guarantee of the effects they decide on. */
  predicate Lawful(rt: Runtime, l: Ledger, effect: Effect) {
    var before := At(l, effect.target);
    match effect
    case Initialize(target, _, space, contents) =>
      !contents.Raw? && space == SpaceOf(contents) && ValidContents(rt, l.clock, target, contents)
    case Overwrite(target, contents) =>
      SameFixed(contents, before.contents)
      && ValidContents(rt, l.clock, target, contents)
    case Release(_, _) => before.contents.RegistrarAccount? || before.contents.VoterAccount?
  }

  lemma DecideLawful(rt: Runtime, l: Ledger, ix: Instruction)
    requires Valid(rt, l) && Decide(rt, l, ix).Ok?
    ensures Lawful(rt, l, Decide(rt, l, ix).value)
  {
    hide CheckInit, CheckAuthority, CheckIdentity;
    assert ValidAccount(rt, l.clock, Target(ix), At(l, Target(ix)));
    assert ValidAccount(rt, l.clock, ix.registrar, At(l, ix.registrar));
  }

  // ---- every step keeps every account valid ----

  lemma EffectKeepsValid(rt: Runtime, l: Ledger, effect: Effect)
    requires Sound(rt) && Valid(rt, l) && Performable(rt, l, effect) && Lawful(rt, l, effect)
    ensures Valid(rt, Perform(rt, l, effect))
  {
    var next := Perform(rt, l, effect);
    forall b ensures ValidAccount(rt, next.clock, b, At(next, b)) {
      assert ValidAccount(rt, l.clock, b, At(l, b));
      PerformAtTarget(rt, l, effect);
      if b != effect.target {
        PerformElsewhere(rt, l, effect, b);
      }
    }
  }

  lemma EnvironmentKeepsValid(rt: Runtime, l: Ledger, e: Event)
    requires Valid(rt, l) && !e.Invoke?
    ensures Valid(rt, Step(rt, l, e))
  {
    hide Step, Apply;
    var next := Step(rt, l, e);
    forall b ensures ValidAccount(rt, next.clock, b, At(next, b)) {
      assert ValidAccount(rt, l.clock, b, At(l, b));
      EnvironmentAt(rt, l, e, b);
      EnvironmentPays(rt, l, e, b);
    }
  }

  lemma StepKeepsValid(rt: Runtime, l: Ledger, e: Event)
    requires Sound(rt) && Valid(rt, l)
    ensures Valid(rt, Step(rt, l, e))
  {
    if Succeeds(rt, l, e) {
      if e.Invoke? {
        DecideLawful(rt, l, e.ix);
        EffectKeepsValid(rt, l, Decide(rt, l, e.ix).value);
      } else {
        EnvironmentKeepsValid(rt, l, e);
      }
    }
  }

  /** Every ledger reached from a genesis is valid. */
  lemma {:induction false} RunValid(rt: Runtime, l: Ledger, es: seq<Event>)
    requires Sound(rt) && Genesis(rt, l)
    ensures Valid(rt, Run(rt, l, es))
  {
    if es == [] {
      forall a ensures ValidAccount(rt, l.clock, a, At(l, a)) {
        assert At(l, a).contents.Raw? && Untyped(rt, a, At(l, a));
      }
    } else {
      RunValid(rt, l, es[..|es| - 1]);
      StepKeepsValid(rt, Run(rt, l, es[..|es| - 1]), es[|es| - 1]);
    }
  }

  // ---- consequences ----

  /** Every typed account sits at the address derived from its own stored fields. */
  lemma AddressBinding(rt: Runtime, l: Ledger, es: seq<Event>, a: Pubkey)
    requires Sound(rt) && Genesis(rt, l) && !At(Run(rt, l, es), a).contents.Raw?
    ensures a == AddressOf(rt, KeyOf(At(Run(rt, l, es), a).contents))
  {
    RunValid(rt, l, es);
    assert ValidAccount(rt, Run(rt, l, es).clock, a, At(Run(rt, l, es), a));
  }

  /** Hence there is at most one account for a key: one registrar and one max record a pair, one record a voter. */
  lemma OneAccountPerKey(rt: Runtime, l: Ledger, es: seq<Event>, a: Pubkey, b: Pubkey)
    requires Sound(rt) && Genesis(rt, l)
    requires !At(Run(rt, l, es), a).contents.Raw? && !At(Run(rt, l, es), b).contents.Raw?
    requires KeyOf(At(Run(rt, l, es), a).contents) == KeyOf(At(Run(rt, l, es), b).contents)
    ensures a == b
  {
    AddressBinding(rt, l, es, a);
    AddressBinding(rt, l, es, b);
  }

  lemma UntouchedTyped(rt: Runtime, l: Ledger, e: Event, a: Pubkey)
    requires Sound(rt) && Valid(rt, l) && !At(l, a).contents.Raw?
    requires !(e.Invoke? && Target(e.ix) == a && Succeeds(rt, l, e))
    ensures At(Step(rt, l, e), a).contents == At(l, a).contents
  {
    hide Decide;
    assert ValidAccount(rt, l.clock, a, At(l, a));
    if e.Invoke? && Succeeds(rt, l, e) {
      PerformElsewhere(rt, l, Decide(rt, l, e.ix).value, a);
    }
  }

  /** While an account lives its fixed fields never change: a step either keeps them or removes the account. */
  lemma KeyNeverChanges(rt: Runtime, l: Ledger, e: Event, a: Pubkey)
    requires Sound(rt) && Valid(rt, l) && !At(l, a).contents.Raw?
    ensures var c := At(Step(rt, l, e), a).contents; if c.Raw? then c == Raw([]) else SameFixed(c, At(l, a).contents)
    ensures At(l, a).contents.MaxAccount? ==> At(Step(rt, l, e), a).contents.MaxAccount?
  {
    hide Decide, Perform, ValidContents, At;
    if e.Invoke? && Target(e.ix) == a && Succeeds(rt, l, e) {
      DecideLawful(rt, l, e.ix);
      PerformAtTarget(rt, l, Decide(rt, l, e.ix).value);
    } else {
      UntouchedTyped(rt, l, e, a);
    }
  }

  /** A step that does not write an address leaves its contents alone, or makes them plain bytes. */
  lemma Untouched(rt: Runtime, l: Ledger, e: Event, a: Pubkey)
    requires !(e.Invoke? && Target(e.ix) == a && Succeeds(rt, l, e))
    ensures var c := At(Step(rt, l, e), a).contents; c.Raw? || c == At(l, a).contents
  {
    if e.Invoke? && Succeeds(rt, l, e) {
      PerformElsewhere(rt, l, Decide(rt, l, e.ix).value, a);
    }
  }

  /** Only a successful create instruction puts a typed account where there was none. */
  lemma BirthStep(rt: Runtime, l: Ledger, e: Event, a: Pubkey)
    requires Valid(rt, l) && At(l, a).contents.Raw? && !At(Step(rt, l, e), a).contents.Raw?
    ensures e.Invoke? && Target(e.ix) == a && Succeeds(rt, l, e) && IsCreate(e.ix)
  {
    hide Decide;
    if e.Invoke? && Target(e.ix) == a && Succeeds(rt, l, e) {
      var effect := Decide(rt, l, e.ix).value;
      DecideLawful(rt, l, e.ix);
      PerformAtTarget(rt, l, effect);
      assert effect.Initialize?;
    } else {
      Untouched(rt, l, e, a);
    }
  }

  /** Only its owner closes a voter record, and only the realm's authority of the moment closes a registrar. */
  lemma OnlyTheRightfulClose(rt: Runtime, l: Ledger, e: Event, a: Pubkey)
    requires Sound(rt) && Valid(rt, l) && !At(l, a).contents.Raw?
    ensures At(Step(rt, l, e), a).contents.Raw? ==>
              && e.Invoke? && Succeeds(rt, l, e) && Target(e.ix) == a
              && match At(l, a).contents
                 case RegistrarAccount(g) => e.ix.CloseRegistrar? &&
                   ReadRealm(rt, l, g.governanceProgramId, g.realm, g.governingTokenMint)
                   == Found(Some(e.ix.realmAuthority))
                 case VoterAccount(v) => e.ix.CloseVoter? && e.ix.voter == v.governingTokenOwner
                 case MaxAccount(_) => false
  {
    hide CheckInit, CheckIdentity, AddressOf;
    if e.Invoke? && Target(e.ix) == a && Succeeds(rt, l, e) {
      DecideLawful(rt, l, e.ix);
      PerformAtTarget(rt, l, Decide(rt, l, e.ix).value);
    } else {
      UntouchedTyped(rt, l, e, a);
    }
  }
}
