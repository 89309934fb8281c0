/** A condition on the events under which DAOs do not influence one another: they keep their wallets apart. */
module Wallets {
  import opened Bytes
  import opened Addresses
  import opened Ledgers
  import opened Reachability
  import opened Eligibility
  import opened Isolation

  /** The account that an instruction writes, the payer of a creation and the destination of a closing. */
  function Parties(ix: Instruction): set<Pubkey> {
    {Target(ix)} + (if IsCreate(ix) then {ix.payer} else {})
    + (if ix.CloseRegistrar? || ix.CloseVoter? then {ix.destination} else {})
  }

  /**
   * The pair's own instructions write and charge only `wallets`, those for other registrars have nothing to do with
   * `wallets`, and lamports come to `wallets` only from `wallets`.
   */
  predicate KeepsApart(rt: Runtime, e: Event, realm: Pubkey, mint: Pubkey, wallets: set<Pubkey>) {
    match e
    case Invoke(ix) =>
      if Concerns(rt, e, realm, mint) then Target(ix) in wallets && (IsCreate(ix) ==> ix.payer in wallets)
      else Parties(ix) !! wallets
    case Transfer(source, destination, _) => destination in wallets ==> source in wallets
    case _ => true
  }

  predicate KeptApart(rt: Runtime, es: seq<Event>, realm: Pubkey, mint: Pubkey, wallets: set<Pubkey>) {
    forall i :: 0 <= i < |es| ==> KeepsApart(rt, es[i], realm, mint, wallets)
  }

  /** The accounts at `wallets` are the same, balances included. */
  predicate SameAt(l1: Ledger, l2: Ledger, wallets: set<Pubkey>) {
    forall a :: a in wallets ==> At(l1, a) == At(l2, a)
  }

  // ---- one event ----

  lemma SameEffectSameAt(rt: Runtime, l1: Ledger, l2: Ledger, effect: Effect, wallets: set<Pubkey>)
    requires SameAt(l1, l2, wallets) && Performable(rt, l1, effect) && Performable(rt, l2, effect)
    requires effect.target in wallets && (effect.Initialize? ==> effect.payer in wallets)
    ensures SameAt(Perform(rt, l1, effect), Perform(rt, l2, effect), wallets)
  {
  }

  lemma OtherEffectSameAt(rt: Runtime, l: Ledger, effect: Effect, wallets: set<Pubkey>)
    requires Performable(rt, l, effect)
    requires effect.target !in wallets && (effect.Initialize? ==> effect.payer !in wallets)
    requires effect.Release? ==> effect.destination !in wallets
    ensures SameAt(Perform(rt, l, effect), l, wallets)
  {
  }

  /** An instruction for another registrar does not touch the wallets. */
  lemma OtherInstructionSameAt(rt: Runtime, l: Ledger, ix: Instruction, wallets: set<Pubkey>)
    requires Parties(ix) !! wallets
    ensures SameAt(Step(rt, l, Invoke(ix)), l, wallets)
  {
    hide Decide, Perform, Performable;
    assert Target(ix) in Parties(ix);
    if Decide(rt, l, ix).Ok? {
      AcceptedEffect(rt, l, ix);
      OtherEffectSameAt(rt, l, Decide(rt, l, ix).value, wallets);
    }
  }

  lemma EnvironmentSameAt(rt: Runtime, l1: Ledger, l2: Ledger, e: Event, realm: Pubkey, mint: Pubkey,
                          wallets: set<Pubkey>)
    requires SameAt(l1, l2, wallets) && !e.Invoke? && KeepsApart(rt, e, realm, mint, wallets)
    ensures SameAt(Step(rt, l1, e), Step(rt, l2, e), wallets)
  {
    hide Step, Apply;
    forall a | a in wallets ensures At(Step(rt, l1, e), a) == At(Step(rt, l2, e), a) {
      EnvironmentAt(rt, l1, e, a);
      EnvironmentAt(rt, l2, e, a);
      EnvironmentPays(rt, l1, e, a);
      EnvironmentPays(rt, l2, e, a);
      assert e.Transfer? && e.source in wallets ==> At(l1, e.source) == At(l2, e.source);
    }
  }

  /** The pair's own instruction has the same verdict and the same effect, hence keeps the wallets the same. */
  lemma OwnInstructionSameAt(rt: Runtime, l1: Ledger, l2: Ledger, ix: Instruction, realm: Pubkey, mint: Pubkey,
                             keys: set<Pubkey>, wallets: set<Pubkey>)
    requires Sound(rt) && Valid(rt, l1) && Mirrors(l1, l2, realm, mint)
    requires CollisionFree(rt, keys) && KeysCovered(l1, keys) && KeysOfEvent(Invoke(ix), keys)
    requires realm in keys && mint in keys && ix.registrar == RegistrarAddress(rt, realm, mint)
    requires SameAt(l1, l2, wallets) && Target(ix) in wallets && (IsCreate(ix) ==> ix.payer in wallets)
    ensures SameFunding(rt, l1, l2, Invoke(ix))
    ensures SameAt(Step(rt, l1, Invoke(ix)), Step(rt, l2, Invoke(ix)), wallets)
  {
    hide Decide, Valid, KeysCovered, CollisionFree, Mirrors, Perform, Performable, PassesOtherwise;
    PassesOtherwiseAlike(rt, l1, l2, ix, realm, mint, keys);
    SuccessSplit(rt, l1, ix);
    SuccessSplit(rt, l2, ix);
    assert PayerCovers(rt, l1, ix) <==> PayerCovers(rt, l2, ix);
    if Decide(rt, l1, ix).Ok? {
      AcceptedEffect(rt, l1, ix);
      AcceptedEffect(rt, l2, ix);
      SameEffectSameAt(rt, l1, l2, Decide(rt, l1, ix).value, wallets);
    }
  }

  // ---- whole runs ----

  /** After the first `n` events the accounts at `wallets` are the same in the full and in the projected run. */
  predicate SameAfter(rt: Runtime, l: Ledger, es: seq<Event>, n: nat, realm: Pubkey, mint: Pubkey, wallets: set<Pubkey>)
    requires n <= |es|
  {
    SameAt(Run(rt, l, es[..n]), Run(rt, l, Projected(rt, es[..n], realm, mint)), wallets)
  }

  lemma PrefixKeys(es: seq<Event>, n: nat, keys: set<Pubkey>)
    requires KeysOfRun(es, keys) && n <= |es|
    ensures KeysOfRun(es[..n], keys)
  {
  }

  lemma ApartNext(rt: Runtime, l: Ledger, es: seq<Event>, n: nat, realm: Pubkey, mint: Pubkey, keys: set<Pubkey>,
                  wallets: set<Pubkey>)
    requires Sound(rt) && Genesis(rt, l) && KeysOfRun(es, keys) && CollisionFree(rt, keys)
    requires realm in keys && mint in keys && n < |es| && KeepsApart(rt, es[n], realm, mint, wallets)
    requires MirrorsAt(rt, l, es, n, realm, mint) && SameAfter(rt, l, es, n, realm, mint, wallets)
    ensures FundedAlikeAt(rt, l, es, n, realm, mint) && SameAfter(rt, l, es, n + 1, realm, mint, wallets)
  {
    assert KeysOfEvent(es[n], keys);
    PrefixKeys(es, n, keys);
    hide Step, Mirrors, SameFunding, SameAt, Valid, KeysCovered, CollisionFree, Sound, Genesis, Run, Projected;
    hide KeysOfRun, KeysOfEvent, RegistrarAddress, Target, Parties;
    var full, projected := Run(rt, l, es[..n]), Run(rt, l, Projected(rt, es[..n], realm, mint));
    RunPrefix(rt, l, es, n);
    ProjectedNext(rt, es, n, realm, mint);
    RunAppend(rt, l, Projected(rt, es[..n], realm, mint), es[n]);
    RunValid(rt, l, es[..n]);
    RunKeysCovered(rt, l, es[..n], keys);
    assert Projected(rt, es[..n], realm, mint) + [] == Projected(rt, es[..n], realm, mint);
    if !es[n].Invoke? {
      EnvironmentFundedAlike(rt, full, projected, es[n]);
      EnvironmentSameAt(rt, full, projected, es[n], realm, mint, wallets);
    } else if Concerns(rt, es[n], realm, mint) {
      OwnInstructionSameAt(rt, full, projected, es[n].ix, realm, mint, keys, wallets);
    } else {
      OtherInstructionSameAt(rt, full, es[n].ix, wallets);
      SameAtTransitive(Step(rt, full, es[n]), full, projected, wallets);
    }
  }

  lemma SameAtStart(rt: Runtime, l: Ledger, es: seq<Event>, realm: Pubkey, mint: Pubkey, wallets: set<Pubkey>)
    ensures SameAfter(rt, l, es, 0, realm, mint, wallets)
  {
  }

  lemma SameAtTransitive(l1: Ledger, l2: Ledger, l3: Ledger, wallets: set<Pubkey>)
    requires SameAt(l1, l2, wallets) && SameAt(l2, l3, wallets)
    ensures SameAt(l1, l3, wallets)
  {
  }

  /**
   * Separate wallets isolate. If some set of wallets pays for the pair's accounts, and no instruction for another
   * registrar and no transfer from outside reaches that set, then dropping the instructions for other registrars
   * leaves the pair the same view at every point of the run, and the wallets the same balances.
   */
  lemma {:induction false} SeparateWalletsIsolate(rt: Runtime, l: Ledger, es: seq<Event>, n: nat, realm: Pubkey,
                                                  mint: Pubkey, keys: set<Pubkey>, wallets: set<Pubkey>)
    requires Sound(rt) && Genesis(rt, l) && KeysOfRun(es, keys) && CollisionFree(rt, keys)
    requires realm in keys && mint in keys && n <= |es| && KeptApart(rt, es, realm, mint, wallets)
    ensures MirrorsAt(rt, l, es, n, realm, mint) && SameAfter(rt, l, es, n, realm, mint, wallets)
    ensures forall m :: 0 <= m < n ==> FundedAlikeAt(rt, l, es, m, realm, mint)
  {
    hide MirrorsAt, FundedAlikeAt, Sound, Genesis, CollisionFree, KeepsApart, KeysOfRun, Run, Projected, SameAt;
    if n == 0 {
      MirrorsAtStart(rt, l, es, realm, mint);
      SameAtStart(rt, l, es, realm, mint, wallets);
    } else {
      hide SameAfter;
      SeparateWalletsIsolate(rt, l, es, n - 1, realm, mint, keys, wallets);
      ApartNext(rt, l, es, n - 1, realm, mint, keys, wallets);
      MirrorsNext(rt, l, es, n - 1, realm, mint, keys);
    }
  }

  /**
   * A DAO with wallets of its own: its registrar, voter records and max record are the same accounts with the same
   * contents as if the other DAOs had never called the plugin, and its wallets hold the same.
   */
  lemma SeparateWalletsKeepAccounts(rt: Runtime, l: Ledger, es: seq<Event>, realm: Pubkey,
                                    mint: Pubkey, keys: set<Pubkey>, wallets: set<Pubkey>,
                                    c: Contents, a: Pubkey)
    requires Sound(rt) && Genesis(rt, l) && KeysOfRun(es, keys) && CollisionFree(rt, keys)
    requires realm in keys && mint in keys && KeptApart(rt, es, realm, mint, wallets)
    ensures var full, alone := Run(rt, l, es), Run(rt, l, Projected(rt, es, realm, mint));
            && (!c.Raw? && PairOf(c) == (realm, mint) ==> (At(full, a).contents == c <==> At(alone, a).contents == c))
            && (a in wallets ==> At(full, a) == At(alone, a))
  {
    hide MirrorsAt, FundedAlikeAt, Sound, Genesis, CollisionFree, KeepsApart;
    SeparateWalletsIsolate(rt, l, es, |es|, realm, mint, keys, wallets);
    assert es[..|es|] == es;
    if !c.Raw? && PairOf(c) == (realm, mint) {
      IsolationOfAccounts(rt, l, es, realm, mint, keys, c, a);
    }
  }
}
