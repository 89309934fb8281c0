/** What a DAO can see to by itself: wallets with enough lamports for what they sign isolate it from the others. */
module Solvency {
  import opened Bytes
  import opened Addresses
  import opened Ledgers
  import opened Reachability
  import opened Eligibility
  import opened Isolation

  // ---- what a wallet signs away ----

  /** What an event may cost a wallet, all of it under the wallet's own signature. */
  function Charge(rt: Runtime, e: Event, p: Pubkey): nat {
    match e
    case Invoke(ix) => if IsCreate(ix) && ix.payer == p then rt.rent(SpaceFor(ix)) else 0
    case Transfer(source, _, amount) => if source == p then amount else 0
    case _ => 0
  }

  /** The sum of the charges of a run, for whichever DAO they are. */
  function Spend(rt: Runtime, es: seq<Event>, p: Pubkey): nat {
    if es == [] then 0 else Spend(rt, es[..|es| - 1], p) + Charge(rt, es[|es| - 1], p)
  }

  /** The event does not turn the wallet into another kind of account, which would take its signature too. */
  predicate LeavesWallet(e: Event, p: Pubkey) {
    e.SetForeign? ==> e.address != p
  }

  predicate RunLeavesWallet(es: seq<Event>, p: Pubkey) {
    forall i :: 0 <= i < |es| ==> LeavesWallet(es[i], p)
  }

  /** A plain wallet that starts with at least what it signs away over the run. */
  predicate Solvent(rt: Runtime, l: Ledger, es: seq<Event>, p: Pubkey) {
    !rt.reserved(p) && Free(l, p) && RunLeavesWallet(es, p) && Spend(rt, es, p) <= At(l, p).lamports
  }

  /** Every creation for this realm and mint is charged to a solvent wallet. Nothing is asked of anybody else. */
  predicate SolventPayers(rt: Runtime, l: Ledger, es: seq<Event>, realm: Pubkey, mint: Pubkey) {
    forall i :: 0 <= i < |es| && Concerns(rt, es[i], realm, mint) && es[i].Invoke? && IsCreate(es[i].ix) ==>
      Solvent(rt, l, es, es[i].ix.payer)
  }

  // ---- a wallet keeps what it has not signed away ----

  /** The target of a successful instruction is a derived address, so it is not a wallet. */
  lemma TargetsAreReserved(rt: Runtime, l: Ledger, ix: Instruction)
    requires Sound(rt) && Valid(rt, l) && Decide(rt, l, ix).Ok?
    ensures rt.reserved(Decide(rt, l, ix).value.target)
  {
    hide Decide, Performable, SeedBytes;
    DecideLawful(rt, l, ix);
    var target := Decide(rt, l, ix).value.target;
    assert ValidAccount(rt, l.clock, target, At(l, target));
  }

  lemma InstructionCharges(rt: Runtime, l: Ledger, ix: Instruction, p: Pubkey)
    requires Sound(rt) && Valid(rt, l) && Free(l, p) && !rt.reserved(p)
    ensures var next := Step(rt, l, Invoke(ix));
            Free(next, p) && At(l, p).lamports <= At(next, p).lamports + Charge(rt, Invoke(ix), p)
  {
    hide Decide, Perform, Performable, Valid, Sound;
    if Decide(rt, l, ix).Ok? {
      var effect := Decide(rt, l, ix).value;
      TargetsAreReserved(rt, l, ix);
      AcceptedEffect(rt, l, ix);
      PerformElsewhere(rt, l, effect, p);
      PerformPays(rt, l, effect, p);
    }
  }

  lemma EventCharges(rt: Runtime, l: Ledger, e: Event, p: Pubkey)
    requires Sound(rt) && Valid(rt, l) && Free(l, p) && !rt.reserved(p) && LeavesWallet(e, p)
    ensures Free(Step(rt, l, e), p) && At(l, p).lamports <= At(Step(rt, l, e), p).lamports + Charge(rt, e, p)
  {
    hide Step, Apply, Valid, Sound;
    if e.Invoke? {
      InstructionCharges(rt, l, e.ix, p);
    } else {
      EnvironmentAt(rt, l, e, p);
      EnvironmentPays(rt, l, e, p);
    }
  }

  /** Over any run, a wallet loses at most what it signs away. */
  lemma {:induction false} WalletKeeps(rt: Runtime, l: Ledger, es: seq<Event>, p: Pubkey)
    requires Sound(rt) && Genesis(rt, l) && !rt.reserved(p) && Free(l, p) && RunLeavesWallet(es, p)
    ensures Free(Run(rt, l, es), p) && At(l, p).lamports <= At(Run(rt, l, es), p).lamports + Spend(rt, es, p)
  {
    hide Step, Sound, Genesis, Charge, Free;
    if es != [] {
      var init := es[..|es| - 1];
      WalletKeeps(rt, l, init, p);
      RunValid(rt, l, init);
      EventCharges(rt, Run(rt, l, init), es[|es| - 1], p);
    }
  }

  // ---- spending of parts of a run ----

  lemma SpendNext(rt: Runtime, es: seq<Event>, n: nat, p: Pubkey)
    requires n < |es|
    ensures Spend(rt, es[..n + 1], p) == Spend(rt, es[..n], p) + Charge(rt, es[n], p)
  {
    assert es[..n + 1][..n] == es[..n];
  }

  lemma {:induction false} SpendGrows(rt: Runtime, es: seq<Event>, m: nat, n: nat, p: Pubkey)
    requires m <= n <= |es|
    ensures Spend(rt, es[..m], p) <= Spend(rt, es[..n], p)
    decreases n
  {
    hide Spend, Charge;
    if m < n {
      SpendGrows(rt, es, m, n - 1, p);
      SpendNext(rt, es, n - 1, p);
    }
  }

  /** The projected run charges a wallet no more, and leaves it alone if the full one does. */
  lemma {:induction false} ProjectedSpend(rt: Runtime, es: seq<Event>, realm: Pubkey, mint: Pubkey, p: Pubkey)
    requires RunLeavesWallet(es, p)
    ensures Spend(rt, Projected(rt, es, realm, mint), p) <= Spend(rt, es, p)
    ensures RunLeavesWallet(Projected(rt, es, realm, mint), p)
  {
    if es != [] {
      hide Spend, Charge, Concerns, RunLeavesWallet;
      var init, last := es[..|es| - 1], es[|es| - 1];
      assert es == init + [last];
      SpendAppend(rt, init, last, p);
      ProjectedSpend(rt, init, realm, mint, p);
      SpendAppend(rt, Projected(rt, init, realm, mint), last, p);
    }
  }

  lemma SpendAppend(rt: Runtime, es: seq<Event>, e: Event, p: Pubkey)
    ensures Spend(rt, es + [e], p) == Spend(rt, es, p) + Charge(rt, e, p)
    ensures RunLeavesWallet(es + [e], p) <==> RunLeavesWallet(es, p) && LeavesWallet(e, p)
  {
    hide Charge, LeavesWallet;
    assert (es + [e])[..|es + [e]| - 1] == es;
    assert forall i :: 0 <= i < |es| ==> (es + [e])[i] == es[i];
    assert (es + [e])[|es|] == e;
  }

  // ---- solvent payers cover their creations in both runs ----

  /** Before each charge a solvent wallet still holds at least that charge, in the full run and without the others. */
  lemma StillHolds(rt: Runtime, l: Ledger, es: seq<Event>, n: nat, realm: Pubkey, mint: Pubkey, p: Pubkey)
    requires Sound(rt) && Genesis(rt, l) && n < |es| && Solvent(rt, l, es, p)
    ensures var full, alone := Run(rt, l, es[..n]), Run(rt, l, Projected(rt, es[..n], realm, mint));
            && Free(full, p) && Charge(rt, es[n], p) <= At(full, p).lamports
            && Free(alone, p) && Charge(rt, es[n], p) <= At(alone, p).lamports
  {
    hide Sound, Genesis, Charge, Free, Run, Projected, LeavesWallet;
    assert es[..|es|] == es;
    SpendNext(rt, es, n, p);
    SpendGrows(rt, es, n + 1, |es|, p);
    ProjectedSpend(rt, es[..n], realm, mint, p);
    WalletKeeps(rt, l, es[..n], p);
    WalletKeeps(rt, l, Projected(rt, es[..n], realm, mint), p);
  }

  /** With its charge at hand, an instruction that passes its other checks is not short. */
  lemma ChargeCovers(rt: Runtime, l: Ledger, ix: Instruction)
    requires Sound(rt) && Valid(rt, l)
    requires IsCreate(ix) ==> Free(l, ix.payer) && !rt.reserved(ix.payer)
    requires IsCreate(ix) ==> Charge(rt, Invoke(ix), ix.payer) <= At(l, ix.payer).lamports
    ensures !Short(rt, l, ix) && (PassesOtherwise(rt, l, ix) ==> Decide(rt, l, ix).Ok?)
  {
    hide Decide, Valid, Sound;
    SuccessSplit(rt, l, ix);
    if PassesOtherwise(rt, l, ix) && IsCreate(ix) {
      CreatedReserved(rt, l, ix);
    }
  }

  lemma CreatedReserved(rt: Runtime, l: Ledger, ix: Instruction)
    requires Sound(rt) && Valid(rt, l) && PassesOtherwise(rt, l, ix) && IsCreate(ix)
    ensures rt.reserved(Target(ix))
  {
    hide Decide;
    var prefunded := Prefunded(rt, l, ix);
    forall a ensures ValidAccount(rt, prefunded.clock, a, At(prefunded, a)) {
      assert ValidAccount(rt, l.clock, a, At(l, a));
    }
    TargetsAreReserved(rt, prefunded, ix);
  }

  /**
   * Solvent payers isolate. If every creation of a realm and mint is charged to a wallet that started with at least
   * what it signs away over the run, then no such creation is short in either run, so dropping the instructions for
   * other registrars leaves the pair the same view at every point, whatever the others do.
   */
  lemma SolventPayersIsolate(rt: Runtime, l: Ledger, es: seq<Event>, n: nat, realm: Pubkey, mint: Pubkey,
                             keys: set<Pubkey>)
    requires Sound(rt) && Genesis(rt, l) && KeysOfRun(es, keys) && CollisionFree(rt, keys)
    requires realm in keys && mint in keys && n <= |es| && SolventPayers(rt, l, es, realm, mint)
    ensures MirrorsAt(rt, l, es, n, realm, mint)
    ensures forall m :: 0 <= m < |es| ==> FundedAlikeAt(rt, l, es, m, realm, mint)
  {
    hide MirrorsAt, FundedAlikeAt, Sound, Genesis, CollisionFree, KeysOfRun, SolventPayers;
    forall m | 0 <= m < |es| ensures FundedAlikeAt(rt, l, es, m, realm, mint) {
      SolventIsFundedAlike(rt, l, es, m, realm, mint);
    }
    IsolatedIffFundedAlike(rt, l, es, |es|, realm, mint, keys);
  }

  lemma SolventIsFundedAlike(rt: Runtime, l: Ledger, es: seq<Event>, m: nat, realm: Pubkey, mint: Pubkey)
    requires Sound(rt) && Genesis(rt, l) && m < |es| && SolventPayers(rt, l, es, realm, mint)
    ensures FundedAlikeAt(rt, l, es, m, realm, mint)
  {
    hide Sound, Genesis, Short, Valid, Run, Projected, Solvent, Charge, Free;
    if es[m].Invoke? && Concerns(rt, es[m], realm, mint) {
      var ix := es[m].ix;
      var full, alone := Run(rt, l, es[..m]), Run(rt, l, Projected(rt, es[..m], realm, mint));
      RunValid(rt, l, es[..m]);
      RunValid(rt, l, Projected(rt, es[..m], realm, mint));
      if IsCreate(ix) {
        StillHolds(rt, l, es, m, realm, mint, ix.payer);
        SolventIsWallet(rt, l, es, ix.payer);
      }
      ChargeCovers(rt, full, ix);
      ChargeCovers(rt, alone, ix);
    }
  }

  lemma SolventIsWallet(rt: Runtime, l: Ledger, es: seq<Event>, p: Pubkey)
    requires Solvent(rt, l, es, p)
    ensures !rt.reserved(p)
  {
  }

  /**
   * So a DAO whose payers are solvent has the same registrar, voter records and max record, with the same contents, as
   * if the other DAOs had never called the plugin.
   */
  lemma SolventPayersKeepAccounts(rt: Runtime, l: Ledger, es: seq<Event>, realm: Pubkey, mint: Pubkey,
                                  keys: set<Pubkey>, c: Contents, a: Pubkey)
    requires Sound(rt) && Genesis(rt, l) && KeysOfRun(es, keys) && CollisionFree(rt, keys)
    requires realm in keys && mint in keys && SolventPayers(rt, l, es, realm, mint)
    requires !c.Raw? && PairOf(c) == (realm, mint)
    ensures At(Run(rt, l, es), a).contents == c <==> At(Run(rt, l, Projected(rt, es, realm, mint)), a).contents == c
  {
    hide FundedAlikeAt, Sound, Genesis, CollisionFree, KeysOfRun, SolventPayers, Run, Projected;
    SolventPayersIsolate(rt, l, es, |es|, realm, mint, keys);
    IsolationOfAccounts(rt, l, es, realm, mint, keys, c, a);
  }
}
