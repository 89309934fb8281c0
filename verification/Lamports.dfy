/** Conservation of lamports, transaction fees aside. */
module Lamports {
  import opened Prelude
  import opened Bytes
  import opened Records
  import opened Addresses
  import opened Ledgers
  import opened Reachability
  import opened Sums

  function Balances(l: Ledger): map<Pubkey, nat> {
    map a | a in l.accounts :: l.accounts[a].lamports
  }

  ghost function Total(l: Ledger): nat {
    SumOf(Balances(l))
  }

  /** Writing one account changes the total by the change of that account's balance. */
  lemma TotalPut(l: Ledger, a: Pubkey, account: Account)
    ensures Total(l.(accounts := l.accounts[a := account])) == Total(l) - At(l, a).lamports + account.lamports
  {
    assert Balances(l.(accounts := l.accounts[a := account])) == Balances(l)[a := account.lamports];
    SumPut(Balances(l), a, account.lamports);
  }

  lemma TotalRemove(l: Ledger, a: Pubkey)
    requires a in l.accounts
    ensures Total(l.(accounts := l.accounts - {a})) == Total(l) - l.accounts[a].lamports
  {
    assert Balances(l.(accounts := l.accounts - {a})) == Balances(l) - {a};
    SumRemove(Balances(l), a);
  }

  /** Every effect conserves lamports, whichever of payer, signer and destination coincide. */
  lemma EffectConserves(rt: Runtime, l: Ledger, effect: Effect)
    requires Performable(rt, l, effect)
    ensures Total(Perform(rt, l, effect)) == Total(l)
  {
    hide Total;
    match effect
    case Initialize(target, payer, space, contents) =>
      var deposit := Shortfall(rt, l, target, space);
      var paid := if deposit == 0 then l else Debit(l, payer, deposit);
      if deposit != 0 {
        TotalPut(l, payer, At(l, payer).(lamports := At(l, payer).lamports - deposit));
      }
      TotalPut(paid, target, Account(At(l, target).lamports + deposit, PLUGIN_ID, false, contents));
    case Overwrite(target, contents) =>
      TotalPut(l, target, l.accounts[target].(contents := contents));
    case Release(target, destination) =>
      var rest := l.(accounts := l.accounts - {target});
      TotalRemove(l, target);
      TotalPut(rest, destination,
               At(rest, destination).(lamports := At(rest, destination).lamports + l.accounts[target].lamports));
  }

  lemma SameAccountsSameTotal(l: Ledger, m: Ledger)
    requires l.accounts == m.accounts
    ensures Total(l) == Total(m)
  {
    assert Balances(l) == Balances(m);
  }

  lemma StepConserves(rt: Runtime, l: Ledger, e: Event)
    ensures Total(Step(rt, l, e)) == Total(l)
  {
    hide Decide, Perform, Total;
    if Succeeds(rt, l, e) {
      match e
      case Invoke(ix) =>
        EffectConserves(rt, l, Decide(rt, l, ix).value);
      case AdvanceClock(_, _) =>
        SameAccountsSameTotal(l, Step(rt, l, e));
      case SetForeign(address, owner, executable, data) =>
        TotalPut(l, address, Account(At(l, address).lamports, owner, executable, Raw(data)));
      case Transfer(source, destination, amount) =>
        var taken := Debit(l, source, amount);
        TotalPut(l, source, At(l, source).(lamports := At(l, source).lamports - amount));
        TotalPut(taken, destination, At(taken, destination).(lamports := At(taken, destination).lamports + amount));
    }
  }

  /** No run creates or destroys lamports. */
  lemma {:induction false} RunConserves(rt: Runtime, l: Ledger, es: seq<Event>)
    ensures Total(Run(rt, l, es)) == Total(l)
  {
    if es != [] {
      RunConserves(rt, l, es[..|es| - 1]);
      StepConserves(rt, Run(rt, l, es[..|es| - 1]), es[|es| - 1]);
    }
  }

  /** The ledger that a creation followed by a closing to the payer leaves: the address is vacant again. */
  function Restored(l: Ledger, target: Pubkey, payer: Pubkey): Ledger {
    Credit(l.(accounts := l.accounts - {target}), payer, At(l, target).lamports)
  }

  lemma InitializeThenRelease(rt: Runtime, l: Ledger, target: Pubkey, payer: Pubkey, space: nat, contents: Contents)
    requires payer != target && Performable(rt, l, Initialize(target, payer, space, contents))
    ensures var created := Perform(rt, l, Initialize(target, payer, space, contents));
            Performable(rt, created, Release(target, payer))
            && Perform(rt, created, Release(target, payer)) == Restored(l, target, payer)
  {
    var created := Perform(rt, l, Initialize(target, payer, space, contents));
    var closed := Perform(rt, created, Release(target, payer));
    assert closed.accounts == Restored(l, target, payer).accounts;
  }

  /**
   * Creating a voter record and closing it again, with the payer as destination, succeeds and undoes itself: the payer
   * has the deposit back, with whatever had been sent to the address before, and no other account is different.
   */
  lemma CreateThenCloseVoter(rt: Runtime, l: Ledger, ix: Instruction)
    requires ix.CreateVoter? && ix.payer != ix.record && Succeeds(rt, l, Invoke(ix))
    ensures var close := Invoke(CloseVoter(ix.registrar, ix.record, ix.owner, ix.payer));
            var created := Step(rt, l, Invoke(ix));
            Succeeds(rt, created, close) && Step(rt, created, close) == Restored(l, ix.record, ix.payer)
  {
    var effect := Decide(rt, l, ix).value;
    var created := Step(rt, l, Invoke(ix));
    InitializeThenRelease(rt, l, ix.record, ix.payer, VOTER_SPACE, effect.contents);
    PerformAtTarget(rt, l, effect);
    PerformElsewhere(rt, l, effect, ix.registrar);
    assert Decide(rt, created, CloseVoter(ix.registrar, ix.record, ix.owner, ix.payer))
        == Ok(Release(ix.record, ix.payer));
  }

  /** The same for a registrar. */
  lemma CreateThenCloseRegistrar(rt: Runtime, l: Ledger, ix: Instruction)
    requires Sound(rt) && ix.CreateRegistrar? && ix.payer != ix.registrar
    requires Succeeds(rt, l, Invoke(ix))
    ensures var close := Invoke(CloseRegistrar(ix.registrar, ix.realm, ix.realmAuthority, ix.payer));
            var created := Step(rt, l, Invoke(ix));
            Succeeds(rt, created, close) && Step(rt, created, close) == Restored(l, ix.registrar, ix.payer)
  {
    var effect := Decide(rt, l, ix).value;
    var created := Step(rt, l, Invoke(ix));
    InitializeThenRelease(rt, l, ix.registrar, ix.payer, REGISTRAR_SPACE, effect.contents);
    PerformAtTarget(rt, l, effect);
    PerformElsewhere(rt, l, effect, ix.realm);
    assert Decide(rt, created, CloseRegistrar(ix.registrar, ix.realm, ix.realmAuthority, ix.payer))
        == Ok(Release(ix.registrar, ix.payer));
  }
}
