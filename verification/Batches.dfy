/** Refreshes at one clock reading commute, and rejected events leave no trace. */
module Batches {
  import opened Bytes
  import opened Addresses
  import opened Identity
  import opened Ledgers
  import opened Reachability
  import opened Eligibility

  predicate IsUpdate(e: Event) {
    e.Invoke? && e.ix.UpdateVoter?
  }

  predicate AllUpdates(es: seq<Event>) {
    forall i :: 0 <= i < |es| ==> IsUpdate(es[i])
  }

  function RefreshedAccount(account: Account, slot: u64): Account {
    if account.contents.VoterAccount? then account.(contents := VoterAccount(Refreshed(account.contents.voter, slot)))
    else account
  }

  /** Some event of the set is an eligible refresh of account `a`. */
  predicate Hit(rt: Runtime, l: Ledger, events: set<Event>, a: Pubkey) {
    exists e :: e in events && IsUpdate(e) && e.ix.record == a && EligibleUpdate(rt, l, e.ix)
  }

  /** All the eligible refreshes of a set of events, made at once on the ledger as it stands. */
  function RefreshAll(rt: Runtime, l: Ledger, events: set<Event>): Ledger {
    l.(accounts := map a | a in l.accounts ::
      if Hit(rt, l, events, a) then RefreshedAccount(l.accounts[a], l.clock.slot) else l.accounts[a])
  }

  function Events(es: seq<Event>): set<Event> {
    set e | e in es
  }

  /** The verdict on a refresh does not look at weights that refreshes have written. */
  lemma VerdictIgnoresWeights(rt: Runtime, l: Ledger, events: set<Event>, ix: Instruction)
    requires ix.UpdateVoter?
    ensures var later := RefreshAll(rt, l, events);
            && (EligibleUpdate(rt, later, ix) <==> EligibleUpdate(rt, l, ix))
            && (Decide(rt, later, ix).Err? ==> Decide(rt, later, ix) == Decide(rt, l, ix))
            && (Decide(rt, l, ix).Err? ==> Decide(rt, later, ix) == Decide(rt, l, ix))
  {
    hide RefreshAll, CheckIdentityData, EligibleData, IdentityAddress, RegistrarAddress;
    var later := RefreshAll(rt, l, events);
    SameButWeights(rt, l, events, ix.registrar);
    SameButWeights(rt, l, events, ix.record);
    if ix.identity.Some? { SameButWeights(rt, l, events, ix.identity.value); }
    UpdateSucceedsIff(rt, l, ix);
    UpdateSucceedsIff(rt, later, ix);
  }

  lemma SameButWeights(rt: Runtime, l: Ledger, events: set<Event>, a: Pubkey)
    ensures RefreshAll(rt, l, events).clock == l.clock
    ensures var before, after := At(l, a), At(RefreshAll(rt, l, events), a);
            && Bare(after).owner == before.owner && DataOf(after) == DataOf(before)
            && (before.contents.VoterAccount? <==> after.contents.VoterAccount?)
            && (before.contents.VoterAccount? ==> KeyOf(after.contents) == KeyOf(before.contents))
            && (!before.contents.VoterAccount? ==> after == before)
  {
  }

  /**
   * A batch of refreshes, in any order, amounts to making the eligible ones at once; and each is accepted or rejected,
   * with the same error, as if it came alone.
   */
  lemma {:induction false} BatchIsSimultaneous(rt: Runtime, l: Ledger, es: seq<Event>)
    requires AllUpdates(es)
    ensures Run(rt, l, es) == RefreshAll(rt, l, Events(es))
  {
    hide Apply, Decide, Step, EligibleUpdate;
    if es == [] {
      assert RefreshAll(rt, l, Events(es)).accounts == l.accounts;
    } else {
      var init, last := es[..|es| - 1], es[|es| - 1];
      BatchIsSimultaneous(rt, l, init);
      assert Events(es) == Events(init) + {last};
      OneMore(rt, l, Events(init), last);
    }
  }

  lemma OneMore(rt: Runtime, l: Ledger, events: set<Event>, e: Event)
    requires IsUpdate(e)
    ensures Step(rt, RefreshAll(rt, l, events), e) == RefreshAll(rt, l, events + {e})
  {
    hide Decide, EligibleUpdate;
    var now := RefreshAll(rt, l, events);
    VerdictIgnoresWeights(rt, l, events, e.ix);
    UpdateSucceedsIff(rt, now, e.ix);
    var next := Step(rt, now, e);
    forall a | a in l.accounts
      ensures a in next.accounts && next.accounts[a] == RefreshAll(rt, l, events + {e}).accounts[a]
    {
      assert Hit(rt, l, events + {e}, a) <==>
             Hit(rt, l, events, a) || (e.ix.record == a && EligibleUpdate(rt, l, e.ix));
    }
    assert next.accounts == RefreshAll(rt, l, events + {e}).accounts;
  }

  /** The verdict on the refresh at any position of a batch is its verdict at the start. */
  lemma BatchVerdicts(rt: Runtime, l: Ledger, es: seq<Event>, i: nat)
    requires AllUpdates(es) && i < |es|
    ensures Succeeds(rt, Run(rt, l, es[..i]), es[i]) <==> Succeeds(rt, l, es[i])
    ensures !Succeeds(rt, l, es[i]) ==> Apply(rt, Run(rt, l, es[..i]), es[i]) == Apply(rt, l, es[i])
  {
    hide Decide, EligibleUpdate, RefreshAll;
    BatchIsSimultaneous(rt, l, es[..i]);
    VerdictIgnoresWeights(rt, l, Events(es[..i]), es[i].ix);
    UpdateSucceedsIff(rt, l, es[i].ix);
    UpdateSucceedsIff(rt, Run(rt, l, es[..i]), es[i].ix);
  }

  /** Order and repetition do not matter: two batches of the same refreshes end in the same ledger. */
  lemma OrderIndependence(rt: Runtime, l: Ledger, es: seq<Event>, fs: seq<Event>)
    requires AllUpdates(es) && AllUpdates(fs)
    requires Events(es) == Events(fs)
    ensures Run(rt, l, es) == Run(rt, l, fs)
  {
    BatchIsSimultaneous(rt, l, es);
    BatchIsSimultaneous(rt, l, fs);
  }

  // ---- failed events leave no trace ----

  /** The run without the events that are rejected when their turn comes. */
  function Erased(rt: Runtime, l: Ledger, es: seq<Event>): seq<Event> {
    if es == [] then [] else
      var init, last := es[..|es| - 1], es[|es| - 1];
      if Succeeds(rt, Run(rt, l, init), last) then Erased(rt, l, init) + [last] else Erased(rt, l, init)
  }

  /** No event of the run is rejected. */
  predicate AllSucceed(rt: Runtime, l: Ledger, es: seq<Event>) {
    forall i :: 0 <= i < |es| ==> Succeeds(rt, Run(rt, l, es[..i]), es[i])
  }

  /** Leaving the rejected events out of a run ends in the same ledger, and rejects nothing. */
  lemma {:induction false} FailuresLeaveNoTrace(rt: Runtime, l: Ledger, es: seq<Event>)
    ensures Run(rt, l, Erased(rt, l, es)) == Run(rt, l, es)
    ensures AllSucceed(rt, l, Erased(rt, l, es))
  {
    hide Apply, Step;
    if es != [] {
      var init, last := es[..|es| - 1], es[|es| - 1];
      var kept := Erased(rt, l, init);
      FailuresLeaveNoTrace(rt, l, init);
      RunAppend(rt, l, kept, last);
      RejectedStep(rt, Run(rt, l, init), last);
      forall i | 0 <= i < |Erased(rt, l, es)|
        ensures Succeeds(rt, Run(rt, l, Erased(rt, l, es)[..i]), Erased(rt, l, es)[i])
      {
        if i < |kept| {
          assert Erased(rt, l, es)[..i] == kept[..i];
        } else {
          assert Erased(rt, l, es)[..i] == kept;
        }
      }
    }
  }

  lemma RejectedStep(rt: Runtime, l: Ledger, e: Event)
    ensures !Succeeds(rt, l, e) ==> Step(rt, l, e) == l
  {
  }
}
