/** Where the contents of an account come from, over whole runs. */
module Provenance {
  import opened Prelude
  import opened Bytes
  import opened Records
  import opened Addresses
  import opened Identity
  import opened Ledgers
  import opened Reachability
  import opened Eligibility

  /** The ledger just before event `i` of a run. */
  function Before(rt: Runtime, l: Ledger, es: seq<Event>, i: nat): Ledger
    requires i <= |es|
  {
    Run(rt, l, es[..i])
  }

  lemma BeforeNext(rt: Runtime, l: Ledger, es: seq<Event>, i: nat)
    requires i < |es|
    ensures Before(rt, l, es, i + 1) == Step(rt, Before(rt, l, es, i), es[i])
  {
    RunPrefix(rt, l, es, i);
  }

  /** Event `i` is a successful instruction that writes account `a`. */
  predicate Writes(rt: Runtime, l: Ledger, es: seq<Event>, i: nat, a: Pubkey)
    requires i < |es|
  {
    es[i].Invoke? && Target(es[i].ix) == a && Succeeds(rt, Before(rt, l, es, i), es[i])
  }

  /** Event `i` is the last write to `a` among the first `n` events. */
  predicate LatestWrite(rt: Runtime, l: Ledger, es: seq<Event>, i: nat, n: nat, a: Pubkey)
    requires n <= |es|
  {
    i < n && Writes(rt, l, es, i, a) && forall j :: i < j < n ==> !Writes(rt, l, es, j, a)
  }

  /** What an account of the plugin's holds is what the last write to it left there. */
  lemma {:induction false} HeldSinceLatestWrite(rt: Runtime, l: Ledger, es: seq<Event>, n: nat, a: Pubkey)
    requires Sound(rt) && Genesis(rt, l) && n <= |es|
    requires !At(Before(rt, l, es, n), a).contents.Raw?
    ensures exists i: nat ::
              LatestWrite(rt, l, es, i, n, a)
              && At(Before(rt, l, es, i + 1), a).contents == At(Before(rt, l, es, n), a).contents
  {
    hide Apply, Decide, Step;
    if n == 0 {
      assert false;
    } else {
      var k := n - 1;
      BeforeNext(rt, l, es, k);
      if Writes(rt, l, es, k, a) {
        assert LatestWrite(rt, l, es, k, n, a);
      } else {
        Untouched(rt, Before(rt, l, es, k), es[k], a);
        HeldSinceLatestWrite(rt, l, es, k, a);
        var i: nat :| LatestWrite(rt, l, es, i, k, a)
                      && At(Before(rt, l, es, i + 1), a).contents == At(Before(rt, l, es, k), a).contents;
        assert LatestWrite(rt, l, es, i, n, a);
      }
    }
  }

  /** What event `i` leaves in the account it writes is decided by its handler. */
  lemma WrittenContents(rt: Runtime, l: Ledger, es: seq<Event>, i: nat, a: Pubkey)
    requires Sound(rt) && Genesis(rt, l) && i < |es| && Writes(rt, l, es, i, a)
    requires !At(Before(rt, l, es, i + 1), a).contents.Raw?
    ensures Decide(rt, Before(rt, l, es, i), es[i].ix).Ok?
    ensures var effect := Decide(rt, Before(rt, l, es, i), es[i].ix).value;
            !effect.Release? && At(Before(rt, l, es, i + 1), a).contents == effect.contents
            && Lawful(rt, Before(rt, l, es, i), effect)
  {
    BeforeNext(rt, l, es, i);
    RunValid(rt, l, es[..i]);
    DecideLawful(rt, Before(rt, l, es, i), es[i].ix);
    PerformAtTarget(rt, Before(rt, l, es, i), Decide(rt, Before(rt, l, es, i), es[i].ix).value);
  }

  // ---- voter records ----

  /** Event `i` created `v`, signed by the wallet it is for. */
  predicate CreatesVoter(es: seq<Event>, i: nat, v: VoterWeightRecord)
    requires i < |es|
  {
    && es[i].Invoke? && es[i].ix.CreateVoter?
    && es[i].ix.ownerSigner == es[i].ix.owner == v.governingTokenOwner
    && v == NewVoter(v.realm, v.governingTokenMint, v.governingTokenOwner)
  }

  /** Event `i` refreshed the record to `v`, signed by its owner, whose identity qualified at that moment. */
  predicate RefreshesVoter(rt: Runtime, l: Ledger, es: seq<Event>, i: nat, v: VoterWeightRecord)
    requires i < |es|
  {
    var before := Before(rt, l, es, i);
    && es[i].Invoke? && es[i].ix.UpdateVoter?
    && es[i].ix.voter == v.governingTokenOwner
    && EligibleUpdate(rt, before, es[i].ix)
    && var g := At(before, es[i].ix.registrar).contents.registrar;
    && (g.realm, g.governingTokenMint) == (v.realm, v.governingTokenMint)
    && v.voterWeight == 1 && v.voterWeightExpiry == Some(ExpiryFor(before.clock.slot))
  }

  /** Only a creation or a refresh leaves a voter record behind, and they leave exactly this. */
  lemma VoterWriters(rt: Runtime, l: Ledger, ix: Instruction)
    requires Decide(rt, l, ix).Ok? && !Decide(rt, l, ix).value.Release?
    requires Decide(rt, l, ix).value.contents.VoterAccount?
    ensures var v := Decide(rt, l, ix).value.contents.voter;
            || (ix.CreateVoter? && ix.ownerSigner == ix.owner == v.governingTokenOwner
                && v == NewVoter(v.realm, v.governingTokenMint, v.governingTokenOwner))
            || (ix.UpdateVoter? && EligibleUpdate(rt, l, ix) && ix.voter == v.governingTokenOwner
                && v == Refreshed(At(l, ix.record).contents.voter, l.clock.slot))
  {
    if ix.UpdateVoter? {
      UpdateSucceedsIff(rt, l, ix);
    }
  }

  /**
   * Weight provenance. Every voter record was last written either by its creation, and then has weight 0 and expiry 0,
   * or by a refresh, and then has weight 1 and expires 100 slots (saturating) after that refresh, which its owner
   * signed with an identity that qualified then.
   */
  lemma WeightProvenance(rt: Runtime, l: Ledger, es: seq<Event>, n: nat, a: Pubkey)
    requires Sound(rt) && Genesis(rt, l) && n <= |es|
    requires At(Before(rt, l, es, n), a).contents.VoterAccount?
    ensures var v := At(Before(rt, l, es, n), a).contents.voter;
            exists i: nat :: LatestWrite(rt, l, es, i, n, a)
                        && (CreatesVoter(es, i, v) || RefreshesVoter(rt, l, es, i, v))
  {
    hide Apply, Decide, Step;
    var v := At(Before(rt, l, es, n), a).contents.voter;
    HeldSinceLatestWrite(rt, l, es, n, a);
    var i: nat :| LatestWrite(rt, l, es, i, n, a) && At(Before(rt, l, es, i + 1), a).contents == VoterAccount(v);
    WrittenContents(rt, l, es, i, a);
    VoterWriters(rt, Before(rt, l, es, i), es[i].ix);
  }

  // ---- registrars ----

  /** The signer that event `i` names was the realm's authority at that moment. */
  predicate SignedByAuthority(rt: Runtime, l: Ledger, es: seq<Event>, i: nat, g: Registrar)
    requires i < |es| && es[i].Invoke? && (es[i].ix.CreateRegistrar? || es[i].ix.UpdateRegistrar?)
  {
    ReadRealm(rt, Before(rt, l, es, i), g.governanceProgramId, g.realm, g.governingTokenMint)
    == Found(Some(es[i].ix.realmAuthority))
  }

  /** Only creating or updating leaves a registrar behind, signed by the realm's authority. */
  lemma RegistrarWriters(rt: Runtime, l: Ledger, ix: Instruction)
    requires Decide(rt, l, ix).Ok? && !Decide(rt, l, ix).value.Release?
    requires Decide(rt, l, ix).value.contents.RegistrarAccount?
    ensures var g := Decide(rt, l, ix).value.contents.registrar;
            && (ix.CreateRegistrar? || ix.UpdateRegistrar?)
            && g.minTrustScore == ix.minTrustScore && g.maxVerificationAge == ix.maxVerificationAge > 0
            && ReadRealm(rt, l, g.governanceProgramId, g.realm, g.governingTokenMint) == Found(Some(ix.realmAuthority))
  {
  }

  /**
   * Registrar provenance. A registrar's thresholds are the arguments of the last successful create or update, signed
   * by whoever was the realm's authority then, and its age limit is positive.
   */
  lemma RegistrarProvenance(rt: Runtime, l: Ledger, es: seq<Event>, n: nat, a: Pubkey)
    requires Sound(rt) && Genesis(rt, l) && n <= |es|
    requires At(Before(rt, l, es, n), a).contents.RegistrarAccount?
    ensures var g := At(Before(rt, l, es, n), a).contents.registrar;
            g.maxVerificationAge > 0 &&
            exists i: nat :: LatestWrite(rt, l, es, i, n, a)
                        && (es[i].ix.CreateRegistrar? || es[i].ix.UpdateRegistrar?)
                        && g.minTrustScore == es[i].ix.minTrustScore
                        && g.maxVerificationAge == es[i].ix.maxVerificationAge
                        && SignedByAuthority(rt, l, es, i, g)
  {
    hide Apply, Decide, Step;
    var g := At(Before(rt, l, es, n), a).contents.registrar;
    HeldSinceLatestWrite(rt, l, es, n, a);
    var i: nat :| LatestWrite(rt, l, es, i, n, a) && At(Before(rt, l, es, i + 1), a).contents == RegistrarAccount(g);
    WrittenContents(rt, l, es, i, a);
    RegistrarWriters(rt, Before(rt, l, es, i), es[i].ix);
  }

  // ---- births ----

  /** Event `i` created the account at `a`, and what it holds now has kept its fixed fields ever since. */
  predicate BornAt(rt: Runtime, l: Ledger, es: seq<Event>, i: nat, n: nat, a: Pubkey, now: Contents)
    requires n <= |es|
  {
    && i < n && Writes(rt, l, es, i, a) && IsCreate(es[i].ix)
    && forall j :: i < j <= n ==> SameFixed(At(Before(rt, l, es, j), a).contents, now)
  }

  /** Every account of the plugin's was created by one of its create instructions and kept its fixed fields since. */
  lemma {:induction false} EveryAccountWasCreated(rt: Runtime, l: Ledger, es: seq<Event>, n: nat, a: Pubkey)
    requires Sound(rt) && Genesis(rt, l) && n <= |es|
    requires !At(Before(rt, l, es, n), a).contents.Raw?
    ensures exists i: nat :: BornAt(rt, l, es, i, n, a, At(Before(rt, l, es, n), a).contents)
  {
    hide Apply, Decide, Step;
    if n == 0 {
      assert false;
    } else {
      var k := n - 1;
      var before := Before(rt, l, es, k);
      var now := At(Before(rt, l, es, n), a).contents;
      BeforeNext(rt, l, es, k);
      RunValid(rt, l, es[..k]);
      if At(before, a).contents.Raw? {
        BirthStep(rt, before, es[k], a);
        assert BornAt(rt, l, es, k, n, a, now);
      } else {
        KeyNeverChanges(rt, before, es[k], a);
        EveryAccountWasCreated(rt, l, es, k, a);
        var i: nat :| BornAt(rt, l, es, i, k, a, At(before, a).contents);
        assert BornAt(rt, l, es, i, n, a, now);
      }
    }
  }

  /**
   * Registrar birth. Every registrar was created for a realm that its governance program, an executable one, owned at
   * that moment, with the signature of the realm's authority of that moment.
   */
  lemma RegistrarBirth(rt: Runtime, l: Ledger, es: seq<Event>, n: nat, a: Pubkey)
    requires Sound(rt) && Genesis(rt, l) && n <= |es|
    requires At(Before(rt, l, es, n), a).contents.RegistrarAccount?
    ensures var g := At(Before(rt, l, es, n), a).contents.registrar;
            exists i: nat :: BornAt(rt, l, es, i, n, a, RegistrarAccount(g)) && es[i].ix.CreateRegistrar?
                        && At(Before(rt, l, es, i), g.governanceProgramId).executable
                        && At(Before(rt, l, es, i), g.realm).owner == g.governanceProgramId
                        && SignedByAuthority(rt, l, es, i, g)
  {
    hide Apply, Decide, Step;
    var c := At(Before(rt, l, es, n), a).contents;
    EveryAccountWasCreated(rt, l, es, n, a);
    var i: nat :| BornAt(rt, l, es, i, n, a, c);
    assert SameFixed(At(Before(rt, l, es, i + 1), a).contents, c);
    WrittenContents(rt, l, es, i, a);
    RegistrarCreation(rt, Before(rt, l, es, i), es[i].ix);
  }

  lemma RegistrarCreation(rt: Runtime, l: Ledger, ix: Instruction)
    requires IsCreate(ix) && Decide(rt, l, ix).Ok?
    requires Decide(rt, l, ix).value.Initialize? && Decide(rt, l, ix).value.contents.RegistrarAccount?
    ensures var g := Decide(rt, l, ix).value.contents.registrar;
            && ix.CreateRegistrar?
            && At(l, g.governanceProgramId).executable && At(l, g.realm).owner == g.governanceProgramId
            && ReadRealm(rt, l, g.governanceProgramId, g.realm, g.governingTokenMint) == Found(Some(ix.realmAuthority))
  {
    hide CheckInit, CheckIdentity, AddressOf;
  }

  // ---- max records ----

  lemma MaxWriters(rt: Runtime, l: Ledger, ix: Instruction)
    requires Decide(rt, l, ix).Ok? && !Decide(rt, l, ix).value.Release?
    requires Decide(rt, l, ix).value.contents.MaxAccount?
    ensures var m := Decide(rt, l, ix).value.contents.max;
            && (ix.CreateMax? || ix.UpdateMax?)
            && NamesRegistrar(rt, l, ix.registrar)
            && var g := At(l, ix.registrar).contents.registrar;
            && (g.realm, g.governingTokenMint) == (m.realm, m.governingTokenMint)
            && ReadRealm(rt, l, g.governanceProgramId, g.realm, g.governingTokenMint) == Found(Some(ix.realmAuthority))
            && (ix.CreateMax? ==> m.maxVoterWeight == 0 && m.maxVoterWeightExpiry == Some(0))
            && (ix.UpdateMax? ==> m.maxVoterWeight == ix.maxVoterWeight > 0 && m.maxVoterWeightExpiry == None)
  {
    hide CheckInit, CheckIdentity, AddressOf;
  }

  /** Event `i` left `m`, signed by the authority of the realm whose registrar it names. */
  predicate WritesMax(rt: Runtime, l: Ledger, es: seq<Event>, i: nat, m: MaxVoterWeightRecord)
    requires i < |es|
  {
    var before := Before(rt, l, es, i);
    && es[i].Invoke? && (es[i].ix.CreateMax? || es[i].ix.UpdateMax?)
    && NamesRegistrar(rt, before, es[i].ix.registrar)
    && var g := At(before, es[i].ix.registrar).contents.registrar;
    && (g.realm, g.governingTokenMint) == (m.realm, m.governingTokenMint)
    && ReadRealm(rt, before, g.governanceProgramId, g.realm, g.governingTokenMint)
       == Found(Some(es[i].ix.realmAuthority))
    && (es[i].ix.CreateMax? ==> m.maxVoterWeight == 0 && m.maxVoterWeightExpiry == Some(0))
    && (es[i].ix.UpdateMax? ==> m.maxVoterWeight == es[i].ix.maxVoterWeight && m.maxVoterWeightExpiry == None)
  }

  /** A max record is what its last write left: zero and expired from its creation, or the maximum the authority set. */
  lemma MaxProvenance(rt: Runtime, l: Ledger, es: seq<Event>, n: nat, a: Pubkey)
    requires Sound(rt) && Genesis(rt, l) && n <= |es|
    requires At(Before(rt, l, es, n), a).contents.MaxAccount?
    ensures exists i: nat :: LatestWrite(rt, l, es, i, n, a)
                             && WritesMax(rt, l, es, i, At(Before(rt, l, es, n), a).contents.max)
  {
    hide Apply, Decide, Step;
    var m := At(Before(rt, l, es, n), a).contents.max;
    HeldSinceLatestWrite(rt, l, es, n, a);
    var i: nat :| LatestWrite(rt, l, es, i, n, a) && At(Before(rt, l, es, i + 1), a).contents == MaxAccount(m);
    WrittenContents(rt, l, es, i, a);
    MaxWriters(rt, Before(rt, l, es, i), es[i].ix);
    assert WritesMax(rt, l, es, i, m);
  }

  lemma MaxStep(rt: Runtime, l: Ledger, e: Event, a: Pubkey)
    requires Sound(rt) && Valid(rt, l) && At(l, a).contents.MaxAccount?
    ensures var c := At(Step(rt, l, e), a).contents;
            c.MaxAccount? && KeyOf(c) == KeyOf(At(l, a).contents)
            && (At(l, a).contents.max.maxVoterWeight > 0 ==> c.max.maxVoterWeight > 0)
  {
    assert ValidAccount(rt, l.clock, a, At(l, a));
    KeyNeverChanges(rt, l, e, a);
    if Succeeds(rt, l, e) && e.Invoke? {
      var effect := Decide(rt, l, e.ix).value;
      PerformAtTarget(rt, l, effect);
      if a != effect.target { PerformElsewhere(rt, l, effect, a); }
    }
  }

  /**
   * Max record lifecycle. Once created, a max record is there after every later event, with the same realm and mint;
   * it is either as created or has a positive maximum without expiry, and never returns from the second to the first.
   */
  lemma {:induction false} MaxRecordPersists(rt: Runtime, l: Ledger, es: seq<Event>, i: nat, n: nat, a: Pubkey)
    requires Sound(rt) && Genesis(rt, l) && i <= n <= |es|
    requires At(Before(rt, l, es, i), a).contents.MaxAccount?
    ensures var earlier, now := At(Before(rt, l, es, i), a).contents, At(Before(rt, l, es, n), a).contents;
            && now.MaxAccount? && KeyOf(now) == KeyOf(earlier)
            && (now.max.maxVoterWeightExpiry == None <==> now.max.maxVoterWeight > 0)
            && (now.max.maxVoterWeightExpiry == Some(0) <==> now.max.maxVoterWeight == 0)
            && (earlier.max.maxVoterWeight > 0 ==> now.max.maxVoterWeight > 0)
  {
    hide Apply, Decide, Step, AddressOf;
    RunValid(rt, l, es[..n]);
    if i < n {
      MaxRecordPersists(rt, l, es, i, n - 1, a);
      RunValid(rt, l, es[..n - 1]);
      BeforeNext(rt, l, es, n - 1);
      MaxStep(rt, Before(rt, l, es, n - 1), es[n - 1], a);
    }
    assert ValidAccount(rt, Before(rt, l, es, n).clock, a, At(Before(rt, l, es, n), a));
  }

  // ---- time ----

  lemma {:induction false} SlotsNeverGoBack(rt: Runtime, l: Ledger, es: seq<Event>, i: nat, n: nat)
    requires i <= n <= |es|
    ensures Before(rt, l, es, i).clock.slot <= Before(rt, l, es, n).clock.slot
  {
    hide Step, Apply;
    if i < n {
      SlotsNeverGoBack(rt, l, es, i, n - 1);
      BeforeNext(rt, l, es, n - 1);
      SlotStep(rt, Before(rt, l, es, n - 1), es[n - 1]);
    }
  }

  lemma SlotStep(rt: Runtime, l: Ledger, e: Event)
    ensures l.clock.slot <= Step(rt, l, e).clock.slot
  {
    hide Decide;
    if e.Invoke? && Succeeds(rt, l, e) {
      PerformAtTarget(rt, l, Decide(rt, l, e.ix).value);
    }
  }
}
