/** One person, one vote: how much live weight a run can leave for one realm and mint. */
module OneVote {
  import opened Prelude
  import opened Bytes
  import opened Records
  import opened Addresses
  import opened Ledgers
  import opened Reachability
  import opened Eligibility
  import opened Provenance
  import opened Sums

  /** A consumer at this slot still counts the record: it has no expiry, or one that is not past. */
  predicate Live(v: VoterWeightRecord, slot: u64) {
    v.voterWeightExpiry.Some? ==> slot <= v.voterWeightExpiry.value
  }

  /** The live weight that account `a` contributes to a realm and mint. */
  function WeightAt(l: Ledger, realm: Pubkey, mint: Pubkey, a: Pubkey): nat {
    match At(l, a).contents
    case VoterAccount(v) =>
      if v.realm == realm && v.governingTokenMint == mint && Live(v, l.clock.slot) then v.voterWeight else 0
    case _ => 0
  }

  function Weights(l: Ledger, realm: Pubkey, mint: Pubkey): map<Pubkey, nat> {
    map a | a in l.accounts :: WeightAt(l, realm, mint, a)
  }

  ghost function LiveWeight(l: Ledger, realm: Pubkey, mint: Pubkey): nat {
    SumOf(Weights(l, realm, mint))
  }

  /** Event `i` is a successful refresh under the registrar of this realm and mint. */
  predicate IsRefresh(rt: Runtime, l: Ledger, es: seq<Event>, i: nat, realm: Pubkey, mint: Pubkey)
    requires i < |es|
  {
    var before := Before(rt, l, es, i);
    && es[i].Invoke? && es[i].ix.UpdateVoter?
    && EligibleUpdate(rt, before, es[i].ix)
    && At(before, es[i].ix.registrar).contents.registrar.realm == realm
    && At(before, es[i].ix.registrar).contents.registrar.governingTokenMint == mint
  }

  /** At most 100 slots passed between event `i` and the end of the first `n` events. */
  predicate Within100(rt: Runtime, l: Ledger, es: seq<Event>, i: nat, n: nat)
    requires i <= |es| && n <= |es|
  {
    Before(rt, l, es, n).clock.slot <= Before(rt, l, es, i).clock.slot + 100
  }

  function VoterOf(e: Event): Pubkey
    requires e.Invoke? && e.ix.UpdateVoter?
  {
    e.ix.voter
  }

  /** The wallets that refreshed for this realm and mint within the last 100 slots. */
  function RecentVoters(rt: Runtime, l: Ledger, es: seq<Event>, n: nat, realm: Pubkey, mint: Pubkey): set<Pubkey>
    requires n <= |es|
  {
    set i: nat | 0 <= i < n && IsRefresh(rt, l, es, i, realm, mint) && Within100(rt, l, es, i, n) :: VoterOf(es[i])
  }

  /** Among them, those whose record has not been written since: not closed, not created anew. */
  function StandingVoters(rt: Runtime, l: Ledger, es: seq<Event>, n: nat, realm: Pubkey, mint: Pubkey): set<Pubkey>
    requires n <= |es|
  {
    set i: nat | 0 <= i < n && IsRefresh(rt, l, es, i, realm, mint) && Within100(rt, l, es, i, n)
                 && LatestWrite(rt, l, es, i, n, Target(es[i].ix)) :: VoterOf(es[i])
  }

  /** A live record with weight comes from a standing voter, its owner. */
  lemma LiveComesFromStanding(rt: Runtime, l: Ledger, es: seq<Event>, n: nat, realm: Pubkey, mint: Pubkey, a: Pubkey)
    requires Sound(rt) && Genesis(rt, l) && n <= |es|
    requires WeightAt(Before(rt, l, es, n), realm, mint, a) > 0
    ensures WeightAt(Before(rt, l, es, n), realm, mint, a) == 1 && At(Before(rt, l, es, n), a).contents.VoterAccount?
    ensures var v := At(Before(rt, l, es, n), a).contents.voter;
            v.governingTokenOwner in StandingVoters(rt, l, es, n, realm, mint)
            && a == VoterAddress(rt, realm, mint, v.governingTokenOwner)
  {
    hide Apply, Decide, Step, EligibleUpdate;
    WeightProvenance(rt, l, es, n, a);
    var v := At(Before(rt, l, es, n), a).contents.voter;
    var i: nat :| LatestWrite(rt, l, es, i, n, a) && (CreatesVoter(es, i, v) || RefreshesVoter(rt, l, es, i, v));
    AddressBinding(rt, l, es[..n], a);
    assert IsRefresh(rt, l, es, i, realm, mint) && Within100(rt, l, es, i, n);
    assert LatestWrite(rt, l, es, i, n, Target(es[i].ix));
    assert VoterOf(es[i]) == v.governingTokenOwner;
  }

  /** The contents an event leaves stay until the next write. */
  lemma {:induction false} HeldUntilNextWrite(rt: Runtime, l: Ledger, es: seq<Event>, i: nat, n: nat, a: Pubkey)
    requires Sound(rt) && Genesis(rt, l) && n <= |es| && LatestWrite(rt, l, es, i, n, a)
    requires !At(Before(rt, l, es, i + 1), a).contents.Raw?
    ensures At(Before(rt, l, es, n), a).contents == At(Before(rt, l, es, i + 1), a).contents
    decreases n
  {
    hide Apply, Decide, Step;
    if i + 1 < n {
      assert LatestWrite(rt, l, es, i, n - 1, a);
      HeldUntilNextWrite(rt, l, es, i, n - 1, a);
      assert !Writes(rt, l, es, n - 1, a);
      RunValid(rt, l, es[..n - 1]);
      BeforeNext(rt, l, es, n - 1);
      UntouchedTyped(rt, Before(rt, l, es, n - 1), es[n - 1], a);
    }
  }

  /** A refresh leaves weight one at the address of its voter's record. */
  lemma RefreshLeaves(rt: Runtime, l: Ledger, es: seq<Event>, i: nat, realm: Pubkey, mint: Pubkey)
    requires Sound(rt) && Genesis(rt, l) && i < |es| && IsRefresh(rt, l, es, i, realm, mint)
    ensures var before, a := Before(rt, l, es, i), VoterAddress(rt, realm, mint, VoterOf(es[i]));
            && a == Target(es[i].ix) && Succeeds(rt, before, es[i])
            && At(Before(rt, l, es, i + 1), a).contents
               == VoterAccount(Refreshed(At(before, a).contents.voter, before.clock.slot))
            && At(before, a).contents.VoterAccount?
            && KeyOf(At(before, a).contents) == VoterSeeds(realm, mint, VoterOf(es[i]))
  {
    var before := Before(rt, l, es, i);
    UpdateSucceedsIff(rt, before, es[i].ix);
    AddressBinding(rt, l, es[..i], es[i].ix.record);
    BeforeNext(rt, l, es, i);
    PerformAtTarget(rt, before, Decide(rt, before, es[i].ix).value);
  }

  /** A standing voter has a live record of weight one. */
  lemma StandingIsLive(rt: Runtime, l: Ledger, es: seq<Event>, n: nat, realm: Pubkey, mint: Pubkey, w: Pubkey)
    requires Sound(rt) && Genesis(rt, l) && n <= |es| && w in StandingVoters(rt, l, es, n, realm, mint)
    ensures var a := VoterAddress(rt, realm, mint, w);
            && WeightAt(Before(rt, l, es, n), realm, mint, a) == 1
            && At(Before(rt, l, es, n), a).contents.VoterAccount?
            && At(Before(rt, l, es, n), a).contents.voter.governingTokenOwner == w
  {
    hide Apply, Decide, Step, EligibleUpdate;
    var i: nat :| i < n && IsRefresh(rt, l, es, i, realm, mint) && Within100(rt, l, es, i, n)
                  && LatestWrite(rt, l, es, i, n, Target(es[i].ix)) && VoterOf(es[i]) == w;
    RefreshLeaves(rt, l, es, i, realm, mint);
    HeldUntilNextWrite(rt, l, es, i, n, Target(es[i].ix));
  }

  /**
   * One wallet, one vote. In every reachable ledger, the live weight of a realm and mint is exactly the number of
   * wallets that refreshed within the last 100 slots and whose record has not been closed since, hence at most the
   * number of distinct wallets that refreshed within the last 100 slots, whatever was closed, created or reconfigured.
   */
  lemma LiveWeightCountsVoters(rt: Runtime, l: Ledger, es: seq<Event>, n: nat, realm: Pubkey,
                               mint: Pubkey)
    requires Sound(rt) && Genesis(rt, l) && n <= |es|
    ensures LiveWeight(Before(rt, l, es, n), realm, mint) == |StandingVoters(rt, l, es, n, realm, mint)|
    ensures LiveWeight(Before(rt, l, es, n), realm, mint) <= |RecentVoters(rt, l, es, n, realm, mint)|
  {
    hide Apply, Decide, Step, IsRefresh, LatestWrite, Within100, WeightAt, VoterAddress;
    var now := Before(rt, l, es, n);
    var weights := Weights(now, realm, mint);
    var standing := StandingVoters(rt, l, es, n, realm, mint);
    forall a | a in weights ensures weights[a] <= 1 {
      if WeightAt(now, realm, mint, a) > 0 { LiveComesFromStanding(rt, l, es, n, realm, mint, a); }
    }
    SumOfBits(weights);
    var f := (w: Pubkey) => VoterAddress(rt, realm, mint, w);
    var live := Ones(weights);
    var image := set w | w in standing :: f(w);
    forall a | a in live ensures a in image {
      LiveComesFromStanding(rt, l, es, n, realm, mint, a);
      assert f(At(now, a).contents.voter.governingTokenOwner) == a;
    }
    forall w | w in standing
      ensures f(w) in live && At(now, f(w)).contents.VoterAccount?
      ensures At(now, f(w)).contents.voter.governingTokenOwner == w
    {
      StandingIsLive(rt, l, es, n, realm, mint, w);
      WeightNeedsAccount(now, realm, mint, f(w));
    }
    assert live == image;
    ImageSize(f, standing);
    SubsetSize(standing, RecentVoters(rt, l, es, n, realm, mint));
  }

  lemma WeightNeedsAccount(l: Ledger, realm: Pubkey, mint: Pubkey, a: Pubkey)
    requires WeightAt(l, realm, mint, a) > 0
    ensures a in l.accounts && At(l, a).contents.VoterAccount?
  {
  }

  /** The refresh that gave account `a` its present weight read the identity account of `a`'s owner. */
  ghost predicate BackedBy(rt: Runtime, l: Ledger, es: seq<Event>, n: nat, a: Pubkey, identity: Pubkey)
    requires n <= |es|
  {
    exists i: nat :: LatestWrite(rt, l, es, i, n, a) && es[i].ix.UpdateVoter? && es[i].ix.identity == Some(identity)
                     && EligibleUpdate(rt, Before(rt, l, es, i), es[i].ix)
  }

  /**
   * One person behind each vote: two live records with weight for one realm and mint rest on two different identity
   * accounts, as long as the address derivation does not collide on the keys in play.
   */
  lemma DistinctIdentities(rt: Runtime, l: Ledger, es: seq<Event>, n: nat, realm: Pubkey, mint: Pubkey,
                           a: Pubkey, b: Pubkey, keys: set<Pubkey>)
    requires Sound(rt) && Genesis(rt, l) && n <= |es| && a != b
    requires WeightAt(Before(rt, l, es, n), realm, mint, a) > 0 && WeightAt(Before(rt, l, es, n), realm, mint, b) > 0
    requires CollisionFree(rt, keys)
    requires At(Before(rt, l, es, n), a).contents.voter.governingTokenOwner in keys
    requires At(Before(rt, l, es, n), b).contents.voter.governingTokenOwner in keys
    ensures var now := Before(rt, l, es, n);
            var idA := IdentityAddress(rt, At(now, a).contents.voter.governingTokenOwner);
            var idB := IdentityAddress(rt, At(now, b).contents.voter.governingTokenOwner);
            idA != idB && BackedBy(rt, l, es, n, a, idA) && BackedBy(rt, l, es, n, b, idB)
  {
    LiveIsBacked(rt, l, es, n, realm, mint, a);
    LiveIsBacked(rt, l, es, n, realm, mint, b);
    LiveComesFromStanding(rt, l, es, n, realm, mint, a);
    LiveComesFromStanding(rt, l, es, n, realm, mint, b);
    AddressesDiffer(rt, keys, IdentitySeeds(At(Before(rt, l, es, n), a).contents.voter.governingTokenOwner),
                    IdentitySeeds(At(Before(rt, l, es, n), b).contents.voter.governingTokenOwner));
  }

  lemma LiveIsBacked(rt: Runtime, l: Ledger, es: seq<Event>, n: nat, realm: Pubkey, mint: Pubkey, a: Pubkey)
    requires Sound(rt) && Genesis(rt, l) && n <= |es|
    requires WeightAt(Before(rt, l, es, n), realm, mint, a) > 0
    ensures BackedBy(rt, l, es, n, a,
                     IdentityAddress(rt, At(Before(rt, l, es, n), a).contents.voter.governingTokenOwner))
  {
    hide Apply, Decide, Step;
    WeightProvenance(rt, l, es, n, a);
    var v := At(Before(rt, l, es, n), a).contents.voter;
    var i: nat :| LatestWrite(rt, l, es, i, n, a) && (CreatesVoter(es, i, v) || RefreshesVoter(rt, l, es, i, v));
    assert es[i].ix.identity == Some(IdentityAddress(rt, v.governingTokenOwner));
  }

  // ---- configuration changes take hold within 100 slots ----

  /** There is no registrar for this realm and mint just before event `k`. */
  predicate NoRegistrar(rt: Runtime, l: Ledger, es: seq<Event>, k: nat, realm: Pubkey, mint: Pubkey)
    requires k <= |es|
  {
    !At(Before(rt, l, es, k), RegistrarAddress(rt, realm, mint)).contents.RegistrarAccount?
  }

  /** Event `k` refreshed account `a` and met the thresholds its registrar had at that moment. */
  predicate RefreshedUnder(rt: Runtime, l: Ledger, es: seq<Event>, k: nat, realm: Pubkey, mint: Pubkey, a: Pubkey)
    requires k < |es|
  {
    && IsRefresh(rt, l, es, k, realm, mint) && Target(es[k].ix) == a
    && var before := Before(rt, l, es, k);
    && At(before, RegistrarAddress(rt, realm, mint)).contents.RegistrarAccount?
    && QualifyingIdentity(rt, before, es[k].ix.identity, es[k].ix.voter,
                          At(before, RegistrarAddress(rt, realm, mint)).contents.registrar)
  }

  /**
   * Convergence. More than 100 slots after any point of a run, the write that left a live weight came after that point
   * and met the thresholds in force then; so if the registrar was absent all that time, no live weight is left.
   */
  lemma ConfigurationConverges(rt: Runtime, l: Ledger, es: seq<Event>, i: nat, n: nat, realm: Pubkey, mint: Pubkey,
                               a: Pubkey)
    requires Sound(rt) && Genesis(rt, l) && i <= n <= |es|
    requires Before(rt, l, es, n).clock.slot > Before(rt, l, es, i).clock.slot + 100
    ensures WeightAt(Before(rt, l, es, n), realm, mint, a) > 0 ==>
              exists k: nat :: i <= k < n && RefreshedUnder(rt, l, es, k, realm, mint, a)
                               && LatestWrite(rt, l, es, k, n, a)
    ensures (forall k :: i <= k < n ==> NoRegistrar(rt, l, es, k, realm, mint)) ==>
              WeightAt(Before(rt, l, es, n), realm, mint, a) == 0
  {
    hide Apply, Decide, Step;
    if WeightAt(Before(rt, l, es, n), realm, mint, a) > 0 {
      WeightProvenance(rt, l, es, n, a);
      var v := At(Before(rt, l, es, n), a).contents.voter;
      var k: nat :| LatestWrite(rt, l, es, k, n, a) && (CreatesVoter(es, k, v) || RefreshesVoter(rt, l, es, k, v));
      if k < i {
        SlotsNeverGoBack(rt, l, es, k, i);
      }
      assert RefreshedUnder(rt, l, es, k, realm, mint, a);
      assert !NoRegistrar(rt, l, es, k, realm, mint);
    }
  }

  /** With the registrar absent all that time, the whole realm and mint is left without live weight. */
  lemma NoRegistrarNoWeight(rt: Runtime, l: Ledger, es: seq<Event>, i: nat, n: nat, realm: Pubkey, mint: Pubkey)
    requires Sound(rt) && Genesis(rt, l) && i <= n <= |es|
    requires Before(rt, l, es, n).clock.slot > Before(rt, l, es, i).clock.slot + 100
    requires forall k :: i <= k < n ==> NoRegistrar(rt, l, es, k, realm, mint)
    ensures LiveWeight(Before(rt, l, es, n), realm, mint) == 0
  {
    hide Apply, Decide, Step;
    var now := Before(rt, l, es, n);
    var weights := Weights(now, realm, mint);
    forall a | a in weights ensures weights[a] == 0 {
      ConfigurationConverges(rt, l, es, i, n, realm, mint, a);
    }
    SumOfBits(weights);
    assert Ones(weights) == {};
  }

  // ---- the way to a vote ----

  /** A voter without a record creates one and refreshes it; then `slots` pass. */
  function Journey(registrar: Pubkey, record: Pubkey, voter: Pubkey, payer: Pubkey, identity: Pubkey,
                   slots: nat, unixTimestamp: i64): seq<Event>
  {
    [Invoke(CreateVoter(registrar, record, voter, payer, voter)),
     Invoke(UpdateVoter(registrar, record, voter, Some(identity))),
     AdvanceClock(slots, unixTimestamp)]
  }

  /** The creation leaves the refresh eligible if the identity qualifies. */
  lemma RefreshAfterCreate(rt: Runtime, l: Ledger, create: Instruction, identity: Pubkey)
    requires create.CreateVoter? && Decide(rt, l, create).Ok?
    requires QualifyingIdentity(rt, l, Some(identity), create.owner, At(l, create.registrar).contents.registrar)
    ensures var next := Step(rt, l, Invoke(create));
            && EligibleUpdate(rt, next, UpdateVoter(create.registrar, create.record, create.owner, Some(identity)))
            && KeyOf(At(next, create.record).contents)
               == VoterSeeds(At(l, create.registrar).contents.registrar.realm,
                             At(l, create.registrar).contents.registrar.governingTokenMint, create.owner)
            && next.clock == l.clock
  {
    SucceedsIffPermitted(rt, l, create);
    ProgramIdsDiffer();
    var effect := Decide(rt, l, create).value;
    PerformAtTarget(rt, l, effect);
    PerformElsewhere(rt, l, effect, create.registrar);
    PerformElsewhere(rt, l, effect, identity);
  }

  /** A refresh leaves weight one, which counts for 100 slots. */
  lemma RefreshThenWait(rt: Runtime, l: Ledger, update: Instruction, slots: nat, unixTimestamp: i64)
    requires update.UpdateVoter? && EligibleUpdate(rt, l, update) && l.clock.slot + slots <= U64_MAX
    ensures var end := Step(rt, Step(rt, l, Invoke(update)), AdvanceClock(slots, unixTimestamp));
            var v := At(l, update.record).contents.voter;
            WeightAt(end, v.realm, v.governingTokenMint, update.record) == if slots <= 100 then 1 else 0
  {
    hide Decide, EligibleUpdate, Perform;
    UpdateSucceedsIff(rt, l, update);
    PerformAtTarget(rt, l, Decide(rt, l, update).value);
  }

  lemma JourneyEnds(rt: Runtime, l: Ledger, registrar: Pubkey, record: Pubkey, voter: Pubkey, payer: Pubkey,
                    identity: Pubkey, slots: nat, unixTimestamp: i64)
    ensures var es := Journey(registrar, record, voter, payer, identity, slots, unixTimestamp);
            Run(rt, l, es) == Step(rt, Step(rt, Step(rt, l, es[0]), es[1]), es[2])
  {
    hide Step;
    var es := Journey(registrar, record, voter, payer, identity, slots, unixTimestamp);
    assert es[..0] == [] && es[..3] == es;
    RunPrefix(rt, l, es, 0);
    RunPrefix(rt, l, es, 1);
    RunPrefix(rt, l, es, 2);
  }

  /**
   * Eligible voters do get their vote. From any ledger, whoever may create a record and has a qualifying identity ends
   * with weight one after creating and refreshing, which counts for 100 slots and not for one more.
   */
  lemma EligibleVoterGetsVote(rt: Runtime, l: Ledger, registrar: Pubkey, record: Pubkey, voter: Pubkey, payer: Pubkey,
                              identity: Pubkey, slots: nat, unixTimestamp: i64)
    requires Permitted(rt, l, CreateVoter(registrar, record, voter, payer, voter))
    requires QualifyingIdentity(rt, l, Some(identity), voter, At(l, registrar).contents.registrar)
    requires l.clock.slot + slots <= U64_MAX
    ensures var g := At(l, registrar).contents.registrar;
            var end := Run(rt, l, Journey(registrar, record, voter, payer, identity, slots, unixTimestamp));
            WeightAt(end, g.realm, g.governingTokenMint, record) == if slots <= 100 then 1 else 0
  {
    var create := CreateVoter(registrar, record, voter, payer, voter);
    var update := UpdateVoter(registrar, record, voter, Some(identity));
    var es := Journey(registrar, record, voter, payer, identity, slots, unixTimestamp);
    hide Decide, EligibleUpdate, Permitted, QualifyingIdentity, Step, Run, Perform;
    SucceedsIffPermitted(rt, l, create);
    RefreshAfterCreate(rt, l, create, identity);
    var created := Step(rt, l, Invoke(create));
    RefreshThenWait(rt, created, update, slots, unixTimestamp);
    JourneyEnds(rt, l, registrar, record, voter, payer, identity, slots, unixTimestamp);
  }
}
