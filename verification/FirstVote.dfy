/** The way to a vote exists: from a ledger the plugin has never touched, one wallet ends with a live weight of one. */
module FirstVote {
  import opened Prelude
  import opened Bytes
  import opened Addresses
  import opened Ledgers
  import opened Reachability
  import opened Eligibility
  import opened Acceptance
  import opened Provenance
  import opened OneVote

  /** Who takes part, and what Entros knows about the voter. */
  datatype Cast = Cast(program: Pubkey, realm: Pubkey, mint: Pubkey, authority: Pubkey, payer: Pubkey, voter: Pubkey,
                       minTrustScore: u16, maxVerificationAge: i64, data: seq<byte>)

  function RegistrarOf(rt: Runtime, c: Cast): Pubkey {
    rt.pda(PLUGIN_ID, Ascii("registrar") + c.realm + c.mint)
  }

  function RecordOf(rt: Runtime, c: Cast): Pubkey {
    rt.pda(PLUGIN_ID, Ascii("voter-weight-record") + c.realm + c.mint + c.voter)
  }

  function IdentityOf(rt: Runtime, c: Cast): Pubkey {
    rt.pda(ENTROS_ID, Ascii("identity") + c.voter)
  }

  /** Entros writes the identity account; the registrar and the record are created; the voter refreshes. */
  function Steps(rt: Runtime, c: Cast): seq<Event> {
    [SetForeign(IdentityOf(rt, c), ENTROS_ID, false, c.data),
     Invoke(CreateRegistrar(RegistrarOf(rt, c), c.program, c.realm, c.mint, c.authority, c.payer,
                            c.minTrustScore, c.maxVerificationAge)),
     Invoke(CreateVoter(RegistrarOf(rt, c), RecordOf(rt, c), c.voter, c.payer, c.voter)),
     Invoke(UpdateVoter(RegistrarOf(rt, c), RecordOf(rt, c), c.voter, Some(IdentityOf(rt, c))))]
  }

  /** The realm is set up, the payer has two deposits, and the addresses involved are different from one another. */
  predicate Ready(rt: Runtime, l: Ledger, c: Cast) {
    && At(l, c.program).executable && At(l, c.realm).owner == c.program
    && NamesAuthority(rt, l, c.program, c.realm, c.mint, c.authority)
    && IsWallet(l, c.payer) && !rt.reserved(c.payer) && At(l, c.payer).lamports >= rt.rent(178) + rt.rent(164)
    && RegistrarOf(rt, c) != RecordOf(rt, c)
    && !rt.reserved(IdentityOf(rt, c))
    && IdentityOf(rt, c) != c.program && IdentityOf(rt, c) != c.realm && IdentityOf(rt, c) != c.payer
    && c.maxVerificationAge > 0
    && Passes(c.data, c.minTrustScore, c.maxVerificationAge, l.clock.unixTimestamp)
  }

  // ---- step by step ----

  /** A creation opens its target, takes at most the deposit from its payer and leaves every other account alone. */
  lemma Opened(rt: Runtime, l: Ledger, ix: Instruction, b: Pubkey)
    requires IsCreate(ix) && Decide(rt, l, ix).Ok?
    ensures var next, effect := Step(rt, l, Invoke(ix)), Decide(rt, l, ix).value;
            && effect.Initialize? && Carries(l, ix, effect) && next.clock == l.clock
            && At(next, effect.target).owner == PLUGIN_ID && At(next, effect.target).contents == effect.contents
            && (b != effect.target ==> Bare(At(next, b)) == Bare(At(l, b))
                                       && At(next, b).lamports + rt.rent(effect.space) >= At(l, b).lamports)
  {
    hide Decide, Perform, Performable;
    AcceptedEffect(rt, l, ix);
    var effect := Decide(rt, l, ix).value;
    PerformAtTarget(rt, l, effect);
    if b != effect.target {
      PerformElsewhere(rt, l, effect, b);
      PerformPays(rt, l, effect, b);
    }
  }

  /** Nothing is at a derived address of the plugin yet. */
  lemma Unopened(rt: Runtime, l: Ledger, seeds: seq<byte>)
    requires Sound(rt) && Genesis(rt, l)
    ensures IsWallet(l, rt.pda(PLUGIN_ID, seeds))
  {
    var a := rt.pda(PLUGIN_ID, seeds);
    assert At(l, a).contents.Raw? && Untyped(rt, a, At(l, a));
  }

  /** After Entros wrote the identity account, the registrar can be created. */
  lemma RegistrarOpens(rt: Runtime, l: Ledger, c: Cast)
    requires Sound(rt) && Genesis(rt, l) && Ready(rt, l, c)
    ensures var next := Step(rt, l, Steps(rt, c)[0]);
            && Decide(rt, next, Steps(rt, c)[1].ix).Ok? && next.clock == l.clock
            && At(next, c.payer) == At(l, c.payer) && IsWallet(next, RecordOf(rt, c))
            && At(next, IdentityOf(rt, c)).owner == ENTROS_ID && At(next, IdentityOf(rt, c)).contents == Raw(c.data)
  {
    hide Decide, Step, Apply, Genesis;
    var e := Steps(rt, c)[0];
    var next := Step(rt, l, e);
    ProgramIdsDiffer();
    Unopened(rt, l, Ascii("registrar") + c.realm + c.mint);
    Unopened(rt, l, Ascii("voter-weight-record") + c.realm + c.mint + c.voter);
    EnvironmentAt(rt, l, e, c.program);
    EnvironmentAt(rt, l, e, c.realm);
    EnvironmentAt(rt, l, e, c.payer);
    EnvironmentPays(rt, l, e, c.payer);
    EnvironmentAt(rt, l, e, RegistrarOf(rt, c));
    EnvironmentAt(rt, l, e, RecordOf(rt, c));
    EnvironmentAt(rt, l, e, IdentityOf(rt, c));
    CreateRegistrarAccepted(rt, next, Steps(rt, c)[1].ix);
  }

  /** The identity account is there, and passes. */
  predicate IdentityReady(rt: Runtime, l: Ledger, c: Cast) {
    && At(l, IdentityOf(rt, c)).owner == ENTROS_ID && At(l, IdentityOf(rt, c)).contents == Raw(c.data)
    && Passes(c.data, c.minTrustScore, c.maxVerificationAge, l.clock.unixTimestamp)
  }

  /** The registrar is there, with the thresholds of the cast. */
  predicate RegistrarReady(rt: Runtime, l: Ledger, c: Cast) {
    && At(l, RegistrarOf(rt, c)).owner == PLUGIN_ID && At(l, RegistrarOf(rt, c)).contents.RegistrarAccount?
    && var g := At(l, RegistrarOf(rt, c)).contents.registrar;
    && g.realm == c.realm && g.governingTokenMint == c.mint
    && g.minTrustScore == c.minTrustScore && g.maxVerificationAge == c.maxVerificationAge
  }

  /** With the registrar created, the record can be. */
  lemma RecordOpens(rt: Runtime, l: Ledger, c: Cast)
    requires Sound(rt) && Decide(rt, l, Steps(rt, c)[1].ix).Ok? && RegistrarOf(rt, c) != RecordOf(rt, c)
    requires IsWallet(l, c.payer) && !rt.reserved(c.payer) && At(l, c.payer).lamports >= rt.rent(178) + rt.rent(164)
    requires IsWallet(l, RecordOf(rt, c)) && IdentityReady(rt, l, c) && !rt.reserved(IdentityOf(rt, c))
    ensures var next := Step(rt, l, Steps(rt, c)[1]);
            Decide(rt, next, Steps(rt, c)[2].ix).Ok? && RegistrarReady(rt, next, c) && IdentityReady(rt, next, c)
  {
    hide Decide, Step, Passes;
    var ix := Steps(rt, c)[1].ix;
    Opened(rt, l, ix, c.payer);
    Opened(rt, l, ix, RecordOf(rt, c));
    Opened(rt, l, ix, IdentityOf(rt, c));
    CreateVoterAccepted(rt, Step(rt, l, Steps(rt, c)[1]), Steps(rt, c)[2].ix);
  }

  /** With the record created, the refresh is accepted, and leaves weight one. */
  lemma RefreshAccepted(rt: Runtime, l: Ledger, c: Cast)
    requires Sound(rt) && Decide(rt, l, Steps(rt, c)[2].ix).Ok? && RegistrarOf(rt, c) != RecordOf(rt, c)
    requires RegistrarReady(rt, l, c) && IdentityReady(rt, l, c) && !rt.reserved(IdentityOf(rt, c))
    ensures var next := Step(rt, l, Steps(rt, c)[2]);
            && Decide(rt, next, Steps(rt, c)[3].ix).Ok?
            && WeightAt(Step(rt, next, Steps(rt, c)[3]), c.realm, c.mint, RecordOf(rt, c)) == 1
  {
    hide Decide, Step, Passes;
    var ix := Steps(rt, c)[2].ix;
    Opened(rt, l, ix, RegistrarOf(rt, c));
    Opened(rt, l, ix, IdentityOf(rt, c));
    var next := Step(rt, l, Steps(rt, c)[2]);
    UpdateVoterAccepted(rt, next, Steps(rt, c)[3].ix);
    RefreshWeighs(rt, next, Steps(rt, c)[3].ix);
  }

  lemma RefreshWeighs(rt: Runtime, l: Ledger, ix: Instruction)
    requires ix.UpdateVoter? && Decide(rt, l, ix).Ok?
    ensures At(l, ix.record).contents.VoterAccount?
    ensures var v := At(l, ix.record).contents.voter;
            WeightAt(Step(rt, l, Invoke(ix)), v.realm, v.governingTokenMint, ix.record) == 1
  {
    hide Decide, Perform;
    AcceptedEffect(rt, l, ix);
    PerformAtTarget(rt, l, Decide(rt, l, ix).value);
  }

  // ---- the whole way ----

  lemma FourSteps(rt: Runtime, l: Ledger, es: seq<Event>)
    requires |es| == 4
    ensures Run(rt, l, es) == Step(rt, Step(rt, Step(rt, Step(rt, l, es[0]), es[1]), es[2]), es[3])
  {
    hide Step;
    assert es[..0] == [] && es[..4] == es;
    RunPrefix(rt, l, es, 0);
    RunPrefix(rt, l, es, 1);
    RunPrefix(rt, l, es, 2);
    RunPrefix(rt, l, es, 3);
  }

  /**
   * From any genesis in which the realm is set up and the payer can pay, the four steps leave the realm and mint a
   * live weight of exactly one.
   */
  lemma VoteIsCast(rt: Runtime, l: Ledger, c: Cast)
    requires Sound(rt) && Genesis(rt, l) && Ready(rt, l, c)
    ensures LiveWeight(Run(rt, l, Steps(rt, c)), c.realm, c.mint) == 1
  {
    hide Decide, Step, Genesis, Sound, Passes, Run, LiveWeight, NamesAuthority, WeightAt;
    var es := Steps(rt, c);
    RegistrarOpens(rt, l, c);
    RecordOpens(rt, Step(rt, l, es[0]), c);
    RefreshAccepted(rt, Step(rt, Step(rt, l, es[0]), es[1]), c);
    FourSteps(rt, l, es);
    OneRefreshOneVote(rt, l, c);
  }

  /** There is one refresh in the run, so at most its voter stands. */
  lemma OneRefreshOneVote(rt: Runtime, l: Ledger, c: Cast)
    requires Sound(rt) && Genesis(rt, l)
    requires WeightAt(Run(rt, l, Steps(rt, c)), c.realm, c.mint, RecordOf(rt, c)) > 0
    ensures LiveWeight(Run(rt, l, Steps(rt, c)), c.realm, c.mint) == 1
  {
    hide Run, Genesis, Sound, WeightAt, LiveWeight, StandingVoters, Steps, VoterAddress;
    var es := Steps(rt, c);
    assert |es| == 4 && es[..4] == es by { StepsAreFour(rt, c); }
    LiveWeightCountsVoters(rt, l, es, 4, c.realm, c.mint);
    LiveComesFromStanding(rt, l, es, 4, c.realm, c.mint, RecordOf(rt, c));
    var standing := StandingVoters(rt, l, es, 4, c.realm, c.mint);
    forall w | w in standing ensures w == c.voter {
      OnlyTheVoterStands(rt, l, c, w);
    }
    assert standing == {c.voter};
  }

  lemma StepsAreFour(rt: Runtime, c: Cast)
    ensures |Steps(rt, c)| == 4 && Steps(rt, c)[..4] == Steps(rt, c)
  {
  }

  lemma OnlyTheVoterStands(rt: Runtime, l: Ledger, c: Cast, w: Pubkey)
    requires |Steps(rt, c)| == 4 && w in StandingVoters(rt, l, Steps(rt, c), 4, c.realm, c.mint)
    ensures w == c.voter
  {
    hide Run, LatestWrite, Within100;
    var es := Steps(rt, c);
    var i: nat :| i < 4 && IsRefresh(rt, l, es, i, c.realm, c.mint) && VoterOf(es[i]) == w;
    hide EligibleUpdate;
    assert es[i].Invoke? && es[i].ix.UpdateVoter?;
    assert i == 3;
  }

  // ---- there is such a genesis ----

  /** A ledger with the program, the realm and the payer. */
  function StartingLedger(c: Cast, realmData: seq<byte>, lamports: nat, clock: Clock): Ledger {
    Ledger(map[c.program := Account(0, SYSTEM_ID, true, Raw([])),
               c.realm := Account(0, c.program, false, Raw(realmData)),
               c.payer := Account(lamports, SYSTEM_ID, false, Raw([]))], clock)
  }

  /**
   * Votes can be cast. Under every sound runtime whose realm reader accepts some realm, and in which the voter's
   * identity address is not reserved to this plugin, there is a genesis from which the four steps leave a live weight
   * of exactly one.
   */
  lemma VotesCanBeCast(rt: Runtime, c: Cast, realmData: seq<byte>, clock: Clock)
    requires Sound(rt) && rt.realmOf(c.program, c.program, realmData, c.mint) == Found(Some(c.authority))
    requires !rt.reserved(c.program) && !rt.reserved(c.realm) && !rt.reserved(c.payer)
    requires !rt.reserved(rt.pda(ENTROS_ID, Ascii("identity") + c.voter))
    requires c.program != c.realm && c.program != c.payer && c.realm != c.payer
    requires rt.pda(ENTROS_ID, Ascii("identity") + c.voter) !in {c.program, c.realm, c.payer}
    requires rt.pda(PLUGIN_ID, Ascii("registrar") + c.realm + c.mint)
             != rt.pda(PLUGIN_ID, Ascii("voter-weight-record") + c.realm + c.mint + c.voter)
    requires c.maxVerificationAge > 0 && Passes(c.data, c.minTrustScore, c.maxVerificationAge, clock.unixTimestamp)
    ensures var l := StartingLedger(c, realmData, rt.rent(178) + rt.rent(164), clock);
            Genesis(rt, l) && LiveWeight(Run(rt, l, Steps(rt, c)), c.realm, c.mint) == 1
  {
    hide Passes, LiveWeight, Run, Steps;
    var l := StartingLedger(c, realmData, rt.rent(178) + rt.rent(164), clock);
    ProgramIdsDiffer();
    forall a ensures At(l, a).contents.Raw? && Untyped(rt, a, At(l, a)) {
    }
    VoteIsCast(rt, l, c);
  }
}
