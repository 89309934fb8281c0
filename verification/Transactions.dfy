/** Raw transactions against byte buffers: the whole program, from signed bytes in to stored bytes out. */
module Transactions {
  import opened Prelude
  import opened Bytes
  import opened Records
  import opened Addresses
  import opened Ledgers
  import opened Reachability
  import opened Provenance
  import opened OneVote
  import opened Sums
  import opened Entrypoint
  import opened Storage
  import opened Layout
  import V = Validator

  // ---- what is submitted ----

  type Move = e: Event | !e.Invoke? witness AdvanceClock(0, 0)

  /** A transaction with one instruction for the program, as raw bytes and keys, or a move of the environment. */
  datatype Submission = Transaction(tx: TransactionInstruction) | Environment(move: Move)

  /** The events a submission stands for: none if the dispatcher refuses it. */
  function EventsOf(s: Submission): seq<Event> {
    match s
    case Transaction(tx) => if Dispatch(tx).Ok? then [Invoke(Dispatch(tx).value)] else []
    case Environment(move) => [move]
  }

  function Decoded(ss: seq<Submission>): seq<Event> {
    if ss == [] then [] else Decoded(ss[..|ss| - 1]) + EventsOf(ss[|ss| - 1])
  }

  /** What the sender of a submission is told. */
  function AnswerTo(rt: Runtime, l: Ledger, s: Submission): Result<()> {
    match s
    case Transaction(tx) =>
      var ix :- Dispatch(tx);
      Answer(rt, l, Invoke(ix))
    case Environment(move) => Answer(rt, l, move)
  }

  lemma DecodedNext(ss: seq<Submission>, i: nat)
    requires i < |ss|
    ensures Decoded(ss[..i + 1]) == Decoded(ss[..i]) + EventsOf(ss[i])
  {
    assert ss[..i + 1][..i] == ss[..i];
  }

  lemma RunDecodedNone(rt: Runtime, l: Ledger, ss: seq<Submission>)
    ensures Run(rt, l, Decoded(ss[..0])) == l
  {
  }

  lemma RunDecodedNext(rt: Runtime, l: Ledger, ss: seq<Submission>, i: nat)
    requires i < |ss|
    ensures Run(rt, l, Decoded(ss[..i + 1])) ==
            if EventsOf(ss[i]) == [] then Run(rt, l, Decoded(ss[..i]))
            else Step(rt, Run(rt, l, Decoded(ss[..i])), EventsOf(ss[i])[0])
  {
    hide Step, Dispatch;
    DecodedNext(ss, i);
    if EventsOf(ss[i]) == [] {
      assert Decoded(ss[..i]) + [] == Decoded(ss[..i]);
    } else {
      RunAppend(rt, l, Decoded(ss[..i]), EventsOf(ss[i])[0]);
    }
  }

  /** Submission `i` is a transaction that dispatches to this instruction, with the signatures it relies on. */
  predicate Submits(ss: seq<Submission>, i: nat, ix: Instruction) {
    && i < |ss| && ss[i].Transaction? && Dispatch(ss[i].tx) == Ok(ix)
    && forall k :: k in SignersOf(ix) ==> Signed(ss[i].tx.keys, k)
  }

  /** Every instruction of the decoded run was submitted, signed by everyone whose signature it relies on. */
  lemma {:induction false} InstructionsAreSubmitted(ss: seq<Submission>, j: nat)
    requires j < |Decoded(ss)| && Decoded(ss)[j].Invoke?
    ensures exists i: nat :: Submits(ss, i, Decoded(ss)[j].ix)
  {
    hide Dispatch, SignersOf, Signed;
    var init, last := ss[..|ss| - 1], ss[|ss| - 1];
    if j < |Decoded(init)| {
      InstructionsAreSubmitted(init, j);
      var i: nat :| Submits(init, i, Decoded(ss)[j].ix);
      assert Submits(ss, i, Decoded(ss)[j].ix);
    } else {
      forall k | k in SignersOf(Decoded(ss)[j].ix) ensures Signed(last.tx.keys, k) {
        DispatchedAreSigned(last.tx, k);
      }
      assert Submits(ss, |ss| - 1, Decoded(ss)[j].ix);
    }
  }

  // ---- what a consumer reads ----

  /**
   * The weight a consumer reads from an account's bytes: owner, discriminator, realm and mint have to match, and the
   * expiry, if its tag is set, must not be past.
   */
  function StoredWeight(owner: Pubkey, data: seq<byte>, realm: Pubkey, mint: Pubkey, slot: u64): nat {
    if owner == PLUGIN_ID && |data| >= 123 && data[..8] == [46, 249, 155, 75, 153, 248, 116, 9]
       && data[8..40] == realm && data[40..72] == mint
       && (data[112] == 0 || slot <= Word(data, 113))
    then Word(data, 104) else 0
  }

  /** Reading the bytes and reading the typed account give the same weight. */
  lemma BytesGiveWeight(owner: Pubkey, data: seq<byte>, realm: Pubkey, mint: Pubkey, slot: u64)
    requires ContentsOf(owner, data).Raw? && owner == PLUGIN_ID ==> AllZero(data)
    ensures StoredWeight(owner, data, realm, mint, slot) ==
            match ContentsOf(owner, data)
            case VoterAccount(v) =>
              if v.realm == realm && v.governingTokenMint == mint && Live(v, slot) then v.voterWeight else 0
            case _ => 0
  {
    hide TakeVoter, TakeMax, TakeRegistrar, PutVoter, Word;
    if owner == PLUGIN_ID && |data| >= 8 {
      DiscriminatorsDiffer();
      match Classify(data)
      case VoterAccount(v) =>
        VoterCanonical(data);
        VoterLayout(v, TakeVoter(data).rest);
      case Raw(_) => assert data[..8][0] == 0 && VOTER_DISCRIMINATOR[0] == 46;
      case _ =>
    }
  }

  /** The live weights as the buffers of a ledger have them. */
  ghost function StoredWeights(v: V.Validator, realm: Pubkey, mint: Pubkey): map<Pubkey, nat>
    reads v, v.Buffers()
  {
    map a | a in v.accounts ::
      StoredWeight(v.accounts[a].owner, v.accounts[a].data[..], realm, mint, v.clock.slot)
  }

  ghost function StoredLiveWeight(v: V.Validator, realm: Pubkey, mint: Pubkey): nat
    reads v, v.Buffers()
  {
    SumOf(StoredWeights(v, realm, mint))
  }

  lemma StoredWeightsAreTyped(v: V.Validator, realm: Pubkey, mint: Pubkey)
    requires Reachability.Valid(v.rt, v.Typed())
    ensures StoredWeights(v, realm, mint) == Weights(v.Typed(), realm, mint)
  {
    hide ContentsOf, Classify, StoredWeight, AllZero;
    forall a | a in v.accounts ensures StoredWeights(v, realm, mint)[a] == Weights(v.Typed(), realm, mint)[a] {
      var stored := v.accounts[a];
      assert ValidAccount(v.rt, v.clock, a, At(v.Typed(), a));
      RawIsItself(stored.owner, stored.data[..]);
      BytesGiveWeight(stored.owner, stored.data[..], realm, mint, v.clock.slot);
    }
  }

  lemma RawIsItself(owner: Pubkey, data: seq<byte>)
    ensures ContentsOf(owner, data).Raw? ==> ContentsOf(owner, data) == Raw(data)
  {
    hide TakeVoter, TakeMax, TakeRegistrar;
  }

  /** A transaction refreshing this wallet's weight was submitted with the wallet's signature. */
  ghost predicate SignedRefresh(ss: seq<Submission>, wallet: Pubkey) {
    exists i: nat, ix: Instruction :: Submits(ss, i, ix) && ix.UpdateVoter? && ix.voter == wallet
                                      && Signed(ss[i].tx.keys, wallet)
  }

  /** The wallets whose refresh still stands at the end of the run that the submissions stand for. */
  function Standing(rt: Runtime, l: Ledger, ss: seq<Submission>, realm: Pubkey, mint: Pubkey): set<Pubkey> {
    StandingVoters(rt, l, Decoded(ss), |Decoded(ss)|, realm, mint)
  }

  /**
   * One wallet, one vote, in the bytes. Where raw submissions took a genesis to these buffers, the live weight that a
   * consumer reads from them is the number of wallets whose refresh still stands, each of which signed a transaction.
   */
  lemma BuffersCountVoters(v: V.Validator, l: Ledger, ss: seq<Submission>, realm: Pubkey,
                           mint: Pubkey)
    requires v.Valid() && Genesis(v.rt, l) && v.Typed() == Run(v.rt, l, Decoded(ss))
    ensures StoredLiveWeight(v, realm, mint) == |Standing(v.rt, l, ss, realm, mint)|
    ensures forall w :: w in Standing(v.rt, l, ss, realm, mint) ==> SignedRefresh(ss, w)
  {
    hide Sound, Genesis, Run, StandingVoters, StoredWeights, Weights;
    var es := Decoded(ss);
    assert es[..|es|] == es;
    RunValid(v.rt, l, es);
    StoredWeightsAreTyped(v, realm, mint);
    LiveWeightCountsVoters(v.rt, l, es, |es|, realm, mint);
    forall w | w in Standing(v.rt, l, ss, realm, mint) ensures SignedRefresh(ss, w) {
      StandingSigned(v.rt, l, ss, realm, mint, w);
    }
  }

  lemma StandingSigned(rt: Runtime, l: Ledger, ss: seq<Submission>, realm: Pubkey, mint: Pubkey,
                       wallet: Pubkey)
    requires wallet in Standing(rt, l, ss, realm, mint)
    ensures SignedRefresh(ss, wallet)
  {
    hide Signed, Within100, LatestWrite, Run, Dispatch, Decoded;
    var es := Decoded(ss);
    var j: nat :| j < |es| && IsRefresh(rt, l, es, j, realm, mint) && VoterOf(es[j]) == wallet;
    InstructionsAreSubmitted(ss, j);
    var i: nat :| Submits(ss, i, es[j].ix);
    assert VoterOf(es[j]) == es[j].ix.voter;
    assert SignersOf(es[j].ix) == {wallet};
  }

  /**
   * Raw transactions and moves of the environment, one after the other: decoding the buffers gives the ledger of the
   * typed run that they stand for, every sender is told what the typed system answers, and, from a genesis, the live
   * weight in the buffers counts the standing voters of every realm and mint.
   */
  method Process(v: V.Validator, ss: seq<Submission>) returns (answers: seq<Result<()>>)
    requires v.Valid()
    modifies v, v.Buffers()
    ensures v.Valid() && fresh(v.Buffers() - old(v.Buffers()))
    ensures v.Typed() == Run(v.rt, old(v.Typed()), Decoded(ss))
    ensures |answers| == |ss|
    ensures forall i :: 0 <= i < |ss| ==>
              answers[i] == AnswerTo(v.rt, Run(v.rt, old(v.Typed()), Decoded(ss[..i])), ss[i])
    ensures Genesis(v.rt, old(v.Typed())) ==>
              forall realm, mint :: StoredLiveWeight(v, realm, mint)
                                    == |Standing(v.rt, old(v.Typed()), ss, realm, mint)|
  {
    hide Step, AnswerTo, EventsOf, Decoded, Run, Genesis, Standing, StoredLiveWeight;
    RunDecodedNone(v.rt, v.Typed(), ss);
    answers := [];
    for i := 0 to |ss|
      invariant v.Valid() && fresh(v.Buffers() - old(v.Buffers()))
      invariant v.Typed() == Run(v.rt, old(v.Typed()), Decoded(ss[..i]))
      invariant |answers| == i
      invariant forall j :: 0 <= j < i ==>
                  answers[j] == AnswerTo(v.rt, Run(v.rt, old(v.Typed()), Decoded(ss[..j])), ss[j])
    {
      var r := Take(v, ss[i]);
      RunDecodedNext(v.rt, old(v.Typed()), ss, i);
      answers := answers + [r];
    }
    assert ss[..|ss|] == ss;
    forall realm, mint | Genesis(v.rt, old(v.Typed()))
      ensures StoredLiveWeight(v, realm, mint) == |Standing(v.rt, old(v.Typed()), ss, realm, mint)|
    {
      BuffersCountVoters(v, old(v.Typed()), ss, realm, mint);
    }
  }

  /** One submission. */
  method Take(v: V.Validator, s: Submission) returns (r: Result<()>)
    requires v.Valid()
    modifies v, v.Buffers()
    ensures v.Valid() && fresh(v.Buffers() - old(v.Buffers()))
    ensures r == AnswerTo(v.rt, old(v.Typed()), s)
    ensures v.Typed() == if EventsOf(s) == [] then old(v.Typed()) else Step(v.rt, old(v.Typed()), EventsOf(s)[0])
  {
    hide Step, Answer, Dispatch;
    match s
    case Transaction(tx) =>
      r := v.Submit(tx);
    case Environment(move) =>
      r := v.Handle(move);
  }
}
