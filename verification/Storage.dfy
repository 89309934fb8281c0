/** How stored bytes are understood as typed accounts. */
module Storage {
  import opened Prelude
  import opened Bytes
  import opened Records
  import opened Addresses
  import opened Ledgers

  /** The typed reading of a plugin-owned buffer: its first eight bytes select the type, any stale tail is ignored. */
  function Classify(data: seq<byte>): Contents {
    if |data| < 8 then Raw(data)
    else if data[..8] == REGISTRAR_DISCRIMINATOR && TakeRegistrar(data).Parsed?
    then RegistrarAccount(TakeRegistrar(data).value)
    else if data[..8] == VOTER_DISCRIMINATOR && TakeVoter(data).Parsed? then VoterAccount(TakeVoter(data).value)
    else if data[..8] == MAX_DISCRIMINATOR && TakeMax(data).Parsed? then MaxAccount(TakeMax(data).value)
    else Raw(data)
  }

  function ContentsOf(owner: Pubkey, data: seq<byte>): Contents {
    if owner == PLUGIN_ID then Classify(data) else Raw(data)
  }

  function Interpret(lamports: nat, owner: Pubkey, executable: bool, data: seq<byte>): Account {
    Account(lamports, owner, executable, ContentsOf(owner, data))
  }

  /** The buffer of a typed account has the size its `space` gave it. */
  predicate Sized(owner: Pubkey, data: seq<byte>) {
    match ContentsOf(owner, data)
    case RegistrarAccount(_) => |data| == REGISTRAR_SPACE
    case VoterAccount(_) => |data| == VOTER_SPACE
    case MaxAccount(_) => |data| == MAX_SPACE
    case Raw(_) => true
  }

  lemma DiscriminatorsDiffer()
    ensures REGISTRAR_DISCRIMINATOR != VOTER_DISCRIMINATOR
    ensures REGISTRAR_DISCRIMINATOR != MAX_DISCRIMINATOR
    ensures VOTER_DISCRIMINATOR != MAX_DISCRIMINATOR
  {
    assert REGISTRAR_DISCRIMINATOR[0] == 193 && VOTER_DISCRIMINATOR[0] == 46 && MAX_DISCRIMINATOR[0] == 157;
  }

  /** A buffer that is not the plugin's, or zero-filled, has no type. */
  lemma UntypedIsRaw(owner: Pubkey, data: seq<byte>)
    requires owner == PLUGIN_ID ==> AllZero(data)
    ensures ContentsOf(owner, data) == Raw(data) && Sized(owner, data)
  {
    if |data| >= 8 && owner == PLUGIN_ID {
      assert data[..8][0] == 0;
      assert REGISTRAR_DISCRIMINATOR[0] == 193 && VOTER_DISCRIMINATOR[0] == 46 && MAX_DISCRIMINATOR[0] == 157;
    }
  }

  lemma UntypedReading(lamports: nat, owner: Pubkey, executable: bool, data: seq<byte>)
    requires owner == PLUGIN_ID ==> AllZero(data)
    ensures Interpret(lamports, owner, executable, data) == Account(lamports, owner, executable, Raw(data))
    ensures Sized(owner, data)
  {
    UntypedIsRaw(owner, data);
  }

  lemma FieldComesFirst(data: seq<byte>)
    ensures TakeVoter(data).Parsed? ==> |data| >= 8 && TakeVoter(data).value.accountDiscriminator == data[..8]
    ensures TakeMax(data).Parsed? ==> |data| >= 8 && TakeMax(data).value.accountDiscriminator == data[..8]
  {
  }

  /** A typed voter or max account carries its discriminator as a field. */
  lemma FieldIsDiscriminator(data: seq<byte>)
    ensures Classify(data).VoterAccount? ==> Classify(data).voter.accountDiscriminator == VOTER_DISCRIMINATOR
    ensures Classify(data).MaxAccount? ==> Classify(data).max.accountDiscriminator == MAX_DISCRIMINATOR
  {
    FieldComesFirst(data);
    hide TakeVoter, TakeMax, TakeRegistrar;
  }

  // ---- a record written in place is what is read back ----

  lemma StoredVoter(before: seq<byte>, v: VoterWeightRecord)
    requires |before| == VOTER_SPACE && v.accountDiscriminator == VOTER_DISCRIMINATOR
    ensures |EncodeVoter(v)| <= |before|
    ensures var data := Overlay(before, 0, EncodeVoter(v));
            ContentsOf(PLUGIN_ID, data) == VoterAccount(v) && Sized(PLUGIN_ID, data)
  {
    hide Overlay, EncodeVoter, TakeRegistrar, TakeMax;
    VoterSurvivesStaleTail(before, v);
    DiscriminatorsDiffer();
    FieldComesFirst(Overlay(before, 0, EncodeVoter(v)));
    hide TakeVoter;
  }

  lemma StoredMax(before: seq<byte>, m: MaxVoterWeightRecord)
    requires |before| == MAX_SPACE && m.accountDiscriminator == MAX_DISCRIMINATOR
    ensures |EncodeMax(m)| <= |before|
    ensures var data := Overlay(before, 0, EncodeMax(m));
            ContentsOf(PLUGIN_ID, data) == MaxAccount(m) && Sized(PLUGIN_ID, data)
  {
    hide Overlay, EncodeMax, TakeRegistrar, TakeVoter;
    MaxSurvivesStaleTail(before, m);
    DiscriminatorsDiffer();
    FieldComesFirst(Overlay(before, 0, EncodeMax(m)));
    hide TakeMax;
  }

  lemma StoredRegistrar(g: Registrar)
    ensures |EncodeRegistrar(g)| == REGISTRAR_SPACE
    ensures ContentsOf(PLUGIN_ID, EncodeRegistrar(g)) == RegistrarAccount(g) && Sized(PLUGIN_ID, EncodeRegistrar(g))
  {
    RegistrarRoundTrip(g, []);
    assert EncodeRegistrar(g)[..8] == REGISTRAR_DISCRIMINATOR;
  }

  // ---- what `init` loads from a fresh buffer ----

  lemma {:induction false} ZeroLE(n: nat)
    ensures LE(0, n) == Zeros(n)
  {
    if n > 0 { ZeroLE(n - 1); }
  }

  /** Decoding a fresh, zero-filled buffer of the record's size gives the all-zero record. */
  lemma FreshVoter()
    ensures TakeVoter(Zeros(VOTER_SPACE)).Parsed?
    ensures TakeVoter(Zeros(VOTER_SPACE)).value ==
            VoterWeightRecord(Zeros(8), Zeros(32), Zeros(32), Zeros(32), 0, None, None, None, Zeros(8))
  {
    var v := VoterWeightRecord(Zeros(8), Zeros(32), Zeros(32), Zeros(32), 0, None, None, None, Zeros(8));
    ZeroLE(8);
    VoterSize(v, Zeros(41));
    assert PutVoter(v, Zeros(41)) == Zeros(VOTER_SPACE);
    VoterRoundTrip(v, Zeros(41));
  }

  lemma FreshMax()
    ensures TakeMax(Zeros(MAX_SPACE)).Parsed?
    ensures TakeMax(Zeros(MAX_SPACE)).value == MaxVoterWeightRecord(Zeros(8), Zeros(32), Zeros(32), 0, None, Zeros(8))
  {
    var m := MaxVoterWeightRecord(Zeros(8), Zeros(32), Zeros(32), 0, None, Zeros(8));
    ZeroLE(8);
    assert PutMax(m, Zeros(8)) == Zeros(MAX_SPACE);
    MaxRoundTrip(m, Zeros(8));
  }

  lemma FreshRegistrar()
    ensures TakeRegistrar(Zeros(REGISTRAR_SPACE)).Parsed?
    ensures TakeRegistrar(Zeros(REGISTRAR_SPACE)).value.reserved == Zeros(64)
  {
    assert Zeros(REGISTRAR_SPACE)[8..][32..][32..][32..][2..][8..][..64] == Zeros(64);
  }
}
