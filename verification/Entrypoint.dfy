/** The program's entry point: from a raw transaction instruction to a typed one. */
module Entrypoint {
  import opened Prelude
  import opened Bytes
  import opened Addresses
  import opened Ledgers

  datatype AccountMeta = AccountMeta(pubkey: Pubkey, isSigner: bool, isWritable: bool)

  datatype TransactionInstruction = TransactionInstruction(programId: Pubkey, keys: seq<AccountMeta>, data: seq<byte>)

  /** First eight bytes of SHA-256 of "global:" followed by the instruction's name. */
  const CREATE_REGISTRAR: Bytes8 := [132, 235, 36, 49, 139, 66, 202, 69]
  const UPDATE_REGISTRAR: Bytes8 := [116, 34, 168, 129, 238, 12, 90, 56]
  const CLOSE_REGISTRAR: Bytes8 := [145, 32, 238, 142, 247, 227, 50, 211]
  const CREATE_VOTER: Bytes8 := [184, 249, 133, 178, 88, 152, 250, 186]
  const UPDATE_VOTER: Bytes8 := [45, 185, 3, 36, 109, 190, 115, 169]
  const CLOSE_VOTER: Bytes8 := [123, 160, 235, 63, 195, 243, 225, 129]
  const CREATE_MAX: Bytes8 := [182, 70, 243, 119, 162, 176, 38, 248]
  const UPDATE_MAX: Bytes8 := [103, 175, 201, 251, 2, 9, 251, 179]

  /** What an account struct demands of one of its accounts. */
  datatype Role = Plain | Mut | Signer | MutSigner | SystemProgram

  function CheckRole(key: AccountMeta, role: Role): Result<()> {
    var signs, writes := role.Signer? || role.MutSigner?, role.Mut? || role.MutSigner?;
    :- Need(signs ==> key.isSigner, AccountNotSigner);
    :- Need(writes ==> key.isWritable, ConstraintMut);
    :- Need(role.SystemProgram? ==> key.pubkey == SYSTEM_ID, InvalidProgramId);
    Ok(())
  }

  /** The accounts of an instruction, checked one after the other against the struct's fields. */
  function CheckAccounts(keys: seq<AccountMeta>, roles: seq<Role>): (r: Result<()>)
    ensures r.Ok? ==> |roles| <= |keys|
  {
    if roles == [] then Ok(()) else
      :- Need(keys != [], AccountNotEnoughKeys);
      var _ :- CheckRole(keys[0], roles[0]);
      CheckAccounts(keys[1..], roles[1..])
  }

  function Argument(data: seq<byte>, at: nat, n: nat): Result<seq<byte>> {
    var end := at + n;
    :- Need(end <= |data|, InstructionDidNotDeserialize);
    Ok(data[at..end])
  }

  /** The dispatcher: the discriminator selects the entry point, the arguments follow, the accounts come in order. */
  function Dispatch(ix: TransactionInstruction): Result<Instruction> {
    var k := ix.keys;
    :- Need(ix.programId == PLUGIN_ID, InvalidProgramId);
    :- Need(|ix.data| >= 8, InstructionFallbackNotFound);
    if ix.data[..8] == CREATE_REGISTRAR then
      var score :- Argument(ix.data, 8, 2);
      var age :- Argument(ix.data, 10, 8);
      var _ :- CheckAccounts(k, [Mut, Plain, Plain, Plain, Signer, MutSigner, SystemProgram]);
      Ok(CreateRegistrar(k[0].pubkey, k[1].pubkey, k[2].pubkey, k[3].pubkey, k[4].pubkey, k[5].pubkey,
                         DecodeU16(score), DecodeI64(age)))
    else if ix.data[..8] == UPDATE_REGISTRAR then
      var score :- Argument(ix.data, 8, 2);
      var age :- Argument(ix.data, 10, 8);
      var _ :- CheckAccounts(k, [Mut, Plain, Signer]);
      Ok(UpdateRegistrar(k[0].pubkey, k[1].pubkey, k[2].pubkey, DecodeU16(score), DecodeI64(age)))
    else if ix.data[..8] == CLOSE_REGISTRAR then
      var _ :- CheckAccounts(k, [Mut, Plain, Signer, Mut]);
      Ok(CloseRegistrar(k[0].pubkey, k[1].pubkey, k[2].pubkey, k[3].pubkey))
    else if ix.data[..8] == CREATE_VOTER then
      var owner :- Argument(ix.data, 8, 32);
      var _ :- CheckAccounts(k, [Plain, Mut, Signer, MutSigner, SystemProgram]);
      Ok(CreateVoter(k[0].pubkey, k[1].pubkey, k[2].pubkey, k[3].pubkey, owner))
    else if ix.data[..8] == UPDATE_VOTER then
      var _ :- CheckAccounts(k, [Plain, Mut, Signer]);
      Ok(UpdateVoter(k[0].pubkey, k[1].pubkey, k[2].pubkey, if |k| > 3 then Some(k[3].pubkey) else None))
    else if ix.data[..8] == CLOSE_VOTER then
      var _ :- CheckAccounts(k, [Plain, Mut, Signer, Mut]);
      Ok(CloseVoter(k[0].pubkey, k[1].pubkey, k[2].pubkey, k[3].pubkey))
    else if ix.data[..8] == CREATE_MAX then
      var _ :- CheckAccounts(k, [Plain, Mut, Plain, Signer, MutSigner, SystemProgram]);
      Ok(CreateMax(k[0].pubkey, k[1].pubkey, k[2].pubkey, k[3].pubkey, k[4].pubkey))
    else if ix.data[..8] == UPDATE_MAX then
      var weight :- Argument(ix.data, 8, 8);
      var _ :- CheckAccounts(k, [Plain, Mut, Plain, Signer]);
      Ok(UpdateMax(k[0].pubkey, k[1].pubkey, k[2].pubkey, k[3].pubkey, DecodeU64(weight)))
    else Err(InstructionFallbackNotFound)
  }

  /** The discriminators are told apart by their first byte. */
  lemma DiscriminatorHeads()
    ensures CREATE_REGISTRAR[0] == 132 && UPDATE_REGISTRAR[0] == 116 && CLOSE_REGISTRAR[0] == 145
    ensures CREATE_VOTER[0] == 184 && UPDATE_VOTER[0] == 45 && CLOSE_VOTER[0] == 123
    ensures CREATE_MAX[0] == 182 && UPDATE_MAX[0] == 103
  {
  }

  lemma {:induction false} AccountsCheckedPointwise(keys: seq<AccountMeta>, roles: seq<Role>)
    ensures CheckAccounts(keys, roles).Ok? <==>
            |roles| <= |keys| && forall i :: 0 <= i < |roles| ==> CheckRole(keys[i], roles[i]).Ok?
  {
    if roles != [] && keys != [] {
      AccountsCheckedPointwise(keys[1..], roles[1..]);
      assert CheckAccounts(keys, roles).Ok? <==>
             CheckRole(keys[0], roles[0]).Ok? && CheckAccounts(keys[1..], roles[1..]).Ok?;
      if |roles| <= |keys| && CheckRole(keys[0], roles[0]).Ok?
         && forall i :: 0 <= i < |roles[1..]| ==> CheckRole(keys[1..][i], roles[1..][i]).Ok? {
        forall i | 0 <= i < |roles| ensures CheckRole(keys[i], roles[i]).Ok? {
          if i > 0 { assert keys[1..][i - 1] == keys[i] && roles[1..][i - 1] == roles[i]; }
        }
      }
      if |roles| <= |keys| && forall i :: 0 <= i < |roles| ==> CheckRole(keys[i], roles[i]).Ok? {
        forall i | 0 <= i < |roles[1..]| ensures CheckRole(keys[1..][i], roles[1..][i]).Ok? {
          assert keys[1..][i] == keys[i + 1] && roles[1..][i] == roles[i + 1];
        }
      }
    }
  }

  /** The keys an instruction relies on as signatures. */
  function SignersOf(ix: Instruction): set<Pubkey> {
    match ix
    case CreateRegistrar(_, _, _, _, authority, payer, _, _) => {authority, payer}
    case UpdateRegistrar(_, _, authority, _, _) => {authority}
    case CloseRegistrar(_, _, authority, _) => {authority}
    case CreateVoter(_, _, signer, payer, _) => {signer, payer}
    case UpdateVoter(_, _, voter, _) => {voter}
    case CloseVoter(_, _, voter, _) => {voter}
    case CreateMax(_, _, _, authority, payer) => {authority, payer}
    case UpdateMax(_, _, _, authority, _) => {authority}
  }

  predicate Signed(keys: seq<AccountMeta>, k: Pubkey) {
    exists i :: 0 <= i < |keys| && keys[i].pubkey == k && keys[i].isSigner
  }

  /** A role that demands a signature is filled by an account that signed. */
  lemma RoleSigned(keys: seq<AccountMeta>, roles: seq<Role>, i: nat)
    requires CheckAccounts(keys, roles).Ok? && i < |roles| && (roles[i].Signer? || roles[i].MutSigner?)
    ensures i < |keys| && Signed(keys, keys[i].pubkey)
  {
    AccountsCheckedPointwise(keys, roles);
  }

  /** The demands of each entry point's account struct. */
  function RolesOf(ix: Instruction): seq<Role> {
    match ix
    case CreateRegistrar(_, _, _, _, _, _, _, _) => [Mut, Plain, Plain, Plain, Signer, MutSigner, SystemProgram]
    case UpdateRegistrar(_, _, _, _, _) => [Mut, Plain, Signer]
    case CloseRegistrar(_, _, _, _) => [Mut, Plain, Signer, Mut]
    case CreateVoter(_, _, _, _, _) => [Plain, Mut, Signer, MutSigner, SystemProgram]
    case UpdateVoter(_, _, _, _) => [Plain, Mut, Signer]
    case CloseVoter(_, _, _, _) => [Plain, Mut, Signer, Mut]
    case CreateMax(_, _, _, _, _) => [Plain, Mut, Plain, Signer, MutSigner, SystemProgram]
    case UpdateMax(_, _, _, _, _) => [Plain, Mut, Plain, Signer]
  }

  /** Where an instruction finds the key of its signer, and of its payer if it has one. */
  function SignerAt(ix: Instruction): nat {
    if ix.CreateRegistrar? then 4 else if ix.CreateMax? || ix.UpdateMax? then 3 else 2
  }

  /** What is dispatched passed its account checks. */
  lemma DispatchedAccounts(tx: TransactionInstruction)
    requires Dispatch(tx).Ok?
    ensures CheckAccounts(tx.keys, RolesOf(Dispatch(tx).value)).Ok?
  {
    hide CheckAccounts, Argument, DecodeU16, DecodeI64, DecodeU64;
  }

  /** Its signers are the keys at those places. */
  lemma DispatchedSigners(tx: TransactionInstruction)
    requires Dispatch(tx).Ok? && |RolesOf(Dispatch(tx).value)| <= |tx.keys|
    ensures var ix := Dispatch(tx).value;
            var at := SignerAt(ix);
            SignersOf(ix) == if IsCreate(ix) then {tx.keys[at].pubkey, tx.keys[at + 1].pubkey}
                             else {tx.keys[at].pubkey}
  {
    hide CheckAccounts, Argument, DecodeU16, DecodeI64, DecodeU64;
  }

  /** Whatever is dispatched, every authority, voter and payer the handlers rely on has signed. */
  lemma DispatchedAreSigned(tx: TransactionInstruction, k: Pubkey)
    requires Dispatch(tx).Ok? && k in SignersOf(Dispatch(tx).value)
    ensures Signed(tx.keys, k)
  {
    hide Dispatch, SignersOf, CheckAccounts, Signed;
    DispatchedAccounts(tx);
    DispatchedSigners(tx);
    var ix := Dispatch(tx).value;
    RoleSigned(tx.keys, RolesOf(ix), SignerAt(ix));
    if IsCreate(ix) {
      RoleSigned(tx.keys, RolesOf(ix), SignerAt(ix) + 1);
    }
  }
}
