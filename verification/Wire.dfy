/** The wire format of the eight instructions, as a table, and what the dispatcher makes of any transaction. */
module Wire {
  import opened Prelude
  import opened Bytes
  import opened Addresses
  import opened Ledgers
  import opened Entrypoint

  /** Bytes of arguments, number of accounts, and the positions that sign, that are writable, that are a program. */
  datatype Entry = Entry(arguments: nat, accounts: nat, signers: set<nat>, writable: set<nat>, system: set<nat>)

  function EntryOf(d: seq<byte>): Option<Entry> {
    if d == [132, 235, 36, 49, 139, 66, 202, 69] then Some(Entry(10, 7, {4, 5}, {0, 5}, {6}))
    else if d == [116, 34, 168, 129, 238, 12, 90, 56] then Some(Entry(10, 3, {2}, {0}, {}))
    else if d == [145, 32, 238, 142, 247, 227, 50, 211] then Some(Entry(0, 4, {2}, {0, 3}, {}))
    else if d == [184, 249, 133, 178, 88, 152, 250, 186] then Some(Entry(32, 5, {2, 3}, {1, 3}, {4}))
    else if d == [45, 185, 3, 36, 109, 190, 115, 169] then Some(Entry(0, 3, {2}, {1}, {}))
    else if d == [123, 160, 235, 63, 195, 243, 225, 129] then Some(Entry(0, 4, {2}, {1, 3}, {}))
    else if d == [182, 70, 243, 119, 162, 176, 38, 248] then Some(Entry(0, 6, {3, 4}, {1, 4}, {5}))
    else if d == [103, 175, 201, 251, 2, 9, 251, 179] then Some(Entry(8, 4, {3}, {1}, {}))
    else None
  }

  /** Account `i` is there and has the flags demanded of it; further flags do no harm. */
  predicate Meets(e: Entry, keys: seq<AccountMeta>, i: nat) {
    && i < |keys|
    && (i in e.signers ==> keys[i].isSigner)
    && (i in e.writable ==> keys[i].isWritable)
    && (i in e.system ==> keys[i].pubkey == SYSTEM_ID)
  }

  /** The transaction is for this program, names an entry point, and has its arguments and its accounts. */
  predicate WellFormed(tx: TransactionInstruction) {
    && tx.programId == PLUGIN_ID && |tx.data| >= 8 && EntryOf(tx.data[..8]).Some?
    && var e := EntryOf(tx.data[..8]).value;
    && |tx.data| >= 8 + e.arguments && forall i: nat :: i < e.accounts ==> Meets(e, tx.keys, i)
  }

  /** The instruction that a well-formed transaction stands for: every field, by its position. */
  predicate StandsFor(tx: TransactionInstruction, ix: Instruction)
    requires WellFormed(tx)
  {
    var d, k, data := tx.data[..8], tx.keys, tx.data;
    match ix
    case CreateRegistrar(registrar, program, realm, mint, authority, payer, score, age) =>
      && d == [132, 235, 36, 49, 139, 66, 202, 69] && |k| >= 7
      && k[0].pubkey == registrar && k[1].pubkey == program && k[2].pubkey == realm && k[3].pubkey == mint
      && k[4].pubkey == authority && k[5].pubkey == payer
      && score == HalfWord(data, 8) && age == SignedWord(data, 10)
    case UpdateRegistrar(registrar, realm, authority, score, age) =>
      && d == [116, 34, 168, 129, 238, 12, 90, 56] && |k| >= 3
      && k[0].pubkey == registrar && k[1].pubkey == realm && k[2].pubkey == authority
      && score == HalfWord(data, 8) && age == SignedWord(data, 10)
    case CloseRegistrar(registrar, realm, authority, destination) =>
      && d == [145, 32, 238, 142, 247, 227, 50, 211] && |k| >= 4
      && k[0].pubkey == registrar && k[1].pubkey == realm && k[2].pubkey == authority && k[3].pubkey == destination
    case CreateVoter(registrar, record, signer, payer, owner) =>
      && d == [184, 249, 133, 178, 88, 152, 250, 186] && |k| >= 5
      && k[0].pubkey == registrar && k[1].pubkey == record && k[2].pubkey == signer && k[3].pubkey == payer
      && owner == data[8..40]
    case UpdateVoter(registrar, record, voter, identity) =>
      && d == [45, 185, 3, 36, 109, 190, 115, 169] && |k| >= 3
      && k[0].pubkey == registrar && k[1].pubkey == record && k[2].pubkey == voter
      && identity == (if |k| > 3 then Some(k[3].pubkey) else None)
    case CloseVoter(registrar, record, voter, destination) =>
      && d == [123, 160, 235, 63, 195, 243, 225, 129] && |k| >= 4
      && k[0].pubkey == registrar && k[1].pubkey == record && k[2].pubkey == voter && k[3].pubkey == destination
    case CreateMax(registrar, record, realm, authority, payer) =>
      && d == [182, 70, 243, 119, 162, 176, 38, 248] && |k| >= 6
      && k[0].pubkey == registrar && k[1].pubkey == record && k[2].pubkey == realm && k[3].pubkey == authority
      && k[4].pubkey == payer
    case UpdateMax(registrar, record, realm, authority, weight) =>
      && d == [103, 175, 201, 251, 2, 9, 251, 179] && |k| >= 4
      && k[0].pubkey == registrar && k[1].pubkey == record && k[2].pubkey == realm && k[3].pubkey == authority
      && weight == Word(data, 8)
  }

  /** Why a transaction is refused: the first thing that is wrong, in the order program, name, arguments, accounts. */
  ghost predicate RefusedWith(tx: TransactionInstruction, error: Error) {
    if tx.programId != PLUGIN_ID then error == InvalidProgramId
    else if |tx.data| < 8 || EntryOf(tx.data[..8]).None? then error == InstructionFallbackNotFound
    else
      var e := EntryOf(tx.data[..8]).value;
      if |tx.data| < 8 + e.arguments then error == InstructionDidNotDeserialize
      else exists i: nat :: FirstToFail(e, tx.keys, i) && error == FaultOf(e, tx.keys, i)
  }

  predicate FirstToFail(e: Entry, keys: seq<AccountMeta>, i: nat) {
    i < e.accounts && !Meets(e, keys, i) && forall j: nat :: j < i ==> Meets(e, keys, j)
  }

  function FaultOf(e: Entry, keys: seq<AccountMeta>, i: nat): Error {
    if i >= |keys| then AccountNotEnoughKeys
    else if i in e.signers && !keys[i].isSigner then AccountNotSigner
    else if i in e.writable && !keys[i].isWritable then ConstraintMut
    else InvalidProgramId
  }

  // ---- the accounts ----

  /** The roles demand what the table says. */
  predicate Agree(e: Entry, roles: seq<Role>) {
    |roles| == e.accounts && forall i: nat :: i < |roles| ==>
      && (i in e.signers <==> roles[i].Signer? || roles[i].MutSigner?)
      && (i in e.writable <==> roles[i].Mut? || roles[i].MutSigner?)
      && (i in e.system <==> roles[i].SystemProgram?)
  }

  lemma RoleMeans(e: Entry, roles: seq<Role>, keys: seq<AccountMeta>, i: nat)
    requires Agree(e, roles) && i < |roles| && i < |keys|
    ensures CheckRole(keys[i], roles[i]).Ok? <==> Meets(e, keys, i)
    ensures CheckRole(keys[i], roles[i]).Err? ==> CheckRole(keys[i], roles[i]).error == FaultOf(e, keys, i)
  {
  }

  /** The account checks report the first account that does not meet its role. */
  lemma {:induction false} FirstFailure(keys: seq<AccountMeta>, roles: seq<Role>)
    requires CheckAccounts(keys, roles).Err?
    ensures exists i: nat :: FailsAt(keys, roles, i, CheckAccounts(keys, roles).error)
  {
    hide CheckRole;
    if keys == [] {
      assert FailsAt(keys, roles, 0, AccountNotEnoughKeys);
    } else if CheckRole(keys[0], roles[0]).Err? {
      assert FailsAt(keys, roles, 0, CheckRole(keys[0], roles[0]).error);
    } else {
      FirstFailure(keys[1..], roles[1..]);
      var error := CheckAccounts(keys, roles).error;
      var i: nat :| FailsAt(keys[1..], roles[1..], i, error);
      assert FailsAt(keys, roles, i + 1, error);
    }
  }

  predicate FailsAt(keys: seq<AccountMeta>, roles: seq<Role>, i: nat, error: Error) {
    && i < |roles| && i <= |keys| && (forall j: nat :: j < i ==> CheckRole(keys[j], roles[j]).Ok?)
    && (if i == |keys| then error == AccountNotEnoughKeys else CheckRole(keys[i], roles[i]) == Err(error))
  }

  lemma AccountsChecked(e: Entry, roles: seq<Role>, keys: seq<AccountMeta>)
    requires Agree(e, roles)
    ensures CheckAccounts(keys, roles).Ok? <==> forall i: nat :: i < e.accounts ==> Meets(e, keys, i)
    ensures CheckAccounts(keys, roles).Err? ==>
              exists i: nat :: FirstToFail(e, keys, i) && CheckAccounts(keys, roles).error == FaultOf(e, keys, i)
  {
    hide CheckRole, Agree, CheckAccounts;
    assert |roles| == e.accounts by { AgreeLength(e, roles); }
    forall i: nat | i < |roles| && i < |keys| ensures CheckRole(keys[i], roles[i]).Ok? <==> Meets(e, keys, i) {
      RoleMeans(e, roles, keys, i);
    }
    AccountsCheckedPointwise(keys, roles);
    if CheckAccounts(keys, roles).Err? {
      FirstFailure(keys, roles);
      var i: nat :| FailsAt(keys, roles, i, CheckAccounts(keys, roles).error);
      if i < |keys| { RoleMeans(e, roles, keys, i); }
      assert FirstToFail(e, keys, i);
    }
  }

  lemma AgreeLength(e: Entry, roles: seq<Role>)
    requires Agree(e, roles)
    ensures |roles| == e.accounts
  {
  }

  // ---- the arguments ----

  lemma NumbersRead(s: seq<byte>, at: nat)
    ensures at + 2 <= |s| ==> DecodeU16(s[at..at + 2]) == HalfWord(s, at)
    ensures at + 8 <= |s| ==> DecodeU64(s[at..at + 8]) == Word(s, at) && DecodeI64(s[at..at + 8]) == SignedWord(s, at)
  {
    if at + 2 <= |s| {
      DecodedPositionally(Zeros(8), s[at..at + 2]);
      HalfWordWithin(s, at);
    }
    if at + 8 <= |s| {
      DecodedPositionally(s[at..at + 8], [0, 0]);
      WordWithin(s, at);
    }
  }

  // ---- entry point by entry point ----

  /** The dispatcher's answer is the one the table gives. */
  ghost predicate Answers(tx: TransactionInstruction, r: Result<Instruction>) {
    match r
    case Ok(ix) => WellFormed(tx) && StandsFor(tx, ix)
    case Err(error) => !WellFormed(tx) && RefusedWith(tx, error)
  }

  predicate Selects(tx: TransactionInstruction, d: Bytes8) {
    tx.programId == PLUGIN_ID && |tx.data| >= 8 && tx.data[..8] == d
  }

  lemma CreateRegistrarAnswers(tx: TransactionInstruction)
    requires Selects(tx, CREATE_REGISTRAR)
    ensures Answers(tx, Dispatch(tx))
  {
    hide CheckAccounts, Meets, FirstToFail, FaultOf, DecodeU16, DecodeI64, DecodeU64, HalfWord, Word, SignedWord;
    DiscriminatorHeads();
    var roles := [Mut, Plain, Plain, Plain, Signer, MutSigner, SystemProgram];
    AccountsChecked(EntryOf(CREATE_REGISTRAR).value, roles, tx.keys);
    NumbersRead(tx.data, 8);
    NumbersRead(tx.data, 10);
  }

  lemma UpdateRegistrarAnswers(tx: TransactionInstruction)
    requires Selects(tx, UPDATE_REGISTRAR)
    ensures Answers(tx, Dispatch(tx))
  {
    hide CheckAccounts, Meets, FirstToFail, FaultOf, DecodeU16, DecodeI64, DecodeU64, HalfWord, Word, SignedWord;
    DiscriminatorHeads();
    var roles := [Mut, Plain, Signer];
    AccountsChecked(EntryOf(UPDATE_REGISTRAR).value, roles, tx.keys);
    NumbersRead(tx.data, 8);
    NumbersRead(tx.data, 10);
  }

  lemma CloseRegistrarAnswers(tx: TransactionInstruction)
    requires Selects(tx, CLOSE_REGISTRAR)
    ensures Answers(tx, Dispatch(tx))
  {
    hide CheckAccounts, Meets, FirstToFail, FaultOf, DecodeU16, DecodeI64, DecodeU64, HalfWord, Word, SignedWord;
    DiscriminatorHeads();
    var roles := [Mut, Plain, Signer, Mut];
    AccountsChecked(EntryOf(CLOSE_REGISTRAR).value, roles, tx.keys);
  }

  lemma CreateVoterAnswers(tx: TransactionInstruction)
    requires Selects(tx, CREATE_VOTER)
    ensures Answers(tx, Dispatch(tx))
  {
    hide CheckAccounts, Meets, FirstToFail, FaultOf, DecodeU16, DecodeI64, DecodeU64, HalfWord, Word, SignedWord;
    DiscriminatorHeads();
    var roles := [Plain, Mut, Signer, MutSigner, SystemProgram];
    AccountsChecked(EntryOf(CREATE_VOTER).value, roles, tx.keys);
  }

  lemma UpdateVoterAnswers(tx: TransactionInstruction)
    requires Selects(tx, UPDATE_VOTER)
    ensures Answers(tx, Dispatch(tx))
  {
    hide CheckAccounts, Meets, FirstToFail, FaultOf, DecodeU16, DecodeI64, DecodeU64, HalfWord, Word, SignedWord;
    DiscriminatorHeads();
    var roles := [Plain, Mut, Signer];
    AccountsChecked(EntryOf(UPDATE_VOTER).value, roles, tx.keys);
  }

  lemma CloseVoterAnswers(tx: TransactionInstruction)
    requires Selects(tx, CLOSE_VOTER)
    ensures Answers(tx, Dispatch(tx))
  {
    hide CheckAccounts, Meets, FirstToFail, FaultOf, DecodeU16, DecodeI64, DecodeU64, HalfWord, Word, SignedWord;
    DiscriminatorHeads();
    var roles := [Plain, Mut, Signer, Mut];
    AccountsChecked(EntryOf(CLOSE_VOTER).value, roles, tx.keys);
  }

  lemma CreateMaxAnswers(tx: TransactionInstruction)
    requires Selects(tx, CREATE_MAX)
    ensures Answers(tx, Dispatch(tx))
  {
    hide CheckAccounts, Meets, FirstToFail, FaultOf, DecodeU16, DecodeI64, DecodeU64, HalfWord, Word, SignedWord;
    DiscriminatorHeads();
    var roles := [Plain, Mut, Plain, Signer, MutSigner, SystemProgram];
    AccountsChecked(EntryOf(CREATE_MAX).value, roles, tx.keys);
  }

  lemma UpdateMaxAnswers(tx: TransactionInstruction)
    requires Selects(tx, UPDATE_MAX)
    ensures Answers(tx, Dispatch(tx))
  {
    hide CheckAccounts, Meets, FirstToFail, FaultOf, DecodeU16, DecodeI64, DecodeU64, HalfWord, Word, SignedWord;
    DiscriminatorHeads();
    var roles := [Plain, Mut, Plain, Signer];
    AccountsChecked(EntryOf(UPDATE_MAX).value, roles, tx.keys);
    NumbersRead(tx.data, 8);
  }

  /** Any transaction at all is answered as the table says. */
  lemma DispatchAnswers(tx: TransactionInstruction)
    ensures Answers(tx, Dispatch(tx))
  {
    if Selects(tx, CREATE_REGISTRAR) { CreateRegistrarAnswers(tx); }
    else if Selects(tx, UPDATE_REGISTRAR) { UpdateRegistrarAnswers(tx); }
    else if Selects(tx, CLOSE_REGISTRAR) { CloseRegistrarAnswers(tx); }
    else if Selects(tx, CREATE_VOTER) { CreateVoterAnswers(tx); }
    else if Selects(tx, UPDATE_VOTER) { UpdateVoterAnswers(tx); }
    else if Selects(tx, CLOSE_VOTER) { CloseVoterAnswers(tx); }
    else if Selects(tx, CREATE_MAX) { CreateMaxAnswers(tx); }
    else if Selects(tx, UPDATE_MAX) { UpdateMaxAnswers(tx); }
  }

  /** A transaction is dispatched as an instruction exactly when it is well formed and stands for that instruction. */
  lemma DispatchedExactly(tx: TransactionInstruction, ix: Instruction)
    ensures Dispatch(tx) == Ok(ix) <==> WellFormed(tx) && StandsFor(tx, ix)
  {
    hide Dispatch, WellFormed, StandsFor;
    DispatchAnswers(tx);
    if WellFormed(tx) && StandsFor(tx, ix) {
      StandsForOne(tx, ix, Dispatch(tx).value);
    }
  }

  lemma StandsForOne(tx: TransactionInstruction, ix: Instruction, other: Instruction)
    requires WellFormed(tx) && StandsFor(tx, ix) && StandsFor(tx, other)
    ensures ix == other
  {
    hide WellFormed, Word, HalfWord, SignedWord;
  }

  /** And it is refused with an error exactly when that is what is wrong with it first. */
  lemma RefusedExactly(tx: TransactionInstruction, error: Error)
    ensures Dispatch(tx) == Err(error) <==> !WellFormed(tx) && RefusedWith(tx, error)
  {
    hide Dispatch;
    DispatchAnswers(tx);
    if !WellFormed(tx) && RefusedWith(tx, error) {
      OneFault(tx, error, Dispatch(tx).error);
    }
  }

  lemma OneFault(tx: TransactionInstruction, a: Error, b: Error)
    requires !WellFormed(tx) && RefusedWith(tx, a) && RefusedWith(tx, b)
    ensures a == b
  {
    hide Meets, FaultOf, EntryOf, FirstToFail, WellFormed;
    if tx.programId == PLUGIN_ID && |tx.data| >= 8 && EntryOf(tx.data[..8]).Some? {
      var e := EntryOf(tx.data[..8]).value;
      if |tx.data| >= 8 + e.arguments {
        var i: nat :| FirstToFail(e, tx.keys, i) && a == FaultOf(e, tx.keys, i);
        var j: nat :| FirstToFail(e, tx.keys, j) && b == FaultOf(e, tx.keys, j);
        OneFirst(e, tx.keys, i, j);
      }
    }
  }

  lemma OneFirst(e: Entry, keys: seq<AccountMeta>, i: nat, j: nat)
    requires FirstToFail(e, keys, i) && FirstToFail(e, keys, j)
    ensures i == j
  {
    hide Meets;
  }
}
