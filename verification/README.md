# Entros voter weight: a verified model

The Entros voter weight program gives a wallet a vote in a DAO when its Entros identity is trusted and recent enough.
This Dafny project models its eight instructions, the accounts they act on and the client that builds them, and proves
what holds over every run of them together with an environment that is as free as the runtime lets it be.

## Layers

- `Ledgers` is the program as a transition system over typed accounts. `Decide` says what an instruction would do or
  which error it returns, `Perform` carries the effect out, `Run` takes a sequence of events. The environment moves
  the clock, moves lamports, and turns any address not reserved to the plugin into any account; one owned by the
  plugin it can only create zero-filled.
- `Validator` is the program over byte buffers: a class whose handlers load an account through a cursor, change the
  record field by field and write it back in place over a fixed-size array. `Validator.Process` proves that it refines
  `Ledgers` over every run. `Bytes`, `Records`, `Buffers` and `Storage` are the formats beneath it.
- `Entrypoint`, `Client` and `Fixtures` are the way in: dispatch, instruction builders and the IdentityState writer.
- `Transactions` puts these together: raw transactions in, buffers out. A theorem about typed runs becomes one about
  bytes by way of `Transactions.Process`; `Transactions.BuffersCountVoters` does so for the live weight.
- `Identity`, `Eligibility` and `Failures` say when an instruction succeeds, what it then does and how it fails.
  `Reachability`, `Provenance`, `OneVote`, `Batches`, `Lamports`, `Isolation`, `Solvency`, `Wallets` and `Coupling`
  hold the results about runs.
- `Layout`, `Wire` and `Acceptance` state the formats, the dispatcher and the eight instructions a second time, in bytes,
  positions, owners, lamports and the services of the runtime, and prove that these are what the layers above implement.
  `FirstVote` shows that a vote can be cast.

To verify: `dafny verify dfyconfig.toml`.

## Assumptions

- Derived addresses: `Runtime.pda` is an arbitrary function. Most results, including one account per key and the bound
  on live weight, need nothing more. `DistinctIdentities` and the isolation results assume `CollisionFree` for a finite
  set of keys; injectivity on all seeds would be false of 32-byte addresses. `Coupling` exhibits a runtime, a ledger and
  a set of keys that meet all assumptions.
- `Sound`: nobody but the plugin can turn an address derived from its id into an account, since only the program signs
  for it; every account costs a positive deposit; the realm reader refuses empty accounts and accounts of this plugin;
  the kind check compares discriminators.
- The realm reader of spl-governance is an arbitrary function of the governance program, the owner and data of the realm
  account, and the mint. It answers with a refusal or an optional authority.
- Kind check: `Runtime.admits` decides whether an account's bytes may be decoded as a given type, and `ComparesKinds`, a
  clause of `Sound`, says that it compares the first eight bytes with the type's discriminator. For the two wrapped
  records this is an assumption about the framework, since `programs/entros-voter-weight/src/governance.rs:26-33`
  defines only the unchecked decoder. `Validator.LoadRegistrar`, `LoadVoter` and `LoadMax` use it to refine the typed
  loads, which have it built in. So every result about runs rests on it as a statement about bytes, and the fixed keys
  do so in an essential way (`KeyNeverChanges`, `AddressBinding`, `OneAccountPerKey`, `OnlyTheRightfulClose`,
  `WeightProvenance`, `LiveWeightCountsVoters`): `Records.MaxRewriteChangesOwner` shows how, without it, setting a
  maximum would rewrite the owner of a voter record, and `Records.VoterBufferCanPassForMax` that lengths cannot stand in.
- `init` works on an address that the system program owns and that has no data, prefunded or not, and fails on any other;
  its payer is a plain wallet other than the new account. `close` runs after the handler, moves all lamports to a
  different account and frees the address. A failing instruction is rolled back.
- Discriminators are the first eight bytes of SHA-256 of `account:` or `global:` followed by the name.
- A record is live at a slot when its expiry is absent or not below that slot; the consumer is another program.

## Where the code and its text differ

The comment at `tests/entros-voter-weight.ts:249-259` says that timestamps in the future are rejected. The subtraction
there does not overflow, the age is negative, and the program accepts: `Identity.FutureTimestamps`.

Isolation between DAOs holds up to one thing: a wallet that pays for accounts of several DAOs can run out of lamports.
`Isolation.IsolatedIffFundedAlike` gives the exact condition, by the guard that fails: whether the payer of a creation
covers the deposit, in the run with the others and in the run without. `Solvency.SolventPayersIsolate` gives a condition
that a DAO can see to beforehand and that asks nothing of anybody else: its payers start with at least what they sign
away. `Coupling.SharedPayerCouplesDaos` is a run in which isolation fails, `Coupling.SolventPayerIsolates` one in which a
solvent payer restores it. `Wallets.SeparateWalletsIsolate` keeps even the balances, but under a condition on the events
of others as well.

## Model

| member | source | states |
|---|---|---|
| `Records.VoterRoundTrip` | programs/entros-voter-weight/src/governance.rs:26-41 | Decoding the encoding of any voter record, followed by any bytes, gives that record and leaves those bytes. |
| `Records.VoterCanonical` | programs/entros-voter-weight/src/governance.rs:26-33 | Nothing but an encoding decodes: what the decoder accepts is the encoding of its result followed by the rest. |
| `Records.MaxRoundTrip` | programs/entros-voter-weight/src/governance.rs:97-112 | The same round trip for max records. |
| `Records.MaxCanonical` | programs/entros-voter-weight/src/governance.rs:97-104 | The same canonicity for max records. |
| `Records.RegistrarRoundTrip` | programs/entros-voter-weight/src/state/registrar.rs:3-28 | The same round trip for the registrar's fixed 178-byte layout, over all u16 scores and i64 ages. |
| `Records.VoterSize` | programs/entros-voter-weight/src/governance.rs:13-23 | 164 is reached exactly when every option is present; 123 is the least, reached exactly when none is. |
| `Records.MaxSize` | programs/entros-voter-weight/src/governance.rs:87-94 | The encoding has 97 bytes with an expiry and 89 without. |
| `Records.VoterSurvivesStaleTail` | programs/entros-voter-weight/src/governance.rs:26-41 | Any record written over any 164 earlier bytes fits and is read back exactly, whatever tail remains. |
| `Records.MaxSurvivesStaleTail` | programs/entros-voter-weight/src/governance.rs:97-112 | The same for any max record over any 97 earlier bytes, in particular when the encoding shrinks. |
| `Records.MaxBufferIsNoVoter` | programs/entros-voter-weight/src/governance.rs:26-33 | No 97-byte buffer decodes as a voter record: length alone rules out that confusion. |
| `Records.VoterBufferCanPassForMax` | programs/entros-voter-weight/src/governance.rs:97-104 | Length does not rule out the converse: a stored voter record also decodes as a max record exactly when the ninth byte of its owner is 0 or 1, so loading has to look at the kind. |
| `Records.VoterParsesAsMax` | programs/entros-voter-weight/src/governance.rs:97-104 | When it does, the max record it parses as has the owner's bytes for its maximum, expiry and reserved bytes. |
| `Records.MaxRewriteChangesOwner` | programs/entros-voter-weight/src/instructions/update_max_voter_weight_record.rs:60-65 | What would go wrong without the kind check: setting the maximum of a stored voter record that parses as a max record leaves the same voter record, every byte of it, except for another owner, whose first eight bytes are the new maximum. |
| `Bytes.IntegersRoundTrip` | programs/entros-voter-weight/src/instructions/update_voter_weight_record.rs:94-106 | Every u16, u64 and i64 survives encoding and decoding. |
| `Bytes.IntegersLittleEndian` | programs/entros-voter-weight/src/instructions/update_voter_weight_record.rs:94-106 | And the encodings are little endian and two's complement, spelled out byte by byte. |
| `Layout.VoterLayout` | programs/entros-voter-weight/src/governance.rs:13-41 | Every field of every encoded voter record by its position, numbers read byte by byte from the least significant: keys at 8, 40 and 72, weight at 104, expiry tag at 112 and expiry at 113, then action, target and reserved bytes at the places the options leave them, then whatever follows. |
| `Layout.MaxLayout` | tests/entros-voter-weight-integration.ts:785-793 | The same for max records: maximum at 72, expiry tag at 80, expiry at 81. |
| `Layout.RegistrarLayout` | tests/entros-voter-weight-integration.ts:195-197 | The same for registrars: discriminator, keys at 8, 40 and 72, score at 104, age limit at 106, reserved bytes to 178. |
| `Bytes.IntegersCanonical` | programs/entros-voter-weight/src/instructions/update_voter_weight_record.rs:94-106 | Every 2- or 8-byte string is the encoding of the integer it decodes to. |
| `Identity.ParsedPositionally` | programs/entros-voter-weight/src/instructions/update_voter_weight_record.rs:94-106 | The two fields read are the signed 64-bit value of bytes 48-55 and the unsigned value of bytes 60-61. |
| `Identity.RecencyExact` | programs/entros-voter-weight/src/instructions/update_voter_weight_record.rs:116-125 | For all i64 inputs the recency test accepts exactly when the true difference is at least the least i64 and below the limit; for a nonnegative clock it is the plain comparison. |
| `Identity.FutureTimestamps` | tests/entros-voter-weight.ts:249-259 | Against that comment: a future timestamp is accepted exactly when the subtraction does not overflow, hence always under a nonnegative clock. |
| `Identity.VerdictExact` | programs/entros-voter-weight/src/instructions/update_voter_weight_record.rs:78-125 | The data checks pass exactly on eligible data, and otherwise name the first missing requirement. |
| `Identity.VerdictReadsOnly` | programs/entros-voter-weight/src/instructions/update_voter_weight_record.rs:78-106 | The verdict depends on the data only through the length test and bytes 0-7, 48-55 and 60-61. |
| `Addresses.SeedBytesInjective` | programs/entros-voter-weight/src/instructions/create_voter_weight_record.rs:15-26 | The concatenated seeds of the registrar, voter, max and identity families are pairwise disjoint and determine every component. |
| `Addresses.AddressesDiffer` | programs/entros-voter-weight/src/instructions/create_max_voter_weight_record.rs:15-26 | Where the derivation does not collide on the keys in play, different seed keys have different addresses. |
| `Acceptance.CreateRegistrarAccepted` | programs/entros-voter-weight/src/instructions/create_registrar.rs:7-71 | Accepted exactly when: the account is derived from "registrar", realm and mint under this program and can be opened with 178 bytes; the governance program is executable and owns the realm; the age limit is positive; and the realm reader, asked with that program, the realm account's owner and bytes and the mint, names the signing authority. |
| `Acceptance.UpdateRegistrarAccepted` | programs/entros-voter-weight/src/instructions/update_registrar.rs:7-52 | Accepted exactly when the registrar is this program's at its derived address, the realm is its realm, the age limit is positive, and the reader, asked with the registrar's program and mint, names the authority. |
| `Acceptance.CloseRegistrarAccepted` | programs/entros-voter-weight/src/instructions/close_registrar.rs:7-48 | The same for closing, to another account. |
| `Acceptance.CreateVoterAccepted` | programs/entros-voter-weight/src/instructions/create_voter_weight_record.rs:6-53 | Accepted exactly when the record is derived from the registrar's realm and mint and the argument's wallet, that wallet is the signer, and the account can be opened with 164 bytes. |
| `Acceptance.UpdateVoterAccepted` | programs/entros-voter-weight/src/instructions/update_voter_weight_record.rs:24-125 | Accepted exactly when registrar and record match, the record's owner signs, and the identity is the account that Entros owns at the address derived from "identity" and the voter under Entros' own id, with the discriminator, a score at 60 of at least the minimum and a timestamp at 48 less than the limit ago. |
| `Acceptance.CloseVoterAccepted` | programs/entros-voter-weight/src/instructions/close_voter_weight_record.rs:6-40 | Accepted exactly when registrar and record match, the record's owner signs and the destination is another account. |
| `Acceptance.CreateMaxAccepted` | programs/entros-voter-weight/src/instructions/create_max_voter_weight_record.rs:6-60 | Accepted exactly when the record is derived from the registrar's realm and mint and can be opened with 97 bytes, and the reader, asked with the registrar's program and mint about its realm, names the authority. |
| `Acceptance.UpdateMaxAccepted` | programs/entros-voter-weight/src/instructions/update_max_voter_weight_record.rs:6-58 | Accepted exactly when registrar and max record match, the maximum is positive, and the reader names the authority in the same way. |
| `Acceptance.AcceptedBalances` | programs/entros-voter-weight/src/instructions/create_voter_weight_record.rs:15-26 | What an accepted instruction does to every account: a creation tops its account up to the deposit out of the payer, a closing moves everything to the destination, a change moves nothing, and no other account changes. |
| `Eligibility.UpdateSucceedsIff` | programs/entros-voter-weight/src/instructions/update_voter_weight_record.rs:24-138 | A refresh succeeds exactly when the registrar, the record, the signer and the identity account qualify, and then writes weight 1, the saturating expiry and no action. |
| `Eligibility.UpdateReadsOnly` | programs/entros-voter-weight/src/instructions/update_voter_weight_record.rs:78-106 | Two ledgers that differ in unread identity bytes only decide a refresh alike. |
| `Eligibility.SucceedsIffPermitted` | programs/entros-voter-weight/src/lib.rs:19-71 | Each of the eight instructions succeeds exactly under its permission, stated without the order of checks. |
| `Eligibility.AcceptedEffect` | programs/entros-voter-weight/src/lib.rs:19-71 | What each accepted instruction does, field by field: which account it writes, what every field of a created or changed record is and which fields keep their value, who pays the deposit of a creation for how much space, and who receives the lamports of a closing; and that this can be carried out. |
| `Failures.ErrorsAreJustified` | programs/entros-voter-weight/src/error.rs:3-46 | For each of the eight instructions, success exactly when all requirements are met, and otherwise the error of the first requirement, in the order of the checks, that is not met. |
| `Reachability.RunValid` | programs/entros-voter-weight/src/instructions/create_voter_weight_record.rs:45-69 | In every ledger reached from a genesis, every account is valid: at its derived address, funded, with weight, expiry, maximum and thresholds in their permitted forms. |
| `Reachability.AddressBinding` | programs/entros-voter-weight/src/instructions/create_voter_weight_record.rs:15-26 | Every typed account sits at the address derived from its own stored fields, although update and close never check the record's address. |
| `Reachability.OneAccountPerKey` | programs/entros-voter-weight/src/instructions/create_voter_weight_record.rs:15-26 | So there is at most one registrar and one max record per realm and mint, and one record per voter; no collision assumption is used. |
| `Reachability.KeyNeverChanges` | programs/entros-voter-weight/src/instructions/update_voter_weight_record.rs:46-138 | No step changes realm, mint, owner or governance program of a live account; it can only remove the account. |
| `Reachability.OnlyTheRightfulClose` | programs/entros-voter-weight/src/instructions/close_voter_weight_record.rs:32-40 | An account disappears only by its owner's, or its realm authority's, successful close; a max record never does. |
| `Reachability.BirthStep` | programs/entros-voter-weight/src/instructions/create_registrar.rs:7-16 | Only a successful create instruction puts an account of the plugin's where there was none. |
| `Provenance.HeldSinceLatestWrite` | programs/entros-voter-weight/src/lib.rs:19-71 | Over any run, what an account holds is what the last successful instruction targeting it left. |
| `Provenance.WeightProvenance` | programs/entros-voter-weight/src/instructions/update_voter_weight_record.rs:110-135 | Every voter record is (0, Some(0)) from its owner-signed creation or (1, Some(min(s + 100, u64 max))) from its latest refresh at slot s, signed by its owner with an identity that qualified then. |
| `Provenance.RegistrarProvenance` | programs/entros-voter-weight/src/instructions/create_registrar.rs:38-81 | A registrar's thresholds are the arguments of its latest create or update, signed by the realm authority of that moment; the age limit is positive. |
| `Provenance.RegistrarBirth` | programs/entros-voter-weight/src/instructions/create_registrar.rs:7-36 | Every registrar was created for a realm that its executable governance program owned then, signed by the authority, and has kept program, realm and mint since. |
| `Provenance.EveryAccountWasCreated` | programs/entros-voter-weight/src/instructions/create_voter_weight_record.rs:45-69 | Every account of the plugin was born by a create instruction and kept its fixed fields at every later point. |
| `Provenance.MaxProvenance` | programs/entros-voter-weight/src/instructions/update_max_voter_weight_record.rs:30-65 | A max record is as created, or holds without expiry the maximum that the realm authority last set. |
| `Provenance.MaxRecordPersists` | programs/entros-voter-weight/src/instructions/create_max_voter_weight_record.rs:41-68 | Once created, a max record survives every later event with fixed realm and mint and never returns from a positive maximum to the created form. |
| `OneVote.LiveWeightCountsVoters` | programs/entros-voter-weight/src/instructions/update_voter_weight_record.rs:127-131 | In every reachable ledger the live weight of a realm and mint equals the number of wallets whose refresh within the last 100 slots still stands, hence is at most the number of wallets that refreshed in that window. |
| `OneVote.DistinctIdentities` | programs/entros-voter-weight/src/instructions/update_voter_weight_record.rs:70-76 | Two live weight-1 records of one realm and mint rest on different identity accounts, each of which qualified at the refresh. |
| `OneVote.ConfigurationConverges` | programs/entros-voter-weight/src/instructions/update_registrar.rs:53-55 | More than 100 slots after any point, the latest write behind every live weight is a refresh made after it, under the thresholds in force at that refresh. |
| `OneVote.NoRegistrarNoWeight` | programs/entros-voter-weight/src/instructions/close_registrar.rs:29-48 | If the registrar stays absent for more than 100 slots, no live weight is left for its realm and mint. |
| `FirstVote.VoteIsCast` | programs/entros-voter-weight/src/instructions/update_voter_weight_record.rs:46-138 | From any genesis with a realm set up and a payer with two deposits: Entros writing the identity account at the address derived under its own id, creating the registrar, creating the record and refreshing leave the realm and mint a live weight of exactly one. |
| `FirstVote.VotesCanBeCast` | tests/entros-voter-weight-integration.ts:174-275 | Under every sound runtime whose reader accepts some realm and in which the involved addresses are free and distinct, such a genesis exists, so live weights are not always zero. |
| `OneVote.EligibleVoterGetsVote` | programs/entros-voter-weight/src/instructions/update_voter_weight_record.rs:127-131 | From any ledger, a voter who may create a record and has a qualifying identity ends with weight 1 after creating and refreshing, live for exactly 100 slots. |
| `Batches.BatchIsSimultaneous` | programs/entros-voter-weight/src/instructions/update_voter_weight_record.rs:46-138 | A batch of refreshes at one clock reading ends where making the eligible ones at once would. |
| `Batches.BatchVerdicts` | programs/entros-voter-weight/src/instructions/update_voter_weight_record.rs:46-138 | Each refresh of a batch gets, at its position, the verdict and error it would get at the start. |
| `Batches.OrderIndependence` | programs/entros-voter-weight/src/instructions/update_voter_weight_record.rs:46-138 | Two batches with the same refreshes, in any order and with any repetitions, end in the same ledger. |
| `Batches.FailuresLeaveNoTrace` | programs/entros-voter-weight/src/instructions/update_voter_weight_record.rs:110-135 | Leaving the rejected events out of any run ends in the same ledger and rejects nothing; so an ineligible refresh never lowers or extends a weight. |
| `Lamports.EffectConserves` | programs/entros-voter-weight/src/instructions/close_voter_weight_record.rs:14-30 | Initializing, rewriting and closing conserve the total of lamports for every permitted coincidence of payer, signer and destination. |
| `Lamports.RunConserves` | programs/entros-voter-weight/src/lib.rs:19-71 | No run changes the total of lamports. |
| `Lamports.CreateThenCloseVoter` | programs/entros-voter-weight/src/instructions/close_voter_weight_record.rs:12-40 | Closing a record just created, to its payer, succeeds and restores the ledger: the deposit and any prefunding are back, the address is vacant. |
| `Lamports.CreateThenCloseRegistrar` | programs/entros-voter-weight/src/instructions/close_registrar.rs:7-48 | The same for a registrar. |
| `Isolation.IsolatedIffFundedAlike` | programs/entros-voter-weight/src/instructions/update_voter_weight_record.rs:26-39 | Dropping the instructions for other registrars leaves a realm and mint the same view at every point of the run, if and only if no creation of its own that passes every other check has a payer who covers the deposit in one of the two runs only. |
| `Isolation.IsolationOfAccounts` | programs/entros-voter-weight/src/instructions/update_voter_weight_record.rs:26-39 | Under that condition the pair's registrar, voter records and max record are the same accounts with the same contents. |
| `Solvency.SolventPayersIsolate` | programs/entros-voter-weight/src/instructions/create_voter_weight_record.rs:15-26 | A condition the DAO can see to beforehand: if every creation of the pair is charged to a plain wallet that is not turned into another kind of account, which takes its own signature, and that starts with at least the deposits and transfers it signs over the run, then no creation is short in either run, and at every point the pair's view is that of the run without the others. Nothing is asked of anybody else's events. |
| `Solvency.SolventPayersKeepAccounts` | programs/entros-voter-weight/src/instructions/update_voter_weight_record.rs:26-39 | So such a DAO has the same registrar, voter records and max record, with the same contents, as if the other DAOs had never called the program. |
| `Solvency.WalletKeeps` | programs/entros-voter-weight/src/instructions/create_voter_weight_record.rs:15-26 | Over any run that does not turn it into another kind of account, a plain wallet stays one and loses at most the deposits and transfers it signs, whatever else happens. |
| `Wallets.SeparateWalletsIsolate` | programs/entros-voter-weight/src/instructions/create_voter_weight_record.rs:15-26 | Another sufficient condition, which the others have to keep too, for payers solvent or not: if the pair's instructions write and charge only accounts of some set, instructions for other registrars name none of that set, and transfers into it come from it, then at every point both the pair's view and every account of the set, balances included, are those of the run without the others. |
| `Wallets.SeparateWalletsKeepAccounts` | programs/entros-voter-weight/src/instructions/update_voter_weight_record.rs:26-39 | Under that condition the pair's accounts have the same contents at the end of the run, and the accounts of the set are the same, balances included. |
| `Isolation.DecideIgnoresBalances` | programs/entros-voter-weight/src/instructions/create_voter_weight_record.rs:15-26 | Balances affect an instruction only through the payer's ability to cover the deposit. |
| `Isolation.SuccessSplit` | programs/entros-voter-weight/src/instructions/create_voter_weight_record.rs:15-26 | An instruction succeeds exactly when it would with the deposit already in place and the payer can cover it. |
| `Coupling.SpentPayerCouples` | programs/entros-voter-weight/src/instructions/create_registrar.rs:9-15 | At any point of any run where the view is still exact: if the pair's next creation succeeds without the other registrars' instructions and with them its payer cannot cover the deposit, the view is no longer exact after it. |
| `Coupling.SharedPayerCouplesDaos` | programs/entros-voter-weight/src/instructions/create_registrar.rs:9-15 | A concrete run of two DAOs with one payer shows that isolation is not unconditional: every other assumption of the theorem holds, isolation fails, and no set of wallets keeps the two apart. |
| `Coupling.SolventPayerIsolates` | programs/entros-voter-weight/src/instructions/create_registrar.rs:9-15 | The same two creations with a funded second payer meet the condition of solvent payers; the second DAO is isolated, and its registrar is created in the full run. |
| `Storage.StoredVoter` | programs/entros-voter-weight/src/governance.rs:35-41 | A voter record written in place over any buffer of its size is what the typed reading of the buffer then is. |
| `Storage.StoredMax` | programs/entros-voter-weight/src/governance.rs:106-112 | The same for a max record. |
| `Storage.StoredRegistrar` | programs/entros-voter-weight/src/state/registrar.rs:19-27 | The same for a registrar, which fills its buffer exactly. |
| `Storage.FreshVoter` | programs/entros-voter-weight/src/instructions/create_voter_weight_record.rs:15-27 | The buffer that allocation leaves decodes to the all-zero record on which the create handler makes its assignments. |
| `Storage.FreshMax` | programs/entros-voter-weight/src/instructions/create_max_voter_weight_record.rs:15-26 | The same for a max record. |
| `Buffers.DeserializeVoter` | programs/entros-voter-weight/src/governance.rs:26-33 | Reading the buffer through an advancing cursor gives what the decoder of the format gives, with the same failures. |
| `Buffers.DeserializeMax` | programs/entros-voter-weight/src/governance.rs:97-104 | The same for max records. |
| `Buffers.DeserializeRegistrar` | programs/entros-voter-weight/src/state/registrar.rs:3-17 | The same for registrars. |
| `Buffers.SerializeVoter` | programs/entros-voter-weight/src/governance.rs:35-41 | Writing in place puts exactly the encoding at the front and keeps every byte behind it. |
| `Buffers.SerializeMax` | programs/entros-voter-weight/src/governance.rs:106-112 | The same for max records. |
| `Buffers.SerializeRegistrar` | programs/entros-voter-weight/src/state/registrar.rs:3-28 | Writing a registrar overwrites all 178 bytes with its encoding. |
| `Validator.CheckIdentityBuffer` | programs/entros-voter-weight/src/instructions/update_voter_weight_record.rs:78-125 | The raw read at fixed offsets stays in bounds and gives the verdict of the data checks. |
| `Validator.Validator.InstallAll` | programs/entros-voter-weight/src/lib.rs:15-72 | The buffers of any genesis can be built: decoded, they are that genesis, and no two accounts share a buffer. |
| `Validator.Validator.Allocate` | programs/entros-voter-weight/src/instructions/create_voter_weight_record.rs:15-27 | `init` on buffers: the payer tops the address up to its deposit and it gets a zero-filled, plugin-owned buffer; nothing else changes. |
| `Validator.Validator.Deallocate` | programs/entros-voter-weight/src/instructions/close_voter_weight_record.rs:14-22 | `close` on buffers: the destination receives all lamports and the address is free again; nothing else changes. |
| `Validator.Validator.LoadVoter` | programs/entros-voter-weight/src/instructions/update_voter_weight_record.rs:32-39 | Loading from the buffer gives the typed record exactly when owner and kind match. |
| `Validator.Validator.CreateRegistrar` | programs/entros-voter-weight/src/instructions/create_registrar.rs:38-81 | On byte buffers: same answer and, decoded, same ledger as the typed system; a failure changes no account and no byte. |
| `Validator.Validator.UpdateRegistrar` | programs/entros-voter-weight/src/instructions/update_registrar.rs:24-58 | The same for changing the thresholds in place. |
| `Validator.Validator.CloseRegistrar` | programs/entros-voter-weight/src/instructions/close_registrar.rs:29-48 | The same for closing a registrar. |
| `Validator.Validator.CreateVoter` | programs/entros-voter-weight/src/instructions/create_voter_weight_record.rs:45-69 | The same for allocating a record and assigning its fields. |
| `Validator.Validator.UpdateVoter` | programs/entros-voter-weight/src/instructions/update_voter_weight_record.rs:46-138 | The same for the refresh: load, check, read the identity bytes, assign, write back in place. |
| `Validator.Validator.CloseVoter` | programs/entros-voter-weight/src/instructions/close_voter_weight_record.rs:32-40 | The same for closing a record. |
| `Validator.Validator.CreateMax` | programs/entros-voter-weight/src/instructions/create_max_voter_weight_record.rs:41-68 | The same for allocating a max record. |
| `Validator.Validator.UpdateMax` | programs/entros-voter-weight/src/instructions/update_max_voter_weight_record.rs:30-65 | The same for setting the maximum, whose encoding shrinks within the buffer. |
| `Validator.Validator.Submit` | programs/entros-voter-weight/src/lib.rs:15-72 | A raw transaction instruction is dispatched and executed as the typed system executes the instruction it stands for. |
| `Validator.Validator.Process` | programs/entros-voter-weight/src/lib.rs:15-72 | The byte ledger refines the typed one over every run: decoding the buffers afterwards gives the typed run's ledger, and every event got the same answer down to the error. |
| `Transactions.Process` | programs/entros-voter-weight/src/lib.rs:15-72 | The same for runs of raw transactions, refused ones included, and moves of the environment: buffers and answers are those of the typed run the transactions stand for, and, starting from a genesis, the live weight read from the buffers equals the number of standing voters of every realm and mint. |
| `Transactions.BuffersCountVoters` | programs/entros-voter-weight/src/instructions/update_voter_weight_record.rs:127-131 | That count in the bytes, and every wallet counted signed a raw transaction with its refresh. |
| `Transactions.InstructionsAreSubmitted` | programs/entros-voter-weight/src/lib.rs:15-72 | Every instruction of the typed run was submitted as a raw transaction signed by everyone whose signature it relies on. |
| `Transactions.BytesGiveWeight` | tests/entros-voter-weight-integration.ts:246-255 | Reading owner, discriminator, realm, mint, weight and expiry at fixed offsets of any account's bytes gives the live weight of the typed account. |
| `Entrypoint.DispatchedAreSigned` | programs/entros-voter-weight/src/instructions/create_voter_weight_record.rs:37-40 | Every authority, voter and payer a dispatched instruction relies on has signed the transaction. |
| `Wire.DispatchedExactly` | programs/entros-voter-weight/src/lib.rs:15-72 | A transaction is dispatched as an instruction exactly when it is for this program, its first eight bytes name the entry point, every field of the instruction is the account or the argument bytes at its position, the identity is the first account behind the named ones or none, and each account has the flags demanded of it, whatever further flags it has. |
| `Wire.RefusedExactly` | programs/entros-voter-weight/src/lib.rs:15-72 | And it is refused with an error exactly when that names what is wrong first: program, entry point, arguments, then the first account that is missing or lacks a signature, writability or the system program's id. |
| `Client.BuildCreateRegistrarInstruction` | tests/helpers.ts:115-158 | For all arguments in range, exactly the program id, the seven keys with their two flags each, and 18 bytes: discriminator, little-endian score, two's complement age; others are a RangeError. The account is derived as stated, and it dispatches to the intended instruction. |
| `Client.BuildUpdateRegistrarInstruction` | tests/helpers.ts:160-182 | The same for updating a registrar, with three keys. |
| `Client.BuildCreateVoterWeightRecordInstruction` | tests/helpers.ts:184-230 | The same for creating a voter record: five keys, discriminator and voter key; owner argument and signer are the voter. |
| `Client.BuildUpdateVoterWeightRecordInstruction` | tests/helpers.ts:232-250 | The same for the refresh: four keys, of which the voter alone signs and the record alone is writable, and the bare discriminator. |
| `Client.BuildCloseVoterWeightRecordInstruction` | tests/helpers.ts:252-270 | The same for closing a voter record. |
| `Client.BuildCloseRegistrarInstruction` | tests/helpers.ts:272-290 | The same for closing a registrar. |
| `Client.BuildCreateMaxVoterWeightRecordInstruction` | tests/helpers.ts:292-329 | The same for creating a max record, with six keys. |
| `Client.BuildUpdateMaxVoterWeightRecordInstruction` | tests/helpers.ts:331-353 | The same for setting the maximum: for every u64, and no other number, it stands little endian at 8 in 16 bytes. |
| `Client.RefreshTakesIdentityPda` | scripts/generate-test-fixtures.ts:139-144 | Every accepted refresh names the account at which the fixtures put the voter's identity. |
| `Fixtures.BuildIdentityStateData` | scripts/generate-test-fixtures.ts:62-97 | The step-by-step writer succeeds exactly on writable arguments and leaves the stated layout. |
| `Fixtures.FieldsInPlace` | scripts/generate-test-fixtures.ts:68-96 | The fields are disjoint, at the offsets the program reads, and everything else is zero. |
| `Fixtures.FieldsAsNumbers` | scripts/generate-test-fixtures.ts:78-95 | The numbers among the fields, read byte by byte: both timestamps in two's complement, the count and the score little endian. |
| `Fixtures.BuildThenParse` | scripts/generate-test-fixtures.ts:62-97 | Parsing what was built gives back exactly the score and the timestamp; the account passes exactly when these qualify, and never with another discriminator. |

## Left out

- Failures.ErrorsAreJustified: the errors of the framework's own checks are one per kind, and their order among themselves (load, `seeds`, `init`, `constraint`) is a choice of the model; the handlers' own errors come in the order of the program text, after them.
- Ledgers.Step: a transaction is one instruction; several instructions in one transaction are a run whose rollback as a whole is not modelled.
- Storage.Classify: an account whose first eight bytes match but whose rest does not decode has no type here; the program would report a different error for it, and no reachable ledger holds one.
- Records.TakeVoter: a weight action is an opaque one-byte tag; which tags the enumeration has is defined outside this repository, and the program only ever writes none.
- Fixtures.BuildIdentityStateData: JavaScript numbers are exact integers here; fractions and values beyond 2^53 are not part of this model.
- Validator.Validator.CreateRegistrar: allocation is carried out after the remaining checks instead of before them, with the same answers, so that the rollback of a failing instruction needs no copy of the ledger.
- Rent formulas, transaction fees, compute limits and the bound of lamports to 64 bits: an arbitrary positive deposit per size stands for rent.
- SHA-256, base58, curve checks and the search for bump seeds.
- `buildCreateRealmInstruction`: it encodes for the governance program, whose decoder is not part of this model.
- Reading and writing of fixture files, the localnet and devnet scripts, argument parsing and the IDL feature.
- A relation between live weight and `max_voter_weight`: the administrator sets the maximum freely, so there is none.
- Plugin chaining and the Realms client, which are planned only.
