/** Program ids, derived addresses and the services the plugin gets from the runtime and from other programs. */
module Addresses {
  import opened Prelude
  import opened Bytes

  const PLUGIN_ID: Pubkey := [
    0x79, 0x1e, 0x16, 0x31, 0x21, 0x19, 0xef, 0xce, 0x37, 0x4a, 0x1d, 0xa9, 0xdc, 0x8f, 0x23, 0x48,
    0xb2, 0x9a, 0x97, 0xe5, 0xe8, 0x0a, 0x63, 0x7d, 0x95, 0xfc, 0xe2, 0x2c, 0xb9, 0x3f, 0x84, 0x67]

  const ENTROS_ID: Pubkey := [
    0xe7, 0x36, 0x00, 0xda, 0x70, 0x7e, 0xbf, 0x19, 0x90, 0x7d, 0x32, 0xec, 0x88, 0x42, 0xa4, 0x5f,
    0xb4, 0xd5, 0x32, 0x63, 0xa1, 0x49, 0x68, 0x01, 0x6d, 0xb4, 0xe6, 0x29, 0x37, 0xe0, 0x93, 0xd1]

  const SYSTEM_ID: Pubkey := Zeros(32)

  lemma ProgramIdsDiffer()
    ensures PLUGIN_ID != ENTROS_ID && PLUGIN_ID != SYSTEM_ID && ENTROS_ID != SYSTEM_ID
  {
    assert PLUGIN_ID[0] == 0x79 && ENTROS_ID[0] == 0xe7 && SYSTEM_ID[0] == 0;
  }

  /** What a realm lookup answers: the realm's optional authority, or a refusal. */
  datatype RealmLookup = Found(authority: Option<Pubkey>) | Rejected

  /**
   * The services outside the plugin.
   * - pda: the address derived from a program id and the concatenated seeds.
   * - reserved: the addresses for which only the plugin can sign, hence that nobody else can turn into accounts.
   * - realmOf: the realm reader of spl-governance, given the governance program, the owner and the data of the realm
   *   account, and the governing token mint.
   * - rent: the deposit that an account of the given size needs.
   * - admits: the kind check made before an account's data is decoded as the type with the given discriminator.
   */
  datatype Runtime = Runtime(
    pda: (Pubkey, seq<byte>) -> Pubkey,
    reserved: Pubkey -> bool,
    realmOf: (Pubkey, Pubkey, seq<byte>, Pubkey) -> RealmLookup,
    rent: nat -> nat,
    admits: (Bytes8, seq<byte>) -> bool)

  /**
   * What the plugin relies on: derived addresses are reserved to it, every account costs a deposit, the realm
   * reader refuses empty accounts and the plugin's own accounts, and the kind check compares the first eight bytes.
   */
  ghost predicate Sound(rt: Runtime) {
    && (forall seeds :: rt.reserved(rt.pda(PLUGIN_ID, seeds)))
    && (forall space :: rt.rent(space) > 0)
    && (forall program, data, mint :: rt.realmOf(program, PLUGIN_ID, data, mint).Rejected?)
    && (forall program, owner, mint :: rt.realmOf(program, owner, [], mint).Rejected?)
    && ComparesKinds(rt)
  }

  /** The framework's check: the first eight bytes are the type's discriminator. */
  ghost predicate ComparesKinds(rt: Runtime) {
    forall kind, data :: rt.admits(kind, data) <==> |data| >= 8 && data[..8] == kind
  }

  // ---- seeds ----

  datatype SeedKey =
    | RegistrarSeeds(realm: Pubkey, mint: Pubkey)
    | VoterSeeds(realm: Pubkey, mint: Pubkey, owner: Pubkey)
    | MaxSeeds(realm: Pubkey, mint: Pubkey)
    | IdentitySeeds(wallet: Pubkey)

  function ProgramOf(k: SeedKey): Pubkey {
    if k.IdentitySeeds? then ENTROS_ID else PLUGIN_ID
  }

  function SeedBytes(k: SeedKey): seq<byte> {
    match k
    case RegistrarSeeds(realm, mint) => Ascii("registrar") + realm + mint
    case VoterSeeds(realm, mint, owner) => Ascii("voter-weight-record") + realm + mint + owner
    case MaxSeeds(realm, mint) => Ascii("max-voter-weight-record") + realm + mint
    case IdentitySeeds(wallet) => Ascii("identity") + wallet
  }

  function AddressOf(rt: Runtime, k: SeedKey): Pubkey {
    rt.pda(ProgramOf(k), SeedBytes(k))
  }

  /** The four families never share a concatenation, and within a family it determines every component. */
  lemma SeedBytesInjective(j: SeedKey, k: SeedKey)
    ensures SeedBytes(j) == SeedBytes(k) ==> j == k
  {
    hide SeedBytes;
    SeedParts(j);
    SeedParts(k);
  }

  /** The length of the seeds gives the family away, and every component has its place. */
  lemma SeedParts(k: SeedKey)
    ensures var s := SeedBytes(k);
            match k
            case RegistrarSeeds(realm, mint) => |s| == 73 && s[9..41] == realm && s[41..73] == mint
            case VoterSeeds(realm, mint, owner) =>
              |s| == 115 && s[19..51] == realm && s[51..83] == mint && s[83..115] == owner
            case MaxSeeds(realm, mint) => |s| == 87 && s[23..55] == realm && s[55..87] == mint
            case IdentitySeeds(wallet) => |s| == 40 && s[8..40] == wallet
  {
    hide Ascii;
    match k
    case RegistrarSeeds(realm, mint) => Pieces(Ascii("registrar"), realm, mint, []);
    case VoterSeeds(realm, mint, owner) => Pieces(Ascii("voter-weight-record"), realm, mint, owner);
    case MaxSeeds(realm, mint) => Pieces(Ascii("max-voter-weight-record"), realm, mint, []);
    case IdentitySeeds(wallet) => Pieces(Ascii("identity"), wallet, [], []);
  }

  lemma Pieces(prefix: seq<byte>, a: seq<byte>, b: seq<byte>, c: seq<byte>)
    ensures var s, n := prefix + a + b + c, |prefix|;
            && s[n..n + |a|] == a && s[n + |a|..n + |a| + |b|] == b && s[n + |a| + |b|..] == c
            && (c == [] ==> s == prefix + a + b) && (b == [] && c == [] ==> s == prefix + a)
  {
  }

  // ---- collision freedom, assumed of the hash only for keys that occur ----

  predicate Within(k: SeedKey, keys: set<Pubkey>) {
    match k
    case RegistrarSeeds(realm, mint) => realm in keys && mint in keys
    case VoterSeeds(realm, mint, owner) => realm in keys && mint in keys && owner in keys
    case MaxSeeds(realm, mint) => realm in keys && mint in keys
    case IdentitySeeds(wallet) => wallet in keys
  }

  /** No two different (program id, concatenated seeds) built from `keys` have the same address. */
  ghost predicate CollisionFree(rt: Runtime, keys: set<Pubkey>) {
    forall j, k :: Within(j, keys) && Within(k, keys) && AddressOf(rt, j) == AddressOf(rt, k) ==>
      ProgramOf(j) == ProgramOf(k) && SeedBytes(j) == SeedBytes(k)
  }

  lemma AddressesDiffer(rt: Runtime, keys: set<Pubkey>, j: SeedKey, k: SeedKey)
    requires CollisionFree(rt, keys) && Within(j, keys) && Within(k, keys)
    ensures AddressOf(rt, j) == AddressOf(rt, k) ==> j == k
  {
    SeedBytesInjective(j, k);
  }
}
