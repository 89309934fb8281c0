/** Account data as the program meets it: fixed-size byte buffers, read through a cursor and written in place. */
module Buffers {
  import opened Prelude
  import opened Bytes
  import opened Records

  /** A slice of a buffer that advances as it is read. */
  class Reader {
    const data: array<byte>
    var pos: nat
    ghost var rest: seq<byte>

    ghost predicate Valid()
      reads this, data
    {
      pos <= data.Length && rest == data[pos..]
    }

    constructor (data: array<byte>)
      ensures Valid() && this.data == data && rest == data[..]
    {
      this.data := data;
      pos, rest := 0, data[..];
    }

    method ReadBytes(n: nat) returns (r: Option<seq<byte>>)
      requires Valid()
      modifies this
      ensures Valid()
      ensures match Take(old(rest), n)
              case Parsed(v, tail) => r == Some(v) && rest == tail
              case Malformed => r == None && rest == old(rest)
    {
      if n > data.Length - pos {
        return None;
      }
      assert data[pos..][..n] == data[pos..pos + n];
      r := Some(data[pos..pos + n]);
      pos, rest := pos + n, rest[n..];
    }

    method ReadKey() returns (r: Option<Pubkey>)
      requires Valid()
      modifies this
      ensures Valid()
      ensures match TakeKey(old(rest))
              case Parsed(v, tail) => r == Some(v) && rest == tail
              case Malformed => r == None
    {
      var b := ReadBytes(32);
      r := if b.Some? then Some(b.value) else None;
    }

    method ReadBytes8() returns (r: Option<Bytes8>)
      requires Valid()
      modifies this
      ensures Valid()
      ensures match Take8(old(rest))
              case Parsed(v, tail) => r == Some(v) && rest == tail
              case Malformed => r == None
    {
      var b := ReadBytes(8);
      r := if b.Some? then Some(b.value) else None;
    }

    method ReadU64() returns (r: Option<u64>)
      requires Valid()
      modifies this
      ensures Valid()
      ensures match TakeU64(old(rest))
              case Parsed(v, tail) => r == Some(v) && rest == tail
              case Malformed => r == None
    {
      var b := ReadBytes(8);
      r := if b.Some? then Some(DecodeU64(b.value)) else None;
    }

    /** The tag of a Borsh option: any value but 0 and 1 is an error. */
    method ReadTag() returns (r: Option<bool>)
      requires Valid()
      modifies this
      ensures Valid()
      ensures match TakeTag(old(rest))
              case Parsed(v, tail) => r == Some(v) && rest == tail
              case Malformed => r == None
    {
      var b := ReadBytes(1);
      if b.None? || b.value[0] > 1 {
        return None;
      }
      r := Some(b.value[0] == 1);
    }

    method ReadOptionU64() returns (r: Option<Option<u64>>)
      requires Valid()
      modifies this
      ensures Valid()
      ensures match TakeOptionU64(old(rest))
              case Parsed(v, tail) => r == Some(v) && rest == tail
              case Malformed => r == None
    {
      var present := ReadTag();
      if present.None? {
        return None;
      } else if !present.value {
        return Some(None);
      }
      var x := ReadU64();
      r := if x.Some? then Some(Some(x.value)) else None;
    }

    method ReadOptionByte() returns (r: Option<Option<byte>>)
      requires Valid()
      modifies this
      ensures Valid()
      ensures match TakeOptionByte(old(rest))
              case Parsed(v, tail) => r == Some(v) && rest == tail
              case Malformed => r == None
    {
      var present := ReadTag();
      if present.None? {
        return None;
      } else if !present.value {
        return Some(None);
      }
      var x := ReadBytes(1);
      r := if x.Some? then Some(Some(x.value[0])) else None;
    }

    method ReadOptionKey() returns (r: Option<Option<Pubkey>>)
      requires Valid()
      modifies this
      ensures Valid()
      ensures match TakeOptionKey(old(rest))
              case Parsed(v, tail) => r == Some(v) && rest == tail
              case Malformed => r == None
    {
      var present := ReadTag();
      if present.None? {
        return None;
      } else if !present.value {
        return Some(None);
      }
      var x := ReadKey();
      r := if x.Some? then Some(Some(x.value)) else None;
    }
  }

  /** What a decoder answers: the record at the front of the buffer, if there is one. */
  function Decoded<T>(p: Parsed<T>): Option<T> {
    if p.Parsed? then Some(p.value) else None
  }

  method DeserializeVoter(data: array<byte>) returns (r: Option<VoterWeightRecord>)
    ensures r == Decoded(TakeVoter(data[..]))
  {
    hide Take, Take8, TakeKey, TakeU64, TakeOptionU64, TakeOptionByte, TakeOptionKey, Reader.Valid;
    var reader := new Reader(data);
    var discriminator := reader.ReadBytes8();
    if discriminator.None? { return None; }
    var realm := reader.ReadKey();
    if realm.None? { return None; }
    var mint := reader.ReadKey();
    if mint.None? { return None; }
    var owner := reader.ReadKey();
    if owner.None? { return None; }
    var weight := reader.ReadU64();
    if weight.None? { return None; }
    var expiry := reader.ReadOptionU64();
    if expiry.None? { return None; }
    var action := reader.ReadOptionByte();
    if action.None? { return None; }
    var target := reader.ReadOptionKey();
    if target.None? { return None; }
    var reserved := reader.ReadBytes8();
    if reserved.None? { return None; }
    r := Some(VoterWeightRecord(discriminator.value, realm.value, mint.value, owner.value, weight.value, expiry.value,
                                action.value, target.value, reserved.value));
  }

  method DeserializeMax(data: array<byte>) returns (r: Option<MaxVoterWeightRecord>)
    ensures r == Decoded(TakeMax(data[..]))
  {
    hide Take, Take8, TakeKey, TakeU64, TakeOptionU64, TakeOptionByte, TakeOptionKey, Reader.Valid;
    var reader := new Reader(data);
    var discriminator := reader.ReadBytes8();
    if discriminator.None? { return None; }
    var realm := reader.ReadKey();
    if realm.None? { return None; }
    var mint := reader.ReadKey();
    if mint.None? { return None; }
    var weight := reader.ReadU64();
    if weight.None? { return None; }
    var expiry := reader.ReadOptionU64();
    if expiry.None? { return None; }
    var reserved := reader.ReadBytes8();
    if reserved.None? { return None; }
    r := Some(MaxVoterWeightRecord(discriminator.value, realm.value, mint.value, weight.value, expiry.value,
                                   reserved.value));
  }

  method DeserializeRegistrar(data: array<byte>) returns (r: Option<Registrar>)
    ensures r == Decoded(TakeRegistrar(data[..]))
  {
    hide Take, Take8, TakeKey, TakeU64, TakeOptionU64, TakeOptionByte, TakeOptionKey, Reader.Valid;
    var reader := new Reader(data);
    var discriminator := reader.ReadBytes8();
    if discriminator.None? { return None; }
    var program := reader.ReadKey();
    if program.None? { return None; }
    var realm := reader.ReadKey();
    if realm.None? { return None; }
    var mint := reader.ReadKey();
    if mint.None? { return None; }
    var score := reader.ReadBytes(2);
    if score.None? { return None; }
    var age := reader.ReadBytes(8);
    if age.None? { return None; }
    var reserved := reader.ReadBytes(64);
    if reserved.None? { return None; }
    r := Some(Registrar(program.value, realm.value, mint.value, DecodeU16(score.value), DecodeI64(age.value),
                        reserved.value));
  }

  /**
   * A writer over a buffer: what is written goes to the front, what was there before stays behind it. The encoding to
   * be written is known to the proof from the start; `todo` is what is left of it.
   */
  class Writer {
    const data: array<byte>
    var pos: nat
    ghost const original: seq<byte>
    ghost const encoding: seq<byte>
    ghost var todo: seq<byte>

    ghost predicate Valid()
      reads this, data
    {
      && pos <= |encoding| <= data.Length == |original|
      && data[..pos] + todo == encoding
      && data[pos..] == original[pos..]
    }

    constructor (data: array<byte>, ghost encoding: seq<byte>)
      requires |encoding| <= data.Length
      ensures Valid() && this.data == data && original == data[..] && this.encoding == todo == encoding
    {
      this.data := data;
      this.original := data[..];
      this.encoding := encoding;
      todo := encoding;
      pos := 0;
    }

    method Write(bytes: seq<byte>, ghost rest: seq<byte>)
      requires Valid() && todo == bytes + rest
      modifies this, data
      ensures Valid() && todo == rest
    {
      forall i | 0 <= i < |bytes| {
        data[pos + i] := bytes[i];
      }
      assert data[..pos] == old(data[..pos]);
      assert data[..pos + |bytes|] == old(data[..pos]) + bytes;
      pos, todo := pos + |bytes|, rest;
    }

    method WriteOptionU64(o: Option<u64>, ghost rest: seq<byte>)
      requires Valid() && todo == PutOptionU64(o, rest)
      modifies this, data
      ensures Valid() && todo == rest
    {
      match o
      case None => Write([0], rest);
      case Some(x) => Write([1], EncodeU64(x) + rest); Write(EncodeU64(x), rest);
    }

    method WriteOptionByte(o: Option<byte>, ghost rest: seq<byte>)
      requires Valid() && todo == PutOptionByte(o, rest)
      modifies this, data
      ensures Valid() && todo == rest
    {
      match o
      case None => Write([0], rest);
      case Some(x) => Write([1], [x] + rest); Write([x], rest);
    }

    method WriteOptionKey(o: Option<Pubkey>, ghost rest: seq<byte>)
      requires Valid() && todo == PutOptionKey(o, rest)
      modifies this, data
      ensures Valid() && todo == rest
    {
      match o
      case None => Write([0], rest);
      case Some(x) => Write([1], x + rest); Write(x, rest);
    }

    /** With nothing left to write, the encoding lies over the original contents. */
    lemma Finished()
      requires Valid() && todo == []
      ensures data[..] == Overlay(original, 0, encoding)
    {
      assert data[..] == data[..pos] + data[pos..];
    }
  }

  method SerializeVoter(v: VoterWeightRecord, data: array<byte>)
    requires data.Length == VOTER_SPACE
    modifies data
    ensures |EncodeVoter(v)| <= VOTER_SPACE && data[..] == Overlay(old(data[..]), 0, EncodeVoter(v))
  {
    hide PutOptionU64, PutOptionByte, PutOptionKey, Overlay;
    VoterSize(v, []);
    ghost var b8 := v.reserved + [];
    ghost var b7 := PutOptionKey(v.weightActionTarget, b8);
    ghost var b6 := PutOptionByte(v.weightAction, b7);
    ghost var b5 := PutOptionU64(v.voterWeightExpiry, b6);
    ghost var b4 := EncodeU64(v.voterWeight) + b5;
    ghost var b3 := v.governingTokenOwner + b4;
    ghost var b2 := v.governingTokenMint + b3;
    var writer := new Writer(data, EncodeVoter(v));
    writer.Write(v.accountDiscriminator, v.realm + b2);
    writer.Write(v.realm, b2);
    writer.Write(v.governingTokenMint, b3);
    writer.Write(v.governingTokenOwner, b4);
    writer.Write(EncodeU64(v.voterWeight), b5);
    writer.WriteOptionU64(v.voterWeightExpiry, b6);
    writer.WriteOptionByte(v.weightAction, b7);
    writer.WriteOptionKey(v.weightActionTarget, b8);
    writer.Write(v.reserved, []);
    writer.Finished();
  }

  method SerializeMax(m: MaxVoterWeightRecord, data: array<byte>)
    requires data.Length == MAX_SPACE
    modifies data
    ensures |EncodeMax(m)| <= MAX_SPACE && data[..] == Overlay(old(data[..]), 0, EncodeMax(m))
  {
    hide PutOptionU64, Overlay;
    MaxSize(m, []);
    ghost var b5 := m.reserved + [];
    ghost var b4 := PutOptionU64(m.maxVoterWeightExpiry, b5);
    ghost var b3 := EncodeU64(m.maxVoterWeight) + b4;
    ghost var b2 := m.governingTokenMint + b3;
    var writer := new Writer(data, EncodeMax(m));
    writer.Write(m.accountDiscriminator, m.realm + b2);
    writer.Write(m.realm, b2);
    writer.Write(m.governingTokenMint, b3);
    writer.Write(EncodeU64(m.maxVoterWeight), b4);
    writer.WriteOptionU64(m.maxVoterWeightExpiry, b5);
    writer.Write(m.reserved, []);
    writer.Finished();
  }

  method SerializeRegistrar(g: Registrar, data: array<byte>)
    requires data.Length == REGISTRAR_SPACE
    modifies data
    ensures data[..] == EncodeRegistrar(g)
  {
    ghost var b6 := g.reserved + [];
    ghost var b5 := EncodeI64(g.maxVerificationAge) + b6;
    ghost var b4 := EncodeU16(g.minTrustScore) + b5;
    ghost var b3 := g.governingTokenMint + b4;
    ghost var b2 := g.realm + b3;
    var writer := new Writer(data, EncodeRegistrar(g));
    writer.Write(REGISTRAR_DISCRIMINATOR, g.governanceProgramId + b2);
    writer.Write(g.governanceProgramId, b2);
    writer.Write(g.realm, b3);
    writer.Write(g.governingTokenMint, b4);
    writer.Write(EncodeU16(g.minTrustScore), b5);
    writer.Write(EncodeI64(g.maxVerificationAge), b6);
    writer.Write(g.reserved, []);
    writer.Finished();
  }
}
