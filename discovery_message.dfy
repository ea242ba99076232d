/** The header shared by queries and replies: who started the search, which of
    its searches this is, and when it stops mattering. */
module DiscoveryMessage {
  import opened Streams
  import opened Message

  /** `expiration` is in epoch milliseconds. */
  datatype Header = Header(initiator: Address, sequenceId: int32, expiration: int64)

  /** The bytes writeData appends: initiator (length-prefixed), sequenceId, expiration. */
  function Encode(h: Header): (r: seq<byte>)
    ensures |r| == 16 + |h.initiator|
  {
    LengthPrefixed(h.initiator) + Int32Bytes(h.sequenceId) + Int64Bytes(h.expiration)
  }

  /** readData: the same three fields, in the same order. A successful read
      consumed exactly the encoding of what it returns. */
  function Decode(s: seq<byte>): (r: Read<Header>)
    ensures r.Ok? ==> s == Encode(r.value) + r.rest
  {
    match ParseAddress(s)
    case Fail(e, rest) => Fail(e, rest)
    case Ok(initiator, s1) =>
      match ParseInt(s1)
      case Fail(e, rest) => Fail(e, rest)
      case Ok(sequenceId, s2) =>
        match ParseLong(s2)
        case Fail(e, rest) => Fail(e, rest)
        case Ok(expiration, rest) =>
          var a, i, l := LengthPrefixed(initiator), Int32Bytes(sequenceId), Int64Bytes(expiration);
          Associative(i, l, rest);
          Associative(a, i + l, rest);
          Associative(a, i, l);
          Ok(Header(initiator, sequenceId, expiration), rest)
  }

  lemma {:induction false} RoundTrip(h: Header, rest: seq<byte>)
    ensures Decode(Encode(h) + rest) == Ok(h, rest)
  {
    var a, i, l := LengthPrefixed(h.initiator), Int32Bytes(h.sequenceId), Int64Bytes(h.expiration);
    Associative(i, l, rest);
    Associative(a, i + l, rest);
    Associative(a, i, l);
    ParseAddressOfLengthPrefixed(h.initiator, i + (l + rest));
    ParseIntOfInt32Bytes(h.sequenceId, l + rest);
    ParseLongOfInt64Bytes(h.expiration, rest);
  }

  /** DiscoveryMessage.writeData */
  method WriteData(out: DataOutputStream, h: Header)
    modifies out
    ensures out.written == old(out.written) + Encode(h)
  {
    ghost var before := out.written;
    ghost var a, s := LengthPrefixed(h.initiator), Int32Bytes(h.sequenceId);
    WriteBytes(out, h.initiator);
    out.WriteInt(h.sequenceId);
    out.WriteLong(h.expiration);
    assert out.written == before + a + s + Int64Bytes(h.expiration);
    Associative(before, a + s, Int64Bytes(h.expiration));
    Associative(before, a, s);
  }

  /** DiscoveryMessage.readData */
  method ReadData(inp: DataInputStream) returns (r: Read<Header>)
    modifies inp
    ensures r == Decode(old(inp.remaining)) && inp.remaining == r.rest
  {
    var initiator := ReadAddress(inp);
    if initiator.Fail? {
      return Fail(initiator.error, initiator.rest);
    }
    var sequenceId := inp.ReadInt();
    if sequenceId.Fail? {
      return Fail(sequenceId.error, sequenceId.rest);
    }
    var expiration := inp.ReadLong();
    if expiration.Fail? {
      return Fail(expiration.error, expiration.rest);
    }
    r := Ok(Header(initiator.value, sequenceId.value, expiration.value), inp.remaining);
  }
}
