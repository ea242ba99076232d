/** The helpers every message shares: a byte run written as a four-byte length
    followed by the bytes, and an address read back as such a run. */
module Message {
  import opened Streams

  /** The bytes writeBytes appends: the length as a big-endian int, then `b`. */
  function LengthPrefixed(b: seq<byte>): (r: seq<byte>)
    requires |b| < 0x8000_0000
    ensures |r| == 4 + |b| && r[4..] == b
  {
    Int32Bytes(|b|) + b
  }

  /** readBytes: read a length, allocate an array of that length, fill it. A
      negative length fails the allocation; a short input fails readFully. */
  function ParseBytes(s: seq<byte>): (r: Read<seq<byte>>)
    ensures r.Ok? ==> |r.value| < 0x8000_0000 && s == LengthPrefixed(r.value) + r.rest
    ensures |s| < 4 ==> r == Fail(EOF, [])
    ensures 4 <= |s| && Int32Of(s[..4]) < 0 ==> r == Fail(NegativeArraySize, s[4..])
    ensures 4 <= |s| && |s| < 4 + Int32Of(s[..4]) ==> r == Fail(EOF, [])
  {
    match ParseInt(s)
    case Fail(e, rest) => Fail(e, rest)
    case Ok(n, rest) =>
      assert s[..4] == Int32Bytes(n) && s[4..] == rest;
      Int32RoundTrip(n);
      if n < 0 then Fail(NegativeArraySize, rest)
      else
        match ParseFully(rest, n)
        case Fail(e, rest') => Fail(e, rest')
        case Ok(b, rest') =>
          Associative(Int32Bytes(n), b, rest');
          Ok(b, rest')
  }

  lemma ParseBytesOfLengthPrefixed(b: seq<byte>, rest: seq<byte>)
    requires |b| < 0x8000_0000
    ensures ParseBytes(LengthPrefixed(b) + rest) == Ok(b, rest)
  {
    Associative(Int32Bytes(|b|), b, rest);
    ParseIntOfInt32Bytes(|b|, b + rest);
    assert (b + rest)[..|b|] == b && (b + rest)[|b|..] == rest;
  }

  /** InetAddress.getByAddress(readBytes(in)): only 4 or 16 bytes make an address. */
  function ParseAddress(s: seq<byte>): (r: Read<Address>)
    ensures r.Ok? ==> s == LengthPrefixed(r.value) + r.rest
    ensures r.Fail? <==> ParseBytes(s).Fail? || |ParseBytes(s).value| !in {4, 16}
  {
    match ParseBytes(s)
    case Fail(e, rest) => Fail(e, rest)
    case Ok(b, rest) => if |b| == 4 || |b| == 16 then Ok(b, rest) else Fail(UnknownHost, rest)
  }

  /** A well-formed byte run of any other length than 4 or 16 is UnknownHostException. */
  lemma ParseAddressRejectsOtherLengths(b: seq<byte>, rest: seq<byte>)
    requires |b| < 0x8000_0000 && |b| != 4 && |b| != 16
    ensures ParseAddress(LengthPrefixed(b) + rest) == Fail(UnknownHost, rest)
  {
    ParseBytesOfLengthPrefixed(b, rest);
  }

  lemma ParseAddressOfLengthPrefixed(a: Address, rest: seq<byte>)
    ensures ParseAddress(LengthPrefixed(a) + rest) == Ok(a, rest)
  {
    ParseBytesOfLengthPrefixed(a, rest);
  }

  /** Message.writeBytes */
  method WriteBytes(out: DataOutputStream, bytes: seq<byte>)
    requires |bytes| < 0x8000_0000
    modifies out
    ensures out.written == old(out.written) + LengthPrefixed(bytes)
  {
    ghost var before := out.written;
    out.WriteInt(|bytes|);
    out.Write(bytes);
    Associative(before, Int32Bytes(|bytes|), bytes);
  }

  /** Message.readBytes */
  method ReadBytes(inp: DataInputStream) returns (r: Read<seq<byte>>)
    modifies inp
    ensures r == ParseBytes(old(inp.remaining)) && inp.remaining == r.rest
  {
    var length := inp.ReadInt();
    if length.Fail? {
      return Fail(length.error, length.rest);
    }
    if length.value < 0 {
      return Fail(NegativeArraySize, inp.remaining);
    }
    r := inp.ReadFully(length.value);
  }

  /** InetAddress.getByAddress(Message.readBytes(in)) */
  method ReadAddress(inp: DataInputStream) returns (r: Read<Address>)
    modifies inp
    ensures r == ParseAddress(old(inp.remaining)) && inp.remaining == r.rest
  {
    var bytes := ReadBytes(inp);
    if bytes.Fail? {
      return Fail(bytes.error, bytes.rest);
    }
    if |bytes.value| == 4 || |bytes.value| == 16 {
      r := Ok(bytes.value, bytes.rest);
    } else {
      r := Fail(UnknownHost, bytes.rest);
    }
  }
}
