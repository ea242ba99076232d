/** The notice a departing node sends each neighbour: the address of the
    neighbour they should all connect to instead. It has no discovery header. */
module HangupMessage {
  import opened Streams
  import opened Message

  datatype Hangup = Hangup(handoffAddress: Address)

  /** writeData: the handoff address, length-prefixed, and nothing else. */
  function Encode(m: Hangup): (r: seq<byte>)
    ensures |r| == 4 + |m.handoffAddress|
  {
    LengthPrefixed(m.handoffAddress)
  }

  /** readData: one length-prefixed address. */
  function Decode(s: seq<byte>): (r: Read<Hangup>)
    ensures r.Ok? ==> s == Encode(r.value) + r.rest
    ensures r.Fail? <==> ParseAddress(s).Fail?
  {
    match ParseAddress(s)
    case Fail(e, rest) => Fail(e, rest)
    case Ok(a, rest) => Ok(Hangup(a), rest)
  }

  lemma RoundTrip(m: Hangup, rest: seq<byte>)
    ensures Decode(Encode(m) + rest) == Ok(m, rest)
  {
    ParseAddressOfLengthPrefixed(m.handoffAddress, rest);
  }

  /** HangupMessage.writeData */
  method WriteData(out: DataOutputStream, m: Hangup)
    modifies out
    ensures out.written == old(out.written) + Encode(m)
  {
    WriteBytes(out, m.handoffAddress);
  }

  /** HangupMessage.readData */
  method ReadData(inp: DataInputStream) returns (r: Read<Hangup>)
    modifies inp
    ensures r == Decode(old(inp.remaining)) && inp.remaining == r.rest
  {
    var a := ReadAddress(inp);
    if a.Fail? {
      return Fail(a.error, a.rest);
    }
    r := Ok(Hangup(a.value), a.rest);
  }
}
