/** An answer to a query: the query's header, the node that holds the content
    (the terminator), and the content's keyword and file name. */
module DiscoveryReplyMessage {
  import opened Streams
  import opened Message
  import DiscoveryMessage
  import DiscoveryQueryMessage

  datatype Reply = Reply(
    initiator: Address, sequenceId: int32, expiration: int64,
    terminator: Address, keyword: Utf, fileName: Utf)
  {
    function Header(): DiscoveryMessage.Header {
      DiscoveryMessage.Header(initiator, sequenceId, expiration)
    }
  }

  /** writeData: the header first, then the terminator (length-prefixed), the
      keyword and the file name. */
  function Encode(m: Reply): (r: seq<byte>)
    ensures |r| == 24 + |m.initiator| + |m.terminator| + |m.keyword| + |m.fileName|
  {
    DiscoveryMessage.Encode(m.Header()) + LengthPrefixed(m.terminator)
      + UtfBytes(m.keyword) + UtfBytes(m.fileName)
  }

  /** The header is written first, by the superclass. */
  lemma HeaderIsPrefix(m: Reply)
    ensures Encode(m)[..16 + |m.initiator|] == DiscoveryMessage.Encode(m.Header())
  {
    var h := DiscoveryMessage.Encode(m.Header());
    assert Encode(m) == h + (LengthPrefixed(m.terminator) + UtfBytes(m.keyword) + UtfBytes(m.fileName));
  }

  /** A reply and a query with the same initiator, sequenceId and expiration
      begin with the same bytes. */
  lemma SharesHeaderWithQuery(m: Reply, q: DiscoveryQueryMessage.Query)
    requires m.Header() == q.Header()
    ensures var k := 16 + |m.initiator|;
      k <= |Encode(m)| && k <= |DiscoveryQueryMessage.Encode(q)| &&
      Encode(m)[..k] == DiscoveryQueryMessage.Encode(q)[..k]
  {
    HeaderIsPrefix(m);
    DiscoveryQueryMessage.HeaderIsPrefix(q);
  }

  /** readData: the same fields in the same order. A successful read consumed
      exactly the encoding of what it returns. */
  function Decode(s: seq<byte>): (r: Read<Reply>)
    ensures r.Ok? ==> s == Encode(r.value) + r.rest
  {
    match DiscoveryMessage.Decode(s)
    case Fail(e, rest) => Fail(e, rest)
    case Ok(h, s1) =>
      match ParseAddress(s1)
      case Fail(e, rest) => Fail(e, rest)
      case Ok(terminator, s2) =>
        match ParseUTF(s2)
        case Fail(e, rest) => Fail(e, rest)
        case Ok(keyword, s3) =>
          match ParseUTF(s3)
          case Fail(e, rest) => Fail(e, rest)
          case Ok(fileName, rest) =>
            var m := Reply(h.initiator, h.sequenceId, h.expiration, terminator, keyword, fileName);
            assert m.Header() == h;
            Concatenated(m, rest);
            Ok(m, rest)
  }

  /** Encode(m) + rest, regrouped the way Decode takes it apart. */
  lemma Concatenated(m: Reply, rest: seq<byte>)
    ensures Encode(m) + rest == DiscoveryMessage.Encode(m.Header())
      + (LengthPrefixed(m.terminator) + (UtfBytes(m.keyword) + (UtfBytes(m.fileName) + rest)))
  {
    var h := DiscoveryMessage.Encode(m.Header());
    var t := LengthPrefixed(m.terminator);
    var k := UtfBytes(m.keyword);
    var f := UtfBytes(m.fileName);
    Associative(k, f, rest);
    Associative(t, k + f, rest);
    Associative(h, t + (k + f), rest);
    Associative(t, k, f);
    Associative(h, t + k, f);
    Associative(h, t, k);
  }

  lemma {:induction false} RoundTrip(m: Reply, rest: seq<byte>)
    ensures Decode(Encode(m) + rest) == Ok(m, rest)
  {
    var k := UtfBytes(m.keyword);
    var f := UtfBytes(m.fileName);
    Concatenated(m, rest);
    DiscoveryMessage.RoundTrip(m.Header(), LengthPrefixed(m.terminator) + (k + (f + rest)));
    ParseAddressOfLengthPrefixed(m.terminator, k + (f + rest));
    ParseUTFOfUtfBytes(m.keyword, f + rest);
    ParseUTFOfUtfBytes(m.fileName, rest);
  }

  /** DiscoveryReplyMessage.writeData */
  method WriteData(out: DataOutputStream, m: Reply)
    modifies out
    ensures out.written == old(out.written) + Encode(m)
  {
    ghost var before := out.written;
    ghost var h, t := DiscoveryMessage.Encode(m.Header()), LengthPrefixed(m.terminator);
    ghost var k, f := UtfBytes(m.keyword), UtfBytes(m.fileName);
    DiscoveryMessage.WriteData(out, m.Header());
    WriteBytes(out, m.terminator);
    out.WriteUTF(m.keyword);
    out.WriteUTF(m.fileName);
    assert out.written == before + h + t + k + f;
    Associative(before, h + t + k, f);
    Associative(before, h + t, k);
    Associative(before, h, t);
  }

  /** DiscoveryReplyMessage.readData */
  method ReadData(inp: DataInputStream) returns (r: Read<Reply>)
    modifies inp
    ensures r == Decode(old(inp.remaining)) && inp.remaining == r.rest
  {
    var h := DiscoveryMessage.ReadData(inp);
    if h.Fail? {
      return Fail(h.error, h.rest);
    }
    var terminator := ReadAddress(inp);
    if terminator.Fail? {
      return Fail(terminator.error, terminator.rest);
    }
    var keyword := inp.ReadUTF();
    if keyword.Fail? {
      return Fail(keyword.error, keyword.rest);
    }
    var fileName := inp.ReadUTF();
    if fileName.Fail? {
      return Fail(fileName.error, fileName.rest);
    }
    r := Ok(Reply(h.value.initiator, h.value.sequenceId, h.value.expiration,
                  terminator.value, keyword.value, fileName.value), inp.remaining);
  }
}
