/** A search request: the header, the remaining hop budget, whether `filter` is a
    keyword or a file name, and the filter itself. */
module DiscoveryQueryMessage {
  import opened Streams
  import opened Message
  import DiscoveryMessage

  datatype Query = Query(
    initiator: Address, sequenceId: int32, expiration: int64,
    hopCount: int32, isKeywordSearch: bool, filter: Utf)
  {
    function Header(): DiscoveryMessage.Header {
      DiscoveryMessage.Header(initiator, sequenceId, expiration)
    }
  }

  /** writeData: the header first, then hopCount, the flag byte and the filter. */
  function Encode(q: Query): (r: seq<byte>)
    ensures |r| == 23 + |q.initiator| + |q.filter|
  {
    DiscoveryMessage.Encode(q.Header()) + Int32Bytes(q.hopCount)
      + [BooleanByte(q.isKeywordSearch)] + UtfBytes(q.filter)
  }

  /** The header is written first, by the superclass. */
  lemma HeaderIsPrefix(q: Query)
    ensures Encode(q)[..16 + |q.initiator|] == DiscoveryMessage.Encode(q.Header())
  {
    var h := DiscoveryMessage.Encode(q.Header());
    assert Encode(q) == h + (Int32Bytes(q.hopCount) + [BooleanByte(q.isKeywordSearch)] + UtfBytes(q.filter));
  }

  /** readData: the same fields in the same order. The flag is read as "nonzero":
      the bytes consumed are the encoding of the result with its flag byte
      replaced by the one read, and they are the encoding itself exactly when
      that byte was 0 or 1. */
  function Decode(s: seq<byte>): (r: Read<Query>)
    ensures r.Ok? ==> var k := 20 + |r.value.initiator|;
      k < |s| && (r.value.isKeywordSearch <==> s[k] != 0) &&
      s == Encode(r.value)[k := s[k]] + r.rest &&
      (s == Encode(r.value) + r.rest <==> s[k] <= 1)
  {
    match DiscoveryMessage.Decode(s)
    case Fail(e, rest) => Fail(e, rest)
    case Ok(h, s1) =>
      match ParseInt(s1)
      case Fail(e, rest) => Fail(e, rest)
      case Ok(hopCount, s2) =>
        match ParseBoolean(s2)
        case Fail(e, rest) => Fail(e, rest)
        case Ok(isKeywordSearch, s3) =>
          match ParseUTF(s3)
          case Fail(e, rest) => Fail(e, rest)
          case Ok(filter, rest) =>
            var m := Query(h.initiator, h.sequenceId, h.expiration, hopCount, isKeywordSearch, filter);
            assert m.Header() == h;
            assert s2 == [s2[0]] + s3;
            FlagCanonical(m, s, s2[0], rest);
            Ok(m, rest)
  }

  /** The step of Decode's contract about the flag byte. */
  lemma FlagCanonical(m: Query, s: seq<byte>, flag: byte, rest: seq<byte>)
    requires m.isKeywordSearch <==> flag != 0
    requires s == DiscoveryMessage.Encode(m.Header())
      + (Int32Bytes(m.hopCount) + ([flag] + (UtfBytes(m.filter) + rest)))
    ensures 20 + |m.initiator| < |s| && s[20 + |m.initiator|] == flag
    ensures s == Encode(m)[20 + |m.initiator| := flag] + rest
    ensures s == Encode(m) + rest <==> flag <= 1
  {
    var a := DiscoveryMessage.Encode(m.Header()) + Int32Bytes(m.hopCount);
    var f := UtfBytes(m.filter);
    var u := f + rest;
    assert s == a + ([flag] + u);
    assert Encode(m) == a + [BooleanByte(m.isKeywordSearch)] + f;
    assert Encode(m)[|a| := flag] == a + [flag] + f;
    assert Encode(m) + rest == a + ([BooleanByte(m.isKeywordSearch)] + u);
    if flag > 1 {
      assert (Encode(m) + rest)[|a|] != flag;
    }
  }

  lemma {:induction false} RoundTrip(m: Query, rest: seq<byte>)
    ensures Decode(Encode(m) + rest) == Ok(m, rest)
  {
    var h := DiscoveryMessage.Encode(m.Header());
    var i := Int32Bytes(m.hopCount);
    var f := [BooleanByte(m.isKeywordSearch)];
    var u := UtfBytes(m.filter);
    Associative(f, u, rest);
    Associative(i, f + u, rest);
    Associative(h, i + (f + u), rest);
    Associative(i, f, u);
    Associative(h, i + f, u);
    Associative(h, i, f);
    DiscoveryMessage.RoundTrip(m.Header(), i + (f + (u + rest)));
    ParseIntOfInt32Bytes(m.hopCount, f + (u + rest));
    ParseBooleanOfBooleanByte(m.isKeywordSearch, u + rest);
    ParseUTFOfUtfBytes(m.filter, rest);
  }

  /** Decoding is not injective: a flag byte of 2 reads as true and is written back as 1. */
  lemma FlagReadsAnyNonzeroAsTrue(m: Query)
    requires m.isKeywordSearch
    ensures var e := Encode(m);
      var d := e[20 + |m.initiator| := 2];
      Decode(d) == Ok(m, []) && e != d
  {
    var h := DiscoveryMessage.Encode(m.Header());
    var i := Int32Bytes(m.hopCount);
    var u := UtfBytes(m.filter);
    var e := Encode(m);
    var d := e[20 + |m.initiator| := 2];
    assert e == (h + i) + [1] + u;
    assert d == h + (i + ([2] + (u + [])));
    DiscoveryMessage.RoundTrip(m.Header(), i + ([2] + (u + [])));
    ParseIntOfInt32Bytes(m.hopCount, [2] + (u + []));
    ParseUTFOfUtfBytes(m.filter, []);
  }

  /** DiscoveryQueryMessage.writeData */
  method WriteData(out: DataOutputStream, m: Query)
    modifies out
    ensures out.written == old(out.written) + Encode(m)
  {
    ghost var before := out.written;
    ghost var h, i := DiscoveryMessage.Encode(m.Header()), Int32Bytes(m.hopCount);
    ghost var f, u := [BooleanByte(m.isKeywordSearch)], UtfBytes(m.filter);
    DiscoveryMessage.WriteData(out, m.Header());
    out.WriteInt(m.hopCount);
    out.WriteBoolean(m.isKeywordSearch);
    out.WriteUTF(m.filter);
    assert out.written == before + h + i + f + u;
    Associative(before, h + i + f, u);
    Associative(before, h + i, f);
    Associative(before, h, i);
  }

  /** DiscoveryQueryMessage.readData */
  method ReadData(inp: DataInputStream) returns (r: Read<Query>)
    modifies inp
    ensures r == Decode(old(inp.remaining)) && inp.remaining == r.rest
  {
    var h := DiscoveryMessage.ReadData(inp);
    if h.Fail? {
      return Fail(h.error, h.rest);
    }
    var hopCount := inp.ReadInt();
    if hopCount.Fail? {
      return Fail(hopCount.error, hopCount.rest);
    }
    var isKeywordSearch := inp.ReadBoolean();
    if isKeywordSearch.Fail? {
      return Fail(isKeywordSearch.error, isKeywordSearch.rest);
    }
    var filter := inp.ReadUTF();
    if filter.Fail? {
      return Fail(filter.error, filter.rest);
    }
    r := Ok(Query(h.value.initiator, h.value.sequenceId, h.value.expiration,
                  hopCount.value, isKeywordSearch.value, filter.value), inp.remaining);
  }
}
