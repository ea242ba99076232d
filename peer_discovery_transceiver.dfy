/** What a discovery link puts on the wire and takes off it: one frame per
    message, a type tag byte followed by that message's own fields. The sender
    and receiver threads themselves are not modelled, only one frame each. */
module PeerDiscoveryTransceiver {
  import opened Streams
  import Q = DiscoveryQueryMessage
  import R = DiscoveryReplyMessage
  import H = HangupMessage

  /** The three message classes a link carries. */
  datatype Message = Query(query: Q.Query) | Reply(reply: R.Reply) | Hangup(hangup: H.Hangup)

  /** Node.ReceivedMessage: a message paired with the neighbour it came from. */
  datatype Received = Received(message: Message, neighbor: Address)

  /** The empty message getMessageOfType allocates, before readData fills it. */
  datatype Kind = QueryKind | ReplyKind | HangupKind

  function KindOfMessage(m: Message): Kind {
    match m
    case Query(_) => QueryKind
    case Reply(_) => ReplyKind
    case Hangup(_) => HangupKind
  }

  /** getTypeOfMessage */
  function TypeOf(m: Message): (r: byte)
    ensures r <= 2
    ensures r == 0 <==> m.Query?
    ensures r == 1 <==> m.Reply?
    ensures r == 2 <==> m.Hangup?
  {
    match m
    case Query(_) => 0
    case Reply(_) => 1
    case Hangup(_) => 2
  }

  /** getMessageOfType: every other tag is IllegalArgumentException. */
  function KindOf(tag: byte): (r: Read<Kind>)
    ensures r.Ok? <==> tag <= 2
    ensures r.Fail? ==> r.error == IllegalArgument
  {
    if tag == 0 then Ok(QueryKind, [])
    else if tag == 1 then Ok(ReplyKind, [])
    else if tag == 2 then Ok(HangupKind, [])
    else Fail(IllegalArgument, [])
  }

  /** Looking up the tag of a message gives back the kind of that message. */
  lemma KindOfTypeOf(m: Message)
    ensures KindOf(TypeOf(m)) == Ok(KindOfMessage(m), [])
  {
  }

  /** Distinct kinds get distinct tags. */
  lemma TypeOfSeparatesKinds(m: Message, n: Message)
    ensures TypeOf(m) == TypeOf(n) <==> KindOfMessage(m) == KindOfMessage(n)
  {
  }

  /** writeData of the message itself. */
  function Body(m: Message): seq<byte> {
    match m
    case Query(q) => Q.Encode(q)
    case Reply(r) => R.Encode(r)
    case Hangup(h) => H.Encode(h)
  }

  /** runSender: the tag byte, then writeData. */
  function EncodeFrame(m: Message): (r: seq<byte>)
    ensures |r| >= 1 && r[0] == TypeOf(m) && r[1..] == Body(m)
  {
    [TypeOf(m)] + Body(m)
  }

  /** readData into the message getMessageOfType made. */
  function DecodeBody(k: Kind, s: seq<byte>): (r: Read<Message>)
    ensures r.Ok? ==> KindOfMessage(r.value) == k
  {
    match k
    case QueryKind =>
      (match Q.Decode(s)
       case Ok(q, rest) => Ok(Query(q), rest)
       case Fail(e, rest) => Fail(e, rest))
    case ReplyKind =>
      (match R.Decode(s)
       case Ok(m, rest) => Ok(Reply(m), rest)
       case Fail(e, rest) => Fail(e, rest))
    case HangupKind =>
      (match H.Decode(s)
       case Ok(h, rest) => Ok(Hangup(h), rest)
       case Fail(e, rest) => Fail(e, rest))
  }

  /** runReceiver: readByte, getMessageOfType, readData. An unknown tag fails
      after consuming just the tag. */
  function DecodeFrame(s: seq<byte>): (r: Read<Message>)
    ensures s == [] ==> r == Fail(EOF, [])
    ensures s != [] && s[0] > 2 ==> r == Fail(IllegalArgument, s[1..])
    ensures r.Ok? ==> s != [] && s[0] == TypeOf(r.value)
  {
    match ParseByte(s)
    case Fail(e, rest) => Fail(e, rest)
    case Ok(tag, rest) =>
      match KindOf(tag)
      case Fail(e, _) => Fail(e, rest)
      case Ok(k, _) => DecodeBody(k, rest)
  }

  lemma {:induction false} FrameRoundTrip(m: Message, rest: seq<byte>)
    ensures DecodeFrame(EncodeFrame(m) + rest) == Ok(m, rest)
  {
    var s := EncodeFrame(m) + rest;
    assert s == [TypeOf(m)] + (Body(m) + rest);
    assert ParseByte(s) == Ok(TypeOf(m), Body(m) + rest);
    assert DecodeFrame(s) == DecodeBody(KindOfMessage(m), Body(m) + rest);
    match m
    case Query(q) => Q.RoundTrip(q, rest);
    case Reply(r) => R.RoundTrip(r, rest);
    case Hangup(h) => H.RoundTrip(h, rest);
  }

  /** One pass of runReceiver's loop: the decoded message, paired with the
      link's peer address. */
  function Receive(s: seq<byte>, peer: Address): (r: Read<Received>)
    ensures r.Ok? ==> r.value.neighbor == peer && DecodeFrame(s) == Ok(r.value.message, r.rest)
    ensures r.Fail? ==> DecodeFrame(s) == Fail(r.error, r.rest)
  {
    match DecodeFrame(s)
    case Ok(m, rest) => Ok(Received(m, peer), rest)
    case Fail(e, rest) => Fail(e, rest)
  }

  /** After a failed pass the loop goes round again only if the exception was
      an IOException; anything else ends the receiver thread. */
  predicate ReceiverContinues(r: Read<Received>) {
    r.Ok? || IsIOException(r.error)
  }

  /** An unknown tag is not swallowed: it ends the receiver thread. */
  lemma UnknownTagStopsReceiver(tag: byte, rest: seq<byte>, peer: Address)
    requires tag > 2
    ensures !ReceiverContinues(Receive([tag] + rest, peer))
  {
    assert ([tag] + rest)[1..] == rest;
  }

  /** A closed connection is an EOFException, which is swallowed: the loop goes
      round again on the same empty input, and fails the same way. */
  lemma ClosedConnectionIsSwallowed(peer: Address)
    ensures Receive([], peer) == Fail(EOF, []) && ReceiverContinues(Receive([], peer))
  {
  }

  /** runSender's body for one message. */
  method SendFrame(out: DataOutputStream, m: Message)
    modifies out
    ensures out.written == old(out.written) + EncodeFrame(m)
  {
    ghost var before := out.written;
    out.WriteByte(TypeOf(m));
    ghost var tagged := out.written;
    match m {
      case Query(q) => Q.WriteData(out, q);
      case Reply(r) => R.WriteData(out, r);
      case Hangup(h) => H.WriteData(out, h);
    }
    assert out.written == tagged + Body(m);
    Associative(before, [TypeOf(m)], Body(m));
  }

  /** runReceiver's body for one message, up to the hand-off to the node. */
  method ReceiveFrame(inp: DataInputStream, peer: Address) returns (r: Read<Received>)
    modifies inp
    ensures r == Receive(old(inp.remaining), peer) && inp.remaining == r.rest
  {
    var tag := inp.ReadByte();
    if tag.Fail? {
      return Fail(tag.error, tag.rest);
    }
    var kind := KindOf(tag.value);
    if kind.Fail? {
      return Fail(kind.error, inp.remaining);
    }
    var m: Read<Message>;
    match kind.value {
      case QueryKind =>
        var q := Q.ReadData(inp);
        m := if q.Ok? then Ok(Query(q.value), q.rest) else Fail(q.error, q.rest);
      case ReplyKind =>
        var p := R.ReadData(inp);
        m := if p.Ok? then Ok(Reply(p.value), p.rest) else Fail(p.error, p.rest);
      case HangupKind =>
        var h := H.ReadData(inp);
        m := if h.Ok? then Ok(Hangup(h.value), h.rest) else Fail(h.error, h.rest);
    }
    r := if m.Ok? then Ok(Received(m.value, peer), m.rest) else Fail(m.error, m.rest);
  }
}
