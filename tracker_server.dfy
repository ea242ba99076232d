/** The tracker: a registry of the nodes that have joined. A node that joins is
    told every member registered before it, then registered itself. */
module TrackerServer {
  import opened Streams
  import opened Message

  /** The bytes that follow the count in a join reply: each address as a
      four-byte length and its bytes, in list order. */
  function PeerEntries(peers: seq<Address>): seq<byte>
    decreases |peers|
  {
    if peers == [] then [] else PeerEntries(peers[..|peers| - 1]) + LengthPrefixed(peers[|peers| - 1])
  }

  /** The join reply: the number of peers, then their entries. */
  function JoinReply(peers: seq<Address>): seq<byte>
    requires |peers| < 0x8000_0000
  {
    Int32Bytes(|peers|) + PeerEntries(peers)
  }

  /** The loop of handleConnection that writes the join reply. */
  method WriteJoinReply(out: DataOutputStream, registered: seq<Address>)
    requires |registered| < 0x8000_0000
    modifies out
    ensures out.written == old(out.written) + JoinReply(registered)
  {
    ghost var before := out.written;
    ghost var count := Int32Bytes(|registered|);
    out.WriteInt(|registered|);
    var i := 0;
    while i < |registered|
      invariant 0 <= i <= |registered|
      invariant out.written == before + count + PeerEntries(registered[..i])
    {
      ghost var done := out.written;
      out.WriteInt(|registered[i]|);
      out.Write(registered[i]);
      assert registered[..i + 1][..i] == registered[..i];
      assert PeerEntries(registered[..i + 1]) == PeerEntries(registered[..i]) + LengthPrefixed(registered[i]);
      Associative(done, Int32Bytes(|registered[i]|), registered[i]);
      Associative(before + count, PeerEntries(registered[..i]), LengthPrefixed(registered[i]));
      i := i + 1;
    }
    assert registered[..i] == registered;
    Associative(before, count, PeerEntries(registered));
  }

  class Tracker {
    /** TrackerServer.peers, in the order the nodes joined. */
    var peers: seq<Address>

    constructor ()
      ensures peers == []
    {
      peers := [];
    }

    /** handleConnection: read the request byte; on 0 (join) write the count
        and every registered address, then register the caller. Any other byte
        (leave is 1) is ignored, and an empty request is an EOFException before
        anything is written. Duplicates are not checked. */
    method HandleConnection(inp: DataInputStream, out: DataOutputStream, caller: Address)
      returns (r: Read<byte>)
      requires |peers| < 0x7FFF_FFFF
      modifies this, inp, out
      ensures r == ParseByte(old(inp.remaining)) && inp.remaining == r.rest
      ensures r == Ok(0, r.rest) ==>
        out.written == old(out.written) + JoinReply(old(peers)) && peers == old(peers) + [caller]
      ensures r != Ok(0, r.rest) ==> out.written == old(out.written) && peers == old(peers)
    {
      r := inp.ReadByte();
      if r.Ok? && r.value == 0 {
        WriteJoinReply(out, peers);
        peers := peers + [caller];
      }
    }
  }
}
