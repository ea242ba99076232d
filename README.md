# P2PFS discovery engine, in Dafny

P2PFS is a peer-to-peer file-sharing overlay. A node joins by asking a
tracker for the members already registered and linking to one of them.
It finds content by flooding queries over its links in expanding rings
with hop budgets 1, 2, 4, 8 and 16. Every node remembers each query it
has seen, keyed by initiator and sequence id. That record suppresses
duplicates, and it is also the reverse-path table that carries each reply
back to the neighbour the query came from. A departing node names one of
its neighbours as the hand-off that all the others connect to instead.

This project models that discovery engine, the wire format that carries
it, and the tracker's join exchange. It proves the properties the protocol
relies on.

- `streams.dfy` (module `Streams`) models the parts of Java's
  `DataOutputStream`, `DataInputStream` and `InetAddress` that the wire
  format uses:
  - big-endian 4- and 8-byte integers and one-byte booleans;
  - 2-byte-length-prefixed strings, and addresses of 4 or 16 bytes.

  A reader is a function of the bytes not yet read. It returns either the
  value and what is still unread, or the exception and what is still
  unread. Each stream class has a method per read or write, and each
  method is proved against that function.
- `message.dfy`, `discovery_message.dfy`, `discovery_query_message.dfy`,
  `discovery_reply_message.dfy` and `hangup_message.dfy` do three things
  for each message class:
  - give its encoding as a function;
  - give a decoder of unread input, with round-trip and prefix lemmas;
  - give `writeData`/`readData` methods proved equal to those two.
- `peer_discovery_transceiver.dfy` models the frame on a link: the type
  tag 0, 1 or 2, then `writeData`. It also models one pass of the sender
  and of the receiver.
- `query_records.dfy` models `QueryMessageIdentifier`, `QueryMessageInfo`,
  the record table and the expiration priority queue. It includes the
  purge that `serveRequests` runs before each message.
- `node.dfy` has two layers:
  - The node's state as a value, `NodeState`, with one transition function
    per operation. The properties are proved about these functions.
  - `class Node`, whose fields are that state. Its methods are the
    source's operations, each proved to make exactly the transition its
    function describes.

  It also holds `queryFile` and its reply filter `collectResultsFor`, and
  the peer-list reader of `getRandomPeer`.
- `tracker_server.dfy` models `TrackerServer.handleConnection`.
  `Node.JoinReplyRoundTrip` proves that `getRandomPeer` reads back exactly
  the list the tracker writes.

Time, randomness and the file directory are inputs:
- `now` is an instant in nanoseconds since the epoch, and expirations are
  in epoch milliseconds.
- A random choice is a given neighbour or a given draw.
- The directory is a function from the flag and the filter to a file entry.

The serving thread can die of a `NullPointerException`:
- a reply may have no record, because it was purged or never seen;
- the neighbour's outbox may be gone, because the neighbour hung up.

The model represents this by the `serving` flag becoming false, after
which `serveRequests` serves nothing more.

Three behaviours of the code that a reader might not expect, all modelled
as written:
- `Node.notifyLeave` sends the request byte 1 (`Node.java:314`), but
  `TrackerServer.handleConnection` acts only on byte 0
  (`TrackerServer.java:28`). A departing node therefore stays registered.
- `handleConnection` writes its snapshot of the members before it appends
  the caller, and it never checks for duplicates
  (`TrackerServer.java:30-37`). A node that registers twice sees itself.
- `runReceiver` catches the `EOFException` of a closed link like any other
  `IOException` and reads again (`PeerDiscoveryTransceiver.java:121-122`).
  A closed link is read again on every pass, which is shown by
  `PeerDiscoveryTransceiver.ClosedConnectionIsSwallowed`.

## Model

| member | source | states |
|---|---|---|
| Streams.ParseByte | src/pfs/tasks/TrackerServer.java:27 | readByte takes one byte, and an empty input is EOFException |
| Streams.ParseBoolean | src/pfs/messages/DiscoveryQueryMessage.java:24 | readBoolean takes one byte and reads any nonzero byte as true; an empty input is EOFException |
| Streams.ParseInt | src/pfs/messages/Message.java:18 | readInt succeeds exactly when at least four bytes remain, and they are the big-endian encoding of the value |
| Streams.ParseLong | src/pfs/messages/DiscoveryMessage.java:24 | readLong succeeds exactly when at least eight bytes remain, and they are the big-endian encoding of the value |
| Streams.ParseFully | src/pfs/messages/Message.java:20 | readFully of n bytes succeeds exactly when at least n bytes remain, and returns exactly those bytes; otherwise EOFException |
| Streams.ParseUTF | src/pfs/messages/DiscoveryQueryMessage.java:25 | readUTF consumes exactly a 2-byte length and that many bytes, and otherwise throws EOFException |
| Streams.ParseIntOfInt32Bytes | src/pfs/messages/Message.java:13-18 | readInt after writeInt returns the same int, for negative values too, and leaves what follows unread |
| Streams.ParseLongOfInt64Bytes | src/pfs/messages/DiscoveryMessage.java:17-24 | readLong after writeLong returns the same long and leaves what follows unread |
| Streams.ParseBooleanOfBooleanByte | src/pfs/messages/DiscoveryQueryMessage.java:16-24 | readBoolean after writeBoolean returns the same flag |
| Streams.ParseUTFOfUtfBytes | src/pfs/messages/DiscoveryQueryMessage.java:17-25 | readUTF after writeUTF returns the same string and leaves what follows unread |
| Streams.Int32RoundTrip | src/pfs/messages/Message.java:13-18 | decoding the four bytes of an int gives the int back |
| Streams.Int64RoundTrip | src/pfs/messages/DiscoveryMessage.java:17-24 | decoding the eight bytes of a long gives the long back |
| Streams.Int32BytesOfInt32 | src/pfs/messages/Message.java:13-18 | every four bytes are the encoding of the int they decode to |
| Streams.Int64BytesOfInt64 | src/pfs/messages/DiscoveryMessage.java:17-24 | every eight bytes are the encoding of the long they decode to |
| Streams.FromBigEndianOfBigEndian | src/pfs/messages/Message.java:13 | big-endian decoding inverts big-endian encoding for every value that fits the width |
| Streams.BigEndianOfFromBigEndian | src/pfs/messages/Message.java:18 | big-endian encoding inverts big-endian decoding for every byte string |
| Streams.DataOutputStream.WriteByte | src/pfs/tasks/Node.java:329 | writeByte appends exactly one byte |
| Streams.DataOutputStream.WriteBoolean | src/pfs/messages/DiscoveryQueryMessage.java:16 | writeBoolean appends exactly the flag byte, 1 for true and 0 for false |
| Streams.DataOutputStream.WriteInt | src/pfs/messages/Message.java:13 | writeInt appends exactly the four big-endian bytes of the int |
| Streams.DataOutputStream.WriteLong | src/pfs/messages/DiscoveryMessage.java:17 | writeLong appends exactly the eight big-endian bytes of the long |
| Streams.DataOutputStream.Write | src/pfs/messages/Message.java:14 | write appends exactly the given bytes |
| Streams.DataOutputStream.WriteUTF | src/pfs/messages/DiscoveryQueryMessage.java:17 | writeUTF appends exactly a 2-byte length and the string's bytes |
| Streams.DataInputStream.ReadByte | src/pfs/tasks/TrackerServer.java:27 | readByte returns what ParseByte gives for the unread input, and leaves unread what that leaves |
| Streams.DataInputStream.ReadBoolean | src/pfs/messages/DiscoveryQueryMessage.java:24 | readBoolean behaves as ParseBoolean on the unread input |
| Streams.DataInputStream.ReadInt | src/pfs/messages/Message.java:18 | readInt behaves as ParseInt on the unread input |
| Streams.DataInputStream.ReadLong | src/pfs/messages/DiscoveryMessage.java:24 | readLong behaves as ParseLong on the unread input |
| Streams.DataInputStream.ReadFully | src/pfs/messages/Message.java:20 | readFully behaves as ParseFully on the unread input |
| Streams.DataInputStream.ReadUTF | src/pfs/messages/DiscoveryQueryMessage.java:25 | readUTF behaves as ParseUTF on the unread input |
| Message.LengthPrefixed | src/pfs/messages/Message.java:12-15 | writeBytes' output is 4 + \|b\| bytes long, and what follows the length is b itself |
| Message.ParseBytes | src/pfs/messages/Message.java:17-22 | readBytes returns exactly the bytes of one length-prefixed run. Fewer than 4 bytes, or fewer than the length says, is EOFException; a negative length is NegativeArraySizeException after the length is consumed |
| Message.ParseBytesOfLengthPrefixed | src/pfs/messages/Message.java:12-22 | readBytes after writeBytes(b) returns b and leaves what follows unread |
| Message.ParseAddress | src/pfs/messages/DiscoveryMessage.java:22 | getByAddress(readBytes) fails exactly when readBytes fails or the run is not 4 or 16 bytes long; on success the input was the address's length-prefixed bytes |
| Message.ParseAddressRejectsOtherLengths | src/pfs/messages/DiscoveryMessage.java:22 | a well-formed run of any length other than 4 or 16 is UnknownHostException |
| Message.ParseAddressOfLengthPrefixed | src/pfs/messages/DiscoveryMessage.java:15-22 | reading back a written address gives the address and leaves what follows unread |
| Message.WriteBytes | src/pfs/messages/Message.java:12-15 | writeBytes appends exactly the length-prefixed bytes |
| Message.ReadBytes | src/pfs/messages/Message.java:17-22 | readBytes behaves as ParseBytes on the unread input, including the negative-length and short-input failures |
| Message.ReadAddress | src/pfs/messages/DiscoveryMessage.java:22 | getByAddress(readBytes(in)) behaves as ParseAddress on the unread input |
| DiscoveryMessage.Encode | src/pfs/messages/DiscoveryMessage.java:14-18 | the header is 16 + \|initiator\| bytes: the initiator (length-prefixed), then sequenceId, then expiration |
| DiscoveryMessage.Decode | src/pfs/messages/DiscoveryMessage.java:21-25 | a successful header read consumed exactly the encoding of the header it returns |
| DiscoveryMessage.RoundTrip | src/pfs/messages/DiscoveryMessage.java:14-25 | reading back a written header gives every initiator, int sequenceId and long expiration unchanged, and leaves what follows unread |
| DiscoveryMessage.WriteData | src/pfs/messages/DiscoveryMessage.java:14-18 | writeData appends exactly the header's encoding |
| DiscoveryMessage.ReadData | src/pfs/messages/DiscoveryMessage.java:21-25 | readData behaves as Decode on the unread input, failing at the first field that fails |
| DiscoveryQueryMessage.Encode | src/pfs/messages/DiscoveryQueryMessage.java:13-18 | a query is 23 + \|initiator\| + \|filter\| bytes: the header, hopCount, the flag byte, the filter |
| DiscoveryQueryMessage.HeaderIsPrefix | src/pfs/messages/DiscoveryQueryMessage.java:14 | the query's encoding begins with its header's encoding, since super.writeData runs first |
| DiscoveryQueryMessage.Decode | src/pfs/messages/DiscoveryQueryMessage.java:21-26 | a successful read consumes the encoding of the query it returns with the flag byte replaced by the byte read; the flag is true exactly when that byte is nonzero, and the bytes are the encoding itself exactly when that byte was 0 or 1 |
| DiscoveryQueryMessage.FlagCanonical | src/pfs/messages/DiscoveryQueryMessage.java:16-24 | the byte after the header and hopCount is the flag; the input is the encoding with that byte replaced by the one read, and re-encoding reproduces the input exactly when that byte is 0 or 1 |
| DiscoveryQueryMessage.RoundTrip | src/pfs/messages/DiscoveryQueryMessage.java:13-26 | reading back a written query gives all six fields unchanged and leaves what follows unread |
| DiscoveryQueryMessage.FlagReadsAnyNonzeroAsTrue | src/pfs/messages/DiscoveryQueryMessage.java:24 | a flag byte of 2 decodes as true, so two different byte strings decode to the same query |
| DiscoveryQueryMessage.WriteData | src/pfs/messages/DiscoveryQueryMessage.java:13-18 | writeData appends exactly the query's encoding |
| DiscoveryQueryMessage.ReadData | src/pfs/messages/DiscoveryQueryMessage.java:21-26 | readData behaves as Decode on the unread input |
| DiscoveryReplyMessage.Encode | src/pfs/messages/DiscoveryReplyMessage.java:14-19 | a reply is 24 + \|initiator\| + \|terminator\| + \|keyword\| + \|fileName\| bytes: the header, terminator, keyword, fileName |
| DiscoveryReplyMessage.HeaderIsPrefix | src/pfs/messages/DiscoveryReplyMessage.java:15 | the reply's encoding begins with its header's encoding |
| DiscoveryReplyMessage.SharesHeaderWithQuery | src/pfs/messages/DiscoveryReplyMessage.java:15 | a reply and a query with the same initiator, sequenceId and expiration begin with the same header bytes |
| DiscoveryReplyMessage.Decode | src/pfs/messages/DiscoveryReplyMessage.java:22-27 | a successful reply read consumed exactly the encoding of the reply it returns |
| DiscoveryReplyMessage.Concatenated | src/pfs/messages/DiscoveryReplyMessage.java:14-19 | the encoding followed by more input splits into the fields in the order readData takes them |
| DiscoveryReplyMessage.RoundTrip | src/pfs/messages/DiscoveryReplyMessage.java:14-27 | reading back a written reply gives all six fields unchanged and leaves what follows unread |
| DiscoveryReplyMessage.WriteData | src/pfs/messages/DiscoveryReplyMessage.java:14-19 | writeData appends exactly the reply's encoding |
| DiscoveryReplyMessage.ReadData | src/pfs/messages/DiscoveryReplyMessage.java:22-27 | readData behaves as Decode on the unread input |
| HangupMessage.Encode | src/pfs/messages/HangupMessage.java:11-13 | a hangup is only the length-prefixed hand-off address, 4 + \|address\| bytes, with no header |
| HangupMessage.Decode | src/pfs/messages/HangupMessage.java:16-18 | reading a hangup fails exactly when reading one address fails, and on success consumed exactly its encoding |
| HangupMessage.RoundTrip | src/pfs/messages/HangupMessage.java:11-18 | reading back a written hangup gives the same address |
| HangupMessage.WriteData | src/pfs/messages/HangupMessage.java:11-13 | writeData appends exactly the hangup's encoding |
| HangupMessage.ReadData | src/pfs/messages/HangupMessage.java:16-18 | readData behaves as Decode on the unread input |
| PeerDiscoveryTransceiver.TypeOf | src/pfs/tasks/PeerDiscoveryTransceiver.java:72-81 | Query has tag 0, Reply tag 1 and Hangup tag 2, in both directions |
| PeerDiscoveryTransceiver.KindOf | src/pfs/tasks/PeerDiscoveryTransceiver.java:83-93 | getMessageOfType succeeds exactly for tags 0 to 2; any other tag is IllegalArgumentException |
| PeerDiscoveryTransceiver.KindOfTypeOf | src/pfs/tasks/PeerDiscoveryTransceiver.java:72-93 | getMessageOfType(getTypeOfMessage(m)) makes a message of m's own class |
| PeerDiscoveryTransceiver.TypeOfSeparatesKinds | src/pfs/tasks/PeerDiscoveryTransceiver.java:72-81 | two messages share a tag exactly when they are of the same class |
| PeerDiscoveryTransceiver.EncodeFrame | src/pfs/tasks/PeerDiscoveryTransceiver.java:99-101 | a frame is one tag byte followed by exactly the message's writeData bytes |
| PeerDiscoveryTransceiver.DecodeBody | src/pfs/tasks/PeerDiscoveryTransceiver.java:115-116 | readData into the message getMessageOfType made yields a message of that class |
| PeerDiscoveryTransceiver.DecodeFrame | src/pfs/tasks/PeerDiscoveryTransceiver.java:114-116 | an empty input is EOFException; a tag above 2 fails after consuming only the tag; a decoded message carries the tag it was read with |
| PeerDiscoveryTransceiver.FrameRoundTrip | src/pfs/tasks/PeerDiscoveryTransceiver.java:99-116 | the receiver decodes the sender's frame of any message back to that message and leaves what follows unread |
| PeerDiscoveryTransceiver.Receive | src/pfs/tasks/PeerDiscoveryTransceiver.java:114-118 | each received message is handed on paired with the link's peer address; failures are the frame decoder's |
| PeerDiscoveryTransceiver.UnknownTagStopsReceiver | src/pfs/tasks/PeerDiscoveryTransceiver.java:119-122 | an unknown tag is not an IOException, so it is not swallowed and ends the receive loop |
| PeerDiscoveryTransceiver.ClosedConnectionIsSwallowed | src/pfs/tasks/PeerDiscoveryTransceiver.java:121-122 | a closed connection is EOFException, which is swallowed, so the loop fails the same way again |
| PeerDiscoveryTransceiver.SendFrame | src/pfs/tasks/PeerDiscoveryTransceiver.java:99-101 | one pass of runSender appends exactly the message's frame |
| PeerDiscoveryTransceiver.ReceiveFrame | src/pfs/tasks/PeerDiscoveryTransceiver.java:114-118 | one pass of runReceiver behaves as Receive on the unread input |
| QueryRecords.ExpiredEarlier | src/pfs/tasks/Node.java:500-502 | whenever a later expiration has passed, every earlier one has too |
| QueryRecords.OrderedPairs | src/pfs/tasks/Node.java:52-56 | in the expiration queue no identity expires earlier than any identity ahead of it |
| QueryRecords.QueuedIsRecorded | src/pfs/tasks/Node.java:52-56 | every queued identity has a record, so the comparator's lookups never miss |
| QueryRecords.RecordedIsQueued | src/pfs/tasks/Node.java:228-229 | every record is in the expiration queue |
| QueryRecords.Insert | src/pfs/tasks/Node.java:229 | PriorityQueue.add makes the queue one longer and adds exactly the new identity to it |
| QueryRecords.InsertOrdered | src/pfs/tasks/Node.java:52-56 | adding an identity keeps the queue ordered by the records' expirations |
| QueryRecords.InsertStep | src/pfs/tasks/Node.java:52-56 | an identity expiring no later than the new one stays ahead of it |
| QueryRecords.OrderedUnderFreshRecord | src/pfs/tasks/Node.java:228 | recording a new identity does not disturb the order of those already queued |
| QueryRecords.RecordPreservesValid | src/pfs/tasks/Node.java:227-229 | put followed by add keeps the queue holding exactly the recorded identities, ordered by expiration |
| QueryRecords.KeysGrow | src/pfs/tasks/Node.java:228 | put of a new identity adds exactly that identity to the keys |
| QueryRecords.Unexpired | src/pfs/tasks/Node.java:500-502 | the records left at now are exactly those with an expiration that is not yet past |
| QueryRecords.TailMultiset | src/pfs/tasks/Node.java:171-172 | remove together with poll keeps the queue's identities equal to the table's keys |
| QueryRecords.ValidQueueTail | src/pfs/tasks/Node.java:171-172 | remove together with poll keeps the queue valid and ordered |
| QueryRecords.Purge | src/pfs/tasks/Node.java:168-176 | after the purge, the queue still holds exactly the recorded identities in order, and it is empty or its head has not expired |
| QueryRecords.PurgeLeavesSuffix | src/pfs/tasks/Node.java:168-176 | the purge leaves a suffix of the queue, and every identity it dropped had expired |
| QueryRecords.PurgeRemovesExactlyExpired | src/pfs/tasks/Node.java:168-176 | the purge forgets exactly the expired records, because none can hide behind an unexpired head |
| QueryRecords.UnexpiredWithout | src/pfs/tasks/Node.java:171 | removing an expired record does not change which records are unexpired |
| QueryRecords.NoneExpiredBehindHead | src/pfs/tasks/Node.java:173-174 | when the head of the queue has not expired, no record has |
| QueryRecords.PurgeIdempotent | src/pfs/tasks/Node.java:168-176 | purging twice at the same instant is purging once |
| QueryRecords.PurgeRemovesEarliestFirst | src/pfs/tasks/Node.java:168-176 | records are removed in non-decreasing expiration order, ahead of everything kept |
| Node.ReplyFor | src/pfs/tasks/Node.java:241-247 | the reply copies initiator, sequenceId and expiration from the query, names this node as terminator, and carries the entry's keyword and file name |
| Node.AppendToOneMore | src/pfs/tasks/Node.java:257-267 | one more pass of the per-neighbour loop appends to exactly one more outbox |
| Node.AppendToWithin | src/pfs/tasks/Node.java:257-267 | targets without an outbox make no difference to the loop |
| Node.Record | src/pfs/tasks/Node.java:226-229 | a fresh query gets exactly its record and its queue entry, the queue stays valid, and nothing else changes |
| Node.Answer | src/pfs/tasks/Node.java:231-268 | answering or forwarding leaves the records, the set of neighbours, the receive queue and the sequence counter unchanged |
| Node.HandleQuery | src/pfs/tasks/Node.java:219-269 | a recorded query changes nothing; a fresh one adds its record and queue entry; the queue stays valid, and the set of neighbours, the receive queue and the counter stay unchanged |
| Node.HandleReply | src/pfs/tasks/Node.java:271-281 | a reply changes no record, no set of neighbours, no receive queue and no counter |
| Node.HandleHangup | src/pfs/tasks/Node.java:197-210 | a hangup changes only the outboxes |
| Node.Dispatch | src/pfs/tasks/Node.java:181-211 | handling one message keeps the queue valid and leaves the receive queue and counter unchanged |
| Node.PurgeState | src/pfs/tasks/Node.java:168-176 | the purge changes only the records and the expiration queue, as Purge does |
| Node.Serve | src/pfs/tasks/Node.java:166-211 | one pass takes the head of the receive queue, keeps the queue valid and leaves the counter unchanged |
| Node.ServeEach | src/pfs/tasks/Node.java:165-216 | serving any number of messages keeps record table and queue in step |
| Node.ServeEachConsumesInOrder | src/pfs/tasks/Node.java:165-216 | serving consumes the receive queue from the front, at most one message per pass, and never touches the sequence counter |
| Node.ExpiredMessageChangesNothing | src/pfs/tasks/Node.java:183-186 | a query or reply whose expiration is strictly past changes no record, outbox or reply queue beyond the purge |
| Node.UnexpiredQueryIsHandled | src/pfs/tasks/Node.java:183-190 | a query expiring at this instant or later is handled, because the test is isAfter |
| Node.RedeliveryIsIdempotent | src/pfs/tasks/Node.java:220-224 | delivering the same query again, from any neighbour, changes nothing |
| Node.FreshQueryAddsOneRecord | src/pfs/tasks/Node.java:226-229 | a fresh query adds exactly one record with its expiration and arrival neighbour, overwrites none, and adds exactly its identity to the queue |
| Node.LocalMatchReplies | src/pfs/tasks/Node.java:239-253 | on a local match the reply goes to the reply queue when the neighbour is this node, and otherwise to that neighbour's outbox only; nothing is forwarded |
| Node.UnmatchedQueryIsForwarded | src/pfs/tasks/Node.java:254-268 | without a match and with hops left, every outbox but the arrival neighbour's gets the query with exactly one hop fewer, which is at least 0 |
| Node.ExhaustedQueryStops | src/pfs/tasks/Node.java:254 | without a match and with no hops left, nothing is sent |
| Node.ReplyIsRouted | src/pfs/tasks/Node.java:271-281 | a reply to this node's own query goes to its reply queue; any other goes only to the recorded neighbour's outbox; with no record the serving thread dies |
| Node.ReplyRetracesQuery | src/pfs/tasks/Node.java:227-280 | a reply to a query this node recorded goes back to the neighbour the query came from |
| Node.RecordSurvivesPurge | src/pfs/tasks/Node.java:168-176 | a record that has not expired survives the purge unchanged |
| Node.ReplyAfterHangupStopsServing | src/pfs/tasks/Node.java:207-280 | a reply that must go back to a neighbour who has since hung up finds no outbox, and the serving thread dies |
| Node.HangupHandsOff | src/pfs/tasks/Node.java:197-210 | after a hangup the departing neighbour has no outbox, the hand-off address has a new empty one unless it is this node, and every other outbox is untouched |
| Node.Handoff | src/pfs/tasks/Node.java:97-107 | with no neighbours, nextInt(0) throws IllegalArgumentException; otherwise every outbox gets the same hangup naming the chosen neighbour |
| Node.HandoffNamesANeighbour | src/pfs/tasks/Node.java:99-105 | the last message in each outbox is a hangup whose hand-off address is one of the neighbours |
| Node.RepliesFor | src/pfs/tasks/Node.java:157-158 | the filter never yields more replies than it is given |
| Node.RepliesForMembers | src/pfs/tasks/Node.java:157-158 | a reply is kept exactly when it was received and carries the round's sequence id |
| Node.RepliesForConcat | src/pfs/tasks/Node.java:154-159 | the filter keeps arrival order: filtering two batches one after the other is filtering them together |
| Node.IncrementWrapsModulo | src/pfs/tasks/Node.java:126 | nextSequenceId++ is one more modulo 2^32, read back as a two's-complement int |
| Node.HopCount | src/pfs/tasks/Node.java:123 | every round's budget lies between 1 and 16, the loop's bounds |
| Node.HopCountDoubles | src/pfs/tasks/Node.java:123 | the budgets start at 1 and double after every round |
| Node.HopCountNext | src/pfs/tasks/Node.java:123 | doubling the last budget, 16, gives 32, which ends the loop; doubling any other gives the next round's |
| Node.RoundQuery | src/pfs/tasks/Node.java:124-128 | a round's query carries this node, the round's sequence id, hop budget, flag and filter, and expires at now plus 250 ms per hop, truncated to the millisecond |
| Node.SequenceAfterShift | src/pfs/tasks/Node.java:125-126 | counting sequence ids from the next one is counting one more from this one |
| Node.SearchFrom | src/pfs/tasks/Node.java:115-136 | queryFile as a value: rounds with budgets 1 to 16, each taking the next sequence id, queueing its query on this node's own receive queue and draining the reply queue for that id; the first round with a reply ends the search, and after five rounds without one the result is null |
| Node.SearchRounds | src/pfs/tasks/Node.java:123-136 | a search runs n rounds with 1 <= n <= 5, consumes exactly n sequence ids, and returns null only after all five rounds |
| Node.SearchSendsRoundQueries | src/pfs/tasks/Node.java:123-129 | round i puts on the receive queue, as from this node, the query with the i-th sequence id and hop budget HopCount(i) |
| Node.SearchResultIsLastRound | src/pfs/tasks/Node.java:130-133 | a non-null result holds every reply of its last round with that round's id, none missing, and the last round's hop budget |
| Node.SearchStopsAtFirstReply | src/pfs/tasks/Node.java:130-133 | every round before the one that ends the search, and every round of a search that returns null, collected no reply with its sequence id |
| Node.SearchHopCounts | src/pfs/tasks/Node.java:123 | a non-null result reports hop budget 1, 2, 4, 8 or 16 |
| Node.SearchRepliesAnswerLastRound | src/pfs/tasks/Node.java:125-132 | every returned reply carries the last round's sequence id, the one consumed just before the counter's final value |
| Node.ParsePeerList | src/pfs/tasks/Node.java:331-337 | getRandomPeer's read: fewer than four bytes is EOFException; a successful read yields as many addresses as the count says, and none for a count of zero or less |
| Node.ParsePeers | src/pfs/tasks/Node.java:332-337 | n successful passes of the loop yield exactly n addresses |
| Node.ParsePeersFailureStops | src/pfs/tasks/Node.java:332-340 | an exception in any pass ends the loop, and later passes never run |
| Node.ParsePeersOfEntries | src/pfs/tasks/Node.java:332-337 | the loop reads the tracker's entries back into the tracker's list |
| Node.ParsePeersOfEntriesStep | src/pfs/tasks/Node.java:333-336 | one more entry written at the end of the list is one more address read at its end |
| Node.JoinReplyRoundTrip | src/pfs/tasks/TrackerServer.java:30-35 | getRandomPeer reads back exactly the list the tracker wrote, in order, and leaves what follows unread |
| Node.PickPeer | src/pfs/tasks/Node.java:341-346 | an empty list gives null; otherwise the result is one of the listed peers; a failed read is passed on |
| Node.JoinConnectsToRegisteredPeer | src/pfs/tasks/Node.java:322-347 | a joining node picks one of the registered members, or nobody when it is the first |
| Node.ReadPeers | src/pfs/tasks/Node.java:332-337 | the loop behaves as ParsePeers on the unread input, including a failure in any pass |
| Node.GetRandomPeer | src/pfs/tasks/Node.java:329-346 | getRandomPeer sends the join byte and returns the pick that PickPeer makes from the list the input holds |
| Node.Node.constructor | src/pfs/tasks/Node.java:43-62 | a new node has no records, no neighbours, nothing queued, and sequence counter 0 |
| Node.Node.AddLink | src/pfs/tasks/Node.java:283-288 | addLink gives the peer a new, empty outbox, replacing any old one, and changes nothing else |
| Node.Node.PurgeExpired | src/pfs/tasks/Node.java:168-176 | the loop makes exactly the Purge transition and keeps the queue valid |
| Node.Node.AppendToEach | src/pfs/tasks/Node.java:257-267 | the loop appends the message to the outbox of every target neighbour and to no other outbox |
| Node.Node.HandleQueryRequest | src/pfs/tasks/Node.java:219-269 | handleQueryRequest makes exactly the HandleQuery transition |
| Node.Node.AnswerQuery | src/pfs/tasks/Node.java:231-268 | the lookup, then the reply or forward, makes exactly the Answer transition |
| Node.Node.HandleReplyRequest | src/pfs/tasks/Node.java:271-281 | handleReplyRequest makes exactly the HandleReply transition |
| Node.Node.HandleHangupRequest | src/pfs/tasks/Node.java:197-210 | the Hangup branch makes exactly the HandleHangup transition |
| Node.Node.ServeRequest | src/pfs/tasks/Node.java:166-211 | one pass of the loop makes exactly the Serve transition and keeps the queue valid |
| Node.Node.ServeRequests | src/pfs/tasks/Node.java:165-216 | serveRequests over a sequence of instants makes exactly the ServeEach transition |
| Node.Node.HandoffNeighbors | src/pfs/tasks/Node.java:97-107 | handoffNeighbors makes exactly the Handoff transition and changes nothing else |
| Node.Node.CollectResultsFor | src/pfs/tasks/Node.java:139-163 | collectResultsFor returns the waiting and arriving replies that carry the round's id, in arrival order, and leaves the reply queue drained |
| Node.Node.SearchRound | src/pfs/tasks/Node.java:124-130 | one round consumes one sequence id, queues its query on this node's own receive queue, collects that round's replies and leaves the rest of the node's state as it was |
| Node.Node.QueryFile | src/pfs/tasks/Node.java:117-137 | queryFile returns what SearchFrom gives, queues exactly its round queries, and advances the counter by one per round |
| TrackerServer.WriteJoinReply | src/pfs/tasks/TrackerServer.java:30-35 | the reply is the count, then each registered address as a 4-byte length and its bytes, in list order |
| TrackerServer.Tracker.constructor | src/pfs/tasks/TrackerServer.java:15-18 | a new tracker has no members |
| TrackerServer.Tracker.HandleConnection | src/pfs/tasks/TrackerServer.java:21-41 | on request byte 0 it writes the list as it was, then appends the caller with no duplicate check; any other byte, or an empty request, writes nothing and changes nothing |

## Left out

- Threads, sockets and blocking queues are not modelled; outboxes, the receive queue and the reply queue are sequences. This covers the listener accept loops, the transceiver threads beyond one frame each, start, stop and interrupts, and Thread.sleep. The `poll` timeout of collectResultsFor is replaced by the replies that arrive during each round, given as `Environment.arrivals`.
- `Instant.now()` is a parameter. `serveRequests` reads the clock once per pass in the model: the purge and the expiry check see the same instant. `queryFile` reads one instant per round. Those instants are bounded by 2^62 ns so that every expiration fits a long.
- `Random` is replaced by inputs. `handoffNeighbors` takes the chosen neighbour, and when neighbours exist the caller must supply one of them. `getRandomPeer` takes a draw and picks `draw % n`. Order over the key set is not modelled.
- TimestampedReplyMessage's arrival time is not modelled, because it only matters for display. Replies are stored without it.
- Node.Node.QueryFile: the query object is one mutable object shared by every round and every outbox it was forwarded to. The model treats messages as immutable values, so the aliasing hazard is not captured.
- The file directory is an abstract function. The FileDirectory source is not part of this model, and its `searchByKeyword` and `searchByFileName` are not defined there.
- connectToPeer's socket can fail; the model treats every connection as made. The model also omits peerDiscoveryTable, the transceiver stop on hangup, notifyLeave, start and stop.
- transferFile, TransferServer and ListenerTask are left out because they only copy byte streams.
- Logging and the println calls are left out.
- Streams.ParseUTF: modified UTF-8 is not decoded, so a malformed encoding is not a UTFDataFormatException. Strings are byte sequences shorter than 65536 bytes.
- Streams.ParseByte: readByte returns Java's signed byte; the model reads it as 0..255. Every comparison the source makes is against 0, 1 or 2, so the outcome is the same.
- Message.ParseBytes: a length prefix too large for one Java array, such as 0x7FFFFFFF, makes `new byte[length]` throw OutOfMemoryError before any byte is read. That Error is not an IOException, so it would end the receiver thread. The model has no memory limit: it reads such a prefix as EOFException when the input is shorter, which the receiver swallows. The same holds for the address lengths getRandomPeer reads, where either exception ends the join.
- Message.ParseAddress: InetAddress canonicalisation and host names are left out. An address is its 4 or 16 bytes.
- QueryRecords.Insert: Java's PriorityQueue gives no order among equal expirations. The model queues a new identity after every identity with the same expiration.
- The serving thread dying of an uncaught NullPointerException is modelled as `serving` becoming false. Nothing further is served after that.
- The earlier versions of the transceiver and the discovery server are left out, and so are the command-line menus and the data scripts.
