/** The discovery engine of a node: it remembers the queries it has seen,
    answers the ones its directory can satisfy, floods the others on to its
    neighbours while their hop budget lasts, routes replies back along the
    path the query took, and runs expanding-ring searches of its own.

    Time, randomness and the file directory are inputs: `now` is an instant in
    nanoseconds since the epoch, a random choice is a given value, and the
    directory is a function from (isKeywordSearch, filter) to a file entry. */
module Node {
  import opened Streams
  import opened QueryRecords
  import opened PeerDiscoveryTransceiver
  import Q = DiscoveryQueryMessage
  import R = DiscoveryReplyMessage
  import H = HangupMessage
  import M = Message
  import TrackerServer

  datatype Option<T> = None | Some(value: T)

  /** FileDirectory.FileEntry, as far as discovery uses it. */
  datatype FileEntry = FileEntry(fileName: Utf, keyword: Utf)

  /** searchByKeyword when the flag is set, searchByFileName otherwise. */
  type Directory = (bool, Utf) -> Option<FileEntry>

  /** Node.SearchResult: the replies of the successful round and its hop budget. */
  datatype SearchResult = SearchResult(messages: seq<R.Reply>, hopCount: int32)

  /** An exception that ends the operation that threw it. */
  datatype Outcome = Done | Thrown(error: Error)

  /** The node's mutable state, as a value. `senderQueueMap` holds the messages
      waiting in each neighbour's outbox, `receiverQueue` the messages waiting
      to be served, `replyQueue` the replies waiting for this node's own
      searches. `serving` is false once the serveRequests thread has died of
      an uncaught exception. */
  datatype NodeState = NodeState(
    queryInfoMap: Records,
    expirationQueue: Queue,
    senderQueueMap: map<Address, seq<Message>>,
    receiverQueue: seq<Received>,
    replyQueue: seq<R.Reply>,
    nextSequenceId: int32,
    serving: bool)

  ghost predicate ValidState(st: NodeState) {
    ValidQueue(st.queryInfoMap, st.expirationQueue)
  }

  function IdOf(q: Q.Query): QueryMessageIdentifier {
    QueryMessageIdentifier(q.initiator, q.sequenceId)
  }

  function ReplyIdOf(r: R.Reply): QueryMessageIdentifier {
    QueryMessageIdentifier(r.initiator, r.sequenceId)
  }

  /** The reply handleQueryRequest builds for a local match: the query's
      header, this node as terminator, and the entry's keyword and name. */
  function ReplyFor(q: Q.Query, local: Address, entry: FileEntry): (r: R.Reply)
    ensures r.Header() == q.Header() && ReplyIdOf(r) == IdOf(q)
    ensures r.terminator == local && r.keyword == entry.keyword && r.fileName == entry.fileName
  {
    R.Reply(q.initiator, q.sequenceId, q.expiration, local, entry.keyword, entry.fileName)
  }

  /** The outboxes after `m` is appended to those of `targets`. */
  function AppendTo(outboxes: map<Address, seq<Message>>, targets: set<Address>, m: Message): map<Address, seq<Message>> {
    map k | k in outboxes :: if k in targets then outboxes[k] + [m] else outboxes[k]
  }

  /** One more target: the step of the loops that append to every outbox. */
  lemma AppendToOneMore(outboxes: map<Address, seq<Message>>, done: set<Address>, k: Address, m: Message)
    requires k in outboxes && k !in done
    ensures var a := AppendTo(outboxes, done, m);
      k in a && a[k := a[k] + [m]] == AppendTo(outboxes, done + {k}, m)
  {
  }

  /** Targets outside the map make no difference. */
  lemma AppendToWithin(outboxes: map<Address, seq<Message>>, targets: set<Address>, m: Message)
    ensures AppendTo(outboxes, outboxes.Keys * targets, m) == AppendTo(outboxes, targets, m)
  {
  }

  /** Appending to an outbox that exists, or stopping the serving thread with
      a NullPointerException when the neighbour has no outbox. */
  function SendTo(st: NodeState, neighbor: Address, m: Message): (r: NodeState)
    ensures neighbor in st.senderQueueMap ==>
      r == st.(senderQueueMap := st.senderQueueMap[neighbor := st.senderQueueMap[neighbor] + [m]])
    ensures neighbor !in st.senderQueueMap ==> r == st.(serving := false)
  {
    if neighbor in st.senderQueueMap then
      st.(senderQueueMap := st.senderQueueMap[neighbor := st.senderQueueMap[neighbor] + [m]])
    else st.(serving := false)
  }

  /** The first half of handleQueryRequest for a fresh query: record it with
      its arrival neighbour and queue it for expiry. */
  function Record(st: NodeState, q: Q.Query, neighbor: Address): (r: NodeState)
    requires ValidState(st) && IdOf(q) !in st.queryInfoMap
    ensures ValidState(r)
    ensures r.queryInfoMap == st.queryInfoMap[IdOf(q) := QueryMessageInfo(q.expiration, neighbor)]
    ensures r.expirationQueue == Insert(r.queryInfoMap, st.expirationQueue, IdOf(q), q.expiration)
    ensures r.(queryInfoMap := st.queryInfoMap, expirationQueue := st.expirationQueue) == st
  {
    var info := QueryMessageInfo(q.expiration, neighbor);
    var records := st.queryInfoMap[IdOf(q) := info];
    RecordPreservesValid(st.queryInfoMap, st.expirationQueue, IdOf(q), info);
    st.(queryInfoMap := records, expirationQueue := Insert(records, st.expirationQueue, IdOf(q), q.expiration))
  }

  /** The second half: answer the query from the directory (to this node's
      own reply queue if the query is its own, else back to the arrival
      neighbour), or, if hops remain, forward it with one hop fewer to every
      other neighbour. */
  function Answer(st: NodeState, local: Address, directory: Directory, q: Q.Query, neighbor: Address): (r: NodeState)
    ensures r.queryInfoMap == st.queryInfoMap && r.expirationQueue == st.expirationQueue
    ensures r.senderQueueMap.Keys == st.senderQueueMap.Keys
    ensures r.receiverQueue == st.receiverQueue && r.nextSequenceId == st.nextSequenceId
  {
    match directory(q.isKeywordSearch, q.filter)
    case Some(entry) =>
      var reply := ReplyFor(q, local, entry);
      if local == neighbor then st.(replyQueue := st.replyQueue + [reply])
      else SendTo(st, neighbor, Reply(reply))
    case None =>
      if q.hopCount > 0 then
        var forwarded := Query(q.(hopCount := q.hopCount - 1));
        st.(senderQueueMap := AppendTo(st.senderQueueMap, st.senderQueueMap.Keys - {neighbor}, forwarded))
      else st
  }

  /** handleQueryRequest. A query already recorded is ignored; a fresh one is
      recorded, then answered or forwarded. */
  function HandleQuery(st: NodeState, local: Address, directory: Directory, q: Q.Query, neighbor: Address): (r: NodeState)
    requires ValidState(st)
    ensures ValidState(r)
    ensures IdOf(q) in st.queryInfoMap ==> r == st
    ensures IdOf(q) !in st.queryInfoMap ==>
      r.queryInfoMap == st.queryInfoMap[IdOf(q) := QueryMessageInfo(q.expiration, neighbor)] &&
      r.expirationQueue == Insert(r.queryInfoMap, st.expirationQueue, IdOf(q), q.expiration)
    ensures r.senderQueueMap.Keys == st.senderQueueMap.Keys
    ensures r.receiverQueue == st.receiverQueue && r.nextSequenceId == st.nextSequenceId
  {
    if IdOf(q) in st.queryInfoMap then st
    else Answer(Record(st, q, neighbor), local, directory, q, neighbor)
  }

  /** handleReplyRequest. A reply to this node's own query goes to the reply
      queue; any other goes to the neighbour the query arrived from. A reply
      with no record, or whose neighbour has no outbox, is a
      NullPointerException that ends the serving thread. */
  function HandleReply(st: NodeState, local: Address, reply: R.Reply): (r: NodeState)
    ensures r.queryInfoMap == st.queryInfoMap && r.expirationQueue == st.expirationQueue
    ensures r.senderQueueMap.Keys == st.senderQueueMap.Keys
    ensures r.receiverQueue == st.receiverQueue && r.nextSequenceId == st.nextSequenceId
  {
    if local == reply.initiator then st.(replyQueue := st.replyQueue + [reply])
    else if ReplyIdOf(reply) !in st.queryInfoMap then st.(serving := false)
    else SendTo(st, st.queryInfoMap[ReplyIdOf(reply)].neighborAddress, Reply(reply))
  }

  /** The Hangup branch of serveRequests: drop the departing neighbour's
      outbox and, unless the hand-off address is this node, connect to it,
      which gives it a new, empty outbox. */
  function HandleHangup(st: NodeState, local: Address, h: H.Hangup, neighbor: Address): (r: NodeState)
    ensures r.queryInfoMap == st.queryInfoMap && r.expirationQueue == st.expirationQueue
    ensures r.receiverQueue == st.receiverQueue && r.replyQueue == st.replyQueue
    ensures r.nextSequenceId == st.nextSequenceId && r.serving == st.serving
  {
    var removed := st.senderQueueMap - {neighbor};
    st.(senderQueueMap := if local != h.handoffAddress then removed[h.handoffAddress := []] else removed)
  }

  /** The body of serveRequests after the purge: a query or reply whose
      expiration instant is already past is dropped; anything else is
      handled. */
  function Dispatch(st: NodeState, local: Address, directory: Directory, received: Received, now: int): (r: NodeState)
    requires ValidState(st)
    ensures ValidState(r)
    ensures r.receiverQueue == st.receiverQueue && r.nextSequenceId == st.nextSequenceId
  {
    match received.message
    case Query(q) => if IsAfter(now, q.expiration) then st else HandleQuery(st, local, directory, q, received.neighbor)
    case Reply(reply) => if IsAfter(now, reply.expiration) then st else HandleReply(st, local, reply)
    case Hangup(h) => HandleHangup(st, local, h, received.neighbor)
  }

  /** The state after the purge at the top of serveRequests' loop. */
  function PurgeState(st: NodeState, now: int): (r: NodeState)
    requires ValidState(st)
    ensures ValidState(r)
    ensures r.queryInfoMap == Purge(st.queryInfoMap, st.expirationQueue, now).0
    ensures r.expirationQueue == Purge(st.queryInfoMap, st.expirationQueue, now).1
    ensures r.(queryInfoMap := st.queryInfoMap, expirationQueue := st.expirationQueue) == st
  {
    var p := Purge(st.queryInfoMap, st.expirationQueue, now);
    st.(queryInfoMap := p.0, expirationQueue := p.1)
  }

  /** One pass of serveRequests' loop: purge, take the next received message,
      handle it. */
  function Serve(st: NodeState, local: Address, directory: Directory, now: int): (r: NodeState)
    requires ValidState(st) && st.receiverQueue != []
    ensures ValidState(r)
    ensures r.receiverQueue == st.receiverQueue[1..] && r.nextSequenceId == st.nextSequenceId
  {
    var purged := PurgeState(st, now);
    Dispatch(purged.(receiverQueue := st.receiverQueue[1..]), local, directory, st.receiverQueue[0], now)
  }

  /** serveRequests over a sequence of instants, one per pass; see
      Node.ServeRequests. */
  function ServeEach(st: NodeState, local: Address, directory: Directory, times: seq<int>): (r: NodeState)
    requires ValidState(st)
    ensures ValidState(r)
    decreases |times|
  {
    if times == [] || !st.serving then st
    else if st.receiverQueue == [] then PurgeState(st, times[0])
    else ServeEach(Serve(st, local, directory, times[0]), local, directory, times[1..])
  }

  /** Serving consumes the receive queue from the front, one message per
      pass, and never touches the sequence counter. */
  lemma {:induction false} ServeEachConsumesInOrder(st: NodeState, local: Address, directory: Directory, times: seq<int>)
    requires ValidState(st)
    ensures var r := ServeEach(st, local, directory, times);
      |st.receiverQueue| - |times| <= |r.receiverQueue| <= |st.receiverQueue| &&
      r.receiverQueue == st.receiverQueue[|st.receiverQueue| - |r.receiverQueue|..] &&
      r.nextSequenceId == st.nextSequenceId
    decreases |times|
  {
    if times != [] && st.serving && st.receiverQueue != [] {
      var next := Serve(st, local, directory, times[0]);
      assert next.receiverQueue == st.receiverQueue[1..] && next.nextSequenceId == st.nextSequenceId;
      ServeEachConsumesInOrder(next, local, directory, times[1..]);
      var r := ServeEach(next, local, directory, times[1..]);
      assert ServeEach(st, local, directory, times) == r;
      var j := |next.receiverQueue| - |r.receiverQueue|;
      assert r.receiverQueue == st.receiverQueue[1..][j..];
      assert st.receiverQueue[1..][j..] == st.receiverQueue[j + 1..];
    }
  }

  // ---------------------------------------------------------------------------
  // What serving a message promises.

  /** A query or reply whose expiration instant is past changes nothing but
      the purge and the receive queue: no record, no outbox, no reply queue.
      The comparison is strict, so a message expiring at this very instant is
      still served. */
  lemma ExpiredMessageChangesNothing(st: NodeState, local: Address, directory: Directory, now: int)
    requires ValidState(st) && st.receiverQueue != []
    requires var m := st.receiverQueue[0].message;
      (m.Query? && IsAfter(now, m.query.expiration)) || (m.Reply? && IsAfter(now, m.reply.expiration))
    ensures Serve(st, local, directory, now) == PurgeState(st, now).(receiverQueue := st.receiverQueue[1..])
  {
  }

  /** A query whose expiration instant is not past is handled. */
  lemma UnexpiredQueryIsHandled(st: NodeState, local: Address, directory: Directory, now: int)
    requires ValidState(st) && st.receiverQueue != [] && st.receiverQueue[0].message.Query?
    requires now <= st.receiverQueue[0].message.query.expiration * 1_000_000
    ensures var purged := PurgeState(st, now).(receiverQueue := st.receiverQueue[1..]);
      Serve(st, local, directory, now) ==
        HandleQuery(purged, local, directory, st.receiverQueue[0].message.query, st.receiverQueue[0].neighbor)
  {
  }

  /** Delivering the same query twice, from any neighbours, is delivering it once. */
  lemma RedeliveryIsIdempotent(st: NodeState, local: Address, directory: Directory, q: Q.Query, n1: Address, n2: Address)
    requires ValidState(st)
    ensures var once := HandleQuery(st, local, directory, q, n1);
      HandleQuery(once, local, directory, q, n2) == once
  {
  }

  /** A fresh query adds exactly one record and one queue entry, and leaves
      every other record as it was. */
  lemma FreshQueryAddsOneRecord(st: NodeState, local: Address, directory: Directory, q: Q.Query, neighbor: Address)
    requires ValidState(st) && IdOf(q) !in st.queryInfoMap
    ensures var r := HandleQuery(st, local, directory, q, neighbor);
      r.queryInfoMap.Keys == st.queryInfoMap.Keys + {IdOf(q)} &&
      r.queryInfoMap[IdOf(q)] == QueryMessageInfo(q.expiration, neighbor) &&
      (forall id :: id in st.queryInfoMap ==> r.queryInfoMap[id] == st.queryInfoMap[id]) &&
      multiset(r.expirationQueue) == multiset(st.expirationQueue) + multiset{IdOf(q)}
  {
  }

  /** A local match answers the query and does not forward it: the reply goes
      to this node's reply queue if the query came from this node, and
      otherwise to the arrival neighbour's outbox only. */
  lemma LocalMatchReplies(st: NodeState, local: Address, directory: Directory, q: Q.Query, neighbor: Address)
    requires ValidState(st) && IdOf(q) !in st.queryInfoMap
    requires directory(q.isKeywordSearch, q.filter).Some?
    ensures var reply := ReplyFor(q, local, directory(q.isKeywordSearch, q.filter).value);
      var r := HandleQuery(st, local, directory, q, neighbor);
      (local == neighbor ==>
        r.replyQueue == st.replyQueue + [reply] && r.senderQueueMap == st.senderQueueMap && r.serving == st.serving) &&
      (local != neighbor && neighbor in st.senderQueueMap ==>
        r.replyQueue == st.replyQueue &&
        r.senderQueueMap == st.senderQueueMap[neighbor := st.senderQueueMap[neighbor] + [Reply(reply)]] &&
        r.serving == st.serving) &&
      (local != neighbor && neighbor !in st.senderQueueMap ==>
        r.replyQueue == st.replyQueue && r.senderQueueMap == st.senderQueueMap && !r.serving)
  {
  }

  /** With no local match and hops left, every outbox except the arrival
      neighbour's gets the query with exactly one hop fewer, and nothing
      else changes but the new record. */
  lemma UnmatchedQueryIsForwarded(st: NodeState, local: Address, directory: Directory, q: Q.Query, neighbor: Address)
    requires ValidState(st) && IdOf(q) !in st.queryInfoMap
    requires directory(q.isKeywordSearch, q.filter).None? && q.hopCount > 0
    ensures var r := HandleQuery(st, local, directory, q, neighbor);
      var forwarded := q.(hopCount := q.hopCount - 1);
      forwarded.hopCount >= 0 &&
      r.senderQueueMap.Keys == st.senderQueueMap.Keys &&
      (forall k :: k in st.senderQueueMap ==>
        r.senderQueueMap[k] == if k == neighbor then st.senderQueueMap[k] else st.senderQueueMap[k] + [Query(forwarded)]) &&
      r.replyQueue == st.replyQueue && r.serving == st.serving
  {
  }

  /** With no local match and no hops left, the query is only recorded. */
  lemma ExhaustedQueryStops(st: NodeState, local: Address, directory: Directory, q: Q.Query, neighbor: Address)
    requires ValidState(st) && IdOf(q) !in st.queryInfoMap
    requires directory(q.isKeywordSearch, q.filter).None? && q.hopCount <= 0
    ensures var r := HandleQuery(st, local, directory, q, neighbor);
      r.senderQueueMap == st.senderQueueMap && r.replyQueue == st.replyQueue && r.serving == st.serving
  {
  }

  /** A reply goes to exactly one place: this node's reply queue when it is
      the initiator, else the outbox of the neighbour its query came from. */
  lemma ReplyIsRouted(st: NodeState, local: Address, reply: R.Reply)
    ensures var r := HandleReply(st, local, reply);
      (local == reply.initiator ==>
        r == st.(replyQueue := st.replyQueue + [reply])) &&
      (local != reply.initiator && ReplyIdOf(reply) in st.queryInfoMap
        && st.queryInfoMap[ReplyIdOf(reply)].neighborAddress in st.senderQueueMap ==>
        var n := st.queryInfoMap[ReplyIdOf(reply)].neighborAddress;
        r == st.(senderQueueMap := st.senderQueueMap[n := st.senderQueueMap[n] + [Reply(reply)]])) &&
      (local != reply.initiator && ReplyIdOf(reply) !in st.queryInfoMap ==>
        r == st.(serving := false))
  {
  }

  /** Reverse-path routing: a reply to a query this node forwarded goes back
      to the neighbour the query came from. */
  lemma {:induction false} ReplyRetracesQuery(st: NodeState, local: Address, directory: Directory,
                                              q: Q.Query, neighbor: Address, reply: R.Reply)
    requires ValidState(st) && IdOf(q) !in st.queryInfoMap
    requires ReplyIdOf(reply) == IdOf(q) && q.initiator != local
    requires neighbor in st.senderQueueMap
    ensures var forwarded := HandleQuery(st, local, directory, q, neighbor);
      var r := HandleReply(forwarded, local, reply);
      neighbor in forwarded.senderQueueMap &&
      r.senderQueueMap == forwarded.senderQueueMap[neighbor := forwarded.senderQueueMap[neighbor] + [Reply(reply)]]
  {
    var forwarded := HandleQuery(st, local, directory, q, neighbor);
    FreshQueryAddsOneRecord(st, local, directory, q, neighbor);
    assert forwarded.queryInfoMap[ReplyIdOf(reply)].neighborAddress == neighbor;
  }

  /** A record outlives every purge before its expiration instant, so a reply
      that is not yet expired still finds the neighbour to go back to. */
  lemma RecordSurvivesPurge(st: NodeState, id: QueryMessageIdentifier, now: int)
    requires ValidState(st) && id in st.queryInfoMap && !IsExpired(st.queryInfoMap[id], now)
    ensures var p := PurgeState(st, now); id in p.queryInfoMap && p.queryInfoMap[id] == st.queryInfoMap[id]
  {
    PurgeRemovesExactlyExpired(st.queryInfoMap, st.expirationQueue, now);
  }

  /** A reply that must go back to a neighbour who has since hung up finds no
      outbox, and the NullPointerException ends the serving thread. */
  lemma ReplyAfterHangupStopsServing(st: NodeState, local: Address, directory: Directory,
                                     q: Q.Query, neighbor: Address, h: H.Hangup, reply: R.Reply)
    requires ValidState(st) && IdOf(q) !in st.queryInfoMap
    requires ReplyIdOf(reply) == IdOf(q) && reply.initiator != local
    requires h.handoffAddress != neighbor
    ensures var recorded := HandleQuery(st, local, directory, q, neighbor);
      var hungUp := HandleHangup(recorded, local, h, neighbor);
      !HandleReply(hungUp, local, reply).serving
  {
    FreshQueryAddsOneRecord(st, local, directory, q, neighbor);
  }

  /** After a hangup the departing neighbour has no outbox, the hand-off
      address has an empty one unless it is this node, and every other
      outbox is untouched. */
  lemma HangupHandsOff(st: NodeState, local: Address, h: H.Hangup, neighbor: Address)
    ensures var r := HandleHangup(st, local, h, neighbor).senderQueueMap;
      (local != h.handoffAddress ==>
        r.Keys == st.senderQueueMap.Keys - {neighbor} + {h.handoffAddress} && r[h.handoffAddress] == []) &&
      (local == h.handoffAddress ==> r.Keys == st.senderQueueMap.Keys - {neighbor}) &&
      (forall k :: k in r && k != h.handoffAddress ==> r[k] == st.senderQueueMap[k])
  {
  }

  // ---------------------------------------------------------------------------
  // Handing off on departure.

  /** handoffNeighbors, with `handoff` the neighbour the random draw picked:
      with no neighbours the draw is nextInt(0), an IllegalArgumentException;
      otherwise every outbox gets the same Hangup naming it. */
  function Handoff(outboxes: map<Address, seq<Message>>, handoff: Address): (r: (map<Address, seq<Message>>, Outcome))
    requires outboxes == map[] || handoff in outboxes
    ensures outboxes == map[] ==> r == (outboxes, Thrown(IllegalArgument))
    ensures outboxes != map[] ==>
      r.1 == Done && r.0.Keys == outboxes.Keys &&
      forall k :: k in outboxes ==> r.0[k] == outboxes[k] + [Hangup(H.Hangup(handoff))]
  {
    if outboxes == map[] then (outboxes, Thrown(IllegalArgument))
    else (AppendTo(outboxes, outboxes.Keys, Hangup(H.Hangup(handoff))), Done)
  }

  /** The hand-off address every neighbour is told is itself one of them. */
  lemma HandoffNamesANeighbour(outboxes: map<Address, seq<Message>>, handoff: Address, k: Address)
    requires handoff in outboxes && k in outboxes
    ensures var r := Handoff(outboxes, handoff).0;
      |r[k]| > 0 && r[k][|r[k]| - 1].Hangup? && r[k][|r[k]| - 1].hangup.handoffAddress in outboxes
  {
  }

  // ---------------------------------------------------------------------------
  // Expanding-ring search.

  /** collectResultsFor's filter: the replies carrying the round's sequence
      id, in arrival order. */
  function RepliesFor(replies: seq<R.Reply>, sequenceId: int32): (r: seq<R.Reply>)
    ensures |r| <= |replies|
  {
    if replies == [] then []
    else (if replies[0].sequenceId == sequenceId then [replies[0]] else []) + RepliesFor(replies[1..], sequenceId)
  }

  /** The filter keeps exactly the replies with the round's id. */
  lemma {:induction false} RepliesForMembers(replies: seq<R.Reply>, sequenceId: int32, x: R.Reply)
    ensures x in RepliesFor(replies, sequenceId) <==> x in replies && x.sequenceId == sequenceId
    decreases |replies|
  {
    if replies != [] {
      RepliesForMembers(replies[1..], sequenceId, x);
      assert replies == [replies[0]] + replies[1..];
    }
  }

  /** The filter takes the head, if it matches, before the rest. */
  lemma RepliesForHead(replies: seq<R.Reply>, sequenceId: int32)
    requires replies != []
    ensures RepliesFor(replies, sequenceId) ==
      (if replies[0].sequenceId == sequenceId then [replies[0]] else []) + RepliesFor(replies[1..], sequenceId)
  {
  }

  /** The filter keeps arrival order: filtering two batches one after the
      other is filtering them together. */
  lemma {:induction false} RepliesForConcat(a: seq<R.Reply>, b: seq<R.Reply>, sequenceId: int32)
    ensures RepliesFor(a + b, sequenceId) == RepliesFor(a, sequenceId) + RepliesFor(b, sequenceId)
    decreases |a|
  {
    if a != [] {
      var head := if a[0].sequenceId == sequenceId then [a[0]] else [];
      assert (a + b)[0] == a[0] && (a + b)[1..] == a[1..] + b;
      RepliesForConcat(a[1..], b, sequenceId);
      assert RepliesFor(a + b, sequenceId) == head + RepliesFor(a[1..] + b, sequenceId);
      assert RepliesFor(a, sequenceId) == head + RepliesFor(a[1..], sequenceId);
      Associative(head, RepliesFor(a[1..], sequenceId), RepliesFor(b, sequenceId));
    } else {
      assert a + b == b;
    }
  }

  /** Java's int increment, wrapping at the top. */
  function Increment(x: int32): int32 {
    if x == 0x7FFF_FFFF then -0x8000_0000 else x + 1
  }

  /** The increment is one more, modulo 2^32, in the two's complement the
      wire format uses for an int. */
  lemma IncrementWrapsModulo(x: int32)
    ensures Increment(x) == Signed(4, (Unsigned(4, x) + 1) % Pow256(4))
  {
    Pow256Widths();
  }

  /** The hop budget of round k. */
  function HopCount(k: nat): (r: int32)
    requires k < 5
    ensures 1 <= r <= 16
  {
    if k == 0 then 1 else if k == 1 then 2 else if k == 2 then 4 else if k == 3 then 8 else 16
  }

  /** The budgets are those of queryFile's loop, which starts at 1 and
      doubles the budget after every round. */
  lemma HopCountDoubles(k: nat)
    requires k < 5
    ensures HopCount(0) == 1 && (k > 0 ==> HopCount(k) == 2 * HopCount(k - 1))
  {
  }

  /** The budget after round k, as the loop computes it. */
  lemma HopCountNext(k: nat)
    requires k < 5
    ensures HopCount(k) * 2 == if k < 4 then HopCount(k + 1) else 32
  {
    if k < 4 {
      HopCountDoubles(k + 1);
    }
  }

  /** Instants the search reads from the clock, nanoseconds since the epoch;
      the bound keeps every derived millisecond count a long. */
  predicate IsInstant(now: int) {
    0 <= now < 0x4000_0000_0000_0000
  }

  /** The query of one round, sent at `now` with sequence id `sequenceId`:
      its expiration is `now` plus 250 ms per hop, truncated to the
      millisecond. */
  function RoundQuery(local: Address, sequenceId: int32, now: int, hopCount: int32,
                      isKeywordSearch: bool, filter: Utf): (q: Q.Query)
    requires IsInstant(now) && 1 <= hopCount <= 16
    ensures q.initiator == local && q.sequenceId == sequenceId && q.hopCount == hopCount
    ensures q.isKeywordSearch == isKeywordSearch && q.filter == filter
    ensures q.expiration * 1_000_000 <= now + hopCount * 250_000_000 < (q.expiration + 1) * 1_000_000
  {
    Q.Query(local, sequenceId, (now + hopCount * 250_000_000) / 1_000_000, hopCount, isKeywordSearch, filter)
  }

  /** What a search looks for and who asks. */
  datatype Request = Request(local: Address, isKeywordSearch: bool, filter: Utf)

  /** What a search meets: one clock reading per round, and the replies that
      reach the reply queue during each round before its deadline. */
  datatype Environment = Environment(clock: seq<int>, arrivals: seq<seq<R.Reply>>)

  predicate IsEnvironment(env: Environment) {
    |env.clock| == 5 && |env.arrivals| == 5 && forall k :: 0 <= k < 5 ==> IsInstant(env.clock[k])
  }

  /** What round k with sequence id x puts on this node's own receive queue. */
  function RoundMessage(req: Request, x: int32, env: Environment, k: nat): Received
    requires IsEnvironment(env) && k < 5
  {
    Received(Query(RoundQuery(req.local, x, env.clock[k], HopCount(k), req.isKeywordSearch, req.filter)), req.local)
  }

  /** What a search leaves behind: the queries it put on the receive queue,
      the next free sequence id, and its result. The reply queue is always
      left drained. */
  datatype Search = Search(sent: seq<Received>, nextSequenceId: int32, result: Option<SearchResult>)

  /** queryFile from round k on, the next free sequence id being x and the
      reply queue holding `pending`: each round takes a fresh sequence id,
      puts its query on the receive queue, then drains the reply queue
      keeping the replies with that id; the first round with any reply ends
      the search. */
  function SearchFrom(req: Request, env: Environment, x: int32, pending: seq<R.Reply>, k: nat): Search
    requires IsEnvironment(env) && k <= 5
    decreases 5 - k
  {
    if k == 5 then Search([], x, None)
    else
      var replies := RepliesFor(pending + env.arrivals[k], x);
      if replies != [] then
        Search([RoundMessage(req, x, env, k)], Increment(x), Some(SearchResult(replies, HopCount(k))))
      else
        var rest := SearchFrom(req, env, Increment(x), [], k + 1);
        Search([RoundMessage(req, x, env, k)] + rest.sent, rest.nextSequenceId, rest.result)
  }

  /** One round of the search, and what follows it. */
  lemma SearchFromRound(req: Request, env: Environment, x: int32, pending: seq<R.Reply>, k: nat)
    requires IsEnvironment(env) && k < 5
    ensures var replies := RepliesFor(pending + env.arrivals[k], x);
      var s := SearchFrom(req, env, x, pending, k);
      var rest := SearchFrom(req, env, Increment(x), [], k + 1);
      (replies != [] ==>
        s == Search([RoundMessage(req, x, env, k)], Increment(x), Some(SearchResult(replies, HopCount(k))))) &&
      (replies == [] ==> s == Search([RoundMessage(req, x, env, k)] + rest.sent, rest.nextSequenceId, rest.result))
  {
  }

  /** What is left of a search after one more round, as queryFile's loop
      sees it: `sent` the queries of the rounds before. */
  lemma SearchStep(req: Request, env: Environment, x: int32, pending: seq<R.Reply>, k: nat,
                   sent: seq<Received>, search: Search)
    requires IsEnvironment(env) && k < 5
    requires var rest := SearchFrom(req, env, x, pending, k);
      search == Search(sent + rest.sent, rest.nextSequenceId, rest.result)
    ensures var replies := RepliesFor(pending + env.arrivals[k], x);
      var sent' := sent + [RoundMessage(req, x, env, k)];
      var rest := SearchFrom(req, env, Increment(x), [], k + 1);
      (replies != [] ==> search == Search(sent', Increment(x), Some(SearchResult(replies, HopCount(k))))) &&
      (replies == [] ==> search == Search(sent' + rest.sent, rest.nextSequenceId, rest.result))
  {
    SearchFromRound(req, env, x, pending, k);
    Associative(sent, [RoundMessage(req, x, env, k)], SearchFrom(req, env, Increment(x), [], k + 1).sent);
  }

  /** The sequence id `n` increments after `x`. */
  function SequenceAfter(x: int32, n: nat): int32 {
    if n == 0 then x else Increment(SequenceAfter(x, n - 1))
  }

  /** Counting increments from the next value. */
  lemma {:induction false} SequenceAfterShift(x: int32, n: nat)
    ensures SequenceAfter(Increment(x), n) == SequenceAfter(x, n + 1)
    decreases n
  {
    if n > 0 {
      SequenceAfterShift(x, n - 1);
    }
  }

  /** How long a search from round k runs: some number n ≥ 1 of rounds,
      consuming n sequence ids; it gives up only after the last round. */
  lemma {:induction false} SearchRounds(req: Request, env: Environment, x: int32, pending: seq<R.Reply>, k: nat)
    requires IsEnvironment(env) && k < 5
    ensures var s := SearchFrom(req, env, x, pending, k);
      1 <= |s.sent| <= 5 - k &&
      s.nextSequenceId == SequenceAfter(x, |s.sent|) &&
      (s.result.None? ==> |s.sent| == 5 - k)
    decreases 5 - k
  {
    if RepliesFor(pending + env.arrivals[k], x) == [] && k < 4 {
      SearchRounds(req, env, Increment(x), [], k + 1);
      SequenceAfterShift(x, |SearchFrom(req, env, Increment(x), [], k + 1).sent|);
    }
  }

  /** What a search puts on the receive queue: round i's query, with hop
      budget HopCount(k + i) and the i-th sequence id after x. */
  lemma {:induction false} SearchSendsRoundQueries(req: Request, env: Environment, x: int32, pending: seq<R.Reply>,
                                                   k: nat, i: nat)
    requires IsEnvironment(env) && k < 5
    requires i < |SearchFrom(req, env, x, pending, k).sent|
    ensures k + i < 5 && SearchFrom(req, env, x, pending, k).sent[i] == RoundMessage(req, SequenceAfter(x, i), env, k + i)
    decreases 5 - k
  {
    if i > 0 {
      var rest := SearchFrom(req, env, Increment(x), [], k + 1);
      assert SearchFrom(req, env, x, pending, k).sent == [RoundMessage(req, x, env, k)] + rest.sent;
      SearchSendsRoundQueries(req, env, Increment(x), [], k + 1, i - 1);
      SequenceAfterShift(x, i - 1);
    }
  }

  /** What a successful search returns: the replies of its last round, none
      missing, all carrying that round's sequence id, with that round's hop
      budget. */
  lemma {:induction false} SearchResultIsLastRound(req: Request, env: Environment, x: int32, pending: seq<R.Reply>, k: nat)
    requires IsEnvironment(env) && k < 5
    ensures var s := SearchFrom(req, env, x, pending, k);
      var n := |s.sent|;
      s.result.Some? ==>
        1 <= n <= 5 - k &&
        s.result.value.hopCount == HopCount(k + n - 1) && s.result.value.messages != [] &&
        s.result.value.messages ==
          RepliesFor((if n == 1 then pending else []) + env.arrivals[k + n - 1], SequenceAfter(x, n - 1))
    decreases 5 - k
  {
    SearchFromRound(req, env, x, pending, k);
    var s := SearchFrom(req, env, x, pending, k);
    var replies := RepliesFor(pending + env.arrivals[k], x);
    if replies != [] {
      assert |s.sent| == 1 && s.result == Some(SearchResult(replies, HopCount(k)));
    } else if k < 4 {
      SearchResultIsLastRound(req, env, Increment(x), [], k + 1);
      var rest := SearchFrom(req, env, Increment(x), [], k + 1);
      assert s.result == rest.result && |s.sent| == |rest.sent| + 1;
      if rest.result.Some? {
        SequenceAfterShift(x, |rest.sent| - 1);
      }
    } else {
      assert s.result == None;
    }
  }

  /** queryFile returns at the first round that collects a reply: every round
      before the last, and every round of a search that gives up, collected
      none. */
  lemma {:induction false} SearchStopsAtFirstReply(req: Request, env: Environment, x: int32, pending: seq<R.Reply>,
                                                   k: nat, i: nat)
    requires IsEnvironment(env) && k < 5
    requires var s := SearchFrom(req, env, x, pending, k);
      i < |s.sent| && (i < |s.sent| - 1 || s.result.None?)
    ensures k + i < 5 &&
      RepliesFor((if i == 0 then pending else []) + env.arrivals[k + i], SequenceAfter(x, i)) == []
    decreases 5 - k
  {
    SearchFromRound(req, env, x, pending, k);
    if i > 0 {
      SearchStopsAtFirstReply(req, env, Increment(x), [], k + 1, i - 1);
      SequenceAfterShift(x, i - 1);
    }
  }

  /** A successful search reports one of the five hop budgets. */
  lemma SearchHopCounts(req: Request, env: Environment, x: int32, pending: seq<R.Reply>)
    requires IsEnvironment(env)
    ensures var s := SearchFrom(req, env, x, pending, 0);
      s.result.Some? ==> s.result.value.hopCount in {1, 2, 4, 8, 16}
  {
    SearchResultIsLastRound(req, env, x, pending, 0);
    assert HopCount(1) == 2 && HopCount(2) == 4 && HopCount(3) == 8 && HopCount(4) == 16;
  }

  /** Every reply a successful search returns answers its last round's query,
      whose sequence id is the one the caller then sees consumed last. */
  lemma SearchRepliesAnswerLastRound(req: Request, env: Environment, x: int32, pending: seq<R.Reply>, m: R.Reply)
    requires IsEnvironment(env)
    ensures var s := SearchFrom(req, env, x, pending, 0);
      s.result.Some? && m in s.result.value.messages ==>
        m.sequenceId == SequenceAfter(x, |s.sent| - 1) && Increment(m.sequenceId) == s.nextSequenceId
  {
    SearchResultIsLastRound(req, env, x, pending, 0);
    SearchRounds(req, env, x, pending, 0);
    var s := SearchFrom(req, env, x, pending, 0);
    if s.result.Some? {
      var n := |s.sent|;
      RepliesForMembers((if n == 1 then pending else []) + env.arrivals[n - 1], SequenceAfter(x, n - 1), m);
    }
  }

  // ---------------------------------------------------------------------------
  // The node itself.

  class Node {
    const localAddress: Address
    const directory: Directory
    var queryInfoMap: Records
    var expirationQueue: Queue
    var senderQueueMap: map<Address, seq<Message>>
    var receiverQueue: seq<Received>
    var replyQueue: seq<R.Reply>
    var nextSequenceId: int32
    var serving: bool

    function State(): NodeState
      reads this
    {
      NodeState(queryInfoMap, expirationQueue, senderQueueMap, receiverQueue, replyQueue, nextSequenceId, serving)
    }

    ghost predicate Valid()
      reads this
    {
      ValidState(State())
    }

    /** A node with no neighbours, no records and nothing queued. */
    constructor (localAddress: Address, directory: Directory)
      ensures this.localAddress == localAddress && this.directory == directory
      ensures State() == NodeState(map[], [], map[], [], [], 0, true) && Valid()
    {
      this.localAddress := localAddress;
      this.directory := directory;
      queryInfoMap := map[];
      expirationQueue := [];
      senderQueueMap := map[];
      receiverQueue := [];
      replyQueue := [];
      nextSequenceId := 0;
      serving := true;
    }

    /** addLink: a new, empty outbox for the peer, replacing any it had. */
    method AddLink(peer: Address)
      modifies this
      ensures State() == old(State()).(senderQueueMap := old(senderQueueMap)[peer := []])
    {
      senderQueueMap := senderQueueMap[peer := []];
    }

    /** The first loop of serveRequests: drop expired records, earliest first. */
    method PurgeExpired(now: int)
      requires Valid()
      modifies this
      ensures Valid() && State() == PurgeState(old(State()), now)
    {
      while expirationQueue != []
        invariant ValidQueue(queryInfoMap, expirationQueue)
        invariant Purge(queryInfoMap, expirationQueue, now) == Purge(old(queryInfoMap), old(expirationQueue), now)
        invariant State() == old(State()).(queryInfoMap := queryInfoMap, expirationQueue := expirationQueue)
        decreases |expirationQueue|
      {
        var messageId := expirationQueue[0];
        ValidQueueTail(queryInfoMap, expirationQueue);
        if IsExpired(queryInfoMap[messageId], now) {
          queryInfoMap := queryInfoMap - {messageId};
          expirationQueue := expirationQueue[1..];
        } else {
          break;
        }
      }
    }

    /** Appends `m` to the outbox of every neighbour in `targets`. */
    method AppendToEach(targets: set<Address>, m: Message)
      modifies this
      ensures State() == old(State()).(senderQueueMap := AppendTo(old(senderQueueMap), targets, m))
    {
      ghost var before := senderQueueMap;
      var pending := senderQueueMap.Keys;
      ghost var done: set<Address> := {};
      while pending != {}
        invariant pending + done == before.Keys && pending !! done
        invariant senderQueueMap == AppendTo(before, done * targets, m)
        invariant State() == old(State()).(senderQueueMap := senderQueueMap)
        decreases pending
      {
        var sender :| sender in pending;
        if sender in targets {
          AppendToOneMore(before, done * targets, sender, m);
          senderQueueMap := senderQueueMap[sender := senderQueueMap[sender] + [m]];
          assert done * targets + {sender} == (done + {sender}) * targets;
        } else {
          assert done * targets == (done + {sender}) * targets;
        }
        pending := pending - {sender};
        done := done + {sender};
      }
      assert done * targets == before.Keys * targets;
      AppendToWithin(before, targets, m);
    }

    /** handleQueryRequest */
    method HandleQueryRequest(q: Q.Query, neighbor: Address)
      requires Valid()
      modifies this
      ensures State() == HandleQuery(old(State()), localAddress, directory, q, neighbor)
    {
      var messageId := IdOf(q);
      if messageId in queryInfoMap {
        return;
      }
      ghost var recorded := Record(State(), q, neighbor);
      var messageInfo := QueryMessageInfo(q.expiration, neighbor);
      queryInfoMap := queryInfoMap[messageId := messageInfo];
      expirationQueue := Insert(queryInfoMap, expirationQueue, messageId, q.expiration);
      assert State() == recorded;
      AnswerQuery(q, neighbor);
    }

    /** The second half of handleQueryRequest: reply or forward. */
    method AnswerQuery(q: Q.Query, neighbor: Address)
      modifies this
      ensures State() == Answer(old(State()), localAddress, directory, q, neighbor)
    {
      var fileEntry := directory(q.isKeywordSearch, q.filter);
      if fileEntry.Some? {
        var reply := ReplyFor(q, localAddress, fileEntry.value);
        if localAddress == neighbor {
          replyQueue := replyQueue + [reply];
        } else if neighbor in senderQueueMap {
          senderQueueMap := senderQueueMap[neighbor := senderQueueMap[neighbor] + [Reply(reply)]];
        } else {
          serving := false;
        }
      } else if q.hopCount > 0 {
        AppendToEach(senderQueueMap.Keys - {neighbor}, Query(q.(hopCount := q.hopCount - 1)));
      }
    }

    /** handleReplyRequest */
    method HandleReplyRequest(reply: R.Reply)
      modifies this
      ensures State() == HandleReply(old(State()), localAddress, reply)
    {
      if localAddress == reply.initiator {
        replyQueue := replyQueue + [reply];
        return;
      }
      var messageId := ReplyIdOf(reply);
      if messageId !in queryInfoMap {
        serving := false;
        return;
      }
      var neighborAddress := queryInfoMap[messageId].neighborAddress;
      if neighborAddress !in senderQueueMap {
        serving := false;
        return;
      }
      senderQueueMap := senderQueueMap[neighborAddress := senderQueueMap[neighborAddress] + [Reply(reply)]];
    }

    /** The Hangup branch of serveRequests. */
    method HandleHangupRequest(h: H.Hangup, neighbor: Address)
      modifies this
      ensures State() == HandleHangup(old(State()), localAddress, h, neighbor)
    {
      senderQueueMap := senderQueueMap - {neighbor};
      if localAddress != h.handoffAddress {
        AddLink(h.handoffAddress);
      }
    }

    /** One pass of serveRequests' loop, at instant `now`. */
    method ServeRequest(now: int)
      requires Valid() && receiverQueue != []
      modifies this
      ensures Valid() && State() == Serve(old(State()), localAddress, directory, now)
    {
      ghost var st := State();
      PurgeExpired(now);
      var received := receiverQueue[0];
      receiverQueue := receiverQueue[1..];
      assert State() == PurgeState(st, now).(receiverQueue := st.receiverQueue[1..]);
      match received.message {
        case Query(q) =>
          if !IsAfter(now, q.expiration) {
            HandleQueryRequest(q, received.neighbor);
          }
        case Reply(reply) =>
          if !IsAfter(now, reply.expiration) {
            HandleReplyRequest(reply);
          }
        case Hangup(h) =>
          HandleHangupRequest(h, received.neighbor);
      }
    }

    /** serveRequests, one instant per pass: it stops when the instants run
        out or the thread has died, and blocks, after one last purge, when
        nothing is waiting. */
    method ServeRequests(times: seq<int>)
      requires Valid()
      modifies this
      ensures Valid() && State() == ServeEach(old(State()), localAddress, directory, times)
    {
      var i := 0;
      while i < |times| && serving
        invariant 0 <= i <= |times| && Valid()
        invariant ServeEach(State(), localAddress, directory, times[i..]) ==
          ServeEach(old(State()), localAddress, directory, times)
        decreases |times| - i
      {
        if receiverQueue == [] {
          PurgeExpired(times[i]);
          return;
        }
        ServeRequest(times[i]);
        assert times[i..][1..] == times[i + 1..];
        i := i + 1;
      }
    }

    /** handoffNeighbors, with `handoff` the neighbour the random draw picks. */
    method HandoffNeighbors(handoff: Address) returns (r: Outcome)
      requires senderQueueMap == map[] || handoff in senderQueueMap
      modifies this
      ensures (senderQueueMap, r) == Handoff(old(senderQueueMap), handoff)
      ensures State() == old(State()).(senderQueueMap := senderQueueMap)
    {
      if senderQueueMap == map[] {
        return Thrown(IllegalArgument);
      }
      AppendToEach(senderQueueMap.Keys, Hangup(H.Hangup(handoff)));
      r := Done;
    }

    /** collectResultsFor: drain the reply queue, together with the replies
        that arrive before the deadline, keeping those with the round's id. */
    method CollectResultsFor(sequenceId: int32, arrivals: seq<R.Reply>) returns (results: seq<R.Reply>)
      modifies this
      ensures results == RepliesFor(old(replyQueue) + arrivals, sequenceId)
      ensures State() == old(State()).(replyQueue := [])
    {
      ghost var st := State();
      ghost var wanted := RepliesFor(replyQueue + arrivals, sequenceId);
      replyQueue := replyQueue + arrivals;
      results := [];
      while replyQueue != []
        invariant results + RepliesFor(replyQueue, sequenceId) == wanted
        invariant State() == st.(replyQueue := replyQueue)
        decreases |replyQueue|
      {
        var reply := replyQueue[0];
        var rest := replyQueue[1..];
        RepliesForHead(replyQueue, sequenceId);
        if reply.sequenceId == sequenceId {
          Associative(results, [reply], RepliesFor(rest, sequenceId));
          results := results + [reply];
        } else {
          assert RepliesFor(replyQueue, sequenceId) == RepliesFor(rest, sequenceId);
        }
        replyQueue := rest;
      }
      assert results == wanted;
    }

    /** One round of queryFile: take the next sequence id, put the round's
        query on this node's own receive queue, and collect the replies. */
    method SearchRound(req: Request, env: Environment, k: nat, hopCount: int32) returns (replies: seq<R.Reply>)
      requires IsEnvironment(env) && k < 5 && hopCount == HopCount(k)
      requires req.local == localAddress
      modifies this
      ensures replies == RepliesFor(old(replyQueue) + env.arrivals[k], old(nextSequenceId))
      ensures receiverQueue == old(receiverQueue) + [RoundMessage(req, old(nextSequenceId), env, k)]
      ensures nextSequenceId == Increment(old(nextSequenceId)) && replyQueue == []
      ensures queryInfoMap == old(queryInfoMap) && expirationQueue == old(expirationQueue)
      ensures senderQueueMap == old(senderQueueMap) && serving == old(serving)
    {
      var sequenceId := nextSequenceId;
      nextSequenceId := Increment(nextSequenceId);
      var expiration := (env.clock[k] + hopCount * 250_000_000) / 1_000_000;
      var queryMessage := Q.Query(localAddress, sequenceId, expiration, hopCount, req.isKeywordSearch, req.filter);
      receiverQueue := receiverQueue + [Received(Query(queryMessage), localAddress)];
      replies := CollectResultsFor(sequenceId, env.arrivals[k]);
    }

    /** queryFile: rounds with hop budgets 1, 2, 4, 8 and 16. */
    method QueryFile(isKeywordSearch: bool, filter: Utf, env: Environment) returns (r: Option<SearchResult>)
      requires IsEnvironment(env)
      modifies this
      ensures var s := SearchFrom(Request(localAddress, isKeywordSearch, filter), env, old(nextSequenceId), old(replyQueue), 0);
        r == s.result &&
        State() == old(State()).(receiverQueue := old(receiverQueue) + s.sent,
                                 nextSequenceId := s.nextSequenceId, replyQueue := [])
    {
      ghost var st := State();
      var req := Request(localAddress, isKeywordSearch, filter);
      ghost var search := SearchFrom(req, env, nextSequenceId, replyQueue, 0);
      ghost var sent: seq<Received> := [];
      var hopCount: int32 := 1;
      var k := 0;
      while hopCount <= 16
        invariant 0 <= k <= 5
        invariant k < 5 ==> hopCount == HopCount(k)
        invariant k == 5 ==> hopCount == 32
        invariant k > 0 ==> replyQueue == []
        invariant var rest := SearchFrom(req, env, nextSequenceId, replyQueue, k);
          search == Search(sent + rest.sent, rest.nextSequenceId, rest.result)
        invariant receiverQueue == st.receiverQueue + sent
        invariant queryInfoMap == st.queryInfoMap && expirationQueue == st.expirationQueue
        invariant senderQueueMap == st.senderQueueMap && serving == st.serving
        decreases 5 - k
      {
        ghost var x := nextSequenceId;
        ghost var pending := replyQueue;
        var replies := SearchRound(req, env, k, hopCount);
        ghost var m := RoundMessage(req, x, env, k);
        SearchStep(req, env, x, pending, k, sent, search);
        Associative(st.receiverQueue, sent, [m]);
        sent := sent + [m];
        if replies != [] {
          assert search == Search(sent, nextSequenceId, Some(SearchResult(replies, hopCount)));
          return Some(SearchResult(replies, hopCount));
        }
        HopCountNext(k);
        hopCount := hopCount * 2;
        k := k + 1;
      }
      assert search == Search(sent, nextSequenceId, None);
      r := None;
    }
  }

  // ---------------------------------------------------------------------------
  // Joining: the tracker's reply, as getRandomPeer reads it.

  /** The loop of getRandomPeer, after `n` iterations: each reads a length,
      allocates that many bytes, reads them, and makes an address of them. */
  function ParsePeers(s: seq<byte>, n: nat): (r: Read<seq<Address>>)
    ensures r.Ok? ==> |r.value| == n
    decreases n
  {
    if n == 0 then Ok([], s)
    else
      match ParsePeers(s, n - 1)
      case Fail(e, rest) => Fail(e, rest)
      case Ok(peers, t) =>
        match M.ParseAddress(t)
        case Fail(e, rest) => Fail(e, rest)
        case Ok(a, rest) => Ok(peers + [a], rest)
  }

  /** The count, then that many entries; a count of zero or less is an
      empty list. */
  function ParsePeerList(s: seq<byte>): (r: Read<seq<Address>>)
    ensures |s| < 4 ==> r == Fail(EOF, [])
    ensures r.Ok? ==> 4 <= |s| && |r.value| == (if Int32Of(s[..4]) <= 0 then 0 else Int32Of(s[..4]))
  {
    match ParseInt(s)
    case Fail(e, rest) => Fail(e, rest)
    case Ok(count, rest) =>
      assert s[..4] == Int32Bytes(count);
      Int32RoundTrip(count);
      if count <= 0 then Ok([], rest) else ParsePeers(rest, count)
  }

  /** An exception ends the loop: later iterations never run. */
  lemma {:induction false} ParsePeersFailureStops(s: seq<byte>, i: nat, n: nat)
    requires i <= n && ParsePeers(s, i).Fail?
    ensures ParsePeers(s, n) == ParsePeers(s, i)
    decreases n - i
  {
    if i < n {
      ParsePeersFailureStops(s, i, n - 1);
    }
  }

  /** One more iteration of the loop, after n successful ones. */
  lemma ParsePeersOneMore(s: seq<byte>, n: nat, peers: seq<Address>, t: seq<byte>, a: Address, rest: seq<byte>)
    requires ParsePeers(s, n) == Ok(peers, t) && M.ParseAddress(t) == Ok(a, rest)
    ensures ParsePeers(s, n + 1) == Ok(peers + [a], rest)
  {
  }

  /** Reading the entries the tracker wrote gives back its list. */
  lemma {:induction false} ParsePeersOfEntries(peers: seq<Address>, rest: seq<byte>)
    ensures ParsePeers(TrackerServer.PeerEntries(peers) + rest, |peers|) == Ok(peers, rest)
    decreases |peers|
  {
    if peers != [] {
      var init, last := peers[..|peers| - 1], peers[|peers| - 1];
      assert init + [last] == peers;
      ParsePeersOfEntries(init, M.LengthPrefixed(last) + rest);
      ParsePeersOfEntriesStep(init, last, rest);
    }
  }

  /** The inductive step: one entry more at the end. */
  lemma ParsePeersOfEntriesStep(init: seq<Address>, last: Address, rest: seq<byte>)
    requires ParsePeers(TrackerServer.PeerEntries(init) + (M.LengthPrefixed(last) + rest), |init|)
      == Ok(init, M.LengthPrefixed(last) + rest)
    ensures ParsePeers(TrackerServer.PeerEntries(init + [last]) + rest, |init| + 1) == Ok(init + [last], rest)
  {
    var entry := M.LengthPrefixed(last);
    assert (init + [last])[..|init|] == init;
    assert TrackerServer.PeerEntries(init + [last]) == TrackerServer.PeerEntries(init) + entry;
    Associative(TrackerServer.PeerEntries(init), entry, rest);
    M.ParseAddressOfLengthPrefixed(last, rest);
    ParsePeersOneMore(TrackerServer.PeerEntries(init + [last]) + rest, |init|, init, entry + rest, last, rest);
  }

  /** The join exchange round-trips: getRandomPeer reads back exactly the
      list the tracker wrote, and leaves what follows untouched. */
  lemma JoinReplyRoundTrip(peers: seq<Address>, rest: seq<byte>)
    requires |peers| < 0x8000_0000
    ensures ParsePeerList(TrackerServer.JoinReply(peers) + rest) == Ok(peers, rest)
  {
    var entries := TrackerServer.PeerEntries(peers);
    Associative(Int32Bytes(|peers|), entries, rest);
    ParseIntOfInt32Bytes(|peers|, entries + rest);
    ParsePeersOfEntries(peers, rest);
  }

  /** getRandomPeer's choice: none from an empty list, else the entry the
      random draw selects. */
  function PickPeer(list: Read<seq<Address>>, draw: nat): (r: Read<Option<Address>>)
    ensures r.Ok? <==> list.Ok?
    ensures r.Ok? ==>
      r.rest == list.rest && (r.value.None? <==> list.value == []) &&
      (r.value.Some? ==> r.value.value in list.value)
  {
    match list
    case Fail(e, rest) => Fail(e, rest)
    case Ok(peers, rest) => if peers == [] then Ok(None, rest) else Ok(Some(peers[draw % |peers|]), rest)
  }

  /** A node joining through the tracker connects to a registered member, or to
      nobody when it is the first. */
  lemma JoinConnectsToRegisteredPeer(peers: seq<Address>, rest: seq<byte>, draw: nat)
    requires |peers| < 0x8000_0000
    ensures var r := PickPeer(ParsePeerList(TrackerServer.JoinReply(peers) + rest), draw);
      r.Ok? && r.rest == rest && (r.value.None? <==> peers == []) && (r.value.Some? ==> r.value.value in peers)
  {
    JoinReplyRoundTrip(peers, rest);
  }

  /** The loop of getRandomPeer: `count` length-prefixed addresses. */
  method ReadPeers(inp: DataInputStream, count: nat) returns (r: Read<seq<Address>>)
    modifies inp
    ensures r == ParsePeers(old(inp.remaining), count) && inp.remaining == r.rest
  {
    ghost var body := inp.remaining;
    var peers: seq<Address> := [];
    var i := 0;
    while i < count
      invariant i <= count
      invariant ParsePeers(body, i) == Ok(peers, inp.remaining)
    {
      var entry := M.ReadAddress(inp);
      if entry.Fail? {
        assert ParsePeers(body, i + 1) == Fail(entry.error, entry.rest);
        ParsePeersFailureStops(body, i + 1, count);
        return Fail(entry.error, entry.rest);
      }
      peers := peers + [entry.value];
      i := i + 1;
    }
    r := Ok(peers, inp.remaining);
  }

  /** getRandomPeer: send the join byte, read the list, pick one. Every
      exception, I/O or not, escapes it. */
  method GetRandomPeer(out: DataOutputStream, inp: DataInputStream, draw: nat) returns (r: Read<Option<Address>>)
    modifies out, inp
    ensures out.written == old(out.written) + [0]
    ensures r == PickPeer(ParsePeerList(old(inp.remaining)), draw) && inp.remaining == r.rest
  {
    out.WriteByte(0);
    var peersSize := inp.ReadInt();
    if peersSize.Fail? {
      return Fail(peersSize.error, peersSize.rest);
    }
    var peers: Read<seq<Address>> := Ok([], inp.remaining);
    if peersSize.value > 0 {
      peers := ReadPeers(inp, peersSize.value);
    }
    match peers
    case Fail(e, rest) =>
      r := Fail(e, rest);
    case Ok(list, rest) =>
      if list == [] {
        r := Ok(None, rest);
      } else {
        r := Ok(Some(list[draw % |list|]), rest);
      }
  }
}
