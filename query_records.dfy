/** The node's memory of the queries it has seen: a table from query identity
    to where the query came from and when it expires, and a priority queue of
    the same identities ordered by expiration, which the node uses to forget
    expired queries cheapest-first. */
module QueryRecords {
  import opened Streams

  /** QueryMessageIdentifier: a query is known by its initiator and the
      initiator's sequence number (equals and hashCode use exactly these). */
  datatype QueryMessageIdentifier = QueryMessageIdentifier(initiatorAddress: Address, sequenceId: int32)

  /** QueryMessageInfo: the query's expiration (epoch milliseconds) and the
      neighbour it arrived from, which is where replies are sent back. */
  datatype QueryMessageInfo = QueryMessageInfo(expiration: int64, neighborAddress: Address)

  type Records = map<QueryMessageIdentifier, QueryMessageInfo>
  type Queue = seq<QueryMessageIdentifier>

  /** Instant.now().isAfter(Instant.ofEpochMilli(ms)), where `now` counts
      nanoseconds since the epoch: an instant within the expiration millisecond
      is not after it. */
  predicate IsAfter(now: int, ms: int) {
    now > ms * 1_000_000
  }

  /** QueryMessageInfo.isExpired */
  predicate IsExpired(info: QueryMessageInfo, now: int) {
    IsAfter(now, info.expiration)
  }

  /** An earlier expiration has expired whenever a later one has. */
  lemma ExpiredEarlier(a: int, b: int, now: int)
    requires a <= b && IsAfter(now, b)
    ensures IsAfter(now, a)
  {
  }

  /** The comparator's key, made total so that it can be stated over any queue. */
  function ExpirationOf(records: Records, id: QueryMessageIdentifier): int {
    if id in records then records[id].expiration else 0
  }

  /** Each queued identity expires no earlier than the one before it. */
  ghost predicate Ordered(records: Records, queue: Queue) {
    forall i, j :: 0 <= i < j < |queue| && j == i + 1 ==> ExpirationOf(records, queue[i]) <= ExpirationOf(records, queue[j])
  }

  /** In an ordered queue, no identity expires earlier than one ahead of it. */
  lemma {:induction false} OrderedPairs(records: Records, queue: Queue, i: nat, j: nat)
    requires Ordered(records, queue) && i <= j < |queue|
    ensures ExpirationOf(records, queue[i]) <= ExpirationOf(records, queue[j])
    decreases j - i
  {
    if i < j {
      OrderedPairs(records, queue, i, j - 1);
      assert ExpirationOf(records, queue[j - 1]) <= ExpirationOf(records, queue[j]);
    }
  }

  /** What the comparator relies on: the queue holds each recorded identity
      exactly once and nothing else, ordered by expiration. */
  ghost predicate ValidQueue(records: Records, queue: Queue) {
    multiset(queue) == multiset(records.Keys) && Ordered(records, queue)
  }

  /** Every queued identity has a record. */
  lemma QueuedIsRecorded(records: Records, queue: Queue, i: nat)
    requires ValidQueue(records, queue) && i < |queue|
    ensures queue[i] in records
  {
    assert queue[i] in multiset(queue);
  }

  /** Every record is queued, at some position. */
  lemma RecordedIsQueued(records: Records, queue: Queue, id: QueryMessageIdentifier) returns (k: nat)
    requires ValidQueue(records, queue) && id in records
    ensures k < |queue| && queue[k] == id
  {
    assert id in multiset(records.Keys);
    assert id in queue;
    k :| 0 <= k < |queue| && queue[k] == id;
  }

  /** PriorityQueue.add of an identity whose record has `expiration`: it goes
      after every queued identity that expires no later. */
  function Insert(records: Records, queue: Queue, id: QueryMessageIdentifier, expiration: int): (r: Queue)
    ensures |r| == |queue| + 1
    ensures multiset(r) == multiset(queue) + multiset{id}
    decreases |queue|
  {
    if queue == [] then [id]
    else if ExpirationOf(records, queue[0]) <= expiration then
      assert queue == [queue[0]] + queue[1..];
      [queue[0]] + Insert(records, queue[1..], id, expiration)
    else [id] + queue
  }

  /** Insertion keeps the queue ordered. */
  lemma {:induction false} InsertOrdered(records: Records, queue: Queue, id: QueryMessageIdentifier, e: int)
    requires Ordered(records, queue) && ExpirationOf(records, id) == e
    ensures Ordered(records, Insert(records, queue, id, e))
    decreases |queue|
  {
    if queue != [] && ExpirationOf(records, queue[0]) <= e {
      var tail := queue[1..];
      assert Ordered(records, tail) by {
        forall i, j | 0 <= i < j < |tail| && j == i + 1 ensures ExpirationOf(records, tail[i]) <= ExpirationOf(records, tail[j]) {
          assert tail[i] == queue[i + 1] && tail[j] == queue[j + 1];
        }
      }
      InsertOrdered(records, tail, id, e);
      var t := Insert(records, tail, id, e);
      InsertStep(records, queue, id, e, t);
    }
  }

  /** The inductive step of InsertOrdered: the head stays in front of the
      insertion into the rest. */
  lemma InsertStep(records: Records, queue: Queue, id: QueryMessageIdentifier, e: int, t: Queue)
    requires queue != [] && ExpirationOf(records, queue[0]) <= e && ExpirationOf(records, id) == e
    requires Ordered(records, queue) && t == Insert(records, queue[1..], id, e) && Ordered(records, t)
    ensures Ordered(records, [queue[0]] + t)
  {
    var r := [queue[0]] + t;
    var tail := queue[1..];
    assert t[0] == (if tail != [] && ExpirationOf(records, tail[0]) <= e then tail[0] else id);
    if tail != [] {
      assert tail[0] == queue[1];
    }
    assert ExpirationOf(records, r[0]) <= ExpirationOf(records, r[1]);
    forall i, j | 0 <= i < j < |r| && j == i + 1 ensures ExpirationOf(records, r[i]) <= ExpirationOf(records, r[j]) {
      if i > 0 {
        assert r[i] == t[i - 1] && r[j] == t[j - 1];
      }
    }
  }

  /** Recording a fresh identity does not disturb the order of those queued. */
  lemma OrderedUnderFreshRecord(records: Records, queue: Queue, id: QueryMessageIdentifier, info: QueryMessageInfo)
    requires ValidQueue(records, queue) && id !in records
    ensures Ordered(records[id := info], queue)
  {
    forall i, j | 0 <= i < j < |queue| && j == i + 1
      ensures ExpirationOf(records[id := info], queue[i]) <= ExpirationOf(records[id := info], queue[j])
    {
      QueuedIsRecorded(records, queue, i);
      QueuedIsRecorded(records, queue, j);
    }
  }

  /** handleQueryRequest's put and add together keep the queue valid. */
  lemma RecordPreservesValid(records: Records, queue: Queue, id: QueryMessageIdentifier, info: QueryMessageInfo)
    requires ValidQueue(records, queue) && id !in records
    ensures var records' := records[id := info];
      ValidQueue(records', Insert(records', queue, id, info.expiration))
  {
    var records' := records[id := info];
    OrderedUnderFreshRecord(records, queue, id, info);
    InsertOrdered(records', queue, id, info.expiration);
    KeysGrow(records, id, info);
  }

  lemma KeysGrow(records: Records, id: QueryMessageIdentifier, info: QueryMessageInfo)
    requires id !in records
    ensures multiset(records[id := info].Keys) == multiset(records.Keys) + multiset{id}
  {
    assert records[id := info].Keys == records.Keys + {id};
  }

  /** The records that have not expired at `now`. */
  function Unexpired(records: Records, now: int): (r: Records)
    ensures r.Keys <= records.Keys
    ensures forall id :: id in r <==> id in records && !IsExpired(records[id], now)
  {
    map id | id in records && !IsExpired(records[id], now) :: records[id]
  }

  /** Dropping the head of the queue, and its record, keeps the two in step. */
  lemma TailMultiset(records: Records, queue: Queue)
    requires multiset(queue) == multiset(records.Keys) && queue != []
    ensures queue[0] in records && multiset(queue[1..]) == multiset((records - {queue[0]}).Keys)
  {
    var h := queue[0];
    assert queue == [h] + queue[1..];
    assert h in multiset(queue);
    assert (records - {h}).Keys == records.Keys - {h};
    assert multiset(records.Keys - {h}) == multiset(records.Keys) - multiset{h};
  }

  /** Dropping the head of a valid queue, and its record, leaves a valid queue. */
  lemma ValidQueueTail(records: Records, queue: Queue)
    requires ValidQueue(records, queue) && queue != []
    ensures queue[0] in records && ValidQueue(records - {queue[0]}, queue[1..])
  {
    var h := queue[0];
    var tail := queue[1..];
    TailMultiset(records, queue);
    forall i, j | 0 <= i < j < |tail| && j == i + 1
      ensures ExpirationOf(records - {h}, tail[i]) <= ExpirationOf(records - {h}, tail[j])
    {
      assert tail[i] == queue[i + 1] && tail[j] == queue[j + 1];
      assert tail[i] in multiset(tail) && tail[j] in multiset(tail);
    }
  }

  /** serveRequests' purge: while the earliest-expiring record has expired,
      remove it from the table and the queue; stop at the first that has not.
      What remains is a suffix of the queue, everything removed had expired,
      and the head left behind (if any) has not. */
  function Purge(records: Records, queue: Queue, now: int): (r: (Records, Queue))
    requires ValidQueue(records, queue)
    ensures ValidQueue(r.0, r.1)
    ensures r.1 == [] || !IsAfter(now, ExpirationOf(r.0, r.1[0]))
    decreases |queue|
  {
    if queue == [] then (records, queue)
    else
      ValidQueueTail(records, queue);
      if IsExpired(records[queue[0]], now) then Purge(records - {queue[0]}, queue[1..], now)
      else (records, queue)
  }

  /** What the purge leaves of the queue is a suffix of it, and everything it
      dropped had expired. */
  lemma {:induction false} PurgeLeavesSuffix(records: Records, queue: Queue, now: int)
    requires ValidQueue(records, queue)
    ensures var r := Purge(records, queue, now);
      |r.1| <= |queue| && r.1 == queue[|queue| - |r.1|..] &&
      forall i :: 0 <= i < |queue| - |r.1| ==> IsAfter(now, ExpirationOf(records, queue[i]))
    decreases |queue|
  {
    if queue != [] {
      ValidQueueTail(records, queue);
      if IsExpired(records[queue[0]], now) {
        var records', tail := records - {queue[0]}, queue[1..];
        PurgeLeavesSuffix(records', tail, now);
        var r := Purge(records', tail, now);
        assert r.1 == queue[|queue| - |r.1|..];
        forall i | 0 < i < |queue| - |r.1| ensures IsAfter(now, ExpirationOf(records, queue[i])) {
          assert queue[i] == tail[i - 1];
          QueuedIsRecorded(records', tail, i - 1);
        }
      }
    }
  }

  /** The purge forgets exactly the expired records: because the queue is
      ordered, no expired record is left behind the first unexpired head. */
  lemma {:induction false} PurgeRemovesExactlyExpired(records: Records, queue: Queue, now: int)
    requires ValidQueue(records, queue)
    ensures Purge(records, queue, now).0 == Unexpired(records, now)
    decreases |queue|
  {
    if queue == [] {
      assert records.Keys == {} by {
        assert multiset(records.Keys) == multiset{};
      }
    } else {
      ValidQueueTail(records, queue);
      if IsExpired(records[queue[0]], now) {
        PurgeRemovesExactlyExpired(records - {queue[0]}, queue[1..], now);
        UnexpiredWithout(records, queue[0], now);
      } else {
        NoneExpiredBehindHead(records, queue, now);
        assert Unexpired(records, now) == records;
      }
    }
  }

  /** Forgetting an expired record does not change which records are unexpired. */
  lemma UnexpiredWithout(records: Records, id: QueryMessageIdentifier, now: int)
    requires id in records && IsExpired(records[id], now)
    ensures Unexpired(records - {id}, now) == Unexpired(records, now)
  {
  }

  /** If the head of a valid queue has not expired, no record has. */
  lemma NoneExpiredBehindHead(records: Records, queue: Queue, now: int)
    requires ValidQueue(records, queue) && queue != [] && !IsAfter(now, ExpirationOf(records, queue[0]))
    ensures forall id :: id in records ==> !IsExpired(records[id], now)
  {
    forall id | id in records ensures !IsExpired(records[id], now) {
      var k := RecordedIsQueued(records, queue, id);
      OrderedPairs(records, queue, 0, k);
    }
  }

  /** Purging twice at the same instant is purging once. */
  lemma PurgeIdempotent(records: Records, queue: Queue, now: int)
    requires ValidQueue(records, queue)
    ensures var r := Purge(records, queue, now); Purge(r.0, r.1, now) == r
  {
    var r := Purge(records, queue, now);
    if r.1 != [] {
      QueuedIsRecorded(r.0, r.1, 0);
    }
  }

  /** Records are removed in non-decreasing expiration order: each removed
      identity (the first `n` of the queue) expires no later than every
      identity behind it, removed or kept. */
  lemma PurgeRemovesEarliestFirst(records: Records, queue: Queue, now: int)
    requires ValidQueue(records, queue)
    ensures var n := |queue| - |Purge(records, queue, now).1|;
      0 <= n <= |queue| &&
      forall i, j :: 0 <= i < n && i <= j < |queue| ==> ExpirationOf(records, queue[i]) <= ExpirationOf(records, queue[j])
  {
    PurgeLeavesSuffix(records, queue, now);
    var n := |queue| - |Purge(records, queue, now).1|;
    forall i, j | 0 <= i < n && i <= j < |queue| ensures ExpirationOf(records, queue[i]) <= ExpirationOf(records, queue[j]) {
      OrderedPairs(records, queue, i, j);
    }
  }
}
