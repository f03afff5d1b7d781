/** RedisQueueService: the Redis commands on one stream and the service calls built from them.

    Every method is specified against the stream value of module RedisStream. Redis itself is taken
    to answer every command; `acked` is the history of acknowledged ids, which Redis does not keep.
 */
module RedisQueue {
  import opened Wrappers
  import opened RedisStream
  import opened Folds

  datatype Dequeued<+T> = Empty | Item(item: T, id: nat) | DecodeError

  function Decode<T>(p: Payload<T>, id: nat): Dequeued<T> {
    if p.Encoded? then Item(p.item, id) else DecodeError
  }

  /** What a consumer that asks only for new messages gets (DequeuePirep). */
  function ReadNew<T>(s: Stream<T>, c: Consumer, now: int): (Stream<T>, Dequeued<T>) {
    if s.next < |s.entries| then (Delivered(s, c, now), Decode(s.entries[s.next], s.next)) else (s, Empty)
  }

  /** What a consumer that drains its own pending list first gets (DequeuePilot, DequeueFlightPlan). */
  function ReadPendingFirst<T>(s: Stream<T>, c: Consumer, now: int): (Stream<T>, Dequeued<T>)
    requires Conserved(s)
  {
    match FirstOwned(s, c, 0)
    case Some(id) => (Redelivered(s, c, id, now), Decode(s.entries[id], id))
    case None => ReadNew(s, c, now)
  }

  /** The items that survive json.Marshal, in order. */
  function Encodable<T>(items: seq<T>, marshals: T -> bool): (r: seq<Payload<T>>) {
    if items == [] then []
    else
      var front, last := items[..|items| - 1], items[|items| - 1];
      Encodable(front, marshals) + (if marshals(last) then [Encoded(last)] else [])
  }

  lemma {:induction false} AllEncodable<T>(items: seq<T>, marshals: T -> bool)
    requires forall t <- items :: marshals(t)
    ensures |Encodable(items, marshals)| == |items|
    ensures forall k | 0 <= k < |items| :: Encodable(items, marshals)[k] == Encoded(items[k])
  {
    if items != [] {
      AllEncodable(items[..|items| - 1], marshals);
    }
  }

  /** With items that do not marshal among them: exactly the others, in order. */
  lemma {:induction false} EncodableIsSelect<T>(items: seq<T>, marshals: T -> bool)
    ensures Encodable(items, marshals) == Select(items, marshals, (t: T) => Encoded(t))
  {
    if items != [] {
      EncodableIsSelect(items[..|items| - 1], marshals);
    }
  }

  /** A read of a new message takes the lowest undelivered one, dates it and leaves the rest: from then on it
      is stale after `minIdle`, exactly. */
  lemma ReadNewDates<T>(s: Stream<T>, c: Consumer, now: int, minIdle: int, later: int)
    requires s.next < |s.entries|
    ensures var s' := ReadNew(s, c, now).0;
            && s'.next == s.next + 1 && s'.entries == s.entries && s'.acked == s.acked
            && s'.pending == s.pending[s.next := Delivery(c, now)]
            && (Stale(s'.pending, s.next, minIdle, later) <==> later - now >= minIdle)
  {}

  /** So does a read of a pending one, which restarts its idle time. */
  lemma ReadPendingDates<T>(s: Stream<T>, c: Consumer, now: int, id: nat, minIdle: int, later: int)
    requires Conserved(s) && id in s.pending && s.pending[id].owner == c
    requires forall j | j in s.pending && j < id :: s.pending[j].owner != c
    ensures var (s', r) := ReadPendingFirst(s, c, now);
            && s' == s.(pending := s.pending[id := Delivery(c, now)])
            && r == (if s.entries[id].Encoded? then Item(s.entries[id].item, id) else DecodeError)
            && (Stale(s'.pending, id, minIdle, later) <==> later - now >= minIdle)
  {}

  class RedisQueueService<T> {
    var entries: seq<Payload<T>>
    var next: nat
    var pending: map<nat, Delivery>
    ghost var acked: set<nat>

    ghost function Stream(): Stream<T>
      reads this
    {
      RedisStream.Stream(entries, next, pending, acked)
    }

    constructor ()
      ensures Stream() == RedisStream.Stream([], 0, map[], {})
    {
      entries, next, pending, acked := [], 0, map[], {};
    }

    // ----- Redis commands -----

    method XReadPending(consumer: Consumer, now: int) returns (id: Option<nat>)
      requires Conserved(Stream())
      modifies this
      ensures id == FirstOwned(old(Stream()), consumer, 0)
      ensures Stream() == if id.Some? then Redelivered(old(Stream()), consumer, id.value, now) else old(Stream())
    {
      var k := 0;
      while k < next
        invariant 0 <= k <= next && Stream() == old(Stream())
        invariant FirstOwned(Stream(), consumer, 0) == FirstOwned(Stream(), consumer, k)
      {
        if k in pending && pending[k].owner == consumer {
          pending := pending[k := Delivery(consumer, now)];
          return Some(k);
        }
        k := k + 1;
      }
      id := None;
    }

    method XAck(id: nat)
      modifies this
      ensures Stream() == Acknowledged(old(Stream()), id)
    {
      if id in pending {
        pending, acked := pending - {id}, acked + {id};
      }
    }

    method XPending(count: nat) returns (ids: seq<nat>)
      ensures ids == PendingBelow(pending, next, count)
    {
      ids := [];
      for k := 0 to next
        invariant ids == PendingBelow(pending, k, count)
      {
        if k in pending && |ids| < count {
          ids := ids + [k];
        }
      }
    }

    method XClaim(ids: seq<nat>, consumer: Consumer, minIdle: int, now: int) returns (claimed: seq<nat>)
      modifies this
      ensures Stream() == Claimed(old(Stream()), ids, consumer, minIdle, now)
      ensures claimed == StaleAmong(old(pending), ids, minIdle, now)
      ensures pending.Keys == old(pending).Keys
      ensures forall id | id in old(pending) ::
        pending[id] == (if id in ids && now - old(pending)[id].at >= minIdle
                        then Delivery(consumer, now) else old(pending)[id])
      ensures forall id: nat :: id in claimed <==>
        id in ids && id in old(pending) && now - old(pending)[id].at >= minIdle
    {
      claimed := StaleAmong(pending, ids, minIdle, now);
      pending := map id | id in pending ::
        if id in ids && Stale(pending, id, minIdle, now) then Delivery(consumer, now) else pending[id];
    }

    // ----- service calls -----

    /** EnqueuePirepBatch, EnqueueFlightPlanBatch, EnqueuePilotBatch: items that do not marshal are skipped. */
    method EnqueueBatch(items: seq<T>, marshals: T -> bool)
      modifies this
      ensures Stream() == old(Stream()).(entries := old(entries) + Encodable(items, marshals))
    {
      for k := 0 to |items|
        invariant Stream() == old(Stream()).(entries := old(entries) + Encodable(items[..k], marshals))
      {
        assert items[..k + 1][..k] == items[..k];
        if marshals(items[k]) {
          entries := entries + [Encoded(items[k])];
        }
      }
      assert items[..|items|] == items;
    }

    method Enqueue(item: T)
      modifies this
      ensures Stream() == Appended(old(Stream()), Encoded(item))
    {
      entries := entries + [Encoded(item)];
    }

    method DequeueNew(consumer: Consumer, now: int) returns (r: Dequeued<T>)
      modifies this
      ensures (Stream(), r) == ReadNew(old(Stream()), consumer, now)
    {
      if next >= |entries| {
        return Empty;
      }
      pending, next := pending[next := Delivery(consumer, now)], next + 1;
      r := Decode(entries[next - 1], next - 1);
    }

    method DequeuePendingFirst(consumer: Consumer, now: int) returns (r: Dequeued<T>)
      requires Conserved(Stream())
      modifies this
      ensures (Stream(), r) == ReadPendingFirst(old(Stream()), consumer, now)
    {
      var id := XReadPending(consumer, now);
      if id.Some? {
        r := Decode(entries[id.value], id.value);
      } else {
        r := DequeueNew(consumer, now);
      }
    }

    /** ClaimStalePireps, ClaimStaleFlightPlans, ClaimStalePilots. XPENDING is answered at `listedAt`,
        XCLAIM at `claimedAt`. */
    method ClaimStale(consumer: Consumer, minIdle: int, listedAt: int, claimedAt: int)
      returns (items: seq<T>, messageIDs: seq<nat>)
      requires Conserved(Stream()) && listedAt <= claimedAt
      modifies this
      ensures var stale := StaleAmong(old(pending), PendingBelow(old(pending), next, XPENDING_COUNT), minIdle,
        listedAt);
              && Stream() == Claimed(old(Stream()), stale, consumer, minIdle, claimedAt)
              && messageIDs == DecodableAmong(entries, stale)
              && |items| == |messageIDs|
              && forall k | 0 <= k < |items| :: messageIDs[k] < |entries| && entries[messageIDs[k]] == Encoded(items[k])
      ensures pending.Keys == old(pending).Keys && Increasing(messageIDs)
      ensures forall id | id in old(pending) ::
        pending[id] == (if AmongFirst(old(pending), id, 100) && listedAt - old(pending)[id].at >= minIdle
                        then Delivery(consumer, claimedAt) else old(pending)[id])
      ensures forall id: nat :: id in messageIDs <==> (
        && AmongFirst(old(pending), id, 100) && listedAt - old(pending)[id].at >= minIdle
        && id < |entries| && entries[id].Encoded?)
    {
      ghost var was := Stream();
      ClaimIsExact(was, consumer, minIdle, listedAt, claimedAt);
      var staleIDs := StaleIDs(minIdle, listedAt);
      if staleIDs == [] {
        assert Claimed(was, [], consumer, minIdle, claimedAt).pending == pending;
        return [], [];
      }
      var messages := XClaim(staleIDs, consumer, minIdle, claimedAt);
      assert forall id <- staleIDs :: Stale(was.pending, id, minIdle, claimedAt);
      items, messageIDs := ParseClaimed(messages);
    }

    /** The first loop of the claim: the listed entries that have been idle for too long. */
    method StaleIDs(minIdle: int, listedAt: int) returns (staleIDs: seq<nat>)
      ensures staleIDs == StaleAmong(pending, PendingBelow(pending, next, XPENDING_COUNT), minIdle, listedAt)
      ensures forall id: nat :: id in staleIDs <==>
        id < next && AmongFirst(pending, id, 100) && listedAt - pending[id].at >= minIdle
    {
      var listed := XPending(XPENDING_COUNT);
      staleIDs := [];
      for k := 0 to |listed|
        invariant staleIDs == StaleAmong(pending, listed[..k], minIdle, listedAt)
      {
        assert listed[..k + 1][..k] == listed[..k] && listed[k] in listed;
        if listedAt - pending[listed[k]].at >= minIdle {
          staleIDs := staleIDs + [listed[k]];
        }
      }
      assert listed[..|listed|] == listed;
      forall id: nat ensures id in listed <==> id < next && AmongFirst(pending, id, 100) {
        PendingBelowIff(pending, next, XPENDING_COUNT, id);
      }
    }

    /** The second loop of the claim: the parallel lists of decoded items and their message ids. */
    method ParseClaimed(messages: seq<nat>) returns (items: seq<T>, messageIDs: seq<nat>)
      requires forall id <- messages :: id < |entries|
      ensures messageIDs == DecodableAmong(entries, messages) && |items| == |messageIDs|
      ensures forall k | 0 <= k < |items| :: messageIDs[k] < |entries| && entries[messageIDs[k]] == Encoded(items[k])
    {
      items, messageIDs := [], [];
      for k := 0 to |messages|
        invariant messageIDs == DecodableAmong(entries, messages[..k]) && |items| == |messageIDs|
        invariant forall i | 0 <= i < |items| ::
          messageIDs[i] < |entries| && entries[messageIDs[i]] == Encoded(items[i])
      {
        assert messages[..k + 1][..k] == messages[..k] && messages[k] in messages;
        match entries[messages[k]] {
          case Encoded(item) => items, messageIDs := items + [item], messageIDs + [messages[k]];
          case Malformed =>
        }
      }
      assert messages[..|messages|] == messages;
    }
  }

  /** The ids whose entry decodes, in the same order. */
  function DecodableAmong<T>(entries: seq<Payload<T>>, ids: seq<nat>): (r: seq<nat>)
    ensures forall id :: id in r <==> id in ids && id < |entries| && entries[id].Encoded?
  {
    if ids == [] then []
    else
      var front, last := ids[..|ids| - 1], ids[|ids| - 1];
      DecodableAmong(entries, front) + (if last < |entries| && entries[last].Encoded? then [last] else [])
  }

  lemma {:induction false} DecodableKeepsOrder<T>(entries: seq<Payload<T>>, ids: seq<nat>)
    requires Increasing(ids)
    ensures Increasing(DecodableAmong(entries, ids))
  {
    if ids != [] {
      var front, r := ids[..|ids| - 1], DecodableAmong(entries, ids[..|ids| - 1]);
      DecodableKeepsOrder(entries, front);
      assert forall i | 0 <= i < |r| :: r[i] in front;
    }
  }

  /** The ids that a claim names: idle for long enough, among the first hundred pending. */
  function StaleListed<T>(s: Stream<T>, minIdle: int, listedAt: int): seq<nat> {
    StaleAmong(s.pending, PendingBelow(s.pending, s.next, XPENDING_COUNT), minIdle, listedAt)
  }

  lemma StaleListedIff<T>(s: Stream<T>, minIdle: int, listedAt: int, id: nat)
    requires Conserved(s)
    ensures id in StaleListed(s, minIdle, listedAt)
       <==> AmongFirst(s.pending, id, 100) && listedAt - s.pending[id].at >= minIdle
  {
    PendingBelowIff(s.pending, s.next, XPENDING_COUNT, id);
  }

  /** What a claim does, in arithmetic. */
  lemma ClaimIsExact<T>(s: Stream<T>, c: Consumer, minIdle: int, listedAt: int, claimedAt: int)
    requires Conserved(s) && listedAt <= claimedAt
    ensures var stale := StaleListed(s, minIdle, listedAt);
            var s', ids := Claimed(s, stale, c, minIdle, claimedAt), DecodableAmong(s.entries, stale);
            && s'.pending.Keys == s.pending.Keys && Increasing(ids)
            && (forall id | id in s.pending ::
                  s'.pending[id] == if AmongFirst(s.pending, id, 100) && listedAt - s.pending[id].at >= minIdle
                                    then Delivery(c, claimedAt) else s.pending[id])
            && (forall id: nat :: id in ids <==> (
                  && AmongFirst(s.pending, id, 100) && listedAt - s.pending[id].at >= minIdle
                  && id < |s.entries| && s.entries[id].Encoded?))
  {
    var listed, stale := PendingBelow(s.pending, s.next, XPENDING_COUNT), StaleListed(s, minIdle, listedAt);
    forall id: nat ensures id in stale <==> AmongFirst(s.pending, id, 100) && listedAt - s.pending[id].at >= minIdle {
      StaleListedIff(s, minIdle, listedAt, id);
    }
    ClaimMovesIff(s, stale, c, minIdle, claimedAt);
    PendingBelowIsLowest(s.pending, s.next, XPENDING_COUNT);
    StaleAmongKeepsOrder(s.pending, listed, minIdle, listedAt);
    DecodableKeepsOrder(s.entries, stale);
  }

  /** A message delivered less than `minIdle` before a claim stays with its owner, and is not handed out. */
  lemma FreshIsLeftAlone<T>(s: Stream<T>, c: Consumer, minIdle: int, listedAt: int, claimedAt: int, id: nat)
    requires Conserved(s) && listedAt <= claimedAt && id in s.pending && listedAt < s.pending[id].at + minIdle
    ensures var stale := StaleListed(s, minIdle, listedAt);
            id !in stale && Claimed(s, stale, c, minIdle, claimedAt).pending[id] == s.pending[id]
  {
    ClaimIsExact(s, c, minIdle, listedAt, claimedAt);
    StaleListedIff(s, minIdle, listedAt, id);
  }
}
