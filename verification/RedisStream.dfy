/** A Redis stream with one consumer group, as a value.

    Entries are appended with XADD and never trimmed, so an entry's id is its position; ids below
    `next` have been handed to some consumer of the group, and such an id is either pending (owned
    by exactly one consumer, with the time of its last delivery) or acknowledged.
 */
module RedisStream {
  import opened Wrappers

  type Consumer = string

  /** The "data" field of an entry: what json.Unmarshal makes of it. */
  datatype Payload<+T> = Encoded(item: T) | Malformed

  datatype Delivery = Delivery(owner: Consumer, at: int)

  datatype Stream<+T> = Stream(entries: seq<Payload<T>>, next: nat, pending: map<nat, Delivery>, acked: set<nat>)

  const XPENDING_COUNT: nat := 100

  /** Every entry is in exactly one of three places: undelivered, pending or acknowledged. */
  ghost predicate Conserved<T>(s: Stream<T>) {
    && s.next <= |s.entries|
    && s.pending.Keys !! s.acked
    && (forall id: nat :: id in s.pending || id in s.acked <==> id < s.next)
  }

  // ----- the Redis commands -----

  /** XADD */
  function Appended<T>(s: Stream<T>, p: Payload<T>): Stream<T> {
    s.(entries := s.entries + [p])
  }

  /** XREADGROUP ... > : the next undelivered entry becomes pending for the reader. */
  function Delivered<T>(s: Stream<T>, c: Consumer, now: int): Stream<T>
    requires s.next < |s.entries|
  {
    s.(next := s.next + 1, pending := s.pending[s.next := Delivery(c, now)])
  }

  /** The lowest id at or above `from` that is pending for `c`. */
  function FirstOwned<T>(s: Stream<T>, c: Consumer, from: nat): (r: Option<nat>)
    ensures r.Some? ==> from <= r.value < s.next && r.value in s.pending && s.pending[r.value].owner == c
    ensures r.Some? ==> forall id | from <= id < r.value && id in s.pending :: s.pending[id].owner != c
    ensures r.None? ==> forall id | from <= id < s.next && id in s.pending :: s.pending[id].owner != c
    decreases s.next - from
  {
    if from >= s.next then None
    else if from in s.pending && s.pending[from].owner == c then Some(from)
    else FirstOwned(s, c, from + 1)
  }

  /** XREADGROUP ... 0 : a pending entry is read again by its owner, which restarts its idle time. */
  function Redelivered<T>(s: Stream<T>, c: Consumer, id: nat, now: int): Stream<T> {
    s.(pending := s.pending[id := Delivery(c, now)])
  }

  /** XACK removes an id from the pending list whoever owns it, and ignores any other id. */
  function Acknowledged<T>(s: Stream<T>, id: nat): Stream<T> {
    if id in s.pending then s.(pending := s.pending - {id}, acked := s.acked + {id}) else s
  }

  /** XPENDING - + count : the lowest `count` pending ids, here those below `limit`. */
  function PendingBelow(pending: map<nat, Delivery>, limit: nat, count: nat): (ids: seq<nat>)
    ensures |ids| <= count
    ensures forall id <- ids :: id < limit && id in pending
  {
    if limit == 0 then []
    else
      var ids := PendingBelow(pending, limit - 1, count);
      if limit - 1 in pending && |ids| < count then ids + [limit - 1] else ids
  }

  /** Nothing pending is passed over while there is room, and the ids come in increasing order. */
  lemma {:induction false} PendingBelowIsLowest(pending: map<nat, Delivery>, limit: nat, count: nat)
    ensures var ids := PendingBelow(pending, limit, count);
            && (forall i, j | 0 <= i < j < |ids| :: ids[i] < ids[j])
            && (|ids| < count ==> forall id: nat | id < limit && id in pending :: id in ids)
            && (forall id: nat, k | id < limit && id in pending && id !in ids && 0 <= k < |ids| :: ids[k] < id)
  {
    if limit > 0 {
      PendingBelowIsLowest(pending, limit - 1, count);
      var ids := PendingBelow(pending, limit - 1, count);
      assert forall k | 0 <= k < |ids| :: ids[k] in ids;
    }
  }

  /** Fewer than `count` pending ids are lower: the id is listed by XPENDING - + count. */
  ghost predicate AmongFirst(pending: map<nat, Delivery>, id: nat, count: nat) {
    id in pending && |Lower(pending, id)| < count
  }

  function Lower(pending: map<nat, Delivery>, id: nat): set<nat> {
    set j | j in pending && j < id
  }

  lemma {:induction false} PendingBelowCounts(pending: map<nat, Delivery>, limit: nat, count: nat)
    ensures |PendingBelow(pending, limit, count)|
         == if |Lower(pending, limit)| <= count then |Lower(pending, limit)| else count
  {
    if limit > 0 {
      PendingBelowCounts(pending, limit - 1, count);
      if limit - 1 in pending {
        assert Lower(pending, limit) == Lower(pending, limit - 1) + {limit - 1};
      } else {
        assert Lower(pending, limit) == Lower(pending, limit - 1);
      }
    } else {
      assert Lower(pending, 0) == {};
    }
  }

  /** What is listed, exactly. */
  lemma {:induction false} PendingBelowIff(pending: map<nat, Delivery>, limit: nat, count: nat, id: nat)
    ensures id in PendingBelow(pending, limit, count) <==> id < limit && AmongFirst(pending, id, count)
  {
    if limit > 0 {
      PendingBelowIff(pending, limit - 1, count, id);
      PendingBelowCounts(pending, limit - 1, count);
    }
  }

  predicate Stale(pending: map<nat, Delivery>, id: nat, minIdle: int, now: int) {
    id in pending && now - pending[id].at >= minIdle
  }

  /** The ids of `ids` that have been idle for at least `minIdle`, in the same order. */
  function StaleAmong(pending: map<nat, Delivery>, ids: seq<nat>, minIdle: int, now: int): (r: seq<nat>)
    ensures forall id :: id in r <==> id in ids && Stale(pending, id, minIdle, now)
    ensures (forall id <- ids :: Stale(pending, id, minIdle, now)) ==> r == ids
  {
    if ids == [] then []
    else
      var front, last := ids[..|ids| - 1], ids[|ids| - 1];
      StaleAmong(pending, front, minIdle, now) + (if Stale(pending, last, minIdle, now) then [last] else [])
  }

  ghost predicate Increasing(ids: seq<nat>) {
    forall i, j | 0 <= i < j < |ids| :: ids[i] < ids[j]
  }

  lemma {:induction false} StaleAmongKeepsOrder(pending: map<nat, Delivery>, ids: seq<nat>, minIdle: int, now: int)
    requires Increasing(ids)
    ensures Increasing(StaleAmong(pending, ids, minIdle, now))
  {
    if ids != [] {
      var front, r := ids[..|ids| - 1], StaleAmong(pending, ids[..|ids| - 1], minIdle, now);
      StaleAmongKeepsOrder(pending, front, minIdle, now);
      assert forall i | 0 <= i < |r| :: r[i] in front;
    }
  }

  /** XCLAIM: of the named ids, those still pending and idle for long enough change owner. */
  function Claimed<T>(s: Stream<T>, ids: seq<nat>, c: Consumer, minIdle: int, now: int): Stream<T> {
    s.(pending := map id | id in s.pending ::
                    if id in ids && Stale(s.pending, id, minIdle, now) then Delivery(c, now) else s.pending[id])
  }

  /** What a claim moves, in arithmetic: a named id that is pending and was last delivered at least `minIdle`
      ago goes to the claimer, as of now; every other pending id keeps its owner and its time. */
  lemma ClaimMovesIff<T>(s: Stream<T>, ids: seq<nat>, c: Consumer, minIdle: int, now: int)
    ensures var s' := Claimed(s, ids, c, minIdle, now);
            && s'.pending.Keys == s.pending.Keys && s'.entries == s.entries && s'.next == s.next && s'.acked == s.acked
            && (forall id | id in s.pending ::
                  s'.pending[id] == if id in ids && now - s.pending[id].at >= minIdle
                                    then Delivery(c, now) else s.pending[id])
  {}
}
