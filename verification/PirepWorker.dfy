/** The PIREP worker loops as methods: one pass of a consumer, and one tick of the claimer. */
module PirepWorker {
  import opened Wrappers
  import opened RedisStream
  import opened RedisQueue
  import opened PirepUpsert
  import opened PirepProtocol

  const CLAIM_IDLE: int := 300_000_000_000   // five minutes

  /** Whether the database answers while message `id` is processed. */
  type DbFaults = nat -> bool

  /** The table after processing the claimed messages in order. */
  function ProcessedAll(t: Table, items: seq<Pirep>, ids: seq<nat>, rowOf: Meaning, dbOk: DbFaults): Table
    requires |items| == |ids|
  {
    if items == [] then t
    else
      var n := |items| - 1;
      Processed(ProcessedAll(t, items[..n], ids[..n], rowOf, dbOk), items[n], rowOf, dbOk(ids[n])).0
  }

  function AcknowledgedAll<T>(s: Stream<T>, ids: seq<nat>): Stream<T> {
    if ids == [] then s else Acknowledged(AcknowledgedAll(s, ids[..|ids| - 1]), ids[|ids| - 1])
  }

  class QueueWorker {
    const queue: RedisQueueService<Pirep>
    const rowOf: Meaning
    var table: Table

    constructor (queue: RedisQueueService<Pirep>, rowOf: Meaning, table: Table)
      ensures this.queue == queue && this.rowOf == rowOf && this.table == table
    {
      this.queue, this.rowOf, this.table := queue, rowOf, table;
    }

    /** One pass of processQueue. A message that was read is acknowledged whether or not it was written;
        one that cannot be decoded is reported and stays pending. */
    method ProcessNext(worker: Consumer, now: int, dbOk: DbFaults, processedCount: nat, errorCount: nat)
      returns (processed: nat, errors: nat)
      modifies this, queue
      ensures var (s, r) := ReadNew(old(queue.Stream()), worker, now);
              match r
              case Item(item, id) =>
                var (t, ok) := Processed(old(table), item, rowOf, dbOk(id));
                && queue.Stream() == Acknowledged(s, id) && table == t
                && (processed, errors)
                  == (if ok then (processedCount + 1, errorCount) else (processedCount, errorCount + 1))
              case _ =>
                && queue.Stream() == s && table == old(table)
                && (processed, errors) == (processedCount, errorCount)
    {
      processed, errors := processedCount, errorCount;
      var r := queue.DequeueNew(worker, now);
      if !r.Item? {
        return;
      }
      var (t, ok) := Processed(table, r.item, rowOf, dbOk(r.id));
      table := t;
      if ok {
        processed := processed + 1;
      } else {
        errors := errors + 1;
      }
      queue.XAck(r.id);
    }

    /** Process and acknowledge what was claimed, one by one, written or not. */
    method ProcessClaimed(items: seq<Pirep>, ids: seq<nat>, dbOk: DbFaults)
      requires |items| == |ids|
      modifies this, queue
      ensures table == ProcessedAll(old(table), items, ids, rowOf, dbOk)
      ensures queue.Stream() == AcknowledgedAll(old(queue.Stream()), ids)
    {
      for k := 0 to |items|
        invariant table == ProcessedAll(old(table), items[..k], ids[..k], rowOf, dbOk)
        invariant queue.Stream() == AcknowledgedAll(old(queue.Stream()), ids[..k])
      {
        assert items[..k + 1][..k] == items[..k] && ids[..k + 1][..k] == ids[..k];
        var (t, _) := Processed(table, items[k], rowOf, dbOk(ids[k]));
        table := t;
        queue.XAck(ids[k]);
      }
      assert items[..|items|] == items && ids[..|ids|] == ids;
    }

    /** One tick of claimStaleMessages on one stream: up to a hundred stale messages change owner, and
        those that decode are processed and acknowledged. The result is what the tick logs. */
    method ClaimTick(listedAt: int, claimedAt: int, dbOk: DbFaults) returns (items: seq<Pirep>, ids: seq<nat>)
      requires Conserved(queue.Stream()) && listedAt <= claimedAt
      modifies this, queue
      ensures var before := old(queue.Stream());
              var stale := StaleAmong(before.pending, PendingBelow(before.pending, before.next, XPENDING_COUNT),
                CLAIM_IDLE, listedAt);
              && ids == DecodableAmong(before.entries, stale) && |items| == |ids|
              && queue.Stream() == AcknowledgedAll(Claimed(before, stale, CLAIMER, CLAIM_IDLE, claimedAt), ids)
      ensures forall k | 0 <= k < |ids| ::
        ids[k] < |old(queue.entries)| && old(queue.entries)[ids[k]] == Encoded(items[k])
      ensures table == ProcessedAll(old(table), items, ids, rowOf, dbOk)
      ensures Increasing(ids)
      ensures forall id: nat :: id in ids <==> (
        && AmongFirst(old(queue.pending), id, 100) && listedAt - old(queue.pending)[id].at >= 300_000_000_000
        && id < |old(queue.entries)| && old(queue.entries)[id].Encoded?)
      ensures forall id | id in old(queue.pending) && listedAt < old(queue.pending)[id].at + 300_000_000_000 ::
        id in queue.pending && queue.pending[id] == old(queue.pending)[id]
    {
      items, ids := queue.ClaimStale(CLAIMER, CLAIM_IDLE, listedAt, claimedAt);
      AcknowledgesExactly(queue.Stream(), ids);
      ProcessClaimed(items, ids, dbOk);
    }
  }

  /** A claimer tick leaves none of the messages it could decode pending: each has been acknowledged, and
      nothing else has. */
  lemma {:induction false} AcknowledgesExactly<T>(s: Stream<T>, ids: seq<nat>)
    requires forall id <- ids :: id in s.pending
    ensures var s' := AcknowledgedAll(s, ids);
            && s'.pending == s.pending - (set id | id in ids) && s'.acked == s.acked + (set id | id in ids)
            && s'.entries == s.entries && s'.next == s.next
  {
    if ids != [] {
      var front, last := ids[..|ids| - 1], ids[|ids| - 1];
      AcknowledgesExactly(s, front);
      assert (set id | id in ids) == (set id | id in front) + {last};
    }
  }

  // ----- the loops as steps of the protocol -----

  /** A pass of an idle worker is three steps of the protocol: deliver, process, acknowledge. */
  lemma PassIsThreeSteps(p: System, c: Consumer, now: int, dbOk: bool, rowOf: Meaning)
    requires Inv(p) && c != CLAIMER && Hand(p, c) == []
    ensures var q := After(After(After(p, Deliver(c, now), rowOf), Process(c, dbOk), rowOf), Ack(c), rowOf);
            var (s, r) := ReadNew(p.stream, c, now);
            && Hand(q, c) == []
            && q.stream == (if r.Item? then Acknowledged(s, r.id) else s)
            && q.table == (if r.Item? then Processed(p.table, r.item, rowOf, dbOk).0 else p.table)
  {
    var p1 := After(p, Deliver(c, now), rowOf);
    StepKeepsInv(p, Deliver(c, now), rowOf);
    assert Hand(p1, c) != [] ==> HeldOk(p1, Hand(p1, c)[0]);
  }

  /** The claimer works off the first of its messages, one by one. */
  function Rounds(p: System, ids: seq<nat>, rowOf: Meaning, dbOk: DbFaults): System {
    if ids == [] then p
    else
      var n := |ids| - 1;
      After(After(Rounds(p, ids[..n], rowOf, dbOk), Process(CLAIMER, dbOk(ids[n])), rowOf), Ack(CLAIMER), rowOf)
  }

  lemma OneRound(p: System, item: Pirep, id: nat, rest: seq<nat>, rowOf: Meaning, dbOk: bool)
    requires Hand(p, CLAIMER) == Hold([id] + rest) && id < |p.stream.entries| && p.stream.entries[id] == Encoded(item)
    ensures var q := After(After(p, Process(CLAIMER, dbOk), rowOf), Ack(CLAIMER), rowOf);
            && Hand(q, CLAIMER) == Hold(rest) && q.stream == Acknowledged(p.stream, id)
            && q.table == Processed(p.table, item, rowOf, dbOk).0
  {
    var p1 := After(p, Process(CLAIMER, dbOk), rowOf);
    assert Hold([id] + rest)[1..] == Hold(rest);
    assert Hand(p1, CLAIMER) == [Held(id, true)] + Hold(rest);
    assert ([Held(id, true)] + Hold(rest))[1..] == Hold(rest);
  }

  /** Working off claimed messages is a process and an acknowledge step for each, in order. */
  lemma {:induction false} RoundsWorkOff(p: System, items: seq<Pirep>, ids: seq<nat>, rest: seq<nat>, rowOf: Meaning,
                                         dbOk: DbFaults)
    requires |items| == |ids| && Hand(p, CLAIMER) == Hold(ids + rest)
    requires forall k | 0 <= k < |ids| :: ids[k] < |p.stream.entries| && p.stream.entries[ids[k]] == Encoded(items[k])
    ensures var q := Rounds(p, ids, rowOf, dbOk);
            && Hand(q, CLAIMER) == Hold(rest) && q.stream == AcknowledgedAll(p.stream, ids)
              && q.stream.entries == p.stream.entries
            && q.table == ProcessedAll(p.table, items, ids, rowOf, dbOk)
  {
    if ids == [] {
      assert ids + rest == rest;
    } else {
      var n := |ids| - 1;
      assert ids[..n] + ([ids[n]] + rest) == ids + rest;
      RoundsWorkOff(p, items[..n], ids[..n], [ids[n]] + rest, rowOf, dbOk);
      OneRound(Rounds(p, ids[..n], rowOf, dbOk), items[n], ids[n], rest, rowOf, dbOk(ids[n]));
    }
  }

  /** A tick of the claimer is a claim step followed by the rounds for what it claimed. */
  lemma TickIsClaimAndRounds(p: System, stale: seq<nat>, items: seq<Pirep>, ids: seq<nat>, now: int, rowOf: Meaning,
                             dbOk: DbFaults)
    requires Hand(p, CLAIMER) == [] && (forall id <- stale :: Stale(p.stream.pending, id, CLAIM_IDLE, now))
    requires ids == DecodableAmong(p.stream.entries, stale) && |items| == |ids|
    requires forall k | 0 <= k < |ids| :: ids[k] < |p.stream.entries| && p.stream.entries[ids[k]] == Encoded(items[k])
    ensures var q := Rounds(After(p, Claim(stale, CLAIM_IDLE, now), rowOf), ids, rowOf, dbOk);
            && Hand(q, CLAIMER) == []
            && q.stream == AcknowledgedAll(Claimed(p.stream, stale, CLAIMER, CLAIM_IDLE, now), ids)
            && q.table == ProcessedAll(p.table, items, ids, rowOf, dbOk)
  {
    assert ids + [] == ids;
    RoundsWorkOff(After(p, Claim(stale, CLAIM_IDLE, now), rowOf), items, ids, [], rowOf, dbOk);
  }
}
