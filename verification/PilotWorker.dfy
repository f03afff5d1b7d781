/** The pilot sync worker: bounded retries over the pilot queue, with a two-tier retry counter. */
module PilotWorker {
  import opened Wrappers
  import opened RedisStream
  import opened RedisQueue
  import opened SingleConsumer
  import opened Airtable
  import opened PilotUpsert

  const MAX_RETRIES: nat := 3
  const CONSUMER: Consumer := "worker_1"

  datatype PilotItem = PilotItem(vaID: string, atID: string, fields: Fields, schema: Option<PilotSchema>)

  /** processPilot */
  function ProcessPilot(t: Tables, item: PilotItem, fault: Fault): (Tables, bool) {
    match item.schema
    case None => (t, false)
    case Some(schema) => UpsertPilot(t, item.vaID, item.atID, item.fields, FromQueue(schema), fault)
  }

  /** Whether an attempt that no database fault hits succeeds; it does not depend on the tables. */
  predicate Usable(item: PilotItem) {
    item.schema.Some? && Callsign(item.fields, FromQueue(item.schema.value)).Some?
  }

  /** What the worker does with an item, kept as a value so that the queue protocol can be stated for
      any such job; the worker's own is PilotJob. */
  datatype Job = Job(run: (Tables, PilotItem, Fault) -> (Tables, bool), usable: PilotItem -> bool)

  function PilotJob(): Job {
    Job(ProcessPilot, Usable)
  }

  /** What an attempt may do: a success leaves what a clean attempt leaves, an unusable item leaves nothing,
      and whatever a failure leaves behind makes no difference to a later clean attempt. */
  ghost predicate OutcomeOf(job: Job, t: Tables, item: PilotItem, fault: Fault) {
    var (t', ok) := job.run(t, item, fault);
    && job.run(t, item, NoFault).1 == job.usable(item)
    && job.run(t', item, NoFault).0 == job.run(t, item, NoFault).0
    && (ok ==> t' == job.run(t, item, NoFault).0)
    && (!job.usable(item) ==> t' == t && !ok)
  }

  ghost predicate Converges(job: Job) {
    forall t: Tables, item: PilotItem, fault: Fault :: OutcomeOf(job, t, item, fault)
  }

  lemma PilotJobConverges()
    ensures Converges(PilotJob())
  {
    forall t: Tables, item: PilotItem, fault: Fault ensures OutcomeOf(PilotJob(), t, item, fault) {
      AttemptOutcome(t, item, fault);
    }
  }

  lemma AttemptOutcome(t: Tables, item: PilotItem, fault: Fault)
    ensures var (t', ok) := ProcessPilot(t, item, fault);
            && ProcessPilot(t, item, NoFault).1 == Usable(item)
            && ProcessPilot(t', item, NoFault).0 == ProcessPilot(t, item, NoFault).0
            && (ok ==> t' == ProcessPilot(t, item, NoFault).0)
            && (!Usable(item) ==> t' == t && !ok) && (item.schema.None? ==> !Usable(item))
  {
    if item.schema.Some? {
      var schema := FromQueue(item.schema.value);
      CleanAttemptConverges(t, item.vaID, item.atID, item.fields, schema, fault);
      UpsertFails(t, item.vaID, item.atID, item.fields, schema, fault);
    }
  }

  /** An attempt touches no pilot row but that of the item's own VA and record, and a success leaves one there. */
  lemma AttemptTouchesOwnRow(t: Tables, item: PilotItem, fault: Fault)
    ensures var (t', ok) := ProcessPilot(t, item, fault);
            && t'.pilots - {(item.vaID, item.atID)} == t.pilots - {(item.vaID, item.atID)}
            && (ok ==> (item.vaID, item.atID) in t'.pilots)
  {
    if item.schema.Some? {
      UpsertTouchesOwnRow(t, item.vaID, item.atID, item.fields, FromQueue(item.schema.value), fault);
    }
  }

  /** The stream, the two tiers of retry counts (shared cache and process memory) and the database. */
  datatype Worker = Worker(stream: Stream<PilotItem>, cache: map<nat, nat>, counts: map<nat, nat>, tables: Tables)

  function RetryCount(cache: map<nat, nat>, counts: map<nat, nat>, id: nat): nat {
    if id in cache then cache[id] else if id in counts then counts[id] else 0
  }

  /** Both tiers show one try more. */
  ghost predicate GetsAnotherTry(cache: map<nat, nat>, counts: map<nat, nat>, id: nat, tries: nat) {
    id in cache && id in counts && cache[id] == counts[id] == tries + 1
  }

  /** One pass of processNext. */
  function AfterProcessNext(w: Worker, now: int, fault: Fault, job: Job): Worker
    requires Conserved(w.stream)
  {
    var (stream, r) := ReadPendingFirst(w.stream, CONSUMER, now);
    match r
    case Empty => w
    case DecodeError => w.(stream := stream)
    case Item(item, id) =>
      var (tables, ok) := job.run(w.tables, item, fault);
      var count := RetryCount(w.cache, w.counts, id);
      if !ok && count < MAX_RETRIES then
        Worker(stream, w.cache[id := count + 1], w.counts[id := count + 1], tables)
      else
        Worker(Acknowledged(stream, id), w.cache - {id}, w.counts - {id}, tables)
  }

  // ----- the worker as an object -----

  class SyncWorker {
    const queue: RedisQueueService<PilotItem>
    var cache: map<nat, nat>
    var retryCounts: map<nat, nat>
    var tables: Tables

    ghost function Model(): Worker
      reads this, queue
    {
      Worker(queue.Stream(), cache, retryCounts, tables)
    }

    constructor (queue: RedisQueueService<PilotItem>, tables: Tables)
      ensures this.queue == queue && Model() == Worker(queue.Stream(), map[], map[], tables)
    {
      this.queue, this.cache, this.retryCounts, this.tables := queue, map[], map[], tables;
    }

    method GetRetryCount(id: nat) returns (count: nat)
      ensures count == RetryCount(cache, retryCounts, id)
      ensures id in cache ==> count == cache[id]
      ensures id !in cache ==> count == if id in retryCounts then retryCounts[id] else 0
    {
      if id in cache {
        return cache[id];
      }
      count := if id in retryCounts then retryCounts[id] else 0;
    }

    method IncrementRetryCount(id: nat) returns (newCount: nat)
      modifies this
      ensures newCount == RetryCount(old(cache), old(retryCounts), id) + 1 && tables == old(tables)
      ensures cache == old(cache)[id := newCount] && retryCounts == old(retryCounts)[id := newCount]
    {
      var currentCount := GetRetryCount(id);
      newCount := currentCount + 1;
      cache := cache[id := newCount];
      retryCounts := retryCounts[id := newCount];
    }

    method ClearRetryCount(id: nat)
      modifies this
      ensures cache == old(cache) - {id} && retryCounts == old(retryCounts) - {id} && tables == old(tables)
    {
      cache := cache - {id};
      retryCounts := retryCounts - {id};
    }

    /** The error is reported for an entry that cannot be decoded, and only then. */
    method ProcessNext(now: int, fault: Fault) returns (ok: bool)
      requires Conserved(queue.Stream())
      modifies this, queue
      ensures Model() == AfterProcessNext(old(Model()), now, fault, PilotJob())
      ensures ok <==> !ReadPendingFirst(old(queue.Stream()), CONSUMER, now).1.DecodeError?
      ensures var r := ReadPendingFirst(old(queue.Stream()), CONSUMER, now).1;
              r.Item? ==> (
                var tries := RetryCount(old(cache), old(retryCounts), r.id);
                if !ProcessPilot(old(tables), r.item, fault).1 && tries < 3
                then r.id in queue.pending && GetsAnotherTry(cache, retryCounts, r.id, tries)
                else r.id in queue.acked && r.id !in queue.pending && r.id !in cache && r.id !in retryCounts)
    {
      var r := queue.DequeuePendingFirst(CONSUMER, now);
      match r {
        case Empty => return true;
        case DecodeError => return false;
        case Item(item, id) =>
          var (t, done) := ProcessPilot(tables, item, fault);
          tables := t;
          if !done {
            var retryCount := GetRetryCount(id);
            if retryCount < MAX_RETRIES {
              var _ := IncrementRetryCount(id);
              return true;
            }
            queue.XAck(id);
            ClearRetryCount(id);
            return true;
          }
          queue.XAck(id);
          ClearRetryCount(id);
          return true;
      }
    }
  }
}
