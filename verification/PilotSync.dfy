/** The pilot sync job: one paging loop, two ways to process what it fetches. */
module PilotSync {
  import opened Wrappers
  import opened Folds
  import opened RedisStream
  import opened RedisQueue
  import opened Airtable
  import opened PilotUpsert
  import opened PilotWorker
  import opened PilotFifo

  /** What the provider answers for one page. */
  datatype Page = FetchFails | Fetched(records: seq<Record>)

  datatype Result = Result(count: nat, ok: bool)

  /** The records of the pages before the first one that cannot be fetched. */
  function Collected(pages: seq<Page>): seq<Record> {
    if pages == [] then []
    else
      var before := Collected(pages[..|pages| - 1]);
      if Failing(pages) then before else before + pages[|pages| - 1].records
  }

  predicate Failing(pages: seq<Page>) {
    FetchFails in pages
  }

  function UpsertInto(vaID: string, schema: EntitySchema): (Tables, Record) -> Tables {
    (t: Tables, r: Record) => UpsertPilot(t, vaID, r.id, r.fields, schema, NoFault).0
  }

  /** upsertPilot on each record in turn, without faults; errors are skipped. */
  function Upserted(t: Tables, vaID: string, records: seq<Record>, schema: EntitySchema): Tables {
    Fold(t, records, UpsertInto(vaID, schema))
  }

  function AcceptedBy(schema: EntitySchema): Record -> bool {
    (r: Record) => Callsign(r.fields, schema).Some?
  }

  /** How many records upsertPilot accepts. */
  function Accepted(records: seq<Record>, schema: EntitySchema): nat {
    Count(records, AcceptedBy(schema))
  }

  function ToItem(vaID: string, record: Record, schema: EntitySchema): PilotItem {
    PilotItem(vaID, record.id, record.fields, Some(ToQueue(schema)))
  }

  function ToItems(vaID: string, records: seq<Record>, schema: EntitySchema): (items: seq<PilotItem>)
    ensures |items| == |records|
    ensures forall k | 0 <= k < |records| :: items[k] == ToItem(vaID, records[k], schema)
  {
    seq(|records|, k requires 0 <= k < |records| => ToItem(vaID, records[k], schema))
  }

  lemma {:induction false} EncodableConcat<T>(a: seq<T>, b: seq<T>, marshals: T -> bool)
    ensures Encodable(a + b, marshals) == Encodable(a, marshals) + Encodable(b, marshals)
  {
    if b == [] {
      assert a + b == a;
    } else {
      EncodableConcat(a, b[..|b| - 1], marshals);
      assert (a + b)[..|a + b| - 1] == a + b[..|b| - 1];
    }
  }

  lemma EntriesConcat(vaID: string, a: seq<Record>, b: seq<Record>, schema: EntitySchema)
    ensures Entries(ToItems(vaID, a + b, schema))
      == Entries(ToItems(vaID, a, schema)) + Entries(ToItems(vaID, b, schema))
  {
    EncodableConcat(ToItems(vaID, a, schema), ToItems(vaID, b, schema), Marshals);
    assert ToItems(vaID, a + b, schema) == ToItems(vaID, a, schema) + ToItems(vaID, b, schema);
  }

  /** What a sync adds to the history: its VA, when every page was fetched and something was counted, which
      is the records enqueued in queue mode and the records accepted in direct mode. */
  function Recorded(useQueue: bool, vaID: string, pages: seq<Page>, schema: EntitySchema): seq<string> {
    var count := if useQueue then |Collected(pages)| else Accepted(Collected(pages), schema);
    if !Failing(pages) && count > 0 then [vaID] else []
  }

  lemma RowOfRecord(t: Tables, vaID: string, r: Record, schema: EntitySchema, key: Key)
    ensures key in UpsertInto(vaID, schema)(t, r).pilots
       <==> key in t.pilots || (AcceptedBy(schema)(r) && key == (vaID, r.id))
  {
    UpsertFails(t, vaID, r.id, r.fields, schema, NoFault);
    UpsertTouchesOwnRow(t, vaID, r.id, r.fields, schema, NoFault);
    var after := UpsertInto(vaID, schema)(t, r).pilots;
    assert key != (vaID, r.id) ==> (key in after <==> key in after - {(vaID, r.id)});
    assert key != (vaID, r.id) ==> (key in t.pilots <==> key in t.pilots - {(vaID, r.id)});
  }

  /** Direct mode leaves a row for every record that is accepted, under its VA and id, beside those that were there. */
  lemma {:induction false} RowsOfRecords(t: Tables, vaID: string, records: seq<Record>, schema: EntitySchema, key: Key)
    ensures key in Upserted(t, vaID, records, schema).pilots
       <==> key in t.pilots || exists r: Record <- records :: AcceptedBy(schema)(r) && key == (vaID, r.id)
  {
    if records != [] {
      var front, last := records[..|records| - 1], records[|records| - 1];
      RowsOfRecords(t, vaID, front, schema, key);
      RowOfRecord(Upserted(t, vaID, front, schema), vaID, last, schema, key);
      assert records == front + [last];
    }
  }

  class SyncJob {
    const queue: RedisQueueService<PilotItem>
    const useQueue: bool
    var tables: Tables
    var syncHistory: seq<string>

    constructor (queue: RedisQueueService<PilotItem>, useQueue: bool, tables: Tables)
      ensures this.queue == queue && this.useQueue == useQueue && this.tables == tables && syncHistory == []
    {
      this.queue, this.useQueue, this.tables, this.syncHistory := queue, useQueue, tables, [];
    }

    method UpsertPage(vaID: string, records: seq<Record>, schema: EntitySchema) returns (synced: nat)
      modifies this
      ensures tables == Upserted(old(tables), vaID, records, schema) && synced == Accepted(records, schema)
      ensures syncHistory == old(syncHistory)
    {
      synced := 0;
      for k := 0 to |records|
        invariant tables == Upserted(old(tables), vaID, records[..k], schema)
        invariant synced == Accepted(records[..k], schema) && syncHistory == old(syncHistory)
      {
        assert records[..k + 1][..k] == records[..k];
        UpsertFails(tables, vaID, records[k].id, records[k].fields, schema, NoFault);
        var (t, ok) := UpsertPilot(tables, vaID, records[k].id, records[k].fields, schema, NoFault);
        tables := t;
        if ok {
          synced := synced + 1;
        }
      }
      assert records[..|records|] == records;
    }

    /** The body of the paging loop: one page is enqueued or upserted. */
    method ProcessPage(vaID: string, records: seq<Record>, schema: EntitySchema) returns (count: nat)
      modifies this, queue
      ensures Advanced(useQueue, old(queue.Stream()), old(tables), queue.Stream(), tables, count, vaID, records, schema)
      ensures syncHistory == old(syncHistory)
    {
      if useQueue {
        queue.EnqueueBatch(ToItems(vaID, records, schema), Marshals);
        count := |records|;
      } else {
        count := UpsertPage(vaID, records, schema);
      }
    }

    /** The paging loop of SyncVAPilots. In queue mode the records of every page fetched are appended to
        the stream; in direct mode they are upserted. A page that cannot be fetched ends the call with
        an error and leaves what the earlier pages did; the sync is recorded only when every page was
        fetched and the reported count is positive. */
    method SyncVAPilots(vaID: string, schema: EntitySchema, pages: seq<Page>) returns (r: Result)
      requires pages != []
      modifies this, queue
      ensures exists count :: Advanced(useQueue, old(queue.Stream()), old(tables), queue.Stream(), tables, count,
                                       vaID, Collected(pages), schema)
                              && r == (if Failing(pages) then Result(0, false) else Result(count, true))
      ensures syncHistory == old(syncHistory) + (if r.ok && r.count > 0 then [vaID] else [])
      ensures syncHistory == old(syncHistory) + Recorded(useQueue, vaID, pages, schema)
    {
      var offset, total := 0, 0;
      ghost var s0, t0 := queue.Stream(), tables;
      NothingAdvances(useQueue, s0, t0, vaID, schema);
      while true
        invariant 0 <= offset < |pages| && !Failing(pages[..offset])
        invariant syncHistory == old(syncHistory)
        invariant Advanced(useQueue, s0, t0, queue.Stream(), tables, total, vaID, Collected(pages[..offset]), schema)
        decreases |pages| - offset
      {
        ghost var s1, t1 := queue.Stream(), tables;
        if pages[offset].FetchFails? {
          CollectedStops(pages, offset);
          return Result(0, false);
        }
        var count := ProcessPage(vaID, pages[offset].records, schema);
        AdvancedTransitive(useQueue, s0, t0, s1, t1, queue.Stream(), tables, total, count,
                           vaID, Collected(pages[..offset]), pages[offset].records, schema);
        CollectedGrows(pages, offset);
        total := total + count;
        if offset + 1 == |pages| {
          assert pages[..offset + 1] == pages;
          break;
        }
        offset := offset + 1;
      }
      r := Result(total, true);
      if r.count > 0 {
        syncHistory := syncHistory + [vaID];
      }
    }
  }

  /** What processing `records` does in each mode: in queue mode they are appended to the stream, in
      direct mode they are upserted; the count is of the records enqueued or accepted. */
  ghost predicate Advanced(useQueue: bool, s0: Stream<PilotItem>, t0: Tables, s1: Stream<PilotItem>, t1: Tables,
                           count: nat, vaID: string, records: seq<Record>, schema: EntitySchema)
  {
    if useQueue then
      && t1 == t0 && count == |records|
      && s1 == s0.(entries := s0.entries + Entries(ToItems(vaID, records, schema)))
    else
      && s1 == s0 && count == Accepted(records, schema)
      && t1 == Upserted(t0, vaID, records, schema)
  }

  lemma NothingAdvances(useQueue: bool, s: Stream<PilotItem>, t: Tables, vaID: string, schema: EntitySchema)
    ensures Advanced(useQueue, s, t, s, t, 0, vaID, [], schema)
  {
    AllEncodable(ToItems(vaID, [], schema), Marshals);
    assert s.entries + Entries(ToItems(vaID, [], schema)) == s.entries;
  }

  lemma AdvancedTransitive(useQueue: bool, s0: Stream<PilotItem>, t0: Tables, s1: Stream<PilotItem>, t1: Tables,
                           s2: Stream<PilotItem>, t2: Tables, count1: nat, count2: nat,
                           vaID: string, records1: seq<Record>, records2: seq<Record>, schema: EntitySchema)
    requires Advanced(useQueue, s0, t0, s1, t1, count1, vaID, records1, schema)
    requires Advanced(useQueue, s1, t1, s2, t2, count2, vaID, records2, schema)
    ensures Advanced(useQueue, s0, t0, s2, t2, count1 + count2, vaID, records1 + records2, schema)
  {
    EntriesConcat(vaID, records1, records2, schema);
    FoldConcat(t0, records1, records2, UpsertInto(vaID, schema));
    CountConcat(records1, records2, AcceptedBy(schema));
  }

  lemma CollectedGrows(pages: seq<Page>, k: nat)
    requires k < |pages| && !Failing(pages[..k]) && pages[k].Fetched?
    ensures !Failing(pages[..k + 1]) && Collected(pages[..k + 1]) == Collected(pages[..k]) + pages[k].records
  {
    assert pages[..k + 1] == pages[..k] + [pages[k]];
    assert pages[..k + 1][..k] == pages[..k];
  }

  lemma {:induction false} CollectedStops(pages: seq<Page>, k: nat)
    requires k < |pages| && pages[k].FetchFails?
    ensures Failing(pages) && Collected(pages) == Collected(pages[..k])
  {
    assert pages[k] in pages;
    var front := pages[..|pages| - 1];
    if k < |front| {
      CollectedStops(front, k);
      assert front[..k] == pages[..k];
    }
  }

  // ----- the two modes compared -----

  lemma {:induction false} SettledIsUpserted(t: Tables, vaID: string, records: seq<Record>, schema: EntitySchema)
    ensures Settled(t, Entries(ToItems(vaID, records, schema)), PilotJob()) == Upserted(t, vaID, records, schema)
  {
    var entries := Entries(ToItems(vaID, records, schema));
    AllEncodable(ToItems(vaID, records, schema), Marshals);
    if records != [] {
      var front, last := records[..|records| - 1], records[|records| - 1];
      SettledIsUpserted(t, vaID, front, schema);
      AllEncodable(ToItems(vaID, front, schema), Marshals);
      assert entries[..|entries| - 1] == Entries(ToItems(vaID, front, schema));
      QueueTripKeepsUpsert(Upserted(t, vaID, front, schema), vaID, last.id, last.fields, schema, NoFault);
    }
  }

  /** Queue mode refines direct mode. Take any run in which the records, and nothing else, were
      enqueued, in batches of any size, interleaved with any number of worker passes, faults and cache
      expiries. Once the queue is drained and no usable message was dropped after four faulted tries,
      pilots, roles and cached statistics are what upserting every record directly leaves. */
  lemma QueueModeRefinesDirectMode(t: Tables, vaID: string, records: seq<Record>, schema: EntitySchema,
                                   run: seq<Action>, w: Worker, f: Fifo)
    requires Enqueued(run) == Entries(ToItems(vaID, records, schema))
    requires w == WorkerRun(PilotFifo.Start(t), run, PilotJob())
    requires f == FifoRun(Idle(t), run, PilotJob()) && f.queue == [] && f.lost == 0
    ensures w.tables == Upserted(t, vaID, records, schema)
  {
    PilotJobConverges();
    DrainedRunIsOnePass(t, run, PilotJob(), w, f);
    SettledIsUpserted(t, vaID, records, schema);
  }

  /** The same from the schedule alone: the records are enqueued in any interleaving with passes, expiries and
      restarts, then four passes for each record and three for each restart follow, and no four passes in a
      row are hit by a fault. */
  lemma ScheduleRefinesDirectMode(t: Tables, vaID: string, records: seq<Record>, schema: EntitySchema,
                                  run: seq<Action>, drain: seq<Action>)
    requires Enqueued(run) == Entries(ToItems(vaID, records, schema)) && (forall a <- drain :: !Adds(a))
    requires Passes(drain) >= 4 * |records| + 3 * (Restarts(run) + Restarts(drain)) && ShortStreaks(run + drain)
    ensures WorkerRun(PilotFifo.Start(t), run + drain, PilotJob()).tables == Upserted(t, vaID, records, schema)
  {
    PilotJobConverges();
    AllEncodable(ToItems(vaID, records, schema), Marshals);
    DrainsAfter(t, run, drain, PilotJob());
    ShortStreaksLoseNothing(t, run + drain, PilotJob());
    var f := FifoRun(Idle(t), run + drain, PilotJob());
    var w := WorkerRun(PilotFifo.Start(t), run + drain, PilotJob());
    QueueModeRefinesDirectMode(t, vaID, records, schema, run + drain, w, f);
  }

  /** End to end: what SyncVAPilots leaves in queue mode, drained by the worker, is direct mode. */
  lemma SyncThenDrain(t: Tables, vaID: string, pages: seq<Page>, schema: EntitySchema, drain: seq<Action>,
                      s: Stream<PilotItem>, count: nat)
    requires Advanced(true, PilotFifo.Start(t).stream, t, s, t, count, vaID, Collected(pages), schema)
    requires (forall a <- drain :: !Adds(a)) && Passes(drain) >= 4 * |Collected(pages)| + 3 * Restarts(drain)
    requires ShortStreaks([Enqueue(ToItems(vaID, Collected(pages), schema))] + drain)
    ensures WorkerRun(PilotFifo.Start(t).(stream := s), drain, PilotJob()).tables
         == Upserted(t, vaID, Collected(pages), schema)
  {
    var records := Collected(pages);
    var run := [Enqueue(ToItems(vaID, records, schema))];
    assert run[..0] == [];
    assert Enqueued(run) == Entries(ToItems(vaID, records, schema));
    RunConcat(PilotFifo.Start(t), Idle(t), run, drain, PilotJob());
    assert WorkerRun(PilotFifo.Start(t), run, PilotJob()) == PilotFifo.Start(t).(stream := s);
    ScheduleRefinesDirectMode(t, vaID, records, schema, run, drain);
  }

  /** The two modes do not agree on the sync history, which bounds the next incremental sync. They leave
      the same one exactly when a page could not be fetched, nothing was fetched or some record is
      acceptable. */
  lemma HistoriesAgreeIff(vaID: string, pages: seq<Page>, schema: EntitySchema)
    ensures Recorded(true, vaID, pages, schema) == Recorded(false, vaID, pages, schema)
       <==> Failing(pages) || Collected(pages) == [] || exists r <- Collected(pages) :: AcceptedBy(schema)(r)
  {
    CountPositiveIff(Collected(pages), AcceptedBy(schema));
  }

  /** So a page of one record without a usable callsign is recorded in queue mode only, which then skips
      the record in the next incremental sync. */
  lemma HistoryDivergesOnBadRecord(vaID: string, schema: EntitySchema, id: string)
    ensures var pages := [Fetched([Record(id, map[])])];
            Recorded(true, vaID, pages, schema) == [vaID] && Recorded(false, vaID, pages, schema) == []
  {
    var r := Record(id, map[]);
    var pages := [Fetched([r])];
    assert pages[..0] == [] && Collected(pages) == [r];
    assert Callsign(r.fields, schema).None?;
    CountPositiveIff([r], AcceptedBy(schema));
  }
}
