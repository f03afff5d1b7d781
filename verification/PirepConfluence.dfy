/** When at-least-once delivery to many workers gives the same table as one ordered pass. */
module PirepConfluence {
  import opened Wrappers
  import opened RedisStream
  import opened RedisQueue
  import opened PirepUpsert
  import opened PirepProtocol

  /** The row that entry `id` writes, if it writes one. */
  function RowAt(entries: seq<Payload<Pirep>>, id: nat, rowOf: Meaning): Option<Row> {
    if id < |entries| && entries[id].Encoded? then rowOf(entries[id].item) else None
  }

  function KeyAt(entries: seq<Payload<Pirep>>, id: nat): Key
    requires id < |entries| && entries[id].Encoded?
  {
    KeyOf(entries[id].item)
  }

  /** One pass over the entries in stream order, without faults. */
  function OnePass(t: Table, entries: seq<Payload<Pirep>>, rowOf: Meaning): Table {
    if entries == [] then t
    else
      var before, last := OnePass(t, entries[..|entries| - 1], rowOf), entries[|entries| - 1];
      if last.Encoded? then Processed(before, last.item, rowOf, true).0 else before
  }

  /** Every entry that stands for a row has been written at least once. */
  ghost predicate Complete(p: System, rowOf: Meaning) {
    forall id: nat :: RowAt(p.stream.entries, id, rowOf).Some? ==> id in p.stored
  }

  /** Messages with the same (server_id, at_id) stand for the same row. */
  ghost predicate SameKeySameRow(entries: seq<Payload<Pirep>>, rowOf: Meaning) {
    forall i: nat, j: nat ::
      RowAt(entries, i, rowOf).Some? && RowAt(entries, j, rowOf).Some? && KeyAt(entries, i) == KeyAt(entries, j)
      ==> RowAt(entries, i, rowOf) == RowAt(entries, j, rowOf)
  }

  /** No database fault hits a processing. */
  predicate FaultFree(actions: seq<Action>) {
    forall a <- actions :: a.Process? ==> a.dbOk
  }

  /** Every entry that decodes has been acknowledged: the workers have nothing left to do. */
  ghost predicate Finished(p: System) {
    forall id: nat :: id < |p.stream.entries| && p.stream.entries[id].Encoded? ==> id in p.stream.acked
  }

  /** Every schedule without faults that finishes ends with the table of one pass. */
  ghost predicate ScheduleConfluent(t: Table, entries: seq<Payload<Pirep>>, rowOf: Meaning) {
    forall held: seq<Payload<Pirep>>, actions: seq<Action> ::
      var p := Run(Start(t, held), actions, rowOf);
      p.stream.entries == entries && FaultFree(actions) && Finished(p) ==> p.table == OnePass(t, entries, rowOf)
  }

  /** Every run that ends complete, from whatever the stream held and was given, ends with the table of
      one pass. */
  ghost predicate Confluent(t: Table, entries: seq<Payload<Pirep>>, rowOf: Meaning) {
    forall held: seq<Payload<Pirep>>, actions: seq<Action> ::
      var p := Run(Start(t, held), actions, rowOf);
      p.stream.entries == entries && Complete(p, rowOf) ==> p.table == OnePass(t, entries, rowOf)
  }

  // ----- confluence -----

  /** The table `now` is `t` with exactly the rows of the ids in `stored` written into it. */
  ghost predicate Holds(now: Table, t: Table, entries: seq<Payload<Pirep>>, stored: iset<nat>, rowOf: Meaning) {
    && (forall id: nat | id in stored ::
          && RowAt(entries, id, rowOf).Some? && KeyAt(entries, id) in now
          && now[KeyAt(entries, id)].row == RowAt(entries, id, rowOf).value)
    && (forall key | key in t :: key in now && now[key].backfillStatus == t[key].backfillStatus)
    && (forall key | key in now && key !in t :: now[key].backfillStatus == 0)
    && (forall key | key in now :: (key in t && now[key] == t[key]) || Written(entries, stored, key))
  }

  ghost predicate Written(entries: seq<Payload<Pirep>>, stored: iset<nat>, key: Key) {
    exists id: nat :: id in stored && id < |entries| && entries[id].Encoded? && KeyAt(entries, id) == key
  }

  /** Such a table is determined by what was written. */
  lemma HoldsIsUnique(a: Table, b: Table, t: Table, entries: seq<Payload<Pirep>>, stored: iset<nat>, rowOf: Meaning)
    requires Holds(a, t, entries, stored, rowOf) && Holds(b, t, entries, stored, rowOf)
    ensures a == b
  {
    forall key ensures key in a <==> key in b {}
    forall key | key in a ensures a[key] == b[key] {
      if Written(entries, stored, key) {
        var id: nat :| id in stored && id < |entries| && entries[id].Encoded? && KeyAt(entries, id) == key;
      }
    }
  }

  /** Writing one more row, new or repeated, keeps the table in that shape. */
  lemma WriteHolds(now: Table, t: Table, entries: seq<Payload<Pirep>>, stored: iset<nat>, id: nat, rowOf: Meaning)
    requires Holds(now, t, entries, stored, rowOf) && SameKeySameRow(entries, rowOf)
    requires RowAt(entries, id, rowOf).Some?
    ensures Holds(Upserted(now, KeyAt(entries, id), RowAt(entries, id, rowOf).value),
                  t, entries, stored + iset{id}, rowOf)
  {
    var now', all := Upserted(now, KeyAt(entries, id), RowAt(entries, id, rowOf).value), stored + iset{id};
    forall key | key in now' ensures (key in t && now'[key] == t[key]) || Written(entries, all, key) {
      if key == KeyAt(entries, id) {
        assert id in all;
      } else if !(key in t && now[key] == t[key]) {
        var i: nat :| i in stored && i < |entries| && entries[i].Encoded? && KeyAt(entries, i) == key;
        assert i in all;
      }
    }
  }

  lemma MoreEntriesHold(now: Table, t: Table, entries: seq<Payload<Pirep>>, stored: iset<nat>, p: Payload<Pirep>,
                        rowOf: Meaning)
    requires Holds(now, t, entries, stored, rowOf)
    ensures Holds(now, t, entries + [p], stored, rowOf)
  {
    forall key | key in now && !(key in t && now[key] == t[key]) ensures Written(entries + [p], stored, key) {
      var i: nat :| i in stored && i < |entries| && entries[i].Encoded? && KeyAt(entries, i) == key;
      assert KeyAt(entries + [p], i) == key;
    }
    forall id: nat | id in stored ensures RowAt(entries + [p], id, rowOf) == RowAt(entries, id, rowOf) {}
  }

  ghost function AsISet(s: set<nat>): iset<nat> {
    iset id | id in s
  }

  lemma FewerEntriesAgree(entries: seq<Payload<Pirep>>, p: Payload<Pirep>, rowOf: Meaning)
    requires SameKeySameRow(entries + [p], rowOf)
    ensures SameKeySameRow(entries, rowOf)
  {
    var more := entries + [p];
    forall i: nat, j: nat | RowAt(entries, i, rowOf).Some? && RowAt(entries, j, rowOf).Some?
      && KeyAt(entries, i) == KeyAt(entries, j)
      ensures RowAt(entries, i, rowOf) == RowAt(entries, j, rowOf)
    {
      assert RowAt(more, i, rowOf) == RowAt(entries, i, rowOf) && KeyAt(more, i) == KeyAt(entries, i);
      assert RowAt(more, j, rowOf) == RowAt(entries, j, rowOf) && KeyAt(more, j) == KeyAt(entries, j);
    }
  }

  lemma ProcessHolds(p: System, c: Consumer, dbOk: bool, t: Table, rowOf: Meaning)
    requires Holds(p.table, t, p.stream.entries, AsISet(p.stored), rowOf) && SameKeySameRow(p.stream.entries, rowOf)
    ensures var q := After(p, Process(c, dbOk), rowOf);
            q.stream == p.stream && Holds(q.table, t, p.stream.entries, AsISet(q.stored), rowOf)
  {
    var q := After(p, Process(c, dbOk), rowOf);
    if q.stored == p.stored && q.table == p.table {
      return;
    }
    var id := Hand(p, c)[0].id;
    WriteHolds(p.table, t, p.stream.entries, AsISet(p.stored), id, rowOf);
    assert AsISet(q.stored) == AsISet(p.stored) + iset{id};
  }

  lemma StepHolds(p: System, a: Action, t: Table, rowOf: Meaning)
    requires Holds(p.table, t, p.stream.entries, AsISet(p.stored), rowOf)
    requires SameKeySameRow(After(p, a, rowOf).stream.entries, rowOf)
    ensures Holds(After(p, a, rowOf).table, t, After(p, a, rowOf).stream.entries, AsISet(After(p, a, rowOf).stored),
                  rowOf)
  {
    if a.Append? {
      MoreEntriesHold(p.table, t, p.stream.entries, AsISet(p.stored), a.payload, rowOf);
    } else if a.Process? {
      ProcessHolds(p, a.c, a.dbOk, t, rowOf);
    }
  }

  lemma {:induction false} RunHolds(t: Table, held: seq<Payload<Pirep>>, actions: seq<Action>, rowOf: Meaning)
    requires SameKeySameRow(Run(Start(t, held), actions, rowOf).stream.entries, rowOf)
    ensures var p := Run(Start(t, held), actions, rowOf); Holds(p.table, t, p.stream.entries, AsISet(p.stored), rowOf)
  {
    if actions != [] {
      var front := actions[..|actions| - 1];
      StepKeepsAgreement(Run(Start(t, held), front, rowOf), actions[|actions| - 1], rowOf);
      RunHolds(t, held, front, rowOf);
      StepHolds(Run(Start(t, held), front, rowOf), actions[|actions| - 1], t, rowOf);
    }
  }

  lemma StepKeepsAgreement(p: System, a: Action, rowOf: Meaning)
    requires SameKeySameRow(After(p, a, rowOf).stream.entries, rowOf)
    ensures SameKeySameRow(p.stream.entries, rowOf)
  {
    if a.Append? {
      FewerEntriesAgree(p.stream.entries, a.payload, rowOf);
    }
  }

  ghost function RowIds(entries: seq<Payload<Pirep>>, rowOf: Meaning): iset<nat> {
    iset id: nat | RowAt(entries, id, rowOf).Some?
  }

  lemma OnePassStepHolds(now: Table, t: Table, front: seq<Payload<Pirep>>, last: Payload<Pirep>, rowOf: Meaning)
    requires Holds(now, t, front, RowIds(front, rowOf), rowOf) && SameKeySameRow(front + [last], rowOf)
    ensures Holds(if last.Encoded? then Processed(now, last.item, rowOf, true).0 else now,
                  t, front + [last], RowIds(front + [last], rowOf), rowOf)
  {
    var n, entries := |front|, front + [last];
    MoreEntriesHold(now, t, front, RowIds(front, rowOf), last, rowOf);
    if RowAt(entries, n, rowOf).Some? {
      WriteHolds(now, t, entries, RowIds(front, rowOf), n, rowOf);
      assert RowIds(entries, rowOf) == RowIds(front, rowOf) + iset{n};
    } else {
      assert RowIds(entries, rowOf) == RowIds(front, rowOf);
    }
  }

  lemma {:induction false} OnePassHolds(t: Table, entries: seq<Payload<Pirep>>, rowOf: Meaning)
    requires SameKeySameRow(entries, rowOf)
    ensures Holds(OnePass(t, entries, rowOf), t, entries, RowIds(entries, rowOf), rowOf)
  {
    if entries != [] {
      var front, last := entries[..|entries| - 1], entries[|entries| - 1];
      assert entries == front + [last];
      FewerEntriesAgree(front, last, rowOf);
      OnePassHolds(t, front, rowOf);
      OnePassStepHolds(OnePass(t, front, rowOf), t, front, last, rowOf);
    }
  }

  /** Any schedule of deliveries, crashes, stale claims, repeats and appends in which every message is
      written at least once leaves the table of one pass, as long as equal keys mean equal rows. */
  lemma AgreementGivesConfluence(t: Table, held: seq<Payload<Pirep>>, actions: seq<Action>, rowOf: Meaning)
    requires var p := Run(Start(t, held), actions, rowOf); SameKeySameRow(p.stream.entries, rowOf) && Complete(p, rowOf)
    ensures var p := Run(Start(t, held), actions, rowOf); p.table == OnePass(t, p.stream.entries, rowOf)
  {
    var p := Run(Start(t, held), actions, rowOf);
    RunHolds(t, held, actions, rowOf);
    OnePassHolds(t, p.stream.entries, rowOf);
    StoredAreRows(t, held, actions, rowOf);
    assert AsISet(p.stored) == RowIds(p.stream.entries, rowOf);
    HoldsIsUnique(p.table, OnePass(t, p.stream.entries, rowOf), t, p.stream.entries, AsISet(p.stored), rowOf);
  }

  lemma StoredAreRows(t: Table, held: seq<Payload<Pirep>>, actions: seq<Action>, rowOf: Meaning)
    requires SameKeySameRow(Run(Start(t, held), actions, rowOf).stream.entries, rowOf)
    ensures var p := Run(Start(t, held), actions, rowOf);
            forall id | id in p.stored :: RowAt(p.stream.entries, id, rowOf).Some?
  {
    RunHolds(t, held, actions, rowOf);
    var p := Run(Start(t, held), actions, rowOf);
    forall id | id in p.stored ensures RowAt(p.stream.entries, id, rowOf).Some? {
      assert id in AsISet(p.stored);
    }
  }

  // ----- schedules without faults -----

  /** Without faults, whatever was processed and stands for a row has been written. */
  ghost predicate RanIsStored(p: System, rowOf: Meaning) {
    forall id | id in p.ran && RowAt(p.stream.entries, id, rowOf).Some? :: id in p.stored
  }

  lemma StepStores(p: System, a: Action, rowOf: Meaning)
    requires Inv(p) && RanIsStored(p, rowOf) && (a.Process? ==> a.dbOk)
    ensures RanIsStored(After(p, a, rowOf), rowOf)
  {
    var q := After(p, a, rowOf);
    forall id | id in q.ran && RowAt(q.stream.entries, id, rowOf).Some? ensures id in q.stored {
      assert id in p.ran ==> RowAt(q.stream.entries, id, rowOf) == RowAt(p.stream.entries, id, rowOf);
    }
  }

  lemma {:induction false} FaultFreeStores(t: Table, held: seq<Payload<Pirep>>, actions: seq<Action>, rowOf: Meaning)
    requires FaultFree(actions)
    ensures RanIsStored(Run(Start(t, held), actions, rowOf), rowOf)
  {
    if actions != [] {
      var front, last := actions[..|actions| - 1], actions[|actions| - 1];
      assert last in actions;
      FaultFreeStores(t, held, front, rowOf);
      Reachable(t, held, front, rowOf);
      StepStores(Run(Start(t, held), front, rowOf), last, rowOf);
    }
  }

  /** A schedule without faults that finishes is complete: an acknowledged message has been processed. */
  lemma FaultFreeIsComplete(t: Table, held: seq<Payload<Pirep>>, actions: seq<Action>, rowOf: Meaning)
    requires FaultFree(actions) && Finished(Run(Start(t, held), actions, rowOf))
    ensures Complete(Run(Start(t, held), actions, rowOf), rowOf)
  {
    FaultFreeStores(t, held, actions, rowOf);
    Reachable(t, held, actions, rowOf);
  }

  // ----- what goes wrong otherwise -----

  /** Some schedule without faults leads to `p`. */
  ghost predicate Reaches(t: Table, held: seq<Payload<Pirep>>, p: System, rowOf: Meaning) {
    exists actions :: FaultFree(actions) && Run(Start(t, held), actions, rowOf) == p
  }

  lemma ReachesInv(t: Table, held: seq<Payload<Pirep>>, p: System, rowOf: Meaning)
    requires Reaches(t, held, p, rowOf)
    ensures Inv(p)
  {
    var actions :| FaultFree(actions) && Run(Start(t, held), actions, rowOf) == p;
    Reachable(t, held, actions, rowOf);
  }

  lemma OneMore(t: Table, held: seq<Payload<Pirep>>, p: System, a: Action, rowOf: Meaning)
    requires Reaches(t, held, p, rowOf) && (a.Process? ==> a.dbOk)
    ensures Reaches(t, held, After(p, a, rowOf), rowOf)
  {
    var actions :| FaultFree(actions) && Run(Start(t, held), actions, rowOf) == p;
    assert (actions + [a])[..|actions|] == actions;
    assert FaultFree(actions + [a]);
    assert Run(Start(t, held), actions + [a], rowOf) == After(p, a, rowOf);
  }

  /** `q` comes after `p` with worker `c` idle again, the others and what they hold as they were, entries below
      `n` delivered, and the newly delivered ones written and acknowledged. */
  ghost predicate HandledUpTo(p: System, q: System, c: Consumer, n: nat, rowOf: Meaning) {
    && q.stream.entries == p.stream.entries && q.stream.next == n
    && Hand(q, c) == [] && (forall d | d != c :: Hand(q, d) == Hand(p, d))
    && p.stored <= q.stored
    && (forall id: nat | p.stream.next <= id < n && RowAt(p.stream.entries, id, rowOf).Some? :: id in q.stored)
    && p.stream.acked <= q.stream.acked && p.stream.pending.Keys <= q.stream.pending.Keys
    && (forall id: nat | p.stream.next <= id < n && Decodes(p, id) :: id in q.stream.acked)
  }

  predicate Decodes(p: System, id: nat) {
    id < |p.stream.entries| && p.stream.entries[id].Encoded?
  }

  lemma ProcessWrites(p: System, c: Consumer, m: nat, rowOf: Meaning)
    requires Hand(p, c) == [Held(m, false)] && m < |p.stream.entries| && p.stream.entries[m].Encoded?
    ensures var q, key := After(p, Process(c, true), rowOf), KeyAt(p.stream.entries, m);
            && q.stream == p.stream && p.stored <= q.stored
            && Hand(q, c) == [Held(m, true)] && (forall d | d != c :: Hand(q, d) == Hand(p, d))
            && (RowAt(p.stream.entries, m, rowOf).Some? ==>
                  m in q.stored && key in q.table && q.table[key].row == RowAt(p.stream.entries, m, rowOf).value)
  {}

  lemma DeliverTakes(p: System, c: Consumer, rowOf: Meaning)
    requires c != CLAIMER && Hand(p, c) == [] && p.stream.next < |p.stream.entries|
    requires p.stream.entries[p.stream.next].Encoded?
    ensures var q := After(p, Deliver(c, 0), rowOf);
            && Hand(q, c) == [Held(p.stream.next, false)] && (forall d | d != c :: Hand(q, d) == Hand(p, d))
            && q.stream.entries == p.stream.entries && q.stream.next == p.stream.next + 1 && q.stored == p.stored
            && q.stream.acked == p.stream.acked && q.stream.pending.Keys == p.stream.pending.Keys + {p.stream.next}
  {}

  lemma AckDrops(p: System, c: Consumer, m: nat, rowOf: Meaning)
    requires Hand(p, c) == [Held(m, true)]
    ensures var q := After(p, Ack(c), rowOf);
            && q.stream.entries == p.stream.entries && q.stream.next == p.stream.next && q.stored == p.stored
            && Hand(q, c) == [] && (forall d | d != c :: Hand(q, d) == Hand(p, d))
            && q.stream.pending.Keys == p.stream.pending.Keys - {m}
            && q.stream.acked == if m in p.stream.pending then p.stream.acked + {m} else p.stream.acked
  {}

  lemma HandleOne(t: Table, held: seq<Payload<Pirep>>, p: System, c: Consumer, rowOf: Meaning) returns (q: System)
    requires Reaches(t, held, p, rowOf) && c != CLAIMER && Hand(p, c) == [] && p.stream.next < |p.stream.entries|
    ensures Reaches(t, held, q, rowOf) && HandledUpTo(p, q, c, p.stream.next + 1, rowOf)
  {
    var p1 := After(p, Deliver(c, 0), rowOf);
    OneMore(t, held, p, Deliver(c, 0), rowOf);
    ReachesInv(t, held, p, rowOf);
    assert p.stream.next !in p.stream.pending;
    if p.stream.entries[p.stream.next].Malformed? {
      return p1;
    }
    DeliverTakes(p, c, rowOf);
    ProcessWrites(p1, c, p.stream.next, rowOf);
    var p2 := After(p1, Process(c, true), rowOf);
    OneMore(t, held, p1, Process(c, true), rowOf);
    AckDrops(p2, c, p.stream.next, rowOf);
    q := After(p2, Ack(c), rowOf);
    OneMore(t, held, p2, Ack(c), rowOf);
  }

  lemma HandleUpTo(t: Table, held: seq<Payload<Pirep>>, p: System, c: Consumer, n: nat, rowOf: Meaning)
    returns (q: System)
    requires Reaches(t, held, p, rowOf) && c != CLAIMER && Hand(p, c) == [] && p.stream.next <= n <= |p.stream.entries|
    ensures Reaches(t, held, q, rowOf) && HandledUpTo(p, q, c, n, rowOf)
    decreases n - p.stream.next
  {
    if p.stream.next == n {
      q := p;
    } else {
      var p1 := HandleOne(t, held, p, c, rowOf);
      q := HandleUpTo(t, held, p1, c, n, rowOf);
    }
  }

  /** One pass leaves under each key the row of the last entry that has it. */
  lemma {:induction false} OnePassKeepsLast(t: Table, entries: seq<Payload<Pirep>>, last: nat, rowOf: Meaning)
    requires RowAt(entries, last, rowOf).Some?
    requires forall id: nat :: id > last && RowAt(entries, id, rowOf).Some? ==>
      KeyAt(entries, id) != KeyAt(entries, last)
    ensures KeyAt(entries, last) in OnePass(t, entries, rowOf)
    ensures OnePass(t, entries, rowOf)[KeyAt(entries, last)].row == RowAt(entries, last, rowOf).value
  {
    var n := |entries| - 1;
    if last < n {
      var front := entries[..n];
      forall id: nat | id > last && RowAt(front, id, rowOf).Some? ensures KeyAt(front, id) != KeyAt(front, last) {
        assert RowAt(entries, id, rowOf).Some?;
      }
      OnePassKeepsLast(t, front, last, rowOf);
      assert RowAt(entries, n, rowOf).Some? ==> KeyAt(entries, n) != KeyAt(entries, last);
    }
  }

  lemma LastWithKey(entries: seq<Payload<Pirep>>, from: nat, rowOf: Meaning) returns (last: nat)
    requires RowAt(entries, from, rowOf).Some?
    ensures from <= last && RowAt(entries, last, rowOf).Some? && KeyAt(entries, last) == KeyAt(entries, from)
    ensures forall id: nat :: id > last && RowAt(entries, id, rowOf).Some? ==>
      KeyAt(entries, id) != KeyAt(entries, last)
    decreases |entries| - from
  {
    if id: nat :| id > from && RowAt(entries, id, rowOf).Some? && KeyAt(entries, id) == KeyAt(entries, from) {
      last := LastWithKey(entries, id, rowOf);
    } else {
      last := from;
    }
  }

  /** Worker `a` has taken message `m` after handling everything before it; `b` is idle. */
  ghost predicate Stalled(p: System, a: Consumer, b: Consumer, m: nat, rowOf: Meaning) {
    && a != b && p.stream.next == m + 1 <= |p.stream.entries|
    && Hand(p, a) == [Held(m, false)] && Hand(p, b) == [] && m in p.stream.pending
    && (forall id: nat | id < m && RowAt(p.stream.entries, id, rowOf).Some? :: id in p.stored)
    && (forall id: nat | id < m && Decodes(p, id) :: id in p.stream.acked)
  }

  lemma StallOn(t: Table, entries: seq<Payload<Pirep>>, a: Consumer, b: Consumer, m: nat, rowOf: Meaning)
    returns (p: System)
    requires RowAt(entries, m, rowOf).Some? && a != b && a != CLAIMER
    ensures Reaches(t, entries, p, rowOf) && p.stream.entries == entries && Stalled(p, a, b, m, rowOf)
  {
    var p0 := Start(t, entries);
    assert Run(p0, [], rowOf) == p0;
    var p1 := HandleUpTo(t, entries, p0, a, m, rowOf);
    assert Hand(p1, b) == Hand(p0, b) == [];
    p := After(p1, Deliver(a, 0), rowOf);
    OneMore(t, entries, p1, Deliver(a, 0), rowOf);
    DeliverTakes(p1, a, rowOf);
  }

  lemma AllStored(p: System, q: System, a: Consumer, b: Consumer, m: nat, rowOf: Meaning)
    requires Stalled(p, a, b, m, rowOf) && HandledUpTo(p, q, b, |p.stream.entries|, rowOf)
    requires RowAt(p.stream.entries, m, rowOf).Some?
    ensures Hand(q, a) == [Held(m, false)] && m in q.stream.pending
    ensures forall id: nat | RowAt(p.stream.entries, id, rowOf).Some? && id != m :: id in q.stored
    ensures forall id: nat | Decodes(p, id) && id != m :: id in q.stream.acked
  {
    forall id: nat | Decodes(p, id) && id != m ensures id in q.stream.acked {
      assert id < m ==> id in p.stream.acked;
    }
    forall id: nat | RowAt(p.stream.entries, id, rowOf).Some? && id != m ensures id in q.stored {
      assert id < m ==> id in p.stored;
    }
  }

  /** Two workers suffice to break the order: one takes message `m` and stalls, the other handles all
      the rest, and the first finishes last. */
  lemma StalledWorkerWritesLast(t: Table, entries: seq<Payload<Pirep>>, a: Consumer, b: Consumer, m: nat,
                                rowOf: Meaning)
    returns (p: System)
    requires RowAt(entries, m, rowOf).Some? && a != b && a != CLAIMER && b != CLAIMER
    ensures Reaches(t, entries, p, rowOf) && p.stream.entries == entries && Complete(p, rowOf) && Finished(p)
    ensures KeyAt(entries, m) in p.table && p.table[KeyAt(entries, m)].row == RowAt(entries, m, rowOf).value
  {
    var p2 := StallOn(t, entries, a, b, m, rowOf);
    var p3 := HandleUpTo(t, entries, p2, b, |entries|, rowOf);
    AllStored(p2, p3, a, b, m, rowOf);
    ProcessWrites(p3, a, m, rowOf);
    var p4 := After(p3, Process(a, true), rowOf);
    OneMore(t, entries, p3, Process(a, true), rowOf);
    AckDrops(p4, a, m, rowOf);
    p := After(p4, Ack(a), rowOf);
    OneMore(t, entries, p4, Ack(a), rowOf);
    FinishedLast(p3, p, m);
  }

  lemma FinishedLast(p: System, q: System, m: nat)
    requires forall id: nat | Decodes(p, id) && id != m :: id in p.stream.acked
    requires q.stream.entries == p.stream.entries && q.stream.acked == p.stream.acked + {m}
    ensures Finished(q)
  {
    forall id: nat | id < |q.stream.entries| && q.stream.entries[id].Encoded? ensures id in q.stream.acked {
      assert Decodes(p, id);
    }
  }

  /** Whether completeness is asked of the outcome, or the schedule has no faults and finishes. */
  lemma DisagreementBreaksConfluence(t: Table, entries: seq<Payload<Pirep>>, rowOf: Meaning)
    requires !SameKeySameRow(entries, rowOf)
    ensures !Confluent(t, entries, rowOf) && !ScheduleConfluent(t, entries, rowOf)
  {
    var i: nat, j: nat :|
      && RowAt(entries, i, rowOf).Some? && RowAt(entries, j, rowOf).Some? && KeyAt(entries, i) == KeyAt(entries, j)
      && RowAt(entries, i, rowOf) != RowAt(entries, j, rowOf);
    var last := LastWithKey(entries, i, rowOf);
    OnePassKeepsLast(t, entries, last, rowOf);
    var m := if RowAt(entries, i, rowOf) != RowAt(entries, last, rowOf) then i else j;
    assert "a"[0] != "b"[0] && |"a"| < |CLAIMER| && |"b"| < |CLAIMER|;
    var p := StalledWorkerWritesLast(t, entries, "a", "b", m, rowOf);
    var actions :| FaultFree(actions) && Run(Start(t, entries), actions, rowOf) == p;
    assert p.table != OnePass(t, entries, rowOf);
  }

  /** The exact condition, on the schedule alone. Without database faults, and once every message that decodes
      has been acknowledged, multi-worker at-least-once delivery gives the table of one ordered pass however
      the schedule went, if and only if no two messages with one (server_id, at_id) stand for different rows;
      two syncs that enqueue different versions of a record are enough to fail it. */
  lemma ScheduleConfluentIff(t: Table, entries: seq<Payload<Pirep>>, look: Lookups)
    ensures ScheduleConfluent(t, entries, UnderLookups(look)) <==> SameKeySameRow(entries, UnderLookups(look))
  {
    var rowOf := UnderLookups(look);
    if SameKeySameRow(entries, rowOf) {
      forall held: seq<Payload<Pirep>>, actions: seq<Action>
        ensures var p := Run(Start(t, held), actions, rowOf);
                p.stream.entries == entries && FaultFree(actions) && Finished(p) ==>
                  p.table == OnePass(t, entries, rowOf)
      {
        var p := Run(Start(t, held), actions, rowOf);
        if p.stream.entries == entries && FaultFree(actions) && Finished(p) {
          FaultFreeIsComplete(t, held, actions, rowOf);
          AgreementGivesConfluence(t, held, actions, rowOf);
        }
      }
    } else {
      DisagreementBreaksConfluence(t, entries, rowOf);
    }
  }

  /** The same of runs with faults, crashes and all, in which every message was nevertheless written at least
      once. A fault alone does not see to that: see PirepLoss. */
  lemma ConfluentIffSameKeySameRow(t: Table, entries: seq<Payload<Pirep>>, look: Lookups)
    ensures Confluent(t, entries, UnderLookups(look)) <==> SameKeySameRow(entries, UnderLookups(look))
  {
    var rowOf := UnderLookups(look);
    if SameKeySameRow(entries, rowOf) {
      forall held: seq<Payload<Pirep>>, actions: seq<Action>
        ensures var p := Run(Start(t, held), actions, rowOf);
                p.stream.entries == entries && Complete(p, rowOf) ==> p.table == OnePass(t, entries, rowOf)
      {
        var p := Run(Start(t, held), actions, rowOf);
        if p.stream.entries == entries && Complete(p, rowOf) {
          AgreementGivesConfluence(t, held, actions, rowOf);
        }
      }
    } else {
      DisagreementBreaksConfluence(t, entries, rowOf);
    }
  }
}
