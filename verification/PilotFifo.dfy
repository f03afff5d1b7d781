/** What the pilot queue, its pending list and its retry counters amount to: a plain first-in
    first-out queue whose head is tried at most four times.
 */
module PilotFifo {
  import opened Wrappers
  import opened RedisStream
  import opened RedisQueue
  import opened SingleConsumer
  import opened PilotUpsert
  import opened PilotWorker

  /** The retry count of the head: what the two tiers show, how often it has really failed, and which of the
      tiers hold it. */
  datatype Tried = Tried(tries: nat, failures: nat, inMemory: bool, inCache: bool)

  const ZERO: Tried := Tried(0, 0, false, false)

  /** `head` is the id of the first entry; `lost` counts the messages dropped although a clean attempt would
      have succeeded. */
  datatype Fifo = Fifo(queue: seq<Payload<PilotItem>>, head: nat, count: Tried, tables: Tables, lost: nat)

  function Idle(tables: Tables): Fifo {
    Fifo([], 0, ZERO, tables, 0)
  }

  /** The head is done with. */
  function Dropped(f: Fifo, tables: Tables, lost: nat): Fifo
    requires f.queue != []
  {
    Fifo(f.queue[1..], f.head + 1, ZERO, tables, lost)
  }

  /** The queue after an attempt on its head that left `tables` behind and succeeded or not. */
  function Outcome(f: Fifo, tables: Tables, ok: bool, usable: bool): Fifo
    requires f.queue != []
  {
    if ok then Dropped(f, tables, f.lost)
    else if f.count.tries < MAX_RETRIES then
      f.(count := Tried(f.count.tries + 1, f.count.failures + 1, true, true), tables := tables)
    else Dropped(f, tables, if usable then f.lost + 1 else f.lost)
  }

  function Attempt(f: Fifo, fault: Fault, job: Job): Fifo {
    if f.queue == [] || f.queue[0].Malformed? then f
    else
      var item := f.queue[0].item;
      var (tables, ok) := job.run(f.tables, item, fault);
      Outcome(f, tables, ok, job.usable(item))
  }

  /** What can happen to the running system: a batch is enqueued, any other entry is appended (one that
      does not decode, say), the worker makes one pass, which a database fault may hit, cache entries
      expire, or the process restarts, which empties the in-memory counts. */
  datatype Action =
    | Enqueue(items: seq<PilotItem>)
    | Append(payload: Payload<PilotItem>)
    | Pass(now: int, fault: Fault)
    | Expire(ids: set<nat>)
    | Restart

  /** The action adds to the queue. */
  predicate Adds(a: Action) {
    a.Enqueue? || a.Append?
  }

  /** The entries that an action adds. */
  function Added(a: Action): seq<Payload<PilotItem>> {
    match a
    case Enqueue(items) => Entries(items)
    case Append(payload) => [payload]
    case _ => []
  }

  /** json.Marshal does not fail on the field values that Airtable returns. */
  predicate Marshals(item: PilotItem) {
    true
  }

  function Entries(items: seq<PilotItem>): (r: seq<Payload<PilotItem>>) {
    Encodable(items, Marshals)
  }

  /** The count is what the worker's two tiers show of the head, and they agree when both hold it. */
  ghost predicate Shown(w: Worker, id: nat, count: Tried) {
    && count.inMemory == (id in w.counts) && count.inCache == (id in w.cache)
    && (id in w.counts && id in w.cache ==> w.counts[id] == w.cache[id])
    && count.tries == RetryCount(w.cache, w.counts, id) && count.tries <= count.failures
  }

  ghost predicate Linked(w: Worker, f: Fifo) {
    && SoleConsumer(w.stream, CONSUMER)
    && f.queue == Waiting(w.stream) && f.head == Head(w.stream) && f.tables == w.tables
    && f.count.tries <= MAX_RETRIES
    && w.counts.Keys <= w.stream.pending.Keys && w.cache.Keys <= w.stream.pending.Keys
    && Shown(w, f.head, f.count)
  }

  function WorkerStep(w: Worker, a: Action, job: Job): Worker
    requires Conserved(w.stream)
  {
    match a
    case Enqueue(items) => w.(stream := w.stream.(entries := w.stream.entries + Entries(items)))
    case Append(payload) => w.(stream := Appended(w.stream, payload))
    case Pass(now, fault) => AfterProcessNext(w, now, fault, job)
    case Expire(ids) => w.(cache := w.cache - ids)
    case Restart => w.(counts := map[])
  }

  function FifoStep(f: Fifo, a: Action, job: Job): Fifo {
    match a
    case Pass(_, fault) => Attempt(f, fault, job)
    case Expire(ids) => if f.head in ids then f.(count := Expired(f.count)) else f
    case Restart => f.(count := Restarted(f.count))
    case _ => f.(queue := f.queue + Added(a))
  }

  /** What happens to the worker beside its own passes: messages arrive behind all others, each in its place;
      cache entries expire and leave the memory tier; a restart empties that tier and leaves the cache. */
  lemma EventsShow(w: Worker, items: seq<PilotItem>, payload: Payload<PilotItem>, ids: set<nat>, job: Job)
    requires Conserved(w.stream)
    ensures var q := WorkerStep(w, Enqueue(items), job);
            && q == w.(stream := w.stream.(entries := q.stream.entries))
            && |q.stream.entries| == |w.stream.entries| + |items| && w.stream.entries <= q.stream.entries
            && forall k | 0 <= k < |items| :: q.stream.entries[|w.stream.entries| + k] == Encoded(items[k])
    ensures WorkerStep(w, Append(payload), job)
         == w.(stream := w.stream.(entries := w.stream.entries + [payload]))
    ensures var q := WorkerStep(w, Expire(ids), job);
            && q == w.(cache := q.cache) && q.cache.Keys == w.cache.Keys - ids
            && forall id | id in q.cache :: q.cache[id] == w.cache[id]
    ensures var q := WorkerStep(w, Restart, job); q.counts == map[] && q == w.(counts := map[])
  {
    AllEncodable(items, Marshals);
  }

  /** What is left of a count when its cache entry is gone, and when the process has restarted. */
  function Expired(c: Tried): Tried {
    c.(inCache := false, tries := if c.inMemory then c.tries else 0)
  }

  function Restarted(c: Tried): Tried {
    c.(inMemory := false, tries := if c.inCache then c.tries else 0)
  }

  /** The two-tier counter shows `tries` for the head, never more than it has really failed, and both tiers
      hold nothing but pending ids. */
  lemma CounterIsExact(w: Worker, f: Fifo)
    requires Linked(w, f)
    ensures RetryCount(w.cache, w.counts, Head(w.stream)) == f.count.tries <= f.count.failures
    ensures w.counts.Keys <= w.stream.pending.Keys && w.cache.Keys <= w.stream.pending.Keys
  {}

  /** Acknowledging the head and clearing its count takes the head off the queue. */
  lemma FinishLinks(w: Worker, f: Fifo, tables: Tables, lost: nat)
    requires Linked(w, f) && f.head in w.stream.pending && f.queue != []
    ensures Linked(Worker(Acknowledged(w.stream, f.head), w.cache - {f.head}, w.counts - {f.head}, tables),
                   Dropped(f, tables, lost))
  {
    AckAdvances(w.stream, CONSUMER);
    AckedIsPrefix(w.stream, CONSUMER);
    assert w.stream.entries[f.head..][1..] == w.stream.entries[f.head + 1..];
  }

  /** Counting one more failure on the head, in both tiers. */
  lemma RetryLinks(w: Worker, f: Fifo, tables: Tables)
    requires Linked(w, f) && f.head in w.stream.pending && f.queue != [] && f.count.tries < MAX_RETRIES
    ensures var tries := f.count.tries + 1;
            Linked(Worker(w.stream, w.cache[f.head := tries], w.counts[f.head := tries], tables),
                   f.(count := Tried(tries, f.count.failures + 1, true, true), tables := tables))
  {}

  lemma PassIsAttempt(w: Worker, f: Fifo, now: int, fault: Fault, job: Job)
    requires Linked(w, f)
    ensures Linked(AfterProcessNext(w, now, fault, job), Attempt(f, fault, job))
  {
    ReadGivesHead(w.stream, CONSUMER, now);
    var (s, r) := ReadPendingFirst(w.stream, CONSUMER, now);
    var read := w.(stream := s);
    assert Linked(read, f);
    if r.Item? {
      var (tables, ok) := job.run(f.tables, r.item, fault);
      CounterIsExact(read, f);
      if !ok && f.count.tries < MAX_RETRIES {
        RetryLinks(read, f, tables);
      } else {
        FinishLinks(read, f, tables, Outcome(f, tables, ok, job.usable(r.item)).lost);
      }
    }
  }

  lemma StepRefines(w: Worker, f: Fifo, a: Action, job: Job)
    requires Linked(w, f)
    ensures Linked(WorkerStep(w, a, job), FifoStep(f, a, job))
  {
    match a
    case Pass(now, fault) => PassIsAttempt(w, f, now, fault, job);
    case Expire(_) =>
    case Restart =>
    case _ =>
      AppendKeepsHead(w.stream, CONSUMER, Added(a));
  }

  // ----- whole runs -----

  function FifoRun(f: Fifo, actions: seq<Action>, job: Job): Fifo {
    if actions == [] then f
    else FifoStep(FifoRun(f, actions[..|actions| - 1], job), actions[|actions| - 1], job)
  }

  /** A run of the worker itself; a run never leaves the conserved states, so the guard is idle. */
  ghost function WorkerRun(w: Worker, actions: seq<Action>, job: Job): Worker {
    if actions == [] then w
    else
      var before := WorkerRun(w, actions[..|actions| - 1], job);
      if Conserved(before.stream) then WorkerStep(before, actions[|actions| - 1], job) else before
  }

  function Start(tables: Tables): Worker {
    Worker(Stream([], 0, map[], {}), map[], map[], tables)
  }

  lemma {:induction false} RunConcat(w: Worker, f: Fifo, a: seq<Action>, b: seq<Action>, job: Job)
    ensures WorkerRun(w, a + b, job) == WorkerRun(WorkerRun(w, a, job), b, job)
    ensures FifoRun(f, a + b, job) == FifoRun(FifoRun(f, a, job), b, job)
  {
    if b == [] {
      assert a + b == a;
    } else {
      RunConcat(w, f, a, b[..|b| - 1], job);
      assert (a + b)[..|a + b| - 1] == a + b[..|b| - 1];
    }
  }

  /** Over every run, the worker behaves as the first-in first-out queue. */
  lemma {:induction false} WorkerRefinesFifo(w: Worker, f: Fifo, actions: seq<Action>, job: Job)
    requires Linked(w, f)
    ensures Linked(WorkerRun(w, actions, job), FifoRun(f, actions, job))
  {
    if actions != [] {
      var front := actions[..|actions| - 1];
      WorkerRefinesFifo(w, f, front, job);
      StepRefines(WorkerRun(w, front, job), FifoRun(f, front, job), actions[|actions| - 1], job);
    }
  }

  /** A restart of the process empties the in-memory tier. The count survives it exactly when the cache
      still has the entry or nothing had failed yet. */
  lemma RestartKeepsCountIff(w: Worker, f: Fifo)
    requires Linked(w, f)
    ensures RetryCount(w.cache, map[], Head(w.stream)) == f.count.tries
       <==> (Head(w.stream) in w.cache || f.count.tries == 0)
  {}

  function Restarts(actions: seq<Action>): nat {
    if actions == [] then 0
    else Restarts(actions[..|actions| - 1]) + (if actions[|actions| - 1].Restart? then 1 else 0)
  }

  /** Without restarts the count is exact: it is the number of failed attempts on the head, whichever cache
      entries have vanished at whatever moments. */
  lemma {:induction false} CountsEveryFailure(tables: Tables, actions: seq<Action>, job: Job)
    requires Restarts(actions) == 0
    ensures var c := FifoRun(Idle(tables), actions, job).count;
            c.tries == c.failures && (c.tries > 0 ==> c.inMemory)
  {
    if actions != [] {
      CountsEveryFailure(tables, actions[..|actions| - 1], job);
    }
  }

  // ----- how often a message is tried -----

  /** A head that has failed fewer than three times and fails again stays where it is, and the failure is counted. */
  lemma FailedStays(f: Fifo, fault: Fault, job: Job)
    requires f.queue != [] && f.queue[0].Encoded? && f.count.tries <= f.count.failures < 3
    requires !job.run(f.tables, f.queue[0].item, fault).1
    ensures var g := Attempt(f, fault, job);
            && g.queue == f.queue && g.head == f.head && g.lost == f.lost
            && g.count == Tried(f.count.tries + 1, f.count.failures + 1, true, true)
  {}

  lemma {:induction false} TriesAreFailures(tables: Tables, actions: seq<Action>, job: Job)
    ensures var c := FifoRun(Idle(tables), actions, job).count; c.tries <= 3 && c.tries <= c.failures
  {
    if actions != [] {
      TriesAreFailures(tables, actions[..|actions| - 1], job);
    }
  }

  /** A pass that takes the head off the queue: the attempt succeeds, or three failures are counted. */
  ghost predicate Finishes(f: Fifo, fault: Fault, job: Job) {
    && f.queue != [] && f.queue[0].Encoded?
    && (job.run(f.tables, f.queue[0].item, fault).1 || f.count.tries == 3)
  }

  /** At every point of every run: the head leaves at a pass that succeeds or finds three failures counted, and
      at no other; and `lost` grows exactly at such a pass that fails on a usable item. Without restarts the
      three are all the failures there were. */
  lemma LeavesIff(tables: Tables, actions: seq<Action>, last: Action, job: Job)
    ensures var f, g := FifoRun(Idle(tables), actions, job), FifoRun(Idle(tables), actions + [last], job);
            && (g.head == f.head + 1 <==> last.Pass? && Finishes(f, last.fault, job))
            && (g.head != f.head + 1 ==> g.head == f.head && g.queue == f.queue + Added(last))
            && (g.head == f.head + 1 ==> f.queue != [] && g.queue == f.queue[1..] && g.count == ZERO)
            && (g.lost != f.lost <==> (
                  && last.Pass? && Finishes(f, last.fault, job) && job.usable(f.queue[0].item)
                  && !job.run(f.tables, f.queue[0].item, last.fault).1))
            && (g.lost != f.lost ==> (
                  && g.lost == f.lost + 1 && f.count.tries == 3 <= f.count.failures
                  && (Restarts(actions) == 0 ==> f.count.failures == 3)))
  {
    assert (actions + [last])[..|actions|] == actions;
    TriesAreFailures(tables, actions, job);
    if Restarts(actions) == 0 {
      CountsEveryFailure(tables, actions, job);
    }
    var f := FifoRun(Idle(tables), actions, job);
    assert f.queue + [] == f.queue;
  }

  /** Passes that all meet a database fault. */
  function Outage(n: nat): seq<Action> {
    seq(n, _ => Pass(0, RoleQueryFails))
  }

  ghost predicate FailedHead(f: Fifo, tries: nat) {
    && f.queue != [] && f.queue[0].Encoded? && tries <= 3
    && f.count == (if tries == 0 then ZERO else Tried(tries, tries, true, true))
  }

  ghost predicate DownFails(job: Job, t: Tables, item: PilotItem) {
    job.run(t, item, RoleQueryFails) == (t, false)
  }

  /** Nothing succeeds, and nothing is written, while the database is down. */
  ghost predicate FailsWhenDown(job: Job) {
    forall t: Tables, item: PilotItem :: DownFails(job, t, item)
  }

  lemma PilotJobFailsWhenDown()
    ensures FailsWhenDown(PilotJob())
  {
    forall t: Tables, item: PilotItem ensures DownFails(PilotJob(), t, item) {
      assert ProcessPilot(t, item, RoleQueryFails) == (t, false);
    }
  }

  /** One failed try on a head that has failed `tries` times. */
  lemma FailsAgain(f: Fifo, tries: nat, job: Job)
    requires FailsWhenDown(job) && FailedHead(f, tries)
    ensures var g := Attempt(f, RoleQueryFails, job);
            && g.tables == f.tables
            && (tries < 3 ==> FailedHead(g, tries + 1) && g.queue == f.queue)
            && (tries == 3 ==> g.queue == f.queue[1..] && g.count == ZERO)
  {
    assert DownFails(job, f.tables, f.queue[0].item);
  }

  /** `n` faulted passes bring the queue from `f` to `g`, and `done` of them process a message. */
  ghost predicate Leads(f: Fifo, n: nat, g: Fifo, done: nat, job: Job) {
    g == FifoRun(f, Outage(n), job) && done == Processings(f, Outage(n), job)
  }

  lemma OneMoreFailure(f: Fifo, n: nat, g: Fifo, done: nat, tries: nat, job: Job) returns (g': Fifo)
    requires FailsWhenDown(job) && Leads(f, n, g, done, job) && FailedHead(g, tries)
    ensures Leads(f, n + 1, g', done + 1, job) && g'.tables == g.tables
    ensures tries < 3 ==> FailedHead(g', tries + 1) && g'.queue == g.queue
    ensures tries == 3 ==> g'.queue == g.queue[1..] && g'.count == ZERO
  {
    g' := Attempt(g, RoleQueryFails, job);
    assert Outage(n + 1)[..n] == Outage(n);
    FailsAgain(g, tries, job);
  }

  lemma FourFailures(f: Fifo, n: nat, g: Fifo, done: nat, job: Job) returns (g': Fifo)
    requires FailsWhenDown(job) && Leads(f, n, g, done, job) && FailedHead(g, 0)
    ensures Leads(f, n + 4, g', done + 4, job)
    ensures g'.tables == g.tables && g'.queue == g.queue[1..] && g'.count == ZERO
  {
    g' := OneMoreFailure(f, n, g, done, 0, job);
    g' := OneMoreFailure(f, n + 1, g', done + 1, 1, job);
    g' := OneMoreFailure(f, n + 2, g', done + 2, 2, job);
    g' := OneMoreFailure(f, n + 3, g', done + 3, 3, job);
  }

  /** `g` is what is left of `f` after `k` of its messages have been given up. */
  ghost predicate GivenUp(f: Fifo, g: Fifo, k: nat) {
    AllDecode(f) && k <= |f.queue| && g.queue == f.queue[k..] && g.count == ZERO && g.tables == f.tables
  }

  lemma GivenUpNext(f: Fifo, g: Fifo, g': Fifo, k: nat)
    requires GivenUp(f, g, k) && k < |f.queue|
    requires g'.tables == g.tables && g'.count == ZERO && g.queue != [] && g'.queue == g.queue[1..]
    ensures GivenUp(f, g', k + 1)
  {}

  lemma GivenUpHead(f: Fifo, g: Fifo, k: nat)
    requires GivenUp(f, g, k) && k < |f.queue|
    ensures FailedHead(g, 0)
  {
    assert g.queue[0] == f.queue[k] && f.queue[k] in f.queue;
  }

  /** While the database is down, each message is tried exactly four times. */
  lemma {:induction false} FourTriesEach(f: Fifo, k: nat, job: Job) returns (g: Fifo)
    requires FailsWhenDown(job) && GivenUp(f, f, 0) && k <= |f.queue|
    ensures Leads(f, 4 * k, g, 4 * k, job) && GivenUp(f, g, k)
  {
    if k == 0 {
      g := f;
      assert Outage(0) == [];
    } else {
      var before := FourTriesEach(f, k - 1, job);
      GivenUpHead(f, before, k - 1);
      g := FourFailures(f, 4 * (k - 1), before, 4 * (k - 1), job);
      GivenUpNext(f, before, g, k - 1);
    }
  }

  lemma {:induction false} EntriesDecode(items: seq<PilotItem>)
    ensures |Entries(items)| == |items| && forall p <- Entries(items) :: p.Encoded?
  {
    if items != [] {
      EntriesDecode(items[..|items| - 1]);
    }
  }

  /** The bound of four tries per message is reached: for every list of messages there is a run that tries each of
      them exactly four times, writes nothing and leaves the queue empty. */
  lemma OutageRun(tables: Tables, items: seq<PilotItem>)
    ensures var f, run := FifoRun(Idle(tables), [Enqueue(items)], PilotJob()), Outage(4 * |items|);
            && |f.queue| == |items| && Processings(f, run, PilotJob()) == |run| == 4 * |items|
            && FifoRun(f, run, PilotJob()).queue == [] && FifoRun(f, run, PilotJob()).tables == tables
  {
    var f0, first := Idle(tables), [Enqueue(items)];
    var f := FifoRun(f0, first, PilotJob());
    assert first[..0] == [] && FifoRun(f0, [], PilotJob()) == f0;
    assert f == f0.(queue := Entries(items));
    EntriesDecode(items);
    PilotJobFailsWhenDown();
    var _ := FourTriesEach(f, |items|, PilotJob());
  }

  // ----- how long a run can work -----

  /** The count is held by the cache alone, so that it can still be lost. */
  function AtRisk(f: Fifo): nat {
    if f.count.tries > 0 && !f.count.inMemory then 1 else 0
  }

  /** The attempts that the waiting messages can still take: four each, and three more when the head's count can
      be lost. */
  function Work(f: Fifo): int {
    4 * |f.queue| - f.count.tries + 3 * AtRisk(f)
  }

  /** No count without a head, and none beyond the bound. */
  predicate Bounded(f: Fifo) {
    f.count.tries <= 3 && (f.queue == [] ==> f.count.tries == 0)
  }

  ghost predicate AllDecode(f: Fifo) {
    forall p <- f.queue :: p.Encoded?
  }

  function Enqueued(actions: seq<Action>): seq<Payload<PilotItem>> {
    if actions == [] then [] else Enqueued(actions[..|actions| - 1]) + Added(actions[|actions| - 1])
  }

  /** A pass that finds a message to process. */
  predicate Processes(f: Fifo, a: Action) {
    a.Pass? && f.queue != [] && f.queue[0].Encoded?
  }

  /** How many passes of a run found a message to process. */
  function Processings(f: Fifo, actions: seq<Action>, job: Job): nat {
    if actions == [] then 0
    else
      var front := actions[..|actions| - 1];
      Processings(f, front, job) + (if Processes(FifoRun(f, front, job), actions[|actions| - 1]) then 1 else 0)
  }

  function Passes(actions: seq<Action>): nat {
    if actions == [] then 0
    else Passes(actions[..|actions| - 1]) + (if actions[|actions| - 1].Pass? then 1 else 0)
  }

  lemma StepWorks(f: Fifo, a: Action, job: Job)
    requires Bounded(f)
    ensures var g := FifoStep(f, a, job);
            && Bounded(g)
            && (if Processes(f, a) then 1 else 0) + Work(g)
               <= Work(f) + 4 * |Added(a)| + 3 * (if a.Restart? then 1 else 0)
  {}

  /** Each processed message pays for itself: processings and remaining work never exceed the initial
      work plus four attempts per message added on the way and three per restart. */
  lemma {:induction false} WorkBound(f: Fifo, actions: seq<Action>, job: Job)
    requires Bounded(f)
    ensures var g := FifoRun(f, actions, job);
            && Bounded(g)
            && Processings(f, actions, job) + Work(g) <= Work(f) + 4 * |Enqueued(actions)| + 3 * Restarts(actions)
  {
    if actions != [] {
      var front, last := actions[..|actions| - 1], actions[|actions| - 1];
      WorkBound(f, front, job);
      StepWorks(FifoRun(f, front, job), last, job);
    }
  }

  lemma {:induction false} NothingEnqueued(actions: seq<Action>)
    requires forall a <- actions :: !Adds(a)
    ensures Enqueued(actions) == []
  {
    if actions != [] {
      NothingEnqueued(actions[..|actions| - 1]);
      assert actions[|actions| - 1] in actions;
    }
  }

  lemma EnqueuedOne(actions: seq<Action>, a: Action)
    requires !Adds(a)
    ensures Enqueued(actions + [a]) == Enqueued(actions)
  {
    assert (actions + [a])[..|actions|] == actions;
    assert Enqueued(actions) + [] == Enqueued(actions);
  }

  lemma {:induction false} EnqueuedStays(run: seq<Action>, more: seq<Action>)
    requires forall k | 0 <= k < |more| :: !Adds(more[k])
    ensures Enqueued(run + more) == Enqueued(run)
  {
    if more == [] {
      assert run + more == run;
    } else {
      var front, last := more[..|more| - 1], more[|more| - 1];
      EnqueuedStays(run, front);
      assert run + more == (run + front) + [last];
      EnqueuedOne(run + front, last);
    }
  }

  lemma {:induction false} EveryPassProcesses(f: Fifo, actions: seq<Action>, job: Job)
    requires (forall a <- actions :: !Adds(a)) && AllDecode(f)
    ensures AllDecode(FifoRun(f, actions, job))
    ensures FifoRun(f, actions, job).queue != [] ==> Processings(f, actions, job) == Passes(actions)
  {
    if actions != [] {
      EveryPassProcesses(f, actions[..|actions| - 1], job);
      assert actions[|actions| - 1] in actions;
    }
  }

  lemma MalformedStaysOne(f: Fifo, a: Action, job: Job)
    requires !AllDecode(f)
    ensures !AllDecode(FifoStep(f, a, job))
  {
    var p :| p in f.queue && p.Malformed?;
    assert f.queue[0].Encoded? ==> p in f.queue[1..];
    assert p in f.queue + Added(a);
  }

  /** An entry that does not decode stays in the queue, wherever it is and whatever happens. */
  lemma {:induction false} MalformedStays(f: Fifo, actions: seq<Action>, job: Job)
    requires !AllDecode(f)
    ensures !AllDecode(FifoRun(f, actions, job))
  {
    if actions != [] {
      MalformedStays(f, actions[..|actions| - 1], job);
      MalformedStaysOne(FifoRun(f, actions[..|actions| - 1], job), actions[|actions| - 1], job);
    }
  }

  /** When the queue drains, exactly. With nothing new enqueued, whatever the faults and expiries, no run
      processes more than four times the waiting messages and three more for each restart; and that many
      passes empty the queue if and only if every entry in it decodes. */
  lemma DrainsIff(f: Fifo, actions: seq<Action>, job: Job)
    requires Bounded(f) && forall a <- actions :: !Adds(a)
    ensures Processings(f, actions, job) <= 4 * |f.queue| + 3 * (AtRisk(f) + Restarts(actions))
    ensures Passes(actions) >= 4 * |f.queue| + 3 * (AtRisk(f) + Restarts(actions)) ==>
      (FifoRun(f, actions, job).queue == [] <==> AllDecode(f))
  {
    NothingEnqueued(actions);
    WorkBound(f, actions, job);
    if AllDecode(f) {
      EveryPassProcesses(f, actions, job);
    } else {
      MalformedStays(f, actions, job);
    }
  }

  /** The same queue but for what has been added behind it and for its count. */
  ghost predicate Stuck(f: Fifo, g: Fifo, added: seq<Payload<PilotItem>>) {
    g.queue == f.queue + added && g.head == f.head && g.tables == f.tables && g.lost == f.lost
  }

  /** A head that does not decode is never acknowledged: the worker makes no further progress, however
      long it runs, however often it restarts and whatever is enqueued behind it. */
  lemma {:induction false} MalformedHeadBlocksForever(f: Fifo, actions: seq<Action>, job: Job)
    requires f.queue != [] && f.queue[0].Malformed?
    ensures Stuck(f, FifoRun(f, actions, job), Enqueued(actions))
  {
    if actions == [] {
      assert f.queue + [] == f.queue;
    } else {
      var front, last := actions[..|actions| - 1], actions[|actions| - 1];
      MalformedHeadBlocksForever(f, front, job);
      MalformedHeadStep(FifoRun(f, front, job), last, job);
      assert f.queue + (Enqueued(front) + Added(last)) == (f.queue + Enqueued(front)) + Added(last);
    }
  }

  lemma MalformedHeadStep(f: Fifo, a: Action, job: Job)
    requires f.queue != [] && f.queue[0].Malformed?
    ensures Stuck(f, FifoStep(f, a, job), Added(a))
  {
    assert f.queue + [] == f.queue;
  }

  // ----- what the tables end up as -----

  /** The tables after one clean attempt on each entry, in order. */
  function Settled(t: Tables, entries: seq<Payload<PilotItem>>, job: Job): Tables {
    if entries == [] then t
    else
      var before, last := Settled(t, entries[..|entries| - 1], job), entries[|entries| - 1];
      if last.Encoded? then job.run(before, last.item, NoFault).0 else before
  }

  /** The tables hold `base` plus at most what failed attempts on the head have left behind. */
  ghost predicate Caught(f: Fifo, base: Tables, job: Job) {
    if f.queue == [] || f.queue[0].Malformed? || f.count.failures == 0 || !job.usable(f.queue[0].item)
    then f.tables == base
    else job.run(f.tables, f.queue[0].item, NoFault).0 == job.run(base, f.queue[0].item, NoFault).0
  }

  ghost predicate CaughtUp(tables: Tables, all: seq<Payload<PilotItem>>, f: Fifo, job: Job) {
    && |f.queue| <= |all| && f.queue == all[|all| - |f.queue|..]
    && (f.queue == [] || f.queue[0].Malformed? ==> f.count.failures == 0)
    && (f.lost == 0 ==> Caught(f, Settled(tables, all[..|all| - |f.queue|], job), job))
  }

  lemma EnqueueCatchesUp(tables: Tables, all: seq<Payload<PilotItem>>, f: Fifo, more: seq<Payload<PilotItem>>, job: Job)
    requires CaughtUp(tables, all, f, job)
    ensures CaughtUp(tables, all + more, f.(queue := f.queue + more), job)
  {
    var done := |all| - |f.queue|;
    assert (all + more)[..done] == all[..done];
    assert (all + more)[done..] == f.queue + more;
  }

  /** `clean` is what a clean attempt on the head makes of `base`. */
  lemma OutcomeCatchesUp(all: seq<Payload<PilotItem>>, f: Fifo, tables: Tables, ok: bool, usable: bool)
    requires f.queue != [] && |f.queue| <= |all| && f.queue == all[|all| - |f.queue|..]
    ensures var g := Outcome(f, tables, ok, usable);
            && |g.queue| <= |all| && g.queue == all[|all| - |g.queue|..]
            && (|g.queue| < |f.queue| ==> all[..|all| - |g.queue|] == all[..|all| - |f.queue|] + [f.queue[0]])
            && (|g.queue| < |f.queue| ==> g.count.failures == 0 && (ok || g.lost > 0 || !usable))
            && (|g.queue| == |f.queue| ==> g.queue == f.queue && g.count.failures > 0 && !ok)
            && g.tables == tables && g.lost >= f.lost
  {}

  lemma SettledAppend(tables: Tables, done: seq<Payload<PilotItem>>, p: Payload<PilotItem>, job: Job)
    ensures Settled(tables, done + [p], job)
         == if p.Encoded? then job.run(Settled(tables, done, job), p.item, NoFault).0 else Settled(tables, done, job)
  {
    assert (done + [p])[..|done|] == done;
  }

  lemma PassCatchesUp(tables: Tables, all: seq<Payload<PilotItem>>, f: Fifo, fault: Fault, job: Job)
    requires CaughtUp(tables, all, f, job) && Converges(job)
    ensures CaughtUp(tables, all, Attempt(f, fault, job), job)
  {
    if f.queue != [] && f.queue[0].Encoded? {
      var item := f.queue[0].item;
      var base := Settled(tables, all[..|all| - |f.queue|], job);
      var (t', ok) := job.run(f.tables, item, fault);
      OutcomeCatchesUp(all, f, t', ok, job.usable(item));
      assert OutcomeOf(job, f.tables, item, fault) && OutcomeOf(job, base, item, NoFault);
      SettledAppend(tables, all[..|all| - |f.queue|], f.queue[0], job);
    }
  }

  lemma StepCatchesUp(tables: Tables, all: seq<Payload<PilotItem>>, f: Fifo, a: Action, job: Job)
    requires CaughtUp(tables, all, f, job) && Converges(job)
    ensures CaughtUp(tables, all + Added(a), FifoStep(f, a, job), job)
  {
    match a
    case Pass(_, fault) =>
      assert all + [] == all;
      PassCatchesUp(tables, all, f, fault, job);
    case Expire(_) => assert all + [] == all;
    case Restart => assert all + [] == all;
    case _ => EnqueueCatchesUp(tables, all, f, Added(a), job);
  }

  /** Over any run, as long as no message was lost to faults: the tables are those of a clean pass over
      the completed entries, up to unfinished work on the head. */
  lemma {:induction false} RunCatchesUp(tables: Tables, actions: seq<Action>, job: Job)
    requires Converges(job)
    ensures CaughtUp(tables, Enqueued(actions), FifoRun(Idle(tables), actions, job), job)
  {
    if actions != [] {
      var front, last := actions[..|actions| - 1], actions[|actions| - 1];
      RunCatchesUp(tables, front, job);
      StepCatchesUp(tables, Enqueued(front), FifoRun(Idle(tables), front, job), last, job);
    }
  }

  lemma DrainedTables(w: Worker, f: Fifo, tables: Tables, all: seq<Payload<PilotItem>>, job: Job)
    requires Linked(w, f) && CaughtUp(tables, all, f, job) && f.queue == [] && f.lost == 0
    ensures w.tables == Settled(tables, all, job)
  {
    assert all[..|all|] == all;
  }

  /** Safety over whole runs: once the queue has drained with no message lost to faults, the tables
      are exactly those of one clean attempt per enqueued message in enqueue order. */
  lemma DrainedRunIsOnePass(tables: Tables, actions: seq<Action>, job: Job, w: Worker, f: Fifo)
    requires Converges(job)
    requires w == WorkerRun(Start(tables), actions, job)
    requires f == FifoRun(Idle(tables), actions, job) && f.queue == [] && f.lost == 0
    ensures w.tables == Settled(tables, Enqueued(actions), job)
  {
    RunCatchesUp(tables, actions, job);
    WorkerRefinesFifo(Start(tables), Idle(tables), actions, job);
    DrainedTables(w, f, tables, Enqueued(actions), job);
  }

  // ----- when nothing is lost -----

  /** How many passes in a row, up to now, a fault has hit. */
  function Streak(actions: seq<Action>): nat {
    if actions == [] then 0
    else
      var before := Streak(actions[..|actions| - 1]);
      match actions[|actions| - 1]
      case Pass(_, fault) => if fault == NoFault then 0 else before + 1
      case _ => before
  }

  /** Faults never hit four passes in a row. */
  predicate ShortStreaks(actions: seq<Action>) {
    actions == [] || (ShortStreaks(actions[..|actions| - 1]) && Streak(actions) <= 3)
  }

  /** Failures of a usable head are all from the present streak of faults. */
  ghost predicate Streaked(f: Fifo, streak: nat, job: Job) {
    f.lost == 0 && (f.queue != [] && f.queue[0].Encoded? && job.usable(f.queue[0].item) ==> f.count.tries <= streak)
                && Bounded(f)
  }

  lemma StepStreaked(f: Fifo, a: Action, before: nat, after: nat, job: Job)
    requires Converges(job) && Streaked(f, before, job) && after <= 3
    requires after == if !a.Pass? then before else if a.fault == NoFault then 0 else before + 1
    ensures Streaked(FifoStep(f, a, job), after, job)
  {
    if Processes(f, a) {
      assert OutcomeOf(job, f.tables, f.queue[0].item, a.fault);
    }
  }

  /** A schedule with no four faulted passes in a row loses no usable message. */
  lemma {:induction false} ShortStreaksLoseNothing(tables: Tables, actions: seq<Action>, job: Job)
    requires Converges(job) && ShortStreaks(actions)
    ensures Streaked(FifoRun(Idle(tables), actions, job), Streak(actions), job)
  {
    if actions != [] {
      var front, last := actions[..|actions| - 1], actions[|actions| - 1];
      ShortStreaksLoseNothing(tables, front, job);
      WorkBound(Idle(tables), front, job);
      StepStreaked(FifoRun(Idle(tables), front, job), last, Streak(front), Streak(actions), job);
    }
  }

  /** After any run, four passes per message enqueued, and three per restart, are enough to drain what is left
      of it. */
  lemma DrainsAfter(tables: Tables, run: seq<Action>, drain: seq<Action>, job: Job)
    requires Converges(job) && (forall p <- Enqueued(run) :: p.Encoded?) && (forall a <- drain :: !Adds(a))
    requires Passes(drain) >= 4 * |Enqueued(run)| + 3 * (Restarts(run) + Restarts(drain))
    ensures FifoRun(Idle(tables), run + drain, job).queue == [] && Enqueued(run + drain) == Enqueued(run)
  {
    var f0 := Idle(tables);
    var f := FifoRun(f0, run, job);
    RunConcat(Start(tables), f0, run, drain, job);
    RunCatchesUp(tables, run, job);
    assert forall p <- f.queue :: p in Enqueued(run);
    WorkBound(f0, run, job);
    if Restarts(run) == 0 {
      CountsEveryFailure(tables, run, job);
    }
    DrainsIff(f, drain, job);
    EnqueuedStays(run, drain);
  }
}
