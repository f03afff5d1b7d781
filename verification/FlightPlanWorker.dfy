/** The flight-plan worker: its main loop, its one-tier retry counter and its claimer. */
module FlightPlanWorker {
  import opened Wrappers
  import opened RedisStream
  import opened RedisQueue
  import opened SingleConsumer
  import opened LiveFlight
  import opened FlightRuns

  const MAX_ATTEMPTS: nat := 2
  const CONSUMER: Consumer := "worker_1"
  const CLAIMER: Consumer := "worker_1-claimer"

  datatype Request = Request(sessionID: string, flightID: string)

  /** What the live API answers; status 400 and 404 are the permanent errors. */
  datatype Api = Answered(plan: Plan) | Permanent | Transient

  datatype Verdict = Succeeded | FailedForGood | FailedForNow

  /** processFlightPlan on the flight cache. Only an API status makes an error permanent; a flight that
      is not cached is an ordinary error. */
  function ProcessFlightPlan(cells: map<string, Stored>, flightID: string, checkedAt: Time, storedAt: Time, api: Api)
    : (map<string, Stored>, Verdict)
  {
    var existing := Load(if flightID in cells then Some(cells[flightID]) else None, checkedAt);
    if existing.None? then (cells, FailedForNow)
    else if !ShouldFetch(existing.value, checkedAt) then (cells, Succeeded)
    else match api
      case Permanent => (cells, FailedForGood)
      case Transient => (cells, FailedForNow)
      case Answered(plan) =>
        (cells[flightID := Store(PlanStored(existing.value, plan, storedAt), storedAt).value], Succeeded)
  }

  /** On one flight's cell, processing a request is the worker's step of module FlightRuns; it touches no
      other flight, and fails exactly when there is nothing to store a plan in or no plan to store. */
  lemma ProcessingIsAtomicStep(w: World, cells: map<string, Stored>, flightID: string, checkedAt: Time,
                               storedAt: Time, api: Api)
    requires w.cell == if flightID in cells then Some(cells[flightID]) else None
    ensures var (cells', verdict) := ProcessFlightPlan(cells, flightID, checkedAt, storedAt, api);
            var w' := After(w, Step.Request(checkedAt, storedAt, if api.Answered? then Some(api.plan) else None));
            && w'.cell == (if flightID in cells' then Some(cells'[flightID]) else None)
            && cells' - {flightID} == cells - {flightID}
            && (verdict == Succeeded && w'.fetches == w.fetches ==>
                  Load(w.cell, checkedAt).Some? && !ShouldFetch(Load(w.cell, checkedAt).value, checkedAt))
            && (verdict != Succeeded ==> cells' == cells)
  {}

  /** What processing a request does. A flight that is not cached is a failure; one whose plan is not due is left as
      it is, which counts as done; else the API decides, and an answer is stored for seven days more. */
  lemma ProcessingOutcome(cells: map<string, Stored>, flightID: string, checkedAt: Time, storedAt: Time, api: Api)
    ensures var (cells', verdict) := ProcessFlightPlan(cells, flightID, checkedAt, storedAt, api);
            if flightID !in cells || checkedAt >= cells[flightID].expiresAt
            then cells' == cells && verdict == FailedForNow
            else if !ShouldFetch(cells[flightID].flight, checkedAt) then cells' == cells && verdict == Succeeded
            else && (verdict == Succeeded <==> api.Answered?) && (verdict == FailedForGood <==> api.Permanent?)
                 && (!api.Answered? ==> cells' == cells)
                 && (api.Answered? ==>
                       && cells' == cells[flightID := cells'[flightID]]
                       && cells'[flightID].flight == PlanStored(cells[flightID].flight, api.plan, storedAt)
                       && cells'[flightID].expiresAt == storedAt + 604_800_000_000_000)
  {}

  predicate Cached(cells: map<string, Stored>, flightID: string, now: Time) {
    flightID in cells && now < cells[flightID].expiresAt
  }

  datatype Worker = Worker(stream: Stream<Request>, retries: map<nat, nat>, cells: map<string, Stored>)

  function RetryCount(retries: map<nat, nat>, id: nat): nat {
    if id in retries then retries[id] else 0
  }

  /** Whether a failed message is acknowledged: out of attempts, hopeless, or its flight is gone. */
  predicate GivesUp(count: nat, verdict: Verdict, cached: bool) {
    count >= MAX_ATTEMPTS || verdict == FailedForGood || !cached
  }

  /** The clock readings of one pass. */
  datatype Clock = Clock(readAt: Time, checkedAt: Time, storedAt: Time, lookedAt: Time)

  /** One pass of the loop in Start. */
  function AfterPass(w: Worker, clock: Clock, api: Api): Worker
    requires Conserved(w.stream)
  {
    var (stream, r) := ReadPendingFirst(w.stream, CONSUMER, clock.readAt);
    match r
    case Empty => w
    case DecodeError => w.(stream := stream)
    case Item(item, id) =>
      var (cells, verdict) := ProcessFlightPlan(w.cells, item.flightID, clock.checkedAt, clock.storedAt, api);
      var count := RetryCount(w.retries, id) + 1;
      if verdict == Succeeded || GivesUp(count, verdict, Cached(cells, item.flightID, clock.lookedAt)) then
        Worker(Acknowledged(stream, id), w.retries - {id}, cells)
      else
        Worker(stream, w.retries[id := count], cells)
  }

  class FlightPlanWorker {
    const queue: RedisQueueService<Request>
    var retries: map<nat, nat>
    var cells: map<string, Stored>

    ghost function Model(): Worker
      reads this, queue
    {
      Worker(queue.Stream(), retries, cells)
    }

    constructor (queue: RedisQueueService<Request>, cells: map<string, Stored>)
      ensures this.queue == queue && Model() == Worker(queue.Stream(), map[], cells)
    {
      this.queue, this.retries, this.cells := queue, map[], cells;
    }

    method IncrementRetryCount(id: nat) returns (newCount: nat)
      modifies this
      ensures newCount == RetryCount(old(retries), id) + 1
      ensures retries == old(retries)[id := newCount] && cells == old(cells)
    {
      var currentCount := RetryCount(retries, id);
      newCount := currentCount + 1;
      retries := retries[id := newCount];
    }

    /** The failure branch of the loop: three reasons to acknowledge, else the message stays for a retry. */
    method HandleFailure(id: nat, flightID: string, verdict: Verdict, lookedAt: Time)
      modifies this, queue
      ensures var count := RetryCount(old(retries), id) + 1;
              Model() == if GivesUp(count, verdict, Cached(old(cells), flightID, lookedAt))
                         then Worker(Acknowledged(old(queue.Stream()), id), old(retries) - {id}, old(cells))
                         else Worker(old(queue.Stream()), old(retries)[id := count], old(cells))
    {
      var retryCount := IncrementRetryCount(id);
      if retryCount >= MAX_ATTEMPTS {
        queue.XAck(id);
        retries := retries - {id};
      } else if verdict == FailedForGood {
        queue.XAck(id);
        retries := retries - {id};
      } else if !Cached(cells, flightID, lookedAt) {
        queue.XAck(id);
        retries := retries - {id};
      }
    }

    /** One pass of the main loop. The flight lookup that decides whether the pilot went offline happens
        after the error, at a clock reading of its own. */
    method Pass(clock: Clock, api: Api)
      requires Conserved(queue.Stream())
      modifies this, queue
      ensures Model() == AfterPass(old(Model()), clock, api)
    {
      var r := queue.DequeuePendingFirst(CONSUMER, clock.readAt);
      if !r.Item? {
        return;
      }
      var id := r.id;
      var (c, verdict) := ProcessFlightPlan(cells, r.item.flightID, clock.checkedAt, clock.storedAt, api);
      cells := c;
      if verdict != Succeeded {
        HandleFailure(id, r.item.flightID, verdict, clock.lookedAt);
        return;
      }
      retries := retries - {id};
      queue.XAck(id);
    }
  }

  // ----- the loop as a first-in first-out queue -----

  /** What can happen while the worker runs: an entry is appended, the worker makes a pass, retry keys
      expire, other writers change the flight cache, or the claimer ticks over the ids it found stale. */
  datatype Event =
    | Append(payload: Payload<Request>)
    | Pass(clock: Clock, api: Api)
    | Expire(ids: set<nat>)
    | Write(cells: map<string, Stored>)
    | Claim(stale: seq<nat>, minIdle: int, now: int)

  ghost function AfterEvent(w: Worker, e: Event): Worker {
    match e
    case Append(payload) => w.(stream := Appended(w.stream, payload))
    case Pass(clock, api) => if Conserved(w.stream) then AfterPass(w, clock, api) else w
    case Expire(ids) => w.(retries := w.retries - ids)
    case Write(cells) => w.(cells := cells)
    case Claim(stale, minIdle, now) => w.(stream := Claimed(w.stream, stale, CLAIMER, minIdle, now))
  }

  /** `head` is the id of the first entry, `tries` what the retry key says of it. */
  datatype Fifo = Fifo(queue: seq<Payload<Request>>, head: nat, tries: nat, cells: map<string, Stored>)

  function Attempt(f: Fifo, clock: Clock, api: Api): Fifo {
    if f.queue == [] || f.queue[0].Malformed? then f
    else
      var flightID := f.queue[0].item.flightID;
      var (cells, verdict) := ProcessFlightPlan(f.cells, flightID, clock.checkedAt, clock.storedAt, api);
      if verdict == Succeeded || GivesUp(f.tries + 1, verdict, Cached(cells, flightID, clock.lookedAt))
      then Fifo(f.queue[1..], f.head + 1, 0, cells)
      else f.(tries := f.tries + 1, cells := cells)
  }

  function FifoStep(f: Fifo, e: Event): Fifo {
    match e
    case Append(payload) => f.(queue := f.queue + [payload])
    case Pass(clock, api) => Attempt(f, clock, api)
    case Expire(ids) => if f.head in ids then f.(tries := 0) else f
    case Write(cells) => f.(cells := cells)
    case Claim(_, _, _) => f
  }

  ghost predicate Linked(w: Worker, f: Fifo) {
    && SoleConsumer(w.stream, CONSUMER)
    && f.queue == Waiting(w.stream) && f.head == Head(w.stream) && f.cells == w.cells
    && w.retries.Keys <= w.stream.pending.Keys
    && f.tries == RetryCount(w.retries, f.head)
    && f.tries < MAX_ATTEMPTS && (f.queue == [] ==> f.tries == 0)
  }

  lemma FinishLinks(w: Worker, f: Fifo, cells: map<string, Stored>)
    requires Linked(w, f) && f.head in w.stream.pending && f.queue != []
    ensures Linked(Worker(Acknowledged(w.stream, f.head), w.retries - {f.head}, cells),
                   Fifo(f.queue[1..], f.head + 1, 0, cells))
  {
    AckAdvances(w.stream, CONSUMER);
    AckedIsPrefix(w.stream, CONSUMER);
    assert w.stream.entries[f.head..][1..] == w.stream.entries[f.head + 1..];
  }

  lemma RetryLinks(w: Worker, f: Fifo)
    requires Linked(w, f) && f.head in w.stream.pending && f.queue != [] && f.tries + 1 < MAX_ATTEMPTS
    ensures Linked(w.(retries := w.retries[f.head := f.tries + 1]), f.(tries := f.tries + 1))
  {}

  lemma PassIsAttempt(w: Worker, f: Fifo, clock: Clock, api: Api)
    requires Linked(w, f)
    ensures Linked(AfterPass(w, clock, api), Attempt(f, clock, api))
  {
    ReadGivesHead(w.stream, CONSUMER, clock.readAt);
    var (s, r) := ReadPendingFirst(w.stream, CONSUMER, clock.readAt);
    var read := w.(stream := s);
    assert Linked(read, f);
    if r.Item? {
      var flightID := r.item.flightID;
      var (cells, verdict) := ProcessFlightPlan(f.cells, flightID, clock.checkedAt, clock.storedAt, api);
      if verdict == Succeeded || GivesUp(f.tries + 1, verdict, Cached(cells, flightID, clock.lookedAt)) {
        FinishLinks(read, f, cells);
      } else {
        RetryLinks(read.(cells := cells), f.(cells := cells));
      }
    }
  }

  /** With the claimer aside, whatever happens to the worker happens to a first-in first-out queue. */
  lemma EventRefines(w: Worker, f: Fifo, e: Event)
    requires Linked(w, f) && !e.Claim?
    ensures Linked(AfterEvent(w, e), FifoStep(f, e))
  {
    match e
    case Append(payload) => AppendKeepsHead(w.stream, CONSUMER, [payload]);
    case Pass(clock, api) => PassIsAttempt(w, f, clock, api);
    case _ =>
  }

  /** A run of the worker and of the queue side by side, without the claimer. */
  ghost predicate IsRunOf(ws: seq<Worker>, fs: seq<Fifo>, events: seq<Event>) {
    && |ws| == |fs| == |events| + 1 && Linked(ws[0], fs[0])
    && (forall k {:trigger events[k]} | 0 <= k < |events| ::
          !events[k].Claim? && ws[k + 1] == AfterEvent(ws[k], events[k]) && fs[k + 1] == FifoStep(fs[k], events[k]))
  }

  lemma {:induction false} WorkerRefinesFifo(ws: seq<Worker>, fs: seq<Fifo>, events: seq<Event>, k: nat)
    requires IsRunOf(ws, fs, events) && k < |ws|
    ensures Linked(ws[k], fs[k])
  {
    if k > 0 {
      WorkerRefinesFifo(ws, fs, events, k - 1);
      assert ws[k] == AfterEvent(ws[k - 1], events[k - 1]) && fs[k] == FifoStep(fs[k - 1], events[k - 1]);
      EventRefines(ws[k - 1], fs[k - 1], events[k - 1]);
    }
  }

  // ----- how often a request is tried -----

  /** When a request leaves the queue: processed, failed once before, refused by the API for good, or its flight is
      gone from the cache by then. Otherwise it stays at the head with one failure more. */
  lemma RequestLeavesIff(f: Fifo, clock: Clock, api: Api)
    requires f.queue != [] && f.queue[0].Encoded?
    ensures var flightID, g := f.queue[0].item.flightID, Attempt(f, clock, api);
            var verdict := ProcessFlightPlan(f.cells, flightID, clock.checkedAt, clock.storedAt, api).1;
            && (g.head == f.head + 1 <==> (
                  || verdict == Succeeded || f.tries >= 1 || verdict == FailedForGood
                  || flightID !in f.cells || clock.lookedAt >= f.cells[flightID].expiresAt))
            && (g.head == f.head + 1 ==> g.queue == f.queue[1..] && g.tries == 0)
            && (g.head != f.head + 1 ==> g == f.(tries := f.tries + 1))
  {}

  // ----- how long a run can work -----

  /** The attempts that the waiting requests can still take: MAX_ATTEMPTS each. */
  function Work(f: Fifo): int {
    2 * |f.queue| - f.tries
  }

  /** A pass that finds a request to process. */
  predicate Processes(f: Fifo, e: Event) {
    e.Pass? && f.queue != [] && f.queue[0].Encoded?
  }

  /** An expiry that takes a count with it. */
  predicate DropsCount(f: Fifo, e: Event) {
    e.Expire? && f.head in e.ids && f.tries > 0
  }

  function CountIf(b: bool): nat {
    if b then 1 else 0
  }

  function Processings(fs: seq<Fifo>, events: seq<Event>, k: nat): nat
    requires k <= |events| <= |fs|
  {
    if k == 0 then 0 else Processings(fs, events, k - 1) + CountIf(Processes(fs[k - 1], events[k - 1]))
  }

  function CountsDropped(fs: seq<Fifo>, events: seq<Event>, k: nat): nat
    requires k <= |events| <= |fs|
  {
    if k == 0 then 0 else CountsDropped(fs, events, k - 1) + CountIf(DropsCount(fs[k - 1], events[k - 1]))
  }

  function Appends(events: seq<Event>, k: nat): nat
    requires k <= |events|
  {
    if k == 0 then 0 else Appends(events, k - 1) + CountIf(events[k - 1].Append?)
  }

  function Passes(events: seq<Event>, k: nat): nat
    requires k <= |events|
  {
    if k == 0 then 0 else Passes(events, k - 1) + CountIf(events[k - 1].Pass?)
  }

  lemma StepWorks(f: Fifo, e: Event)
    requires f.tries < MAX_ATTEMPTS
    ensures FifoStep(f, e).tries < MAX_ATTEMPTS
    ensures CountIf(Processes(f, e)) + Work(FifoStep(f, e))
         <= Work(f) + 2 * CountIf(e.Append?) + CountIf(DropsCount(f, e))
  {}

  /** The attempts of any run, under interleaved appends, cache writes and expiries, are paid for: two by
      each request waiting or appended, one by each expiry that takes the head's count with it. */
  lemma {:induction false} WorkBound(ws: seq<Worker>, fs: seq<Fifo>, events: seq<Event>, k: nat)
    requires IsRunOf(ws, fs, events) && k < |ws|
    ensures Processings(fs, events, k) + Work(fs[k])
         <= Work(fs[0]) + 2 * Appends(events, k) + CountsDropped(fs, events, k)
  {
    if k > 0 {
      WorkBound(ws, fs, events, k - 1);
      WorkerRefinesFifo(ws, fs, events, k - 1);
      assert fs[k] == FifoStep(fs[k - 1], events[k - 1]);
      StepWorks(fs[k - 1], events[k - 1]);
    }
  }

  ghost predicate AllDecode(f: Fifo) {
    forall p <- f.queue :: p.Encoded?
  }

  /** An entry that does not decode stays in the queue, wherever it is. */
  lemma {:induction false} MalformedStays(ws: seq<Worker>, fs: seq<Fifo>, events: seq<Event>, k: nat)
    requires IsRunOf(ws, fs, events) && k < |ws| && !AllDecode(fs[0])
    ensures !AllDecode(fs[k])
  {
    if k > 0 {
      MalformedStays(ws, fs, events, k - 1);
      assert fs[k] == FifoStep(fs[k - 1], events[k - 1]);
      var p :| p in fs[k - 1].queue && p.Malformed?;
      assert fs[k - 1].queue[0].Encoded? ==> p in fs[k - 1].queue[1..];
    }
  }

  /** Until the queue is empty, if all of it decodes and nothing is appended, every pass processes. */
  lemma {:induction false} EveryPassProcesses(ws: seq<Worker>, fs: seq<Fifo>, events: seq<Event>, k: nat)
    requires IsRunOf(ws, fs, events) && k < |ws| && AllDecode(fs[0]) && Appends(events, k) == 0
    ensures AllDecode(fs[k]) && (fs[k].queue != [] ==> Processings(fs, events, k) == Passes(events, k))
  {
    if k > 0 {
      EveryPassProcesses(ws, fs, events, k - 1);
      assert fs[k] == FifoStep(fs[k - 1], events[k - 1]);
    }
  }

  /** When the worker drains its queue, exactly. With nothing appended and no count lost, n waiting
      requests take at most 2n attempts, whatever the API answers and whoever writes the flights; and 2n
      passes empty the queue if and only if every entry in it decodes. */
  lemma DrainsIff(ws: seq<Worker>, fs: seq<Fifo>, events: seq<Event>, k: nat)
    requires IsRunOf(ws, fs, events) && k < |ws|
    requires Appends(events, k) == 0 && CountsDropped(fs, events, k) == 0
    ensures Linked(ws[k], fs[k]) && Processings(fs, events, k) <= 2 * |fs[0].queue|
    ensures Passes(events, k) >= 2 * |fs[0].queue| ==> (Waiting(ws[k].stream) == [] <==> AllDecode(fs[0]))
  {
    WorkBound(ws, fs, events, k);
    WorkerRefinesFifo(ws, fs, events, k);
    if AllDecode(fs[0]) {
      EveryPassProcesses(ws, fs, events, k);
    } else {
      MalformedStays(ws, fs, events, k);
    }
  }

  // ----- what the bound rests on -----

  /** The request is due and its flight cached throughout a pass. */
  predicate Due(cells: map<string, Stored>, flightID: string, clock: Clock) {
    && Cached(cells, flightID, clock.checkedAt) && Cached(cells, flightID, clock.lookedAt)
    && ShouldFetch(cells[flightID].flight, clock.checkedAt)
  }

  lemma RunOn(ws: seq<Worker>, fs: seq<Fifo>, events: seq<Event>, e: Event)
    returns (ws': seq<Worker>, fs': seq<Fifo>, events': seq<Event>)
    requires IsRunOf(ws, fs, events) && !e.Claim?
    ensures ws' == ws + [AfterEvent(ws[|ws| - 1], e)] && fs' == fs + [FifoStep(fs[|fs| - 1], e)]
      && events' == events + [e]
    ensures IsRunOf(ws', fs', events')
    ensures Processings(fs', events', |events'|)
         == Processings(fs, events, |events|) + CountIf(Processes(fs[|fs| - 1], e))
    ensures Appends(events', |events'|) == Appends(events, |events|) + CountIf(e.Append?)
  {
    ws', fs', events' := ws + [AfterEvent(ws[|ws| - 1], e)], fs + [FifoStep(fs[|fs| - 1], e)], events + [e];
    forall k {:trigger events'[k]} | 0 <= k < |events'|
      ensures !events'[k].Claim? && ws'[k + 1] == AfterEvent(ws'[k], events'[k])
        && fs'[k + 1] == FifoStep(fs'[k], events'[k])
    {
      if k < |events| {
        assert ws[k + 1] == AfterEvent(ws[k], events[k]) && fs[k + 1] == FifoStep(fs[k], events[k]);
      }
    }
    CountsOfPrefix(fs, events, fs', events', |events|);
  }

  lemma {:induction false} CountsOfPrefix(fs: seq<Fifo>, events: seq<Event>, fs': seq<Fifo>, events': seq<Event>,
                                          k: nat)
    requires k <= |events| <= |fs| && |events'| <= |fs'| && fs <= fs' && events <= events'
    ensures Processings(fs, events, k) == Processings(fs', events', k) && Appends(events, k) == Appends(events', k)
  {
    if k > 0 {
      CountsOfPrefix(fs, events, fs', events', k - 1);
    }
  }

  lemma TransientTwice(f: Fifo, clock: Clock)
    requires f.tries == 0 && f.queue != [] && f.queue[0].Encoded? && Due(f.cells, f.queue[0].item.flightID, clock)
    ensures var pass := Pass(clock, Transient);
            var f1 := FifoStep(f, pass);
            && Processes(f, pass) && Processes(f1, pass)
            && FifoStep(f1, pass) == f.(queue := f.queue[1..], head := f.head + 1)
  {}

  lemma PassTwice(ws: seq<Worker>, fs: seq<Fifo>, events: seq<Event>, f: Fifo, clock: Clock)
    returns (ws': seq<Worker>, fs': seq<Fifo>, events': seq<Event>)
    requires IsRunOf(ws, fs, events) && f == fs[|fs| - 1]
    requires f.tries == 0 && f.queue != [] && f.queue[0].Encoded? && Due(f.cells, f.queue[0].item.flightID, clock)
    ensures IsRunOf(ws', fs', events') && ws'[0] == ws[0] && fs'[0] == fs[0]
    ensures events' == events + [Pass(clock, Transient), Pass(clock, Transient)]
    ensures Processings(fs', events', |events'|) == Processings(fs, events, |events|) + 2
    ensures fs'[|fs'| - 1] == f.(queue := f.queue[1..], head := f.head + 1)
  {
    TransientTwice(f, clock);
    ws', fs', events' := RunOn(ws, fs, events, Pass(clock, Transient));
    ws', fs', events' := RunOn(ws', fs', events', Pass(clock, Transient));
  }

  /** The bound of two attempts per request is reached: while the API is down, a run of passes alone makes exactly two
      attempts for each request whose flight is cached and due. */
  lemma {:induction false} TwoTriesEach(w: Worker, f: Fifo, clock: Clock, n: nat)
    returns (ws: seq<Worker>, fs: seq<Fifo>, events: seq<Event>)
    requires Linked(w, f) && f.tries == 0 && n <= |f.queue|
    requires forall k | 0 <= k < n :: f.queue[k].Encoded? && Due(f.cells, f.queue[k].item.flightID, clock)
    ensures IsRunOf(ws, fs, events) && ws[0] == w && fs[0] == f && forall e <- events :: e == Pass(clock, Transient)
    ensures Processings(fs, events, |events|) == |events| == 2 * n
    ensures fs[|fs| - 1] == f.(queue := f.queue[n..], head := f.head + n)
  {
    if n == 0 {
      ws, fs, events := [w], [f], [];
    } else {
      ws, fs, events := TwoTriesEach(w, f, clock, n - 1);
      assert f.queue[n - 1..][0] == f.queue[n - 1];
      ws, fs, events := PassTwice(ws, fs, events, fs[|fs| - 1], clock);
    }
  }

  lemma LostCountRound(f: Fifo, cells: map<string, Stored>, clock: Clock)
    requires f.tries == 0 && f.queue != [] && f.queue[0].Encoded? && Due(cells, f.queue[0].item.flightID, clock)
    ensures var f1 := FifoStep(f, Write(cells));
            var f2 := FifoStep(f1, Pass(clock, Transient));
            Processes(f1, Pass(clock, Transient)) && FifoStep(f2, Expire({f.head})) == f.(cells := cells)
  {}

  /** The count lives in the cache alone. If its key expires after every attempt, a request whose flight
      stays cached and due is attempted any number of times and still heads the queue: for every n there
      is a run with n attempts, while the cache job keeps writing the flight. The key is stored for an hour
      and the loop retries a pending message at once, so such an expiry takes passes an hour apart (a worker
      that is down or held up in between) or a cache that evicts early. */
  lemma {:induction false} ExpiringKeyRetriesForever(w: Worker, f: Fifo, cells: nat -> map<string, Stored>,
                                                     clocks: nat -> Clock, n: nat)
    returns (ws: seq<Worker>, fs: seq<Fifo>, events: seq<Event>)
    requires Linked(w, f) && f.tries == 0 && f.queue != [] && f.queue[0].Encoded?
    requires forall k: nat | k < n :: Due(cells(k), f.queue[0].item.flightID, clocks(k))
    ensures IsRunOf(ws, fs, events) && ws[0] == w && fs[0] == f
    ensures Processings(fs, events, |events|) == n && Appends(events, |events|) == 0
    ensures var g := fs[|fs| - 1]; g.queue == f.queue && g.head == f.head && g.tries == 0
  {
    if n == 0 {
      ws, fs, events := [w], [f], [];
    } else {
      ws, fs, events := ExpiringKeyRetriesForever(w, f, cells, clocks, n - 1);
      LostCountRound(fs[|fs| - 1], cells(n - 1), clocks(n - 1));
      ws, fs, events := RunOn(ws, fs, events, Write(cells(n - 1)));
      ws, fs, events := RunOn(ws, fs, events, Pass(clocks(n - 1), Transient));
      ws, fs, events := RunOn(ws, fs, events, Expire({f.head}));
    }
  }

  // ----- the claimer -----

  ghost predicate IsOrphan(w: Worker, id: nat) {
    id in w.stream.pending && w.stream.pending[id].owner == CLAIMER
  }

  /** What a claim does to a request: it goes to the claimer's name if and only if it is named, pending and was last
      delivered at least `minIdle` ago; nothing else about the worker changes. */
  lemma ClaimOrphansIff(w: Worker, stale: seq<nat>, minIdle: int, now: int, id: nat)
    requires !IsOrphan(w, id)
    ensures var w' := AfterEvent(w, Claim(stale, minIdle, now));
            && (IsOrphan(w', id) <==>
                  id in stale && id in w.stream.pending && now - w.stream.pending[id].at >= minIdle)
            && w'.stream.entries == w.stream.entries && w'.stream.next == w.stream.next
            && w'.stream.acked == w.stream.acked && w'.stream.pending.Keys == w.stream.pending.Keys
            && w'.retries == w.retries && w'.cells == w.cells
  {
    ClaimMovesIff(w.stream, stale, CLAIMER, minIdle, now);
  }

  lemma OrphanStays(w: Worker, id: nat, e: Event)
    requires IsOrphan(w, id)
    ensures IsOrphan(AfterEvent(w, e), id)
  {
    assert CLAIMER[8..] == "-claimer";
    assert CONSUMER != CLAIMER;
  }

  /** The claimer gives stale messages to a consumer name that the main loop does not read. Once claimed,
      a message stays pending for that name: no later pass, claim or enqueue ever acknowledges it. */
  lemma {:induction false} ClaimedIsNeverAcknowledged(ws: seq<Worker>, events: seq<Event>, id: nat, k: nat)
    requires |ws| == |events| + 1 && k < |ws|
    requires forall i {:trigger events[i]} | 0 <= i < |events| :: ws[i + 1] == AfterEvent(ws[i], events[i])
    requires IsOrphan(ws[0], id)
    ensures IsOrphan(ws[k], id)
  {
    if k > 0 {
      ClaimedIsNeverAcknowledged(ws, events, id, k - 1);
      assert ws[k] == AfterEvent(ws[k - 1], events[k - 1]);
      OrphanStays(ws[k - 1], id, events[k - 1]);
    }
  }
}
