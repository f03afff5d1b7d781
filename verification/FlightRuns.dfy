/** One flight's record over whole runs of the cache job and the flight-plan worker.

    Each load-modify-store of the record is one atomic step here; module FlightRaces splits them. Every
    store restarts the record's seven days to live, and a record whose time is up
    is gone.
 */
module FlightRuns {
  import opened Wrappers
  import opened GoStrings
  import opened LiveFlight

  datatype Stored = Stored(flight: Flight, expiresAt: Time)

  datatype Plan = Plan(waypoints: seq<string>)

  /** A flight plan stored: when the interval was checked, when the result was stored, and the phase that
      set the interval. */
  datatype PlanFetch = PlanFetch(checkedAt: Time, storedAt: Time, phase: Phase)

  /** `life` counts the records created so far; `log` is every waypoint the current record has taken,
      never pruned; `fetches` is every flight plan stored. All three are history. */
  datatype World = World(cell: Option<Stored>, clock: Time, life: nat, log: seq<Waypoint>, fetches: seq<PlanFetch>)

  /** Steps: the cache job observes the flight, or the worker handles a queued request, whose API call
      (between the two clock readings) gives a plan or fails. */
  datatype Step =
    | Observe(obs: Observation, now: Time, storedAt: Time)
    | Request(checkedAt: Time, storedAt: Time, plan: Option<Plan>)

  function Load(cell: Option<Stored>, now: Time): Option<Flight> {
    if cell.Some? && now < cell.value.expiresAt then Some(cell.value.flight) else None
  }

  function Store(f: Flight, now: Time): Option<Stored> {
    Some(Stored(f, now + FLIGHT_TTL))
  }

  /** An unbounded log under the hundred-second rule. */
  function Logged(log: seq<Waypoint>, wp: Waypoint): seq<Waypoint> {
    if log != [] && wp.timestamp - log[|log| - 1].timestamp < WAYPOINT_GAP then log else log + [wp]
  }

  function Icao(name: string): string {
    if |name| == 4 then ToUpper(name) else ""
  }

  /** extractRouteFromFPL */
  function Route(plan: Plan): (string, string) {
    if |plan.waypoints| < 2 then ("", "")
    else (Icao(plan.waypoints[0]), Icao(plan.waypoints[|plan.waypoints| - 1]))
  }

  function PlanStored(f: Flight, plan: Plan, now: Time): Flight {
    f.(origin := Route(plan).0, destination := Route(plan).1, lastFlightPlanFetch := Some(now))
  }

  function After(w: World, s: Step): World {
    match s
    case Observe(obs, now, storedAt) =>
      var existing := Load(w.cell, now);
      var f := Observed(existing, obs, now);
      World(Store(f, storedAt), storedAt, if existing.None? then w.life + 1 else w.life,
            Logged(if existing.None? then [] else w.log, Snapshot(f, now)), w.fetches)
    case Request(checkedAt, storedAt, plan) =>
      var existing := Load(w.cell, checkedAt);
      if existing.None? || !ShouldFetch(existing.value, checkedAt) || plan.None? then w.(clock := storedAt)
      else
        World(Store(PlanStored(existing.value, plan.value, storedAt), storedAt), storedAt, w.life, w.log,
              w.fetches + [PlanFetch(checkedAt, storedAt, existing.value.phase)])
  }

  /** The clock never runs backwards. */
  predicate Timely(w: World, s: Step) {
    match s
    case Observe(_, now, storedAt) => w.clock <= now <= storedAt
    case Request(checkedAt, storedAt, _) => w.clock <= checkedAt <= storedAt
  }

  function Start(clock: Time): World {
    World(None, clock, 0, [], [])
  }

  ghost predicate Next(w: World, s: Step, v: World) {
    Timely(w, s) && v == After(w, s)
  }

  /** A run: the states it passes through and the steps between them, in any interleaving. */
  ghost predicate IsRun(ws: seq<World>, steps: seq<Step>) {
    && |ws| == |steps| + 1 && ws[0] == Start(ws[0].clock)
    && forall k {:trigger steps[k]} | 0 <= k < |steps| :: Next(ws[k], steps[k], ws[k + 1])
  }

  /** A record stays readable for exactly seven days after its last store. */
  lemma LoadAfterStore(f: Flight, storedAt: Time, now: Time)
    ensures Load(Store(f, storedAt), now) == if now - storedAt < 604_800_000_000_000 then Some(f) else None
    ensures Load(None, now) == None
  {}

  /** An end of the route: a name of four characters in capitals, else nothing. */
  ghost predicate RouteEnd(name: string, text: string) {
    if |name| == 4 then Capitals(name, text) else text == ""
  }

  /** The route of a plan with two waypoints or more runs from its first to its last, each shown when its name has
      four characters; a shorter plan has none. Storing a plan overwrites both ends and the time of the fetch. */
  lemma RouteFromEnds(f: Flight, plan: Plan, now: Time)
    ensures var g, n := PlanStored(f, plan, now), |plan.waypoints|;
            && g == f.(origin := g.origin, destination := g.destination, lastFlightPlanFetch := Some(now))
            && (n < 2 ==> g.origin == "" && g.destination == "")
            && (n >= 2 ==> RouteEnd(plan.waypoints[0], g.origin) && RouteEnd(plan.waypoints[n - 1], g.destination))
  {}

  // ----- what every step keeps -----

  function Rank(p: Phase): nat {
    match p
    case Takeoff => 1
    case Climb => 2
    case Cruise => 3
    case Descent => 4
    case Landed => 5
    case _ => 0
  }

  /** Flight lifecycle: a phase off the ground implies a takeoff time; a landing time implies an earlier
      or simultaneous takeoff; nothing is stamped in the future. */
  ghost predicate Lifecycle(f: Flight, clock: Time) {
    && f.phase != Blank
    && (Rank(f.phase) > 0 ==> f.takeoffTime.Some?)
    && (f.takeoffTime.Some? ==> f.takeoffTime.value <= clock)
    && (f.landingTime.Some? ==> f.takeoffTime.Some? && f.takeoffTime.value <= f.landingTime.value <= clock)
  }

  ghost predicate SpacedLog(log: seq<Waypoint>) {
    forall k | 0 <= k < |log| - 1 :: log[k + 1].timestamp - log[k].timestamp >= WAYPOINT_GAP
  }

  /** The waypoint history is the tail of the unpruned log. */
  ghost predicate HistoryIsTail(f: Flight, log: seq<Waypoint>) {
    && log != [] && SpacedLog(log)
    && f.waypoints == Last(log, MAX_WAYPOINTS)
    && f.lastUpdatedWaypoint == Some(log[|log| - 1].timestamp)
  }

  /** The record remembers the last plan fetch, or a whole lifetime has passed since. */
  ghost predicate FetchRemembered(w: World) {
    w.fetches != [] ==>
      var storedAt := w.fetches[|w.fetches| - 1].storedAt;
      && storedAt <= w.clock
      && ((w.cell.Some? && w.cell.value.flight.lastFlightPlanFetch == Some(storedAt)
           && w.cell.value.expiresAt >= storedAt + FLIGHT_TTL)
          || w.clock >= storedAt + FLIGHT_TTL)
  }

  /** Successive fetches are at least the interval of the later one's phase apart. */
  ghost predicate FetchesSpaced(fetches: seq<PlanFetch>) {
    && (forall k | 0 <= k < |fetches| :: fetches[k].checkedAt <= fetches[k].storedAt)
    && forall k | 0 <= k < |fetches| - 1 ::
      fetches[k + 1].checkedAt - fetches[k].storedAt >= FetchInterval(fetches[k + 1].phase)
  }

  ghost predicate Inv(w: World) {
    && (w.cell.Some? ==> Lifecycle(w.cell.value.flight, w.clock) && HistoryIsTail(w.cell.value.flight, w.log))
    && (w.cell.None? ==> w.fetches == [])
    && FetchRemembered(w)
    && FetchesSpaced(w.fetches)
  }

  /** The record before and after one observation. */
  ghost predicate Advances(f: Flight, g: Flight) {
    && (f.takeoffTime.Some? ==> g.takeoffTime == f.takeoffTime)
    && (f.landingTime.Some? ==> g.landingTime == f.landingTime)
    && g.detectedAt == f.detectedAt
    && (f.phase != Unknown ==> g.phase != Unknown)
    && (g.phase == OnGround || Rank(f.phase) <= Rank(g.phase))
    && (g.phase == Landed ==> f.phase in {Climb, Cruise, Descent, Landed})
  }

  lemma ObservationAdvances(f: Flight, obs: Observation, now: Time)
    requires f.phase != Blank
    ensures Advances(f, Observed(Some(f), obs, now))
  {}

  lemma ObservationKeepsLifecycle(existing: Option<Flight>, obs: Observation, clock: Time, now: Time)
    requires clock <= now && (existing.Some? ==> Lifecycle(existing.value, clock))
    ensures Lifecycle(Observed(existing, obs, now), now)
  {}

  lemma LastAppend<T>(s: seq<T>, x: T, count: nat)
    requires count > 0
    ensures Last(Last(s, count) + [x], count) == Last(s + [x], count)
  {}

  lemma ObservationKeepsHistory(existing: Option<Flight>, obs: Observation, log: seq<Waypoint>, now: Time)
    requires existing.Some? ==> HistoryIsTail(existing.value, log)
    requires existing.None? ==> log == []
    ensures var f := Observed(existing, obs, now);
            HistoryIsTail(f, Logged(log, Snapshot(f, now)))
  {
    var f := Observed(existing, obs, now);
    LastAppend(log, Snapshot(f, now), MAX_WAYPOINTS);
  }

  lemma StepKeepsInv(w: World, s: Step)
    requires Inv(w) && Timely(w, s)
    ensures Inv(After(w, s))
  {
    match s
    case Observe(obs, now, storedAt) => ObserveKeepsInv(w, obs, now, storedAt);
    case Request(checkedAt, storedAt, plan) => RequestKeepsInv(w, checkedAt, storedAt, plan);
  }

  lemma ObserveKeepsInv(w: World, obs: Observation, now: Time, storedAt: Time)
    requires Inv(w) && w.clock <= now <= storedAt
    ensures Inv(After(w, Observe(obs, now, storedAt)))
  {
    var existing := Load(w.cell, now);
    ObservationKeepsLifecycle(existing, obs, w.clock, now);
    ObservationKeepsHistory(existing, obs, if existing.None? then [] else w.log, now);
    assert existing.Some? ==> Observed(existing, obs, now).lastFlightPlanFetch == existing.value.lastFlightPlanFetch;
  }

  lemma RequestKeepsInv(w: World, checkedAt: Time, storedAt: Time, plan: Option<Plan>)
    requires Inv(w) && w.clock <= checkedAt <= storedAt
    ensures Inv(After(w, Request(checkedAt, storedAt, plan)))
  {}

  // ----- whole runs -----

  /** Every reachable state satisfies the invariant. */
  lemma {:induction false} Reachable(ws: seq<World>, steps: seq<Step>, k: nat)
    requires IsRun(ws, steps) && k < |ws|
    ensures Inv(ws[k])
  {
    if k > 0 {
      Reachable(ws, steps, k - 1);
      assert Next(ws[k - 1], steps[k - 1], ws[k]);
      StepKeepsInv(ws[k - 1], steps[k - 1]);
    }
  }

  /** What any two states of a run have in common, the second being later: lives only begin, and within
      one life a known takeoff or landing time, the time of detection and knowing the phase are kept. */
  ghost predicate Later(w: World, v: World) {
    && w.life <= v.life && (w.cell.Some? ==> v.cell.Some?)
    && (w.cell.Some? && w.life == v.life ==>
      var f, g := w.cell.value.flight, v.cell.value.flight;
      && (f.takeoffTime.Some? ==> g.takeoffTime == f.takeoffTime)
      && (f.landingTime.Some? ==> g.landingTime == f.landingTime)
      && g.detectedAt == f.detectedAt
      && (f.phase != Unknown ==> g.phase != Unknown))
  }

  lemma LaterTransitive(u: World, w: World, v: World)
    requires Later(u, w) && Later(w, v)
    ensures Later(u, v)
  {}

  function PhaseOf(w: World): Phase {
    if w.cell.Some? then w.cell.value.flight.phase else Blank
  }

  /** The phase before and after one step of a record's life; no record begins as landed. */
  ghost predicate PhaseMoves(w: World, v: World) {
    && (w.cell.Some? && v.life == w.life ==>
          && (PhaseOf(v) == OnGround || Rank(PhaseOf(w)) <= Rank(PhaseOf(v)))
          && (PhaseOf(v) == Landed ==> PhaseOf(w) in {Climb, Cruise, Descent, Landed}))
    && (v.life != w.life ==> v.life == w.life + 1 && PhaseOf(v) !in {Landed, Blank})
  }

  lemma StepAdvances(w: World, s: Step)
    requires Inv(w) && Timely(w, s)
    ensures Later(w, After(w, s)) && PhaseMoves(w, After(w, s))
  {
    if s.Observe? {
      InitialPhaseUnknownIff(s.obs.info.position.speed, s.obs.info.position.altitude);
      if w.cell.Some? {
        ObservationAdvances(w.cell.value.flight, s.obs, s.now);
      }
    }
  }

  /** Landed is entered from climb, cruise or descent only, at every step of every run. */
  lemma RunAdvances(ws: seq<World>, steps: seq<Step>, k: nat)
    requires IsRun(ws, steps) && k < |steps|
    ensures Later(ws[k], ws[k + 1]) && PhaseMoves(ws[k], ws[k + 1])
  {
    Reachable(ws, steps, k);
    assert Next(ws[k], steps[k], ws[k + 1]);
    StepAdvances(ws[k], steps[k]);
  }

  /** Set once, over whole runs: between any two points of a record's life, a takeoff or landing time
      already known, and the time of detection, are unchanged, and a known phase is still known. */
  lemma {:induction false} SetOnce(ws: seq<World>, steps: seq<Step>, i: nat, j: nat)
    requires IsRun(ws, steps) && i <= j < |ws|
    ensures Later(ws[i], ws[j])
  {
    if i < j {
      SetOnce(ws, steps, i, j - 1);
      RunAdvances(ws, steps, j - 1);
      LaterTransitive(ws[i], ws[j - 1], ws[j]);
    }
  }

  /** Phase order over whole runs: as long as the same record is not seen on the ground, its phase never
      steps back in takeoff < climb < cruise < descent < landed. */
  lemma {:induction false} PhaseOrder(ws: seq<World>, steps: seq<Step>, i: nat, j: nat)
    requires IsRun(ws, steps) && i <= j < |ws| && ws[i].cell.Some?
    requires forall k | i < k <= j :: ws[k].life == ws[i].life && PhaseOf(ws[k]) != OnGround
    ensures Rank(PhaseOf(ws[i])) <= Rank(PhaseOf(ws[j]))
  {
    if i < j {
      PhaseOrder(ws, steps, i, j - 1);
      SetOnce(ws, steps, i, j - 1);
      RunAdvances(ws, steps, j - 1);
    }
  }

  /** The step observes the flight slower than 50. */
  predicate SeenSlow(s: Step) {
    s.Observe? && s.obs.info.position.speed < 50
  }

  lemma StepKeepsDescent(w: World, s: Step)
    requires w.cell.Some? && PhaseOf(w) == Descent && !SeenSlow(s)
    ensures After(w, s).life == w.life ==> PhaseOf(After(w, s)) == Descent
  {}

  /** A record in descent stays in descent for the rest of its life, until it is seen slower than 50. */
  lemma {:induction false} DescentUntilSlow(ws: seq<World>, steps: seq<Step>, i: nat, j: nat)
    requires IsRun(ws, steps) && i <= j < |ws| && ws[i].cell.Some? && PhaseOf(ws[i]) == Descent
    requires ws[j].life == ws[i].life && forall k {:trigger steps[k]} | i <= k < j :: !SeenSlow(steps[k])
    ensures ws[j].cell.Some? && PhaseOf(ws[j]) == Descent
  {
    if i < j {
      SetOnce(ws, steps, i, j - 1);
      RunAdvances(ws, steps, j - 1);
      DescentUntilSlow(ws, steps, i, j - 1);
      assert Next(ws[j - 1], steps[j - 1], ws[j]);
      StepKeepsDescent(ws[j - 1], steps[j - 1]);
    }
  }

  /** So a flight first seen between 1000 and 8000 feet at more than 50 and at most 300 is in descent at once
      and never seen climbing or cruising: not before it has been seen slower than 50. */
  lemma FirstSeenLowNeverClimbs(ws: seq<World>, steps: seq<Step>, i: nat, j: nat)
    requires IsRun(ws, steps) && i < j < |ws| && steps[i].Observe? && ws[i + 1].life == ws[i].life + 1
    requires var p := steps[i].obs.info.position; 50 < p.speed <= 300 && 1000 < p.altitude <= 8000
    requires ws[j].life == ws[i + 1].life && forall k {:trigger steps[k]} | i < k < j :: !SeenSlow(steps[k])
    ensures ws[j].cell.Some? && PhaseOf(ws[j]) == Descent
  {
    var p := steps[i].obs.info.position;
    assert Next(ws[i], steps[i], ws[i + 1]);
    InitialPhaseDescentIff(p.speed, p.altitude);
    assert PhaseOf(ws[i + 1]) == Descent;
    DescentUntilSlow(ws, steps, i + 1, j);
  }

  /** Flight plans are never stored twice within the phase's interval, however the job's and the worker's
      steps interleave and however many requests are queued: over a whole run, any two fetches are at
      least two minutes apart, and neighbours at least the later phase's interval. */
  lemma FetchesApart(ws: seq<World>, steps: seq<Step>, i: nat, j: nat)
    requires IsRun(ws, steps) && i < j < |ws[|steps|].fetches|
    ensures var fetches := ws[|steps|].fetches;
            && fetches[j].checkedAt - fetches[i].storedAt >= 2 * MINUTE * (j - i)
            && (j == i + 1 ==> fetches[j].checkedAt - fetches[i].storedAt >= FetchInterval(fetches[j].phase))
  {
    Reachable(ws, steps, |steps|);
    var fetches := ws[|steps|].fetches;
    SpacedApart(fetches, i, j);
    assert fetches[i + 1].checkedAt - fetches[i].storedAt >= FetchInterval(fetches[i + 1].phase);
  }

  lemma {:induction false} SpacedApart(fetches: seq<PlanFetch>, i: nat, j: nat)
    requires FetchesSpaced(fetches) && i < j < |fetches|
    ensures fetches[j].checkedAt - fetches[i].storedAt >= 2 * MINUTE * (j - i)
    decreases j
  {
    assert fetches[j].checkedAt - fetches[j - 1].storedAt >= FetchInterval(fetches[j - 1 + 1].phase);
    if i < j - 1 {
      SpacedApart(fetches, i, j - 1);
    }
  }

  /** Each writer keeps the other's fields: the job never touches the route or the fetch time, the worker
      never touches anything else. */
  lemma WritersKeepEachOthersFields(f: Flight, obs: Observation, plan: Plan, now: Time)
    ensures var g := Observed(Some(f), obs, now);
            (g.origin, g.destination, g.lastFlightPlanFetch) == (f.origin, f.destination, f.lastFlightPlanFetch)
    ensures PlanStored(f, plan, now).(origin := f.origin, destination := f.destination,
                                      lastFlightPlanFetch := f.lastFlightPlanFetch) == f
  {}
}
