/** The live-flight record: how the cache job folds an observation into it.

    Times are nanoseconds on one clock; a zero time.Time is None. Positions arrive normalized.
 */
module LiveFlight {
  import opened Wrappers

  type Time = int

  const MINUTE: int := 60_000_000_000
  const HOUR: int := 3_600_000_000_000
  const FLIGHT_TTL: int := 604_800_000_000_000   // seven days
  const WAYPOINT_GAP: int := 100_000_000_000     // one hundred seconds
  const MAX_WAYPOINTS: nat := 600

  datatype Phase = OnGround | Takeoff | Climb | Cruise | Descent | Landed | Unknown | Blank

  datatype Position = Position(latitude: real, longitude: real, altitude: int, speed: int, track: real,
                               verticalSpeed: real)

  datatype Waypoint = Waypoint(timestamp: Time, latitude: real, longitude: real, altitude: int, speed: int, track: real)

  /** The fields that every observation overwrites. */
  datatype FlightInfo = FlightInfo(
    flightID: string, callsign: string, userID: string, username: string,
    sessionID: string, sessionName: string, position: Position,
    aircraftID: string, liveryID: string, aircraftName: string, liveryName: string,
    vaIDs: seq<string>)

  /** The record as it is stored in the cache. */
  datatype Flight = Flight(
    info: FlightInfo,
    phase: Phase, takeoffTime: Option<Time>, landingTime: Option<Time>,
    origin: string, destination: string,
    waypoints: seq<Waypoint>, lastUpdatedWaypoint: Option<Time>,
    detectedAt: Option<Time>, lastUpdated: Time, lastReport: Time, lastFlightPlanFetch: Option<Time>)

  /** An API flight entry, with the names the aircraft service finds for it ("" when it finds none)
      and the parsed report time. */
  datatype Observation = Observation(info: FlightInfo, lastReport: Option<Time>)

  // ----- the phase machine -----

  function InitialPhase(speed: int, altitude: int): Phase {
    if speed < 50 then OnGround
    else if altitude > 30000 || speed > 300 then Cruise
    else if altitude > 8000 && speed > 80 then Climb
    else if altitude < 15000 && speed > 50 && altitude > 1000 then Descent
    else if speed > 80 && altitude < 1000 then Takeoff
    else if speed > 80 then Takeoff
    else Unknown
  }

  function NextPhase(phase: Phase, speed: int, altitude: int): Phase {
    if phase == Unknown || phase == Blank then InitialPhase(speed, altitude)
    else if speed < 50 then
      if phase == Descent || phase == Cruise || phase == Climb then Landed else OnGround
    else if phase == OnGround && speed > 80 then Takeoff
    else if phase == Takeoff && altitude > 8000 then Climb
    else if phase == Climb && (altitude > 30000 || speed > 300) then Cruise
    else if phase == Cruise && altitude < 15000 then Descent
    else phase
  }

  predicate Airborne(phase: Phase) {
    phase == Takeoff || phase == Climb || phase == Cruise || phase == Descent
  }

  function PhaseUpdated(f: Flight, speed: int, altitude: int, now: Time): Flight {
    var next := NextPhase(f.phase, speed, altitude);
    var takesOff := Airborne(next) && (f.phase == Unknown || f.phase == Blank || f.phase == OnGround);
    var lands := next == Landed && f.phase != Landed;
    f.(phase := next,
       takeoffTime := if takesOff && f.takeoffTime.None? then Some(now) else f.takeoffTime,
       landingTime := if lands && f.landingTime.None? then Some(now) else f.landingTime)
  }

  /** The exact gap in the initial inference: too slow to be flying, too fast to be parked, and not at
      an altitude that settles it. */
  lemma InitialPhaseUnknownIff(speed: int, altitude: int)
    ensures InitialPhase(speed, altitude) == Unknown
       <==> 50 <= speed <= 80 && altitude <= 30000 && (speed == 50 || altitude <= 1000 || altitude >= 15000)
    ensures InitialPhase(speed, altitude) !in {Landed, Blank}
  {}

  /** Descent is inferred from altitude and speed alone, for every flight first seen between 1000 and 8000 feet
      at more than 50 and at most 300, whether it climbs or descends. */
  lemma InitialPhaseDescentIff(speed: int, altitude: int)
    ensures InitialPhase(speed, altitude) == Descent
       <==> 50 < speed <= 300 && 1000 < altitude < 15000 && (altitude <= 8000 || speed <= 80)
  {}

  lemma InitialPhaseGroundIff(speed: int, altitude: int)
    ensures InitialPhase(speed, altitude) == OnGround <==> speed < 50
  {}

  lemma InitialPhaseTakeoffIff(speed: int, altitude: int)
    ensures InitialPhase(speed, altitude) == Takeoff <==> 80 < speed <= 300 && altitude <= 1000
  {}

  lemma InitialPhaseClimbIff(speed: int, altitude: int)
    ensures InitialPhase(speed, altitude) == Climb <==> 80 < speed <= 300 && 8000 < altitude <= 30000
  {}

  lemma InitialPhaseCruiseIff(speed: int, altitude: int)
    ensures InitialPhase(speed, altitude) == Cruise <==> speed >= 50 && (altitude > 30000 || speed > 300)
  {}

  // ----- waypoints -----

  function Snapshot(f: Flight, now: Time): Waypoint {
    var p := f.info.position;
    Waypoint(now, p.latitude, p.longitude, p.altitude, p.speed, p.track)
  }

  function Last<T>(s: seq<T>, count: nat): seq<T> {
    if |s| > count then s[|s| - count..] else s
  }

  function WaypointAppended(f: Flight, now: Time): Flight {
    if f.lastUpdatedWaypoint.Some? && now - f.lastUpdatedWaypoint.value < WAYPOINT_GAP then f
    else f.(waypoints := Last(f.waypoints + [Snapshot(f, now)], MAX_WAYPOINTS), lastUpdatedWaypoint := Some(now))
  }

  // ----- one observation -----

  function Preferred(found: string, known: string): string {
    if found == "" then known else found
  }

  /** The record before its phase is updated: everything observed is new, everything tracked is kept. */
  function Refreshed(existing: Option<Flight>, obs: Observation, now: Time): Flight {
    var report := if obs.lastReport.Some? then obs.lastReport.value else now;
    match existing
    case None =>
      Flight(obs.info, Unknown, None, None, "", "", [], None, Some(now), now, report, None)
    case Some(e) =>
      e.(info := obs.info.(aircraftName := Preferred(obs.info.aircraftName, e.info.aircraftName),
                           liveryName := Preferred(obs.info.liveryName, e.info.liveryName)),
         lastUpdated := now, lastReport := report)
  }

  /** buildCompleteFlight followed by appendWaypoint. */
  function Observed(existing: Option<Flight>, obs: Observation, now: Time): Flight {
    var p := obs.info.position;
    WaypointAppended(PhaseUpdated(Refreshed(existing, obs, now), p.speed, p.altitude, now), now)
  }

  /** A flight in a known phase that is seen at 50 or faster: the four ways to change phase, and no fifth. */
  lemma PhaseWhenFast(f: Flight, obs: Observation, now: Time)
    requires f.phase !in {Unknown, Blank} && obs.info.position.speed >= 50
    ensures var p, was, next := obs.info.position, f.phase, Observed(Some(f), obs, now).phase;
            && (was == OnGround && p.speed > 80 <==> was != Takeoff && next == Takeoff)
            && (was == Takeoff && p.altitude > 8000 <==> was != Climb && next == Climb)
            && (was == Climb && (p.altitude > 30000 || p.speed > 300) <==> was != Cruise && next == Cruise)
            && (was == Cruise && p.altitude < 15000 <==> was != Descent && next == Descent)
            && next in {was, Takeoff, Climb, Cruise, Descent}
  {}

  /** One that is seen slower than 50 has landed when it was climbing, cruising or descending, and is on the
      ground otherwise; one that has landed is on the ground as well. */
  lemma PhaseWhenSlow(f: Flight, obs: Observation, now: Time)
    requires f.phase !in {Unknown, Blank} && obs.info.position.speed < 50
    ensures var next := Observed(Some(f), obs, now).phase;
            && next in {Landed, OnGround} && (next == Landed <==> f.phase in {Climb, Cruise, Descent})
  {}

  /** The first observation, and any other of a flight whose phase is not known, infers it from speed and altitude. */
  lemma PhaseWhenUnknown(existing: Option<Flight>, obs: Observation, now: Time)
    requires existing.Some? ==> existing.value.phase in {Unknown, Blank}
    ensures var p, next := obs.info.position, Observed(existing, obs, now).phase;
            && (next == OnGround <==> p.speed < 50)
            && (next == Takeoff <==> 80 < p.speed <= 300 && p.altitude <= 1000)
            && (next == Climb <==> 80 < p.speed <= 300 && 8000 < p.altitude <= 30000)
            && (next == Cruise <==> p.speed >= 50 && (p.altitude > 30000 || p.speed > 300))
            && (next == Descent <==> (
                  50 < p.speed <= 300 && 1000 < p.altitude < 15000 && (p.altitude <= 8000 || p.speed <= 80)))
            && next !in {Landed, Blank}
  {
    var p := obs.info.position;
    InitialPhaseGroundIff(p.speed, p.altitude);
    InitialPhaseTakeoffIff(p.speed, p.altitude);
    InitialPhaseClimbIff(p.speed, p.altitude);
    InitialPhaseCruiseIff(p.speed, p.altitude);
    InitialPhaseDescentIff(p.speed, p.altitude);
    InitialPhaseUnknownIff(p.speed, p.altitude);
  }

  /** When the times are set: the takeoff time at the first step off the ground, also for a flight first seen in the
      air; the landing time at the first landing. A time that is known stays. */
  lemma TimesWhenObserved(f: Flight, obs: Observation, now: Time)
    ensures var g := Observed(Some(f), obs, now);
            && g.takeoffTime == (if f.takeoffTime.Some? then f.takeoffTime
                                 else if f.phase in {OnGround, Unknown, Blank}
                                         && g.phase in {Takeoff, Climb, Cruise, Descent} then Some(now)
                                 else None)
            && g.landingTime == (if f.landingTime.Some? then f.landingTime
                                 else if obs.info.position.speed < 50 && f.phase in {Climb, Cruise, Descent}
                                 then Some(now)
                                 else None)
  {
    InitialPhaseUnknownIff(obs.info.position.speed, obs.info.position.altitude);
  }

  /** A new record: detected now, with one waypoint, no route and no plan fetched. */
  lemma FirstObservation(obs: Observation, now: Time)
    ensures var g, p := Observed(None, obs, now), obs.info.position;
            && g.info == obs.info && g.detectedAt == Some(now) && g.lastUpdated == now
            && g.origin == "" && g.destination == "" && g.lastFlightPlanFetch.None? && g.landingTime.None?
            && (g.takeoffTime == Some(now) <==> g.phase in {Takeoff, Climb, Cruise, Descent})
            && (g.takeoffTime.None? <==> g.phase in {OnGround, Unknown})
            && g.waypoints == [Waypoint(now, p.latitude, p.longitude, p.altitude, p.speed, p.track)]
            && g.lastUpdatedWaypoint == Some(now)
  {
    InitialPhaseUnknownIff(obs.info.position.speed, obs.info.position.altitude);
  }

  /** The names that stay when the aircraft service finds none, and everything else as observed. */
  lemma InfoWhenObserved(f: Flight, obs: Observation, now: Time)
    ensures var g := Observed(Some(f), obs, now);
            && g.info.aircraftName == (if obs.info.aircraftName != "" then obs.info.aircraftName
                                       else f.info.aircraftName)
            && g.info.liveryName == (if obs.info.liveryName != "" then obs.info.liveryName else f.info.liveryName)
            && g.info == obs.info.(aircraftName := g.info.aircraftName, liveryName := g.info.liveryName)
            && g.detectedAt == f.detectedAt && g.lastUpdated == now
            && (obs.lastReport.Some? ==> g.lastReport == obs.lastReport.value)
            && (obs.lastReport.None? ==> g.lastReport == now)
  {}

  /** A waypoint is taken when there is none yet or the last is at least a hundred seconds old; it shows the position
      observed, and the oldest go when there are more than six hundred. */
  lemma WaypointWhenObserved(f: Flight, obs: Observation, now: Time)
    ensures var g, p := Observed(Some(f), obs, now), obs.info.position;
            var taken := Waypoint(now, p.latitude, p.longitude, p.altitude, p.speed, p.track);
            if f.lastUpdatedWaypoint.Some? && now < f.lastUpdatedWaypoint.value + 100_000_000_000
            then g.waypoints == f.waypoints && g.lastUpdatedWaypoint == f.lastUpdatedWaypoint
            else && g.waypoints == (if |f.waypoints| < 600 then f.waypoints else f.waypoints[|f.waypoints| - 599..])
                                   + [taken]
                 && g.lastUpdatedWaypoint == Some(now)
  {}

  // ----- flight-plan interval -----

  function FetchInterval(phase: Phase): (interval: int)
    ensures 2 * MINUTE <= interval <= 10 * MINUTE
  {
    match phase
    case Cruise => 10 * MINUTE
    case OnGround => 2 * MINUTE
    case _ => 5 * MINUTE
  }

  /** ShouldFetchFlightPlan: a record never fetched for counts as an hour old. */
  predicate ShouldFetch(f: Flight, now: Time) {
    var age := if f.lastFlightPlanFetch.None? then HOUR else now - f.lastFlightPlanFetch.value;
    age >= FetchInterval(f.phase)
  }

  /** When a plan is due: never fetched, or ten minutes ago in cruise, two on the ground, five in any other phase. */
  lemma ShouldFetchIff(f: Flight, now: Time)
    ensures ShouldFetch(f, now)
       <==> (|| f.lastFlightPlanFetch.None?
             || now - f.lastFlightPlanFetch.value >= 600_000_000_000
             || (f.phase != Cruise && now - f.lastFlightPlanFetch.value >= 300_000_000_000)
             || (f.phase == OnGround && now - f.lastFlightPlanFetch.value >= 120_000_000_000))
  {}

  // ----- the record as the object that the job updates in place -----

  class CompleteFlight {
    var info: FlightInfo
    var phase: Phase
    var takeoffTime: Option<Time>
    var landingTime: Option<Time>
    var origin: string
    var destination: string
    var waypoints: seq<Waypoint>
    var lastUpdatedWaypoint: Option<Time>
    var detectedAt: Option<Time>
    var lastUpdated: Time
    var lastReport: Time
    var lastFlightPlanFetch: Option<Time>

    function Value(): Flight
      reads this
    {
      Flight(info, phase, takeoffTime, landingTime, origin, destination, waypoints, lastUpdatedWaypoint,
             detectedAt, lastUpdated, lastReport, lastFlightPlanFetch)
    }

    /** The literal that buildCompleteFlight starts from. */
    constructor (obs: Observation, now: Time)
      ensures Value() == Flight(obs.info, Blank, None, None, "", "", [], None, None, now,
                                if obs.lastReport.Some? then obs.lastReport.value else now, None)
    {
      info, phase, takeoffTime, landingTime := obs.info, Blank, None, None;
      origin, destination, waypoints, lastUpdatedWaypoint := "", "", [], None;
      detectedAt, lastUpdated := None, now;
      lastReport := if obs.lastReport.Some? then obs.lastReport.value else now;
      lastFlightPlanFetch := None;
    }

    /** Carry over what an earlier observation or the flight-plan worker has tracked. */
    method PreserveFrom(e: Flight)
      modifies this
      ensures Value() == e.(info := old(info).(aircraftName := Preferred(old(info).aircraftName, e.info.aircraftName),
                                               liveryName := Preferred(old(info).liveryName, e.info.liveryName)),
                            lastUpdated := old(lastUpdated), lastReport := old(lastReport))
    {
      waypoints, lastUpdatedWaypoint := e.waypoints, e.lastUpdatedWaypoint;
      phase, takeoffTime, landingTime := e.phase, e.takeoffTime, e.landingTime;
      origin, destination := e.origin, e.destination;
      lastFlightPlanFetch, detectedAt := e.lastFlightPlanFetch, e.detectedAt;
      if info.aircraftName == "" && e.info.aircraftName != "" {
        info := info.(aircraftName := e.info.aircraftName);
      }
      if info.liveryName == "" && e.info.liveryName != "" {
        info := info.(liveryName := e.info.liveryName);
      }
    }

    method UpdateFlightPhase(speed: int, altitude: int, now: Time)
      modifies this
      ensures Value() == PhaseUpdated(old(Value()), speed, altitude, now)
    {
      var prevPhase := phase;
      if prevPhase == Unknown || prevPhase == Blank {
        var newPhase := InitialPhase(speed, altitude);
        if newPhase != OnGround && newPhase != Unknown && takeoffTime.None? {
          takeoffTime := Some(now);
        }
        phase := newPhase;
        InitialPhaseUnknownIff(speed, altitude);
        return;
      }
      if speed < 50 {
        if prevPhase == Descent || prevPhase == Cruise || prevPhase == Climb {
          phase := Landed;
          if landingTime.None? {
            landingTime := Some(now);
          }
        } else {
          phase := OnGround;
        }
      } else if prevPhase == OnGround && speed > 80 {
        phase := Takeoff;
        if takeoffTime.None? {
          takeoffTime := Some(now);
        }
      } else if prevPhase == Takeoff && altitude > 8000 {
        phase := Climb;
      } else if prevPhase == Climb && (altitude > 30000 || speed > 300) {
        phase := Cruise;
      } else if prevPhase == Cruise && altitude < 15000 {
        phase := Descent;
      }
    }

    method AppendWaypoint(now: Time)
      modifies this
      ensures Value() == WaypointAppended(old(Value()), now)
    {
      if lastUpdatedWaypoint.Some? && now - lastUpdatedWaypoint.value < WAYPOINT_GAP {
        return;
      }
      waypoints := waypoints + [Snapshot(Value(), now)];
      lastUpdatedWaypoint := Some(now);
      if |waypoints| > MAX_WAYPOINTS {
        waypoints := waypoints[|waypoints| - MAX_WAYPOINTS..];
      }
    }
  }

  /** buildCompleteFlight, given what the cache holds for the flight. */
  method BuildCompleteFlight(existing: Option<Flight>, obs: Observation, now: Time) returns (flight: CompleteFlight)
    ensures fresh(flight)
    ensures var p := obs.info.position;
            flight.Value() == PhaseUpdated(Refreshed(existing, obs, now), p.speed, p.altitude, now)
  {
    flight := new CompleteFlight(obs, now);
    if existing.Some? {
      flight.PreserveFrom(existing.value);
    } else {
      flight.phase, flight.detectedAt := Unknown, Some(now);
    }
    assert flight.Value() == Refreshed(existing, obs, now);
    flight.UpdateFlightPhase(flight.info.position.speed, flight.info.position.altitude, now);
  }
}
