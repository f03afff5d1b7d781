/** One run of the cache job over all sessions, the indexes it writes, and the reader that resolves them.

    The whole run reads one clock. Lists live for five minutes in the cache, flight records for seven
    days. The callsign matcher is a parameter of everything here; the job's own
    is Callsigns.MatchesVAPattern.
 */
module FlightIndex {
  import opened Wrappers
  import opened Folds
  import opened GoStrings
  import opened PipeLists
  import opened LiveFlight
  import opened FlightRuns

  datatype VAPattern = VAPattern(vaID: string, prefix: string, suffix: string)

  type Matcher = (string, string, string) -> bool

  /** A live flight as the API lists it, with the names that the aircraft service has for it. */
  datatype ApiFlight = ApiFlight(
    flightID: string, callsign: string, userID: string, username: string, position: Position,
    aircraftID: string, liveryID: string, aircraftName: string, liveryName: string, lastReport: Option<Time>)

  /** A session of the session list: its cached name, and its flights unless the API call failed. */
  datatype Session = Session(sessionID: string, name: Option<string>, flights: Option<seq<ApiFlight>>)

  /** A flight that belongs to at least one VA. */
  datatype Sighting = Sighting(sessionID: string, flightID: string, obs: Observation)

  predicate Applies(matches: Matcher, callsign: string, p: VAPattern) {
    !(p.prefix == "" && p.suffix == "") && matches(callsign, p.prefix, p.suffix)
  }

  function VAsOf(patterns: seq<VAPattern>, matches: Matcher, callsign: string): seq<string> {
    Select(patterns, (p: VAPattern) => Applies(matches, callsign, p), (p: VAPattern) => p.vaID)
  }

  function Seen(sessionID: string, name: Option<string>, api: ApiFlight, vas: seq<string>): Sighting {
    Sighting(sessionID, api.flightID,
             Observation(FlightInfo(api.flightID, api.callsign, api.userID, api.username, sessionID,
                                    if name.Some? then name.value else sessionID, api.position,
                                    api.aircraftID, api.liveryID, api.aircraftName, api.liveryName, vas),
                         api.lastReport))
  }

  function Tracked(patterns: seq<VAPattern>, matches: Matcher): ApiFlight -> bool {
    (api: ApiFlight) => api.callsign != "" && VAsOf(patterns, matches, api.callsign) != []
  }

  function SeenIn(s: Session, patterns: seq<VAPattern>, matches: Matcher): ApiFlight -> Sighting {
    (api: ApiFlight) => Seen(s.sessionID, s.name, api, VAsOf(patterns, matches, api.callsign))
  }

  /** The flights of one session that the job tracks, in the order the API lists them. */
  function SessionSightings(s: Session, flights: seq<ApiFlight>, patterns: seq<VAPattern>, matches: Matcher)
    : seq<Sighting>
  {
    Select(flights, Tracked(patterns, matches), SeenIn(s, patterns, matches))
  }

  /** All tracked flights of a run, in scan order. */
  function Sightings(sessions: seq<Session>, patterns: seq<VAPattern>, matches: Matcher): seq<Sighting> {
    if sessions == [] then []
    else
      var before, last := Sightings(sessions[..|sessions| - 1], patterns, matches), sessions[|sessions| - 1];
      if last.sessionID == "" || last.flights.None? then before
      else before + SessionSightings(last, last.flights.value, patterns, matches)
  }

  // ----- the aggregation -----

  type Lists = map<string, seq<string>>

  function ListOf(m: Lists, key: string): seq<string> {
    if key in m then m[key] else []
  }

  function AddTo(id: string): (Lists, string) -> Lists {
    (m: Lists, key: string) => m[key := ListOf(m, key) + [id]]
  }

  /** The job's in-memory maps, the flight records it has stored and the plan requests it has queued. */
  datatype Tally = Tally(records: map<string, Stored>, sessionFlights: Lists, vaFlights: Lists, total: nat,
                         requests: seq<(string, string)>)

  function CellOf(records: map<string, Stored>, flightID: string): Option<Stored> {
    if flightID in records then Some(records[flightID]) else None
  }

  function Tallied(t: Tally, s: Sighting, now: Time): Tally {
    var f := Observed(Load(CellOf(t.records, s.flightID), now), s.obs, now);
    Tally(t.records[s.flightID := Stored(f, now + FLIGHT_TTL)],
          AddTo(s.flightID)(t.sessionFlights, s.sessionID),
          Fold(t.vaFlights, s.obs.info.vaIDs, AddTo(s.flightID)),
          t.total + 1,
          if ShouldFetch(f, now) then t.requests + [(s.sessionID, s.flightID)] else t.requests)
  }

  function TallyAt(now: Time): (Tally, Sighting) -> Tally {
    (t: Tally, s: Sighting) => Tallied(t, s, now)
  }

  const LIST_TTL: int := 300_000_000_000   // five minutes

  /** A joined list of ids as the cache holds it. */
  datatype StoredList = StoredList(ids: string, expiresAt: Time)

  type Index = map<string, StoredList>

  /** The index entries that a run writes: each non-empty list, joined. */
  function Joined(m: Lists, now: Time): Index {
    map key | key in m :: StoredList(Join(m[key], PIPE), now + LIST_TTL)
  }

  /** The list under a key, unless it was never written or its time is up. */
  function LoadList(index: Index, key: string, now: Time): Option<string> {
    if key in index && now < index[key].expiresAt then Some(index[key].ids) else None
  }

  // ----- the job and the reader as methods -----

  datatype DTO = DTO(info: FlightInfo, phase: Phase, takeoffTime: Option<Time>, landingTime: Option<Time>,
                     origin: string, destination: string, maxSpeed: Option<int>, maxAltitude: Option<int>,
                     detectedAt: Option<Time>, lastUpdated: Time, lastReport: Time, lastFlightPlanFetch: Option<Time>)

  function Larger(a: int, b: int): int {
    if b > a then b else a
  }

  function Maximum(wps: seq<Waypoint>, value: Waypoint -> int): Option<int> {
    if wps == [] then None
    else Some(Fold(value(wps[0]), wps, (m: int, wp: Waypoint) => Larger(m, value(wp))))
  }

  /** ToVALiveFlightDTO; what the DTO leaves out of the flight's identity is blanked. */
  function ToDTO(f: Flight): DTO {
    DTO(f.info.(userID := "", sessionID := "", aircraftID := "", liveryID := "", vaIDs := []),
        f.phase, f.takeoffTime, f.landingTime, f.origin, f.destination,
        Maximum(f.waypoints, (wp: Waypoint) => wp.speed), Maximum(f.waypoints, (wp: Waypoint) => wp.altitude),
        f.detectedAt, f.lastUpdated, f.lastReport, f.lastFlightPlanFetch)
  }

  /** What the reader makes of a list of ids: blanks and flights that are gone are skipped. */
  function Resolved(ids: seq<string>, records: map<string, Stored>, now: Time): seq<DTO> {
    Select(ids, (id: string) => id != "" && Load(CellOf(records, id), now).Some?,
           (id: string) => if Load(CellOf(records, id), now).Some? then ToDTO(Load(CellOf(records, id), now).value)
                           else ToDTO(NoFlight()))
  }

  function NoFlight(): Flight {
    Flight(FlightInfo("", "", "", "", "", "", Position(0.0, 0.0, 0, 0, 0.0, 0.0), "", "", "", "", []),
           Blank, None, None, "", "", [], None, None, 0, 0, None)
  }

  class CacheJob {
    const matcher: Matcher
    var patterns: seq<VAPattern>
    var records: map<string, Stored>
    var sessionLists: Index
    var vaLists: Index
    var requests: seq<(string, string)>

    constructor (matcher: Matcher, patterns: seq<VAPattern>)
      ensures this.matcher == matcher && this.patterns == patterns
      ensures records == map[] && sessionLists == map[] && vaLists == map[] && requests == []
    {
      this.matcher, this.patterns := matcher, patterns;
      records, sessionLists, vaLists, requests := map[], map[], map[], [];
    }

    method MatchFlightToVAs(callsign: string) returns (matchedVAs: seq<string>)
      ensures matchedVAs == VAsOf(patterns, matcher, callsign)
    {
      matchedVAs := [];
      var p, f := (p: VAPattern) => Applies(matcher, callsign, p), (p: VAPattern) => p.vaID;
      for k := 0 to |patterns|
        invariant matchedVAs == VAsOf(patterns[..k], matcher, callsign)
      {
        assert patterns[..k + 1][..k] == patterns[..k];
        if patterns[k].prefix == "" && patterns[k].suffix == "" {
          continue;
        }
        if matcher(callsign, patterns[k].prefix, patterns[k].suffix) {
          matchedVAs := matchedVAs + [patterns[k].vaID];
        }
      }
      assert patterns[..|patterns|] == patterns;
    }

    /** Load or create the record, append a waypoint, store it, and queue a plan request when one is due. */
    method Track(s: Sighting, now: Time)
      modifies this`records, this`requests
      ensures var f := Observed(Load(CellOf(old(records), s.flightID), now), s.obs, now);
              && records == old(records)[s.flightID := Stored(f, now + FLIGHT_TTL)]
              && requests == if ShouldFetch(f, now) then old(requests) + [(s.sessionID, s.flightID)] else old(requests)
    {
      var existing := Load(CellOf(records, s.flightID), now);
      var flight := BuildCompleteFlight(existing, s.obs, now);
      flight.AppendWaypoint(now);
      var f := flight.Value();
      records := records[s.flightID := Stored(f, now + FLIGHT_TTL)];
      if ShouldFetch(f, now) {
        requests := requests + [(s.sessionID, s.flightID)];
      }
    }

    /** The inner loop: the flights of one session. */
    method ScanSession(session: Session, flights: seq<ApiFlight>, sessionFlights: Lists, vaFlights: Lists,
                       total: nat, now: Time)
      returns (sf: Lists, vf: Lists, n: nat)
      modifies this`records, this`requests
      ensures Tally(records, sf, vf, n, requests)
           == Fold(Tally(old(records), sessionFlights, vaFlights, total, old(requests)),
                   SessionSightings(session, flights, patterns, matcher), TallyAt(now))
    {
      sf, vf, n := sessionFlights, vaFlights, total;
      ghost var t0 := Tally(records, sf, vf, n, requests);
      for k := 0 to |flights|
        invariant Tally(records, sf, vf, n, requests)
               == Fold(t0, SessionSightings(session, flights[..k], patterns, matcher), TallyAt(now))
      {
        FoldSelectOne(t0, flights, k, Tracked(patterns, matcher), SeenIn(session, patterns, matcher), TallyAt(now));
        if flights[k].callsign == "" {
          continue;
        }
        var matchedVAs := MatchFlightToVAs(flights[k].callsign);
        if matchedVAs == [] {
          continue;
        }
        var s := Seen(session.sessionID, session.name, flights[k], matchedVAs);
        Track(s, now);
        sf := AddTo(s.flightID)(sf, s.sessionID);
        vf := AddAll(vf, matchedVAs, s.flightID);
        n := n + 1;
      }
      assert flights[..|flights|] == flights;
    }

    method AddAll(vaFlights: Lists, vas: seq<string>, flightID: string) returns (vf: Lists)
      ensures vf == Fold(vaFlights, vas, AddTo(flightID))
    {
      vf := vaFlights;
      for k := 0 to |vas|
        invariant vf == Fold(vaFlights, vas[..k], AddTo(flightID))
      {
        FoldOne(vaFlights, vas, k, AddTo(flightID));
        vf := vf[vas[k] := ListOf(vf, vas[k]) + [flightID]];
      }
      assert vas[..|vas|] == vas;
    }

    /** Run, once the session list has been read. Index entries of sessions and VAs without a tracked
        flight are left as an earlier run wrote them, to expire. */
    method Run(sessions: seq<Session>, now: Time) returns (totalFlights: nat)
      modifies this`records, this`requests, this`sessionLists, this`vaLists
      ensures var t := Fold(Tally(old(records), map[], map[], 0, old(requests)),
                            Sightings(sessions, patterns, matcher), TallyAt(now));
              && records == t.records && requests == t.requests && totalFlights == t.total
              && sessionLists == old(sessionLists) + Joined(t.sessionFlights, now)
              && vaLists == old(vaLists) + Joined(t.vaFlights, now)
    {
      var sessionFlights: Lists, vaFlights: Lists := map[], map[];
      totalFlights := 0;
      ghost var t0 := Tally(records, map[], map[], 0, requests);
      for k := 0 to |sessions|
        invariant sessionLists == old(sessionLists) && vaLists == old(vaLists)
        invariant Tally(records, sessionFlights, vaFlights, totalFlights, requests)
               == Fold(t0, Sightings(sessions[..k], patterns, matcher), TallyAt(now))
      {
        assert sessions[..k + 1][..k] == sessions[..k];
        if sessions[k].sessionID == "" || sessions[k].flights.None? {
          continue;
        }
        var flights := sessions[k].flights.value;
        FoldConcat(t0, Sightings(sessions[..k], patterns, matcher),
                   SessionSightings(sessions[k], flights, patterns, matcher), TallyAt(now));
        sessionFlights, vaFlights, totalFlights :=
          ScanSession(sessions[k], flights, sessionFlights, vaFlights, totalFlights, now);
      }
      assert sessions[..|sessions|] == sessions;
      sessionLists := WriteLists(sessionLists, sessionFlights, now);
      vaLists := WriteLists(vaLists, vaFlights, now);
    }

    /** Write every list of the map, in whatever order the map is iterated, to live for five minutes. */
    method WriteLists(index: Index, lists: Lists, now: Time) returns (written: Index)
      ensures written == index + Joined(lists, now)
    {
      written := index;
      var keys := lists.Keys;
      while keys != {}
        invariant keys <= lists.Keys
        invariant written.Keys == index.Keys + (lists.Keys - keys)
        invariant forall key | key in written ::
          written[key] == if key in lists && key !in keys then Joined(lists, now)[key] else index[key]
        decreases keys
      {
        var key :| key in keys;
        written := written[key := StoredList(Join(lists[key], PIPE), now + LIST_TTL)];
        keys := keys - {key};
      }
    }

    /** GetVALiveFlightsDTOs; None is the error for an empty VA id. */
    method GetVALiveFlights(vaID: string, now: Time) returns (r: Option<seq<DTO>>)
      ensures vaID == "" ==> r == None
      ensures vaID != "" ==> r == Some(ReadIndex(vaLists, records, vaID, now))
    {
      if vaID == "" {
        return None;
      }
      var list := LoadList(vaLists, vaID, now);
      if list.None? || list.value == "" {
        return Some([]);
      }
      var flightIDs := Split(list.value, '|');
      var flights := [];
      for k := 0 to |flightIDs|
        invariant flights == Resolved(flightIDs[..k], records, now)
      {
        assert flightIDs[..k + 1][..k] == flightIDs[..k];
        if flightIDs[k] == "" {
          continue;
        }
        var flight := Load(CellOf(records, flightIDs[k]), now);
        if flight.None? {
          continue;
        }
        flights := flights + [ToDTO(flight.value)];
      }
      assert flightIDs[..|flightIDs|] == flightIDs;
      r := Some(flights);
    }
  }

  function ReadIndex(vaLists: Index, records: map<string, Stored>, vaID: string, now: Time): seq<DTO> {
    var list := LoadList(vaLists, vaID, now);
    if list.None? || list.value == "" then [] else Resolved(Split(list.value, '|'), records, now)
  }

  // ----- what the reader shows of a flight -----

  /** The value is one of the waypoints', and no waypoint has a larger one. */
  ghost predicate IsMaximum(wps: seq<Waypoint>, value: Waypoint -> int, m: int) {
    (exists k | 0 <= k < |wps| :: value(wps[k]) == m) && (forall k | 0 <= k < |wps| :: value(wps[k]) <= m)
  }

  lemma {:induction false} LargestSoFar(m: int, wps: seq<Waypoint>, value: Waypoint -> int)
    ensures var r := Fold(m, wps, (m: int, wp: Waypoint) => Larger(m, value(wp)));
            && r >= m && (forall k | 0 <= k < |wps| :: value(wps[k]) <= r)
            && (r == m || exists k | 0 <= k < |wps| :: value(wps[k]) == r)
  {
    if wps != [] {
      var n := |wps| - 1;
      LargestSoFar(m, wps[..n], value);
      var before := Fold(m, wps[..n], (m: int, wp: Waypoint) => Larger(m, value(wp)));
      var r := Larger(before, value(wps[n]));
      if r == before && r != m {
        var k :| 0 <= k < n && value(wps[..n][k]) == r;
        assert value(wps[k]) == r;
      }
      forall k | 0 <= k < |wps| ensures value(wps[k]) <= r {
        assert k < n ==> value(wps[..n][k]) <= before;
      }
    }
  }

  lemma MaximumIs(wps: seq<Waypoint>, value: Waypoint -> int)
    ensures wps == [] ==> Maximum(wps, value).None?
    ensures wps != [] ==> Maximum(wps, value).Some? && IsMaximum(wps, value, Maximum(wps, value).value)
  {
    if wps != [] {
      LargestSoFar(value(wps[0]), wps, value);
    }
  }

  /** The fastest and the highest waypoint on record, which a flight without waypoints lacks. */
  lemma DTOShowsMaxima(f: Flight)
    ensures var dto := ToDTO(f);
            && (f.waypoints == [] ==> dto.maxSpeed.None? && dto.maxAltitude.None?)
            && (f.waypoints != [] ==>
                  && dto.maxSpeed.Some? && IsMaximum(f.waypoints, (wp: Waypoint) => wp.speed, dto.maxSpeed.value)
                  && dto.maxAltitude.Some?
                  && IsMaximum(f.waypoints, (wp: Waypoint) => wp.altitude, dto.maxAltitude.value))
  {
    MaximumIs(f.waypoints, (wp: Waypoint) => wp.speed);
    MaximumIs(f.waypoints, (wp: Waypoint) => wp.altitude);
  }

  /** Everything else that is shown is what the record holds, and what is not shown is blank. */
  lemma DTOShowsRecord(f: Flight)
    ensures var dto := ToDTO(f);
            && dto.info.flightID == f.info.flightID && dto.info.callsign == f.info.callsign
            && dto.info.username == f.info.username && dto.info.sessionName == f.info.sessionName
            && dto.info.position == f.info.position && dto.info.aircraftName == f.info.aircraftName
            && dto.info.liveryName == f.info.liveryName && dto.info.vaIDs == []
            && "" == dto.info.userID == dto.info.sessionID == dto.info.aircraftID == dto.info.liveryID
            && dto.phase == f.phase && dto.takeoffTime == f.takeoffTime && dto.landingTime == f.landingTime
            && dto.origin == f.origin && dto.destination == f.destination && dto.detectedAt == f.detectedAt
            && dto.lastUpdated == f.lastUpdated && dto.lastReport == f.lastReport
            && dto.lastFlightPlanFetch == f.lastFlightPlanFetch
  {}

  /** There is an id, a live record under it, and this is what is shown of it. */
  ghost predicate ShownAs(records: map<string, Stored>, now: Time, id: string, dto: DTO) {
    id != "" && id in records && now < records[id].expiresAt && dto == ToDTO(records[id].flight)
  }

  lemma ResolvedOneMore(ids: seq<string>, n: nat, records: map<string, Stored>, now: Time)
    requires |ids| == n + 1
    ensures Resolved(ids, records, now)
         == Resolved(ids[..n], records, now)
            + (if ids[n] != "" && ids[n] in records && now < records[ids[n]].expiresAt
               then [ToDTO(records[ids[n]].flight)] else [])
  {}

  /** The reader shows what it finds live, and nothing for a blank id or a flight that is gone. */
  lemma {:induction false} ResolvedIff(ids: seq<string>, records: map<string, Stored>, now: Time, dto: DTO)
    ensures dto in Resolved(ids, records, now) <==> exists id <- ids :: ShownAs(records, now, id, dto)
  {
    if ids != [] {
      var n := |ids| - 1;
      var before := Resolved(ids[..n], records, now);
      ResolvedIff(ids[..n], records, now, dto);
      ResolvedOneMore(ids, n, records, now);
      if dto in before {
        var id :| id in ids[..n] && ShownAs(records, now, id, dto);
        assert id in ids;
      } else if dto in Resolved(ids, records, now) {
        assert ids[n] in ids && ShownAs(records, now, ids[n], dto);
      } else {
        assert forall id <- ids :: id in ids[..n] || id == ids[n];
      }
    }
  }

  /** A list that a run writes can be read for exactly five minutes. */
  lemma WrittenListLives(m: Lists, now: Time, key: string, readAt: Time)
    ensures LoadList(Joined(m, now), key, readAt)
         == if key in m && readAt - now < 300_000_000_000 then Some(Join(m[key], "|")) else None
  {}

  // ----- which flights a run tracks -----

  /** The pattern asks for something, and the callsign has it. */
  ghost predicate Wants(p: VAPattern, matches: Matcher, callsign: string) {
    (p.prefix != "" || p.suffix != "") && matches(callsign, p.prefix, p.suffix)
  }

  lemma TrackedIff(patterns: seq<VAPattern>, matches: Matcher, api: ApiFlight)
    ensures Tracked(patterns, matches)(api)
       <==> api.callsign != "" && exists p <- patterns :: Wants(p, matches, api.callsign)
  {
    var test := (p: VAPattern) => Applies(matches, api.callsign, p);
    SelectNonEmptyIff(patterns, test, (p: VAPattern) => p.vaID);
    assert forall p: VAPattern :: test(p) == Wants(p, matches, api.callsign);
  }

  /** A flight is sighted where it is listed: in a session with an id whose flights could be read, with a callsign that
      some VA wants. */
  ghost predicate SightedIn(session: Session, patterns: seq<VAPattern>, matches: Matcher, s: Sighting) {
    && session.sessionID != "" && session.flights.Some?
    && exists api <- session.flights.value ::
      && api.callsign != "" && (exists p <- patterns :: Wants(p, matches, api.callsign))
      && s == Seen(session.sessionID, session.name, api, VAsOf(patterns, matches, api.callsign))
  }

  lemma SessionSightingsIff(session: Session, patterns: seq<VAPattern>, matches: Matcher, s: Sighting)
    requires session.sessionID != "" && session.flights.Some?
    ensures s in SessionSightings(session, session.flights.value, patterns, matches)
       <==> SightedIn(session, patterns, matches, s)
  {
    var flights := session.flights.value;
    SelectedFrom(flights, Tracked(patterns, matches), SeenIn(session, patterns, matches));
    forall api <- flights
      ensures Tracked(patterns, matches)(api)
         <==> api.callsign != "" && exists p <- patterns :: Wants(p, matches, api.callsign)
    {
      TrackedIff(patterns, matches, api);
    }
  }

  lemma {:induction false} SightingsIff(sessions: seq<Session>, patterns: seq<VAPattern>, matches: Matcher, s: Sighting)
    ensures s in Sightings(sessions, patterns, matches)
       <==> exists session <- sessions :: SightedIn(session, patterns, matches, s)
  {
    if sessions != [] {
      var n := |sessions| - 1;
      SightingsIff(sessions[..n], patterns, matches, s);
      assert sessions == sessions[..n] + [sessions[n]];
      if sessions[n].sessionID != "" && sessions[n].flights.Some? {
        SessionSightingsIff(sessions[n], patterns, matches, s);
      }
    }
  }

  /** What is noted of a sighted flight; a session whose name is not cached goes by its id. */
  lemma SeenShows(sessionID: string, name: Option<string>, api: ApiFlight, vas: seq<string>)
    ensures var s := Seen(sessionID, name, api, vas);
            var info := s.obs.info;
            && s.sessionID == info.sessionID == sessionID && s.flightID == info.flightID == api.flightID
            && (name.Some? ==> info.sessionName == name.value) && (name.None? ==> info.sessionName == sessionID)
            && info.callsign == api.callsign && info.userID == api.userID && info.username == api.username
            && info.position == api.position && info.aircraftID == api.aircraftID && info.liveryID == api.liveryID
            && info.aircraftName == api.aircraftName && info.liveryName == api.liveryName && info.vaIDs == vas
            && s.obs.lastReport == api.lastReport
  {}

  /** Tracking a flight stores its record for seven days, and queues one plan request for it exactly when the record
      that was stored has a plan due. */
  lemma TallyRequests(t: Tally, s: Sighting, now: Time)
    ensures var t' := TallyAt(now)(t, s);
            && s.flightID in t'.records && t'.records == t.records[s.flightID := t'.records[s.flightID]]
            && t'.records[s.flightID].expiresAt == now + 604_800_000_000_000
            && (if ShouldFetch(t'.records[s.flightID].flight, now)
                then t'.requests == t.requests + [(s.sessionID, s.flightID)]
                else t'.requests == t.requests)
  {}
}
