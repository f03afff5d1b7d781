/** The indexes agree with the callsign filter, and their lengths add up. */
module IndexAgreement {
  import opened Wrappers
  import opened Folds
  import opened GoStrings
  import opened PipeLists
  import opened LiveFlight
  import opened FlightRuns
  import opened FlightIndex

  ghost predicate Distinct<T(!new)>(xs: seq<T>) {
    forall i, j | 0 <= i < j < |xs| :: xs[i] != xs[j]
  }

  // ----- what the aggregation collects -----

  function InVA(vaID: string): Sighting -> bool {
    (s: Sighting) => vaID in s.obs.info.vaIDs
  }

  function IdOf(): Sighting -> string {
    (s: Sighting) => s.flightID
  }

  lemma AddToOne(m: Lists, va: string, id: string, v: string)
    ensures var r := AddTo(id)(m, va);
            ListOf(r, v) == ListOf(m, v) + (if v == va then [id] else []) && (v in r <==> v in m || v == va)
  {}

  lemma LastIsNew(vas: seq<string>)
    requires vas != [] && Distinct(vas)
    ensures var front, va := vas[..|vas| - 1], vas[|vas| - 1];
            Distinct(front) && va !in front && forall v :: v in vas <==> v in front || v == va
  {
    assert vas == vas[..|vas| - 1] + [vas[|vas| - 1]];
  }

  lemma {:induction false} AddToEach(m: Lists, vas: seq<string>, id: string, v: string)
    requires Distinct(vas)
    ensures var r := Fold(m, vas, AddTo(id));
            ListOf(r, v) == ListOf(m, v) + (if v in vas then [id] else []) && (v in r <==> v in m || v in vas)
  {
    if vas != [] {
      var front, va := vas[..|vas| - 1], vas[|vas| - 1];
      LastIsNew(vas);
      AddToEach(m, front, id, v);
      AddToOne(Fold(m, front, AddTo(id)), va, id, v);
    }
  }

  /** Over a whole run, a VA's list takes the ids of exactly the sightings assigned to it, in scan order. */
  lemma {:induction false} VAListCollects(t: Tally, ss: seq<Sighting>, now: Time, v: string)
    requires forall s <- ss :: Distinct(s.obs.info.vaIDs)
    ensures var r, ids := Fold(t, ss, TallyAt(now)).vaFlights, Select(ss, InVA(v), IdOf());
            ListOf(r, v) == ListOf(t.vaFlights, v) + ids && (v in r <==> v in t.vaFlights || ids != [])
  {
    if ss != [] {
      var n := |ss| - 1;
      var before := Fold(t, ss[..n], TallyAt(now));
      assert ss[n] in ss;
      VAListCollects(t, ss[..n], now, v);
      AddToEach(before.vaFlights, ss[n].obs.info.vaIDs, ss[n].flightID, v);
      assert Fold(t, ss, TallyAt(now)).vaFlights == Fold(before.vaFlights, ss[n].obs.info.vaIDs, AddTo(ss[n].flightID));
    }
  }

  /** And a session's list those of its own sightings. */
  lemma {:induction false} SessionListCollects(t: Tally, ss: seq<Sighting>, now: Time, sessionID: string)
    ensures var r := Fold(t, ss, TallyAt(now)).sessionFlights;
            var ids := Select(ss, (s: Sighting) => s.sessionID == sessionID, IdOf());
            ListOf(r, sessionID) == ListOf(t.sessionFlights, sessionID) + ids
            && (sessionID in r <==> sessionID in t.sessionFlights || ids != [])
  {
    if ss != [] {
      var n := |ss| - 1;
      SessionListCollects(t, ss[..n], now, sessionID);
      TallyAdds(Fold(t, ss[..n], TallyAt(now)), ss[n], now);
      AddToOne(Fold(t, ss[..n], TallyAt(now)).sessionFlights, ss[n].sessionID, ss[n].flightID, sessionID);
    }
  }

  function Fresh(records: map<string, Stored>, s: Sighting, now: Time): Flight {
    Observed(Load(CellOf(records, s.flightID), now), s.obs, now)
  }

  lemma TallyStores(t: Tally, s: Sighting, now: Time)
    ensures TallyAt(now)(t, s).records == t.records[s.flightID := Stored(Fresh(t.records, s, now), now + FLIGHT_TTL)]
  {}

  /** Tallying a flight is the cache job's step of module FlightRuns on that flight's record, and leaves
      every other record alone. */
  lemma TallyIsObserveStep(t: Tally, s: Sighting, now: Time, id: string, w: World)
    requires w.cell == CellOf(t.records, id)
    ensures CellOf(TallyAt(now)(t, s).records, id)
         == if id == s.flightID then After(w, Observe(s.obs, now, now)).cell else w.cell
  {
    TallyStores(t, s, now);
  }

  lemma {:induction false} UntouchedRecord(t: Tally, ss: seq<Sighting>, now: Time, id: string)
    requires forall s <- ss :: s.flightID != id
    ensures CellOf(Fold(t, ss, TallyAt(now)).records, id) == CellOf(t.records, id)
  {
    if ss != [] {
      var n := |ss| - 1;
      assert ss[n] in ss;
      UntouchedRecord(t, ss[..n], now, id);
      TallyStores(Fold(t, ss[..n], TallyAt(now)), ss[n], now);
    }
  }

  lemma TallyCell(t: Tally, s: Sighting, now: Time, id: string)
    ensures CellOf(TallyAt(now)(t, s).records, id)
         == if id == s.flightID then Some(Stored(Fresh(t.records, s, now), now + FLIGHT_TTL)) else CellOf(t.records, id)
  {
    TallyStores(t, s, now);
  }

  lemma FreshAgrees(a: map<string, Stored>, b: map<string, Stored>, s: Sighting, now: Time)
    requires CellOf(a, s.flightID) == CellOf(b, s.flightID)
    ensures Fresh(a, s, now) == Fresh(b, s, now)
  {}

  /** When no flight is listed twice, each record is its previous version with this run's observation. */
  lemma {:induction false} RecordIsFresh(t: Tally, ss: seq<Sighting>, now: Time, k: nat)
    requires k < |ss| && forall i, j | 0 <= i < j < |ss| :: ss[i].flightID != ss[j].flightID
    ensures CellOf(Fold(t, ss, TallyAt(now)).records, ss[k].flightID)
         == Some(Stored(Fresh(t.records, ss[k], now), now + FLIGHT_TTL))
  {
    var front, last := ss[..|ss| - 1], ss[|ss| - 1];
    var before := Fold(t, front, TallyAt(now));
    TallyCell(before, last, now, ss[k].flightID);
    if k < |ss| - 1 {
      RecordIsFresh(t, front, now, k);
    } else {
      UntouchedRecord(t, front, now, last.flightID);
      FreshAgrees(before.records, t.records, last, now);
    }
  }

  // ----- the filter -----

  /** The sightings of the flights that one VA's pattern selects, straight from the API lists. */
  function Filtered(sessions: seq<Session>, patterns: seq<VAPattern>, matches: Matcher, p: VAPattern): seq<Sighting> {
    if sessions == [] then []
    else
      var before, last := Filtered(sessions[..|sessions| - 1], patterns, matches, p), sessions[|sessions| - 1];
      if last.sessionID == "" || last.flights.None? then before
      else before + SessionFiltered(last, last.flights.value, patterns, matches, p)
  }

  function SessionFiltered(s: Session, flights: seq<ApiFlight>, patterns: seq<VAPattern>, matches: Matcher,
                           p: VAPattern)
    : seq<Sighting>
  {
    Select(flights,
           (api: ApiFlight) => api.callsign != "" && Applies(matches, api.callsign, p),
           SeenIn(s, patterns, matches))
  }

  /** The patterns come from a map keyed by VA id, so no id is there twice. */
  ghost predicate DistinctVAs(patterns: seq<VAPattern>) {
    forall i, j | 0 <= i < j < |patterns| :: patterns[i].vaID != patterns[j].vaID
  }

  lemma VAsOfIff(patterns: seq<VAPattern>, matches: Matcher, callsign: string, p: VAPattern)
    requires DistinctVAs(patterns) && p in patterns
    ensures p.vaID in VAsOf(patterns, matches, callsign) <==> Applies(matches, callsign, p)
  {
    var test, id := (p: VAPattern) => Applies(matches, callsign, p), (p: VAPattern) => p.vaID;
    SelectedFrom(patterns, test, id);
    if p.vaID in VAsOf(patterns, matches, callsign) {
      var q :| q in patterns && test(q) && p.vaID == id(q);
      var i :| 0 <= i < |patterns| && patterns[i] == p;
      var j :| 0 <= j < |patterns| && patterns[j] == q;
      assert i == j;
    } else {
      assert !test(p);
    }
  }

  lemma {:induction false} VAsAreDistinct(patterns: seq<VAPattern>, matches: Matcher, callsign: string)
    requires DistinctVAs(patterns)
    ensures Distinct(VAsOf(patterns, matches, callsign))
  {
    if patterns != [] {
      var n := |patterns| - 1;
      var front := patterns[..n];
      VAsAreDistinct(front, matches, callsign);
      SelectedFrom(front, (p: VAPattern) => Applies(matches, callsign, p), (p: VAPattern) => p.vaID);
      forall va <- VAsOf(front, matches, callsign) ensures va != patterns[n].vaID {
        var q :| q in front && va == q.vaID;
        var i :| 0 <= i < n && front[i] == q;
        assert patterns[i].vaID != patterns[n].vaID;
      }
      var before, all := VAsOf(front, matches, callsign), VAsOf(patterns, matches, callsign);
      assert all == if Applies(matches, callsign, patterns[n]) then before + [patterns[n].vaID] else before;
      assert forall i | 0 <= i < |before| :: before[i] in before;
    }
  }

  lemma SessionFilterAgrees(s: Session, flights: seq<ApiFlight>, patterns: seq<VAPattern>, matches: Matcher,
                            p: VAPattern)
    requires DistinctVAs(patterns) && p in patterns
    ensures Select(SessionSightings(s, flights, patterns, matches), InVA(p.vaID), (x: Sighting) => x)
         == SessionFiltered(s, flights, patterns, matches, p)
  {
    forall api <- flights
      ensures p.vaID in VAsOf(patterns, matches, api.callsign) <==> Applies(matches, api.callsign, p)
    {
      VAsOfIff(patterns, matches, api.callsign, p);
    }
    SelectSelect(flights, Tracked(patterns, matches), SeenIn(s, patterns, matches), InVA(p.vaID), (x: Sighting) => x,
                 (api: ApiFlight) => api.callsign != "" && Applies(matches, api.callsign, p),
                 SeenIn(s, patterns, matches));
  }

  lemma {:induction false} FilterAgrees(sessions: seq<Session>, patterns: seq<VAPattern>, matches: Matcher,
                                        p: VAPattern)
    requires DistinctVAs(patterns) && p in patterns
    ensures Select(Sightings(sessions, patterns, matches), InVA(p.vaID), (x: Sighting) => x)
      == Filtered(sessions, patterns, matches, p)
  {
    if sessions != [] {
      var n := |sessions| - 1;
      var last := sessions[n];
      FilterAgrees(sessions[..n], patterns, matches, p);
      if last.sessionID != "" && last.flights.Some? {
        SessionFilterAgrees(last, last.flights.value, patterns, matches, p);
        SelectConcat(Sightings(sessions[..n], patterns, matches),
                     SessionSightings(last, last.flights.value, patterns, matches), InVA(p.vaID), (x: Sighting) => x);
      }
    }
  }

  lemma {:induction false} SightingsListDistinctVAs(sessions: seq<Session>, patterns: seq<VAPattern>, matches: Matcher)
    requires DistinctVAs(patterns)
    ensures forall s <- Sightings(sessions, patterns, matches) :: Distinct(s.obs.info.vaIDs)
  {
    if sessions != [] {
      var n := |sessions| - 1;
      var last := sessions[n];
      SightingsListDistinctVAs(sessions[..n], patterns, matches);
      if last.sessionID != "" && last.flights.Some? {
        var seen := SeenIn(last, patterns, matches);
        SelectedFrom(last.flights.value, Tracked(patterns, matches), seen);
        forall s <- SessionSightings(last, last.flights.value, patterns, matches) ensures Distinct(s.obs.info.vaIDs) {
          var api :| api in last.flights.value && s == seen(api);
          VAsAreDistinct(patterns, matches, api.callsign);
        }
      }
    }
  }

  // ----- the reader sees what the filter selects -----

  ghost predicate LivesUntil(records: map<string, Stored>, id: string, time: Time) {
    id in records && time <= records[id].expiresAt
  }

  function All<T>(): T -> bool {
    (_: T) => true
  }

  /** The reader finds a live record under the sighting's id, and shows it as `dto`. */
  ghost predicate Shows(records: map<string, Stored>, now: Time, s: Sighting, dto: DTO) {
    var f := Load(CellOf(records, s.flightID), now);
    s.flightID != "" && f.Some? && ToDTO(f.value) == dto
  }

  /** A list of live ids resolves id by id. */
  lemma {:induction false} ResolvesEach(ss: seq<Sighting>, records: map<string, Stored>, dto: Sighting -> DTO,
                                        now: Time)
    requires forall s <- ss :: Shows(records, now, s, dto(s))
    ensures Resolved(Select(ss, All(), IdOf()), records, now) == Select(ss, All(), dto)
  {
    if ss != [] {
      var n := |ss| - 1;
      assert ss[n] in ss;
      ResolvesEach(ss[..n], records, dto, now);
      var ids := Select(ss[..n], All(), IdOf());
      ResolvesOne(ids, ss[n].flightID, records, now);
    }
  }

  lemma ResolvesOne(ids: seq<string>, id: string, records: map<string, Stored>, now: Time)
    requires id != "" && Load(CellOf(records, id), now).Some?
    ensures Resolved(ids + [id], records, now)
      == Resolved(ids, records, now) + [ToDTO(Load(CellOf(records, id), now).value)]
  {
    assert (ids + [id])[..|ids|] == ids;
  }

  function DTOAt(records: map<string, Stored>, now: Time): Sighting -> DTO {
    (s: Sighting) => ToDTO(Fresh(records, s, now))
  }

  /** The ids collected for a VA are those of the sightings its pattern selects. */
  lemma CollectedAreFiltered(t0: Tally, t: Tally, sessions: seq<Session>, patterns: seq<VAPattern>, matches: Matcher,
                             p: VAPattern, now: Time)
    requires DistinctVAs(patterns) && p in patterns && t0.vaFlights == map[]
    requires t == Fold(t0, Sightings(sessions, patterns, matches), TallyAt(now))
    ensures var ids := Select(Filtered(sessions, patterns, matches, p), All(), IdOf());
            ListOf(t.vaFlights, p.vaID) == ids && (p.vaID in t.vaFlights <==> ids != [])
  {
    var ss := Sightings(sessions, patterns, matches);
    SightingsListDistinctVAs(sessions, patterns, matches);
    VAListCollects(t0, ss, now, p.vaID);
    FilterAgrees(sessions, patterns, matches, p);
    SelectSelect(ss, InVA(p.vaID), (x: Sighting) => x, All(), IdOf(), InVA(p.vaID), IdOf());
  }

  lemma {:induction false} SelectAllKeeps<X, Y>(xs: seq<X>, f: X -> Y)
    ensures |Select(xs, All(), f)| == |xs| && forall k | 0 <= k < |xs| :: Select(xs, All(), f)[k] == f(xs[k])
  {
    if xs != [] {
      SelectAllKeeps(xs[..|xs| - 1], f);
    }
  }

  ghost predicate UsableIds(ss: seq<Sighting>) {
    forall s <- ss :: s.flightID != "" && '|' !in s.flightID
  }

  /** The DTO of a flight's record as the cache has it. */
  function PresentDTO(records: map<string, Stored>): Sighting -> DTO {
    (s: Sighting) => if s.flightID in records then ToDTO(records[s.flightID].flight) else ToDTO(NoFlight())
  }

  lemma PresentResolve(selected: seq<Sighting>, records: map<string, Stored>, time: Time, readAt: Time)
    requires forall s <- selected :: s.flightID != "" && LivesUntil(records, s.flightID, time)
    requires readAt < time
    ensures Resolved(Select(selected, All(), IdOf()), records, readAt) == Select(selected, All(), PresentDTO(records))
  {
    forall s <- selected ensures Shows(records, readAt, s, PresentDTO(records)(s)) {
      assert LivesUntil(records, s.flightID, time);
    }
    ResolvesEach(selected, records, PresentDTO(records), readAt);
  }

  /** The list that a matched VA's reader resolves. */
  lemma MatchedReads(t0: Tally, t: Tally, sessions: seq<Session>, patterns: seq<VAPattern>, matches: Matcher,
                     p: VAPattern, vaLists: Index, now: Time, records: map<string, Stored>, readAt: Time)
    requires DistinctVAs(patterns) && p in patterns && t0.vaFlights == map[]
    requires t == Fold(t0, Sightings(sessions, patterns, matches), TallyAt(now))
    requires UsableIds(Sightings(sessions, patterns, matches)) && Filtered(sessions, patterns, matches, p) != []
    ensures UsableIds(Filtered(sessions, patterns, matches, p))
    ensures ReadIndex(vaLists + Joined(t.vaFlights, now), records, p.vaID, readAt)
         == if readAt < now + LIST_TTL
            then Resolved(Select(Filtered(sessions, patterns, matches, p), All(), IdOf()), records, readAt)
            else []
  {
    var ss, selected := Sightings(sessions, patterns, matches), Filtered(sessions, patterns, matches, p);
    CollectedAreFiltered(t0, t, sessions, patterns, matches, p, now);
    FilterAgrees(sessions, patterns, matches, p);
    SelectedFrom(ss, InVA(p.vaID), (x: Sighting) => x);
    IdsAreUsable(ss, selected);
    ReadJoined(vaLists, t.vaFlights, records, p.vaID, now, readAt);
  }

  /** The index agrees with the filter. For five minutes after a run over flights with usable ids, and
      whatever has been stored since, whoever asks for a VA that at least one flight matched gets the DTOs of
      exactly the flights that the VA's pattern selected, in scan order, as their records are by then; and
      nothing after that. Stores only ever lengthen a record's life, so the listed records are all there. */
  lemma IndexAgreesWithFilter(t0: Tally, t: Tally, sessions: seq<Session>, patterns: seq<VAPattern>,
                              matches: Matcher, p: VAPattern, vaLists: Index, now: Time,
                              records: map<string, Stored>, readAt: Time)
    requires DistinctVAs(patterns) && p in patterns && t0.vaFlights == map[]
    requires t == Fold(t0, Sightings(sessions, patterns, matches), TallyAt(now))
    requires UsableIds(Sightings(sessions, patterns, matches))
    requires Filtered(sessions, patterns, matches, p) != []
    requires forall s <- Filtered(sessions, patterns, matches, p) :: LivesUntil(records, s.flightID, now + FLIGHT_TTL)
    ensures ReadIndex(vaLists + Joined(t.vaFlights, now), records, p.vaID, readAt)
         == if readAt < now + LIST_TTL
            then Select(Filtered(sessions, patterns, matches, p), All(), PresentDTO(records))
            else []
  {
    MatchedReads(t0, t, sessions, patterns, matches, p, vaLists, now, records, readAt);
    if readAt < now + LIST_TTL {
      PresentResolve(Filtered(sessions, patterns, matches, p), records, now + FLIGHT_TTL, readAt);
    }
  }

  /** In particular, when no flight is listed twice and nothing has been stored since the run, as the run
      observed them. */
  lemma IndexAgreesAsObserved(t0: Tally, t: Tally, sessions: seq<Session>, patterns: seq<VAPattern>,
                              matches: Matcher, p: VAPattern, vaLists: Index, now: Time, readAt: Time)
    requires DistinctVAs(patterns) && p in patterns && t0.vaFlights == map[]
    requires t == Fold(t0, Sightings(sessions, patterns, matches), TallyAt(now))
    requires Distinct(Select(Sightings(sessions, patterns, matches), All(), IdOf()))
    requires UsableIds(Sightings(sessions, patterns, matches))
    requires Filtered(sessions, patterns, matches, p) != [] && now <= readAt
    ensures ReadIndex(vaLists + Joined(t.vaFlights, now), t.records, p.vaID, readAt)
         == if readAt < now + LIST_TTL
            then Select(Filtered(sessions, patterns, matches, p), All(), DTOAt(t0.records, now))
            else []
  {
    var ss, selected := Sightings(sessions, patterns, matches), Filtered(sessions, patterns, matches, p);
    MatchedReads(t0, t, sessions, patterns, matches, p, vaLists, now, t.records, readAt);
    FilterAgrees(sessions, patterns, matches, p);
    SelectedFrom(ss, InVA(p.vaID), (x: Sighting) => x);
    if readAt < now + LIST_TTL {
      RecordsResolve(t0, t, ss, selected, now, readAt);
    }
  }

  /** What else may have been stored: a flight plan changes what the reader shows of a flight that had none. */
  lemma PlanShows(f: Flight, plan: Plan, now: Time)
    ensures ToDTO(PlanStored(f, plan, now)) == ToDTO(f) <==> PlanStored(f, plan, now) == f
  {}

  /** A VA that no flight matched keeps what an earlier run wrote, while that lives, and then nothing. */
  lemma UnmatchedKeepsOldList(t0: Tally, t: Tally, sessions: seq<Session>, patterns: seq<VAPattern>,
                              matches: Matcher, p: VAPattern, vaLists: Index, now: Time, readAt: Time)
    requires DistinctVAs(patterns) && p in patterns && t0.vaFlights == map[]
    requires t == Fold(t0, Sightings(sessions, patterns, matches), TallyAt(now))
    requires Filtered(sessions, patterns, matches, p) == []
    ensures ReadIndex(vaLists + Joined(t.vaFlights, now), t.records, p.vaID, readAt)
         == if p.vaID in vaLists && readAt < vaLists[p.vaID].expiresAt && vaLists[p.vaID].ids != ""
            then Resolved(Split(vaLists[p.vaID].ids, '|'), t.records, readAt) else []
  {
    CollectedAreFiltered(t0, t, sessions, patterns, matches, p, now);
  }

  lemma IdsAreUsable(ss: seq<Sighting>, selected: seq<Sighting>)
    requires forall s <- selected :: s in ss
    requires UsableIds(ss)
    ensures forall id <- Select(selected, All(), IdOf()) :: id != "" && '|' !in id
    ensures |Select(selected, All(), IdOf())| == |selected|
  {
    var ids := Select(selected, All(), IdOf());
    SelectAllKeeps(selected, IdOf());
    forall id <- ids ensures id != "" && '|' !in id {
      var k :| 0 <= k < |ids| && ids[k] == id;
      assert selected[k] in ss;
    }
  }

  /** The reader resolves the list that was written, for as long as it lives. */
  lemma ReadJoined(vaLists: Index, lists: Lists, records: map<string, Stored>, vaID: string, now: Time, readAt: Time)
    requires vaID in lists && lists[vaID] != [] && forall id <- lists[vaID] :: id != "" && '|' !in id
    ensures ReadIndex(vaLists + Joined(lists, now), records, vaID, readAt)
         == if readAt < now + LIST_TTL then Resolved(lists[vaID], records, readAt) else []
  {
    SplitUndoesJoin(lists[vaID]);
    JoinIsNotEmpty(lists[vaID], PIPE);
    assert (vaLists + Joined(lists, now))[vaID] == StoredList(Join(lists[vaID], PIPE), now + LIST_TTL);
  }

  lemma RecordIsFound(t0: Tally, t: Tally, ss: seq<Sighting>, s: Sighting, now: Time, readAt: Time)
    requires t == Fold(t0, ss, TallyAt(now)) && s in ss && Distinct(Select(ss, All(), IdOf()))
    requires s.flightID != "" && now <= readAt < now + FLIGHT_TTL
    ensures Shows(t.records, readAt, s, DTOAt(t0.records, now)(s))
  {
    var ids := Select(ss, All(), IdOf());
    SelectAllKeeps(ss, IdOf());
    forall i, j | 0 <= i < j < |ss| ensures ss[i].flightID != ss[j].flightID {
      assert ids[i] != ids[j];
    }
    var k :| 0 <= k < |ss| && ss[k] == s;
    RecordIsFresh(t0, ss, now, k);
  }

  lemma RecordsResolve(t0: Tally, t: Tally, ss: seq<Sighting>, selected: seq<Sighting>, now: Time, readAt: Time)
    requires t == Fold(t0, ss, TallyAt(now)) && (forall s <- selected :: s in ss)
    requires Distinct(Select(ss, All(), IdOf())) && forall s <- ss :: s.flightID != ""
    requires now <= readAt < now + FLIGHT_TTL
    ensures Resolved(Select(selected, All(), IdOf()), t.records, readAt)
         == Select(selected, All(), DTOAt(t0.records, now))
  {
    forall s <- selected ensures Shows(t.records, readAt, s, DTOAt(t0.records, now)(s)) {
      RecordIsFound(t0, t, ss, s, now, readAt);
    }
    ResolvesEach(selected, t.records, DTOAt(t0.records, now), readAt);
  }

  // ----- the lengths add up -----

  ghost function SumLens(m: Lists): nat {
    if m == map[] then 0
    else
      var key :| key in m;
      |m[key]| + SumLens(m - {key})
  }

  lemma {:induction false} SumLensWithout(m: Lists, key: string)
    requires key in m
    ensures SumLens(m) == |m[key]| + SumLens(m - {key})
    decreases m.Keys
  {
    var k :| k in m && SumLens(m) == |m[k]| + SumLens(m - {k});
    if k != key {
      SumLensWithout(m - {k}, key);
      SumLensWithout(m - {key}, k);
      assert m - {k} - {key} == m - {key} - {k};
    }
  }

  lemma SumLensAdd(m: Lists, key: string, id: string)
    ensures SumLens(AddTo(id)(m, key)) == SumLens(m) + 1
  {
    var m' := AddTo(id)(m, key);
    SumLensWithout(m', key);
    assert m' - {key} == m - {key};
    if key in m {
      SumLensWithout(m, key);
    } else {
      assert m - {key} == m;
    }
  }

  lemma {:induction false} SumLensAddAll(m: Lists, keys: seq<string>, id: string)
    ensures SumLens(Fold(m, keys, AddTo(id))) == SumLens(m) + |keys|
  {
    if keys != [] {
      SumLensAddAll(m, keys[..|keys| - 1], id);
      SumLensAdd(Fold(m, keys[..|keys| - 1], AddTo(id)), keys[|keys| - 1], id);
    }
  }

  function Matched(ss: seq<Sighting>): nat {
    if ss == [] then 0 else Matched(ss[..|ss| - 1]) + |ss[|ss| - 1].obs.info.vaIDs|
  }

  /** Nothing is dropped or counted twice: the session lists hold one id per tracked flight, and the VA
      lists one id per match. */
  lemma {:induction false} LengthsAddUp(t: Tally, ss: seq<Sighting>, now: Time)
    ensures var r := Fold(t, ss, TallyAt(now));
            && SumLens(r.sessionFlights) - SumLens(t.sessionFlights) == |ss| == r.total - t.total
            && SumLens(r.vaFlights) - SumLens(t.vaFlights) == Matched(ss)
  {
    if ss != [] {
      var n := |ss| - 1;
      var before := Fold(t, ss[..n], TallyAt(now));
      LengthsAddUp(t, ss[..n], now);
      SumLensAdd(before.sessionFlights, ss[n].sessionID, ss[n].flightID);
      SumLensAddAll(before.vaFlights, ss[n].obs.info.vaIDs, ss[n].flightID);
      TallyAdds(before, ss[n], now);
    }
  }

  lemma TallyAdds(t: Tally, s: Sighting, now: Time)
    ensures var r := TallyAt(now)(t, s);
            && r.sessionFlights == AddTo(s.flightID)(t.sessionFlights, s.sessionID)
            && r.vaFlights == Fold(t.vaFlights, s.obs.info.vaIDs, AddTo(s.flightID)) && r.total == t.total + 1
  {}
}
