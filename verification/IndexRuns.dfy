/** The VA index over many runs of the cache job, with other stores of records in between: what a reader
    gets, and from which run. */
module IndexRuns {
  import opened Wrappers
  import opened Folds
  import opened GoStrings
  import opened PipeLists
  import opened LiveFlight
  import opened FlightRuns
  import opened FlightIndex
  import opened IndexAgreement
  import FlightPlanWorker

  /** What one run works on: the sessions the API lists, the patterns in force and the time. */
  datatype Input = Input(sessions: seq<Session>, patterns: seq<VAPattern>, now: Time)

  /** What the job leaves in the cache between runs. */
  datatype State = State(records: map<string, Stored>, vaLists: Index, requests: seq<(string, string)>)

  function TallyOf(st: State, run: Input, matches: Matcher): Tally {
    Fold(Tally(st.records, map[], map[], 0, st.requests), Sightings(run.sessions, run.patterns, matches),
         TallyAt(run.now))
  }

  /** What CacheJob.Run promises. */
  function AfterRun(st: State, run: Input, matches: Matcher): State {
    var t := TallyOf(st, run, matches);
    State(t.records, st.vaLists + Joined(t.vaFlights, run.now), t.requests)
  }

  /** What happens to the cache: a run of the job, or a store of one flight's record by another writer. */
  datatype Act = Run(input: Input) | Store(flightID: string, flight: Flight, now: Time)

  function TimeOf(a: Act): Time {
    if a.Run? then a.input.now else a.now
  }

  function AfterAct(st: State, a: Act, matches: Matcher): State {
    match a
    case Run(input) => AfterRun(st, input, matches)
    case Store(flightID, flight, now) => st.(records := st.records[flightID := Stored(flight, now + FLIGHT_TTL)])
  }

  /** Processing a plan request is such a store, or changes nothing. */
  lemma PlanRequestIsStore(st: State, flightID: string, checkedAt: Time, storedAt: Time, api: FlightPlanWorker.Api,
                           matches: Matcher)
    ensures var records := FlightPlanWorker.ProcessFlightPlan(st.records, flightID, checkedAt, storedAt, api).0;
            || records == st.records
            || (flightID in st.records && api.Answered?
                && records == AfterAct(st, Store(flightID, PlanStored(st.records[flightID].flight, api.plan, storedAt),
                                                 storedAt), matches).records)
  {}

  /** Runs with other patterns and flights each time, and stores, under a clock that does not run backwards. */
  ghost predicate AreRuns(sts: seq<State>, acts: seq<Act>, matches: Matcher) {
    && |sts| == |acts| + 1
    && (forall k {:trigger acts[k]} | 0 <= k < |acts| :: sts[k + 1] == AfterAct(sts[k], acts[k], matches))
    && (forall i, j | 0 <= i < j < |acts| :: TimeOf(acts[i]) <= TimeOf(acts[j]))
  }

  /** The act is a run that matched some flight to the VA. */
  predicate Matched(st: State, a: Act, matches: Matcher, vaID: string) {
    a.Run? && vaID in TallyOf(st, a.input, matches).vaFlights
  }

  function IdsOf(st: State, run: Input, matches: Matcher, vaID: string): seq<string> {
    ListOf(TallyOf(st, run, matches).vaFlights, vaID)
  }

  /** For a VA with a pattern in force, the run matched it exactly when its pattern selects a flight, and
      listed the flights so selected. */
  lemma MatchedIff(st: State, run: Input, matches: Matcher, p: VAPattern)
    requires DistinctVAs(run.patterns) && p in run.patterns
    ensures Matched(st, Run(run), matches, p.vaID) <==> Filtered(run.sessions, run.patterns, matches, p) != []
    ensures IdsOf(st, run, matches, p.vaID) == Select(Filtered(run.sessions, run.patterns, matches, p), All(), IdOf())
  {
    var t0 := Tally(st.records, map[], map[], 0, st.requests);
    CollectedAreFiltered(t0, TallyOf(st, run, matches), run.sessions, run.patterns, matches, p, run.now);
    SelectAllKeeps(Filtered(run.sessions, run.patterns, matches, p), IdOf());
  }

  /** Act `j` is the last run among the first `k` acts that matched the VA. */
  ghost predicate LastMatch(sts: seq<State>, acts: seq<Act>, matches: Matcher, vaID: string, j: nat, k: nat)
    requires |sts| == |acts| + 1
  {
    && j < k <= |acts| && Matched(sts[j], acts[j], matches, vaID)
    && forall i {:trigger acts[i]} | j < i < k :: !Matched(sts[i], acts[i], matches, vaID)
  }

  ghost predicate ListedAs(st: State, vaID: string, list: StoredList) {
    vaID in st.vaLists && st.vaLists[vaID] == list
  }

  function ListOfRun(st: State, run: Input, matches: Matcher, vaID: string): StoredList {
    StoredList(Join(IdsOf(st, run, matches, vaID), PIPE), run.now + LIST_TTL)
  }

  /** A run that matched the VA writes its list, any other act leaves it. */
  lemma ActWritesList(st: State, a: Act, matches: Matcher, vaID: string)
    ensures var after := AfterAct(st, a, matches);
            if Matched(st, a, matches, vaID) then ListedAs(after, vaID, ListOfRun(st, a.input, matches, vaID))
            else (vaID in after.vaLists <==> vaID in st.vaLists)
                 && (vaID in st.vaLists ==> after.vaLists[vaID] == st.vaLists[vaID])
  {}

  lemma UnmatchedKeepsList(st: State, a: Act, matches: Matcher, vaID: string, list: StoredList)
    requires ListedAs(st, vaID, list) && !Matched(st, a, matches, vaID)
    ensures ListedAs(AfterAct(st, a, matches), vaID, list)
  {
    ActWritesList(st, a, matches, vaID);
  }

  lemma {:induction false} ListStays(sts: seq<State>, acts: seq<Act>, matches: Matcher, vaID: string,
                                     list: StoredList, i: nat, k: nat)
    requires AreRuns(sts, acts, matches) && i <= k <= |acts| && ListedAs(sts[i], vaID, list)
    requires forall m {:trigger acts[m]} | i <= m < k :: !Matched(sts[m], acts[m], matches, vaID)
    ensures ListedAs(sts[k], vaID, list)
  {
    if i < k {
      ListStays(sts, acts, matches, vaID, list, i, k - 1);
      assert sts[k] == AfterAct(sts[k - 1], acts[k - 1], matches);
      UnmatchedKeepsList(sts[k - 1], acts[k - 1], matches, vaID, list);
    }
  }

  lemma LastMatchWroteList(sts: seq<State>, acts: seq<Act>, matches: Matcher, vaID: string, j: nat, k: nat)
    requires AreRuns(sts, acts, matches) && LastMatch(sts, acts, matches, vaID, j, k)
    ensures ListedAs(sts[k], vaID, ListOfRun(sts[j], acts[j].input, matches, vaID))
  {
    assert sts[j + 1] == AfterAct(sts[j], acts[j], matches);
    ActWritesList(sts[j], acts[j], matches, vaID);
    ListStays(sts, acts, matches, vaID, ListOfRun(sts[j], acts[j].input, matches, vaID), j + 1, k);
  }

  // ----- the records behind the list -----

  lemma {:induction false} TallyKeepsLive(t: Tally, ss: seq<Sighting>, now: Time, id: string, time: Time)
    requires LivesUntil(t.records, id, time) && time <= now + FLIGHT_TTL
    ensures LivesUntil(Fold(t, ss, TallyAt(now)).records, id, time)
  {
    if ss != [] {
      var front, last := ss[..|ss| - 1], ss[|ss| - 1];
      TallyKeepsLive(t, front, now, id, time);
      TallyStores(Fold(t, front, TallyAt(now)), last, now);
    }
  }

  lemma {:induction false} TallyStoresEach(t: Tally, ss: seq<Sighting>, now: Time, s: Sighting)
    requires s in ss
    ensures LivesUntil(Fold(t, ss, TallyAt(now)).records, s.flightID, now + FLIGHT_TTL)
  {
    var front, last := ss[..|ss| - 1], ss[|ss| - 1];
    TallyStores(Fold(t, front, TallyAt(now)), last, now);
    if s != last {
      assert ss == front + [last];
      TallyStoresEach(t, front, now, s);
    }
  }

  lemma ActKeepsLive(st: State, a: Act, matches: Matcher, id: string, time: Time)
    requires LivesUntil(st.records, id, time) && time <= TimeOf(a) + FLIGHT_TTL
    ensures LivesUntil(AfterAct(st, a, matches).records, id, time)
  {
    if a.Run? {
      var t0 := Tally(st.records, map[], map[], 0, st.requests);
      TallyKeepsLive(t0, Sightings(a.input.sessions, a.input.patterns, matches), a.input.now, id, time);
    }
  }

  /** A flight listed by run `j` still has its record later on. */
  lemma {:induction false} ListedLives(sts: seq<State>, acts: seq<Act>, matches: Matcher, id: string, j: nat, k: nat)
    requires AreRuns(sts, acts, matches) && j < k <= |acts|
    requires LivesUntil(sts[j + 1].records, id, TimeOf(acts[j]) + FLIGHT_TTL)
    ensures LivesUntil(sts[k].records, id, TimeOf(acts[j]) + FLIGHT_TTL)
  {
    if j + 1 < k {
      ListedLives(sts, acts, matches, id, j, k - 1);
      assert sts[k] == AfterAct(sts[k - 1], acts[k - 1], matches);
      ActKeepsLive(sts[k - 1], acts[k - 1], matches, id, TimeOf(acts[j]) + FLIGHT_TTL);
    }
  }

  lemma MatchedLists(st: State, run: Input, matches: Matcher, vaID: string)
    requires DistinctVAs(run.patterns)
    ensures Matched(st, Run(run), matches, vaID) <==> IdsOf(st, run, matches, vaID) != []
  {
    SightingsListDistinctVAs(run.sessions, run.patterns, matches);
    var ss := Sightings(run.sessions, run.patterns, matches);
    VAListCollects(Tally(st.records, map[], map[], 0, st.requests), ss, run.now, vaID);
  }

  /** The ids a run lists for a VA are those of flights it has just stored. */
  lemma ListedAreStored(st: State, run: Input, matches: Matcher, vaID: string, id: string)
    requires DistinctVAs(run.patterns) && UsableIds(Sightings(run.sessions, run.patterns, matches))
    requires id in IdsOf(st, run, matches, vaID)
    ensures id != "" && '|' !in id && LivesUntil(AfterRun(st, run, matches).records, id, run.now + FLIGHT_TTL)
  {
    var t0 := Tally(st.records, map[], map[], 0, st.requests);
    var ss := Sightings(run.sessions, run.patterns, matches);
    SightingsListDistinctVAs(run.sessions, run.patterns, matches);
    VAListCollects(t0, ss, run.now, vaID);
    assert IdsOf(st, run, matches, vaID) == Select(ss, InVA(vaID), IdOf());
    SelectedFrom(ss, InVA(vaID), IdOf());
    var s :| s in ss && InVA(vaID)(s) && id == IdOf()(s);
    TallyStoresEach(t0, ss, run.now, s);
  }

  /** The DTO of a record that is there. */
  function DTOOf(records: map<string, Stored>): string -> DTO {
    (id: string) => if id in records then ToDTO(records[id].flight) else ToDTO(NoFlight())
  }

  lemma LiveIdsResolve(ids: seq<string>, records: map<string, Stored>, now: Time)
    requires forall id <- ids :: id != "" && id in records && now < records[id].expiresAt
    ensures Resolved(ids, records, now) == Select(ids, All(), DTOOf(records))
  {
    SelectAgrees(ids, (id: string) => id != "" && Load(CellOf(records, id), now).Some?,
                 (id: string) =>
                   if Load(CellOf(records, id), now).Some? then ToDTO(Load(CellOf(records, id), now).value)
                   else ToDTO(NoFlight()),
                 All(), DTOOf(records));
  }

  /** Over any runs and stores, a reader gets for each flight that the last matching run listed, in scan
      order, the flight's record as it is by now, provided that run is less than five minutes old; otherwise
      nothing. */
  lemma ReaderSeesLastMatch(sts: seq<State>, acts: seq<Act>, matches: Matcher, vaID: string, j: nat, k: nat,
                            readAt: Time)
    requires AreRuns(sts, acts, matches) && LastMatch(sts, acts, matches, vaID, j, k)
    requires var run := acts[j].input;
             DistinctVAs(run.patterns) && UsableIds(Sightings(run.sessions, run.patterns, matches))
    ensures ReadIndex(sts[k].vaLists, sts[k].records, vaID, readAt)
         == if readAt < acts[j].input.now + LIST_TTL
            then Select(IdsOf(sts[j], acts[j].input, matches, vaID), All(), DTOOf(sts[k].records)) else []
  {
    var run, st := acts[j].input, sts[k];
    var ids := IdsOf(sts[j], run, matches, vaID);
    LastMatchWroteList(sts, acts, matches, vaID, j, k);
    MatchedLists(sts[j], run, matches, vaID);
    assert sts[j + 1] == AfterAct(sts[j], acts[j], matches);
    forall id <- ids ensures id != "" && '|' !in id && LivesUntil(st.records, id, run.now + FLIGHT_TTL) {
      ListedAreStored(sts[j], run, matches, vaID, id);
      ListedLives(sts, acts, matches, id, j, k);
    }
    SplitUndoesJoin(ids);
    JoinIsNotEmpty(ids, PIPE);
    if readAt < run.now + LIST_TTL {
      LiveIdsResolve(ids, st.records, readAt);
    }
  }

  /** A VA that no run has matched is never in the index. */
  lemma {:induction false} NeverMatchedReadsNothing(sts: seq<State>, acts: seq<Act>, matches: Matcher, vaID: string,
                                                    k: nat, readAt: Time)
    requires AreRuns(sts, acts, matches) && k <= |acts| && vaID !in sts[0].vaLists
    requires forall i {:trigger acts[i]} | 0 <= i < k :: !Matched(sts[i], acts[i], matches, vaID)
    ensures vaID !in sts[k].vaLists && ReadIndex(sts[k].vaLists, sts[k].records, vaID, readAt) == []
  {
    if k > 0 {
      NeverMatchedReadsNothing(sts, acts, matches, vaID, k - 1, readAt);
      assert sts[k] == AfterAct(sts[k - 1], acts[k - 1], matches);
      ActWritesList(sts[k - 1], acts[k - 1], matches, vaID);
      assert !Matched(sts[k - 1], acts[k - 1], matches, vaID);
    }
  }
}
