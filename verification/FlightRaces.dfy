/** The two writers of a flight's record with their loads and stores apart.

    The cache job and the flight-plan worker each load the record, change their own copy of it, and store
    the whole copy; nothing is locked, so the other writer may store in between. A copy that is loaded
    again before it was stored is lost, as in a crash.
 */
module FlightRaces {
  import opened Wrappers
  import opened LiveFlight
  import opened FlightRuns

  /** What the job holds: the record it loaded, if there was one, and the observation to fold into it.
      `version` and `seen` count the stores and the fetches there had been; `carried` is which of the
      fetches (counted from one) the loaded record knows of. */
  datatype JobCopy = JobCopy(existing: Option<Flight>, obs: Observation, loadedAt: Time,
                             version: nat, seen: nat, carried: nat)

  /** What the worker holds while it waits for the API: a record for which a fetch was due. */
  datatype WorkerCopy = WorkerCopy(flight: Flight, checkedAt: Time, version: nat)

  /** `raced` says that since the last fetch the job has stored a copy from before it. `version`, `life`,
      `fetches`, `carried` and `raced` are history. */
  datatype Race = Race(cell: Option<Stored>, clock: Time, job: Option<JobCopy>, worker: Option<WorkerCopy>,
                       version: nat, life: nat, fetches: seq<PlanFetch>, carried: nat, raced: bool)

  datatype Act =
    | JobLoad(obs: Observation, now: Time)
    | JobStore(now: Time)
    | WorkerLoad(now: Time)
    | WorkerStore(plan: Option<Plan>, now: Time)

  function JobStored(r: Race, copy: JobCopy, now: Time): Race {
    r.(cell := Store(Observed(copy.existing, copy.obs, copy.loadedAt), now), clock := now, job := None,
       version := r.version + 1, life := if copy.existing.None? then r.life + 1 else r.life,
       carried := copy.carried, raced := r.raced || copy.seen < |r.fetches|)
  }

  function WorkerStored(r: Race, copy: WorkerCopy, plan: Plan, now: Time): Race {
    r.(cell := Store(PlanStored(copy.flight, plan, now), now), clock := now, worker := None,
       version := r.version + 1, fetches := r.fetches + [PlanFetch(copy.checkedAt, now, copy.flight.phase)],
       carried := |r.fetches| + 1, raced := false)
  }

  function Loaded(r: Race, obs: Observation, now: Time): JobCopy {
    var existing := Load(r.cell, now);
    JobCopy(existing, obs, now, r.version, |r.fetches|, if existing.None? then 0 else r.carried)
  }

  function Checked(r: Race, now: Time): Option<WorkerCopy> {
    var existing := Load(r.cell, now);
    if existing.Some? && ShouldFetch(existing.value, now) then Some(WorkerCopy(existing.value, now, r.version))
    else None
  }

  /** A store without a copy in hand, or without a plan, stores nothing. */
  function AfterAct(r: Race, a: Act): Race {
    match a
    case JobLoad(obs, now) => r.(clock := now, job := Some(Loaded(r, obs, now)))
    case JobStore(now) => if r.job.Some? then JobStored(r, r.job.value, now) else r.(clock := now)
    case WorkerLoad(now) => r.(clock := now, worker := Checked(r, now))
    case WorkerStore(plan, now) =>
      if r.worker.Some? && plan.Some? then WorkerStored(r, r.worker.value, plan.value, now)
      else r.(clock := now, worker := None)
  }

  function Beginning(clock: Time): Race {
    Race(None, clock, None, None, 0, 0, [], 0, false)
  }

  ghost predicate Follows(r: Race, a: Act, q: Race) {
    r.clock <= a.now && q == AfterAct(r, a)
  }

  ghost predicate IsRaceRun(rs: seq<Race>, acts: seq<Act>) {
    && |rs| == |acts| + 1 && rs[0] == Beginning(rs[0].clock)
    && forall k {:trigger acts[k]} | 0 <= k < |acts| :: Follows(rs[k], acts[k], rs[k + 1])
  }

  // ----- what a race can forget -----

  predicate Fetching(r: Race, a: Act) {
    a.WorkerStore? && r.worker.Some? && a.plan.Some?
  }

  /** The job stores a copy that it loaded before the worker's last store. */
  predicate StaleJobStore(r: Race, a: Act) {
    a.JobStore? && r.job.Some? && r.job.value.seen < |r.fetches|
  }

  function FetchTime(fetches: seq<PlanFetch>, carried: nat): Option<Time>
    requires carried <= |fetches|
  {
    if carried == 0 then None else Some(fetches[carried - 1].storedAt)
  }

  function LastStored(fetches: seq<PlanFetch>): Time
    requires fetches != []
  {
    fetches[|fetches| - 1].storedAt
  }

  /** The job's copy knows of the fetch `carried` says, which is the last one if nothing has raced. */
  ghost predicate CopyKnows(r: Race, copy: JobCopy) {
    && copy.carried <= copy.seen <= |r.fetches| && copy.loadedAt <= r.clock
    && (if copy.existing.None? then copy.carried == 0
        else copy.existing.value.lastFlightPlanFetch == FetchTime(r.fetches, copy.carried))
    && (copy.seen == |r.fetches| ==> copy.carried <= r.carried)
    && (copy.seen == |r.fetches| && !r.raced && r.fetches != [] ==>
          || copy.carried == |r.fetches|
          || (copy.carried == 0 && r.clock >= LastStored(r.fetches) + FLIGHT_TTL))
  }

  ghost predicate RecordKnows(r: Race) {
    && r.carried <= |r.fetches| && (r.raced ==> r.carried < |r.fetches|)
    && (r.cell.None? ==> r.fetches == [])
    && (r.cell.Some? ==> r.cell.value.flight.lastFlightPlanFetch == FetchTime(r.fetches, r.carried))
    && (r.fetches != [] ==> LastStored(r.fetches) <= r.clock)
    && (!r.raced && r.fetches != [] ==>
          || (r.carried == |r.fetches| && r.cell.value.expiresAt >= LastStored(r.fetches) + FLIGHT_TTL)
          || (r.carried in {0, |r.fetches|} && r.clock >= LastStored(r.fetches) + FLIGHT_TTL))
  }

  ghost predicate RaceInv(r: Race) {
    RecordKnows(r) && (r.job.Some? ==> CopyKnows(r, r.job.value))
  }

  lemma ObservedKeepsFetch(existing: Option<Flight>, obs: Observation, now: Time)
    ensures Observed(existing, obs, now).lastFlightPlanFetch
         == if existing.Some? then existing.value.lastFlightPlanFetch else None
  {}

  lemma ActKeepsRaceInv(r: Race, a: Act)
    requires RaceInv(r) && r.clock <= a.now
    ensures RaceInv(AfterAct(r, a))
  {
    if a.JobStore? && r.job.Some? {
      var copy := r.job.value;
      ObservedKeepsFetch(copy.existing, copy.obs, copy.loadedAt);
    }
  }

  /** In any interleaving, the record and the job's copy know which fetches they know of. */
  lemma {:induction false} RaceReachable(rs: seq<Race>, acts: seq<Act>, k: nat)
    requires IsRaceRun(rs, acts) && k < |rs|
    ensures RaceInv(rs[k])
  {
    if k > 0 {
      RaceReachable(rs, acts, k - 1);
      assert Follows(rs[k - 1], acts[k - 1], rs[k]);
      ActKeepsRaceInv(rs[k - 1], acts[k - 1]);
    }
  }

  /** A stale store by the job at step `i`, and no fetch stored since. */
  ghost predicate RacedAt(rs: seq<Race>, acts: seq<Act>, i: nat, k: nat)
    requires |rs| == |acts| + 1 && k < |rs|
  {
    i < k && StaleJobStore(rs[i], acts[i]) && forall j {:trigger acts[j]} | i < j < k :: !Fetching(rs[j], acts[j])
  }

  lemma {:induction false} RacedSince(rs: seq<Race>, acts: seq<Act>, k: nat) returns (i: nat)
    requires IsRaceRun(rs, acts) && k < |rs| && rs[k].raced
    ensures RacedAt(rs, acts, i, k)
    decreases k
  {
    assert k > 0 ==> Follows(rs[k - 1], acts[k - 1], rs[k]);
    if StaleJobStore(rs[k - 1], acts[k - 1]) {
      i := k - 1;
    } else {
      i := RacedSince(rs, acts, k - 1);
    }
  }

  lemma {:induction false} RacedStays(rs: seq<Race>, acts: seq<Act>, i: nat, k: nat)
    requires IsRaceRun(rs, acts) && k < |rs| && RacedAt(rs, acts, i, k)
    ensures rs[k].raced
    decreases k
  {
    assert Follows(rs[k - 1], acts[k - 1], rs[k]);
    if i < k - 1 {
      RacedStays(rs, acts, i, k - 1);
      assert !Fetching(rs[k - 1], acts[k - 1]);
    }
  }

  lemma RacedIff(rs: seq<Race>, acts: seq<Act>, k: nat)
    requires IsRaceRun(rs, acts) && k < |rs|
    ensures rs[k].raced <==> exists i: nat :: RacedAt(rs, acts, i, k)
  {
    if rs[k].raced {
      var i := RacedSince(rs, acts, k);
    }
    if i: nat :| RacedAt(rs, acts, i, k) {
      RacedStays(rs, acts, i, k);
    }
  }

  lemma EarlyIff(r: Race, now: Time)
    requires RaceInv(r) && r.clock <= now && Load(r.cell, now).Some? && r.fetches != []
    requires now - LastStored(r.fetches) < FetchInterval(r.cell.value.flight.phase)
    ensures ShouldFetch(r.cell.value.flight, now)
       <==> && r.raced
            && (r.carried == 0
                || now - r.fetches[r.carried - 1].storedAt >= FetchInterval(r.cell.value.flight.phase))
  {}

  /** When the next fetch comes too early, exactly: within the interval after a stored plan another fetch
      is let through if and only if the job has since stored a copy from before that plan, and the fetch
      that the copy knew of, if any, is itself old enough. */
  lemma NextFetchEarlyIff(rs: seq<Race>, acts: seq<Act>, k: nat, now: Time)
    requires IsRaceRun(rs, acts) && k < |rs|
    requires rs[k].clock <= now && Load(rs[k].cell, now).Some? && rs[k].fetches != []
    requires now - LastStored(rs[k].fetches) < FetchInterval(rs[k].cell.value.flight.phase)
    ensures rs[k].carried <= |rs[k].fetches|
    ensures rs[k].cell.value.flight.lastFlightPlanFetch == FetchTime(rs[k].fetches, rs[k].carried)
    ensures Checked(rs[k], now).Some?
       <==> && (exists i: nat :: RacedAt(rs, acts, i, k))
            && (rs[k].carried == 0
                || now - rs[k].fetches[rs[k].carried - 1].storedAt >= FetchInterval(rs[k].cell.value.flight.phase))
  {
    RaceReachable(rs, acts, k);
    RacedIff(rs, acts, k);
    EarlyIff(rs[k], now);
  }

  /** The copy that the job stores at step `i`, before step `k`, from before the last fetch, is one it loaded at
      step `l`. */
  ghost predicate RacedFrom(rs: seq<Race>, acts: seq<Act>, l: nat, i: nat, k: nat)
    requires |rs| == |acts| + 1 && k < |rs|
  {
    && RacedAt(rs, acts, i, k) && l < i && acts[l].JobLoad?
    && forall m {:trigger acts[m]} | l < m < i :: acts[m].WorkerLoad? || acts[m].WorkerStore?
  }

  lemma {:induction false} JobHolds(rs: seq<Race>, acts: seq<Act>, l: nat, i: nat)
    requires IsRaceRun(rs, acts) && l < i < |rs| && acts[l].JobLoad?
    requires forall m {:trigger acts[m]} | l < m < i :: acts[m].WorkerLoad? || acts[m].WorkerStore?
    ensures rs[i].job == Some(Loaded(rs[l], acts[l].obs, acts[l].now))
  {
    assert Follows(rs[i - 1], acts[i - 1], rs[i]);
    if l < i - 1 {
      JobHolds(rs, acts, l, i - 1);
    }
  }

  /** The record and whatever copy the job takes of it know of the same fetch, and the record is not about to
      expire. */
  ghost predicate StillCarries(r: Race, fetches: seq<PlanFetch>, carried: nat)
    requires fetches != []
  {
    && r.fetches == fetches && r.carried == carried
    && r.cell.Some? && r.cell.value.expiresAt >= LastStored(fetches) + FLIGHT_TTL
    && (r.job.Some? ==> r.job.value.carried == carried && r.job.value.seen == |fetches|)
  }

  lemma ActStillCarries(r: Race, a: Act, fetches: seq<PlanFetch>, carried: nat)
    requires fetches != [] && StillCarries(r, fetches, carried) && r.clock <= a.now && !Fetching(r, a)
    requires LastStored(fetches) <= r.clock && a.now < LastStored(fetches) + FLIGHT_TTL
    ensures StillCarries(AfterAct(r, a), fetches, carried)
  {}

  lemma {:induction false} RacedCarries(rs: seq<Race>, acts: seq<Act>, i: nat, k: nat)
    requires IsRaceRun(rs, acts) && k < |rs| && RacedAt(rs, acts, i, k) && rs[i].fetches != []
    requires rs[k].clock < LastStored(rs[i].fetches) + FLIGHT_TTL
    ensures StillCarries(rs[k], rs[i].fetches, rs[i].job.value.carried)
    decreases k
  {
    RaceReachable(rs, acts, k - 1);
    assert Follows(rs[k - 1], acts[k - 1], rs[k]);
    if i < k - 1 {
      assert !Fetching(rs[k - 1], acts[k - 1]);
      RacedCarries(rs, acts, i, k - 1);
      ActStillCarries(rs[k - 1], acts[k - 1], rs[i].fetches, rs[i].job.value.carried);
    }
  }

  /** Which load decides, from the acts alone. After a race, the record knows of what the job's copy knew when
      it was loaded; so if nothing had raced by then, the next request within the interval is let through if
      and only if no plan had been stored before that load, or the last of them is itself old enough. */
  lemma RacingLoadDecides(rs: seq<Race>, acts: seq<Act>, l: nat, i: nat, k: nat, now: Time)
    requires IsRaceRun(rs, acts) && k < |rs| && RacedFrom(rs, acts, l, i, k)
    requires forall h: nat :: !RacedAt(rs, acts, h, l)
    requires rs[k].clock <= now && Load(rs[k].cell, now).Some? && rs[k].fetches != []
    requires now - LastStored(rs[k].fetches) < FetchInterval(rs[k].cell.value.flight.phase)
    ensures Checked(rs[k], now).Some?
       <==> rs[l].fetches == []
            || now - LastStored(rs[l].fetches) >= FetchInterval(rs[k].cell.value.flight.phase)
  {
    NextFetchEarlyIff(rs, acts, k, now);
    SameFetches(rs, acts, i, k);
    JobHolds(rs, acts, l, i);
    RacedCarries(rs, acts, i, k);
    RaceReachable(rs, acts, l);
    RacedIff(rs, acts, l);
    assert Follows(rs[l], acts[l], rs[l + 1]) && !rs[l].raced;
    LoadKnows(rs[l], acts[l].obs, acts[l].now);
    FetchesGrow(rs, acts, l, l + 1);
    FetchesGrow(rs, acts, l + 1, k);
    var c := rs[k].carried;
    assert c == Loaded(rs[l], acts[l].obs, acts[l].now).carried;
    if c == 0 && rs[l].fetches != [] {
      assert now >= acts[l].now >= LastStored(rs[l].fetches) + FLIGHT_TTL;
    } else if c > 0 {
      assert rs[k].fetches[c - 1] == rs[l].fetches[c - 1];
    }
  }

  lemma LoadKnows(r: Race, obs: Observation, now: Time)
    requires RaceInv(r) && !r.raced && r.clock <= now
    ensures var carried := Loaded(r, obs, now).carried;
            if r.fetches == [] then carried == 0
            else carried == |r.fetches| || (carried == 0 && now >= LastStored(r.fetches) + FLIGHT_TTL)
  {}

  lemma {:induction false} SameFetches(rs: seq<Race>, acts: seq<Act>, i: nat, k: nat)
    requires IsRaceRun(rs, acts) && k < |rs| && RacedAt(rs, acts, i, k)
    ensures rs[k].fetches == rs[i].fetches
    decreases k
  {
    assert Follows(rs[k - 1], acts[k - 1], rs[k]);
    if i < k - 1 {
      assert !Fetching(rs[k - 1], acts[k - 1]);
      SameFetches(rs, acts, i, k - 1);
    }
  }

  lemma {:induction false} FetchesGrow(rs: seq<Race>, acts: seq<Act>, l: nat, k: nat)
    requires IsRaceRun(rs, acts) && l <= k < |rs|
    ensures rs[l].fetches <= rs[k].fetches && rs[l].clock <= rs[k].clock
  {
    if l < k {
      FetchesGrow(rs, acts, l, k - 1);
      assert Follows(rs[k - 1], acts[k - 1], rs[k]);
    }
  }

  // ----- without stale stores by the job, fetches keep their distance -----

  ghost predicate Spaced(r: Race) {
    && RaceInv(r) && FetchesSpaced(r.fetches)
    && (r.worker.Some? ==> r.worker.value.checkedAt <= r.clock)
    && (r.worker.Some? && r.fetches != [] ==>
          r.worker.value.checkedAt - LastStored(r.fetches) >= FetchInterval(r.worker.value.flight.phase))
  }

  lemma LoadKeepsSpaced(r: Race, now: Time)
    requires Spaced(r) && !r.raced && r.clock <= now
    ensures Spaced(AfterAct(r, WorkerLoad(now)))
  {
    ActKeepsRaceInv(r, WorkerLoad(now));
    if Checked(r, now).Some? && r.fetches != []
       && now - LastStored(r.fetches) < FetchInterval(r.cell.value.flight.phase) {
      EarlyIff(r, now);
    }
  }

  /** Whatever the worker overwrites, two fetches are never too close in a run in which the job stores no
      copy from before the last fetch. */
  lemma {:induction false} SpacedUnlessRaced(rs: seq<Race>, acts: seq<Act>, k: nat)
    requires IsRaceRun(rs, acts) && k < |rs|
    requires forall i {:trigger acts[i]} | 0 <= i < k :: !StaleJobStore(rs[i], acts[i])
    ensures Spaced(rs[k]) && !rs[k].raced
  {
    if k > 0 {
      SpacedUnlessRaced(rs, acts, k - 1);
      assert Follows(rs[k - 1], acts[k - 1], rs[k]);
      ActKeepsRaceInv(rs[k - 1], acts[k - 1]);
      if acts[k - 1].WorkerLoad? {
        LoadKeepsSpaced(rs[k - 1], acts[k - 1].now);
      }
    }
  }

  // ----- without any stale store, the run is one of atomic steps -----

  /** Nothing is stored that was loaded before the last store. */
  predicate FreshStore(r: Race, a: Act) {
    && (a.JobStore? && r.job.Some? ==> r.job.value.version == r.version)
    && (Fetching(r, a) ==> r.worker.value.version == r.version)
  }

  /** The atomic step that a store completes. */
  function Completed(r: Race, a: Act): Option<Step> {
    match a
    case JobStore(now) =>
      if r.job.Some? then Some(Observe(r.job.value.obs, r.job.value.loadedAt, now)) else None
    case WorkerStore(plan, now) =>
      if Fetching(r, a) then Some(Request(r.worker.value.checkedAt, now, plan)) else None
    case _ => None
  }

  ghost predicate Simulates(r: Race, w: World) {
    && r.cell == w.cell && r.life == w.life && r.fetches == w.fetches && w.clock <= r.clock
    && (r.job.Some? ==>
          var copy := r.job.value;
          copy.version <= r.version && copy.loadedAt <= r.clock
          && (copy.version == r.version ==> w.clock <= copy.loadedAt && copy.existing == Load(r.cell, copy.loadedAt)))
    && (r.worker.Some? ==>
          var copy := r.worker.value;
          copy.version <= r.version && copy.checkedAt <= r.clock && ShouldFetch(copy.flight, copy.checkedAt)
          && (copy.version == r.version
            ==> w.clock <= copy.checkedAt && Load(r.cell, copy.checkedAt) == Some(copy.flight)))
  }

  lemma ActSimulates(r: Race, a: Act, w: World)
    requires Simulates(r, w) && r.clock <= a.now && FreshStore(r, a)
    ensures match Completed(r, a)
            case None => Simulates(AfterAct(r, a), w)
            case Some(s) => Timely(w, s) && Simulates(AfterAct(r, a), After(w, s))
  {}

  /** Position `at[k]` of the atomic run is where the split run is at `k`. */
  ghost predicate Linearized(rs: seq<Race>, ws: seq<World>, steps: seq<Step>, at: seq<nat>) {
    && |at| == |rs| && IsRun(ws, steps)
    && (forall k | 0 <= k < |rs| :: at[k] < |ws| && Simulates(rs[k], ws[at[k]]))
    && (forall i, j | 0 <= i <= j < |rs| :: at[i] <= at[j])
  }

  lemma LinearizeOne(rs: seq<Race>, ws: seq<World>, steps: seq<Step>, at: seq<nat>, q: Race, s: Step)
    requires rs != [] && Linearized(rs, ws, steps, at) && at[|rs| - 1] == |ws| - 1
    requires Timely(ws[|ws| - 1], s) && Simulates(q, After(ws[|ws| - 1], s))
    ensures Linearized(rs + [q], ws + [After(ws[|ws| - 1], s)], steps + [s], at + [|ws|])
  {
    var ws', steps' := ws + [After(ws[|ws| - 1], s)], steps + [s];
    forall k {:trigger steps'[k]} | 0 <= k < |steps'| ensures Next(ws'[k], steps'[k], ws'[k + 1]) {
      if k < |steps| {
        assert Next(ws[k], steps[k], ws[k + 1]);
      }
    }
  }

  /** Races that overwrite nothing are harmless: such a run is, store by store, a run of atomic steps, so
      all that module FlightRuns proves holds of it. */
  lemma {:induction false} FreshRunIsAtomic(rs: seq<Race>, acts: seq<Act>)
    returns (ws: seq<World>, steps: seq<Step>, at: seq<nat>)
    requires IsRaceRun(rs, acts)
    requires forall k {:trigger acts[k]} | 0 <= k < |acts| :: FreshStore(rs[k], acts[k])
    ensures Linearized(rs, ws, steps, at) && at[|rs| - 1] == |ws| - 1
    decreases |acts|
  {
    var n := |acts|;
    if n == 0 {
      ws, steps, at := [FlightRuns.Start(rs[0].clock)], [], [0];
    } else {
      var a := acts[n - 1];
      assert Follows(rs[n - 1], a, rs[n]) && FreshStore(rs[n - 1], a);
      forall k {:trigger acts[..n - 1][k]} | 0 <= k < n - 1
        ensures Follows(rs[..n][k], acts[..n - 1][k], rs[..n][k + 1]) && FreshStore(rs[..n][k], acts[..n - 1][k])
      {
        assert Follows(rs[k], acts[k], rs[k + 1]) && FreshStore(rs[k], acts[k]);
      }
      ws, steps, at := FreshRunIsAtomic(rs[..n], acts[..n - 1]);
      ActSimulates(rs[n - 1], a, ws[|ws| - 1]);
      assert rs == rs[..n] + [rs[n]];
      match Completed(rs[n - 1], a)
      case None => at := at + [|ws| - 1];
      case Some(s) =>
        LinearizeOne(rs[..n], ws, steps, at, rs[n], s);
        at, steps, ws := at + [|ws|], steps + [s], ws + [After(ws[|ws| - 1], s)];
    }
  }

  function View(r: Race): World {
    World(r.cell, r.clock, r.life, [], r.fetches)
  }

  /** What that means for the record: lifecycle, history and spacing hold throughout, and within one life
      what is set once stays set. */
  lemma FreshRunKeeps(rs: seq<Race>, acts: seq<Act>, i: nat, j: nat)
    requires IsRaceRun(rs, acts) && i <= j < |rs|
    requires forall k {:trigger acts[k]} | 0 <= k < |acts| :: FreshStore(rs[k], acts[k])
    ensures Later(View(rs[i]), View(rs[j])) && FetchesSpaced(rs[j].fetches)
    ensures rs[j].cell.Some? ==>
      Lifecycle(rs[j].cell.value.flight, rs[j].clock) && exists log :: HistoryIsTail(rs[j].cell.value.flight, log)
  {
    var ws, steps, at := FreshRunIsAtomic(rs, acts);
    assert at[i] <= at[j];
    SetOnce(ws, steps, at[i], at[j]);
    FlightRuns.Reachable(ws, steps, at[j]);
    assert rs[j].cell.Some? ==> HistoryIsTail(rs[j].cell.value.flight, ws[at[j]].log);
  }

  // ----- the runs that go wrong -----

  lemma RunOn(rs: seq<Race>, acts: seq<Act>, a: Act) returns (rs': seq<Race>, acts': seq<Act>)
    requires IsRaceRun(rs, acts) && rs[|rs| - 1].clock <= a.now
    ensures rs' == rs + [AfterAct(rs[|rs| - 1], a)] && acts' == acts + [a] && IsRaceRun(rs', acts')
  {
    rs', acts' := rs + [AfterAct(rs[|rs| - 1], a)], acts + [a];
    forall k {:trigger acts'[k]} | 0 <= k < |acts'| ensures Follows(rs'[k], acts'[k], rs'[k + 1]) {
      if k < |acts| {
        assert Follows(rs[k], acts[k], rs[k + 1]);
      }
    }
  }

  lemma Beginnings(t: Time) returns (rs: seq<Race>, acts: seq<Act>)
    ensures rs == [Beginning(t)] && acts == [] && IsRaceRun(rs, acts)
  {
    rs, acts := [Beginning(t)], [];
  }

  /** The job observes a flight, storing at once. */
  lemma Track(rs: seq<Race>, acts: seq<Act>, obs: Observation, now: Time) returns (rs': seq<Race>, acts': seq<Act>)
    requires IsRaceRun(rs, acts) && rs[|rs| - 1].clock <= now
    ensures IsRaceRun(rs', acts') && rs <= rs' && acts <= acts'
    ensures var r := rs[|rs| - 1]; rs'[|rs'| - 1] == JobStored(r.(clock := now), Loaded(r, obs, now), now)
  {
    rs', acts' := RunOn(rs, acts, JobLoad(obs, now));
    rs', acts' := RunOn(rs', acts', JobStore(now));
  }

  /** Two fetches at any distance, none included, in one run: the job loads the record before the first
      plan is stored and stores its copy after, and the next request is let through. */
  lemma RacingStoreForgetsFetch(obs: Observation, plan: Plan, t: Time, gap: int) returns (rs: seq<Race>, acts: seq<Act>)
    requires 0 <= gap < FLIGHT_TTL
    ensures IsRaceRun(rs, acts)
    ensures var fetches := rs[|rs| - 1].fetches;
            |fetches| == 2 && fetches[1].checkedAt - fetches[0].storedAt == gap
  {
    rs, acts := Beginnings(t);
    rs, acts := Track(rs, acts, obs, t);
    var r := rs[|rs| - 1];
    ObservedKeepsFetch(None, obs, t);
    NeverFetchedIsDue(r.cell.value.flight, t);
    rs, acts := RunOn(rs, acts, JobLoad(obs, t));
    rs, acts := RunOn(rs, acts, WorkerLoad(t));
    rs, acts := RunOn(rs, acts, WorkerStore(Some(plan), t));
    rs, acts := RunOn(rs, acts, JobStore(t));
    var q := rs[|rs| - 1];
    ObservedKeepsFetch(Some(r.cell.value.flight), obs, t);
    NeverFetchedIsDue(q.cell.value.flight, t + gap);
    rs, acts := RunOn(rs, acts, WorkerLoad(t + gap));
    rs, acts := RunOn(rs, acts, WorkerStore(Some(plan), t + gap));
  }

  lemma NeverFetchedIsDue(f: Flight, now: Time)
    requires f.lastFlightPlanFetch.None?
    ensures ShouldFetch(f, now)
  {}

  lemma {:induction false} HeldCopyStays(rs: seq<Race>, acts: seq<Act>, i: nat, j: nat)
    requires IsRaceRun(rs, acts) && i < j < |rs| && acts[i].WorkerLoad? && rs[i + 1].worker.Some?
    requires forall k {:trigger acts[k]} | i < k < j :: acts[k].JobLoad? || acts[k].JobStore?
    ensures rs[j].worker == Some(WorkerCopy(rs[i].cell.value.flight, acts[i].now, rs[i].version))
  {
    assert Follows(rs[i], acts[i], rs[i + 1]);
    if i + 1 < j {
      HeldCopyStays(rs, acts, i, j - 1);
      assert Follows(rs[j - 1], acts[j - 1], rs[j]);
    }
  }

  /** The other direction. The worker holds its copy across an API call; what the job stores meanwhile is
      undone, whatever it is: the record goes back to what the worker loaded, but for the route. */
  lemma WorkerStoreRestores(rs: seq<Race>, acts: seq<Act>, i: nat, j: nat)
    requires IsRaceRun(rs, acts) && i < j < |acts| && acts[i].WorkerLoad? && rs[i + 1].worker.Some?
    requires forall k {:trigger acts[k]} | i < k < j :: acts[k].JobLoad? || acts[k].JobStore?
    requires acts[j].WorkerStore? && acts[j].plan.Some?
    ensures rs[i].cell.Some? && rs[j + 1].cell.Some?
    ensures rs[j + 1].cell.value.flight == PlanStored(rs[i].cell.value.flight, acts[j].plan.value, acts[j].now)
  {
    HeldCopyStays(rs, acts, i, j);
    assert Follows(rs[i], acts[i], rs[i + 1]) && Follows(rs[j], acts[j], rs[j + 1]);
  }

  predicate Parked(obs: Observation) {
    obs.info.position.speed < 50
  }

  predicate TakingOff(obs: Observation) {
    obs.info.position.speed > 80
  }

  lemma FirstSeenParked(obs: Observation, now: Time)
    requires Parked(obs)
    ensures var f := Observed(None, obs, now);
            f.phase == OnGround && f.takeoffTime.None? && f.lastFlightPlanFetch.None? && |f.waypoints| == 1
            && f.lastUpdatedWaypoint == Some(now)
  {}

  lemma TakeoffIsStamped(f: Flight, obs: Observation, now: Time)
    requires TakingOff(obs) && f.phase == OnGround && f.takeoffTime.None?
    requires |f.waypoints| == 1 && f.lastUpdatedWaypoint.Some? && now - f.lastUpdatedWaypoint.value >= WAYPOINT_GAP
    ensures var g := Observed(Some(f), obs, now); g.takeoffTime == Some(now) && |g.waypoints| == 2
  {}

  /** So takeoff is not set once and waypoints are lost: one record, its life never interrupted, has a
      takeoff at one time and two waypoints, then neither, then a takeoff at another time. */
  lemma WorkerStoreUndoesTakeoff(parked: Observation, off: Observation, plan: Plan, t: Time, t1: Time, t2: Time)
    returns (rs: seq<Race>, acts: seq<Act>, i: nat, j: nat)
    requires Parked(parked) && TakingOff(off) && t + WAYPOINT_GAP <= t1 < t2 < t1 + FLIGHT_TTL && t1 < t + FLIGHT_TTL
    ensures IsRaceRun(rs, acts) && i < j < |rs| - 1
    ensures rs[i].cell.Some? && rs[j].cell.Some? && rs[|rs| - 1].cell.Some?
    ensures rs[i].life == rs[j].life == rs[|rs| - 1].life
    ensures rs[i].cell.value.flight.takeoffTime == Some(t1) && |rs[i].cell.value.flight.waypoints| == 2
    ensures rs[j].cell.value.flight.takeoffTime == None && |rs[j].cell.value.flight.waypoints| == 1
    ensures rs[|rs| - 1].cell.value.flight.takeoffTime == Some(t2)
  {
    rs, acts := Beginnings(t);
    rs, acts := Track(rs, acts, parked, t);
    var f := rs[|rs| - 1].cell.value.flight;
    FirstSeenParked(parked, t);
    NeverFetchedIsDue(f, t);
    rs, acts := RunOn(rs, acts, WorkerLoad(t));
    TakeoffIsStamped(f, off, t1);
    rs, acts := Track(rs, acts, off, t1);
    i := |rs| - 1;
    rs, acts := RunOn(rs, acts, WorkerStore(Some(plan), t1));
    j := |rs| - 1;
    TakeoffIsStamped(rs[j].cell.value.flight, off, t2);
    rs, acts := Track(rs, acts, off, t2);
  }
}
