/** The event service over the tables of EventTables. */
module EventService {
  import opened Wrappers
  import opened GoStrings
  import opened EventTables

  datatype Error = InvalidRequest | NotFound | RivalActive | ConstraintViolated

  datatype Outcome = Done | Rejected(error: Error)

  datatype LegRequest = LegRequest(origin: string, destination: string)

  datatype CreateRequest = CreateRequest(name: string, status: string, startDate: Option<int>, endDate: Option<int>,
                                         legs: seq<LegRequest>)

  datatype UpdateRequest = UpdateRequest(name: Option<string>, status: Option<string>, startDate: Option<int>,
                                         endDate: Option<int>)

  predicate ValidStatus(status: string) {
    status == "draft" || status == "active" || status == "completed" || status == "cancelled"
  }

  /** validateEvent; validateCreateRequest makes the same checks on the event it is about to build. */
  predicate ValidEvent(e: Event) {
    && TrimSpace(e.name) != "" && |TrimSpace(e.name)| <= 255
    && ValidStatus(e.status)
    && (e.startDate.Some? && e.endDate.Some? ==> e.startDate.value < e.endDate.value)
  }

  function Code(s: string): string {
    ToUpper(TrimSpace(s))
  }

  predicate ValidLeg(leg: LegRequest) {
    2 <= |Code(leg.origin)| <= 4 && 2 <= |Code(leg.destination)| <= 4
  }

  function RouteOf(leg: LegRequest): (string, string) {
    (Code(leg.origin), Code(leg.destination))
  }

  function RoutesOf(legs: seq<LegRequest>): (r: seq<(string, string)>)
    ensures |r| == |legs|
  {
    seq(|legs|, k requires 0 <= k < |legs| => RouteOf(legs[k]))
  }

  function EventOf(vaID: string, req: CreateRequest): Event {
    Event(vaID, TrimSpace(req.name), if req.status == "" then "draft" else req.status, req.startDate, req.endDate)
  }

  predicate AcceptableCreate(vaID: string, req: CreateRequest) {
    ValidEvent(EventOf(vaID, req)) && forall leg <- req.legs :: ValidLeg(leg)
  }

  function OrKeep<T>(update: Option<T>, current: T): T {
    if update.Some? then update.value else current
  }

  function Edited(e: Event, req: UpdateRequest): Event {
    Event(e.vaID, if req.name.Some? then TrimSpace(req.name.value) else e.name, OrKeep(req.status, e.status),
          if req.startDate.Some? then req.startDate else e.startDate,
          if req.endDate.Some? then req.endDate else e.endDate)
  }

  ghost predicate NextNumber(db: Tables, eventID: string, n: int) {
    && n >= 1
    && (forall l | l in LegsOf(db, eventID) :: db.legs[l].number < n)
    && (n > 1 ==> exists l :: l in LegsOf(db, eventID) && db.legs[l].number == n - 1)
  }

  predicate RouteTaken(db: Tables, eventID: string, route: (string, string)) {
    exists l | l in db.legs :: db.legs[l].eventID == eventID && Route(db.legs[l]) == route
  }

  /** Tables that satisfy the rule and the constraints still do. */
  ghost predicate KeepsRule(before: Tables, after: Tables) {
    AtMostOne(before) && Consistent(before) ==> AtMostOne(after) && Consistent(after)
  }

  lemma LetThroughKeepsRule(db: Tables, c: Call)
    requires LetThrough(db, c) && Guarded(db, c)
    ensures KeepsRule(db, Effect(db, c))
  {
    if AtMostOne(db) && Consistent(db) {
      CallKeepsRule(db, c);
    }
  }

  /** From tables that satisfy both, the constraints still hold, and the rule exactly when the call is guarded. */
  ghost predicate KeepsRuleIff(before: Tables, after: Tables, c: Call) {
    AtMostOne(before) && Consistent(before) ==> Consistent(after) && (AtMostOne(after) <==> Guarded(before, c))
  }

  lemma LetThroughKeepsRuleIff(db: Tables, c: Call)
    requires LetThrough(db, c)
    ensures KeepsRuleIff(db, Effect(db, c), c)
  {
    if AtMostOne(db) && Consistent(db) {
      CallKeepsRule(db, c);
    }
  }

  lemma CreationKeepsRule(db: Tables, id: string, e: Event, legIDs: seq<string>, routes: seq<(string, string)>)
    requires LetThrough(db, Created(id, e, legIDs, routes))
    ensures KeepsRule(db, WithEvent(db, id, e, NumberedLegs(id, legIDs, routes)))
  {
    LetThroughKeepsRule(db, Created(id, e, legIDs, routes));
  }

  lemma NewLegIsConsistent(db: Tables, l: string, leg: Leg)
    requires Consistent(db) && l !in db.legs && leg.eventID in db.events
    requires NextNumber(db, leg.eventID, leg.number) && !RouteTaken(db, leg.eventID, Route(leg))
    ensures Consistent(WithLeg(db, l, leg))
  {
    var after := WithLeg(db, l, leg);
    forall m | m in db.legs && db.legs[m].eventID == leg.eventID
      ensures db.legs[m].number != leg.number && Route(db.legs[m]) != Route(leg)
    {
      assert m in LegsOf(db, leg.eventID);
    }
  }

  class Service {
    var db: Tables

    constructor ()
      ensures db == Tables(map[], map[]) && AtMostOne(db) && Consistent(db)
    {
      db := Tables(map[], map[]);
    }

    /** The active events of a VA; the order among equal start dates is the database's. */
    method GetActiveByVA(vaID: string) returns (ids: seq<string>)
      ensures forall id :: id in ids <==>
        id in db.events && db.events[id].vaID == vaID && db.events[id].status == "active"
    {
      ids := [];
      var rest := db.events.Keys;
      while rest != {}
        invariant rest <= db.events.Keys
        invariant forall id :: id in ids <==>
          id in db.events && id !in rest && db.events[id].vaID == vaID && db.events[id].status == "active"
        decreases rest
      {
        var id :| id in rest;
        rest := rest - {id};
        if db.events[id].vaID == vaID && db.events[id].status == "active" {
          ids := ids + [id];
        }
      }
    }

    method GetActiveMultiLegEvent(vaID: string) returns (found: Option<string>)
      ensures found.Some? ==> ActiveMultiLeg(db, found.value) && db.events[found.value].vaID == vaID
      ensures found.None? ==> forall id | ActiveMultiLeg(db, id) :: db.events[id].vaID != vaID
    {
      var ids := GetActiveByVA(vaID);
      for k := 0 to |ids|
        invariant forall id <- ids[..k] :: |LegsOf(db, id)| <= 1
      {
        assert ids[k] in ids;
        if |LegsOf(db, ids[k])| > 1 {
          return Some(ids[k]);
        }
      }
      assert ids[..|ids|] == ids;
      found := None;
    }

    /** Repository.Create: one transaction, which a repeated route aborts. */
    method Insert(newID: string, e: Event, legIDs: seq<string>, routes: seq<(string, string)>) returns (r: Outcome)
      requires newID !in db.events && |legIDs| == |routes|
      requires (forall i, j | 0 <= i < j < |legIDs| :: legIDs[i] != legIDs[j]) && forall l <- legIDs :: l !in db.legs
      modifies this
      ensures r == if HasDuplicate(routes) then Rejected(ConstraintViolated) else Done
      ensures db == if r.Done? then WithEvent(old(db), newID, e, NumberedLegs(newID, legIDs, routes)) else old(db)
      ensures !(e.status == "active" && |legIDs| > 1 && exists other :: Rival(old(db), e.vaID, newID, other))
        ==> KeepsRule(old(db), db)
    {
      if HasDuplicate(routes) {
        return Rejected(ConstraintViolated);
      }
      if !(e.status == "active" && |legIDs| > 1 && exists other :: Rival(db, e.vaID, newID, other)) {
        CreationKeepsRule(db, newID, e, legIDs, routes);
      }
      db := WithEvent(db, newID, e, NumberedLegs(newID, legIDs, routes));
      r := Done;
    }

    /** CreateEvent, with the ids the database generates. Exactly the acceptable requests that leave no two
        active multi-leg events and no repeated route go through; any other changes nothing. */
    method CreateEvent(newID: string, legIDs: seq<string>, vaID: string, req: CreateRequest) returns (r: Outcome)
      requires newID !in db.events && |legIDs| == |req.legs|
      requires (forall i, j | 0 <= i < j < |legIDs| :: legIDs[i] != legIDs[j]) && forall l <- legIDs :: l !in db.legs
      modifies this
      ensures r == Rejected(InvalidRequest) <==> !AcceptableCreate(vaID, req)
      ensures r == Rejected(RivalActive) <==>
        && AcceptableCreate(vaID, req) && EventOf(vaID, req).status == "active" && |req.legs| > 1
        && exists other :: Rival(old(db), vaID, newID, other)
      ensures r.Done? ==>
        db == WithEvent(old(db), newID, EventOf(vaID, req), NumberedLegs(newID, legIDs, RoutesOf(req.legs)))
      ensures r.Rejected? ==> db == old(db) && r.error != NotFound
      ensures r == Rejected(ConstraintViolated) ==> HasDuplicate(RoutesOf(req.legs))
      ensures r.Done? ==> !HasDuplicate(RoutesOf(req.legs))
      ensures KeepsRule(old(db), db)
    {
      if !AcceptableCreate(vaID, req) {
        return Rejected(InvalidRequest);
      }
      var e := EventOf(vaID, req);
      if e.status == "active" && |req.legs| > 1 {
        var existing := GetActiveMultiLegEvent(vaID);
        if existing.Some? {
          assert Rival(db, vaID, newID, existing.value);
          return Rejected(RivalActive);
        }
      }
      r := Insert(newID, e, legIDs, RoutesOf(req.legs));
    }

    /** UpdateEvent checks the event it is about to save, but not against its VA's other events; the rule
        survives exactly when the missing check would have passed. */
    method UpdateEvent(id: string, req: UpdateRequest) returns (r: Outcome)
      modifies this
      ensures r == (if id !in old(db).events then Rejected(NotFound)
                    else if !ValidEvent(Edited(old(db).events[id], req)) then Rejected(InvalidRequest)
                    else Done)
      ensures db == if r.Done? then WithRow(old(db), id, Edited(old(db).events[id], req)) else old(db)
      ensures r.Done? ==> KeepsRuleIff(old(db), db, Saved(id, Edited(old(db).events[id], req)))
    {
      if id !in db.events {
        return Rejected(NotFound);
      }
      var e := db.events[id];
      if req.name.Some? {
        e := e.(name := TrimSpace(req.name.value));
      }
      if req.status.Some? {
        e := e.(status := req.status.value);
      }
      if req.startDate.Some? {
        e := e.(startDate := req.startDate);
      }
      if req.endDate.Some? {
        e := e.(endDate := req.endDate);
      }
      if !ValidEvent(e) {
        return Rejected(InvalidRequest);
      }
      LetThroughKeepsRuleIff(db, Saved(id, e));
      db := WithRow(db, id, e);
      r := Done;
    }

    /** UpdateEventStatus: while the rule holds, a status change is refused exactly for an unknown status, an
        unknown event, or the activation of a multi-leg event next to a rival. */
    method UpdateEventStatus(id: string, status: string) returns (r: Outcome)
      modifies this
      ensures r == Rejected(InvalidRequest) <==> !ValidStatus(status)
      ensures r == Rejected(NotFound) <==> ValidStatus(status) && id !in old(db).events
      ensures AtMostOne(old(db)) && ValidStatus(status) && id in old(db).events ==>
        (r == Rejected(RivalActive) <==>
          && status == "active" && |LegsOf(old(db), id)| > 1
          && exists other :: Rival(old(db), old(db).events[id].vaID, id, other))
      ensures r.Rejected? ==> db == old(db) && r.error != ConstraintViolated
      ensures r.Done? ==> db == WithRow(old(db), id, old(db).events[id].(status := status))
      ensures KeepsRule(old(db), db)
    {
      if !ValidStatus(status) {
        return Rejected(InvalidRequest);
      }
      if id !in db.events {
        return Rejected(NotFound);
      }
      var e := db.events[id];
      if status == "active" && |LegsOf(db, id)| > 1 {
        var existing := GetActiveMultiLegEvent(e.vaID);
        if existing.Some? && existing.value != id {
          assert Rival(db, e.vaID, id, existing.value);
          return Rejected(RivalActive);
        }
      }
      if AtMostOne(db) {
        LetThroughKeepsRule(db, StatusSet(id, status));
      }
      db := WithRow(db, id, e.(status := status));
      r := Done;
    }

    method DeleteEvent(id: string) returns (r: Outcome)
      modifies this
      ensures r == if id in old(db).events then Done else Rejected(NotFound)
      ensures db == if r.Done? then WithoutEvent(old(db), id) else old(db)
      ensures KeepsRule(old(db), db)
    {
      if id !in db.events {
        return Rejected(NotFound);
      }
      LetThroughKeepsRule(db, EventDeleted(id));
      db := WithoutEvent(db, id);
      r := Done;
    }

    /** GetNextLegNumber: one more than the largest number in use, or one. */
    method GetNextLegNumber(eventID: string) returns (n: int)
      requires forall l | l in db.legs :: db.legs[l].number > 0
      ensures NextNumber(db, eventID, n)
    {
      n := 1;
      var rest := LegsOf(db, eventID);
      ghost var all := rest;
      while rest != {}
        invariant rest <= all && n >= 1
        invariant forall l | l in all && l !in rest :: db.legs[l].number < n
        invariant n > 1 ==> exists l :: l in all && db.legs[l].number == n - 1
        decreases rest
      {
        var l :| l in rest;
        rest := rest - {l};
        if db.legs[l].number >= n {
          n := db.legs[l].number + 1;
        }
      }
    }

    /** CreateEventLeg checks the request and takes the next number, but not the rule, which survives exactly
        when the missing check would have passed. The unique-number
        constraint can never fire; the foreign key and the unique-route constraint can. */
    method CreateEventLeg(newLegID: string, eventID: string, req: LegRequest) returns (r: Outcome, leg: Leg)
      requires newLegID !in db.legs && Consistent(db)
      modifies this
      ensures r == Rejected(InvalidRequest) <==> !ValidLeg(req)
      ensures r == Rejected(ConstraintViolated)
        <==> ValidLeg(req) && (eventID !in old(db).events || RouteTaken(old(db), eventID, RouteOf(req)))
      ensures r.Rejected? ==> db == old(db) && (r.error == InvalidRequest || r.error == ConstraintViolated)
      ensures r.Done? ==> db == WithLeg(old(db), newLegID, leg) && NextNumber(old(db), eventID, leg.number)
                          && leg.eventID == eventID && Route(leg) == RouteOf(req)
      ensures Consistent(db)
      ensures r.Done? ==> KeepsRuleIff(old(db), db, LegAdded(newLegID, leg))
    {
      leg := Leg(eventID, 0, Code(req.origin), Code(req.destination));
      if !ValidLeg(req) {
        return Rejected(InvalidRequest), leg;
      }
      var n := GetNextLegNumber(eventID);
      leg := leg.(number := n);
      if eventID !in db.events || RouteTaken(db, eventID, RouteOf(req)) {
        return Rejected(ConstraintViolated), leg;
      }
      NewLegIsConsistent(db, newLegID, leg);
      LetThroughKeepsRuleIff(db, LegAdded(newLegID, leg));
      db := WithLeg(db, newLegID, leg);
      r := Done;
    }

    method DeleteEventLeg(legID: string) returns (r: Outcome)
      modifies this
      ensures r == if legID in old(db).legs then Done else Rejected(NotFound)
      ensures db == if r.Done? then WithoutLeg(old(db), legID) else old(db)
      ensures KeepsRule(old(db), db)
    {
      if legID !in db.legs {
        return Rejected(NotFound);
      }
      LetThroughKeepsRule(db, LegDeleted(legID));
      db := WithoutLeg(db, legID);
      r := Done;
    }
  }

  predicate HasDuplicate<T(==)>(xs: seq<T>) {
    exists i, j :: 0 <= i < j < |xs| && xs[i] == xs[j]
  }

  // ----- what the requests ask for -----

  /** The status is one of the four, and an event that has both dates begins before it ends. */
  ghost predicate ValidState(status: string, startDate: Option<int>, endDate: Option<int>) {
    && status in {"draft", "active", "completed", "cancelled"}
    && (startDate.None? || endDate.None? || startDate.value < endDate.value)
  }

  lemma ValidEventIff(e: Event)
    ensures ValidEvent(e)
       <==> !AllSpaces(e.name) && |TrimSpace(e.name)| <= 255 && ValidState(e.status, e.startDate, e.endDate)
  {
    TrimSpaceEmptyIff(e.name);
  }

  lemma ValidLegIff(leg: LegRequest)
    ensures ValidLeg(leg) <==> 2 <= |TrimSpace(leg.origin)| <= 4 && 2 <= |TrimSpace(leg.destination)| <= 4
  {}

  lemma SameName(name: string, trimmed: string)
    requires trimmed == TrimSpace(name)
    ensures TrimSpace(trimmed) == trimmed && (AllSpaces(trimmed) <==> AllSpaces(name))
  {
    TrimIsTrimmed(name);
    TrimmedStays(trimmed);
    TrimSpaceEmptyIff(name);
    TrimSpaceEmptyIff(trimmed);
  }

  /** Which creation requests are acceptable, field by field; an empty status is a draft. */
  lemma AcceptableIff(vaID: string, req: CreateRequest)
    ensures AcceptableCreate(vaID, req)
       <==> (&& !AllSpaces(req.name) && |TrimSpace(req.name)| <= 255
             && ValidState(if req.status == "" then "draft" else req.status, req.startDate, req.endDate)
             && forall leg <- req.legs ::
               2 <= |TrimSpace(leg.origin)| <= 4 && 2 <= |TrimSpace(leg.destination)| <= 4)
  {
    SameName(req.name, EventOf(vaID, req).name);
    ValidEventIff(EventOf(vaID, req));
    forall leg <- req.legs
      ensures ValidLeg(leg) <==> 2 <= |TrimSpace(leg.origin)| <= 4 && 2 <= |TrimSpace(leg.destination)| <= 4
    {
      ValidLegIff(leg);
    }
  }

  /** The event that a request describes. */
  lemma CreatedEventShows(vaID: string, req: CreateRequest)
    ensures var e := EventOf(vaID, req);
            && e.vaID == vaID && e.name == TrimSpace(req.name)
            && e.startDate == req.startDate && e.endDate == req.endDate
            && (req.status != "" ==> e.status == req.status) && (req.status == "" ==> e.status == "draft")
  {}

  /** The legs of a request, one by one: from the first airport to the second, in capitals without the spaces around. */
  lemma RoutesShow(legs: seq<LegRequest>, k: nat)
    requires k < |legs|
    ensures Capitals(TrimSpace(legs[k].origin), RoutesOf(legs)[k].0)
    ensures Capitals(TrimSpace(legs[k].destination), RoutesOf(legs)[k].1)
  {}

  /** An edit replaces what it gives and keeps the rest; an event stays with its VA. */
  lemma EditedShows(e: Event, req: UpdateRequest)
    ensures var g := Edited(e, req);
            && g.vaID == e.vaID
            && (match req.name case Some(name) => g.name == TrimSpace(name) case None => g.name == e.name)
            && (match req.status case Some(status) => g.status == status case None => g.status == e.status)
            && (match req.startDate case Some(t) => g.startDate == Some(t) case None => g.startDate == e.startDate)
            && (match req.endDate case Some(t) => g.endDate == Some(t) case None => g.endDate == e.endDate)
  {}

  // ----- whole runs -----

  /** The calls that change events or their number of legs: what each does once it is not refused. Saved is
      UpdateEvent, LegAdded is CreateEventLeg. */
  datatype Call =
    | Created(id: string, e: Event, legIDs: seq<string>, routes: seq<(string, string)>)
    | StatusSet(id: string, status: string)
    | EventDeleted(id: string)
    | LegDeleted(legID: string)
    | Saved(id: string, e: Event)
    | LegAdded(legID: string, leg: Leg)

  /** When the service lets a call through, as its methods promise. */
  ghost predicate LetThrough(db: Tables, c: Call) {
    match c
    case Created(id, e, legIDs, routes) =>
      && id !in db.events && |legIDs| == |routes| && !HasDuplicate(routes)
      && (forall i, j | 0 <= i < j < |legIDs| :: legIDs[i] != legIDs[j]) && (forall l <- legIDs :: l !in db.legs)
      && !(e.status == "active" && |legIDs| > 1 && exists other :: Rival(db, e.vaID, id, other))
    case StatusSet(id, status) =>
      && id in db.events
      && !(status == "active" && |LegsOf(db, id)| > 1 && exists other :: Rival(db, db.events[id].vaID, id, other))
    case EventDeleted(id) => id in db.events
    case LegDeleted(legID) => legID in db.legs
    case Saved(id, e) => id in db.events && e.vaID == db.events[id].vaID
    case LegAdded(legID, leg) =>
      && legID !in db.legs && leg.eventID in db.events
      && NextNumber(db, leg.eventID, leg.number) && !RouteTaken(db, leg.eventID, Route(leg))
  }

  /** What UpdateEvent and CreateEventLeg would have to check, and do not. */
  ghost predicate Guarded(db: Tables, c: Call) {
    match c
    case Saved(id, e) =>
      !(e.status == "active" && |LegsOf(db, id)| > 1 && exists other :: Rival(db, e.vaID, id, other))
    case LegAdded(_, leg) =>
      leg.eventID in db.events ==>
        var e := db.events[leg.eventID];
        !(e.status == "active" && |LegsOf(db, leg.eventID)| == 1
          && exists other :: Rival(db, e.vaID, leg.eventID, other))
    case _ => true
  }

  function Effect(db: Tables, c: Call): Tables
    requires c.Created? ==> |c.legIDs| == |c.routes|
    requires c.StatusSet? ==> c.id in db.events
  {
    match c
    case Created(id, e, legIDs, routes) => WithEvent(db, id, e, NumberedLegs(id, legIDs, routes))
    case StatusSet(id, status) => WithRow(db, id, db.events[id].(status := status))
    case EventDeleted(id) => WithoutEvent(db, id)
    case LegDeleted(legID) => WithoutLeg(db, legID)
    case Saved(id, e) => WithRow(db, id, e)
    case LegAdded(legID, leg) => WithLeg(db, legID, leg)
  }

  lemma NumberedLegsDiffer(id: string, ids: seq<string>, routes: seq<(string, string)>, i: nat, j: nat)
    requires |ids| == |routes| && i < j < |ids| && !HasDuplicate(routes)
    requires forall i, j | 0 <= i < j < |ids| :: ids[i] != ids[j]
    ensures var legs := NumberedLegs(id, ids, routes);
            && ids[i] in legs && ids[j] in legs
            && 0 < legs[ids[i]].number < legs[ids[j]].number && Route(legs[ids[i]]) != Route(legs[ids[j]])
  {
    NumberedLegAt(id, ids, routes, i);
    NumberedLegAt(id, ids, routes, j);
    assert routes[i] != routes[j];
  }

  /** The legs of one event, all different. */
  ghost predicate OneEventsLegs(legs: map<string, Leg>, id: string) {
    && (forall l | l in legs :: legs[l].eventID == id && legs[l].number > 0)
    && (forall l, m | l in legs && m in legs && l != m ::
          legs[l].number != legs[m].number && Route(legs[l]) != Route(legs[m]))
  }

  lemma NumberedLegsPositive(id: string, ids: seq<string>, routes: seq<(string, string)>)
    requires |ids| == |routes| && forall i, j | 0 <= i < j < |ids| :: ids[i] != ids[j]
    ensures forall l <- NumberedLegs(id, ids, routes).Values :: l.number > 0
  {}

  lemma NumberedLegsAreOneEvents(id: string, ids: seq<string>, routes: seq<(string, string)>)
    requires |ids| == |routes| && !HasDuplicate(routes) && forall i, j | 0 <= i < j < |ids| :: ids[i] != ids[j]
    ensures OneEventsLegs(NumberedLegs(id, ids, routes), id)
  {
    var legs := NumberedLegs(id, ids, routes);
    NumberedLegKeys(id, ids, routes);
    NumberedLegsPositive(id, ids, routes);
    forall l, m | l in legs && m in legs && l != m
      ensures legs[l].number != legs[m].number && Route(legs[l]) != Route(legs[m])
    {
      var i :| 0 <= i < |ids| && ids[i] == l;
      var j :| 0 <= j < |ids| && ids[j] == m;
      if i < j {
        NumberedLegsDiffer(id, ids, routes, i, j);
      } else {
        NumberedLegsDiffer(id, ids, routes, j, i);
      }
    }
  }

  lemma MergeIsConsistent(db: Tables, id: string, e: Event, legs: map<string, Leg>)
    requires Consistent(db) && id !in db.events && OneEventsLegs(legs, id)
    requires forall l | l in legs :: l !in db.legs
    ensures Consistent(WithEvent(db, id, e, legs))
  {}

  lemma CreatedIsConsistent(db: Tables, id: string, e: Event, legIDs: seq<string>, routes: seq<(string, string)>)
    requires Consistent(db) && LetThrough(db, Created(id, e, legIDs, routes))
    ensures Consistent(WithEvent(db, id, e, NumberedLegs(id, legIDs, routes)))
  {
    NumberedLegKeys(id, legIDs, routes);
    NumberedLegsAreOneEvents(id, legIDs, routes);
    MergeIsConsistent(db, id, e, NumberedLegs(id, legIDs, routes));
  }

  /** A call that is let through keeps the constraints, and the rule exactly when it is guarded. */
  lemma CallKeepsRule(db: Tables, c: Call)
    requires AtMostOne(db) && Consistent(db) && LetThrough(db, c)
    ensures Consistent(Effect(db, c)) && (AtMostOne(Effect(db, c)) <==> Guarded(db, c))
  {
    match c
    case Created(id, e, legIDs, routes) =>
      CreateKeepsRuleIff(db, id, e, legIDs, routes);
      CreatedIsConsistent(db, id, e, legIDs, routes);
    case StatusSet(id, status) => SaveKeepsRuleIff(db, id, db.events[id].(status := status));
    case EventDeleted(id) => RemovingKeepsRule(db, Effect(db, c));
    case LegDeleted(legID) => RemovingKeepsRule(db, Effect(db, c));
    case Saved(id, e) => SaveKeepsRuleIff(db, id, e);
    case LegAdded(legID, leg) =>
      LegKeepsRuleIff(db, legID, leg, db.events[leg.eventID]);
      NewLegIsConsistent(db, legID, leg);
  }

  /** A run of calls that the service lets through, from tables that satisfy rule and constraints. */
  ghost predicate IsRun(dbs: seq<Tables>, calls: seq<Call>) {
    && |dbs| == |calls| + 1 && AtMostOne(dbs[0]) && Consistent(dbs[0])
    && forall i {:trigger calls[i]} | 0 <= i < |calls| ::
      LetThrough(dbs[i], calls[i]) && dbs[i + 1] == Effect(dbs[i], calls[i])
  }

  /** At most one active multi-leg event per VA, over every run. Creations, status changes and deletions
      need no guard. */
  lemma {:induction false} RunsKeepRule(dbs: seq<Tables>, calls: seq<Call>, k: nat)
    requires IsRun(dbs, calls) && k < |dbs|
    requires forall i {:trigger calls[i]} | 0 <= i < k :: Guarded(dbs[i], calls[i])
    ensures AtMostOne(dbs[k]) && Consistent(dbs[k])
  {
    if k > 0 {
      RunsKeepRule(dbs, calls, k - 1);
      assert LetThrough(dbs[k - 1], calls[k - 1]) && dbs[k] == Effect(dbs[k - 1], calls[k - 1]);
      assert Guarded(dbs[k - 1], calls[k - 1]);
      CallKeepsRule(dbs[k - 1], calls[k - 1]);
    }
  }

  lemma {:induction false} RuleMeansGuarded(dbs: seq<Tables>, calls: seq<Call>, k: nat)
    requires IsRun(dbs, calls) && k < |dbs| && forall i | 0 <= i < |dbs| :: AtMostOne(dbs[i])
    ensures Consistent(dbs[k]) && forall i {:trigger calls[i]} | 0 <= i < k :: Guarded(dbs[i], calls[i])
  {
    if k > 0 {
      RuleMeansGuarded(dbs, calls, k - 1);
      assert LetThrough(dbs[k - 1], calls[k - 1]) && dbs[k] == Effect(dbs[k - 1], calls[k - 1]);
      CallKeepsRule(dbs[k - 1], calls[k - 1]);
    }
  }

  /** The exact condition over runs of all six calls: the rule holds throughout if and only if no UpdateEvent
      leaves a multi-leg event active beside a rival, and no CreateEventLeg makes one. */
  lemma RunKeepsRuleIff(dbs: seq<Tables>, calls: seq<Call>)
    requires IsRun(dbs, calls)
    ensures (forall k | 0 <= k < |dbs| :: AtMostOne(dbs[k]))
       <==> (forall i {:trigger calls[i]} | 0 <= i < |calls| :: Guarded(dbs[i], calls[i]))
  {
    if forall i {:trigger calls[i]} | 0 <= i < |calls| :: Guarded(dbs[i], calls[i]) {
      forall k | 0 <= k < |dbs| ensures AtMostOne(dbs[k]) {
        RunsKeepRule(dbs, calls, k);
      }
    } else if forall k | 0 <= k < |dbs| :: AtMostOne(dbs[k]) {
      RuleMeansGuarded(dbs, calls, |calls|);
    }
  }

  // ----- how the unguarded calls break the rule -----

  ghost predicate Sound(db: Tables) {
    AtMostOne(db) && Consistent(db)
  }

  /** A run that has come to sound tables. */
  ghost predicate SoundRun(dbs: seq<Tables>, calls: seq<Call>) {
    IsRun(dbs, calls) && Sound(dbs[|calls|])
  }

  lemma RunOn(dbs: seq<Tables>, calls: seq<Call>, c: Call) returns (dbs': seq<Tables>, calls': seq<Call>)
    requires IsRun(dbs, calls) && LetThrough(dbs[|calls|], c)
    ensures dbs' == dbs + [Effect(dbs[|calls|], c)] && calls' == calls + [c] && IsRun(dbs', calls')
  {
    dbs', calls' := dbs + [Effect(dbs[|calls|], c)], calls + [c];
    forall i {:trigger calls'[i]} | 0 <= i < |calls'|
      ensures LetThrough(dbs'[i], calls'[i]) && dbs'[i + 1] == Effect(dbs'[i], calls'[i])
    {
      if i < |calls| {
        assert LetThrough(dbs[i], calls[i]) && dbs[i + 1] == Effect(dbs[i], calls[i]);
      }
    }
  }

  /** The event is there with `n` legs, numbered up to `n`, on routes among `taken`. */
  ghost predicate HasLegs(db: Tables, id: string, e: Event, n: nat, taken: set<(string, string)>) {
    && id in db.events && db.events[id] == e && |LegsOf(db, id)| == n && NextNumber(db, id, n + 1)
    && (forall l | l in LegsOf(db, id) :: Route(db.legs[l]) in taken)
  }

  /** Creating an event without legs is always let through. */
  lemma LeglessCreation(db: Tables, id: string, e: Event)
    requires Sound(db) && id !in db.events
    ensures LetThrough(db, Created(id, e, [], []))
    ensures var after := Effect(db, Created(id, e, [], []));
            Sound(after) && HasLegs(after, id, e, 0, {}) && after.events == db.events[id := e] && after.legs == db.legs
  {
    CallKeepsRule(db, Created(id, e, [], []));
    var after := Effect(db, Created(id, e, [], []));
    assert after.legs == db.legs;
    assert LegsOf(after, id) == {};
  }

  function NewLeg(id: string, n: nat, x: (string, string)): Leg {
    Leg(id, n + 1, x.0, x.1)
  }

  lemma NewRouteIsFree(db: Tables, id: string, e: Event, n: nat, taken: set<(string, string)>, x: (string, string))
    requires HasLegs(db, id, e, n, taken) && x !in taken
    ensures !RouteTaken(db, id, x)
  {
    forall l | l in db.legs && db.legs[l].eventID == id ensures Route(db.legs[l]) != x {
      assert l in LegsOf(db, id);
    }
  }

  lemma OneMoreLeg(db: Tables, id: string, e: Event, n: nat, taken: set<(string, string)>, l: string,
                   x: (string, string))
    requires HasLegs(db, id, e, n, taken) && l !in db.legs
    ensures HasLegs(WithLeg(db, l, NewLeg(id, n, x)), id, e, n + 1, taken + {x})
    ensures forall y | y != id :: LegsOf(WithLeg(db, l, NewLeg(id, n, x)), y) == LegsOf(db, y)
  {
    var after := WithLeg(db, l, NewLeg(id, n, x));
    assert LegsOf(after, id) == LegsOf(db, id) + {l};
    assert after.legs[l].number == n + 1;
    forall y | y != id ensures LegsOf(after, y) == LegsOf(db, y) {}
  }

  /** Adding a leg on a new route is let through, and keeps the rule when it is guarded, which it is unless an
      active event gets its second leg and is not alone. */
  lemma LegStep(dbs: seq<Tables>, calls: seq<Call>, id: string, e: Event, n: nat, taken: set<(string, string)>,
                l: string, x: (string, string))
    returns (dbs': seq<Tables>, calls': seq<Call>)
    requires SoundRun(dbs, calls) && HasLegs(dbs[|calls|], id, e, n, taken)
    requires l !in dbs[|calls|].legs && x !in taken
    ensures IsRun(dbs', calls') && dbs <= dbs' && calls' == calls + [LegAdded(l, NewLeg(id, n, x))]
    ensures dbs'[|calls'|] == WithLeg(dbs[|calls|], l, NewLeg(id, n, x))
    ensures Consistent(dbs'[|calls'|])
    ensures AtMostOne(dbs'[|calls'|]) <==> Guarded(dbs[|calls|], LegAdded(l, NewLeg(id, n, x)))
  {
    NewRouteIsFree(dbs[|calls|], id, e, n, taken, x);
    CallKeepsRule(dbs[|calls|], LegAdded(l, NewLeg(id, n, x)));
    dbs', calls' := RunOn(dbs, calls, LegAdded(l, NewLeg(id, n, x)));
  }

  /** The same with the guard: the event is not active, has no leg yet, or is the only event. */
  lemma GuardedLegStep(dbs: seq<Tables>, calls: seq<Call>, id: string, e: Event, n: nat, taken: set<(string, string)>,
                       l: string, x: (string, string))
    returns (dbs': seq<Tables>, calls': seq<Call>)
    requires SoundRun(dbs, calls) && HasLegs(dbs[|calls|], id, e, n, taken)
    requires l !in dbs[|calls|].legs && x !in taken
    requires e.status != "active" || n == 0 || dbs[|calls|].events.Keys == {id}
    ensures SoundRun(dbs', calls') && dbs <= dbs' && calls' == calls + [LegAdded(l, NewLeg(id, n, x))]
    ensures dbs'[|calls'|] == WithLeg(dbs[|calls|], l, NewLeg(id, n, x))
    ensures HasLegs(dbs'[|calls'|], id, e, n + 1, taken + {x})
    ensures forall y | y != id :: LegsOf(dbs'[|calls'|], y) == LegsOf(dbs[|calls|], y)
  {
    dbs', calls' := LegStep(dbs, calls, id, e, n, taken, l, x);
    OneMoreLeg(dbs[|calls|], id, e, n, taken, l, x);
  }

  lemma LeglessStep(dbs: seq<Tables>, calls: seq<Call>, id: string, e: Event)
    returns (dbs': seq<Tables>, calls': seq<Call>)
    requires SoundRun(dbs, calls) && id !in dbs[|calls|].events
    ensures SoundRun(dbs', calls') && dbs <= dbs' && calls' == calls + [Created(id, e, [], [])]
    ensures var db, after := dbs[|calls|], dbs'[|calls'|];
            HasLegs(after, id, e, 0, {}) && after.events == db.events[id := e] && after.legs == db.legs
  {
    LeglessCreation(dbs[|calls|], id, e);
    dbs', calls' := RunOn(dbs, calls, Created(id, e, [], []));
  }

  lemma NothingYet() returns (dbs: seq<Tables>, calls: seq<Call>)
    ensures dbs == [Tables(map[], map[])] && calls == [] && SoundRun(dbs, calls)
  {
    dbs, calls := [Tables(map[], map[])], [];
  }

  /** Creating an event and giving it two legs, from empty tables: an active multi-leg event. */
  lemma FirstEvent(a: string, ea: Event, p: string, q: string, x: (string, string), y: (string, string))
    returns (dbs: seq<Tables>, calls: seq<Call>)
    requires ea.status == "active" && p != q && x != y
    ensures SoundRun(dbs, calls) && dbs[0] == Tables(map[], map[])
    ensures calls == [Created(a, ea, [], []), LegAdded(p, NewLeg(a, 0, x)), LegAdded(q, NewLeg(a, 1, y))]
    ensures ActiveMultiLeg(dbs[3], a) && dbs[3].events == map[a := ea] && dbs[3].legs.Keys == {p, q}
  {
    dbs, calls := NothingYet();
    dbs, calls := LeglessStep(dbs, calls, a, ea);
    dbs, calls := GuardedLegStep(dbs, calls, a, ea, 0, {}, p, x);
    dbs, calls := GuardedLegStep(dbs, calls, a, ea, 1, {} + {x}, q, y);
  }

  /** A second event of the same VA beside it, with one leg. */
  lemma SecondEvent(dbs: seq<Tables>, calls: seq<Call>, a: string, b: string, eb: Event, l: string, x: (string, string))
    returns (dbs': seq<Tables>, calls': seq<Call>)
    requires SoundRun(dbs, calls) && ActiveMultiLeg(dbs[|calls|], a) && dbs[|calls|].events[a].vaID == eb.vaID
    requires b !in dbs[|calls|].events && l !in dbs[|calls|].legs
    ensures SoundRun(dbs', calls') && dbs <= dbs'
    ensures calls' == calls + [Created(b, eb, [], []), LegAdded(l, NewLeg(b, 0, x))]
    ensures HasLegs(dbs'[|calls'|], b, eb, 1, {x}) && Rival(dbs'[|calls'|], eb.vaID, b, a)
    ensures dbs'[|calls'|].legs.Keys == dbs[|calls|].legs.Keys + {l}
  {
    dbs', calls' := LeglessStep(dbs, calls, b, eb);
    assert LegsOf(dbs'[|calls'|], a) == LegsOf(dbs[|calls|], a);
    dbs', calls' := GuardedLegStep(dbs', calls', b, eb, 0, {}, l, x);
    assert {} + {x} == {x};
  }

  predicate AllDiffer(p: string, q: string, l: string, m: string) {
    p != q && p != l && p != m && q != l && q != m && l != m
  }

  lemma SaveStep(dbs: seq<Tables>, calls: seq<Call>, a: string, b: string, eb: Event, taken: set<(string, string)>,
                 e: Event)
    returns (dbs': seq<Tables>, calls': seq<Call>)
    requires SoundRun(dbs, calls) && HasLegs(dbs[|calls|], b, eb, 2, taken) && Rival(dbs[|calls|], eb.vaID, b, a)
    requires e.status == "active" && e.vaID == eb.vaID
    ensures IsRun(dbs', calls') && dbs <= dbs' && calls' == calls + [Saved(b, e)] && !AtMostOne(dbs'[|calls'|])
  {
    CallKeepsRule(dbs[|calls|], Saved(b, e));
    dbs', calls' := RunOn(dbs, calls, Saved(b, e));
  }

  /** An event with one leg beside an active event with two legs, and a leg id to spare. */
  lemma TwoEvents(a: string, ea: Event, b: string, eb: Event, p: string, q: string, l: string, m: string,
                  x: (string, string), y: (string, string))
    returns (dbs: seq<Tables>, calls: seq<Call>)
    requires a != b && ea.vaID == eb.vaID && ea.status == "active" && AllDiffer(p, q, l, m) && x != y
    ensures SoundRun(dbs, calls) && dbs[0] == Tables(map[], map[])
    ensures calls == [Created(a, ea, [], []), LegAdded(p, NewLeg(a, 0, x)), LegAdded(q, NewLeg(a, 1, y)),
                      Created(b, eb, [], []), LegAdded(l, NewLeg(b, 0, x))]
    ensures HasLegs(dbs[5], b, eb, 1, {x}) && Rival(dbs[5], eb.vaID, b, a) && m !in dbs[5].legs
  {
    dbs, calls := FirstEvent(a, ea, p, q, x, y);
    dbs, calls := SecondEvent(dbs, calls, a, b, eb, l, x);
  }

  /** A draft with two legs beside an active event with two legs. */
  lemma DraftBeside(a: string, ea: Event, b: string, eb: Event, p: string, q: string, l: string, m: string,
                    x: (string, string), y: (string, string))
    returns (dbs: seq<Tables>, calls: seq<Call>)
    requires a != b && ea.vaID == eb.vaID && ea.status == "active" && eb.status == "draft"
    requires AllDiffer(p, q, l, m) && x != y
    ensures SoundRun(dbs, calls) && dbs[0] == Tables(map[], map[])
    ensures calls == [Created(a, ea, [], []), LegAdded(p, NewLeg(a, 0, x)), LegAdded(q, NewLeg(a, 1, y)),
                      Created(b, eb, [], []), LegAdded(l, NewLeg(b, 0, x)), LegAdded(m, NewLeg(b, 1, y))]
    ensures HasLegs(dbs[6], b, eb, 2, {x} + {y}) && Rival(dbs[6], eb.vaID, b, a)
  {
    dbs, calls := TwoEvents(a, ea, b, eb, p, q, l, m, x, y);
    dbs, calls := GuardedLegStep(dbs, calls, b, eb, 1, {x}, m, y);
  }

  /** UpdateEvent breaks the rule. By requests that are all accepted, an active event is created and given two
      legs, then a draft of the same VA likewise; then the draft is made active through UpdateEvent. */
  lemma UpdateEventBreaksRule(va: string, a: string, reqA: CreateRequest, b: string, reqB: CreateRequest,
                              p: string, q: string, l: string, m: string, r1: LegRequest, r2: LegRequest,
                              req: UpdateRequest)
    returns (dbs: seq<Tables>, calls: seq<Call>)
    requires a != b && AllDiffer(p, q, l, m)
    requires AcceptableCreate(va, reqA) && AcceptableCreate(va, reqB) && reqA.legs == reqB.legs == []
    requires EventOf(va, reqA).status == "active" && EventOf(va, reqB).status == "draft"
    requires ValidLeg(r1) && ValidLeg(r2) && RouteOf(r1) != RouteOf(r2)
    requires ValidEvent(Edited(EventOf(va, reqB), req)) && Edited(EventOf(va, reqB), req).status == "active"
    ensures IsRun(dbs, calls) && dbs[0] == Tables(map[], map[])
    ensures var x, y := RouteOf(r1), RouteOf(r2);
            calls == [Created(a, EventOf(va, reqA), [], []), LegAdded(p, NewLeg(a, 0, x)), LegAdded(q, NewLeg(a, 1, y)),
                      Created(b, EventOf(va, reqB), [], []), LegAdded(l, NewLeg(b, 0, x)), LegAdded(m, NewLeg(b, 1, y)),
                      Saved(b, Edited(EventOf(va, reqB), req))]
    ensures AtMostOne(dbs[6]) && !AtMostOne(dbs[7])
  {
    dbs, calls := UpdateRun(a, EventOf(va, reqA), b, EventOf(va, reqB), p, q, l, m, RouteOf(r1), RouteOf(r2),
                            Edited(EventOf(va, reqB), req));
  }

  lemma UpdateRun(a: string, ea: Event, b: string, eb: Event, p: string, q: string, l: string, m: string,
                  x: (string, string), y: (string, string), e: Event)
    returns (dbs: seq<Tables>, calls: seq<Call>)
    requires a != b && ea.vaID == eb.vaID == e.vaID && ea.status == e.status == "active" && eb.status == "draft"
    requires AllDiffer(p, q, l, m) && x != y
    ensures IsRun(dbs, calls) && dbs[0] == Tables(map[], map[])
    ensures calls == [Created(a, ea, [], []), LegAdded(p, NewLeg(a, 0, x)), LegAdded(q, NewLeg(a, 1, y)),
                      Created(b, eb, [], []), LegAdded(l, NewLeg(b, 0, x)), LegAdded(m, NewLeg(b, 1, y)), Saved(b, e)]
    ensures AtMostOne(dbs[6]) && !AtMostOne(dbs[7])
  {
    dbs, calls := DraftBeside(a, ea, b, eb, p, q, l, m, x, y);
    dbs, calls := SaveStep(dbs, calls, a, b, eb, {x} + {y}, e);
  }

  /** CreateEventLeg breaks it too. By requests that are all accepted, an active event is created and given two
      legs, and an active one of the same VA is created and given one; then it is given a second. */
  lemma CreateEventLegBreaksRule(va: string, a: string, reqA: CreateRequest, b: string, reqB: CreateRequest,
                                 p: string, q: string, l: string, m: string, r1: LegRequest, r2: LegRequest)
    returns (dbs: seq<Tables>, calls: seq<Call>)
    requires a != b && AllDiffer(p, q, l, m)
    requires AcceptableCreate(va, reqA) && AcceptableCreate(va, reqB) && reqA.legs == reqB.legs == []
    requires EventOf(va, reqA).status == EventOf(va, reqB).status == "active"
    requires ValidLeg(r1) && ValidLeg(r2) && RouteOf(r1) != RouteOf(r2)
    ensures IsRun(dbs, calls) && dbs[0] == Tables(map[], map[])
    ensures var x, y := RouteOf(r1), RouteOf(r2);
            calls == [Created(a, EventOf(va, reqA), [], []), LegAdded(p, NewLeg(a, 0, x)), LegAdded(q, NewLeg(a, 1, y)),
                      Created(b, EventOf(va, reqB), [], []), LegAdded(l, NewLeg(b, 0, x)), LegAdded(m, NewLeg(b, 1, y))]
    ensures AtMostOne(dbs[5]) && !AtMostOne(dbs[6])
  {
    dbs, calls := LegRun(a, EventOf(va, reqA), b, EventOf(va, reqB), p, q, l, m, RouteOf(r1), RouteOf(r2));
  }

  lemma LegRun(a: string, ea: Event, b: string, eb: Event, p: string, q: string, l: string, m: string,
               x: (string, string), y: (string, string))
    returns (dbs: seq<Tables>, calls: seq<Call>)
    requires a != b && ea.vaID == eb.vaID && ea.status == eb.status == "active" && AllDiffer(p, q, l, m) && x != y
    ensures IsRun(dbs, calls) && dbs[0] == Tables(map[], map[])
    ensures calls == [Created(a, ea, [], []), LegAdded(p, NewLeg(a, 0, x)), LegAdded(q, NewLeg(a, 1, y)),
                      Created(b, eb, [], []), LegAdded(l, NewLeg(b, 0, x)), LegAdded(m, NewLeg(b, 1, y))]
    ensures AtMostOne(dbs[5]) && !AtMostOne(dbs[6])
  {
    dbs, calls := TwoEvents(a, ea, b, eb, p, q, l, m, x, y);
    dbs, calls := LegStep(dbs, calls, b, eb, 1, {x}, m, y);
  }
}
