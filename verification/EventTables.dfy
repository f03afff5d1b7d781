/** The events and event_legs tables, and the rule that a VA has at most one active multi-leg event. */
module EventTables {
  import opened Wrappers

  datatype Event = Event(vaID: string, name: string, status: string, startDate: Option<int>, endDate: Option<int>)

  datatype Leg = Leg(eventID: string, number: int, origin: string, destination: string)

  datatype Tables = Tables(events: map<string, Event>, legs: map<string, Leg>)

  /** Foreign key, unique_leg_per_event, leg_number_positive and unique_route_per_event. */
  ghost predicate Consistent(db: Tables) {
    && (forall l | l in db.legs :: db.legs[l].eventID in db.events && db.legs[l].number > 0)
    && (forall l, m | l in db.legs && m in db.legs && l != m && db.legs[l].eventID == db.legs[m].eventID ::
          db.legs[l].number != db.legs[m].number && Route(db.legs[l]) != Route(db.legs[m]))
  }

  function Route(l: Leg): (string, string) {
    (l.origin, l.destination)
  }

  function LegsOf(db: Tables, id: string): set<string> {
    set l | l in db.legs && db.legs[l].eventID == id
  }

  predicate ActiveMultiLeg(db: Tables, id: string) {
    id in db.events && db.events[id].status == "active" && |LegsOf(db, id)| > 1
  }

  /** Another event of the same VA that is active and has several legs. */
  ghost predicate Rival(db: Tables, vaID: string, id: string, other: string) {
    other != id && ActiveMultiLeg(db, other) && db.events[other].vaID == vaID
  }

  ghost predicate AtMostOne(db: Tables) {
    forall a, b | ActiveMultiLeg(db, a) && ActiveMultiLeg(db, b) && db.events[a].vaID == db.events[b].vaID :: a == b
  }

  // ----- the changes that the service makes -----

  function NumberedLegs(eventID: string, ids: seq<string>, routes: seq<(string, string)>): map<string, Leg>
    requires |ids| == |routes|
  {
    if ids == [] then map[]
    else
      var n := |ids| - 1;
      NumberedLegs(eventID, ids[..n], routes[..n])[ids[n] := Leg(eventID, n + 1, routes[n].0, routes[n].1)]
  }

  function WithEvent(db: Tables, id: string, e: Event, legs: map<string, Leg>): Tables {
    Tables(db.events[id := e], db.legs + legs)
  }

  function WithRow(db: Tables, id: string, e: Event): Tables {
    db.(events := db.events[id := e])
  }

  function WithoutEvent(db: Tables, id: string): Tables {
    Tables(db.events - {id}, map l | l in db.legs && db.legs[l].eventID != id :: db.legs[l])
  }

  function WithLeg(db: Tables, l: string, leg: Leg): Tables {
    db.(legs := db.legs[l := leg])
  }

  function WithoutLeg(db: Tables, l: string): Tables {
    db.(legs := db.legs - {l})
  }

  /** What each change does, and that it does no more. */
  lemma ChangesAreLocal(db: Tables, id: string, e: Event, l: string, leg: Leg)
    ensures var saved, added := WithRow(db, id, e), WithLeg(db, l, leg);
            && saved.legs == db.legs && saved.events.Keys == db.events.Keys + {id} && saved.events[id] == e
            && (forall x | x in db.events && x != id :: saved.events[x] == db.events[x])
            && added.events == db.events && added.legs.Keys == db.legs.Keys + {l} && added.legs[l] == leg
            && (forall x | x in db.legs && x != l :: added.legs[x] == db.legs[x])
    ensures var deleted, cut := WithoutEvent(db, id), WithoutLeg(db, l);
            && deleted.events.Keys == db.events.Keys - {id}
            && (forall x | x in deleted.events :: deleted.events[x] == db.events[x])
            && (forall x :: x in deleted.legs <==> x in db.legs && db.legs[x].eventID != id)
            && (forall x | x in deleted.legs :: deleted.legs[x] == db.legs[x])
            && cut.events == db.events && cut.legs.Keys == db.legs.Keys - {l}
            && (forall x | x in cut.legs :: cut.legs[x] == db.legs[x])
  {}

  /** A new event comes with its own legs alone, beside everything that was there. */
  lemma CreationIsLocal(db: Tables, id: string, e: Event, legs: map<string, Leg>)
    requires id !in db.events && legs.Keys !! db.legs.Keys
    ensures var after := WithEvent(db, id, e, legs);
            && after.events.Keys == db.events.Keys + {id} && after.events[id] == e
            && after.legs.Keys == db.legs.Keys + legs.Keys
            && (forall x | x in db.events :: after.events[x] == db.events[x])
            && (forall x | x in db.legs :: after.legs[x] == db.legs[x])
            && (forall x | x in legs :: after.legs[x] == legs[x])
  {}

  /** When one event's row or legs change and the other events stay as they are, the rule survives exactly
      when that event does not end up active and multi-leg next to a rival. */
  lemma OneEventChanges(db: Tables, after: Tables, id: string)
    requires AtMostOne(db) && id in after.events
    requires forall x | x != id :: ActiveMultiLeg(after, x) <==> ActiveMultiLeg(db, x)
    requires forall x | x != id && x in db.events :: x in after.events && after.events[x] == db.events[x]
    ensures AtMostOne(after)
       <==> !(ActiveMultiLeg(after, id) && exists other :: Rival(db, after.events[id].vaID, id, other))
  {
    var va := after.events[id].vaID;
    if other :| ActiveMultiLeg(after, id) && Rival(db, va, id, other) {
      assert ActiveMultiLeg(after, other);
    } else {
      forall a, b | ActiveMultiLeg(after, a) && ActiveMultiLeg(after, b)
                    && after.events[a].vaID == after.events[b].vaID
        ensures a == b
      {
        assert a == id && b != id ==> Rival(db, va, id, b);
        assert b == id && a != id ==> Rival(db, va, id, a);
      }
    }
  }

  /** Saving an event's row keeps the rule exactly when it does not leave a multi-leg event active next to
      a rival. UpdateEventStatus checks this; UpdateEvent does not. */
  lemma SaveKeepsRuleIff(db: Tables, id: string, e: Event)
    requires AtMostOne(db) && id in db.events
    ensures AtMostOne(WithRow(db, id, e))
       <==> !(e.status == "active" && |LegsOf(db, id)| > 1 && exists other :: Rival(db, e.vaID, id, other))
  {
    var after := WithRow(db, id, e);
    forall x ensures LegsOf(after, x) == LegsOf(db, x) {}
    OneEventChanges(db, after, id);
  }

  /** Adding a leg keeps the rule exactly when it does not turn an active one-leg event into a multi-leg
      event next to a rival. CreateEventLeg does not check this. */
  lemma LegKeepsRuleIff(db: Tables, l: string, leg: Leg, e: Event)
    requires AtMostOne(db) && l !in db.legs && leg.eventID in db.events && e == db.events[leg.eventID]
    ensures AtMostOne(WithLeg(db, l, leg))
       <==> !(e.status == "active" && |LegsOf(db, leg.eventID)| == 1
              && exists other :: Rival(db, e.vaID, leg.eventID, other))
  {
    var id, after := leg.eventID, WithLeg(db, l, leg);
    assert LegsOf(after, id) == LegsOf(db, id) + {l};
    forall x | x != id ensures LegsOf(after, x) == LegsOf(db, x) {}
    OneEventChanges(db, after, id);
    if other :| ActiveMultiLeg(db, id) && Rival(db, e.vaID, id, other) {
      assert false;
    }
  }

  lemma {:induction false} NumberedLegKeys(eventID: string, ids: seq<string>, routes: seq<(string, string)>)
    requires |ids| == |routes| && forall i, j | 0 <= i < j < |ids| :: ids[i] != ids[j]
    ensures var legs := NumberedLegs(eventID, ids, routes);
            && (forall l :: l in legs <==> l in ids) && |legs.Keys| == |ids|
            && (forall l | l in legs :: legs[l].eventID == eventID)
  {
    if ids != [] {
      var n := |ids| - 1;
      NumberedLegKeys(eventID, ids[..n], routes[..n]);
      var front := NumberedLegs(eventID, ids[..n], routes[..n]);
      assert ids == ids[..n] + [ids[n]];
      assert NumberedLegs(eventID, ids, routes).Keys == front.Keys + {ids[n]};
    }
  }

  /** The legs of a new event are numbered from one in the order of the request. */
  lemma {:induction false} NumberedLegAt(eventID: string, ids: seq<string>, routes: seq<(string, string)>, k: nat)
    requires |ids| == |routes| && k < |ids| && forall i, j | 0 <= i < j < |ids| :: ids[i] != ids[j]
    ensures var legs := NumberedLegs(eventID, ids, routes);
            ids[k] in legs && legs[ids[k]] == Leg(eventID, k + 1, routes[k].0, routes[k].1)
  {
    if k < |ids| - 1 {
      NumberedLegAt(eventID, ids[..|ids| - 1], routes[..|ids| - 1], k);
    }
  }

  lemma NewEventLegs(db: Tables, id: string, e: Event, legs: map<string, Leg>, x: string)
    requires Consistent(db) && id !in db.events
    requires forall l | l in legs :: l !in db.legs && legs[l].eventID == id
    ensures LegsOf(WithEvent(db, id, e, legs), x) == if x == id then legs.Keys else LegsOf(db, x)
  {}

  lemma CreateWithLegsKeepsRuleIff(db: Tables, id: string, e: Event, legs: map<string, Leg>)
    requires AtMostOne(db) && Consistent(db) && id !in db.events
    requires forall l | l in legs :: l !in db.legs && legs[l].eventID == id
    ensures AtMostOne(WithEvent(db, id, e, legs))
       <==> !(e.status == "active" && |legs.Keys| > 1 && exists other :: Rival(db, e.vaID, id, other))
  {
    var after := WithEvent(db, id, e, legs);
    forall x ensures LegsOf(after, x) == if x == id then legs.Keys else LegsOf(db, x) {
      NewEventLegs(db, id, e, legs, x);
    }
    OneEventChanges(db, after, id);
  }

  /** Creating an event keeps the rule exactly when it is not an active multi-leg event next to a rival. */
  lemma CreateKeepsRuleIff(db: Tables, id: string, e: Event, ids: seq<string>, routes: seq<(string, string)>)
    requires AtMostOne(db) && Consistent(db) && id !in db.events && |ids| == |routes|
    requires (forall i, j | 0 <= i < j < |ids| :: ids[i] != ids[j]) && forall l <- ids :: l !in db.legs
    ensures AtMostOne(WithEvent(db, id, e, NumberedLegs(id, ids, routes)))
       <==> !(e.status == "active" && |ids| > 1 && exists other :: Rival(db, e.vaID, id, other))
  {
    NumberedLegKeys(id, ids, routes);
    CreateWithLegsKeepsRuleIff(db, id, e, NumberedLegs(id, ids, routes));
  }

  lemma RemovingKeepsRule(db: Tables, after: Tables)
    requires AtMostOne(db) && after.legs.Items <= db.legs.Items && after.events.Items <= db.events.Items
    ensures AtMostOne(after)
  {
    forall id | ActiveMultiLeg(after, id) ensures ActiveMultiLeg(db, id) && db.events[id] == after.events[id] {
      assert (id, after.events[id]) in after.events.Items;
      forall l | l in LegsOf(after, id) ensures l in LegsOf(db, id) {
        assert (l, after.legs[l]) in after.legs.Items;
      }
      SubsetSmaller(LegsOf(after, id), LegsOf(db, id));
    }
  }

  lemma SubsetSmaller<T>(a: set<T>, b: set<T>)
    requires a <= b
    ensures |a| <= |b|
  {
    assert b == a + (b - a);
  }
}
