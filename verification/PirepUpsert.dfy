/** processPirep: from an Airtable record to a row of pirep_at_synced. */
module PirepUpsert {
  import opened Wrappers
  import opened GoStrings
  import opened Airtable

  type Key = (string, string)

  /** A queued PIREP; `createdTime` is the parsed creation time, None when it does not parse. */
  datatype Pirep = Pirep(vaID: string, atID: string, fields: Fields, createdTime: Option<int>)

  /** The columns that an upsert overwrites (updated_at aside). */
  datatype Row = Row(
    route: string, flightMode: string, flightTime: Option<real>, pilotCallsign: string,
    aircraft: string, livery: string, routeATID: Option<string>, pilotATID: Option<string>,
    atCreatedTime: Option<int>)

  /** A stored row; `backfillStatus` starts at zero and no upsert changes it. */
  datatype Saved = Saved(row: Row, backfillStatus: nat)

  type Table = map<Key, Saved>

  /** What the worker looks up while it processes: the PIREP schema of each VA, and the callsign and
      route of synced pilots and routes by (server_id, at_id). */
  datatype Lookups = Lookups(schemas: map<string, EntitySchema>, pilots: map<Key, string>, routes: map<Key, string>)

  /** The first id of a linked-record array. */
  function LinkedID(v: Option<Value>): Option<string> {
    match v
    case Some(List(ids)) => if |ids| > 0 && ids[0].Text? then Some(ids[0].text) else None
    case _ => None
  }

  function Trimmed(v: Option<Value>): string {
    match v
    case Some(Text(text)) => TrimSpace(text)
    case _ => ""
  }

  function OrElse<T>(first: Option<T>, second: Option<T>): Option<T> {
    if first.Some? then first else second
  }

  function Found(names: map<Key, string>, vaID: string, atID: Option<string>): string {
    if atID.Some? && atID.value != "" && (vaID, atID.value) in names then names[(vaID, atID.value)] else ""
  }

  /** The column of `name`, or of the older `fallback` mapping when `name` is not mapped at all. */
  function LookupEither(schema: EntitySchema, record: Fields, name: string, fallback: string): Option<Value> {
    if Column(schema.fields, name).Some? then Lookup(schema, record, name) else Lookup(schema, record, fallback)
  }

  /** upsertPirep up to the database write. */
  function BuildRow(item: Pirep, schema: EntitySchema, look: Lookups): Row {
    var routeValue := Lookup(schema, item.fields, "route");
    var callsignValue := LookupEither(schema, item.fields, "pilot_callsign", "callsign");
    var routeATID := OrElse(LinkedID(Lookup(schema, item.fields, "route_at_id")), LinkedID(routeValue));
    var pilotATID := OrElse(LinkedID(Lookup(schema, item.fields, "pilot_at_id")), LinkedID(callsignValue));
    var ownRoute := Trimmed(routeValue);
    var flightTime := match Lookup(schema, item.fields, "flight_time")
                      case Some(Number(n)) => Some(n)
                      case _ => None;
    Row(if ownRoute == "" then Found(look.routes, item.vaID, routeATID) else ownRoute,
        Trimmed(Lookup(schema, item.fields, "flight_mode")),
        flightTime,
        Found(look.pilots, item.vaID, pilotATID),
        Trimmed(Lookup(schema, item.fields, "aircraft")),
        Trimmed(LookupEither(schema, item.fields, "livery", "airline")),
        routeATID, pilotATID, item.createdTime)
  }

  function KeyOf(item: Pirep): Key {
    (item.vaID, item.atID)
  }

  /** The row an item stands for; None when its VA has no PIREP schema. */
  function RowOf(item: Pirep, look: Lookups): Option<Row> {
    if item.vaID in look.schemas then Some(BuildRow(item, look.schemas[item.vaID], look)) else None
  }

  /** Repository.Upsert: insert, or overwrite the listed columns on a (server_id, at_id) conflict. */
  function Upserted(t: Table, key: Key, row: Row): Table {
    t[key := Saved(row, if key in t then t[key].backfillStatus else 0)]
  }

  /** What processing makes of a message while schemas and lookup tables stay as they are. */
  type Meaning = Pirep -> Option<Row>

  function UnderLookups(look: Lookups): Meaning {
    (item: Pirep) => RowOf(item, look)
  }

  /** processPirep; `dbOk` says whether the database carries out the write. */
  function Processed(t: Table, item: Pirep, rowOf: Meaning, dbOk: bool): (Table, bool) {
    match rowOf(item)
    case None => (t, false)
    case Some(row) => if dbOk then (Upserted(t, KeyOf(item), row), true) else (t, false)
  }

  // ----- what a row is made of -----

  /** A linked-record array whose first element is the id. */
  ghost predicate LinksTo(v: Option<Value>, id: string) {
    v.Some? && v.value.List? && |v.value.elements| > 0 && v.value.elements[0] == Text(id)
  }

  lemma LinkedIDIff(v: Option<Value>, id: string)
    ensures LinkedID(v) == Some(id) <==> LinksTo(v, id)
  {}

  /** The texts that the record itself holds, without the spaces around them; anything else shows as empty. */
  lemma RowTexts(item: Pirep, schema: EntitySchema, look: Lookups)
    ensures var row := BuildRow(item, schema, look);
            var livery := if Column(schema.fields, "livery").Some? then "livery" else "airline";
            && row.flightMode == (match Lookup(schema, item.fields, "flight_mode")
                                  case Some(Text(text)) => TrimSpace(text)
                                  case _ => "")
            && row.aircraft == (match Lookup(schema, item.fields, "aircraft")
                                case Some(Text(text)) => TrimSpace(text)
                                case _ => "")
            && row.livery == (match Lookup(schema, item.fields, livery)
                              case Some(Text(text)) => TrimSpace(text)
                              case _ => "")
            && row.flightTime == (match Lookup(schema, item.fields, "flight_time")
                                  case Some(Number(n)) => Some(n)
                                  case _ => None)
            && row.atCreatedTime == item.createdTime
  {}

  /** The linked route: the one named explicitly, else the one that the route field links to. */
  lemma RowRouteID(item: Pirep, schema: EntitySchema, look: Lookups, id: string)
    ensures BuildRow(item, schema, look).routeATID == Some(id)
       <==> (|| LinksTo(Lookup(schema, item.fields, "route_at_id"), id)
             || (&& (forall other :: !LinksTo(Lookup(schema, item.fields, "route_at_id"), other))
                 && LinksTo(Lookup(schema, item.fields, "route"), id)))
  {
    var explicit := Lookup(schema, item.fields, "route_at_id");
    LinkedIDIff(explicit, id);
    LinkedIDIff(Lookup(schema, item.fields, "route"), id);
    if LinkedID(explicit).Some? {
      LinkedIDIff(explicit, LinkedID(explicit).value);
    }
  }

  /** The linked pilot, likewise; its other source is the pilot_callsign field, or callsign when that one is not
      mapped. */
  lemma RowPilotID(item: Pirep, schema: EntitySchema, look: Lookups, id: string)
    ensures var callsign := if Column(schema.fields, "pilot_callsign").Some? then "pilot_callsign" else "callsign";
            BuildRow(item, schema, look).pilotATID == Some(id)
            <==> (|| LinksTo(Lookup(schema, item.fields, "pilot_at_id"), id)
                  || (&& (forall other :: !LinksTo(Lookup(schema, item.fields, "pilot_at_id"), other))
                      && LinksTo(Lookup(schema, item.fields, callsign), id)))
  {
    var explicit := Lookup(schema, item.fields, "pilot_at_id");
    var callsign := if Column(schema.fields, "pilot_callsign").Some? then "pilot_callsign" else "callsign";
    LinkedIDIff(explicit, id);
    LinkedIDIff(Lookup(schema, item.fields, callsign), id);
    if LinkedID(explicit).Some? {
      LinkedIDIff(explicit, LinkedID(explicit).value);
    }
  }

  /** What a synced table of the VA says of an id; an absent or empty id finds nothing. */
  ghost predicate Names(names: map<Key, string>, vaID: string, atID: Option<string>, name: string) {
    if atID.Some? && atID.value != "" && (vaID, atID.value) in names then name == names[(vaID, atID.value)]
    else name == ""
  }

  /** The callsign comes from the synced pilots alone, whatever the record says. The route is the record's own text
      when that is not blank, else what the synced routes say of the linked route. */
  lemma RowNames(item: Pirep, schema: EntitySchema, look: Lookups)
    ensures var row, route := BuildRow(item, schema, look), Lookup(schema, item.fields, "route");
            && Names(look.pilots, item.vaID, row.pilotATID, row.pilotCallsign)
            && (if route.Some? && route.value.Text? && !AllSpaces(route.value.text)
                then row.route == TrimSpace(route.value.text)
                else Names(look.routes, item.vaID, row.routeATID, row.route))
  {
    match Lookup(schema, item.fields, "route")
    case Some(Text(text)) => TrimSpaceEmptyIff(text);
    case _ =>
  }

  /** A message fails exactly when its VA has no PIREP schema or the database does not write; then nothing changes.
      Else its own row is overwritten, but for the backfill status, and no other row is touched. */
  lemma ProcessedWrites(t: Table, item: Pirep, look: Lookups, dbOk: bool)
    ensures var (t', ok) := Processed(t, item, UnderLookups(look), dbOk);
            var key := (item.vaID, item.atID);
            && (ok <==> item.vaID in look.schemas && dbOk) && (!ok ==> t' == t)
            && (ok ==>
                  && t' == t[key := t'[key]] && t'[key].row == BuildRow(item, look.schemas[item.vaID], look)
                  && t'[key].backfillStatus == (if key in t then t[key].backfillStatus else 0))
  {}
}
