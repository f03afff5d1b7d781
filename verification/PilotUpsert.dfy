/** upsertPilot and the schema conversions around it.

    The two tables it writes (pilot_at_synced and va_user_roles) and the pilot statistics cache it
    evicts from form one state value. Each attempt may be hit by a database fault.
 */
module PilotUpsert {
  import opened Wrappers
  import opened GoStrings
  import opened Airtable

  datatype PilotType = Regular | CareerMode

  datatype PilotRow = PilotRow(callsign: string, registered: bool, pilotType: PilotType)

  datatype Role = Role(id: string, vaID: string, callsign: Option<string>,
                       airtablePilotID: Option<string>, careerModePilotID: Option<string>)

  type Key = (string, string)

  /** `pilots` is keyed by (server_id, at_id); `roles` is in primary-key order. */
  datatype Tables = Tables(pilots: map<Key, PilotRow>, roles: seq<Role>, statsCache: set<Key>)

  datatype Fault = NoFault | RoleQueryFails | PilotUpsertFails | RoleUpdateFails

  /** The validated callsign; None stands for each of the four validation errors. */
  function Callsign(record: Fields, schema: EntitySchema): Option<string> {
    match Lookup(schema, record, "callsign")
    case Some(Text(raw)) => if TrimSpace(raw) == "" then None else Some(TrimSpace(raw))
    case _ => None
  }

  function TypeOf(schema: EntitySchema): PilotType {
    if schema.entityType == "career_mode" then CareerMode else Regular
  }

  /** The first role of the VA whose callsign agrees up to case. */
  function FindRole(roles: seq<Role>, vaID: string, callsign: string): (r: Option<nat>)
    ensures r.Some? ==> r.value < |roles|
  {
    if roles == [] then None
    else if roles[0].vaID == vaID && roles[0].callsign.Some?
            && ToLower(roles[0].callsign.value) == ToLower(callsign) then Some(0)
    else match FindRole(roles[1..], vaID, callsign) case None => None case Some(k) => Some(k + 1)
  }

  function LinkedRole(role: Role, atID: string, pilotType: PilotType): Role {
    match pilotType
    case CareerMode => role.(careerModePilotID := Some(atID))
    case Regular => role.(airtablePilotID := Some(atID))
  }

  /** The database part of upsertPilot, for a record whose callsign passed validation. */
  function WritePilot(t: Tables, key: Key, callsign: string, pilotType: PilotType, fault: Fault): (Tables, bool) {
    if fault == RoleQueryFails || fault == PilotUpsertFails then (t, false)
    else
      var role := FindRole(t.roles, key.0, callsign);
      var written := t.(pilots := t.pilots[key := PilotRow(callsign, role.Some?, pilotType)]);
      if role.None? then (written, true)
      else if fault == RoleUpdateFails then (written, false)
      else
        (written.(roles := t.roles[role.value := LinkedRole(t.roles[role.value], key.1, pilotType)],
                  statsCache := t.statsCache - {key}), true)
  }

  /** One run of upsertPilot; the flag says whether it returned without an error. */
  function UpsertPilot(t: Tables, vaID: string, atID: string, record: Fields, schema: EntitySchema, fault: Fault)
    : (Tables, bool)
  {
    var callsign := Callsign(record, schema);
    if callsign.None? then (t, false)
    else WritePilot(t, (vaID, atID), callsign.value, TypeOf(schema), fault)
  }

  // ----- what an upsert writes -----

  /** The role belongs to the VA and has the callsign, up to case. */
  ghost predicate Holds(role: Role, vaID: string, callsign: string) {
    role.vaID == vaID && role.callsign.Some? && ToLower(role.callsign.value) == ToLower(callsign)
  }

  /** The role at `k` holds the callsign and no earlier one does. */
  ghost predicate FirstHolder(roles: seq<Role>, vaID: string, callsign: string, k: nat) {
    k < |roles| && Holds(roles[k], vaID, callsign) && forall j | 0 <= j < k :: !Holds(roles[j], vaID, callsign)
  }

  lemma {:induction false} FindRoleIsFirst(roles: seq<Role>, vaID: string, callsign: string)
    ensures var r := FindRole(roles, vaID, callsign);
            && (r.Some? ==> FirstHolder(roles, vaID, callsign, r.value))
            && (r.None? ==> forall j | 0 <= j < |roles| :: !Holds(roles[j], vaID, callsign))
  {
    if roles != [] && !Holds(roles[0], vaID, callsign) {
      FindRoleIsFirst(roles[1..], vaID, callsign);
      assert forall j | 0 < j < |roles| :: roles[j] == roles[1..][j - 1];
    }
  }

  lemma CallsignIff(record: Fields, schema: EntitySchema)
    ensures Callsign(record, schema).Some?
       <==> (&& Column(schema.fields, "callsign").Some? && Column(schema.fields, "callsign").value in record
             && record[Column(schema.fields, "callsign").value].Text?
             && !AllSpaces(record[Column(schema.fields, "callsign").value].text))
  {
    var value := Lookup(schema, record, "callsign");
    if value.Some? && value.value.Text? {
      TrimSpaceEmptyIff(value.value.text);
    }
  }

  /** An attempt without faults succeeds on a record exactly when its callsign column is mapped and holds a text that
      is not blank. */
  lemma AcceptedIff(t: Tables, vaID: string, atID: string, record: Fields, schema: EntitySchema)
    ensures UpsertPilot(t, vaID, atID, record, schema, NoFault).1
       <==> (&& Column(schema.fields, "callsign").Some? && Column(schema.fields, "callsign").value in record
             && record[Column(schema.fields, "callsign").value].Text?
             && !AllSpaces(record[Column(schema.fields, "callsign").value].text))
  {
    CallsignIff(record, schema);
    UpsertFails(t, vaID, atID, record, schema, NoFault);
  }

  lemma WriteWritesPilot(t: Tables, key: Key, callsign: string, pilotType: PilotType)
    ensures var pilots := WritePilot(t, key, callsign, pilotType, NoFault).0.pilots;
            && pilots.Keys == t.pilots.Keys + {key}
            && (forall other | other in t.pilots && other != key :: pilots[other] == t.pilots[other])
            && pilots[key].callsign == callsign && pilots[key].pilotType == pilotType
            && (pilots[key].registered <==> exists k | 0 <= k < |t.roles| :: Holds(t.roles[k], key.0, callsign))
  {
    FindRoleIsFirst(t.roles, key.0, callsign);
  }

  /** What an accepted record writes: its own pilot row, with the trimmed callsign, the type of the schema and
      whether a role of the VA holds the callsign. */
  lemma UpsertWritesPilot(t: Tables, vaID: string, atID: string, record: Fields, schema: EntitySchema, raw: string)
    requires Lookup(schema, record, "callsign") == Some(Text(raw)) && TrimSpace(raw) != ""
    ensures var pilots := UpsertPilot(t, vaID, atID, record, schema, NoFault).0.pilots;
            && pilots.Keys == t.pilots.Keys + {(vaID, atID)}
            && (forall key | key in t.pilots && key != (vaID, atID) :: pilots[key] == t.pilots[key])
            && pilots[(vaID, atID)].callsign == TrimSpace(raw)
            && (pilots[(vaID, atID)].pilotType == CareerMode <==> schema.entityType == "career_mode")
            && (pilots[(vaID, atID)].registered
                <==> exists k | 0 <= k < |t.roles| :: Holds(t.roles[k], vaID, TrimSpace(raw)))
  {
    WriteWritesPilot(t, (vaID, atID), TrimSpace(raw), TypeOf(schema));
  }

  lemma WriteLinksRole(t: Tables, key: Key, callsign: string, pilotType: PilotType, k: nat)
    ensures var t' := WritePilot(t, key, callsign, pilotType, NoFault).0;
            && |t'.roles| == |t.roles|
            && (k < |t.roles| && !FirstHolder(t.roles, key.0, callsign, k) ==> t'.roles[k] == t.roles[k])
            && (FirstHolder(t.roles, key.0, callsign, k) ==>
                  && t'.roles[k] == LinkedRole(t.roles[k], key.1, pilotType)
                  && t'.statsCache == t.statsCache - {key})
            && ((forall j | 0 <= j < |t.roles| :: !Holds(t.roles[j], key.0, callsign)) ==>
                  t'.statsCache == t.statsCache)
  {
    FindRoleIsFirst(t.roles, key.0, callsign);
  }

  /** And it links the first role of the VA that holds the callsign: the role gets the record's id in the field of
      its type and keeps the other one. No other role changes, and the pilot's cached statistics go exactly when
      there is such a role. */
  lemma UpsertLinksRole(t: Tables, vaID: string, atID: string, record: Fields, schema: EntitySchema, raw: string,
                        k: nat)
    requires Lookup(schema, record, "callsign") == Some(Text(raw)) && TrimSpace(raw) != ""
    ensures var t' := UpsertPilot(t, vaID, atID, record, schema, NoFault).0;
            && |t'.roles| == |t.roles|
            && (k < |t.roles| && !FirstHolder(t.roles, vaID, TrimSpace(raw), k) ==> t'.roles[k] == t.roles[k])
            && (FirstHolder(t.roles, vaID, TrimSpace(raw), k) ==>
                  var was, now := t.roles[k], t'.roles[k];
                  && now.id == was.id && now.vaID == was.vaID && now.callsign == was.callsign
                  && (if schema.entityType == "career_mode"
                      then now.careerModePilotID == Some(atID) && now.airtablePilotID == was.airtablePilotID
                      else now.airtablePilotID == Some(atID) && now.careerModePilotID == was.careerModePilotID)
                  && t'.statsCache == t.statsCache - {(vaID, atID)})
            && ((forall j | 0 <= j < |t.roles| :: !Holds(t.roles[j], vaID, TrimSpace(raw))) ==>
                  t'.statsCache == t.statsCache)
  {
    WriteLinksRole(t, (vaID, atID), TrimSpace(raw), TypeOf(schema), k);
  }

  lemma WriteTouchesOwnRow(t: Tables, key: Key, callsign: string, pilotType: PilotType, fault: Fault)
    ensures var (t', ok) := WritePilot(t, key, callsign, pilotType, fault);
            t'.pilots - {key} == t.pilots - {key} && (ok ==> key in t'.pilots)
  {}

  /** Under any fault, no pilot row changes but that of the VA and the record, and a success leaves one there. */
  lemma UpsertTouchesOwnRow(t: Tables, vaID: string, atID: string, record: Fields, schema: EntitySchema, fault: Fault)
    ensures var (t', ok) := UpsertPilot(t, vaID, atID, record, schema, fault);
            t'.pilots - {(vaID, atID)} == t.pilots - {(vaID, atID)} && (ok ==> (vaID, atID) in t'.pilots)
  {
    var callsign := Callsign(record, schema);
    if callsign.Some? {
      WriteTouchesOwnRow(t, (vaID, atID), callsign.value, TypeOf(schema), fault);
    }
  }

  /** What each fault leaves: nothing when the role query or the pilot upsert fails; the pilot row alone, as
      registered, when the role update does. That update is made only for a callsign that some role holds. */
  lemma FaultLeaves(t: Tables, vaID: string, atID: string, record: Fields, schema: EntitySchema, raw: string)
    requires Lookup(schema, record, "callsign") == Some(Text(raw)) && TrimSpace(raw) != ""
    ensures UpsertPilot(t, vaID, atID, record, schema, RoleQueryFails) == (t, false)
    ensures UpsertPilot(t, vaID, atID, record, schema, PilotUpsertFails) == (t, false)
    ensures var (clean, _) := UpsertPilot(t, vaID, atID, record, schema, NoFault);
            UpsertPilot(t, vaID, atID, record, schema, RoleUpdateFails)
            == if clean.pilots[(vaID, atID)].registered then (t.(pilots := clean.pilots), false) else (clean, true)
  {}

  lemma WriteFails(t: Tables, key: Key, callsign: string, pilotType: PilotType, fault: Fault)
    ensures WritePilot(t, key, callsign, pilotType, NoFault).1
    ensures var (t', ok) := WritePilot(t, key, callsign, pilotType, fault);
            && (!ok ==> t'.roles == t.roles && t'.statsCache == t.statsCache)
            && (ok ==> t' == WritePilot(t, key, callsign, pilotType, NoFault).0)
  {}

  /** Without a fault exactly the records with a usable callsign succeed; the others are left without
      effect however often they are tried. A failed attempt never touches roles or cached statistics. */
  lemma UpsertFails(t: Tables, vaID: string, atID: string, record: Fields, schema: EntitySchema, fault: Fault)
    ensures UpsertPilot(t, vaID, atID, record, schema, NoFault).1 <==> Callsign(record, schema).Some?
    ensures Callsign(record, schema).None? ==> UpsertPilot(t, vaID, atID, record, schema, fault) == (t, false)
    ensures var (t', ok) := UpsertPilot(t, vaID, atID, record, schema, fault);
            && (!ok ==> t'.roles == t.roles && t'.statsCache == t.statsCache)
            && (ok ==> t' == UpsertPilot(t, vaID, atID, record, schema, NoFault).0)
  {
    var callsign := Callsign(record, schema);
    if callsign.Some? {
      WriteFails(t, (vaID, atID), callsign.value, TypeOf(schema), fault);
    }
  }

  lemma {:induction false} LinkingKeepsLookups(roles: seq<Role>, at: nat, atID: string, pilotType: PilotType,
                                               vaID: string, callsign: string)
    requires at < |roles|
    ensures FindRole(roles[at := LinkedRole(roles[at], atID, pilotType)], vaID, callsign)
         == FindRole(roles, vaID, callsign)
  {
    var linked := roles[at := LinkedRole(roles[at], atID, pilotType)];
    if at == 0 {
      assert linked[1..] == roles[1..];
    } else {
      LinkingKeepsLookups(roles[1..], at - 1, atID, pilotType, vaID, callsign);
      assert linked[1..] == roles[1..][at - 1 := LinkedRole(roles[at], atID, pilotType)];
    }
  }

  lemma CleanWriteConverges(t: Tables, key: Key, callsign: string, pilotType: PilotType, fault: Fault)
    ensures WritePilot(WritePilot(t, key, callsign, pilotType, fault).0, key, callsign, pilotType, NoFault)
         == WritePilot(t, key, callsign, pilotType, NoFault)
  {
    var t1 := WritePilot(t, key, callsign, pilotType, fault).0;
    var role := FindRole(t.roles, key.0, callsign);
    if role.Some? {
      LinkingKeepsLookups(t.roles, role.value, key.1, pilotType, key.0, callsign);
    }
    assert FindRole(t1.roles, key.0, callsign) == role;
    var t2 := WritePilot(t1, key, callsign, pilotType, NoFault).0;
    var t3 := WritePilot(t, key, callsign, pilotType, NoFault).0;
    assert t2.pilots == t3.pilots;
    assert t2.roles == t3.roles;
    assert t2.statsCache == t3.statsCache;
  }

  /** Whatever an earlier attempt on the same record did, failed or not and halfway or not, a clean
      attempt brings the tables to where a single clean attempt would have. */
  lemma CleanAttemptConverges(t: Tables, vaID: string, atID: string, record: Fields, schema: EntitySchema, fault: Fault)
    ensures UpsertPilot(UpsertPilot(t, vaID, atID, record, schema, fault).0, vaID, atID, record, schema, NoFault)
         == UpsertPilot(t, vaID, atID, record, schema, NoFault)
  {
    var callsign := Callsign(record, schema);
    if callsign.Some? {
      CleanWriteConverges(t, (vaID, atID), callsign.value, TypeOf(schema), fault);
    }
  }

  // ----- the schema as it travels through the queue -----

  datatype QueueFieldMapping = QueueFieldMapping(internalName: string, airtableName: string, dataType: string)

  datatype PilotSchema = PilotSchema(
    entityType: string, tableName: string, lastModifiedField: string, fields: seq<QueueFieldMapping>)

  function ToQueueFields(fields: seq<FieldMapping>): seq<QueueFieldMapping> {
    seq(|fields|, k requires 0 <= k < |fields| =>
      QueueFieldMapping(fields[k].internalName, fields[k].airtableName, fields[k].dataType))
  }

  function FromQueueFields(fields: seq<QueueFieldMapping>): seq<FieldMapping> {
    seq(|fields|, k requires 0 <= k < |fields| =>
      FieldMapping(fields[k].internalName, fields[k].airtableName, fields[k].dataType,
                   false, None, "", false, None, false))
  }

  /** convertSchemaToQueueFormat */
  function ToQueue(schema: EntitySchema): PilotSchema {
    PilotSchema(schema.entityType, schema.tableName, schema.lastModifiedField, ToQueueFields(schema.fields))
  }

  /** convertQueueSchemaToVA */
  function FromQueue(schema: PilotSchema): EntitySchema {
    EntitySchema(schema.entityType, schema.tableName, true, FromQueueFields(schema.fields),
                 schema.lastModifiedField, None)
  }

  lemma {:induction false} QueueTripKeepsColumns(fields: seq<FieldMapping>, internalName: string)
    ensures Column(FromQueueFields(ToQueueFields(fields)), internalName) == Column(fields, internalName)
  {
    if fields != [] {
      QueueTripKeepsColumns(fields[1..], internalName);
      assert FromQueueFields(ToQueueFields(fields))[1..] == FromQueueFields(ToQueueFields(fields[1..]));
    }
  }

  /** What a schema is after the trip: names, types and columns as they were, everything else at its zero value. */
  lemma QueueTripKeepsNames(schema: EntitySchema, k: nat)
    ensures var back := FromQueue(ToQueue(schema));
            && back.entityType == schema.entityType && back.tableName == schema.tableName
            && back.lastModifiedField == schema.lastModifiedField && back.enabled && back.careerModeFlightMode.None?
            && |back.fields| == |schema.fields|
            && (k < |schema.fields| ==>
                  var f, g := schema.fields[k], back.fields[k];
                  && g.internalName == f.internalName && g.airtableName == f.airtableName && g.dataType == f.dataType
                  && !g.required && !g.isUserVisible && !g.botMetadata && g.displayName == ""
                  && g.defaultValue.None? && g.displayFormat.None?)
  {}

  lemma SecondTrip(schema: EntitySchema)
    ensures ToQueue(FromQueue(ToQueue(schema))) == ToQueue(schema)
  {
    var once, twice := ToQueue(schema).fields, ToQueue(FromQueue(ToQueue(schema))).fields;
    assert forall k | 0 <= k < |once| :: twice[k] == once[k];
  }

  lemma SameColumnSameUpsert(t: Tables, vaID: string, atID: string, record: Fields, a: EntitySchema, b: EntitySchema,
                             fault: Fault)
    requires a.entityType == b.entityType && Column(a.fields, "callsign") == Column(b.fields, "callsign")
    ensures UpsertPilot(t, vaID, atID, record, a, fault) == UpsertPilot(t, vaID, atID, record, b, fault)
  {
    assert Callsign(record, a) == Callsign(record, b);
  }

  /** The queue drops most of the schema (`enabled`, defaults, display settings), but nothing that
      upsertPilot depends on; and a second trip loses nothing more. */
  lemma QueueTripKeepsUpsert(t: Tables, vaID: string, atID: string, record: Fields, schema: EntitySchema, fault: Fault)
    ensures UpsertPilot(t, vaID, atID, record, FromQueue(ToQueue(schema)), fault)
         == UpsertPilot(t, vaID, atID, record, schema, fault)
    ensures ToQueue(FromQueue(ToQueue(schema))) == ToQueue(schema)
  {
    SecondTrip(schema);
    QueueTripKeepsColumns(schema.fields, "callsign");
    SameColumnSameUpsert(t, vaID, atID, record, FromQueue(ToQueue(schema)), schema, fault);
  }
}
