/** Airtable records and the field mappings that interpret them. */
module Airtable {
  import opened Wrappers

  /** What a JSON field of a record decodes to. */
  datatype Value = Text(text: string) | Number(number: real) | List(elements: seq<Value>) | Other

  type Fields = map<string, Value>

  datatype Record = Record(id: string, fields: Fields)

  datatype FieldMapping = FieldMapping(
    internalName: string, airtableName: string, dataType: string, required: bool,
    defaultValue: Option<string>, displayName: string, isUserVisible: bool,
    displayFormat: Option<string>, botMetadata: bool)

  datatype EntitySchema = EntitySchema(
    entityType: string, tableName: string, enabled: bool, fields: seq<FieldMapping>,
    lastModifiedField: string, careerModeFlightMode: Option<string>)

  /** GetFieldMapping: the Airtable column of the first mapping with this internal name. */
  function Column(fields: seq<FieldMapping>, internalName: string): Option<string> {
    if fields == [] then None
    else if fields[0].internalName == internalName then Some(fields[0].airtableName)
    else Column(fields[1..], internalName)
  }

  /** No mapping before the one at `k` has the internal name, and that one has. */
  ghost predicate FirstNamed(fields: seq<FieldMapping>, internalName: string, k: nat) {
    && k < |fields| && fields[k].internalName == internalName
    && forall j | 0 <= j < k :: fields[j].internalName != internalName
  }

  /** The first mapping of the name decides, and there is a column exactly when some mapping has it. */
  lemma {:induction false} ColumnIsFirst(fields: seq<FieldMapping>, internalName: string, k: nat)
    ensures FirstNamed(fields, internalName, k) ==> Column(fields, internalName) == Some(fields[k].airtableName)
    ensures Column(fields, internalName).Some? <==> exists m: FieldMapping <- fields :: m.internalName == internalName
  {
    if fields != [] {
      ColumnIsFirst(fields[1..], internalName, if k > 0 then k - 1 else 0);
      assert k > 0 && FirstNamed(fields, internalName, k) ==> FirstNamed(fields[1..], internalName, k - 1);
      if m: FieldMapping :| m in fields && m.internalName == internalName {
        assert m == fields[0] || m in fields[1..];
      }
    }
  }

  /** The record's value under an internal name, when both the mapping and the value are there. */
  function Lookup(schema: EntitySchema, record: Fields, internalName: string): Option<Value> {
    match Column(schema.fields, internalName)
    case None => None
    case Some(column) => if column in record then Some(record[column]) else None
  }

  /** A lookup finds exactly what the record holds under the mapped column. */
  lemma LookupIff(schema: EntitySchema, record: Fields, internalName: string, value: Value)
    ensures Lookup(schema, record, internalName) == Some(value)
       <==> exists column <- record :: Column(schema.fields, internalName) == Some(column) && record[column] == value
  {}
}
