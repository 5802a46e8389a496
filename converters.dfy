/**
 * `studentConverter` and `taskConverter`: the boundary conversions between
 * the store's timestamp-typed records and the API's ISO-text records.
 */
module Converters {
  import opened Documents

  const StudentDateFields: set<string> := {"lastActive", "createdAt"}
  const TaskDateFields: set<string> := {"dueDate", "createdAt", "updatedAt"}

  /** Every field of `fields` is present and holds a store timestamp. */
  predicate StampsAt(d: Doc, fields: set<string>) {
    forall f :: f in fields ==> f in d && d[f].Stamp?
  }

  /** Every truthy field of `fields` holds text, as the API types declare. */
  predicate TextWhereTruthy(d: Doc, fields: set<string>) {
    forall f :: f in fields && FieldTruthy(d, f) ==> d[f].Str?
  }

  /** The `toApi` shape: the listed timestamp fields become ISO text. */
  function StampsToIso(d: Doc, fields: set<string>, c: TimeCodec): Doc
    requires StampsAt(d, fields)
  {
    map f | f in d :: if f in fields then Str(c.toIso(d[f].t)) else d[f]
  }

  /** The `toFirestore` shape: the listed fields that are truthy are parsed back to timestamps. */
  function IsoToStamps(d: Doc, fields: set<string>, c: TimeCodec): Doc
    requires TextWhereTruthy(d, fields)
  {
    map f | f in d :: if f in fields && Truthy(d[f]) then Stamp(c.fromIso(d[f].s)) else d[f]
  }

  /** `studentConverter.toApi`. */
  function StudentToApi(student: Doc, c: TimeCodec): (api: Doc)
    requires StampsAt(student, StudentDateFields)
    ensures api.Keys == student.Keys
    ensures api["lastActive"] == Str(c.toIso(student["lastActive"].t))
    ensures api["createdAt"] == Str(c.toIso(student["createdAt"].t))
    ensures forall f :: f in student && f !in StudentDateFields ==> api[f] == student[f]
  {
    StampsToIso(student, StudentDateFields, c)
  }

  /** `studentConverter.toFirestore`: copy the record, then overwrite each truthy date field. */
  method StudentToFirestore(api: Doc, c: TimeCodec) returns (student: Doc)
    requires TextWhereTruthy(api, StudentDateFields)
    ensures student == IsoToStamps(api, StudentDateFields, c)
    ensures student.Keys == api.Keys
    ensures FieldTruthy(api, "lastActive") ==> student["lastActive"] == Stamp(c.fromIso(api["lastActive"].s))
    ensures FieldTruthy(api, "createdAt") ==> student["createdAt"] == Stamp(c.fromIso(api["createdAt"].s))
    ensures forall f :: f in api && !(f in StudentDateFields && Truthy(api[f])) ==> student[f] == api[f]
  {
    student := api;
    if FieldTruthy(api, "lastActive") {
      student := student["lastActive" := Stamp(c.fromIso(api["lastActive"].s))];
    }
    if FieldTruthy(api, "createdAt") {
      student := student["createdAt" := Stamp(c.fromIso(api["createdAt"].s))];
    }
  }

  /** `taskConverter.toApi`. */
  function TaskToApi(task: Doc, c: TimeCodec): (api: Doc)
    requires StampsAt(task, TaskDateFields)
    ensures api.Keys == task.Keys
    ensures forall f :: f in TaskDateFields ==> api[f] == Str(c.toIso(task[f].t))
    ensures forall f :: f in task && f !in TaskDateFields ==> api[f] == task[f]
  {
    StampsToIso(task, TaskDateFields, c)
  }

  /** `taskConverter.toFirestore`: copy the record, then overwrite each truthy date field. */
  method TaskToFirestore(api: Doc, c: TimeCodec) returns (task: Doc)
    requires TextWhereTruthy(api, TaskDateFields)
    ensures task == IsoToStamps(api, TaskDateFields, c)
    ensures task.Keys == api.Keys
    ensures forall f :: f in TaskDateFields && FieldTruthy(api, f) ==> task[f] == Stamp(c.fromIso(api[f].s))
    ensures forall f :: f in api && !(f in TaskDateFields && Truthy(api[f])) ==> task[f] == api[f]
  {
    task := api;
    if FieldTruthy(api, "dueDate") {
      task := task["dueDate" := Stamp(c.fromIso(api["dueDate"].s))];
    }
    if FieldTruthy(api, "createdAt") {
      task := task["createdAt" := Stamp(c.fromIso(api["createdAt"].s))];
    }
    if FieldTruthy(api, "updatedAt") {
      task := task["updatedAt" := Stamp(c.fromIso(api["updatedAt"].s))];
    }
  }

  /** Store to wire and back restores the record when the codec round-trips its timestamps. */
  lemma StoreToWireToStore(d: Doc, fields: set<string>, c: TimeCodec)
    requires StampsAt(d, fields)
    requires forall f :: f in fields ==> RoundTrips(c, d[f].t)
    ensures TextWhereTruthy(StampsToIso(d, fields, c), fields)
    ensures IsoToStamps(StampsToIso(d, fields, c), fields, c) == d
  {
    var api := StampsToIso(d, fields, c);
    var back := IsoToStamps(api, fields, c);
    forall f | f in d ensures back[f] == d[f] {
      if f in fields {
        assert api[f] == Str(c.toIso(d[f].t)) && Truthy(api[f]);
        assert RoundTrips(c, d[f].t);
      }
    }
  }

  /** Wire to store and back restores the record when every date field is canonical ISO text. */
  lemma WireToStoreToWire(api: Doc, fields: set<string>, c: TimeCodec)
    requires forall f :: f in fields ==> f in api && api[f].Str? && api[f].s != ""
    requires forall f :: f in fields ==> c.toIso(c.fromIso(api[f].s)) == api[f].s
    ensures TextWhereTruthy(api, fields)
    ensures StampsAt(IsoToStamps(api, fields, c), fields)
    ensures StampsToIso(IsoToStamps(api, fields, c), fields, c) == api
  {
  }

  lemma StudentRoundTrip(student: Doc, c: TimeCodec)
    requires StampsAt(student, StudentDateFields)
    requires RoundTrips(c, student["lastActive"].t) && RoundTrips(c, student["createdAt"].t)
    ensures TextWhereTruthy(StudentToApi(student, c), StudentDateFields)
    ensures IsoToStamps(StudentToApi(student, c), StudentDateFields, c) == student
  {
    StoreToWireToStore(student, StudentDateFields, c);
  }

  lemma TaskRoundTrip(task: Doc, c: TimeCodec)
    requires StampsAt(task, TaskDateFields)
    requires forall f :: f in TaskDateFields ==> RoundTrips(c, task[f].t)
    ensures TextWhereTruthy(TaskToApi(task, c), TaskDateFields)
    ensures IsoToStamps(TaskToApi(task, c), TaskDateFields, c) == task
  {
    StoreToWireToStore(task, TaskDateFields, c);
  }
}
