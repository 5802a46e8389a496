/**
 * The record shape `/search` and `/:id` answer with: the stored fields, the
 * document id as `id`, and the two date fields as ISO text when they hold
 * store timestamps.
 */
module Shaping {
  import opened Documents
  import Converters

  /** `x?.toDate?.() ? x.toDate().toISOString() : x` on one present field value. */
  function IsoIfStamp(v: Value, c: TimeCodec): (r: Value)
    ensures v.Stamp? ==> r == Str(c.toIso(v.t))
    ensures !v.Stamp? ==> r == v
  {
    if v.Stamp? then Str(c.toIso(v.t)) else v
  }

  /** The response record for document `id` holding `data`. */
  function ShapeStudent(id: DocId, data: Doc, c: TimeCodec): (r: Doc)
    ensures r.Keys == data.Keys + {"id"}
    ensures r["id"] == Str(id)
    ensures forall f :: f in data && f in Converters.StudentDateFields ==> r[f] == IsoIfStamp(data[f], c)
    ensures forall f :: f in data && f !in Converters.StudentDateFields && f != "id" ==> r[f] == data[f]
  {
    map f | f in data.Keys + {"id"} ::
      if f == "id" then Str(id)
      else if f in Converters.StudentDateFields then IsoIfStamp(data[f], c)
      else data[f]
  }

  /**
   * On a record whose two date fields are timestamps, the handlers' shaping is
   * `studentConverter.toApi` with the document id written over any stored `id`.
   */
  lemma ShapeIsToApiWithId(id: DocId, data: Doc, c: TimeCodec)
    requires Converters.StampsAt(data, Converters.StudentDateFields)
    ensures ShapeStudent(id, data, c) == Converters.StudentToApi(data, c)["id" := Str(id)]
  {
    var r := ShapeStudent(id, data, c);
    var api := Converters.StudentToApi(data, c)["id" := Str(id)];
    assert r.Keys == api.Keys;
    forall f | f in r ensures r[f] == api[f] {
      if f != "id" && f in Converters.StudentDateFields {
        assert data[f].Stamp?;
      }
    }
  }

  /** A record without timestamps in its date fields keeps them as they are. */
  lemma ShapeKeepsNonStamps(id: DocId, data: Doc, c: TimeCodec)
    requires forall f :: f in data && f in Converters.StudentDateFields ==> !data[f].Stamp?
    ensures ShapeStudent(id, data, c) == data["id" := Str(id)]
  {
    var r := ShapeStudent(id, data, c);
    assert r.Keys == data["id" := Str(id)].Keys;
  }
}
