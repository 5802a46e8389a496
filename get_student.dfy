/**
 * The `/:id` handler: look the student up by its `studentId` field, fall
 * back to the document id, and answer 404 when neither finds a record.
 */
module StudentLookup {
  import opened Wrappers
  import opened Documents
  import opened StudentQuery
  import Shaping

  datatype LookupError = StudentNotFound

  /** The first lookup: at most one student whose `studentId` equals the parameter. */
  function ByStudentId(id: string): (q: seq<Clause>)
    ensures WhereEq("studentId", id) in q && Limit(1) in q
  {
    [WhereEq("studentId", id), Limit(1)]
  }

  /** `found` is what the store answers to `ByStudentId(id)`: at most one matching stored student, and one if any exists. */
  predicate AnswersById(students: Store, id: string, found: seq<DocSnapshot>) {
    && |found| <= 1
    && (forall i :: 0 <= i < |found| ==>
          found[i].id in students && students[found[i].id] == found[i].data && Get(found[i].data, "studentId") == Some(Str(id)))
    && (found == [] ==> forall k :: k in students ==> Get(students[k], "studentId") != Some(Str(id)))
  }

  /**
   * The handler: `run` stands for the store's query engine. A `studentId`
   * match wins; only without one is the parameter tried as a document id.
   */
  function GetStudent(id: string, students: Store, run: seq<Clause> -> seq<DocSnapshot>, c: TimeCodec): (r: Result<Doc, LookupError>)
    ensures run(ByStudentId(id)) != [] ==>
      r == Ok(Shaping.ShapeStudent(run(ByStudentId(id))[0].id, run(ByStudentId(id))[0].data, c))
    ensures run(ByStudentId(id)) == [] ==>
      (r.Ok? <==> id in students) && (id in students ==> r == Ok(Shaping.ShapeStudent(id, students[id], c)))
  {
    var snapshot := run(ByStudentId(id));
    if snapshot == [] then
      if id !in students then Err(StudentNotFound)
      else Ok(Shaping.ShapeStudent(id, students[id], c))
    else
      Ok(Shaping.ShapeStudent(snapshot[0].id, snapshot[0].data, c))
  }

  /**
   * Against a store that answers the `studentId` query faithfully, the
   * handler answers 404 exactly when no student has that `studentId` and no
   * document has that id; otherwise it returns a stored student, shaped, whose
   * `studentId` or document id is the parameter, and whose `id` is its
   * document id.
   */
  lemma GetStudentMeaning(id: string, students: Store, run: seq<Clause> -> seq<DocSnapshot>, c: TimeCodec)
    requires AnswersById(students, id, run(ByStudentId(id)))
    ensures var r := GetStudent(id, students, run, c);
      && (r.Err? <==> id !in students && forall k :: k in students ==> Get(students[k], "studentId") != Some(Str(id)))
      && (r.Ok? ==> exists k :: (&& k in students && r.value == Shaping.ShapeStudent(k, students[k], c)
                                  && (Get(students[k], "studentId") == Some(Str(id)) || k == id)
                                  && r.value["id"] == Str(k)))
  {
    var found := run(ByStudentId(id));
    var r := GetStudent(id, students, run, c);
    if found != [] {
      assert found[0].id in students;
    } else if id in students {
      assert r.value == Shaping.ShapeStudent(id, students[id], c);
    }
  }

  /** A `studentId` match is preferred even when the parameter is also a document id. */
  lemma StudentIdMatchWins(id: string, students: Store, run: seq<Clause> -> seq<DocSnapshot>, c: TimeCodec)
    requires AnswersById(students, id, run(ByStudentId(id)))
    requires exists k :: k in students && Get(students[k], "studentId") == Some(Str(id))
    ensures var found := run(ByStudentId(id));
      && found != []
      && GetStudent(id, students, run, c) == Ok(Shaping.ShapeStudent(found[0].id, students[found[0].id], c))
  {
  }
}
