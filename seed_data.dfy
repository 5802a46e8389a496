/**
 * The seed script's write buffer: operations are collected into a batch that
 * is committed whenever it reaches 400 operations, and once more at the end;
 * plus the per-student counters the script derives from the records it
 * generates.
 */
module SeedData {
  import opened Documents

  const Limit: nat := 400

  /** One buffered write: a document set or a document delete. */
  datatype Op =
    | SetOp(collection: string, id: DocId, data: Doc)
    | DeleteOp(collection: string, id: DocId)

  /** All operations of a sequence of commits, in commit order. */
  function Flatten(commits: seq<seq<Op>>): seq<Op> {
    if commits == [] then [] else Flatten(commits[..|commits| - 1]) + commits[|commits| - 1]
  }

  lemma FlattenAppend(commits: seq<seq<Op>>, b: seq<Op>)
    ensures Flatten(commits + [b]) == Flatten(commits) + b
  {
    assert (commits + [b])[..|commits|] == commits;
  }

  class BatchHandler {
    /** The operations of the open batch. */
    var batch: seq<Op>
    var count: nat
    /** The batches committed so far, oldest first. */
    var commits: seq<seq<Op>>
    /** Every operation handed to the buffer, in call order. */
    ghost var enqueued: seq<Op>

    /** Every operation handed over is in a commit or in the open batch, in call order; no commit is empty or over the limit. */
    ghost predicate Buffered()
      reads this
    {
      && count == |batch| && count <= Limit
      && (forall i :: 0 <= i < |commits| ==> 1 <= |commits[i]| <= Limit)
      && Flatten(commits) + batch == enqueued
    }

    /** The state between calls: buffered, with the open batch below the limit. */
    ghost predicate Valid()
      reads this
    {
      Buffered() && count < Limit
    }

    constructor ()
      ensures Valid() && batch == [] && commits == [] && enqueued == []
    {
      batch := [];
      count := 0;
      commits := [];
      enqueued := [];
    }

    /** Commit the open batch if it holds anything, and open a fresh one. */
    method Commit()
      requires Buffered()
      modifies this
      ensures Valid() && enqueued == old(enqueued)
      ensures old(count) == 0 ==> batch == old(batch) && count == 0 && commits == old(commits)
      ensures old(count) > 0 ==> commits == old(commits) + [old(batch)] && batch == [] && count == 0
      ensures Flatten(commits) == enqueued
    {
      if count > 0 {
        FlattenAppend(commits, batch);
        commits := commits + [batch];
        batch := [];
        count := 0;
      }
    }

    /** Buffer one operation, committing when the batch reaches the limit. */
    method Add(op: Op)
      requires Valid()
      modifies this
      ensures Valid() && enqueued == old(enqueued) + [op]
      ensures old(count) + 1 < Limit ==> batch == old(batch) + [op] && count == old(count) + 1 && commits == old(commits)
      ensures old(count) + 1 == Limit ==> commits == old(commits) + [old(batch) + [op]] && batch == [] && count == 0
    {
      batch := batch + [op];
      count := count + 1;
      enqueued := enqueued + [op];
      if count >= Limit {
        Commit();
      }
    }

    method Set(collection: string, id: DocId, data: Doc)
      requires Valid()
      modifies this
      ensures Valid() && enqueued == old(enqueued) + [SetOp(collection, id, data)]
      ensures old(count) + 1 < Limit ==> (batch == old(batch) + [SetOp(collection, id, data)]
        && count == old(count) + 1 && commits == old(commits))
      ensures old(count) + 1 == Limit ==> (commits == old(commits) + [old(batch) + [SetOp(collection, id, data)]]
        && batch == [] && count == 0)
    {
      Add(SetOp(collection, id, data));
    }

    method Delete(collection: string, id: DocId)
      requires Valid()
      modifies this
      ensures Valid() && enqueued == old(enqueued) + [DeleteOp(collection, id)]
      ensures old(count) + 1 < Limit ==> (batch == old(batch) + [DeleteOp(collection, id)]
        && count == old(count) + 1 && commits == old(commits))
      ensures old(count) + 1 == Limit ==> (commits == old(commits) + [old(batch) + [DeleteOp(collection, id)]]
        && batch == [] && count == 0)
    {
      Add(DeleteOp(collection, id));
    }
  }

  /** The delete operations for every listed document of one collection, in order. */
  function Deletes(collection: string, ids: seq<DocId>): (ops: seq<Op>)
    ensures |ops| == |ids|
    ensures forall i :: 0 <= i < |ids| ==> ops[i] == DeleteOp(collection, ids[i])
  {
    seq(|ids|, i requires 0 <= i < |ids| => DeleteOp(collection, ids[i]))
  }

  /** A generated record with the fresh id the store assigns it. */
  datatype NewDoc = NewDoc(id: DocId, data: Doc)

  /** The set operations for new records of one collection, in order. */
  function Sets(collection: string, items: seq<NewDoc>): (ops: seq<Op>)
    ensures |ops| == |items|
    ensures forall i :: 0 <= i < |items| ==> ops[i] == SetOp(collection, items[i].id, items[i].data)
  {
    seq(|items|, i requires 0 <= i < |items| => SetOp(collection, items[i].id, items[i].data))
  }

  /** Delete every listed document of one collection through the buffer. */
  method DeleteAll(h: BatchHandler, collection: string, ids: seq<DocId>)
    requires h.Valid()
    modifies h
    ensures h.Valid() && h.enqueued == old(h.enqueued) + Deletes(collection, ids)
  {
    var i := 0;
    while i < |ids|
      invariant 0 <= i <= |ids|
      invariant h.Valid() && h.enqueued == old(h.enqueued) + Deletes(collection, ids[..i])
    {
      assert Deletes(collection, ids[..i + 1]) == Deletes(collection, ids[..i]) + [DeleteOp(collection, ids[i])];
      h.Delete(collection, ids[i]);
      i := i + 1;
    }
    assert ids[..i] == ids;
  }

  /** Set every record of one collection through the buffer. */
  method SetAll(h: BatchHandler, collection: string, items: seq<NewDoc>)
    requires h.Valid()
    modifies h
    ensures h.Valid() && h.enqueued == old(h.enqueued) + Sets(collection, items)
  {
    var i := 0;
    while i < |items|
      invariant 0 <= i <= |items|
      invariant h.Valid() && h.enqueued == old(h.enqueued) + Sets(collection, items[..i])
    {
      assert Sets(collection, items[..i + 1]) == Sets(collection, items[..i]) + [SetOp(collection, items[i].id, items[i].data)];
      h.Set(collection, items[i].id, items[i].data);
      i := i + 1;
    }
    assert items[..i] == items;
  }

  /** The collections the script clears, in order. */
  const SeededCollections: seq<string> := ["students", "communications", "interactions", "notes", "tasks"]

  /** All deletes for the listed documents of each collection, collection by collection. */
  function ClearOps(collections: seq<string>, ids: seq<seq<DocId>>): seq<Op>
    requires |ids| == |collections|
  {
    if collections == [] then []
    else (ClearOps(collections[..|collections| - 1], ids[..|ids| - 1])
          + Deletes(collections[|collections| - 1], ids[|ids| - 1]))
  }

  /**
   * `clearCollections`: `ids[k]` lists the documents of collection `k`; each
   * is deleted through the buffer, then the buffer is flushed, so every
   * operation handed to it has been committed, in call order.
   */
  method ClearCollections(h: BatchHandler, ids: seq<seq<DocId>>)
    requires h.Valid() && |ids| == |SeededCollections|
    modifies h
    ensures h.Valid() && h.enqueued == old(h.enqueued) + ClearOps(SeededCollections, ids)
    ensures Flatten(h.commits) == h.enqueued && h.count == 0
  {
    var k := 0;
    while k < |SeededCollections|
      invariant 0 <= k <= |SeededCollections|
      invariant h.Valid() && h.enqueued == old(h.enqueued) + ClearOps(SeededCollections[..k], ids[..k])
    {
      assert SeededCollections[..k + 1][..k] == SeededCollections[..k];
      assert ids[..k + 1][..k] == ids[..k];
      DeleteAll(h, SeededCollections[k], ids[k]);
      k := k + 1;
    }
    assert SeededCollections[..k] == SeededCollections && ids[..k] == ids;
    h.Commit();
  }

  /** `tasks.filter(t => t.status !== 'completed').length`. */
  function PendingCount(tasks: seq<NewDoc>): (n: nat)
    ensures n <= |tasks|
  {
    if tasks == [] then 0
    else PendingCount(tasks[..|tasks| - 1]) + (if TextOf(tasks[|tasks| - 1].data, "status") != "completed" then 1 else 0)
  }

  function CompletedCount(tasks: seq<NewDoc>): nat {
    if tasks == [] then 0
    else CompletedCount(tasks[..|tasks| - 1]) + (if TextOf(tasks[|tasks| - 1].data, "status") == "completed" then 1 else 0)
  }

  /** Every generated task is either pending or completed. */
  lemma {:induction false} PendingPlusCompleted(tasks: seq<NewDoc>)
    ensures PendingCount(tasks) + CompletedCount(tasks) == |tasks|
  {
    if tasks != [] {
      PendingPlusCompleted(tasks[..|tasks| - 1]);
    }
  }

  /** The generated student record with its two derived counters and its own document id. */
  function StudentRecord(base: Doc, id: DocId, communications: seq<NewDoc>, tasks: seq<NewDoc>): Doc
  {
    base["countCommunications" := Num(|communications|)]["countPendingTasks" := Num(PendingCount(tasks))]["id" := Str(id)]
  }

  /**
   * The generated record keeps the base fields and adds the two counters and
   * the id; its pending counter and the completed tasks account for every task.
   */
  lemma StudentRecordFields(base: Doc, id: DocId, communications: seq<NewDoc>, tasks: seq<NewDoc>)
    ensures var d := StudentRecord(base, id, communications, tasks);
      && d.Keys == base.Keys + {"countCommunications", "countPendingTasks", "id"}
      && d["countCommunications"] == Num(|communications|)
      && d["countPendingTasks"] == Num(PendingCount(tasks))
      && d["id"] == Str(id)
      && d["countPendingTasks"].n + CompletedCount(tasks) == |tasks|
      && forall f :: f in base && f !in {"countCommunications", "countPendingTasks", "id"} ==> f in d && d[f] == base[f]
  {
    var d1 := base["countCommunications" := Num(|communications|)];
    var d2 := d1["countPendingTasks" := Num(PendingCount(tasks))];
    var d := d2["id" := Str(id)];
    assert StudentRecord(base, id, communications, tasks) == d;
    assert d.Keys == d2.Keys + {"id"} && d2.Keys == d1.Keys + {"countPendingTasks"};
    assert d1.Keys == base.Keys + {"countCommunications"};
    PendingPlusCompleted(tasks);
  }

  /** The related records of one generated student. */
  datatype Related = Related(interactions: seq<NewDoc>, communications: seq<NewDoc>, notes: seq<NewDoc>, tasks: seq<NewDoc>)

  /** The operations for a student's related records: interactions, communications, notes, then tasks. */
  function RelatedOps(r: Related): seq<Op> {
    Sets("interactions", r.interactions) + Sets("communications", r.communications)
      + Sets("notes", r.notes) + Sets("tasks", r.tasks)
  }

  /** The operations for one student: the student record first, then its related records. */
  function StudentOps(base: Doc, id: DocId, r: Related): seq<Op> {
    [SetOp("students", id, StudentRecord(base, id, r.communications, r.tasks))] + RelatedOps(r)
  }

  /** Buffer a student's related records, collection by collection. */
  method SetRelated(h: BatchHandler, r: Related)
    requires h.Valid()
    modifies h
    ensures h.Valid() && h.enqueued == old(h.enqueued) + RelatedOps(r)
  {
    ghost var before := h.enqueued;
    SetAll(h, "interactions", r.interactions);
    ghost var ops := Sets("interactions", r.interactions);
    assert h.enqueued == before + ops;
    SetAll(h, "communications", r.communications);
    ops := ops + Sets("communications", r.communications);
    assert h.enqueued == before + ops;
    SetAll(h, "notes", r.notes);
    ops := ops + Sets("notes", r.notes);
    assert h.enqueued == before + ops;
    SetAll(h, "tasks", r.tasks);
    ops := ops + Sets("tasks", r.tasks);
    assert h.enqueued == before + ops;
  }

  /** One iteration of the seeding loop: buffer the student, then its related records. */
  method SeedStudent(h: BatchHandler, base: Doc, id: DocId, r: Related)
    requires h.Valid()
    modifies h
    ensures h.Valid() && h.enqueued == old(h.enqueued) + StudentOps(base, id, r)
  {
    ghost var before := h.enqueued;
    var student := StudentRecord(base, id, r.communications, r.tasks);
    h.Set("students", id, student);
    assert h.enqueued == before + [SetOp("students", id, student)];
    SetRelated(h, r);
    assert h.enqueued == before + [SetOp("students", id, student)] + RelatedOps(r);
  }

  /** One generated student: its base record, the id the store assigns it, and its related records. */
  datatype StudentSeed = StudentSeed(base: Doc, id: DocId, related: Related)

  /** The operations of all generated students, student by student. */
  function AllStudentOps(seeds: seq<StudentSeed>): seq<Op>
  {
    if seeds == [] then []
    else
      var last := seeds[|seeds| - 1];
      AllStudentOps(seeds[..|seeds| - 1]) + StudentOps(last.base, last.id, last.related)
  }

  /** Appending the next student's operations extends the operations of the students so far. */
  lemma {:induction false} SeedStep(before: seq<Op>, seeds: seq<StudentSeed>, i: nat, e1: seq<Op>, e2: seq<Op>)
    requires i < |seeds|
    requires e1 == before + AllStudentOps(seeds[..i])
    requires e2 == e1 + StudentOps(seeds[i].base, seeds[i].id, seeds[i].related)
    ensures e2 == before + AllStudentOps(seeds[..i + 1])
  {
    assert seeds[..i + 1][..i] == seeds[..i];
  }

  /** The seeding loop: every generated student with its related records, student by student. */
  method SeedStudents(h: BatchHandler, seeds: seq<StudentSeed>)
    requires h.Valid()
    modifies h
    ensures h.Valid() && h.enqueued == old(h.enqueued) + AllStudentOps(seeds)
  {
    ghost var before := h.enqueued;
    var i := 0;
    while i < |seeds|
      invariant 0 <= i <= |seeds|
      invariant h.Valid() && h.enqueued == before + AllStudentOps(seeds[..i])
    {
      ghost var e1 := h.enqueued;
      SeedStudent(h, seeds[i].base, seeds[i].id, seeds[i].related);
      SeedStep(before, seeds, i, e1, h.enqueued);
      i := i + 1;
    }
    assert seeds[..i] == seeds;
  }

  /**
   * `seedData` with its random choices made in advance: clear the five
   * collections, buffer every generated student with its related records,
   * and flush. Every operation is committed exactly once, in call order.
   */
  method Seed(h: BatchHandler, clearIds: seq<seq<DocId>>, seeds: seq<StudentSeed>)
    requires h.Valid() && |clearIds| == |SeededCollections|
    modifies h
    ensures h.Valid() && h.count == 0
    ensures h.enqueued == old(h.enqueued) + ClearOps(SeededCollections, clearIds) + AllStudentOps(seeds)
    ensures Flatten(h.commits) == h.enqueued
  {
    ClearCollections(h, clearIds);
    SeedStudents(h, seeds);
    h.Commit();
  }
}
