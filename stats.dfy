/**
 * The `/stats` handler: per-status counts over the whole collection, from
 * six capitalised buckets at zero, plus the collection size as `total`.
 */
module StudentStats {
  import opened Documents
  import opened StudentQuery
  import opened StatusTally
  import StudentList

  const StatsStatuses: seq<string> := ["Prospect", "Applying", "Submitted", "Admitted", "Rejected", "Enrolled"]
  const StatsFallback: string := "Prospect"
  const TotalKey: string := "total"

  /**
   * The `/stats` handler over the stored `students`. `run` stands for the
   * store's query engine. Returns
   * the counting record, the scan size and the response record, which is the
   * counting record with `total` set.
   */
  method Stats(ghost students: Store, run: seq<Clause> -> seq<DocSnapshot>) returns (summary: Tally, total: nat, response: Tally)
    ensures var docs := StudentList.DataOf(run(WholeCollection));
      && total == |docs|
      && (SnapshotOf(students, run(WholeCollection)) ==> total == |students|)
      && DistinctKeys(summary)
      && (forall k :: Lookup(summary, k) == CountStatus(docs, StatsFallback, k))
      && KeySet(summary) == (set k | k in StatsStatuses) + StatusesOf(docs, StatsFallback)
      && Sum(summary) == total
      && |summary| >= |StatsStatuses| && (forall i :: 0 <= i < |StatsStatuses| ==> summary[i].key == StatsStatuses[i])
    ensures DistinctKeys(response)
    ensures Lookup(response, TotalKey) == total
    ensures forall k :: k != TotalKey ==> Lookup(response, k) == Lookup(summary, k)
    ensures KeySet(response) == KeySet(summary) + {TotalKey}
  {
    var snapshot := run(WholeCollection);
    var docs := StudentList.DataOf(snapshot);
    StatsStatusesDistinct();
    summary := CountByStatus(StatsStatuses, StatsFallback, docs);
    total := |snapshot|;
    if SnapshotOf(students, snapshot) {
      SnapshotSize(students, snapshot);
    }
    response := SetKey(summary, TotalKey, total);
  }

  lemma StatsStatusesDistinct()
    ensures forall i, j :: 0 <= i < j < |StatsStatuses| ==> StatsStatuses[i] != StatsStatuses[j]
  {
  }
}
