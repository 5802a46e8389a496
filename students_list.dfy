/**
 * The `/api/students` handler: the same page query as `/search` (with the
 * status filter under the `applicationStatus` parameter), the stored `id`
 * field as the next cursor, and per-status counts over the country- and
 * tag-filtered collection.
 */
module StudentList {
  import opened Wrappers
  import opened Documents
  import opened StudentQuery
  import opened StatusTally

  /** The lower-case statuses the summary starts from, in record order. */
  const SummaryStatuses: seq<string> := ["prospect", "applying", "submitted", "admitted", "rejected", "enrolled"]
  const SummaryFallback: string := "prospect"

  datatype ListResponse = ListResponse(students: seq<Doc>, nextCursor: Value, summary: Tally)

  /** `students.length === PAGE_LIMIT ? students[last].id || null : null`, on the stored rows. */
  function ListNextCursor(rows: seq<Doc>): (r: Value)
    ensures r != Null ==> |rows| == PageLimit && FieldTruthy(rows[|rows| - 1], "id") && r == rows[|rows| - 1]["id"]
    ensures |rows| == PageLimit && FieldTruthy(rows[|rows| - 1], "id") ==> r == rows[|rows| - 1]["id"]
  {
    if |rows| == PageLimit then Or(Get(rows[|rows| - 1], "id"), Some(Null)).value else Null
  }

  /** The data of each page row, in page order, without its document id. */
  function RowData(page: seq<DocSnapshot>): (rows: seq<Doc>)
    ensures |rows| == |page| && forall i :: 0 <= i < |page| ==> rows[i] == page[i].data
  {
    seq(|page|, i requires 0 <= i < |page| => page[i].data)
  }

  /** The data of every scanned document. */
  function DataOf(docs: seq<DocSnapshot>): (data: seq<Doc>)
    ensures |data| == |docs| && forall i :: 0 <= i < |docs| ==> data[i] == docs[i].data
  {
    seq(|docs|, i requires 0 <= i < |docs| => docs[i].data)
  }

  /**
   * The `/api/students` handler. `run` stands for the store's query engine:
   * it returns the documents a query description selects.
   */
  method ListStudents(
    country: string, applicationStatus: string, tags: TagsParam, sort: string, cursor: string, search: string,
    students: Store, run: seq<Clause> -> seq<DocSnapshot>)
    returns (r: Result<ListResponse, CursorError>)
    ensures var q := PageQuery(country, applicationStatus, TagFilter(tags), sort, cursor, search, students);
      && (r.Err? <==> q.Err?)
      && (r.Err? ==> r.error == q.error)
      && (r.Ok? ==> r.value.students == RowData(run(q.value)))
      && (r.Ok? ==> r.value.nextCursor == ListNextCursor(RowData(run(q.value))))
    ensures r.Ok? ==> var summaryDocs := DataOf(run(SummaryQuery(country, TagFilter(tags))));
      var summary := r.value.summary;
      && DistinctKeys(summary)
      && (forall k :: Lookup(summary, k) == CountStatus(summaryDocs, SummaryFallback, k))
      && KeySet(summary) == (set k | k in SummaryStatuses) + StatusesOf(summaryDocs, SummaryFallback)
      && Sum(summary) == |summaryDocs|
      && |summary| >= |SummaryStatuses| && (forall i :: 0 <= i < |SummaryStatuses| ==> summary[i].key == SummaryStatuses[i])
  {
    var query := BuildPageQuery(country, applicationStatus, tags, sort, cursor, search, students);
    if query.Err? {
      return Err(query.error);
    }
    var rows := RowData(run(query.value));
    var nextCursor := ListNextCursor(rows);
    var summaryQuery := BuildSummaryQuery(country, tags);
    SummaryStatusesDistinct();
    var summary := CountByStatus(SummaryStatuses, SummaryFallback, DataOf(run(summaryQuery)));
    return Ok(ListResponse(rows, nextCursor, summary));
  }

  lemma SummaryStatusesDistinct()
    ensures forall i, j :: 0 <= i < j < |SummaryStatuses| ==> SummaryStatuses[i] != SummaryStatuses[j]
  {
  }
}
